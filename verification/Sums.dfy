// Finite sums over an index range, and the few laws the solvers' proofs need.
module Sums {

  // f(lo) + ... + f(hi - 1), accumulated left to right as the loops of the source do.
  function Sum(f: nat -> real, lo: nat, hi: nat): real
    requires lo <= hi
    decreases hi - lo
  {
    if lo == hi then 0.0 else Sum(f, lo, hi - 1) + f(hi - 1)
  }

  lemma {:induction false} SumExt(f: nat -> real, g: nat -> real, lo: nat, hi: nat)
    requires lo <= hi
    requires forall i: nat :: lo <= i < hi ==> f(i) == g(i)
    ensures Sum(f, lo, hi) == Sum(g, lo, hi)
    decreases hi - lo
  {
    if lo < hi {
      SumExt(f, g, lo, hi - 1);
    }
  }

  lemma {:induction false} SumSplit(f: nat -> real, lo: nat, mid: nat, hi: nat)
    requires lo <= mid <= hi
    ensures Sum(f, lo, hi) == Sum(f, lo, mid) + Sum(f, mid, hi)
    decreases hi - mid
  {
    if mid < hi {
      SumSplit(f, lo, mid, hi - 1);
    }
  }

  lemma {:induction false} SumLinear(f: nat -> real, g: nat -> real, h: nat -> real, a: real, b: real, lo: nat, hi: nat)
    requires lo <= hi
    requires forall i: nat :: lo <= i < hi ==> h(i) == a * f(i) + b * g(i)
    ensures Sum(h, lo, hi) == a * Sum(f, lo, hi) + b * Sum(g, lo, hi)
    decreases hi - lo
  {
    if lo < hi {
      SumLinear(f, g, h, a, b, lo, hi - 1);
    }
  }

  lemma {:induction false} SumPlus(f: nat -> real, g: nat -> real, h: nat -> real, lo: nat, hi: nat)
    requires lo <= hi
    requires forall i: nat :: lo <= i < hi ==> h(i) == f(i) + g(i)
    ensures Sum(h, lo, hi) == Sum(f, lo, hi) + Sum(g, lo, hi)
    decreases hi - lo
  {
    if lo < hi {
      SumPlus(f, g, h, lo, hi - 1);
    }
  }

  lemma {:induction false} SumScale(f: nat -> real, h: nat -> real, a: real, lo: nat, hi: nat)
    requires lo <= hi
    requires forall i: nat :: lo <= i < hi ==> h(i) == a * f(i)
    ensures Sum(h, lo, hi) == a * Sum(f, lo, hi)
    decreases hi - lo
  {
    if lo < hi {
      SumScale(f, h, a, lo, hi - 1);
    }
  }

  lemma {:induction false} SumZero(f: nat -> real, lo: nat, hi: nat)
    requires lo <= hi
    requires forall i: nat :: lo <= i < hi ==> f(i) == 0.0
    ensures Sum(f, lo, hi) == 0.0
    decreases hi - lo
  {
    if lo < hi {
      SumZero(f, lo, hi - 1);
    }
  }

  lemma {:induction false} SumMono(f: nat -> real, g: nat -> real, lo: nat, hi: nat)
    requires lo <= hi
    requires forall i: nat :: lo <= i < hi ==> f(i) <= g(i)
    ensures Sum(f, lo, hi) <= Sum(g, lo, hi)
    decreases hi - lo
  {
    if lo < hi {
      SumMono(f, g, lo, hi - 1);
    }
  }

  lemma {:induction false} SumNonNegative(f: nat -> real, lo: nat, hi: nat)
    requires lo <= hi
    requires forall i: nat :: lo <= i < hi ==> 0.0 <= f(i)
    ensures 0.0 <= Sum(f, lo, hi)
    decreases hi - lo
  {
    if lo < hi {
      SumNonNegative(f, lo, hi - 1);
    }
  }

  lemma SumGap(f: nat -> real, g: nat -> real, h: nat -> real, w: real, n: nat)
    requires w >= 0.0 && Sum(g, 0, n) <= Sum(f, 0, n)
    requires forall i: nat :: i < n ==> h(i) == w * f(i) + (-w) * g(i)
    ensures 0.0 <= Sum(h, 0, n)
  {
    SumLinear(f, g, h, w, -w, 0, n);
    var a, b := Sum(f, 0, n), Sum(g, 0, n);
    assert Sum(h, 0, n) == w * (a - b);
  }

  // A sum whose only nonzero term is at k.
  lemma {:induction false} SumOnly(f: nat -> real, k: nat, lo: nat, hi: nat)
    requires lo <= k < hi
    requires forall i: nat :: lo <= i < hi && i != k ==> f(i) == 0.0
    ensures Sum(f, lo, hi) == f(k)
    decreases hi - lo
  {
    if k == hi - 1 {
      SumZero(f, lo, hi - 1);
    } else {
      SumOnly(f, k, lo, hi - 1);
    }
  }

  function Row(f: (nat, nat) -> real, i: nat): nat -> real {
    (j: nat) => f(i, j)
  }

  function Column(f: (nat, nat) -> real, j: nat): nat -> real {
    (i: nat) => f(i, j)
  }

  function RowSums(f: (nat, nat) -> real, n: nat): nat -> real {
    (i: nat) => Sum(Row(f, i), 0, n)
  }

  function ColumnSums(f: (nat, nat) -> real, m: nat): nat -> real {
    (j: nat) => Sum(Column(f, j), 0, m)
  }

  // Exchanging the order of a double sum.
  lemma {:induction false} SumSwap(f: (nat, nat) -> real, m: nat, n: nat)
    ensures Sum(RowSums(f, n), 0, m) == Sum(ColumnSums(f, m), 0, n)
    decreases m
  {
    if m == 0 {
      SumZero(ColumnSums(f, 0), 0, n);
    } else {
      SumSwap(f, m - 1, n);
      forall j: nat | 0 <= j < n
        ensures ColumnSums(f, m)(j) == 1.0 * ColumnSums(f, m - 1)(j) + 1.0 * Row(f, m - 1)(j)
      {
        assert Sum(Column(f, j), 0, m) == Sum(Column(f, j), 0, m - 1) + Column(f, j)(m - 1);
      }
      SumLinear(ColumnSums(f, m - 1), Row(f, m - 1), ColumnSums(f, m), 1.0, 1.0, 0, n);
    }
  }

  // A product kept as one term.
  function Times(x: real, y: real): real {
    x * y
  }

  lemma TimesSum(x: real, a: real, b: real, sum: real, xa: real, xb: real)
    requires sum == a + b && xa == Times(x, a) && xb == Times(x, b)
    ensures Times(x, sum) == xa + xb
  {
  }

  lemma TimesOne(x: real)
    ensures Times(1.0, x) == x
  {
  }

  lemma TimesByOne(x: real)
    ensures Times(x, 1.0) == x
  {
  }

  lemma TimesZero(x: real)
    ensures Times(x, 0.0) == 0.0
  {
  }

  lemma TimesTimes(x: real, y: real, z: real)
    ensures Times(Times(x, y), z) == Times(x, Times(y, z))
  {
  }
}
