// Regret matching and average strategies of one information-set node, and the potential argument
// that bounds how fast positive regret can grow.
module RegretMatching {
  import opened Sums

  function Nth(s: seq<real>): nat -> real {
    (i: nat) => if i < |s| then s[i] else 0.0
  }

  function Total(s: seq<real>): real {
    Sum(Nth(s), 0, |s|)
  }

  function PositivePart(x: real): real {
    if x > 0.0 then x else 0.0
  }

  function Positives(r: seq<real>): (p: seq<real>)
    ensures |p| == |r|
  {
    seq(|r|, (i: nat) requires i < |r| => PositivePart(r[i]))
  }

  // Play each action in proportion to its positive regret, or uniformly when there is none.
  function Match(r: seq<real>): (p: seq<real>)
    requires |r| > 0
    ensures |p| == |r|
  {
    var t := Total(Positives(r));
    seq(|r|, (i: nat) requires i < |r| => if t == 0.0 then 1.0 / (|r| as real) else PositivePart(r[i]) / t)
  }

  ghost predicate Distribution(p: seq<real>) {
    && (forall i :: 0 <= i < |p| ==> p[i] >= 0.0)
    && Total(p) == 1.0
  }

  lemma TotalNonNegative(r: seq<real>)
    ensures Total(Positives(r)) >= 0.0
    ensures forall i :: 0 <= i < |r| ==> PositivePart(r[i]) <= Total(Positives(r))
  {
    SumNonNegative(Nth(Positives(r)), 0, |r|);
    forall i | 0 <= i < |r| ensures PositivePart(r[i]) <= Total(Positives(r)) {
      var only := (j: nat) => if j == i then PositivePart(r[i]) else 0.0;
      SumOnly(only, i, 0, |r|);
      SumMono(only, Nth(Positives(r)), 0, |r|);
    }
  }

  lemma {:induction false} SumConstant(f: nat -> real, c: real, n: nat)
    requires forall i: nat :: i < n ==> f(i) == c
    ensures Sum(f, 0, n) == c * (n as real)
  {
    if n > 0 {
      SumConstant(f, c, n - 1);
    }
  }

  lemma Quotient(x: real, t: real)
    requires t > 0.0
    ensures x / t == (1.0 / t) * x
    ensures x >= 0.0 ==> x / t >= 0.0
  {
  }

  lemma MatchIsUniform(r: seq<real>)
    requires |r| > 0 && Total(Positives(r)) == 0.0
    ensures Distribution(Match(r))
  {
    SumConstant(Nth(Match(r)), 1.0 / (|r| as real), |r|);
  }

  lemma MatchIsProportional(r: seq<real>)
    requires |r| > 0 && Total(Positives(r)) > 0.0
    ensures Distribution(Match(r))
  {
    var t, p := Total(Positives(r)), Match(r);
    forall i: nat | i < |r| ensures Nth(p)(i) == (1.0 / t) * Nth(Positives(r))(i) && p[i] >= 0.0 {
      Quotient(PositivePart(r[i]), t);
    }
    SumScale(Nth(Positives(r)), Nth(p), 1.0 / t, 0, |r|);
  }

  // Regret matching always yields a probability distribution.
  lemma MatchIsDistribution(r: seq<real>)
    requires |r| > 0
    ensures Distribution(Match(r))
  {
    TotalNonNegative(r);
    if Total(Positives(r)) == 0.0 {
      MatchIsUniform(r);
    } else {
      MatchIsProportional(r);
    }
  }

  lemma SameShare(x: real, y: real, t: real)
    requires t != 0.0
    ensures (x / t) * y == (y / t) * x
  {
  }

  // Regret matching by what it does: two actions are played in the ratio of their positive regrets, an action without
  // positive regret is not played while another has some, and if none has they are all played alike.
  lemma MatchIsFair(r: seq<real>, a: nat, b: nat)
    requires a < |r| && b < |r|
    ensures Match(r)[a] * (if r[b] > 0.0 then r[b] else 0.0) == Match(r)[b] * (if r[a] > 0.0 then r[a] else 0.0)
    ensures r[a] <= 0.0 < r[b] ==> Match(r)[a] == 0.0 < Match(r)[b]
    ensures (forall c :: 0 <= c < |r| ==> r[c] <= 0.0) ==> Match(r)[a] == 1.0 / (|r| as real)
  {
    var t := Total(Positives(r));
    TotalNonNegative(r);
    if forall c :: 0 <= c < |r| ==> r[c] <= 0.0 {
      SumZero(Nth(Positives(r)), 0, |r|);
    }
    if t != 0.0 {
      SameShare(PositivePart(r[a]), PositivePart(r[b]), t);
      Quotient(PositivePart(r[b]), t);
    }
  }

  // ---- The loops of the source ----

  // The largest entry, or zero when none is positive.
  ghost predicate IsMaximum(m: real, r: seq<real>, n: nat)
    requires n <= |r|
  {
    && m >= 0.0
    && (forall i :: 0 <= i < n ==> r[i] <= m)
    && (m == 0.0 || exists i :: 0 <= i < n && r[i] == m)
  }

  lemma ZeroMaximum(r: seq<real>, m: real)
    requires IsMaximum(m, r, |r|)
    ensures m == 0.0 <==> Total(Positives(r)) == 0.0
  {
    TotalNonNegative(r);
    if m == 0.0 {
      SumZero(Nth(Positives(r)), 0, |r|);
    }
  }

  // Scaling by the maximum before normalising cancels out.
  lemma ScalingCancels(x: real, m: real, t: real, scaled: real)
    requires m > 0.0 && t > 0.0 && scaled == t / m
    ensures scaled > 0.0 && (x / m) / scaled == x / t
  {
    assert x / m == (x / t) * scaled;
  }

  lemma ScaledStep(s: real, before: real, x: real, m: real)
    requires m > 0.0 && s == before / m
    ensures s + x / m == (before + x) / m
  {
  }

  method Maximum(values: array<real>, n: nat) returns (maximum: real)
    requires n <= values.Length
    ensures IsMaximum(maximum, values[..n], n)
  {
    maximum := 0.0;
    for i := 0 to n
      invariant IsMaximum(maximum, values[..n], i)
    {
      if values[i] > maximum {
        maximum := values[i];
      }
    }
  }

  method FillUniform(strategy: array<real>, n: nat, ghost r: seq<real>)
    requires 0 < n == |r| <= strategy.Length && Total(Positives(r)) == 0.0
    modifies strategy
    ensures strategy[..n] == Match(r) && strategy[n..] == old(strategy[n..])
  {
    for i := 0 to n
      invariant forall k :: 0 <= k < i ==> strategy[k] == Match(r)[k]
      invariant strategy[n..] == old(strategy[n..])
    {
      strategy[i] := 1.0 / (n as real);
    }
  }

  ghost predicate Scaled(s: seq<real>, r: seq<real>, maximum: real, i: nat)
    requires maximum > 0.0 && i <= |r| <= |s|
  {
    forall k :: 0 <= k < i ==> s[k] == PositivePart(r[k]) / maximum
  }

  // Writes the positive regrets divided by the largest one, and returns their sum.
  method ScalePositive(regrets: array<real>, maximum: real, strategy: array<real>) returns (sum: real)
    requires regrets != strategy && regrets.Length <= strategy.Length && maximum > 0.0
    modifies strategy
    ensures sum == Total(Positives(regrets[..])) / maximum
    ensures Scaled(strategy[..], regrets[..], maximum, regrets.Length)
    ensures strategy[regrets.Length..] == old(strategy[regrets.Length..])
  {
    var n := regrets.Length;
    ghost var r := regrets[..];
    sum := 0.0;
    for i := 0 to n
      invariant sum == Sum(Nth(Positives(r)), 0, i) / maximum
      invariant Scaled(strategy[..], r, maximum, i)
      invariant strategy[n..] == old(strategy[n..])
    {
      ScaledStep(sum, Sum(Nth(Positives(r)), 0, i), PositivePart(r[i]), maximum);
      if regrets[i] > 0.0 {
        var scaled := regrets[i] / maximum;
        sum := sum + scaled;
        strategy[i] := scaled;
      } else {
        strategy[i] := 0.0;
      }
    }
  }

  method Normalise(strategy: array<real>, n: nat, sum: real, ghost r: seq<real>, ghost maximum: real)
    requires 0 < n == |r| <= strategy.Length && maximum > 0.0 && Total(Positives(r)) > 0.0
    requires sum == Total(Positives(r)) / maximum
    requires Scaled(strategy[..], r, maximum, n)
    modifies strategy
    ensures strategy[..n] == Match(r) && strategy[n..] == old(strategy[n..])
  {
    for i := 0 to n
      invariant forall k :: 0 <= k < i ==> strategy[k] == Match(r)[k]
      invariant forall k :: i <= k < n ==> strategy[k] == PositivePart(r[k]) / maximum
      invariant strategy[n..] == old(strategy[n..])
    {
      ScalingCancels(PositivePart(r[i]), maximum, Total(Positives(r)), sum);
      if strategy[i] > 0.0 {
        strategy[i] := strategy[i] / sum;
      }
    }
  }

  // Fills the caller's buffer with the current strategy of a locked node.
  method CurrentStrategyLocked(regrets: array<real>, strategy: array<real>)
    requires regrets != strategy && 0 < regrets.Length <= strategy.Length
    modifies strategy
    ensures strategy[..regrets.Length] == Match(regrets[..])
    ensures strategy[regrets.Length..] == old(strategy[regrets.Length..])
  {
    ghost var r := regrets[..];
    var maximum := Maximum(regrets, regrets.Length);
    assert regrets[..regrets.Length] == r;
    ZeroMaximum(r, maximum);
    TotalNonNegative(r);
    if maximum == 0.0 {
      FillUniform(strategy, regrets.Length, r);
    } else {
      var sum := ScalePositive(regrets, maximum, strategy);
      Normalise(strategy, regrets.Length, sum, r, maximum);
    }
  }

  lemma RatioStep(s: real, before: real, x: real, m: real)
    requires m > 0.0 && s == before / m
    ensures s + x / m == (before + x) / m
  {
  }

  // The sum of the positive entries, each divided by the largest.
  method SumOfRatios(values: array<real>, n: nat, maximum: real) returns (sum: real)
    requires n <= values.Length && maximum > 0.0
    ensures sum == Total(Positives(values[..n])) / maximum
  {
    ghost var r := values[..n];
    sum := 0.0;
    for i := 0 to n
      invariant sum == Sum(Nth(Positives(r)), 0, i) / maximum
    {
      RatioStep(sum, Sum(Nth(Positives(r)), 0, i), PositivePart(r[i]), maximum);
      if values[i] > 0.0 {
        sum := sum + values[i] / maximum;
      }
    }
  }

  // Turns a stable copy of the regrets, already in the caller's buffer, into the strategy. This is
  // what the lock-free reader does once its copy has been accepted.
  method CurrentStrategyInPlace(strategy: array<real>, n: nat)
    requires 0 < n <= strategy.Length
    modifies strategy
    ensures strategy[..n] == Match(old(strategy[..n]))
    ensures strategy[n..] == old(strategy[n..])
  {
    ghost var r := strategy[..n];
    var maximum := Maximum(strategy, n);
    ZeroMaximum(r, maximum);
    TotalNonNegative(r);
    if maximum == 0.0 {
      FillUniform(strategy, n, r);
    } else {
      var sum := SumOfRatios(strategy, n, maximum);
      for i := 0 to n
        invariant forall k :: 0 <= k < i ==> strategy[k] == Match(r)[k]
        invariant forall k :: i <= k < n ==> strategy[k] == r[k]
        invariant strategy[n..] == old(strategy[n..])
      {
        ScalingCancels(r[i], maximum, Total(Positives(r)), sum);
        strategy[i] := if strategy[i] > 0.0 then (strategy[i] / maximum) / sum else 0.0;
      }
    }
  }

  predicate AllNonNegative(s: seq<real>) {
    forall i :: 0 <= i < |s| ==> s[i] >= 0.0
  }

  // Fills the caller's buffer with the average strategy. A negative accumulator is an error, found
  // before anything is written.
  method AverageStrategyLocked(sums: array<real>, strategy: array<real>) returns (ok: bool)
    requires sums != strategy && 0 < sums.Length <= strategy.Length
    modifies strategy
    ensures ok <==> AllNonNegative(sums[..])
    ensures ok ==> strategy[..sums.Length] == Match(sums[..]) && strategy[sums.Length..] == old(strategy[sums.Length..])
    ensures !ok ==> strategy[..] == old(strategy[..])
  {
    var n := sums.Length;
    ghost var r := sums[..];
    var maximum := 0.0;
    for i := 0 to n
      invariant IsMaximum(maximum, r, i)
      invariant forall k :: 0 <= k < i ==> r[k] >= 0.0
    {
      if sums[i] < 0.0 {
        return false;
      }
      if sums[i] > maximum {
        maximum := sums[i];
      }
    }
    ok := true;
    ZeroMaximum(r, maximum);
    TotalNonNegative(r);
    assert sums[..n] == r;
    if maximum == 0.0 {
      FillUniform(strategy, n, r);
    } else {
      var sum := SumOfRatios(sums, n, maximum);
      for i := 0 to n
        invariant forall k :: 0 <= k < i ==> strategy[k] == Match(r)[k]
        invariant strategy[n..] == old(strategy[n..])
      {
        ScalingCancels(r[i], maximum, Total(Positives(r)), sum);
        strategy[i] := if sums[i] > 0.0 then (sums[i] / maximum) / sum else 0.0;
      }
    }
  }

  // ---- The regret potential ----

  function Dot(p: seq<real>, d: seq<real>): real
    requires |p| == |d|
  {
    Sum(Products(p, d), 0, |p|)
  }

  function Products(p: seq<real>, d: seq<real>): nat -> real
    requires |p| == |d|
  {
    (i: nat) => if i < |p| then p[i] * d[i] else 0.0
  }

  function Plus(r: seq<real>, d: seq<real>): (s: seq<real>)
    requires |r| == |d|
    ensures |s| == |r|
  {
    seq(|r|, (i: nat) requires i < |r| == |d| => r[i] + d[i])
  }

  function SquareNorm(d: seq<real>): real {
    Dot(d, d)
  }

  // The sum of squared positive regrets.
  function Potential(r: seq<real>): real {
    SquareNorm(Positives(r))
  }

  lemma SquareStep(x: real, y: real)
    ensures PositivePart(x + y) * PositivePart(x + y) <= PositivePart(x) * PositivePart(x) + 2.0 * (PositivePart(x) * y) + y * y
  {
    var p := PositivePart(x);
    assert (p + y) * (p + y) == p * p + 2.0 * (p * y) + y * y;
    if x + y > 0.0 && x < 0.0 {
      var z := x + y;
      assert y * y == z * z - x * z - x * y;
    }
  }

  lemma ProportionalTerm(x: real, t: real, y: real, q: real)
    requires t > 0.0 && q == x / t
    ensures x * y == t * (q * y)
  {
  }

  // Against a delta orthogonal to the strategy, positive regret has no first-order growth.
  lemma PositivesOrthogonal(r: seq<real>, d: seq<real>)
    requires |r| == |d| > 0 && Dot(Match(r), d) == 0.0
    ensures Dot(Positives(r), d) == 0.0
  {
    TotalNonNegative(r);
    var t := Total(Positives(r));
    if t == 0.0 {
      forall i: nat | i < |r| ensures Products(Positives(r), d)(i) == 0.0 {
        assert PositivePart(r[i]) == 0.0;
      }
      SumZero(Products(Positives(r), d), 0, |r|);
    } else {
      forall i: nat | i < |r| ensures Products(Positives(r), d)(i) == t * Products(Match(r), d)(i) {
        ProportionalTerm(PositivePart(r[i]), t, d[i], Match(r)[i]);
      }
      SumScale(Products(Match(r), d), Products(Positives(r), d), t, 0, |r|);
    }
  }

  // One commit whose delta is orthogonal to the current strategy adds at most its squared norm.
  lemma PotentialStep(r: seq<real>, d: seq<real>)
    requires |r| == |d| > 0 && Dot(Match(r), d) == 0.0
    ensures Potential(Plus(r, d)) <= Potential(r) + SquareNorm(d)
  {
    PositivesOrthogonal(r, d);
    var p, s := Positives(r), Positives(Plus(r, d));
    var pp, pd, dd := Products(p, p), Products(p, d), Products(d, d);
    var bound := (i: nat) => 1.0 * pp(i) + 2.0 * pd(i);
    var total := (i: nat) => 1.0 * bound(i) + 1.0 * dd(i);
    forall i: nat | i < |r| ensures Products(s, s)(i) <= total(i) {
      SquareStep(r[i], d[i]);
    }
    SumMono(Products(s, s), total, 0, |r|);
    SumLinear(pp, pd, bound, 1.0, 2.0, 0, |r|);
    SumLinear(bound, dd, total, 1.0, 1.0, 0, |r|);
  }

  // Clamping negative regrets to zero, as CFR+ does after a commit, leaves the potential alone.
  lemma ClampKeepsPotential(r: seq<real>)
    ensures Potential(Positives(r)) == Potential(r)
  {
    assert Positives(Positives(r)) == Positives(r);
  }

  function Commit(r: seq<real>, d: seq<real>, plus: bool): (s: seq<real>)
    requires |r| == |d|
    ensures |s| == |r|
  {
    if plus then Positives(Plus(r, d)) else Plus(r, d)
  }

  // Strategy changes that are not negative and keep the sums from becoming so.
  predicate Allowed(s: seq<real>, d: seq<real>)
    requires |s| == |d|
  {
    forall i: nat :: i < |d| ==> d[i] >= 0.0 && s[i] + d[i] >= 0.0
  }

  // A run of commits on one node: rs[t+1] is rs[t] after the delta ds[t].
  ghost predicate CommitRun(rs: seq<seq<real>>, ds: seq<seq<real>>, plus: bool) {
    && |rs| == |ds| + 1
    && forall t :: 0 <= t < |ds| ==>
      && |rs[t]| == |ds[t]| > 0
      && Dot(Match(rs[t]), ds[t]) == 0.0
      && rs[t + 1] == Commit(rs[t], ds[t], plus)
  }

  function Norms(ds: seq<seq<real>>): nat -> real {
    (t: nat) => if t < |ds| then SquareNorm(ds[t]) else 0.0
  }

  // Over any run of orthogonal commits, with or without clamping, the potential grows by at most
  // the sum of the squared norms.
  lemma {:induction false} PotentialOverRun(rs: seq<seq<real>>, ds: seq<seq<real>>, plus: bool, t: nat)
    requires CommitRun(rs, ds, plus) && t <= |ds|
    ensures Potential(rs[t]) <= Potential(rs[0]) + Sum(Norms(ds), 0, t)
  {
    if t > 0 {
      PotentialOverRun(rs, ds, plus, t - 1);
      PotentialStep(rs[t - 1], ds[t - 1]);
      ClampKeepsPotential(Plus(rs[t - 1], ds[t - 1]));
      assert rs[(t - 1) + 1] == Commit(rs[t - 1], ds[t - 1], plus);
    }
  }

  lemma SquareWithinPotential(r: seq<real>, a: nat)
    requires a < |r|
    ensures PositivePart(r[a]) * PositivePart(r[a]) <= Potential(r)
  {
    var p := Positives(r);
    var only := (j: nat) => if j == a then p[a] * p[a] else 0.0;
    SumOnly(only, a, 0, |r|);
    SumMono(only, Products(p, p), 0, |r|);
  }

  // Starting from a fresh node, every action's regret r satisfies r^2 <= T * b after T commits of
  // squared norm at most b: cumulative regret grows no faster than the square root of T.
  lemma RegretGrowsSublinearly(rs: seq<seq<real>>, ds: seq<seq<real>>, plus: bool, t: nat, a: nat, b: real)
    requires CommitRun(rs, ds, plus) && t <= |ds| && a < |rs[t]|
    requires forall i :: 0 <= i < |rs[0]| ==> rs[0][i] == 0.0
    requires forall i :: 0 <= i < |ds| ==> SquareNorm(ds[i]) <= b
    ensures PositivePart(rs[t][a]) * PositivePart(rs[t][a]) <= b * (t as real)
  {
    PotentialOverRun(rs, ds, plus, t);
    SumZero(Products(Positives(rs[0]), Positives(rs[0])), 0, |rs[0]|);
    var bounds := (i: nat) => b;
    SumMono(Norms(ds), bounds, 0, t);
    SumConstant(bounds, b, t);
    SquareWithinPotential(rs[t], a);
  }
}
