// How src/mccfr.c turns one random 64-bit word into an action: all the words are divided into
// consecutive intervals, one per action that has any probability at all.
module Sampling {

  const WORD: nat := 0x1_0000_0000_0000_0000

  datatype Option<T> = None | Some(value: T)

  // The sum of the first n probabilities.
  function Cumulative(p: seq<real>, n: nat): real
    requires n <= |p|
    decreases n
  {
    if n == 0 then 0.0 else Cumulative(p, n - 1) + p[n - 1]
  }

  // The number of positive ones among the first n.
  function Positive(p: seq<real>, n: nat): (k: nat)
    requires n <= |p|
    ensures k <= n
    decreases n
  {
    if n == 0 then 0 else Positive(p, n - 1) + if p[n - 1] > 0.0 then 1 else 0
  }

  predicate Valid(p: seq<real>) {
    (forall i: nat :: i < |p| ==> p[i] >= 0.0) && Cumulative(p, |p|) > 0.0
  }

  // Where the interval of the words up to a cumulative share of c would end, rounded down.
  function Scaled(c: real, sum: real): nat
    requires sum > 0.0
  {
    var x := c / sum * (WORD as real);
    if x <= 0.0 then 0 else if x >= (WORD - 1) as real then WORD - 1 else x.Floor
  }

  // At least one word more than before, and one left for every positive action to come.
  function Clamped(e: nat, low: nat, high: nat): nat {
    var raised := if e < low then low else e;
    if raised > high then high else raised
  }

  // Where the intervals of the first n actions end.
  function End(p: seq<real>, n: nat): nat
    requires n <= |p| && Valid(p)
    decreases n
  {
    if n == 0 then 0
    else if p[n - 1] <= 0.0 then End(p, n - 1)
    else if Positive(p, n) == Positive(p, |p|) then WORD
    else
      var left := Positive(p, |p|) - Positive(p, n);
      Clamped(Scaled(Cumulative(p, n), Cumulative(p, |p|)), End(p, n - 1) + 1, if left < WORD then WORD - left else 0)
  }

  lemma {:induction false} CumulativeGrows(p: seq<real>, m: nat, n: nat)
    requires Valid(p) && m <= n <= |p|
    ensures 0.0 <= Cumulative(p, m) <= Cumulative(p, n)
    ensures Positive(p, m) <= Positive(p, n)
    ensures Positive(p, m) == 0 ==> Cumulative(p, m) == 0.0
    ensures Positive(p, m) == Positive(p, n) ==> Cumulative(p, m) == Cumulative(p, n)
    decreases n
  {
    if m < n {
      CumulativeGrows(p, m, n - 1);
    } else if n > 0 {
      CumulativeGrows(p, m - 1, n - 1);
    }
  }

  lemma ScaledBounds(c: real, sum: real)
    requires 0.0 <= c <= sum && sum > 0.0
    ensures var x := c / sum * (WORD as real);
      0.0 <= x <= WORD as real && Scaled(c, sum) <= WORD - 1 && x - 1.0 <= Scaled(c, sum) as real <= x
  {
    ShareBounds(c, sum);
  }

  lemma ShareBounds(c: real, sum: real)
    requires 0.0 <= c <= sum && sum > 0.0
    ensures 0.0 <= c / sum <= 1.0
  {
  }

  // Every end leaves room for what is to come: one word per remaining positive action.
  lemma {:induction false} EndFits(p: seq<real>, n: nat)
    requires Valid(p) && n <= |p| <= WORD
    ensures End(p, n) <= WORD - (Positive(p, |p|) - Positive(p, n))
    ensures n > 0 && p[n - 1] > 0.0 ==> End(p, n - 1) < End(p, n)
    ensures n > 0 && p[n - 1] <= 0.0 ==> End(p, n - 1) == End(p, n)
    ensures n > 0 && Positive(p, n) == Positive(p, |p|) && Positive(p, n) > 0 ==> End(p, n) == WORD
    decreases n
  {
    CumulativeGrows(p, n, |p|);
    if n > 0 {
      CumulativeGrows(p, n - 1, n);
      EndFits(p, n - 1);
    }
  }

  lemma {:induction false} EndGrows(p: seq<real>, m: nat, n: nat)
    requires Valid(p) && m <= n <= |p| <= WORD
    ensures End(p, m) <= End(p, n)
    decreases n
  {
    if m < n {
      EndGrows(p, m, n - 1);
      EndFits(p, n);
    }
  }

  // Action i is drawn by the words from the end of the actions before it up to its own end.
  predicate Draws(p: seq<real>, i: nat, draw: nat)
    requires Valid(p)
  {
    i < |p| && End(p, i) <= draw < End(p, i + 1)
  }

  // The intervals fill all of the 2^64 words, without gap or overlap; an action's interval is
  // empty exactly when its probability is zero.
  lemma Partition(p: seq<real>)
    requires Valid(p) && |p| <= WORD
    ensures End(p, 0) == 0 && End(p, |p|) == WORD
    ensures forall i: nat :: i < |p| ==> End(p, i) <= End(p, i + 1) && (End(p, i) < End(p, i + 1) <==> p[i] > 0.0)
  {
    CumulativeGrows(p, |p|, |p|);
    EndFits(p, |p|);
    forall i: nat | i < |p| ensures End(p, i) <= End(p, i + 1) && (End(p, i) < End(p, i + 1) <==> p[i] > 0.0) {
      EndFits(p, i + 1);
    }
  }

  lemma OnlyOne(p: seq<real>, i: nat, j: nat, draw: nat)
    requires Valid(p) && |p| <= WORD && Draws(p, i, draw) && Draws(p, j, draw)
    ensures i == j
  {
    if i < j {
      EndGrows(p, i + 1, j);
    } else if j < i {
      EndGrows(p, j + 1, i);
    }
  }

  // Where the end would lie if shares could be cut exactly.
  function Exact(p: seq<real>, n: nat): real
    requires n <= |p| && Valid(p)
  {
    Cumulative(p, n) / Cumulative(p, |p|) * (WORD as real)
  }

  lemma ShareMonotone(c: real, d: real, sum: real)
    requires c <= d && sum > 0.0
    ensures c / sum * (WORD as real) <= d / sum * (WORD as real)
  {
    assert d / sum - c / sum == (d - c) / sum >= 0.0;
  }

  lemma NearStep(previous: nat, before: real, scaled: nat, x: real, seen: nat, left: nat)
    requires previous as real - before <= (seen - 1) as real && before <= x <= WORD as real
    requires x - 1.0 <= scaled as real <= x && seen >= 1 && 1 <= left <= WORD
    ensures var e := Clamped(scaled, previous + 1, WORD - left);
      e as real - x <= seen as real && x - e as real <= left as real
  {
  }

  // An end is at most its number of positive actions too late, and at most the number of those to
  // come, or one, too early.
  ghost predicate Near(p: seq<real>, n: nat)
    requires Valid(p) && n <= |p|
  {
    var left := Positive(p, |p|) - Positive(p, n);
    && End(p, n) as real - Exact(p, n) <= Positive(p, n) as real
    && Exact(p, n) - End(p, n) as real <= (if left > 1 then left else 1) as real
  }

  lemma StepNearExact(p: seq<real>, n: nat)
    requires Valid(p) && 0 < n <= |p| <= WORD && Near(p, n - 1) && p[n - 1] > 0.0
    ensures Near(p, n)
  {
    var sum := Cumulative(p, |p|);
    CumulativeGrows(p, n, |p|);
    CumulativeGrows(p, n - 1, n);
    ShareMonotone(Cumulative(p, n - 1), Cumulative(p, n), sum);
    if Positive(p, n) == Positive(p, |p|) {
      WholeShare(sum);
    } else {
      ScaledBounds(Cumulative(p, n), sum);
      NearStep(End(p, n - 1), Exact(p, n - 1), Scaled(Cumulative(p, n), sum), Exact(p, n), Positive(p, n),
               Positive(p, |p|) - Positive(p, n));
    }
  }

  lemma {:induction false} EndNearExact(p: seq<real>, n: nat)
    requires Valid(p) && n <= |p| <= WORD
    ensures Near(p, n)
    decreases n
  {
    if n == 0 {
      NoShare(Cumulative(p, |p|));
      CumulativeGrows(p, 0, |p|);
    } else {
      EndNearExact(p, n - 1);
      if p[n - 1] > 0.0 {
        StepNearExact(p, n);
      }
    }
  }

  lemma WholeShare(sum: real)
    requires sum > 0.0
    ensures sum / sum * (WORD as real) == WORD as real
  {
  }

  lemma NoShare(sum: real)
    requires sum > 0.0
    ensures 0.0 / sum * (WORD as real) == 0.0
  {
  }

  // No interval is longer or shorter than the action's exact share of the words by more than one
  // more than the number of positive actions.
  lemma IntervalNearShare(p: seq<real>, i: nat)
    requires Valid(p) && i < |p| <= WORD
    ensures var k, length, share := Positive(p, |p|), End(p, i + 1) - End(p, i), Exact(p, i + 1) - Exact(p, i);
      -((k + 1) as real) <= length as real - share <= (k + 1) as real
  {
    EndNearExact(p, i);
    EndNearExact(p, i + 1);
    CumulativeGrows(p, i, i + 1);
    CumulativeGrows(p, i + 1, |p|);
  }

  // Draws an action. An error is found before the word is taken from the generator.
  method SampleIndex(p: seq<real>, draw: nat) returns (index: Option<nat>)
    requires |p| <= WORD && draw < WORD
    ensures index.None? <==> !Valid(p)
    ensures index.Some? ==> Draws(p, index.value, draw) && p[index.value] > 0.0
  {
    var sum, last: nat, count: nat := 0.0, |p|, 0;
    for i := 0 to |p|
      invariant sum == Cumulative(p, i) && count == Positive(p, i) && last <= |p|
      invariant forall k: nat :: k < i ==> p[k] >= 0.0
      invariant count > 0 ==> last < i && p[last] > 0.0 && Positive(p, last + 1) == count
      invariant count == 0 ==> last == |p| && sum == 0.0
    {
      if p[i] < 0.0 {
        return None;
      }
      sum := sum + p[i];
      if p[i] > 0.0 {
        last, count := i, count + 1;
      }
    }
    if sum <= 0.0 || last == |p| {
      return None;
    }
    index := Scan(p, draw, sum, last, count);
  }

  lemma NextEnd(p: seq<real>, i: nat, last: nat)
    requires Valid(p) && i < last < |p| <= WORD && p[i] > 0.0 && p[last] > 0.0 && Positive(p, last + 1) == Positive(p, |p|)
    ensures var remaining := Positive(p, |p|) - Positive(p, i + 1);
      && 1 <= remaining <= WORD
      && End(p, i + 1) == Clamped(Scaled(Cumulative(p, i + 1), Cumulative(p, |p|)), End(p, i) + 1, WORD - remaining)
  {
    CumulativeGrows(p, i + 1, last);
  }

  // Finds the interval that the word falls into.
  method Scan(p: seq<real>, draw: nat, sum: real, last: nat, count: nat) returns (index: Option<nat>)
    requires Valid(p) && |p| <= WORD && draw < WORD && sum == Cumulative(p, |p|) && count == Positive(p, |p|)
    requires last < |p| && p[last] > 0.0 && Positive(p, last + 1) == count
    ensures index.Some? && Draws(p, index.value, draw) && p[index.value] > 0.0
  {
    var cumulative, previous, seen := 0.0, 0, 0;
    for i := 0 to last
      invariant cumulative == Cumulative(p, i) && seen == Positive(p, i) && previous == End(p, i) <= draw
    {
      if p[i] > 0.0 {
        NextEnd(p, i, last);
        cumulative := cumulative + p[i];
        seen := seen + 1;
        var remaining := count - seen;
        var endpoint := Clamped(Scaled(cumulative, sum), previous + 1, WORD - 1 - (remaining - 1));
        if draw < endpoint {
          return Some(i);
        }
        previous := endpoint;
      }
    }
    return Some(last);
  }
}
