// The two radix sorts: information nodes by signed key, and pending commits by address. Each pass
// distributes the items by one byte of their sort key, keeping the order of equals.
module RadixSort {

  // What is sorted, and the 64-bit key it is sorted by.
  datatype Item = Item(key: nat, id: nat)

  function Power(m: nat): (p: nat)
    ensures p > 0
  {
    if m == 0 then 1 else 256 * Power(m - 1)
  }

  function Digit(key: nat, m: nat): (d: nat)
    ensures d < 256
  {
    key / Power(m) % 256
  }

  // The items whose m-th byte is b, in order.
  function Bucket(s: seq<Item>, m: nat, b: nat): (r: seq<Item>)
    ensures |r| <= |s|
    decreases |s|
  {
    if s == [] then [] else
      var before := Bucket(s[..|s| - 1], m, b);
      if Digit(s[|s| - 1].key, m) == b then before + [s[|s| - 1]] else before
  }

  // The first n buckets, one after another.
  function Buckets(s: seq<Item>, m: nat, n: nat): seq<Item>
    decreases n
  {
    if n == 0 then [] else Buckets(s, m, n - 1) + Bucket(s, m, n - 1)
  }

  // ---- A pass rearranges ----

  function Below(s: seq<Item>, m: nat, n: nat): seq<Item>
    decreases |s|
  {
    if s == [] then [] else
      var before := Below(s[..|s| - 1], m, n);
      if Digit(s[|s| - 1].key, m) < n then before + [s[|s| - 1]] else before
  }

  lemma {:induction false} BelowOneMore(s: seq<Item>, m: nat, n: nat)
    ensures multiset(Below(s, m, n + 1)) == multiset(Below(s, m, n)) + multiset(Bucket(s, m, n))
    decreases |s|
  {
    if s != [] {
      BelowOneMore(s[..|s| - 1], m, n);
    }
  }

  lemma {:induction false} BelowAll(s: seq<Item>, m: nat, k: nat)
    requires k >= 256
    ensures Below(s, m, k) == s
    decreases |s|
  {
    if s != [] {
      BelowAll(s[..|s| - 1], m, k);
      assert s == s[..|s| - 1] + [s[|s| - 1]];
    }
  }

  lemma {:induction false} BelowNone(s: seq<Item>, m: nat)
    ensures Below(s, m, 0) == []
    decreases |s|
  {
    if s != [] {
      BelowNone(s[..|s| - 1], m);
    }
  }

  lemma BucketsStep(s: seq<Item>, m: nat, n: nat)
    requires multiset(Buckets(s, m, n)) == multiset(Below(s, m, n))
    ensures multiset(Buckets(s, m, n + 1)) == multiset(Below(s, m, n + 1))
  {
    BelowOneMore(s, m, n);
    var before, last := Buckets(s, m, n), Bucket(s, m, n);
    assert Buckets(s, m, n + 1) == before + last;
  }

  lemma {:induction false} BucketsAreBelow(s: seq<Item>, m: nat, n: nat)
    ensures multiset(Buckets(s, m, n)) == multiset(Below(s, m, n))
    decreases n
  {
    if n == 0 {
      BelowNone(s, m);
    } else {
      var k := n - 1;
      BucketsAreBelow(s, m, k);
      BucketsStep(s, m, k);
      assert k + 1 == n;
    }
  }

  lemma PassPermutes(s: seq<Item>, m: nat, k: nat)
    requires k >= 256
    ensures multiset(Buckets(s, m, k)) == multiset(s) && |Buckets(s, m, k)| == |s|
  {
    BucketsAreBelow(s, m, k);
    BelowAll(s, m, k);
    assert |multiset(Buckets(s, m, k))| == |Buckets(s, m, k)| && |multiset(s)| == |s|;
  }

  // ---- A pass sorts by one byte more ----

  // Sorted by the lowest m bytes of the key.
  ghost predicate SortedLow(s: seq<Item>, m: nat) {
    forall i: nat, j: nat :: i <= j < |s| ==> s[i].key % Power(m) <= s[j].key % Power(m)
  }

  lemma LowBytes(key: nat, m: nat)
    ensures key % Power(m + 1) == Digit(key, m) * Power(m) + key % Power(m)
    ensures 0 <= key % Power(m) < Power(m)
  {
    var p := Power(m);
    var q, r := key / p, key % p;
    var h, d := q / 256, q % 256;
    assert key == q * p + r && q == h * 256 + d;
    Nested(key, p, q, r, h, d);
  }

  lemma Nested(key: nat, p: nat, q: nat, r: nat, h: nat, d: nat)
    requires p > 0 && key == q * p + r && q == h * 256 + d && r < p && d < 256
    ensures key % (256 * p) == d * p + r
  {
    assert q * p == h * (256 * p) + d * p;
    assert d * p <= 255 * p;
    RemainderIs(key, h, d * p + r, 256 * p);
  }

  lemma RemainderIs(a: nat, q: nat, r: nat, m: nat)
    requires r < m && a == q * m + r
    ensures a % m == r
  {
    var d := a / m - q;
    assert a % m == a - (a / m) * m == r - d * m;
    MultipleIsFar(d, m);
  }

  lemma MultipleIsFar(d: int, m: nat)
    ensures d > 0 ==> d * m >= m
    ensures d < 0 ==> d * m + m <= 0
  {
  }

  lemma OrderByDigit(x: nat, y: nat, m: nat)
    requires Digit(x, m) < Digit(y, m) || (Digit(x, m) == Digit(y, m) && x % Power(m) <= y % Power(m))
    ensures x % Power(m + 1) <= y % Power(m + 1)
  {
    LowBytes(x, m);
    LowBytes(y, m);
    if Digit(x, m) < Digit(y, m) {
      DigitWins(Digit(x, m), Digit(y, m), Power(m));
    }
  }

  lemma DigitWins(d: nat, e: nat, p: nat)
    requires d < e
    ensures d * p + p <= e * p
  {
    MultipleIsFar(e - d, p);
    assert (e - d) * p == e * p - d * p;
  }

  // Items of one bucket come in their old order.
  lemma {:induction false} BucketSorted(s: seq<Item>, m: nat, b: nat)
    requires SortedLow(s, m)
    ensures SortedLow(Bucket(s, m, b), m)
    ensures forall x :: x in Bucket(s, m, b) ==> x in s && Digit(x.key, m) == b
    decreases |s|
  {
    if s != [] {
      BucketSorted(s[..|s| - 1], m, b);
      var before, last := Bucket(s[..|s| - 1], m, b), s[|s| - 1];
      forall i: nat | i < |before| ensures before[i].key % Power(m) <= last.key % Power(m) {
        assert before[i] in s[..|s| - 1];
        var k: nat :| k < |s| - 1 && s[..|s| - 1][k] == before[i];
        assert s[k] == before[i];
      }
    }
  }

  lemma {:induction false} BucketsSorted(s: seq<Item>, m: nat, n: nat)
    requires SortedLow(s, m)
    ensures SortedLow(Buckets(s, m, n), m + 1)
    ensures forall x :: x in Buckets(s, m, n) ==> Digit(x.key, m) < n
    decreases n
  {
    if n > 0 {
      BucketsSorted(s, m, n - 1);
      BucketSorted(s, m, n - 1);
      var before, last := Buckets(s, m, n - 1), Bucket(s, m, n - 1);
      var all := before + last;
      forall i: nat, j: nat | i <= j < |all| ensures all[i].key % Power(m + 1) <= all[j].key % Power(m + 1) {
        if j < |before| {
          assert all[i] == before[i] && all[j] == before[j];
        } else if i < |before| {
          assert before[i] in before && last[j - |before|] in last;
          OrderByDigit(all[i].key, all[j].key, m);
        } else {
          assert last[i - |before|] in last && last[j - |before|] in last;
          OrderByDigit(all[i].key, all[j].key, m);
        }
      }
    }
  }

  ghost predicate Sorted(s: seq<Item>) {
    forall i: nat, j: nat :: i <= j < |s| ==> s[i].key <= s[j].key
  }

  const WORD: nat := 0x1_0000_0000_0000_0000

  lemma PowerIsWord()
    ensures Power(8) == WORD
  {
    assert Power(4) == 0x1_0000_0000;
    assert Power(8) == 256 * (256 * (256 * (256 * Power(4))));
  }

  lemma {:induction false} PowerGrows(m: nat, n: nat)
    requires m <= n
    ensures Power(m) <= Power(n)
    decreases n
  {
    if m < n {
      PowerGrows(m, n - 1);
    }
  }

  lemma MemberBound(s: seq<Item>, x: Item)
    requires (forall i: nat :: i < |s| ==> s[i].key < WORD) && x in multiset(s)
    ensures x.key < WORD
  {
    assert x in s;
  }

  // A pass over a byte on which all items agree changes nothing, so it may be skipped.
  lemma {:induction false} EqualBytes(s: seq<Item>, m: nat, b: nat, n: nat)
    requires forall i: nat :: i < |s| ==> Digit(s[i].key, m) == b
    ensures Buckets(s, m, n) == if b < n then s else []
    decreases n
  {
    if n > 0 {
      EqualBytes(s, m, b, n - 1);
      OneBucket(s, m, b, n - 1);
    }
  }

  lemma {:induction false} OneBucket(s: seq<Item>, m: nat, b: nat, c: nat)
    requires forall i: nat :: i < |s| ==> Digit(s[i].key, m) == b
    ensures Bucket(s, m, c) == if b == c then s else []
    decreases |s|
  {
    if s != [] {
      OneBucket(s[..|s| - 1], m, b, c);
      assert s == s[..|s| - 1] + [s[|s| - 1]];
    }
  }

  // ---- Signed keys ----

  // The key as an unsigned word with its top bit flipped.
  function Sortable(key: int): nat {
    var u := key % WORD;
    if u < WORD / 2 then u + WORD / 2 else u - WORD / 2
  }

  // Flipping the top bit turns signed order into unsigned order.
  lemma SignedOrder(x: int, y: int)
    requires -(WORD / 2) <= x < WORD / 2 && -(WORD / 2) <= y < WORD / 2
    ensures Sortable(x) < WORD && (x <= y <==> Sortable(x) <= Sortable(y))
  {
    assert Sortable(x) == x + WORD / 2 && Sortable(y) == y + WORD / 2;
  }

  // ---- One pass in place ----

  function Count(s: seq<Item>, m: nat, b: nat): nat {
    |Bucket(s, m, b)|
  }

  // Where bucket b begins.
  function StartOf(s: seq<Item>, m: nat, b: nat): nat
    decreases b
  {
    if b == 0 then 0 else StartOf(s, m, b - 1) + Count(s, m, b - 1)
  }

  lemma {:induction false} StartIsLength(s: seq<Item>, m: nat, b: nat)
    ensures |Buckets(s, m, b)| == StartOf(s, m, b)
    decreases b
  {
    if b > 0 {
      StartIsLength(s, m, b - 1);
    }
  }

  lemma {:induction false} StartGrows(s: seq<Item>, m: nat, b: nat, c: nat)
    requires b <= c
    ensures StartOf(s, m, b) <= StartOf(s, m, c)
    ensures b < c ==> StartOf(s, m, b) + Count(s, m, b) <= StartOf(s, m, c)
    decreases c
  {
    if b < c {
      StartGrows(s, m, b, c - 1);
    }
  }

  lemma BucketOneMore(s: seq<Item>, m: nat, i: nat, b: nat)
    requires i < |s|
    ensures Bucket(s[..i + 1], m, b) == Bucket(s[..i], m, b) + if Digit(s[i].key, m) == b then [s[i]] else []
  {
    assert s[..i + 1][..i] == s[..i];
  }

  lemma {:induction false} BucketGrows(s: seq<Item>, m: nat, i: nat, j: nat, b: nat)
    requires i <= j <= |s|
    ensures Count(s[..i], m, b) <= Count(s[..j], m, b)
    decreases j
  {
    if i < j {
      BucketGrows(s, m, i, j - 1, b);
      BucketOneMore(s, m, j - 1, b);
    }
  }

  method CountDigits(s: array<Item>, m: nat) returns (positions: array<nat>)
    ensures fresh(positions) && positions.Length == 256
    ensures forall b: nat :: b < 256 ==> PlaceAt(positions[b], s[..], m, 0, b)
  {
    positions := new nat[256](_ => 0);
    for i := 0 to s.Length
      invariant forall b: nat :: b < 256 ==> positions[b] == Count(s[..i], m, b)
    {
      var d := Digit(s[i].key, m);
      forall b: nat | b < 256 ensures Count(s[..i + 1], m, b) == Count(s[..i], m, b) + if b == d then 1 else 0 {
        assert s[..i + 1] == s[..][..i + 1] && s[..i] == s[..][..i];
        BucketOneMore(s[..], m, i, b);
      }
      positions[d] := positions[d] + 1;
    }
    assert s[..s.Length] == s[..];
  }

  // The first d counts have become places.
  ghost predicate PlaceAt(position: nat, s: seq<Item>, m: nat, d: nat, b: nat) {
    position == if b < d then StartOf(s, m, b) else Count(s, m, b)
  }

  // Counts become the places where the buckets begin.
  method PrefixSums(positions: array<nat>, ghost s: seq<Item>, m: nat)
    requires forall b: nat :: b < positions.Length ==> PlaceAt(positions[b], s, m, 0, b)
    modifies positions
    ensures forall b: nat :: b < positions.Length ==> PlaceAt(positions[b], s, m, positions.Length, b)
  {
    var next: nat := 0;
    for d := 0 to positions.Length
      invariant next == StartOf(s, m, d)
      invariant forall b: nat :: b < positions.Length ==> PlaceAt(positions[b], s, m, d, b)
    {
      assert PlaceAt(positions[d], s, m, d, d);
      var amount := positions[d];
      positions[d] := next;
      next := next + amount;
    }
  }

  // Bucket b has been filled with the first i items' share.
  ghost predicate Filled(target: seq<Item>, position: nat, s: seq<Item>, m: nat, i: nat, b: nat)
    requires i <= |s|
  {
    var start, part := StartOf(s, m, b), Bucket(s[..i], m, b);
    && position == start + |part| <= |target|
    && target[start..position] == part
  }

  lemma PlaceItem(target: seq<Item>, positions: seq<nat>, s: seq<Item>, m: nat, i: nat, d: nat)
    requires |positions| == 256 && i < |s| == |target| && d == Digit(s[i].key, m)
    requires forall b: nat :: b < 256 ==> Filled(target, positions[b], s, m, i, b)
    ensures positions[d] < |target|
    ensures forall b: nat :: b < 256 ==>
      Filled(target[positions[d] := s[i]], if b == d then positions[d] + 1 else positions[b], s, m, i + 1, b)
  {
    assert Filled(target, positions[d], s, m, i, d);
    RoomFor(s, m, i, d);
    var p := positions[d];
    var target' := target[p := s[i]];
    forall b: nat | b < 256 ensures Filled(target', if b == d then p + 1 else positions[b], s, m, i + 1, b) {
      assert Filled(target, positions[b], s, m, i, b);
      BucketOneMore(s, m, i, b);
      if b != d {
        Apart(s, m, i, b, d);
        assert target'[StartOf(s, m, b)..positions[b]] == target[StartOf(s, m, b)..positions[b]];
      } else {
        assert target'[StartOf(s, m, b)..p + 1] == target[StartOf(s, m, b)..p] + [s[i]];
      }
    }
  }

  lemma RoomFor(s: seq<Item>, m: nat, i: nat, d: nat)
    requires i < |s| && d == Digit(s[i].key, m)
    ensures Count(s[..i], m, d) < Count(s, m, d)
    ensures StartOf(s, m, d) + Count(s, m, d) <= |s|
  {
    BucketOneMore(s, m, i, d);
    BucketGrows(s, m, i + 1, |s|, d);
    assert s[..|s|] == s;
    WholeLength(s, m, d + 1, 256);
  }

  lemma WholeLength(s: seq<Item>, m: nat, b: nat, k: nat)
    requires b <= k && k >= 256
    ensures StartOf(s, m, b) <= |s| && StartOf(s, m, k) == |s|
  {
    StartGrows(s, m, b, k);
    StartIsLength(s, m, k);
    PassPermutes(s, m, k);
  }

  // The next free place of bucket d lies outside what bucket b has filled.
  lemma Apart(s: seq<Item>, m: nat, i: nat, b: nat, d: nat)
    requires i < |s| && d == Digit(s[i].key, m) && b != d
    ensures var p := StartOf(s, m, d) + Count(s[..i], m, d);
      p < StartOf(s, m, b) || StartOf(s, m, b) + Count(s[..i], m, b) <= p
  {
    RoomFor(s, m, i, d);
    BucketGrows(s, m, i, |s|, b);
    assert s[..|s|] == s;
    if b < d {
      StartGrows(s, m, b, d);
    } else {
      StartGrows(s, m, d, b);
    }
  }

  // Bucket b has been filled completely.
  ghost predicate Full(target: seq<Item>, s: seq<Item>, m: nat, b: nat) {
    var start, end := StartOf(s, m, b), StartOf(s, m, b + 1);
    start <= end <= |target| && target[start..end] == Bucket(s, m, b)
  }

  lemma FullStep(target: seq<Item>, s: seq<Item>, m: nat, b: nat)
    requires Full(target, s, m, b) && target[..StartOf(s, m, b)] == Buckets(s, m, b)
    ensures target[..StartOf(s, m, b + 1)] == Buckets(s, m, b + 1)
  {
    var start, end := StartOf(s, m, b), StartOf(s, m, b + 1);
    assert target[..end] == target[..start] + target[start..end];
  }

  lemma {:induction false} AllFull(target: seq<Item>, s: seq<Item>, m: nat, n: nat)
    requires forall b: nat :: b < n ==> Full(target, s, m, b)
    ensures StartOf(s, m, n) <= |target| && target[..StartOf(s, m, n)] == Buckets(s, m, n)
    decreases n
  {
    if n == 0 {
      assert Buckets(s, m, n) == [] && StartOf(s, m, n) == 0;
    } else {
      var b := n - 1;
      AllFull(target, s, m, b);
      assert Full(target, s, m, b);
      FullStep(target, s, m, b);
    }
  }

  // t is what one stable pass over byte m makes of s: all of its 256 buckets in a row.
  ghost predicate IsPass(s: seq<Item>, t: seq<Item>, m: nat) {
    forall k: nat :: k == 256 ==> t == Buckets(s, m, k)
  }

  // One stable pass over byte m, from one array into another.
  method DistributePass(source: array<Item>, target: array<Item>, m: nat)
    requires source != target && source.Length == target.Length
    modifies target
    ensures IsPass(source[..], target[..], m)
  {
    ghost var s := source[..];
    var positions := CountDigits(source, m);
    PrefixSums(positions, s, m);
    StartsEmpty(target[..], positions[..], s, m);
    Scatter(source, target, m, positions);
    DistributedIs(target[..], positions[..], s, m);
  }

  // Puts every item at the next free place of its bucket.
  method Scatter(source: array<Item>, target: array<Item>, m: nat, positions: array<nat>)
    requires source != target && source.Length == target.Length && positions.Length == 256
    requires forall b: nat :: b < 256 ==> Filled(target[..], positions[b], source[..], m, 0, b)
    modifies target, positions
    ensures forall b: nat :: b < 256 ==> Filled(target[..], positions[b], source[..], m, source.Length, b)
  {
    ghost var s := source[..];
    for i := 0 to source.Length
      invariant source[..] == s
      invariant forall b: nat :: b < 256 ==> Filled(target[..], positions[b], s, m, i, b)
    {
      var d := Digit(source[i].key, m);
      PlaceItem(target[..], positions[..], s, m, i, d);
      target[positions[d]] := source[i];
      positions[d] := positions[d] + 1;
    }
  }

  lemma StartsEmpty(target: seq<Item>, positions: seq<nat>, s: seq<Item>, m: nat)
    requires |positions| == 256 && |target| == |s| && forall b: nat :: b < 256 ==> PlaceAt(positions[b], s, m, 256, b)
    ensures forall b: nat :: b < 256 ==> Filled(target, positions[b], s, m, 0, b)
  {
    forall b: nat | b < 256 ensures Filled(target, positions[b], s, m, 0, b) {
      assert PlaceAt(positions[b], s, m, 256, b);
      WholeLength(s, m, b, |positions|);
      assert s[..0] == [];
    }
  }

  lemma FilledIsFull(target: seq<Item>, position: nat, s: seq<Item>, m: nat, b: nat)
    requires Filled(target, position, s, m, |s|, b)
    ensures Full(target, s, m, b)
  {
    assert s[..|s|] == s;
  }

  lemma DistributedIs(target: seq<Item>, positions: seq<nat>, s: seq<Item>, m: nat)
    requires |positions| == 256 && |target| == |s| && forall b: nat :: b < 256 ==> Filled(target, positions[b], s, m, |s|, b)
    ensures IsPass(s, target, m)
  {
    var k := |positions|;
    forall b: nat | b < k ensures Full(target, s, m, b) {
      FilledIsFull(target, positions[b], s, m, b);
    }
    AllFull(target, s, m, k);
    WholeLength(s, m, k, k);
    assert target[..|s|] == target;
  }

  // ---- The sorts ----

  lemma PassSorts(s: seq<Item>, t: seq<Item>, m: nat)
    requires SortedLow(s, m) && IsPass(s, t, m)
    ensures SortedLow(t, m + 1) && multiset(t) == multiset(s) && |t| == |s|
  {
    var k: nat :| k == 256;
    assert t == Buckets(s, m, k);
    BucketsSorted(s, m, k);
    PassPermutes(s, m, k);
  }

  // A byte on which all items agree needs no pass: the pass would change nothing.
  lemma SkippedPass(s: seq<Item>, m: nat)
    requires forall i: nat :: i < |s| ==> Digit(s[i].key, m) == Digit(s[0].key, m)
    ensures IsPass(s, s, m)
  {
    forall k: nat | k == 256 ensures s == Buckets(s, m, k) {
      if s != [] {
        EqualBytes(s, m, Digit(s[0].key, m), k);
      } else {
        EqualBytes(s, m, 0, k);
      }
    }
  }

  // Sorting by all eight bytes is sorting.
  lemma LowIsAll(s: seq<Item>, n: nat)
    requires n >= 8 && SortedLow(s, n) && forall i: nat :: i < |s| ==> s[i].key < WORD
    ensures Sorted(s)
  {
    PowerIsWord();
    PowerGrows(8, n);
    forall i: nat | i < |s| ensures s[i].key % Power(n) == s[i].key {
      RemainderIs(s[i].key, 0, s[i].key, Power(n));
    }
    forall i: nat, j: nat | i <= j < |s| ensures s[i].key <= s[j].key {
      assert s[i].key % Power(n) <= s[j].key % Power(n);
    }
  }

  lemma KeysKept(s: seq<Item>, t: seq<Item>)
    requires multiset(s) == multiset(t) && forall i: nat :: i < |s| ==> s[i].key < WORD
    ensures forall i: nat :: i < |t| ==> t[i].key < WORD
  {
    forall i: nat | i < |t| ensures t[i].key < WORD {
      assert t[i] in multiset(t);
      MemberBound(s, t[i]);
    }
  }

  // Sorts nodes by key: eight passes to and fro between the caller's array and a second one, which
  // leave the result where it should be.
  method RadixSortNodes(nodes: array<Item>)
    requires forall i: nat :: i < nodes.Length ==> nodes[i].key < WORD
    modifies nodes
    ensures Sorted(nodes[..]) && multiset(nodes[..]) == multiset(old(nodes[..]))
  {
    ghost var s := nodes[..];
    if nodes.Length < 2 {
      return;
    }
    var temporary := new Item[nodes.Length](_ => Item(0, 0));
    var source, destination := nodes, temporary;
    for m := 0 to 8
      invariant source == if m % 2 == 0 then nodes else temporary
      invariant destination == if m % 2 == 0 then temporary else nodes
      invariant SortedLow(source[..], m) && multiset(source[..]) == multiset(s)
    {
      ghost var before := source[..];
      DistributePass(source, destination, m);
      PassSorts(before, destination[..], m);
      source, destination := destination, source;
    }
    KeysKept(s, nodes[..]);
    LowIsAll(nodes[..], 8);
  }

  // Does some item differ from the first in byte m?
  method Differs(items: array<Item>, m: nat) returns (differs: bool)
    ensures differs <==> exists i: nat :: i < items.Length && Digit(items[i].key, m) != Digit(items[0].key, m)
  {
    for i := 0 to items.Length
      invariant forall k: nat :: k < i ==> Digit(items[k].key, m) == Digit(items[0].key, m)
    {
      if Digit(items[i].key, m) != Digit(items[0].key, m) {
        return true;
      }
    }
    return false;
  }

  // Sorts pending commits by address. Few are inserted one by one; many are distributed byte by
  // byte, skipping the bytes on which they all agree.
  method SortDeltaEntries(entries: array<Item>, scratch: array<Item>)
    requires entries != scratch && entries.Length <= scratch.Length
    requires forall i: nat :: i < entries.Length ==> entries[i].key < WORD
    modifies entries, scratch
    ensures Sorted(entries[..]) && multiset(entries[..]) == multiset(old(entries[..]))
  {
    ghost var s := entries[..];
    if entries.Length < 2 {
      return;
    }
    if entries.Length <= 16 {
      InsertionSort(entries);
      return;
    }
    var target := new Item[entries.Length](_ => Item(0, 0));
    var source := entries;
    for m := 0 to 8
      invariant source != target && source.Length == target.Length == entries.Length
      invariant (source == entries && fresh(target)) || (target == entries && fresh(source))
      invariant SortedLow(source[..], m) && multiset(source[..]) == multiset(s)
    {
      ghost var before := source[..];
      var differs := Differs(source, m);
      if differs {
        DistributePass(source, target, m);
        PassSorts(before, target[..], m);
        source, target := target, source;
      } else {
        SkippedPass(before, m);
        PassSorts(before, before, m);
      }
    }
    KeysKept(s, source[..]);
    LowIsAll(source[..], 8);
    if source != entries {
      CopyBack(source, entries);
    }
  }

  method CopyBack(source: array<Item>, entries: array<Item>)
    requires source != entries && source.Length == entries.Length
    modifies entries
    ensures entries[..] == source[..]
  {
    for i := 0 to entries.Length
      invariant entries[..i] == source[..i]
    {
      entries[i] := source[i];
    }
  }

  method InsertionSort(entries: array<Item>)
    modifies entries
    ensures Sorted(entries[..]) && multiset(entries[..]) == multiset(old(entries[..]))
  {
    ghost var s := entries[..];
    for index := 0 to entries.Length
      invariant Sorted(entries[..index]) && multiset(entries[..]) == multiset(s)
    {
      Insert(entries, index);
    }
    assert entries[..entries.Length] == entries[..];
  }

  // Moves entry index down past the larger ones before it.
  method Insert(entries: array<Item>, index: nat)
    requires index < entries.Length && Sorted(entries[..index])
    modifies entries
    ensures Sorted(entries[..index + 1]) && multiset(entries[..]) == multiset(old(entries[..]))
  {
    ghost var before := entries[..];
    var entry := entries[index];
    var position := index;
    while position > 0 && entry.key < entries[position - 1].key
      invariant position <= index
      invariant forall i: nat :: i < position ==> entries[i] == before[i]
      invariant forall i: nat :: position < i <= index ==> entries[i] == before[i - 1]
      invariant forall i: nat :: position <= i < index ==> entry.key < before[i].key
      invariant forall i: nat :: index < i < entries.Length ==> entries[i] == before[i]
    {
      entries[position] := entries[position - 1];
      position := position - 1;
    }
    entries[position] := entry;
    InsertedIs(before, entries[..], entry, position, index);
  }

  lemma InsertedIs(before: seq<Item>, after: seq<Item>, entry: Item, position: nat, index: nat)
    requires position <= index < |before| == |after| && before[index] == entry && Sorted(before[..index])
    requires forall i: nat :: i < position ==> after[i] == before[i]
    requires after[position] == entry && forall i: nat :: position < i <= index ==> after[i] == before[i - 1]
    requires forall i: nat :: index < i < |before| ==> after[i] == before[i]
    requires position > 0 ==> before[position - 1].key <= entry.key
    requires forall i: nat :: position <= i < index ==> entry.key < before[i].key
    ensures Sorted(after[..index + 1]) && multiset(after) == multiset(before)
  {
    InsertedPermutes(before, after, entry, position, index);
    InOrder(before, index);
  }

  // The earlier ones stay in order among themselves.
  lemma InOrder(before: seq<Item>, index: nat)
    requires index < |before| && Sorted(before[..index])
    ensures forall a: nat, b: nat :: a <= b < index ==> before[a].key <= before[b].key
  {
    forall a: nat, b: nat | a <= b < index ensures before[a].key <= before[b].key {
      assert before[..index][a].key <= before[..index][b].key;
    }
  }

  lemma InsertedPermutes(before: seq<Item>, after: seq<Item>, entry: Item, position: nat, index: nat)
    requires position <= index < |before| == |after| && before[index] == entry
    requires forall i: nat :: i < position ==> after[i] == before[i]
    requires after[position] == entry && forall i: nat :: position < i <= index ==> after[i] == before[i - 1]
    requires forall i: nat :: index < i < |before| ==> after[i] == before[i]
    ensures multiset(after) == multiset(before)
  {
    var head, middle, tail := before[..position], before[position..index], before[index + 1..];
    assert before == head + middle + [entry] + tail;
    assert after == head + [entry] + middle + tail;
  }
}
