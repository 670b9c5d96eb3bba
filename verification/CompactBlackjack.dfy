// The compacting encoding of tools/blackjack_compact_eval.c. Positions with the same encoding have
// the same future: the encoding is a bisimulation on the positions that a round can reach.
module CompactBlackjack {
  import opened BlackjackRules
  import opened Sums

  // Hands that have been played come first, sorted; then the hands still live, in order.
  datatype Compact = Compact(phase: Phase, hands: seq<Hand>, count: nat, active: nat, dealer: Hand, up: int)

  // ---- The encoding ----

  predicate IsLivePhase(phase: Phase) {
    phase != DealDealerHit && phase != Terminal
  }

  // All that still matters about a hand that has been played.
  function Finished(h: Hand): Hand {
    Hand(if h.total > 21 then 22 else if h.total < 17 then 16 else h.total,
         if Natural(h) then 2 else 0, false, false, h.stake, false)
  }

  // All that still matters about a live hand.
  function Live(h: Hand, retainPair: bool): Hand {
    if h.count > 2 then h.(count := 3, pair := false, fromSplit := false)
    else if h.count == 2 && !retainPair then h.(pair := false, fromSplit := false)
    else h
  }

  predicate RetainPair(p: Position, i: nat)
    requires i < |p.hands|
  {
    i == p.active && ((p.phase == PlayerTurn && CanSplit(p)) || (p.phase == DealDealerHoleCard && p.hands[i].pair))
  }

  function FinishedHands(hands: seq<Hand>): (r: seq<Hand>)
    ensures |r| == |hands|
  {
    seq(|hands|, (i: nat) requires i < |hands| => Finished(hands[i]))
  }

  function LiveHands(p: Position): (r: seq<Hand>)
    requires p.active <= |p.hands|
    ensures |r| == |p.hands| - p.active
  {
    seq(|p.hands| - p.active, (i: nat) requires i < |p.hands| - p.active =>
      Live(p.hands[p.active + i], RetainPair(p, p.active + i)))
  }

  predicate AfterHoleCard(phase: Phase) {
    phase != DealPlayerFirst && phase != DealDealerUpCard && phase != DealPlayerSecond && phase != DealDealerHoleCard
  }

  function CompactDealer(p: Position): Hand {
    if p.phase == Terminal then Finished(p.dealer)
    else
      var d := Live(p.dealer, false);
      if AfterHoleCard(p.phase) && d.count == 2 then d.(count := 3) else d
  }

  function Encode(p: Position): Compact
    requires p.active < |p.hands|
  {
    if IsLivePhase(p.phase) then
      Compact(p.phase, SortHands(FinishedHands(p.hands[..p.active])) + LiveHands(p), |p.hands|, p.active, CompactDealer(p), p.up)
    else
      Compact(p.phase, SortHands(FinishedHands(p.hands)), |p.hands|, 0, CompactDealer(p), p.up)
  }

  lemma PairUnused(p: Position, q: Position, i: nat, k: nat)
    requires i < |p.hands| && k < |p.hands| && p.active < |p.hands| && p.phase != DealDealerHoleCard && HandOk(p.hands[i])
    requires !(i == p.active && p.phase == PlayerTurn && CanSplit(p))
    requires q == p.(hands := p.hands[i := p.hands[i].(pair := false)])
    ensures Live(q.hands[k], RetainPair(q, k)) == Live(p.hands[k], RetainPair(p, k))
    ensures Finished(q.hands[k]) == Finished(p.hands[k])
  {
    if k == i {
      assert !RetainPair(p, k);
    }
  }

  // Whether a hand is a pair is forgotten unless it is about to be split, or the dealer's hole card is being dealt.
  lemma PairForgotten(p: Position, i: nat)
    requires Inv(p) && i < |p.hands| && p.phase != DealDealerHoleCard
    requires !(i == p.active && p.phase == PlayerTurn && CanSplit(p))
    ensures Encode(p.(hands := p.hands[i := p.hands[i].(pair := false)])) == Encode(p)
  {
    var q := p.(hands := p.hands[i := p.hands[i].(pair := false)]);
    assert PlayerHandOk(p, i);
    forall k: nat | k < |p.hands|
      ensures Live(q.hands[k], RetainPair(q, k)) == Live(p.hands[k], RetainPair(p, k)) && Finished(q.hands[k]) == Finished(p.hands[k])
    {
      PairUnused(p, q, i, k);
    }
    assert FinishedHands(q.hands) == FinishedHands(p.hands);
    assert FinishedHands(q.hands[..q.active]) == FinishedHands(p.hands[..p.active]);
    assert LiveHands(q) == LiveHands(p);
  }

  // ---- Sorting hands ----

  // Comparison field by field.
  predicate Less(g: Hand, h: Hand) {
    if g.total != h.total then g.total < h.total
    else if g.count != h.count then g.count < h.count
    else if g.soft != h.soft then h.soft
    else if g.pair != h.pair then h.pair
    else if g.stake != h.stake then g.stake < h.stake
    else !g.fromSplit && h.fromSplit
  }

  // Where the insertion puts one more hand among sorted ones.
  function InsertHand(s: seq<Hand>, h: Hand): (r: seq<Hand>)
    ensures |r| == |s| + 1
    decreases |s|
  {
    if s == [] || !Less(h, s[|s| - 1]) then s + [h] else InsertHand(s[..|s| - 1], h) + [s[|s| - 1]]
  }

  function SortHands(s: seq<Hand>): (r: seq<Hand>)
    ensures |r| == |s|
    decreases |s|
  {
    if s == [] then [] else InsertHand(SortHands(s[..|s| - 1]), s[|s| - 1])
  }

  ghost predicate Sorted(s: seq<Hand>) {
    forall i: nat, j: nat :: i <= j < |s| ==> !Less(s[j], s[i])
  }

  lemma LessIsTotal(g: Hand, h: Hand)
    ensures g == h || Less(g, h) || Less(h, g)
    ensures !(Less(g, h) && Less(h, g)) && !Less(g, g)
  {
  }

  lemma LessIsTransitive(f: Hand, g: Hand, h: Hand)
    requires !Less(g, f) && !Less(h, g)
    ensures !Less(h, f)
  {
  }

  lemma {:induction false} InsertSorts(s: seq<Hand>, h: Hand)
    requires Sorted(s)
    ensures Sorted(InsertHand(s, h)) && multiset(InsertHand(s, h)) == multiset(s) + multiset{h}
    decreases |s|
  {
    if s != [] {
      var last, front := s[|s| - 1], s[..|s| - 1];
      assert s == front + [last];
      if Less(h, last) {
        InsertSorts(front, h);
        var r := InsertHand(front, h);
        forall i: nat | i < |r| ensures !Less(last, r[i]) {
          assert r[i] in multiset(r);
          assert r[i] == h || r[i] in front;
        }
      } else {
        forall i: nat | i < |s| ensures !Less(h, s[i]) {
          LessIsTransitive(s[i], last, h);
        }
      }
    }
  }

  lemma {:induction false} SortHandsSorts(s: seq<Hand>)
    ensures Sorted(SortHands(s)) && multiset(SortHands(s)) == multiset(s)
    decreases |s|
  {
    if s != [] {
      SortHandsSorts(s[..|s| - 1]);
      InsertSorts(SortHands(s[..|s| - 1]), s[|s| - 1]);
      assert s == s[..|s| - 1] + [s[|s| - 1]];
    }
  }

  // A sorted arrangement is determined by what it arranges.
  lemma {:induction false} SortedUnique(s: seq<Hand>, t: seq<Hand>)
    requires Sorted(s) && Sorted(t) && multiset(s) == multiset(t)
    ensures s == t
    decreases |s|
  {
    assert |multiset(s)| == |s| && |multiset(t)| == |t|;
    if s != [] {
      var n := |s| - 1;
      assert s[n] in multiset(t) && t[n] in multiset(s);
      LastIsLargest(s, t[n]);
      LastIsLargest(t, s[n]);
      LessIsTotal(s[n], t[n]);
      WithoutLast(s);
      WithoutLast(t);
      SortedUnique(s[..n], t[..n]);
    }
  }

  lemma WithoutLast(s: seq<Hand>)
    requires s != []
    ensures s == s[..|s| - 1] + [s[|s| - 1]] && multiset(s[..|s| - 1]) == multiset(s) - multiset{s[|s| - 1]}
  {
    assert s == s[..|s| - 1] + [s[|s| - 1]];
  }

  lemma LastIsLargest(s: seq<Hand>, h: Hand)
    requires Sorted(s) && s != [] && h in multiset(s)
    ensures !Less(s[|s| - 1], h)
  {
    assert h in s;
    var i: nat :| i < |s| && s[i] == h;
  }

  // Sorting makes two arrangements equal exactly when they arrange the same hands.
  lemma SortIsCanonical(s: seq<Hand>, t: seq<Hand>)
    ensures SortHands(s) == SortHands(t) <==> multiset(s) == multiset(t)
  {
    SortHandsSorts(s);
    SortHandsSorts(t);
    if multiset(s) == multiset(t) {
      SortedUnique(SortHands(s), SortHands(t));
    }
  }

  lemma {:induction false} InsertedAt(s: seq<Hand>, h: Hand, k: nat)
    requires k <= |s| && (k == 0 || !Less(h, s[k - 1])) && forall i: nat :: k <= i < |s| ==> Less(h, s[i])
    ensures InsertHand(s, h) == s[..k] + [h] + s[k..]
    decreases |s|
  {
    if k < |s| {
      var front := s[..|s| - 1];
      InsertedAt(front, h, k);
      assert front[..k] == s[..k] && front[k..] + [s[|s| - 1]] == s[k..];
    } else {
      assert s[..k] == s;
    }
  }

  // Moves the hand at index down to its place among the sorted ones before it.
  method PlaceHand(hands: array<Hand>, index: nat)
    requires index < hands.Length
    modifies hands
    ensures hands[..index + 1] == InsertHand(old(hands[..index]), old(hands[index]))
    ensures hands[index + 1..] == old(hands[index + 1..])
  {
    var hand := hands[index];
    ghost var before := hands[..];
    var position := index;
    while position > 0 && Less(hand, hands[position - 1])
      invariant position <= index
      invariant forall i: nat :: i < position ==> hands[i] == before[i]
      invariant forall i: nat :: position < i <= index ==> hands[i] == before[i - 1]
      invariant forall i: nat :: position <= i < index ==> Less(hand, before[i])
      invariant hands[index + 1..] == before[index + 1..]
    {
      hands[position] := hands[position - 1];
      position := position - 1;
    }
    hands[position] := hand;
    ghost var sorted := before[..index];
    InsertedAt(sorted, hand, position);
    PlacedIs(before, hands[..], hand, position, index);
  }

  lemma PlacedIs(before: seq<Hand>, after: seq<Hand>, hand: Hand, position: nat, index: nat)
    requires position <= index < |before| == |after|
    requires forall i: nat :: i < position ==> after[i] == before[i]
    requires after[position] == hand && forall i: nat :: position < i <= index ==> after[i] == before[i - 1]
    ensures after[..index + 1] == before[..index][..position] + [hand] + before[..index][position..]
  {
  }

  // The source's insertion sort, in place on the first count hands.
  method CompactSortHands(hands: array<Hand>, count: nat)
    requires count <= hands.Length
    modifies hands
    ensures hands[..count] == SortHands(old(hands[..count])) && hands[count..] == old(hands[count..])
  {
    ghost var before := hands[..];
    for index := 0 to count
      invariant hands[..index] == SortHands(before[..index])
      invariant hands[index..] == before[index..]
    {
      assert hands[index] == before[index..][0];
      PlaceHand(hands, index);
      SortOneMore(before, index);
    }
  }

  lemma SortOneMore(s: seq<Hand>, n: nat)
    requires n < |s|
    ensures SortHands(s[..n + 1]) == InsertHand(SortHands(s[..n]), s[n])
  {
    assert s[..n + 1][..n] == s[..n];
  }

  // ---- What equal encodings say ----

  ghost predicate Same(p: Position, q: Position) {
    p.active < |p.hands| && q.active < |q.hands| && Encode(p) == Encode(q)
  }

  function Bag(hands: seq<Hand>): multiset<Hand> {
    multiset(FinishedHands(hands))
  }

  predicate InTurn(phase: Phase) {
    phase == PlayerTurn || phase == DealPlayerHit || phase == DealPlayerDouble || phase == DealSplitHand
  }

  // Everything but the active hand corresponds: the hands played, as a bag; those waiting,
  // exactly; and the dealer's best total.
  ghost predicate Aside(p: Position, q: Position) {
    && |p.hands| == |q.hands| && p.active == q.active < |p.hands| && p.up == q.up
    && Bag(p.hands[..p.active]) == Bag(q.hands[..q.active])
    && p.hands[p.active + 1..] == q.hands[q.active + 1..]
    && p.dealer.total == q.dealer.total && p.dealer.soft == q.dealer.soft
  }

  lemma EncodedHands(p: Position, q: Position)
    requires Same(p, q) && IsLivePhase(p.phase)
    ensures p.phase == q.phase && |p.hands| == |q.hands| && p.active == q.active && p.up == q.up
    ensures Bag(p.hands[..p.active]) == Bag(q.hands[..q.active])
    ensures LiveHands(p) == LiveHands(q)
  {
    var s, t := SortHands(FinishedHands(p.hands[..p.active])), SortHands(FinishedHands(q.hands[..q.active]));
    assert Encode(p).hands[..|s|] == s && Encode(q).hands[..|t|] == t;
    assert Encode(p).hands[|s|..] == LiveHands(p) && Encode(q).hands[|t|..] == LiveHands(q);
    SortIsCanonical(FinishedHands(p.hands[..p.active]), FinishedHands(q.hands[..q.active]));
  }

  lemma LiveHandAt(p: Position, q: Position, i: nat)
    requires |p.hands| == |q.hands| && p.active == q.active <= i < |p.hands| && LiveHands(p) == LiveHands(q)
    ensures Live(p.hands[i], RetainPair(p, i)) == Live(q.hands[i], RetainPair(q, i))
  {
    assert LiveHands(p)[i - p.active] == Live(p.hands[i], RetainPair(p, i));
    assert LiveHands(q)[i - p.active] == Live(q.hands[i], RetainPair(q, i));
  }

  // A waiting hand has one card and is encoded as it is.
  lemma WaitingIsExact(p: Position, i: nat)
    requires Inv(p) && InTurn(p.phase) && p.active < i < |p.hands|
    ensures Live(p.hands[i], RetainPair(p, i)) == p.hands[i]
  {
  }

  lemma FromEncoding(p: Position, q: Position)
    requires Inv(p) && Inv(q) && Same(p, q) && InTurn(p.phase)
    ensures p.phase == q.phase && Aside(p, q)
    ensures Live(p.hands[p.active], RetainPair(p, p.active)) == Live(q.hands[q.active], RetainPair(q, q.active))
  {
    EncodedHands(p, q);
    LiveHandAt(p, q, p.active);
    forall i: nat | p.active < i < |p.hands| ensures p.hands[i] == q.hands[i] {
      LiveHandAt(p, q, i);
      WaitingIsExact(p, i);
      WaitingIsExact(q, i);
    }
    assert CompactDealer(p) == CompactDealer(q);
  }

  lemma ToEncoding(p: Position, q: Position)
    requires Inv(p) && Inv(q) && p.phase == q.phase && InTurn(p.phase) && Aside(p, q)
    requires Live(p.hands[p.active], RetainPair(p, p.active)) == Live(q.hands[q.active], RetainPair(q, q.active))
    ensures Same(p, q)
  {
    SortIsCanonical(FinishedHands(p.hands[..p.active]), FinishedHands(q.hands[..q.active]));
    LiveHandsSame(p, q);
    DealersEncoded(p, q);
  }

  lemma LiveHandsSame(p: Position, q: Position)
    requires Inv(p) && Inv(q) && p.phase == q.phase && InTurn(p.phase) && Aside(p, q)
    requires Live(p.hands[p.active], RetainPair(p, p.active)) == Live(q.hands[q.active], RetainPair(q, q.active))
    ensures LiveHands(p) == LiveHands(q)
  {
    forall k: nat | k < |LiveHands(p)| ensures LiveHands(p)[k] == LiveHands(q)[k] {
      if k > 0 {
        WaitingHandSame(p, q, p.active + k);
      }
    }
  }

  lemma WaitingHandSame(p: Position, q: Position, i: nat)
    requires Inv(p) && Inv(q) && p.phase == q.phase && InTurn(p.phase) && Aside(p, q) && p.active < i < |p.hands|
    ensures Live(p.hands[i], RetainPair(p, i)) == Live(q.hands[i], RetainPair(q, i))
  {
    WaitingIsExact(p, i);
    WaitingIsExact(q, i);
    assert p.hands[p.active + 1..][i - p.active - 1] == p.hands[i];
    assert q.hands[p.active + 1..][i - p.active - 1] == q.hands[i];
  }

  lemma DealersEncoded(p: Position, q: Position)
    requires Inv(p) && Inv(q) && p.phase == q.phase && p.dealer.total == q.dealer.total && p.dealer.soft == q.dealer.soft
    requires AfterHoleCard(p.phase) && !Natural(p.dealer) && !Natural(q.dealer)
    ensures CompactDealer(p) == CompactDealer(q)
  {
  }

  // ---- The active hand ----

  // What a live hand and its encoding agree on.
  lemma LiveCore(g: Hand, h: Hand, r: bool, r': bool)
    requires Live(g, r) == Live(h, r')
    ensures g.total == h.total && g.soft == h.soft && g.stake == h.stake
    ensures g.count == h.count || (g.count > 2 && h.count > 2)
    ensures g.count < 2 ==> g == h
  {
  }

  // A splittable pair is encoded exactly, so both sides can split or neither can.
  lemma SplitsTogether(p: Position, q: Position)
    requires Inv(p) && Inv(q) && Same(p, q) && p.phase == PlayerTurn
    ensures q.phase == PlayerTurn && CanSplit(p) == CanSplit(q) && CanDouble(p) == CanDouble(q)
    ensures CanSplit(p) ==> p.hands[p.active] == q.hands[q.active]
  {
    FromEncoding(p, q);
    LiveCore(p.hands[p.active], q.hands[q.active], RetainPair(p, p.active), RetainPair(q, q.active));
  }

  // ---- Finishing a hand ----

  lemma BagOfSplit(hands: seq<Hand>, i: nat)
    requires i < |hands|
    ensures Bag(hands[..i + 1]) == Bag(hands[..i]) + multiset{Finished(hands[i])}
  {
    assert FinishedHands(hands[..i + 1]) == FinishedHands(hands[..i]) + [Finished(hands[i])];
  }

  lemma BustInBag(hands: seq<Hand>)
    ensures AllBust(hands) <==> forall h :: h in Bag(hands) ==> h.total == 22
  {
    var f := FinishedHands(hands);
    if AllBust(hands) {
      forall h | h in Bag(hands) ensures h.total == 22 {
        assert h in f;
      }
    }
    if forall h :: h in Bag(hands) ==> h.total == 22 {
      forall i: nat | i < |hands| ensures hands[i].total > 21 {
        assert f[i] in Bag(hands);
      }
    }
  }

  // Both sides move on to the same next hand, or to the dealer, or to the end.
  lemma FinishSame(p: Position, q: Position)
    requires HandDone(p) && HandDone(q) && p.phase == q.phase && Aside(p, q)
    requires Finished(p.hands[p.active]) == Finished(q.hands[q.active])
    ensures Same(FinishHand(p), FinishHand(q))
  {
    BagOfSplit(p.hands, p.active);
    BagOfSplit(q.hands, q.active);
    FinishOk(p);
    FinishOk(q);
    if p.active + 1 < |p.hands| {
      NextHandSame(p, q);
    } else {
      LastHandSame(p, q);
    }
  }

  lemma NextHandSame(p: Position, q: Position)
    requires HandDone(p) && HandDone(q) && Aside(p, q) && p.active + 1 < |p.hands|
    requires Bag(p.hands[..p.active + 1]) == Bag(q.hands[..q.active + 1])
    requires Inv(FinishHand(p)) && Inv(FinishHand(q))
    ensures Same(FinishHand(p), FinishHand(q))
  {
    var p', q' := FinishHand(p), FinishHand(q);
    assert p.hands[p.active + 1] == p.hands[p.active + 1..][0] && q.hands[q.active + 1] == q.hands[q.active + 1..][0];
    assert p'.hands[p'.active + 1..] == p.hands[p.active + 1..][1..] && q'.hands[q'.active + 1..] == q.hands[q.active + 1..][1..];
    ToEncoding(p', q');
  }

  lemma LastHandSame(p: Position, q: Position)
    requires HandDone(p) && HandDone(q) && Aside(p, q) && p.active + 1 == |p.hands|
    requires Bag(p.hands[..p.active + 1]) == Bag(q.hands[..q.active + 1])
    requires Inv(FinishHand(p)) && Inv(FinishHand(q))
    ensures Same(FinishHand(p), FinishHand(q))
  {
    assert p.hands[..p.active + 1] == p.hands && q.hands[..q.active + 1] == q.hands;
    BustInBag(p.hands);
    BustInBag(q.hands);
    SortIsCanonical(FinishedHands(p.hands), FinishedHands(q.hands));
    DealersEncoded(FinishHand(p), FinishHand(q));
  }

  // ---- Each transition keeps equal encodings equal ----

  lemma CoreAfterCard(g: Hand, h: Hand, card: Card)
    requires g.total == h.total && g.soft == h.soft && g.stake == h.stake
    ensures AddCard(g, card).total == AddCard(h, card).total && AddCard(g, card).soft == AddCard(h, card).soft
    ensures AddCard(g, card).stake == AddCard(h, card).stake
  {
  }

  lemma AsideAfterChange(p: Position, q: Position, p': Position, q': Position)
    requires Aside(p, q) && |p'.hands| == |p.hands| && |q'.hands| == |q.hands|
    requires p'.active == p.active && q'.active == q.active && p'.up == p.up && q'.up == q.up
    requires p'.dealer == p.dealer && q'.dealer == q.dealer
    requires forall i: nat :: i < |p.hands| && i != p.active ==> p'.hands[i] == p.hands[i] && q'.hands[i] == q.hands[i]
    ensures Aside(p', q')
  {
    assert p'.hands[..p.active] == p.hands[..p.active] && q'.hands[..q.active] == q.hands[..q.active];
    assert p'.hands[p.active + 1..] == p.hands[p.active + 1..] && q'.hands[q.active + 1..] == q.hands[q.active + 1..];
  }

  lemma StandSame(p: Position, q: Position)
    requires Inv(p) && Inv(q) && Same(p, q) && p.phase == PlayerTurn
    ensures Same(FinishHand(p), FinishHand(q))
  {
    FromEncoding(p, q);
    LiveCore(p.hands[p.active], q.hands[q.active], RetainPair(p, p.active), RetainPair(q, q.active));
    assert PlayerHandOk(p, p.active) && PlayerHandOk(q, q.active);
    FinishSame(p, q);
  }

  lemma HitSame(p: Position, q: Position)
    requires Inv(p) && Inv(q) && Same(p, q) && p.phase == PlayerTurn
    ensures Same(p.(phase := DealPlayerHit), q.(phase := DealPlayerHit))
  {
    FromEncoding(p, q);
    TurnOk(p, Hit);
    TurnOk(q, Hit);
    ToEncoding(p.(phase := DealPlayerHit), q.(phase := DealPlayerHit));
  }

  lemma DoubleSame(p: Position, q: Position)
    requires Inv(p) && Inv(q) && Same(p, q) && p.phase == PlayerTurn && CanDouble(p)
    ensures Advance(p, DoubleDown).Ok? && Advance(q, DoubleDown).Ok?
    ensures Same(Advance(p, DoubleDown).value, Advance(q, DoubleDown).value)
  {
    FromEncoding(p, q);
    SplitsTogether(p, q);
    LiveCore(p.hands[p.active], q.hands[q.active], RetainPair(p, p.active), RetainPair(q, q.active));
    DoubleOk(p);
    DoubleOk(q);
    AsideAfterChange(p, q, Doubled(p), Doubled(q));
    DoubleEncoded(Doubled(p), Doubled(q));
    DoubleAdvances(p);
    DoubleAdvances(q);
  }

  lemma DoubleEncoded(p: Position, q: Position)
    requires Inv(p) && Inv(q) && p.phase == q.phase == DealPlayerDouble && Aside(p, q)
    requires p.hands[p.active].total == q.hands[q.active].total && p.hands[p.active].soft == q.hands[q.active].soft
    ensures Same(p, q)
  {
    ToEncoding(p, q);
  }

  lemma DoubleAdvances(p: Position)
    requires p.active < |p.hands| && p.phase == PlayerTurn && CanDouble(p)
    ensures Advance(p, DoubleDown) == Ok(Doubled(p))
  {
  }

  lemma SplitSame(p: Position, q: Position)
    requires Inv(p) && Inv(q) && Same(p, q) && p.phase == PlayerTurn && CanSplit(p)
    ensures Advance(p, Split).Ok? && Advance(q, Split).Ok?
    ensures Same(Advance(p, Split).value, Advance(q, Split).value)
  {
    FromEncoding(p, q);
    SplitsTogether(p, q);
    SplitInv(p);
    SplitInv(q);
    SplitAside(p, q);
    SplitEncoded(SplitActive(p), SplitActive(q));
    SplitAdvances(p);
    SplitAdvances(q);
  }

  lemma SplitAdvances(p: Position)
    requires p.active < |p.hands| && p.phase == PlayerTurn && CanSplit(p) && 1 <= PairCard(p.hands[p.active]) <= 10
    ensures Advance(p, Split) == Ok(SplitActive(p))
    ensures SplitActive(p).phase == DealSplitHand
  {
  }

  lemma SplitEncoded(p: Position, q: Position)
    requires Inv(p) && Inv(q) && p.phase == q.phase == DealSplitHand && Aside(p, q) && p.hands[p.active] == q.hands[q.active]
    ensures Same(p, q)
  {
    ToEncoding(p, q);
  }

  lemma SplitAside(p: Position, q: Position)
    requires Aside(p, q) && p.hands[p.active] == q.hands[q.active] && 1 <= PairCard(p.hands[p.active]) <= 10
    ensures Aside(SplitActive(p), SplitActive(q))
    ensures SplitActive(p).hands[p.active] == SplitActive(q).hands[q.active]
  {
    SplitSides(p);
    SplitSides(q);
  }

  lemma SplitSides(p: Position)
    requires p.active < |p.hands| && 1 <= PairCard(p.hands[p.active]) <= 10
    ensures var p', half := SplitActive(p), SplitHand(PairCard(p.hands[p.active]));
      && p'.hands[..p.active] == p.hands[..p.active] && p'.hands[p.active] == half
      && p'.hands[p.active + 1..] == [half] + p.hands[p.active + 1..]
  {
  }

  // A card to the active hand: the hands stay alike.
  lemma CardToHand(p: Position, q: Position, card: Card)
    requires Inv(p) && Inv(q) && Same(p, q)
    requires p.phase == DealPlayerHit || p.phase == DealPlayerDouble || p.phase == DealSplitHand
    ensures q.phase == p.phase
    ensures var g, h := AddCard(p.hands[p.active], card), AddCard(q.hands[q.active], card);
      && g.total == h.total && g.stake == h.stake && Live(g, false) == Live(h, false)
      && (p.phase == DealSplitHand ==> g == h && p.hands[p.active] == q.hands[q.active])
      && (p.phase != DealSplitHand ==> g.count > 2 && h.count > 2)
  {
    FromEncoding(p, q);
    LiveCore(p.hands[p.active], q.hands[q.active], RetainPair(p, p.active), RetainPair(q, q.active));
    CoreAfterCard(p.hands[p.active], q.hands[q.active], card);
  }

  lemma CardAside(p: Position, q: Position, a: Action)
    requires Inv(p) && Inv(q) && Same(p, q) && a.Deal?
    requires p.phase == DealPlayerHit || p.phase == DealPlayerDouble || p.phase == DealSplitHand
    ensures q.phase == p.phase && DealCard(p, a).Ok? && DealCard(q, a).Ok?
    ensures var p', q' := DealCard(p, a).value, DealCard(q, a).value;
      HandDone(p') && HandDone(q') && Aside(p', q') && p'.phase == q'.phase == p.phase
  {
    FromEncoding(p, q);
    PlayerDealOk(p, a);
    PlayerDealOk(q, a);
    var p', q' := DealCard(p, a).value, DealCard(q, a).value;
    HitHandDone(p, a, p');
    HitHandDone(q, a, q');
    AsideAfterChange(p, q, p', q');
  }

  lemma PlayerCardSame(p: Position, q: Position, a: Action)
    requires Inv(p) && Inv(q) && Same(p, q) && a.Deal?
    requires p.phase == DealPlayerHit || p.phase == DealPlayerDouble || p.phase == DealSplitHand
    ensures p.phase == q.phase && DealCard(p, a).Ok? && DealCard(q, a).Ok?
    ensures var p', q' := DealCard(p, a).value, DealCard(q, a).value;
      && HandDone(p') && HandDone(q') && Aside(p', q') && p'.phase == q'.phase == p.phase
      && p'.hands[p'.active].total == q'.hands[q'.active].total
      && Finished(p'.hands[p'.active]) == Finished(q'.hands[q'.active])
      && Live(p'.hands[p'.active], false) == Live(q'.hands[q'.active], false)
      && (p.phase == DealSplitHand ==> p'.hands[p'.active] == q'.hands[q'.active] && p.hands[p.active] == q.hands[q.active])
      && (p.phase == DealPlayerHit ==> p'.hands[p'.active].count > 2 && q'.hands[q'.active].count > 2)
  {
    CardAside(p, q, a);
    CardToHand(p, q, a.card);
  }

  // Both sides end the hand, or both play on.
  lemma SameBranch(p: Position, q: Position, p': Position, q': Position)
    requires p.active < |p.hands| && q.active < |q.hands| && p'.active < |p'.hands| && q'.active < |q'.hands|
    requires p.phase == q.phase && (p.phase == DealPlayerHit || p.phase == DealPlayerDouble || p.phase == DealSplitHand)
    requires p'.hands[p'.active].total == q'.hands[q'.active].total
    requires p.phase == DealSplitHand ==> p.hands[p.active] == q.hands[q.active]
    ensures (AfterDeal(p, p') == FinishHand(p') && AfterDeal(q, q') == FinishHand(q'))
         || (p.phase != DealPlayerDouble && AfterDeal(p, p') == p'.(phase := PlayerTurn) && AfterDeal(q, q') == q'.(phase := PlayerTurn))
  {
  }

  // A hand that plays on after a card has at least three cards, or is exactly the same on both sides.
  lemma PlayOnSame(p: Position, q: Position)
    requires Inv(p) && Inv(q) && p.phase == q.phase == PlayerTurn && Aside(p, q)
    requires Live(p.hands[p.active], false) == Live(q.hands[q.active], false)
    requires (p.hands[p.active].count > 2 && q.hands[q.active].count > 2) || p.hands[p.active] == q.hands[q.active]
    ensures Same(p, q)
  {
    ToEncoding(p, q);
  }

  lemma PlayerDealSame(p: Position, q: Position, a: Action)
    requires Inv(p) && Inv(q) && Same(p, q) && a.Deal?
    requires p.phase == DealPlayerHit || p.phase == DealPlayerDouble || p.phase == DealSplitHand
    ensures Advance(p, a).Ok? && Advance(q, a).Ok? && Same(Advance(p, a).value, Advance(q, a).value)
  {
    PlayerCardSame(p, q, a);
    PlayerHitOk(p, a);
    PlayerHitOk(q, a);
    AfterCardSame(p, q, DealCard(p, a).value, DealCard(q, a).value);
  }

  lemma AfterCardSame(p: Position, q: Position, p': Position, q': Position)
    requires p.active < |p.hands| && q.active < |q.hands|
    requires p.phase == q.phase && (p.phase == DealPlayerHit || p.phase == DealPlayerDouble || p.phase == DealSplitHand)
    requires HandDone(p') && HandDone(q') && Aside(p', q') && p'.phase == q'.phase == p.phase
    requires p'.hands[p'.active].total == q'.hands[q'.active].total
    requires Finished(p'.hands[p'.active]) == Finished(q'.hands[q'.active])
    requires Live(p'.hands[p'.active], false) == Live(q'.hands[q'.active], false)
    requires p.phase == DealSplitHand ==> p'.hands[p'.active] == q'.hands[q'.active] && p.hands[p.active] == q.hands[q.active]
    requires p.phase == DealPlayerHit ==> p'.hands[p'.active].count > 2 && q'.hands[q'.active].count > 2
    requires Inv(AfterDeal(p, p')) && Inv(AfterDeal(q, q'))
    ensures Same(AfterDeal(p, p'), AfterDeal(q, q'))
  {
    SameBranch(p, q, p', q');
    if AfterDeal(p, p') == FinishHand(p') && AfterDeal(q, q') == FinishHand(q') {
      FinishSame(p', q');
    } else {
      PlayOnSame(p'.(phase := PlayerTurn), q'.(phase := PlayerTurn));
    }
  }

  // Before the player's first turn the encoding loses nothing at all.
  lemma OpeningIsExact(p: Position, q: Position)
    requires Inv(p) && Inv(q) && Same(p, q) && !AfterHoleCard(p.phase)
    ensures p == q
  {
    EncodedHands(p, q);
    LiveHandAt(p, q, 0);
    assert PlayerHandOk(p, 0) && PlayerHandOk(q, 0);
    assert CompactDealer(p) == CompactDealer(q);
    assert p.hands == [p.hands[0]] && q.hands == [q.hands[0]];
  }

  lemma DealerCardIs(p: Position, q: Position, card: Card)
    requires Inv(p) && Inv(q) && Same(p, q) && p.phase == DealDealerHit
    ensures q.phase == DealDealerHit && p.up == q.up && |p.hands| == |q.hands|
    ensures SortHands(FinishedHands(p.hands)) == SortHands(FinishedHands(q.hands))
    ensures var d, e := AddCard(p.dealer, card), AddCard(q.dealer, card);
      d.total == e.total && Finished(d) == Finished(e) && Live(d, false) == Live(e, false) && d.count > 2 && e.count > 2
  {
    assert CompactDealer(p) == CompactDealer(q);
    CoreAfterCard(p.dealer, q.dealer, card);
  }

  lemma DealerCardSame(p: Position, q: Position, a: Action)
    requires Inv(p) && Inv(q) && Same(p, q) && a.Deal? && p.phase == DealDealerHit
    ensures Advance(p, a).Ok? && Advance(q, a).Ok? && Same(Advance(p, a).value, Advance(q, a).value)
  {
    DealerCardIs(p, q, a.card);
    DealerHitOk(p, a);
    DealerHitOk(q, a);
    DealerCardEncoded(p, q, a);
  }

  lemma DealerCardEncoded(p: Position, q: Position, a: Action)
    requires p.active < |p.hands| && q.active < |q.hands| && p.phase == q.phase == DealDealerHit && a.Deal?
    requires p.up == q.up && |p.hands| == |q.hands| && SortHands(FinishedHands(p.hands)) == SortHands(FinishedHands(q.hands))
    requires var d, e := AddCard(p.dealer, a.card), AddCard(q.dealer, a.card);
      d.total == e.total && Finished(d) == Finished(e) && Live(d, false) == Live(e, false) && d.count > 2 && e.count > 2
    requires Advance(p, a).Ok? && Advance(q, a).Ok?
    ensures Same(Advance(p, a).value, Advance(q, a).value)
  {
  }

  lemma PhaseSame(p: Position, q: Position)
    requires Same(p, q)
    ensures p.phase == q.phase
  {
  }

  lemma LegalSame(p: Position, q: Position, a: Action)
    requires Inv(p) && Inv(q) && Same(p, q)
    ensures Legal(p, a) == Legal(q, a)
  {
    PhaseSame(p, q);
    if p.phase == PlayerTurn {
      SplitsTogether(p, q);
    }
  }

  // The bisimulation: from positions with equal encodings the same actions are legal, and each
  // leads to positions with equal encodings.
  lemma StepSame(p: Position, q: Position, a: Action)
    requires Inv(p) && Inv(q) && Same(p, q)
    ensures Legal(p, a) == Legal(q, a)
    ensures Legal(p, a) ==> Advance(p, a).Ok? && Advance(q, a).Ok? && Same(Advance(p, a).value, Advance(q, a).value)
  {
    LegalSame(p, q, a);
    PhaseSame(p, q);
    if Legal(p, a) {
      if !AfterHoleCard(p.phase) {
        OpeningIsExact(p, q);
        OpeningAgain(p, a);
      } else if p.phase == PlayerTurn {
        TurnSame(p, q, a);
      } else if p.phase == DealDealerHit {
        DealerCardSame(p, q, a);
      } else {
        PlayerDealSame(p, q, a);
      }
    }
  }

  lemma OpeningAgain(p: Position, a: Action)
    requires Inv(p) && Legal(p, a)
    ensures Advance(p, a).Ok? && Same(Advance(p, a).value, Advance(p, a).value)
  {
    AdvanceOk(p, a);
  }

  lemma TurnSame(p: Position, q: Position, a: Action)
    requires Inv(p) && Inv(q) && Same(p, q) && p.phase == q.phase == PlayerTurn && Legal(p, a)
    ensures Advance(p, a).Ok? && Advance(q, a).Ok? && Same(Advance(p, a).value, Advance(q, a).value)
  {
    match a
    case Hit => HitSame(p, q);
    case Stand => StandSame(p, q);
    case DoubleDown => DoubleSame(p, q);
    case Split => SplitSame(p, q);
    case _ =>
  }

  // ---- The same kind, actions, key and payment ----

  lemma ActionsSame(p: Position, q: Position)
    requires Inv(p) && Inv(q) && Same(p, q)
    ensures p.phase == q.phase && ActionCount(p) == ActionCount(q)
    ensures forall i: nat :: i < ActionCount(p) ==> ActionAt(p, i) == ActionAt(q, i)
    ensures p.phase == PlayerTurn ==> InformationKey(p) == InformationKey(q)
  {
    PhaseSame(p, q);
    if p.phase == PlayerTurn {
      SplitsTogether(p, q);
      FromEncoding(p, q);
      LiveCore(p.hands[p.active], q.hands[q.active], RetainPair(p, p.active), RetainPair(q, q.active));
    }
  }

  // What a finished hand is paid, from what the encoding keeps of it and of the dealer.
  function CompactHandUtility(h: Hand, dealer: Hand): real {
    var stake := h.stake as real;
    if h.count == 2 then (if dealer.count == 2 then 0.0 else 1.5 * stake)
    else if dealer.count == 2 || h.total > 21 then -stake
    else if dealer.total > 21 || h.total > dealer.total then stake
    else if h.total < dealer.total then -stake
    else 0.0
  }

  function CompactUtility(hands: seq<Hand>, dealer: Hand): real
    decreases |hands|
  {
    if hands == [] then 0.0 else
      CompactUtility(hands[..|hands| - 1], dealer) + CompactHandUtility(hands[|hands| - 1], dealer)
  }

  lemma PaidAlike(p: Position, i: nat)
    requires Inv(p) && p.phase == Terminal && i < |p.hands|
    ensures HandUtility(p.hands[i], p.dealer) == CompactHandUtility(Finished(p.hands[i]), Finished(p.dealer))
  {
  }

  lemma {:induction false} UtilityIsCompact(p: Position, n: nat)
    requires Inv(p) && p.phase == Terminal && n <= |p.hands|
    ensures UtilityOf(p.hands[..n], p.dealer) == CompactUtility(FinishedHands(p.hands)[..n], Finished(p.dealer))
    decreases n
  {
    if n > 0 {
      UtilityIsCompact(p, n - 1);
      PaidAlike(p, n - 1);
      assert p.hands[..n][..n - 1] == p.hands[..n - 1];
      assert FinishedHands(p.hands)[..n][..n - 1] == FinishedHands(p.hands)[..n - 1];
    }
  }

  lemma {:induction false} UtilityOfInsert(s: seq<Hand>, h: Hand, dealer: Hand)
    ensures CompactUtility(InsertHand(s, h), dealer) == CompactUtility(s, dealer) + CompactHandUtility(h, dealer)
    decreases |s|
  {
    if s == [] || !Less(h, s[|s| - 1]) {
      assert (s + [h])[..|s|] == s;
    } else {
      var r := InsertHand(s[..|s| - 1], h);
      UtilityOfInsert(s[..|s| - 1], h, dealer);
      assert (r + [s[|s| - 1]])[..|s|] == r;
    }
  }

  // The payment does not depend on the order of the hands.
  lemma {:induction false} UtilityOfSorted(s: seq<Hand>, dealer: Hand)
    ensures CompactUtility(SortHands(s), dealer) == CompactUtility(s, dealer)
    decreases |s|
  {
    if s != [] {
      UtilityOfSorted(s[..|s| - 1], dealer);
      UtilityOfInsert(SortHands(s[..|s| - 1]), s[|s| - 1], dealer);
    }
  }

  // The terminal utility can be read off the encoding.
  lemma UtilityFromEncoding(p: Position)
    requires Inv(p) && p.phase == Terminal
    ensures Utility(p) == CompactUtility(Encode(p).hands, Encode(p).dealer)
  {
    UtilityIsCompact(p, |p.hands|);
    assert p.hands[..|p.hands|] == p.hands && FinishedHands(p.hands)[..|p.hands|] == FinishedHands(p.hands);
    UtilityOfSorted(FinishedHands(p.hands), Finished(p.dealer));
  }

  // ---- Equal encodings have equal futures ----

  // A measure and weights that do not tell apart positions with equal encodings.
  ghost predicate Respects(w: Weights, f: Measure) {
    forall p: Position, q: Position :: Reachable(p) && Reachable(q) && Same(p, q) ==> MeasuredAlike(p, q, w, f)
  }

  ghost predicate MeasuredAlike(p: Position, q: Position, w: Weights, f: Measure) {
    && f(p) == f(q)
    && forall i: nat :: p.active < |p.hands| && i < ActionCount(p) ==> w(p, i) == w(q, i)
  }

  lemma FoldFromParts(p: Position, q: Position, w: Weights, f: Measure)
    requires Reachable(p) && Reachable(q) && p.active < |p.hands| && q.active < |q.hands|
    requires f(p) == f(q) && ActionCount(p) == ActionCount(q)
    requires forall i: nat :: i < ActionCount(p) ==> Terms(p, w, f)(i) == Terms(q, w, f)(i)
    ensures Fold(p, w, f) == Fold(q, w, f)
  {
    var n := ActionCount(p);
    SumExt(Terms(p, w, f), Terms(q, w, f), 0, n);
    FoldIsSum(p, w, f, n);
    FoldIsSum(q, w, f, n);
  }

  lemma TermFromParts(p: Position, q: Position, w: Weights, f: Measure, i: nat)
    requires Reachable(p) && Reachable(q) && p.active < |p.hands| && q.active < |q.hands|
    requires i < ActionCount(p) && i < ActionCount(q) && w(p, i) == w(q, i)
    requires ChildFold(p, w, f, i) == ChildFold(q, w, f, i)
    ensures Term(p, w, f, i) == Term(q, w, f, i)
  {
  }

  // Whatever is added up over the play that follows, positions with equal encodings agree on it.
  lemma {:induction false} FoldSame(p: Position, q: Position, w: Weights, f: Measure)
    requires Reachable(p) && Reachable(q) && Same(p, q) && Respects(w, f)
    ensures Fold(p, w, f) == Fold(q, w, f)
    decreases Worth(p), 100
  {
    ReachableOk(p);
    ReachableOk(q);
    ActionsSame(p, q);
    assert MeasuredAlike(p, q, w, f);
    forall i: nat | i < ActionCount(p) ensures Terms(p, w, f)(i) == Terms(q, w, f)(i) {
      TermSame(p, q, w, f, i);
    }
    FoldFromParts(p, q, w, f);
  }

  lemma {:induction false} TermSame(p: Position, q: Position, w: Weights, f: Measure, i: nat)
    requires Reachable(p) && Reachable(q) && Same(p, q) && Respects(w, f) && i < ActionCount(p)
    ensures i < ActionCount(q) && Term(p, w, f, i) == Term(q, w, f, i)
    decreases Worth(p), 50
  {
    assert MeasuredAlike(p, q, w, f);
    ChildFoldSame(p, q, w, f, i);
    TermFromParts(p, q, w, f, i);
  }

  lemma {:induction false} ChildFoldSame(p: Position, q: Position, w: Weights, f: Measure, i: nat)
    requires Reachable(p) && Reachable(q) && Same(p, q) && Respects(w, f) && i < ActionCount(p)
    ensures i < ActionCount(q) && ChildFold(p, w, f, i) == ChildFold(q, w, f, i)
    decreases Worth(p), 0
  {
    ChildSame(p, q, i);
    ReachableOk(p);
    ChildReachable(p, i);
    ChildReachable(q, i);
    FoldSame(ChildOf(p, i), ChildOf(q, i), w, f);
  }

  lemma ChildSame(p: Position, q: Position, i: nat)
    requires Reachable(p) && Reachable(q) && Same(p, q) && i < ActionCount(p)
    ensures i < ActionCount(q) && ActionAt(p, i) == ActionAt(q, i)
    ensures Same(ChildOf(p, i), ChildOf(q, i))
  {
    ReachableOk(p);
    ReachableOk(q);
    ActionsSame(p, q);
    ActionsAreLegal(p, ActionAt(p, i));
    StepSame(p, q, ActionAt(p, i));
  }

  lemma WeightSame(p: Position, q: Position, policy: Policy, i: nat)
    requires Reachable(p) && Reachable(q) && Same(p, q) && i < ActionCount(p)
    ensures i < ActionCount(q) && Weight(p, policy, i) == Weight(q, policy, i)
  {
    ReachableOk(p);
    ReachableOk(q);
    ActionsSame(p, q);
  }

  lemma PlayRespects(policy: Policy)
    ensures Respects(Playing(policy), Payment())
  {
    var w, f := Playing(policy), Payment();
    forall p: Position, q: Position | Reachable(p) && Reachable(q) && Same(p, q) ensures MeasuredAlike(p, q, w, f) {
      PaymentSame(p, q);
      forall i: nat | p.active < |p.hands| && i < ActionCount(p) ensures w(p, i) == w(q, i) {
        WeightSame(p, q, policy, i);
      }
    }
  }

  lemma PaymentSame(p: Position, q: Position)
    requires Reachable(p) && Reachable(q) && Same(p, q)
    ensures Payment()(p) == Payment()(q)
  {
    ReachableOk(p);
    ReachableOk(q);
    PhaseSame(p, q);
    if p.phase == Terminal {
      UtilityFromEncoding(p);
      UtilityFromEncoding(q);
    }
  }

  // However the player plays, positions with equal encodings are worth the same.
  lemma ValueSame(p: Position, q: Position, policy: Policy)
    requires Reachable(p) && Reachable(q) && Same(p, q)
    ensures Value(p, policy) == Value(q, policy)
  {
    PlayRespects(policy);
    FoldSame(p, q, Playing(policy), Payment());
  }

  // ---- Play left can be read off the encoding ----

  lemma WorthInTurn(p: Position, q: Position)
    requires p.phase == q.phase && InTurn(p.phase) && Aside(p, q)
    requires p.hands[p.active].total == q.hands[q.active].total && p.hands[p.active].soft == q.hands[q.active].soft
    ensures Worth(p) == Worth(q)
  {
    LiveSumOf(p.hands, p.active);
    LiveSumOf(q.hands, q.active);
  }

  lemma WorthSame(p: Position, q: Position)
    requires Inv(p) && Inv(q) && Same(p, q)
    ensures Worth(p) == Worth(q)
  {
    PhaseSame(p, q);
    if !AfterHoleCard(p.phase) {
      OpeningIsExact(p, q);
    } else if InTurn(p.phase) {
      FromEncoding(p, q);
      LiveCore(p.hands[p.active], q.hands[q.active], RetainPair(p, p.active), RetainPair(q, q.active));
      WorthInTurn(p, q);
    } else if p.phase == DealDealerHit {
      DealerCardIs(p, q, 1);
      DealerTotals(p, q);
    }
  }

  lemma DealerTotals(p: Position, q: Position)
    requires p.active < |p.hands| && q.active < |q.hands| && p.phase == q.phase == DealDealerHit
    requires Encode(p).dealer == Encode(q).dealer && |p.hands| == |q.hands|
    ensures Worth(p) == Worth(q)
  {
  }
}
