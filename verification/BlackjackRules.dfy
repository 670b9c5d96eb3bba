// The blackjack state machine of src/blackjack.c on values: hands, phases and transitions, what
// every reachable position satisfies, and why every round ends within the declared capacities.
module BlackjackRules {
  import opened Sums

  // Ace is 1; every ten-valued rank is 10.
  type Card = c: int | 1 <= c <= 10 witness 1

  datatype Phase =
    | DealPlayerFirst | DealDealerUpCard | DealPlayerSecond | DealDealerHoleCard
    | PlayerTurn | DealPlayerHit | DealDealerHit | Terminal | DealPlayerDouble | DealSplitHand

  datatype Action = Deal(card: Card) | Hit | Stand | DoubleDown | Split | Unknown

  datatype Hand = Hand(total: int, count: nat, soft: bool, pair: bool, stake: nat, fromSplit: bool)

  datatype Error = IllegalAction | BufferTooSmall | InvalidArgument
  datatype Result<T> = Ok(value: T) | Err(error: Error)

  // The hands in play, without the unused entries of the source's array. Up card 0 is not dealt.
  datatype Position = Position(phase: Phase, hands: seq<Hand>, active: nat, dealer: Hand, up: int)

  const HAND_CAPACITY: nat := 21
  const MAX_HANDS: nat := 4
  const UNDO_CAPACITY: nat := 2 * HAND_CAPACITY * MAX_HANDS + HAND_CAPACITY + 2 * MAX_HANDS
  const EMPTY_HAND: Hand := Hand(0, 0, false, false, 0, false)

  // ---- Hands ----

  function AddCard(h: Hand, card: Card): Hand {
    var second := h.count == 1;
    var first := if h.soft && h.total == 11 then 1 else h.total;
    var drawn := if card == 1 && h.total <= 10 then h.(total := h.total + 11, soft := true) else h.(total := h.total + card);
    var settled := if drawn.total > 21 && drawn.soft then drawn.(total := drawn.total - 10, soft := false) else drawn;
    settled.(count := h.count + 1, pair := second && first == card)
  }

  predicate Natural(h: Hand) {
    h.count == 2 && h.total == 21 && !h.fromSplit
  }

  // The total with every ace counted as one.
  function Hard(h: Hand): int {
    if h.soft then h.total - 10 else h.total
  }

  // The fold of AddCard over a sequence of cards.
  function Dealt(h: Hand, cards: seq<Card>): Hand
    decreases |cards|
  {
    if cards == [] then h else AddCard(Dealt(h, cards[..|cards| - 1]), cards[|cards| - 1])
  }

  function HardTotal(cards: seq<Card>): nat
    decreases |cards|
  {
    if cards == [] then 0 else HardTotal(cards[..|cards| - 1]) + cards[|cards| - 1]
  }

  predicate HasAce(cards: seq<Card>) {
    exists i: nat :: i < |cards| && cards[i] == 1
  }

  // The best total: one ace counts as eleven exactly when that does not bust the hand.
  function BestTotal(cards: seq<Card>): nat {
    if HasAce(cards) && HardTotal(cards) + 10 <= 21 then HardTotal(cards) + 10 else HardTotal(cards)
  }

  // Whatever cards are dealt, the running hand is the best total of the cards so far, soft exactly
  // when an ace counts as eleven, and a pair exactly when there are two cards of one rank.
  lemma {:induction false} HandIsBestTotal(cards: seq<Card>, stake: nat, fromSplit: bool)
    ensures var h := Dealt(Hand(0, 0, false, false, stake, fromSplit), cards);
      && h.total == BestTotal(cards)
      && (h.soft <==> HasAce(cards) && HardTotal(cards) + 10 <= 21)
      && h.count == |cards|
      && (h.pair <==> |cards| == 2 && cards[0] == cards[1])
      && h.stake == stake && h.fromSplit == fromSplit
    decreases |cards|
  {
    if cards != [] {
      var before, card := cards[..|cards| - 1], cards[|cards| - 1];
      HandIsBestTotal(before, stake, fromSplit);
      AceInLonger(cards);
      if |cards| == 2 {
        assert before == [cards[0]] && before[..0] == [];
        assert HardTotal(before) == HardTotal(before[..0]) + cards[0] == cards[0];
        AceInLonger(before);
      }
    }
  }

  lemma AceInLonger(cards: seq<Card>)
    requires cards != []
    ensures HasAce(cards) <==> HasAce(cards[..|cards| - 1]) || cards[|cards| - 1] == 1
  {
    if HasAce(cards[..|cards| - 1]) {
      var i: nat :| i < |cards| - 1 && cards[..|cards| - 1][i] == 1;
      assert cards[i] == 1;
    }
    if HasAce(cards) && cards[|cards| - 1] != 1 {
      var i: nat :| i < |cards| && cards[i] == 1;
      assert cards[..|cards| - 1][i] == 1;
    }
  }

  // ---- Transitions ----

  const INITIAL: Position := Position(DealPlayerFirst, [EMPTY_HAND.(stake := 1)], 0, EMPTY_HAND, 0)

  predicate DealsToPlayer(phase: Phase) {
    phase == DealPlayerFirst || phase == DealPlayerSecond || phase == DealPlayerHit
    || phase == DealPlayerDouble || phase == DealSplitHand
  }

  function DealCard(p: Position, a: Action): Result<Position> {
    if !a.Deal? then Err(IllegalAction)
    else if DealsToPlayer(p.phase) then
      if p.active >= |p.hands| then Err(InvalidArgument)
      else if p.hands[p.active].count >= HAND_CAPACITY then Err(BufferTooSmall)
      else Ok(p.(hands := p.hands[p.active := AddCard(p.hands[p.active], a.card)]))
    else if p.dealer.count >= HAND_CAPACITY then Err(BufferTooSmall)
    else
      Ok(p.(dealer := AddCard(p.dealer, a.card), up := if p.phase == DealDealerUpCard then a.card else p.up))
  }

  predicate AllBust(hands: seq<Hand>) {
    forall i: nat :: i < |hands| ==> hands[i].total > 21
  }

  // On to the next hand, or to the dealer, or to the end.
  function FinishHand(p: Position): Position {
    if p.active + 1 < |p.hands| then
      p.(active := p.active + 1, phase := if p.hands[p.active + 1].count == 1 then DealSplitHand else PlayerTurn)
    else if AllBust(p.hands) then p.(phase := Terminal)
    else if p.dealer.total < 17 then p.(phase := DealDealerHit)
    else p.(phase := Terminal)
  }

  predicate CanDouble(p: Position)
    requires p.active < |p.hands|
  {
    p.hands[p.active].count == 2 && p.hands[p.active].stake == 1
  }

  predicate CanSplit(p: Position)
    requires p.active < |p.hands|
  {
    var h := p.hands[p.active];
    |p.hands| < MAX_HANDS && h.stake == 1 && h.count == 2 && h.pair && !(h.fromSplit && h.soft)
  }

  function PairCard(h: Hand): int {
    if h.soft then 1 else h.total / 2
  }

  function SplitHand(card: Card): Hand {
    AddCard(Hand(0, 0, false, false, 1, true), card)
  }

  function SplitActive(p: Position): Position
    requires p.active < |p.hands| && 1 <= PairCard(p.hands[p.active]) <= 10
  {
    var half := SplitHand(PairCard(p.hands[p.active]));
    p.(hands := p.hands[..p.active] + [half, half] + p.hands[p.active + 1..], phase := DealSplitHand)
  }

  function Doubled(p: Position): Position
    requires p.active < |p.hands|
  {
    p.(hands := p.hands[p.active := p.hands[p.active].(stake := 2)], phase := DealPlayerDouble)
  }

  function PlayTurn(p: Position, a: Action): Result<Position>
    requires p.active < |p.hands|
  {
    match a
    case Hit => Ok(p.(phase := DealPlayerHit))
    case Stand => Ok(FinishHand(p))
    case DoubleDown =>
      if CanDouble(p) then Ok(Doubled(p)) else Err(IllegalAction)
    case Split =>
      if CanSplit(p) && 1 <= PairCard(p.hands[p.active]) <= 10 then Ok(SplitActive(p)) else Err(IllegalAction)
    case _ => Err(IllegalAction)
  }

  // Where a dealt card leads, once it is in the hand.
  function AfterDeal(before: Position, p: Position): Position
    requires p.active < |p.hands| && before.active < |before.hands|
  {
    match before.phase
    case DealPlayerFirst => p.(phase := DealDealerUpCard)
    case DealDealerUpCard => p.(phase := DealPlayerSecond)
    case DealPlayerSecond => p.(phase := DealDealerHoleCard)
    case DealDealerHoleCard =>
      p.(phase := if Natural(p.hands[0]) || Natural(p.dealer) then Terminal else PlayerTurn)
    case DealPlayerHit => if p.hands[p.active].total >= 21 then FinishHand(p) else p.(phase := PlayerTurn)
    case DealPlayerDouble => FinishHand(p)
    case DealSplitHand =>
      var h := before.hands[before.active];
      if (h.soft && h.total == 11) || p.hands[p.active].total == 21 then FinishHand(p) else p.(phase := PlayerTurn)
    case DealDealerHit => p.(phase := if p.dealer.total < 17 then DealDealerHit else Terminal)
    case _ => p
  }

  // One transition. A failed one leaves nothing behind: there is no new position.
  function Advance(p: Position, a: Action): Result<Position> {
    if p.active >= |p.hands| then Err(InvalidArgument)
    else if p.phase == PlayerTurn then PlayTurn(p, a)
    else if p.phase == Terminal then Err(IllegalAction)
    else
      match DealCard(p, a)
      case Err(e) => Err(e)
      case Ok(q) => Ok(AfterDeal(p, q))
  }

  // ---- What every reachable position satisfies ----

  ghost predicate HandOk(h: Hand) {
    && (h.count == 0 ==> h.total == 0 && !h.soft && !h.pair)
    && (h.count > 0 ==> Hard(h) >= h.count)
    && (h.soft ==> 11 <= h.total <= 21)
    && (h.count == 1 ==> (if h.soft then h.total == 11 else 2 <= h.total <= 10))
    && (h.soft && h.count >= 2 ==> h.total >= 12)
    && (h.pair ==> h.count == 2 && (if h.soft then h.total == 12 else 4 <= h.total <= 20 && h.total % 2 == 0))
    && h.total <= 30 && h.count <= HAND_CAPACITY
  }

  ghost predicate DealerOk(h: Hand) {
    HandOk(h) && h.stake == 0 && !h.fromSplit
  }

  ghost predicate PlayerHandOk(p: Position, i: nat)
    requires i < |p.hands|
  {
    HandOk(p.hands[i]) && 1 <= p.hands[i].stake <= 2 && (|p.hands| >= 2 <==> p.hands[i].fromSplit)
  }

  // Hands still to be played have the one card they were split with; hands played have more.
  ghost predicate InPlay(p: Position) {
    && p.active < |p.hands|
    && (forall i: nat :: i < p.active ==> p.hands[i].count >= 2)
    && (forall i: nat :: p.active < i < |p.hands| ==> p.hands[i].count == 1 && p.hands[i].stake == 1)
    && p.dealer.count >= 2 && p.dealer.total <= 21 && !Natural(p.dealer)
  }

  ghost predicate Opening(p: Position, player: nat, dealer: nat) {
    && |p.hands| == 1 && p.active == 0 && p.hands[0].count == player && p.hands[0].stake == 1 && p.dealer.count == dealer
    && p.hands[0].total <= 21 && p.dealer.total <= 11
  }

  ghost predicate NoNatural(p: Position) {
    !Natural(p.dealer) && forall i: nat :: i < |p.hands| ==> !Natural(p.hands[i])
  }

  ghost predicate Played(p: Position) {
    && (forall i: nat :: i < |p.hands| ==> p.hands[i].count >= 2)
    && p.dealer.count >= 2 && p.active + 1 == |p.hands|
  }

  ghost predicate PhaseOk(p: Position)
    requires p.active < |p.hands|
  {
    var h := p.hands[p.active];
    match p.phase
    case DealPlayerFirst => Opening(p, 0, 0)
    case DealDealerUpCard => Opening(p, 1, 0)
    case DealPlayerSecond => Opening(p, 1, 1)
    case DealDealerHoleCard => Opening(p, 2, 1)
    case PlayerTurn => InPlay(p) && h.count >= 2 && h.total <= 20 && h.stake == 1
    case DealPlayerHit => InPlay(p) && h.count >= 2 && h.total <= 20 && h.stake == 1
    case DealPlayerDouble => InPlay(p) && h.count == 2 && h.total <= 20 && h.stake == 2
    case DealSplitHand => InPlay(p) && |p.hands| >= 2 && h.count == 1 && h.stake == 1
    case DealDealerHit => Played(p) && NoNatural(p) && p.dealer.total < 17 && !AllBust(p.hands)
    case Terminal =>
      && Played(p)
      && ((|p.hands| == 1 && p.hands[0].count == 2 && p.dealer.count == 2 && (Natural(p.hands[0]) || Natural(p.dealer)))
          || (NoNatural(p) && (AllBust(p.hands) || p.dealer.total >= 17)))
  }

  ghost predicate Inv(p: Position) {
    && 1 <= |p.hands| <= MAX_HANDS && p.active < |p.hands|
    && DealerOk(p.dealer)
    && (forall i: nat :: i < |p.hands| ==> PlayerHandOk(p, i))
    && 0 <= p.up <= 10 && (p.dealer.count == 0 <==> p.up == 0)
    && PhaseOk(p)
  }

  lemma AddCardOk(h: Hand, card: Card)
    requires HandOk(h) && h.total <= 20
    ensures var g := AddCard(h, card);
      && HandOk(g) && Hard(g) == Hard(h) + card && g.count == h.count + 1
      && g.stake == h.stake && g.fromSplit == h.fromSplit
  {
  }

  lemma SplitHandOk(h: Hand)
    requires HandOk(h) && h.pair
    ensures 1 <= PairCard(h) <= 10 && HandOk(SplitHand(PairCard(h)))
    ensures var half := SplitHand(PairCard(h));
      half.count == 1 && half.stake == 1 && half.fromSplit && 2 * Hard(half) == Hard(h) && half.total <= 11
  {
  }

  // ---- Legality ----

  predicate Legal(p: Position, a: Action) {
    if p.phase == Terminal || p.active >= |p.hands| then false
    else if p.phase == PlayerTurn then
      a.Hit? || a.Stand? || (a.DoubleDown? && CanDouble(p)) || (a.Split? && CanSplit(p))
    else a.Deal?
  }

  // ---- How much play is left ----

  function LiveWorth(h: Hand): int {
    2 * (21 - Hard(h)) + 1
  }

  function LiveSum(hands: seq<Hand>): int {
    if hands == [] then 0 else LiveWorth(hands[0]) + LiveSum(hands[1..])
  }

  // What the rounds not yet split off and the dealer's draws can still take.
  function Reserve(p: Position): int {
    44 * (MAX_HANDS - |p.hands|) + 21 - Hard(p.dealer)
  }

  // A bound on the number of transitions to come.
  function Worth(p: Position): int
    requires p.active < |p.hands|
  {
    match p.phase
    case Terminal => 0
    case DealDealerHit => Reserve(p)
    case _ => LiveSum(p.hands[p.active..]) + Reserve(p) - if p.phase == DealPlayerHit || p.phase == DealPlayerDouble then 1 else 0
  }

  lemma LiveSumOf(hands: seq<Hand>, i: nat)
    requires i < |hands|
    ensures LiveSum(hands[i..]) == LiveWorth(hands[i]) + LiveSum(hands[i + 1..])
  {
    assert hands[i..][1..] == hands[i + 1..];
  }

  lemma {:induction false} LiveSumOfSingles(hands: seq<Hand>)
    requires forall i: nat :: i < |hands| ==> HandOk(hands[i]) && hands[i].count == 1
    ensures LiveSum(hands) >= 0
  {
    if hands != [] {
      LiveSumOfSingles(hands[1..]);
    }
  }

  lemma WaitingHandsWorth(p: Position)
    requires Inv(p) && p.phase != Terminal && p.phase != DealDealerHit
    ensures LiveSum(p.hands[p.active + 1..]) >= 0
  {
    var waiting := p.hands[p.active + 1..];
    forall i: nat | i < |waiting| ensures HandOk(waiting[i]) && waiting[i].count == 1 {
      assert PlayerHandOk(p, p.active + 1 + i);
    }
    LiveSumOfSingles(waiting);
  }

  // The hands that have been played do not count, and those to come have one card each.
  lemma WorthIsPositive(p: Position)
    requires Inv(p)
    ensures Worth(p) >= 0 && (p.phase != Terminal ==> Worth(p) >= 1)
  {
    if p.phase != Terminal && p.phase != DealDealerHit {
      LiveSumOf(p.hands, p.active);
      assert PlayerHandOk(p, p.active);
      WaitingHandsWorth(p);
    }
  }

  // ---- Each transition keeps the invariant and uses up some of the play left ----

  // The active hand has just been completed.
  ghost predicate HandDone(p: Position) {
    && 1 <= |p.hands| <= MAX_HANDS && p.active < |p.hands|
    && DealerOk(p.dealer) && 1 <= p.up <= 10
    && (forall i: nat :: i < |p.hands| ==> PlayerHandOk(p, i))
    && InPlay(p) && p.hands[p.active].count >= 2
    && !Natural(p.hands[p.active])
  }

  lemma FinishToNext(p: Position)
    requires HandDone(p) && p.active + 1 < |p.hands|
    ensures Inv(FinishHand(p))
    ensures Worth(FinishHand(p)) <= LiveSum(p.hands[p.active + 1..]) + Reserve(p)
  {
    var q := FinishHand(p);
    forall i: nat | i < |q.hands| ensures PlayerHandOk(q, i) {
      assert PlayerHandOk(p, i);
    }
    assert PlayerHandOk(p, p.active + 1);
  }

  lemma FinishToEnd(p: Position)
    requires HandDone(p) && p.active + 1 == |p.hands|
    ensures Inv(FinishHand(p))
    ensures Worth(FinishHand(p)) <= LiveSum(p.hands[p.active + 1..]) + Reserve(p)
  {
    var q := FinishHand(p);
    forall i: nat | i < |q.hands| ensures PlayerHandOk(q, i) && !Natural(p.hands[i]) && p.hands[i].count >= 2 {
      assert PlayerHandOk(p, i);
    }
    assert p.hands[p.active + 1..] == [];
  }

  lemma FinishOk(p: Position)
    requires HandDone(p)
    ensures Inv(FinishHand(p))
    ensures Worth(FinishHand(p)) <= LiveSum(p.hands[p.active + 1..]) + Reserve(p)
  {
    if p.active + 1 < |p.hands| {
      FinishToNext(p);
    } else {
      FinishToEnd(p);
    }
  }

  // A card for the active hand, before it is known where that leads.
  lemma PlayerDealOk(p: Position, a: Action)
    requires Inv(p) && DealsToPlayer(p.phase) && a.Deal?
    ensures p.hands[p.active].count < HAND_CAPACITY && DealCard(p, a).Ok?
    ensures var q := DealCard(p, a).value;
      && |q.hands| == |p.hands| && q == p.(hands := q.hands) && q.hands[p.active] == AddCard(p.hands[p.active], a.card)
      && (forall i: nat :: i < |p.hands| && i != p.active ==> q.hands[i] == p.hands[i])
      && (forall i: nat :: i < |p.hands| ==> PlayerHandOk(q, i))
      && Hard(q.hands[p.active]) == Hard(p.hands[p.active]) + a.card
      && LiveSum(q.hands[p.active..]) == LiveSum(p.hands[p.active..]) - 2 * a.card
      && q.hands[p.active + 1..] == p.hands[p.active + 1..]
  {
    assert PlayerHandOk(p, p.active);
    AddCardOk(p.hands[p.active], a.card);
    var q := DealCard(p, a).value;
    forall i: nat | i < |p.hands| ensures PlayerHandOk(q, i) {
      assert PlayerHandOk(p, i);
    }
    LiveSumOf(p.hands, p.active);
    LiveSumOf(q.hands, p.active);
    assert q.hands[p.active + 1..] == p.hands[p.active + 1..];
  }

  lemma LiveSumNonNegative(p: Position)
    requires Inv(p) && p.phase != Terminal && p.phase != DealDealerHit
    ensures LiveSum(p.hands[p.active + 1..]) >= 0
    ensures LiveSum(p.hands[p.active..]) == LiveWorth(p.hands[p.active]) + LiveSum(p.hands[p.active + 1..])
  {
    LiveSumOf(p.hands, p.active);
    WaitingHandsWorth(p);
  }

  lemma OpeningOk(p: Position, a: Action)
    requires Inv(p) && a.Deal? && (p.phase == DealPlayerFirst || p.phase == DealPlayerSecond)
    ensures Advance(p, a).Ok? && Inv(Advance(p, a).value) && Worth(Advance(p, a).value) < Worth(p)
  {
    PlayerDealOk(p, a);
    assert PlayerHandOk(p, 0) && PlayerHandOk(DealCard(p, a).value, 0);
    assert PlayerHandOk(Advance(p, a).value, 0);
  }

  lemma DealerOpeningOk(p: Position, a: Action)
    requires Inv(p) && a.Deal? && (p.phase == DealDealerUpCard || p.phase == DealDealerHoleCard)
    ensures Advance(p, a).Ok? && Inv(Advance(p, a).value) && Worth(Advance(p, a).value) < Worth(p)
  {
    AddCardOk(p.dealer, a.card);
    var q := Advance(p, a).value;
    assert PlayerHandOk(p, 0);
    forall i: nat | i < |q.hands| ensures PlayerHandOk(q, i) {
    }
    WorthIsPositive(p);
  }

  lemma DealerHitOk(p: Position, a: Action)
    requires Inv(p) && a.Deal? && p.phase == DealDealerHit
    ensures Advance(p, a).Ok? && Inv(Advance(p, a).value) && Worth(Advance(p, a).value) < Worth(p)
  {
    AddCardOk(p.dealer, a.card);
    var q := Advance(p, a).value;
    forall i: nat | i < |q.hands| ensures PlayerHandOk(q, i) {
      assert PlayerHandOk(p, i);
    }
    WorthIsPositive(p);
  }

  lemma PlayerHitOk(p: Position, a: Action)
    requires Inv(p) && a.Deal? && (p.phase == DealPlayerHit || p.phase == DealPlayerDouble || p.phase == DealSplitHand)
    ensures Advance(p, a).Ok? && Inv(Advance(p, a).value) && Worth(Advance(p, a).value) < Worth(p)
  {
    HitLeads(p, a);
    var q := DealCard(p, a).value;
    HitHandDone(p, a, q);
    if Advance(p, a).value == FinishHand(q) {
      HitFinishes(p, a, q);
    } else {
      BackToTurn(p, q, a);
    }
  }

  // A card ends the hand, or leaves it below 21 and in play.
  lemma HitLeads(p: Position, a: Action)
    requires Inv(p) && a.Deal? && (p.phase == DealPlayerHit || p.phase == DealPlayerDouble || p.phase == DealSplitHand)
    ensures DealCard(p, a).Ok? && Advance(p, a).Ok?
    ensures var q := DealCard(p, a).value;
      q.active == p.active < |q.hands|
      && (Advance(p, a).value == FinishHand(q)
          || (p.phase != DealPlayerDouble && Advance(p, a).value == q.(phase := PlayerTurn) && q.hands[q.active].total <= 20))
  {
    PlayerDealOk(p, a);
    assert PlayerHandOk(p, p.active);
  }

  lemma HitFinishes(p: Position, a: Action, q: Position)
    requires Inv(p) && a.Deal? && (p.phase == DealPlayerHit || p.phase == DealPlayerDouble || p.phase == DealSplitHand)
    requires DealCard(p, a) == Ok(q) && HandDone(q)
    ensures Inv(FinishHand(q)) && Worth(FinishHand(q)) < Worth(p)
  {
    FinishOk(q);
    HandWasWorth(p, a, q);
  }

  lemma HandWasWorth(p: Position, a: Action, q: Position)
    requires Inv(p) && a.Deal? && (p.phase == DealPlayerHit || p.phase == DealPlayerDouble || p.phase == DealSplitHand)
    requires DealCard(p, a) == Ok(q)
    ensures q.active < |q.hands| && LiveSum(q.hands[q.active + 1..]) + Reserve(q) < Worth(p)
  {
    PlayerDealOk(p, a);
    LiveSumNonNegative(p);
    assert PlayerHandOk(p, p.active);
  }

  lemma HitHandDone(p: Position, a: Action, q: Position)
    requires Inv(p) && a.Deal? && (p.phase == DealPlayerHit || p.phase == DealPlayerDouble || p.phase == DealSplitHand)
    requires DealCard(p, a) == Ok(q)
    ensures HandDone(q)
  {
    PlayerDealOk(p, a);
    assert PlayerHandOk(p, p.active) && PlayerHandOk(q, p.active);
  }

  lemma BackToTurn(p: Position, q: Position, a: Action)
    requires Inv(p) && a.Deal? && (p.phase == DealPlayerHit || p.phase == DealSplitHand)
    requires DealCard(p, a) == Ok(q) && HandDone(q) && q.hands[q.active].total <= 20
    ensures Inv(q.(phase := PlayerTurn)) && Worth(q.(phase := PlayerTurn)) < Worth(p)
  {
    PlayerDealOk(p, a);
    var r := q.(phase := PlayerTurn);
    forall i: nat | i < |r.hands| ensures PlayerHandOk(r, i) {
      assert PlayerHandOk(q, i);
    }
  }

  lemma StandOk(p: Position)
    requires Inv(p) && p.phase == PlayerTurn
    ensures Inv(FinishHand(p)) && Worth(FinishHand(p)) < Worth(p)
  {
    LiveSumNonNegative(p);
    assert PlayerHandOk(p, p.active);
    FinishOk(p);
  }

  lemma DoubleOk(p: Position)
    requires Inv(p) && p.phase == PlayerTurn && CanDouble(p)
    ensures Inv(Doubled(p)) && Worth(Doubled(p)) < Worth(p)
  {
    var q := Doubled(p);
    forall i: nat | i < |q.hands| ensures PlayerHandOk(q, i) {
      assert PlayerHandOk(p, i);
    }
    LiveSumOf(p.hands, p.active);
    LiveSumOf(q.hands, p.active);
    assert q.hands[p.active + 1..] == p.hands[p.active + 1..];
  }

  lemma SplitInv(p: Position)
    requires Inv(p) && p.phase == PlayerTurn && CanSplit(p)
    ensures 1 <= PairCard(p.hands[p.active]) <= 10 && Inv(SplitActive(p))
  {
    assert PlayerHandOk(p, p.active);
    SplitHandOk(p.hands[p.active]);
    var q := SplitActive(p);
    forall i: nat | i < |q.hands|
      ensures PlayerHandOk(q, i) && (i < p.active ==> q.hands[i].count >= 2)
      ensures i > p.active ==> q.hands[i].count == 1 && q.hands[i].stake == 1
    {
      if i < p.active {
        assert PlayerHandOk(p, i);
      } else if i > p.active + 1 {
        assert PlayerHandOk(p, i - 1);
      }
    }
  }

  // Splitting swaps one unsplit slot for a second hand, and costs exactly one.
  lemma SplitWorth(p: Position)
    requires Inv(p) && p.phase == PlayerTurn && CanSplit(p)
    ensures 1 <= PairCard(p.hands[p.active]) <= 10 && Worth(SplitActive(p)) == Worth(p) - 1
  {
    assert PlayerHandOk(p, p.active);
    SplitHandOk(p.hands[p.active]);
    var q := SplitActive(p);
    LiveSumOf(p.hands, p.active);
    LiveSumOf(q.hands, p.active);
    LiveSumOf(q.hands, p.active + 1);
    assert q.hands[p.active + 2..] == p.hands[p.active + 1..];
  }

  lemma SplitOk(p: Position)
    requires Inv(p) && p.phase == PlayerTurn && CanSplit(p)
    ensures 1 <= PairCard(p.hands[p.active]) <= 10
    ensures Inv(SplitActive(p)) && Worth(SplitActive(p)) < Worth(p)
  {
    SplitInv(p);
    SplitWorth(p);
  }

  lemma TurnOk(p: Position, a: Action)
    requires Inv(p) && p.phase == PlayerTurn && Legal(p, a)
    ensures Advance(p, a).Ok? && Inv(Advance(p, a).value) && Worth(Advance(p, a).value) < Worth(p)
  {
    match a
    case Hit =>
      var q := p.(phase := DealPlayerHit);
      forall i: nat | i < |q.hands| ensures PlayerHandOk(q, i) {
        assert PlayerHandOk(p, i);
      }
    case Stand => StandOk(p);
    case DoubleDown => DoubleOk(p);
    case Split => SplitOk(p);
    case _ =>
  }

  // Legal actions always succeed, other actions are always refused as illegal, and every success
  // keeps the invariant and strictly uses up play. The capacity errors never happen.
  lemma AdvanceOk(p: Position, a: Action)
    requires Inv(p)
    ensures Legal(p, a) ==> Advance(p, a).Ok? && Inv(Advance(p, a).value) && Worth(Advance(p, a).value) < Worth(p)
    ensures !Legal(p, a) ==> Advance(p, a) == Err(IllegalAction)
  {
    if Legal(p, a) {
      match p.phase
      case PlayerTurn => TurnOk(p, a);
      case DealPlayerFirst => OpeningOk(p, a);
      case DealPlayerSecond => OpeningOk(p, a);
      case DealDealerUpCard => DealerOpeningOk(p, a);
      case DealDealerHoleCard => DealerOpeningOk(p, a);
      case DealDealerHit => DealerHitOk(p, a);
      case Terminal =>
      case _ => PlayerHitOk(p, a);
    }
  }

  // ---- Whole rounds ----

  // The position after a sequence of actions, if all of them are accepted.
  function After(actions: seq<Action>): Result<Position>
    decreases |actions|
  {
    if actions == [] then Ok(INITIAL) else
      match After(actions[..|actions| - 1])
      case Err(e) => Err(e)
      case Ok(p) => Advance(p, actions[|actions| - 1])
  }

  // Every position reached keeps the invariant, and the play left shrinks with every action: no
  // round has more than 196 transitions, one fewer than the undo history can hold.
  lemma {:induction false} RoundsAreBounded(actions: seq<Action>)
    requires After(actions).Ok?
    ensures Inv(After(actions).value)
    ensures Worth(After(actions).value) + |actions| <= 196 < UNDO_CAPACITY
    decreases |actions|
  {
    if actions == [] {
      assert Inv(INITIAL);
      LiveSumOf(INITIAL.hands, 0);
    } else {
      RoundsAreBounded(actions[..|actions| - 1]);
      AdvanceOk(After(actions[..|actions| - 1]).value, actions[|actions| - 1]);
    }
  }

  // ---- What the game reports about a position ----

  // The legal actions, in the order the game lists them: cards from the ace up, or the player's
  // choices.
  function ActionCount(p: Position): (n: nat)
    requires p.active < |p.hands|
    ensures n <= 10
  {
    if p.phase == Terminal then 0
    else if p.phase == PlayerTurn then 2 + (if CanDouble(p) then 1 else 0) + (if CanSplit(p) then 1 else 0)
    else 10
  }

  function ActionAt(p: Position, i: nat): Action
    requires p.active < |p.hands| && i < ActionCount(p)
  {
    if p.phase == PlayerTurn then
      if i == 0 then Hit else if i == 1 then Stand else if i == 2 && CanDouble(p) then DoubleDown else Split
    else Deal(i + 1)
  }

  function Actions(p: Position): (r: seq<Action>)
    requires p.active < |p.hands|
    ensures |r| == ActionCount(p)
  {
    seq(ActionCount(p), (i: nat) requires i < ActionCount(p) => ActionAt(p, i))
  }

  // The list holds every legal action and no other, each once.
  lemma ActionsAreLegal(p: Position, a: Action)
    requires p.active < |p.hands|
    ensures Legal(p, a) <==> exists i: nat :: i < ActionCount(p) && ActionAt(p, i) == a
    ensures forall i: nat, j: nat :: i < j < ActionCount(p) ==> ActionAt(p, i) != ActionAt(p, j)
  {
    if Legal(p, a) {
      var i := match a
        case Deal(c) => c - 1
        case Hit => 0
        case Stand => 1
        case DoubleDown => 2
        case Split => ActionCount(p) - 1
        case Unknown => 0;
      assert ActionAt(p, i) == a;
    }
  }

  function CardProbability(card: Card): real {
    if card == 10 then 4.0 / 13.0 else 1.0 / 13.0
  }

  // The ranks of a suit, from the ace to the king, that count as a card of this value.
  function CountsAs(rank: int): int {
    if rank > 10 then 10 else rank
  }

  ghost function RanksWorth(card: Card): set<int> {
    set rank | 1 <= rank <= 13 && CountsAs(rank) == card
  }

  lemma CardIsRank(card: Card)
    ensures CardProbability(card) == |RanksWorth(card)| as real / 13.0
  {
    if card == 10 {
      assert RanksWorth(card) == {10, 11, 12, 13};
    } else {
      assert RanksWorth(card) == {card as int};
    }
  }

  // Which of doubling and splitting are on offer.
  function DecisionClass(p: Position): nat
    requires p.active < |p.hands|
  {
    if CanSplit(p) then 2 else if CanDouble(p) then 1 else 0
  }

  function InformationKey(p: Position): int
    requires p.active < |p.hands|
  {
    var h := p.hands[p.active];
    ((p.up - 1) * 2 + (if h.soft then 1 else 0)) * 66 + h.total * 3 + DecisionClass(p)
  }

  const INFORMATION_SETS: int := 10 * 2 * 22 * 3

  lemma KeyInRange(p: Position)
    requires Inv(p) && p.phase == PlayerTurn
    ensures 0 <= InformationKey(p) < INFORMATION_SETS
  {
    assert PlayerHandOk(p, p.active);
  }

  // A key stands for one up card, one total, one softness and one set of actions, and nothing else
  // of the position goes into it.
  lemma KeyDecodes(p: Position, q: Position)
    requires Inv(p) && Inv(q) && p.phase == q.phase == PlayerTurn
    ensures InformationKey(p) == InformationKey(q) <==>
      && p.up == q.up && p.hands[p.active].total == q.hands[q.active].total
      && p.hands[p.active].soft == q.hands[q.active].soft && DecisionClass(p) == DecisionClass(q)
    ensures InformationKey(p) == InformationKey(q) ==> Actions(p) == Actions(q)
    ensures InformationKey(p) == (p.up - 1) * 132 + (if p.hands[p.active].soft then 66 else 0) + 3 * p.hands[p.active].total
                                 + if Legal(p, Split) then 2 else if Legal(p, DoubleDown) then 1 else 0
  {
    assert PlayerHandOk(p, p.active) && PlayerHandOk(q, q.active);
    var g, h := p.hands[p.active], q.hands[q.active];
    var low, low' := g.total * 3 + DecisionClass(p), h.total * 3 + DecisionClass(q);
    var high, high' := (p.up - 1) * 2 + (if g.soft then 1 else 0), (q.up - 1) * 2 + (if h.soft then 1 else 0);
    assert 0 <= low < 66 && 0 <= low' < 66;
    if high * 66 + low == high' * 66 + low' {
      assert high == high';
    }
  }

  // ---- Payment ----

  function HandUtility(h: Hand, dealer: Hand): real {
    var stake := h.stake as real;
    if Natural(h) then (if Natural(dealer) then 0.0 else 1.5 * stake)
    else if Natural(dealer) || h.total > 21 then -stake
    else if dealer.total > 21 || h.total > dealer.total then stake
    else if h.total < dealer.total then -stake
    else 0.0
  }

  // How good a hand is against the other side's: a player who busts has lost whatever the dealer does, and a natural
  // beats every other twenty-one.
  function Rank(h: Hand, bust: int): int {
    if Natural(h) then 22 else if h.total > 21 then bust else h.total
  }

  // The better side wins the stake, half as much again if the player has the natural, and equals pay nothing.
  lemma BetterHandWins(h: Hand, dealer: Hand)
    requires h.total >= 2 && dealer.total >= 2 && h.stake > 0
    ensures var player, house, stake := Rank(h, 0), Rank(dealer, 1), h.stake as real;
      && (player == house ==> HandUtility(h, dealer) == 0.0)
      && (player < house ==> HandUtility(h, dealer) == -stake)
      && (player > house ==> HandUtility(h, dealer) == if player == 22 then 1.5 * stake else stake)
  {
  }

  function UtilityOf(hands: seq<Hand>, dealer: Hand): real
    decreases |hands|
  {
    if hands == [] then 0.0 else UtilityOf(hands[..|hands| - 1], dealer) + HandUtility(hands[|hands| - 1], dealer)
  }

  // What the player wins; the dealer loses it.
  function Utility(p: Position): real {
    UtilityOf(p.hands, p.dealer)
  }

  // ---- The value of a round ----

  // The player's strategy: the probability of each action index at each information set.
  type Policy = (int, nat) -> real

  function Weight(p: Position, policy: Policy, i: nat): real
    requires p.active < |p.hands| && i < ActionCount(p)
  {
    var a := ActionAt(p, i);
    if a.Deal? then CardProbability(a.card) else policy(InformationKey(p), i)
  }

  // Some sequence of actions leads to p.
  ghost predicate Reachable(p: Position) {
    exists actions :: After(actions) == Ok(p)
  }

  lemma ReachableOk(p: Position)
    requires Reachable(p)
    ensures Inv(p) && Worth(p) >= 0
  {
    var actions :| After(actions) == Ok(p);
    RoundsAreBounded(actions);
    WorthIsPositive(p);
  }

  lemma ReachableWorth(p: Position)
    requires Reachable(p)
    ensures p.active < |p.hands| && Worth(p) >= 0
  {
    ReachableOk(p);
  }

  lemma NextReachable(p: Position, a: Action)
    requires Reachable(p) && p.active < |p.hands| && Legal(p, a)
    ensures Advance(p, a).Ok? && Reachable(Advance(p, a).value)
    ensures Advance(p, a).value.active < |Advance(p, a).value.hands| && 0 <= Worth(Advance(p, a).value) < Worth(p)
  {
    var actions :| After(actions) == Ok(p);
    ReachableOk(p);
    AdvanceOk(p, a);
    assert (actions + [a])[..|actions|] == actions;
    assert After(actions + [a]) == Advance(p, a);
    ReachableOk(Advance(p, a).value);
  }

  // Something measured at positions, and what each action multiplies.
  type Measure = Position -> real
  type Weights = (Position, nat) -> real

  // The measure added up over all the play that can follow p, by weight.
  ghost function Fold(p: Position, w: Weights, f: Measure): real
    requires Reachable(p) && p.active < |p.hands|
    decreases Worth(p), 100, 0
  {
    ReachableWorth(p);
    f(p) + FoldOver(p, w, f, ActionCount(p))
  }

  ghost function FoldOver(p: Position, w: Weights, f: Measure, n: nat): real
    requires Reachable(p) && p.active < |p.hands| && n <= ActionCount(p)
    decreases Worth(p), n, 0
  {
    ReachableWorth(p);
    if n == 0 then 0.0 else FoldOver(p, w, f, n - 1) + Term(p, w, f, n - 1)
  }

  // What action i contributes.
  ghost function Term(p: Position, w: Weights, f: Measure, i: nat): real
    requires Reachable(p) && p.active < |p.hands| && i < ActionCount(p)
    decreases Worth(p), i, 1
  {
    Times(w(p, i), ChildFold(p, w, f, i))
  }

  ghost function ChildFold(p: Position, w: Weights, f: Measure, i: nat): real
    requires Reachable(p) && p.active < |p.hands| && i < ActionCount(p)
    decreases Worth(p), i, 0
  {
    ChildReachable(p, i);
    Fold(ChildOf(p, i), w, f)
  }

  // The position after action i.
  function ChildOf(p: Position, i: nat): Position
    requires p.active < |p.hands| && i < ActionCount(p)
  {
    match Advance(p, ActionAt(p, i))
    case Ok(q) => q
    case Err(_) => p
  }

  lemma ChildReachable(p: Position, i: nat)
    requires Reachable(p) && p.active < |p.hands| && i < ActionCount(p)
    ensures Advance(p, ActionAt(p, i)) == Ok(ChildOf(p, i))
    ensures Reachable(ChildOf(p, i)) && ChildOf(p, i).active < |ChildOf(p, i).hands|
    ensures 0 <= Worth(ChildOf(p, i)) < Worth(p)
  {
    ActionsAreLegal(p, ActionAt(p, i));
    NextReachable(p, ActionAt(p, i));
  }

  ghost function Terms(p: Position, w: Weights, f: Measure): nat -> real
    requires Reachable(p) && p.active < |p.hands|
  {
    (i: nat) => if i < ActionCount(p) then Term(p, w, f, i) else 0.0
  }

  lemma {:induction false} FoldIsSum(p: Position, w: Weights, f: Measure, n: nat)
    requires Reachable(p) && p.active < |p.hands| && n <= ActionCount(p)
    ensures FoldOver(p, w, f, n) == Sum(Terms(p, w, f), 0, n)
    decreases n
  {
    if n > 0 {
      FoldIsSum(p, w, f, n - 1);
    }
  }

  // A walk of the whole tree that carries the product of the weights down: each history adds the
  // measure where it ends times its product, as a full traversal does.
  ghost function Traverse(p: Position, w: Weights, f: Measure, x: real): real
    requires Reachable(p) && p.active < |p.hands|
    decreases Worth(p), 100, 0
  {
    ReachableWorth(p);
    Times(x, f(p)) + TraverseOver(p, w, f, x, ActionCount(p))
  }

  ghost function TraverseOver(p: Position, w: Weights, f: Measure, x: real, n: nat): real
    requires Reachable(p) && p.active < |p.hands| && n <= ActionCount(p)
    decreases Worth(p), n, 0
  {
    ReachableWorth(p);
    if n == 0 then 0.0 else TraverseOver(p, w, f, x, n - 1) + TraverseChild(p, w, f, x, n - 1)
  }

  ghost function TraverseChild(p: Position, w: Weights, f: Measure, x: real, i: nat): real
    requires Reachable(p) && p.active < |p.hands| && i < ActionCount(p)
    decreases Worth(p), i, 0
  {
    ChildReachable(p, i);
    Traverse(ChildOf(p, i), w, f, Times(x, w(p, i)))
  }

  // The walk adds up to the fold, times what it started with.
  lemma {:induction false} TraverseIsFold(p: Position, w: Weights, f: Measure, x: real)
    requires Reachable(p) && p.active < |p.hands|
    ensures Traverse(p, w, f, x) == Times(x, Fold(p, w, f))
    decreases Worth(p), 100, 0
  {
    ReachableWorth(p);
    TraverseOverIsFold(p, w, f, x, ActionCount(p));
    TimesSum(x, f(p), FoldOver(p, w, f, ActionCount(p)), Fold(p, w, f), Times(x, f(p)), TraverseOver(p, w, f, x, ActionCount(p)));
  }

  lemma {:induction false} TraverseOverIsFold(p: Position, w: Weights, f: Measure, x: real, n: nat)
    requires Reachable(p) && p.active < |p.hands| && n <= ActionCount(p)
    ensures TraverseOver(p, w, f, x, n) == Times(x, FoldOver(p, w, f, n))
    decreases Worth(p), n, 0
  {
    if n == 0 {
      TimesZero(x);
    } else {
      TraverseOverIsFold(p, w, f, x, n - 1);
      TraverseChildIsFold(p, w, f, x, n - 1);
      TimesSum(x, FoldOver(p, w, f, n - 1), Term(p, w, f, n - 1), FoldOver(p, w, f, n),
               TraverseOver(p, w, f, x, n - 1), TraverseChild(p, w, f, x, n - 1));
    }
  }

  lemma {:induction false} TraverseChildIsFold(p: Position, w: Weights, f: Measure, x: real, i: nat)
    requires Reachable(p) && p.active < |p.hands| && i < ActionCount(p)
    ensures TraverseChild(p, w, f, x, i) == Times(x, Term(p, w, f, i))
    decreases Worth(p), i, 0
  {
    ReachableWorth(p);
    ChildReachable(p, i);
    TraverseIsFold(ChildOf(p, i), w, f, Times(x, w(p, i)));
    TimesTimes(x, w(p, i), ChildFold(p, w, f, i));
  }

  // ---- The value of a round ----

  function Playing(policy: Policy): Weights {
    (p: Position, i: nat) => if p.active < |p.hands| && i < ActionCount(p) then Weight(p, policy, i) else 0.0
  }

  // The weights of the first n actions together.
  ghost function Odds(p: Position, policy: Policy, n: nat): real
    requires p.active < |p.hands| && n <= ActionCount(p)
  {
    if n == 0 then 0.0 else Odds(p, policy, n - 1) + Weight(p, policy, n - 1)
  }

  // The policy is a distribution over the actions of every decision that can come up.
  ghost predicate Proper(policy: Policy) {
    forall p :: Reachable(p) && p.active < |p.hands| && p.phase == PlayerTurn ==> IsCertain(p, policy)
  }

  ghost predicate IsCertain(p: Position, policy: Policy)
    requires p.active < |p.hands|
  {
    Odds(p, policy, ActionCount(p)) == 1.0
  }

  lemma {:induction false} CardOdds(p: Position, policy: Policy, n: nat)
    requires p.active < |p.hands| && p.phase != PlayerTurn && p.phase != Terminal && n <= 9
    ensures Odds(p, policy, n) == n as real / 13.0
    decreases n
  {
    if n > 0 {
      CardOdds(p, policy, n - 1);
    }
  }

  // The ten cards that can be dealt make a distribution, and so do the actions of any position still in play.
  lemma ActionsAreCertain(p: Position, policy: Policy)
    requires Proper(policy) && Reachable(p) && p.active < |p.hands| && p.phase != Terminal
    ensures IsCertain(p, policy)
  {
    if p.phase != PlayerTurn {
      CardOdds(p, policy, 9);
      assert Odds(p, policy, 10) == Odds(p, policy, 9) + CardProbability(10);
    }
  }

  function Ended(): Measure {
    (p: Position) => if p.phase == Terminal then 1.0 else 0.0
  }

  // Under any policy the ends of a round are certain: their probabilities add up to one, so that the fold of
  // the utility is an expected value.
  lemma {:induction false} EndsAreCertain(p: Position, policy: Policy)
    requires Proper(policy) && Reachable(p) && p.active < |p.hands|
    ensures Fold(p, Playing(policy), Ended()) == 1.0
    decreases Worth(p), 100
  {
    ReachableWorth(p);
    EndsBefore(p, policy, ActionCount(p));
    if p.phase != Terminal {
      ActionsAreCertain(p, policy);
    }
  }

  lemma {:induction false} EndsBefore(p: Position, policy: Policy, n: nat)
    requires Proper(policy) && Reachable(p) && p.active < |p.hands| && n <= ActionCount(p)
    ensures FoldOver(p, Playing(policy), Ended(), n) == Odds(p, policy, n)
    decreases Worth(p), n
  {
    ReachableWorth(p);
    if n > 0 {
      EndsBefore(p, policy, n - 1);
      EndsThrough(p, policy, n - 1);
    }
  }

  lemma {:induction false} EndsThrough(p: Position, policy: Policy, i: nat)
    requires Proper(policy) && Reachable(p) && p.active < |p.hands| && i < ActionCount(p)
    ensures Term(p, Playing(policy), Ended(), i) == Weight(p, policy, i)
    decreases Worth(p), i
  {
    ReachableWorth(p);
    ChildReachable(p, i);
    EndsAreCertain(ChildOf(p, i), policy);
    TimesByOne(Weight(p, policy, i));
  }

  function Payment(): Measure {
    (p: Position) => if p.phase == Terminal then Utility(p) else 0.0
  }

  // The player's expected utility from p under the policy.
  ghost function Value(p: Position, policy: Policy): real
    requires Reachable(p) && p.active < |p.hands|
  {
    Fold(p, Playing(policy), Payment())
  }
}
