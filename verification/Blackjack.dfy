// The blackjack state object: it is changed in place, remembers how to undo every transition, and
// can tell whether it could have been reached at all.
module Blackjack {
  import opened BlackjackRules

  datatype Status = Success | Refused(error: Error)

  // What one transition overwrites.
  datatype Entry = Entry(phase: Phase, action: Action, active: nat, handCount: nat, hand: Hand, dealer: Hand, up: int)

  const EMPTY_ENTRY: Entry := Entry(DealPlayerFirst, Unknown, 0, 0, EMPTY_HAND, EMPTY_HAND, 0)

  function EntryOf(p: Position, a: Action): Entry
    requires p.active < |p.hands|
  {
    Entry(p.phase, a, p.active, |p.hands|, p.hands[p.active], p.dealer, p.up)
  }

  // Taking a transition back: the two halves of a split become one again, and everything else
  // that can have changed is put back.
  function Undone(q: Position, e: Entry): Position
    requires e.active < |q.hands| && (e.phase == PlayerTurn && e.action.Split? ==> e.active + 1 < |q.hands|)
  {
    var hands := if e.phase == PlayerTurn && e.action.Split? then q.hands[..e.active + 1] + q.hands[e.active + 2..] else q.hands;
    Position(e.phase, hands[e.active := e.hand], e.active, e.dealer, e.up)
  }

  // Undo exactly inverts every transition, from any position whatever.
  lemma UndoInverts(p: Position, a: Action)
    requires p.active < |p.hands| && Advance(p, a).Ok?
    ensures var q, e := Advance(p, a).value, EntryOf(p, a);
      && |q.hands| == |p.hands| + (if p.phase == PlayerTurn && a.Split? then 1 else 0)
      && Undone(q, e) == p
  {
    if p.phase == PlayerTurn && a.Split? {
      SplitInverts(p, a);
    } else {
      OnlyActiveChanges(p, a);
    }
  }

  lemma SplitInverts(p: Position, a: Action)
    requires p.active < |p.hands| && Advance(p, a).Ok? && p.phase == PlayerTurn && a.Split?
    ensures var q, e := Advance(p, a).value, EntryOf(p, a); |q.hands| == |p.hands| + 1 && Undone(q, e) == p
  {
    var q := Advance(p, a).value;
    var half := SplitHand(PairCard(p.hands[p.active]));
    assert q.hands == p.hands[..p.active] + [half, half] + p.hands[p.active + 1..];
    assert q.hands[..p.active + 1] + q.hands[p.active + 2..] == p.hands[p.active := half];
  }

  // Any other transition keeps the other hands.
  lemma OnlyActiveChanges(p: Position, a: Action)
    requires p.active < |p.hands| && Advance(p, a).Ok? && !(p.phase == PlayerTurn && a.Split?)
    ensures var q := Advance(p, a).value; |q.hands| == |p.hands| && q.hands[p.active := p.hands[p.active]] == p.hands
  {
  }

  // The undo history of a whole round.
  ghost function Recorded(actions: seq<Action>): (es: seq<Entry>)
    decreases |actions|
  {
    if actions == [] then [] else
      var before := After(actions[..|actions| - 1]);
      if before.Ok? && before.value.active < |before.value.hands| then
        Recorded(actions[..|actions| - 1]) + [EntryOf(before.value, actions[|actions| - 1])]
      else []
  }

  // Entry i of the history of a round is the one its i-th action recorded.
  lemma {:induction false} RecordedAt(actions: seq<Action>, i: nat)
    requires After(actions).Ok? && i < |actions|
    ensures |Recorded(actions)| == |actions|
    ensures After(actions[..i]).Ok? && After(actions[..i]).value.active < |After(actions[..i]).value.hands|
    ensures Recorded(actions)[i] == EntryOf(After(actions[..i]).value, actions[i])
    ensures Advance(After(actions[..i]).value, actions[i]).Ok?
    decreases |actions|
  {
    var before := actions[..|actions| - 1];
    RoundsAreBounded(before);
    if i < |actions| - 1 {
      RecordedAt(before, i);
      assert before[..i] == actions[..i];
    } else {
      assert actions[..i] == before;
      if before != [] {
        RecordedAt(before, 0);
      }
    }
  }

  // The last entry of a round's history, and the round before it.
  lemma LastRecorded(actions: seq<Action>)
    requires actions != [] && After(actions).Ok?
    ensures var n := |actions| - 1; var before := After(actions[..n]);
      && before.Ok? && before.value.active < |before.value.hands| <= MAX_HANDS
      && After(actions) == Advance(before.value, actions[n])
      && |Recorded(actions)| == n + 1 && Recorded(actions)[..n] == Recorded(actions[..n])
      && Recorded(actions)[n] == EntryOf(before.value, actions[n])
  {
    var n := |actions| - 1;
    RecordedAt(actions, n);
    RoundsAreBounded(actions[..n]);
    if n > 0 {
      RecordedAt(actions[..n], 0);
    }
  }

  // A round is at its first card only before any action.
  lemma FirstHasNoHistory(actions: seq<Action>)
    requires After(actions).Ok?
    ensures After(actions).value.phase == DealPlayerFirst ==> actions == []
  {
    if actions != [] {
      LastRecorded(actions);
      NeverFirst(After(actions[..|actions| - 1]).value, actions[|actions| - 1]);
    }
  }

  lemma NeverFirst(p: Position, a: Action)
    requires Advance(p, a).Ok?
    ensures Advance(p, a).value.phase != DealPlayerFirst
  {
  }

  lemma AcceptedIsKnown(p: Position, a: Action)
    requires Advance(p, a).Ok?
    ensures !a.Unknown?
  {
  }

  predicate HandShapeOk(h: Hand) {
    if h.total < 0 || h.count > HAND_CAPACITY then false
    else if h.count == 0 then h.total == 0 && !h.soft && !h.pair
    else if h.total == 0 || (h.count == 1 && h.pair) || (h.count > 2 && h.pair) then false
    else if h.count == 1 then (if h.soft then h.total == 11 else 2 <= h.total <= 10)
    else if h.soft && (h.total < 12 || h.total > 21) then false
    else if h.pair then (if h.soft then h.total == 12 else 4 <= h.total <= 20 && h.total % 2 == 0)
    else true
  }

  // The part of the shape check that looks at the position.
  predicate PositionShapeOk(p: Position) {
    && p.active < |p.hands| && 1 <= |p.hands| <= MAX_HANDS
    && HandShapeOk(p.dealer) && p.dealer.stake == 0 && !p.dealer.fromSplit
    && (forall i: nat :: i < |p.hands| ==> HandShapeOk(p.hands[i]) && (p.hands[i].stake == 1 || p.hands[i].stake == 2))
    && (p.dealer.count == 0 ==> p.up == 0) && (p.dealer.count > 0 ==> 1 <= p.up <= 10)
    && var h := p.hands[p.active];
    match p.phase
    case DealPlayerFirst =>
      |p.hands| == 1 && p.active == 0 && p.hands[0].count == 0 && p.hands[0].stake == 1 && !p.hands[0].fromSplit && p.dealer.count == 0
    case DealDealerUpCard => |p.hands| == 1 && p.active == 0 && p.hands[0].count == 1 && p.dealer.count == 0
    case DealPlayerSecond => |p.hands| == 1 && p.active == 0 && p.hands[0].count == 1 && p.dealer.count == 1
    case DealDealerHoleCard => |p.hands| == 1 && p.active == 0 && p.hands[0].count == 2 && p.dealer.count == 1
    case PlayerTurn => h.count >= 2 && p.dealer.count >= 2 && h.total <= 21 && !Natural(h) && !Natural(p.dealer)
    case DealPlayerHit => h.count >= 2 && p.dealer.count >= 2 && h.total <= 21 && !Natural(h) && !Natural(p.dealer)
    case DealPlayerDouble => h.count == 2 && h.stake == 2 && h.total <= 21 && p.dealer.count >= 2
    case DealSplitHand => |p.hands| >= 2 && h.count == 1 && h.fromSplit && p.dealer.count >= 2
    case DealDealerHit => p.dealer.count >= 2 && !AllBust(p.hands) && p.dealer.total < 17
    case Terminal => p.hands[0].count >= 2 && p.dealer.count >= 2
  }

  // The shape check turns nothing away that a round can reach.
  lemma ReachedHasShape(p: Position)
    requires Inv(p)
    ensures PositionShapeOk(p)
  {
    forall i: nat | i < |p.hands| ensures HandShapeOk(p.hands[i]) && (p.hands[i].stake == 1 || p.hands[i].stake == 2) {
      assert PlayerHandOk(p, i);
    }
    assert PlayerHandOk(p, p.active) && PlayerHandOk(p, 0);
  }

  // The hands after the later ones have moved up and both halves are in place.
  lemma ShiftedUp(before: seq<Hand>, after: seq<Hand>, active: nat, n: nat, half: Hand)
    requires active < n < |before| == |after|
    requires forall k: nat :: k < active ==> after[k] == before[k]
    requires after[active] == half && after[active + 1] == half
    requires forall k: nat :: active + 1 < k <= n ==> after[k] == before[k - 1]
    ensures after[..n + 1] == before[..n][..active] + [half, half] + before[..n][active + 1..]
  {
  }

  class BlackjackState {
    var phase: Phase
    const hands: array<Hand>
    var handCount: nat
    var active: nat
    var dealer: Hand
    var up: int
    const undo: array<Entry>
    var undoCount: nat

    ghost predicate Rep()
      reads this
    {
      hands.Length == MAX_HANDS && undo.Length == UNDO_CAPACITY
    }

    function View(): Position
      reads this, hands
      requires handCount <= hands.Length
    {
      Position(phase, hands[..handCount], active, dealer, up)
    }

    // Everything observable, for saying that nothing has changed.
    twostate predicate Unchanged()
      reads this, hands, undo
    {
      && phase == old(phase) && hands[..] == old(hands[..]) && handCount == old(handCount) && active == old(active)
      && dealer == old(dealer) && up == old(up) && undo[..] == old(undo[..]) && undoCount == old(undoCount)
    }

    // The object is what it would be after initialisation and exactly these actions.
    ghost predicate Reached(actions: seq<Action>)
      reads this, hands, undo
      requires Rep()
    {
      && handCount <= MAX_HANDS && undoCount == |actions| <= UNDO_CAPACITY
      && After(actions) == Ok(View())
      && undo[..undoCount] == Recorded(actions)
      && (forall i: nat :: handCount <= i < MAX_HANDS ==> hands[i] == EMPTY_HAND)
      && (forall i: nat :: undoCount <= i < UNDO_CAPACITY ==> undo[i] == EMPTY_ENTRY)
    }

    constructor ()
      ensures Rep() && Reached([])
      ensures fresh(hands) && fresh(undo)
    {
      hands := new Hand[MAX_HANDS](i => if i == 0 then EMPTY_HAND.(stake := 1) else EMPTY_HAND);
      undo := new Entry[UNDO_CAPACITY](_ => EMPTY_ENTRY);
      phase, handCount, active, dealer, up, undoCount := DealPlayerFirst, 1, 0, EMPTY_HAND, 0, 0;
      new;
      assert hands[..1] == [EMPTY_HAND.(stake := 1)];
    }

    predicate UnusedAreEmpty()
      reads this, hands
    {
      forall i: nat :: handCount <= i < hands.Length ==> hands[i] == EMPTY_HAND
    }

    predicate ShapeOk()
      reads this, hands, undo
      requires Rep()
    {
      && handCount <= MAX_HANDS && PositionShapeOk(View()) && UnusedAreEmpty()
      && undoCount <= UNDO_CAPACITY && (undoCount < UNDO_CAPACITY ==> undo[undoCount] == EMPTY_ENTRY)
      && (phase == DealPlayerFirst ==> undoCount == 0)
    }

    // One card to the active hand or to the dealer.
    method DealCardTo(a: Action) returns (status: Status)
      requires Rep() && active < handCount <= MAX_HANDS
      modifies this`dealer, this`up, hands
      ensures status == (match DealCard(old(View()), a) case Ok(_) => Success case Err(e) => Refused(e))
      ensures status == Success ==> View() == DealCard(old(View()), a).value
      ensures status != Success ==> View() == old(View())
      ensures forall i: nat :: handCount <= i < MAX_HANDS ==> hands[i] == old(hands[i])
    {
      if !a.Deal? {
        return Refused(IllegalAction);
      }
      if DealsToPlayer(phase) {
        if hands[active].count >= HAND_CAPACITY {
          return Refused(BufferTooSmall);
        }
        hands[active] := AddCard(hands[active], a.card);
      } else {
        if dealer.count >= HAND_CAPACITY {
          return Refused(BufferTooSmall);
        }
        dealer := AddCard(dealer, a.card);
        if phase == DealDealerUpCard {
          up := a.card;
        }
      }
      return Success;
    }

    method AllHandsBust() returns (all: bool)
      requires Rep() && handCount <= MAX_HANDS
      ensures all == AllBust(hands[..handCount])
    {
      for i := 0 to handCount
        invariant forall k: nat :: k < i ==> hands[k].total > 21
      {
        if hands[i].total <= 21 {
          return false;
        }
      }
      return true;
    }

    method FinishActiveHand()
      requires Rep() && active < handCount <= MAX_HANDS
      modifies this`active, this`phase
      ensures View() == FinishHand(old(View()))
    {
      if active + 1 < handCount {
        active := active + 1;
        phase := if hands[active].count == 1 then DealSplitHand else PlayerTurn;
        return;
      }
      var bust := AllHandsBust();
      phase := if bust then Terminal else if dealer.total < 17 then DealDealerHit else Terminal;
    }

    // Shifts the later hands up by one to make room for the second half.
    method SplitActiveHand()
      requires Rep() && active < handCount < MAX_HANDS && 1 <= PairCard(hands[active]) <= 10
      modifies this`handCount, this`phase, hands
      ensures handCount == old(handCount) + 1 && View() == SplitActive(old(View()))
      ensures forall i: nat :: handCount <= i < MAX_HANDS ==> hands[i] == old(hands[i])
    {
      var half := SplitHand(PairCard(hands[active]));
      ghost var before := hands[..];
      ghost var n := handCount;
      var i := handCount;
      while i > active + 1
        invariant handCount == n && active + 1 <= i <= n
        invariant forall k: nat :: k < i ==> hands[k] == before[k]
        invariant forall k: nat :: i < k <= n ==> hands[k] == before[k - 1]
        invariant forall k: nat :: n < k < MAX_HANDS ==> hands[k] == before[k]
      {
        hands[i] := hands[i - 1];
        i := i - 1;
      }
      hands[active] := half;
      hands[active + 1] := half;
      handCount := handCount + 1;
      phase := DealSplitHand;
      ShiftedUp(before, hands[..], active, n, half);
      assert hands[..handCount] == hands[..][..n + 1];
    }

    // The player's own move.
    method Play(a: Action) returns (status: Status)
      requires Rep() && active < handCount <= MAX_HANDS && phase == PlayerTurn && UnusedAreEmpty()
      modifies this`phase, this`active, this`handCount, hands
      ensures status == (match Advance(old(View()), a) case Ok(_) => Success case Err(e) => Refused(e))
      ensures handCount <= MAX_HANDS && UnusedAreEmpty()
      ensures status == Success ==> View() == Advance(old(View()), a).value
      ensures status != Success ==> View() == old(View()) && hands[..] == old(hands[..])
    {
      status := Success;
      var h := hands[active];
      match a
      case Hit => phase := DealPlayerHit;
      case Stand => FinishActiveHand();
      case DoubleDown =>
        if !(h.count == 2 && h.stake == 1) {
          return Refused(IllegalAction);
        }
        hands[active] := h.(stake := 2);
        phase := DealPlayerDouble;
      case Split =>
        if !(handCount < MAX_HANDS && h.stake == 1 && h.count == 2 && h.pair && !(h.fromSplit && h.soft)) || !(1 <= PairCard(h) <= 10) {
          return Refused(IllegalAction);
        }
        SplitActiveHand();
      case _ => status := Refused(IllegalAction);
    }

    // One transition, not recorded. On failure nothing has changed.
    method AdvanceState(a: Action) returns (status: Status)
      requires Rep() && active < handCount <= MAX_HANDS && UnusedAreEmpty()
      modifies this`phase, this`active, this`handCount, this`dealer, this`up, hands
      ensures status == (match Advance(old(View()), a) case Ok(_) => Success case Err(e) => Refused(e))
      ensures handCount <= MAX_HANDS && UnusedAreEmpty()
      ensures status == Success ==> View() == Advance(old(View()), a).value
      ensures status != Success ==> View() == old(View()) && hands[..] == old(hands[..])
    {
      if phase == PlayerTurn {
        status := Play(a);
        return;
      }
      if phase == Terminal {
        return Refused(IllegalAction);
      }
      var before := hands[active];
      status := DealCardTo(a);
      if status != Success {
        return;
      }
      Arrive(before, a, old(View()));
    }

    // Where the dealt card leads.
    method Arrive(before: Hand, a: Action, ghost p: Position)
      requires Rep() && active < handCount <= MAX_HANDS && phase != PlayerTurn && phase != Terminal
      requires p.phase == phase && p.active == active < |p.hands| && p.hands[p.active] == before && DealCard(p, a) == Ok(View())
      modifies this`phase, this`active
      ensures View() == AfterDeal(p, old(View()))
    {
      match phase
      case DealPlayerFirst => phase := DealDealerUpCard;
      case DealDealerUpCard => phase := DealPlayerSecond;
      case DealPlayerSecond => phase := DealDealerHoleCard;
      case DealDealerHoleCard => phase := if Natural(hands[0]) || Natural(dealer) then Terminal else PlayerTurn;
      case DealPlayerHit =>
        if hands[active].total >= 21 {
          FinishActiveHand();
        } else {
          phase := PlayerTurn;
        }
      case DealPlayerDouble => FinishActiveHand();
      case DealSplitHand =>
        if (before.soft && before.total == 11) || hands[active].total == 21 {
          FinishActiveHand();
        } else {
          phase := PlayerTurn;
        }
      case DealDealerHit => phase := if dealer.total < 17 then DealDealerHit else Terminal;
      case _ =>
    }

    // A state that a round can reach passes the shape check, and has room for one more entry.
    lemma ReachedIsShaped(actions: seq<Action>)
      requires Rep() && Reached(actions)
      ensures Inv(View()) && ShapeOk() && undoCount < UNDO_CAPACITY
    {
      RoundsAreBounded(actions);
      WorthIsPositive(View());
      ReachedHasShape(View());
      FirstHasNoHistory(actions);
    }

    // Checked application: only a state of the right shape is touched.
    method ApplyAction(a: Action) returns (status: Status)
      requires Rep()
      modifies this`phase, this`active, this`handCount, this`dealer, this`up, this`undoCount, hands, undo
      ensures Rep()
      ensures status != Success ==> Unchanged()
      ensures !old(ShapeOk()) ==> status == Refused(InvalidArgument)
      ensures old(ShapeOk()) ==> status == old(ApplyStatus(a))
      ensures status == Success ==> old(ShapeOk()) && Applied(a)
    {
      var shaped := CheckShape();
      if !shaped {
        return Refused(InvalidArgument);
      }
      status := TrustedApply(a);
    }

    function ApplyStatus(a: Action): Status
      reads this, hands
      requires Rep() && handCount <= MAX_HANDS
    {
      if undoCount >= UNDO_CAPACITY then Refused(BufferTooSmall)
      else match Advance(View(), a) case Ok(_) => Success case Err(e) => Refused(e)
    }

    // What a successful application leaves: the next position, and one more entry.
    twostate predicate Applied(a: Action)
      reads this, hands, undo
      requires Rep() && old(handCount) <= MAX_HANDS && old(active) < old(handCount) && old(undoCount) < UNDO_CAPACITY
    {
      && handCount <= MAX_HANDS && UnusedAreEmpty()
      && Advance(old(View()), a) == Ok(View())
      && undoCount == old(undoCount) + 1
      && undo[..] == old(undo[..])[old(undoCount) := EntryOf(old(View()), a)]
    }

    method TrustedApply(a: Action) returns (status: Status)
      requires Rep() && active < handCount <= MAX_HANDS && UnusedAreEmpty()
      modifies this`phase, this`active, this`handCount, this`dealer, this`up, this`undoCount, hands, undo
      ensures status == old(ApplyStatus(a))
      ensures status != Success ==> Unchanged()
      ensures status == Success ==> old(undoCount) < UNDO_CAPACITY && Applied(a)
    {
      if undoCount >= UNDO_CAPACITY {
        return Refused(BufferTooSmall);
      }
      var entry := Entry(phase, a, active, handCount, hands[active], dealer, up);
      status := AdvanceState(a);
      if status == Success {
        undo[undoCount] := entry;
        undoCount := undoCount + 1;
      }
    }

    method CheckShape() returns (ok: bool)
      requires Rep()
      ensures ok == ShapeOk()
    {
      ok := ShapeOk();
    }

    // Does the entry fit the number of hands there are?
    predicate Fits(e: Entry)
      reads this
    {
      && !e.action.Unknown? && 0 < e.handCount <= MAX_HANDS && e.active < e.handCount
      && handCount == e.handCount + if e.phase == PlayerTurn && e.action.Split? then 1 else 0
    }

    // Checked undo of the last transition.
    method UndoAction() returns (status: Status)
      requires Rep()
      modifies this`phase, this`active, this`handCount, this`dealer, this`up, this`undoCount, hands, undo
      ensures Rep()
      ensures status != Success ==> Unchanged()
      ensures !old(ShapeOk()) || old(undoCount) == 0 ==> status == Refused(InvalidArgument)
      ensures old(ShapeOk()) && old(undoCount) > 0 && old(Fits(undo[undoCount - 1])) ==> status == Success && TakenBack()
    {
      var shaped := CheckShape();
      if !shaped {
        return Refused(InvalidArgument);
      }
      status := TrustedUndo();
    }

    // What undo leaves: the position before, and one entry fewer.
    twostate predicate TakenBack()
      reads this, hands, undo
      requires Rep() && old(handCount) <= MAX_HANDS && 0 < old(undoCount) <= UNDO_CAPACITY && old(Fits(undo[undoCount - 1]))
    {
      && handCount <= MAX_HANDS && UnusedAreEmpty() && undoCount == old(undoCount) - 1
      && View() == Undone(old(View()), old(undo[undoCount - 1]))
      && undo[..] == old(undo[..])[undoCount := EMPTY_ENTRY]
    }

    method TrustedUndo() returns (status: Status)
      requires Rep() && handCount <= MAX_HANDS && UnusedAreEmpty() && undoCount <= UNDO_CAPACITY
      modifies this`phase, this`active, this`handCount, this`dealer, this`up, this`undoCount, hands, undo
      ensures status != Success ==> Unchanged()
      ensures old(undoCount) == 0 ==> status == Refused(InvalidArgument)
      ensures old(undoCount) > 0 && old(Fits(undo[undoCount - 1])) ==> status == Success && TakenBack()
    {
      if undoCount == 0 {
        return Refused(InvalidArgument);
      }
      var e := undo[undoCount - 1];
      if e.action.Unknown? || e.handCount == 0 || e.handCount > MAX_HANDS || e.active >= e.handCount {
        return Refused(InvalidArgument);
      }
      if e.phase == PlayerTurn && e.action.Split? {
        if handCount != e.handCount + 1 {
          return Refused(InvalidArgument);
        }
        CloseGap(e);
      }
      PutBack(e);
      undoCount := undoCount - 1;
      undo[undoCount] := EMPTY_ENTRY;
      status := Success;
    }

    // Writes back what an entry recorded.
    method PutBack(e: Entry)
      requires Rep() && e.active < e.handCount <= MAX_HANDS
      modifies this`phase, this`active, this`handCount, this`dealer, this`up, hands
      ensures handCount == e.handCount
      ensures View() == Position(e.phase, old(hands[..e.handCount])[e.active := e.hand], e.active, e.dealer, e.up)
      ensures forall k: nat :: handCount <= k < MAX_HANDS ==> hands[k] == old(hands[k])
    {
      phase, handCount, active, dealer, up := e.phase, e.handCount, e.active, e.dealer, e.up;
      hands[active] := e.hand;
    }

    // Shifts the later hands back down over the second half of a split.
    method CloseGap(e: Entry)
      requires Rep() && e.active < e.handCount < MAX_HANDS && handCount == e.handCount + 1 && UnusedAreEmpty()
      modifies hands
      ensures hands[..e.handCount] == old(hands[..handCount])[..e.active + 1] + old(hands[..handCount])[e.active + 2..]
      ensures forall k: nat :: e.handCount <= k < MAX_HANDS ==> hands[k] == EMPTY_HAND
    {
      ghost var before := hands[..];
      for i := e.active + 1 to e.handCount
        invariant forall k: nat :: k <= e.active ==> hands[k] == before[k]
        invariant forall k: nat :: e.active < k < i ==> hands[k] == before[k + 1]
        invariant forall k: nat :: i <= k < MAX_HANDS ==> hands[k] == before[k]
      {
        hands[i] := hands[i + 1];
      }
      hands[e.handCount] := EMPTY_HAND;
    }

    // From a reached state a legal action is accepted and reaches the next; nothing else is.
    method ApplyReached(a: Action, ghost actions: seq<Action>) returns (status: Status)
      requires Rep() && Reached(actions)
      modifies this`phase, this`active, this`handCount, this`dealer, this`up, this`undoCount, hands, undo
      ensures Rep()
      ensures status == if Legal(old(View()), a) then Success else Refused(IllegalAction)
      ensures status == Success ==> Reached(actions + [a])
      ensures status != Success ==> Unchanged() && Reached(actions)
    {
      ReachedIsShaped(actions);
      AdvanceOk(View(), a);
      ghost var before := undo[..];
      status := ApplyAction(a);
      if status == Success {
        assert (actions + [a])[..|actions|] == actions;
        assert undo[..undoCount] == before[..undoCount - 1] + [undo[undoCount - 1]];
      } else {
        assert undo[..] == before;
      }
    }

    // Undo takes a reached state back to the one before, whatever the last action was.
    method UndoReached(ghost actions: seq<Action>) returns (status: Status)
      requires Rep() && Reached(actions)
      modifies this`phase, this`active, this`handCount, this`dealer, this`up, this`undoCount, hands, undo
      ensures Rep()
      ensures status == if actions == [] then Refused(InvalidArgument) else Success
      ensures status == Success ==> Reached(actions[..|actions| - 1])
      ensures status != Success ==> Unchanged()
    {
      ReachedIsShaped(actions);
      ghost var before := undo[..];
      if actions != [] {
        LastEntry(actions);
      }
      status := UndoAction();
      if status == Success {
        ReachedBefore(actions, before);
      }
    }

    // The state whose history is one entry shorter.
    lemma ReachedBefore(actions: seq<Action>, before: seq<Entry>)
      requires Rep() && actions != [] && |actions| <= UNDO_CAPACITY == |before| && before[..|actions|] == Recorded(actions)
      requires forall i: nat :: |actions| <= i < UNDO_CAPACITY ==> before[i] == EMPTY_ENTRY
      requires handCount <= MAX_HANDS && UnusedAreEmpty() && undoCount == |actions| - 1
      requires undo[..] == before[undoCount := EMPTY_ENTRY]
      requires After(actions[..|actions| - 1]) == Ok(View())
      requires Recorded(actions)[..|actions| - 1] == Recorded(actions[..|actions| - 1])
      ensures Reached(actions[..|actions| - 1])
    {
      assert undo[..undoCount] == before[..undoCount];
      assert before[..undoCount + 1][..undoCount] == before[..undoCount];
      forall i: nat | undoCount <= i < UNDO_CAPACITY ensures undo[i] == EMPTY_ENTRY {
        assert undo[i] == undo[..][i];
      }
    }

    lemma LastEntry(actions: seq<Action>)
      requires Rep() && Reached(actions) && actions != []
      ensures var before := actions[..|actions| - 1];
        && After(before).Ok? && Recorded(actions)[..|before|] == Recorded(before)
        && Fits(undo[undoCount - 1])
        && Undone(View(), undo[undoCount - 1]) == After(before).value
    {
      var n := |actions| - 1;
      LastRecorded(actions);
      assert undo[..undoCount][n] == undo[n];
      LastFits(View(), undo[n], actions);
    }

    lemma LastFits(p: Position, e: Entry, actions: seq<Action>)
      requires actions != [] && After(actions) == Ok(p) && |p.hands| == handCount
      requires var before := After(actions[..|actions| - 1]);
        && before.Ok? && before.value.active < |before.value.hands| && |before.value.hands| <= MAX_HANDS
        && Advance(before.value, actions[|actions| - 1]) == Ok(p) && e == EntryOf(before.value, actions[|actions| - 1])
      ensures Fits(e) && Undone(p, e) == After(actions[..|actions| - 1]).value
    {
      var before, a := After(actions[..|actions| - 1]).value, actions[|actions| - 1];
      UndoInverts(before, a);
      AcceptedIsKnown(before, a);
    }

    // ---- Validation by replay ----

    ghost function Actions(n: nat): (actions: seq<Action>)
      reads this, undo
      requires Rep() && n <= UNDO_CAPACITY
      ensures |actions| == n
    {
      seq(n, (i: nat) requires i < n && n <= undo.Length reads undo => undo[i].action)
    }

    // Accepts exactly the states that some sequence of actions reaches from initialisation, by
    // replaying the recorded history on a fresh state and comparing at every step.
    method Validate() returns (status: Status)
      requires Rep()
      ensures status == Success || status == Refused(InvalidArgument)
      ensures status == Success <==> exists actions :: Reached(actions)
    {
      var shaped := CheckShape();
      if !shaped {
        NotReachedUnless(shaped);
        return Refused(InvalidArgument);
      }
      var rest := RestIsEmpty();
      if !rest {
        return Refused(InvalidArgument);
      }
      var expected := new BlackjackState();
      for i := 0 to undoCount
        invariant Replayed(expected, i)
      {
        var ok := ReplayEntry(expected, i);
        if !ok {
          return Refused(InvalidArgument);
        }
      }
      var same := SamePosition(expected);
      CompareReplay(expected);
      return if same then Success else Refused(InvalidArgument);
    }

    method ReplayEntry(expected: BlackjackState, i: nat) returns (ok: bool)
      requires Rep() && undoCount <= UNDO_CAPACITY && i < undoCount && Replayed(expected, i)
      modifies expected`phase, expected`active, expected`handCount, expected`dealer, expected`up, expected.hands
      ensures ok ==> Replayed(expected, i + 1)
      ensures !ok ==> !exists actions :: Reached(actions)
    {
      ok := Matches(expected, i);
      if ok {
        ok := Replay(expected, i);
      }
    }

    // After a full replay the state has been reached exactly when it is where the replay ended.
    lemma CompareReplay(expected: BlackjackState)
      requires Rep() && handCount <= MAX_HANDS && UnusedAreEmpty() && undoCount <= UNDO_CAPACITY && Replayed(expected, undoCount)
      requires forall i: nat :: undoCount <= i < UNDO_CAPACITY ==> undo[i] == EMPTY_ENTRY
      ensures (exists actions :: Reached(actions)) <==> View() == expected.View()
    {
      if View() == expected.View() {
        assert Reached(Actions(undoCount));
      } else {
        SameIfReached(expected);
      }
    }

    lemma NotReachedUnless(shaped: bool)
      requires Rep() && shaped == ShapeOk()
      ensures !shaped ==> !exists actions :: Reached(actions)
    {
      if actions :| Reached(actions) {
        ReachedIsShaped(actions);
      }
    }

    method RestIsEmpty() returns (empty: bool)
      requires Rep() && undoCount <= UNDO_CAPACITY
      ensures empty <==> forall i: nat :: undoCount <= i < UNDO_CAPACITY ==> undo[i] == EMPTY_ENTRY
    {
      for i := undoCount to UNDO_CAPACITY
        invariant forall k: nat :: undoCount <= k < i ==> undo[k] == EMPTY_ENTRY
      {
        if undo[i] != EMPTY_ENTRY {
          return false;
        }
      }
      return true;
    }

    // The replay of the first i entries has gone well so far.
    ghost predicate Replayed(expected: BlackjackState, i: nat)
      reads this, undo, expected, expected.hands, expected.undo
      requires Rep() && undoCount <= UNDO_CAPACITY && i <= undoCount
    {
      && expected.Rep() && expected != this && expected.hands != hands
      && expected.handCount <= MAX_HANDS && expected.active < expected.handCount && expected.UnusedAreEmpty()
      && After(Actions(i)) == Ok(expected.View())
      && undo[..i] == Recorded(Actions(i))
    }

    // Does entry i record what is about to be overwritten?
    method Matches(expected: BlackjackState, i: nat) returns (ok: bool)
      requires Rep() && undoCount <= UNDO_CAPACITY && i < undoCount && Replayed(expected, i)
      ensures ok ==> undo[i] == EntryOf(expected.View(), undo[i].action)
      ensures !ok ==> !exists actions :: Reached(actions)
    {
      var e := undo[i];
      ok := e.phase == expected.phase && !e.action.Unknown? && e.active == expected.active && e.handCount == expected.handCount
            && e.hand == expected.hands[expected.active] && e.dealer == expected.dealer && e.up == expected.up;
      if !ok {
        forall actions ensures !Reached(actions) {
          if Reached(actions) {
            EntryIfReached(expected, i, actions);
          }
        }
      }
    }

    lemma EntryIfReached(expected: BlackjackState, i: nat, actions: seq<Action>)
      requires Rep() && undoCount <= UNDO_CAPACITY && i < undoCount && Replayed(expected, i) && Reached(actions)
      ensures undo[i] == EntryOf(expected.View(), undo[i].action) && Advance(expected.View(), undo[i].action).Ok?
    {
      RecordedAt(actions, i);
      assert undo[..undoCount][i] == undo[i];
      ActionsIfReached(actions, i);
    }

    // The actions of a reached state are the recorded ones.
    lemma ActionsIfReached(actions: seq<Action>, n: nat)
      requires Rep() && Reached(actions) && n <= undoCount
      ensures actions[..n] == Actions(n)
    {
      forall k: nat | k < n ensures actions[k] == undo[k].action {
        RecordedAt(actions, k);
        assert undo[..undoCount][k] == undo[k];
      }
    }

    method Replay(expected: BlackjackState, i: nat) returns (ok: bool)
      requires Rep() && undoCount <= UNDO_CAPACITY && i < undoCount && Replayed(expected, i)
      requires undo[i] == EntryOf(expected.View(), undo[i].action)
      modifies expected`phase, expected`active, expected`handCount, expected`dealer, expected`up, expected.hands
      ensures ok ==> Replayed(expected, i + 1)
      ensures !ok ==> !exists actions :: Reached(actions)
    {
      ghost var p := expected.View();
      StepIfReached(expected, i);
      RoundsAreBounded(Actions(i));
      AdvanceOk(p, undo[i].action);
      var status := expected.AdvanceState(undo[i].action);
      ok := status == Success;
      if ok {
        OneMoreRecorded(i, p);
      }
    }

    lemma StepIfReached(expected: BlackjackState, i: nat)
      requires Rep() && undoCount <= UNDO_CAPACITY && i < undoCount && Replayed(expected, i)
      ensures (exists actions :: Reached(actions)) ==> Advance(expected.View(), undo[i].action).Ok?
    {
      if actions :| Reached(actions) {
        EntryIfReached(expected, i, actions);
      }
    }

    lemma OneMoreRecorded(i: nat, p: Position)
      requires Rep() && i < undoCount <= UNDO_CAPACITY && After(Actions(i)) == Ok(p) && undo[..i] == Recorded(Actions(i))
      requires p.active < |p.hands| && undo[i] == EntryOf(p, undo[i].action)
      ensures After(Actions(i + 1)) == Advance(p, undo[i].action)
      ensures undo[..i + 1] == Recorded(Actions(i + 1))
    {
      assert Actions(i + 1)[..i] == Actions(i) && Actions(i + 1)[i] == undo[i].action;
      assert undo[..i + 1] == undo[..i] + [undo[i]];
    }

    method SamePosition(expected: BlackjackState) returns (same: bool)
      requires Rep() && undoCount <= UNDO_CAPACITY && Replayed(expected, undoCount) && handCount <= MAX_HANDS && UnusedAreEmpty()
      ensures same <==> View() == expected.View()
    {
      if phase != expected.phase || handCount != expected.handCount || active != expected.active || dealer != expected.dealer
         || up != expected.up {
        return false;
      }
      for i := 0 to MAX_HANDS
        invariant hands[..i] == expected.hands[..i]
      {
        if hands[i] != expected.hands[i] {
          assert hands[..handCount][i] != expected.hands[..handCount][i];
          return false;
        }
      }
      assert hands[..handCount] == hands[..MAX_HANDS][..handCount];
      return true;
    }

    lemma SameIfReached(expected: BlackjackState)
      requires Rep() && undoCount <= UNDO_CAPACITY && Replayed(expected, undoCount)
      ensures (exists actions :: Reached(actions)) ==> View() == expected.View()
    {
      if actions :| Reached(actions) {
        ActionsIfReached(actions, undoCount);
        assert actions[..undoCount] == actions;
      }
    }
  }
}
