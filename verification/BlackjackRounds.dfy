// Whole rounds of blackjack told by the cards alone: who drew what, when they had to stop, and what was paid.
module BlackjackRounds {
  import opened BlackjackRules

  // ---- The cards of a round ----

  // The cards dealt to the dealer, in order.
  function DealerCards(actions: seq<Action>): seq<Card>
    decreases |actions|
  {
    if actions == [] then [] else
      var front, a := actions[..|actions| - 1], actions[|actions| - 1];
      var p := After(front);
      if a.Deal? && p.Ok? && !DealsToPlayer(p.value.phase) then DealerCards(front) + [a.card] else DealerCards(front)
  }

  // The cards dealt to the player. In a round without splits they are those of the one hand.
  function PlayerCards(actions: seq<Action>): seq<Card>
    decreases |actions|
  {
    if actions == [] then [] else
      var front, a := actions[..|actions| - 1], actions[|actions| - 1];
      var p := After(front);
      if a.Deal? && p.Ok? && DealsToPlayer(p.value.phase) then PlayerCards(front) + [a.card] else PlayerCards(front)
  }

  // Whoever drew the later cards had less than the limit before each of them.
  ghost predicate DrewBelow(cards: seq<Card>, limit: nat) {
    forall k :: 2 <= k < |cards| ==> BestTotal(cards[..k]) < limit
  }

  lemma DrewOneMore(cards: seq<Card>, card: Card, limit: nat)
    requires DrewBelow(cards, limit) && (|cards| >= 2 ==> BestTotal(cards) < limit)
    ensures DrewBelow(cards + [card], limit)
  {
    forall k | 2 <= k < |cards + [card]| ensures BestTotal((cards + [card])[..k]) < limit {
      if k < |cards| {
        assert (cards + [card])[..k] == cards[..k];
      } else {
        assert (cards + [card])[..k] == cards;
      }
    }
  }

  lemma DealtOneMore(h: Hand, cards: seq<Card>, card: Card)
    ensures Dealt(h, cards + [card]) == AddCard(Dealt(h, cards), card)
  {
    assert (cards + [card])[..|cards|] == cards;
  }

  // ---- The dealer ----

  ghost predicate DealerIs(p: Position, cards: seq<Card>) {
    p.dealer == Dealt(EMPTY_HAND, cards) && DrewBelow(cards, 17)
  }

  lemma {:induction false} DealerOf(actions: seq<Action>)
    requires After(actions).Ok?
    ensures DealerIs(After(actions).value, DealerCards(actions))
    decreases |actions|
  {
    if actions != [] {
      var front, a := actions[..|actions| - 1], actions[|actions| - 1];
      DealerOf(front);
      RoundsAreBounded(front);
      DealerStep(After(front).value, a, DealerCards(front));
    }
  }

  lemma DealerStep(p: Position, a: Action, cards: seq<Card>)
    requires Inv(p) && DealerIs(p, cards) && Advance(p, a).Ok?
    ensures DealerIs(Advance(p, a).value, if a.Deal? && !DealsToPlayer(p.phase) then cards + [a.card] else cards)
  {
    if a.Deal? && !DealsToPlayer(p.phase) {
      HandIsBestTotal(cards, 0, false);
      DealtOneMore(EMPTY_HAND, cards, a.card);
      DrewOneMore(cards, a.card, 17);
    }
  }

  // ---- The player, in a round without splits ----

  predicate Unsplit(actions: seq<Action>) {
    Split !in actions
  }

  function Stake(actions: seq<Action>): nat {
    if DoubleDown in actions then 2 else 1
  }

  function Fresh(stake: nat): Hand {
    Hand(0, 0, false, false, stake, false)
  }

  lemma {:induction false} StakeAside(stake: nat, other: nat, cards: seq<Card>)
    ensures Dealt(Fresh(other), cards) == Dealt(Fresh(stake), cards).(stake := other)
    decreases |cards|
  {
    if cards != [] {
      StakeAside(stake, other, cards[..|cards| - 1]);
    }
  }

  ghost predicate PlayerIs(p: Position, cards: seq<Card>, doubled: bool) {
    && |p.hands| == 1 && p.active == 0 && p.hands[0] == Dealt(Fresh(if doubled then 2 else 1), cards)
    && DrewBelow(cards, 21)
    && (doubled ==> if p.phase == DealPlayerDouble then |cards| == 2 else |cards| == 3 && (p.phase == DealDealerHit || p.phase == Terminal))
  }

  lemma {:induction false} PlayerOf(actions: seq<Action>)
    requires After(actions).Ok? && Unsplit(actions)
    ensures PlayerIs(After(actions).value, PlayerCards(actions), DoubleDown in actions)
    decreases |actions|
  {
    if actions != [] {
      var front, a := actions[..|actions| - 1], actions[|actions| - 1];
      assert actions == front + [a];
      PlayerOf(front);
      RoundsAreBounded(front);
      PlayerStep(After(front).value, a, PlayerCards(front), DoubleDown in front);
    }
  }

  lemma PlayerStep(p: Position, a: Action, cards: seq<Card>, doubled: bool)
    requires Inv(p) && PlayerIs(p, cards, doubled) && Advance(p, a).Ok? && !a.Split?
    ensures PlayerIs(Advance(p, a).value, if a.Deal? && DealsToPlayer(p.phase) then cards + [a.card] else cards,
                     doubled || a.DoubleDown?)
  {
    if a.Deal? && DealsToPlayer(p.phase) {
      PlayerDraws(p, a, cards, doubled);
    } else if a.Deal? {
      DealerDraws(p, a, cards, doubled);
    } else {
      PlayerDecides(p, a, cards, doubled);
    }
  }

  // What a card for the only hand does.
  lemma CardLeads(p: Position, a: Action)
    requires |p.hands| == 1 && p.active == 0 && a.Deal? && DealsToPlayer(p.phase) && Advance(p, a).Ok?
    ensures var q := Advance(p, a).value;
      && q.hands == [AddCard(p.hands[0], a.card)] && q.active == 0
      && (p.phase == DealPlayerDouble ==> q.phase == DealDealerHit || q.phase == Terminal)
  {
  }

  lemma DrawsBelow(p: Position, cards: seq<Card>, stake: nat)
    requires Inv(p) && |p.hands| == 1 && p.active == 0 && DealsToPlayer(p.phase) && p.hands[0] == Dealt(Fresh(stake), cards)
    ensures |cards| >= 2 ==> BestTotal(cards) < 21
  {
    HandIsBestTotal(cards, stake, false);
  }

  lemma PlayerDraws(p: Position, a: Action, cards: seq<Card>, doubled: bool)
    requires Inv(p) && PlayerIs(p, cards, doubled) && Advance(p, a).Ok? && a.Deal? && DealsToPlayer(p.phase)
    ensures PlayerIs(Advance(p, a).value, cards + [a.card], doubled)
  {
    CardLeads(p, a);
    DrawsBelow(p, cards, if doubled then 2 else 1);
    DealtOneMore(Fresh(if doubled then 2 else 1), cards, a.card);
    DrewOneMore(cards, a.card, 21);
  }

  lemma DealerDraws(p: Position, a: Action, cards: seq<Card>, doubled: bool)
    requires Inv(p) && PlayerIs(p, cards, doubled) && Advance(p, a).Ok? && a.Deal? && !DealsToPlayer(p.phase)
    ensures PlayerIs(Advance(p, a).value, cards, doubled)
  {
  }

  lemma PlayerDecides(p: Position, a: Action, cards: seq<Card>, doubled: bool)
    requires Inv(p) && PlayerIs(p, cards, doubled) && Advance(p, a).Ok? && !a.Deal? && !a.Split?
    ensures PlayerIs(Advance(p, a).value, cards, doubled || a.DoubleDown?)
  {
    HandIsBestTotal(cards, 1, false);
    if a.DoubleDown? {
      StakeAside(1, 2, cards);
    }
  }

  // ---- What a round pays ----

  predicate Blackjack(cards: seq<Card>) {
    |cards| == 2 && BestTotal(cards) == 21
  }

  // What two sides with these cards settle at.
  function Settled(mine: seq<Card>, house: seq<Card>, stake: real): real {
    if Blackjack(mine) && Blackjack(house) then 0.0
    else if Blackjack(mine) then 1.5 * stake
    else if Blackjack(house) || BestTotal(mine) > 21 then -stake
    else if BestTotal(house) > 21 || BestTotal(mine) > BestTotal(house) then stake
    else if BestTotal(mine) < BestTotal(house) then -stake
    else 0.0
  }

  // A finished round without splits, by its cards. The player drew only below twenty-one, and exactly once after doubling.
  // If nobody had a natural and the player did not bust, the dealer drew below seventeen and stands on seventeen or more.
  // The round pays what the two sides' best totals say.
  lemma RoundByCards(actions: seq<Action>)
    requires After(actions).Ok? && After(actions).value.phase == Terminal && Unsplit(actions)
    ensures var mine, house := PlayerCards(actions), DealerCards(actions);
      && |mine| >= 2 && |house| >= 2 && DrewBelow(mine, 21) && DrewBelow(house, 17)
      && (DoubleDown in actions ==> |mine| == 3)
      && (Blackjack(mine) || Blackjack(house) ==> |mine| == |house| == 2)
      && (!Blackjack(mine) && !Blackjack(house) && BestTotal(mine) <= 21 ==> BestTotal(house) >= 17)
      && Utility(After(actions).value) == Settled(mine, house, Stake(actions) as real)
  {
    var p, mine, house := After(actions).value, PlayerCards(actions), DealerCards(actions);
    RoundsAreBounded(actions);
    PlayerOf(actions);
    DealerOf(actions);
    SidesAre(p, mine, house, Stake(actions), DoubleDown in actions);
    OneHandPays(p);
  }

  // The hands of a finished round have these totals.
  lemma SidesAre(p: Position, mine: seq<Card>, house: seq<Card>, stake: nat, doubled: bool)
    requires Inv(p) && p.phase == Terminal && PlayerIs(p, mine, doubled) && DealerIs(p, house) && stake == if doubled then 2 else 1
    ensures |mine| >= 2 && |house| >= 2
    ensures Blackjack(mine) || Blackjack(house) ==> |mine| == |house| == 2
    ensures !Blackjack(mine) && !Blackjack(house) && BestTotal(mine) <= 21 ==> BestTotal(house) >= 17
    ensures HandUtility(p.hands[0], p.dealer) == Settled(mine, house, stake as real)
  {
    HandIsBestTotal(mine, stake, false);
    HandIsBestTotal(house, 0, false);
  }

  lemma OneHandPays(p: Position)
    requires |p.hands| == 1
    ensures Utility(p) == HandUtility(p.hands[0], p.dealer)
  {
    assert p.hands[..0] == [];
    assert UtilityOf(p.hands, p.dealer) == UtilityOf(p.hands[..0], p.dealer) + HandUtility(p.hands[0], p.dealer);
  }

  // ---- Splits, by the cards ----

  function Started(fromSplit: bool): Hand {
    Hand(0, 0, false, false, 1, fromSplit)
  }

  lemma TwoCards(h: Hand, c: Card, d: Card)
    ensures Dealt(h, [c, d]) == AddCard(AddCard(h, c), d) && Dealt(h, [c]) == AddCard(h, c)
  {
    assert [c, d][..1] == [c] && [c][..0] == [];
    assert Dealt(h, [c]) == AddCard(Dealt(h, [c][..0]), c);
  }

  // On its first two cards a hand can be doubled, and it can be split when they are of one rank, there are fewer than four
  // hands, and they are not the aces of an earlier split. Splitting leaves two hands with one of the cards each in its
  // place, next to be given a second card.
  lemma SplitByCards(p: Position, c: Card, d: Card, fromSplit: bool)
    requires p.phase == PlayerTurn && p.active < |p.hands| && p.hands[p.active] == Dealt(Started(fromSplit), [c, d])
    ensures Legal(p, DoubleDown)
    ensures Legal(p, Split) <==> c == d && |p.hands| < 4 && !(fromSplit && c == 1)
    ensures Legal(p, Split) ==>
      && Advance(p, Split).Ok?
      && var q, half := Advance(p, Split).value, Dealt(Started(true), [c]);
         && q.phase == DealSplitHand && q.active == p.active && q.dealer == p.dealer && q.up == p.up
         && q.hands == p.hands[..p.active] + [half, half] + p.hands[p.active + 1..]
  {
    TwoCards(Started(fromSplit), c, d);
    TwoCards(Started(true), c, d);
  }

  // A split ace gets one card and no more; any other split card is played on, unless the two make twenty-one.
  lemma SecondCardOfSplit(p: Position, c: Card, d: Card)
    requires p.phase == DealSplitHand && p.active < |p.hands| && p.hands[p.active] == Dealt(Started(true), [c])
    ensures Advance(p, Deal(d)).Ok?
    ensures var q := Advance(p, Deal(d)).value;
      && p.active < |q.hands| && q.hands == p.hands[p.active := Dealt(Started(true), [c, d])]
      && (q.phase == PlayerTurn && q.active == p.active <==> c != 1 && BestTotal([c, d]) != 21)
  {
    TwoCards(Started(true), c, d);
    HandIsBestTotal([c, d], 1, true);
  }
}
