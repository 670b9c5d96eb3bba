// The full traversal of src/traversal.c: every history of the game is visited once, regrets and
// strategies are accumulated in an arena, one slice per information set.
module Traversal {
  import opened Sums
  import opened BestResponse
  import opened GameTree
  import opened Layout
  import opened Construction
  import RegretMatching
  import ProbeTable
  import IndexTable
  import Play

  const MAX_ACTIONS: nat := 64

  datatype Which = Regret | Strategy

  // ---- What a traversal should accumulate ----

  // Reach of everybody but r, chance included; and r's own.
  function External(v: Visit, r: Player): real {
    if r.Player0? then v.reach0 else v.reach1
  }

  function OwnReach(v: Visit, r: Player): real {
    if r.Player0? then v.own0 else v.own1
  }

  predicate At(v: Visit, r: Player, key: Key, a: nat) {
    Moves(v.tree, r) && v.tree.key == key && a < |v.tree.branches|
  }

  // How much better than the current strategy action a is at v.
  function Gain(store: Store, t: Tree, r: Player, a: nat): real
    requires a < |Branches(t)|
  {
    ProfileUtility(store, t.branches[a].next, r) - ProfileUtility(store, t, r)
  }

  // What one history adds to action a of an information set of r. The regrets in store are those
  // from before the traversal; Odds reads the current strategy off them.
  function Share(store: Store, v: Visit, r: Player, which: Which, weight: real, key: Key, a: nat): real {
    if !At(v, r, key, a) then 0.0
    else if which.Regret? then Times(External(v, r), Gain(store, v.tree, r, a))
    else Times(Times(OwnReach(v, r), Odds(store, v.tree, a)), weight)
  }

  // The sum over histories.
  function Shares(store: Store, vs: seq<Visit>, r: Player, which: Which, weight: real, key: Key, a: nat): real
    decreases |vs|
  {
    if vs == [] then 0.0 else
      Shares(store, vs[..|vs| - 1], r, which, weight, key, a) + Share(store, vs[|vs| - 1], r, which, weight, key, a)
  }

  lemma {:induction false} SharesOfSum(store: Store, vs: seq<Visit>, ws: seq<Visit>, r: Player, which: Which, weight: real, key: Key, a: nat)
    ensures Shares(store, vs + ws, r, which, weight, key, a)
         == Shares(store, vs, r, which, weight, key, a) + Shares(store, ws, r, which, weight, key, a)
    decreases |ws|
  {
    if ws == [] {
      assert vs + ws == vs;
    } else {
      assert (vs + ws)[..|vs + ws| - 1] == vs + ws[..|ws| - 1];
      SharesOfSum(store, vs, ws[..|ws| - 1], r, which, weight, key, a);
    }
  }

  lemma SharesOfVisits(store: Store, v: Visit, r: Player, which: Which, weight: real, key: Key, a: nat)
    ensures Shares(store, Visits(store, v), r, which, weight, key, a)
         == Share(store, v, r, which, weight, key, a)
            + Shares(store, VisitsBefore(store, v, |Branches(v.tree)|), r, which, weight, key, a)
  {
    SharesOfSum(store, [v], VisitsBefore(store, v, |Branches(v.tree)|), r, which, weight, key, a);
    assert [v][..0] == [];
    assert Shares(store, [v], r, which, weight, key, a) == Shares(store, [], r, which, weight, key, a) + Share(store, v, r, which, weight, key, a);
  }

  // ---- New nodes do not change the strategy ----

  // Nodes created during the traversal hold zeros, and play uniformly as absent ones do.
  ghost predicate Kept(store: Store, store': Store) {
    && (forall k :: k in store ==> k in store' && store'[k] == store[k])
    && (forall k :: k in store' && k !in store ==> store'[k] == Zeros(|store'[k]|))
  }

  lemma PolicyKept(store: Store, store': Store, key: Key, n: nat)
    requires Kept(store, store') && n > 0
    ensures Policy(store', key, n) == Policy(store, key, n)
  {
  }

  lemma KeptTwice(store: Store, store': Store, store'': Store)
    requires Kept(store, store') && Kept(store', store'')
    ensures Kept(store, store'')
  {
  }

  // ---- Which nodes a traversal creates, and where it stops ----

  datatype Touched = Touched(status: Status, store: Store)

  // What arriving at a position does to the store.
  function Enter(store: Store, t: Tree): Touched
    requires !t.Leaf?
  {
    if t.Nature? then Touched(if ChanceIsOk(t.branches) then Success else InvalidArgument, store)
    else EnterKey(store, t.key, |t.branches|)
  }

  function EnterKey(store: Store, key: Key, n: nat): Touched {
    if key !in store then Touched(Success, store[key := Zeros(n)])
    else Touched(if |store[key]| == n then Success else InvalidArgument, store)
  }

  predicate ChanceIsOk(bs: seq<Branch>) {
    (forall a: nat :: a < |bs| ==> bs[a].probability >= 0.0) && SumIsOne(Sum(Probabilities(bs), 0, |bs|))
  }

  function Touch(store: Store, t: Tree, maxActions: nat): Touched
    decreases t, |Branches(t)| + 1
  {
    if t.Leaf? then Touched(Success, store)
    else if |t.branches| == 0 || |t.branches| > maxActions then Touched(InvalidArgument, store)
    else
      var here := Enter(store, t);
      if here.status != Success then here else TouchBefore(here.store, t, |t.branches|, maxActions)
  }

  function TouchBefore(store: Store, t: Tree, n: nat, maxActions: nat): Touched
    requires n <= |Branches(t)|
    decreases t, n
  {
    if n == 0 then Touched(Success, store) else
      var before := TouchBefore(store, t, n - 1, maxActions);
      if before.status != Success then before else Touch(before.store, t.branches[n - 1].next, maxActions)
  }

  lemma {:induction false} TouchFailed(store: Store, t: Tree, a: nat, n: nat, maxActions: nat)
    requires a <= n <= |Branches(t)| && TouchBefore(store, t, a, maxActions).status != Success
    ensures TouchBefore(store, t, n, maxActions) == TouchBefore(store, t, a, maxActions)
    decreases n
  {
    if a < n {
      TouchFailed(store, t, a, n - 1, maxActions);
    }
  }

  lemma EnterKeeps(store: Store, t: Tree)
    requires !t.Leaf?
    ensures Kept(store, Enter(store, t).store)
  {
  }

  lemma {:induction false} TouchKeeps(store: Store, t: Tree, maxActions: nat)
    ensures Kept(store, Touch(store, t, maxActions).store)
    decreases t, |Branches(t)| + 1
  {
    if !t.Leaf? {
      EnterKeeps(store, t);
      var here := Enter(store, t);
      TouchBeforeKeeps(here.store, t, |t.branches|, maxActions);
      KeptTwice(store, here.store, TouchBefore(here.store, t, |t.branches|, maxActions).store);
    }
  }

  lemma {:induction false} TouchBeforeKeeps(store: Store, t: Tree, n: nat, maxActions: nat)
    requires n <= |Branches(t)|
    ensures Kept(store, TouchBefore(store, t, n, maxActions).store)
    decreases t, n
  {
    if n > 0 {
      TouchBeforeKeeps(store, t, n - 1, maxActions);
      var before := TouchBefore(store, t, n - 1, maxActions);
      if before.status == Success {
        TouchKeeps(before.store, t.branches[n - 1].next, maxActions);
        KeptTwice(store, before.store, Touch(before.store, t.branches[n - 1].next, maxActions).store);
      }
    }
  }

  // The information sets at which r moves.
  function KeysAt(vs: seq<Visit>, r: Player): set<Key> {
    set i: nat | i < |vs| && Moves(vs[i].tree, r) :: vs[i].tree.key
  }

  lemma KeysOfSum(vs: seq<Visit>, ws: seq<Visit>, r: Player)
    ensures KeysAt(vs + ws, r) == KeysAt(vs, r) + KeysAt(ws, r)
  {
    forall key | key in KeysAt(ws, r) ensures key in KeysAt(vs + ws, r) {
      var i: nat :| i < |ws| && Moves(ws[i].tree, r) && ws[i].tree.key == key;
      assert (vs + ws)[|vs| + i] == ws[i];
    }
    forall key | key in KeysAt(vs, r) ensures key in KeysAt(vs + ws, r) {
      var i: nat :| i < |vs| && Moves(vs[i].tree, r) && vs[i].tree.key == key;
      assert (vs + ws)[i] == vs[i];
    }
  }

  lemma KeysOfVisits(store: Store, v: Visit, r: Player)
    ensures KeysAt(Visits(store, v), r)
         == KeysAt(VisitsBefore(store, v, |Branches(v.tree)|), r) + if Moves(v.tree, r) then {v.tree.key} else {}
  {
    KeysOfSum([v], VisitsBefore(store, v, |Branches(v.tree)|), r);
    assert [v][0] == v;
    assert KeysAt([v], r) == if Moves(v.tree, r) then {v.tree.key} else {};
  }

  // ---- The game from one seat ----

  // Whoever sits at the seat is Player0, everybody else Player1: what the others and chance do together is what
  // weighs a regret. A turn of nobody in the game is a position without branches, at which a traversal stops.
  function SeenFrom(t: Play.Tree, seat: nat, players: nat): Tree
    decreases t, 1
  {
    match t
    case End(utility) => Leaf(utility(seat), 0.0)
    case Chance(_) => Nature(BranchesSeen(t, seat, players))
    case Move(player, key, _) =>
      if !Play.PlayerIsValid(players, player) then Nature([])
      else Turn(if player == seat then Player0 else Player1, key, BranchesSeen(t, seat, players))
  }

  function BranchesSeen(t: Play.Tree, seat: nat, players: nat): (bs: seq<Branch>)
    requires !t.End?
    ensures |bs| == |t.branches|
    decreases t, 0
  {
    seq(|t.branches|, (a: nat) requires a < |t.branches| =>
      Branch(t.branches[a].action, t.branches[a].probability, SeenFrom(t.branches[a].next, seat, players)))
  }

  lemma BranchSeen(t: Play.Tree, seat: nat, players: nat, a: nat)
    requires !t.End? && a < |t.branches| && (t.Move? ==> Play.PlayerIsValid(players, t.player))
    ensures |Branches(SeenFrom(t, seat, players))| == |t.branches|
    ensures Branches(SeenFrom(t, seat, players))[a]
         == Branch(t.branches[a].action, t.branches[a].probability, SeenFrom(t.branches[a].next, seat, players))
  {
  }

  // t is what can follow s, seen from the seat.
  ghost predicate Shows<S>(rules: Play.Rules<S>, seat: nat, s: S, t: Tree)
    decreases t, 1
  {
    match t
    case Leaf(utility, _) => rules.terminal(s) && utility == rules.utility(s, seat)
    case Nature(branches) =>
      && !rules.terminal(s)
      && (match rules.actor(s)
          case ByChance => ShowsBranches(rules, seat, s, t)
          case ByPlayer(player) => branches == [] && !Play.PlayerIsValid(rules.players, player))
    case Turn(player, key, branches) =>
      && !rules.terminal(s) && rules.actor(s).ByPlayer? && Play.PlayerIsValid(rules.players, rules.actor(s).player)
      && (player.Player0? <==> rules.actor(s).player == seat) && key == rules.key(s) && ShowsBranches(rules, seat, s, t)
  }

  ghost predicate ShowsBranches<S>(rules: Play.Rules<S>, seat: nat, s: S, t: Tree)
    requires !t.Leaf?
    decreases t, 0
  {
    && |rules.actions(s)| == |t.branches|
    && forall a: nat :: a < |t.branches| ==>
      var b := t.branches[a];
      && b.action == rules.actions(s)[a] && (t.Nature? ==> b.probability == rules.odds(s, b.action))
      && rules.undo(rules.apply(s, b.action)) == s && Shows(rules, seat, rules.apply(s, b.action), b.next)
  }

  lemma {:induction false} UnfoldsShows<S>(rules: Play.Rules<S>, seat: nat, s: S, t: Play.Tree)
    requires Play.Unfolds(rules, s, t)
    ensures Shows(rules, seat, s, SeenFrom(t, seat, rules.players))
    decreases t
  {
    if !t.End? && !(t.Move? && !Play.PlayerIsValid(rules.players, t.player)) {
      forall a: nat | a < |t.branches|
        ensures Play.FollowsAt(rules, s, t, a)
        ensures Shows(rules, seat, rules.apply(s, t.branches[a].action), SeenFrom(t.branches[a].next, seat, rules.players))
      {
        assert Play.FollowsAt(rules, s, t, a);
        UnfoldsShows(rules, seat, rules.apply(s, t.branches[a].action), t.branches[a].next);
      }
    }
  }

  // ---- The arena ----

  datatype Entry = Entry(key: Key, count: nat, offset: nat)

  ghost predicate EntryOk(entries: seq<Entry>, used: nat, i: nat)
    requires i < |entries|
  {
    entries[i].offset + 2 * entries[i].count <= used
  }

  // Slices lie one after another.
  ghost predicate InSequence(entries: seq<Entry>, i: nat, j: nat)
    requires i < |entries| && j < |entries|
  {
    i < j ==> entries[i].offset + 2 * entries[i].count <= entries[j].offset && entries[i].key != entries[j].key
  }

  ghost predicate TableOk(entries: seq<Entry>, table: map<Key, nat>) {
    && (forall k :: k in table ==> table[k] < |entries| && entries[table[k]].key == k)
    && (forall i: nat :: i < |entries| ==> entries[i].key in table && table[entries[i].key] == i)
  }

  ghost predicate ArenaOk(entries: seq<Entry>, table: map<Key, nat>, used: nat) {
    && TableOk(entries, table)
    && (forall i: nat :: i < |entries| ==> EntryOk(entries, used, i))
    && (forall i: nat, j: nat :: i < |entries| && j < |entries| ==> InSequence(entries, i, j))
  }

  function KeysOf(entries: seq<Entry>): (keys: seq<Key>)
    ensures |keys| == |entries|
  {
    seq(|entries|, (i: nat) requires i < |entries| => entries[i].key)
  }

  // The table numbers the entries in their order.
  lemma NumbersAreTable(entries: seq<Entry>, table: map<Key, nat>)
    requires TableOk(entries, table)
    ensures IndexTable.AllDiffer(KeysOf(entries))
    ensures table == IndexTable.Numbered(KeysOf(entries), |entries|) && |table| == |entries|
  {
    var keys := KeysOf(entries);
    forall i: nat, j: nat | i < j < |keys| ensures keys[i] != keys[j] {
      assert table[entries[i].key] == i && table[entries[j].key] == j;
    }
    IndexTable.NumberedIs(keys, |keys|);
    SameNumbers(entries, table);
    SameMaps(table, IndexTable.Numbered(keys, |keys|));
  }

  lemma SameMaps(m: map<Key, nat>, n: map<Key, nat>)
    requires forall k :: k in m <==> k in n
    requires forall k :: k in m ==> m[k] == n[k]
    ensures m == n
  {
    assert forall k :: k in m.Keys <==> k in n.Keys;
    assert m.Keys == n.Keys;
    forall k | k in m ensures m[k] == n[k] {
    }
  }

  lemma SameNumbers(entries: seq<Entry>, table: map<Key, nat>)
    requires TableOk(entries, table) && IndexTable.AllDiffer(KeysOf(entries))
    ensures forall k :: k in table <==> k in IndexTable.Numbered(KeysOf(entries), |entries|)
    ensures forall k :: k in table ==> table[k] == IndexTable.Numbered(KeysOf(entries), |entries|)[k]
  {
    var keys := KeysOf(entries);
    IndexTable.NumberedIs(keys, |keys|);
    forall k: Key
      ensures k in table <==> k in IndexTable.Numbered(keys, |keys|)
      ensures k in table ==> table[k] == IndexTable.Numbered(keys, |keys|)[k]
    {
      if k in table {
        assert keys[table[k]] == k;
      }
    }
  }

  // The pending delta of action a of an information set.
  function Delta(entries: seq<Entry>, table: map<Key, nat>, arena: seq<real>, which: Which, key: Key, a: nat): real {
    if key !in table || table[key] >= |entries| || a >= entries[table[key]].count then 0.0
    else
      var e := entries[table[key]];
      var p := e.offset + (if which.Regret? then a else e.count + a);
      if p < |arena| then arena[p] else 0.0
  }

  // A new slice of zeros behind the others changes no delta.
  lemma NewSlice(entries: seq<Entry>, table: map<Key, nat>, used: nat, arena: seq<real>, arena': seq<real>, key: Key, count: nat)
    requires ArenaOk(entries, table, used) && key !in table && used <= |arena| && used + 2 * count <= |arena'|
    requires forall p: nat :: p < used ==> arena'[p] == arena[p]
    requires forall p: nat :: used <= p < used + 2 * count ==> arena'[p] == 0.0
    ensures var entries', table' := entries + [Entry(key, count, used)], table[key := |entries|];
      && ArenaOk(entries', table', used + 2 * count)
      && forall which, k, a: nat :: Delta(entries', table', arena', which, k, a) == Delta(entries, table, arena, which, k, a)
  {
    var entries', table' := entries + [Entry(key, count, used)], table[key := |entries|];
    var used' := used + 2 * count;
    forall i: nat | i < |entries'| ensures EntryOk(entries', used', i) {
      if i < |entries| {
        assert EntryOk(entries, used, i);
      }
    }
    forall i: nat, j: nat | i < |entries'| && j < |entries'| ensures InSequence(entries', i, j) {
      if i < |entries| {
        assert EntryOk(entries, used, i);
        if j < |entries| {
          assert InSequence(entries, i, j);
        }
      }
    }
    forall which, k, a: nat ensures Delta(entries', table', arena', which, k, a) == Delta(entries, table, arena, which, k, a) {
      if k in table {
        assert EntryOk(entries, used, table[k]);
      }
    }
  }

  // What position p of the arena gains when the first n actions of a slice are added to.
  function Increment(e: Entry, regrets: seq<real>, strategies: seq<real>, n: nat, p: nat): real
    requires n <= |regrets| && n <= |strategies| && n <= e.count
  {
    if e.offset <= p < e.offset + n then regrets[p - e.offset]
    else if e.offset + e.count <= p < e.offset + e.count + n then strategies[p - e.offset - e.count]
    else 0.0
  }

  ghost predicate Added(e: Entry, arena: seq<real>, arena': seq<real>, regrets: seq<real>, strategies: seq<real>, n: nat)
    requires n <= |regrets| && n <= |strategies| && n <= e.count
  {
    |arena'| == |arena| && forall p: nat :: p < |arena| ==> arena'[p] == arena[p] + Increment(e, regrets, strategies, n, p)
  }

  // Only the deltas of that information set change, each by its own increment.
  lemma AddedDelta(entries: seq<Entry>, table: map<Key, nat>, used: nat, i: nat, arena: seq<real>, arena': seq<real>,
                   regrets: seq<real>, strategies: seq<real>, which: Which, key: Key, a: nat)
    requires ArenaOk(entries, table, used) && used <= |arena| && i < |entries| && |regrets| == |strategies| == entries[i].count
    requires Added(entries[i], arena, arena', regrets, strategies, entries[i].count)
    ensures Delta(entries, table, arena', which, key, a) == Delta(entries, table, arena, which, key, a)
      + if key == entries[i].key && a < entries[i].count then (if which.Regret? then regrets[a] else strategies[a]) else 0.0
  {
    if key in table {
      var j := table[key];
      assert EntryOk(entries, used, j) && InSequence(entries, i, j) && InSequence(entries, j, i);
    }
  }

  // All there is to the pending deltas.
  datatype Slices = Slices(entries: seq<Entry>, table: map<Key, nat>, arena: seq<real>)

  function DeltaOf(s: Slices, which: Which, key: Key, a: nat): real {
    Delta(s.entries, s.table, s.arena, which, key, a)
  }

  // From s to s', every pending delta has grown by the shares of the histories vs, and their information
  // sets have slices.
  ghost predicate Grew(s: Slices, s': Slices, store: Store, vs: seq<Visit>, r: Player, weight: real) {
    && SharesGrew(s, s', store, vs, r, weight)
    && s'.table.Keys == s.table.Keys + KeysAt(vs, r)
  }

  ghost predicate SharesGrew(s: Slices, s': Slices, store: Store, vs: seq<Visit>, r: Player, weight: real) {
    forall which, key: Key, a: nat :: DeltaGrew(s, s', store, vs, r, weight, which, key, a)
  }

  ghost predicate DeltaGrew(s: Slices, s': Slices, store: Store, vs: seq<Visit>, r: Player, weight: real, which: Which, key: Key, a: nat) {
    DeltaOf(s', which, key, a) == DeltaOf(s, which, key, a) + Shares(store, vs, r, which, weight, key, a)
  }

  lemma GrewTwice(s: Slices, s': Slices, s'': Slices, store: Store, vs: seq<Visit>, ws: seq<Visit>, r: Player, weight: real)
    requires Grew(s, s', store, vs, r, weight) && Grew(s', s'', store, ws, r, weight)
    ensures Grew(s, s'', store, vs + ws, r, weight)
  {
    forall which, key: Key, a: nat ensures DeltaGrew(s, s'', store, vs + ws, r, weight, which, key, a) {
      assert DeltaGrew(s, s', store, vs, r, weight, which, key, a) && DeltaGrew(s', s'', store, ws, r, weight, which, key, a);
      SharesOfSum(store, vs, ws, r, which, weight, key, a);
    }
    KeysOfSum(vs, ws, r);
  }

  lemma GrewBranch(s: Slices, s': Slices, s'': Slices, store: Store, v: Visit, a: nat, r: Player, weight: real)
    requires a < |Branches(v.tree)|
    requires Grew(s, s', store, VisitsBefore(store, v, a), r, weight)
    requires Grew(s', s'', store, Visits(store, Child(store, v, a)), r, weight)
    ensures Grew(s, s'', store, VisitsBefore(store, v, a + 1), r, weight)
  {
    GrewTwice(s, s', s'', store, VisitsBefore(store, v, a), Visits(store, Child(store, v, a)), r, weight);
  }

  lemma GrewNothing(s: Slices, s': Slices, store: Store, r: Player, weight: real)
    requires s' == s
    ensures Grew(s, s', store, [], r, weight)
  {
  }

  // A new slice adds nothing yet.
  lemma GrewSlice(s: Slices, s': Slices, s'': Slices, store: Store, vs: seq<Visit>, r: Player, weight: real)
    requires SharesGrew(s, s', store, vs, r, weight)
    requires forall which, key: Key, a: nat :: DeltaOf(s'', which, key, a) == DeltaOf(s', which, key, a)
    ensures SharesGrew(s, s'', store, vs, r, weight)
  {
    forall which, key: Key, a: nat ensures DeltaGrew(s, s'', store, vs, r, weight, which, key, a) {
      assert DeltaGrew(s, s', store, vs, r, weight, which, key, a);
      assert DeltaOf(s'', which, key, a) == DeltaOf(s', which, key, a);
    }
  }

  // A history of which r is not the one to move has no share, and its subtree all the others.
  lemma GrewBelow(s: Slices, s': Slices, store: Store, v: Visit, r: Player, weight: real)
    requires !Moves(v.tree, r) && Grew(s, s', store, VisitsBefore(store, v, |Branches(v.tree)|), r, weight)
    ensures Grew(s, s', store, Visits(store, v), r, weight)
  {
    var below := VisitsBefore(store, v, |Branches(v.tree)|);
    forall which, key: Key, a: nat ensures DeltaGrew(s, s', store, Visits(store, v), r, weight, which, key, a) {
      assert DeltaGrew(s, s', store, below, r, weight, which, key, a);
      SharesOfVisits(store, v, r, which, weight, key, a);
    }
    KeysOfVisits(store, v, r);
  }

  // A history of r adds its own increments after those of its subtree.
  lemma GrewHere(s: Slices, s': Slices, s'': Slices, used: nat, i: nat, store: Store, v: Visit, r: Player, weight: real,
                 x: real, own: real, utilities: seq<real>, utility: real, probabilities: seq<real>)
    requires Moves(v.tree, r) && SharesGrew(s, s', store, VisitsBefore(store, v, |v.tree.branches|), r, weight)
    requires s'.table.Keys == s.table.Keys + KeysAt(VisitsBefore(store, v, |v.tree.branches|), r) + {v.tree.key}
    requires ArenaOk(s'.entries, s'.table, used) && used <= |s'.arena| && i < |s'.entries|
    requires s'' == s'.(arena := s''.arena) && s'.entries[i].key == v.tree.key
    requires |utilities| == |probabilities| == s'.entries[i].count == |v.tree.branches|
    requires x == External(v, r) && own == OwnReach(v, r) && utility == ProfileUtility(store, v.tree, r)
    requires forall a: nat :: a < |utilities| ==>
      utilities[a] == ProfileUtility(store, v.tree.branches[a].next, r) && probabilities[a] == Odds(store, v.tree, a)
    requires Added(s'.entries[i], s'.arena, s''.arena, RegretChanges(x, utilities, utility), StrategyChanges(own, probabilities, weight), s'.entries[i].count)
    ensures Grew(s, s'', store, Visits(store, v), r, weight)
  {
    var below := VisitsBefore(store, v, |v.tree.branches|);
    forall which, key: Key, a: nat ensures DeltaGrew(s, s'', store, Visits(store, v), r, weight, which, key, a) {
      assert DeltaGrew(s, s', store, below, r, weight, which, key, a);
      SharesOfVisits(store, v, r, which, weight, key, a);
      AddedDelta(s'.entries, s'.table, used, i, s'.arena, s''.arena, RegretChanges(x, utilities, utility),
                 StrategyChanges(own, probabilities, weight), which, key, a);
      ChangeIsShare(store, v, r, weight, own, x, utilities, utility, probabilities, which, key, a);
    }
    KeysOfVisits(store, v, r);
  }

  lemma ChangeIsShare(store: Store, v: Visit, r: Player, weight: real, own: real, x: real, utilities: seq<real>, utility: real,
                      probabilities: seq<real>, which: Which, key: Key, a: nat)
    requires Moves(v.tree, r) && |utilities| == |probabilities| == |v.tree.branches|
    requires x == External(v, r) && own == OwnReach(v, r) && utility == ProfileUtility(store, v.tree, r)
    requires forall a: nat :: a < |utilities| ==>
      utilities[a] == ProfileUtility(store, v.tree.branches[a].next, r) && probabilities[a] == Odds(store, v.tree, a)
    ensures Share(store, v, r, which, weight, key, a)
         == if key == v.tree.key && a < |utilities| then
              (if which.Regret? then RegretChanges(x, utilities, utility)[a] else StrategyChanges(own, probabilities, weight)[a])
            else 0.0
  {
  }

  function DeltaSeq(s: Slices, which: Which, key: Key, n: nat): (d: seq<real>)
    ensures |d| == n
  {
    seq(n, (a: nat) requires a < n => DeltaOf(s, which, key, a))
  }

  // A node's increments, by action.
  function RegretChanges(x: real, utilities: seq<real>, utility: real): (d: seq<real>)
    ensures |d| == |utilities|
  {
    seq(|utilities|, (a: nat) requires a < |utilities| => Times(x, utilities[a] - utility))
  }

  function StrategyChanges(own: real, probabilities: seq<real>, weight: real): (d: seq<real>)
    ensures |d| == |probabilities|
  {
    seq(|probabilities|, (a: nat) requires a < |probabilities| => Times(Times(own, probabilities[a]), weight))
  }

  // How far a traversal has come.
  datatype Progress = Progress(store: Store, slices: Slices, visits: nat)

  // The first a branches have been visited.
  ghost predicate Halfway(start: Progress, here: Progress, t: Tree, r: Player, v: Visit, store0: Store, weight: real,
                          maxActions: nat, a: nat, utilities: seq<real>, utility: real)
    requires v.tree == t && a <= |Branches(t)|
  {
    && Kept(store0, here.store) && Touched(Success, here.store) == TouchBefore(start.store, t, a, maxActions)
    && Earned(t, r, store0, a, utilities, utility) && here.visits == start.visits + Before(t, a)
    && Grew(start.slices, here.slices, store0, VisitsBefore(store0, v, a), r, weight)
  }

  ghost predicate Earned(t: Tree, r: Player, store0: Store, a: nat, utilities: seq<real>, utility: real)
    requires a <= |Branches(t)|
  {
    && |utilities| == a && utility == ProfileBefore(store0, t, r, a)
    && (forall b: nat :: b < a ==> utilities[b] == ProfileUtility(store0, t.branches[b].next, r))
  }

  lemma EarnedMore(t: Tree, r: Player, store0: Store, a: nat, utilities: seq<real>, utility: real, x: real, after: real)
    requires a < |Branches(t)| && Earned(t, r, store0, a, utilities, utility)
    requires x == ProfileUtility(store0, t.branches[a].next, r) && after == ProfileBefore(store0, t, r, a + 1)
    ensures Earned(t, r, store0, a + 1, utilities + [x], after)
  {
  }

  lemma NoBranchYet(start: Progress, t: Tree, r: Player, v: Visit, store0: Store, weight: real, maxActions: nat)
    requires v.tree == t && Kept(store0, start.store)
    ensures Halfway(start, start, t, r, v, store0, weight, maxActions, 0, [], 0.0)
  {
    GrewNothing(start.slices, start.slices, store0, r, weight);
  }

  lemma OneBranchMore(start: Progress, here: Progress, there: Progress, t: Tree, r: Player, v: Visit, store0: Store, weight: real,
                      maxActions: nat, a: nat, utilities: seq<real>, utility: real, x: real, after: real)
    requires v.tree == t && a < |Branches(t)|
    requires Halfway(start, here, t, r, v, store0, weight, maxActions, a, utilities, utility)
    requires Touched(Success, there.store) == Touch(here.store, t.branches[a].next, maxActions)
    requires there.visits == here.visits + Size(t.branches[a].next)
    requires Grew(here.slices, there.slices, store0, Visits(store0, Child(store0, v, a)), r, weight)
    requires x == ProfileUtility(store0, t.branches[a].next, r) && after == ProfileBefore(store0, t, r, a + 1)
    ensures Halfway(start, there, t, r, v, store0, weight, maxActions, a + 1, utilities + [x], after)
  {
    TouchKeeps(here.store, t.branches[a].next, maxActions);
    KeptTwice(store0, here.store, there.store);
    EarnedMore(t, r, store0, a, utilities, utility, x, after);
    GrewBranch(start.slices, here.slices, there.slices, store0, v, a, r, weight);
  }

  class FullTraversal {
    // The regrets of the information store. They do not change before the commit.
    var store: Store
    // The strategy sums; all zero where there are none yet.
    var averages: Store
    var entries: seq<Entry>
    // The open-addressed table of entry numbers, and the map it stands for.
    var cells: seq<ProbeTable.Cell>
    ghost var table: map<Key, nat>
    var arena: array<real>
    var used: nat
    var visits: nat
    const maxActions: nat
    var weight: real
    const hash: Key -> nat

    ghost predicate Valid()
      reads this, arena
    {
      && ArenaOk(entries, table, used) && used <= arena.Length && IndexTable.IndexOk(cells, hash, table)
      && forall i: nat :: i < |entries| ==> CountOk(i)
    }

    ghost predicate CountOk(i: nat)
      reads this
      requires i < |entries|
    {
      entries[i].key in store && |store[entries[i].key]| == entries[i].count
    }

    ghost function Now(): Slices
      reads this, arena
    {
      Slices(entries, table, arena[..])
    }

    constructor (store: Store, averages: Store, maxActions: nat, hash: Key -> nat)
      ensures Valid() && this.store == store && this.averages == averages && this.maxActions == maxActions
      ensures fresh(arena)
    {
      this.store, this.averages, entries, table, used := store, averages, [], map[], 0;
      this.hash, cells := hash, ProbeTable.Blank(IndexTable.INITIAL_CAPACITY);
      IndexTable.BlankOk(hash, IndexTable.INITIAL_CAPACITY);
      this.maxActions, weight, visits := maxActions, 1.0, 0;
      arena := new real[32 * maxActions](_ => 0.0);
    }

    // The current strategy of an information set; a node is created for a new one.
    method CurrentStrategy(key: Key, n: nat, ghost store0: Store) returns (status: Status, probabilities: seq<real>)
      requires Valid() && n > 0 && Kept(store0, store)
      modifies this`store
      ensures Valid() && Kept(store0, store)
      ensures Touched(status, store) == EnterKey(old(store), key, n)
      ensures status == Success ==> probabilities == Policy(store0, key, n)
    {
      PolicyKept(store0, store, key, n);
      if key !in store {
        store := store[key := Zeros(n)];
        forall i: nat | i < |entries| ensures CountOk(i) {
          assert old(CountOk(i));
        }
        return Success, RegretMatching.Match(Zeros(n));
      }
      if |store[key]| != n {
        return InvalidArgument, [];
      }
      return Success, RegretMatching.Match(store[key]);
    }

    // Outcomes must not be negative and must add up to one, within tolerance.
    method ChanceProbabilities<S>(state: Play.GameState<S>, actions: seq<int>, ghost bs: seq<Branch>)
      returns (status: Status, probabilities: seq<real>)
      requires |actions| == |bs|
      requires forall a: nat :: a < |bs| ==> bs[a].probability == state.rules.odds(state.position, actions[a])
      ensures status == Success ==> |probabilities| == |bs| && forall a: nat :: a < |bs| ==> probabilities[a] == bs[a].probability
      ensures status == if ChanceIsOk(bs) then Success else InvalidArgument
    {
      probabilities := [];
      var sum := 0.0;
      for a := 0 to |actions|
        invariant |probabilities| == a && sum == Sum(Probabilities(bs), 0, a)
        invariant forall b: nat :: b < a ==> probabilities[b] == bs[b].probability >= 0.0
      {
        var probability := state.rules.odds(state.position, actions[a]);
        if probability < 0.0 {
          assert bs[a].probability < 0.0;
          return InvalidArgument, [];
        }
        probabilities := probabilities + [probability];
        sum := sum + probability;
      }
      status := if SumIsOne(sum) then Success else InvalidArgument;
    }

    // The slice of an information set, made on first use. Growing the arena copies it, so no
    // pending delta changes.
    method FindOrCreateEntry(key: Key, count: nat) returns (index: nat)
      requires Valid() && key in store && |store[key]| == count
      modifies this`entries, this`table, this`cells, this`arena, this`used, arena
      ensures Valid() && (arena == old(arena) || fresh(arena))
      ensures index < |entries| && entries[index].key == key && entries[index].count == count
      ensures table.Keys == old(table.Keys) + {key}
      ensures forall which, k: Key, a: nat :: DeltaOf(Now(), which, k, a) == DeltaOf(old(Now()), which, k, a)
    {
      var r := FindCell(key);
      if r.Found? {
        index := cells[r.index].node;
        assert CountOk(index);
        return;
      }
      r := VacantCell(key, r);
      index := CreateEntry(key, count, r);
    }

    method CreateEntry(key: Key, count: nat, r: ProbeTable.Located) returns (index: nat)
      requires Valid() && key in store && |store[key]| == count && key !in table
      requires |cells| > 0 && |table| < IndexTable.Limit(|cells|)
      requires r == ProbeTable.Locate(cells, IndexTable.HomeFor(hash, |cells|), key) && r.Vacant? && r.index < |cells|
      modifies this`entries, this`table, this`cells, this`arena, this`used, arena
      ensures Valid() && (arena == old(arena) || fresh(arena))
      ensures index < |entries| && entries[index].key == key && entries[index].count == count
      ensures table.Keys == old(table.Keys) + {key}
      ensures forall which, k: Key, a: nat :: DeltaOf(Now(), which, k, a) == DeltaOf(old(Now()), which, k, a)
    {
      ghost var before := arena[..];
      ReserveSlice(count);
      NewSlice(entries, table, used, before, arena[..], key, count);
      index := |entries|;
      Append(key, count, r);
    }

    // Writes the new entry behind the others, and its number into the table.
    method Append(key: Key, count: nat, r: ProbeTable.Located)
      requires IndexTable.IndexOk(cells, hash, table) && key in store && |store[key]| == count && key !in table
      requires forall i: nat :: i < |entries| ==> CountOk(i)
      requires |cells| > 0 && |table| < IndexTable.Limit(|cells|)
      requires r == ProbeTable.Locate(cells, IndexTable.HomeFor(hash, |cells|), key) && r.Vacant? && r.index < |cells|
      modifies this`entries, this`table, this`cells, this`used
      ensures entries == old(entries) + [Entry(key, count, old(used))] && used == old(used) + 2 * count
      ensures table == old(table)[key := |old(entries)|] && IndexTable.IndexOk(cells, hash, table)
      ensures forall i: nat :: i < |entries| ==> CountOk(i)
    {
      IndexTable.EnteredOk(cells, hash, table, key, |entries|);
      cells, table := cells[r.index := ProbeTable.Used(key, |entries|)], table[key := |entries|];
      entries := entries + [Entry(key, count, used)];
      used := used + 2 * count;
      forall i: nat | i < |entries| ensures CountOk(i) {
        if i + 1 < |entries| {
          assert old(CountOk(i));
        }
      }
    }

    // Zeros behind the slices there are, in a larger arena if need be.
    method ReserveSlice(count: nat)
      requires used <= arena.Length
      modifies this`arena, arena
      ensures (arena == old(arena) || fresh(arena)) && used + 2 * count <= arena.Length
      ensures forall i: nat :: i < |entries| && old(CountOk(i)) ==> CountOk(i)
      ensures forall p: nat :: p < used ==> arena[p] == old(arena[p])
      ensures forall p: nat :: used <= p < used + 2 * count ==> arena[p] == 0.0
    {
      if used + 2 * count > arena.Length {
        GrowArena(used + 2 * count);
      }
      ZeroFill(arena, used, 2 * count);
    }

    method FindCell(key: Key) returns (r: ProbeTable.Located)
      requires Valid()
      ensures |cells| > 0
      ensures r == ProbeTable.Locate(cells, IndexTable.HomeFor(hash, |cells|), key)
      ensures !r.Full? && r.index < |cells| && (r.Found? <==> key in table)
      ensures r.Found? ==> cells[r.index] == ProbeTable.Used(key, table[key])
    {
      IndexTable.ProbeFinds(cells, hash, table, key);
      r := IndexTable.Probe(cells, hash, key);
    }

    // The cell for a new entry's number, in a table with room for it.
    method VacantCell(key: Key, found: ProbeTable.Located) returns (r: ProbeTable.Located)
      requires Valid() && key !in table && |cells| > 0 && found == ProbeTable.Locate(cells, IndexTable.HomeFor(hash, |cells|), key)
      requires found.Vacant? && found.index < |cells|
      modifies this`cells
      ensures Valid() && |cells| > 0 && |table| < IndexTable.Limit(|cells|)
      ensures r == ProbeTable.Locate(cells, IndexTable.HomeFor(hash, |cells|), key) && r.Vacant? && r.index < |cells|
    {
      r := found;
      NumbersAreTable(entries, table);
      IndexTable.HoldsRoom(cells, hash, table);
      if |entries| + 1 > IndexTable.Limit(|cells|) {
        cells := IndexTable.Rebuild(KeysOf(entries), hash, 2 * |cells|);
        IndexTable.ProbeFinds(cells, hash, table, key);
        r := IndexTable.Probe(cells, hash, key);
        forall i: nat | i < |entries| ensures CountOk(i) {
          assert old(CountOk(i));
        }
      }
    }

    method GrowArena(needed: nat)
      requires used <= arena.Length < needed
      modifies this`arena
      ensures fresh(arena) && arena.Length >= needed && forall p: nat :: p < used ==> arena[p] == old(arena[p])
    {
      var length := if arena.Length == 0 then 1 else arena.Length * 2;
      while length < needed
        invariant length > 0 && length >= arena.Length
        decreases needed - length
      {
        length := length * 2;
      }
      arena := Copied(arena, used, length);
    }

    ghost function Learned(): Totals
      reads this
    {
      Totals(store, averages)
    }

    // Adds the pending changes of every visited information set, clamping regrets for CFR+.
    method CommitDeltas(plus: bool)
      requires Valid()
      modifies this`store, this`averages
      ensures Valid() && Committed(old(Learned()), Learned(), Now(), plus)
      ensures EntryByEntry(old(Learned()), Learned(), Now(), plus)
    {
      ghost var before, s := Learned(), Now();
      for i := 0 to |entries|
        invariant Valid() && CommittedFirst(before, Learned(), s, plus, i)
      {
        ghost var mid := Learned();
        CommitEntry(i, plus);
        EntryDone(before, mid, Learned(), s, plus, i);
      }
      AllDone(before, Learned(), s, plus);
      CommittedEntries(before, Learned(), s, plus);
    }

    method CommitEntry(i: nat, plus: bool)
      requires Valid() && i < |entries|
      modifies this`store, this`averages
      ensures Valid() && OneCommitted(old(Learned()), Learned(), Now(), plus, i)
    {
      var e := entries[i];
      assert CountOk(i) && EntryOk(entries, used, i);
      var delta := Slice(e.offset, e.count);
      assert delta == DeltaSeq(Now(), Regret, e.key, e.count);
      var change := Slice(e.offset + e.count, e.count);
      assert change == DeltaSeq(Now(), Strategy, e.key, e.count);
      store := store[e.key := RegretMatching.Commit(store[e.key], delta, plus)];
      averages := averages[e.key := RegretMatching.Plus(SumsOf(averages, e.key, e.count), change)];
      forall j: nat | j < |entries| ensures CountOk(j) {
        assert old(CountOk(j));
      }
    }

    method Slice(offset: nat, count: nat) returns (part: seq<real>)
      requires offset + count <= arena.Length
      ensures |part| == count && forall a: nat :: a < count ==> part[a] == arena[offset + a]
    {
      part := [];
      for a := 0 to count
        invariant |part| == a && forall b: nat :: b < a ==> part[b] == arena[offset + b]
      {
        part := part + [arena[offset + a]];
      }
    }

    // Forgets the last traversal. The table keeps its capacity, and the arena its length.
    method Reset(strategyWeight: real)
      requires Valid()
      modifies this`entries, this`table, this`cells, this`used, this`visits, this`weight
      ensures Valid() && table == map[] && visits == 0 && weight == strategyWeight
    {
      IndexTable.HoldsRoom(cells, hash, table);
      IndexTable.BlankOk(hash, |cells|);
      entries, table, cells, used, visits := [], map[], ProbeTable.Blank(|cells|), 0, 0;
      weight := strategyWeight;
    }

    // A whole traversal for the player at the seat and, if it succeeds, its commit. A failure leaves all sums alone,
    // and either way the game ends in the state it began in.
    method TraverseAndCommit<S>(state: Play.GameState<S>, ghost game: Play.Tree, seat: nat, strategyWeight: real, plus: bool)
      returns (status: Status, utility: real)
      requires Valid() && Play.Unfolds(state.rules, state.position, game)
      modifies this, arena, state
      ensures Valid() && (arena == old(arena) || fresh(arena)) && state.position == old(state.position)
      ensures Taught(status, Learned())
           == TrainSeat(old(Learned()), game, state.rules.players, seat, strategyWeight, plus, maxActions)
      ensures status == Success ==>
        var t := SeenFrom(game, seat, state.rules.players);
        utility == ProfileUtility(old(store), t, Player0) && visits == Size(t)
    {
      if !CanTrain(state.rules.players, seat, maxActions) || strategyWeight <= 0.0 {
        return InvalidArgument, 0.0;
      }
      ghost var t := SeenFrom(game, seat, state.rules.players);
      UnfoldsShows(state.rules, seat, state.position, game);
      Reset(strategyWeight);
      ghost var before, s := Learned(), Now();
      status, utility := TraverseBranch(state, t, seat, 1.0, 1.0, 1.0, Root(t), before.regrets);
      if status == Success {
        status := CheckAndCommit(plus, before, s, t);
      }
    }

    // The end of a traversal that met no error.
    method CheckAndCommit(plus: bool, ghost before: Totals, ghost s: Slices, ghost t: Tree) returns (status: Status)
      requires Valid() && s.table == map[] && averages == before.averages && weight > 0.0
      requires Touched(Success, store) == Touch(before.regrets, t, maxActions)
      requires Grew(s, Now(), before.regrets, Visits(before.regrets, Root(t)), Player0, weight)
      modifies this`store, this`averages
      ensures Valid() && Taught(status, Learned()) == Train(before, t, Player0, weight, plus, maxActions)
    {
      ghost var s', mid := Now(), Learned();
      EntriesCount(mid.regrets);
      AllowedIsCommittable(before.averages, before.regrets, mid.regrets, s, s', Visits(before.regrets, Root(t)), Player0, weight);
      status := CheckDeltas();
      if status == Success {
        CommitDeltas(plus);
        CommittedTrains(before, mid, Learned(), s, s', t, Player0, weight, plus);
      }
    }

    lemma EntriesCount(mid: Store)
      requires Valid() && mid == store
      ensures CountsAre(Now(), mid)
    {
      forall i: nat | i < |entries| ensures CountIsAt(Now(), mid, i) {
        assert CountOk(i);
      }
    }

    // Before anything is committed: no strategy sum may become negative.
    method CheckDeltas() returns (status: Status)
      requires Valid()
      ensures status == if AllAllowed(averages, Now()) then Success else NumericError
    {
      for i := 0 to |entries|
        invariant forall j: nat :: j < i ==> EntryAllowed(averages, Now(), j)
      {
        var e := entries[i];
        assert EntryOk(entries, used, i);
        var change := Slice(e.offset + e.count, e.count);
        assert change == DeltaSeq(Now(), Strategy, e.key, e.count);
        if !RegretMatching.Allowed(SumsOf(averages, e.key, e.count), change) {
          assert !EntryAllowed(averages, Now(), i);
          return NumericError;
        }
      }
      status := Success;
    }

    // Visits what can follow the state, whose reach probabilities are given. The utility returned is the exact
    // expected utility of the current strategies; every history has had its share added, and the state is
    // what it was.
    method TraverseBranch<S>(state: Play.GameState<S>, ghost t: Tree, seat: nat, own: real, external: real, chance: real,
                             ghost v: Visit, ghost store0: Store)
      returns (status: Status, utility: real)
      requires Valid() && Kept(store0, store) && Shows(state.rules, seat, state.position, t)
      requires v.tree == t && own == OwnReach(v, Player0) && External(v, Player0) == Times(external, chance)
      modifies this`store, this`entries, this`table, this`cells, this`arena, this`used, this`visits, arena, state
      ensures Valid() && (arena == old(arena) || fresh(arena)) && state.position == old(state.position)
      ensures Touched(status, store) == Touch(old(store), t, maxActions)
      ensures status == Success ==> visits == old(visits) + Size(t)
      ensures status == Success ==> utility == ProfileUtility(store0, t, Player0)
      ensures status == Success ==> Grew(old(Now()), Now(), store0, Visits(store0, v), Player0, weight)
      decreases t, 3
    {
      visits := visits + 1;
      forall i: nat | i < |entries| ensures CountOk(i) {
        assert old(CountOk(i));
      }
      status, utility := Success, 0.0;
      if state.rules.terminal(state.position) {
        utility := state.rules.utility(state.position, seat);
        GrewNothing(Now(), Now(), store0, Player0, weight);
        GrewBelow(Now(), Now(), store0, v, Player0, weight);
        return;
      }
      match state.rules.actor(state.position)
      case ByChance =>
        status, utility := TraverseChance(state, t, seat, own, external, chance, v, store0);
      case ByPlayer(player) =>
        if !Play.PlayerIsValid(state.rules.players, player) {
          return InvalidArgument, 0.0;
        }
        status, utility := TraverseTurn(state, t, seat, player == seat, own, external, chance, v, store0);
    }

    method TraverseChance<S>(state: Play.GameState<S>, ghost t: Tree, seat: nat, own: real, external: real, chance: real,
                             ghost v: Visit, ghost store0: Store)
      returns (status: Status, utility: real)
      requires Valid() && Kept(store0, store) && t.Nature? && ShowsBranches(state.rules, seat, state.position, t)
      requires v.tree == t && own == OwnReach(v, Player0) && External(v, Player0) == Times(external, chance)
      modifies this`store, this`entries, this`table, this`cells, this`arena, this`used, this`visits, arena, state
      ensures Valid() && (arena == old(arena) || fresh(arena)) && state.position == old(state.position)
      ensures Touched(status, store) == Touch(old(store), t, maxActions)
      ensures status == Success ==> visits == old(visits) + Before(t, |t.branches|)
      ensures status == Success ==> utility == ProfileUtility(store0, t, Player0)
      ensures status == Success ==> Grew(old(Now()), Now(), store0, Visits(store0, v), Player0, weight)
      decreases t, 2
    {
      utility := 0.0;
      var actions := state.rules.actions(state.position);
      if |actions| == 0 || |actions| > maxActions {
        return InvalidArgument, 0.0;
      }
      var probabilities, utilities;
      status, probabilities := ChanceProbabilities(state, actions, t.branches);
      if status == Success {
        status, utilities, utility := TraverseBranches(state, t, seat, ByChance, actions, own, external, chance, probabilities, v, store0);
        if status == Success {
          GrewBelow(old(Now()), Now(), store0, v, Player0, weight);
        }
      }
    }

    method TraverseTurn<S>(state: Play.GameState<S>, ghost t: Tree, seat: nat, moves: bool, own: real, external: real, chance: real,
                           ghost v: Visit, ghost store0: Store)
      returns (status: Status, utility: real)
      requires Valid() && Kept(store0, store) && t.Turn? && ShowsBranches(state.rules, seat, state.position, t)
      requires t.key == state.rules.key(state.position) && moves == Moves(t, Player0)
      requires v.tree == t && own == OwnReach(v, Player0) && External(v, Player0) == Times(external, chance)
      modifies this`store, this`entries, this`table, this`cells, this`arena, this`used, this`visits, arena, state
      ensures Valid() && (arena == old(arena) || fresh(arena)) && state.position == old(state.position)
      ensures Touched(status, store) == Touch(old(store), t, maxActions)
      ensures status == Success ==> visits == old(visits) + Before(t, |t.branches|)
      ensures status == Success ==> utility == ProfileUtility(store0, t, Player0)
      ensures status == Success ==> Grew(old(Now()), Now(), store0, Visits(store0, v), Player0, weight)
      decreases t, 2
    {
      utility := 0.0;
      var actions := state.rules.actions(state.position);
      if |actions| == 0 || |actions| > maxActions {
        return InvalidArgument, 0.0;
      }
      var key := state.rules.key(state.position);
      var probabilities, utilities;
      status, probabilities := CurrentStrategy(key, |actions|, store0);
      if status != Success {
        return;
      }
      ghost var here := store;
      status, utilities, utility :=
        TraverseBranches(state, t, seat, if moves then BySeat else ByOther, actions, own, external, chance, probabilities, v, store0);
      if status != Success {
        return;
      }
      TouchBeforeKeeps(here, t, |t.branches|, maxActions);
      FinishTurn(t, key, moves, own, Times(external, chance), utilities, utility, probabilities, v, store0, old(Now()));
    }

    // A history of the seat is recorded after its subtree; another's adds nothing.
    method FinishTurn(ghost t: Tree, key: Key, moves: bool, own: real, x: real, utilities: seq<real>, utility: real,
                      probabilities: seq<real>, ghost v: Visit, ghost store0: Store, ghost before: Slices)
      requires Valid() && t.Turn? && v.tree == t && key == t.key && moves == Moves(t, Player0)
      requires t.key in store && |store[t.key]| == |t.branches|
      requires own == OwnReach(v, Player0) && x == External(v, Player0) && utility == ProfileUtility(store0, t, Player0)
      requires |utilities| == |probabilities| == |t.branches|
      requires forall a: nat :: a < |utilities| ==>
        utilities[a] == ProfileUtility(store0, t.branches[a].next, Player0) && probabilities[a] == Odds(store0, t, a)
      requires Grew(before, Now(), store0, VisitsBefore(store0, v, |t.branches|), Player0, weight)
      modifies this`entries, this`table, this`cells, this`arena, this`used, arena
      ensures Valid() && (arena == old(arena) || fresh(arena))
      ensures Grew(before, Now(), store0, Visits(store0, v), Player0, weight)
    {
      if moves {
        Record(t, key, own, x, utilities, utility, probabilities, v, store0, before);
      } else {
        GrewBelow(before, Now(), store0, v, Player0, weight);
      }
    }

    // Adds the increments of a history of the seat, after its subtree has been visited.
    method Record(ghost t: Tree, key: Key, own: real, x: real, utilities: seq<real>, utility: real, probabilities: seq<real>,
                  ghost v: Visit, ghost store0: Store, ghost before: Slices)
      requires Valid() && t.Turn? && v.tree == t && Moves(t, Player0) && key == t.key && t.key in store && |store[t.key]| == |t.branches|
      requires own == OwnReach(v, Player0) && x == External(v, Player0) && utility == ProfileUtility(store0, t, Player0)
      requires |utilities| == |probabilities| == |t.branches|
      requires forall a: nat :: a < |utilities| ==>
        utilities[a] == ProfileUtility(store0, t.branches[a].next, Player0) && probabilities[a] == Odds(store0, t, a)
      requires Grew(before, Now(), store0, VisitsBefore(store0, v, |t.branches|), Player0, weight)
      modifies this`entries, this`table, this`cells, this`arena, this`used, arena
      ensures Valid() && (arena == old(arena) || fresh(arena))
      ensures Grew(before, Now(), store0, Visits(store0, v), Player0, weight)
    {
      ghost var s := Now();
      var index := FindOrCreateEntry(key, |utilities|);
      ghost var s' := Now();
      GrewSlice(before, s, s', store0, VisitsBefore(store0, v, |t.branches|), Player0, weight);
      assert EntryOk(entries, used, index);
      AddToSlice(arena, entries[index], x, own, weight, utilities, utility, probabilities);
      GrewHere(before, s', Now(), used, index, store0, v, Player0, weight, x, own, utilities, utility, probabilities);
    }

    // All the branches of a position, in order.
    method TraverseBranches<S>(state: Play.GameState<S>, ghost t: Tree, seat: nat, mover: Mover, actions: seq<int>, own: real, external: real,
                               chance: real, probabilities: seq<real>, ghost v: Visit, ghost store0: Store)
      returns (status: Status, utilities: seq<real>, utility: real)
      requires Valid() && Kept(store0, store) && !t.Leaf? && |probabilities| == |t.branches|
      requires ShowsBranches(state.rules, seat, state.position, t)
      requires actions == state.rules.actions(state.position) && mover == MoverOf(t)
      requires v.tree == t && own == OwnReach(v, Player0) && External(v, Player0) == Times(external, chance)
      requires forall a: nat :: a < |probabilities| ==> probabilities[a] == Odds(store0, t, a)
      modifies this`store, this`entries, this`table, this`cells, this`arena, this`used, this`visits, arena, state
      ensures Valid() && (arena == old(arena) || fresh(arena)) && state.position == old(state.position)
      ensures Touched(status, store) == TouchBefore(old(store), t, |t.branches|, maxActions)
      ensures status == Success ==>
        Halfway(old(Here()), Here(), t, Player0, v, store0, weight, maxActions, |t.branches|, utilities, utility)
      decreases t, 1
    {
      status, utilities, utility := Success, [], 0.0;
      ghost var start := Here();
      NoBranchYet(start, t, Player0, v, store0, weight, maxActions);
      for a := 0 to |actions|
        invariant Valid() && (arena == old(arena) || fresh(arena)) && status == Success && state.position == old(state.position)
        invariant Halfway(start, Here(), t, Player0, v, store0, weight, maxActions, a, utilities, utility)
      {
        status, utilities, utility := TraverseNext(state, t, a, seat, mover, actions[a], own, external, chance, probabilities[a], v, store0,
                                                   start, utilities, utility);
        if status != Success {
          TouchFailed(start.store, t, a + 1, |t.branches|, maxActions);
          return;
        }
      }
    }

    ghost function Here(): Progress
      reads this, arena
    {
      Progress(store, Now(), visits)
    }

    method TraverseNext<S>(state: Play.GameState<S>, ghost t: Tree, ghost a: nat, seat: nat, mover: Mover, action: int, own: real,
                           external: real, chance: real, p: real, ghost v: Visit, ghost store0: Store, ghost start: Progress,
                           before: seq<real>, soFar: real)
      returns (status: Status, utilities: seq<real>, utility: real)
      requires Valid() && a < |Branches(t)| && p == Odds(store0, t, a)
      requires ShowsBranches(state.rules, seat, state.position, t) && action == state.rules.actions(state.position)[a] && mover == MoverOf(t)
      requires v.tree == t && own == OwnReach(v, Player0) && External(v, Player0) == Times(external, chance)
      requires Halfway(start, Here(), t, Player0, v, store0, weight, maxActions, a, before, soFar)
      modifies this`store, this`entries, this`table, this`cells, this`arena, this`used, this`visits, arena, state
      ensures Valid() && (arena == old(arena) || fresh(arena)) && state.position == old(state.position)
      ensures Touched(status, store) == TouchBefore(start.store, t, a + 1, maxActions)
      ensures status == Success ==> Halfway(start, Here(), t, Player0, v, store0, weight, maxActions, a + 1, utilities, utility)
      decreases t, 0, 1
    {
      ghost var here := Here();
      var x;
      status, x := TraverseOne(state, t, a, seat, mover, action, own, external, chance, p, v, store0);
      utilities, utility := before, soFar;
      if status == Success {
        utilities := before + [x];
        utility := WithBranch(t, a, store0, soFar, x, p);
        OneBranchMore(start, here, Here(), t, Player0, v, store0, weight, maxActions, a, before, soFar, x, utility);
      }
    }

    method WithBranch(ghost t: Tree, ghost a: nat, ghost store0: Store, before: real, x: real, p: real) returns (after: real)
      requires a < |Branches(t)| && before == ProfileBefore(store0, t, Player0, a)
      requires x == ProfileUtility(store0, t.branches[a].next, Player0) && p == Odds(store0, t, a)
      ensures after == ProfileBefore(store0, t, Player0, a + 1)
    {
      after := before + x * p;
    }

    // The mover's reach, the others' or chance's takes in the probability.
    method ReachBelowBranch(ghost t: Tree, mover: Mover, own: real, external: real, chance: real, p: real)
      returns (own': real, external': real, chance': real)
      requires !t.Leaf? && mover == MoverOf(t)
      ensures own' == OwnBelow(t, Player0, own, p) && external' == ExternalBelow(t, Player0, external, p)
      ensures chance' == ChanceBelow(t, chance, p)
    {
      own', external', chance' := own, external, chance;
      match mover {
        case ByChance => chance' := chance * p;
        case BySeat => own' := own * p;
        case ByOther => external' := external * p;
      }
    }

    // One branch. The action is undone whatever came of it.
    method TraverseOne<S>(state: Play.GameState<S>, ghost t: Tree, ghost a: nat, seat: nat, mover: Mover, action: int, own: real,
                          external: real, chance: real, p: real, ghost v: Visit, ghost store0: Store)
      returns (status: Status, utility: real)
      requires Valid() && Kept(store0, store) && a < |Branches(t)| && p == Odds(store0, t, a)
      requires ShowsBranches(state.rules, seat, state.position, t) && action == state.rules.actions(state.position)[a] && mover == MoverOf(t)
      requires v.tree == t && own == OwnReach(v, Player0) && External(v, Player0) == Times(external, chance)
      modifies this`store, this`entries, this`table, this`cells, this`arena, this`used, this`visits, arena, state
      ensures Valid() && (arena == old(arena) || fresh(arena)) && state.position == old(state.position)
      ensures Touched(status, store) == Touch(old(store), t.branches[a].next, maxActions)
      ensures status == Success ==> visits == old(visits) + Size(t.branches[a].next)
      ensures status == Success ==> utility == ProfileUtility(store0, t.branches[a].next, Player0)
      ensures status == Success ==> Grew(old(Now()), Now(), store0, Visits(store0, Child(store0, v, a)), Player0, weight)
      decreases t, 0, 0
    {
      var own', external', chance' := ReachBelowBranch(t, mover, own, external, chance, p);
      ChildReach(t, a, Player0, own, external, chance, p, v, store0, own', external', chance');
      state.Apply(action);
      status, utility :=
        TraverseBranch(state, t.branches[a].next, seat, own', external', chance', Child(store0, v, a), store0);
      state.Undo();
    }
  }

  // Whose reach a branch goes to.
  datatype Mover = ByChance | BySeat | ByOther

  ghost function MoverOf(t: Tree): Mover
    requires !t.Leaf?
  {
    if t.Nature? then ByChance else if Moves(t, Player0) then BySeat else ByOther
  }

  lemma ChildReach(t: Tree, a: nat, r: Player, own: real, external: real, chance: real, p: real, v: Visit, store: Store,
                   own': real, external': real, chance': real)
    requires a < |Branches(t)| && p == Odds(store, t, a)
    requires v.tree == t && own == OwnReach(v, r) && External(v, r) == Times(external, chance)
    requires own' == OwnBelow(t, r, own, p) && external' == ExternalBelow(t, r, external, p) && chance' == ChanceBelow(t, chance, p)
    ensures OwnReach(Child(store, v, a), r) == own' && External(Child(store, v, a), r) == Times(external', chance')
  {
    ChildReachIs(t, a, r, p, v, store);
    Pushed(t, r, external, chance, p, External(v, r), External(Child(store, v, a), r));
  }

  function ExternalBelow(t: Tree, r: Player, external: real, p: real): real {
    if t.Turn? && t.player != r then external * p else external
  }

  function ChanceBelow(t: Tree, chance: real, p: real): real {
    if t.Nature? then chance * p else chance
  }

  // Keeping chance apart from the opponents' reach comes to the same product.
  lemma Pushed(t: Tree, r: Player, external: real, chance: real, p: real, before: real, after: real)
    requires !t.Leaf? && before == Times(external, chance) && after == ReachBelow(t, r, before, p)
    ensures after == Times(ExternalBelow(t, r, external, p), ChanceBelow(t, chance, p))
  {
    IntoSecond(external, chance, p);
    IntoFirst(external, chance, p);
  }

  lemma ChildReachIs(t: Tree, a: nat, r: Player, p: real, v: Visit, store: Store)
    requires a < |Branches(t)| && p == Odds(store, t, a) && v.tree == t
    ensures OwnReach(Child(store, v, a), r) == OwnBelow(t, r, OwnReach(v, r), p)
    ensures External(Child(store, v, a), r) == ReachBelow(t, r, External(v, r), p)
  {
  }

  lemma IntoSecond(x: real, y: real, p: real)
    ensures Times(x, y) * p == Times(x, y * p)
  {
  }

  lemma IntoFirst(x: real, y: real, p: real)
    ensures Times(x, y) * p == Times(x * p, y)
  {
  }

  // The first n elements in a longer array.
  method Copied(data: array<real>, n: nat, length: nat) returns (grown: array<real>)
    requires n <= data.Length && n <= length
    ensures fresh(grown) && grown.Length == length && forall p: nat :: p < n ==> grown[p] == data[p]
  {
    grown := new real[length](_ => 0.0);
    for p := 0 to n
      invariant forall k: nat :: k < p ==> grown[k] == data[k]
    {
      grown[p] := data[p];
    }
  }

  method ZeroFill(data: array<real>, from: nat, n: nat)
    requires from + n <= data.Length
    modifies data
    ensures forall p: nat :: p < data.Length ==> data[p] == if from <= p < from + n then 0.0 else old(data[p])
  {
    for i := 0 to n
      invariant forall p: nat :: p < data.Length ==> data[p] == if from <= p < from + i then 0.0 else old(data[p])
    {
      data[from + i] := 0.0;
    }
  }

  // Adds a node's increments to its slice.
  method AddToSlice(data: array<real>, e: Entry, x: real, own: real, weight: real, utilities: seq<real>, utility: real, probabilities: seq<real>)
    requires |utilities| == |probabilities| == e.count && e.offset + 2 * e.count <= data.Length
    modifies data
    ensures Added(e, old(data[..]), data[..], RegretChanges(x, utilities, utility), StrategyChanges(own, probabilities, weight), e.count)
  {
    ghost var before := data[..];
    for a := 0 to e.count
      invariant Added(e, before, data[..], RegretChanges(x, utilities, utility), StrategyChanges(own, probabilities, weight), a)
    {
      data[e.offset + a] := data[e.offset + a] + Times(x, utilities[a] - utility);
      data[e.offset + e.count + a] := data[e.offset + e.count + a] + Times(Times(own, probabilities[a]), weight);
    }
  }

  // ---- Regrets are orthogonal to the strategy that made them ----

  function ShareSeq(store: Store, vs: seq<Visit>, r: Player, weight: real, key: Key, n: nat): (d: seq<real>)
    ensures |d| == n
  {
    seq(n, (a: nat) requires a < n => Shares(store, vs, r, Regret, weight, key, a))
  }

  function OneShare(store: Store, v: Visit, r: Player, weight: real, key: Key, n: nat): (d: seq<real>)
    ensures |d| == n
  {
    seq(n, (a: nat) requires a < n => Share(store, v, r, Regret, weight, key, a))
  }

  // Every decision of r at the information set offers n actions.
  ghost predicate Regular(vs: seq<Visit>, r: Player, key: Key, n: nat) {
    forall i: nat :: i < |vs| && Moves(vs[i].tree, r) && vs[i].tree.key == key ==> |vs[i].tree.branches| == n
  }

  lemma DotOfSum(p: seq<real>, d: seq<real>, e: seq<real>, f: seq<real>)
    requires |p| == |d| == |e| == |f| && forall a: nat :: a < |p| ==> f[a] == d[a] + e[a]
    ensures RegretMatching.Dot(p, f) == RegretMatching.Dot(p, d) + RegretMatching.Dot(p, e)
  {
    forall a: nat | a < |p|
      ensures RegretMatching.Products(p, f)(a) == RegretMatching.Products(p, d)(a) + RegretMatching.Products(p, e)(a)
    {
      Spread(p[a], d[a], e[a], f[a]);
    }
    SumPlus(RegretMatching.Products(p, d), RegretMatching.Products(p, e), RegretMatching.Products(p, f), 0, |p|);
  }

  lemma Spread(p: real, d: real, e: real, f: real)
    requires f == d + e
    ensures p * f == p * d + p * e
  {
  }

  function ChildUtilities(store: Store, t: Tree, r: Player): nat -> real {
    (a: nat) => if a < |Branches(t)| then Odds(store, t, a) * ProfileUtility(store, t.branches[a].next, r) else 0.0
  }

  lemma {:induction false} UtilityIsSum(store: Store, t: Tree, r: Player, n: nat)
    requires n <= |Branches(t)|
    ensures Sum(ChildUtilities(store, t, r), 0, n) == ProfileBefore(store, t, r, n)
    decreases n
  {
    if n > 0 {
      UtilityIsSum(store, t, r, n - 1);
    }
  }

  // The strategy's own average gain is nothing: sum p (U_a - U) = U - U.
  lemma HistoryOrthogonal(store: Store, v: Visit, r: Player, weight: real, key: Key, n: nat)
    requires n > 0 && (Moves(v.tree, r) && v.tree.key == key ==> |v.tree.branches| == n)
    ensures RegretMatching.Dot(Policy(store, key, n), OneShare(store, v, r, weight, key, n)) == 0.0
  {
    var p := Policy(store, key, n);
    var f := RegretMatching.Products(p, OneShare(store, v, r, weight, key, n));
    if Moves(v.tree, r) && v.tree.key == key {
      var x, u := External(v, r), ProfileUtility(store, v.tree, r);
      RegretMatching.MatchIsDistribution(if key in store && |store[key]| == n then store[key] else Zeros(n));
      UtilityIsSum(store, v.tree, r, n);
      var g, q := ChildUtilities(store, v.tree, r), RegretMatching.Nth(p);
      forall a: nat | a < n ensures MixedAt(g, q, f, x, u, a) {
        HistoryTerm(store, v, r, weight, key, n, a);
      }
      AverageGainIsNothing(g, q, f, x, u, n);
    } else {
      SumZero(f, 0, n);
    }
  }

  lemma HistoryTerm(store: Store, v: Visit, r: Player, weight: real, key: Key, n: nat, a: nat)
    requires n > 0 && Moves(v.tree, r) && v.tree.key == key && |v.tree.branches| == n && a < n
    ensures var p := Policy(store, key, n);
      MixedAt(ChildUtilities(store, v.tree, r), RegretMatching.Nth(p),
              RegretMatching.Products(p, OneShare(store, v, r, weight, key, n)),
              External(v, r), ProfileUtility(store, v.tree, r), a)
  {
    var p, x, u := Policy(store, key, n), External(v, r), ProfileUtility(store, v.tree, r);
    GainTerm(p[a], x, ProfileUtility(store, v.tree.branches[a].next, r), u, Share(store, v, r, Regret, weight, key, a));
  }

  ghost predicate MixedAt(f: nat -> real, g: nat -> real, h: nat -> real, x: real, u: real, a: nat) {
    h(a) == x * f(a) + (-(x * u)) * g(a)
  }

  lemma AverageGainIsNothing(f: nat -> real, g: nat -> real, h: nat -> real, x: real, u: real, n: nat)
    requires forall a: nat :: a < n ==> MixedAt(f, g, h, x, u, a)
    requires Sum(f, 0, n) == u && Sum(g, 0, n) == 1.0
    ensures Sum(h, 0, n) == 0.0
  {
    forall a: nat | a < n ensures h(a) == x * f(a) + (-(x * u)) * g(a) {
      assert MixedAt(f, g, h, x, u, a);
    }
    SumLinear(f, g, h, x, -(x * u), 0, n);
  }

  lemma GainTerm(p: real, x: real, ua: real, u: real, d: real)
    requires d == Times(x, ua - u)
    ensures p * d == x * (p * ua) + (-(x * u)) * p
  {
  }

  // At every information set, what a whole traversal accumulates is orthogonal to the strategy it
  // was accumulated under.
  lemma {:induction false} TraversalOrthogonal(store: Store, vs: seq<Visit>, r: Player, weight: real, key: Key, n: nat)
    requires n > 0 && Regular(vs, r, key, n)
    ensures RegretMatching.Dot(Policy(store, key, n), ShareSeq(store, vs, r, weight, key, n)) == 0.0
    decreases |vs|
  {
    var p := Policy(store, key, n);
    if vs == [] {
      SumZero(RegretMatching.Products(p, ShareSeq(store, vs, r, weight, key, n)), 0, n);
    } else {
      var front, v := vs[..|vs| - 1], vs[|vs| - 1];
      TraversalOrthogonal(store, front, r, weight, key, n);
      HistoryOrthogonal(store, v, r, weight, key, n);
      DotOfSum(p, ShareSeq(store, front, r, weight, key, n), OneShare(store, v, r, weight, key, n), ShareSeq(store, vs, r, weight, key, n));
    }
  }

  // ---- Runs of sequential CFR ----

  function SumsOf(store: Store, key: Key, n: nat): (s: seq<real>)
    ensures |s| == n
  {
    if key in store && |store[key]| == n then store[key] else Zeros(n)
  }

  // A turn to train: the game as the player in question sees it.
  datatype Round = Round(tree: Tree, target: Player, weight: real)

  // One traversal and its commit: an information set takes in its increments, unless none of its
  // histories was met and there is nothing to take in.
  ghost predicate Trained(store: Store, store': Store, turn: Round, plus: bool, key: Key, n: nat) {
    var before, after := SumsOf(store, key, n), SumsOf(store', key, n);
    var delta := ShareSeq(store, Visits(store, Root(turn.tree)), turn.target, turn.weight, key, n);
    after == RegretMatching.Commit(before, delta, plus) || (after == before && delta == Zeros(n))
  }

  ghost predicate TrainingRun(stores: seq<Store>, turns: seq<Round>, plus: bool, key: Key, n: nat) {
    && |stores| == |turns| + 1
    && forall i: nat :: i < |turns| ==> RunStep(stores, turns, plus, key, n, i)
  }

  ghost predicate RunStep(stores: seq<Store>, turns: seq<Round>, plus: bool, key: Key, n: nat, i: nat)
    requires |stores| == |turns| + 1 && i < |turns|
  {
    && Regular(Visits(stores[i], Root(turns[i].tree)), turns[i].target, key, n)
    && Trained(stores[i], stores[i + 1], turns[i], plus, key, n)
  }

  function Norms(stores: seq<Store>, turns: seq<Round>, key: Key, n: nat): nat -> real {
    (i: nat) => if i < |turns| && i < |stores|
      then RegretMatching.SquareNorm(ShareSeq(stores[i], Visits(stores[i], Root(turns[i].tree)), turns[i].target, turns[i].weight, key, n))
      else 0.0
  }

  // Over any run of sequential CFR or CFR+, on any game, the sum of squared positive regrets of an
  // information set has grown by at most the squared norms of its increments.
  lemma {:induction false} RegretOverRun(stores: seq<Store>, turns: seq<Round>, plus: bool, key: Key, n: nat, i: nat)
    requires n > 0 && TrainingRun(stores, turns, plus, key, n) && i <= |turns|
    ensures RegretMatching.Potential(SumsOf(stores[i], key, n))
         <= RegretMatching.Potential(SumsOf(stores[0], key, n)) + Sum(Norms(stores, turns, key, n), 0, i)
    decreases i
  {
    if i > 0 {
      RegretOverRun(stores, turns, plus, key, n, i - 1);
      assert RunStep(stores, turns, plus, key, n, i - 1);
      var store, turn := stores[i - 1], turns[i - 1];
      var vs := Visits(store, Root(turn.tree));
      var before, delta := SumsOf(store, key, n), ShareSeq(store, vs, turn.target, turn.weight, key, n);
      TraversalOrthogonal(store, vs, turn.target, turn.weight, key, n);
      assert Policy(store, key, n) == RegretMatching.Match(before);
      assert Trained(store, stores[i], turn, plus, key, n);
      RegretMatching.PotentialStep(before, delta);
      RegretMatching.ClampKeepsPotential(RegretMatching.Plus(before, delta));
      NormNonNegative(delta);
    }
  }

  lemma NormNonNegative(d: seq<real>)
    ensures RegretMatching.SquareNorm(d) >= 0.0
  {
    forall a: nat | a < |d| ensures RegretMatching.Products(d, d)(a) >= 0.0 {
    }
    SumNonNegative(RegretMatching.Products(d, d), 0, |d|);
  }

  // ---- One traversal and its commit, as a function ----

  // The regret sums and the strategy sums.
  datatype Totals = Totals(regrets: Store, averages: Store)

  datatype Taught = Taught(status: Status, totals: Totals)

  function StrategySeq(store: Store, vs: seq<Visit>, r: Player, weight: real, key: Key, n: nat): (d: seq<real>)
    ensures |d| == n
  {
    seq(n, (a: nat) requires a < n => Shares(store, vs, r, Strategy, weight, key, a))
  }

  // Every information set that was met takes in what its histories share out.
  function RegretsAfter(before: Store, mid: Store, vs: seq<Visit>, r: Player, weight: real, plus: bool): Store {
    map k | k in mid ::
      if k in KeysAt(vs, r) then RegretMatching.Commit(mid[k], ShareSeq(before, vs, r, weight, k, |mid[k]|), plus) else mid[k]
  }

  function AveragesAfter(averages: Store, before: Store, mid: Store, vs: seq<Visit>, r: Player, weight: real): Store {
    map k | k in averages.Keys + KeysAt(vs, r) ::
      if k in KeysAt(vs, r) then
        var n := if k in mid then |mid[k]| else 0;
        RegretMatching.Plus(SumsOf(averages, k, n), StrategySeq(before, vs, r, weight, k, n))
      else averages[k]
  }

  predicate Committable(averages: Store, before: Store, mid: Store, vs: seq<Visit>, r: Player, weight: real) {
    forall k :: k in KeysAt(vs, r) ==> CommittableAt(averages, before, mid, vs, r, weight, k)
  }

  predicate CommittableAt(averages: Store, before: Store, mid: Store, vs: seq<Visit>, r: Player, weight: real, k: Key) {
    var n := if k in mid then |mid[k]| else 0;
    RegretMatching.Allowed(SumsOf(averages, k, n), StrategySeq(before, vs, r, weight, k, n))
  }

  // A traversal that fails leaves the sums alone; it may have added nodes.
  function Train(x: Totals, t: Tree, r: Player, weight: real, plus: bool, maxActions: nat): Taught {
    var mid := Touch(x.regrets, t, maxActions);
    if weight <= 0.0 then Taught(InvalidArgument, x)
    else if mid.status != Success then Taught(mid.status, x.(regrets := mid.store)) else
      var vs := Visits(x.regrets, Root(t));
      if !Committable(x.averages, x.regrets, mid.store, vs, r, weight) then Taught(NumericError, x.(regrets := mid.store))
      else Taught(Success, Totals(RegretsAfter(x.regrets, mid.store, vs, r, weight, plus),
                             AveragesAfter(x.averages, x.regrets, mid.store, vs, r, weight)))
  }

  // Who can be trained, and with how many actions at most.
  predicate CanTrain(players: nat, seat: nat, maxActions: nat) {
    Play.PlayerIsValid(players, seat) && 1 <= maxActions <= MAX_ACTIONS
  }

  // The same in a game of any number of players, for the one at the seat.
  function TrainSeat(x: Totals, game: Play.Tree, players: nat, seat: nat, weight: real, plus: bool, maxActions: nat): Taught {
    if !CanTrain(players, seat, maxActions) then Taught(InvalidArgument, x)
    else Train(x, SeenFrom(game, seat, players), Player0, weight, plus, maxActions)
  }

  // ---- The commit does that ----

  ghost predicate CountIsAt(s: Slices, mid: Store, i: nat)
    requires i < |s.entries|
  {
    s.entries[i].key in mid && |mid[s.entries[i].key]| == s.entries[i].count
  }

  ghost predicate CountsAre(s: Slices, mid: Store) {
    && TableOk(s.entries, s.table)
    && forall i: nat :: i < |s.entries| ==> CountIsAt(s, mid, i)
  }

  ghost predicate EntryAllowed(averages: Store, s: Slices, i: nat)
    requires i < |s.entries|
  {
    var e := s.entries[i];
    RegretMatching.Allowed(SumsOf(averages, e.key, e.count), DeltaSeq(s, Strategy, e.key, e.count))
  }

  ghost predicate AllAllowed(averages: Store, s: Slices) {
    forall i: nat :: i < |s.entries| ==> EntryAllowed(averages, s, i)
  }

  lemma AllowedIsCommittable(averages: Store, before: Store, mid: Store, s: Slices, s': Slices, vs: seq<Visit>, r: Player,
                             weight: real)
    requires s.table == map[] && Grew(s, s', before, vs, r, weight) && CountsAre(s', mid)
    ensures AllAllowed(averages, s') <==> Committable(averages, before, mid, vs, r, weight)
  {
    assert s'.table.Keys == KeysAt(vs, r);
    forall k | k in KeysAt(vs, r)
      ensures k in s'.table && s'.table[k] < |s'.entries|
      ensures CommittableAt(averages, before, mid, vs, r, weight, k) <==> EntryAllowed(averages, s', s'.table[k])
    {
      var i := s'.table[k];
      assert CountIsAt(s', mid, i);
      SlicesAreShares(s, s', before, vs, r, weight, k, s'.entries[i].count);
    }
    forall i: nat | i < |s'.entries| ensures s'.entries[i].key in KeysAt(vs, r) && s'.table[s'.entries[i].key] == i {
    }
  }

  ghost predicate OneCommitted(x: Totals, x': Totals, s: Slices, plus: bool, i: nat)
    requires i < |s.entries|
  {
    var e := s.entries[i];
    && e.key in x.regrets && |x.regrets[e.key]| == e.count && e.key in s.table && s.table[e.key] == i
    && x' == Totals(x.regrets[e.key := RegretMatching.Commit(x.regrets[e.key], DeltaSeq(s, Regret, e.key, e.count), plus)],
                    x.averages[e.key := RegretMatching.Plus(SumsOf(x.averages, e.key, e.count), DeltaSeq(s, Strategy, e.key, e.count))])
  }

  // The sums of one information set, once it is done or while it is not.
  ghost predicate RegretAt(x: Totals, x': Totals, s: Slices, plus: bool, done: bool, k: Key) {
    && (k in x'.regrets <==> k in x.regrets)
    && (k in x.regrets ==>
          x'.regrets[k] == if done then RegretMatching.Commit(x.regrets[k], DeltaSeq(s, Regret, k, |x.regrets[k]|), plus)
                           else x.regrets[k])
  }

  ghost predicate AverageAt(x: Totals, x': Totals, s: Slices, done: bool, k: Key) {
    && (k in x'.averages <==> k in x.averages || done)
    && (k in x'.averages ==>
          x'.averages[k] == if done then
                              var n := if k in x.regrets then |x.regrets[k]| else 0;
                              RegretMatching.Plus(SumsOf(x.averages, k, n), DeltaSeq(s, Strategy, k, n))
                            else if k in x.averages then x.averages[k] else [])
  }

  ghost predicate BothAt(x: Totals, x': Totals, s: Slices, plus: bool, done: bool, k: Key) {
    RegretAt(x, x', s, plus, done, k) && AverageAt(x, x', s, done, k)
  }

  ghost predicate CommittedFirst(x: Totals, x': Totals, s: Slices, plus: bool, i: nat) {
    forall k: Key :: BothAt(x, x', s, plus, k in s.table && s.table[k] < i, k)
  }

  ghost predicate Committed(x: Totals, x': Totals, s: Slices, plus: bool) {
    forall k: Key :: BothAt(x, x', s, plus, k in s.table, k)
  }

  // The same, action by action: a regret is what it was and its increment, or zero if that is negative and the
  // variant clamps; a strategy sum is what it was and its increment.
  ghost predicate EntryByEntry(x: Totals, x': Totals, s: Slices, plus: bool) {
    && x'.regrets.Keys == x.regrets.Keys
    && (forall k :: k in x.regrets && k !in s.table ==> x'.regrets[k] == x.regrets[k])
    && (forall k :: k in x.averages && k !in s.table ==> k in x'.averages && x'.averages[k] == x.averages[k])
    && (forall k, a: nat :: k in s.table && k in x.regrets && a < |x.regrets[k]| ==>
          && |x'.regrets[k]| == |x.regrets[k]|
          && var sum := x.regrets[k][a] + DeltaOf(s, Regret, k, a);
             x'.regrets[k][a] == if plus && sum < 0.0 then 0.0 else sum)
    && (forall k, a: nat :: k in s.table && k in x.regrets && a < |x.regrets[k]| ==>
          && k in x'.averages && |x'.averages[k]| == |x.regrets[k]|
          && x'.averages[k][a] == DeltaOf(s, Strategy, k, a)
                                  + if k in x.averages && |x.averages[k]| == |x.regrets[k]| then x.averages[k][a] else 0.0)
  }

  lemma CommittedEntries(x: Totals, x': Totals, s: Slices, plus: bool)
    requires Committed(x, x', s, plus)
    ensures EntryByEntry(x, x', s, plus)
  {
    forall k: Key
      ensures RegretAt(x, x', s, plus, k in s.table, k) && AverageAt(x, x', s, k in s.table, k)
      ensures k in x'.regrets <==> k in x.regrets
    {
      assert BothAt(x, x', s, plus, k in s.table, k);
    }
    assert x'.regrets.Keys == x.regrets.Keys;
  }

  lemma EntryDone(x: Totals, mid: Totals, after: Totals, s: Slices, plus: bool, i: nat)
    requires TableOk(s.entries, s.table) && i < |s.entries|
    requires CommittedFirst(x, mid, s, plus, i) && OneCommitted(mid, after, s, plus, i)
    ensures CommittedFirst(x, after, s, plus, i + 1)
  {
    forall k: Key ensures BothAt(x, after, s, plus, k in s.table && s.table[k] < i + 1, k) {
      assert BothAt(x, mid, s, plus, k in s.table && s.table[k] < i, k);
      EntryDoneAt(x, mid, after, s, plus, i, k);
    }
  }

  lemma EntryDoneAt(x: Totals, mid: Totals, after: Totals, s: Slices, plus: bool, i: nat, k: Key)
    requires TableOk(s.entries, s.table) && i < |s.entries|
    requires BothAt(x, mid, s, plus, k in s.table && s.table[k] < i, k) && OneCommitted(mid, after, s, plus, i)
    ensures BothAt(x, after, s, plus, k in s.table && s.table[k] < i + 1, k)
  {
    if k != s.entries[i].key {
      assert k in s.table ==> s.table[k] != i;
    }
  }

  lemma AllDone(x: Totals, after: Totals, s: Slices, plus: bool)
    requires TableOk(s.entries, s.table) && CommittedFirst(x, after, s, plus, |s.entries|)
    ensures Committed(x, after, s, plus)
  {
    forall k: Key ensures BothAt(x, after, s, plus, k in s.table, k) {
      assert BothAt(x, after, s, plus, k in s.table && s.table[k] < |s.entries|, k);
    }
  }

  lemma SlicesAreShares(s: Slices, s': Slices, store: Store, vs: seq<Visit>, r: Player, weight: real, k: Key, n: nat)
    requires s.table == map[] && Grew(s, s', store, vs, r, weight)
    ensures DeltaSeq(s', Regret, k, n) == ShareSeq(store, vs, r, weight, k, n)
    ensures DeltaSeq(s', Strategy, k, n) == StrategySeq(store, vs, r, weight, k, n)
  {
    forall a: nat | a < n
      ensures DeltaSeq(s', Regret, k, n)[a] == ShareSeq(store, vs, r, weight, k, n)[a]
      ensures DeltaSeq(s', Strategy, k, n)[a] == StrategySeq(store, vs, r, weight, k, n)[a]
    {
      assert DeltaGrew(s, s', store, vs, r, weight, Regret, k, a) && DeltaGrew(s, s', store, vs, r, weight, Strategy, k, a);
    }
  }

  lemma RegretsCommitted(before: Totals, mid: Totals, after: Totals, s: Slices, s': Slices, vs: seq<Visit>, r: Player,
                         weight: real, plus: bool)
    requires s.table == map[] && Grew(s, s', before.regrets, vs, r, weight) && Committed(mid, after, s', plus)
    ensures after.regrets == RegretsAfter(before.regrets, mid.regrets, vs, r, weight, plus)
  {
    assert s'.table.Keys == KeysAt(vs, r);
    var expected := RegretsAfter(before.regrets, mid.regrets, vs, r, weight, plus);
    forall k: Key
      ensures k in after.regrets <==> k in expected
      ensures k in after.regrets ==> after.regrets[k] == expected[k]
    {
      assert BothAt(mid, after, s', plus, k in s'.table, k);
      SlicesAreShares(s, s', before.regrets, vs, r, weight, k, if k in mid.regrets then |mid.regrets[k]| else 0);
    }
    assert after.regrets.Keys == expected.Keys;
  }

  lemma AveragesCommitted(before: Totals, mid: Totals, after: Totals, s: Slices, s': Slices, vs: seq<Visit>, r: Player,
                          weight: real, plus: bool)
    requires s.table == map[] && Grew(s, s', before.regrets, vs, r, weight) && Committed(mid, after, s', plus)
    ensures after.averages == AveragesAfter(mid.averages, before.regrets, mid.regrets, vs, r, weight)
  {
    assert s'.table.Keys == KeysAt(vs, r);
    var expected := AveragesAfter(mid.averages, before.regrets, mid.regrets, vs, r, weight);
    forall k: Key
      ensures k in after.averages <==> k in expected
      ensures k in after.averages ==> after.averages[k] == expected[k]
    {
      assert BothAt(mid, after, s', plus, k in s'.table, k);
      SlicesAreShares(s, s', before.regrets, vs, r, weight, k, if k in mid.regrets then |mid.regrets[k]| else 0);
    }
    assert after.averages.Keys == expected.Keys;
  }

  // The commit of a traversal's slices is the training step.
  lemma CommittedTrains(before: Totals, mid: Totals, after: Totals, s: Slices, s': Slices, t: Tree, r: Player, weight: real, plus: bool)
    requires s.table == map[] && Grew(s, s', before.regrets, Visits(before.regrets, Root(t)), r, weight)
    requires mid.averages == before.averages && Committed(mid, after, s', plus)
    ensures var vs := Visits(before.regrets, Root(t));
      after == Totals(RegretsAfter(before.regrets, mid.regrets, vs, r, weight, plus),
                      AveragesAfter(before.averages, before.regrets, mid.regrets, vs, r, weight))
  {
    RegretsCommitted(before, mid, after, s, s', Visits(before.regrets, Root(t)), r, weight, plus);
    AveragesCommitted(before, mid, after, s, s', Visits(before.regrets, Root(t)), r, weight, plus);
  }
}
