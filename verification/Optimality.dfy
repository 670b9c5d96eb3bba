// The evaluator's best-response value, stated on the game tree itself.
module Optimality {
  import opened Sums
  import opened BestResponse
  import opened Solver
  import opened GameTree
  import opened Layout
  import RegretMatching

  // Player r never forgets what it did or what it knew when it did it.
  ghost predicate Recalls(vs: seq<Visit>, r: Player) {
    forall i: nat, j: nat :: i < |vs| && j < |vs| && SameSet(vs[i].tree, vs[j].tree, r) ==> Past(vs[i], r) == Past(vs[j], r)
  }

  predicate SameSet(t: Tree, u: Tree, r: Player) {
    Moves(t, r) && Moves(u, r) && t.key == u.key
  }

  // sigma is a behavioural strategy of r: one distribution per information set.
  ghost predicate Playable(vs: seq<Visit>, r: Player, sigma: Strategy) {
    forall i: nat :: i < |vs| && Moves(vs[i].tree, r) ==> Distribution(sigma, vs[i].tree.key, |vs[i].tree.branches|)
  }

  // value is the most r can earn from t against the learned profile.
  ghost predicate IsBestResponse(store: Store, t: Tree, r: Player, value: real) {
    var vs := Visits(store, Root(t));
    && (forall sigma :: Playable(vs, r, sigma) ==> Expected(store, t, r, sigma) <= value)
    && (exists sigma :: Playable(vs, r, sigma) && Expected(store, t, r, sigma) == value)
  }

  lemma RecallOnFlat(store: Store, s: Flat, vs: seq<Visit>, r: Player)
    requires Flattened(store, s, vs) && Recalls(vs, r)
    ensures PerfectRecall(s, r, Pasts(vs, r))
  {
    forall i: nat, j: nat | i < |s.nodes| && j < |s.nodes| && Own(s, r, i) && s.nodes[i].kind == s.nodes[j].kind
      ensures Pasts(vs, r)[i] == Pasts(vs, r)[j]
    {
      assert s.nodes[i] == NodeOf(vs[i]) && s.nodes[j] == NodeOf(vs[j]);
      assert SameSet(vs[i].tree, vs[j].tree, r);
    }
  }

  lemma PlayableOnFlat(store: Store, s: Flat, vs: seq<Visit>, r: Player, sigma: Strategy)
    requires Flattened(store, s, vs)
    ensures Playable(vs, r, sigma) <==> IsStrategy(s, r, sigma)
  {
    if Playable(vs, r, sigma) {
      forall i: nat | i < |s.nodes| && Own(s, r, i) ensures Distribution(sigma, s.nodes[i].kind.key, s.nodes[i].count) {
        assert s.nodes[i] == NodeOf(vs[i]) && Moves(vs[i].tree, r);
      }
    }
    if IsStrategy(s, r, sigma) {
      forall i: nat | i < |vs| && Moves(vs[i].tree, r) ensures Distribution(sigma, vs[i].tree.key, |vs[i].tree.branches|) {
        assert s.nodes[i] == NodeOf(vs[i]) && Own(s, r, i);
      }
    }
  }

  lemma NothingBetter(store: Store, s: Snapshot, vs: seq<Visit>, r: Player, v: seq<real>, choice: map<Key, nat>, sigma: Strategy)
    requires Flattened(store, s.flat, vs) && Indexed(s) && Recalls(vs, r)
    requires BestResponse.Solved(s.flat, r, v, choice) && Playable(vs, r, sigma)
    ensures Expected(store, vs[0].tree, r, sigma) <= v[0]
  {
    FlatIsPreorder(store, s.flat, vs);
    FlatReaches(store, s.flat, vs, r);
    FlatHistories(store, s.flat, vs, r);
    FlatValues(store, s.flat, vs, r, sigma);
    RecallOnFlat(store, s.flat, vs, r);
    PlayableOnFlat(store, s.flat, vs, r, sigma);
    IndexedSameActions(s);
    KeysList(s, r);
    SolvedIsOptimal(s.flat, r, Pasts(vs, r), choice, v, Keys(s), sigma, Utilities(store, vs, r, sigma));
  }

  lemma SelectionAchieves(store: Store, s: Snapshot, vs: seq<Visit>, r: Player, v: seq<real>, choice: map<Key, nat>)
    requires Flattened(store, s.flat, vs) && BestResponse.Solved(s.flat, r, v, choice)
    ensures Playable(vs, r, Pure(choice)) && Expected(store, vs[0].tree, r, Pure(choice)) == v[0]
  {
    PureIsStrategy(s.flat, r, choice, v);
    PlayableOnFlat(store, s.flat, vs, r, Pure(choice));
    FlatValues(store, s.flat, vs, r, Pure(choice));
    ValuesUnique(s.flat, r, Pure(choice), v, Utilities(store, vs, r, Pure(choice)), 0);
  }

  // Some strategy of r earns the value from t against the learned profile.
  ghost predicate IsAttained(store: Store, t: Tree, r: Player, value: real) {
    exists sigma :: Playable(Visits(store, Root(t)), r, sigma) && Expected(store, t, r, sigma) == value
  }

  // Whatever the players remember, a finished search has found the value of a strategy.
  lemma FinishedIsAttained(store: Store, s: Snapshot, t: Tree, vs: seq<Visit>, r: Player, cache: seq<Option<real>>,
                           states: seq<GroupState>)
    requires vs == Visits(store, Root(t)) && Flattened(store, s.flat, vs)
    requires Sound(s, r, cache, states) && cache[0].Some?
    ensures IsAttained(store, t, r, cache[0].value)
  {
    FlatIsPreorder(store, s.flat, vs);
    FinishedIsSolved(s, r, cache, states);
    SelectionAchieves(store, s, vs, r, Filled(cache), Choices(s, states));
  }

  // With perfect recall, a finished search has found the maximum over all strategies.
  lemma FinishedIsBest(store: Store, s: Snapshot, t: Tree, vs: seq<Visit>, r: Player, cache: seq<Option<real>>, states: seq<GroupState>)
    requires vs == Visits(store, Root(t)) && Flattened(store, s.flat, vs) && Recalls(vs, r)
    requires Sound(s, r, cache, states) && cache[0].Some?
    ensures IsBestResponse(store, t, r, cache[0].value)
  {
    FlatIsPreorder(store, s.flat, vs);
    FinishedIsSolved(s, r, cache, states);
    var v, choice := Filled(cache), Choices(s, states);
    SelectionAchieves(store, s, vs, r, v, choice);
    forall sigma | Playable(vs, r, sigma) ensures Expected(store, t, r, sigma) <= v[0] {
      NothingBetter(store, s, vs, r, v, choice, sigma);
    }
  }

  // ---- The learned profile is itself a strategy ----

  // What the profile plays, read off the information sets that were met.
  function Profile(store: Store, s: Snapshot): Strategy {
    (key: Key, a: nat) =>
      if key in s.table && s.table[key] < |s.groups| && a < s.groups[s.table[key]].count
      then Policy(store, key, s.groups[s.table[key]].count)[a] else 0.0
  }

  lemma ProfilePlays(store: Store, s: Snapshot, vs: seq<Visit>, r: Player, i: nat)
    requires s.flat.nodes == Nodes(vs) && Indexed(s) && i < |vs| && Moves(vs[i].tree, r)
    ensures forall a: nat :: a < |Branches(vs[i].tree)| ==> Profile(store, s)(vs[i].tree.key, a) == Odds(store, vs[i].tree, a)
  {
    assert NodeOk(s, i) && s.flat.nodes[i] == NodeOf(vs[i]);
  }

  lemma ProfilePlayable(store: Store, s: Snapshot, vs: seq<Visit>, r: Player)
    requires s.flat.nodes == Nodes(vs) && Indexed(s) && Branching(vs)
    ensures Playable(vs, r, Profile(store, s))
  {
    var sigma := Profile(store, s);
    forall i: nat | i < |vs| && Moves(vs[i].tree, r) ensures Distribution(sigma, vs[i].tree.key, |vs[i].tree.branches|) {
      ProfilePlays(store, s, vs, r, i);
      var key, n := vs[i].tree.key, |vs[i].tree.branches|;
      var p := Policy(store, key, n);
      RegretMatching.MatchIsDistribution(if key in store && |store[key]| == n then store[key] else Zeros(n));
      forall a: nat | a < n ensures sigma(key, a) == p[a] {
        assert Odds(store, vs[i].tree, a) == p[a];
      }
      SumExt(At(sigma, key), RegretMatching.Nth(p), 0, n);
    }
  }

  lemma PlayIsOdds(store: Store, s: Snapshot, vs: seq<Visit>, r: Player, i: nat, a: nat)
    requires s.flat.nodes == Nodes(vs) && Indexed(s) && i < |vs| && a < |Branches(vs[i].tree)|
    ensures Play(store, vs[i].tree, r, Profile(store, s), a) == Odds(store, vs[i].tree, a)
  {
    if Moves(vs[i].tree, r) {
      ProfilePlays(store, s, vs, r, i);
    }
  }

  lemma {:induction false} ProfileIsExpected(store: Store, s: Snapshot, vs: seq<Visit>, r: Player, i: nat)
    requires Flattened(store, s.flat, vs) && s.flat.nodes == Nodes(vs) && Indexed(s) && i < |vs|
    ensures Expected(store, vs[i].tree, r, Profile(store, s)) == ProfileUtility(store, vs[i].tree, r)
    decreases |vs| - i, |Branches(vs[i].tree)| + 1, 1
  {
    if !vs[i].tree.Leaf? {
      ProfileBeforeIsExpected(store, s, vs, r, i, |Branches(vs[i].tree)|);
    }
  }

  lemma {:induction false} ProfileBeforeIsExpected(store: Store, s: Snapshot, vs: seq<Visit>, r: Player, i: nat, n: nat)
    requires Flattened(store, s.flat, vs) && s.flat.nodes == Nodes(vs) && Indexed(s) && i < |vs| && n <= |Branches(vs[i].tree)|
    ensures ExpectedBefore(store, vs[i].tree, r, Profile(store, s), n) == ProfileBefore(store, vs[i].tree, r, n)
    decreases |vs| - i, n, 1
  {
    if n > 0 {
      ProfileBeforeIsExpected(store, s, vs, r, i, n - 1);
      ProfileBelow(store, s, vs, r, i, n - 1);
      PlayIsOdds(store, s, vs, r, i, n - 1);
      OneMoreBranch(store, vs[i].tree, r, Profile(store, s), n);
    }
  }

  lemma {:induction false} ProfileBelow(store: Store, s: Snapshot, vs: seq<Visit>, r: Player, i: nat, a: nat)
    requires Flattened(store, s.flat, vs) && s.flat.nodes == Nodes(vs) && Indexed(s) && i < |vs| && a < |Branches(vs[i].tree)|
    ensures var next := vs[i].tree.branches[a].next;
      Expected(store, next, r, Profile(store, s)) == ProfileUtility(store, next, r)
    decreases |vs| - i, a + 1, 0
  {
    assert KidAt(store, s.flat, vs, i, a);
    ProfileIsExpected(store, s, vs, r, Kid(s.flat, i, a));
  }

  lemma OneMoreBranch(store: Store, t: Tree, r: Player, sigma: Strategy, n: nat)
    requires 0 < n <= |Branches(t)|
    requires ExpectedBefore(store, t, r, sigma, n - 1) == ProfileBefore(store, t, r, n - 1)
    requires Expected(store, t.branches[n - 1].next, r, sigma) == ProfileUtility(store, t.branches[n - 1].next, r)
    requires Play(store, t, r, sigma, n - 1) == Odds(store, t, n - 1)
    ensures ExpectedBefore(store, t, r, sigma, n) == ProfileBefore(store, t, r, n)
  {
  }

  // The profile cannot beat its own best response.
  lemma ProfileAtMostBest(store: Store, s: Snapshot, t: Tree, vs: seq<Visit>, r: Player, best: real)
    requires vs == Visits(store, Root(t)) && Flattened(store, s.flat, vs) && s.flat.nodes == Nodes(vs)
    requires Indexed(s) && Branching(vs) && IsBestResponse(store, t, r, best)
    ensures ProfileUtility(store, t, r) <= best
  {
    ProfilePlayable(store, s, vs, r);
    ProfileIsExpected(store, s, vs, r, 0);
  }

  // ---- Exploitability ----

  datatype Metrics = Metrics(
    bestResponse0: real, bestResponse1: real,
    improvement0: real, improvement1: real,
    profile0: real, profile1: real,
    nashConv: real, exploitability: real)

  ghost predicate IsMetrics(store: Store, t: Tree, m: Metrics) {
    && m.profile0 == ProfileUtility(store, t, Player0) && m.profile1 == ProfileUtility(store, t, Player1)
    && IsBestResponse(store, t, Player0, m.bestResponse0) && IsBestResponse(store, t, Player1, m.bestResponse1)
    && m.improvement0 == m.bestResponse0 - m.profile0 && m.improvement1 == m.bestResponse1 - m.profile1
    && m.improvement0 >= 0.0 && m.improvement1 >= 0.0
    && m.nashConv == m.improvement0 + m.improvement1
    && m.exploitability == m.nashConv / 2.0
  }

  // Neither player has anything to gain by departing from the profile.
  ghost predicate Equilibrium(store: Store, t: Tree) {
    forall r: Player, sigma :: Playable(Visits(store, Root(t)), r, sigma) ==>
      Expected(store, t, r, sigma) <= ProfileUtility(store, t, r)
  }

  // Exploitability is never negative, and it is zero exactly at an equilibrium.
  lemma ExploitabilityMeans(store: Store, t: Tree, m: Metrics)
    requires IsMetrics(store, t, m)
    ensures m.exploitability >= 0.0
    ensures m.exploitability == 0.0 <==> Equilibrium(store, t)
  {
    if Equilibrium(store, t) {
      BestAtEquilibrium(store, t, Player0, m.bestResponse0);
      BestAtEquilibrium(store, t, Player1, m.bestResponse1);
    }
    if m.exploitability == 0.0 {
      forall r: Player, sigma | Playable(Visits(store, Root(t)), r, sigma)
        ensures Expected(store, t, r, sigma) <= ProfileUtility(store, t, r)
      {
        if r.Player0? {
          assert Expected(store, t, Player0, sigma) <= m.bestResponse0;
        } else {
          assert Expected(store, t, Player1, sigma) <= m.bestResponse1;
        }
      }
    }
  }

  lemma BestAtEquilibrium(store: Store, t: Tree, r: Player, best: real)
    requires Equilibrium(store, t) && IsBestResponse(store, t, r, best)
    ensures best <= ProfileUtility(store, t, r)
  {
    var sigma :| Playable(Visits(store, Root(t)), r, sigma) && Expected(store, t, r, sigma) == best;
  }

  // Where every terminal is exactly zero-sum, so is the profile.
  ghost predicate ExactlyZeroSum(t: Tree)
    decreases t
  {
    match t
    case Leaf(u0, u1) => u0 + u1 == 0.0
    case _ => forall a: nat :: a < |Branches(t)| ==> ExactlyZeroSum(t.branches[a].next)
  }

  lemma {:induction false} ZeroSumProfile(store: Store, t: Tree)
    requires ExactlyZeroSum(t)
    ensures ProfileUtility(store, t, Player0) + ProfileUtility(store, t, Player1) == 0.0
    decreases t, |Branches(t)| + 1
  {
    if !t.Leaf? {
      ZeroSumBefore(store, t, |Branches(t)|);
    }
  }

  lemma {:induction false} ZeroSumBefore(store: Store, t: Tree, n: nat)
    requires ExactlyZeroSum(t) && n <= |Branches(t)|
    ensures ProfileBefore(store, t, Player0, n) + ProfileBefore(store, t, Player1, n) == 0.0
    decreases t, n
  {
    if n > 0 {
      ZeroSumBefore(store, t, n - 1);
      var next := t.branches[n - 1].next;
      ZeroSumProfile(store, next);
      BranchAdds(store, t, Player0, n);
      BranchAdds(store, t, Player1, n);
      Cancels(Odds(store, t, n - 1), ProfileUtility(store, next, Player0), ProfileUtility(store, next, Player1));
    }
  }

  lemma BranchAdds(store: Store, t: Tree, r: Player, n: nat)
    requires 0 < n <= |Branches(t)|
    ensures ProfileBefore(store, t, r, n)
         == ProfileBefore(store, t, r, n - 1) + Times(Odds(store, t, n - 1), ProfileUtility(store, t.branches[n - 1].next, r))
  {
  }

  lemma Cancels(p: real, u0: real, u1: real)
    requires u0 + u1 == 0.0
    ensures Times(p, u0) + Times(p, u1) == 0.0
  {
    assert u1 == 0.0 - u0;
  }
}
