// The two ways of reading an expected utility agree: averaging from the ends of the game upwards, and weighing
// every end by the probability of the path to it.
module PathSums {
  import opened Sums
  import opened BestResponse
  import opened GameTree
  import opened Layout

  // The probability of the whole path to v: what everybody but r did to lead there, and r itself.
  function PathProbability(v: Visit, r: Player): real {
    if r.Player0? then Times(v.reach0, v.own0) else Times(v.reach1, v.own1)
  }

  function Pays(v: Visit, r: Player): real {
    if !v.tree.Leaf? then 0.0
    else Times(PathProbability(v, r), if r.Player0? then v.tree.utility0 else v.tree.utility1)
  }

  function PaidOver(vs: seq<Visit>, r: Player): real
    decreases |vs|
  {
    if vs == [] then 0.0 else PaidOver(vs[..|vs| - 1], r) + Pays(vs[|vs| - 1], r)
  }

  lemma {:induction false} PaidOverBoth(vs: seq<Visit>, ws: seq<Visit>, r: Player)
    ensures PaidOver(vs + ws, r) == PaidOver(vs, r) + PaidOver(ws, r)
    decreases |ws|
  {
    if ws == [] {
      assert vs + ws == vs;
    } else {
      assert (vs + ws)[..|vs + ws| - 1] == vs + ws[..|ws| - 1];
      PaidOverBoth(vs, ws[..|ws| - 1], r);
    }
  }

  lemma Shift(x: real, y: real, p: real)
    ensures Times(x * p, y) == Times(Times(x, y), p)
    ensures Times(x, y * p) == Times(Times(x, y), p)
  {
  }

  // One of the two factors takes the share of the branch, the other stays.
  lemma OneFactor(x: real, y: real, p: real, x': real, y': real, moves: bool)
    requires x' == (if moves then x else x * p) && y' == (if moves then y * p else y)
    ensures Times(x', y') == Times(Times(x, y), p)
  {
    Shift(x, y, p);
  }

  lemma ChildFactors(store: Store, v: Visit, a: nat)
    requires a < |Branches(v.tree)|
    ensures var u, p := Child(store, v, a), Odds(store, v.tree, a);
      && u.reach0 == (if Moves(v.tree, Player0) then v.reach0 else v.reach0 * p)
      && u.own0 == (if Moves(v.tree, Player0) then v.own0 * p else v.own0)
      && u.reach1 == (if Moves(v.tree, Player1) then v.reach1 else v.reach1 * p)
      && u.own1 == (if Moves(v.tree, Player1) then v.own1 * p else v.own1)
  {
  }

  // Every branch takes its share of the probability, whoever chooses it.
  lemma BranchProbability(store: Store, v: Visit, r: Player, a: nat)
    requires a < |Branches(v.tree)|
    ensures PathProbability(Child(store, v, a), r) == Times(PathProbability(v, r), Odds(store, v.tree, a))
  {
    var u, p := Child(store, v, a), Odds(store, v.tree, a);
    ChildFactors(store, v, a);
    if r.Player0? {
      OneFactor(v.reach0, v.own0, p, u.reach0, u.own0, Moves(v.tree, Player0));
    } else {
      OneFactor(v.reach1, v.own1, p, u.reach1, u.own1, Moves(v.tree, Player1));
    }
  }

  lemma Spread(w: real, x: real, p: real, u: real)
    ensures Times(w, x) + Times(Times(w, p), u) == Times(w, x + Times(p, u))
  {
  }

  lemma OneBranchMore(store: Store, t: Tree, r: Player, n: nat)
    requires 0 < n <= |Branches(t)|
    ensures ProfileBefore(store, t, r, n)
         == ProfileBefore(store, t, r, n - 1) + Times(Odds(store, t, n - 1), ProfileUtility(store, t.branches[n - 1].next, r))
  {
  }

  lemma PaidSplit(store: Store, v: Visit, r: Player, n: nat)
    requires 0 < n <= |Branches(v.tree)|
    ensures PaidOver(VisitsBefore(store, v, n), r)
         == PaidOver(VisitsBefore(store, v, n - 1), r) + PaidOver(Visits(store, Child(store, v, n - 1)), r)
  {
    PaidOverBoth(VisitsBefore(store, v, n - 1), Visits(store, Child(store, v, n - 1)), r);
  }

  lemma PaidMore(store: Store, v: Visit, r: Player, n: nat, before: real, below: real)
    requires 0 < n <= |Branches(v.tree)|
    requires before == PaidOver(VisitsBefore(store, v, n - 1), r) == Times(PathProbability(v, r), ProfileBefore(store, v.tree, r, n - 1))
    requires below == PaidOver(Visits(store, Child(store, v, n - 1)), r)
          == Times(PathProbability(Child(store, v, n - 1), r), ProfileUtility(store, v.tree.branches[n - 1].next, r))
    ensures PaidOver(VisitsBefore(store, v, n), r) == Times(PathProbability(v, r), ProfileBefore(store, v.tree, r, n))
  {
    PaidSplit(store, v, r, n);
    BranchProbability(store, v, r, n - 1);
    OneBranchMore(store, v.tree, r, n);
    OneMorePaid(PathProbability(v, r), PathProbability(Child(store, v, n - 1), r), Odds(store, v.tree, n - 1),
                ProfileBefore(store, v.tree, r, n - 1), ProfileBefore(store, v.tree, r, n),
                ProfileUtility(store, v.tree.branches[n - 1].next, r), before, below, before + below);
  }

  lemma OneMorePaid(w: real, w': real, p: real, x: real, x': real, u: real, before: real, below: real, after: real)
    requires before == Times(w, x) && below == Times(w', u) && after == before + below
    requires w' == Times(w, p) && x' == x + Times(p, u)
    ensures after == Times(w, x')
  {
    Spread(w, x, p, u);
  }

  lemma {:induction false} PaidBelow(store: Store, v: Visit, r: Player)
    ensures PaidOver(Visits(store, v), r) == Times(PathProbability(v, r), ProfileUtility(store, v.tree, r))
    decreases v.tree, |Branches(v.tree)| + 1
  {
    var n := |Branches(v.tree)|;
    PaidBefore(store, v, r, n);
    PaidOverBoth([v], VisitsBefore(store, v, n), r);
    assert [v][..0] == [];
    assert PaidOver([v], r) == PaidOver([v][..0], r) + Pays(v, r);
  }

  lemma {:induction false} PaidBefore(store: Store, v: Visit, r: Player, n: nat)
    requires n <= |Branches(v.tree)|
    ensures PaidOver(VisitsBefore(store, v, n), r) == Times(PathProbability(v, r), ProfileBefore(store, v.tree, r, n))
    decreases v.tree, n
  {
    if n > 0 {
      PaidBefore(store, v, r, n - 1);
      PaidBelow(store, Child(store, v, n - 1), r);
      PaidMore(store, v, r, n, PaidOver(VisitsBefore(store, v, n - 1), r), PaidOver(Visits(store, Child(store, v, n - 1)), r));
    }
  }

  // The expected utility is what the ends pay, weighed by the probabilities of the paths to them.
  lemma UtilityOverEnds(store: Store, t: Tree, r: Player)
    ensures ProfileUtility(store, t, r) == PaidOver(Visits(store, Root(t)), r)
  {
    PaidBelow(store, Root(t), r);
  }

  // Both players see every path with one probability.
  lemma {:induction false} OneProbability(store: Store, v: Visit, i: nat)
    requires i < |Visits(store, v)| && PathProbability(v, Player0) == PathProbability(v, Player1)
    ensures PathProbability(Visits(store, v)[i], Player0) == PathProbability(Visits(store, v)[i], Player1)
    decreases v.tree, |Branches(v.tree)| + 1
  {
    if i > 0 {
      OneProbabilityBefore(store, v, |Branches(v.tree)|, i - 1);
    }
  }

  lemma {:induction false} OneProbabilityBefore(store: Store, v: Visit, n: nat, i: nat)
    requires n <= |Branches(v.tree)| && i < |VisitsBefore(store, v, n)| && PathProbability(v, Player0) == PathProbability(v, Player1)
    ensures PathProbability(VisitsBefore(store, v, n)[i], Player0) == PathProbability(VisitsBefore(store, v, n)[i], Player1)
    decreases v.tree, n
  {
    var before := VisitsBefore(store, v, n - 1);
    if i < |before| {
      OneProbabilityBefore(store, v, n - 1, i);
    } else {
      BranchProbability(store, v, Player0, n - 1);
      BranchProbability(store, v, Player1, n - 1);
      OneProbability(store, Child(store, v, n - 1), i - |before|);
    }
  }

  lemma PathsAgree(store: Store, t: Tree, i: nat)
    requires i < |Visits(store, Root(t))|
    ensures var v := Visits(store, Root(t))[i]; Times(v.reach0, v.own0) == Times(v.reach1, v.own1)
  {
    OneProbability(store, Root(t), i);
  }
}
