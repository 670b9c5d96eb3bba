// What one full traversal and its commit do to the sums, action by action, said of the game and of the sums alone.
module TrainingSteps {
  import opened Sums
  import opened BestResponse
  import opened GameTree
  import opened Layout
  import opened Construction
  import opened Traversal
  import opened EvaluationChecks
  import opened Training
  import RegretMatching
  import Play

  // ---- What a history is owed ----

  // What the branches earn on average, under the strategy in play.
  function MeanEarned(store: Store, t: Tree): real
    requires t.Turn?
  {
    Sum((b: nat) => if b < |t.branches| then
          Times(Policy(store, t.key, |t.branches|)[b], ProfileUtility(store, t.branches[b].next, Player0)) else 0.0,
        0, |t.branches|)
  }

  predicate Here(v: Visit, key: Key, a: nat) {
    v.tree.Turn? && v.tree.player == Player0 && v.tree.key == key && a < |v.tree.branches|
  }

  // At a position of the trained player in the information set key: the reach of everybody else times what action a
  // earns above the average of all actions.
  function RegretOwedAt(store: Store, v: Visit, key: Key, a: nat): real {
    if Here(v, key, a)
    then Times(v.reach0, ProfileUtility(store, v.tree.branches[a].next, Player0) - MeanEarned(store, v.tree))
    else 0.0
  }

  // The player's own reach times the strategy in play times the weight of the iteration.
  function StrategyOwedAt(store: Store, v: Visit, weight: real, key: Key, a: nat): real {
    if Here(v, key, a) then Times(Times(v.own0, Policy(store, key, |v.tree.branches|)[a]), weight) else 0.0
  }

  function RegretOwed(store: Store, vs: seq<Visit>, key: Key, a: nat): nat -> real {
    (i: nat) => if i < |vs| then RegretOwedAt(store, vs[i], key, a) else 0.0
  }

  function StrategyOwed(store: Store, vs: seq<Visit>, weight: real, key: Key, a: nat): nat -> real {
    (i: nat) => if i < |vs| then StrategyOwedAt(store, vs[i], weight, key, a) else 0.0
  }

  lemma AverageIsUtility(store: Store, t: Tree)
    requires t.Turn?
    ensures ProfileUtility(store, t, Player0) == MeanEarned(store, t)
  {
    UtilityIsSum(store, t, Player0, |t.branches|);
    SumExt(ChildUtilities(store, t, Player0),
           (b: nat) => if b < |t.branches| then
             Times(Policy(store, t.key, |t.branches|)[b], ProfileUtility(store, t.branches[b].next, Player0)) else 0.0,
           0, |t.branches|);
  }

  lemma ShareIsOwed(store: Store, v: Visit, weight: real, key: Key, a: nat)
    ensures Traversal.Share(store, v, Player0, Regret, weight, key, a) == RegretOwedAt(store, v, key, a)
    ensures Traversal.Share(store, v, Player0, Strategy, weight, key, a) == StrategyOwedAt(store, v, weight, key, a)
  {
    if v.tree.Turn? {
      AverageIsUtility(store, v.tree);
    }
  }

  lemma {:induction false} RegretSharesAreOwed(store: Store, vs: seq<Visit>, weight: real, key: Key, a: nat)
    ensures Shares(store, vs, Player0, Regret, weight, key, a) == Sum(RegretOwed(store, vs, key, a), 0, |vs|)
    decreases |vs|
  {
    if vs != [] {
      var front, i := vs[..|vs| - 1], |vs| - 1;
      RegretSharesAreOwed(store, front, weight, key, a);
      SumExt(RegretOwed(store, front, key, a), RegretOwed(store, vs, key, a), 0, i);
      ShareIsOwed(store, vs[i], weight, key, a);
    }
  }

  lemma {:induction false} StrategySharesAreOwed(store: Store, vs: seq<Visit>, weight: real, key: Key, a: nat)
    ensures Shares(store, vs, Player0, Strategy, weight, key, a) == Sum(StrategyOwed(store, vs, weight, key, a), 0, |vs|)
    decreases |vs|
  {
    if vs != [] {
      var front, i := vs[..|vs| - 1], |vs| - 1;
      StrategySharesAreOwed(store, front, weight, key, a);
      SumExt(StrategyOwed(store, front, weight, key, a), StrategyOwed(store, vs, weight, key, a), 0, i);
      ShareIsOwed(store, vs[i], weight, key, a);
    }
  }

  lemma SharesAreOwed(store: Store, vs: seq<Visit>, weight: real, key: Key, a: nat)
    ensures Shares(store, vs, Player0, Regret, weight, key, a) == Sum(RegretOwed(store, vs, key, a), 0, |vs|)
    ensures Shares(store, vs, Player0, Strategy, weight, key, a) == Sum(StrategyOwed(store, vs, weight, key, a), 0, |vs|)
  {
    RegretSharesAreOwed(store, vs, weight, key, a);
    StrategySharesAreOwed(store, vs, weight, key, a);
  }

  // ---- One training step ----

  function Sum0(store: Store, key: Key, n: nat, a: nat): real {
    if key in store && |store[key]| == n && a < n then store[key][a] else 0.0
  }

  // Every action of an information set that was met: its regret is what it was, nothing if the set is new, and all
  // that the histories are owed, or zero if that is negative and the variant clamps; its strategy sum likewise,
  // without clamping.
  ghost predicate Learns(x: Totals, x': Totals, vs: seq<Visit>, weight: real, plus: bool, k: Key, a: nat)
    requires k in x'.regrets && a < |x'.regrets[k]|
  {
    var n := |x'.regrets[k]|;
    var sum := Sum0(x.regrets, k, n, a) + Sum(RegretOwed(x.regrets, vs, k, a), 0, |vs|);
    && x'.regrets[k][a] == (if plus && sum < 0.0 then 0.0 else sum)
    && k in x'.averages && |x'.averages[k]| == n
    && x'.averages[k][a] == Sum0(x.averages, k, n, a) + Sum(StrategyOwed(x.regrets, vs, weight, k, a), 0, |vs|)
  }

  // A strategy sum may not be added something negative, nor become negative.
  ghost predicate Sound(x: Totals, mid: Store, vs: seq<Visit>, weight: real, k: Key, a: nat) {
    var owed := Sum(StrategyOwed(x.regrets, vs, weight, k, a), 0, |vs|);
    owed >= 0.0 && Sum0(x.averages, k, if k in mid then |mid[k]| else 0, a) + owed >= 0.0
  }

  lemma CommitsPlainly(r: seq<real>, d: seq<real>, plus: bool, a: nat)
    requires |r| == |d| && a < |r|
    ensures var sum := r[a] + d[a]; RegretMatching.Commit(r, d, plus)[a] == if plus && sum < 0.0 then 0.0 else sum
  {
  }

  lemma RegretLearned(x: Totals, mid: Store, vs: seq<Visit>, weight: real, plus: bool, k: Key, a: nat)
    requires Kept(x.regrets, mid) && k in KeysAt(vs, Player0) && k in mid && a < |mid[k]|
    ensures var after := RegretsAfter(x.regrets, mid, vs, Player0, weight, plus);
      var sum := Sum0(x.regrets, k, |mid[k]|, a) + Sum(RegretOwed(x.regrets, vs, k, a), 0, |vs|);
      && k in after && |after[k]| == |mid[k]|
      && after[k][a] == if plus && sum < 0.0 then 0.0 else sum
  {
    SharesAreOwed(x.regrets, vs, weight, k, a);
    CommitsPlainly(mid[k], ShareSeq(x.regrets, vs, Player0, weight, k, |mid[k]|), plus, a);
  }

  lemma AverageLearned(x: Totals, mid: Store, vs: seq<Visit>, weight: real, k: Key, a: nat)
    requires k in KeysAt(vs, Player0) && k in mid && a < |mid[k]|
    ensures var after := AveragesAfter(x.averages, x.regrets, mid, vs, Player0, weight);
      && k in after && |after[k]| == |mid[k]|
      && after[k][a] == Sum0(x.averages, k, |mid[k]|, a) + Sum(StrategyOwed(x.regrets, vs, weight, k, a), 0, |vs|)
  {
    SharesAreOwed(x.regrets, vs, weight, k, a);
  }

  lemma CommittableIsSound(x: Totals, mid: Store, vs: seq<Visit>, weight: real)
    ensures Committable(x.averages, x.regrets, mid, vs, Player0, weight) <==>
      forall k, a: nat :: k in KeysAt(vs, Player0) && k in mid && a < |mid[k]| ==> Sound(x, mid, vs, weight, k, a)
  {
    forall k | k in KeysAt(vs, Player0)
      ensures CommittableAt(x.averages, x.regrets, mid, vs, Player0, weight, k) <==>
        forall a: nat :: k in mid && a < |mid[k]| ==> Sound(x, mid, vs, weight, k, a)
    {
      SoundAt(x, mid, vs, weight, k);
    }
  }

  lemma SoundAt(x: Totals, mid: Store, vs: seq<Visit>, weight: real, k: Key)
    ensures CommittableAt(x.averages, x.regrets, mid, vs, Player0, weight, k) <==>
      forall a: nat :: k in mid && a < |mid[k]| ==> Sound(x, mid, vs, weight, k, a)
  {
    var n := if k in mid then |mid[k]| else 0;
    var s, d := SumsOf(x.averages, k, n), StrategySeq(x.regrets, vs, Player0, weight, k, n);
    forall a: nat | a < n ensures d[a] >= 0.0 && s[a] + d[a] >= 0.0 <==> Sound(x, mid, vs, weight, k, a) {
      SharesAreOwed(x.regrets, vs, weight, k, a);
    }
    if RegretMatching.Allowed(s, d) {
      forall a: nat | a < n ensures Sound(x, mid, vs, weight, k, a) {
        assert d[a] >= 0.0;
      }
    }
  }

  // The player at the seat takes in everything its histories are owed, and nothing else of what there was changes; with
  // clamping, no regret of an information set that was met is negative afterwards.
  lemma SeatLearns(x: Totals, game: Play.Tree, players: nat, seat: nat, weight: real, plus: bool, maxActions: nat)
    requires TrainSeat(x, game, players, seat, weight, plus, maxActions).status == Success
    ensures var vs := Visits(x.regrets, Root(SeenFrom(game, seat, players)));
      var x' := TrainSeat(x, game, players, seat, weight, plus, maxActions).totals;
      && (forall k :: k in KeysAt(vs, Player0) ==> k in x'.regrets)
      && (forall k, a: nat :: k in KeysAt(vs, Player0) && a < |x'.regrets[k]| ==>
            Learns(x, x', vs, weight, plus, k, a) && (plus ==> x'.regrets[k][a] >= 0.0))
      && (forall k :: k in x.regrets && k !in KeysAt(vs, Player0) ==> k in x'.regrets && x'.regrets[k] == x.regrets[k])
      && (forall k :: k in x'.regrets && k !in x.regrets && k !in KeysAt(vs, Player0) ==>
            forall a :: 0 <= a < |x'.regrets[k]| ==> x'.regrets[k][a] == 0.0)
      && (forall k :: k !in KeysAt(vs, Player0) ==>
            (k in x'.averages <==> k in x.averages) && (k in x.averages ==> x'.averages[k] == x.averages[k]))
  {
    var t := SeenFrom(game, seat, players);
    var mid, vs := Touch(x.regrets, t, maxActions).store, Visits(x.regrets, Root(t));
    TouchKeeps(x.regrets, t, maxActions);
    TouchPlays(x.regrets, Root(t), x.regrets, maxActions);
    StepLearns(x, mid, vs, weight, plus);
  }

  lemma StepLearns(x: Totals, mid: Store, vs: seq<Visit>, weight: real, plus: bool)
    requires Kept(x.regrets, mid) && AllPlayed(mid, vs)
    ensures var x' := Totals(RegretsAfter(x.regrets, mid, vs, Player0, weight, plus),
                             AveragesAfter(x.averages, x.regrets, mid, vs, Player0, weight));
      && (forall k :: k in KeysAt(vs, Player0) ==> k in x'.regrets)
      && (forall k, a: nat :: k in KeysAt(vs, Player0) && a < |x'.regrets[k]| ==>
            Learns(x, x', vs, weight, plus, k, a) && (plus ==> x'.regrets[k][a] >= 0.0))
  {
    var x' := Totals(RegretsAfter(x.regrets, mid, vs, Player0, weight, plus),
                     AveragesAfter(x.averages, x.regrets, mid, vs, Player0, weight));
    forall k | k in KeysAt(vs, Player0) ensures k in mid {
      var i: nat :| i < |vs| && Moves(vs[i].tree, Player0) && vs[i].tree.key == k;
      assert PlayedAt(mid, vs[i].tree);
    }
    forall k, a: nat | k in KeysAt(vs, Player0) && a < |x'.regrets[k]|
      ensures Learns(x, x', vs, weight, plus, k, a) && (plus ==> x'.regrets[k][a] >= 0.0)
    {
      RegretLearned(x, mid, vs, weight, plus, k, a);
      AverageLearned(x, mid, vs, weight, k, a);
    }
  }

  // ---- When a traversal meets no error ----

  // The node of a position: some but not too many actions, a distribution at a chance node, and as many actions as the
  // information set has had so far at a decision.
  ghost predicate Passable(store: Store, maxActions: nat, t: Tree) {
    t.Leaf? ||
    (&& 0 < |t.branches| <= maxActions
     && (t.Nature? ==>
           && (forall a :: 0 <= a < |t.branches| ==> t.branches[a].probability >= 0.0)
           && NearOne(Sum((a: nat) => if a < |t.branches| then t.branches[a].probability else 0.0, 0, |t.branches|)))
     && (t.Turn? && t.key in store ==> |store[t.key]| == |t.branches|))
  }

  ghost predicate SameCount(t: Tree, u: Tree) {
    t.Turn? && u.Turn? && t.key == u.key ==> |t.branches| == |u.branches|
  }

  ghost predicate AllPassable(store: Store, maxActions: nat, vs: seq<Visit>) {
    && (forall i :: 0 <= i < |vs| ==> Passable(store, maxActions, vs[i].tree))
    && (forall i, j :: 0 <= i < |vs| && 0 <= j < |vs| ==> SameCount(vs[i].tree, vs[j].tree))
  }

  lemma ChanceIsNear(bs: seq<Branch>)
    ensures ChanceIsOk(bs) <==>
      && (forall a :: 0 <= a < |bs| ==> bs[a].probability >= 0.0)
      && NearOne(Sum((a: nat) => if a < |bs| then bs[a].probability else 0.0, 0, |bs|))
  {
    NearOneSum(Sum(Probabilities(bs), 0, |bs|));
    SumExt(Probabilities(bs), (a: nat) => if a < |bs| then bs[a].probability else 0.0, 0, |bs|);
  }

  // store gives no information set another number of actions than the positions do.
  ghost predicate Fits(store: Store, all: seq<Visit>) {
    forall i :: 0 <= i < |all| ==> (all[i].tree.Turn? && all[i].tree.key in store ==> |store[all[i].tree.key]| == |all[i].tree.branches|)
  }

  // vs are among all.
  ghost predicate Among(vs: seq<Visit>, all: seq<Visit>) {
    forall i :: 0 <= i < |vs| ==> vs[i] in all
  }

  lemma EnterPasses(store0: Store, store: Store, all: seq<Visit>, maxActions: nat, v: Visit)
    requires AllPassable(store0, maxActions, all) && Fits(store, all) && v in all && !v.tree.Leaf?
    ensures Enter(store, v.tree).status == Success && Fits(Enter(store, v.tree).store, all)
    ensures 0 < |v.tree.branches| <= maxActions
  {
    var i: nat :| i < |all| && all[i] == v;
    assert Passable(store0, maxActions, all[i].tree);
    if v.tree.Nature? {
      ChanceIsNear(v.tree.branches);
    } else {
      var after := Enter(store, v.tree).store;
      forall j | 0 <= j < |all| && all[j].tree.Turn? && all[j].tree.key in after
        ensures |after[all[j].tree.key]| == |all[j].tree.branches|
      {
        assert SameCount(all[i].tree, all[j].tree);
      }
    }
  }

  lemma {:induction false} TouchPasses(store0: Store, store: Store, all: seq<Visit>, maxActions: nat, v: Visit, before: Store)
    requires AllPassable(store0, maxActions, all) && Fits(store, all) && Among(Visits(before, v), all)
    ensures Touch(store, v.tree, maxActions).status == Success && Fits(Touch(store, v.tree, maxActions).store, all)
    decreases v.tree, |Branches(v.tree)| + 1
  {
    var vs := Visits(before, v);
    assert vs[0] in all;
    if !v.tree.Leaf? {
      EnterPasses(store0, store, all, maxActions, v);
      var n := |Branches(v.tree)|;
      forall i | 0 <= i < |VisitsBefore(before, v, n)| ensures VisitsBefore(before, v, n)[i] in all {
        assert VisitsBefore(before, v, n)[i] == vs[i + 1];
      }
      TouchBeforePasses(store0, Enter(store, v.tree).store, all, maxActions, v, n, before);
    }
  }

  lemma {:induction false} TouchBeforePasses(store0: Store, store: Store, all: seq<Visit>, maxActions: nat, v: Visit, n: nat, before: Store)
    requires n <= |Branches(v.tree)|
    requires AllPassable(store0, maxActions, all) && Fits(store, all) && Among(VisitsBefore(before, v, n), all)
    ensures TouchBefore(store, v.tree, n, maxActions).status == Success && Fits(TouchBefore(store, v.tree, n, maxActions).store, all)
    decreases v.tree, n
  {
    if n > 0 {
      var vs, front, back := VisitsBefore(before, v, n), VisitsBefore(before, v, n - 1), Visits(before, Child(before, v, n - 1));
      forall i | 0 <= i < |front| ensures front[i] in all {
        assert front[i] == vs[i];
      }
      forall i | 0 <= i < |back| ensures back[i] in all {
        assert back[i] == vs[|front| + i];
      }
      TouchBeforePasses(store0, store, all, maxActions, v, n - 1, before);
      TouchPasses(store0, TouchBefore(store, v.tree, n - 1, maxActions).store, all, maxActions, Child(before, v, n - 1), before);
    }
  }

  // What a walk without an error has shown of the positions, apart from the numbers of actions of information sets.
  ghost predicate Shown(maxActions: nat, vs: seq<Visit>) {
    forall i :: 0 <= i < |vs| && !vs[i].tree.Leaf? ==>
      0 < |vs[i].tree.branches| <= maxActions && (vs[i].tree.Nature? ==> ChanceIsOk(vs[i].tree.branches))
  }

  lemma {:induction false} TouchShows(store: Store, maxActions: nat, v: Visit, before: Store)
    requires Touch(store, v.tree, maxActions).status == Success
    ensures Shown(maxActions, Visits(before, v))
    decreases v.tree, |Branches(v.tree)| + 1
  {
    if !v.tree.Leaf? {
      TouchBeforeShows(Enter(store, v.tree).store, maxActions, v, |Branches(v.tree)|, before);
    }
  }

  lemma {:induction false} TouchBeforeShows(store: Store, maxActions: nat, v: Visit, n: nat, before: Store)
    requires n <= |Branches(v.tree)| && TouchBefore(store, v.tree, n, maxActions).status == Success
    ensures Shown(maxActions, VisitsBefore(before, v, n))
    decreases v.tree, n
  {
    if n > 0 {
      TouchBeforeShows(store, maxActions, v, n - 1, before);
      TouchShows(TouchBefore(store, v.tree, n - 1, maxActions).store, maxActions, Child(before, v, n - 1), before);
    }
  }

  // The walk meets no error exactly when every position is passable and each information set has one number of actions.
  lemma WalkSucceedsIff(store: Store, t: Tree, maxActions: nat)
    ensures Touch(store, t, maxActions).status == Success <==> AllPassable(store, maxActions, Visits(store, Root(t)))
  {
    var vs := Visits(store, Root(t));
    if AllPassable(store, maxActions, vs) {
      forall i | 0 <= i < |vs| && vs[i].tree.Turn? && vs[i].tree.key in store
        ensures |store[vs[i].tree.key]| == |vs[i].tree.branches|
      {
        assert Passable(store, maxActions, vs[i].tree);
      }
      TouchPasses(store, store, vs, maxActions, Root(t), store);
    }
    if Touch(store, t, maxActions).status == Success {
      TouchShows(store, maxActions, Root(t), store);
      TouchPlays(store, Root(t), store, maxActions);
      TouchKeeps(store, t, maxActions);
      ShownIsPassable(store, Touch(store, t, maxActions).store, maxActions, vs);
    }
  }

  lemma ShownIsPassable(store: Store, after: Store, maxActions: nat, vs: seq<Visit>)
    requires Shown(maxActions, vs) && AllPlayed(after, vs) && Kept(store, after)
    ensures AllPassable(store, maxActions, vs)
  {
    forall i | 0 <= i < |vs| ensures Passable(store, maxActions, vs[i].tree) {
      assert PlayedAt(after, vs[i].tree);
      if vs[i].tree.Nature? {
        ChanceIsNear(vs[i].tree.branches);
      }
    }
    forall i, j | 0 <= i < |vs| && 0 <= j < |vs| ensures SameCount(vs[i].tree, vs[j].tree) {
      assert PlayedAt(after, vs[i].tree) && PlayedAt(after, vs[j].tree);
    }
  }

  // A step succeeds exactly when there is such a seat, the weight is positive, the walk meets no error, and no strategy
  // sum takes in, or becomes, something negative.
  lemma SeatSucceedsIff(x: Totals, game: Play.Tree, players: nat, seat: nat, weight: real, plus: bool, maxActions: nat)
    ensures var vs := Visits(x.regrets, Root(SeenFrom(game, seat, players)));
      TrainSeat(x, game, players, seat, weight, plus, maxActions).status == Success <==>
      && 1 <= players <= 4 && seat < (if players == 1 then 2 else players) && 1 <= maxActions <= 64 && weight > 0.0
      && AllPassable(x.regrets, maxActions, vs)
      && var mid := Touch(x.regrets, SeenFrom(game, seat, players), maxActions).store;
         forall k, a: nat :: k in KeysAt(vs, Player0) && k in mid && a < |mid[k]| ==> Sound(x, mid, vs, weight, k, a)
  {
    var t := SeenFrom(game, seat, players);
    WalkSucceedsIff(x.regrets, t, maxActions);
    CommittableIsSound(x, Touch(x.regrets, t, maxActions).store, Visits(x.regrets, Root(t)), weight);
  }
}
