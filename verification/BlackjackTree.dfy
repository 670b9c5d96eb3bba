// Blackjack as a game tree: what the full traversal makes of it is what the compacted game is trained with.
module BlackjackTree {
  import opened Sums
  import opened BlackjackRules
  import opened CompactTraining
  import Blackjack
  import CompactGraph
  import BestResponse
  import GameTree
  import Layout
  import Construction
  import Traversal
  import Checkpoint
  import Trainer
  import Training
  import Play

  // ---- The tree ----

  // Everything that can follow a position. Only the player decides anything; the second seat looks on, and wins what
  // the player loses. Actions are numbered as they are listed.
  ghost function PlayOf(p: Position): Play.Tree
    requires Reachable(p) && p.active < |p.hands|
    decreases Worth(p), 100, 0
  {
    ReachableWorth(p);
    if p.phase == Terminal then Play.End((seat: nat) => UtilityOf(p, seat)) else
      var branches := seq(ActionCount(p), (i: nat) requires i < ActionCount(p) => BranchAt(p, i));
      if p.phase == PlayerTurn then Play.Move(0, InformationKey(p), branches) else Play.Chance(branches)
  }

  function UtilityOf(p: Position, seat: nat): real {
    if seat == 0 then Utility(p) else -Utility(p)
  }

  ghost function BranchAt(p: Position, i: nat): Play.Branch
    requires Reachable(p) && p.active < |p.hands| && i < ActionCount(p)
    decreases Worth(p), i, 1
  {
    ChildReachable(p, i);
    Play.Branch(i, CompactGraph.ProbabilityOf(p, i), PlayOf(ChildOf(p, i)))
  }

  // What the player sees of it.
  ghost function TreeOf(p: Position): GameTree.Tree
    requires Reachable(p) && p.active < |p.hands|
  {
    Traversal.SeenFrom(PlayOf(p), 0, 1)
  }

  lemma PlayBranches(p: Position, i: nat)
    requires Reachable(p) && p.active < |p.hands| && p.phase != Terminal
    ensures !PlayOf(p).End? && |PlayOf(p).branches| == ActionCount(p)
    ensures i < ActionCount(p) ==> PlayOf(p).branches[i] == BranchAt(p, i)
  {
  }

  // The tree's branches are the actions.
  lemma TreeBranches(p: Position, i: nat)
    requires Reachable(p) && p.active < |p.hands|
    ensures |GameTree.Branches(TreeOf(p))| == ActionCount(p)
    ensures i < ActionCount(p) ==>
      Reachable(ChildOf(p, i)) && ChildOf(p, i).active < |ChildOf(p, i).hands|
      && GameTree.Branches(TreeOf(p))[i] == GameTree.Branch(i, CompactGraph.ProbabilityOf(p, i), TreeOf(ChildOf(p, i)))
  {
    if p.phase != Terminal {
      PlayBranches(p, i);
      if i < ActionCount(p) {
        ChildReachable(p, i);
        Traversal.BranchSeen(PlayOf(p), 0, 1, i);
      }
    }
  }

  // The tree of a position; quantified so that proofs look inside only where they name the position's tree.
  ghost predicate Mirrors(t: GameTree.Tree, p: Position) {
    Reachable(p) && p.active < |p.hands| && forall q: Position :: q == p ==> IsTreeOf(t, q)
  }

  ghost predicate IsTreeOf(t: GameTree.Tree, p: Position) {
    Reachable(p) && p.active < |p.hands| && t == TreeOf(p)
  }

  // What a position of each kind looks like in the tree.
  lemma MirrorKind(t: GameTree.Tree, p: Position)
    requires Mirrors(t, p)
    ensures |GameTree.Branches(t)| == ActionCount(p)
    ensures p.phase == Terminal ==> t == GameTree.Leaf(Utility(p), 0.0)
    ensures p.phase == PlayerTurn ==> t.Turn? && t.player == BestResponse.Player0 && t.key == InformationKey(p)
    ensures p.phase != PlayerTurn && p.phase != Terminal ==> t.Nature?
  {
    assert IsTreeOf(t, p);
    TreeBranches(p, 0);
  }

  lemma MirrorChild(t: GameTree.Tree, p: Position, i: nat)
    requires Mirrors(t, p) && i < ActionCount(p)
    ensures i < |GameTree.Branches(t)| && Mirrors(t.branches[i].next, ChildOf(p, i))
    ensures t.branches[i].probability == CompactGraph.ProbabilityOf(p, i)
    ensures Reachable(p) && 0 <= Worth(ChildOf(p, i)) < Worth(p)
  {
    assert IsTreeOf(t, p);
    ChildReachable(p, i);
    TreeBranches(p, i);
  }

  // ---- Blackjack's own callbacks play it ----

  // A position and the entries its undo history holds.
  datatype Dealt = Dealt(position: Position, undo: seq<Blackjack.Entry>)

  function Callbacks(): Play.Rules<Dealt> {
    Play.Rules(
      1,
      (s: Dealt) => s.position.phase == Terminal,
      (s: Dealt, seat: nat) => UtilityOf(s.position, seat),
      (s: Dealt) => if s.position.phase == PlayerTurn then Play.ByPlayer(0) else Play.ByChance,
      (s: Dealt) => if s.position.active < |s.position.hands| then seq(ActionCount(s.position), (i: nat) => i) else [],
      (s: Dealt, i: int) => if Offered(s.position, i) then CompactGraph.ProbabilityOf(s.position, i) else 0.0,
      (s: Dealt) => if s.position.active < |s.position.hands| then InformationKey(s.position) else 0,
      (s: Dealt, i: int) => Applied(s, i),
      (s: Dealt) => TakenBack(s))
  }

  predicate Offered(p: Position, i: int) {
    p.active < |p.hands| && 0 <= i < ActionCount(p)
  }

  function Applied(s: Dealt, i: int): Dealt {
    if !Offered(s.position, i) then s else
      Dealt(ChildOf(s.position, i), s.undo + [Blackjack.EntryOf(s.position, ActionAt(s.position, i))])
  }

  function TakenBack(s: Dealt): Dealt {
    if s.undo == [] then s else
      var e := s.undo[|s.undo| - 1];
      var front := s.undo[..|s.undo| - 1];
      if e.active < |s.position.hands| && (e.phase == PlayerTurn && e.action.Split? ==> e.active + 1 < |s.position.hands|)
      then Dealt(Blackjack.Undone(s.position, e), front) else Dealt(s.position, front)
  }

  lemma BackAgain(s: Dealt, i: nat)
    requires Reachable(s.position) && Offered(s.position, i)
    ensures TakenBack(Applied(s, i)) == s
  {
    var p, a := s.position, ActionAt(s.position, i);
    ChildReachable(p, i);
    Blackjack.UndoInverts(p, a);
    assert (s.undo + [Blackjack.EntryOf(p, a)])[..|s.undo|] == s.undo;
  }

  // So what can follow a dealt state is what can follow its position: the traversal by apply and undo applies.
  lemma {:induction false} DealtUnfolds(s: Dealt)
    requires Reachable(s.position) && s.position.active < |s.position.hands|
    ensures Play.Unfolds(Callbacks(), s, PlayOf(s.position))
    decreases Worth(s.position)
  {
    var p := s.position;
    ReachableWorth(p);
    if p.phase != Terminal {
      PlayBranches(p, 0);
      forall i: nat | i < ActionCount(p) ensures Play.FollowsAt(Callbacks(), s, PlayOf(p), i) {
        ActionFollows(s, i);
      }
    }
  }

  lemma {:induction false} ActionFollows(s: Dealt, i: nat)
    requires Reachable(s.position) && Offered(s.position, i) && s.position.phase != Terminal
    ensures !PlayOf(s.position).End? && i < |PlayOf(s.position).branches|
    ensures Play.FollowsAt(Callbacks(), s, PlayOf(s.position), i)
    decreases Worth(s.position), 0
  {
    var p := s.position;
    ReachableWorth(p);
    ChildReachable(p, i);
    PlayBranches(p, i);
    BackAgain(s, i);
    DealtUnfolds(Applied(s, i));
  }

  // ---- Strategies and values ----

  function RegretsOf(x: Learned): GameTree.Store {
    map k | k in x :: x[k].regrets
  }

  function AveragesOf(x: Learned): GameTree.Store {
    map k | k in x :: x[k].averages
  }

  function TotalsOf(x: Learned): Traversal.Totals {
    Traversal.Totals(RegretsOf(x), AveragesOf(x))
  }

  // The probability of an action in the tree is its weight in the round.
  lemma OddsAre(x: Learned, t: GameTree.Tree, p: Position, i: nat)
    requires Fits(x) && Mirrors(t, p) && i < ActionCount(p)
    ensures i < |GameTree.Branches(t)| && GameTree.Odds(RegretsOf(x), t, i) == Playing(PolicyOf(x))(p, i)
  {
    MirrorKind(t, p);
    MirrorChild(t, p, i);
    if p.phase == PlayerTurn {
      assert Decision(p) && FitsAt(x, p);
    }
  }

  // The traversal's utility is the value of the round.
  lemma {:induction false} UtilityIs(x: Learned, t: GameTree.Tree, p: Position)
    requires Fits(x) && Mirrors(t, p)
    ensures GameTree.ProfileUtility(RegretsOf(x), t, BestResponse.Player0) == Fold(p, Playing(PolicyOf(x)), Payment())
    decreases Worth(p), 100
  {
    ReachableWorth(p);
    MirrorKind(t, p);
    UtilityBefore(x, t, p, ActionCount(p));
  }

  lemma {:induction false} UtilityBefore(x: Learned, t: GameTree.Tree, p: Position, n: nat)
    requires Fits(x) && Mirrors(t, p) && n <= ActionCount(p)
    ensures n <= |GameTree.Branches(t)|
    ensures GameTree.ProfileBefore(RegretsOf(x), t, BestResponse.Player0, n) == FoldOver(p, Playing(PolicyOf(x)), Payment(), n)
    decreases Worth(p), n
  {
    ReachableWorth(p);
    MirrorKind(t, p);
    if n > 0 {
      UtilityBefore(x, t, p, n - 1);
      UtilityThrough(x, t, p, n - 1);
      BranchAdds(RegretsOf(x), t, n);
      TermAdds(p, Playing(PolicyOf(x)), Payment(), n);
    }
  }

  lemma TermAdds(p: Position, w: Weights, f: Measure, n: nat)
    requires Reachable(p) && p.active < |p.hands| && 0 < n <= ActionCount(p)
    ensures FoldOver(p, w, f, n) == FoldOver(p, w, f, n - 1) + Term(p, w, f, n - 1)
  {
  }

  // What a branch adds to the utility.
  function BranchUtility(store: GameTree.Store, t: GameTree.Tree, i: nat): real
    requires i < |GameTree.Branches(t)|
  {
    Times(GameTree.Odds(store, t, i), GameTree.ProfileUtility(store, t.branches[i].next, BestResponse.Player0))
  }

  lemma BranchAdds(store: GameTree.Store, t: GameTree.Tree, n: nat)
    requires 0 < n <= |GameTree.Branches(t)|
    ensures GameTree.ProfileBefore(store, t, BestResponse.Player0, n)
         == GameTree.ProfileBefore(store, t, BestResponse.Player0, n - 1) + BranchUtility(store, t, n - 1)
  {
  }

  lemma {:induction false} UtilityThrough(x: Learned, t: GameTree.Tree, p: Position, i: nat)
    requires Fits(x) && Mirrors(t, p) && i < ActionCount(p)
    ensures i < |GameTree.Branches(t)| && BranchUtility(RegretsOf(x), t, i) == Term(p, Playing(PolicyOf(x)), Payment(), i)
    decreases Worth(p), i
  {
    ReachableWorth(p);
    MirrorChild(t, p, i);
    OddsAre(x, t, p, i);
    UtilityIs(x, t.branches[i].next, ChildOf(p, i));
  }

  // ---- What the traversal adds up ----

  function Scale(which: Traversal.Which, weight: real): real {
    if which.Regret? then 1.0 else weight
  }

  // Chance alone weighs regrets, the player alone its strategies.
  function WeightsFor(x: Learned, which: Traversal.Which): Weights {
    if which.Regret? then CompactGraph.ChanceWeights() else CompactGraph.OwnWeights(PolicyOf(x))
  }

  ghost function MeasureFor(x: Learned, which: Traversal.Which, key: int, a: nat): Measure {
    if which.Regret? then CompactGraph.RegretMeasure(PolicyOf(x), key, a) else CompactGraph.StrategyMeasure(PolicyOf(x), key, a)
  }

  function ReachOf(v: GameTree.Visit, which: Traversal.Which): real {
    if which.Regret? then Traversal.External(v, BestResponse.Player0) else Traversal.OwnReach(v, BestResponse.Player0)
  }

  function ShareAt(x: Learned, v: GameTree.Visit, which: Traversal.Which, weight: real, key: int, a: nat): real {
    Traversal.Share(RegretsOf(x), v, BestResponse.Player0, which, weight, key, a)
  }

  function SharesAt(x: Learned, vs: seq<GameTree.Visit>, which: Traversal.Which, weight: real, key: int, a: nat): real {
    Traversal.Shares(RegretsOf(x), vs, BestResponse.Player0, which, weight, key, a)
  }

  lemma GainIs(x: Learned, t: GameTree.Tree, p: Position, a: nat)
    requires Fits(x) && Mirrors(t, p) && p.phase == PlayerTurn && a < ActionCount(p)
    ensures a < |GameTree.Branches(t)|
    ensures Traversal.Gain(RegretsOf(x), t, BestResponse.Player0, a)
         == CompactGraph.RegretMeasure(PolicyOf(x), InformationKey(p), a)(p)
  {
    MirrorChild(t, p, a);
    UtilityIs(x, t, p);
    UtilityIs(x, t.branches[a].next, ChildOf(p, a));
  }

  lemma RegretShare(x: Learned, v: GameTree.Visit, p: Position, weight: real, key: int, a: nat)
    requires Fits(x) && Mirrors(v.tree, p)
    ensures ShareAt(x, v, Traversal.Regret, weight, key, a)
         == Times(ReachOf(v, Traversal.Regret), MeasureFor(x, Traversal.Regret, key, a)(p))
  {
    MirrorKind(v.tree, p);
    TimesZero(ReachOf(v, Traversal.Regret));
    if p.phase == PlayerTurn && a < ActionCount(p) && key == InformationKey(p) {
      GainIs(x, v.tree, p, a);
    }
  }

  lemma StrategyShare(x: Learned, v: GameTree.Visit, p: Position, weight: real, key: int, a: nat)
    requires Fits(x) && Mirrors(v.tree, p)
    ensures ShareAt(x, v, Traversal.Strategy, weight, key, a)
         == Times(weight, Times(ReachOf(v, Traversal.Strategy), MeasureFor(x, Traversal.Strategy, key, a)(p)))
  {
    MirrorKind(v.tree, p);
    TimesZero(ReachOf(v, Traversal.Strategy));
    TimesZero(weight);
    if p.phase == PlayerTurn && key == InformationKey(p) {
      assert Decision(p) && FitsAt(x, p);
      if a < ActionCount(p) {
        OddsAre(x, v.tree, p, a);
        Swap(Times(ReachOf(v, Traversal.Strategy), PolicyOf(x)(key, a)), weight);
      }
    }
  }

  lemma Swap(a: real, b: real)
    ensures Times(a, b) == Times(b, a)
  {
  }

  // One history's share.
  lemma ShareHere(x: Learned, v: GameTree.Visit, p: Position, which: Traversal.Which, weight: real, key: int, a: nat)
    requires Fits(x) && Mirrors(v.tree, p)
    ensures ShareAt(x, v, which, weight, key, a)
         == Times(Scale(which, weight), Times(ReachOf(v, which), MeasureFor(x, which, key, a)(p)))
  {
    if which.Regret? {
      RegretShare(x, v, p, weight, key, a);
      TimesOne(Times(ReachOf(v, which), MeasureFor(x, which, key, a)(p)));
    } else {
      StrategyShare(x, v, p, weight, key, a);
    }
  }

  lemma ReachBelowIs(t: GameTree.Tree, reach: real, p: real)
    ensures GameTree.ReachBelow(t, BestResponse.Player0, reach, p)
         == if GameTree.Moves(t, BestResponse.Player0) then reach else Times(reach, p)
    ensures GameTree.OwnBelow(t, BestResponse.Player0, reach, p)
         == if GameTree.Moves(t, BestResponse.Player0) then Times(reach, p) else reach
  {
  }

  // The weight that regrets or strategies take from an action.
  lemma WeightIs(x: Learned, t: GameTree.Tree, p: Position, which: Traversal.Which, i: nat)
    requires Fits(x) && Mirrors(t, p) && i < ActionCount(p)
    ensures i < |GameTree.Branches(t)|
    ensures WeightsFor(x, which)(p, i)
         == if GameTree.Moves(t, BestResponse.Player0) == which.Strategy? then GameTree.Odds(RegretsOf(x), t, i) else 1.0
  {
    MirrorKind(t, p);
    MirrorChild(t, p, i);
    OddsAre(x, t, p, i);
  }

  lemma ReachThrough(x: Learned, v: GameTree.Visit, p: Position, which: Traversal.Which, i: nat)
    requires Fits(x) && Mirrors(v.tree, p) && i < ActionCount(p)
    ensures i < |GameTree.Branches(v.tree)|
    ensures ReachOf(GameTree.Child(RegretsOf(x), v, i), which) == Times(ReachOf(v, which), WeightsFor(x, which)(p, i))
  {
    MirrorKind(v.tree, p);
    WeightIs(x, v.tree, p, which, i);
    TimesByOne(ReachOf(v, which));
    var odds := GameTree.Odds(RegretsOf(x), v.tree, i);
    Traversal.ChildReachIs(v.tree, i, BestResponse.Player0, odds, v, RegretsOf(x));
    ReachBelowIs(v.tree, ReachOf(v, which), odds);
  }

  // The shares of all histories below a position are the walk that carries the reach down.
  lemma {:induction false} SharesAre(x: Learned, v: GameTree.Visit, p: Position, which: Traversal.Which, weight: real, key: int, a: nat)
    requires Fits(x) && Mirrors(v.tree, p)
    ensures SharesAt(x, GameTree.Visits(RegretsOf(x), v), which, weight, key, a)
         == Times(Scale(which, weight), Traverse(p, WeightsFor(x, which), MeasureFor(x, which, key, a), ReachOf(v, which)))
    decreases Worth(p), 100
  {
    ReachableWorth(p);
    MirrorKind(v.tree, p);
    var w, f, y := WeightsFor(x, which), MeasureFor(x, which, key, a), ReachOf(v, which);
    Traversal.SharesOfVisits(RegretsOf(x), v, BestResponse.Player0, which, weight, key, a);
    ShareHere(x, v, p, which, weight, key, a);
    SharesBefore(x, v, p, which, weight, key, a);
    TimesSum(Scale(which, weight), Times(y, f(p)), TraverseOver(p, w, f, y, ActionCount(p)), Traverse(p, w, f, y),
             ShareAt(x, v, which, weight, key, a),
             SharesAt(x, GameTree.VisitsBefore(RegretsOf(x), v, ActionCount(p)), which, weight, key, a));
  }

  // The first n branches, added up in both ways.
  ghost predicate AddedAlike(x: Learned, v: GameTree.Visit, p: Position, which: Traversal.Which, weight: real, key: int, a: nat, n: nat)
    requires Reachable(p) && p.active < |p.hands| && n <= ActionCount(p) && n <= |GameTree.Branches(v.tree)|
  {
    SharesAt(x, GameTree.VisitsBefore(RegretsOf(x), v, n), which, weight, key, a)
      == Times(Scale(which, weight), TraverseOver(p, WeightsFor(x, which), MeasureFor(x, which, key, a), ReachOf(v, which), n))
  }

  lemma {:induction false} SharesBefore(x: Learned, v: GameTree.Visit, p: Position, which: Traversal.Which, weight: real,
                                        key: int, a: nat)
    requires Fits(x) && Mirrors(v.tree, p)
    ensures |GameTree.Branches(v.tree)| == ActionCount(p) && AddedAlike(x, v, p, which, weight, key, a, ActionCount(p))
    decreases Worth(p), 99
  {
    ReachableWorth(p);
    MirrorKind(v.tree, p);
    NoShares(x, v, p, which, weight, key, a);
    for i := 0 to ActionCount(p)
      invariant AddedAlike(x, v, p, which, weight, key, a, i)
    {
      SharesThrough(x, v, p, which, weight, key, a, i);
    }
  }

  lemma NoShares(x: Learned, v: GameTree.Visit, p: Position, which: Traversal.Which, weight: real, key: int, a: nat)
    requires Reachable(p) && p.active < |p.hands|
    ensures AddedAlike(x, v, p, which, weight, key, a, 0)
  {
    TimesZero(Scale(which, weight));
  }

  lemma {:induction false} SharesThrough(x: Learned, v: GameTree.Visit, p: Position, which: Traversal.Which, weight: real,
                                         key: int, a: nat, i: nat)
    requires Fits(x) && Mirrors(v.tree, p) && i < ActionCount(p) == |GameTree.Branches(v.tree)|
    requires AddedAlike(x, v, p, which, weight, key, a, i)
    ensures AddedAlike(x, v, p, which, weight, key, a, i + 1)
    decreases Worth(p), i
  {
    var w, f, y := WeightsFor(x, which), MeasureFor(x, which, key, a), ReachOf(v, which);
    var child := GameTree.Child(RegretsOf(x), v, i);
    ReachableWorth(p);
    MirrorChild(v.tree, p, i);
    ChildReachable(p, i);
    ReachThrough(x, v, p, which, i);
    SharesAre(x, child, ChildOf(p, i), which, weight, key, a);
    Traversal.SharesOfSum(RegretsOf(x), GameTree.VisitsBefore(RegretsOf(x), v, i), GameTree.Visits(RegretsOf(x), child),
                          BestResponse.Player0, which, weight, key, a);
    TimesSum(Scale(which, weight), TraverseOver(p, w, f, y, i), TraverseChild(p, w, f, y, i), TraverseOver(p, w, f, y, i + 1),
             SharesAt(x, GameTree.VisitsBefore(RegretsOf(x), v, i), which, weight, key, a),
             SharesAt(x, GameTree.Visits(RegretsOf(x), child), which, weight, key, a));
  }

  // ---- Which information sets it meets ----

  // A traversal creates no node when every decision has one.
  lemma {:induction false} TouchNothing(x: Learned, t: GameTree.Tree, p: Position, maxActions: nat)
    requires Fits(x) && Mirrors(t, p) && maxActions >= 10
    ensures Traversal.Touch(RegretsOf(x), t, maxActions) == Traversal.Touched(Construction.Success, RegretsOf(x))
    decreases Worth(p), 100
  {
    ReachableWorth(p);
    MirrorKind(t, p);
    if p.phase != Terminal {
      EnterNothing(x, t, p);
      TouchNothingBefore(x, t, p, ActionCount(p), maxActions);
    }
  }

  lemma {:induction false} TouchNothingBefore(x: Learned, t: GameTree.Tree, p: Position, n: nat, maxActions: nat)
    requires Fits(x) && Mirrors(t, p) && maxActions >= 10 && n <= ActionCount(p)
    ensures n <= |GameTree.Branches(t)|
    ensures Traversal.TouchBefore(RegretsOf(x), t, n, maxActions) == Traversal.Touched(Construction.Success, RegretsOf(x))
    decreases Worth(p), n
  {
    ReachableWorth(p);
    MirrorKind(t, p);
    if n > 0 {
      TouchNothingBefore(x, t, p, n - 1, maxActions);
      MirrorChild(t, p, n - 1);
      TouchNothing(x, t.branches[n - 1].next, ChildOf(p, n - 1), maxActions);
    }
  }

  lemma EnterNothing(x: Learned, t: GameTree.Tree, p: Position)
    requires Fits(x) && Mirrors(t, p) && p.phase != Terminal
    ensures !t.Leaf? && Traversal.Enter(RegretsOf(x), t) == Traversal.Touched(Construction.Success, RegretsOf(x))
  {
    MirrorKind(t, p);
    if p.phase == PlayerTurn {
      assert Decision(p) && FitsAt(x, p);
    } else {
      ChanceIsFair(t, p);
    }
  }

  lemma {:induction false} CardsBefore(t: GameTree.Tree, p: Position, n: nat)
    requires Mirrors(t, p) && p.phase != Terminal && p.phase != PlayerTurn && n <= 9
    ensures !t.Leaf? && |t.branches| == 10 && Sum(Construction.Probabilities(t.branches), 0, n) == n as real / 13.0
    decreases n
  {
    MirrorKind(t, p);
    if n > 0 {
      CardsBefore(t, p, n - 1);
      MirrorChild(t, p, n - 1);
    }
  }

  lemma ChanceIsFair(t: GameTree.Tree, p: Position)
    requires Mirrors(t, p) && p.phase != Terminal && p.phase != PlayerTurn
    ensures t.Nature? && Traversal.ChanceIsOk(t.branches)
  {
    MirrorKind(t, p);
    CardsBefore(t, p, 9);
    MirrorChild(t, p, 9);
    forall a: nat | a < 10 ensures t.branches[a].probability >= 0.0 {
      MirrorChild(t, p, a);
    }
  }

  lemma {:induction false} VisitsAreMet(x: Learned, v: GameTree.Visit, p: Position)
    requires Mirrors(v.tree, p)
    ensures forall key :: key in Traversal.KeysAt(GameTree.Visits(RegretsOf(x), v), BestResponse.Player0) ==> Met(key)
    decreases Worth(p), 100
  {
    MirrorKind(v.tree, p);
    ReachableWorth(p);
    VisitsBeforeAreMet(x, v, p, ActionCount(p));
    Traversal.KeysOfVisits(RegretsOf(x), v, BestResponse.Player0);
    if p.phase == PlayerTurn {
      assert Decision(p);
    }
  }

  lemma {:induction false} VisitsBeforeAreMet(x: Learned, v: GameTree.Visit, p: Position, n: nat)
    requires Mirrors(v.tree, p) && n <= ActionCount(p)
    ensures n <= |GameTree.Branches(v.tree)|
    ensures forall key :: key in Traversal.KeysAt(GameTree.VisitsBefore(RegretsOf(x), v, n), BestResponse.Player0) ==> Met(key)
    decreases Worth(p), n
  {
    MirrorKind(v.tree, p);
    ReachableWorth(p);
    if n > 0 {
      VisitsBeforeAreMet(x, v, p, n - 1);
      MirrorChild(v.tree, p, n - 1);
      var child := GameTree.Child(RegretsOf(x), v, n - 1);
      VisitsAreMet(x, child, ChildOf(p, n - 1));
      Traversal.KeysOfSum(GameTree.VisitsBefore(RegretsOf(x), v, n - 1), GameTree.Visits(RegretsOf(x), child), BestResponse.Player0);
    }
  }

  // A walk that visits a node visits its children.
  lemma {:induction false} ChildVisited(store: GameTree.Store, v: GameTree.Visit, u: GameTree.Visit, k: nat)
    requires u in GameTree.Visits(store, v) && k < |GameTree.Branches(u.tree)|
    ensures GameTree.Child(store, u, k) in GameTree.Visits(store, v)
    decreases v.tree, |GameTree.Branches(v.tree)| + 1
  {
    var n := |GameTree.Branches(v.tree)|;
    if u in GameTree.VisitsBefore(store, v, n) {
      ChildVisitedBefore(store, v, n, u, k);
    } else {
      OwnChild(store, v, n, k);
    }
  }

  lemma {:induction false} ChildVisitedBefore(store: GameTree.Store, v: GameTree.Visit, n: nat, u: GameTree.Visit, k: nat)
    requires n <= |GameTree.Branches(v.tree)| && u in GameTree.VisitsBefore(store, v, n) && k < |GameTree.Branches(u.tree)|
    ensures GameTree.Child(store, u, k) in GameTree.VisitsBefore(store, v, n)
    decreases v.tree, n
  {
    if u in GameTree.VisitsBefore(store, v, n - 1) {
      ChildVisitedBefore(store, v, n - 1, u, k);
    } else {
      ChildVisited(store, GameTree.Child(store, v, n - 1), u, k);
    }
  }

  lemma {:induction false} OwnChild(store: GameTree.Store, v: GameTree.Visit, n: nat, k: nat)
    requires k < n <= |GameTree.Branches(v.tree)|
    ensures GameTree.Child(store, v, k) in GameTree.VisitsBefore(store, v, n)
    decreases n
  {
    if k < n - 1 {
      OwnChild(store, v, n - 1, k);
    } else {
      assert GameTree.Visits(store, GameTree.Child(store, v, k))[0] == GameTree.Child(store, v, k);
    }
  }

  // The whole game.
  ghost function Game(): (t: GameTree.Tree)
    ensures Mirrors(t, INITIAL)
  {
    assert After([]) == Ok(INITIAL);
    TreeOf(INITIAL)
  }

  // The walk of the whole game visits every position that a round can reach.
  lemma {:induction false} PositionVisited(x: Learned, actions: seq<Action>) returns (u: GameTree.Visit)
    requires After(actions).Ok?
    ensures u in GameTree.Visits(RegretsOf(x), Layout.Root(Game())) && Mirrors(u.tree, After(actions).value)
    decreases |actions|
  {
    if actions == [] {
      u := Layout.Root(Game());
      assert GameTree.Visits(RegretsOf(x), u)[0] == u;
    } else {
      var front, a := actions[..|actions| - 1], actions[|actions| - 1];
      var before := PositionVisited(x, front);
      var p := After(front).value;
      var k := ActionIndex(front, a);
      MirrorChild(before.tree, p, k);
      u := GameTree.Child(RegretsOf(x), before, k);
      ChildVisited(RegretsOf(x), Layout.Root(Game()), before, k);
    }
  }

  lemma ActionIndex(actions: seq<Action>, a: Action) returns (k: nat)
    requires After(actions).Ok? && Advance(After(actions).value, a).Ok?
    ensures After(actions).value.active < |After(actions).value.hands| && k < ActionCount(After(actions).value)
    ensures ActionAt(After(actions).value, k) == a && ChildOf(After(actions).value, k) == Advance(After(actions).value, a).value
  {
    var p := After(actions).value;
    RoundsAreBounded(actions);
    AdvanceOk(p, a);
    ActionsAreLegal(p, a);
    k :| k < ActionCount(p) && ActionAt(p, k) == a;
  }

  // The walk's visits, for short.
  ghost function Walk(x: Learned): seq<GameTree.Visit> {
    GameTree.Visits(RegretsOf(x), Layout.Root(Game()))
  }

  lemma MetIsVisited(x: Learned, key: int)
    requires Met(key)
    ensures key in Traversal.KeysAt(Walk(x), BestResponse.Player0)
  {
    var p :| Decision(p) && InformationKey(p) == key;
    var actions :| After(actions) == Ok(p);
    var u := PositionVisited(x, actions);
    MirrorKind(u.tree, p);
    VisitHasKey(Walk(x), u);
  }

  lemma VisitHasKey(vs: seq<GameTree.Visit>, u: GameTree.Visit)
    requires u in vs && GameTree.Moves(u.tree, BestResponse.Player0)
    ensures u.tree.key in Traversal.KeysAt(vs, BestResponse.Player0)
  {
    var i: nat :| i < |vs| && vs[i] == u;
  }

  lemma KeysAreMet(x: Learned, key: int)
    ensures key in Traversal.KeysAt(Walk(x), BestResponse.Player0) <==> Met(key)
  {
    VisitsAreMet(x, Layout.Root(Game()), INITIAL);
    if Met(key) {
      MetIsVisited(x, key);
    }
  }

  // ---- Training on the compacted game is training on the tree ----

  lemma RegretsAreRaw(x: Learned, weight: real, key: int, n: nat)
    requires Fits(x)
    ensures Traversal.ShareSeq(RegretsOf(x), Walk(x), BestResponse.Player0, weight, key, n) == RegretChanges(x, key, n)
  {
    var root := Layout.Root(Game());
    forall a: nat | a < n
      ensures Traversal.ShareSeq(RegretsOf(x), Walk(x), BestResponse.Player0, weight, key, n)[a] == RegretChanges(x, key, n)[a]
    {
      SharesAre(x, root, INITIAL, Traversal.Regret, weight, key, a);
      TimesOne(CompactGraph.RawRegret(PolicyOf(x), key, a));
    }
  }

  lemma StrategiesAreRaw(x: Learned, weight: real, key: int, n: nat)
    requires Fits(x)
    ensures Traversal.StrategySeq(RegretsOf(x), Walk(x), BestResponse.Player0, weight, key, n) == StrategyChanges(x, key, weight, n)
  {
    var root := Layout.Root(Game());
    forall a: nat | a < n
      ensures Traversal.StrategySeq(RegretsOf(x), Walk(x), BestResponse.Player0, weight, key, n)[a]
           == StrategyChanges(x, key, weight, n)[a]
    {
      SharesAre(x, root, INITIAL, Traversal.Strategy, weight, key, a);
    }
  }

  ghost function RegretsWalked(x: Learned, weight: real, plus: bool): GameTree.Store {
    Traversal.RegretsAfter(RegretsOf(x), RegretsOf(x), Walk(x), BestResponse.Player0, weight, plus)
  }

  lemma RegretStep(x: Learned, number: nat, plus: bool, k: int)
    requires Sound(x) && Fits(x)
    ensures k in RegretsWalked(x, Weighing(number, plus), plus) <==> k in x
    ensures k in x ==> RegretsWalked(x, Weighing(number, plus), plus)[k] == RawStep(x, number, plus)[k].regrets
  {
    KeysAreMet(x, k);
    if k in x {
      RegretsAreRaw(x, Weighing(number, plus), k, |x[k].regrets|);
    }
  }

  lemma RegretsStep(x: Learned, number: nat, plus: bool)
    requires Sound(x) && Fits(x)
    ensures RegretsWalked(x, Weighing(number, plus), plus) == RegretsOf(RawStep(x, number, plus))
  {
    forall k
      ensures k in RegretsWalked(x, Weighing(number, plus), plus) <==> k in x
      ensures k in x ==> RegretsWalked(x, Weighing(number, plus), plus)[k] == RawStep(x, number, plus)[k].regrets
    {
      RegretStep(x, number, plus, k);
    }
    SameStore(RegretsWalked(x, Weighing(number, plus), plus), RegretsOf(RawStep(x, number, plus)));
  }

  lemma MetHasSums(x: Learned, k: int)
    requires Fits(x) && Met(k)
    ensures k in x
  {
    var p :| Decision(p) && InformationKey(p) == k;
    assert FitsAt(x, p);
  }

  ghost function AveragesWalked(x: Learned, weight: real): GameTree.Store {
    Traversal.AveragesAfter(AveragesOf(x), RegretsOf(x), RegretsOf(x), Walk(x), BestResponse.Player0, weight)
  }

  lemma AverageStep(x: Learned, number: nat, plus: bool, k: int)
    requires Sound(x) && Fits(x)
    ensures k in AveragesWalked(x, Weighing(number, plus)) <==> k in x
    ensures k in x ==> AveragesWalked(x, Weighing(number, plus))[k] == RawStep(x, number, plus)[k].averages
  {
    KeysAreMet(x, k);
    if Met(k) {
      MetHasSums(x, k);
    }
    if k in x {
      assert NodeSound(x[k]);
      StrategiesAreRaw(x, Weighing(number, plus), k, |x[k].regrets|);
    }
  }

  lemma AveragesStep(x: Learned, number: nat, plus: bool)
    requires Sound(x) && Fits(x)
    ensures AveragesWalked(x, Weighing(number, plus)) == AveragesOf(RawStep(x, number, plus))
  {
    forall k
      ensures k in AveragesWalked(x, Weighing(number, plus)) <==> k in x
      ensures k in x ==> AveragesWalked(x, Weighing(number, plus))[k] == RawStep(x, number, plus)[k].averages
    {
      AverageStep(x, number, plus, k);
    }
    SameStore(AveragesWalked(x, Weighing(number, plus)), AveragesOf(RawStep(x, number, plus)));
  }

  lemma SameStore(a: GameTree.Store, b: GameTree.Store)
    requires forall k :: k in a <==> k in b
    requires forall k :: k in a ==> a[k] == b[k]
    ensures a == b
  {
    assert forall k :: k in a.Keys <==> k in b.Keys;
    assert a.Keys == b.Keys;
    forall k | k in a ensures a[k] == b[k] {
    }
  }

  lemma AcceptedIsCommittable(x: Learned, number: nat, plus: bool)
    requires Sound(x) && Fits(x) && Accepts(x, number, plus)
    ensures Traversal.Committable(AveragesOf(x), RegretsOf(x), RegretsOf(x), Walk(x), BestResponse.Player0, Weighing(number, plus))
  {
    var weight := Weighing(number, plus);
    forall k | k in Traversal.KeysAt(Walk(x), BestResponse.Player0)
      ensures Traversal.CommittableAt(AveragesOf(x), RegretsOf(x), RegretsOf(x), Walk(x), BestResponse.Player0, weight, k)
    {
      KeysAreMet(x, k);
      MetHasSums(x, k);
      assert NodeSound(x[k]) && AcceptsAt(x, k, number, plus);
      StrategiesAreRaw(x, weight, k, |x[k].regrets|);
    }
  }

  // One iteration on the compacted game is one full traversal of blackjack's tree and its commit.
  lemma StepIsTraversal(x: Learned, number: nat, plus: bool, maxActions: nat)
    requires Sound(x) && Fits(x) && Accepts(x, number, plus) && number > 0 && maxActions >= 10
    ensures Weighing(number, plus) == Training.StrategyWeight(plus, number)
    ensures Traversal.Train(TotalsOf(x), Game(), BestResponse.Player0, Weighing(number, plus), plus, maxActions)
         == Traversal.Taught(Construction.Success, TotalsOf(RawStep(x, number, plus)))
  {
    TouchNothing(x, Game(), INITIAL, maxActions);
    AcceptedIsCommittable(x, number, plus);
    RegretsStep(x, number, plus);
    AveragesStep(x, number, plus);
  }

  // The game as the trainer has it: one player.
  ghost function Table(maxActions: nat): Training.Table {
    Training.Table(WholePlay(), 1, maxActions)
  }

  ghost function WholePlay(): Play.Tree {
    assert After([]) == Ok(INITIAL);
    PlayOf(INITIAL)
  }

  // A trainer about to traverse the game's tree, which holds what the compact trainer holds.
  ghost predicate Alike(s: Trainer.State<Traversal.Totals>, x: Learned, done: nat) {
    s.nodes == TotalsOf(x) && s.counters.training == done
  }

  lemma NextIsStep(x: Learned, done: nat, plus: bool)
    requires Sound(x) && RawNext(x, done, plus).status == Success
    ensures Fits(x) && Accepts(x, done + 1, plus) && done < SIZE_MAX
    ensures RawNext(x, done, plus).sums == RawStep(x, done + 1, plus) && RawNext(x, done, plus).iterations == done + 1
  {
  }

  lemma IterationIsTraversal(x: Learned, done: nat, plus: bool, maxActions: nat, s: Trainer.State<Traversal.Totals>)
    requires Sound(x) && Alike(s, x, done) && 10 <= maxActions <= Traversal.MAX_ACTIONS
    requires RawNext(x, done, plus).status == Success
    ensures var o := Trainer.Iteration(Training.FullStep(Table(maxActions), plus), s, 1);
      && o.status == Checkpoint.Success
      && Alike(o.state, RawNext(x, done, plus).sums, RawNext(x, done, plus).iterations)
  {
    NextIsStep(x, done, plus);
    StepIsDone(x, done, plus, maxActions, s.random);
    Training.SoloIteration(Training.FullStep(Table(maxActions), plus), s);
  }

  lemma StepIsDone(x: Learned, done: nat, plus: bool, maxActions: nat, random: nat)
    requires Sound(x) && Fits(x) && Accepts(x, done + 1, plus) && done < SIZE_MAX && 10 <= maxActions <= Traversal.MAX_ACTIONS
    ensures Trainer.Capped(done, 1) == done + 1
    ensures Training.FullStep(Table(maxActions), plus)(TotalsOf(x), random, 0, done + 1)
         == Trainer.Done(TotalsOf(RawStep(x, done + 1, plus)), random, GameTree.Size(Game()))
  {
    StepIsTraversal(x, done + 1, plus, maxActions);
    Training.FullDone(Table(maxActions), plus, TotalsOf(x), random, 0, done + 1, TotalsOf(RawStep(x, done + 1, plus)));
  }

  // Training on the compacted game, for any number of iterations, leaves the sums that the trainer leaves when it
  // traverses the whole uncompacted game.
  lemma {:induction false} CompactIsFull(x: Learned, done: nat, amount: nat, plus: bool, maxActions: nat,
                                         s: Trainer.State<Traversal.Totals>)
    requires Sound(x) && Alike(s, x, done) && 10 <= maxActions <= Traversal.MAX_ACTIONS
    requires RawTraining(x, done, amount, plus).status == Success
    ensures var o := Trainer.Run(Training.FullStep(Table(maxActions), plus), s, 1, amount);
      && o.status == Checkpoint.Success
      && Alike(o.state, RawTraining(x, done, amount, plus).sums, RawTraining(x, done, amount, plus).iterations)
    decreases amount
  {
    if amount > 0 {
      CompactIsFull(x, done, amount - 1, plus, maxActions, s);
      var before := RawTraining(x, done, amount - 1, plus);
      var between := Trainer.Run(Training.FullStep(Table(maxActions), plus), s, 1, amount - 1).state;
      IterationIsTraversal(before.sums, before.iterations, plus, maxActions, between);
    }
  }

  // ---- Training never fails ----

  ghost predicate SumsNonNegative(x: Learned) {
    forall k :: k in x ==> Training.NonNegative(x[k].averages)
  }

  lemma ChangesNonNegative(x: Learned, number: nat, plus: bool, k: int, n: nat)
    requires Fits(x)
    ensures Training.NonNegative(StrategyChanges(x, k, Weighing(number, plus), n))
  {
    var weight := Weighing(number, plus);
    Training.StrategiesNonNegative(RegretsOf(x), Game(), BestResponse.Player0, weight, k, n);
    StrategiesAreRaw(x, weight, k, n);
  }

  lemma StepKeepsFit(x: Learned, number: nat, plus: bool)
    requires Sound(x) && Fits(x)
    ensures Fits(RawStep(x, number, plus))
  {
    forall p | Decision(p) ensures FitsAt(RawStep(x, number, plus), p) {
      assert FitsAt(x, p);
    }
  }

  // An iteration on sums that are not negative is accepted, and leaves sums that are not negative.
  lemma StepIsAccepted(x: Learned, number: nat, plus: bool)
    requires Sound(x) && Fits(x) && SumsNonNegative(x)
    ensures Accepts(x, number, plus) && SumsNonNegative(RawStep(x, number, plus))
  {
    forall k | k in x
      ensures AcceptsAt(x, k, number, plus) && Training.NonNegative(RawStep(x, number, plus)[k].averages)
    {
      assert NodeSound(x[k]) && Training.NonNegative(x[k].averages);
      ChangesNonNegative(x, number, plus, k, |x[k].regrets|);
    }
  }

  ghost predicate Healthy(x: Learned) {
    Sound(x) && Fits(x) && SumsNonNegative(x)
  }

  lemma NextSucceeds(x: Learned, done: nat, plus: bool)
    requires Healthy(x) && done < SIZE_MAX
    ensures var o := RawNext(x, done, plus); o.status == Success && o.iterations == done + 1 && Healthy(o.sums)
  {
    StepIsAccepted(x, done + 1, plus);
    StepKeepsFit(x, done + 1, plus);
  }

  // So training from such sums succeeds for as long as the iterations can be counted.
  lemma TrainingSucceeds(x: Learned, done: nat, amount: nat, plus: bool)
    requires Healthy(x) && done + amount <= SIZE_MAX
    ensures var o := RawTraining(x, done, amount, plus); o.status == Success && o.iterations == done + amount && Healthy(o.sums)
  {
    var good := (y: Learned) => Healthy(y);
    forall y, d: nat | good(y) && d < SIZE_MAX ensures NextIsGood(good, y, d, plus) {
      NextSucceeds(y, d, plus);
    }
    TrainsWhile(good, x, done, amount, plus);
  }
}
