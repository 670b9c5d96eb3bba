// Whole training runs of CFR and CFR+: the trainer's loop around the full traversal. The traversal's result is
// a function of the sums, the player and the iteration, so everything proved of runs holds of these.
module Training {
  import opened Sums
  import opened BestResponse
  import opened GameTree
  import opened Layout
  import opened Traversal
  import RegretMatching
  import Construction
  import Checkpoint
  import CheckpointIntegrity
  import CheckpointWriter
  import Trainer
  import Play

  // ---- A traversal that succeeds has met every decision with the right number of actions ----

  ghost predicate PlayedAt(store: Store, t: Tree) {
    t.Turn? ==> t.key in store && |store[t.key]| == |t.branches|
  }

  ghost predicate AllPlayed(store: Store, vs: seq<Visit>) {
    forall i: nat :: i < |vs| ==> PlayedAt(store, vs[i].tree)
  }

  lemma AllPlayedKept(store: Store, store': Store, vs: seq<Visit>)
    requires Kept(store, store') && AllPlayed(store, vs)
    ensures AllPlayed(store', vs)
  {
    forall i: nat | i < |vs| ensures PlayedAt(store', vs[i].tree) {
      assert PlayedAt(store, vs[i].tree);
    }
  }

  lemma AllPlayedTwice(store: Store, vs: seq<Visit>, ws: seq<Visit>)
    requires AllPlayed(store, vs) && AllPlayed(store, ws)
    ensures AllPlayed(store, vs + ws)
  {
  }

  lemma {:induction false} TouchPlays(before: Store, v: Visit, store: Store, maxActions: nat)
    requires Touch(store, v.tree, maxActions).status == Construction.Success
    ensures AllPlayed(Touch(store, v.tree, maxActions).store, Visits(before, v))
    decreases v.tree, |Branches(v.tree)| + 1
  {
    var t := v.tree;
    if !t.Leaf? {
      var here := Enter(store, t).store;
      TouchBeforePlays(before, v, here, |t.branches|, maxActions);
      TouchBeforeKeeps(here, t, |t.branches|, maxActions);
      assert PlayedAt(here, t);
      AllPlayedKept(here, Touch(store, t, maxActions).store, [v]);
    }
    AllPlayedTwice(Touch(store, t, maxActions).store, [v], VisitsBefore(before, v, |Branches(t)|));
  }

  lemma {:induction false} TouchBeforePlays(before: Store, v: Visit, store: Store, n: nat, maxActions: nat)
    requires n <= |Branches(v.tree)| && TouchBefore(store, v.tree, n, maxActions).status == Construction.Success
    ensures AllPlayed(TouchBefore(store, v.tree, n, maxActions).store, VisitsBefore(before, v, n))
    decreases v.tree, n
  {
    if n > 0 {
      var t, front := v.tree, TouchBefore(store, v.tree, n - 1, maxActions).store;
      TouchBeforePlays(before, v, store, n - 1, maxActions);
      TouchPlays(before, Child(before, v, n - 1), front, maxActions);
      TouchKeeps(front, t.branches[n - 1].next, maxActions);
      var after := TouchBefore(store, t, n, maxActions).store;
      AllPlayedKept(front, after, VisitsBefore(before, v, n - 1));
      AllPlayedTwice(after, VisitsBefore(before, v, n - 1), Visits(before, Child(before, v, n - 1)));
    }
  }

  // ---- One traversal trains every information set ----

  lemma {:induction false} NoShares(store: Store, vs: seq<Visit>, r: Player, which: Which, weight: real, k: Key, a: nat)
    requires k !in KeysAt(vs, r)
    ensures Shares(store, vs, r, which, weight, k, a) == 0.0
    decreases |vs|
  {
    if vs != [] {
      var v, front := vs[|vs| - 1], vs[..|vs| - 1];
      forall i: nat | i < |front| && Moves(front[i].tree, r) ensures front[i].tree.key != k {
        assert front[i] == vs[i];
      }
      assert Moves(v.tree, r) ==> v.tree.key in KeysAt(vs, r);
      NoShares(store, front, r, which, weight, k, a);
    }
  }

  lemma NotMet(store: Store, vs: seq<Visit>, r: Player, weight: real, k: Key, n: nat)
    requires k !in KeysAt(vs, r)
    ensures ShareSeq(store, vs, r, weight, k, n) == Zeros(n) && Regular(vs, r, k, n)
  {
    forall a: nat | a < n ensures Shares(store, vs, r, Regret, weight, k, a) == 0.0 {
      NoShares(store, vs, r, Regret, weight, k, a);
    }
    assert forall i: nat :: i < |vs| && Moves(vs[i].tree, r) ==> vs[i].tree.key in KeysAt(vs, r);
  }

  // n is the number of actions of the information set, if it is in the store.
  ghost predicate CountIs(store: Store, k: Key, n: nat) {
    k in store ==> |store[k]| == n
  }

  lemma PlayedIsRegular(store: Store, vs: seq<Visit>, r: Player, k: Key, n: nat)
    requires AllPlayed(store, vs) && CountIs(store, k, n)
    ensures Regular(vs, r, k, n)
    ensures k in KeysAt(vs, r) ==> k in store
  {
    forall i: nat | i < |vs| && Moves(vs[i].tree, r) && vs[i].tree.key == k
      ensures |vs[i].tree.branches| == n && k in store
    {
      assert PlayedAt(store, vs[i].tree);
    }
  }

  // A successful step commits the traversal's increments to the information set, or finds none.
  lemma TrainedStep(x: Totals, t: Tree, r: Player, weight: real, plus: bool, maxActions: nat, k: Key, n: nat)
    requires var o := Train(x, t, r, weight, plus, maxActions); o.status == Construction.Success && CountIs(o.totals.regrets, k, n)
    ensures var after := Train(x, t, r, weight, plus, maxActions).totals.regrets;
      && Trained(x.regrets, after, Round(t, r, weight), plus, k, n)
      && Regular(Visits(x.regrets, Root(t)), r, k, n)
      && CountIs(x.regrets, k, n)
  {
    var mid, vs := Touch(x.regrets, t, maxActions).store, Visits(x.regrets, Root(t));
    TouchKeeps(x.regrets, t, maxActions);
    TouchPlays(x.regrets, Root(t), x.regrets, maxActions);
    assert CountIs(mid, k, n);
    PlayedIsRegular(mid, vs, r, k, n);
    if k !in KeysAt(vs, r) {
      NotMet(x.regrets, vs, r, weight, k, n);
    }
  }

  // ---- No commit is refused ----

  ghost predicate NonNegative(d: seq<real>) {
    forall i: nat :: i < |d| ==> d[i] >= 0.0
  }

  ghost predicate AllNonNegative(averages: Store) {
    forall k :: k in averages ==> NonNegative(averages[k])
  }

  ghost predicate OwnsNonNegative(vs: seq<Visit>, r: Player) {
    forall i: nat :: i < |vs| ==> OwnReach(vs[i], r) >= 0.0
  }

  lemma ProductNonNegative(x: real, y: real)
    requires x >= 0.0 && y >= 0.0
    ensures x * y >= 0.0 && Times(x, y) >= 0.0
  {
  }

  lemma PolicyNonNegative(store: Store, key: Key, n: nat, a: nat)
    requires a < n
    ensures Policy(store, key, n)[a] >= 0.0
  {
    RegretMatching.MatchIsDistribution(if key in store && |store[key]| == n then store[key] else Zeros(n));
  }

  lemma ChildOwn(store: Store, v: Visit, r: Player, a: nat)
    requires a < |Branches(v.tree)| && OwnReach(v, r) >= 0.0
    ensures OwnReach(Child(store, v, a), r) >= 0.0
  {
    ChildReachIs(v.tree, a, r, Odds(store, v.tree, a), v, store);
    if Moves(v.tree, r) {
      PolicyNonNegative(store, v.tree.key, |v.tree.branches|, a);
      ProductNonNegative(OwnReach(v, r), Odds(store, v.tree, a));
    }
  }

  // A player's own reach is a product of its probabilities, whatever chance's are.
  lemma {:induction false} OwnsAre(store: Store, v: Visit, r: Player)
    requires OwnReach(v, r) >= 0.0
    ensures OwnsNonNegative(Visits(store, v), r)
    decreases v.tree, |Branches(v.tree)| + 1
  {
    OwnsBefore(store, v, r, |Branches(v.tree)|);
  }

  lemma {:induction false} OwnsBefore(store: Store, v: Visit, r: Player, n: nat)
    requires n <= |Branches(v.tree)| && OwnReach(v, r) >= 0.0
    ensures OwnsNonNegative(VisitsBefore(store, v, n), r)
    decreases v.tree, n
  {
    if n > 0 {
      OwnsBefore(store, v, r, n - 1);
      ChildOwn(store, v, r, n - 1);
      OwnsAre(store, Child(store, v, n - 1), r);
      OwnsTwice(VisitsBefore(store, v, n - 1), Visits(store, Child(store, v, n - 1)), r);
    }
  }

  lemma OwnsTwice(vs: seq<Visit>, ws: seq<Visit>, r: Player)
    requires OwnsNonNegative(vs, r) && OwnsNonNegative(ws, r)
    ensures OwnsNonNegative(vs + ws, r)
  {
  }

  lemma {:induction false} SharesNonNegative(store: Store, vs: seq<Visit>, r: Player, weight: real, k: Key, a: nat)
    requires OwnsNonNegative(vs, r) && weight >= 0.0
    ensures Shares(store, vs, r, Strategy, weight, k, a) >= 0.0
    decreases |vs|
  {
    if vs != [] {
      var v, front := vs[|vs| - 1], vs[..|vs| - 1];
      assert OwnsNonNegative(front, r) && OwnReach(v, r) >= 0.0;
      SharesNonNegative(store, front, r, weight, k, a);
      if Traversal.At(v, r, k, a) {
        PolicyNonNegative(store, k, |v.tree.branches|, a);
        ProductNonNegative(OwnReach(v, r), Odds(store, v.tree, a));
        ProductNonNegative(Times(OwnReach(v, r), Odds(store, v.tree, a)), weight);
      }
    }
  }

  lemma StrategiesNonNegative(store: Store, t: Tree, r: Player, weight: real, k: Key, n: nat)
    requires weight >= 0.0
    ensures NonNegative(StrategySeq(store, Visits(store, Root(t)), r, weight, k, n))
  {
    var vs := Visits(store, Root(t));
    OwnsAre(store, Root(t), r);
    forall a: nat | a < n ensures StrategySeq(store, vs, r, weight, k, n)[a] >= 0.0 {
      SharesNonNegative(store, vs, r, weight, k, a);
    }
  }

  // Strategy sums that are not negative stay so, and then a traversal that meets no error is always committed.
  lemma CommitNeverRefused(x: Totals, t: Tree, r: Player, weight: real, plus: bool, maxActions: nat)
    requires weight > 0.0 && AllNonNegative(x.averages)
    ensures Train(x, t, r, weight, plus, maxActions).status == Touch(x.regrets, t, maxActions).status
    ensures AllNonNegative(Train(x, t, r, weight, plus, maxActions).totals.averages)
  {
    var mid, vs := Touch(x.regrets, t, maxActions).store, Visits(x.regrets, Root(t));
    forall k | k in KeysAt(vs, r)
      ensures CommittableAt(x.averages, x.regrets, mid, vs, r, weight, k)
      ensures NonNegative(AveragesAfter(x.averages, x.regrets, mid, vs, r, weight)[k])
    {
      StrategiesNonNegative(x.regrets, t, r, weight, k, if k in mid then |mid[k]| else 0);
    }
  }

  // ---- The traversal, as the trainer calls it ----

  // A game, the number of its players, and the most actions it offers.
  datatype Table = Table(game: Play.Tree, players: nat, maxActions: nat)

  function FullStep(g: Table, plus: bool): Trainer.Traversal<Totals> {
    (x: Totals, random: nat, player: nat, iteration: nat) =>
      if plus && iteration == 0 then Trainer.Broke(x, random, Checkpoint.InvalidArgument) else
        var o := TrainSeat(x, g.game, g.players, player, StrategyWeight(plus, iteration), plus, g.maxActions);
        if o.status == Construction.Success then Trainer.Done(o.totals, random, Size(Seen(g, player)))
        else Trainer.Broke(o.totals, random, if o.status == Construction.NumericError then Checkpoint.NumericError
                                             else Checkpoint.InvalidArgument)
  }

  // The game as a player sees it.
  function Seen(g: Table, player: nat): Tree {
    SeenFrom(g.game, player, g.players)
  }

  // CFR+ weighs the strategies of iteration i by i.
  function StrategyWeight(plus: bool, iteration: nat): real {
    if plus then iteration as real else 1.0
  }

  lemma FullIsUnsampled(g: Table, plus: bool)
    ensures Trainer.Unsampled(FullStep(g, plus))
  {
    var f := FullStep(g, plus);
    forall x, random, other, player, iteration
      ensures Trainer.SameStep(f(x, random, player, iteration), f(x, other, player, iteration))
    {
    }
  }

  // A traversal that succeeds, as the trainer sees it.
  lemma FullDone(g: Table, plus: bool, x: Totals, random: nat, player: nat, iteration: nat, after: Totals)
    requires iteration > 0 && CanTrain(g.players, player, g.maxActions)
    requires Train(x, Seen(g, player), Player0, StrategyWeight(plus, iteration), plus, g.maxActions)
          == Taught(Construction.Success, after)
    ensures FullStep(g, plus)(x, random, player, iteration) == Trainer.Done(after, random, Size(Seen(g, player)))
  {
  }

  // A walk that fails says that the game is not in order.
  lemma {:induction false} TouchIsInvalid(store: Store, t: Tree, maxActions: nat)
    ensures var o := Touch(store, t, maxActions).status; o == Construction.Success || o == Construction.InvalidArgument
    decreases t, |Branches(t)| + 1
  {
    if !t.Leaf? {
      TouchBeforeIsInvalid(Enter(store, t).store, t, |Branches(t)|, maxActions);
    }
  }

  lemma {:induction false} TouchBeforeIsInvalid(store: Store, t: Tree, n: nat, maxActions: nat)
    requires n <= |Branches(t)|
    ensures var o := TouchBefore(store, t, n, maxActions).status; o == Construction.Success || o == Construction.InvalidArgument
    decreases t, n
  {
    if n > 0 {
      TouchBeforeIsInvalid(store, t, n - 1, maxActions);
      TouchIsInvalid(TouchBefore(store, t, n - 1, maxActions).store, t.branches[n - 1].next, maxActions);
    }
  }

  // A commit that is refused says so, and leaves the sums and the random state alone.
  lemma RefusedStep(g: Table, plus: bool, x: Totals, random: nat, player: nat, iteration: nat)
    requires iteration > 0 && CanTrain(g.players, player, g.maxActions)
    requires var walk := Touch(x.regrets, Seen(g, player), g.maxActions);
      walk.status == Construction.Success
      && !Committable(x.averages, x.regrets, walk.store, Visits(x.regrets, Root(Seen(g, player))), Player0, StrategyWeight(plus, iteration))
    ensures FullStep(g, plus)(x, random, player, iteration)
         == Trainer.Broke(x.(regrets := Touch(x.regrets, Seen(g, player), g.maxActions).store), random, Checkpoint.NumericError)
  {
  }

  // A player is trained exactly when there is such a seat, in games of any number of players, and the walk meets no
  // error; the strategy sums then stay as they must be.
  lemma FullStepIff(g: Table, plus: bool, x: Totals, random: nat, player: nat, iteration: nat)
    requires AllNonNegative(x.averages)
    ensures FullStep(g, plus)(x, random, player, iteration).Done? <==>
      && !(plus && iteration == 0) && CanTrain(g.players, player, g.maxActions)
      && Touch(x.regrets, Seen(g, player), g.maxActions).status == Construction.Success
    ensures AllNonNegative(FullStep(g, plus)(x, random, player, iteration).nodes.averages)
    ensures var o := FullStep(g, plus)(x, random, player, iteration);
      o.Broke? ==> o.status == Checkpoint.InvalidArgument && o.nodes.averages == x.averages
  {
    TouchIsInvalid(x.regrets, Seen(g, player), g.maxActions);
    if !(plus && iteration == 0) {
      CommitNeverRefused(x, Seen(g, player), Player0, StrategyWeight(plus, iteration), plus, g.maxActions);
    }
  }

  // An iteration of a game with one player.
  lemma SoloIteration(f: Trainer.Traversal<Totals>, s: Trainer.State<Totals>)
    requires f(s.nodes, s.random, 0, Trainer.Capped(s.counters.training, 1)).Done?
    ensures var o := Trainer.Iteration(f, s, 1);
      && o.status == Checkpoint.Success
      && o.state.nodes == f(s.nodes, s.random, 0, Trainer.Capped(s.counters.training, 1)).nodes
      && o.state.counters.training == Trainer.Capped(s.counters.training, 1)
  {
    var iteration := Trainer.Capped(s.counters.training, 1);
    assert Trainer.Players(f, s, 0, iteration) == Trainer.Ran(Checkpoint.Success, s);
    assert Trainer.Players(f, s, 1, iteration) == Trainer.Player(f, s, 0, iteration);
  }

  // ---- Runs ----

  // The turns of the given number of players in one iteration.
  function TurnsOf(g: Table, weight: real, players: nat): (turns: seq<Round>)
    ensures |turns| == players
    decreases players
  {
    if players == 0 then [] else TurnsOf(g, weight, players - 1) + [Round(Seen(g, players - 1), Player0, weight)]
  }

  // The regrets before an iteration and after each of its traversals.
  function StoresOf(f: Trainer.Traversal<Totals>, s: Trainer.State<Totals>, players: nat, iteration: nat): (stores: seq<Store>)
    ensures |stores| == players + 1 && stores[0] == s.nodes.regrets
    decreases players
  {
    if players == 0 then [s.nodes.regrets] else
      StoresOf(f, s, players - 1, iteration) + [Trainer.Players(f, s, players, iteration).state.nodes.regrets]
  }

  // The same over n iterations, when the trainer had done some before.
  function Turns(g: Table, plus: bool, done: nat, players: nat, n: nat): (turns: seq<Round>)
    decreases n
  {
    if n == 0 then [] else
      Turns(g, plus, done, players, n - 1) + TurnsOf(g, StrategyWeight(plus, Trainer.Capped(done, n)), players)
  }

  function Stores(f: Trainer.Traversal<Totals>, s: Trainer.State<Totals>, players: nat, n: nat): (stores: seq<Store>)
    ensures |stores| > 0 && stores[0] == s.nodes.regrets
    decreases n
  {
    if n == 0 then [s.nodes.regrets] else
      var before := Trainer.Run(f, s, players, n - 1).state;
      Stores(f, s, players, n - 1) + StoresOf(f, before, players, Trainer.Capped(before.counters.training, 1))[1..]
  }

  lemma {:induction false} TurnOf(g: Table, weight: real, players: nat, j: nat)
    requires j < players
    ensures TurnsOf(g, weight, players)[j] == Round(SeenFrom(g.game, j, g.players), Player0, weight)
    decreases players
  {
    if j < players - 1 {
      TurnOf(g, weight, players - 1, j);
    }
  }

  lemma {:induction false} TurnsCount(g: Table, plus: bool, done: nat, players: nat, n: nat)
    ensures |Turns(g, plus, done, players, n)| == n * players
    decreases n
  {
    if n > 0 {
      TurnsCount(g, plus, done, players, n - 1);
      Trainer.Distribute(n, players);
    }
  }

  lemma Before(i: nat, n: nat, players: nat, j: nat)
    requires i < n && j < players
    ensures i * players + j < n * players
  {
    assert (i + 1) * players <= n * players;
    assert (i + 1) * players == i * players + players;
  }

  // The turns of a run, spelt out: in each iteration every player in order, from its own seat, with weight one, or with
  // CFR+ the number of the iteration.
  lemma {:induction false} TurnsAre(g: Table, plus: bool, done: nat, players: nat, n: nat, i: nat, j: nat)
    requires i < n && j < players && done + n <= Trainer.SIZE_MAX
    ensures i * players + j < |Turns(g, plus, done, players, n)|
    ensures Turns(g, plus, done, players, n)[i * players + j]
         == Round(SeenFrom(g.game, j, g.players), Player0, if plus then (done + i + 1) as real else 1.0)
    decreases n
  {
    TurnsCount(g, plus, done, players, n);
    TurnsCount(g, plus, done, players, n - 1);
    Before(i, n, players, j);
    if i < n - 1 {
      Before(i, n - 1, players, j);
      TurnsAre(g, plus, done, players, n - 1, i, j);
    } else {
      TurnOf(g, StrategyWeight(plus, Trainer.Capped(done, n)), players, j);
    }
  }

  // A training run that ends in the given store.
  ghost predicate RunTo(stores: seq<Store>, turns: seq<Round>, plus: bool, k: Key, n: nat, last: Store) {
    TrainingRun(stores, turns, plus, k, n) && stores[|turns|] == last
  }

  lemma RunThenRun(stores: seq<Store>, stores': seq<Store>, turns: seq<Round>, turns': seq<Round>, plus: bool,
                   k: Key, n: nat, last: Store)
    requires TrainingRun(stores, turns, plus, k, n) && RunTo(stores', turns', plus, k, n, last)
    requires stores[|turns|] == stores'[0]
    ensures RunTo(stores + stores'[1..], turns + turns', plus, k, n, last)
  {
    var all, both := stores + stores'[1..], turns + turns';
    forall i: nat | |turns| <= i < |all| ensures all[i] == stores'[i - |turns|] {
    }
    forall i: nat | i < |both| ensures RunStep(all, both, plus, k, n, i) {
      if i < |turns| {
        assert RunStep(stores, turns, plus, k, n, i);
      } else {
        assert RunStep(stores', turns', plus, k, n, i - |turns|);
      }
    }
  }

  // A traversal inside the trainer that succeeds is one turn of a training run.
  ghost predicate TrainsAt(f: Trainer.Traversal<Totals>, g: Table, plus: bool, s: Trainer.State<Totals>, player: nat,
                           iteration: nat, k: Key, n: nat) {
    var o := Trainer.Player(f, s, player, iteration);
    var after := o.state.nodes.regrets;
    o.status == Checkpoint.Success && CountIs(after, k, n) ==>
      && RunTo([s.nodes.regrets, after], [Round(Seen(g, player), Player0, StrategyWeight(plus, iteration))], plus, k, n, after)
      && CountIs(s.nodes.regrets, k, n)
  }

  ghost predicate Trains(f: Trainer.Traversal<Totals>, g: Table, plus: bool) {
    forall s, player, iteration, k, n :: TrainsAt(f, g, plus, s, player, iteration, k, n)
  }

  lemma PlayerTrains(g: Table, plus: bool, s: Trainer.State<Totals>, player: nat, iteration: nat, k: Key, n: nat)
    ensures TrainsAt(FullStep(g, plus), g, plus, s, player, iteration, k, n)
  {
    var o := Trainer.Player(FullStep(g, plus), s, player, iteration);
    if o.status == Checkpoint.Success && CountIs(o.state.nodes.regrets, k, n) {
      TrainedStep(s.nodes, Seen(g, player), Player0, StrategyWeight(plus, iteration), plus, g.maxActions, k, n);
    }
  }

  lemma FullTrains(g: Table, plus: bool)
    ensures Trains(FullStep(g, plus), g, plus)
  {
    forall s, player, iteration, k, n ensures TrainsAt(FullStep(g, plus), g, plus, s, player, iteration, k, n) {
      PlayerTrains(g, plus, s, player, iteration, k, n);
    }
  }

  lemma {:induction false} PlayersTrain(f: Trainer.Traversal<Totals>, g: Table, plus: bool, s: Trainer.State<Totals>,
                                        players: nat, iteration: nat, k: Key, n: nat)
    requires Trains(f, g, plus)
    requires var o := Trainer.Players(f, s, players, iteration);
      o.status == Checkpoint.Success && CountIs(o.state.nodes.regrets, k, n)
    ensures RunTo(StoresOf(f, s, players, iteration), TurnsOf(g, StrategyWeight(plus, iteration), players), plus, k, n,
                  Trainer.Players(f, s, players, iteration).state.nodes.regrets)
    ensures CountIs(s.nodes.regrets, k, n)
    decreases players
  {
    if players > 0 {
      var weight := StrategyWeight(plus, iteration);
      var before := Trainer.Players(f, s, players - 1, iteration).state;
      var after := Trainer.Players(f, s, players, iteration).state.nodes.regrets;
      assert TrainsAt(f, g, plus, before, players - 1, iteration, k, n);
      PlayersTrain(f, g, plus, s, players - 1, iteration, k, n);
      RunThenRun(StoresOf(f, s, players - 1, iteration), [before.nodes.regrets, after], TurnsOf(g, weight, players - 1),
                 [Round(Seen(g, players - 1), Player0, weight)], plus, k, n, after);
      assert [before.nodes.regrets, after][1..] == [after];
    }
  }

  ghost predicate CountersFit(s: Trainer.State<Totals>) {
    s.counters.training <= Trainer.SIZE_MAX && s.counters.iterations <= Trainer.SIZE_MAX && s.counters.traversals <= Trainer.SIZE_MAX
  }

  // Where a run's last iteration begins, and what it leaves.
  ghost predicate EndsWith(f: Trainer.Traversal<Totals>, s: Trainer.State<Totals>, players: nat, amount: nat,
                           before: Trainer.State<Totals>, iteration: nat)
    requires amount > 0
  {
    && Trainer.Run(f, s, players, amount - 1) == Trainer.Ran(Checkpoint.Success, before)
    && iteration == Trainer.Capped(before.counters.training, 1) == Trainer.Capped(s.counters.training, amount)
    && Trainer.Players(f, before, players, iteration).status == Checkpoint.Success
    && Trainer.Players(f, before, players, iteration).state.nodes == Trainer.Run(f, s, players, amount).state.nodes
  }

  lemma LastIteration(f: Trainer.Traversal<Totals>, s: Trainer.State<Totals>, players: nat, amount: nat)
    returns (before: Trainer.State<Totals>, iteration: nat)
    requires CountersFit(s) && amount > 0 && Trainer.Run(f, s, players, amount).status == Checkpoint.Success
    ensures EndsWith(f, s, players, amount, before, iteration)
  {
    Trainer.RunCounters(f, s, players, amount - 1);
    before := Trainer.Run(f, s, players, amount - 1).state;
    iteration := Trainer.Capped(before.counters.training, 1);
  }

  // The turns of one iteration more, after those of the iterations before it.
  lemma OneIterationMore(f: Trainer.Traversal<Totals>, g: Table, plus: bool, s: Trainer.State<Totals>, players: nat, amount: nat,
                         before: Trainer.State<Totals>, iteration: nat, k: Key, n: nat)
    requires amount > 0 && EndsWith(f, s, players, amount, before, iteration)
    requires RunTo(Stores(f, s, players, amount - 1), Turns(g, plus, s.counters.training, players, amount - 1), plus, k, n,
                   before.nodes.regrets)
    requires RunTo(StoresOf(f, before, players, iteration), TurnsOf(g, StrategyWeight(plus, iteration), players), plus, k, n,
                   Trainer.Players(f, before, players, iteration).state.nodes.regrets)
    ensures RunTo(Stores(f, s, players, amount), Turns(g, plus, s.counters.training, players, amount), plus, k, n,
                  Trainer.Run(f, s, players, amount).state.nodes.regrets)
  {
    RunThenRun(Stores(f, s, players, amount - 1), StoresOf(f, before, players, iteration),
               Turns(g, plus, s.counters.training, players, amount - 1), TurnsOf(g, StrategyWeight(plus, iteration), players),
               plus, k, n, Trainer.Run(f, s, players, amount).state.nodes.regrets);
  }

  lemma {:induction false} TrainsOverRun(f: Trainer.Traversal<Totals>, g: Table, plus: bool, s: Trainer.State<Totals>,
                                         players: nat, amount: nat, k: Key, n: nat)
    requires CountersFit(s) && Trains(f, g, plus)
    requires var o := Trainer.Run(f, s, players, amount); o.status == Checkpoint.Success && CountIs(o.state.nodes.regrets, k, n)
    ensures RunTo(Stores(f, s, players, amount), Turns(g, plus, s.counters.training, players, amount), plus, k, n,
                  Trainer.Run(f, s, players, amount).state.nodes.regrets)
    decreases amount
  {
    if amount > 0 {
      var before, iteration := LastIteration(f, s, players, amount);
      PlayersTrain(f, g, plus, before, players, iteration, k, n);
      TrainsOverRun(f, g, plus, s, players, amount - 1, k, n);
      OneIterationMore(f, g, plus, s, players, amount, before, iteration, k, n);
    }
  }

  // A successful run of the trainer is a training run at every information set, with every player of the game, in
  // order, seeing it from its own seat.
  lemma RunTrains(g: Table, plus: bool, s: Trainer.State<Totals>, amount: nat, k: Key, n: nat)
    requires CountersFit(s)
    requires var o := Trainer.Run(FullStep(g, plus), s, g.players, amount);
      o.status == Checkpoint.Success && CountIs(o.state.nodes.regrets, k, n)
    ensures var f := FullStep(g, plus);
      RunTo(Stores(f, s, g.players, amount), Turns(g, plus, s.counters.training, g.players, amount), plus, k, n,
            Trainer.Run(f, s, g.players, amount).state.nodes.regrets)
  {
    FullTrains(g, plus);
    TrainsOverRun(FullStep(g, plus), g, plus, s, g.players, amount, k, n);
  }

  // Over any successful run of the trainer, with CFR or CFR+, on any game of one to four players and from any sums,
  // the squared positive regret of every information set grows by at most the squared norms of what its traversals
  // add, each seen from the seat of the player it trains.
  lemma RunBoundsRegret(g: Table, plus: bool, s: Trainer.State<Totals>, amount: nat, k: Key)
    requires CountersFit(s)
    requires var o := Trainer.Run(FullStep(g, plus), s, g.players, amount);
      o.status == Checkpoint.Success && k in o.state.nodes.regrets && o.state.nodes.regrets[k] != []
    ensures var f := FullStep(g, plus);
      var sums := Trainer.Run(f, s, g.players, amount).state.nodes.regrets[k];
      var stores, turns := Stores(f, s, g.players, amount), Turns(g, plus, s.counters.training, g.players, amount);
      RegretMatching.Potential(sums) <= RegretMatching.Potential(SumsOf(s.nodes.regrets, k, |sums|))
                                        + Sum(Norms(stores, turns, k, |sums|), 0, |turns|)
  {
    var f := FullStep(g, plus);
    var after := Trainer.Run(f, s, g.players, amount).state.nodes.regrets;
    var turns := Turns(g, plus, s.counters.training, g.players, amount);
    RunTrains(g, plus, s, amount, k, |after[k]|);
    RegretOverRun(Stores(f, s, g.players, amount), turns, plus, k, |after[k]|, |turns|);
  }

  // Stopping CFR or CFR+ after m iterations, saving, loading into a new trainer and running n more is running m + n.
  lemma ResumedTraining(g: Table, plus: bool, s: Trainer.State<Totals>, m: nat, n: nat,
                        codec: Trainer.Codec<Totals>, nodes: seq<Checkpoint.Record>, sorted: seq<Checkpoint.Record>,
                        game: Checkpoint.Game, room: nat)
    requires Trainer.Run(FullStep(g, plus), s, g.players, m).status == Checkpoint.Success
    requires var mid := Trainer.Run(FullStep(g, plus), s, g.players, m).state;
      var h := Trainer.HeaderOf(if plus then Checkpoint.CfrPlus else Checkpoint.Cfr, mid);
      && Checkpoint.Distinct(nodes) && CheckpointIntegrity.MapOf(nodes) == codec.encode(mid.nodes)
      && codec.decode(codec.encode(mid.nodes)) == mid.nodes
      && Checkpoint.HeaderOk(h) && CheckpointWriter.Savable(h, nodes, game, true)
    requires CheckpointWriter.IsSnapshot(sorted, nodes) && |sorted| < Checkpoint.WORD && |sorted| < room
    ensures var f := FullStep(g, plus);
      var h := Trainer.HeaderOf(if plus then Checkpoint.CfrPlus else Checkpoint.Cfr, Trainer.Run(f, s, g.players, m).state);
      var loaded := Checkpoint.Parse(Checkpoint.File(game.schema, h, sorted), game, room, false);
      && loaded.Loaded?
      && var resumed := Trainer.Restored(loaded.header, codec.decode(CheckpointIntegrity.MapOf(loaded.records)));
         Trainer.SameRun(Trainer.Run(f, resumed, g.players, n), Trainer.Run(f, s, g.players, m + n))
  {
    FullIsUnsampled(g, plus);
    Trainer.ResumedRun(FullStep(g, plus), if plus then Checkpoint.CfrPlus else Checkpoint.Cfr, s, g.players, m, n, codec, nodes, sorted, game, room);
  }
}
