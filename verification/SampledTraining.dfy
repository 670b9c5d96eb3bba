// Whole training runs of external sampling: the trainer's loop around the sampled traversal, which draws from the
// random state that the trainer keeps.
module SampledTraining {
  import opened ExternalSampling
  import opened SampledRegret
  import SnapshotRefinement
  import Mccfr
  import Construction
  import R = RegretMatching
  import Sums
  import Checkpoint
  import CheckpointIntegrity
  import CheckpointWriter
  import Trainer
  import Play
  import ActionOrder

  // A game, the number of its players, the most actions it offers, and the output function of the random stream.
  datatype Table = Table(game: Play.Tree, players: nat, maxActions: nat, mix: nat -> nat)

  function SumsOf(totals: Mccfr.Totals): Regrets {
    (key: Key, n: nat) => Mccfr.TotalAt(totals, key, n)
  }

  // The strategies in play: regret matching on the regrets.
  function ProfileOf(x: Mccfr.Learned): Profile {
    Matched(SumsOf(x.regrets))
  }

  function RulesOf(g: Table, player: nat): Rules {
    Rules(g.players, player, g.maxActions)
  }

  function Seen(g: Table, player: nat): Tree {
    Mccfr.ForTarget(g.game, player)
  }

  function Start(x: Mccfr.Learned, random: nat): State {
    SnapshotRefinement.Start(random, Mccfr.Counts(x))
  }

  function Traversed(g: Table, x: Mccfr.Learned, random: nat, player: nat): Result {
    Traverse(Sequential(ProfileOf(x)), RulesOf(g, player), g.mix, Seen(g, player), Start(x, random))
  }

  // A sampled traversal, as the trainer calls it: on the nodes themselves, or on snapshots of nodes that nobody else
  // is changing.
  function StepIn(g: Table, mode: Mode, x: Mccfr.Learned, random: nat, player: nat): Trainer.Step<Mccfr.Learned> {
    var o := Mccfr.Teach(mode, RulesOf(g, player), g.mix, Seen(g, player), x, random);
    if o.status == Construction.Success then Trainer.Done(o.learned, o.random, o.visits)
    else Trainer.Broke(o.learned, o.random, if o.status == Construction.NumericError then Checkpoint.NumericError
                                            else Checkpoint.InvalidArgument)
  }

  function SampledStep(g: Table): Trainer.Traversal<Mccfr.Learned> {
    (x: Mccfr.Learned, random: nat, player: nat, iteration: nat) => StepIn(g, Sequential(ProfileOf(x)), x, random, player)
  }

  function SnapshotStep(g: Table): Trainer.Traversal<Mccfr.Learned> {
    (x: Mccfr.Learned, random: nat, player: nat, iteration: nat) =>
      StepIn(g, Snapshots(SnapshotRefinement.Unchanging(ProfileOf(x))), x, random, player)
  }

  // Every node met keeps its number of actions, and every change has as many entries.
  lemma TraversedSound(g: Table, x: Mccfr.Learned, random: nat, player: nat)
    ensures var r := Traversed(g, x, random, player);
      && Sound(ProfileOf(x), r.state)
      && forall k :: k in x.regrets ==> k in r.state.nodes && r.state.nodes[k] == |x.regrets[k]|
  {
    var profile, rules, t, s := ProfileOf(x), RulesOf(g, player), Seen(g, player), Start(x, random);
    MatchedIsMixed(SumsOf(x.regrets));
    TraverseSound(profile, rules, g.mix, t, s);
    WalkSound(profile, rules, g.mix, t, 1.0, s, false);
    var r := Walk(Sequential(profile), rules, g.mix, t, 1.0, s, false);
    WalkSound(profile, rules, g.mix, t, 1.0, r.state, true);
    KeepsCounts(x, s, s);
    KeepsCounts(x, s, r.state);
    KeepsCounts(x, s, Walk(Sequential(profile), rules, g.mix, t, 1.0, r.state, true).state);
  }

  lemma KeepsCounts(x: Mccfr.Learned, s: State, after: State)
    requires s.nodes == Mccfr.Counts(x) && NodesKept(s, after)
    ensures forall k :: k in x.regrets ==> k in after.nodes && after.nodes[k] == |x.regrets[k]|
  {
    forall k | k in x.regrets ensures k in after.nodes && after.nodes[k] == |x.regrets[k]| {
      assert k in s.nodes && s.nodes[k] == |x.regrets[k]|;
    }
  }

  // ---- No commit is refused ----

  ghost predicate NonNegative(d: seq<real>) {
    forall i :: 0 <= i < |d| ==> d[i] >= 0.0
  }

  ghost predicate AllNonNegative(totals: Mccfr.Totals) {
    forall k :: k in totals ==> NonNegative(totals[k])
  }

  lemma MultipleNonNegative(d: seq<real>, p: seq<real>)
    requires Multiple(d, p) && NonNegative(p)
    ensures NonNegative(d)
  {
    var w :| MultipleAt(d, p, w);
    forall i | 0 <= i < |d| ensures d[i] >= 0.0 {
      Positive(w, p[i]);
    }
  }

  lemma ChangeNonNegative(g: Table, x: Mccfr.Learned, random: nat, player: nat, k: Key)
    requires k in Traversed(g, x, random, player).state.pending
    ensures NonNegative(Traversed(g, x, random, player).state.pending[k].strategy)
  {
    var r := Traversed(g, x, random, player);
    TraversedSound(g, x, random, player);
    assert SoundAt(ProfileOf(x), r.state, k);
    MatchedIsMixed(SumsOf(x.regrets));
    MultipleNonNegative(r.state.pending[k].strategy, ProfileOf(x)(k, r.state.nodes[k]));
  }

  // From strategy sums that are not negative a player is trained exactly when the walk meets no error, in games of any
  // number of players; and the sums stay so.
  lemma SampledStepIff(g: Table, x: Mccfr.Learned, random: nat, player: nat, iteration: nat)
    requires AllNonNegative(x.strategies)
    ensures SampledStep(g)(x, random, player, iteration).Done? <==> Traversed(g, x, random, player).status == Construction.Success
    ensures AllNonNegative(SampledStep(g)(x, random, player, iteration).nodes.strategies)
    ensures var o, walk := SampledStep(g)(x, random, player, iteration), Traversed(g, x, random, player).status;
      o.Broke? ==> o.status == if walk == Construction.NumericError then Checkpoint.NumericError else Checkpoint.InvalidArgument
  {
    var r := Traversed(g, x, random, player);
    forall k | k in r.state.pending
      ensures Mccfr.CommittableAt(x.strategies, r.state.pending, k) && NonNegative(r.state.pending[k].strategy)
    {
      ChangeNonNegative(g, x, random, player, k);
    }
    forall k | k in r.state.nodes ensures NonNegative(Mccfr.TotalAt(x.strategies, k, r.state.nodes[k])) {
    }
  }

  // ---- Snapshots of nodes that nobody else changes ----

  // With snapshots a player is trained exactly when it is without and the walk meets no information set with two lists
  // of actions; and then to the same end.
  lemma SnapshotStepIff(g: Table, x: Mccfr.Learned, random: nat, player: nat, iteration: nat)
    ensures var step, plain := SnapshotStep(g)(x, random, player, iteration), SampledStep(g)(x, random, player, iteration);
      && (step.Done? <==>
            plain.Done? && ActionOrder.OneListEach(ActionOrder.Meetings(Sequential(ProfileOf(x)), RulesOf(g, player), g.mix,
                                                                        Seen(g, player), Start(x, random))))
      && (step.Done? ==> step == plain)
  {
    ActionOrder.AloneIff(ProfileOf(x), RulesOf(g, player), g.mix, Seen(g, player), random, Mccfr.Counts(x));
  }

  // So a successful run with snapshots is the run without.
  lemma SnapshotRun(g: Table, s: Trainer.State<Mccfr.Learned>, amount: nat)
    requires Trainer.Run(SnapshotStep(g), s, g.players, amount).status == Checkpoint.Success
    ensures Trainer.Run(SampledStep(g), s, g.players, amount) == Trainer.Run(SnapshotStep(g), s, g.players, amount)
  {
    forall x, random, player, iteration
      ensures Trainer.FollowsAt(SnapshotStep(g), SampledStep(g), x, random, player, iteration)
    {
      SnapshotStepIff(g, x, random, player, iteration);
    }
    Trainer.RunFollows(SnapshotStep(g), SampledStep(g), s, g.players, amount);
  }

  // ---- Regret over a run ----

  // The regret change that a traversal leaves at an information set of n actions.
  function ChangeAt(r: Result, k: Key, n: nat): (d: seq<real>)
    ensures |d| == n
  {
    if k in r.state.pending && |r.state.pending[k].regret| == n then r.state.pending[k].regret else Zeros(n)
  }

  // The potential of the information set, and the squared norm of its change.
  function PotentialRise(g: Table, k: Key, n: nat): Trainer.Rise<Mccfr.Learned> {
    Trainer.Rise((x: Mccfr.Learned) => R.Potential(Mccfr.TotalAt(x.regrets, k, n)),
                 (x: Mccfr.Learned, random: nat, player: nat, iteration: nat) =>
                   R.SquareNorm(ChangeAt(Traversed(g, x, random, player), k, n)))
  }

  lemma NormNonNegative(d: seq<real>)
    ensures R.SquareNorm(d) >= 0.0
  {
    forall a: nat | a < |d| ensures R.Products(d, d)(a) >= 0.0 {
    }
    Sums.SumNonNegative(R.Products(d, d), 0, |d|);
  }

  lemma NoPotential(n: nat)
    ensures R.Potential(Zeros(n)) == 0.0
  {
    assert R.Positives(Zeros(n)) == Zeros(n);
    DotZeros(Zeros(n));
  }

  lemma PotentialNonNegative(s: seq<real>)
    ensures R.Potential(s) >= 0.0
  {
    NormNonNegative(R.Positives(s));
  }

  lemma StepRises(g: Table, k: Key, n: nat, x: Mccfr.Learned, random: nat, player: nat, iteration: nat)
    requires n > 0
    ensures Trainer.StepRises(SampledStep(g), PotentialRise(g, k, n), x, random, player, iteration)
  {
    var r := Traversed(g, x, random, player);
    var before, d := Mccfr.TotalAt(x.regrets, k, n), ChangeAt(r, k, n);
    PotentialNonNegative(before);
    NormNonNegative(d);
    NoPotential(n);
    TraversedSound(g, x, random, player);
    if k in r.state.nodes && r.state.nodes[k] == n {
      MetRises(g, k, n, x, random, player);
    }
  }

  lemma MetRises(g: Table, k: Key, n: nat, x: Mccfr.Learned, random: nat, player: nat)
    requires n > 0 && var r := Traversed(g, x, random, player); k in r.state.nodes && r.state.nodes[k] == n
    ensures var r := Traversed(g, x, random, player);
      R.Potential(Mccfr.AddedTo(x.regrets, r.state.nodes, Mccfr.Regrets(r.state.pending))[k])
        <= R.Potential(Mccfr.TotalAt(x.regrets, k, n)) + R.SquareNorm(ChangeAt(r, k, n))
  {
    var r := Traversed(g, x, random, player);
    if k in r.state.pending {
      SampledPotential(SumsOf(x.regrets), RulesOf(g, player), g.mix, Seen(g, player), Start(x, random), k);
    } else {
      NormNonNegative(Zeros(n));
    }
  }

  // Over any successful run of the sampling trainer, whatever it draws, the squared positive regret of every
  // information set grows by at most the squared norms of the changes its traversals leave there.
  lemma RunBoundsRegret(g: Table, s: Trainer.State<Mccfr.Learned>, amount: nat, k: Key)
    requires var o := Trainer.Run(SampledStep(g), s, g.players, amount);
      o.status == Checkpoint.Success && k in o.state.nodes.regrets && o.state.nodes.regrets[k] != []
    ensures var sums := Trainer.Run(SampledStep(g), s, g.players, amount).state.nodes.regrets[k];
      R.Potential(sums) <= R.Potential(Mccfr.TotalAt(s.nodes.regrets, k, |sums|))
                           + Trainer.RunGain(SampledStep(g), PotentialRise(g, k, |sums|), s, g.players, amount)
  {
    var sums := Trainer.Run(SampledStep(g), s, g.players, amount).state.nodes.regrets[k];
    var rise := PotentialRise(g, k, |sums|);
    forall x, random, player, iteration ensures Trainer.StepRises(SampledStep(g), rise, x, random, player, iteration) {
      StepRises(g, k, |sums|, x, random, player, iteration);
    }
    Trainer.RunRises(SampledStep(g), rise, s, g.players, amount);
  }

  // ---- Stopping and going on ----

  // Stopping after m iterations, saving, loading into a new trainer and running n more is running m + n: the same
  // sums, counters and random state.
  lemma ResumedTraining(g: Table, random0: nat, s: Trainer.State<Mccfr.Learned>, m: nat, n: nat, codec: Trainer.Codec<Mccfr.Learned>,
                        nodes: seq<Checkpoint.Record>, sorted: seq<Checkpoint.Record>, game: Checkpoint.Game, room: nat)
    requires Trainer.Run(SampledStep(g), s, g.players, m).status == Checkpoint.Success
    requires var mid := Trainer.Run(SampledStep(g), s, g.players, m).state;
      var h := Trainer.HeaderOf(Checkpoint.Mccfr(random0), mid);
      && Checkpoint.Distinct(nodes) && CheckpointIntegrity.MapOf(nodes) == codec.encode(mid.nodes)
      && codec.decode(codec.encode(mid.nodes)) == mid.nodes
      && Checkpoint.HeaderOk(h) && CheckpointWriter.Savable(h, nodes, game, true)
    requires CheckpointWriter.IsSnapshot(sorted, nodes) && |sorted| < Checkpoint.WORD && |sorted| < room
    ensures var f := SampledStep(g);
      var h := Trainer.HeaderOf(Checkpoint.Mccfr(random0), Trainer.Run(f, s, g.players, m).state);
      var loaded := Checkpoint.Parse(Checkpoint.File(game.schema, h, sorted), game, room, false);
      && loaded.Loaded?
      && var resumed := Trainer.Restored(loaded.header, codec.decode(CheckpointIntegrity.MapOf(loaded.records)));
         Trainer.Run(f, resumed, g.players, n) == Trainer.Run(f, s, g.players, m + n)
  {
    Trainer.ResumedRun(SampledStep(g), Checkpoint.Mccfr(random0), s, g.players, m, n, codec, nodes, sorted, game, room);
  }
}
