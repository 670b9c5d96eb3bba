// What a sampled traversal records and commits, action by action: the sum over the decisions it met of what each is owed.
module SampledSteps {
  import opened Sums
  import opened ExternalSampling
  import opened Mccfr
  import Construction
  import SampledRegret
  import SnapshotRefinement
  import Play
  import R = RegretMatching

  // A decision of the target player, of another one whose action is sampled, or of the target in the pass for the average;
  // or a position at which nothing is recorded.
  datatype Kind = Target | Opponent | Averaged | Passed

  // A position that was met: the strategy there and the utilities of the branches, if all were tried; the product of the
  // target's own probabilities on the way, and the probability with which uniform choices have led here.
  datatype Meeting = Meeting(kind: Kind, key: Key, p: seq<real>, utilities: seq<real>, reach: real, chosen: real)

  // What the action earns above the average of all actions under the strategy.
  function RegretGain(m: Meeting, key: Key, a: nat): real {
    if m.kind.Target? && m.key == key && a < |m.utilities| == |m.p|
    then m.utilities[a] - Sum((b: nat) => if b < |m.p| && b < |m.utilities| then Weighted(m.p[b], m.utilities[b]) else 0.0, 0, |m.p|)
    else 0.0
  }

  // In a game of one player its own reach weighs the strategy; in one of two the sampling of the other's actions does;
  // with more, the reach is divided by the probability of the uniform choices.
  function StrategyGain(players: nat, m: Meeting, key: Key, a: nat): real {
    if m.key != key || a >= |m.p| then 0.0 else
      match m.kind
      case Target => if players == 1 then Weighted(m.reach, m.p[a]) else 0.0
      case Opponent => if players <= 2 then m.p[a] else 0.0
      case Averaged => if m.chosen > 0.0 then Weighted(m.reach / m.chosen, m.p[a]) else 0.0
      case Passed => 0.0
  }

  function RegretSum(ms: seq<Meeting>, key: Key, a: nat): real
    decreases |ms|
  {
    if ms == [] then 0.0 else RegretSum(ms[..|ms| - 1], key, a) + RegretGain(ms[|ms| - 1], key, a)
  }

  function StrategySum(players: nat, ms: seq<Meeting>, key: Key, a: nat): real
    decreases |ms|
  {
    if ms == [] then 0.0 else StrategySum(players, ms[..|ms| - 1], key, a) + StrategyGain(players, ms[|ms| - 1], key, a)
  }

  lemma {:induction false} RegretSumOf(ms: seq<Meeting>, ns: seq<Meeting>, key: Key, a: nat)
    ensures RegretSum(ms + ns, key, a) == RegretSum(ms, key, a) + RegretSum(ns, key, a)
    decreases |ns|
  {
    if ns == [] {
      assert ms + ns == ms;
    } else {
      assert (ms + ns)[..|ms + ns| - 1] == ms + ns[..|ns| - 1];
      RegretSumOf(ms, ns[..|ns| - 1], key, a);
    }
  }

  lemma {:induction false} StrategySumOf(players: nat, ms: seq<Meeting>, ns: seq<Meeting>, key: Key, a: nat)
    ensures StrategySum(players, ms + ns, key, a) == StrategySum(players, ms, key, a) + StrategySum(players, ns, key, a)
    decreases |ns|
  {
    if ns == [] {
      assert ms + ns == ms;
    } else {
      assert (ms + ns)[..|ms + ns| - 1] == ms + ns[..|ns| - 1];
      StrategySumOf(players, ms, ns[..|ns| - 1], key, a);
    }
  }

  lemma SumsOfOne(players: nat, m: Meeting, key: Key, a: nat)
    ensures RegretSum([m], key, a) == RegretGain(m, key, a)
    ensures StrategySum(players, [m], key, a) == StrategyGain(players, m, key, a)
  {
    assert [m][..0] == [];
    assert RegretSum([m][..0], key, a) == 0.0 && StrategySum(players, [m][..0], key, a) == 0.0;
  }

  // ---- The positions a traversal meets ----

  function Passing(reach: real, chosen: real): Meeting {
    Meeting(Passed, 0, [], [], reach, chosen)
  }

  // In the order in which it is done with them.
  function Trace(mode: Mode, g: Rules, mix: nat -> nat, t: Tree, own: real, reach: real, chosen: real, s0: State, average: bool)
    : seq<Meeting>
    decreases t, |Kids(t)| + 1
  {
    var s := s0.(visits := Capped(s0.visits));
    match t
    case Leaf(_) => [Passing(reach, chosen)]
    case Nature(branches) =>
      var d := Draw(OddsOf(branches), s.random, mix);
      [Passing(reach, chosen)]
      + if d.status != Construction.Success then [] else
        Trace(mode, g, mix, t.branches[d.index].next, own, reach, chosen, s.(random := d.random), average)
    case Turn(player, key, branches) =>
      var l := Look(mode, s, key, ActionsOf(branches));
      if l.status != Construction.Success || |l.p| != |branches| || |branches| == 0 then []
      else if average then AverageTrace(mode, g, mix, t, l.p, own, reach, chosen, l.state)
      else if player == g.target then TargetTrace(mode, g, mix, t, l.p, own, reach, chosen, l.state)
      else OpponentTrace(mode, g, mix, t, l.p, own, reach, chosen, l.state)
  }

  function TargetTrace(mode: Mode, g: Rules, mix: nat -> nat, t: Tree, p: seq<real>, own: real, reach: real, chosen: real, s: State)
    : seq<Meeting>
    requires t.Turn? && |p| == |t.branches|
    decreases t, |Kids(t)|, 1
  {
    BranchesTrace(mode, g, mix, t, p, own, reach, chosen, s, |p|)
    + [Meeting(Target, t.key, p, Branches(mode, g, mix, t, p, own, s, |p|).utilities, reach, chosen)]
  }

  function BranchesTrace(mode: Mode, g: Rules, mix: nat -> nat, t: Tree, p: seq<real>, own: real, reach: real, chosen: real, s: State,
                         n: nat): seq<Meeting>
    requires t.Turn? && |p| == |t.branches| && n <= |p|
    decreases t, n, 0
  {
    if n == 0 then [] else
      var before := Branches(mode, g, mix, t, p, own, s, n - 1);
      BranchesTrace(mode, g, mix, t, p, own, reach, chosen, s, n - 1)
      + if before.status != Construction.Success then [] else
          Trace(mode, g, mix, t.branches[n - 1].next, Weighted(own, p[n - 1]), Weighted(reach, p[n - 1]), chosen, before.state, false)
  }

  function OpponentTrace(mode: Mode, g: Rules, mix: nat -> nat, t: Tree, p: seq<real>, own: real, reach: real, chosen: real, s: State)
    : seq<Meeting>
    requires t.Turn? && |p| == |t.branches|
    decreases t, |Kids(t)|, 1
  {
    var a := Sample(mode, s, t.key, ActionsOf(t.branches), p, mix);
    if a.status != Construction.Success || a.index >= |p| then [] else
      var s1 := if g.players <= 2 then Add(a.state, t.key, Zeros(|p|), Scaled(1.0, p)) else a.state;
      [Meeting(Opponent, t.key, p, [], reach, chosen)]
      + Trace(mode, g, mix, t.branches[a.index].next, own, reach, chosen, s1, false)
  }

  function AverageTrace(mode: Mode, g: Rules, mix: nat -> nat, t: Tree, p: seq<real>, weight: real, reach: real, chosen: real, s: State)
    : seq<Meeting>
    requires t.Turn? && |p| == |t.branches| > 0
    decreases t, |Kids(t)|, 1
  {
    var targeted := t.player == g.target;
    var s1 := if targeted then Add(s, t.key, Zeros(|p|), Scaled(weight, p)) else s;
    var random := Advance(s1.random);
    var action := Uniform(mix(random), |p|);
    var child := WeightBelow(g, t, p, weight, action);
    [if targeted then Meeting(Averaged, t.key, p, [], reach, chosen) else Passing(reach, chosen)]
    + if child == 0.0 then [] else
        Trace(mode, g, mix, t.branches[action].next, child, if targeted then Weighted(reach, p[action]) else reach,
              chosen / (|p| as real), s1.(random := random), true)
  }

  // ---- What the walk has recorded ----

  function RegretOf(s: State, key: Key, a: nat): real {
    if key in s.pending && a < |s.pending[key].regret| then s.pending[key].regret[a] else 0.0
  }

  function StrategyOf(s: State, key: Key, a: nat): real {
    if key in s.pending && a < |s.pending[key].strategy| then s.pending[key].strategy[a] else 0.0
  }

  ghost predicate RecordedAt(players: nat, s: State, s': State, ms: seq<Meeting>, key: Key, a: nat) {
    && RegretOf(s', key, a) == RegretOf(s, key, a) + RegretSum(ms, key, a)
    && StrategyOf(s', key, a) == StrategyOf(s, key, a) + StrategySum(players, ms, key, a)
  }

  ghost predicate Recorded(players: nat, s: State, s': State, ms: seq<Meeting>) {
    Fits(s') && Kept(s.nodes, s'.nodes) && forall key, a: nat :: RecordedAt(players, s, s', ms, key, a)
  }

  lemma RecordedTwice(players: nat, s: State, s': State, s'': State, ms: seq<Meeting>, ns: seq<Meeting>)
    requires Recorded(players, s, s', ms) && Recorded(players, s', s'', ns)
    ensures Recorded(players, s, s'', ms + ns)
  {
    forall key, a: nat ensures RecordedAt(players, s, s'', ms + ns, key, a) {
      assert RecordedAt(players, s, s', ms, key, a) && RecordedAt(players, s', s'', ns, key, a);
      RegretSumOf(ms, ns, key, a);
      StrategySumOf(players, ms, ns, key, a);
    }
  }

  lemma RecordedNothing(players: nat, s: State, s': State)
    requires Fits(s') && Kept(s.nodes, s'.nodes) && s'.pending == s.pending
    ensures Recorded(players, s, s', [])
  {
    forall key, a: nat ensures RecordedAt(players, s, s', [], key, a) {
    }
  }

  lemma PassingRecords(players: nat, s: State, s': State, reach: real, chosen: real)
    requires Fits(s') && Kept(s.nodes, s'.nodes) && s'.pending == s.pending
    ensures Recorded(players, s, s', [Passing(reach, chosen)])
  {
    forall key, a: nat ensures RecordedAt(players, s, s', [Passing(reach, chosen)], key, a) {
      SumsOfOne(players, Passing(reach, chosen), key, a);
    }
  }

  // One more decision has been recorded.
  lemma AddRecords(players: nat, s: State, regret: seq<real>, strategy: seq<real>, m: Meeting)
    requires Fits(s) && |regret| == |strategy| && Met(s.nodes, m.key, |regret|)
    requires forall a: nat :: a < |regret| ==> regret[a] == RegretGain(m, m.key, a) && strategy[a] == StrategyGain(players, m, m.key, a)
    requires |m.p| == |regret|
    ensures Recorded(players, s, Add(s, m.key, regret, strategy), [m])
  {
    var s' := Add(s, m.key, regret, strategy);
    PendingAdded(s, s', m.key);
    forall key, a: nat ensures RecordedAt(players, s, s', [m], key, a) {
      SumsOfOne(players, m, key, a);
      if m.key in s.pending {
        assert PendingFits(s, m.key);
      }
    }
  }

  lemma LookFits(mode: Mode, s: State, key: Key, actions: seq<Action>)
    requires Fits(s) && Look(mode, s, key, actions).status == Construction.Success
    ensures var l := Look(mode, s, key, actions).state; Fits(l) && l.pending == s.pending && Kept(s.nodes, l.nodes) && Met(l.nodes, key, |actions|)
  {
    if mode.Snapshots? && key in s.memo {
      assert MemoFits(s, key);
    } else {
      var s1 := s.(nodes := s.nodes[key := |actions|]);
      MoreNodesFit(s, s1);
      if mode.Snapshots? {
        MemoAdded(s1, Look(mode, s, key, actions).state, key);
      }
    }
  }

  lemma SampleFits(mode: Mode, s: State, key: Key, actions: seq<Action>, p: seq<real>, mix: nat -> nat)
    requires Fits(s) && Met(s.nodes, key, |actions|)
    ensures var r := Sample(mode, s, key, actions, p, mix).state; Fits(r) && r.pending == s.pending && r.nodes == s.nodes
  {
    var r := Sample(mode, s, key, actions, p, mix).state;
    if r != s {
      MemoAdded(s.(random := r.random), r, key);
    }
  }

  // The reach and the importance weight keep step: the weight is the reach divided by the probability of the choices.
  ghost predicate InStep(own: real, reach: real, chosen: real, average: bool) {
    chosen > 0.0 && Weighted(own, chosen) == reach && (!average ==> chosen == 1.0)
  }

  lemma InStepBelow(own: real, reach: real, p: real)
    requires InStep(own, reach, 1.0, false)
    ensures InStep(Weighted(own, p), Weighted(reach, p), 1.0, false) && own == reach
  {
  }

  lemma WeightInStep(targeted: bool, p: seq<real>, weight: real, action: nat, reach: real, chosen: real)
    requires action < |p| && InStep(weight, reach, chosen, true)
    ensures InStep(WeightThrough(targeted, p, weight, action), if targeted then Weighted(reach, p[action]) else reach,
                   chosen / (|p| as real), true)
  {
    var n := |p| as real;
    var through := if targeted then Weighted(weight, p[action]) else weight;
    UndoesChoice(through, chosen, n);
    if targeted {
      Regrouped(weight, p[action], chosen);
    }
  }

  lemma UndoesChoice(x: real, chosen: real, n: real)
    requires n > 0.0 && chosen > 0.0
    ensures chosen / n > 0.0 && Weighted(x * n, chosen / n) == Weighted(x, chosen)
  {
    assert (x * n) * (chosen / n) == x * chosen;
  }

  lemma Regrouped(w: real, p: real, c: real)
    ensures Weighted(Weighted(w, p), c) == Weighted(Weighted(w, c), p)
  {
  }

  lemma WeightIsQuotient(weight: real, reach: real, chosen: real)
    requires InStep(weight, reach, chosen, true)
    ensures reach / chosen == weight
  {
    assert (weight * chosen) / chosen == weight;
  }

  // ---- The walk records its trace ----

  lemma {:induction false} WalkRecords(mode: Mode, g: Rules, mix: nat -> nat, t: Tree, own: real, reach: real, chosen: real, s0: State,
                                       average: bool)
    requires Fits(s0) && InStep(own, reach, chosen, average)
    requires Walk(mode, g, mix, t, own, s0, average).status == Construction.Success
    ensures Recorded(g.players, s0, Walk(mode, g, mix, t, own, s0, average).state,
                     Trace(mode, g, mix, t, own, reach, chosen, s0, average))
    decreases t, |Kids(t)| + 1
  {
    var s := s0.(visits := Capped(s0.visits));
    SameRecordsFit(s0, s);
    match t
    case Leaf(_) => PassingRecords(g.players, s0, s, reach, chosen);
    case Nature(branches) =>
      var d := Draw(OddsOf(branches), s.random, mix);
      SameRecordsFit(s0, s.(random := d.random));
      WalkRecords(mode, g, mix, t.branches[d.index].next, own, reach, chosen, s.(random := d.random), average);
      PassingRecords(g.players, s0, s.(random := d.random), reach, chosen);
      RecordedTwice(g.players, s0, s.(random := d.random), Walk(mode, g, mix, t, own, s0, average).state, [Passing(reach, chosen)],
                    Trace(mode, g, mix, branches[d.index].next, own, reach, chosen, s.(random := d.random), average));
    case Turn(player, key, branches) =>
      var l := Look(mode, s, key, ActionsOf(branches));
      LookFits(mode, s, key, ActionsOf(branches));
      if average {
        AverageRecords(mode, g, mix, t, l.p, own, reach, chosen, l.state);
      } else if player == g.target {
        TargetRecords(mode, g, mix, t, l.p, own, reach, chosen, l.state);
      } else {
        OpponentRecords(mode, g, mix, t, l.p, own, reach, chosen, l.state);
      }
      SamePending(g.players, s0, l.state, Walk(mode, g, mix, t, own, s0, average).state,
                  Trace(mode, g, mix, t, own, reach, chosen, s0, average));
  }

  lemma SamePending(players: nat, s: State, s1: State, s': State, ms: seq<Meeting>)
    requires s1.pending == s.pending && Kept(s.nodes, s1.nodes) && Recorded(players, s1, s', ms)
    ensures Recorded(players, s, s', ms)
  {
    forall key, a: nat ensures RecordedAt(players, s, s', ms, key, a) {
      assert RecordedAt(players, s1, s', ms, key, a);
    }
  }

  lemma {:induction false} BranchesRecord(mode: Mode, g: Rules, mix: nat -> nat, t: Tree, p: seq<real>, own: real, reach: real,
                                          chosen: real, s: State, n: nat)
    requires t.Turn? && |p| == |t.branches| && n <= |p| && Fits(s) && InStep(own, reach, chosen, false)
    requires Branches(mode, g, mix, t, p, own, s, n).status == Construction.Success
    ensures Recorded(g.players, s, Branches(mode, g, mix, t, p, own, s, n).state,
                     BranchesTrace(mode, g, mix, t, p, own, reach, chosen, s, n))
    decreases t, n, 0
  {
    if n == 0 {
      RecordedNothing(g.players, s, s);
    } else {
      BranchesRecord(mode, g, mix, t, p, own, reach, chosen, s, n - 1);
      var before := Branches(mode, g, mix, t, p, own, s, n - 1);
      InStepBelow(own, reach, p[n - 1]);
      var next := t.branches[n - 1].next;
      WalkRecords(mode, g, mix, next, Weighted(own, p[n - 1]), Weighted(reach, p[n - 1]), chosen, before.state, false);
      RecordedTwice(g.players, s, before.state, Walk(mode, g, mix, next, Weighted(own, p[n - 1]), before.state, false).state,
                    BranchesTrace(mode, g, mix, t, p, own, reach, chosen, s, n - 1),
                    Trace(mode, g, mix, next, Weighted(own, p[n - 1]), Weighted(reach, p[n - 1]), chosen, before.state, false));
    }
  }

  // What a decision of the target adds is what its branches earned above their average.
  lemma TargetGains(g: Rules, key: Key, p: seq<real>, utilities: seq<real>, utility: real, own: real, reach: real, chosen: real)
    requires |utilities| == |p| && InStep(own, reach, chosen, false)
    requires utility == Sum(SampledRegret.Weights(p, utilities), 0, |p|)
    ensures var m := Meeting(Target, key, p, utilities, reach, chosen);
      forall a: nat :: a < |p| ==>
        && Shifted(utilities, utility)[a] == RegretGain(m, key, a)
        && (if g.players == 1 then Scaled(own, p) else Zeros(|p|))[a] == StrategyGain(g.players, m, key, a)
  {
    SumExt(SampledRegret.Weights(p, utilities),
           (b: nat) => if b < |p| && b < |utilities| then Weighted(p[b], utilities[b]) else 0.0, 0, |p|);
    InStepBelow(own, reach, 1.0);
  }

  lemma {:induction false} TargetRecords(mode: Mode, g: Rules, mix: nat -> nat, t: Tree, p: seq<real>, own: real, reach: real,
                                         chosen: real, s: State)
    requires t.Turn? && |p| == |t.branches| > 0 && Fits(s) && Met(s.nodes, t.key, |p|) && InStep(own, reach, chosen, false)
    requires WalkTarget(mode, g, mix, t, p, own, s).status == Construction.Success
    ensures Recorded(g.players, s, WalkTarget(mode, g, mix, t, p, own, s).state, TargetTrace(mode, g, mix, t, p, own, reach, chosen, s))
    decreases t, |Kids(t)|, 1
  {
    var n := |t.branches|;
    var l := Branches(mode, g, mix, t, p, own, s, n);
    BranchesRecord(mode, g, mix, t, p, own, reach, chosen, s, n);
    SampledRegret.UtilityIsAverage(mode, g, mix, t, p, own, s, n);
    TargetGains(g, t.key, p, l.utilities, l.utility, own, reach, chosen);
    var m := Meeting(Target, t.key, p, l.utilities, reach, chosen);
    var strategy := if g.players == 1 then Scaled(own, p) else Zeros(|p|);
    AddRecords(g.players, l.state, Shifted(l.utilities, l.utility), strategy, m);
    RecordedTwice(g.players, s, l.state, Add(l.state, t.key, Shifted(l.utilities, l.utility), strategy),
                  BranchesTrace(mode, g, mix, t, p, own, reach, chosen, s, n), [m]);
  }

  lemma {:induction false} OpponentRecords(mode: Mode, g: Rules, mix: nat -> nat, t: Tree, p: seq<real>, own: real, reach: real,
                                           chosen: real, s: State)
    requires t.Turn? && |p| == |t.branches| > 0 && Fits(s) && Met(s.nodes, t.key, |p|) && InStep(own, reach, chosen, false)
    requires WalkOpponent(mode, g, mix, t, p, own, s).status == Construction.Success
    ensures Recorded(g.players, s, WalkOpponent(mode, g, mix, t, p, own, s).state, OpponentTrace(mode, g, mix, t, p, own, reach, chosen, s))
    decreases t, |Kids(t)|, 1
  {
    var a := Sample(mode, s, t.key, ActionsOf(t.branches), p, mix);
    SampleFits(mode, s, t.key, ActionsOf(t.branches), p, mix);
    var m := Meeting(Opponent, t.key, p, [], reach, chosen);
    var s1 := if g.players <= 2 then Add(a.state, t.key, Zeros(|p|), Scaled(1.0, p)) else a.state;
    OpponentAdds(g, a.state, m);
    SamePending(g.players, s, a.state, s1, [m]);
    WalkRecords(mode, g, mix, t.branches[a.index].next, own, reach, chosen, s1, false);
    RecordedTwice(g.players, s, s1, Walk(mode, g, mix, t.branches[a.index].next, own, s1, false).state, [m],
                  Trace(mode, g, mix, t.branches[a.index].next, own, reach, chosen, s1, false));
  }

  lemma OpponentAdds(g: Rules, s: State, m: Meeting)
    requires Fits(s) && m.kind.Opponent? && Met(s.nodes, m.key, |m.p|)
    ensures Recorded(g.players, s, if g.players <= 2 then Add(s, m.key, Zeros(|m.p|), Scaled(1.0, m.p)) else s, [m])
  {
    if g.players <= 2 {
      AddRecords(g.players, s, Zeros(|m.p|), Scaled(1.0, m.p), m);
    } else {
      forall key, a: nat ensures RecordedAt(g.players, s, s, [m], key, a) {
        SumsOfOne(g.players, m, key, a);
      }
    }
  }

  lemma AverageAdds(g: Rules, s: State, m: Meeting, weight: real)
    requires Fits(s) && m.kind.Averaged? && Met(s.nodes, m.key, |m.p|) && InStep(weight, m.reach, m.chosen, true)
    ensures Recorded(g.players, s, Add(s, m.key, Zeros(|m.p|), Scaled(weight, m.p)), [m])
  {
    WeightIsQuotient(weight, m.reach, m.chosen);
    AddRecords(g.players, s, Zeros(|m.p|), Scaled(weight, m.p), m);
  }

  lemma {:induction false} AverageRecords(mode: Mode, g: Rules, mix: nat -> nat, t: Tree, p: seq<real>, weight: real, reach: real,
                                          chosen: real, s: State)
    requires t.Turn? && |p| == |t.branches| > 0 && Fits(s) && Met(s.nodes, t.key, |p|) && InStep(weight, reach, chosen, true)
    requires WalkAverage(mode, g, mix, t, p, weight, s).status == Construction.Success
    ensures Recorded(g.players, s, WalkAverage(mode, g, mix, t, p, weight, s).state, AverageTrace(mode, g, mix, t, p, weight, reach, chosen, s))
    decreases t, |Kids(t)|, 1
  {
    var targeted := t.player == g.target;
    var s1 := if targeted then Add(s, t.key, Zeros(|p|), Scaled(weight, p)) else s;
    var m := Meeting(Averaged, t.key, p, [], reach, chosen);
    var first := [if targeted then m else Passing(reach, chosen)];
    if targeted {
      AverageAdds(g, s, m, weight);
    } else {
      PassingRecords(g.players, s, s, reach, chosen);
    }
    var random := Advance(s1.random);
    var action := Uniform(mix(random), |p|);
    var child := WeightBelow(g, t, p, weight, action);
    var s2 := s1.(random := random);
    SameRecordsFit(s1, s2);
    RecordedNothing(g.players, s1, s2);
    RecordedTwice(g.players, s, s1, s2, first, []);
    assert first + [] == first;
    if child != 0.0 {
      WeightInStep(targeted, p, weight, action, reach, chosen);
      var reach', chosen' := if targeted then Weighted(reach, p[action]) else reach, chosen / (|p| as real);
      WalkRecords(mode, g, mix, t.branches[action].next, child, reach', chosen', s2, true);
      RecordedTwice(g.players, s, s2, Walk(mode, g, mix, t.branches[action].next, child, s2, true).state, first,
                    Trace(mode, g, mix, t.branches[action].next, child, reach', chosen', s2, true));
    }
  }

  // ---- Every position met is counted ----

  // The visits grow by n, up to the largest size.
  ghost predicate Counted(s: State, s': State, n: int) {
    s.visits <= SIZE_MAX ==> s'.visits as int == if s.visits + n <= SIZE_MAX then s.visits + n else SIZE_MAX
  }

  lemma {:induction false} WalkCounts(mode: Mode, g: Rules, mix: nat -> nat, t: Tree, own: real, reach: real, chosen: real, s0: State,
                                      average: bool)
    requires Walk(mode, g, mix, t, own, s0, average).status == Construction.Success
    ensures Counted(s0, Walk(mode, g, mix, t, own, s0, average).state, |Trace(mode, g, mix, t, own, reach, chosen, s0, average)|)
    decreases t, |Kids(t)| + 1
  {
    var s := s0.(visits := Capped(s0.visits));
    match t
    case Leaf(_) =>
    case Nature(branches) =>
      var d := Draw(OddsOf(branches), s.random, mix);
      WalkCounts(mode, g, mix, t.branches[d.index].next, own, reach, chosen, s.(random := d.random), average);
    case Turn(player, key, branches) =>
      var l := Look(mode, s, key, ActionsOf(branches));
      if average {
        AverageCounts(mode, g, mix, t, l.p, own, reach, chosen, l.state);
      } else if player == g.target {
        TargetCounts(mode, g, mix, t, l.p, own, reach, chosen, l.state);
      } else {
        OpponentCounts(mode, g, mix, t, l.p, own, reach, chosen, l.state);
      }
  }

  lemma {:induction false} BranchesCount(mode: Mode, g: Rules, mix: nat -> nat, t: Tree, p: seq<real>, own: real, reach: real,
                                         chosen: real, s: State, n: nat)
    requires t.Turn? && |p| == |t.branches| && n <= |p|
    requires Branches(mode, g, mix, t, p, own, s, n).status == Construction.Success
    ensures Counted(s, Branches(mode, g, mix, t, p, own, s, n).state, |BranchesTrace(mode, g, mix, t, p, own, reach, chosen, s, n)|)
    decreases t, n, 0
  {
    if n > 0 {
      BranchesCount(mode, g, mix, t, p, own, reach, chosen, s, n - 1);
      var before := Branches(mode, g, mix, t, p, own, s, n - 1);
      WalkCounts(mode, g, mix, t.branches[n - 1].next, Weighted(own, p[n - 1]), Weighted(reach, p[n - 1]), chosen, before.state, false);
    }
  }

  lemma {:induction false} TargetCounts(mode: Mode, g: Rules, mix: nat -> nat, t: Tree, p: seq<real>, own: real, reach: real,
                                        chosen: real, s: State)
    requires t.Turn? && |p| == |t.branches| > 0
    requires WalkTarget(mode, g, mix, t, p, own, s).status == Construction.Success
    ensures Counted(s, WalkTarget(mode, g, mix, t, p, own, s).state, |TargetTrace(mode, g, mix, t, p, own, reach, chosen, s)| - 1)
    decreases t, |Kids(t)|, 1
  {
    BranchesCount(mode, g, mix, t, p, own, reach, chosen, s, |t.branches|);
  }

  lemma {:induction false} OpponentCounts(mode: Mode, g: Rules, mix: nat -> nat, t: Tree, p: seq<real>, own: real, reach: real,
                                          chosen: real, s: State)
    requires t.Turn? && |p| == |t.branches| > 0
    requires WalkOpponent(mode, g, mix, t, p, own, s).status == Construction.Success
    ensures Counted(s, WalkOpponent(mode, g, mix, t, p, own, s).state,
                    |OpponentTrace(mode, g, mix, t, p, own, reach, chosen, s)| - 1)
    decreases t, |Kids(t)|, 1
  {
    var a := Sample(mode, s, t.key, ActionsOf(t.branches), p, mix);
    var s1 := if g.players <= 2 then Add(a.state, t.key, Zeros(|p|), Scaled(1.0, p)) else a.state;
    WalkCounts(mode, g, mix, t.branches[a.index].next, own, reach, chosen, s1, false);
  }

  lemma {:induction false} AverageCounts(mode: Mode, g: Rules, mix: nat -> nat, t: Tree, p: seq<real>, weight: real, reach: real,
                                         chosen: real, s: State)
    requires t.Turn? && |p| == |t.branches| > 0
    requires WalkAverage(mode, g, mix, t, p, weight, s).status == Construction.Success
    ensures Counted(s, WalkAverage(mode, g, mix, t, p, weight, s).state,
                    |AverageTrace(mode, g, mix, t, p, weight, reach, chosen, s)| - 1)
    decreases t, |Kids(t)|, 1
  {
    var targeted := t.player == g.target;
    var s1 := if targeted then Add(s, t.key, Zeros(|p|), Scaled(weight, p)) else s;
    var random := Advance(s1.random);
    var action := Uniform(mix(random), |p|);
    var child := WeightBelow(g, t, p, weight, action);
    if child != 0.0 {
      WalkCounts(mode, g, mix, t.branches[action].next, child, if targeted then Weighted(reach, p[action]) else reach,
                 chosen / (|p| as real), s1.(random := random), true);
    }
  }

  // ---- Whole traversals ----

  // The decisions of the pass that trains, and with more than two players of the pass for the average.
  function TraverseTrace(mode: Mode, g: Rules, mix: nat -> nat, t: Tree, s: State): seq<Meeting> {
    Trace(mode, g, mix, t, 1.0, 1.0, 1.0, s, false)
    + if g.players <= 2 then [] else
        Trace(mode, g, mix, t, 1.0, 1.0, 1.0, Walk(mode, g, mix, t, 1.0, s, false).state, true)
  }

  // The pending changes of a traversal are the sums, over the positions it met and counted, of what each is owed: for a regret what
  // the action earned above the average, for a strategy sum the strategy weighed by the reach.
  lemma TraverseRecords(mode: Mode, g: Rules, mix: nat -> nat, t: Tree, s: State)
    requires Fits(s) && Traverse(mode, g, mix, t, s).status == Construction.Success
    ensures Recorded(g.players, s, Traverse(mode, g, mix, t, s).state, TraverseTrace(mode, g, mix, t, s))
    ensures Counted(s, Traverse(mode, g, mix, t, s).state, |TraverseTrace(mode, g, mix, t, s)|)
  {
    var r := Walk(mode, g, mix, t, 1.0, s, false);
    WalkCounts(mode, g, mix, t, 1.0, 1.0, 1.0, s, false);
    if g.players > 2 {
      WalkCounts(mode, g, mix, t, 1.0, 1.0, 1.0, r.state, true);
    }
    WalkRecords(mode, g, mix, t, 1.0, 1.0, 1.0, s, false);
    var first := Trace(mode, g, mix, t, 1.0, 1.0, 1.0, s, false);
    if g.players > 2 {
      WalkRecords(mode, g, mix, t, 1.0, 1.0, 1.0, r.state, true);
      RecordedTwice(g.players, s, r.state, Walk(mode, g, mix, t, 1.0, r.state, true).state, first,
                    Trace(mode, g, mix, t, 1.0, 1.0, 1.0, r.state, true));
    } else {
      assert first + [] == first;
    }
  }

  // The utility of a traversal that begins with the target's own decision is the average there of what the branches earned.
  lemma TraverseEarns(mode: Mode, g: Rules, mix: nat -> nat, t: Tree, s: State)
    requires t.Turn? && t.player == g.target && Traverse(mode, g, mix, t, s).status == Construction.Success
    ensures var ms := Trace(mode, g, mix, t, 1.0, 1.0, 1.0, s, false);
      && ms != [] && ms[|ms| - 1].kind.Target? && ms[|ms| - 1].key == t.key
      && var m := ms[|ms| - 1];
         Traverse(mode, g, mix, t, s).utility
         == Sum((b: nat) => if b < |m.p| && b < |m.utilities| then Weighted(m.p[b], m.utilities[b]) else 0.0, 0, |m.p|)
  {
    var s1 := s.(visits := Capped(s.visits));
    var l := Look(mode, s1, t.key, ActionsOf(t.branches));
    assert Walk(mode, g, mix, t, 1.0, s, false) == WalkTurn(mode, g, mix, t, l.p, 1.0, l.state, false);
    assert WalkTurn(mode, g, mix, t, l.p, 1.0, l.state, false) == WalkTarget(mode, g, mix, t, l.p, 1.0, l.state);
    SampledRegret.UtilityIsAverage(mode, g, mix, t, l.p, 1.0, l.state, |t.branches|);
    var utilities := Branches(mode, g, mix, t, l.p, 1.0, l.state, |t.branches|).utilities;
    SumExt(SampledRegret.Weights(l.p, utilities),
           (b: nat) => if b < |l.p| && b < |utilities| then Weighted(l.p[b], utilities[b]) else 0.0, 0, |l.p|);
  }

  function SumBefore(x: Totals, key: Key, n: nat, a: nat): real {
    if key in x && |x[key]| == n && a < n then x[key][a] else 0.0
  }

  // What a traversal and its commit leave in one action's sums.
  ghost predicate Adds(players: nat, x: Learned, x': Learned, ms: seq<Meeting>, k: Key, a: nat)
    requires k in x'.regrets && a < |x'.regrets[k]|
  {
    var n := |x'.regrets[k]|;
    && x'.regrets[k][a] == SumBefore(x.regrets, k, n, a) + RegretSum(ms, k, a)
    && k in x'.strategies && |x'.strategies[k]| == n
    && x'.strategies[k][a] == SumBefore(x.strategies, k, n, a) + StrategySum(players, ms, k, a)
  }

  // A successful traversal and commit add to every action's sums exactly what the decisions met are owed.
  lemma TeachAdds(mode: Mode, g: Rules, mix: nat -> nat, t: Tree, x: Learned, random: nat)
    requires Teach(mode, g, mix, t, x, random).status == Construction.Success
    ensures var x' := Teach(mode, g, mix, t, x, random).learned;
      var ms := TraverseTrace(mode, g, mix, t, SnapshotRefinement.Start(random, Counts(x)));
      && (forall k :: k in x.regrets ==> k in x'.regrets && |x'.regrets[k]| == |x.regrets[k]|)
      && forall k, a: nat :: k in x'.regrets && a < |x'.regrets[k]| ==> Adds(g.players, x, x', ms, k, a)
  {
    var s := SnapshotRefinement.Start(random, Counts(x));
    var x', r := Teach(mode, g, mix, t, x, random).learned, Traverse(mode, g, mix, t, s).state;
    TraverseRecords(mode, g, mix, t, s);
    forall k | k in x.regrets ensures k in r.nodes && r.nodes[k] == |x.regrets[k]| {
      assert Kept(s.nodes, r.nodes);
    }
    forall k, a: nat | k in x'.regrets && a < |x'.regrets[k]|
      ensures Adds(g.players, x, x', TraverseTrace(mode, g, mix, t, s), k, a)
    {
      AddedAdds(g.players, x, s, r, TraverseTrace(mode, g, mix, t, s), k, a);
    }
  }

  lemma AddedAdds(players: nat, x: Learned, s: State, r: State, ms: seq<Meeting>, k: Key, a: nat)
    requires s.pending == map[] && Recorded(players, s, r, ms) && k in r.nodes && a < r.nodes[k]
    ensures Adds(players, x, Learned(AddedTo(x.regrets, r.nodes, Regrets(r.pending)), AddedTo(x.strategies, r.nodes, Strategies(r.pending))),
                 ms, k, a)
  {
    assert RecordedAt(players, s, r, ms, k, a);
    if k in r.pending {
      assert PendingFits(r, k);
    }
  }

  // ---- One decision by itself ----

  // The target chooses once, among ends of the game.
  predicate OneChoice(g: Rules, t: Tree) {
    && t.Turn? && t.player == g.target && 1 <= |t.branches| <= g.maxActions
    && forall b :: 0 <= b < |t.branches| ==> t.branches[b].next.Leaf?
  }

  lemma {:induction false} EndsEarn(mode: Mode, g: Rules, mix: nat -> nat, t: Tree, p: seq<real>, own: real, s: State, n: nat)
    requires OneChoice(g, t) && |p| == |t.branches| && n <= |p|
    ensures var l := Branches(mode, g, mix, t, p, own, s, n);
      && l.status == Construction.Success && l.state.pending == s.pending
      && forall b: nat :: b < n ==> l.utilities[b] == t.branches[b].next.utility
    decreases n
  {
    if n > 0 {
      EndsEarn(mode, g, mix, t, p, own, s, n - 1);
    }
  }

  // What action a is worth above the average of the ends.
  function Excess(p: seq<real>, t: Tree, a: nat): real
    requires t.Turn? && a < |t.branches| && t.branches[a].next.Leaf?
  {
    t.branches[a].next.utility
    - Sum((b: nat) => if b < |p| && b < |t.branches| && t.branches[b].next.Leaf? then Weighted(p[b], t.branches[b].next.utility) else 0.0,
          0, |t.branches|)
  }

  // Where the target chooses once, among ends of the game, the traversal records for each action what it is worth above
  // the average of all under the strategy: something positive exactly for an action that is better than average.
  lemma OneChoiceRecords(profile: Profile, g: Rules, mix: nat -> nat, t: Tree, random: nat, a: nat)
    requires OneChoice(g, t) && g.players <= 2 && CanTraverse(g) && a < |t.branches|
    requires |profile(t.key, |t.branches|)| == |t.branches|
    ensures var p := profile(t.key, |t.branches|);
      var r := Traverse(Sequential(profile), g, mix, t, SnapshotRefinement.Start(random, map[]));
      && r.status == Construction.Success
      && t.key in r.state.pending && |r.state.pending[t.key].regret| == |t.branches|
      && r.state.pending[t.key].regret[a] == Excess(p, t, a)
  {
    var p, n, s0 := profile(t.key, |t.branches|), |t.branches|, SnapshotRefinement.Start(random, map[]);
    var mode := Sequential(profile);
    var s := Look(mode, s0.(visits := Capped(s0.visits)), t.key, ActionsOf(t.branches)).state;
    assert Walk(mode, g, mix, t, 1.0, s0, false) == WalkTarget(mode, g, mix, t, p, 1.0, s) by {
      assert Walk(mode, g, mix, t, 1.0, s0, false) == WalkTurn(mode, g, mix, t, p, 1.0, s, false);
    }
    EndsEarn(mode, g, mix, t, p, 1.0, s, n);
    SampledRegret.UtilityIsAverage(mode, g, mix, t, p, 1.0, s, n);
    var l := Branches(mode, g, mix, t, p, 1.0, s, n);
    SumExt(SampledRegret.Weights(p, l.utilities),
           (b: nat) => if b < |p| && b < |t.branches| && t.branches[b].next.Leaf? then Weighted(p[b], t.branches[b].next.utility) else 0.0, 0, n);
  }
}
