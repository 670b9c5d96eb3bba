// Games on which a sampled traversal always succeeds: every position is in order, and each information set lists its
// actions in one way.
module SampledSuccess {
  import opened Sums
  import opened ExternalSampling
  import opened EvaluationChecks
  import Construction
  import SampledRegret
  import SnapshotRefinement
  import Sampling
  import Play
  import R = RegretMatching

  type Order = Key -> seq<Action>

  // A position with some but not too many branches: at a chance node a distribution, as far as rounding allows; at a
  // decision one of the players, and the actions that the information set always lists.
  ghost predicate Playable(g: Rules, order: Order, t: Tree)
    decreases t
  {
    t.Leaf? ||
    (&& 1 <= |t.branches| <= g.maxActions
     && (t.Nature? ==>
           && (forall a :: 0 <= a < |t.branches| ==> t.branches[a].probability >= 0.0)
           && NearOne(Sampling.Cumulative(OddsOf(t.branches), |t.branches|)))
     && (t.Turn? ==> Play.PlayerIsValid(g.players, t.player) && ActionsOf(t.branches) == order(t.key))
     && forall a: nat :: a < |t.branches| ==> Playable(g, order, t.branches[a].next))
  }

  // What has been met agrees with that, and sampled actions can be played.
  ghost predicate Agrees(order: Order, profile: Profile, s: State) {
    && (forall key :: key in s.nodes ==> s.nodes[key] == |order(key)|)
    && (forall key :: key in s.memo ==> MemoAgrees(order, profile, s.memo[key], key))
  }

  ghost predicate MemoAgrees(order: Order, profile: Profile, m: Memo, key: Key) {
    var n := |order(key)|;
    && m.actions == order(key)
    && (m.sampled.Some? ==> m.sampled.value < n && |profile(key, n)| == n && profile(key, n)[m.sampled.value] > 0.0)
  }

  ghost predicate Succeeds(order: Order, profile: Profile, r: Result) {
    r.status == Construction.Success && Agrees(order, profile, r.state)
  }

  lemma ChanceDraws(g: Rules, t: Tree, random: nat, mix: nat -> nat)
    requires t.Nature? && 1 <= |t.branches| <= g.maxActions <= MAX_ACTIONS
    requires forall a :: 0 <= a < |t.branches| ==> t.branches[a].probability >= 0.0
    requires NearOne(Sampling.Cumulative(OddsOf(t.branches), |t.branches|))
    ensures var odds := OddsOf(t.branches); var d := Draw(odds, random, mix);
      ChanceOk(odds, g.maxActions) && d.status == Construction.Success && d.index < |odds| && odds[d.index] > 0.0
  {
    var odds := OddsOf(t.branches);
    NearOneSum(Sampling.Cumulative(odds, |odds|));
    PickDraws(odds, mix(Advance(random)) % Sampling.WORD);
  }

  lemma LookAgrees(order: Order, profile: Profile, s: State, key: Key)
    requires Agrees(order, profile, s)
    ensures var l := Look(Sequential(profile), s, key, order(key));
      && l.status == Construction.Success && l.p == profile(key, |order(key)|)
      && Agrees(order, profile, l.state)
  {
  }

  lemma MixedDraws(profile: Profile, key: Key, n: nat, random: nat, mix: nat -> nat)
    requires SampledRegret.Mixed(profile) && 0 < n <= MAX_ACTIONS
    ensures var d := Draw(profile(key, n), random, mix);
      d.status == Construction.Success && |profile(key, n)| == n && d.index < n && profile(key, n)[d.index] > 0.0
  {
    var p := profile(key, n);
    assert R.Distribution(p);
    TotalIsCumulative(p, n);
    PickDraws(p, mix(Advance(random)) % Sampling.WORD);
  }

  lemma {:induction false} TotalIsCumulative(p: seq<real>, n: nat)
    requires n <= |p|
    ensures Sampling.Cumulative(p, n) == Sum(R.Nth(p), 0, n)
    decreases n
  {
    if n > 0 {
      TotalIsCumulative(p, n - 1);
    }
  }

  lemma SampleAgrees(order: Order, profile: Profile, s: State, key: Key, mix: nat -> nat)
    requires SampledRegret.Mixed(profile) && Agrees(order, profile, s) && 0 < |order(key)| <= MAX_ACTIONS
    ensures var n := |order(key)|;
      var a := Sample(Sequential(profile), s, key, order(key), profile(key, n), mix);
      && a.status == Construction.Success && |profile(key, n)| == n && a.index < n && profile(key, n)[a.index] > 0.0
      && Agrees(order, profile, a.state)
  {
    MixedDraws(profile, key, |order(key)|, s.random, mix);
    if key in s.memo {
      assert MemoAgrees(order, profile, s.memo[key], key);
    }
  }

  // What the walks may rely on.
  ghost predicate Sets(g: Rules, profile: Profile) {
    g.maxActions <= MAX_ACTIONS && SampledRegret.Mixed(profile)
  }

  lemma {:induction false} WalkSucceeds(g: Rules, order: Order, profile: Profile, mix: nat -> nat, t: Tree, own: real, s0: State,
                                        average: bool)
    requires Sets(g, profile) && Playable(g, order, t) && Agrees(order, profile, s0) && own >= 0.0
    ensures Succeeds(order, profile, Walk(Sequential(profile), g, mix, t, own, s0, average))
    decreases t, |Kids(t)| + 1
  {
    var s := s0.(visits := Capped(s0.visits));
    match t
    case Leaf(_) =>
    case Nature(branches) =>
      ChanceDraws(g, t, s.random, mix);
      var d := Draw(OddsOf(branches), s.random, mix);
      WalkSucceeds(g, order, profile, mix, branches[d.index].next, own, s.(random := d.random), average);
    case Turn(player, key, branches) =>
      LookAgrees(order, profile, s, key);
      assert |profile(key, |branches|)| == |branches|;
      var l := Look(Sequential(profile), s, key, ActionsOf(branches)).state;
      if average {
        AverageSucceeds(g, order, profile, mix, t, own, l);
      } else if player == g.target {
        TargetSucceeds(g, order, profile, mix, t, own, l);
      } else {
        OpponentSucceeds(g, order, profile, mix, t, own, l);
      }
  }

  lemma {:induction false} BranchesSucceed(g: Rules, order: Order, profile: Profile, mix: nat -> nat, t: Tree, p: seq<real>, own: real,
                                           s: State, n: nat)
    requires Sets(g, profile) && t.Turn? && Playable(g, order, t) && Agrees(order, profile, s) && own >= 0.0
    requires |p| == |t.branches| && n <= |p| && forall i :: 0 <= i < |p| ==> p[i] >= 0.0
    ensures var l := Branches(Sequential(profile), g, mix, t, p, own, s, n);
      l.status == Construction.Success && Agrees(order, profile, l.state)
    decreases t, n, 0
  {
    if n > 0 {
      BranchesSucceed(g, order, profile, mix, t, p, own, s, n - 1);
      var before := Branches(Sequential(profile), g, mix, t, p, own, s, n - 1);
      SampledRegret.Positive(own, p[n - 1]);
      WalkSucceeds(g, order, profile, mix, t.branches[n - 1].next, Weighted(own, p[n - 1]), before.state, false);
    }
  }

  lemma {:induction false} TargetSucceeds(g: Rules, order: Order, profile: Profile, mix: nat -> nat, t: Tree, own: real, s: State)
    requires Sets(g, profile) && t.Turn? && Playable(g, order, t) && Agrees(order, profile, s) && own >= 0.0
    requires |profile(t.key, |t.branches|)| == |t.branches|
    ensures Succeeds(order, profile, WalkTarget(Sequential(profile), g, mix, t, profile(t.key, |t.branches|), own, s))
    decreases t, |Kids(t)|, 1
  {
    var p := profile(t.key, |t.branches|);
    assert R.Distribution(p);
    BranchesSucceed(g, order, profile, mix, t, p, own, s, |t.branches|);
  }

  lemma {:induction false} OpponentSucceeds(g: Rules, order: Order, profile: Profile, mix: nat -> nat, t: Tree, own: real, s: State)
    requires Sets(g, profile) && t.Turn? && Playable(g, order, t) && Agrees(order, profile, s) && own >= 0.0
    requires |profile(t.key, |t.branches|)| == |t.branches|
    ensures Succeeds(order, profile, WalkOpponent(Sequential(profile), g, mix, t, profile(t.key, |t.branches|), own, s))
    decreases t, |Kids(t)|, 1
  {
    var p := profile(t.key, |t.branches|);
    SampleAgrees(order, profile, s, t.key, mix);
    var a := Sample(Sequential(profile), s, t.key, ActionsOf(t.branches), p, mix);
    var s1 := if g.players <= 2 then Add(a.state, t.key, Zeros(|p|), Scaled(1.0, p)) else a.state;
    WalkSucceeds(g, order, profile, mix, t.branches[a.index].next, own, s1, false);
  }

  lemma {:induction false} AverageSucceeds(g: Rules, order: Order, profile: Profile, mix: nat -> nat, t: Tree, weight: real, s: State)
    requires Sets(g, profile) && t.Turn? && Playable(g, order, t) && Agrees(order, profile, s) && weight >= 0.0
    requires |profile(t.key, |t.branches|)| == |t.branches|
    ensures Succeeds(order, profile, WalkAverage(Sequential(profile), g, mix, t, profile(t.key, |t.branches|), weight, s))
    decreases t, |Kids(t)|, 1
  {
    var p := profile(t.key, |t.branches|);
    assert R.Distribution(p);
    var s1 := if t.player == g.target then Add(s, t.key, Zeros(|p|), Scaled(weight, p)) else s;
    var random := Advance(s1.random);
    var action := Uniform(mix(random), |p|);
    var child := WeightBelow(g, t, p, weight, action);
    SampledRegret.Positive(weight, p[action]);
    SampledRegret.Positive(if t.player == g.target then Weighted(weight, p[action]) else weight, |p| as real);
    WalkSucceeds(g, order, profile, mix, t.branches[action].next, child, s1.(random := random), true);
  }

  // On a game that is in order, for every player, random state and strategy, and whatever nodes the game has met before,
  // the traversal succeeds.
  lemma PlayableSucceeds(g: Rules, order: Order, profile: Profile, mix: nat -> nat, t: Tree, random: nat,
                         nodes: map<Key, nat>)
    requires 1 <= g.players <= 4 && g.target < (if g.players == 1 then 2 else g.players) && 1 <= g.maxActions <= 64
    requires SampledRegret.Mixed(profile) && Playable(g, order, t) && forall key :: key in nodes ==> nodes[key] == |order(key)|
    ensures Traverse(Sequential(profile), g, mix, t, SnapshotRefinement.Start(random, nodes)).status == Construction.Success
  {
    var s := SnapshotRefinement.Start(random, nodes);
    WalkSucceeds(g, order, profile, mix, t, 1.0, s, false);
    WalkSucceeds(g, order, profile, mix, t, 1.0, Walk(Sequential(profile), g, mix, t, 1.0, s, false).state, true);
  }
}
