// What an external-sampling traversal leaves to be committed: at each information set a regret change that is
// orthogonal to the strategy played there, and a strategy change that is a multiple of it.
module SampledRegret {
  import opened Sums
  import opened ExternalSampling
  import Construction
  import R = RegretMatching

  ghost predicate Mixed(profile: Profile) {
    forall key, n: nat :: |profile(key, n)| == n && (n > 0 ==> R.Distribution(profile(key, n)))
  }

  ghost predicate MultipleAt(d: seq<real>, p: seq<real>, w: real) {
    |d| == |p| && w >= 0.0 && forall i :: 0 <= i < |d| ==> d[i] == Weighted(w, p[i])
  }

  ghost predicate Multiple(d: seq<real>, p: seq<real>) {
    exists w :: MultipleAt(d, p, w)
  }

  ghost predicate Sound(profile: Profile, s: State) {
    forall key :: key in s.pending ==> SoundAt(profile, s, key)
  }

  ghost predicate SoundAt(profile: Profile, s: State, key: Key)
    requires key in s.pending
  {
    && key in s.nodes && s.nodes[key] > 0
    && var p, d := profile(key, s.nodes[key]), s.pending[key];
       |d.regret| == |d.strategy| == |p| && R.Dot(p, d.regret) == 0.0 && Multiple(d.strategy, p)
  }

  // ---- Arithmetic ----

  lemma Spread(p: real, d: real, e: real)
    ensures p * (d + e) == p * d + p * e
  {
  }

  lemma DotPlus(p: seq<real>, d: seq<real>, e: seq<real>)
    requires |p| == |d| == |e|
    ensures R.Dot(p, R.Plus(d, e)) == R.Dot(p, d) + R.Dot(p, e)
  {
    var f := R.Plus(d, e);
    forall a: nat | a < |p|
      ensures R.Products(p, f)(a) == R.Products(p, d)(a) + R.Products(p, e)(a)
    {
      Spread(p[a], d[a], e[a]);
    }
    SumPlus(R.Products(p, d), R.Products(p, e), R.Products(p, f), 0, |p|);
  }

  lemma DotZeros(p: seq<real>)
    ensures R.Dot(p, Zeros(|p|)) == 0.0
  {
    forall a: nat | a < |p|
      ensures R.Products(p, Zeros(|p|))(a) == 0.0
    {
    }
    SumZero(R.Products(p, Zeros(|p|)), 0, |p|);
  }

  lemma MultiplePlus(d: seq<real>, e: seq<real>, p: seq<real>)
    requires Multiple(d, p) && Multiple(e, p)
    ensures Multiple(R.Plus(d, e), p)
  {
    var w :| MultipleAt(d, p, w);
    var x :| MultipleAt(e, p, x);
    forall i | 0 <= i < |d|
      ensures R.Plus(d, e)[i] == Weighted(w + x, p[i])
    {
      Spread(p[i], w, x);
    }
    assert MultipleAt(R.Plus(d, e), p, w + x);
  }

  lemma MultipleZeros(p: seq<real>)
    ensures Multiple(Zeros(|p|), p)
  {
    assert MultipleAt(Zeros(|p|), p, 0.0);
  }

  lemma MultipleScaled(w: real, p: seq<real>)
    requires w >= 0.0
    ensures Multiple(Scaled(w, p), p)
  {
    assert MultipleAt(Scaled(w, p), p, w);
  }

  // ---- A target node ----

  function Weights(p: seq<real>, us: seq<real>): nat -> real {
    (i: nat) => if i < |p| && i < |us| then Weighted(p[i], us[i]) else 0.0
  }

  // The utility of a target node is the average of its branches' utilities under the strategy.
  lemma {:induction false} UtilityIsAverage(mode: Mode, g: Rules, mix: nat -> nat, t: Tree, p: seq<real>, own: real, s: State,
                                            n: nat)
    requires t.Turn? && |p| == |t.branches| && n <= |p|
    ensures var l := Branches(mode, g, mix, t, p, own, s, n);
      l.status == Construction.Success ==> l.utility == Sum(Weights(p, l.utilities), 0, n)
    decreases n
  {
    if n > 0 {
      UtilityIsAverage(mode, g, mix, t, p, own, s, n - 1);
      var before := Branches(mode, g, mix, t, p, own, s, n - 1);
      var l := Branches(mode, g, mix, t, p, own, s, n);
      if l.status == Construction.Success {
        SumExt(Weights(p, before.utilities), Weights(p, l.utilities), 0, n - 1);
      }
    }
  }

  lemma Less(p: real, u: real, mean: real)
    ensures p * (u - mean) == 1.0 * Weighted(p, u) + (-mean) * p
  {
  }

  lemma Cancels(mean: real, total: real)
    requires total == 1.0
    ensures 1.0 * mean + (-mean) * total == 0.0
  {
  }

  // So the differences from it are orthogonal to the strategy.
  lemma DifferencesOrthogonal(p: seq<real>, us: seq<real>, mean: real)
    requires |p| == |us| > 0 && R.Distribution(p)
    requires mean == Sum(Weights(p, us), 0, |p|)
    ensures R.Dot(p, Shifted(us, mean)) == 0.0
  {
    var d := Shifted(us, mean);
    var f, h := Weights(p, us), R.Products(p, d);
    forall i: nat | i < |p|
      ensures h(i) == 1.0 * f(i) + (-mean) * R.Nth(p)(i)
    {
      DifferenceTerm(p, us, mean, i);
    }
    SumLinear(f, R.Nth(p), h, 1.0, -mean, 0, |p|);
    Cancels(mean, R.Total(p));
  }

  lemma DifferenceTerm(p: seq<real>, us: seq<real>, mean: real, i: nat)
    requires |p| == |us| && i < |p|
    ensures R.Products(p, Shifted(us, mean))(i) == 1.0 * Weights(p, us)(i) + (-mean) * R.Nth(p)(i)
  {
    Less(p[i], us[i], mean);
  }

  // ---- The walk keeps it ----

  lemma AddSound(profile: Profile, s: State, key: Key, regret: seq<real>, strategy: seq<real>)
    requires Mixed(profile) && Sound(profile, s)
    requires key in s.nodes && s.nodes[key] == |regret| == |strategy| > 0
    requires var p := profile(key, s.nodes[key]);
      R.Dot(p, regret) == 0.0 && Multiple(strategy, p)
    ensures Sound(profile, Add(s, key, regret, strategy))
  {
    var p := profile(key, s.nodes[key]);
    var d := PendingAt(s.pending, key, |regret|);
    if key in s.pending {
      assert SoundAt(profile, s, key);
    } else {
      DotZeros(p);
      MultipleZeros(p);
    }
    DotPlus(p, d.regret, regret);
    MultiplePlus(d.strategy, strategy, p);
    var s' := Add(s, key, regret, strategy);
    forall k | k in s'.pending
      ensures SoundAt(profile, s', k)
    {
      if k != key {
        assert SoundAt(profile, s, k);
      }
    }
  }

  // The nodes already met keep their number of actions.
  ghost predicate NodesKept(s: State, s': State) {
    forall key :: key in s.nodes ==> key in s'.nodes && s'.nodes[key] == s.nodes[key]
  }

  lemma SoundAfter(profile: Profile, s: State, s': State)
    requires Sound(profile, s) && s'.pending == s.pending && NodesKept(s, s')
    ensures Sound(profile, s')
  {
    forall key | key in s'.pending
      ensures SoundAt(profile, s', key)
    {
      assert SoundAt(profile, s, key);
    }
  }

  ghost predicate Goes(profile: Profile, s: State, s': State) {
    Sound(profile, s') && NodesKept(s, s')
  }

  lemma {:induction false} WalkSound(profile: Profile, g: Rules, mix: nat -> nat, t: Tree, own: real, s0: State,
                                     average: bool)
    requires Mixed(profile) && Sound(profile, s0) && own >= 0.0
    ensures Goes(profile, s0, Walk(Sequential(profile), g, mix, t, own, s0, average).state)
    decreases t, |Kids(t)| + 1
  {
    var s := s0.(visits := Capped(s0.visits));
    SoundAfter(profile, s0, s);
    match t
    case Leaf(_) =>
    case Nature(branches) =>
      var d := Draw(OddsOf(branches), s.random, mix);
      var s1 := s.(random := d.random);
      SoundAfter(profile, s0, s1);
      if d.status == Construction.Success {
        WalkSound(profile, g, mix, t.branches[d.index].next, own, s1, average);
      }
    case Turn(player, key, branches) =>
      var l := Look(Sequential(profile), s, key, ActionsOf(branches));
      SoundAfter(profile, s0, l.state);
      if l.status == Construction.Success && |l.p| == |branches| && |branches| > 0 {
        TurnSound(profile, g, mix, t, l.p, own, l.state, average);
      }
  }

  lemma {:induction false} TurnSound(profile: Profile, g: Rules, mix: nat -> nat, t: Tree, p: seq<real>, own: real, s: State,
                                     average: bool)
    requires t.Turn? && |p| == |t.branches| > 0
    requires Mixed(profile) && Sound(profile, s) && own >= 0.0
    requires t.key in s.nodes && s.nodes[t.key] == |p| && p == profile(t.key, |p|)
    ensures Goes(profile, s, WalkTurn(Sequential(profile), g, mix, t, p, own, s, average).state)
    decreases t, |Kids(t)|, 2
  {
    if average {
      AverageSound(profile, g, mix, t, p, own, s);
    } else if t.player == g.target {
      TargetSound(profile, g, mix, t, p, own, s);
    } else {
      OpponentSound(profile, g, mix, t, p, own, s);
    }
  }

  lemma Positive(x: real, y: real)
    requires x >= 0.0 && y >= 0.0
    ensures Weighted(x, y) >= 0.0
  {
  }

  lemma {:induction false} BranchesSound(profile: Profile, g: Rules, mix: nat -> nat, t: Tree, p: seq<real>, own: real,
                                         s: State, n: nat)
    requires t.Turn? && |p| == |t.branches| && n <= |p|
    requires Mixed(profile) && Sound(profile, s) && own >= 0.0 && forall i :: 0 <= i < |p| ==> p[i] >= 0.0
    ensures Goes(profile, s, Branches(Sequential(profile), g, mix, t, p, own, s, n).state)
    decreases t, n, 0
  {
    if n > 0 {
      BranchesSound(profile, g, mix, t, p, own, s, n - 1);
      var before := Branches(Sequential(profile), g, mix, t, p, own, s, n - 1);
      if before.status == Construction.Success {
        Positive(own, p[n - 1]);
        WalkSound(profile, g, mix, t.branches[n - 1].next, Weighted(own, p[n - 1]), before.state, false);
      }
    }
  }

  lemma {:induction false} TargetSound(profile: Profile, g: Rules, mix: nat -> nat, t: Tree, p: seq<real>, own: real,
                                       s: State)
    requires t.Turn? && |p| == |t.branches| > 0
    requires Mixed(profile) && Sound(profile, s) && own >= 0.0
    requires t.key in s.nodes && s.nodes[t.key] == |p| && p == profile(t.key, |p|)
    ensures Goes(profile, s, WalkTarget(Sequential(profile), g, mix, t, p, own, s).state)
    decreases t, |Kids(t)|, 1
  {
    assert R.Distribution(p);
    BranchesSound(profile, g, mix, t, p, own, s, |t.branches|);
    var l := Branches(Sequential(profile), g, mix, t, p, own, s, |t.branches|);
    if l.status == Construction.Success {
      UtilityIsAverage(Sequential(profile), g, mix, t, p, own, s, |t.branches|);
      DifferencesOrthogonal(p, l.utilities, l.utility);
      MultipleScaled(own, p);
      MultipleZeros(p);
      AddSound(profile, l.state, t.key, Shifted(l.utilities, l.utility),
               if g.players == 1 then Scaled(own, p) else Zeros(|p|));
    }
  }

  lemma {:induction false} OpponentSound(profile: Profile, g: Rules, mix: nat -> nat, t: Tree, p: seq<real>, own: real,
                                         s: State)
    requires t.Turn? && |p| == |t.branches| > 0
    requires Mixed(profile) && Sound(profile, s) && own >= 0.0
    requires t.key in s.nodes && s.nodes[t.key] == |p| && p == profile(t.key, |p|)
    ensures Goes(profile, s, WalkOpponent(Sequential(profile), g, mix, t, p, own, s).state)
    decreases t, |Kids(t)|, 1
  {
    var a := Sample(Sequential(profile), s, t.key, ActionsOf(t.branches), p, mix);
    SoundAfter(profile, s, a.state);
    if a.status == Construction.Success && a.index < |p| {
      DotZeros(p);
      MultipleScaled(1.0, p);
      AddSound(profile, a.state, t.key, Zeros(|p|), Scaled(1.0, p));
      var s1 := if g.players <= 2 then Add(a.state, t.key, Zeros(|p|), Scaled(1.0, p)) else a.state;
      WalkSound(profile, g, mix, t.branches[a.index].next, own, s1, false);
    }
  }

  lemma {:induction false} AverageSound(profile: Profile, g: Rules, mix: nat -> nat, t: Tree, p: seq<real>, weight: real,
                                        s: State)
    requires t.Turn? && |p| == |t.branches| > 0
    requires Mixed(profile) && Sound(profile, s) && weight >= 0.0
    requires t.key in s.nodes && s.nodes[t.key] == |p| && p == profile(t.key, |p|)
    ensures Goes(profile, s, WalkAverage(Sequential(profile), g, mix, t, p, weight, s).state)
    decreases t, |Kids(t)|, 1
  {
    assert R.Distribution(p);
    DotZeros(p);
    MultipleScaled(weight, p);
    AddSound(profile, s, t.key, Zeros(|p|), Scaled(weight, p));
    var s1 := if t.player == g.target then Add(s, t.key, Zeros(|p|), Scaled(weight, p)) else s;
    var random := Advance(s1.random);
    var action := Uniform(mix(random), |p|);
    var s2 := s1.(random := random);
    SoundAfter(profile, s1, s2);
    var child := WeightBelow(g, t, p, weight, action);
    Positive(weight, p[action]);
    Positive(if t.player == g.target then Weighted(weight, p[action]) else weight, |p| as real);
    WalkSound(profile, g, mix, t.branches[action].next, child, s2, true);
  }

  // ---- Whole traversals ----

  lemma TraverseSound(profile: Profile, g: Rules, mix: nat -> nat, t: Tree, s: State)
    requires Mixed(profile) && s.pending == map[]
    ensures Sound(profile, Traverse(Sequential(profile), g, mix, t, s).state)
  {
    WalkSound(profile, g, mix, t, 1.0, s, false);
    var r := Walk(Sequential(profile), g, mix, t, 1.0, s, false);
    WalkSound(profile, g, mix, t, 1.0, r.state, true);
  }

  // What the nodes' accumulated regrets are, and the profile that regret matching makes of them.
  type Regrets = (Key, nat) -> seq<real>

  function Matched(regrets: Regrets): Profile {
    (key: Key, n: nat) => if n > 0 && |regrets(key, n)| == n then R.Match(regrets(key, n)) else Zeros(n)
  }

  lemma MatchedIsMixed(regrets: Regrets)
    requires forall k, n: nat :: |regrets(k, n)| == n
    ensures Mixed(Matched(regrets))
  {
    var profile := Matched(regrets);
    forall k, n: nat
      ensures |profile(k, n)| == n && (n > 0 ==> R.Distribution(profile(k, n)))
    {
      if n > 0 {
        R.MatchIsDistribution(regrets(k, n));
        assert profile(k, n) == R.Match(regrets(k, n));
      } else {
        assert profile(k, n) == Zeros(n);
      }
    }
  }

  // Committing a sampled traversal raises the regret potential of a node by at most the squared norm of its
  // change, as committing a full one does.
  lemma SampledPotential(regrets: Regrets, g: Rules, mix: nat -> nat, t: Tree, s: State, key: Key)
    requires s.pending == map[] && forall k, n: nat :: |regrets(k, n)| == n
    requires key in Traverse(Sequential(Matched(regrets)), g, mix, t, s).state.pending
    ensures var r := Traverse(Sequential(Matched(regrets)), g, mix, t, s).state;
      && key in r.nodes
      && var d := r.pending[key].regret;
         var before := regrets(key, r.nodes[key]);
         && |before| == |d| > 0
         && R.Potential(R.Plus(before, d)) <= R.Potential(before) + R.SquareNorm(d)
  {
    var profile := Matched(regrets);
    MatchedIsMixed(regrets);
    TraverseSound(profile, g, mix, t, s);
    var r := Traverse(Sequential(profile), g, mix, t, s).state;
    assert SoundAt(profile, r, key);
    R.PotentialStep(regrets(key, r.nodes[key]), r.pending[key].regret);
  }
}
