// A traversal that snapshots strategies as it meets them does what the sequential one does on the profile of
// its snapshots, however the shared nodes change meanwhile.
module SnapshotRefinement {
  import opened ExternalSampling
  import Construction
  import Sampling
  import Play

  // What the two traversals are compared under. When strict, the game lists the actions of an information set
  // in one order wherever it is met.
  datatype View = View(profile: Profile, order: Key -> seq<Action>, strict: bool)

  ghost predicate Consistent(order: Key -> seq<Action>, t: Tree)
    decreases t
  {
    && (t.Turn? ==> ActionsOf(t.branches) == order(t.key))
    && (!t.Leaf? ==> forall i :: 0 <= i < |t.branches| ==> Consistent(order, t.branches[i].next))
  }

  ghost predicate Linked(v: View, q: State, c: State) {
    && q.random == c.random && q.visits == c.visits && q.nodes == c.nodes && q.pending == c.pending
    && (forall key :: key in q.memo ==> key in c.memo)
    && (forall key :: key in c.memo ==> LinkedAt(v, q, c, key))
  }

  ghost predicate LinkedAt(v: View, q: State, c: State, key: Key)
    requires key in c.memo
  {
    && ProfiledAt(v.profile, c, key)
    && key in c.nodes && c.nodes[key] == |c.memo[key].actions|
    && (v.strict ==> c.memo[key].actions == v.order(key))
    && if c.memo[key].sampled.None? then key !in q.memo
       else key in q.memo && q.memo[key] == Memo(c.memo[key].actions, [], c.memo[key].sampled)
  }

  // Where the snapshots lead to success, so do the nodes themselves, and to the same place; under one order
  // of actions they fail alike too.
  ghost predicate Agrees(v: View, rq: Result, rc: Result) {
    && (rc.status == Construction.Success ==>
          (rq.status == Construction.Success && rq.utility == rc.utility && Linked(v, rq.state, rc.state)))
    && (v.strict ==> rq.status == rc.status)
  }

  lemma LookLinked(v: View, shared: (nat, Key, nat) -> seq<real>, q: State, c: State, key: Key, actions: seq<Action>)
    requires Linked(v, q, c) && (v.strict ==> actions == v.order(key))
    requires Profiled(v.profile, Look(Snapshots(shared), c, key, actions).state)
    ensures var lq, lc := Look(Sequential(v.profile), q, key, actions), Look(Snapshots(shared), c, key, actions);
      && (lc.status == Construction.Success ==>
            (lq.status == Construction.Success && lq.p == lc.p && Linked(v, lq.state, lc.state)
             && key in lc.state.memo && lc.state.memo[key].actions == actions && lc.state.memo[key].probabilities == lc.p))
      && (v.strict ==> lq.status == lc.status)
  {
    var lq, lc := Look(Sequential(v.profile), q, key, actions), Look(Snapshots(shared), c, key, actions);
    if key in c.memo {
      assert LinkedAt(v, q, c, key);
      if lc.status == Construction.Success {
        assert ProfiledAt(v.profile, c, key);
        assert lq.state.nodes == q.nodes;
        MoreNodes(v, q, c, lq.state, lc.state);
      }
    } else if lc.status == Construction.Success {
      assert ProfiledAt(v.profile, lc.state, key);
      OneMore(v, q, c, lq.state, lc.state, key);
    }
  }

  lemma MoreNodes(v: View, q: State, c: State, q': State, c': State)
    requires Linked(v, q, c) && q' == q && c' == c
    ensures Linked(v, q', c')
  {
  }

  lemma OneMore(v: View, q: State, c: State, q': State, c': State, key: Key)
    requires Linked(v, q, c) && key !in c.memo && key in c'.memo
    requires c'.memo[key].sampled.None? && ProfiledAt(v.profile, c', key)
    requires v.strict ==> c'.memo[key].actions == v.order(key)
    requires var n := |c'.memo[key].actions|;
      && q' == q.(nodes := q.nodes[key := n])
      && c' == c.(nodes := c.nodes[key := n], memo := c.memo[key := c'.memo[key]])
    ensures Linked(v, q', c')
  {
    forall k | k in c'.memo
      ensures LinkedAt(v, q', c', k)
    {
      if k != key {
        assert LinkedAt(v, q, c, k);
      }
    }
  }

  lemma SampleLinked(v: View, shared: (nat, Key, nat) -> seq<real>, q: State, c: State, key: Key, actions: seq<Action>,
                     p: seq<real>, mix: nat -> nat)
    requires Linked(v, q, c) && key in c.memo && c.memo[key].actions == actions && c.memo[key].probabilities == p
    ensures var aq, ac := Sample(Sequential(v.profile), q, key, actions, p, mix), Sample(Snapshots(shared), c, key, actions, p, mix);
      && aq.status == ac.status
      && (ac.status == Construction.Success ==> aq.index == ac.index && Linked(v, aq.state, ac.state))
  {
    var aq, ac := Sample(Sequential(v.profile), q, key, actions, p, mix), Sample(Snapshots(shared), c, key, actions, p, mix);
    assert LinkedAt(v, q, c, key);
    if ac.status == Construction.Success && c.memo[key].sampled.None? {
      forall k | k in ac.state.memo
        ensures LinkedAt(v, aq.state, ac.state, k)
      {
        assert LinkedAt(v, q, c, k);
      }
    }
  }

  // Changes to what a memo does not hold, made alike on both sides.
  ghost predicate Alike(q: State, c: State, q': State, c': State) {
    && q'.memo == q.memo && c'.memo == c.memo && q'.nodes == q.nodes && c'.nodes == c.nodes
    && q'.random == c'.random && q'.visits == c'.visits && q'.pending == c'.pending
  }

  lemma AlikeLinked(v: View, q: State, c: State, q': State, c': State)
    requires Linked(v, q, c) && Alike(q, c, q', c')
    ensures Linked(v, q', c')
  {
    forall k | k in c'.memo
      ensures LinkedAt(v, q', c', k)
    {
      assert LinkedAt(v, q, c, k);
    }
  }

  // ---- The walk ----

  lemma {:induction false} WalkRefines(v: View, shared: (nat, Key, nat) -> seq<real>, g: Rules, mix: nat -> nat, t: Tree,
                                       own: real, q: State, c: State, average: bool)
    requires Linked(v, q, c) && (v.strict ==> Consistent(v.order, t))
    requires Profiled(v.profile, Walk(Snapshots(shared), g, mix, t, own, c, average).state)
    ensures Agrees(v, Walk(Sequential(v.profile), g, mix, t, own, q, average),
                   Walk(Snapshots(shared), g, mix, t, own, c, average))
    decreases t, |Kids(t)| + 1
  {
    var q1, c1 := q.(visits := Capped(q.visits)), c.(visits := Capped(c.visits));
    AlikeLinked(v, q, c, q1, c1);
    match t
    case Leaf(_) =>
    case Nature(_) =>
      ChanceRefines(v, shared, g, mix, t, own, q1, c1, average);
    case Turn(player, key, branches) =>
      if Play.PlayerIsValid(g.players, player) && 1 <= |branches| <= g.maxActions {
        TurnMet(v, shared, g, mix, t, own, q1, c1, average);
      }
  }

  lemma {:induction false} ChanceRefines(v: View, shared: (nat, Key, nat) -> seq<real>, g: Rules, mix: nat -> nat, t: Tree,
                                         own: real, q: State, c: State, average: bool)
    requires t.Nature? && Linked(v, q, c) && (v.strict ==> Consistent(v.order, t))
    requires Profiled(v.profile, WalkChance(Snapshots(shared), g, mix, t, own, c, average).state)
    ensures Agrees(v, WalkChance(Sequential(v.profile), g, mix, t, own, q, average),
                   WalkChance(Snapshots(shared), g, mix, t, own, c, average))
    decreases t, |Kids(t)|, 2
  {
    var odds := OddsOf(t.branches);
    var d := Draw(odds, c.random, mix);
    if ChanceOk(odds, g.maxActions) && d.status == Construction.Success && odds[d.index] > 0.0 {
      var q1, c1 := q.(random := d.random), c.(random := d.random);
      AlikeLinked(v, q, c, q1, c1);
      WalkRefines(v, shared, g, mix, t.branches[d.index].next, own, q1, c1, average);
    }
  }

  // The visit of a player's node, after it has been counted.
  function Meet(mode: Mode, g: Rules, mix: nat -> nat, t: Tree, own: real, s: State, average: bool): Result
    requires t.Turn? && 1 <= |t.branches|
  {
    var l := Look(mode, s, t.key, ActionsOf(t.branches));
    if l.status != Construction.Success then Result(l.status, 0.0, l.state) else
    if |l.p| != |t.branches| then Result(Construction.InvalidArgument, 0.0, l.state) else
      WalkTurn(mode, g, mix, t, l.p, own, l.state, average)
  }

  lemma {:induction false} TurnMet(v: View, shared: (nat, Key, nat) -> seq<real>, g: Rules, mix: nat -> nat, t: Tree,
                                   own: real, q: State, c: State, average: bool)
    requires t.Turn? && 1 <= |t.branches|
    requires Linked(v, q, c) && (v.strict ==> Consistent(v.order, t))
    requires Profiled(v.profile, Meet(Snapshots(shared), g, mix, t, own, c, average).state)
    ensures Agrees(v, Meet(Sequential(v.profile), g, mix, t, own, q, average),
                   Meet(Snapshots(shared), g, mix, t, own, c, average))
    decreases t, |Kids(t)|, 3
  {
    var actions := ActionsOf(t.branches);
    var lc := Look(Snapshots(shared), c, t.key, actions);
    if lc.status == Construction.Success && |lc.p| == |t.branches| {
      TurnKeeps(Snapshots(shared), g, mix, t, lc.p, own, lc.state, average);
      KeepsProfiled(v.profile, Snapshots(shared), lc.state, WalkTurn(Snapshots(shared), g, mix, t, lc.p, own, lc.state, average).state);
    }
    LookLinked(v, shared, q, c, t.key, actions);
    var lq := Look(Sequential(v.profile), q, t.key, actions);
    if lc.status == Construction.Success && |lc.p| == |t.branches| {
      TurnRefines(v, shared, g, mix, t, lc.p, own, lq.state, lc.state, average);
    }
  }

  lemma {:induction false} TurnRefines(v: View, shared: (nat, Key, nat) -> seq<real>, g: Rules, mix: nat -> nat, t: Tree,
                                       p: seq<real>, own: real, q: State, c: State, average: bool)
    requires t.Turn? && |p| == |t.branches| && |p| > 0
    requires Linked(v, q, c) && (v.strict ==> Consistent(v.order, t))
    requires t.key in c.memo && c.memo[t.key].actions == ActionsOf(t.branches) && c.memo[t.key].probabilities == p
    requires Profiled(v.profile, WalkTurn(Snapshots(shared), g, mix, t, p, own, c, average).state)
    ensures Agrees(v, WalkTurn(Sequential(v.profile), g, mix, t, p, own, q, average),
                   WalkTurn(Snapshots(shared), g, mix, t, p, own, c, average))
    decreases t, |Kids(t)|, 2
  {
    if average {
      AverageRefines(v, shared, g, mix, t, p, own, q, c);
    } else if t.player == g.target {
      TargetRefines(v, shared, g, mix, t, p, own, q, c);
    } else {
      OpponentRefines(v, shared, g, mix, t, p, own, q, c);
    }
  }

  ghost predicate LoopsAgree(v: View, lq: Loop, lc: Loop) {
    && (lc.status == Construction.Success ==>
          (lq.status == Construction.Success && lq.utility == lc.utility && lq.utilities == lc.utilities
           && Linked(v, lq.state, lc.state)))
    && (v.strict ==> lq.status == lc.status)
  }

  lemma {:induction false} BranchesRefine(v: View, shared: (nat, Key, nat) -> seq<real>, g: Rules, mix: nat -> nat,
                                          t: Tree, p: seq<real>, own: real, q: State, c: State, n: nat)
    requires t.Turn? && |p| == |t.branches| && n <= |p|
    requires Linked(v, q, c) && (v.strict ==> Consistent(v.order, t))
    requires Profiled(v.profile, Branches(Snapshots(shared), g, mix, t, p, own, c, n).state)
    ensures LoopsAgree(v, Branches(Sequential(v.profile), g, mix, t, p, own, q, n),
                       Branches(Snapshots(shared), g, mix, t, p, own, c, n))
    decreases t, n, 0
  {
    if n > 0 {
      var mc, mq := Snapshots(shared), Sequential(v.profile);
      var bc := Branches(mc, g, mix, t, p, own, c, n - 1);
      var next := t.branches[n - 1].next;
      if bc.status == Construction.Success {
        WalkKeeps(mc, g, mix, next, Weighted(own, p[n - 1]), bc.state, false);
        KeepsProfiled(v.profile, Snapshots(shared), bc.state, Walk(mc, g, mix, next, Weighted(own, p[n - 1]), bc.state, false).state);
      }
      BranchesRefine(v, shared, g, mix, t, p, own, q, c, n - 1);
      var bq := Branches(mq, g, mix, t, p, own, q, n - 1);
      if bc.status == Construction.Success {
        WalkRefines(v, shared, g, mix, next, Weighted(own, p[n - 1]), bq.state, bc.state, false);
      }
    }
  }

  lemma {:induction false} TargetRefines(v: View, shared: (nat, Key, nat) -> seq<real>, g: Rules, mix: nat -> nat, t: Tree,
                                         p: seq<real>, own: real, q: State, c: State)
    requires t.Turn? && |p| == |t.branches|
    requires Linked(v, q, c) && (v.strict ==> Consistent(v.order, t))
    requires Profiled(v.profile, WalkTarget(Snapshots(shared), g, mix, t, p, own, c).state)
    ensures Agrees(v, WalkTarget(Sequential(v.profile), g, mix, t, p, own, q),
                   WalkTarget(Snapshots(shared), g, mix, t, p, own, c))
    decreases t, |Kids(t)|, 1
  {
    var lc := Branches(Snapshots(shared), g, mix, t, p, own, c, |t.branches|);
    var rc := WalkTarget(Snapshots(shared), g, mix, t, p, own, c);
    SameMemo(Snapshots(shared), lc.state, rc.state);
    KeepsProfiled(v.profile, Snapshots(shared), lc.state, rc.state);
    BranchesRefine(v, shared, g, mix, t, p, own, q, c, |t.branches|);
    var lq := Branches(Sequential(v.profile), g, mix, t, p, own, q, |t.branches|);
    if rc.status == Construction.Success {
      AlikeLinked(v, lq.state, lc.state, WalkTarget(Sequential(v.profile), g, mix, t, p, own, q).state, rc.state);
    }
  }

  lemma {:induction false} OpponentRefines(v: View, shared: (nat, Key, nat) -> seq<real>, g: Rules, mix: nat -> nat,
                                           t: Tree, p: seq<real>, own: real, q: State, c: State)
    requires t.Turn? && |p| == |t.branches|
    requires Linked(v, q, c) && (v.strict ==> Consistent(v.order, t))
    requires t.key in c.memo && c.memo[t.key].actions == ActionsOf(t.branches) && c.memo[t.key].probabilities == p
    requires Profiled(v.profile, WalkOpponent(Snapshots(shared), g, mix, t, p, own, c).state)
    ensures Agrees(v, WalkOpponent(Sequential(v.profile), g, mix, t, p, own, q),
                   WalkOpponent(Snapshots(shared), g, mix, t, p, own, c))
    decreases t, |Kids(t)|, 1
  {
    var actions := ActionsOf(t.branches);
    SampleLinked(v, shared, q, c, t.key, actions, p, mix);
    var aq, ac := Sample(Sequential(v.profile), q, t.key, actions, p, mix), Sample(Snapshots(shared), c, t.key, actions, p, mix);
    if ac.status == Construction.Success && ac.index < |p| && p[ac.index] > 0.0 {
      var q1 := if g.players <= 2 then Add(aq.state, t.key, Zeros(|p|), Scaled(1.0, p)) else aq.state;
      var c1 := if g.players <= 2 then Add(ac.state, t.key, Zeros(|p|), Scaled(1.0, p)) else ac.state;
      AlikeLinked(v, aq.state, ac.state, q1, c1);
      WalkRefines(v, shared, g, mix, t.branches[ac.index].next, own, q1, c1, false);
    }
  }

  lemma {:induction false} AverageRefines(v: View, shared: (nat, Key, nat) -> seq<real>, g: Rules, mix: nat -> nat,
                                          t: Tree, p: seq<real>, weight: real, q: State, c: State)
    requires t.Turn? && |p| == |t.branches| && |p| > 0
    requires Linked(v, q, c) && (v.strict ==> Consistent(v.order, t))
    requires Profiled(v.profile, WalkAverage(Snapshots(shared), g, mix, t, p, weight, c).state)
    ensures Agrees(v, WalkAverage(Sequential(v.profile), g, mix, t, p, weight, q),
                   WalkAverage(Snapshots(shared), g, mix, t, p, weight, c))
    decreases t, |Kids(t)|, 1
  {
    if !(t.player == g.target && weight < 0.0) {
      var random := Advance(c.random);
      var q1 := if t.player == g.target then Add(q, t.key, Zeros(|p|), Scaled(weight, p)) else q;
      var c1 := if t.player == g.target then Add(c, t.key, Zeros(|p|), Scaled(weight, p)) else c;
      var action := Uniform(mix(random), |p|);
      var q2, c2 := q1.(random := random), c1.(random := random);
      AlikeLinked(v, q, c, q2, c2);
      var child := WeightBelow(g, t, p, weight, action);
      if child != 0.0 {
        WalkRefines(v, shared, g, mix, t.branches[action].next, child, q2, c2, true);
      }
    }
  }

  // ---- Whole traversals ----

  function Start(random: nat, nodes: map<Key, nat>): State {
    State(random, 0, nodes, map[], map[])
  }

  ghost predicate SameOutcome(a: Result, b: Result) {
    && a.status == b.status && a.utility == b.utility
    && a.state.random == b.state.random && a.state.visits == b.state.visits
    && a.state.nodes == b.state.nodes && a.state.pending == b.state.pending
  }

  // However other workers change the shared nodes meanwhile, a traversal that succeeds has the utility, the
  // visits, the random state and the pending changes of the sequential traversal on any profile that agrees
  // with its snapshots.
  lemma SnapshotsRefine(shared: (nat, Key, nat) -> seq<real>, profile: Profile, g: Rules, mix: nat -> nat, t: Tree,
                        random: nat, nodes: map<Key, nat>)
    requires var r := Traverse(Snapshots(shared), g, mix, t, Start(random, nodes));
      r.status == Construction.Success && Profiled(profile, r.state)
    ensures SameOutcome(Traverse(Sequential(profile), g, mix, t, Start(random, nodes)),
                        Traverse(Snapshots(shared), g, mix, t, Start(random, nodes)))
  {
    TraverseRefines(View(profile, key => [], false), shared, g, mix, t, random, nodes);
  }

  lemma TraverseRefines(v: View, shared: (nat, Key, nat) -> seq<real>, g: Rules, mix: nat -> nat, t: Tree,
                        random: nat, nodes: map<Key, nat>)
    requires v.strict ==> Consistent(v.order, t)
    requires Profiled(v.profile, Traverse(Snapshots(shared), g, mix, t, Start(random, nodes)).state)
    ensures Agrees(v, Traverse(Sequential(v.profile), g, mix, t, Start(random, nodes)),
                   Traverse(Snapshots(shared), g, mix, t, Start(random, nodes)))
  {
    if CanTraverse(g) {
      PassesRefine(v, shared, g, mix, t, random, nodes);
    }
  }

  lemma PassesRefine(v: View, shared: (nat, Key, nat) -> seq<real>, g: Rules, mix: nat -> nat, t: Tree,
                     random: nat, nodes: map<Key, nat>)
    requires CanTraverse(g) && (v.strict ==> Consistent(v.order, t))
    requires Profiled(v.profile, Traverse(Snapshots(shared), g, mix, t, Start(random, nodes)).state)
    ensures Agrees(v, Traverse(Sequential(v.profile), g, mix, t, Start(random, nodes)),
                   Traverse(Snapshots(shared), g, mix, t, Start(random, nodes)))
  {
    var s := Start(random, nodes);
    var mc, mq := Snapshots(shared), Sequential(v.profile);
    assert Linked(v, s, s);
    var rc := Walk(mc, g, mix, t, 1.0, s, false);
    if rc.status == Construction.Success && g.players > 2 {
      WalkKeeps(mc, g, mix, t, 1.0, rc.state, true);
      KeepsProfiled(v.profile, Snapshots(shared), rc.state, Walk(mc, g, mix, t, 1.0, rc.state, true).state);
    }
    WalkRefines(v, shared, g, mix, t, 1.0, s, s, false);
    var rq := Walk(mq, g, mix, t, 1.0, s, false);
    if rc.status == Construction.Success && g.players > 2 {
      WalkRefines(v, shared, g, mix, t, 1.0, rq.state, rc.state, true);
    }
  }

  // Nodes that nobody else changes.
  function Unchanging(profile: Profile): (nat, Key, nat) -> seq<real> {
    (time: nat, key: Key, n: nat) => profile(key, n)
  }

  // One worker alone, in a game that lists the actions of each information set in one order: the nodes do not
  // change during the traversal, and both implementations end alike, also when they fail.
  lemma AloneAgrees(profile: Profile, order: Key -> seq<Action>, g: Rules, mix: nat -> nat, t: Tree, random: nat,
                    nodes: map<Key, nat>)
    requires Consistent(order, t)
    ensures var rq := Traverse(Sequential(profile), g, mix, t, Start(random, nodes));
      var rc := Traverse(Snapshots(Unchanging(profile)), g, mix, t, Start(random, nodes));
      && rq.status == rc.status
      && (rq.status == Construction.Success ==> SameOutcome(rq, rc))
  {
    var shared := Unchanging(profile);
    var v := View(profile, order, true);
    AloneProfiled(profile, shared, g, mix, t, random, nodes);
    TraverseRefines(v, shared, g, mix, t, random, nodes);
  }

  lemma AloneProfiled(profile: Profile, shared: (nat, Key, nat) -> seq<real>, g: Rules, mix: nat -> nat, t: Tree,
                      random: nat, nodes: map<Key, nat>)
    requires forall time, key, n :: shared(time, key, n) == profile(key, n)
    ensures Profiled(profile, Traverse(Snapshots(shared), g, mix, t, Start(random, nodes)).state)
  {
    var mode := Snapshots(shared);
    var s := Start(random, nodes);
    var r := Walk(mode, g, mix, t, 1.0, s, false);
    WalkKeeps(mode, g, mix, t, 1.0, s, false);
    WalkKeeps(mode, g, mix, t, 1.0, r.state, true);
    var end := Traverse(mode, g, mix, t, s).state;
    assert FromShared(mode, end);
    forall key | key in end.memo
      ensures ProfiledAt(profile, end, key)
    {
      assert ReadAt(shared, end, key);
    }
  }

  // Without one order of actions the two part: here the sequential traversal finishes, and the other refuses
  // the information set it meets again with another action.
  lemma OrderMatters(profile: Profile, mix: nat -> nat)
    requires forall key, n :: |profile(key, n)| == n
    ensures var leaf := Branch(2, 0.0, Leaf(1.0));
      var t := Turn(0, 5, [Branch(1, 0.0, Turn(0, 5, [leaf]))]);
      var g := Rules(2, 0, 4);
      && Traverse(Sequential(profile), g, mix, t, Start(0, map[])).status == Construction.Success
      && Traverse(Snapshots(Unchanging(profile)), g, mix, t, Start(0, map[])).status == Construction.InvalidArgument
  {
    var inner := Turn(0, 5, [Branch(2, 0.0, Leaf(1.0))]);
    var t := Turn(0, 5, [Branch(1, 0.0, inner)]);
    var g := Rules(2, 0, 4);
    var p := profile(5, 1);
    assert ActionsOf(t.branches) == [1] && ActionsOf(inner.branches) == [2];
    var own := Weighted(1.0, p[0]);
    var q := State(0, 1, map[5 := 1], map[], map[]);
    var c := State(0, 1, map[5 := 1], map[5 := Memo([1], p, Sampling.None)], map[]);
    OneBranch(Sequential(profile), g, mix, t, p, 1.0, q);
    OneBranch(Snapshots(Unchanging(profile)), g, mix, t, p, 1.0, c);
    var q' := q.(visits := 2);
    OneBranch(Sequential(profile), g, mix, inner, p, own, q');
  }

  lemma OneBranch(mode: Mode, g: Rules, mix: nat -> nat, t: Tree, p: seq<real>, own: real, s: State)
    requires t.Turn? && |p| == |t.branches| == 1
    ensures var below := Walk(mode, g, mix, t.branches[0].next, Weighted(own, p[0]), s, false);
      Branches(mode, g, mix, t, p, own, s, 1).status == below.status
  {
    assert Branches(mode, g, mix, t, p, own, s, 0) == Loop(Construction.Success, 0.0, [], s);
  }
}
