// The evaluator of src/evaluation.c: it flattens a game tree, and solves best responses with
// cached values and one selected action per information set.
module Evaluation {
  import opened Sums
  import opened BestResponse
  import opened Solver
  import opened GameTree
  import opened Layout
  import opened Construction
  import opened Optimality
  import opened EvaluationChecks
  import RegretMatching

  // Groups whose solving is under way and whose key is met on the responder's path to node i.
  ghost predicate OnPath(h: seq<History>, i: nat, key: Key)
    requires i < |h|
  {
    exists k :: 0 <= k < |h[i]| && h[i][k].0 == key
  }

  ghost predicate OnlyPathIsSolving(s: Snapshot, states: seq<GroupState>, h: seq<History>, i: nat)
    requires |states| == |s.groups| && i < |h|
  {
    forall g: nat :: g < |states| && states[g].Solving? ==> OnPath(h, i, s.groups[g].key)
  }

  ghost predicate SolvingUnchanged(states: seq<GroupState>, states': seq<GroupState>) {
    && |states| == |states'|
    && forall g: nat :: g < |states| ==>
      && (states[g].Solving? <==> states'[g].Solving?)
      && (states[g].Solved? ==> states'[g] == states[g])
  }

  lemma PathKept(s: Snapshot, states: seq<GroupState>, states': seq<GroupState>, h: seq<History>, i: nat)
    requires |states| == |s.groups| && i < |h| && SolvingUnchanged(states, states')
    requires OnlyPathIsSolving(s, states, h, i)
    ensures OnlyPathIsSolving(s, states', h, i)
  {
  }

  // One step down the tree lengthens the path, so what was on it stays on it.
  lemma KidPath(s: Snapshot, r: Player, states: seq<GroupState>, h: seq<History>, i: nat, a: nat)
    requires Linked(s.flat) && Histories(s.flat, r, h) && i < |h| && a < s.flat.nodes[i].count
    requires |states| == |s.groups| && OnlyPathIsSolving(s, states, h, i)
    ensures OnlyPathIsSolving(s, states, h, Kid(s.flat, i, a))
  {
    assert HistoryAt(s.flat, r, h, i, a);
    var k := Kid(s.flat, i, a);
    forall g: nat | g < |states| && states[g].Solving? ensures OnPath(h, k, s.groups[g].key) {
      var m :| 0 <= m < |h[i]| && h[i][m].0 == s.groups[g].key;
      assert h[k][m] == h[i][m];
    }
  }

  ghost predicate PathOrGroup(s: Snapshot, states: seq<GroupState>, h: seq<History>, i: nat, g: nat)
    requires |states| == |s.groups| && i < |h|
  {
    forall k: nat :: k < |states| && states[k].Solving? ==> k == g || OnPath(h, i, s.groups[k].key)
  }

  lemma PathOrGroupKept(s: Snapshot, states: seq<GroupState>, states': seq<GroupState>, h: seq<History>, i: nat, g: nat)
    requires |states| == |s.groups| && i < |h| && SolvingUnchanged(states, states')
    requires PathOrGroup(s, states, h, i, g)
    ensures PathOrGroup(s, states', h, i, g)
  {
  }

  // A member's link leads to the member before it, or ends the chain.
  lemma NextPrecedes(s: Snapshot, g: nat, c: nat, bound: nat)
    requires Indexed(s) && g < |s.groups| && bound <= |s.flat.nodes| && Precedes(s, g, Some(c), bound)
    ensures c < |s.flat.nodes| && c < |s.next| && Precedes(s, g, s.next[c], c)
  {
    assert NodeOk(s, c) && GroupOk(s, g);
  }

  // Below any member of the information set of i lies the path of i and the set itself.
  lemma MemberPath(s: Snapshot, r: Player, states: seq<GroupState>, h: seq<History>, i: nat, g: nat, n: nat, a: nat)
    requires Linked(s.flat) && Histories(s.flat, r, h) && PerfectRecall(s.flat, r, h)
    requires |states| == |s.groups| && g < |s.groups| && s.groups[g].player == r
    requires i < |h| && n < |h| && InGroup(s, g, i) && InGroup(s, g, n) && a < s.flat.nodes[n].count
    requires PathOrGroup(s, states, h, i, g)
    ensures OnlyPathIsSolving(s, states, h, Kid(s.flat, n, a))
  {
    assert HistoryAt(s.flat, r, h, n, a);
    var c := Kid(s.flat, n, a);
    assert h[n] == h[i];
    forall k: nat | k < |states| && states[k].Solving? ensures OnPath(h, c, s.groups[k].key) {
      if k == g {
        assert h[c][|h[n]|].0 == s.groups[k].key;
      } else {
        var m :| 0 <= m < |h[i]| && h[i][m].0 == s.groups[k].key;
        assert h[c][m] == h[i][m];
      }
    }
  }

  class EvaluationWorkspace {
    var snapshot: Snapshot
    var cache0: seq<Option<real>>
    var cache1: seq<Option<real>>
    var states: seq<GroupState>
    var unvisited: map<Key, nat>
    const maxActions: nat
    const uniform: bool
    // The positions met by the construction, in order.
    ghost var visits: seq<Visit>

    constructor (maxActions: nat, uniform: bool)
      ensures this.maxActions == maxActions && this.uniform == uniform
      ensures visits == [] && snapshot.flat.edges == []
      ensures forall store :: Building(store)
    {
      snapshot, cache0, cache1, states := Snapshot(Flat([], []), [], [], map[]), [], [], [];
      unvisited, this.maxActions, this.uniform, visits := map[], maxActions, uniform, [];
    }

    // What the construction keeps, from one appended node to the next. Nothing is cached or solved.
    ghost predicate Building(store: Store)
      reads this
    {
      Growing(store, snapshot, unvisited, visits) && Uncached()
    }

    // Looks up, or gives, the strategy of an information set.
    method ReadPolicy(key: Key, n: nat, store: Store, ghost t: Tree) returns (status: Status, probabilities: seq<real>)
      requires Growing(store, snapshot, unvisited, visits) && t.Turn? && t.key == key && |t.branches| == n > 0
      modifies this`unvisited
      ensures status == Success ==> CheckPolicy(store, uniform, key, n) == Success && probabilities == Policy(store, key, n)
      ensures status == Success ==> Prepared(store, unvisited, visits, t)
      ensures status == NotFound || status == NumericError ==> CheckPolicy(store, uniform, key, n) == status
      ensures status == InvalidArgument ==>
        CheckPolicy(store, uniform, key, n) == InvalidArgument
        || (CheckPolicy(store, uniform, key, n) == Success && Clash(visits, t))
      ensures status != BufferTooSmall
    {
      probabilities := [];
      if key !in store {
        if !uniform {
          return NotFound, [];
        }
        if key in unvisited && unvisited[key] != n {
          ghost var i: nat :| i < |visits| && visits[i].tree.Turn? && visits[i].tree.key == key;
          assert Fresh(store, unvisited, visits[i].tree) && Differ(visits[i].tree, t);
          return InvalidArgument, [];
        }
        unvisited := unvisited[key := n];
        return Success, RegretMatching.Match(Zeros(n));
      }
      if |store[key]| != n {
        return InvalidArgument, [];
      }
      if !RegretMatching.AllNonNegative(store[key]) {
        return NumericError, [];
      }
      return Success, RegretMatching.Match(store[key]);
    }

    // Each outcome in range, and the outcomes together within tolerance of one.
    method ChanceProbabilities(bs: seq<Branch>) returns (status: Status, probabilities: seq<real>)
      requires |bs| > 0
      ensures status == if InRange(bs) && SumIsOne(Sum(Probabilities(bs), 0, |bs|)) then Success else InvalidArgument
      ensures status == Success ==> |probabilities| == |bs| && forall a: nat :: a < |bs| ==> probabilities[a] == bs[a].probability
    {
      probabilities := [];
      for a := 0 to |bs|
        invariant |probabilities| == a
        invariant forall b: nat :: b < a ==> probabilities[b] == bs[b].probability && 0.0 <= bs[b].probability <= 1.0
      {
        if !(0.0 <= bs[a].probability <= 1.0) {
          return InvalidArgument, [];
        }
        probabilities := probabilities + [bs[a].probability];
      }
      var sum := 0.0;
      for a := 0 to |bs|
        invariant sum == Sum(Probabilities(bs), 0, a)
      {
        sum := sum + probabilities[a];
      }
      status := if SumIsOne(sum) then Success else InvalidArgument;
    }

    // Checks the position t and works out the profile's probabilities there.
    method Examine(t: Tree, store: Store) returns (status: Status, probabilities: seq<real>)
      requires Growing(store, snapshot, unvisited, visits)
      modifies this`unvisited
      ensures status != Success ==> status == Check(store, uniform, maxActions, visits, t)
      ensures status == Success ==> CheckAlone(store, uniform, maxActions, t) == Success
      ensures status == Success ==> Prepared(store, unvisited, visits, t)
      ensures !t.Turn? ==> unvisited == old(unvisited)
      ensures status == Success ==> |probabilities| == |Branches(t)|
      ensures status == Success ==> forall a: nat :: a < |probabilities| ==> probabilities[a] == Odds(store, t, a)
    {
      status, probabilities := Success, [];
      if t.Leaf? {
        status := if IsZeroSum(t.utility0, t.utility1) then Success else InvalidArgument;
      } else if |t.branches| == 0 {
        status := InvalidArgument;
      } else if |t.branches| > maxActions {
        status := BufferTooSmall;
      } else if t.Nature? {
        status, probabilities := ChanceProbabilities(t.branches);
      } else {
        status, probabilities := ReadPolicy(t.key, |t.branches|, store, t);
      }
    }

    ghost predicate Uncached()
      reads this
    {
      && |cache0| == |cache1| == |snapshot.flat.nodes| && |states| == |snapshot.groups|
      && (forall i: nat :: i < |cache0| ==> cache0[i].None? && cache1[i].None?)
      && (forall g: nat :: g < |states| ==> states[g].Idle?)
    }

    // Appends the node of a terminal or chance position.
    method AppendOther(n: Node, store: Store, ghost v: Visit)
      requires Building(store) && !v.tree.Turn? && n == NodeOf(v)
      modifies this
      ensures Building(store) && visits == old(visits) + [v]
      ensures snapshot.flat.edges == old(snapshot.flat.edges)
    {
      AddedOther(store, snapshot, unvisited, visits, v);
      snapshot := WithNode(snapshot, n, None, snapshot.groups, snapshot.table);
      cache0, cache1, visits := cache0 + [None], cache1 + [None], visits + [v];
    }

    // Do the edges reserved at offset carry the actions of the first node of group g?
    method SameActionsAsFirst(g: nat, offset: nat, n: nat) returns (same: bool)
      requires g < |snapshot.groups| && snapshot.groups[g].first < |snapshot.flat.nodes| && offset + n <= |snapshot.flat.edges|
      requires snapshot.flat.nodes[snapshot.groups[g].first].offset + n <= |snapshot.flat.edges|
      ensures same <==> forall a: nat :: a < n ==>
        SameActionAt(snapshot.flat.edges, snapshot.flat.nodes[snapshot.groups[g].first].offset, offset, a)
    {
      var es, first := snapshot.flat.edges, snapshot.flat.nodes[snapshot.groups[g].first].offset;
      for a := 0 to n
        invariant forall b: nat :: b < a ==> SameActionAt(es, first, offset, b)
      {
        if es[first + a].action != es[offset + a].action {
          assert !SameActionAt(es, first, offset, a);
          return false;
        }
      }
      return true;
    }

    // Would node n, whose edges are reserved, be a consistent member of group g?
    method Consistent(g: nat, n: Node, store: Store, ghost v: Visit, ghost before: map<Key, nat>) returns (ok: bool)
      requires Growing(store, snapshot, before, visits) && v.tree.Turn? && n == NodeOf(v)
      requires ActionsKept(snapshot.flat.edges, v)
      requires v.tree.key in snapshot.table && g == snapshot.table[v.tree.key] < |snapshot.groups|
      requires snapshot.groups[g].key == v.tree.key
      ensures ok <==> !Clash(visits, v.tree)
      ensures ok ==> n.kind == Decision(snapshot.groups[g].player, snapshot.groups[g].key) && n.count == snapshot.groups[g].count
    {
      ClashIsWithFirst(store, snapshot, before, visits, v.tree);
      ghost var first := snapshot.groups[g].first;
      assert GroupOk(snapshot, g) && NodeOk(snapshot, first) && snapshot.flat.nodes[first] == NodeOf(visits[first]);
      assert ActionsKept(snapshot.flat.edges, visits[first]);
      if n.count == |visits[first].tree.branches| {
        SameActionLists(snapshot.flat.edges, visits[first], v);
      }
      if snapshot.groups[g].player != n.kind.player || snapshot.groups[g].count != n.count {
        return false;
      }
      ok := SameActionsAsFirst(g, n.offset, n.count);
    }

    // Appends the node of a decision, and adds it to its information set.
    method AppendDecision(n: Node, store: Store, ghost v: Visit, ghost before: map<Key, nat>) returns (status: Status)
      requires Growing(store, snapshot, before, visits) && Uncached() && Prepared(store, unvisited, visits, v.tree)
      requires v.tree.Turn? && n == NodeOf(v) && ActionsKept(snapshot.flat.edges, v)
      modifies this
      ensures status == if Clash(old(visits), v.tree) then InvalidArgument else Success
      ensures status == Success ==> Building(store) && visits == old(visits) + [v]
      ensures status == Success ==> snapshot.flat.edges == old(snapshot.flat.edges)
    {
      status := Success;
      var s, key := snapshot, n.kind.key;
      if key in s.table {
        var g := s.table[key];
        var ok := Consistent(g, n, store, v, before);
        if !ok {
          return InvalidArgument;
        }
        AddedMember(store, s, before, unvisited, visits, v, g);
        snapshot := WithNode(s, n, Some(s.groups[g].first), s.groups[g := s.groups[g].(first := |s.flat.nodes|)], s.table);
      } else {
        NoClashWhenNew(store, s, before, visits, v.tree);
        AddedFounder(store, s, before, unvisited, visits, v);
        snapshot := WithNode(s, n, None, s.groups + [Group(key, n.kind.player, |s.flat.nodes|, n.count)], s.table[key := |s.groups|]);
        states := states + [Idle];
      }
      cache0, cache1, visits := cache0 + [None], cache1 + [None], visits + [v];
    }

    // Reserves the edges of a node; their children come later.
    method ReserveEdges(bs: seq<Branch>, probabilities: seq<real>)
      requires |probabilities| == |bs|
      modifies this`snapshot
      ensures snapshot == old(snapshot).(flat := old(snapshot).flat.(edges := snapshot.flat.edges))
      ensures snapshot.flat.edges == old(snapshot.flat.edges)
        + seq(|bs|, (a: nat) requires a < |bs| == |probabilities| => Edge(bs[a].action, probabilities[a], EMPTY))
    {
      var es := snapshot.flat.edges;
      for a := 0 to |bs|
        invariant |es| == |old(snapshot.flat.edges)| + a && es[..|old(snapshot.flat.edges)|] == old(snapshot.flat.edges)
        invariant forall b: nat :: b < a ==> es[|old(snapshot.flat.edges)| + b] == Edge(bs[b].action, probabilities[b], EMPTY)
      {
        es := es + [Edge(bs[a].action, probabilities[a], EMPTY)];
      }
      snapshot := snapshot.(flat := snapshot.flat.(edges := es));
    }

    // Builds the nodes of t, whose reach probabilities are given, in pre-order. The source
    // checks that the reach probabilities are probabilities; every call here makes sure they are.
    method Build(t: Tree, store: Store, reach0: real, reach1: real, ghost v: Visit)
      returns (status: Status, index: nat)
      requires Building(store)
      requires v.tree == t && v.offset == |snapshot.flat.edges| && v.reach0 == reach0 && v.reach1 == reach1
      requires 0.0 <= reach0 <= 1.0 && 0.0 <= reach1 <= 1.0
      modifies this
      ensures
        && status == FirstFailure(store, uniform, maxActions, old(visits), Visits(store, v))
        && (status == Success ==>
          && Building(store)
          && index == |old(visits)|
          && visits == old(visits) + Visits(store, v)
          && snapshot.flat.edges == old(snapshot.flat.edges) + EdgesOf(store, t, index))
      decreases t, |Branches(t)| + 1
    {
      ghost var before, prev, base := unvisited, visits, snapshot.flat.edges;
      index := |snapshot.flat.nodes|;
      var probabilities;
      status, probabilities := Examine(t, store);
      if status != Success {
        FailureHere(store, uniform, maxActions, prev, v);
        return;
      }
      status := AppendVisit(t, store, probabilities, reach0, reach1, v, before);
      if status != Success {
        FailureHere(store, uniform, maxActions, prev, v);
        return;
      }
      FailureBelow(store, uniform, maxActions, prev, v);
      status := BuildBranches(t, index, |snapshot.flat.edges| - |Branches(t)|, store, reach0, reach1, v, base, prev);
    }

    // Reserves the edges of an examined position and appends its node.
    method AppendVisit(t: Tree, store: Store, probabilities: seq<real>, reach0: real, reach1: real, ghost v: Visit, ghost before: map<Key, nat>)
      returns (status: Status)
      requires Growing(store, snapshot, before, visits) && Uncached() && Prepared(store, unvisited, visits, t)
      requires t.Turn? || before == unvisited
      requires v.tree == t && v.offset == |snapshot.flat.edges| && v.reach0 == reach0 && v.reach1 == reach1
      requires CheckAlone(store, uniform, maxActions, t) == Success
      requires |probabilities| == |Branches(t)| && forall a: nat :: a < |probabilities| ==> probabilities[a] == Odds(store, t, a)
      modifies this
      ensures status == Check(store, uniform, maxActions, old(visits), t)
      ensures status == Success ==> Building(store) && visits == old(visits) + [v]
      ensures status == Success ==>
        snapshot.flat.edges == old(snapshot.flat.edges) + PartEdges(store, t, |old(visits)|, 0)
    {
      status := Success;
      if t.Leaf? {
        AppendOther(Node(Terminal, 0, 0, t.utility0, t.utility1, reach0, reach1), store, v);
        return;
      }
      var offset := |snapshot.flat.edges|;
      ReserveEdges(t.branches, probabilities);
      EdgesRewritten(store, old(snapshot), before, visits, snapshot.flat.edges);
      assert snapshot.flat.edges == old(snapshot.flat.edges) + PartEdges(store, t, |old(visits)|, 0);
      if t.Nature? {
        AppendOther(Node(Chance, offset, |t.branches|, 0.0, 0.0, reach0, reach1), store, v);
      } else {
        status := AppendDecision(Node(Decision(t.player, t.key), offset, |t.branches|, 0.0, 0.0, reach0, reach1), store, v, before);
      }
    }

    // Builds the subtrees of an appended node, filling in its edges one by one.
    method BuildBranches(t: Tree, index: nat, offset: nat, store: Store, reach0: real, reach1: real,
                         ghost v: Visit, ghost base: seq<Edge>, ghost prev: seq<Visit>)
      returns (status: Status)
      requires Building(store) && visits == prev + [v] && index == |prev|
      requires CheckAlone(store, uniform, maxActions, t) == Success
      requires v.tree == t && v.reach0 == reach0 && v.reach1 == reach1 && v.offset == offset == |base|
      requires 0.0 <= reach0 <= 1.0 && 0.0 <= reach1 <= 1.0
      requires snapshot.flat.edges == base + PartEdges(store, t, index, 0)
      modifies this
      ensures status == FirstFailure(store, uniform, maxActions, prev + [v], VisitsBefore(store, v, |Branches(t)|))
      ensures status == Success ==> Building(store) && visits == prev + Visits(store, v)
      ensures status == Success ==> snapshot.flat.edges == base + EdgesOf(store, t, index)
      decreases t, |Branches(t)|
    {
      status := Success;
      var n := |Branches(t)|;
      for a := 0 to n
        invariant status == Success
        invariant Building(store) && visits == prev + [v] + VisitsBefore(store, v, a)
        invariant snapshot.flat.edges == base + PartEdges(store, t, index, a) + EdgesUnder(store, t, index, a)
        invariant FirstFailure(store, uniform, maxActions, prev + [v], VisitsBefore(store, v, a)) == Success
      {
        status := BuildBranch(t, a, index, offset, store, reach0, reach1, v, base, prev);
        if status != Success {
          return;
        }
      }
      AllGrown(store, t, index, v, prev, base);
    }

    method BuildBranch(t: Tree, a: nat, index: nat, offset: nat, store: Store, reach0: real, reach1: real,
                       ghost v: Visit, ghost base: seq<Edge>, ghost prev: seq<Visit>)
      returns (status: Status)
      requires v.tree == t && a < |Branches(t)|
      requires Building(store) && visits == prev + [v] + VisitsBefore(store, v, a) && index == |prev|
      requires CheckAlone(store, uniform, maxActions, t) == Success
      requires v.reach0 == reach0 && v.reach1 == reach1 && v.offset == offset == |base|
      requires 0.0 <= reach0 <= 1.0 && 0.0 <= reach1 <= 1.0
      requires snapshot.flat.edges == base + PartEdges(store, t, index, a) + EdgesUnder(store, t, index, a)
      requires FirstFailure(store, uniform, maxActions, prev + [v], VisitsBefore(store, v, a)) == Success
      modifies this
      ensures status == FirstFailure(store, uniform, maxActions, prev + [v], VisitsBefore(store, v, a + 1))
      ensures status != Success ==> status == FirstFailure(store, uniform, maxActions, prev + [v], VisitsBefore(store, v, |Branches(t)|))
      ensures status == Success ==> Building(store) && visits == prev + [v] + VisitsBefore(store, v, a + 1)
      ensures status == Success ==>
        snapshot.flat.edges == base + PartEdges(store, t, index, a + 1) + EdgesUnder(store, t, index, a + 1)
      decreases t, a
    {
      NextVisit(store, t, a, index, v, base, snapshot.flat.edges);
      var probability := snapshot.flat.edges[offset + a].probability;
      OddsInRange(store, uniform, maxActions, t, a);
      ReachBelowInRange(t, Player0, reach0, probability);
      ReachBelowInRange(t, Player1, reach1, probability);
      ghost var kid, so_far := Child(store, v, a), snapshot.flat.edges;
      var child;
      status, child := Build(t.branches[a].next, store, ReachBelow(t, Player0, reach0, probability),
                             ReachBelow(t, Player1, reach1, probability), kid);
      BranchBuilt(store, uniform, maxActions, prev + [v], v, a, status);
      if status == Success {
        VisitsGrown(store, v, a, prev + [v], old(visits), visits);
        EdgesGrown(store, t, a, index, child, base, so_far, snapshot.flat.edges);
        FinishBranch(t, a, index, offset, child, store, base);
      }
    }

    method FinishBranch(t: Tree, a: nat, index: nat, offset: nat, child: nat, store: Store, ghost base: seq<Edge>)
      requires Building(store) && a < |Branches(t)| && offset == |base| && child == index + 1 + Before(t, a)
      requires snapshot.flat.edges == base + PartEdges(store, t, index, a) + EdgesUnder(store, t, index, a + 1)
      modifies this`snapshot
      ensures Building(store)
      ensures snapshot.flat.edges == base + PartEdges(store, t, index, a + 1) + EdgesUnder(store, t, index, a + 1)
    {
      var es := snapshot.flat.edges;
      FillEdge(store, t, index, a, base, EdgesUnder(store, t, index, a + 1));
      EdgesRewritten(store, snapshot, unvisited, visits, es[offset + a := es[offset + a].(child := child)]);
      snapshot := snapshot.(flat := snapshot.flat.(edges := es[offset + a := es[offset + a].(child := child)]));
    }

    function Cache(r: Player): seq<Option<real>>
      reads this
    {
      if r.Player0? then cache0 else cache1
    }

    // The tree is complete, and what is known about r's best response is right.
    ghost predicate Ready(r: Player)
      reads this
    {
      && Preorder(snapshot.flat)
      && Sound(snapshot, r, Cache(r), states)
    }

    ghost function IdleGroups(): set<nat>
      reads this
    {
      set g: nat | g < |states| && states[g].Idle?
    }

    // A step of the search for r touches r's cache and r's groups only.
    twostate predicate OnlySearched(r: Player)
      reads this
    {
      && snapshot == old(snapshot) && visits == old(visits)
      && Grows(old(Cache(r)), Cache(r))
      && (if r.Player0? then cache1 == old(cache1) else cache0 == old(cache0))
      && SolvingUnchanged(old(states), states)
      && IdleGroups() <= old(IdleGroups())
      && forall g: nat :: g < |states| && g < |snapshot.groups| && snapshot.groups[g].player != r ==> states[g] == old(states[g])
    }

    method SetCache(r: Player, i: nat, x: real)
      requires Ready(r) && i < |Cache(r)|
      requires CacheAt(snapshot, r, Cache(r)[i := Some(x)], states, i)
      modifies this
      ensures Ready(r) && OnlySearched(r)
      ensures Cache(r)[i] == Some(x) && states == old(states)
    {
      if Cache(r)[i].None? {
        CacheOne(snapshot, r, Cache(r), states, i, x);
      } else {
        CacheAgain(snapshot, r, Cache(r), states, i, x);
      }
      if r.Player0? {
        cache0 := cache0[i := Some(x)];
      } else {
        cache1 := cache1[i := Some(x)];
      }
    }

    // The value of node i under r's best response. It fails only by meeting, on the path to some
    // node, an information set that is still being solved, which perfect recall rules out.
    method BestResponseValue(i: nat, r: Player, ghost h: seq<History>) returns (status: Status, value: real)
      requires Ready(r) && i < |snapshot.flat.nodes|
      requires Histories(snapshot.flat, r, h)
      modifies this
      ensures Ready(r) && OnlySearched(r)
      ensures status == Success ==> Cache(r)[i] == Some(value)
      ensures status == Success || status == InvalidArgument
      ensures PerfectRecall(snapshot.flat, r, h) && old(OnlyPathIsSolving(snapshot, states, h, i)) ==> status == Success
      decreases IdleGroups(), |snapshot.flat.nodes| - i, 2
    {
      status, value := Success, 0.0;
      if Cache(r)[i].Some? {
        return Success, Cache(r)[i].value;
      }
      if snapshot.flat.nodes[i].kind.Terminal? {
        value := Utility(snapshot.flat, r, i);
      } else if Own(snapshot.flat, r, i) {
        status, value := SelectedValue(i, r, h);
      } else {
        status, value := ExpectedValue(i, r, h);
      }
      if status == Success {
        SetCache(r, i, value);
      }
    }

    // A chance or opponent node: the expectation over its edges.
    method ExpectedValue(i: nat, r: Player, ghost h: seq<History>) returns (status: Status, value: real)
      requires Ready(r) && i < |snapshot.flat.nodes|
      requires Histories(snapshot.flat, r, h)
      requires snapshot.flat.nodes[i].count > 0 && !Own(snapshot.flat, r, i)
      modifies this
      ensures Ready(r) && OnlySearched(r)
      ensures status == Success ==> CacheAt(snapshot, r, Cache(r)[i := Some(value)], states, i)
      ensures status == Success || status == InvalidArgument
      ensures PerfectRecall(snapshot.flat, r, h) && old(OnlyPathIsSolving(snapshot, states, h, i)) ==> status == Success
      decreases IdleGroups(), |snapshot.flat.nodes| - i, 1
    {
      status, value := Success, 0.0;
      for a := 0 to snapshot.flat.nodes[i].count
        invariant Ready(r) && OnlySearched(r)
        invariant Expecting(snapshot.flat, r, Cache(r), i, a, value)
        invariant status == Success
      {
        if old(OnlyPathIsSolving(snapshot, states, h, i)) {
          PathKept(snapshot, old(states), states, h, i);
        }
        status, value := ExpectedEdge(i, a, value, r, h);
        if status != Success {
          return;
        }
      }
      ExpectationIsRight(snapshot, r, Cache(r), states, i, value);
    }

    method ExpectedEdge(i: nat, a: nat, value: real, r: Player, ghost h: seq<History>) returns (status: Status, value': real)
      requires Ready(r) && i < |snapshot.flat.nodes| && a < snapshot.flat.nodes[i].count && !Own(snapshot.flat, r, i)
      requires Histories(snapshot.flat, r, h)
      requires Expecting(snapshot.flat, r, Cache(r), i, a, value)
      modifies this
      ensures Ready(r) && OnlySearched(r)
      ensures status == Success ==> Expecting(snapshot.flat, r, Cache(r), i, a + 1, value')
      ensures status == Success || status == InvalidArgument
      ensures PerfectRecall(snapshot.flat, r, h) && old(OnlyPathIsSolving(snapshot, states, h, i)) ==> status == Success
      decreases IdleGroups(), |snapshot.flat.nodes| - i, 0
    {
      if OnlyPathIsSolving(snapshot, states, h, i) {
        KidPath(snapshot, r, states, h, i, a);
      }
      var x;
      status, x := BestResponseValue(Kid(snapshot.flat, i, a), r, h);
      value' := value + Probability(snapshot.flat, i, a) * x;
      if status == Success {
        ExpectOne(snapshot.flat, r, old(Cache(r)), Cache(r), i, a, value, x);
      }
    }

    // An own node: solve its information set, then follow the selected edge.
    method SelectedValue(i: nat, r: Player, ghost h: seq<History>) returns (status: Status, value: real)
      requires Ready(r) && i < |snapshot.flat.nodes|
      requires Histories(snapshot.flat, r, h) && Own(snapshot.flat, r, i)
      modifies this
      ensures Ready(r) && OnlySearched(r)
      ensures status == Success ==> CacheAt(snapshot, r, Cache(r)[i := Some(value)], states, i)
      ensures status == Success || status == InvalidArgument
      ensures PerfectRecall(snapshot.flat, r, h) && old(OnlyPathIsSolving(snapshot, states, h, i)) ==> status == Success
      decreases IdleGroups(), |snapshot.flat.nodes| - i, 0
    {
      assert NodeOk(snapshot, i);
      var g := snapshot.table[snapshot.flat.nodes[i].kind.key];
      status := SolveGroup(g, r, i, h);
      value := 0.0;
      if status == Success {
        assert SolvedAt(snapshot, r, Cache(r), states, g);
        var a := states[g].selected;
        if old(OnlyPathIsSolving(snapshot, states, h, i)) {
          PathKept(snapshot, old(states), states, h, i);
          KidPath(snapshot, r, states, h, i, a);
        }
        status, value := BestResponseValue(Kid(snapshot.flat, i, a), r, h);
        if status == Success {
          SelectionIsRight(snapshot, r, Cache(r), states, i, g, value);
        }
      }
    }

    // Solves the information set of node i: every member's children are valued, and the first
    // action with the largest reach-weighted total is selected.
    method SolveGroup(g: nat, r: Player, i: nat, ghost h: seq<History>) returns (status: Status)
      requires Ready(r) && g < |snapshot.groups| && snapshot.groups[g].player == r
      requires i < |snapshot.flat.nodes| && InGroup(snapshot, g, i)
      requires Histories(snapshot.flat, r, h)
      modifies this
      ensures Ready(r) && OnlySearched(r)
      ensures status == Success ==> states[g].Solved?
      ensures status == Success || status == InvalidArgument
      ensures PerfectRecall(snapshot.flat, r, h) && old(OnlyPathIsSolving(snapshot, states, h, i)) ==> status == Success
      decreases IdleGroups(), 0, 0
    {
      if states[g].Solved? {
        return Success;
      }
      if states[g].Solving? {
        if PerfectRecall(snapshot.flat, r, h) && OnlyPathIsSolving(snapshot, states, h, i) {
          assert OnPath(h, i, snapshot.groups[g].key);
          var k: nat :| k < |h[i]| && h[i][k].0 == snapshot.groups[g].key;
          NeverAgain(snapshot.flat, r, h, i, k);
        }
        return InvalidArgument;
      }
      SetState(g, r, GroupState.Solving);
      assert g in old(IdleGroups()) && g !in IdleGroups();
      var best;
      status, best := BestAction(g, r, i, h);
      SetState(g, r, if status == Success then GroupState.Solved(best) else Idle);
    }

    method SetState(g: nat, r: Player, state: GroupState)
      requires Ready(r) && g < |states| && !states[g].Solved?
      requires SolvedAt(snapshot, r, Cache(r), states[g := state], g)
      modifies this`states
      ensures Ready(r) && states == old(states)[g := state]
    {
      ChangeState(snapshot, r, Cache(r), states, g, state);
      states := states[g := state];
    }

    // The first action with the largest total, every total being taken over the whole group.
    method BestAction(g: nat, r: Player, ghost i: nat, ghost h: seq<History>) returns (status: Status, best: nat)
      requires Ready(r) && g < |snapshot.groups| && snapshot.groups[g].player == r
      requires i < |snapshot.flat.nodes| && InGroup(snapshot, g, i)
      requires Histories(snapshot.flat, r, h)
      modifies this
      ensures Ready(r) && OnlySearched(r)
      ensures status == Success ==> forall a: nat :: a < snapshot.groups[g].count ==> ActionCached(snapshot, Cache(r), g, a)
      ensures status == Success ==> BestOf(snapshot, r, Cache(r), g, best, snapshot.groups[g].count)
      ensures status == Success || status == InvalidArgument
      ensures PerfectRecall(snapshot.flat, r, h) && old(PathOrGroup(snapshot, states, h, i, g)) ==> status == Success
      decreases IdleGroups(), |snapshot.flat.nodes| + 2, 1
    {
      status, best := Success, 0;
      assert NodeOk(snapshot, i) && GroupOk(snapshot, g);
      var current_max := 0.0;
      for a := 0 to snapshot.groups[g].count
        invariant Ready(r) && OnlySearched(r)
        invariant status == Success
        invariant BestSoFar(snapshot, r, Cache(r), g, best, a, current_max)
      {
        if old(PathOrGroup(snapshot, states, h, i, g)) {
          PathOrGroupKept(snapshot, old(states), states, h, i, g);
        }
        status, best, current_max := TryAction(g, a, best, current_max, r, i, h);
        if status != Success {
          return;
        }
      }
    }

    method TryAction(g: nat, a: nat, best: nat, current_max: real, r: Player, ghost i: nat, ghost h: seq<History>)
      returns (status: Status, best': nat, current_max': real)
      requires Ready(r) && g < |snapshot.groups| && snapshot.groups[g].player == r && a < snapshot.groups[g].count
      requires i < |snapshot.flat.nodes| && InGroup(snapshot, g, i)
      requires Histories(snapshot.flat, r, h)
      requires BestSoFar(snapshot, r, Cache(r), g, best, a, current_max)
      modifies this
      ensures Ready(r) && OnlySearched(r)
      ensures status == Success ==> BestSoFar(snapshot, r, Cache(r), g, best', a + 1, current_max')
      ensures status == Success || status == InvalidArgument
      ensures PerfectRecall(snapshot.flat, r, h) && old(PathOrGroup(snapshot, states, h, i, g)) ==> status == Success
      decreases IdleGroups(), |snapshot.flat.nodes| + 2, 0
    {
      var total;
      status, total := GroupTotal(g, a, r, i, h);
      best', current_max' := best, current_max;
      if status == Success {
        BestGrows(snapshot, r, old(Cache(r)), Cache(r), g, best, a);
        if a == 0 || total > current_max {
          current_max', best' := total, a;
        }
      }
    }

    // The reach-weighted total of action a over the members of a group being solved.
    method GroupTotal(g: nat, a: nat, r: Player, ghost i: nat, ghost h: seq<History>) returns (status: Status, total: real)
      requires Ready(r) && g < |snapshot.groups| && snapshot.groups[g].player == r && a < snapshot.groups[g].count
      requires i < |snapshot.flat.nodes| && InGroup(snapshot, g, i)
      requires Histories(snapshot.flat, r, h)
      modifies this
      ensures Ready(r) && OnlySearched(r)
      ensures status == Success ==> ActionCached(snapshot, Cache(r), g, a) && total == TotalOf(snapshot, r, Cache(r), g, a)
      ensures status == Success || status == InvalidArgument
      ensures PerfectRecall(snapshot.flat, r, h) && old(PathOrGroup(snapshot, states, h, i, g)) ==> status == Success
      decreases IdleGroups(), |snapshot.flat.nodes| + 1, 1
    {
      status, total := Success, 0.0;
      assert GroupOk(snapshot, g);
      var link := Some(snapshot.groups[g].first);
      ghost var bound: nat := |snapshot.flat.nodes|;
      while link.Some?
        invariant Ready(r) && OnlySearched(r)
        invariant bound <= |snapshot.flat.nodes| && Precedes(snapshot, g, link, bound)
        invariant Tallied(snapshot, r, Cache(r), g, a, bound, total)
        invariant status == Success
        decreases bound
      {
        if old(PathOrGroup(snapshot, states, h, i, g)) {
          PathOrGroupKept(snapshot, old(states), states, h, i, g);
        }
        status, total := MemberShare(g, a, link.value, total, r, i, h, bound);
        if status != Success {
          return;
        }
        NextPrecedes(snapshot, g, link.value, bound);
        link, bound := snapshot.next[link.value], link.value;
      }
      TallyDone(snapshot, r, Cache(r), g, a, bound, total);
    }

    method MemberShare(g: nat, a: nat, c: nat, total: real, r: Player, ghost i: nat, ghost h: seq<History>, ghost bound: nat)
      returns (status: Status, total': real)
      requires Ready(r) && g < |snapshot.groups| && snapshot.groups[g].player == r && a < snapshot.groups[g].count
      requires i < |snapshot.flat.nodes| && InGroup(snapshot, g, i)
      requires Histories(snapshot.flat, r, h)
      requires bound <= |snapshot.flat.nodes| && Precedes(snapshot, g, Some(c), bound)
      requires Tallied(snapshot, r, Cache(r), g, a, bound, total)
      modifies this
      ensures Ready(r) && OnlySearched(r)
      ensures status == Success ==> Tallied(snapshot, r, Cache(r), g, a, c, total')
      ensures status == Success || status == InvalidArgument
      ensures PerfectRecall(snapshot.flat, r, h) && old(PathOrGroup(snapshot, states, h, i, g)) ==> status == Success
      decreases IdleGroups(), |snapshot.flat.nodes| + 1, 0
    {
      assert NodeOk(snapshot, c) && GroupOk(snapshot, g);
      if PerfectRecall(snapshot.flat, r, h) && PathOrGroup(snapshot, states, h, i, g) {
        MemberPath(snapshot, r, states, h, i, g, c, a);
      }
      var x;
      status, x := BestResponseValue(Kid(snapshot.flat, c, a), r, h);
      total' := total;
      if status == Success {
        total' := total + Reach(snapshot.flat, r, c) * x;
        TallyNext(snapshot, r, old(Cache(r)), Cache(r), g, a, bound, total, c, x, total');
      }
    }

    // ---- Whole evaluations ----

    // The snapshot of a whole tree, ready to be searched.
    ghost predicate Complete(store: Store, t: Tree)
      reads this
    {
      && visits == Visits(store, Root(t))
      && snapshot.flat.nodes == Nodes(visits)
      && Branching(visits)
      && Flattened(store, snapshot.flat, visits)
    }

    // A finished construction is complete, and nothing is known yet about either best response.
    lemma Completed(store: Store, t: Tree)
      requires Building(store) && visits == Visits(store, Root(t)) && snapshot.flat.edges == EdgesOf(store, t, 0)
      requires FirstFailure(store, uniform, maxActions, [], visits) == Success
      ensures Complete(store, t) && Ready(Player0) && Ready(Player1)
    {
      PassedBranches(store, uniform, maxActions, visits);
      FlatIsFlattened(store, t);
      assert snapshot.flat == FlatOf(store, t);
      FlatIsPreorder(store, snapshot.flat, visits);
      NothingFound(snapshot, Player0, cache0, states);
      NothingFound(snapshot, Player1, cache1, states);
    }

    // The expected utility of the fixed profile from node i on.
    method ProfileValue(i: nat, r: Player, ghost store: Store) returns (value: real)
      requires Flattened(store, snapshot.flat, visits) && i < |snapshot.flat.nodes|
      ensures value == ProfileUtility(store, visits[i].tree, r)
      decreases |snapshot.flat.nodes| - i
    {
      var s := snapshot.flat;
      if s.nodes[i].kind.Terminal? {
        return Utility(s, r, i);
      }
      value := 0.0;
      for a := 0 to s.nodes[i].count
        invariant value == ProfileBefore(store, visits[i].tree, r, a)
      {
        assert KidAt(store, s, visits, i, a);
        var x := ProfileValue(Kid(s, i, a), r, store);
        value := value + Probability(s, i, a) * x;
      }
    }

    // The whole search from the root. Under perfect recall it succeeds with the maximum.
    method RootBestResponse(t: Tree, r: Player, ghost store: Store) returns (status: Status, value: real)
      requires Complete(store, t) && Ready(r)
      requires forall g: nat :: g < |states| ==> !states[g].Solving?
      modifies this
      ensures Complete(store, t) && Ready(r) && OnlySearched(r)
      ensures visits == old(visits) && forall g: nat :: g < |states| ==> !states[g].Solving?
      ensures status == Success || status == InvalidArgument
      ensures Recalls(visits, r) ==> status == Success && IsBestResponse(store, t, r, value)
      ensures status == Success ==> IsAttained(store, t, r, value)
    {
      ghost var s, h := snapshot.flat, Pasts(visits, r);
      FlatHistories(store, s, visits, r);
      if Recalls(visits, r) {
        RecallOnFlat(store, s, visits, r);
      }
      status, value := BestResponseValue(0, r, h);
      if Recalls(visits, r) {
        FinishedIsBest(store, snapshot, t, visits, r, Cache(r), states);
      }
      if status == Success {
        FinishedIsAttained(store, snapshot, t, visits, r, Cache(r), states);
      }
    }

    // Both profile values, both best responses, and how far the profile is from an equilibrium.
    method CalculateMetrics(t: Tree, ghost store: Store) returns (status: Status, m: Metrics)
      requires Complete(store, t) && Ready(Player0) && Ready(Player1)
      requires forall g: nat :: g < |states| ==> !states[g].Solving?
      modifies this
      ensures var recall := Recalls(old(visits), Player0) && Recalls(old(visits), Player1);
        && (recall ==> status == if Near(ProfileUtility(store, t, Player0) + ProfileUtility(store, t, Player1),
                                      ProfileUtility(store, t, Player0), ProfileUtility(store, t, Player1))
                                 then Success else InvalidArgument)
        && (recall && status == Success ==> IsMetrics(store, t, m))
      ensures status == Success || status == InvalidArgument || status == NumericError
      ensures status == Success ==> IsReported(store, t, m)
    {
      m := Metrics(0.0, 0.0, 0.0, 0.0, 0.0, 0.0, 0.0, 0.0);
      ghost var vs := visits;
      var profile0 := ProfileValue(0, Player0, store);
      var profile1 := ProfileValue(0, Player1, store);
      var best0, best1;
      ghost var before := states;
      status, best0 := RootBestResponse(t, Player0, store);
      if status != Success {
        return;
      }
      SoundDespiteOther(snapshot, Player1, cache1, before, states);
      status, best1 := RootBestResponse(t, Player1, store);
      if status != Success {
        return;
      }
      if Recalls(vs, Player0) && Recalls(vs, Player1) {
        ProfileAtMostBest(store, snapshot, t, vs, Player0, best0);
        ProfileAtMostBest(store, snapshot, t, vs, Player1, best1);
      }
      status, m := Summarise(profile0, profile1, best0, best1);
    }
  }

  predicate IsRoundingNoise(improvement: real, best: real, profile: real) {
    var scale := if Abs(best) > Abs(profile) then Abs(best) else Abs(profile);
    Abs(improvement) <= ABS_EPSILON || Abs(improvement) <= scale * REL_EPSILON
  }

  predicate IsAcceptable(best: real, profile: real) {
    best >= profile || IsRoundingNoise(best - profile, best, profile)
  }

  function Improvement(best: real, profile: real): real {
    if best < profile then 0.0 else best - profile
  }

  predicate Summarises(m: Metrics, profile0: real, profile1: real, best0: real, best1: real) {
    var improvement0, improvement1 := Improvement(best0, profile0), Improvement(best1, profile1);
    m == Metrics(best0, best1, improvement0, improvement1, profile0, profile1, improvement0 + improvement1,
                 (improvement0 + improvement1) / 2.0)
  }

  // What is reported without perfect recall too: exact profile values that are zero-sum, and best responses that are
  // the values of strategies the players have, though not necessarily their best.
  ghost predicate IsReported(store: Store, t: Tree, m: Metrics) {
    && Near(ProfileUtility(store, t, Player0) + ProfileUtility(store, t, Player1),
            ProfileUtility(store, t, Player0), ProfileUtility(store, t, Player1))
    && IsAttained(store, t, Player0, m.bestResponse0) && IsAttained(store, t, Player1, m.bestResponse1)
    && Summarises(m, ProfileUtility(store, t, Player0), ProfileUtility(store, t, Player1), m.bestResponse0, m.bestResponse1)
  }

  lemma NoiseIsNear(best: real, profile: real)
    ensures IsRoundingNoise(best - profile, best, profile) <==> Near(best - profile, best, profile)
  {
    NearScale(best - profile, best, profile, if Abs(best) > Abs(profile) then Abs(best) else Abs(profile));
  }

  // A best response below its profile is an error, unless it can pass for rounding.
  method Summarise(profile0: real, profile1: real, best0: real, best1: real) returns (status: Status, m: Metrics)
    ensures profile0 <= best0 && profile1 <= best1 ==>
      && status == (if Near(profile0 + profile1, profile0, profile1) then Success else InvalidArgument)
      && (status == Success ==> m == Metrics(best0, best1, best0 - profile0, best1 - profile1, profile0, profile1,
                                             best0 - profile0 + (best1 - profile1),
                                             (best0 - profile0 + (best1 - profile1)) / 2.0))
    ensures status == Success ==> m.improvement0 >= 0.0 && m.improvement1 >= 0.0 && m.exploitability >= 0.0
    ensures status == if !Near(profile0 + profile1, profile0, profile1) then InvalidArgument
                      else if IsAcceptable(best0, profile0) && IsAcceptable(best1, profile1) then Success else NumericError
    ensures status == Success ==> Summarises(m, profile0, profile1, best0, best1)
    ensures status == Success <==>
      (Near(profile0 + profile1, profile0, profile1)
       && (best0 >= profile0 || Near(best0 - profile0, best0, profile0))
       && (best1 >= profile1 || Near(best1 - profile1, best1, profile1)))
    ensures status == InvalidArgument <==> !Near(profile0 + profile1, profile0, profile1)
  {
    NearZeroSum(profile0, profile1);
    NoiseIsNear(best0, profile0);
    NoiseIsNear(best1, profile1);
    status, m := Success, Metrics(0.0, 0.0, 0.0, 0.0, 0.0, 0.0, 0.0, 0.0);
    if !IsZeroSum(profile0, profile1) {
      return InvalidArgument, m;
    }
    var improvement0, improvement1 := best0 - profile0, best1 - profile1;
    if improvement0 < 0.0 {
      if !IsRoundingNoise(improvement0, best0, profile0) {
        return NumericError, m;
      }
      improvement0 := 0.0;
    }
    if improvement1 < 0.0 {
      if !IsRoundingNoise(improvement1, best1, profile1) {
        return NumericError, m;
      }
      improvement1 := 0.0;
    }
    var nashConv := improvement0 + improvement1;
    m := Metrics(best0, best1, improvement0, improvement1, profile0, profile1, nashConv, nashConv / 2.0);
  }

  // The outcome of an evaluation. A game is built exactly when it is well formed; otherwise the status names what is wrong with
  // the first position that is not. Under perfect recall, and profile values that are opposite within tolerance, the
  // metrics are exact; what is reported without is attained. On an exactly zero-sum game nothing can fail but the other checks.
  ghost predicate Verdict(store: Store, uniform: bool, maxActions: nat, t: Tree, status: Status, m: Metrics) {
    var vs := Visits(store, Root(t));
    var u0, u1 := ProfileUtility(store, t, Player0), ProfileUtility(store, t, Player1);
    var recall := Recalls(vs, Player0) && Recalls(vs, Player1);
    && (!WellFormed(store, uniform, maxActions, vs) ==> exists i: nat :: i < |vs| && FirstFault(store, uniform, maxActions, vs, i, status))
    && (WellFormed(store, uniform, maxActions, vs) && recall ==>
          && status == (if Near(u0 + u1, u0, u1) then Success else InvalidArgument)
          && (status == Success ==> IsMetrics(store, t, m)))
    && (status == Success ==> WellFormed(store, uniform, maxActions, vs) && IsReported(store, t, m))
    && (ExactlyZeroSum(t) && WellFormedAbove(store, uniform, maxActions, vs) && recall ==>
          status == Success && IsMetrics(store, t, m) && m.profile0 + m.profile1 == 0.0)
  }

  lemma VerdictIs(store: Store, uniform: bool, maxActions: nat, t: Tree, built: Status, status: Status, m: Metrics)
    requires built == FirstFailure(store, uniform, maxActions, [], Visits(store, Root(t)))
    requires built != Success ==> status == built
    requires built == Success && Recalls(Visits(store, Root(t)), Player0) && Recalls(Visits(store, Root(t)), Player1) ==>
      && status == (if Near(ProfileUtility(store, t, Player0) + ProfileUtility(store, t, Player1),
                            ProfileUtility(store, t, Player0), ProfileUtility(store, t, Player1)) then Success else InvalidArgument)
      && (status == Success ==> IsMetrics(store, t, m))
    requires status == Success ==> IsReported(store, t, m)
    ensures Verdict(store, uniform, maxActions, t, status, m)
  {
    BuildMeans(store, uniform, maxActions, t);
  }

  // Evaluates the learned average strategy on a whole game. A construction error is reported as
  // the first one in pre-order; otherwise, under perfect recall, the metrics are exact.
  method EvaluateMetrics(t: Tree, store: Store, maxActions: nat, uniform: bool) returns (status: Status, m: Metrics)
    ensures Verdict(store, uniform, maxActions, t, status, m)
  {
    m := Metrics(0.0, 0.0, 0.0, 0.0, 0.0, 0.0, 0.0, 0.0);
    var workspace := new EvaluationWorkspace(maxActions, uniform);
    var root;
    status, root := workspace.Build(t, store, 1.0, 1.0, Root(t));
    ghost var built := status;
    if status == Success {
      assert [] + Visits(store, Root(t)) == Visits(store, Root(t));
      workspace.Completed(store, t);
      status, m := workspace.CalculateMetrics(t, store);
    }
    VerdictIs(store, uniform, maxActions, t, built, status, m);
  }
}
