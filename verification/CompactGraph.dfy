// The compacted blackjack game: one node per encoding, built by memoised recursion; and what is
// computed on it, which is what the whole uncompacted tree would give.
module CompactGraph {
  import opened BlackjackRules
  import opened CompactBlackjack
  import opened Sums
  import Dag

  datatype Kind = TerminalNode | ChanceNode | PlayerNode
  datatype Edge = Edge(child: nat, probability: real, action: Action)
  datatype Node = Node(state: Compact, kind: Kind, key: int, utility: real, edges: seq<Edge>)

  // ---- What a node says about the positions it stands for ----

  function KindOf(p: Position): Kind {
    if p.phase == Terminal then TerminalNode else if p.phase == PlayerTurn then PlayerNode else ChanceNode
  }

  function ProbabilityOf(p: Position, i: nat): real
    requires p.active < |p.hands| && i < ActionCount(p)
  {
    if ActionAt(p, i).Deal? then CardProbability(ActionAt(p, i).card) else 1.0
  }

  ghost predicate EdgeFine(nodes: seq<Node>, reps: seq<Position>, i: nat, a: nat)
    requires i < |nodes| && i < |reps| && a < |nodes[i].edges| && reps[i].active < |reps[i].hands|
  {
    var e, p := nodes[i].edges[a], reps[i];
    && e.child < |nodes| && a < ActionCount(p)
    && e.action == ActionAt(p, a) && e.probability == ProbabilityOf(p, a)
    && ChildOf(p, a).active < |ChildOf(p, a).hands|
    && nodes[e.child].state == Encode(ChildOf(p, a))
  }

  ghost predicate NodeFine(nodes: seq<Node>, reps: seq<Position>, i: nat)
    requires i < |nodes| == |reps|
  {
    var n, p := nodes[i], reps[i];
    && Reachable(p) && p.active < |p.hands|
    && n.state == Encode(p)
    && n.kind == KindOf(p)
    && n.key == (if p.phase == PlayerTurn then InformationKey(p) else -1)
    && n.utility == (if p.phase == Terminal then Utility(p) else 0.0)
    && |n.edges| <= ActionCount(p)
    && forall a: nat :: a < |n.edges| ==> EdgeFine(nodes, reps, i, a)
  }

  ghost predicate NodesFine(nodes: seq<Node>, reps: seq<Position>) {
    |reps| == |nodes| && forall i: nat :: i < |nodes| ==> NodeFine(nodes, reps, i)
  }

  ghost predicate TableFine(nodes: seq<Node>, table: map<Compact, nat>) {
    && (forall s :: s in table ==> table[s] < |nodes| && nodes[table[s]].state == s)
    && (forall i: nat :: i < |nodes| ==> nodes[i].state in table && table[nodes[i].state] == i)
  }

  function GroupOf(groups: map<int, seq<nat>>, key: int): seq<nat> {
    if key in groups then groups[key] else []
  }

  // The group of a key lists exactly the player nodes with that key, the newest first.
  ghost predicate GroupFine(nodes: seq<Node>, groups: map<int, seq<nat>>, key: int) {
    var g := GroupOf(groups, key);
    && Dag.Distinct(g)
    && (forall q: nat :: q < |g| ==> g[q] < |nodes|)
    && (forall i: nat :: i < |nodes| ==> (i in g <==> nodes[i].kind == PlayerNode && nodes[i].key == key))
  }

  ghost predicate Fine(nodes: seq<Node>, reps: seq<Position>, table: map<Compact, nat>, groups: map<int, seq<nat>>) {
    && NodesFine(nodes, reps)
    && TableFine(nodes, table)
    && (forall key: int :: GroupFine(nodes, groups, key))
  }

  ghost predicate AllEdges(nodes: seq<Node>, reps: seq<Position>, i: nat)
    requires i < |nodes| && i < |reps|
  {
    reps[i].active < |reps[i].hands| && |nodes[i].edges| == ActionCount(reps[i])
  }

  ghost predicate LeadsTo(nodes: seq<Node>, i: nat, a: nat, c: nat) {
    i < |nodes| && a < |nodes[i].edges| && nodes[i].edges[a].child == c
  }

  ghost predicate HasParent(nodes: seq<Node>, c: nat) {
    exists i: nat, a: nat :: LeadsTo(nodes, i, a, c)
  }

  // Nodes that were there are as they were.
  ghost predicate Extends(nodes: seq<Node>, reps: seq<Position>, nodes': seq<Node>, reps': seq<Position>) {
    && |nodes| == |reps| <= |nodes'| == |reps'|
    && (forall i: nat :: i < |nodes| ==> nodes'[i] == nodes[i] && reps'[i] == reps[i])
  }

  // The nodes from from on are complete, and all but root are some node's child.
  ghost predicate Grown(nodes: seq<Node>, reps: seq<Position>, from: nat, root: nat)
    requires |nodes| == |reps|
  {
    forall i: nat :: from <= i < |nodes| ==> AllEdges(nodes, reps, i) && (i == root || HasParent(nodes, i))
  }

  lemma FineKept(nodes: seq<Node>, reps: seq<Position>, nodes': seq<Node>, reps': seq<Position>, i: nat)
    requires i < |nodes| == |reps| && NodeFine(nodes, reps, i) && |nodes'| == |reps'| && |nodes| <= |nodes'|
    requires nodes'[i] == nodes[i] && reps'[i] == reps[i]
    requires forall j: nat :: j < |nodes| ==> nodes'[j].state == nodes[j].state
    ensures NodeFine(nodes', reps', i)
  {
    forall a: nat | a < |nodes[i].edges| ensures EdgeFine(nodes', reps', i, a) {
      assert EdgeFine(nodes, reps, i, a);
    }
  }

  // A new node, with no edges yet, in the table and in its group.
  function NewNode(p: Position): Node
    requires p.active < |p.hands|
  {
    Node(Encode(p), KindOf(p), if p.phase == PlayerTurn then InformationKey(p) else -1,
         if p.phase == Terminal then Utility(p) else 0.0, [])
  }

  function GroupsWith(groups: map<int, seq<nat>>, n: Node, index: nat): map<int, seq<nat>> {
    if n.kind == PlayerNode then groups[n.key := [index] + GroupOf(groups, n.key)] else groups
  }

  lemma GroupGrows(nodes: seq<Node>, groups: map<int, seq<nat>>, n: Node, key: int)
    requires GroupFine(nodes, groups, key)
    ensures GroupFine(nodes + [n], GroupsWith(groups, n, |nodes|), key)
  {
    var g := GroupOf(groups, key);
    var g' := GroupOf(GroupsWith(groups, n, |nodes|), key);
    if n.kind == PlayerNode && n.key == key {
      assert g' == [|nodes|] + g;
      forall i: nat | i < |nodes + [n]| ensures i in g' <==> (nodes + [n])[i].kind == PlayerNode && (nodes + [n])[i].key == key {
        assert i in g' <==> i == |nodes| || i in g;
      }
    } else {
      assert g' == g;
    }
  }

  lemma AppendedFine(nodes: seq<Node>, reps: seq<Position>, table: map<Compact, nat>, groups: map<int, seq<nat>>, p: Position)
    requires Fine(nodes, reps, table, groups) && Reachable(p) && p.active < |p.hands| && Encode(p) !in table
    ensures Fine(nodes + [NewNode(p)], reps + [p], table[Encode(p) := |nodes|], GroupsWith(groups, NewNode(p), |nodes|))
  {
    var nodes', reps' := nodes + [NewNode(p)], reps + [p];
    forall i: nat | i < |nodes'| ensures NodeFine(nodes', reps', i) {
      if i < |nodes| {
        FineKept(nodes, reps, nodes', reps', i);
      }
    }
    forall key: int ensures GroupFine(nodes', GroupsWith(groups, NewNode(p), |nodes|), key) {
      GroupGrows(nodes, groups, NewNode(p), key);
    }
  }

  function WithEdge(nodes: seq<Node>, i: nat, e: Edge): (r: seq<Node>)
    requires i < |nodes|
    ensures |r| == |nodes|
  {
    nodes[i := nodes[i].(edges := nodes[i].edges + [e])]
  }

  lemma EdgeAdded(nodes: seq<Node>, reps: seq<Position>, table: map<Compact, nat>, groups: map<int, seq<nat>>, i: nat, e: Edge)
    requires Fine(nodes, reps, table, groups) && i < |nodes| && reps[i].active < |reps[i].hands|
    requires |nodes[i].edges| < ActionCount(reps[i])
    requires var a := |nodes[i].edges|;
      && e.child < |nodes| && e.action == ActionAt(reps[i], a) && e.probability == ProbabilityOf(reps[i], a)
      && ChildOf(reps[i], a).active < |ChildOf(reps[i], a).hands|
      && nodes[e.child].state == Encode(ChildOf(reps[i], a))
    ensures Fine(WithEdge(nodes, i, e), reps, table, groups)
  {
    var nodes' := WithEdge(nodes, i, e);
    forall j: nat | j < |nodes| ensures nodes'[j].state == nodes[j].state && nodes'[j].kind == nodes[j].kind && nodes'[j].key == nodes[j].key {
    }
    forall j: nat | j < |nodes| ensures NodeFine(nodes', reps, j) {
      if j != i {
        FineKept(nodes, reps, nodes', reps, j);
      } else {
        EdgedNodeFine(nodes, reps, i, e);
      }
    }
    forall key: int ensures GroupFine(nodes', groups, key) {
      assert GroupFine(nodes, groups, key);
    }
  }

  lemma EdgedNodeFine(nodes: seq<Node>, reps: seq<Position>, i: nat, e: Edge)
    requires |reps| == |nodes| && i < |nodes| && NodeFine(nodes, reps, i) && reps[i].active < |reps[i].hands|
    requires |nodes[i].edges| < ActionCount(reps[i])
    requires var a := |nodes[i].edges|;
      && e.child < |nodes| && e.action == ActionAt(reps[i], a) && e.probability == ProbabilityOf(reps[i], a)
      && ChildOf(reps[i], a).active < |ChildOf(reps[i], a).hands|
      && nodes[e.child].state == Encode(ChildOf(reps[i], a))
    ensures NodeFine(WithEdge(nodes, i, e), reps, i)
  {
    var nodes' := WithEdge(nodes, i, e);
    forall j: nat | j < |nodes| ensures nodes'[j].state == nodes[j].state {
    }
    forall a: nat | a < |nodes'[i].edges| ensures EdgeFine(nodes', reps, i, a) {
      if a < |nodes[i].edges| {
        assert EdgeFine(nodes, reps, i, a);
      }
    }
  }

  // One more finished subtree, and the edge to it.
  lemma GrownMore(nodes: seq<Node>, reps: seq<Position>, index: nat, child: nat, from: nat, e: Edge)
    requires |nodes| == |reps|
    requires index < from <= |nodes| && e.child == child
    requires forall i: nat :: index < i < from ==> AllEdges(nodes, reps, i) && HasParent(nodes, i)
    requires Grown(nodes, reps, from, child)
    ensures var nodes' := WithEdge(nodes, index, e);
      forall i: nat :: index < i < |nodes'| ==> AllEdges(nodes', reps, i) && HasParent(nodes', i)
  {
    var nodes' := WithEdge(nodes, index, e);
    forall i: nat | index < i < |nodes'| ensures AllEdges(nodes', reps, i) && HasParent(nodes', i) {
      assert AllEdges(nodes, reps, i);
      if i == child {
        assert LeadsTo(nodes', index, |nodes[index].edges|, i);
      } else {
        ParentKept(nodes, nodes', i);
      }
    }
  }

  lemma ParentKept(nodes: seq<Node>, nodes': seq<Node>, c: nat)
    requires HasParent(nodes, c) && |nodes| <= |nodes'|
    requires forall i: nat :: i < |nodes| ==> nodes[i].edges <= nodes'[i].edges
    ensures HasParent(nodes', c)
  {
    var i: nat, a: nat :| LeadsTo(nodes, i, a, c);
    assert LeadsTo(nodes', i, a, c);
  }

  // ---- The graph as a whole ----

  // All of the game: complete, and everything below the initial position.
  ghost predicate Complete(nodes: seq<Node>, reps: seq<Position>, table: map<Compact, nat>, groups: map<int, seq<nat>>) {
    && Fine(nodes, reps, table, groups)
    && nodes != [] && reps[0] == INITIAL
    && Grown(nodes, reps, 0, 0)
  }

  function EdgesOf(n: Node, w: (Node, nat) -> real): (es: seq<Dag.Edge>)
    ensures |es| == |n.edges|
  {
    seq(|n.edges|, (a: nat) requires a < |n.edges| => Dag.Edge(n.edges[a].child, w(n, a)))
  }

  // The graph with the weights that a pass over it uses.
  function GraphOf(nodes: seq<Node>, w: (Node, nat) -> real): (g: Dag.Graph)
    ensures |g| == |nodes|
  {
    seq(|nodes|, (i: nat) requires i < |nodes| => EdgesOf(nodes[i], w))
  }

  lemma EdgeSame(nodes: seq<Node>, reps: seq<Position>, i: nat, a: nat)
    requires |reps| == |nodes| && i < |nodes| && a < |nodes[i].edges|
    requires NodesFine(nodes, reps)
    ensures reps[i].active < |reps[i].hands| && nodes[i].edges[a].child < |nodes| && a < ActionCount(reps[i])
    ensures Same(ChildOf(reps[i], a), reps[nodes[i].edges[a].child])
    ensures Reachable(ChildOf(reps[i], a)) && Reachable(reps[nodes[i].edges[a].child])
    ensures 0 <= Worth(reps[nodes[i].edges[a].child]) < Worth(reps[i]) <= 196
  {
    assert NodeFine(nodes, reps, i) && EdgeFine(nodes, reps, i, a);
    var c := nodes[i].edges[a].child;
    assert NodeFine(nodes, reps, c);
    ChildReachable(reps[i], a);
    ReachableOk(ChildOf(reps[i], a));
    ReachableOk(reps[c]);
    WorthSame(ChildOf(reps[i], a), reps[c]);
    WorthAtMost(reps[i]);
  }

  lemma WorthAtMost(p: Position)
    requires Reachable(p)
    ensures p.active < |p.hands| && 0 <= Worth(p) <= 196
  {
    var actions :| After(actions) == Ok(p);
    RoundsAreBounded(actions);
    ReachableWorth(p);
  }

  lemma GraphIsOk(nodes: seq<Node>, reps: seq<Position>, w: (Node, nat) -> real)
    requires |reps| == |nodes| && NodesFine(nodes, reps)
    ensures Dag.GraphOk(GraphOf(nodes, w))
  {
    var g: seq<seq<Dag.Edge>> := GraphOf(nodes, w);
    forall i: nat, a: nat | i < |g| && a < |g[i]| ensures g[i][a].child < |g| {
      EdgeSame(nodes, reps, i, a);
    }
  }

  function Ranks(reps: seq<Position>): (r: seq<nat>)
    ensures |r| == |reps|
  {
    seq(|reps|, (i: nat) requires i < |reps| =>
      if reps[i].active < |reps[i].hands| && Worth(reps[i]) <= 196 then 196 - Worth(reps[i]) else 0)
  }

  // Play left falls along every edge, so the graph is acyclic.
  lemma GraphIsRanked(nodes: seq<Node>, reps: seq<Position>, w: (Node, nat) -> real)
    requires |reps| == |nodes| && NodesFine(nodes, reps)
    ensures Dag.Ranked(GraphOf(nodes, w), Ranks(reps))
  {
    var g: seq<seq<Dag.Edge>>, rank := GraphOf(nodes, w), Ranks(reps);
    forall i: nat, a: nat | i < |g| && a < |g[i]| && g[i][a].child < |g| ensures rank[i] < rank[g[i][a].child] {
      EdgeSame(nodes, reps, i, a);
    }
  }

  // Only the initial position's node has no edge into it.
  lemma RootIsOnlySource(nodes: seq<Node>, reps: seq<Position>, table: map<Compact, nat>, groups: map<int, seq<nat>>, w: (Node, nat) -> real)
    requires Complete(nodes, reps, table, groups)
    ensures Dag.OnlySource(GraphOf(nodes, w), 0)
  {
    var g: seq<seq<Dag.Edge>> := GraphOf(nodes, w);
    forall c: nat | c < |g| ensures Dag.IsSource(g, c) <==> c == 0 {
      if c == 0 {
        forall i: nat | i < |g| ensures Dag.EdgesInto(g[i], 0) == 0 {
          NoEdgeToRoot(nodes, reps, w, i);
        }
      } else {
        assert HasParent(nodes, c);
        var i: nat, a: nat :| LeadsTo(nodes, i, a, c);
        assert g[i][a].child == c;
        Dag.EdgesIntoHas(g[i], c);
      }
    }
  }

  lemma NoEdgeToRoot(nodes: seq<Node>, reps: seq<Position>, w: (Node, nat) -> real, i: nat)
    requires |reps| == |nodes| && NodesFine(nodes, reps) && i < |nodes| && reps[0] == INITIAL
    ensures Dag.EdgesInto(GraphOf(nodes, w)[i], 0) == 0
  {
    var es: seq<Dag.Edge> := GraphOf(nodes, w)[i];
    Dag.EdgesIntoHas(es, 0);
    assert After([]) == Ok(INITIAL);
    LiveSumOf(INITIAL.hands, 0);
    forall a: nat | a < |es| ensures es[a].child != 0 {
      EdgeSame(nodes, reps, i, a);
    }
  }

  // ---- What reach adds up to, on the raw game ----

  // Weights on nodes that are those of the positions they stand for.
  ghost predicate Agrees(nodes: seq<Node>, reps: seq<Position>, wn: (Node, nat) -> real, w: Weights) {
    forall i: nat, a: nat :: i < |nodes| && i < |reps| && a < |nodes[i].edges| ==> wn(nodes[i], a) == w(reps[i], a)
  }

  ghost function FoldAt(p: Position, w: Weights, f: Measure): real {
    if Reachable(p) && p.active < |p.hands| then Fold(p, w, f) else 0.0
  }

  ghost function Folds(reps: seq<Position>, w: Weights, f: Measure): (u: seq<real>)
    ensures |u| == |reps|
  {
    seq(|reps|, (i: nat) requires i < |reps| => FoldAt(reps[i], w, f))
  }

  function Measures(reps: seq<Position>, f: Measure): (u: seq<real>)
    ensures |u| == |reps|
  {
    seq(|reps|, (i: nat) requires i < |reps| => f(reps[i]))
  }

  lemma {:induction false} EdgesFold(nodes: seq<Node>, reps: seq<Position>, wn: (Node, nat) -> real, w: Weights, f: Measure, i: nat, n: nat)
    requires |reps| == |nodes| && i < |nodes| && NodesFine(nodes, reps)
    requires Agrees(nodes, reps, wn, w) && Respects(w, f) && n <= |nodes[i].edges|
    ensures Reachable(reps[i]) && reps[i].active < |reps[i].hands| && n <= ActionCount(reps[i]) && Dag.GraphOk(GraphOf(nodes, wn))
    ensures Dag.EdgeSum(GraphOf(nodes, wn)[i][..n], Folds(reps, w, f)) == FoldOver(reps[i], w, f, n)
    decreases n
  {
    GraphIsOk(nodes, reps, wn);
    assert NodeFine(nodes, reps, i);
    if n > 0 {
      var es := GraphOf(nodes, wn)[i];
      EdgesFold(nodes, reps, wn, w, f, i, n - 1);
      assert es[..n][..n - 1] == es[..n - 1];
      EdgeFolds(nodes, reps, wn, w, f, i, n - 1);
    }
  }

  lemma EdgeFolds(nodes: seq<Node>, reps: seq<Position>, wn: (Node, nat) -> real, w: Weights, f: Measure, i: nat, a: nat)
    requires |reps| == |nodes| && i < |nodes| && NodesFine(nodes, reps)
    requires Agrees(nodes, reps, wn, w) && Respects(w, f) && a < |nodes[i].edges|
    ensures Reachable(reps[i]) && reps[i].active < |reps[i].hands|
    ensures nodes[i].edges[a].child < |nodes| && a < ActionCount(reps[i])
    ensures Times(wn(nodes[i], a), Folds(reps, w, f)[nodes[i].edges[a].child]) == Term(reps[i], w, f, a)
  {
    assert NodeFine(nodes, reps, i);
    EdgeSame(nodes, reps, i, a);
    var c := nodes[i].edges[a].child;
    FoldSame(ChildOf(reps[i], a), reps[c], w, f);
    assert Folds(reps, w, f)[c] == ChildFold(reps[i], w, f, a);
  }

  lemma GraphUnfolds(nodes: seq<Node>, reps: seq<Position>, wn: (Node, nat) -> real, w: Weights, f: Measure)
    requires |reps| == |nodes| && NodesFine(nodes, reps)
    requires Grown(nodes, reps, 0, 0) && Agrees(nodes, reps, wn, w) && Respects(w, f)
    ensures Dag.GraphOk(GraphOf(nodes, wn)) && Dag.Unfolds(GraphOf(nodes, wn), Measures(reps, f), Folds(reps, w, f))
  {
    GraphIsOk(nodes, reps, wn);
    var g := GraphOf(nodes, wn);
    forall i: nat | i < |g| ensures Dag.UnfoldsAt(g, Measures(reps, f), Folds(reps, w, f), i) {
      assert AllEdges(nodes, reps, i);
      EdgesFold(nodes, reps, wn, w, f, i, |nodes[i].edges|);
      assert g[i][..|nodes[i].edges|] == g[i];
    }
  }

  // Any measure weighted by the graph's reach adds up to what a full traversal of the raw game,
  // history by history, would accumulate.
  lemma ReachIsRaw(nodes: seq<Node>, reps: seq<Position>, table: map<Compact, nat>, groups: map<int, seq<nat>>,
                   wn: (Node, nat) -> real, w: Weights, f: Measure, order: seq<nat>, reach: seq<real>)
    requires Complete(nodes, reps, table, groups) && Agrees(nodes, reps, wn, w) && Respects(w, f)
    requires Dag.IsTopological(GraphOf(nodes, wn), order) && Dag.ReachSolved(GraphOf(nodes, wn), order, 0, reach)
    ensures Reachable(INITIAL) && Sum(Dag.Weighted(reach, Measures(reps, f)), 0, |nodes|) == Traverse(INITIAL, w, f, 1.0)
  {
    assert After([]) == Ok(INITIAL);
    var u := Folds(reps, w, f);
    GraphUnfolds(nodes, reps, wn, w, f);
    assert u[0] == Fold(INITIAL, w, f);
    Dag.ReachAddsUp(GraphOf(nodes, wn), order, 0, reach, Measures(reps, f), u);
    TraverseIsFold(INITIAL, w, f, 1.0);
    TimesOne(Fold(INITIAL, w, f));
  }

  // ---- What one training iteration adds ----

  // Counterfactual reach: chance multiplies, the player's own actions do not.
  function ChanceWeights(): Weights {
    (p: Position, i: nat) => if p.active < |p.hands| && i < ActionCount(p) then ProbabilityOf(p, i) else 0.0
  }

  // The player's own reach: its policy multiplies, chance does not.
  function OwnWeights(policy: Policy): Weights {
    (p: Position, i: nat) => if p.phase == PlayerTurn && p.active < |p.hands| then policy(InformationKey(p), i) else 1.0
  }

  // Does p belong to the information set of key?
  predicate InSet(p: Position, key: int) {
    p.phase == PlayerTurn && p.active < |p.hands| && InformationKey(p) == key
  }

  // How much better than the policy action a is at p, if p is in the information set.
  ghost function RegretMeasure(policy: Policy, key: int, a: nat): Measure {
    (p: Position) =>
      if Reachable(p) && InSet(p, key) && a < ActionCount(p) then ValueAt(ChildOf(p, a), policy) - ValueAt(p, policy) else 0.0
  }

  ghost function ValueAt(p: Position, policy: Policy): real {
    FoldAt(p, Playing(policy), Payment())
  }

  function StrategyMeasure(policy: Policy, key: int, a: nat): Measure {
    (p: Position) => if InSet(p, key) then policy(key, a) else 0.0
  }

  lemma InSetSame(p: Position, q: Position, key: int)
    requires Reachable(p) && Reachable(q) && Same(p, q)
    ensures InSet(p, key) == InSet(q, key)
  {
    ReachableOk(p);
    ReachableOk(q);
    ActionsSame(p, q);
  }

  lemma RegretSame(p: Position, q: Position, policy: Policy, key: int, a: nat)
    requires Reachable(p) && Reachable(q) && Same(p, q)
    ensures RegretMeasure(policy, key, a)(p) == RegretMeasure(policy, key, a)(q)
  {
    InSetSame(p, q, key);
    ReachableOk(p);
    ReachableOk(q);
    ActionsSame(p, q);
    if a < ActionCount(p) {
      ChildSame(p, q, a);
      ChildReachable(p, a);
      ChildReachable(q, a);
      ValueSame(p, q, policy);
      ValueSame(ChildOf(p, a), ChildOf(q, a), policy);
    }
  }

  lemma RegretRespects(policy: Policy, key: int, a: nat)
    ensures Respects(ChanceWeights(), RegretMeasure(policy, key, a))
  {
    forall p: Position, q: Position | Reachable(p) && Reachable(q) && Same(p, q)
      ensures MeasuredAlike(p, q, ChanceWeights(), RegretMeasure(policy, key, a))
    {
      RegretAlike(p, q, policy, key, a);
    }
  }

  lemma RegretAlike(p: Position, q: Position, policy: Policy, key: int, a: nat)
    requires Reachable(p) && Reachable(q) && Same(p, q)
    ensures MeasuredAlike(p, q, ChanceWeights(), RegretMeasure(policy, key, a))
  {
    RegretSame(p, q, policy, key, a);
    ReachableOk(p);
    ReachableOk(q);
    ActionsSame(p, q);
  }

  lemma StrategyRespects(policy: Policy, key: int, a: nat)
    ensures Respects(OwnWeights(policy), StrategyMeasure(policy, key, a))
  {
    var w, f := OwnWeights(policy), StrategyMeasure(policy, key, a);
    forall p: Position, q: Position | Reachable(p) && Reachable(q) && Same(p, q) ensures MeasuredAlike(p, q, w, f) {
      InSetSame(p, q, key);
      ReachableOk(p);
      ReachableOk(q);
      ActionsSame(p, q);
    }
  }

  // The raw traversal's regret and strategy for action a of an information set: over all histories
  // of the uncompacted game, reach times how much better the action is, and own reach times policy.
  ghost function RawRegret(policy: Policy, key: int, a: nat): real {
    TraverseAll(ChanceWeights(), RegretMeasure(policy, key, a))
  }

  ghost function RawStrategy(policy: Policy, key: int, a: nat): real {
    TraverseAll(OwnWeights(policy), StrategyMeasure(policy, key, a))
  }

  ghost function TraverseAll(w: Weights, f: Measure): real {
    assert After([]) == Ok(INITIAL);
    Traverse(INITIAL, w, f, 1.0)
  }

  // Adding over the group of a key is adding over the graph, for a measure that is zero elsewhere.
  lemma GroupAddsUp(nodes: seq<Node>, reps: seq<Position>, table: map<Compact, nat>, groups: map<int, seq<nat>>,
                    wn: (Node, nat) -> real, w: Weights, f: Measure, order: seq<nat>, reach: seq<real>, key: int)
    requires Complete(nodes, reps, table, groups) && Agrees(nodes, reps, wn, w) && Respects(w, f)
    requires Dag.IsTopological(GraphOf(nodes, wn), order) && Dag.ReachSolved(GraphOf(nodes, wn), order, 0, reach)
    requires forall p: Position :: !InSet(p, key) ==> f(p) == 0.0
    ensures var g := GroupOf(groups, key);
      Sum(Dag.InOrder(g, Dag.Weighted(reach, Measures(reps, f))), 0, |g|) == TraverseAll(w, f)
  {
    var g, all := GroupOf(groups, key), Dag.Weighted(reach, Measures(reps, f));
    ReachIsRaw(nodes, reps, table, groups, wn, w, f, order, reach);
    assert GroupFine(nodes, groups, key);
    Dag.SumInOrder(g, all, |nodes|);
    forall i: nat | i < |nodes| ensures Dag.UnlessIn(g, all)(i) == 0.0 {
      OffGroup(nodes, reps, groups, f, reach, key, i);
    }
    SumZero(Dag.UnlessIn(g, all), 0, |nodes|);
  }

  lemma OffGroup(nodes: seq<Node>, reps: seq<Position>, groups: map<int, seq<nat>>, f: Measure, reach: seq<real>, key: int, i: nat)
    requires |reps| == |nodes| && i < |nodes| && NodeFine(nodes, reps, i) && GroupFine(nodes, groups, key)
    requires forall p: Position :: !InSet(p, key) ==> f(p) == 0.0
    ensures Dag.UnlessIn(GroupOf(groups, key), Dag.Weighted(reach, Measures(reps, f)))(i) == 0.0
  {
    if i !in GroupOf(groups, key) {
      assert f(reps[i]) == 0.0;
    }
  }

  // Every position that a round can reach has its node.
  lemma {:induction false} EveryPositionHasNode(nodes: seq<Node>, reps: seq<Position>, table: map<Compact, nat>,
                                                groups: map<int, seq<nat>>, actions: seq<Action>)
    requires Complete(nodes, reps, table, groups) && After(actions).Ok?
    ensures var p := After(actions).value; p.active < |p.hands| && Encode(p) in table
    decreases |actions|
  {
    var p := After(actions).value;
    assert Reachable(p) by { assert After(actions) == Ok(p); }
    ReachableWorth(p);
    if actions == [] {
      assert NodeFine(nodes, reps, 0);
    } else {
      var before, a := After(actions[..|actions| - 1]).value, actions[|actions| - 1];
      EveryPositionHasNode(nodes, reps, table, groups, actions[..|actions| - 1]);
      ChildHasNode(nodes, reps, table, groups, actions[..|actions| - 1], before, a);
    }
  }

  lemma ChildHasNode(nodes: seq<Node>, reps: seq<Position>, table: map<Compact, nat>, groups: map<int, seq<nat>>,
                     actions: seq<Action>, p: Position, a: Action)
    requires Complete(nodes, reps, table, groups) && After(actions) == Ok(p) && Advance(p, a).Ok?
    requires p.active < |p.hands| && Encode(p) in table
    ensures Advance(p, a).value.active < |Advance(p, a).value.hands| && Encode(Advance(p, a).value) in table
  {
    var i := table[Encode(p)];
    assert NodeFine(nodes, reps, i);
    LegalEverywhere(p, actions, reps[i], a);
    StateOfEdge(nodes, reps, table, groups, i, a);
  }

  // An action accepted at one position is legal, with the same outcome, at any with its encoding.
  lemma LegalEverywhere(p: Position, actions: seq<Action>, q: Position, a: Action)
    requires After(actions) == Ok(p) && Reachable(q) && Same(p, q) && Advance(p, a).Ok?
    ensures Legal(q, a) && Advance(q, a).Ok? && Same(Advance(p, a).value, Advance(q, a).value)
  {
    RoundsAreBounded(actions);
    AdvanceOk(p, a);
    ReachableOk(q);
    StepSame(p, q, a);
  }

  lemma StateOfEdge(nodes: seq<Node>, reps: seq<Position>, table: map<Compact, nat>, groups: map<int, seq<nat>>, i: nat, a: Action)
    requires Complete(nodes, reps, table, groups) && i < |nodes| && reps[i].active < |reps[i].hands|
    requires Legal(reps[i], a) && Advance(reps[i], a).Ok?
    ensures Advance(reps[i], a).value.active < |Advance(reps[i], a).value.hands| && Encode(Advance(reps[i], a).value) in table
  {
    assert AllEdges(nodes, reps, i) && NodeFine(nodes, reps, i);
    ActionsAreLegal(reps[i], a);
    var k: nat :| k < ActionCount(reps[i]) && ActionAt(reps[i], k) == a;
    assert EdgeFine(nodes, reps, i, k);
  }

  datatype Option<T> = None | Some(value: T)

  // The weights of the passes, as the source works them out from a node.
  function PlainWeight(n: Node, a: nat): real {
    if a < |n.edges| && n.kind == ChanceNode then n.edges[a].probability else 1.0
  }

  function OwnWeight(policy: Policy): (Node, nat) -> real {
    (n: Node, a: nat) => if n.kind == PlayerNode then policy(n.key, a) else 1.0
  }

  function PlayWeight(policy: Policy): (Node, nat) -> real {
    (n: Node, a: nat) => if n.kind == PlayerNode then policy(n.key, a) else if a < |n.edges| then n.edges[a].probability else 0.0
  }

  lemma EdgeIsFine(nodes: seq<Node>, reps: seq<Position>, i: nat, a: nat)
    requires |reps| == |nodes| && NodesFine(nodes, reps) && i < |nodes| && a < |nodes[i].edges|
    ensures NodeFine(nodes, reps, i) && EdgeFine(nodes, reps, i, a)
  {
    assert NodeFine(nodes, reps, i);
  }

  lemma PlainAgrees(nodes: seq<Node>, reps: seq<Position>)
    requires |reps| == |nodes| && NodesFine(nodes, reps)
    ensures Agrees(nodes, reps, PlainWeight, ChanceWeights())
  {
    forall i: nat, a: nat | i < |nodes| && a < |nodes[i].edges|
      ensures PlainWeight(nodes[i], a) == ChanceWeights()(reps[i], a)
    {
      EdgeIsFine(nodes, reps, i, a);
    }
  }

  lemma OwnAgrees(nodes: seq<Node>, reps: seq<Position>, policy: Policy)
    requires |reps| == |nodes| && NodesFine(nodes, reps)
    ensures Agrees(nodes, reps, OwnWeight(policy), OwnWeights(policy))
  {
    forall i: nat, a: nat | i < |nodes| && a < |nodes[i].edges|
      ensures OwnWeight(policy)(nodes[i], a) == OwnWeights(policy)(reps[i], a)
    {
      EdgeIsFine(nodes, reps, i, a);
    }
  }

  lemma PlayAgrees(nodes: seq<Node>, reps: seq<Position>, policy: Policy)
    requires |reps| == |nodes| && NodesFine(nodes, reps)
    ensures Agrees(nodes, reps, PlayWeight(policy), Playing(policy))
  {
    forall i: nat, a: nat | i < |nodes| && a < |nodes[i].edges|
      ensures PlayWeight(policy)(nodes[i], a) == Playing(policy)(reps[i], a)
    {
      EdgeIsFine(nodes, reps, i, a);
    }
  }

  lemma SameShape(nodes: seq<Node>, w: (Node, nat) -> real, w': (Node, nat) -> real, order: seq<nat>)
    requires Dag.IsTopological(GraphOf(nodes, w), order)
    ensures Dag.IsTopological(GraphOf(nodes, w'), order)
  {
    forall q: nat | q < |order| ensures Dag.Forward(GraphOf(nodes, w'), order, q) {
      assert Dag.Forward(GraphOf(nodes, w), order, q);
      forall a: nat | a < |nodes[order[q]].edges| ensures nodes[order[q]].edges[a].child !in order[..q + 1] {
        assert GraphOf(nodes, w)[order[q]][a].child == nodes[order[q]].edges[a].child;
      }
    }
  }

  lemma ValueSplits(p: Position, policy: Policy)
    requires Reachable(p) && p.active < |p.hands|
    ensures ValueAt(p, policy) == Payment()(p) + FoldOver(p, Playing(policy), Payment(), ActionCount(p))
    ensures FoldOver(p, Playing(policy), Payment(), 0) == 0.0
  {
  }

  // One edge's share of a node's value.
  lemma ValueOfEdge(nodes: seq<Node>, reps: seq<Position>, i: nat, a: nat, policy: Policy, x: real)
    requires |reps| == |nodes| && i < |nodes| && a < |nodes[i].edges| && NodesFine(nodes, reps)
    requires nodes[i].edges[a].child < |nodes| && x == ValueAt(reps[nodes[i].edges[a].child], policy)
    ensures Reachable(reps[i]) && reps[i].active < |reps[i].hands| && a < ActionCount(reps[i])
    ensures FoldOver(reps[i], Playing(policy), Payment(), a + 1)
         == FoldOver(reps[i], Playing(policy), Payment(), a) + Times(PlayWeight(policy)(nodes[i], a), x)
  {
    assert NodeFine(nodes, reps, i);
    PlayRespects(policy);
    PlayAgrees(nodes, reps, policy);
    EdgeFolds(nodes, reps, PlayWeight(policy), Playing(policy), Payment(), i, a);
  }

  // What the first q nodes of a group contribute to action a.
  ghost function RegretSoFar(reps: seq<Position>, policy: Policy, key: int, a: nat, reach: seq<real>, group: seq<nat>, q: nat): real
    requires q <= |group|
  {
    Sum(Dag.InOrder(group, Dag.Weighted(reach, Measures(reps, RegretMeasure(policy, key, a)))), 0, q)
  }

  ghost function StrategySoFar(reps: seq<Position>, policy: Policy, key: int, a: nat, own: seq<real>, group: seq<nat>, q: nat): real
    requires q <= |group|
  {
    Sum(Dag.InOrder(group, Dag.Weighted(own, Measures(reps, StrategyMeasure(policy, key, a)))), 0, q)
  }

  lemma RegretHere(nodes: seq<Node>, reps: seq<Position>, policy: Policy, key: int, a: nat, i: nat, child: real, here: real)
    requires |reps| == |nodes| && NodesFine(nodes, reps)
    requires i < |nodes| && nodes[i].kind == PlayerNode && nodes[i].key == key
    requires a < |nodes[i].edges| && nodes[i].edges[a].child < |nodes|
    requires child == ValueAt(reps[nodes[i].edges[a].child], policy) && here == ValueAt(reps[i], policy)
    ensures RegretMeasure(policy, key, a)(reps[i]) == child - here
  {
    assert NodeFine(nodes, reps, i);
    EdgeSame(nodes, reps, i, a);
    ValueSame(ChildOf(reps[i], a), reps[nodes[i].edges[a].child], policy);
  }

  lemma RegretStep(reps: seq<Position>, policy: Policy, key: int, a: nat, reach: seq<real>, group: seq<nat>, q: nat, gain: real)
    requires |reps| == |reach| && q < |group| && group[q] < |reps| && RegretMeasure(policy, key, a)(reps[group[q]]) == gain
    ensures RegretSoFar(reps, policy, key, a, reach, group, q + 1)
         == RegretSoFar(reps, policy, key, a, reach, group, q) + Times(reach[group[q]], gain)
  {
    SumStep(Dag.InOrder(group, Dag.Weighted(reach, Measures(reps, RegretMeasure(policy, key, a)))), q);
  }

  lemma SumStep(f: nat -> real, q: nat)
    ensures Sum(f, 0, q + 1) == Sum(f, 0, q) + f(q)
  {
  }

  lemma StrategyStep(nodes: seq<Node>, reps: seq<Position>, policy: Policy, key: int, a: nat, own: seq<real>, group: seq<nat>, q: nat)
    requires |reps| == |nodes| == |own| && NodesFine(nodes, reps)
    requires q < |group| && group[q] < |nodes| && nodes[group[q]].kind == PlayerNode && nodes[group[q]].key == key
    ensures StrategySoFar(reps, policy, key, a, own, group, q + 1)
         == StrategySoFar(reps, policy, key, a, own, group, q) + Times(own[group[q]], policy(key, a))
  {
    assert NodeFine(nodes, reps, group[q]);
    SumStep(Dag.InOrder(group, Dag.Weighted(own, Measures(reps, StrategyMeasure(policy, key, a)))), q);
  }

  lemma Scaled(m: real, before: real, x: real, p: real, after: real)
    requires after == before + Times(x, p)
    ensures Times(m, before) + Times(Times(x, p), m) == Times(m, after)
  {
  }

  // The accumulators of one action after the first q nodes of the group.
  ghost predicate Accumulated(reps: seq<Position>, policy: Policy, key: int, a: nat, reach: seq<real>, own: seq<real>,
                              group: seq<nat>, q: nat, multiplier: real, regret: real, strategy: real)
    requires q <= |group|
  {
    && regret == RegretSoFar(reps, policy, key, a, reach, group, q)
    && strategy == Times(multiplier, StrategySoFar(reps, policy, key, a, own, group, q))
  }

  lemma AccumulatedStep(nodes: seq<Node>, reps: seq<Position>, policy: Policy, key: int, a: nat, reach: seq<real>, own: seq<real>,
                        group: seq<nat>, q: nat, multiplier: real, regret: real, strategy: real, gain: real,
                        regret': real, strategy': real)
    requires |reps| == |nodes| == |reach| == |own| && NodesFine(nodes, reps)
    requires q < |group| && group[q] < |nodes| && nodes[group[q]].kind == PlayerNode && nodes[group[q]].key == key
    requires RegretMeasure(policy, key, a)(reps[group[q]]) == gain
    requires Accumulated(reps, policy, key, a, reach, own, group, q, multiplier, regret, strategy)
    requires regret' == regret + Times(reach[group[q]], gain) && strategy' == strategy + Times(Times(own[group[q]], policy(key, a)), multiplier)
    ensures Accumulated(reps, policy, key, a, reach, own, group, q + 1, multiplier, regret', strategy')
  {
    RegretStep(reps, policy, key, a, reach, group, q, gain);
    StrategyStep(nodes, reps, policy, key, a, own, group, q);
    Scaled(multiplier, StrategySoFar(reps, policy, key, a, own, group, q), own[group[q]], policy(key, a),
           StrategySoFar(reps, policy, key, a, own, group, q + 1));
  }

  lemma SumsAreRaw(nodes: seq<Node>, reps: seq<Position>, table: map<Compact, nat>, groups: map<int, seq<nat>>,
                   policy: Policy, key: int, a: nat, order: seq<nat>, reach: seq<real>, own: seq<real>)
    requires Complete(nodes, reps, table, groups)
    requires Dag.IsTopological(GraphOf(nodes, PlainWeight), order) && Dag.IsTopological(GraphOf(nodes, OwnWeight(policy)), order)
    requires Dag.ReachSolved(GraphOf(nodes, PlainWeight), order, 0, reach)
    requires Dag.ReachSolved(GraphOf(nodes, OwnWeight(policy)), order, 0, own)
    ensures var g := GroupOf(groups, key);
      && RegretSoFar(reps, policy, key, a, reach, g, |g|) == RawRegret(policy, key, a)
      && StrategySoFar(reps, policy, key, a, own, g, |g|) == RawStrategy(policy, key, a)
  {
    PlainAgrees(nodes, reps);
    OwnAgrees(nodes, reps, policy);
    RegretRespects(policy, key, a);
    StrategyRespects(policy, key, a);
    GroupAddsUp(nodes, reps, table, groups, PlainWeight, ChanceWeights(), RegretMeasure(policy, key, a), order, reach, key);
    GroupAddsUp(nodes, reps, table, groups, OwnWeight(policy), OwnWeights(policy), StrategyMeasure(policy, key, a), order, own, key);
  }

  // Both reach passes have been made along the order.
  ghost predicate PassesDone(nodes: seq<Node>, policy: Policy, order: seq<nat>, reach: seq<real>, own: seq<real>) {
    && |reach| == |own| == |nodes|
    && Dag.IsTopological(GraphOf(nodes, PlainWeight), order) && Dag.IsTopological(GraphOf(nodes, OwnWeight(policy)), order)
    && Dag.ReachSolved(GraphOf(nodes, PlainWeight), order, 0, reach)
    && Dag.ReachSolved(GraphOf(nodes, OwnWeight(policy)), order, 0, own)
  }

  lemma AccumulatedIsRaw(nodes: seq<Node>, reps: seq<Position>, table: map<Compact, nat>, groups: map<int, seq<nat>>,
                         policy: Policy, key: int, order: seq<nat>, reach: seq<real>, own: seq<real>, multiplier: real,
                         regrets: seq<real>, strategies: seq<real>)
    requires Complete(nodes, reps, table, groups) && PassesDone(nodes, policy, order, reach, own) && |regrets| == |strategies|
    requires var group := GroupOf(groups, key);
      forall a: nat :: a < |regrets| ==>
        Accumulated(reps, policy, key, a, reach, own, group, |group|, multiplier, regrets[a], strategies[a])
    ensures forall a: nat :: a < |regrets| ==>
      regrets[a] == RawRegret(policy, key, a) && strategies[a] == Times(multiplier, RawStrategy(policy, key, a))
  {
    var group := GroupOf(groups, key);
    forall a: nat | a < |regrets|
      ensures regrets[a] == RawRegret(policy, key, a) && strategies[a] == Times(multiplier, RawStrategy(policy, key, a))
    {
      SumsAreRaw(nodes, reps, table, groups, policy, key, a, order, reach, own);
      assert Accumulated(reps, policy, key, a, reach, own, group, |group|, multiplier, regrets[a], strategies[a]);
    }
  }

  // Once a node has a value, so have its children.
  ghost predicate Closed(nodes: seq<Node>, values: seq<Option<real>>) {
    forall i: nat, a: nat :: i < |nodes| && i < |values| && values[i].Some? && a < |nodes[i].edges| ==> ChildValued(nodes, values, i, a)
  }

  ghost predicate ChildValued(nodes: seq<Node>, values: seq<Option<real>>, i: nat, a: nat)
    requires i < |nodes| && a < |nodes[i].edges|
  {
    nodes[i].edges[a].child < |values| && values[nodes[i].edges[a].child].Some?
  }

  // The values known so far are right.
  ghost predicate ValuesRight(nodes: seq<Node>, reps: seq<Position>, values: seq<Option<real>>, policy: Policy) {
    && |values| == |nodes| == |reps| && Closed(nodes, values)
    && forall i: nat :: i < |values| ==> ValueFine(reps, values, policy, i)
  }

  ghost predicate ValueFine(reps: seq<Position>, values: seq<Option<real>>, policy: Policy, i: nat)
    requires i < |values| && i < |reps|
  {
    values[i].Some? ==> values[i].value == ValueAt(reps[i], policy)
  }

  ghost predicate MoreValued(values: seq<Option<real>>, values': seq<Option<real>>) {
    |values| == |values'| && forall j: nat :: j < |values| && values[j].Some? ==> values'[j] == values[j]
  }

  ghost predicate ChildrenValued(nodes: seq<Node>, values: seq<Option<real>>, i: nat, n: nat)
    requires i < |nodes| && n <= |nodes[i].edges|
  {
    forall b: nat :: b < n ==> ChildValued(nodes, values, i, b)
  }

  lemma OneMoreValued(nodes: seq<Node>, values: seq<Option<real>>, values': seq<Option<real>>, i: nat, n: nat)
    requires MoreValued(values, values') && i < |nodes| && n < |nodes[i].edges|
    requires ChildrenValued(nodes, values, i, n) && ChildValued(nodes, values', i, n)
    ensures ChildrenValued(nodes, values', i, n + 1)
  {
    forall b: nat | b < n + 1 ensures ChildValued(nodes, values', i, b) {
      if b < n {
        assert ChildValued(nodes, values, i, b);
      }
    }
  }

  lemma ValueKept(nodes: seq<Node>, reps: seq<Position>, values: seq<Option<real>>, policy: Policy, i: nat, x: real)
    requires ValuesRight(nodes, reps, values, policy) && i < |nodes| && x == ValueAt(reps[i], policy)
    requires ChildrenValued(nodes, values, i, |nodes[i].edges|)
    ensures ValuesRight(nodes, reps, values[i := Some(x)], policy)
  {
    var values' := values[i := Some(x)];
    forall j: nat, a: nat | j < |nodes| && values'[j].Some? && a < |nodes[j].edges| ensures ChildValued(nodes, values', j, a) {
      assert ChildValued(nodes, values, j, a);
    }
    forall j: nat | j < |values| ensures ValueFine(reps, values', policy, j) {
      assert ValueFine(reps, values, policy, j);
    }
  }

  // So valuing the root values every node.
  lemma {:induction false} AllValued(nodes: seq<Node>, reps: seq<Position>, table: map<Compact, nat>, groups: map<int, seq<nat>>,
                                     values: seq<Option<real>>, c: nat)
    requires Complete(nodes, reps, table, groups) && |values| == |nodes| && values[0].Some? && Closed(nodes, values) && c < |nodes|
    ensures values[c].Some?
    decreases 196 - (if reps[c].active < |reps[c].hands| then Worth(reps[c]) else 0)
  {
    if c != 0 {
      assert HasParent(nodes, c);
      var i: nat, a: nat :| LeadsTo(nodes, i, a, c);
      EdgeSame(nodes, reps, i, a);
      AllValued(nodes, reps, table, groups, values, i);
      assert ChildValued(nodes, values, i, a);
    }
  }

  class CompactGraph {
    var nodes: seq<Node>
    var table: map<Compact, nat>
    var groups: map<int, seq<nat>>
    // The position that each node was made for.
    ghost var reps: seq<Position>

    ghost predicate Valid()
      reads this
    {
      Fine(nodes, reps, table, groups)
    }

    constructor ()
      ensures Valid() && nodes == []
    {
      nodes, table, groups, reps := [], map[], map[], [];
    }

    // The node of p's encoding. A node is made only for an encoding not met before; its subtree is
    // complete when this returns.
    method BuildNode(p: Position) returns (index: nat)
      requires Valid() && Reachable(p) && p.active < |p.hands|
      modifies this
      ensures Valid() && Extends(old(nodes), old(reps), nodes, reps)
      ensures index < |nodes| && nodes[index].state == Encode(p)
      ensures Grown(nodes, reps, |old(nodes)|, index)
      ensures old(nodes) == [] ==> index == 0 && reps[0] == p
      decreases Worth(p), 1
    {
      ReachableWorth(p);
      var state := Encode(p);
      if state in table {
        return table[state];
      }
      index := AppendNode(p);
      for a := 0 to ActionCount(p)
        invariant Valid() && index == |old(nodes)| < |nodes| && reps[index] == p
        invariant |nodes[index].edges| == a && nodes[index].state == state
        invariant Extends(old(nodes), old(reps), nodes, reps)
        invariant forall i: nat :: index < i < |nodes| ==> AllEdges(nodes, reps, i) && HasParent(nodes, i)
      {
        BuildBranch(p, index, a);
      }
      assert AllEdges(nodes, reps, index);
    }

    // A node for an encoding not met before, with no edges yet.
    method AppendNode(p: Position) returns (index: nat)
      requires Valid() && Reachable(p) && p.active < |p.hands| && Encode(p) !in table
      modifies this
      ensures Valid() && Extends(old(nodes), old(reps), nodes, reps)
      ensures index == |old(nodes)| && |nodes| == index + 1 && nodes[index] == NewNode(p) && reps[index] == p
    {
      index := |nodes|;
      AppendedFine(nodes, reps, table, groups, p);
      table, groups := table[Encode(p) := index], GroupsWith(groups, NewNode(p), index);
      nodes, reps := nodes + [NewNode(p)], reps + [p];
    }

    // The subtree under action a, and the edge to it.
    method BuildBranch(p: Position, index: nat, a: nat)
      requires Valid() && Reachable(p) && p.active < |p.hands| && a < ActionCount(p)
      requires index < |nodes| && reps[index] == p && |nodes[index].edges| == a
      requires forall i: nat :: index < i < |nodes| ==> AllEdges(nodes, reps, i) && HasParent(nodes, i)
      modifies this
      ensures Valid() && Extends(old(nodes)[..index], old(reps)[..index], nodes, reps)
      ensures index < |nodes| && reps[index] == p && |nodes[index].edges| == a + 1 && nodes[index].state == old(nodes)[index].state
      ensures forall i: nat :: index < i < |nodes| ==> AllEdges(nodes, reps, i) && HasParent(nodes, i)
      decreases Worth(p), 0
    {
      ReachableWorth(p);
      ChildReachable(p, a);
      ghost var ns, rs := nodes, reps;
      var action := ActionAt(p, a);
      var child := BuildNode(ChildOf(p, a));
      var e := Edge(child, if action.Deal? then CardProbability(action.card) else 1.0, action);
      forall i: nat | index < i < |ns| ensures AllEdges(nodes, reps, i) && HasParent(nodes, i) {
        assert AllEdges(ns, rs, i);
        ParentKept(ns, nodes, i);
      }
      GrownMore(nodes, reps, index, child, |ns|, e);
      EdgeAdded(nodes, reps, table, groups, index, e);
      nodes := WithEdge(nodes, index, e);
    }

    ghost predicate Whole()
      reads this
    {
      Complete(nodes, reps, table, groups)
    }

    // The graph of the whole game.
    method BuildGame() returns (root: nat)
      requires Valid() && nodes == []
      modifies this
      ensures Whole() && root == 0
    {
      assert After([]) == Ok(INITIAL);
      root := BuildNode(INITIAL);
    }

    // Kahn's algorithm always succeeds here, and its order serves every pass, whatever its weights.
    method Order() returns (order: seq<nat>)
      requires Whole()
      ensures forall w: (Node, nat) -> real :: Dag.IsTopological(GraphOf(nodes, w), order)
    {
      GraphIsOk(nodes, reps, PlainWeight);
      GraphIsRanked(nodes, reps, PlainWeight);
      RootIsOnlySource(nodes, reps, table, groups, PlainWeight);
      var ok;
      ok, order := Dag.TopologicalOrder(GraphOf(nodes, PlainWeight), 0);
      forall w: (Node, nat) -> real ensures Dag.IsTopological(GraphOf(nodes, w), order) {
        SameShape(nodes, PlainWeight, w, order);
      }
    }

    // Pushes chance reach along the order: the counterfactual reach of every node.
    method CounterfactualReach(order: seq<nat>) returns (reach: array<real>)
      requires Whole() && Dag.IsTopological(GraphOf(nodes, PlainWeight), order)
      ensures fresh(reach) && Dag.ReachSolved(GraphOf(nodes, PlainWeight), order, 0, reach[..])
    {
      GraphIsOk(nodes, reps, PlainWeight);
      reach := Dag.ReachPass(GraphOf(nodes, PlainWeight), order, 0);
    }

    // Pushes the player's own reach along the order.
    method OwnReach(order: seq<nat>, policy: Policy) returns (reach: array<real>)
      requires Whole() && Dag.IsTopological(GraphOf(nodes, OwnWeight(policy)), order)
      ensures fresh(reach) && Dag.ReachSolved(GraphOf(nodes, OwnWeight(policy)), order, 0, reach[..])
    {
      GraphIsOk(nodes, reps, OwnWeight(policy));
      reach := Dag.ReachPass(GraphOf(nodes, OwnWeight(policy)), order, 0);
    }

    // The expected utility of node i under the policy, which is that of every raw position it
    // stands for.
    method NodeValue(i: nat, policy: Policy, values: array<Option<real>>) returns (value: real)
      requires NodesFine(nodes, reps) && Grown(nodes, reps, 0, 0) && i < |nodes| && ValuesRight(nodes, reps, values[..], policy)
      modifies values
      ensures ValuesRight(nodes, reps, values[..], policy) && MoreValued(old(values[..]), values[..])
      ensures values[i] == Some(value) && value == ValueAt(reps[i], policy)
      decreases if i < |reps| && reps[i].active < |reps[i].hands| then Worth(reps[i]) else 0, 2
    {
      assert ValueFine(reps, values[..], policy, i);
      if values[i].Some? {
        return values[i].value;
      }
      assert NodeFine(nodes, reps, i) && AllEdges(nodes, reps, i);
      ValueSplits(reps[i], policy);
      if nodes[i].kind == TerminalNode {
        value := nodes[i].utility;
      } else {
        value := SumOfEdges(i, policy, values);
      }
      ValueKept(nodes, reps, values[..], policy, i, value);
      values[i] := Some(value);
    }

    method SumOfEdges(i: nat, policy: Policy, values: array<Option<real>>) returns (value: real)
      requires NodesFine(nodes, reps) && Grown(nodes, reps, 0, 0) && i < |nodes| && ValuesRight(nodes, reps, values[..], policy)
      requires Reachable(reps[i]) && reps[i].active < |reps[i].hands| && |nodes[i].edges| == ActionCount(reps[i])
      modifies values
      ensures ValuesRight(nodes, reps, values[..], policy) && MoreValued(old(values[..]), values[..])
      ensures value == FoldOver(reps[i], Playing(policy), Payment(), ActionCount(reps[i]))
      ensures ChildrenValued(nodes, values[..], i, |nodes[i].edges|)
      decreases if i < |reps| && reps[i].active < |reps[i].hands| then Worth(reps[i]) else 0, 1
    {
      value := 0.0;
      for a := 0 to |nodes[i].edges|
        invariant ValuesRight(nodes, reps, values[..], policy) && MoreValued(old(values[..]), values[..])
        invariant value == FoldOver(reps[i], Playing(policy), Payment(), a)
        invariant ChildrenValued(nodes, values[..], i, a)
      {
        value := AddEdge(i, a, policy, values, value);
      }
    }

    // One edge more of a node's value.
    method AddEdge(i: nat, a: nat, policy: Policy, values: array<Option<real>>, before: real) returns (value: real)
      requires NodesFine(nodes, reps) && Grown(nodes, reps, 0, 0) && i < |nodes| && a < |nodes[i].edges|
      requires ValuesRight(nodes, reps, values[..], policy) && ChildrenValued(nodes, values[..], i, a)
      requires Reachable(reps[i]) && reps[i].active < |reps[i].hands| && |nodes[i].edges| == ActionCount(reps[i])
      requires before == FoldOver(reps[i], Playing(policy), Payment(), a)
      modifies values
      ensures ValuesRight(nodes, reps, values[..], policy) && MoreValued(old(values[..]), values[..])
      ensures value == FoldOver(reps[i], Playing(policy), Payment(), a + 1) && ChildrenValued(nodes, values[..], i, a + 1)
      decreases if i < |reps| && reps[i].active < |reps[i].hands| then Worth(reps[i]) else 0, 0, 1
    {
      ghost var old_values := values[..];
      var share := EdgeShare(i, a, policy, values);
      OneMoreValued(nodes, old_values, values[..], i, a);
      value := before + share;
    }

    // One edge's weight times the value it leads to.
    method EdgeShare(i: nat, a: nat, policy: Policy, values: array<Option<real>>) returns (share: real)
      requires NodesFine(nodes, reps) && Grown(nodes, reps, 0, 0) && i < |nodes| && a < |nodes[i].edges|
      requires ValuesRight(nodes, reps, values[..], policy)
      modifies values
      ensures ValuesRight(nodes, reps, values[..], policy) && MoreValued(old(values[..]), values[..])
      ensures ChildValued(nodes, values[..], i, a)
      ensures Reachable(reps[i]) && reps[i].active < |reps[i].hands| && a < ActionCount(reps[i])
      ensures FoldOver(reps[i], Playing(policy), Payment(), a + 1) == FoldOver(reps[i], Playing(policy), Payment(), a) + share
      decreases if i < |reps| && reps[i].active < |reps[i].hands| then Worth(reps[i]) else 0, 0, 0
    {
      EdgeSame(nodes, reps, i, a);
      var x := NodeValue(nodes[i].edges[a].child, policy, values);
      ValueOfEdge(nodes, reps, i, a, policy, x);
      share := Times(PlayWeight(policy)(nodes[i], a), x);
    }

    // Regret and average-strategy increments of one information set, accumulated node by node over
    // its group. They are exactly those of a traversal of the whole uncompacted game.
    method Deltas(key: int, count: nat, policy: Policy, order: seq<nat>, reach: array<real>, own: array<real>,
                  values: array<Option<real>>, multiplier: real)
      returns (regrets: array<real>, strategies: array<real>)
      requires Whole() && ValuesRight(nodes, reps, values[..], policy) && forall i: nat :: i < |nodes| ==> values[i].Some?
      requires PassesDone(nodes, policy, order, reach[..], own[..])
      requires forall i: nat :: i < |nodes| && nodes[i].kind == PlayerNode && nodes[i].key == key ==> |nodes[i].edges| == count
      ensures regrets.Length == strategies.Length == count
      ensures forall a: nat :: a < count ==> regrets[a] == RawRegret(policy, key, a)
      ensures forall a: nat :: a < count ==> strategies[a] == Times(multiplier, RawStrategy(policy, key, a))
    {
      regrets := new real[count](_ => 0.0);
      strategies := new real[count](_ => 0.0);
      var group := GroupOf(groups, key);
      assert GroupFine(nodes, groups, key);
      for q := 0 to |group|
        invariant forall a: nat :: a < count ==>
          Accumulated(reps, policy, key, a, reach[..], own[..], group, q, multiplier, regrets[a], strategies[a])
      {
        assert group[q] in group;
        AddNode(key, count, policy, reach, own, values, multiplier, group, q, regrets, strategies);
      }
      AccumulatedIsRaw(nodes, reps, table, groups, policy, key, order, reach[..], own[..], multiplier, regrets[..], strategies[..]);
    }

    // One node of the group adds its share to every action.
    method AddNode(key: int, count: nat, policy: Policy, reach: array<real>, own: array<real>, values: array<Option<real>>,
                   multiplier: real, group: seq<nat>, q: nat, regrets: array<real>, strategies: array<real>)
      requires NodesFine(nodes, reps) && ValuesRight(nodes, reps, values[..], policy) && forall i: nat :: i < |nodes| ==> values[i].Some?
      requires reach.Length == own.Length == |nodes| && regrets.Length == strategies.Length == count
      requires regrets != strategies && regrets != reach && regrets != own && strategies != reach && strategies != own
      requires q < |group| && group[q] < |nodes| && nodes[group[q]].kind == PlayerNode && nodes[group[q]].key == key
      requires |nodes[group[q]].edges| == count
      requires forall a: nat :: a < count ==>
        Accumulated(reps, policy, key, a, reach[..], own[..], group, q, multiplier, regrets[a], strategies[a])
      modifies regrets, strategies
      ensures forall a: nat :: a < count ==>
        Accumulated(reps, policy, key, a, reach[..], own[..], group, q + 1, multiplier, regrets[a], strategies[a])
    {
      for a := 0 to count
        invariant forall b: nat :: b < count ==>
          Accumulated(reps, policy, key, b, reach[..], own[..], group, if b < a then q + 1 else q, multiplier, regrets[b], strategies[b])
      {
        var regret, strategy := AddAction(a, key, policy, reach, own, values, multiplier, group, q, regrets[a], strategies[a]);
        regrets[a], strategies[a] := regret, strategy;
      }
    }

    method AddAction(a: nat, key: int, policy: Policy, reach: array<real>, own: array<real>, values: array<Option<real>>,
                     multiplier: real, group: seq<nat>, q: nat, regret: real, strategy: real)
      returns (regret': real, strategy': real)
      requires NodesFine(nodes, reps) && ValuesRight(nodes, reps, values[..], policy) && forall i: nat :: i < |nodes| ==> values[i].Some?
      requires reach.Length == own.Length == |nodes|
      requires q < |group| && group[q] < |nodes| && nodes[group[q]].kind == PlayerNode && nodes[group[q]].key == key
      requires a < |nodes[group[q]].edges|
      requires Accumulated(reps, policy, key, a, reach[..], own[..], group, q, multiplier, regret, strategy)
      ensures Accumulated(reps, policy, key, a, reach[..], own[..], group, q + 1, multiplier, regret', strategy')
    {
      var i := group[q];
      var gain := ActionGain(i, a, key, policy, values);
      regret' := regret + Times(reach[i], gain);
      strategy' := strategy + Times(Times(own[i], policy(key, a)), multiplier);
      AccumulatedStep(nodes, reps, policy, key, a, reach[..], own[..], group, q, multiplier, regret, strategy, gain, regret', strategy');
    }

    // How much better action a is than the policy at a player node.
    method ActionGain(i: nat, a: nat, ghost key: int, policy: Policy, values: array<Option<real>>) returns (gain: real)
      requires NodesFine(nodes, reps) && ValuesRight(nodes, reps, values[..], policy) && forall j: nat :: j < |nodes| ==> values[j].Some?
      requires i < |nodes| && nodes[i].kind == PlayerNode && nodes[i].key == key && a < |nodes[i].edges|
      ensures gain == RegretMeasure(policy, key, a)(reps[i])
    {
      EdgeSame(nodes, reps, i, a);
      var c := nodes[i].edges[a].child;
      assert ValueFine(reps, values[..], policy, c) && ValueFine(reps, values[..], policy, i);
      var child, here := values[c].value, values[i].value;
      RegretHere(nodes, reps, policy, key, a, i, child, here);
      gain := child - here;
    }

    // The value of the whole game under a policy.
    method ProfileValue(policy: Policy) returns (value: real)
      requires Whole()
      ensures Reachable(INITIAL) && value == Value(INITIAL, policy)
    {
      assert After([]) == Ok(INITIAL);
      var values := new Option<real>[|nodes|](_ => None);
      value := NodeValue(0, policy, values);
    }

    // Reach in both senses and the value of every node, before a training iteration.
    method PrepareIteration(policy: Policy, order: seq<nat>) returns (reach: array<real>, own: array<real>, values: array<Option<real>>)
      requires Whole() && forall w: (Node, nat) -> real :: Dag.IsTopological(GraphOf(nodes, w), order)
      ensures PassesDone(nodes, policy, order, reach[..], own[..])
      ensures ValuesRight(nodes, reps, values[..], policy) && forall i: nat :: i < |nodes| ==> values[i].Some?
    {
      assert Dag.IsTopological(GraphOf(nodes, PlainWeight), order);
      assert Dag.IsTopological(GraphOf(nodes, OwnWeight(policy)), order);
      reach := CounterfactualReach(order);
      own := OwnReach(order, policy);
      values := new Option<real>[|nodes|](_ => None);
      var root := NodeValue(0, policy, values);
      forall i: nat | i < |nodes| ensures values[i].Some? {
        AllValued(nodes, reps, table, groups, values[..], i);
      }
    }

    // All nodes of one information set offer the same number of actions.
    lemma GroupWidth(key: int, i: nat, j: nat)
      requires Whole() && i < |nodes| && j < |nodes|
      requires nodes[i].kind == PlayerNode && nodes[i].key == key && nodes[j].kind == PlayerNode && nodes[j].key == key
      ensures |nodes[i].edges| == |nodes[j].edges|
    {
      assert NodeFine(nodes, reps, i) && NodeFine(nodes, reps, j) && AllEdges(nodes, reps, i) && AllEdges(nodes, reps, j);
      ReachableOk(reps[i]);
      ReachableOk(reps[j]);
      KeyDecodes(reps[i], reps[j]);
    }

    // One training iteration on the compacted game: for every information set asked for, the
    // increments that a traversal of the whole raw game would have made. The multiplier is the
    // iteration number for CFR+ and one otherwise.
    method CompactIteration(policy: Policy, multiplier: real, keys: seq<int>)
      returns (regrets: map<int, seq<real>>, strategies: map<int, seq<real>>)
      requires Whole()
      ensures forall k :: k in keys ==> KeyDone(nodes, policy, k, multiplier, regrets, strategies)
    {
      var order := Order();
      var reach, own, values := PrepareIteration(policy, order);
      regrets, strategies := DeltasOfKeys(keys, policy, order, reach, own, values, multiplier);
    }

    method DeltasOfKeys(keys: seq<int>, policy: Policy, order: seq<nat>, reach: array<real>, own: array<real>,
                        values: array<Option<real>>, multiplier: real)
      returns (regrets: map<int, seq<real>>, strategies: map<int, seq<real>>)
      requires Whole() && ValuesRight(nodes, reps, values[..], policy) && forall i: nat :: i < |nodes| ==> values[i].Some?
      requires PassesDone(nodes, policy, order, reach[..], own[..])
      ensures forall k :: k in keys ==> KeyDone(nodes, policy, k, multiplier, regrets, strategies)
    {
      regrets, strategies := map[], map[];
      for q := 0 to |keys|
        invariant forall k :: k in keys[..q] ==> KeyDone(nodes, policy, k, multiplier, regrets, strategies)
      {
        var key := keys[q];
        var count := CountOf(key);
        var r, s := Deltas(key, count, policy, order, reach, own, values, multiplier);
        ghost var before, before' := regrets, strategies;
        regrets, strategies := regrets[key := r[..]], strategies[key := s[..]];
        forall k | k in keys[..q + 1] ensures KeyDone(nodes, policy, k, multiplier, regrets, strategies) {
          if k != key {
            assert k in keys[..q] && KeyDone(nodes, policy, k, multiplier, before, before');
          }
        }
      }
    }

    // The number of actions at the information set of key.
    method CountOf(key: int) returns (count: nat)
      requires Whole()
      ensures forall i: nat :: i < |nodes| && nodes[i].kind == PlayerNode && nodes[i].key == key ==> |nodes[i].edges| == count
    {
      var group := GroupOf(groups, key);
      assert GroupFine(nodes, groups, key);
      count := if group == [] then 0 else |nodes[group[0]].edges|;
      forall i: nat | i < |nodes| && nodes[i].kind == PlayerNode && nodes[i].key == key ensures |nodes[i].edges| == count {
        assert i in group && group[0] in group;
        GroupWidth(key, i, group[0]);
      }
    }
  }

  // The increments of one information set are those of the raw traversal.
  ghost predicate KeyDone(nodes: seq<Node>, policy: Policy, key: int, multiplier: real, regrets: map<int, seq<real>>, strategies: map<int, seq<real>>) {
    && key in regrets && key in strategies && |regrets[key]| == |strategies[key]|
    && (forall i: nat :: i < |nodes| && nodes[i].kind == PlayerNode && nodes[i].key == key ==> |regrets[key]| == |nodes[i].edges|)
    && forall a: nat :: a < |regrets[key]| ==>
      regrets[key][a] == RawRegret(policy, key, a) && strategies[key][a] == Times(multiplier, RawStrategy(policy, key, a))
  }
}
