// What building the evaluator's snapshot checks, and how information sets are indexed as it goes.
module Construction {
  import opened Sums
  import opened BestResponse
  import opened GameTree
  import opened Solver
  import Layout
  import RegretMatching

  datatype Status = Success | InvalidArgument | BufferTooSmall | NumericError | NotFound

  // The tolerances of the source, as exact reals.
  const ABS_EPSILON: real := 0.000000000001
  const REL_EPSILON: real := 0.00000001
  // The placeholder of an edge whose child has not been built.
  const EMPTY: nat := 0xFFFF_FFFF_FFFF_FFFF

  function Abs(x: real): real {
    if x < 0.0 then -x else x
  }

  predicate IsZeroSum(u0: real, u1: real) {
    var difference := Abs(u0 + u1);
    var scale := if Abs(u0) > Abs(u1) then Abs(u0) else Abs(u1);
    difference <= ABS_EPSILON || difference <= scale * REL_EPSILON
  }

  predicate SumIsOne(sum: real) {
    var difference := Abs(sum - 1.0);
    difference <= ABS_EPSILON || difference <= (if sum > 1.0 then sum else 1.0) * REL_EPSILON
  }

  function Probabilities(bs: seq<Branch>): nat -> real {
    (a: nat) => if a < |bs| then bs[a].probability else 0.0
  }

  predicate InRange(bs: seq<Branch>) {
    forall a: nat :: a < |bs| ==> 0.0 <= bs[a].probability <= 1.0
  }

  predicate SameActionList(bs: seq<Branch>, cs: seq<Branch>) {
    |bs| == |cs| && forall a: nat :: a < |bs| ==> bs[a].action == cs[a].action
  }

  // Two decisions of one information set that do not look alike.
  predicate Differ(t: Tree, u: Tree) {
    t.Turn? && u.Turn? && t.key == u.key && (t.player != u.player || !SameActionList(t.branches, u.branches))
  }

  ghost predicate Clash(prev: seq<Visit>, t: Tree) {
    exists i: nat :: i < |prev| && Differ(prev[i].tree, t)
  }

  function CheckCount(max: nat, n: nat): Status {
    if n == 0 then InvalidArgument else if n > max then BufferTooSmall else Success
  }

  function CheckPolicy(store: Store, uniform: bool, key: Key, n: nat): Status {
    if key !in store then
      (if uniform then Success else NotFound)
    else if |store[key]| != n then
      InvalidArgument
    else if RegretMatching.AllNonNegative(store[key]) then
      Success
    else
      NumericError
  }

  // What is wrong with one position, regardless of the others.
  function CheckAlone(store: Store, uniform: bool, max: nat, t: Tree): Status {
    match t
    case Leaf(u0, u1) => if IsZeroSum(u0, u1) then Success else InvalidArgument
    case Nature(bs) =>
      if CheckCount(max, |bs|) != Success then CheckCount(max, |bs|)
      else if InRange(bs) && SumIsOne(Sum(Probabilities(bs), 0, |bs|)) then Success
      else InvalidArgument
    case Turn(_, key, bs) =>
      if CheckCount(max, |bs|) != Success then CheckCount(max, |bs|) else CheckPolicy(store, uniform, key, |bs|)
  }

  ghost function Check(store: Store, uniform: bool, max: nat, prev: seq<Visit>, t: Tree): Status {
    if CheckAlone(store, uniform, max, t) != Success then CheckAlone(store, uniform, max, t)
    else if Clash(prev, t) then InvalidArgument
    else Success
  }

  // The error of the first position of vs, in order, that does not pass; prev came before.
  ghost function FirstFailure(store: Store, uniform: bool, max: nat, prev: seq<Visit>, vs: seq<Visit>): Status
    decreases |vs|
  {
    if vs == [] then
      Success
    else if Check(store, uniform, max, prev, vs[0].tree) != Success then
      Check(store, uniform, max, prev, vs[0].tree)
    else
      FirstFailure(store, uniform, max, prev + [vs[0]], vs[1..])
  }

  lemma {:induction false} FailureOfSum(store: Store, uniform: bool, max: nat, prev: seq<Visit>, vs: seq<Visit>, ws: seq<Visit>)
    ensures var c := FirstFailure(store, uniform, max, prev, vs);
      FirstFailure(store, uniform, max, prev, vs + ws)
      == if c != Success then c else FirstFailure(store, uniform, max, prev + vs, ws)
    decreases |vs|
  {
    if vs == [] {
      assert vs + ws == ws && prev + vs == prev;
    } else {
      assert (vs + ws)[0] == vs[0] && (vs + ws)[1..] == vs[1..] + ws;
      assert prev + [vs[0]] + vs[1..] == prev + vs;
      FailureOfSum(store, uniform, max, prev + [vs[0]], vs[1..], ws);
    }
  }

  // A failure under an early branch is the failure of the whole.
  lemma {:induction false} FailsUnder(store: Store, uniform: bool, max: nat, prev: seq<Visit>, v: Visit, a: nat, n: nat)
    requires a <= n <= |Branches(v.tree)|
    requires FirstFailure(store, uniform, max, prev, VisitsBefore(store, v, a)) != Success
    ensures FirstFailure(store, uniform, max, prev, VisitsBefore(store, v, n))
         == FirstFailure(store, uniform, max, prev, VisitsBefore(store, v, a))
    decreases n
  {
    if a < n {
      FailsUnder(store, uniform, max, prev, v, a, n - 1);
      FailureOfSum(store, uniform, max, prev, VisitsBefore(store, v, n - 1), Visits(store, Child(store, v, n - 1)));
    }
  }

  // All decisions of one information set look alike.
  ghost predicate Agree(vs: seq<Visit>) {
    forall i: nat, j: nat :: i < |vs| && j < |vs| ==> !Differ(vs[i].tree, vs[j].tree)
  }

  ghost predicate AllPass(store: Store, uniform: bool, max: nat, vs: seq<Visit>) {
    forall i: nat :: i < |vs| ==> CheckAlone(store, uniform, max, vs[i].tree) == Success
  }

  lemma DifferIsSymmetric(t: Tree, u: Tree)
    ensures Differ(t, u) == Differ(u, t)
  {
  }

  lemma AgreeOneMore(vs: seq<Visit>, v: Visit)
    requires Agree(vs)
    ensures Agree(vs + [v]) <==> !Clash(vs, v.tree)
  {
    var ws := vs + [v];
    if Clash(vs, v.tree) {
      var i: nat :| i < |vs| && Differ(vs[i].tree, v.tree);
      assert Differ(ws[i].tree, ws[|vs|].tree);
    } else {
      forall i: nat, j: nat | i < |ws| && j < |ws| ensures !Differ(ws[i].tree, ws[j].tree) {
        DifferIsSymmetric(ws[i].tree, ws[j].tree);
      }
    }
  }

  lemma AgreeOfPrefix(vs: seq<Visit>, ws: seq<Visit>)
    requires Agree(vs + ws)
    ensures Agree(vs)
  {
    forall i: nat, j: nat | i < |vs| && j < |vs| ensures !Differ(vs[i].tree, vs[j].tree) {
      assert vs[i] == (vs + ws)[i] && vs[j] == (vs + ws)[j];
    }
  }

  // Nothing fails exactly when every position passes and the information sets are consistent,
  // in whatever order they come.
  lemma {:induction false} SucceedsIff(store: Store, uniform: bool, max: nat, prev: seq<Visit>, vs: seq<Visit>)
    requires Agree(prev)
    ensures FirstFailure(store, uniform, max, prev, vs) == Success
       <==> AllPass(store, uniform, max, vs) && Agree(prev + vs)
    decreases |vs|
  {
    if vs == [] {
      assert prev + vs == prev;
    } else {
      var now := prev + [vs[0]];
      assert now + vs[1..] == prev + vs;
      AgreeOneMore(prev, vs[0]);
      if Check(store, uniform, max, prev, vs[0].tree) == Success {
        SucceedsIff(store, uniform, max, now, vs[1..]);
        assert AllPass(store, uniform, max, vs) <==> AllPass(store, uniform, max, vs[1..]) by {
          assert forall i: nat :: 0 < i < |vs| ==> vs[i] == vs[1..][i - 1];
        }
      } else if Agree(prev + vs) {
        AgreeOfPrefix(now, vs[1..]);
      }
    }
  }

  // ---- Indexing one more node ----

  function WithNode(s: Snapshot, n: Node, next: Option<nat>, groups: seq<Group>, table: map<Key, nat>): Snapshot {
    Snapshot(Flat(s.flat.nodes + [n], s.flat.edges), s.next + [next], groups, table)
  }

  lemma PrecedesKept(s: Snapshot, s': Snapshot, g: nat, link: Option<nat>, bound: nat)
    requires g < |s.groups| && g < |s'.groups| && s'.groups[g].(first := s.groups[g].first) == s.groups[g]
    requires bound <= |s.flat.nodes| < |s'.flat.nodes|
    requires forall j: nat :: j < |s.flat.nodes| ==> s'.flat.nodes[j] == s.flat.nodes[j]
    requires Precedes(s, g, link, bound)
    ensures Precedes(s', g, link, bound)
  {
    forall j: nat | j < |s.flat.nodes| ensures InGroup(s', g, j) == InGroup(s, g, j) {
    }
  }

  // Nodes and groups other than the new ones keep their places.
  lemma OthersIndexed(s: Snapshot, s': Snapshot, i: nat)
    requires Indexed(s) && |s'.next| == |s'.flat.nodes| && i < |s.flat.nodes| < |s'.flat.nodes|
    requires forall j: nat :: j < |s.flat.nodes| ==> s'.flat.nodes[j] == s.flat.nodes[j] && s'.next[j] == s.next[j]
    requires |s.groups| <= |s'.groups|
    requires forall g: nat :: g < |s.groups| ==> s'.groups[g].(first := s.groups[g].first) == s.groups[g]
    requires forall k :: k in s.table ==> k in s'.table && s'.table[k] == s.table[k]
    ensures NodeOk(s', i)
  {
    assert NodeOk(s, i);
    if s.flat.nodes[i].kind.Decision? {
      PrecedesKept(s, s', s.table[s.flat.nodes[i].kind.key], s.next[i], i);
    }
  }

  lemma GroupIndexed(s: Snapshot, s': Snapshot, g: nat)
    requires Indexed(s) && |s'.flat.nodes| == |s.flat.nodes| + 1 && g < |s.groups| <= |s'.groups|
    requires forall j: nat :: j < |s.flat.nodes| ==> s'.flat.nodes[j] == s.flat.nodes[j]
    requires s'.groups[g] == s.groups[g]
    requires forall k :: k in s.table ==> k in s'.table && s'.table[k] == s.table[k]
    requires !InGroup(s', g, |s.flat.nodes|)
    ensures GroupOk(s', g)
  {
    assert GroupOk(s, g);
    PrecedesKept(s, s', g, Some(s.groups[g].first), |s.flat.nodes|);
  }

  // A terminal or chance node belongs to no information set.
  lemma IndexedOther(s: Snapshot, n: Node)
    requires Indexed(s) && !n.kind.Decision?
    ensures Indexed(WithNode(s, n, None, s.groups, s.table))
  {
    var s' := WithNode(s, n, None, s.groups, s.table);
    forall i: nat | i < |s'.flat.nodes| ensures NodeOk(s', i) {
      if i < |s.flat.nodes| {
        OthersIndexed(s, s', i);
      }
    }
    forall g: nat | g < |s'.groups| ensures GroupOk(s', g) {
      GroupIndexed(s, s', g);
    }
  }

  // A further member is pushed to the front of its chain.
  lemma IndexedMember(s: Snapshot, n: Node, g: nat)
    requires Indexed(s) && g < |s.groups| && n.kind == Decision(s.groups[g].player, s.groups[g].key)
    requires n.count == s.groups[g].count
    ensures Indexed(WithNode(s, n, Some(s.groups[g].first), s.groups[g := s.groups[g].(first := |s.flat.nodes|)], s.table))
  {
    var s' := WithNode(s, n, Some(s.groups[g].first), s.groups[g := s.groups[g].(first := |s.flat.nodes|)], s.table);
    assert GroupOk(s, g);
    forall i: nat | i < |s'.flat.nodes| ensures NodeOk(s', i) {
      if i < |s.flat.nodes| {
        OthersIndexed(s, s', i);
      } else {
        PrecedesKept(s, s', g, Some(s.groups[g].first), i);
      }
    }
    forall k: nat | k < |s'.groups| ensures GroupOk(s', k) {
      if k != g {
        assert GroupOk(s, k);
        GroupIndexed(s, s', k);
      }
    }
  }

  // The first member founds its group.
  lemma IndexedFounder(s: Snapshot, n: Node, player: Player, key: Key)
    requires Indexed(s) && n.kind == Decision(player, key) && key !in s.table
    ensures Indexed(WithNode(s, n, None, s.groups + [Group(key, player, |s.flat.nodes|, n.count)], s.table[key := |s.groups|]))
  {
    var s' := WithNode(s, n, None, s.groups + [Group(key, player, |s.flat.nodes|, n.count)], s.table[key := |s.groups|]);
    forall j: nat | j < |s.flat.nodes| ensures !InGroup(s', |s.groups|, j) {
      assert NodeOk(s, j);
    }
    forall i: nat | i < |s'.flat.nodes| ensures NodeOk(s', i) {
      if i < |s.flat.nodes| {
        OthersIndexed(s, s', i);
      }
    }
    forall g: nat | g < |s'.groups| ensures GroupOk(s', g) {
      if g < |s.groups| {
        assert GroupOk(s, g);
        GroupIndexed(s, s', g);
      }
    }
  }

  // ---- Edges of a node under construction ----

  // Only the first n children of the node have been built.
  function PartEdges(store: Store, t: Tree, i: nat, n: nat): (es: seq<Edge>)
    ensures |es| == |Branches(t)|
  {
    seq(|Branches(t)|, (a: nat) requires a < |Branches(t)| =>
      Edge(t.branches[a].action, Odds(store, t, a), if a < n then i + 1 + Before(t, a) else EMPTY))
  }

  lemma PartIsWhole(store: Store, t: Tree, i: nat)
    ensures PartEdges(store, t, i, |Branches(t)|) == OwnEdges(store, t, i)
  {
  }

  lemma FillEdge(store: Store, t: Tree, i: nat, a: nat, base: seq<Edge>, under: seq<Edge>)
    requires a < |Branches(t)|
    ensures var es := base + PartEdges(store, t, i, a) + under;
      es[|base| + a := es[|base| + a].(child := i + 1 + Before(t, a))] == base + PartEdges(store, t, i, a + 1) + under
  {
    var p := PartEdges(store, t, i, a);
    var e := p[a].(child := i + 1 + Before(t, a));
    assert p[a := e] == PartEdges(store, t, i, a + 1);
    assert (base + p + under)[|base| + a := e] == base + p[a := e] + under;
  }

  // ---- The invariant of the construction ----

  // The edges reserved for a decision carry its actions.
  ghost predicate ActionsKept(es: seq<Edge>, v: Visit) {
    v.tree.Turn? ==>
      && v.offset + |v.tree.branches| <= |es|
      && forall a: nat :: a < |v.tree.branches| ==> es[v.offset + a].action == v.tree.branches[a].action
  }

  // The information sets met so far without anything learned about them, and their action counts.
  ghost predicate Fresh(store: Store, unvisited: map<Key, nat>, t: Tree) {
    t.Turn? && t.key !in store ==> t.key in unvisited && unvisited[t.key] == |t.branches|
  }

  ghost predicate UnvisitedOk(store: Store, unvisited: map<Key, nat>, vs: seq<Visit>) {
    && (forall i: nat :: i < |vs| ==> Fresh(store, unvisited, vs[i].tree))
    && (forall k :: k in unvisited ==> exists i: nat :: i < |vs| && vs[i].tree.Turn? && vs[i].tree.key == k)
  }

  // A key in the table leads to the group of that key.
  ghost predicate TableOk(s: Snapshot) {
    forall k :: k in s.table ==> s.table[k] < |s.groups| && s.groups[s.table[k]].key == k
  }

  ghost predicate Growing(store: Store, s: Snapshot, unvisited: map<Key, nat>, vs: seq<Visit>) {
    && s.flat.nodes == Nodes(vs)
    && Indexed(s)
    && TableOk(s)
    && Agree(vs)
    && UnvisitedOk(store, unvisited, vs)
    && forall i: nat :: i < |vs| ==> ActionsKept(s.flat.edges, vs[i])
  }

  predicate SameActionAt(es: seq<Edge>, p: nat, q: nat, a: nat)
    requires p + a < |es| && q + a < |es|
  {
    es[p + a].action == es[q + a].action
  }

  lemma SameActionLists(es: seq<Edge>, v: Visit, w: Visit)
    requires v.tree.Turn? && w.tree.Turn? && ActionsKept(es, v) && ActionsKept(es, w)
    requires |v.tree.branches| == |w.tree.branches|
    ensures SameActionList(v.tree.branches, w.tree.branches)
       <==> forall a: nat :: a < |v.tree.branches| ==> SameActionAt(es, v.offset, w.offset, a)
  {
    var bs, cs := v.tree.branches, w.tree.branches;
    forall a: nat | a < |bs| ensures SameActionAt(es, v.offset, w.offset, a) <==> bs[a].action == cs[a].action {
      assert es[v.offset + a].action == bs[a].action && es[w.offset + a].action == cs[a].action;
    }
    if forall a: nat :: a < |bs| ==> SameActionAt(es, v.offset, w.offset, a) {
      forall a: nat | a < |bs| ensures bs[a].action == cs[a].action {
        assert SameActionAt(es, v.offset, w.offset, a);
      }
    }
  }

  // A new decision clashes with an earlier one exactly when it differs from the first of its chain.
  lemma ClashIsWithFirst(store: Store, s: Snapshot, unvisited: map<Key, nat>, vs: seq<Visit>, t: Tree)
    requires Growing(store, s, unvisited, vs) && t.Turn? && t.key in s.table && s.table[t.key] < |s.groups|
    requires s.groups[s.table[t.key]].key == t.key
    ensures s.groups[s.table[t.key]].first < |vs|
    ensures var first := vs[s.groups[s.table[t.key]].first].tree;
      && first.Turn? && first.key == t.key
      && (Clash(vs, t) <==> Differ(first, t))
  {
    var g := s.table[t.key];
    assert GroupOk(s, g);
    var f := s.groups[g].first;
    assert InGroup(s, g, f) && s.flat.nodes[f] == NodeOf(vs[f]);
    if i: nat :| i < |vs| && Differ(vs[i].tree, t) {
      assert !Differ(vs[i].tree, vs[f].tree);
    }
  }

  lemma NoClashWhenNew(store: Store, s: Snapshot, unvisited: map<Key, nat>, vs: seq<Visit>, t: Tree)
    requires Growing(store, s, unvisited, vs) && t.Turn? && t.key !in s.table
    ensures !Clash(vs, t)
  {
    forall i: nat | i < |vs| ensures !Differ(vs[i].tree, t) {
      assert NodeOk(s, i) && s.flat.nodes[i] == NodeOf(vs[i]);
    }
  }

  // A game position passes and extends the tree that has been built.
  lemma AddedOther(store: Store, s: Snapshot, unvisited: map<Key, nat>, vs: seq<Visit>, v: Visit)
    requires Growing(store, s, unvisited, vs) && !v.tree.Turn?
    ensures Growing(store, WithNode(s, NodeOf(v), None, s.groups, s.table), unvisited, vs + [v])
  {
    IndexedOther(s, NodeOf(v));
    AddedVisit(store, s, unvisited, unvisited, vs, v);
  }

  lemma AddedVisit(store: Store, s: Snapshot, unvisited: map<Key, nat>, unvisited': map<Key, nat>, vs: seq<Visit>, v: Visit)
    requires Growing(store, s, unvisited, vs) && !Clash(vs, v.tree) && ActionsKept(s.flat.edges, v)
    requires Prepared(store, unvisited', vs, v.tree)
    ensures s.flat.nodes + [NodeOf(v)] == Nodes(vs + [v])
    ensures Agree(vs + [v]) && UnvisitedOk(store, unvisited', vs + [v])
    ensures forall i: nat :: i < |vs + [v]| ==> ActionsKept(s.flat.edges, (vs + [v])[i])
  {
    AgreeOneMore(vs, v);
    var ws := vs + [v];
    forall k | k in unvisited' ensures exists i: nat :: i < |ws| && ws[i].tree.Turn? && ws[i].tree.key == k {
      if v.tree.Turn? && k == v.tree.key {
        assert ws[|vs|] == v;
      } else {
        var i: nat :| i < |vs| && vs[i].tree.Turn? && vs[i].tree.key == k;
        assert ws[i] == vs[i];
      }
    }
  }

  // The information set of t, if new and unlearned, has been given a uniform strategy.
  ghost predicate Prepared(store: Store, unvisited: map<Key, nat>, vs: seq<Visit>, t: Tree) {
    && (forall i: nat :: i < |vs| ==> Fresh(store, unvisited, vs[i].tree))
    && Fresh(store, unvisited, t)
    && forall k :: k in unvisited ==>
      || (t.Turn? && t.key == k)
      || exists i: nat :: i < |vs| && vs[i].tree.Turn? && vs[i].tree.key == k
  }

  lemma AddedMember(store: Store, s: Snapshot, unvisited: map<Key, nat>, unvisited': map<Key, nat>, vs: seq<Visit>, v: Visit, g: nat)
    requires Growing(store, s, unvisited, vs) && v.tree.Turn? && !Clash(vs, v.tree) && ActionsKept(s.flat.edges, v)
    requires Prepared(store, unvisited', vs, v.tree)
    requires g < |s.groups| && NodeOf(v).kind == Decision(s.groups[g].player, s.groups[g].key)
    requires NodeOf(v).count == s.groups[g].count
    ensures Growing(store,
      WithNode(s, NodeOf(v), Some(s.groups[g].first), s.groups[g := s.groups[g].(first := |s.flat.nodes|)], s.table),
      unvisited', vs + [v])
  {
    IndexedMember(s, NodeOf(v), g);
    AddedVisit(store, s, unvisited, unvisited', vs, v);
  }

  lemma AddedFounder(store: Store, s: Snapshot, unvisited: map<Key, nat>, unvisited': map<Key, nat>, vs: seq<Visit>, v: Visit)
    requires Growing(store, s, unvisited, vs) && v.tree.Turn? && v.tree.key !in s.table && ActionsKept(s.flat.edges, v)
    requires Prepared(store, unvisited', vs, v.tree)
    ensures Growing(store,
      WithNode(s, NodeOf(v), None, s.groups + [Group(v.tree.key, v.tree.player, |s.flat.nodes|, |v.tree.branches|)],
               s.table[v.tree.key := |s.groups|]),
      unvisited', vs + [v])
  {
    NoClashWhenNew(store, s, unvisited, vs, v.tree);
    IndexedFounder(s, NodeOf(v), v.tree.player, v.tree.key);
    AddedVisit(store, s, unvisited, unvisited', vs, v);
  }

  // Writing edges elsewhere, or only their child fields, keeps what has been built.
  lemma EdgesRewritten(store: Store, s: Snapshot, unvisited: map<Key, nat>, vs: seq<Visit>, es: seq<Edge>)
    requires Growing(store, s, unvisited, vs)
    requires |s.flat.edges| <= |es| && forall e: nat :: e < |s.flat.edges| ==> es[e].action == s.flat.edges[e].action
    ensures Growing(store, s.(flat := s.flat.(edges := es)), unvisited, vs)
  {
    var s' := s.(flat := s.flat.(edges := es));
    forall i: nat | i < |s.flat.nodes| ensures NodeOk(s', i) {
      assert NodeOk(s, i);
      OthersIndexedSame(s, s', i);
    }
    forall g: nat | g < |s.groups| ensures GroupOk(s', g) {
      assert GroupOk(s, g);
      SamePrecedes(s, s', g, Some(s.groups[g].first), |s.flat.nodes|);
    }
    forall i: nat | i < |vs| ensures ActionsKept(es, vs[i]) {
      assert ActionsKept(s.flat.edges, vs[i]);
    }
  }

  lemma SamePrecedes(s: Snapshot, s': Snapshot, g: nat, link: Option<nat>, bound: nat)
    requires s'.flat.nodes == s.flat.nodes && s'.groups == s.groups && g < |s.groups| && bound <= |s.flat.nodes|
    requires Precedes(s, g, link, bound)
    ensures Precedes(s', g, link, bound)
  {
    forall j: nat | j < |s.flat.nodes| ensures InGroup(s', g, j) == InGroup(s, g, j) {
    }
  }

  lemma OthersIndexedSame(s: Snapshot, s': Snapshot, i: nat)
    requires s'.flat.nodes == s.flat.nodes && s'.groups == s.groups && s'.table == s.table && s'.next == s.next
    requires i < |s.flat.nodes| == |s.next| && NodeOk(s, i)
    ensures NodeOk(s', i)
  {
    if s.flat.nodes[i].kind.Decision? {
      SamePrecedes(s, s', s.table[s.flat.nodes[i].kind.key], s.next[i], i);
    }
  }

  // ---- Probabilities stay probabilities ----

  lemma ProductNonNegative(x: real, y: real)
    requires 0.0 <= x && 0.0 <= y
    ensures 0.0 <= x * y
  {
  }

  lemma ProductInRange(x: real, y: real)
    requires 0.0 <= x <= 1.0 && 0.0 <= y <= 1.0
    ensures 0.0 <= x * y <= 1.0
  {
    ProductNonNegative(x, y);
    ProductNonNegative(1.0 - x, y);
    assert (1.0 - x) * y == y - x * y;
  }

  lemma ReachBelowInRange(t: Tree, r: Player, reach: real, p: real)
    requires 0.0 <= reach <= 1.0 && 0.0 <= p <= 1.0
    ensures 0.0 <= ReachBelow(t, r, reach, p) <= 1.0
  {
    ProductInRange(reach, p);
  }

  lemma EntryAtMostTotal(p: seq<real>, a: nat)
    requires a < |p| && RegretMatching.Distribution(p)
    ensures 0.0 <= p[a] <= 1.0
  {
    var only := (j: nat) => if j == a then p[a] else 0.0;
    SumOnly(only, a, 0, |p|);
    SumMono(only, RegretMatching.Nth(p), 0, |p|);
  }

  lemma OddsInRange(store: Store, uniform: bool, max: nat, t: Tree, a: nat)
    requires CheckAlone(store, uniform, max, t) == Success && a < |Branches(t)|
    ensures 0.0 <= Odds(store, t, a) <= 1.0
  {
    if t.Turn? {
      var n := |t.branches|;
      RegretMatching.MatchIsDistribution(if t.key in store && |store[t.key]| == n then store[t.key] else Zeros(n));
      EntryAtMostTotal(Policy(store, t.key, n), a);
    }
  }

  // The visit itself passes, and so the failure lies among the branches, if anywhere.
  lemma FailureBelow(store: Store, uniform: bool, max: nat, prev: seq<Visit>, v: Visit)
    requires Check(store, uniform, max, prev, v.tree) == Success
    ensures FirstFailure(store, uniform, max, prev, Visits(store, v))
         == FirstFailure(store, uniform, max, prev + [v], VisitsBefore(store, v, |Branches(v.tree)|))
  {
    assert Visits(store, v)[1..] == VisitsBefore(store, v, |Branches(v.tree)|);
  }

  lemma FailureHere(store: Store, uniform: bool, max: nat, prev: seq<Visit>, v: Visit)
    requires Check(store, uniform, max, prev, v.tree) != Success
    ensures FirstFailure(store, uniform, max, prev, Visits(store, v)) == Check(store, uniform, max, prev, v.tree)
  {
  }

  // One more branch has been built, or has failed.
  lemma BranchBuilt(store: Store, uniform: bool, max: nat, prev: seq<Visit>, v: Visit, a: nat, status: Status)
    requires a < |Branches(v.tree)|
    requires FirstFailure(store, uniform, max, prev, VisitsBefore(store, v, a)) == Success
    requires status == FirstFailure(store, uniform, max, prev + VisitsBefore(store, v, a), Visits(store, Child(store, v, a)))
    ensures FirstFailure(store, uniform, max, prev, VisitsBefore(store, v, a + 1)) == status
    ensures status != Success ==> FirstFailure(store, uniform, max, prev, VisitsBefore(store, v, |Branches(v.tree)|)) == status
  {
    FailureOfSum(store, uniform, max, prev, VisitsBefore(store, v, a), Visits(store, Child(store, v, a)));
    if status != Success {
      FailsUnder(store, uniform, max, prev, v, a + 1, |Branches(v.tree)|);
    }
  }

  lemma Regroup<T>(a: seq<T>, b: seq<T>, c: seq<T>)
    ensures a + b + c == a + (b + c)
  {
  }

  // Where the visit of the next branch stands, when the earlier ones are complete.
  lemma NextVisit(store: Store, t: Tree, a: nat, index: nat, v: Visit, base: seq<Edge>, es: seq<Edge>)
    requires v.tree == t && a < |Branches(t)| && v.offset == |base|
    requires es == base + PartEdges(store, t, index, a) + EdgesUnder(store, t, index, a)
    ensures |base| + a < |es| && es[|base| + a].probability == Odds(store, t, a)
    ensures Child(store, v, a).offset == |es|
  {
    assert es[|base| + a] == PartEdges(store, t, index, a)[a];
  }

  // The next branch has been appended to the earlier ones.
  lemma EdgesGrown(store: Store, t: Tree, a: nat, index: nat, child: nat, base: seq<Edge>, es: seq<Edge>, es': seq<Edge>)
    requires a < |Branches(t)| && child == index + 1 + Before(t, a)
    requires es == base + PartEdges(store, t, index, a) + EdgesUnder(store, t, index, a)
    requires es' == es + EdgesOf(store, t.branches[a].next, child)
    ensures es' == base + PartEdges(store, t, index, a) + EdgesUnder(store, t, index, a + 1)
  {
    Regroup(base + PartEdges(store, t, index, a), EdgesUnder(store, t, index, a), EdgesOf(store, t.branches[a].next, child));
  }

  lemma VisitsGrown(store: Store, v: Visit, a: nat, prev: seq<Visit>, vs: seq<Visit>, vs': seq<Visit>)
    requires a < |Branches(v.tree)|
    requires vs == prev + VisitsBefore(store, v, a) && vs' == vs + Visits(store, Child(store, v, a))
    ensures vs' == prev + VisitsBefore(store, v, a + 1)
  {
    Regroup(prev, VisitsBefore(store, v, a), Visits(store, Child(store, v, a)));
  }

  lemma AllGrown(store: Store, t: Tree, index: nat, v: Visit, prev: seq<Visit>, base: seq<Edge>)
    requires v.tree == t
    ensures prev + [v] + VisitsBefore(store, v, |Branches(t)|) == prev + Visits(store, v)
    ensures base + PartEdges(store, t, index, |Branches(t)|) + EdgesUnder(store, t, index, |Branches(t)|)
         == base + EdgesOf(store, t, index)
  {
    PartIsWhole(store, t, index);
    Regroup(prev, [v], VisitsBefore(store, v, |Branches(t)|));
    Regroup(base, OwnEdges(store, t, index), EdgesUnder(store, t, index, |Branches(t)|));
  }

  lemma PassedBranches(store: Store, uniform: bool, max: nat, vs: seq<Visit>)
    requires FirstFailure(store, uniform, max, [], vs) == Success
    ensures Layout.Branching(vs)
  {
    SucceedsIff(store, uniform, max, [], vs);
    forall i: nat | i < |vs| && !vs[i].tree.Leaf? ensures |Branches(vs[i].tree)| > 0 {
      assert CheckAlone(store, uniform, max, vs[i].tree) == Success;
    }
  }
}
