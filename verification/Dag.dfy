// Acyclic graphs with weighted edges: Kahn's topological order, the pass that pushes reach
// probabilities along it, and what those probabilities add up to over the unfolded tree.
module Dag {
  import opened Sums

  datatype Edge = Edge(child: nat, weight: real)
  type Graph = seq<seq<Edge>>

  ghost predicate GraphOk(g: Graph) {
    forall i: nat, a: nat :: i < |g| && a < |g[i]| ==> g[i][a].child < |g|
  }

  // ---- In-degrees ----

  function EdgesInto(es: seq<Edge>, c: nat): nat
    decreases |es|
  {
    if es == [] then 0 else EdgesInto(es[..|es| - 1], c) + if es[|es| - 1].child == c then 1 else 0
  }

  // The number of edges into c from the first n nodes that are not done.
  ghost function InDegree(g: Graph, done: set<nat>, c: nat, n: nat): nat
    requires n <= |g|
    decreases n
  {
    if n == 0 then 0 else InDegree(g, done, c, n - 1) + if (n - 1) in done then 0 else EdgesInto(g[n - 1], c)
  }

  lemma {:induction false} EdgesIntoHas(es: seq<Edge>, c: nat)
    ensures EdgesInto(es, c) > 0 <==> exists a: nat :: a < |es| && es[a].child == c
    decreases |es|
  {
    if es != [] {
      EdgesIntoHas(es[..|es| - 1], c);
      var front := es[..|es| - 1];
      if a: nat :| a < |front| && front[a].child == c {
        assert es[a].child == c;
      }
      if a: nat :| a < |es| && es[a].child == c {
        if a < |es| - 1 {
          assert front[a].child == c;
        }
      }
    }
  }

  lemma {:induction false} InDegreeHas(g: Graph, done: set<nat>, c: nat, n: nat)
    requires n <= |g|
    ensures InDegree(g, done, c, n) > 0 <==> exists i: nat :: i < n && i !in done && EdgesInto(g[i], c) > 0
    decreases n
  {
    if n > 0 {
      InDegreeHas(g, done, c, n - 1);
    }
  }

  // Marking one more node as done takes its edges out of the count.
  lemma {:induction false} InDegreeDone(g: Graph, done: set<nat>, i: nat, c: nat, n: nat)
    requires n <= |g| && i !in done
    ensures InDegree(g, done, c, n) == InDegree(g, done + {i}, c, n) + if i < n then EdgesInto(g[i], c) else 0
    decreases n
  {
    if n > 0 {
      InDegreeDone(g, done, i, c, n - 1);
    }
  }

  lemma EdgesIntoPrefix(es: seq<Edge>, c: nat, a: nat)
    requires a < |es|
    ensures EdgesInto(es[..a + 1], c) == EdgesInto(es[..a], c) + if es[a].child == c then 1 else 0
  {
    assert es[..a + 1][..a] == es[..a];
  }

  lemma {:induction false} EdgesIntoGrows(es: seq<Edge>, c: nat, a: nat, b: nat)
    requires a <= b <= |es|
    ensures EdgesInto(es[..a], c) <= EdgesInto(es[..b], c)
    decreases b
  {
    if a < b {
      EdgesIntoGrows(es, c, a, b - 1);
      EdgesIntoPrefix(es, c, b - 1);
    }
  }

  // ---- Kahn's algorithm ----

  ghost predicate Distinct(s: seq<nat>) {
    forall i: nat, j: nat :: i < j < |s| ==> s[i] != s[j]
  }

  // No edge of order[q] leads to a node at or before q.
  ghost predicate Forward(g: Graph, order: seq<nat>, q: nat) {
    q < |order| ==> order[q] < |g| && forall a: nat :: a < |g[order[q]]| ==> g[order[q]][a].child !in order[..q + 1]
  }

  ghost predicate IsTopological(g: Graph, order: seq<nat>) {
    && |order| == |g| && Distinct(order)
    && (forall q: nat :: q < |order| ==> order[q] < |g|)
    && forall q: nat :: q < |order| ==> Forward(g, order, q)
  }

  // rank strictly increases along every edge.
  ghost predicate Ranked(g: Graph, rank: seq<nat>) {
    |rank| == |g| && forall i: nat, a: nat :: i < |g| && a < |g[i]| && g[i][a].child < |g| ==> rank[i] < rank[g[i][a].child]
  }

  ghost predicate IsSource(g: Graph, c: nat) {
    forall i: nat :: i < |g| ==> EdgesInto(g[i], c) == 0
  }

  ghost predicate OnlySource(g: Graph, root: nat) {
    root < |g| && forall c: nat :: c < |g| ==> (IsSource(g, c) <==> c == root)
  }

  ghost function Elements(s: seq<nat>): set<nat> {
    set x | x in s
  }

  // The queue holds exactly the nodes without an unprocessed predecessor; degrees count unprocessed
  // predecessors, with those among the edges es from a on still to be discounted.
  ghost predicate Queued(g: Graph, degrees: seq<nat>, queue: seq<nat>, done: set<nat>, es: seq<Edge>, a: nat) {
    && |degrees| == |g| && a <= |es| && Distinct(queue)
    && (forall q: nat :: q < |queue| ==> queue[q] < |g|)
    && (forall c: nat :: c < |g| ==> (c in queue <==> degrees[c] == 0))
    && (forall c: nat :: c < |g| ==> degrees[c] + EdgesInto(es[..a], c) == InDegree(g, done, c, |g|) + EdgesInto(es, c))
  }

  // The nodes processed so far are the first head of the queue, and their edges lead forward.
  ghost predicate Processed(g: Graph, queue: seq<nat>, head: nat, done: set<nat>) {
    && head <= |queue| && done == Elements(queue[..head])
    && forall q: nat :: q < head ==> Forward(g, queue, q)
  }

  lemma DistinctFits(s: seq<nat>, n: nat)
    requires Distinct(s) && forall q: nat :: q < |s| ==> s[q] < n
    ensures |s| <= n
  {
    SizeOfElements(Range(n));
    SizeOfElements(s);
    forall x | x in Elements(s) ensures x in Elements(Range(n)) {
      assert Range(n)[x] == x;
    }
    SubsetIsSmaller(Elements(s), Elements(Range(n)));
  }

  function Range(n: nat): (s: seq<nat>)
    ensures |s| == n && forall i: nat :: i < n ==> s[i] == i
  {
    seq(n, i => i)
  }

  lemma {:induction false} SizeOfElements(s: seq<nat>)
    requires Distinct(s)
    ensures |Elements(s)| == |s|
    decreases |s|
  {
    if s != [] {
      var front := s[..|s| - 1];
      SizeOfElements(front);
      assert Elements(s) == Elements(front) + {s[|s| - 1]};
      assert s[|s| - 1] !in Elements(front);
    }
  }

  lemma SubsetIsSmaller(x: set<nat>, y: set<nat>)
    requires x <= y
    ensures |x| <= |y|
  {
    assert y == x + (y - x);
  }

  // Counts the edges into every node.
  method CountDegrees(g: Graph) returns (degrees: array<nat>)
    requires GraphOk(g)
    ensures fresh(degrees) && degrees.Length == |g|
    ensures forall c: nat :: c < |g| ==> degrees[c] == InDegree(g, {}, c, |g|)
  {
    degrees := new nat[|g|](_ => 0);
    for i := 0 to |g|
      invariant forall c: nat :: c < |g| ==> degrees[c] == InDegree(g, {}, c, i)
    {
      assert g[i][..0] == [];
      for a := 0 to |g[i]|
        invariant forall c: nat :: c < |g| ==> degrees[c] == InDegree(g, {}, c, i) + EdgesInto(g[i][..a], c)
      {
        var child := g[i][a].child;
        forall c: nat | c < |g| ensures EdgesInto(g[i][..a + 1], c) == EdgesInto(g[i][..a], c) + if child == c then 1 else 0 {
          EdgesIntoPrefix(g[i], c, a);
        }
        degrees[child] := degrees[child] + 1;
      }
      assert g[i][..|g[i]|] == g[i];
    }
  }

  // Takes one edge of a processed node out of the count, and queues its target when it was the last.
  method Discount(g: Graph, degrees: array<nat>, queue: array<nat>, tail: nat, ghost done: set<nat>, es: seq<Edge>, a: nat)
    returns (tail': nat)
    requires degrees != queue && queue.Length == |g| && tail <= |g| && a < |es| && es[a].child < |g|
    requires Queued(g, degrees[..], queue[..tail], done, es, a)
    modifies degrees, queue
    ensures tail <= tail' <= |g| && queue[..tail] == old(queue[..tail])
    ensures Queued(g, degrees[..], queue[..tail'], done, es, a + 1)
    ensures tail' == tail || (tail' == tail + 1 && queue[tail] == es[a].child && es[a].child !in old(queue[..tail]))
  {
    ghost var ds, qs := degrees[..], queue[..tail];
    var child := es[a].child;
    forall c: nat | c < |g| ensures EdgesInto(es[..a + 1], c) == EdgesInto(es[..a], c) + if child == c then 1 else 0 {
      EdgesIntoPrefix(es, c, a);
    }
    assert es[..|es|] == es;
    EdgesIntoGrows(es, child, a + 1, |es|);
    assert degrees[child] == ds[child] > 0;
    degrees[child] := degrees[child] - 1;
    tail' := tail;
    if degrees[child] == 0 {
      DistinctFits(qs + [child], |g|);
      queue[tail] := child;
      tail' := tail + 1;
      assert queue[..tail'] == qs + [child];
    }
  }

  // Takes the node at the head of the queue: all its edges are discounted.
  method ProcessNode(g: Graph, degrees: array<nat>, queue: array<nat>, head: nat, tail: nat, ghost done: set<nat>)
    returns (tail': nat)
    requires GraphOk(g) && degrees != queue && queue.Length == |g| && head < tail <= |g|
    requires Queued(g, degrees[..], queue[..tail], done, [], 0) && Processed(g, queue[..tail], head, done)
    modifies degrees, queue
    ensures head < tail' <= |g| && tail <= tail' && queue[..tail] == old(queue[..tail])
    ensures Queued(g, degrees[..], queue[..tail'], done + {queue[head]}, [], 0)
    ensures Processed(g, queue[..tail'], head + 1, done + {queue[head]})
  {
    ghost var qs := queue[..tail];
    var i := queue[head];
    var es := g[i];
    ghost var done' := done + {i};
    HeadTaken(g, degrees[..], qs, head, done);
    tail' := tail;
    for a := 0 to |es|
      invariant tail <= tail' <= |g| && queue[..tail] == qs
      invariant Queued(g, degrees[..], queue[..tail'], done', es, a)
    {
      ghost var before := queue[..tail'];
      tail' := Discount(g, degrees, queue, tail', done', es, a);
      assert queue[..tail] == before[..tail];
    }
    NoneLeft(g, degrees[..], queue[..tail'], done', es);
    AnotherProcessed(g, qs, queue[..tail'], head, done);
  }

  // The node at the head is processed, its edges still to be discounted; none of them leads back into the queue.
  lemma HeadTaken(g: Graph, degrees: seq<nat>, queue: seq<nat>, head: nat, done: set<nat>)
    requires GraphOk(g) && head < |queue| && Queued(g, degrees, queue, done, [], 0) && Processed(g, queue, head, done)
    ensures queue[head] < |g| && Queued(g, degrees, queue, done + {queue[head]}, g[queue[head]], 0)
    ensures forall a: nat :: a < |g[queue[head]]| ==> g[queue[head]][a].child !in queue
  {
    var i := queue[head];
    var es := g[i];
    HeadIsNew(queue, head);
    forall c: nat | c < |g|
      ensures degrees[c] + EdgesInto(es[..0], c) == InDegree(g, done + {i}, c, |g|) + EdgesInto(es, c)
    {
      assert es[..0] == [];
      InDegreeDone(g, done, i, c, |g|);
    }
    forall a: nat | a < |es| ensures es[a].child !in queue {
      EdgesIntoHas(es, es[a].child);
      InDegreeHas(g, done, es[a].child, |g|);
    }
  }

  lemma NoneLeft(g: Graph, degrees: seq<nat>, queue: seq<nat>, done: set<nat>, es: seq<Edge>)
    requires Queued(g, degrees, queue, done, es, |es|)
    ensures Queued(g, degrees, queue, done, [], 0)
  {
    ghost var none: seq<Edge> := [];
    assert es[..|es|] == es && none[..0] == none;
  }

  lemma HeadIsNew(queue: seq<nat>, head: nat)
    requires Distinct(queue) && head < |queue|
    ensures queue[head] !in Elements(queue[..head])
  {
  }

  lemma AnotherProcessed(g: Graph, queue: seq<nat>, queue': seq<nat>, head: nat, done: set<nat>)
    requires head < |queue| <= |queue'| && queue'[..|queue|] == queue && Processed(g, queue, head, done)
    requires queue[head] < |g| && forall a: nat :: a < |g[queue[head]]| ==> g[queue[head]][a].child !in queue
    ensures Processed(g, queue', head + 1, done + {queue[head]})
  {
    assert queue'[..head + 1] == queue[..head] + [queue[head]];
    forall q: nat | q < head + 1 ensures Forward(g, queue', q) {
      assert queue'[..q + 1] == queue[..q + 1] && queue'[q] == queue[q];
      if q < head {
        assert Forward(g, queue, q);
      }
    }
  }

  // Orders the nodes so that every edge leads forward. It works out exactly when the graph is
  // acyclic and root is its only source; otherwise it reports failure.
  method TopologicalOrder(g: Graph, root: nat) returns (ok: bool, order: seq<nat>)
    requires GraphOk(g) && root < |g|
    ensures ok ==> IsTopological(g, order) && OnlySource(g, root)
    ensures OnlySource(g, root) && (exists rank :: Ranked(g, rank)) ==> ok
  {
    var degrees := CountDegrees(g);
    var queue := new nat[|g|](_ => 0);
    var tail := FirstSources(g, degrees, queue);
    SourcesAreFree(g, degrees[..]);
    if tail != 1 || queue[0] != root {
      NotOnlySource(g, queue[..tail], root);
      return false, [];
    }
    assert OnlySource(g, root) by { RootIsOnly(g, queue[..tail], root); }
    var head := 0;
    ghost var done: set<nat> := {};
    while head < tail
      invariant head <= tail <= |g|
      invariant Queued(g, degrees[..], queue[..tail], done, [], 0) && Processed(g, queue[..tail], head, done)
      decreases |g| - head
    {
      ghost var i := queue[head];
      tail := ProcessNode(g, degrees, queue, head, tail, done);
      done := done + {i};
      head := head + 1;
    }
    order := queue[..tail];
    ok := tail == |g|;
    QueueIsOrder(g, degrees[..], order, done);
  }

  // When the whole queue has been processed, it is an order if it holds every node, and it does if there is one.
  lemma QueueIsOrder(g: Graph, degrees: seq<nat>, order: seq<nat>, done: set<nat>)
    requires GraphOk(g) && Queued(g, degrees, order, done, [], 0) && Processed(g, order, |order|, done)
    ensures |order| == |g| ==> IsTopological(g, order)
    ensures (exists rank :: Ranked(g, rank)) ==> |order| == |g|
  {
    assert order[..|order|] == order;
    if rank :| Ranked(g, rank) {
      AllProcessed(g, degrees, order, rank);
    }
  }

  // Queues the nodes that no edge enters, in index order.
  method FirstSources(g: Graph, degrees: array<nat>, queue: array<nat>) returns (tail: nat)
    requires degrees != queue && degrees.Length == queue.Length == |g|
    requires forall c: nat :: c < |g| ==> degrees[c] == InDegree(g, {}, c, |g|)
    modifies queue
    ensures tail <= |g| && Queued(g, degrees[..], queue[..tail], {}, [], 0) && Processed(g, queue[..tail], 0, {})
  {
    tail := 0;
    for c := 0 to |g|
      invariant tail <= c && degrees[..] == old(degrees[..])
      invariant Distinct(queue[..tail]) && forall q: nat :: q < tail ==> queue[q] < c
      invariant forall d: nat :: d < c ==> (d in queue[..tail] <==> degrees[d] == 0)
    {
      if degrees[c] == 0 {
        ghost var qs := queue[..tail];
        queue[tail] := c;
        tail := tail + 1;
        assert queue[..tail] == qs + [c];
      }
    }
  }

  lemma SourcesAreFree(g: Graph, degrees: seq<nat>)
    requires |degrees| == |g| && forall c: nat :: c < |g| ==> degrees[c] == InDegree(g, {}, c, |g|)
    ensures forall c: nat :: c < |g| ==> (degrees[c] == 0 <==> IsSource(g, c))
  {
    forall c: nat | c < |g| ensures degrees[c] == 0 <==> IsSource(g, c) {
      InDegreeHas(g, {}, c, |g|);
    }
  }

  lemma NotOnlySource(g: Graph, queue: seq<nat>, root: nat)
    requires forall q: nat :: q < |queue| ==> queue[q] < |g|
    requires Distinct(queue) && forall c: nat :: c < |g| ==> (c in queue <==> IsSource(g, c))
    requires |queue| != 1 || queue[0] != root
    ensures !OnlySource(g, root)
  {
    assert root < |g| ==> (root in queue <==> IsSource(g, root));
    if |queue| > 0 {
      assert queue[0] in queue && IsSource(g, queue[0]);
    }
    if |queue| > 1 {
      assert queue[1] in queue && IsSource(g, queue[1]);
    }
  }

  lemma RootIsOnly(g: Graph, queue: seq<nat>, root: nat)
    requires root < |g| && forall c: nat :: c < |g| ==> (c in queue <==> IsSource(g, c))
    requires |queue| == 1 && queue[0] == root
    ensures OnlySource(g, root)
  {
  }

  // With a rank there is always a next node, so the queue has seen them all.
  lemma AllProcessed(g: Graph, degrees: seq<nat>, order: seq<nat>, rank: seq<nat>)
    requires GraphOk(g) && Ranked(g, rank) && Queued(g, degrees, order, Elements(order), [], 0)
    ensures |order| == |g|
  {
    forall c: nat | c < |g| ensures c in order {
      RankedIsQueued(g, degrees, order, rank, c);
    }
    DistinctFits(order, |g|);
    SizeOfElements(order);
    SizeOfElements(Range(|g|));
    forall x | x in Elements(Range(|g|)) ensures x in Elements(order) {
    }
    SubsetIsSmaller(Elements(Range(|g|)), Elements(order));
  }

  lemma {:induction false} RankedIsQueued(g: Graph, degrees: seq<nat>, order: seq<nat>, rank: seq<nat>, c: nat)
    requires GraphOk(g) && Ranked(g, rank) && Queued(g, degrees, order, Elements(order), [], 0) && c < |g|
    ensures c in order
    decreases rank[c]
  {
    if c !in order {
      InDegreeHas(g, Elements(order), c, |g|);
      var i: nat :| i < |g| && i !in Elements(order) && EdgesInto(g[i], c) > 0;
      EdgesIntoHas(g[i], c);
      var a: nat :| a < |g[i]| && g[i][a].child == c;
      RankedIsQueued(g, degrees, order, rank, i);
    }
  }

  // ---- Pushing reach along the order ----

  function Flow(reach: real, es: seq<Edge>, c: nat): real
    decreases |es|
  {
    if es == [] then 0.0 else
      Flow(reach, es[..|es| - 1], c) + if es[|es| - 1].child == c then reach * es[|es| - 1].weight else 0.0
  }

  // What flows into c from the first n nodes of the order.
  function Inflow(g: Graph, order: seq<nat>, reach: seq<real>, c: nat, n: nat): real
    requires n <= |order| && |reach| == |g| && forall q: nat :: q < |order| ==> order[q] < |g|
    decreases n
  {
    if n == 0 then 0.0 else Inflow(g, order, reach, c, n - 1) + Flow(reach[order[n - 1]], g[order[n - 1]], c)
  }

  // The reach equations: one unit at the root, and at every node what its predecessors pass on.
  ghost predicate ReachSolved(g: Graph, order: seq<nat>, root: nat, reach: seq<real>)
    requires IsTopological(g, order)
  {
    |reach| == |g| && forall c: nat :: c < |g| ==> reach[c] == (if c == root then 1.0 else 0.0) + Inflow(g, order, reach, c, |order|)
  }

  // So far the first n nodes of the order have passed on their reach.
  ghost predicate PassedOn(g: Graph, order: seq<nat>, root: nat, reach: seq<real>, n: nat)
    requires IsTopological(g, order) && n <= |order|
  {
    |reach| == |g| && forall c: nat :: c < |g| ==> reach[c] == (if c == root then 1.0 else 0.0) + Inflow(g, order, reach, c, n)
  }

  lemma FlowPrefix(reach: real, es: seq<Edge>, c: nat, a: nat)
    requires a < |es|
    ensures Flow(reach, es[..a + 1], c) == Flow(reach, es[..a], c) + if es[a].child == c then reach * es[a].weight else 0.0
  {
    assert es[..a + 1][..a] == es[..a];
  }

  // Reach of nodes already passed does not change any more, so neither does their flow.
  lemma {:induction false} InflowSame(g: Graph, order: seq<nat>, reach: seq<real>, reach': seq<real>, c: nat, n: nat)
    requires n <= |order| && |reach| == |reach'| == |g| && forall q: nat :: q < |order| ==> order[q] < |g|
    requires forall q: nat :: q < n ==> reach'[order[q]] == reach[order[q]]
    ensures Inflow(g, order, reach', c, n) == Inflow(g, order, reach, c, n)
    decreases n
  {
    if n > 0 {
      InflowSame(g, order, reach, reach', c, n - 1);
    }
  }

  method ReachPass(g: Graph, order: seq<nat>, root: nat) returns (reach: array<real>)
    requires GraphOk(g) && IsTopological(g, order) && root < |g|
    ensures fresh(reach) && ReachSolved(g, order, root, reach[..])
  {
    reach := new real[|g|](_ => 0.0);
    reach[root] := 1.0;
    for p := 0 to |order|
      invariant PassedOn(g, order, root, reach[..], p)
    {
      PassOn(g, order, root, reach, p);
    }
  }

  ghost predicate Passing(before: seq<real>, now: seq<real>, x: real, es: seq<Edge>, a: nat) {
    |now| == |before| && a <= |es| && forall c: nat :: c < |now| ==> now[c] == before[c] + Flow(x, es[..a], c)
  }

  lemma PassEdge(before: seq<real>, now: seq<real>, x: real, es: seq<Edge>, a: nat, sum: real)
    requires Passing(before, now, x, es, a) && a < |es| && es[a].child < |now|
    requires sum == now[es[a].child] + x * es[a].weight
    ensures Passing(before, now[es[a].child := sum], x, es, a + 1)
  {
    var now' := now[es[a].child := sum];
    forall c: nat | c < |now| ensures now'[c] == before[c] + Flow(x, es[..a + 1], c) {
      FlowPrefix(x, es, c, a);
    }
  }

  lemma PassedNode(g: Graph, order: seq<nat>, root: nat, before: seq<real>, now: seq<real>, p: nat)
    requires IsTopological(g, order) && p < |order| && PassedOn(g, order, root, before, p)
    requires Passing(before, now, before[order[p]], g[order[p]], |g[order[p]]|)
    requires forall q: nat :: q <= p ==> now[order[q]] == before[order[q]]
    ensures PassedOn(g, order, root, now, p + 1)
  {
    var es := g[order[p]];
    assert es[..|es|] == es;
    forall c: nat | c < |g| ensures now[c] == (if c == root then 1.0 else 0.0) + Inflow(g, order, now, c, p + 1) {
      InflowSame(g, order, before, now, c, p);
    }
  }

  // One node of the order adds to each of its children, all of which come later.
  method PassOn(g: Graph, order: seq<nat>, ghost root: nat, reach: array<real>, p: nat)
    requires GraphOk(g) && IsTopological(g, order) && p < |order| && PassedOn(g, order, root, reach[..], p)
    modifies reach
    ensures PassedOn(g, order, root, reach[..], p + 1)
  {
    ghost var before := reach[..];
    var i := order[p];
    var es := g[i];
    assert Forward(g, order, p);
    assert es[..0] == [];
    for a := 0 to |es|
      invariant forall q: nat :: q <= p ==> reach[order[q]] == before[order[q]]
      invariant Passing(before, reach[..], before[i], es, a)
    {
      assert forall q: nat :: q <= p ==> order[q] in order[..p + 1];
      var sum := reach[es[a].child] + reach[i] * es[a].weight;
      PassEdge(before, reach[..], before[i], es, a, sum);
      reach[es[a].child] := sum;
    }
    PassedNode(g, order, root, before, reach[..], p);
  }

  // ---- What reach adds up to ----

  // The value of a node in the unfolded tree: its own, and its children's by weight.
  ghost predicate UnfoldsAt(g: Graph, f: seq<real>, u: seq<real>, i: nat)
    requires GraphOk(g) && |f| == |u| == |g| && i < |g|
  {
    u[i] == f[i] + EdgeSum(g[i], u)
  }

  function EdgeSum(es: seq<Edge>, u: seq<real>): real
    requires forall a: nat :: a < |es| ==> es[a].child < |u|
    decreases |es|
  {
    if es == [] then 0.0 else EdgeSum(es[..|es| - 1], u) + Times(es[|es| - 1].weight, u[es[|es| - 1].child])
  }

  ghost predicate Unfolds(g: Graph, f: seq<real>, u: seq<real>)
    requires GraphOk(g)
  {
    |f| == |u| == |g| && forall i: nat :: i < |g| ==> UnfoldsAt(g, f, u, i)
  }

  // Node by node, what flows out weighted by u at its targets.
  function FlowTo(reach: real, es: seq<Edge>, u: seq<real>): nat -> real {
    (c: nat) => if c < |u| then u[c] * Flow(reach, es, c) else 0.0
  }

  function EdgeTo(e: Edge, reach: real, u: seq<real>): nat -> real {
    (c: nat) => if c < |u| && c == e.child then u[c] * (reach * e.weight) else 0.0
  }

  lemma {:induction false} FlowAddsUp(reach: real, es: seq<Edge>, u: seq<real>)
    requires forall a: nat :: a < |es| ==> es[a].child < |u|
    ensures Sum(FlowTo(reach, es, u), 0, |u|) == reach * EdgeSum(es, u)
    decreases |es|
  {
    if es == [] {
      SumZero(FlowTo(reach, es, u), 0, |u|);
    } else {
      var front, e := es[..|es| - 1], es[|es| - 1];
      FlowAddsUp(reach, front, u);
      EdgeAddsUp(e, reach, u);
      FlowSplits(reach, es, u);
      Distribute(reach, EdgeSum(front, u), e.weight, u[e.child]);
    }
  }

  lemma EdgeAddsUp(e: Edge, reach: real, u: seq<real>)
    requires e.child < |u|
    ensures Sum(EdgeTo(e, reach, u), 0, |u|) == u[e.child] * (reach * e.weight)
  {
    SumOnly(EdgeTo(e, reach, u), e.child, 0, |u|);
  }

  lemma FlowSplits(reach: real, es: seq<Edge>, u: seq<real>)
    requires es != []
    ensures Sum(FlowTo(reach, es, u), 0, |u|)
         == Sum(FlowTo(reach, es[..|es| - 1], u), 0, |u|) + Sum(EdgeTo(es[|es| - 1], reach, u), 0, |u|)
  {
    forall c: nat | c < |u|
      ensures FlowTo(reach, es, u)(c) == FlowTo(reach, es[..|es| - 1], u)(c) + EdgeTo(es[|es| - 1], reach, u)(c)
    {
      FlowTerm(reach, es, u, c);
    }
    SumPlus(FlowTo(reach, es[..|es| - 1], u), EdgeTo(es[|es| - 1], reach, u), FlowTo(reach, es, u), 0, |u|);
  }

  lemma FlowTerm(reach: real, es: seq<Edge>, u: seq<real>, c: nat)
    requires es != [] && c < |u|
    ensures FlowTo(reach, es, u)(c) == FlowTo(reach, es[..|es| - 1], u)(c) + EdgeTo(es[|es| - 1], reach, u)(c)
  {
  }

  lemma Distribute(x: real, s: real, w: real, v: real)
    ensures x * (s + Times(w, v)) == x * s + v * (x * w)
  {
  }

  function Weighted(x: seq<real>, u: seq<real>): nat -> real {
    (c: nat) => if c < |x| && c < |u| then Times(x[c], u[c]) else 0.0
  }

  // Passing on conserves: what arrives at the first n nodes, and what they hold, balance.
  function InflowTo(g: Graph, order: seq<nat>, reach: seq<real>, u: seq<real>, n: nat): nat -> real
    requires n <= |order| && |reach| == |g| && forall q: nat :: q < |order| ==> order[q] < |g|
  {
    (c: nat) => if c < |u| then u[c] * Inflow(g, order, reach, c, n) else 0.0
  }

  function Passed(g: Graph, order: seq<nat>, reach: seq<real>, u: seq<real>): nat -> real
    requires GraphOk(g) && |reach| == |u| == |g| && forall q: nat :: q < |order| ==> order[q] < |g|
  {
    (q: nat) => if q < |order| then reach[order[q]] * EdgeSum(g[order[q]], u) else 0.0
  }

  lemma {:induction false} InflowAddsUp(g: Graph, order: seq<nat>, reach: seq<real>, u: seq<real>, n: nat)
    requires GraphOk(g) && n <= |order| && |reach| == |u| == |g| && forall q: nat :: q < |order| ==> order[q] < |g|
    ensures Sum(InflowTo(g, order, reach, u, n), 0, |u|) == Sum(Passed(g, order, reach, u), 0, n)
    decreases n
  {
    if n == 0 {
      NothingFlows(g, order, reach, u);
    } else {
      InflowAddsUp(g, order, reach, u, n - 1);
      FlowAddsUp(reach[order[n - 1]], g[order[n - 1]], u);
      InflowSplits(g, order, reach, u, n);
      PassedOneMore(g, order, reach, u, n);
    }
  }

  lemma NothingFlows(g: Graph, order: seq<nat>, reach: seq<real>, u: seq<real>)
    requires |reach| == |g| && forall q: nat :: q < |order| ==> order[q] < |g|
    ensures Sum(InflowTo(g, order, reach, u, 0), 0, |u|) == 0.0
  {
    SumZero(InflowTo(g, order, reach, u, 0), 0, |u|);
  }

  lemma PassedOneMore(g: Graph, order: seq<nat>, reach: seq<real>, u: seq<real>, n: nat)
    requires GraphOk(g) && 0 < n <= |order| && |reach| == |u| == |g| && forall q: nat :: q < |order| ==> order[q] < |g|
    ensures Sum(Passed(g, order, reach, u), 0, n)
         == Sum(Passed(g, order, reach, u), 0, n - 1) + reach[order[n - 1]] * EdgeSum(g[order[n - 1]], u)
  {
  }

  lemma InflowSplits(g: Graph, order: seq<nat>, reach: seq<real>, u: seq<real>, n: nat)
    requires 0 < n <= |order| && |reach| == |g| && forall q: nat :: q < |order| ==> order[q] < |g|
    ensures Sum(InflowTo(g, order, reach, u, n), 0, |u|)
         == Sum(InflowTo(g, order, reach, u, n - 1), 0, |u|) + Sum(FlowTo(reach[order[n - 1]], g[order[n - 1]], u), 0, |u|)
  {
    var f, g1, g2 := InflowTo(g, order, reach, u, n), InflowTo(g, order, reach, u, n - 1), FlowTo(reach[order[n - 1]], g[order[n - 1]], u);
    forall c: nat | c < |u| ensures f(c) == g1(c) + g2(c) {
      InflowTerm(g, order, reach, u, n, c);
    }
    SumPlus(g1, g2, f, 0, |u|);
  }

  lemma InflowTerm(g: Graph, order: seq<nat>, reach: seq<real>, u: seq<real>, n: nat, c: nat)
    requires 0 < n <= |order| && |reach| == |g| && (forall q: nat :: q < |order| ==> order[q] < |g|) && c < |u|
    ensures InflowTo(g, order, reach, u, n)(c)
         == InflowTo(g, order, reach, u, n - 1)(c) + FlowTo(reach[order[n - 1]], g[order[n - 1]], u)(c)
  {
  }

  // ---- Reach against the unfolded tree ----

  function InOrder(order: seq<nat>, f: nat -> real): nat -> real {
    (q: nat) => if q < |order| then f(order[q]) else 0.0
  }

  function UnlessIn(s: seq<nat>, f: nat -> real): nat -> real {
    (c: nat) => if c in s then 0.0 else f(c)
  }

  function OnlyAt(i: nat, f: nat -> real): nat -> real {
    (c: nat) => if c == i then f(c) else 0.0
  }

  // Adding along an arrangement of some nodes is adding over those nodes.
  lemma {:induction false} SumInOrder(s: seq<nat>, f: nat -> real, n: nat)
    requires Distinct(s) && forall q: nat :: q < |s| ==> s[q] < n
    ensures Sum(InOrder(s, f), 0, |s|) + Sum(UnlessIn(s, f), 0, n) == Sum(f, 0, n)
    decreases |s|
  {
    if s == [] {
      SumExt(UnlessIn(s, f), f, 0, n);
    } else {
      var front, i := s[..|s| - 1], s[|s| - 1];
      SumInOrder(front, f, n);
      SumExt(InOrder(front, f), InOrder(s, f), 0, |front|);
      SumOnly(OnlyAt(i, f), i, 0, n);
      assert i !in front;
      forall c: nat | c < n ensures UnlessIn(front, f)(c) == UnlessIn(s, f)(c) + OnlyAt(i, f)(c) {
        assert c in s <==> c in front || c == i;
      }
      SumPlus(UnlessIn(s, f), OnlyAt(i, f), UnlessIn(front, f), 0, n);
    }
  }

  lemma SumOverOrder(g: Graph, order: seq<nat>, f: nat -> real)
    requires IsTopological(g, order)
    ensures Sum(InOrder(order, f), 0, |g|) == Sum(f, 0, |g|)
  {
    SumInOrder(order, f, |g|);
    forall c: nat | c < |g| ensures UnlessIn(order, f)(c) == 0.0 {
      InTopological(g, order, c);
    }
    SumZero(UnlessIn(order, f), 0, |g|);
  }

  lemma InTopological(g: Graph, order: seq<nat>, c: nat)
    requires IsTopological(g, order) && c < |g|
    ensures c in order
  {
    if c !in order {
      DistinctFits(order + [c], |g|);
    }
  }

  // Each node's value splits into its own part and what it passes on.
  lemma NodesSplit(g: Graph, order: seq<nat>, reach: seq<real>, f: seq<real>, u: seq<real>)
    requires GraphOk(g) && IsTopological(g, order) && Unfolds(g, f, u) && |reach| == |g|
    ensures Sum(Weighted(reach, u), 0, |g|) == Sum(Weighted(reach, f), 0, |g|) + Sum(Passed(g, order, reach, u), 0, |g|)
  {
    SumOverOrder(g, order, Weighted(reach, u));
    SumOverOrder(g, order, Weighted(reach, f));
    var a, b, d := InOrder(order, Weighted(reach, u)), InOrder(order, Weighted(reach, f)), Passed(g, order, reach, u);
    forall q: nat | q < |g| ensures a(q) == b(q) + d(q) {
      NodeSplits(g, order, reach, f, u, q);
    }
    SumPlus(b, d, a, 0, |g|);
  }

  lemma NodeSplits(g: Graph, order: seq<nat>, reach: seq<real>, f: seq<real>, u: seq<real>, q: nat)
    requires GraphOk(g) && IsTopological(g, order) && Unfolds(g, f, u) && |reach| == |g| && q < |order|
    ensures InOrder(order, Weighted(reach, u))(q) == InOrder(order, Weighted(reach, f))(q) + Passed(g, order, reach, u)(q)
  {
    assert UnfoldsAt(g, f, u, order[q]);
    Split(reach[order[q]], f[order[q]], EdgeSum(g[order[q]], u), u[order[q]]);
  }

  lemma Split(x: real, f: real, e: real, u: real)
    requires u == f + e
    ensures Times(x, u) == Times(x, f) + x * e
  {
  }

  // And each node's value, weighted by its reach, is the root's unit and what flows in.
  lemma NodesCollect(g: Graph, order: seq<nat>, root: nat, reach: seq<real>, u: seq<real>)
    requires GraphOk(g) && IsTopological(g, order) && ReachSolved(g, order, root, reach) && |u| == |g| && root < |g|
    ensures Sum(Weighted(reach, u), 0, |g|) == u[root] + Sum(InflowTo(g, order, reach, u, |order|), 0, |g|)
  {
    SumOnly(OnlyAt(root, Entries(u)), root, 0, |g|);
    forall c: nat | c < |g|
      ensures Weighted(reach, u)(c) == OnlyAt(root, Entries(u))(c) + InflowTo(g, order, reach, u, |order|)(c)
    {
      NodeCollects(g, order, root, reach, u, c);
    }
    SumPlus(OnlyAt(root, Entries(u)), InflowTo(g, order, reach, u, |order|), Weighted(reach, u), 0, |g|);
  }

  function Entries(u: seq<real>): nat -> real {
    (c: nat) => if c < |u| then u[c] else 0.0
  }

  lemma NodeCollects(g: Graph, order: seq<nat>, root: nat, reach: seq<real>, u: seq<real>, c: nat)
    requires IsTopological(g, order) && ReachSolved(g, order, root, reach) && |u| == |g| && c < |g|
    ensures Weighted(reach, u)(c) == OnlyAt(root, Entries(u))(c) + InflowTo(g, order, reach, u, |order|)(c)
  {
    Collect(reach[c], if c == root then 1.0 else 0.0, Inflow(g, order, reach, c, |order|), u[c]);
  }

  lemma Collect(x: real, unit: real, flow: real, u: real)
    requires x == unit + flow
    ensures Times(x, u) == unit * u + u * flow
  {
  }

  // Weighting any quantity by reach and adding it up over the graph gives its total over the
  // whole unfolded tree.
  lemma ReachAddsUp(g: Graph, order: seq<nat>, root: nat, reach: seq<real>, f: seq<real>, u: seq<real>)
    requires GraphOk(g) && IsTopological(g, order) && root < |g| && ReachSolved(g, order, root, reach) && Unfolds(g, f, u)
    ensures Sum(Weighted(reach, f), 0, |g|) == u[root]
  {
    NodesSplit(g, order, reach, f, u);
    NodesCollect(g, order, root, reach, u);
    InflowAddsUp(g, order, reach, u, |order|);
  }
}
