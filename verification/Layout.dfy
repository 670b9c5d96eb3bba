// The flattened form of a game tree has the shape, the reach probabilities, the histories and the
// values of the tree.
module Layout {
  import opened Sums
  import opened BestResponse
  import opened GameTree

  function Root(t: Tree): Visit {
    Visit(t, 0, 1.0, 1.0, [], [], 1.0, 1.0)
  }

  // What the construction leaves behind for a whole tree.
  function FlatOf(store: Store, t: Tree): Flat {
    Flat(Nodes(Visits(store, Root(t))), EdgesOf(store, t, 0))
  }

  // Every decision offers a choice.
  ghost predicate Branching(vs: seq<Visit>) {
    forall i: nat :: i < |vs| && !vs[i].tree.Leaf? ==> |Branches(vs[i].tree)| > 0
  }

  // The child under action a, as a node and as a visit.
  ghost predicate KidAt(store: Store, s: Flat, vs: seq<Visit>, i: nat, a: nat)
    requires Linked(s) && i < |vs| == |s.nodes| && a < s.nodes[i].count == |Branches(vs[i].tree)|
  {
    && Kid(s, i, a) == i + 1 + Before(vs[i].tree, a)
    && Probability(s, i, a) == Odds(store, vs[i].tree, a)
    && vs[Kid(s, i, a)] == Child(store, vs[i], a)
  }

  // s is the flattened form of the tree that the visits vs walk.
  ghost predicate Flattened(store: Store, s: Flat, vs: seq<Visit>) {
    && Linked(s)
    && |vs| == |s.nodes| > 0
    && (forall i: nat :: i < |vs| ==> s.nodes[i] == NodeOf(vs[i]))
    && (forall i: nat, a: nat :: i < |vs| && a < |Branches(vs[i].tree)| ==> KidAt(store, s, vs, i, a))
    && vs[0] == Root(vs[0].tree)
    && |vs| == Size(vs[0].tree)
  }

  lemma EdgesInRange(store: Store, s: Flat, vs: seq<Visit>, i: nat)
    requires i < |vs| && s.nodes == Nodes(vs) && Branching(vs) && VisitOk(store, vs, s.edges, i)
    ensures var n := s.nodes[i];
      && (n.kind.Terminal? <==> n.count == 0)
      && n.offset + n.count <= |s.edges|
      && forall e :: n.offset <= e < n.offset + n.count ==> i < s.edges[e].child < |s.nodes|
  {
    forall e | s.nodes[i].offset <= e < s.nodes[i].offset + s.nodes[i].count
      ensures i < s.edges[e].child < |s.nodes|
    {
      assert EdgeOk(store, vs, s.edges, i, e - vs[i].offset);
    }
  }

  lemma FlatIsOk(store: Store, t: Tree, i: nat)
    requires i < Size(t)
    ensures VisitOk(store, Visits(store, Root(t)), EdgesOf(store, t, 0), i)
  {
    Everywhere(store, Visits(store, Root(t)), EdgesOf(store, t, 0), Root(t), 0, i);
  }

  lemma FlatIsLinked(store: Store, t: Tree)
    requires Branching(Visits(store, Root(t)))
    ensures Linked(FlatOf(store, t))
  {
    var s, vs := FlatOf(store, t), Visits(store, Root(t));
    forall i: nat | i < |vs|
      ensures var n := s.nodes[i];
        && (n.kind.Terminal? <==> n.count == 0)
        && n.offset + n.count <= |s.edges|
        && forall e :: n.offset <= e < n.offset + n.count ==> i < s.edges[e].child < |s.nodes|
    {
      FlatIsOk(store, t, i);
      EdgesInRange(store, s, vs, i);
    }
  }

  lemma KidOfEdge(store: Store, s: Flat, vs: seq<Visit>, i: nat, a: nat)
    requires Linked(s) && s.nodes == Nodes(vs) && i < |vs| && a < |Branches(vs[i].tree)|
    requires EdgeOk(store, vs, s.edges, i, a)
    ensures KidAt(store, s, vs, i, a)
  {
  }

  lemma FlatIsFlattened(store: Store, t: Tree)
    requires Branching(Visits(store, Root(t)))
    ensures Flattened(store, FlatOf(store, t), Visits(store, Root(t)))
  {
    var s, vs := FlatOf(store, t), Visits(store, Root(t));
    FlatIsLinked(store, t);
    forall i: nat, a: nat | i < |vs| && a < |Branches(vs[i].tree)| ensures KidAt(store, s, vs, i, a) {
      FlatIsOk(store, t, i);
      KidOfEdge(store, s, vs, i, a);
    }
  }

  lemma {:induction false} EndIsSize(store: Store, s: Flat, vs: seq<Visit>, i: nat)
    requires Flattened(store, s, vs) && i < |vs|
    ensures End(s, i) == i + Size(vs[i].tree)
    decreases |vs| - i
  {
    var n := s.nodes[i].count;
    if n > 0 {
      assert KidAt(store, s, vs, i, n - 1);
      EndIsSize(store, s, vs, Kid(s, i, n - 1));
    }
  }

  lemma FlatIsPreorder(store: Store, s: Flat, vs: seq<Visit>)
    requires Flattened(store, s, vs)
    ensures Preorder(s)
  {
    EndIsSize(store, s, vs, 0);
    forall i: nat | i < |s.nodes| ensures PreorderAt(s, i) {
      if s.nodes[i].count > 0 {
        assert KidAt(store, s, vs, i, 0);
        forall a: nat | a + 1 < s.nodes[i].count ensures Kid(s, i, a + 1) == End(s, Kid(s, i, a)) {
          assert KidAt(store, s, vs, i, a) && KidAt(store, s, vs, i, a + 1);
          EndIsSize(store, s, vs, Kid(s, i, a));
        }
      }
    }
  }

  lemma FlatReaches(store: Store, s: Flat, vs: seq<Visit>, r: Player)
    requires Flattened(store, s, vs)
    ensures Reaches(s, r)
  {
    forall i: nat, a: nat | i < |s.nodes| && a < s.nodes[i].count ensures ReachAt(s, r, i, a) {
      assert KidAt(store, s, vs, i, a);
    }
  }

  function Past(v: Visit, r: Player): History {
    if r.Player0? then v.past0 else v.past1
  }

  function Pasts(vs: seq<Visit>, r: Player): (h: seq<History>)
    ensures |h| == |vs|
  {
    seq(|vs|, (i: nat) requires i < |vs| => Past(vs[i], r))
  }

  lemma FlatHistories(store: Store, s: Flat, vs: seq<Visit>, r: Player)
    requires Flattened(store, s, vs)
    ensures Histories(s, r, Pasts(vs, r))
  {
    forall i: nat, a: nat | i < |s.nodes| && a < s.nodes[i].count ensures HistoryAt(s, r, Pasts(vs, r), i, a) {
      assert KidAt(store, s, vs, i, a);
    }
  }

  // The expected utility of every subtree, node by node.
  function Utilities(store: Store, vs: seq<Visit>, r: Player, sigma: Strategy): (v: seq<real>)
    ensures |v| == |vs|
  {
    seq(|vs|, (i: nat) requires i < |vs| => Expected(store, vs[i].tree, r, sigma))
  }

  lemma UtilityOfKid(store: Store, s: Flat, vs: seq<Visit>, r: Player, sigma: Strategy, i: nat, a: nat)
    requires Flattened(store, s, vs) && i < |vs| && a < |Branches(vs[i].tree)|
    ensures Utilities(store, vs, r, sigma)[Kid(s, i, a)] == Expected(store, vs[i].tree.branches[a].next, r, sigma)
  {
    assert KidAt(store, s, vs, i, a);
  }

  lemma WeightOfKid(store: Store, s: Flat, vs: seq<Visit>, r: Player, sigma: Strategy, i: nat, a: nat)
    requires Flattened(store, s, vs) && i < |vs| && a < |Branches(vs[i].tree)|
    ensures Weight(s, r, sigma, i, a) == Play(store, vs[i].tree, r, sigma, a)
  {
    assert KidAt(store, s, vs, i, a);
  }

  lemma FlatTerm(store: Store, s: Flat, vs: seq<Visit>, r: Player, sigma: Strategy, v: seq<real>, i: nat, a: nat)
    requires Flattened(store, s, vs) && i < |vs| && a < |Branches(vs[i].tree)|
    requires v == Utilities(store, vs, r, sigma)
    ensures Backed(s, r, sigma, v, i)(a)
         == Play(store, vs[i].tree, r, sigma, a) * Expected(store, vs[i].tree.branches[a].next, r, sigma)
  {
    UtilityOfKid(store, s, vs, r, sigma, i, a);
    WeightOfKid(store, s, vs, r, sigma, i, a);
  }

  function Term(store: Store, t: Tree, r: Player, sigma: Strategy, a: nat): real
    requires a < |Branches(t)|
  {
    Play(store, t, r, sigma, a) * Expected(store, t.branches[a].next, r, sigma)
  }

  lemma {:induction false} SumOfTerms(store: Store, t: Tree, r: Player, sigma: Strategy, f: nat -> real, n: nat)
    requires n <= |Branches(t)| && forall a: nat :: a < n ==> f(a) == Term(store, t, r, sigma, a)
    ensures Sum(f, 0, n) == ExpectedBefore(store, t, r, sigma, n)
    decreases n
  {
    if n > 0 {
      SumOfTerms(store, t, r, sigma, f, n - 1);
      assert f(n - 1) == Term(store, t, r, sigma, n - 1);
    }
  }

  lemma FlatBackup(store: Store, s: Flat, vs: seq<Visit>, r: Player, sigma: Strategy, v: seq<real>, i: nat)
    requires Flattened(store, s, vs) && i < |vs| && v == Utilities(store, vs, r, sigma)
    ensures Sum(Backed(s, r, sigma, v, i), 0, s.nodes[i].count) == ExpectedBefore(store, vs[i].tree, r, sigma, s.nodes[i].count)
  {
    var f, n := Backed(s, r, sigma, v, i), s.nodes[i].count;
    forall a: nat | a < n ensures f(a) == Term(store, vs[i].tree, r, sigma, a) {
      FlatTerm(store, s, vs, r, sigma, v, i, a);
    }
    SumOfTerms(store, vs[i].tree, r, sigma, f, n);
  }

  // The tree's expected utilities are the values of the flat form.
  lemma FlatValues(store: Store, s: Flat, vs: seq<Visit>, r: Player, sigma: Strategy)
    requires Flattened(store, s, vs)
    ensures Values(s, r, sigma, Utilities(store, vs, r, sigma))
  {
    forall i: nat | i < |vs| ensures ValueAt(s, r, sigma, Utilities(store, vs, r, sigma), i) {
      FlatBackup(store, s, vs, r, sigma, Utilities(store, vs, r, sigma), i);
    }
  }
}
