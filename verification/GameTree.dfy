// The game as the evaluator meets it: a finite tree walked by apply and undo, and where pre-order
// construction puts each part of it.
module GameTree {
  import opened BestResponse
  import RegretMatching

  // The probability of a branch is the game's own at a chance node and unused elsewhere.
  datatype Branch = Branch(action: int, probability: real, next: Tree)
  datatype Tree =
    | Leaf(utility0: real, utility1: real)
    | Nature(branches: seq<Branch>)
    | Turn(player: Player, key: Key, branches: seq<Branch>)

  // The strategy sums learned so far.
  type Store = map<Key, seq<real>>

  // One visit of a walk: the subtree there, where the construction puts its edges, the reach
  // probabilities excluding each player, each player's own past, and its own reach.
  datatype Visit = Visit(
    tree: Tree, offset: nat, reach0: real, reach1: real, past0: History, past1: History, own0: real, own1: real)

  function Branches(t: Tree): seq<Branch> {
    if t.Leaf? then [] else t.branches
  }

  predicate Moves(t: Tree, r: Player) {
    t.Turn? && t.player == r
  }

  function Zeros(n: nat): (z: seq<real>)
    ensures |z| == n
  {
    seq(n, i => 0.0)
  }

  // The average strategy at an information set; uniform where nothing has been learned.
  function Policy(store: Store, key: Key, n: nat): (p: seq<real>)
    requires n > 0
    ensures |p| == n
  {
    RegretMatching.Match(if key in store && |store[key]| == n then store[key] else Zeros(n))
  }

  function Odds(store: Store, t: Tree, a: nat): real
    requires a < |Branches(t)|
  {
    if t.Turn? then Policy(store, t.key, |t.branches|)[a] else t.branches[a].probability
  }

  // ---- Values on the tree ----

  // What r earns from t when r plays sigma and everyone else the learned profile, or chance.
  function Expected(store: Store, t: Tree, r: Player, sigma: Strategy): real
    decreases t, |Branches(t)| + 1
  {
    match t
    case Leaf(u0, u1) => if r.Player0? then u0 else u1
    case _ => ExpectedBefore(store, t, r, sigma, |Branches(t)|)
  }

  function ExpectedBefore(store: Store, t: Tree, r: Player, sigma: Strategy, n: nat): real
    requires n <= |Branches(t)|
    decreases t, n
  {
    if n == 0 then 0.0 else
      ExpectedBefore(store, t, r, sigma, n - 1)
      + Play(store, t, r, sigma, n - 1) * Expected(store, t.branches[n - 1].next, r, sigma)
  }

  function Play(store: Store, t: Tree, r: Player, sigma: Strategy, a: nat): real
    requires a < |Branches(t)|
  {
    if Moves(t, r) then sigma(t.key, a) else Odds(store, t, a)
  }

  // What r earns from t when nobody departs from the learned profile.
  function ProfileUtility(store: Store, t: Tree, r: Player): real
    decreases t, |Branches(t)| + 1
  {
    match t
    case Leaf(u0, u1) => if r.Player0? then u0 else u1
    case _ => ProfileBefore(store, t, r, |Branches(t)|)
  }

  function ProfileBefore(store: Store, t: Tree, r: Player, n: nat): real
    requires n <= |Branches(t)|
    decreases t, n
  {
    if n == 0 then 0.0 else
      ProfileBefore(store, t, r, n - 1) + Odds(store, t, n - 1) * ProfileUtility(store, t.branches[n - 1].next, r)
  }

  // ---- Positions in pre-order ----

  function Size(t: Tree): (n: nat)
    ensures n > 0
    decreases t, |Branches(t)| + 1
  {
    1 + Before(t, |Branches(t)|)
  }

  // The number of nodes under the first n branches.
  function Before(t: Tree, n: nat): nat
    requires n <= |Branches(t)|
    decreases t, n
  {
    if n == 0 then 0 else Before(t, n - 1) + Size(t.branches[n - 1].next)
  }

  // The number of edges of the whole subtree, and of the subtrees under the first n branches.
  function EdgeCount(t: Tree): nat
    decreases t, |Branches(t)| + 1
  {
    |Branches(t)| + EdgesBefore(t, |Branches(t)|)
  }

  function EdgesBefore(t: Tree, n: nat): nat
    requires n <= |Branches(t)|
    decreases t, n
  {
    if n == 0 then 0 else EdgesBefore(t, n - 1) + EdgeCount(t.branches[n - 1].next)
  }

  // The reach probability excluding r, past a branch of probability p.
  function ReachBelow(t: Tree, r: Player, reach: real, p: real): real {
    if Moves(t, r) then reach else reach * p
  }

  // The reach probability of r alone, past a branch of probability p.
  function OwnBelow(t: Tree, r: Player, own: real, p: real): real {
    if Moves(t, r) then own * p else own
  }

  function Child(store: Store, v: Visit, a: nat): Visit
    requires a < |Branches(v.tree)|
  {
    var t := v.tree;
    var p := Odds(store, t, a);
    Visit(
      t.branches[a].next,
      v.offset + |t.branches| + EdgesBefore(t, a),
      ReachBelow(t, Player0, v.reach0, p),
      ReachBelow(t, Player1, v.reach1, p),
      if Moves(t, Player0) then v.past0 + [(t.key, a)] else v.past0,
      if Moves(t, Player1) then v.past1 + [(t.key, a)] else v.past1,
      OwnBelow(t, Player0, v.own0, p),
      OwnBelow(t, Player1, v.own1, p))
  }

  // All visits below v, in pre-order.
  function Visits(store: Store, v: Visit): (vs: seq<Visit>)
    ensures |vs| == Size(v.tree) && vs[0] == v
    decreases v.tree, |Branches(v.tree)| + 1
  {
    [v] + VisitsBefore(store, v, |Branches(v.tree)|)
  }

  function VisitsBefore(store: Store, v: Visit, n: nat): (vs: seq<Visit>)
    requires n <= |Branches(v.tree)|
    ensures |vs| == Before(v.tree, n)
    decreases v.tree, n
  {
    if n == 0 then [] else VisitsBefore(store, v, n - 1) + Visits(store, Child(store, v, n - 1))
  }

  // The edges of a subtree whose root has index i.
  function EdgesOf(store: Store, t: Tree, i: nat): (es: seq<Edge>)
    ensures |es| == EdgeCount(t)
    decreases t, |Branches(t)| + 1
  {
    OwnEdges(store, t, i) + EdgesUnder(store, t, i, |Branches(t)|)
  }

  function EdgesUnder(store: Store, t: Tree, i: nat, n: nat): (es: seq<Edge>)
    requires n <= |Branches(t)|
    ensures |es| == EdgesBefore(t, n)
    decreases t, n
  {
    if n == 0 then [] else
      EdgesUnder(store, t, i, n - 1) + EdgesOf(store, t.branches[n - 1].next, i + 1 + Before(t, n - 1))
  }

  function OwnEdges(store: Store, t: Tree, i: nat): (es: seq<Edge>)
    ensures |es| == |Branches(t)|
  {
    seq(|Branches(t)|, (a: nat) requires a < |Branches(t)| =>
      Edge(t.branches[a].action, Odds(store, t, a), i + 1 + Before(t, a)))
  }

  function NodeOf(v: Visit): Node {
    var t := v.tree;
    var kind := match t
      case Leaf(_, _) => Terminal
      case Nature(_) => Chance
      case Turn(p, key, _) => Decision(p, key);
    var offset := if t.Leaf? then 0 else v.offset;
    var u0 := if t.Leaf? then t.utility0 else 0.0;
    var u1 := if t.Leaf? then t.utility1 else 0.0;
    Node(kind, offset, |Branches(t)|, u0, u1, v.reach0, v.reach1)
  }

  function Nodes(vs: seq<Visit>): (ns: seq<Node>)
    ensures |ns| == |vs|
  {
    seq(|vs|, (i: nat) requires i < |vs| => NodeOf(vs[i]))
  }

  // ---- The layout ----

  // The elements of part are those of whole from index at on.
  ghost predicate Sits<T>(part: seq<T>, whole: seq<T>, at: nat) {
    && at + |part| <= |whole|
    && forall k: nat :: k < |part| ==> part[k] == whole[at + k]
  }

  lemma SitsWithin<T>(part: seq<T>, middle: seq<T>, whole: seq<T>, at: nat, from: nat)
    requires Sits(part, middle, at) && Sits(middle, whole, from)
    ensures Sits(part, whole, from + at)
  {
    forall k: nat | k < |part| ensures part[k] == whole[from + at + k] {
      assert middle[at + k] == whole[from + (at + k)];
    }
  }

  lemma SitsInSum<T>(a: seq<T>, b: seq<T>)
    ensures Sits(a, a + b, 0) && Sits(b, a + b, |a|)
  {
  }

  // Everything below v sits at node i onwards and edge v.offset onwards.
  ghost predicate Laid(store: Store, vs: seq<Visit>, es: seq<Edge>, v: Visit, i: nat) {
    && Sits(Visits(store, v), vs, i)
    && Sits(EdgesOf(store, v.tree, i), es, v.offset)
  }

  lemma {:induction false} VisitsUnder(store: Store, v: Visit, a: nat, n: nat)
    requires a < n <= |Branches(v.tree)|
    ensures Sits(Visits(store, Child(store, v, a)), VisitsBefore(store, v, n), Before(v.tree, a))
    decreases n
  {
    SitsInSum(VisitsBefore(store, v, n - 1), Visits(store, Child(store, v, n - 1)));
    if a < n - 1 {
      VisitsUnder(store, v, a, n - 1);
      SitsWithin(Visits(store, Child(store, v, a)), VisitsBefore(store, v, n - 1), VisitsBefore(store, v, n), Before(v.tree, a), 0);
    }
  }

  lemma SitsEarlier<T>(part: seq<T>, head: seq<T>, tail: seq<T>, at: nat)
    requires Sits(part, head, at)
    ensures Sits(part, head + tail, at)
  {
    SitsInSum(head, tail);
    SitsWithin(part, head, head + tail, at, 0);
  }

  function EdgesOfBranch(store: Store, t: Tree, i: nat, a: nat): (es: seq<Edge>)
    requires a < |Branches(t)|
  {
    EdgesOf(store, t.branches[a].next, i + 1 + Before(t, a))
  }

  lemma {:induction false} EdgesUnderBranch(store: Store, t: Tree, i: nat, a: nat, n: nat)
    requires a < n <= |Branches(t)|
    ensures Sits(EdgesOfBranch(store, t, i, a), EdgesUnder(store, t, i, n), EdgesBefore(t, a))
    decreases n
  {
    var head, tail := EdgesUnder(store, t, i, n - 1), EdgesOfBranch(store, t, i, n - 1);
    assert EdgesUnder(store, t, i, n) == head + tail;
    if a < n - 1 {
      EdgesUnderBranch(store, t, i, a, n - 1);
      SitsEarlier(EdgesOfBranch(store, t, i, a), head, tail, EdgesBefore(t, a));
    } else {
      SitsInSum(head, tail);
    }
  }

  lemma SitsBehind<T>(head: seq<T>, tail: seq<T>, part: seq<T>, at: nat)
    requires Sits(part, tail, at)
    ensures Sits(part, head + tail, |head| + at)
  {
    SitsInSum(head, tail);
    SitsWithin(part, tail, head + tail, at, |head|);
  }

  lemma KidVisitsLaid(store: Store, vs: seq<Visit>, v: Visit, i: nat, a: nat)
    requires Sits(Visits(store, v), vs, i) && a < |Branches(v.tree)|
    ensures Sits(Visits(store, Child(store, v, a)), vs, i + 1 + Before(v.tree, a))
  {
    var kid := Visits(store, Child(store, v, a));
    VisitsUnder(store, v, a, |Branches(v.tree)|);
    SitsBehind([v], VisitsBefore(store, v, |Branches(v.tree)|), kid, Before(v.tree, a));
    SitsWithin(kid, Visits(store, v), vs, 1 + Before(v.tree, a), i);
  }

  lemma KidEdgesLaid(store: Store, es: seq<Edge>, t: Tree, offset: nat, i: nat, a: nat)
    requires Sits(EdgesOf(store, t, i), es, offset) && a < |Branches(t)|
    ensures Sits(EdgesOf(store, t.branches[a].next, i + 1 + Before(t, a)), es, offset + |t.branches| + EdgesBefore(t, a))
  {
    var kid := EdgesOfBranch(store, t, i, a);
    EdgesUnderBranch(store, t, i, a, |t.branches|);
    SitsBehind(OwnEdges(store, t, i), EdgesUnder(store, t, i, |t.branches|), kid, EdgesBefore(t, a));
    EdgesAre(store, t, i);
    SitsWithin(kid, EdgesOf(store, t, i), es, |t.branches| + EdgesBefore(t, a), offset);
  }

  lemma EdgesAre(store: Store, t: Tree, i: nat)
    ensures !t.Leaf? ==> EdgesOf(store, t, i) == OwnEdges(store, t, i) + EdgesUnder(store, t, i, |t.branches|)
    ensures !t.Leaf? ==> |OwnEdges(store, t, i)| == |t.branches|
  {
  }

  lemma KidLaid(store: Store, vs: seq<Visit>, es: seq<Edge>, v: Visit, i: nat, a: nat)
    requires Laid(store, vs, es, v, i) && a < |Branches(v.tree)|
    ensures Laid(store, vs, es, Child(store, v, a), i + 1 + Before(v.tree, a))
  {
    KidVisitsLaid(store, vs, v, i, a);
    KidEdgesLaid(store, es, v.tree, v.offset, i, a);
  }

  // The edge under action a leads to the visit of that branch.
  ghost predicate EdgeOk(store: Store, vs: seq<Visit>, es: seq<Edge>, j: nat, a: nat)
    requires j < |vs| && a < |Branches(vs[j].tree)|
  {
    var w := vs[j];
    var k := j + 1 + Before(w.tree, a);
    && w.offset + a < |es|
    && es[w.offset + a] == Edge(w.tree.branches[a].action, Odds(store, w.tree, a), k)
    && k + Size(w.tree.branches[a].next) <= |vs|
    && vs[k] == Child(store, w, a)
  }

  ghost predicate VisitOk(store: Store, vs: seq<Visit>, es: seq<Edge>, j: nat)
    requires j < |vs|
  {
    && (!vs[j].tree.Leaf? ==> vs[j].offset + |Branches(vs[j].tree)| <= |es|)
    && forall a: nat :: a < |Branches(vs[j].tree)| ==> EdgeOk(store, vs, es, j, a)
  }

  lemma LaidEdge(store: Store, vs: seq<Visit>, es: seq<Edge>, v: Visit, i: nat, a: nat)
    requires Laid(store, vs, es, v, i) && a < |Branches(v.tree)|
    ensures vs[i] == v && EdgeOk(store, vs, es, i, a)
  {
    KidLaid(store, vs, es, v, i, a);
    assert vs[i] == Visits(store, v)[0];
    var k := i + 1 + Before(v.tree, a);
    assert vs[k] == Visits(store, Child(store, v, a))[0];
    assert es[v.offset + a] == EdgesOf(store, v.tree, i)[a] == OwnEdges(store, v.tree, i)[a];
  }

  // The branch whose subtree holds the m-th node below t.
  lemma {:induction false} BranchHolding(t: Tree, m: nat, n: nat) returns (a: nat)
    requires n <= |Branches(t)| && m < Before(t, n)
    ensures a < n && Before(t, a) <= m < Before(t, a) + Size(t.branches[a].next)
    decreases n
  {
    if m < Before(t, n - 1) {
      a := BranchHolding(t, m, n - 1);
    } else {
      a := n - 1;
    }
  }

  // Every visit of a laid-out tree has its edges and children where they belong.
  lemma {:induction false} Everywhere(store: Store, vs: seq<Visit>, es: seq<Edge>, v: Visit, i: nat, j: nat)
    requires Laid(store, vs, es, v, i) && i <= j < i + Size(v.tree)
    ensures VisitOk(store, vs, es, j)
    decreases v.tree
  {
    if j == i {
      assert vs[i] == Visits(store, v)[0];
      assert v.offset + |Branches(v.tree)| <= |es|;
      forall a: nat | a < |Branches(v.tree)| ensures EdgeOk(store, vs, es, i, a) {
        LaidEdge(store, vs, es, v, i, a);
      }
    } else {
      var a := BranchHolding(v.tree, j - i - 1, |Branches(v.tree)|);
      KidLaid(store, vs, es, v, i, a);
      Everywhere(store, vs, es, Child(store, v, a), i + 1 + Before(v.tree, a), j);
    }
  }
}
