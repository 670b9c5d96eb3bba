// The flattened game tree of the evaluator and the optimality theory of its best responses.
// Nodes sit in pre-order in one sequence, their edges in another; an information set is a key.
module BestResponse {
  import opened Sums

  type Key = int
  datatype Player = Player0 | Player1
  datatype Kind = Terminal | Chance | Decision(player: Player, key: Key)

  datatype Node = Node(
    kind: Kind,
    offset: nat,
    count: nat,
    utility0: real,
    utility1: real,
    reach0: real,
    reach1: real)
  datatype Edge = Edge(action: int, probability: real, child: nat)
  datatype Flat = Flat(nodes: seq<Node>, edges: seq<Edge>)

  // A behavioural strategy: the probability of each action index at each information set.
  type Strategy = (Key, nat) -> real
  // The responder's own past: which action it took at which of its information sets.
  type History = seq<(Key, nat)>

  predicate Linked(s: Flat) {
    forall i :: 0 <= i < |s.nodes| ==>
      var n := s.nodes[i];
      && (n.kind.Terminal? <==> n.count == 0)
      && n.offset + n.count <= |s.edges|
      && forall e :: n.offset <= e < n.offset + n.count ==> i < s.edges[e].child < |s.nodes|
  }

  function Kid(s: Flat, i: nat, a: nat): (k: nat)
    requires Linked(s) && i < |s.nodes| && a < s.nodes[i].count
    ensures i < k < |s.nodes|
  {
    s.edges[s.nodes[i].offset + a].child
  }

  function Probability(s: Flat, i: nat, a: nat): real
    requires Linked(s) && i < |s.nodes| && a < s.nodes[i].count
  {
    s.edges[s.nodes[i].offset + a].probability
  }

  predicate Own(s: Flat, r: Player, i: nat)
    requires i < |s.nodes|
  {
    s.nodes[i].kind.Decision? && s.nodes[i].kind.player == r
  }

  predicate Member(s: Flat, r: Player, key: Key, i: nat)
    requires i < |s.nodes|
  {
    Own(s, r, i) && s.nodes[i].kind.key == key
  }

  function Utility(s: Flat, r: Player, i: nat): real
    requires i < |s.nodes|
  {
    if r.Player0? then s.nodes[i].utility0 else s.nodes[i].utility1
  }

  // Probability that everyone but r plays to node i.
  function Reach(s: Flat, r: Player, i: nat): real
    requires i < |s.nodes|
  {
    if r.Player0? then s.nodes[i].reach0 else s.nodes[i].reach1
  }

  // One past the last index of the subtree of i.
  function End(s: Flat, i: nat): (e: nat)
    requires Linked(s) && i < |s.nodes|
    ensures i < e <= |s.nodes|
    decreases |s.nodes| - i
  {
    if s.nodes[i].count == 0 then i + 1 else End(s, Kid(s, i, s.nodes[i].count - 1))
  }

  ghost predicate PreorderAt(s: Flat, i: nat)
    requires Linked(s) && i < |s.nodes|
  {
    s.nodes[i].count > 0 ==>
      && Kid(s, i, 0) == i + 1
      && forall a: nat :: a + 1 < s.nodes[i].count ==> Kid(s, i, a + 1) == End(s, Kid(s, i, a))
  }

  ghost predicate Preorder(s: Flat) {
    && Linked(s)
    && |s.nodes| > 0
    && End(s, 0) == |s.nodes|
    && forall i: nat :: i < |s.nodes| ==> PreorderAt(s, i)
  }

  // Where the responder moves the strategy decides; elsewhere the fixed profile or chance does.
  function Weight(s: Flat, r: Player, sigma: Strategy, i: nat, a: nat): real
    requires Linked(s) && i < |s.nodes| && a < s.nodes[i].count
  {
    if Own(s, r, i) then sigma(s.nodes[i].kind.key, a) else Probability(s, i, a)
  }

  function Backed(s: Flat, r: Player, sigma: Strategy, v: seq<real>, i: nat): nat -> real
    requires Linked(s) && i < |s.nodes| == |v|
  {
    (a: nat) => if a < s.nodes[i].count then Weight(s, r, sigma, i, a) * v[Kid(s, i, a)] else 0.0
  }

  // The value of node i when its children have the values v.
  function Backup(s: Flat, r: Player, sigma: Strategy, v: seq<real>, i: nat): real
    requires Linked(s) && i < |s.nodes| == |v|
  {
    if s.nodes[i].count == 0 then Utility(s, r, i) else Sum(Backed(s, r, sigma, v, i), 0, s.nodes[i].count)
  }

  predicate ValueAt(s: Flat, r: Player, sigma: Strategy, v: seq<real>, i: nat)
    requires Linked(s) && i < |s.nodes| == |v|
  {
    v[i] == Backup(s, r, sigma, v, i)
  }

  // v is the expected utility of r at every node when r plays sigma.
  ghost predicate Values(s: Flat, r: Player, sigma: Strategy, v: seq<real>)
    requires Linked(s)
  {
    |v| == |s.nodes| && forall i: nat :: i < |s.nodes| ==> ValueAt(s, r, sigma, v, i)
  }

  predicate ArrivalAt(s: Flat, r: Player, sigma: Strategy, x: seq<real>, i: nat, a: nat)
    requires Linked(s) && i < |s.nodes| == |x| && a < s.nodes[i].count
  {
    x[Kid(s, i, a)] == x[i] * Weight(s, r, sigma, i, a)
  }

  // x is the probability of arriving at each node.
  ghost predicate Arrival(s: Flat, r: Player, sigma: Strategy, x: seq<real>)
    requires Linked(s)
  {
    && |x| == |s.nodes|
    && forall i: nat, a: nat :: i < |s.nodes| && a < s.nodes[i].count ==> ArrivalAt(s, r, sigma, x, i, a)
  }

  // The index where the children after the first n begin.
  function After(s: Flat, i: nat, n: nat): (e: nat)
    requires Linked(s) && i < |s.nodes| && n <= s.nodes[i].count
    ensures e <= |s.nodes|
  {
    if n == 0 then i + 1 else End(s, Kid(s, i, n - 1))
  }

  function OverKids(s: Flat, gap: nat -> real, i: nat): nat -> real
    requires Linked(s) && i < |s.nodes|
  {
    (a: nat) => if a < s.nodes[i].count then gap(Kid(s, i, a)) else 0.0
  }

  ghost predicate Collects(s: Flat, loss: nat -> real, gap: nat -> real, i: nat)
    requires Linked(s) && i < |s.nodes|
  {
    gap(i) == loss(i) + Sum(OverKids(s, gap, i), 0, s.nodes[i].count)
  }

  // If every node's gap is its own loss plus its children's gaps, the gap of a node is the loss
  // collected over its subtree, which in pre-order is an interval of indices.
  lemma {:induction false} Telescope(s: Flat, loss: nat -> real, gap: nat -> real, i: nat)
    requires Preorder(s) && i < |s.nodes|
    requires forall j: nat :: j < |s.nodes| ==> Collects(s, loss, gap, j)
    ensures Sum(loss, i, End(s, i)) == gap(i)
    decreases |s.nodes| - i, 1
  {
    var n := s.nodes[i].count;
    assert Collects(s, loss, gap, i);
    TelescopeKids(s, loss, gap, i, n);
    SumSplit(loss, i, i + 1, End(s, i));
    assert Sum(loss, i, i + 1) == Sum(loss, i, i) + loss(i);
  }

  lemma {:induction false} TelescopeKids(s: Flat, loss: nat -> real, gap: nat -> real, i: nat, n: nat)
    requires Preorder(s) && i < |s.nodes| && n <= s.nodes[i].count
    requires forall j: nat :: j < |s.nodes| ==> Collects(s, loss, gap, j)
    ensures i < After(s, i, n)
    ensures Sum(loss, i + 1, After(s, i, n)) == Sum(OverKids(s, gap, i), 0, n)
    decreases |s.nodes| - i, 0, n
  {
    if n > 0 {
      TelescopeKids(s, loss, gap, i, n - 1);
      var k := Kid(s, i, n - 1);
      assert PreorderAt(s, i);
      if n > 1 {
        assert Kid(s, i, (n - 2) + 1) == End(s, Kid(s, i, n - 2));
      }
      assert After(s, i, n - 1) == k;
      Telescope(s, loss, gap, k);
      SumSplit(loss, i + 1, k, End(s, k));
    }
  }

  // How much is lost at j by playing sigma once and collecting v afterwards, weighted by arrival.
  function Loss(s: Flat, r: Player, sigma: Strategy, x: seq<real>, v: seq<real>): nat -> real
    requires Linked(s) && |s.nodes| == |v| == |x|
  {
    (j: nat) => if j < |x| then x[j] * (v[j] - Backup(s, r, sigma, v, j)) else 0.0
  }

  function Gap(x: seq<real>, v: seq<real>, val: seq<real>): nat -> real
    requires |x| == |v| == |val|
  {
    (j: nat) => if j < |x| then x[j] * (v[j] - val[j]) else 0.0
  }

  lemma GapStep(x: real, v: real, b: real, val: real, b': real, kids: real)
    requires val == b' && kids == x * b + (-x) * b'
    ensures x * (v - val) == x * (v - b) + kids
  {
  }

  lemma GapKid(x: real, w: real, y: real, v: real, val: real)
    requires y == x * w
    ensures y * (v - val) == x * (w * v) + (-x) * (w * val)
  {
  }

  lemma GapOfKid(s: Flat, r: Player, sigma: Strategy, x: seq<real>, v: seq<real>, val: seq<real>, i: nat, a: nat)
    requires Linked(s) && i < |s.nodes| == |v| == |val| && a < s.nodes[i].count
    requires Arrival(s, r, sigma, x)
    ensures OverKids(s, Gap(x, v, val), i)(a)
         == x[i] * Backed(s, r, sigma, v, i)(a) + (-x[i]) * Backed(s, r, sigma, val, i)(a)
  {
    assert ArrivalAt(s, r, sigma, x, i, a);
    var k := Kid(s, i, a);
    GapKid(x[i], Weight(s, r, sigma, i, a), x[k], v[k], val[k]);
  }

  lemma GapOfKids(s: Flat, r: Player, sigma: Strategy, x: seq<real>, v: seq<real>, val: seq<real>, i: nat)
    requires Linked(s) && i < |s.nodes| == |v| == |val|
    requires Arrival(s, r, sigma, x)
    ensures var n := s.nodes[i].count;
      Sum(OverKids(s, Gap(x, v, val), i), 0, n)
      == x[i] * Sum(Backed(s, r, sigma, v, i), 0, n) + (-x[i]) * Sum(Backed(s, r, sigma, val, i), 0, n)
  {
    var n := s.nodes[i].count;
    forall a: nat | a < n
      ensures OverKids(s, Gap(x, v, val), i)(a)
           == x[i] * Backed(s, r, sigma, v, i)(a) + (-x[i]) * Backed(s, r, sigma, val, i)(a)
    {
      GapOfKid(s, r, sigma, x, v, val, i, a);
    }
    SumLinear(Backed(s, r, sigma, v, i), Backed(s, r, sigma, val, i), OverKids(s, Gap(x, v, val), i), x[i], -x[i], 0, n);
  }

  // The gap between v and the value of sigma satisfies the premise of Telescope.
  lemma GapCollects(s: Flat, r: Player, sigma: Strategy, x: seq<real>, v: seq<real>, val: seq<real>, i: nat)
    requires Linked(s) && i < |s.nodes| == |v|
    requires Arrival(s, r, sigma, x) && Values(s, r, sigma, val)
    ensures Collects(s, Loss(s, r, sigma, x, v), Gap(x, v, val), i)
  {
    assert ValueAt(s, r, sigma, val, i);
    var b, b' := Backup(s, r, sigma, v, i), Backup(s, r, sigma, val, i);
    var kids := Sum(OverKids(s, Gap(x, v, val), i), 0, s.nodes[i].count);
    if s.nodes[i].count > 0 {
      GapOfKids(s, r, sigma, x, v, val, i);
    }
    GapStep(x[i], v[i], b, val[i], b', kids);
  }

  // ---- Perfect recall and the responder's share of an arrival probability ----

  predicate HistoryAt(s: Flat, r: Player, h: seq<History>, i: nat, a: nat)
    requires Linked(s) && i < |s.nodes| == |h| && a < s.nodes[i].count
  {
    h[Kid(s, i, a)] == if Own(s, r, i) then h[i] + [(s.nodes[i].kind.key, a)] else h[i]
  }

  // h is the responder's past at every node.
  ghost predicate Histories(s: Flat, r: Player, h: seq<History>)
    requires Linked(s)
  {
    && |h| == |s.nodes| > 0
    && h[0] == []
    && forall i: nat, a: nat :: i < |s.nodes| && a < s.nodes[i].count ==> HistoryAt(s, r, h, i, a)
  }

  // The responder never forgets: nodes it cannot tell apart share its whole past.
  ghost predicate PerfectRecall(s: Flat, r: Player, h: seq<History>)
    requires |h| == |s.nodes|
  {
    forall i: nat, j: nat :: i < |s.nodes| && j < |s.nodes| && Own(s, r, i) && s.nodes[i].kind == s.nodes[j].kind
      ==> h[i] == h[j]
  }

  predicate ReachAt(s: Flat, r: Player, i: nat, a: nat)
    requires Linked(s) && i < |s.nodes| && a < s.nodes[i].count
  {
    Reach(s, r, Kid(s, i, a)) == if Own(s, r, i) then Reach(s, r, i) else Reach(s, r, i) * Probability(s, i, a)
  }

  ghost predicate Reaches(s: Flat, r: Player)
    requires Linked(s)
  {
    && |s.nodes| > 0
    && Reach(s, r, 0) == 1.0
    && forall i: nat, a: nat :: i < |s.nodes| && a < s.nodes[i].count ==> ReachAt(s, r, i, a)
  }

  // The probability that sigma takes every step of the history.
  function Plays(sigma: Strategy, h: History): real {
    if h == [] then 1.0
    else
      var last := h[|h| - 1];
      Plays(sigma, h[..|h| - 1]) * sigma(last.0, last.1)
  }

  function Arrivals(s: Flat, r: Player, sigma: Strategy, h: seq<History>): (x: seq<real>)
    requires |h| == |s.nodes|
    ensures |x| == |s.nodes|
  {
    seq(|s.nodes|, (i: nat) requires i < |s.nodes| == |h| => Reach(s, r, i) * Plays(sigma, h[i]))
  }

  lemma ArrivalsArriveAt(s: Flat, r: Player, sigma: Strategy, h: seq<History>, i: nat, a: nat)
    requires Linked(s) && Histories(s, r, h) && Reaches(s, r)
    requires i < |s.nodes| && a < s.nodes[i].count
    ensures ArrivalAt(s, r, sigma, Arrivals(s, r, sigma, h), i, a)
  {
    assert HistoryAt(s, r, h, i, a) && ReachAt(s, r, i, a);
    var k := Kid(s, i, a);
    if Own(s, r, i) {
      assert h[k][..|h[k]| - 1] == h[i];
    }
  }

  lemma ArrivalsArrive(s: Flat, r: Player, sigma: Strategy, h: seq<History>)
    requires Linked(s) && Histories(s, r, h) && Reaches(s, r)
    ensures Arrival(s, r, sigma, Arrivals(s, r, sigma, h))
  {
    forall i: nat, a: nat | i < |s.nodes| && a < s.nodes[i].count
      ensures ArrivalAt(s, r, sigma, Arrivals(s, r, sigma, h), i, a)
    {
      ArrivalsArriveAt(s, r, sigma, h, i, a);
    }
  }

  // ---- What a solved workspace holds ----

  // The deterministic strategy that takes the selected action at every information set.
  function Pure(choice: map<Key, nat>): Strategy {
    (k: Key, a: nat) => if k in choice && choice[k] == a then 1.0 else 0.0
  }

  // Member j's share of the total of action a at the information set.
  function Share(s: Flat, r: Player, v: seq<real>, key: Key, a: nat): nat -> real
    requires Linked(s) && |s.nodes| == |v|
  {
    (j: nat) => if j < |v| && Member(s, r, key, j) && a < s.nodes[j].count then Reach(s, r, j) * v[Kid(s, j, a)] else 0.0
  }

  function Total(s: Flat, r: Player, v: seq<real>, key: Key, a: nat): real
    requires Linked(s) && |s.nodes| == |v|
  {
    Sum(Share(s, r, v, key, a), 0, |v|)
  }

  ghost predicate Chosen(s: Flat, r: Player, v: seq<real>, choice: map<Key, nat>, i: nat)
    requires Linked(s) && i < |s.nodes| == |v|
  {
    Own(s, r, i) ==>
      var key := s.nodes[i].kind.key;
      && key in choice
      && choice[key] < s.nodes[i].count
      && forall a: nat :: a < s.nodes[i].count ==> Total(s, r, v, key, a) <= Total(s, r, v, key, choice[key])
  }

  // v is the value of the selected strategy, and at every information set no other action has a
  // larger reach-weighted total under v.
  ghost predicate Solved(s: Flat, r: Player, v: seq<real>, choice: map<Key, nat>)
    requires Linked(s)
  {
    && Values(s, r, Pure(choice), v)
    && forall i: nat :: i < |s.nodes| ==> Chosen(s, r, v, choice, i)
  }

  // All nodes of an information set offer the same number of actions.
  ghost predicate SameActions(s: Flat) {
    forall i: nat, j: nat :: i < |s.nodes| && j < |s.nodes| && s.nodes[i].kind.Decision? && s.nodes[i].kind == s.nodes[j].kind
      ==> s.nodes[i].count == s.nodes[j].count
  }

  function At(sigma: Strategy, key: Key): nat -> real {
    (a: nat) => sigma(key, a)
  }

  // sigma is a probability distribution at each information set of r.
  ghost predicate IsStrategy(s: Flat, r: Player, sigma: Strategy) {
    forall i: nat :: i < |s.nodes| && Own(s, r, i) ==> Distribution(sigma, s.nodes[i].kind.key, s.nodes[i].count)
  }

  ghost predicate Distribution(sigma: Strategy, key: Key, n: nat) {
    && (forall a: nat :: a < n ==> sigma(key, a) >= 0.0)
    && Sum(At(sigma, key), 0, n) == 1.0
  }

  // ---- Optimality ----

  // Where the responder does not move, v loses nothing.
  lemma NoLossElsewhere(s: Flat, r: Player, sigma: Strategy, choice: map<Key, nat>, x: seq<real>, v: seq<real>, j: nat)
    requires Linked(s) && j < |s.nodes| == |x| && !Own(s, r, j)
    requires Values(s, r, Pure(choice), v)
    ensures Loss(s, r, sigma, x, v)(j) == 0.0
  {
    assert ValueAt(s, r, Pure(choice), v, j);
    SumExt(Backed(s, r, sigma, v, j), Backed(s, r, Pure(choice), v, j), 0, s.nodes[j].count);
  }

  // At its own nodes v follows the selected edge.
  lemma FollowsChoice(s: Flat, r: Player, choice: map<Key, nat>, v: seq<real>, j: nat)
    requires Linked(s) && j < |s.nodes| && Own(s, r, j)
    requires Values(s, r, Pure(choice), v)
    requires s.nodes[j].kind.key in choice && choice[s.nodes[j].kind.key] < s.nodes[j].count
    ensures v[j] == v[Kid(s, j, choice[s.nodes[j].kind.key])]
  {
    assert ValueAt(s, r, Pure(choice), v, j);
    SumOnly(Backed(s, r, Pure(choice), v, j), choice[s.nodes[j].kind.key], 0, s.nodes[j].count);
  }

  // What member j contributes to the regret of playing action a rather than c, times sigma(a).
  function Advantage(s: Flat, r: Player, sigma: Strategy, v: seq<real>, key: Key, c: nat): (nat, nat) -> real
    requires Linked(s) && |s.nodes| == |v|
  {
    (a: nat, j: nat) => sigma(key, a) * (Share(s, r, v, key, c)(j) - Share(s, r, v, key, a)(j))
  }

  function LossIn(s: Flat, r: Player, sigma: Strategy, x: seq<real>, v: seq<real>, key: Key): nat -> real
    requires Linked(s) && |s.nodes| == |v| == |x|
  {
    (j: nat) => if j < |x| && Member(s, r, key, j) then Loss(s, r, sigma, x, v)(j) else 0.0
  }

  lemma ScaledGap(x: real, c: real, p: real, v: real, b: real, total: real, loss: real)
    requires x == c * p && total == (c * v) * 1.0 + (-c) * b && loss == x * (v - b)
    ensures loss == p * total
  {
    assert total == c * (v - b);
  }

  lemma SharedTerm(w: real, c: real, best: real, kid: real, chosen: real, other: real, term: real, product: real)
    requires chosen == c * best && other == c * kid && term == w * (chosen - other) && product == w * kid
    ensures term == (c * best) * w + (-c) * product
  {
  }

  lemma AdvantageOfMember(s: Flat, r: Player, sigma: Strategy, v: seq<real>, key: Key, c: nat, a: nat, j: nat)
    requires Linked(s) && j < |s.nodes| == |v| && Member(s, r, key, j)
    requires a < s.nodes[j].count && c < s.nodes[j].count
    ensures Column(Advantage(s, r, sigma, v, key, c), j)(a)
         == (Reach(s, r, j) * v[Kid(s, j, c)]) * At(sigma, key)(a) + (-Reach(s, r, j)) * Backed(s, r, sigma, v, j)(a)
  {
    var f := Advantage(s, r, sigma, v, key, c);
    var chosen, other := Share(s, r, v, key, c)(j), Share(s, r, v, key, a)(j);
    assert Column(f, j)(a) == f(a, j);
    assert f(a, j) == sigma(key, a) * (chosen - other);
    SharedTerm(sigma(key, a), Reach(s, r, j), v[Kid(s, j, c)], v[Kid(s, j, a)], chosen, other, f(a, j),
               Backed(s, r, sigma, v, j)(a));
  }

  lemma AdvantagesOfMember(s: Flat, r: Player, sigma: Strategy, v: seq<real>, key: Key, c: nat, j: nat)
    requires Linked(s) && j < |s.nodes| == |v| && Member(s, r, key, j) && c < s.nodes[j].count
    requires Distribution(sigma, key, s.nodes[j].count)
    ensures ColumnSums(Advantage(s, r, sigma, v, key, c), s.nodes[j].count)(j)
         == (Reach(s, r, j) * v[Kid(s, j, c)]) * 1.0
            + (-Reach(s, r, j)) * Sum(Backed(s, r, sigma, v, j), 0, s.nodes[j].count)
  {
    var n, column := s.nodes[j].count, Column(Advantage(s, r, sigma, v, key, c), j);
    var backed := Backed(s, r, sigma, v, j);
    var top, bottom := Reach(s, r, j) * v[Kid(s, j, c)], -Reach(s, r, j);
    forall a: nat | a < n ensures column(a) == top * At(sigma, key)(a) + bottom * backed(a) {
      AdvantageOfMember(s, r, sigma, v, key, c, a, j);
    }
    SumLinear(At(sigma, key), backed, column, top, bottom, 0, n);
  }

  // The loss at one member is its share of every action's regret.
  lemma LossOfMember(s: Flat, r: Player, sigma: Strategy, h: seq<History>, choice: map<Key, nat>, v: seq<real>, j: nat, p: real)
    requires Linked(s) && j < |s.nodes| == |h| && Own(s, r, j)
    requires Solved(s, r, v, choice) && IsStrategy(s, r, sigma)
    requires p == Plays(sigma, h[j])
    ensures var key, n := s.nodes[j].kind.key, s.nodes[j].count;
      && key in choice
      && Loss(s, r, sigma, Arrivals(s, r, sigma, h), v)(j)
         == p * ColumnSums(Advantage(s, r, sigma, v, key, choice[key]), n)(j)
  {
    var key, n := s.nodes[j].kind.key, s.nodes[j].count;
    assert Chosen(s, r, v, choice, j);
    FollowsChoice(s, r, choice, v, j);
    assert Distribution(sigma, key, n);
    AdvantagesOfMember(s, r, sigma, v, key, choice[key], j);
    ScaledGap(Arrivals(s, r, sigma, h)[j], Reach(s, r, j), p, v[j], Sum(Backed(s, r, sigma, v, j), 0, n),
              ColumnSums(Advantage(s, r, sigma, v, key, choice[key]), n)(j),
              Loss(s, r, sigma, Arrivals(s, r, sigma, h), v)(j));
  }

  lemma AdvantageSpread(s: Flat, r: Player, sigma: Strategy, v: seq<real>, key: Key, c: nat, a: nat, j: nat)
    requires Linked(s) && |s.nodes| == |v|
    ensures var w := sigma(key, a);
      Row(Advantage(s, r, sigma, v, key, c), a)(j) == w * Share(s, r, v, key, c)(j) + (-w) * Share(s, r, v, key, a)(j)
  {
  }

  // Summed over the members, the advantage of the selected action over any other is not negative.
  lemma AdvantageOfAction(s: Flat, r: Player, sigma: Strategy, v: seq<real>, key: Key, c: nat, a: nat)
    requires Linked(s) && |s.nodes| == |v| && sigma(key, a) >= 0.0
    requires Total(s, r, v, key, a) <= Total(s, r, v, key, c)
    ensures 0.0 <= RowSums(Advantage(s, r, sigma, v, key, c), |v|)(a)
  {
    var f, w := Advantage(s, r, sigma, v, key, c), sigma(key, a);
    var chosen, other := Share(s, r, v, key, c), Share(s, r, v, key, a);
    forall j: nat | j < |v| ensures Row(f, a)(j) == w * chosen(j) + (-w) * other(j) {
      AdvantageSpread(s, r, sigma, v, key, c, a, j);
    }
    SumGap(chosen, other, Row(f, a), w, |v|);
  }

  lemma AdvantageElsewhere(s: Flat, r: Player, sigma: Strategy, v: seq<real>, key: Key, c: nat, j: nat, n: nat)
    requires Linked(s) && j < |s.nodes| == |v| && !Member(s, r, key, j)
    ensures ColumnSums(Advantage(s, r, sigma, v, key, c), n)(j) == 0.0
  {
    var f := Advantage(s, r, sigma, v, key, c);
    forall a: nat | a < n ensures Column(f, j)(a) == 0.0 {
      assert Share(s, r, v, key, c)(j) == 0.0 == Share(s, r, v, key, a)(j);
      assert Column(f, j)(a) == f(a, j);
    }
    SumZero(Column(f, j), 0, n);
  }

  lemma LossIsAdvantage(s: Flat, r: Player, sigma: Strategy, h: seq<History>, choice: map<Key, nat>, v: seq<real>, i: nat, j: nat)
    requires Linked(s) && |h| == |s.nodes| && PerfectRecall(s, r, h) && SameActions(s)
    requires Solved(s, r, v, choice) && IsStrategy(s, r, sigma)
    requires i < |s.nodes| && Own(s, r, i) && j < |s.nodes|
    requires s.nodes[i].kind.key in choice
    ensures var key := s.nodes[i].kind.key;
      LossIn(s, r, sigma, Arrivals(s, r, sigma, h), v, key)(j)
      == Plays(sigma, h[i]) * ColumnSums(Advantage(s, r, sigma, v, key, choice[key]), s.nodes[i].count)(j)
  {
    var key := s.nodes[i].kind.key;
    if Member(s, r, key, j) {
      assert h[i] == h[j] && s.nodes[i].count == s.nodes[j].count;
      LossOfMember(s, r, sigma, h, choice, v, j, Plays(sigma, h[i]));
    } else {
      AdvantageElsewhere(s, r, sigma, v, key, choice[key], j, s.nodes[i].count);
    }
  }

  // Losses at one information set add up to something non-negative: each member weighs in with
  // the same probability of the responder's own past, and the selected action is best in total.
  lemma InformationSetLoss(s: Flat, r: Player, sigma: Strategy, h: seq<History>, choice: map<Key, nat>, v: seq<real>, i: nat)
    requires Linked(s) && |h| == |s.nodes| && PerfectRecall(s, r, h) && SameActions(s)
    requires Solved(s, r, v, choice) && IsStrategy(s, r, sigma)
    requires i < |s.nodes| && Own(s, r, i) && Plays(sigma, h[i]) >= 0.0
    ensures Sum(LossIn(s, r, sigma, Arrivals(s, r, sigma, h), v, s.nodes[i].kind.key), 0, |v|) >= 0.0
  {
    var key, n, p := s.nodes[i].kind.key, s.nodes[i].count, Plays(sigma, h[i]);
    assert Chosen(s, r, v, choice, i);
    assert Distribution(sigma, key, n);
    var f := Advantage(s, r, sigma, v, key, choice[key]);
    var losses := LossIn(s, r, sigma, Arrivals(s, r, sigma, h), v, key);
    forall j: nat | j < |v| ensures losses(j) == p * ColumnSums(f, n)(j) {
      LossIsAdvantage(s, r, sigma, h, choice, v, i, j);
    }
    forall a: nat | a < n ensures 0.0 <= RowSums(f, |v|)(a) {
      AdvantageOfAction(s, r, sigma, v, key, choice[key], a);
    }
    SwappedIsNonNegative(losses, f, n, |v|, p);
  }

  lemma SwappedIsNonNegative(losses: nat -> real, f: (nat, nat) -> real, n: nat, m: nat, p: real)
    requires p >= 0.0
    requires forall j: nat :: j < m ==> losses(j) == p * ColumnSums(f, n)(j)
    requires forall a: nat :: a < n ==> 0.0 <= RowSums(f, m)(a)
    ensures Sum(losses, 0, m) >= 0.0
  {
    SumScale(ColumnSums(f, n), losses, p, 0, m);
    SumSwap(f, n, m);
    SumNonNegative(RowSums(f, m), 0, n);
  }

  lemma PlaysAtKid(s: Flat, r: Player, sigma: Strategy, h: seq<History>, i: nat, a: nat)
    requires Linked(s) && Histories(s, r, h) && IsStrategy(s, r, sigma)
    requires i < |s.nodes| && a < s.nodes[i].count && Plays(sigma, h[i]) >= 0.0
    ensures Plays(sigma, h[Kid(s, i, a)]) >= 0.0
  {
    assert HistoryAt(s, r, h, i, a);
    var k := Kid(s, i, a);
    if Own(s, r, i) {
      assert Distribution(sigma, s.nodes[i].kind.key, s.nodes[i].count);
      assert h[k][..|h[k]| - 1] == h[i];
    }
  }

  // The child of i whose subtree holds j.
  lemma TowardsKid(s: Flat, i: nat, j: nat) returns (a: nat)
    requires Preorder(s) && i < j < |s.nodes| && j < End(s, i)
    ensures a < s.nodes[i].count && Kid(s, i, a) <= j < End(s, Kid(s, i, a))
  {
    a := 0;
    assert PreorderAt(s, i);
    while j >= End(s, Kid(s, i, a))
      invariant a < s.nodes[i].count && Kid(s, i, a) <= j
      decreases s.nodes[i].count - a
    {
      assert Kid(s, i, a + 1) == End(s, Kid(s, i, a));
      a := a + 1;
    }
  }

  // The node below m, and the action there, that leads straight to i.
  lemma {:induction false} ParentBelow(s: Flat, m: nat, i: nat) returns (p: nat, a: nat)
    requires Preorder(s) && m < i < |s.nodes| && i < End(s, m)
    ensures p < i && a < s.nodes[p].count && Kid(s, p, a) == i
    decreases |s.nodes| - m
  {
    p := m;
    a := TowardsKid(s, m, i);
    if Kid(s, m, a) < i {
      p, a := ParentBelow(s, Kid(s, m, a), i);
    }
  }

  // Every node but the root is the child of exactly the node found here.
  lemma ParentOf(s: Flat, i: nat) returns (p: nat, a: nat)
    requires Preorder(s) && 0 < i < |s.nodes|
    ensures p < i && a < s.nodes[p].count && Kid(s, p, a) == i
  {
    p, a := ParentBelow(s, 0, i);
  }

  lemma {:induction false} PlaysNonNegative(s: Flat, r: Player, sigma: Strategy, h: seq<History>, i: nat)
    requires Preorder(s) && Histories(s, r, h) && IsStrategy(s, r, sigma) && i < |s.nodes|
    ensures Plays(sigma, h[i]) >= 0.0
  {
    if i > 0 {
      var p, a := ParentOf(s, i);
      PlaysNonNegative(s, r, sigma, h, p);
      PlaysAtKid(s, r, sigma, h, p, a);
    }
  }

  // A past move was made at some earlier node of that information set, with the past so far.
  lemma {:induction false} PastNode(s: Flat, r: Player, h: seq<History>, i: nat, k: nat) returns (j: nat)
    requires Preorder(s) && Histories(s, r, h) && i < |s.nodes| && k < |h[i]|
    ensures j < i && Member(s, r, h[i][k].0, j) && h[j] == h[i][..k]
    decreases i
  {
    var p, a := ParentOf(s, i);
    assert HistoryAt(s, r, h, p, a);
    if k < |h[p]| {
      j := PastNode(s, r, h, p, k);
      assert h[i][..k] == h[p][..k];
    } else {
      j := p;
      assert h[i][..k] == h[p];
    }
  }

  // With perfect recall no path of the tree meets an information set twice.
  lemma NeverAgain(s: Flat, r: Player, h: seq<History>, i: nat, k: nat)
    requires Preorder(s) && Histories(s, r, h) && PerfectRecall(s, r, h)
    requires i < |s.nodes| && Own(s, r, i) && k < |h[i]|
    ensures h[i][k].0 != s.nodes[i].kind.key
  {
    var j := PastNode(s, r, h, i, k);
    assert |h[j]| == k < |h[i]|;
  }

  // ---- Regrouping the losses by information set ----

  // keys lists each information set of r exactly once, possibly among others.
  ghost predicate Lists(s: Flat, r: Player, keys: seq<Key>) {
    && (forall g: nat, g': nat :: g < g' < |keys| ==> keys[g] != keys[g'])
    && (forall i: nat :: i < |s.nodes| && Own(s, r, i) ==> s.nodes[i].kind.key in keys)
  }

  function LossAt(s: Flat, r: Player, sigma: Strategy, x: seq<real>, v: seq<real>, keys: seq<Key>): (nat, nat) -> real
    requires Linked(s) && |s.nodes| == |v| == |x|
  {
    (g: nat, j: nat) => if g < |keys| then LossIn(s, r, sigma, x, v, keys[g])(j) else 0.0
  }

  lemma LossOfOneKey(s: Flat, r: Player, sigma: Strategy, choice: map<Key, nat>, x: seq<real>, v: seq<real>, keys: seq<Key>, j: nat)
    requires Linked(s) && j < |s.nodes| == |x|
    requires Values(s, r, Pure(choice), v) && Lists(s, r, keys)
    ensures ColumnSums(LossAt(s, r, sigma, x, v, keys), |keys|)(j) == Loss(s, r, sigma, x, v)(j)
  {
    var f := LossAt(s, r, sigma, x, v, keys);
    var column := Column(f, j);
    forall g: nat | g < |keys| ensures column(g) == LossIn(s, r, sigma, x, v, keys[g])(j) {
      assert column(g) == f(g, j);
    }
    if Own(s, r, j) {
      var g: nat :| g < |keys| && keys[g] == s.nodes[j].kind.key;
      forall g': nat | g' < |keys| && g' != g ensures column(g') == 0.0 {
        assert keys[g'] != keys[g];
        assert !Member(s, r, keys[g'], j);
        assert LossIn(s, r, sigma, x, v, keys[g'])(j) == 0.0;
        assert column(g') == LossIn(s, r, sigma, x, v, keys[g'])(j);
      }
      SumOnly(column, g, 0, |keys|);
    } else {
      NoLossElsewhere(s, r, sigma, choice, x, v, j);
      SumZero(column, 0, |keys|);
    }
  }

  lemma RowsAreNonNegative(losses: nat -> real, f: (nat, nat) -> real, n: nat, m: nat)
    requires forall j: nat :: j < m ==> losses(j) == ColumnSums(f, n)(j)
    requires forall g: nat :: g < n ==> 0.0 <= RowSums(f, m)(g)
    ensures Sum(losses, 0, m) >= 0.0
  {
    SumExt(losses, ColumnSums(f, n), 0, m);
    SumSwap(f, n, m);
    SumNonNegative(RowSums(f, m), 0, n);
  }

  lemma LossOfListedKey(s: Flat, r: Player, sigma: Strategy, h: seq<History>, choice: map<Key, nat>, v: seq<real>, keys: seq<Key>, g: nat)
    requires Preorder(s) && Histories(s, r, h) && PerfectRecall(s, r, h) && SameActions(s)
    requires Solved(s, r, v, choice) && IsStrategy(s, r, sigma) && Lists(s, r, keys) && g < |keys|
    ensures 0.0 <= RowSums(LossAt(s, r, sigma, Arrivals(s, r, sigma, h), v, keys), |v|)(g)
  {
    var x := Arrivals(s, r, sigma, h);
    var f, losses := LossAt(s, r, sigma, x, v, keys), LossIn(s, r, sigma, x, v, keys[g]);
    if i: nat :| i < |s.nodes| && Member(s, r, keys[g], i) {
      PlaysNonNegative(s, r, sigma, h, i);
      InformationSetLoss(s, r, sigma, h, choice, v, i);
    } else {
      SumZero(losses, 0, |v|);
    }
    forall j: nat | j < |v| ensures Row(f, g)(j) == losses(j) {
      assert Row(f, g)(j) == f(g, j);
    }
    SumExt(Row(f, g), losses, 0, |v|);
  }

  lemma LossesNonNegative(s: Flat, r: Player, sigma: Strategy, h: seq<History>, choice: map<Key, nat>, v: seq<real>, keys: seq<Key>)
    requires Preorder(s) && Histories(s, r, h) && PerfectRecall(s, r, h) && SameActions(s)
    requires Solved(s, r, v, choice) && IsStrategy(s, r, sigma) && Lists(s, r, keys)
    ensures Sum(Loss(s, r, sigma, Arrivals(s, r, sigma, h), v), 0, |v|) >= 0.0
  {
    var x := Arrivals(s, r, sigma, h);
    var f := LossAt(s, r, sigma, x, v, keys);
    var losses := Loss(s, r, sigma, x, v);
    forall j: nat | j < |v| ensures losses(j) == ColumnSums(f, |keys|)(j) {
      LossOfOneKey(s, r, sigma, choice, x, v, keys, j);
    }
    forall g: nat | g < |keys| ensures 0.0 <= RowSums(f, |v|)(g) {
      LossOfListedKey(s, r, sigma, h, choice, v, keys, g);
    }
    RowsAreNonNegative(losses, f, |keys|, |v|);
  }

  // A solved workspace holds the largest root value any strategy of r can achieve against the
  // fixed opponent: no behavioural strategy, pure or mixed, does better.
  lemma SolvedIsOptimal(s: Flat, r: Player, h: seq<History>, choice: map<Key, nat>, v: seq<real>, keys: seq<Key>,
                        sigma: Strategy, val: seq<real>)
    requires Preorder(s) && Reaches(s, r) && Histories(s, r, h) && PerfectRecall(s, r, h) && SameActions(s)
    requires Solved(s, r, v, choice) && Lists(s, r, keys)
    requires IsStrategy(s, r, sigma) && Values(s, r, sigma, val)
    ensures val[0] <= v[0]
  {
    var x := Arrivals(s, r, sigma, h);
    ArrivalsArrive(s, r, sigma, h);
    forall j: nat | j < |s.nodes|
      ensures Collects(s, Loss(s, r, sigma, x, v), Gap(x, v, val), j)
    {
      GapCollects(s, r, sigma, x, v, val, j);
    }
    Telescope(s, Loss(s, r, sigma, x, v), Gap(x, v, val), 0);
    LossesNonNegative(s, r, sigma, h, choice, v, keys);
    assert x[0] == 1.0;
  }

  lemma PureIsStrategy(s: Flat, r: Player, choice: map<Key, nat>, v: seq<real>)
    requires Linked(s) && Solved(s, r, v, choice)
    ensures IsStrategy(s, r, Pure(choice))
  {
    forall i: nat | i < |s.nodes| && Own(s, r, i)
      ensures Distribution(Pure(choice), s.nodes[i].kind.key, s.nodes[i].count)
    {
      assert Chosen(s, r, v, choice, i);
      SumOnly(At(Pure(choice), s.nodes[i].kind.key), choice[s.nodes[i].kind.key], 0, s.nodes[i].count);
    }
  }

  // A strategy has only one value at each node.
  lemma {:induction false} ValuesUnique(s: Flat, r: Player, sigma: Strategy, v: seq<real>, w: seq<real>, i: nat)
    requires Linked(s) && Values(s, r, sigma, v) && Values(s, r, sigma, w) && i < |s.nodes|
    ensures v[i] == w[i]
    decreases |s.nodes| - i
  {
    assert ValueAt(s, r, sigma, v, i) && ValueAt(s, r, sigma, w, i);
    forall a: nat | a < s.nodes[i].count ensures Backed(s, r, sigma, v, i)(a) == Backed(s, r, sigma, w, i)(a) {
      ValuesUnique(s, r, sigma, v, w, Kid(s, i, a));
    }
    SumExt(Backed(s, r, sigma, v, i), Backed(s, r, sigma, w, i), 0, s.nodes[i].count);
  }
}
