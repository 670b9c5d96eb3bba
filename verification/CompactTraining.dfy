// Training on the compacted blackjack game: whole iterations of CFR and CFR+, whose effect on the sums is that
// of traversing the uncompacted game.
module CompactTraining {
  import opened BlackjackRules
  import opened CompactBlackjack
  import CompactGraph
  import RegretMatching
  import opened Sums

  datatype Status = Success | InvalidArgument | NumericError

  // The sums of one information set.
  datatype NodeSums = NodeSums(regrets: seq<real>, averages: seq<real>)

  type Learned = map<int, NodeSums>

  ghost predicate Sound(x: Learned) {
    forall k :: k in x ==> NodeSound(x[k])
  }

  predicate NodeSound(s: NodeSums) {
    0 < |s.regrets| == |s.averages|
  }

  // ---- What one iteration does, said of the uncompacted game ----

  // The strategies in play: regret matching on the regrets.
  function PolicyOf(x: Learned): Policy {
    (key: int, a: nat) =>
      if key in x && a < |x[key].regrets| then RegretMatching.Match(x[key].regrets)[a] else 0.0
  }

  // A position at which the player is to move.
  ghost predicate Decision(p: Position) {
    Reachable(p) && p.active < |p.hands| && p.phase == PlayerTurn
  }

  ghost predicate Met(key: int) {
    exists p :: Decision(p) && InformationKey(p) == key
  }

  // Every decision has its sums, one of each kind for each of its actions.
  ghost predicate Fits(x: Learned) {
    forall p :: Decision(p) ==> FitsAt(x, p)
  }

  ghost predicate FitsAt(x: Learned, p: Position)
    requires p.active < |p.hands|
  {
    InformationKey(p) in x && |x[InformationKey(p)].regrets| == ActionCount(p)
  }

  function Weighing(number: nat, plus: bool): real {
    if plus then number as real else 1.0
  }

  ghost function RegretChanges(x: Learned, key: int, n: nat): (d: seq<real>)
    ensures |d| == n
  {
    seq(n, (a: nat) requires a < n => CompactGraph.RawRegret(PolicyOf(x), key, a))
  }

  ghost function StrategyChanges(x: Learned, key: int, weight: real, n: nat): (d: seq<real>)
    ensures |d| == n
  {
    seq(n, (a: nat) requires a < n => Times(weight, CompactGraph.RawStrategy(PolicyOf(x), key, a)))
  }

  // Every information set takes in what a traversal of the uncompacted game adds up for it.
  ghost function RawStep(x: Learned, number: nat, plus: bool): Learned
    requires Sound(x)
  {
    map k | k in x :: if Met(k) then SteppedAt(x, k, number, plus) else x[k]
  }

  ghost function SteppedAt(x: Learned, k: int, number: nat, plus: bool): NodeSums
    requires Sound(x) && k in x
  {
    assert NodeSound(x[k]);
    var n := |x[k].regrets|;
    NodeSums(RegretMatching.Commit(x[k].regrets, RegretChanges(x, k, n), plus),
             RegretMatching.Plus(x[k].averages, StrategyChanges(x, k, Weighing(number, plus), n)))
  }

  // No strategy sum would become negative.
  ghost predicate Accepts(x: Learned, number: nat, plus: bool) {
    forall k :: k in x && Met(k) ==> AcceptsAt(x, k, number, plus)
  }

  ghost predicate AcceptsAt(x: Learned, k: int, number: nat, plus: bool)
    requires k in x
  {
    var n := |x[k].regrets|;
    var d := StrategyChanges(x, k, Weighing(number, plus), n);
    |x[k].averages| == n ==> RegretMatching.Allowed(x[k].averages, d)
  }

  datatype Iterated = Iterated(status: Status, sums: Learned)

  ghost function RawIteration(x: Learned, number: nat, plus: bool): (o: Iterated)
    requires Sound(x)
    ensures Sound(o.sums)
  {
    if number == 0 || !Fits(x) then Iterated(Status.InvalidArgument, x)
    else if !Accepts(x, number, plus) then Iterated(NumericError, x)
    else Iterated(Success, RawStep(x, number, plus))
  }

  // Action by action: every information set that occurs has had the game's increments added to its sums, a regret being
  // zero instead of negative if the variant clamps; the others are as they were.
  ghost predicate Learns(x: Learned, x': Learned, number: nat, plus: bool) {
    && x'.Keys == x.Keys
    && (forall k :: k in x && !Met(k) ==> x'[k] == x[k])
    && (forall k :: k in x && Met(k) ==> LearnsAt(x, x', k, number, plus))
  }

  ghost predicate LearnsAt(x: Learned, x': Learned, k: int, number: nat, plus: bool)
    requires k in x && k in x'
  {
    && |x'[k].regrets| == |x[k].regrets| && |x'[k].averages| == |x[k].averages| == |x[k].regrets|
    && (forall a: nat :: a < |x[k].regrets| ==>
          var sum := x[k].regrets[a] + CompactGraph.RawRegret(PolicyOf(x), k, a);
          x'[k].regrets[a] == if plus && sum < 0.0 then 0.0 else sum)
    && (forall a: nat :: a < |x[k].regrets| ==>
          var change := Times(if plus then number as real else 1.0, CompactGraph.RawStrategy(PolicyOf(x), k, a));
          change >= 0.0 && x'[k].averages[a] == x[k].averages[a] + change >= 0.0)
  }

  lemma SteppedLearns(x: Learned, k: int, number: nat, plus: bool, x': Learned)
    requires Sound(x) && k in x && k in x' && x'[k] == SteppedAt(x, k, number, plus) && AcceptsAt(x, k, number, plus)
    ensures LearnsAt(x, x', k, number, plus)
  {
    assert NodeSound(x[k]);
    var n := |x[k].regrets|;
    var d, c := StrategyChanges(x, k, Weighing(number, plus), n), RegretChanges(x, k, n);
    forall a: nat | a < n
      ensures var sum := x[k].regrets[a] + CompactGraph.RawRegret(PolicyOf(x), k, a);
        x'[k].regrets[a] == if plus && sum < 0.0 then 0.0 else sum
    {
      CommitsPlainly(x[k].regrets, c, plus, a);
    }
    forall a: nat | a < n
      ensures var change := Times(if plus then number as real else 1.0, CompactGraph.RawStrategy(PolicyOf(x), k, a));
        change >= 0.0 && x'[k].averages[a] == x[k].averages[a] + change >= 0.0
    {
      AllowedAt(x[k].averages, d, a);
    }
  }

  lemma CommitsPlainly(r: seq<real>, d: seq<real>, plus: bool, a: nat)
    requires |r| == |d| && a < |r|
    ensures var sum := r[a] + d[a]; RegretMatching.Commit(r, d, plus)[a] == if plus && sum < 0.0 then 0.0 else sum
  {
  }

  lemma AllowedAt(s: seq<real>, d: seq<real>, a: nat)
    requires |s| == |d| && a < |d| && RegretMatching.Allowed(s, d)
    ensures d[a] >= 0.0 && s[a] + d[a] >= 0.0 && RegretMatching.Plus(s, d)[a] == s[a] + d[a]
  {
  }

  // A successful iteration has taught every information set exactly that.
  lemma IterationLearns(x: Learned, number: nat, plus: bool)
    requires Sound(x) && RawIteration(x, number, plus).status == Success
    ensures Learns(x, RawIteration(x, number, plus).sums, number, plus)
  {
    var x' := RawStep(x, number, plus);
    assert x'.Keys == x.Keys;
    forall k | k in x && Met(k) ensures LearnsAt(x, x', k, number, plus) {
      assert AcceptsAt(x, k, number, plus);
      SteppedLearns(x, k, number, plus, x');
    }
  }

  datatype Trained = Trained(status: Status, sums: Learned, iterations: nat)

  const SIZE_MAX: nat := 0xFFFF_FFFF_FFFF_FFFF

  // The next iteration after those done before.
  ghost function RawNext(x: Learned, done: nat, plus: bool): (o: Trained)
    requires Sound(x)
    ensures Sound(o.sums)
  {
    if done >= SIZE_MAX then Trained(NumericError, x, done) else
      var o := RawIteration(x, done + 1, plus);
      Trained(o.status, o.sums, if o.status == Success then done + 1 else done)
  }

  ghost function RawTraining(x: Learned, done: nat, amount: nat, plus: bool): (o: Trained)
    requires Sound(x)
    ensures Sound(o.sums)
    decreases amount
  {
    if amount == 0 then Trained(Success, x, done) else
      var before := RawTraining(x, done, amount - 1, plus);
      if before.status != Success then before else RawNext(before.sums, before.iterations, plus)
  }

  lemma {:induction false} TrainingStops(x: Learned, done: nat, k: nat, amount: nat, plus: bool)
    requires Sound(x) && k <= amount && RawTraining(x, done, k, plus).status != Success
    ensures RawTraining(x, done, amount, plus) == RawTraining(x, done, k, plus)
    decreases amount
  {
    if k < amount {
      TrainingStops(x, done, k, amount - 1, plus);
    }
  }

  // An iteration succeeds and keeps what makes it succeed.
  ghost predicate NextIsGood(good: Learned -> bool, x: Learned, done: nat, plus: bool) {
    Sound(x) && var o := RawNext(x, done, plus); o.status == Success && o.iterations == done + 1 && good(o.sums)
  }

  lemma TrainingGoesOn(good: Learned -> bool, x: Learned, done: nat, amount: nat, before: Trained, plus: bool)
    requires Sound(x) && amount > 0 && before == RawTraining(x, done, amount - 1, plus) && before.status == Success
    requires NextIsGood(good, before.sums, before.iterations, plus)
    ensures var o := RawTraining(x, done, amount, plus);
      o.status == Success && o.iterations == before.iterations + 1 && good(o.sums)
  {
  }

  lemma {:induction false} TrainsWhile(good: Learned -> bool, x: Learned, done: nat, amount: nat, plus: bool)
    requires Sound(x) && good(x) && done + amount <= SIZE_MAX
    requires forall y, d: nat :: good(y) && d < SIZE_MAX ==> NextIsGood(good, y, d, plus)
    ensures var o := RawTraining(x, done, amount, plus); o.status == Success && o.iterations == done + amount && good(o.sums)
    decreases amount
  {
    if amount > 0 {
      TrainsWhile(good, x, done, amount - 1, plus);
      TrainingGoesOn(good, x, done, amount, RawTraining(x, done, amount - 1, plus), plus);
    }
  }

  // ---- The graph's information sets are the game's ----

  lemma NodeOfDecision(g: CompactGraph.CompactGraph, p: Position) returns (i: nat)
    requires g.Whole() && Decision(p)
    ensures i < |g.nodes| && g.nodes[i].kind == CompactGraph.PlayerNode && g.nodes[i].key == InformationKey(p)
    ensures |g.nodes[i].edges| == ActionCount(p)
  {
    var actions :| After(actions) == Ok(p);
    CompactGraph.EveryPositionHasNode(g.nodes, g.reps, g.table, g.groups, actions);
    i := g.table[Encode(p)];
    assert CompactGraph.NodeFine(g.nodes, g.reps, i) && CompactGraph.AllEdges(g.nodes, g.reps, i);
    ReachableOk(p);
    ReachableOk(g.reps[i]);
    ActionsSame(p, g.reps[i]);
  }

  lemma DecisionOfNode(g: CompactGraph.CompactGraph, i: nat)
    requires g.Whole() && i < |g.nodes| && g.nodes[i].kind == CompactGraph.PlayerNode
    ensures i < |g.reps| && Decision(g.reps[i]) && g.nodes[i].key == InformationKey(g.reps[i])
    ensures |g.nodes[i].edges| == ActionCount(g.reps[i]) && 0 <= g.nodes[i].key < INFORMATION_SETS && Met(g.nodes[i].key)
  {
    assert CompactGraph.NodeFine(g.nodes, g.reps, i) && CompactGraph.AllEdges(g.nodes, g.reps, i);
    ReachableOk(g.reps[i]);
    KeyInRange(g.reps[i]);
  }

  // An information set is met in the game exactly when its group has a node.
  lemma GroupIsMet(g: CompactGraph.CompactGraph, key: int)
    requires g.Whole()
    ensures Met(key) <==> CompactGraph.GroupOf(g.groups, key) != []
    ensures Met(key) ==> 0 <= key < INFORMATION_SETS
  {
    var group := CompactGraph.GroupOf(g.groups, key);
    assert CompactGraph.GroupFine(g.nodes, g.groups, key);
    if Met(key) {
      var p :| Decision(p) && InformationKey(p) == key;
      var i := NodeOfDecision(g, p);
      assert i in group;
      DecisionOfNode(g, i);
    }
    if group != [] {
      assert group[0] in group;
      DecisionOfNode(g, group[0]);
    }
  }

  // ---- Increments and sums, one information set at a time ----

  // The graph's increments are the game's.
  ghost predicate IsChange(x: Learned, k: int, number: nat, plus: bool, regrets: map<int, seq<real>>, strategies: map<int, seq<real>>)
    requires k in x
  {
    var n := |x[k].regrets|;
    && k in regrets && regrets[k] == RegretChanges(x, k, n)
    && k in strategies && strategies[k] == StrategyChanges(x, k, Weighing(number, plus), n)
  }

  lemma ChangeIsRaw(g: CompactGraph.CompactGraph, x: Learned, k: int, number: nat, plus: bool, regrets: map<int, seq<real>>,
                    strategies: map<int, seq<real>>)
    requires g.Whole() && Met(k) && Fits(x)
    requires CompactGraph.KeyDone(g.nodes, PolicyOf(x), k, Weighing(number, plus), regrets, strategies)
    ensures k in x && IsChange(x, k, number, plus, regrets, strategies)
  {
    var p :| Decision(p) && InformationKey(p) == k;
    var i := NodeOfDecision(g, p);
    assert FitsAt(x, p);
    var n := |x[k].regrets|;
    assert regrets[k] == RegretChanges(x, k, n);
    assert strategies[k] == StrategyChanges(x, k, Weighing(number, plus), n);
  }

  // The sums of one information set, when its turn to be applied has come or while it has not.
  ghost predicate SumsAre(before: Learned, x: Learned, k: int, done: bool, number: nat, plus: bool)
    requires Sound(before) && k in before
  {
    k in x && x[k] == if done then SteppedAt(before, k, number, plus) else before[k]
  }

  lemma OneMore(before: Learned, mid: Learned, after: Learned, keys: seq<int>, q: nat, number: nat, plus: bool)
    requires Sound(before) && q < |keys| && keys[q] in before
    requires mid.Keys == before.Keys && forall k :: k in before ==> SumsAre(before, mid, k, k in keys[..q], number, plus)
    requires after == mid[keys[q] := SteppedAt(before, keys[q], number, plus)]
    ensures forall k :: k in before ==> SumsAre(before, after, k, k in keys[..q + 1], number, plus)
  {
    assert keys[..q + 1] == keys[..q] + [keys[q]];
    forall k | k in before ensures SumsAre(before, after, k, k in keys[..q + 1], number, plus) {
      assert SumsAre(before, mid, k, k in keys[..q], number, plus);
    }
  }

  lemma AllApplied(before: Learned, after: Learned, keys: seq<int>, number: nat, plus: bool)
    requires Sound(before) && after.Keys == before.Keys && forall k :: k in keys <==> Met(k)
    requires forall k :: k in before ==> SumsAre(before, after, k, k in keys, number, plus)
    ensures after == RawStep(before, number, plus)
  {
    forall k | k in after ensures after[k] == RawStep(before, number, plus)[k] {
      assert SumsAre(before, after, k, k in keys, number, plus);
    }
  }

  // ---- The trainer ----

  class CompactTrainer {
    const graph: CompactGraph.CompactGraph
    var sums: Learned
    var iterations: nat

    ghost predicate Valid()
      reads this, graph
    {
      graph.Whole() && Sound(sums)
    }

    // Builds the graph of the whole game.
    constructor (sums: Learned, iterations: nat)
      requires Sound(sums)
      ensures Valid() && this.sums == sums && this.iterations == iterations && fresh(graph)
    {
      this.sums, this.iterations := sums, iterations;
      graph := new CompactGraph.CompactGraph();
      new;
      var root := graph.BuildGame();
    }

    // The keys of the information sets that occur.
    method PresentKeys() returns (keys: seq<int>)
      requires Valid()
      ensures forall k :: k in keys <==> Met(k)
      ensures forall i: nat, j: nat :: i < j < |keys| ==> keys[i] != keys[j]
    {
      keys := [];
      for key := 0 to INFORMATION_SETS
        invariant forall k :: k in keys <==> 0 <= k < key && CompactGraph.GroupOf(graph.groups, k) != []
        invariant forall i: nat, j: nat :: i < j < |keys| ==> keys[i] != keys[j]
      {
        if CompactGraph.GroupOf(graph.groups, key) != [] {
          keys := keys + [key];
        }
      }
      forall k ensures k in keys <==> Met(k) {
        GroupIsMet(graph, k);
      }
    }

    // Does every node find its sums?
    method CheckFits() returns (fits: bool)
      requires Valid()
      ensures fits == Fits(sums)
    {
      for i := 0 to |graph.nodes|
        invariant forall j: nat :: j < i ==> NodeFits(j)
      {
        var n := graph.nodes[i];
        if n.kind == CompactGraph.PlayerNode && (n.key !in sums || |sums[n.key].regrets| != |n.edges|) {
          DecisionOfNode(graph, i);
          assert !FitsAt(sums, graph.reps[i]);
          return false;
        }
      }
      forall p | Decision(p) ensures FitsAt(sums, p) {
        var j := NodeOfDecision(graph, p);
        assert NodeFits(j);
      }
      return true;
    }

    // One iteration: nothing changes unless every information set can take in its increments.
    method Iterate(number: nat, plus: bool) returns (status: Status)
      requires Valid()
      modifies this`sums
      ensures Valid() && Iterated(status, sums) == RawIteration(old(sums), number, plus)
      ensures status == Success ==> Learns(old(sums), sums, number, plus)
    {
      ghost var before := sums;
      if number == 0 {
        return Status.InvalidArgument;
      }
      var fits := CheckFits();
      if !fits {
        return Status.InvalidArgument;
      }
      var keys := PresentKeys();
      var regrets, strategies := graph.CompactIteration(PolicyOf(sums), Weighing(number, plus), keys);
      forall k | k in keys ensures IsChange(sums, k, number, plus, regrets, strategies) {
        ChangeIsRaw(graph, sums, k, number, plus, regrets, strategies);
      }
      var allowed := CheckChanges(keys, number, plus, regrets, strategies);
      if !allowed {
        return NumericError;
      }
      Apply(keys, number, plus, regrets, strategies);
      status := Success;
      IterationLearns(before, number, plus);
    }

    method CheckChanges(keys: seq<int>, ghost number: nat, ghost plus: bool, regrets: map<int, seq<real>>,
                        strategies: map<int, seq<real>>) returns (allowed: bool)
      requires Valid() && (forall k :: k in keys <==> Met(k))
      requires forall k :: k in keys ==> k in sums && IsChange(sums, k, number, plus, regrets, strategies)
      ensures allowed == Accepts(sums, number, plus)
    {
      for q := 0 to |keys|
        invariant forall p: nat :: p < q ==> AcceptsAt(sums, keys[p], number, plus)
      {
        var k := keys[q];
        assert IsChange(sums, k, number, plus, regrets, strategies) && NodeSound(sums[k]);
        if !RegretMatching.Allowed(sums[k].averages, strategies[k]) {
          assert !AcceptsAt(sums, k, number, plus);
          return false;
        }
      }
      return true;
    }

    method Apply(keys: seq<int>, ghost number: nat, plus: bool, regrets: map<int, seq<real>>, strategies: map<int, seq<real>>)
      requires Valid() && (forall k :: k in keys <==> Met(k))
      requires forall i: nat, j: nat :: i < j < |keys| ==> keys[i] != keys[j]
      requires forall k :: k in keys ==> k in sums && IsChange(sums, k, number, plus, regrets, strategies)
      modifies this`sums
      ensures Valid() && sums == RawStep(old(sums), number, plus)
    {
      ghost var before := sums;
      for q := 0 to |keys|
        invariant Valid() && sums.Keys == before.Keys
        invariant forall k :: k in before ==> SumsAre(before, sums, k, k in keys[..q], number, plus)
      {
        var k := keys[q];
        assert k !in keys[..q];
        assert SumsAre(before, sums, k, false, number, plus) && IsChange(before, k, number, plus, regrets, strategies);
        ghost var mid := sums;
        sums := sums[k := NodeSums(RegretMatching.Commit(sums[k].regrets, regrets[k], plus),
                                   RegretMatching.Plus(sums[k].averages, strategies[k]))];
        OneMore(before, mid, sums, keys, q, number, plus);
      }
      assert keys[..|keys|] == keys;
      AllApplied(before, sums, keys, number, plus);
    }

    // Trains for a number of iterations, stopping at the first that fails.
    method Train(amount: nat, plus: bool) returns (status: Status)
      requires Valid()
      modifies this`sums, this`iterations
      ensures Valid()
      ensures Trained(status, sums, iterations) ==
        if amount == 0 then Trained(Status.InvalidArgument, old(sums), old(iterations))
        else RawTraining(old(sums), old(iterations), amount, plus)
    {
      if amount == 0 {
        return Status.InvalidArgument;
      }
      status := Success;
      for completed := 0 to amount
        invariant Valid() && status == Success
        invariant Trained(Success, sums, iterations) == RawTraining(old(sums), old(iterations), completed, plus)
      {
        status := TrainOnce(plus);
        if status != Success {
          TrainingStops(old(sums), old(iterations), completed + 1, amount, plus);
          return;
        }
      }
    }

    method TrainOnce(plus: bool) returns (status: Status)
      requires Valid()
      modifies this`sums, this`iterations
      ensures Valid() && Trained(status, sums, iterations) == RawNext(old(sums), old(iterations), plus)
    {
      if iterations >= SIZE_MAX {
        return NumericError;
      }
      status := Iterate(iterations + 1, plus);
      if status == Success {
        iterations := iterations + 1;
      }
    }

    ghost predicate NodeFits(j: nat)
      reads this, graph
      requires j < |graph.nodes|
    {
      var n := graph.nodes[j];
      n.kind == CompactGraph.PlayerNode ==> n.key in sums && |sums[n.key].regrets| == |n.edges|
    }
  }
}
