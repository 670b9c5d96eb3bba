// External-sampling traversals. The two implementations walk the tree alike and differ only in where a
// strategy and a sampled action come from: the sequential one reads the nodes it owns, the concurrent one
// keeps what it read first of nodes that others may be changing.
module ExternalSampling {
  import opened Construction
  import RegretMatching
  import Sampling
  import Play

  const MAX_ACTIONS: nat := 64

  type Key = int
  type Action = int

  datatype Branch = Branch(action: Action, probability: real, next: Tree)

  // The utility of a leaf is the target player's.
  datatype Tree = Leaf(utility: real) | Nature(branches: seq<Branch>) | Turn(player: nat, key: Key, branches: seq<Branch>)

  datatype Rules = Rules(players: nat, target: nat, maxActions: nat)

  // Pending changes to one information set.
  datatype Pending = Pending(regret: seq<real>, strategy: seq<real>)

  // What a traversal remembers about an information set it has met.
  datatype Memo = Memo(actions: seq<Action>, probabilities: seq<real>, sampled: Sampling.Option<nat>)

  // The nodes are those of the store, each with its number of actions.
  datatype State = State(
    random: nat, visits: nat, nodes: map<Key, nat>, memo: map<Key, Memo>, pending: map<Key, Pending>)

  type Profile = (Key, nat) -> seq<real>

  // What a read of a shared node finds may depend on when it happens.
  datatype Mode = Sequential(profile: Profile) | Snapshots(shared: (nat, Key, nat) -> seq<real>)

  datatype Result = Result(status: Status, utility: real, state: State)

  function Kids(t: Tree): seq<Branch> {
    if t.Leaf? then [] else t.branches
  }

  function ActionsOf(branches: seq<Branch>): (actions: seq<Action>)
    ensures |actions| == |branches|
  {
    seq(|branches|, i requires 0 <= i < |branches| => branches[i].action)
  }

  function OddsOf(branches: seq<Branch>): (odds: seq<real>)
    ensures |odds| == |branches|
  {
    seq(|branches|, i requires 0 <= i < |branches| => branches[i].probability)
  }

  const SIZE_MAX: nat := Sampling.WORD - 1

  function Capped(n: nat): nat {
    if n >= SIZE_MAX then n else n + 1
  }

  // ---- The random stream ----

  const GAMMA: nat := 0x9E37_79B9_7F4A_7C15

  function Advance(random: nat): (next: nat)
    ensures next < Sampling.WORD
  {
    (random + GAMMA) % Sampling.WORD
  }

  function Advanced(random: nat, k: nat): nat {
    if k == 0 then random else Advance(Advanced(random, k - 1))
  }

  lemma OneMoreAdvance(a: nat, b: nat)
    requires a < Sampling.WORD && a == b % Sampling.WORD
    ensures Advance(a) == (b + GAMMA) % Sampling.WORD
  {
    var q := b / Sampling.WORD;
    assert b == q * Sampling.WORD + a;
  }

  lemma {:induction false} AdvancedBy(random: nat, k: nat)
    requires random < Sampling.WORD
    ensures Advanced(random, k) == (random + k * GAMMA) % Sampling.WORD
  {
    if k > 0 {
      AdvancedBy(random, k - 1);
      OneMoreAdvance(Advanced(random, k - 1), random + (k - 1) * GAMMA);
    }
  }

  // What GAMMA is multiplied with to give one more than a multiple of the word.
  const INVERSE: nat := 0xF1DE_83E1_9937_733D
  const QUOTIENT: nat := 0x957B_BF35_006E_D677

  lemma MultiplesOfWord(d: nat, m: int)
    requires d * GAMMA == m * Sampling.WORD
    ensures d == (m * INVERSE - d * QUOTIENT) * Sampling.WORD
  {
    assert GAMMA * INVERSE == 1 + QUOTIENT * Sampling.WORD;
    assert (d * GAMMA) * INVERSE == d * (GAMMA * INVERSE);
    assert d * (1 + QUOTIENT * Sampling.WORD) == d + (d * QUOTIENT) * Sampling.WORD;
    assert (m * Sampling.WORD) * INVERSE == (m * INVERSE) * Sampling.WORD;
  }

  lemma SmallMultiple(d: nat, m: int)
    requires d == m * Sampling.WORD && d < Sampling.WORD
    ensures d == 0
  {
  }

  // The random state moves on by one constant with every draw, and does not come back within 2^64 draws.
  lemma StatesDiffer(random: nat, j: nat, k: nat)
    requires random < Sampling.WORD && j < k < j + Sampling.WORD
    ensures Advanced(random, j) != Advanced(random, k)
  {
    AdvancedBy(random, j);
    AdvancedBy(random, k);
    if Advanced(random, j) == Advanced(random, k) {
      var a, b := random + j * GAMMA, random + k * GAMMA;
      var m := b / Sampling.WORD - a / Sampling.WORD;
      assert (k - j) * GAMMA == m * Sampling.WORD;
      MultiplesOfWord(k - j, m);
      SmallMultiple(k - j, m * INVERSE - (k - j) * QUOTIENT);
    }
  }

  // The action whose interval the word falls into, among the first n.
  function Pick(p: seq<real>, word: nat, n: nat): (i: nat)
    requires n <= |p| && Sampling.Valid(p)
    ensures n > 0 ==> i < n
    decreases n
  {
    if n == 0 then 0 else if Sampling.End(p, n - 1) <= word then n - 1 else Pick(p, word, n - 1)
  }

  lemma {:induction false} PickBelow(p: seq<real>, word: nat, n: nat)
    requires Sampling.Valid(p) && n <= |p| <= Sampling.WORD && word < Sampling.End(p, n)
    ensures Sampling.Draws(p, Pick(p, word, n), word)
    decreases n
  {
    Sampling.Partition(p);
    if n > 0 && word < Sampling.End(p, n - 1) {
      PickBelow(p, word, n - 1);
    }
  }

  lemma PickDraws(p: seq<real>, word: nat)
    requires Sampling.Valid(p) && |p| <= Sampling.WORD && word < Sampling.WORD
    ensures Sampling.Draws(p, Pick(p, word, |p|), word) && p[Pick(p, word, |p|)] > 0.0
  {
    Sampling.Partition(p);
    PickBelow(p, word, |p|);
  }

  datatype Drawn = Drawn(status: Status, index: nat, random: nat)

  // An error is found before a word is taken from the stream.
  function Draw(p: seq<real>, random: nat, mix: nat -> nat): (d: Drawn)
    ensures d.status == Success ==> d.index < |p|
  {
    if !Sampling.Valid(p) || |p| == 0 then Drawn(InvalidArgument, 0, random) else
      Drawn(Success, Pick(p, mix(Advance(random)) % Sampling.WORD, |p|), Advance(random))
  }

  // ---- Where strategies come from ----

  datatype Looked = Looked(status: Status, p: seq<real>, state: State)

  // A node is created at its first visit; later ones must agree on the number of actions.
  predicate CountDiffers(s: State, key: Key, n: nat) {
    key in s.nodes && s.nodes[key] != n
  }

  function Look(mode: Mode, s: State, key: Key, actions: seq<Action>): Looked {
    var n := |actions|;
    match mode
    case Sequential(profile) =>
      if CountDiffers(s, key, n) then Looked(InvalidArgument, [], s) else
        Looked(Success, profile(key, n), s.(nodes := s.nodes[key := n]))
    case Snapshots(shared) =>
      if key in s.memo then
        if s.memo[key].actions != actions then Looked(InvalidArgument, [], s) else
          Looked(Success, s.memo[key].probabilities, s)
      else if CountDiffers(s, key, n) then Looked(InvalidArgument, [], s) else
        var p := shared(s.visits, key, n);
        Looked(Success, p,
               s.(nodes := s.nodes[key := n], memo := s.memo[key := Memo(actions, p, Sampling.None)]))
  }

  datatype Sampled = Sampled(status: Status, index: nat, state: State)

  function Remember(s: State, key: Key, memo: Memo, p: seq<real>, mix: nat -> nat): Sampled {
    var d := Draw(p, s.random, mix);
    if d.status != Success then Sampled(d.status, 0, s) else
      Sampled(Success, d.index, s.(random := d.random, memo := s.memo[key := memo.(sampled := Sampling.Some(d.index))]))
  }

  // One action for an information set, the same wherever the traversal meets it again.
  function Sample(mode: Mode, s: State, key: Key, actions: seq<Action>, p: seq<real>, mix: nat -> nat): Sampled {
    if mode.Sequential? && key !in s.memo then Remember(s, key, Memo(actions, [], Sampling.None), p, mix)
    else if key !in s.memo || s.memo[key].actions != actions then Sampled(InvalidArgument, 0, s)
    else
      match s.memo[key].sampled
      case None => Remember(s, key, s.memo[key], p, mix)
      case Some(i) => if i < |actions| then Sampled(Success, i, s) else Sampled(InvalidArgument, 0, s)
  }

  // ---- What is recorded ----

  function Scaled(w: real, p: seq<real>): (d: seq<real>)
    ensures |d| == |p|
  {
    seq(|p|, i requires 0 <= i < |p| => w * p[i])
  }

  function Shifted(utilities: seq<real>, utility: real): (d: seq<real>)
    ensures |d| == |utilities|
  {
    seq(|utilities|, i requires 0 <= i < |utilities| => utilities[i] - utility)
  }

  function Weighted(w: real, x: real): real {
    w * x
  }

  function Zeros(n: nat): (z: seq<real>)
    ensures |z| == n
  {
    seq(n, i => 0.0)
  }

  function PendingAt(pending: map<Key, Pending>, key: Key, n: nat): (d: Pending)
    ensures |d.regret| == |d.strategy| == n
  {
    if key in pending && |pending[key].regret| == |pending[key].strategy| == n then pending[key]
    else Pending(Zeros(n), Zeros(n))
  }

  function Add(s: State, key: Key, regret: seq<real>, strategy: seq<real>): State
    requires |regret| == |strategy|
  {
    var d := PendingAt(s.pending, key, |regret|);
    s.(pending := s.pending[key := Pending(RegretMatching.Plus(d.regret, regret), RegretMatching.Plus(d.strategy, strategy))])
  }

  // ---- The walk ----

  // The utility of the first n branches of a target node, and the utilities themselves.
  datatype Loop = Loop(status: Status, utility: real, utilities: seq<real>, state: State)

  predicate ChanceOk(odds: seq<real>, max: nat) {
    && 1 <= |odds| <= max
    && (forall i :: 0 <= i < |odds| ==> odds[i] >= 0.0)
    && SumIsOne(Sampling.Cumulative(odds, |odds|))
  }

  function Walk(mode: Mode, g: Rules, mix: nat -> nat, t: Tree, own: real, s0: State, average: bool): Result
    decreases t, |Kids(t)| + 1
  {
    var s := s0.(visits := Capped(s0.visits));
    match t
    case Leaf(utility) => Result(Success, utility, s)
    case Nature(_) => WalkChance(mode, g, mix, t, own, s, average)
    case Turn(player, key, branches) =>
      if !Play.PlayerIsValid(g.players, player) || !(1 <= |branches| <= g.maxActions) then Result(InvalidArgument, 0.0, s) else
        var l := Look(mode, s, key, ActionsOf(branches));
        if l.status != Success then Result(l.status, 0.0, l.state) else
        if |l.p| != |branches| then Result(InvalidArgument, 0.0, l.state) else
          WalkTurn(mode, g, mix, t, l.p, own, l.state, average)
  }

  function WalkChance(mode: Mode, g: Rules, mix: nat -> nat, t: Tree, own: real, s: State, average: bool): Result
    requires t.Nature?
    decreases t, |Kids(t)|, 2
  {
    var odds := OddsOf(t.branches);
    if !ChanceOk(odds, g.maxActions) then Result(InvalidArgument, 0.0, s) else
      var d := Draw(odds, s.random, mix);
      if d.status != Success then Result(d.status, 0.0, s) else
      if odds[d.index] <= 0.0 then Result(NumericError, 0.0, s.(random := d.random)) else
        Walk(mode, g, mix, t.branches[d.index].next, own, s.(random := d.random), average)
  }

  function WalkTurn(mode: Mode, g: Rules, mix: nat -> nat, t: Tree, p: seq<real>, own: real, s: State, average: bool)
    : Result
    requires t.Turn? && |p| == |t.branches| && |p| > 0
    decreases t, |Kids(t)|, 2
  {
    if average then WalkAverage(mode, g, mix, t, p, own, s) else
    if t.player == g.target then WalkTarget(mode, g, mix, t, p, own, s) else WalkOpponent(mode, g, mix, t, p, own, s)
  }

  function WalkTarget(mode: Mode, g: Rules, mix: nat -> nat, t: Tree, p: seq<real>, own: real, s: State): Result
    requires t.Turn? && |p| == |t.branches|
    decreases t, |Kids(t)|, 1
  {
    var l := Branches(mode, g, mix, t, p, own, s, |t.branches|);
    if l.status != Success then Result(l.status, 0.0, l.state) else
    if g.players == 1 && own < 0.0 then Result(NumericError, 0.0, l.state) else
      Result(Success, l.utility,
             Add(l.state, t.key, Shifted(l.utilities, l.utility),
                 if g.players == 1 then Scaled(own, p) else Zeros(|p|)))
  }

  function Branches(mode: Mode, g: Rules, mix: nat -> nat, t: Tree, p: seq<real>, own: real, s: State, n: nat): (l: Loop)
    requires t.Turn? && |p| == |t.branches| && n <= |p|
    ensures l.status == Success ==> |l.utilities| == n
    decreases t, n, 0
  {
    if n == 0 then Loop(Success, 0.0, [], s) else
      var before := Branches(mode, g, mix, t, p, own, s, n - 1);
      if before.status != Success then before else
        var r := Walk(mode, g, mix, t.branches[n - 1].next, Weighted(own, p[n - 1]), before.state, false);
        if r.status != Success then Loop(r.status, 0.0, [], r.state) else
          Loop(Success, before.utility + Weighted(p[n - 1], r.utility), before.utilities + [r.utility], r.state)
  }

  function WalkOpponent(mode: Mode, g: Rules, mix: nat -> nat, t: Tree, p: seq<real>, own: real, s: State): Result
    requires t.Turn? && |p| == |t.branches|
    decreases t, |Kids(t)|, 1
  {
    var a := Sample(mode, s, t.key, ActionsOf(t.branches), p, mix);
    if a.status != Success then Result(a.status, 0.0, a.state) else
    if a.index >= |p| || p[a.index] <= 0.0 then Result(NumericError, 0.0, a.state) else
      var s1 := if g.players <= 2 then Add(a.state, t.key, Zeros(|p|), Scaled(1.0, p)) else a.state;
      Walk(mode, g, mix, t.branches[a.index].next, own, s1, false)
  }

  // The uniform choice of the average pass: a 53-bit fraction of the number of actions.
  function Uniform(word: nat, n: nat): (i: nat)
    requires n > 0
    ensures i < n
  {
    var top := word % Sampling.WORD / 2048;
    Fraction(top, n);
    top * n / 0x20_0000_0000_0000
  }

  lemma Fraction(top: nat, n: nat)
    requires top < 0x20_0000_0000_0000 && n > 0
    ensures 0 <= top * n / 0x20_0000_0000_0000 < n
  {
    assert top * n <= (0x20_0000_0000_0000 - 1) * n;
  }

  // The words that lead to action i are those whose top 53 bits, as a fraction, lie in the i-th of n equal parts.
  lemma UniformParts(word: nat, n: nat, i: nat)
    requires n > 0
    ensures Uniform(word, n) == i <==>
      i * 0x20_0000_0000_0000 <= word % Sampling.WORD / 2048 * n < (i + 1) * 0x20_0000_0000_0000
  {
  }

  // The importance weight under one action: the target's own share of it, and the uniform choice undone.
  function WeightBelow(g: Rules, t: Tree, p: seq<real>, weight: real, action: nat): real
    requires t.Turn? && action < |p|
  {
    WeightThrough(t.player == g.target, p, weight, action)
  }

  function WeightThrough(targeted: bool, p: seq<real>, weight: real, action: nat): real
    requires action < |p|
  {
    (if targeted then weight * p[action] else weight) * (|p| as real)
  }

  function WalkAverage(mode: Mode, g: Rules, mix: nat -> nat, t: Tree, p: seq<real>, weight: real, s: State): Result
    requires t.Turn? && |p| == |t.branches| && |p| > 0
    decreases t, |Kids(t)|, 1
  {
    if t.player == g.target && weight < 0.0 then Result(NumericError, 0.0, s) else
      var s1 := if t.player == g.target then Add(s, t.key, Zeros(|p|), Scaled(weight, p)) else s;
      var random := Advance(s1.random);
      var action := Uniform(mix(random), |p|);
      var child := WeightBelow(g, t, p, weight, action);
      var s2 := s1.(random := random);
      if child == 0.0 then Result(Success, 0.0, s2) else
        var r := Walk(mode, g, mix, t.branches[action].next, child, s2, true);
        Result(r.status, 0.0, r.state)
  }

  predicate CanTraverse(g: Rules) {
    Play.PlayerIsValid(g.players, g.target) && 1 <= g.maxActions <= MAX_ACTIONS
  }

  // The pass that trains, and with more than two players the separate pass for the average.
  function Traverse(mode: Mode, g: Rules, mix: nat -> nat, t: Tree, s: State): Result {
    if !CanTraverse(g) then Result(InvalidArgument, 0.0, s) else
      var r := Walk(mode, g, mix, t, 1.0, s, false);
      if r.status != Success || g.players <= 2 then r else
        var a := Walk(mode, g, mix, t, 1.0, r.state, true);
        Result(a.status, r.utility, a.state)
  }

  // ---- The snapshots a traversal took ----

  // The profile gives, wherever the traversal took a snapshot, what the snapshot says.
  ghost predicate Profiled(profile: Profile, s: State) {
    forall key :: key in s.memo ==> ProfiledAt(profile, s, key)
  }

  ghost predicate ProfiledAt(profile: Profile, s: State, key: Key)
    requires key in s.memo
  {
    s.memo[key].probabilities == profile(key, |s.memo[key].actions|)
  }

  // Snapshots are only added, never changed; what was sampled stays sampled.
  ghost predicate Keeps(mode: Mode, s: State, s': State) {
    && (forall key :: key in s.memo ==> KeepsAt(s, s', key))
    && (FromShared(mode, s) ==> FromShared(mode, s'))
  }

  // Every snapshot is what a read of the shared node found at some time.
  ghost predicate FromShared(mode: Mode, s: State) {
    mode.Snapshots? ==> forall key :: key in s.memo ==> ReadAt(mode.shared, s, key)
  }

  ghost predicate ReadAt(shared: (nat, Key, nat) -> seq<real>, s: State, key: Key)
    requires key in s.memo
  {
    exists time: nat :: s.memo[key].probabilities == shared(time, key, |s.memo[key].actions|)
  }

  ghost predicate KeepsAt(s: State, s': State, key: Key)
    requires key in s.memo
  {
    && key in s'.memo
    && s'.memo[key].actions == s.memo[key].actions
    && s'.memo[key].probabilities == s.memo[key].probabilities
    && (s.memo[key].sampled.Some? ==> s'.memo[key].sampled == s.memo[key].sampled)
  }

  lemma KeepsTwice(mode: Mode, s: State, s': State, s'': State)
    requires Keeps(mode, s, s') && Keeps(mode, s', s'')
    ensures Keeps(mode, s, s'')
  {
    forall key | key in s.memo
      ensures KeepsAt(s, s'', key)
    {
      assert KeepsAt(s, s', key);
      assert KeepsAt(s', s'', key);
    }
  }

  lemma KeepsProfiled(profile: Profile, mode: Mode, s: State, s': State)
    requires Keeps(mode, s, s') && Profiled(profile, s')
    ensures Profiled(profile, s)
  {
    forall key | key in s.memo
      ensures ProfiledAt(profile, s, key)
    {
      assert KeepsAt(s, s', key);
      assert ProfiledAt(profile, s', key);
    }
  }

  lemma LookKeeps(mode: Mode, s: State, key: Key, actions: seq<Action>)
    ensures Keeps(mode, s, Look(mode, s, key, actions).state)
  {
    var s' := Look(mode, s, key, actions).state;
    forall k | k in s.memo
      ensures KeepsAt(s, s', k)
    {
    }
  }

  lemma SampleKeeps(mode: Mode, s: State, key: Key, actions: seq<Action>, p: seq<real>, mix: nat -> nat)
    ensures Keeps(mode, s, Sample(mode, s, key, actions, p, mix).state)
  {
    var s' := Sample(mode, s, key, actions, p, mix).state;
    forall k | k in s.memo
      ensures KeepsAt(s, s', k)
    {
    }
  }

  lemma SameMemo(mode: Mode, s: State, s': State)
    requires s.memo == s'.memo
    ensures Keeps(mode, s, s')
  {
    forall k | k in s.memo
      ensures KeepsAt(s, s', k)
    {
    }
  }

  lemma {:induction false} WalkKeeps(mode: Mode, g: Rules, mix: nat -> nat, t: Tree, own: real, s0: State, average: bool)
    ensures Keeps(mode, s0, Walk(mode, g, mix, t, own, s0, average).state)
    decreases t, |Kids(t)| + 1
  {
    var s := s0.(visits := Capped(s0.visits));
    var r := Walk(mode, g, mix, t, own, s0, average);
    SameMemo(mode, s0, s);
    match t
    case Leaf(_) =>
    case Nature(branches) =>
      var d := Draw(OddsOf(branches), s.random, mix);
      var s1 := s.(random := d.random);
      SameMemo(mode, s0, s1);
      if d.status == Success {
        WalkKeeps(mode, g, mix, t.branches[d.index].next, own, s1, average);
        KeepsTwice(mode, s0, s1, Walk(mode, g, mix, t.branches[d.index].next, own, s1, average).state);
      }
    case Turn(player, key, branches) =>
      var l := Look(mode, s, key, ActionsOf(branches));
      LookKeeps(mode, s, key, ActionsOf(branches));
      KeepsTwice(mode, s0, s, l.state);
      if l.status == Success && |l.p| == |branches| && |branches| > 0 {
        TurnKeeps(mode, g, mix, t, l.p, own, l.state, average);
        KeepsTwice(mode, s0, l.state, WalkTurn(mode, g, mix, t, l.p, own, l.state, average).state);
      }
  }

  lemma {:induction false} TurnKeeps(mode: Mode, g: Rules, mix: nat -> nat, t: Tree, p: seq<real>, own: real, s: State,
                                     average: bool)
    requires t.Turn? && |p| == |t.branches| && |p| > 0
    ensures Keeps(mode, s, WalkTurn(mode, g, mix, t, p, own, s, average).state)
    decreases t, |Kids(t)|, 2
  {
    if average {
      AverageKeeps(mode, g, mix, t, p, own, s);
    } else if t.player == g.target {
      BranchesKeeps(mode, g, mix, t, p, own, s, |t.branches|);
      var l := Branches(mode, g, mix, t, p, own, s, |t.branches|);
      var r := WalkTarget(mode, g, mix, t, p, own, s);
      SameMemo(mode, l.state, r.state);
      KeepsTwice(mode, s, l.state, r.state);
    } else {
      OpponentKeeps(mode, g, mix, t, p, own, s);
    }
  }

  lemma {:induction false} BranchesKeeps(mode: Mode, g: Rules, mix: nat -> nat, t: Tree, p: seq<real>, own: real,
                                         s: State, n: nat)
    requires t.Turn? && |p| == |t.branches| && n <= |p|
    ensures Keeps(mode, s, Branches(mode, g, mix, t, p, own, s, n).state)
    decreases t, n, 0
  {
    if n == 0 {
      SameMemo(mode, s, s);
    } else {
      BranchesKeeps(mode, g, mix, t, p, own, s, n - 1);
      var before := Branches(mode, g, mix, t, p, own, s, n - 1);
      if before.status == Success {
        WalkKeeps(mode, g, mix, t.branches[n - 1].next, Weighted(own, p[n - 1]), before.state, false);
        KeepsTwice(mode, s, before.state, Walk(mode, g, mix, t.branches[n - 1].next, Weighted(own, p[n - 1]), before.state, false).state);
      }
    }
  }

  lemma {:induction false} OpponentKeeps(mode: Mode, g: Rules, mix: nat -> nat, t: Tree, p: seq<real>, own: real, s: State)
    requires t.Turn? && |p| == |t.branches|
    ensures Keeps(mode, s, WalkOpponent(mode, g, mix, t, p, own, s).state)
    decreases t, |Kids(t)|, 1
  {
    var a := Sample(mode, s, t.key, ActionsOf(t.branches), p, mix);
    SampleKeeps(mode, s, t.key, ActionsOf(t.branches), p, mix);
    if a.status == Success && a.index < |p| {
      var s1 := if g.players <= 2 then Add(a.state, t.key, Zeros(|p|), Scaled(1.0, p)) else a.state;
      SameMemo(mode, a.state, s1);
      KeepsTwice(mode, s, a.state, s1);
      WalkKeeps(mode, g, mix, t.branches[a.index].next, own, s1, false);
      KeepsTwice(mode, s, s1, Walk(mode, g, mix, t.branches[a.index].next, own, s1, false).state);
    }
  }

  lemma {:induction false} AverageKeeps(mode: Mode, g: Rules, mix: nat -> nat, t: Tree, p: seq<real>, weight: real, s: State)
    requires t.Turn? && |p| == |t.branches| && |p| > 0
    ensures Keeps(mode, s, WalkAverage(mode, g, mix, t, p, weight, s).state)
    decreases t, |Kids(t)|, 1
  {
    var s1 := if t.player == g.target then Add(s, t.key, Zeros(|p|), Scaled(weight, p)) else s;
    var random := Advance(s1.random);
    var action := Uniform(mix(random), |p|);
    var child := WeightBelow(g, t, p, weight, action);
    var s2 := s1.(random := random);
    SameMemo(mode, s, s2);
    SameMemo(mode, s, s);
    WalkKeeps(mode, g, mix, t.branches[action].next, child, s2, true);
    var below := Walk(mode, g, mix, t.branches[action].next, child, s2, true);
    KeepsTwice(mode, s, s2, below.state);
    var whole := WalkAverage(mode, g, mix, t, p, weight, s);
    assert whole.state == s || whole.state == s2 || whole.state == below.state;
  }
}
