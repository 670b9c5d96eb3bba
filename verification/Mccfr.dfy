// The sampled traversals as they run: a workspace walks the game, remembers what it read and sampled, collects
// the changes, and adds them to the nodes at the end.
module Mccfr {
  import opened ExternalSampling
  import opened Construction
  import R = RegretMatching
  import Sampling
  import SnapshotRefinement
  import Play

  // Accumulated sums, the nodes of a store.
  type Totals = map<Key, seq<real>>

  function TotalAt(totals: Totals, key: Key, n: nat): (s: seq<real>)
    ensures |s| == n
  {
    if key in totals && |totals[key]| == n then totals[key] else Zeros(n)
  }

  // ---- The game as the target sees it ----

  function ForTarget(t: Play.Tree, target: nat): Tree
    decreases t, 1
  {
    match t
    case End(utility) => Leaf(utility(target))
    case Chance(_) => Nature(BranchesFor(t, target))
    case Move(player, key, _) => Turn(player, key, BranchesFor(t, target))
  }

  function BranchesFor(t: Play.Tree, target: nat): (bs: seq<Branch>)
    requires !t.End?
    ensures |bs| == |t.branches|
    decreases t, 0
  {
    seq(|t.branches|, (a: nat) requires a < |t.branches| =>
      Branch(t.branches[a].action, t.branches[a].probability, ForTarget(t.branches[a].next, target)))
  }

  // t is what can follow s.
  ghost predicate Shows<S>(rules: Play.Rules<S>, target: nat, s: S, t: Tree)
    decreases t, 2
  {
    match t
    case Leaf(utility) => rules.terminal(s) && utility == rules.utility(s, target)
    case Nature(_) => !rules.terminal(s) && rules.actor(s) == Play.ByChance && ShowsBranches(rules, target, s, t)
    case Turn(player, key, _) =>
      !rules.terminal(s) && rules.actor(s) == Play.ByPlayer(player) && key == rules.key(s) && ShowsBranches(rules, target, s, t)
  }

  ghost predicate ShowsBranches<S>(rules: Play.Rules<S>, target: nat, s: S, t: Tree)
    requires !t.Leaf?
    decreases t, 1
  {
    && |rules.actions(s)| == |t.branches|
    && forall a: nat :: a < |t.branches| ==> ShowsBranch(rules, target, s, t, a)
  }

  ghost predicate ShowsBranch<S>(rules: Play.Rules<S>, target: nat, s: S, t: Tree, a: nat)
    requires !t.Leaf? && a < |t.branches|
    decreases t, 0
  {
    var b := t.branches[a];
    && a < |rules.actions(s)| && b.action == rules.actions(s)[a] && (t.Nature? ==> b.probability == rules.odds(s, b.action))
    && rules.undo(rules.apply(s, b.action)) == s && Shows(rules, target, rules.apply(s, b.action), b.next)
  }

  lemma {:induction false} UnfoldsShows<S>(rules: Play.Rules<S>, target: nat, s: S, t: Play.Tree)
    requires Play.Unfolds(rules, s, t)
    ensures Shows(rules, target, s, ForTarget(t, target))
    decreases t
  {
    if !t.End? {
      forall a: nat | a < |t.branches|
        ensures Play.FollowsAt(rules, s, t, a)
        ensures Shows(rules, target, rules.apply(s, t.branches[a].action), ForTarget(t.branches[a].next, target))
      {
        assert Play.FollowsAt(rules, s, t, a);
        UnfoldsShows(rules, target, rules.apply(s, t.branches[a].action), t.branches[a].next);
      }
      forall a: nat | a < |t.branches| ensures ShowsBranch(rules, target, s, ForTarget(t, target), a) {
      }
    }
  }

  lemma ActionsShown<S>(rules: Play.Rules<S>, target: nat, s: S, t: Tree)
    requires !t.Leaf? && ShowsBranches(rules, target, s, t)
    ensures ActionsOf(t.branches) == rules.actions(s)
  {
    forall a: nat | a < |t.branches| ensures ActionsOf(t.branches)[a] == rules.actions(s)[a] {
      assert ShowsBranch(rules, target, s, t, a);
    }
  }

  function OddsAt<S>(rules: Play.Rules<S>, s: S): (odds: seq<real>)
    ensures |odds| == |rules.actions(s)|
  {
    seq(|rules.actions(s)|, (a: nat) requires a < |rules.actions(s)| => rules.odds(s, rules.actions(s)[a]))
  }

  lemma OddsShown<S>(rules: Play.Rules<S>, target: nat, s: S, t: Tree)
    requires t.Nature? && ShowsBranches(rules, target, s, t)
    ensures OddsOf(t.branches) == OddsAt(rules, s)
  {
    forall a: nat | a < |t.branches| ensures OddsOf(t.branches)[a] == OddsAt(rules, s)[a] {
      assert ShowsBranch(rules, target, s, t, a);
    }
  }

  // ---- What the records of a traversal fit ----

  ghost predicate Kept(nodes: map<Key, nat>, nodes': map<Key, nat>) {
    forall key :: key in nodes ==> key in nodes' && nodes'[key] == nodes[key]
  }

  ghost predicate MemoFits(s: State, key: Key)
    requires key in s.memo
  {
    key in s.nodes && s.nodes[key] == |s.memo[key].actions|
  }

  ghost predicate PendingFits(s: State, key: Key)
    requires key in s.pending
  {
    key in s.nodes && s.nodes[key] == |s.pending[key].regret| == |s.pending[key].strategy|
  }

  // Every record is of a node, and as long as its list of actions.
  ghost predicate Fits(s: State) {
    && (forall key :: key in s.memo ==> MemoFits(s, key))
    && (forall key :: key in s.pending ==> PendingFits(s, key))
  }

  ghost predicate Met(nodes: map<Key, nat>, key: Key, n: nat) {
    key in nodes && nodes[key] == n
  }

  class Workspace {
    const mode: Mode
    const g: Rules
    const mix: nat -> nat
    var random: nat
    var visits: nat
    var nodes: map<Key, nat>
    var memo: map<Key, Memo>
    // The information sets with pending changes, in the order they were first met.
    var entries: seq<Key>
    var pending: map<Key, Pending>

    function Now(): State
      reads this
    {
      State(random, visits, nodes, memo, pending)
    }

    ghost predicate Valid()
      reads this
    {
      && g.maxActions <= MAX_ACTIONS && Fits(Now())
      && (forall i, j :: 0 <= i < j < |entries| ==> entries[i] != entries[j])
      && (forall key :: key in entries <==> key in pending)
    }

    constructor (mode: Mode, g: Rules, mix: nat -> nat)
      requires g.maxActions <= MAX_ACTIONS
      ensures Valid() && this.mode == mode && this.g == g && this.mix == mix
      ensures Now() == SnapshotRefinement.Start(0, map[])
    {
      this.mode, this.g, this.mix, nodes := mode, g, mix, map[];
      random, visits, memo, entries, pending := 0, 0, map[], [], map[];
    }

    method Reset(random: nat, nodes: map<Key, nat>)
      requires Valid()
      modifies this
      ensures Valid() && Now() == SnapshotRefinement.Start(random, nodes) && entries == []
    {
      this.random, this.nodes := random, nodes;
      visits, memo, entries, pending := 0, map[], [], map[];
    }

    method GetOrCreateNode(key: Key, n: nat) returns (status: Status)
      requires Valid()
      modifies this`nodes
      ensures Valid() && Kept(old(nodes), nodes) && (status == Success ==> Met(nodes, key, n))
      ensures status == if old(CountDiffers(Now(), key, n)) then InvalidArgument else Success
      ensures nodes == if status == Success then old(nodes)[key := n] else old(nodes)
    {
      if key in nodes && nodes[key] != n {
        return InvalidArgument;
      }
      ghost var before := Now();
      nodes := nodes[key := n];
      MoreNodesFit(before, Now());
      return Success;
    }

    // The strategy for this traversal: of the node itself, or of the snapshot taken at the first visit.
    method StrategyAt(key: Key, actions: seq<Action>) returns (status: Status, p: seq<real>)
      requires Valid()
      modifies this`nodes, this`memo
      ensures Valid() && Looked(status, p, Now()) == Look(mode, old(Now()), key, actions)
      ensures Kept(old(nodes), nodes) && (status == Success ==> Met(nodes, key, |actions|))
    {
      p := [];
      match mode {
        case Sequential(profile) =>
          status := GetOrCreateNode(key, |actions|);
          if status == Success {
            p := profile(key, |actions|);
          }
        case Snapshots(shared) =>
          if key in memo {
            assert MemoFits(Now(), key);
            if memo[key].actions != actions {
              return InvalidArgument, [];
            }
            return Success, memo[key].probabilities;
          }
          status := GetOrCreateNode(key, |actions|);
          if status == Success {
            p := shared(visits, key, |actions|);
            ghost var before := Now();
            memo := memo[key := Memo(actions, p, Sampling.None)];
            MemoAdded(before, Now(), key);
          }
      }
    }

    method DrawFrom(p: seq<real>) returns (status: Status, index: nat)
      requires Valid() && |p| <= Sampling.WORD
      modifies this`random
      ensures Valid() && Drawn(status, index, random) == Draw(p, old(random), mix)
    {
      if |p| == 0 {
        return InvalidArgument, 0;
      }
      var next := Advance(random);
      var word := mix(next) % Sampling.WORD;
      var drawn := Sampling.SampleIndex(p, word);
      match drawn {
        case None =>
          return InvalidArgument, 0;
        case Some(i) =>
          PickDraws(p, word);
          Sampling.OnlyOne(p, i, Pick(p, word, |p|), word);
          ghost var before := Now();
          random := next;
          SameRecordsFit(before, Now());
          return Success, i;
      }
    }

    method SampleAction(key: Key, actions: seq<Action>, p: seq<real>) returns (status: Status, index: nat)
      requires Valid() && |p| <= Sampling.WORD && Met(nodes, key, |actions|)
      modifies this`random, this`memo
      ensures Valid() && Sampled(status, index, Now()) == Sample(mode, old(Now()), key, actions, p, mix)
    {
      var entry := Memo(actions, [], Sampling.None);
      if key in memo {
        entry := memo[key];
        if entry.actions != actions {
          return InvalidArgument, 0;
        }
      } else if mode.Snapshots? {
        return InvalidArgument, 0;
      }
      if entry.sampled.Some? {
        index := entry.sampled.value;
        status := if index < |actions| then Success else InvalidArgument;
        index := if status == Success then index else 0;
        return;
      }
      status, index := DrawFrom(p);
      if status == Success {
        ghost var before := Now();
        memo := memo[key := entry.(sampled := Sampling.Some(index))];
        MemoAdded(before, Now(), key);
      } else {
        index := 0;
      }
    }

    method Record(key: Key, regret: seq<real>, strategy: seq<real>)
      requires Valid() && |regret| == |strategy| && Met(nodes, key, |regret|)
      modifies this`pending, this`entries
      ensures Valid() && Now() == Add(old(Now()), key, regret, strategy)
    {
      var d := PendingAt(pending, key, |regret|);
      if key !in pending {
        entries := entries + [key];
      }
      ghost var before := Now();
      pending := pending[key := Pending(R.Plus(d.regret, regret), R.Plus(d.strategy, strategy))];
      PendingAdded(before, Now(), key);
    }

    method CountVisit()
      requires Valid()
      modifies this`visits
      ensures Valid() && Now() == old(Now()).(visits := Capped(old(visits)))
    {
      ghost var before := Now();
      visits := Capped(visits);
      SameRecordsFit(before, Now());
    }

    method TraverseBranch<S>(state: Play.GameState<S>, ghost t: Tree, own: real, average: bool) returns (status: Status, utility: real)
      requires Valid() && Shown(state, t)
      modifies this, state
      ensures Valid() && state.position == old(state.position) && Kept(old(nodes), nodes)
      ensures Result(status, utility, Now()) == Walk(mode, g, mix, t, own, old(Now()), average)
      decreases t, |Kids(t)| + 1
    {
      CountVisit();
      if state.rules.terminal(state.position) {
        return Success, state.rules.utility(state.position, g.target);
      }
      match state.rules.actor(state.position) {
        case ByChance =>
          status, utility := TraverseChance(state, t, own, average);
        case ByPlayer(player) =>
          var actions := state.rules.actions(state.position);
          ActionsShown(state.rules, g.target, state.position, t);
          if !Play.PlayerIsValid(g.players, player) || |actions| == 0 || |actions| > g.maxActions {
            return InvalidArgument, 0.0;
          }
          var p;
          status, p := StrategyAt(state.rules.key(state.position), actions);
          if status != Success {
            return status, 0.0;
          }
          if |p| != |actions| {
            return InvalidArgument, 0.0;
          }
          status, utility := TraverseTurn(state, t, player, actions, p, own, average);
      }
    }

    // What the target sees is t.
    ghost predicate Shown<S>(state: Play.GameState<S>, t: Tree)
      reads state
    {
      state.rules.players == g.players && Shows(state.rules, g.target, state.position, t)
    }

    ghost predicate ShownTurn<S>(state: Play.GameState<S>, t: Tree, actions: seq<Action>, p: seq<real>)
      reads this, state
    {
      && Shown(state, t) && t.Turn? && ShowsBranches(state.rules, g.target, state.position, t)
      && actions == ActionsOf(t.branches) == state.rules.actions(state.position)
      && 0 < |p| == |t.branches| <= g.maxActions && Met(nodes, t.key, |p|)
    }

    method TraverseTurn<S>(state: Play.GameState<S>, ghost t: Tree, player: nat, actions: seq<Action>, p: seq<real>, own: real, average: bool)
      returns (status: Status, utility: real)
      requires Valid() && ShownTurn(state, t, actions, p) && t.player == player
      modifies this, state
      ensures Valid() && state.position == old(state.position) && Kept(old(nodes), nodes)
      ensures Result(status, utility, Now()) == WalkTurn(mode, g, mix, t, p, own, old(Now()), average)
      decreases t, |Kids(t)|, 2
    {
      if average {
        status, utility := TraverseAverage(state, t, player, actions, p, own);
      } else if player == g.target {
        status, utility := TraverseTarget(state, t, actions, p, own);
      } else {
        status, utility := TraverseOpponent(state, t, actions, p, own);
      }
    }

    // Applies the action, visits what follows, and undoes the action whatever came of it.
    method TraverseBelow<S>(state: Play.GameState<S>, ghost t: Tree, action: Action, ghost a: nat, own: real, average: bool)
      returns (status: Status, utility: real)
      requires Valid() && Shown(state, t) && !t.Leaf? && a < |t.branches| && action == t.branches[a].action
      modifies this, state
      ensures Valid() && state.position == old(state.position) && Kept(old(nodes), nodes)
      ensures Result(status, utility, Now()) == Walk(mode, g, mix, t.branches[a].next, own, old(Now()), average)
      decreases t, 0
    {
      assert ShowsBranches(state.rules, g.target, state.position, t);
      assert ShowsBranch(state.rules, g.target, state.position, t, a);
      state.Apply(action);
      status, utility := TraverseBranch(state, t.branches[a].next, own, average);
      state.Undo();
    }

    // The outcomes must be a distribution; one of them is drawn.
    method TraverseChance<S>(state: Play.GameState<S>, ghost t: Tree, own: real, average: bool) returns (status: Status, utility: real)
      requires Valid() && Shown(state, t) && t.Nature?
      modifies this, state
      ensures Valid() && state.position == old(state.position) && Kept(old(nodes), nodes)
      ensures Result(status, utility, Now()) == WalkChance(mode, g, mix, t, own, old(Now()), average)
      decreases t, |Kids(t)|, 2
    {
      var actions := state.rules.actions(state.position);
      var odds := OddsAt(state.rules, state.position);
      ActionsShown(state.rules, g.target, state.position, t);
      OddsShown(state.rules, g.target, state.position, t);
      if !ChanceOk(odds, g.maxActions) {
        return InvalidArgument, 0.0;
      }
      var index;
      status, index := DrawFrom(odds);
      if status != Success {
        return status, 0.0;
      }
      if odds[index] <= 0.0 {
        return NumericError, 0.0;
      }
      status, utility := TraverseBelow(state, t, actions[index], index, own, average);
    }

    // Every action of the target player is tried.
    method TraverseTarget<S>(state: Play.GameState<S>, ghost t: Tree, actions: seq<Action>, p: seq<real>, own: real)
      returns (status: Status, utility: real)
      requires Valid() && ShownTurn(state, t, actions, p)
      modifies this, state
      ensures Valid() && state.position == old(state.position) && Kept(old(nodes), nodes)
      ensures Result(status, utility, Now()) == WalkTarget(mode, g, mix, t, p, own, old(Now()))
      decreases t, |Kids(t)|, 1
    {
      ghost var start := Now();
      var utilities: seq<real> := [];
      utility := 0.0;
      for action := 0 to |actions|
        invariant Valid() && |utilities| == action && state.position == old(state.position) && Kept(old(nodes), nodes)
        invariant Loop(Success, utility, utilities, Now()) == Branches(mode, g, mix, t, p, own, start, action)
      {
        var below;
        status, below := TraverseBelow(state, t, actions[action], action, Weighted(own, p[action]), false);
        if status != Success {
          BranchFailed(mode, g, mix, t, p, own, start, action, action + 1, |t.branches|);
          return status, 0.0;
        }
        utility := utility + Weighted(p[action], below);
        utilities := utilities + [below];
      }
      if g.players == 1 && own < 0.0 {
        return NumericError, 0.0;
      }
      Record(state.rules.key(state.position), Shifted(utilities, utility), if g.players == 1 then Scaled(own, p) else Zeros(|p|));
      status := Success;
    }

    // One action of another player is drawn, once for the whole traversal.
    method TraverseOpponent<S>(state: Play.GameState<S>, ghost t: Tree, actions: seq<Action>, p: seq<real>, own: real)
      returns (status: Status, utility: real)
      requires Valid() && ShownTurn(state, t, actions, p)
      modifies this, state
      ensures Valid() && state.position == old(state.position) && Kept(old(nodes), nodes)
      ensures Result(status, utility, Now()) == WalkOpponent(mode, g, mix, t, p, own, old(Now()))
      decreases t, |Kids(t)|, 1
    {
      var key := state.rules.key(state.position);
      var index;
      status, index := SampleAction(key, actions, p);
      if status != Success {
        return status, 0.0;
      }
      if index >= |p| || p[index] <= 0.0 {
        return NumericError, 0.0;
      }
      if g.players <= 2 {
        Record(key, Zeros(|p|), Scaled(1.0, p));
      }
      status, utility := TraverseBelow(state, t, actions[index], index, own, false);
    }

    method TraverseAverage<S>(state: Play.GameState<S>, ghost t: Tree, player: nat, actions: seq<Action>, p: seq<real>, weight: real)
      returns (status: Status, utility: real)
      requires Valid() && ShownTurn(state, t, actions, p) && t.player == player
      modifies this, state
      ensures Valid() && state.position == old(state.position) && Kept(old(nodes), nodes)
      ensures Result(status, utility, Now()) == WalkAverage(mode, g, mix, t, p, weight, old(Now()))
      decreases t, |Kids(t)|, 1
    {
      if player == g.target {
        if weight < 0.0 {
          return NumericError, 0.0;
        }
        Record(state.rules.key(state.position), Zeros(|p|), Scaled(weight, p));
      }
      var action := DrawUniform(|p|);
      var child := WeightThrough(player == g.target, p, weight, action);
      if child == 0.0 {
        return Success, 0.0;
      }
      status, utility := TraverseBelow(state, t, actions[action], action, child, true);
      utility := 0.0;
    }

    method DrawUniform(n: nat) returns (action: nat)
      requires Valid() && n > 0
      modifies this`random
      ensures Valid() && random == Advance(old(random)) && action == Uniform(mix(random), n)
    {
      ghost var before := Now();
      random := Advance(random);
      SameRecordsFit(before, Now());
      action := Uniform(mix(random), n);
    }

    // Both passes over the game, and on success the changes added to the sums; the caller's random state moves on
    // only then. Either way the game ends in the state it began in.
    method TraverseAndCommit<S>(state: Play.GameState<S>, ghost game: Play.Tree, x: Learned, random0: nat)
      returns (status: Status, utility: real, x': Learned, random': nat)
      requires Valid() && Play.Unfolds(state.rules, state.position, game) && state.rules.players == g.players
      modifies this, state
      ensures Valid() && state.position == old(state.position)
      ensures var o := Teach(mode, g, mix, ForTarget(game, g.target), x, random0);
        status == o.status && x' == o.learned && random' == o.random
        && (status == Success ==> visits == o.visits && utility == o.utility)
    {
      x', random', utility := x, random0, 0.0;
      ghost var t := ForTarget(game, g.target);
      UnfoldsShows(state.rules, g.target, state.position, game);
      Reset(random0, Counts(x));
      if !CanTraverse(g) {
        status := InvalidArgument;
      } else {
        status, utility := TraverseBothPasses(state, t, random0, Counts(x));
      }
      var regrets, strategies := Created(x.regrets, nodes), Created(x.strategies, nodes);
      x' := Learned(regrets, strategies);
      if status == Success {
        status := CheckChanges(x.strategies);
        if status == Success {
          regrets := AddAll(entries, Regrets(pending), regrets);
          strategies := AddAll(entries, Strategies(pending), strategies);
          AddedIs(x.regrets, nodes, Regrets(pending), regrets);
          AddedIs(x.strategies, nodes, Strategies(pending), strategies);
          x', random' := Learned(regrets, strategies), random;
        }
      }
    }

    method TraverseBothPasses<S>(state: Play.GameState<S>, ghost t: Tree, ghost random0: nat, ghost nodes0: map<Key, nat>)
      returns (status: Status, utility: real)
      requires Valid() && Shown(state, t) && CanTraverse(g) && Now() == SnapshotRefinement.Start(random0, nodes0)
      modifies this, state
      ensures Valid() && state.position == old(state.position)
      ensures Result(status, utility, Now()) == Traverse(mode, g, mix, t, SnapshotRefinement.Start(random0, nodes0))
    {
      status, utility := TraverseBranch(state, t, 1.0, false);
      if status == Success && g.players > 2 {
        var ignored;
        status, ignored := TraverseBranch(state, t, 1.0, true);
      }
    }

    // No strategy sum may become negative.
    method CheckChanges(strategies: Totals) returns (status: Status)
      requires Valid()
      ensures status == if Committable(strategies, pending) then Success else NumericError
    {
      for i := 0 to |entries|
        invariant forall j :: 0 <= j < i ==> CommittableAt(strategies, pending, entries[j])
      {
        var key := entries[i];
        assert key in pending;
        if !CommittableAt(strategies, pending, key) {
          return NumericError;
        }
      }
      status := Success;
    }
  }

  // ---- Fitting records ----

  lemma MoreNodesFit(s: State, s': State)
    requires Fits(s) && s'.memo == s.memo && s'.pending == s.pending && Kept(s.nodes, s'.nodes)
    ensures Fits(s')
  {
    forall key | key in s'.memo ensures MemoFits(s', key) {
      assert MemoFits(s, key);
    }
    forall key | key in s'.pending ensures PendingFits(s', key) {
      assert PendingFits(s, key);
    }
  }

  lemma SameRecordsFit(s: State, s': State)
    requires Fits(s) && s'.memo == s.memo && s'.pending == s.pending && s'.nodes == s.nodes
    ensures Fits(s')
  {
    MoreNodesFit(s, s');
  }

  lemma MemoAdded(s: State, s': State, key: Key)
    requires Fits(s) && key in s'.memo && s'.memo == s.memo[key := s'.memo[key]] && Met(s.nodes, key, |s'.memo[key].actions|)
    requires s'.pending == s.pending && s'.nodes == s.nodes
    ensures Fits(s')
  {
    forall k | k in s'.memo ensures MemoFits(s', k) {
      if k != key {
        assert MemoFits(s, k);
      }
    }
    forall k | k in s'.pending ensures PendingFits(s', k) {
      assert PendingFits(s, k);
    }
  }

  lemma PendingAdded(s: State, s': State, key: Key)
    requires Fits(s) && key in s'.pending && s'.pending == s.pending[key := s'.pending[key]]
    requires |s'.pending[key].regret| == |s'.pending[key].strategy| && Met(s.nodes, key, |s'.pending[key].regret|)
    requires s'.memo == s.memo && s'.nodes == s.nodes
    ensures Fits(s')
  {
    forall k | k in s'.memo ensures MemoFits(s', k) {
      assert MemoFits(s, k);
    }
    forall k | k in s'.pending ensures PendingFits(s', k) {
      if k != key {
        assert PendingFits(s, k);
      }
    }
  }

  // ---- What a traversal and its commit do, as a function ----

  // The regret sums and the strategy sums of a store's nodes.
  datatype Learned = Learned(regrets: Totals, strategies: Totals)

  function Counts(x: Learned): map<Key, nat> {
    map k | k in x.regrets :: |x.regrets[k]|
  }

  // The sums of the nodes there are, zero for new ones.
  function Created(before: Totals, nodes: map<Key, nat>): Totals {
    map k | k in nodes :: TotalAt(before, k, nodes[k])
  }

  // The same, with the changes added.
  function AddedTo(before: Totals, nodes: map<Key, nat>, changes: map<Key, seq<real>>): Totals {
    map k | k in nodes ::
      if k in changes && |changes[k]| == nodes[k] then R.Plus(TotalAt(before, k, nodes[k]), changes[k])
      else TotalAt(before, k, nodes[k])
  }

  predicate CommittableAt(strategies: Totals, pending: map<Key, Pending>, k: Key)
    requires k in pending
  {
    R.Allowed(TotalAt(strategies, k, |pending[k].strategy|), pending[k].strategy)
  }

  predicate Committable(strategies: Totals, pending: map<Key, Pending>) {
    forall k :: k in pending ==> CommittableAt(strategies, pending, k)
  }

  datatype Taught = Taught(status: Status, utility: real, learned: Learned, random: nat, visits: nat)

  // A traversal that fails leaves the sums and the random state alone; it may have added nodes.
  function Teach(mode: Mode, g: Rules, mix: nat -> nat, t: Tree, x: Learned, random: nat): Taught {
    var r := Traverse(mode, g, mix, t, SnapshotRefinement.Start(random, Counts(x)));
    var created := Learned(Created(x.regrets, r.state.nodes), Created(x.strategies, r.state.nodes));
    if r.status != Success then Taught(r.status, 0.0, created, random, 0)
    else if !Committable(x.strategies, r.state.pending) then Taught(NumericError, 0.0, created, random, 0)
    else
      Taught(Success, r.utility,
             Learned(AddedTo(x.regrets, r.state.nodes, Regrets(r.state.pending)),
                     AddedTo(x.strategies, r.state.nodes, Strategies(r.state.pending))),
             r.state.random, r.state.visits)
  }

  // Adding every change once to the created sums gives that.
  lemma AddedIs(before: Totals, nodes: map<Key, nat>, changes: map<Key, seq<real>>, after: Totals)
    requires Committed(Created(before, nodes), after, changes)
    requires forall k :: k in changes ==> k in nodes && |changes[k]| == nodes[k]
    ensures after == AddedTo(before, nodes, changes)
  {
    var expected := AddedTo(before, nodes, changes);
    forall k ensures k in after.Keys <==> k in expected.Keys {
      assert CommittedAt(Created(before, nodes), after, changes, k in changes, k);
    }
    assert after.Keys == expected.Keys;
    forall k | k in after ensures after[k] == expected[k] {
      assert CommittedAt(Created(before, nodes), after, changes, k in changes, k);
    }
  }

  function Regrets(pending: map<Key, Pending>): map<Key, seq<real>> {
    map key | key in pending :: pending[key].regret
  }

  function Strategies(pending: map<Key, Pending>): map<Key, seq<real>> {
    map key | key in pending :: pending[key].strategy
  }

  // The total of an information set after its change, if it has one.
  ghost predicate CommittedAt(before: Totals, after: Totals, changes: map<Key, seq<real>>, changed: bool, key: Key) {
    && (key in after <==> key in before || changed)
    && (changed ==> key in changes && key in after
                    && after[key] == R.Plus(TotalAt(before, key, |changes[key]|), changes[key]))
    && (!changed && key in before ==> key in after && after[key] == before[key])
  }

  // Every total with a change has it added once, every other total is as it was.
  ghost predicate Committed(before: Totals, after: Totals, changes: map<Key, seq<real>>) {
    forall key :: CommittedAt(before, after, changes, key in changes, key)
  }

  ghost predicate CommittedUpTo(before: Totals, after: Totals, changes: map<Key, seq<real>>, done: seq<Key>) {
    forall key :: CommittedAt(before, after, changes, key in done, key)
  }

  lemma CommitOne(before: Totals, after: Totals, changes: map<Key, seq<real>>, done: seq<Key>, key: Key)
    requires CommittedUpTo(before, after, changes, done) && key in changes && key !in done
    ensures CommittedUpTo(before, after[key := R.Plus(TotalAt(after, key, |changes[key]|), changes[key])], changes, done + [key])
  {
    var later := after[key := R.Plus(TotalAt(after, key, |changes[key]|), changes[key])];
    assert CommittedAt(before, after, changes, false, key);
    assert TotalAt(after, key, |changes[key]|) == TotalAt(before, key, |changes[key]|);
    forall k
      ensures CommittedAt(before, later, changes, k in done + [key], k)
    {
      assert CommittedAt(before, after, changes, k in done, k);
    }
  }

  method AddAll(entries: seq<Key>, changes: map<Key, seq<real>>, before: Totals) returns (after: Totals)
    requires forall i, j :: 0 <= i < j < |entries| ==> entries[i] != entries[j]
    requires forall key :: key in entries <==> key in changes
    ensures Committed(before, after, changes)
  {
    after := before;
    for index := 0 to |entries|
      invariant CommittedUpTo(before, after, changes, entries[..index])
    {
      var key := entries[index];
      CommitOne(before, after, changes, entries[..index], key);
      after := after[key := R.Plus(TotalAt(after, key, |changes[key]|), changes[key])];
      assert entries[..index + 1] == entries[..index] + [key];
    }
    assert entries[..|entries|] == entries;
    forall key
      ensures CommittedAt(before, after, changes, key in changes, key)
    {
      assert CommittedAt(before, after, changes, key in entries, key);
    }
  }

  lemma {:induction false} BranchFailed(mode: Mode, g: Rules, mix: nat -> nat, t: Tree, p: seq<real>, own: real, s: State,
                                        i: nat, k: nat, n: nat)
    requires t.Turn? && |p| == |t.branches| && k == i + 1 <= n <= |p|
    requires Branches(mode, g, mix, t, p, own, s, k).status != Success
    ensures Branches(mode, g, mix, t, p, own, s, n) == Branches(mode, g, mix, t, p, own, s, k)
    decreases n
  {
    if k < n {
      BranchFailed(mode, g, mix, t, p, own, s, i, k, n - 1);
    }
  }
}
