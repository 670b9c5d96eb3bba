// The trainer's iteration loop: what a run leaves in the store and in the counters, when it reports progress,
// and that stopping, saving, loading and going on changes nothing.
module Trainer {
  import opened Checkpoint
  import opened CheckpointIntegrity
  import CheckpointWriter

  const SIZE_MAX: nat := WORD - 1

  // The nodes of a store as a checkpoint holds them.
  type Nodes = map<int, Record>

  // One traversal for one player: it updates the store and, when it samples, the random state. A traversal
  // that fails may already have added nodes or drawn numbers. N is what the store holds.
  datatype Step<N> =
    | Done(nodes: N, random: nat, visited: nat)
    | Broke(nodes: N, random: nat, status: Status)

  type Traversal<!N> = (N, nat, nat, nat) -> Step<N>

  datatype State<N> = State(nodes: N, random: nat, counters: Counters)

  datatype Ran<N> = Ran(status: Status, state: State<N>)

  function Capped(a: nat, b: nat): (c: nat)
    ensures c <= SIZE_MAX
  {
    if a + b <= SIZE_MAX then a + b else SIZE_MAX
  }

  // ---- A run, as a function ----

  function Player<N>(f: Traversal<N>, s: State<N>, player: nat, iteration: nat): Ran<N> {
    match f(s.nodes, s.random, player, iteration)
    case Broke(nodes, random, status) =>
      Ran(if status == Success then InvalidArgument else status,
          State(nodes, random, s.counters.(errors := Capped(s.counters.errors, 1))))
    case Done(nodes, random, visited) =>
      Ran(Success, State(nodes, random, s.counters.(traversals := Capped(s.counters.traversals, 1),
                                                    visited := Capped(s.counters.visited, visited))))
  }

  // The players below the given number, in order.
  function Players<N>(f: Traversal<N>, s: State<N>, players: nat, iteration: nat): Ran<N>
    decreases players
  {
    if players == 0 then Ran(Success, s) else
      var before := Players(f, s, players - 1, iteration);
      if before.status != Success then before else Player(f, before.state, players - 1, iteration)
  }

  function Iteration<N>(f: Traversal<N>, s: State<N>, players: nat): Ran<N> {
    var r := Players(f, s, players, Capped(s.counters.training, 1));
    if r.status != Success then r else
      var c := r.state.counters;
      Ran(Success, r.state.(counters := c.(iterations := Capped(c.iterations, 1), training := Capped(c.training, 1))))
  }

  function Run<N>(f: Traversal<N>, s: State<N>, players: nat, amount: nat): Ran<N>
    decreases amount
  {
    if amount == 0 then Ran(Success, s) else
      var before := Run(f, s, players, amount - 1);
      if before.status != Success then before else Iteration(f, before.state, players)
  }

  // ---- Runs add up ----

  lemma {:induction false} RunsCompose<N>(f: Traversal<N>, s: State<N>, players: nat, m: nat, n: nat)
    ensures var first := Run(f, s, players, m);
      Run(f, s, players, m + n) == if first.status != Success then first else Run(f, first.state, players, n)
    decreases n
  {
    if n > 0 {
      RunsCompose(f, s, players, m, n - 1);
      assert m + n - 1 == m + (n - 1);
    }
  }

  lemma {:induction false} PlayersCounters<N>(f: Traversal<N>, s: State<N>, players: nat, iteration: nat)
    requires s.counters.traversals <= SIZE_MAX
    ensures var r := Players(f, s, players, iteration);
      && r.state.counters.training == s.counters.training && r.state.counters.iterations == s.counters.iterations
      && (r.status == Success ==> (r.state.counters.traversals == Capped(s.counters.traversals, players)
                                   && r.state.counters.errors == s.counters.errors))
      && (r.status != Success ==> r.state.counters.errors == Capped(s.counters.errors, 1))
    decreases players
  {
    if players > 0 {
      PlayersCounters(f, s, players - 1, iteration);
    }
  }

  // After a run the counters are what they were plus the work done, held at the largest size.
  lemma {:induction false} RunCounters<N>(f: Traversal<N>, s: State<N>, players: nat, amount: nat)
    requires s.counters.training <= SIZE_MAX && s.counters.iterations <= SIZE_MAX && s.counters.traversals <= SIZE_MAX
    ensures var r := Run(f, s, players, amount);
      r.status == Success ==>
        (r.state.counters.training == Capped(s.counters.training, amount)
         && r.state.counters.iterations == Capped(s.counters.iterations, amount)
         && r.state.counters.traversals == Capped(s.counters.traversals, amount * players)
         && r.state.counters.errors == s.counters.errors)
    decreases amount
  {
    if amount > 0 {
      RunCounters(f, s, players, amount - 1);
      var before := Run(f, s, players, amount - 1);
      if before.status == Success {
        PlayersCounters(f, before.state, players, Capped(before.state.counters.training, 1));
        Distribute(amount, players);
      }
    }
  }

  lemma Distribute(amount: nat, players: nat)
    requires amount > 0
    ensures amount * players == (amount - 1) * players + players
  {
  }

  // ---- What a run raises ----

  // A measure of the store, and by how much one traversal may raise it.
  datatype Rise<!N> = Rise(level: N -> real, gain: (N, nat, nat, nat) -> real)

  ghost predicate StepRises<N>(f: Traversal<N>, rise: Rise<N>, nodes: N, random: nat, player: nat, iteration: nat) {
    var o := f(nodes, random, player, iteration);
    o.Done? ==> rise.level(o.nodes) <= rise.level(nodes) + rise.gain(nodes, random, player, iteration)
  }

  ghost predicate Rises<N(!new)>(f: Traversal<N>, rise: Rise<N>) {
    forall nodes, random, player, iteration :: StepRises(f, rise, nodes, random, player, iteration)
  }

  function PlayersGain<N>(f: Traversal<N>, rise: Rise<N>, s: State<N>, players: nat, iteration: nat): real
    decreases players
  {
    if players == 0 then 0.0 else
      var before := Players(f, s, players - 1, iteration).state;
      PlayersGain(f, rise, s, players - 1, iteration) + rise.gain(before.nodes, before.random, players - 1, iteration)
  }

  // The gains of all the traversals of a run.
  function RunGain<N>(f: Traversal<N>, rise: Rise<N>, s: State<N>, players: nat, amount: nat): real
    decreases amount
  {
    if amount == 0 then 0.0 else
      var before := Run(f, s, players, amount - 1).state;
      RunGain(f, rise, s, players, amount - 1) + PlayersGain(f, rise, before, players, Capped(before.counters.training, 1))
  }

  lemma {:induction false} PlayersRise<N(!new)>(f: Traversal<N>, rise: Rise<N>, s: State<N>, players: nat, iteration: nat)
    requires Rises(f, rise) && Players(f, s, players, iteration).status == Success
    ensures rise.level(Players(f, s, players, iteration).state.nodes)
         <= rise.level(s.nodes) + PlayersGain(f, rise, s, players, iteration)
    decreases players
  {
    if players > 0 {
      PlayersRise(f, rise, s, players - 1, iteration);
      var before := Players(f, s, players - 1, iteration).state;
      assert StepRises(f, rise, before.nodes, before.random, players - 1, iteration);
    }
  }

  // A successful run raises the measure by at most the gains of its traversals.
  lemma {:induction false} RunRises<N(!new)>(f: Traversal<N>, rise: Rise<N>, s: State<N>, players: nat, amount: nat)
    requires Rises(f, rise) && Run(f, s, players, amount).status == Success
    ensures rise.level(Run(f, s, players, amount).state.nodes) <= rise.level(s.nodes) + RunGain(f, rise, s, players, amount)
    decreases amount
  {
    if amount > 0 {
      RunRises(f, rise, s, players, amount - 1);
      var before := Run(f, s, players, amount - 1).state;
      PlayersRise(f, rise, before, players, Capped(before.counters.training, 1));
    }
  }

  // ---- One traversal in place of another ----

  // Where the first succeeds, the second does the same.
  ghost predicate FollowsAt<N>(f: Traversal<N>, h: Traversal<N>, nodes: N, random: nat, player: nat, iteration: nat) {
    f(nodes, random, player, iteration).Done? ==> h(nodes, random, player, iteration) == f(nodes, random, player, iteration)
  }

  ghost predicate Follows<N(!new)>(f: Traversal<N>, h: Traversal<N>) {
    forall nodes, random, player, iteration :: FollowsAt(f, h, nodes, random, player, iteration)
  }

  lemma {:induction false} PlayersFollow<N(!new)>(f: Traversal<N>, h: Traversal<N>, s: State<N>, players: nat, iteration: nat)
    requires Follows(f, h) && Players(f, s, players, iteration).status == Success
    ensures Players(h, s, players, iteration) == Players(f, s, players, iteration)
    decreases players
  {
    if players > 0 {
      PlayersFollow(f, h, s, players - 1, iteration);
      var before := Players(f, s, players - 1, iteration).state;
      assert FollowsAt(f, h, before.nodes, before.random, players - 1, iteration);
    }
  }

  // So a successful run with the first is the run with the second.
  lemma {:induction false} RunFollows<N(!new)>(f: Traversal<N>, h: Traversal<N>, s: State<N>, players: nat, amount: nat)
    requires Follows(f, h) && Run(f, s, players, amount).status == Success
    ensures Run(h, s, players, amount) == Run(f, s, players, amount)
    decreases amount
  {
    if amount > 0 {
      RunFollows(f, h, s, players, amount - 1);
      var before := Run(f, s, players, amount - 1).state;
      PlayersFollow(f, h, before, players, Capped(before.counters.training, 1));
    }
  }

  // ---- Stopping and going on ----

  function HeaderOf<N>(variant: Variant, s: State<N>): Header {
    Header(if variant.Mccfr? then Mccfr(s.random) else variant, s.counters)
  }

  // What loading makes of a checkpoint: the random state of the variants that do not sample is not stored.
  function Restored<N>(h: Header, nodes: N): State<N> {
    State(nodes, if h.variant.Mccfr? then h.variant.random else 0, h.counters)
  }

  // A traversal that does not sample neither reads nor passes on the random state.
  ghost predicate Unsampled<N(!new)>(f: Traversal<N>) {
    forall nodes, random, other, player, iteration ::
      SameStep(f(nodes, random, player, iteration), f(nodes, other, player, iteration))
  }

  ghost predicate SameStep<N>(a: Step<N>, b: Step<N>) {
    match a
    case Done(nodes, _, visited) => b.Done? && b.nodes == nodes && b.visited == visited
    case Broke(nodes, _, status) => b.Broke? && b.nodes == nodes && b.status == status
  }

  // Equal but for the random state.
  ghost predicate SameLearning<N>(a: State<N>, b: State<N>) {
    a.nodes == b.nodes && a.counters == b.counters
  }

  ghost predicate SameRun<N>(a: Ran<N>, b: Ran<N>) {
    a.status == b.status && SameLearning(a.state, b.state)
  }

  lemma SamePlayer<N(!new)>(f: Traversal<N>, a: State<N>, b: State<N>, player: nat, iteration: nat)
    requires Unsampled(f) && SameLearning(a, b)
    ensures SameRun(Player(f, a, player, iteration), Player(f, b, player, iteration))
  {
    assert SameStep(f(a.nodes, a.random, player, iteration), f(a.nodes, b.random, player, iteration));
  }

  lemma {:induction false} SamePlayers<N(!new)>(f: Traversal<N>, a: State<N>, b: State<N>, players: nat, iteration: nat)
    requires Unsampled(f) && SameLearning(a, b)
    ensures SameRun(Players(f, a, players, iteration), Players(f, b, players, iteration))
    decreases players
  {
    if players > 0 {
      SamePlayers(f, a, b, players - 1, iteration);
      var x, y := Players(f, a, players - 1, iteration), Players(f, b, players - 1, iteration);
      if x.status == Success {
        SamePlayer(f, x.state, y.state, players - 1, iteration);
      }
    }
  }

  lemma {:induction false} SameRuns<N(!new)>(f: Traversal<N>, a: State<N>, b: State<N>, players: nat, amount: nat)
    requires Unsampled(f) && SameLearning(a, b)
    ensures SameRun(Run(f, a, players, amount), Run(f, b, players, amount))
    decreases amount
  {
    if amount > 0 {
      SameRuns(f, a, b, players, amount - 1);
      var x, y := Run(f, a, players, amount - 1), Run(f, b, players, amount - 1);
      if x.status == Success {
        SamePlayers(f, x.state, y.state, players, Capped(x.state.counters.training, 1));
      }
    }
  }

  // What a store holds and what its checkpoint holds tell each other.
  datatype Codec<!N> = Codec(encode: N -> Nodes, decode: Nodes -> N)

  // Running m iterations, saving, loading into a new trainer and running n more is running m + n: the same
  // nodes and counters, and for the sampling variant the same random state too.
  lemma ResumedRun<N(!new)>(f: Traversal<N>, variant: Variant, s: State<N>, players: nat, m: nat, n: nat,
                            codec: Codec<N>, nodes: seq<Record>, sorted: seq<Record>, game: Game, room: nat)
    requires variant.Mccfr? || Unsampled(f)
    requires Run(f, s, players, m).status == Success
    requires var mid := Run(f, s, players, m).state;
      && Distinct(nodes) && MapOf(nodes) == codec.encode(mid.nodes)
      && codec.decode(codec.encode(mid.nodes)) == mid.nodes
      && HeaderOk(HeaderOf(variant, mid))
      && CheckpointWriter.Savable(HeaderOf(variant, mid), nodes, game, true)
    requires CheckpointWriter.IsSnapshot(sorted, nodes) && |sorted| < WORD && |sorted| < room
    ensures var mid := Run(f, s, players, m).state;
      var loaded := Parse(File(game.schema, HeaderOf(variant, mid), sorted), game, room, false);
      && loaded.Loaded?
      && var resumed := Run(f, Restored(loaded.header, codec.decode(MapOf(loaded.records))), players, n);
         var straight := Run(f, s, players, m + n);
         if variant.Mccfr? then resumed == straight else SameRun(resumed, straight)
  {
    var mid := Run(f, s, players, m).state;
    CheckpointWriter.SavedLoads(HeaderOf(variant, mid), nodes, sorted, game, true, room);
    RunsCompose(f, s, players, m, n);
    var restored := Restored(HeaderOf(variant, mid), mid.nodes);
    if variant.Mccfr? {
      assert restored == mid;
    } else {
      SameRuns(f, restored, mid, players, n);
    }
  }

  // ---- The loop itself ----

  // The iterations after which a run of the given amount reports: every interval, and the last.
  predicate Reports(i: nat, amount: nat, interval: nat)
    requires interval > 0
  {
    0 < i <= amount && (i % interval == 0 || i == amount)
  }

  function Schedule(done: nat, amount: nat, interval: nat): (calls: seq<nat>)
    requires interval > 0
    decreases done
  {
    if done == 0 then [] else
      Schedule(done - 1, amount, interval) + if Reports(done, amount, interval) then [done] else []
  }

  class Session<N> {
    var nodes: N
    var random: nat
    var counters: Counters

    function Contents(): State<N>
      reads this
    {
      State(nodes, random, counters)
    }

    constructor (nodes: N, random: nat)
      ensures this.nodes == nodes && this.random == random && counters == Counters(0, 0, 0, 0, 0)
    {
      this.nodes := nodes;
      this.random := random;
      counters := Counters(0, 0, 0, 0, 0);
    }

    method RunPlayer(f: Traversal<N>, player: nat, iteration: nat) returns (status: Status)
      modifies this
      ensures Ran(status, Contents()) == Player(f, old(Contents()), player, iteration)
    {
      match f(nodes, random, player, iteration) {
        case Broke(after, drawn, failure) =>
          nodes, random := after, drawn;
          if counters.errors < SIZE_MAX {
            counters := counters.(errors := counters.errors + 1);
          } else {
            counters := counters.(errors := SIZE_MAX);
          }
          status := if failure == Success then InvalidArgument else failure;
        case Done(after, drawn, visited) =>
          nodes, random := after, drawn;
          counters := counters.(traversals := Capped(counters.traversals, 1),
                                visited := Capped(counters.visited, visited));
          status := Success;
      }
    }

    method RunPlayers(f: Traversal<N>, players: nat) returns (status: Status)
      modifies this
      ensures Ran(status, Contents()) == Players(f, old(Contents()), players, Capped(old(counters.training), 1))
    {
      var iteration := Capped(counters.training, 1);
      status := Success;
      var player := 0;
      while player < players
        invariant player <= players && status == Success
        invariant Ran(status, Contents()) == Players(f, old(Contents()), player, iteration)
      {
        status := RunPlayer(f, player, iteration);
        if status != Success {
          FailedStays(f, old(Contents()), player + 1, players, iteration);
          return;
        }
        player := player + 1;
      }
    }

    method RunIteration(f: Traversal<N>, players: nat) returns (status: Status)
      modifies this
      ensures Ran(status, Contents()) == Iteration(f, old(Contents()), players)
    {
      status := RunPlayers(f, players);
      if status == Success {
        counters := counters.(iterations := Capped(counters.iterations, 1), training := Capped(counters.training, 1));
      }
    }

    // One iteration more of a run that has succeeded so far.
    method RunNext(f: Traversal<N>, players: nat, ghost start: State<N>, ghost done: nat) returns (status: Status)
      requires Ran(Success, Contents()) == Run(f, start, players, done)
      modifies this
      ensures Ran(status, Contents()) == Run(f, start, players, done + 1)
    {
      status := RunIteration(f, players);
    }

    // Progress is reported on the schedule; the observer ends the run when it has lost its patience.
    method RunIterations(f: Traversal<N>, players: nat, amount: nat, interval: nat, patience: nat)
      returns (status: Status, done: nat, calls: seq<nat>)
      requires interval > 0
      modifies this
      ensures done <= amount && calls == Schedule(done, amount, interval)
      ensures status == Success ==> done == amount && |calls| <= patience
      ensures status != Success && |calls| <= patience ==>
        done < amount && Ran(status, Contents()) == Run(f, old(Contents()), players, done + 1)
      ensures status == Success || |calls| > patience ==>
        Ran(Success, Contents()) == Run(f, old(Contents()), players, done)
    {
      status, done, calls := Success, 0, [];
      var next: nat := if amount < interval then amount else interval;
      while done < amount
        invariant done <= amount && calls == Schedule(done, amount, interval) && |calls| <= patience
        invariant status == Success && Ran(Success, Contents()) == Run(f, old(Contents()), players, done)
        invariant NextReport(done, next, amount, interval)
      {
        status := RunNext(f, players, old(Contents()), done);
        ReportStep(done, next, amount, interval);
        if status != Success {
          return;
        }
        done := done + 1;
        if done == next {
          calls := calls + [done];
          if |calls| > patience {
            status := IoError;
            return;
          }
          next := After(next, amount, interval);
        }
      }
    }
  }

  // One iteration more, with or without a report.
  lemma ReportStep(done: nat, next: nat, amount: nat, interval: nat)
    requires interval > 0 && done < amount && NextReport(done, next, amount, interval)
    ensures Schedule(done + 1, amount, interval) == Schedule(done, amount, interval) + if done + 1 == next then [done + 1] else []
    ensures next <= amount
    ensures NextReport(done + 1, if done + 1 == next then After(next, amount, interval) else next, amount, interval)
  {
    ScheduleStep(done, amount, interval);
    NextIsReport(done, next, amount, interval);
    assert done + 1 < next || done + 1 == next;
  }

  lemma ScheduleStep(done: nat, amount: nat, interval: nat)
    requires interval > 0
    ensures Schedule(done + 1, amount, interval)
         == Schedule(done, amount, interval) + if Reports(done + 1, amount, interval) then [done + 1] else []
  {
  }

  function After(next: nat, amount: nat, interval: nat): nat
    requires next <= amount
  {
    next + if amount - next < interval then amount - next else interval
  }

  lemma {:induction false} FailedStays<N>(f: Traversal<N>, s: State<N>, k: nat, players: nat, iteration: nat)
    requires k <= players && Players(f, s, k, iteration).status != Success
    ensures Players(f, s, players, iteration) == Players(f, s, k, iteration)
    decreases players
  {
    if k < players {
      FailedStays(f, s, k, players - 1, iteration);
    }
  }

  // The next report still to come: the first multiple of the interval past the work done, or the end.
  ghost predicate NextReport(done: nat, next: nat, amount: nat, interval: nat)
    requires interval > 0
  {
    && next <= amount
    && (done < amount ==> done < next)
    && (next == amount || next % interval == 0)
    && (forall i | done < i < next :: i % interval != 0)
    && next <= done + interval
  }

  lemma NextIsReport(done: nat, next: nat, amount: nat, interval: nat)
    requires interval > 0 && done < amount && NextReport(done, next, amount, interval)
    ensures Reports(done + 1, amount, interval) <==> done + 1 == next
    ensures done + 1 < next ==> NextReport(done + 1, next, amount, interval)
    ensures done + 1 == next ==> NextReport(next, After(next, amount, interval), amount, interval)
  {
    if done + 1 == next && next < amount {
      forall i | next < i < next + interval
        ensures i % interval != 0
      {
        Between(next, i, interval);
      }
      Multiple(next, interval);
    }
  }

  lemma SmallMultiple(interval: int, d: int)
    requires interval > 0 && -interval < interval * d < interval
    ensures d == 0
  {
    Multiples(interval, d);
  }

  lemma Multiples(interval: int, d: int)
    requires interval > 0
    ensures d >= 1 ==> interval * d >= interval
    ensures d <= -1 ==> interval * d <= -interval
  {
    if d >= 1 {
      assert interval * d == interval + interval * (d - 1);
    } else if d <= -1 {
      assert interval * d == -interval + interval * (d + 1);
    }
  }

  lemma Between(next: nat, i: nat, interval: nat)
    requires interval > 0 && next % interval == 0 && next < i < next + interval
    ensures i % interval != 0
  {
    var d := i / interval - next / interval;
    assert i - i % interval - next == interval * d;
    if i % interval == 0 {
      SmallMultiple(interval, d);
    }
  }

  lemma Multiple(next: nat, interval: nat)
    requires interval > 0 && next % interval == 0
    ensures (next + interval) % interval == 0
  {
    var later := next + interval;
    var d := next / interval + 1 - later / interval;
    assert later % interval == interval * d;
    SmallMultiple(interval, d);
  }
}
