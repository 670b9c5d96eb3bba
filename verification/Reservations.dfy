// What a granted reservation leaves behind: room in every shard, from then on.
module Reservations {
  import opened ProbeTable
  import opened Hashing
  import opened ShardedStore
  import opened ConcurrentStore

  // The active table is at least as large as before.
  ghost predicate Larger(s: State, s': State) {
    s.tables != [] && s'.tables != [] && |Active(s)| <= |Active(s')|
  }

  lemma ShardLarger(s: State, t: nat, ok: bool)
    requires t < |s.threads| && ShardedStore.Next(s, t, ok).Some?
    ensures Larger(s, ShardedStore.Next(s, t, ok).value)
  {
    match s.threads[t].phase
    case Holding => HoldingLarger(s, t, ok);
    case Allocated(node) => AllocatedLarger(s, t, node, ok);
    case _ =>
  }

  lemma HoldingLarger(s: State, t: nat, ok: bool)
    requires t < |s.threads| && s.threads[t].ops != [] && s.past != [] && s.tables != []
    ensures Larger(s, NextHolding(s, t, ok))
  {
  }

  lemma AllocatedLarger(s: State, t: nat, node: nat, ok: bool)
    requires t < |s.threads| && s.past != [] && s.tables != []
    ensures Larger(s, NextAllocated(s, t, node, ok))
  {
  }

  lemma RoomStays(s: State, s': State, op: Op)
    requires Larger(s, s') && HasRoom(s, op)
    ensures HasRoom(s', op)
  {
    LimitGrows(|Active(s)|, |Active(s')|);
  }

  lemma LimitGrows(a: nat, b: nat)
    requires a <= b
    ensures ShardedStore.LoadLimit(a) <= ShardedStore.LoadLimit(b)
  {
  }

  ghost predicate AllLarger(g: Store, g': Store) {
    |g.shards| == |g'.shards| == SHARD_COUNT && forall i: nat :: i < SHARD_COUNT ==> Larger(g.shards[i], g'.shards[i])
  }

  lemma PutLarger(g: Store, i: nat, s: State, t: nat, w: Worker)
    requires Shaped(g) && t < |g.workers| && i < SHARD_COUNT && Larger(g.shards[i], s)
    ensures AllLarger(g, With(g, t, Put(g.shards, i, s), w))
  {
  }

  lemma TickedLarger(g: Store, t: nat, w: Worker)
    requires Shaped(g) && t < |g.workers|
    ensures AllLarger(g, With(g, t, Ticked(g.shards), w))
  {
  }

  // No step makes a table smaller.
  lemma StepLarger(g: Store, t: nat, ok: bool)
    requires ConcurrentStore.Inv(g) && t < |g.workers| && ConcurrentStore.Next(g, t, ok).Some?
    ensures AllLarger(g, ConcurrentStore.Next(g, t, ok).value)
  {
    var w, g' := g.workers[t], ConcurrentStore.Next(g, t, ok).value;
    match w.job
    case Idle =>
      if w.ops[0].Reserve? {
        TickedLarger(g, t, g'.workers[t]);
      } else {
        var i := ShardFor(w.ops[0]);
        PutLarger(g, i, NextBegin(Given(g.shards[i], t, w.ops[0]), t), t, g'.workers[t]);
      }
    case InShard =>
      var i := ShardFor(w.ops[0]);
      ShardLarger(g.shards[i], t, ok);
      PutLarger(g, i, ShardedStore.Next(g.shards[i], t, ok).value, t, g'.workers[t]);
    case Locking(next, since) =>
      if next >= SHARD_COUNT {
        TickedLarger(g, t, g'.workers[t]);
      } else {
        PutLarger(g, next, Taken(g.shards[next], t, w.ops[0]), t, g'.workers[t]);
      }
    case Planning(plans, since) =>
      TickedLarger(g, t, g'.workers[t]);
    case Replacing(next, plans, since) =>
      ReplacingLarger(g, t, next, plans, since);
    case Unlocking(left, granted, since) =>
      if 0 < left <= SHARD_COUNT {
        PutLarger(g, left - 1, Dropped(g.shards[left - 1], t), t, g'.workers[t]);
      } else {
        TickedLarger(g, t, g'.workers[t]);
      }
  }

  lemma ReplacingLarger(g: Store, t: nat, next: nat, plans: seq<Plan>, since: nat)
    requires ConcurrentStore.Inv(g) && t < |g.workers| && g.workers[t].ops != [] && g.workers[t].job == Replacing(next, plans, since)
    ensures AllLarger(g, NextReplacing(g, t, next, plans, since))
  {
    var g' := NextReplacing(g, t, next, plans, since);
    if next < SHARD_COUNT && next < |plans| && plans[next].Replace? {
      assert WorkerOk(g, t) && PlanOk(g.shards[next], g.workers[t].ops[0], plans[next]);
      PutLarger(g, next, Replaced(g.shards[next], plans[next].table), t, g'.workers[t]);
    } else {
      TickedLarger(g, t, g'.workers[t]);
    }
  }

  // ---- Promises ----

  ghost predicate RoomFor(g: Store, op: Op) {
    |g.shards| == SHARD_COUNT && forall i: nat :: i < SHARD_COUNT ==> HasRoom(g.shards[i], op)
  }

  lemma RoomForStays(g: Store, g': Store, op: Op)
    requires AllLarger(g, g') && RoomFor(g, op)
    ensures RoomFor(g', op)
  {
    forall i: nat | i < SHARD_COUNT ensures HasRoom(g'.shards[i], op) {
      RoomStays(g.shards[i], g'.shards[i], op);
    }
  }

  ghost predicate AnswerHonoured(g: Store, d: Done) {
    d.Reservation? && d.granted ==> RoomFor(g, Reserve(d.minimum))
  }

  // Every granted reservation, recorded or being unlocked, has its room.
  ghost predicate HonouredAt(g: Store, t: nat)
    requires t < |g.workers|
  {
    var w := g.workers[t];
    && (forall n: nat :: n < |w.answers| ==> AnswerHonoured(g, w.answers[n]))
    && (w.job.Unlocking? && w.job.granted ==> Asked(w) && RoomFor(g, w.ops[0]))
  }

  ghost predicate Honoured(g: Store) {
    forall t: nat :: t < |g.workers| ==> HonouredAt(g, t)
  }

  lemma AnswersStay(g: Store, g': Store, answers: seq<Done>)
    requires AllLarger(g, g') && forall n: nat :: n < |answers| ==> AnswerHonoured(g, answers[n])
    ensures forall n: nat :: n < |answers| ==> AnswerHonoured(g', answers[n])
  {
    forall n: nat | n < |answers| ensures AnswerHonoured(g', answers[n]) {
      assert AnswerHonoured(g, answers[n]);
      if answers[n].Reservation? && answers[n].granted {
        RoomForStays(g, g', Reserve(answers[n].minimum));
      }
    }
  }

  lemma OtherHonoured(g: Store, g': Store, u: nat)
    requires AllLarger(g, g') && u < |g.workers| && u < |g'.workers| && g'.workers[u] == g.workers[u] && HonouredAt(g, u)
    ensures HonouredAt(g', u)
  {
    AnswersStay(g, g', g.workers[u].answers);
    if g.workers[u].job.Unlocking? && g.workers[u].job.granted {
      RoomForStays(g, g', g.workers[u].ops[0]);
    }
  }

  // What a step makes of its worker: the answers there were and at most one more.
  lemma OwnHonoured(g: Store, t: nat, ok: bool)
    requires ConcurrentStore.Inv(g) && t < |g.workers| && ConcurrentStore.Next(g, t, ok).Some? && HonouredAt(g, t)
    requires AllLarger(g, ConcurrentStore.Next(g, t, ok).value)
    ensures t < |ConcurrentStore.Next(g, t, ok).value.workers| && HonouredAt(ConcurrentStore.Next(g, t, ok).value, t)
  {
    var w, g' := g.workers[t], ConcurrentStore.Next(g, t, ok).value;
    AnswersStay(g, g', w.answers);
    match w.job
    case Unlocking(left, granted, since) =>
      UnlockingHonoured(g, t, left, granted, since);
    case Replacing(next, plans, since) =>
      if next >= SHARD_COUNT || next >= |plans| {
        assert WorkerOk(g, t);
        RoomForStays(g, g', w.ops[0]);
      }
    case _ =>
  }

  lemma UnlockingHonoured(g: Store, t: nat, left: nat, granted: bool, since: nat)
    requires Shaped(g) && t < |g.workers| && g.workers[t].job == Unlocking(left, granted, since) && HonouredAt(g, t)
    requires g.workers[t].ops != [] && AllLarger(g, NextUnlocking(g, t, left, granted, since))
    requires forall n: nat :: n < |g.workers[t].answers| ==>
      AnswerHonoured(NextUnlocking(g, t, left, granted, since), g.workers[t].answers[n])
    ensures HonouredAt(NextUnlocking(g, t, left, granted, since), t)
  {
    var w, g' := g.workers[t], NextUnlocking(g, t, left, granted, since);
    if granted {
      RoomForStays(g, g', w.ops[0]);
      SameRoom(g', w.ops[0]);
    }
  }

  lemma SameRoom(g: Store, op: Op)
    requires op.Reserve? && RoomFor(g, op)
    ensures RoomFor(g, Reserve(op.minimum))
  {
    assert op == Reserve(op.minimum);
  }

  lemma StepHonours(g: Store, t: nat, ok: bool)
    requires ConcurrentStore.Inv(g) && Honoured(g) && t < |g.workers| && ConcurrentStore.Next(g, t, ok).Some?
    ensures Honoured(ConcurrentStore.Next(g, t, ok).value)
  {
    var g' := ConcurrentStore.Next(g, t, ok).value;
    StepLarger(g, t, ok);
    NextKeepsStore(g, t, ok);
    OnlyOwn(g, t, ok);
    forall u: nat | u < |g'.workers| ensures HonouredAt(g', u) {
      assert HonouredAt(g, u);
      if u == t {
        OwnHonoured(g, t, ok);
      } else {
        OtherHonoured(g, g', u);
      }
    }
  }

  lemma OnlyOwn(g: Store, t: nat, ok: bool)
    requires t < |g.workers| && ConcurrentStore.Next(g, t, ok).Some?
    ensures var g' := ConcurrentStore.Next(g, t, ok).value;
      |g'.workers| == |g.workers| && forall u: nat :: u < |g.workers| && u != t ==> g'.workers[u] == g.workers[u]
  {
  }

  lemma {:induction false} RunHonours(g: Store, schedule: seq<Turn>)
    requires ConcurrentStore.Inv(g) && Honoured(g)
    ensures Honoured(Run(g, schedule))
    decreases |schedule|
  {
    if schedule != [] {
      var front, turn := schedule[..|schedule| - 1], schedule[|schedule| - 1];
      RunKeeps(g, front);
      RunHonours(g, front);
      var r := Run(g, front);
      if turn.worker < |r.workers| && ConcurrentStore.Next(r, turn.worker, turn.ok).Some? {
        StepHonours(r, turn.worker, turn.ok);
      }
    }
  }

  // From its end on, in every run, a reservation that was granted has room for its part of the nodes in every shard,
  // and the parts together are at least what was asked.
  lemma GrantedKeepsRoom(cells: seq<Cell>, home: Home, m: map<Key, nat>, nodes: seq<Node>, programs: seq<seq<Op>>,
                         schedule: seq<Turn>, t: nat, n: nat)
    requires Preparable(cells, home, m, nodes)
    requires var g := Run(Prepared(cells, m, nodes, programs), schedule);
      t < |g.workers| && n < |g.workers[t].answers| && g.workers[t].answers[n].Reservation? && g.workers[t].answers[n].granted
    ensures var g := Run(Prepared(cells, m, nodes, programs), schedule);
      var d := g.workers[t].answers[n];
      && d.since <= d.until < Instants(g)
      && RoomFor(g, Reserve(d.minimum)) && SHARD_COUNT * PerShard(Reserve(d.minimum)) >= d.minimum
  {
    var start := Prepared(cells, m, nodes, programs);
    PreparedInv(cells, home, m, nodes, programs);
    RunHonours(start, schedule);
    var g := Run(start, schedule);
    assert HonouredAt(g, t) && AnswerHonoured(g, g.workers[t].answers[n]);
    Linearizable(cells, home, m, nodes, programs, schedule, t, n);
  }
}
