// When the operations of the concurrent store can fail. With memory to be had, a key is refused only by
// a shard whose table is full and cannot grow, and a reservation only when it asks for more than the
// largest tables hold. With no memory nothing of the store changes.
module StoreMemory {
  import opened ProbeTable
  import opened Hashing
  import opened ShardedStore
  import opened ConcurrentStore
  import opened Reservations

  // ---- Counting keys ----

  lemma {:induction false} MapOfSize(cells: seq<Cell>, n: nat)
    requires Distinct(cells) && n <= |cells|
    ensures |MapOf(cells, n)| == Count(cells[..n])
  {
    if n > 0 {
      MapOfSize(cells, n - 1);
      MapOfHas(cells, n - 1);
      CountPrefix(cells, n - 1);
      if cells[n - 1].Used? {
        assert MapOf(cells, n).Keys == MapOf(cells, n - 1).Keys + {cells[n - 1].key};
      }
    }
  }

  // A table has as many used cells as the map it stands for has keys.
  lemma CountIsSize(cells: seq<Cell>, m: map<Key, nat>)
    requires Distinct(cells) && Represents(cells, m)
    ensures Count(cells) == |m|
  {
    MapOfSize(cells, |cells|);
    MapOfRepresents(cells);
    RepresentsUnique(cells, m, MapOf(cells, |cells|));
    assert cells[..|cells|] == cells;
  }

  lemma WithinIsSmaller(m: map<Key, nat>, m': map<Key, nat>)
    requires Within(m, m')
    ensures |m| <= |m'|
  {
    forall k | k in m.Keys ensures k in m'.Keys {
      assert k in m;
    }
    assert m'.Keys == m.Keys + (m'.Keys - m.Keys);
  }

  // ---- Full shards ----

  // The shard has the largest table there can be, and three quarters of its cells are taken.
  ghost predicate Exhausted(s: State) {
    s.tables != [] && s.past != [] && |Active(s)| == MAX_CAPACITY && |Contents(s)| >= MAX_CAPACITY - MAX_CAPACITY / 4
  }

  lemma MaximumIsCapacity()
    ensures IsCapacity(MAX_CAPACITY)
  {
    assert Pow2(10) == 0x400;
    Pow2Sum(10, 10);
    Pow2Sum(20, 20);
    Pow2Sum(40, 20);
    assert MAX_CAPACITY == Pow2(60);
  }

  lemma FullIsExhausted(s: State)
    requires ShardedStore.Inv(s) && Count(Cells(Active(s), s.nodes)) >= LoadLimit(|Active(s)|) && 2 * |Active(s)| > MAX_CAPACITY
    ensures Exhausted(s)
  {
    assert ShardTableOk(Active(s), s.nodes, Contents(s));
    CountIsSize(Cells(Active(s), s.nodes), Contents(s));
    MaximumIsCapacity();
    if |Active(s)| < MAX_CAPACITY {
      PowersApart(|Active(s)|, MAX_CAPACITY);
    }
  }

  // The tables do not shrink and no key is lost.
  lemma StaysExhausted(s: State, s': State)
    requires Exhausted(s) && ShardedStore.Inv(s') && Larger(s, s') && |s.past| <= |s'.past| && s'.past[..|s.past|] == s.past
    ensures Exhausted(s')
  {
    assert ShardTableOk(Active(s'), s'.nodes, Contents(s'));
    assert s'.past[..|s.past|][|s.past| - 1] == Contents(s);
    assert Within(s'.past[|s.past| - 1], s'.past[|s'.past| - 1]);
    WithinIsSmaller(Contents(s), Contents(s'));
  }

  // ---- Every step is gentle ----

  lemma TakenIsGentle(s: State, t: nat, op: Op)
    requires t < |s.threads| && s.past != [] && s.owner.None?
    ensures Gentle(s, Taken(s, t, op), t)
  {
  }

  lemma DroppedIsGentle(s: State, t: nat)
    requires t < |s.threads| && s.past != [] && s.owner == Some(t)
    ensures Gentle(s, Dropped(s, t), t)
  {
  }

  lemma ReplacedIsGentle(s: State, table: seq<Stored>, t: nat)
    requires t < |s.threads| && s.past != [] && s.owner == Some(t)
    ensures Gentle(s, Replaced(s, table), t)
  {
  }

  lemma BeginIsGentle(s: State, t: nat, op: Op)
    requires t < |s.threads| && s.past != [] && s.tables != []
    ensures Gentle(s, NextBegin(Given(s, t, op), t), t)
  {
  }

  lemma PutIsGentle(g: Store, t: nat, j: nat, s: State, w: Worker)
    requires Shaped(g) && t < |g.workers| && j < SHARD_COUNT && Gentle(g.shards[j], s, t) && s.tables != []
    ensures Steps(g, With(g, t, Put(g.shards, j, s), w), t)
  {
    var g' := With(g, t, Put(g.shards, j, s), w);
    forall i: nat | i < SHARD_COUNT ensures Gentle(g.shards[i], g'.shards[i], t) {
      if i != j {
        TickIsGentle(g.shards[i], t);
      }
    }
  }

  lemma TickedIsGentle(g: Store, t: nat, w: Worker)
    requires Shaped(g) && t < |g.workers|
    ensures Steps(g, With(g, t, Ticked(g.shards), w), t)
  {
    forall i: nat | i < SHARD_COUNT ensures Gentle(g.shards[i], Tick(g.shards[i]), t) {
      TickIsGentle(g.shards[i], t);
    }
  }

  lemma InShardIsGentle(g: Store, t: nat, ok: bool)
    requires ConcurrentStore.Inv(g) && t < |g.workers| && g.workers[t].ops != [] && g.workers[t].job.InShard?
    requires NextInShard(g, t, ok).Some?
    ensures Steps(g, NextInShard(g, t, ok).value, t)
  {
    var op := g.workers[t].ops[0];
    var j := ShardFor(op);
    var s := g.shards[j];
    assert WorkerOk(g, t) && ShardOk(g, j) && SeatOk(s, g.workers[t], t, j);
    InnerStep(s, t, ok, op, j);
    PutIsGentle(g, t, j, ShardedStore.Next(s, t, ok).value, NextInShard(g, t, ok).value.workers[t]);
  }

  lemma IdleIsGentle(g: Store, t: nat)
    requires Shaped(g) && t < |g.workers| && g.workers[t].ops != []
    ensures Steps(g, NextIdle(g, t), t)
  {
    var op, w' := g.workers[t].ops[0], NextIdle(g, t).workers[t];
    if op.Reserve? {
      TickedIsGentle(g, t, w');
    } else {
      var j := ShardFor(op);
      BeginIsGentle(g.shards[j], t, op);
      PutIsGentle(g, t, j, NextBegin(Given(g.shards[j], t, op), t), w');
    }
  }

  lemma LockingIsGentle(g: Store, t: nat, next: nat, since: nat)
    requires Shaped(g) && t < |g.workers| && g.workers[t].ops != [] && NextLocking(g, t, next, since).Some?
    ensures Steps(g, NextLocking(g, t, next, since).value, t)
  {
    var op, w' := g.workers[t].ops[0], NextLocking(g, t, next, since).value.workers[t];
    if next >= SHARD_COUNT {
      TickedIsGentle(g, t, w');
    } else {
      TakenIsGentle(g.shards[next], t, op);
      PutIsGentle(g, t, next, Taken(g.shards[next], t, op), w');
    }
  }

  lemma ReplacingIsGentle(g: Store, t: nat, next: nat, plans: seq<Plan>, since: nat)
    requires Shaped(g) && t < |g.workers| && g.workers[t].ops != []
    requires next < SHARD_COUNT ==> g.shards[next].owner == Some(t)
    ensures Steps(g, NextReplacing(g, t, next, plans, since), t)
  {
    var w' := NextReplacing(g, t, next, plans, since).workers[t];
    if next >= SHARD_COUNT || next >= |plans| || plans[next].Keep? {
      TickedIsGentle(g, t, w');
    } else {
      ReplacedIsGentle(g.shards[next], plans[next].table, t);
      PutIsGentle(g, t, next, Replaced(g.shards[next], plans[next].table), w');
    }
  }

  lemma UnlockingIsGentle(g: Store, t: nat, left: nat, granted: bool, since: nat)
    requires Shaped(g) && t < |g.workers| && g.workers[t].ops != []
    requires 0 < left <= SHARD_COUNT ==> g.shards[left - 1].owner == Some(t)
    ensures Steps(g, NextUnlocking(g, t, left, granted, since), t)
  {
    var w' := NextUnlocking(g, t, left, granted, since).workers[t];
    if 0 < left <= SHARD_COUNT {
      DroppedIsGentle(g.shards[left - 1], t);
      PutIsGentle(g, t, left - 1, Dropped(g.shards[left - 1], t), w');
    } else {
      TickedIsGentle(g, t, w');
    }
  }

  // A step of one worker leaves the others' threads alone, and whatever they hold the lock of.
  lemma StepIsGentle(g: Store, t: nat, ok: bool)
    requires ConcurrentStore.Inv(g) && t < |g.workers| && ConcurrentStore.Next(g, t, ok).Some?
    ensures Steps(g, ConcurrentStore.Next(g, t, ok).value, t)
  {
    var w := g.workers[t];
    assert WorkerOk(g, t);
    match w.job
    case Idle => IdleIsGentle(g, t);
    case InShard => InShardIsGentle(g, t, ok);
    case Locking(next, since) => LockingIsGentle(g, t, next, since);
    case Planning(plans, since) => TickedIsGentle(g, t, NextPlanning(g, t, plans, since, ok).workers[t]);
    case Replacing(next, plans, since) =>
      assert next < SHARD_COUNT ==> SeatOk(g.shards[next], w, t, next);
      ReplacingIsGentle(g, t, next, plans, since);
    case Unlocking(left, granted, since) =>
      assert 0 < left <= SHARD_COUNT ==> SeatOk(g.shards[left - 1], w, t, left - 1);
      UnlockingIsGentle(g, t, left, granted, since);
  }

  // ---- With memory ----

  lemma AllocatedServes(s: State, t: nat, node: nat)
    requires ShardedStore.Inv(s) && t < |s.threads| && s.threads[t].ops != [] && s.threads[t].phase == Allocated(node)
    ensures var s' := NextAllocated(s, t, node, true);
      !s'.threads[t].phase.Leaving? || Exhausted(s)
  {
    assert ShardTableOk(Active(s), s.nodes, Contents(s));
    if Count(Cells(Active(s), s.nodes)) >= LoadLimit(|Active(s)|) && 2 * |Active(s)| > MAX_CAPACITY {
      FullIsExhausted(s);
    }
  }

  lemma PublishingSucceeds(s: State, t: nat, node: nat)
    requires ShardedStore.Inv(s) && t < |s.threads| && s.threads[t].ops != [] && s.threads[t].phase == Publishing(node)
    ensures NextPublishing(s, t, node).threads[t].phase == Leaving(Created(node), |s.past|)
    ensures NextPublishing(s, t, node).threads[t].answers == s.threads[t].answers
  {
    assert PhaseOk(s, t) && ShardTableOk(Active(s), s.nodes, Contents(s));
    var cells, key := Cells(Active(s), s.nodes), s.threads[t].ops[0].key;
    CapacityRange(|cells|);
    LocateFinds(cells, ShardHome(|cells|), Contents(s), key);
    NeverFull(cells, ShardHome(|cells|), key);
  }

  // With memory, a step in a shard fails only if the shard is exhausted.
  lemma ShardServes(s: State, t: nat)
    requires ShardedStore.Inv(s) && t < |s.threads| && ShardedStore.Next(s, t, true).Some?
    requires s.threads[t].phase.Leaving? && s.threads[t].phase.result == Failed ==> Exhausted(s)
    ensures var s' := ShardedStore.Next(s, t, true).value;
      && t < |s'.threads|
      && (s'.threads[t].phase.Leaving? && s'.threads[t].phase.result == Failed ==> Exhausted(s))
      && (s'.threads[t].answers != s.threads[t].answers ==>
            s'.threads[t].answers != []
            && (s'.threads[t].answers[|s'.threads[t].answers| - 1].result == Failed ==> Exhausted(s)))
  {
    assert PhaseOk(s, t);
    match s.threads[t].phase
    case Holding => HoldingTurn(s, t, true);
    case Allocated(node) => AllocatedServes(s, t, node);
    case Publishing(node) => PublishingSucceeds(s, t, node);
    case _ =>
  }

  // What can be the reason for a refusal when there is memory.
  ghost predicate Fair(g: Store, d: Done)
    requires |g.shards| == SHARD_COUNT
  {
    match d
    case Keyed(op, _, _, _, result) => result == Failed ==> Exhausted(g.shards[ShardFor(op)])
    case Reservation(minimum, _, _, granted) => !granted ==> TooMany(minimum)
  }

  // More nodes than three quarters of the cells of the largest tables.
  ghost predicate TooMany(minimum: nat) {
    minimum > SHARD_COUNT * (MAX_CAPACITY - MAX_CAPACITY / 4)
  }

  ghost predicate Failing(g: Store, t: nat)
    requires Shaped(g) && t < |g.workers| && g.workers[t].ops != []
  {
    var s := g.shards[ShardFor(g.workers[t].ops[0])];
    s.threads[t].phase.Leaving? && s.threads[t].phase.result == Failed
  }

  ghost predicate Served(g: Store, t: nat)
    requires Shaped(g) && t < |g.workers|
  {
    var w := g.workers[t];
    && (forall n: nat :: n < |w.answers| ==> Fair(g, w.answers[n]))
    && (w.ops != [] && w.job.InShard? && Failing(g, t) ==> Exhausted(g.shards[ShardFor(w.ops[0])]))
    && (w.ops != [] && w.ops[0].Reserve? && w.job.Unlocking? && !w.job.granted ==> TooMany(w.ops[0].minimum))
  }

  ghost predicate StillExhausted(g: Store, g': Store) {
    |g.shards| == |g'.shards| == SHARD_COUNT
    && forall i :: 0 <= i < SHARD_COUNT && Exhausted(g.shards[i]) ==> Exhausted(g'.shards[i])
  }

  lemma StepKeepsExhausted(g: Store, t: nat, ok: bool)
    requires ConcurrentStore.Inv(g) && t < |g.workers| && ConcurrentStore.Next(g, t, ok).Some?
    requires Steps(g, ConcurrentStore.Next(g, t, ok).value, t)
    ensures StillExhausted(g, ConcurrentStore.Next(g, t, ok).value)
  {
    var g' := ConcurrentStore.Next(g, t, ok).value;
    NextKeepsStore(g, t, ok);
    StepLarger(g, t, ok);
    forall i | 0 <= i < SHARD_COUNT && Exhausted(g.shards[i]) ensures Exhausted(g'.shards[i]) {
      assert ShardOk(g', i) && Gentle(g.shards[i], g'.shards[i], t);
      StaysExhausted(g.shards[i], g'.shards[i]);
    }
  }

  lemma OldStayFair(g: Store, g': Store, answers: seq<Done>)
    requires StillExhausted(g, g') && forall n: nat :: n < |answers| ==> Fair(g, answers[n])
    ensures forall n: nat :: n < |answers| ==> Fair(g', answers[n])
  {
    forall n: nat | n < |answers| ensures Fair(g', answers[n]) {
      assert Fair(g, answers[n]);
    }
  }

  lemma OtherServed(g: Store, g': Store, t: nat, u: nat)
    requires Steps(g, g', t) && u != t && u < |g.workers| && StillExhausted(g, g') && Served(g, u)
    ensures Served(g', u)
  {
    OldStayFair(g, g', g.workers[u].answers);
    if g.workers[u].ops != [] {
      var j := ShardFor(g.workers[u].ops[0]);
      assert Gentle(g.shards[j], g'.shards[j], t);
    }
  }

  // A reservation that cannot be planned asks for more than the largest tables hold.
  lemma RefusedIsTooMany(s: State, op: Op)
    requires ShardedStore.Inv(s) && op.Reserve? && Needed(s, op) > LoadLimit(TargetFor(Needed(s, op), |Active(s)|))
    ensures TooMany(op.minimum)
  {
    assert ShardTableOk(Active(s), s.nodes, Contents(s));
    MaximumIsCapacity();
    LimitGrows(|Active(s)|, MAX_CAPACITY);
    if Needed(s, op) <= LoadLimit(MAX_CAPACITY) {
      TargetIsEnough(Needed(s, op), |Active(s)|, MAX_CAPACITY);
    }
    assert PerShard(op) > MAX_CAPACITY - MAX_CAPACITY / 4;
  }

  lemma InShardServes(g: Store, t: nat)
    requires ConcurrentStore.Inv(g) && t < |g.workers| && g.workers[t].ops != [] && g.workers[t].job.InShard?
    requires NextInShard(g, t, true).Some? && Served(g, t) && Shaped(NextInShard(g, t, true).value)
    requires StillExhausted(g, NextInShard(g, t, true).value)
    ensures Served(NextInShard(g, t, true).value, t)
  {
    var op, g' := g.workers[t].ops[0], NextInShard(g, t, true).value;
    var j := ShardFor(op);
    var s := g.shards[j];
    assert WorkerOk(g, t) && ShardOk(g, j) && SeatOk(s, g.workers[t], t, j);
    ShardServes(s, t);
    NextAnswers(s, t, true, op);
    OldStayFair(g, g', g.workers[t].answers);
  }

  lemma PlanningServes(g: Store, t: nat, plans: seq<Plan>, since: nat)
    requires ConcurrentStore.Inv(g) && t < |g.workers| && g.workers[t].ops != [] && g.workers[t].job == Planning(plans, since)
    requires Served(g, t) && Shaped(NextPlanning(g, t, plans, since, true))
    requires StillExhausted(g, NextPlanning(g, t, plans, since, true))
    ensures Served(NextPlanning(g, t, plans, since, true), t)
  {
    var w, g' := g.workers[t], NextPlanning(g, t, plans, since, true);
    OldStayFair(g, g', w.answers);
    if |plans| < SHARD_COUNT && g'.workers[t].job.Unlocking? {
      assert WorkerOk(g, t) && ShardOk(g, |plans|);
      RefusedIsTooMany(g.shards[|plans|], w.ops[0]);
    }
  }

  lemma UnlockingServes(g: Store, t: nat, left: nat, granted: bool, since: nat)
    requires ConcurrentStore.Inv(g) && t < |g.workers| && g.workers[t].ops != []
    requires g.workers[t].job == Unlocking(left, granted, since)
    requires Served(g, t) && Shaped(NextUnlocking(g, t, left, granted, since))
    requires StillExhausted(g, NextUnlocking(g, t, left, granted, since))
    ensures Served(NextUnlocking(g, t, left, granted, since), t)
  {
    assert WorkerOk(g, t);
    OldStayFair(g, NextUnlocking(g, t, left, granted, since), g.workers[t].answers);
  }

  lemma OwnServed(g: Store, t: nat)
    requires ConcurrentStore.Inv(g) && t < |g.workers| && ConcurrentStore.Next(g, t, true).Some? && Served(g, t)
    requires Steps(g, ConcurrentStore.Next(g, t, true).value, t) && StillExhausted(g, ConcurrentStore.Next(g, t, true).value)
    ensures Served(ConcurrentStore.Next(g, t, true).value, t)
  {
    match g.workers[t].job
    case InShard => InShardServes(g, t);
    case Planning(plans, since) => PlanningServes(g, t, plans, since);
    case Unlocking(left, granted, since) => UnlockingServes(g, t, left, granted, since);
    case _ => OldStayFair(g, ConcurrentStore.Next(g, t, true).value, g.workers[t].answers);
  }

  lemma StepServes(g: Store, t: nat)
    requires ConcurrentStore.Inv(g) && t < |g.workers| && ConcurrentStore.Next(g, t, true).Some?
    requires forall u: nat :: u < |g.workers| ==> Served(g, u)
    ensures var g' := ConcurrentStore.Next(g, t, true).value;
      Shaped(g') && forall u: nat :: u < |g'.workers| ==> Served(g', u)
  {
    var g' := ConcurrentStore.Next(g, t, true).value;
    StepIsGentle(g, t, true);
    StepKeepsExhausted(g, t, true);
    forall u: nat | u < |g'.workers| ensures Served(g', u) {
      if u == t {
        OwnServed(g, t);
      } else {
        OtherServed(g, g', t, u);
      }
    }
  }

  lemma {:induction false} RunServes(g: Store, schedule: seq<Turn>)
    requires ConcurrentStore.Inv(g) && forall u: nat :: u < |g.workers| ==> Served(g, u)
    requires forall i :: 0 <= i < |schedule| ==> schedule[i].ok
    ensures var r := Run(g, schedule); Shaped(r) && forall u: nat :: u < |r.workers| ==> Served(r, u)
    decreases |schedule|
  {
    if schedule != [] {
      var front, turn := schedule[..|schedule| - 1], schedule[|schedule| - 1];
      assert forall i :: 0 <= i < |front| ==> front[i] == schedule[i];
      RunServes(g, front);
      RunKeeps(g, front);
      var r := Run(g, front);
      assert turn.ok;
      if turn.worker < |r.workers| && ConcurrentStore.Next(r, turn.worker, turn.ok).Some? {
        StepServes(r, turn.worker);
      }
    }
  }

  // In every run in which memory never runs out, an operation on a key fails only if its shard has the
  // largest table there can be, three quarters full, and a reservation is granted exactly when it asks
  // for no more than three quarters of the largest tables.
  lemma FailsOnlyWhenFull(cells: seq<Cell>, home: Home, m: map<Key, nat>, nodes: seq<Node>, programs: seq<seq<Op>>,
                          schedule: seq<Turn>, t: nat, n: nat)
    requires Preparable(cells, home, m, nodes) && forall i :: 0 <= i < |schedule| ==> schedule[i].ok
    requires var g := Run(Prepared(cells, m, nodes, programs), schedule);
      t < |g.workers| && n < |g.workers[t].answers|
    ensures var g := Run(Prepared(cells, m, nodes, programs), schedule);
      |g.shards| == SHARD_COUNT &&
      match g.workers[t].answers[n]
      case Keyed(op, _, _, _, result) =>
        !op.Reserve?
        && (result == Failed ==>
             var s := g.shards[ShardOf(op.key)];
             && s.tables != [] && s.past != [] && |s.tables[|s.tables| - 1]| == MAX_CAPACITY
             && |s.past[|s.past| - 1]| >= MAX_CAPACITY - MAX_CAPACITY / 4)
      case Reservation(minimum, _, _, granted) =>
        granted <==> minimum <= SHARD_COUNT * (MAX_CAPACITY - MAX_CAPACITY / 4)
  {
    var start := Prepared(cells, m, nodes, programs);
    PreparedInv(cells, home, m, nodes, programs);
    RunKeeps(start, schedule);
    RunServes(start, schedule);
    var g := Run(start, schedule);
    assert Served(g, t) && Fair(g, g.workers[t].answers[n]) && WorkerOk(g, t) && DoneOk(g, t, g.workers[t].answers[n]);
    if g.workers[t].answers[n].Reservation? && g.workers[t].answers[n].granted {
      GrantedKeepsRoom(cells, home, m, nodes, programs, schedule, t, n);
      GrantedIsModest(g, g.workers[t].answers[n].minimum);
    }
  }

  lemma GrantedIsModest(g: Store, minimum: nat)
    requires ConcurrentStore.Inv(g) && RoomFor(g, Reserve(minimum))
    ensures minimum <= SHARD_COUNT * (MAX_CAPACITY - MAX_CAPACITY / 4)
  {
    var s := g.shards[0];
    assert ShardOk(g, 0) && HasRoom(s, Reserve(minimum)) && ShardTableOk(Active(s), s.nodes, Contents(s));
    LimitGrows(|Active(s)|, MAX_CAPACITY);
    assert PerShard(Reserve(minimum)) <= MAX_CAPACITY - MAX_CAPACITY / 4;
  }

  // ---- Without memory ----

  // Nothing has been made or replaced, and nothing is about to be.
  ghost predicate FrugalIn(s: State, tables: seq<seq<Stored>>, nodes: seq<Node>, m: map<Key, nat>) {
    && s.tables == tables && s.nodes == nodes && s.past != [] && Contents(s) == m
    && forall u: nat :: u < |s.threads| ==> !s.threads[u].phase.Allocated? && !s.threads[u].phase.Publishing?
  }

  function PlansOf(job: Job): seq<Plan> {
    match job
    case Planning(plans, _) => plans
    case Replacing(_, plans, _) => plans
    case _ => []
  }

  ghost predicate KeepsAll(w: Worker) {
    AllKeep(PlansOf(w.job))
  }

  ghost predicate AllKeep(plans: seq<Plan>) {
    forall i: nat :: i < |plans| ==> plans[i].Keep?
  }

  ghost predicate Frugal(g: Store, start: Store) {
    && |g.shards| == |start.shards| == SHARD_COUNT
    && (forall i: nat :: i < SHARD_COUNT ==>
          start.shards[i].past != [] && FrugalIn(g.shards[i], start.shards[i].tables, start.shards[i].nodes, Contents(start.shards[i])))
    && (forall t: nat :: t < |g.workers| ==> KeepsAll(g.workers[t]))
  }

  lemma ShardIsFrugal(s: State, t: nat, tables: seq<seq<Stored>>, nodes: seq<Node>, m: map<Key, nat>)
    requires t < |s.threads| && ShardedStore.Next(s, t, false).Some? && FrugalIn(s, tables, nodes, m)
    ensures FrugalIn(ShardedStore.Next(s, t, false).value, tables, nodes, m)
  {
    QuietContents(s, t, false);
    match s.threads[t].phase
    case Scanning(table, probe) => ScanningIsFrugal(s, t, table, probe);
    case Holding => HoldingIsFrugal(s, t);
    case _ =>
  }

  lemma ScanningIsFrugal(s: State, t: nat, table: nat, probe: nat)
    requires t < |s.threads| && s.threads[t].ops != [] && table < |s.tables|
    ensures var s' := NextScanning(s, t, table, probe);
      && s'.tables == s.tables && s'.nodes == s.nodes
      && t < |s'.threads| && !s'.threads[t].phase.Allocated? && !s'.threads[t].phase.Publishing?
  {
  }

  lemma HoldingIsFrugal(s: State, t: nat)
    requires t < |s.threads| && s.threads[t].ops != [] && s.past != [] && s.tables != []
    ensures var s' := NextHolding(s, t, false);
      && s'.tables == s.tables && s'.nodes == s.nodes
      && t < |s'.threads| && !s'.threads[t].phase.Allocated? && !s'.threads[t].phase.Publishing?
  {
  }

  // A store that differs from a frugal one in one shard, itself frugal, and one worker.
  lemma PutIsFrugal(g: Store, start: Store, t: nat, j: nat, s: State, w: Worker)
    requires Frugal(g, start) && t < |g.workers| && j < SHARD_COUNT && KeepsAll(w)
    requires FrugalIn(s, start.shards[j].tables, start.shards[j].nodes, Contents(start.shards[j]))
    ensures Frugal(With(g, t, Put(g.shards, j, s), w), start)
  {
    var g' := With(g, t, Put(g.shards, j, s), w);
    forall i: nat | i < SHARD_COUNT
      ensures FrugalIn(g'.shards[i], start.shards[i].tables, start.shards[i].nodes, Contents(start.shards[i]))
    {
      assert FrugalIn(g.shards[i], start.shards[i].tables, start.shards[i].nodes, Contents(start.shards[i]));
    }
  }

  lemma TickedIsFrugal(g: Store, start: Store, t: nat, w: Worker)
    requires Frugal(g, start) && t < |g.workers| && KeepsAll(w)
    ensures Frugal(With(g, t, Ticked(g.shards), w), start)
  {
    var s := g.shards[0];
    assert FrugalIn(s, start.shards[0].tables, start.shards[0].nodes, Contents(start.shards[0]));
    PutIsFrugal(g, start, t, 0, Tick(s), w);
    assert Put(g.shards, 0, Tick(s)) == Ticked(g.shards);
  }

  lemma IdleIsFrugal(g: Store, start: Store, t: nat)
    requires Shaped(g) && Frugal(g, start) && t < |g.workers| && g.workers[t].ops != []
    ensures Frugal(NextIdle(g, t), start)
  {
    var op, w' := g.workers[t].ops[0], NextIdle(g, t).workers[t];
    if op.Reserve? {
      TickedIsFrugal(g, start, t, w');
    } else {
      var j := ShardFor(op);
      assert FrugalIn(g.shards[j], start.shards[j].tables, start.shards[j].nodes, Contents(start.shards[j]));
      PutIsFrugal(g, start, t, j, NextBegin(Given(g.shards[j], t, op), t), w');
    }
  }

  lemma InShardIsFrugal(g: Store, start: Store, t: nat)
    requires Shaped(g) && Frugal(g, start) && t < |g.workers| && g.workers[t].ops != [] && g.workers[t].job.InShard?
    requires NextInShard(g, t, false).Some?
    ensures Frugal(NextInShard(g, t, false).value, start)
  {
    var j := ShardFor(g.workers[t].ops[0]);
    var s := g.shards[j];
    assert FrugalIn(s, start.shards[j].tables, start.shards[j].nodes, Contents(start.shards[j]));
    ShardIsFrugal(s, t, start.shards[j].tables, start.shards[j].nodes, Contents(start.shards[j]));
    PutIsFrugal(g, start, t, j, ShardedStore.Next(s, t, false).value, NextInShard(g, t, false).value.workers[t]);
  }

  lemma LockingIsFrugal(g: Store, start: Store, t: nat, next: nat, since: nat)
    requires Shaped(g) && Frugal(g, start) && t < |g.workers| && g.workers[t].ops != []
    requires NextLocking(g, t, next, since).Some?
    ensures Frugal(NextLocking(g, t, next, since).value, start)
  {
    var op, w' := g.workers[t].ops[0], NextLocking(g, t, next, since).value.workers[t];
    if next >= SHARD_COUNT {
      TickedIsFrugal(g, start, t, w');
    } else {
      var s := g.shards[next];
      assert FrugalIn(s, start.shards[next].tables, start.shards[next].nodes, Contents(start.shards[next]));
      PutIsFrugal(g, start, t, next, Taken(s, t, op), w');
    }
  }

  lemma ReplacingIsFrugal(g: Store, start: Store, t: nat, next: nat, plans: seq<Plan>, since: nat)
    requires Shaped(g) && Frugal(g, start) && t < |g.workers| && g.workers[t].ops != []
    requires g.workers[t].job == Replacing(next, plans, since)
    ensures Frugal(NextReplacing(g, t, next, plans, since), start)
  {
    assert KeepsAll(g.workers[t]) && AllKeep(plans) && AllKeep([]);
    TickedIsFrugal(g, start, t, NextReplacing(g, t, next, plans, since).workers[t]);
  }

  lemma UnlockingIsFrugal(g: Store, start: Store, t: nat, left: nat, granted: bool, since: nat)
    requires Shaped(g) && Frugal(g, start) && t < |g.workers| && g.workers[t].ops != []
    ensures Frugal(NextUnlocking(g, t, left, granted, since), start)
  {
    var w' := NextUnlocking(g, t, left, granted, since).workers[t];
    if 0 < left <= SHARD_COUNT {
      var s := g.shards[left - 1];
      assert FrugalIn(s, start.shards[left - 1].tables, start.shards[left - 1].nodes, Contents(start.shards[left - 1]));
      PutIsFrugal(g, start, t, left - 1, Dropped(s, t), w');
    } else {
      TickedIsFrugal(g, start, t, w');
    }
  }

  lemma StepIsFrugal(g: Store, start: Store, t: nat)
    requires Frugal(g, start) && t < |g.workers| && ConcurrentStore.Next(g, t, false).Some?
    ensures Frugal(ConcurrentStore.Next(g, t, false).value, start)
  {
    assert KeepsAll(g.workers[t]);
    match g.workers[t].job
    case Idle => IdleIsFrugal(g, start, t);
    case InShard => InShardIsFrugal(g, start, t);
    case Locking(next, since) => LockingIsFrugal(g, start, t, next, since);
    case Planning(plans, since) =>
      assert AllKeep(plans + [Keep]) && AllKeep([]);
      TickedIsFrugal(g, start, t, NextPlanning(g, t, plans, since, false).workers[t]);
    case Replacing(next, plans, since) => ReplacingIsFrugal(g, start, t, next, plans, since);
    case Unlocking(left, granted, since) => UnlockingIsFrugal(g, start, t, left, granted, since);
  }

  lemma {:induction false} RunIsFrugal(g: Store, schedule: seq<Turn>)
    requires Frugal(g, g) && forall i :: 0 <= i < |schedule| ==> !schedule[i].ok
    ensures Frugal(Run(g, schedule), g)
    decreases |schedule|
  {
    if schedule != [] {
      var front, turn := schedule[..|schedule| - 1], schedule[|schedule| - 1];
      assert forall i :: 0 <= i < |front| ==> front[i] == schedule[i];
      RunIsFrugal(g, front);
      var r := Run(g, front);
      assert !turn.ok;
      if turn.worker < |r.workers| && ConcurrentStore.Next(r, turn.worker, turn.ok).Some? {
        StepIsFrugal(r, g, turn.worker);
      }
    }
  }

  // In every run in which there is no memory, no table, no node and no map changes, and an absent key is
  // not created.
  lemma NothingWithoutMemory(cells: seq<Cell>, home: Home, m: map<Key, nat>, nodes: seq<Node>, programs: seq<seq<Op>>,
                             schedule: seq<Turn>, i: nat)
    requires Preparable(cells, home, m, nodes) && i < SHARD_COUNT && forall k :: 0 <= k < |schedule| ==> !schedule[k].ok
    ensures var start := Prepared(cells, m, nodes, programs);
      var g := Run(start, schedule);
      && |g.shards| == SHARD_COUNT
      && g.shards[i].tables == start.shards[i].tables && g.shards[i].nodes == nodes
      && g.shards[i].past != [] && g.shards[i].past[|g.shards[i].past| - 1] == ShardMap(m, i)
  {
    var start := Prepared(cells, m, nodes, programs);
    PreparedIsFrugal(cells, m, nodes, programs);
    RunIsFrugal(start, schedule);
    assert FrugalIn(Run(start, schedule).shards[i], start.shards[i].tables, start.shards[i].nodes, Contents(start.shards[i]));
  }

  lemma PreparedIsFrugal(cells: seq<Cell>, m: map<Key, nat>, nodes: seq<Node>, programs: seq<seq<Op>>)
    ensures Frugal(Prepared(cells, m, nodes, programs), Prepared(cells, m, nodes, programs))
  {
  }

  // ---- Who created a key ----

  // Worker t created the key: it has said so, or is about to.
  ghost predicate Creator(g: Store, t: nat, key: Key)
    requires Shaped(g) && t < |g.workers|
  {
    var w := g.workers[t];
    || (exists n: nat :: n < |w.answers| && Creates(w.answers[n], key))
    || (w.ops != [] && w.job.InShard? && ShardFor(w.ops[0]) == ShardOf(key)
        && w.ops[0].GetOrCreate? && w.ops[0].key == key && LeavesCreated(g.shards[ShardOf(key)], t))
  }

  ghost predicate Creates(d: Done, key: Key) {
    d.Keyed? && d.op.GetOrCreate? && d.op.key == key && d.result.Created?
  }

  ghost predicate LeavesCreated(s: State, t: nat) {
    t < |s.threads| && s.threads[t].phase.Leaving? && s.threads[t].phase.result.Created?
  }

  ghost predicate Accounted(g: Store, m: map<Key, nat>, key: Key)
    requires Shaped(g)
  {
    key in Contents(g.shards[ShardOf(key)]) ==> key in m || exists t: nat :: t < |g.workers| && Creator(g, t, key)
  }

  lemma OtherCreator(g: Store, g': Store, t: nat, u: nat, key: Key)
    requires Steps(g, g', t) && u != t && u < |g.workers| && Creator(g, u, key)
    ensures Creator(g', u, key)
  {
    assert Gentle(g.shards[ShardOf(key)], g'.shards[ShardOf(key)], t);
  }

  lemma LeavingCreator(g: Store, t: nat, ok: bool, key: Key)
    requires ConcurrentStore.Inv(g) && t < |g.workers| && g.workers[t].ops != [] && g.workers[t].job.InShard?
    requires g.workers[t].ops[0].GetOrCreate? && g.workers[t].ops[0].key == key && LeavesCreated(g.shards[ShardOf(key)], t)
    ensures NextInShard(g, t, ok).Some?
    ensures var w' := NextInShard(g, t, ok).value.workers[t];
      w'.answers != [] && Creates(w'.answers[|w'.answers| - 1], key)
  {
    assert WorkerOk(g, t) && SeatOk(g.shards[ShardOf(key)], g.workers[t], t, ShardOf(key));
    assert ShardOk(g, ShardOf(key));
  }

  lemma OwnCreator(g: Store, t: nat, ok: bool, key: Key)
    requires ConcurrentStore.Inv(g) && t < |g.workers| && ConcurrentStore.Next(g, t, ok).Some? && Creator(g, t, key)
    requires Steps(g, ConcurrentStore.Next(g, t, ok).value, t)
    ensures Creator(ConcurrentStore.Next(g, t, ok).value, t, key)
  {
    var w, w' := g.workers[t], ConcurrentStore.Next(g, t, ok).value.workers[t];
    OwnStep(g, t, ok);
    if n: nat :| n < |w.answers| && Creates(w.answers[n], key) {
      assert w'.answers[n] == w.answers[n];
    } else {
      LeavingCreator(g, t, ok, key);
    }
  }

  // The key a step adds to the map is that of the operation, which is then about to say so.
  lemma NewIsCreated(g: Store, t: nat, ok: bool, key: Key)
    requires ConcurrentStore.Inv(g) && t < |g.workers| && ConcurrentStore.Next(g, t, ok).Some?
    requires Steps(g, ConcurrentStore.Next(g, t, ok).value, t)
    requires key in Contents(ConcurrentStore.Next(g, t, ok).value.shards[ShardOf(key)]) && key !in Contents(g.shards[ShardOf(key)])
    ensures Creator(ConcurrentStore.Next(g, t, ok).value, t, key)
  {
    assert WorkerOk(g, t);
    if g.workers[t].job.InShard? {
      InShardCreates(g, t, ok, key);
    } else {
      OnlyShardsCreate(g, t, ok, ShardOf(key));
    }
  }

  lemma PutContents(shards: seq<State>, j: nat, s: State, i: nat)
    requires j < |shards| && i < |shards| && shards[i].past != [] && shards[j].past != [] && s.past != []
    requires Contents(s) == Contents(shards[j])
    ensures Put(shards, j, s)[i].past != [] && Contents(Put(shards, j, s)[i]) == Contents(shards[i])
    ensures Ticked(shards)[i].past != [] && Contents(Ticked(shards)[i]) == Contents(shards[i])
  {
  }

  lemma LockingContents(g: Store, t: nat, next: nat, since: nat, i: nat)
    requires Shaped(g) && t < |g.workers| && g.workers[t].ops != [] && NextLocking(g, t, next, since).Some? && i < SHARD_COUNT
    ensures NextLocking(g, t, next, since).value.shards[i].past != []
    ensures Contents(NextLocking(g, t, next, since).value.shards[i]) == Contents(g.shards[i])
  {
    var j := if next < SHARD_COUNT then next else 0;
    PutContents(g.shards, j, Taken(g.shards[j], t, g.workers[t].ops[0]), i);
  }

  lemma ReplacingContents(g: Store, t: nat, next: nat, plans: seq<Plan>, since: nat, i: nat)
    requires Shaped(g) && t < |g.workers| && g.workers[t].ops != [] && i < SHARD_COUNT
    ensures NextReplacing(g, t, next, plans, since).shards[i].past != []
    ensures Contents(NextReplacing(g, t, next, plans, since).shards[i]) == Contents(g.shards[i])
  {
    var j := if next < SHARD_COUNT then next else 0;
    PutContents(g.shards, j, Replaced(g.shards[j], if next < |plans| && plans[next].Replace? then plans[next].table else []), i);
  }

  lemma UnlockingContents(g: Store, t: nat, left: nat, granted: bool, since: nat, i: nat)
    requires Shaped(g) && t < |g.workers| && g.workers[t].ops != [] && i < SHARD_COUNT
    ensures NextUnlocking(g, t, left, granted, since).shards[i].past != []
    ensures Contents(NextUnlocking(g, t, left, granted, since).shards[i]) == Contents(g.shards[i])
  {
    var j := if 0 < left <= SHARD_COUNT then left - 1 else 0;
    PutContents(g.shards, j, Dropped(g.shards[j], t), i);
  }

  lemma IdleContents(g: Store, t: nat, i: nat)
    requires Shaped(g) && t < |g.workers| && g.workers[t].ops != [] && i < SHARD_COUNT
    ensures NextIdle(g, t).shards[i].past != [] && Contents(NextIdle(g, t).shards[i]) == Contents(g.shards[i])
  {
    var op := g.workers[t].ops[0];
    var s := g.shards[ShardFor(op)];
    PutContents(g.shards, ShardFor(op), NextBegin(Given(s, t, op), t), i);
  }

  // Only an operation on a key changes the map.
  lemma OnlyShardsCreate(g: Store, t: nat, ok: bool, i: nat)
    requires t < |g.workers| && ConcurrentStore.Next(g, t, ok).Some? && !g.workers[t].job.InShard? && i < SHARD_COUNT
    ensures ConcurrentStore.Next(g, t, ok).value.shards[i].past != []
    ensures Contents(ConcurrentStore.Next(g, t, ok).value.shards[i]) == Contents(g.shards[i])
  {
    match g.workers[t].job
    case Idle => IdleContents(g, t, i);
    case Locking(next, since) => LockingContents(g, t, next, since, i);
    case Planning(plans, since) => PutContents(g.shards, 0, g.shards[0], i);
    case Replacing(next, plans, since) => ReplacingContents(g, t, next, plans, since, i);
    case Unlocking(left, granted, since) => UnlockingContents(g, t, left, granted, since, i);
  }

  // In a shard: whatever is added is the key of the operation, which leaves next.
  lemma ShardCreates(s: State, t: nat, ok: bool, op: Op, key: Key)
    requires ShardedStore.Inv(s) && t < |s.threads| && s.threads[t].ops == [op] && !op.Reserve? && ShardedStore.Next(s, t, ok).Some?
    requires var s' := ShardedStore.Next(s, t, ok).value;
      s'.past != [] && key in Contents(s') && key !in Contents(s)
    ensures op.GetOrCreate? && op.key == key && LeavesCreated(ShardedStore.Next(s, t, ok).value, t)
    ensures t < |ShardedStore.Next(s, t, ok).value.threads| && ShardedStore.Next(s, t, ok).value.threads[t].ops == [op]
  {
    assert PhaseOk(s, t);
    NextContents(s, t, ok, op);
    if s.threads[t].phase.Publishing? {
      PublishingSucceeds(s, t, s.threads[t].phase.node);
    } else {
      QuietContents(s, t, ok);
    }
  }

  lemma InShardCreates(g: Store, t: nat, ok: bool, key: Key)
    requires ConcurrentStore.Inv(g) && t < |g.workers| && g.workers[t].ops != [] && g.workers[t].job.InShard?
    requires NextInShard(g, t, ok).Some? && Shaped(NextInShard(g, t, ok).value)
    requires key in Contents(NextInShard(g, t, ok).value.shards[ShardOf(key)]) && key !in Contents(g.shards[ShardOf(key)])
    ensures Creator(NextInShard(g, t, ok).value, t, key)
  {
    var op := g.workers[t].ops[0];
    var j := ShardFor(op);
    assert WorkerOk(g, t) && ShardOk(g, j) && SeatOk(g.shards[j], g.workers[t], t, j);
    if j != ShardOf(key) {
      PutContents(g.shards, 0, g.shards[0], ShardOf(key));
    }
    ShardCreates(g.shards[j], t, ok, op, key);
  }

  lemma StepAccounts(g: Store, t: nat, ok: bool, m: map<Key, nat>, key: Key)
    requires ConcurrentStore.Inv(g) && t < |g.workers| && ConcurrentStore.Next(g, t, ok).Some? && Accounted(g, m, key)
    ensures Shaped(ConcurrentStore.Next(g, t, ok).value) && Accounted(ConcurrentStore.Next(g, t, ok).value, m, key)
  {
    var g' := ConcurrentStore.Next(g, t, ok).value;
    StepIsGentle(g, t, ok);
    if key in Contents(g'.shards[ShardOf(key)]) && key !in m {
      if key in Contents(g.shards[ShardOf(key)]) {
        var u: nat :| u < |g.workers| && Creator(g, u, key);
        if u == t {
          OwnCreator(g, t, ok, key);
        } else {
          OtherCreator(g, g', t, u, key);
        }
      } else {
        NewIsCreated(g, t, ok, key);
      }
    }
  }

  lemma {:induction false} RunAccounts(g: Store, schedule: seq<Turn>, m: map<Key, nat>, key: Key)
    requires ConcurrentStore.Inv(g) && Accounted(g, m, key)
    ensures Shaped(Run(g, schedule)) && Accounted(Run(g, schedule), m, key)
    decreases |schedule|
  {
    if schedule != [] {
      var front, turn := schedule[..|schedule| - 1], schedule[|schedule| - 1];
      RunAccounts(g, front, m, key);
      RunKeeps(g, front);
      var r := Run(g, front);
      if turn.worker < |r.workers| && ConcurrentStore.Next(r, turn.worker, turn.ok).Some? {
        StepAccounts(r, turn.worker, turn.ok, m, key);
      }
    }
  }

  // ---- A worker by itself ----

  // How many turns an operation still needs at most, if nobody else holds the lock it wants.
  function TurnsIn(s: State): nat
    requires s.threads != [] && s.tables != []
  {
    match s.threads[0].phase
    case Begin => |Active(s)| + 7
    case Scanning(table, probe) =>
      if table < |s.tables| && probe <= |s.tables[table]| then |s.tables[table]| - probe + 6 else 6
    case Loading(_, _) => 1
    case Waiting => 5
    case Holding => 4
    case Allocated(_) => 3
    case Publishing(_) => 2
    case Leaving(_, _) => 1
  }

  function TurnsOf(job: Job): nat {
    match job
    case Idle => 21
    case InShard => 0
    case Locking(next, _) => if next <= SHARD_COUNT then SHARD_COUNT - next + 16 else 16
    case Planning(plans, _) => if |plans| <= SHARD_COUNT then SHARD_COUNT - |plans| + 11 else 11
    case Replacing(next, _, _) => if next <= SHARD_COUNT then SHARD_COUNT - next + 6 else 6
    case Unlocking(left, _, _) => left + 1
  }

  function TurnsLeft(g: Store): nat
    requires Shaped(g) && |g.workers| > 0
  {
    var w := g.workers[0];
    if w.ops == [] then 0
    else if w.ops[0].Reserve? then TurnsOf(w.job)
    else if w.job.Idle? then |Active(g.shards[ShardFor(w.ops[0])])| + 7
    else TurnsIn(g.shards[ShardFor(w.ops[0])])
  }

  ghost predicate Lone(g: Store) {
    && ConcurrentStore.Inv(g) && |g.workers| == 1
    && |g.workers[0].ops| <= 1
  }

  lemma LoneSteps(g: Store, ok: bool)
    requires Lone(g) && g.workers[0].ops != []
    ensures ConcurrentStore.Next(g, 0, ok).Some?
  {
    var u := SomeoneSteps(g, 0, ok);
  }

  lemma ScanningShortens(s: State, table: nat, probe: nat)
    requires 0 < |s.threads| && s.threads[0].ops != [] && table < |s.tables| && probe <= |s.tables[table]|
    ensures var th := NextScanning(s, 0, table, probe).threads[0];
      && NextScanning(s, 0, table, probe).tables == s.tables
      && (th.ops == s.threads[0].ops ==> (th.phase.Waiting? || th.phase.Loading?
          || (th.phase == Scanning(table, probe + 1) && probe < |s.tables[table]|)))
  {
  }

  lemma HoldingShortens(s: State, ok: bool)
    requires s.threads != [] && s.threads[0].ops != [] && s.past != [] && s.tables != []
    ensures NextHolding(s, 0, ok).threads != []
    ensures var phase := NextHolding(s, 0, ok).threads[0].phase; phase.Leaving? || phase.Allocated?
  {
  }

  lemma AllocatedShortens(s: State, node: nat, ok: bool)
    requires s.threads != [] && s.past != [] && s.tables != []
    ensures NextAllocated(s, 0, node, ok).threads != []
    ensures var phase := NextAllocated(s, 0, node, ok).threads[0].phase; phase.Leaving? || phase.Publishing?
  {
  }

  lemma PublishingShortens(s: State, node: nat)
    requires s.threads != [] && s.threads[0].ops != [] && s.past != [] && s.tables != []
    ensures NextPublishing(s, 0, node).threads != [] && NextPublishing(s, 0, node).threads[0].phase.Leaving?
  {
  }

  lemma ShardShortens(s: State, ok: bool, op: Op)
    requires s.threads != [] && s.threads[0].ops == [op] && ShardedStore.Next(s, 0, ok).Some?
    requires var phase := s.threads[0].phase;
      phase.Scanning? && phase.table < |s.tables| ==> phase.probe <= |s.tables[phase.table]|
    requires ShardedStore.Next(s, 0, ok).value.tables != []
    ensures var s' := ShardedStore.Next(s, 0, ok).value;
      s'.threads != [] && (s'.threads[0].ops == [op] ==> TurnsIn(s') < TurnsIn(s))
  {
    match s.threads[0].phase
    case Scanning(table, probe) => ScanningShortens(s, table, probe);
    case Holding => HoldingShortens(s, ok);
    case Allocated(node) => AllocatedShortens(s, node, ok);
    case Publishing(node) => PublishingShortens(s, node);
    case _ =>
  }

  lemma LoneInShard(g: Store, ok: bool)
    requires Lone(g) && g.workers[0].ops != [] && g.workers[0].job.InShard? && NextInShard(g, 0, ok).Some?
    requires Shaped(NextInShard(g, 0, ok).value)
    ensures TurnsLeft(NextInShard(g, 0, ok).value) < TurnsLeft(g)
  {
    var op := g.workers[0].ops[0];
    var j := ShardFor(op);
    var s := g.shards[j];
    assert WorkerOk(g, 0) && ShardOk(g, j) && SeatOk(s, g.workers[0], 0, j) && PhaseOk(s, 0);
    NextKeeps(s, 0, ok);
    ShardShortens(s, ok, op);
    NextAnswers(s, 0, ok, op);
  }

  // Every turn of a lone worker brings its operation nearer its end.
  lemma LoneShortens(g: Store, ok: bool)
    requires Lone(g) && g.workers[0].ops != [] && ConcurrentStore.Next(g, 0, ok).Some?
    ensures Lone(ConcurrentStore.Next(g, 0, ok).value)
    ensures TurnsLeft(ConcurrentStore.Next(g, 0, ok).value) < TurnsLeft(g)
  {
    assert WorkerOk(g, 0);
    NextKeepsStore(g, 0, ok);
    OwnStep(g, 0, ok);
    if g.workers[0].job.InShard? {
      LoneInShard(g, ok);
    }
  }

  // A lone worker with one operation and enough turns has finished it.
  lemma {:induction false} LoneFinishes(g: Store, schedule: seq<Turn>)
    requires Lone(g) && forall i :: 0 <= i < |schedule| ==> schedule[i].worker == 0
    ensures Lone(Run(g, schedule))
    ensures Run(g, schedule).workers[0].ops == [] || TurnsLeft(Run(g, schedule)) + |schedule| <= TurnsLeft(g)
    decreases |schedule|
  {
    if schedule != [] {
      var front, turn := schedule[..|schedule| - 1], schedule[|schedule| - 1];
      assert forall i :: 0 <= i < |front| ==> front[i] == schedule[i];
      LoneFinishes(g, front);
      var r := Run(g, front);
      assert turn.worker == 0;
      if r.workers[0].ops != [] {
        LoneSteps(r, turn.ok);
        LoneShortens(r, turn.ok);
      }
    }
  }

  ghost predicate AloneOn(schedule: seq<Turn>) {
    forall i :: 0 <= i < |schedule| ==> schedule[i].worker == 0 && schedule[i].ok
  }

  // The state after a lone worker has had enough turns for its one operation.
  lemma LoneIsDone(start: Store, op: Op, schedule: seq<Turn>)
    requires Lone(start) && start.workers[0].ops == [op] && start.workers[0].answers == [] && AloneOn(schedule)
    requires |schedule| >= TurnsLeft(start)
    ensures var g := Run(start, schedule);
      ConcurrentStore.Inv(g) && |g.workers| == 1 && g.workers[0].ops == []
      && |g.workers[0].answers| == 1 && OpOf(g.workers[0].answers[0]) == op
  {
    LoneFinishes(start, schedule);
    ProgramOrder(start, schedule, 0);
    var g := Run(start, schedule);
    if g.workers[0].ops != [] {
      LoneNeedsTurns(g);
    }
    OneAnswer(g.workers[0].answers, g.workers[0].ops, op);
  }

  lemma LoneNeedsTurns(g: Store)
    requires Lone(g) && g.workers[0].ops != []
    ensures TurnsLeft(g) > 0
  {
    assert WorkerOk(g, 0);
  }

  lemma OneAnswer(answers: seq<Done>, ops: seq<Op>, op: Op)
    requires OpsOf(answers) + ops == OpsOf([]) + [op]
    ensures ops == [] ==> |answers| == 1 && OpOf(answers[0]) == op
  {
    assert OpsOf([]) + [op] == [op];
    if ops == [] {
      assert OpsOf(answers) == [op];
      assert OpOf(answers[0]) == OpsOf(answers)[0];
    }
  }

  lemma PreparedIsLone(cells: seq<Cell>, home: Home, m: map<Key, nat>, nodes: seq<Node>, op: Op)
    requires Preparable(cells, home, m, nodes)
    ensures var g := Prepared(cells, m, nodes, [[op]]);
      && Lone(g) && g.workers[0].ops == [op] && g.workers[0].answers == []
      && TurnsLeft(g) == if op.Reserve? then 21 else |PreparedSlots(cells, ShardOf(op.key))| + 7
  {
    PreparedInv(cells, home, m, nodes, [[op]]);
  }

  ghost predicate AllAccounted(g: Store, m: map<Key, nat>) {
    Shaped(g) && forall k :: Accounted(g, m, k)
  }

  ghost predicate Uncreated(g: Store, key: Key)
    requires Shaped(g)
  {
    forall t: nat :: t < |g.workers| ==> !Creator(g, t, key)
  }

  // Keys that nobody has created were there at the beginning.
  lemma OnlyOldKeys(g: Store, m: map<Key, nat>, i: nat)
    requires AllAccounted(g, m) && i < SHARD_COUNT && Routed(g.shards[i], i) && forall key :: Uncreated(g, key)
    ensures |Contents(g.shards[i])| <= |ShardMap(m, i)|
  {
    var contents := Contents(g.shards[i]);
    forall k | k in contents.Keys ensures k in ShardMap(m, i).Keys {
      assert ShardOf(k) == i && Accounted(g, m, k) && Uncreated(g, k);
    }
    assert ShardMap(m, i).Keys == contents.Keys + (ShardMap(m, i).Keys - contents.Keys);
  }

  // In every run, a key of the map was there at the beginning or is the key of an operation that has
  // answered, or is about to answer, that it created it.
  lemma EveryKeyHasCreator(cells: seq<Cell>, home: Home, m: map<Key, nat>, nodes: seq<Node>, programs: seq<seq<Op>>,
                         schedule: seq<Turn>, key: Key)
    requires Preparable(cells, home, m, nodes)
    ensures var g := Run(Prepared(cells, m, nodes, programs), schedule); Shaped(g) && Accounted(g, m, key)
  {
    PreparedInv(cells, home, m, nodes, programs);
    RunAccounts(Prepared(cells, m, nodes, programs), schedule, m, key);
  }

  // A key that the map held when the only operation took effect is a key that operation created.
  lemma LoneFound(g: Store, m: map<Key, nat>, key: Key, at: nat)
    requires ConcurrentStore.Inv(g) && AllAccounted(g, m) && key !in m && at < Instants(g) && Aligned(g, at) && key in MapAt(g, at)
    ensures exists t: nat :: t < |g.workers| && Creator(g, t, key)
  {
    MapOnlyGrows(g, at, Instants(g) - 1);
    MapIs(g, Instants(g) - 1, key);
    assert ShardOk(g, ShardOf(key));
    assert Accounted(g, m, key);
  }

  lemma LoneCreator(g: Store, key: Key)
    requires Shaped(g) && |g.workers| == 1 && g.workers[0].ops == [] && |g.workers[0].answers| == 1
    requires Creator(g, 0, key)
    ensures Creates(g.workers[0].answers[0], key)
  {
  }

  lemma LoneFailed(g: Store, m: map<Key, nat>, key: Key, d: Done)
    requires ConcurrentStore.Inv(g) && AllAccounted(g, m)
    requires |g.workers| == 1 && g.workers[0].ops == [] && g.workers[0].answers == [d] && d.Keyed? && d.result == Failed
    ensures |Contents(g.shards[ShardOf(key)])| <= |ShardMap(m, ShardOf(key))|
  {
    forall k ensures Uncreated(g, k) {
      if Creator(g, 0, k) {
        LoneCreator(g, k);
      }
    }
    assert ShardOk(g, ShardOf(key));
    OnlyOldKeys(g, m, ShardOf(key));
  }

  // If the map has been accounted for and nothing stood in the way, the one answer is a creation.
  lemma LoneAnswer(g: Store, m: map<Key, nat>, key: Key, count: nat, d: Done)
    requires ConcurrentStore.Inv(g) && AllAccounted(g, m) && key !in m
    requires |g.workers| == 1 && g.workers[0].ops == [] && g.workers[0].answers == [d]
    requires OpOf(d) == GetOrCreate(key, count) && Answered(g, d)
    requires d.Keyed? && d.result == Failed ==> |Contents(g.shards[ShardOf(key)])| > |ShardMap(m, ShardOf(key))|
    ensures d.Keyed? && d.op == GetOrCreate(key, count) && d.result.Created?
  {
    if d.result == Failed {
      LoneFailed(g, m, key, d);
    } else if !d.result.Created? {
      LoneFound(g, m, key, d.at);
      LoneCreator(g, key);
    }
  }

  lemma CreatedStays(g: Store, d: Done, key: Key, count: nat)
    requires ConcurrentStore.Inv(g) && Answered(g, d) && d.Keyed? && d.op == GetOrCreate(key, count) && d.result.Created?
    ensures Instants(g) > 0 && Aligned(g, Instants(g) - 1) && key in MapAt(g, Instants(g) - 1)
    ensures MapAt(g, Instants(g) - 1)[key] == Ref(ShardOf(key), d.result.node)
    ensures NodeOf(g, Ref(ShardOf(key), d.result.node)) == Some(Node(key, count))
  {
    MapOnlyGrows(g, d.at, Instants(g) - 1);
  }

  // A lone worker that asks for an absent key, with memory and a shard that is not full, has created it
  // after as many turns as the shard's table has cells and seven more: the map then holds the new node.
  lemma LoneCreates(cells: seq<Cell>, home: Home, m: map<Key, nat>, nodes: seq<Node>, key: Key, count: nat, schedule: seq<Turn>)
    requires Preparable(cells, home, m, nodes) && AloneOn(schedule) && key !in m
    requires |ShardMap(m, ShardOf(key))| < MAX_CAPACITY - MAX_CAPACITY / 4
    requires |schedule| >= |PreparedSlots(cells, ShardOf(key))| + 7
    ensures var g := Run(Prepared(cells, m, nodes, [[GetOrCreate(key, count)]]), schedule);
      && |g.workers| == 1 && g.workers[0].ops == [] && |g.workers[0].answers| == 1
      && var d := g.workers[0].answers[0];
         && d.Keyed? && d.result.Created?
         && Instants(g) > 0 && Aligned(g, Instants(g) - 1) && key in MapAt(g, Instants(g) - 1)
         && MapAt(g, Instants(g) - 1)[key] == Ref(ShardOf(key), d.result.node)
         && NodeOf(g, Ref(ShardOf(key), d.result.node)) == Some(Node(key, count))
  {
    var op := GetOrCreate(key, count);
    PreparedIsLone(cells, home, m, nodes, op);
    LoneIsDone(Prepared(cells, m, nodes, [[op]]), op, schedule);
    LoneIsServed(cells, home, m, nodes, op, schedule);
    LoneIsAccounted(cells, home, m, nodes, op, schedule);
    var g := Run(Prepared(cells, m, nodes, [[op]]), schedule);
    LoneConcludes(g, m, key, count);
  }

  lemma LoneConcludes(g: Store, m: map<Key, nat>, key: Key, count: nat)
    requires ConcurrentStore.Inv(g) && AllAccounted(g, m) && key !in m
    requires |g.workers| == 1 && g.workers[0].ops == [] && |g.workers[0].answers| == 1
    requires OpOf(g.workers[0].answers[0]) == GetOrCreate(key, count) && Answered(g, g.workers[0].answers[0])
    requires g.workers[0].answers[0].Keyed? && g.workers[0].answers[0].result == Failed ==>
      |Contents(g.shards[ShardOf(key)])| > |ShardMap(m, ShardOf(key))|
    ensures var d := g.workers[0].answers[0];
      && d.Keyed? && d.result.Created?
      && Instants(g) > 0 && Aligned(g, Instants(g) - 1) && key in MapAt(g, Instants(g) - 1)
      && MapAt(g, Instants(g) - 1)[key] == Ref(ShardOf(key), d.result.node)
      && NodeOf(g, Ref(ShardOf(key), d.result.node)) == Some(Node(key, count))
  {
    LoneAnswer(g, m, key, count, g.workers[0].answers[0]);
    CreatedStays(g, g.workers[0].answers[0], key, count);
  }

  lemma LoneIsServed(cells: seq<Cell>, home: Home, m: map<Key, nat>, nodes: seq<Node>, op: Op, schedule: seq<Turn>)
    requires Preparable(cells, home, m, nodes) && AloneOn(schedule)
    requires var g := Run(Prepared(cells, m, nodes, [[op]]), schedule); |g.workers| == 1 && |g.workers[0].answers| == 1
    ensures var g := Run(Prepared(cells, m, nodes, [[op]]), schedule);
      var d := g.workers[0].answers[0];
      && Shaped(g) && Answered(g, d)
      && (d.Keyed? && !d.op.Reserve? && d.result == Failed ==>
            |Contents(g.shards[ShardOf(d.op.key)])| >= MAX_CAPACITY - MAX_CAPACITY / 4)
  {
    EveryKeyHasCreator(cells, home, m, nodes, [[op]], schedule, 0);
    Linearizable(cells, home, m, nodes, [[op]], schedule, 0, 0);
    FailsOnlyWhenFull(cells, home, m, nodes, [[op]], schedule, 0, 0);
  }

  lemma LoneIsAccounted(cells: seq<Cell>, home: Home, m: map<Key, nat>, nodes: seq<Node>, op: Op, schedule: seq<Turn>)
    requires Preparable(cells, home, m, nodes)
    ensures AllAccounted(Run(Prepared(cells, m, nodes, [[op]]), schedule), m)
  {
    var g := Run(Prepared(cells, m, nodes, [[op]]), schedule);
    EveryKeyHasCreator(cells, home, m, nodes, [[op]], schedule, 0);
    forall k ensures Accounted(g, m, k) {
      EveryKeyHasCreator(cells, home, m, nodes, [[op]], schedule, k);
    }
  }

  // A lone worker that reserves has its answer after twenty-one turns: with memory, it is granted exactly when the nodes
  // asked for fit into three quarters of the largest tables.
  lemma LoneReserves(cells: seq<Cell>, home: Home, m: map<Key, nat>, nodes: seq<Node>, minimum: nat, schedule: seq<Turn>)
    requires Preparable(cells, home, m, nodes) && AloneOn(schedule) && |schedule| >= 21
    ensures var g := Run(Prepared(cells, m, nodes, [[Reserve(minimum)]]), schedule);
      && |g.workers| == 1 && g.workers[0].ops == [] && |g.workers[0].answers| == 1
      && var d := g.workers[0].answers[0];
         && d.Reservation? && d.minimum == minimum
         && (d.granted <==> minimum <= SHARD_COUNT * (MAX_CAPACITY - MAX_CAPACITY / 4))
  {
    var op := Reserve(minimum);
    PreparedIsLone(cells, home, m, nodes, op);
    LoneIsDone(Prepared(cells, m, nodes, [[op]]), op, schedule);
    FailsOnlyWhenFull(cells, home, m, nodes, [[op]], schedule, 0, 0);
  }
}
