// How the tables of the concurrent store grow: by doubling, and only when three quarters of a table are taken.
module StoreGrowth {
  import opened ProbeTable
  import opened Hashing
  import opened ShardedStore
  import opened ConcurrentStore
  import opened StoreMemory

  // The cells that have been written.
  function Taken(slots: seq<Stored>): (n: nat)
    ensures n <= |slots|
    decreases |slots|
  {
    if slots == [] then 0 else Taken(slots[..|slots| - 1]) + if slots[|slots| - 1].Tagged? then 1 else 0
  }

  lemma {:induction false} UsedAreTaken(slots: seq<Stored>, nodes: seq<Node>)
    ensures Count(Cells(slots, nodes)) <= Taken(slots)
    decreases |slots|
  {
    if slots != [] {
      UsedAreTaken(slots[..|slots| - 1], nodes);
      assert Cells(slots, nodes)[..|slots| - 1] == Cells(slots[..|slots| - 1], nodes);
    }
  }

  // A table gave way to the next one when three quarters of it were taken, and the next is twice as large.
  ghost predicate GaveWay(tables: seq<seq<Stored>>, i: nat)
    requires i + 1 < |tables|
  {
    |tables[i + 1]| == 2 * |tables[i]| && 4 * Taken(tables[i]) >= 3 * |tables[i]|
  }

  ghost predicate Doubling(tables: seq<seq<Stored>>) {
    tables != [] && forall i: nat :: i + 1 < |tables| ==> GaveWay(tables, i)
  }

  lemma LastWritten(tables: seq<seq<Stored>>, slots: seq<Stored>)
    requires Doubling(tables) && |slots| == |tables[|tables| - 1]|
    ensures Doubling(tables[|tables| - 1 := slots])
  {
    var after := tables[|tables| - 1 := slots];
    forall i: nat | i + 1 < |after| ensures GaveWay(after, i) {
      assert GaveWay(tables, i);
    }
  }

  lemma OneTableMore(tables: seq<seq<Stored>>, slots: seq<Stored>)
    requires Doubling(tables)
    requires var last := tables[|tables| - 1]; |slots| == 2 * |last| && 4 * Taken(last) >= 3 * |last|
    ensures Doubling(tables + [slots])
  {
    var after := tables + [slots];
    forall i: nat | i + 1 < |after| ensures GaveWay(after, i) {
      if i + 1 < |tables| {
        assert GaveWay(tables, i);
      }
    }
  }

  // ---- Steps in a shard ----

  lemma AllocatedDoubles(s: State, t: nat, node: nat, ok: bool)
    requires ShardedStore.Inv(s) && t < |s.threads| && Doubling(s.tables)
    ensures Doubling(NextAllocated(s, t, node, ok).tables)
  {
    var capacity := |Active(s)|;
    assert ShardTableOk(Active(s), s.nodes, Contents(s));
    CapacityRange(capacity);
    if Count(Cells(Active(s), s.nodes)) >= LoadLimit(capacity) && ok && 0 < 2 * capacity <= MAX_CAPACITY {
      UsedAreTaken(Active(s), s.nodes);
      OneTableMore(s.tables, Grown(s, 2 * capacity).tables[|s.tables|]);
    }
  }

  lemma PublishingDoubles(s: State, t: nat, node: nat)
    requires t < |s.threads| && s.threads[t].ops != [] && s.past != [] && Doubling(s.tables)
    ensures Doubling(NextPublishing(s, t, node).tables)
  {
    var s' := NextPublishing(s, t, node);
    if s'.tables != s.tables {
      LastWritten(s.tables, s'.tables[|s.tables| - 1]);
    }
  }

  lemma ScanningWrites(s: State, t: nat, table: nat, probe: nat)
    requires t < |s.threads| && s.threads[t].ops != [] && table < |s.tables|
    ensures NextScanning(s, t, table, probe).tables == s.tables
  {
  }

  lemma HoldingWrites(s: State, t: nat, ok: bool)
    requires t < |s.threads| && s.threads[t].ops != [] && s.past != [] && s.tables != []
    ensures NextHolding(s, t, ok).tables == s.tables
  {
  }

  lemma ShardDoubles(s: State, t: nat, ok: bool)
    requires ShardedStore.Inv(s) && t < |s.threads| && ShardedStore.Next(s, t, ok).Some? && Doubling(s.tables)
    ensures Doubling(ShardedStore.Next(s, t, ok).value.tables)
  {
    match s.threads[t].phase
    case Scanning(table, probe) => ScanningWrites(s, t, table, probe);
    case Holding => HoldingWrites(s, t, ok);
    case Allocated(node) => AllocatedDoubles(s, t, node, ok);
    case Publishing(node) => PublishingDoubles(s, t, node);
    case _ =>
  }

  // ---- Runs without reservations ----

  ghost predicate NoReservations(g: Store) {
    forall t: nat, n: nat :: t < |g.workers| && n < |g.workers[t].ops| ==> !g.workers[t].ops[n].Reserve?
  }

  ghost predicate AllDoubling(g: Store) {
    forall i :: 0 <= i < |g.shards| ==> Doubling(g.shards[i].tables)
  }

  lemma PutDoubles(g: Store, t: nat, j: nat, s: State, w: Worker)
    requires t < |g.workers| && j < |g.shards| && AllDoubling(g) && Doubling(s.tables)
    ensures AllDoubling(With(g, t, Put(g.shards, j, s), w))
  {
  }

  lemma StepDoubles(g: Store, t: nat, ok: bool)
    requires ConcurrentStore.Inv(g) && t < |g.workers| && ConcurrentStore.Next(g, t, ok).Some?
    requires NoReservations(g) && AllDoubling(g)
    ensures AllDoubling(ConcurrentStore.Next(g, t, ok).value)
  {
    var w := g.workers[t];
    assert WorkerOk(g, t) && !w.ops[0].Reserve?;
    var j := ShardFor(w.ops[0]);
    var s, w' := g.shards[j], ConcurrentStore.Next(g, t, ok).value.workers[t];
    if w.job.Idle? {
      PutDoubles(g, t, j, NextBegin(Given(s, t, w.ops[0]), t), w');
    } else {
      assert ShardOk(g, j) && SeatOk(s, w, t, j);
      ShardDoubles(s, t, ok);
      PutDoubles(g, t, j, ShardedStore.Next(s, t, ok).value, w');
    }
  }

  lemma StillNoReservations(g: Store, t: nat, ok: bool)
    requires ConcurrentStore.Inv(g) && t < |g.workers| && ConcurrentStore.Next(g, t, ok).Some? && NoReservations(g)
    ensures NoReservations(ConcurrentStore.Next(g, t, ok).value)
  {
    OwnStep(g, t, ok);
    StepIsGentle(g, t, ok);
  }

  lemma {:induction false} RunDoubles(g: Store, schedule: seq<Turn>)
    requires ConcurrentStore.Inv(g) && NoReservations(g) && AllDoubling(g)
    ensures NoReservations(Run(g, schedule)) && AllDoubling(Run(g, schedule))
    decreases |schedule|
  {
    if schedule != [] {
      var front, turn := schedule[..|schedule| - 1], schedule[|schedule| - 1];
      RunDoubles(g, front);
      RunKeeps(g, front);
      var r := Run(g, front);
      if turn.worker < |r.workers| && ConcurrentStore.Next(r, turn.worker, turn.ok).Some? {
        StepDoubles(r, turn.worker, turn.ok);
        StillNoReservations(r, turn.worker, turn.ok);
      }
    }
  }

  // In every run without reservations, every table of every shard that has been replaced was three quarters taken, and the
  // one that replaced it is twice as large.
  lemma GrowsOnlyWhenFull(cells: seq<Cell>, home: Home, m: map<Key, nat>, nodes: seq<Node>, programs: seq<seq<Op>>,
                          schedule: seq<Turn>, i: nat, k: nat)
    requires Preparable(cells, home, m, nodes)
    requires forall t: nat, n: nat :: t < |programs| && n < |programs[t]| ==> !programs[t][n].Reserve?
    requires var g := Run(Prepared(cells, m, nodes, programs), schedule); i < |g.shards| && k + 1 < |g.shards[i].tables|
    ensures var tables := Run(Prepared(cells, m, nodes, programs), schedule).shards[i].tables;
      |tables[k + 1]| == 2 * |tables[k]| && 4 * Taken(tables[k]) >= 3 * |tables[k]|
  {
    var start := Prepared(cells, m, nodes, programs);
    PreparedInv(cells, home, m, nodes, programs);
    RunDoubles(start, schedule);
    assert GaveWay(Run(start, schedule).shards[i].tables, k);
  }

  // ---- Reservations ----

  // Nothing half as large would do.
  ghost predicate NoSmaller(minimum: nat, capacity: nat, target: nat) {
    target == capacity || (target % 2 == 0 && 4 * minimum > 3 * (target / 2))
  }

  lemma TargetStops(minimum: nat, capacity: nat)
    requires minimum <= LoadLimit(capacity) || 2 * capacity > MAX_CAPACITY
    ensures TargetFor(minimum, capacity) == capacity
  {
  }

  lemma TargetDoubles(minimum: nat, capacity: nat)
    requires capacity > 0 && minimum > LoadLimit(capacity) && 2 * capacity <= MAX_CAPACITY
    ensures TargetFor(minimum, capacity) == TargetFor(minimum, 2 * capacity)
  {
  }

  lemma OneDoublingMore(minimum: nat, capacity: nat, target: nat)
    requires 4 * minimum > 3 * capacity && NoSmaller(minimum, 2 * capacity, target)
    ensures NoSmaller(minimum, capacity, target)
  {
  }

  // What a reservation makes room for is the smallest doubling that has it.
  lemma {:induction false} TargetIsSmallest(minimum: nat, capacity: nat)
    requires IsCapacity(capacity) && capacity <= MAX_CAPACITY
    ensures NoSmaller(minimum, capacity, TargetFor(minimum, capacity))
    decreases MAX_CAPACITY - capacity
  {
    Quarters(capacity);
    if minimum <= LoadLimit(capacity) || 2 * capacity > MAX_CAPACITY {
      TargetStops(minimum, capacity);
    } else {
      DoubleCapacity(capacity);
      TargetIsSmallest(minimum, 2 * capacity);
      TargetDoubles(minimum, capacity);
      OneDoublingMore(minimum, capacity, TargetFor(minimum, 2 * capacity));
    }
  }

  lemma Quarters(capacity: nat)
    requires IsCapacity(capacity)
    ensures capacity > 0 && 4 * LoadLimit(capacity) == 3 * capacity
  {
    CapacityRange(capacity);
  }

  // Half the table a reservation plans for a shard would be too small for what is asked of the shard, or for what it holds.
  lemma ReservationIsModest(g: Store, t: nat, plans: seq<Plan>, since: nat, ok: bool)
    requires ConcurrentStore.Inv(g) && t < |g.workers| && Asked(g.workers[t]) && g.workers[t].job == Planning(plans, since)
    requires |plans| < SHARD_COUNT
    ensures var s, job := g.shards[|plans|], NextPlanning(g, t, plans, since, ok).workers[t].job;
      job.Planning? && |job.plans| == |plans| + 1 && job.plans[|plans|].Replace? ==>
        var half := job.plans[|plans|].capacity / 2;
        4 * PerShard(g.workers[t].ops[0]) > 3 * half || 4 * Count(Cells(Active(s), s.nodes)) > 3 * half
  {
    var s, op := g.shards[|plans|], g.workers[t].ops[0];
    assert ShardOk(g, |plans|) && ShardTableOk(Active(s), s.nodes, Contents(s));
    TargetIsSmallest(Needed(s, op), |Active(s)|);
  }
}
