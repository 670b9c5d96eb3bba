// The concurrent information store: four shards, each with its own tables and lock, and workers whose
// operations go to the shard of their key or, for a reservation, to all of them at once.
module ConcurrentStore {
  import opened ProbeTable
  import opened Hashing
  import opened ShardedStore

  // A node as the store knows it.
  datatype Ref = Ref(shard: nat, node: nat)

  // What a reservation will do to one shard.
  datatype Plan = Keep | Replace(capacity: nat, table: seq<Stored>)

  // A reservation locks the shards in order, plans all replacements before it publishes any, and unlocks in
  // reverse order. Since is the instant at which it began.
  datatype Job =
    | Idle
    | InShard
    | Locking(next: nat, since: nat)
    | Planning(plans: seq<Plan>, since: nat)
    | Replacing(next: nat, plans: seq<Plan>, since: nat)
    | Unlocking(left: nat, granted: bool, since: nat)

  // A finished operation: when it began, when it took effect, and when it ended.
  datatype Done =
    | Keyed(op: Op, since: nat, at: nat, until: nat, result: Result)
    | Reservation(minimum: nat, since: nat, until: nat, granted: bool)

  datatype Worker = Worker(ops: seq<Op>, job: Job, answers: seq<Done>)

  datatype Store = Store(shards: seq<State>, workers: seq<Worker>)

  // The shard of an operation on a key.
  function ShardFor(op: Op): (i: nat)
    ensures i < SHARD_COUNT
  {
    if op.Reserve? then 0 else ShardOf(op.key)
  }

  // The number of instants so far; the shards keep time together.
  function Instants(g: Store): nat {
    if g.shards == [] then 0 else |g.shards[0].past|
  }

  predicate Shaped(g: Store) {
    && |g.shards| == SHARD_COUNT
    && forall i :: 0 <= i < SHARD_COUNT ==>
         |g.shards[i].threads| == |g.workers| && g.shards[i].past != [] && g.shards[i].tables != []
  }

  // ---- The steps ----

  function Ticked(shards: seq<State>): (r: seq<State>)
    ensures |r| == |shards|
  {
    seq(|shards|, i requires 0 <= i < |shards| => Tick(shards[i]))
  }

  // One shard takes a step, time passes in the others.
  function Put(shards: seq<State>, i: nat, s: State): (r: seq<State>)
    requires i < |shards|
    ensures |r| == |shards|
  {
    Ticked(shards)[i := s]
  }

  function With(g: Store, t: nat, shards: seq<State>, w: Worker): Store
    requires t < |g.workers|
  {
    Store(shards, g.workers[t := w])
  }

  function Next(g: Store, t: nat, ok: bool): Option<Store>
    requires t < |g.workers|
  {
    var w := g.workers[t];
    if !Shaped(g) || w.ops == [] then None else
      match w.job
      case Idle => Some(NextIdle(g, t))
      case InShard => NextInShard(g, t, ok)
      case Locking(next, since) => NextLocking(g, t, next, since)
      case Planning(plans, since) => Some(NextPlanning(g, t, plans, since, ok))
      case Replacing(next, plans, since) => Some(NextReplacing(g, t, next, plans, since))
      case Unlocking(left, granted, since) => Some(NextUnlocking(g, t, left, granted, since))
  }

  function NextIdle(g: Store, t: nat): Store
    requires t < |g.workers| && Shaped(g) && g.workers[t].ops != []
  {
    var w, op := g.workers[t], g.workers[t].ops[0];
    if op.Reserve? then With(g, t, Ticked(g.shards), w.(job := Locking(0, Instants(g))))
    else
      With(g, t, Put(g.shards, ShardFor(op), NextBegin(Given(g.shards[ShardFor(op)], t, op), t)), w.(job := InShard))
  }

  // The worker follows the protocol of the shard; its answer there is its answer.
  function NextInShard(g: Store, t: nat, ok: bool): Option<Store>
    requires t < |g.workers| && Shaped(g) && g.workers[t].ops != []
  {
    var w, i := g.workers[t], ShardFor(g.workers[t].ops[0]);
    match ShardedStore.Next(g.shards[i], t, ok)
    case None => None
    case Some(s) =>
      if t < |s.threads| && s.threads[t].ops == [] && s.threads[t].answers != [] then
        var a := s.threads[t].answers[|s.threads[t].answers| - 1];
        Some(With(g, t, Put(g.shards, i, s),
                  Worker(w.ops[1..], Idle, w.answers + [Keyed(a.op, a.since, a.at, Instants(g), a.result)])))
      else Some(With(g, t, Put(g.shards, i, s), w))
  }

  function NextLocking(g: Store, t: nat, next: nat, since: nat): Option<Store>
    requires t < |g.workers| && Shaped(g) && g.workers[t].ops != []
  {
    var w := g.workers[t];
    if next >= SHARD_COUNT then Some(With(g, t, Ticked(g.shards), w.(job := Planning([], since))))
    else if g.shards[next].owner.Some? then None
    else Some(With(g, t, Put(g.shards, next, Taken(g.shards[next], t, w.ops[0])), w.(job := Locking(next + 1, since))))
  }

  // Each shard is to hold its part of the nodes asked for.
  function PerShard(op: Op): nat {
    if !op.Reserve? then 0 else op.minimum / SHARD_COUNT + if op.minimum % SHARD_COUNT != 0 then 1 else 0
  }

  function Needed(s: State, op: Op): nat
    requires s.tables != []
  {
    var size := Count(Cells(Active(s), s.nodes));
    if PerShard(op) > size then PerShard(op) else size
  }

  function NextPlanning(g: Store, t: nat, plans: seq<Plan>, since: nat, ok: bool): Store
    requires t < |g.workers| && Shaped(g) && g.workers[t].ops != []
  {
    var w := g.workers[t];
    if |plans| >= SHARD_COUNT then With(g, t, Ticked(g.shards), w.(job := Replacing(0, plans, since)))
    else
      var s := g.shards[|plans|];
      var target := TargetFor(Needed(s, w.ops[0]), |Active(s)|);
      var job :=
        if Needed(s, w.ops[0]) > LoadLimit(target) then Unlocking(SHARD_COUNT, false, since)
        else if target <= |Active(s)| then Planning(plans + [Keep], since)
        else if !ok then Unlocking(SHARD_COUNT, false, since)
        else Planning(plans + [Replace(target, Replacement(s, target))], since);
      With(g, t, Ticked(g.shards), w.(job := job))
  }

  function NextReplacing(g: Store, t: nat, next: nat, plans: seq<Plan>, since: nat): Store
    requires t < |g.workers| && Shaped(g) && g.workers[t].ops != []
  {
    var w := g.workers[t];
    if next >= SHARD_COUNT || next >= |plans| then With(g, t, Ticked(g.shards), w.(job := Unlocking(SHARD_COUNT, true, since)))
    else
      var shards := if plans[next].Keep? then Ticked(g.shards)
                    else Put(g.shards, next, Replaced(g.shards[next], plans[next].table));
      With(g, t, shards, w.(job := Replacing(next + 1, plans, since)))
  }

  function NextUnlocking(g: Store, t: nat, left: nat, granted: bool, since: nat): Store
    requires t < |g.workers| && Shaped(g) && g.workers[t].ops != []
  {
    var w, op := g.workers[t], g.workers[t].ops[0];
    if 0 < left <= SHARD_COUNT then
      With(g, t, Put(g.shards, left - 1, Dropped(g.shards[left - 1], t)), w.(job := Unlocking(left - 1, granted, since)))
    else
      With(g, t, Ticked(g.shards),
           Worker(w.ops[1..], Idle, w.answers + [Reservation(if op.Reserve? then op.minimum else 0, since, Instants(g), granted)]))
  }

  // One turn of a schedule: which worker, and whether its allocation succeeds.
  datatype Turn = Turn(worker: nat, ok: bool)

  function Run(g: Store, schedule: seq<Turn>): Store
    decreases |schedule|
  {
    if schedule == [] then g else
      var r := Run(g, schedule[..|schedule| - 1]);
      var turn := schedule[|schedule| - 1];
      if turn.worker < |r.workers| && Next(r, turn.worker, turn.ok).Some? then Next(r, turn.worker, turn.ok).value else r
  }

  // ---- What every step keeps ----

  // The keys of a shard are those whose hash chooses it.
  ghost predicate Routed(s: State, i: nat) {
    s.past != [] && forall k :: k in Contents(s) ==> ShardOf(k) == i
  }

  // At most one shard's map changes at an instant.
  ghost predicate QuietBut(shards: seq<State>, n: nat, j: nat) {
    forall i :: 0 <= i < |shards| && i != j ==> 0 < n < |shards[i].past| && shards[i].past[n] == shards[i].past[n - 1]
  }

  ghost predicate QuietAt(shards: seq<State>, n: nat) {
    exists j: nat :: QuietBut(shards, n, j)
  }

  ghost predicate OneAtATime(g: Store) {
    forall n: nat :: 0 < n < Instants(g) ==> QuietAt(g.shards, n)
  }

  // How many locks a reservation holds: those of the first shards.
  function Locks(job: Job): nat {
    match job
    case Locking(next, _) => next
    case Planning(_, _) => SHARD_COUNT
    case Replacing(_, _, _) => SHARD_COUNT
    case Unlocking(left, _, _) => left
    case _ => 0
  }

  ghost predicate HasRoom(s: State, op: Op) {
    s.tables != [] && PerShard(op) <= LoadLimit(|Active(s)|)
  }

  // A planned replacement is the active table rehashed, large enough for what is asked.
  ghost predicate PlanOk(s: State, op: Op, plan: Plan) {
    && s.tables != []
    && match plan
       case Keep => HasRoom(s, op)
       case Replace(capacity, table) =>
         && IsCapacity(capacity) && |Active(s)| < capacity <= MAX_CAPACITY
         && table == Replacement(s, capacity) && PerShard(op) <= LoadLimit(capacity)
  }

  ghost predicate JobOk(g: Store, t: nat)
    requires Shaped(g) && t < |g.workers|
  {
    var w := g.workers[t];
    match w.job
    case Idle => true
    case InShard => w.ops != [] && !w.ops[0].Reserve?
    case Locking(next, since) => Asked(w) && next <= SHARD_COUNT && since <= Instants(g)
    case Planning(plans, since) =>
      && Asked(w) && |plans| <= SHARD_COUNT && since <= Instants(g)
      && forall i: nat :: i < |plans| ==> PlanOk(g.shards[i], w.ops[0], plans[i])
    case Replacing(next, plans, since) =>
      && Asked(w) && next <= SHARD_COUNT == |plans| && since <= Instants(g)
      && (forall i: nat :: next <= i < SHARD_COUNT ==> PlanOk(g.shards[i], w.ops[0], plans[i]))
      && (forall i: nat :: i < next ==> HasRoom(g.shards[i], w.ops[0]))
    case Unlocking(left, granted, since) =>
      && Asked(w) && left <= SHARD_COUNT && since <= Instants(g)
      && (granted ==> forall i: nat :: i < left ==> HasRoom(g.shards[i], w.ops[0]))
  }

  ghost predicate Asked(w: Worker) {
    w.ops != [] && w.ops[0].Reserve?
  }

  // What a worker's job means in one shard.
  ghost predicate SeatOk(s: State, w: Worker, t: nat, i: nat) {
    && t < |s.threads|
    && if i < Locks(w.job) then w.ops != [] && Reserving(s, t, w.ops[0])
       else if w.job.InShard? && w.ops != [] && ShardFor(w.ops[0]) == i then s.threads[t].ops == [w.ops[0]]
       else s.threads[t].ops == []
  }

  ghost predicate RecordedIn(s: State, t: nat, a: ShardedStore.Answer) {
    t < |s.threads| && a in s.threads[t].answers
  }

  ghost predicate DoneOk(g: Store, t: nat, d: Done)
    requires Shaped(g)
  {
    match d
    case Keyed(op, since, at, until, result) =>
      && !op.Reserve? && at <= until < Instants(g)
      && RecordedIn(g.shards[ShardFor(op)], t, ShardedStore.Answer(op, since, at, result))
    case Reservation(_, since, until, _) => since <= until < Instants(g)
  }

  ghost predicate WorkerOk(g: Store, t: nat)
    requires Shaped(g) && t < |g.workers|
  {
    && JobOk(g, t)
    && (forall i :: 0 <= i < SHARD_COUNT ==> SeatOk(g.shards[i], g.workers[t], t, i))
    && (forall n :: 0 <= n < |g.workers[t].answers| ==> DoneOk(g, t, g.workers[t].answers[n]))
  }

  ghost predicate ShardOk(g: Store, i: nat)
    requires i < |g.shards|
  {
    && ShardedStore.Inv(g.shards[i]) && Routed(g.shards[i], i) && |g.shards[i].past| == Instants(g)
    && (g.shards[i].owner.Some? ==> g.shards[i].owner.value < |g.workers|)
  }

  ghost predicate Inv(g: Store) {
    && Shaped(g) && OneAtATime(g)
    && (forall i: nat :: i < SHARD_COUNT ==> ShardOk(g, i))
    && (forall t: nat :: t < |g.workers| ==> WorkerOk(g, t))
  }

  // ---- A step of one worker ----

  // What a step of t leaves to the others: their threads, and whatever they hold the lock of.
  ghost predicate Gentle(s: State, s': State, t: nat) {
    && t < |s.threads| && |s'.threads| == |s.threads| && s'.threads == s.threads[t := s'.threads[t]]
    && Extends(s.threads[t].answers, s'.threads[t].answers)
    && |s'.past| == |s.past| + 1 && s'.past[..|s.past|] == s.past
    && (s'.owner == s.owner || s'.owner == Some(t) || s'.owner.None?)
    && (s.owner.Some? && s.owner.value != t ==> s'.owner == s.owner && s'.tables == s.tables && s'.nodes == s.nodes)
  }

  lemma TickIsGentle(s: State, t: nat)
    requires s.past != [] && t < |s.threads|
    ensures Gentle(s, Tick(s), t)
  {
  }

  lemma SeatKept(s: State, s': State, w: Worker, t: nat, u: nat, i: nat)
    requires Gentle(s, s', t) && u != t && SeatOk(s, w, u, i)
    ensures SeatOk(s', w, u, i)
  {
  }

  ghost predicate Steps(g: Store, g': Store, t: nat) {
    && Shaped(g) && Shaped(g') && t < |g.workers| == |g'.workers| && g'.workers == g.workers[t := g'.workers[t]]
    && forall i: nat :: i < SHARD_COUNT ==> Gentle(g.shards[i], g'.shards[i], t)
  }

  lemma InstantsGrow(g: Store, g': Store, t: nat)
    requires Steps(g, g', t)
    ensures Instants(g') == Instants(g) + 1
  {
    assert Gentle(g.shards[0], g'.shards[0], t);
  }

  // A reservation's plans stand as long as it holds the locks.
  lemma PlansKept(g: Store, g': Store, t: nat, u: nat, i: nat)
    requires Steps(g, g', t) && u != t && u < |g.workers| && i < SHARD_COUNT && i < Locks(g.workers[u].job)
    requires SeatOk(g.shards[i], g.workers[u], u, i)
    ensures g'.shards[i].tables == g.shards[i].tables && g'.shards[i].nodes == g.shards[i].nodes
  {
    assert Gentle(g.shards[i], g'.shards[i], t);
  }

  lemma JobKept(g: Store, g': Store, t: nat, u: nat)
    requires Steps(g, g', t) && u != t && u < |g.workers| && WorkerOk(g, u)
    ensures JobOk(g', u)
  {
    InstantsGrow(g, g', t);
    var w := g.workers[u];
    forall i: nat | i < SHARD_COUNT && i < Locks(w.job)
      ensures g'.shards[i].tables == g.shards[i].tables && g'.shards[i].nodes == g.shards[i].nodes
    {
      assert SeatOk(g.shards[i], w, u, i);
      PlansKept(g, g', t, u, i);
    }
    SameJob(g, g', u);
  }

  lemma SameJob(g: Store, g': Store, u: nat)
    requires Shaped(g) && Shaped(g') && u < |g.workers| && u < |g'.workers| && g'.workers[u] == g.workers[u]
    requires JobOk(g, u) && Instants(g) <= Instants(g')
    requires forall i: nat :: i < SHARD_COUNT && i < Locks(g.workers[u].job) ==>
      g'.shards[i].tables == g.shards[i].tables && g'.shards[i].nodes == g.shards[i].nodes
    ensures JobOk(g', u)
  {
    var w := g.workers[u];
    match w.job
    case Planning(plans, _) =>
      forall i: nat | i < |plans| ensures PlanOk(g'.shards[i], w.ops[0], plans[i]) {
        assert PlanOk(g.shards[i], w.ops[0], plans[i]);
      }
    case Replacing(next, plans, _) =>
      forall i: nat | next <= i < SHARD_COUNT ensures PlanOk(g'.shards[i], w.ops[0], plans[i]) {
        assert PlanOk(g.shards[i], w.ops[0], plans[i]);
      }
      forall i: nat | i < next ensures HasRoom(g'.shards[i], w.ops[0]) {
        assert HasRoom(g.shards[i], w.ops[0]);
      }
    case Unlocking(left, granted, _) =>
      if granted {
        forall i: nat | i < left ensures HasRoom(g'.shards[i], w.ops[0]) {
          assert HasRoom(g.shards[i], w.ops[0]);
        }
      }
    case _ =>
  }

  lemma DoneKept(g: Store, g': Store, t: nat, u: nat, d: Done)
    requires Steps(g, g', t) && DoneOk(g, u, d)
    ensures DoneOk(g', u, d)
  {
    InstantsGrow(g, g', t);
    if d.Keyed? {
      var i := ShardFor(d.op);
      var s, s' := g.shards[i], g'.shards[i];
      assert Gentle(s, s', t);
      if u == t {
        assert forall a :: a in s.threads[u].answers ==> a in s'.threads[u].answers[..|s.threads[u].answers|];
      }
    }
  }

  lemma OtherWorkerKept(g: Store, g': Store, t: nat, u: nat)
    requires Steps(g, g', t) && u != t && u < |g.workers| && WorkerOk(g, u)
    ensures WorkerOk(g', u)
  {
    JobKept(g, g', t, u);
    forall i | 0 <= i < SHARD_COUNT
      ensures SeatOk(g'.shards[i], g'.workers[u], u, i)
    {
      assert Gentle(g.shards[i], g'.shards[i], t);
      SeatKept(g.shards[i], g'.shards[i], g.workers[u], t, u, i);
    }
    forall n | 0 <= n < |g'.workers[u].answers|
      ensures DoneOk(g', u, g'.workers[u].answers[n])
    {
      DoneKept(g, g', t, u, g.workers[u].answers[n]);
    }
  }

  // At the new instant only shard j may differ from before.
  ghost predicate NewIsQuiet(g: Store, g': Store, j: nat) {
    && Shaped(g) && Shaped(g')
    && forall i :: 0 <= i < SHARD_COUNT && i != j ==> g'.shards[i].past == g.shards[i].past + [Contents(g.shards[i])]
  }

  lemma OneAtATimeKept(g: Store, g': Store, t: nat, j: nat)
    requires Steps(g, g', t) && OneAtATime(g) && NewIsQuiet(g, g', j)
    requires forall i: nat :: i < SHARD_COUNT ==> |g.shards[i].past| == Instants(g)
    ensures OneAtATime(g')
  {
    InstantsGrow(g, g', t);
    forall n: nat | 0 < n < Instants(g')
      ensures QuietAt(g'.shards, n)
    {
      if n < Instants(g) {
        assert QuietAt(g.shards, n);
        var k: nat :| QuietBut(g.shards, n, k);
        EarlierQuiet(g, g', t, n, k);
      } else {
        LastQuiet(g, g', j);
      }
    }
  }

  lemma EarlierQuiet(g: Store, g': Store, t: nat, n: nat, k: nat)
    requires Steps(g, g', t) && QuietBut(g.shards, n, k)
    ensures QuietBut(g'.shards, n, k)
  {
    forall i | 0 <= i < |g'.shards| && i != k
      ensures 0 < n < |g'.shards[i].past| && g'.shards[i].past[n] == g'.shards[i].past[n - 1]
    {
      assert Gentle(g.shards[i], g'.shards[i], t);
      assert g'.shards[i].past[n] == g'.shards[i].past[..|g.shards[i].past|][n];
      assert g'.shards[i].past[n - 1] == g'.shards[i].past[..|g.shards[i].past|][n - 1];
    }
  }

  lemma LastQuiet(g: Store, g': Store, j: nat)
    requires NewIsQuiet(g, g', j) && forall i: nat :: i < SHARD_COUNT ==> |g.shards[i].past| == Instants(g)
    ensures QuietBut(g'.shards, Instants(g), j)
  {
  }

  // A gentle step of t keeps the invariant if it keeps what concerns t and the shards it works on.
  lemma StepKeeps(g: Store, g': Store, t: nat, j: nat)
    requires Inv(g) && Steps(g, g', t) && NewIsQuiet(g, g', j)
    requires forall i: nat :: i < SHARD_COUNT ==> ShardedStore.Inv(g'.shards[i]) && Routed(g'.shards[i], i)
    requires WorkerOk(g', t)
    ensures Inv(g')
  {
    InstantsGrow(g, g', t);
    forall i: nat | i < SHARD_COUNT ensures ShardOk(g', i) && |g.shards[i].past| == Instants(g) {
      assert ShardOk(g, i) && Gentle(g.shards[i], g'.shards[i], t);
    }
    OneAtATimeKept(g, g', t, j);
    forall u: nat | u < |g'.workers| ensures WorkerOk(g', u) {
      if u != t {
        assert WorkerOk(g, u);
        OtherWorkerKept(g, g', t, u);
      }
    }
  }

  // ---- The kinds of steps ----

  lemma TickRouted(s: State, i: nat)
    requires Routed(s, i)
    ensures Routed(Tick(s), i)
  {
  }

  // Time passes everywhere but perhaps in one shard.
  lemma PutSteps(g: Store, t: nat, j: nat, s: State, w: Worker)
    requires Inv(g) && t < |g.workers| && j < SHARD_COUNT
    requires ShardedStore.Inv(s) && Routed(s, j) && Gentle(g.shards[j], s, t)
    ensures var g' := With(g, t, Put(g.shards, j, s), w);
      && Steps(g, g', t) && NewIsQuiet(g, g', j) && Instants(g') == Instants(g) + 1
      && forall i: nat :: i < SHARD_COUNT ==> ShardedStore.Inv(g'.shards[i]) && Routed(g'.shards[i], i)
  {
    var g' := With(g, t, Put(g.shards, j, s), w);
    forall i: nat | i < SHARD_COUNT
      ensures Gentle(g.shards[i], g'.shards[i], t) && ShardedStore.Inv(g'.shards[i]) && Routed(g'.shards[i], i)
      ensures |g'.shards[i].threads| == |g'.workers|
    {
      assert ShardOk(g, i);
      if i != j {
        assert g'.shards[i] == Tick(g.shards[i]);
        TickKeeps(g.shards[i]);
        TickIsGentle(g.shards[i], t);
        TickRouted(g.shards[i], i);
      }
    }
    InstantsGrow(g, g', t);
  }

  lemma TickSteps(g: Store, t: nat, w: Worker)
    requires Inv(g) && t < |g.workers|
    ensures var g' := With(g, t, Ticked(g.shards), w);
      && Steps(g, g', t) && NewIsQuiet(g, g', 0) && Instants(g') == Instants(g) + 1
      && forall i: nat :: i < SHARD_COUNT ==> ShardedStore.Inv(g'.shards[i]) && Routed(g'.shards[i], i)
  {
    assert ShardOk(g, 0);
    var s := Tick(g.shards[0]);
    TickKeeps(g.shards[0]);
    TickIsGentle(g.shards[0], t);
    TickRouted(g.shards[0], 0);
    PutSteps(g, t, 0, s, w);
    assert Put(g.shards, 0, s) == Ticked(g.shards);
  }

  // The answers a worker had are still right.
  lemma OldDone(g: Store, g': Store, t: nat, n: nat)
    requires Inv(g) && Steps(g, g', t) && n < |g.workers[t].answers|
    ensures DoneOk(g', t, g.workers[t].answers[n])
  {
    assert WorkerOk(g, t);
    DoneKept(g, g', t, t, g.workers[t].answers[n]);
  }

  // A step that changes only the worker's job, while time passes.
  lemma JobStep(g: Store, t: nat, job: Job)
    requires Inv(g) && t < |g.workers| && g.workers[t].ops != []
    requires var g' := With(g, t, Ticked(g.shards), g.workers[t].(job := job)); Shaped(g') ==> JobOk(g', t)
    requires Locks(job) == Locks(g.workers[t].job) && !job.InShard? && !g.workers[t].job.InShard?
    ensures Inv(With(g, t, Ticked(g.shards), g.workers[t].(job := job)))
  {
    var w := g.workers[t].(job := job);
    var g' := With(g, t, Ticked(g.shards), w);
    TickSteps(g, t, w);
    assert WorkerOk(g, t);
    forall i | 0 <= i < SHARD_COUNT
      ensures SeatOk(g'.shards[i], w, t, i)
    {
      assert SeatOk(g.shards[i], g.workers[t], t, i);
    }
    forall n | 0 <= n < |w.answers|
      ensures DoneOk(g', t, w.answers[n])
    {
      OldDone(g, g', t, n);
    }
    StepKeeps(g, g', t, 0);
  }

  // A step in shard j that leaves the worker's answers alone.
  lemma SeatStep(g: Store, t: nat, j: nat, s: State, job: Job)
    requires Inv(g) && t < |g.workers| && j < SHARD_COUNT
    requires ShardedStore.Inv(s) && Routed(s, j) && Gentle(g.shards[j], s, t)
    requires var g' := With(g, t, Put(g.shards, j, s), g.workers[t].(job := job));
      && (Shaped(g') ==> JobOk(g', t)) && SeatOk(s, g'.workers[t], t, j)
      && forall i :: 0 <= i < SHARD_COUNT && i != j ==> SeatOk(Tick(g.shards[i]), g'.workers[t], t, i)
    ensures Inv(With(g, t, Put(g.shards, j, s), g.workers[t].(job := job)))
  {
    var w := g.workers[t].(job := job);
    var g' := With(g, t, Put(g.shards, j, s), w);
    PutSteps(g, t, j, s, w);
    forall n | 0 <= n < |w.answers|
      ensures DoneOk(g', t, w.answers[n])
    {
      OldDone(g, g', t, n);
    }
    StepKeeps(g, g', t, j);
  }

  lemma SeatTicked(s: State, w: Worker, w': Worker, t: nat, i: nat)
    requires SeatOk(s, w, t, i) && w'.ops == w.ops
    requires (i < Locks(w'.job) <==> i < Locks(w.job))
    requires (w'.job.InShard? && w'.ops != [] && ShardFor(w'.ops[0]) == i <==> w.job.InShard? && w.ops != [] && ShardFor(w.ops[0]) == i)
    ensures SeatOk(Tick(s), w', t, i)
  {
  }

  lemma IdleStep(g: Store, t: nat)
    requires Inv(g) && t < |g.workers| && g.workers[t].ops != [] && g.workers[t].job.Idle?
    ensures Inv(NextIdle(g, t))
  {
    var w, op := g.workers[t], g.workers[t].ops[0];
    assert WorkerOk(g, t);
    if op.Reserve? {
      JobStep(g, t, Locking(0, Instants(g)));
    } else {
      var j := ShardFor(op);
      var s := g.shards[j];
      assert ShardOk(g, j) && SeatOk(s, w, t, j) && PhaseOk(s, t);
      GivenKeeps(s, t, op);
      BeginStep(Given(s, t, op), t);
      var s' := NextBegin(Given(s, t, op), t);
      forall i | 0 <= i < SHARD_COUNT && i != j
        ensures SeatOk(Tick(g.shards[i]), w.(job := InShard), t, i)
      {
        assert SeatOk(g.shards[i], w, t, i);
        SeatTicked(g.shards[i], w, w.(job := InShard), t, i);
      }
      SeatStep(g, t, j, s', InShard);
    }
  }

  // A step inside a shard, seen from the store.
  lemma InnerStep(s: State, t: nat, ok: bool, op: Op, i: nat)
    requires ShardedStore.Inv(s) && t < |s.threads| && s.threads[t].ops == [op] && !op.Reserve?
    requires Routed(s, i) && i == ShardFor(op) && ShardedStore.Next(s, t, ok).Some?
    ensures var s' := ShardedStore.Next(s, t, ok).value; ShardedStore.Inv(s') && Routed(s', i) && Gentle(s, s', t)
  {
    NextKeeps(s, t, ok);
    NextIsLocal(s, t, ok);
    NextAnswers(s, t, ok, op);
    NextContents(s, t, ok, op);
    if s.owner.Some? && s.owner.value != t {
      OthersOnlyRead(s, t, ok);
    }
  }

  lemma InShardStep(g: Store, t: nat, ok: bool)
    requires Inv(g) && t < |g.workers| && g.workers[t].ops != [] && g.workers[t].job.InShard? && NextInShard(g, t, ok).Some?
    ensures Inv(NextInShard(g, t, ok).value)
  {
    var w, op := g.workers[t], g.workers[t].ops[0];
    var j := ShardFor(op);
    var s := g.shards[j];
    assert WorkerOk(g, t) && ShardOk(g, j) && SeatOk(s, w, t, j);
    InnerStep(s, t, ok, op, j);
    NextAnswers(s, t, ok, op);
    var s' := ShardedStore.Next(s, t, ok).value;
    if s'.threads[t].ops == [op] {
      forall i | 0 <= i < SHARD_COUNT && i != j
        ensures SeatOk(Tick(g.shards[i]), w, t, i)
      {
        assert SeatOk(g.shards[i], w, t, i);
        SeatTicked(g.shards[i], w, w, t, i);
      }
      SeatStep(g, t, j, s', InShard);
      assert w.(job := InShard) == w;
    } else {
      FinishedInShard(g, t, j, s');
    }
  }

  lemma FinishedInShard(g: Store, t: nat, j: nat, s': State)
    requires Inv(g) && t < |g.workers| && g.workers[t].ops != [] && g.workers[t].job.InShard? && !g.workers[t].ops[0].Reserve?
    requires j == ShardFor(g.workers[t].ops[0])
    requires ShardedStore.Inv(s') && Routed(s', j) && Gentle(g.shards[j], s', t)
    requires s'.threads[t].ops == [] && s'.threads[t].answers != []
    requires s'.threads[t].answers[|s'.threads[t].answers| - 1].op == g.workers[t].ops[0]
    ensures var a := s'.threads[t].answers[|s'.threads[t].answers| - 1]; var w := g.workers[t];
      Inv(With(g, t, Put(g.shards, j, s'),
               Worker(w.ops[1..], Idle, w.answers + [Keyed(a.op, a.since, a.at, Instants(g), a.result)])))
  {
    var w, a := g.workers[t], s'.threads[t].answers[|s'.threads[t].answers| - 1];
    var d := Keyed(a.op, a.since, a.at, Instants(g), a.result);
    var w' := Worker(w.ops[1..], Idle, w.answers + [d]);
    var g' := With(g, t, Put(g.shards, j, s'), w');
    PutSteps(g, t, j, s', w');
    assert WorkerOk(g, t) && ShardOk(g, j) && AnswersOk(s', t);
    forall i | 0 <= i < SHARD_COUNT
      ensures SeatOk(g'.shards[i], w', t, i)
    {
      assert SeatOk(g.shards[i], w, t, i);
    }
    forall n | 0 <= n < |w'.answers|
      ensures DoneOk(g', t, w'.answers[n])
    {
      if n < |w.answers| {
        OldDone(g, g', t, n);
      }
    }
    StepKeeps(g, g', t, j);
  }

  lemma LockingStep(g: Store, t: nat, next: nat, since: nat)
    requires Inv(g) && t < |g.workers| && g.workers[t].ops != [] && g.workers[t].job == Locking(next, since)
    requires NextLocking(g, t, next, since).Some?
    ensures Inv(NextLocking(g, t, next, since).value)
  {
    var w, op := g.workers[t], g.workers[t].ops[0];
    assert WorkerOk(g, t);
    if next >= SHARD_COUNT {
      JobStep(g, t, Planning([], since));
    } else {
      var s := g.shards[next];
      assert ShardOk(g, next) && SeatOk(s, w, t, next);
      TakenKeeps(s, t, op);
      var job := Locking(next + 1, since);
      OtherSeats(g, t, next, job);
      SeatStep(g, t, next, Taken(s, t, op), job);
    }
  }

  lemma PlanTicked(s: State, op: Op, plan: Plan)
    requires PlanOk(s, op, plan)
    ensures PlanOk(Tick(s), op, plan)
  {
  }

  // The plan that is made for a shard suits it.
  lemma PlanSuits(s: State, op: Op)
    requires ShardedStore.Inv(s)
    requires Needed(s, op) <= LoadLimit(TargetFor(Needed(s, op), |Active(s)|))
    ensures var target := TargetFor(Needed(s, op), |Active(s)|);
      && target > 0 && |Active(s)| <= target
      && PlanOk(s, op, if target <= |Active(s)| then Keep else Replace(target, Replacement(s, target)))
  {
    assert ShardTableOk(Active(s), s.nodes, Contents(s));
    TargetIsCapacity(Needed(s, op), |Active(s)|);
    CapacityRange(TargetFor(Needed(s, op), |Active(s)|));
  }

  lemma PlanningStep(g: Store, t: nat, plans: seq<Plan>, since: nat, ok: bool)
    requires Inv(g) && t < |g.workers| && g.workers[t].ops != [] && g.workers[t].job == Planning(plans, since)
    ensures Inv(NextPlanning(g, t, plans, since, ok))
  {
    var w, op := g.workers[t], g.workers[t].ops[0];
    assert WorkerOk(g, t);
    forall i: nat | i < |plans| ensures PlanOk(Tick(g.shards[i]), op, plans[i]) {
      PlanTicked(g.shards[i], op, plans[i]);
    }
    if |plans| >= SHARD_COUNT {
      JobStep(g, t, Replacing(0, plans, since));
    } else {
      var s := g.shards[|plans|];
      assert ShardOk(g, |plans|);
      var target := TargetFor(Needed(s, op), |Active(s)|);
      if Needed(s, op) > LoadLimit(target) || (target > |Active(s)| && !ok) {
        JobStep(g, t, Unlocking(SHARD_COUNT, false, since));
      } else {
        PlanSuits(s, op);
        var plan := if target <= |Active(s)| then Keep else Replace(target, Replacement(s, target));
        PlanTicked(s, op, plan);
        OnePlanMore(g, t, plans, plan, since);
      }
    }
  }

  lemma OnePlanMore(g: Store, t: nat, plans: seq<Plan>, plan: Plan, since: nat)
    requires Inv(g) && t < |g.workers| && Asked(g.workers[t]) && g.workers[t].job == Planning(plans, since)
    requires |plans| < SHARD_COUNT && since <= Instants(g) && PlanOk(Tick(g.shards[|plans|]), g.workers[t].ops[0], plan)
    requires forall i: nat :: i < |plans| ==> PlanOk(Tick(g.shards[i]), g.workers[t].ops[0], plans[i])
    ensures Inv(With(g, t, Ticked(g.shards), g.workers[t].(job := Planning(plans + [plan], since))))
  {
    assert ShardOk(g, 0);
    JobStep(g, t, Planning(plans + [plan], since));
  }

  // How far a reservation has come with its replacements.
  ghost predicate Midway(shards: seq<State>, op: Op, plans: seq<Plan>, next: nat) {
    && |shards| == |plans| == SHARD_COUNT
    && (forall i: nat :: next <= i < SHARD_COUNT ==> PlanOk(shards[i], op, plans[i]))
    && (forall i: nat :: i < next < SHARD_COUNT + 1 ==> HasRoom(shards[i], op))
  }

  lemma MidwayTicked(shards: seq<State>, op: Op, plans: seq<Plan>, next: nat)
    requires Midway(shards, op, plans, next)
    ensures Midway(Ticked(shards), op, plans, next)
    ensures next < SHARD_COUNT && plans[next].Keep? ==> Midway(Ticked(shards), op, plans, next + 1)
  {
    var shards' := Ticked(shards);
    forall i: nat | next <= i < SHARD_COUNT ensures PlanOk(shards'[i], op, plans[i]) {
      PlanTicked(shards[i], op, plans[i]);
    }
    forall i: nat | i < next < SHARD_COUNT + 1 ensures HasRoom(shards'[i], op) {
      assert HasRoom(shards[i], op);
    }
  }

  lemma MidwayPut(shards: seq<State>, op: Op, plans: seq<Plan>, next: nat, s: State)
    requires Midway(shards, op, plans, next) && next < SHARD_COUNT && HasRoom(s, op)
    ensures Midway(Put(shards, next, s), op, plans, next + 1)
  {
    MidwayTicked(shards, op, plans, next);
  }

  lemma MidwayOf(g: Store, t: nat, next: nat, plans: seq<Plan>, since: nat)
    requires Inv(g) && t < |g.workers| && g.workers[t].job == Replacing(next, plans, since)
    ensures Asked(g.workers[t]) && next <= SHARD_COUNT && since <= Instants(g)
    ensures Midway(g.shards, g.workers[t].ops[0], plans, next)
  {
    assert WorkerOk(g, t);
  }

  lemma ReplacingStep(g: Store, t: nat, next: nat, plans: seq<Plan>, since: nat)
    requires Inv(g) && t < |g.workers| && g.workers[t].ops != [] && g.workers[t].job == Replacing(next, plans, since)
    ensures Inv(NextReplacing(g, t, next, plans, since))
  {
    MidwayOf(g, t, next, plans, since);
    if next >= SHARD_COUNT {
      GrantAll(g, t, plans, since);
    } else if plans[next].Keep? {
      KeepOne(g, t, next, plans, since);
    } else {
      PublishReplacement(g, t, next, plans, since);
    }
  }

  lemma GrantAll(g: Store, t: nat, plans: seq<Plan>, since: nat)
    requires Inv(g) && t < |g.workers| && Asked(g.workers[t]) && g.workers[t].job == Replacing(SHARD_COUNT, plans, since)
    requires since <= Instants(g) && Midway(g.shards, g.workers[t].ops[0], plans, SHARD_COUNT)
    ensures Inv(With(g, t, Ticked(g.shards), g.workers[t].(job := Unlocking(SHARD_COUNT, true, since))))
  {
    MidwayTicked(g.shards, g.workers[t].ops[0], plans, SHARD_COUNT);
    assert ShardOk(g, 0);
    JobStep(g, t, Unlocking(SHARD_COUNT, true, since));
  }

  lemma KeepOne(g: Store, t: nat, next: nat, plans: seq<Plan>, since: nat)
    requires Inv(g) && t < |g.workers| && Asked(g.workers[t]) && g.workers[t].job == Replacing(next, plans, since)
    requires since <= Instants(g) && Midway(g.shards, g.workers[t].ops[0], plans, next) && next < SHARD_COUNT && plans[next].Keep?
    ensures Inv(With(g, t, Ticked(g.shards), g.workers[t].(job := Replacing(next + 1, plans, since))))
  {
    MidwayTicked(g.shards, g.workers[t].ops[0], plans, next);
    assert ShardOk(g, 0);
    JobStep(g, t, Replacing(next + 1, plans, since));
  }

  lemma PublishReplacement(g: Store, t: nat, next: nat, plans: seq<Plan>, since: nat)
    requires Inv(g) && t < |g.workers| && Asked(g.workers[t]) && g.workers[t].job == Replacing(next, plans, since)
    requires since <= Instants(g) && Midway(g.shards, g.workers[t].ops[0], plans, next) && next < SHARD_COUNT && plans[next].Replace?
    ensures Inv(With(g, t, Put(g.shards, next, Replaced(g.shards[next], plans[next].table)),
                     g.workers[t].(job := Replacing(next + 1, plans, since))))
  {
    var w, op, s := g.workers[t], g.workers[t].ops[0], g.shards[next];
    assert WorkerOk(g, t) && ShardOk(g, next) && SeatOk(s, w, t, next) && PlanOk(s, op, plans[next]);
    ReplacedKeeps(s, t, op, plans[next].capacity);
    var s' := Replaced(s, plans[next].table);
    MidwayPut(g.shards, op, plans, next, s');
    OtherSeats(g, t, next, Replacing(next + 1, plans, since));
    ReplacedSeat(g, t, next, plans, since, s');
  }

  // The other shards see nothing of a step in shard j.
  lemma OtherSeats(g: Store, t: nat, j: nat, job: Job)
    requires Inv(g) && t < |g.workers| && !job.InShard? && !g.workers[t].job.InShard?
    requires var before, after := Locks(g.workers[t].job), Locks(job);
      before == after || (before == j && after == j + 1) || (before == j + 1 && after == j)
    ensures forall i :: 0 <= i < SHARD_COUNT && i != j ==> SeatOk(Tick(g.shards[i]), g.workers[t].(job := job), t, i)
  {
    var w := g.workers[t];
    assert WorkerOk(g, t);
    forall i | 0 <= i < SHARD_COUNT && i != j
      ensures SeatOk(Tick(g.shards[i]), w.(job := job), t, i)
    {
      assert SeatOk(g.shards[i], w, t, i);
      SeatTicked(g.shards[i], w, w.(job := job), t, i);
    }
  }

  lemma ReplacedSeat(g: Store, t: nat, next: nat, plans: seq<Plan>, since: nat, s: State)
    requires Inv(g) && t < |g.workers| && Asked(g.workers[t]) && g.workers[t].job == Replacing(next, plans, since)
    requires since <= Instants(g) && next < SHARD_COUNT
    requires ShardedStore.Inv(s) && Routed(s, next) && Gentle(g.shards[next], s, t) && Reserving(s, t, g.workers[t].ops[0])
    requires Midway(Put(g.shards, next, s), g.workers[t].ops[0], plans, next + 1)
    requires forall i :: 0 <= i < SHARD_COUNT && i != next ==>
      SeatOk(Tick(g.shards[i]), g.workers[t].(job := Replacing(next + 1, plans, since)), t, i)
    ensures Inv(With(g, t, Put(g.shards, next, s), g.workers[t].(job := Replacing(next + 1, plans, since))))
  {
    assert ShardOk(g, 0) && ShardOk(g, next);
    SeatStep(g, t, next, s, Replacing(next + 1, plans, since));
  }

  lemma UnlockingStep(g: Store, t: nat, left: nat, granted: bool, since: nat)
    requires Inv(g) && t < |g.workers| && g.workers[t].ops != [] && g.workers[t].job == Unlocking(left, granted, since)
    ensures Inv(NextUnlocking(g, t, left, granted, since))
  {
    assert WorkerOk(g, t);
    if left > 0 {
      UnlockOne(g, t, left, granted, since);
    } else {
      EndReservation(g, t, granted, since);
    }
  }

  lemma UnlockOne(g: Store, t: nat, left: nat, granted: bool, since: nat)
    requires Inv(g) && t < |g.workers| && g.workers[t].ops != [] && g.workers[t].job == Unlocking(left, granted, since)
    requires 0 < left <= SHARD_COUNT
    ensures Inv(With(g, t, Put(g.shards, left - 1, Dropped(g.shards[left - 1], t)),
                     g.workers[t].(job := Unlocking(left - 1, granted, since))))
  {
    var w, op, s := g.workers[t], g.workers[t].ops[0], g.shards[left - 1];
    assert WorkerOk(g, t) && ShardOk(g, left - 1) && SeatOk(s, w, t, left - 1);
    DroppedKeeps(s, t, op);
    OtherSeats(g, t, left - 1, Unlocking(left - 1, granted, since));
    UnlockedSeat(g, t, left, granted, since, Dropped(s, t));
  }

  lemma UnlockedSeat(g: Store, t: nat, left: nat, granted: bool, since: nat, s: State)
    requires Inv(g) && t < |g.workers| && g.workers[t].ops != [] && g.workers[t].job == Unlocking(left, granted, since)
    requires 0 < left <= SHARD_COUNT
    requires ShardedStore.Inv(s) && Routed(s, left - 1) && Gentle(g.shards[left - 1], s, t) && s.threads[t].ops == []
    requires forall i :: 0 <= i < SHARD_COUNT && i != left - 1 ==>
      SeatOk(Tick(g.shards[i]), g.workers[t].(job := Unlocking(left - 1, granted, since)), t, i)
    ensures Inv(With(g, t, Put(g.shards, left - 1, s), g.workers[t].(job := Unlocking(left - 1, granted, since))))
  {
    var op := g.workers[t].ops[0];
    assert WorkerOk(g, t) && ShardOk(g, 0) && ShardOk(g, left - 1);
    if granted {
      forall i: nat | i < left - 1 ensures HasRoom(Tick(g.shards[i]), op) {
        assert HasRoom(g.shards[i], op);
      }
    }
    SeatStep(g, t, left - 1, s, Unlocking(left - 1, granted, since));
  }

  lemma EndReservation(g: Store, t: nat, granted: bool, since: nat)
    requires Inv(g) && t < |g.workers| && Asked(g.workers[t]) && g.workers[t].job == Unlocking(0, granted, since)
    ensures var w := g.workers[t];
      Inv(With(g, t, Ticked(g.shards),
               Worker(w.ops[1..], Idle, w.answers + [Reservation(w.ops[0].minimum, since, Instants(g), granted)])))
  {
    var w := g.workers[t];
    var w' := Worker(w.ops[1..], Idle, w.answers + [Reservation(w.ops[0].minimum, since, Instants(g), granted)]);
    var g' := With(g, t, Ticked(g.shards), w');
    TickSteps(g, t, w');
    assert WorkerOk(g, t);
    forall i | 0 <= i < SHARD_COUNT
      ensures SeatOk(g'.shards[i], w', t, i)
    {
      assert SeatOk(g.shards[i], w, t, i);
    }
    forall n | 0 <= n < |w'.answers|
      ensures DoneOk(g', t, w'.answers[n])
    {
      if n < |w.answers| {
        OldDone(g, g', t, n);
      }
    }
    StepKeeps(g, g', t, 0);
  }

  // Every step of every worker keeps the invariant.
  lemma NextKeepsStore(g: Store, t: nat, ok: bool)
    requires Inv(g) && t < |g.workers| && Next(g, t, ok).Some?
    ensures Inv(Next(g, t, ok).value) && |Next(g, t, ok).value.workers| == |g.workers|
  {
    match g.workers[t].job
    case Idle => IdleStep(g, t);
    case InShard => InShardStep(g, t, ok);
    case Locking(next, since) => LockingStep(g, t, next, since);
    case Planning(plans, since) => PlanningStep(g, t, plans, since, ok);
    case Replacing(next, plans, since) => ReplacingStep(g, t, next, plans, since);
    case Unlocking(left, granted, since) => UnlockingStep(g, t, left, granted, since);
  }

  lemma {:induction false} RunKeeps(g: Store, schedule: seq<Turn>)
    requires Inv(g)
    ensures Inv(Run(g, schedule)) && |Run(g, schedule).workers| == |g.workers|
    decreases |schedule|
  {
    if schedule != [] {
      RunKeeps(g, schedule[..|schedule| - 1]);
      var r, turn := Run(g, schedule[..|schedule| - 1]), schedule[|schedule| - 1];
      if turn.worker < |r.workers| && Next(r, turn.worker, turn.ok).Some? {
        NextKeepsStore(r, turn.worker, turn.ok);
      }
    }
  }

  // ---- The map the store stands for ----

  function UnionOf(maps: seq<map<Key, nat>>): map<Key, Ref>
    decreases |maps|
  {
    if maps == [] then map[] else
      var n := |maps| - 1;
      UnionOf(maps[..n]) + map k | k in maps[n] :: Ref(n, maps[n][k])
  }

  ghost predicate AllRouted(maps: seq<map<Key, nat>>) {
    forall i: nat, k :: i < |maps| && k in maps[i] ==> ShardOf(k) == i
  }

  lemma {:induction false} UnionHas(maps: seq<map<Key, nat>>, key: Key)
    requires AllRouted(maps)
    ensures key in UnionOf(maps) <==> ShardOf(key) < |maps| && key in maps[ShardOf(key)]
    ensures key in UnionOf(maps) ==> UnionOf(maps)[key] == Ref(ShardOf(key), maps[ShardOf(key)][key])
    decreases |maps|
  {
    if maps != [] {
      var n := |maps| - 1;
      UnionHas(maps[..n], key);
      if key in maps[n] {
        assert ShardOf(key) == n;
      }
    }
  }

  predicate Aligned(g: Store, n: nat) {
    forall i :: 0 <= i < |g.shards| ==> n < |g.shards[i].past|
  }

  function MapsAt(g: Store, n: nat): (maps: seq<map<Key, nat>>)
    requires Aligned(g, n)
    ensures |maps| == |g.shards|
  {
    seq(|g.shards|, i requires 0 <= i < |g.shards| => g.shards[i].past[n])
  }

  // The whole map at an instant.
  function MapAt(g: Store, n: nat): map<Key, Ref>
    requires Aligned(g, n)
  {
    UnionOf(MapsAt(g, n))
  }

  lemma MapsAreRouted(g: Store, n: nat)
    requires Inv(g) && n < Instants(g)
    ensures Aligned(g, n) && AllRouted(MapsAt(g, n))
  {
    forall i: nat, k | i < |g.shards| && n < |g.shards[i].past| && k in g.shards[i].past[n]
      ensures ShardOf(k) == i
    {
      assert ShardOk(g, i);
      assert Within(g.shards[i].past[n], g.shards[i].past[|g.shards[i].past| - 1]);
    }
    forall i | 0 <= i < |g.shards| ensures n < |g.shards[i].past| {
      assert ShardOk(g, i);
    }
  }

  // A key is in the map when it is in its shard's, with the node it has there.
  lemma MapIs(g: Store, n: nat, key: Key)
    requires Inv(g) && n < Instants(g)
    ensures Aligned(g, n) && n < |g.shards[ShardOf(key)].past|
    ensures var m := g.shards[ShardOf(key)].past[n];
      && (key in MapAt(g, n) <==> key in m)
      && (key in m ==> MapAt(g, n)[key] == Ref(ShardOf(key), m[key]))
  {
    MapsAreRouted(g, n);
    UnionHas(MapsAt(g, n), key);
    assert ShardOk(g, ShardOf(key));
  }

  function NodeOf(g: Store, r: Ref): Option<Node> {
    if r.shard < |g.shards| && r.node < |g.shards[r.shard].nodes| then Some(g.shards[r.shard].nodes[r.node]) else None
  }

  // What an operation answered is what the whole map gave at one instant between its beginning and its end,
  // and a creation is the very step at which the map gained the key and nothing else.
  ghost predicate Answered(g: Store, d: Done) {
    match d
    case Reservation(_, since, until, _) => since <= until < Instants(g)
    case Keyed(op, since, at, until, result) =>
      && since <= at <= until < Instants(g) && Aligned(g, at) && (at > 0 ==> Aligned(g, at - 1))
      && match op
         case Reserve(_) => false
         case Find(key) =>
           (match result
            case Found(node) => key in MapAt(g, at) && MapAt(g, at)[key] == Ref(ShardOf(key), node)
            case NotFound => key !in MapAt(g, at)
            case _ => false)
         case GetOrCreate(key, count) =>
           match result
           case Found(node) =>
             && key in MapAt(g, at) && MapAt(g, at)[key] == Ref(ShardOf(key), node)
             && NodeOf(g, MapAt(g, at)[key]).Some? && NodeOf(g, MapAt(g, at)[key]).value.actionCount == count
           case Mismatch =>
             && key in MapAt(g, at)
             && NodeOf(g, MapAt(g, at)[key]).Some? && NodeOf(g, MapAt(g, at)[key]).value.actionCount != count
           case Created(node) =>
             && since < at && key !in MapAt(g, at - 1)
             && MapAt(g, at) == MapAt(g, at - 1)[key := Ref(ShardOf(key), node)]
             && NodeOf(g, Ref(ShardOf(key), node)) == Some(Node(key, count))
           case Failed => key !in MapAt(g, at)
           case _ => false
  }

  // The step that adds a key to one shard's map adds it to the whole.
  lemma WholeGains(g: Store, n: nat, key: Key, node: nat)
    requires Inv(g) && 0 < n < Instants(g)
    requires var past := g.shards[ShardOf(key)].past;
      n < |past| && key !in past[n - 1] && past[n] == past[n - 1][key := node]
    ensures Aligned(g, n) && Aligned(g, n - 1)
    ensures MapAt(g, n) == MapAt(g, n - 1)[key := Ref(ShardOf(key), node)]
  {
    MapsAreRouted(g, n);
    MapsAreRouted(g, n - 1);
    assert QuietAt(g.shards, n);
    var j: nat :| QuietBut(g.shards, n, j);
    assert j == ShardOf(key);
    forall k
      ensures k in MapAt(g, n) <==> k == key || k in MapAt(g, n - 1)
      ensures k in MapAt(g, n) ==> MapAt(g, n)[k] == if k == key then Ref(ShardOf(key), node) else MapAt(g, n - 1)[k]
    {
      MapIs(g, n, k);
      MapIs(g, n - 1, k);
    }
  }

  lemma AnswerIsRight(g: Store, t: nat, d: Done)
    requires Inv(g) && t < |g.workers| && DoneOk(g, t, d)
    ensures Answered(g, d)
  {
    if d.Keyed? {
      var key, i := d.op.key, ShardFor(d.op);
      var s := g.shards[i];
      assert ShardOk(g, i) && AnswersOk(s, t);
      var n: nat :| n < |s.threads[t].answers| && s.threads[t].answers[n] == ShardedStore.Answer(d.op, d.since, d.at, d.result);
      assert AnswerOk(s.past, s.nodes, d.op, d.since, d.at, d.result);
      MapIs(g, d.at, key);
      if d.at > 0 {
        MapIs(g, d.at - 1, key);
      }
      KeyedIsRight(g, d, s);
    }
  }

  lemma KeyedIsRight(g: Store, d: Done, s: State)
    requires Inv(g) && d.Keyed? && !d.op.Reserve? && d.at <= d.until < Instants(g)
    requires s == g.shards[ShardFor(d.op)] && AnswerOk(s.past, s.nodes, d.op, d.since, d.at, d.result)
    requires Aligned(g, d.at) && (d.at > 0 ==> Aligned(g, d.at - 1))
    requires var m := s.past[d.at];
      && (d.op.key in MapAt(g, d.at) <==> d.op.key in m)
      && (d.op.key in m ==> MapAt(g, d.at)[d.op.key] == Ref(ShardOf(d.op.key), m[d.op.key]))
    requires d.at > 0 ==> (d.op.key in MapAt(g, d.at - 1) <==> d.op.key in s.past[d.at - 1])
    ensures Answered(g, d)
  {
    if d.op.GetOrCreate? && d.result.Created? {
      WholeGains(g, d.at, d.op.key, d.result.node);
    }
  }

  // ---- The prepared store ----

  function PreparedShard(cells: seq<Cell>, m: map<Key, nat>, nodes: seq<Node>, workers: nat, i: nat): State {
    ShardedStore.Start(PreparedSlots(cells, i), nodes, ShardMap(m, i), workers)
  }

  // What preparing a sequential table gives: every shard with its part of the nodes, and workers about to
  // carry out their programs.
  function Prepared(cells: seq<Cell>, m: map<Key, nat>, nodes: seq<Node>, programs: seq<seq<Op>>): (g: Store)
    ensures |g.shards| == SHARD_COUNT && |g.workers| == |programs|
  {
    Store(seq(SHARD_COUNT, i requires 0 <= i < SHARD_COUNT => PreparedShard(cells, m, nodes, |programs|, i)),
          seq(|programs|, t requires 0 <= t < |programs| => Worker(programs[t], Idle, [])))
  }

  // A sound sequential table, at most three quarters full.
  ghost predicate Preparable(cells: seq<Cell>, home: Home, m: map<Key, nat>, nodes: seq<Node>) {
    && TableOk(cells, home) && Represents(cells, m) && NodesOk(nodes, m)
    && IsCapacity(|cells|) && |cells| <= MAX_CAPACITY && Count(cells) <= LoadLimit(|cells|)
  }

  lemma PreparedInv(cells: seq<Cell>, home: Home, m: map<Key, nat>, nodes: seq<Node>, programs: seq<seq<Op>>)
    requires Preparable(cells, home, m, nodes)
    ensures Inv(Prepared(cells, m, nodes, programs))
  {
    var g := Prepared(cells, m, nodes, programs);
    forall i: nat | i < SHARD_COUNT
      ensures ShardOk(g, i) && g.shards[i].threads == Ready(|programs|)
    {
      PreparedIsOk(cells, home, m, nodes, i);
      StartsOk(PreparedSlots(cells, i), nodes, ShardMap(m, i), |programs|);
    }
    forall t: nat | t < |g.workers| ensures WorkerOk(g, t) {
      forall i | 0 <= i < SHARD_COUNT ensures SeatOk(g.shards[i], g.workers[t], t, i) {
        assert g.shards[i].threads == Ready(|programs|);
      }
    }
  }

  // Preparing changes nothing of the map: it is the sequential table's.
  lemma PreparedMap(cells: seq<Cell>, home: Home, m: map<Key, nat>, nodes: seq<Node>, programs: seq<seq<Op>>, key: Key)
    requires Preparable(cells, home, m, nodes)
    ensures var g := Prepared(cells, m, nodes, programs);
      && Aligned(g, 0)
      && (key in MapAt(g, 0) <==> key in m)
      && (key in m ==> MapAt(g, 0)[key] == Ref(ShardOf(key), m[key]))
  {
    PreparedInv(cells, home, m, nodes, programs);
    MapIs(Prepared(cells, m, nodes, programs), 0, key);
  }

  // Everything a worker has answered and what it has still to do make up its program.
  function OpOf(d: Done): Op {
    if d.Keyed? then d.op else Reserve(d.minimum)
  }

  function OpsOf(answers: seq<Done>): (ops: seq<Op>)
    ensures |ops| == |answers|
  {
    seq(|answers|, n requires 0 <= n < |answers| => OpOf(answers[n]))
  }

  lemma StepIsInOrder(g: Store, t: nat, ok: bool, u: nat)
    requires Inv(g) && t < |g.workers| && u < |g.workers| && Next(g, t, ok).Some?
    ensures var g' := Next(g, t, ok).value;
      && u < |g'.workers|
      && OpsOf(g'.workers[u].answers) + g'.workers[u].ops == OpsOf(g.workers[u].answers) + g.workers[u].ops
  {
    if u == t {
      var w, w' := g.workers[t], Next(g, t, ok).value.workers[t];
      OwnStep(g, t, ok);
      if w' != w && w'.ops != w.ops {
        var d := w'.answers[|w'.answers| - 1];
        assert OpsOf(w'.answers) == OpsOf(w.answers) + [OpOf(d)];
        assert w.ops == [w.ops[0]] + w.ops[1..];
      }
    }
  }

  lemma OwnStep(g: Store, t: nat, ok: bool)
    requires Inv(g) && t < |g.workers| && Next(g, t, ok).Some?
    ensures var w := g.workers[t]; var g' := Next(g, t, ok).value;
      && t < |g'.workers|
      && var w' := g'.workers[t];
         || (w'.ops == w.ops && w'.answers == w.answers)
         || (w.ops != [] && w'.ops == w.ops[1..] && exists d :: w'.answers == w.answers + [d] && OpOf(d) == w.ops[0])
  {
    var w := g.workers[t];
    assert WorkerOk(g, t);
    if w.job.InShard? {
      var j := ShardFor(w.ops[0]);
      assert ShardOk(g, j) && SeatOk(g.shards[j], w, t, j);
      NextAnswers(g.shards[j], t, ok, w.ops[0]);
    }
  }

  lemma {:induction false} ProgramOrder(g: Store, schedule: seq<Turn>, t: nat)
    requires Inv(g) && t < |g.workers|
    ensures var r := Run(g, schedule);
      && t < |r.workers|
      && OpsOf(r.workers[t].answers) + r.workers[t].ops == OpsOf(g.workers[t].answers) + g.workers[t].ops
    decreases |schedule|
  {
    if schedule != [] {
      ProgramOrder(g, schedule[..|schedule| - 1], t);
      RunKeeps(g, schedule[..|schedule| - 1]);
      var r, turn := Run(g, schedule[..|schedule| - 1]), schedule[|schedule| - 1];
      if turn.worker < |r.workers| && Next(r, turn.worker, turn.ok).Some? {
        StepIsInOrder(r, turn.worker, turn.ok, t);
      }
    }
  }

  // ---- The whole store, over every run ----

  // Linearizability: from the prepared store, in every run, every finished operation of every worker, in
  // whichever shards it worked, answered what the whole map held at one instant of the operation.
  lemma Linearizable(cells: seq<Cell>, home: Home, m: map<Key, nat>, nodes: seq<Node>, programs: seq<seq<Op>>,
                     schedule: seq<Turn>, t: nat, n: nat)
    requires Preparable(cells, home, m, nodes)
    requires var g := Run(Prepared(cells, m, nodes, programs), schedule);
      t < |g.workers| && n < |g.workers[t].answers|
    ensures var g := Run(Prepared(cells, m, nodes, programs), schedule);
      Answered(g, g.workers[t].answers[n])
  {
    PreparedInv(cells, home, m, nodes, programs);
    RunKeeps(Prepared(cells, m, nodes, programs), schedule);
    var g := Run(Prepared(cells, m, nodes, programs), schedule);
    assert WorkerOk(g, t);
    AnswerIsRight(g, t, g.workers[t].answers[n]);
  }

  ghost predicate WithinMap(m: map<Key, Ref>, m': map<Key, Ref>) {
    forall k :: k in m ==> k in m' && m'[k] == m[k]
  }

  lemma MapOnlyGrows(g: Store, i: nat, j: nat)
    requires Inv(g) && i <= j < Instants(g)
    ensures Aligned(g, i) && Aligned(g, j) && WithinMap(MapAt(g, i), MapAt(g, j))
  {
    MapsAreRouted(g, i);
    MapsAreRouted(g, j);
    forall k | k in MapAt(g, i)
      ensures k in MapAt(g, j) && MapAt(g, j)[k] == MapAt(g, i)[k]
    {
      MapIs(g, i, k);
      MapIs(g, j, k);
      var s := g.shards[ShardOf(k)];
      assert ShardOk(g, ShardOf(k));
      assert Within(s.past[i], s.past[j]);
    }
  }

  // A lookup that began when its key was in the map has found it, with the node it had then, whatever
  // was inserted, grown or reserved meanwhile.
  lemma NeverMissed(cells: seq<Cell>, home: Home, m: map<Key, nat>, nodes: seq<Node>, programs: seq<seq<Op>>,
                    schedule: seq<Turn>, t: nat, n: nat)
    requires Preparable(cells, home, m, nodes)
    requires var g := Run(Prepared(cells, m, nodes, programs), schedule);
      && t < |g.workers| && n < |g.workers[t].answers|
      && var d := g.workers[t].answers[n];
         d.Keyed? && d.op.Find? && Aligned(g, d.since) && d.op.key in MapAt(g, d.since)
    ensures var g := Run(Prepared(cells, m, nodes, programs), schedule);
      var d := g.workers[t].answers[n];
      d.result.Found? && Ref(ShardOf(d.op.key), d.result.node) == MapAt(g, d.since)[d.op.key]
  {
    Linearizable(cells, home, m, nodes, programs, schedule, t, n);
    PreparedInv(cells, home, m, nodes, programs);
    RunKeeps(Prepared(cells, m, nodes, programs), schedule);
    var g := Run(Prepared(cells, m, nodes, programs), schedule);
    var d := g.workers[t].answers[n];
    MapOnlyGrows(g, d.since, d.at);
  }

  // One node per key for ever: the whole map only grows, and what any table of any shard says, active or
  // retired, the map says too, and so does the shard's active table.
  lemma StableIdentity(cells: seq<Cell>, home: Home, m: map<Key, nat>, nodes: seq<Node>, programs: seq<seq<Op>>,
                       schedule: seq<Turn>, i: nat, j: nat, shard: nat, table: nat, c: nat)
    requires Preparable(cells, home, m, nodes)
    ensures var g := Run(Prepared(cells, m, nodes, programs), schedule);
      i <= j < Instants(g) ==> Aligned(g, i) && Aligned(g, j) && WithinMap(MapAt(g, i), MapAt(g, j))
    ensures var g := Run(Prepared(cells, m, nodes, programs), schedule);
      shard < |g.shards| && table < |g.shards[shard].tables| && c < |g.shards[shard].tables[table]|
      && Cells(g.shards[shard].tables[table], g.shards[shard].nodes)[c].Used? ==>
        var cell := Cells(g.shards[shard].tables[table], g.shards[shard].nodes)[c];
        && Instants(g) > 0 && Aligned(g, Instants(g) - 1)
        && cell.key in MapAt(g, Instants(g) - 1) && MapAt(g, Instants(g) - 1)[cell.key] == Ref(shard, cell.node)
        && Has(Cells(Active(g.shards[shard]), g.shards[shard].nodes), cell.key, cell.node)
  {
    PreparedInv(cells, home, m, nodes, programs);
    RunKeeps(Prepared(cells, m, nodes, programs), schedule);
    var g := Run(Prepared(cells, m, nodes, programs), schedule);
    if i <= j < Instants(g) {
      MapOnlyGrows(g, i, j);
    }
    if shard < |g.shards| && table < |g.shards[shard].tables| && c < |g.shards[shard].tables[table]|
       && Cells(g.shards[shard].tables[table], g.shards[shard].nodes)[c].Used? {
      TableIsInMap(g, shard, table, c);
    }
  }

  lemma TableIsInMap(g: Store, shard: nat, table: nat, c: nat)
    requires Inv(g) && shard < |g.shards| && table < |g.shards[shard].tables| && c < |g.shards[shard].tables[table]|
    requires Cells(g.shards[shard].tables[table], g.shards[shard].nodes)[c].Used?
    ensures var cell := Cells(g.shards[shard].tables[table], g.shards[shard].nodes)[c];
      && Instants(g) > 0 && Aligned(g, Instants(g) - 1)
      && cell.key in MapAt(g, Instants(g) - 1) && MapAt(g, Instants(g) - 1)[cell.key] == Ref(shard, cell.node)
      && Has(Cells(Active(g.shards[shard]), g.shards[shard].nodes), cell.key, cell.node)
  {
    var s := g.shards[shard];
    var cell := Cells(s.tables[table], s.nodes)[c];
    assert ShardOk(g, shard);
    TablesAgree(s, table, c);
    MapIs(g, Instants(g) - 1, cell.key);
  }

  // A granted reservation, while it holds all the locks, has made room for what was asked.
  lemma GrantedMakesRoom(g: Store, t: nat)
    requires Inv(g) && t < |g.workers| && g.workers[t].job.Unlocking?
    requires g.workers[t].job.granted && g.workers[t].job.left == SHARD_COUNT
    ensures Asked(g.workers[t])
    ensures forall i :: 0 <= i < SHARD_COUNT ==> HasRoom(g.shards[i], g.workers[t].ops[0])
    ensures SHARD_COUNT * PerShard(g.workers[t].ops[0]) >= g.workers[t].ops[0].minimum
  {
    assert WorkerOk(g, t);
  }

  // ---- No deadlock ----

  // Whoever holds the lock of a shard, someone can step: the holder, or along the locks of later shards
  // someone it waits for.
  lemma {:induction false} HolderSteps(g: Store, k: nat, ok: bool) returns (u: nat)
    requires Inv(g) && k < SHARD_COUNT && g.shards[k].owner.Some?
    ensures u < |g.workers| && Next(g, u, ok).Some?
    decreases SHARD_COUNT - k
  {
    assert ShardOk(g, k);
    u := g.shards[k].owner.value;
    var s, w := g.shards[k], g.workers[u];
    assert WorkerOk(g, u) && SeatOk(s, w, u, k) && OwnerOk(s, u) && PhaseOk(s, u);
    if w.job.Locking? {
      var next := w.job.next;
      if next < SHARD_COUNT && g.shards[next].owner.Some? {
        u := HolderSteps(g, next, ok);
      }
    } else if w.job.InShard? {
      OnlyTheLockStops(s, u, ok);
    }
  }

  // In every state of every run, unless all workers have finished, one can step.
  lemma NeverStuck(cells: seq<Cell>, home: Home, m: map<Key, nat>, nodes: seq<Node>, programs: seq<seq<Op>>,
                   schedule: seq<Turn>, t: nat, ok: bool)
    returns (u: nat)
    requires Preparable(cells, home, m, nodes)
    requires var g := Run(Prepared(cells, m, nodes, programs), schedule); t < |g.workers| && g.workers[t].ops != []
    ensures var g := Run(Prepared(cells, m, nodes, programs), schedule); u < |g.workers| && Next(g, u, ok).Some?
  {
    PreparedInv(cells, home, m, nodes, programs);
    RunKeeps(Prepared(cells, m, nodes, programs), schedule);
    u := SomeoneSteps(Run(Prepared(cells, m, nodes, programs), schedule), t, ok);
  }

  lemma SomeoneSteps(g: Store, t: nat, ok: bool) returns (u: nat)
    requires Inv(g) && t < |g.workers| && g.workers[t].ops != []
    ensures u < |g.workers| && Next(g, u, ok).Some?
  {
    u := t;
    var w := g.workers[t];
    assert WorkerOk(g, t);
    if w.job.Locking? {
      if w.job.next < SHARD_COUNT && g.shards[w.job.next].owner.Some? {
        u := HolderSteps(g, w.job.next, ok);
      }
    } else if w.job.InShard? {
      var j := ShardFor(w.ops[0]);
      assert ShardOk(g, j) && SeatOk(g.shards[j], w, t, j);
      if g.shards[j].threads[t].phase.Waiting? && g.shards[j].owner.Some? {
        u := HolderSteps(g, j, ok);
      } else {
        OnlyTheLockStops(g.shards[j], t, ok);
      }
    }
  }
}
