// Concurrent commits of many-node deltas. Every step of a worker touches one lock or one node, and
// any schedule may interleave the workers. A back-off worker takes its locks without waiting and
// gives all of them up on a conflict; a blocking worker waits where it stands, in key order.
module Commit {

  datatype Option<T> = None | Some(value: T)

  // The accumulators of one information-set node.
  datatype Sums = Sums(regrets: seq<real>, strategies: seq<real>)
  datatype Entry = Entry(node: nat, regrets: seq<real>, strategies: seq<real>)

  // Plus clamps regrets at zero after a commit, as CFR+ does; only blocking commits do so.
  datatype Mode = BackOff | Blocking(plus: bool)
  datatype Job = Job(mode: Mode, entries: seq<Entry>)

  // Locking, Releasing and Unlocking hold the first held entries; Preparing and Publishing hold all.
  datatype Phase =
    | Locking(held: nat)
    | Releasing(held: nat, conflict: nat)
    | Watching(conflict: nat)
    | Preparing(values: seq<Sums>)
    | Publishing(values: seq<Sums>, published: nat)
    | Unlocking(held: nat)

  datatype Worker = Worker(jobs: seq<Job>, phase: Phase)
  datatype Record = Record(worker: nat, job: Job)

  // The log is not part of the program: it records the order in which commits were decided.
  datatype State = State(nodes: seq<Sums>, locks: seq<bool>, workers: seq<Worker>, log: seq<Record>)

  // The largest finite accumulator, and the order in which blocking workers lock nodes.
  datatype Setting = Setting(max: real, rank: seq<int>)

  // ---- One commit, as if it were alone ----

  function At(s: seq<real>, i: nat): real {
    if i < |s| then s[i] else 0.0
  }

  function Add(s: seq<real>, d: seq<real>): (r: seq<real>)
    ensures |r| == |s|
  {
    seq(|s|, (i: nat) requires i < |s| => s[i] + At(d, i))
  }

  function Clamp(s: seq<real>): (r: seq<real>)
    ensures |r| == |s|
  {
    seq(|s|, (i: nat) requires i < |s| => if s[i] < 0.0 then 0.0 else s[i])
  }

  predicate Finite(c: Setting, x: real) {
    -c.max <= x <= c.max
  }

  // May the deltas of e be added to the node?
  predicate Valid(c: Setting, node: Sums, e: Entry) {
    forall i: nat :: i < |e.regrets| ==>
      && Finite(c, e.regrets[i]) && Finite(c, At(e.strategies, i)) && At(e.strategies, i) >= 0.0
      && Finite(c, At(node.regrets, i) + e.regrets[i])
      && Finite(c, At(node.strategies, i) + At(e.strategies, i)) && At(node.strategies, i) + At(e.strategies, i) >= 0.0
  }

  function Prepared(node: Sums, e: Entry): Sums {
    Sums(Add(node.regrets, e.regrets), Add(node.strategies, e.strategies))
  }

  function Final(mode: Mode, value: Sums): Sums {
    if mode.Blocking? && mode.plus then value.(regrets := Clamp(value.regrets)) else value
  }

  ghost predicate Touches(job: Job, i: nat, n: nat) {
    i < |job.entries| && job.entries[i].node == n
  }

  predicate Accepts(c: Setting, nodes: seq<Sums>, job: Job) {
    forall i: nat :: i < |job.entries| ==> job.entries[i].node < |nodes| && Valid(c, nodes[job.entries[i].node], job.entries[i])
  }

  // All entries of the job at once. The nodes of a job are distinct, so their order is immaterial.
  function Applied(nodes: seq<Sums>, job: Job, k: nat): (r: seq<Sums>)
    requires k <= |job.entries|
    ensures |r| == |nodes|
    decreases k
  {
    if k == 0 then nodes else
      var r := Applied(nodes, job, k - 1);
      var e := job.entries[k - 1];
      if e.node < |r| then r[e.node := Final(job.mode, Prepared(r[e.node], e))] else r
  }

  // A commit takes effect as a whole or not at all.
  function Atomic(c: Setting, nodes: seq<Sums>, job: Job): (r: seq<Sums>)
    ensures |r| == |nodes|
  {
    if Accepts(c, nodes, job) then Applied(nodes, job, |job.entries|) else nodes
  }

  // The commits of the log, one after another.
  function Serial(c: Setting, init: seq<Sums>, log: seq<Record>): (r: seq<Sums>)
    ensures |r| == |init|
    decreases |log|
  {
    if log == [] then init else Atomic(c, Serial(c, init, log[..|log| - 1]), log[|log| - 1].job)
  }

  // ---- The steps of the program ----

  function WithWorker(s: State, w: nat, wk: Worker): State
    requires w < |s.workers|
  {
    s.(workers := s.workers[w := wk])
  }

  // The state after the next step of worker w, or None when it has finished or must wait.
  function Next(c: Setting, s: State, w: nat): Option<State>
    requires w < |s.workers|
  {
    var wk := s.workers[w];
    if wk.jobs == [] then None else
      var job := wk.jobs[0];
      match wk.phase
      case Locking(held) => NextLocking(s, w, job, held)
      case Releasing(held, conflict) =>
        if held == 0 then
          Some(WithWorker(s, w, wk.(phase := Watching(conflict))))
        else if held <= |job.entries| then
          Some(WithWorker(Unlock(s, job.entries[held - 1].node), w, wk.(phase := Releasing(held - 1, conflict))))
        else None
      case Watching(conflict) =>
        if conflict < |s.locks| && !s.locks[conflict] then Some(WithWorker(s, w, wk.(phase := Locking(0)))) else None
      case Preparing(values) => NextPreparing(c, s, w, job, values)
      case Publishing(values, published) => NextPublishing(s, w, job, values, published)
      case Unlocking(held) =>
        if held == 0 then
          Some(WithWorker(s, w, Worker(wk.jobs[1..], Locking(0))))
        else if held <= |job.entries| then
          Some(WithWorker(Unlock(s, job.entries[held - 1].node), w, wk.(phase := Unlocking(held - 1))))
        else None
  }

  function Unlock(s: State, n: nat): State {
    if n < |s.locks| then s.(locks := s.locks[n := false]) else s
  }

  function NextLocking(s: State, w: nat, job: Job, held: nat): Option<State>
    requires w < |s.workers|
  {
    var wk := s.workers[w];
    if held >= |job.entries| then
      Some(WithWorker(s, w, wk.(phase := Preparing([]))))
    else
      var n := job.entries[held].node;
      if n < |s.locks| && !s.locks[n] then
        Some(WithWorker(s.(locks := s.locks[n := true]), w, wk.(phase := Locking(held + 1))))
      else if job.mode.BackOff? then
        Some(WithWorker(s, w, wk.(phase := Releasing(held, n))))
      else None
  }

  // Nothing is written while values are being prepared or checked, so a failure leaves no trace.
  function NextPreparing(c: Setting, s: State, w: nat, job: Job, values: seq<Sums>): Option<State>
    requires w < |s.workers|
  {
    var wk := s.workers[w];
    var logged := s.(log := s.log + [Record(w, job)]);
    if |values| >= |job.entries| then
      Some(WithWorker(logged, w, wk.(phase := Publishing(values, 0))))
    else
      var e := job.entries[|values|];
      if e.node >= |s.nodes| then None
      else if Valid(c, s.nodes[e.node], e) then
        Some(WithWorker(s, w, wk.(phase := Preparing(values + [Prepared(s.nodes[e.node], e)]))))
      else
        Some(WithWorker(logged, w, wk.(phase := Unlocking(|job.entries|))))
  }

  // A back-off worker writes the value it prepared; a blocking worker adds to the node in place.
  function NextPublishing(s: State, w: nat, job: Job, values: seq<Sums>, published: nat): Option<State>
    requires w < |s.workers|
  {
    var wk := s.workers[w];
    if published >= |job.entries| then
      Some(WithWorker(s, w, wk.(phase := Unlocking(|job.entries|))))
    else
      var e := job.entries[published];
      if e.node >= |s.nodes| || published >= |values| then None
      else
        var value := if job.mode.BackOff? then values[published] else Final(job.mode, Prepared(s.nodes[e.node], e));
        Some(WithWorker(s.(nodes := s.nodes[e.node := value]), w, wk.(phase := Publishing(values, published + 1))))
  }

  // Any schedule: a worker that cannot step when its turn comes stays where it is.
  function Run(c: Setting, s: State, schedule: seq<nat>): State
    decreases |schedule|
  {
    if schedule == [] then s else
      var t := Run(c, s, schedule[..|schedule| - 1]);
      var w := schedule[|schedule| - 1];
      if w < |t.workers| && Next(c, t, w).Some? then Next(c, t, w).value else t
  }

  // ---- What every step keeps ----

  ghost predicate JobOk(c: Setting, count: nat, job: Job) {
    && (forall i: nat :: i < |job.entries| ==> job.entries[i].node < count)
    && (forall i: nat, j: nat :: i < j < |job.entries| ==> job.entries[i].node != job.entries[j].node)
    && (job.mode.Blocking? ==> InOrder(c, count, job))
  }

  // Blocking commits lock in strictly increasing order.
  ghost predicate InOrder(c: Setting, count: nat, job: Job) {
    && |c.rank| == count
    && forall i: nat, j: nat :: i < j < |job.entries| && job.entries[i].node < count && job.entries[j].node < count ==>
      c.rank[job.entries[i].node] < c.rank[job.entries[j].node]
  }

  function HeldCount(wk: Worker): nat {
    if wk.jobs == [] then 0 else
      match wk.phase
      case Locking(held) => held
      case Releasing(held, _) => held
      case Watching(_) => 0
      case Preparing(_) => |wk.jobs[0].entries|
      case Publishing(_, _) => |wk.jobs[0].entries|
      case Unlocking(held) => held
  }

  // Worker wk holds the lock of node n.
  ghost predicate Holds(wk: Worker, n: nat) {
    wk.jobs != [] && exists i: nat :: i < HeldCount(wk) && Touches(wk.jobs[0], i, n)
  }

  ghost predicate PhaseOk(c: Setting, nodes: seq<Sums>, job: Job, phase: Phase) {
    var n := |job.entries|;
    match phase
    case Locking(held) => held <= n
    case Releasing(held, conflict) => job.mode.BackOff? && held <= n && conflict < |nodes|
    case Watching(conflict) => job.mode.BackOff? && conflict < |nodes|
    case Preparing(values) => |values| <= n && forall i: nat :: i < |values| ==> Ready(c, nodes, job, values, i)
    case Publishing(values, published) =>
      && |values| == n && published <= n
      && forall i: nat :: published <= i < n ==> Ready(c, nodes, job, values, i)
    case Unlocking(held) => held <= n
  }

  // Entry i has been checked, and the value computed for it is still right.
  ghost predicate Ready(c: Setting, nodes: seq<Sums>, job: Job, values: seq<Sums>, i: nat)
    requires i < |values| && i < |job.entries|
  {
    var e := job.entries[i];
    e.node < |nodes| && Valid(c, nodes[e.node], e) && values[i] == Prepared(nodes[e.node], e)
  }

  ghost predicate WorkerOk(c: Setting, nodes: seq<Sums>, wk: Worker) {
    && (forall j: nat :: j < |wk.jobs| ==> JobOk(c, |nodes|, wk.jobs[j]))
    && (wk.jobs != [] ==> PhaseOk(c, nodes, wk.jobs[0], wk.phase))
    && (wk.jobs == [] ==> wk.phase == Locking(0))
  }

  ghost predicate Exclusive(s: State, w: nat, u: nat)
    requires w < |s.workers| && u < |s.workers|
  {
    forall n: nat :: !(Holds(s.workers[w], n) && Holds(s.workers[u], n))
  }

  ghost predicate LockOk(s: State, n: nat)
    requires n < |s.locks|
  {
    s.locks[n] <==> exists w: nat :: w < |s.workers| && Holds(s.workers[w], n)
  }

  // Worker wk has decided to commit entry i but not written it yet; value is what it will write.
  ghost predicate Pending(wk: Worker, i: nat, n: nat) {
    && wk.jobs != [] && wk.phase.Publishing? && wk.phase.published <= i < |wk.phase.values|
    && Touches(wk.jobs[0], i, n)
  }

  // The committed value of node n: what some worker is about to write, or else what is there.
  ghost predicate CommittedAt(s: State, committed: seq<Sums>, n: nat)
    requires n < |s.nodes| && n < |committed|
  {
    && (forall w: nat, i: nat :: w < |s.workers| && Pending(s.workers[w], i, n) ==>
          committed[n] == Final(s.workers[w].jobs[0].mode, s.workers[w].phase.values[i]))
    && ((forall w: nat, i: nat :: w < |s.workers| ==> !Pending(s.workers[w], i, n)) ==> committed[n] == s.nodes[n])
  }

  ghost predicate Inv(c: Setting, s: State, committed: seq<Sums>) {
    && |s.locks| == |s.nodes| == |committed|
    && (forall w: nat :: w < |s.workers| ==> WorkerOk(c, s.nodes, s.workers[w]))
    && (forall w: nat, u: nat :: w < |s.workers| && u < |s.workers| && w != u ==> Exclusive(s, w, u))
    && (forall n: nat :: n < |s.locks| ==> LockOk(s, n))
    && (forall n: nat :: n < |s.nodes| ==> CommittedAt(s, committed, n))
  }

  lemma PendingHolds(wk: Worker, i: nat, n: nat)
    requires Pending(wk, i, n)
    ensures Holds(wk, n)
  {
  }

  // What a step of w leaves alone: everything held by others, and everything held by nobody.
  ghost predicate Confined(s: State, s': State, w: nat)
    requires w < |s.workers| && |s.locks| == |s.nodes|
  {
    && |s'.nodes| == |s.nodes| && |s'.locks| == |s.locks| && |s'.workers| == |s.workers|
    && s'.workers == s.workers[w := s'.workers[w]]
    && (forall n: nat :: n < |s.nodes| && !Holds(s.workers[w], n) ==> s'.nodes[n] == s.nodes[n])
    && (forall n: nat :: n < |s.locks| ==> LockMove(s, s', w, n))
  }

  // Locks follow what w holds: it takes only free ones and gives back only its own.
  ghost predicate LockMove(s: State, s': State, w: nat, n: nat)
    requires w < |s.workers| && w < |s'.workers| && n < |s.locks| && n < |s'.locks|
  {
    && (Holds(s'.workers[w], n) ==> Holds(s.workers[w], n) || !s.locks[n])
    && (s'.locks[n] <==> Holds(s'.workers[w], n) || (s.locks[n] && !Holds(s.workers[w], n)))
  }

  // How w alone accounts for the committed value of a node it holds.
  ghost predicate Accounts(wk: Worker, node: Sums, committed: Sums, n: nat) {
    && (forall i: nat :: Pending(wk, i, n) ==> committed == Final(wk.jobs[0].mode, wk.phase.values[i]))
    && ((forall i: nat :: !Pending(wk, i, n)) ==> committed == node)
  }

  lemma OtherWorkerOk(c: Setting, s: State, s': State, w: nat, u: nat)
    requires w < |s.workers| && u < |s.workers| && u != w && |s.locks| == |s.nodes|
    requires Confined(s, s', w) && Exclusive(s, w, u) && WorkerOk(c, s.nodes, s.workers[u])
    ensures WorkerOk(c, s'.nodes, s'.workers[u])
  {
    var wk := s.workers[u];
    if wk.jobs != [] && (wk.phase.Preparing? || wk.phase.Publishing?) {
      var job, values := wk.jobs[0], wk.phase.values;
      forall i: nat | i < |values| && i < |job.entries| && Ready(c, s.nodes, job, values, i)
        ensures Ready(c, s'.nodes, job, values, i)
      {
        assert Touches(job, i, job.entries[i].node);
        assert Holds(wk, job.entries[i].node);
      }
    }
  }

  lemma ExclusiveAfter(c: Setting, s: State, s': State, committed: seq<Sums>, w: nat, u: nat)
    requires Inv(c, s, committed) && w < |s.workers| && u < |s.workers| && u != w && Confined(s, s', w)
    requires forall n: nat :: Holds(s'.workers[w], n) ==> n < |s.nodes|
    ensures Exclusive(s', w, u) && Exclusive(s', u, w)
  {
    forall n: nat ensures !(Holds(s'.workers[w], n) && Holds(s'.workers[u], n)) {
      assert Exclusive(s, w, u);
      if n < |s.nodes| {
        assert LockMove(s, s', w, n) && LockOk(s, n);
      }
    }
  }

  lemma LocksAfter(c: Setting, s: State, s': State, committed: seq<Sums>, w: nat, n: nat)
    requires Inv(c, s, committed) && w < |s.workers| && Confined(s, s', w) && n < |s.nodes|
    ensures LockOk(s', n)
  {
    assert LockMove(s, s', w, n) && LockOk(s, n);
    if s.locks[n] && !Holds(s.workers[w], n) {
      var u: nat :| u < |s.workers| && Holds(s.workers[u], n);
      assert Holds(s'.workers[u], n);
    }
    forall u: nat | u < |s.workers| && u != w && Holds(s'.workers[u], n) ensures s'.locks[n] {
      assert Exclusive(s, w, u);
    }
  }

  lemma CommittedAfter(c: Setting, s: State, s': State, committed: seq<Sums>, committed': seq<Sums>, w: nat, n: nat)
    requires Inv(c, s, committed) && w < |s.workers| && Confined(s, s', w) && n < |s.nodes| == |committed'|
    requires Holds(s.workers[w], n) ==> Accounts(s'.workers[w], s'.nodes[n], committed'[n], n)
    requires !Holds(s.workers[w], n) ==> committed'[n] == committed[n] && forall i: nat :: !Pending(s'.workers[w], i, n)
    ensures CommittedAt(s', committed', n)
  {
    assert CommittedAt(s, committed, n);
    if Holds(s.workers[w], n) {
      forall u: nat, i: nat | u < |s.workers| && u != w ensures !Pending(s'.workers[u], i, n) {
        assert Exclusive(s, w, u);
        if Pending(s.workers[u], i, n) {
          PendingHolds(s.workers[u], i, n);
        }
      }
    } else {
      forall i: nat ensures !Pending(s.workers[w], i, n) {
        if Pending(s.workers[w], i, n) {
          PendingHolds(s.workers[w], i, n);
        }
      }
      forall u: nat, i: nat | u < |s.workers| ensures Pending(s'.workers[u], i, n) <==> Pending(s.workers[u], i, n) {
      }
    }
  }

  // A confined step that accounts for what it holds keeps the invariant.
  lemma StepKeeps(c: Setting, s: State, s': State, committed: seq<Sums>, committed': seq<Sums>, w: nat)
    requires Inv(c, s, committed) && w < |s.workers| && Confined(s, s', w) && |committed'| == |s.nodes|
    requires WorkerOk(c, s'.nodes, s'.workers[w])
    requires forall n: nat :: Holds(s'.workers[w], n) ==> n < |s.nodes|
    requires forall n: nat :: n < |s.nodes| && Holds(s.workers[w], n) ==>
      Accounts(s'.workers[w], s'.nodes[n], committed'[n], n)
    requires forall n: nat :: n < |s.nodes| && !Holds(s.workers[w], n) ==>
      committed'[n] == committed[n] && forall i: nat :: !Pending(s'.workers[w], i, n)
    ensures Inv(c, s', committed')
  {
    forall u: nat | u < |s'.workers| ensures WorkerOk(c, s'.nodes, s'.workers[u]) {
      if u != w {
        assert Exclusive(s, w, u);
        OtherWorkerOk(c, s, s', w, u);
      }
    }
    forall u: nat, v: nat | u < |s'.workers| && v < |s'.workers| && u != v ensures Exclusive(s', u, v) {
      if u == w {
        ExclusiveAfter(c, s, s', committed, w, v);
      } else if v == w {
        ExclusiveAfter(c, s, s', committed, w, u);
      } else {
        assert Exclusive(s, u, v);
      }
    }
    forall n: nat | n < |s'.locks| ensures LockOk(s', n) {
      LocksAfter(c, s, s', committed, w, n);
    }
    forall n: nat | n < |s'.nodes| ensures CommittedAt(s', committed', n) {
      CommittedAfter(c, s, s', committed, committed', w, n);
    }
  }

  // What the invariant says of the worker about to step: it accounts for all it holds.
  lemma OwnAccounts(c: Setting, s: State, committed: seq<Sums>, w: nat, n: nat)
    requires Inv(c, s, committed) && w < |s.workers| && n < |s.nodes| && Holds(s.workers[w], n)
    ensures Accounts(s.workers[w], s.nodes[n], committed[n], n)
  {
    assert CommittedAt(s, committed, n);
    forall u: nat, i: nat | u < |s.workers| && u != w ensures !Pending(s.workers[u], i, n) {
      assert Exclusive(s, w, u);
      if Pending(s.workers[u], i, n) {
        PendingHolds(s.workers[u], i, n);
      }
    }
  }

  lemma HeldInRange(c: Setting, s: State, committed: seq<Sums>, w: nat, n: nat)
    requires Inv(c, s, committed) && w < |s.workers| && Holds(s.workers[w], n)
    ensures n < |s.nodes|
  {
    var wk := s.workers[w];
    assert WorkerOk(c, s.nodes, wk) && JobOk(c, |s.nodes|, wk.jobs[0]);
  }

  // A step that only moves w to a phase with the same locks and the same pending values.
  lemma QuietStep(c: Setting, s: State, committed: seq<Sums>, w: nat, wk: Worker)
    requires Inv(c, s, committed) && w < |s.workers| && WorkerOk(c, s.nodes, wk)
    requires forall n: nat :: Holds(wk, n) <==> Holds(s.workers[w], n)
    requires forall i: nat, n: nat :: !Pending(wk, i, n) && !Pending(s.workers[w], i, n)
    ensures Inv(c, WithWorker(s, w, wk), committed)
  {
    var s' := WithWorker(s, w, wk);
    forall n: nat | n < |s.locks| ensures LockMove(s, s', w, n) {
      assert LockOk(s, n);
    }
    forall n: nat | n < |s.nodes| && Holds(s.workers[w], n) ensures Accounts(wk, s'.nodes[n], committed[n], n) {
      OwnAccounts(c, s, committed, w, n);
    }
    forall n: nat | Holds(wk, n) ensures n < |s.nodes| {
      HeldInRange(c, s, committed, w, n);
    }
    StepKeeps(c, s, s', committed, committed, w);
  }

  lemma AcquireStep(c: Setting, s: State, committed: seq<Sums>, w: nat, job: Job, held: nat)
    requires Inv(c, s, committed) && w < |s.workers| && s.workers[w].jobs != []
    requires job == s.workers[w].jobs[0] && s.workers[w].phase == Locking(held) && held < |job.entries|
    requires job.entries[held].node < |s.locks| && !s.locks[job.entries[held].node]
    ensures var n, wk := job.entries[held].node, s.workers[w];
      Inv(c, WithWorker(s.(locks := s.locks[n := true]), w, wk.(phase := Locking(held + 1))), committed)
  {
    var taken, wk := job.entries[held].node, s.workers[w];
    var wk' := wk.(phase := Locking(held + 1));
    var s' := WithWorker(s.(locks := s.locks[taken := true]), w, wk');
    assert WorkerOk(c, s.nodes, wk);
    forall n: nat ensures Holds(wk', n) <==> Holds(wk, n) || n == taken {
      if Holds(wk, n) {
        var i: nat :| i < held && Touches(job, i, n);
        assert Touches(wk'.jobs[0], i, n);
      }
      assert Touches(job, held, taken);
    }
    forall n: nat | n < |s.locks| ensures LockMove(s, s', w, n) {
      assert LockOk(s, n);
    }
    forall n: nat | n < |s.nodes| && Holds(wk, n) ensures Accounts(wk', s'.nodes[n], committed[n], n) {
      OwnAccounts(c, s, committed, w, n);
    }
    forall n: nat | Holds(wk', n) ensures n < |s.nodes| {
      if n != taken {
        HeldInRange(c, s, committed, w, n);
      }
    }
    StepKeeps(c, s, s', committed, committed, w);
  }

  // Giving back the last of the locks held, in Releasing or Unlocking.
  lemma ReleaseStep(c: Setting, s: State, committed: seq<Sums>, w: nat, job: Job, held: nat, phase: Phase)
    requires Inv(c, s, committed) && w < |s.workers| && s.workers[w].jobs != []
    requires job == s.workers[w].jobs[0] && 0 < held <= |job.entries| && HeldCount(s.workers[w]) == held
    requires s.workers[w].phase.Releasing? || s.workers[w].phase.Unlocking?
    requires phase == if s.workers[w].phase.Releasing? then s.workers[w].phase.(held := held - 1) else Unlocking(held - 1)
    ensures Inv(c, WithWorker(Unlock(s, job.entries[held - 1].node), w, s.workers[w].(phase := phase)), committed)
  {
    var freed, wk := job.entries[held - 1].node, s.workers[w];
    var wk' := wk.(phase := phase);
    var s' := WithWorker(Unlock(s, freed), w, wk');
    assert WorkerOk(c, s.nodes, wk) && JobOk(c, |s.nodes|, job);
    assert Touches(job, held - 1, freed) && Holds(wk, freed);
    forall n: nat ensures Holds(wk', n) <==> Holds(wk, n) && n != freed {
      if Holds(wk, n) && n != freed {
        var i: nat :| i < held && Touches(job, i, n);
        assert Touches(wk'.jobs[0], i, n);
      }
    }
    forall n: nat | n < |s.locks| ensures LockMove(s, s', w, n) {
      assert LockOk(s, n);
    }
    forall n: nat | n < |s.nodes| && Holds(wk, n) ensures Accounts(wk', s'.nodes[n], committed[n], n) {
      OwnAccounts(c, s, committed, w, n);
    }
    forall n: nat | Holds(wk', n) ensures n < |s.nodes| {
      HeldInRange(c, s, committed, w, n);
    }
    StepKeeps(c, s, s', committed, committed, w);
  }

  // One entry is written: what was pending for its node is now there.
  lemma PublishStep(c: Setting, s: State, committed: seq<Sums>, w: nat, job: Job, k: nat)
    requires Inv(c, s, committed) && w < |s.workers| && s.workers[w].jobs != [] && job == s.workers[w].jobs[0]
    requires s.workers[w].phase.Publishing? && k == s.workers[w].phase.published < |job.entries|
    ensures Next(c, s, w).Some? && Inv(c, Next(c, s, w).value, committed)
  {
    var wk := s.workers[w];
    assert WorkerOk(c, s.nodes, wk) && JobOk(c, |s.nodes|, job);
    var values, e := wk.phase.values, job.entries[k];
    assert Ready(c, s.nodes, job, values, k);
    var s' := Next(c, s, w).value;
    var wk' := s'.workers[w];
    assert s'.nodes == s.nodes[e.node := Final(job.mode, values[k])];
    assert Touches(job, k, e.node) && Holds(wk, e.node) && Pending(wk, k, e.node);
    forall n: nat ensures Holds(wk', n) <==> Holds(wk, n) {
    }
    forall i: nat, n: nat ensures Pending(wk', i, n) <==> Pending(wk, i, n) && n != e.node {
    }
    forall n: nat | n < |s.locks| ensures LockMove(s, s', w, n) {
      assert LockOk(s, n);
    }
    forall n: nat | n < |s.nodes| && Holds(wk, n) ensures Accounts(wk', s'.nodes[n], committed[n], n) {
      OwnAccounts(c, s, committed, w, n);
    }
    forall n: nat | Holds(wk', n) ensures n < |s.nodes| {
      HeldInRange(c, s, committed, w, n);
    }
    forall i: nat | k + 1 <= i < |job.entries| ensures Ready(c, s'.nodes, job, values, i) {
      assert Ready(c, s.nodes, job, values, i);
    }
    forall i: nat, n: nat | Pending(wk', i, n) ensures Holds(wk, n) {
      PendingHolds(wk, i, n);
    }
    StepKeeps(c, s, s', committed, committed, w);
  }

  // ---- Deciding a commit ----

  // While values are being prepared the job's nodes hold their committed values.
  lemma HeldIsCommitted(c: Setting, s: State, committed: seq<Sums>, w: nat, job: Job, i: nat)
    requires Inv(c, s, committed) && w < |s.workers| && s.workers[w].jobs != [] && job == s.workers[w].jobs[0]
    requires s.workers[w].phase.Preparing? && i < |job.entries|
    ensures job.entries[i].node < |s.nodes| && committed[job.entries[i].node] == s.nodes[job.entries[i].node]
  {
    assert WorkerOk(c, s.nodes, s.workers[w]) && JobOk(c, |s.nodes|, job);
    assert Touches(job, i, job.entries[i].node) && Holds(s.workers[w], job.entries[i].node);
    OwnAccounts(c, s, committed, w, job.entries[i].node);
  }

  // Applying a job to distinct nodes: each gets its entry, and the others stay.
  lemma {:induction false} AppliedAt(c: Setting, nodes: seq<Sums>, job: Job, k: nat, n: nat)
    requires JobOk(c, |nodes|, job) && k <= |job.entries| && n < |nodes|
    ensures forall i: nat :: i < k && Touches(job, i, n) ==>
      Applied(nodes, job, k)[n] == Final(job.mode, Prepared(nodes[n], job.entries[i]))
    ensures (forall i: nat :: i < k ==> !Touches(job, i, n)) ==> Applied(nodes, job, k)[n] == nodes[n]
    decreases k
  {
    if k > 0 {
      AppliedAt(c, nodes, job, k - 1, n);
      if Touches(job, k - 1, n) {
        forall i: nat | i < k - 1 ensures !Touches(job, i, n) {
        }
      } else {
        assert Applied(nodes, job, k)[n] == Applied(nodes, job, k - 1)[n];
      }
    }
  }

  lemma DecideStep(c: Setting, s: State, committed: seq<Sums>, w: nat, job: Job, values: seq<Sums>)
    requires Inv(c, s, committed) && w < |s.workers| && s.workers[w].jobs != [] && job == s.workers[w].jobs[0]
    requires s.workers[w].phase == Preparing(values) && |values| == |job.entries|
    ensures Next(c, s, w).Some? && Inv(c, Next(c, s, w).value, Atomic(c, committed, job))
  {
    var wk, s' := s.workers[w], Next(c, s, w).value;
    var wk' := s'.workers[w];
    assert WorkerOk(c, s.nodes, wk) && JobOk(c, |s.nodes|, job);
    forall i: nat | i < |job.entries|
      ensures Ready(c, s.nodes, job, values, i) && committed[job.entries[i].node] == s.nodes[job.entries[i].node]
    {
      HeldIsCommitted(c, s, committed, w, job, i);
    }
    assert Accepts(c, committed, job);
    var after := Applied(committed, job, |job.entries|);
    forall n: nat ensures Holds(wk', n) <==> Holds(wk, n) {
    }
    forall n: nat | n < |s.locks| ensures LockMove(s, s', w, n) {
      assert LockOk(s, n);
    }
    forall n: nat | n < |s.nodes| && Holds(wk, n) ensures Accounts(wk', s.nodes[n], after[n], n) {
      AppliedAt(c, committed, job, |job.entries|, n);
      var i: nat :| i < |job.entries| && Touches(job, i, n);
      assert Pending(wk', i, n);
      forall j: nat | Pending(wk', j, n) ensures after[n] == Final(job.mode, values[j]) {
        assert Ready(c, s.nodes, job, values, j);
      }
    }
    forall n: nat | Holds(wk', n) ensures n < |s.nodes| {
      HeldInRange(c, s, committed, w, n);
    }
    forall n: nat | n < |s.nodes| && !Holds(wk, n)
      ensures after[n] == committed[n] && forall i: nat :: !Pending(wk', i, n)
    {
      AppliedAt(c, committed, job, |job.entries|, n);
      forall i: nat ensures !Pending(wk', i, n) {
        if Pending(wk', i, n) {
          PendingHolds(wk', i, n);
        }
      }
      forall i: nat | i < |job.entries| ensures !Touches(job, i, n) {
        assert Touches(job, i, n) ==> Holds(wk, n);
      }
    }
    StepKeeps(c, s, s', committed, after, w);
  }

  // A value that fails its check decides the job against itself, in the serial order too.
  lemma RejectStep(c: Setting, s: State, committed: seq<Sums>, w: nat, job: Job, values: seq<Sums>)
    requires Inv(c, s, committed) && w < |s.workers| && s.workers[w].jobs != [] && job == s.workers[w].jobs[0]
    requires s.workers[w].phase == Preparing(values) && |values| < |job.entries|
    requires job.entries[|values|].node < |s.nodes|
    requires !Valid(c, s.nodes[job.entries[|values|].node], job.entries[|values|])
    ensures Atomic(c, committed, job) == committed
    ensures Next(c, s, w).Some? && Inv(c, Next(c, s, w).value, committed)
  {
    HeldIsCommitted(c, s, committed, w, job, |values|);
    var wk := s.workers[w];
    assert WorkerOk(c, s.nodes, wk);
    var logged := s.(log := s.log + [Record(w, job)]);
    LogIsInert(c, s, logged, committed);
    QuietStep(c, logged, committed, w, wk.(phase := Unlocking(|job.entries|)));
  }

  lemma LogIsInert(c: Setting, s: State, s': State, committed: seq<Sums>)
    requires Inv(c, s, committed) && s' == s.(log := s'.log)
    ensures Inv(c, s', committed)
  {
    forall w: nat, u: nat | w < |s.workers| && u < |s.workers| && w != u ensures Exclusive(s', w, u) {
      assert Exclusive(s, w, u);
    }
    forall n: nat | n < |s.locks| ensures LockOk(s', n) {
      assert LockOk(s, n);
    }
    forall n: nat | n < |s.nodes| ensures CommittedAt(s', committed, n) {
      assert CommittedAt(s, committed, n);
    }
  }

  lemma PrepareStep(c: Setting, s: State, committed: seq<Sums>, w: nat, job: Job, values: seq<Sums>)
    requires Inv(c, s, committed) && w < |s.workers| && s.workers[w].jobs != [] && job == s.workers[w].jobs[0]
    requires s.workers[w].phase == Preparing(values) && |values| < |job.entries|
    requires job.entries[|values|].node < |s.nodes|
    requires Valid(c, s.nodes[job.entries[|values|].node], job.entries[|values|])
    ensures Next(c, s, w).Some? && Inv(c, Next(c, s, w).value, committed)
  {
    var wk, e := s.workers[w], job.entries[|values|];
    assert WorkerOk(c, s.nodes, wk);
    var values' := values + [Prepared(s.nodes[e.node], e)];
    forall i: nat | i < |values'| ensures Ready(c, s.nodes, job, values', i) {
      if i < |values| {
        assert Ready(c, s.nodes, job, values, i);
      }
    }
    QuietStep(c, s, committed, w, wk.(phase := Preparing(values')));
  }

  // The committed state moves only when a job is decided, and then by that whole job.
  lemma PreparingKeeps(c: Setting, init: seq<Sums>, s: State, w: nat)
    requires Inv(c, s, Serial(c, init, s.log)) && w < |s.workers| && Next(c, s, w).Some?
    requires s.workers[w].phase.Preparing?
    ensures Inv(c, Next(c, s, w).value, Serial(c, init, Next(c, s, w).value.log))
  {
    var committed, s' := Serial(c, init, s.log), Next(c, s, w).value;
    var job, values := s.workers[w].jobs[0], s.workers[w].phase.values;
    assert (s.log + [Record(w, job)])[..|s.log|] == s.log;
    assert WorkerOk(c, s.nodes, s.workers[w]);
    if |values| == |job.entries| {
      DecideStep(c, s, committed, w, job, values);
    } else if Valid(c, s.nodes[job.entries[|values|].node], job.entries[|values|]) {
      PrepareStep(c, s, committed, w, job, values);
    } else {
      RejectStep(c, s, committed, w, job, values);
    }
  }

  lemma LockingKeeps(c: Setting, s: State, committed: seq<Sums>, w: nat)
    requires Inv(c, s, committed) && w < |s.workers| && Next(c, s, w).Some? && s.workers[w].phase.Locking?
    ensures Inv(c, Next(c, s, w).value, committed)
  {
    var wk := s.workers[w];
    var job, held := wk.jobs[0], wk.phase.held;
    assert WorkerOk(c, s.nodes, wk) && JobOk(c, |s.nodes|, job);
    if held == |job.entries| {
      QuietStep(c, s, committed, w, wk.(phase := Preparing([])));
    } else if !s.locks[job.entries[held].node] {
      AcquireStep(c, s, committed, w, job, held);
    } else {
      QuietStep(c, s, committed, w, wk.(phase := Releasing(held, job.entries[held].node)));
    }
  }

  lemma UnlockingKeeps(c: Setting, s: State, committed: seq<Sums>, w: nat)
    requires Inv(c, s, committed) && w < |s.workers| && Next(c, s, w).Some?
    requires s.workers[w].phase.Unlocking? || s.workers[w].phase.Releasing?
    ensures Inv(c, Next(c, s, w).value, committed)
  {
    var wk := s.workers[w];
    var job, phase := wk.jobs[0], wk.phase;
    assert WorkerOk(c, s.nodes, wk) && JobOk(c, |s.nodes|, job);
    if phase.held > 0 {
      ReleaseStep(c, s, committed, w, job, phase.held,
        if phase.Releasing? then phase.(held := phase.held - 1) else Unlocking(phase.held - 1));
    } else if phase.Releasing? {
      QuietStep(c, s, committed, w, wk.(phase := Watching(phase.conflict)));
    } else {
      QuietStep(c, s, committed, w, Worker(wk.jobs[1..], Locking(0)));
    }
  }

  // Every step of every worker keeps the invariant.
  lemma NextKeeps(c: Setting, init: seq<Sums>, s: State, w: nat)
    requires Inv(c, s, Serial(c, init, s.log)) && w < |s.workers| && Next(c, s, w).Some?
    ensures Inv(c, Next(c, s, w).value, Serial(c, init, Next(c, s, w).value.log))
  {
    var wk, committed := s.workers[w], Serial(c, init, s.log);
    assert WorkerOk(c, s.nodes, wk);
    match wk.phase
    case Locking(_) => LockingKeeps(c, s, committed, w);
    case Releasing(_, _) => UnlockingKeeps(c, s, committed, w);
    case Watching(_) => QuietStep(c, s, committed, w, wk.(phase := Locking(0)));
    case Preparing(_) => PreparingKeeps(c, init, s, w);
    case Publishing(values, k) =>
      if k < |wk.jobs[0].entries| {
        PublishStep(c, s, committed, w, wk.jobs[0], k);
      } else {
        QuietStep(c, s, committed, w, wk.(phase := Unlocking(|wk.jobs[0].entries|)));
      }
    case Unlocking(_) => UnlockingKeeps(c, s, committed, w);
  }

  // ---- Whole runs ----

  function NoLocks(n: nat): (locks: seq<bool>)
    ensures |locks| == n && forall i :: 0 <= i < n ==> !locks[i]
  {
    seq(n, i => false)
  }

  function Waiting(jobs: seq<seq<Job>>): (ws: seq<Worker>)
    ensures |ws| == |jobs|
  {
    seq(|jobs|, (w: nat) requires w < |jobs| => Worker(jobs[w], Locking(0)))
  }

  // Before anything happens: jobs[w] is what worker w is going to commit, in order.
  function Start(init: seq<Sums>, jobs: seq<seq<Job>>): State {
    State(init, NoLocks(|init|), Waiting(jobs), [])
  }

  ghost predicate JobsOk(c: Setting, count: nat, jobs: seq<seq<Job>>) {
    forall w: nat, j: nat :: w < |jobs| && j < |jobs[w]| ==> JobOk(c, count, jobs[w][j])
  }

  lemma StartOk(c: Setting, init: seq<Sums>, jobs: seq<seq<Job>>)
    requires JobsOk(c, |init|, jobs)
    ensures Inv(c, Start(init, jobs), init)
  {
  }

  lemma {:induction false} RunKeeps(c: Setting, init: seq<Sums>, jobs: seq<seq<Job>>, schedule: seq<nat>)
    requires JobsOk(c, |init|, jobs)
    ensures var s := Run(c, Start(init, jobs), schedule);
      Inv(c, s, Serial(c, init, s.log)) && |s.workers| == |jobs|
    decreases |schedule|
  {
    if schedule == [] {
      StartOk(c, init, jobs);
    } else {
      RunKeeps(c, init, jobs, schedule[..|schedule| - 1]);
      var s, w := Run(c, Start(init, jobs), schedule[..|schedule| - 1]), schedule[|schedule| - 1];
      if w < |s.workers| && Next(c, s, w).Some? {
        NextKeeps(c, init, s, w);
      }
    }
  }

  // Serialisability: in every state of every run, a node that is not locked holds exactly what the
  // decided commits give when they are carried out one after another, each as a whole.
  lemma UnlockedIsSerial(c: Setting, init: seq<Sums>, jobs: seq<seq<Job>>, schedule: seq<nat>, n: nat)
    requires JobsOk(c, |init|, jobs) && n < |init|
    ensures var s := Run(c, Start(init, jobs), schedule);
      |s.locks| == |s.nodes| == |init| && (!s.locks[n] ==> s.nodes[n] == Serial(c, init, s.log)[n])
  {
    RunKeeps(c, init, jobs, schedule);
    var s := Run(c, Start(init, jobs), schedule);
    assert CommittedAt(s, Serial(c, init, s.log), n) && LockOk(s, n);
    if !s.locks[n] {
      forall w: nat, i: nat | w < |s.workers| ensures !Pending(s.workers[w], i, n) {
        if Pending(s.workers[w], i, n) {
          PendingHolds(s.workers[w], i, n);
        }
      }
    }
  }

  // ---- The order of the log ----

  // The jobs of worker w in the log, oldest first.
  function DecidedBy(log: seq<Record>, w: nat): seq<Job>
    decreases |log|
  {
    if log == [] then [] else
      var before := DecidedBy(log[..|log| - 1], w);
      if log[|log| - 1].worker == w then before + [log[|log| - 1].job] else before
  }

  function Undecided(wk: Worker): seq<Job> {
    if wk.jobs != [] && (wk.phase.Publishing? || wk.phase.Unlocking?) then wk.jobs[1..] else wk.jobs
  }

  lemma DecidedByMore(log: seq<Record>, r: Record, w: nat)
    ensures DecidedBy(log + [r], w) == DecidedBy(log, w) + if r.worker == w then [r.job] else []
  {
    assert (log + [r])[..|log|] == log;
  }

  // Only the end of preparation, either way, writes to the log.
  lemma LogOfStep(c: Setting, s: State, w: nat)
    requires w < |s.workers| && Next(c, s, w).Some?
    ensures var s', wk := Next(c, s, w).value, s.workers[w];
      && |s'.workers| == |s.workers|
      && (forall u: nat :: u < |s.workers| && u != w ==> s'.workers[u] == s.workers[u])
      && ((s'.log == s.log && Undecided(s'.workers[w]) == Undecided(wk))
          || (s'.log == s.log + [Record(w, wk.jobs[0])] && Undecided(wk) == wk.jobs && Undecided(s'.workers[w]) == wk.jobs[1..]))
  {
  }

  lemma StepDecides(c: Setting, s: State, w: nat, u: nat)
    requires w < |s.workers| && u < |s.workers| && Next(c, s, w).Some?
    ensures var s' := Next(c, s, w).value;
      |s'.workers| == |s.workers|
      && DecidedBy(s'.log, u) + Undecided(s'.workers[u]) == DecidedBy(s.log, u) + Undecided(s.workers[u])
  {
    LogOfStep(c, s, w);
    var wk, s' := s.workers[w], Next(c, s, w).value;
    DecidedByMore(s.log, Record(w, wk.jobs[0]), u);
    if u == w && s'.log != s.log {
      OneDecided(DecidedBy(s.log, w), wk.jobs);
    }
  }

  lemma OneDecided(decided: seq<Job>, jobs: seq<Job>)
    requires jobs != []
    ensures decided + [jobs[0]] + jobs[1..] == decided + jobs
  {
    assert jobs == [jobs[0]] + jobs[1..];
  }

  // Every job is decided once, in its worker's own order: at any point of any run the jobs decided
  // and those still undecided make up what the worker set out to do.
  lemma {:induction false} ProgramOrder(c: Setting, init: seq<Sums>, jobs: seq<seq<Job>>, schedule: seq<nat>, w: nat)
    requires JobsOk(c, |init|, jobs) && w < |jobs|
    ensures var s := Run(c, Start(init, jobs), schedule);
      |s.workers| == |jobs| && DecidedBy(s.log, w) + Undecided(s.workers[w]) == jobs[w]
    decreases |schedule|
  {
    if schedule != [] {
      var before, u := schedule[..|schedule| - 1], schedule[|schedule| - 1];
      ProgramOrder(c, init, jobs, before, w);
      RunKeeps(c, init, jobs, before);
      var s := Run(c, Start(init, jobs), before);
      if u < |s.workers| && Next(c, s, u).Some? {
        StepDecides(c, s, u, w);
      }
    }
  }

  // ---- Waiting ----

  // The lock that worker wk is waiting for, if it is at a point where it can only wait.
  function Wanted(wk: Worker): Option<nat> {
    if wk.jobs == [] then None
    else if wk.phase.Watching? then Some(wk.phase.conflict)
    else if wk.phase.Locking? && wk.jobs[0].mode.Blocking? && wk.phase.held < |wk.jobs[0].entries| then
      Some(wk.jobs[0].entries[wk.phase.held].node)
    else None
  }

  ghost predicate WaitsFor(s: State, w: nat, u: nat) {
    w < |s.workers| && u < |s.workers| && Wanted(s.workers[w]).Some? && Holds(s.workers[u], Wanted(s.workers[w]).value)
  }

  // A worker that can take no step is finished, or waits for one that is holding a lock.
  lemma StuckWaits(c: Setting, s: State, committed: seq<Sums>, w: nat) returns (u: nat)
    requires Inv(c, s, committed) && w < |s.workers| && s.workers[w].jobs != [] && Next(c, s, w).None?
    ensures WaitsFor(s, w, u)
  {
    var wk := s.workers[w];
    assert WorkerOk(c, s.nodes, wk) && JobOk(c, |s.nodes|, wk.jobs[0]);
    if wk.phase.Preparing? && |wk.phase.values| < |wk.jobs[0].entries| {
      assert wk.jobs[0].entries[|wk.phase.values|].node < |s.nodes|;
    }
    var n := Wanted(wk).value;
    assert LockOk(s, n);
    u :| u < |s.workers| && Holds(s.workers[u], n);
  }

  // A back-off worker holds nothing while it waits.
  lemma BackOffHoldsNothing(c: Setting, s: State, committed: seq<Sums>, w: nat, n: nat)
    requires Inv(c, s, committed) && w < |s.workers| && Wanted(s.workers[w]).Some?
    requires s.workers[w].jobs[0].mode.BackOff?
    ensures !Holds(s.workers[w], n)
  {
  }

  // Along a chain of waiting workers the wanted nodes come later and later in the lock order, even
  // when back-off workers, which use an order of their own, are among them.
  lemma WaitingClimbs(c: Setting, s: State, committed: seq<Sums>, w: nat, u: nat)
    requires Inv(c, s, committed) && WaitsFor(s, w, u) && Wanted(s.workers[u]).Some?
    ensures Wanted(s.workers[w]).value < |s.nodes| && Wanted(s.workers[u]).value < |s.nodes| == |c.rank|
    ensures c.rank[Wanted(s.workers[w]).value] < c.rank[Wanted(s.workers[u]).value]
  {
    var wk, n := s.workers[u], Wanted(s.workers[w]).value;
    HeldInRange(c, s, committed, u, n);
    assert WorkerOk(c, s.nodes, wk) && JobOk(c, |s.nodes|, wk.jobs[0]);
    var i: nat :| i < HeldCount(wk) && Touches(wk.jobs[0], i, n);
  }

  ghost predicate Chain(s: State, p: seq<nat>) {
    forall i: nat :: i + 1 < |p| ==> WaitsFor(s, p[i], p[i + 1])
  }

  lemma {:induction false} ChainClimbs(c: Setting, s: State, committed: seq<Sums>, p: seq<nat>, j: nat)
    requires Inv(c, s, committed) && Chain(s, p) && 0 < j && j + 1 < |p|
    ensures WaitsFor(s, p[0], p[1]) && WaitsFor(s, p[j], p[j + 1]) && |c.rank| == |s.nodes|
    ensures Wanted(s.workers[p[0]]).value < |s.nodes| && Wanted(s.workers[p[j]]).value < |s.nodes|
    ensures c.rank[Wanted(s.workers[p[0]]).value] < c.rank[Wanted(s.workers[p[j]]).value]
    decreases j
  {
    assert WaitsFor(s, p[j - 1], p[(j - 1) + 1]) && WaitsFor(s, p[0], p[0 + 1]) && WaitsFor(s, p[j], p[j + 1]);
    WaitingClimbs(c, s, committed, p[j - 1], p[j]);
    if j > 1 {
      ChainClimbs(c, s, committed, p, j - 1);
    }
  }

  // No worker ever waits, directly or through others, for itself.
  lemma NoWaitingCycle(c: Setting, init: seq<Sums>, jobs: seq<seq<Job>>, schedule: seq<nat>, p: seq<nat>)
    requires JobsOk(c, |init|, jobs) && |p| >= 2
    requires Chain(Run(c, Start(init, jobs), schedule), p)
    ensures p[0] != p[|p| - 1]
  {
    var s := Run(c, Start(init, jobs), schedule);
    RunKeeps(c, init, jobs, schedule);
    if p[0] == p[|p| - 1] {
      var around := p + [p[1]];
      forall i: nat | i + 1 < |around| ensures WaitsFor(s, around[i], around[i + 1]) {
        if i + 1 < |p| {
          assert WaitsFor(s, p[i], p[i + 1]);
        } else {
          assert WaitsFor(s, p[0], p[0 + 1]);
        }
      }
      ChainClimbs(c, s, Serial(c, init, s.log), around, |p| - 1);
    }
  }

  function Highest(rank: seq<int>): (h: int)
    ensures forall n: nat :: n < |rank| ==> rank[n] <= h
    decreases |rank|
  {
    if rank == [] then 0 else
      var h := Highest(rank[..|rank| - 1]);
      assert forall n: nat :: n < |rank| - 1 ==> rank[n] == rank[..|rank| - 1][n];
      if rank[|rank| - 1] > h then rank[|rank| - 1] else h
  }

  function StepsToTop(c: Setting, wk: Worker): nat {
    match Wanted(wk)
    case Some(n) => if n < |c.rank| then Highest(c.rank) - c.rank[n] + 1 else 0
    case None => 0
  }

  // Following the waiting from one holder to the next ends at a worker that can step.
  lemma {:induction false} HolderSteps(c: Setting, s: State, committed: seq<Sums>, w: nat) returns (u: nat)
    requires Inv(c, s, committed) && w < |s.workers| && s.workers[w].jobs != []
    ensures u < |s.workers| && Next(c, s, u).Some?
    decreases StepsToTop(c, s.workers[w])
  {
    if Next(c, s, w).Some? {
      u := w;
    } else {
      var v := StuckWaits(c, s, committed, w);
      if Next(c, s, v).Some? {
        u := v;
      } else {
        var x := StuckWaits(c, s, committed, v);
        WaitingClimbs(c, s, committed, w, v);
        u := HolderSteps(c, s, committed, v);
      }
    }
  }


  // No deadlock: in every state of every run, unless all the workers have finished, one can step.
  lemma NeverStuck(c: Setting, init: seq<Sums>, jobs: seq<seq<Job>>, schedule: seq<nat>)
    requires JobsOk(c, |init|, jobs)
    ensures var s := Run(c, Start(init, jobs), schedule);
      (exists w: nat :: w < |s.workers| && s.workers[w].jobs != [])
      ==> (exists u: nat :: u < |s.workers| && Next(c, s, u).Some?)
  {
    var s := Run(c, Start(init, jobs), schedule);
    RunKeeps(c, init, jobs, schedule);
    if w: nat :| w < |s.workers| && s.workers[w].jobs != [] {
      var u := HolderSteps(c, s, Serial(c, init, s.log), w);
    }
  }

  // When every worker has finished, the nodes are the serial result of a log that interleaves all
  // the jobs of all the workers.
  lemma FinishedIsSerial(c: Setting, init: seq<Sums>, jobs: seq<seq<Job>>, schedule: seq<nat>)
    requires JobsOk(c, |init|, jobs)
    requires var s := Run(c, Start(init, jobs), schedule); forall w: nat :: w < |s.workers| ==> s.workers[w].jobs == []
    ensures var s := Run(c, Start(init, jobs), schedule);
      && s.nodes == Serial(c, init, s.log)
      && forall w: nat :: w < |jobs| ==> DecidedBy(s.log, w) == jobs[w]
  {
    var s := Run(c, Start(init, jobs), schedule);
    RunKeeps(c, init, jobs, schedule);
    forall n: nat | n < |init| ensures s.nodes[n] == Serial(c, init, s.log)[n] {
      UnlockedIsSerial(c, init, jobs, schedule, n);
      assert LockOk(s, n);
    }
    forall w: nat | w < |jobs| ensures DecidedBy(s.log, w) == jobs[w] {
      ProgramOrder(c, init, jobs, schedule, w);
    }
  }

  // ---- Conservation ----

  datatype Which = Regret | Strategy

  function Accumulator(which: Which, node: Sums, a: nat): real {
    if which.Regret? then At(node.regrets, a) else At(node.strategies, a)
  }

  function DeltaOf(which: Which, e: Entry, a: nat): real {
    if which.Regret? then At(e.regrets, a) else At(e.strategies, a)
  }

  // What the first k entries of a job add to action a of node n.
  function JobDelta(which: Which, job: Job, n: nat, a: nat, k: nat): real
    requires k <= |job.entries|
    decreases k
  {
    if k == 0 then 0.0 else
      JobDelta(which, job, n, a, k - 1) + if job.entries[k - 1].node == n then DeltaOf(which, job.entries[k - 1], a) else 0.0
  }

  // The deltas of all the jobs of the log that were committed.
  function CommittedDelta(c: Setting, init: seq<Sums>, which: Which, log: seq<Record>, n: nat, a: nat): real
    decreases |log|
  {
    if log == [] then 0.0 else
      var before, job := log[..|log| - 1], log[|log| - 1].job;
      CommittedDelta(c, init, which, before, n, a)
      + if Accepts(c, Serial(c, init, before), job) then JobDelta(which, job, n, a, |job.entries|) else 0.0
  }

  predicate Clamps(job: Job) {
    job.mode.Blocking? && job.mode.plus
  }

  // The number of actions of each node, which no commit changes.
  predicate ActionCounts(which: Which, node: Sums, a: nat) {
    a < if which.Regret? then |node.regrets| else |node.strategies|
  }

  lemma {:induction false} AppliedAdds(which: Which, nodes: seq<Sums>, job: Job, n: nat, a: nat, k: nat)
    requires n < |nodes| && k <= |job.entries| && ActionCounts(which, nodes[n], a)
    requires which.Strategy? || !Clamps(job)
    ensures ActionCounts(which, Applied(nodes, job, k)[n], a)
    ensures Accumulator(which, Applied(nodes, job, k)[n], a) == Accumulator(which, nodes[n], a) + JobDelta(which, job, n, a, k)
    decreases k
  {
    if k > 0 {
      AppliedAdds(which, nodes, job, n, a, k - 1);
    }
  }

  // Every strategy sum is its initial value plus the committed deltas, and so is every regret sum
  // that no committing worker clamps: nothing is lost, nothing is counted twice.
  lemma {:induction false} Conservation(c: Setting, init: seq<Sums>, which: Which, log: seq<Record>, n: nat, a: nat)
    requires n < |init| && ActionCounts(which, init[n], a)
    requires which.Strategy? || forall k: nat :: k < |log| ==> !Clamps(log[k].job)
    ensures ActionCounts(which, Serial(c, init, log)[n], a)
    ensures Accumulator(which, Serial(c, init, log)[n], a)
         == Accumulator(which, init[n], a) + CommittedDelta(c, init, which, log, n, a)
    decreases |log|
  {
    if log != [] {
      var before, job := log[..|log| - 1], log[|log| - 1].job;
      Conservation(c, init, which, before, n, a);
      AppliedAdds(which, Serial(c, init, before), job, n, a, |job.entries|);
    }
  }

  // With clamping, a regret that the last commit touched is not negative, and it is the larger of
  // zero and what plain addition would have given.
  lemma ClampedCommit(c: Setting, nodes: seq<Sums>, job: Job, i: nat, a: nat)
    requires JobOk(c, |nodes|, job) && Accepts(c, nodes, job) && Clamps(job) && i < |job.entries|
    requires a < |nodes[job.entries[i].node].regrets|
    ensures var n := job.entries[i].node;
      var plain := nodes[n].regrets[a] + At(job.entries[i].regrets, a);
      && a < |Atomic(c, nodes, job)[n].regrets|
      && Atomic(c, nodes, job)[n].regrets[a] == if plain < 0.0 then 0.0 else plain
  {
    assert Touches(job, i, job.entries[i].node);
    AppliedAt(c, nodes, job, |job.entries|, job.entries[i].node);
  }
}
