// Which commits are accepted, and what each of them changes, in every run of the concurrent commit.
module CommitDecisions {
  import opened Commit

  // One number of actions for a node and for every entry meant for it.
  ghost predicate Shapely(node: Sums, e: Entry) {
    |e.regrets| == |e.strategies| == |node.regrets| == |node.strategies|
  }

  ghost predicate ShapelyJob(nodes: seq<Sums>, job: Job) {
    forall i: nat :: i < |job.entries| && job.entries[i].node < |nodes| ==> Shapely(nodes[job.entries[i].node], job.entries[i])
  }

  ghost predicate ShapelyJobs(nodes: seq<Sums>, jobs: seq<seq<Job>>) {
    forall w: nat, j: nat :: w < |jobs| && j < |jobs[w]| ==> ShapelyJob(nodes, jobs[w][j])
  }

  ghost predicate SameShape(node: Sums, node': Sums) {
    |node'.regrets| == |node.regrets| && |node'.strategies| == |node.strategies|
  }

  // ---- One commit ----

  lemma AtomicShape(c: Setting, nodes: seq<Sums>, job: Job, n: nat)
    requires n < |nodes|
    ensures SameShape(nodes[n], Atomic(c, nodes, job)[n])
  {
    AppliedShape(nodes, job, |job.entries|, n);
  }

  lemma {:induction false} AppliedShape(nodes: seq<Sums>, job: Job, k: nat, n: nat)
    requires k <= |job.entries| && n < |nodes|
    ensures SameShape(nodes[n], Applied(nodes, job, k)[n])
    decreases k
  {
    if k > 0 {
      AppliedShape(nodes, job, k - 1, n);
    }
  }

  // The deltas of e, and the sums they lead to, are all in range.
  ghost predicate InRange(max: real, node: Sums, e: Entry)
    requires Shapely(node, e)
  {
    forall a :: 0 <= a < |e.regrets| ==>
      && -max <= e.regrets[a] <= max
      && 0.0 <= e.strategies[a] <= max
      && -max <= node.regrets[a] + e.regrets[a] <= max
      && 0.0 <= node.strategies[a] + e.strategies[a] <= max
  }

  lemma ValidIsInRange(c: Setting, node: Sums, e: Entry)
    requires Shapely(node, e)
    ensures Valid(c, node, e) <==> InRange(c.max, node, e)
  {
  }

  lemma AcceptsIsInRange(c: Setting, nodes: seq<Sums>, job: Job)
    requires JobOk(c, |nodes|, job) && ShapelyJob(nodes, job)
    ensures Accepts(c, nodes, job) <==>
      forall i: nat :: i < |job.entries| ==> InRange(c.max, nodes[job.entries[i].node], job.entries[i])
  {
    forall i: nat | i < |job.entries|
      ensures Valid(c, nodes[job.entries[i].node], job.entries[i]) <==> InRange(c.max, nodes[job.entries[i].node], job.entries[i])
    {
      ValidIsInRange(c, nodes[job.entries[i].node], job.entries[i]);
    }
  }

  // A job that stays in range adds to every node its own deltas, with clamping where the job clamps.
  lemma AcceptedAdds(c: Setting, nodes: seq<Sums>, job: Job, i: nat, a: nat)
    requires JobOk(c, |nodes|, job) && ShapelyJob(nodes, job) && Accepts(c, nodes, job)
    requires i < |job.entries| && a < |job.entries[i].regrets|
    ensures var n, e := job.entries[i].node, job.entries[i];
      && a < |Atomic(c, nodes, job)[n].regrets| && a < |Atomic(c, nodes, job)[n].strategies|
      && Atomic(c, nodes, job)[n].strategies[a] == nodes[n].strategies[a] + e.strategies[a]
      && Atomic(c, nodes, job)[n].regrets[a] ==
           if job.mode.Blocking? && job.mode.plus && nodes[n].regrets[a] + e.regrets[a] < 0.0 then 0.0
           else nodes[n].regrets[a] + e.regrets[a]
  {
    assert Touches(job, i, job.entries[i].node);
    AppliedAt(c, nodes, job, |job.entries|, job.entries[i].node);
  }

  lemma AcceptedLeaves(c: Setting, nodes: seq<Sums>, job: Job, n: nat)
    requires JobOk(c, |nodes|, job) && n < |nodes| && forall i: nat :: i < |job.entries| ==> job.entries[i].node != n
    ensures Atomic(c, nodes, job)[n] == nodes[n]
  {
    AppliedAt(c, nodes, job, |job.entries|, n);
  }

  // ---- Whole runs ----

  lemma {:induction false} SerialShape(c: Setting, init: seq<Sums>, log: seq<Record>, n: nat)
    requires n < |init|
    ensures SameShape(init[n], Serial(c, init, log)[n])
    decreases |log|
  {
    if log != [] {
      SerialShape(c, init, log[..|log| - 1], n);
      AtomicShape(c, Serial(c, init, log[..|log| - 1]), log[|log| - 1].job, n);
    }
  }

  ghost predicate FitsJob(c: Setting, init: seq<Sums>, job: Job) {
    JobOk(c, |init|, job) && ShapelyJob(init, job)
  }

  // Every job of a worker and of the log is one of those given at the beginning.
  ghost predicate AllFit(c: Setting, init: seq<Sums>, s: State) {
    && (forall w: nat, j: nat :: w < |s.workers| && j < |s.workers[w].jobs| ==> FitsJob(c, init, s.workers[w].jobs[j]))
    && (forall k: nat :: k < |s.log| ==> FitsJob(c, init, s.log[k].job))
  }

  lemma JobsOfStep(c: Setting, s: State, w: nat)
    requires w < |s.workers| && Next(c, s, w).Some?
    ensures var s' := Next(c, s, w).value;
      && |s'.workers| == |s.workers|
      && (s'.workers[w].jobs == s.workers[w].jobs || (s.workers[w].jobs != [] && s'.workers[w].jobs == s.workers[w].jobs[1..]))
  {
  }

  lemma StepFits(c: Setting, init: seq<Sums>, s: State, w: nat)
    requires w < |s.workers| && Next(c, s, w).Some? && AllFit(c, init, s)
    ensures AllFit(c, init, Next(c, s, w).value)
  {
    LogOfStep(c, s, w);
    JobsOfStep(c, s, w);
  }

  lemma {:induction false} RunFits(c: Setting, init: seq<Sums>, jobs: seq<seq<Job>>, schedule: seq<nat>)
    requires JobsOk(c, |init|, jobs) && ShapelyJobs(init, jobs)
    ensures AllFit(c, init, Run(c, Start(init, jobs), schedule))
    decreases |schedule|
  {
    if schedule != [] {
      var front, w := schedule[..|schedule| - 1], schedule[|schedule| - 1];
      RunFits(c, init, jobs, front);
      var s := Run(c, Start(init, jobs), front);
      if w < |s.workers| && Next(c, s, w).Some? {
        StepFits(c, init, s, w);
      }
    }
  }

  lemma FitsLater(c: Setting, init: seq<Sums>, log: seq<Record>, job: Job)
    requires FitsJob(c, init, job)
    ensures JobOk(c, |init|, job) && ShapelyJob(Serial(c, init, log), job)
  {
    forall i: nat | i < |job.entries| && job.entries[i].node < |init|
      ensures Shapely(Serial(c, init, log)[job.entries[i].node], job.entries[i])
    {
      SerialShape(c, init, log, job.entries[i].node);
    }
  }

  lemma OneMoreDecided(c: Setting, init: seq<Sums>, log: seq<Record>, k: nat)
    requires k < |log|
    ensures Serial(c, init, log[..k + 1]) == Atomic(c, Serial(c, init, log[..k]), log[k].job)
  {
    assert log[..k + 1][..k] == log[..k];
  }

  // What the decision of job makes of the nodes there were.
  ghost predicate Decided(max: real, before: seq<Sums>, after: seq<Sums>, job: Job)
    requires ShapelyJob(before, job) && ShapelyJob(after, job) && |before| == |after|
    requires forall i: nat :: i < |job.entries| ==> job.entries[i].node < |before|
  {
    if forall i: nat, a: nat :: i < |job.entries| && a < |job.entries[i].regrets| ==>
      var e, node := job.entries[i], before[job.entries[i].node];
      && -max <= e.regrets[a] <= max && 0.0 <= e.strategies[a] <= max
      && -max <= node.regrets[a] + e.regrets[a] <= max && 0.0 <= node.strategies[a] + e.strategies[a] <= max
    then
      && (forall i: nat, a: nat :: i < |job.entries| && a < |job.entries[i].regrets| ==>
            var e, old_node, new_node := job.entries[i], before[job.entries[i].node], after[job.entries[i].node];
            var sum := old_node.regrets[a] + e.regrets[a];
            && new_node.strategies[a] == old_node.strategies[a] + e.strategies[a]
            && new_node.regrets[a] == if job.mode.Blocking? && job.mode.plus && sum < 0.0 then 0.0 else sum)
      && (forall n: nat :: n < |before| && (forall i: nat :: i < |job.entries| ==> job.entries[i].node != n) ==> after[n] == before[n])
    else after == before
  }

  lemma AtomicDecides(c: Setting, nodes: seq<Sums>, job: Job)
    requires JobOk(c, |nodes|, job) && ShapelyJob(nodes, job) && ShapelyJob(Atomic(c, nodes, job), job)
    ensures Decided(c.max, nodes, Atomic(c, nodes, job), job)
  {
    AcceptsIsInRange(c, nodes, job);
    if Accepts(c, nodes, job) {
      forall i: nat, a: nat | i < |job.entries| && a < |job.entries[i].regrets|
        ensures var n, e := job.entries[i].node, job.entries[i];
          && Atomic(c, nodes, job)[n].strategies[a] == nodes[n].strategies[a] + e.strategies[a]
          && Atomic(c, nodes, job)[n].regrets[a] ==
               if job.mode.Blocking? && job.mode.plus && nodes[n].regrets[a] + e.regrets[a] < 0.0 then 0.0
               else nodes[n].regrets[a] + e.regrets[a]
      {
        AcceptedAdds(c, nodes, job, i, a);
      }
      forall n: nat | n < |nodes| && forall i: nat :: i < |job.entries| ==> job.entries[i].node != n
        ensures Atomic(c, nodes, job)[n] == nodes[n]
      {
        AcceptedLeaves(c, nodes, job, n);
      }
    }
  }

  // In every run, a decided commit adds all its deltas exactly when every delta and every sum they lead
  // to is finite, no strategy delta is negative and no strategy sum would be; otherwise it changes
  // nothing. The k-th decision takes the nodes from what the first k made of them.
  lemma EveryDecision(c: Setting, init: seq<Sums>, jobs: seq<seq<Job>>, schedule: seq<nat>, k: nat)
    requires JobsOk(c, |init|, jobs) && ShapelyJobs(init, jobs)
    requires k < |Run(c, Start(init, jobs), schedule).log|
    ensures var log := Run(c, Start(init, jobs), schedule).log;
      var before, after, job := Serial(c, init, log[..k]), Serial(c, init, log[..k + 1]), log[k].job;
      && ShapelyJob(before, job) && ShapelyJob(after, job)
      && (forall i: nat :: i < |job.entries| ==> job.entries[i].node < |before|)
      && Decided(c.max, before, after, job)
  {
    var log := Run(c, Start(init, jobs), schedule).log;
    RunFits(c, init, jobs, schedule);
    assert FitsJob(c, init, log[k].job);
    OneMoreDecided(c, init, log, k);
    FitsLater(c, init, log[..k], log[k].job);
    FitsLater(c, init, log[..k + 1], log[k].job);
    AtomicDecides(c, Serial(c, init, log[..k]), log[k].job);
  }

  // ---- The nodes themselves ----

  // Finite sums, and no negative strategy sum.
  ghost predicate Healthy(max: real, node: Sums) {
    && (forall a :: 0 <= a < |node.regrets| ==> -max <= node.regrets[a] <= max)
    && (forall a :: 0 <= a < |node.strategies| ==> 0.0 <= node.strategies[a] <= max)
  }

  ghost predicate AllHealthy(max: real, init: seq<Sums>, nodes: seq<Sums>) {
    |nodes| == |init| && forall n: nat :: n < |nodes| ==> SameShape(init[n], nodes[n]) && Healthy(max, nodes[n])
  }

  lemma PreparedIsHealthy(c: Setting, node: Sums, e: Entry, mode: Mode)
    requires Shapely(node, e) && Valid(c, node, e)
    ensures Healthy(c.max, Final(mode, Prepared(node, e))) && SameShape(node, Final(mode, Prepared(node, e)))
    ensures Healthy(c.max, Prepared(node, e)) && SameShape(node, Prepared(node, e))
  {
    ValidIsInRange(c, node, e);
  }

  lemma PublishingHealthy(c: Setting, init: seq<Sums>, s: State, w: nat, job: Job, values: seq<Sums>, published: nat)
    requires w < |s.workers| && NextPublishing(s, w, job, values, published).Some? && AllHealthy(c.max, init, s.nodes)
    requires FitsJob(c, init, job)
    requires published < |values| == |job.entries| ==> Ready(c, s.nodes, job, values, published)
    requires |values| == |job.entries|
    ensures AllHealthy(c.max, init, NextPublishing(s, w, job, values, published).value.nodes)
  {
    if published < |job.entries| {
      var e := job.entries[published];
      assert Ready(c, s.nodes, job, values, published);
      assert SameShape(init[e.node], s.nodes[e.node]) && Shapely(init[e.node], e);
      PreparedIsHealthy(c, s.nodes[e.node], e, job.mode);
    }
  }

  lemma OnlyPublishingWrites(c: Setting, s: State, w: nat)
    requires w < |s.workers| && Next(c, s, w).Some? && !s.workers[w].phase.Publishing?
    ensures Next(c, s, w).value.nodes == s.nodes
  {
  }

  lemma StepHealthy(c: Setting, init: seq<Sums>, s: State, committed: seq<Sums>, w: nat)
    requires Inv(c, s, committed) && AllFit(c, init, s) && AllHealthy(c.max, init, s.nodes)
    requires w < |s.workers| && Next(c, s, w).Some?
    ensures AllHealthy(c.max, init, Next(c, s, w).value.nodes)
  {
    var wk := s.workers[w];
    assert WorkerOk(c, s.nodes, wk);
    if wk.phase.Publishing? {
      PublishingHealthy(c, init, s, w, wk.jobs[0], wk.phase.values, wk.phase.published);
    } else {
      OnlyPublishingWrites(c, s, w);
    }
  }

  // In every state of every run, locked or not, half written or not, every node whose sums were finite
  // and strategy sums not negative at the beginning has such sums still.
  lemma {:induction false} SumsStayHealthy(c: Setting, init: seq<Sums>, jobs: seq<seq<Job>>, schedule: seq<nat>)
    requires JobsOk(c, |init|, jobs) && ShapelyJobs(init, jobs) && AllHealthy(c.max, init, init)
    ensures AllHealthy(c.max, init, Run(c, Start(init, jobs), schedule).nodes)
    decreases |schedule|
  {
    if schedule != [] {
      var front, w := schedule[..|schedule| - 1], schedule[|schedule| - 1];
      SumsStayHealthy(c, init, jobs, front);
      RunFits(c, init, jobs, front);
      RunKeeps(c, init, jobs, front);
      var s := Run(c, Start(init, jobs), front);
      if w < |s.workers| && Next(c, s, w).Some? {
        StepHealthy(c, init, s, Serial(c, init, s.log), w);
      }
    }
  }

  // ---- A worker by itself ----

  // How many turns a worker that nobody disturbs still needs for its first job at most.
  function TurnsForJob(wk: Worker): nat {
    if wk.jobs == [] then 0 else
      var n := |wk.jobs[0].entries|;
      match wk.phase
      case Locking(held) => if held <= n then (n - held) + 3 * n + 4 else 3 * n + 4
      case Releasing(_, _) => 0
      case Watching(_) => 0
      case Preparing(values) => if |values| <= n then (n - |values|) + 2 * n + 3 else 2 * n + 3
      case Publishing(_, published) => if published <= n then (n - published) + n + 2 else n + 2
      case Unlocking(held) => held + 1
  }

  function TurnsForJobs(jobs: seq<Job>): nat
    decreases |jobs|
  {
    if jobs == [] then 0 else 4 * |jobs[0].entries| + 4 + TurnsForJobs(jobs[1..])
  }

  function TurnsLeft(wk: Worker): nat {
    if wk.jobs == [] then 0 else TurnsForJob(wk) + TurnsForJobs(wk.jobs[1..])
  }

  // Nobody else holds a lock, and this worker is not backing off.
  ghost predicate Alone(c: Setting, s: State, committed: seq<Sums>) {
    && Inv(c, s, committed) && |s.workers| == 1
    && !(s.workers[0].phase.Releasing? || s.workers[0].phase.Watching?)
  }

  lemma LoneLockIsFree(c: Setting, s: State, committed: seq<Sums>, held: nat)
    requires Alone(c, s, committed) && s.workers[0].jobs != [] && s.workers[0].phase == Locking(held)
    requires held < |s.workers[0].jobs[0].entries|
    ensures var n := s.workers[0].jobs[0].entries[held].node; n < |s.locks| && !s.locks[n]
  {
    var wk := s.workers[0];
    var n := wk.jobs[0].entries[held].node;
    assert WorkerOk(c, s.nodes, wk) && JobOk(c, |s.nodes|, wk.jobs[0]);
    assert LockOk(s, n);
    assert !Holds(wk, n);
  }

  lemma LoneCanStep(c: Setting, s: State, committed: seq<Sums>)
    requires Alone(c, s, committed) && s.workers[0].jobs != []
    ensures Next(c, s, 0).Some?
  {
    var wk := s.workers[0];
    assert WorkerOk(c, s.nodes, wk) && JobOk(c, |s.nodes|, wk.jobs[0]);
    if wk.phase.Locking? && wk.phase.held < |wk.jobs[0].entries| {
      LoneLockIsFree(c, s, committed, wk.phase.held);
    }
    if wk.phase.Preparing? && |wk.phase.values| < |wk.jobs[0].entries| {
      assert wk.jobs[0].entries[|wk.phase.values|].node < |s.nodes|;
    }
    if wk.phase.Publishing? && wk.phase.published < |wk.jobs[0].entries| {
      assert wk.jobs[0].entries[wk.phase.published].node < |s.nodes|;
    }
  }

  lemma LockingShortens(c: Setting, s: State, held: nat)
    requires |s.workers| == 1 && s.workers[0].jobs != [] && s.workers[0].phase == Locking(held)
    requires held <= |s.workers[0].jobs[0].entries| && Next(c, s, 0).Some?
    requires held < |s.workers[0].jobs[0].entries| ==>
      var n := s.workers[0].jobs[0].entries[held].node; n < |s.locks| && !s.locks[n]
    ensures var s' := Next(c, s, 0).value;
      && |s'.workers| == 1 && !(s'.workers[0].phase.Releasing? || s'.workers[0].phase.Watching?)
      && TurnsLeft(s'.workers[0]) < TurnsLeft(s.workers[0])
  {
  }

  lemma CommittingShortens(c: Setting, s: State)
    requires |s.workers| == 1 && s.workers[0].jobs != [] && Next(c, s, 0).Some?
    requires s.workers[0].phase.Preparing? || s.workers[0].phase.Publishing? || s.workers[0].phase.Unlocking?
    requires s.workers[0].phase.Preparing? ==> |s.workers[0].phase.values| <= |s.workers[0].jobs[0].entries|
    ensures var s' := Next(c, s, 0).value;
      && |s'.workers| == 1 && !(s'.workers[0].phase.Releasing? || s'.workers[0].phase.Watching?)
      && TurnsLeft(s'.workers[0]) < TurnsLeft(s.workers[0])
  {
  }

  lemma LoneShortens(c: Setting, s: State, committed: seq<Sums>)
    requires Alone(c, s, committed) && s.workers[0].jobs != [] && Next(c, s, 0).Some?
    ensures var s' := Next(c, s, 0).value;
      && |s'.workers| == 1 && !(s'.workers[0].phase.Releasing? || s'.workers[0].phase.Watching?)
      && TurnsLeft(s'.workers[0]) < TurnsLeft(s.workers[0])
  {
    var wk := s.workers[0];
    assert WorkerOk(c, s.nodes, wk);
    if wk.phase.Locking? {
      if wk.phase.held < |wk.jobs[0].entries| {
        LoneLockIsFree(c, s, committed, wk.phase.held);
      }
      LockingShortens(c, s, wk.phase.held);
    } else {
      CommittingShortens(c, s);
    }
  }

  lemma LoneStep(c: Setting, init: seq<Sums>, s: State)
    requires Alone(c, s, Serial(c, init, s.log)) && s.workers[0].jobs != []
    ensures Next(c, s, 0).Some?
    ensures var s' := Next(c, s, 0).value;
      Alone(c, s', Serial(c, init, s'.log)) && TurnsLeft(s'.workers[0]) < TurnsLeft(s.workers[0])
  {
    LoneCanStep(c, s, Serial(c, init, s.log));
    LoneShortens(c, s, Serial(c, init, s.log));
    NextKeeps(c, init, s, 0);
  }

  lemma {:induction false} LoneRun(c: Setting, init: seq<Sums>, jobs: seq<seq<Job>>, schedule: seq<nat>)
    requires JobsOk(c, |init|, jobs) && |jobs| == 1 && forall i :: 0 <= i < |schedule| ==> schedule[i] == 0
    ensures var s := Run(c, Start(init, jobs), schedule);
      && Alone(c, s, Serial(c, init, s.log))
      && (s.workers[0].jobs == [] || TurnsLeft(s.workers[0]) + |schedule| <= TurnsForJobs(jobs[0]))
    decreases |schedule|
  {
    if schedule == [] {
      StartOk(c, init, jobs);
    } else {
      var front := schedule[..|schedule| - 1];
      assert forall i :: 0 <= i < |front| ==> front[i] == schedule[i];
      LoneRun(c, init, jobs, front);
      var s := Run(c, Start(init, jobs), front);
      assert schedule[|schedule| - 1] == 0;
      if s.workers[0].jobs != [] {
        LoneStep(c, init, s);
      }
    }
  }

  lemma SomethingLeft(wk: Worker)
    requires wk.jobs != [] && !(wk.phase.Releasing? || wk.phase.Watching?)
    ensures TurnsLeft(wk) > 0
  {
  }

  lemma LoneIsDone(c: Setting, init: seq<Sums>, jobs: seq<seq<Job>>, schedule: seq<nat>)
    requires JobsOk(c, |init|, jobs) && |jobs| == 1 && forall i :: 0 <= i < |schedule| ==> schedule[i] == 0
    requires |schedule| >= TurnsForJobs(jobs[0])
    ensures var s := Run(c, Start(init, jobs), schedule); |s.workers| == 1 && s.workers[0].jobs == []
  {
    LoneRun(c, init, jobs, schedule);
    var wk := Run(c, Start(init, jobs), schedule).workers[0];
    if wk.jobs != [] {
      SomethingLeft(wk);
    }
  }

  // A worker by itself, backing off or not, has done all its jobs after four turns for each of their entries and four
  // for each job; the nodes are then what its jobs make of them one after another.
  lemma LoneWorkerFinishes(c: Setting, init: seq<Sums>, jobs: seq<seq<Job>>, schedule: seq<nat>)
    requires JobsOk(c, |init|, jobs) && |jobs| == 1 && forall i :: 0 <= i < |schedule| ==> schedule[i] == 0
    requires |schedule| >= TurnsForJobs(jobs[0])
    ensures var s := Run(c, Start(init, jobs), schedule);
      && |s.workers| == 1 && s.workers[0].jobs == [] && s.nodes == Serial(c, init, s.log)
      && DecidedBy(s.log, 0) == jobs[0]
  {
    LoneIsDone(c, init, jobs, schedule);
    FinishedIsSerial(c, init, jobs, schedule);
  }
}
