// Reading a node's regrets without its lock. Writers, one at a time under the lock, make the
// version odd, write the entries one by one and make it even again; a reader copies the entries
// one by one and keeps the copy only if the version was even and has not moved. Versions are
// unbounded here, and steps take effect in the order they are made.
module Seqlock {
  import RegretMatching

  datatype Option<T> = None | Some(value: T)

  // Publish writes prepared values, Apply adds deltas in place, Clamp lifts one negative entry.
  datatype Update = Publish(values: seq<real>) | Apply(deltas: seq<real>) | Clamp(index: nat)

  datatype Phase =
    | Idle
    | Locked(next: nat)
    | Writing(next: nat, written: nat)
    | Copying(version: nat, copy: seq<real>)

  // A writer makes the updates of each job under one hold of the lock; a reader reads for ever.
  datatype Thread = Writer(jobs: seq<seq<Update>>, phase: Phase) | Reader(phase: Phase, accepted: seq<Snapshot>)
  datatype Snapshot = Snapshot(version: nat, values: seq<real>)
  datatype Made = Made(writer: nat, update: Update)

  // history holds the array as it was before any update and after each; log the updates made.
  datatype State = State(
    regrets: seq<real>,
    version: nat,
    owner: Option<nat>,
    threads: seq<Thread>,
    history: seq<seq<real>>,
    log: seq<Made>)

  // What an update makes of entry i.
  function EntryAfter(u: Update, r: seq<real>, i: nat): real
    requires i < |r|
  {
    match u
    case Publish(values) => if i < |values| then values[i] else r[i]
    case Apply(deltas) => if i < |deltas| then r[i] + deltas[i] else r[i]
    case Clamp(index) => if i == index && r[i] < 0.0 then 0.0 else r[i]
  }

  function Effect(u: Update, r: seq<real>): (s: seq<real>)
    ensures |s| == |r|
  {
    seq(|r|, (i: nat) requires i < |r| => EntryAfter(u, r, i))
  }

  // Clamping an entry that is not negative does not even touch the version.
  predicate Skips(u: Update, r: seq<real>) {
    u.Clamp? && (u.index >= |r| || r[u.index] >= 0.0)
  }

  function With(s: State, t: nat, th: Thread): State
    requires t < |s.threads|
  {
    s.(threads := s.threads[t := th])
  }

  // ---- The steps ----

  function NextWriter(s: State, t: nat): Option<State>
    requires t < |s.threads| && s.threads[t].Writer?
  {
    var th := s.threads[t];
    if th.jobs == [] then None else
      var job := th.jobs[0];
      match th.phase
      case Idle => if s.owner.None? then Some(With(s.(owner := Some(t)), t, Writer(th.jobs, Locked(0)))) else None
      case Locked(next) =>
        if next >= |job| then
          Some(With(s.(owner := None), t, Writer(th.jobs[1..], Idle)))
        else if Skips(job[next], s.regrets) then
          Some(With(s, t, Writer(th.jobs, Locked(next + 1))))
        else
          Some(With(s.(version := s.version + 1), t, Writer(th.jobs, Writing(next, 0))))
      case Writing(next, written) =>
        if next >= |job| then None
        else if written < |s.regrets| then
          Some(With(s.(regrets := s.regrets[written := EntryAfter(job[next], s.regrets, written)]), t,
                    Writer(th.jobs, Writing(next, written + 1))))
        else
          Some(With(s.(version := s.version + 1, history := s.history + [s.regrets], log := s.log + [Made(t, job[next])]), t,
                    Writer(th.jobs, Locked(next + 1))))
      case Copying(_, _) => None
  }

  function NextReader(s: State, t: nat): Option<State>
    requires t < |s.threads| && s.threads[t].Reader?
  {
    var th := s.threads[t];
    match th.phase
    case Idle =>
      if s.version % 2 == 1 then Some(s) else Some(With(s, t, Reader(Copying(s.version, []), th.accepted)))
    case Copying(version, copy) =>
      if |copy| < |s.regrets| then
        Some(With(s, t, Reader(Copying(version, copy + [s.regrets[|copy|]]), th.accepted)))
      else if s.version != version then
        Some(With(s, t, Reader(Idle, th.accepted)))
      else
        Some(With(s, t, Reader(Idle, th.accepted + [Snapshot(version, copy)])))
    case _ => None
  }

  function Next(s: State, t: nat): Option<State>
    requires t < |s.threads|
  {
    if s.threads[t].Writer? then NextWriter(s, t) else NextReader(s, t)
  }

  function Run(s: State, schedule: seq<nat>): State
    decreases |schedule|
  {
    if schedule == [] then s else
      var r := Run(s, schedule[..|schedule| - 1]);
      var t := schedule[|schedule| - 1];
      if t < |r.threads| && Next(r, t).Some? then Next(r, t).value else r
  }

  // ---- What every step keeps ----

  function Last(s: State): seq<real>
    requires s.history != []
  {
    s.history[|s.history| - 1]
  }

  ghost predicate HistoryOk(s: State) {
    && |s.history| == |s.log| + 1 == s.version / 2 + 1
    && (forall j: nat :: j < |s.history| ==> |s.history[j]| == |s.regrets|)
    && forall j: nat :: j < |s.log| ==> s.history[j + 1] == Effect(s.log[j].update, s.history[j])
  }

  // Between updates the array is the last of the history; during one, the entries written so far
  // are already those of the next.
  ghost predicate Underway(s: State, u: Update, written: nat)
    requires s.history != []
  {
    && |Last(s)| == |s.regrets| && written <= |s.regrets|
    && forall i: nat :: i < |s.regrets| ==> s.regrets[i] == if i < written then EntryAfter(u, Last(s), i) else Last(s)[i]
  }

  ghost predicate WriterOk(s: State, t: nat)
    requires t < |s.threads| && s.history != []
  {
    var th := s.threads[t];
    th.Writer? ==>
      match th.phase
      case Idle => s.owner != Some(t)
      case Locked(_) => s.owner == Some(t) && s.version % 2 == 0 && th.jobs != []
      case Writing(next, written) =>
        && s.owner == Some(t) && s.version % 2 == 1 && th.jobs != [] && next < |th.jobs[0]|
        && Underway(s, th.jobs[0][next], written)
      case Copying(_, _) => false
  }

  ghost predicate SnapshotOk(s: State, x: Snapshot) {
    x.version % 2 == 0 && x.version / 2 < |s.history| && x.values == s.history[x.version / 2]
  }

  ghost predicate ReaderOk(s: State, t: nat)
    requires t < |s.threads|
  {
    var th := s.threads[t];
    th.Reader? ==>
      && s.owner != Some(t)
      && (forall i: nat :: i < |th.accepted| ==> SnapshotOk(s, th.accepted[i]))
      && match th.phase
         case Idle => true
         case Copying(version, copy) =>
           && version % 2 == 0 && version <= s.version && |copy| <= |s.regrets|
           && (version == s.version ==> copy == s.regrets[..|copy|])
         case _ => false
  }

  ghost predicate Inv(s: State) {
    && HistoryOk(s)
    && (s.version % 2 == 0 ==> s.regrets == Last(s))
    && (s.owner.Some? ==> s.owner.value < |s.threads|)
    && (s.owner.None? ==> s.version % 2 == 0)
    && forall t: nat :: t < |s.threads| ==> WriterOk(s, t) && ReaderOk(s, t)
  }

  // The other threads are not disturbed: writers because they do not hold the lock, readers
  // because the entries only move while the version is odd.
  lemma OthersKept(s: State, s': State, t: nat, u: nat)
    requires Inv(s) && t < |s.threads| && u < |s.threads| == |s'.threads| && u != t && s'.threads[u] == s.threads[u]
    requires s.version <= s'.version && |s'.regrets| == |s.regrets| && s.history <= s'.history
    requires s'.regrets != s.regrets || s'.version != s.version ==> s.owner == Some(t) && s'.owner == Some(t)
    requires s'.version == s.version && s.version % 2 == 0 ==> s'.regrets == s.regrets
    requires s'.owner == s.owner || ((s.owner.None? || s.owner == Some(t)) && (s'.owner.None? || s'.owner == Some(t)))
    requires s'.owner != Some(t) && s.owner != Some(t) ==> s'.history == s.history
    ensures s'.history != [] && WriterOk(s', u) && ReaderOk(s', u)
  {
    assert WriterOk(s, u) && ReaderOk(s, u);
    forall i: nat | s.threads[u].Reader? && i < |s.threads[u].accepted| ensures SnapshotOk(s', s.threads[u].accepted[i]) {
      assert SnapshotOk(s, s.threads[u].accepted[i]);
    }
  }

  lemma WriterKeeps(s: State, t: nat)
    requires Inv(s) && t < |s.threads| && s.threads[t].Writer? && NextWriter(s, t).Some?
    ensures Inv(NextWriter(s, t).value)
  {
    var s' := NextWriter(s, t).value;
    assert WriterOk(s, t);
    forall u: nat | u < |s'.threads| ensures WriterOk(s', u) && ReaderOk(s', u) {
      if u != t {
        OthersKept(s, s', t, u);
      }
    }
  }

  lemma ReaderKeeps(s: State, t: nat)
    requires Inv(s) && t < |s.threads| && s.threads[t].Reader? && NextReader(s, t).Some?
    ensures Inv(NextReader(s, t).value)
  {
    var s' := NextReader(s, t).value;
    assert ReaderOk(s, t);
    forall u: nat | u < |s'.threads| ensures WriterOk(s', u) && ReaderOk(s', u) {
      if u != t {
        OthersKept(s, s', t, u);
      } else if s.threads[t].phase.Copying? {
        var copy := s.threads[t].phase.copy;
        if |copy| < |s.regrets| {
          assert s.regrets[..|copy| + 1] == s.regrets[..|copy|] + [s.regrets[|copy|]];
        } else {
          assert s.regrets[..|s.regrets|] == s.regrets;
        }
      }
    }
  }

  // ---- Whole runs ----

  function Threads(jobs: seq<seq<seq<Update>>>, readers: nat): seq<Thread> {
    seq(|jobs|, (t: nat) requires t < |jobs| => Writer(jobs[t], Idle)) + seq(readers, _ => Reader(Idle, []))
  }

  function Start(regrets: seq<real>, jobs: seq<seq<seq<Update>>>, readers: nat): State {
    State(regrets, 0, None, Threads(jobs, readers), [regrets], [])
  }

  lemma {:induction false} RunKeeps(regrets: seq<real>, jobs: seq<seq<seq<Update>>>, readers: nat, schedule: seq<nat>)
    ensures Inv(Run(Start(regrets, jobs, readers), schedule))
    decreases |schedule|
  {
    if schedule != [] {
      RunKeeps(regrets, jobs, readers, schedule[..|schedule| - 1]);
      var s, t := Run(Start(regrets, jobs, readers), schedule[..|schedule| - 1]), schedule[|schedule| - 1];
      if t < |s.threads| && Next(s, t).Some? {
        if s.threads[t].Writer? {
          WriterKeeps(s, t);
        } else {
          ReaderKeeps(s, t);
        }
      }
    }
  }

  // Seqlock safety: in any interleaving, every copy that a reader has accepted is the complete
  // array as it stood between two updates; the history it comes from is that of whole updates.
  lemma AcceptedIsCommitted(regrets: seq<real>, jobs: seq<seq<seq<Update>>>, readers: nat, schedule: seq<nat>, t: nat, i: nat)
    requires var s := Run(Start(regrets, jobs, readers), schedule);
      t < |s.threads| && s.threads[t].Reader? && i < |s.threads[t].accepted|
    ensures var s := Run(Start(regrets, jobs, readers), schedule);
      HistoryOk(s) && SnapshotOk(s, s.threads[t].accepted[i])
  {
    RunKeeps(regrets, jobs, readers, schedule);
    var s := Run(Start(regrets, jobs, readers), schedule);
    assert ReaderOk(s, t);
  }

  // What the reader goes on to compute is regret matching on that array, as a locked reader would
  // have computed it then, and a probability distribution.
  lemma AcceptedStrategy(s: State, x: Snapshot)
    requires HistoryOk(s) && SnapshotOk(s, x) && |s.regrets| > 0
    ensures |x.values| == |s.regrets|
    ensures RegretMatching.Match(x.values) == RegretMatching.Match(s.history[x.version / 2])
    ensures RegretMatching.Distribution(RegretMatching.Match(x.values))
  {
    RegretMatching.MatchIsDistribution(x.values);
  }

  // ---- What the history is a history of ----

  // Publishing replaces the entries, applying adds to them, clamping lifts one that is negative to zero.
  lemma EffectMeans(u: Update, r: seq<real>, i: nat)
    requires i < |r|
    ensures match u
      case Publish(values) => |values| == |r| ==> Effect(u, r) == values
      case Apply(deltas) => |deltas| == |r| ==> Effect(u, r)[i] - r[i] == deltas[i]
      case Clamp(index) =>
        && (i == index && r[i] < 0.0 ==> Effect(u, r)[i] == 0.0)
        && (i != index || r[i] >= 0.0 ==> Effect(u, r)[i] == r[i])
  {
  }

  // A clamp is skipped exactly when it would change nothing.
  lemma SkippedIsIdle(u: Update, r: seq<real>)
    requires u.Clamp?
    ensures Skips(u, r) <==> Effect(u, r) == r
  {
    if u.index < |r| && Effect(u, r) == r {
      assert Effect(u, r)[u.index] == r[u.index];
    }
  }

  function Flat(jobs: seq<seq<Update>>): seq<Update> {
    if jobs == [] then [] else jobs[0] + Flat(jobs[1..])
  }

  // What a writer has still to do, an update under way included.
  function Remaining(th: Thread): seq<Update> {
    if th.Reader? || th.jobs == [] then [] else
      var done := if th.phase.Locked? || th.phase.Writing? then th.phase.next else 0;
      (if done <= |th.jobs[0]| then th.jobs[0][done..] else []) + Flat(th.jobs[1..])
  }

  lemma FirstRemaining(th: Thread)
    requires th.Writer? && th.jobs != [] && (th.phase.Locked? || th.phase.Writing?) && th.phase.next < |th.jobs[0]|
    ensures Remaining(th) != [] && Remaining(th)[0] == th.jobs[0][th.phase.next]
    ensures Remaining(th)[1..] == th.jobs[0][th.phase.next + 1..] + Flat(th.jobs[1..])
  {
    var job, next := th.jobs[0], th.phase.next;
    assert job[next..] == [job[next]] + job[next + 1..];
  }

  lemma NextJob(jobs: seq<seq<Update>>)
    requires jobs != []
    ensures [] + Flat(jobs[1..]) == Flat(jobs[1..])
    ensures jobs[1..] != [] ==> jobs[1..][0][0..] + Flat(jobs[1..][1..]) == Flat(jobs[1..])
  {
  }

  // A step of a writer makes the next update of its program, skips a clamp, or changes nothing of what remains.
  lemma WriterGoesOn(s: State, t: nat)
    requires Inv(s) && t < |s.threads| && s.threads[t].Writer? && NextWriter(s, t).Some?
    ensures var s' := NextWriter(s, t).value;
      var before, after := Remaining(s.threads[t]), Remaining(s'.threads[t]);
      || (s'.log == s.log && after == before)
      || (s'.log == s.log && before != [] && Skips(before[0], s.regrets) && after == before[1..])
      || (before != [] && s'.log == s.log + [Made(t, before[0])] && after == before[1..])
  {
    assert WriterOk(s, t);
    var th := s.threads[t];
    if (th.phase.Locked? || th.phase.Writing?) && th.phase.next < |th.jobs[0]| {
      FirstRemaining(th);
    }
    if th.phase.Locked? && th.phase.next >= |th.jobs[0]| {
      NextJob(th.jobs);
    }
  }

  // The updates that writer t has made, in order.
  function MadeBy(log: seq<Made>, t: nat): seq<Update>
    decreases |log|
  {
    if log == [] then [] else
      var before := MadeBy(log[..|log| - 1], t);
      if log[|log| - 1].writer == t then before + [log[|log| - 1].update] else before
  }

  lemma MadeOneMore(log: seq<Made>, m: Made, t: nat)
    ensures MadeBy(log + [m], t) == MadeBy(log, t) + if m.writer == t then [m.update] else []
  {
    assert (log + [m])[..|log|] == log;
  }

  // made is done in its order, except that some clamps may be missing.
  ghost predicate ButForClamps(done: seq<Update>, made: seq<Update>)
    decreases |done|
  {
    if done == [] then made == [] else
      var n := |done| - 1;
      || (made != [] && made[|made| - 1] == done[n] && ButForClamps(done[..n], made[..|made| - 1]))
      || (done[n].Clamp? && ButForClamps(done[..n], made))
  }

  lemma ButForOneMore(done: seq<Update>, made: seq<Update>, u: Update)
    requires ButForClamps(done, made)
    ensures ButForClamps(done + [u], made + [u])
    ensures u.Clamp? ==> ButForClamps(done + [u], made)
  {
    assert (done + [u])[..|done|] == done && (made + [u])[..|made|] == made;
  }

  lemma Moved(done: seq<Update>, before: seq<Update>)
    requires before != []
    ensures done + [before[0]] + before[1..] == done + before
  {
    assert before == [before[0]] + before[1..];
  }

  lemma OtherStep(s: State, t: nat, u: nat)
    requires Inv(s) && t < |s.threads| && u < |s.threads| && u != t && Next(s, u).Some?
    ensures var s' := Next(s, u).value;
      |s'.threads| == |s.threads| && s'.threads[t] == s.threads[t] && MadeBy(s'.log, t) == MadeBy(s.log, t)
  {
    var s' := Next(s, u).value;
    if s'.log != s.log {
      MadeOneMore(s.log, s'.log[|s.log|], t);
    }
  }

  lemma OwnStep(s: State, t: nat, done: seq<Update>) returns (done': seq<Update>)
    requires Inv(s) && t < |s.threads| && s.threads[t].Writer? && Next(s, t).Some? && ButForClamps(done, MadeBy(s.log, t))
    ensures var s' := Next(s, t).value;
      && |s'.threads| == |s.threads| && s'.threads[t].Writer?
      && done' + Remaining(s'.threads[t]) == done + Remaining(s.threads[t]) && ButForClamps(done', MadeBy(s'.log, t))
  {
    WriterGoesOn(s, t);
    var s', before := Next(s, t).value, Remaining(s.threads[t]);
    done' := done;
    if Remaining(s'.threads[t]) != before || s'.log != s.log {
      done' := done + [before[0]];
      Moved(done, before);
      ButForOneMore(done, MadeBy(s.log, t), before[0]);
      MadeOneMore(s.log, Made(t, before[0]), t);
    }
  }

  lemma StartRemains(jobs: seq<seq<Update>>)
    ensures Remaining(Writer(jobs, Idle)) == Flat(jobs)
  {
  }

  // Every writer's program is made in its order: at any point of any run what it has made, clamps that had nothing to do
  // left out, and what remains are together its jobs.
  lemma {:induction false} ProgramsAreMade(regrets: seq<real>, jobs: seq<seq<seq<Update>>>, readers: nat, schedule: seq<nat>, t: nat)
    returns (done: seq<Update>)
    requires t < |jobs|
    ensures var s := Run(Start(regrets, jobs, readers), schedule);
      && t < |s.threads| && s.threads[t].Writer?
      && done + Remaining(s.threads[t]) == Flat(jobs[t]) && ButForClamps(done, MadeBy(s.log, t))
    decreases |schedule|
  {
    if schedule == [] {
      done := [];
      StartRemains(jobs[t]);
      assert [] + Flat(jobs[t]) == Flat(jobs[t]);
    } else {
      var front, u := schedule[..|schedule| - 1], schedule[|schedule| - 1];
      done := ProgramsAreMade(regrets, jobs, readers, front, t);
      RunKeeps(regrets, jobs, readers, front);
      var s := Run(Start(regrets, jobs, readers), front);
      if u < |s.threads| && Next(s, u).Some? {
        if u == t {
          done := OwnStep(s, t, done);
        } else {
          OtherStep(s, t, u);
        }
      }
    }
  }

  // ---- A reader left alone ----

  ghost predicate AllTurns(schedule: seq<nat>, t: nat) {
    forall i :: 0 <= i < |schedule| ==> schedule[i] == t
  }

  // What a reader has copied after k of its turns, if nobody else takes one.
  lemma {:induction false} Copies(s: State, t: nat, schedule: seq<nat>)
    requires t < |s.threads| && s.threads[t].Reader? && s.threads[t].phase.Idle? && s.version % 2 == 0
    requires AllTurns(schedule, t) && 1 <= |schedule| <= |s.regrets| + 1
    ensures Run(s, schedule) == With(s, t, Reader(Copying(s.version, s.regrets[..|schedule| - 1]), s.threads[t].accepted))
    decreases |schedule|
  {
    var front := schedule[..|schedule| - 1];
    assert schedule[|schedule| - 1] == t;
    if |schedule| == 1 {
      assert Run(s, front) == s;
      assert s.regrets[..0] == [];
    } else {
      assert forall i :: 0 <= i < |front| ==> front[i] == schedule[i];
      Copies(s, t, front);
      var k := |front| - 1;
      assert s.regrets[..k + 1] == s.regrets[..k] + [s.regrets[k]];
    }
  }

  // A reader that is not disturbed while no update is under way has accepted the whole array after one turn for each entry
  // and two more.
  lemma UndisturbedIsAccepted(s: State, t: nat, schedule: seq<nat>)
    requires t < |s.threads| && s.threads[t].Reader? && s.threads[t].phase.Idle? && s.version % 2 == 0
    requires AllTurns(schedule, t) && |schedule| == |s.regrets| + 2
    ensures Run(s, schedule).threads == s.threads[t := Reader(Idle, s.threads[t].accepted + [Snapshot(s.version, s.regrets)])]
  {
    var front := schedule[..|schedule| - 1];
    assert schedule[|schedule| - 1] == t;
    assert forall i :: 0 <= i < |front| ==> front[i] == schedule[i];
    Copies(s, t, front);
    assert s.regrets[..|s.regrets|] == s.regrets;
  }
}
