/** Every step preserves the invariant. */
module Preservation {
  import opened Faults
  import opened Tables
  import opened Protocol
  import opened Invariant

  // -- a worker's statement, seen from the rows it touches -----------------------

  /** What the invariant says about the rows that busy worker `w` with task `id` sees. */
  predicate LocalOk(n: nat, w: nat, id: nat, l: Local) {
    && !l.phase.Idle? && l.phase.t == id
    && l.filed == [] && l.events == []
    && PhaseLocal(n, w, l.phase, l.task, l.h, l.run, l.rh)
    && TaskLocal(l.task, l.h)
    && l.h.budget == Max0(l.job.maxRetries)
    && (l.rh.clean ==> CleanLocal(id, l.task, l.h, l.phase) && l.h.starts == l.h.tries)
    && (l.rh.eager || l.rh.ready)
    && (l.rh.ready ==> l.rh.sized)
    && (if l.rh.sized then l.run.total == n >= 1 else l.run.total == 0)
    && 0 <= l.run.done
    && (l.rh.sized && AllDone(ProgressOf(l.run)) ==> !Uncounted(l.h))
    && (!l.rh.sized && AllDone(ProgressOf(l.run)) ==> Uncounted(l.h))
  }

  /** The frame of a statement: what it leaves alone, and how it moves the counters. */
  predicate ActFrame(l: Local, l': Local) {
    && l'.task.run == l.task.run && l'.task.partition == l.task.partition
    && l'.h.run == l.h.run && l'.h.budget == l.h.budget
    && l'.run.job == l.run.job && l'.run.total == l.run.total
    && l'.rh == l.rh.(clean := l'.rh.clean) && (l'.rh.clean ==> l.rh.clean)
    && l'.job.maxRetries == l.job.maxRetries
    && l'.run.done - l.run.done == l'.h.dones - l.h.dones
    && l'.run.failed - l.run.failed == l'.h.fails - l.h.fails
    && l'.run.pending - l.run.pending == l.h.starts - l'.h.starts
    && l'.run.running - l.run.running ==
         (l'.h.starts - l.h.starts) - (l'.h.dones - l.h.dones) - (l'.h.fails - l.h.fails)
    && (l.rh.sized && AllDone(ProgressOf(l.run)) ==> ProgressOf(l'.run) == ProgressOf(l.run))
  }

  /** What the invariant says about those rows after the statement. */
  predicate ActOk(n: nat, w: nat, id: nat, l: Local, l': Local, next: nat) {
    && TaskLocal(l'.task, l'.h)
    && l'.task.owner in {None, Some(w)}
    && (l'.phase.Idle? || (l'.phase.t == id && PhaseLocal(n, w, l'.phase, l'.task, l'.h, l'.run, l'.rh)))
    && (l'.rh.clean ==> l'.h.starts == l'.h.tries)
    && (l'.rh.clean && l'.task.owner.Some? ==> CleanLocal(id, l'.task, l'.h, l'.phase))
    && (|| (l'.filed == [] && l'.h.artifact == l.h.artifact)
        || (&& l.h.artifact == None && l'.h.artifact == Some(next)
            && |l'.filed| == 1 && l'.filed[0].run == l.task.run && l'.filed[0].partition == l.task.partition
            && l.task.partition < l'.filed[0].total <= n && (!l.rh.eager ==> l'.filed[0].total == n)))
    && (l'.events == [] || (|l'.events| == 1 && match l'.events[0]
        case RunCompleted(r, v) => r == l.task.run && GoodVerdict(l'.run, l'.rh, v)
        case JobCompleted(r, v) => r == l.task.run && GoodVerdict(l'.run, l'.rh, v)
        case Announced(r, _, _) => r == l.task.run
        case RunCancelledBy(r) => false))
  }

  predicate ActReady(n: nat, w: nat, id: nat, l: Local, a: Action, count: nat) {
    LocalOk(n, w, id, l) && Fits(l.phase, a) && l.task.partition < count <= n && (!l.rh.eager ==> count == n)
  }

  predicate ActGood(n: nat, w: nat, id: nat, l: Local, a: Action, count: nat, next: nat)
    requires Fits(l.phase, a)
  {
    var l' := Act(l, a, count, next);
    ActFrame(l, l') && ActOk(n, w, id, l, l', next)
  }

  lemma ActBeforeProcess(n: nat, w: nat, id: nat, l: Local, a: Action, count: nat, next: nat)
    requires ActReady(n, w, id, l, a, count) && (a.FirstGetRunState? || a.UpdateTaskDead?)
    ensures ActGood(n, w, id, l, a, count, next)
  {
    match a {
      case FirstGetRunState(_) =>
      case UpdateTaskDead(_) =>
    }
  }

  lemma ActStarted(n: nat, w: nat, id: nat, l: Local, a: Action, count: nat, next: nat)
    requires ActReady(n, w, id, l, a, count) && (a.TaskStarted? || a.GetRunTaskCount?)
    ensures ActGood(n, w, id, l, a, count, next)
  {
    match a {
      case TaskStarted(_) =>
      case GetRunTaskCount =>
    }
  }

  lemma ActInProcess(n: nat, w: nat, id: nat, l: Local, a: Action, count: nat, next: nat)
    requires ActReady(n, w, id, l, a, count) && (a.ProcessError? || a.CreateArtifact?)
    ensures ActGood(n, w, id, l, a, count, next)
  {
    match a {
      case ProcessError(_) =>
      case CreateArtifact(_) =>
    }
  }

  lemma ActRetry(n: nat, w: nat, id: nat, l: Local, a: Action, count: nat, next: nat)
    requires ActReady(n, w, id, l, a, count) && (a.GetJobForRetry? || a.RetryTask?)
    ensures ActGood(n, w, id, l, a, count, next)
  {
    match a {
      case GetJobForRetry(_) =>
      case RetryTask(_) =>
    }
  }

  lemma ActFail(n: nat, w: nat, id: nat, l: Local, a: Action, count: nat, next: nat)
    requires ActReady(n, w, id, l, a, count) && a.FailTaskWithError?
    ensures ActGood(n, w, id, l, a, count, next)
  {}

  lemma ActCountFail(n: nat, w: nat, id: nat, l: Local, a: Action, count: nat, next: nat)
    requires ActReady(n, w, id, l, a, count) && a.TaskFailed?
    ensures ActGood(n, w, id, l, a, count, next)
  {}

  lemma ActAfterProcess(n: nat, w: nat, id: nat, l: Local, a: Action, count: nat, next: nat)
    requires ActReady(n, w, id, l, a, count) && (a.SecondGetRunState? || a.UpdateTaskSucceeded?)
    ensures ActGood(n, w, id, l, a, count, next)
  {
    match a {
      case SecondGetRunState(_) =>
      case UpdateTaskSucceeded(_) =>
    }
  }

  lemma ActCounting(n: nat, w: nat, id: nat, l: Local, a: Action, count: nat, next: nat)
    requires ActReady(n, w, id, l, a, count) && a.TaskSucceeded?
    ensures ActGood(n, w, id, l, a, count, next)
  {}

  lemma ActProgress(n: nat, w: nat, id: nat, l: Local, a: Action, count: nat, next: nat)
    requires ActReady(n, w, id, l, a, count) && a.GetRunProgress?
    ensures ActGood(n, w, id, l, a, count, next)
  {}

  lemma ActCompleteRun(n: nat, w: nat, id: nat, l: Local, a: Action, count: nat, next: nat)
    requires ActReady(n, w, id, l, a, count) && a.CompleteRun?
    ensures ActGood(n, w, id, l, a, count, next)
  {}

  lemma ActCompleteJob(n: nat, w: nat, id: nat, l: Local, a: Action, count: nat, next: nat)
    requires ActReady(n, w, id, l, a, count) && (a.CompleteJob? || a.Publish?)
    ensures ActGood(n, w, id, l, a, count, next)
  {
    match a {
      case CompleteJob(_) =>
      case Publish(_) =>
    }
  }

  lemma ActPreserves(n: nat, w: nat, id: nat, l: Local, a: Action, count: nat, next: nat)
    requires ActReady(n, w, id, l, a, count)
    ensures ActGood(n, w, id, l, a, count, next)
  {
    match a {
      case FirstGetRunState(_) => ActBeforeProcess(n, w, id, l, a, count, next);
      case UpdateTaskDead(_) => ActBeforeProcess(n, w, id, l, a, count, next);
      case TaskStarted(_) => ActStarted(n, w, id, l, a, count, next);
      case GetRunTaskCount => ActStarted(n, w, id, l, a, count, next);
      case ProcessError(_) => ActInProcess(n, w, id, l, a, count, next);
      case CreateArtifact(_) => ActInProcess(n, w, id, l, a, count, next);
      case GetJobForRetry(_) => ActRetry(n, w, id, l, a, count, next);
      case RetryTask(_) => ActRetry(n, w, id, l, a, count, next);
      case FailTaskWithError(_) => ActFail(n, w, id, l, a, count, next);
      case TaskFailed(_) => ActCountFail(n, w, id, l, a, count, next);
      case SecondGetRunState(_) => ActAfterProcess(n, w, id, l, a, count, next);
      case UpdateTaskSucceeded(_) => ActAfterProcess(n, w, id, l, a, count, next);
      case TaskSucceeded(_) => ActCounting(n, w, id, l, a, count, next);
      case GetRunProgress(_) => ActProgress(n, w, id, l, a, count, next);
      case CompleteRun(_) => ActCompleteRun(n, w, id, l, a, count, next);
      case CompleteJob(_) => ActCompleteJob(n, w, id, l, a, count, next);
      case Publish(_) => ActCompleteJob(n, w, id, l, a, count, next);
    }
  }

  // -- the same statement, seen from the whole database --------------------------

  /** Once every task of a sized run is counted, each of them is. */
  lemma FullyCounted(s: World, r: nat)
    requires Inv(s) && r < |s.runs|
    ensures 0 <= s.runs[r].done && 0 <= s.runs[r].failed
    ensures s.runs[r].done + s.runs[r].failed <= |s.runHist[r].ids|
    ensures s.runHist[r].sized && AllDone(ProgressOf(s.runs[r])) ==>
              forall t :: 0 <= t < |s.tasks| && s.tasks[t].run == r ==> !Uncounted(s.hist[t])
  {
    assert RunOk(s, r);
    forall i | 0 <= i < |s.tasks| ensures s.hist[i].dones + s.hist[i].fails <= 1 && s.hist[i].run == s.tasks[i].run {
      assert TaskOk(s, i);
    }
    SumCounted(s.tasks, s.hist, r);
  }

  lemma CountedIsInRun(s: World, t: nat)
    requires Inv(s) && t < |s.tasks|
    ensures s.hist[t].dones <= s.runs[s.tasks[t].run].done
    ensures s.hist[t].fails <= s.runs[s.tasks[t].run].failed
  {
    var r := s.tasks[t].run;
    assert RunOk(s, r) && TaskOk(s, t);
    SumNonNegative(s.tasks, s.hist, Dones(r));
    SumNonNegative(s.tasks, s.hist, Fails(r));
    assert Val(s.tasks[t], s.hist[t], Dones(r)) <= Sum(s.tasks, s.hist, Dones(r));
    assert Val(s.tasks[t], s.hist[t], Fails(r)) <= Sum(s.tasks, s.hist, Fails(r));
  }

  lemma CountInRun(s: World, r: nat)
    requires Inv(s) && r < |s.runs|
    ensures RunTaskCount(s.tasks, r) == |s.runHist[r].ids|
  {
    forall i | 0 <= i < |s.tasks| ensures s.hist[i].run == s.tasks[i].run { assert TaskOk(s, i); }
    CountIsOnes(s.tasks, s.hist, r);
    assert RunOk(s, r);
  }

  lemma LookOk(s: World, w: nat)
    requires Inv(s) && w < |s.workers| && !s.workers[w].Idle?
    ensures Busy(s, w) && LocalOk(s.n, w, TaskOf(s, w), Look(s, w))
    ensures !s.runHist[RunOf(s, w)].eager ==> RunTaskCount(s.tasks, RunOf(s, w)) == s.n
    ensures s.tasks[TaskOf(s, w)].partition < RunTaskCount(s.tasks, RunOf(s, w)) <= s.n
  {
    assert WorkerOk(s, w);
    var t := TaskOf(s, w);
    var r := RunOf(s, w);
    assert TaskOk(s, t) && RunOk(s, r);
    FullyCounted(s, r);
    CountedIsInRun(s, t);
    CountInRun(s, r);
  }

  /** The statement of worker `w` moves every sum by what its own task contributes. */
  lemma PutSums(s: World, w: nat, l': Local)
    requires Shaped(s) && Busy(s, w)
    ensures forall k: Measure :: Total(Put(s, w, l'), k) ==
              Total(s, k) + Val(l'.task, l'.h, k) - Val(s.tasks[TaskOf(s, w)], s.hist[TaskOf(s, w)], k)
  {
    forall k: Measure
      ensures Total(Put(s, w, l'), k) ==
              Total(s, k) + Val(l'.task, l'.h, k) - Val(s.tasks[TaskOf(s, w)], s.hist[TaskOf(s, w)], k)
    {
      SumUpdate(s.tasks, s.hist, TaskOf(s, w), l'.task, l'.h, k);
    }
  }

  /** Worker `w`'s step, as the two lemmas above describe it. */
  ghost predicate Lifts(s: World, w: nat, l': Local) {
    && Inv(s) && w < |s.workers| && !s.workers[w].Idle? && Busy(s, w)
    && LocalOk(s.n, w, TaskOf(s, w), Look(s, w))
    && ActFrame(Look(s, w), l')
    && ActOk(s.n, w, TaskOf(s, w), Look(s, w), l', |s.artifacts|)
  }

  lemma PutShaped(s: World, w: nat, l': Local)
    requires Lifts(s, w, l')
    ensures Shaped(Put(s, w, l'))
  {
  }

  lemma PutRuns(s: World, w: nat, l': Local, r: nat)
    requires Lifts(s, w, l') && r < |s.runs|
    ensures Shaped(Put(s, w, l')) && RunOk(Put(s, w, l'), r)
  {
    PutShaped(s, w, l');
    PutSums(s, w, l');
    assert RunOk(s, r) && TaskOk(s, TaskOf(s, w));
  }

  lemma PutTasks(s: World, w: nat, l': Local, t: nat)
    requires Lifts(s, w, l') && t < |s.tasks|
    ensures Shaped(Put(s, w, l')) && TaskOk(Put(s, w, l'), t)
  {
    PutShaped(s, w, l');
    assert TaskOk(s, t) && TaskOk(s, TaskOf(s, w)) && RunOk(s, RunOf(s, w));
  }

  lemma PutWorkers(s: World, w: nat, l': Local, w': nat)
    requires Lifts(s, w, l') && w' < |s.workers|
    ensures Shaped(Put(s, w, l')) && WorkerOk(Put(s, w, l'), w')
  {
    PutShaped(s, w, l');
    assert WorkerOk(s, w) && WorkerOk(s, w');
  }

  lemma PutArtifacts(s: World, w: nat, l': Local, k: nat)
    requires Lifts(s, w, l') && k < |Put(s, w, l').artifacts|
    ensures Shaped(Put(s, w, l')) && ArtifactOk(Put(s, w, l'), k)
  {
    PutShaped(s, w, l');
    assert TaskOk(s, TaskOf(s, w));
    if k < |s.artifacts| { assert ArtifactOk(s, k); }
  }

  lemma PutEvents(s: World, w: nat, l': Local, e: Event)
    requires Lifts(s, w, l') && e in Put(s, w, l').log
    ensures Shaped(Put(s, w, l')) && EventOk(Put(s, w, l'), e)
  {
    PutShaped(s, w, l');
    if e in s.log { assert EventOk(s, e); }
  }

  lemma WorkPreserves(s: World, w: nat, a: Action)
    requires Inv(s) && Enabled(s, Work(w, a))
    ensures Inv(Next(s, Work(w, a)))
  {
    LookOk(s, w);
    var count := RunTaskCount(s.tasks, RunOf(s, w));
    ActPreserves(s.n, w, TaskOf(s, w), Look(s, w), a, count, |s.artifacts|);
    var l' := Act(Look(s, w), a, count, |s.artifacts|);
    var s' := Put(s, w, l');
    PutShaped(s, w, l');
    forall t | 0 <= t < |s'.tasks| ensures TaskOk(s', t) { PutTasks(s, w, l', t); }
    forall r | 0 <= r < |s'.runs| ensures RunOk(s', r) { PutRuns(s, w, l', r); }
    forall w' | 0 <= w' < |s'.workers| ensures WorkerOk(s', w') { PutWorkers(s, w, l', w'); }
    forall k | 0 <= k < |s'.artifacts| ensures ArtifactOk(s', k) { PutArtifacts(s, w, l', k); }
    forall e | e in s'.log ensures EventOk(s', e) { PutEvents(s, w, l', e); }
  }

  // -- leasing --------------------------------------------------------------------

  lemma LeaseShaped(s: World, w: nat, locked: set<nat>, o: Outcome)
    requires Inv(s) && w < |s.workers| && s.workers[w].Idle?
    ensures Shaped(LeaseNext(s, w, locked, o))
  {
  }

  lemma LeaseTasks(s: World, w: nat, locked: set<nat>, o: Outcome, t: nat)
    requires Inv(s) && w < |s.workers| && s.workers[w].Idle? && t < |s.tasks|
    ensures Shaped(LeaseNext(s, w, locked, o)) && TaskOk(LeaseNext(s, w, locked, o), t)
  {
    LeaseShaped(s, w, locked, o);
    var c := LeaseCandidate(s.tasks, s.now, locked);
    assert TaskOk(s, t);
    if c.Some? { assert TaskOk(s, c.value); }
  }

  lemma LeaseRuns(s: World, w: nat, locked: set<nat>, o: Outcome, r: nat)
    requires Inv(s) && w < |s.workers| && s.workers[w].Idle? && r < |s.runs|
    ensures Shaped(LeaseNext(s, w, locked, o)) && RunOk(LeaseNext(s, w, locked, o), r)
  {
    LeaseShaped(s, w, locked, o);
    var c := LeaseCandidate(s.tasks, s.now, locked);
    assert RunOk(s, r);
    if c.Some? && !o.Lost? {
      var t := c.value;
      assert s.hist[t := s.hist[t]] == s.hist;
      forall k: Measure | !k.Potential?
        ensures Total(LeaseNext(s, w, locked, o), k) == Total(s, k)
      {
        SumUpdate(s.tasks, s.hist, t, LeaseRow(s.tasks[t], w, s.now), s.hist[t], k);
      }
    }
  }

  lemma LeaseWorkers(s: World, w: nat, locked: set<nat>, o: Outcome, w': nat)
    requires Inv(s) && w < |s.workers| && s.workers[w].Idle? && w' < |s.workers|
    ensures Shaped(LeaseNext(s, w, locked, o)) && WorkerOk(LeaseNext(s, w, locked, o), w')
  {
    LeaseShaped(s, w, locked, o);
    var c := LeaseCandidate(s.tasks, s.now, locked);
    assert WorkerOk(s, w');
    if c.Some? { assert TaskOk(s, c.value); }
  }

  lemma LeasePreserves(s: World, w: nat, locked: set<nat>, o: Outcome)
    requires Inv(s) && Enabled(s, Lease(w, locked, o))
    ensures Inv(Next(s, Lease(w, locked, o)))
  {
    var s' := Next(s, Lease(w, locked, o));
    LeaseShaped(s, w, locked, o);
    forall t | 0 <= t < |s'.tasks| ensures TaskOk(s', t) { LeaseTasks(s, w, locked, o, t); }
    forall r | 0 <= r < |s'.runs| ensures RunOk(s', r) { LeaseRuns(s, w, locked, o, r); }
    forall w' | 0 <= w' < |s'.workers| ensures WorkerOk(s', w') { LeaseWorkers(s, w, locked, o, w'); }
    forall k | 0 <= k < |s'.artifacts| ensures ArtifactOk(s', k) { assert ArtifactOk(s, k); }
    forall e | e in s'.log ensures EventOk(s', e) { assert EventOk(s, e); }
  }

  // -- scheduling -----------------------------------------------------------------

  lemma CreateTaskPreserves(s: World, r: nat)
    requires Inv(s) && Enabled(s, CreateTask(r))
    ensures Inv(Next(s, CreateTask(r)))
  {
    var s' := Next(s, CreateTask(r));
    var t, h := s'.tasks[|s.tasks|], s'.hist[|s.hist|];
    assert Shaped(s');
    forall k: Measure ensures Total(s', k) == Total(s, k) + Val(t, h, k) {
      SumAppend(s.tasks, s.hist, t, h, k);
    }
    assert RunOk(s, r);
    forall i | 0 <= i < |s'.tasks| ensures TaskOk(s', i) {
      if i < |s.tasks| { assert TaskOk(s, i); }
    }
    forall r' | 0 <= r' < |s'.runs| ensures RunOk(s', r') { assert RunOk(s, r'); }
    forall w | 0 <= w < |s'.workers| ensures WorkerOk(s', w) { assert WorkerOk(s, w); }
    forall k | 0 <= k < |s'.artifacts| ensures ArtifactOk(s', k) { assert ArtifactOk(s, k); }
    forall e | e in s'.log ensures EventOk(s', e) { assert EventOk(s, e); }
  }

  lemma CreateRunPreserves(s: World, j: nat)
    requires Inv(s) && Enabled(s, CreateRun(j))
    ensures Inv(Next(s, CreateRun(j)))
  {
    var s' := Next(s, CreateRun(j));
    assert Shaped(s');
    forall i | 0 <= i < |s.tasks| ensures s.hist[i].run < |s.runs| { assert TaskOk(s, i); }
    forall k: Measure | !k.Potential? && k.r == |s.runs| ensures Total(s', k) == 0 {
      SumZero(s.tasks, s.hist, k);
    }
    forall i | 0 <= i < |s'.tasks| ensures TaskOk(s', i) { assert TaskOk(s, i); }
    forall r' | 0 <= r' < |s'.runs| ensures RunOk(s', r') { if r' < |s.runs| { assert RunOk(s, r'); } }
    forall w | 0 <= w < |s'.workers| ensures WorkerOk(s', w) { assert WorkerOk(s, w); }
    forall k | 0 <= k < |s'.artifacts| ensures ArtifactOk(s', k) { assert ArtifactOk(s, k); }
    forall e | e in s'.log ensures EventOk(s', e) { assert EventOk(s, e); }
  }

  lemma SizePreserves(s: World, r: nat)
    requires Inv(s) && Enabled(s, UpdateRunTasksTotal(r))
    ensures Inv(Next(s, UpdateRunTasksTotal(r)))
  {
    var s' := Next(s, UpdateRunTasksTotal(r));
    assert Shaped(s');
    FullyCounted(s, r);
    forall i | 0 <= i < |s'.tasks| ensures TaskOk(s', i) { assert TaskOk(s, i); }
    forall r' | 0 <= r' < |s'.runs| ensures RunOk(s', r') { assert RunOk(s, r'); }
    forall w | 0 <= w < |s'.workers| ensures WorkerOk(s', w) { assert WorkerOk(s, w); }
    forall k | 0 <= k < |s'.artifacts| ensures ArtifactOk(s', k) { assert ArtifactOk(s, k); }
    forall e | e in s'.log ensures EventOk(s', e) { assert EventOk(s, e); }
  }

  lemma InitRunPreserves(s: World, r: nat)
    requires Inv(s) && Enabled(s, InitRunProgress(r))
    ensures Shaped(Next(s, InitRunProgress(r)))
    ensures forall r' :: 0 <= r' < |s.runs| ==> RunOk(Next(s, InitRunProgress(r)), r')
  {
    var s' := Next(s, InitRunProgress(r));
    assert Shaped(s') && RunOk(s, r);
    if !s.runHist[r].eager {
      forall i | 0 <= i < |s.tasks| ensures Val(s.tasks[i], s.hist[i], Starts(r)) == 0 { assert TaskOk(s, i); }
      SumZero(s.tasks, s.hist, Starts(r));
    }
    forall r' | 0 <= r' < |s'.runs| ensures RunOk(s', r') { assert RunOk(s, r'); }
  }

  lemma InitPreserves(s: World, r: nat)
    requires Inv(s) && Enabled(s, InitRunProgress(r))
    ensures Inv(Next(s, InitRunProgress(r)))
  {
    var s' := Next(s, InitRunProgress(r));
    InitRunPreserves(s, r);
    forall i | 0 <= i < |s'.tasks| ensures TaskOk(s', i) { assert TaskOk(s, i); }
    forall w | 0 <= w < |s'.workers| ensures WorkerOk(s', w) { assert WorkerOk(s, w); }
    forall k | 0 <= k < |s'.artifacts| ensures ArtifactOk(s', k) { assert ArtifactOk(s, k); }
    forall e | e in s'.log ensures EventOk(s', e) { assert EventOk(s, e); }
  }

  lemma CancelPreserves(s: World, r: nat)
    requires Inv(s) && Enabled(s, CancelRun(r))
    ensures Inv(Next(s, CancelRun(r)))
  {
    var s' := Next(s, CancelRun(r));
    assert Shaped(s');
    forall i | 0 <= i < |s'.tasks| ensures TaskOk(s', i) { assert TaskOk(s, i); }
    forall r' | 0 <= r' < |s'.runs| ensures RunOk(s', r') { assert RunOk(s, r'); }
    forall w | 0 <= w < |s'.workers| ensures WorkerOk(s', w) { assert WorkerOk(s, w); }
    forall k | 0 <= k < |s'.artifacts| ensures ArtifactOk(s', k) { assert ArtifactOk(s, k); }
    forall e | e in s'.log ensures EventOk(s', e) { if e in s.log { assert EventOk(s, e); } }
  }

  lemma HeartbeatSums(s: World, w: nat, t: nat)
    requires Inv(s) && Enabled(s, Heartbeat(w, t))
    ensures Shaped(Next(s, Heartbeat(w, t)))
    ensures forall k: Measure :: Total(Next(s, Heartbeat(w, t)), k) == Total(s, k)
  {
    assert s.hist[t := s.hist[t]] == s.hist;
    forall k: Measure ensures Total(Next(s, Heartbeat(w, t)), k) == Total(s, k) {
      SumUpdate(s.tasks, s.hist, t, HeartbeatRow(s.tasks[t], w, s.now), s.hist[t], k);
    }
  }

  lemma HeartbeatTasks(s: World, w: nat, t: nat, i: nat)
    requires Inv(s) && Enabled(s, Heartbeat(w, t)) && i < |s.tasks|
    ensures Shaped(Next(s, Heartbeat(w, t))) && TaskOk(Next(s, Heartbeat(w, t)), i)
  {
    assert TaskOk(s, t) && TaskOk(s, i);
  }

  lemma HeartbeatPreserves(s: World, w: nat, t: nat)
    requires Inv(s) && Enabled(s, Heartbeat(w, t))
    ensures Inv(Next(s, Heartbeat(w, t)))
  {
    var s' := Next(s, Heartbeat(w, t));
    HeartbeatSums(s, w, t);
    forall i | 0 <= i < |s'.tasks| ensures TaskOk(s', i) { HeartbeatTasks(s, w, t, i); }
    forall r' | 0 <= r' < |s'.runs| ensures RunOk(s', r') { assert RunOk(s, r'); }
    forall w' | 0 <= w' < |s'.workers| ensures WorkerOk(s', w') { assert WorkerOk(s, w'); }
    forall k | 0 <= k < |s'.artifacts| ensures ArtifactOk(s', k) { assert ArtifactOk(s, k); }
    forall e | e in s'.log ensures EventOk(s', e) { assert EventOk(s, e); }
  }

  lemma JobsPreserve(s: World, st: Step)
    requires Inv(s) && Enabled(s, st)
    requires st.Tick? || st.SubmitJob? || st.Spawn? || st.QueueJob? || st.CancelJob?
    ensures Inv(Next(s, st))
  {
    var s' := Next(s, st);
    assert Shaped(s');
    forall i | 0 <= i < |s'.tasks| ensures TaskOk(s', i) { assert TaskOk(s, i); }
    forall r' | 0 <= r' < |s'.runs| ensures RunOk(s', r') { assert RunOk(s, r'); }
    forall w | 0 <= w < |s'.workers| ensures WorkerOk(s', w) { if w < |s.workers| { assert WorkerOk(s, w); } }
    forall k | 0 <= k < |s'.artifacts| ensures ArtifactOk(s', k) { assert ArtifactOk(s, k); }
    forall e | e in s'.log ensures EventOk(s', e) { assert EventOk(s, e); }
  }

  lemma StepPreserves(s: World, st: Step)
    requires Inv(s) && Enabled(s, st)
    ensures Inv(Next(s, st))
  {
    match st
    case CreateRun(j) => CreateRunPreserves(s, j);
    case CreateTask(r) => CreateTaskPreserves(s, r);
    case UpdateRunTasksTotal(r) => SizePreserves(s, r);
    case InitRunProgress(r) => InitPreserves(s, r);
    case CancelRun(r) => CancelPreserves(s, r);
    case Heartbeat(w, t) => HeartbeatPreserves(s, w, t);
    case Lease(w, locked, o) => LeasePreserves(s, w, locked, o);
    case Work(w, a) => WorkPreserves(s, w, a);
    case _ => JobsPreserve(s, st);
  }

  lemma {:induction false} RunsPreserve(s: World, tr: seq<Step>)
    requires Inv(s) && Runs(s, tr)
    ensures Inv(After(s, tr))
    decreases |tr|
  {
    if tr != [] {
      var front := tr[..|tr| - 1];
      RunsPreserve(s, front);
      StepPreserves(After(s, front), tr[|tr| - 1]);
    }
  }

  /** The invariant holds in every reachable state. */
  lemma ReachableInv(s: World)
    requires Reachable(s)
    ensures Inv(s)
  {
    var tr := RunBetween(Init(s.n), s);
    RunsPreserve(Init(s.n), tr);
  }

  lemma LaterStep(s: World, s': World, st: Step)
    requires Later(s, s') && Enabled(s', st)
    ensures Later(s, Next(s', st))
  {
    var tr :| Leads(s, tr, s');
    LeadsOn(s, tr, s', st);
  }

  lemma ReachableStep(s: World, st: Step)
    requires Reachable(s) && Enabled(s, st)
    ensures Reachable(Next(s, st))
  {
    LaterStep(Init(s.n), s, st);
  }
}
