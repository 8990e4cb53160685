/** Concrete runs that show what the protocol does not guarantee. */
module Witnesses {
  import opened Faults
  import opened Tables
  import opened Protocol
  import opened Preservation
  import opened History
  import opened Completion
  import opened Notice
  import opened Cancellation
  import opened Recovery
  import opened Tightness

  /** A run of one task, scheduled completely before the worker polls. */
  lemma OneTaskScheduled(maxRetries: int) returns (s: World)
    ensures Reachable(s)
    ensures s == World(1, 0, [JobRow(JobSubmitted, maxRetries)], [RunRow(0, RunSubmitted, 1, 1, 0, 0, 0)],
                       [NewTask(0, 0)], [], [Idle], [],
                       [TaskHistory(0, Max0(maxRetries), 0, false, 0, 0, 0, false, None)],
                       [RunHistory([0], true, true, false, 0, true)])
  {
    s := BeginRun(1, maxRetries);
    s := Execute(s, CreateTask(0));
    assert s.runHist[0].ids == [0];
    assert s.runHist == [RunHistory([0], false, false, false, 0, true)];
    assert s.tasks == [NewTask(0, 0)] && |s.hist| == 1;
    s := Execute(s, UpdateRunTasksTotal(0));
    assert s.runHist == [RunHistory([0], true, false, false, 0, true)];
    assert s.runs == [RunRow(0, RunSubmitted, 1, 0, 0, 0, 0)];
    s := Execute(s, InitRunProgress(0));
    assert s.runHist == [RunHistory([0], true, true, false, 0, true)];
    assert s.runs == [RunRow(0, RunSubmitted, 1, 1, 0, 0, 0)];
  }

  /** One worker, one task, one run, one job. */
  predicate Single(s: World) {
    && |s.tasks| == |s.hist| == |s.runs| == |s.runHist| == |s.jobs| == |s.workers| == 1
    && s.tasks[0].run == 0 && s.runs[0].job == 0
  }

  /** A statement of the only worker, row by row. */
  lemma SoleWorkerActs(s: World, a: Action) returns (s': World)
    requires Reachable(s) && Single(s) && !s.workers[0].Idle? && s.workers[0].t == 0 && Fits(s.workers[0], a)
    ensures forall s'' :: Later(s', s'') ==> Later(s, s'')
    ensures Reachable(s')
    ensures var l' := Act(Local(s.workers[0], s.tasks[0], s.hist[0], s.runs[0], s.runHist[0], s.jobs[0], [], []),
                          a, 1, |s.artifacts|);
            s' == s.(workers := [l'.phase], tasks := [l'.task], hist := [l'.h], runs := [l'.run], runHist := [l'.rh],
                     jobs := [l'.job],
                     artifacts := if l'.filed == [] then s.artifacts else s.artifacts + l'.filed,
                     log := if l'.events == [] then s.log else s.log + l'.events)
  {
    assert Look(s, 0) == Local(s.workers[0], s.tasks[0], s.hist[0], s.runs[0], s.runHist[0], s.jobs[0], [], []);
    assert s.tasks[..0] == [];
    assert RunTaskCount(s.tasks, 0) == 1;
    s' := Execute(s, Work(0, a));
    forall s'' | Later(s', s'') ensures Later(s, s'') { LaterFrom(s, Work(0, a), s''); }
  }

  /** A poll of the only worker that finds the only task. */
  lemma SoleWorkerLeases(s: World) returns (s': World)
    requires Reachable(s) && Single(s) && s.workers == [Idle] && Leasable(s.tasks[0], s.now)
    ensures Reachable(s')
    ensures s' == s.(tasks := [LeaseRow(s.tasks[0], 0, s.now)],
                     workers := [AtFirstCheck(0, s.tasks[0].retries)],
                     runHist := [s.runHist[0].(eager := s.runHist[0].eager || !s.runHist[0].ready)])
  {
    assert LeaseCandidate(s.tasks, s.now, {}) == Some(0);
    ReachableInv(s);
    s' := Execute(s, Lease(0, {}, Done));
    assert s'.tasks == [LeaseRow(s.tasks[0], 0, s.now)];
  }

  /** `tasks_pending` can be negative: RetryTask leaves the counters alone. */
  lemma PendingCanBeNegative() returns (s: World)
    ensures Reachable(s) && |s.runs| == 1 && s.runs[0].pending == -1 && s.runs[0].total == 1
    ensures |s.runHist| == 1 && s.runHist[0].clean && !s.runHist[0].eager
  {
    s := OneTaskScheduled(1);
    s := SoleWorkerLeases(s);
    s := SoleWorkerActs(s, FirstGetRunState(true));
    s := SoleWorkerActs(s, TaskStarted(Done));
    s := SoleWorkerActs(s, ProcessError(true));
    s := SoleWorkerActs(s, GetJobForRetry(true));
    s := SoleWorkerActs(s, RetryTask(Done));
    s := SoleWorkerLeases(s);
    s := SoleWorkerActs(s, FirstGetRunState(true));
    s := SoleWorkerActs(s, TaskStarted(Done));
  }

  /** A run whose last counted task failed is never completed: nobody reads its progress. */
  lemma LastFailureIsNotNoticed() returns (s: World)
    ensures Reachable(s) && Quiet(s) && |s.runs| == |s.runHist| == 1 && s.runHist[0].clean && Settled(s, 0)
    ensures s.runs[0].state == RunSubmitted && !Noticed(s, 0) && !CompletedIn(s.log, 0)
  {
    s := OneTaskScheduled(0);
    s := SoleWorkerLeases(s);
    s := SoleWorkerActs(s, FirstGetRunState(true));
    s := SoleWorkerActs(s, TaskStarted(Done));
    s := SoleWorkerActs(s, ProcessError(true));
    s := SoleWorkerActs(s, GetJobForRetry(true));
    s := SoleWorkerActs(s, FailTaskWithError(Done));
    s := SoleWorkerActs(s, TaskFailed(Done));
    assert s.log == [] && s.workers == [Idle];
  }

  /** From the lease of the only task to the end of its subprocess. */
  lemma ReachSubprocess(s0: World) returns (s: World)
    requires Reachable(s0) && Single(s0) && s0.workers == [Idle] && Leasable(s0.tasks[0], s0.now)
    requires s0.runs[0].state == RunSubmitted
    ensures Reachable(s)
    ensures s == s0.(tasks := [LeaseRow(s0.tasks[0], 0, s0.now)],
                     workers := [AtSubprocess(0, s0.tasks[0].retries, 1)],
                     runs := [TaskStartedRow(s0.runs[0])],
                     runHist := [s0.runHist[0].(eager := s0.runHist[0].eager || !s0.runHist[0].ready)],
                     hist := [s0.hist[0].(tries := s0.hist[0].tries + 1, begun := true,
                                          starts := s0.hist[0].starts + 1)])
  {
    s := SoleWorkerLeases(s0);
    s := SoleWorkerActs(s, FirstGetRunState(true));
    s := SoleWorkerActs(s, TaskStarted(Done));
    s := SoleWorkerActs(s, GetRunTaskCount);
    assert s.artifacts == s0.artifacts && s.log == s0.log && s.jobs == s0.jobs;
  }

  /** From there to the mark. */
  lemma ReachCount(s0: World) returns (s: World)
    requires Reachable(s0) && Single(s0) && s0.workers[0].AtSubprocess? && s0.workers[0].t == 0
    requires s0.runs[0].state == RunSubmitted && s0.artifacts == []
    ensures Reachable(s)
    ensures s == s0.(tasks := [s0.tasks[0].(state := Succeeded)],
                     workers := [AtCount(0)],
                     artifacts := [Artifact(0, s0.tasks[0].partition, s0.workers[0].partitions)],
                     hist := [s0.hist[0].(filed := true, artifact := Some(0))])
  {
    s := SoleWorkerActs(s0, CreateArtifact(Done));
    s := SoleWorkerActs(s, SecondGetRunState(true));
    s := SoleWorkerActs(s, UpdateTaskSucceeded(Done));
    assert s.log == s0.log && s.jobs == s0.jobs && s.runs == s0.runs && s.runHist == s0.runHist;
  }

  /** A run of one task that is leased before `tasks_total` is set. */
  lemma OneTaskEager() returns (s: World)
    ensures Reachable(s)
    ensures s == World(1, 0, [JobRow(JobSubmitted, 0)], [RunRow(0, RunSubmitted, 0, -1, 1, 0, 0)],
                       [LeaseRow(NewTask(0, 0), 0, 0).(state := Succeeded)], [Artifact(0, 0, 1)], [AtCount(0)], [],
                       [TaskHistory(0, 0, 1, true, 1, 0, 0, true, Some(0))],
                       [RunHistory([0], false, false, true, 0, true)])
  {
    s := BeginRun(1, 0);
    s := Execute(s, CreateTask(0));
    assert s.runHist[0].ids == [0];
    assert s.runHist == [RunHistory([0], false, false, false, 0, true)];
    assert s.tasks == [NewTask(0, 0)] && s.hist == [TaskHistory(0, 0, 0, false, 0, 0, 0, false, None)];
    s := ReachSubprocess(s);
    s := ReachCount(s);
  }

  /** A run leased before it is sized can end with all tasks SUCCEEDED and no completion. */
  lemma EagerLeaseLosesCompletion() returns (s: World)
    ensures Reachable(s) && Quiet(s) && |s.runs| == |s.runHist| == |s.tasks| == 1
    ensures s.runHist[0].clean && s.runHist[0].ready && Settled(s, 0)
    ensures s.tasks[0].run == 0 && s.tasks[0].state == Succeeded
    ensures s.runs[0].state == RunSubmitted && !CompletedIn(s.log, 0)
  {
    s := OneTaskEager();
    s := SoleWorkerActs(s, TaskSucceeded(Done));
    s := SoleWorkerActs(s, GetRunProgress(true));
    s := Execute(s, UpdateRunTasksTotal(0));
    s := Execute(s, InitRunProgress(0));
    assert s.log == [] && s.workers == [Idle];
  }

  lemma LostCount() returns (s: World)
    ensures Reachable(s) && Single(s) && s.workers == [AtProgress(0)] && s.log == []
    ensures s.runs[0] == RunRow(0, RunSubmitted, 0, -1, 1, 0, 0)
    ensures s.runHist[0].eager && !s.runHist[0].clean
  {
    s := OneTaskEager();
    s := SoleWorkerActs(s, TaskSucceeded(Lost));
  }

  /** If, moreover, the TaskSucceeded of such a run is lost, it reads 0 of 0 as all done. */
  lemma LostCountReadsAllDone() returns (s: World)
    ensures Reachable(s) && Single(s) && s.workers == [AtCompleteRun(0, Progress(0, 0, 0))] && s.log == []
    ensures s.runs[0].total == 0 && s.runHist[0].eager && !s.runHist[0].clean
  {
    s := LostCount();
    var l := Local(s.workers[0], s.tasks[0], s.hist[0], s.runs[0], s.runHist[0], s.jobs[0], [], []);
    assert Act(l, GetRunProgress(true), 1, |s.artifacts|) == l.(phase := AtCompleteRun(0, Progress(0, 0, 0)));
    s := SoleWorkerActs(s, GetRunProgress(true));
  }

  /** And it is completed as SUCCEEDED with a total of 0. */
  lemma LostCountCompletesUnsizedRun() returns (s: World)
    ensures Reachable(s) && |s.runs| == |s.runHist| == 1 && !Sound(s, 0)
    ensures s.runs[0].total == 0 && s.runs[0].state == RunSucceeded && RunCompleted(0, RunSucceeded) in s.log
  {
    s := LostCountReadsAllDone();
    s := SoleWorkerActs(s, CompleteRun(Done));
  }

  /** The first task of a run of two, leased before the second exists, gets the whole frame. */
  lemma EagerLeaseSlicesWrongly() returns (s: World)
    ensures Reachable(s) && s.n == 2 && |s.artifacts| == 1 && s.artifacts[0] == Artifact(0, 0, 1)
  {
    s := BeginRun(2, 0);
    s := Execute(s, CreateTask(0));
    assert s.runHist[0].ids == [0];
    assert s.runHist == [RunHistory([0], false, false, false, 0, true)];
    assert s.tasks == [NewTask(0, 0)] && s.hist == [TaskHistory(0, 0, 0, false, 0, 0, 0, false, None)];
    s := ReachSubprocess(s);
    s := ReachCount(s);
  }

  /** A run that is cancelled just before its only task is marked. */
  lemma CancelledBeforeMark() returns (s: World)
    ensures Reachable(s) && Single(s) && s.workers == [AtMark(0)] && s.tasks[0].state == Leased
    ensures s.runs == [RunRow(0, RunCancelled, 1, 0, 1, 0, 0)]
  {
    s := OneTaskScheduled(0);
    s := ReachSubprocess(s);
    s := SoleWorkerActs(s, CreateArtifact(Done));
    s := SoleWorkerActs(s, SecondGetRunState(true));
    s := Execute(s, CancelRun(0));
  }

  /** A cancelled run of which a task, and then the run itself, becomes SUCCEEDED. */
  lemma CancelledRunSucceeds() returns (s: World, s': World)
    ensures Reachable(s) && Reachable(s') && IsCancelled(s, 0) && Later(s, s')
    ensures |s.tasks| == |s'.tasks| == |s'.runs| == 1 && s.tasks[0].run == s'.tasks[0].run == 0
    ensures s.tasks[0].state == Leased && s'.tasks[0].state == Succeeded && s'.runs[0].state == RunSucceeded
  {
    s := CancelledBeforeMark();
    var s1 := SoleWorkerActs(s, UpdateTaskSucceeded(Done));
    var s2 := SoleWorkerActs(s1, Action.TaskSucceeded(Done));
    var s3 := SoleWorkerActs(s2, GetRunProgress(true));
    s' := SoleWorkerActs(s3, CompleteRun(Done));
    LaterNow(s');
  }

  /** A lease that nobody will ever end, because a `GetRunState` failed. */
  lemma FailedReadLosesTask() returns (s: World)
    ensures Reachable(s) && s.workers == [Idle] && IsLeased(s, 0) && !CanBeFreed(s, 0)
  {
    s := OneTaskScheduled(3);
    s := SoleWorkerLeases(s);
    s := SoleWorkerActs(s, FirstGetRunState(false));
    LeaseEndsIffAttended(s, 0);
  }

  /** Another one, because the answer to `LeaseTask` was lost. */
  lemma UnansweredLeaseLosesTask() returns (s: World)
    ensures Reachable(s) && s.workers == [Idle] && IsLeased(s, 0) && !CanBeFreed(s, 0)
  {
    s := OneTaskScheduled(3);
    assert LeaseCandidate(s.tasks, s.now, {}) == Some(0);
    ReachableInv(s);
    s := Execute(s, Lease(0, {}, Unsure));
    LeaseEndsIffAttended(s, 0);
  }
}
