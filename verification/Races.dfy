/** Concrete runs in which two workers race. */
module Races {
  import opened Faults
  import opened Tables
  import opened Protocol
  import opened Preservation
  import opened Cancellation
  import opened Slots
  import opened Tightness

  /** One job, one run of two tasks, and two workers. */
  ghost predicate Pair(s: World) {
    && Reachable(s) && Shaped(s) && s.n == 2
    && |s.jobs| == |s.runs| == |s.runHist| == 1 && |s.workers| == |s.tasks| == |s.hist| == 2
    && s.tasks[0].run == s.tasks[1].run == 0 && s.runs[0].job == 0
  }

  /** Two tasks and two idle workers; the run has no total yet. */
  lemma TwoTasks() returns (s: World)
    ensures Pair(s) && s.runHist[0].clean && s.workers == [Idle, Idle] && s.log == []
    ensures s.tasks == [NewTask(0, 0), NewTask(0, 1)] && s.runs == [NewRun(0)]
    ensures |s.runHist[0].ids| == 2 && !s.runHist[0].sized && !s.runHist[0].ready
  {
    s := CreateTasks(2, 0, 2);
    assert s.tasks == [NewTask(0, 0), NewTask(0, 1)];
    s := Execute(s, Spawn);
  }

  lemma TwoTasksScheduled() returns (s: World)
    ensures Pair(s) && s.runHist[0].clean && s.workers == [Idle, Idle] && s.log == []
    ensures s.tasks == [NewTask(0, 0), NewTask(0, 1)] && s.runs == [RunRow(0, RunSubmitted, 2, 2, 0, 0, 0)]
  {
    s := TwoTasks();
    s := Execute(s, UpdateRunTasksTotal(0));
    s := Execute(s, InitRunProgress(0));
  }

  /** A statement of worker `w`. */
  lemma PairActs(s: World, w: nat, a: Action) returns (s': World)
    requires Pair(s) && w < 2 && !s.workers[w].Idle? && s.workers[w].t < 2 && Fits(s.workers[w], a)
    ensures Pair(s')
    ensures var t := s.workers[w].t;
            var l' := Act(Local(s.workers[w], s.tasks[t], s.hist[t], s.runs[0], s.runHist[0], s.jobs[0], [], []),
                          a, RunTaskCount(s.tasks, 0), |s.artifacts|);
            && s'.workers == s.workers[w := l'.phase] && s'.tasks == s.tasks[t := l'.task]
            && s'.runs == [l'.run] && s'.runHist == [l'.rh] && s'.log == s.log + l'.events
  {
    s' := Execute(s, Work(w, a));
  }

  /** Worker `w` takes task `t`, the oldest pending one. */
  lemma PairLeases(s: World, w: nat, t: nat) returns (s': World)
    requires Pair(s) && w < 2 && s.workers[w] == Idle && LeaseCandidate(s.tasks, s.now, {}) == Some(t) && t < 2
    ensures Pair(s') && s'.runs == s.runs && s'.log == s.log && (s.runHist[0].clean ==> s'.runHist[0].clean)
    ensures s'.workers == s.workers[w := AtFirstCheck(t, s.tasks[t].retries)]
    ensures s'.tasks == s.tasks[t := LeaseRow(s.tasks[t], w, s.now)]
  {
    s' := Execute(s, Lease(w, {}, Done));
  }

  /** From the lease of task `t` to its mark. */
  lemma PairReachesMark(s: World, w: nat, t: nat) returns (s': World)
    requires Pair(s) && w < 2 && s.workers[w] == Idle && LeaseCandidate(s.tasks, s.now, {}) == Some(t) && t < 2
    requires s.runs[0].state == RunSubmitted
    ensures Pair(s') && s'.runs == [TaskStartedRow(s.runs[0])] && s'.log == s.log
    ensures s.runHist[0].clean ==> s'.runHist[0].clean
    ensures s'.workers == s.workers[w := AtMark(t)]
    ensures s'.tasks == s.tasks[t := LeaseRow(s.tasks[t], w, s.now)]
  {
    s' := PairLeases(s, w, t);
    s' := PairActs(s', w, FirstGetRunState(true));
    s' := PairActs(s', w, TaskStarted(Done));
    s' := PairActs(s', w, GetRunTaskCount);
    s' := PairActs(s', w, CreateArtifact(Done));
    s' := PairActs(s', w, SecondGetRunState(true));
  }

  /** From the lease of task `t` to its count. */
  lemma PairReachesCount(s: World, w: nat, t: nat) returns (s': World)
    requires Pair(s) && w < 2 && s.workers[w] == Idle && LeaseCandidate(s.tasks, s.now, {}) == Some(t) && t < 2
    requires s.runs[0].state == RunSubmitted
    ensures Pair(s') && s'.runs == [TaskStartedRow(s.runs[0])] && s'.log == s.log
    ensures s.runHist[0].clean ==> s'.runHist[0].clean
    ensures s'.workers == s.workers[w := AtCount(t)]
    ensures s'.tasks == s.tasks[t := LeaseRow(s.tasks[t], w, s.now).(state := Succeeded)]
  {
    s' := PairReachesMark(s, w, t);
    s' := PairActs(s', w, UpdateTaskSucceeded(Done));
  }

  /** Worker 1 takes task 1 of the cancelled run and buries it. */
  lemma SecondIsBuried(s: World) returns (s': World)
    requires Pair(s) && s.workers[1] == Idle && s.runs[0].state == RunCancelled
    requires s.tasks[0].state != Pending && s.tasks[1] == NewTask(0, 1)
    ensures Pair(s') && s'.workers == s.workers && s'.runs == s.runs && s'.log == s.log
    ensures s'.tasks[0] == s.tasks[0] && s'.tasks[1].state == Dead
  {
    assert LeaseCandidate(s.tasks, s.now, {}) == Some(1);
    s' := PairLeases(s, 1, 1);
    s' := PairActs(s', 1, FirstGetRunState(true));
    s' := PairActs(s', 1, UpdateTaskDead(Done));
  }

  /** Both workers pass the completion test. */
  lemma BothPassTheTest() returns (s: World)
    ensures Pair(s) && s.runHist[0].clean && s.log == []
    ensures s.workers == [AtCompleteRun(0, Progress(2, 0, 2)), AtCompleteRun(1, Progress(2, 0, 2))]
  {
    s := TwoTasksScheduled();
    assert LeaseCandidate(s.tasks, s.now, {}) == Some(0);
    s := PairReachesCount(s, 0, 0);
    assert LeaseCandidate(s.tasks, s.now, {}) == Some(1);
    s := PairReachesCount(s, 1, 1);
    s := PairActs(s, 0, Action.TaskSucceeded(Done));
    s := PairActs(s, 1, Action.TaskSucceeded(Done));
    s := PairActs(s, 0, GetRunProgress(true));
    s := PairActs(s, 1, GetRunProgress(true));
  }

  /** A worker that has passed it completes the run and its job. */
  lemma PassedCompletes(s: World, w: nat) returns (s': World)
    requires Pair(s) && w < 2 && s.workers[w] == AtCompleteRun(w, Progress(2, 0, 2))
    ensures Pair(s') && s'.workers == s.workers[w := AtPublish(w, RunSucceeded)]
    ensures s.runHist[0].clean ==> s'.runHist[0].clean
    ensures s'.log == s.log + [RunCompleted(0, RunSucceeded)] + [JobCompleted(0, RunSucceeded)]
  {
    s' := PairActs(s, w, CompleteRun(Done));
    s' := PairActs(s', w, CompleteJob(Done));
  }

  /** And announces it. */
  lemma PassedAnnounces(s: World, w: nat) returns (s': World)
    requires Pair(s) && w < 2 && s.workers[w] == AtCompleteRun(w, Progress(2, 0, 2))
    ensures Pair(s') && s'.workers == s.workers[w := Idle] && (s.runHist[0].clean ==> s'.runHist[0].clean)
    ensures Announcements(s'.log, 0) == Announcements(s.log, 0) + 1
  {
    var s1 := PassedCompletes(s, w);
    s' := PairActs(s1, w, Publish(true));
    AnnouncementsAppend(s.log, RunCompleted(0, RunSucceeded), 0);
    AnnouncementsAppend(s.log + [RunCompleted(0, RunSucceeded)], JobCompleted(0, RunSucceeded), 0);
    AnnouncementsAppend(s1.log, Announced(0, RunSucceeded, true), 0);
  }

  /** Without any fault, a run of two tasks is announced twice. */
  lemma RunIsAnnouncedTwice() returns (s: World)
    ensures Pair(s) && s.runHist[0].clean && s.workers == [Idle, Idle] && Announcements(s.log, 0) == 2
  {
    s := BothPassTheTest();
    s := PassedAnnounces(s, 0);
    s := PassedAnnounces(s, 1);
  }

  /** A run without a total, of which one task is not counted and the other is DEAD. */
  lemma DeadBesideUncounted() returns (s: World)
    ensures Pair(s) && s.workers == [AtProgress(0), Idle] && s.tasks[1].state == Dead
    ensures s.runs == [RunRow(0, RunCancelled, 0, -1, 1, 0, 0)]
  {
    s := TwoTasks();
    assert LeaseCandidate(s.tasks, s.now, {}) == Some(0);
    s := PairReachesCount(s, 0, 0);
    s := PairActs(s, 0, Action.TaskSucceeded(Lost));
    s := Execute(s, CancelRun(0));
    s := SecondIsBuried(s);
  }

  /** Its worker reads 0 of 0 as all done. */
  lemma ReadsZeroOfZero() returns (s: World)
    ensures Pair(s) && s.workers == [AtCompleteRun(0, Progress(0, 0, 0)), Idle] && s.tasks[1].state == Dead
  {
    var m := DeadBesideUncounted();
    var l := Local(m.workers[0], m.tasks[0], m.hist[0], m.runs[0], m.runHist[0], m.jobs[0], [], []);
    assert Act(l, GetRunProgress(true), RunTaskCount(m.tasks, 0), |m.artifacts|)
        == l.(phase := AtCompleteRun(0, Progress(0, 0, 0)));
    s := PairActs(m, 0, GetRunProgress(true));
  }

  /** A run with a DEAD task is completed as SUCCEEDED, on 0 of 0. */
  lemma DeadRunSucceeds() returns (s: World)
    ensures Reachable(s) && |s.runs| == 1 && |s.tasks| == 2 && s.tasks[1].run == 0 && s.tasks[1].state == Dead
    ensures s.runs[0].state == RunSucceeded && RunCompleted(0, RunSucceeded) in s.log
  {
    var m := ReadsZeroOfZero();
    s := PairActs(m, 0, CompleteRun(Done));
    assert s.log[|m.log|] == RunCompleted(0, RunSucceeded);
  }

  /** A cancelled run that can still be broken, by the success of a task, but never announced:
      its slot of the rate limiter is not given back. */
  lemma BreakableRunIsNeverAnnounced() returns (s: World)
    ensures Reachable(s) && IsCancelled(s, 0) && Breakable(s, 0) && !CanBeAnnounced(s, 0)
  {
    s := TwoTasksScheduled();
    assert LeaseCandidate(s.tasks, s.now, {}) == Some(0);
    s := PairReachesMark(s, 0, 0);
    s := Execute(s, CancelRun(0));
    s := SecondIsBuried(s);
    assert Breaks(s, 0, 0);
    ReachableInv(s);
    DeadIsUncountable(s, 1);
    CancelledRunAnnouncedIff(s, 0);
    assert forall v, d :: Announced(0, v, d) !in s.log;
    forall w: nat ensures !Announces(s, 0, w) {}
  }

  /** A cancelled run of idle workers that is never announced. */
  lemma BuriedRunIsNeverAnnounced() returns (s: World)
    ensures Reachable(s) && s.workers == [Idle, Idle] && IsCancelled(s, 0) && !CanBeAnnounced(s, 0)
  {
    s := TwoTasksScheduled();
    s := Execute(s, CancelRun(0));
    assert s.log == [RunCancelledBy(0)];
    CancelledRunAnnouncedIff(s, 0);
    assert forall v, d :: Announced(0, v, d) !in s.log;
    forall w: nat ensures !Announces(s, 0, w) {}
  }
}
