/** The lower bound of `tasks_pending` is attained: one worker that uses up every retry. */
module Tightness {
  import opened Faults
  import opened Tables
  import opened Protocol
  import opened Invariant
  import opened Preservation

  /** One job, one worker, and one run of `n` tasks that was scheduled first. */
  ghost predicate OneWorkerRun(s: World, n: nat, max: int) {
    && Reachable(s) && s.n == n >= 1
    && |s.jobs| == |s.runs| == |s.runHist| == |s.workers| == 1 && |s.tasks| == |s.hist| == n
    && s.jobs[0].maxRetries == max && s.runs[0].job == 0 && s.runs[0].state == RunSubmitted
    && s.runHist[0].sized && s.runHist[0].ready && !s.runHist[0].eager && s.runHist[0].clean
    && (forall t :: 0 <= t < n ==> s.tasks[t].run == 0)
  }

  /** The first `k` tasks have failed, the next one has been retried `j` times, and no other one
      was touched. */
  ghost predicate FailedSoFar(s: World, n: nat, max: int, k: nat, j: nat) {
    && OneWorkerRun(s, n, max) && s.workers == [Idle] && k <= n
    && (forall t :: 0 <= t < k ==> s.tasks[t].state == Failed)
    && (forall t :: k <= t < n ==> s.tasks[t].state == Pending && s.tasks[t].retries == if t == k then j else 0)
    && s.runs[0].pending == n - (k * (Max0(max) + 1) + j)
  }

  lemma Execute(s: World, st: Step) returns (s': World)
    requires Reachable(s) && Enabled(s, st)
    ensures s' == Next(s, st) && Reachable(s')
  {
    ReachableStep(s, st);
    s' := Next(s, st);
  }

  lemma BeginRun(n: nat, max: int) returns (s: World)
    requires n >= 1
    ensures Reachable(s) && s == World(n, 0, [JobRow(JobSubmitted, max)], [NewRun(0)], [], [], [Idle], [], [],
                                       [RunHistory([], false, false, false, 0, true)])
  {
    s := Init(n);
    LaterNow(s);
    s := Execute(s, SubmitJob(max));
    s := Execute(s, CreateRun(0));
    s := Execute(s, Spawn);
  }

  lemma {:induction false} CreateTasks(n: nat, max: int, i: nat) returns (s: World)
    requires 1 <= n && i <= n
    ensures Reachable(s) && s.n == n && s.jobs == [JobRow(JobSubmitted, max)] && s.runs == [NewRun(0)]
    ensures s.workers == [Idle] && s.log == [] && |s.tasks| == |s.hist| == i
    ensures |s.runHist| == 1 && |s.runHist[0].ids| == i
    ensures s.runHist[0] == RunHistory(s.runHist[0].ids, false, false, false, 0, true)
    ensures forall t :: 0 <= t < i ==> s.tasks[t] == NewTask(0, t)
  {
    if i == 0 {
      s := BeginRun(n, max);
    } else {
      var front := CreateTasks(n, max, i - 1);
      s := Execute(front, CreateTask(0));
    }
  }

  lemma ScheduleRun(n: nat, max: int) returns (s: World)
    requires n >= 1
    ensures FailedSoFar(s, n, max, 0, 0)
  {
    s := CreateTasks(n, max, n);
    s := Execute(s, UpdateRunTasksTotal(0));
    s := Execute(s, InitRunProgress(0));
  }

  /** The worker takes the oldest pending task. */
  lemma LeaseNextTask(s: World, n: nat, max: int, k: nat, j: nat) returns (s': World)
    requires FailedSoFar(s, n, max, k, j) && k < n
    ensures OneWorkerRun(s', n, max) && s'.workers == [AtFirstCheck(k, j)]
    ensures s'.tasks == s.tasks[k := LeaseRow(s.tasks[k], 0, s.now)] && s'.runs == s.runs
  {
    ReachableInv(s);
    assert TaskOk(s, k);
    assert LeaseCandidate(s.tasks, s.now, {}) == Some(k);
    s' := Execute(s, Lease(0, {}, Done));
  }

  /** No statement of the worker fails, and it completes nothing. */
  predicate Plain(a: Action) {
    match a
    case FirstGetRunState(ok) => ok
    case TaskStarted(o) => o.Done?
    case ProcessError(_) => true
    case GetJobForRetry(ok) => ok
    case RetryTask(o) => o.Done?
    case FailTaskWithError(o) => o.Done?
    case TaskFailed(o) => o.Done?
    case _ => false
  }

  lemma WorkerActs(s: World, n: nat, max: int, a: Action) returns (s': World)
    requires OneWorkerRun(s, n, max) && Enabled(s, Work(0, a)) && Plain(a)
    ensures OneWorkerRun(s', n, max)
    ensures var l' := Act(Look(s, 0), a, RunTaskCount(s.tasks, RunOf(s, 0)), |s.artifacts|);
            && s'.workers == [l'.phase] && s'.runs == [l'.run]
            && s'.tasks == s.tasks[TaskOf(s, 0) := l'.task]
  {
    s' := Execute(s, Work(0, a));
  }

  /** From the lease of task `k` to the decision whether to retry it. */
  lemma FailOnce(s: World, n: nat, max: int, k: nat, j: nat) returns (s': World)
    requires FailedSoFar(s, n, max, k, j) && k < n
    ensures OneWorkerRun(s', n, max)
    ensures s'.workers == [if j < max then AtRetry(k, j) else AtFail(k)]
    ensures s'.tasks == s.tasks[k := LeaseRow(s.tasks[k], 0, s.now)]
    ensures s'.runs[0].pending == s.runs[0].pending - 1
  {
    s' := LeaseNextTask(s, n, max, k, j);
    s' := WorkerActs(s', n, max, FirstGetRunState(true));
    s' := WorkerActs(s', n, max, TaskStarted(Done));
    s' := WorkerActs(s', n, max, ProcessError(true));
    s' := WorkerActs(s', n, max, GetJobForRetry(true));
  }

  lemma Attempt(s: World, n: nat, max: int, k: nat, j: nat) returns (s': World)
    requires FailedSoFar(s, n, max, k, j) && k < n && j < Max0(max)
    ensures FailedSoFar(s', n, max, k, j + 1)
  {
    var m := FailOnce(s, n, max, k, j);
    s' := WorkerActs(m, n, max, RetryTask(Done));
  }

  lemma LastAttempt(s: World, n: nat, max: int, k: nat) returns (s': World)
    requires FailedSoFar(s, n, max, k, Max0(max)) && k < n
    ensures FailedSoFar(s', n, max, k + 1, 0)
  {
    var m := FailOnce(s, n, max, k, Max0(max));
    m := WorkerActs(m, n, max, FailTaskWithError(Done));
    s' := WorkerActs(m, n, max, Action.TaskFailed(Done));
    assert (k + 1) * (Max0(max) + 1) == k * (Max0(max) + 1) + Max0(max) + 1;
  }

  lemma {:induction false} Attempts(s: World, n: nat, max: int, k: nat, j: nat) returns (s': World)
    requires FailedSoFar(s, n, max, k, 0) && k < n && j <= Max0(max)
    ensures FailedSoFar(s', n, max, k, j)
  {
    if j == 0 {
      s' := s;
    } else {
      var m := Attempts(s, n, max, k, j - 1);
      s' := Attempt(m, n, max, k, j - 1);
    }
  }

  lemma {:induction false} FailTasks(n: nat, max: int, k: nat) returns (s: World)
    requires 1 <= n && k <= n
    ensures FailedSoFar(s, n, max, k, 0)
  {
    if k == 0 {
      s := ScheduleRun(n, max);
    } else {
      var m := FailTasks(n, max, k - 1);
      m := Attempts(m, n, max, k - 1, Max0(max));
      s := LastAttempt(m, n, max, k - 1);
    }
  }

  /** For every number of partitions and every retry budget, without any fault, `tasks_pending`
      of a run that was scheduled first gets as low as `-n * max(0, max_retries)`. */
  lemma PendingBoundIsAttained(n: nat, max: int) returns (s: World)
    requires n >= 1
    ensures Reachable(s) && s.n == n && |s.runs| == |s.runHist| == |s.jobs| == 1 && s.runs[0].job == 0
    ensures s.jobs[0].maxRetries == max
    ensures s.runHist[0].ready && !s.runHist[0].eager && s.runHist[0].clean
    ensures s.runs[0].pending == 0 - n * Max0(max)
  {
    s := FailTasks(n, max, n);
    assert n * (Max0(max) + 1) == n * Max0(max) + n;
  }
}
