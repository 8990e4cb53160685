/** The worker: `pollAndProcess`, statement by statement. */
module Worker {
  import opened Faults
  import opened Sequences
  import opened Tables
  import opened Errors
  import opened Protocol
  import opened Invariant
  import History
  import opened Database

  /** What befalls one poll: the rows that are locked, the outcome of every write, whether every
      read and the publish succeed, and the errors that `process` meets before it has counted
      the run's tasks (`unreadable`) or in the subprocess (`broken`). */
  datatype Luck = Luck(
    locked: set<nat>, lease: Outcome,
    firstCheck: bool, bury: Outcome,
    started: Outcome,
    unreadable: Option<Error>, broken: Option<Error>, artifact: Outcome,
    job: bool, retry: Outcome, fail: Outcome, countFail: Outcome,
    secondCheck: bool, mark: Outcome, count: Outcome,
    progress: bool, complete: Outcome, completeJob: Outcome, delivered: bool)

  /** No statement fails. */
  predicate Faultless(luck: Luck) {
    && luck.lease.Done? && luck.firstCheck && luck.bury.Done? && luck.started.Done? && luck.artifact.Done?
    && luck.job && luck.retry.Done? && luck.fail.Done? && luck.countFail.Done?
    && luck.secondCheck && luck.mark.Done? && luck.count.Done?
    && luck.progress && luck.complete.Done? && luck.completeJob.Done?
  }

  /** The error that `process` returns. */
  function Failure(luck: Luck): Option<Error> {
    if luck.unreadable.Some? then luck.unreadable else luck.broken
  }

  /** How a poll ended, for task `t` that was leased with `k` retries; `late` says that it was
      after `process`. */
  datatype Poll =
    | NoTask
    | Abandoned(t: nat, k: nat, late: bool)     // a statement failed; the row keeps its lease
    | Buried(t: nat, k: nat, late: bool)
    | Retried(t: nat, k: nat)
    | GaveUp(t: nat, k: nat)
    | Completed(t: nat, k: nat, seen: Option<Progress>)

  // -- the statements of a poll, in order ------------------------------------------------

  function ProcessSteps(w: nat, luck: Luck): seq<Step> {
    if luck.unreadable.Some? then [Work(w, ProcessError(IsTransient(luck.unreadable.value)))]
    else if luck.broken.Some? then [Work(w, GetRunTaskCount)] + [Work(w, ProcessError(IsTransient(luck.broken.value)))]
    else [Work(w, GetRunTaskCount)] + [Work(w, CreateArtifact(luck.artifact))]
  }

  function JobSteps(w: nat, luck: Luck): seq<Step> {
    if luck.completeJob.Done? then [Work(w, CompleteJob(luck.completeJob))] + [Work(w, Publish(luck.delivered))]
    else [Work(w, CompleteJob(luck.completeJob))]
  }

  function FinishSteps(w: nat, luck: Luck): seq<Step> {
    if luck.complete.Done? then [Work(w, CompleteRun(luck.complete))] + JobSteps(w, luck)
    else [Work(w, CompleteRun(luck.complete))]
  }

  /** Progress that passes the completion test. */
  predicate PassesTest(seen: Option<Progress>) {
    seen.Some? && AllDone(seen.value)
  }

  function CheckSteps(w: nat, seen: Option<Progress>, luck: Luck): seq<Step> {
    if PassesTest(seen) then [Work(w, GetRunProgress(luck.progress))] + FinishSteps(w, luck)
    else [Work(w, GetRunProgress(luck.progress))]
  }

  function FailSteps(w: nat, luck: Luck): seq<Step> {
    [Work(w, FailTaskWithError(luck.fail))] + [Work(w, TaskFailed(luck.countFail))]
  }

  /** After an error of `process`. */
  function ErrorSteps(w: nat, res: Poll, luck: Luck): seq<Step> {
    if res.Retried? then [Work(w, GetJobForRetry(luck.job))] + [Work(w, RetryTask(luck.retry))]
    else [Work(w, GetJobForRetry(luck.job))] + FailSteps(w, luck)
  }

  /** From the mark on. */
  function MarkSteps(w: nat, res: Poll, luck: Luck): seq<Step> {
    if res.Completed? then
      [Work(w, UpdateTaskSucceeded(luck.mark))] + ([Work(w, TaskSucceeded(luck.count))] + CheckSteps(w, res.seen, luck))
    else [Work(w, UpdateTaskSucceeded(luck.mark))]
  }

  /** After a success of `process`. */
  function SuccessSteps(w: nat, res: Poll, luck: Luck): seq<Step> {
    if !luck.secondCheck then [Work(w, SecondGetRunState(luck.secondCheck))]
    else if res.Buried? then [Work(w, SecondGetRunState(luck.secondCheck))] + [Work(w, UpdateTaskDead(luck.bury))]
    else [Work(w, SecondGetRunState(luck.secondCheck))] + MarkSteps(w, res, luck)
  }

  function OutcomeSteps(w: nat, res: Poll, luck: Luck): seq<Step> {
    if Failure(luck).Some? then ErrorSteps(w, res, luck) else SuccessSteps(w, res, luck)
  }

  function TaskSteps(w: nat, res: Poll, luck: Luck): seq<Step> {
    [Work(w, TaskStarted(luck.started))] + (ProcessSteps(w, luck) + OutcomeSteps(w, res, luck))
  }

  /** From the first `GetRunState` on. */
  function HeldSteps(w: nat, res: Poll, luck: Luck): seq<Step> {
    if !luck.firstCheck then [Work(w, FirstGetRunState(luck.firstCheck))]
    else if res.Buried? && !res.late then
      [Work(w, FirstGetRunState(luck.firstCheck))] + [Work(w, UpdateTaskDead(luck.bury))]
    else [Work(w, FirstGetRunState(luck.firstCheck))] + TaskSteps(w, res, luck)
  }

  /** All statements of worker `w` in a poll that fares as `luck` says and ends with `res`. */
  function PollSteps(w: nat, res: Poll, luck: Luck): seq<Step> {
    if res.NoTask? then [Lease(w, luck.locked, luck.lease)]
    else [Lease(w, luck.locked, luck.lease)] + HeldSteps(w, res, luck)
  }

  class Worker {
    const id: nat

    constructor (id: nat)
      ensures this.id == id
    {
      this.id := id;
    }

    ghost predicate At(db: Database, p: Phase)
      reads db
    {
      db.Valid() && id < |db.world.workers| && db.world.workers[id] == p
    }

    /** Since `trace` the worker has executed `steps`, and nothing else. */
    ghost predicate Did(db: Database, trace: seq<Step>, states: seq<World>, steps: seq<Step>)
      reads db
    {
      && trace <= db.trace && states <= db.states
      && StepsOf(db.trace, id) == StepsOf(trace, id) + steps
    }

    /** What the worker knows of the row it is about to act on. */
    ghost predicate Holding(db: Database, p: Phase)
      requires !p.Idle?
      reads db
    {
      && At(db, p) && Busy(db.world, id) && InTables(db, p.t) && RunOf(db.world, id) == db.tasks[p.t].run
      && (p.AtRetry? ==> db.tasks[p.t].retries == p.retries)
      && var r := db.tasks[p.t].run; var j := db.runs[r].job;
         && db.tasks[p.t := db.tasks[p.t]] == db.tasks
         && db.runs[r := db.runs[r]] == db.runs
         && db.jobs[j := db.jobs[j]] == db.jobs
         && db.artifacts + [] == db.artifacts
    }

    ghost predicate InTables(db: Database, t: nat)
      reads db
    {
      t < |db.tasks| && db.tasks[t].run < |db.runs| && db.runs[db.tasks[t].run].job < |db.jobs|
    }

    /** Other processes act, and then it is the worker's turn. */
    method Turn(db: Database, ghost p: Phase)
      requires At(db, p) && !p.Idle?
      modifies db
      ensures Holding(db, p) && old(db.trace) <= db.trace && old(db.states) <= db.states
      ensures StepsOf(db.trace, id) == old(StepsOf(db.trace, id))
    {
      db.Wait(id);
      db.ValidInv();
      assert WorkerOk(db.world, id);
    }

    /** The statement just executed was this worker's statement `a`. */
    ghost method Issue(db: Database, a: Action)
      requires db.n >= 1 && Chain(Init(db.n), db.trace, db.states) && db.world == db.states[|db.trace|]
      requires |db.callers| == |db.trace|
      requires Busy(db.world, id) && Fits(db.world.workers[id], a)
      requires db.Holds(Next(db.world, Work(id, a)))
      modifies db`trace, db`states, db`callers, db`world
      ensures db.Valid() && db.trace == old(db.trace) + [Work(id, a)] && old(db.states) <= db.states
      ensures db.world == Next(old(db.world), Work(id, a))
      ensures StepsOf(db.trace, id) == old(StepsOf(db.trace, id)) + [Work(id, a)]
    {
      db.Record(Work(id, a), ByWorker(id));
      assert db.trace[..|db.trace| - 1] == old(db.trace);
    }

    // -- one statement each ------------------------------------------------------------

    /** Step `m` was this worker's lease of row `t`, the oldest one that was not locked. */
    ghost predicate TookAt(db: Database, m: nat, t: nat, k: nat, luck: Luck)
      reads db
    {
      && m < |db.trace| && m < |db.states| && db.trace[m] == Lease(id, luck.locked, Done)
      && LeaseCandidate(db.states[m].tasks, db.states[m].now, luck.locked) == Some(t)
      && t < |db.states[m].tasks| && db.states[m].tasks[t].retries == k
    }

    /** `LeaseTask`: the row's identifier and its retry count. */
    method LeaseOne(db: Database, luck: Luck) returns (leased: Option<(nat, nat)>, ghost at: nat)
      requires At(db, Idle)
      modifies db
      ensures Did(db, old(db.trace), old(db.states), [Lease(id, luck.locked, luck.lease)])
      ensures At(db, if leased.Some? then AtFirstCheck(leased.value.0, leased.value.1) else Idle)
      ensures leased.Some? ==> luck.lease.Done? && TookAt(db, at, leased.value.0, leased.value.1, luck)
      ensures |old(db.trace)| <= at < |db.trace|
      ensures leased.None? && luck.lease.Done? ==> LeaseCandidate(db.tasks, db.now, luck.locked).None?
    {
      db.Wait(id);
      db.ValidInv();
      ghost var s := db.world;
      at := |db.trace|;
      var row := db.LeaseTask(id, luck.locked, luck.lease);
      ghost var before := db.trace;
      db.Record(Lease(id, luck.locked, luck.lease), ByWorker(id));
      assert db.trace[..|db.trace| - 1] == before;
      leased := if row.Some? then Some((row.value, db.tasks[row.value].retries)) else None;
      assert db.states[at] == s;
    }

    /** The first `GetRunState`; an error ends the poll. */
    method CheckRunBefore(db: Database, t: nat, k: nat, ok: bool) returns (cancelled: bool)
      requires At(db, AtFirstCheck(t, k))
      modifies db
      ensures Did(db, old(db.trace), old(db.states), [Work(id, FirstGetRunState(ok))])
      ensures At(db, if !ok then Idle else if cancelled then AtBury(t) else AtStart(t, k))
      ensures t < |db.tasks| && (cancelled ==> RunCancelledBy(db.tasks[t].run) in db.world.log)
    {
      Turn(db, AtFirstCheck(t, k));
      cancelled := db.runs[db.tasks[t].run].state == RunCancelled;
      Issue(db, FirstGetRunState(ok));
      if cancelled { db.CancelledIsLogged(db.tasks[t].run); }
    }

    /** `UpdateTaskState(DEAD)` for a task of a cancelled run. */
    method Bury(db: Database, t: nat, o: Outcome)
      requires At(db, AtBury(t))
      modifies db
      ensures Did(db, old(db.trace), old(db.states), [Work(id, UpdateTaskDead(o))])
      ensures At(db, Idle) && t < |db.tasks| && (!o.Lost? ==> db.tasks[t].state == Dead)
    {
      Turn(db, AtBury(t));
      var _ := db.UpdateTaskState(t, Dead, o);
      Issue(db, UpdateTaskDead(o));
    }

    /** `TaskStarted`; an error is only logged. */
    method BeginTask(db: Database, t: nat, k: nat, o: Outcome)
      requires At(db, AtStart(t, k))
      modifies db
      ensures Did(db, old(db.trace), old(db.states), [Work(id, Action.TaskStarted(o))]) && At(db, AtProcess(t, k))
    {
      Turn(db, AtStart(t, k));
      var _ := db.TaskStarted(db.tasks[t].run, o);
      Issue(db, Action.TaskStarted(o));
    }

    /** `GetRunTaskCount`, the TOTAL_PARTITIONS of the subprocess. */
    method CountPartitions(db: Database, t: nat, k: nat) returns (total: nat)
      requires At(db, AtProcess(t, k))
      modifies db
      ensures Did(db, old(db.trace), old(db.states), [Work(id, Action.GetRunTaskCount)])
      ensures At(db, AtSubprocess(t, k, total))
    {
      Turn(db, AtProcess(t, k));
      total := db.GetRunTaskCount(db.tasks[t].run);
      Issue(db, Action.GetRunTaskCount);
    }

    /** `CreateArtifact`; an error is only logged. */
    method RegisterArtifact(db: Database, t: nat, k: nat, total: nat, o: Outcome)
      requires At(db, AtSubprocess(t, k, total))
      modifies db
      ensures Did(db, old(db.trace), old(db.states), [Work(id, Action.CreateArtifact(o))]) && At(db, AtSecondCheck(t))
    {
      Turn(db, AtSubprocess(t, k, total));
      db.CreateArtifact(db.tasks[t].run, db.tasks[t].partition, total, o);
      Issue(db, Action.CreateArtifact(o));
    }

    /** An error inside `process`. */
    method BreakProcess(db: Database, p: Phase, err: Error)
      requires At(db, p) && (p.AtProcess? || p.AtSubprocess?)
      modifies db
      ensures Did(db, old(db.trace), old(db.states), [Work(id, ProcessError(IsTransient(err)))])
      ensures At(db, AtDecide(p.t, p.retries, IsTransient(err)))
    {
      Turn(db, p);
      Issue(db, ProcessError(IsTransient(err)));
    }

    /** The retry limit of the task's job. */
    ghost function MaxRetries(db: Database, t: nat): int
      requires InTables(db, t)
      reads db
    {
      db.jobs[db.runs[db.tasks[t].run].job].maxRetries
    }

    /** `GetJobByRunID` and the retry decision. */
    method DecideRetry(db: Database, t: nat, k: nat, err: Error, ok: bool) returns (canRetry: bool)
      requires At(db, AtDecide(t, k, IsTransient(err)))
      modifies db
      ensures Did(db, old(db.trace), old(db.states), [Work(id, GetJobForRetry(ok))])
      ensures At(db, if canRetry then AtRetry(t, k) else AtFail(t))
      ensures InTables(db, t) && (canRetry <==> ok && k < MaxRetries(db, t) && IsTransient(err))
    {
      Turn(db, AtDecide(t, k, IsTransient(err)));
      var job := db.jobs[db.runs[db.tasks[t].run].job];
      canRetry := ok && k < job.maxRetries && IsTransient(err);
      Issue(db, GetJobForRetry(ok));
    }

    method ResetTask(db: Database, t: nat, k: nat, o: Outcome)
      requires At(db, AtRetry(t, k))
      modifies db
      ensures Did(db, old(db.trace), old(db.states), [Work(id, Action.RetryTask(o))]) && At(db, Idle)
      ensures t < |db.tasks| && (!o.Lost? ==> db.tasks[t].state == Pending && db.tasks[t].retries == k + 1)
    {
      Turn(db, AtRetry(t, k));
      db.RetryTask(t, o);
      Issue(db, Action.RetryTask(o));
    }

    method FailTask(db: Database, t: nat, o: Outcome)
      requires At(db, AtFail(t))
      modifies db
      ensures Did(db, old(db.trace), old(db.states), [Work(id, FailTaskWithError(o))]) && At(db, AtCountFail(t))
      ensures t < |db.tasks| && (!o.Lost? ==> db.tasks[t].state == Failed)
    {
      Turn(db, AtFail(t));
      var _ := db.UpdateTaskState(t, Failed, o);
      Issue(db, FailTaskWithError(o));
    }

    method CountFailed(db: Database, t: nat, o: Outcome)
      requires At(db, AtCountFail(t))
      modifies db
      ensures Did(db, old(db.trace), old(db.states), [Work(id, Action.TaskFailed(o))]) && At(db, Idle)
    {
      Turn(db, AtCountFail(t));
      var _ := db.TaskFailed(db.tasks[t].run, o);
      Issue(db, Action.TaskFailed(o));
    }

    /** The second `GetRunState`; an error ends the poll. */
    method CheckRunAfter(db: Database, t: nat, ok: bool) returns (cancelled: bool)
      requires At(db, AtSecondCheck(t))
      modifies db
      ensures Did(db, old(db.trace), old(db.states), [Work(id, SecondGetRunState(ok))])
      ensures At(db, if !ok then Idle else if cancelled then AtBury(t) else AtMark(t))
      ensures t < |db.tasks| && (cancelled ==> RunCancelledBy(db.tasks[t].run) in db.world.log)
    {
      Turn(db, AtSecondCheck(t));
      cancelled := db.runs[db.tasks[t].run].state == RunCancelled;
      Issue(db, SecondGetRunState(ok));
      if cancelled { db.CancelledIsLogged(db.tasks[t].run); }
    }

    /** `UpdateTaskState(SUCCEEDED)`; an error ends the poll. */
    method MarkTask(db: Database, t: nat, o: Outcome) returns (ok: bool)
      requires At(db, AtMark(t))
      modifies db
      ensures Did(db, old(db.trace), old(db.states), [Work(id, UpdateTaskSucceeded(o))]) && ok == o.Done?
      ensures At(db, if ok then AtCount(t) else Idle)
      ensures t < |db.tasks| && (ok ==> db.tasks[t].state == Succeeded)
    {
      Turn(db, AtMark(t));
      ok := db.UpdateTaskState(t, Succeeded, o);
      Issue(db, UpdateTaskSucceeded(o));
    }

    method CountSucceeded(db: Database, t: nat, o: Outcome)
      requires At(db, AtCount(t))
      modifies db
      ensures Did(db, old(db.trace), old(db.states), [Work(id, Action.TaskSucceeded(o))]) && At(db, AtProgress(t))
    {
      Turn(db, AtCount(t));
      var _ := db.TaskSucceeded(db.tasks[t].run, o);
      Issue(db, Action.TaskSucceeded(o));
    }

    /** Since step `from` the worker has read progress `seen` of run `r`. */
    ghost predicate Read(db: Database, from: nat, r: nat, seen: Progress)
      reads db
    {
      exists m :: from <= m < |db.trace| && ReadAt(db, m, r, seen)
    }

    ghost predicate ReadAt(db: Database, m: nat, r: nat, seen: Progress)
      reads db
    {
      && m < |db.trace| && m + 1 < |db.states| && db.trace[m] == Work(id, Action.GetRunProgress(true))
      && r < |db.states[m + 1].runs| && ProgressOf(db.states[m + 1].runs[r]) == seen
    }

    /** Step `m` was this worker's CompleteRun, and left run `r` in `state`. */
    ghost predicate RunWrittenAt(db: Database, m: nat, r: nat, state: RunState)
      reads db
    {
      && m < |db.trace| && m + 1 < |db.states| && db.trace[m].Work? && db.trace[m].w == id
      && db.trace[m].a.CompleteRun? && r < |db.states[m + 1].runs| && db.states[m + 1].runs[r].state == state
    }

    /** Step `m` was this worker's CompleteJob, and left the job of run `r` in `state`. */
    ghost predicate JobWrittenAt(db: Database, m: nat, r: nat, state: JobState)
      reads db
    {
      && m < |db.trace| && m + 1 < |db.states| && db.trace[m].Work? && db.trace[m].w == id
      && db.trace[m].a.CompleteJob? && r < |db.states[m + 1].runs|
      && db.states[m + 1].runs[r].job < |db.states[m + 1].jobs|
      && db.states[m + 1].jobs[db.states[m + 1].runs[r].job].state == state
    }

    ghost predicate RunWritten(db: Database, from: nat, r: nat, state: RunState)
      reads db
    {
      exists m :: from <= m && RunWrittenAt(db, m, r, state)
    }

    ghost predicate JobWritten(db: Database, from: nat, r: nat, state: JobState)
      reads db
    {
      exists m :: from <= m && JobWrittenAt(db, m, r, state)
    }

    /** `GetRunProgress`. */
    method ReadProgress(db: Database, t: nat, ok: bool) returns (seen: Progress)
      requires At(db, AtProgress(t))
      modifies db
      ensures Did(db, old(db.trace), old(db.states), [Work(id, Action.GetRunProgress(ok))])
      ensures At(db, if ok && AllDone(seen) then AtCompleteRun(t, seen) else Idle)
      ensures t < |db.tasks| && |old(db.trace)| < |db.trace|
      ensures ok ==> ReadAt(db, |db.trace| - 1, db.tasks[t].run, seen)
    {
      Turn(db, AtProgress(t));
      var run := db.runs[db.tasks[t].run];
      seen := Progress(run.done, run.failed, run.total);
      Issue(db, Action.GetRunProgress(ok));
    }

    method CompleteRun(db: Database, t: nat, seen: Progress, verdict: RunState, o: Outcome) returns (ok: bool)
      requires At(db, AtCompleteRun(t, seen)) && verdict == RunVerdict(seen.failed)
      modifies db
      ensures Did(db, old(db.trace), old(db.states), [Work(id, Action.CompleteRun(o))]) && ok == o.Done?
      ensures At(db, if ok then AtCompleteJob(t, verdict) else Idle)
      ensures t < |db.tasks| && (!o.Lost? ==> RunCompleted(db.tasks[t].run, verdict) in db.world.log)
      ensures |old(db.trace)| < |db.trace|
      ensures !o.Lost? ==> RunWrittenAt(db, |db.trace| - 1, db.tasks[t].run, verdict)
    {
      Turn(db, AtCompleteRun(t, seen));
      ok := db.UpdateRunState(db.tasks[t].run, verdict, o);
      ghost var s := db.world;
      Issue(db, Action.CompleteRun(o));
      assert !o.Lost? ==> db.world.log[|s.log|] == RunCompleted(db.tasks[t].run, verdict);
    }

    /** `GetJobByRunID` and `CompleteJob`. */
    method CompleteJob(db: Database, t: nat, verdict: RunState, o: Outcome) returns (ok: bool)
      requires At(db, AtCompleteJob(t, verdict))
      modifies db
      ensures Did(db, old(db.trace), old(db.states), [Work(id, Action.CompleteJob(o))]) && ok == o.Done?
      ensures At(db, if ok then AtPublish(t, verdict) else Idle)
      ensures t < |db.tasks| && (!o.Lost? ==> JobCompleted(db.tasks[t].run, verdict) in db.world.log)
      ensures |old(db.trace)| < |db.trace|
      ensures !o.Lost? ==> JobWrittenAt(db, |db.trace| - 1, db.tasks[t].run,
                                        if verdict == RunFailed then JobFailed else JobSucceeded)
    {
      Turn(db, AtCompleteJob(t, verdict));
      ok := db.UpdateJobState(db.runs[db.tasks[t].run].job, JobVerdict(verdict), o);
      ghost var s := db.world;
      Issue(db, Action.CompleteJob(o));
      assert !o.Lost? ==> db.world.log[|s.log|] == JobCompleted(db.tasks[t].run, verdict);
    }

    /** Publish `job.completed`; an error is only logged. */
    method PublishCompleted(db: Database, t: nat, verdict: RunState, delivered: bool)
      requires At(db, AtPublish(t, verdict))
      modifies db
      ensures Did(db, old(db.trace), old(db.states), [Work(id, Publish(delivered))]) && At(db, Idle)
      ensures t < |db.tasks| && Announced(db.tasks[t].run, verdict, delivered) in db.world.log
    {
      Turn(db, AtPublish(t, verdict));
      ghost var s := db.world;
      Issue(db, Publish(delivered));
      assert db.world.log[|s.log|] == Announced(db.tasks[t].run, verdict, delivered);
    }

    // -- the control flow of the source --------------------------------------------------

    /** `process`: reads, the subprocess, and the registration of its output. */
    method Process(db: Database, t: nat, k: nat, luck: Luck) returns (err: Option<Error>)
      requires At(db, AtProcess(t, k))
      modifies db
      ensures Did(db, old(db.trace), old(db.states), ProcessSteps(id, luck)) && err == Failure(luck)
      ensures At(db, if err.None? then AtSecondCheck(t) else AtDecide(t, k, IsTransient(err.value)))
    {
      if luck.unreadable.Some? {
        BreakProcess(db, AtProcess(t, k), luck.unreadable.value);
        return luck.unreadable;
      }
      var total := CountPartitions(db, t, k);
      if luck.broken.Some? {
        BreakProcess(db, AtSubprocess(t, k, total), luck.broken.value);
        return luck.broken;
      }
      RegisterArtifact(db, t, k, total, luck.artifact);
      err := None;
    }

    /** A task keeps its run, its job, its retry limit and a final state. */
    lemma RowStays(db: Database, m: nat, t: nat)
      requires db.Valid() && m <= |db.trace| && t < |db.states[m].tasks|
      ensures var s := db.states[m];
              && Shaped(s) && InTables(db, t) && db.tasks[t].run == s.tasks[t].run
              && MaxRetries(db, t) == s.jobs[s.runs[s.tasks[t].run].job].maxRetries
              && s.log <= db.world.log && (History.Finished(s.tasks[t].state) ==> db.tasks[t].state == s.tasks[t].state)
    {
      db.Grew(m);
      var s := db.states[m];
      assert History.TaskEvolves(s.tasks[t], s.hist[t], db.world.tasks[t], db.world.hist[t]);
      var r := s.tasks[t].run;
      assert History.RunEvolves(s.runs[r], s.runHist[r], db.world.runs[r], db.world.runHist[r]);
    }

    /** The retry decision of a poll that leased task `t` with `k` retries. */
    ghost predicate Retries(db: Database, t: nat, k: nat, luck: Luck)
      reads db
    {
      && InTables(db, t) && Failure(luck).Some?
      && luck.job && k < MaxRetries(db, t) && !Refuses(Failure(luck).value)
    }

    /** What `pollAndProcess` does when `process` returned an error: the task is retried iff the
        job could be read, has retries left and no permanent `JobError` comes first in the
        error. */
    method HandleError(db: Database, t: nat, k: nat, err: Error, luck: Luck) returns (res: Poll)
      requires At(db, AtDecide(t, k, IsTransient(err))) && Failure(luck) == Some(err)
      modifies db
      ensures InTables(db, t)
      ensures res == if luck.job && k < MaxRetries(db, t) && !Refuses(err) then Retried(t, k) else GaveUp(t, k)
      ensures (forall n: nat :: !IsJobError(Layer(err, n))) ==> (res.Retried? <==> luck.job && k < MaxRetries(db, t))
      ensures Did(db, old(db.trace), old(db.states), ErrorSteps(id, res, luck)) && At(db, Idle)
      ensures res.Retried? && !luck.retry.Lost? ==> db.tasks[t].state == Pending && db.tasks[t].retries == k + 1
      ensures res.GaveUp? && !luck.fail.Lost? ==> db.tasks[t].state == Failed
    {
      ghost var steps, decide := StepsOf(db.trace, id), [Work(id, GetJobForRetry(luck.job))];
      var canRetry := DecideRetry(db, t, k, err, luck.job);
      TransientUnlessRefused(err);
      ghost var m := |db.trace|;
      if canRetry {
        ResetTask(db, t, k, luck.retry);
        res := Retried(t, k);
        Assoc(steps, decide, [Work(id, Action.RetryTask(luck.retry))]);
      } else {
        GiveUp(db, t, luck);
        res := GaveUp(t, k);
        Assoc(steps, decide, FailSteps(id, luck));
      }
      RowStays(db, m, t);
    }

    method GiveUp(db: Database, t: nat, luck: Luck)
      requires At(db, AtFail(t))
      modifies db
      ensures Did(db, old(db.trace), old(db.states), FailSteps(id, luck))
      ensures At(db, Idle) && t < |db.tasks| && (!luck.fail.Lost? ==> db.tasks[t].state == Failed)
    {
      FailTask(db, t, luck.fail);
      ghost var m := |db.trace|;
      CountFailed(db, t, luck.countFail);
      RowStays(db, m, t);
    }

    /** Since step `from` the run of task `t` and its job were left in the state that the progress
        `seen`, which passed the test, calls for, and announced with it, as far as no write
        failed. */
    ghost predicate Finished(db: Database, from: nat, t: nat, seen: Progress, luck: Luck)
      reads db
    {
      t < |db.tasks| &&
      var r, v, log := db.tasks[t].run, if seen.failed > 0 then RunFailed else RunSucceeded, db.world.log;
      && (!luck.complete.Lost? ==> RunCompleted(r, v) in log && RunWritten(db, from, r, v))
      && (luck.complete.Done? && !luck.completeJob.Lost? ==>
            JobCompleted(r, v) in log && JobWritten(db, from, r, if seen.failed > 0 then JobFailed else JobSucceeded))
      && (luck.complete.Done? && luck.completeJob.Done? ==> Announced(r, v, luck.delivered) in log)
    }

    /** What `checkAndCompleteRun` has done since step `from`. */
    ghost predicate Concluded(db: Database, from: nat, t: nat, seen: Option<Progress>, luck: Luck)
      reads db
    {
      && t < |db.tasks| && (seen.Some? <==> luck.progress)
      && (seen.Some? ==> Read(db, from, db.tasks[t].run, seen.value))
      && (PassesTest(seen) ==> Finished(db, from, t, seen.value, luck))
    }

    /** `checkAndCompleteRun`: the run is completed iff the progress read says that all tasks are
        done, and with the verdict of that progress. */
    method CheckAndCompleteRun(db: Database, t: nat, luck: Luck) returns (seen: Option<Progress>)
      requires At(db, AtProgress(t))
      modifies db
      ensures Did(db, old(db.trace), old(db.states), CheckSteps(id, seen, luck)) && At(db, Idle)
      ensures Concluded(db, |old(db.trace)|, t, seen, luck)
    {
      ghost var steps, read := StepsOf(db.trace, id), [Work(id, Action.GetRunProgress(luck.progress))];
      var progress := ReadProgress(db, t, luck.progress);
      ghost var m := |db.trace| - 1;
      if !luck.progress { return None; }
      seen := Some(progress);
      if progress.done + progress.failed == progress.total {
        var verdict := RunSucceeded;
        if progress.failed > 0 { verdict := RunFailed; }
        FinishRun(db, t, progress, verdict, luck);
        RowStays(db, m + 1, t);
        Assoc(steps, read, FinishSteps(id, luck));
        assert ReadAt(db, m, db.tasks[t].run, progress);
      }
    }

    /** The part of it behind the completion test. */
    method FinishRun(db: Database, t: nat, seen: Progress, verdict: RunState, luck: Luck)
      requires At(db, AtCompleteRun(t, seen)) && verdict == RunVerdict(seen.failed)
      modifies db
      ensures Did(db, old(db.trace), old(db.states), FinishSteps(id, luck)) && At(db, Idle)
      ensures Finished(db, |old(db.trace)|, t, seen, luck)
    {
      var ok := CompleteRun(db, t, seen, verdict, luck.complete);
      ghost var c := |db.trace|;
      assert !luck.complete.Lost? ==> RunWrittenAt(db, c - 1, db.tasks[t].run, verdict);
      if !ok { return; }
      FinishJob(db, t, verdict, luck);
      RowStays(db, c, t);
      assert RunWrittenAt(db, c - 1, db.tasks[t].run, verdict);
    }

    method FinishJob(db: Database, t: nat, verdict: RunState, luck: Luck)
      requires At(db, AtCompleteJob(t, verdict)) && luck.complete.Done?
      modifies db
      ensures Did(db, old(db.trace), old(db.states), JobSteps(id, luck)) && At(db, Idle) && t < |db.tasks|
      ensures !luck.completeJob.Lost? ==> JobCompleted(db.tasks[t].run, verdict) in db.world.log
      ensures !luck.completeJob.Lost? ==> JobWritten(db, |old(db.trace)|, db.tasks[t].run,
                                                     if verdict == RunFailed then JobFailed else JobSucceeded)
      ensures luck.completeJob.Done? ==> Announced(db.tasks[t].run, verdict, luck.delivered) in db.world.log
    {
      var ok := CompleteJob(db, t, verdict, luck.completeJob);
      ghost var m, state := |db.trace|, if verdict == RunFailed then JobFailed else JobSucceeded;
      assert !luck.completeJob.Lost? ==> JobWrittenAt(db, m - 1, db.tasks[t].run, state);
      if !ok { return; }
      PublishCompleted(db, t, verdict, luck.delivered);
      RowStays(db, m, t);
      assert JobWrittenAt(db, m - 1, db.tasks[t].run, state);
    }

    /** What a poll that ended with `res` says about the tables, since step `from`. */
    ghost predicate Ended(db: Database, from: nat, res: Poll, luck: Luck)
      reads db
    {
      res.NoTask? ||
      (&& InTables(db, res.t)
       && var task := db.tasks[res.t];
          match res
          case NoTask => true
          case Abandoned(_, _, late) =>
            if late then Failure(luck).None? && !(luck.secondCheck && luck.mark.Done?) else !luck.firstCheck
          case Buried(_, _, late) =>
            && RunCancelledBy(task.run) in db.world.log && (late ==> Failure(luck).None?)
            && (!luck.bury.Lost? ==> task.state == Dead)
          case Retried(t, k) =>
            && Retries(db, t, k, luck)
            && (!luck.retry.Lost? ==> task.state == Pending && task.retries == k + 1)
          case GaveUp(t, k) =>
            && Failure(luck).Some? && !Retries(db, t, k, luck)
            && (!luck.fail.Lost? ==> task.state == Failed)
          case Completed(t, _, seen) =>
            && Failure(luck).None? && task.state == Succeeded
            && exists m :: from <= m && Concluded(db, m, t, seen, luck))
    }

    /** What `pollAndProcess` does when `process` returned nil. */
    method HandleSuccess(db: Database, t: nat, k: nat, luck: Luck) returns (res: Poll)
      requires At(db, AtSecondCheck(t)) && Failure(luck).None?
      modifies db
      ensures Did(db, old(db.trace), old(db.states), SuccessSteps(id, res, luck)) && At(db, Idle)
      ensures Ended(db, |old(db.trace)|, res, luck) && (res.Abandoned? || res.Buried? ==> res.late)
      ensures !res.NoTask? && res.t == t && res.k == k
    {
      ghost var steps, check := StepsOf(db.trace, id), [Work(id, SecondGetRunState(luck.secondCheck))];
      var cancelled := CheckRunAfter(db, t, luck.secondCheck);
      ghost var m := |db.trace|;
      if !luck.secondCheck {
        res := Abandoned(t, k, true);
      } else if cancelled {
        Bury(db, t, luck.bury);
        res := Buried(t, k, true);
        Assoc(steps, check, [Work(id, UpdateTaskDead(luck.bury))]);
      } else {
        res := FinishTask(db, t, k, luck);
        Assoc(steps, check, MarkSteps(id, res, luck));
      }
      RowStays(db, m, t);
    }

    method FinishTask(db: Database, t: nat, k: nat, luck: Luck) returns (res: Poll)
      requires At(db, AtMark(t)) && Failure(luck).None? && luck.secondCheck
      modifies db
      ensures Did(db, old(db.trace), old(db.states), MarkSteps(id, res, luck)) && At(db, Idle)
      ensures Ended(db, |old(db.trace)|, res, luck)
      ensures if luck.mark.Done? then res.Completed? && res.t == t && res.k == k else res == Abandoned(t, k, true)
    {
      ghost var steps, mark := StepsOf(db.trace, id), [Work(id, UpdateTaskSucceeded(luck.mark))];
      ghost var count := [Work(id, Action.TaskSucceeded(luck.count))];
      var ok := MarkTask(db, t, luck.mark);
      ghost var m := |db.trace|;
      if !ok {
        RowStays(db, m, t);
        return Abandoned(t, k, true);
      }
      CountSucceeded(db, t, luck.count);
      ghost var from := |db.trace|;
      var seen := CheckAndCompleteRun(db, t, luck);
      RowStays(db, m, t);
      assert Concluded(db, from, t, seen, luck);
      Assoc(steps, mark, count);
      Assoc(steps, mark + count, CheckSteps(id, seen, luck));
      Assoc(mark, count, CheckSteps(id, seen, luck));
      res := Completed(t, k, seen);
    }

    /** `process` and what follows it. */
    method ProcessTask(db: Database, t: nat, k: nat, luck: Luck) returns (res: Poll)
      requires At(db, AtProcess(t, k))
      modifies db
      ensures Did(db, old(db.trace), old(db.states), ProcessSteps(id, luck) + OutcomeSteps(id, res, luck))
      ensures At(db, Idle) && Ended(db, |old(db.trace)|, res, luck) && (res.Abandoned? || res.Buried? ==> res.late)
      ensures !res.NoTask? && res.t == t && res.k == k
    {
      ghost var steps := StepsOf(db.trace, id);
      var err := Process(db, t, k, luck);
      if err.Some? {
        res := HandleError(db, t, k, err.value, luck);
      } else {
        res := HandleSuccess(db, t, k, luck);
      }
      Assoc(steps, ProcessSteps(id, luck), OutcomeSteps(id, res, luck));
    }

    /** From `TaskStarted` to the end of the poll. */
    method RunTask(db: Database, t: nat, k: nat, luck: Luck) returns (res: Poll)
      requires At(db, AtStart(t, k))
      modifies db
      ensures Did(db, old(db.trace), old(db.states), TaskSteps(id, res, luck)) && At(db, Idle)
      ensures Ended(db, |old(db.trace)|, res, luck) && (res.Abandoned? || res.Buried? ==> res.late)
      ensures !res.NoTask? && res.t == t && res.k == k
    {
      ghost var steps, first := StepsOf(db.trace, id), [Work(id, Action.TaskStarted(luck.started))];
      BeginTask(db, t, k, luck.started);
      res := ProcessTask(db, t, k, luck);
      Assoc(steps, first, ProcessSteps(id, luck) + OutcomeSteps(id, res, luck));
    }

    /** From the first `GetRunState` to the end of the poll. */
    method PollTask(db: Database, t: nat, k: nat, luck: Luck) returns (res: Poll)
      requires At(db, AtFirstCheck(t, k))
      modifies db
      ensures Did(db, old(db.trace), old(db.states), HeldSteps(id, res, luck)) && At(db, Idle)
      ensures Ended(db, |old(db.trace)|, res, luck) && !res.NoTask? && res.t == t && res.k == k
    {
      ghost var steps := StepsOf(db.trace, id);
      var cancelled := CheckRunBefore(db, t, k, luck.firstCheck);
      ghost var m := |db.trace|;
      if !luck.firstCheck {
        res := Abandoned(t, k, false);
      } else if cancelled {
        Bury(db, t, luck.bury);
        res := Buried(t, k, false);
        Assoc(steps, [Work(id, FirstGetRunState(luck.firstCheck))], [Work(id, UpdateTaskDead(luck.bury))]);
      } else {
        res := RunTask(db, t, k, luck);
        Assoc(steps, [Work(id, FirstGetRunState(luck.firstCheck))], TaskSteps(id, res, luck));
      }
      RowStays(db, m, t);
    }

    /** `pollAndProcess`: whatever happens between its statements, the worker takes the oldest
        row that is not locked, if there is one, and then issues exactly the statements that
        its luck and the result call for. */
    method PollAndProcess(db: Database, luck: Luck) returns (res: Poll, ghost at: nat)
      requires At(db, Idle)
      modifies db
      ensures Did(db, old(db.trace), old(db.states), PollSteps(id, res, luck)) && At(db, Idle)
      ensures Ended(db, |old(db.trace)|, res, luck)
      ensures res.NoTask? && luck.lease.Done? ==> LeaseCandidate(db.tasks, db.now, luck.locked).None?
      ensures !res.NoTask? ==> luck.lease.Done? && |old(db.trace)| <= at && TookAt(db, at, res.t, res.k, luck)
      ensures Faultless(luck) && !res.NoTask? && RunCancelledBy(db.tasks[res.t].run) !in db.world.log ==>
                if Failure(luck).None? then res.Completed? && res.seen.Some?
                else res.Retried? <==> res.k < MaxRetries(db, res.t) && !Refuses(Failure(luck).value)
    {
      ghost var steps := StepsOf(db.trace, id);
      var leased;
      leased, at := LeaseOne(db, luck);
      if leased.None? { return NoTask, at; }
      res := PollTask(db, leased.value.0, leased.value.1, luck);
      Assoc(steps, [Lease(id, luck.locked, luck.lease)], HeldSteps(id, res, luck));
      assert TookAt(db, at, res.t, res.k, luck);
    }

    /** All statements of the polls that ended with `results`. */
    ghost function AllSteps(results: seq<Poll>, lucks: seq<Luck>): seq<Step>
      requires |results| <= |lucks|
    {
      if results == [] then []
      else
        var m := |results| - 1;
        AllSteps(results[..m], lucks) + PollSteps(id, results[m], lucks[m])
    }

    /** `Start`: one poll after the other; a crash is a prefix of this loop. */
    method Start(db: Database, lucks: seq<Luck>) returns (results: seq<Poll>)
      requires At(db, Idle)
      modifies db
      ensures At(db, Idle) && |results| == |lucks|
      ensures Did(db, old(db.trace), old(db.states), AllSteps(results, lucks))
    {
      results := [];
      for i := 0 to |lucks|
        invariant At(db, Idle) && |results| == i
        invariant Did(db, old(db.trace), old(db.states), AllSteps(results, lucks))
      {
        ghost var before := AllSteps(results, lucks);
        var res, _ := PollAndProcess(db, lucks[i]);
        Assoc(StepsOf(old(db.trace), id), before, PollSteps(id, res, lucks[i]));
        assert (results + [res])[..i] == results;
        results := results + [res];
      }
    }

    // -- heartbeats ------------------------------------------------------------------------

    /** How many heartbeats for task `t` have taken effect. */
    ghost function BeatsOf(tr: seq<Step>, t: nat): nat {
      if tr == [] then 0
      else BeatsOf(tr[..|tr| - 1], t) + if tr[|tr| - 1] == Heartbeat(id, t) then 1 else 0
    }

    lemma {:induction false} BeatsKept(tr: seq<Step>, m: nat, t: nat)
      requires m <= |tr| && forall i :: m <= i < |tr| ==> tr[i] != Heartbeat(id, t)
      ensures BeatsOf(tr, t) == BeatsOf(tr[..m], t)
      decreases |tr|
    {
      if m == |tr| {
        assert tr[..m] == tr;
      } else {
        BeatsKept(tr[..|tr| - 1], m, t);
        assert tr[..|tr| - 1][..m] == tr[..m];
      }
    }

    /** Every heartbeat since step `from` found the row in this worker's hands and extended its
        lease to 30 seconds from then. */
    ghost predicate Extends(db: Database, from: nat, t: nat)
      requires db.Valid()
      reads db
    {
      forall i :: from <= i < |db.trace| && db.trace[i] == Heartbeat(id, t) ==>
        Extended(db.states[i], db.states[i + 1], t)
    }

    predicate Extended(s: World, s': World, t: nat) {
      && t < |s.tasks| && t < |s'.tasks| && s.tasks[t].owner == Some(id)
      && s'.tasks[t] == s.tasks[t].(expires := Some(s.now + 30000))
    }

    /** The other processes act between two ticks. */
    method WaitTick(db: Database, t: nat, ghost from: nat)
      requires db.Valid() && t < |db.tasks| && id < |db.world.workers|
      requires from <= |db.trace| && Extends(db, from, t)
      modifies db
      ensures db.Valid() && old(db.trace) <= db.trace && old(db.states) <= db.states
      ensures t < |db.tasks| && id < |db.world.workers| && Extends(db, from, t)
      ensures BeatsOf(db.trace, t) == old(BeatsOf(db.trace, t))
    {
      ghost var m := |db.trace|;
      db.Interfere(st => st == Heartbeat(id, t), ByHeartbeat(id));
      db.Grew(m);
      BeatsKept(db.trace, m, t);
      assert db.trace[..m] == old(db.trace);
    }

    /** One `HeartbeatTask`. */
    method Beat(db: Database, t: nat, o: Outcome, ghost from: nat) returns (ok: bool)
      requires db.Valid() && t < |db.tasks| && id < |db.world.workers|
      requires from <= |db.trace| && Extends(db, from, t)
      modifies db
      ensures db.Valid() && old(db.trace) <= db.trace && old(db.states) <= db.states
      ensures t < |db.tasks| && id < |db.world.workers| && Extends(db, from, t)
      ensures ok <==> o.Done? && db.tasks[t].owner == Some(id)
      ensures BeatsOf(db.trace, t) == old(BeatsOf(db.trace, t))
                                      + if !o.Lost? && db.tasks[t].owner == Some(id) then 1 else 0
    {
      ghost var before, s := db.trace, db.world;
      var found := db.HeartbeatTask(t, id, o);
      if found && !o.Lost? {
        db.Record(Heartbeat(id, t), ByHeartbeat(id));
        assert db.trace[..|db.trace| - 1] == before;
        assert Extended(s, db.world, t);
      }
      ok := found && o.Done?;
    }

    /** `heartbeat`: one UPDATE per tick until the first error or the end of the poll.  It runs
        beside the poll, so any statement may come between two beats.  It goes on exactly as
        long as the UPDATE works and the worker owns the row, and each beat extends the lease. */
    method HeartbeatLoop(db: Database, t: nat, ticks: seq<Outcome>) returns (beats: nat)
      requires db.Valid() && t < |db.tasks| && id < |db.world.workers|
      modifies db
      ensures db.Valid() && old(db.trace) <= db.trace && old(db.states) <= db.states
      ensures t < |db.tasks| && beats <= |ticks| && Extends(db, |old(db.trace)|, t)
      ensures forall i :: 0 <= i < beats ==> ticks[i].Done?
      ensures beats < |ticks| ==> !ticks[beats].Done? || db.tasks[t].owner != Some(id)
      ensures beats <= BeatsOf(db.trace, t) - old(BeatsOf(db.trace, t)) <= beats + 1
    {
      beats := 0;
      ghost var from := |db.trace|;
      while beats < |ticks|
        invariant db.Valid() && old(db.trace) <= db.trace && old(db.states) <= db.states
        invariant t < |db.tasks| && id < |db.world.workers| && beats <= |ticks| && Extends(db, from, t)
        invariant forall i :: 0 <= i < beats ==> ticks[i].Done?
        invariant BeatsOf(db.trace, t) - old(BeatsOf(db.trace, t)) == beats
      {
        WaitTick(db, t, from);
        var ok := Beat(db, t, ticks[beats], from);
        if !ok { return; }
        beats := beats + 1;
      }
    }
  }
}
