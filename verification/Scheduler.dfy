/** The scheduler: `HandleJobSubmitted`, statement by statement. */
module Scheduler {
  import opened Faults
  import opened Sequences
  import opened Tables
  import opened Protocol
  import opened Invariant
  import opened Preservation
  import opened History
  import opened Database

  ghost predicate HasTask(tasks: seq<TaskRow>, r: nat, p: nat) {
    exists t :: 0 <= t < |tasks| && tasks[t].run == r && tasks[t].partition == p
  }

  /** The outcome of every write of the handler; `task(i)` is that of the `i`th `CreateTask`. */
  datatype Luck = Luck(queue: Outcome, run: Outcome, task: nat -> Outcome, total: Outcome, init: Outcome)

  predicate TasksDone(luck: Luck, n: nat) {
    forall i :: 0 <= i < n ==> luck.task(i).Done?
  }

  predicate Faultless(luck: Luck, n: nat) {
    luck.queue.Done? && luck.run.Done? && TasksDone(luck, n) && luck.total.Done? && luck.init.Done?
  }

  // -- the statements of the handler, in order -------------------------------------------

  function InitSteps(r: nat, luck: Luck): seq<Step> {
    if luck.init.Lost? then [] else [InitRunProgress(r)]
  }

  function TotalSteps(r: nat, luck: Luck): seq<Step> {
    if luck.total.Lost? then []
    else if luck.total.Done? then [UpdateRunTasksTotal(r)] + InitSteps(r, luck)
    else [UpdateRunTasksTotal(r)]
  }

  /** From the `i`th of `n` tasks on. */
  function TaskSteps(r: nat, luck: Luck, i: nat, n: nat): seq<Step>
    requires i <= n
    decreases n - i
  {
    if i == n then TotalSteps(r, luck)
    else if luck.task(i).Lost? then []
    else if luck.task(i).Done? then [CreateTask(r)] + TaskSteps(r, luck, i + 1, n)
    else [CreateTask(r)]
  }

  function RunSteps(j: nat, r: nat, luck: Luck, n: nat): seq<Step> {
    if luck.run.Lost? then []
    else if luck.run.Done? then [CreateRun(j)] + TaskSteps(r, luck, 0, n)
    else [CreateRun(j)]
  }

  /** All statements of the handler that take effect, for job `j` and the run `r` it creates, up
      to the first one that fails. */
  function HandlerSteps(j: nat, r: nat, luck: Luck, n: nat): seq<Step> {
    if luck.queue.Lost? then []
    else if luck.queue.Done? then [QueueJob(j)] + RunSteps(j, r, luck, n)
    else [QueueJob(j)]
  }

  class Scheduler {
    /** What a fully scheduled run looks like in the tables. */
    ghost predicate Scheduled(db: Database, j: nat, r: nat)
      reads db
    {
      && db.Valid() && r < |db.runs| && db.runs[r].job == j
      && r < |db.world.runHist| && db.world.runHist[r].ready
      && db.runs[r].total == db.n == RunTaskCount(db.tasks, r)
      && forall p :: 0 <= p < db.n ==> HasTask(db.tasks, r, p)
    }

    lemma ReadyIsScheduled(db: Database, r: nat)
      requires db.Valid() && r < |db.runs| && r < |db.world.runHist| && db.world.runHist[r].ready
      ensures Scheduled(db, db.runs[r].job, r)
    {
      db.ValidInv();
      assert RunOk(db.world, r);
      CountInRun(db.world, r);
      forall p | 0 <= p < db.n
        ensures HasTask(db.tasks, r, p)
      {
        var t := db.world.runHist[r].ids[p];
        assert db.tasks[t].run == r && db.tasks[t].partition == p;
      }
    }

    /** Run `r` of job `j` is being scheduled by this scheduler. */
    ghost predicate Building(db: Database, j: nat, r: nat, ids: nat, sized: bool)
      reads db
    {
      && db.Valid() && r < |db.world.runs| == |db.world.runHist| && db.world.runs[r].job == j
      && |db.world.runHist[r].ids| == ids <= db.n
      && db.world.runHist[r].sized == sized && !db.world.runHist[r].ready
    }

    /** What was recorded before is recorded still. */
    twostate predicate Continues(db: Database)
      reads db
    {
      old(db.trace) <= db.trace && old(db.states) <= db.states && old(db.callers) <= db.callers
    }

    /** Step `m` was the `CreateRun` of call `c`, and inserted run `r`. */
    ghost predicate CreatedAt(db: Database, m: nat, j: nat, r: nat, c: Caller)
      reads db
    {
      && m < |db.trace| && m < |db.states| && m < |db.callers|
      && db.trace[m] == Step.CreateRun(j) && db.callers[m] == c && r == |db.states[m].runs|
    }

    /** Step `m` was the first UPDATE of call `c`, and left the job QUEUED. */
    ghost predicate QueuedAt(db: Database, m: nat, j: nat, c: Caller)
      reads db
    {
      && m < |db.trace| && m < |db.callers| && m + 1 < |db.states|
      && db.trace[m] == QueueJob(j) && db.callers[m] == c
      && j < |db.states[m + 1].jobs| && db.states[m + 1].jobs[j].state == JobQueued
    }

    /** Interference with the scheduling, then what the next statement may rely on. */
    method Turn(db: Database, ghost j: nat, ghost r: nat, ghost ids: nat, ghost sized: bool, ghost c: Caller)
      requires Building(db, j, r, ids, sized)
      modifies db
      ensures Building(db, j, r, ids, sized) && Shaped(db.world) && db.world.n == db.n && Continues(db)
      ensures db.StepsBy(c) == old(db.StepsBy(c))
    {
      ghost var s := db.world;
      db.WaitScheduling(r, c);
      assert RunEvolves(s.runs[r], s.runHist[r], db.world.runs[r], db.world.runHist[r]);
      db.ValidInv();
    }

    /** `UpdateJobState(QUEUED)`, unconditional. */
    method MarkQueued(db: Database, j: nat, o: Outcome, ghost c: Caller) returns (ok: bool, ghost at: nat)
      requires db.Valid() && j < |db.jobs|
      modifies db
      ensures |old(db.trace)| <= at && (!o.Lost? ==> QueuedAt(db, at, j, c))
      ensures db.Valid() && j < |db.jobs| && ok == o.Done? && Continues(db)
      ensures db.StepsBy(c) == old(db.StepsBy(c)) + if o.Lost? then [] else [QueueJob(j)]
    {
      db.Yield(c);
      at := |db.trace|;
      ok := db.UpdateJobState(j, JobQueued, o);
      if !o.Lost? { db.Record(QueueJob(j), c); }
    }

    method InsertRun(db: Database, j: nat, o: Outcome, ghost c: Caller)
        returns (run: Option<nat>, ghost r: nat, ghost at: nat)
      requires db.Valid() && j < |db.jobs|
      modifies db
      ensures db.Valid() && Continues(db) && run == if o.Done? then Some(r) else None
      ensures o.Done? ==> Building(db, j, r, 0, false)
      ensures !o.Lost? ==> |old(db.trace)| <= at && CreatedAt(db, at, j, r, c)
      ensures db.StepsBy(c) == old(db.StepsBy(c)) + if o.Lost? then [] else [Step.CreateRun(j)]
    {
      db.Yield(c);
      run, r, at := None, |db.runs|, |db.trace|;
      if o.Lost? { return; }
      db.ValidInv();
      if o.Done? { run := Some(|db.runs|); }
      db.runs := db.runs + [RunRow(j, RunSubmitted, 0, 0, 0, 0, 0)];
      db.Record(Step.CreateRun(j), c);
      db.ValidInv();
    }

    method InsertTask(db: Database, j: nat, r: nat, i: nat, o: Outcome, ghost c: Caller) returns (ok: bool)
      requires Building(db, j, r, i, false) && i < db.n
      modifies db
      ensures db.Valid() && Continues(db) && ok == o.Done? && (ok ==> Building(db, j, r, i + 1, false))
      ensures db.StepsBy(c) == old(db.StepsBy(c)) + if o.Lost? then [] else [Step.CreateTask(r)]
    {
      Turn(db, j, r, i, false, c);
      if !o.Lost? {
        db.CreateTask(r, i);
        db.Record(Step.CreateTask(r), c);
      }
      ok := o.Done?;
    }

    method SetTotal(db: Database, j: nat, r: nat, o: Outcome, ghost c: Caller) returns (ok: bool)
      requires Building(db, j, r, db.n, false)
      modifies db
      ensures db.Valid() && Continues(db) && ok == o.Done? && (ok ==> Building(db, j, r, db.n, true))
      ensures db.StepsBy(c) == old(db.StepsBy(c)) + if o.Lost? then [] else [Step.UpdateRunTasksTotal(r)]
    {
      Turn(db, j, r, db.n, false, c);
      ok := db.UpdateRunTasksTotal(r, db.n, o);
      if !o.Lost? { db.Record(Step.UpdateRunTasksTotal(r), c); }
    }

    method InitProgress(db: Database, j: nat, r: nat, o: Outcome, ghost c: Caller) returns (ok: bool)
      requires Building(db, j, r, db.n, true)
      modifies db
      ensures db.Valid() && Continues(db) && ok == o.Done? && (ok ==> Scheduled(db, j, r))
      ensures db.StepsBy(c) == old(db.StepsBy(c)) + if o.Lost? then [] else [Step.InitRunProgress(r)]
    {
      Turn(db, j, r, db.n, true, c);
      ok := db.InitRunProgress(r, o);
      if !o.Lost? {
        db.Record(Step.InitRunProgress(r), c);
        ReadyIsScheduled(db, r);
      }
    }

    /** `HandleJobSubmitted`, as call `c`: whatever happens between its statements, it executes
        exactly those of `HandlerSteps`, of which the first leaves the job QUEUED, for the run that
        its own `CreateRun` has inserted, and nothing else.  The run is returned iff none of them
        fails; it has exactly `n` tasks then, one for every partition, and its counters set. */
    method HandleJobSubmitted(db: Database, j: nat, luck: Luck, ghost c: Caller)
        returns (run: Option<nat>, ghost r: nat, ghost at: nat, ghost queued: nat)
      requires db.Valid() && j < |db.jobs|
      modifies db
      ensures db.Valid() && Continues(db)
      ensures !luck.queue.Lost? ==> |old(db.trace)| <= queued && QueuedAt(db, queued, j, c)
      ensures db.StepsBy(c) == old(db.StepsBy(c)) + HandlerSteps(j, r, luck, db.n)
      ensures luck.queue.Done? && !luck.run.Lost? ==> |old(db.trace)| <= at && CreatedAt(db, at, j, r, c)
      ensures run == if Faultless(luck, db.n) then Some(r) else None
      ensures run.Some? ==> Scheduled(db, j, r)
    {
      ghost var steps := db.StepsBy(c);
      run, r, at := None, 0, 0;
      var ok;
      ok, queued := MarkQueued(db, j, luck.queue, c);
      if !ok { return; }
      run, r, at := BuildRun(db, j, luck, c);
      Assoc(steps, [QueueJob(j)], RunSteps(j, r, luck, db.n));
    }

    /** From `CreateRun` on. */
    method BuildRun(db: Database, j: nat, luck: Luck, ghost c: Caller)
        returns (run: Option<nat>, ghost r: nat, ghost at: nat)
      requires db.Valid() && j < |db.jobs| && luck.queue.Done?
      modifies db
      ensures db.Valid() && Continues(db)
      ensures db.StepsBy(c) == old(db.StepsBy(c)) + RunSteps(j, r, luck, db.n)
      ensures !luck.run.Lost? ==> |old(db.trace)| <= at && CreatedAt(db, at, j, r, c)
      ensures run == if Faultless(luck, db.n) then Some(r) else None
      ensures run.Some? ==> Scheduled(db, j, r)
    {
      ghost var steps := db.StepsBy(c);
      run, r, at := InsertRun(db, j, luck.run, c);
      if run.None? { return; }
      run := Partition(db, j, run.value, luck, c);
      Assoc(steps, [Step.CreateRun(j)], TaskSteps(r, luck, 0, db.n));
    }

    /** The loop over the partitions, and what follows it. */
    method Partition(db: Database, j: nat, r: nat, luck: Luck, ghost c: Caller) returns (run: Option<nat>)
      requires Building(db, j, r, 0, false)
      modifies db
      ensures db.Valid() && Continues(db)
      ensures db.StepsBy(c) == old(db.StepsBy(c)) + TaskSteps(r, luck, 0, db.n)
      ensures run == if TasksDone(luck, db.n) && luck.total.Done? && luck.init.Done? then Some(r) else None
      ensures run.Some? ==> Scheduled(db, j, r)
    {
      ghost var done := [];
      for i := 0 to db.n
        invariant Building(db, j, r, i, false) && TasksDone(luck, i) && Continues(db)
        invariant db.StepsBy(c) == old(db.StepsBy(c)) + done
        invariant done + TaskSteps(r, luck, i, db.n) == TaskSteps(r, luck, 0, db.n)
      {
        var ok := InsertTask(db, j, r, i, luck.task(i), c);
        ghost var step := if luck.task(i).Lost? then [] else [Step.CreateTask(r)];
        Assoc(old(db.StepsBy(c)), done, step);
        if !ok { return None; }
        Assoc(done, step, TaskSteps(r, luck, i + 1, db.n));
        done := done + step;
      }
      run := SetCounters(db, j, r, luck, c);
      Assoc(old(db.StepsBy(c)), done, TotalSteps(r, luck));
    }

    method SetCounters(db: Database, j: nat, r: nat, luck: Luck, ghost c: Caller) returns (run: Option<nat>)
      requires Building(db, j, r, db.n, false)
      modifies db
      ensures db.Valid() && Continues(db)
      ensures db.StepsBy(c) == old(db.StepsBy(c)) + TotalSteps(r, luck)
      ensures run == if luck.total.Done? && luck.init.Done? then Some(r) else None
      ensures run.Some? ==> Scheduled(db, j, r)
    {
      ghost var steps := db.StepsBy(c);
      var ok := SetTotal(db, j, r, luck.total, c);
      if !ok { return None; }
      ok := InitProgress(db, j, r, luck.init, c);
      Assoc(steps, [Step.UpdateRunTasksTotal(r)], InitSteps(r, luck));
      run := if ok then Some(r) else None;
    }
  }
}
