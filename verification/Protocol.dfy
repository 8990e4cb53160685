/** The leasing and completion protocol as a state machine.  One step is one SQL
    statement (or one publish), issued by a worker, by the scheduler or by a
    cancellation; a crashed worker is one that takes no further step. */
module Protocol {
  import opened Faults
  import opened Tables

  /** Where a worker stands in `pollAndProcess`: the statement it issues next, the
      row `t` that `LeaseTask` gave it and the locals that later statements use. */
  datatype Phase =
    | Idle
    | AtFirstCheck(t: nat, retries: nat)                 // first GetRunState
    | AtBury(t: nat)                                     // UpdateTaskState(DEAD)
    | AtStart(t: nat, retries: nat)                      // TaskStarted
    | AtProcess(t: nat, retries: nat)                    // process, up to GetRunTaskCount
    | AtSubprocess(t: nat, retries: nat, partitions: nat) // process, up to CreateArtifact
    | AtDecide(t: nat, retries: nat, transient: bool)    // GetJobByRunID after an error
    | AtRetry(t: nat, retries: nat)                      // RetryTask
    | AtFail(t: nat)                                     // FailTaskWithError
    | AtCountFail(t: nat)                                // TaskFailed
    | AtSecondCheck(t: nat)                              // second GetRunState
    | AtMark(t: nat)                                     // UpdateTaskState(SUCCEEDED)
    | AtCount(t: nat)                                    // TaskSucceeded
    | AtProgress(t: nat)                                 // GetRunProgress
    | AtCompleteRun(t: nat, seen: Progress)              // CompleteRun
    | AtCompleteJob(t: nat, verdict: RunState)           // GetJobByRunID and CompleteJob
    | AtPublish(t: nat, verdict: RunState)               // publish job.completed

  datatype Event =
    | RunCompleted(run: nat, verdict: RunState)
    | JobCompleted(run: nat, verdict: RunState)
    | Announced(run: nat, verdict: RunState, delivered: bool)
    | RunCancelledBy(run: nat)

  /** History variables of a task: they record what happened and steer nothing. */
  datatype TaskHistory = TaskHistory(
    run: nat,
    budget: nat,               // max(0, max_retries) of the task's job
    tries: nat,                // calls of `process`
    begun: bool,               // `process` was called in the current lease
    starts: nat,               // TaskStarted statements that took effect
    dones: nat,                // TaskSucceeded statements that took effect
    fails: nat,                // TaskFailed statements that took effect
    filed: bool,               // CreateArtifact was issued
    artifact: Option<nat>)     // the artifact it inserted

  /** History variables of a run. */
  datatype RunHistory = RunHistory(
    ids: seq<nat>,             // its tasks, in creation order
    sized: bool,               // UpdateRunTasksTotal was executed
    ready: bool,               // InitRunProgress was executed
    eager: bool,               // some task was leased before `ready`
    earlyStarts: int,          // TaskStarted statements before `ready`
    clean: bool)               // no statement issued for one of its tasks failed

  datatype World = World(
    n: nat,                    // numPartitions
    now: nat,
    jobs: seq<JobRow>,
    runs: seq<RunRow>,
    tasks: seq<TaskRow>,
    artifacts: seq<Artifact>,
    workers: seq<Phase>,
    log: seq<Event>,
    hist: seq<TaskHistory>,
    runHist: seq<RunHistory>)

  function Init(n: nat): World {
    World(n, 0, [], [], [], [], [], [], [], [])
  }

  /** The statements a worker issues while it holds a task. */
  datatype Action =
    | FirstGetRunState(ok: bool)
    | UpdateTaskDead(o: Outcome)
    | TaskStarted(o: Outcome)
    | GetRunTaskCount
    | ProcessError(transient: bool)
    | CreateArtifact(o: Outcome)
    | GetJobForRetry(ok: bool)
    | RetryTask(o: Outcome)
    | FailTaskWithError(o: Outcome)
    | TaskFailed(o: Outcome)
    | SecondGetRunState(ok: bool)
    | UpdateTaskSucceeded(o: Outcome)
    | TaskSucceeded(o: Outcome)
    | GetRunProgress(ok: bool)
    | CompleteRun(o: Outcome)
    | CompleteJob(o: Outcome)
    | Publish(delivered: bool)

  datatype Step =
    | Tick(millis: nat)
    | SubmitJob(maxRetries: int)
    | Spawn                                        // a worker process starts
    | QueueJob(j: nat)                             // scheduler: UpdateJobState(QUEUED)
    | CreateRun(j: nat)                            // scheduler
    | CreateTask(r: nat)                           // scheduler
    | UpdateRunTasksTotal(r: nat)                  // scheduler
    | InitRunProgress(r: nat)                      // scheduler
    | CancelJob(j: nat)                            // UpdateJobState(CANCELLED)
    | CancelRun(r: nat)                            // UpdateRunState(CANCELLED)
    | Heartbeat(w: nat, t: nat)
    | Lease(w: nat, locked: set<nat>, o: Outcome)
    | Work(w: nat, a: Action)

  // -- one worker statement ----------------------------------------------------

  /** What a statement of a worker can read and change: its task's row, the run
      and the job of that task, its own phase, and what it appends. */
  datatype Local = Local(
    phase: Phase,
    task: TaskRow, h: TaskHistory,
    run: RunRow, rh: RunHistory,
    job: JobRow,
    filed: seq<Artifact>,
    events: seq<Event>)

  predicate Fits(phase: Phase, a: Action) {
    match a
    case FirstGetRunState(_) => phase.AtFirstCheck?
    case UpdateTaskDead(_) => phase.AtBury?
    case TaskStarted(_) => phase.AtStart?
    case GetRunTaskCount => phase.AtProcess?
    case ProcessError(_) => phase.AtProcess? || phase.AtSubprocess?
    case CreateArtifact(_) => phase.AtSubprocess?
    case GetJobForRetry(_) => phase.AtDecide?
    case RetryTask(_) => phase.AtRetry?
    case FailTaskWithError(_) => phase.AtFail?
    case TaskFailed(_) => phase.AtCountFail?
    case SecondGetRunState(_) => phase.AtSecondCheck?
    case UpdateTaskSucceeded(_) => phase.AtMark?
    case TaskSucceeded(_) => phase.AtCount?
    case GetRunProgress(_) => phase.AtProgress?
    case CompleteRun(_) => phase.AtCompleteRun?
    case CompleteJob(_) => phase.AtCompleteJob?
    case Publish(_) => phase.AtPublish?
  }

  /** A failed statement ends the base regime for the run. */
  function Tainted(l: Local, fine: bool): Local {
    if fine then l else l.(rh := l.rh.(clean := false))
  }

  /** The effect of statement `a`; `count` is the number of rows the task table
      holds for the run, `next` the position of the next artifact. */
  function Act(l: Local, a: Action, count: nat, next: nat): Local
    requires Fits(l.phase, a)
  {
    var t := l.phase.t;
    match a
    case FirstGetRunState(ok) =>
      if !ok then Tainted(l.(phase := Idle), false)
      else if l.run.state == RunCancelled then l.(phase := AtBury(t))
      else l.(phase := AtStart(t, l.phase.retries))
    case UpdateTaskDead(o) =>
      Tainted(l.(phase := Idle, task := if o.Lost? then l.task else l.task.(state := Dead)), o.Done?)
    case TaskStarted(o) =>
      Tainted(l.(phase := AtProcess(t, l.phase.retries),
                 run := if o.Lost? then l.run else TaskStartedRow(l.run),
                 h := l.h.(tries := l.h.tries + 1, begun := true,
                           starts := if o.Lost? then l.h.starts else l.h.starts + 1)), o.Done?)
    case GetRunTaskCount =>
      l.(phase := AtSubprocess(t, l.phase.retries, count))
    case ProcessError(transient) =>
      l.(phase := AtDecide(t, l.phase.retries, transient))
    case CreateArtifact(o) =>
      Tainted(l.(phase := AtSecondCheck(t),
                 filed := if o.Lost? then [] else [Artifact(l.task.run, l.task.partition, l.phase.partitions)],
                 h := l.h.(filed := true, artifact := if o.Lost? then None else Some(next))), o.Done?)
    case GetJobForRetry(ok) =>
      var canRetry := ok && l.phase.retries < l.job.maxRetries && l.phase.transient;
      Tainted(l.(phase := if canRetry then AtRetry(t, l.phase.retries) else AtFail(t)), ok)
    case RetryTask(o) =>
      Tainted(if o.Lost? then l.(phase := Idle)
              else l.(phase := Idle, task := RetryRow(l.task), h := l.h.(begun := false)), o.Done?)
    case FailTaskWithError(o) =>
      Tainted(l.(phase := AtCountFail(t),
                 task := if o.Lost? then l.task else l.task.(state := Failed)), o.Done?)
    case TaskFailed(o) =>
      Tainted(if o.Lost? then l.(phase := Idle)
              else l.(phase := Idle, run := TaskFailedRow(l.run), h := l.h.(fails := l.h.fails + 1)), o.Done?)
    case SecondGetRunState(ok) =>
      if !ok then Tainted(l.(phase := Idle), false)
      else if l.run.state == RunCancelled then l.(phase := AtBury(t))
      else l.(phase := AtMark(t))
    case UpdateTaskSucceeded(o) =>
      Tainted(l.(phase := if o.Done? then AtCount(t) else Idle,
                 task := if o.Lost? then l.task else l.task.(state := Succeeded)), o.Done?)
    case TaskSucceeded(o) =>
      Tainted(if o.Lost? then l.(phase := AtProgress(t))
              else l.(phase := AtProgress(t), run := TaskSucceededRow(l.run),
                      h := l.h.(dones := l.h.dones + 1)), o.Done?)
    case GetRunProgress(ok) =>
      if !ok then Tainted(l.(phase := Idle), false)
      else if AllDone(ProgressOf(l.run)) then l.(phase := AtCompleteRun(t, ProgressOf(l.run)))
      else l.(phase := Idle)
    case CompleteRun(o) =>
      var verdict := RunVerdict(l.phase.seen.failed);
      Tainted(l.(phase := if o.Done? then AtCompleteJob(t, verdict) else Idle,
                 run := if o.Lost? then l.run else l.run.(state := verdict),
                 events := if o.Lost? then [] else [RunCompleted(l.task.run, verdict)]), o.Done?)
    case CompleteJob(o) =>
      var verdict := l.phase.verdict;
      Tainted(l.(phase := if o.Done? then AtPublish(t, verdict) else Idle,
                 job := if o.Lost? then l.job else l.job.(state := JobVerdict(verdict)),
                 events := if o.Lost? then [] else [JobCompleted(l.task.run, verdict)]), o.Done?)
    case Publish(delivered) =>
      l.(phase := Idle, events := [Announced(l.task.run, l.phase.verdict, delivered)])
  }

  /** Worker `w` holds a row that exists, in a run and a job that exist. */
  predicate Busy(s: World, w: nat) {
    && w < |s.workers| && !s.workers[w].Idle?
    && s.workers[w].t < |s.tasks| == |s.hist|
    && s.tasks[s.workers[w].t].run < |s.runs| == |s.runHist|
    && s.runs[s.tasks[s.workers[w].t].run].job < |s.jobs|
  }

  function TaskOf(s: World, w: nat): nat
    requires Busy(s, w)
  {
    s.workers[w].t
  }

  function RunOf(s: World, w: nat): nat
    requires Busy(s, w)
  {
    s.tasks[TaskOf(s, w)].run
  }

  function Look(s: World, w: nat): Local
    requires Busy(s, w)
  {
    var t := TaskOf(s, w);
    var r := RunOf(s, w);
    Local(s.workers[w], s.tasks[t], s.hist[t], s.runs[r], s.runHist[r], s.jobs[s.runs[r].job], [], [])
  }

  function Put(s: World, w: nat, l: Local): World
    requires Busy(s, w)
  {
    var t := TaskOf(s, w);
    var r := RunOf(s, w);
    s.(workers := s.workers[w := l.phase],
       tasks := s.tasks[t := l.task], hist := s.hist[t := l.h],
       runs := s.runs[r := l.run], runHist := s.runHist[r := l.rh],
       jobs := s.jobs[s.runs[r].job := l.job],
       artifacts := s.artifacts + l.filed,
       log := s.log + l.events)
  }

  function WorkNext(s: World, w: nat, a: Action): World
    requires Busy(s, w) && Fits(s.workers[w], a)
  {
    Put(s, w, Act(Look(s, w), a, RunTaskCount(s.tasks, RunOf(s, w)), |s.artifacts|))
  }

  // -- leasing -----------------------------------------------------------------

  predicate Shaped(s: World) {
    && |s.hist| == |s.tasks| && |s.runHist| == |s.runs|
    && (forall t :: 0 <= t < |s.tasks| ==> s.tasks[t].run < |s.runs|)
    && (forall r :: 0 <= r < |s.runs| ==> s.runs[r].job < |s.jobs|)
  }

  function LeaseNext(s: World, w: nat, locked: set<nat>, o: Outcome): World
    requires Shaped(s) && w < |s.workers|
  {
    var c := LeaseCandidate(s.tasks, s.now, locked);
    if c.None? || o.Lost? then s
    else
      var t := c.value;
      var r := s.tasks[t].run;
      var rh := s.runHist[r];
      s.(tasks := s.tasks[t := LeaseRow(s.tasks[t], w, s.now)],
         workers := if o.Done? then s.workers[w := AtFirstCheck(t, s.tasks[t].retries)] else s.workers,
         runHist := s.runHist[r := rh.(eager := rh.eager || !rh.ready, clean := rh.clean && o.Done?)])
  }

  // -- all steps ---------------------------------------------------------------

  predicate Enabled(s: World, st: Step) {
    match st
    case Tick(_) => true
    case SubmitJob(_) => true
    case Spawn => true
    case QueueJob(j) => j < |s.jobs|
    case CreateRun(j) => j < |s.jobs|
    case CreateTask(r) => Shaped(s) && r < |s.runs| && !s.runHist[r].sized && |s.runHist[r].ids| < s.n
    case UpdateRunTasksTotal(r) =>
      Shaped(s) && r < |s.runs| && !s.runHist[r].sized && |s.runHist[r].ids| == s.n
    case InitRunProgress(r) => Shaped(s) && r < |s.runs| && s.runHist[r].sized && !s.runHist[r].ready
    case CancelJob(j) => j < |s.jobs|
    case CancelRun(r) => r < |s.runs|
    case Heartbeat(w, t) => w < |s.workers| && t < |s.tasks|
    case Lease(w, _, _) => Shaped(s) && w < |s.workers| && s.workers[w].Idle?
    case Work(w, a) => Busy(s, w) && Fits(s.workers[w], a)
  }

  function Next(s: World, st: Step): World
    requires Enabled(s, st)
  {
    match st
    case Tick(millis) => s.(now := s.now + millis)
    case SubmitJob(maxRetries) => s.(jobs := s.jobs + [JobRow(JobSubmitted, maxRetries)])
    case Spawn => s.(workers := s.workers + [Idle])
    case QueueJob(j) => s.(jobs := s.jobs[j := s.jobs[j].(state := JobQueued)])
    case CreateRun(j) =>
      s.(runs := s.runs + [NewRun(j)],
         runHist := s.runHist + [RunHistory([], false, false, false, 0, true)])
    case CreateTask(r) =>
      var rh := s.runHist[r];
      s.(tasks := s.tasks + [NewTask(r, |rh.ids|)],
         hist := s.hist + [TaskHistory(r, Max0(s.jobs[s.runs[r].job].maxRetries), 0, false, 0, 0, 0, false, None)],
         runHist := s.runHist[r := rh.(ids := rh.ids + [|s.tasks|])])
    case UpdateRunTasksTotal(r) =>
      s.(runs := s.runs[r := s.runs[r].(total := s.n)],
         runHist := s.runHist[r := s.runHist[r].(sized := true)])
    case InitRunProgress(r) =>
      var run := s.runs[r];
      s.(runs := s.runs[r := run.(pending := run.total)],
         runHist := s.runHist[r := s.runHist[r].(ready := true,
                                                  earlyStarts := run.running + run.done + run.failed)])
    case CancelJob(j) => s.(jobs := s.jobs[j := s.jobs[j].(state := JobCancelled)])
    case CancelRun(r) =>
      s.(runs := s.runs[r := s.runs[r].(state := RunCancelled)], log := s.log + [RunCancelledBy(r)])
    case Heartbeat(w, t) => s.(tasks := s.tasks[t := HeartbeatRow(s.tasks[t], w, s.now)])
    case Lease(w, locked, o) => LeaseNext(s, w, locked, o)
    case Work(w, a) => WorkNext(s, w, a)
  }

  // -- runs of the machine -----------------------------------------------------

  /** `ws` are the states that the run `tr` goes through from `s`. */
  ghost predicate Chain(s: World, tr: seq<Step>, ws: seq<World>) {
    && |ws| == |tr| + 1 && ws[0] == s
    && forall i {:trigger Enabled(ws[i], tr[i])} :: 0 <= i < |tr| ==>
         Enabled(ws[i], tr[i]) && Next(ws[i], tr[i]) == ws[i + 1]
  }

  /** The run `tr` leads from `s` to `s'`. */
  ghost predicate Leads(s: World, tr: seq<Step>, s': World) {
    exists ws :: Chain(s, tr, ws) && ws[|tr|] == s'
  }

  ghost predicate Later(s: World, s': World) {
    exists tr :: Leads(s, tr, s')
  }

  /** Reachable with `n >= 1` partitions per run, from empty tables. */
  ghost predicate Reachable(s: World) {
    s.n >= 1 && Later(Init(s.n), s)
  }

  /** The same, by recursion: `tr` can be executed from `s`. */
  ghost predicate Runs(s: World, tr: seq<Step>)
    decreases |tr|, 0
  {
    tr == [] || (Runs(s, tr[..|tr| - 1]) && Enabled(After(s, tr[..|tr| - 1]), tr[|tr| - 1]))
  }

  ghost function After(s: World, tr: seq<Step>): World
    requires Runs(s, tr)
    decreases |tr|, 1
  {
    if tr == [] then s else Next(After(s, tr[..|tr| - 1]), tr[|tr| - 1])
  }

  lemma LeadsIsRun(s: World, tr: seq<Step>, s': World)
    requires Leads(s, tr, s')
    ensures Runs(s, tr) && After(s, tr) == s'
    decreases |tr|
  {
    var ws :| Chain(s, tr, ws) && ws[|tr|] == s';
    if tr != [] {
      var m := |tr| - 1;
      assert Enabled(ws[m], tr[m]);
      assert Chain(s, tr[..m], ws[..m + 1]) by {
        forall i | 0 <= i < m
          ensures Enabled(ws[..m + 1][i], tr[..m][i]) && Next(ws[..m + 1][i], tr[..m][i]) == ws[..m + 1][i + 1]
        {
          assert Enabled(ws[i], tr[i]);
        }
      }
      assert ws[..m + 1][|tr[..m]|] == ws[m];
      LeadsIsRun(s, tr[..m], ws[m]);
    }
  }

  lemma ChainOn(s: World, tr: seq<Step>, ws: seq<World>, st: Step)
    requires Chain(s, tr, ws) && Enabled(ws[|tr|], st)
    ensures Chain(s, tr + [st], ws + [Next(ws[|tr|], st)])
  {
    var ws' := ws + [Next(ws[|tr|], st)];
    forall i | 0 <= i < |tr + [st]|
      ensures Enabled(ws'[i], (tr + [st])[i]) && Next(ws'[i], (tr + [st])[i]) == ws'[i + 1]
    {
      if i < |tr| { assert Enabled(ws[i], tr[i]); }
    }
  }

  lemma LeadsOn(s: World, tr: seq<Step>, s': World, st: Step)
    requires Leads(s, tr, s') && Enabled(s', st)
    ensures Leads(s, tr + [st], Next(s', st))
  {
    var ws :| Chain(s, tr, ws) && ws[|tr|] == s';
    ChainOn(s, tr, ws, st);
    assert (ws + [Next(s', st)])[|tr + [st]|] == Next(s', st);
  }

  /** What is reachable after a step is reachable before it. */
  lemma LaterFrom(s: World, st: Step, s': World)
    requires Enabled(s, st) && Later(Next(s, st), s')
    ensures Later(s, s')
  {
    var tr :| Leads(Next(s, st), tr, s');
    var ws :| Chain(Next(s, st), tr, ws) && ws[|tr|] == s';
    var tr', ws' := [st] + tr, [s] + ws;
    assert Chain(s, tr', ws') by {
      forall i | 0 <= i < |tr'| ensures Enabled(ws'[i], tr'[i]) && Next(ws'[i], tr'[i]) == ws'[i + 1] {
        if i > 0 { assert Enabled(ws[i - 1], tr[i - 1]) && ws'[i + 1] == ws[i]; }
      }
    }
    assert ws'[|tr'|] == s';
    assert Leads(s, tr', s');
  }

  lemma {:induction false} RunsFollow(s: World, tr: seq<Step>, s': World, tr': seq<Step>)
    requires Leads(s, tr, s') && Runs(s', tr')
    ensures Leads(s, tr + tr', After(s', tr'))
    decreases |tr'|
  {
    if tr' == [] {
      assert tr + tr' == tr;
    } else {
      var front := tr'[..|tr'| - 1];
      RunsFollow(s, tr, s', front);
      LeadsOn(s, tr + front, After(s', front), tr'[|tr'| - 1]);
      assert tr + tr' == tr + front + [tr'[|tr'| - 1]];
    }
  }

  lemma LaterThen(s: World, s': World, s'': World)
    requires Later(s, s') && Later(s', s'')
    ensures Later(s, s'')
  {
    var tr :| Leads(s, tr, s');
    var tr' := RunBetween(s', s'');
    RunsFollow(s, tr, s', tr');
  }

  lemma LaterNow(s: World)
    ensures Later(s, s)
  {
    assert Chain(s, [], [s]);
    assert Leads(s, [], s);
  }

  lemma RunBetween(s: World, s': World) returns (tr: seq<Step>)
    requires Later(s, s')
    ensures Runs(s, tr) && After(s, tr) == s'
  {
    tr :| Leads(s, tr, s');
    LeadsIsRun(s, tr, s');
  }

  /** The step belongs to worker `w`'s own control flow. */
  predicate OfWorker(st: Step, w: nat) {
    (st.Lease? && st.w == w) || (st.Work? && st.w == w)
  }
}
