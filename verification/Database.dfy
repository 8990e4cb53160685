/** The shared tables as an object: one method per SQL statement, and any number of other
    processes acting between two statements. */
module Database {
  import opened Faults
  import opened Tables
  import opened Protocol
  import opened Invariant
  import opened History
  import opened Notice

  // -- segments of a run ---------------------------------------------------------------

  lemma ChainReaches(n: nat, tr: seq<Step>, ws: seq<World>, i: nat)
    requires n >= 1 && Chain(Init(n), tr, ws) && i <= |tr|
    ensures Reachable(ws[i]) && ws[i].n == n && Inv(ws[i])
  {
    assert Chain(Init(n), tr[..i], ws[..i + 1]) by {
      forall k | 0 <= k < i
        ensures Enabled(ws[..i + 1][k], tr[..i][k]) && Next(ws[..i + 1][k], tr[..i][k]) == ws[..i + 1][k + 1]
      {
        assert Enabled(ws[k], tr[k]);
      }
    }
    assert ws[..i + 1][|tr[..i]|] == ws[i];
    assert Leads(Init(n), tr[..i], ws[i]);
    LeadsIsRun(Init(n), tr[..i], ws[i]);
    RunsEvolve(Init(n), tr[..i]);
  }

  lemma ChainStep(n: nat, tr: seq<Step>, ws: seq<World>, i: nat)
    requires n >= 1 && Chain(Init(n), tr, ws) && i < |tr|
    ensures Evolves(ws[i], ws[i + 1])
  {
    ChainReaches(n, tr, ws, i);
    assert Enabled(ws[i], tr[i]);
    StepEvolves(ws[i], tr[i]);
  }

  lemma {:induction false} ChainEvolves(n: nat, tr: seq<Step>, ws: seq<World>, m: nat, i: nat)
    requires n >= 1 && Chain(Init(n), tr, ws) && m <= i <= |tr|
    ensures Evolves(ws[m], ws[i])
    decreases i
  {
    if m < i {
      ChainEvolves(n, tr, ws, m, i - 1);
      ChainStep(n, tr, ws, i - 1);
      EvolvesTransitive(ws[m], ws[i - 1], ws[i]);
    } else {
      ChainReaches(n, tr, ws, m);
    }
  }

  /** Steps of others leave worker `w` where it is. */
  lemma {:induction false} OthersKeep(n: nat, tr: seq<Step>, ws: seq<World>, m: nat, i: nat, w: nat)
    requires n >= 1 && Chain(Init(n), tr, ws) && m <= i <= |tr|
    requires forall k :: m <= k < i ==> !OfWorker(tr[k], w)
    requires w < |ws[m].workers|
    ensures w < |ws[i].workers| && ws[i].workers[w] == ws[m].workers[w]
    decreases i
  {
    if m < i {
      OthersKeep(n, tr, ws, m, i - 1, w);
      assert Enabled(ws[i - 1], tr[i - 1]);
    }
  }

  /** The steps of worker `w`, in order. */
  ghost function StepsOf(tr: seq<Step>, w: nat): seq<Step> {
    if tr == [] then []
    else
      var m := |tr| - 1;
      StepsOf(tr[..m], w) + if OfWorker(tr[m], w) then [tr[m]] else []
  }

  lemma {:induction false} StepsKept(tr: seq<Step>, m: nat, w: nat)
    requires m <= |tr| && forall k :: m <= k < |tr| ==> !OfWorker(tr[k], w)
    ensures StepsOf(tr, w) == StepsOf(tr[..m], w)
    decreases |tr|
  {
    if m == |tr| {
      assert tr[..m] == tr;
    } else {
      StepsKept(tr[..|tr| - 1], m, w);
      assert tr[..|tr| - 1][..m] == tr[..m];
    }
  }

  lemma {:induction false} OthersKeepStage(n: nat, tr: seq<Step>, ws: seq<World>, m: nat, i: nat, r: nat)
    requires n >= 1 && Chain(Init(n), tr, ws) && m <= i <= |tr|
    requires forall k :: m <= k < i ==> !Schedules(tr[k], r)
    requires r < |ws[m].runHist|
    ensures r < |ws[i].runHist| && Stage(ws[i].runHist[r]) == Stage(ws[m].runHist[r])
    decreases i
  {
    if m < i {
      OthersKeepStage(n, tr, ws, m, i - 1, r);
      ChainReaches(n, tr, ws, i - 1);
      assert Enabled(ws[i - 1], tr[i - 1]);
      StepKeepsStage(ws[i - 1], tr[i - 1], r);
    }
  }

  /** Who executes a statement: a worker's poll, its heartbeat, or a call of the scheduler or of
      the API. */
  datatype Caller = ByWorker(w: nat) | ByHeartbeat(w: nat) | ByCall(call: nat)

  /** The steps that caller `c` has executed, in order. */
  ghost function CallSteps(tr: seq<Step>, callers: seq<Caller>, c: Caller): seq<Step>
    requires |callers| == |tr|
  {
    if tr == [] then []
    else
      var m := |tr| - 1;
      CallSteps(tr[..m], callers[..m], c) + if callers[m] == c then [tr[m]] else []
  }

  lemma {:induction false} CallKept(tr: seq<Step>, callers: seq<Caller>, m: nat, c: Caller)
    requires m <= |tr| == |callers| && forall k :: m <= k < |tr| ==> callers[k] != c
    ensures CallSteps(tr, callers, c) == CallSteps(tr[..m], callers[..m], c)
    decreases |tr|
  {
    if m == |tr| {
      assert tr[..m] == tr && callers[..m] == callers;
    } else {
      CallKept(tr[..|tr| - 1], callers[..|tr| - 1], m, c);
      assert tr[..|tr| - 1][..m] == tr[..m] && callers[..|tr| - 1][..m] == callers[..m];
    }
  }

  // -- the tables ----------------------------------------------------------------------

  /** The database, with the protocol run it has gone through so far. */
  class Database {
    const n: nat                       // numPartitions
    var now: nat
    var jobs: seq<JobRow>
    var runs: seq<RunRow>
    var tasks: seq<TaskRow>
    var artifacts: seq<Artifact>
    ghost var trace: seq<Step>
    ghost var states: seq<World>       // states[i] is the one before trace[i]
    ghost var callers: seq<Caller>     // callers[i] executed trace[i]
    ghost var world: World

    /** The tables are those of the protocol state that `trace` leads to. */
    ghost predicate Valid()
      reads this
    {
      n >= 1 && Chain(Init(n), trace, states) && |callers| == |trace| && world == states[|trace|] && Holds(world)
    }

    /** The steps that caller `c` has executed so far. */
    ghost function StepsBy(c: Caller): seq<Step>
      requires |callers| == |trace|
      reads this
    {
      CallSteps(trace, callers, c)
    }

    ghost predicate Holds(s: World)
      reads this
    {
      now == s.now && jobs == s.jobs && runs == s.runs && tasks == s.tasks && artifacts == s.artifacts
    }

    constructor (n: nat)
      requires n >= 1
      ensures Valid() && trace == [] && this.n == n
    {
      now, jobs, runs, tasks, artifacts := 0, [], [], [], [];
      this.n := n;
      trace, states, callers, world := [], [Init(n)], [], Init(n);
    }

    lemma ValidInv()
      requires Valid()
      ensures Inv(world) && Reachable(world) && world.n == n
    {
      ChainReaches(n, trace, states, |trace|);
    }

    /** What has happened since step `m` follows the protocol. */
    lemma Grew(m: nat)
      requires Valid() && m <= |trace|
      ensures Evolves(states[m], world)
    {
      ChainEvolves(n, trace, states, m, |trace|);
    }

    lemma CancelledIsLogged(r: nat)
      requires Valid() && r < |runs| && runs[r].state == RunCancelled
      ensures RunCancelledBy(r) in world.log
    {
      ValidInv();
      ReachableLogInv(world);
      assert StateLogged(world, r);
    }

    /** The statement that caller `c` has just executed was protocol step `st`. */
    ghost method Record(st: Step, c: Caller)
      requires n >= 1 && Chain(Init(n), trace, states) && |callers| == |trace| && world == states[|trace|]
      requires Enabled(world, st) && Holds(Next(world, st))
      modifies this`trace, this`states, this`callers, this`world
      ensures Valid() && trace == old(trace) + [st] && states == old(states) + [world]
      ensures callers == old(callers) + [c] && world == Next(old(world), st)
      ensures forall d :: StepsBy(d) == old(StepsBy(d)) + if d == c then [st] else []
    {
      ChainOn(Init(n), trace, states, st);
      assert (trace + [st])[..|trace|] == trace && (callers + [c])[..|callers|] == callers;
      trace, states, callers := trace + [st], states + [Next(world, st)], callers + [c];
      world := Next(world, st);
    }

    /** Other callers execute any number of statements, none of them one of `mine`.  Doing
        nothing is one way to keep this contract; callers rely on the contract alone. */
    method Interfere(ghost mine: Step -> bool, ghost c: Caller)
      requires Valid()
      modifies this
      ensures Valid() && old(trace) <= trace && old(states) <= states && old(callers) <= callers
      ensures forall i :: |old(trace)| <= i < |trace| ==> !mine(trace[i]) && callers[i] != c
    {
    }

    /** Interference with worker `w`, and what it leaves alone. */
    method Wait(ghost w: nat)
      requires Valid() && w < |world.workers|
      modifies this
      ensures Valid() && old(trace) <= trace && old(states) <= states
      ensures w < |world.workers| && world.workers[w] == old(world.workers[w])
      ensures StepsOf(trace, w) == old(StepsOf(trace, w))
    {
      ghost var m := |trace|;
      Interfere(st => OfWorker(st, w), ByWorker(w));
      OthersKeep(n, trace, states, m, |trace|, w);
      StepsKept(trace, m, w);
      assert trace[..m] == old(trace);
    }

    /** Interference with a caller that owns no row. */
    method Yield(ghost c: Caller)
      requires Valid()
      modifies this
      ensures Valid() && old(trace) <= trace && old(states) <= states && old(callers) <= callers
      ensures Evolves(old(world), world)
      ensures StepsBy(c) == old(StepsBy(c))
    {
      ghost var m := |trace|;
      Interfere(st => false, c);
      Grew(m);
      CallKept(trace, callers, m, c);
      assert trace[..m] == old(trace) && callers[..m] == old(callers);
    }

    /** Interference with the scheduling of run `r`, and what it leaves alone. */
    method WaitScheduling(ghost r: nat, ghost c: Caller)
      requires Valid() && r < |world.runs| == |world.runHist|
      modifies this
      ensures Valid() && old(trace) <= trace && old(states) <= states && old(callers) <= callers
      ensures Evolves(old(world), world)
      ensures r < |world.runHist| && Stage(world.runHist[r]) == old(Stage(world.runHist[r]))
      ensures StepsBy(c) == old(StepsBy(c))
    {
      ghost var m := |trace|;
      Interfere(st => Schedules(st, r), c);
      Grew(m);
      OthersKeepStage(n, trace, states, m, |trace|, r);
      CallKept(trace, callers, m, c);
      assert trace[..m] == old(trace) && callers[..m] == old(callers);
    }

    // -- tasks --

    method LeaseTask(worker: nat, locked: set<nat>, o: Outcome) returns (leased: Option<nat>)
      modifies this`tasks
      ensures var c := LeaseCandidate(old(tasks), now, locked);
              && tasks == (if c.None? || o.Lost? then old(tasks)
                           else old(tasks)[c.value := old(tasks)[c.value].(
                                  state := Leased, owner := Some(worker), expires := Some(now + 30000))])
              && leased == (if o.Done? then c else None)
    {
      var c := LeaseCandidate(tasks, now, locked);
      if c.Some? && !o.Lost? {
        tasks := tasks[c.value := LeaseRow(tasks[c.value], worker, now)];
      }
      leased := if o.Done? then c else None;
    }

    /** `found` is false, and the caller sees an error, when the row has another owner. */
    method HeartbeatTask(id: nat, worker: nat, o: Outcome) returns (found: bool)
      requires id < |tasks|
      modifies this`tasks
      ensures found <==> old(tasks)[id].owner == Some(worker)
      ensures tasks == if o.Lost? || !found then old(tasks)
                       else old(tasks)[id := old(tasks)[id].(expires := Some(now + 30000))]
    {
      found := tasks[id].owner == Some(worker);
      if found && !o.Lost? {
        tasks := tasks[id := tasks[id].(expires := Some(now + LEASE_MILLIS))];
      }
    }

    method UpdateTaskState(id: nat, state: TaskState, o: Outcome) returns (ok: bool)
      requires id < |tasks|
      modifies this`tasks
      ensures ok == o.Done?
      ensures tasks == if o.Lost? then old(tasks) else old(tasks)[id := old(tasks)[id].(state := state)]
    {
      if !o.Lost? { tasks := tasks[id := tasks[id].(state := state)]; }
      ok := o.Done?;
    }

    method RetryTask(id: nat, o: Outcome)
      requires id < |tasks|
      modifies this`tasks
      ensures tasks == if o.Lost? then old(tasks) else old(tasks)[id := RetryRow(old(tasks)[id])]
    {
      if !o.Lost? {
        var row := tasks[id];
        tasks := tasks[id := row.(state := Pending, retries := row.retries + 1, owner := None, expires := None)];
      }
    }

    method CreateTask(r: nat, partition: nat)
      modifies this`tasks
      ensures tasks == old(tasks) + [NewTask(r, partition)]
    {
      tasks := tasks + [TaskRow(r, partition, Pending, None, None, 0)];
    }

    method GetRunTaskCount(r: nat) returns (count: nat)
      ensures count == RunTaskCount(tasks, r)
    {
      count := 0;
      for i := 0 to |tasks|
        invariant count == RunTaskCount(tasks[..i], r)
      {
        assert tasks[..i + 1][..i] == tasks[..i];
        if tasks[i].run == r { count := count + 1; }
      }
      assert tasks[..|tasks|] == tasks;
    }

    // -- runs --

    method TaskStarted(r: nat, o: Outcome) returns (ok: bool)
      requires r < |runs|
      modifies this`runs
      ensures ok == o.Done?
      ensures runs == if o.Lost? then old(runs) else old(runs)[r := TaskStartedRow(old(runs)[r])]
    {
      if !o.Lost? { runs := runs[r := runs[r].(pending := runs[r].pending - 1, running := runs[r].running + 1)]; }
      ok := o.Done?;
    }

    method TaskSucceeded(r: nat, o: Outcome) returns (ok: bool)
      requires r < |runs|
      modifies this`runs
      ensures ok == o.Done?
      ensures runs == if o.Lost? then old(runs) else old(runs)[r := TaskSucceededRow(old(runs)[r])]
    {
      if !o.Lost? { runs := runs[r := runs[r].(running := runs[r].running - 1, done := runs[r].done + 1)]; }
      ok := o.Done?;
    }

    method TaskFailed(r: nat, o: Outcome) returns (ok: bool)
      requires r < |runs|
      modifies this`runs
      ensures ok == o.Done?
      ensures runs == if o.Lost? then old(runs) else old(runs)[r := TaskFailedRow(old(runs)[r])]
    {
      if !o.Lost? { runs := runs[r := runs[r].(running := runs[r].running - 1, failed := runs[r].failed + 1)]; }
      ok := o.Done?;
    }

    method UpdateRunState(r: nat, state: RunState, o: Outcome) returns (ok: bool)
      requires r < |runs|
      modifies this`runs
      ensures ok == o.Done?
      ensures runs == if o.Lost? then old(runs) else old(runs)[r := old(runs)[r].(state := state)]
    {
      if !o.Lost? { runs := runs[r := runs[r].(state := state)]; }
      ok := o.Done?;
    }

    method UpdateRunTasksTotal(r: nat, total: int, o: Outcome) returns (ok: bool)
      requires r < |runs|
      modifies this`runs
      ensures ok == o.Done?
      ensures runs == if o.Lost? then old(runs) else old(runs)[r := old(runs)[r].(total := total)]
    {
      if !o.Lost? { runs := runs[r := runs[r].(total := total)]; }
      ok := o.Done?;
    }

    method InitRunProgress(r: nat, o: Outcome) returns (ok: bool)
      requires r < |runs|
      modifies this`runs
      ensures ok == o.Done?
      ensures runs == if o.Lost? then old(runs) else old(runs)[r := old(runs)[r].(pending := old(runs)[r].total)]
    {
      if !o.Lost? { runs := runs[r := runs[r].(pending := runs[r].total)]; }
      ok := o.Done?;
    }

    method CreateArtifact(r: nat, partition: nat, total: nat, o: Outcome)
      modifies this`artifacts
      ensures artifacts == if o.Lost? then old(artifacts) else old(artifacts) + [Artifact(r, partition, total)]
    {
      if !o.Lost? { artifacts := artifacts + [Artifact(r, partition, total)]; }
    }

    method UpdateJobState(j: nat, state: JobState, o: Outcome) returns (ok: bool)
      requires j < |jobs|
      modifies this`jobs
      ensures ok == o.Done?
      ensures jobs == if o.Lost? then old(jobs) else old(jobs)[j := old(jobs)[j].(state := state)]
    {
      if !o.Lost? { jobs := jobs[j := jobs[j].(state := state)]; }
      ok := o.Done?;
    }
  }
}
