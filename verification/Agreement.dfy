/** Racing completions agree, in every regime. */
module Agreement {
  import opened Tables
  import opened Protocol
  import opened Invariant
  import opened Preservation
  import opened History
  import opened Notice

  /** A SUCCEEDED task that was not counted and that no worker is about to count. */
  ghost predicate OrphanTask(s: World, t: nat) {
    && t < |s.tasks| == |s.hist| && s.tasks[t].state == Succeeded && Uncounted(s.hist[t])
    && AtCount(t) !in s.workers
  }

  ghost predicate Orphaned(s: World, r: nat) {
    exists t: nat :: OrphanTask(s, t) && s.tasks[t].run == r
  }

  /** Verdict `v` is that of the frozen counters; or 0 of 0 was read, and then the run can never
      be fully counted. */
  ghost predicate Founded(s: World, r: nat, v: RunState) {
    && r < |s.runs| == |s.runHist|
    && (|| (Settled(s, r) && v == RunVerdict(s.runs[r].failed))
        || (v == RunSucceeded && Orphaned(s, r)))
  }

  ghost predicate PhaseFounded(s: World, w: nat) {
    Busy(s, w) ==>
      match s.workers[w]
      case AtCompleteRun(_, seen) => Founded(s, RunOf(s, w), RunVerdict(seen.failed))
      case AtCompleteJob(_, verdict) => Founded(s, RunOf(s, w), verdict)
      case AtPublish(_, verdict) => Founded(s, RunOf(s, w), verdict)
      case _ => true
  }

  ghost predicate EventFounded(s: World, e: Event) {
    e.RunCompleted? || e.JobCompleted? ==> Founded(s, e.run, e.verdict)
  }

  ghost predicate AgreeInv(s: World) {
    && Inv(s)
    && (forall w: nat :: w < |s.workers| ==> PhaseFounded(s, w))
    && (forall e :: e in s.log ==> EventFounded(s, e))
  }

  lemma OrphanIsNotSettled(s: World, r: nat)
    requires Inv(s) && r < |s.runs| && Orphaned(s, r)
    ensures !Settled(s, r)
  {
    FullyCounted(s, r);
  }

  /** Under a SUCCEEDED task only the statement after `AtCount` counts. */
  lemma ActKeepsOrphan(n: nat, w: nat, id: nat, l: Local, a: Action, count: nat, next: nat)
    requires ActReady(n, w, id, l, a, count) && l.task.state == Succeeded && !l.phase.AtCount?
    ensures var l' := Act(l, a, count, next);
            !l'.phase.AtCount? && l'.h.dones == l.h.dones && l'.h.fails == l.h.fails
  {
  }

  lemma OrphanUncounted(s: World, st: Step, t: nat)
    requires Inv(s) && Enabled(s, st) && OrphanTask(s, t)
    ensures t < |Next(s, st).hist| && Uncounted(Next(s, st).hist[t])
    ensures st.Work? ==> Next(s, st).workers[st.w] != AtCount(t)
  {
    if st.Work? {
      WorkerMoves(s, st.w, st.a);
      if TaskOf(s, st.w) == t {
        LookOk(s, st.w);
        var count := RunTaskCount(s.tasks, RunOf(s, st.w));
        ActKeepsOrphan(s.n, st.w, t, Look(s, st.w), st.a, count, |s.artifacts|);
      }
    }
  }

  lemma OrphanStays(s: World, st: Step, t: nat)
    requires Inv(s) && Enabled(s, st) && OrphanTask(s, t)
    ensures OrphanTask(Next(s, st), t)
  {
    var s' := Next(s, st);
    StepEvolves(s, st);
    assert TaskEvolves(s.tasks[t], s.hist[t], s'.tasks[t], s'.hist[t]);
    OrphanUncounted(s, st, t);
    forall w | 0 <= w < |s'.workers| ensures s'.workers[w] != AtCount(t) {
      if w < |s.workers| { assert s.workers[w] in s.workers; }
    }
  }

  lemma FoundedStays(s: World, st: Step, r: nat, v: RunState)
    requires Inv(s) && Enabled(s, st) && Founded(s, r, v)
    ensures Founded(Next(s, st), r, v)
  {
    var s' := Next(s, st);
    StepEvolves(s, st);
    assert RunEvolves(s.runs[r], s.runHist[r], s'.runs[r], s'.runHist[r]);
    if v == RunSucceeded && Orphaned(s, r) {
      var t: nat :| OrphanTask(s, t) && s.tasks[t].run == r;
      OrphanStays(s, st, t);
      assert TaskEvolves(s.tasks[t], s.hist[t], s'.tasks[t], s'.hist[t]);
    }
  }

  /** A worker that reads 0 of 0 leaves an orphan behind: its own task. */
  lemma ReaderIsFounded(s: World, w: nat)
    requires Inv(s) && Busy(s, w) && s.workers[w].AtProgress? && AllDone(ProgressOf(s.runs[RunOf(s, w)]))
    ensures Founded(s, RunOf(s, w), RunVerdict(s.runs[RunOf(s, w)].failed))
  {
    var t, r := TaskOf(s, w), RunOf(s, w);
    LookOk(s, w);
    assert WorkerOk(s, w) && RunOk(s, r);
    FullyCounted(s, r);
    if !s.runHist[r].sized {
      forall v | 0 <= v < |s.workers| ensures s.workers[v] != AtCount(t) { assert WorkerOk(s, v); }
      assert OrphanTask(s, t);
    }
  }

  /** What a statement writes about the run's completion, and where it leaves the worker. */
  lemma ActVerdict(l: Local, a: Action, count: nat, next: nat)
    requires Fits(l.phase, a) && l.events == []
    ensures var l' := Act(l, a, count, next);
            && (l'.phase.AtCompleteRun? ==>
                  l.phase.AtProgress? && AllDone(ProgressOf(l.run)) && l'.phase.seen == ProgressOf(l.run))
            && (l'.phase.AtCompleteJob? ==>
                  l.phase.AtCompleteRun? && l'.phase.verdict == RunVerdict(l.phase.seen.failed))
            && (l'.phase.AtPublish? ==> l.phase.AtCompleteJob? && l'.phase.verdict == l.phase.verdict)
            && forall e :: e in l'.events && (e.RunCompleted? || e.JobCompleted?) ==>
                 && e.run == l.task.run
                 && (|| (l.phase.AtCompleteRun? && e.verdict == RunVerdict(l.phase.seen.failed))
                     || (l.phase.AtCompleteJob? && e.verdict == l.phase.verdict))
  {
  }

  lemma OwnPhaseFounded(s: World, w: nat, a: Action)
    requires AgreeInv(s) && Enabled(s, Work(w, a))
    ensures PhaseFounded(Next(s, Work(w, a)), w)
    ensures forall e :: e in Next(s, Work(w, a)).log ==> EventFounded(Next(s, Work(w, a)), e)
  {
    var st := Work(w, a);
    var s', r := Next(s, st), RunOf(s, w);
    WorkerMoves(s, w, a);
    ActVerdict(Look(s, w), a, RunTaskCount(s.tasks, r), |s.artifacts|);
    assert PhaseFounded(s, w);
    forall v | Founded(s, r, v) ensures Founded(s', r, v) { FoundedStays(s, st, r, v); }
    if s.workers[w].AtProgress? && AllDone(ProgressOf(s.runs[r])) { ReaderIsFounded(s, w); }
    forall e | e in s'.log ensures EventFounded(s', e) {
      if e in s.log && (e.RunCompleted? || e.JobCompleted?) {
        assert EventFounded(s, e);
        FoundedStays(s, st, e.run, e.verdict);
      }
    }
  }

  lemma OtherPhaseFounded(s: World, st: Step, w: nat)
    requires AgreeInv(s) && Enabled(s, st) && !(st.Work? && st.w == w) && w < |Next(s, st).workers|
    ensures PhaseFounded(Next(s, st), w)
  {
    if w < |s.workers| && !s.workers[w].Idle? {
      assert WorkerOk(s, w) && PhaseFounded(s, w);
      BusyStays(s, st, w);
      var r := RunOf(s, w);
      forall v | Founded(s, r, v) ensures Founded(Next(s, st), r, v) { FoundedStays(s, st, r, v); }
    }
  }

  lemma AgreeStays(s: World, st: Step)
    requires AgreeInv(s) && Enabled(s, st)
    ensures AgreeInv(Next(s, st))
  {
    var s' := Next(s, st);
    StepPreserves(s, st);
    if st.Work? { OwnPhaseFounded(s, st.w, st.a); }
    forall w: nat | w < |s'.workers| ensures PhaseFounded(s', w) {
      if !(st.Work? && st.w == w) { OtherPhaseFounded(s, st, w); }
    }
    forall e | e in s'.log ensures EventFounded(s', e) {
      if !st.Work? && e in s.log && (e.RunCompleted? || e.JobCompleted?) {
        assert EventFounded(s, e);
        FoundedStays(s, st, e.run, e.verdict);
      }
    }
  }

  lemma {:induction false} RunsAgree(s: World, tr: seq<Step>)
    requires AgreeInv(s) && Runs(s, tr)
    ensures AgreeInv(After(s, tr))
    decreases |tr|
  {
    if tr != [] {
      RunsAgree(s, tr[..|tr| - 1]);
      AgreeStays(After(s, tr[..|tr| - 1]), tr[|tr| - 1]);
    }
  }

  lemma ReachableAgrees(s: World)
    requires Reachable(s)
    ensures AgreeInv(s)
  {
    var tr := RunBetween(Init(s.n), s);
    RunsAgree(Init(s.n), tr);
  }

  lemma FoundedVerdictsAgree(s: World, r: nat, v: RunState, v': RunState)
    requires Inv(s) && Founded(s, r, v) && Founded(s, r, v')
    ensures v == v'
  {
    if Orphaned(s, r) { OrphanIsNotSettled(s, r); }
  }

  /** All completions of one run write the same run state and the same job state: whatever is
      lost, crashes or was leased too early. */
  lemma CompletionsAgree(s: World, r: nat, v: RunState, v': RunState)
    requires Reachable(s)
    requires RunCompleted(r, v) in s.log || JobCompleted(r, v) in s.log
    requires RunCompleted(r, v') in s.log || JobCompleted(r, v') in s.log
    ensures v == v' && (v == RunSucceeded || v == RunFailed)
  {
    ReachableAgrees(s);
    forall u | RunCompleted(r, u) in s.log || JobCompleted(r, u) in s.log ensures Founded(s, r, u) {
      assert EventFounded(s, RunCompleted(r, u)) || EventFounded(s, JobCompleted(r, u));
    }
    FoundedVerdictsAgree(s, r, v, v');
  }

  /** Workers that have passed the completion test will write the verdict that any other worker
      has written or will write. */
  lemma RacersAgree(s: World, w: nat, w': nat)
    requires Reachable(s) && Busy(s, w) && Busy(s, w') && RunOf(s, w) == RunOf(s, w')
    requires s.workers[w].AtCompleteRun? && s.workers[w'].AtCompleteRun?
    ensures RunVerdict(s.workers[w].seen.failed) == RunVerdict(s.workers[w'].seen.failed)
    ensures forall v :: RunCompleted(RunOf(s, w), v) in s.log ==> v == RunVerdict(s.workers[w].seen.failed)
  {
    ReachableAgrees(s);
    var r, u := RunOf(s, w), RunVerdict(s.workers[w].seen.failed);
    assert PhaseFounded(s, w) && PhaseFounded(s, w');
    FoundedVerdictsAgree(s, r, u, RunVerdict(s.workers[w'].seen.failed));
    forall v | RunCompleted(r, v) in s.log ensures v == u {
      assert EventFounded(s, RunCompleted(r, v));
      FoundedVerdictsAgree(s, r, u, v);
    }
  }

  /** The completion in the log is what the run row shows, unless the run was cancelled. */
  lemma CompletedStateShows(s: World, r: nat, v: RunState)
    requires Reachable(s) && r < |s.runs|
    requires RunCompleted(r, v) in s.log && RunCancelledBy(r) !in s.log
    ensures s.runs[r].state == v
  {
    ReachableLogInv(s);
    assert StateLogged(s, r);
    CompletionsAgree(s, r, v, s.runs[r].state);
  }

  // -- the job row --

  /** A SUCCEEDED job goes with a SUCCEEDED run, and a FAILED one with a FAILED run. */
  predicate Matches(state: JobState, v: RunState) {
    (state == JobSucceeded && v == RunSucceeded) || (state == JobFailed && v == RunFailed)
  }

  /** A completed run of job `j` that gives it the state `state`. */
  ghost predicate Completes(s: World, j: nat, r: nat, v: RunState, state: JobState) {
    JobCompleted(r, v) in s.log && r < |s.runs| && s.runs[r].job == j && Matches(state, v)
  }

  ghost predicate JobLogged(s: World, j: nat)
    requires j < |s.jobs|
  {
    var state := s.jobs[j].state;
    state == JobSucceeded || state == JobFailed ==> exists r: nat, v :: Completes(s, j, r, v, state)
  }

  ghost predicate JobsLogged(s: World) {
    Inv(s) && forall j :: 0 <= j < |s.jobs| ==> JobLogged(s, j)
  }

  lemma ActOnJob(l: Local, a: Action, count: nat, next: nat)
    requires Fits(l.phase, a) && l.events == []
    requires l.phase.AtCompleteJob? ==> l.phase.verdict in {RunSucceeded, RunFailed}
    ensures var l' := Act(l, a, count, next);
            || l'.job == l.job
            || (l.phase.AtCompleteJob? && l'.events == [JobCompleted(l.task.run, l.phase.verdict)]
                && Matches(l'.job.state, l.phase.verdict))
  {
  }

  lemma JobLoggedStays(s: World, st: Step, j: nat)
    requires JobsLogged(s) && Enabled(s, st) && j < |Next(s, st).jobs|
    ensures JobLogged(Next(s, st), j)
  {
    var s' := Next(s, st);
    StepEvolves(s, st);
    if j < |s.jobs| {
      assert JobLogged(s, j);
      if r: nat, v :| Completes(s, j, r, v, s.jobs[j].state) {
        assert RunEvolves(s.runs[r], s.runHist[r], s'.runs[r], s'.runHist[r]);
        assert Completes(s', j, r, v, s.jobs[j].state);
      }
    }
    if st.Work? && j < |s.jobs| && s'.jobs[j] != s.jobs[j] { WorkLogsJob(s, st.w, st.a, j); }
  }

  /** A worker that changes the row of a job logs it. */
  lemma WorkLogsJob(s: World, w: nat, a: Action, j: nat)
    requires Inv(s) && Enabled(s, Work(w, a)) && j < |s.jobs|
    requires |Next(s, Work(w, a)).jobs| == |s.jobs| && Next(s, Work(w, a)).jobs[j] != s.jobs[j]
    ensures JobLogged(Next(s, Work(w, a)), j)
  {
    var s', r := Next(s, Work(w, a)), RunOf(s, w);
    var l := Look(s, w);
    StepEvolves(s, Work(w, a));
    assert WorkerOk(s, w);
    ActOnJob(l, a, RunTaskCount(s.tasks, r), |s.artifacts|);
    assert RunEvolves(s.runs[r], s.runHist[r], s'.runs[r], s'.runHist[r]);
    assert s'.log[|s.log|] == JobCompleted(r, l.phase.verdict);
    assert Completes(s', j, r, l.phase.verdict, s'.jobs[j].state);
  }

  lemma {:induction false} RunsLogJobs(s: World, tr: seq<Step>)
    requires JobsLogged(s) && Runs(s, tr)
    ensures JobsLogged(After(s, tr))
    decreases |tr|
  {
    if tr != [] {
      var m, st := After(s, tr[..|tr| - 1]), tr[|tr| - 1];
      RunsLogJobs(s, tr[..|tr| - 1]);
      StepPreserves(m, st);
      forall j | 0 <= j < |Next(m, st).jobs| ensures JobLogged(Next(m, st), j) { JobLoggedStays(m, st, j); }
    }
  }

  predicate OnlyRun(s: World, j: nat, r: nat) {
    r < |s.runs| && forall q :: 0 <= q < |s.runs| ==> (s.runs[q].job == j <==> q == r)
  }

  /** A job row that says SUCCEEDED or FAILED shows the verdict on a completed run of the job,
      and that of every completed run if the job has only one. */
  lemma JobStateShows(s: World, j: nat)
    requires Reachable(s) && j < |s.jobs| && s.jobs[j].state in {JobSucceeded, JobFailed}
    ensures exists r: nat, v :: Completes(s, j, r, v, s.jobs[j].state)
    ensures forall r: nat, v :: JobCompleted(r, v) in s.log && OnlyRun(s, j, r) ==>
              s.jobs[j].state == (if v == RunSucceeded then JobSucceeded else JobFailed)
  {
    var tr := RunBetween(Init(s.n), s);
    RunsLogJobs(Init(s.n), tr);
    assert JobLogged(s, j);
    forall r: nat, v | JobCompleted(r, v) in s.log && OnlyRun(s, j, r)
      ensures s.jobs[j].state == (if v == RunSucceeded then JobSucceeded else JobFailed)
    {
      var r': nat, v' :| Completes(s, j, r', v', s.jobs[j].state);
      CompletionsAgree(s, r, v, v');
    }
  }

  /** No lost completion: when all workers are idle and every task of a run that was scheduled
      first and never cancelled is SUCCEEDED, the run is SUCCEEDED and `job.completed` was
      attempted. */
  lemma NoLostCompletion(s: World, r: nat)
    requires Reachable(s) && Quiet(s) && r < |s.runs| == |s.runHist|
    requires s.runHist[r].clean && s.runHist[r].sized && !s.runHist[r].eager && RunCancelledBy(r) !in s.log
    requires forall t :: 0 <= t < |s.tasks| && s.tasks[t].run == r ==> s.tasks[t].state == Succeeded
    ensures s.runs[r].state == RunSucceeded
    ensures RunCompleted(r, RunSucceeded) in s.log && AnnouncedIn(s.log, r)
  {
    ReachableLogInv(s);
    assert RunOk(s, r) && SuccessNoticed(s, r);
    forall t | 0 <= t < |s.tasks|
      ensures Val(s.tasks[t], s.hist[t], Dones(r)) == Val(s.tasks[t], s.hist[t], Ones(r))
      ensures Val(s.tasks[t], s.hist[t], Fails(r)) == 0
    {
      assert TaskOk(s, t);
    }
    SumOrder(s.tasks, s.hist, Dones(r), Ones(r));
    SumOrder(s.tasks, s.hist, Ones(r), Dones(r));
    SumZero(s.tasks, s.hist, Fails(r));
    QuietIsAnnounced(s, r);
    var v :| RunCompleted(r, v) in s.log;
    assert EventOk(s, RunCompleted(r, v));
    CompletedStateShows(s, r, v);
  }
}
