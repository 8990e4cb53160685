/** No lost completion: exactly when a fully counted run is completed and announced. */
module Notice {
  import opened Tables
  import opened Protocol
  import opened Invariant
  import opened Preservation
  import opened History

  /** A worker that has counted its task and not left `checkAndCompleteRun` yet. */
  predicate Watching(p: Phase) {
    p.AtProgress? || p.AtCompleteRun? || p.AtCompleteJob? || p.AtPublish?
  }

  ghost predicate WatchedBy(s: World, r: nat, w: nat) {
    Busy(s, w) && RunOf(s, w) == r && Watching(s.workers[w])
  }

  ghost predicate AnnouncedIn(log: seq<Event>, r: nat) {
    exists v, d :: Announced(r, v, d) in log
  }

  ghost predicate CompletedIn(log: seq<Event>, r: nat) {
    exists v :: RunCompleted(r, v) in log
  }

  /** Some worker is about to read, or has read, the progress of the run, or `job.completed`
      was attempted for it. */
  ghost predicate Noticed(s: World, r: nat) {
    AnnouncedIn(s.log, r) || exists w: nat :: WatchedBy(s, r, w)
  }

  predicate Quiet(s: World) {
    forall w :: 0 <= w < |s.workers| ==> s.workers[w].Idle?
  }

  // -- what the log says ------------------------------------------------------------

  predicate PhaseLogged(s: World, w: nat)
    requires w < |s.workers|
  {
    && (s.workers[w].AtCompleteJob? && Busy(s, w) ==> RunCompleted(RunOf(s, w), s.workers[w].verdict) in s.log)
    && (s.workers[w].AtPublish? && Busy(s, w) ==>
          && RunCompleted(RunOf(s, w), s.workers[w].verdict) in s.log
          && JobCompleted(RunOf(s, w), s.workers[w].verdict) in s.log)
  }

  predicate EventLogged(s: World, e: Event) {
    e.Announced? ==> RunCompleted(e.run, e.verdict) in s.log && JobCompleted(e.run, e.verdict) in s.log
  }

  ghost predicate StateLogged(s: World, r: nat)
    requires r < |s.runs|
  {
    var state := s.runs[r].state;
    && (state == RunSubmitted || state == RunCancelled || RunCompleted(r, state) in s.log)
    && (state == RunCancelled ==> RunCancelledBy(r) in s.log)
    && (CompletedIn(s.log, r) ==> state != RunSubmitted)
  }

  /** In the base regime a completed run is on its way to being announced. */
  ghost predicate CompletionNoticed(s: World, r: nat)
    requires r < |s.runHist|
  {
    CompletedIn(s.log, r) && s.runHist[r].clean ==> Noticed(s, r)
  }

  /** In the base regime the last count of a run that never failed is a worker's own. */
  ghost predicate SuccessNoticed(s: World, r: nat)
    requires r < |s.runs| == |s.runHist|
  {
    Settled(s, r) && s.runs[r].failed == 0 && s.runHist[r].clean && !s.runHist[r].eager ==> Noticed(s, r)
  }

  ghost predicate LogInv(s: World) {
    && Inv(s)
    && (forall w :: 0 <= w < |s.workers| ==> PhaseLogged(s, w))
    && (forall e :: e in s.log ==> EventLogged(s, e))
    && (forall r :: 0 <= r < |s.runs| ==> StateLogged(s, r) && CompletionNoticed(s, r) && SuccessNoticed(s, r))
  }

  lemma BusyStays(s: World, st: Step, w: nat)
    requires Inv(s) && Enabled(s, st) && Busy(s, w) && !(st.Work? && st.w == w)
    ensures Busy(Next(s, st), w) && RunOf(Next(s, st), w) == RunOf(s, w)
    ensures Next(s, st).workers[w] == s.workers[w]
  {
    StepEvolves(s, st);
    assert TaskEvolves(s.tasks[TaskOf(s, w)], s.hist[TaskOf(s, w)],
                       Next(s, st).tasks[TaskOf(s, w)], Next(s, st).hist[TaskOf(s, w)]);
  }

  lemma WorkerMoves(s: World, w: nat, a: Action)
    requires Inv(s) && Enabled(s, Work(w, a))
    ensures var s' := Next(s, Work(w, a));
            && |s'.workers| == |s.workers|
            && (s'.workers[w].Idle? || (Busy(s', w) && RunOf(s', w) == RunOf(s, w)))
            && s'.log == s.log + Act(Look(s, w), a, RunTaskCount(s.tasks, RunOf(s, w)), |s.artifacts|).events
  {
    LookOk(s, w);
    WorkPreserves(s, w, a);
    ActPreserves(s.n, w, TaskOf(s, w), Look(s, w), a, RunTaskCount(s.tasks, RunOf(s, w)), |s.artifacts|);
  }

  /** A watching worker of a settled run leaves `checkAndCompleteRun` only by announcing. */
  lemma WatcherAnnounces(s: World, w: nat, a: Action)
    requires Inv(s) && Enabled(s, Work(w, a)) && Watching(s.workers[w]) && Settled(s, RunOf(s, w))
    requires RunOf(s, w) < |Next(s, Work(w, a)).runHist| && Next(s, Work(w, a)).runHist[RunOf(s, w)].clean
    ensures WatchedBy(Next(s, Work(w, a)), RunOf(s, w), w) || AnnouncedIn(Next(s, Work(w, a)).log, RunOf(s, w))
  {
    WorkerMoves(s, w, a);
    if a.Publish? {
      var log := Next(s, Work(w, a)).log;
      assert log[|s.log|] == Announced(RunOf(s, w), s.workers[w].verdict, a.delivered);
      assert Announced(RunOf(s, w), s.workers[w].verdict, a.delivered) in log;
    }
  }

  lemma AnnouncedStays(s: World, st: Step, r: nat)
    requires Inv(s) && Enabled(s, st) && AnnouncedIn(s.log, r)
    ensures AnnouncedIn(Next(s, st).log, r)
  {
    StepEvolves(s, st);
    var v, d :| Announced(r, v, d) in s.log;
    assert Announced(r, v, d) in Next(s, st).log;
  }

  /** Notice is not lost. */
  lemma NoticedStays(s: World, st: Step, r: nat)
    requires Inv(s) && Enabled(s, st) && r < |s.runs| && Settled(s, r) && Noticed(s, r)
    requires r < |Next(s, st).runHist| && Next(s, st).runHist[r].clean
    ensures Noticed(Next(s, st), r)
  {
    if AnnouncedIn(s.log, r) {
      AnnouncedStays(s, st, r);
    } else {
      var w: nat :| WatchedBy(s, r, w);
      if st.Work? && st.w == w {
        WatcherAnnounces(s, w, st.a);
      } else {
        BusyStays(s, st, w);
        assert WatchedBy(Next(s, st), r, w);
      }
    }
  }

  /** No worker of a settled run starts to watch it. */
  lemma NoNewWatcher(s: World, st: Step, r: nat, w: nat)
    requires Inv(s) && Enabled(s, st) && r < |s.runs| && Settled(s, r) && !WatchedBy(s, r, w)
    ensures !WatchedBy(Next(s, st), r, w)
  {
    if w < |s.workers| && !s.workers[w].Idle? {
      assert WorkerOk(s, w);
      if st.Work? && st.w == w {
        WorkerMoves(s, w, st.a);
        LookOk(s, w);
        FullyCounted(s, r);
      } else {
        BusyStays(s, st, w);
      }
    }
  }

  /** Notice does not come late: once every task is counted, no further worker looks. */
  lemma UnnoticedStays(s: World, st: Step, r: nat)
    requires Inv(s) && Enabled(s, st) && r < |s.runs| && Settled(s, r) && !Noticed(s, r)
    ensures !Noticed(Next(s, st), r)
    ensures CompletedIn(Next(s, st).log, r) ==> CompletedIn(s.log, r)
  {
    var s' := Next(s, st);
    if st.Work? {
      WorkerMoves(s, st.w, st.a);
      assert !WatchedBy(s, r, st.w);
    }
    assert forall v :: RunCompleted(r, v) in s'.log ==> RunCompleted(r, v) in s.log;
    assert forall v, d :: Announced(r, v, d) in s'.log ==> Announced(r, v, d) in s.log;
    forall w: nat ensures !WatchedBy(s', r, w) {
      NoNewWatcher(s, st, r, w);
    }
  }

  // -- the log invariant is inductive -----------------------------------------------

  lemma OwnPhaseLogged(s: World, w: nat, a: Action)
    requires LogInv(s) && Enabled(s, Work(w, a))
    ensures w < |Next(s, Work(w, a)).workers| && PhaseLogged(Next(s, Work(w, a)), w)
  {
    WorkerMoves(s, w, a);
    assert PhaseLogged(s, w);
  }

  lemma PhaseLoggedStays(s: World, st: Step, w: nat)
    requires LogInv(s) && Enabled(s, st) && w < |Next(s, st).workers|
    ensures PhaseLogged(Next(s, st), w)
  {
    if st.Work? && st.w == w {
      OwnPhaseLogged(s, w, st.a);
    } else if w < |s.workers| && !s.workers[w].Idle? {
      StepEvolves(s, st);
      assert PhaseLogged(s, w) && WorkerOk(s, w);
      BusyStays(s, st, w);
    }
  }

  lemma EventLoggedStays(s: World, st: Step, e: Event)
    requires LogInv(s) && Enabled(s, st) && e in Next(s, st).log
    ensures EventLogged(Next(s, st), e)
  {
    StepEvolves(s, st);
    if e in s.log {
      assert EventLogged(s, e);
    } else if st.Work? {
      assert PhaseLogged(s, st.w);
    }
  }

  predicate Completes(a: Action) {
    a.CompleteRun? && !a.o.Lost?
  }

  lemma ActLogsState(l: Local, a: Action, count: nat, next: nat)
    requires Fits(l.phase, a) && l.events == []
    ensures var l' := Act(l, a, count, next);
            if Completes(a) then
              && l'.events == [RunCompleted(l.task.run, l'.run.state)]
              && (l'.run.state == RunSucceeded || l'.run.state == RunFailed)
            else l'.run.state == l.run.state && forall e :: e in l'.events ==> !e.RunCompleted?
  {
  }

  lemma PutStateLogged(s: World, w: nat, l: Local, r: nat)
    requires Busy(s, w) && r < |s.runs| && StateLogged(s, r)
    requires || (&& l.events == [RunCompleted(RunOf(s, w), l.run.state)]
                 && (l.run.state == RunSucceeded || l.run.state == RunFailed))
             || (&& l.run.state == s.runs[RunOf(s, w)].state
                 && forall e :: e in l.events ==> !e.RunCompleted?)
    ensures StateLogged(Put(s, w, l), r)
  {
    var s' := Put(s, w, l);
    if forall e :: e in l.events ==> !e.RunCompleted? {
      assert forall v :: RunCompleted(r, v) in s'.log ==> RunCompleted(r, v) in s.log;
    } else if RunOf(s, w) == r {
      assert RunCompleted(r, l.run.state) in l.events;
    } else {
      assert forall v :: RunCompleted(r, v) in s'.log ==> RunCompleted(r, v) in s.log;
    }
  }

  lemma WorkStateLogged(s: World, w: nat, a: Action, r: nat)
    requires LogInv(s) && Enabled(s, Work(w, a)) && r < |s.runs|
    ensures |Next(s, Work(w, a)).runs| == |s.runs| && StateLogged(Next(s, Work(w, a)), r)
  {
    assert StateLogged(s, r);
    var count := RunTaskCount(s.tasks, RunOf(s, w));
    ActLogsState(Look(s, w), a, count, |s.artifacts|);
    PutStateLogged(s, w, Act(Look(s, w), a, count, |s.artifacts|), r);
  }

  lemma StateLoggedStays(s: World, st: Step, r: nat)
    requires LogInv(s) && Enabled(s, st) && r < |Next(s, st).runs|
    ensures StateLogged(Next(s, st), r)
  {
    var s' := Next(s, st);
    if st.Work? {
      WorkStateLogged(s, st.w, st.a, r);
    } else if r < |s.runs| {
      assert StateLogged(s, r);
      assert st == CancelRun(r) ==> s'.log[|s.log|] == RunCancelledBy(r);
      assert forall v :: RunCompleted(r, v) in s'.log ==> RunCompleted(r, v) in s.log;
    } else {
      assert forall v :: RunCompleted(r, v) in s'.log ==> EventOk(s, RunCompleted(r, v));
    }
  }

  lemma CompletionIsWatched(s: World, st: Step, r: nat, v: RunState)
    requires Inv(s) && Enabled(s, st) && r < |Next(s, st).runHist| && Next(s, st).runHist[r].clean
    requires RunCompleted(r, v) in Next(s, st).log && RunCompleted(r, v) !in s.log
    ensures Noticed(Next(s, st), r)
  {
    WorkerMoves(s, st.w, st.a);
    assert WatchedBy(Next(s, st), r, st.w);
  }

  lemma CompletionNoticedStays(s: World, st: Step, r: nat)
    requires LogInv(s) && Enabled(s, st) && r < |Next(s, st).runHist|
    ensures CompletionNoticed(Next(s, st), r)
  {
    var s' := Next(s, st);
    if CompletedIn(s'.log, r) && s'.runHist[r].clean {
      var v :| RunCompleted(r, v) in s'.log;
      if RunCompleted(r, v) in s.log {
        StepEvolves(s, st);
        assert EventOk(s, RunCompleted(r, v));
        assert RunEvolves(s.runs[r], s.runHist[r], s'.runs[r], s'.runHist[r]);
        assert CompletionNoticed(s, r) && CompletedIn(s.log, r);
        NoticedStays(s, st, r);
      } else {
        CompletionIsWatched(s, st, r, v);
      }
    }
  }

  /** Nothing of a run is counted before its first lease. */
  lemma UntouchedRun(s: World, r: nat)
    requires Inv(s) && r < |s.runs| && !s.runHist[r].ready && !s.runHist[r].eager
    ensures s.runs[r].done == 0 && s.runs[r].failed == 0
  {
    forall t | 0 <= t < |s.tasks|
      ensures Val(s.tasks[t], s.hist[t], Dones(r)) == 0 && Val(s.tasks[t], s.hist[t], Fails(r)) == 0
    {
      assert TaskOk(s, t);
    }
    SumZero(s.tasks, s.hist, Dones(r));
    SumZero(s.tasks, s.hist, Fails(r));
    assert RunOk(s, r);
  }

  lemma LastCountIsWatched(s: World, w: nat, a: Action, r: nat)
    requires Inv(s) && Enabled(s, Work(w, a)) && r < |s.runs| && !Settled(s, r)
    requires r < |Next(s, Work(w, a)).runs| == |Next(s, Work(w, a)).runHist|
    requires Settled(Next(s, Work(w, a)), r) && Next(s, Work(w, a)).runs[r].failed == 0
    ensures Noticed(Next(s, Work(w, a)), r)
  {
    FullyCounted(s, r);
    WorkerMoves(s, w, a);
    assert WatchedBy(Next(s, Work(w, a)), r, w);
  }

  /** `UpdateRunTasksTotal` cannot settle a run that nothing was leased of. */
  lemma SizingSettlesNothing(s: World, r: nat)
    requires Inv(s) && Enabled(s, UpdateRunTasksTotal(r)) && !s.runHist[r].eager
    ensures Shaped(Next(s, UpdateRunTasksTotal(r))) && !Settled(Next(s, UpdateRunTasksTotal(r)), r)
  {
    assert RunOk(s, r);
    UntouchedRun(s, r);
  }

  lemma SuccessNoticedStays(s: World, st: Step, r: nat)
    requires LogInv(s) && Enabled(s, st) && r < |Next(s, st).runHist|
    ensures r < |Next(s, st).runs| == |Next(s, st).runHist|
    ensures SuccessNoticed(Next(s, st), r)
  {
    var s' := Next(s, st);
    StepEvolves(s, st);
    if Settled(s', r) && s'.runs[r].failed == 0 && s'.runHist[r].clean && !s'.runHist[r].eager {
      if r < |s.runs| && Settled(s, r) {
        assert RunEvolves(s.runs[r], s.runHist[r], s'.runs[r], s'.runHist[r]);
        assert SuccessNoticed(s, r);
        NoticedStays(s, st, r);
      } else if st == UpdateRunTasksTotal(r) {
        SizingSettlesNothing(s, r);
      } else if st.Work? {
        LastCountIsWatched(s, st.w, st.a, r);
      }
    }
  }

  lemma LogInvStays(s: World, st: Step)
    requires LogInv(s) && Enabled(s, st)
    ensures LogInv(Next(s, st))
  {
    var s' := Next(s, st);
    StepPreserves(s, st);
    forall w | 0 <= w < |s'.workers| ensures PhaseLogged(s', w) { PhaseLoggedStays(s, st, w); }
    forall e | e in s'.log ensures EventLogged(s', e) { EventLoggedStays(s, st, e); }
    forall r | 0 <= r < |s'.runs| ensures StateLogged(s', r) && CompletionNoticed(s', r) && SuccessNoticed(s', r) {
      StateLoggedStays(s, st, r);
      CompletionNoticedStays(s, st, r);
      SuccessNoticedStays(s, st, r);
    }
  }

  lemma {:induction false} RunsKeepLogInv(s: World, tr: seq<Step>)
    requires LogInv(s) && Runs(s, tr)
    ensures LogInv(After(s, tr))
    decreases |tr|
  {
    if tr != [] {
      RunsKeepLogInv(s, tr[..|tr| - 1]);
      LogInvStays(After(s, tr[..|tr| - 1]), tr[|tr| - 1]);
    }
  }

  lemma ReachableLogInv(s: World)
    requires Reachable(s)
    ensures LogInv(s)
  {
    var tr := RunBetween(Init(s.n), s);
    RunsKeepLogInv(Init(s.n), tr);
  }

  // -- the theorems -------------------------------------------------------------------

  lemma {:induction false} NoticeIsDecided(s: World, tr: seq<Step>, r: nat)
    requires Inv(s) && Runs(s, tr) && r < |s.runs| && Settled(s, r)
    ensures Inv(After(s, tr)) && Evolves(s, After(s, tr))
    ensures r < |After(s, tr).runHist| && After(s, tr).runHist[r].clean && Noticed(s, r) ==> Noticed(After(s, tr), r)
    ensures !Noticed(s, r) ==> !Noticed(After(s, tr), r)
    decreases |tr|
  {
    RunsEvolve(s, tr);
    if tr != [] {
      var front, st := tr[..|tr| - 1], tr[|tr| - 1];
      NoticeIsDecided(s, front, r);
      var m := After(s, front);
      assert RunEvolves(s.runs[r], s.runHist[r], m.runs[r], m.runHist[r]);
      StepEvolves(m, st);
      assert RunEvolves(m.runs[r], m.runHist[r], After(s, tr).runs[r], After(s, tr).runHist[r]);
      if Noticed(m, r) {
        if After(s, tr).runHist[r].clean { NoticedStays(m, st, r); }
      } else {
        UnnoticedStays(m, st, r);
      }
    }
  }

  lemma QuietIsAnnounced(s: World, r: nat)
    requires LogInv(s) && Quiet(s) && r < |s.runs| && Noticed(s, r)
    ensures AnnouncedIn(s.log, r) && CompletedIn(s.log, r)
  {
    if w: nat :| WatchedBy(s, r, w) { assert false; }
    var v, d :| Announced(r, v, d) in s.log;
    assert EventLogged(s, Announced(r, v, d));
  }

  /** Exactly when a fully counted run gets completed, in the base regime: as soon as all its
      workers are idle, it has been completed and announced iff, when its last task was
      counted, some worker still had to read its progress (or had read it already). */
  lemma CompletedIffWatched(s: World, s': World, r: nat)
    requires Reachable(s) && Later(s, s') && Quiet(s')
    requires r < |s.runs| == |s.runHist| && Settled(s, r)
    requires r < |s'.runHist| && s'.runHist[r].clean
    ensures CompletedIn(s'.log, r) <==> Noticed(s, r)
    ensures AnnouncedIn(s'.log, r) <==> Noticed(s, r)
  {
    var tr := RunBetween(s, s');
    ReachableInv(s);
    NoticeIsDecided(s, tr, r);
    ReachableLogInv(s);
    RunsKeepLogInv(s, tr);
    assert CompletionNoticed(s', r);
    if Noticed(s, r) { QuietIsAnnounced(s', r); }
  }
}
