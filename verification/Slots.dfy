/** Which runs can still be completed, and which announced: a submission counts against the rate
    limit until a job.completed event of it is consumed. */
module Slots {
  import opened Faults
  import opened Tables
  import opened Protocol
  import opened Invariant
  import opened Preservation
  import opened History
  import opened Notice
  import opened Cancellation
  import opened Accounting
  import opened Termination

  /** A completion of the run is written in some continuation, or was before. */
  ghost predicate CanBeCompleted(s: World, r: nat) {
    exists s' :: Later(s, s') && CompletedIn(s'.log, r)
  }

  /** job.completed is attempted for the run in some continuation, or was before. */
  ghost predicate CanBeAnnounced(s: World, r: nat) {
    exists s' :: Later(s, s') && AnnouncedIn(s'.log, r)
  }

  // -- from the completion test to the announcement --

  predicate Announcing(p: Phase) {
    p.AtCompleteRun? || p.AtCompleteJob? || p.AtPublish?
  }

  function TowardsAnnouncement(p: Phase): Action
    requires Announcing(p)
  {
    match p
    case AtCompleteRun(_, _) => CompleteRun(Done)
    case AtCompleteJob(_, _) => CompleteJob(Done)
    case AtPublish(_, _) => Publish(true)
  }

  lemma CanBeAnnouncedLater(s: World, st: Step, r: nat)
    requires Enabled(s, st) && CanBeAnnounced(Next(s, st), r)
    ensures CanBeAnnounced(s, r)
  {
    var s' :| Later(Next(s, st), s') && AnnouncedIn(s'.log, r);
    LaterFrom(s, st, s');
  }

  lemma {:induction false} AnnouncerAnnounces(s: World, w: nat)
    requires Inv(s) && Busy(s, w) && Announcing(s.workers[w])
    ensures CanBeAnnounced(s, RunOf(s, w))
    decreases Rank(s.workers[w])
  {
    var st, r := Work(w, TowardsAnnouncement(s.workers[w])), RunOf(s, w);
    WorkPreserves(s, w, st.a);
    WorkerMoves(s, w, st.a);
    if s.workers[w].AtPublish? {
      var e := Announced(r, s.workers[w].verdict, true);
      assert Next(s, st).log[|s.log|] == e;
      assert AnnouncedIn(Next(s, st).log, r);
      LaterNow(Next(s, st));
    } else {
      AnnouncerAnnounces(Next(s, st), w);
    }
    CanBeAnnouncedLater(s, st, r);
  }

  lemma FinishAnnounces(s: World, r: nat)
    requires CanFinish(s, r)
    ensures CanBeAnnounced(s, r)
  {
    var s', w: nat :| Later(s, s') && Finishing(s', r, w);
    AnnouncerAnnounces(s', w);
    var s'' :| Later(s', s'') && AnnouncedIn(s''.log, r);
    LaterThen(s, s', s'');
  }

  lemma FinishCompletes(s: World, r: nat)
    requires CanFinish(s, r)
    ensures CanBeCompleted(s, r)
  {
    var s', w: nat :| Later(s, s') && Finishing(s', r, w);
    var st := Work(w, CompleteRun(Done));
    var s'' := Next(s', st);
    LaterStep(s, s', st);
    assert s''.log[|s'.log|] == RunCompleted(r, RunVerdict(s'.workers[w].seen.failed));
    assert CompletedIn(s''.log, r);
  }

  // -- fully counted runs --

  /** Exactly which fully counted runs are ever announced, in every regime: those of which some
      worker still has to read the progress, or has read it, or which are announced already.
      A run whose last task failed is none of them. */
  lemma SettledRunAnnouncedIff(s: World, r: nat)
    requires Reachable(s) && r < |s.runs| == |s.runHist| && Settled(s, r)
    ensures CanBeAnnounced(s, r) <==> Noticed(s, r)
  {
    ReachableInv(s);
    if CanBeAnnounced(s, r) {
      var s' :| Later(s, s') && AnnouncedIn(s'.log, r);
      var tr := RunBetween(s, s');
      NoticeIsDecided(s, tr, r);
    }
    if AnnouncedIn(s.log, r) {
      LaterNow(s);
    } else if w: nat :| WatchedBy(s, r, w) {
      if s.workers[w].AtProgress? {
        DoneFinishes(s, w);
        FinishAnnounces(s, r);
      } else {
        AnnouncerAnnounces(s, w);
      }
    }
  }

  // -- cancelled runs --

  /** Worker `w` can still pass the completion test of the cancelled run, or has passed it. */
  ghost predicate Finishes(s: World, r: nat, w: nat) {
    && Busy(s, w) && RunOf(s, w) == r
    && (|| s.workers[w].AtCompleteRun?
        || (Counting(s.workers[w]) && (ZeroOfZero(s, r) || AllCountable(s, r))))
  }

  lemma FinisherFinishes(s: World, r: nat, w: nat)
    requires Inv(s) && Finishes(s, r, w)
    ensures CanFinish(s, r)
  {
    LaterNow(s);
    if s.workers[w].AtCompleteRun? { assert Finishing(s, r, w); }
    else if ZeroOfZero(s, r) { ZeroOfZeroFinishes(s, w); }
    else { CountableFinishes(s, w); }
  }

  /** No worker of the cancelled run can pass its completion test. */
  ghost predicate Muted(s: World, r: nat) {
    && IsCancelled(s, r) && Shaped(s)
    && (forall w: nat :: Busy(s, w) && RunOf(s, w) == r ==>
          !s.workers[w].AtCompleteRun? && (Counting(s.workers[w]) ==> Stuck(s, r)))
  }

  /** None has passed it either. */
  ghost predicate Silent(s: World, r: nat) {
    Muted(s, r) && forall w: nat :: Busy(s, w) && RunOf(s, w) == r ==> !Announcing(s.workers[w])
  }

  lemma MutedAct(l: Local, a: Action, count: nat, next: nat)
    requires Fits(l.phase, a) && l.run.state == RunCancelled && !l.phase.AtCompleteRun? && l.events == []
    requires l.phase.AtProgress? ==> !AllDone(ProgressOf(l.run))
    ensures var l' := Act(l, a, count, next);
            && l'.run.state == RunCancelled && !l'.phase.AtCompleteRun?
            && (Counting(l'.phase) ==> Counting(l.phase)) && (Announcing(l'.phase) ==> Announcing(l.phase))
            && forall e :: e in l'.events ==> !e.RunCompleted? && (e.Announced? ==> Announcing(l.phase))
  {
  }

  /** A statement's events are about the run of its task. */
  lemma ActEvents(l: Local, a: Action, count: nat, next: nat)
    requires Fits(l.phase, a) && l.events == []
    ensures forall e :: e in Act(l, a, count, next).events && (e.RunCompleted? || e.Announced?) ==> e.run == l.task.run
  {
  }

  lemma MutedWork(s: World, w: nat, a: Action, r: nat)
    requires Inv(s) && Enabled(s, Work(w, a)) && Muted(s, r)
    ensures var s' := Next(s, Work(w, a));
            && IsCancelled(s', r)
            && (RunOf(s, w) == r ==>
                  && !s'.workers[w].AtCompleteRun?
                  && (Counting(s'.workers[w]) ==> Counting(s.workers[w]))
                  && (Announcing(s'.workers[w]) ==> Announcing(s.workers[w])))
            && (CompletedIn(s'.log, r) ==> CompletedIn(s.log, r))
            && (AnnouncedIn(s'.log, r) ==>
                  AnnouncedIn(s.log, r) || (RunOf(s, w) == r && Announcing(s.workers[w])))
  {
    var l, count := Look(s, w), RunTaskCount(s.tasks, RunOf(s, w));
    WorkerMoves(s, w, a);
    ActEvents(l, a, count, |s.artifacts|);
    if RunOf(s, w) == r {
      if s.workers[w].AtProgress? { StuckIsNotDone(s, r); }
      MutedAct(l, a, count, |s.artifacts|);
    }
  }

  lemma MutedHere(s: World, st: Step, r: nat, w: nat)
    requires Inv(s) && Enabled(s, st) && Muted(s, r) && Inv(Next(s, st)) && IsCancelled(Next(s, st), r)
    requires Busy(Next(s, st), w) && RunOf(Next(s, st), w) == r
    ensures !Next(s, st).workers[w].AtCompleteRun?
    ensures Counting(Next(s, st).workers[w]) ==> Stuck(Next(s, st), r)
    ensures Silent(s, r) ==> !Announcing(Next(s, st).workers[w])
  {
    if w < |s.workers| && !s.workers[w].Idle? {
      assert WorkerOk(s, w);
      if st.Work? && st.w == w {
        WorkerMoves(s, w, st.a);
        MutedWork(s, w, st.a, r);
      } else {
        BusyStays(s, st, w);
      }
      if Counting(Next(s, st).workers[w]) { StuckStays(s, st, r); }
    }
  }

  lemma MutedStep(s: World, st: Step, r: nat)
    requires Inv(s) && Enabled(s, st) && Muted(s, r)
    ensures Inv(Next(s, st)) && Muted(Next(s, st), r)
    ensures CompletedIn(Next(s, st).log, r) ==> CompletedIn(s.log, r)
    ensures Silent(s, r) ==> Silent(Next(s, st), r) && (AnnouncedIn(Next(s, st).log, r) ==> AnnouncedIn(s.log, r))
  {
    StepPreserves(s, st);
    if st.Work? { MutedWork(s, st.w, st.a, r); }
    forall w: nat | Busy(Next(s, st), w) && RunOf(Next(s, st), w) == r
      ensures !Next(s, st).workers[w].AtCompleteRun?
      ensures Counting(Next(s, st).workers[w]) ==> Stuck(Next(s, st), r)
      ensures Silent(s, r) ==> !Announcing(Next(s, st).workers[w])
    {
      MutedHere(s, st, r, w);
    }
  }

  lemma {:induction false} MutedRuns(s: World, tr: seq<Step>, r: nat)
    requires Inv(s) && Runs(s, tr) && Muted(s, r)
    ensures Inv(After(s, tr)) && Muted(After(s, tr), r)
    ensures CompletedIn(After(s, tr).log, r) ==> CompletedIn(s.log, r)
    ensures Silent(s, r) ==> Silent(After(s, tr), r) && (AnnouncedIn(After(s, tr).log, r) ==> AnnouncedIn(s.log, r))
    decreases |tr|
  {
    if tr != [] {
      MutedRuns(s, tr[..|tr| - 1], r);
      MutedStep(After(s, tr[..|tr| - 1]), tr[|tr| - 1], r);
    }
  }

  lemma UnfinishedIsMuted(s: World, r: nat)
    requires Inv(s) && IsCancelled(s, r) && forall w: nat :: !Finishes(s, r, w)
    ensures Muted(s, r)
  {
    forall w: nat | Busy(s, w) && RunOf(s, w) == r
      ensures !s.workers[w].AtCompleteRun? && (Counting(s.workers[w]) ==> Stuck(s, r))
    {
      assert !Finishes(s, r, w);
    }
  }

  /** Exactly which cancelled runs are ever completed: those that are already, and those of which
      a worker has passed the completion test, or is between its mark and its read of the
      progress while the progress is 0 of 0 or all tasks are counted or can still be. */
  lemma CancelledRunCompletesIff(s: World, r: nat)
    requires Reachable(s) && IsCancelled(s, r)
    ensures CanBeCompleted(s, r) <==> CompletedIn(s.log, r) || exists w: nat :: Finishes(s, r, w)
  {
    ReachableInv(s);
    if w: nat :| Finishes(s, r, w) {
      FinisherFinishes(s, r, w);
      FinishCompletes(s, r);
    } else {
      UnfinishedIsMuted(s, r);
      if CanBeCompleted(s, r) {
        var s' :| Later(s, s') && CompletedIn(s'.log, r);
        var tr := RunBetween(s, s');
        MutedRuns(s, tr, r);
      } else {
        LaterNow(s);
      }
    }
  }

  ghost predicate Announces(s: World, r: nat, w: nat) {
    Finishes(s, r, w) || (Busy(s, w) && RunOf(s, w) == r && Announcing(s.workers[w]))
  }

  /** Exactly which cancelled runs are ever announced: the same, and those of which a worker is
      still between the completion and the announcement. */
  lemma CancelledRunAnnouncedIff(s: World, r: nat)
    requires Reachable(s) && IsCancelled(s, r)
    ensures CanBeAnnounced(s, r) <==> AnnouncedIn(s.log, r) || exists w: nat :: Announces(s, r, w)
  {
    ReachableInv(s);
    if w: nat :| Announces(s, r, w) {
      if Finishes(s, r, w) {
        FinisherFinishes(s, r, w);
        FinishAnnounces(s, r);
      } else {
        AnnouncerAnnounces(s, w);
      }
    } else {
      forall w: nat ensures !Finishes(s, r, w) { assert !Announces(s, r, w); }
      UnfinishedIsMuted(s, r);
      forall w: nat | Busy(s, w) && RunOf(s, w) == r ensures !Announcing(s.workers[w]) {
        assert !Announces(s, r, w);
      }
      if CanBeAnnounced(s, r) {
        var s' :| Later(s, s') && AnnouncedIn(s'.log, r);
        var tr := RunBetween(s, s');
        MutedRuns(s, tr, r);
      } else {
        LaterNow(s);
      }
    }
  }

  // -- runs with a DEAD task --

  /** Whatever read a cancellation leaves its event in the log. */
  ghost predicate BuriedInv(s: World) {
    && LogInv(s)
    && (forall t :: 0 <= t < |s.tasks| && s.tasks[t].state == Dead ==> RunCancelledBy(s.tasks[t].run) in s.log)
    && (forall w: nat :: Busy(s, w) && s.workers[w].AtBury? ==> RunCancelledBy(RunOf(s, w)) in s.log)
    && (forall r :: 0 <= r < |s.runs| && RunCancelledBy(r) in s.log ==> s.runs[r].state != RunSubmitted)
  }

  lemma ActBuries(l: Local, a: Action, count: nat, next: nat)
    requires Fits(l.phase, a) && l.events == []
    ensures var l' := Act(l, a, count, next);
            && l'.task.run == l.task.run
            && (l'.task.state == Dead ==> l.task.state == Dead || l.phase.AtBury?)
            && (l'.phase.AtBury? ==> l.run.state == RunCancelled && l'.phase.t == l.phase.t)
            && (l'.run.state == RunSubmitted ==> l.run.state == RunSubmitted)
            && forall e :: e in l'.events ==> !e.RunCancelledBy?
  {
  }

  lemma PutBuries(s: World, w: nat, l: Local)
    requires BuriedInv(s) && Busy(s, w) && l.task.run == RunOf(s, w)
    requires LogInv(Put(s, w, l))
    requires l.task.state == Dead ==> s.tasks[TaskOf(s, w)].state == Dead || s.workers[w].AtBury?
    requires l.phase.AtBury? ==> s.runs[RunOf(s, w)].state == RunCancelled && l.phase.t == TaskOf(s, w)
    requires l.run.state == RunSubmitted ==> s.runs[RunOf(s, w)].state == RunSubmitted
    requires forall e :: e in l.events ==> !e.RunCancelledBy?
    ensures BuriedInv(Put(s, w, l))
  {
    assert StateLogged(s, RunOf(s, w));
    forall v: nat | Busy(Put(s, w, l), v) && Put(s, w, l).workers[v].AtBury?
      ensures RunCancelledBy(RunOf(Put(s, w, l), v)) in Put(s, w, l).log
    {
      if v != w { assert Busy(s, v) && RunOf(Put(s, w, l), v) == RunOf(s, v); }
    }
  }

  lemma BuriedStays(s: World, st: Step)
    requires BuriedInv(s) && Enabled(s, st)
    ensures BuriedInv(Next(s, st))
  {
    LogInvStays(s, st);
    if st.Work? {
      var count := RunTaskCount(s.tasks, RunOf(s, st.w));
      ActBuries(Look(s, st.w), st.a, count, |s.artifacts|);
      PutBuries(s, st.w, Act(Look(s, st.w), st.a, count, |s.artifacts|));
    } else {
      forall w: nat | Busy(Next(s, st), w) && Next(s, st).workers[w].AtBury?
        ensures RunCancelledBy(RunOf(Next(s, st), w)) in Next(s, st).log
      {
        assert WorkerOk(s, w);
      }
      forall r | 0 <= r < |Next(s, st).runs| && RunCancelledBy(r) in Next(s, st).log
        ensures Next(s, st).runs[r].state != RunSubmitted
      {
        if RunCancelledBy(r) in s.log { assert EventOk(s, RunCancelledBy(r)); }
      }
    }
  }

  lemma {:induction false} RunsBuried(s: World, tr: seq<Step>)
    requires BuriedInv(s) && Runs(s, tr)
    ensures BuriedInv(After(s, tr))
    decreases |tr|
  {
    if tr != [] {
      RunsBuried(s, tr[..|tr| - 1]);
      BuriedStays(After(s, tr[..|tr| - 1]), tr[|tr| - 1]);
    }
  }

  ghost predicate FinishesOnZero(s: World, r: nat, w: nat) {
    && Busy(s, w) && RunOf(s, w) == r
    && (s.workers[w].AtCompleteRun? || (Counting(s.workers[w]) && ZeroOfZero(s, r)))
  }

  /** A DEAD task is never counted. */
  lemma DeadIsUncountable(s: World, t: nat)
    requires Inv(s) && t < |s.tasks| && s.tasks[t].state == Dead
    ensures !AllCountable(s, s.tasks[t].run)
  {
    assert TaskOk(s, t);
    forall w | 0 <= w < |s.workers| && CanCount(s.workers[w]) ensures s.workers[w].t != t { assert WorkerOk(s, w); }
    assert !Countable(s, t);
  }

  /** Exactly which runs with a DEAD task are ever completed: those that are already, and those
      of which a worker has passed the completion test or is between its mark and its read of
      the progress, while that is 0 of 0. */
  lemma DeadRunCompletesIff(s: World, t: nat)
    requires Reachable(s) && t < |s.tasks| && s.tasks[t].state == Dead
    ensures var r := s.tasks[t].run;
            CanBeCompleted(s, r) <==> CompletedIn(s.log, r) || exists w: nat :: FinishesOnZero(s, r, w)
  {
    var r := s.tasks[t].run;
    var tr := RunBetween(Init(s.n), s);
    RunsBuried(Init(s.n), tr);
    ReachableInv(s);
    assert StateLogged(s, r);
    if IsCancelled(s, r) {
      CancelledRunCompletesIff(s, r);
      DeadIsUncountable(s, t);
      assert forall w: nat :: Finishes(s, r, w) <==> FinishesOnZero(s, r, w);
    } else {
      LaterNow(s);
      if w: nat :| FinishesOnZero(s, r, w) { assert CompletedIn(s.log, r); }
    }
  }

  // -- how often a run is announced --

  /** How often job.completed was attempted for the run. */
  ghost function Announcements(log: seq<Event>, r: nat): nat {
    if log == [] then 0
    else
      var m := |log| - 1;
      Announcements(log[..m], r) + if log[m].Announced? && log[m].run == r then 1 else 0
  }

  /** The worker has marked its task SUCCEEDED and not ended its poll. */
  predicate AfterMark(p: Phase) {
    p.AtCount? || p.AtProgress? || Announcing(p)
  }

  ghost predicate Closed(s: World, r: nat, t: nat) {
    && t < |s.tasks| && s.tasks[t].run == r && s.tasks[t].state == Succeeded
    && forall w :: 0 <= w < |s.workers| && AfterMark(s.workers[w]) ==> s.workers[w].t != t
  }

  /** The SUCCEEDED tasks of the run whose poll has ended. */
  ghost function ClosedTasks(s: World, r: nat): set<nat> {
    set t | 0 <= t < |s.tasks| && Closed(s, r, t)
  }

  lemma ActAfterMark(l: Local, a: Action, count: nat, next: nat)
    requires Fits(l.phase, a)
    ensures var p := Act(l, a, count, next).phase;
            AfterMark(p) ==> p.t == l.phase.t && (AfterMark(l.phase) || l.phase.AtMark?)
  {
  }

  lemma ClosedUnderWork(s: World, w: nat, a: Action, r: nat, t: nat)
    requires Inv(s) && Enabled(s, Work(w, a)) && Closed(s, r, t)
    ensures AfterMark(Next(s, Work(w, a)).workers[w]) ==> Next(s, Work(w, a)).workers[w].t != t
  {
    assert WorkerOk(s, w);
    ActAfterMark(Look(s, w), a, RunTaskCount(s.tasks, RunOf(s, w)), |s.artifacts|);
  }

  lemma ClosedStays(s: World, st: Step, r: nat, t: nat)
    requires Inv(s) && Enabled(s, st) && Closed(s, r, t)
    ensures Closed(Next(s, st), r, t)
  {
    StepEvolves(s, st);
    assert TaskEvolves(s.tasks[t], s.hist[t], Next(s, st).tasks[t], Next(s, st).hist[t]);
    if st.Work? { ClosedUnderWork(s, st.w, st.a, r, t); }
    forall w | 0 <= w < |Next(s, st).workers| && AfterMark(Next(s, st).workers[w])
      ensures Next(s, st).workers[w].t != t
    {
      if w < |s.workers| && Next(s, st).workers[w] == s.workers[w] { assert AfterMark(s.workers[w]); }
    }
  }

  lemma PublishCloses(s: World, w: nat, d: bool)
    requires Inv(s) && Enabled(s, Work(w, Publish(d)))
    ensures !Closed(s, RunOf(s, w), TaskOf(s, w))
    ensures Closed(Next(s, Work(w, Publish(d))), RunOf(s, w), TaskOf(s, w))
  {
    assert WorkerOk(s, w);
    var s' := Next(s, Work(w, Publish(d)));
    forall v | 0 <= v < |s'.workers| && AfterMark(s'.workers[v]) ensures s'.workers[v].t != TaskOf(s, w) {
      assert WorkerOk(s, v);
    }
  }

  lemma AnnouncementsAppend(log: seq<Event>, e: Event, r: nat)
    ensures Announcements(log + [e], r) == Announcements(log, r) + if e.Announced? && e.run == r then 1 else 0
  {
    assert (log + [e])[..|log|] == log;
  }

  lemma EventsOfStep(s: World, st: Step)
    requires Inv(s) && Enabled(s, st)
    ensures || Next(s, st).log == s.log
            || (&& |Next(s, st).log| == |s.log| + 1 && s.log <= Next(s, st).log
                && (Next(s, st).log[|s.log|].Announced? ==>
                      st.Work? && st.a.Publish? && Next(s, st).log[|s.log|].run == RunOf(s, st.w)))
  {
    if st.Work? { WorkerMoves(s, st.w, st.a); }
  }

  /** 1 if the step announces the run. */
  function Announcement(s: World, st: Step, r: nat): nat {
    if st.Work? && st.a.Publish? && Busy(s, st.w) && RunOf(s, st.w) == r then 1 else 0
  }

  lemma LogGrows(s: World, st: Step, r: nat)
    requires Inv(s) && Enabled(s, st)
    ensures Announcements(Next(s, st).log, r) <= Announcements(s.log, r) + Announcement(s, st, r)
  {
    var log := Next(s, st).log;
    EventsOfStep(s, st);
    if log != s.log {
      AnnouncementsAppend(s.log, log[|s.log|], r);
      assert log == s.log + [log[|s.log|]];
    }
  }

  lemma ClosedGrow(s: World, st: Step, r: nat)
    requires Inv(s) && Enabled(s, st)
    ensures |ClosedTasks(s, r)| + Announcement(s, st, r) <= |ClosedTasks(Next(s, st), r)|
  {
    var a, b := ClosedTasks(s, r), ClosedTasks(Next(s, st), r);
    forall t | t in a ensures t in b { ClosedStays(s, st, r, t); }
    if Announcement(s, st, r) == 1 {
      PublishCloses(s, st.w, st.a.delivered);
      SubsetSize(a + {TaskOf(s, st.w)}, b);
    } else {
      SubsetSize(a, b);
    }
  }

  lemma {:induction false} SubsetSize(a: set<nat>, b: set<nat>)
    requires a <= b
    ensures |a| <= |b|
  {
    if x :| x in a { SubsetSize(a - {x}, b - {x}); }
  }

  lemma {:induction false} AnnouncementsOfRun(s: World, tr: seq<Step>, r: nat)
    requires Inv(s) && Runs(s, tr) && Announcements(s.log, r) <= |ClosedTasks(s, r)|
    ensures Announcements(After(s, tr).log, r) <= |ClosedTasks(After(s, tr), r)|
    decreases |tr|
  {
    if tr != [] {
      AnnouncementsOfRun(s, tr[..|tr| - 1], r);
      RunsPreserve(s, tr[..|tr| - 1]);
      LogGrows(After(s, tr[..|tr| - 1]), tr[|tr| - 1], r);
      ClosedGrow(After(s, tr[..|tr| - 1]), tr[|tr| - 1], r);
    }
  }

  /** A run is announced at most once for every task that is SUCCEEDED, so at most `n` times,
      whatever races, crashes or is lost; racing workers do announce it more than once. */
  lemma AnnouncementsAreBounded(s: World, r: nat)
    requires Reachable(s) && r < |s.runs|
    ensures Announcements(s.log, r) <= |Rows(s.tasks, r, Succeeded)| <= s.n
  {
    var tr := RunBetween(Init(s.n), s);
    AnnouncementsOfRun(Init(s.n), tr, r);
    SubsetSize(ClosedTasks(s, r), Rows(s.tasks, r, Succeeded));
    ReachableInv(s);
    var all := set t | 0 <= t < |s.tasks| && s.tasks[t].run == r;
    forall t | 0 <= t < |s.tasks| ensures s.hist[t].run == s.tasks[t].run { assert TaskOk(s, t); }
    SumIsCardinality(s.tasks, s.hist, Ones(r), all);
    assert RunOk(s, r);
    SubsetSize(Rows(s.tasks, r, Succeeded), all);
  }
}
