/** What a cancelled run can still become, exactly. */
module Cancellation {
  import opened Faults
  import opened Tables
  import opened Protocol
  import opened Invariant
  import opened Preservation
  import opened History
  import opened Notice
  import opened Termination

  /** No task of the run turns SUCCEEDED, and no completion of it is written. */
  ghost predicate SameSuccesses(s: World, s': World, r: nat) {
    && |s.tasks| <= |s'.tasks|
    && (forall t :: 0 <= t < |s'.tasks| && s'.tasks[t].run == r && s'.tasks[t].state == Succeeded ==>
          t < |s.tasks| && s.tasks[t].run == r && s.tasks[t].state == Succeeded)
    && (forall v :: RunCompleted(r, v) in s'.log ==> RunCompleted(r, v) in s.log)
  }

  predicate IsCancelled(s: World, r: nat) {
    r < |s.runs| && s.runs[r].state == RunCancelled
  }

  /** Some continuation undoes the cancellation: the run gets another state, or a task of it
      turns SUCCEEDED. */
  ghost predicate CanBreak(s: World, r: nat) {
    exists s' :: Later(s, s') && !(IsCancelled(s', r) && SameSuccesses(s, s', r))
  }

  // -- which tasks of a cancelled run can still be counted ---------------------------------

  /** A worker here can still count its task, although the run is CANCELLED: it reads the run
      state no more before it does. */
  predicate CanCount(p: Phase) {
    || p.AtStart? || p.AtProcess? || p.AtSubprocess? || p.AtDecide?
    || p.AtFail? || p.AtCountFail? || p.AtMark? || p.AtCount?
  }

  ghost predicate Countable(s: World, t: nat)
    requires t < |s.hist|
  {
    !Uncounted(s.hist[t]) || exists w :: 0 <= w < |s.workers| && CanCount(s.workers[w]) && s.workers[w].t == t
  }

  /** All tasks of the run exist, and each is counted or can still be. */
  ghost predicate AllCountable(s: World, r: nat)
    requires r < |s.runHist| && |s.tasks| == |s.hist|
  {
    && |s.runHist[r].ids| == s.n
    && forall t :: 0 <= t < |s.tasks| && s.tasks[t].run == r ==> Countable(s, t)
  }

  /** The run has no total yet, and 0 of 0 tasks are counted. */
  predicate ZeroOfZero(s: World, r: nat)
    requires r < |s.runs|
  {
    s.runs[r].total == 0 && AllDone(ProgressOf(s.runs[r]))
  }

  predicate AboutToRead(p: Phase) {
    p.AtCount? || p.AtProgress?
  }

  predicate AboutToWrite(p: Phase) {
    p.AtMark? || p.AtCompleteRun?
  }

  /** A worker of the run will not look at the run state before it writes a success or a
      verdict. */
  ghost predicate Breakable(s: World, r: nat) {
    exists w: nat :: Breaks(s, r, w)
  }

  ghost predicate Breaks(s: World, r: nat, w: nat) {
    && Busy(s, w) && RunOf(s, w) == r
    && (|| AboutToWrite(s.workers[w])
        || (AboutToRead(s.workers[w]) && (ZeroOfZero(s, r) || AllCountable(s, r))))
  }

  // -- a cancellation that cannot be broken --------------------------------------------

  ghost predicate Stuck(s: World, r: nat)
    requires r < |s.runs| == |s.runHist| && |s.tasks| == |s.hist|
  {
    !ZeroOfZero(s, r) && !AllCountable(s, r)
  }

  lemma StuckIsNotDone(s: World, r: nat)
    requires Inv(s) && r < |s.runs| && Stuck(s, r)
    ensures !AllDone(ProgressOf(s.runs[r]))
  {
    assert RunOk(s, r);
    FullyCounted(s, r);
  }

  /** A statement under a CANCELLED run counts nothing from a phase that cannot count. */
  lemma ActCannotCount(l: Local, a: Action, count: nat, next: nat)
    requires Fits(l.phase, a) && l.run.state == RunCancelled && !CanCount(l.phase)
    ensures var l' := Act(l, a, count, next);
            !CanCount(l'.phase) && l'.h.dones == l.h.dones && l'.h.fails == l.h.fails
  {
  }

  lemma UncountableStays(s: World, st: Step, t: nat)
    requires Inv(s) && Enabled(s, st) && t < |s.tasks| && s.runs[s.tasks[t].run].state == RunCancelled
    requires !Countable(s, t)
    ensures t < |Next(s, st).hist| && !Countable(Next(s, st), t)
  {
    var s' := Next(s, st);
    if st.Work? {
      WorkerMoves(s, st.w, st.a);
      if TaskOf(s, st.w) == t {
        ActCannotCount(Look(s, st.w), st.a, RunTaskCount(s.tasks, RunOf(s, st.w)), |s.artifacts|);
      }
    }
    forall w | 0 <= w < |s'.workers| && CanCount(s'.workers[w]) ensures s'.workers[w].t != t {
      if w < |s.workers| && s'.workers[w] == s.workers[w] { assert CanCount(s.workers[w]); }
    }
  }

  lemma NewTaskIsUncountable(s: World, r: nat)
    requires Inv(s) && Enabled(s, CreateTask(r))
    ensures |Next(s, CreateTask(r)).hist| == |s.hist| + 1 && !Countable(Next(s, CreateTask(r)), |s.tasks|)
    ensures Next(s, CreateTask(r)).tasks[|s.tasks|].run == r
  {
    forall w | 0 <= w < |s.workers| && CanCount(s.workers[w]) ensures s.workers[w].t != |s.tasks| {
      assert WorkerOk(s, w);
    }
  }

  lemma UncountableRunStays(s: World, st: Step, r: nat)
    requires Inv(s) && Enabled(s, st) && IsCancelled(s, r) && !AllCountable(s, r)
    requires Inv(Next(s, st)) && r < |Next(s, st).runHist|
    ensures !AllCountable(Next(s, st), r)
  {
    StepEvolves(s, st);
    if st == CreateTask(r) {
      NewTaskIsUncountable(s, r);
    } else if !Schedules(st, r) {
      StepKeepsStage(s, st, r);
    }
    if t :| 0 <= t < |s.tasks| && s.tasks[t].run == r && !Countable(s, t) {
      UncountableStays(s, st, t);
      assert TaskEvolves(s.tasks[t], s.hist[t], Next(s, st).tasks[t], Next(s, st).hist[t]);
    }
  }

  lemma StuckStays(s: World, st: Step, r: nat)
    requires Inv(s) && Enabled(s, st) && IsCancelled(s, r) && Stuck(s, r)
    requires Inv(Next(s, st)) && r < |Next(s, st).runs|
    ensures Stuck(Next(s, st), r)
  {
    UncountableRunStays(s, st, r);
    StepEvolves(s, st);
    assert RunEvolves(s.runs[r], s.runHist[r], Next(s, st).runs[r], Next(s, st).runHist[r]);
    assert RunOk(s, r) && RunOk(Next(s, st), r);
    FullyCounted(s, r);
  }

  ghost predicate Sealed(s: World, r: nat) {
    && IsCancelled(s, r) && Shaped(s)
    && (forall w: nat :: Busy(s, w) && RunOf(s, w) == r ==>
          !AboutToWrite(s.workers[w]) && (AboutToRead(s.workers[w]) ==> Stuck(s, r)))
  }

  /** A statement of a worker of a sealed run. */
  lemma SealedAct(l: Local, a: Action, count: nat, next: nat)
    requires Fits(l.phase, a) && l.run.state == RunCancelled && !AboutToWrite(l.phase) && l.events == []
    requires AboutToRead(l.phase) ==> !AllDone(ProgressOf(l.run))
    ensures var l' := Act(l, a, count, next);
            && l'.run.state == RunCancelled && !AboutToWrite(l'.phase)
            && (AboutToRead(l'.phase) ==> AboutToRead(l.phase))
            && (l'.task.state == Succeeded ==> l.task.state == Succeeded)
            && forall e :: e in l'.events ==> !e.RunCompleted?
  {
  }

  lemma ActKeepsRun(l: Local, a: Action, count: nat, next: nat)
    requires Fits(l.phase, a) && l.events == []
    ensures var l' := Act(l, a, count, next);
            && l'.task.run == l.task.run
            && forall e :: e in l'.events && e.RunCompleted? ==> e.run == l.task.run
  {
  }

  lemma PutSuccesses(s: World, w: nat, l: Local, r: nat)
    requires Shaped(s) && Busy(s, w) && l.task.run == RunOf(s, w)
    requires forall e :: e in l.events && e.RunCompleted? ==> e.run == RunOf(s, w) != r
    requires RunOf(s, w) == r && l.task.state == Succeeded ==> s.tasks[TaskOf(s, w)].state == Succeeded
    ensures SameSuccesses(s, Put(s, w, l), r)
  {
  }

  lemma SealedWork(s: World, w: nat, a: Action, r: nat)
    requires Inv(s) && Enabled(s, Work(w, a)) && Sealed(s, r)
    ensures var s' := Next(s, Work(w, a));
            && IsCancelled(s', r) && SameSuccesses(s, s', r)
            && (RunOf(s, w) == r ==>
                  !AboutToWrite(s'.workers[w]) && (AboutToRead(s'.workers[w]) ==> AboutToRead(s.workers[w])))
  {
    var l, count := Look(s, w), RunTaskCount(s.tasks, RunOf(s, w));
    ActKeepsRun(l, a, count, |s.artifacts|);
    if RunOf(s, w) == r {
      if AboutToRead(s.workers[w]) { StuckIsNotDone(s, r); }
      SealedAct(l, a, count, |s.artifacts|);
    }
    PutSuccesses(s, w, Act(l, a, count, |s.artifacts|), r);
  }

  lemma SealedHere(s: World, st: Step, r: nat, w: nat)
    requires Inv(s) && Enabled(s, st) && Sealed(s, r) && Inv(Next(s, st)) && IsCancelled(Next(s, st), r)
    requires Busy(Next(s, st), w) && RunOf(Next(s, st), w) == r
    ensures !AboutToWrite(Next(s, st).workers[w])
    ensures AboutToRead(Next(s, st).workers[w]) ==> Stuck(Next(s, st), r)
  {
    var s' := Next(s, st);
    if w < |s.workers| && !s.workers[w].Idle? {
      assert WorkerOk(s, w);
      if st.Work? && st.w == w {
        WorkerMoves(s, w, st.a);
        SealedWork(s, w, st.a, r);
      } else {
        BusyStays(s, st, w);
      }
      if AboutToRead(s'.workers[w]) { StuckStays(s, st, r); }
    }
  }

  lemma SealedStep(s: World, st: Step, r: nat)
    requires Inv(s) && Enabled(s, st) && Sealed(s, r)
    ensures Sealed(Next(s, st), r) && SameSuccesses(s, Next(s, st), r)
  {
    StepPreserves(s, st);
    if st.Work? { SealedWork(s, st.w, st.a, r); }
    forall w: nat | Busy(Next(s, st), w) && RunOf(Next(s, st), w) == r
      ensures !AboutToWrite(Next(s, st).workers[w])
      ensures AboutToRead(Next(s, st).workers[w]) ==> Stuck(Next(s, st), r)
    {
      SealedHere(s, st, r, w);
    }
  }

  lemma {:induction false} SealedRuns(s: World, tr: seq<Step>, r: nat)
    requires Inv(s) && Runs(s, tr) && Sealed(s, r)
    ensures Sealed(After(s, tr), r) && SameSuccesses(s, After(s, tr), r)
    decreases |tr|
  {
    if tr != [] {
      var front := tr[..|tr| - 1];
      SealedRuns(s, front, r);
      RunsPreserve(s, front);
      SealedStep(After(s, front), tr[|tr| - 1], r);
    }
  }

  lemma UnbreakableIsSealed(s: World, r: nat)
    requires Inv(s) && IsCancelled(s, r) && !Breakable(s, r)
    ensures Sealed(s, r)
  {
    forall w: nat | Busy(s, w) && RunOf(s, w) == r
      ensures !AboutToWrite(s.workers[w]) && (AboutToRead(s.workers[w]) ==> Stuck(s, r))
    {
      assert !Breaks(s, r, w);
    }
  }

  /** Cancellation is stable: once a run is CANCELLED and no worker of it is about to write a
      success or a verdict, it stays CANCELLED in every continuation, no task of it becomes
      SUCCEEDED and no completion of it is written. */
  lemma CancellationIsStable(s: World, s': World, r: nat)
    requires Reachable(s) && IsCancelled(s, r) && !Breakable(s, r) && Later(s, s')
    ensures IsCancelled(s', r) && SameSuccesses(s, s', r)
  {
    ReachableInv(s);
    UnbreakableIsSealed(s, r);
    var tr := RunBetween(s, s');
    SealedRuns(s, tr, r);
  }

  // -- a cancellation that can -----------------------------------------------------------

  ghost predicate Finishing(s: World, r: nat, w: nat) {
    Inv(s) && Busy(s, w) && RunOf(s, w) == r && s.workers[w].AtCompleteRun?
  }

  /** Some worker passes the completion test of the run in some continuation. */
  ghost predicate CanFinish(s: World, r: nat) {
    exists s', w: nat :: Later(s, s') && Finishing(s', r, w)
  }

  lemma CanFinishLater(s: World, st: Step, r: nat)
    requires Enabled(s, st) && CanFinish(Next(s, st), r)
    ensures CanFinish(s, r)
  {
    var s', w: nat :| Later(Next(s, st), s') && Finishing(s', r, w);
    LaterFrom(s, st, s');
  }

  /** From its mark to its read of the progress. */
  predicate Counting(p: Phase) {
    p.AtMark? || p.AtCount? || p.AtProgress?
  }

  lemma DoneFinishes(s: World, w: nat)
    requires Inv(s) && Busy(s, w) && s.workers[w].AtProgress? && AllDone(ProgressOf(s.runs[RunOf(s, w)]))
    ensures CanFinish(s, RunOf(s, w))
  {
    var st := Work(w, GetRunProgress(true));
    WorkPreserves(s, w, st.a);
    WorkerMoves(s, w, st.a);
    LaterNow(Next(s, st));
    assert Finishing(Next(s, st), RunOf(s, w), w);
    CanFinishLater(s, st, RunOf(s, w));
  }

  lemma {:induction false} ZeroOfZeroFinishes(s: World, w: nat)
    requires Inv(s) && Busy(s, w) && Counting(s.workers[w]) && ZeroOfZero(s, RunOf(s, w))
    ensures CanFinish(s, RunOf(s, w))
    decreases Rank(s.workers[w])
  {
    if s.workers[w].AtProgress? {
      DoneFinishes(s, w);
    } else {
      var st := Work(w, if s.workers[w].AtMark? then UpdateTaskSucceeded(Done) else TaskSucceeded(Lost));
      WorkPreserves(s, w, st.a);
      WorkerMoves(s, w, st.a);
      ZeroOfZeroFinishes(Next(s, st), w);
      CanFinishLater(s, st, RunOf(s, w));
    }
  }

  lemma AllCountedIsDone(s: World, r: nat)
    requires Inv(s) && r < |s.runs| && s.runHist[r].sized
    requires forall t :: 0 <= t < |s.tasks| && s.tasks[t].run == r ==> !Uncounted(s.hist[t])
    ensures AllDone(ProgressOf(s.runs[r]))
  {
    assert RunOk(s, r);
    forall i | 0 <= i < |s.tasks|
      ensures Val(s.tasks[i], s.hist[i], Ones(r)) ==
              Val(s.tasks[i], s.hist[i], Dones(r)) + Val(s.tasks[i], s.hist[i], Fails(r))
    {
      assert TaskOk(s, i);
    }
    SumAdds(s.tasks, s.hist, Ones(r), Dones(r), Fails(r));
  }

  /** The statement by which a worker that can count comes closer to it. */
  function TowardsCount(p: Phase): Action
    requires CanCount(p)
  {
    match p
    case AtStart(_, _) => TaskStarted(Done)
    case AtProcess(_, _) => ProcessError(true)
    case AtSubprocess(_, _, _) => ProcessError(true)
    case AtDecide(_, _, _) => GetJobForRetry(false)
    case AtFail(_) => FailTaskWithError(Done)
    case AtCountFail(_) => Action.TaskFailed(Done)
    case AtMark(_) => UpdateTaskSucceeded(Done)
    case AtCount(_) => TaskSucceeded(Done)
  }

  lemma ActTowardsCount(l: Local, count: nat, next: nat)
    requires CanCount(l.phase) && l.events == [] && TaskLocal(l.task, l.h)
    ensures var l' := Act(l, TowardsCount(l.phase), count, next);
            && (!Uncounted(l'.h) || (CanCount(l'.phase) && l'.phase.t == l.phase.t))
            && (!Uncounted(l.h) ==> !Uncounted(l'.h))
            && l'.task.run == l.task.run && Rank(l'.phase) < Rank(l.phase)
            && l'.rh.sized == l.rh.sized && l'.rh.ids == l.rh.ids
  {
  }

  /** That statement leaves every task countable. */
  lemma StaysCountable(s: World, w: nat, t: nat)
    requires Inv(s) && Busy(s, w) && CanCount(s.workers[w]) && t < |s.tasks| && Countable(s, t)
    ensures Enabled(s, Work(w, TowardsCount(s.workers[w])))
    ensures t < |Next(s, Work(w, TowardsCount(s.workers[w]))).hist|
    ensures Countable(Next(s, Work(w, TowardsCount(s.workers[w]))), t)
  {
    var a := TowardsCount(s.workers[w]);
    var s' := Next(s, Work(w, a));
    LookOk(s, w);
    ActTowardsCount(Look(s, w), RunTaskCount(s.tasks, RunOf(s, w)), |s.artifacts|);
    if Uncounted(s.hist[t]) {
      var v :| 0 <= v < |s.workers| && CanCount(s.workers[v]) && s.workers[v].t == t;
      assert WorkerOk(s, v);
      var p := s'.workers[v];
      assert v != w ==> p == s.workers[v];
      assert !Uncounted(s'.hist[t]) || (CanCount(p) && p.t == t);
    }
  }

  lemma StepTowardsCount(s: World, r: nat, w: nat, v: nat) returns (s': World)
    requires Inv(s) && Busy(s, w) && s.workers[w].AtProgress? && RunOf(s, w) == r
    requires AllCountable(s, r) && s.runHist[r].sized
    requires Busy(s, v) && CanCount(s.workers[v]) && v != w
    ensures Inv(s') && Busy(s', w) && s'.workers[w].AtProgress? && RunOf(s', w) == r
    ensures AllCountable(s', r) && s'.runHist[r].sized && Ranks(s'.workers) < Ranks(s.workers)
    ensures CanFinish(s', r) ==> CanFinish(s, r)
  {
    var st := Work(v, TowardsCount(s.workers[v]));
    LookOk(s, v);
    ActTowardsCount(Look(s, v), RunTaskCount(s.tasks, RunOf(s, v)), |s.artifacts|);
    WorkPreserves(s, v, st.a);
    BusyStays(s, st, w);
    StepKeepsStage(s, st, r);
    s' := Next(s, st);
    forall t | 0 <= t < |s'.tasks| && s'.tasks[t].run == r ensures Countable(s', t) { StaysCountable(s, v, t); }
    RanksUpdate(s.workers, v, s'.workers[v]);
    if CanFinish(s', r) { CanFinishLater(s, st, r); }
  }

  /** All workers that can still count do so, and the one that is about to read finds all done. */
  lemma {:induction false} CountingFinishes(s: World, r: nat, w: nat)
    requires Inv(s) && Busy(s, w) && s.workers[w].AtProgress? && RunOf(s, w) == r
    requires AllCountable(s, r) && s.runHist[r].sized
    ensures CanFinish(s, r)
    decreases Ranks(s.workers)
  {
    if t :| 0 <= t < |s.tasks| && s.tasks[t].run == r && Uncounted(s.hist[t]) {
      assert Countable(s, t);
      var v :| 0 <= v < |s.workers| && CanCount(s.workers[v]) && s.workers[v].t == t;
      assert WorkerOk(s, v);
      var s' := StepTowardsCount(s, r, w, v);
      CountingFinishes(s', r, w);
    } else {
      AllCountedIsDone(s, r);
      DoneFinishes(s, w);
    }
  }

  lemma {:induction false} SizedCountableFinishes(s: World, w: nat)
    requires Inv(s) && Busy(s, w) && Counting(s.workers[w])
    requires AllCountable(s, RunOf(s, w)) && s.runHist[RunOf(s, w)].sized
    ensures CanFinish(s, RunOf(s, w))
    decreases Rank(s.workers[w])
  {
    var r := RunOf(s, w);
    if s.workers[w].AtProgress? {
      CountingFinishes(s, r, w);
    } else {
      var st := Work(w, TowardsCount(s.workers[w]));
      WorkPreserves(s, w, st.a);
      WorkerMoves(s, w, st.a);
      StepKeepsStage(s, st, r);
      var s' := Next(s, st);
      forall t | 0 <= t < |s'.tasks| && s'.tasks[t].run == r ensures Countable(s', t) { StaysCountable(s, w, t); }
      SizedCountableFinishes(s', w);
      CanFinishLater(s, st, r);
    }
  }

  lemma CountableFinishes(s: World, w: nat)
    requires Inv(s) && Busy(s, w) && Counting(s.workers[w]) && AllCountable(s, RunOf(s, w))
    ensures CanFinish(s, RunOf(s, w))
  {
    var r := RunOf(s, w);
    if s.runHist[r].sized {
      SizedCountableFinishes(s, w);
    } else {
      var st := UpdateRunTasksTotal(r);
      StepPreserves(s, st);
      BusyStays(s, st, w);
      assert forall t :: 0 <= t < |s.tasks| ==> (Countable(s, t) <==> Countable(Next(s, st), t));
      SizedCountableFinishes(Next(s, st), w);
      CanFinishLater(s, st, r);
    }
  }

  lemma FinishBreaks(s: World, r: nat)
    requires CanFinish(s, r)
    ensures CanBreak(s, r)
  {
    var s', w: nat :| Later(s, s') && Finishing(s', r, w);
    var s'' := Next(s', Work(w, CompleteRun(Done)));
    LaterStep(s, s', Work(w, CompleteRun(Done)));
    assert s''.runs[r].state != RunCancelled;
    assert !IsCancelled(s'', r);
  }

  lemma MarkBreaks(s: World, w: nat)
    requires Inv(s) && Busy(s, w) && s.workers[w].AtMark?
    ensures CanBreak(s, RunOf(s, w))
  {
    var st := Work(w, UpdateTaskSucceeded(Done));
    assert WorkerOk(s, w);
    assert Next(s, st).tasks[TaskOf(s, w)].state == Succeeded;
    LaterNow(Next(s, st));
    LaterFrom(s, st, Next(s, st));
  }

  /** Exactly when a cancellation can still be broken: when a worker of the run is about to
      mark its task or to write the verdict, or is about to read progress that is 0 of 0 or
      that can still reach the total. */
  lemma CancellationBreaksIff(s: World, r: nat)
    requires Reachable(s) && IsCancelled(s, r)
    ensures CanBreak(s, r) <==> Breakable(s, r)
  {
    ReachableInv(s);
    if Breakable(s, r) {
      var w: nat :| Breaks(s, r, w);
      if s.workers[w].AtMark? {
        MarkBreaks(s, w);
      } else {
        LaterNow(s);
        if s.workers[w].AtCompleteRun? { assert Finishing(s, r, w); }
        else if ZeroOfZero(s, r) { ZeroOfZeroFinishes(s, w); }
        else { CountableFinishes(s, w); }
        FinishBreaks(s, r);
      }
    } else if CanBreak(s, r) {
      var s' :| Later(s, s') && !(IsCancelled(s', r) && SameSuccesses(s, s', r));
      CancellationIsStable(s, s', r);
    }
  }
}
