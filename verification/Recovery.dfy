/** What becomes of a lease whose worker has crashed or given up. */
module Recovery {
  import opened Faults
  import opened Tables
  import opened Protocol
  import opened Invariant
  import opened Preservation
  import opened Accounting
  import opened Termination

  /** Some worker will still end its hold on row `t`, unless it crashes. */
  ghost predicate Attended(s: World, t: nat) {
    exists w :: 0 <= w < |s.workers| && BeforeMark(s.workers[w]) && s.workers[w].t == t
  }

  ghost predicate CanBeFreed(s: World, t: nat) {
    exists s' :: Later(s, s') && t < |s'.tasks| && s'.tasks[t].state != Leased
  }

  predicate IsLeased(s: World, t: nat) {
    t < |s.tasks| && s.tasks[t].state == Leased
  }

  // -- an unattended lease is for ever --

  lemma UnattendedStays(s: World, st: Step, t: nat)
    requires Inv(s) && Enabled(s, st) && IsLeased(s, t) && !Attended(s, t)
    ensures IsLeased(Next(s, st), t) && !Attended(Next(s, st), t)
  {
    var s' := Next(s, st);
    if st.Work? { assert WorkerOk(s, st.w); }
    forall w | 0 <= w < |s'.workers| && BeforeMark(s'.workers[w]) ensures s'.workers[w].t != t {
      if w < |s.workers| && s'.workers[w] == s.workers[w] { assert BeforeMark(s.workers[w]); }
    }
  }

  lemma {:induction false} UnattendedForever(s: World, tr: seq<Step>, t: nat)
    requires Inv(s) && Runs(s, tr) && IsLeased(s, t) && !Attended(s, t)
    ensures IsLeased(After(s, tr), t)
    ensures !Attended(After(s, tr), t)
    decreases |tr|
  {
    if tr != [] {
      UnattendedForever(s, tr[..|tr| - 1], t);
      RunsPreserve(s, tr[..|tr| - 1]);
      UnattendedStays(After(s, tr[..|tr| - 1]), tr[|tr| - 1], t);
    }
  }

  // -- an attended one can end --

  /** A statement that brings the worker closer to the end of its hold. */
  function Onward(p: Phase): Action
    requires BeforeMark(p)
  {
    match p
    case AtFirstCheck(_, _) => FirstGetRunState(true)
    case AtBury(_) => UpdateTaskDead(Done)
    case AtStart(_, _) => TaskStarted(Done)
    case AtProcess(_, _) => ProcessError(true)
    case AtSubprocess(_, _, _) => ProcessError(true)
    case AtDecide(_, _, _) => GetJobForRetry(false)
    case AtRetry(_, _) => RetryTask(Done)
    case AtFail(_) => FailTaskWithError(Done)
    case AtSecondCheck(_) => SecondGetRunState(true)
    case AtMark(_) => UpdateTaskSucceeded(Done)
  }

  lemma OnwardFrees(s: World, w: nat)
    requires Inv(s) && w < |s.workers| && BeforeMark(s.workers[w])
    ensures Enabled(s, Work(w, Onward(s.workers[w])))
    ensures var s', t := Next(s, Work(w, Onward(s.workers[w]))), s.workers[w].t;
            && t < |s'.tasks| && |s'.workers| == |s.workers|
            && (|| s'.tasks[t].state != Leased
                || (BeforeMark(s'.workers[w]) && s'.workers[w].t == t && Rank(s'.workers[w]) < Rank(s.workers[w])))
  {
    assert WorkerOk(s, w);
  }

  lemma {:induction false} AttendedCanBeFreed(s: World, w: nat)
    requires Inv(s) && w < |s.workers| && BeforeMark(s.workers[w])
    ensures CanBeFreed(s, s.workers[w].t)
    decreases Rank(s.workers[w])
  {
    var t, st := s.workers[w].t, Work(w, Onward(s.workers[w]));
    OnwardFrees(s, w);
    var s' := Next(s, st);
    WorkPreserves(s, w, st.a);
    if s'.tasks[t].state != Leased {
      LaterNow(s');
    } else {
      AttendedCanBeFreed(s', w);
    }
    var s'' :| Later(s', s'') && t < |s''.tasks| && s''.tasks[t].state != Leased;
    LaterFrom(s, st, s'');
  }

  /** Exactly when a lease is recovered: a LEASED row can become anything else iff the worker
      that holds it is still on its way.  Neither the expiry nor any other worker helps. */
  lemma LeaseEndsIffAttended(s: World, t: nat)
    requires Reachable(s) && IsLeased(s, t)
    ensures CanBeFreed(s, t) <==> Attended(s, t)
  {
    ReachableInv(s);
    if Attended(s, t) {
      var w :| 0 <= w < |s.workers| && BeforeMark(s.workers[w]) && s.workers[w].t == t;
      AttendedCanBeFreed(s, w);
    }
    if CanBeFreed(s, t) && !Attended(s, t) {
      var s' :| Later(s, s') && t < |s'.tasks| && s'.tasks[t].state != Leased;
      var tr := RunBetween(s, s');
      UnattendedForever(s, tr, t);
    }
  }

  // -- crashes --

  predicate LeasedBy(s: World, t: nat, w: nat) {
    IsLeased(s, t) && s.tasks[t].owner == Some(w)
  }

  /** Only its owner's own statements end a lease. */
  lemma LeaseNeedsOwner(s: World, st: Step, t: nat, w: nat)
    requires Inv(s) && Enabled(s, st) && LeasedBy(s, t, w) && !OfWorker(st, w)
    ensures LeasedBy(Next(s, st), t, w)
  {
    if st.Work? { assert WorkerOk(s, st.w); }
  }

  lemma {:induction false} CrashedRun(s: World, tr: seq<Step>, t: nat, w: nat)
    requires Inv(s) && Runs(s, tr) && LeasedBy(s, t, w)
    requires forall i :: 0 <= i < |tr| ==> !OfWorker(tr[i], w)
    ensures LeasedBy(After(s, tr), t, w)
    decreases |tr|
  {
    if tr != [] {
      CrashedRun(s, tr[..|tr| - 1], t, w);
      RunsPreserve(s, tr[..|tr| - 1]);
      LeaseNeedsOwner(After(s, tr[..|tr| - 1]), tr[|tr| - 1], t, w);
    }
  }

  /** A worker that crashes takes its task with it: in no continuation without a step of its
      own does the row stop being LEASED by it. */
  lemma CrashedWorkerKeepsLease(s: World, tr: seq<Step>, t: nat, w: nat)
    requires Reachable(s) && Runs(s, tr) && LeasedBy(s, t, w)
    requires forall i :: 0 <= i < |tr| ==> !OfWorker(tr[i], w)
    ensures LeasedBy(After(s, tr), t, w)
  {
    ReachableInv(s);
    CrashedRun(s, tr, t, w);
  }
}
