/** What no step undoes: finished tasks stay finished, progress counters only grow,
    and the counters of a fully counted run never move again. */
module History {
  import opened Tables
  import opened Protocol
  import opened Invariant
  import opened Preservation

  predicate Finished(state: TaskState) {
    state == Succeeded || state == Failed || state == Dead
  }

  /** Every task of the run has been counted: the test of `checkAndCompleteRun` holds. */
  predicate Settled(s: World, r: nat)
    requires r < |s.runs| == |s.runHist|
  {
    s.runHist[r].sized && AllDone(ProgressOf(s.runs[r]))
  }

  predicate TaskEvolves(t: TaskRow, h: TaskHistory, t': TaskRow, h': TaskHistory) {
    && t'.run == t.run && t'.partition == t.partition
    && (Finished(t.state) ==> t'.state == t.state)
    && t.retries <= t'.retries && h.tries <= h'.tries
    && h.dones <= h'.dones && h.fails <= h'.fails
  }

  predicate RunEvolves(run: RunRow, rh: RunHistory, run': RunRow, rh': RunHistory) {
    && run'.job == run.job
    && run.done <= run'.done && run.failed <= run'.failed
    && (rh'.clean ==> rh.clean) && (rh.eager ==> rh'.eager)
    && (rh.sized ==> rh'.sized) && (rh.ready ==> rh'.ready)
    && rh.ids <= rh'.ids
    && (rh.sized && AllDone(ProgressOf(run)) ==>
          && ProgressOf(run') == ProgressOf(run)
          && run'.running == run.running
          && (rh.ready ==> run'.pending == run.pending))
  }

  ghost predicate Evolves(s: World, s': World) {
    && s'.n == s.n
    && Shaped(s) && Shaped(s')
    && |s.jobs| <= |s'.jobs| && |s.tasks| <= |s'.tasks| && |s.runs| <= |s'.runs| && |s.workers| <= |s'.workers|
    && s.log <= s'.log && s.artifacts <= s'.artifacts
    && (forall j :: 0 <= j < |s.jobs| ==> s'.jobs[j].maxRetries == s.jobs[j].maxRetries)
    && (forall t :: 0 <= t < |s.tasks| ==> TaskEvolves(s.tasks[t], s.hist[t], s'.tasks[t], s'.hist[t]))
    && (forall r :: 0 <= r < |s.runs| ==> RunEvolves(s.runs[r], s.runHist[r], s'.runs[r], s'.runHist[r]))
  }

  lemma ActTaskEvolves(n: nat, w: nat, id: nat, l: Local, a: Action, count: nat, next: nat)
    requires ActReady(n, w, id, l, a, count)
    ensures TaskEvolves(l.task, l.h, Act(l, a, count, next).task, Act(l, a, count, next).h)
  {
  }

  /** Nothing is started or counted for a task that was counted. */
  lemma ActAfterCount(n: nat, w: nat, id: nat, l: Local, a: Action, count: nat, next: nat)
    requires ActReady(n, w, id, l, a, count) && !Uncounted(l.h)
    ensures Act(l, a, count, next).h.starts == l.h.starts
  {
  }

  lemma ActRunEvolves(n: nat, w: nat, id: nat, l: Local, a: Action, count: nat, next: nat)
    requires ActReady(n, w, id, l, a, count)
    ensures RunEvolves(l.run, l.rh, Act(l, a, count, next).run, Act(l, a, count, next).rh)
  {
    ActPreserves(n, w, id, l, a, count, next);
    ActTaskEvolves(n, w, id, l, a, count, next);
    var l' := Act(l, a, count, next);
    if !Uncounted(l.h) { ActAfterCount(n, w, id, l, a, count, next); }
    FrameEvolves(l, l');
  }

  lemma FrameEvolves(l: Local, l': Local)
    requires ActFrame(l, l') && TaskEvolves(l.task, l.h, l'.task, l'.h)
    requires l.rh.sized && AllDone(ProgressOf(l.run)) ==> l'.h.starts == l.h.starts
    ensures RunEvolves(l.run, l.rh, l'.run, l'.rh)
  {
  }

  lemma PutEvolves(s: World, w: nat, l: Local)
    requires Shaped(s) && Busy(s, w) && Shaped(Put(s, w, l)) && l.job.maxRetries == Look(s, w).job.maxRetries
    requires TaskEvolves(Look(s, w).task, Look(s, w).h, l.task, l.h)
    requires RunEvolves(Look(s, w).run, Look(s, w).rh, l.run, l.rh)
    ensures Evolves(s, Put(s, w, l))
  {
  }

  lemma WorkEvolves(s: World, w: nat, a: Action)
    requires Inv(s) && Enabled(s, Work(w, a))
    ensures Evolves(s, Next(s, Work(w, a)))
  {
    LookOk(s, w);
    WorkPreserves(s, w, a);
    var count := RunTaskCount(s.tasks, RunOf(s, w));
    ActPreserves(s.n, w, TaskOf(s, w), Look(s, w), a, count, |s.artifacts|);
    ActTaskEvolves(s.n, w, TaskOf(s, w), Look(s, w), a, count, |s.artifacts|);
    ActRunEvolves(s.n, w, TaskOf(s, w), Look(s, w), a, count, |s.artifacts|);
    PutEvolves(s, w, Act(Look(s, w), a, count, |s.artifacts|));
  }

  lemma StepEvolves(s: World, st: Step)
    requires Inv(s) && Enabled(s, st)
    ensures Evolves(s, Next(s, st))
  {
    StepPreserves(s, st);
    if st.Work? {
      WorkEvolves(s, st.w, st.a);
    } else if st.UpdateRunTasksTotal? || st.InitRunProgress? {
      assert RunOk(s, st.r);
      FullyCounted(s, st.r);
    }
  }

  /** The statements by which the scheduler builds run `r`. */
  predicate Schedules(st: Step, r: nat) {
    st == CreateTask(r) || st == UpdateRunTasksTotal(r) || st == InitRunProgress(r)
  }

  /** How far the scheduling of a run has come. */
  function Stage(rh: RunHistory): (seq<nat>, bool, bool) {
    (rh.ids, rh.sized, rh.ready)
  }

  lemma StepKeepsStage(s: World, st: Step, r: nat)
    requires Inv(s) && Enabled(s, st) && !Schedules(st, r) && r < |s.runHist|
    ensures r < |Next(s, st).runHist| && Stage(Next(s, st).runHist[r]) == Stage(s.runHist[r])
  {
    if st.Work? {
      LookOk(s, st.w);
      var count := RunTaskCount(s.tasks, RunOf(s, st.w));
      ActPreserves(s.n, st.w, TaskOf(s, st.w), Look(s, st.w), st.a, count, |s.artifacts|);
    }
  }

  lemma EvolvesTransitive(a: World, b: World, c: World)
    requires Evolves(a, b) && Evolves(b, c)
    ensures Evolves(a, c)
  {
    forall t | 0 <= t < |a.tasks| ensures TaskEvolves(a.tasks[t], a.hist[t], c.tasks[t], c.hist[t]) {
      assert TaskEvolves(a.tasks[t], a.hist[t], b.tasks[t], b.hist[t]);
    }
    forall r | 0 <= r < |a.runs| ensures RunEvolves(a.runs[r], a.runHist[r], c.runs[r], c.runHist[r]) {
      assert RunEvolves(a.runs[r], a.runHist[r], b.runs[r], b.runHist[r]);
      assert RunEvolves(b.runs[r], b.runHist[r], c.runs[r], c.runHist[r]);
    }
  }

  lemma {:induction false} RunsEvolve(s: World, tr: seq<Step>)
    requires Inv(s) && Runs(s, tr)
    ensures Inv(After(s, tr)) && Evolves(s, After(s, tr))
    decreases |tr|
  {
    if tr != [] {
      var front := tr[..|tr| - 1];
      RunsEvolve(s, front);
      StepEvolves(After(s, front), tr[|tr| - 1]);
      StepPreserves(After(s, front), tr[|tr| - 1]);
      EvolvesTransitive(s, After(s, front), After(s, tr));
    }
  }

  lemma LaterEvolves(s: World, s': World)
    requires Reachable(s) && Later(s, s')
    ensures Inv(s) && Inv(s') && Evolves(s, s')
  {
    ReachableInv(s);
    var tr := RunBetween(s, s');
    RunsEvolve(s, tr);
  }

  /** SUCCEEDED, FAILED and DEAD are absorbing, although no UPDATE tests the state. */
  lemma FinishedIsAbsorbing(s: World, s': World, t: nat)
    requires Reachable(s) && Later(s, s')
    requires t < |s.tasks| && Finished(s.tasks[t].state)
    ensures t < |s'.tasks| && s'.tasks[t].state == s.tasks[t].state
  {
    LaterEvolves(s, s');
    assert TaskEvolves(s.tasks[t], s.hist[t], s'.tasks[t], s'.hist[t]);
  }

  /** The finished counters only grow, never pass `tasks_total` once it is set, and the
      run's tasks never outnumber the partitions: the `==` test cannot be jumped over. */
  lemma ProgressIsMonotone(s: World, s': World, r: nat)
    requires Reachable(s) && Later(s, s') && r < |s.runs|
    ensures r < |s'.runs|
    ensures 0 <= s.runs[r].done <= s'.runs[r].done && 0 <= s.runs[r].failed <= s'.runs[r].failed
    ensures s'.runs[r].done + s'.runs[r].failed <= RunTaskCount(s'.tasks, r) <= s'.n
    ensures s'.runs[r].total in {0, s'.n}
    ensures s'.runs[r].total != 0 ==> s'.runs[r].done + s'.runs[r].failed <= s'.runs[r].total
  {
    LaterEvolves(s, s');
    assert RunEvolves(s.runs[r], s.runHist[r], s'.runs[r], s'.runHist[r]) && RunOk(s', r);
    FullyCounted(s, r);
    FullyCounted(s', r);
    CountInRun(s', r);
  }

  /** Once the completion test holds of a sized run, its progress counters are frozen in
      every continuation; only `InitRunProgress` may still set `tasks_pending`. */
  lemma SettledIsFrozen(s: World, s': World, r: nat)
    requires Reachable(s) && Later(s, s') && r < |s.runs|
    requires |s.runs| == |s.runHist| && Settled(s, r)
    ensures r < |s'.runs| == |s'.runHist| && Settled(s', r)
    ensures s'.runs[r].done == s.runs[r].done && s'.runs[r].failed == s.runs[r].failed
    ensures s'.runs[r].total == s.runs[r].total && s'.runs[r].running == s.runs[r].running
    ensures s.runHist[r].ready ==> s'.runs[r].pending == s.runs[r].pending
  {
    LaterEvolves(s, s');
    assert RunEvolves(s.runs[r], s.runHist[r], s'.runs[r], s'.runHist[r]);
  }
}
