/** When a run is completed, with which verdict, and when it never is. */
module Completion {
  import opened Tables
  import opened Protocol
  import opened Invariant
  import opened Preservation
  import opened History

  /** No completion of run `r` can slip past its size: either nothing of it was leased before
      `InitRunProgress`, or no statement issued for its tasks has failed. */
  predicate Sound(s: World, r: nat)
    requires r < |s.runHist|
  {
    !s.runHist[r].eager || s.runHist[r].clean
  }

  /** `tasks_total` is the number of the run's tasks, and each of them is finished: SUCCEEDED,
      or failed and counted so.  (If its FAILED was lost, its row is still LEASED.) */
  ghost predicate RunFinished(s: World, r: nat)
    requires r < |s.runs| == |s.runHist| && |s.tasks| == |s.hist|
  {
    && s.runs[r].total == RunTaskCount(s.tasks, r)
    && forall t :: 0 <= t < |s.tasks| && s.tasks[t].run == r ==>
         || s.tasks[t].state == Succeeded
         || (0 < s.runs[r].failed && s.hist[t].fails == 1
             && (s.tasks[t].state == Failed || (s.tasks[t].state == Leased && !s.runHist[r].clean)))
  }

  /** Exactly when the completion test tells the truth: a worker that is about to read progress
      with done + failed == total sees a finished run iff the total is not 0; and a total of 0
      passes the test only in a run that was leased too early and has lost a statement. */
  lemma CompletionTestIsExact(s: World, w: nat)
    requires Reachable(s) && Busy(s, w) && s.workers[w].AtProgress?
    requires AllDone(ProgressOf(s.runs[RunOf(s, w)]))
    ensures Shaped(s)
    ensures s.runs[RunOf(s, w)].total != 0 <==> RunFinished(s, RunOf(s, w))
    ensures s.runs[RunOf(s, w)].total == 0 ==> !Sound(s, RunOf(s, w))
  {
    ReachableInv(s);
    var r := RunOf(s, w);
    assert WorkerOk(s, w) && RunOk(s, r) && TaskOk(s, TaskOf(s, w));
    LookOk(s, w);
    CountInRun(s, r);
    if s.runs[r].total != 0 {
      SettledTasks(s, r);
    } else {
      var ids := s.runHist[r].ids;
      assert s.tasks[TaskOf(s, w)].partition < |ids|;
    }
  }

  /** `CompleteRun` is executed with a total other than 0 only for a finished run, and the
      verdict is SUCCEEDED iff all its tasks are SUCCEEDED; with a total of 0 only for a run
      that was leased too early and has lost a statement. */
  lemma CompletionSafety(s: World, w: nat)
    requires Reachable(s) && Busy(s, w) && s.workers[w].AtCompleteRun?
    ensures Shaped(s)
    ensures var r := RunOf(s, w);
            var seen := s.workers[w].seen;
            if seen.total == 0 then !Sound(s, r)
            else
              && Settled(s, r) && RunFinished(s, r) && s.runs[r].total == s.n >= 1
              && (RunVerdict(seen.failed) == RunSucceeded <==>
                    forall t :: 0 <= t < |s.tasks| && s.tasks[t].run == r ==> s.tasks[t].state == Succeeded)
              && (s.runHist[r].clean ==> forall t :: 0 <= t < |s.tasks| && s.tasks[t].run == r ==>
                    s.tasks[t].state == Succeeded || s.tasks[t].state == Failed)
  {
    ReachableInv(s);
    assert WorkerOk(s, w);
    var r := RunOf(s, w);
    assert RunOk(s, r);
    CountInRun(s, r);
    if s.workers[w].seen.total != 0 { SettledTasks(s, r); }
  }

  /** What a settled run looks like, task by task. */
  lemma SettledTasks(s: World, r: nat)
    requires Inv(s) && r < |s.runs| && Settled(s, r)
    ensures 0 <= s.runs[r].failed && 0 <= s.runs[r].done
    ensures forall t :: 0 <= t < |s.tasks| && s.tasks[t].run == r ==>
              || (s.tasks[t].state == Succeeded && s.hist[t].dones == 1)
              || (0 < s.runs[r].failed && s.hist[t].fails == 1
                  && (s.tasks[t].state == Failed || (s.tasks[t].state == Leased && !s.runHist[r].clean)))
    ensures s.runs[r].failed == 0 <==>
              forall t :: 0 <= t < |s.tasks| && s.tasks[t].run == r ==> s.tasks[t].state == Succeeded
  {
    FullyCounted(s, r);
    assert RunOk(s, r);
    forall t | 0 <= t < |s.tasks| && s.tasks[t].run == r
      ensures || (s.tasks[t].state == Succeeded && s.hist[t].dones == 1)
              || (0 < s.runs[r].failed && s.hist[t].fails == 1
                  && (s.tasks[t].state == Failed || (s.tasks[t].state == Leased && !s.runHist[r].clean)))
    {
      assert TaskOk(s, t);
      CountedIsInRun(s, t);
    }
    if forall t :: 0 <= t < |s.tasks| && s.tasks[t].run == r ==> s.tasks[t].state == Succeeded {
      forall i | 0 <= i < |s.tasks| ensures Val(s.tasks[i], s.hist[i], Fails(r)) == 0 { assert TaskOk(s, i); }
      SumZero(s.tasks, s.hist, Fails(r));
    }
  }

  /** A run with a DEAD task is never given to `CompleteRun`: not before, not in any
      continuation. */
  lemma DeadTaskForbidsCompletion(s: World, s': World, t: nat)
    requires Reachable(s) && Later(s, s')
    requires t < |s.tasks| && s.tasks[t].state == Dead
    ensures Shaped(s) && Shaped(s') && t < |s'.tasks| && s'.tasks[t].run == s.tasks[t].run
    ensures RunCompleted(s.tasks[t].run, RunFailed) !in s'.log
    ensures Sound(s', s.tasks[t].run) ==> forall v :: RunCompleted(s.tasks[t].run, v) !in s'.log
  {
    LaterEvolves(s, s');
    var r := s.tasks[t].run;
    assert TaskEvolves(s.tasks[t], s.hist[t], s'.tasks[t], s'.hist[t]);
    if v :| RunCompleted(r, v) in s'.log && (Sound(s', r) || v == RunFailed) {
      assert EventOk(s', RunCompleted(r, v));
      SettledTasks(s', r);
    }
  }
}
