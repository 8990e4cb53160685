/** Who holds a task, what the retry budget allows, and what the progress counters of a
    run are, exactly, in every reachable state. */
module Accounting {
  import opened Tables
  import opened Protocol
  import opened Invariant
  import opened Preservation

  /** The tasks of run `r` that some worker has marked SUCCEEDED and not counted yet. */
  ghost function MarkedSucceeded(s: World, r: nat): set<nat> {
    set t | 0 <= t < |s.tasks| && s.tasks[t].run == r && AtCount(t) in s.workers
  }

  /** The tasks of run `r` that some worker has marked FAILED and not counted yet. */
  ghost function MarkedFailed(s: World, r: nat): set<nat> {
    set t | 0 <= t < |s.tasks| && s.tasks[t].run == r && AtCountFail(t) in s.workers
  }

  /** The sum of `retry_count` over the tasks of run `r`. */
  function RetriesOf(tasks: seq<TaskRow>, r: nat): int {
    if tasks == [] then 0
    else RetriesOf(tasks[..|tasks| - 1], r) + (if tasks[|tasks| - 1].run == r then tasks[|tasks| - 1].retries else 0)
  }

  /** A worker between its lease and the statement that ends its hold on the row. */
  predicate BeforeMark(p: Phase) {
    && !p.Idle? && !p.AtCountFail? && !p.AtCount? && !p.AtProgress?
    && !p.AtCompleteRun? && !p.AtCompleteJob? && !p.AtPublish?
  }

  /** Mutual exclusion without clocks: a busy worker owns its row, which is LEASED until it
      writes a final state, and no two workers hold the same row, whatever leases expire. */
  lemma OneHolderPerTask(s: World)
    requires Reachable(s)
    ensures forall w :: 0 <= w < |s.workers| && !s.workers[w].Idle? ==>
              && s.workers[w].t < |s.tasks|
              && s.tasks[s.workers[w].t].owner == Some(w)
              && (BeforeMark(s.workers[w]) ==> s.tasks[s.workers[w].t].state == Leased)
    ensures forall w, w' :: 0 <= w < w' < |s.workers| && !s.workers[w].Idle? && !s.workers[w'].Idle? ==>
              s.workers[w].t != s.workers[w'].t
  {
    ReachableInv(s);
    forall w | 0 <= w < |s.workers| && !s.workers[w].Idle?
      ensures s.workers[w].t < |s.tasks| && s.tasks[s.workers[w].t].owner == Some(w)
      ensures BeforeMark(s.workers[w]) ==> s.tasks[s.workers[w].t].state == Leased
    {
      assert WorkerOk(s, w);
    }
  }

  /** Retries and calls of `process` are bounded by the job's `max_retries`. */
  lemma RetriesAreBounded(s: World, t: nat)
    requires Reachable(s) && t < |s.tasks|
    ensures Shaped(s)
    ensures s.tasks[t].retries <= Max0(s.jobs[s.runs[s.tasks[t].run].job].maxRetries)
    ensures s.hist[t].tries <= Max0(s.jobs[s.runs[s.tasks[t].run].job].maxRetries) + 1
    ensures s.tasks[t].retries <= s.hist[t].tries <= s.tasks[t].retries + 1
  {
    ReachableInv(s);
    assert TaskOk(s, t);
  }

  /** A run registers at most one artifact per partition. */
  lemma OneArtifactPerPartition(s: World, k: nat, k': nat)
    requires Reachable(s) && k < |s.artifacts| && k' < |s.artifacts|
    requires s.artifacts[k].run == s.artifacts[k'].run && s.artifacts[k].partition == s.artifacts[k'].partition
    ensures k == k'
  {
    ReachableInv(s);
    assert ArtifactOk(s, k) && ArtifactOk(s, k');
  }

  // -- the counters ---------------------------------------------------------------

  /** What the base regime and the invariant say of each row of a run, table by table. */
  ghost predicate Orderly(ts: seq<TaskRow>, hs: seq<TaskHistory>, r: nat) {
    && |ts| == |hs|
    && forall t {:trigger hs[t]} {:trigger ts[t]} :: 0 <= t < |ts| ==>
         && TaskLocal(ts[t], hs[t])
         && (ts[t].run == r ==> hs[t].starts == hs[t].tries && (ts[t].state == Leased ==> hs[t].fails == 0))
  }

  lemma CleanIsOrderly(s: World, r: nat)
    requires Inv(s) && r < |s.runs| && s.runHist[r].clean
    ensures Orderly(s.tasks, s.hist, r)
  {
    forall t | 0 <= t < |s.tasks|
      ensures TaskLocal(s.tasks[t], s.hist[t])
      ensures s.tasks[t].run == r ==>
                s.hist[t].starts == s.hist[t].tries && (s.tasks[t].state == Leased ==> s.hist[t].fails == 0)
    {
      assert TaskOk(s, t);
    }
  }

  /** The rows of run `r` in state `state`. */
  function Rows(ts: seq<TaskRow>, r: nat, state: TaskState): set<nat> {
    set t | 0 <= t < |ts| && ts[t].run == r && ts[t].state == state
  }

  /** Those whose current lease has issued TaskStarted. */
  function BegunRows(ts: seq<TaskRow>, hs: seq<TaskHistory>, r: nat, state: TaskState): set<nat>
    requires |ts| == |hs|
  {
    set t | 0 <= t < |ts| && ts[t].run == r && ts[t].state == state && hs[t].begun
  }

  /** Those that no counter statement has counted. */
  function UncountedRows(ts: seq<TaskRow>, hs: seq<TaskHistory>, r: nat, state: TaskState): set<nat>
    requires |ts| == |hs|
  {
    set t | 0 <= t < |ts| && ts[t].run == r && ts[t].state == state && Uncounted(hs[t])
  }

  lemma DonesAreSucceeded(ts: seq<TaskRow>, hs: seq<TaskHistory>, r: nat)
    requires Orderly(ts, hs, r)
    ensures Sum(ts, hs, Dones(r)) == |Rows(ts, r, Succeeded)| - |UncountedRows(ts, hs, r, Succeeded)|
  {
    var all, rest := Rows(ts, r, Succeeded), UncountedRows(ts, hs, r, Succeeded);
    SumIsCardinality(ts, hs, Dones(r), all - rest);
    assert all == (all - rest) + rest;
  }

  lemma FailsAreFailed(ts: seq<TaskRow>, hs: seq<TaskHistory>, r: nat)
    requires Orderly(ts, hs, r)
    ensures Sum(ts, hs, Fails(r)) == |Rows(ts, r, Failed)| - |UncountedRows(ts, hs, r, Failed)|
  {
    var all, rest := Rows(ts, r, Failed), UncountedRows(ts, hs, r, Failed);
    SumIsCardinality(ts, hs, Fails(r), all - rest);
    assert all == (all - rest) + rest;
  }

  lemma StartsAreLeases(ts: seq<TaskRow>, hs: seq<TaskHistory>, r: nat)
    requires Orderly(ts, hs, r)
    ensures Sum(ts, hs, Starts(r)) == Sum(ts, hs, Retries(r))
              + |BegunRows(ts, hs, r, Leased)| + |BegunRows(ts, hs, r, Dead)|
              + |Rows(ts, r, Succeeded)| + |Rows(ts, r, Failed)|
  {
    SumAdds(ts, hs, Starts(r), Retries(r), Begun(r));
    var leased, dead := BegunRows(ts, hs, r, Leased), BegunRows(ts, hs, r, Dead);
    var done, failed := Rows(ts, r, Succeeded), Rows(ts, r, Failed);
    SumIsCardinality(ts, hs, Begun(r), leased + dead + (done + failed));
    assert leased !! dead && done !! failed && leased + dead !! done + failed;
  }

  lemma {:induction false} RetriesOfIsSum(ts: seq<TaskRow>, hs: seq<TaskHistory>, r: nat)
    requires |ts| == |hs| && forall i :: 0 <= i < |ts| ==> hs[i].run == ts[i].run
    ensures RetriesOf(ts, r) == Sum(ts, hs, Retries(r))
  {
    if ts != [] {
      RetriesOfIsSum(ts[..|ts| - 1], hs[..|hs| - 1], r);
    }
  }

  /** In the base regime the marked and uncounted tasks are those a worker is about to count. */
  lemma MarkedAreUncounted(s: World, r: nat)
    requires Inv(s) && r < |s.runs| && s.runHist[r].clean
    ensures MarkedSucceeded(s, r) == UncountedRows(s.tasks, s.hist, r, Succeeded)
    ensures MarkedFailed(s, r) == UncountedRows(s.tasks, s.hist, r, Failed)
  {
    forall t | 0 <= t < |s.tasks| && s.tasks[t].run == r
      ensures AtCount(t) in s.workers <==> s.tasks[t].state == Succeeded && Uncounted(s.hist[t])
      ensures AtCountFail(t) in s.workers <==> s.tasks[t].state == Failed && Uncounted(s.hist[t])
    {
      assert TaskOk(s, t);
      if AtCount(t) in s.workers {
        var w :| 0 <= w < |s.workers| && s.workers[w] == AtCount(t);
        assert WorkerOk(s, w);
      }
      if AtCountFail(t) in s.workers {
        var w :| 0 <= w < |s.workers| && s.workers[w] == AtCountFail(t);
        assert WorkerOk(s, w);
      }
    }
  }

  /** `tasks_done` and `tasks_failed` count the SUCCEEDED and FAILED tasks, except those
      marked and not yet counted: across retries, crashes and any interleaving. */
  lemma FinishedCounters(s: World, r: nat)
    requires Reachable(s) && r < |s.runs|
    requires |s.runHist| == |s.runs| && s.runHist[r].clean
    ensures s.runs[r].done == |Rows(s.tasks, r, Succeeded)| - |MarkedSucceeded(s, r)|
    ensures s.runs[r].failed == |Rows(s.tasks, r, Failed)| - |MarkedFailed(s, r)|
  {
    ReachableInv(s);
    MarkedAreUncounted(s, r);
    CleanIsOrderly(s, r);
    DonesAreSucceeded(s.tasks, s.hist, r);
    FailsAreFailed(s.tasks, s.hist, r);
    assert RunOk(s, r);
  }

  /** `tasks_running` is the number of leases at work, plus one for every retry (RetryTask
      leaves the counter alone), plus the tasks buried after their start, plus the ones
      marked and not yet counted. */
  lemma RunningCounter(s: World, r: nat)
    requires Reachable(s) && r < |s.runs|
    requires |s.runHist| == |s.runs| && |s.hist| == |s.tasks| && s.runHist[r].clean
    ensures s.runs[r].running ==
              |BegunRows(s.tasks, s.hist, r, Leased)| + RetriesOf(s.tasks, r) + |BegunRows(s.tasks, s.hist, r, Dead)|
              + |MarkedSucceeded(s, r)| + |MarkedFailed(s, r)|
  {
    FinishedCounters(s, r);
    ReachableInv(s);
    CleanIsOrderly(s, r);
    StartsAreLeases(s.tasks, s.hist, r);
    RetriesOfIsSum(s.tasks, s.hist, r);
    assert RunOk(s, r);
  }

  /** Conservation: the four counters add up to `tasks_total` plus the TaskStarted statements
      that preceded `InitRunProgress`, and to 0 before it. */
  lemma CountersAreConserved(s: World, r: nat)
    requires Reachable(s) && r < |s.runs|
    ensures |s.runHist| == |s.runs|
    ensures var run := s.runs[r];
            run.pending + run.running + run.done + run.failed ==
            if s.runHist[r].ready then run.total + s.runHist[r].earlyStarts else 0
    ensures s.runHist[r].ready && !s.runHist[r].eager ==> s.runHist[r].earlyStarts == 0
  {
    ReachableInv(s);
    assert RunOk(s, r);
  }

  lemma {:induction false} BudgetSum(ts: seq<TaskRow>, hs: seq<TaskHistory>, r: nat, c: nat)
    requires |ts| == |hs|
    requires forall i :: 0 <= i < |ts| ==> hs[i].starts <= hs[i].budget + 1
    requires forall i :: 0 <= i < |ts| && hs[i].run == r ==> hs[i].budget + 1 == c
    ensures 0 <= Sum(ts, hs, Starts(r)) <= Sum(ts, hs, Ones(r)) * c
  {
    if ts != [] {
      BudgetSum(ts[..|ts| - 1], hs[..|hs| - 1], r, c);
    }
  }

  /** The tasks of run `r` that no worker has started since they were last PENDING. */
  function Unbegun(ts: seq<TaskRow>, hs: seq<TaskHistory>, r: nat): set<nat>
    requires |ts| == |hs|
  {
    set t | 0 <= t < |ts| && ts[t].run == r && !hs[t].begun
  }

  lemma UnbegunAreRest(ts: seq<TaskRow>, hs: seq<TaskHistory>, r: nat)
    requires |ts| == |hs| && forall i :: 0 <= i < |ts| ==> hs[i].run == ts[i].run
    ensures |Unbegun(ts, hs, r)| == Sum(ts, hs, Ones(r)) - Sum(ts, hs, Begun(r))
  {
    var all := set t | 0 <= t < |ts| && ts[t].run == r;
    var begun := all - Unbegun(ts, hs, r);
    SumIsCardinality(ts, hs, Ones(r), all);
    SumIsCardinality(ts, hs, Begun(r), begun);
    assert all == begun + Unbegun(ts, hs, r);
  }

  /** Exactly what `tasks_pending` is, and exactly when it is negative: when the retries and the
      tasks there are exceed those left to start and, once the counter is initialised, the
      partitions and the tasks started before. */
  lemma PendingIsExact(s: World, r: nat)
    requires Reachable(s) && r < |s.runs| && |s.runHist| == |s.runs| && |s.hist| == |s.tasks|
    requires s.runHist[r].clean
    ensures var rh := s.runHist[r];
            var granted := if rh.ready then s.n + rh.earlyStarts else 0;
            var unbegun := |Unbegun(s.tasks, s.hist, r)|;
            && s.runs[r].pending == granted + unbegun - |rh.ids| - RetriesOf(s.tasks, r)
            && (s.runs[r].pending >= 0 <==> RetriesOf(s.tasks, r) + |rh.ids| <= granted + unbegun)
            && (rh.ready ==> |rh.ids| == s.n)
  {
    ReachableInv(s);
    CleanIsOrderly(s, r);
    SumAdds(s.tasks, s.hist, Starts(r), Retries(r), Begun(r));
    RetriesOfIsSum(s.tasks, s.hist, r);
    UnbegunAreRest(s.tasks, s.hist, r);
    assert RunOk(s, r);
  }

  /** `tasks_pending` of a run that was scheduled first is bounded below by the retries. */
  lemma PendingIsBounded(s: World, r: nat)
    requires Reachable(s) && r < |s.runs| && |s.runHist| == |s.runs|
    requires s.runHist[r].ready && !s.runHist[r].eager
    ensures s.runs[r].job < |s.jobs|
    ensures 0 <= s.runs[r].pending + s.n * Max0(s.jobs[s.runs[r].job].maxRetries)
    ensures s.runs[r].pending <= s.n
  {
    ReachableInv(s);
    assert RunOk(s, r);
    var m := Max0(s.jobs[s.runs[r].job].maxRetries);
    forall i | 0 <= i < |s.tasks|
      ensures s.hist[i].starts <= s.hist[i].budget + 1
      ensures s.hist[i].run == r ==> s.hist[i].budget + 1 == m + 1
    {
      assert TaskOk(s, i);
    }
    BudgetSum(s.tasks, s.hist, r, m + 1);
    assert s.n * (m + 1) == s.n * m + s.n;
  }
}
