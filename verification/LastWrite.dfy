/** What the state columns of jobs and runs show: the last statement that wrote them. */
module LastWrite {
  import opened Faults
  import opened Tables
  import opened Protocol
  import opened Invariant
  import opened Preservation
  import opened History
  import opened Notice
  import opened Completion
  import opened Agreement
  import opened Database

  /** A CompleteJob that takes effect, for a run of job `j`. */
  predicate CompletesJob(s: World, st: Step, j: nat) {
    && st.Work? && st.a.CompleteJob? && !st.a.o.Lost?
    && Busy(s, st.w) && s.runs[RunOf(s, st.w)].job == j
  }

  /** The statements that write the state of job `j`. */
  predicate WritesJob(s: World, st: Step, j: nat) {
    st == QueueJob(j) || st == CancelJob(j) || CompletesJob(s, st, j)
  }

  /** A CompleteRun of run `r` that takes effect. */
  predicate CompletesRun(s: World, st: Step, r: nat) {
    st.Work? && st.a.CompleteRun? && !st.a.o.Lost? && Busy(s, st.w) && RunOf(s, st.w) == r
  }

  predicate WritesRun(s: World, st: Step, r: nat) {
    st == CancelRun(r) || CompletesRun(s, st, r)
  }

  /** No other statement changes the state of a job. */
  lemma JobKept(s: World, st: Step, j: nat)
    requires Enabled(s, st) && j < |s.jobs| && !WritesJob(s, st, j)
    ensures j < |Next(s, st).jobs| && Next(s, st).jobs[j] == s.jobs[j]
  {
  }

  lemma RunKept(s: World, st: Step, r: nat)
    requires Enabled(s, st) && r < |s.runs| && !WritesRun(s, st, r)
    ensures r < |Next(s, st).runs| && Next(s, st).runs[r].state == s.runs[r].state
  {
  }

  /** Since step `i` nobody has written the state of job `j`. */
  ghost predicate JobUnwritten(tr: seq<Step>, ws: seq<World>, i: nat, j: nat)
    requires |ws| == |tr| + 1
  {
    forall k :: i <= k < |tr| ==> !WritesJob(ws[k], tr[k], j)
  }

  lemma {:induction false} JobStays(n: nat, tr: seq<Step>, ws: seq<World>, i: nat, k: nat, j: nat)
    requires n >= 1 && Chain(Init(n), tr, ws) && i <= k <= |tr| && j < |ws[i].jobs| && JobUnwritten(tr, ws, i, j)
    ensures j < |ws[k].jobs| && ws[k].jobs[j] == ws[i].jobs[j]
    decreases k
  {
    if i < k {
      JobStays(n, tr, ws, i, k - 1, j);
      assert Enabled(ws[k - 1], tr[k - 1]);
      JobKept(ws[k - 1], tr[k - 1], j);
    }
  }

  /** The state of a job is the one that the last statement on it wrote; SUCCEEDED or FAILED, as
      the verdict of the worker was, if that is a completion. */
  lemma JobShowsLastWrite(n: nat, tr: seq<Step>, ws: seq<World>, i: nat, j: nat)
    requires n >= 1 && Chain(Init(n), tr, ws) && i < |tr|
    requires WritesJob(ws[i], tr[i], j) && JobUnwritten(tr, ws, i + 1, j)
    ensures j < |ws[|tr|].jobs|
    ensures var state := ws[|tr|].jobs[j].state;
            && (tr[i].QueueJob? ==> state == JobQueued)
            && (tr[i].CancelJob? ==> state == JobCancelled)
            && (tr[i].Work? ==> ws[i].workers[tr[i].w].AtCompleteJob?
                                && Matches(state, ws[i].workers[tr[i].w].verdict))
  {
    ChainReaches(n, tr, ws, i);
    assert Enabled(ws[i], tr[i]);
    if tr[i].Work? { assert WorkerOk(ws[i], tr[i].w); }
    JobStays(n, tr, ws, i + 1, |tr|, j);
  }

  /** A job that nobody has written to since its submission is SUBMITTED, with the retry limit of
      that submission. */
  lemma JobShowsSubmission(n: nat, tr: seq<Step>, ws: seq<World>, i: nat)
    requires n >= 1 && Chain(Init(n), tr, ws) && i < |tr| && tr[i].SubmitJob?
    ensures var j := |ws[i].jobs|;
            && j < |ws[|tr|].jobs| && ws[|tr|].jobs[j].maxRetries == tr[i].maxRetries
            && (JobUnwritten(tr, ws, i + 1, j) ==> ws[|tr|].jobs[j].state == JobSubmitted)
  {
    var j := |ws[i].jobs|;
    assert Enabled(ws[i], tr[i]);
    ChainEvolves(n, tr, ws, i + 1, |tr|);
    if JobUnwritten(tr, ws, i + 1, j) { JobStays(n, tr, ws, i + 1, |tr|, j); }
  }

  ghost predicate RunUnwritten(tr: seq<Step>, ws: seq<World>, i: nat, r: nat)
    requires |ws| == |tr| + 1
  {
    forall k :: i <= k < |tr| ==> !WritesRun(ws[k], tr[k], r)
  }

  lemma {:induction false} RunStays(n: nat, tr: seq<Step>, ws: seq<World>, i: nat, k: nat, r: nat)
    requires n >= 1 && Chain(Init(n), tr, ws) && i <= k <= |tr| && r < |ws[i].runs| && RunUnwritten(tr, ws, i, r)
    ensures r < |ws[k].runs| && ws[k].runs[r].state == ws[i].runs[r].state
    decreases k
  {
    if i < k {
      RunStays(n, tr, ws, i, k - 1, r);
      assert Enabled(ws[k - 1], tr[k - 1]);
      RunKept(ws[k - 1], tr[k - 1], r);
    }
  }

  /** Likewise for a run: CANCELLED, or what the progress that the worker has read calls for. */
  lemma RunShowsLastWrite(n: nat, tr: seq<Step>, ws: seq<World>, i: nat, r: nat)
    requires n >= 1 && Chain(Init(n), tr, ws) && i < |tr|
    requires WritesRun(ws[i], tr[i], r) && RunUnwritten(tr, ws, i + 1, r)
    ensures r < |ws[|tr|].runs|
    ensures var state := ws[|tr|].runs[r].state;
            && (tr[i].CancelRun? ==> state == RunCancelled)
            && (tr[i].Work? ==> ws[i].workers[tr[i].w].AtCompleteRun?
                                && state == if ws[i].workers[tr[i].w].seen.failed > 0 then RunFailed else RunSucceeded)
  {
    assert Enabled(ws[i], tr[i]);
    RunStays(n, tr, ws, i + 1, |tr|, r);
  }

  /** A new run is SUBMITTED until then, belongs to its job, and has no task counted. */
  lemma RunShowsCreation(n: nat, tr: seq<Step>, ws: seq<World>, i: nat)
    requires n >= 1 && Chain(Init(n), tr, ws) && i < |tr| && tr[i].CreateRun?
    ensures var r := |ws[i].runs|;
            && r < |ws[i + 1].runs| && r < |ws[|tr|].runs| && ws[|tr|].runs[r].job == tr[i].j
            && ProgressOf(ws[i + 1].runs[r]) == Progress(0, 0, 0)
            && (RunUnwritten(tr, ws, i + 1, r) ==> ws[|tr|].runs[r].state == RunSubmitted)
  {
    var r := |ws[i].runs|;
    assert Enabled(ws[i], tr[i]);
    ChainEvolves(n, tr, ws, i + 1, |tr|);
    assert RunEvolves(ws[i + 1].runs[r], ws[i + 1].runHist[r], ws[|tr|].runs[r], ws[|tr|].runHist[r]);
    if RunUnwritten(tr, ws, i + 1, r) { RunStays(n, tr, ws, i + 1, |tr|, r); }
  }

  // -- what a completed job says about its tasks --------------------------------------------

  ghost predicate AllSucceeded(s: World, r: nat) {
    forall t :: 0 <= t < |s.tasks| && s.tasks[t].run == r ==> s.tasks[t].state == Succeeded
  }

  /** After a completion of run `r` the job says SUCCEEDED if all tasks of the run are SUCCEEDED, and
      FAILED otherwise, until the next statement on it. */
  lemma CompletedJobTellsTasks(n: nat, tr: seq<Step>, ws: seq<World>, i: nat, j: nat)
    requires n >= 1 && Chain(Init(n), tr, ws) && i < |tr|
    requires CompletesJob(ws[i], tr[i], j) && JobUnwritten(tr, ws, i + 1, j)
    requires RunOf(ws[i], tr[i].w) < |ws[|tr|].runHist| && Sound(ws[|tr|], RunOf(ws[i], tr[i].w))
    ensures j < |ws[|tr|].jobs|
    ensures ws[|tr|].jobs[j].state ==
            if AllSucceeded(ws[|tr|], RunOf(ws[i], tr[i].w)) then JobSucceeded else JobFailed
  {
    var s, w := ws[|tr|], tr[i].w;
    JobShowsLastWrite(n, tr, ws, i, j);
    var r, v := RunOf(ws[i], w), ws[i].workers[w].verdict;
    assert Enabled(ws[i], tr[i]);
    assert ws[i + 1].log[|ws[i].log|] == JobCompleted(r, v);
    ChainEvolves(n, tr, ws, i + 1, |tr|);
    ChainReaches(n, tr, ws, |tr|);
    assert s.log[|ws[i].log|] == JobCompleted(r, v);
    assert EventOk(s, JobCompleted(r, v));
    SettledTasks(s, r);
  }

  /** Every completion of a job in the log was written by some worker. */
  lemma {:induction false} LoggedByWorker(n: nat, tr: seq<Step>, ws: seq<World>, k: nat, r: nat, v: RunState)
      returns (i: nat)
    requires n >= 1 && Chain(Init(n), tr, ws) && k <= |tr| && JobCompleted(r, v) in ws[k].log
    ensures i < k && tr[i].Work? && tr[i].a.CompleteJob? && !tr[i].a.o.Lost?
    ensures Busy(ws[i], tr[i].w) && RunOf(ws[i], tr[i].w) == r
  {
    if JobCompleted(r, v) in ws[k - 1].log {
      i := LoggedByWorker(n, tr, ws, k - 1, r, v);
    } else {
      i := k - 1;
      assert Enabled(ws[i], tr[i]);
    }
  }

  /** The last statement on the job from step `i` on, if step `i` is one. */
  lemma {:induction false} LastOne(tr: seq<Step>, ws: seq<World>, i: nat, k: nat, j: nat) returns (l: nat)
    requires |ws| == |tr| + 1 && i < k <= |tr| && WritesJob(ws[i], tr[i], j)
    requires JobUnwritten(tr, ws, k, j)
    ensures i <= l < |tr| && WritesJob(ws[l], tr[l], j) && JobUnwritten(tr, ws, l + 1, j)
    decreases k
  {
    if WritesJob(ws[k - 1], tr[k - 1], j) { l := k - 1; } else { l := LastOne(tr, ws, i, k - 1, j); }
  }

  /** Run `r` is the only one of job `j`, which was never cancelled and was not marked QUEUED since
      the run exists. */
  ghost predicate Undisturbed(tr: seq<Step>, ws: seq<World>, j: nat, r: nat)
    requires |ws| == |tr| + 1
  {
    && OnlyRun(ws[|tr|], j, r)
    && forall k :: 0 <= k < |tr| ==> tr[k] != CancelJob(j) && (tr[k] == QueueJob(j) ==> r >= |ws[k].runs|)
  }

  /** No lost completion, for the job: when all workers are idle and every task of its run is
      SUCCEEDED, the job is SUCCEEDED. */
  lemma NoLostJob(n: nat, tr: seq<Step>, ws: seq<World>, j: nat, r: nat)
    requires n >= 1 && Chain(Init(n), tr, ws) && Undisturbed(tr, ws, j, r)
    requires var s := ws[|tr|];
             && Quiet(s) && r < |s.runHist|
             && s.runHist[r].clean && s.runHist[r].sized && !s.runHist[r].eager && RunCancelledBy(r) !in s.log
             && AllSucceeded(s, r)
    ensures j < |ws[|tr|].jobs| && ws[|tr|].jobs[j].state == JobSucceeded
  {
    var s := ws[|tr|];
    ChainReaches(n, tr, ws, |tr|);
    NoLostCompletion(s, r);
    ReachableLogInv(s);
    var v, d :| Announced(r, v, d) in s.log;
    assert EventLogged(s, Announced(r, v, d));
    var i := LoggedByWorker(n, tr, ws, |tr|, r, v);
    KeepsJob(n, tr, ws, i, r);
    var l := LastOne(tr, ws, i, |tr|, j);
    ChainEvolves(n, tr, ws, i, l);
    KeepsJob(n, tr, ws, l, RunOf(ws[l], tr[l].w));
    CompletedJobTellsTasks(n, tr, ws, l, j);
  }

  lemma KeepsJob(n: nat, tr: seq<Step>, ws: seq<World>, i: nat, r: nat)
    requires n >= 1 && Chain(Init(n), tr, ws) && i <= |tr| && r < |ws[i].runs|
    ensures r < |ws[|tr|].runs| && ws[|tr|].runs[r].job == ws[i].runs[r].job
  {
    ChainEvolves(n, tr, ws, i, |tr|);
    assert RunEvolves(ws[i].runs[r], ws[i].runHist[r], ws[|tr|].runs[r], ws[|tr|].runHist[r]);
  }

  // -- leases --------------------------------------------------------------------------------

  /** The statements that give or extend a lease on row `t`. */
  predicate Extends(s: World, st: Step, t: nat) {
    || (st.Lease? && !st.o.Lost? && LeaseCandidate(s.tasks, s.now, st.locked) == Some(t))
    || (st.Heartbeat? && st.t == t && t < |s.tasks| && s.tasks[t].owner == Some(st.w))
  }

  /** A statement of a worker that leaves its row LEASED leaves it alone. */
  lemma ActKeepsLease(l: Local, a: Action, count: nat, next: nat)
    requires Fits(l.phase, a)
    ensures Act(l, a, count, next).task.state == Leased ==> Act(l, a, count, next).task == l.task
  {
  }

  /** Only these change when a LEASED row expires, and nobody else's heartbeat does. */
  lemma ExpiryKept(s: World, st: Step, t: nat)
    requires Enabled(s, st) && t < |s.tasks| && !Extends(s, st, t)
    requires t < |Next(s, st).tasks| ==> Next(s, st).tasks[t].state == Leased
    ensures t < |Next(s, st).tasks| && Next(s, st).tasks[t].expires == s.tasks[t].expires
  {
    if st.Work? {
      ActKeepsLease(Look(s, st.w), st.a, RunTaskCount(s.tasks, RunOf(s, st.w)), |s.artifacts|);
    }
  }

  /** A row that is LEASED expires 30 seconds after its lease or the last heartbeat of its owner. */
  lemma {:induction false} LeaseShowsLastBeat(n: nat, tr: seq<Step>, ws: seq<World>, i: nat, k: nat, t: nat)
    requires n >= 1 && Chain(Init(n), tr, ws) && i < k <= |tr| && Extends(ws[i], tr[i], t)
    requires forall m :: i < m < k ==> !Extends(ws[m], tr[m], t)
    requires forall m :: i < m <= k && t < |ws[m].tasks| ==> ws[m].tasks[t].state == Leased
    ensures t < |ws[k].tasks| && ws[k].tasks[t].expires == Some(ws[i].now + 30000)
    decreases k
  {
    ChainReaches(n, tr, ws, k - 1);
    assert Enabled(ws[k - 1], tr[k - 1]);
    if i + 1 < k {
      LeaseShowsLastBeat(n, tr, ws, i, k - 1, t);
      ExpiryKept(ws[k - 1], tr[k - 1], t);
    }
  }
}
