/** The inductive invariant of the protocol and its preservation by every step. */
module Invariant {
  import opened Tables
  import opened Protocol

  // -- sums over the task table ------------------------------------------------

  /** A number attached to a task: in runs other than `r` it is 0. */
  datatype Measure =
    | Ones(r: nat) | Starts(r: nat) | Dones(r: nat) | Fails(r: nat)
    | Tries(r: nat) | Retries(r: nat) | Begun(r: nat) | Budgets(r: nat) | Potential

  /** The number of statements of the longest poll, from `LeaseTask` to the publish. */
  const LEASE_COST: nat := 12

  function Val(t: TaskRow, h: TaskHistory, k: Measure): int {
    match k
    case Potential =>
      if t.state == Pending then (h.budget - t.retries + 1) * LEASE_COST
      else if t.state == Leased then (h.budget - t.retries) * LEASE_COST
      else 0
    case _ =>
      if h.run != k.r then 0 else
      match k
      case Ones(_) => 1
      case Starts(_) => h.starts
      case Dones(_) => h.dones
      case Fails(_) => h.fails
      case Tries(_) => h.tries
      case Retries(_) => t.retries
      case Begun(_) => if h.begun then 1 else 0
      case Budgets(_) => h.budget + 1
  }

  function Sum(ts: seq<TaskRow>, hs: seq<TaskHistory>, k: Measure): int
    requires |ts| == |hs|
  {
    if ts == [] then 0
    else
      var m := |ts| - 1;
      Sum(ts[..m], hs[..m], k) + Val(ts[m], hs[m], k)
  }

  function Total(s: World, k: Measure): int
    requires |s.tasks| == |s.hist|
  {
    Sum(s.tasks, s.hist, k)
  }

  lemma {:induction false} SumUpdate(ts: seq<TaskRow>, hs: seq<TaskHistory>, i: nat,
                                     t: TaskRow, h: TaskHistory, k: Measure)
    requires i < |ts| == |hs|
    ensures Sum(ts[i := t], hs[i := h], k) == Sum(ts, hs, k) + Val(t, h, k) - Val(ts[i], hs[i], k)
  {
    var m := |ts| - 1;
    if i == m {
      assert ts[i := t][..m] == ts[..m] && hs[i := h][..m] == hs[..m];
    } else {
      assert ts[i := t][..m] == ts[..m][i := t] && hs[i := h][..m] == hs[..m][i := h];
      SumUpdate(ts[..m], hs[..m], i, t, h, k);
    }
  }

  lemma SumAppend(ts: seq<TaskRow>, hs: seq<TaskHistory>, t: TaskRow, h: TaskHistory, k: Measure)
    requires |ts| == |hs|
    ensures Sum(ts + [t], hs + [h], k) == Sum(ts, hs, k) + Val(t, h, k)
  {
    assert (ts + [t])[..|ts|] == ts && (hs + [h])[..|ts|] == hs;
  }

  /** Pointwise order carries over to sums, and equal sums mean equality everywhere. */
  lemma {:induction false} SumOrder(ts: seq<TaskRow>, hs: seq<TaskHistory>, k: Measure, k': Measure)
    requires |ts| == |hs|
    requires forall i :: 0 <= i < |ts| ==> Val(ts[i], hs[i], k) <= Val(ts[i], hs[i], k')
    ensures Sum(ts, hs, k) <= Sum(ts, hs, k')
    ensures Sum(ts, hs, k) == Sum(ts, hs, k') ==>
              forall i :: 0 <= i < |ts| ==> Val(ts[i], hs[i], k) == Val(ts[i], hs[i], k')
  {
    if ts != [] {
      var m := |ts| - 1;
      SumOrder(ts[..m], hs[..m], k, k');
      if Sum(ts, hs, k) == Sum(ts, hs, k') {
        forall i | 0 <= i < |ts| ensures Val(ts[i], hs[i], k) == Val(ts[i], hs[i], k') {
          if i < m { assert ts[..m][i] == ts[i] && hs[..m][i] == hs[i]; }
        }
      }
    }
  }

  lemma {:induction false} SumNonNegative(ts: seq<TaskRow>, hs: seq<TaskHistory>, k: Measure)
    requires |ts| == |hs|
    requires forall i :: 0 <= i < |ts| ==> 0 <= Val(ts[i], hs[i], k)
    ensures 0 <= Sum(ts, hs, k)
    ensures forall i :: 0 <= i < |ts| ==> Val(ts[i], hs[i], k) <= Sum(ts, hs, k)
  {
    if ts != [] {
      var m := |ts| - 1;
      SumNonNegative(ts[..m], hs[..m], k);
      forall i | 0 <= i < |ts| ensures Val(ts[i], hs[i], k) <= Sum(ts, hs, k) {
        if i < m { assert ts[..m][i] == ts[i] && hs[..m][i] == hs[i]; }
      }
    }
  }

  lemma {:induction false} SumZero(ts: seq<TaskRow>, hs: seq<TaskHistory>, k: Measure)
    requires |ts| == |hs|
    requires forall i :: 0 <= i < |ts| ==> Val(ts[i], hs[i], k) == 0
    ensures Sum(ts, hs, k) == 0
  {
    if ts != [] {
      SumZero(ts[..|ts| - 1], hs[..|hs| - 1], k);
    }
  }

  /** Measures add up as their values do. */
  lemma {:induction false} SumAdds(ts: seq<TaskRow>, hs: seq<TaskHistory>, k: Measure, k': Measure, k'': Measure)
    requires |ts| == |hs|
    requires forall i :: 0 <= i < |ts| ==> Val(ts[i], hs[i], k) == Val(ts[i], hs[i], k') + Val(ts[i], hs[i], k'')
    ensures Sum(ts, hs, k) == Sum(ts, hs, k') + Sum(ts, hs, k'')
  {
    if ts != [] {
      var m := |ts| - 1;
      SumAdds(ts[..m], hs[..m], k, k', k'');
    }
  }

  /** A sum of zeros and ones counts the ones. */
  lemma {:induction false} SumIsCardinality(ts: seq<TaskRow>, hs: seq<TaskHistory>, k: Measure, ones: set<nat>)
    requires |ts| == |hs|
    requires forall i :: 0 <= i < |ts| ==> Val(ts[i], hs[i], k) == (if i in ones then 1 else 0)
    requires forall i :: i in ones ==> i < |ts|
    ensures Sum(ts, hs, k) == |ones|
  {
    if ts == [] {
      assert ones == {};
    } else {
      var m := |ts| - 1;
      forall i | 0 <= i < m ensures Val(ts[..m][i], hs[..m][i], k) == (if i in ones - {m} then 1 else 0) {}
      SumIsCardinality(ts[..m], hs[..m], k, ones - {m});
      if m !in ones { assert ones - {m} == ones; }
    }
  }

  /** `Dones(r)` and `Fails(r)` together. */
  lemma {:induction false} SumCounted(ts: seq<TaskRow>, hs: seq<TaskHistory>, r: nat)
    requires |ts| == |hs|
    requires forall i :: 0 <= i < |ts| ==> hs[i].dones + hs[i].fails <= 1
    ensures 0 <= Sum(ts, hs, Dones(r)) && 0 <= Sum(ts, hs, Fails(r))
    ensures Sum(ts, hs, Dones(r)) + Sum(ts, hs, Fails(r)) <= Sum(ts, hs, Ones(r))
    ensures Sum(ts, hs, Dones(r)) + Sum(ts, hs, Fails(r)) == Sum(ts, hs, Ones(r)) ==>
              forall i :: 0 <= i < |ts| && hs[i].run == r ==> hs[i].dones + hs[i].fails == 1
  {
    if ts != [] {
      var m := |ts| - 1;
      SumCounted(ts[..m], hs[..m], r);
      if Sum(ts, hs, Dones(r)) + Sum(ts, hs, Fails(r)) == Sum(ts, hs, Ones(r)) {
        forall i | 0 <= i < |ts| && hs[i].run == r ensures hs[i].dones + hs[i].fails == 1 {
          if i < m { assert hs[..m][i] == hs[i]; }
        }
      }
    }
  }

  lemma {:induction false} CountIsOnes(ts: seq<TaskRow>, hs: seq<TaskHistory>, r: nat)
    requires |ts| == |hs|
    requires forall i :: 0 <= i < |ts| ==> hs[i].run == ts[i].run
    ensures RunTaskCount(ts, r) == Sum(ts, hs, Ones(r))
  {
    if ts != [] {
      var m := |ts| - 1;
      CountIsOnes(ts[..m], hs[..m], r);
    }
  }

  // -- what holds of one task, one run, one worker -------------------------------

  predicate TaskLocal(t: TaskRow, h: TaskHistory) {
    && h.run == t.run
    && h.dones + h.fails <= 1
    && h.tries == t.retries + (if h.begun then 1 else 0)
    && h.starts <= h.tries
    && t.retries <= h.budget
    && (h.dones == 1 ==> t.state == Succeeded)
    && (h.fails == 1 ==> t.state == Failed || t.state == Leased)
    && (h.filed ==> h.begun)
    && (h.artifact.Some? ==> h.filed)
    && (t.state == Pending ==> t.owner == None && t.expires == None && !h.begun)
    && (t.state != Pending ==> t.owner.Some?)
    && (t.state == Succeeded ==> h.filed)
    && (t.state == Failed ==> h.begun)
  }

  /** `verdict` is the one the frozen counters of a fully counted run give.  Only a run
      that was leased too early and lost a statement can be completed otherwise, and then
      as SUCCEEDED. */
  predicate GoodVerdict(run: RunRow, rh: RunHistory, verdict: RunState) {
    || (rh.sized && AllDone(ProgressOf(run)) && verdict == RunVerdict(run.failed))
    || (rh.eager && !rh.clean && verdict == RunSucceeded)
  }

  predicate Uncounted(h: TaskHistory) {
    h.dones == 0 && h.fails == 0
  }

  /** What the position of worker `w` says about the task it holds. */
  predicate PhaseLocal(n: nat, w: nat, p: Phase, t: TaskRow, h: TaskHistory, run: RunRow, rh: RunHistory)
    requires !p.Idle?
  {
    && t.owner == Some(w)
    && match p
       case AtFirstCheck(_, k) => t.state == Leased && !h.begun && k == t.retries && Uncounted(h)
       case AtBury(_) => t.state == Leased && Uncounted(h)
       case AtStart(_, k) => t.state == Leased && !h.begun && k == t.retries && Uncounted(h)
       case AtProcess(_, k) => t.state == Leased && h.begun && !h.filed && k == t.retries && Uncounted(h)
       case AtSubprocess(_, k, total) =>
         && t.state == Leased && h.begun && !h.filed && k == t.retries && Uncounted(h)
         && t.partition < total <= n && (!rh.eager ==> total == n)
       case AtDecide(_, k, _) => t.state == Leased && h.begun && !h.filed && k == t.retries && Uncounted(h)
       case AtRetry(_, k) =>
         t.state == Leased && h.begun && !h.filed && k == t.retries < h.budget && Uncounted(h)
       case AtFail(_) => t.state == Leased && h.begun && !h.filed && Uncounted(h)
       case AtCountFail(_) =>
         && (t.state == Failed || t.state == Leased) && h.begun && !h.filed && Uncounted(h)
         && (rh.clean ==> t.state == Failed)
       case AtSecondCheck(_) => t.state == Leased && h.filed && Uncounted(h)
       case AtMark(_) => t.state == Leased && h.filed && Uncounted(h)
       case AtCount(_) => t.state == Succeeded && Uncounted(h)
       case AtProgress(_) => t.state == Succeeded
       case AtCompleteRun(_, seen) =>
         && t.state == Succeeded
         && if seen.total == 0 then seen.failed <= 0 && rh.eager && !rh.clean
            else rh.sized && AllDone(ProgressOf(run)) && seen == ProgressOf(run)
       case AtCompleteJob(_, verdict) =>
         t.state == Succeeded && GoodVerdict(run, rh, verdict)
       case AtPublish(_, verdict) =>
         t.state == Succeeded && GoodVerdict(run, rh, verdict)
       case Idle => true
  }

  /** In the base regime the owner of an unfinished or uncounted task is still at work on it. */
  predicate CleanLocal(id: nat, t: TaskRow, h: TaskHistory, owner: Phase) {
    && h.starts == h.tries
    && (h.filed ==> h.artifact.Some?)
    && (t.state == Leased ==> h.fails == 0 && !owner.Idle? && owner.t == id)
    && (t.state == Succeeded && h.dones == 0 ==> owner == AtCount(id))
    && (t.state == Failed && h.fails == 0 ==> owner == AtCountFail(id))
  }

  predicate TaskOk(s: World, t: nat)
    requires Shaped(s) && t < |s.tasks|
  {
    var row, h := s.tasks[t], s.hist[t];
    var rh := s.runHist[row.run];
    && TaskLocal(row, h)
    && row.partition < |rh.ids| && rh.ids[row.partition] == t
    && h.budget == Max0(s.jobs[s.runs[row.run].job].maxRetries)
    && (!rh.eager && !rh.ready ==> row.state == Pending && h.starts == 0)
    && (row.owner.Some? ==> row.owner.value < |s.workers|)
    && (rh.clean && row.owner.Some? ==> CleanLocal(t, row, h, s.workers[row.owner.value]))
    && (rh.clean ==> h.starts == h.tries)
    && (h.artifact.Some? ==>
         && h.artifact.value < |s.artifacts|
         && s.artifacts[h.artifact.value].run == row.run
         && s.artifacts[h.artifact.value].partition == row.partition)
  }

  predicate RunCounters(s: World, r: nat)
    requires Shaped(s) && r < |s.runs|
  {
    var run, rh := s.runs[r], s.runHist[r];
    && run.done == Total(s, Dones(r))
    && run.failed == Total(s, Fails(r))
    && run.running == Total(s, Starts(r)) - Total(s, Dones(r)) - Total(s, Fails(r))
    && run.pending == (if rh.ready then s.n else 0) - Total(s, Starts(r)) + rh.earlyStarts
    && run.total == (if rh.sized then s.n else 0)
    && Total(s, Ones(r)) == |rh.ids|
  }

  predicate RunOk(s: World, r: nat)
    requires Shaped(s) && r < |s.runs|
  {
    var rh := s.runHist[r];
    && RunCounters(s, r)
    && |rh.ids| <= s.n
    && (rh.sized ==> |rh.ids| == s.n)
    && (rh.ready ==> rh.sized)
    && (!rh.ready || !rh.eager ==> rh.earlyStarts == 0)
    && (forall p :: 0 <= p < |rh.ids| ==>
          rh.ids[p] < |s.tasks| && s.tasks[rh.ids[p]].run == r && s.tasks[rh.ids[p]].partition == p)
  }

  predicate WorkerOk(s: World, w: nat)
    requires Shaped(s) && w < |s.workers|
  {
    !s.workers[w].Idle? ==>
      && Busy(s, w)
      && var l := Look(s, w);
         PhaseLocal(s.n, w, l.phase, l.task, l.h, l.run, l.rh)
  }

  predicate ArtifactOk(s: World, k: nat)
    requires Shaped(s) && k < |s.artifacts|
  {
    var a := s.artifacts[k];
    && a.run < |s.runs| && a.partition < |s.runHist[a.run].ids|
    && s.runHist[a.run].ids[a.partition] < |s.hist|
    && s.hist[s.runHist[a.run].ids[a.partition]].artifact == Some(k)
    && a.partition < a.total <= s.n && (!s.runHist[a.run].eager ==> a.total == s.n)
  }

  predicate EventOk(s: World, e: Event)
    requires Shaped(s)
  {
    match e
    case RunCompleted(r, v) => r < |s.runs| && GoodVerdict(s.runs[r], s.runHist[r], v)
    case JobCompleted(r, v) => r < |s.runs| && GoodVerdict(s.runs[r], s.runHist[r], v)
    case Announced(r, _, _) => r < |s.runs|
    case RunCancelledBy(r) => r < |s.runs|
  }

  ghost predicate Inv(s: World) {
    && s.n >= 1
    && Shaped(s)
    && (forall t :: 0 <= t < |s.tasks| ==> TaskOk(s, t))
    && (forall r :: 0 <= r < |s.runs| ==> RunOk(s, r))
    && (forall w :: 0 <= w < |s.workers| ==> WorkerOk(s, w))
    && (forall k :: 0 <= k < |s.artifacts| ==> ArtifactOk(s, k))
    && (forall e :: e in s.log ==> EventOk(s, e))
  }
}
