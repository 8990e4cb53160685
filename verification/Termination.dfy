/** Workers cannot run for ever: every statement uses up a budget that only the creation of
    tasks supplies. */
module Termination {
  import opened Tables
  import opened Protocol
  import opened Invariant
  import opened Preservation
  import opened History

  /** The number of statements a worker can still issue before it is idle again. */
  function Rank(p: Phase): nat {
    match p
    case Idle => 0
    case AtFirstCheck(_, _) => 11
    case AtStart(_, _) => 10
    case AtProcess(_, _) => 9
    case AtSubprocess(_, _, _) => 8
    case AtSecondCheck(_) => 7
    case AtMark(_) => 6
    case AtCount(_) => 5
    case AtProgress(_) => 4
    case AtCompleteRun(_, _) => 3
    case AtCompleteJob(_, _) => 2
    case AtPublish(_, _) => 1
    case AtDecide(_, _, _) => 7
    case AtFail(_) => 2
    case AtCountFail(_) => 1
    case AtRetry(_, _) => 1
    case AtBury(_) => 1
  }

  function Ranks(ws: seq<Phase>): nat {
    if ws == [] then 0 else Ranks(ws[..|ws| - 1]) + Rank(ws[|ws| - 1])
  }

  /** All statements that the tasks and workers of `s` can still give rise to. */
  function Fuel(s: World): int
    requires |s.tasks| == |s.hist|
  {
    Total(s, Potential) + Ranks(s.workers)
  }

  /** What the retry budgets of all tasks created so far allow in the whole history. */
  function Allowance(hs: seq<TaskHistory>): nat {
    if hs == [] then 0
    else Allowance(hs[..|hs| - 1]) + (hs[|hs| - 1].budget + 1) * LEASE_COST
  }

  /** A statement of a worker other than a heartbeat or a poll that finds nothing. */
  predicate Productive(s: World, st: Step) {
    st.Work? || (st.Lease? && !st.o.Lost? && LeaseCandidate(s.tasks, s.now, st.locked).Some?)
  }

  /** 1 for a productive step. */
  function Cost(s: World, st: Step): nat {
    if Productive(s, st) then 1 else 0
  }

  ghost function ProductiveSteps(s: World, tr: seq<Step>): nat
    requires Runs(s, tr)
    decreases |tr|
  {
    if tr == [] then 0
    else
      var front := tr[..|tr| - 1];
      ProductiveSteps(s, front) + Cost(After(s, front), tr[|tr| - 1])
  }

  lemma {:induction false} RanksUpdate(ws: seq<Phase>, w: nat, p: Phase)
    requires w < |ws|
    ensures Ranks(ws[w := p]) == Ranks(ws) + Rank(p) - Rank(ws[w])
  {
    var m := |ws| - 1;
    if w == m {
      assert ws[w := p][..m] == ws[..m];
    } else {
      assert ws[w := p][..m] == ws[..m][w := p];
      RanksUpdate(ws[..m], w, p);
    }
  }

  lemma AllowanceDependsOnBudgets(hs: seq<TaskHistory>, t: nat, h: TaskHistory)
    requires t < |hs| && h.budget == hs[t].budget
    ensures Allowance(hs[t := h]) == Allowance(hs)
  {
    var m := |hs| - 1;
    if t == m {
      assert hs[t := h][..m] == hs[..m];
    } else {
      assert hs[t := h][..m] == hs[..m][t := h];
      AllowanceDependsOnBudgets(hs[..m], t, h);
    }
  }

  lemma ActKeepsBudget(n: nat, w: nat, id: nat, l: Local, a: Action, count: nat, next: nat)
    requires ActReady(n, w, id, l, a, count)
    ensures Act(l, a, count, next).h.budget == l.h.budget
    ensures Act(l, a, count, next).task.retries <= l.h.budget
    ensures a.RetryTask? || Act(l, a, count, next).task.retries == l.task.retries
  {
    ActPreserves(n, w, id, l, a, count, next);
  }

  lemma ActUsesFuel(n: nat, w: nat, id: nat, l: Local, a: Action, count: nat, next: nat)
    requires ActReady(n, w, id, l, a, count)
    ensures var l' := Act(l, a, count, next);
            Val(l'.task, l'.h, Potential) + Rank(l'.phase) < Val(l.task, l.h, Potential) + Rank(l.phase)
  {
    ActKeepsBudget(n, w, id, l, a, count, next);
    var l' := Act(l, a, count, next);
    if a.RetryTask? {
      assert Val(l'.task, l'.h, Potential) <= Val(l.task, l.h, Potential);
    } else {
      assert l'.task.state == l.task.state || Finished(l'.task.state);
      assert Val(l'.task, l'.h, Potential) <= Val(l.task, l.h, Potential);
    }
    assert Rank(l'.phase) < Rank(l.phase);
  }

  lemma WorkUsesFuel(s: World, w: nat, a: Action)
    requires Inv(s) && Enabled(s, Work(w, a))
    ensures Shaped(Next(s, Work(w, a))) && Fuel(Next(s, Work(w, a))) < Fuel(s)
    ensures Allowance(Next(s, Work(w, a)).hist) == Allowance(s.hist)
  {
    LookOk(s, w);
    var count := RunTaskCount(s.tasks, RunOf(s, w));
    ActUsesFuel(s.n, w, TaskOf(s, w), Look(s, w), a, count, |s.artifacts|);
    ActPreserves(s.n, w, TaskOf(s, w), Look(s, w), a, count, |s.artifacts|);
    var l' := Act(Look(s, w), a, count, |s.artifacts|);
    WorkPreserves(s, w, a);
    PutSums(s, w, l');
    RanksUpdate(s.workers, w, l'.phase);
    AllowanceDependsOnBudgets(s.hist, TaskOf(s, w), l'.h);
  }

  lemma LeaseUsesFuel(s: World, st: Step)
    requires Inv(s) && st.Lease? && Enabled(s, st)
    ensures Shaped(Next(s, st)) && Next(s, st).hist == s.hist
    ensures if Productive(s, st) then Fuel(Next(s, st)) < Fuel(s) else Fuel(Next(s, st)) == Fuel(s)
  {
    var c := LeaseCandidate(s.tasks, s.now, st.locked);
    if Productive(s, st) {
      var t := c.value;
      assert TaskOk(s, t);
      assert s.hist[t := s.hist[t]] == s.hist;
      SumUpdate(s.tasks, s.hist, t, LeaseRow(s.tasks[t], st.w, s.now), s.hist[t], Potential);
      RanksUpdate(s.workers, st.w, AtFirstCheck(t, s.tasks[t].retries));
    }
  }

  lemma CreateTaskSuppliesFuel(s: World, r: nat)
    requires Inv(s) && Enabled(s, CreateTask(r))
    ensures var s' := Next(s, CreateTask(r));
            Shaped(s') && Fuel(s') - Allowance(s'.hist) == Fuel(s) - Allowance(s.hist)
  {
    var s' := Next(s, CreateTask(r));
    SumAppend(s.tasks, s.hist, s'.tasks[|s.tasks|], s'.hist[|s.hist|], Potential);
    assert s'.hist[..|s.hist|] == s.hist;
  }

  lemma HeartbeatKeepsFuel(s: World, w: nat, t: nat)
    requires Inv(s) && Enabled(s, Heartbeat(w, t))
    ensures Shaped(Next(s, Heartbeat(w, t))) && Fuel(Next(s, Heartbeat(w, t))) == Fuel(s)
  {
    assert s.hist[t := s.hist[t]] == s.hist;
    SumUpdate(s.tasks, s.hist, t, HeartbeatRow(s.tasks[t], w, s.now), s.hist[t], Potential);
  }

  predicate MovesTasks(st: Step) {
    st.Work? || st.Lease? || st.CreateTask? || st.Heartbeat?
  }

  lemma OtherStepsKeepFuel(s: World, st: Step)
    requires Inv(s) && Enabled(s, st) && !MovesTasks(st)
    ensures Shaped(Next(s, st)) && Next(s, st).hist == s.hist && Fuel(Next(s, st)) == Fuel(s)
  {
    if st.Spawn? { assert Next(s, st).workers[..|s.workers|] == s.workers; }
  }

  /** One step: every productive step uses up fuel, and `CreateTask` alone supplies it, no more
      than it adds to the allowance. */
  lemma StepUsesFuel(s: World, st: Step)
    requires Inv(s) && Enabled(s, st)
    ensures Shaped(Next(s, st))
    ensures !st.CreateTask? ==> Fuel(Next(s, st)) + Cost(s, st) <= Fuel(s)
    ensures Fuel(Next(s, st)) - Allowance(Next(s, st).hist) + Cost(s, st) <= Fuel(s) - Allowance(s.hist)
  {
    match st
    case Work(w, a) => WorkUsesFuel(s, w, a);
    case Lease(w, locked, o) => LeaseUsesFuel(s, st);
    case CreateTask(r) => CreateTaskSuppliesFuel(s, r);
    case Heartbeat(w, t) => HeartbeatKeepsFuel(s, w, t);
    case _ => OtherStepsKeepFuel(s, st);
  }

  lemma FuelIsNonNegative(s: World)
    requires Inv(s)
    ensures 0 <= Fuel(s)
  {
    forall i | 0 <= i < |s.tasks| ensures 0 <= Val(s.tasks[i], s.hist[i], Potential) { assert TaskOk(s, i); }
    SumNonNegative(s.tasks, s.hist, Potential);
  }

  lemma {:induction false} RunUsesFuel(s: World, tr: seq<Step>)
    requires Inv(s) && Runs(s, tr)
    ensures Inv(After(s, tr))
    ensures ProductiveSteps(s, tr) + Fuel(After(s, tr)) - Allowance(After(s, tr).hist) <= Fuel(s) - Allowance(s.hist)
    ensures (forall i :: 0 <= i < |tr| ==> !tr[i].CreateTask?) ==>
              ProductiveSteps(s, tr) + Fuel(After(s, tr)) <= Fuel(s)
    decreases |tr|
  {
    if tr != [] {
      var front := tr[..|tr| - 1];
      RunUsesFuel(s, front);
      StepUsesFuel(After(s, front), tr[|tr| - 1]);
      StepPreserves(After(s, front), tr[|tr| - 1]);
      assert (forall i :: 0 <= i < |tr| ==> !tr[i].CreateTask?) ==>
               !tr[|tr| - 1].CreateTask? && forall i :: 0 <= i < |front| ==> front[i] == tr[i];
    }
  }

  /** In any history, all workers together issue at most 12 statements for every attempt that
      the tasks' retry budgets allow, whatever fails and however they interleave. */
  lemma WorkIsBounded(n: nat, tr: seq<Step>)
    requires n >= 1 && Runs(Init(n), tr)
    ensures ProductiveSteps(Init(n), tr) <= Allowance(After(Init(n), tr).hist)
  {
    RunUsesFuel(Init(n), tr);
    FuelIsNonNegative(After(Init(n), tr));
  }

  /** Once no task is created any more, only `Fuel` many statements can follow. */
  lemma WorkersRunDry(s: World, tr: seq<Step>)
    requires Reachable(s) && Runs(s, tr) && forall i :: 0 <= i < |tr| ==> !tr[i].CreateTask?
    ensures |s.tasks| == |s.hist| && ProductiveSteps(s, tr) <= Fuel(s)
  {
    ReachableInv(s);
    RunUsesFuel(s, tr);
    FuelIsNonNegative(After(s, tr));
  }
}
