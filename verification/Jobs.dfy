/** Cancellation: `CancelJob`, statement by statement. */
module Jobs {
  import opened Faults
  import opened Sequences
  import opened Tables
  import opened Protocol
  import opened History
  import opened Database

  /** `ListRunsByJob`: the youngest run first. */
  function RunsOfJob(runs: seq<RunRow>, j: nat): (rs: seq<nat>)
    ensures forall r: nat :: r in rs <==> r < |runs| && runs[r].job == j
    ensures forall i, k :: 0 <= i < k < |rs| ==> rs[k] < rs[i]
  {
    if runs == [] then []
    else
      var m := |runs| - 1;
      var older := RunsOfJob(runs[..m], j);
      assert forall i :: 0 <= i < |older| ==> older[i] in older;
      (if runs[m].job == j then [m] else []) + older
  }

  /** The outcome of the job's UPDATE, whether the runs can be listed, and the outcome of the
      UPDATE of each run. */
  datatype Luck = Luck(job: Outcome, listed: bool, run: nat -> Outcome)

  /** The UPDATEs of the first `k` listed runs that take effect. */
  function RunSteps(listed: seq<nat>, k: nat, luck: Luck): seq<Step>
    requires k <= |listed|
  {
    if k == 0 then []
    else RunSteps(listed, k - 1, luck) + if luck.run(listed[k - 1]).Lost? then [] else [CancelRun(listed[k - 1])]
  }

  /** All statements of a cancellation that take effect. */
  function CancelSteps(j: nat, listed: seq<nat>, luck: Luck): seq<Step> {
    if luck.job.Lost? then []
    else if luck.job.Done? && luck.listed then [CancelJob(j)] + RunSteps(listed, |listed|, luck)
    else [CancelJob(j)]
  }

  class JobService {
    /** One `UpdateRunState(CANCELLED)` of the loop; an error is only logged. */
    method CancelOne(db: Database, r: nat, o: Outcome, ghost c: Caller)
      requires db.Valid() && r < |db.runs|
      modifies db
      ensures db.Valid() && |old(db.runs)| <= |db.runs| && old(db.world.log) <= db.world.log
      ensures old(db.trace) <= db.trace && old(db.states) <= db.states && old(db.callers) <= db.callers
      ensures !o.Lost? ==> RunCancelledBy(r) in db.world.log
      ensures db.StepsBy(c) == old(db.StepsBy(c)) + if o.Lost? then [] else [CancelRun(r)]
    {
      db.Yield(c);
      if o.Lost? { return; }
      ghost var s := db.world;
      var _ := db.UpdateRunState(r, RunCancelled, o);
      db.Record(CancelRun(r), c);
      assert db.world.log[|s.log|] == RunCancelledBy(r);
    }

    /** The loop over the listed runs. */
    method CancelRuns(db: Database, listed: seq<nat>, luck: Luck, ghost c: Caller)
      requires db.Valid() && forall r: nat :: r in listed ==> r < |db.runs|
      modifies db
      ensures db.Valid() && Evolves(old(db.world), db.world)
      ensures old(db.trace) <= db.trace && old(db.states) <= db.states && old(db.callers) <= db.callers
      ensures forall r: nat :: r in listed && !luck.run(r).Lost? ==> RunCancelledBy(r) in db.world.log
      ensures db.StepsBy(c) == old(db.StepsBy(c)) + RunSteps(listed, |listed|, luck)
    {
      ghost var m := |db.trace|;
      for i := 0 to |listed|
        invariant db.Valid() && |old(db.runs)| <= |db.runs|
        invariant old(db.trace) <= db.trace && old(db.states) <= db.states && old(db.callers) <= db.callers
        invariant forall k :: 0 <= k < i && !luck.run(listed[k]).Lost? ==> RunCancelledBy(listed[k]) in db.world.log
        invariant db.StepsBy(c) == old(db.StepsBy(c)) + RunSteps(listed, i, luck)
      {
        assert listed[i] in listed;
        var o := luck.run(listed[i]);
        CancelOne(db, listed[i], o, c);
        Assoc(old(db.StepsBy(c)), RunSteps(listed, i, luck), if o.Lost? then [] else [CancelRun(listed[i])]);
      }
      db.Grew(m);
    }

    /** Step `m` was the cancellation of job `j` by call `c`, and left the job CANCELLED. */
    ghost predicate CancelledAt(db: Database, m: nat, j: nat, c: Caller)
      reads db
    {
      && m < |db.trace| && m < |db.callers| && m + 1 < |db.states|
      && db.trace[m] == Step.CancelJob(j) && db.callers[m] == c
      && j < |db.states[m + 1].jobs| && db.states[m + 1].jobs[j].state == JobCancelled
    }

    /** `CancelJob`, as call `c`: whatever happens between its statements, it executes exactly
        those of `CancelSteps`: the job's UPDATE, step `at`, which leaves it CANCELLED, and then
        that of every run of this job, each once and no other run, as far as they take effect.
        The list holds every run the job had at the call.  It succeeds iff the job's UPDATE and
        the listing do. */
    method CancelJob(db: Database, j: nat, luck: Luck, ghost c: Caller)
        returns (ok: bool, ghost listed: seq<nat>, ghost at: nat)
      requires db.Valid() && j < |db.jobs|
      modifies db
      ensures at == |old(db.trace)| && (!luck.job.Lost? ==> CancelledAt(db, at, j, c))
      ensures db.Valid() && (ok <==> luck.job.Done? && luck.listed)
      ensures db.StepsBy(c) == old(db.StepsBy(c)) + CancelSteps(j, listed, luck)
      ensures forall r: nat :: r in listed ==> r < |db.runs| && db.runs[r].job == j
      ensures forall i, k :: 0 <= i < k < |listed| ==> listed[k] < listed[i]
      ensures ok ==> forall r: nat :: r < |old(db.runs)| && old(db.runs)[r].job == j ==> r in listed
      ensures ok ==> forall r: nat :: r in listed && !luck.run(r).Lost? ==> RunCancelledBy(r) in db.world.log
    {
      listed := [];
      at := |db.trace|;
      ghost var steps := db.StepsBy(c);
      ok := db.UpdateJobState(j, JobCancelled, luck.job);
      if !luck.job.Lost? { db.Record(Step.CancelJob(j), c); }
      if !ok { return; }
      ghost var s := db.world;
      db.Yield(c);
      ok := luck.listed;
      if !ok { return; }
      KeepsJobs(s, db.world);
      var runs := RunsOfJob(db.runs, j);
      listed := runs;
      ghost var m := db.world;
      CancelRuns(db, runs, luck, c);
      KeepsJobs(m, db.world);
      Assoc(steps, [Step.CancelJob(j)], RunSteps(listed, |listed|, luck));
    }

    lemma KeepsJobs(s: World, s': World)
      requires Evolves(s, s')
      ensures forall r :: 0 <= r < |s.runs| ==> r < |s'.runs| && s'.runs[r].job == s.runs[r].job
    {
      forall r | 0 <= r < |s.runs| ensures r < |s'.runs| && s'.runs[r].job == s.runs[r].job {
        assert RunEvolves(s.runs[r], s.runHist[r], s'.runs[r], s'.runHist[r]);
      }
    }
  }
}
