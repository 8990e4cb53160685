/** The rate limit and the protocol as one system: which jobs a workspace has running, when every
    decrement of its counter comes from an announcement of one of its runs. */
module Load {
  import opened Tables
  import opened Protocol
  import opened Preservation
  import opened History
  import opened Slots
  import opened Races
  import RateLimit

  /** `n` partitions per run, the limit, the number of concurrent `CreateJob` calls of the
      workspace, and how often the decrement for one published event takes effect at most: once
      for every delivery, and once more for every attempt whose answer is lost. */
  datatype Settings = Settings(n: nat, max: int, calls: nat, uses: nat)

  /** The tables, the counter of one workspace with its history, the call that stored each job
      (None if the job belongs to another workspace), and how often each event of the log was
      consumed. */
  datatype Platform = Platform(world: World, limiter: RateLimit.Limiter, trace: seq<RateLimit.Step>,
                               caller: seq<Option<nat>>, used: multiset<nat>)

  datatype Act =
    | Statement(st: Step)                // of the protocol; a SubmitJob is one of another workspace
    | Limit(step: RateLimit.Step)        // of a `CreateJob` call, except for its commit
    | Submit(call: nat, maxRetries: int) // the commit stores the job
    | Consume(e: nat)                    // the decrement for event `e` of the log takes effect

  function Empty(g: Settings): Platform {
    Platform(Init(g.n), RateLimit.EMPTY, [], [], multiset{})
  }

  /** The call that stored the job which an announcement is about. */
  function CallOf(runs: seq<RunRow>, caller: seq<Option<nat>>, e: Event): Option<nat> {
    if e.Announced? && e.run < |runs| && runs[e.run].job < |caller| then caller[runs[e.run].job] else None
  }

  function EventOf(p: Platform, e: nat): Option<nat>
    requires e < |p.world.log|
  {
    CallOf(p.world.runs, p.caller, p.world.log[e])
  }

  /** A call's identifier is a new one; an announcement may have been delivered although the
      worker saw an error. */
  predicate Can(p: Platform, a: Act, g: Settings) {
    match a
    case Statement(st) => Enabled(p.world, st)
    case Limit(st) =>
      && !st.Commit? && !st.Decrement? && RateLimit.Enabled(p.limiter, st, g.calls)
      && (st.Enter? ==> RateLimit.Of(p.trace, RateLimit.Entering)[st.call] == 0)
    case Submit(call, _) => RateLimit.Enabled(p.limiter, RateLimit.Commit(call), g.calls)
    case Consume(e) => e < |p.world.log| && EventOf(p, e).Some? && p.used[e] < g.uses
  }

  function Limited(p: Platform, st: RateLimit.Step, g: Settings): Platform {
    p.(limiter := RateLimit.Next(p.limiter, st, g.max), trace := p.trace + [st])
  }

  function Do(p: Platform, a: Act, g: Settings): Platform
    requires Can(p, a, g)
  {
    match a
    case Statement(st) =>
      p.(world := Next(p.world, st), caller := if st.SubmitJob? then p.caller + [None] else p.caller)
    case Limit(st) => Limited(p, st, g)
    case Submit(call, maxRetries) =>
      Limited(p, RateLimit.Commit(call), g)
      .(world := Next(p.world, SubmitJob(maxRetries)), caller := p.caller + [Some(call)])
    case Consume(e) =>
      Limited(p, RateLimit.Decrement(EventOf(p, e).value), g).(used := p.used + multiset{e})
  }

  ghost predicate Performs(acts: seq<Act>, p: Platform, g: Settings) {
    if acts == [] then p == Empty(g)
    else
      var k := |acts| - 1;
      exists m :: Performs(acts[..k], m, g) && Can(m, acts[k], g) && Do(m, acts[k], g) == p
  }

  /** `p` can come about, with anything failing. */
  ghost predicate Occurs(p: Platform, g: Settings) {
    g.n >= 1 && g.max >= 1 && g.calls >= 1 && exists acts :: Performs(acts, p, g)
  }

  // -- what the counter's history has to do with the log ------------------------------------

  /** How often the first `k` events of the log were consumed for the job of call `c`. */
  function Uses(p: Platform, c: nat, k: nat): nat
    requires k <= |p.world.log|
  {
    if k == 0 then 0
    else Uses(p, c, k - 1) + if EventOf(p, k - 1) == Some(c) then p.used[k - 1] else 0
  }

  ghost predicate Limits(p: Platform, g: Settings) {
    && RateLimit.Leads(p.trace, p.limiter, g.max, g.calls)
    && RateLimit.DistinctCalls(p.trace)
  }

  /** Every commit of a call has stored one job, and each job of the workspace was stored so. */
  ghost predicate Agree(tr: seq<RateLimit.Step>, caller: seq<Option<nat>>) {
    forall c: nat :: RateLimit.Of(tr, RateLimit.Committing)[c] == multiset(caller)[Some(c)]
  }

  ghost predicate Stored(p: Platform) {
    |p.caller| == |p.world.jobs| && Agree(p.trace, p.caller)
  }

  /** Only events of the workspace are consumed. */
  ghost predicate OwnEvents(p: Platform, g: Settings) {
    && (forall e :: p.used[e] <= g.uses)
    && (forall e :: e in p.used ==> e < |p.world.log| && EventOf(p, e).Some?)
  }

  ghost predicate Consumes(p: Platform) {
    forall c :: RateLimit.Of(p.trace, RateLimit.Consuming)[c] == Uses(p, c, |p.world.log|)
  }

  ghost predicate Sound(p: Platform, g: Settings) {
    Reachable(p.world) && p.world.n == g.n && Limits(p, g) && Stored(p) && OwnEvents(p, g) && Consumes(p)
  }

  /** Consumed events stay those of the same job. */
  lemma {:induction false} UsesStay(p: Platform, q: Platform, c: nat, k: nat)
    requires k <= |p.world.log| && p.world.log <= q.world.log && p.used == q.used
    requires forall e :: e in p.used && e < |p.world.log| ==> EventOf(q, e) == EventOf(p, e)
    ensures Uses(q, c, k) == Uses(p, c, k)
  {
    if k > 0 {
      UsesStay(p, q, c, k - 1);
    }
  }

  lemma {:induction false} UsesNoMore(p: Platform, c: nat, m: nat, k: nat)
    requires m <= k <= |p.world.log| && forall e :: e in p.used ==> e < m
    ensures Uses(p, c, k) == Uses(p, c, m)
    decreases k
  {
    if m < k {
      UsesNoMore(p, c, m, k - 1);
    }
  }

  lemma {:induction false} UsesOneMore(p: Platform, e: nat, c: nat, k: nat)
    requires k <= |p.world.log| && e < |p.world.log|
    ensures Uses(p.(used := p.used + multiset{e}), c, k) ==
            Uses(p, c, k) + if e < k && EventOf(p, e) == Some(c) then 1 else 0
  {
    if k > 0 {
      UsesOneMore(p, e, c, k - 1);
      assert EventOf(p.(used := p.used + multiset{e}), k - 1) == EventOf(p, k - 1);
    }
  }

  // -- every act keeps it --

  lemma EventStays(p: Platform, q: Platform, e: nat)
    requires Evolves(p.world, q.world) && p.caller <= q.caller && e < |p.world.log| && EventOf(p, e).Some?
    ensures e < |q.world.log| && EventOf(q, e) == EventOf(p, e)
  {
    var r := p.world.log[e].run;
    assert RunEvolves(p.world.runs[r], p.world.runHist[r], q.world.runs[r], q.world.runHist[r]);
  }

  /** Whatever the protocol does, the events consumed so far are those of the same jobs. */
  lemma EventsStay(p: Platform, q: Platform, g: Settings)
    requires OwnEvents(p, g) && Consumes(p)
    requires Evolves(p.world, q.world) && p.caller <= q.caller && q.used == p.used
    requires RateLimit.Of(q.trace, RateLimit.Consuming) == RateLimit.Of(p.trace, RateLimit.Consuming)
    ensures OwnEvents(q, g) && Consumes(q)
  {
    forall e | e in p.used ensures e < |q.world.log| && EventOf(q, e) == EventOf(p, e) {
      EventStays(p, q, e);
    }
    forall c ensures Uses(q, c, |q.world.log|) == Uses(p, c, |p.world.log|) {
      UsesStay(p, q, c, |p.world.log|);
      UsesNoMore(q, c, |p.world.log|, |q.world.log|);
    }
  }

  lemma StatementKeeps(p: Platform, st: Step, g: Settings)
    requires Sound(p, g) && Can(p, Statement(st), g)
    ensures Sound(Do(p, Statement(st), g), g)
  {
    ReachableInv(p.world);
    StepEvolves(p.world, st);
    ReachableStep(p.world, st);
    EventsStay(p, Do(p, Statement(st), g), g);
  }

  lemma OneMore(p: Platform, st: RateLimit.Step)
    ensures forall k :: RateLimit.Of(p.trace + [st], k) == RateLimit.With(RateLimit.Of(p.trace, k), st, k)
  {
    forall k ensures RateLimit.Of(p.trace + [st], k) == RateLimit.With(RateLimit.Of(p.trace, k), st, k) {
      RateLimit.OfAppend(p.trace, st, k);
    }
  }

  /** A step of the limiter, whatever else comes with it. */
  lemma LimitedKeeps(p: Platform, st: RateLimit.Step, g: Settings)
    requires Limits(p, g) && RateLimit.Enabled(p.limiter, st, g.calls)
    requires st.Enter? ==> RateLimit.Of(p.trace, RateLimit.Entering)[st.call] == 0
    ensures Limits(Limited(p, st, g), g)
  {
    RateLimit.LeadsOn(p.trace, p.limiter, st, g.max, g.calls);
    OneMore(p, st);
  }

  /** A step of a call that neither commits nor decrements. */
  lemma LimitKeeps(p: Platform, st: RateLimit.Step, g: Settings)
    requires Sound(p, g) && Can(p, Limit(st), g)
    ensures Sound(Do(p, Limit(st), g), g)
  {
    var q := Do(p, Limit(st), g);
    LimitedKeeps(p, st, g);
    OneMore(p, st);
    forall c ensures Uses(q, c, |q.world.log|) == Uses(p, c, |p.world.log|) {
      UsesStay(p, q, c, |p.world.log|);
    }
  }

  lemma OneMoreCaller(caller: seq<Option<nat>>, call: nat, c: nat)
    ensures multiset(caller + [Some(call)])[Some(c)] == multiset(caller)[Some(c)] + if c == call then 1 else 0
  {
  }

  lemma CommitAgrees(tr: seq<RateLimit.Step>, caller: seq<Option<nat>>, call: nat)
    requires Agree(tr, caller)
    ensures Agree(tr + [RateLimit.Commit(call)], caller + [Some(call)])
  {
    RateLimit.OfAppend(tr, RateLimit.Commit(call), RateLimit.Committing);
    forall c: nat
      ensures RateLimit.Of(tr + [RateLimit.Commit(call)], RateLimit.Committing)[c] ==
              multiset(caller + [Some(call)])[Some(c)]
    {
      OneMoreCaller(caller, call, c);
    }
  }

  /** The commit of call `call` leads from `p` to `q`. */
  lemma CommitKeeps(p: Platform, q: Platform, call: nat, g: Settings)
    requires Sound(p, g) && RateLimit.Enabled(p.limiter, RateLimit.Commit(call), g.calls)
    requires Evolves(p.world, q.world) && Reachable(q.world) && |q.world.jobs| == |p.world.jobs| + 1
    requires q == Limited(p, RateLimit.Commit(call), g).(world := q.world, caller := p.caller + [Some(call)])
    ensures Sound(q, g)
  {
    LimitedKeeps(p, RateLimit.Commit(call), g);
    CommitAgrees(p.trace, p.caller, call);
    CommitKeepsEvents(p, q, call, g);
  }

  lemma CommitKeepsEvents(p: Platform, q: Platform, call: nat, g: Settings)
    requires OwnEvents(p, g) && Consumes(p) && Evolves(p.world, q.world)
    requires q.trace == p.trace + [RateLimit.Commit(call)] && q.caller == p.caller + [Some(call)] && q.used == p.used
    ensures OwnEvents(q, g) && Consumes(q)
  {
    RateLimit.OfAppend(p.trace, RateLimit.Commit(call), RateLimit.Consuming);
    EventsStay(p, q, g);
  }

  lemma SubmitKeeps(p: Platform, call: nat, maxRetries: int, g: Settings)
    requires Sound(p, g) && Can(p, Submit(call, maxRetries), g)
    ensures Sound(Do(p, Submit(call, maxRetries), g), g)
  {
    SubmitEvolves(p.world, maxRetries);
    CommitKeeps(p, Do(p, Submit(call, maxRetries), g), call, g);
  }

  lemma SubmitEvolves(s: World, maxRetries: int)
    requires Reachable(s)
    ensures var s' := Next(s, SubmitJob(maxRetries));
            Evolves(s, s') && Reachable(s') && |s'.jobs| == |s.jobs| + 1
  {
    ReachableInv(s);
    StepEvolves(s, SubmitJob(maxRetries));
    ReachableStep(s, SubmitJob(maxRetries));
  }

  lemma ConsumeCounts(p: Platform, e: nat, g: Settings)
    requires OwnEvents(p, g) && Can(p, Consume(e), g)
    ensures var q := Do(p, Consume(e), g);
            && OwnEvents(q, g)
            && forall c: nat :: Uses(q, c, |q.world.log|) ==
                 Uses(p, c, |p.world.log|) + if EventOf(p, e) == Some(c) then 1 else 0
  {
    var q := Do(p, Consume(e), g);
    forall i | i in q.used ensures i < |p.world.log| && EventOf(q, i).Some? {
      assert i == e || i in p.used;
      assert EventOf(q, i) == EventOf(p, i);
    }
    var m := p.(used := q.used);
    forall c: nat
      ensures Uses(q, c, |q.world.log|) == Uses(p, c, |p.world.log|) + if EventOf(p, e) == Some(c) then 1 else 0
    {
      UsesOneMore(p, e, c, |p.world.log|);
      UsesStay(m, q, c, |p.world.log|);
    }
  }

  lemma ConsumeKeeps(p: Platform, e: nat, g: Settings)
    requires Sound(p, g) && Can(p, Consume(e), g)
    ensures Sound(Do(p, Consume(e), g), g)
  {
    var q := Do(p, Consume(e), g);
    var st := RateLimit.Decrement(EventOf(p, e).value);
    LimitedKeeps(p, st, g);
    OneMore(p, st);
    assert Stored(q);
    ConsumeCounts(p, e, g);
    assert Consumes(q);
  }

  lemma {:induction false} PerformsKeeps(acts: seq<Act>, p: Platform, g: Settings)
    requires g.n >= 1 && g.max >= 1 && g.calls >= 1 && Performs(acts, p, g)
    ensures Sound(p, g)
  {
    if acts == [] {
      assert RateLimit.Chain([], [RateLimit.EMPTY], g.max, g.calls);
      LaterNow(Init(g.n));
    } else {
      var k := |acts| - 1;
      var m :| Performs(acts[..k], m, g) && Can(m, acts[k], g) && Do(m, acts[k], g) == p;
      PerformsKeeps(acts[..k], m, g);
      match acts[k]
      case Statement(st) => StatementKeeps(m, st, g);
      case Limit(st) => LimitKeeps(m, st, g);
      case Submit(call, maxRetries) => SubmitKeeps(m, call, maxRetries, g);
      case Consume(e) => ConsumeKeeps(m, e, g);
    }
  }

  // -- how many decrements there are --------------------------------------------------------

  /** The runs of the job that call `c` stored: more than one if job.submitted is delivered more
      than once. */
  function RunsOf(p: Platform, c: nat): set<nat> {
    set r | 0 <= r < |p.world.runs| && p.world.runs[r].job < |p.caller| && p.caller[p.world.runs[r].job] == Some(c)
  }

  /** How many announcements there are of runs in `rs`. */
  ghost function EventsOf(log: seq<Event>, rs: set<nat>): nat {
    if log == [] then 0
    else
      var m := |log| - 1;
      EventsOf(log[..m], rs) + if log[m].Announced? && log[m].run in rs then 1 else 0
  }

  lemma {:induction false} EventsOfOneMore(log: seq<Event>, rs: set<nat>, r: nat)
    requires r !in rs
    ensures EventsOf(log, rs + {r}) == EventsOf(log, rs) + Announcements(log, r)
  {
    if log != [] {
      EventsOfOneMore(log[..|log| - 1], rs, r);
    }
  }

  lemma {:induction false} EventsOfBound(log: seq<Event>, rs: set<nat>, a: nat)
    requires forall r :: r in rs ==> Announcements(log, r) <= a
    ensures EventsOf(log, rs) <= a * |rs|
    decreases |rs|
  {
    if r :| r in rs {
      EventsOfBound(log, rs - {r}, a);
      EventsOfOneMore(log, rs - {r}, r);
      assert rs - {r} + {r} == rs;
      Distribute(a, |rs - {r}|);
    } else {
      EventsOfNone(log);
      assert rs == {};
    }
  }

  lemma {:induction false} EventsOfNone(log: seq<Event>)
    ensures EventsOf(log, {}) == 0
  {
    if log != [] { EventsOfNone(log[..|log| - 1]); }
  }

  lemma EventsOfPrefix(log: seq<Event>, rs: set<nat>, k: nat)
    requires k < |log|
    ensures EventsOf(log[..k + 1], rs) ==
            EventsOf(log[..k], rs) + if log[k].Announced? && log[k].run in rs then 1 else 0
  {
    assert log[..k + 1][..k] == log[..k];
  }

  lemma {:induction false} UsesBound(p: Platform, c: nat, k: nat, u: nat)
    requires k <= |p.world.log| && forall e :: p.used[e] <= u
    ensures Uses(p, c, k) <= u * EventsOf(p.world.log[..k], RunsOf(p, c))
  {
    if k > 0 {
      UsesBound(p, c, k - 1, u);
      EventsOfPrefix(p.world.log, RunsOf(p, c), k - 1);
      Distribute(u, EventsOf(p.world.log[..k - 1], RunsOf(p, c)));
    }
  }

  lemma Distribute(u: nat, m: nat)
    ensures u * (m + 1) == u * m + u
  {
  }

  /** A job's decrements, in every reachable state: at most `uses` for each announcement of each
      of its runs. */
  lemma DecrementsOfJob(p: Platform, g: Settings, c: nat, a: nat)
    requires Sound(p, g) && forall r :: r in RunsOf(p, c) ==> Announcements(p.world.log, r) <= a
    ensures RateLimit.Of(p.trace, RateLimit.Consuming)[c] <= g.uses * (a * |RunsOf(p, c)|)
  {
    var log := p.world.log;
    UsesBound(p, c, |log|, g.uses);
    assert log[..|log|] == log;
    EventsOfBound(log, RunsOf(p, c), a);
    Monotone(g.uses, EventsOf(log, RunsOf(p, c)), a * |RunsOf(p, c)|);
  }

  lemma Monotone(u: nat, x: nat, y: nat)
    requires x <= y
    ensures u * x <= u * y
  {
  }

  lemma OnlyStoredJobsFinish(p: Platform, g: Settings)
    requires Sound(p, g)
    ensures RateLimit.GenuineEvents(p.trace)
  {
    forall c | c in RateLimit.Finished(p.trace) ensures c in RateLimit.Committed(p.trace) {
      var e := UsedEvent(p, c, |p.world.log|);
      assert Some(c) in p.caller;
    }
  }

  lemma {:induction false} UsedEvent(p: Platform, c: nat, k: nat) returns (e: nat)
    requires k <= |p.world.log| && Uses(p, c, k) > 0
    ensures e < k && EventOf(p, e) == Some(c)
  {
    if EventOf(p, k - 1) == Some(c) { e := k - 1; } else { e := UsedEvent(p, c, k - 1); }
  }

  /** How many jobs of the workspace run, in every reachable state, whatever fails or repeats: the
      counter, and one more for every decrement beyond the first of a job and for every job
      that was never counted. */
  lemma LoadIsExact(p: Platform, g: Settings)
    requires Occurs(p, g)
    ensures var tr := p.trace;
            RateLimit.Running(tr) ==
            p.limiter.counter + RateLimit.Repeats(tr) + |RateLimit.Committed(tr) - RateLimit.Counted(tr)|
    ensures RateLimit.GenuineEvents(p.trace) && p.limiter.counter <= g.max + g.calls - 1
  {
    var acts :| Performs(acts, p, g);
    PerformsKeeps(acts, p, g);
    OnlyStoredJobsFinish(p, g);
    RateLimit.RunningIsExact(p.trace, p.limiter, g.max, g.calls);
    RateLimit.CounterIsBounded(p.trace, p.limiter, g.max, g.calls);
  }

  /** No job was decremented more than `k` times, and so many jobs run at most. */
  ghost predicate Within(p: Platform, g: Settings, k: nat) {
    && (forall c: nat :: RateLimit.Of(p.trace, RateLimit.Consuming)[c] <= k)
    && RateLimit.Running(p.trace) <= g.max + g.calls - 1 + (k - 1) * |RateLimit.Finished(p.trace)|
                                     + |RateLimit.Committed(p.trace) - RateLimit.Counted(p.trace)|
  }

  /** If no job has more than `runs` runs, and none of these is announced more often than `a`
      times: the bound on the running jobs in terms of the limit alone.  With one run,
      announced and consumed once, it is that of the counter and the jobs never counted. */
  lemma LoadIsBoundedBy(p: Platform, g: Settings, runs: nat, a: nat)
    requires Occurs(p, g) && g.uses >= 1 && runs >= 1 && a >= 1
    requires forall c: nat :: |RunsOf(p, c)| <= runs
    requires forall r :: 0 <= r < |p.world.runs| ==> Announcements(p.world.log, r) <= a
    ensures Within(p, g, g.uses * (a * runs))
  {
    var acts :| Performs(acts, p, g);
    PerformsKeeps(acts, p, g);
    OnlyStoredJobsFinish(p, g);
    forall c: nat ensures RateLimit.Of(p.trace, RateLimit.Consuming)[c] <= g.uses * (a * runs) {
      DecrementsWithin(p, g, c, a, runs);
    }
    Positive(a, runs);
    Positive(g.uses, a * runs);
    EnoughForLoad(p, g, g.uses * (a * runs));
  }

  lemma DecrementsWithin(p: Platform, g: Settings, c: nat, a: nat, runs: nat)
    requires Sound(p, g) && |RunsOf(p, c)| <= runs
    requires forall r :: 0 <= r < |p.world.runs| ==> Announcements(p.world.log, r) <= a
    ensures RateLimit.Of(p.trace, RateLimit.Consuming)[c] <= g.uses * (a * runs)
  {
    DecrementsOfJob(p, g, c, a);
    MonotoneTwice(g.uses, a, |RunsOf(p, c)|, runs);
  }

  lemma MonotoneTwice(u: nat, a: nat, x: nat, y: nat)
    requires x <= y
    ensures u * (a * x) <= u * (a * y)
  {
    Monotone(a, x, y);
    Monotone(u, a * x, a * y);
  }

  lemma EnoughForLoad(p: Platform, g: Settings, k: nat)
    requires Sound(p, g) && g.max >= 1 && g.calls >= 1 && k >= 1 && RateLimit.GenuineEvents(p.trace)
    requires forall c: nat :: RateLimit.Of(p.trace, RateLimit.Consuming)[c] <= k
    ensures Within(p, g, k)
  {
    RateLimit.RunningWithRepeats(p.trace, p.limiter, g.max, g.calls, k);
  }

  lemma Positive(x: nat, y: nat)
    requires x >= 1 && y >= 1
    ensures x * y >= 1
  {
  }

  /** The same in every reachable state, for jobs of at most `runs` runs, and nothing else asked
      of what happens: workers race, crash and repeat themselves, and statements fail. */
  lemma LoadIsBounded(p: Platform, g: Settings, runs: nat)
    requires Occurs(p, g) && g.uses >= 1 && runs >= 1
    requires forall c: nat :: |RunsOf(p, c)| <= runs
    ensures Within(p, g, g.uses * (g.n * runs))
  {
    var acts :| Performs(acts, p, g);
    PerformsKeeps(acts, p, g);
    forall r | 0 <= r < |p.world.runs| ensures Announcements(p.world.log, r) <= g.n {
      AnnouncementsAreBounded(p.world, r);
    }
    LoadIsBoundedBy(p, g, runs, g.n);
  }

  // -- an overload without any fault --------------------------------------------------------

  lemma Perform(p: Platform, a: Act, g: Settings) returns (q: Platform)
    requires Occurs(p, g) && Can(p, a, g)
    ensures Occurs(q, g) && q == Do(p, a, g)
  {
    q := Do(p, a, g);
    var acts :| Performs(acts, p, g);
    var acts' := acts + [a];
    assert acts'[..|acts'| - 1] == acts && acts'[|acts'| - 1] == a;
    assert Performs(acts'[..|acts'| - 1], p, g) && Can(p, acts'[|acts'| - 1], g) && Do(p, acts'[|acts'| - 1], g) == q;
    assert Performs(acts', q, g);
  }

  /** A new call submits a job while no other is in flight. */
  lemma NewJob(p: Platform, n: int, c: nat, maxRetries: int, g: Settings) returns (q: Platform)
    requires Occurs(p, g) && p.limiter == RateLimit.Idle(n) && n < g.max
    requires RateLimit.Of(p.trace, RateLimit.Entering)[c] == 0
    ensures Occurs(q, g) && q.limiter == RateLimit.Idle(n + 1)
    ensures q.world == Next(p.world, SubmitJob(maxRetries)) && q.caller == p.caller + [Some(c)] && q.used == p.used
    ensures q.trace == p.trace + RateLimit.Submission(c, true)
  {
    q := Perform(p, Limit(RateLimit.Enter(c)), g);
    assert q.limiter == RateLimit.Limiter(n, {c}, {}, {});
    q := Perform(q, Limit(RateLimit.Check(c)), g);
    assert q.limiter == RateLimit.Limiter(n, {}, {c}, {});
    q := Perform(q, Submit(c, maxRetries), g);
    assert q.limiter == RateLimit.Limiter(n, {}, {}, {c});
    q := Perform(q, Limit(RateLimit.Increment(c)), g);
  }

  /** The state after a run of the protocol in which one call at a time has submitted each job,
      and nothing was consumed. */
  ghost predicate Fresh(p: Platform, s: World, g: Settings) {
    && Occurs(p, g) && p.world == s && p.limiter == RateLimit.Idle(|s.jobs|) && p.used == multiset{}
    && p.caller == seq(|s.jobs|, j => Some(j))
    && forall c :: c >= |s.jobs| ==> RateLimit.Of(p.trace, RateLimit.Entering)[c] == 0
  }

  lemma LiftSubmit(m: Platform, s: World, maxRetries: int, g: Settings) returns (p: Platform)
    requires Fresh(m, s, g) && |s.jobs| < g.max
    ensures Fresh(p, Next(s, SubmitJob(maxRetries)), g)
  {
    var j := |s.jobs|;
    p := NewJob(m, j, j, maxRetries, g);
    RateLimit.OfSubmission(m.trace, j, true, RateLimit.Entering);
  }

  /** Every run of the protocol with at most `max` jobs can be had within the rate limit. */
  lemma {:induction false} Lift(tr: seq<Step>, g: Settings) returns (p: Platform)
    requires g.n >= 1 && g.max >= 1 && g.calls >= 1
    requires Runs(Init(g.n), tr) && |After(Init(g.n), tr).jobs| <= g.max
    ensures Fresh(p, After(Init(g.n), tr), g)
    decreases |tr|
  {
    if tr == [] {
      p := Empty(g);
      assert Performs([], p, g);
    } else {
      var front, st := tr[..|tr| - 1], tr[|tr| - 1];
      var s := After(Init(g.n), front);
      RunsEvolve(Init(g.n), front);
      StepEvolves(s, st);
      var m := Lift(front, g);
      if st.SubmitJob? {
        p := LiftSubmit(m, s, st.maxRetries, g);
      } else {
        p := Perform(m, Statement(st), g);
      }
    }
  }

  lemma {:induction false} LastAnnouncement(log: seq<Event>, r: nat) returns (e: nat)
    requires Announcements(log, r) > 0
    ensures e < |log| && log[e].Announced? && log[e].run == r
    ensures Announcements(log[..e], r) == Announcements(log, r) - 1
  {
    var m := |log| - 1;
    if log[m].Announced? && log[m].run == r {
      e := m;
    } else {
      e := LastAnnouncement(log[..m], r);
      assert log[..m][..e] == log[..e];
    }
  }

  /** The decrement for event `e` takes effect. */
  lemma Decremented(p: Platform, n: int, e: nat, c: nat, g: Settings) returns (q: Platform)
    requires Occurs(p, g) && p.limiter == RateLimit.Idle(n) && Can(p, Consume(e), g) && EventOf(p, e) == Some(c)
    ensures Occurs(q, g) && q.limiter == RateLimit.Idle(n - 1)
    ensures q.world == p.world && q.caller == p.caller && q.used == p.used + multiset{e}
    ensures q.trace == p.trace + [RateLimit.Decrement(c)]
  {
    q := Perform(p, Consume(e), g);
  }

  /** One job of one run, announced twice by racing workers, and each announcement consumed. */
  lemma TwiceDecremented(g: Settings) returns (p: Platform)
    requires g == Settings(2, 1, 1, 1)
    ensures Occurs(p, g) && Pair(p.world) && p.world.runHist[0].clean && p.limiter == RateLimit.Idle(-1)
    ensures p.caller == [Some(0)] && RateLimit.Of(p.trace, RateLimit.Consuming)[0] >= 2
    ensures forall c :: c >= 1 ==> RateLimit.Of(p.trace, RateLimit.Entering)[c] == 0
  {
    var s := RunIsAnnouncedTwice();
    var tr := RunBetween(Init(2), s);
    p := Lift(tr, g);
    var e := LastAnnouncement(s.log, 0);
    var e' := LastAnnouncement(s.log[..e], 0);
    var q := Decremented(p, 1, e, 0, g);
    var q' := Decremented(q, 0, e', 0, g);
    var st := RateLimit.Decrement(0);
    forall k
      ensures RateLimit.Of(q'.trace, k) == RateLimit.With(RateLimit.With(RateLimit.Of(p.trace, k), st, k), st, k)
    {
      RateLimit.OfAppend(p.trace, st, k);
      RateLimit.OfAppend(q.trace, st, k);
    }
    p := q';
  }

  /** Without any fault, with one call at a time, one run per job and every event consumed once:
      at a limit of one, two jobs run, and all jobs were counted. */
  lemma FaultlessOverload() returns (p: Platform, g: Settings)
    ensures g == Settings(2, 1, 1, 1) && Occurs(p, g)
    ensures |p.world.runs| == |p.world.runHist| == 1 && p.world.runHist[0].clean
    ensures RateLimit.Counted(p.trace) == RateLimit.Committed(p.trace)
    ensures RateLimit.Running(p.trace) == 2 > g.max + g.calls - 1
  {
    g := Settings(2, 1, 1, 1);
    var p0 := TwiceDecremented(g);
    var p1 := NewJob(p0, -1, 1, 0, g);
    forall k ensures RateLimit.Of(p1.trace, k)[2] == RateLimit.Of(p0.trace, k)[2] {
      RateLimit.OfSubmission(p0.trace, 1, true, k);
    }
    p := NewJob(p1, 0, 2, 0, g);
    RateLimit.OfSubmission(p0.trace, 1, true, RateLimit.Consuming);
    RateLimit.OfSubmission(p1.trace, 2, true, RateLimit.Consuming);
    TwoRun(p, g);
  }

  lemma CallersCommitted(p: Platform)
    requires Stored(p) && p.caller == [Some(0), Some(1), Some(2)]
    ensures RateLimit.Committed(p.trace) == {0, 1, 2}
  {
    forall c ensures c in RateLimit.Committed(p.trace) <==> Some(c) in p.caller {
      assert RateLimit.Of(p.trace, RateLimit.Committing)[c] == multiset(p.caller)[Some(c)];
    }
  }

  /** Jobs 1 and 2 have no run, so only job 0 is ever decremented. */
  lemma OnlyFirstFinishes(p: Platform, c: nat)
    requires Consumes(p) && |p.world.runs| == 1 && p.world.runs[0].job == 0 && |p.caller| > 0 && p.caller[0] == Some(0)
    requires RateLimit.Of(p.trace, RateLimit.Consuming)[c] > 0
    ensures c == 0
  {
    var e := UsedEvent(p, c, |p.world.log|);
  }

  lemma TwoRun(p: Platform, g: Settings)
    requires g == Settings(2, 1, 1, 1) && Occurs(p, g) && p.limiter == RateLimit.Idle(1)
    requires p.caller == [Some(0), Some(1), Some(2)] && |p.world.runs| == 1 && p.world.runs[0].job == 0
    requires RateLimit.Of(p.trace, RateLimit.Consuming)[0] >= 2
    ensures RateLimit.Counted(p.trace) == RateLimit.Committed(p.trace) && RateLimit.Running(p.trace) == 2
  {
    var acts :| Performs(acts, p, g);
    PerformsKeeps(acts, p, g);
    CallersCommitted(p);
    forall c: nat | c in RateLimit.Finished(p.trace) ensures c == 0 { OnlyFirstFinishes(p, c); }
    AllAreCounted(p.trace, p.limiter);
  }

  lemma AllAreCounted(tr: seq<RateLimit.Step>, s: RateLimit.Limiter)
    requires RateLimit.Leads(tr, s, 1, 1) && RateLimit.DistinctCalls(tr) && s.counter == 1
    requires RateLimit.Finished(tr) <= {0} && RateLimit.Committed(tr) == {0, 1, 2}
    requires RateLimit.Of(tr, RateLimit.Consuming)[0] >= 2
    ensures RateLimit.Counted(tr) == RateLimit.Committed(tr) && RateLimit.Running(tr) == 2
  {
    assert RateLimit.Committed(tr) - RateLimit.Finished(tr) == {1, 2};
    RateLimit.CounterIsBalance(tr, s, 1, 1);
    var m := RateLimit.Of(tr, RateLimit.Consuming);
    assert |m| == |m[0 := 0]| + m[0];
    var counted := RateLimit.Counted(tr);
    assert |{0, 1, 2} - counted| == 3 - |counted|;
  }
}
