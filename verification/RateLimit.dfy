/** The rate limiter's shared counter under concurrent submissions, and `CreateJob`. */
module RateLimit {
  import opened Faults
  import opened Sequences

  /** The counter of one workspace and the `CreateJob` calls in flight for it: those that have
      not asked the limiter yet, those it let pass that have not committed, and those that have
      committed and not incremented yet. */
  datatype Limiter = Limiter(counter: int, asking: set<nat>, passed: set<nat>, stored: set<nat>)

  datatype Step =
    | Enter(call: nat)
    | Check(call: nat)            // AllowJobSubmission reads the counter
    | CheckError(call: nat)       // Redis does not answer
    | Rollback(call: nat)         // a bad identifier, or the transaction or its commit fails
    | Commit(call: nat)           // the job is stored
    | Unanswered(call: nat)       // the call ends because the commit's answer is lost
    | Increment(call: nat)
    | IncrementError(call: nat)   // the call ends without having counted its job
    | Decrement(call: nat)        // a job.completed event of the job of that call is consumed

  predicate Enabled(s: Limiter, st: Step, calls: nat) {
    match st
    case Enter(c) =>
      && c !in s.asking && c !in s.passed && c !in s.stored
      && |s.asking| + |s.passed| + |s.stored| < calls
    case Check(c) => c in s.asking
    case CheckError(c) => c in s.asking
    case Rollback(c) => c in s.passed
    case Commit(c) => c in s.passed
    case Unanswered(c) => c in s.stored
    case Increment(c) => c in s.stored
    case IncrementError(c) => c in s.stored
    case Decrement(_) => true
  }

  function Next(s: Limiter, st: Step, max: int): Limiter {
    match st
    case Enter(c) => s.(asking := s.asking + {c})
    case Check(c) =>
      if s.counter >= max then s.(asking := s.asking - {c})
      else s.(asking := s.asking - {c}, passed := s.passed + {c})
    case CheckError(c) => s.(asking := s.asking - {c})
    case Rollback(c) => s.(passed := s.passed - {c})
    case Commit(c) => s.(passed := s.passed - {c}, stored := s.stored + {c})
    case Unanswered(c) => s.(stored := s.stored - {c})
    case Increment(c) => s.(counter := s.counter + 1, stored := s.stored - {c})
    case IncrementError(c) => s.(stored := s.stored - {c})
    case Decrement(_) => s.(counter := s.counter - 1)
  }

  const EMPTY := Limiter(0, {}, {}, {})

  /** `ws` are the states that `tr` goes through, with at most `calls` calls in flight. */
  ghost predicate Chain(tr: seq<Step>, ws: seq<Limiter>, max: int, calls: nat) {
    && |ws| == |tr| + 1 && ws[0] == EMPTY
    && forall i {:trigger Enabled(ws[i], tr[i], calls)} :: 0 <= i < |tr| ==>
         Enabled(ws[i], tr[i], calls) && Next(ws[i], tr[i], max) == ws[i + 1]
  }

  /** `tr` leads from the empty limiter to `s`. */
  ghost predicate Leads(tr: seq<Step>, s: Limiter, max: int, calls: nat) {
    exists ws :: Chain(tr, ws, max, calls) && ws[|tr|] == s
  }

  lemma LeadsOn(tr: seq<Step>, m: Limiter, st: Step, max: int, calls: nat)
    requires Leads(tr, m, max, calls) && Enabled(m, st, calls)
    ensures Leads(tr + [st], Next(m, st, max), max, calls)
  {
    var ws :| Chain(tr, ws, max, calls) && ws[|tr|] == m;
    var ws' := ws + [Next(m, st, max)];
    assert Chain(tr + [st], ws', max, calls) by {
      forall i | 0 <= i < |tr + [st]|
        ensures Enabled(ws'[i], (tr + [st])[i], calls) && Next(ws'[i], (tr + [st])[i], max) == ws'[i + 1]
      {
        if i < |tr| { assert Enabled(ws[i], tr[i], calls); }
      }
    }
    assert ws'[|tr + [st]|] == Next(m, st, max);
  }

  lemma {:induction false} ChainIsBounded(tr: seq<Step>, ws: seq<Limiter>, i: nat, max: int, calls: nat)
    requires max >= 1 && calls >= 1 && Chain(tr, ws, max, calls) && i <= |tr|
    ensures ws[i].counter + |ws[i].passed| + |ws[i].stored| <= max + calls - 1
    ensures |ws[i].asking| + |ws[i].passed| + |ws[i].stored| <= calls
  {
    if i > 0 {
      ChainIsBounded(tr, ws, i - 1, max, calls);
      var m, st := ws[i - 1], tr[i - 1];
      assert Enabled(m, st, calls);
      if st.Check? { assert |m.asking| == |m.asking - {st.call}| + 1; }
      if st.Commit? { assert |m.passed| == |m.passed - {st.call}| + 1; }
    }
  }

  /** With at most `calls` concurrent submissions, the counter together with the calls about to
      increment it never exceeds `max + calls - 1`, whatever fails or completes. */
  lemma CounterIsBounded(tr: seq<Step>, s: Limiter, max: int, calls: nat)
    requires max >= 1 && calls >= 1 && Leads(tr, s, max, calls)
    ensures s.counter + |s.passed| + |s.stored| <= max + calls - 1
    ensures |s.asking| + |s.passed| + |s.stored| <= calls
  {
    var ws :| Chain(tr, ws, max, calls) && ws[|tr|] == s;
    ChainIsBounded(tr, ws, |tr|, max, calls);
  }

  /** One call at a time keeps the counter within `max` exactly. */
  lemma SequentialCallsRespectMax(tr: seq<Step>, s: Limiter, max: int)
    requires max >= 1 && Leads(tr, s, max, 1)
    ensures s.counter <= max
  {
    CounterIsBounded(tr, s, max, 1);
  }

  // -- how many jobs are running ----------------------------------------------------------

  datatype Kind = Entering | Committing | Counting | Consuming

  predicate Is(st: Step, k: Kind) {
    match k
    case Entering => st.Enter?
    case Committing => st.Commit?
    case Counting => st.Increment?
    case Consuming => st.Decrement?
  }

  function With(m: multiset<nat>, st: Step, k: Kind): multiset<nat> {
    if Is(st, k) then m + multiset{st.call} else m
  }

  /** The calls of the steps of one kind, as often as they occur. */
  function Of(tr: seq<Step>, k: Kind): multiset<nat> {
    if tr == [] then multiset{} else With(Of(tr[..|tr| - 1], k), tr[|tr| - 1], k)
  }

  function Elements(m: multiset<nat>): set<nat> {
    set x | x in m
  }

  /** The calls whose job is stored; a job runs from then on. */
  function Committed(tr: seq<Step>): set<nat> {
    Elements(Of(tr, Committing))
  }

  /** Those whose job was counted. */
  function Counted(tr: seq<Step>): set<nat> {
    Elements(Of(tr, Counting))
  }

  /** Those of whose job at least one job.completed event was consumed. */
  function Finished(tr: seq<Step>): set<nat> {
    Elements(Of(tr, Consuming))
  }

  /** The jobs that are stored and of which no job.completed event was consumed. */
  function Running(tr: seq<Step>): nat {
    |Committed(tr) - Finished(tr)|
  }

  /** How many events were consumed beyond the first of each job. */
  function Repeats(tr: seq<Step>): int {
    |Of(tr, Consuming)| - |Finished(tr)|
  }

  /** No two calls have the same identifier. */
  ghost predicate DistinctCalls(tr: seq<Step>) {
    forall c :: Of(tr, Entering)[c] <= 1
  }

  /** Every event that was consumed is of a job that is stored. */
  predicate GenuineEvents(tr: seq<Step>) {
    Finished(tr) <= Committed(tr)
  }

  /** Where call `c` stands: 1 if it is there. */
  function There(c: nat, s: set<nat>): nat {
    if c in s then 1 else 0
  }

  lemma OfLast(tr: seq<Step>, i: nat, k: Kind)
    requires 0 < i <= |tr|
    ensures Of(tr[..i], k) == With(Of(tr[..i - 1], k), tr[i - 1], k)
  {
    assert tr[..i][..i - 1] == tr[..i - 1];
  }

  /** Call `c` has entered `e` times, committed `co` times and counted `cn` times. */
  predicate Accounts(s: Limiter, c: nat, e: nat, co: nat, cn: nat) {
    && There(c, s.asking) + There(c, s.passed) + There(c, s.stored) <= 1
    && There(c, s.asking) + There(c, s.passed) + co <= e
    && There(c, s.stored) + cn <= co
  }

  function Once(st: Step, k: Kind, c: nat): nat {
    if Is(st, k) && st.call == c then 1 else 0
  }

  lemma AccountsNext(s: Limiter, st: Step, max: int, calls: nat, c: nat, e: nat, co: nat, cn: nat)
    requires Enabled(s, st, calls) && Accounts(s, c, e, co, cn)
    ensures Accounts(Next(s, st, max), c, e + Once(st, Entering, c), co + Once(st, Committing, c),
              cn + Once(st, Counting, c))
  {
  }

  /** A call commits once and counts once for every time it entered, and counts only what it has
      committed. */
  lemma {:induction false} ChainOfCall(tr: seq<Step>, ws: seq<Limiter>, i: nat, max: int, calls: nat, c: nat)
    requires Chain(tr, ws, max, calls) && i <= |tr|
    ensures Accounts(ws[i], c, Of(tr[..i], Entering)[c], Of(tr[..i], Committing)[c], Of(tr[..i], Counting)[c])
  {
    if i > 0 {
      var t, st := tr[..i - 1], tr[i - 1];
      ChainOfCall(tr, ws, i - 1, max, calls, c);
      assert Enabled(ws[i - 1], st, calls);
      AccountsNext(ws[i - 1], st, max, calls, c, Of(t, Entering)[c], Of(t, Committing)[c], Of(t, Counting)[c]);
      forall k ensures Of(tr[..i], k)[c] == Of(t, k)[c] + Once(st, k, c) { OfLast(tr, i, k); }
    }
  }

  lemma WithSize(m: multiset<nat>, st: Step, k: Kind)
    ensures |With(m, st, k)| == |m| + if Is(st, k) then 1 else 0
  {
  }

  lemma {:induction false} ChainCounts(tr: seq<Step>, ws: seq<Limiter>, i: nat, max: int, calls: nat)
    requires Chain(tr, ws, max, calls) && i <= |tr|
    ensures ws[i].counter == |Of(tr[..i], Counting)| - |Of(tr[..i], Consuming)|
  {
    if i > 0 {
      ChainCounts(tr, ws, i - 1, max, calls);
      assert Enabled(ws[i - 1], tr[i - 1], calls);
      OfLast(tr, i, Counting);
      OfLast(tr, i, Consuming);
      WithSize(Of(tr[..i - 1], Counting), tr[i - 1], Counting);
      WithSize(Of(tr[..i - 1], Consuming), tr[i - 1], Consuming);
    }
  }

  lemma {:induction false} MultisetSize(m: multiset<nat>, n: nat)
    requires forall x :: m[x] <= n
    ensures |Elements(m)| <= |m| <= n * |Elements(m)|
    decreases |m|
  {
    if x :| x in m {
      var rest := m[x := 0];
      assert Elements(rest) == Elements(m) - {x};
      MultisetSize(rest, n);
      assert |m| == |rest| + m[x];
      assert n * |Elements(m)| == n * |Elements(rest)| + n;
    } else {
      assert m == multiset{} && Elements(m) == {};
    }
  }

  /** The counter is the number of counted jobs less that of consumed events, and only stored
      jobs are counted. */
  lemma CounterIsBalance(tr: seq<Step>, s: Limiter, max: int, calls: nat)
    requires Leads(tr, s, max, calls) && DistinctCalls(tr)
    ensures s.counter == |Counted(tr)| - |Of(tr, Consuming)|
    ensures Counted(tr) <= Committed(tr)
  {
    var ws :| Chain(tr, ws, max, calls) && ws[|tr|] == s;
    ChainCounts(tr, ws, |tr|, max, calls);
    assert tr[..|tr|] == tr;
    forall c ensures Of(tr, Counting)[c] <= Of(tr, Committing)[c] <= 1 {
      if c >= 0 { ChainOfCall(tr, ws, |tr|, max, calls, c); }
    }
    MultisetSize(Of(tr, Counting), 1);
  }

  lemma Overlap(a: set<nat>, b: set<nat>)
    ensures |a - b| == |a| - |b| + |b - a|
  {
    assert a == (a - b) + (a * b) && b == (b - a) + (a * b);
  }

  /** Exactly how many jobs run: as many as the counter says, and besides one for every repeated
      event, for every stored job that was never counted, and for every finished job that was
      never stored; and how many of them are counted. */
  lemma RunningIsExact(tr: seq<Step>, s: Limiter, max: int, calls: nat)
    requires Leads(tr, s, max, calls) && DistinctCalls(tr)
    ensures Running(tr) ==
            s.counter + Repeats(tr) + |Committed(tr) - Counted(tr)| + |Finished(tr) - Committed(tr)|
    ensures GenuineEvents(tr) ==> Running(tr) == s.counter + Repeats(tr) + |Committed(tr) - Counted(tr)|
    ensures |Counted(tr) - Finished(tr)| == s.counter + Repeats(tr) + |Finished(tr) - Counted(tr)|
  {
    CounterIsBalance(tr, s, max, calls);
    Overlap(Counted(tr), Finished(tr));
    Overlap(Committed(tr), Finished(tr));
    Overlap(Committed(tr), Counted(tr));
    assert Counted(tr) - Committed(tr) == {};
    if GenuineEvents(tr) { assert Finished(tr) - Committed(tr) == {}; }
  }

  /** So the number of running jobs exceeds the bound of the counter exactly if there are more of
      these than the counter leaves room for. */
  lemma RunningExceedsIff(tr: seq<Step>, s: Limiter, max: int, calls: nat)
    requires max >= 1 && calls >= 1 && Leads(tr, s, max, calls) && DistinctCalls(tr) && GenuineEvents(tr)
    ensures Running(tr) > max + calls - 1 <==>
              Repeats(tr) + |Committed(tr) - Counted(tr)| > max + calls - 1 - s.counter
    ensures s.counter <= max + calls - 1 - |s.passed| - |s.stored|
    ensures Repeats(tr) == 0 && Counted(tr) == Committed(tr) ==> Running(tr) <= max + calls - 1
  {
    RunningIsExact(tr, s, max, calls);
    CounterIsBounded(tr, s, max, calls);
    if Counted(tr) == Committed(tr) { assert Committed(tr) - Counted(tr) == {}; }
  }

  /** If at most `n` events are consumed for every job, at most `n - 1` more jobs run for each
      finished one, and one for each that was never counted. */
  lemma RunningWithRepeats(tr: seq<Step>, s: Limiter, max: int, calls: nat, n: nat)
    requires max >= 1 && calls >= 1 && n >= 1 && Leads(tr, s, max, calls) && DistinctCalls(tr) && GenuineEvents(tr)
    requires forall c :: Of(tr, Consuming)[c] <= n
    ensures Running(tr) <= max + calls - 1 + (n - 1) * |Finished(tr)| + |Committed(tr) - Counted(tr)|
  {
    RunningIsExact(tr, s, max, calls);
    CounterIsBounded(tr, s, max, calls);
    MultisetSize(Of(tr, Consuming), n);
    assert (n - 1) * |Finished(tr)| == n * |Finished(tr)| - |Finished(tr)|;
  }

  lemma OfAppend(tr: seq<Step>, st: Step, k: Kind)
    ensures Of(tr + [st], k) == With(Of(tr, k), st, k)
  {
    assert (tr + [st])[..|tr|] == tr;
  }

  lemma Extend(tr: seq<Step>, s: Limiter, st: Step, s': Limiter, max: int) returns (tr': seq<Step>)
    requires Leads(tr, s, max, 1) && Enabled(s, st, 1) && Next(s, st, max) == s'
    ensures tr' == tr + [st] && Leads(tr', s', max, 1)
  {
    tr' := tr + [st];
    LeadsOn(tr, s, st, max, 1);
  }

  function Idle(counter: int): Limiter {
    Limiter(counter, {}, {}, {})
  }

  /** The steps of one submission that stores its job, and counts it or not. */
  function Submission(c: nat, counted: bool): seq<Step> {
    [Enter(c), Check(c), Commit(c), if counted then Increment(c) else IncrementError(c)]
  }

  lemma Submit(tr: seq<Step>, n: int, c: nat, counted: bool, max: int)
    requires Leads(tr, Idle(n), max, 1) && n < max
    ensures Leads(tr + Submission(c, counted), Idle(if counted then n + 1 else n), max, 1)
  {
    var s1, s2, s3 := Limiter(n, {c}, {}, {}), Limiter(n, {}, {c}, {}), Limiter(n, {}, {}, {c});
    var tr1 := Extend(tr, Idle(n), Enter(c), s1, max);
    var tr2 := Extend(tr1, s1, Check(c), s2, max);
    var tr3 := Extend(tr2, s2, Commit(c), s3, max);
    if counted {
      var tr4 := Extend(tr3, s3, Increment(c), Idle(n + 1), max);
      assert tr4 == tr + Submission(c, counted);
    } else {
      var tr4 := Extend(tr3, s3, IncrementError(c), Idle(n), max);
      assert tr4 == tr + Submission(c, counted);
    }
  }

  /** Whether such a submission has a step of kind `k`. */
  predicate Covers(counted: bool, k: Kind) {
    k.Entering? || k.Committing? || (k.Counting? && counted)
  }

  lemma OfSubmission(tr: seq<Step>, c: nat, counted: bool, k: Kind)
    ensures forall x ::
              Of(tr + Submission(c, counted), k)[x] == Of(tr, k)[x] + if x == c && Covers(counted, k) then 1 else 0
  {
    var sub := Submission(c, counted);
    var tr1 := tr + [sub[0]];
    var tr2 := tr1 + [sub[1]];
    var tr3 := tr2 + [sub[2]];
    assert tr3 + [sub[3]] == tr + sub;
    OfAppend(tr, sub[0], k);
    OfAppend(tr1, sub[1], k);
    OfAppend(tr2, sub[2], k);
    OfAppend(tr3, sub[3], k);
  }

  /** `m` submissions, none of them counted. */
  function Uncounted(m: nat): seq<Step> {
    if m == 0 then [] else Uncounted(m - 1) + Submission(m - 1, false)
  }

  lemma {:induction false} UncountedLeads(m: nat, max: int)
    requires max >= 1
    ensures Leads(Uncounted(m), EMPTY, max, 1)
  {
    if m == 0 {
      assert Chain([], [EMPTY], max, 1);
    } else {
      UncountedLeads(m - 1, max);
      Submit(Uncounted(m - 1), 0, m - 1, false, max);
    }
  }

  lemma {:induction false} OfUncounted(m: nat, k: Kind)
    ensures forall c :: Of(Uncounted(m), k)[c] == if 0 <= c < m && Covers(false, k) then 1 else 0
  {
    if m > 0 {
      OfUncounted(m - 1, k);
      OfSubmission(Uncounted(m - 1), m - 1, false, k);
    }
  }

  /** The limiter bounds the counter and not the jobs: with one call at a time, and without any
      event, any number of jobs can run when their increments fail. */
  lemma UncountedJobsAreUnbounded(max: int, m: nat) returns (tr: seq<Step>)
    requires max >= 1
    ensures Leads(tr, EMPTY, max, 1) && DistinctCalls(tr)
    ensures Of(tr, Consuming) == multiset{} && Running(tr) == m
  {
    tr := Uncounted(m);
    UncountedLeads(m, max);
    OfUncounted(m, Entering);
    OfUncounted(m, Committing);
    OfUncounted(m, Consuming);
    RangeSize(m);
    assert Committed(tr) - Finished(tr) == Range(0, m);
  }

  /** A job whose increment failed finishes, and then two jobs run. */
  function Finishing(): seq<Step> {
    [] + Submission(0, false) + [Decrement(0)]
  }

  function Overlapping(): seq<Step> {
    Finishing() + Submission(1, true) + Submission(2, true)
  }

  lemma OverlappingLeads()
    ensures Leads(Overlapping(), Idle(1), 1, 1)
  {
    assert Chain([], [EMPTY], 1, 1);
    Submit([], 0, 0, false, 1);
    var tr := Extend([] + Submission(0, false), Idle(0), Decrement(0), Idle(-1), 1);
    assert tr == Finishing();
    Submit(tr, -1, 1, true, 1);
    Submit(tr + Submission(1, true), 0, 2, true, 1);
  }

  lemma OfOverlapping(k: Kind, x: nat)
    ensures Of(Overlapping(), k)[x] ==
            if x > 2 || (k.Consuming? && x > 0) || (k.Counting? && x == 0) then 0 else 1
  {
    var tr := Finishing();
    OfSubmission([], 0, false, k);
    OfAppend([] + Submission(0, false), Decrement(0), k);
    OfSubmission(tr, 1, true, k);
    OfSubmission(tr + Submission(1, true), 2, true, k);
  }

  lemma CallsOfOverlapping()
    ensures var tr := Overlapping();
            && DistinctCalls(tr) && Committed(tr) == {0, 1, 2} && Finished(tr) == {0} && Counted(tr) == {1, 2}
  {
    forall k, x: nat
      ensures Of(Overlapping(), k)[x] ==
              if x > 2 || (k.Consuming? && x > 0) || (k.Counting? && x == 0) then 0 else 1
    {
      OfOverlapping(k, x);
    }
  }

  /** Even the one event of a job whose increment failed lets two jobs run at a limit of one,
      although each of the two is counted. */
  lemma UncountedEventLetsTwoRun() returns (tr: seq<Step>)
    ensures Leads(tr, Idle(1), 1, 1) && DistinctCalls(tr) && GenuineEvents(tr) && Repeats(tr) == 0
    ensures Running(tr) == 2 == |Counted(tr) - Finished(tr)|
  {
    tr := Overlapping();
    OverlappingLeads();
    CallsOfOverlapping();
    assert {0, 1, 2} - {0} == {1, 2} == {1, 2} - {0};
    RunningIsExact(tr, Idle(1), 1, 1);
    assert {0, 1, 2} - {1, 2} == {0};
  }

  // -- the bound is attained --

  function Range(lo: nat, hi: nat): (s: set<nat>)
    ensures forall i :: i in s <==> lo <= i < hi
    decreases hi - lo
  {
    if lo >= hi then {} else Range(lo + 1, hi) + {lo}
  }

  ghost predicate Attainable(s: Limiter, max: int, calls: nat) {
    exists tr :: Leads(tr, s, max, calls)
  }

  lemma AttainNext(s: Limiter, st: Step, s': Limiter, max: int, calls: nat)
    requires Attainable(s, max, calls) && Enabled(s, st, calls) && s' == Next(s, st, max)
    ensures Attainable(s', max, calls)
  {
    var tr :| Leads(tr, s, max, calls);
    LeadsOn(tr, s, st, max, calls);
  }

  /** `n` calls have entered, `k` of them are let pass, `i` of these have committed, and `j` of
      these have incremented. */
  function Midway(counter: int, n: nat, k: nat, i: nat, j: nat): Limiter
    requires j <= i <= k <= n
  {
    Limiter(counter + j, Range(k, n), Range(i, k), Range(j, i))
  }

  lemma {:induction false} RangeSize(k: nat)
    ensures |Range(0, k)| == k
  {
    if k == 0 {
      assert Range(0, 0) == {};
    } else {
      RangeSize(k - 1);
      assert Range(0, k) == Range(0, k - 1) + {k - 1};
    }
  }

  lemma EnterOne(counter: int, n: nat, max: int, calls: nat)
    requires n < calls && Attainable(Midway(counter, n, 0, 0, 0), max, calls)
    ensures Attainable(Midway(counter, n + 1, 0, 0, 0), max, calls)
  {
    RangeSize(n);
    assert Range(0, 0) == {};
    assert Range(0, n) + {n} == Range(0, n + 1);
    AttainNext(Midway(counter, n, 0, 0, 0), Enter(n), Midway(counter, n + 1, 0, 0, 0), max, calls);
  }

  lemma CheckOne(counter: int, n: nat, k: nat, max: int, calls: nat)
    requires k < n && counter < max && Attainable(Midway(counter, n, k, 0, 0), max, calls)
    ensures Attainable(Midway(counter, n, k + 1, 0, 0), max, calls)
  {
    assert Range(k, n) - {k} == Range(k + 1, n);
    assert Range(0, k) + {k} == Range(0, k + 1);
    AttainNext(Midway(counter, n, k, 0, 0), Check(k), Midway(counter, n, k + 1, 0, 0), max, calls);
  }

  lemma CommitOne(counter: int, n: nat, i: nat, max: int, calls: nat)
    requires i < n && Attainable(Midway(counter, n, n, i, 0), max, calls)
    ensures Attainable(Midway(counter, n, n, i + 1, 0), max, calls)
  {
    assert Range(i, n) - {i} == Range(i + 1, n);
    assert Range(0, i) + {i} == Range(0, i + 1);
    AttainNext(Midway(counter, n, n, i, 0), Commit(i), Midway(counter, n, n, i + 1, 0), max, calls);
  }

  lemma IncrementOne(counter: int, n: nat, j: nat, max: int, calls: nat)
    requires j < n && Attainable(Midway(counter, n, n, n, j), max, calls)
    ensures Attainable(Midway(counter, n, n, n, j + 1), max, calls)
  {
    assert Range(j, n) - {j} == Range(j + 1, n);
    AttainNext(Midway(counter, n, n, n, j), Increment(j), Midway(counter, n, n, n, j + 1), max, calls);
  }

  /** `n` calls enter together, `k` of them are let pass, then `i` commit, and then `j`
      increment. */
  lemma {:induction false} Burst(counter: int, n: nat, k: nat, i: nat, j: nat, max: int, calls: nat)
    requires Attainable(Midway(counter, 0, 0, 0, 0), max, calls) && counter < max
    requires j <= i <= k <= n <= calls && (i > 0 ==> k == n) && (j > 0 ==> i == n)
    ensures Attainable(Midway(counter, n, k, i, j), max, calls)
    decreases n + k + i + j
  {
    if j > 0 {
      Burst(counter, n, k, i, j - 1, max, calls);
      IncrementOne(counter, n, j - 1, max, calls);
    } else if i > 0 {
      Burst(counter, n, k, i - 1, 0, max, calls);
      CommitOne(counter, n, i - 1, max, calls);
    } else if k > 0 {
      Burst(counter, n, k - 1, 0, 0, max, calls);
      CheckOne(counter, n, k - 1, max, calls);
    } else if n > 0 {
      Burst(counter, n - 1, 0, 0, 0, max, calls);
      EnterOne(counter, n - 1, max, calls);
    }
  }

  lemma {:induction false} OneByOne(k: nat, max: int, calls: nat)
    requires k < max && calls >= 1
    ensures Attainable(Midway(k, 0, 0, 0, 0), max, calls)
  {
    if k == 0 {
      assert Chain([], [EMPTY], max, calls);
      assert Leads([], EMPTY, max, calls);
    } else {
      OneByOne(k - 1, max, calls);
      Burst(k - 1, 1, 1, 1, 1, max, calls);
      assert Midway(k - 1, 1, 1, 1, 1) == Midway(k, 0, 0, 0, 0);
    }
  }

  /** The bound cannot be improved, for any limit and any degree of concurrency: check and
      increment are two steps. */
  lemma BoundIsTight(max: int, calls: nat)
    requires max >= 1 && calls >= 1
    ensures Attainable(Limiter(max + calls - 1, {}, {}, {}), max, calls)
  {
    OneByOne(max - 1, max, calls);
    Burst(max - 1, calls, calls, calls, calls, max, calls);
  }

  // -- CreateJob ------------------------------------------------------------------------

  datatype Result =
    | Created(job: nat)
    | NotCounted(job: nat)              // an error, although the job is committed
    | CommitFailed                      // an error, but the commit may have taken effect
    | TransactionFailed                 // an error before the commit
    | LimitExceeded
    | CheckFailed
    | BadIdentifier

  /** A row of `jobs`; `call` is the `CreateJob` call that stored it. */
  datatype JobRecord = JobRecord(key: string, call: nat)

  /** How the calls to Redis and to the database fare. */
  datatype Luck = Luck(check: bool, identifiers: bool, begin: bool, insertJob: bool, insertEvent: bool,
                       commit: Outcome, increment: Outcome)

  const NO_FAULT := Luck(true, true, true, true, true, Done, Done)

  /** How the transaction ended. */
  datatype Ending = Answered(job: nat) | NoAnswer | RolledBack

  ghost predicate OfCall(st: Step, call: nat) {
    !st.Decrement? && st.call == call
  }

  /** The steps of one call, in order. */
  ghost function StepsOf(tr: seq<Step>, call: nat): seq<Step> {
    if tr == [] then []
    else
      var m := |tr| - 1;
      StepsOf(tr[..m], call) + if OfCall(tr[m], call) then [tr[m]] else []
  }

  /** What a call whose commit took effect does to the limiter at its end. */
  ghost function LastStep(r: Result, luck: Luck, call: nat): Step {
    match r
    case Created(_) => Increment(call)
    case NotCounted(_) => if luck.increment.Unsure? then Increment(call) else IncrementError(call)
    case _ => Unanswered(call)
  }

  /** The call has stored a job. */
  predicate Stores(r: Result, luck: Luck) {
    r.Created? || r.NotCounted? || (r.CommitFailed? && luck.commit.Unsure?)
  }

  /** What a call that the limiter let pass does to it. */
  ghost function PassedSteps(r: Result, luck: Luck, call: nat): seq<Step> {
    if Stores(r, luck) then [Commit(call)] + [LastStep(r, luck, call)] else [Rollback(call)]
  }

  /** What a call that ends with `r` has done to the limiter after it entered. */
  ghost function StepsTo(r: Result, luck: Luck, call: nat): seq<Step> {
    match r
    case LimitExceeded => [Check(call)]
    case CheckFailed => [CheckError(call)]
    case _ => [Check(call)] + PassedSteps(r, luck, call)
  }

  /** The calls that stored the rows. */
  ghost function CallsOf(jobs: seq<JobRecord>): multiset<nat> {
    if jobs == [] then multiset{} else CallsOf(jobs[..|jobs| - 1]) + multiset{jobs[|jobs| - 1].call}
  }

  class JobService {
    const maxRunningJobs: int
    ghost const calls: nat               // how many calls run at a time, at most
    var counter: int
    var jobs: seq<JobRecord>
    var outbox: seq<nat>                 // the job each event is about
    ghost var asking: set<nat>
    ghost var passed: set<nat>
    ghost var stored: set<nat>
    ghost var trace: seq<Step>

    /** Every job has its event, no idempotency key is used twice, and the trace accounts for
        the counter, for the calls in flight and for the jobs. */
    ghost predicate Valid()
      reads this
    {
      && maxRunningJobs >= 1 && calls >= 1
      && |outbox| == |jobs| && (forall i :: 0 <= i < |jobs| ==> outbox[i] == i)
      && (forall i, j :: 0 <= i < j < |jobs| && jobs[i].key != "" ==> jobs[i].key != jobs[j].key)
      && Leads(trace, Limiter(counter, asking, passed, stored), maxRunningJobs, calls)
      && Of(trace, Committing) == CallsOf(jobs)
    }

    ghost predicate InFlight(call: nat)
      reads this
    {
      call in asking || call in passed || call in stored
    }

    constructor (maxRunningJobs: int, ghost calls: nat)
      requires maxRunningJobs >= 1 && calls >= 1
      ensures Valid() && jobs == [] && counter == 0
      ensures this.maxRunningJobs == maxRunningJobs && this.calls == calls
    {
      this.maxRunningJobs, this.calls := maxRunningJobs, calls;
      counter, jobs, outbox := 0, [], [];
      asking, passed, stored, trace := {}, {}, {}, [];
      assert Chain([], [EMPTY], maxRunningJobs, calls);
    }

    /** Any steps of other calls and of the consumer of job.completed.  Doing nothing is one way
        to keep this contract; callers rely on the contract alone. */
    method Interfere(ghost call: nat)
      requires Valid()
      modifies this
      ensures Valid() && old(jobs) <= jobs && old(trace) <= trace
      ensures (call in asking <==> call in old(asking)) && (call in passed <==> call in old(passed))
      ensures call in stored <==> call in old(stored)
      ensures StepsOf(trace, call) == old(StepsOf(trace, call))
      ensures forall i :: |old(jobs)| <= i < |jobs| ==> jobs[i].call != call
    {
    }

    /** Adds `st` to the trace: the caller has changed, or is about to change, the counter or the
        jobs. */
    ghost method Note(st: Step)
      requires Leads(trace, Limiter(counter, asking, passed, stored), maxRunningJobs, calls)
      requires Enabled(Limiter(counter, asking, passed, stored), st, calls)
      modifies this`asking, this`passed, this`stored, this`trace
      ensures trace == old(trace) + [st]
      ensures forall c :: StepsOf(trace, c) == old(StepsOf(trace, c)) + (if OfCall(st, c) then [st] else [])
      ensures Of(trace, Committing) == With(old(Of(trace, Committing)), st, Committing)
      ensures var s := Next(Limiter(counter, old(asking), old(passed), old(stored)), st, maxRunningJobs);
              && asking == s.asking && passed == s.passed && stored == s.stored
              && Leads(trace, s, maxRunningJobs, calls)
    {
      var s := Next(Limiter(counter, asking, passed, stored), st, maxRunningJobs);
      LeadsOn(trace, Limiter(counter, asking, passed, stored), st, maxRunningJobs, calls);
      OfAppend(trace, st, Committing);
      assert (trace + [st])[..|trace|] == trace;
      asking, passed, stored, trace := s.asking, s.passed, s.stored, trace + [st];
    }

    method AllowJobSubmission() returns (allowed: bool)
      ensures allowed <==> counter < maxRunningJobs
    {
      return !(counter >= maxRunningJobs);
    }

    /** The UNIQUE constraint on `idempotency_key`; the empty key is stored as NULL. */
    method KeyIsFree(key: string) returns (free: bool)
      ensures free <==> key == "" || forall i :: 0 <= i < |jobs| ==> jobs[i].key != key
    {
      if key == "" { return true; }
      for i := 0 to |jobs|
        invariant forall k :: 0 <= k < i ==> jobs[k].key != key
      {
        if jobs[i].key == key { return false; }
      }
      return true;
    }

    ghost predicate KeyInUse(rows: seq<JobRecord>, key: string) {
      key != "" && exists i :: 0 <= i < |rows| && rows[i].key == key
    }

    /** The transaction.  Its inserts go to a draft that other calls do not see; the commit makes
        the draft the tables, and without a commit it is dropped. */
    method Store(key: string, luck: Luck, call: nat) returns (end: Ending)
      requires Valid() && call in passed && call !in asking && call !in stored
      modifies this`jobs, this`outbox, this`asking, this`passed, this`stored, this`trace
      ensures Valid() && call !in asking
      ensures end.RolledBack? <==>
                !luck.begin || !luck.insertJob || !luck.insertEvent || KeyInUse(old(jobs), key)
      ensures !end.RolledBack? ==> end == if luck.commit.Done? then Answered(|old(jobs)|) else NoAnswer
      ensures if end.Answered? || (end.NoAnswer? && luck.commit.Unsure?)
              then && jobs == old(jobs) + [JobRecord(key, call)] && outbox == old(outbox) + [|old(jobs)|]
                   && call in stored && call !in passed
                   && StepsOf(trace, call) == old(StepsOf(trace, call)) + [Commit(call)]
              else && jobs == old(jobs) && outbox == old(outbox)
                   && call in passed && call !in stored && StepsOf(trace, call) == old(StepsOf(trace, call))
    {
      if !luck.begin { return RolledBack; }
      var draftJobs, draftOutbox := jobs, outbox;
      var free := KeyIsFree(key);
      if !luck.insertJob || !free { return RolledBack; }
      var job := |draftJobs|;
      draftJobs := draftJobs + [JobRecord(key, call)];
      if !luck.insertEvent { return RolledBack; }
      draftOutbox := draftOutbox + [job];
      if !luck.commit.Lost? {
        assert draftJobs[..|draftJobs| - 1] == jobs;
        jobs, outbox := draftJobs, draftOutbox;
        Note(Commit(call));
      }
      end := if luck.commit.Done? then Answered(job) else NoAnswer;
    }

    /** From the check to the end of a submission; the call has entered. */
    method Submit(call: nat, key: string, luck: Luck) returns (r: Result)
      requires Valid() && call in asking && call !in passed && call !in stored
      modifies this
      ensures Valid() && !InFlight(call)
      ensures StepsOf(trace, call) == old(StepsOf(trace, call)) + StepsTo(r, luck, call)
      ensures Leaves(r, old(jobs), call, key, luck) && Explains(luck, r, key)
    {
      ghost var steps := StepsOf(trace, call);
      if !luck.check {
        Note(CheckError(call));
        return CheckFailed;
      }
      Note(Check(call));
      var allowed := AllowJobSubmission();
      if !allowed { return LimitExceeded; }
      r := StoreAndCount(call, key, luck);
      Assoc(steps, [Check(call)], PassedSteps(r, luck, call));
    }

    /** The call has stored row `i`. */
    ghost predicate Stored(i: nat, before: seq<JobRecord>, call: nat, key: string)
      reads this
    {
      |before| <= i < |jobs| && jobs[i] == JobRecord(key, call) && !KeyInUse(before, key)
    }

    /** What must have happened in a submission for it to end with `r`: each failure has its
        result, in the order of the source, and the limit and a key in use have theirs. */
    ghost predicate Explains(luck: Luck, r: Result, key: string)
      reads this
    {
      && (r.CheckFailed? <==> !luck.check)
      && (r.BadIdentifier? ==> !luck.identifiers) && (r.LimitExceeded? ==> luck.check)
      && (luck.check && !luck.identifiers ==> r.BadIdentifier? || r.LimitExceeded?)
      && (luck.check && luck.identifiers && !(luck.begin && luck.insertJob && luck.insertEvent) ==>
            r.TransactionFailed? || r.LimitExceeded?)
      && (r.TransactionFailed? ==>
            !luck.begin || !luck.insertJob || !luck.insertEvent || KeyInUse(jobs, key))
      && (r.CommitFailed? ==> !luck.commit.Done?)
      && (r.NotCounted? ==> luck.commit.Done? && !luck.increment.Done?)
      && (r.Created? ==> luck.commit.Done? && luck.increment.Done?)
    }

    /** What a submission that ends with `r` leaves behind, since `before`: its job and event
        exactly if it was committed, once, and under a key that was not in use. */
    ghost predicate Leaves(r: Result, before: seq<JobRecord>, call: nat, key: string, luck: Luck)
      reads this
    {
      && before <= jobs
      && (forall i, k :: |before| <= i < |jobs| && |before| <= k < |jobs| && jobs[i].call == jobs[k].call == call ==>
            i == k)
      && ((exists i :: |before| <= i < |jobs| && jobs[i].call == call) <==>
            Stores(r, luck))
      && (forall i :: |before| <= i < |jobs| && jobs[i].call == call ==> Stored(i, before, call, key))
      && (r.Created? || r.NotCounted? ==> Stored(r.job, before, call, key))
      && (r.LimitExceeded? ==> counter >= maxRunningJobs)
    }

    /** The row at `|rows|` is the one that the call has stored. */
    lemma LeavesItsRow(r: Result, rows: seq<JobRecord>, call: nat, key: string, luck: Luck)
      requires rows + [JobRecord(key, call)] <= jobs && !KeyInUse(rows, key)
      requires forall i :: |rows| < i < |jobs| ==> jobs[i].call != call
      requires Stores(r, luck) && (r.Created? || r.NotCounted? ==> r.job == |rows|)
      ensures Leaves(r, rows, call, key, luck)
    {
      assert Stored(|rows|, rows, call, key);
    }

    /** What other calls store before the submission makes no difference. */
    lemma LeavesSince(r: Result, before: seq<JobRecord>, rows: seq<JobRecord>, call: nat, key: string, luck: Luck)
      requires Leaves(r, rows, call, key, luck) && before <= rows
      requires forall i :: |before| <= i < |rows| ==> rows[i].call != call
      ensures Leaves(r, before, call, key, luck)
    {
      forall i | |before| <= i < |rows| ensures jobs[i].call != call { assert jobs[i] == rows[i]; }
      forall i | |rows| <= i < |jobs| && jobs[i].call == call
        ensures Stored(i, before, call, key)
      {
        assert Stored(i, rows, call, key);
      }
    }

    /** The rest of a submission that the limiter let pass. */
    method StoreAndCount(call: nat, key: string, luck: Luck) returns (r: Result)
      requires Valid() && call in passed && call !in asking && call !in stored && luck.check
      modifies this
      ensures Valid() && !InFlight(call)
      ensures StepsOf(trace, call) == old(StepsOf(trace, call)) + PassedSteps(r, luck, call)
      ensures Leaves(r, old(jobs), call, key, luck) && Explains(luck, r, key) && !r.LimitExceeded?
    {
      Interfere(call);
      if !luck.identifiers {
        Note(Rollback(call));
        return BadIdentifier;
      }
      ghost var rows := jobs;
      r := StoreAndEnd(call, key, luck);
      LeavesSince(r, old(jobs), rows, call, key, luck);
    }

    method StoreAndEnd(call: nat, key: string, luck: Luck) returns (r: Result)
      requires Valid() && call in passed && call !in asking && call !in stored && luck.check && luck.identifiers
      modifies this
      ensures Valid() && !InFlight(call)
      ensures StepsOf(trace, call) == old(StepsOf(trace, call)) + PassedSteps(r, luck, call)
      ensures Leaves(r, old(jobs), call, key, luck) && Explains(luck, r, key) && !r.LimitExceeded?
    {
      ghost var steps, rows := StepsOf(trace, call), jobs;
      var end := Store(key, luck, call);
      if end.Answered? || (end.NoAnswer? && luck.commit.Unsure?) {
        r := EndStored(end, call, luck);
        LeavesItsRow(r, rows, call, key, luck);
        Assoc(steps, [Commit(call)], [LastStep(r, luck, call)]);
      } else {
        Note(Rollback(call));
        r := if end.NoAnswer? then CommitFailed else TransactionFailed;
      }
    }

    /** The end of a submission whose job is stored. */
    method EndStored(end: Ending, call: nat, luck: Luck) returns (r: Result)
      requires Valid() && call in stored && call !in asking && call !in passed
      requires end.Answered? || (end.NoAnswer? && luck.commit.Unsure?)
      modifies this
      ensures Valid() && !InFlight(call) && old(jobs) <= jobs
      ensures forall i :: |old(jobs)| <= i < |jobs| ==> jobs[i].call != call
      ensures r == if end.NoAnswer? then CommitFailed
                   else if luck.increment.Done? then Created(end.job) else NotCounted(end.job)
      ensures StepsOf(trace, call) == old(StepsOf(trace, call)) + [LastStep(r, luck, call)]
    {
      if end.NoAnswer? {
        Note(Unanswered(call));
        return CommitFailed;
      }
      Interfere(call);
      var ok := IncrementRunningJobs(call, luck.increment);
      r := if ok then Created(end.job) else NotCounted(end.job);
    }

    method IncrementRunningJobs(call: nat, o: Outcome) returns (ok: bool)
      requires Valid() && call in stored && call !in asking && call !in passed
      modifies this`counter, this`asking, this`passed, this`stored, this`trace
      ensures Valid() && !InFlight(call) && ok == o.Done?
      ensures counter == old(counter) + if o.Lost? then 0 else 1
      ensures StepsOf(trace, call) ==
              old(StepsOf(trace, call)) + [if o.Lost? then IncrementError(call) else Increment(call)]
    {
      if o.Lost? {
        Note(IncrementError(call));
      } else {
        Note(Increment(call));
        counter := counter + 1;
      }
      ok := o.Done?;
    }

    /** `CreateJob`, with anything happening between its calls to Redis and the database. */
    method CreateJob(call: nat, key: string, luck: Luck) returns (r: Result)
      requires Valid() && !InFlight(call) && |asking| + |passed| + |stored| < calls
      modifies this
      ensures Valid() && !InFlight(call)
      ensures counter <= maxRunningJobs + calls - 1
      ensures StepsOf(trace, call) == old(StepsOf(trace, call)) + [Enter(call)] + StepsTo(r, luck, call)
      ensures Leaves(r, old(jobs), call, key, luck) && Explains(luck, r, key)
    {
      Note(Enter(call));
      Interfere(call);
      ghost var rows := jobs;
      r := Submit(call, key, luck);
      LeavesSince(r, old(jobs), rows, call, key, luck);
      CounterIsBounded(trace, Limiter(counter, asking, passed, stored), maxRunningJobs, calls);
    }

    /** A submission whose key is in use already, such as a client's retry of one that succeeded:
        whatever happens in between, it gets an error and stores nothing. */
    method Resubmit(call: nat, key: string, luck: Luck) returns (r: Result)
      requires Valid() && !InFlight(call) && |asking| + |passed| + |stored| < calls
      requires KeyInUse(jobs, key) && forall i :: 0 <= i < |jobs| ==> jobs[i].call != call
      modifies this
      ensures Valid() && !r.Created? && !r.NotCounted? && old(jobs) <= jobs
      ensures forall i :: 0 <= i < |jobs| ==> jobs[i].call != call
      ensures luck == NO_FAULT ==> r.TransactionFailed? || r.LimitExceeded?
      ensures counter <= maxRunningJobs + calls - 1
    {
      r := CreateJob(call, key, luck);
    }

    /** `DecrementRunningJobs`, on every consumed job.completed event. */
    method JobCompleted(ghost call: nat)
      requires Valid()
      modifies this
      ensures Valid() && counter == old(counter) - 1 && jobs == old(jobs)
      ensures asking == old(asking) && passed == old(passed) && stored == old(stored)
    {
      Note(Decrement(call));
      counter := counter - 1;
    }
  }
}
