/** The transactional outbox and its dispatchers as a state machine: what is never lost, what
    is lost, and in which order events are published. */
module Outbox {
  import opened Sequences

  datatype Status = Pending | Delivered | Failed | Purged

  /** What `Publish` did: the broker took the event; refused it; or took it although the
      dispatcher saw an error. */
  datatype Reply = Acked | Rejected | Unsure

  /** Where a dispatcher stands: between ticks, about to publish the head of its batch, or
      about to mark event `id`. */
  datatype Phase =
    | Resting
    | Publishing(batch: seq<nat>)
    | Marking(id: nat, ok: bool, rest: seq<nat>)

  /** Job `i` and outbox row `i` are created in one transaction, so both have index `i`. */
  datatype Bus = Bus(jobs: nat, rows: seq<Status>, log: seq<nat>, dispatchers: seq<Phase>)

  datatype Step =
    | Commit                          // CreateJob's transaction
    | Launch                          // a dispatcher starts
    | Fetch(d: nat)                   // GetPendingOutboxEvents
    | Publish(d: nat, reply: Reply)
    | Mark(d: nat, applied: bool)     // MarkOutboxDelivered or MarkOutboxFailed
    | Crash(d: nat)
    | Cleanup(ids: set<nat>)          // CleanupDeliveredOutboxEvents

  const BATCH: nat := 10

  /** The PENDING rows from `i` on, in creation order. */
  function PendingFrom(rows: seq<Status>, i: nat): (ids: seq<nat>)
    requires i <= |rows|
    ensures forall id :: id in ids ==> i <= id < |rows| && rows[id] == Pending
    decreases |rows| - i
  {
    if i == |rows| then []
    else (if rows[i] == Pending then [i] else []) + PendingFrom(rows, i + 1)
  }

  function Batch(rows: seq<Status>): (batch: seq<nat>)
    ensures |batch| <= BATCH && forall id :: id in batch ==> id < |rows| && rows[id] == Pending
  {
    var ids := PendingFrom(rows, 0);
    assert forall i :: 0 <= i < |ids| ==> ids[i] in ids;
    if |ids| <= BATCH then ids else ids[..BATCH]
  }

  lemma IncreasingFrom(i: nat, ids: seq<nat>)
    requires Increasing(ids) && forall j :: 0 <= j < |ids| ==> i < ids[j]
    ensures Increasing([i] + ids)
  {
  }

  lemma {:induction false} PendingFromIsOrdered(rows: seq<Status>, i: nat)
    requires i <= |rows|
    ensures Increasing(PendingFrom(rows, i))
    decreases |rows| - i
  {
    if i < |rows| {
      PendingFromIsOrdered(rows, i + 1);
      var rest := PendingFrom(rows, i + 1);
      assert forall j :: 0 <= j < |rest| ==> rest[j] in rest;
      IncreasingFrom(i, rest);
      assert [] + rest == rest;
    }
  }

  /** The batch holds the oldest pending events, in creation order: one is left out only when
      the batch is full, and then it is younger than all in it. */
  lemma BatchIsOldest(rows: seq<Status>, k: nat)
    requires k < |rows| && rows[k] == Pending
    ensures var batch := Batch(rows);
            && Increasing(batch)
            && |batch| <= 10 && (k in batch || (|batch| == 10 && forall i :: 0 <= i < |batch| ==> batch[i] < k))
  {
    PendingFromIsOrdered(rows, 0);
    PendingIsListed(rows, 0, k);
    var ids := PendingFrom(rows, 0);
    var p :| 0 <= p < |ids| && ids[p] == k;
    if p < |Batch(rows)| { assert Batch(rows)[p] == k; }
  }

  function NextEvent(batch: seq<nat>): Phase {
    if batch == [] then Resting else Publishing(batch)
  }

  predicate Enabled(b: Bus, st: Step) {
    match st
    case Commit => true
    case Launch => true
    case Fetch(d) => d < |b.dispatchers| && b.dispatchers[d].Resting?
    case Publish(d, _) =>
      d < |b.dispatchers| && b.dispatchers[d].Publishing? && b.dispatchers[d].batch != []
    case Mark(d, _) =>
      d < |b.dispatchers| && b.dispatchers[d].Marking? && b.dispatchers[d].id < |b.rows|
    case Crash(d) => d < |b.dispatchers|
    case Cleanup(ids) => forall i :: i in ids ==> i < |b.rows| && b.rows[i] == Delivered
  }

  /** `MarkOutboxDelivered` or `MarkOutboxFailed`; a row that was cleaned up is not there. */
  function Marked(rows: seq<Status>, id: nat, ok: bool): seq<Status>
    requires id < |rows|
  {
    if rows[id] == Purged then rows else rows[id := if ok then Delivered else Failed]
  }

  function Next(b: Bus, st: Step): Bus
    requires Enabled(b, st)
  {
    match st
    case Commit => b.(jobs := b.jobs + 1, rows := b.rows + [Pending])
    case Launch => b.(dispatchers := b.dispatchers + [Resting])
    case Fetch(d) => b.(dispatchers := b.dispatchers[d := NextEvent(Batch(b.rows))])
    case Publish(d, reply) =>
      var batch := b.dispatchers[d].batch;
      b.(log := if reply == Rejected then b.log else b.log + [batch[0]],
         dispatchers := b.dispatchers[d := Marking(batch[0], reply == Acked, batch[1..])])
    case Mark(d, applied) =>
      var p := b.dispatchers[d];
      b.(rows := if applied then Marked(b.rows, p.id, p.ok) else b.rows,
         dispatchers := b.dispatchers[d := NextEvent(p.rest)])
    case Crash(d) => b.(dispatchers := b.dispatchers[d := Resting])
    case Cleanup(ids) =>
      b.(rows := seq(|b.rows|, i requires 0 <= i < |b.rows| => if i in ids then Purged else b.rows[i]))
  }

  const EMPTY: Bus := Bus(0, [], [], [])

  ghost predicate Runs(b: Bus, tr: seq<Step>)
    decreases |tr|, 0
  {
    tr == [] || (Runs(b, tr[..|tr| - 1]) && Enabled(After(b, tr[..|tr| - 1]), tr[|tr| - 1]))
  }

  ghost function After(b: Bus, tr: seq<Step>): Bus
    requires Runs(b, tr)
    decreases |tr|, 1
  {
    if tr == [] then b else Next(After(b, tr[..|tr| - 1]), tr[|tr| - 1])
  }

  // -- no loss --------------------------------------------------------------------

  predicate Held(p: Phase, i: nat) {
    match p
    case Resting => false
    case Publishing(batch) => i in batch
    case Marking(id, _, rest) => i == id || i in rest
  }

  ghost predicate Inv(b: Bus) {
    && b.jobs == |b.rows|
    && (forall i :: 0 <= i < |b.rows| && (b.rows[i] == Delivered || b.rows[i] == Purged) ==> i in b.log)
    && (forall d :: 0 <= d < |b.dispatchers| && b.dispatchers[d].Marking? && b.dispatchers[d].ok ==>
          b.dispatchers[d].id in b.log)
    && (forall d, i: nat :: 0 <= d < |b.dispatchers| && Held(b.dispatchers[d], i) ==> i < |b.rows|)
    && (forall i :: i in b.log ==> i < |b.rows|)
  }

  lemma StepKeepsInv(b: Bus, st: Step)
    requires Inv(b) && Enabled(b, st)
    ensures Inv(Next(b, st)) && b.log <= Next(b, st).log
  {
    var b' := Next(b, st);
    match st
    case Publish(d, _) =>
      var batch := b.dispatchers[d].batch;
      assert Held(b.dispatchers[d], batch[0]);
      forall i: nat | Held(b'.dispatchers[d], i) ensures i < |b.rows| { assert Held(b.dispatchers[d], i); }
    case Mark(d, _) =>
      forall i: nat | Held(b'.dispatchers[d], i) ensures i < |b.rows| { assert Held(b.dispatchers[d], i); }
    case _ =>
  }

  lemma {:induction false} RunsKeepInv(b: Bus, tr: seq<Step>)
    requires Inv(b) && Runs(b, tr)
    ensures Inv(After(b, tr)) && b.log <= After(b, tr).log
    decreases |tr|
  {
    if tr != [] {
      RunsKeepInv(b, tr[..|tr| - 1]);
      StepKeepsInv(After(b, tr[..|tr| - 1]), tr[|tr| - 1]);
    }
  }

  /** No loss: in every history of creations, crashes, lost marks, concurrent dispatchers and
      cleanups, each committed job still has its row PENDING or FAILED, or its event is in
      the log. */
  lemma NoEventIsLost(tr: seq<Step>, i: nat)
    requires Runs(EMPTY, tr) && i < After(EMPTY, tr).jobs
    ensures i < |After(EMPTY, tr).rows|
    ensures After(EMPTY, tr).rows[i] in {Pending, Failed} || i in After(EMPTY, tr).log
  {
    RunsKeepInv(EMPTY, tr);
  }

  /** A row that was cleaned up does not come back, whatever is still marked. */
  lemma {:induction false} PurgedIsFinal(b: Bus, tr: seq<Step>, i: nat)
    requires Runs(b, tr) && i < |b.rows| && b.rows[i] == Purged
    ensures i < |After(b, tr).rows| && After(b, tr).rows[i] == Purged
    decreases |tr|
  {
    if tr != [] {
      PurgedIsFinal(b, tr[..|tr| - 1], i);
    }
  }

  // -- what is lost -----------------------------------------------------------------

  /** The dispatcher still has to publish event `i`. */
  predicate Due(p: Phase, i: nat) {
    match p
    case Resting => false
    case Publishing(batch) => i in batch
    case Marking(_, _, rest) => i in rest
  }

  /** Event `i` was never published, its row is FAILED, and no dispatcher is due to publish it. */
  ghost predicate Abandoned(b: Bus, i: nat) {
    && i < |b.rows| && b.rows[i] == Failed && i !in b.log
    && forall d :: 0 <= d < |b.dispatchers| ==> !Due(b.dispatchers[d], i)
  }

  ghost predicate CanPublish(b: Bus, i: nat) {
    exists tr :: Runs(b, tr) && i in After(b, tr).log
  }

  lemma AbandonedStays(b: Bus, st: Step, i: nat)
    requires Inv(b) && Enabled(b, st) && Abandoned(b, i)
    ensures Abandoned(Next(b, st), i)
  {
    var b' := Next(b, st);
    forall d | 0 <= d < |b'.dispatchers| ensures !Due(b'.dispatchers[d], i) {
      if d < |b.dispatchers| { assert !Due(b.dispatchers[d], i); }
    }
    if st.Publish? { assert !Due(b.dispatchers[st.d], i) && b.dispatchers[st.d].batch[0] != i; }
  }

  lemma {:induction false} AbandonedForever(b: Bus, tr: seq<Step>, i: nat)
    requires Inv(b) && Runs(b, tr) && Abandoned(b, i)
    ensures Abandoned(After(b, tr), i)
    decreases |tr|
  {
    if tr != [] {
      AbandonedForever(b, tr[..|tr| - 1], i);
      RunsKeepInv(b, tr[..|tr| - 1]);
      AbandonedStays(After(b, tr[..|tr| - 1]), tr[|tr| - 1], i);
    }
  }

  lemma {:induction false} RunsFrom(b: Bus, st: Step, tr: seq<Step>)
    requires Enabled(b, st) && Runs(Next(b, st), tr)
    ensures Runs(b, [st] + tr) && After(b, [st] + tr) == After(Next(b, st), tr)
    decreases |tr|
  {
    if tr == [] {
      assert [st] + tr == [st];
      assert Runs(b, [st][..0]);
    } else {
      var front := tr[..|tr| - 1];
      RunsFrom(b, st, front);
      assert ([st] + tr)[..|[st] + tr| - 1] == [st] + front;
    }
  }

  lemma CanPublishLater(b: Bus, st: Step, i: nat)
    requires Enabled(b, st) && CanPublish(Next(b, st), i)
    ensures CanPublish(b, i)
  {
    var tr :| Runs(Next(b, st), tr) && i in After(Next(b, st), tr).log;
    RunsFrom(b, st, tr);
  }

  lemma PublishedIsEnough(b: Bus, i: nat)
    requires i in b.log
    ensures CanPublish(b, i)
  {
    assert Runs(b, []) && After(b, []) == b;
  }

  lemma {:induction false} DueCanPublish(b: Bus, d: nat, i: nat)
    requires Inv(b) && d < |b.dispatchers| && Due(b.dispatchers[d], i)
    ensures CanPublish(b, i)
    decreases Ahead(b.dispatchers[d]), b.dispatchers[d].Publishing?
  {
    var st := if b.dispatchers[d].Publishing? then Publish(d, Acked) else Mark(d, true);
    if st.Publish? { assert Held(b.dispatchers[d], b.dispatchers[d].batch[0]); }
    if st.Mark? { assert Held(b.dispatchers[d], b.dispatchers[d].id); }
    StepKeepsInv(b, st);
    var b' := Next(b, st);
    if i in b'.log { PublishedIsEnough(b', i); } else { DueCanPublish(b', d, i); }
    CanPublishLater(b, st, i);
  }

  /** Publishes and marks the oldest pending event, and crashes. */
  lemma ServeOldest(b: Bus, d: nat) returns (b': Bus)
    requires Inv(b) && d < |b.dispatchers| && b.dispatchers[d].Resting? && PendingFrom(b.rows, 0) != []
    ensures Inv(b') && d < |b'.dispatchers| && b'.dispatchers[d].Resting?
    ensures var h := PendingFrom(b.rows, 0)[0];
            h < |b.rows| && b'.rows == b.rows[h := Delivered] && b'.log == b.log + [h]
    ensures forall i :: CanPublish(b', i) ==> CanPublish(b, i)
  {
    var tr := [Fetch(d), Publish(d, Acked), Mark(d, true), Crash(d)];
    var h := PendingFrom(b.rows, 0)[0];
    assert h in PendingFrom(b.rows, 0);
    StepKeepsInv(b, tr[0]);
    var b1 := Next(b, tr[0]);
    assert b1.dispatchers[d].batch[0] == h;
    StepKeepsInv(b1, tr[1]);
    var b2 := Next(b1, tr[1]);
    StepKeepsInv(b2, tr[2]);
    var b3 := Next(b2, tr[2]);
    StepKeepsInv(b3, tr[3]);
    b' := Next(b3, tr[3]);
    forall i | CanPublish(b', i) ensures CanPublish(b, i) {
      CanPublishLater(b3, tr[3], i);
      CanPublishLater(b2, tr[2], i);
      CanPublishLater(b1, tr[1], i);
      CanPublishLater(b, tr[0], i);
    }
  }

  lemma {:induction false} FirstPending(rows: seq<Status>, j: nat) returns (h: nat)
    requires j <= |rows| && PendingFrom(rows, j) != []
    ensures j <= h < |rows| && rows[h] == Pending && forall i :: j <= i < h ==> rows[i] != Pending
    decreases |rows| - j
  {
    if rows[j] == Pending {
      h := j;
    } else {
      h := FirstPending(rows, j + 1);
    }
  }

  lemma PendingUnfolds(rows: seq<Status>, h: nat)
    requires h < |rows| && rows[h] == Pending
    ensures PendingFrom(rows, h) == [h] + PendingFrom(rows, h + 1)
  {
  }

  /** Marking the first pending event removes it from the front. */
  lemma FirstServed(rows: seq<Status>)
    requires PendingFrom(rows, 0) != []
    ensures var h := PendingFrom(rows, 0)[0];
            h < |rows| && PendingFrom(rows[h := Delivered], 0) == PendingFrom(rows, 0)[1..]
  {
    var h := FirstPending(rows, 0);
    SettledHead(rows, 0, h);
    PendingUnfolds(rows, h);
    SettledHead(rows[h := Delivered], 0, h + 1);
    SamePending(rows, rows[h := Delivered], h + 1);
  }

  lemma {:induction false} SamePending(rows: seq<Status>, rows': seq<Status>, j: nat)
    requires j <= |rows| == |rows'| && forall i :: j <= i < |rows| ==> rows[i] == rows'[i]
    ensures PendingFrom(rows, j) == PendingFrom(rows', j)
    decreases |rows| - j
  {
    if j < |rows| { SamePending(rows, rows', j + 1); }
  }

  lemma {:induction false} PendingIsListed(rows: seq<Status>, j: nat, i: nat)
    requires j <= i < |rows| && rows[i] == Pending
    ensures i in PendingFrom(rows, j)
    decreases i - j
  {
    if j < i { PendingIsListed(rows, j + 1, i); }
  }

  lemma {:induction false} PendingCanPublish(b: Bus, d: nat, i: nat)
    requires Inv(b) && d < |b.dispatchers| && b.dispatchers[d].Resting?
    requires i < |b.rows| && b.rows[i] == Pending
    ensures CanPublish(b, i)
    decreases |PendingFrom(b.rows, 0)|
  {
    PendingIsListed(b.rows, 0, i);
    FirstServed(b.rows);
    var b' := ServeOldest(b, d);
    if i in b'.log { PublishedIsEnough(b', i); } else { PendingCanPublish(b', d, i); }
  }

  /** Exactly which events are lost: in every history, an event that was not published yet
      can still be, unless its row is FAILED and no dispatcher is due to publish it. */
  lemma LostIffAbandoned(tr: seq<Step>, i: nat)
    requires Runs(EMPTY, tr) && i < After(EMPTY, tr).jobs
    ensures CanPublish(After(EMPTY, tr), i) <==> !Abandoned(After(EMPTY, tr), i)
  {
    RunsKeepInv(EMPTY, tr);
    var b := After(EMPTY, tr);
    if Abandoned(b, i) {
      forall tr' | Runs(b, tr') ensures i !in After(b, tr').log { AbandonedForever(b, tr', i); }
    } else if i in b.log {
      PublishedIsEnough(b, i);
    } else if d: nat :| d < |b.dispatchers| && Due(b.dispatchers[d], i) {
      DueCanPublish(b, d, i);
    } else {
      StepKeepsInv(b, Launch);
      PendingCanPublish(Next(b, Launch), |b.dispatchers|, i);
      CanPublishLater(b, Launch, i);
    }
  }

  lemma RunOn(tr: seq<Step>, b: Bus, st: Step, b': Bus)
    requires Runs(EMPTY, tr) && After(EMPTY, tr) == b && Enabled(b, st) && Next(b, st) == b'
    ensures Runs(EMPTY, tr + [st]) && After(EMPTY, tr + [st]) == b'
  {
    assert (tr + [st])[..|tr|] == tr;
  }

  /** One event that is fetched, refused by the broker and marked so. */
  lemma Refusal(b: Bus)
    requires b == Bus(1, [Pending], [], [Resting])
    ensures Enabled(b, Fetch(0)) && Next(b, Fetch(0)) == b.(dispatchers := [Publishing([0])])
    ensures var b1 := b.(dispatchers := [Publishing([0])]);
            && Enabled(b1, Publish(0, Rejected))
            && Next(b1, Publish(0, Rejected)) == b.(dispatchers := [Marking(0, false, [])])
    ensures var b2 := b.(dispatchers := [Marking(0, false, [])]);
            Enabled(b2, Mark(0, true)) && Next(b2, Mark(0, true)) == b.(rows := [Failed])
  {
    assert PendingFrom([Pending], 0) == [0];
    var batch: seq<nat> := [0];
    assert batch[1..] == [];
  }

  /** A single refusal by the broker loses an event for good. */
  lemma RefusedEventIsLost() returns (tr: seq<Step>)
    ensures Runs(EMPTY, tr) && After(EMPTY, tr).jobs == 1
    ensures Abandoned(After(EMPTY, tr), 0) && !CanPublish(After(EMPTY, tr), 0)
  {
    var b := Bus(1, [Pending], [], [Resting]);
    Refusal(b);
    RunOn([], EMPTY, Commit, Bus(1, [Pending], [], []));
    RunOn([] + [Commit], Bus(1, [Pending], [], []), Launch, b);
    tr := [] + [Commit] + [Launch];
    RunOn(tr, b, Fetch(0), b.(dispatchers := [Publishing([0])]));
    tr := tr + [Fetch(0)];
    RunOn(tr, b.(dispatchers := [Publishing([0])]), Publish(0, Rejected), b.(dispatchers := [Marking(0, false, [])]));
    tr := tr + [Publish(0, Rejected)];
    RunOn(tr, b.(dispatchers := [Marking(0, false, [])]), Mark(0, true), b.(rows := [Failed]));
    tr := tr + [Mark(0, true)];
    LostIffAbandoned(tr, 0);
  }

  // -- order --------------------------------------------------------------------------

  /** Answers that are certain, marks that apply, no second dispatcher, and no crash between a
      publish and its mark. */
  predicate Calm(b: Bus, st: Step)
    requires Enabled(b, st)
  {
    && !st.Launch? && (st.Crash? ==> !b.dispatchers[st.d].Marking?)
    && (st.Publish? ==> st.reply != Unsure)
    && (st.Mark? ==> st.applied)
  }

  ghost predicate AllCalm(b: Bus, tr: seq<Step>)
    requires Runs(b, tr)
    decreases |tr|
  {
    tr == [] || (AllCalm(b, tr[..|tr| - 1]) && Calm(After(b, tr[..|tr| - 1]), tr[|tr| - 1]))
  }

  /** No submission and no crash. */
  predicate Undisturbed(tr: seq<Step>) {
    forall i :: 0 <= i < |tr| ==> !tr[i].Commit? && !tr[i].Crash?
  }

  function Range(k: nat, m: nat): (ids: seq<nat>)
    requires k <= m
    ensures |ids| == m - k && forall i :: 0 <= i < |ids| ==> ids[i] == k + i
  {
    seq(m - k, i requires 0 <= i => k + i)
  }

  /** The events among the first `k` that are not FAILED, in creation order. */
  function Sent(rows: seq<Status>, k: nat): seq<nat>
    requires k <= |rows|
  {
    if k == 0 then [] else Sent(rows, k - 1) + (if rows[k - 1] == Failed then [] else [k - 1])
  }

  /** How many events the dispatcher has fetched and not marked. */
  function Ahead(p: Phase): nat {
    match p
    case Resting => 0
    case Publishing(batch) => |batch|
    case Marking(_, _, rest) => 1 + |rest|
  }

  /** The first `k` events are settled, the others PENDING; the dispatcher works on those from
      `k` on; the log is the settled ones without the FAILED, in creation order. */
  ghost predicate InOrder(b: Bus, k: nat) {
    && |b.dispatchers| == 1 && k <= |b.rows|
    && (forall i :: 0 <= i < k ==> b.rows[i] != Pending)
    && (forall i :: k <= i < |b.rows| ==> b.rows[i] == Pending)
    && k + Ahead(b.dispatchers[0]) <= |b.rows|
    && match b.dispatchers[0]
       case Resting => b.log == Sent(b.rows, k)
       case Publishing(batch) => batch != [] && batch == Range(k, k + |batch|) && b.log == Sent(b.rows, k)
       case Marking(id, ok, rest) =>
         id == k && rest == Range(k + 1, k + 1 + |rest|)
         && b.log == Sent(b.rows, k) + (if ok then [k] else [])
  }

  lemma {:induction false} PendingTail(rows: seq<Status>, i: nat)
    requires i <= |rows| && forall j :: i <= j < |rows| ==> rows[j] == Pending
    ensures PendingFrom(rows, i) == Range(i, |rows|)
    decreases |rows| - i
  {
    if i < |rows| {
      PendingTail(rows, i + 1);
      assert Range(i, |rows|) == [i] + Range(i + 1, |rows|);
    }
  }

  lemma {:induction false} SettledHead(rows: seq<Status>, i: nat, k: nat)
    requires i <= k <= |rows| && forall j :: i <= j < k ==> rows[j] != Pending
    ensures PendingFrom(rows, i) == PendingFrom(rows, k)
    decreases k - i
  {
    if i < k { SettledHead(rows, i + 1, k); }
  }

  lemma {:induction false} SentAgrees(rows: seq<Status>, rows': seq<Status>, k: nat)
    requires k <= |rows| && k <= |rows'|
    requires forall i :: 0 <= i < k ==> (rows[i] == Failed <==> rows'[i] == Failed)
    ensures Sent(rows, k) == Sent(rows', k)
  {
    if k > 0 { SentAgrees(rows, rows', k - 1); }
  }

  lemma MarkKeepsOrder(b: Bus, d: nat, k: nat)
    requires InOrder(b, k) && Enabled(b, Mark(d, true))
    ensures InOrder(Next(b, Mark(d, true)), k + 1)
    ensures 1 + Ahead(Next(b, Mark(d, true)).dispatchers[0]) == Ahead(b.dispatchers[0])
  {
    SentAgrees(b.rows, Next(b, Mark(d, true)).rows, k);
  }

  lemma FetchKeepsOrder(b: Bus, d: nat, k: nat)
    requires InOrder(b, k) && Enabled(b, Fetch(d))
    ensures var b' := Next(b, Fetch(d));
            && InOrder(b', k)
            && k + Ahead(b'.dispatchers[0]) == if k + BATCH <= |b.rows| then k + BATCH else |b.rows|
  {
    SettledHead(b.rows, 0, k);
    PendingTail(b.rows, k);
    var batch := Batch(b.rows);
    assert batch == Range(k, k + |batch|);
  }

  lemma PublishKeepsOrder(b: Bus, d: nat, reply: Reply, k: nat)
    requires InOrder(b, k) && Enabled(b, Publish(d, reply)) && reply != Unsure
    ensures InOrder(Next(b, Publish(d, reply)), k)
    ensures Ahead(Next(b, Publish(d, reply)).dispatchers[0]) == Ahead(b.dispatchers[0])
  {
    var batch := b.dispatchers[0].batch;
    assert batch[0] == k && batch[1..] == Range(k + 1, k + |batch|);
  }

  lemma StepKeepsOrder(b: Bus, st: Step, k: nat) returns (k': nat)
    requires InOrder(b, k) && Enabled(b, st) && Calm(b, st)
    ensures InOrder(Next(b, st), k') && k <= k'
    ensures var ahead := if st.Fetch? then (if k + BATCH <= |b.rows| then k + BATCH else |b.rows|)
                         else k + Ahead(b.dispatchers[0]);
            !st.Crash? ==> k' + Ahead(Next(b, st).dispatchers[0]) == ahead
  {
    k' := if st.Mark? then k + 1 else k;
    match st
    case Fetch(d) => FetchKeepsOrder(b, d, k);
    case Publish(d, reply) => PublishKeepsOrder(b, d, reply, k);
    case Mark(d, _) => MarkKeepsOrder(b, d, k);
    case Commit => SentAgrees(b.rows, Next(b, st).rows, k);
    case Cleanup(_) => SentAgrees(b.rows, Next(b, st).rows, k);
    case Crash(_) =>
  }

  function Fetches(tr: seq<Step>): nat {
    if tr == [] then 0 else Fetches(tr[..|tr| - 1]) + (if tr[|tr| - 1].Fetch? then 1 else 0)
  }

  /** FIFO: a single calm dispatcher publishes in creation order exactly the events that are
      not FAILED, whatever is committed or cleaned up meanwhile. */
  lemma {:induction false} DispatchIsFifo(b: Bus, tr: seq<Step>, k: nat) returns (k': nat)
    requires InOrder(b, k) && Runs(b, tr) && AllCalm(b, tr)
    ensures InOrder(After(b, tr), k') && k <= k'
    ensures Undisturbed(tr) ==>
              && |After(b, tr).rows| == |b.rows|
              && k' + Ahead(After(b, tr).dispatchers[0]) ==
                 (if k + Ahead(b.dispatchers[0]) + BATCH * Fetches(tr) <= |b.rows|
                  then k + Ahead(b.dispatchers[0]) + BATCH * Fetches(tr) else |b.rows|)
    decreases |tr|
  {
    if tr == [] {
      k' := k;
    } else {
      var front, st := tr[..|tr| - 1], tr[|tr| - 1];
      var m := DispatchIsFifo(b, front, k);
      k' := StepKeepsOrder(After(b, front), st, m);
    }
  }

  /** Between two ticks the log is the creation-order sequence of the settled events with
      exactly the FAILED ones left out, and no other event is settled. */
  lemma LogIsCreationOrder(tr: seq<Step>) returns (k: nat)
    requires Runs(Bus(0, [], [], [Resting]), tr) && AllCalm(Bus(0, [], [], [Resting]), tr)
    requires After(Bus(0, [], [], [Resting]), tr).dispatchers == [Resting]
    ensures var b := After(Bus(0, [], [], [Resting]), tr);
            && k <= |b.rows| && b.log == Sent(b.rows, k)
            && (forall i :: 0 <= i < |b.rows| ==> (b.rows[i] == Pending <==> k <= i))
  {
    k := DispatchIsFifo(Bus(0, [], [], [Resting]), tr, 0);
  }

  /** `m` pending events and no arrivals: after `f` ticks `m - 10 f` are left, so that they
      drain in the ceiling of `m / 10` ticks and not before. */
  lemma DrainsInTicks(b: Bus, tr: seq<Step>, k: nat) returns (k': nat)
    requires InOrder(b, k) && b.dispatchers == [Resting]
    requires Runs(b, tr) && AllCalm(b, tr) && Undisturbed(tr)
    requires After(b, tr).dispatchers == [Resting]
    ensures InOrder(After(b, tr), k') && |After(b, tr).rows| == |b.rows|
    ensures |b.rows| - k' == if 10 * Fetches(tr) <= |b.rows| - k then |b.rows| - k - 10 * Fetches(tr) else 0
    ensures |b.rows| - k' == 0 <==> Fetches(tr) >= (|b.rows| - k + 9) / 10
  {
    k' := DispatchIsFifo(b, tr, k);
  }

  // -- the dispatcher as an object ------------------------------------------------------

  predicate OfDispatcher(st: Step, d: nat) {
    match st
    case Fetch(e) => e == d
    case Publish(e, _) => e == d
    case Mark(e, _) => e == d
    case Crash(e) => e == d
    case _ => false
  }

  /** The steps of dispatcher `d`, in order. */
  ghost function StepsBy(tr: seq<Step>, d: nat): seq<Step> {
    if tr == [] then []
    else StepsBy(tr[..|tr| - 1], d) + (if OfDispatcher(tr[|tr| - 1], d) then [tr[|tr| - 1]] else [])
  }

  /** What befalls one tick: whether the fetch works, the broker's reply to each event of the
      batch, and whether its mark takes effect. */
  datatype Luck = Luck(fetch: bool, reply: nat -> Reply, mark: nat -> bool)

  /** One publish and one mark for each of the first `n` events of a batch. */
  ghost function Rounds(d: nat, n: nat, luck: Luck): seq<Step> {
    if n == 0 then []
    else Rounds(d, n - 1, luck) + ([Publish(d, luck.reply(n - 1))] + [Mark(d, luck.mark(n - 1))])
  }

  lemma {:induction false} OthersKeep(tr: seq<Step>, m: nat, d: nat)
    requires Runs(EMPTY, tr) && m <= |tr|
    requires forall i :: m <= i < |tr| ==> !OfDispatcher(tr[i], d)
    ensures Runs(EMPTY, tr[..m]) && After(EMPTY, tr[..m]).log <= After(EMPTY, tr).log
    ensures Inv(After(EMPTY, tr))
    ensures d < |After(EMPTY, tr[..m]).dispatchers| ==>
              && d < |After(EMPTY, tr).dispatchers|
              && After(EMPTY, tr).dispatchers[d] == After(EMPTY, tr[..m]).dispatchers[d]
    ensures StepsBy(tr, d) == StepsBy(tr[..m], d)
    decreases |tr|
  {
    RunsKeepInv(EMPTY, tr);
    if m == |tr| {
      assert tr[..m] == tr;
    } else {
      var front := tr[..|tr| - 1];
      OthersKeep(front, m, d);
      assert front[..m] == tr[..m];
    }
  }

  /** The outbox table and the topic, with the history that led to them. */
  class Store {
    var rows: seq<Status>
    var topic: seq<nat>
    ghost var trace: seq<Step>
    ghost var bus: Bus

    ghost predicate Valid()
      reads this
    {
      Runs(EMPTY, trace) && bus == After(EMPTY, trace) && rows == bus.rows && topic == bus.log
    }

    ghost method Record(st: Step)
      requires Runs(EMPTY, trace) && bus == After(EMPTY, trace) && Enabled(bus, st)
      requires rows == Next(bus, st).rows && topic == Next(bus, st).log
      modifies this`trace, this`bus
      ensures Valid() && trace == old(trace) + [st] && bus == Next(old(bus), st)
    {
      assert (trace + [st])[..|trace|] == trace;
      trace, bus := trace + [st], Next(bus, st);
    }

    /** Submissions, cleanups and other dispatchers act between two statements.  Doing nothing
        is one way to keep this contract; callers rely on the contract alone. */
    method Interfere(ghost d: nat)
      requires Valid()
      modifies this
      ensures Valid() && old(trace) <= trace
      ensures forall i :: |old(trace)| <= i < |trace| ==> !OfDispatcher(trace[i], d)
    {
    }
  }

  class Dispatcher {
    const id: nat

    constructor (id: nat)
      ensures this.id == id
    {
      this.id := id;
    }

    ghost predicate At(s: Store, p: Phase)
      reads s
    {
      s.Valid() && id < |s.bus.dispatchers| && s.bus.dispatchers[id] == p
    }

    method Wait(s: Store, ghost p: Phase)
      requires At(s, p)
      modifies s
      ensures At(s, p) && Inv(s.bus) && old(s.trace) <= s.trace && old(s.topic) <= s.topic
      ensures StepsBy(s.trace, id) == old(StepsBy(s.trace, id))
    {
      ghost var before := s.trace;
      s.Interfere(id);
      assert s.trace[..|before|] == before;
      OthersKeep(s.trace, |before|, id);
    }

    /** Step `at` was this dispatcher's fetch, and `events` is what it found. */
    ghost predicate FetchedAt(trace: seq<Step>, at: nat, events: seq<nat>) {
      && at < |trace| && trace[at] == Fetch(id)
      && Runs(EMPTY, trace[..at]) && events == Batch(After(EMPTY, trace[..at]).rows)
    }

    lemma FetchedStays(trace: seq<Step>, trace': seq<Step>, at: nat, events: seq<nat>)
      requires FetchedAt(trace, at, events) && trace <= trace'
      ensures FetchedAt(trace', at, events)
    {
      assert trace'[..at] == trace[..at];
    }

    method FetchBatch(s: Store) returns (events: seq<nat>, ghost at: nat)
      requires At(s, Resting)
      modifies s
      ensures At(s, NextEvent(events)) && old(s.trace) <= s.trace && old(s.topic) <= s.topic
      ensures StepsBy(s.trace, id) == old(StepsBy(s.trace, id)) + [Fetch(id)]
      ensures |old(s.trace)| <= at && FetchedAt(s.trace, at, events)
    {
      Wait(s, Resting);
      events := Batch(s.rows);
      ghost var before := s.trace;
      at := |before|;
      s.Record(Fetch(id));
      assert s.trace[..at] == before;
    }

    method PublishEvent(s: Store, event: nat, ghost rest: seq<nat>, reply: Reply)
      requires At(s, Publishing([event] + rest))
      modifies s
      ensures At(s, Marking(event, reply == Acked, rest)) && old(s.trace) <= s.trace && old(s.topic) <= s.topic
      ensures reply != Rejected ==> event in s.topic
      ensures StepsBy(s.trace, id) == old(StepsBy(s.trace, id)) + [Publish(id, reply)]
    {
      Wait(s, Publishing([event] + rest));
      if reply != Rejected { s.topic := s.topic + [event]; }
      ghost var before := s.trace;
      assert ([event] + rest)[1..] == rest;
      s.Record(Step.Publish(id, reply));
      assert s.trace[..|s.trace| - 1] == before;
    }

    /** `MarkOutboxDelivered` or `MarkOutboxFailed`; its error is ignored. */
    method MarkEvent(s: Store, event: nat, ok: bool, ghost rest: seq<nat>, applied: bool)
      requires At(s, Marking(event, ok, rest))
      modifies s
      ensures At(s, NextEvent(rest)) && old(s.trace) <= s.trace && old(s.topic) <= s.topic
      ensures StepsBy(s.trace, id) == old(StepsBy(s.trace, id)) + [Mark(id, applied)]
      ensures applied ==> event < |s.rows| && s.rows[event] in {Purged, if ok then Delivered else Failed}
    {
      Wait(s, Marking(event, ok, rest));
      assert Held(s.bus.dispatchers[id], event);
      if applied { s.rows := Marked(s.rows, event, ok); }
      ghost var before := s.trace;
      s.Record(Mark(id, applied));
      assert s.trace[..|s.trace| - 1] == before;
    }

    method Deliver(s: Store, event: nat, ghost rest: seq<nat>, reply: Reply, applied: bool)
      requires At(s, Publishing([event] + rest))
      modifies s
      ensures At(s, NextEvent(rest)) && old(s.trace) <= s.trace && old(s.topic) <= s.topic
      ensures reply != Rejected ==> event in s.topic
      ensures applied ==> event < |s.rows| && s.rows[event] in {Purged, if reply == Acked then Delivered else Failed}
      ensures StepsBy(s.trace, id) == old(StepsBy(s.trace, id)) + ([Publish(id, reply)] + [Mark(id, applied)])
    {
      PublishEvent(s, event, rest, reply);
      MarkEvent(s, event, reply == Acked, rest, applied);
      Assoc(StepsBy(old(s.trace), id), [Publish(id, reply)], [Mark(id, applied)]);
    }

    /** The loop body: event `i` of the batch. */
    method DeliverOne(s: Store, events: seq<nat>, i: nat, reply: Reply, applied: bool)
      requires i < |events| && At(s, NextEvent(events[i..]))
      modifies s
      ensures At(s, NextEvent(events[i + 1..])) && old(s.trace) <= s.trace && old(s.topic) <= s.topic
      ensures reply != Rejected ==> events[i] in s.topic
      ensures StepsBy(s.trace, id) == old(StepsBy(s.trace, id)) + ([Publish(id, reply)] + [Mark(id, applied)])
    {
      assert events[i..] == [events[i]] + events[i + 1..];
      Deliver(s, events[i], events[i + 1..], reply, applied);
    }

    /** `dispatch`: whatever happens between its statements, a tick whose fetch works takes the
        oldest pending events, at most ten, and for each of them, in order, issues one publish
        and one mark, with the replies and marks of its luck.  Every event that the broker did
        not refuse is in the topic afterwards. */
    method Dispatch(s: Store, luck: Luck) returns (ok: bool, events: seq<nat>, ghost at: nat)
      requires At(s, Resting)
      modifies s
      ensures At(s, Resting) && old(s.trace) <= s.trace && old(s.topic) <= s.topic && ok == luck.fetch
      ensures StepsBy(s.trace, id) ==
              old(StepsBy(s.trace, id)) + if ok then [Fetch(id)] + Rounds(id, |events|, luck) else []
      ensures ok ==> |old(s.trace)| <= at && FetchedAt(s.trace, at, events)
      ensures forall i :: 0 <= i < |events| && luck.reply(i) != Rejected ==> events[i] in s.topic
    {
      events, at := [], 0;
      ok := luck.fetch;
      if !ok { return; }
      ghost var before := StepsBy(s.trace, id);
      events, at := FetchBatch(s);
      ghost var fetched := s.trace;
      for i := 0 to |events|
        invariant At(s, NextEvent(events[i..])) && old(s.trace) <= s.trace && old(s.topic) <= s.topic
        invariant StepsBy(s.trace, id) == before + ([Fetch(id)] + Rounds(id, i, luck))
        invariant fetched <= s.trace
        invariant forall k :: 0 <= k < i && luck.reply(k) != Rejected ==> events[k] in s.topic
      {
        ghost var round := [Publish(id, luck.reply(i))] + [Mark(id, luck.mark(i))];
        DeliverOne(s, events, i, luck.reply(i), luck.mark(i));
        Assoc(before, [Fetch(id)] + Rounds(id, i, luck), round);
        Assoc([Fetch(id)], Rounds(id, i, luck), round);
      }
      FetchedStays(fetched, s.trace, at, events);
    }
  }
}
