/** The retrying Kafka consumer: where every message it reads ends up. */
module Consumer {
  import opened Sequences

  const MAX_RETRIES: nat := 3

  /** What happens around one message: the handler's answers to the attempts, the attempts
      whose backoff a shutdown interrupts, and whether the dead-letter publish works. */
  datatype Trial = Trial(succeeds: seq<bool>, interrupts: set<nat>, dlqOk: bool)

  predicate Complete(t: Trial) {
    |t.succeeds| == MAX_RETRIES
  }

  datatype Fate = Handled(attempts: nat) | DeadLettered | Undelivered | Interrupted(attempts: nat)

  /** Attempt `a` (counted from 1) succeeds. */
  predicate Succeeds(t: Trial, a: nat)
    requires Complete(t) && 1 <= a <= MAX_RETRIES
  {
    t.succeeds[a - 1]
  }

  /** Every attempt before `a` failed, and no shutdown came in its backoff. */
  predicate ReachesAttempt(t: Trial, a: nat)
    requires Complete(t) && a <= MAX_RETRIES
  {
    forall b :: 1 <= b < a ==> !Succeeds(t, b) && b !in t.interrupts
  }

  /** What must be true of a message for each of its fates: a handled message at its first
      success, a dead letter only after three failures. */
  ghost predicate Deserves(t: Trial, f: Fate)
    requires Complete(t)
  {
    match f
    case Handled(a) => 1 <= a <= MAX_RETRIES && ReachesAttempt(t, a) && Succeeds(t, a)
    case Interrupted(a) => 1 <= a < MAX_RETRIES && ReachesAttempt(t, a) && !Succeeds(t, a) && a in t.interrupts
    case DeadLettered => ReachesAttempt(t, MAX_RETRIES) && !Succeeds(t, MAX_RETRIES) && t.dlqOk
    case Undelivered => ReachesAttempt(t, MAX_RETRIES) && !Succeeds(t, MAX_RETRIES) && !t.dlqOk
  }

  /** A message has exactly one fate. */
  lemma FateIsUnique(t: Trial, f: Fate, f': Fate)
    requires Complete(t) && Deserves(t, f) && Deserves(t, f')
    ensures f == f'
  {
  }

  function Attempts(f: Fate): nat {
    match f
    case Handled(a) => a
    case Interrupted(a) => a
    case _ => MAX_RETRIES
  }

  lemma FateExists(t: Trial)
    requires Complete(t)
    ensures exists f :: Deserves(t, f)
  {
    var f :=
      if Succeeds(t, 1) then Handled(1)
      else if 1 in t.interrupts then Interrupted(1)
      else if Succeeds(t, 2) then Handled(2)
      else if 2 in t.interrupts then Interrupted(2)
      else if Succeeds(t, 3) then Handled(3)
      else if t.dlqOk then DeadLettered
      else Undelivered;
    assert Deserves(t, f);
  }

  ghost function FateOf(t: Trial): (f: Fate)
    requires Complete(t)
    ensures Deserves(t, f)
  {
    FateExists(t);
    var f :| Deserves(t, f);
    f
  }

  /** Where a message ends up. */
  datatype Place = InHandler | InDeadLetters | Nowhere

  function PlaceOf(f: Fate): Place {
    match f
    case Handled(_) => InHandler
    case DeadLettered => InDeadLetters
    case _ => Nowhere
  }

  ghost function Places(trials: seq<Trial>): (ps: seq<Place>)
    requires forall i :: 0 <= i < |trials| ==> Complete(trials[i])
    ensures |ps| == |trials| && forall i :: 0 <= i < |ps| ==> ps[i] == PlaceOf(FateOf(trials[i]))
  {
    seq(|trials|, i requires 0 <= i < |trials| => PlaceOf(FateOf(trials[i])))
  }

  /** The messages below `n` that end up in `p`, in order. */
  ghost function Those(places: seq<Place>, p: Place, n: nat): seq<nat>
    requires n <= |places|
  {
    if n == 0 then [] else Those(places, p, n - 1) + if places[n - 1] == p then [n - 1] else []
  }

  lemma {:induction false} ThoseAreInOrder(places: seq<Place>, p: Place, n: nat)
    requires n <= |places|
    ensures forall m :: m in Those(places, p, n) <==> 0 <= m < n && places[m] == p
    ensures Increasing(Those(places, p, n))
  {
    if n > 0 {
      ThoseAreInOrder(places, p, n - 1);
      var front := Those(places, p, n - 1);
      assert forall i :: 0 <= i < |front| ==> front[i] in front;
    }
  }

  /** The three places share out the messages below `n`. */
  lemma EachMessageHasOnePlace(places: seq<Place>, n: nat)
    requires n <= |places|
    ensures var a, b, c := Those(places, InHandler, n), Those(places, InDeadLetters, n), Those(places, Nowhere, n);
            && Increasing(a) && Increasing(b) && Increasing(c) && ShareOut(a, b, c, n)
  {
    ThoseAreInOrder(places, InHandler, n);
    ThoseAreInOrder(places, InDeadLetters, n);
    ThoseAreInOrder(places, Nowhere, n);
  }

  /** Every number below `n` is in exactly one of the sequences, and nothing else is in any. */
  ghost predicate ShareOut(a: seq<nat>, b: seq<nat>, c: seq<nat>, n: nat) {
    && (forall m :: m in a || m in b || m in c <==> 0 <= m < n)
    && (forall m :: !(m in a && m in b) && !(m in a && m in c) && !(m in b && m in c))
  }

  class Consumer {
    var calls: seq<nat>               // the handler calls, by message
    var handled: seq<nat>
    var deadLetters: seq<nat>
    var lost: seq<nat>                // read, but neither handled nor in the dead-letter topic

    constructor ()
      ensures calls == handled == deadLetters == lost == []
    {
      calls, handled, deadLetters, lost := [], [], [], [];
    }

    /** The body of the loop of `Consume`, for one message. */
    method HandleMessage(msg: nat, t: Trial) returns (f: Fate)
      requires Complete(t)
      modifies this
      ensures Deserves(t, f)
      ensures |calls| == |old(calls)| + Attempts(f) && old(calls) <= calls
      ensures f.DeadLettered? || f.Undelivered? ==> |calls| == |old(calls)| + 3
      ensures forall i :: |old(calls)| <= i < |calls| ==> calls[i] == msg
      ensures handled == old(handled) + (if f.Handled? then [msg] else [])
      ensures deadLetters == old(deadLetters) + (if f.DeadLettered? then [msg] else [])
      ensures lost == old(lost) + (if f.Undelivered? || f.Interrupted? then [msg] else [])
    {
      var failed := false;            // lastErr != nil
      var attempt := 1;
      while attempt <= MAX_RETRIES
        invariant 1 <= attempt <= MAX_RETRIES + 1
        invariant failed <==> attempt > 1
        invariant forall b :: 1 <= b < attempt ==> !Succeeds(t, b)
        invariant forall b :: 1 <= b < attempt && b < MAX_RETRIES ==> b !in t.interrupts
        invariant |calls| == |old(calls)| + attempt - 1 && old(calls) <= calls
        invariant forall i :: |old(calls)| <= i < |calls| ==> calls[i] == msg
        invariant handled == old(handled) && deadLetters == old(deadLetters) && lost == old(lost)
      {
        calls := calls + [msg];
        if !t.succeeds[attempt - 1] {
          failed := true;
          if attempt < MAX_RETRIES && attempt in t.interrupts {
            lost := lost + [msg];
            return Interrupted(attempt);
          }
        } else {
          failed := false;
          break;
        }
        attempt := attempt + 1;
      }
      if failed {
        if t.dlqOk {
          deadLetters := deadLetters + [msg];
          f := DeadLettered;
        } else {
          lost := lost + [msg];
          f := Undelivered;
        }
      } else {
        handled := handled + [msg];
        f := Handled(attempt);
      }
    }

    /** `Consume` over the messages `0`, `1`, ...: the messages handled, dead and lost are those
        whose fate says so.  Conservation: every message that was read is in exactly one of the
        three places, once, and each place keeps the order of the topic.  Only a shutdown ends
        the loop, and it loses the message. */
    method Consume(trials: seq<Trial>) returns (read: nat)
      requires forall i :: 0 <= i < |trials| ==> Complete(trials[i])
      requires handled == deadLetters == lost == []
      modifies this
      ensures read <= |trials|
      ensures handled == Those(Places(trials), InHandler, read)
      ensures deadLetters == Those(Places(trials), InDeadLetters, read)
      ensures lost == Those(Places(trials), Nowhere, read)
      ensures Increasing(handled) && Increasing(deadLetters) && Increasing(lost)
      ensures ShareOut(handled, deadLetters, lost, read)
      ensures read < |trials| ==> read > 0 && FateOf(trials[read - 1]).Interrupted?
      ensures forall m :: 0 <= m < read - 1 ==> !FateOf(trials[m]).Interrupted?
      ensures |calls| <= |old(calls)| + 3 * read
    {
      read := 0;
      while read < |trials|
        invariant read <= |trials|
        invariant handled == Those(Places(trials), InHandler, read)
        invariant deadLetters == Those(Places(trials), InDeadLetters, read)
        invariant lost == Those(Places(trials), Nowhere, read)
        invariant forall m :: 0 <= m < read ==> !FateOf(trials[m]).Interrupted?
        invariant |calls| <= |old(calls)| + MAX_RETRIES * read
      {
        var f := HandleMessage(read, trials[read]);
        FateIsUnique(trials[read], f, FateOf(trials[read]));
        read := read + 1;
        if f.Interrupted? { break; }
      }
      EachMessageHasOnePlace(Places(trials), read);
    }
  }
}
