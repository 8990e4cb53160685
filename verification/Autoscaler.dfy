/** The autoscaler: bounds, step size and cooldown of its actions. */
module Autoscaler {
  import opened Faults

  datatype Config = Config(minWorkers: int, maxWorkers: int, scaleUpThreshold: int, scaleDownThreshold: int,
                           cooldown: nat)

  /** Actions at least `cooldown` apart. */
  predicate Spaced(times: seq<int>, cooldown: nat) {
    forall i :: 0 <= i < |times| - 1 ==> times[i] + cooldown <= times[i + 1]
  }

  /** The actions within `[from, from + width]`. */
  function Within(times: seq<int>, from: int, width: nat): seq<int> {
    if times == [] then []
    else
      var m := |times| - 1;
      Within(times[..m], from, width) + (if from <= times[m] <= from + width then [times[m]] else [])
  }

  lemma {:induction false} WithinIsSpaced(times: seq<int>, from: int, width: nat, cooldown: nat)
    requires Spaced(times, cooldown)
    ensures var w := Within(times, from, width);
            && Spaced(w, cooldown)
            && (forall i :: 0 <= i < |w| ==> from <= w[i] <= from + width)
            && (w != [] ==> w[|w| - 1] <= times[|times| - 1])
  {
    if times != [] {
      var m := |times| - 1;
      assert Spaced(times[..m], cooldown);
      WithinIsSpaced(times[..m], from, width, cooldown);
    }
  }

  lemma {:induction false} SpacedSpan(times: seq<int>, cooldown: nat)
    requires times != [] && Spaced(times, cooldown)
    ensures times[0] + (|times| - 1) * cooldown <= times[|times| - 1]
  {
    if |times| > 1 {
      var m := |times| - 1;
      assert Spaced(times[..m], cooldown);
      SpacedSpan(times[..m], cooldown);
      assert (m - 1) * cooldown + cooldown == m * cooldown;
    }
  }

  lemma NegativeFactor(x: int, c: nat)
    requires x * c < 0
    ensures x < 0
  {
  }

  lemma AtMostQuotient(a: nat, width: nat, cooldown: nat)
    requires cooldown >= 1 && a * cooldown <= width
    ensures a <= width / cooldown
  {
    var q := width / cooldown;
    assert width == q * cooldown + width % cooldown;
    assert (a - q - 1) * cooldown == a * cooldown - q * cooldown - cooldown;
    NegativeFactor(a - q - 1, cooldown);
  }

  /** No window of length `width` holds more than `1 + width / cooldown` actions. */
  lemma ActionsPerWindow(times: seq<int>, from: int, width: nat, cooldown: nat)
    requires cooldown >= 1 && Spaced(times, cooldown)
    ensures |Within(times, from, width)| <= 1 + width / cooldown
  {
    var w := Within(times, from, width);
    WithinIsSpaced(times, from, width, cooldown);
    if w != [] {
      SpacedSpan(w, cooldown);
      AtMostQuotient(|w| - 1, width, cooldown);
    }
  }

  /** What `evaluate` finds at one tick. */
  datatype Poll = Poll(counted: bool, pending: nat, running: nat, reachable: bool, o: Outcome, now: int, later: int)

  function Max(a: int, b: int): int {
    if a < b then b else a
  }

  function Min(a: int, b: int): int {
    if a < b then a else b
  }

  /** The worker deployment. */
  class Cluster {
    var replicas: int

    constructor (replicas: int)
      ensures this.replicas == replicas
    {
      this.replicas := replicas;
    }

    method SetWorkerReplicas(n: int, o: Outcome) returns (ok: bool)
      modifies this
      ensures ok == o.Done? && replicas == if o.Lost? then old(replicas) else n
    {
      if !o.Lost? { replicas := n; }
      ok := o.Done?;
    }
  }

  class Autoscaler {
    const config: Config
    var acted: bool                     // false: lastScaleAt is the zero time
    var lastScaleAt: int
    ghost var actions: seq<int>         // the times of all successful actions

    ghost predicate Valid()
      reads this
    {
      && Spaced(actions, config.cooldown)
      && (acted <==> actions != [])
      && (acted ==> lastScaleAt == actions[|actions| - 1])
    }

    constructor (config: Config)
      ensures Valid() && this.config == config && actions == []
    {
      this.config := config;
      acted, lastScaleAt, actions := false, 0, [];
    }

    /** `evaluate`: `counted` and `reachable` say whether the database and the cluster answer,
        `now` is the time of the cooldown test and `later` the one after the action. */
    method Evaluate(c: Cluster, counted: bool, pending: nat, running: nat, reachable: bool, o: Outcome,
                    now: int, later: int) returns (ok: bool)
      requires Valid() && now <= later
      modifies this`acted, this`lastScaleAt, this`actions, c
      ensures Valid()
      ensures config.minWorkers <= old(c.replicas) <= config.maxWorkers ==>
                config.minWorkers <= c.replicas <= config.maxWorkers
      ensures var cooling := old(acted) && now - old(lastScaleAt) < config.cooldown;
              var up := pending > config.scaleUpThreshold && old(c.replicas) < config.maxWorkers;
              var down := pending <= config.scaleDownThreshold && running == 0 && old(c.replicas) > config.minWorkers;
              if counted && !cooling && reachable && (up || down) then
                && c.replicas == (if o.Lost? then old(c.replicas)
                                  else if up then old(c.replicas) + 1 else old(c.replicas) - 1)
                && actions == (if o.Done? then old(actions) + [later] else old(actions))
                && ok == o.Done?
              else c.replicas == old(c.replicas) && actions == old(actions) && ok == counted
    {
      if !counted { return false; }
      if acted && now - lastScaleAt < config.cooldown { return true; }
      if !reachable { return true; }
      var current := c.replicas;
      if pending > config.scaleUpThreshold && current < config.maxWorkers {
        ok := Scale(c, current + 1, o, later);
        return;
      }
      if pending <= config.scaleDownThreshold && running == 0 && current > config.minWorkers {
        ok := Scale(c, current - 1, o, later);
        return;
      }
      return true;
    }

    /** Tick `i` finds an answering database and cluster, and comes after the cooldown of the action
        before it, whenever that was. */
    ghost predicate Timely(polls: seq<Poll>, i: nat, acted: bool, lastScaleAt: int)
      requires i < |polls|
    {
      && polls[i].counted && polls[i].reachable && polls[i].o.Done?
      && (acted ==> polls[i].now >= lastScaleAt + config.cooldown)
      && forall k :: 0 <= k < i ==> polls[i].now >= polls[k].later + config.cooldown
    }

    /** What one tick may do to the replicas, and what it must do if it is timely. */
    ghost predicate Move(p: Poll, timely: bool, r: int, r': int) {
      var up := p.pending > config.scaleUpThreshold && r < config.maxWorkers;
      var down := p.pending <= config.scaleDownThreshold && p.running == 0 && r > config.minWorkers;
      && r - 1 <= r' <= r + 1
      && (r' > r ==> up) && (r' < r ==> down && !up)
      && (timely && (up || down) ==> r' != r)
    }

    /** `path` are the replicas before and after every tick. */
    ghost predicate Moves(polls: seq<Poll>, path: seq<int>, acted: bool, lastScaleAt: int)
      requires 1 <= |path| <= |polls| + 1
    {
      forall i :: 0 <= i < |path| - 1 ==> Move(polls[i], Timely(polls, i, acted, lastScaleAt), path[i], path[i + 1])
    }

    /** `Start`: the loop over the ticks.  Replicas stay within the bounds, no window holds too
        many actions, and every change of the replicas is a move by one: `ups` and `downs`, each
        either a recorded action or one of the `unsure`, whose call took effect with an error.
        Every tick moves the replicas as `Move` says. */
    method Start(c: Cluster, polls: seq<Poll>)
        returns (ghost ups: nat, ghost downs: nat, ghost unsure: nat, ghost path: seq<int>)
      requires Valid() && config.cooldown >= 1
      requires forall i :: 0 <= i < |polls| ==> polls[i].now <= polls[i].later
      modifies this`acted, this`lastScaleAt, this`actions, c
      ensures Valid() && old(actions) <= actions
      ensures config.minWorkers <= old(c.replicas) <= config.maxWorkers ==>
                config.minWorkers <= c.replicas <= config.maxWorkers
      ensures forall from, width: nat ::
                |Within(actions, from, width)| <= 1 + width / config.cooldown
      ensures c.replicas == old(c.replicas) + ups - downs
      ensures ups + downs == |actions| - |old(actions)| + unsure
      ensures (forall i :: 0 <= i < |polls| ==> !polls[i].o.Unsure?) ==> unsure == 0
      ensures |path| == |polls| + 1 && path[0] == old(c.replicas) && path[|polls|] == c.replicas
      ensures Moves(polls, path, old(acted), old(lastScaleAt))
    {
      ups, downs, unsure, path := 0, 0, 0, [c.replicas];
      for i := 0 to |polls|
        invariant Valid() && old(actions) <= actions
        invariant config.minWorkers <= old(c.replicas) <= config.maxWorkers ==>
                    config.minWorkers <= c.replicas <= config.maxWorkers
        invariant c.replicas == old(c.replicas) + ups - downs
        invariant ups + downs == |actions| - |old(actions)| + unsure
        invariant unsure > 0 ==> exists k :: 0 <= k < i && polls[k].o.Unsure?
        invariant |path| == i + 1 && path[0] == old(c.replicas) && path[i] == c.replicas
        invariant Moves(polls, path, old(acted), old(lastScaleAt))
        invariant Recent(polls, i, old(acted), old(lastScaleAt))
      {
        ghost var before := c.replicas;
        Tick(c, polls, i, old(acted), old(lastScaleAt));
        if c.replicas > before { ups := ups + 1; }
        if c.replicas < before { downs := downs + 1; }
        if c.replicas != before && polls[i].o.Unsure? { unsure := unsure + 1; }
        path := path + [c.replicas];
      }
      forall from, width: nat ensures |Within(actions, from, width)| <= 1 + width / config.cooldown {
        ActionsPerWindow(actions, from, width, config.cooldown);
      }
    }

    /** One tick, whose error is only logged. */
    method Tick(c: Cluster, polls: seq<Poll>, i: nat, ghost acted: bool, ghost lastScaleAt: int)
      requires Valid() && i < |polls| && polls[i].now <= polls[i].later && Recent(polls, i, acted, lastScaleAt)
      modifies this`acted, this`lastScaleAt, this`actions, c
      ensures Valid() && old(actions) <= actions && Recent(polls, i + 1, acted, lastScaleAt)
      ensures config.minWorkers <= old(c.replicas) <= config.maxWorkers ==>
                config.minWorkers <= c.replicas <= config.maxWorkers
      ensures Move(polls[i], Timely(polls, i, acted, lastScaleAt), old(c.replicas), c.replicas)
      ensures |actions| - |old(actions)| == if c.replicas != old(c.replicas) && !polls[i].o.Unsure? then 1 else 0
    {
      var p := polls[i];
      var _ := Evaluate(c, p.counted, p.pending, p.running, p.reachable, p.o, p.now, p.later);
    }

    /** The last action was that of one of the first `n` ticks, or is the one known before. */
    ghost predicate Recent(polls: seq<Poll>, n: nat, acted: bool, lastScaleAt: int)
      requires n <= |polls|
      reads this
    {
      this.acted ==>
        || (acted && this.lastScaleAt == lastScaleAt)
        || exists k :: 0 <= k < n && this.lastScaleAt == polls[k].later
    }

    // -- what follows for many ticks --

    predicate TooLittleWork(p: Poll) {
      p.pending <= config.scaleUpThreshold && p.pending <= config.scaleDownThreshold && p.running == 0
    }

    predicate TooMuchWork(p: Poll) {
      p.pending > config.scaleUpThreshold && p.pending > config.scaleDownThreshold
    }

    /** Timely ticks with too little work take the replicas down by one each, to the lower bound. */
    lemma {:induction false} ScalesDown(polls: seq<Poll>, path: seq<int>, k: nat, acted: bool, lastScaleAt: int)
      requires 1 <= |path| <= |polls| + 1 && Moves(polls, path, acted, lastScaleAt) && k < |path|
      requires forall i :: 0 <= i < k ==> Timely(polls, i, acted, lastScaleAt) && TooLittleWork(polls[i])
      requires config.minWorkers <= path[0]
      ensures path[k] == Max(config.minWorkers, path[0] - k)
    {
      if k > 0 {
        ScalesDown(polls, path, k - 1, acted, lastScaleAt);
        assert Move(polls[k - 1], Timely(polls, k - 1, acted, lastScaleAt), path[k - 1], path[k]);
      }
    }

    /** And with too much work up, to the upper bound. */
    lemma {:induction false} ScalesUp(polls: seq<Poll>, path: seq<int>, k: nat, acted: bool, lastScaleAt: int)
      requires 1 <= |path| <= |polls| + 1 && Moves(polls, path, acted, lastScaleAt) && k < |path|
      requires forall i :: 0 <= i < k ==> Timely(polls, i, acted, lastScaleAt) && TooMuchWork(polls[i])
      requires path[0] <= config.maxWorkers
      ensures path[k] == Min(config.maxWorkers, path[0] + k)
    {
      if k > 0 {
        ScalesUp(polls, path, k - 1, acted, lastScaleAt);
        assert Move(polls[k - 1], Timely(polls, k - 1, acted, lastScaleAt), path[k - 1], path[k]);
      }
    }

    /** While work is pending or running, no tick takes a worker away; and while there is not too
        much of it, none adds one. */
    lemma {:induction false} NeverWrongWay(polls: seq<Poll>, path: seq<int>, i: nat, k: nat,
                                                acted: bool, lastScaleAt: int)
      requires 1 <= |path| <= |polls| + 1 && Moves(polls, path, acted, lastScaleAt) && i <= k < |path|
      ensures (forall m :: i <= m < k ==> polls[m].pending > config.scaleDownThreshold || polls[m].running > 0) ==>
                path[i] <= path[k]
      ensures (forall m :: i <= m < k ==> polls[m].pending <= config.scaleUpThreshold) ==> path[k] <= path[i]
      decreases k
    {
      if i < k {
        NeverWrongWay(polls, path, i, k - 1, acted, lastScaleAt);
        assert Move(polls[k - 1], Timely(polls, k - 1, acted, lastScaleAt), path[k - 1], path[k]);
      }
    }

    method Scale(c: Cluster, n: int, o: Outcome, later: int) returns (ok: bool)
      requires Valid() && (acted ==> lastScaleAt + config.cooldown <= later)
      modifies this`acted, this`lastScaleAt, this`actions, c
      ensures Valid() && ok == o.Done?
      ensures c.replicas == if o.Lost? then old(c.replicas) else n
      ensures actions == if o.Done? then old(actions) + [later] else old(actions)
    {
      ok := c.SetWorkerReplicas(n, o);
      if ok {
        acted, lastScaleAt := true, later;
        actions := actions + [later];
      }
    }
  }
}
