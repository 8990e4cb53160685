/** The task table refines a plain work queue without leases, owners' clocks or heartbeats. */
module Queue {
  import opened Tables
  import opened Protocol
  import opened Invariant
  import opened Preservation
  import opened History

  datatype Item = Waiting(retries: nat) | Taken(worker: nat, attempt: nat) | Closed(state: TaskState)

  datatype QueueStep =
    | Enqueue
    | Take(worker: nat, skipped: set<nat>)
    | GiveBack(worker: nat, i: nat)
    | Close(worker: nat, i: nat, state: TaskState)
    | Stutter

  /** The oldest waiting item outside `skipped`, from position `i` on. */
  function Oldest(q: seq<Item>, skipped: set<nat>, i: nat := 0): (c: Option<nat>)
    requires i <= |q|
    ensures c.Some? ==> i <= c.value < |q| && c.value !in skipped && q[c.value].Waiting?
    ensures c.Some? ==> forall j :: i <= j < c.value ==> j in skipped || !q[j].Waiting?
    ensures c.None? ==> forall j :: i <= j < |q| ==> j in skipped || !q[j].Waiting?
    decreases |q| - i
  {
    if i == |q| then None
    else if i !in skipped && q[i].Waiting? then Some(i)
    else Oldest(q, skipped, i + 1)
  }

  /** Only its holder gives an item back or closes it, and only once. */
  predicate QueueEnabled(q: seq<Item>, st: QueueStep) {
    match st
    case Enqueue => true
    case Take(_, skipped) => Oldest(q, skipped).Some?
    case GiveBack(w, i) => i < |q| && q[i].Taken? && q[i].worker == w
    case Close(w, i, state) => i < |q| && q[i].Taken? && q[i].worker == w && Finished(state)
    case Stutter => true
  }

  function QueueNext(q: seq<Item>, st: QueueStep): seq<Item>
    requires QueueEnabled(q, st)
  {
    match st
    case Enqueue => q + [Waiting(0)]
    case Take(w, skipped) =>
      var i := Oldest(q, skipped).value;
      q[i := Taken(w, q[i].retries)]
    case GiveBack(_, i) => q[i := Waiting(q[i].attempt + 1)]
    case Close(_, i, state) => q[i := Closed(state)]
    case Stutter => q
  }

  /** A row as the queue sees it: no expiry, and an owner only while it is taken. */
  function ItemOf(row: TaskRow): Item {
    match row.state
    case Pending => Waiting(row.retries)
    case Leased => Taken(if row.owner.Some? then row.owner.value else 0, row.retries)
    case _ => Closed(row.state)
  }

  function QueueOf(tasks: seq<TaskRow>): (q: seq<Item>)
    ensures |q| == |tasks| && forall i :: 0 <= i < |q| ==> q[i] == ItemOf(tasks[i])
  {
    seq(|tasks|, i requires 0 <= i < |tasks| => ItemOf(tasks[i]))
  }

  /** The queue step that a protocol step amounts to. */
  function Abstract(s: World, st: Step): QueueStep {
    match st
    case CreateTask(_) => Enqueue
    case Lease(w, locked, o) =>
      if o.Lost? || LeaseCandidate(s.tasks, s.now, locked).None? then Stutter else Take(w, locked)
    case Work(w, a) =>
      if !Busy(s, w) then Stutter else
      (match a
       case RetryTask(o) => if o.Lost? then Stutter else GiveBack(w, TaskOf(s, w))
       case UpdateTaskDead(o) => if o.Lost? then Stutter else Close(w, TaskOf(s, w), Dead)
       case FailTaskWithError(o) => if o.Lost? then Stutter else Close(w, TaskOf(s, w), Failed)
       case UpdateTaskSucceeded(o) => if o.Lost? then Stutter else Close(w, TaskOf(s, w), Succeeded)
       case _ => Stutter)
    case _ => Stutter
  }

  /** The expiry clause of `LeaseTask` never excludes a PENDING row. */
  lemma {:induction false} LeaseTakesOldest(s: World, locked: set<nat>, i: nat)
    requires Inv(s) && i <= |s.tasks|
    ensures LeaseCandidate(s.tasks, s.now, locked, i) == Oldest(QueueOf(s.tasks), locked, i)
    decreases |s.tasks| - i
  {
    if i < |s.tasks| {
      assert TaskOk(s, i);
      LeaseTakesOldest(s, locked, i + 1);
    }
  }

  lemma ItemUpdated(tasks: seq<TaskRow>, t: nat, row: TaskRow)
    requires t < |tasks|
    ensures QueueOf(tasks[t := row]) == QueueOf(tasks)[t := ItemOf(row)]
  {
  }

  /** What a statement of a worker does to the item it holds. */
  lemma ActOnItem(s: World, w: nat, a: Action)
    requires Inv(s) && Enabled(s, Work(w, a))
    ensures var l' := Act(Look(s, w), a, RunTaskCount(s.tasks, RunOf(s, w)), |s.artifacts|);
            match Abstract(s, Work(w, a))
            case GiveBack(_, _) =>
              && s.tasks[TaskOf(s, w)].state == Leased && s.tasks[TaskOf(s, w)].owner == Some(w)
              && ItemOf(l'.task) == Waiting(s.tasks[TaskOf(s, w)].retries + 1)
            case Close(_, _, state) =>
              && s.tasks[TaskOf(s, w)].state == Leased && s.tasks[TaskOf(s, w)].owner == Some(w)
              && ItemOf(l'.task) == Closed(state)
            case _ => ItemOf(l'.task) == ItemOf(s.tasks[TaskOf(s, w)])
  {
    assert WorkerOk(s, w);
  }

  lemma WorkRefines(s: World, w: nat, a: Action)
    requires Inv(s) && Enabled(s, Work(w, a))
    ensures QueueEnabled(QueueOf(s.tasks), Abstract(s, Work(w, a)))
    ensures QueueOf(Next(s, Work(w, a)).tasks) == QueueNext(QueueOf(s.tasks), Abstract(s, Work(w, a)))
  {
    ActOnItem(s, w, a);
    ItemUpdated(s.tasks, TaskOf(s, w), Act(Look(s, w), a, RunTaskCount(s.tasks, RunOf(s, w)), |s.artifacts|).task);
  }

  /** Every protocol step is the queue step it abstracts to; heartbeats, clock ticks and all
      statements on runs, jobs and artifacts are stutter steps. */
  lemma StepRefines(s: World, st: Step)
    requires Inv(s) && Enabled(s, st)
    ensures QueueEnabled(QueueOf(s.tasks), Abstract(s, st))
    ensures QueueOf(Next(s, st).tasks) == QueueNext(QueueOf(s.tasks), Abstract(s, st))
  {
    match st
    case Work(w, a) => WorkRefines(s, w, a);
    case Lease(w, locked, o) => LeaseTakesOldest(s, locked, 0);
    case _ =>
  }

  ghost predicate QueueRuns(q: seq<Item>, tr: seq<QueueStep>)
    decreases |tr|, 0
  {
    tr == [] || (QueueRuns(q, tr[..|tr| - 1]) && QueueEnabled(QueueAfter(q, tr[..|tr| - 1]), tr[|tr| - 1]))
  }

  ghost function QueueAfter(q: seq<Item>, tr: seq<QueueStep>): seq<Item>
    requires QueueRuns(q, tr)
    decreases |tr|, 1
  {
    if tr == [] then q else QueueNext(QueueAfter(q, tr[..|tr| - 1]), tr[|tr| - 1])
  }

  /** The queue steps that a run of the protocol amounts to. */
  ghost function AbstractRun(s: World, tr: seq<Step>): (qs: seq<QueueStep>)
    requires Runs(s, tr)
    ensures |qs| == |tr|
    decreases |tr|
  {
    if tr == [] then []
    else AbstractRun(s, tr[..|tr| - 1]) + [Abstract(After(s, tr[..|tr| - 1]), tr[|tr| - 1])]
  }

  /** Refinement: every run of the protocol, with its leases, heartbeats, crashes and lost
      statements, is a run of the lease-free queue. */
  lemma {:induction false} ProtocolRefinesQueue(n: nat, tr: seq<Step>)
    requires n >= 1 && Runs(Init(n), tr)
    ensures QueueRuns([], AbstractRun(Init(n), tr))
    ensures QueueAfter([], AbstractRun(Init(n), tr)) == QueueOf(After(Init(n), tr).tasks)
    decreases |tr|
  {
    if tr != [] {
      var front := tr[..|tr| - 1];
      ProtocolRefinesQueue(n, front);
      RunsPreserve(Init(n), front);
      StepRefines(After(Init(n), front), tr[|tr| - 1]);
      var qs := AbstractRun(Init(n), tr);
      assert qs[..|qs| - 1] == AbstractRun(Init(n), front);
    }
  }
}
