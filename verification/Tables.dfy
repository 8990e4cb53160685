/** The rows of the `jobs`, `runs`, `tasks` and `artifacts` tables, and each SQL
    statement of the leasing and completion protocol as a function on the row it
    updates.  Row identifiers are positions in the table, so the order of a table
    is its creation order. */
module Tables {
  datatype Option<+T> = None | Some(value: T)

  /** The values of `task_state` that some statement writes. */
  datatype TaskState = Pending | Leased | Succeeded | Failed | Dead

  /** The values of `run_state` that some statement writes. */
  datatype RunState = RunSubmitted | RunSucceeded | RunFailed | RunCancelled

  /** The values of `job_state` that some statement writes. */
  datatype JobState = JobSubmitted | JobQueued | JobSucceeded | JobFailed | JobCancelled

  datatype JobRow = JobRow(state: JobState, maxRetries: int)

  datatype RunRow = RunRow(job: nat, state: RunState,
                           total: int, pending: int, running: int, done: int, failed: int)

  datatype TaskRow = TaskRow(run: nat, partition: nat, state: TaskState,
                             owner: Option<nat>, expires: Option<nat>, retries: nat)

  /** A registered artifact `partition-<partition>.csv` of a run.  `total` is the
      TOTAL_PARTITIONS the subprocess sliced the dataset with. */
  datatype Artifact = Artifact(run: nat, partition: nat, total: nat)

  /** What `GetRunProgress` returns of a run, as far as the completion test reads it. */
  datatype Progress = Progress(done: int, failed: int, total: int)

  /** `INTERVAL '30 seconds'`, in milliseconds. */
  const LEASE_MILLIS: nat := 30000

  // -- tasks ------------------------------------------------------------------

  function NewTask(run: nat, partition: nat): TaskRow {
    TaskRow(run, partition, Pending, None, None, 0)
  }

  /** The rows that the inner SELECT of `LeaseTask` accepts. */
  predicate Leasable(row: TaskRow, now: nat) {
    row.state == Pending && (row.expires == None || row.expires.value < now)
  }

  /** `ORDER BY created_at ASC LIMIT 1 FOR UPDATE SKIP LOCKED`, from row `i` on.
      `locked` are the rows that other statements hold locked at that moment. */
  function LeaseCandidate(tasks: seq<TaskRow>, now: nat, locked: set<nat>, i: nat := 0): (c: Option<nat>)
    requires i <= |tasks|
    ensures c.Some? ==> i <= c.value < |tasks| && c.value !in locked && Leasable(tasks[c.value], now)
    ensures c.Some? ==> forall j :: i <= j < c.value ==> j in locked || !Leasable(tasks[j], now)
    ensures c.None? ==> forall j :: i <= j < |tasks| ==> j in locked || !Leasable(tasks[j], now)
    decreases |tasks| - i
  {
    if i == |tasks| then None
    else if i !in locked && Leasable(tasks[i], now) then Some(i)
    else LeaseCandidate(tasks, now, locked, i + 1)
  }

  function LeaseRow(row: TaskRow, worker: nat, now: nat): TaskRow {
    row.(state := Leased, owner := Some(worker), expires := Some(now + LEASE_MILLIS))
  }

  function HeartbeatRow(row: TaskRow, worker: nat, now: nat): TaskRow {
    if row.owner == Some(worker) then row.(expires := Some(now + LEASE_MILLIS)) else row
  }

  function RetryRow(row: TaskRow): TaskRow {
    row.(state := Pending, retries := row.retries + 1, owner := None, expires := None)
  }

  /** `SELECT COUNT(*) FROM tasks WHERE run_id = r`. */
  function RunTaskCount(tasks: seq<TaskRow>, r: nat): nat {
    if tasks == [] then 0
    else RunTaskCount(tasks[..|tasks| - 1], r) + (if tasks[|tasks| - 1].run == r then 1 else 0)
  }

  // -- runs -------------------------------------------------------------------

  function NewRun(job: nat): RunRow {
    RunRow(job, RunSubmitted, 0, 0, 0, 0, 0)
  }

  function TaskStartedRow(run: RunRow): RunRow {
    run.(pending := run.pending - 1, running := run.running + 1)
  }

  function TaskSucceededRow(run: RunRow): RunRow {
    run.(running := run.running - 1, done := run.done + 1)
  }

  function TaskFailedRow(run: RunRow): RunRow {
    run.(running := run.running - 1, failed := run.failed + 1)
  }

  function ProgressOf(run: RunRow): Progress {
    Progress(run.done, run.failed, run.total)
  }

  /** The completion test of `checkAndCompleteRun`. */
  predicate AllDone(p: Progress) {
    p.done + p.failed == p.total
  }

  function RunVerdict(failed: int): RunState {
    if failed > 0 then RunFailed else RunSucceeded
  }

  function JobVerdict(verdict: RunState): JobState {
    if verdict == RunFailed then JobFailed else JobSucceeded
  }

  function Max0(m: int): nat {
    if m < 0 then 0 else m
  }
}
