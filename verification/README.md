# Mini Databricks: the job protocol, verified

This project models the part of Mini Databricks where its correctness is decided, and proves
what that part guarantees: the protocol by which workers, the scheduler and `CancelJob` share
the `tasks`, `runs` and `jobs` tables; the slicing of a dataset into partitions; the
transactional outbox, its dispatchers and the retrying consumer; the rate-limit counter; and
the autoscaler.  `dafny verify dfyconfig.toml` checks all of it.

## How the protocol is modelled

`Tables.dfy` holds the rows and every SQL statement as a function on the row it updates.
`Protocol.dfy` is a state machine whose steps are single SQL statements.  A worker is a program
counter (`Phase`) that names the statement it issues next, with the locals that later statements
use.  Any worker, scheduler, cancellation, heartbeat or clock tick may take the next step.  A
crashed worker is one that takes no further step, so every statement about reachable states is
also one about crashes.

* Row identifiers are positions in a table, so a table's order is its `created_at` order;
  rows of these tables are never deleted in the model.
* `FOR UPDATE SKIP LOCKED` is an arbitrary set of rows that a poll skips.
* The scheduler's constant 3 is any `n >= 1`; `max_retries` is any integer.
* Every write of a worker has an `Outcome`: it took effect (`Done`), it failed (`Lost`), or it
  took effect although the worker saw an error (`Unsure`).  Theorems hold for all three unless
  they ask for `clean`, the base regime, in which no statement issued for the run's tasks has
  failed.
* A dataset does not change while a run is computed: `EndToEnd.dfy` cuts all slices of a run from
  one frame, although each poll downloads it anew.
* `process` succeeds or fails as it likes; only its slice arithmetic, its task count and its
  artifact insert are modelled.
* History variables (`TaskHistory`, `RunHistory`, `log`) record what happened and steer nothing.
  `eager` says that a task of the run was leased before `InitRunProgress`; scheduling is not one
  transaction, so this can happen, and the theorems that need a run to be "scheduled first" ask
  for `!eager`.

`Invariant.dfy` is the inductive invariant with its counting measures, `Preservation.dfy` proves
that every step keeps it, and the other modules draw the theorems from it; `LastWrite.dfy` says
what the state columns of jobs and runs show.  `Database.dfy`,
`Worker.dfy`, `Scheduler.dfy` and `Jobs.dfy` give the shared tables, the worker, the scheduler and
the cancellation the form they have in the source: objects that issue one statement after the
other against a shared `Database`, with an arbitrary `Interfere` between any two of them (a
method of which callers know only its contract).  Each statement is recorded as a protocol
step, so every theorem about reachable states applies to the objects.  What befalls a call from
outside is a parameter (`Luck`): with it, the contracts say exactly which statements are issued
and how the call ends, and in particular what happens when nothing fails.  `Outbox.dfy` and
`RateLimit.dfy` have the same two layers; `Consumer.dfy` and `Autoscaler.dfy` are objects with
the loops of the source.  `Load.dfy` joins the protocol and the rate limiter of one workspace into
one system, in which the counter is decremented by consumed announcements only.

## Where the code does less than its documentation says

* "Reliable event publishing" (`Readme.md`): a row that is marked FAILED is never read again.
  `Outbox.LostIffAbandoned` says exactly which events are lost, `Outbox.RefusedEventIsLost` shows
  one.
* "Safe retries: idempotency keys on job creation" (`Readme.md`): a key that is in use makes
  `CreateJob` return an error, not the existing job; and a lost answer to the commit or to the
  counter increment returns an error although the job is committed
  (`RateLimit.JobService.CreateJob`).
* "Failure handling: worker heartbeats" (`Readme.md`): `LeaseTask` takes PENDING rows only, so
  the lease of a crashed worker is never taken over.  `Recovery.LeaseEndsIffAttended` says
  exactly which leases can end, `Recovery.CrashedWorkerKeepsLease` that a crashed worker's cannot,
  and `Witnesses.FailedReadLosesTask` and `Witnesses.UnansweredLeaseLosesTask` show leases
  that are lost without a crash.
* A run whose last counted task failed stays SUBMITTED for ever, because only the success path
  calls `checkAndCompleteRun`: `Notice.CompletedIffWatched` is the exact condition, and
  `Witnesses.LastFailureIsNotNoticed` a run of it.  Such a run is never announced either:
  `Slots.SettledRunAnnouncedIff` is the exact condition in every regime, and
  `Slots.CancelledRunAnnouncedIff` that for cancelled runs, with
  `Races.BreakableRunIsNeverAnnounced` and `Races.BuriedRunIsNeverAnnounced` as examples.  The
  rate limit is decremented only when an announcement is consumed.
* The rate limit bounds the counter, not the number of running jobs.  That number is exactly the
  counter, plus one for every decrement beyond the first of a job, plus one for every stored job
  that was never counted (`Load.LoadIsExact`, in every reachable state).  A run can be announced
  more than once, so that at a limit of one two jobs run without any fault
  (`Load.FaultlessOverload`); `Load.LoadIsBounded` says how far that goes.  Jobs whose increment
  fails are not limited at all (`RateLimit.UncountedJobsAreUnbounded`), and when such a job
  finishes, its decrement lets another one in (`RateLimit.UncountedEventLetsTwoRun`).
* `tasks_pending` can be negative: `Accounting.PendingIsExact` says exactly when, in the base regime, and
  `Tightness.PendingBoundIsAttained` how far, for every partition count and retry budget.
* A poll between the scheduler's statements can lose a completion
  (`Witnesses.EagerLeaseLosesCompletion`), slice the dataset wrongly
  (`Witnesses.EagerLeaseSlicesWrongly`; exactly when: `EndToEnd.CountedPartitions` and
  `EndToEnd.CoversIffFullySliced`), and, if a counter statement is lost as well, complete a run
  whose `tasks_total` is still 0 (`Witnesses.LostCountCompletesUnsizedRun`; exactly when:
  `Completion.CompletionTestIsExact`), even one with a DEAD task (`Races.DeadRunSucceeds`;
  exactly when: `Slots.DeadRunCompletesIff`).
* A cancelled run can still become SUCCEEDED (`Witnesses.CancelledRunSucceeds`);
  `Cancellation.CancellationBreaksIff` is the exact condition.
* A job that prints to standard output misleads the worker about its result
  (`OutputLine.PrintingJobMisleads`); `OutputLine.WorkerFindsOutput` is the exact condition.

## Model

| member | source | states |
|---|---|---|
| EndToEnd.SucceededRunCoversDataset | services/worker/cmd/worker.go:261-325 | End to end: a run completed as SUCCEEDED, and not on 0 of 0, with all its artifact inserts kept has one artifact for every partition; their input slices in partition order concatenate to exactly the dataset's rows, whatever these are, iff each was cut with the full partition count, and so always when the run was scheduled first |
| EndToEnd.CoversIffFullySliced | sdk/python/worker/task_runner.py:39-48 | One registered slice per partition makes up every dataset iff every slice was cut with the full partition count: any smaller count makes slices overlap on some dataset |
| EndToEnd.CountedPartitions | services/worker/cmd/worker.go:261-272 | The partition count a subprocess is given is the full one iff all tasks of the run exist when GetRunTaskCount is executed |
| EndToEnd.SucceededRunIsCatalogued | services/worker/cmd/worker.go:312-322 | A run completed as SUCCEEDED, and not on 0 of 0, has registered exactly one artifact for each of its partitions and no other; each was sliced by the full partition count if the run was scheduled first |
| Completion.CompletionTestIsExact | services/worker/cmd/worker.go:359-373 | Exactly when the test done + failed == total tells the truth: a worker about to read such progress sees a run all of whose tasks are finished, with tasks_total their number, iff tasks_total is not 0; and 0 of 0 can be read only in a run that was leased before it was scheduled and that has lost a statement |
| Completion.CompletionSafety | services/worker/cmd/worker.go:372-387 | Whenever a worker is about to execute CompleteRun with a total other than 0, tasks_total is the number of the run's tasks, all of them are finished, and the verdict is SUCCEEDED iff all are SUCCEEDED; in the base regime each is SUCCEEDED or FAILED; the total is never 0 for a run that was scheduled first, nor in the base regime |
| Agreement.CompletionsAgree | services/worker/cmd/worker.go:372-400 | All CompleteRun and CompleteJob statements of one run, in any history and whatever is lost, crashes or was leased too early, write the same run state and the same job state |
| Agreement.RacersAgree | services/worker/cmd/worker.go:359-387 | Workers that have passed the completion test for one run will write the same verdict, and the one that any worker has written before |
| Completion.DeadTaskForbidsCompletion | services/worker/cmd/worker.go:196-230 | A run that has a DEAD task is never completed, neither before nor in any continuation: as FAILED not at all, and as SUCCEEDED only if it was leased too early and lost a statement |
| Agreement.NoLostCompletion | services/worker/cmd/worker.go:214-230 | In the base regime, when all workers are idle and all tasks of a scheduled-first, never cancelled run are SUCCEEDED, the run is SUCCEEDED and job.completed was attempted |
| Notice.CompletedIffWatched | services/worker/cmd/worker.go:188-230 | In the base regime a fully counted run has, once the workers are idle, been completed and announced iff a worker still had to read its progress (or had read it) when the last task was counted |
| Agreement.CompletedStateShows | internal/db/queries/runs.sql:81-87 | The run row shows the verdict of its completion unless the run was cancelled |
| Agreement.JobStateShows | internal/db/queries/jobs.sql:26-32 | A job row that says SUCCEEDED goes with a completed run of the job whose verdict is SUCCEEDED, one that says FAILED with a FAILED one; if the job has one run, its row shows the verdict of every completion of it |
| LastWrite.JobShowsLastWrite | services/worker/cmd/worker.go:375-397 | In every history a job row shows the last statement on it: QUEUED or CANCELLED, or, if that was a CompleteJob that took effect, SUCCEEDED for a SUCCEEDED run and FAILED for a FAILED one |
| LastWrite.JobStays | internal/db/queries/jobs.sql:15-32 | Only QueueJob and CancelJob of this job and a CompleteJob of a run of it change its row: without one, a CANCELLED or any other job stays as it is |
| LastWrite.JobShowsSubmission | internal/db/queries/jobs.sql:1-4 | A job keeps the retry limit of its submission, and is SUBMITTED until the first such statement |
| LastWrite.RunShowsLastWrite | services/worker/cmd/worker.go:372-387 | Likewise for runs: CANCELLED, or FAILED if the progress that the completing worker has read counts a failed task, and SUCCEEDED otherwise |
| LastWrite.RunShowsCreation | services/scheduler/cmd/scheduler.go:73-84 | A new run belongs to the job that it was created for, counts nothing, and is SUBMITTED until the first such statement |
| LastWrite.CompletedJobTellsTasks | services/worker/cmd/worker.go:359-400 | If the last statement on a job was a completion, then the job is SUCCEEDED if all tasks of that run are SUCCEEDED and FAILED otherwise, in every regime for a run that was scheduled first, and in the base regime for every run |
| LastWrite.NoLostJob | services/worker/cmd/worker.go:214-230 | No lost completion, for the job: in the base regime, when all workers are idle and all tasks of a scheduled-first, never cancelled run are SUCCEEDED, and the job has no other run, was not cancelled and not marked QUEUED again, the job is SUCCEEDED |
| LastWrite.LeaseShowsLastBeat | internal/db/queries/tasks.sql:6-26 | While a row stays LEASED it expires 30 seconds after its lease or the last heartbeat of its owner, whatever heartbeats others send |
| Errors.TransientUnlessRefused | internal/errors/errors.go:37-44 | IsTransient holds of an error iff the first JobError that unwrapping meets, if there is any, is not permanent |
| Errors.UnknownIsTransient | internal/errors/errors.go:37-44 | An error without a JobError at any depth, such as all that process returns, is transient |
| History.ProgressIsMonotone | internal/db/queries/runs.sql:59-73 | tasks_done and tasks_failed only grow and never pass the number of tasks or a set tasks_total, so that the equality test cannot be jumped over |
| History.SettledIsFrozen | services/worker/cmd/worker.go:372-373 | Once done + failed equals a set tasks_total, the run's done, failed, total and running never change in any continuation, whatever workers do, nor does pending once InitRunProgress was executed |
| History.FinishedIsAbsorbing | internal/db/queries/tasks.sql:28-65 | SUCCEEDED, FAILED and DEAD are absorbing in every continuation, although no UPDATE tests the state |
| Accounting.OneHolderPerTask | services/worker/cmd/worker.go:88-101 | At most one worker holds a task, the row names that worker as owner, and it is LEASED until that worker finishes it, whatever leases expire and heartbeats do |
| Accounting.FinishedCounters | internal/db/queries/runs.sql:59-73 | In the base regime, across retries and crashes, tasks_done is the number of SUCCEEDED tasks minus those a worker has marked and not yet counted; likewise tasks_failed and FAILED |
| Accounting.RunningCounter | internal/db/queries/runs.sql:50-73 | In the base regime, across retries and crashes, tasks_running is the number of started leases plus the sum of retry_count plus the tasks made DEAD after their start plus those marked and not counted |
| Accounting.CountersAreConserved | internal/db/queries/runs.sql:25-29 | pending + running + done + failed is tasks_total plus the tasks started before InitRunProgress in every reachable state after it, and 0 before it |
| Accounting.PendingIsExact | internal/db/queries/runs.sql:25-57 | For every run in the base regime, leased early or not, initialised or not: tasks_pending is n plus the early starts (0 before InitRunProgress), plus the tasks not started since they were last PENDING, minus the tasks there are and the sum of retry_count; with exactly when it is negative |
| Accounting.PendingIsBounded | internal/db/queries/runs.sql:50-57 | For a run scheduled first, in every regime, tasks_pending lies between -n * max(0, max_retries) and n |
| Tightness.PendingBoundIsAttained | services/worker/cmd/worker.go:156-175 | For every n and max_retries a fault-free run reaches tasks_pending = -n * max(0, max_retries) |
| Accounting.RetriesAreBounded | services/worker/cmd/worker.go:156-175 | retry_count never exceeds max(0, max_retries), and process is called at most once more often than that |
| Accounting.OneArtifactPerPartition | services/worker/cmd/worker.go:312-325 | A run has at most one artifact per partition over all interleavings, retries, crashes and lost statements |
| Cancellation.CancellationBreaksIff | services/worker/cmd/worker.go:196-230 | A CANCELLED run can still get another state or another SUCCEEDED task iff a worker of it is about to mark its task or to write the verdict, or is about to read progress that is 0 of 0 or in which every task is counted or can still be counted |
| Cancellation.CancellationIsStable | services/worker/cmd/worker.go:196-212 | When that is not so, the run stays CANCELLED in every continuation, no task of it becomes SUCCEEDED and no completion is written |
| Witnesses.CancelledRunSucceeds | services/worker/cmd/worker.go:214-230 | A reachable CANCELLED run that, in a continuation without faults, has its task and then itself SUCCEEDED |
| Recovery.LeaseEndsIffAttended | internal/db/queries/tasks.sql:6-19 | A LEASED row can become anything else, in any continuation, iff a worker that holds it has not yet left its poll: no expiry, heartbeat or other worker frees it |
| Recovery.CrashedWorkerKeepsLease | services/worker/cmd/worker.go:87-236 | In every continuation in which the owner of a LEASED row takes no step the row stays LEASED by it |
| Witnesses.FailedReadLosesTask | services/worker/cmd/worker.go:118-122 | A reachable state with idle workers and a LEASED row that no continuation frees, after a failed GetRunState |
| Witnesses.UnansweredLeaseLosesTask | services/worker/cmd/worker.go:89-109 | The same after a LeaseTask that took effect although its answer was lost |
| Slots.SettledRunAnnouncedIff | services/worker/cmd/worker.go:188-230 | In every regime, a fully counted run is announced in some continuation, or was before, iff it is announced already or some worker has still to read its progress or has passed the completion test |
| Slots.CancelledRunCompletesIff | services/worker/cmd/worker.go:196-230 | A CANCELLED run is completed in some continuation, or was before, iff it is completed already, or a worker of it has passed the completion test or is between its mark and its read of a progress that is 0 of 0 or in which all tasks are counted or can still be |
| Slots.CancelledRunAnnouncedIff | services/worker/cmd/worker.go:359-412 | The same for its announcement, where a worker between the completion and the announcement counts as well |
| Races.BreakableRunIsNeverAnnounced | services/worker/cmd/worker.go:196-230 | A reachable CANCELLED run whose cancellation can still be broken and which is never announced |
| Races.BuriedRunIsNeverAnnounced | internal/service/job_service.go:163-175 | A reachable CANCELLED run with idle workers that is never announced |
| Slots.DeadRunCompletesIff | services/worker/cmd/worker.go:196-230 | A run with a DEAD task is completed in some continuation, or was before, iff it is already, or a worker of it has passed the completion test or is between its mark and its read of a progress that is 0 of 0 |
| Races.DeadRunSucceeds | services/worker/cmd/worker.go:222-230 | A reachable run with a DEAD task that is completed as SUCCEEDED |
| Slots.AnnouncementsAreBounded | services/worker/cmd/worker.go:402-407 | job.completed is attempted for a run at most once for each of its SUCCEEDED tasks, so at most n times, whatever races, crashes or is lost |
| Races.RunIsAnnouncedTwice | services/worker/cmd/worker.go:359-407 | A reachable state, without faults, in which one run is announced twice |
| Termination.WorkIsBounded | services/worker/cmd/worker.go:156-194 | In every history, all statements that workers issue for tasks, together with the polls that get one, number at most 12 per attempt that the tasks' retry budgets allow |
| Termination.WorkersRunDry | services/worker/cmd/worker.go:87-236 | From any reachable state and without new tasks only Fuel many such statements can follow: the workers come to rest |
| Termination.StepUsesFuel | services/worker/cmd/worker.go:87-236 | The measure over all tasks and workers decreases with every such statement and is raised by CreateTask alone |
| Queue.LeaseTakesOldest | internal/db/queries/tasks.sql:6-19 | The row LeaseTask takes is the oldest PENDING one outside the skipped rows: its expiry clause never excludes a row |
| Queue.ProtocolRefinesQueue | internal/db/queries/tasks.sql:6-65 | Every run of the protocol is, step by step, a run of a work queue without leases or time; heartbeats are stutter steps |
| Queue.StepRefines | internal/db/queries/tasks.sql:21-26 | Each single statement acts on the queue as the queue step it abstracts to, which only the holder of a task can take |
| Preservation.ReachableInv | services/worker/cmd/worker.go:87-236 | The inductive invariant, with its exact counting of starts, counts and retries, holds in every reachable state |
| Slicing.SlicesTile | sdk/python/worker/task_runner.py:39-48 | For every number of rows and of partitions the slices in order concatenate to the whole frame, also when there are fewer rows than partitions |
| Slicing.EachRowInOneSlice | sdk/python/worker/task_runner.py:41-46 | A row lies between the bounds of exactly one slice, the one OwnerOf names |
| Slicing.SliceSizes | sdk/python/worker/task_runner.py:40-46 | With at least one row per partition every slice but the last has rows // n rows and the last at least that and fewer than that plus n |
| OutputLine.ParseInvertsPrint | services/worker/cmd/worker.go:297-303 | After any other output the worker recovers path and size of the last line iff the path has no colon and that output is blank or itself begins with the path, a colon and the size |
| OutputLine.OutputKeyIsUnique | sdk/python/worker/task_runner.py:123 | Two outputs have the same key only if run and partition are the same, for identifiers without a slash |
| OutputLine.WorkerFindsOutput | sdk/python/worker/task_runner.py:51-72 | For a run identifier without colons the worker registers what the task runner wrote iff the user's job printed nothing but blanks before, or that very announcement |
| OutputLine.PrintingJobMisleads | sdk/python/worker/task_runner.py:123-128 | A job that prints a word makes the worker register something else, for every path and size |
| OutputLine.RepeatedLineIsHarmless | services/worker/cmd/worker.go:297-303 | A job that prints the very line does not |
| Worker.Worker.PollAndProcess | services/worker/cmd/worker.go:87-236 | For every interference between its statements: the poll leases the oldest row that is not locked unless there is none or LeaseTask fails, and issues exactly the statements that its faults and its result call for; without faults and without a cancellation it ends in Completed when process succeeds, in Retried when it fails, retries are left and no permanent JobError comes first in the error, and in GaveUp otherwise, and the row shows it |
| Worker.Worker.RunTask | services/worker/cmd/worker.go:135-236 | The same from TaskStarted on |
| Worker.Worker.HandleError | services/worker/cmd/worker.go:156-193 | After an error of process the task is retried iff the job could be read, retry_count < max_retries and no permanent JobError comes first in the error; so an error without a JobError is retried exactly as long as the job can be read and retries are left; then the row is PENDING with one retry more, else FAILED and counted, as far as the writes took effect |
| Worker.Worker.HandleSuccess | services/worker/cmd/worker.go:196-235 | After a success of process the poll ends early only for a failed read or mark, buries the task only for a cancelled run, and otherwise marks, counts and checks for completion |
| Worker.Worker.CheckAndCompleteRun | services/worker/cmd/worker.go:359-412 | CompleteRun is issued iff the progress that was read, at one point since the call, says that all tasks are done; a recorded statement since then leaves the run row SUCCEEDED, or FAILED if that progress counts a failed task, a second one leaves the job row so, and job.completed is attempted, as far as no write failed |
| Worker.Worker.Process | services/worker/cmd/worker.go:238-326 | process returns the first error that it meets; it counts the tasks iff it could read the job and the dataset, and inserts the artifact, exactly once, iff it returns nil |
| Worker.Worker.HeartbeatLoop | services/worker/cmd/worker.go:328-357 | The loop goes on exactly as long as the UPDATE works and the worker owns the row; every heartbeat that took effect found the worker as owner and moved the expiry to 30 seconds from then, and nothing else of the row |
| Worker.Worker.Start | services/worker/cmd/worker.go:71-85 | A sequence of polls issues exactly the statements of its polls, one poll after the other |
| Database.Database.LeaseTask | internal/db/queries/tasks.sql:6-19 | The oldest leasable row outside the locked ones becomes LEASED by this worker for 30 seconds, and no other row changes |
| Database.Database.GetRunTaskCount | internal/db/queries/tasks.sql:72-74 | The scan counts the rows of the run |
| Scheduler.Scheduler.HandleJobSubmitted | services/scheduler/cmd/scheduler.go:61-117 | Whatever others do in between, the handler executes exactly: one UPDATE that leaves the job QUEUED, one CreateRun, n CreateTask, one total and one InitRunProgress, all for the run that this very CreateRun inserted, or the part of them up to the first that fails; it returns normally iff none fails, and then the run has exactly n tasks, one for every partition, and tasks_total set to n |
| Jobs.JobService.CancelJob | internal/service/job_service.go:148-178 | Whatever others do in between, CancelJob executes exactly: an UPDATE that leaves the job CANCELLED, and then the cancellation of each listed run once, as far as they take effect; the list holds every run the job had at the call and no run of another job; it succeeds iff the first UPDATE and the listing do |
| Witnesses.PendingCanBeNegative | internal/db/queries/tasks.sql:47-56 | A reachable state, without faults, in which tasks_pending is -1 |
| Witnesses.LastFailureIsNotNoticed | services/worker/cmd/worker.go:177-193 | A reachable state, without faults and with idle workers, in which all tasks are counted and the run is not completed |
| Witnesses.EagerLeaseLosesCompletion | services/scheduler/cmd/scheduler.go:90-117 | A reachable state in which the only task is SUCCEEDED and its run is never completed, because it was leased before the total was set |
| Witnesses.LostCountCompletesUnsizedRun | services/worker/cmd/worker.go:222-230 | A reachable state in which a run with tasks_total 0 is SUCCEEDED: its task was leased early and its TaskSucceeded lost |
| Witnesses.EagerLeaseSlicesWrongly | services/worker/cmd/worker.go:261-272 | A reachable state in which the first of two partitions was computed from the whole dataset |
| Outbox.NoEventIsLost | internal/kafka/dispatcher.go:44-65 | In every history of submissions, dispatcher crashes, lost marks, concurrent dispatchers and cleanups, each committed job has its row PENDING or FAILED or its event in the log |
| Outbox.LostIffAbandoned | internal/db/queries/outbox.sql:19-24 | A committed event is in the log in some continuation iff it is there already, or its row is not FAILED, or some dispatcher is still due to publish it |
| Outbox.RefusedEventIsLost | internal/kafka/dispatcher.go:58-62 | A history in which one refusal by the broker loses the event for good |
| Outbox.PurgedIsFinal | internal/db/queries/outbox.sql:12-29 | A row that was cleaned up does not come back, whatever a dispatcher still marks |
| Outbox.LogIsCreationOrder | internal/kafka/dispatcher.go:39-66 | With one dispatcher that does not crash between a publish and its mark, certain answers and marks that apply, the log between two ticks is the creation-order sequence of the settled events with exactly the FAILED ones left out |
| Outbox.DispatchIsFifo | internal/kafka/dispatcher.go:39-66 | The same as an invariant between any two statements, with how far the dispatcher has come after how many fetches |
| Outbox.DrainsInTicks | internal/db/queries/outbox.sql:6-10 | m pending events and no arrivals are drained after ceil(m / 10) ticks and not before |
| Outbox.Dispatcher.Dispatch | internal/kafka/dispatcher.go:39-67 | Whatever happens between its statements, a tick whose fetch works takes the batch of the rows at that fetch and issues one publish and one mark for each event, in order, with the given replies and marks; a tick whose fetch fails does nothing; every event the broker did not refuse is in the topic |
| Outbox.BatchIsOldest | internal/db/queries/outbox.sql:6-10 | The batch holds the oldest PENDING rows in creation order: one is left out only when ten older ones are in it |
| Consumer.Consumer.HandleMessage | internal/kafka/consumer.go:60-96 | A message is handled at its first success, goes to the dead-letter topic only after three failures, and is lost only to a shutdown or a failed dead-letter publish; the handler is called exactly once per attempt made |
| Consumer.Consumer.Consume | internal/kafka/consumer.go:37-98 | The messages handled, dead and lost are those whose fate says so; every message read is in exactly one of the three places, once, and each place keeps the order of the topic; at most three handler calls each; only a shutdown ends the loop |
| RateLimit.CounterIsBounded | internal/service/job_service.go:41-117 | With at most k concurrent CreateJob calls the counter plus the calls that passed the check and have not incremented never exceeds max + k - 1, before and after their commit, whatever rollbacks, errors and decrements occur |
| RateLimit.SequentialCallsRespectMax | internal/ratelimit/ratelimit.go:25-45 | One call at a time keeps the counter within max |
| RateLimit.RunningIsExact | services/api-gateway/cmd/main.go:86-100 | In every history the number of jobs stored and without a consumed event is exactly the counter, plus the events beyond the first of each job, plus the stored jobs that were never counted, plus the finished jobs that were never stored; and of these jobs exactly the counter, plus those repeated events, plus the finished jobs that were never counted, are counted |
| RateLimit.RunningExceedsIff | internal/ratelimit/ratelimit.go:25-45 | More than max + k - 1 jobs run iff the repeated events and the uncounted jobs are more than the counter leaves room for; without either never |
| RateLimit.RunningWithRepeats | services/api-gateway/cmd/main.go:86-100 | With at most n events for every job, at most max + k - 1 jobs run, and n - 1 more for every finished job, and one more for every job that was never counted |
| RateLimit.UncountedJobsAreUnbounded | internal/service/job_service.go:111-117 | For every limit and every m a history with one call at a time, whose increments fail, in which m jobs run |
| RateLimit.UncountedEventLetsTwoRun | internal/service/job_service.go:115-117 | At a limit of one, a history with one call at a time and one event in which two counted jobs run: the event is of a job whose increment failed |
| Load.LoadIsExact | services/worker/cmd/worker.go:402-407 | The same for the protocol and the rate limiter together: in every reachable state the workspace's running jobs number exactly the counter plus the repeated decrements plus the uncounted jobs; every decrement is of a job that was stored |
| Load.LoadIsBounded | services/worker/cmd/worker.go:402-407 | In every reachable state, if a job has at most q runs and an event is consumed at most u times, no job is decremented more than u * n * q times, and at most max + k - 1 jobs run, and u * n * q - 1 more for every finished job, and one more for every uncounted one |
| Load.LoadIsBoundedBy | services/api-gateway/cmd/main.go:86-100 | The same with a in place of n when no run is announced more than a times; so with one run per job, announced and consumed once, the running jobs keep the bound of the counter, except for those never counted |
| Load.FaultlessOverload | internal/ratelimit/ratelimit.go:25-45 | A reachable state of the two together, without faults, with one call at a time, one run and each event consumed once, in which two jobs run at a limit of one and every job was counted |
| RateLimit.BoundIsTight | internal/ratelimit/ratelimit.go:25-45 | For every max and k there is a history that reaches max + k - 1: check and increment are two steps |
| RateLimit.JobService.CreateJob | internal/service/job_service.go:30-118 | For every interference, a submission takes exactly the limiter steps of its result; it stores its job with its event, once and under a key not in use, iff its commit took effect, also when the commit or the increment answers with an error; it is refused only when the counter is at the limit; an unanswered check, and only that, ends it with that error, and a bad identifier ends it with that one unless it is refused, so that neither stores anything; any other error has its cause; and the counter stays within max + k - 1 |
| RateLimit.JobService.Store | internal/service/job_service.go:64-109 | The transaction rolls back iff a statement of it fails or the key is in use; otherwise its draft with job and event becomes the tables iff the commit took effect, and nothing of it is visible else |
| RateLimit.JobService.Resubmit | internal/service/job_service.go:74-89 | A submission whose key is in use gets an error and stores nothing, whatever happens in between |
| Autoscaler.ActionsPerWindow | services/autoscaler/cmd/autoscaler.go:70-74 | Among actions at least a cooldown apart, no window of length w holds more than 1 + w / cooldown |
| Autoscaler.Autoscaler.Evaluate | services/autoscaler/cmd/autoscaler.go:55-121 | One evaluation acts only after the cooldown and with both services answering: it adds one worker iff more tasks are pending than the upper threshold and there is room, takes one away iff not that, at most the lower threshold is pending, none is running and there are more than the minimum, and does nothing otherwise |
| Autoscaler.Autoscaler.Start | services/autoscaler/cmd/autoscaler.go:38-53 | Over any number of ticks replicas that start within the bounds stay there, they change only by moves of one, as many as there are successful actions and calls with an uncertain answer, and no window holds more than 1 + w / cooldown successful actions; no tick moves them without the demand for it, and each tick past the cooldown moves them with it |
| Autoscaler.Autoscaler.ScalesDown | services/autoscaler/cmd/autoscaler.go:105-121 | k ticks past the cooldown with too little work and answering services bring r replicas to max(minWorkers, r - k) |
| Autoscaler.Autoscaler.ScalesUp | services/autoscaler/cmd/autoscaler.go:88-103 | k such ticks with too much work bring r replicas to min(maxWorkers, r + k) |
| Autoscaler.Autoscaler.NeverWrongWay | services/autoscaler/cmd/autoscaler.go:88-121 | While more than the lower threshold is pending or a task is running no worker is taken away; while at most the upper threshold is pending none is added |

## Left out

- Worker.Worker.PollAndProcess: an abandoned row keeps its lease, as in the source.
- Worker.Worker.HeartbeatLoop: that the loop stops with its poll is not modelled; heartbeats may come at any time, from any worker, for any task.
- Scheduler.Scheduler.HandleJobSubmitted: the redelivery of the event by the consumer is another call, and makes another run.
- Completion.DeadTaskForbidsCompletion: a completion as SUCCEEDED is excluded only for a run that was scheduled first or is in the base regime; `Slots.DeadRunCompletesIff` is the exact condition.
- EndToEnd.SucceededRunIsCatalogued: leaves out runs completed on 0 of 0, which need not have registered all artifacts.
- RateLimit.RunningIsExact: a job counts as running from its commit to its first consumed event, also when its run has come to rest without an announcement.
- Load.LoadIsBounded: the number of decrements for one event and of runs for one job are parameters; their sources, redelivery of job.completed, handler attempts whose answer is lost, and redelivery of job.submitted, are not modelled further.
- Outbox.DispatchIsFifo: assumes a dispatcher that does not crash between a publish and its mark, and publishes whose error means failure.
- Outbox.BatchIsOldest: rows are in the order of their commits, which is taken for that of `created_at`; the column defaults to `NOW()`, the start of the transaction (`internal/db/migrations/000007_create_artifacts_and_outbox.up.sql:20`), so the rows of two overlapping submissions can commit the other way round, and two can have the same time.
- RateLimit.CounterIsBounded: the counter of one workspace; workspaces have separate keys.
- RateLimit.JobService.Store: the statements of one transaction are not interleaved with other transactions; the UNIQUE index makes them wait for each other.
- OutputLine.ParseInvertsPrint: sizes beyond 64 bits, for which `Sscanf` leaves 0.
- Autoscaler.Autoscaler.Start: the autoscaler is the only writer of the replica count.
- The columns `error_message`, `started_at`, `finished_at`, `attempts` and `percent_complete`, which no modelled statement reads, and the enum values (RUNNING, CHECKPOINTING, RETRYING and others) that no modelled statement writes.
- The 32-bit width of the counters: a run has 3 tasks and a small retry budget.
- The errors that `process` returns never hold a `JobError`; the model allows every chain of errors.
- Consumer offsets: a message read is a message committed, as `ReadMessage` does; redelivery after a crash of the consumer is not modelled there (in `Load.dfy` an event can be consumed any given number of times), nor are read errors, which the loop skips.
- The circuit breaker: a poll that it refuses is a poll that finds no task.
- The cleanup of DEAD and FAILED tasks and of stale datasets, which deletes old rows by wall-clock age.
- The Kubernetes controller, MinIO, the Kafka producer and Redis, which appear only as calls that succeed or fail on a log, a counter or a replica count.
- The Python subprocess and the user's `run` function: only the slice they are given and the line they print.
- Users, workspaces, datasets, authentication, HTTP handlers, the SDK client, the frontend, metrics and tracing: no protocol state.
