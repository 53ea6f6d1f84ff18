# Vibe Print: a verified model of its core

Vibe Print is a durable print-job gateway: jobs arrive over HTTP, wait in a SQLite table, and are
driven to printers by one asyncio worker. This project models, in Dafny 4.11, the parts of it whose
behaviour is hardest to see from any one function, and proves what they keep:

- the job store, the submission handlers and the worker as one system of interleaved steps, with
  operator calls, sweeps and restarts (`JobStore`, `PrintApi`, `Worker`, `WorkerTasks`, and results in the
  other `Worker...` files), pool routing (`Pools`, `PoolRouting`), job-list pagination (`Pagination`) and
  offline alerts (`OfflineMonitor`);
- the IPP request encoder and the attribute parser, RFC 8010 sections 3.1.1 to 3.1.7 for the layout
  and 3.5 for the tags (`IppWire`, `IppClient`, `IppTables`, `IppBytes`);
- the hash-chained audit tables (`AuditChain`, `AuditHash`);
- the table layout, the ZPL renderer and the `^GFA` packer (`TextLayout`, `Zpl`, `GfaImage`);
- the rate limiter (`RateLimiter`) and the configuration registry with its import (`ConfigTable`,
  `Registry`, `ConfigRuns`).

`dafny verify dfyconfig.toml` checks everything. Objects the program updates in place are classes whose
methods are each proved equal to one specification function on values; the theorems are about those
functions and about whole runs of them.

## What is assumed

- **Atomic steps.** Every store, registry and audit method and every handler is one step; the program
  reads and then writes without a transaction (`app/queue.py:175-180`, `app/registry.py:101-122`,
  `app/audit.py:43-54`). A worker step is one stretch of code between two awaits or two store calls.
  Walking the batch of ready jobs does not await, so no task runs meanwhile.
- **Time.** Instants are abstract reals; the texts of the audit tables' timestamps, which are hashed, are
  numbered by integers in text order (`Stamp`). The format at `app/db.py:24-25` leaves out the seconds, so
  the order of the stored texts is the order of the clock only from minute to minute; a theorem that
  needs ordered or distinct instants says so in its `requires`.
- **Backends.** A send ends in any way, at any time. At-most-once needs the contract that
  `app/backends/base.py:20-29` documents, that the two retryable errors mean nothing was streamed; it
  is the hypothesis `HonestRun`, and `BrokenContractResends` shows what happens without it.
- **Libraries.** SHA-256 never collides and never returns the empty text or sixty-four zeros
  (`CollisionFree`); `SomeHashIsCollisionFree` proves that some function of texts and rows does so. The
  request hash is kept as what it was computed from (`Digest`); uuids are fresh; text decoding is an
  arbitrary function; YAML and JSON round-trip; SQLite enforces the foreign keys as `app/db.py:64` asks.

## Main results

- **Delivery.** Over every interleaving of tasks, operator calls, sweeps and restarts, if the backends keep
  their contract: at most one send of a job between two requeues may have put bytes on the wire
  (`AtMostOnce`), and the statuses done, uncertain, dead and queued tell whether one did
  (`StatusTellsDelivery`). Contract or not, a job's print audit rows never outnumber such sends
  (`RowsAreBacked`); on a run that keeps the contract, without restarts or exceptions at the wrong moment,
  the two agree (`CalmRowsAreExact`). A job goes to the printer it names or to the first answering member of
  its pool (`TargetsAreChosen`), not before its schedule (`ScheduleIsWaitedFor`), and its row tells how its
  last send ended (`StatusTellsOutcome`, `DeliveryTellsOutcome`). It is told which step can end each status
  (`StatusLeavesExactly`); a job is started at most max(1, max_attempts) times (`BoundedTries`), costs a
  bounded number of steps (`WorkIsBounded`), and waits out its backoff (`RetryWaits`).
- **Exclusion and progress.** One task a job, eight past the semaphore, one sender a serialized printer
  (`MutualExclusion`, `OneSenderEach`), yet no state a run reaches is deadlocked, and tasks left alone drain
  (`RunsProgress`, `TasksDrain`); a round of the poller claims all but at most eight of the jobs it reads,
  so no due job starves for nothing (`RoundClaims`, `NoneStarves`); only requests add load, within the caps
  plus the requeues made (`OnlyRequestsAdd`, `Backpressure`), and quoted submissions never pass the daily
  quota (`QuotaHolds`).
- **Idempotency.** One job a surviving key, and every later call under it conflicts, replays or finds the
  job gone exactly when it should (`SameKeySameJob`, `KeyedOnce`, `LaterCallAnswered`); it never finds the
  job gone exactly when the retention windows are far enough apart (`RepeatsReplayExactly`).
- **Round trips.** IPP messages parse back to the table of what they encode, print requests name by name
  (`GroupsReadBack`, `MessageReadsBack`, `PrintJobReadsBack`), the request is right octet by octet
  (`PrintJobOctets`), and the parser is total and exact on any bytes (`ParseAttributes`, `StoredBytesFit`);
  a bitmap unpacks from its `^GFA` field (`UnpacksToBitmap`, `DotsConserved`); a ZPL label splits back into
  its own commands and values (`CommandsReadBack`, `FieldsReadBack`, `SkeletonFixedByShape`), prints nothing
  over anything else (`NoOverlap`), and shows each table value in its column (`ColumnShows`).
- **Audit.** Runs stay chained (`RunsStayChained`), equal ends mean equal histories (`SameEndSameRows`),
  insertions and edits are noticed (`InsertionNoticed`, `EditReported`), a cut exactly when it takes neither
  the head nor the tail (`CutNoticedExactly`), and a prune exactly when a dropped row stood between two
  survivors (`PruneKeepsExactly`).
- **Registry.** An import leaves exactly the expected rows (`ImportLeaves`). Over any run of requests a
  version read earlier guards formats and templates (`FormatsNeverLose`, `TemplatesNeverLose`); for printers
  it is told exactly what an accepted stale update can meet (`StaleUpdateMeets`).
- **The rest.** The rate limiter is the sliding window it claims to be (`WindowIsRecent`, `LimitHolds`);
  round-robin is fair (`RoundRobinIsFair`); an alert is raised exactly at the first late sighting
  (`AlertsExactly`); paging never repeats a job (`WalkWithin`), and lists everything exactly when no page
  ends inside a group of equal creation times (`CompleteExactly`).

## What the proofs found

- Nothing recovers a row left `rendering` or `printing` by a restart: no later step of any kind
  changes it, and it counts against the queue caps for good (`StrandedForever`). The documented
  "crash means uncertain" is not what the code does.
- The two retention windows are safe together exactly when jobs are kept as long as keys plus the lag
  between the two inserts (`WindowsExactly`); equal windows are not enough.
- Operator requeues are not checked against the caps (`RequeueIgnoresCap`), and the caps can be exceeded
  by any number of them (`CapsExceeded`) and by no more (`Backpressure`).
- The quota is checked before the idempotency key and counts the job the key stands for, so repeating the
  call that used up a quota is refused instead of replayed (`RepeatRefusedAtQuota`).
- A guard that catches an exception after the last mark can turn `done`, `dead`, `uncertain` or a job
  an operator has just requeued or canceled into `failed`: a run shows each (`LateFailure`), and it is the
  only step that takes a job out of `done` (`StatusLeavesExactly`).
- Without the backends' contract a job can be streamed twice with no requeue (`BrokenContractStreamsTwice`).
- A paged listing loses jobs exactly when some page ends between two jobs created at one instant
  (`CompleteExactly`); with one job a page, exactly when two instants are equal (`OneAPage`).
- An import plan overstates its creations exactly when the document repeats a new name
  (`PlanHoldsExactly`); importing a table's own export changes contents exactly when the first and last
  row of some name differ (`OwnExportExactly`).
- A stale write is accepted once the printers table may be emptied, because ids restart at 1
  (`LosesExactlyIfRestarts`, `PrinterUpdateLost`); and, short of that, over a printer whose format or
  template was deleted or whose parameters were merged since, and no other (`StaleUpdateMeets`,
  `DeletionKeepsVersions`).
- Rows cut from the head or the tail of an audit table are not noticed; any other cut is, where it was made
  (`CutNoticedExactly`).

## Model

| member | source | states |
|---|---|---|
| JobTable.SelectTop | app/queue.py:147-155 | ORDER BY with LIMIT: the chosen rows, in order, without repetition, and no row left out belonged before one listed |
| JobTable.ReadyInOrder | app/queue.py:147-155 | the poller's batch holds due queued jobs by priority and then age, and whoever is left out is behind fifty others |
| JobTable.RefusedAtCapExactly | app/queue.py:63-69 | an enqueue is refused exactly when as many jobs as the cap are queued, rendering or printing, in all or at the printer |
| JobStore.JobStore.constructor | app/queue.py:45-46 | a new store holds no jobs and no keys |
| JobStore.JobStore.Enqueue | app/queue.py:49-91 | refuses when the total or the printer's active count is at its cap, without change; otherwise adds one queued row with no attempt used, each column as given, the schedule included |
| JobStore.JobStore.Ready | app/queue.py:147-155 | at most fifty due queued jobs, higher priority first, older first among equals, none skipped |
| JobStore.JobStore.ListJobs | app/queue.py:108-125 | the newest jobs of the status strictly older than the cursor job, all of them when the limit is negative; whoever is left out is behind a full page; an unknown cursor lists nothing |
| JobStore.JobStore.Claim | app/queue.py:157-162 | succeeds exactly on a queued row, which becomes rendering; otherwise nothing changes |
| JobStore.JobStore.Mark | app/queue.py:164-172 | sets the status and the given columns of one row; a missing row is no error |
| JobStore.JobStore.Cancel | app/queue.py:175-180 | from queued or failed only; otherwise an error and no change |
| JobStore.JobStore.Requeue | app/queue.py:182-187 | from failed, dead, uncertain or canceled only, with attempts, next attempt and error cleared |
| JobStore.JobStore.Resolve | app/queue.py:189-194 | from uncertain only, to done or failed |
| JobStore.JobStore.StoreKey | app/queue.py:201-206 | keeps an existing row of the key |
| JobStore.JobStore.Prune | app/queue.py:219-229 | drops old finished jobs (never uncertain or active ones) and old keys, and nothing else |
| PrintApi.PrintApi.EnforceQuota | app/api/print.py:22-38 | over quota exactly when the day's uncanceled jobs reach the printer's or the default limit |
| PrintApi.OverQuotaExactly | app/api/print.py:22-38 | the printer's own nonzero limit decides, else the nonzero default, else nothing: over exactly when that many of its jobs were created since midnight and not canceled |
| WorkerQuota.QuotaGuards | app/api/print.py:22-38 | a quoted submission that creates a job finds fewer of the day's jobs than the limit |
| WorkerQuota.QuotaHolds | app/api/print.py:22-38 | over every run of one day the count stays within the limit plus the unquoted submissions and the cancellations undone |
| PrintApi.PrintApi.Print | app/api/print.py:114-151 | validation, quota, key lookup, conflict or replay, enqueue, key row, in that order; a refusal or a replay writes nothing |
| PrintApi.AnswersExactly | app/api/print.py:114-151 | which answer each call gets, in plain terms: its own refusal, then the quota, then conflict, missing job or replay under a known key, and only then the caps |
| PrintApi.WritesExactly | app/api/print.py:135-150 | what it writes: nothing, or one queued row with what the request asked for and, under a new key, a row naming it |
| WorkerRequests.RowsCarryRequests | app/queue.py:71-91 | over every run a job's row keeps the printer, payload, key, priority and schedule of the request that made it |
| WorkerRequests.RowsWereRequested | app/queue.py:71-91 | every row of every run was made by one accepted submission |
| WorkerRequests.ScheduleIsWaitedFor | app/queue.py:147-162 | over every run a job is claimed only by polls at or after the instant its request asked for |
| WorkerRequests.ClaimsWereRead | app/queue.py:264-273 | every claim of a run is of a job a poll read, at the instant recorded |
| PoolRouting.ExistingMembers | app/pools.py:24-35 | the members that still exist, in listed order; a pool inside a pool is an error |
| PoolRouting.FirstReachable | app/pools.py:91-99 | the first member whose probe answered, none when no probe did |
| PoolRouting.PoolRouter.Rotate | app/pools.py:86-90 | the order the members are tried in, and the cursor moved one on, modulo the current membership |
| PoolRouting.PoolRouter.ResolveTarget | app/pools.py:77-99 | the printer itself when it is no pool; else the first answering member of the rotated order, or unreachable |
| PoolRouting.RotationIsCircular | app/pools.py:88-89 | position i of the order is member start + i around the circle, so a rotation loses and repeats nobody |
| PoolRouting.MembersExactly | app/pools.py:24-35 | the members are exactly the listed printers that exist, in listed order, repetitions included; an error exactly when one is a pool |
| PoolRouting.OrderExactly | app/pools.py:86-89 | a pool that does not rotate is tried as listed, one that does around the circle from its cursor |
| PoolRouting.OrderKeepsMembers | app/pools.py:86-90 | the order holds the members and no one else |
| PoolRouting.ServedExactly | app/pools.py:91-99 | a pool is served exactly when some member answers |
| PoolRouting.DispatchesMoveOneCursor | app/pools.py:87-90 | dispatches of a pool move its own cursor around the circle and no other's, and keep it in range |
| PoolRouting.StaleCursor | app/pools.py:88 | a cursor left by a larger membership behaves as its remainder |
| PoolRouting.RoundRobinIsFair | app/pools.py:87-90 | of any m dispatches over n members each member comes first floor(m/n) or ceiling(m/n) times, from any cursor |
| WorkerTasks.Worker.constructor | app/queue.py:235-246 | a worker built over any tables, as after a restart, starts with nothing in flight and eight permits and leaves the tables as they are |
| WorkerTasks.Worker.Poll | app/queue.py:264-266 | reads a batch of ready jobs |
| WorkerTasks.Worker.Take | app/queue.py:266-273 | a job in flight or no longer queued is skipped; otherwise it is claimed and its task registered |
| WorkerTasks.Worker.Admit | app/queue.py:347 | takes one of the eight permits |
| WorkerTasks.Worker.Load | app/queue.py:359-369 | reads the job and its printer, and starts a pool's rotation; a missing row is an exception |
| WorkerTasks.Worker.RetryOrDead | app/queue.py:427-444 | dead when the attempts are used up, otherwise queued again after the capped exponential delay |
| WorkerTasks.Worker.Route | app/queue.py:363-367 | goes on with the first reachable member, or retries |
| WorkerTargets.LoadChooses | app/queue.py:359-367 | where a loaded job goes: its own printer, its pool's candidates in their order, or the exception for what is missing or nested |
| WorkerTargets.LoadAdvances | app/pools.py:86-90 | loading a job of a rotating pool moves that pool's cursor one on and no other's |
| WorkerTargets.RouteChooses | app/pools.py:91-99 | the first candidate that answered is the target, and if none did the attempt failed |
| WorkerTargets.TargetsAreChosen | app/queue.py:356-391 | over every run, by its steps, a task sends to the printer its job named when it was loaded, or to the first answering candidate of the pool it named |
| WorkerTasks.Worker.Render | app/queue.py:371-384 | a refused document is marked failed and goes no further; otherwise printing |
| WorkerTasks.Worker.Lock | app/queue.py:386-391 | enters the send section, through the printer's lock when it owns one byte stream |
| WorkerTasks.Worker.Return | app/queue.py:388-414 | the send is over: the lock is released, and the row, the task, the audit row it owes and the history move as its outcome says |
| WorkerTasks.Worker.Settle | app/queue.py:394-409 | the mark each outcome of a send calls for, done, uncertain, retry or dead, or none for another exception, and the audit row a done or uncertain one owes |
| WorkerTasks.Worker.Bury | app/queue.py:376-381 | the second mark of a render error |
| WorkerTasks.Worker.Fail | app/queue.py:350-352 | whatever was thrown, the job is marked failed, even after its last mark |
| WorkerTasks.Worker.Finish | app/queue.py:353-354 | the job leaves the in-flight table and the permit comes back |
| WorkerTasks.Worker.Sweep | app/queue.py:288-296 | both retention cuts, taken from two readings of the clock |
| WorkerTasks.Worker.Requeue | app/queue.py:182-187 | an operator's requeue, recorded in the history when it succeeds |
| WorkerSafety.ExclusionStep | app/queue.py:346-354 | every step keeps tasks and in-flight entries matched, locks held by exactly the sending task, and permits plus admitted tasks at eight |
| WorkerSafety.MutualExclusion | app/queue.py:240-354 | over every run: one live task a job, at most eight past the semaphore, one sender on each serialized printer |
| WorkerTargets.OneSenderEach | app/backends/factory.py:38-42 | over every run one task at a time sends to each printer that is neither CUPS nor IPP |
| WorkerTargets.SpoolersNeverWait | app/queue.py:386-391 | the send to a CUPS or IPP printer can always begin |
| WorkerDelivery.OutsideKeepsBusyRows | app/queue.py:175-229 | no operator call, submission or sweep touches a row that is rendering or printing |
| WorkerDelivery.SoundRun | app/queue.py:356-444 | over every run a task that owns its job finds its row as it left it, and claims match attempts used |
| WorkerDelivery.AtMostOnce | app/queue.py:157-162 | between two operator requeues at most one send of a job may have streamed bytes, over all interleavings, sweeps and restarts, given the backends' contract |
| WorkerDelivery.BrokenContractResends | app/queue.py:404-406 | without the contract a job that may have streamed goes back to the queue |
| WorkerDelivery.BoundedTries | app/queue.py:427-444 | between two requeues a job is started at most max(1, max_attempts) times, contract or not |
| WorkerDelivery.QueuedHasAttemptLeft | app/queue.py:427-444 | a queued job has been started once per attempt used, and has one left |
| WorkerVerdicts.StatusTellsDelivery | app/queue.py:346-444 | over every run with honest backends exactly one send of a done or uncertain job since its last requeue may have put bytes on the wire, and none of a dead or queued one |
| WorkerOutcomes.ReturnTells | app/queue.py:388-417 | the row, the lock, the task and the audit row owed after each way a send can end |
| WorkerOutcomes.StatusTellsOutcome | app/queue.py:388-417 | over every run a job is done only because its last send was delivered or an operator said so, uncertain only because its last send broke off or timed out |
| WorkerOutcomes.DeliveryTellsOutcome | app/queue.py:409-411 | over every run the delivery column is how the last delivered send returned |
| WorkerOutcomes.NotesAreTrue | app/queue.py:394-414 | over every run an audit row about to be written names the printer of its task's last send and how that ended |
| WorkerLoad.Backpressure | app/queue.py:63-69 | over every run the active jobs, in all and per printer, stay within the cap plus the operator requeues made |
| WorkerLoad.OnlyRequestsAdd | app/queue.py:157-172 | only submissions and operator requeues add active jobs; no worker step, retry, cancel, resolve or sweep does |
| WorkerLoad.ClaimedOnlyWhenDue | app/queue.py:147-162 | a claimed job's schedule and backoff were over at the instant the poller read, however the batch aged |
| WorkerLoad.Lifecycle | app/queue.py:346-444 | along every run a status changes only along the listed arrows; the exact step for each is `StatusLeavesExactly` |
| WorkerStatus.StatusLeavesExactly | app/queue.py:346-444 | in every reachable state a step changes a job's status exactly when it is one of the steps listed for that status; out of done, only its own task's late failure |
| WorkerRuns.LateFailure | app/queue.py:350-352 | for each of done, uncertain, dead, queued and canceled, a run reaches that status with the job's own task about to mark it failed |
| WorkerRuns.BrokenContractStreamsTwice | app/queue.py:404-406 | without the contract a run streams one job twice and no operator requeues it |
| WorkerRuns.RequeueIgnoresCap | app/queue.py:182-187 | a requeue adds one to every count it belongs to, and passes the cap exactly when the count had reached it |
| WorkerRuns.CapsExceeded | app/queue.py:63-69 | for every number k a run with k requeues holds k jobs more than the lower cap |
| WorkerProgress.SomeTaskMoves | app/queue.py:346-417 | with no batch pending and a live task, some task can take a step: the locks and the permits never deadlock |
| WorkerProgress.TasksDrain | app/queue.py:346-417 | tasks left to themselves take a bounded number of steps and can stop only when none is left |
| WorkerProgress.RunsProgress | app/queue.py:346-417 | so in every state a run reaches with no batch pending |
| WorkerFairness.RoundEnds | app/queue.py:264-273 | a batch once read can always be walked to its end |
| WorkerFairness.RoundClaims | app/queue.py:264-273 | from any state a run reaches a round claims exactly the jobs read that are not in flight, in order, each with a task: at least all but eight |
| WorkerFairness.NoneStarves | app/queue.py:147-155 | after a round a due job has a task, or its last one was still leaving, or at least 42 jobs were claimed and every job read runs before it |
| WorkerLedger.RowsAreBacked | app/queue.py:392-417 | over every run, contract or not, a job has no more print audit rows, written and owed, than sends that may have streamed |
| WorkerLedger.CalmRowsAreExact | app/queue.py:392-417 | on a run without restarts, exceptions out of a send or before the row, or broken contracts, the two numbers are equal |
| WorkerLedger.RowsPerRequest | app/queue.py:392-417 | with honest backends at most one audit row for the submission and one more a requeue |
| WorkerLoad.RestartStrands | app/main.py:85-116 | after a restart every rendering or printing row has no task |
| WorkerLoad.StrandedForever | app/main.py:85-116 | no continuation of the run ever changes such a row |
| WorkerTermination.WorkLowersRank | app/queue.py:346-444 | each step for a job lowers its rank (attempts left, then phase) and leaves every other job's alone |
| WorkerTermination.WorkIsBounded | app/queue.py:346-444 | over every run a job costs at most 11 * max(1, max_attempts) steps per submission or requeue of it |
| WorkerTermination.DelaysGrow | app/queue.py:437-440 | the delays never shrink and never pass the cap |
| WorkerTermination.DelaysDouble | app/queue.py:437-440 | the first delay is the base and each next one twice the last, up to the cap |
| WorkerTermination.DelaysAddUp | app/queue.py:437-440 | n delays add up to at most base * (2^n - 1) and at most n times the cap |
| WorkerBackoff.RunsKeep | app/queue.py:260-286 | every run leads to states that meet the invariants the wait needs |
| WorkerBackoff.FailureStartsWait | app/queue.py:427-444 | a retryable failure with attempts left queues the job with one more attempt used, due after that attempt's delay |
| WorkerBackoff.RetryWaits | app/queue.py:147-162 | over every continuation of the run the next claim of the job, without an operator requeue, is by a poll not earlier than that |
| WorkerKeys.KeysRun | app/api/print.py:126-150 | over every run a surviving key row remembers every call accepted under it and the call that created its job |
| WorkerKeys.SameKeySameJob | app/api/print.py:126-133 | of two accepted calls with one surviving key the second is a replay of the first one's job, with the same payload |
| WorkerKeys.KeyedOnce | app/api/print.py:126-150 | while a key survives exactly one accepted call created its job, and any further call writes nothing |
| WorkerKeys.LaterCallAnswered | app/api/print.py:126-133 | over every run, once a call was accepted under a surviving key, a valid call within quota conflicts exactly when its payload differs, and otherwise replays the first job or finds it gone; it writes nothing |
| WorkerKeys.RepeatReplaysExactly | app/api/print.py:121-133 | a repeat of a remembered call is answered with its job exactly when it is valid, within quota, and the job still exists |
| WorkerKeys.RepeatRefusedAtQuota | app/api/print.py:124-133 | a call that used up the day's quota is refused, not replayed, when repeated |
| WorkerKeys.NearRun | app/queue.py:219-229 | with windows that far apart every key row points at an existing job created within the lag |
| WorkerKeys.DanglingRun | app/queue.py:219-229 | otherwise a run of a submission, a cancel and a sweep leaves a key pointing at a pruned job |
| WorkerKeys.WindowsExactly | app/queue.py:219-229 | no run dangles exactly when the job window is at least the key window plus the lag |
| WorkerKeys.RepeatReplays | app/api/print.py:126-133 | with windows that far apart a valid repeat within quota always replays the first job and writes nothing |
| WorkerKeys.RepeatsReplayExactly | app/queue.py:219-229 | repeats can be relied on for that exactly when the job window is at least the key window plus the lag |
| Pagination.WalkListsAll | app/admin.py:532-546 | following the cursors lists each selected job once, strictly newest first, and ends, for any page size and filter |
| Pagination.WalkWithin | app/admin.py:532-546 | ties or not, a walk lists only selected jobs, none twice, newest first |
| Pagination.CompleteExactly | app/admin.py:532-546 | for every nonzero limit, status and table, an ended walk lists every selected job exactly when no page ends between two jobs of one instant |
| Pagination.OneAPage | app/queue.py:117-124 | with one job a page that condition is exactly that all instants are distinct |
| OfflineMonitor.OfflineMonitor.constructor | app/queue.py:244-245 | no outage tracked, nothing alerted |
| OfflineMonitor.OfflineMonitor.CheckOffline | app/queue.py:325-344 | one heartbeat's probes in order, the tracked outages and the alerts posted |
| OfflineMonitor.AlertsExactly | app/queue.py:325-344 | an alert is raised exactly at the first sighting of an unbroken outage at or past the threshold from its first one |
| OfflineMonitor.OneAlertPerOutage | app/queue.py:333-339 | between two alerts about a printer it was seen reachable |
| OfflineMonitor.AlertedAreTracked | app/queue.py:333-339 | alerted printers are always tracked ones |
| IppWire.ParseAttributes | app/ipp_client.py:122-153 | on any bytes the table holds exactly the stored values of each name in order, within one round per byte and never out of bounds |
| IppWire.ReadAt | app/ipp_client.py:137-146 | the reads of one value, truncated ones included, and that the cursor moves on |
| IppWire.AppendValue | app/ipp_client.py:152 | a value goes to the end of its key's list, which starts empty |
| IppWire.StoredBytesFit | app/ipp_client.py:122-153 | the stored bytes plus three a value fit in the bytes read |
| IppWire.ValuesReadBack | app/ipp_client.py:129-152 | a name with its 1setOf values reads back in order under that name |
| IppWire.GroupsReadBack | app/ipp_client.py:122-153 | any encodable attribute groups, collections included, read back exactly, whatever follows the end tag |
| IppClient.MediaColSource | app/ipp_client.py:43-50 | the encoding of the collection media-col holding the tray |
| IppClient.JobAttributes | app/ipp_client.py:53-60 | the encodings of the job attributes asked for, or of none |
| IppClient.Build | app/ipp_client.py:63-78 | for any two byte strings: header, operation group and the first string, a job group only if the second is not empty, end tag; built exactly when every length fits |
| IppClient.BuildPrintJob | app/ipp_client.py:112-119 | a well-formed Print-Job message followed by the document, built exactly when every given string fits 65535 bytes |
| IppClient.RequestReadsBack | app/ipp_client.py:63-153 | parsing an encoded request gives back its values and nothing else, whatever document follows |
| IppClient.MediaColEntries | app/ipp_client.py:43-50 | the collection reads back flattened under media-col |
| IppClient.TraysReadBack | app/ipp_client.py:112-153 | a print request reads back value by value, with a bin, a tray, both or neither |
| IppTables.MessageReadsBack | app/ipp_client.py:122-153 | the table the parser fills from any encoded groups of distinctly named attributes is those attributes' own table, whatever document follows |
| IppTables.PrintJobReadsBack | app/ipp_client.py:112-153 | the table parsed from a print request, name by name, with a bin, a tray, both or neither |
| IppBytes.PrintJobOctets | app/ipp_client.py:28-119 | the print request octet by octet, every tag, length and group as a number |
| IppBytes.HeaderOctets | app/ipp_client.py:66-69 | version, operation and request number in eight octets |
| IppBytes.NamedIsStored | app/ipp_client.py:129-152 | a named value is stored unless its tag is 0x21, 0x22 or 0x23 |
| IppBytes.NamelessIsAdded | app/ipp_client.py:129-152 | a value without a name goes to the attribute before it |
| IppBytes.NamelessIsDropped | app/ipp_client.py:130-135 | and is dropped at the head of a group |
| AuditChain.AppendKeepsChain | app/audit.py:28-77 | after an append the table is a chain exactly when it was one |
| AuditChain.LastHashExactly | app/audit.py:28-30 | a row is chained to the last entry hash, or to sixty-four zeros when there is none or it is empty |
| AuditChain.AnchorExactly | app/audit.py:95-98 | a chain hangs on its first row's own previous hash, zeros if it is missing or empty |
| AuditChain.PruneKeepsExactly | app/audit.py:117-124 | pruning keeps a chain exactly when no dropped row stood between two survivors |
| AuditChain.PruneCutsHead | app/audit.py:117-124 | under timestamps in order pruning cuts the head alone |
| AuditChain.CutNoticedExactly | app/audit.py:87-115 | a slice cut out is noticed exactly when it is neither head nor tail, and reported where it was |
| AuditChain.SameEndSameRows | app/audit.py:19-115 | two chains ending in the same entry hash agree on every row, counted from the end, as far back as both go |
| AuditChain.EditReported | app/audit.py:87-115 | changing any column of one row is reported at that row |
| AuditChain.InsertionNoticed | app/audit.py:1-6 | after any run, rows inserted between two rows are noticed, however many and whatever they hold |
| AuditChain.ForgeryReported | app/audit.py:87-115 | replacing a row that is not the last, hashes and all, breaks the chain |
| AuditChain.NoRepeats | app/audit.py:19-21 | a chain from the genesis value never repeats an entry hash |
| AuditChain.RunsStayChained | app/audit.py:28-124 | after any run of appends and prunes under a nondecreasing clock the table is a chain in time order without repeated hashes |
| AuditHash.SomeHashIsCollisionFree | app/audit.py:19-21 | some hash meets the assumption these results rest on |
| Audit.Audit.constructor | app/audit.py:24-26 | both tables start empty |
| Audit.Audit.LastHashOf | app/audit.py:28-30 | the last entry hash, or the genesis value when there is none or it is empty |
| Audit.Audit.RecordConfigChange | app/audit.py:32-54 | one row chained to the configuration table's last; the print table is untouched |
| Audit.Audit.RecordPrintJob | app/audit.py:56-77 | one row chained to the print table's last; the configuration table is untouched |
| Audit.Audit.VerifyChain | app/audit.py:87-115 | valid exactly for a chain, else the first row that does not fit, after a prefix that does |
| Audit.Audit.Prune | app/audit.py:117-124 | both tables lose exactly the rows older than the cut |
| Audit.DropOld | app/audit.py:117-124 | the surviving rows in order |
| TextLayout.FitsExactly | app/render.py:52-60 | a fitted cell has its exact width and holds as much of the text as fits, placed as aligned, in blanks |
| TextLayout.TableLines | app/render.py:63-74 | one line a row: the fitted cells joined by spaces and cut at the page width |
| TextLayout.RowCells | app/render.py:67-72 | one row's cells, each fitted to its column, missing values blank and missing alignments left |
| TextLayout.StartsGrow | app/render.py:63-74 | columns come in order and do not overlap |
| TextLayout.CellsAlign | app/render.py:52-74 | no line passes the page, and in every row each cell that ends on the page stands whole in its column's own range |
| TextLayout.ColumnShows | app/render.py:52-74 | on the printed line: the range of column i shows the row's i-th value, cut to the width, at the indent its alignment asks for, in blanks; all blanks when there is none |
| TextLayout.PrefixExactly | app/render.py:53-74 | a cut text is its beginning, counted from the end for a negative count |
| Zpl.RenderElement | app/render.py:179-208 | the lines an element adds, the height it takes, or its error |
| Zpl.RenderTable | app/render.py:188-191 | one text line a table row, 28 dots apart |
| Zpl.RenderZpl | app/render.py:172-210 | the label: opening, every element's lines at its height, closing; the first unsupported element is the error |
| Zpl.PlacedPrints | app/render.py:179-204 | the commands of each element, word for word |
| Zpl.PageFrame | app/render.py:175-210 | a label opens with ^XA and ^CI28 and closes with ^XZ |
| Zpl.FailsAtFirst | app/render.py:192-208 | the first element the printer cannot do or does not know decides the error |
| Zpl.PlacedBelow | app/render.py:176-205 | each element is printed below the heights of all before it |
| Zpl.NoOverlap | app/render.py:176-205 | without negative sizes, printed lines stand one wholly above the next |
| Zpl.EscapeIsPlain | app/render.py:168-169 | no command character is left and nothing else changes |
| Zpl.EscapeBlanks | app/render.py:168-169 | each command character becomes a blank |
| Zpl.CommandsReadBack | app/render.py:168-210 | split at its carets the output is exactly the page's own commands, whatever the texts |
| Zpl.NoControlCommands | app/render.py:168-210 | no tilde, which would open a control command, is ever printed |
| Zpl.FieldsReadBack | app/render.py:168-210 | the fields read back are, in order, the escaped values, a QR code's with its prefix, a table's line by line |
| Zpl.SkeletonFixedByShape | app/render.py:172-210 | documents of the same kinds, numeric options and row counts print the same commands or fail alike |
| GfaImage.ZplGfa | app/render.py:230-248 | the field text for the packed rows with their true counts |
| GfaImage.ByteHolds | app/render.py:241-246 | each bit of a byte is its dot, and padding bits are zero |
| GfaImage.RowHolds | app/render.py:239-246 | each bit of a row is its dot, and every bit past the row's end is zero |
| GfaImage.UnpacksToBitmap | app/render.py:230-248 | unpacking the data gives the bitmap back |
| GfaImage.PackedSize | app/render.py:235-247 | the data is exactly h rows of ceil(w/8) bytes |
| GfaImage.DotsConserved | app/render.py:230-248 | as many bits are set as there are black dots |
| GfaImage.HexReadsBack | app/render.py:248 | the hexadecimal text decodes to the data |
| GfaImage.FieldsReadBack | app/render.py:247-248 | the field splits at its commas into its parts, each number reads back, and the data part decodes |
| RateLimiter.RateLimiter.constructor | app/auth.py:64-66 | no hits yet |
| RateLimiter.RateLimiter.Check | app/auth.py:68-75 | pops what is older than a minute, then accepts and records exactly when fewer than the limit are left |
| RateLimiter.DropIsFilter | app/auth.py:71-72 | popping from the left of an ordered deque is filtering it |
| RateLimiter.WindowIsRecent | app/auth.py:68-75 | after any run with a nondecreasing clock the deque a call looks at is its key's accepted history of the last minute |
| RateLimiter.RejectsExactly | app/auth.py:73-74 | a call is rejected exactly when the limit was already reached in that minute |
| RateLimiter.LimitHolds | app/auth.py:61-75 | no closed minute, wherever it starts, holds more accepted calls of a client than the limit |
| ConfigTable.ImportLeaves | app/registry.py:387-460 | importing any items leaves exactly the rows told from the table and the items: last body, a version for each, new names after |
| ConfigTable.PlanHoldsExactly | app/registry.py:394-417 | an import creates at most what its plan announces, and exactly that unless a new name is given twice |
| ConfigTable.ReimportKeepsContents | app/registry.py:420-459 | a second import of a document creates no row and changes only versions |
| ConfigTable.OwnExportExactly | app/registry.py:346-460 | importing a table's own export keeps its contents exactly when the first and last row of every name agree |
| ConfigTable.OwnExportBumpsVersions | app/registry.py:346-460 | with distinct names it adds one to every version and changes nothing else |
| ConfigTable.NoLostUpdate | app/registry.py:463-471 | over any run of one table's own operations without a restart of numbering, ids are not reused, versions do not fall, and an equal version means an equal row |
| ConfigTable.AcceptedMeansUnchanged | app/registry.py:463-471 | in such a run an update accepted with a version read earlier finds the row as it was read |
| ConfigTable.LosesExactlyIfRestarts | app/registry.py:131-139 | for any row of any table, some run loses an update prepared for it exactly when numbering restarts in an emptied table |
| ConfigRules.PlanMatchesImport | app/registry.py:394-460 | for a completed import, table by table, the plan's creations are right exactly without repeated new names |
| ConfigRules.ReimportKeepsConfig | app/registry.py:387-460 | a document that imported completely does so again, creating nothing and changing no contents |
| ConfigRules.OwnExportPlans | app/registry.py:346-417 | the plan for a configuration's own export is updates alone |
| ConfigRules.OwnExportKeepsConfig | app/registry.py:346-460 | with distinct names, importing it completes exactly when validation accepts every stored printer; it then changes only versions, each up by one, and cached capabilities, all cleared |
| ConfigRules.RequestsStaySound | app/registry.py:81-260 | no request, an import that stops half way included, leaves a dangling reference or ids out of order |
| ConfigRules.FormatRequestsExactly | app/registry.py:173-191 | a format is created, or replaced under its version, column by column; other versions conflict |
| ConfigRules.TemplateRequestsExactly | app/registry.py:221-255 | the same for templates |
| ConfigRules.PrinterRequestsExactly | app/registry.py:81-122 | the same for printers, refused when a reference leads nowhere; an update drops cached capabilities |
| ConfigRules.PrinterCallsExactly | app/registry.py:124-155 | capabilities are cached for an existing printer; parameters given replace those of the same name, and nothing else changes |
| ConfigRules.FormatDeletionExactly | app/registry.py:193-196 | the row goes and every reference to it is cleared, and nothing else changes |
| ConfigRules.TemplateDeletionExactly | app/registry.py:257-260 | the same for templates |
| ConfigRules.PrinterDeletionExactly | app/registry.py:131-139 | the row and its cached capabilities go; numbering restarts when it was the last |
| ConfigRules.DeletionKeepsVersions | app/registry.py:193-196 | deleting a format changes the printers that refer to it but not their versions |
| ConfigRuns.FormatsNeverLose | app/registry.py:182-196 | over any run of requests, imports included, a stale format update is never accepted for a changed row |
| ConfigRuns.TemplatesNeverLose | app/registry.py:238-260 | the same for templates |
| ConfigRuns.StaleUpdateMeets | app/registry.py:101-155 | while the printers table is not emptied, an accepted update meets a changed row exactly when a format or template the row referred to was deleted or its parameters were merged, and how |
| ConfigRuns.PrinterUpdateLost | app/registry.py:131-139 | if it may be emptied, for every printer some run puts another one under its id and version, and the stale update is accepted |
| Registry.Registry.constructor | app/registry.py:42-46 | empty tables, numbering from 1 |
| Registry.Registry.CreateFormat | app/registry.py:173-180 | one row more, version 1 |
| Registry.Registry.UpdateFormat | app/registry.py:182-191 | not found, or conflict on a stale version, or replaced with the version up by one |
| Registry.Registry.DeleteFormat | app/registry.py:193-196 | the row goes and every reference to it is cleared |
| Registry.Registry.CreateTemplate | app/registry.py:221-236 | one row more, version 1 |
| Registry.Registry.UpdateTemplate | app/registry.py:238-255 | not found, or conflict on a stale version, or replaced with the version up by one |
| Registry.Registry.DeleteTemplate | app/registry.py:257-260 | the row goes and every reference to it is cleared |
| Registry.Registry.CreatePrinter | app/registry.py:81-99 | refused when it refers to a missing row; otherwise one row more, version 1, no cached capabilities |
| Registry.Registry.UpdatePrinter | app/registry.py:101-122 | unknown, stale or dangling is refused without change; otherwise replaced, version up, cached capabilities cleared |
| Registry.Registry.DeletePrinter | app/registry.py:131-139 | the row goes, and numbering restarts at 1 once the table is empty |
| Registry.Registry.SetCapabilities | app/registry.py:124-129 | caches the capabilities of an existing printer without touching its version |
| Registry.Registry.UpdatePrinterParams | app/registry.py:142-155 | merges the given parameters into an existing printer's, with its version untouched; an unknown printer is an error |
| Registry.Registry.UpsertFormat | app/registry.py:420-426 | updates the first row of the name with its own version, else creates one |
| Registry.Registry.UpsertTemplate | app/registry.py:427-433 | updates the first row of the name with its own version, else creates one |
| Registry.Registry.UpsertPrinter | app/registry.py:434-459 | updates the first row of the name with its own version, else creates one; a dangling reference is refused |
| Registry.Registry.ImportFormats | app/registry.py:420-426 | upserts the formats up to the first refused one |
| Registry.Registry.ImportTemplates | app/registry.py:427-433 | upserts the templates up to the first refused one |
| Registry.Registry.ImportPrinters | app/registry.py:434-459 | upserts the printers up to the first refused one, clearing capabilities of those updated |
| Registry.Registry.ImportYaml | app/registry.py:387-460 | a dry run answers the plan and changes nothing; otherwise formats, templates, printers, keeping what was written before a refused item |
| ConfigRules.ImportStopsInFormats | app/registry.py:420-426 | an import stops at the first format validation refuses, with what it wrote before it |
| ConfigRules.ImportStopsInTemplates | app/registry.py:427-433 | the same at the first such template, after all formats |
| ConfigRules.ImportReachesPrinters | app/registry.py:434-459 | and at the first printer that is invalid or refers to nothing, after all of both, with that one's error |
| Registry.SplitItems | app/registry.py:396-407 | how many items have a row of their name, and how many do not |

## Left out

- `render_escpos`, PNG previews, PDF overlays and the PDF-to-ZPL raster path: their bytes come from libraries; the last is modelled from the bitmap on.
- Sockets, USB, CUPS, HTTP, webhooks, metrics, tunnels, discovery, the heartbeat's own assembly, the user interface: a send is an outcome and a probe is an answer.
- A backend that reports a retryable error after submission, as CUPS can (`app/backends/cups.py:117-118`): outside the delivery results, by the hypothesis `HonestRun`.
- The thread that goes on sending after the timeout at `app/queue.py:422`: neither its bytes nor its use of the printer after the lock is released is counted.
- A crash between two statements of one store method or handler, such as between a job's insert and its key row (`app/api/print.py:135-150`): steps are whole.
- Payload redaction (`app/queue.py:208-216`) and the reading of a job's payload (`_render`): rendering succeeds or is refused.
- Shutdown draining (`app/queue.py:251-258`): a stop is a restart at any point.
- Statements the database itself fails (a full disk, a lock held too long): every store method completes.
- Values too large for a SQLite column, a float or a timestamp: numbers are unbounded and instants are reals.
- Unknown audit table names, import items without a name and element options that are no number: each is an exception before any of the modelled work.
- Overlays, device settings, assets and the registry's read cache: they repeat a modelled pattern, or are never read.
- Lookup of a repeated name in the registry: the model takes the row with the lowest id, where SQLite promises no order.
- WorkerTasks.Worker.Return: the audit row, the alert and the redaction after the last mark are one later step (`Wrap`) that may throw before or after the row; the row's printer and outcome are kept by the task and its writing is counted by `WorkerLedger`, the alert and the redaction are not modelled.
- PrintApi.PrintApi.Print: the two handlers differ in how a request is validated and in what the payload holds; both reduce to one request that is refused or carries a payload.
- Pagination.CompleteExactly: not about a limit of zero, on which the handler fails for want of a last job (`app/admin.py:545`).
- IppWire.ParseAttributes: decoding with replacement characters is an arbitrary function, so two raw names may share a key, as they can in the program.
- IppClient.BuildPrintJob: strings are given as their UTF-8 bytes; a length above 65535, an exception in the program, gives no result.
- Zpl.RenderZpl: the final encoding to UTF-8 is not modelled; the caret, the tilde and the newline are single bytes in it.
- ConfigTable.NoLostUpdate: about one table's own operations; references the database clears and parameters merged by `update_printer_params` change a printer without its version, which `ConfigRuns` takes up.
- ConfigRuns.StaleUpdateMeets: what a run that empties the printers table can do is told by `PrinterUpdateLost`, by an example for every printer.
- AuditChain.RunsStayChained: like the other audit results it rests on `CollisionFree`; SHA-256, with its fixed length, meets that only as far as nobody finds a collision.
- WorkerTasks.Worker.Sweep: the audit prune of the same sweep is not part of it; it is `Audit.Audit.Prune`.
- Registry.Registry.ImportYaml: whatever validation objects to is one flag on the item and one error; for an export, the flag is whatever a function of a printer's parameters says (`ExportOf`), since provisioning stores some unvalidated (`app/admin.py:120-138`).
