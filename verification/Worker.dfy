/** The worker (app/queue.py, class Worker) as a system of interleaved steps.

    One step is one uninterrupted stretch between two awaits or two store calls.  Tasks, operator
    calls, submissions, the retention sweep and restarts interleave freely, except that no task
    runs while the polling loop is walking the batch it read: that loop does not await. */
module WorkerModel {
  import opened Basics
  import opened JobTable
  import opened Pools
  import Api = PrintApi

  type TaskId = nat

  datatype Config = Config(
    maxAttempts: int,
    retryBase: real,
    retryMax: real,
    limits: Api.Limits,
    jobWindow: real,
    keyWindow: real)

  /** Where a task is.  `attempts` is the job's attempts as read when the task started. */
  datatype Phase =
    | Waiting                                                          // for the semaphore
    | Admitted                                                         // inside it, nothing read yet
    | Routing(attempts: nat, candidates: seq<Printer>)                 // probing pool members
    | Routed(attempts: nat, target: Printer)                           // about to render
    | LockWait(attempts: nat, target: Printer)                         // marked printing
    | Sending(attempts: nat, target: Printer, streamed: bool)          // inside backend.send
    | Unrenderable(err: string)                                        // marked failed, about to mark dead
    | Wrapping(note: Option<Note>)                                     // audit row and alert, after the last mark
    | Crashed(err: string)                                             // an exception reached the guard
    | Finishing                                                        // about to leave the in-flight table

  /** What is still to be written to the print audit: where the job was sent, and how it was delivered, or
      None if that is uncertain. */
  datatype Note = Note(printer: PrinterId, delivery: Option<Delivery>)

  datatype Task = Task(job: JobId, phase: Phase)

  /** How backend.send ended. */
  datatype Outcome =
    | Delivered(completed: bool)
    | Unreachable(err: string)
    | BackendFailed(err: string)
    | MidSend(err: string)
    | TimedOut
    | Threw(err: string)

  datatype Rendered = RenderOk | RenderRefused(err: string)

  datatype Event =
    | Submitted(answer: Api.Answer, key: Option<string>, digest: Digest)
    | Claimed(job: JobId, at: Instant)
    | MayHaveStreamed(job: JobId)   // a send that may have put bytes on the wire
    | Requeued(job: JobId, printer: PrinterId)
    | Swept(keys: set<string>)      // idempotency rows dropped

  /** What a restart loses. */
  datatype Memory = Memory(
    batch: seq<JobId>,
    batchAt: Instant,
    inflight: map<JobId, TaskId>,
    tasks: map<TaskId, Task>,
    permits: int,
    locks: map<PrinterId, TaskId>,
    cursors: Cursors)

  /** The database, the memory, what has happened so far, and the uuids drawn so far. */
  datatype World = World(
    db: Tables,
    printers: Printers,
    mem: Memory,
    history: seq<Event>,
    issued: set<JobId>)

  const PERMITS: int := 8

  const BLANK: Memory := Memory([], 0.0, map[], map[], PERMITS, map[], map[])

  function Init(printers: Printers): World {
    World(Tables(map[], map[]), printers, BLANK, [], {})
  }

  datatype Step =
    | Submit(req: Api.Request, draw: Api.Draw)
    | Cancel(j: JobId)
    | Requeue(j: JobId)
    | Resolve(j: JobId, asDone: bool)
    | Sweep(jobsNow: Instant, keysNow: Instant)
    | Reconfigure(to: Printers)
    | Restart
    | Poll(now: Instant, ids: seq<JobId>)
    | Take(t: TaskId)
    | Admit(t: TaskId)
    | Load(t: TaskId)
    | Route(t: TaskId, up: seq<bool>, now: Instant)
    | Render(t: TaskId, result: Rendered)
    | Lock(t: TaskId)
    | Stream(t: TaskId)
    | Return(t: TaskId, outcome: Outcome, now: Instant)
    | Bury(t: TaskId)
    | Wrap(t: TaskId, audited: bool, thrown: Option<string>)
    | Throw(t: TaskId, err: string)
    | Fail(t: TaskId)
    | Finish(t: TaskId)

  predicate TaskStep(step: Step) {
    step.Admit? || step.Load? || step.Route? || step.Render? || step.Lock? || step.Stream? || step.Return?
    || step.Bury? || step.Wrap? || step.Throw? || step.Fail? || step.Finish?
  }

  predicate PhaseAllows(mem: Memory, step: Step)
    requires TaskStep(step) && step.t in mem.tasks
  {
    var ph := mem.tasks[step.t].phase;
    match step
    case Admit(_) => ph.Waiting? && mem.permits > 0
    case Load(_) => ph.Admitted?
    case Route(_, up, _) => ph.Routing? && |up| == |ph.candidates|
    case Render(_, _) => ph.Routed?
    case Lock(_) => ph.LockWait? && (Serialized(ph.target.kind) ==> ph.target.id !in mem.locks)
    case Stream(_) => ph.Sending? && !ph.streamed
    case Return(_, _, _) => ph.Sending?
    case Bury(_) => ph.Unrenderable?
    case Wrap(_, audited, thrown) =>
      ph.Wrapping? && (audited ==> ph.note.Some?) && (thrown.None? ==> audited == ph.note.Some?)
    case Throw(_, _) => ph.Admitted? || ph.Routing? || ph.Routed?
    case Fail(_) => ph.Crashed?
    case Finish(_) => ph.Finishing?
  }

  ghost predicate Enabled(s: World, step: Step) {
    if TaskStep(step) then s.mem.batch == [] && step.t in s.mem.tasks && PhaseAllows(s.mem, step)
    else
      match step
      case Submit(_, draw) => draw.id !in s.issued && draw.enqueuedAt <= draw.storedAt
      case Sweep(jobsNow, keysNow) => jobsNow <= keysNow
      case Poll(now, ids) => s.mem.batch == [] && IsReadyBatch(s.db.jobs, now, ids)
      case Take(t) => s.mem.batch != [] && t !in s.mem.tasks
      case _ => true
  }

  // ---------------------------------------------------------------- a task's own steps

  datatype LockUse = Keep | Acquire(p: PrinterId) | Release(p: PrinterId)

  /** What one step of a task does: a `mark` on its job, where the task goes next (None: it ends),
      whether a send has possibly put bytes on the wire, and its use of the shared tables. */
  datatype Effect = Effect(
    next: Option<Phase>,
    mark: Option<Fields> := None,
    streams: bool := false,
    lock: LockUse := Keep,
    permits: int := 0,
    cursors: Option<Cursors> := None)

  function GoTo(ph: Phase): Effect {
    Effect(Some(ph))
  }

  function Pow2(n: nat): nat {
    if n == 0 then 1 else 2 * Pow2(n - 1)
  }

  /** Seconds to wait after failed attempt number n. */
  function Delay(cfg: Config, n: nat): real
    requires n >= 1
  {
    var d := cfg.retryBase * (Pow2(n - 1) as real);
    if d <= cfg.retryMax then d else cfg.retryMax
  }

  function RetryOrDead(cfg: Config, attempts: nat, err: string, now: Instant): Effect {
    var n := attempts + 1;
    if n >= cfg.maxAttempts then
      Effect(Some(Wrapping(None)), Some(Fields(Dead, attempts := Some(n), lastError := Some(Some(err)))))
    else
      Effect(Some(Finishing),
             Some(Fields(Queued, attempts := Some(n), nextAttemptAt := Some(Some(now + Delay(cfg, n))),
                         lastError := Some(Some(err)))))
  }

  predicate SafeToRetry(outcome: Outcome) {
    outcome.Unreachable? || outcome.BackendFailed?
  }

  function Settled(cfg: Config, attempts: nat, p: PrinterId, outcome: Outcome, now: Instant): Effect {
    match outcome
    case Delivered(completed) =>
      var delivery := if completed then Completed else Sent;
      Effect(Some(Wrapping(Some(Note(p, Some(delivery))))), Some(Fields(Done, delivery := Some(Some(delivery)))))
    case MidSend(err) =>
      Effect(Some(Wrapping(Some(Note(p, None)))), Some(Fields(Uncertain, lastError := Some(Some(err)))))
    case TimedOut =>
      Effect(Some(Wrapping(Some(Note(p, None)))), Some(Fields(Uncertain, lastError := Some(Some("send timed out")))))
    case Unreachable(err) => RetryOrDead(cfg, attempts, err, now)
    case BackendFailed(err) => RetryOrDead(cfg, attempts, err, now)
    case Threw(err) => GoTo(Crashed(err))
  }

  function LoadJob(s: World, j: JobId): Effect {
    if j !in s.db.jobs then GoTo(Crashed("not_found"))
    else
      var job := s.db.jobs[j];
      if job.printer !in s.printers then GoTo(Crashed("unknown_printer"))
      else
        var p := s.printers[job.printer];
        if !p.kind.Pool? then GoTo(Routed(job.attempts, p))
        else
          match Members(s.printers, p.kind.members)
          case Err(_) => GoTo(Crashed("validation_error"))
          case Ok(members) =>
            Effect(Some(Routing(job.attempts, Order(members, p.kind.roundRobin, s.mem.cursors, p.id))),
                   cursors := Some(Advanced(members, p.kind.roundRobin, s.mem.cursors, p.id)))
  }

  function TaskEffect(cfg: Config, s: World, step: Step): Effect
    requires TaskStep(step) && step.t in s.mem.tasks && PhaseAllows(s.mem, step)
  {
    var ph := s.mem.tasks[step.t].phase;
    match step
    case Admit(_) => GoTo(Admitted).(permits := -1)
    case Load(t) => LoadJob(s, s.mem.tasks[t].job)
    case Route(_, up, now) =>
      (match FirstUp(up)
       case None => RetryOrDead(cfg, ph.attempts,
                                if up == [] then "pool has no members" else "no pool member is reachable", now)
       case Some(k) => GoTo(Routed(ph.attempts, ph.candidates[k])))
    case Render(_, result) =>
      (match result
       case RenderOk => Effect(Some(LockWait(ph.attempts, ph.target)), Some(Fields(Printing)))
       case RenderRefused(err) => Effect(Some(Unrenderable(err)), Some(Fields(Failed, lastError := Some(Some(err))))))
    case Lock(_) =>
      GoTo(Sending(ph.attempts, ph.target, false))
        .(lock := if Serialized(ph.target.kind) then Acquire(ph.target.id) else Keep)
    case Stream(_) => GoTo(ph.(streamed := true)).(streams := true)
    case Return(_, outcome, now) =>
      Settled(cfg, ph.attempts, ph.target.id, outcome, now)
        .(streams := !ph.streamed && !SafeToRetry(outcome),
          lock := if Serialized(ph.target.kind) then Release(ph.target.id) else Keep)
    case Bury(_) => Effect(Some(Wrapping(None)), Some(Fields(Dead, lastError := Some(Some(ph.err)))))
    case Wrap(_, _, thrown) => GoTo(if thrown.None? then Finishing else Crashed(thrown.value))
    case Throw(_, err) => GoTo(Crashed(err))
    case Fail(_) => Effect(Some(Finishing), Some(Fields(Failed, lastError := Some(Some(ph.err)))))
    case Finish(_) => Effect(None, permits := 1)
  }

  function UseLock(locks: map<PrinterId, TaskId>, t: TaskId, use: LockUse): map<PrinterId, TaskId> {
    match use
    case Keep => locks
    case Acquire(p) => locks[p := t]
    case Release(p) => locks - {p}
  }

  function PerformInMemory(mem: Memory, t: TaskId, e: Effect): Memory
    requires t in mem.tasks
  {
    var j := mem.tasks[t].job;
    mem.(inflight := if e.next.None? then mem.inflight - {j} else mem.inflight,
    tasks := if e.next.None? then mem.tasks - {t} else mem.tasks[t := Task(j, e.next.value)],
    permits := mem.permits + e.permits,
    locks := UseLock(mem.locks, t, e.lock),
    cursors := if e.cursors.Some? then e.cursors.value else mem.cursors)
  }

  function Perform(s: World, t: TaskId, e: Effect): World
    requires t in s.mem.tasks
  {
    var j := s.mem.tasks[t].job;
    s.(db := if e.mark.Some? then s.db.(jobs := Mark(s.db.jobs, j, e.mark.value)) else s.db,
    mem := PerformInMemory(s.mem, t, e),
    history := if e.streams then s.history + [MayHaveStreamed(j)] else s.history)
  }

  // ---------------------------------------------------------------- everything else

  function SetJobs(s: World, jobs: Jobs): World {
    s.(db := s.db.(jobs := jobs))
  }

  /** The poller takes the next job of its batch: skips it unless it wins the claim. */
  predicate Wins(s: World)
    requires s.mem.batch != []
  {
    s.mem.batch[0] !in s.mem.inflight && Claimable(s.db.jobs, s.mem.batch[0])
  }

  function Spawned(mem: Memory, t: TaskId): Memory
    requires mem.batch != []
  {
    var j := mem.batch[0];
    mem.(batch := mem.batch[1..], tasks := mem.tasks[t := Task(j, Waiting)], inflight := mem.inflight[j := t])
  }

  function Taken(s: World, t: TaskId): World
    requires s.mem.batch != []
  {
    if Wins(s) then
      var j := s.mem.batch[0];
      s.(db := s.db.(jobs := Claim(s.db.jobs, j)),
      mem := Spawned(s.mem, t),
      history := s.history + [Claimed(j, s.mem.batchAt)])
    else s.(mem := s.mem.(batch := s.mem.batch[1..]))
  }

  function SubmitEvent(cfg: Config, s: World, req: Api.Request, draw: Api.Draw): Event {
    Submitted(Api.Decide(s.db, cfg.limits, req, draw), Api.KeyOf(req), Api.RequestDigest(req))
  }

  function Submitting(cfg: Config, s: World, req: Api.Request, draw: Api.Draw): World {
    s.(db := Api.Submit(s.db, cfg.limits, req, draw),
    issued := s.issued + {draw.id},
    history := s.history + [SubmitEvent(cfg, s, req, draw)])
  }

  function Requeueing(s: World, j: JobId): World {
    match JobTable.Requeue(s.db.jobs, j)
    case Err(_) => s
    case Ok(jobs) => SetJobs(s, jobs).(history := s.history + [Requeued(j, s.db.jobs[j].printer)])
  }

  function OrSame(s: World, r: Result<Jobs>): World {
    match r
    case Err(_) => s
    case Ok(jobs) => SetJobs(s, jobs)
  }

  function Sweeping(cfg: Config, s: World, jobsNow: Instant, keysNow: Instant): World {
    var keys := PruneKeys(s.db.keys, keysNow - cfg.keyWindow);
    s.(db := Tables(PruneJobs(s.db.jobs, jobsNow - cfg.jobWindow), keys),
    history := s.history + [Swept(s.db.keys.Keys - keys.Keys)])
  }

  ghost function Apply(cfg: Config, s: World, step: Step): World
    requires Enabled(s, step)
  {
    if TaskStep(step) then Perform(s, step.t, TaskEffect(cfg, s, step))
    else if step.Take? then Taken(s, step.t)
    else if step.Restart? then s.(mem := BLANK)
    else if step.Poll? then s.(mem := s.mem.(batch := step.ids, batchAt := step.now))
    else ApplyOutside(cfg, s, step)
  }

  /** Calls and sweeps, which reach the database only. */
  predicate OutsideStep(step: Step) {
    step.Submit? || step.Cancel? || step.Requeue? || step.Resolve? || step.Sweep? || step.Reconfigure?
  }

  function ApplyOutside(cfg: Config, s: World, step: Step): (s': World)
    requires OutsideStep(step)
    ensures s'.mem == s.mem
  {
    match step
    case Submit(req, draw) => Submitting(cfg, s, req, draw)
    case Cancel(j) => OrSame(s, JobTable.Cancel(s.db.jobs, j))
    case Requeue(j) => Requeueing(s, j)
    case Resolve(j, asDone) => OrSame(s, JobTable.Resolve(s.db.jobs, j, asDone))
    case Sweep(jobsNow, keysNow) => Sweeping(cfg, s, jobsNow, keysNow)
    case Reconfigure(to) => s.(printers := to)
  }

  /** What an outside step adds to the history. */
  function OutsideEvent(cfg: Config, s: World, step: Step): Option<Event>
    requires OutsideStep(step)
  {
    match step
    case Submit(req, draw) => Some(SubmitEvent(cfg, s, req, draw))
    case Requeue(j) =>
      if JobTable.Requeue(s.db.jobs, j).Ok? then Some(Requeued(j, s.db.jobs[j].printer)) else None
    case Sweep(_, keysNow) =>
      Some(Swept(s.db.keys.Keys - PruneKeys(s.db.keys, keysNow - cfg.keyWindow).Keys))
    case _ => None
  }

  function Logged(h: seq<Event>, e: Option<Event>): seq<Event> {
    if e.Some? then h + [e.value] else h
  }

  lemma OutsideLogs(cfg: Config, s: World, step: Step)
    requires OutsideStep(step)
    ensures ApplyOutside(cfg, s, step).history == Logged(s.history, OutsideEvent(cfg, s, step))
  {
  }

  // ---------------------------------------------------------------- runs

  /** `steps` can be taken one after the other from `s`. */
  ghost predicate IsRun(cfg: Config, s: World, steps: seq<Step>)
    decreases |steps|, 0
  {
    || steps == []
    || (IsRun(cfg, s, steps[..|steps| - 1]) && Enabled(After(cfg, s, steps[..|steps| - 1]), steps[|steps| - 1]))
  }

  ghost function After(cfg: Config, s: World, steps: seq<Step>): World
    requires IsRun(cfg, s, steps)
    decreases |steps|, 1
  {
    if steps == [] then s
    else Apply(cfg, After(cfg, s, steps[..|steps| - 1]), steps[|steps| - 1])
  }

  lemma Extend(cfg: Config, s: World, steps: seq<Step>, step: Step)
    requires IsRun(cfg, s, steps) && Enabled(After(cfg, s, steps), step)
    ensures IsRun(cfg, s, steps + [step])
    ensures After(cfg, s, steps + [step]) == Apply(cfg, After(cfg, s, steps), step)
  {
    assert (steps + [step])[..|steps|] == steps;
  }
}
