/** More of what every run of the worker keeps: the caps on queue depth, the backoff before a claim,
    the lifecycle of a job, and what a restart leaves behind. */
module WorkerLoad {
  import opened Basics
  import opened JobTable
  import opened Pools
  import opened WorkerModel
  import opened WorkerSafety
  import opened WorkerDelivery
  import Api = PrintApi

  // ---------------------------------------------------------------- backpressure

  /** Operator requeues so far: all of them, or those of one printer's jobs. */
  function Requeues(h: seq<Event>, at: Option<PrinterId>): nat {
    if h == [] then 0
    else
      var last := h[|h| - 1];
      Requeues(h[..|h| - 1], at) + (if last.Requeued? && (at.None? || at.value == last.printer) then 1 else 0)
  }

  lemma RequeuesAppend(h: seq<Event>, e: Event, at: Option<PrinterId>)
    ensures Requeues(h + [e], at)
         == Requeues(h, at) + (if e.Requeued? && (at.None? || at.value == e.printer) then 1 else 0)
  {
    assert (h + [e])[..|h|] == h;
  }

  /** The jobs a cap counts: all active ones, or one printer's. */
  function Counted(jobs: Jobs, at: Option<PrinterId>): set<JobId> {
    if at.None? then ActiveIds(jobs) else ActiveIdsAt(jobs, at.value)
  }

  function Cap(cfg: Config, at: Option<PrinterId>): int {
    if at.None? then cfg.limits.globalMax else cfg.limits.perPrinterMax
  }

  predicate WithinCap(cfg: Config, s: World, at: Option<PrinterId>) {
    |Counted(s.db.jobs, at)| <= (if Cap(cfg, at) > 0 then Cap(cfg, at) else 0) + Requeues(s.history, at)
  }

  lemma SubsetSize<T>(a: set<T>, b: set<T>)
    requires a <= b
    ensures |a| <= |b|
  {
    assert b == a + (b - a);
  }

  /** A mark on an active job cannot make the count grow. */
  lemma MarkKeepsCount(jobs: Jobs, j: JobId, f: Fields, at: Option<PrinterId>)
    requires j in jobs && Active(f.status) ==> Active(jobs[j].status)
    ensures |Counted(Mark(jobs, j, f), at)| <= |Counted(jobs, at)|
  {
    SubsetSize(Counted(Mark(jobs, j, f), at), Counted(jobs, at));
  }

  lemma RequeueCount(jobs: Jobs, j: JobId, at: Option<PrinterId>)
    requires JobTable.Requeue(jobs, j).Ok?
    ensures |Counted(JobTable.Requeue(jobs, j).value, at)|
         <= |Counted(jobs, at)| + (if at.None? || at.value == jobs[j].printer then 1 else 0)
  {
    var jobs' := JobTable.Requeue(jobs, j).value;
    var more := if at.None? || at.value == jobs[j].printer then {j} else {};
    SubsetSize(Counted(jobs', at), Counted(jobs, at) + more);
  }

  lemma EnqueueCount(jobs: Jobs, limits: Api.Limits, id: JobId, job: Job, at: Option<PrinterId>)
    requires id !in jobs && Enqueue(jobs, id, job, limits.globalMax, limits.perPrinterMax).Ok?
    ensures |Counted(jobs[id := job], at)| <= |Counted(jobs, at)|
         || |Counted(jobs[id := job], at)| <= (if at.None? then limits.globalMax else limits.perPrinterMax)
  {
    var more := if at.None? || at.value == job.printer then {id} else {};
    SubsetSize(Counted(jobs[id := job], at), Counted(jobs, at) + more);
  }

  lemma SubmitCount(cfg: Config, s: World, req: Api.Request, draw: Api.Draw, at: Option<PrinterId>)
    requires draw.id !in s.db.jobs && WithinCap(cfg, s, at)
    ensures WithinCap(cfg, Submitting(cfg, s, req, draw), at)
  {
    var answer := Api.Decide(s.db, cfg.limits, req, draw);
    RequeuesAppend(s.history, SubmitEvent(cfg, s, req, draw), at);
    if answer.Accepted? && !answer.replay {
      EnqueueCount(s.db.jobs, cfg.limits, draw.id, Api.NewJob(req, draw), at);
    }
  }

  lemma SweepCount(cfg: Config, s: World, jobsNow: Instant, keysNow: Instant, at: Option<PrinterId>)
    requires WithinCap(cfg, s, at)
    ensures WithinCap(cfg, Sweeping(cfg, s, jobsNow, keysNow), at)
  {
    var s' := Sweeping(cfg, s, jobsNow, keysNow);
    RequeuesAppend(s.history, s'.history[|s.history|], at);
    SubsetSize(Counted(s'.db.jobs, at), Counted(s.db.jobs, at));
  }

  lemma OutsideCount(cfg: Config, s: World, step: Step, at: Option<PrinterId>)
    requires Enabled(s, step) && OutsideStep(step) && RowsMatch(s) && WithinCap(cfg, s, at)
    ensures WithinCap(cfg, ApplyOutside(cfg, s, step), at)
  {
    match step
    case Submit(req, draw) => SubmitCount(cfg, s, req, draw, at);
    case Cancel(j) => MarkKeepsCount(s.db.jobs, j, Fields(Canceled), at);
    case Requeue(j) =>
      if JobTable.Requeue(s.db.jobs, j).Ok? {
        RequeueCount(s.db.jobs, j, at);
        RequeuesAppend(s.history, Requeued(j, s.db.jobs[j].printer), at);
      }
    case Resolve(j, asDone) => MarkKeepsCount(s.db.jobs, j, Fields(if asDone then Done else Failed), at);
    case Sweep(jobsNow, keysNow) => SweepCount(cfg, s, jobsNow, keysNow, at);
    case Reconfigure(_) =>
  }

  lemma TaskCount(cfg: Config, s: World, t: TaskId, e: Effect, at: Option<PrinterId>)
    requires t in s.mem.tasks && Registered(s.mem) && RowsMatch(s) && WithinCap(cfg, s, at)
    requires Marks(cfg, s.mem.tasks[t].phase, e)
    ensures WithinCap(cfg, Perform(s, t, e), at)
  {
    var j := s.mem.tasks[t].job;
    if e.mark.Some? {
      MarkKeepsCount(s.db.jobs, j, e.mark.value, at);
    }
    if e.streams {
      RequeuesAppend(s.history, MayHaveStreamed(j), at);
    }
  }

  lemma TakeCount(cfg: Config, s: World, t: TaskId, at: Option<PrinterId>)
    requires s.mem.batch != [] && WithinCap(cfg, s, at)
    ensures WithinCap(cfg, Taken(s, t), at)
  {
    var j := s.mem.batch[0];
    if Wins(s) {
      RequeuesAppend(s.history, Claimed(j, s.mem.batchAt), at);
      assert Counted(Claim(s.db.jobs, j), at) == Counted(s.db.jobs, at);
    }
  }

  lemma CapStep(cfg: Config, s: World, step: Step, at: Option<PrinterId>)
    requires Enabled(s, step) && Sound(cfg, s) && WithinCap(cfg, s, at)
    ensures WithinCap(cfg, Apply(cfg, s, step), at)
  {
    if TaskStep(step) {
      EffectMarks(cfg, s, step);
      TaskCount(cfg, s, step.t, TaskEffect(cfg, s, step), at);
    } else if step.Take? {
      TakeCount(cfg, s, step.t, at);
    } else if OutsideStep(step) {
      OutsideCount(cfg, s, step, at);
    }
  }

  lemma TaskAddsNone(cfg: Config, s: World, t: TaskId, e: Effect, at: Option<PrinterId>)
    requires t in s.mem.tasks && Registered(s.mem) && RowsMatch(s) && Marks(cfg, s.mem.tasks[t].phase, e)
    ensures |Counted(Perform(s, t, e).db.jobs, at)| <= |Counted(s.db.jobs, at)|
  {
    if e.mark.Some? {
      MarkKeepsCount(s.db.jobs, s.mem.tasks[t].job, e.mark.value, at);
    }
  }

  lemma CallAddsNone(cfg: Config, s: World, step: Step, at: Option<PrinterId>)
    requires OutsideStep(step) && !step.Submit? && !step.Requeue?
    ensures |Counted(ApplyOutside(cfg, s, step).db.jobs, at)| <= |Counted(s.db.jobs, at)|
  {
    match step
    case Cancel(j) => MarkKeepsCount(s.db.jobs, j, Fields(Canceled), at);
    case Resolve(j, asDone) => MarkKeepsCount(s.db.jobs, j, Fields(if asDone then Done else Failed), at);
    case Sweep(jobsNow, _) =>
      SubsetSize(Counted(PruneJobs(s.db.jobs, jobsNow - cfg.jobWindow), at), Counted(s.db.jobs, at));
    case Reconfigure(_) =>
  }

  /** Only a submission and an operator's requeue ever add to the active jobs, in all or of a printer: no
      step of the worker does, a retry included. */
  lemma OnlyRequestsAdd(cfg: Config, s: World, step: Step, at: Option<PrinterId>)
    requires Enabled(s, step) && Sound(cfg, s) && !step.Submit? && !step.Requeue?
    ensures |Counted(Apply(cfg, s, step).db.jobs, at)| <= |Counted(s.db.jobs, at)|
  {
    if TaskStep(step) {
      EffectMarks(cfg, s, step);
      TaskAddsNone(cfg, s, step.t, TaskEffect(cfg, s, step), at);
    } else if step.Take? {
      assert Counted(Claim(s.db.jobs, s.mem.batch[0]), at) == Counted(s.db.jobs, at);
    } else if OutsideStep(step) {
      CallAddsNone(cfg, s, step, at);
    }
  }

  /** Backpressure over every run: the active jobs, in all and of each printer, never exceed the cap
      by more than the requeues operators made, which are not checked against it. */
  lemma {:induction false} Backpressure(cfg: Config, printers: Printers, steps: seq<Step>, at: Option<PrinterId>)
    requires IsRun(cfg, Init(printers), steps)
    ensures WithinCap(cfg, After(cfg, Init(printers), steps), at)
    decreases |steps|
  {
    if steps != [] {
      var init := steps[..|steps| - 1];
      Backpressure(cfg, printers, init, at);
      SoundRun(cfg, printers, init);
      CapStep(cfg, After(cfg, Init(printers), init), steps[|steps| - 1], at);
    } else {
      assert Counted(map[], at) == {};
    }
  }

  // ---------------------------------------------------------------- backoff

  /** Whatever is left of the batch was due when it was read, and still is if it is still queued. */
  ghost predicate BatchDue(s: World) {
    forall i :: 0 <= i < |s.mem.batch| && s.mem.batch[i] in s.db.jobs ==>
      var job := s.db.jobs[s.mem.batch[i]];
      && (job.scheduledAt.None? || job.scheduledAt.value <= s.mem.batchAt)
      && (job.status.Queued? ==> Due(job, s.mem.batchAt))
  }

  lemma OutsideKeepsDue(cfg: Config, s: World, step: Step, j: JobId)
    requires Enabled(s, step) && OutsideStep(step) && j in s.issued
    ensures var jobs' := ApplyOutside(cfg, s, step).db.jobs;
            j in jobs' ==>
              && j in s.db.jobs
              && jobs'[j].scheduledAt == s.db.jobs[j].scheduledAt
              && (jobs'[j].status.Queued? ==>
                    jobs'[j].nextAttemptAt.None? || (s.db.jobs[j].status.Queued? && jobs'[j] == s.db.jobs[j]))
  {
  }

  ghost predicate BatchIssued(s: World) {
    forall i :: 0 <= i < |s.mem.batch| ==> s.mem.batch[i] in s.issued
  }

  lemma OutsideKeepsBatch(cfg: Config, s: World, step: Step)
    requires Enabled(s, step) && OutsideStep(step) && BatchDue(s) && BatchIssued(s)
    ensures BatchDue(ApplyOutside(cfg, s, step))
  {
    forall i | 0 <= i < |s.mem.batch|
      ensures var jobs' := ApplyOutside(cfg, s, step).db.jobs;
              var j := s.mem.batch[i];
              j in jobs' ==>
                && (jobs'[j].scheduledAt.None? || jobs'[j].scheduledAt.value <= s.mem.batchAt)
                && (jobs'[j].status.Queued? ==> Due(jobs'[j], s.mem.batchAt))
    {
      OutsideKeepsDue(cfg, s, step, s.mem.batch[i]);
    }
  }

  lemma BatchStep(cfg: Config, s: World, step: Step)
    requires Enabled(s, step) && RowsMatch(s) && BatchDue(s) && BatchIssued(s)
    ensures BatchDue(Apply(cfg, s, step)) && BatchIssued(Apply(cfg, s, step))
  {
    if OutsideStep(step) {
      OutsideIssues(cfg, s, step);
      OutsideKeepsBatch(cfg, s, step);
    } else if step.Take? {
      TakeKeepsBatch(s, step.t);
    } else if step.Poll? {
      PollBatch(s, step.now, step.ids);
    }
  }

  lemma TakeKeepsBatch(s: World, t: TaskId)
    requires s.mem.batch != [] && BatchDue(s) && BatchIssued(s)
    ensures BatchDue(Taken(s, t)) && BatchIssued(Taken(s, t))
  {
    var s' := Taken(s, t);
    forall i | 0 <= i < |s'.mem.batch| ensures s'.mem.batch[i] == s.mem.batch[i + 1] {}
  }

  lemma PollBatch(s: World, now: Instant, ids: seq<JobId>)
    requires IsReadyBatch(s.db.jobs, now, ids) && RowsMatch(s)
    ensures var s' := s.(mem := s.mem.(batch := ids, batchAt := now)); BatchDue(s') && BatchIssued(s')
  {
    forall i | 0 <= i < |ids| ensures ids[i] in ReadyIds(s.db.jobs, now) {}
  }

  lemma {:induction false} BatchRun(cfg: Config, printers: Printers, steps: seq<Step>)
    requires IsRun(cfg, Init(printers), steps)
    ensures BatchDue(After(cfg, Init(printers), steps)) && BatchIssued(After(cfg, Init(printers), steps))
    decreases |steps|
  {
    if steps != [] {
      var init := steps[..|steps| - 1];
      BatchRun(cfg, printers, init);
      SoundRun(cfg, printers, init);
      BatchStep(cfg, After(cfg, Init(printers), init), steps[|steps| - 1]);
    }
  }

  /** The backoff is respected: whenever a run goes on to claim a job, the job's next attempt time
      and its scheduled time are not later than the instant the poller read. */
  lemma ClaimedOnlyWhenDue(cfg: Config, printers: Printers, steps: seq<Step>, t: TaskId)
    requires IsRun(cfg, Init(printers), steps)
    requires var s := After(cfg, Init(printers), steps); Enabled(s, Take(t)) && Wins(s)
    ensures var s := After(cfg, Init(printers), steps);
            var job := s.db.jobs[s.mem.batch[0]];
            && (job.nextAttemptAt.Some? ==> job.nextAttemptAt.value <= s.mem.batchAt)
            && (job.scheduledAt.Some? ==> job.scheduledAt.value <= s.mem.batchAt)
  {
    BatchRun(cfg, printers, steps);
  }

  // ---------------------------------------------------------------- lifecycle

  /** The changes of status a job can go through.  Beyond the intended ones: a task's guard can turn
      a job that has already been marked (done, dead, uncertain, or since requeued or canceled) into
      failed, and the second mark of a render error can override what an operator did after the first. */
  predicate CanBecome(a: Status, b: Status) {
    match a
    case Queued => b.Rendering? || b.Canceled? || b.Failed? || b.Dead?
    case Rendering => b.Printing? || b.Queued? || b.Dead? || b.Failed?
    case Printing => b.Done? || b.Uncertain? || b.Queued? || b.Dead? || b.Failed?
    case Done => b.Failed?
    case Failed => b.Dead? || b.Canceled? || b.Queued?
    case Dead => b.Queued? || b.Failed?
    case Canceled => b.Queued? || b.Failed? || b.Dead?
    case Uncertain => b.Done? || b.Failed? || b.Queued?
  }

  /** Between the two marks of a render error, only operators can have changed the row. */
  predicate UnrenderableFits(s: World, j: JobId) {
    PhaseOf(s.mem, j).Some? && PhaseOf(s.mem, j).value.Unrenderable? && j in s.db.jobs ==>
      var status := s.db.jobs[j].status;
      status.Failed? || status.Queued? || status.Canceled?
  }

  /** Which phase makes which mark. */
  predicate MarkFits(ph: Phase, e: Effect) {
    && (e.mark.Some? ==>
          match e.mark.value.status
          case Printing => ph.Routed?
          case Done => ph.Sending?
          case Uncertain => ph.Sending?
          case Queued => HasAttempts(ph)
          case Dead => HasAttempts(ph) || ph.Unrenderable?
          case Failed => ph.Routed? || ph.Crashed?
          case _ => false)
    && (e.next.Some? && e.next.value.Unrenderable? ==> e.mark.Some? && e.mark.value.status.Failed?)
  }

  lemma EffectFits(cfg: Config, s: World, step: Step)
    requires TaskStep(step) && step.t in s.mem.tasks && PhaseAllows(s.mem, step)
    ensures MarkFits(s.mem.tasks[step.t].phase, TaskEffect(cfg, s, step))
  {
  }

  lemma TaskLifecycle(s: World, t: TaskId, e: Effect, j: JobId)
    requires t in s.mem.tasks && Registered(s.mem) && RowsMatch(s) && UnrenderableFits(s, j)
    requires MarkFits(s.mem.tasks[t].phase, e)
    ensures UnrenderableFits(Perform(s, t, e), j)
    ensures j in s.db.jobs && j in Perform(s, t, e).db.jobs ==>
              var a, b := s.db.jobs[j].status, Perform(s, t, e).db.jobs[j].status; a == b || CanBecome(a, b)
  {
    PhaseAfter(s.mem, t, e, j);
  }

  lemma OutsideLifecycle(cfg: Config, s: World, step: Step, j: JobId)
    requires Enabled(s, step) && OutsideStep(step) && RowsMatch(s) && UnrenderableFits(s, j)
    requires PhaseOf(s.mem, j).Some? ==> j in s.issued
    ensures var s' := ApplyOutside(cfg, s, step);
            && UnrenderableFits(s', j)
            && (j in s.db.jobs && j in s'.db.jobs ==>
                  var a, b := s.db.jobs[j].status, s'.db.jobs[j].status; a == b || CanBecome(a, b))
  {
  }

  lemma TakeLifecycle(s: World, t: TaskId, j: JobId)
    requires s.mem.batch != [] && t !in s.mem.tasks && Registered(s.mem) && UnrenderableFits(s, j)
    ensures UnrenderableFits(Taken(s, t), j)
    ensures j in s.db.jobs ==>
              && j in Taken(s, t).db.jobs
              && var a, b := s.db.jobs[j].status, Taken(s, t).db.jobs[j].status; a == b || CanBecome(a, b)
  {
  }

  ghost predicate TasksIssued(s: World) {
    forall t :: t in s.mem.tasks ==> s.mem.tasks[t].job in s.issued
  }

  lemma TasksIssuedStep(cfg: Config, s: World, step: Step)
    requires Enabled(s, step) && RowsMatch(s) && TasksIssued(s)
    ensures TasksIssued(Apply(cfg, s, step))
  {
    if OutsideStep(step) {
      OutsideIssues(cfg, s, step);
    }
  }

  lemma LifecycleStep(cfg: Config, s: World, step: Step, j: JobId)
    requires Enabled(s, step) && Sound(cfg, s) && TasksIssued(s) && UnrenderableFits(s, j)
    ensures var s' := Apply(cfg, s, step);
            && UnrenderableFits(s', j)
            && (j in s.db.jobs && j in s'.db.jobs ==>
                  var a, b := s.db.jobs[j].status, s'.db.jobs[j].status; a == b || CanBecome(a, b))
  {
    if TaskStep(step) {
      EffectFits(cfg, s, step);
      TaskLifecycle(s, step.t, TaskEffect(cfg, s, step), j);
    } else if step.Take? {
      TakeLifecycle(s, step.t, j);
    } else if OutsideStep(step) {
      OutsideLifecycle(cfg, s, step, j);
    }
  }

  lemma {:induction false} LifecycleRun(cfg: Config, printers: Printers, steps: seq<Step>, j: JobId)
    requires IsRun(cfg, Init(printers), steps)
    ensures TasksIssued(After(cfg, Init(printers), steps)) && UnrenderableFits(After(cfg, Init(printers), steps), j)
    decreases |steps|
  {
    if steps != [] {
      var init := steps[..|steps| - 1];
      LifecycleRun(cfg, printers, init, j);
      SoundRun(cfg, printers, init);
      TasksIssuedStep(cfg, After(cfg, Init(printers), init), steps[|steps| - 1]);
      LifecycleStep(cfg, After(cfg, Init(printers), init), steps[|steps| - 1], j);
    }
  }

  /** Along every run, a step changes a job's status only as CanBecome says. */
  lemma Lifecycle(cfg: Config, printers: Printers, steps: seq<Step>, step: Step, j: JobId)
    requires IsRun(cfg, Init(printers), steps) && Enabled(After(cfg, Init(printers), steps), step)
    ensures var s := After(cfg, Init(printers), steps);
            var s' := Apply(cfg, s, step);
            j in s.db.jobs && j in s'.db.jobs && s'.db.jobs[j].status != s.db.jobs[j].status
            ==> CanBecome(s.db.jobs[j].status, s'.db.jobs[j].status)
  {
    SoundRun(cfg, printers, steps);
    LifecycleRun(cfg, printers, steps, j);
    LifecycleStep(cfg, After(cfg, Init(printers), steps), step, j);
  }

  // ---------------------------------------------------------------- restart

  /** A row rendering or printing that no task works on, as every such row is after a restart. */
  predicate Stranded(s: World, j: JobId) {
    j in s.db.jobs && Busy(s.db.jobs[j].status) && j !in s.mem.inflight
  }

  lemma RestartStrands(cfg: Config, s: World, j: JobId)
    requires j in s.db.jobs && Busy(s.db.jobs[j].status)
    ensures Stranded(Apply(cfg, s, Restart), j)
  {
  }

  lemma PerformStrands(s: World, t: TaskId, e: Effect, j: JobId)
    requires t in s.mem.tasks && Registered(s.mem) && Stranded(s, j)
    ensures Stranded(Perform(s, t, e), j) && Perform(s, t, e).db.jobs[j] == s.db.jobs[j]
  {
  }

  lemma TakenStrands(s: World, t: TaskId, j: JobId)
    requires s.mem.batch != [] && Stranded(s, j)
    ensures Stranded(Taken(s, t), j) && Taken(s, t).db.jobs[j] == s.db.jobs[j]
  {
  }

  lemma StrandedStep(cfg: Config, s: World, step: Step, j: JobId)
    requires Enabled(s, step) && Registered(s.mem) && RowsMatch(s) && Stranded(s, j)
    ensures var s' := Apply(cfg, s, step); Stranded(s', j) && s'.db.jobs[j] == s.db.jobs[j]
  {
    if TaskStep(step) {
      PerformStrands(s, step.t, TaskEffect(cfg, s, step), j);
    } else if step.Take? {
      TakenStrands(s, step.t, j);
    } else if OutsideStep(step) {
      OutsideKeepsBusyRows(cfg, s, step, j);
    }
  }

  /** Nothing recovers a stranded row: no continuation of the run, restarts and operators included,
      ever changes it, so it holds its place in the queue's depth for good. */
  lemma {:induction false} StrandedForever(cfg: Config, printers: Printers, steps: seq<Step>, more: seq<Step>, j: JobId)
    requires IsRun(cfg, Init(printers), steps) && Stranded(After(cfg, Init(printers), steps), j)
    requires IsRun(cfg, After(cfg, Init(printers), steps), more)
    ensures var s, s' := After(cfg, Init(printers), steps), After(cfg, After(cfg, Init(printers), steps), more);
            Sound(cfg, s') && Stranded(s', j) && s'.db.jobs[j] == s.db.jobs[j]
    decreases |more|
  {
    var s := After(cfg, Init(printers), steps);
    SoundRun(cfg, printers, steps);
    if more != [] {
      var init := more[..|more| - 1];
      StrandedForever(cfg, printers, steps, init, j);
      StrandedStep(cfg, After(cfg, s, init), more[|more| - 1], j);
      SoundStep(cfg, After(cfg, s, init), more[|more| - 1]);
    }
  }
}
