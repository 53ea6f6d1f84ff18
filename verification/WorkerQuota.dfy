/** The daily quota over every run: quoted submissions never take a printer's count past its limit; what else
    raises it is counted. */
module WorkerQuota {
  import opened Basics
  import opened JobTable
  import opened Pools
  import opened WorkerModel
  import opened WorkerSafety
  import opened WorkerDelivery
  import opened WorkerLoad
  import Api = PrintApi

  /** The printer's daily limit: its own if it has one, the default otherwise. */
  predicate Limited(limits: Api.Limits, p: PrinterId, limit: int) {
    && limit != 0
    && if p in limits.quotas && limits.quotas[p] != 0 then limit == limits.quotas[p]
       else limits.defaultQuota == Some(limit)
  }

  predicate Uses(job: Job, p: PrinterId, midnight: Instant) {
    job.printer == p && job.createdAt >= midnight && job.status != Canceled
  }

  /** The jobs a printer's quota counts. */
  ghost predicate UsedBy(jobs: Jobs, p: PrinterId, midnight: Instant, used: set<JobId>) {
    forall j :: j in used <==> j in jobs && Uses(jobs[j], p, midnight)
  }

  /** A quoted submission that creates a job finds fewer than the limit. */
  lemma QuotaGuards(cfg: Config, s: World, req: Api.Request, draw: Api.Draw, limit: int, used: set<JobId>)
    requires req.quoted && Limited(cfg.limits, req.printer, limit)
    requires UsedBy(s.db.jobs, req.printer, draw.midnight, used)
    requires Api.Decide(s.db, cfg.limits, req, draw) == Api.Accepted(draw.id, Queued, false)
    ensures |used| < limit
  {
    Api.OverQuotaExactly(cfg.limits, s.db.jobs, req.printer, draw.midnight, used);
    Api.AnswersExactly(s.db, cfg.limits, req, draw);
  }

  // ---------------------------------------------------------------- what else raises the count

  /** The job whose cancellation the step may undo: an operator's requeue, or a task marking its job after the
      cancellation. */
  function Revived(s: World, step: Step): Option<JobId> {
    match step
    case Requeue(j) => Some(j)
    case Fail(t) => if t in s.mem.tasks then Some(s.mem.tasks[t].job) else None
    case Bury(t) => if t in s.mem.tasks then Some(s.mem.tasks[t].job) else None
    case _ => None
  }

  predicate Revives(s: World, step: Step, p: PrinterId) {
    var j := Revived(s, step);
    j.Some? && j.value in s.db.jobs && s.db.jobs[j.value].printer == p && s.db.jobs[j.value].status == Canceled
  }

  /** The step may raise the count without regard to the limit: a submission that takes no quota, or one that
      undoes a cancellation. */
  predicate Escapes(s: World, step: Step, p: PrinterId) {
    (step.Submit? && !step.req.quoted && step.req.printer == p) || Revives(s, step, p)
  }

  ghost function Escapees(cfg: Config, w: World, steps: seq<Step>, p: PrinterId): nat
    requires IsRun(cfg, w, steps)
    decreases |steps|
  {
    if steps == [] then 0
    else
      var init, last := steps[..|steps| - 1], steps[|steps| - 1];
      Escapees(cfg, w, init, p) + (if Escapes(After(cfg, w, init), last, p) then 1 else 0)
  }

  /** All quoted submissions to the printer are made on the same day. */
  predicate SameDay(steps: seq<Step>, p: PrinterId, midnight: Instant) {
    forall i :: 0 <= i < |steps| && steps[i].Submit? && steps[i].req.quoted && steps[i].req.printer == p ==>
      steps[i].draw.midnight == midnight
  }

  // ---------------------------------------------------------------- one step

  lemma TaskRevives(cfg: Config, s: World, step: Step, j: JobId, p: PrinterId, midnight: Instant)
    requires TaskStep(step) && Enabled(s, step) && Registered(s.mem) && RowsMatch(s)
    requires j in Apply(cfg, s, step).db.jobs && Uses(Apply(cfg, s, step).db.jobs[j], p, midnight)
    ensures j in s.db.jobs
    ensures Uses(s.db.jobs[j], p, midnight) || (Revives(s, step, p) && Revived(s, step) == Some(j))
  {
    var t := step.t;
    if j in s.db.jobs && s.db.jobs[j].status == Canceled && s.mem.tasks[t].job == j {
      assert Grounded(s.db.jobs, j, s.mem.tasks[t].phase);
      MarksNothing(cfg, s, step);
    }
  }

  /** A task that no longer owns its job marks it only by its second or its late mark. */
  lemma MarksNothing(cfg: Config, s: World, step: Step)
    requires TaskStep(step) && step.t in s.mem.tasks && PhaseAllows(s.mem, step)
    ensures !Owning(s.mem.tasks[step.t].phase) && !step.Fail? && !step.Bury? ==> TaskEffect(cfg, s, step).mark.None?
  {
  }

  lemma CallRevives(cfg: Config, s: World, step: Step, j: JobId, p: PrinterId, midnight: Instant)
    requires OutsideStep(step) && !step.Submit?
    requires j in ApplyOutside(cfg, s, step).db.jobs && Uses(ApplyOutside(cfg, s, step).db.jobs[j], p, midnight)
    ensures j in s.db.jobs
    ensures Uses(s.db.jobs[j], p, midnight) || (Revives(s, step, p) && Revived(s, step) == Some(j))
  {
  }

  /** Any step but a submission. */
  lemma OnlyRevived(cfg: Config, s: World, step: Step, j: JobId, p: PrinterId, midnight: Instant)
    requires Enabled(s, step) && !step.Submit? && Registered(s.mem) && RowsMatch(s)
    requires j in Apply(cfg, s, step).db.jobs && Uses(Apply(cfg, s, step).db.jobs[j], p, midnight)
    ensures j in s.db.jobs
    ensures Uses(s.db.jobs[j], p, midnight) || (Revives(s, step, p) && Revived(s, step) == Some(j))
  {
    if TaskStep(step) {
      TaskRevives(cfg, s, step, j, p, midnight);
    } else if OutsideStep(step) {
      CallRevives(cfg, s, step, j, p, midnight);
    }
  }

  lemma RevivedCount(cfg: Config, s: World, step: Step, p: PrinterId, midnight: Instant,
                     used: set<JobId>, used': set<JobId>)
    requires Enabled(s, step) && !step.Submit? && Registered(s.mem) && RowsMatch(s)
    requires UsedBy(s.db.jobs, p, midnight, used) && UsedBy(Apply(cfg, s, step).db.jobs, p, midnight, used')
    ensures |used'| <= |used| + (if Escapes(s, step, p) then 1 else 0)
  {
    var more := if Revives(s, step, p) then {Revived(s, step).value} else {};
    forall j | j in used'
      ensures j in used + more
    {
      OnlyRevived(cfg, s, step, j, p, midnight);
    }
    SubsetSize(used', used + more);
  }

  lemma NewRowCount(jobs: Jobs, jobs': Jobs, id: JobId, p: PrinterId, midnight: Instant, used: set<JobId>,
                    used': set<JobId>)
    requires UsedBy(jobs, p, midnight, used) && UsedBy(jobs', p, midnight, used')
    requires id in jobs' && jobs'.Keys == jobs.Keys + {id} && forall j :: j in jobs ==> jobs'[j] == jobs[j]
    ensures |used'| <= |used| + (if jobs'[id].printer == p then 1 else 0)
  {
    var more := if jobs'[id].printer == p then {id} else {};
    SubsetSize(used', used + more);
  }

  lemma SubmitCount(cfg: Config, s: World, req: Api.Request, draw: Api.Draw, p: PrinterId, midnight: Instant,
                    limit: int, used: set<JobId>, used': set<JobId>)
    requires draw.id !in s.db.jobs && Limited(cfg.limits, p, limit)
    requires req.quoted && req.printer == p ==> draw.midnight == midnight
    requires UsedBy(s.db.jobs, p, midnight, used)
    requires UsedBy(Api.Submit(s.db, cfg.limits, req, draw).jobs, p, midnight, used')
    ensures |used'| <= |used| + (if Escapes(s, Submit(req, draw), p) then 1 else 0) || |used'| <= limit
  {
    var answer, jobs' := Api.Decide(s.db, cfg.limits, req, draw), Api.Submit(s.db, cfg.limits, req, draw).jobs;
    Api.WritesExactly(s.db, cfg.limits, req, draw);
    if answer.Accepted? && !answer.replay {
      NewRowCount(s.db.jobs, jobs', draw.id, p, midnight, used, used');
      if req.quoted && req.printer == p {
        Api.AnswersExactly(s.db, cfg.limits, req, draw);
        QuotaGuards(cfg, s, req, draw, limit, used);
      }
    } else {
      SubsetSize(used', used);
    }
  }

  // ---------------------------------------------------------------- whole runs

  function UsedIn(jobs: Jobs, p: PrinterId, midnight: Instant): (used: set<JobId>)
    ensures UsedBy(jobs, p, midnight, used)
  {
    set j | j in jobs && Uses(jobs[j], p, midnight)
  }

  /** Over every run of one day: a printer's jobs of the day, cancellations apart, never pass its limit but by
      the submissions that take no quota and the cancellations undone. */
  lemma {:induction false} QuotaHolds(cfg: Config, printers: Printers, steps: seq<Step>, p: PrinterId,
                                      midnight: Instant, limit: int, used: set<JobId>)
    requires IsRun(cfg, Init(printers), steps) && SameDay(steps, p, midnight) && Limited(cfg.limits, p, limit)
    requires UsedBy(After(cfg, Init(printers), steps).db.jobs, p, midnight, used)
    ensures |used| <= (if limit > 0 then limit else 0) + Escapees(cfg, Init(printers), steps, p)
    decreases |steps|
  {
    if steps == [] {
      assert used == {};
    } else {
      var w, init, last := Init(printers), steps[..|steps| - 1], steps[|steps| - 1];
      var s := After(cfg, w, init);
      var before := UsedIn(s.db.jobs, p, midnight);
      QuotaHolds(cfg, printers, init, p, midnight, limit, before);
      SoundRun(cfg, printers, init);
      assert last == steps[|steps| - 1];
      if last.Submit? {
        SubmitCount(cfg, s, last.req, last.draw, p, midnight, limit, before, used);
      } else {
        RevivedCount(cfg, s, last, p, midnight, before, used);
      }
    }
  }
}
