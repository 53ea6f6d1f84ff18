/** When a job's status changes, exactly: for every status, the steps that take a row out of it. */
module WorkerStatus {
  import opened Basics
  import opened JobTable
  import opened Pools
  import opened WorkerModel
  import opened WorkerSafety
  import opened WorkerDelivery
  import opened WorkerLoad

  /** A step of job j's own task. */
  predicate OwnStep(s: World, step: Step, j: JobId) {
    TaskStep(step) && step.t in s.mem.tasks && s.mem.tasks[step.t].job == j
  }

  predicate ClaimStep(s: World, step: Step, j: JobId) {
    step.Take? && s.mem.batch != [] && s.mem.batch[0] == j && Wins(s)
  }

  predicate NoneUp(step: Step) {
    step.Route? && FirstUp(step.up).None?
  }

  /** The steps of its own task that take a job out of a status: a final one is left only by the guard,
      which marks the job failed after the fact. */
  predicate LeftByTask(status: Status, step: Step) {
    match status
    case Rendering => step.Render? || NoneUp(step) || step.Fail?
    case Printing => (step.Return? && !step.outcome.Threw?) || step.Fail?
    case Queued => step.Fail? || step.Bury?
    case Canceled => step.Fail? || step.Bury?
    case Failed => step.Bury?
    case _ => step.Fail?
  }

  /** And those of operators. */
  predicate LeftByCall(status: Status, step: Step, j: JobId) {
    match status
    case Queued => step == Cancel(j)
    case Failed => step == Cancel(j) || step == Requeue(j)
    case Dead => step == Requeue(j)
    case Canceled => step == Requeue(j)
    case Uncertain => step == Requeue(j) || (step.Resolve? && step.j == j)
    case _ => false
  }

  predicate Leaves(s: World, step: Step, j: JobId)
    requires j in s.db.jobs
  {
    || ClaimStep(s, step, j)
    || (OwnStep(s, step, j) && LeftByTask(s.db.jobs[j].status, step))
    || LeftByCall(s.db.jobs[j].status, step, j)
  }

  /** Which steps of a task mark its row, and how. */
  predicate MarksAs(step: Step, e: Effect)
    requires TaskStep(step)
  {
    && (e.mark.Some?
        <==> step.Render? || NoneUp(step) || (step.Return? && !step.outcome.Threw?) || step.Bury? || step.Fail?)
    && (e.mark.Some? ==>
          var status := e.mark.value.status;
          match step
          case Render(_, _) => status.Printing? || status.Failed?
          case Bury(_) => status.Dead?
          case Fail(_) => status.Failed?
          case _ => !status.Rendering? && !status.Printing?)
  }

  lemma EffectMarksAs(cfg: Config, s: World, step: Step)
    requires TaskStep(step) && step.t in s.mem.tasks && PhaseAllows(s.mem, step)
    ensures MarksAs(step, TaskEffect(cfg, s, step))
  {
  }

  predicate PhaseOfMark(ph: Phase, step: Step) {
    && (step.Render? ==> ph.Routed?) && (step.Route? ==> ph.Routing?) && (step.Return? ==> ph.Sending?)
    && (step.Bury? ==> ph.Unrenderable?) && (step.Fail? ==> ph.Crashed?)
  }

  /** What a task knows of its row's status when it makes a mark. */
  predicate StatusOfPhase(ph: Phase, status: Status) {
    && (Owning(ph) ==> status == (if ph.LockWait? || ph.Sending? then Printing else Rendering))
    && (ph.Unrenderable? ==> status.Failed? || status.Queued? || status.Canceled?)
  }

  lemma OwnMark(ph: Phase, status: Status, step: Step, e: Effect)
    requires TaskStep(step) && PhaseOfMark(ph, step) && StatusOfPhase(ph, status) && MarksAs(step, e)
    ensures (e.mark.Some? && e.mark.value.status != status) <==> LeftByTask(status, step)
  {
  }

  lemma PhaseIs(m: Memory, step: Step)
    requires TaskStep(step) && step.t in m.tasks && PhaseAllows(m, step)
    ensures PhaseOfMark(m.tasks[step.t].phase, step)
  {
  }

  lemma TaskKnows(s: World, t: TaskId, j: JobId)
    requires t in s.mem.tasks && s.mem.tasks[t].job == j && j in s.db.jobs
    requires Registered(s.mem) && RowsMatch(s) && UnrenderableFits(s, j)
    ensures StatusOfPhase(s.mem.tasks[t].phase, s.db.jobs[j].status)
  {
    assert Grounded(s.db.jobs, j, s.mem.tasks[t].phase);
    assert PhaseOf(s.mem, j) == Some(s.mem.tasks[t].phase);
  }

  lemma OwnRow(s: World, t: TaskId, e: Effect)
    requires t in s.mem.tasks && s.mem.tasks[t].job in s.db.jobs
    ensures var j, s' := s.mem.tasks[t].job, Perform(s, t, e);
            j in s'.db.jobs && s'.db.jobs[j].status == if e.mark.Some? then e.mark.value.status else s.db.jobs[j].status
  {
  }

  lemma OtherRow(s: World, t: TaskId, e: Effect, j: JobId)
    requires t in s.mem.tasks && s.mem.tasks[t].job != j && j in s.db.jobs
    ensures j in Perform(s, t, e).db.jobs && Perform(s, t, e).db.jobs[j] == s.db.jobs[j]
  {
  }

  lemma OwnMarkLeaves(s: World, step: Step, e: Effect, j: JobId)
    requires OwnStep(s, step, j) && PhaseAllows(s.mem, step) && MarksAs(step, e)
    requires Registered(s.mem) && RowsMatch(s) && UnrenderableFits(s, j) && j in s.db.jobs
    ensures var status := s.db.jobs[j].status;
            (e.mark.Some? && e.mark.value.status != status) <==> LeftByTask(status, step)
  {
    TaskKnows(s, step.t, j);
    PhaseIs(s.mem, step);
    OwnMark(s.mem.tasks[step.t].phase, s.db.jobs[j].status, step, e);
  }

  lemma TaskLeaves(s: World, step: Step, e: Effect, j: JobId)
    requires TaskStep(step) && step.t in s.mem.tasks && j in s.db.jobs
    requires var status := s.db.jobs[j].status;
             OwnStep(s, step, j) ==> ((e.mark.Some? && e.mark.value.status != status) <==> LeftByTask(status, step))
    ensures var s' := Perform(s, step.t, e);
            j in s'.db.jobs && (s'.db.jobs[j].status != s.db.jobs[j].status <==> Leaves(s, step, j))
  {
    if s.mem.tasks[step.t].job == j {
      OwnRow(s, step.t, e);
    } else {
      OtherRow(s, step.t, e, j);
    }
  }

  lemma TaskStepLeaves(cfg: Config, s: World, step: Step, j: JobId)
    requires TaskStep(step) && step.t in s.mem.tasks && PhaseAllows(s.mem, step)
    requires Registered(s.mem) && RowsMatch(s) && UnrenderableFits(s, j) && j in s.db.jobs
    ensures var s' := Perform(s, step.t, TaskEffect(cfg, s, step));
            j in s'.db.jobs && (s'.db.jobs[j].status != s.db.jobs[j].status <==> Leaves(s, step, j))
  {
    EffectMarksAs(cfg, s, step);
    if OwnStep(s, step, j) {
      OwnMarkLeaves(s, step, TaskEffect(cfg, s, step), j);
    }
    TaskLeaves(s, step, TaskEffect(cfg, s, step), j);
  }

  lemma TakeLeaves(s: World, t: TaskId, j: JobId)
    requires s.mem.batch != [] && j in s.db.jobs
    ensures var s' := Taken(s, t);
            j in s'.db.jobs && (s'.db.jobs[j].status != s.db.jobs[j].status <==> Leaves(s, Take(t), j))
  {
  }

  lemma CallLeaves(cfg: Config, s: World, step: Step, j: JobId)
    requires Enabled(s, step) && OutsideStep(step) && s.db.jobs.Keys <= s.issued && j in s.db.jobs
    ensures var s' := ApplyOutside(cfg, s, step);
            j in s'.db.jobs ==> (s'.db.jobs[j].status != s.db.jobs[j].status <==> Leaves(s, step, j))
  {
  }

  /** In every reachable state, an enabled step changes a job's status, if it leaves the row there at all,
      exactly when it is one of those. */
  lemma StatusLeavesExactly(cfg: Config, printers: Printers, steps: seq<Step>, step: Step, j: JobId)
    requires IsRun(cfg, Init(printers), steps) && Enabled(After(cfg, Init(printers), steps), step)
    requires j in After(cfg, Init(printers), steps).db.jobs
    ensures var s := After(cfg, Init(printers), steps);
            var s' := Apply(cfg, s, step);
            j in s'.db.jobs ==> (s'.db.jobs[j].status != s.db.jobs[j].status <==> Leaves(s, step, j))
  {
    SoundRun(cfg, printers, steps);
    LifecycleRun(cfg, printers, steps, j);
    LeavesStep(cfg, After(cfg, Init(printers), steps), step, j);
  }

  lemma LeavesStep(cfg: Config, s: World, step: Step, j: JobId)
    requires Enabled(s, step) && Sound(cfg, s) && UnrenderableFits(s, j) && j in s.db.jobs
    ensures var s' := Apply(cfg, s, step);
            j in s'.db.jobs ==> (s'.db.jobs[j].status != s.db.jobs[j].status <==> Leaves(s, step, j))
  {
    if TaskStep(step) {
      TaskStepLeaves(cfg, s, step, j);
    } else if step.Take? {
      TakeLeaves(s, step.t, j);
    } else if OutsideStep(step) {
      CallLeaves(cfg, s, step, j);
    }
  }
}
