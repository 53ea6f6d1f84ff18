/** The wait between attempts, kept over whole runs: after a retryable failure a job is not started again
    before its delay is over, whatever else happens, unless an operator requeues it. */
module WorkerBackoff {
  import opened Basics
  import opened JobTable
  import opened Pools
  import opened WorkerModel
  import opened WorkerSafety
  import opened WorkerDelivery
  import opened WorkerLoad

  /** Job j waits until `due`, or an operator has taken it out of the queue; no task works on it. */
  predicate Cooling(s: World, j: JobId, due: Instant) {
    && j in s.issued
    && (PhaseOf(s.mem, j).Some? ==> PhaseOf(s.mem, j).value.Finishing?)
    && (j in s.db.jobs ==>
          || (s.db.jobs[j].status.Queued? && s.db.jobs[j].nextAttemptAt == Some(due))
          || !Active(s.db.jobs[j].status))
  }

  /** The step requeues the job, or claims it. */
  predicate Touches(s: World, step: Step, j: JobId) {
    || step == Requeue(j)
    || (step.Take? && s.mem.batch != [] && s.mem.batch[0] == j && Wins(s))
  }

  lemma PerformCools(s: World, t: TaskId, e: Effect, j: JobId, due: Instant)
    requires t in s.mem.tasks && Registered(s.mem) && Cooling(s, j, due)
    requires s.mem.tasks[t].job == j ==> e.mark.None? && e.next.None?
    ensures Cooling(Perform(s, t, e), j, due)
  {
    PhaseAfter(s.mem, t, e, j);
  }

  lemma FinishingFinishes(cfg: Config, s: World, step: Step)
    requires TaskStep(step) && step.t in s.mem.tasks && PhaseAllows(s.mem, step)
    ensures s.mem.tasks[step.t].phase.Finishing? ==>
              TaskEffect(cfg, s, step).mark.None? && TaskEffect(cfg, s, step).next.None?
  {
  }

  lemma TakenCools(s: World, t: TaskId, j: JobId, due: Instant)
    requires s.mem.batch != [] && t !in s.mem.tasks && Registered(s.mem) && Cooling(s, j, due)
    requires !(s.mem.batch[0] == j && Wins(s))
    ensures Cooling(Taken(s, t), j, due)
  {
    assert PhaseOf(Taken(s, t).mem, j) == PhaseOf(s.mem, j);
  }

  lemma CallCools(s: World, s': World, e: Option<Event>, j: JobId, due: Instant)
    requires Cooling(s, j, due) && OutsideRow(s, s', e, j) && !(e.Some? && IsRequeue(e.value, j))
    ensures Cooling(s', j, due)
  {
  }

  lemma CoolingStep(cfg: Config, s: World, step: Step, j: JobId, due: Instant)
    requires Enabled(s, step) && Sound(cfg, s) && Cooling(s, j, due) && !Touches(s, step, j)
    ensures Cooling(Apply(cfg, s, step), j, due)
  {
    if TaskStep(step) {
      FinishingFinishes(cfg, s, step);
      assert s.mem.tasks[step.t].job == j ==> PhaseOf(s.mem, j) == Some(s.mem.tasks[step.t].phase);
      PerformCools(s, step.t, TaskEffect(cfg, s, step), j, due);
    } else if step.Take? {
      TakenCools(s, step.t, j, due);
    } else if OutsideStep(step) {
      OutsideRows(cfg, s, step, j);
      CallCools(s, ApplyOutside(cfg, s, step), OutsideEvent(cfg, s, step), j, due);
    }
  }

  /** No step of a run requeues or claims the job. */
  ghost predicate Untouched(cfg: Config, s: World, steps: seq<Step>, j: JobId)
    requires IsRun(cfg, s, steps)
    decreases |steps|
  {
    steps == [] ||
    (var init := steps[..|steps| - 1];
     Untouched(cfg, s, init, j) && !Touches(After(cfg, s, init), steps[|steps| - 1], j))
  }

  /** The invariants of every run that the wait needs. */
  ghost predicate Kept(cfg: Config, s: World) {
    Sound(cfg, s) && BatchDue(s) && BatchIssued(s)
  }

  ghost predicate CoolsWell(cfg: Config, s: World, j: JobId, due: Instant) {
    Kept(cfg, s) && Cooling(s, j, due)
  }

  lemma {:induction false} CoolingRun(cfg: Config, s: World, steps: seq<Step>, j: JobId, due: Instant)
    requires IsRun(cfg, s, steps) && Untouched(cfg, s, steps, j) && CoolsWell(cfg, s, j, due)
    ensures CoolsWell(cfg, After(cfg, s, steps), j, due)
    decreases |steps|
  {
    if steps != [] {
      var init, last := steps[..|steps| - 1], steps[|steps| - 1];
      CoolingRun(cfg, s, init, j, due);
      var mid := After(cfg, s, init);
      SoundStep(cfg, mid, last);
      BatchStep(cfg, mid, last);
      CoolingStep(cfg, mid, last, j, due);
    }
  }

  /** The attempt fails in a way that is safe to retry: a retryable error from the send, or a pool with no
      member up. */
  predicate FailsSafely(s: World, step: Step)
    requires TaskStep(step)
  {
    || (step.Return? && SafeToRetry(step.outcome))
    || (step.Route? && FirstUp(step.up).None?)
  }

  /** Such a failure with attempts left puts the job back in the queue, one attempt used, due after the
      delay. */
  lemma FailureCools(cfg: Config, s: World, step: Step)
    requires TaskStep(step) && Enabled(s, step) && Sound(cfg, s) && FailsSafely(s, step)
    requires s.mem.tasks[step.t].phase.attempts + 1 < cfg.maxAttempts
    ensures var j, n := s.mem.tasks[step.t].job, s.mem.tasks[step.t].phase.attempts + 1;
            var s' := Apply(cfg, s, step);
            && j in s'.db.jobs && s'.db.jobs[j].status.Queued? && s'.db.jobs[j].attempts == n
            && Cooling(s', j, step.now + Delay(cfg, n))
  {
    var j, e := s.mem.tasks[step.t].job, TaskEffect(cfg, s, step);
    PhaseAfter(s.mem, step.t, e, j);
    OwnedIsBusy(s, j);
  }

  /** The poller is about to claim the job. */
  ghost predicate ClaimsNext(s: World, u: TaskId, j: JobId) {
    Enabled(s, Take(u)) && s.mem.batch[0] == j && Wins(s)
  }

  lemma DueClaims(cfg: Config, s: World, u: TaskId, j: JobId, due: Instant)
    requires CoolsWell(cfg, s, j, due) && ClaimsNext(s, u, j)
    ensures s.mem.batchAt >= due
  {
  }

  /** Every run leads to states that meet them. */
  lemma RunsKeep(cfg: Config, printers: Printers, steps: seq<Step>)
    requires IsRun(cfg, Init(printers), steps)
    ensures Kept(cfg, After(cfg, Init(printers), steps))
  {
    SoundRun(cfg, printers, steps);
    BatchRun(cfg, printers, steps);
  }

  /** From any such state a retryable failure with attempts left starts the wait: the job is due after the
      delay of that attempt. */
  lemma FailureStartsWait(cfg: Config, s: World, step: Step)
    requires TaskStep(step) && Enabled(s, step) && Kept(cfg, s) && FailsSafely(s, step)
    requires s.mem.tasks[step.t].phase.attempts + 1 < cfg.maxAttempts
    ensures CoolsWell(cfg, Apply(cfg, s, step), s.mem.tasks[step.t].job,
                      step.now + Delay(cfg, s.mem.tasks[step.t].phase.attempts + 1))
  {
    FailureCools(cfg, s, step);
    SoundStep(cfg, s, step);
    BatchStep(cfg, s, step);
  }

  /** And the wait is kept: however the run goes on from there, the next claim of the job, unless an
      operator requeued it, is by a poll that read an instant no earlier than the one it is due at. */
  lemma RetryWaits(cfg: Config, s: World, more: seq<Step>, u: TaskId, j: JobId, due: Instant)
    requires CoolsWell(cfg, s, j, due) && IsRun(cfg, s, more) && Untouched(cfg, s, more, j)
    requires ClaimsNext(After(cfg, s, more), u, j)
    ensures After(cfg, s, more).mem.batchAt >= due
  {
    CoolingRun(cfg, s, more, j, due);
    DueClaims(cfg, After(cfg, s, more), u, j, due);
  }
}
