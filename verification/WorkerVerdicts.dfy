/** What a final status says about the paper: over every run in which the backends keep their contract, a
    done or uncertain job has had exactly one send since its last requeue that may have put bytes on the
    wire, and a dead one none. */
module WorkerVerdicts {
  import opened Basics
  import opened JobTable
  import opened Pools
  import opened WorkerModel
  import opened WorkerSafety
  import opened WorkerDelivery

  function Streamings(s: World, j: JobId): nat {
    CountSince(s.history, j, Streams)
  }

  predicate Unrendered(m: Memory, j: JobId) {
    PhaseOf(m, j).Some? && PhaseOf(m, j).value.Unrenderable?
  }

  ghost predicate VerdictFits(s: World, j: JobId) {
    && (j in s.db.jobs && (s.db.jobs[j].status.Done? || s.db.jobs[j].status.Uncertain?) ==> Streamings(s, j) == 1)
    && (j in s.db.jobs && s.db.jobs[j].status.Dead? ==> Streamings(s, j) == 0)
    && (Unrendered(s.mem, j) ==> Streamings(s, j) == 0)
  }

  /** From where a task marks each verdict. */
  predicate Verdicts(ph: Phase, e: Effect) {
    && (e.mark.Some? && (e.mark.value.status.Done? || e.mark.value.status.Uncertain?) ==>
          ph.Sending? && (ph.streamed || e.streams))
    && (e.mark.Some? && e.mark.value.status.Dead? ==>
          !e.streams && (ph.Unrenderable? || (Owning(ph) && !(ph.Sending? && ph.streamed))))
    && (e.next.Some? && e.next.value.Unrenderable? ==> !e.streams && ph.Routed?)
    && (e.streams ==> ph.Sending? && !ph.streamed)
  }

  lemma EffectVerdicts(cfg: Config, s: World, step: Step)
    requires TaskStep(step) && step.t in s.mem.tasks && PhaseAllows(s.mem, step) && Honest(s.mem, step)
    ensures Verdicts(s.mem.tasks[step.t].phase, TaskEffect(cfg, s, step))
  {
  }

  lemma OtherTask(s: World, t: TaskId, e: Effect, j: JobId)
    requires t in s.mem.tasks && s.mem.tasks[t].job != j && Registered(s.mem) && VerdictFits(s, j)
    ensures VerdictFits(Perform(s, t, e), j)
  {
    PhaseAfter(s.mem, t, e, j);
    CountAppend(s.history, MayHaveStreamed(s.mem.tasks[t].job), j, Streams);
  }

  lemma OwnTask(s: World, t: TaskId, e: Effect)
    requires t in s.mem.tasks && Registered(s.mem) && RowsMatch(s) && Verdicts(s.mem.tasks[t].phase, e)
    requires var j := s.mem.tasks[t].job; StreamsFit(s, j) && VerdictFits(s, j)
    ensures VerdictFits(Perform(s, t, e), s.mem.tasks[t].job)
  {
    var j, ph := s.mem.tasks[t].job, s.mem.tasks[t].phase;
    PhaseAfter(s.mem, t, e, j);
    CountAppend(s.history, MayHaveStreamed(j), j, Streams);
    assert PhaseOf(s.mem, j) == Some(ph);
    if Owning(ph) {
      OwnedIsBusy(s, j);
    }
  }

  lemma TakenVerdicts(s: World, t: TaskId, j: JobId)
    requires s.mem.batch != [] && t !in s.mem.tasks && Registered(s.mem) && VerdictFits(s, j)
    ensures VerdictFits(Taken(s, t), j)
  {
    if Wins(s) {
      CountAppend(s.history, Claimed(s.mem.batch[0], s.mem.batchAt), j, Streams);
      assert PhaseOf(Taken(s, t).mem, j) == if j == s.mem.batch[0] then Some(Waiting) else PhaseOf(s.mem, j);
    } else {
      assert PhaseOf(Taken(s, t).mem, j) == PhaseOf(s.mem, j);
    }
  }

  lemma OutsideVerdictsCarry(s: World, s': World, e: Option<Event>, j: JobId)
    requires VerdictFits(s, j) && OutsideRow(s, s', e, j)
    requires j !in s.issued ==> Streamings(s, j) == 0
    requires Streamings(s', j) == if e.Some? && IsRequeue(e.value, j) then 0 else Streamings(s, j)
    ensures VerdictFits(s', j)
  {
  }

  lemma OutsideVerdicts(cfg: Config, s: World, step: Step, j: JobId)
    requires Enabled(s, step) && OutsideStep(step) && RowsMatch(s) && StreamsFit(s, j) && VerdictFits(s, j)
    ensures VerdictFits(ApplyOutside(cfg, s, step), j)
  {
    var e := OutsideEvent(cfg, s, step);
    OutsideRows(cfg, s, step, j);
    OutsideLogs(cfg, s, step);
    OutsideKind(cfg, s, step);
    OutsideTally(s.history, e, j, Streams);
    OutsideVerdictsCarry(s, ApplyOutside(cfg, s, step), e, j);
  }

  lemma VerdictStep(cfg: Config, s: World, step: Step, j: JobId)
    requires Enabled(s, step) && Honest(s.mem, step) && Registered(s.mem) && RowsMatch(s)
    requires StreamsFit(s, j) && VerdictFits(s, j)
    ensures VerdictFits(Apply(cfg, s, step), j)
  {
    if TaskStep(step) {
      EffectVerdicts(cfg, s, step);
      if s.mem.tasks[step.t].job == j {
        OwnTask(s, step.t, TaskEffect(cfg, s, step));
      } else {
        OtherTask(s, step.t, TaskEffect(cfg, s, step), j);
      }
    } else if step.Take? {
      TakenVerdicts(s, step.t, j);
    } else if OutsideStep(step) {
      OutsideVerdicts(cfg, s, step, j);
    }
  }

  lemma {:induction false} VerdictRun(cfg: Config, printers: Printers, steps: seq<Step>, j: JobId)
    requires IsRun(cfg, Init(printers), steps) && HonestRun(cfg, Init(printers), steps)
    ensures VerdictFits(After(cfg, Init(printers), steps), j)
    decreases |steps|
  {
    if steps != [] {
      var init := steps[..|steps| - 1];
      VerdictRun(cfg, printers, init, j);
      SoundRun(cfg, printers, init);
      StreamsRun(cfg, printers, init, j);
      VerdictStep(cfg, After(cfg, Init(printers), init), steps[|steps| - 1], j);
    }
  }

  /** A done or uncertain job, however it came to be so, has had exactly one send since its submission or
      last requeue that may have put bytes on the wire; for a dead or queued one no send may have, so
      requeueing it cannot print twice. */
  lemma StatusTellsDelivery(cfg: Config, printers: Printers, steps: seq<Step>, j: JobId)
    requires IsRun(cfg, Init(printers), steps) && HonestRun(cfg, Init(printers), steps)
    requires j in After(cfg, Init(printers), steps).db.jobs
    ensures var s := After(cfg, Init(printers), steps);
            var status := s.db.jobs[j].status;
            && (status.Done? || status.Uncertain? ==> CountSince(s.history, j, Streams) == 1)
            && (status.Dead? || status.Queued? ==> CountSince(s.history, j, Streams) == 0)
  {
    VerdictRun(cfg, printers, steps, j);
    StreamsRun(cfg, printers, steps, j);
  }
}
