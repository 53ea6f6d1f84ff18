/** The worker never gets stuck: as long as a task is alive some task can move, and tasks left to themselves
    all come to an end. */
module WorkerProgress {
  import opened Basics
  import opened JobTable
  import opened Pools
  import opened WorkerModel
  import opened WorkerSafety
  import opened WorkerDelivery
  import opened WorkerTermination

  /** A step a task can take from its phase, if nothing holds it up. */
  function NextStep(t: TaskId, ph: Phase): Step {
    match ph
    case Waiting => Admit(t)
    case Admitted => Load(t)
    case Routing(_, candidates) => Route(t, seq(|candidates|, _ => false), 0.0)
    case Routed(_, _) => Render(t, RenderOk)
    case LockWait(_, _) => Lock(t)
    case Sending(_, _, _) => Return(t, Delivered(false), 0.0)
    case Unrenderable(_) => Bury(t)
    case Wrapping(note) => Wrap(t, note.Some?, None)
    case Crashed(_) => Fail(t)
    case Finishing => Finish(t)
  }

  /** A task waits only for the semaphore, or for a lock that another task holds. */
  lemma MovesUnlessHeld(m: Memory, t: TaskId)
    requires t in m.tasks
    ensures var ph, step := m.tasks[t].phase, NextStep(t, m.tasks[t].phase);
            && TaskStep(step) && step.t == t
            && (PhaseAllows(m, step) <==>
                  && (ph.Waiting? ==> m.permits > 0)
                  && (ph.LockWait? && Serialized(ph.target.kind) ==> ph.target.id !in m.locks))
  {
  }

  /** Progress: with no batch pending, some live task can take a step. */
  lemma SomeTaskMoves(s: World) returns (step: Step)
    requires Exclusion(s.mem) && s.mem.batch == [] && s.mem.tasks != map[]
    ensures TaskStep(step) && Enabled(s, step)
  {
    var m := s.mem;
    if t :| t in m.tasks && !m.tasks[t].phase.Waiting? {
      var ph := m.tasks[t].phase;
      MovesUnlessHeld(m, t);
      step := NextStep(t, ph);
      if ph.LockWait? && Serialized(ph.target.kind) && ph.target.id in m.locks {
        var holder := m.locks[ph.target.id];
        assert SendsOn(m, holder, ph.target.id);
        MovesUnlessHeld(m, holder);
        step := NextStep(holder, m.tasks[holder].phase);
      }
    } else {
      assert Inside(m.tasks) == {};
      assert m.tasks.Keys != {};
      var t :| t in m.tasks;
      MovesUnlessHeld(m, t);
      step := NextStep(t, m.tasks[t].phase);
    }
  }

  // ---------------------------------------------------------------- draining

  /** Steps all live tasks together can still take. */
  ghost function Remaining(tasks: map<TaskId, Task>): nat
    decreases |tasks|
  {
    if tasks == map[] then 0
    else
      assert tasks.Keys != {};
      var t :| t in tasks;
      assert |(tasks - {t}).Keys| < |tasks.Keys|;
      PhaseRank(tasks[t].phase) + Remaining(tasks - {t})
  }

  lemma {:induction false} RemainingSplit(tasks: map<TaskId, Task>, t: TaskId)
    requires t in tasks
    ensures Remaining(tasks) == PhaseRank(tasks[t].phase) + Remaining(tasks - {t})
    decreases |tasks|
  {
    assert tasks.Keys != {};
    var u :| u in tasks && Remaining(tasks) == PhaseRank(tasks[u].phase) + Remaining(tasks - {u});
    if u != t {
      assert (tasks - {u}) - {t} == (tasks - {t}) - {u};
      assert (tasks - {u}).Keys == tasks.Keys - {u} && (tasks - {t}).Keys == tasks.Keys - {t};
      RemainingSplit(tasks - {u}, t);
      RemainingSplit(tasks - {t}, u);
    }
  }

  lemma StepLowers(m: Memory, t: TaskId, e: Effect)
    requires t in m.tasks && TaskRank(e.next) < PhaseRank(m.tasks[t].phase)
    ensures Remaining(PerformInMemory(m, t, e).tasks) < Remaining(m.tasks)
  {
    var tasks := PerformInMemory(m, t, e).tasks;
    RemainingSplit(m.tasks, t);
    if e.next.Some? {
      RemainingSplit(tasks, t);
      assert tasks - {t} == m.tasks - {t};
    }
  }

  predicate TaskSteps(steps: seq<Step>) {
    forall i :: 0 <= i < |steps| ==> TaskStep(steps[i])
  }

  /** Tasks left to themselves never run for more than their remaining steps, and as long as one is alive
      some step is possible: so every such run can be continued until no task is left, and then ends. */
  lemma {:induction false} TasksDrain(cfg: Config, s: World, steps: seq<Step>)
    requires Exclusion(s.mem) && s.mem.batch == [] && IsRun(cfg, s, steps) && TaskSteps(steps)
    ensures var s' := After(cfg, s, steps);
            && Exclusion(s'.mem) && s'.mem.batch == []
            && |steps| + Remaining(s'.mem.tasks) <= Remaining(s.mem.tasks)
            && (s'.mem.tasks == map[] <==> !exists step :: TaskStep(step) && Enabled(s', step))
    decreases |steps|
  {
    if steps != [] {
      var init, last := steps[..|steps| - 1], steps[|steps| - 1];
      TasksDrain(cfg, s, init);
      DrainStep(cfg, After(cfg, s, init), last);
    }
    NoneLeftExactly(After(cfg, s, steps));
  }

  lemma DrainStep(cfg: Config, s: World, step: Step)
    requires Exclusion(s.mem) && s.mem.batch == [] && TaskStep(step) && Enabled(s, step)
    ensures var s' := Apply(cfg, s, step);
            Exclusion(s'.mem) && s'.mem.batch == [] && Remaining(s'.mem.tasks) < Remaining(s.mem.tasks)
  {
    ExclusionStep(cfg, s, step);
    EffectLowers(cfg, s, step);
    StepLowers(s.mem, step.t, TaskEffect(cfg, s, step));
  }

  lemma NoneLeftExactly(s: World)
    requires Exclusion(s.mem) && s.mem.batch == []
    ensures s.mem.tasks == map[] <==> !exists step :: TaskStep(step) && Enabled(s, step)
  {
    if s.mem.tasks != map[] {
      var step := SomeTaskMoves(s);
    }
  }

  /** In particular in every state a run reaches with no batch pending. */
  lemma RunsProgress(cfg: Config, printers: Printers, steps: seq<Step>) returns (step: Step)
    requires IsRun(cfg, Init(printers), steps)
    requires var m := After(cfg, Init(printers), steps).mem; m.batch == [] && m.tasks != map[]
    ensures TaskStep(step) && Enabled(After(cfg, Init(printers), steps), step)
  {
    MutualExclusion(cfg, printers, steps);
    step := SomeTaskMoves(After(cfg, Init(printers), steps));
  }
}
