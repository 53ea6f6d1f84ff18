/** Mutual exclusion over every run of the worker: one task per job, at most eight tasks past the
    semaphore, and one task at a time in the send section of each serialized printer. */
module WorkerSafety {
  import opened Basics
  import opened JobTable
  import opened Pools
  import opened WorkerModel

  /** Every live task is its job's entry in the in-flight table, and every entry is a live task. */
  ghost predicate Registered(m: Memory) {
    && (forall t :: t in m.tasks ==> m.tasks[t].job in m.inflight && m.inflight[m.tasks[t].job] == t)
    && (forall j :: j in m.inflight ==> m.inflight[j] in m.tasks && m.tasks[m.inflight[j]].job == j)
  }

  ghost predicate SendsOn(m: Memory, t: TaskId, p: PrinterId) {
    && t in m.tasks
    && m.tasks[t].phase.Sending?
    && m.tasks[t].phase.target.id == p
    && Serialized(m.tasks[t].phase.target.kind)
  }

  /** A printer's lock is held by exactly the task sending on it. */
  ghost predicate LocksMatch(m: Memory) {
    && (forall p :: p in m.locks ==> SendsOn(m, m.locks[p], p))
    && (forall t, p :: SendsOn(m, t, p) ==> p in m.locks && m.locks[p] == t)
  }

  /** Tasks past the semaphore, where all of `_process` happens. */
  function Inside(tasks: map<TaskId, Task>): set<TaskId> {
    set t | t in tasks && !tasks[t].phase.Waiting?
  }

  predicate PermitsMatch(m: Memory) {
    m.permits >= 0 && m.permits + |Inside(m.tasks)| == PERMITS
  }

  ghost predicate Exclusion(m: Memory) {
    Registered(m) && LocksMatch(m) && PermitsMatch(m)
  }

  lemma InsideUpdate(tasks: map<TaskId, Task>, t: TaskId, task: Task)
    ensures Inside(tasks[t := task]) == if task.phase.Waiting? then Inside(tasks) - {t} else Inside(tasks) + {t}
  {
  }

  lemma InsideRemove(tasks: map<TaskId, Task>, t: TaskId)
    ensures Inside(tasks - {t}) == Inside(tasks) - {t}
  {
  }

  /** How a task's step may move it, and what the move does to the lock and the semaphore. */
  predicate Moves(ph: Phase, e: Effect) {
    && (e.next.None? <==> ph.Finishing?)
    && (e.next.Some? ==> !e.next.value.Waiting?)
    && e.permits == (if ph.Waiting? then -1 else if ph.Finishing? then 1 else 0)
    && e.lock == (
         if e.next.Some? && e.next.value.Sending? && !ph.Sending? then
           if Serialized(e.next.value.target.kind) then Acquire(e.next.value.target.id) else Keep
         else if ph.Sending? && !(e.next.Some? && e.next.value.Sending?) then
           if Serialized(ph.target.kind) then Release(ph.target.id) else Keep
         else Keep)
    && (ph.Sending? && e.next.Some? && e.next.value.Sending? ==> e.next.value.target == ph.target)
  }

  lemma EffectMoves(cfg: Config, s: World, step: Step)
    requires TaskStep(step) && step.t in s.mem.tasks && PhaseAllows(s.mem, step)
    ensures Moves(s.mem.tasks[step.t].phase, TaskEffect(cfg, s, step))
  {
  }

  lemma PerformKeepsRegistered(m: Memory, t: TaskId, e: Effect)
    requires t in m.tasks && Registered(m)
    ensures Registered(PerformInMemory(m, t, e))
  {
  }

  lemma PerformKeepsPermits(m: Memory, t: TaskId, e: Effect)
    requires t in m.tasks && PermitsMatch(m) && Moves(m.tasks[t].phase, e)
    requires m.tasks[t].phase.Waiting? ==> m.permits > 0
    ensures PermitsMatch(PerformInMemory(m, t, e))
  {
    var before, after := Inside(m.tasks), Inside(PerformInMemory(m, t, e).tasks);
    if e.next.None? {
      InsideRemove(m.tasks, t);
      assert t in before && after == before - {t};
    } else {
      InsideUpdate(m.tasks, t, Task(m.tasks[t].job, e.next.value));
      assert after == before + {t};
      if t in before {
        assert after == before;
      } else {
        assert |after| == |before| + 1;
      }
    }
  }

  lemma PerformKeepsLocks(m: Memory, t: TaskId, e: Effect)
    requires t in m.tasks && LocksMatch(m) && Moves(m.tasks[t].phase, e)
    requires e.lock.Acquire? ==> e.lock.p !in m.locks
    ensures LocksMatch(PerformInMemory(m, t, e))
  {
    var m', ph := PerformInMemory(m, t, e), m.tasks[t].phase;
    assert ph.Sending? && Serialized(ph.target.kind) ==> SendsOn(m, t, ph.target.id);
    forall u, p | SendsOn(m', u, p) ensures p in m'.locks && m'.locks[p] == u {
      if u != t || ph.Sending? {
        assert SendsOn(m, u, p);
      }
    }
    forall p | p in m'.locks ensures SendsOn(m', m'.locks[p], p) {
      if p in m.locks && m.locks[p] == t {
        assert SendsOn(m, t, p);
      }
    }
  }

  lemma SpawnKeepsExclusion(m: Memory, t: TaskId)
    requires Exclusion(m) && m.batch != [] && t !in m.tasks && m.batch[0] !in m.inflight
    ensures Exclusion(Spawned(m, t))
  {
    InsideUpdate(m.tasks, t, Task(m.batch[0], Waiting));
    forall u, p ensures SendsOn(Spawned(m, t), u, p) <==> SendsOn(m, u, p) {}
  }

  lemma RereadKeepsExclusion(m: Memory, batch: seq<JobId>, at: Instant)
    requires Exclusion(m)
    ensures Exclusion(m.(batch := batch, batchAt := at))
  {
    forall u, p ensures SendsOn(m.(batch := batch, batchAt := at), u, p) <==> SendsOn(m, u, p) {}
  }

  lemma ExclusionStep(cfg: Config, s: World, step: Step)
    requires Enabled(s, step) && Exclusion(s.mem)
    ensures Exclusion(Apply(cfg, s, step).mem)
  {
    if TaskStep(step) {
      var e := TaskEffect(cfg, s, step);
      EffectMoves(cfg, s, step);
      PerformKeepsRegistered(s.mem, step.t, e);
      PerformKeepsPermits(s.mem, step.t, e);
      PerformKeepsLocks(s.mem, step.t, e);
    } else if step.Take? {
      if Wins(s) {
        SpawnKeepsExclusion(s.mem, step.t);
      } else {
        RereadKeepsExclusion(s.mem, s.mem.batch[1..], s.mem.batchAt);
      }
    } else if step.Poll? {
      RereadKeepsExclusion(s.mem, step.ids, step.now);
    }
  }

  /** Over every run: each job has at most one live task, at most eight tasks are past the
      semaphore, and no two tasks are in the send section of the same serialized printer, however
      their jobs reached it. */
  lemma {:induction false} MutualExclusion(cfg: Config, printers: Printers, steps: seq<Step>)
    requires IsRun(cfg, Init(printers), steps)
    ensures var m := After(cfg, Init(printers), steps).mem;
            && Exclusion(m)
            && (forall t, u :: t in m.tasks && u in m.tasks && m.tasks[t].job == m.tasks[u].job ==> t == u)
            && |Inside(m.tasks)| <= 8
            && (forall t, u, p :: SendsOn(m, t, p) && SendsOn(m, u, p) ==> t == u)
    decreases |steps|
  {
    if steps != [] {
      var init := steps[..|steps| - 1];
      MutualExclusion(cfg, printers, init);
      ExclusionStep(cfg, After(cfg, Init(printers), init), steps[|steps| - 1]);
    }
  }
}
