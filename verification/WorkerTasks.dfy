/** The worker object itself (app/queue.py, class Worker): its tables updated in place, one method per
    uninterrupted stretch of `_run`, `_guarded` and `_process`.  Each method takes exactly its step. */
module WorkerTasks {
  import opened Basics
  import opened JobTable
  import opened Pools
  import opened WorkerModel
  import Store = JobStore
  import Router = PoolRouting

  class Worker {
    const cfg: Config
    const store: Store.JobStore
    const router: Router.PoolRouter
    var printers: Printers
    var batch: seq<JobId>
    var batchAt: Instant
    var inflight: map<JobId, TaskId>
    var tasks: map<TaskId, Task>
    var permits: int
    var locks: map<PrinterId, TaskId>
    ghost var history: seq<Event>
    ghost var issued: set<JobId>

    ghost function View(): World
      reads this, store, router
    {
      World(store.View(), printers, Memory(batch, batchAt, inflight, tasks, permits, locks, router.cursors),
            history, issued)
    }

    /** A new worker over whatever tables there are: `was` is the world an earlier one left, or the
        initial one.  It keeps the database and starts with a blank memory. */
    constructor (cfg: Config, store: Store.JobStore, ghost was: World, printers: Printers)
      requires was.db == store.View() && was.printers == printers
      ensures this.cfg == cfg && this.store == store && fresh(router)
      ensures View() == was.(mem := BLANK)
      ensures View() == Apply(cfg, was, Restart)
    {
      this.cfg, this.store, this.printers := cfg, store, printers;
      batch, batchAt, inflight, tasks, permits, locks := [], 0.0, map[], map[], 8, map[];
      history, issued := was.history, was.issued;
      router := new Router.PoolRouter();
    }

    /** `_run`: read the jobs that are ready. */
    method Poll(now: Instant)
      requires batch == []
      modifies this`batch, this`batchAt
      ensures Enabled(old(View()), WorkerModel.Poll(now, batch))
      ensures View() == Apply(cfg, old(View()), WorkerModel.Poll(now, batch))
    {
      batch := store.Ready(now);
      batchAt := now;
    }

    /** `_run`: the next job of the batch, unless it is in flight already or its claim is lost. */
    method Take(t: TaskId)
      requires Enabled(View(), WorkerModel.Take(t))
      modifies this, store`jobs
      ensures View() == Apply(cfg, old(View()), WorkerModel.Take(t))
    {
      var j := batch[0];
      batch := batch[1..];
      if j in inflight {
        return;
      }
      var won := store.Claim(j);
      if !won {
        return;
      }
      history := history + [Claimed(j, batchAt)];
      tasks := tasks[t := Task(j, Waiting)];
      inflight := inflight[j := t];
    }

    method Go(t: TaskId, ph: Phase)
      requires t in tasks
      modifies this`tasks
      ensures tasks == old(tasks)[t := Task(old(tasks)[t].job, ph)]
    {
      tasks := tasks[t := Task(tasks[t].job, ph)];
    }

    /** `_guarded`: enter the semaphore. */
    method Admit(t: TaskId)
      requires Enabled(View(), WorkerModel.Admit(t))
      modifies this`tasks, this`permits
      ensures View() == Apply(cfg, old(View()), WorkerModel.Admit(t))
    {
      permits := permits - 1;
      Go(t, Admitted);
    }

    /** `_process` up to its first await: read the job and its printer, and start the pool's rotation. */
    method Load(t: TaskId)
      requires Enabled(View(), WorkerModel.Load(t))
      modifies this`tasks, router
      ensures View() == Apply(cfg, old(View()), WorkerModel.Load(t))
    {
      var job := store.Get(tasks[t].job);
      if job.Err? {
        Go(t, Crashed("not_found"));
        return;
      }
      if job.value.printer !in printers {
        Go(t, Crashed("unknown_printer"));
        return;
      }
      var p := printers[job.value.printer];
      if !p.kind.Pool? {
        Go(t, Routed(job.value.attempts, p));
        return;
      }
      var members := Router.ExistingMembers(printers, p.kind.members);
      if members.Err? {
        Go(t, Crashed("validation_error"));
        return;
      }
      var order := router.Rotate(p.id, members.value, p.kind.roundRobin);
      Go(t, Routing(job.value.attempts, order));
    }

    /** `_retry_or_dead`. */
    method RetryOrDead(t: TaskId, attempts: nat, err: string, now: Instant)
      requires t in tasks
      modifies this`tasks, store`jobs
      ensures var e := WorkerModel.RetryOrDead(cfg, attempts, err, now);
              && e.mark.Some? && e.next.Some?
              && store.jobs == JobTable.Mark(old(store.jobs), old(tasks)[t].job, e.mark.value)
              && tasks == old(tasks)[t := Task(old(tasks)[t].job, e.next.value)]
    {
      var n := attempts + 1;
      if n >= cfg.maxAttempts {
        store.Mark(tasks[t].job, Fields(Dead, attempts := Some(n), lastError := Some(Some(err))));
        Go(t, Wrapping(None));
        return;
      }
      var next := now + Delay(cfg, n);
      store.Mark(tasks[t].job, Fields(Queued, attempts := Some(n), nextAttemptAt := Some(Some(next)),
                                      lastError := Some(Some(err))));
      Go(t, Finishing);
    }

    /** `_process`: the pool's members have been probed. */
    method Route(t: TaskId, up: seq<bool>, now: Instant)
      requires Enabled(View(), WorkerModel.Route(t, up, now))
      modifies this`tasks, store`jobs
      ensures View() == Apply(cfg, old(View()), WorkerModel.Route(t, up, now))
    {
      var ph := tasks[t].phase;
      var k := Router.FirstReachable(up);
      if k.None? {
        RetryOrDead(t, ph.attempts, if up == [] then "pool has no members" else "no pool member is reachable", now);
      } else {
        Go(t, Routed(ph.attempts, ph.candidates[k.value]));
      }
    }

    /** `_process`: rendering is terminal when the document is refused. */
    method Render(t: TaskId, result: Rendered)
      requires Enabled(View(), WorkerModel.Render(t, result))
      modifies this`tasks, store`jobs
      ensures View() == Apply(cfg, old(View()), WorkerModel.Render(t, result))
    {
      var ph := tasks[t].phase;
      if result.RenderRefused? {
        store.Mark(tasks[t].job, Fields(Failed, lastError := Some(Some(result.err))));
        Go(t, Unrenderable(result.err));
        return;
      }
      store.Mark(tasks[t].job, Fields(Printing));
      Go(t, LockWait(ph.attempts, ph.target));
    }

    /** `_process`: enter the send section, through the printer's lock if it owns one byte stream. */
    method Lock(t: TaskId)
      requires Enabled(View(), WorkerModel.Lock(t))
      modifies this`tasks, this`locks
      ensures View() == Apply(cfg, old(View()), WorkerModel.Lock(t))
    {
      var ph := tasks[t].phase;
      if Serialized(ph.target.kind) {
        locks := locks[ph.target.id := t];
      }
      Go(t, Sending(ph.attempts, ph.target, false));
    }

    /** `_process`: the send came back, one way or another; the lock is released first. */
    method Return(t: TaskId, outcome: Outcome, now: Instant)
      requires Enabled(View(), WorkerModel.Return(t, outcome, now))
      modifies this, store`jobs
      ensures View() == Apply(cfg, old(View()), WorkerModel.Return(t, outcome, now))
    {
      ghost var was := View();
      var ph, j := tasks[t].phase, tasks[t].job;
      Unlock(ph.target);
      history := if !ph.streamed && !SafeToRetry(outcome) then history + [MayHaveStreamed(j)] else history;
      Settle(t, outcome, now);
      ReturnIs(was, t, outcome, now);
    }

    /** Leaving the lock's block. */
    method Unlock(p: Printer)
      modifies this`locks
      ensures locks == if Serialized(p.kind) then old(locks) - {p.id} else old(locks)
    {
      if Serialized(p.kind) {
        locks := locks - {p.id};
      }
    }

    /** What the step amounts to, table by table. */
    lemma ReturnIs(s: World, t: TaskId, outcome: Outcome, now: Instant)
      requires Enabled(s, WorkerModel.Return(t, outcome, now))
      ensures var ph, j := s.mem.tasks[t].phase, s.mem.tasks[t].job;
              var e := Settled(cfg, ph.attempts, ph.target.id, outcome, now);
              && e.next.Some?
              && Apply(cfg, s, WorkerModel.Return(t, outcome, now))
                 == s.(db := if e.mark.Some? then s.db.(jobs := JobTable.Mark(s.db.jobs, j, e.mark.value)) else s.db,
                    mem := s.mem.(tasks := s.mem.tasks[t := Task(j, e.next.value)],
                                  locks := if Serialized(ph.target.kind) then s.mem.locks - {ph.target.id}
                                           else s.mem.locks),
                    history := if !ph.streamed && !SafeToRetry(outcome) then s.history + [MayHaveStreamed(j)]
                               else s.history)
    {
    }

    /** The mark that an outcome calls for, and where the task goes on. */
    method Settle(t: TaskId, outcome: Outcome, now: Instant)
      requires t in tasks && tasks[t].phase.Sending?
      modifies this`tasks, store`jobs
      ensures var ph := old(tasks)[t].phase;
              var e := Settled(cfg, ph.attempts, ph.target.id, outcome, now);
              && e.next.Some?
              && store.jobs == (if e.mark.Some? then JobTable.Mark(old(store.jobs), old(tasks)[t].job, e.mark.value)
                                else old(store.jobs))
              && tasks == old(tasks)[t := Task(old(tasks)[t].job, e.next.value)]
    {
      var ph, j := tasks[t].phase, tasks[t].job;
      match outcome {
        case Delivered(completed) =>
          var delivery := if completed then Completed else Sent;
          store.Mark(j, Fields(Done, delivery := Some(Some(delivery))));
          Go(t, Wrapping(Some(Note(ph.target.id, Some(delivery)))));
        case MidSend(err) =>
          store.Mark(j, Fields(Uncertain, lastError := Some(Some(err))));
          Go(t, Wrapping(Some(Note(ph.target.id, None))));
        case TimedOut =>
          store.Mark(j, Fields(Uncertain, lastError := Some(Some("send timed out"))));
          Go(t, Wrapping(Some(Note(ph.target.id, None))));
        case Unreachable(err) =>
          RetryOrDead(t, ph.attempts, err, now);
        case BackendFailed(err) =>
          RetryOrDead(t, ph.attempts, err, now);
        case Threw(err) =>
          Go(t, Crashed(err));
      }
    }

    /** `_process`: the second mark of a render error. */
    method Bury(t: TaskId)
      requires Enabled(View(), WorkerModel.Bury(t))
      modifies this`tasks, store`jobs
      ensures View() == Apply(cfg, old(View()), WorkerModel.Bury(t))
    {
      store.Mark(tasks[t].job, Fields(Dead, lastError := Some(Some(tasks[t].phase.err))));
      Go(t, Wrapping(None));
    }

    /** `_guarded`: whatever was thrown, the job is marked failed. */
    method Fail(t: TaskId)
      requires Enabled(View(), WorkerModel.Fail(t))
      modifies this`tasks, store`jobs
      ensures View() == Apply(cfg, old(View()), WorkerModel.Fail(t))
    {
      store.Mark(tasks[t].job, Fields(Failed, lastError := Some(Some(tasks[t].phase.err))));
      Go(t, Finishing);
    }

    /** `_guarded`: leave the in-flight table and the semaphore. */
    method Finish(t: TaskId)
      requires Enabled(View(), WorkerModel.Finish(t))
      modifies this`tasks, this`inflight, this`permits
      ensures View() == Apply(cfg, old(View()), WorkerModel.Finish(t))
    {
      inflight := inflight - {tasks[t].job};
      tasks := tasks - {t};
      permits := permits + 1;
    }

    /** `_sweep`: the two retention cuts are taken from two readings of the clock. */
    method Sweep(jobsNow: Instant, keysNow: Instant)
      requires jobsNow <= keysNow
      modifies this`history, store
      ensures View() == Apply(cfg, old(View()), WorkerModel.Sweep(jobsNow, keysNow))
    {
      ghost var before := store.keys;
      store.Prune(jobsNow - cfg.jobWindow, keysNow - cfg.keyWindow);
      history := history + [Swept(before.Keys - store.keys.Keys)];
    }

    /** An operator puts a job back in the queue. */
    method Requeue(j: JobId) returns (r: Result<Job>)
      modifies this`history, store`jobs
      ensures View() == Apply(cfg, old(View()), WorkerModel.Requeue(j))
      ensures r.Err? ==> View() == old(View())
    {
      r := store.Requeue(j);
      if r.Ok? {
        history := history + [Requeued(j, r.value.printer)];
      }
    }
  }
}
