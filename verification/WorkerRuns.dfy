/** Runs that show the worker's edges are real: a final status turned into failed after the fact, a job
    streamed twice when a backend breaks its contract, and the queue caps exceeded. */
module WorkerRuns {
  import opened Basics
  import opened JobTable
  import opened Pools
  import opened WorkerModel
  import opened WorkerSafety
  import opened WorkerDelivery
  import opened WorkerLoad
  import Api = PrintApi

  // ---------------------------------------------------------------- one job, one task

  /** The only job is j, and its task t, the only one, is in phase ph. */
  ghost predicate Alone(s: World, printers: Printers, j: JobId, t: TaskId, ph: Phase, row: Job, h: seq<Event>) {
    && s.db.jobs == map[j := row] && s.printers == printers && s.history == h
    && s.mem.batch == [] && s.mem.inflight == map[j := t] && s.mem.tasks == map[t := Task(j, ph)]
    && s.mem.permits == (if ph.Waiting? then PERMITS else PERMITS - 1)
    && s.mem.locks == (if ph.Sending? && Serialized(ph.target.kind) then map[ph.target.id := t] else map[])
  }

  /** The only job is j, and no task works. */
  ghost predicate Idle(s: World, printers: Printers, j: JobId, row: Job, h: seq<Event>) {
    && s.db.jobs == map[j := row] && s.printers == printers && s.history == h
    && s.mem.batch == [] && s.mem.inflight == map[] && s.mem.tasks == map[]
    && s.mem.permits == PERMITS && s.mem.locks == map[]
  }

  function MarkedBy(row: Job, e: Effect): Job {
    if e.mark.Some? then Marked(row, e.mark.value) else row
  }

  function LoggedBy(h: seq<Event>, j: JobId, e: Effect): seq<Event> {
    if e.streams then h + [MayHaveStreamed(j)] else h
  }

  lemma AloneMoves(s: World, printers: Printers, j: JobId, t: TaskId, ph: Phase, row: Job, h: seq<Event>, e: Effect)
    requires Alone(s, printers, j, t, ph, row, h) && Moves(ph, e)
    ensures e.next.Some? ==> Alone(Perform(s, t, e), printers, j, t, e.next.value, MarkedBy(row, e), LoggedBy(h, j, e))
    ensures e.next.None? && e.mark.None? && !e.streams ==> Idle(Perform(s, t, e), printers, j, row, h)
  {
  }

  /** One step of the task, from wherever it is. */
  lemma AloneStep(cfg: Config, s: World, printers: Printers, j: JobId, t: TaskId, ph: Phase, row: Job, h: seq<Event>,
                  step: Step)
    requires Alone(s, printers, j, t, ph, row, h) && TaskStep(step) && step.t == t && PhaseAllows(s.mem, step)
    ensures Enabled(s, step)
    ensures var e, s' := TaskEffect(cfg, s, step), Apply(cfg, s, step);
            && (e.next.Some? ==> Alone(s', printers, j, t, e.next.value, MarkedBy(row, e), LoggedBy(h, j, e)))
            && (step.Finish? ==> Idle(s', printers, j, row, h))
  {
    EffectMoves(cfg, s, step);
    AloneMoves(s, printers, j, t, ph, row, h, TaskEffect(cfg, s, step));
  }

  // ---------------------------------------------------------------- pieces of runs

  /** A run from the start so far, the world it has reached, and what that world looks like. */
  datatype Stage = Stage(steps: seq<Step>, ph: Phase, row: Job, h: seq<Event>)

  ghost predicate Reached(cfg: Config, printers: Printers, j: JobId, t: TaskId, g: Stage) {
    && IsRun(cfg, Init(printers), g.steps)
    && Alone(After(cfg, Init(printers), g.steps), printers, j, t, g.ph, g.row, g.h)
  }

  lemma Go(cfg: Config, printers: Printers, j: JobId, t: TaskId, g: Stage, step: Step, e: Effect) returns (g': Stage)
    requires Reached(cfg, printers, j, t, g) && TaskStep(step) && step.t == t && e.next.Some?
    requires var s := After(cfg, Init(printers), g.steps);
             PhaseAllows(s.mem, step) && TaskEffect(cfg, s, step) == e
    ensures g' == Stage(g.steps + [step], e.next.value, MarkedBy(g.row, e), LoggedBy(g.h, j, e))
    ensures Reached(cfg, printers, j, t, g')
  {
    var s := After(cfg, Init(printers), g.steps);
    AloneStep(cfg, s, printers, j, t, g.ph, g.row, g.h, step);
    Extend(cfg, Init(printers), g.steps, step);
    g' := Stage(g.steps + [step], e.next.value, MarkedBy(g.row, e), LoggedBy(g.h, j, e));
  }

  ghost predicate Printable(printers: Printers, p: PrinterId) {
    p in printers && !printers[p].kind.Pool?
  }

  lemma Polled(cfg: Config, s: World, printers: Printers, j: JobId, row: Job, h: seq<Event>, now: Instant)
    requires Idle(s, printers, j, row, h) && row.status.Queued? && Due(row, now)
    ensures Enabled(s, Poll(now, [j]))
    ensures Apply(cfg, s, Poll(now, [j])) == s.(mem := s.mem.(batch := [j], batchAt := now))
  {
    assert ReadyIds(s.db.jobs, now) == {j};
    assert IsReadyBatch(s.db.jobs, now, [j]);
  }

  lemma PolledTaken(s: World, printers: Printers, j: JobId, t: TaskId, row: Job, h: seq<Event>, now: Instant)
    requires Idle(s, printers, j, row, h) && row.status.Queued?
    ensures var s' := s.(mem := s.mem.(batch := [j], batchAt := now));
            Alone(Taken(s', t), printers, j, t, Waiting, row.(status := Rendering), h + [Claimed(j, now)])
  {
  }

  /** The only job is picked up: poll and claim. */
  lemma PickUp(cfg: Config, printers: Printers, j: JobId, t: TaskId, steps: seq<Step>, row: Job, h: seq<Event>,
               now: Instant)
    returns (g: Stage)
    requires IsRun(cfg, Init(printers), steps) && Idle(After(cfg, Init(printers), steps), printers, j, row, h)
    requires row.status.Queued? && Due(row, now)
    ensures g == Stage(steps + [Poll(now, [j])] + [Take(t)], Waiting, row.(status := Rendering), h + [Claimed(j, now)])
    ensures Reached(cfg, printers, j, t, g)
  {
    var s := After(cfg, Init(printers), steps);
    Polled(cfg, s, printers, j, row, h, now);
    Extend(cfg, Init(printers), steps, Poll(now, [j]));
    PolledTaken(s, printers, j, t, row, h, now);
    Extend(cfg, Init(printers), steps + [Poll(now, [j])], Take(t));
    g := Stage(steps + [Poll(now, [j])] + [Take(t)], Waiting, row.(status := Rendering), h + [Claimed(j, now)]);
  }

  /** It is admitted, and its printer found. */
  lemma ToRouted(cfg: Config, printers: Printers, j: JobId, t: TaskId, g: Stage) returns (g': Stage)
    requires Reached(cfg, printers, j, t, g) && g.ph.Waiting? && Printable(printers, g.row.printer)
    ensures g' == Stage(g.steps + [Admit(t)] + [Load(t)], Routed(g.row.attempts, printers[g.row.printer]), g.row, g.h)
    ensures Reached(cfg, printers, j, t, g')
  {
    var g1 := Go(cfg, printers, j, t, g, Admit(t), GoTo(Admitted).(permits := -1));
    g' := Go(cfg, printers, j, t, g1, Load(t), GoTo(Routed(g.row.attempts, printers[g.row.printer])));
  }

  /** It is rendered and reaches the send. */
  lemma ToSending(cfg: Config, printers: Printers, j: JobId, t: TaskId, g: Stage) returns (g': Stage)
    requires Reached(cfg, printers, j, t, g) && g.ph.Routed?
    ensures g'.steps == g.steps + [Render(t, RenderOk)] + [Lock(t)] && g'.h == g.h
    ensures g'.ph == Sending(g.ph.attempts, g.ph.target, false) && g'.row == g.row.(status := Printing)
    ensures Reached(cfg, printers, j, t, g')
  {
    var ph := g.ph;
    var g1 := Go(cfg, printers, j, t, g, Render(t, RenderOk),
                 Effect(Some(LockWait(ph.attempts, ph.target)), Some(Fields(Printing))));
    g' := Go(cfg, printers, j, t, g1, Lock(t),
             GoTo(Sending(ph.attempts, ph.target, false))
               .(lock := if Serialized(ph.target.kind) then Acquire(ph.target.id) else Keep));
  }

  /** The send comes back in a way that settles the job: no retry, no exception. */
  lemma ToSettled(cfg: Config, printers: Printers, j: JobId, t: TaskId, g: Stage, outcome: Outcome) returns (g': Stage)
    requires Reached(cfg, printers, j, t, g) && g.ph.Sending? && !g.ph.streamed
    requires outcome.Delivered? || outcome.TimedOut?
    ensures g'.ph.Wrapping? && g'.h == g.h + [MayHaveStreamed(j)]
    ensures g'.row.status == if outcome.Delivered? then Done else Uncertain
    ensures Reached(cfg, printers, j, t, g')
  {
    var e := Settled(cfg, g.ph.attempts, g.ph.target.id, outcome, 0.0)
               .(streams := true, lock := if Serialized(g.ph.target.kind) then Release(g.ph.target.id) else Keep);
    g' := Go(cfg, printers, j, t, g, Return(t, outcome, 0.0), e);
  }

  /** The document is refused instead, and both marks made. */
  lemma ToBuried(cfg: Config, printers: Printers, j: JobId, t: TaskId, g: Stage, err: string) returns (g': Stage)
    requires Reached(cfg, printers, j, t, g) && g.ph.Routed?
    ensures g'.ph == Wrapping(None) && g'.row.status.Dead?
    ensures Reached(cfg, printers, j, t, g')
  {
    var g1 := Go(cfg, printers, j, t, g, Render(t, RenderRefused(err)),
                 Effect(Some(Unrenderable(err)), Some(Fields(Failed, lastError := Some(Some(err))))));
    g' := Go(cfg, printers, j, t, g1, Bury(t),
             Effect(Some(Wrapping(None)), Some(Fields(Dead, lastError := Some(Some(err))))));
  }

  lemma ToCrashed(cfg: Config, printers: Printers, j: JobId, t: TaskId, g: Stage, err: string) returns (g': Stage)
    requires Reached(cfg, printers, j, t, g) && g.ph.Wrapping?
    ensures g'.ph == Crashed(err) && g'.row == g.row
    ensures Reached(cfg, printers, j, t, g')
  {
    g' := Go(cfg, printers, j, t, g, Wrap(t, false, Some(err)), GoTo(Crashed(err)));
  }

  /** An operator requeues the job, and perhaps cancels it, while its task is still alive. */
  lemma OperatorRequeues(cfg: Config, printers: Printers, j: JobId, t: TaskId, g: Stage) returns (g': Stage)
    requires Reached(cfg, printers, j, t, g) && Requeueable(g.row.status)
    ensures g'.ph == g.ph && g'.row.status.Queued? && Reached(cfg, printers, j, t, g')
  {
    Extend(cfg, Init(printers), g.steps, Requeue(j));
    var s := After(cfg, Init(printers), g.steps + [Requeue(j)]);
    g' := Stage(g.steps + [Requeue(j)], g.ph, s.db.jobs[j], s.history);
  }

  lemma OperatorCancels(cfg: Config, printers: Printers, j: JobId, t: TaskId, g: Stage) returns (g': Stage)
    requires Reached(cfg, printers, j, t, g) && g.row.status.Queued?
    ensures g'.ph == g.ph && g'.row.status.Canceled? && Reached(cfg, printers, j, t, g')
  {
    Extend(cfg, Init(printers), g.steps, Cancel(j));
    var s := After(cfg, Init(printers), g.steps + [Cancel(j)]);
    g' := Stage(g.steps + [Cancel(j)], g.ph, s.db.jobs[j], s.history);
  }

  predicate HasRoom(cfg: Config) {
    cfg.limits.globalMax > 0 && cfg.limits.perPrinterMax > 0
  }

  /** A raw print, which is subject to no quota. */
  function RawPrint(p: PrinterId): Api.Request {
    Api.Request(p, "{}", None, false, None, false, 0, None)
  }

  function DrawOf(id: JobId): Api.Draw {
    Api.Draw(id, 0.0, 0.0, 0.0)
  }

  function RawJob(p: PrinterId): Job {
    FreshJob(p, "{}", None, 0, None, 0.0)
  }

  lemma SubmitOne(cfg: Config, printers: Printers, p: PrinterId, j: JobId) returns (steps: seq<Step>, h: seq<Event>)
    requires HasRoom(cfg)
    ensures IsRun(cfg, Init(printers), steps)
    ensures Idle(After(cfg, Init(printers), steps), printers, j, RawJob(p), h)
    ensures |h| == 1 && h[0].Submitted?
  {
    assert Depth(map[]) == 0 && PrinterDepth(map[], p) == 0;
    Extend(cfg, Init(printers), [], Submit(RawPrint(p), DrawOf(j)));
    steps := [] + [Submit(RawPrint(p), DrawOf(j))];
    h := After(cfg, Init(printers), steps).history;
  }

  lemma ToFirstRouted(cfg: Config, printers: Printers, p: PrinterId, j: JobId, t: TaskId) returns (g: Stage)
    requires HasRoom(cfg) && Printable(printers, p)
    ensures g.ph.Routed? && Reached(cfg, printers, j, t, g)
    ensures g.ph.attempts == 0 && g.row == RawJob(p).(status := Rendering)
    ensures |g.h| == 2 && g.h[0].Submitted? && g.h[1] == Claimed(j, 0.0)
  {
    var steps, h := SubmitOne(cfg, printers, p, j);
    g := PickUp(cfg, printers, j, t, steps, RawJob(p), h, 0.0);
    g := ToRouted(cfg, printers, j, t, g);
  }

  /** A run to each final or operator-set status while the job's task has yet to finish. */
  lemma ToStatus(cfg: Config, printers: Printers, p: PrinterId, j: JobId, t: TaskId, status: Status) returns (g: Stage)
    requires HasRoom(cfg) && Printable(printers, p)
    requires status.Done? || status.Uncertain? || status.Dead? || status.Queued? || status.Canceled?
    ensures g.ph.Wrapping? && g.row.status == status && Reached(cfg, printers, j, t, g)
  {
    g := ToFirstRouted(cfg, printers, p, j, t);
    if status.Dead? {
      g := ToBuried(cfg, printers, j, t, g, "refused");
    } else {
      g := ToSending(cfg, printers, j, t, g);
      g := ToSettled(cfg, printers, j, t, g, if status.Done? then Delivered(true) else TimedOut);
      if !status.Done? && !status.Uncertain? {
        g := OperatorRequeues(cfg, printers, j, t, g);
        if status.Canceled? {
          g := OperatorCancels(cfg, printers, j, t, g);
        }
      }
    }
  }

  /** The guard's late mark is real: whatever the limits, a job that is done, uncertain or dead, or that an
      operator has just put back in the queue or canceled, can still be turned into failed by its task. */
  lemma LateFailure(cfg: Config, printers: Printers, p: PrinterId, j: JobId, t: TaskId, status: Status, err: string)
    returns (steps: seq<Step>)
    requires HasRoom(cfg) && Printable(printers, p)
    requires status.Done? || status.Uncertain? || status.Dead? || status.Queued? || status.Canceled?
    ensures IsRun(cfg, Init(printers), steps) && Enabled(After(cfg, Init(printers), steps), Fail(t))
    ensures var s := After(cfg, Init(printers), steps);
            var s' := Apply(cfg, s, Fail(t));
            && t in s.mem.tasks && s.mem.tasks[t].job == j
            && j in s.db.jobs && s.db.jobs[j].status == status
            && j in s'.db.jobs && s'.db.jobs[j].status == Failed && s'.db.jobs[j].lastError == Some(err)
  {
    var g := ToStatus(cfg, printers, p, j, t, status);
    g := ToCrashed(cfg, printers, j, t, g, err);
    steps := g.steps;
    AloneStep(cfg, After(cfg, Init(printers), steps), printers, j, t, g.ph, g.row, g.h, Fail(t));
  }

  // ---------------------------------------------------------------- a broken contract

  lemma ToStreaming(cfg: Config, printers: Printers, j: JobId, t: TaskId, g: Stage) returns (g': Stage)
    requires Reached(cfg, printers, j, t, g) && g.ph.Routed?
    ensures g'.ph == Sending(g.ph.attempts, g.ph.target, true) && g'.row == g.row.(status := Printing)
    ensures g'.h == g.h + [MayHaveStreamed(j)] && Reached(cfg, printers, j, t, g')
  {
    var g1 := ToSending(cfg, printers, j, t, g);
    g' := Go(cfg, printers, j, t, g1, Stream(t), GoTo(g1.ph.(streamed := true)).(streams := true));
  }

  /** The send that streamed reports a retryable error: the job waits in the queue for its second try. */
  lemma ToSecondTry(cfg: Config, printers: Printers, j: JobId, t: TaskId, g: Stage, err: string)
    returns (steps: seq<Step>, row: Job)
    requires Reached(cfg, printers, j, t, g) && g.ph.Sending? && g.ph.streamed && g.ph.attempts + 1 < cfg.maxAttempts
    requires g.row.scheduledAt.None?
    ensures IsRun(cfg, Init(printers), steps) && Idle(After(cfg, Init(printers), steps), printers, j, row, g.h)
    ensures row.printer == g.row.printer && row.status.Queued? && row.nextAttemptAt.Some? && row.scheduledAt.None?
    ensures row.attempts == g.ph.attempts + 1
  {
    var e := RetryOrDead(cfg, g.ph.attempts, err, 0.0)
               .(streams := false, lock := if Serialized(g.ph.target.kind) then Release(g.ph.target.id) else Keep);
    var g1 := Go(cfg, printers, j, t, g, Return(t, BackendFailed(err), 0.0), e);
    AloneStep(cfg, After(cfg, Init(printers), g1.steps), printers, j, t, g1.ph, g1.row, g1.h, Finish(t));
    Extend(cfg, Init(printers), g1.steps, Finish(t));
    steps, row := g1.steps + [Finish(t)], g1.row;
  }

  /** Without the contract at-most-once is false: whatever the limits, if a second attempt is allowed, some
      run streams a job twice and no operator ever requeues it. */
  lemma BrokenContractStreamsTwice(cfg: Config, printers: Printers, p: PrinterId, j: JobId, t: TaskId, err: string)
    returns (steps: seq<Step>)
    requires HasRoom(cfg) && Printable(printers, p) && cfg.maxAttempts >= 2
    ensures IsRun(cfg, Init(printers), steps)
    ensures var h := After(cfg, Init(printers), steps).history;
            NoRequeue(h, j, 0, |h|) && Count(h, j, Streams) == 2
  {
    var g := ToFirstRouted(cfg, printers, p, j, t);
    ghost var begun := g.h;
    g := ToStreaming(cfg, printers, j, t, g);
    ghost var claim;
    g, claim := ToSecondRouted(cfg, printers, j, t, g, err);
    g := ToStreaming(cfg, printers, j, t, g);
    steps := g.steps;
    TwoStreams(begun, claim, j);
  }

  lemma ToSecondRouted(cfg: Config, printers: Printers, j: JobId, t: TaskId, g: Stage, err: string)
    returns (g': Stage, claim: Event)
    requires Reached(cfg, printers, j, t, g) && g.ph.Sending? && g.ph.streamed && g.ph.attempts + 1 < cfg.maxAttempts
    requires g.row.scheduledAt.None? && Printable(printers, g.row.printer)
    ensures g'.ph.Routed? && Reached(cfg, printers, j, t, g')
    ensures g'.h == g.h + [claim] && claim.Claimed?
  {
    var again, row := ToSecondTry(cfg, printers, j, t, g, err);
    var g1 := PickUp(cfg, printers, j, t, again, row, g.h, row.nextAttemptAt.value);
    g' := ToRouted(cfg, printers, j, t, g1);
    claim := Claimed(j, row.nextAttemptAt.value);
  }

  /** One event more that is no requeue. */
  lemma QuietNext(h: seq<Event>, e: Event, j: JobId, n: nat)
    requires NoRequeue(h, j, 0, |h|) && Count(h, j, Streams) == n && !IsRequeue(e, j)
    ensures NoRequeue(h + [e], j, 0, |h + [e]|)
    ensures Count(h + [e], j, Streams) == n + (if Counts(e, j, Streams) then 1 else 0)
  {
    CountNext(h, e, j, Streams);
  }

  lemma QuietStart(j: JobId)
    ensures NoRequeue([], j, 0, 0) && Count([], j, Streams) == 0
  {
  }

  lemma NothingStreamedYet(begun: seq<Event>, j: JobId)
    requires |begun| == 2 && begun[0].Submitted? && begun[1].Claimed?
    ensures NoRequeue(begun, j, 0, |begun|) && Count(begun, j, Streams) == 0
  {
    var a, b := begun[0], begun[1];
    QuietStart(j);
    QuietNext([], a, j, 0);
    QuietNext([] + [a], b, j, 0);
    assert begun == [] + [a] + [b];
  }

  lemma TwoStreams(begun: seq<Event>, claim: Event, j: JobId)
    requires |begun| == 2 && begun[0].Submitted? && begun[1].Claimed? && claim.Claimed?
    ensures var h := begun + [MayHaveStreamed(j)] + [claim] + [MayHaveStreamed(j)];
            NoRequeue(h, j, 0, |h|) && Count(h, j, Streams) == 2
  {
    NothingStreamedYet(begun, j);
    QuietNext(begun, MayHaveStreamed(j), j, 0);
    var once := begun + [MayHaveStreamed(j)];
    QuietNext(once, claim, j, 1);
    QuietNext(once + [claim], MayHaveStreamed(j), j, 1);
  }

  // ---------------------------------------------------------------- the caps exceeded

  /** A requeue adds exactly one to every count it belongs to, whatever the cap: so it takes the count past
      the cap exactly when the count had reached it. */
  lemma RequeueIgnoresCap(cfg: Config, s: World, j: JobId, at: Option<PrinterId>)
    requires JobTable.Requeue(s.db.jobs, j).Ok? && (at.None? || at.value == s.db.jobs[j].printer)
    ensures var n, n' := |Counted(s.db.jobs, at)|, |Counted(Requeueing(s, j).db.jobs, at)|;
            n' == n + 1 && (n' > Cap(cfg, at) <==> n >= Cap(cfg, at))
  {
    assert Counted(JobTable.Requeue(s.db.jobs, j).value, at) == Counted(s.db.jobs, at) + {j};
  }

  function StockRow(p: PrinterId, c: nat, r: nat, i: nat): Job {
    RawJob(p).(status := if r <= i < c then Canceled else Queued)
  }

  function Interval(a: nat, b: nat): (s: set<nat>)
    ensures forall i :: i in s <==> a <= i < b
    ensures |s| == if a < b then b - a else 0
    decreases b
  {
    if a < b then Interval(a, b - 1) + {b - 1} else {}
  }

  /** Jobs 0 to n of one printer: from r to c canceled, the others queued. */
  ghost predicate IsStock(jobs: Jobs, p: PrinterId, c: nat, r: nat, n: nat) {
    && r <= c <= n && jobs.Keys == Interval(0, n)
    && forall i :: i in jobs ==> jobs[i] == StockRow(p, c, r, i)
  }

  lemma DisjointSizes(a: set<nat>, b: set<nat>)
    requires a !! b
    ensures |a + b| == |a| + |b|
  {
  }

  lemma StockActive(jobs: Jobs, p: PrinterId, c: nat, r: nat, n: nat, at: Option<PrinterId>, i: nat)
    requires IsStock(jobs, p, c, r, n) && (at.None? || at.value == p)
    ensures i in Counted(jobs, at) <==> i < r || c <= i < n
  {
    assert i in jobs.Keys <==> i in Interval(0, n);
  }

  lemma TwoIntervals(ids: set<nat>, r: nat, c: nat, n: nat)
    requires r <= c <= n && forall i: nat :: i in ids <==> i in Interval(0, r) || i in Interval(c, n)
    ensures |ids| == n - (c - r)
  {
    assert ids == Interval(0, r) + Interval(c, n);
    DisjointSizes(Interval(0, r), Interval(c, n));
  }

  lemma StockCount(jobs: Jobs, p: PrinterId, c: nat, r: nat, n: nat, at: Option<PrinterId>)
    requires IsStock(jobs, p, c, r, n) && (at.None? || at.value == p)
    ensures |Counted(jobs, at)| == n - (c - r)
  {
    forall i: nat
      ensures i in Counted(jobs, at) <==> i in Interval(0, r) || i in Interval(c, n)
    {
      StockActive(jobs, p, c, r, n, at, i);
    }
    TwoIntervals(Counted(jobs, at), r, c, n);
  }

  ghost predicate Stocked(cfg: Config, printers: Printers, p: PrinterId, steps: seq<Step>, c: nat, r: nat, n: nat) {
    && IsRun(cfg, Init(printers), steps)
    && StockWorld(After(cfg, Init(printers), steps), p, c, r, n)
  }

  ghost predicate StockWorld(s: World, p: PrinterId, c: nat, r: nat, n: nat) {
    && IsStock(s.db.jobs, p, c, r, n) && s.issued == Interval(0, n)
    && Requeues(s.history, None) == r && Requeues(s.history, Some(p)) == r
  }

  function LowerCap(cfg: Config): int {
    if cfg.limits.globalMax <= cfg.limits.perPrinterMax then cfg.limits.globalMax else cfg.limits.perPrinterMax
  }

  lemma StockAccepts(cfg: Config, s: World, p: PrinterId, c: nat, r: nat, n: nat)
    requires StockWorld(s, p, c, r, n) && n - (c - r) < LowerCap(cfg)
    ensures Api.Submit(s.db, cfg.limits, RawPrint(p), DrawOf(n)).jobs == s.db.jobs[n := RawJob(p)]
  {
    StockCount(s.db.jobs, p, c, r, n, None);
    StockCount(s.db.jobs, p, c, r, n, Some(p));
    assert ActiveIds(s.db.jobs) == Counted(s.db.jobs, None) && ActiveIdsAt(s.db.jobs, p) == Counted(s.db.jobs, Some(p));
  }

  lemma SubmitStock(cfg: Config, s: World, p: PrinterId, c: nat, r: nat, n: nat)
    requires StockWorld(s, p, c, r, n) && n - (c - r) < LowerCap(cfg)
    ensures StockWorld(Submitting(cfg, s, RawPrint(p), DrawOf(n)), p, c, r, n + 1)
  {
    StockAccepts(cfg, s, p, c, r, n);
    assert Interval(0, n) + {n} == Interval(0, n + 1);
    RequeuesAppend(s.history, SubmitEvent(cfg, s, RawPrint(p), DrawOf(n)), None);
    RequeuesAppend(s.history, SubmitEvent(cfg, s, RawPrint(p), DrawOf(n)), Some(p));
  }

  lemma SubmitMore(cfg: Config, printers: Printers, p: PrinterId, steps: seq<Step>, c: nat, r: nat, n: nat)
    requires Stocked(cfg, printers, p, steps, c, r, n) && n - (c - r) < LowerCap(cfg)
    ensures Stocked(cfg, printers, p, steps + [Submit(RawPrint(p), DrawOf(n))], c, r, n + 1)
  {
    SubmitStock(cfg, After(cfg, Init(printers), steps), p, c, r, n);
    Extend(cfg, Init(printers), steps, Submit(RawPrint(p), DrawOf(n)));
  }

  lemma CancelStock(s: World, p: PrinterId, c: nat)
    requires StockWorld(s, p, c, 0, c + 1)
    ensures StockWorld(OrSame(s, JobTable.Cancel(s.db.jobs, c)), p, c + 1, 0, c + 1)
  {
    assert c in s.db.jobs && s.db.jobs[c] == StockRow(p, c, 0, c);
  }

  lemma CancelLast(cfg: Config, printers: Printers, p: PrinterId, steps: seq<Step>, c: nat)
    requires Stocked(cfg, printers, p, steps, c, 0, c + 1)
    ensures Stocked(cfg, printers, p, steps + [Cancel(c)], c + 1, 0, c + 1)
  {
    CancelStock(After(cfg, Init(printers), steps), p, c);
    Extend(cfg, Init(printers), steps, Cancel(c));
  }

  lemma RequeuedRow(jobs: Jobs, p: PrinterId, c: nat, r: nat, n: nat)
    requires IsStock(jobs, p, c, r, n) && r < c
    ensures JobTable.Requeue(jobs, r).Ok? && jobs[r].printer == p
    ensures IsStock(JobTable.Requeue(jobs, r).value, p, c, r + 1, n)
  {
    assert r in jobs && jobs[r] == StockRow(p, c, r, r);
  }

  lemma RequeueStock(s: World, p: PrinterId, c: nat, r: nat, n: nat)
    requires StockWorld(s, p, c, r, n) && r < c
    ensures StockWorld(Requeueing(s, r), p, c, r + 1, n)
  {
    RequeuedRow(s.db.jobs, p, c, r, n);
    RequeuesAppend(s.history, Requeued(r, p), None);
    RequeuesAppend(s.history, Requeued(r, p), Some(p));
  }

  lemma RequeueNext(cfg: Config, printers: Printers, p: PrinterId, before: seq<Step>, c: nat, r: nat, n: nat)
    returns (steps: seq<Step>)
    requires 1 <= r <= c && Stocked(cfg, printers, p, before, c, r - 1, n)
    ensures Stocked(cfg, printers, p, steps, c, r, n)
  {
    RequeueStock(After(cfg, Init(printers), before), p, c, r - 1, n);
    Extend(cfg, Init(printers), before, Requeue(r - 1));
    steps := before + [Requeue(r - 1)];
  }

  lemma NoStock(cfg: Config, printers: Printers, p: PrinterId)
    ensures Stocked(cfg, printers, p, [], 0, 0, 0)
  {
  }

  /** One more job submitted and canceled. */
  lemma CanceledNext(cfg: Config, printers: Printers, p: PrinterId, before: seq<Step>, c: nat)
    returns (steps: seq<Step>)
    requires HasRoom(cfg) && Stocked(cfg, printers, p, before, c, 0, c)
    ensures Stocked(cfg, printers, p, steps, c + 1, 0, c + 1)
  {
    SubmitMore(cfg, printers, p, before, c, 0, c);
    steps := before + [Submit(RawPrint(p), DrawOf(c))];
    CancelLast(cfg, printers, p, steps, c);
    steps := steps + [Cancel(c)];
  }

  lemma {:induction false} CanceledStock(cfg: Config, printers: Printers, p: PrinterId, c: nat)
    returns (steps: seq<Step>)
    requires HasRoom(cfg)
    ensures Stocked(cfg, printers, p, steps, c, 0, c)
  {
    if c == 0 {
      NoStock(cfg, printers, p);
      steps := [];
    } else {
      var before := CanceledStock(cfg, printers, p, c - 1);
      steps := CanceledNext(cfg, printers, p, before, c - 1);
    }
  }

  lemma {:induction false} FullStock(cfg: Config, printers: Printers, p: PrinterId, c: nat, m: nat)
    returns (steps: seq<Step>)
    requires HasRoom(cfg) && m <= LowerCap(cfg)
    ensures Stocked(cfg, printers, p, steps, c, 0, c + m)
  {
    if m == 0 {
      steps := CanceledStock(cfg, printers, p, c);
    } else {
      var before := FullStock(cfg, printers, p, c, m - 1);
      SubmitMore(cfg, printers, p, before, c, 0, c + m - 1);
      steps := before + [Submit(RawPrint(p), DrawOf(c + m - 1))];
    }
  }

  lemma {:induction false} RequeuedStock(cfg: Config, printers: Printers, p: PrinterId, c: nat, r: nat, m: nat)
    returns (steps: seq<Step>)
    requires HasRoom(cfg) && m <= LowerCap(cfg) && r <= c
    ensures Stocked(cfg, printers, p, steps, c, r, c + m)
  {
    if r == 0 {
      steps := FullStock(cfg, printers, p, c, m);
    } else {
      var before := RequeuedStock(cfg, printers, p, c, r - 1, m);
      steps := RequeueNext(cfg, printers, p, before, c, r, c + m);
    }
  }

  /** The bound on the active jobs is reached: for every number k, some run with k requeues holds k jobs more
      than the lower of the two caps, all of one printer. */
  lemma CapsExceeded(cfg: Config, printers: Printers, p: PrinterId, k: nat) returns (steps: seq<Step>)
    requires HasRoom(cfg)
    ensures IsRun(cfg, Init(printers), steps)
    ensures var s := After(cfg, Init(printers), steps);
            && Requeues(s.history, None) == k && Requeues(s.history, Some(p)) == k
            && |Counted(s.db.jobs, None)| == LowerCap(cfg) + k
            && |Counted(s.db.jobs, Some(p))| == LowerCap(cfg) + k
  {
    steps := RequeuedStock(cfg, printers, p, k, k, LowerCap(cfg));
    var jobs := After(cfg, Init(printers), steps).db.jobs;
    StockCount(jobs, p, k, k, k + LowerCap(cfg), None);
    StockCount(jobs, p, k, k, k + LowerCap(cfg), Some(p));
  }
}
