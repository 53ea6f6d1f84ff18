/** Delivery over every run of the worker: at most one send per operator request may have put bytes
    on the wire, and at most max(1, max_attempts) tasks are started for it. */
module WorkerDelivery {
  import opened Basics
  import opened JobTable
  import opened Pools
  import opened WorkerModel
  import opened WorkerSafety

  /** A task that has not yet made the mark that gives its job up. */
  predicate Owning(ph: Phase) {
    ph.Waiting? || ph.Admitted? || ph.Routing? || ph.Routed? || ph.LockWait? || ph.Sending?
  }

  predicate HasAttempts(ph: Phase) {
    ph.Routing? || ph.Routed? || ph.LockWait? || ph.Sending?
  }

  /** While a task owns its job, the row exists, is rendering or printing as the phase says, and
      still has the attempts the task read. */
  predicate Grounded(jobs: Jobs, j: JobId, ph: Phase) {
    Owning(ph) ==>
      && j in jobs
      && jobs[j].status == (if ph.LockWait? || ph.Sending? then Printing else Rendering)
      && (HasAttempts(ph) ==> ph.attempts == jobs[j].attempts)
  }

  ghost predicate RowsMatch(s: World) {
    && s.db.jobs.Keys <= s.issued
    && (forall t :: t in s.mem.tasks ==> Grounded(s.db.jobs, s.mem.tasks[t].job, s.mem.tasks[t].phase))
  }

  predicate Busy(status: Status) {
    status.Rendering? || status.Printing?
  }

  /** No call from outside touches a row that is rendering or printing. */
  lemma OutsideKeepsBusyRows(cfg: Config, s: World, step: Step, j: JobId)
    requires Enabled(s, step) && OutsideStep(step) && s.db.jobs.Keys <= s.issued
    requires j in s.db.jobs && Busy(s.db.jobs[j].status)
    ensures var jobs' := ApplyOutside(cfg, s, step).db.jobs; j in jobs' && jobs'[j] == s.db.jobs[j]
  {
  }

  lemma OutsideIssues(cfg: Config, s: World, step: Step)
    requires Enabled(s, step) && OutsideStep(step) && s.db.jobs.Keys <= s.issued
    ensures var s' := ApplyOutside(cfg, s, step); s'.db.jobs.Keys <= s'.issued && s.issued <= s'.issued
  {
  }

  function AfterMark(jobs: Jobs, j: JobId, e: Effect): Jobs {
    if e.mark.Some? then Mark(jobs, j, e.mark.value) else jobs
  }

  /** How a task's step may change its row: it gives the job back to the queue only from a phase
      that owns it, with one more attempt used and one left. */
  predicate Marks(cfg: Config, ph: Phase, e: Effect) {
    && (e.next.Some? && Owning(e.next.value) ==> Owning(ph) && (e.mark.Some? ==> e.mark.value == Fields(Printing)))
    && (e.mark.Some? && e.mark.value.status.Queued? ==>
          && HasAttempts(ph) && e.next == Some(Finishing) && e.mark.value.attempts == Some(ph.attempts + 1)
          && ph.attempts + 1 < cfg.maxAttempts)
    && (e.mark.Some? && Active(e.mark.value.status) ==> Owning(ph))
  }

  lemma EffectMarks(cfg: Config, s: World, step: Step)
    requires TaskStep(step) && step.t in s.mem.tasks && PhaseAllows(s.mem, step)
    ensures Marks(cfg, s.mem.tasks[step.t].phase, TaskEffect(cfg, s, step))
  {
  }

  predicate InSend(ph: Phase) {
    ph.LockWait? || ph.Sending?
  }

  /** How a task that still owns its job may move on: the row is marked printing exactly on the way into
      the send, and the attempts it carries are the row's. */
  predicate MovesOn(jobs: Jobs, j: JobId, ph: Phase, e: Effect) {
    e.next.Some? && Owning(e.next.value) ==>
      && Owning(ph)
      && (e.mark.Some? ==> e.mark.value == Fields(Printing))
      && (InSend(e.next.value) <==> InSend(ph) || e.mark.Some?)
      && (HasAttempts(e.next.value) ==>
            || (HasAttempts(ph) && e.next.value.attempts == ph.attempts)
            || (j in jobs && e.next.value.attempts == jobs[j].attempts))
  }

  lemma EffectMovesOn(cfg: Config, s: World, step: Step)
    requires TaskStep(step) && step.t in s.mem.tasks && PhaseAllows(s.mem, step)
    ensures MovesOn(s.db.jobs, s.mem.tasks[step.t].job, s.mem.tasks[step.t].phase, TaskEffect(cfg, s, step))
  {
  }

  lemma MoveGrounded(jobs: Jobs, j: JobId, ph: Phase, e: Effect)
    requires Grounded(jobs, j, ph) && MovesOn(jobs, j, ph, e)
    ensures e.next.Some? ==> Grounded(AfterMark(jobs, j, e), j, e.next.value)
  {
  }

  lemma EffectGrounded(cfg: Config, s: World, step: Step)
    requires TaskStep(step) && step.t in s.mem.tasks && PhaseAllows(s.mem, step)
    requires Grounded(s.db.jobs, s.mem.tasks[step.t].job, s.mem.tasks[step.t].phase)
    ensures var e := TaskEffect(cfg, s, step);
            var j := s.mem.tasks[step.t].job;
            e.next.Some? ==> Grounded(AfterMark(s.db.jobs, j, e), j, e.next.value)
  {
    EffectMovesOn(cfg, s, step);
    MoveGrounded(s.db.jobs, s.mem.tasks[step.t].job, s.mem.tasks[step.t].phase, TaskEffect(cfg, s, step));
  }

  lemma OutsideKeepsRows(cfg: Config, s: World, step: Step)
    requires Enabled(s, step) && OutsideStep(step) && RowsMatch(s)
    ensures RowsMatch(ApplyOutside(cfg, s, step))
  {
    OutsideIssues(cfg, s, step);
    forall t | t in s.mem.tasks && Owning(s.mem.tasks[t].phase)
      ensures var j := s.mem.tasks[t].job;
              j in ApplyOutside(cfg, s, step).db.jobs && ApplyOutside(cfg, s, step).db.jobs[j] == s.db.jobs[j]
    {
      OutsideKeepsBusyRows(cfg, s, step, s.mem.tasks[t].job);
    }
  }

  lemma PerformKeepsRows(s: World, t: TaskId, e: Effect)
    requires t in s.mem.tasks && Registered(s.mem) && RowsMatch(s)
    requires var j := s.mem.tasks[t].job; e.next.Some? ==> Grounded(AfterMark(s.db.jobs, j, e), j, e.next.value)
    ensures RowsMatch(Perform(s, t, e))
  {
  }

  lemma RowsStep(cfg: Config, s: World, step: Step)
    requires Enabled(s, step) && Registered(s.mem) && RowsMatch(s)
    ensures RowsMatch(Apply(cfg, s, step))
  {
    if TaskStep(step) {
      EffectGrounded(cfg, s, step);
      PerformKeepsRows(s, step.t, TaskEffect(cfg, s, step));
    } else if OutsideStep(step) {
      OutsideKeepsRows(cfg, s, step);
    }
  }

  // ---------------------------------------------------------------- tallies

  datatype Tally = Claims | Streams

  predicate Counts(e: Event, j: JobId, what: Tally) {
    match what
    case Claims => e.Claimed? && e.job == j
    case Streams => e == MayHaveStreamed(j)
  }

  predicate IsRequeue(e: Event, j: JobId) {
    e.Requeued? && e.job == j
  }

  /** Events counted for job j since its last requeue. */
  function CountSince(h: seq<Event>, j: JobId, what: Tally): nat {
    if h == [] then 0
    else
      var rest, last := h[..|h| - 1], h[|h| - 1];
      if IsRequeue(last, j) then 0
      else CountSince(rest, j, what) + (if Counts(last, j, what) then 1 else 0)
  }

  lemma CountAppend(h: seq<Event>, e: Event, j: JobId, what: Tally)
    ensures CountSince(h + [e], j, what)
         == if IsRequeue(e, j) then 0 else CountSince(h, j, what) + (if Counts(e, j, what) then 1 else 0)
  {
    assert (h + [e])[..|h|] == h;
  }

  function MaxTries(cfg: Config): nat {
    if cfg.maxAttempts > 1 then cfg.maxAttempts else 1
  }

  /** The phase of job j's task, if it has one. */
  function PhaseOf(m: Memory, j: JobId): Option<Phase> {
    if j in m.inflight && m.inflight[j] in m.tasks then Some(m.tasks[m.inflight[j]].phase) else None
  }

  predicate Owned(m: Memory, j: JobId) {
    PhaseOf(m, j).Some? && Owning(PhaseOf(m, j).value)
  }

  predicate OnTheWire(m: Memory, j: JobId) {
    var ph := PhaseOf(m, j);
    ph.Some? && ph.value.Sending? && ph.value.streamed
  }

  /** A job waiting in the queue has been claimed once per attempt used; a job a task owns, once more. */
  ghost predicate ClaimsFit(cfg: Config, s: World, j: JobId) {
    var n := CountSince(s.history, j, Claims);
    && n <= MaxTries(cfg)
    && (j !in s.issued ==> n == 0)
    && (Claimable(s.db.jobs, j) ==> n == s.db.jobs[j].attempts < MaxTries(cfg))
    && (Owned(s.mem, j) && j in s.db.jobs ==> n == s.db.jobs[j].attempts + 1)
  }

  /** A job waiting in the queue, or owned by a task not yet streaming, has had no send that
      may have streamed. */
  ghost predicate StreamsFit(s: World, j: JobId) {
    var n := CountSince(s.history, j, Streams);
    && n <= 1
    && (j !in s.issued ==> n == 0)
    && (Claimable(s.db.jobs, j) ==> n == 0)
    && (Owned(s.mem, j) ==> n == if OnTheWire(s.mem, j) then 1 else 0)
  }

  /** The contract of the backends: the two retryable errors mean nothing was streamed. */
  predicate Honest(m: Memory, step: Step) {
    step.Return? && SafeToRetry(step.outcome) && step.t in m.tasks && m.tasks[step.t].phase.Sending?
    ==> !m.tasks[step.t].phase.streamed
  }

  lemma OwnedIsBusy(s: World, j: JobId)
    requires Registered(s.mem) && RowsMatch(s) && Owned(s.mem, j)
    ensures Grounded(s.db.jobs, j, PhaseOf(s.mem, j).value)
    ensures j in s.db.jobs && Busy(s.db.jobs[j].status)
  {
  }

  lemma PhaseAfter(m: Memory, t: TaskId, e: Effect, j: JobId)
    requires t in m.tasks && Registered(m)
    ensures PhaseOf(PerformInMemory(m, t, e), j) == if j == m.tasks[t].job then e.next else PhaseOf(m, j)
  {
  }

  // ---------------------------------------------------------------- claims

  /** The statuses an operator's cancel or resolve sets. */
  predicate OperatorMark(was: Status, now: Status) {
    now.Canceled? || now.Failed? || (now.Done? && was.Uncertain?)
  }

  /** What a step from outside can do to row j and to the uuids drawn, given the event it logs. */
  predicate OutsideRow(s: World, s': World, e: Option<Event>, j: JobId) {
    && s'.mem == s.mem && (j in s.issued ==> j in s'.issued)
    && if e.Some? && IsRequeue(e.value, j) then
         && j in s.db.jobs && Requeueable(s.db.jobs[j].status) && (j in s'.issued ==> j in s.issued)
         && j in s'.db.jobs && s'.db.jobs[j].status.Queued? && s'.db.jobs[j].attempts == 0
       else if j in s'.db.jobs && j in s.db.jobs then
         || s'.db.jobs[j] == s.db.jobs[j]
         || (!Busy(s.db.jobs[j].status) && OperatorMark(s.db.jobs[j].status, s'.db.jobs[j].status))
       else if j in s'.db.jobs then
         j !in s.issued && j in s'.issued && s'.db.jobs[j].status.Queued? && s'.db.jobs[j].attempts == 0
       else j in s.db.jobs ==> !Busy(s.db.jobs[j].status)
  }

  lemma OutsideRows(cfg: Config, s: World, step: Step, j: JobId)
    requires Enabled(s, step) && OutsideStep(step) && s.db.jobs.Keys <= s.issued
    ensures OutsideRow(s, ApplyOutside(cfg, s, step), OutsideEvent(cfg, s, step), j)
  {
  }

  /** Events an outside step logs count neither as claims nor as streams. */
  lemma OutsideTally(h: seq<Event>, e: Option<Event>, j: JobId, what: Tally)
    requires e.Some? ==> e.value.Submitted? || e.value.Requeued? || e.value.Swept?
    ensures CountSince(Logged(h, e), j, what) == if e.Some? && IsRequeue(e.value, j) then 0 else CountSince(h, j, what)
  {
    if e.Some? {
      CountAppend(h, e.value, j, what);
    }
  }

  lemma OutsideKind(cfg: Config, s: World, step: Step)
    requires OutsideStep(step)
    ensures var e := OutsideEvent(cfg, s, step);
            e.Some? ==> e.value.Submitted? || e.value.Requeued? || e.value.Swept?
  {
  }

  lemma OutsideClaimsCarry(cfg: Config, s: World, s': World, e: Option<Event>, j: JobId)
    requires Registered(s.mem) && RowsMatch(s) && ClaimsFit(cfg, s, j) && OutsideRow(s, s', e, j)
    requires CountSince(s'.history, j, Claims)
          == if e.Some? && IsRequeue(e.value, j) then 0 else CountSince(s.history, j, Claims)
    ensures ClaimsFit(cfg, s', j)
  {
    if Owned(s.mem, j) {
      OwnedIsBusy(s, j);
    }
  }

  lemma OutsideClaims(cfg: Config, s: World, step: Step, j: JobId)
    requires Enabled(s, step) && OutsideStep(step) && Registered(s.mem) && RowsMatch(s) && ClaimsFit(cfg, s, j)
    ensures ClaimsFit(cfg, ApplyOutside(cfg, s, step), j)
  {
    var e := OutsideEvent(cfg, s, step);
    OutsideRows(cfg, s, step, j);
    OutsideLogs(cfg, s, step);
    OutsideKind(cfg, s, step);
    OutsideTally(s.history, e, j, Claims);
    OutsideClaimsCarry(cfg, s, ApplyOutside(cfg, s, step), e, j);
  }

  lemma PerformClaims(cfg: Config, s: World, t: TaskId, e: Effect, j: JobId)
    requires t in s.mem.tasks && Registered(s.mem) && RowsMatch(s) && ClaimsFit(cfg, s, j)
    requires Marks(cfg, s.mem.tasks[t].phase, e)
    ensures ClaimsFit(cfg, Perform(s, t, e), j)
  {
    PhaseAfter(s.mem, t, e, j);
    if e.streams {
      CountAppend(s.history, MayHaveStreamed(s.mem.tasks[t].job), j, Claims);
    }
  }

  lemma TakeClaims(cfg: Config, s: World, t: TaskId, j: JobId)
    requires s.mem.batch != [] && t !in s.mem.tasks && Registered(s.mem) && RowsMatch(s) && ClaimsFit(cfg, s, j)
    ensures ClaimsFit(cfg, Taken(s, t), j)
  {
    var s' := Taken(s, t);
    if Wins(s) {
      CountAppend(s.history, Claimed(s.mem.batch[0], s.mem.batchAt), j, Claims);
      assert PhaseOf(s'.mem, j) == if j == s.mem.batch[0] then Some(Waiting) else PhaseOf(s.mem, j);
    } else {
      assert PhaseOf(s'.mem, j) == PhaseOf(s.mem, j);
    }
  }

  lemma ClaimsStep(cfg: Config, s: World, step: Step, j: JobId)
    requires Enabled(s, step) && Registered(s.mem) && RowsMatch(s) && ClaimsFit(cfg, s, j)
    ensures ClaimsFit(cfg, Apply(cfg, s, step), j)
  {
    if TaskStep(step) {
      EffectMarks(cfg, s, step);
      PerformClaims(cfg, s, step.t, TaskEffect(cfg, s, step), j);
    } else if step.Take? {
      TakeClaims(cfg, s, step.t, j);
    } else if OutsideStep(step) {
      OutsideClaims(cfg, s, step, j);
    }
  }

  // ---------------------------------------------------------------- streams

  lemma OutsideStreamsCarry(s: World, s': World, e: Option<Event>, j: JobId)
    requires Registered(s.mem) && RowsMatch(s) && StreamsFit(s, j) && OutsideRow(s, s', e, j)
    requires CountSince(s'.history, j, Streams)
          == if e.Some? && IsRequeue(e.value, j) then 0 else CountSince(s.history, j, Streams)
    ensures StreamsFit(s', j)
  {
    if Owned(s.mem, j) {
      OwnedIsBusy(s, j);
    }
  }

  lemma OutsideStreams(cfg: Config, s: World, step: Step, j: JobId)
    requires Enabled(s, step) && OutsideStep(step) && Registered(s.mem) && RowsMatch(s) && StreamsFit(s, j)
    ensures StreamsFit(ApplyOutside(cfg, s, step), j)
  {
    var e := OutsideEvent(cfg, s, step);
    OutsideRows(cfg, s, step, j);
    OutsideLogs(cfg, s, step);
    OutsideKind(cfg, s, step);
    OutsideTally(s.history, e, j, Streams);
    OutsideStreamsCarry(s, ApplyOutside(cfg, s, step), e, j);
  }

  /** How a task's step may stream: from a send that has not streamed, and a send that has streamed
      neither streams again nor gives the job back. */
  predicate Sends(ph: Phase, e: Effect) {
    && (e.streams ==> ph.Sending? && !ph.streamed && !(e.mark.Some? && e.mark.value.status.Queued?))
    && (e.next.Some? && Owning(e.next.value) ==>
          (e.next.value.Sending? && e.next.value.streamed <==> e.streams || (ph.Sending? && ph.streamed)))
    && (ph.Sending? && ph.streamed ==> !(e.mark.Some? && e.mark.value.status.Queued?))
  }

  lemma EffectSends(cfg: Config, s: World, step: Step)
    requires TaskStep(step) && step.t in s.mem.tasks && PhaseAllows(s.mem, step) && Honest(s.mem, step)
    ensures Sends(s.mem.tasks[step.t].phase, TaskEffect(cfg, s, step))
  {
  }

  lemma PerformStreams(cfg: Config, s: World, t: TaskId, e: Effect, j: JobId)
    requires t in s.mem.tasks && Registered(s.mem) && RowsMatch(s) && StreamsFit(s, j)
    requires Marks(cfg, s.mem.tasks[t].phase, e) && Sends(s.mem.tasks[t].phase, e)
    ensures StreamsFit(Perform(s, t, e), j)
  {
    PhaseAfter(s.mem, t, e, j);
    if e.streams {
      CountAppend(s.history, MayHaveStreamed(s.mem.tasks[t].job), j, Streams);
    }
    if Owned(s.mem, j) {
      OwnedIsBusy(s, j);
    }
  }

  lemma TakeStreams(s: World, t: TaskId, j: JobId)
    requires s.mem.batch != [] && t !in s.mem.tasks && Registered(s.mem) && RowsMatch(s) && StreamsFit(s, j)
    ensures StreamsFit(Taken(s, t), j)
  {
    var s' := Taken(s, t);
    if Wins(s) {
      CountAppend(s.history, Claimed(s.mem.batch[0], s.mem.batchAt), j, Streams);
      assert PhaseOf(s'.mem, j) == if j == s.mem.batch[0] then Some(Waiting) else PhaseOf(s.mem, j);
    } else {
      assert PhaseOf(s'.mem, j) == PhaseOf(s.mem, j);
    }
  }

  lemma StreamsStep(cfg: Config, s: World, step: Step, j: JobId)
    requires Enabled(s, step) && Registered(s.mem) && RowsMatch(s) && StreamsFit(s, j) && Honest(s.mem, step)
    ensures StreamsFit(Apply(cfg, s, step), j)
  {
    if TaskStep(step) {
      EffectMarks(cfg, s, step);
      EffectSends(cfg, s, step);
      PerformStreams(cfg, s, step.t, TaskEffect(cfg, s, step), j);
    } else if step.Take? {
      TakeStreams(s, step.t, j);
    } else if OutsideStep(step) {
      OutsideStreams(cfg, s, step, j);
    }
  }

  // ---------------------------------------------------------------- whole runs

  ghost predicate Sound(cfg: Config, s: World) {
    Exclusion(s.mem) && RowsMatch(s) && forall j :: ClaimsFit(cfg, s, j)
  }

  lemma SoundStep(cfg: Config, s: World, step: Step)
    requires Enabled(s, step) && Sound(cfg, s)
    ensures Sound(cfg, Apply(cfg, s, step))
  {
    ExclusionStep(cfg, s, step);
    RowsStep(cfg, s, step);
    forall j ensures ClaimsFit(cfg, Apply(cfg, s, step), j) {
      ClaimsStep(cfg, s, step, j);
    }
  }

  lemma {:induction false} SoundRun(cfg: Config, printers: Printers, steps: seq<Step>)
    requires IsRun(cfg, Init(printers), steps)
    ensures Sound(cfg, After(cfg, Init(printers), steps))
    decreases |steps|
  {
    if steps != [] {
      var init := steps[..|steps| - 1];
      SoundRun(cfg, printers, init);
      SoundStep(cfg, After(cfg, Init(printers), init), steps[|steps| - 1]);
    }
  }

  /** Every send of the run kept the backends' contract. */
  ghost predicate HonestRun(cfg: Config, s: World, steps: seq<Step>)
    requires IsRun(cfg, s, steps)
    decreases |steps|
  {
    steps == [] ||
    (HonestRun(cfg, s, steps[..|steps| - 1]) && Honest(After(cfg, s, steps[..|steps| - 1]).mem, steps[|steps| - 1]))
  }

  /** The history only grows, by at most one event a step. */
  lemma HistoryGrows(cfg: Config, s: World, step: Step)
    requires Enabled(s, step)
    ensures var h' := Apply(cfg, s, step).history;
            h' == s.history || (|h'| == |s.history| + 1 && h'[..|s.history|] == s.history)
  {
  }

  /** Every prefix of a history keeps a tally since the last requeue within a bound. */
  predicate Bounded(h: seq<Event>, j: JobId, what: Tally, bound: nat) {
    CountSince(h, j, what) <= bound && (h != [] ==> Bounded(h[..|h| - 1], j, what, bound))
  }

  lemma {:induction false} ClaimsBounded(cfg: Config, printers: Printers, steps: seq<Step>, j: JobId)
    requires IsRun(cfg, Init(printers), steps)
    ensures Bounded(After(cfg, Init(printers), steps).history, j, Claims, MaxTries(cfg))
    decreases |steps|
  {
    if steps != [] {
      var init := steps[..|steps| - 1];
      ClaimsBounded(cfg, printers, init, j);
      SoundRun(cfg, printers, steps);
      assert ClaimsFit(cfg, After(cfg, Init(printers), steps), j);
      HistoryGrows(cfg, After(cfg, Init(printers), init), steps[|steps| - 1]);
    }
  }

  lemma {:induction false} StreamsRun(cfg: Config, printers: Printers, steps: seq<Step>, j: JobId)
    requires IsRun(cfg, Init(printers), steps) && HonestRun(cfg, Init(printers), steps)
    ensures StreamsFit(After(cfg, Init(printers), steps), j)
    ensures Bounded(After(cfg, Init(printers), steps).history, j, Streams, 1)
    decreases |steps|
  {
    if steps != [] {
      var init, last := steps[..|steps| - 1], steps[|steps| - 1];
      StreamsRun(cfg, printers, init, j);
      SoundRun(cfg, printers, init);
      StreamsStep(cfg, After(cfg, Init(printers), init), last, j);
      HistoryGrows(cfg, After(cfg, Init(printers), init), last);
    }
  }

  /** Plain number of events counted for job j. */
  function Count(h: seq<Event>, j: JobId, what: Tally): nat {
    if h == [] then 0 else Count(h[..|h| - 1], j, what) + (if Counts(h[|h| - 1], j, what) then 1 else 0)
  }

  lemma CountNext(h: seq<Event>, e: Event, j: JobId, what: Tally)
    ensures Count(h + [e], j, what) == Count(h, j, what) + (if Counts(e, j, what) then 1 else 0)
  {
    assert (h + [e])[..|h|] == h;
  }

  /** Positions a..b of a history hold no requeue of job j. */
  predicate NoRequeue(h: seq<Event>, j: JobId, a: nat, b: nat)
    requires a <= b <= |h|
  {
    forall i :: a <= i < b ==> !IsRequeue(h[i], j)
  }

  lemma {:induction false} WindowWithinBound(h: seq<Event>, j: JobId, what: Tally, bound: nat, a: nat, b: nat)
    requires a <= b <= |h| && NoRequeue(h, j, a, b) && Bounded(h, j, what, bound)
    ensures Count(h[a..b], j, what) <= bound
    decreases |h|
  {
    if b < |h| {
      assert h[..|h| - 1][a..b] == h[a..b];
      WindowWithinBound(h[..|h| - 1], j, what, bound, a, b);
    } else {
      WindowWithinCount(h, j, what, a);
      assert h[a..b] == h[a..];
    }
  }

  lemma {:induction false} WindowWithinCount(h: seq<Event>, j: JobId, what: Tally, a: nat)
    requires a <= |h| && NoRequeue(h, j, a, |h|)
    ensures Count(h[a..], j, what) <= CountSince(h, j, what)
    decreases |h|
  {
    if a < |h| {
      assert h[a..][..|h[a..]| - 1] == h[..|h| - 1][a..];
      WindowWithinCount(h[..|h| - 1], j, what, a);
    }
  }

  /** At-most-once: in any stretch of any run without an operator requeue of the job, whatever
      workers, operators, sweeps and restarts did, at most one send of it may have put bytes on the
      wire.  Needs the backends' contract. */
  lemma AtMostOnce(cfg: Config, printers: Printers, steps: seq<Step>, j: JobId, a: nat, b: nat)
    requires IsRun(cfg, Init(printers), steps) && HonestRun(cfg, Init(printers), steps)
    requires var h := After(cfg, Init(printers), steps).history; a <= b <= |h| && NoRequeue(h, j, a, b)
    ensures Count(After(cfg, Init(printers), steps).history[a..b], j, Streams) <= 1
  {
    StreamsRun(cfg, printers, steps, j);
    WindowWithinBound(After(cfg, Init(printers), steps).history, j, Streams, 1, a, b);
  }

  /** The contract cannot be dropped: a send that may have streamed and then reports a retryable error, with
      attempts left, puts its job back in the queue to be claimed and sent once more. */
  lemma BrokenContractResends(cfg: Config, s: World, t: TaskId, err: string, now: Instant)
    requires var step := Return(t, BackendFailed(err), now);
             Enabled(s, step) && !Honest(s.mem, step) && Sound(cfg, s) && StreamsFit(s, s.mem.tasks[t].job)
    requires s.mem.tasks[t].phase.attempts + 1 < cfg.maxAttempts
    ensures var s' := Apply(cfg, s, Return(t, BackendFailed(err), now));
            var j := s.mem.tasks[t].job;
            Claimable(s'.db.jobs, j) && CountSince(s'.history, j, Streams) == 1
  {
    OwnedIsBusy(s, s.mem.tasks[t].job);
  }

  /** Bounded retries: in any such stretch the job is processed at most max(1, max_attempts) times,
      contract or not. */
  lemma BoundedTries(cfg: Config, printers: Printers, steps: seq<Step>, j: JobId, a: nat, b: nat)
    requires IsRun(cfg, Init(printers), steps)
    requires var h := After(cfg, Init(printers), steps).history; a <= b <= |h| && NoRequeue(h, j, a, b)
    ensures Count(After(cfg, Init(printers), steps).history[a..b], j, Claims) <= MaxTries(cfg)
  {
    ClaimsBounded(cfg, printers, steps, j);
    WindowWithinBound(After(cfg, Init(printers), steps).history, j, Claims, MaxTries(cfg), a, b);
  }

  lemma QueuedFits(cfg: Config, s: World, j: JobId)
    requires Sound(cfg, s) && Claimable(s.db.jobs, j)
    ensures CountSince(s.history, j, Claims) == s.db.jobs[j].attempts < MaxTries(cfg)
  {
    assert ClaimsFit(cfg, s, j);
  }

  /** A job in the queue always has an attempt left, and has been started, since its submission or last
      requeue, exactly once per attempt used. */
  lemma QueuedHasAttemptLeft(cfg: Config, printers: Printers, steps: seq<Step>, j: JobId)
    requires IsRun(cfg, Init(printers), steps)
    requires Claimable(After(cfg, Init(printers), steps).db.jobs, j)
    ensures var s := After(cfg, Init(printers), steps);
            CountSince(s.history, j, Claims) == s.db.jobs[j].attempts < MaxTries(cfg)
  {
    SoundRun(cfg, printers, steps);
    QueuedFits(cfg, After(cfg, Init(printers), steps), j);
  }
}
