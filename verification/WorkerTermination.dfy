/** The worker makes progress: every step it takes for a job lowers a measure of what is left to do
    for it, and the waits between attempts are ordered and bounded. */
module WorkerTermination {
  import opened Basics
  import opened JobTable
  import opened Pools
  import opened WorkerModel
  import opened WorkerSafety
  import opened WorkerDelivery

  /** Attempts still to be made once n have been. */
  function Left(cfg: Config, n: nat): nat {
    if n < MaxTries(cfg) then MaxTries(cfg) - n else 0
  }

  /** Steps of its own a task can still take before it must leave the phase for good. */
  function PhaseRank(ph: Phase): nat {
    match ph
    case Waiting => 10
    case Admitted => 9
    case Routing(_, _) => 8
    case Routed(_, _) => 7
    case LockWait(_, _) => 6
    case Sending(_, _, streamed) => if streamed then 4 else 5
    case Unrenderable(_) => 4
    case Wrapping(_) => 3
    case Crashed(_) => 2
    case Finishing => 1
  }

  const PER_TRY: nat := 11

  function RowRank(cfg: Config, jobs: Jobs, owned: bool, j: JobId): nat {
    if j !in jobs then 0
    else if jobs[j].status.Queued? then PER_TRY * Left(cfg, jobs[j].attempts)
    else if owned then PER_TRY * Left(cfg, jobs[j].attempts + 1)
    else 0
  }

  function TaskRank(ph: Option<Phase>): nat {
    if ph.Some? then PhaseRank(ph.value) else 0
  }

  /** What is left to do for job j: attempts first, then the phase of its task. */
  function Rank(cfg: Config, s: World, j: JobId): nat {
    RowRank(cfg, s.db.jobs, Owned(s.mem, j), j) + TaskRank(PhaseOf(s.mem, j))
  }

  /** The step is work for job j: a step of its task, or the claim that starts one. */
  predicate WorksOn(s: World, step: Step, j: JobId) {
    || (TaskStep(step) && step.t in s.mem.tasks && s.mem.tasks[step.t].job == j)
    || (step.Take? && s.mem.batch != [] && s.mem.batch[0] == j && Wins(s))
  }

  lemma EffectLowers(cfg: Config, s: World, step: Step)
    requires TaskStep(step) && step.t in s.mem.tasks && PhaseAllows(s.mem, step)
    ensures var ph := s.mem.tasks[step.t].phase;
            var e := TaskEffect(cfg, s, step);
            TaskRank(e.next) < PhaseRank(ph)
  {
  }

  lemma TaskLowers(cfg: Config, s: World, t: TaskId, e: Effect, j: JobId)
    requires t in s.mem.tasks && Registered(s.mem) && RowsMatch(s)
    requires Marks(cfg, s.mem.tasks[t].phase, e) && TaskRank(e.next) < PhaseRank(s.mem.tasks[t].phase)
    ensures if j == s.mem.tasks[t].job then Rank(cfg, Perform(s, t, e), j) < Rank(cfg, s, j)
            else Rank(cfg, Perform(s, t, e), j) == Rank(cfg, s, j)
  {
    PhaseAfter(s.mem, t, e, j);
    if Owned(s.mem, j) {
      OwnedIsBusy(s, j);
    }
  }

  lemma TakeLowers(cfg: Config, s: World, t: TaskId, j: JobId)
    requires s.mem.batch != [] && t !in s.mem.tasks && Registered(s.mem) && ClaimsFit(cfg, s, j)
    ensures if s.mem.batch[0] == j && Wins(s) then Rank(cfg, Taken(s, t), j) < Rank(cfg, s, j)
            else Rank(cfg, Taken(s, t), j) == Rank(cfg, s, j)
  {
    var s' := Taken(s, t);
    if s.mem.batch[0] == j && Wins(s) {
      assert PhaseOf(s'.mem, j) == Some(Waiting) && PhaseOf(s.mem, j) == None;
      assert Left(cfg, s.db.jobs[j].attempts) == Left(cfg, s.db.jobs[j].attempts + 1) + 1;
    } else {
      assert PhaseOf(s'.mem, j) == PhaseOf(s.mem, j);
    }
  }

  /** Operator requeues of job j. */
  function RequeuesOf(h: seq<Event>, j: JobId): nat {
    if h == [] then 0 else RequeuesOf(h[..|h| - 1], j) + (if IsRequeue(h[|h| - 1], j) then 1 else 0)
  }

  lemma RequeuesOfAppend(h: seq<Event>, e: Event, j: JobId)
    ensures RequeuesOf(h + [e], j) == RequeuesOf(h, j) + (if IsRequeue(e, j) then 1 else 0)
  {
    assert (h + [e])[..|h|] == h;
  }

  /** How often job j has been asked for: its submission, and its requeues. */
  function Requests(s: World, j: JobId): nat {
    (if j in s.issued then 1 else 0) + RequeuesOf(s.history, j)
  }

  /** The most steps one request can take. */
  function PerRequest(cfg: Config): nat {
    PER_TRY * MaxTries(cfg)
  }

  lemma OutsideRankCarry(cfg: Config, s: World, s': World, e: Option<Event>, j: JobId)
    requires Registered(s.mem) && RowsMatch(s) && OutsideRow(s, s', e, j)
    requires RequeuesOf(s'.history, j) == RequeuesOf(s.history, j) + (if e.Some? && IsRequeue(e.value, j) then 1 else 0)
    ensures || (Requests(s', j) == Requests(s, j) && Rank(cfg, s', j) <= Rank(cfg, s, j))
            || (Requests(s', j) == Requests(s, j) + 1 && Rank(cfg, s', j) <= Rank(cfg, s, j) + PerRequest(cfg))
  {
    if Owned(s.mem, j) {
      OwnedIsBusy(s, j);
    }
  }

  lemma OutsideRank(cfg: Config, s: World, step: Step, j: JobId)
    requires Enabled(s, step) && OutsideStep(step) && Registered(s.mem) && RowsMatch(s)
    ensures var s' := ApplyOutside(cfg, s, step);
            || (Requests(s', j) == Requests(s, j) && Rank(cfg, s', j) <= Rank(cfg, s, j))
            || (Requests(s', j) == Requests(s, j) + 1 && Rank(cfg, s', j) <= Rank(cfg, s, j) + PerRequest(cfg))
  {
    var e := OutsideEvent(cfg, s, step);
    OutsideRows(cfg, s, step, j);
    OutsideLogs(cfg, s, step);
    if e.Some? {
      RequeuesOfAppend(s.history, e.value, j);
    }
    OutsideRankCarry(cfg, s, ApplyOutside(cfg, s, step), e, j);
  }

  lemma PerformRequests(s: World, t: TaskId, e: Effect, j: JobId)
    requires t in s.mem.tasks
    ensures Requests(Perform(s, t, e), j) == Requests(s, j)
  {
    RequeuesOfAppend(s.history, MayHaveStreamed(s.mem.tasks[t].job), j);
  }

  lemma TakenRequests(s: World, t: TaskId, j: JobId)
    requires s.mem.batch != []
    ensures Requests(Taken(s, t), j) == Requests(s, j)
  {
    RequeuesOfAppend(s.history, Claimed(s.mem.batch[0], s.mem.batchAt), j);
  }

  lemma InsideRequests(cfg: Config, s: World, step: Step, j: JobId)
    requires Enabled(s, step) && !OutsideStep(step)
    ensures Requests(Apply(cfg, s, step), j) == Requests(s, j)
  {
    if TaskStep(step) {
      PerformRequests(s, step.t, TaskEffect(cfg, s, step), j);
    } else if step.Take? {
      TakenRequests(s, step.t, j);
    }
  }

  /** Each step of the worker for a job lowers its rank and leaves every other job's alone. */
  lemma WorkLowersRank(cfg: Config, s: World, step: Step, j: JobId)
    requires Enabled(s, step) && Sound(cfg, s) && (TaskStep(step) || step.Take? || step.Poll?)
    ensures if WorksOn(s, step, j) then Rank(cfg, Apply(cfg, s, step), j) < Rank(cfg, s, j)
            else Rank(cfg, Apply(cfg, s, step), j) == Rank(cfg, s, j)
  {
    if TaskStep(step) {
      EffectMarks(cfg, s, step);
      EffectLowers(cfg, s, step);
      TaskLowers(cfg, s, step.t, TaskEffect(cfg, s, step), j);
    } else if step.Take? {
      TakeLowers(cfg, s, step.t, j);
    }
  }

  /** Steps of a run that were work for job j. */
  ghost function Work(cfg: Config, s: World, steps: seq<Step>, j: JobId): nat
    requires IsRun(cfg, s, steps)
    decreases |steps|
  {
    if steps == [] then 0
    else
      var init := steps[..|steps| - 1];
      Work(cfg, s, init, j) + (if WorksOn(After(cfg, s, init), steps[|steps| - 1], j) then 1 else 0)
  }

  lemma AskedStep(cfg: Config, s: World, step: Step, j: JobId)
    requires Enabled(s, step) && Sound(cfg, s)
    ensures var s' := Apply(cfg, s, step);
            var worked := if WorksOn(s, step, j) then 1 else 0;
            || (Requests(s', j) == Requests(s, j) && Rank(cfg, s', j) + worked <= Rank(cfg, s, j))
            || (Requests(s', j) == Requests(s, j) + 1 && Rank(cfg, s', j) + worked <= Rank(cfg, s, j) + PerRequest(cfg))
  {
    if OutsideStep(step) {
      OutsideRank(cfg, s, step, j);
    } else {
      InsideRequests(cfg, s, step, j);
      if !step.Restart? {
        WorkLowersRank(cfg, s, step, j);
      } else {
        RestartRank(cfg, s, j);
      }
    }
  }

  lemma RestartRank(cfg: Config, s: World, j: JobId)
    ensures Rank(cfg, s.(mem := BLANK), j) <= Rank(cfg, s, j)
  {
  }

  /** Termination over every run: the worker never takes more than 11 * max(1, max_attempts) steps for
      a job per submission or operator requeue of it. */
  lemma {:induction false} WorkIsBounded(cfg: Config, printers: Printers, steps: seq<Step>, j: JobId)
    requires IsRun(cfg, Init(printers), steps)
    ensures Work(cfg, Init(printers), steps, j) + Rank(cfg, After(cfg, Init(printers), steps), j)
         <= PerRequest(cfg) * Requests(After(cfg, Init(printers), steps), j)
    decreases |steps|
  {
    if steps != [] {
      var init := steps[..|steps| - 1];
      var s := After(cfg, Init(printers), init);
      WorkIsBounded(cfg, printers, init, j);
      SoundRun(cfg, printers, init);
      AskedStep(cfg, s, steps[|steps| - 1], j);
      assert PerRequest(cfg) * (Requests(s, j) + 1) == PerRequest(cfg) * Requests(s, j) + PerRequest(cfg);
    }
  }

  // ---------------------------------------------------------------- backoff delays

  function TotalDelay(cfg: Config, n: nat): real {
    if n == 0 then 0.0 else TotalDelay(cfg, n - 1) + Delay(cfg, n)
  }

  /** The first wait is the base, and each next one is twice the last, up to the cap. */
  lemma DelaysDouble(cfg: Config, n: nat)
    requires n >= 1 && cfg.retryBase >= 0.0 && cfg.retryMax >= 0.0
    ensures Delay(cfg, 1) == if cfg.retryBase <= cfg.retryMax then cfg.retryBase else cfg.retryMax
    ensures Delay(cfg, n + 1) == if 2.0 * Delay(cfg, n) <= cfg.retryMax then 2.0 * Delay(cfg, n) else cfg.retryMax
  {
    var d := cfg.retryBase * (Pow2(n - 1) as real);
    assert Pow2(n) == 2 * Pow2(n - 1) && Pow2(0) == 1;
    assert cfg.retryBase * (Pow2(n) as real) == 2.0 * d;
  }

  /** The waits are capped and never shrink. */
  lemma DelaysGrow(cfg: Config, n: nat)
    requires n >= 1 && cfg.retryBase >= 0.0
    ensures Delay(cfg, n) <= cfg.retryMax && Delay(cfg, n) <= Delay(cfg, n + 1)
  {
    var d := cfg.retryBase * (Pow2(n - 1) as real);
    assert Pow2(n) == 2 * Pow2(n - 1);
    assert cfg.retryBase * (Pow2(n) as real) == 2.0 * d;
  }

  /** All the waits a job can go through in one round add up to at most either bound. */
  lemma {:induction false} DelaysAddUp(cfg: Config, n: nat)
    ensures TotalDelay(cfg, n) <= cfg.retryBase * ((Pow2(n) - 1) as real)
    ensures TotalDelay(cfg, n) <= (n as real) * cfg.retryMax
  {
    if n > 0 {
      DelaysAddUp(cfg, n - 1);
      var p := Pow2(n - 1) as real;
      assert (Pow2(n) - 1) as real == (p - 1.0) + p;
      assert cfg.retryBase * ((p - 1.0) + p) == cfg.retryBase * (p - 1.0) + cfg.retryBase * p;
      assert (n as real) * cfg.retryMax == ((n - 1) as real) * cfg.retryMax + cfg.retryMax;
    }
  }
}
