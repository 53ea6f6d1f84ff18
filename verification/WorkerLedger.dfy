/** The print audit over every run: each row a task writes is backed by a send of its own. */
module WorkerLedger {
  import opened Basics
  import opened JobTable
  import opened Pools
  import opened WorkerModel
  import opened WorkerSafety
  import opened WorkerDelivery
  import opened WorkerTermination

  /** A row of the print audit: the job, where it was sent, and how that ended. */
  datatype PrintRow = PrintRow(job: JobId, note: Note)

  function Written(m: Memory, step: Step): seq<PrintRow> {
    if step.Wrap? && step.audited && step.t in m.tasks && m.tasks[step.t].phase.Wrapping?
       && m.tasks[step.t].phase.note.Some?
    then [PrintRow(m.tasks[step.t].job, m.tasks[step.t].phase.note.value)]
    else []
  }

  /** The rows a run writes, in order. */
  ghost function Ledger(cfg: Config, s: World, steps: seq<Step>): seq<PrintRow>
    requires IsRun(cfg, s, steps)
    decreases |steps|
  {
    if steps == [] then []
    else
      var init := steps[..|steps| - 1];
      Ledger(cfg, s, init) + Written(After(cfg, s, init).mem, steps[|steps| - 1])
  }

  function RowsOf(rows: seq<PrintRow>, j: JobId): nat {
    if rows == [] then 0 else RowsOf(rows[..|rows| - 1], j) + (if rows[|rows| - 1].job == j then 1 else 0)
  }

  lemma RowsOfAppend(rows: seq<PrintRow>, more: seq<PrintRow>, j: JobId)
    requires |more| <= 1
    ensures RowsOf(rows + more, j) == RowsOf(rows, j) + RowsOf(more, j)
  {
    if more == [] {
      assert rows + more == rows;
    } else {
      assert (rows + more)[..|rows|] == rows && more[..0] == [];
    }
  }

  /** A send that may have streamed and whose row is still to come: it is on the wire, or its task is about to
      write the row. */
  function Owed(ph: Option<Phase>): nat {
    if ph.Some? && ((ph.value.Sending? && ph.value.streamed) || (ph.value.Wrapping? && ph.value.note.Some?)) then 1
    else 0
  }

  /** A step by which no row is lost: no restart, no exception out of a send or before the row, and no broken
      contract. */
  predicate Calm(m: Memory, step: Step) {
    && !step.Restart?
    && (step.Return? ==> !step.outcome.Threw?)
    && (step.Wrap? && step.t in m.tasks && m.tasks[step.t].phase.Wrapping? && m.tasks[step.t].phase.note.Some?
        ==> step.audited)
    && Honest(m, step)
  }

  // ---------------------------------------------------------------- one step

  /** What a task's step does to its debt. */
  predicate Pays(ph: Phase, e: Effect, written: nat, calm: bool) {
    var owed, due := written + Owed(e.next), Owed(Some(ph)) + (if e.streams then 1 else 0);
    owed <= due && (calm ==> owed == due)
  }

  lemma EffectPays(cfg: Config, s: World, step: Step)
    requires TaskStep(step) && step.t in s.mem.tasks && PhaseAllows(s.mem, step)
    ensures Pays(s.mem.tasks[step.t].phase, TaskEffect(cfg, s, step), |Written(s.mem, step)|, Calm(s.mem, step))
    ensures forall i :: 0 <= i < |Written(s.mem, step)| ==> Written(s.mem, step)[i].job == s.mem.tasks[step.t].job
  {
  }

  lemma PerformCounts(h: seq<Event>, streams: bool, owner: JobId, j: JobId)
    ensures Count(if streams then h + [MayHaveStreamed(owner)] else h, j, Streams)
         == Count(h, j, Streams) + (if streams && owner == j then 1 else 0)
  {
    if streams {
      CountNext(h, MayHaveStreamed(owner), j, Streams);
    }
  }

  lemma PerformOwes(s: World, t: TaskId, e: Effect, j: JobId)
    requires t in s.mem.tasks && Registered(s.mem)
    ensures var s', mine := Perform(s, t, e), s.mem.tasks[t].job == j;
            && Count(s'.history, j, Streams) == Count(s.history, j, Streams) + (if e.streams && mine then 1 else 0)
            && PhaseOf(s'.mem, j) == (if mine then e.next else PhaseOf(s.mem, j))
            && (mine ==> PhaseOf(s.mem, j) == Some(s.mem.tasks[t].phase))
  {
    PhaseAfter(s.mem, t, e, j);
    PerformCounts(s.history, e.streams, s.mem.tasks[t].job, j);
  }

  lemma TakenOwes(s: World, t: TaskId, j: JobId)
    requires s.mem.batch != [] && t !in s.mem.tasks && Registered(s.mem)
    ensures var s' := Taken(s, t);
            Count(s'.history, j, Streams) == Count(s.history, j, Streams)
            && Owed(PhaseOf(s'.mem, j)) == Owed(PhaseOf(s.mem, j))
  {
    var s' := Taken(s, t);
    if Wins(s) {
      CountNext(s.history, Claimed(s.mem.batch[0], s.mem.batchAt), j, Streams);
      assert PhaseOf(s'.mem, j) == if j == s.mem.batch[0] then Some(Waiting) else PhaseOf(s.mem, j);
    } else {
      assert PhaseOf(s'.mem, j) == PhaseOf(s.mem, j);
    }
  }

  lemma OutsideOwes(cfg: Config, s: World, step: Step, j: JobId)
    requires OutsideStep(step)
    ensures Count(ApplyOutside(cfg, s, step).history, j, Streams) == Count(s.history, j, Streams)
  {
    var e := OutsideEvent(cfg, s, step);
    OutsideLogs(cfg, s, step);
    if e.Some? {
      CountNext(s.history, e.value, j, Streams);
    }
  }

  /** The balance after the step: rows written and owed against sends that may have streamed. */
  ghost predicate Balances(s: World, rows: nat, j: JobId, calm: bool) {
    var n := Count(s.history, j, Streams);
    rows + Owed(PhaseOf(s.mem, j)) <= n && (calm ==> rows + Owed(PhaseOf(s.mem, j)) == n)
  }

  lemma TaskBalances(cfg: Config, s: World, step: Step, rows: nat, j: JobId, calm: bool)
    requires TaskStep(step) && Enabled(s, step) && Registered(s.mem) && Balances(s, rows, j, calm)
    ensures Balances(Perform(s, step.t, TaskEffect(cfg, s, step)), rows + RowsOf(Written(s.mem, step), j), j,
                     calm && Calm(s.mem, step))
  {
    EffectPays(cfg, s, step);
    PerformOwes(s, step.t, TaskEffect(cfg, s, step), j);
    RowsOfAppend([], Written(s.mem, step), j);
  }

  lemma BalancesStep(cfg: Config, s: World, step: Step, rows: nat, j: JobId, calm: bool)
    requires Enabled(s, step) && Registered(s.mem) && Balances(s, rows, j, calm)
    ensures Balances(Apply(cfg, s, step), rows + RowsOf(Written(s.mem, step), j), j, calm && Calm(s.mem, step))
  {
    if TaskStep(step) {
      TaskBalances(cfg, s, step, rows, j, calm);
    } else if step.Take? {
      TakenOwes(s, step.t, j);
    } else if OutsideStep(step) {
      OutsideOwes(cfg, s, step, j);
    }
  }

  // ---------------------------------------------------------------- whole runs

  ghost predicate CalmRun(cfg: Config, s: World, steps: seq<Step>)
    requires IsRun(cfg, s, steps)
    decreases |steps|
  {
    steps == [] ||
    (CalmRun(cfg, s, steps[..|steps| - 1]) && Calm(After(cfg, s, steps[..|steps| - 1]).mem, steps[|steps| - 1]))
  }

  lemma {:induction false} RunBalances(cfg: Config, printers: Printers, steps: seq<Step>, j: JobId)
    requires IsRun(cfg, Init(printers), steps)
    ensures Balances(After(cfg, Init(printers), steps), RowsOf(Ledger(cfg, Init(printers), steps), j), j,
                     CalmRun(cfg, Init(printers), steps))
    decreases |steps|
  {
    if steps != [] {
      var w, init, last := Init(printers), steps[..|steps| - 1], steps[|steps| - 1];
      RunBalances(cfg, printers, init, j);
      MutualExclusion(cfg, printers, init);
      BalancesStep(cfg, After(cfg, w, init), last, RowsOf(Ledger(cfg, w, init), j), j, CalmRun(cfg, w, init));
      RowsOfAppend(Ledger(cfg, w, init), Written(After(cfg, w, init).mem, last), j);
    }
  }

  /** Over every run, contract or not: the print audit holds no more rows for a job than sends of it may have
      streamed, and one less while a row is still owed. */
  lemma RowsAreBacked(cfg: Config, printers: Printers, steps: seq<Step>, j: JobId)
    requires IsRun(cfg, Init(printers), steps)
    ensures var s := After(cfg, Init(printers), steps);
            RowsOf(Ledger(cfg, Init(printers), steps), j) + Owed(PhaseOf(s.mem, j)) <= Count(s.history, j, Streams)
  {
    RunBalances(cfg, printers, steps, j);
  }

  /** On a run by which no row is lost the audit misses none: every send that may have streamed has its row, or
      still owes it. */
  lemma CalmRowsAreExact(cfg: Config, printers: Printers, steps: seq<Step>, j: JobId)
    requires IsRun(cfg, Init(printers), steps) && CalmRun(cfg, Init(printers), steps)
    ensures var s := After(cfg, Init(printers), steps);
            RowsOf(Ledger(cfg, Init(printers), steps), j) + Owed(PhaseOf(s.mem, j)) == Count(s.history, j, Streams)
  {
    RunBalances(cfg, printers, steps, j);
  }

  lemma {:induction false} CountBySince(h: seq<Event>, j: JobId)
    requires Bounded(h, j, Streams, 1)
    ensures Count(h, j, Streams) <= RequeuesOf(h, j) + CountSince(h, j, Streams)
  {
    if h != [] {
      CountBySince(h[..|h| - 1], j);
    }
  }

  /** With honest backends a job is audited at most once for its submission and once more a requeue. */
  lemma RowsPerRequest(cfg: Config, printers: Printers, steps: seq<Step>, j: JobId)
    requires IsRun(cfg, Init(printers), steps) && HonestRun(cfg, Init(printers), steps)
    ensures RowsOf(Ledger(cfg, Init(printers), steps), j)
         <= 1 + RequeuesOf(After(cfg, Init(printers), steps).history, j)
  {
    RowsAreBacked(cfg, printers, steps, j);
    StreamsRun(cfg, printers, steps, j);
    CountBySince(After(cfg, Init(printers), steps).history, j);
  }
}
