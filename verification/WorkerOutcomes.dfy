/** What became of a job, as its row tells it: over every run, done and uncertain go back to how the last send
    ended, the delivery column to the last send that was delivered, and an audit row to the send it is about. */
module WorkerOutcomes {
  import opened Basics
  import opened JobTable
  import opened Pools
  import opened WorkerModel
  import opened WorkerSafety
  import opened WorkerDelivery

  // ---------------------------------------------------------------- one return

  /** How a row looks after its send ended. */
  predicate RowTells(cfg: Config, was: Job, now: Job, attempts: nat, outcome: Outcome, at: Instant) {
    match outcome
    case Delivered(completed) =>
      now == was.(status := Done, delivery := Some(if completed then Completed else Sent))
    case MidSend(err) => now == was.(status := Uncertain, lastError := Some(err))
    case TimedOut => now == was.(status := Uncertain, lastError := Some("send timed out"))
    case Threw(_) => now == was
    case _ =>
      if attempts + 1 >= cfg.maxAttempts then
        now == was.(status := Dead, attempts := attempts + 1, lastError := Some(outcome.err))
      else
        now == was.(status := Queued, attempts := attempts + 1, lastError := Some(outcome.err),
                    nextAttemptAt := Some(at + Delay(cfg, attempts + 1)))
  }

  /** What its task still owes the print audit: a row only for a send that was delivered or may have been. */
  function NoteOf(target: PrinterId, outcome: Outcome): Option<Note> {
    match outcome
    case Delivered(completed) => Some(Note(target, Some(if completed then Completed else Sent)))
    case MidSend(_) => Some(Note(target, None))
    case TimedOut => Some(Note(target, None))
    case _ => None
  }

  /** From any state of a run: the row, the lock and the task after a send has ended. */
  lemma ReturnTells(cfg: Config, s: World, t: TaskId, outcome: Outcome, now: Instant)
    requires Enabled(s, Return(t, outcome, now)) && Sound(cfg, s)
    ensures var j, ph := s.mem.tasks[t].job, s.mem.tasks[t].phase;
            var s' := Apply(cfg, s, Return(t, outcome, now));
            && j in s.db.jobs && j in s'.db.jobs
            && RowTells(cfg, s.db.jobs[j], s'.db.jobs[j], ph.attempts, outcome, now)
            && s'.mem.locks == (if Serialized(ph.target.kind) then s.mem.locks - {ph.target.id} else s.mem.locks)
            && var next := s'.mem.tasks[t].phase;
               && (next.Wrapping? ==> next.note == NoteOf(ph.target.id, outcome))
               && (NoteOf(ph.target.id, outcome).Some? ==> next.Wrapping?)
               && (outcome.Threw? ==> next == Crashed(outcome.err))
  {
    var j, ph := s.mem.tasks[t].job, s.mem.tasks[t].phase;
    assert Grounded(s.db.jobs, j, ph);
    NextTells(cfg, s, t, outcome, now);
  }

  lemma NextTells(cfg: Config, s: World, t: TaskId, outcome: Outcome, now: Instant)
    requires t in s.mem.tasks && PhaseAllows(s.mem, Return(t, outcome, now))
    ensures var e := TaskEffect(cfg, s, Return(t, outcome, now));
            && e.next.Some?
            && (e.next.value.Wrapping? ==>
                  e.next.value.note == NoteOf(s.mem.tasks[t].phase.target.id, outcome))
            && (NoteOf(s.mem.tasks[t].phase.target.id, outcome).Some? ==> e.next.value.Wrapping?)
            && (outcome.Threw? ==> e.next == Some(Crashed(outcome.err)))
  {
  }

  // ---------------------------------------------------------------- what the row goes back to

  /** The last word on job j: the end of a send of it, or an operator's resolution. */
  datatype Word = NoWord | Ended(outcome: Outcome) | Resolved(asDone: bool)

  function WordOf(s: World, step: Step, j: JobId, before: Word): Word {
    match step
    case Return(t, outcome, _) => if t in s.mem.tasks && s.mem.tasks[t].job == j then Ended(outcome) else before
    case Resolve(k, asDone) =>
      if k == j && j in s.db.jobs && s.db.jobs[j].status == Uncertain then Resolved(asDone) else before
    case _ => before
  }

  ghost function LastWord(cfg: Config, w: World, steps: seq<Step>, j: JobId): Word
    requires IsRun(cfg, w, steps)
    decreases |steps|
  {
    if steps == [] then NoWord
    else
      var init := steps[..|steps| - 1];
      WordOf(After(cfg, w, init), steps[|steps| - 1], j, LastWord(cfg, w, init, j))
  }

  /** The delivery of the last send of job j that was delivered. */
  function DeliveryAfter(s: World, step: Step, j: JobId, before: Option<Delivery>): Option<Delivery> {
    if step.Return? && step.outcome.Delivered? && step.t in s.mem.tasks && s.mem.tasks[step.t].job == j
    then Some(if step.outcome.completed then Completed else Sent)
    else before
  }

  ghost function LastDelivery(cfg: Config, w: World, steps: seq<Step>, j: JobId): Option<Delivery>
    requires IsRun(cfg, w, steps)
    decreases |steps|
  {
    if steps == [] then None
    else
      var init := steps[..|steps| - 1];
      DeliveryAfter(After(cfg, w, init), steps[|steps| - 1], j, LastDelivery(cfg, w, init, j))
  }

  predicate Backs(word: Word, status: Status) {
    && (status == Done ==> (word.Ended? && word.outcome.Delivered?) || word == Resolved(true))
    && (status == Uncertain ==> word.Ended? && (word.outcome.MidSend? || word.outcome.TimedOut?))
  }

  ghost predicate Told(s: World, j: JobId, word: Word, delivery: Option<Delivery>) {
    && (j !in s.issued ==> delivery == None)
    && (j in s.db.jobs ==> Backs(word, s.db.jobs[j].status) && s.db.jobs[j].delivery == delivery)
  }

  /** What a task's other steps leave alone. */
  lemma OtherMarks(cfg: Config, s: World, step: Step)
    requires TaskStep(step) && step.t in s.mem.tasks && PhaseAllows(s.mem, step) && !step.Return?
    ensures var e := TaskEffect(cfg, s, step);
            e.mark.Some? ==>
              e.mark.value.delivery.None? && e.mark.value.status != Done && e.mark.value.status != Uncertain
  {
  }

  lemma OtherTells(cfg: Config, s: World, step: Step, j: JobId, word: Word, delivery: Option<Delivery>)
    requires TaskStep(step) && Enabled(s, step) && !step.Return? && Told(s, j, word, delivery)
    ensures Told(Apply(cfg, s, step), j, word, delivery)
  {
    OtherMarks(cfg, s, step);
  }

  lemma TaskTells(cfg: Config, s: World, step: Step, j: JobId, word: Word, delivery: Option<Delivery>)
    requires TaskStep(step) && Enabled(s, step) && Sound(cfg, s) && Told(s, j, word, delivery)
    ensures Told(Apply(cfg, s, step), j, WordOf(s, step, j, word), DeliveryAfter(s, step, j, delivery))
  {
    if step.Return? {
      ReturnTells(cfg, s, step.t, step.outcome, step.now);
      OneRow(cfg, s, step, j);
    } else {
      OtherTells(cfg, s, step, j, word, delivery);
    }
  }

  /** A task's step changes no row but its own job's. */
  lemma OneRow(cfg: Config, s: World, step: Step, j: JobId)
    requires TaskStep(step) && Enabled(s, step) && Sound(cfg, s)
    ensures var s' := Apply(cfg, s, step);
            && s'.issued == s.issued && (j in s'.db.jobs <==> j in s.db.jobs)
            && (s.mem.tasks[step.t].job != j && j in s.db.jobs ==> s'.db.jobs[j] == s.db.jobs[j])
            && (step.Return? && s.mem.tasks[step.t].job == j ==> j in s.issued)
  {
    assert Grounded(s.db.jobs, s.mem.tasks[step.t].job, s.mem.tasks[step.t].phase);
  }

  lemma CallTells(cfg: Config, s: World, step: Step, j: JobId, word: Word, delivery: Option<Delivery>)
    requires OutsideStep(step) && Enabled(s, step) && s.db.jobs.Keys <= s.issued && Told(s, j, word, delivery)
    ensures Told(ApplyOutside(cfg, s, step), j, WordOf(s, step, j, word), DeliveryAfter(s, step, j, delivery))
  {
  }

  lemma ToldStep(cfg: Config, s: World, step: Step, j: JobId, word: Word, delivery: Option<Delivery>)
    requires Enabled(s, step) && Sound(cfg, s) && Told(s, j, word, delivery)
    ensures Told(Apply(cfg, s, step), j, WordOf(s, step, j, word), DeliveryAfter(s, step, j, delivery))
  {
    if TaskStep(step) {
      TaskTells(cfg, s, step, j, word, delivery);
    } else if OutsideStep(step) {
      CallTells(cfg, s, step, j, word, delivery);
    }
  }

  lemma {:induction false} ToldRun(cfg: Config, printers: Printers, steps: seq<Step>, j: JobId)
    requires IsRun(cfg, Init(printers), steps)
    ensures Told(After(cfg, Init(printers), steps), j, LastWord(cfg, Init(printers), steps, j),
                 LastDelivery(cfg, Init(printers), steps, j))
    decreases |steps|
  {
    if steps != [] {
      var w, init := Init(printers), steps[..|steps| - 1];
      ToldRun(cfg, printers, init, j);
      SoundRun(cfg, printers, init);
      ToldStep(cfg, After(cfg, w, init), steps[|steps| - 1], j, LastWord(cfg, w, init, j),
               LastDelivery(cfg, w, init, j));
    }
  }

  /** Over every run: a job is done only because its last send was delivered or an operator said so, and uncertain
      only because its last send broke off or timed out. */
  lemma StatusTellsOutcome(cfg: Config, printers: Printers, steps: seq<Step>, j: JobId)
    requires IsRun(cfg, Init(printers), steps) && j in After(cfg, Init(printers), steps).db.jobs
    ensures var status, word := After(cfg, Init(printers), steps).db.jobs[j].status,
                                LastWord(cfg, Init(printers), steps, j);
            && (status == Done ==> (word.Ended? && word.outcome.Delivered?) || word == Resolved(true))
            && (status == Uncertain ==> word.Ended? && (word.outcome.MidSend? || word.outcome.TimedOut?))
  {
    ToldRun(cfg, printers, steps, j);
  }

  /** And its delivery column says completed exactly when the last send that was delivered returned completed. */
  lemma DeliveryTellsOutcome(cfg: Config, printers: Printers, steps: seq<Step>, j: JobId)
    requires IsRun(cfg, Init(printers), steps) && j in After(cfg, Init(printers), steps).db.jobs
    ensures After(cfg, Init(printers), steps).db.jobs[j].delivery == LastDelivery(cfg, Init(printers), steps, j)
  {
    ToldRun(cfg, printers, steps, j);
  }

  // ---------------------------------------------------------------- what an audit row goes back to

  /** The note is about the last send of task t: where it went and how it ended. */
  ghost predicate NotedBy(cfg: Config, w: World, steps: seq<Step>, t: TaskId, note: Note)
    requires IsRun(cfg, w, steps)
    decreases |steps|
  {
    steps != [] &&
    var init, last := steps[..|steps| - 1], steps[|steps| - 1];
    var m := After(cfg, w, init).mem;
    if last.Return? && last.t == t then
      t in m.tasks && m.tasks[t].phase.Sending? && NoteOf(m.tasks[t].phase.target.id, last.outcome) == Some(note)
    else NotedBy(cfg, w, init, t, note)
  }

  ghost predicate Noted(cfg: Config, w: World, steps: seq<Step>, t: TaskId)
    requires IsRun(cfg, w, steps)
  {
    var m := After(cfg, w, steps).mem;
    t in m.tasks && m.tasks[t].phase.Wrapping? && m.tasks[t].phase.note.Some? ==>
      NotedBy(cfg, w, steps, t, m.tasks[t].phase.note.value)
  }

  /** Only the end of a send leaves a note. */
  lemma NoteNext(cfg: Config, s: World, step: Step, t: TaskId)
    requires Enabled(s, step) && t in Apply(cfg, s, step).mem.tasks
    requires var ph := Apply(cfg, s, step).mem.tasks[t].phase; ph.Wrapping? && ph.note.Some?
    ensures t in s.mem.tasks
    ensures var note := Apply(cfg, s, step).mem.tasks[t].phase.note;
            if step.Return? && step.t == t then
              s.mem.tasks[t].phase.Sending? && note == NoteOf(s.mem.tasks[t].phase.target.id, step.outcome)
            else s.mem.tasks[t].phase == Wrapping(note)
  {
    if step.Return? {
      NextTells(cfg, s, step.t, step.outcome, step.now);
    }
  }

  /** Over every run: the audit row a task is about to write names the printer its last send went to and says how
      that send ended. */
  lemma {:induction false} NotesAreTrue(cfg: Config, w: World, steps: seq<Step>, t: TaskId)
    requires IsRun(cfg, w, steps) && w.mem.tasks == map[]
    ensures Noted(cfg, w, steps, t)
    decreases |steps|
  {
    if steps != [] {
      var init, last := steps[..|steps| - 1], steps[|steps| - 1];
      NotesAreTrue(cfg, w, init, t);
      var m := After(cfg, w, steps).mem;
      if t in m.tasks && m.tasks[t].phase.Wrapping? && m.tasks[t].phase.note.Some? {
        NoteNext(cfg, After(cfg, w, init), last, t);
      }
    }
  }
}
