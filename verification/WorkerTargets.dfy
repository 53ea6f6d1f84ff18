/** Where a job is sent: over every run, the printer a task sends to is the one the job names, or the member of
    that pool that answered first; and no two tasks send to one byte stream. */
module WorkerTargets {
  import opened Basics
  import opened JobTable
  import opened Pools
  import opened PoolRouting
  import opened WorkerModel
  import opened WorkerSafety

  predicate HasTarget(ph: Phase) {
    ph.Routed? || ph.LockWait? || ph.Sending?
  }

  // ---------------------------------------------------------------- one choice

  /** The candidates for a pool: all its listed members that exist, as listed or around the circle from the
      cursor. */
  ghost predicate CandidatesOf(printers: Printers, ids: seq<PrinterId>, roundRobin: bool, cursor: nat,
                               candidates: seq<Printer>)
  {
    exists members: seq<Printer>, at: seq<nat> ::
      && PickedAt(printers, ids, members, at) && NoneLeftOut(printers, ids, at) && |candidates| == |members|
      && (forall i :: 0 <= i < |members| ==> !members[i].kind.Pool?)
      && forall i :: 0 <= i < |members| ==>
           candidates[i] == members[if roundRobin then Around(cursor, |members|, i) else i]
  }

  lemma OrderIsCandidates(printers: Printers, ids: seq<PrinterId>, roundRobin: bool, cursors: Cursors, pool: PrinterId)
    requires Members(printers, ids).Ok?
    ensures CandidatesOf(printers, ids, roundRobin, CursorOf(cursors, pool),
                         Order(Members(printers, ids).value, roundRobin, cursors, pool))
  {
    var at := MembersExactly(printers, ids);
    var members := Members(printers, ids).value;
    forall i | 0 <= i < |members|
      ensures Order(members, roundRobin, cursors, pool)[i]
           == members[if roundRobin then Around(CursorOf(cursors, pool), |members|, i) else i]
    {
      OrderExactly(members, roundRobin, cursors, pool, i);
    }
    assert PickedAt(printers, ids, members, at) && NoneLeftOut(printers, ids, at);
  }

  /** What a task makes of its job when it loads it: a printer of its own is the target, a pool's members are
      candidates, and anything missing or nested is an exception. */
  lemma LoadChooses(cfg: Config, s: World, t: TaskId)
    requires Enabled(s, Load(t))
    ensures var j := s.mem.tasks[t].job;
            var next := TaskEffect(cfg, s, Load(t)).next;
            if j !in s.db.jobs then next == Some(Crashed("not_found"))
            else if s.db.jobs[j].printer !in s.printers then next == Some(Crashed("unknown_printer"))
            else
              var p := s.printers[s.db.jobs[j].printer];
              if !p.kind.Pool? then next == Some(Routed(s.db.jobs[j].attempts, p))
              else if exists i :: 0 <= i < |p.kind.members| && p.kind.members[i] in s.printers
                                  && s.printers[p.kind.members[i]].kind.Pool? then
                next == Some(Crashed("validation_error"))
              else
                && next.Some? && next.value.Routing? && next.value.attempts == s.db.jobs[j].attempts
                && CandidatesOf(s.printers, p.kind.members, p.kind.roundRobin, CursorOf(s.mem.cursors, p.id),
                                next.value.candidates)
  {
    var j := s.mem.tasks[t].job;
    if j in s.db.jobs && s.db.jobs[j].printer in s.printers {
      var p := s.printers[s.db.jobs[j].printer];
      if p.kind.Pool? {
        var at := MembersExactly(s.printers, p.kind.members);
        if Members(s.printers, p.kind.members).Ok? {
          OrderIsCandidates(s.printers, p.kind.members, p.kind.roundRobin, s.mem.cursors, p.id);
        }
      }
    }
  }

  /** Loading a job of a pool that rotates moves that pool's cursor one on, around the circle, and no other's;
      loading any other job moves none. */
  lemma LoadAdvances(cfg: Config, s: World, t: TaskId, other: PrinterId)
    requires Enabled(s, Load(t)) && s.mem.tasks[t].job in s.db.jobs
    requires s.db.jobs[s.mem.tasks[t].job].printer in s.printers
    ensures var p := s.printers[s.db.jobs[s.mem.tasks[t].job].printer];
            var s' := Apply(cfg, s, Load(t));
            var rotates := p.kind.Pool? && p.kind.roundRobin && s'.mem.tasks[t].phase.Routing?
                           && s'.mem.tasks[t].phase.candidates != [];
            && (rotates ==>
                  CursorOf(s'.mem.cursors, p.id)
                  == Around(CursorOf(s.mem.cursors, p.id), |s'.mem.tasks[t].phase.candidates|, 1))
            && (!rotates || other != p.id ==> CursorOf(s'.mem.cursors, other) == CursorOf(s.mem.cursors, other))
  {
  }

  /** The first candidate that answered is the target; if none did the attempt failed. */
  lemma RouteChooses(cfg: Config, s: World, t: TaskId, up: seq<bool>, now: Instant, k: nat)
    requires Enabled(s, Route(t, up, now)) && k <= |up|
    requires (forall e :: 0 <= e < k ==> !up[e]) && (k < |up| ==> up[k])
    ensures var ph := s.mem.tasks[t].phase;
            var e := TaskEffect(cfg, s, Route(t, up, now));
            && (k < |up| ==> e == GoTo(Routed(ph.attempts, ph.candidates[k])))
            && (k == |up| ==>
                  && e.mark.Some? && e.mark.value.attempts == Some(ph.attempts + 1)
                  && e.mark.value.status == (if ph.attempts + 1 >= cfg.maxAttempts then Dead else Queued)
                  && e.mark.value.lastError
                     == Some(Some(if k == 0 then "pool has no members" else "no pool member is reachable")))
  {
    FirstUpIs(up, k);
  }

  lemma FirstUpIs(up: seq<bool>, k: nat)
    requires k <= |up| && (forall e :: 0 <= e < k ==> !up[e]) && (k < |up| ==> up[k])
    ensures FirstUp(up) == if k < |up| then Some(k) else None
  {
  }

  // ---------------------------------------------------------------- the last choice of a run

  /** Task t begins afresh, or all tasks end. */
  predicate Forgets(step: Step, t: TaskId) {
    step.Restart? || step == Take(t)
  }

  /** The candidates are what task t made of job j's pool when it last loaded it. */
  ghost predicate ListedBy(cfg: Config, w: World, steps: seq<Step>, t: TaskId, j: JobId, candidates: seq<Printer>)
    requires IsRun(cfg, w, steps)
    decreases |steps|
  {
    steps != [] &&
    var init, last := steps[..|steps| - 1], steps[|steps| - 1];
    !Forgets(last, t) &&
    if last == Load(t) then
      var s := After(cfg, w, init);
      && j in s.db.jobs && s.db.jobs[j].printer in s.printers
      && var p := s.printers[s.db.jobs[j].printer];
         p.kind.Pool?
         && CandidatesOf(s.printers, p.kind.members, p.kind.roundRobin, CursorOf(s.mem.cursors, p.id), candidates)
    else ListedBy(cfg, w, init, t, j, candidates)
  }

  /** The target is what task t last chose for job j: the job's own printer as it was when the task loaded it, or
      the first of its pool's candidates that answered. */
  ghost predicate ChosenBy(cfg: Config, w: World, steps: seq<Step>, t: TaskId, j: JobId, target: Printer)
    requires IsRun(cfg, w, steps)
    decreases |steps|
  {
    steps != [] &&
    var init, last := steps[..|steps| - 1], steps[|steps| - 1];
    !Forgets(last, t) &&
    var s := After(cfg, w, init);
    if last == Load(t) then
      && j in s.db.jobs && s.db.jobs[j].printer in s.printers
      && target == s.printers[s.db.jobs[j].printer] && !target.kind.Pool?
    else if last.Route? && last.t == t then
      exists candidates: seq<Printer>, k: nat ::
        && ListedBy(cfg, w, init, t, j, candidates)
        && k < |last.up| && |last.up| == |candidates| && target == candidates[k]
        && last.up[k] && forall e :: 0 <= e < k ==> !last.up[e]
    else ChosenBy(cfg, w, init, t, j, target)
  }

  /** Every task that has candidates or a target has them from its last choice. */
  ghost predicate Traced(cfg: Config, w: World, steps: seq<Step>, t: TaskId)
    requires IsRun(cfg, w, steps)
  {
    var m := After(cfg, w, steps).mem;
    t in m.tasks ==>
      && (m.tasks[t].phase.Routing? ==> ListedBy(cfg, w, steps, t, m.tasks[t].job, m.tasks[t].phase.candidates))
      && (HasTarget(m.tasks[t].phase) ==> ChosenBy(cfg, w, steps, t, m.tasks[t].job, m.tasks[t].phase.target))
  }

  /** A step that chooses nothing hands candidates and target on. */
  lemma TargetKept(cfg: Config, s: World, step: Step)
    requires TaskStep(step) && step.t in s.mem.tasks && PhaseAllows(s.mem, step) && !step.Load? && !step.Route?
    ensures var ph, next := s.mem.tasks[step.t].phase, TaskEffect(cfg, s, step).next;
            next.Some? ==>
              && !next.value.Routing?
              && (HasTarget(next.value) ==> HasTarget(ph) && next.value.target == ph.target)
  {
  }

  /** The phase of a task after a step: its own next phase, or what it was, or Waiting if it has just begun. */
  lemma PhaseNext(cfg: Config, s: World, step: Step, t: TaskId)
    requires Enabled(s, step) && t in Apply(cfg, s, step).mem.tasks
    ensures !step.Restart?
    ensures var task := Apply(cfg, s, step).mem.tasks[t];
            if TaskStep(step) && step.t == t then
              t in s.mem.tasks && task.job == s.mem.tasks[t].job && TaskEffect(cfg, s, step).next == Some(task.phase)
            else if step == Take(t) then task.phase.Waiting?
            else t in s.mem.tasks && task == s.mem.tasks[t]
  {
  }

  lemma TracedByLoad(cfg: Config, w: World, init: seq<Step>, t: TaskId)
    requires IsRun(cfg, w, init) && Enabled(After(cfg, w, init), Load(t)) && IsRun(cfg, w, init + [Load(t)])
    requires (init + [Load(t)])[..|init|] == init
    ensures Traced(cfg, w, init + [Load(t)], t)
  {
    var s := After(cfg, w, init);
    LoadChooses(cfg, s, t);
    if t in Apply(cfg, s, Load(t)).mem.tasks {
      PhaseNext(cfg, s, Load(t), t);
    }
  }

  lemma FirstAnswer(up: seq<bool>) returns (k: nat)
    ensures k <= |up| && (forall e :: 0 <= e < k ==> !up[e]) && (k < |up| ==> up[k])
  {
    k := 0;
    while k < |up| && !up[k]
      invariant k <= |up| && forall e :: 0 <= e < k ==> !up[e]
    {
      k := k + 1;
    }
  }

  lemma ChosenByRoute(cfg: Config, w: World, init: seq<Step>, step: Step, j: JobId, candidates: seq<Printer>, k: nat)
    requires step.Route? && IsRun(cfg, w, init) && IsRun(cfg, w, init + [step]) && (init + [step])[..|init|] == init
    requires ListedBy(cfg, w, init, step.t, j, candidates) && |step.up| == |candidates|
    requires k < |step.up| && step.up[k] && forall e :: 0 <= e < k ==> !step.up[e]
    ensures ChosenBy(cfg, w, init + [step], step.t, j, candidates[k])
  {
  }

  /** Where a task is after its route. */
  lemma RoutePhase(cfg: Config, s: World, step: Step, k: nat)
    requires step.Route? && Enabled(s, step) && k <= |step.up|
    requires (forall e :: 0 <= e < k ==> !step.up[e]) && (k < |step.up| ==> step.up[k])
    ensures var next, ph := TaskEffect(cfg, s, step).next, s.mem.tasks[step.t].phase;
            && next.Some? && !next.value.Routing? && |step.up| == |ph.candidates|
            && (HasTarget(next.value) ==> k < |step.up| && next.value.target == ph.candidates[k])
  {
    RouteChooses(cfg, s, step.t, step.up, step.now, k);
  }

  lemma TracedByRoute(cfg: Config, w: World, init: seq<Step>, step: Step)
    requires step.Route? && IsRun(cfg, w, init) && Enabled(After(cfg, w, init), step) && IsRun(cfg, w, init + [step])
    requires (init + [step])[..|init|] == init && Traced(cfg, w, init, step.t)
    ensures Traced(cfg, w, init + [step], step.t)
  {
    var s, t := After(cfg, w, init), step.t;
    var k := FirstAnswer(step.up);
    RoutePhase(cfg, s, step, k);
    if t in Apply(cfg, s, step).mem.tasks {
      PhaseNext(cfg, s, step, t);
      if k < |step.up| {
        ChosenByRoute(cfg, w, init, step, s.mem.tasks[t].job, s.mem.tasks[t].phase.candidates, k);
      }
    }
  }

  lemma TracedOn(cfg: Config, w: World, init: seq<Step>, step: Step, t: TaskId)
    requires IsRun(cfg, w, init) && Enabled(After(cfg, w, init), step) && IsRun(cfg, w, init + [step])
    requires (init + [step])[..|init|] == init && Traced(cfg, w, init, t)
    requires step != Load(t) && !(step.Route? && step.t == t)
    ensures Traced(cfg, w, init + [step], t)
  {
    var s := After(cfg, w, init);
    if t in Apply(cfg, s, step).mem.tasks {
      PhaseNext(cfg, s, step, t);
      if TaskStep(step) && step.t == t {
        TargetKept(cfg, s, step);
      }
    }
  }

  /** Over every run: a task sends to the printer its job named when the task loaded it, or to the first answering
      candidate of the pool it named, and to no other. */
  lemma {:induction false} TargetsAreChosen(cfg: Config, w: World, steps: seq<Step>, t: TaskId)
    requires IsRun(cfg, w, steps) && w.mem.tasks == map[]
    ensures Traced(cfg, w, steps, t)
    decreases |steps|
  {
    if steps != [] {
      var init, last := steps[..|steps| - 1], steps[|steps| - 1];
      TargetsAreChosen(cfg, w, init, t);
      assert steps == init + [last];
      if last == Load(t) {
        TracedByLoad(cfg, w, init, t);
      } else if last.Route? && last.t == t {
        TracedByRoute(cfg, w, init, last);
      } else {
        TracedOn(cfg, w, init, last, t);
      }
    }
  }

  // ---------------------------------------------------------------- one byte stream at a time

  lemma {:induction false} ListedIsConcrete(cfg: Config, w: World, steps: seq<Step>, t: TaskId, j: JobId,
                                            candidates: seq<Printer>, k: nat)
    requires IsRun(cfg, w, steps) && ListedBy(cfg, w, steps, t, j, candidates) && k < |candidates|
    ensures !candidates[k].kind.Pool?
    decreases |steps|
  {
    var init, last := steps[..|steps| - 1], steps[|steps| - 1];
    if last != Load(t) {
      ListedIsConcrete(cfg, w, init, t, j, candidates, k);
    }
  }

  /** No task has a pool for a target. */
  lemma {:induction false} ChosenIsConcrete(cfg: Config, w: World, steps: seq<Step>, t: TaskId, j: JobId,
                                            target: Printer)
    requires IsRun(cfg, w, steps) && ChosenBy(cfg, w, steps, t, j, target)
    ensures !target.kind.Pool?
    decreases |steps|
  {
    var init, last := steps[..|steps| - 1], steps[|steps| - 1];
    if last.Route? && last.t == t {
      var candidates: seq<Printer>, k: nat :|
        ListedBy(cfg, w, init, t, j, candidates)
        && k < |last.up| && |last.up| == |candidates| && target == candidates[k];
      ListedIsConcrete(cfg, w, init, t, j, candidates, k);
    } else if last != Load(t) {
      ChosenIsConcrete(cfg, w, init, t, j, target);
    }
  }

  /** Spoolers take several jobs at once: CUPS and IPP printers. */
  predicate Spools(kind: Kind) {
    kind.Cups? || kind.IppNetwork?
  }

  lemma OthersSerialize(m: Memory, t: TaskId)
    requires t in m.tasks && m.tasks[t].phase.Sending?
    requires !m.tasks[t].phase.target.kind.Pool? && !Spools(m.tasks[t].phase.target.kind)
    ensures SendsOn(m, t, m.tasks[t].phase.target.id)
  {
  }

  /** Over every run: of the printers that do not spool, whatever their kind, each is sent to by one task at a
      time. */
  lemma OneSenderEach(cfg: Config, printers: Printers, steps: seq<Step>, t: TaskId, u: TaskId)
    requires IsRun(cfg, Init(printers), steps)
    requires var m := After(cfg, Init(printers), steps).mem;
             && t in m.tasks && m.tasks[t].phase.Sending? && u in m.tasks && m.tasks[u].phase.Sending?
             && m.tasks[t].phase.target.id == m.tasks[u].phase.target.id
             && !Spools(m.tasks[t].phase.target.kind) && !Spools(m.tasks[u].phase.target.kind)
    ensures t == u
  {
    var m := After(cfg, Init(printers), steps).mem;
    TargetsAreChosen(cfg, Init(printers), steps, t);
    TargetsAreChosen(cfg, Init(printers), steps, u);
    ChosenIsConcrete(cfg, Init(printers), steps, t, m.tasks[t].job, m.tasks[t].phase.target);
    ChosenIsConcrete(cfg, Init(printers), steps, u, m.tasks[u].job, m.tasks[u].phase.target);
    OthersSerialize(m, t);
    OthersSerialize(m, u);
    MutualExclusion(cfg, printers, steps);
  }

  /** And a spooler never makes a task wait for another: its send can always begin. */
  lemma SpoolersNeverWait(s: World, t: TaskId)
    requires s.mem.batch == [] && t in s.mem.tasks && s.mem.tasks[t].phase.LockWait?
    requires Spools(s.mem.tasks[t].phase.target.kind)
    ensures Enabled(s, Lock(t))
  {
  }
}
