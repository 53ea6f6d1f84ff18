/** What a request asked for, kept over every run: its job's row holds it, its schedule is waited for, and its
    printer's daily quota is enforced. */
module WorkerRequests {
  import opened Basics
  import opened JobTable
  import opened Pools
  import opened WorkerModel
  import opened WorkerSafety
  import opened WorkerDelivery
  import opened WorkerLoad
  import opened WorkerBackoff
  import Api = PrintApi

  // ---------------------------------------------------------------- the row keeps the request

  /** The run's accepted submission of job j, which is no replay, was this one. */
  ghost predicate MadeBy(cfg: Config, w: World, steps: seq<Step>, j: JobId, req: Api.Request, draw: Api.Draw)
    requires IsRun(cfg, w, steps)
    decreases |steps|
  {
    steps != [] &&
    var init, last := steps[..|steps| - 1], steps[|steps| - 1];
    if last.Submit? && last.draw.id == j then
      && last == Submit(req, draw)
      && Api.Decide(After(cfg, w, init).db, cfg.limits, req, draw) == Api.Accepted(j, Queued, false)
    else MadeBy(cfg, w, init, j, req, draw)
  }

  /** The columns no statement sets. */
  predicate SameRequest(a: Job, b: Job) {
    && a.printer == b.printer && a.payload == b.payload && a.key == b.key && a.priority == b.priority
    && a.scheduledAt == b.scheduledAt && a.createdAt == b.createdAt
  }

  lemma CallKeepsRequest(cfg: Config, s: World, step: Step, j: JobId)
    requires OutsideStep(step) && Enabled(s, step) && j in s.issued
    ensures var jobs' := ApplyOutside(cfg, s, step).db.jobs;
            j in jobs' ==> j in s.db.jobs && SameRequest(jobs'[j], s.db.jobs[j])
  {
  }

  lemma MarkKeepsRequest(jobs: Jobs, k: JobId, f: Fields, j: JobId)
    ensures j in Mark(jobs, k, f) <==> j in jobs
    ensures j in jobs ==> SameRequest(Mark(jobs, k, f)[j], jobs[j])
  {
  }

  /** No step brings a job back or changes what it was asked for. */
  lemma StepKeepsRequest(cfg: Config, s: World, step: Step, j: JobId)
    requires Enabled(s, step) && j in s.issued
    ensures var s' := Apply(cfg, s, step);
            j in s'.issued && (j in s'.db.jobs ==> j in s.db.jobs && SameRequest(s'.db.jobs[j], s.db.jobs[j]))
  {
    if TaskStep(step) {
      var e := TaskEffect(cfg, s, step);
      if e.mark.Some? {
        MarkKeepsRequest(s.db.jobs, s.mem.tasks[step.t].job, e.mark.value, j);
      }
    } else if OutsideStep(step) {
      CallKeepsRequest(cfg, s, step, j);
    }
  }

  ghost predicate RowCarries(s: World, j: JobId, req: Api.Request, draw: Api.Draw) {
    && j in s.issued
    && (j in s.db.jobs ==> Api.Carries(s.db.jobs[j], req) && s.db.jobs[j].createdAt == draw.enqueuedAt)
  }

  lemma SubmitCarries(cfg: Config, s: World, req: Api.Request, draw: Api.Draw)
    requires Enabled(s, Submit(req, draw)) && s.db.jobs.Keys <= s.issued
    requires Api.Decide(s.db, cfg.limits, req, draw) == Api.Accepted(draw.id, Queued, false)
    ensures RowCarries(Apply(cfg, s, Submit(req, draw)), draw.id, req, draw)
  {
    Api.WritesExactly(s.db, cfg.limits, req, draw);
  }

  /** Over every run a job's row holds what its request asked for: printer, payload, key, priority and schedule. */
  lemma {:induction false} RowsCarryRequests(cfg: Config, printers: Printers, steps: seq<Step>, j: JobId,
                                             req: Api.Request, draw: Api.Draw)
    requires IsRun(cfg, Init(printers), steps) && MadeBy(cfg, Init(printers), steps, j, req, draw)
    ensures RowCarries(After(cfg, Init(printers), steps), j, req, draw)
    decreases |steps|
  {
    var w, init, last := Init(printers), steps[..|steps| - 1], steps[|steps| - 1];
    SoundRun(cfg, printers, init);
    if last.Submit? && last.draw.id == j {
      SubmitCarries(cfg, After(cfg, w, init), req, draw);
    } else {
      RowsCarryRequests(cfg, printers, init, j, req, draw);
      StepKeepsRequest(cfg, After(cfg, w, init), last, j);
    }
  }

  /** And every row was made by such a request. */
  lemma {:induction false} RowsWereRequested(cfg: Config, printers: Printers, steps: seq<Step>, j: JobId)
    returns (req: Api.Request, draw: Api.Draw)
    requires IsRun(cfg, Init(printers), steps) && j in After(cfg, Init(printers), steps).db.jobs
    ensures MadeBy(cfg, Init(printers), steps, j, req, draw)
    decreases |steps|
  {
    var w, init, last := Init(printers), steps[..|steps| - 1], steps[|steps| - 1];
    var s := After(cfg, w, init);
    SoundRun(cfg, printers, init);
    if last.Submit? && last.draw.id == j {
      req, draw := last.req, last.draw;
      Api.WritesExactly(s.db, cfg.limits, req, draw);
      Api.AnswersExactly(s.db, cfg.limits, req, draw);
    } else {
      NoNewRow(cfg, s, last, j);
      req, draw := RowsWereRequested(cfg, printers, init, j);
    }
  }

  lemma NoNewRow(cfg: Config, s: World, step: Step, j: JobId)
    requires Enabled(s, step) && !(step.Submit? && step.draw.id == j) && j in Apply(cfg, s, step).db.jobs
    ensures j in s.db.jobs
  {
    if OutsideStep(step) {
      NoNewRowOutside(cfg, s, step, j);
    }
  }

  lemma NoNewRowOutside(cfg: Config, s: World, step: Step, j: JobId)
    requires OutsideStep(step) && !(step.Submit? && step.draw.id == j) && j in ApplyOutside(cfg, s, step).db.jobs
    ensures j in s.db.jobs
  {
  }

  // ---------------------------------------------------------------- the schedule is waited for

  /** No claim of job j so far was by a poll before the instant. */
  predicate ClaimedSince(h: seq<Event>, j: JobId, at: Option<Instant>) {
    at.Some? ==> forall k :: 0 <= k < |h| && h[k].Claimed? && h[k].job == j ==> at.value <= h[k].at
  }

  /** What a step adds to the history about claims. */
  lemma ClaimsNext(cfg: Config, s: World, step: Step, j: JobId)
    requires Enabled(s, step)
    ensures var h' := Apply(cfg, s, step).history;
            || h' == s.history
            || (&& |h'| == |s.history| + 1 && h'[..|s.history|] == s.history
                && (h'[|s.history|].Claimed? ==>
                      step.Take? && Wins(s) && h'[|s.history|] == Claimed(s.mem.batch[0], s.mem.batchAt)))
  {
    if OutsideStep(step) {
      OutsideLogs(cfg, s, step);
    }
  }

  lemma ClaimedLater(cfg: Config, s: World, step: Step, j: JobId, at: Option<Instant>)
    requires Enabled(s, step) && BatchDue(s) && ClaimedSince(s.history, j, at)
    requires j in s.db.jobs ==> s.db.jobs[j].scheduledAt == at
    ensures ClaimedSince(Apply(cfg, s, step).history, j, at)
  {
    var h, h' := s.history, Apply(cfg, s, step).history;
    ClaimsNext(cfg, s, step, j);
    if h' != h && at.Some? {
      forall k | 0 <= k < |h'| && h'[k].Claimed? && h'[k].job == j
        ensures at.value <= h'[k].at
      {
        if k < |h| {
          assert h'[..|h|][k] == h'[k];
        }
      }
    }
  }

  lemma {:induction false} NeverClaimed(cfg: Config, printers: Printers, steps: seq<Step>, j: JobId,
                                        at: Option<Instant>)
    requires IsRun(cfg, Init(printers), steps) && j !in After(cfg, Init(printers), steps).issued
    ensures ClaimedSince(After(cfg, Init(printers), steps).history, j, at)
    decreases |steps|
  {
    if steps != [] {
      var w, init, last := Init(printers), steps[..|steps| - 1], steps[|steps| - 1];
      var s := After(cfg, w, init);
      IssuedGrows(cfg, s, last);
      NeverClaimed(cfg, printers, init, j, at);
      SoundRun(cfg, printers, init);
      BatchRun(cfg, printers, init);
      ClaimedLater(cfg, s, last, j, at);
    }
  }

  lemma IssuedGrows(cfg: Config, s: World, step: Step)
    requires Enabled(s, step)
    ensures s.issued <= Apply(cfg, s, step).issued
    ensures step.Submit? ==> step.draw.id in Apply(cfg, s, step).issued && step.draw.id !in s.issued
  {
  }

  lemma SubmitClaimsNothing(cfg: Config, s: World, req: Api.Request, draw: Api.Draw, j: JobId, at: Option<Instant>)
    requires Enabled(s, Submit(req, draw)) && ClaimedSince(s.history, j, at)
    ensures ClaimedSince(Apply(cfg, s, Submit(req, draw)).history, j, at)
  {
    var h' := Apply(cfg, s, Submit(req, draw)).history;
    assert h' == s.history + [SubmitEvent(cfg, s, req, draw)];
  }

  /** Over every run a job is claimed only by polls at or after the instant its request asked to wait for. */
  lemma {:induction false} ScheduleIsWaitedFor(cfg: Config, printers: Printers, steps: seq<Step>, j: JobId,
                                               req: Api.Request, draw: Api.Draw)
    requires IsRun(cfg, Init(printers), steps) && MadeBy(cfg, Init(printers), steps, j, req, draw)
    ensures ClaimedSince(After(cfg, Init(printers), steps).history, j, req.scheduledAt)
    decreases |steps|
  {
    var w, init, last := Init(printers), steps[..|steps| - 1], steps[|steps| - 1];
    var s := After(cfg, w, init);
    if last.Submit? && last.draw.id == j {
      NeverClaimed(cfg, printers, init, j, req.scheduledAt);
      SubmitClaimsNothing(cfg, s, req, draw, j, req.scheduledAt);
    } else {
      ScheduleIsWaitedFor(cfg, printers, init, j, req, draw);
      RowsCarryRequests(cfg, printers, init, j, req, draw);
      BatchRun(cfg, printers, init);
      ClaimedLater(cfg, s, last, j, req.scheduledAt);
    }
  }

  /** A poll of the run, at that instant, read the job. */
  predicate ReadAt(steps: seq<Step>, j: JobId, at: Instant) {
    exists i :: 0 <= i < |steps| && steps[i].Poll? && steps[i].now == at && j in steps[i].ids
  }

  lemma ReadBefore(steps: seq<Step>, step: Step, j: JobId, at: Instant)
    requires ReadAt(steps, j, at)
    ensures ReadAt(steps + [step], j, at)
  {
    var i :| 0 <= i < |steps| && steps[i].Poll? && steps[i].now == at && j in steps[i].ids;
    assert (steps + [step])[i] == steps[i];
  }

  lemma ReadNow(steps: seq<Step>, now: Instant, ids: seq<JobId>, j: JobId)
    requires j in ids
    ensures ReadAt(steps + [Poll(now, ids)], j, now)
  {
    assert (steps + [Poll(now, ids)])[|steps|] == Poll(now, ids);
  }

  /** What waits in the batch, and what has been claimed, was read by a poll at the instant recorded. */
  ghost predicate AllRead(steps: seq<Step>, s: World) {
    && (forall i :: 0 <= i < |s.mem.batch| ==> ReadAt(steps, s.mem.batch[i], s.mem.batchAt))
    && (forall k :: 0 <= k < |s.history| && s.history[k].Claimed? ==>
          ReadAt(steps, s.history[k].job, s.history[k].at))
  }

  /** How a step changes the batch. */
  lemma BatchNext(cfg: Config, s: World, step: Step)
    requires Enabled(s, step)
    ensures var m := Apply(cfg, s, step).mem;
            if step.Poll? then m.batch == step.ids && m.batchAt == step.now
            else if step.Take? then m.batch == s.mem.batch[1..] && m.batchAt == s.mem.batchAt
            else if step.Restart? then m.batch == []
            else m.batch == s.mem.batch && m.batchAt == s.mem.batchAt
  {
  }

  lemma ReadStep(cfg: Config, steps: seq<Step>, s: World, step: Step)
    requires Enabled(s, step) && AllRead(steps, s)
    ensures AllRead(steps + [step], Apply(cfg, s, step))
  {
    var s' := Apply(cfg, s, step);
    BatchNext(cfg, s, step);
    forall i | 0 <= i < |s'.mem.batch|
      ensures ReadAt(steps + [step], s'.mem.batch[i], s'.mem.batchAt)
    {
      if step.Poll? {
        ReadNow(steps, step.now, step.ids, s'.mem.batch[i]);
      } else {
        assert ReadAt(steps, s'.mem.batch[i], s'.mem.batchAt) by {
          assert s'.mem.batch[i] == s.mem.batch[if step.Take? then i + 1 else i];
        }
        ReadBefore(steps, step, s'.mem.batch[i], s'.mem.batchAt);
      }
    }
    forall k | 0 <= k < |s'.history| && s'.history[k].Claimed?
      ensures ReadAt(steps + [step], s'.history[k].job, s'.history[k].at)
    {
      ClaimsNext(cfg, s, step, s'.history[k].job);
      assert ReadAt(steps, s'.history[k].job, s'.history[k].at) by {
        if k < |s.history| {
          assert s'.history[..|s.history|][k] == s'.history[k] || s'.history == s.history;
        } else {
          assert s.mem.batch[0] == s'.history[k].job;
        }
      }
      ReadBefore(steps, step, s'.history[k].job, s'.history[k].at);
    }
  }

  /** Every claim in the history of a run is of a job read by one of its polls, at the instant recorded. */
  lemma {:induction false} ClaimsWereRead(cfg: Config, printers: Printers, steps: seq<Step>)
    requires IsRun(cfg, Init(printers), steps)
    ensures AllRead(steps, After(cfg, Init(printers), steps))
    decreases |steps|
  {
    if steps != [] {
      var init, last := steps[..|steps| - 1], steps[|steps| - 1];
      ClaimsWereRead(cfg, printers, init);
      ReadStep(cfg, init, After(cfg, Init(printers), init), last);
      assert steps == init + [last];
    }
  }
}
