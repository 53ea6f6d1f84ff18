/** Idempotency over every run: what the key rows remember, and when they can outlive their jobs. */
module WorkerKeys {
  import opened Basics
  import opened JobTable
  import opened Pools
  import opened WorkerModel
  import opened WorkerSafety
  import opened WorkerDelivery
  import Api = PrintApi

  // ---------------------------------------------------------------- replay and conflict

  /** Event e accepted a call carrying idempotency key k. */
  predicate Accepts(e: Event, k: string) {
    k != "" && e.Submitted? && e.answer.Accepted? && e.key == Some(k)
  }

  /** The sweep dropped key k's row somewhere between positions a and b. */
  ghost predicate Dropped(h: seq<Event>, k: string, a: nat, b: nat)
    requires b <= |h|
  {
    exists m :: a <= m < b && h[m].Swept? && k in h[m].keys
  }

  /** As long as the row of its key survives, an accepted call is what the row remembers. */
  ghost predicate Remembered(s: World, k: string, i: nat)
    requires i < |s.history|
  {
    Accepts(s.history[i], k) && !Dropped(s.history, k, i + 1, |s.history|) ==>
      k in s.db.keys && s.db.keys[k].job == s.history[i].answer.job && s.db.keys[k].digest == s.history[i].digest
  }

  /** Every surviving row comes from the call that created its job. */
  ghost predicate Originated(s: World, k: string) {
    k in s.db.keys ==>
      exists i :: 0 <= i < |s.history| && Accepts(s.history[i], k) && !s.history[i].answer.replay
                  && s.history[i].answer.job == s.db.keys[k].job && !Dropped(s.history, k, i + 1, |s.history|)
  }

  ghost predicate KeysFit(s: World, k: string) {
    (forall i :: 0 <= i < |s.history| ==> Remembered(s, k, i)) && Originated(s, k)
  }

  /** Two accepted calls under one key with no drop between them: one job, one payload, and the
      second is a replay. */
  ghost predicate Replays(h: seq<Event>, k: string, i: nat, l: nat)
    requires i < l < |h|
  {
    Accepts(h[i], k) && Accepts(h[l], k) && !Dropped(h, k, i + 1, l) ==>
      h[l].answer.replay && h[l].answer.job == h[i].answer.job && h[l].digest == h[i].digest
  }

  lemma DroppedAppend(h: seq<Event>, e: Event, k: string, a: nat, b: nat)
    requires b <= |h|
    ensures Dropped(h + [e], k, a, b) == Dropped(h, k, a, b)
    ensures a <= |h| ==> Dropped(h + [e], k, a, |h| + 1) == (Dropped(h, k, a, |h|) || (e.Swept? && k in e.keys))
  {
    if Dropped(h, k, a, b) {
      var m :| a <= m < b && h[m].Swept? && k in h[m].keys;
      assert (h + [e])[m] == h[m];
    }
    if a <= |h| {
      if Dropped(h, k, a, |h|) {
        var m :| a <= m < |h| && h[m].Swept? && k in h[m].keys;
        assert (h + [e])[m] == h[m];
      }
      if e.Swept? && k in e.keys {
        assert (h + [e])[|h|] == e;
      }
    }
  }

  /** What any step but a submission does to key k's row: nothing, unless a sweep that says so drops it. */
  predicate KeyKept(s: World, s': World, k: string) {
    && (k in s'.db.keys ==> k in s.db.keys && s'.db.keys[k] == s.db.keys[k])
    && (s'.history == s.history ||
        (&& |s'.history| > |s.history|
         && s'.history == s.history + [s'.history[|s.history|]]
         && !Accepts(s'.history[|s.history|], k)))
    && (k in s.db.keys && k !in s'.db.keys ==>
          |s'.history| > |s.history| && s'.history[|s.history|].Swept? && k in s'.history[|s.history|].keys)
    && (|s'.history| > |s.history| && s'.history[|s.history|].Swept? && k in s'.history[|s.history|].keys
        ==> k !in s'.db.keys)
  }

  lemma KeyKeptInside(cfg: Config, s: World, step: Step, k: string)
    requires Enabled(s, step) && !OutsideStep(step)
    ensures KeyKept(s, Apply(cfg, s, step), k)
  {
    if TaskStep(step) {
      PerformKeepsKeys(s, step.t, TaskEffect(cfg, s, step), k);
    } else if step.Take? {
      TakenKeepsKeys(s, step.t, k);
    }
  }

  lemma PerformKeepsKeys(s: World, t: TaskId, e: Effect, k: string)
    requires t in s.mem.tasks
    ensures KeyKept(s, Perform(s, t, e), k)
  {
  }

  lemma TakenKeepsKeys(s: World, t: TaskId, k: string)
    requires s.mem.batch != []
    ensures KeyKept(s, Taken(s, t), k)
  {
  }

  lemma KeyKeptOutside(cfg: Config, s: World, step: Step, k: string)
    requires OutsideStep(step) && !step.Submit?
    ensures KeyKept(s, ApplyOutside(cfg, s, step), k)
  {
    OutsideLogs(cfg, s, step);
  }

  /** Only a submission and a sweep touch the key rows, and the sweep says which rows it drops. */
  lemma KeyRowAfter(cfg: Config, s: World, step: Step, k: string)
    requires Enabled(s, step)
    ensures var s' := Apply(cfg, s, step);
            if step.Submit? then
              && s'.history == s.history + [SubmitEvent(cfg, s, step.req, step.draw)]
              && s'.db == Api.Submit(s.db, cfg.limits, step.req, step.draw)
            else KeyKept(s, s', k)
  {
    if !OutsideStep(step) {
      KeyKeptInside(cfg, s, step, k);
    } else if step.Submit? {
      OutsideLogs(cfg, s, step);
    } else {
      KeyKeptOutside(cfg, s, step, k);
    }
  }

  lemma KeysStep(cfg: Config, s: World, step: Step, k: string)
    requires Enabled(s, step) && KeysFit(s, k)
    ensures KeysFit(Apply(cfg, s, step), k)
  {
    var s' := Apply(cfg, s, step);
    var h, h' := s.history, s'.history;
    KeyRowAfter(cfg, s, step, k);
    if h' != h {
      forall i | 0 <= i < |h'| ensures Remembered(s', k, i) {
        DroppedAppend(h, h'[|h|], k, i + 1, |h|);
        if i < |h| {
          assert Remembered(s, k, i);
        }
      }
      if k in s.db.keys && k in s'.db.keys {
        var i :| 0 <= i < |h| && Accepts(h[i], k) && !h[i].answer.replay
                 && h[i].answer.job == s.db.keys[k].job && !Dropped(h, k, i + 1, |h|);
        DroppedAppend(h, h'[|h|], k, i + 1, |h|);
        assert h'[i] == h[i];
      } else if k in s'.db.keys {
        assert Accepts(h'[|h|], k) && !h'[|h|].answer.replay && !Dropped(h', k, |h| + 1, |h'|);
      }
    } else {
      forall i | 0 <= i < |h'| ensures Remembered(s', k, i) {
        assert Remembered(s, k, i);
      }
    }
  }

  ghost predicate AllReplay(h: seq<Event>, k: string) {
    forall i, l :: 0 <= i < l < |h| ==> Replays(h, k, i, l)
  }

  lemma ReplaysStep(cfg: Config, s: World, step: Step, k: string)
    requires Enabled(s, step) && KeysFit(s, k) && AllReplay(s.history, k)
    ensures AllReplay(Apply(cfg, s, step).history, k)
  {
    var h, h' := s.history, Apply(cfg, s, step).history;
    KeyRowAfter(cfg, s, step, k);
    if h' != h {
      forall i, l | 0 <= i < l < |h'| ensures Replays(h', k, i, l) {
        DroppedAppend(h, h'[|h|], k, i + 1, l);
        if l < |h| {
          assert Replays(h, k, i, l);
        } else {
          assert Remembered(s, k, i);
        }
      }
    }
  }

  lemma {:induction false} KeysRun(cfg: Config, printers: Printers, steps: seq<Step>, k: string)
    requires IsRun(cfg, Init(printers), steps)
    ensures KeysFit(After(cfg, Init(printers), steps), k)
    ensures AllReplay(After(cfg, Init(printers), steps).history, k)
    decreases |steps|
  {
    if steps != [] {
      var init, last := steps[..|steps| - 1], steps[|steps| - 1];
      KeysRun(cfg, printers, init, k);
      KeysStep(cfg, After(cfg, Init(printers), init), last, k);
      ReplaysStep(cfg, After(cfg, Init(printers), init), last, k);
    }
  }

  /** Idempotency over every run: of two accepted calls with one key, while its row survives, the
      second is a replay answering with the first one's job, and its payload was the same. */
  lemma SameKeySameJob(cfg: Config, printers: Printers, steps: seq<Step>, k: string, i: nat, l: nat)
    requires IsRun(cfg, Init(printers), steps)
    requires var h := After(cfg, Init(printers), steps).history;
             i < l < |h| && Accepts(h[i], k) && Accepts(h[l], k) && !Dropped(h, k, i + 1, l)
    ensures var h := After(cfg, Init(printers), steps).history;
            h[l].answer.replay && h[l].answer.job == h[i].answer.job && h[l].digest == h[i].digest
  {
    KeysRun(cfg, printers, steps, k);
    assert Replays(After(cfg, Init(printers), steps).history, k, i, l);
  }

  /** While a key's row survives, exactly one accepted call under it created a job, and every later
      submission either replays that job or is refused; none writes anything. */
  lemma KeyedOnce(cfg: Config, printers: Printers, steps: seq<Step>, req: Api.Request, draw: Api.Draw)
    requires IsRun(cfg, Init(printers), steps)
    requires Api.Keyed(req) && req.key.value in After(cfg, Init(printers), steps).db.keys
    ensures var s := After(cfg, Init(printers), steps);
            var k := req.key.value;
            var answer := Api.Decide(s.db, cfg.limits, req, draw);
            && Api.Submit(s.db, cfg.limits, req, draw) == s.db
            && (answer.Accepted? ==>
                  && answer.replay && answer.job == s.db.keys[k].job
                  && s.db.keys[k].digest == Api.RequestDigest(req))
            && (exists i :: 0 <= i < |s.history| && Creates(s.history, k, i)
                            && s.history[i].answer.job == s.db.keys[k].job)
            && (forall i, l :: 0 <= i < |s.history| && 0 <= l < |s.history|
                               && Creates(s.history, k, i) && Creates(s.history, k, l)
                  ==> i == l)
  {
    var s, k := After(cfg, Init(printers), steps), req.key.value;
    KeysRun(cfg, printers, steps, k);
    assert Originated(s, k);
    forall i, l | 0 <= i < l < |s.history| ensures !(Creates(s.history, k, i) && Creates(s.history, k, l)) {
      assert Replays(s.history, k, i, l);
      assert Dropped(s.history, k, i + 1, l) ==> Dropped(s.history, k, i + 1, |s.history|);
    }
  }

  /** Event i created the job the current row of key k stands for. */
  ghost predicate Creates(h: seq<Event>, k: string, i: nat)
    requires i < |h|
  {
    Accepts(h[i], k) && !h[i].answer.replay && !Dropped(h, k, i + 1, |h|)
  }

  /** Over every run: once a call was accepted under a key and while the key's row survives, a valid call
      within quota conflicts exactly when it asks for something else; otherwise it replays the first
      call's job, or finds it gone exactly when its row is.  None of them writes anything. */
  lemma LaterCallAnswered(cfg: Config, printers: Printers, steps: seq<Step>, i: nat, req: Api.Request, draw: Api.Draw)
    requires IsRun(cfg, Init(printers), steps) && Api.Keyed(req) && req.refusal.None?
    requires var s := After(cfg, Init(printers), steps);
             && i < |s.history| && Accepts(s.history[i], req.key.value)
             && !Dropped(s.history, req.key.value, i + 1, |s.history|)
             && !Api.QuotaStops(s.db, cfg.limits, req, draw)
    ensures var s := After(cfg, Init(printers), steps);
            var first, answer := s.history[i], Api.Decide(s.db, cfg.limits, req, draw);
            && (answer == Api.Refused(IdempotencyConflict) <==> Digest(req.printer, req.payload) != first.digest)
            && (answer == Api.Refused(NotFound) <==>
                  Digest(req.printer, req.payload) == first.digest && first.answer.job !in s.db.jobs)
            && (answer.Accepted? <==> Digest(req.printer, req.payload) == first.digest && first.answer.job in s.db.jobs)
            && (answer.Accepted? ==> answer.replay && answer.job == first.answer.job)
            && Api.Submit(s.db, cfg.limits, req, draw) == s.db
  {
    KeysRun(cfg, printers, steps, req.key.value);
    RememberedAnswer(cfg, After(cfg, Init(printers), steps), i, req, draw);
  }

  lemma RememberedAnswer(cfg: Config, s: World, i: nat, req: Api.Request, draw: Api.Draw)
    requires Api.Keyed(req) && req.refusal.None? && !Api.QuotaStops(s.db, cfg.limits, req, draw)
    requires KeysFit(s, req.key.value) && i < |s.history| && Accepts(s.history[i], req.key.value)
    requires !Dropped(s.history, req.key.value, i + 1, |s.history|)
    ensures var first, answer := s.history[i], Api.Decide(s.db, cfg.limits, req, draw);
            && (answer == Api.Refused(IdempotencyConflict) <==> Digest(req.printer, req.payload) != first.digest)
            && (answer == Api.Refused(NotFound) <==>
                  Digest(req.printer, req.payload) == first.digest && first.answer.job !in s.db.jobs)
            && (answer.Accepted? <==> Digest(req.printer, req.payload) == first.digest && first.answer.job in s.db.jobs)
            && (answer.Accepted? ==> answer.replay && answer.job == first.answer.job)
            && Api.Submit(s.db, cfg.limits, req, draw) == s.db
  {
    assert Remembered(s, req.key.value, i);
  }

  /** A repeat of a remembered call is answered with its job exactly when the call is valid, within quota,
      and the job still there. */
  lemma RepeatReplaysExactly(db: Tables, limits: Api.Limits, req: Api.Request, draw: Api.Draw)
    requires Api.Keyed(req) && req.key.value in db.keys && db.keys[req.key.value].digest == Api.RequestDigest(req)
    ensures var row := db.keys[req.key.value];
            var answer := Api.Decide(db, limits, req, draw);
            (answer.Accepted? && answer.replay && answer.job == row.job)
            <==> req.refusal.None? && !Api.QuotaStops(db, limits, req, draw) && row.job in db.jobs
  {
  }

  /** The quota comes first, and counts the job the call itself created: when that job used up the day's
      quota, the repeat is refused instead of replayed. */
  lemma RepeatRefusedAtQuota(db: Tables, limits: Api.Limits, req: Api.Request, draw: Api.Draw, again: Api.Draw)
    requires draw.id !in db.jobs && req.quoted
    requires var answer := Api.Decide(db, limits, req, draw); answer.Accepted? && !answer.replay
    requires again.midnight == draw.midnight <= draw.enqueuedAt
    requires Api.Quota(limits, req.printer) == Some(UsedSince(db.jobs, req.printer, draw.midnight) + 1)
    ensures Api.Decide(Api.Submit(db, limits, req, draw), limits, req, again) == Api.Refused(QuotaExceeded)
  {
    var jobs, p, since := Api.Submit(db, limits, req, draw).jobs, req.printer, draw.midnight;
    assert UsedIds(jobs, p, since) == UsedIds(db.jobs, p, since) + {draw.id};
  }

  // ---------------------------------------------------------------- retention

  /** The key row is inserted after its job, within `lag`. */
  predicate Timely(steps: seq<Step>, lag: real) {
    forall i :: 0 <= i < |steps| && steps[i].Submit? ==> steps[i].draw.storedAt - steps[i].draw.enqueuedAt <= lag
  }

  predicate KeysPoint(db: Tables) {
    forall k :: k in db.keys ==> db.keys[k].job in db.jobs
  }

  predicate KeysNear(db: Tables, lag: real) {
    forall k :: k in db.keys ==>
      db.keys[k].job in db.jobs && db.keys[k].createdAt - db.jobs[db.keys[k].job].createdAt <= lag
  }

  /** Only sweeps remove jobs, and nothing changes when a job was created. */
  lemma CreationKept(cfg: Config, s: World, step: Step, j: JobId)
    requires Enabled(s, step) && s.db.jobs.Keys <= s.issued && j in s.db.jobs && !step.Sweep?
    ensures var jobs' := Apply(cfg, s, step).db.jobs; j in jobs' && jobs'[j].createdAt == s.db.jobs[j].createdAt
  {
    if OutsideStep(step) {
      OutsideCreationKept(cfg, s, step, j);
    }
  }

  lemma OutsideCreationKept(cfg: Config, s: World, step: Step, j: JobId)
    requires Enabled(s, step) && OutsideStep(step) && !step.Sweep? && s.db.jobs.Keys <= s.issued && j in s.db.jobs
    ensures var jobs' := ApplyOutside(cfg, s, step).db.jobs;
            j in jobs' && jobs'[j].createdAt == s.db.jobs[j].createdAt
  {
  }

  lemma KeysOutsideCalls(cfg: Config, s: World, step: Step)
    requires Enabled(s, step) && !step.Sweep? && !step.Submit?
    ensures Apply(cfg, s, step).db.keys == s.db.keys
  {
  }

  lemma NearStep(cfg: Config, s: World, step: Step, lag: real)
    requires Enabled(s, step) && RowsMatch(s) && KeysNear(s.db, lag) && Timely([step], lag)
    requires cfg.jobWindow >= cfg.keyWindow + lag
    ensures KeysNear(Apply(cfg, s, step).db, lag)
  {
    if step.Sweep? {
    } else {
      forall k | k in s.db.keys
        ensures var jobs' := Apply(cfg, s, step).db.jobs;
                var j := s.db.keys[k].job;
                j in jobs' && jobs'[j].createdAt == s.db.jobs[j].createdAt
      {
        CreationKept(cfg, s, step, s.db.keys[k].job);
      }
      if step.Submit? {
        assert Timely([step], lag) && [step][0] == step;
      } else {
        KeysOutsideCalls(cfg, s, step);
      }
    }
  }

  lemma {:induction false} NearRun(cfg: Config, printers: Printers, steps: seq<Step>, lag: real)
    requires IsRun(cfg, Init(printers), steps) && Timely(steps, lag) && cfg.jobWindow >= cfg.keyWindow + lag
    ensures KeysNear(After(cfg, Init(printers), steps).db, lag)
    decreases |steps|
  {
    if steps != [] {
      var init, last := steps[..|steps| - 1], steps[|steps| - 1];
      assert Timely([last], lag) by {
        assert steps[|steps| - 1] == last;
      }
      NearRun(cfg, printers, init, lag);
      SoundRun(cfg, printers, init);
      NearStep(cfg, After(cfg, Init(printers), init), last, lag);
    }
  }

  /** No run whose inserts stay within the lag ever leaves a key row pointing at a missing job. */
  ghost predicate NeverDangles(cfg: Config, lag: real) {
    forall printers, steps :: IsRun(cfg, Init(printers), steps) && Timely(steps, lag) ==>
      KeysPoint(After(cfg, Init(printers), steps).db)
  }

  lemma FirstSubmit(cfg: Config, s: World, req: Api.Request, draw: Api.Draw)
    requires s.db == Tables(map[], map[]) && cfg.limits.globalMax > 0 && cfg.limits.perPrinterMax > 0
    requires Api.Quota(cfg.limits, req.printer).None? || Api.Quota(cfg.limits, req.printer).value > 0
    requires req.refusal.None? && Api.Keyed(req)
    ensures Submitting(cfg, s, req, draw).db
         == Tables(map[draw.id := Api.NewJob(req, draw)],
                   map[req.key.value := KeyRow(Api.RequestDigest(req), draw.id, draw.storedAt)])
  {
    assert UsedSince(map[], req.printer, draw.midnight) == 0;
    assert Depth(map[]) == 0 && PrinterDepth(map[], req.printer) == 0;
  }

  lemma SubmitFirst(cfg: Config, req: Api.Request, draw: Api.Draw) returns (steps: seq<Step>)
    requires cfg.limits.globalMax > 0 && cfg.limits.perPrinterMax > 0 && draw.enqueuedAt <= draw.storedAt
    requires Api.Quota(cfg.limits, req.printer).None? || Api.Quota(cfg.limits, req.printer).value > 0
    requires req.refusal.None? && Api.Keyed(req)
    ensures steps == [Submit(req, draw)] && IsRun(cfg, Init(map[]), steps)
    ensures After(cfg, Init(map[]), steps).db
         == Tables(map[draw.id := Api.NewJob(req, draw)],
                   map[req.key.value := KeyRow(Api.RequestDigest(req), draw.id, draw.storedAt)])
  {
    FirstSubmit(cfg, Init(map[]), req, draw);
    Extend(cfg, Init(map[]), [], Submit(req, draw));
    steps := [] + [Submit(req, draw)];
  }

  lemma OutsideNext(cfg: Config, w: World, steps: seq<Step>, step: Step)
    requires IsRun(cfg, w, steps) && (step.Cancel? || (step.Sweep? && step.jobsNow <= step.keysNow))
    ensures IsRun(cfg, w, steps + [step])
    ensures After(cfg, w, steps + [step]) == ApplyOutside(cfg, After(cfg, w, steps), step)
  {
    Extend(cfg, w, steps, step);
  }

  /** A run that prunes a job before its key: submit, cancel, sweep. */
  lemma DanglingRun(cfg: Config, p: PrinterId, lag: real) returns (steps: seq<Step>)
    requires cfg.limits.globalMax > 0 && cfg.limits.perPrinterMax > 0
    requires Api.Quota(cfg.limits, p).None? || Api.Quota(cfg.limits, p).value > 0
    requires 0.0 <= lag && 0.0 <= cfg.keyWindow && cfg.jobWindow < cfg.keyWindow + lag
    ensures IsRun(cfg, Init(map[]), steps) && Timely(steps, lag)
    ensures var db := After(cfg, Init(map[]), steps).db;
            !KeysPoint(db) && db.jobs == map[] && forall k :: k in db.keys ==> db.keys[k].digest.printer == p
  {
    var w := Init(map[]);
    var req := Api.Request(p, "{}", None, true, Some("key"), true, 0, None);
    var draw := Api.Draw(7, 0.0, 0.0, lag);
    var now := cfg.keyWindow + lag;
    steps := SubmitFirst(cfg, req, draw);
    steps := DanglingTail(cfg, w, steps, req, draw, now);
    var db := After(cfg, w, steps).db;
    assert "key" in db.keys && db.keys["key"].job !in db.jobs;
  }

  lemma DanglingTail(cfg: Config, w: World, begun: seq<Step>, req: Api.Request, draw: Api.Draw, now: Instant)
    returns (steps: seq<Step>)
    requires IsRun(cfg, w, begun)
    requires Api.Keyed(req) && now == draw.storedAt + cfg.keyWindow && draw.enqueuedAt < now - cfg.jobWindow
    requires After(cfg, w, begun).db
          == Tables(map[draw.id := Api.NewJob(req, draw)],
                    map[req.key.value := KeyRow(Api.RequestDigest(req), draw.id, draw.storedAt)])
    ensures steps == begun + [Cancel(draw.id)] + [Sweep(now, now)]
    ensures IsRun(cfg, w, steps)
    ensures After(cfg, w, steps).db
         == Tables(map[], map[req.key.value := KeyRow(Api.RequestDigest(req), draw.id, draw.storedAt)])
  {
    DanglingEnd(cfg, After(cfg, w, begun), req, draw, now);
    OutsideNext(cfg, w, begun, Cancel(draw.id));
    steps := begun + [Cancel(draw.id)];
    OutsideNext(cfg, w, steps, Sweep(now, now));
    steps := steps + [Sweep(now, now)];
  }

  lemma DanglingEnd(cfg: Config, s: World, req: Api.Request, draw: Api.Draw, now: Instant)
    requires Api.Keyed(req) && now == draw.storedAt + cfg.keyWindow && draw.enqueuedAt < now - cfg.jobWindow
    requires s.db == Tables(map[draw.id := Api.NewJob(req, draw)],
                            map[req.key.value := KeyRow(Api.RequestDigest(req), draw.id, draw.storedAt)])
    ensures Sweeping(cfg, OrSame(s, JobTable.Cancel(s.db.jobs, draw.id)), now, now).db
         == Tables(map[], map[req.key.value := KeyRow(Api.RequestDigest(req), draw.id, draw.storedAt)])
  {
  }

  /** When the two retention windows are safe together: exactly when jobs are kept at least as long
      as keys plus the lag between the two inserts.  Equal windows are not enough. */
  lemma WindowsExactly(cfg: Config, p: PrinterId, lag: real)
    requires cfg.limits.globalMax > 0 && cfg.limits.perPrinterMax > 0
    requires Api.Quota(cfg.limits, p).None? || Api.Quota(cfg.limits, p).value > 0
    requires 0.0 <= lag && 0.0 <= cfg.keyWindow
    ensures NeverDangles(cfg, lag) <==> cfg.jobWindow >= cfg.keyWindow + lag
  {
    if cfg.jobWindow >= cfg.keyWindow + lag {
      forall printers, steps | IsRun(cfg, Init(printers), steps) && Timely(steps, lag)
        ensures KeysPoint(After(cfg, Init(printers), steps).db)
      {
        NearRun(cfg, printers, steps, lag);
      }
    } else {
      var steps := DanglingRun(cfg, p, lag);
    }
  }

  // ---------------------------------------------------------------- retention and repeats

  /** In every run whose inserts stay within the lag, a valid repeat, within quota, of a call whose key survives
      is answered with the first call's job. */
  ghost predicate RepeatsReplay(cfg: Config, lag: real) {
    forall printers, steps, i, req, draw ::
      IsRun(cfg, Init(printers), steps) && Timely(steps, lag)
      && Repeats(cfg, After(cfg, Init(printers), steps), i, req, draw) ==>
        ReplaysFirst(cfg, After(cfg, Init(printers), steps), i, req, draw)
  }

  /** The request repeats the call accepted by event i. */
  ghost predicate Repeats(cfg: Config, s: World, i: nat, req: Api.Request, draw: Api.Draw) {
    && Api.Keyed(req) && req.refusal.None? && !Api.QuotaStops(s.db, cfg.limits, req, draw)
    && i < |s.history| && Accepts(s.history[i], req.key.value) && Api.RequestDigest(req) == s.history[i].digest
    && !Dropped(s.history, req.key.value, i + 1, |s.history|)
  }

  predicate ReplaysFirst(cfg: Config, s: World, i: nat, req: Api.Request, draw: Api.Draw) {
    var answer := Api.Decide(s.db, cfg.limits, req, draw);
    && i < |s.history| && s.history[i].Submitted? && s.history[i].answer.Accepted?
    && answer.Accepted? && answer.replay && answer.job == s.history[i].answer.job
    && Api.Submit(s.db, cfg.limits, req, draw) == s.db
  }

  /** With windows far enough apart a repeat always replays and never finds the job gone. */
  lemma RepeatReplays(cfg: Config, printers: Printers, steps: seq<Step>, lag: real, i: nat, req: Api.Request,
                      draw: Api.Draw)
    requires IsRun(cfg, Init(printers), steps) && Timely(steps, lag) && cfg.jobWindow >= cfg.keyWindow + lag
    requires Repeats(cfg, After(cfg, Init(printers), steps), i, req, draw)
    ensures ReplaysFirst(cfg, After(cfg, Init(printers), steps), i, req, draw)
  {
    var s, k := After(cfg, Init(printers), steps), req.key.value;
    LaterCallAnswered(cfg, printers, steps, i, req, draw);
    NearRun(cfg, printers, steps, lag);
    KeysRun(cfg, printers, steps, k);
    assert Remembered(s, k, i);
  }

  /** Otherwise some repeat finds its job pruned. */
  lemma RepeatFindsNothing(cfg: Config, p: PrinterId, lag: real)
    requires cfg.limits.globalMax > 0 && cfg.limits.perPrinterMax > 0
    requires Api.Quota(cfg.limits, p).None? || Api.Quota(cfg.limits, p).value > 0
    requires 0.0 <= lag && 0.0 <= cfg.keyWindow && cfg.jobWindow < cfg.keyWindow + lag
    ensures !RepeatsReplay(cfg, lag)
  {
    var steps := DanglingRun(cfg, p, lag);
    var s := After(cfg, Init(map[]), steps);
    var k :| k in s.db.keys && s.db.keys[k].job !in s.db.jobs;
    KeysRun(cfg, map[], steps, k);
    var i :| 0 <= i < |s.history| && Accepts(s.history[i], k) && !Dropped(s.history, k, i + 1, |s.history|);
    assert Remembered(s, k, i);
    var req := Api.Request(p, s.history[i].digest.payload, None, true, Some(k), true, 0, None);
    var draw := Api.Draw(0, 0.0, 0.0, 0.0);
    assert UsedIds(map[], p, 0.0) == {};
    assert Repeats(cfg, s, i, req, draw) && !ReplaysFirst(cfg, s, i, req, draw);
  }

  /** What the windows mean to a caller: a repeat can be relied on exactly when jobs are kept as long as keys
      plus the lag. */
  lemma RepeatsReplayExactly(cfg: Config, p: PrinterId, lag: real)
    requires cfg.limits.globalMax > 0 && cfg.limits.perPrinterMax > 0
    requires Api.Quota(cfg.limits, p).None? || Api.Quota(cfg.limits, p).value > 0
    requires 0.0 <= lag && 0.0 <= cfg.keyWindow
    ensures RepeatsReplay(cfg, lag) <==> cfg.jobWindow >= cfg.keyWindow + lag
  {
    if cfg.jobWindow >= cfg.keyWindow + lag {
      forall printers, steps, i, req, draw |
        IsRun(cfg, Init(printers), steps) && Timely(steps, lag)
        && Repeats(cfg, After(cfg, Init(printers), steps), i, req, draw)
        ensures ReplaysFirst(cfg, After(cfg, Init(printers), steps), i, req, draw)
      {
        RepeatReplays(cfg, printers, steps, lag, i, req, draw);
      }
    } else {
      RepeatFindsNothing(cfg, p, lag);
    }
  }
}
