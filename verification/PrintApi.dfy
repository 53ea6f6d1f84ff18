/** Submission (app/api/print.py, print_job and print_file, and the endpoints that enqueue without quota
    or key): validation, quota, key lookup, enqueue, key row, with an early exit after each. */
module PrintApi {
  import opened Basics
  import opened JobTable
  import Store = JobStore

  /** One call to a print endpoint.  `refusal` is what resolving the target or validating the
      document answered, both done before the tables are touched.  `quoted` is true for print_job and
      print_file, and false for raw prints, reprints, test pages and drawer kicks, which take no key
      either.  `keepsKey` is true for print_job, which copies the key into the job row, and false for
      print_file. */
  datatype Request = Request(
    printer: PrinterId,
    payload: Payload,
    refusal: Option<Error>,
    quoted: bool,
    key: Option<string>,
    keepsKey: bool,
    priority: int,
    scheduledAt: Option<Instant>)

  /** What the call draws from outside: a new uuid, and the clock at the two inserts. */
  datatype Draw = Draw(id: JobId, midnight: Instant, enqueuedAt: Instant, storedAt: Instant)

  datatype Limits = Limits(globalMax: int, perPrinterMax: int, quotas: map<PrinterId, int>, defaultQuota: Option<int>)

  datatype Answer = Accepted(job: JobId, status: Status, replay: bool) | Refused(error: Error)

  /** An absent or zero per-printer quota falls back to the default; absent or zero is no quota. */
  function Quota(limits: Limits, p: PrinterId): Option<int> {
    if p in limits.quotas && limits.quotas[p] != 0 then Some(limits.quotas[p])
    else if limits.defaultQuota.Some? && limits.defaultQuota.value != 0 then limits.defaultQuota
    else None
  }

  predicate OverQuota(limits: Limits, jobs: Jobs, p: PrinterId, midnight: Instant) {
    var quota := Quota(limits, p);
    quota.Some? && UsedSince(jobs, p, midnight) >= quota.value
  }

  /** The quota in plain terms: `used` are the printer's jobs created since midnight and not canceled.  The
      printer's own limit counts if it has one, the default otherwise, and zero is no limit. */
  lemma OverQuotaExactly(limits: Limits, jobs: Jobs, p: PrinterId, midnight: Instant, used: set<JobId>)
    requires forall j :: j in used <==>
               j in jobs && jobs[j].printer == p && jobs[j].createdAt >= midnight && jobs[j].status != Canceled
    ensures var own := p in limits.quotas && limits.quotas[p] != 0;
            && (own ==> (OverQuota(limits, jobs, p, midnight) <==> |used| >= limits.quotas[p]))
            && (!own && limits.defaultQuota.Some? && limits.defaultQuota.value != 0 ==>
                  (OverQuota(limits, jobs, p, midnight) <==> |used| >= limits.defaultQuota.value))
            && (!own && (limits.defaultQuota == None || limits.defaultQuota == Some(0)) ==>
                  !OverQuota(limits, jobs, p, midnight))
  {
    assert used == UsedIds(jobs, p, midnight);
  }

  /** The other endpoints take no key. */
  function KeyOf(req: Request): Option<string> {
    if req.quoted then req.key else None
  }

  /** An empty key header counts as none. */
  predicate Keyed(req: Request) {
    KeyOf(req).Some? && req.key.value != ""
  }

  predicate QuotaStops(db: Tables, limits: Limits, req: Request, draw: Draw) {
    req.quoted && OverQuota(limits, db.jobs, req.printer, draw.midnight)
  }

  function RequestDigest(req: Request): Digest {
    Digest(req.printer, req.payload)
  }

  function NewJob(req: Request, draw: Draw): Job {
    FreshJob(req.printer, req.payload, if req.keepsKey then req.key else None, req.priority, req.scheduledAt,
             draw.enqueuedAt)
  }

  /** The checks in the order the handlers make them. */
  function Decide(db: Tables, limits: Limits, req: Request, draw: Draw): Answer {
    if req.refusal.Some? then Refused(req.refusal.value)
    else if QuotaStops(db, limits, req, draw) then Refused(QuotaExceeded)
    else if Keyed(req) && req.key.value in db.keys then
      var row := db.keys[req.key.value];
      if row.digest != RequestDigest(req) then Refused(IdempotencyConflict)
      else if row.job !in db.jobs then Refused(NotFound)
      else Accepted(row.job, db.jobs[row.job].status, true)
    else
      match Enqueue(db.jobs, draw.id, NewJob(req, draw), limits.globalMax, limits.perPrinterMax)
      case Err(e) => Refused(e)
      case Ok(_) => Accepted(draw.id, Queued, false)
  }

  /** Only an accepted call that is not a replay writes: its job, and its key row if it has a key. */
  function Submit(db: Tables, limits: Limits, req: Request, draw: Draw): Tables {
    var answer := Decide(db, limits, req, draw);
    if answer.Accepted? && !answer.replay then
      Tables(db.jobs[draw.id := NewJob(req, draw)],
             if Keyed(req) then db.keys[req.key.value := KeyRow(RequestDigest(req), draw.id, draw.storedAt)]
             else db.keys)
    else db
  }

  /** The answers in plain terms, whatever the tables: a refused request first, then an exhausted quota, then the
      key, and only then the queue's caps. */
  lemma AnswersExactly(db: Tables, limits: Limits, req: Request, draw: Draw)
    ensures var over := req.quoted && OverQuota(limits, db.jobs, req.printer, draw.midnight);
            var known := req.quoted && req.key.Some? && req.key.value != "" && req.key.value in db.keys;
            var answer := Decide(db, limits, req, draw);
            && (req.refusal.Some? ==> answer == Refused(req.refusal.value))
            && (req.refusal.None? && over ==> answer == Refused(QuotaExceeded))
            && (req.refusal.None? && !over && known ==>
                  var row := db.keys[req.key.value];
                  var same := row.digest.printer == req.printer && row.digest.payload == req.payload;
                  && (!same ==> answer == Refused(IdempotencyConflict))
                  && (same && row.job !in db.jobs ==> answer == Refused(NotFound))
                  && (same && row.job in db.jobs ==> answer == Accepted(row.job, db.jobs[row.job].status, true)))
            && (req.refusal.None? && !over && !known ==>
                  answer == Refused(QueueFull) || answer == Accepted(draw.id, Queued, false))
  {
  }

  /** What a new job's row holds of the request. */
  predicate Carries(job: Job, req: Request) {
    && job.printer == req.printer && job.payload == req.payload && job.priority == req.priority
    && job.scheduledAt == req.scheduledAt && job.key == (if req.keepsKey then req.key else None)
  }

  /** What a call writes: nothing unless it is accepted and no replay; then one queued row with what the request
      asked for, and under a new key a row that names it. */
  lemma WritesExactly(db: Tables, limits: Limits, req: Request, draw: Draw)
    requires draw.id !in db.jobs
    ensures var answer, db' := Decide(db, limits, req, draw), Submit(db, limits, req, draw);
            if answer.Refused? || answer.replay then db' == db
            else
              && answer.job == draw.id
              && db'.jobs.Keys == db.jobs.Keys + {draw.id} && (forall j :: j in db.jobs ==> db'.jobs[j] == db.jobs[j])
              && Carries(db'.jobs[draw.id], req) && db'.jobs[draw.id].createdAt == draw.enqueuedAt
              && db'.jobs[draw.id].status == Queued && db'.jobs[draw.id].attempts == 0
              && db'.jobs[draw.id].nextAttemptAt == None
              && (req.quoted && req.key.Some? && req.key.value != "" ==>
                    db'.keys == db.keys[req.key.value := KeyRow(Digest(req.printer, req.payload), draw.id,
                                                                draw.storedAt)])
              && (!req.quoted || req.key == None || req.key == Some("") ==> db'.keys == db.keys)
  {
  }

  class PrintApi {
    const store: Store.JobStore
    const limits: Limits

    constructor (store: Store.JobStore, limits: Limits)
      ensures this.store == store && this.limits == limits
    {
      this.store, this.limits := store, limits;
    }

    method EnforceQuota(p: PrinterId, midnight: Instant) returns (over: bool)
      ensures over == OverQuota(limits, store.jobs, p, midnight)
    {
      var quota := Quota(limits, p);
      if quota == None {
        return false;
      }
      var used := UsedSince(store.jobs, p, midnight);
      over := used >= quota.value;
    }

    method Print(req: Request, draw: Draw) returns (answer: Answer)
      requires draw.id !in store.jobs
      modifies store
      ensures answer == Decide(old(store.View()), limits, req, draw)
      ensures store.View() == Submit(old(store.View()), limits, req, draw)
    {
      if req.refusal.Some? {
        return Refused(req.refusal.value);
      }
      if req.quoted {
        var over := EnforceQuota(req.printer, draw.midnight);
        if over {
          return Refused(QuotaExceeded);
        }
      }
      if Keyed(req) {
        var existing := store.LookupKey(req.key.value);
        if existing.Some? {
          if existing.value.digest != RequestDigest(req) {
            return Refused(IdempotencyConflict);
          }
          var job := store.Get(existing.value.job);
          if job.Err? {
            return Refused(job.error);
          }
          return Accepted(existing.value.job, job.value.status, true);
        }
      }
      var made := store.Enqueue(draw.id, req.printer, req.payload, if req.keepsKey then req.key else None, req.priority,
                                req.scheduledAt, limits.globalMax, limits.perPrinterMax, draw.enqueuedAt);
      if made.Err? {
        return Refused(made.error);
      }
      if Keyed(req) {
        store.StoreKey(req.key.value, KeyRow(RequestDigest(req), draw.id, draw.storedAt));
      }
      answer := Accepted(draw.id, made.value.status, false);
    }
  }
}
