/** The durable job table and the idempotency table (app/queue.py, class JobStore): the effect of
    each statement on the tables, as values.  Instants are abstract real numbers, and every
    statement is one atomic step. */
module JobTable {
  import opened Basics

  type JobId = nat
  type PrinterId = int
  type Payload = string

  datatype Status = Queued | Rendering | Printing | Done | Failed | Dead | Canceled | Uncertain

  datatype Delivery = Sent | Completed

  datatype Job = Job(
    printer: PrinterId,
    payload: Payload,
    key: Option<string>,
    status: Status,
    attempts: nat,
    priority: int,
    scheduledAt: Option<Instant>,
    nextAttemptAt: Option<Instant>,
    createdAt: Instant,
    delivery: Option<Delivery>,
    lastError: Option<string>)

  type Jobs = map<JobId, Job>

  /** The request hash of an idempotent call: collision-free, so kept as what it was computed from. */
  datatype Digest = Digest(printer: PrinterId, payload: Payload)

  datatype KeyRow = KeyRow(digest: Digest, job: JobId, createdAt: Instant)

  type Keys = map<string, KeyRow>

  datatype Tables = Tables(jobs: Jobs, keys: Keys)

  // ---------------------------------------------------------------- depth

  predicate Active(status: Status) {
    status.Queued? || status.Rendering? || status.Printing?
  }

  function ActiveIds(jobs: Jobs): set<JobId> {
    set j | j in jobs && Active(jobs[j].status)
  }

  function ActiveIdsAt(jobs: Jobs, p: PrinterId): set<JobId> {
    set j | j in jobs && jobs[j].printer == p && Active(jobs[j].status)
  }

  function Depth(jobs: Jobs): nat {
    |ActiveIds(jobs)|
  }

  function PrinterDepth(jobs: Jobs, p: PrinterId): nat {
    |ActiveIdsAt(jobs, p)|
  }

  /** Jobs counted by the daily quota: created since an instant, and not canceled. */
  function UsedIds(jobs: Jobs, p: PrinterId, since: Instant): set<JobId> {
    set j | j in jobs && jobs[j].printer == p && jobs[j].createdAt >= since && !jobs[j].status.Canceled?
  }

  function UsedSince(jobs: Jobs, p: PrinterId, since: Instant): nat {
    |UsedIds(jobs, p, since)|
  }

  // ---------------------------------------------------------------- statements

  function FreshJob(p: PrinterId, payload: Payload, key: Option<string>, priority: int,
                    scheduledAt: Option<Instant>, now: Instant): Job
  {
    Job(p, payload, key, Queued, 0, priority, scheduledAt, None, now, None, None)
  }

  function Enqueue(jobs: Jobs, id: JobId, job: Job, globalMax: int, perPrinterMax: int): Result<Jobs> {
    if Depth(jobs) >= globalMax then Err(QueueFull)
    else if PrinterDepth(jobs, job.printer) >= perPrinterMax then Err(QueueFull)
    else Ok(jobs[id := job])
  }

  /** The caps in plain terms: `active` are the jobs queued, rendering or printing, `here` those of them that are
      for the same printer. */
  lemma RefusedAtCapExactly(jobs: Jobs, id: JobId, job: Job, globalMax: int, perPrinterMax: int,
                            active: set<JobId>, here: set<JobId>)
    requires forall j :: j in active <==> j in jobs && jobs[j].status in {Queued, Rendering, Printing}
    requires forall j :: j in here <==> j in active && jobs[j].printer == job.printer
    ensures Enqueue(jobs, id, job, globalMax, perPrinterMax)
         == if |active| >= globalMax || |here| >= perPrinterMax then Err(QueueFull) else Ok(jobs[id := job])
  {
    assert active == ActiveIds(jobs) && here == ActiveIdsAt(jobs, job.printer);
  }

  /** The columns a `mark` sets besides the status; None leaves the column alone. */
  datatype Fields = Fields(
    status: Status,
    attempts: Option<nat> := None,
    nextAttemptAt: Option<Option<Instant>> := None,
    delivery: Option<Option<Delivery>> := None,
    lastError: Option<Option<string>> := None)

  function Marked(job: Job, f: Fields): Job {
    job.(status := f.status,
    attempts := if f.attempts.Some? then f.attempts.value else job.attempts,
    nextAttemptAt := if f.nextAttemptAt.Some? then f.nextAttemptAt.value else job.nextAttemptAt,
    delivery := if f.delivery.Some? then f.delivery.value else job.delivery,
    lastError := if f.lastError.Some? then f.lastError.value else job.lastError)
  }

  /** An UPDATE by primary key: a missing row is no error and changes nothing. */
  function Mark(jobs: Jobs, j: JobId, f: Fields): Jobs {
    if j in jobs then jobs[j := Marked(jobs[j], f)] else jobs
  }

  predicate Claimable(jobs: Jobs, j: JobId) {
    j in jobs && jobs[j].status.Queued?
  }

  function Claim(jobs: Jobs, j: JobId): Jobs {
    if Claimable(jobs, j) then jobs[j := jobs[j].(status := Rendering)] else jobs
  }

  function Cancel(jobs: Jobs, j: JobId): Result<Jobs> {
    if j !in jobs then Err(NotFound)
    else if !(jobs[j].status.Queued? || jobs[j].status.Failed?) then Err(Conflict)
    else Ok(Mark(jobs, j, Fields(Canceled)))
  }

  predicate Requeueable(status: Status) {
    status.Failed? || status.Dead? || status.Uncertain? || status.Canceled?
  }

  function Requeue(jobs: Jobs, j: JobId): Result<Jobs> {
    if j !in jobs then Err(NotFound)
    else if !Requeueable(jobs[j].status) then Err(Conflict)
    else Ok(Mark(jobs, j, Fields(Queued, attempts := Some(0), nextAttemptAt := Some(None), lastError := Some(None))))
  }

  function Resolve(jobs: Jobs, j: JobId, asDone: bool): Result<Jobs> {
    if j !in jobs then Err(NotFound)
    else if !jobs[j].status.Uncertain? then Err(Conflict)
    else Ok(Mark(jobs, j, Fields(if asDone then Done else Failed)))
  }

  predicate Prunable(job: Job, cut: Instant) {
    job.createdAt < cut && (job.status.Done? || job.status.Failed? || job.status.Dead? || job.status.Canceled?)
  }

  function PruneJobs(jobs: Jobs, cut: Instant): Jobs {
    map j | j in jobs && !Prunable(jobs[j], cut) :: jobs[j]
  }

  function PruneKeys(keys: Keys, cut: Instant): Keys {
    map k | k in keys && !(keys[k].createdAt < cut) :: keys[k]
  }

  function StoreKey(keys: Keys, key: string, row: KeyRow): Keys {
    if key in keys then keys else keys[key := row]
  }

  // ---------------------------------------------------------------- queries

  /** What `ORDER BY ... LIMIT` promises: `ids` lists `limit` (or all) of the chosen rows without
      repetition, in order, and no row left out had to come before one that is listed.  Rows that
      compare equal may come in any order. */
  ghost predicate IsTop(jobs: Jobs, chosen: set<JobId>, before: (Job, Job) -> bool, limit: nat, ids: seq<JobId>)
    requires chosen <= jobs.Keys
  {
    && (forall i :: 0 <= i < |ids| ==> ids[i] in chosen)
    && (forall i, k :: 0 <= i < k < |ids| ==> ids[i] != ids[k] && before(jobs[ids[i]], jobs[ids[k]]))
    && |ids| == (if |chosen| < limit then |chosen| else limit)
    && (forall i, j :: 0 <= i < |ids| && j in chosen && j !in ids ==> before(jobs[ids[i]], jobs[j]))
  }

  ghost predicate TotalPreorder(before: (Job, Job) -> bool) {
    && (forall a, b :: before(a, b) || before(b, a))
    && (forall a, b, c :: before(a, b) && before(b, c) ==> before(a, c))
  }

  lemma {:induction false} ExistsFirst(jobs: Jobs, chosen: set<JobId>, before: (Job, Job) -> bool)
    returns (first: JobId)
    requires chosen <= jobs.Keys && chosen != {} && TotalPreorder(before)
    ensures first in chosen && forall j :: j in chosen ==> before(jobs[first], jobs[j])
    decreases chosen
  {
    first :| first in chosen;
    if chosen != {first} {
      var rest := chosen - {first};
      assert chosen == rest + {first};
      var other := ExistsFirst(jobs, rest, before);
      if !before(jobs[first], jobs[other]) {
        first := other;
      }
    }
  }

  /** Part way through: `ids` are ranked and come before all of `rest`, which is what remains. */
  ghost predicate RankedSoFar(jobs: Jobs, chosen: set<JobId>, before: (Job, Job) -> bool, ids: seq<JobId>,
                              rest: set<JobId>)
    requires chosen <= jobs.Keys
  {
    && rest <= chosen && |ids| + |rest| == |chosen|
    && (forall j :: j in chosen ==> (j in rest <==> j !in ids))
    && (forall i :: 0 <= i < |ids| ==> ids[i] in chosen)
    && (forall i, k :: 0 <= i < k < |ids| ==> ids[i] != ids[k] && before(jobs[ids[i]], jobs[ids[k]]))
    && (forall i, j :: 0 <= i < |ids| && j in rest ==> before(jobs[ids[i]], jobs[j]))
  }

  lemma RankedNext(jobs: Jobs, chosen: set<JobId>, before: (Job, Job) -> bool, ids: seq<JobId>, rest: set<JobId>,
                   first: JobId)
    requires chosen <= jobs.Keys && RankedSoFar(jobs, chosen, before, ids, rest)
    requires first in rest && forall j :: j in rest ==> before(jobs[first], jobs[j])
    ensures RankedSoFar(jobs, chosen, before, ids + [first], rest - {first})
  {
    forall j | j in chosen
      ensures j in rest - {first} <==> j !in ids + [first]
    {
      assert j in ids + [first] <==> j in ids || j == first;
    }
  }

  method SelectTop(jobs: Jobs, chosen: set<JobId>, before: (Job, Job) -> bool, limit: nat) returns (ids: seq<JobId>)
    requires chosen <= jobs.Keys && TotalPreorder(before)
    ensures IsTop(jobs, chosen, before, limit, ids)
  {
    ids := [];
    var rest := chosen;
    while rest != {} && |ids| < limit
      invariant RankedSoFar(jobs, chosen, before, ids, rest) && |ids| <= limit
      decreases rest
    {
      ghost var witnessId := ExistsFirst(jobs, rest, before);
      var first :| first in rest && forall j :: j in rest ==> before(jobs[first], jobs[j]);
      RankedNext(jobs, chosen, before, ids, rest, first);
      ids, rest := ids + [first], rest - {first};
    }
  }

  predicate Due(job: Job, now: Instant) {
    && (job.nextAttemptAt.None? || job.nextAttemptAt.value <= now)
    && (job.scheduledAt.None? || job.scheduledAt.value <= now)
  }

  function ReadyIds(jobs: Jobs, now: Instant): set<JobId> {
    set j | j in jobs && jobs[j].status.Queued? && Due(jobs[j], now)
  }

  /** Higher priority first, then older first. */
  predicate RunsBefore(a: Job, b: Job) {
    a.priority > b.priority || (a.priority == b.priority && a.createdAt <= b.createdAt)
  }

  predicate NewerFirst(a: Job, b: Job) {
    a.createdAt >= b.createdAt
  }

  const BATCH: nat := 50

  lemma {:induction false} ListedAll(chosen: set<JobId>, ids: seq<JobId>)
    requires forall i :: 0 <= i < |ids| ==> ids[i] in chosen
    requires forall i, k :: 0 <= i < k < |ids| ==> ids[i] != ids[k]
    requires |ids| == |chosen|
    ensures forall j :: j in chosen ==> j in ids
  {
    if ids != [] {
      var last, before := ids[|ids| - 1], ids[..|ids| - 1];
      ListedAll(chosen - {last}, before);
      forall j | j in chosen
        ensures j in ids
      {
        if j != last {
          assert j in before;
        }
      }
    }
  }

  ghost predicate IsReadyBatch(jobs: Jobs, now: Instant, batch: seq<JobId>) {
    IsTop(jobs, ReadyIds(jobs, now), RunsBefore, BATCH, batch)
  }

  /** What the poller gets: queued jobs whose schedule and backoff are over, higher priority first and older
      first among equals; one it does not get is behind fifty others, none of lower priority or, at its own,
      younger. */
  lemma ReadyInOrder(jobs: Jobs, now: Instant, batch: seq<JobId>)
    requires IsReadyBatch(jobs, now, batch)
    ensures forall i :: 0 <= i < |batch| ==>
              && batch[i] in jobs && jobs[batch[i]].status == Queued
              && (jobs[batch[i]].nextAttemptAt.Some? ==> jobs[batch[i]].nextAttemptAt.value <= now)
              && (jobs[batch[i]].scheduledAt.Some? ==> jobs[batch[i]].scheduledAt.value <= now)
    ensures forall i, k :: 0 <= i < k < |batch| ==>
              && batch[i] != batch[k]
              && (jobs[batch[i]].priority > jobs[batch[k]].priority
                  || (jobs[batch[i]].priority == jobs[batch[k]].priority
                      && jobs[batch[i]].createdAt <= jobs[batch[k]].createdAt))
    ensures |batch| <= 50
    ensures forall j | && j in jobs && jobs[j].status == Queued && j !in batch
                       && (jobs[j].nextAttemptAt.Some? ==> jobs[j].nextAttemptAt.value <= now)
                       && (jobs[j].scheduledAt.Some? ==> jobs[j].scheduledAt.value <= now) ::
              && |batch| == 50
              && forall i :: 0 <= i < |batch| ==>
                   jobs[batch[i]].priority > jobs[j].priority
                   || (jobs[batch[i]].priority == jobs[j].priority && jobs[batch[i]].createdAt <= jobs[j].createdAt)
  {
    var chosen := ReadyIds(jobs, now);
    if |batch| == |chosen| {
      ListedAll(chosen, batch);
    }
    forall i, k | 0 <= i < k < |batch|
      ensures RunsBefore(jobs[batch[i]], jobs[batch[k]])
    {
    }
    forall j, i | j in chosen && j !in batch && 0 <= i < |batch|
      ensures RunsBefore(jobs[batch[i]], jobs[j])
    {
    }
  }

  /** The rows a job listing selects: one status or all, and strictly older than the cursor job.
      A cursor that names no job compares with NULL and selects nothing. */
  function Listed(jobs: Jobs, status: Option<Status>, cursor: Option<JobId>): set<JobId> {
    set j | j in jobs
            && (status.None? || jobs[j].status == status.value)
            && (cursor.None? || (cursor.value in jobs && jobs[j].createdAt < jobs[cursor.value].createdAt))
  }

  /** One page of the listing; a negative limit is no limit to SQLite. */
  ghost predicate IsPage(jobs: Jobs, status: Option<Status>, cursor: Option<JobId>, limit: int, page: seq<JobId>) {
    var chosen := Listed(jobs, status, cursor);
    IsTop(jobs, chosen, NewerFirst, if limit < 0 then |chosen| else limit, page)
  }

  lemma LeftOutOfPage(jobs: Jobs, status: Option<Status>, cursor: Option<JobId>, limit: int, page: seq<JobId>)
    requires IsPage(jobs, status, cursor, limit, page)
    ensures forall j :: j in Listed(jobs, status, cursor) && j !in page ==>
              |page| == limit && forall i :: 0 <= i < |page| ==> jobs[page[i]].createdAt >= jobs[j].createdAt
  {
    var chosen := Listed(jobs, status, cursor);
    if |page| == |chosen| {
      ListedAll(chosen, page);
    }
    forall j, i | j in chosen && j !in page && 0 <= i < |page|
      ensures NewerFirst(jobs[page[i]], jobs[j])
    {
    }
  }
}

/** The store itself: the tables updated in place, each method with exactly its statement's effect. */
module JobStore {
  import opened Basics
  import opened JobTable

  class JobStore {
    var jobs: Jobs
    var keys: Keys

    function View(): Tables
      reads this
    {
      Tables(jobs, keys)
    }

    constructor ()
      ensures View() == Tables(map[], map[])
    {
      jobs, keys := map[], map[];
    }

    /** Refused exactly when the queue or the printer's share of it is full; otherwise one fresh queued
        row is added and answered. */
    method Enqueue(id: JobId, printer: PrinterId, payload: Payload, key: Option<string>, priority: int,
                   scheduledAt: Option<Instant>, globalMax: int, perPrinterMax: int, now: Instant)
      returns (r: Result<Job>)
      requires id !in jobs
      modifies this`jobs
      ensures r.Err? <==> Depth(old(jobs)) >= globalMax || PrinterDepth(old(jobs), printer) >= perPrinterMax
      ensures r.Err? ==> r.error == QueueFull && jobs == old(jobs)
      ensures r.Ok? ==>
                && jobs == old(jobs)[id := r.value]
                && r.value == FreshJob(printer, payload, key, priority, scheduledAt, now)
      ensures r.Ok? ==>
                && r.value.printer == printer && r.value.payload == payload && r.value.key == key
                && r.value.priority == priority && r.value.scheduledAt == scheduledAt && r.value.createdAt == now
                && r.value.status == Queued && r.value.attempts == 0 && r.value.nextAttemptAt == None
                && r.value.delivery == None && r.value.lastError == None
    {
      var depth := Depth(jobs);
      if depth >= globalMax {
        return Err(QueueFull);
      }
      var pdepth := PrinterDepth(jobs, printer);
      if pdepth >= perPrinterMax {
        return Err(QueueFull);
      }
      jobs := jobs[id := Job(printer, payload, key, Queued, 0, priority, scheduledAt, None, now, None, None)];
      r := Ok(jobs[id]);
    }

    method Get(j: JobId) returns (r: Result<Job>)
      ensures r == if j in jobs then Ok(jobs[j]) else Err(NotFound)
    {
      r := if j in jobs then Ok(jobs[j]) else Err(NotFound);
    }

    method Ready(now: Instant) returns (batch: seq<JobId>)
      ensures IsReadyBatch(jobs, now, batch)
    {
      batch := SelectTop(jobs, ReadyIds(jobs, now), RunsBefore, BATCH);
    }

    method ListJobs(status: Option<Status>, limit: int, cursor: Option<JobId>) returns (page: seq<JobId>)
      ensures IsPage(jobs, status, cursor, limit, page)
      ensures forall i :: 0 <= i < |page| ==>
                && page[i] in jobs && (status.Some? ==> jobs[page[i]].status == status.value)
                && (cursor.Some? ==> cursor.value in jobs && jobs[page[i]].createdAt < jobs[cursor.value].createdAt)
      ensures forall j | && j in jobs && j !in page && (status.Some? ==> jobs[j].status == status.value)
                         && (cursor.Some? ==>
                               cursor.value in jobs && jobs[j].createdAt < jobs[cursor.value].createdAt) ::
                |page| == limit && forall i :: 0 <= i < |page| ==> jobs[page[i]].createdAt >= jobs[j].createdAt
    {
      var chosen := Listed(jobs, status, cursor);
      page := SelectTop(jobs, chosen, NewerFirst, if limit < 0 then |chosen| else limit);
      LeftOutOfPage(jobs, status, cursor, limit, page);
    }

    method Claim(j: JobId) returns (won: bool)
      modifies this`jobs
      ensures won == Claimable(old(jobs), j)
      ensures jobs == JobTable.Claim(old(jobs), j)
    {
      won := j in jobs && jobs[j].status == Queued;
      if won {
        jobs := jobs[j := jobs[j].(status := Rendering)];
      }
    }

    method Mark(j: JobId, f: Fields)
      modifies this`jobs
      ensures jobs == JobTable.Mark(old(jobs), j, f)
    {
      if j in jobs {
        jobs := jobs[j := Marked(jobs[j], f)];
      }
    }

    method Cancel(j: JobId) returns (r: Result<Job>)
      modifies this`jobs
      ensures match JobTable.Cancel(old(jobs), j)
              case Ok(jobs') => jobs == jobs' && j in jobs && r == Ok(jobs[j])
              case Err(e) => jobs == old(jobs) && r == Err(e)
      ensures r.Ok? ==> j in old(jobs) && jobs == old(jobs)[j := old(jobs)[j].(status := Canceled)]
      ensures r.Ok? <==> j in old(jobs) && old(jobs)[j].status in {Queued, Failed}
    {
      var job := Get(j);
      if job.Err? {
        return job;
      }
      if job.value.status != Queued && job.value.status != Failed {
        return Err(Conflict);
      }
      Mark(j, Fields(Canceled));
      r := Get(j);
    }

    method Requeue(j: JobId) returns (r: Result<Job>)
      modifies this`jobs
      ensures match JobTable.Requeue(old(jobs), j)
              case Ok(jobs') => jobs == jobs' && j in jobs && r == Ok(jobs[j])
              case Err(e) => jobs == old(jobs) && r == Err(e)
      ensures r.Ok? ==>
                && j in old(jobs)
                && jobs == old(jobs)[j := old(jobs)[j].(status := Queued, attempts := 0, nextAttemptAt := None,
                                                        lastError := None)]
      ensures r.Ok? <==> j in old(jobs) && old(jobs)[j].status in {Failed, Dead, Uncertain, Canceled}
    {
      var job := Get(j);
      if job.Err? {
        return job;
      }
      if job.value.status !in {Failed, Dead, Uncertain, Canceled} {
        return Err(Conflict);
      }
      Mark(j, Fields(Queued, attempts := Some(0), nextAttemptAt := Some(None), lastError := Some(None)));
      r := Get(j);
    }

    method Resolve(j: JobId, asDone: bool) returns (r: Result<Job>)
      modifies this`jobs
      ensures match JobTable.Resolve(old(jobs), j, asDone)
              case Ok(jobs') => jobs == jobs' && j in jobs && r == Ok(jobs[j])
              case Err(e) => jobs == old(jobs) && r == Err(e)
      ensures r.Ok? ==>
                && j in old(jobs)
                && jobs == old(jobs)[j := old(jobs)[j].(status := if asDone then Done else Failed)]
      ensures r.Ok? <==> j in old(jobs) && old(jobs)[j].status == Uncertain
    {
      var job := Get(j);
      if job.Err? {
        return job;
      }
      if job.value.status != Uncertain {
        return Err(Conflict);
      }
      Mark(j, Fields(if asDone then Done else Failed));
      r := Get(j);
    }

    method LookupKey(key: string) returns (row: Option<KeyRow>)
      ensures row == if key in keys then Some(keys[key]) else None
    {
      row := if key in keys then Some(keys[key]) else None;
    }

    method StoreKey(key: string, row: KeyRow)
      modifies this`keys
      ensures keys == JobTable.StoreKey(old(keys), key, row)
      ensures key in old(keys) ==> keys == old(keys)
      ensures key !in old(keys) ==> keys == old(keys)[key := row]
    {
      if key !in keys {
        keys := keys[key := row];
      }
    }

    method Prune(jobCut: Instant, keyCut: Instant)
      modifies this
      ensures jobs == PruneJobs(old(jobs), jobCut) && keys == PruneKeys(old(keys), keyCut)
      ensures forall j :: j in jobs <==>
                j in old(jobs) && !(old(jobs)[j].createdAt < jobCut
                                    && old(jobs)[j].status in {Done, Failed, Dead, Canceled})
      ensures forall k :: k in keys <==> k in old(keys) && !(old(keys)[k].createdAt < keyCut)
    {
      jobs := map j | j in jobs && !Prunable(jobs[j], jobCut) :: jobs[j];
      keys := map k | k in keys && keys[k].createdAt >= keyCut :: keys[k];
    }
  }
}
