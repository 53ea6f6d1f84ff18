/** What one round of the polling loop achieves: of the jobs it reads it claims all but those whose last
    tasks are just about to finish, and there are at most eight of these. */
module WorkerFairness {
  import opened Basics
  import opened JobTable
  import opened Pools
  import opened WorkerModel
  import opened WorkerSafety
  import opened WorkerDelivery

  predicate TakesOnly(steps: seq<Step>) {
    forall i :: 0 <= i < |steps| ==> steps[i].Take?
  }

  /** The jobs of a batch that the loop passes over: their previous tasks are still in flight. */
  function Held(m: Memory, ids: seq<JobId>): (held: set<JobId>)
    ensures forall j :: j in held <==> j in ids && j in m.inflight
  {
    set j | j in ids && j in m.inflight
  }

  /** The others, in the order they are claimed. */
  function Claimings(m: Memory, ids: seq<JobId>, at: Instant): seq<Event> {
    if ids == [] then []
    else
      var j := ids[|ids| - 1];
      Claimings(m, ids[..|ids| - 1], at) + (if j in m.inflight then [] else [Claimed(j, at)])
  }

  // ---------------------------------------------------------------- who is passed over

  /** The job's last task has given it up and has yet to leave the in-flight table. */
  predicate Leaving(m: Memory, j: JobId) {
    PhaseOf(m, j).Some? && !Owning(PhaseOf(m, j).value)
  }

  /** A queued job in flight has a task past its last mark, so past the semaphore. */
  lemma HeldIsInside(s: World, j: JobId)
    requires Registered(s.mem) && RowsMatch(s) && j in s.mem.inflight && Claimable(s.db.jobs, j)
    ensures Leaving(s.mem, j) && s.mem.inflight[j] in Inside(s.mem.tasks)
  {
    assert Grounded(s.db.jobs, s.mem.tasks[s.mem.inflight[j]].job, s.mem.tasks[s.mem.inflight[j]].phase);
  }

  lemma {:induction false} ImageFits(m: Memory, jobs: set<JobId>, tasks: set<TaskId>)
    requires Registered(m) && forall j :: j in jobs ==> j in m.inflight && m.inflight[j] in tasks
    ensures |jobs| <= |tasks|
    decreases jobs
  {
    if j :| j in jobs {
      ImageFits(m, jobs - {j}, tasks - {m.inflight[j]});
    }
  }

  lemma AtMostEightHeld(s: World, ids: seq<JobId>)
    requires Exclusion(s.mem) && RowsMatch(s) && forall i :: 0 <= i < |ids| ==> Claimable(s.db.jobs, ids[i])
    ensures |Held(s.mem, ids)| <= 8
  {
    forall j | j in Held(s.mem, ids)
      ensures s.mem.inflight[j] in Inside(s.mem.tasks)
    {
      HeldIsInside(s, j);
    }
    ImageFits(s.mem, Held(s.mem, ids), Inside(s.mem.tasks));
  }

  lemma HeldNext(m: Memory, ids: seq<JobId>, j: JobId)
    requires j !in ids
    ensures |Held(m, ids + [j])| == |Held(m, ids)| + (if j in m.inflight then 1 else 0)
  {
    assert Held(m, ids + [j]) == Held(m, ids) + (if j in m.inflight then {j} else {});
  }

  /** Every job of the batch is either passed over or claimed. */
  lemma {:induction false} HeldOrClaimed(m: Memory, ids: seq<JobId>, at: Instant)
    requires forall i, k :: 0 <= i < k < |ids| ==> ids[i] != ids[k]
    ensures |Held(m, ids)| + |Claimings(m, ids, at)| == |ids|
  {
    if ids == [] {
      assert Held(m, ids) == {};
    } else {
      var before, j := ids[..|ids| - 1], ids[|ids| - 1];
      HeldOrClaimed(m, before, at);
      HeldNext(m, before, j);
      assert ids == before + [j];
    }
  }

  // ---------------------------------------------------------------- the walk

  /** The loop has walked k jobs of the batch it read in s. */
  ghost predicate Walked(s: World, ids: seq<JobId>, at: Instant, k: nat, s': World) {
    && k <= |ids| && s'.mem.batch == ids[k..] && s'.mem.batchAt == at
    && s'.history == s.history + Claimings(s.mem, ids[..k], at)
    && (forall i :: 0 <= i < k && ids[i] !in s.mem.inflight ==> PhaseOf(s'.mem, ids[i]) == Some(Waiting))
    && (forall i :: k <= i < |ids| ==>
          && (ids[i] in s'.mem.inflight <==> ids[i] in s.mem.inflight)
          && Claimable(s'.db.jobs, ids[i]))
  }

  lemma WalkStarts(s: World, ids: seq<JobId>, at: Instant)
    requires forall i :: 0 <= i < |ids| ==> Claimable(s.db.jobs, ids[i])
    ensures Walked(s, ids, at, 0, s.(mem := s.mem.(batch := ids, batchAt := at)))
  {
    assert ids[..0] == [] && s.history + [] == s.history;
  }

  lemma ClaimingsNext(m: Memory, ids: seq<JobId>, at: Instant, k: nat)
    requires k < |ids|
    ensures Claimings(m, ids[..k + 1], at)
         == Claimings(m, ids[..k], at) + (if ids[k] in m.inflight then [] else [Claimed(ids[k], at)])
  {
    assert ids[..k + 1][..k] == ids[..k];
  }

  lemma FirstTaken(s: World, t: TaskId)
    requires s.mem.batch != [] && t !in s.mem.tasks && Claimable(s.db.jobs, s.mem.batch[0])
    ensures var s', j := Taken(s, t), s.mem.batch[0];
            && s'.mem.batch == s.mem.batch[1..] && s'.mem.batchAt == s.mem.batchAt
            && s'.history == s.history + (if j in s.mem.inflight then [] else [Claimed(j, s.mem.batchAt)])
            && PhaseOf(s'.mem, j) == if j in s.mem.inflight then PhaseOf(s.mem, j) else Some(Waiting)
  {
    assert s.history + [] == s.history;
  }

  lemma OthersKept(s: World, t: TaskId, j: JobId)
    requires s.mem.batch != [] && t !in s.mem.tasks && Registered(s.mem) && j != s.mem.batch[0]
    ensures var s' := Taken(s, t);
            && PhaseOf(s'.mem, j) == PhaseOf(s.mem, j)
            && (j in s'.mem.inflight <==> j in s.mem.inflight)
            && (Claimable(s'.db.jobs, j) <==> Claimable(s.db.jobs, j))
  {
  }

  lemma WalkOn(s: World, ids: seq<JobId>, at: Instant, k: nat, s': World, t: TaskId)
    requires Walked(s, ids, at, k, s') && s'.mem.batch != [] && t !in s'.mem.tasks && Registered(s'.mem)
    requires forall i, l :: 0 <= i < l < |ids| ==> ids[i] != ids[l]
    ensures Walked(s, ids, at, k + 1, Taken(s', t))
  {
    assert s'.mem.batch[0] == ids[k] && s'.mem.batch[1..] == ids[k + 1..];
    ClaimingsNext(s.mem, ids, at, k);
    FirstTaken(s', t);
    forall i | 0 <= i < |ids| && i != k
      ensures PhaseOf(Taken(s', t).mem, ids[i]) == PhaseOf(s'.mem, ids[i])
      ensures ids[i] in Taken(s', t).mem.inflight <==> ids[i] in s'.mem.inflight
      ensures Claimable(Taken(s', t).db.jobs, ids[i]) <==> Claimable(s'.db.jobs, ids[i])
    {
      OthersKept(s', t, ids[i]);
    }
    Associated(s.history, Claimings(s.mem, ids[..k], at),
               if ids[k] in s.mem.inflight then [] else [Claimed(ids[k], at)]);
  }

  lemma Associated(a: seq<Event>, b: seq<Event>, c: seq<Event>)
    ensures (a + b) + c == a + (b + c)
  {
  }

  lemma {:induction false} WalkRun(cfg: Config, s: World, ids: seq<JobId>, at: Instant, s1: World, takes: seq<Step>)
    requires Walked(s, ids, at, 0, s1) && Exclusion(s1.mem) && IsRun(cfg, s1, takes) && TakesOnly(takes)
    requires forall i, l :: 0 <= i < l < |ids| ==> ids[i] != ids[l]
    ensures Walked(s, ids, at, |takes|, After(cfg, s1, takes)) && Exclusion(After(cfg, s1, takes).mem)
    decreases |takes|
  {
    if takes != [] {
      var init, last := takes[..|takes| - 1], takes[|takes| - 1];
      WalkRun(cfg, s, ids, at, s1, init);
      WalkOn(s, ids, at, |init|, After(cfg, s1, init), last.t);
      ExclusionStep(cfg, After(cfg, s1, init), last);
    }
  }

  lemma {:induction false} TaskIdsBounded(ids: set<TaskId>) returns (t: TaskId)
    ensures forall u :: u in ids ==> u < t
    decreases ids
  {
    t := 0;
    if u :| u in ids {
      t := TaskIdsBounded(ids - {u});
      t := if u < t then t else u + 1;
      assert ids == (ids - {u}) + {u};
    }
  }

  lemma WalkEnds(cfg: Config, s: World) returns (takes: seq<Step>)
    ensures IsRun(cfg, s, takes) && TakesOnly(takes) && After(cfg, s, takes).mem.batch == []
  {
    takes := [];
    while After(cfg, s, takes).mem.batch != []
      invariant IsRun(cfg, s, takes) && TakesOnly(takes)
      decreases |After(cfg, s, takes).mem.batch|
    {
      var t := TaskIdsBounded(After(cfg, s, takes).mem.tasks.Keys);
      Extend(cfg, s, takes, Take(t));
      takes := takes + [Take(t)];
    }
  }

  /** One round of the loop: it reads a batch and walks it to its end. */
  ghost predicate IsRound(cfg: Config, s: World, now: Instant, ids: seq<JobId>, takes: seq<Step>) {
    && Enabled(s, Poll(now, ids))
    && var s1 := Apply(cfg, s, Poll(now, ids));
       IsRun(cfg, s1, takes) && TakesOnly(takes) && After(cfg, s1, takes).mem.batch == []
  }

  ghost function AfterRound(cfg: Config, s: World, now: Instant, ids: seq<JobId>, takes: seq<Step>): World
    requires IsRound(cfg, s, now, ids, takes)
  {
    After(cfg, Apply(cfg, s, Poll(now, ids)), takes)
  }

  /** A batch once read can always be walked to its end. */
  lemma RoundEnds(cfg: Config, s: World, now: Instant, ids: seq<JobId>) returns (takes: seq<Step>)
    requires Enabled(s, Poll(now, ids))
    ensures IsRound(cfg, s, now, ids, takes)
  {
    takes := WalkEnds(cfg, Apply(cfg, s, Poll(now, ids)));
  }

  lemma BatchIsQueued(jobs: Jobs, now: Instant, ids: seq<JobId>)
    requires IsReadyBatch(jobs, now, ids)
    ensures forall i :: 0 <= i < |ids| ==> Claimable(jobs, ids[i])
    ensures forall i, k :: 0 <= i < k < |ids| ==> ids[i] != ids[k]
  {
  }

  lemma RoundWalks(cfg: Config, s: World, now: Instant, ids: seq<JobId>, takes: seq<Step>)
    requires Exclusion(s.mem) && IsRound(cfg, s, now, ids, takes)
    ensures Walked(s, ids, now, |ids|, AfterRound(cfg, s, now, ids, takes))
  {
    BatchIsQueued(s.db.jobs, now, ids);
    WalkStarts(s, ids, now);
    RereadKeepsExclusion(s.mem, ids, now);
    WalkRun(cfg, s, ids, now, Apply(cfg, s, Poll(now, ids)), takes);
  }

  /** One round from any state a run reaches: exactly the jobs read that are not in flight are claimed, in their
      order, each with a task of its own; that is at least all but eight of them. */
  lemma RoundClaims(cfg: Config, printers: Printers, steps: seq<Step>, now: Instant, ids: seq<JobId>,
                    takes: seq<Step>)
    requires IsRun(cfg, Init(printers), steps) && IsRound(cfg, After(cfg, Init(printers), steps), now, ids, takes)
    ensures var s := After(cfg, Init(printers), steps);
            var s' := AfterRound(cfg, s, now, ids, takes);
            && s'.history == s.history + Claimings(s.mem, ids, now)
            && |Claimings(s.mem, ids, now)| >= |ids| - 8
            && (forall j :: j in ids && j !in s.mem.inflight ==> PhaseOf(s'.mem, j) == Some(Waiting))
  {
    var s := After(cfg, Init(printers), steps);
    MutualExclusion(cfg, printers, steps);
    SoundRun(cfg, printers, steps);
    BatchIsQueued(s.db.jobs, now, ids);
    RoundWalks(cfg, s, now, ids, takes);
    assert ids[..|ids|] == ids;
    AtMostEightHeld(s, ids);
    HeldOrClaimed(s.mem, ids, now);
  }

  /** In such a state a due job is in flight only when its last task is leaving. */
  lemma DueInFlight(cfg: Config, printers: Printers, steps: seq<Step>, now: Instant, j: JobId)
    requires IsRun(cfg, Init(printers), steps) && j in ReadyIds(After(cfg, Init(printers), steps).db.jobs, now)
    ensures var m := After(cfg, Init(printers), steps).mem; j in m.inflight ==> Leaving(m, j)
  {
    var s := After(cfg, Init(printers), steps);
    SoundRun(cfg, printers, steps);
    if j in s.mem.inflight {
      HeldIsInside(s, j);
    }
  }

  lemma LeftOutIsBehind(jobs: Jobs, now: Instant, ids: seq<JobId>, j: JobId)
    requires IsReadyBatch(jobs, now, ids) && j in ReadyIds(jobs, now) && j !in ids
    ensures |ids| == BATCH && forall i :: 0 <= i < |ids| ==> ids[i] in jobs && RunsBefore(jobs[ids[i]], jobs[j])
  {
    ReadyInOrder(jobs, now, ids);
  }

  /** No due job is passed over for nothing: its last task was still leaving, or after the round it has a new
      one, or at least forty-two jobs were claimed and every job read runs before it. */
  lemma NoneStarves(cfg: Config, printers: Printers, steps: seq<Step>, now: Instant, ids: seq<JobId>,
                    takes: seq<Step>, j: JobId)
    requires IsRun(cfg, Init(printers), steps) && IsRound(cfg, After(cfg, Init(printers), steps), now, ids, takes)
    requires j in ReadyIds(After(cfg, Init(printers), steps).db.jobs, now)
    ensures var s := After(cfg, Init(printers), steps);
            || Leaving(s.mem, j)
            || PhaseOf(AfterRound(cfg, s, now, ids, takes).mem, j) == Some(Waiting)
            || (&& |Claimings(s.mem, ids, now)| >= 42
                && forall i :: 0 <= i < |ids| ==> ids[i] in s.db.jobs && RunsBefore(s.db.jobs[ids[i]], s.db.jobs[j]))
  {
    RoundClaims(cfg, printers, steps, now, ids, takes);
    DueInFlight(cfg, printers, steps, now, j);
    if j !in ids {
      LeftOutIsBehind(After(cfg, Init(printers), steps).db.jobs, now, ids, j);
    }
  }
}
