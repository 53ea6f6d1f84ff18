/** Alerting once when a printer has been unreachable for too long (app/queue.py, `_check_offline`). */
module OfflineMonitor {
  import opened Basics
  import opened JobTable

  datatype Probe = Probe(printer: PrinterId, reachable: bool)

  /** A probe result as the monitor sees it, with the clock of its heartbeat. */
  datatype Sighting = Sighting(printer: PrinterId, reachable: bool, at: Instant)

  /** The monitor's two dictionaries. */
  datatype Watch = Watch(since: map<PrinterId, Instant>, alerted: set<PrinterId>)

  const FRESH := Watch(map[], {})

  function Tracked(w: Watch, s: Sighting): map<PrinterId, Instant> {
    if s.reachable then w.since - {s.printer}
    else if s.printer in w.since then w.since
    else w.since[s.printer := s.at]
  }

  predicate Raises(w: Watch, s: Sighting, threshold: Instant) {
    !s.reachable && s.at - Tracked(w, s)[s.printer] >= threshold && s.printer !in w.alerted
  }

  function Observe(w: Watch, s: Sighting, threshold: Instant): Watch {
    Watch(Tracked(w, s),
          if s.reachable then w.alerted - {s.printer}
          else if Raises(w, s, threshold) then w.alerted + {s.printer}
          else w.alerted)
  }

  function Watched(w: Watch, h: seq<Sighting>, threshold: Instant): Watch {
    if h == [] then w else Observe(Watched(w, h[..|h| - 1], threshold), h[|h| - 1], threshold)
  }

  /** The printers alerted about during h, in order. */
  function Raised(w: Watch, h: seq<Sighting>, threshold: Instant): seq<PrinterId> {
    if h == [] then []
    else
      var before, s := h[..|h| - 1], h[|h| - 1];
      Raised(w, before, threshold) + (if Raises(Watched(w, before, threshold), s, threshold) then [s.printer] else [])
  }

  function Stamped(probes: seq<Probe>, now: Instant): seq<Sighting> {
    seq(|probes|, i requires 0 <= i < |probes| => Sighting(probes[i].printer, probes[i].reachable, now))
  }

  class OfflineMonitor {
    const threshold: Instant
    var offlineSince: map<PrinterId, Instant>
    var offlineAlerted: set<PrinterId>

    function View(): Watch
      reads this
    {
      Watch(offlineSince, offlineAlerted)
    }

    constructor (threshold: Instant)
      ensures View() == FRESH && this.threshold == threshold
    {
      this.threshold := threshold;
      offlineSince, offlineAlerted := map[], {};
    }

    /** One heartbeat's probes; `alerts` are the webhook posts made. */
    method CheckOffline(probes: seq<Probe>, now: Instant) returns (alerts: seq<PrinterId>)
      modifies this
      ensures View() == Watched(old(View()), Stamped(probes, now), threshold)
      ensures alerts == Raised(old(View()), Stamped(probes, now), threshold)
    {
      alerts := [];
      ghost var h := Stamped(probes, now);
      for i := 0 to |probes|
        invariant View() == Watched(old(View()), h[..i], threshold)
        invariant alerts == Raised(old(View()), h[..i], threshold)
      {
        assert h[..i + 1][..i] == h[..i] && h[..i + 1][i] == h[i];
        var pid := probes[i].printer;
        if probes[i].reachable {
          offlineSince := offlineSince - {pid};
          offlineAlerted := offlineAlerted - {pid};
          continue;
        }
        if pid !in offlineSince {
          offlineSince := offlineSince[pid := now];
        }
        if now - offlineSince[pid] >= threshold && pid !in offlineAlerted {
          offlineAlerted := offlineAlerted + {pid};
          alerts := alerts + [pid];
        }
      }
      assert h[..|probes|] == h;
    }
  }

  // ---------------------------------------------------------------- outages

  /** The monitor before the k-th sighting of a history. */
  function Before(h: seq<Sighting>, k: nat, threshold: Instant): Watch
    requires k <= |h|
  {
    Watched(FRESH, h[..k], threshold)
  }

  /** Between o and k (excluded) no sighting of p finds it reachable. */
  predicate Unbroken(h: seq<Sighting>, p: PrinterId, o: nat, k: nat)
    requires k <= |h|
  {
    forall i :: o <= i < k && h[i].printer == p ==> !h[i].reachable
  }

  /** Before the k-th sighting, p's current outage began at o: its first unreachable sighting since
      the last reachable one. */
  predicate BeganAt(h: seq<Sighting>, p: PrinterId, o: nat, k: nat)
    requires k <= |h|
  {
    && o < k && h[o].printer == p && Unbroken(h, p, o, k)
    && forall i: nat :: i < o && h[i].printer == p && !h[i].reachable ==> !Unbroken(h, p, i, o)
  }

  predicate LateAt(h: seq<Sighting>, o: nat, i: nat, threshold: Instant)
    requires o <= i < |h|
  {
    h[i].printer == h[o].printer && h[i].at - h[o].at >= threshold
  }

  lemma OneBeginning(h: seq<Sighting>, p: PrinterId, o: nat, o': nat, k: nat)
    requires o < k <= |h| && o' < k
    ensures BeganAt(h, p, o, k) && BeganAt(h, p, o', k) ==> o == o'
  {
    var forth, back := Unbroken(h, p, o, o'), Unbroken(h, p, o', o);
  }

  /** Where p's current outage began, followed sighting by sighting. */
  function Outage(h: seq<Sighting>, p: PrinterId, k: nat): (o: Option<nat>)
    requires k <= |h|
    ensures o.Some? ==> o.value < k
  {
    if k == 0 then None
    else if h[k - 1].printer != p then Outage(h, p, k - 1)
    else if h[k - 1].reachable then None
    else if Outage(h, p, k - 1).Some? then Outage(h, p, k - 1)
    else Some(k - 1)
  }

  lemma {:induction false} OutageIs(h: seq<Sighting>, p: PrinterId, k: nat)
    requires k <= |h|
    ensures match Outage(h, p, k)
            case None => forall i: nat :: i < k && h[i].printer == p && !h[i].reachable ==> !Unbroken(h, p, i, k)
            case Some(o) => BeganAt(h, p, o, k)
  {
    if k > 0 {
      OutageIs(h, p, k - 1);
      forall i: nat | i < k - 1 && !Unbroken(h, p, i, k - 1)
        ensures !Unbroken(h, p, i, k)
      {
      }
    }
  }

  ghost predicate LateWithin(h: seq<Sighting>, o: nat, k: nat, threshold: Instant)
    requires o <= k <= |h|
  {
    exists i: nat :: o <= i < k && LateAt(h, o, i, threshold)
  }

  /** What the monitor remembers of p is exactly its current outage: when it began, and whether some
      sighting in it was late enough. */
  ghost predicate Remembers(h: seq<Sighting>, p: PrinterId, k: nat, threshold: Instant)
    requires k <= |h|
  {
    var w := Before(h, k, threshold);
    match Outage(h, p, k)
    case None => p !in w.since && p !in w.alerted
    case Some(o) => p in w.since && w.since[p] == h[o].at && (p in w.alerted <==> LateWithin(h, o, k, threshold))
  }

  lemma StepBefore(h: seq<Sighting>, k: nat, threshold: Instant)
    requires k < |h|
    ensures Before(h, k + 1, threshold) == Observe(Before(h, k, threshold), h[k], threshold)
  {
    assert h[..k + 1][..k] == h[..k];
  }

  lemma LateNext(h: seq<Sighting>, o: nat, k: nat, threshold: Instant)
    requires o <= k < |h|
    ensures LateWithin(h, o, k + 1, threshold) <==> LateWithin(h, o, k, threshold) || LateAt(h, o, k, threshold)
  {
  }

  lemma {:induction false} RemembersOutage(h: seq<Sighting>, p: PrinterId, k: nat, threshold: Instant)
    requires k <= |h|
    ensures Remembers(h, p, k, threshold)
  {
    if k > 0 {
      RemembersOutage(h, p, k - 1, threshold);
      StepBefore(h, k - 1, threshold);
      OutageIs(h, p, k);
      if Outage(h, p, k).Some? {
        LateNext(h, Outage(h, p, k).value, k - 1, threshold);
      }
    }
  }

  // ---------------------------------------------------------------- the alerts

  /** The k-th sighting is the first of its outage at or past the threshold. */
  ghost predicate FirstLate(h: seq<Sighting>, k: nat, threshold: Instant)
    requires k < |h|
  {
    exists o: nat ::
      && BeganAt(h, h[k].printer, o, k + 1)
      && LateAt(h, o, k, threshold)
      && !LateWithin(h, o, k, threshold)
  }

  /** Over any history of probes: an alert is raised at a sighting exactly when it is the first, in the
      printer's unbroken outage, at or past the threshold from the outage's first sighting. */
  lemma AlertsExactly(h: seq<Sighting>, k: nat, threshold: Instant)
    requires k < |h|
    ensures Raises(Before(h, k, threshold), h[k], threshold) <==> FirstLate(h, k, threshold)
  {
    var p := h[k].printer;
    RemembersOutage(h, p, k, threshold);
    OutageIs(h, p, k + 1);
    if !h[k].reachable {
      var o, n := Outage(h, p, k + 1).value, k + 1;
      forall o': nat
        ensures BeganAt(h, p, o', n) ==> o' == o
      {
        if o' < n {
          OneBeginning(h, p, o, o', n);
        }
      }
      assert Raises(Before(h, k, threshold), h[k], threshold) <==>
             LateAt(h, o, k, threshold) && !LateWithin(h, o, k, threshold);
    }
  }

  /** So between two alerts about one printer it was seen reachable. */
  lemma OneAlertPerOutage(h: seq<Sighting>, k: nat, l: nat, threshold: Instant)
    requires k < l < |h| && h[k].printer == h[l].printer
    requires Raises(Before(h, k, threshold), h[k], threshold) && Raises(Before(h, l, threshold), h[l], threshold)
    ensures exists i :: k < i < l && h[i].printer == h[k].printer && h[i].reachable
  {
    AlertsExactly(h, k, threshold);
    AlertsExactly(h, l, threshold);
    var p := h[k].printer;
    var o: nat :| BeganAt(h, p, o, k + 1) && LateAt(h, o, k, threshold);
    var o': nat :| BeganAt(h, p, o', l + 1) && !LateWithin(h, o', l, threshold);
    OneBeginning(h, p, o, o', l + 1);
    assert Unbroken(h, p, k, l) ==> BeganAt(h, p, o, l + 1);
  }

  /** The alerted printers are always among the tracked ones. */
  lemma AlertedAreTracked(h: seq<Sighting>, threshold: Instant)
    ensures Watched(FRESH, h, threshold).alerted <= Watched(FRESH, h, threshold).since.Keys
  {
    assert h[..|h|] == h;
    forall p
      ensures p in Watched(FRESH, h, threshold).alerted ==> p in Watched(FRESH, h, threshold).since
    {
      RemembersOutage(h, p, |h|, threshold);
    }
  }
}
