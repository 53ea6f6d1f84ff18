/** The sliding-window rate limiter (app/auth.py, class RateLimiter). */
module RateLimiter {
  import opened Basics

  const MINUTE: Instant := 60.0

  /** One deque of accepted instants per client address. */
  type Hits = map<string, seq<Instant>>

  datatype Call = Call(key: string, at: Instant)

  function Window(hits: Hits, key: string): seq<Instant> {
    if key in hits then hits[key] else []
  }

  /** A deque after popping its old instants from the left. */
  function Dropped(window: seq<Instant>, since: Instant): seq<Instant> {
    if window != [] && window[0] < since then Dropped(window[1..], since) else window
  }

  function Fresh(hits: Hits, c: Call): seq<Instant> {
    Dropped(Window(hits, c.key), c.at - MINUTE)
  }

  predicate Accepts(hits: Hits, perMinute: int, c: Call) {
    |Fresh(hits, c)| < perMinute
  }

  /** A rejected call pops too. */
  function Checked(hits: Hits, perMinute: int, c: Call): Hits {
    hits[c.key := Fresh(hits, c) + (if Accepts(hits, perMinute, c) then [c.at] else [])]
  }

  class RateLimiter {
    const perMinute: int
    var hits: Hits

    constructor (perMinute: int)
      ensures hits == map[] && this.perMinute == perMinute
    {
      this.perMinute := perMinute;
      hits := map[];
    }

    method Check(key: string, now: Instant) returns (accepted: bool)
      modifies this
      ensures accepted == Accepts(old(hits), perMinute, Call(key, now))
      ensures hits == Checked(old(hits), perMinute, Call(key, now))
    {
      var window := if key in hits then hits[key] else [];
      while window != [] && window[0] < now - MINUTE
        invariant Dropped(window, now - MINUTE) == Fresh(old(hits), Call(key, now))
      {
        window := window[1..];
      }
      accepted := |window| < perMinute;
      if accepted {
        window := window + [now];
      } else {
        assert window + [] == window;
      }
      hits := hits[key := window];
    }
  }

  // ---------------------------------------------------------------- runs

  function After(calls: seq<Call>, perMinute: int): Hits {
    if calls == [] then map[] else Checked(After(calls[..|calls| - 1], perMinute), perMinute, calls[|calls| - 1])
  }

  function Accepted(calls: seq<Call>, perMinute: int): seq<Call> {
    if calls == [] then []
    else
      var before, c := calls[..|calls| - 1], calls[|calls| - 1];
      Accepted(before, perMinute) + (if Accepts(After(before, perMinute), perMinute, c) then [c] else [])
  }

  /** A clock that never goes back. */
  predicate Clocked(calls: seq<Call>) {
    forall i, k :: 0 <= i < k < |calls| ==> calls[i].at <= calls[k].at
  }

  /** The instants of the calls of one key from an instant on. */
  function Recent(calls: seq<Call>, key: string, since: Instant): seq<Instant> {
    if calls == [] then []
    else
      var c := calls[|calls| - 1];
      Recent(calls[..|calls| - 1], key, since) + (if c.key == key && c.at >= since then [c.at] else [])
  }

  /** The number of calls of one key in the closed minute from an instant. */
  function InMinute(calls: seq<Call>, key: string, from: Instant): nat {
    if calls == [] then 0
    else
      var c := calls[|calls| - 1];
      InMinute(calls[..|calls| - 1], key, from) + (if c.key == key && from <= c.at <= from + 60.0 then 1 else 0)
  }

  // ---------------------------------------------------------------- the window is the recent history

  lemma {:induction false} DroppedLast(window: seq<Instant>, t: Instant, since: Instant)
    ensures Dropped(window + [t], since)
         == if Dropped(window, since) == [] && t < since then [] else Dropped(window, since) + [t]
  {
    if window != [] {
      assert (window + [t])[0] == window[0] && (window + [t])[1..] == window[1..] + [t];
      if window[0] < since {
        DroppedLast(window[1..], t, since);
      }
    } else {
      assert [] + [t] == [t] && [t][1..] == [];
    }
  }

  lemma {:induction false} AllDropped(calls: seq<Call>, key: string, since: Instant, late: Instant)
    requires forall i :: 0 <= i < |calls| ==> calls[i].at < late
    ensures Dropped(Recent(calls, key, since), late) == []
  {
    if calls != [] {
      var before, c := calls[..|calls| - 1], calls[|calls| - 1];
      AllDropped(before, key, since, late);
      DroppedLast(Recent(before, key, since), c.at, late);
      assert Recent(before, key, since) + [] == Recent(before, key, since);
    }
  }

  /** Popping from the left an ordered deque is filtering it. */
  lemma {:induction false} DropIsFilter(calls: seq<Call>, key: string, since: Instant, late: Instant)
    requires Clocked(calls) && since <= late
    ensures Dropped(Recent(calls, key, since), late) == Recent(calls, key, late)
  {
    if calls != [] {
      var before, c := calls[..|calls| - 1], calls[|calls| - 1];
      DropIsFilter(before, key, since, late);
      DroppedLast(Recent(before, key, since), c.at, late);
      if c.at < late {
        AllDropped(before, key, since, late);
      }
      assert Recent(before, key, since) + [] == Recent(before, key, since);
      assert Recent(before, key, late) + [] == Recent(before, key, late);
    }
  }

  predicate NoLaterThan(calls: seq<Call>, t: Instant) {
    forall i :: 0 <= i < |calls| ==> calls[i].at <= t
  }

  lemma ClockedPrefix(calls: seq<Call>)
    requires Clocked(calls) && calls != []
    ensures Clocked(calls[..|calls| - 1]) && NoLaterThan(calls[..|calls| - 1], calls[|calls| - 1].at)
  {
  }

  lemma {:induction false} AcceptedNoLater(calls: seq<Call>, perMinute: int, t: Instant)
    requires NoLaterThan(calls, t)
    ensures NoLaterThan(Accepted(calls, perMinute), t)
  {
    if calls != [] {
      AcceptedNoLater(calls[..|calls| - 1], perMinute, t);
    }
  }

  lemma {:induction false} AcceptedClocked(calls: seq<Call>, perMinute: int)
    requires Clocked(calls)
    ensures Clocked(Accepted(calls, perMinute))
  {
    if calls != [] {
      var before, c := calls[..|calls| - 1], calls[|calls| - 1];
      ClockedPrefix(calls);
      AcceptedClocked(before, perMinute);
      AcceptedNoLater(before, perMinute, c.at);
    }
  }

  lemma OtherKey(calls: seq<Call>, last: Call, key: string, since: Instant)
    requires last.key != key
    ensures Recent(calls + [last], key, since) == Recent(calls, key, since)
    ensures Recent(calls + [], key, since) == Recent(calls, key, since)
  {
    assert (calls + [last])[..|calls|] == calls && calls + [] == calls;
  }

  lemma SameKey(calls: seq<Call>, last: Call, since: Instant)
    requires last.at >= since
    ensures Recent(calls + [last], last.key, since) == Recent(calls, last.key, since) + [last.at]
    ensures Recent(calls + [], last.key, since) == Recent(calls, last.key, since) + []
  {
    assert (calls + [last])[..|calls|] == calls && calls + [] == calls;
  }

  lemma LaterCall(hits: Hits, accepted: seq<Call>, c: Call, since: Instant)
    requires Clocked(accepted) && since <= c.at - MINUTE
    requires Window(hits, c.key) == Recent(accepted, c.key, since)
    ensures Fresh(hits, c) == Recent(accepted, c.key, c.at - MINUTE)
  {
    DropIsFilter(accepted, c.key, since, c.at - MINUTE);
  }

  function AcceptedNext(hits: Hits, accepted: seq<Call>, perMinute: int, last: Call): seq<Call> {
    accepted + (if Accepts(hits, perMinute, last) then [last] else [])
  }

  lemma SameKeyNext(hits: Hits, accepted: seq<Call>, perMinute: int, last: Call, key: string, since: Instant)
    requires key == last.key && since == last.at - MINUTE && Fresh(hits, last) == Recent(accepted, key, since)
    ensures Window(Checked(hits, perMinute, last), key)
         == Recent(AcceptedNext(hits, accepted, perMinute, last), key, since)
  {
    SameKey(accepted, last, since);
  }

  lemma OtherKeyNext(hits: Hits, accepted: seq<Call>, perMinute: int, last: Call, c: Call)
    requires last.key != c.key && Fresh(hits, c) == Recent(accepted, c.key, c.at - MINUTE)
    ensures Fresh(Checked(hits, perMinute, last), c)
         == Recent(AcceptedNext(hits, accepted, perMinute, last), c.key, c.at - MINUTE)
  {
    OtherKey(accepted, last, c.key, c.at - MINUTE);
    assert Window(Checked(hits, perMinute, last), c.key) == Window(hits, c.key);
  }

  /** One more call keeps what the next one sees equal to the recent accepted history. */
  lemma NextIsRecent(hits: Hits, accepted: seq<Call>, perMinute: int, last: Call, c: Call)
    requires Clocked(AcceptedNext(hits, accepted, perMinute, last)) && last.at <= c.at
    requires var seen := if last.key == c.key then last else c;
             Fresh(hits, seen) == Recent(accepted, c.key, seen.at - MINUTE)
    ensures Fresh(Checked(hits, perMinute, last), c)
         == Recent(AcceptedNext(hits, accepted, perMinute, last), c.key, c.at - MINUTE)
  {
    if last.key == c.key {
      var hits', accepted' := Checked(hits, perMinute, last), AcceptedNext(hits, accepted, perMinute, last);
      var since := last.at - MINUTE;
      SameKeyNext(hits, accepted, perMinute, last, c.key, since);
      LaterCall(hits', accepted', c, since);
    } else {
      OtherKeyNext(hits, accepted, perMinute, last, c);
    }
  }

  lemma LastCall(calls: seq<Call>, perMinute: int)
    requires calls != []
    ensures var before, last := calls[..|calls| - 1], calls[|calls| - 1];
            && After(calls, perMinute) == Checked(After(before, perMinute), perMinute, last)
            && Accepted(calls, perMinute)
               == AcceptedNext(After(before, perMinute), Accepted(before, perMinute), perMinute, last)
  {
  }

  /** With a clock that never goes back, after any run the deque a call looks at is exactly the accepted
      history of its key in the last minute. */
  lemma {:induction false} WindowIsRecent(calls: seq<Call>, perMinute: int, c: Call)
    requires Clocked(calls) && NoLaterThan(calls, c.at)
    ensures Fresh(After(calls, perMinute), c) == Recent(Accepted(calls, perMinute), c.key, c.at - 60.0)
    decreases |calls|
  {
    if calls != [] {
      var before, last := calls[..|calls| - 1], calls[|calls| - 1];
      ClockedPrefix(calls);
      WindowIsRecent(before, perMinute, if last.key == c.key then last else c);
      AcceptedClocked(calls, perMinute);
      LastCall(calls, perMinute);
      NextIsRecent(After(before, perMinute), Accepted(before, perMinute), perMinute, last, c);
    }
  }

  /** So a call is rejected exactly when the limit was already reached in the minute before it. */
  lemma RejectsExactly(calls: seq<Call>, perMinute: int, c: Call)
    requires Clocked(calls) && NoLaterThan(calls, c.at)
    ensures !Accepts(After(calls, perMinute), perMinute, c)
       <==> |Recent(Accepted(calls, perMinute), c.key, c.at - 60.0)| >= perMinute
  {
    WindowIsRecent(calls, perMinute, c);
  }

  // ---------------------------------------------------------------- the bound

  lemma {:induction false} MinuteWithinRecent(calls: seq<Call>, key: string, from: Instant, since: Instant)
    requires since <= from
    ensures InMinute(calls, key, from) <= |Recent(calls, key, since)|
  {
    if calls != [] {
      MinuteWithinRecent(calls[..|calls| - 1], key, from, since);
    }
  }

  /** No closed minute, wherever it starts, holds more accepted calls of one client than the limit. */
  lemma {:induction false} LimitHolds(calls: seq<Call>, perMinute: int, key: string, from: Instant)
    requires Clocked(calls)
    ensures InMinute(Accepted(calls, perMinute), key, from) <= if perMinute > 0 then perMinute else 0
  {
    if calls != [] {
      var before, c := calls[..|calls| - 1], calls[|calls| - 1];
      var accepted := Accepted(before, perMinute);
      ClockedPrefix(calls);
      LimitHolds(before, perMinute, key, from);
      RejectsExactly(before, perMinute, c);
      assert accepted + [] == accepted && (accepted + [c])[..|accepted|] == accepted;
      if c.key == key && from <= c.at <= from + MINUTE {
        MinuteWithinRecent(accepted, key, from, c.at - MINUTE);
      }
    }
  }
}
