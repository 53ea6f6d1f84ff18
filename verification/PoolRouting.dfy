/** The pool router (app/pools.py, `_members` and `resolve_target`), and what rotation promises. */
module PoolRouting {
  import opened Basics
  import opened JobTable
  import opened Pools

  method ExistingMembers(printers: Printers, ids: seq<PrinterId>) returns (r: Result<seq<Printer>>)
    ensures r == Members(printers, ids)
  {
    var members: seq<Printer> := [];
    var i := 0;
    assert ids[0..] == ids;
    assert Members(printers, ids).Ok? ==> [] + Members(printers, ids).value == Members(printers, ids).value;
    while i < |ids|
      invariant 0 <= i <= |ids|
      invariant Members(printers, ids)
             == match Members(printers, ids[i..]) case Err(e) => Err(e) case Ok(rest) => Ok(members + rest)
    {
      if ids[i] in printers {
        var m := printers[ids[i]];
        if m.kind.Pool? {
          return Err(ValidationError);
        }
        ghost var rest := Members(printers, ids[i + 1..]);
        assert rest.Ok? ==> members + ([m] + rest.value) == (members + [m]) + rest.value;
        members := members + [m];
      }
      i := i + 1;
    }
    assert members + [] == members;
    r := Ok(members);
  }

  /** The first member whose probe answered. */
  method FirstReachable(up: seq<bool>) returns (k: Option<nat>)
    ensures k == FirstUp(up)
  {
    var i := 0;
    while i < |up|
      invariant 0 <= i <= |up|
      invariant FirstUp(up) == match FirstUp(up[i..]) case None => None case Some(n) => Some(i + n)
    {
      if up[i] {
        return Some(i);
      }
      i := i + 1;
    }
    k := None;
  }

  class PoolRouter {
    var cursors: Cursors

    constructor ()
      ensures cursors == map[]
    {
      cursors := map[];
    }

    /** The order to try the members in; a round-robin pool starts one further each time. */
    method Rotate(pool: PrinterId, members: seq<Printer>, roundRobin: bool) returns (order: seq<Printer>)
      modifies this
      ensures order == Order(members, roundRobin, old(cursors), pool)
      ensures cursors == Advanced(members, roundRobin, old(cursors), pool)
    {
      order := members;
      if members == [] || !roundRobin {
        return;
      }
      var idx := (if pool in cursors then cursors[pool] else 0) % |members|;
      order := members[idx..] + members[..idx];
      cursors := cursors[pool := (idx + 1) % |members|];
    }

    /** `resolve_target`: a printer that is no pool is its own target; otherwise the first member
        that answers, or unreachable.  `answers` is what each printer's status probe says. */
    method ResolveTarget(printers: Printers, p: Printer, answers: Printer -> bool) returns (r: Result<Option<Printer>>)
      modifies this
      ensures !p.kind.Pool? ==> r == Ok(Some(p)) && cursors == old(cursors)
      ensures p.kind.Pool? ==>
                match Members(printers, p.kind.members)
                case Err(e) => r == Err(e) && cursors == old(cursors)
                case Ok(members) =>
                  && r == Ok(FirstAnswering(Order(members, p.kind.roundRobin, old(cursors), p.id), answers))
                  && cursors == Advanced(members, p.kind.roundRobin, old(cursors), p.id)
    {
      if !p.kind.Pool? {
        return Ok(Some(p));
      }
      var members := ExistingMembers(printers, p.kind.members);
      if members.Err? {
        return Err(members.error);
      }
      var order := Rotate(p.id, members.value, p.kind.roundRobin);
      var i := 0;
      while i < |order|
        invariant 0 <= i <= |order|
        invariant forall k :: 0 <= k < i ==> !answers(order[k])
      {
        if answers(order[i]) {
          assert Probes(order, answers)[i];
          return Ok(Some(order[i]));
        }
        i := i + 1;
      }
      r := Ok(None);
    }
  }

  /** What probing everyone in order would show. */
  function Probes(order: seq<Printer>, answers: Printer -> bool): seq<bool> {
    seq(|order|, i requires 0 <= i < |order| => answers(order[i]))
  }

  function FirstAnswering(order: seq<Printer>, answers: Printer -> bool): Option<Printer> {
    match FirstUp(Probes(order, answers))
    case None => None
    case Some(k) => Some(order[k])
  }

  /** Which member goes first, and that a rotation loses nobody: position i of the order is member
      start + i around the circle. */
  lemma RotationIsCircular<T>(members: seq<T>, start: nat, i: nat)
    requires start < |members| && i < |members|
    ensures Rotated(members, start)[i] == members[(start + i) % |members|]
  {
    if start + i < |members| {
      ModUnique(start + i, 0, start + i, |members|);
    } else {
      ModUnique(start + i, 1, start + i - |members|, |members|);
    }
  }

  lemma OrderKeepsMembers(members: seq<Printer>, roundRobin: bool, cursors: Cursors, pool: PrinterId, m: Printer)
    ensures m in Order(members, roundRobin, cursors, pool) <==> m in members
  {
    if members != [] && roundRobin {
      var start := StartIndex(cursors, pool, |members|);
      assert members == members[..start] + members[start..];
    }
  }

  /** The members are the listed printers at these places of the list, in order. */
  predicate PickedAt(printers: Printers, ids: seq<PrinterId>, members: seq<Printer>, at: seq<nat>) {
    && |at| == |members|
    && (forall k :: 0 <= k < |at| ==>
          at[k] < |ids| && ids[at[k]] in printers && members[k] == printers[ids[at[k]]])
    && (forall k, l :: 0 <= k < l < |at| ==> at[k] < at[l])
  }

  /** No listed printer that exists is left out. */
  predicate NoneLeftOut(printers: Printers, ids: seq<PrinterId>, at: seq<nat>) {
    forall i :: 0 <= i < |ids| && ids[i] in printers ==> i in at
  }

  function Shifted(at: seq<nat>): (more: seq<nat>)
    ensures |more| == |at| && forall k :: 0 <= k < |at| ==> more[k] == at[k] + 1
  {
    seq(|at|, k requires 0 <= k < |at| => at[k] + 1)
  }

  lemma PickedMore(printers: Printers, ids: seq<PrinterId>, members: seq<Printer>, at: seq<nat>)
    requires ids != [] && PickedAt(printers, ids[1..], members, at)
    ensures PickedAt(printers, ids, members, Shifted(at))
    ensures ids[0] in printers ==> PickedAt(printers, ids, [printers[ids[0]]] + members, [0] + Shifted(at))
  {
    forall k | 0 <= k < |at|
      ensures ids[1..][at[k]] == ids[Shifted(at)[k]]
    {
    }
  }

  lemma CoveredMore(printers: Printers, ids: seq<PrinterId>, at: seq<nat>)
    requires ids != [] && NoneLeftOut(printers, ids[1..], at)
    ensures NoneLeftOut(printers, ids, if ids[0] in printers then [0] + Shifted(at) else Shifted(at))
  {
    var more := if ids[0] in printers then [0] + Shifted(at) else Shifted(at);
    forall i | 0 <= i < |ids| && ids[i] in printers
      ensures i in more
    {
      if i == 0 {
        assert more[0] == 0;
      } else {
        assert ids[1..][i - 1] == ids[i];
        var k :| 0 <= k < |at| && at[k] == i - 1;
        assert Shifted(at)[k] == i;
      }
    }
  }

  /** Every listed printer that still exists is a member, in listed order, and no one else is; it is an error
      exactly when one of them is a pool. */
  lemma {:induction false} MembersExactly(printers: Printers, ids: seq<PrinterId>) returns (at: seq<nat>)
    ensures Members(printers, ids).Ok?
       <==> forall i :: 0 <= i < |ids| && ids[i] in printers ==> !printers[ids[i]].kind.Pool?
    ensures match Members(printers, ids)
            case Err(e) => e == ValidationError
            case Ok(members) => PickedAt(printers, ids, members, at) && NoneLeftOut(printers, ids, at)
  {
    at := [];
    if ids != [] {
      at := MembersExactly(printers, ids[1..]);
      assert forall i :: 0 < i < |ids| ==> ids[1..][i - 1] == ids[i];
      if Members(printers, ids[1..]).Ok? {
        PickedMore(printers, ids, Members(printers, ids[1..]).value, at);
        CoveredMore(printers, ids, at);
      }
      at := if ids[0] in printers then [0] + Shifted(at) else Shifted(at);
    }
  }

  /** Position i on a circle of n, counted from a cursor. */
  function Around(cursor: nat, n: nat, i: nat): (k: nat)
    requires n > 0
    ensures k < n
  {
    (cursor % n + i) % n
  }

  /** Who is tried when: a pool that does not rotate tries its members as listed, one that does starts at its
      cursor and goes around the circle. */
  lemma OrderExactly<T>(members: seq<T>, roundRobin: bool, cursors: Cursors, pool: PrinterId, i: nat)
    requires i < |members|
    ensures Order(members, roundRobin, cursors, pool)[i]
         == members[if roundRobin then Around(CursorOf(cursors, pool), |members|, i) else i]
  {
    if roundRobin {
      RotationIsCircular(members, CursorOf(cursors, pool) % |members|, i);
    }
  }

  /** A pool is served exactly when some existing member answers. */
  lemma ServedExactly(members: seq<Printer>, roundRobin: bool, cursors: Cursors, pool: PrinterId,
                      answers: Printer -> bool)
    ensures FirstAnswering(Order(members, roundRobin, cursors, pool), answers).Some?
       <==> exists m :: m in members && answers(m)
  {
    var order := Order(members, roundRobin, cursors, pool);
    match FirstUp(Probes(order, answers)) {
      case Some(k) =>
        assert Probes(order, answers)[k] && order[k] in order;
        OrderKeepsMembers(members, roundRobin, cursors, pool, order[k]);
      case None =>
        forall m | m in members ensures !answers(m) {
          OrderKeepsMembers(members, roundRobin, cursors, pool, m);
          var i :| 0 <= i < |order| && order[i] == m;
          assert !Probes(order, answers)[i];
        }
    }
  }

  // ---------------------------------------------------------------- fairness

  /** The cursor after m dispatches over n members, starting from c. */
  function CursorAfter(c: nat, n: nat, m: nat): nat
    requires n > 0
  {
    if m == 0 then c else (CursorAfter(c, n, m - 1) % n + 1) % n
  }

  /** How many of m dispatches start at position p. */
  function Starts(c: nat, n: nat, m: nat, p: nat): nat
    requires n > 0
  {
    if m == 0 then 0 else Starts(c, n, m - 1, p) + (if CursorAfter(c, n, m - 1) % n == p then 1 else 0)
  }

  /** The cursors after m dispatches of the pool. */
  function Dispatched(members: seq<Printer>, cursors: Cursors, pool: PrinterId, m: nat): Cursors {
    if m == 0 then cursors else Advanced(members, true, Dispatched(members, cursors, pool, m - 1), pool)
  }

  function Positions(n: nat): seq<nat> {
    seq(n, i requires 0 <= i < n => i)
  }

  /** The order is one of positions, whatever stands there. */
  lemma OrderByPosition<T>(members: seq<T>, roundRobin: bool, cursors: Cursors, pool: PrinterId, i: nat)
    requires i < |members|
    ensures var k := Order(Positions(|members|), roundRobin, cursors, pool)[i];
            k < |members| && Order(members, roundRobin, cursors, pool)[i] == members[k]
  {
    OrderExactly(members, roundRobin, cursors, pool, i);
    OrderExactly(Positions(|members|), roundRobin, cursors, pool, i);
  }

  /** How many of those m dispatches put the member at position p first. */
  function FirstCount(members: seq<Printer>, cursors: Cursors, pool: PrinterId, m: nat, p: nat): nat
    requires p < |members|
  {
    if m == 0 then 0
    else
      FirstCount(members, cursors, pool, m - 1, p)
      + (if Order(Positions(|members|), true, Dispatched(members, cursors, pool, m - 1), pool)[0] == p then 1 else 0)
  }

  /** Dispatches of one pool move its own cursor only, around the circle. */
  lemma {:induction false} DispatchesMoveOneCursor(members: seq<Printer>, cursors: Cursors, pool: PrinterId, m: nat,
                                                   other: PrinterId)
    requires members != []
    ensures CursorOf(Dispatched(members, cursors, pool, m), pool) == CursorAfter(CursorOf(cursors, pool), |members|, m)
    ensures m > 0 ==> CursorOf(Dispatched(members, cursors, pool, m), pool) < |members|
    ensures other != pool ==> CursorOf(Dispatched(members, cursors, pool, m), other) == CursorOf(cursors, other)
  {
    if m > 0 {
      DispatchesMoveOneCursor(members, cursors, pool, m - 1, other);
    }
  }

  lemma FirstIsCursor(n: nat, cursors: Cursors, pool: PrinterId)
    requires n > 0
    ensures Order(Positions(n), true, cursors, pool)[0] == CursorOf(cursors, pool) % n
  {
    OrderExactly(Positions(n), true, cursors, pool, 0);
    NextIsModular(CursorOf(cursors, pool) % n, n);
  }

  lemma {:induction false} FirstCountIsStarts(members: seq<Printer>, cursors: Cursors, pool: PrinterId, m: nat, p: nat)
    requires p < |members|
    ensures FirstCount(members, cursors, pool, m, p) == Starts(CursorOf(cursors, pool), |members|, m, p)
  {
    if m > 0 {
      FirstCountIsStarts(members, cursors, pool, m - 1, p);
      FirstIsCursor(|members|, Dispatched(members, cursors, pool, m - 1), pool);
      DispatchesMoveOneCursor(members, cursors, pool, m - 1, pool);
    }
  }

  lemma ModUnique(a: nat, q: nat, r: nat, n: nat)
    requires n > 0 && r < n && a == q * n + r
    ensures a % n == r && a / n == q
  {
    var d := a / n - q;
    assert a == (a / n) * n + a % n;
    assert d * n == r - a % n;
    assert (d >= 1 ==> d * n >= n) && (d <= -1 ==> d * n + n <= 0);
  }

  /** The place after c on a circle of n. */
  function Next(c: nat, n: nat): nat
    requires c < n
  {
    if c + 1 == n then 0 else c + 1
  }

  lemma NextIsModular(c: nat, n: nat)
    requires c < n
    ensures c % n == c && (c % n + 1) % n == Next(c, n)
  {
    ModUnique(c, 0, c, n);
    if c + 1 == n {
      ModUnique(n, 1, 0, n);
    } else {
      ModUnique(c + 1, 0, c + 1, n);
    }
  }

  /** How many dispatches starting from c until position p is the starting one. */
  function Gap(c: nat, n: nat, p: nat): nat
    requires c < n && p < n
  {
    if p >= c then p - c else p + n - c
  }

  /** After q full laps and r more dispatches every position has been the start q times, and the r
      positions from c on once more. */
  lemma {:induction false} Laps(c: nat, n: nat, m: nat) returns (q: nat, r: nat)
    requires c < n
    ensures m == q * n + r && r < n
    ensures CursorAfter(c, n, m) == if c + r < n then c + r else c + r - n
    ensures forall p :: 0 <= p < n ==> Starts(c, n, m, p) == q + (if Gap(c, n, p) < r then 1 else 0)
  {
    if m == 0 {
      q, r := 0, 0;
    } else {
      q, r := Laps(c, n, m - 1);
      NextIsModular(CursorAfter(c, n, m - 1), n);
      if r + 1 == n {
        assert (q + 1) * n == q * n + n;
        q, r := q + 1, 0;
      } else {
        r := r + 1;
      }
    }
  }

  /** A cursor left over from a larger membership is brought into range by the first dispatch. */
  lemma {:induction false} StaleCursor(c: nat, n: nat, m: nat, p: nat)
    requires n > 0
    ensures Starts(c, n, m, p) == Starts(c % n, n, m, p)
    ensures m > 0 ==> CursorAfter(c, n, m) == CursorAfter(c % n, n, m)
  {
    NextIsModular(c % n, n);
    if m > 0 {
      StaleCursor(c, n, m - 1, p);
    }
  }

  /** Fairness: of any m dispatches over a fixed membership of n, from any cursor, each member is
      tried first in floor(m/n) or ceiling(m/n) of them. */
  lemma RoundRobinIsFair(members: seq<Printer>, cursors: Cursors, pool: PrinterId, m: nat, p: nat)
    requires p < |members|
    ensures var n := |members|;
            var times := FirstCount(members, cursors, pool, m, p);
            times == m / n || times == (m + n - 1) / n
  {
    var c, n := CursorOf(cursors, pool), |members|;
    FirstCountIsStarts(members, cursors, pool, m, p);
    StaleCursor(c, n, m, p);
    var q, r := Laps(c % n, n, m);
    ModUnique(m, q, r, n);
    if r > 0 {
      assert (q + 1) * n == q * n + n;
      ModUnique(m + n - 1, q + 1, r - 1, n);
    }
  }
}
