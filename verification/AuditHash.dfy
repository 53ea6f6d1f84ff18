/** That what the audit chain assumes of its hash can be met: a function without collisions exists. */
module AuditHash {
  import opened Basics
  import opened AuditChain

  /** A number told by its length, up to a closing zero. */
  function Ones(n: nat): string {
    if n == 0 then "0" else "1" + Ones(n - 1)
  }

  function Text(s: string): string {
    Ones(|s|) + s
  }

  function Maybe(s: Option<string>): string {
    if s.None? then "0" else "1" + Text(s.value)
  }

  function Number(n: int): string {
    if n < 0 then "-" + Ones(-n) else "+" + Ones(n)
  }

  function MaybeNumber(n: Option<int>): string {
    if n.None? then "0" else Number(n.value)
  }

  function Columns(f: Fields): string {
    match f
    case ConfigChange(actor, realIp, entity, entityId, action, diff, ts) =>
      "c" + (Maybe(actor) + (Maybe(realIp) + (Text(entity) + (Maybe(entityId)
      + (Text(action) + (Maybe(diff) + Number(ts)))))))
    case PrintOutcome(jobId, printerId, actor, realIp, size, outcome, ts) =>
      "p" + (Text(jobId) + (MaybeNumber(printerId) + (Maybe(actor) + (Maybe(realIp)
            + (MaybeNumber(size) + (Maybe(outcome) + Number(ts)))))))
  }

  /** A stand-in for SHA-256 over the previous hash and the columns. */
  function Encode(prev: Hash, f: Fields): Hash {
    "x" + (Text(prev) + Columns(f))
  }

  lemma Tail(c: char, d: char, x: string, y: string)
    requires [c] + x == [d] + y
    ensures c == d && x == y
  {
    assert ([c] + x)[0] == c && ([d] + y)[0] == d && ([c] + x)[1..] == x && ([d] + y)[1..] == y;
  }

  lemma {:induction false} PeelOnes(a: nat, b: nat, x: string, y: string)
    requires Ones(a) + x == Ones(b) + y
    ensures a == b && x == y
  {
    var p, q := if a == 0 then x else Ones(a - 1) + x, if b == 0 then y else Ones(b - 1) + y;
    assert Ones(a) + x == [if a == 0 then '0' else '1'] + p;
    assert Ones(b) + y == [if b == 0 then '0' else '1'] + q;
    Tail(if a == 0 then '0' else '1', if b == 0 then '0' else '1', p, q);
    if a > 0 {
      PeelOnes(a - 1, b - 1, x, y);
    }
  }

  lemma PeelText(s: string, t: string, x: string, y: string)
    requires Text(s) + x == Text(t) + y
    ensures s == t && x == y
  {
    assert Text(s) + x == Ones(|s|) + (s + x) && Text(t) + y == Ones(|t|) + (t + y);
    PeelOnes(|s|, |t|, s + x, t + y);
    assert s == (s + x)[..|s|] && t == (t + y)[..|t|] && x == (s + x)[|s|..] && y == (t + y)[|t|..];
  }

  lemma MaybeOpens(s: Option<string>, x: string)
    ensures Maybe(s) + x == [if s.None? then '0' else '1'] + (if s.None? then x else Text(s.value) + x)
  {
    if s.Some? {
      assert ("1" + Text(s.value)) + x == "1" + (Text(s.value) + x);
    }
  }

  lemma PeelMaybe(s: Option<string>, t: Option<string>, x: string, y: string)
    requires Maybe(s) + x == Maybe(t) + y
    ensures s == t && x == y
  {
    MaybeOpens(s, x);
    MaybeOpens(t, y);
    Tail(if s.None? then '0' else '1', if t.None? then '0' else '1',
         if s.None? then x else Text(s.value) + x, if t.None? then y else Text(t.value) + y);
    if s.Some? {
      PeelText(s.value, t.value, x, y);
    }
  }

  function Sign(n: int): char {
    if n < 0 then '-' else '+'
  }

  function Size(n: int): nat {
    if n < 0 then -n else n
  }

  lemma NumberOpens(n: int, x: string)
    ensures Number(n) + x == [Sign(n)] + (Ones(Size(n)) + x)
  {
    assert ([Sign(n)] + Ones(Size(n))) + x == [Sign(n)] + (Ones(Size(n)) + x);
  }

  lemma PeelNumber(m: int, n: int, x: string, y: string)
    requires Number(m) + x == Number(n) + y
    ensures m == n && x == y
  {
    NumberOpens(m, x);
    NumberOpens(n, y);
    Tail(Sign(m), Sign(n), Ones(Size(m)) + x, Ones(Size(n)) + y);
    PeelOnes(Size(m), Size(n), x, y);
  }

  lemma FirstOfNumber(n: Option<int>, x: string)
    ensures (MaybeNumber(n) + x)[0] == if n.None? then '0' else Sign(n.value)
  {
  }

  lemma PeelMaybeNumber(m: Option<int>, n: Option<int>, x: string, y: string)
    requires MaybeNumber(m) + x == MaybeNumber(n) + y
    ensures m == n && x == y
  {
    FirstOfNumber(m, x);
    FirstOfNumber(n, y);
    if m.None? {
      Tail('0', '0', x, y);
    } else {
      PeelNumber(m.value, n.value, x, y);
    }
  }

  lemma PeelConfig(f: Fields, g: Fields)
    requires f.ConfigChange? && g.ConfigChange? && Columns(f)[1..] == Columns(g)[1..]
    ensures f == g
  {
    var f6, g6 := Maybe(f.diff) + Number(f.ts), Maybe(g.diff) + Number(g.ts);
    var f5, g5 := Text(f.action) + f6, Text(g.action) + g6;
    var f4, g4 := Maybe(f.entityId) + f5, Maybe(g.entityId) + g5;
    var f3, g3 := Text(f.entity) + f4, Text(g.entity) + g4;
    var f2, g2 := Maybe(f.realIp) + f3, Maybe(g.realIp) + g3;
    PeelMaybe(f.actor, g.actor, f2, g2);
    PeelMaybe(f.realIp, g.realIp, f3, g3);
    PeelText(f.entity, g.entity, f4, g4);
    PeelMaybe(f.entityId, g.entityId, f5, g5);
    PeelText(f.action, g.action, f6, g6);
    PeelMaybe(f.diff, g.diff, Number(f.ts), Number(g.ts));
    LastNumber(f.ts, g.ts);
  }

  lemma PeelPrint(f: Fields, g: Fields)
    requires f.PrintOutcome? && g.PrintOutcome? && Columns(f)[1..] == Columns(g)[1..]
    ensures f == g
  {
    var f6, g6 := Maybe(f.outcome) + Number(f.ts), Maybe(g.outcome) + Number(g.ts);
    var f5, g5 := MaybeNumber(f.size) + f6, MaybeNumber(g.size) + g6;
    var f4, g4 := Maybe(f.realIp) + f5, Maybe(g.realIp) + g5;
    var f3, g3 := Maybe(f.actor) + f4, Maybe(g.actor) + g4;
    var f2, g2 := MaybeNumber(f.printerId) + f3, MaybeNumber(g.printerId) + g3;
    PeelText(f.jobId, g.jobId, f2, g2);
    PeelMaybeNumber(f.printerId, g.printerId, f3, g3);
    PeelMaybe(f.actor, g.actor, f4, g4);
    PeelMaybe(f.realIp, g.realIp, f5, g5);
    PeelMaybeNumber(f.size, g.size, f6, g6);
    PeelMaybe(f.outcome, g.outcome, Number(f.ts), Number(g.ts));
    LastNumber(f.ts, g.ts);
  }

  lemma LastNumber(m: int, n: int)
    requires Number(m) == Number(n)
    ensures m == n
  {
    assert Number(m) + "" == Number(m) && Number(n) + "" == Number(n);
    PeelNumber(m, n, "", "");
  }

  lemma EncodeSeparates(p: Hash, f: Fields, q: Hash, g: Fields)
    requires Encode(p, f) == Encode(q, g)
    ensures p == q && f == g
  {
    Tail('x', 'x', Text(p) + Columns(f), Text(q) + Columns(g));
    PeelText(p, q, Columns(f), Columns(g));
    assert Columns(f)[0] == if f.ConfigChange? then 'c' else 'p';
    assert Columns(g)[0] == if g.ConfigChange? then 'c' else 'p';
    if f.ConfigChange? {
      PeelConfig(f, g);
    } else {
      PeelPrint(f, g);
    }
  }

  /** The assumption on the hash is met by some function, so the results about chains are about something. */
  lemma SomeHashIsCollisionFree()
    ensures CollisionFree(Encode)
  {
    forall p, f, q, g | Encode(p, f) == Encode(q, g)
      ensures p == q && f == g
    {
      EncodeSeparates(p, f, q, g);
    }
    forall p, f
      ensures Encode(p, f) != "" && Encode(p, f) != GENESIS
    {
      assert Encode(p, f)[0] == 'x';
      assert GENESIS == "0" + Zeros(63);
    }
  }
}
