/** The hash-chained audit tables (app/audit.py): the chain a table's rows form, as values. */
module AuditChain {
  import opened Basics

  /** The text of a ts column, numbered in text order: what pruning compares and the hash covers. */
  type Stamp = int
  type Hash = string

  function Zeros(n: nat): string {
    if n == 0 then "" else "0" + Zeros(n - 1)
  }

  const GENESIS: Hash := Zeros(64)

  /** The columns a row's hash covers. */
  datatype Fields =
    | ConfigChange(actor: Option<string>, realIp: Option<string>, entity: string, entityId: Option<string>,
                   action: string, diff: Option<string>, ts: Stamp)
    | PrintOutcome(jobId: string, printerId: Option<int>, actor: Option<string>, realIp: Option<string>,
                   size: Option<int>, outcome: Option<string>, ts: Stamp)

  /** Rows written before the hash columns were added hold NULL in them. */
  datatype Row = Row(id: nat, fields: Fields, prevHash: Option<Hash>, entryHash: Option<Hash>)

  /** The hash of the previous entry and a row's columns. */
  type Hasher = (Hash, Fields) -> Hash

  /** No two inputs hash alike, and none to the empty text or the genesis value. */
  ghost predicate CollisionFree(hash: Hasher) {
    && (forall p, f, q, g :: hash(p, f) == hash(q, g) ==> p == q && f == g)
    && (forall p, f :: hash(p, f) != "" && hash(p, f) != GENESIS)
  }

  /** NULL and the empty text both stand for the genesis value. */
  function OrGenesis(h: Option<Hash>): Hash {
    if h.Some? && h.value != "" then h.value else GENESIS
  }

  function LastHash(rows: seq<Row>): Hash {
    if rows == [] then GENESIS else OrGenesis(rows[|rows| - 1].entryHash)
  }

  /** What the next row is chained to: the last entry hash, or sixty-four zeros when there is no row, or the last one
      has no hash or an empty one. */
  lemma LastHashExactly(rows: seq<Row>)
    ensures var none := rows == [] || rows[|rows| - 1].entryHash in {None, Some("")};
            && (none ==> |LastHash(rows)| == 64 && forall i :: 0 <= i < 64 ==> LastHash(rows)[i] == '0')
            && (!none ==> rows[|rows| - 1].entryHash == Some(LastHash(rows)))
  {
    ZerosOnly(64);
  }

  lemma {:induction false} ZerosOnly(n: nat)
    ensures |Zeros(n)| == n && forall i :: 0 <= i < n ==> Zeros(n)[i] == '0'
  {
    if n > 0 {
      ZerosOnly(n - 1);
    }
  }

  /** A chain hangs on its first row's own previous hash, which stands for sixty-four zeros if it is missing or
      empty. */
  lemma AnchorExactly(rows: seq<Row>)
    requires rows != []
    ensures rows[0].prevHash in {None, Some("")} ==> Expected(rows, 0) == Some(GENESIS)
    ensures rows[0].prevHash !in {None, Some("")} ==> Expected(rows, 0) == rows[0].prevHash
  {
  }

  function NewRow(hash: Hasher, rows: seq<Row>, id: nat, fields: Fields): Row {
    Row(id, fields, Some(LastHash(rows)), Some(hash(LastHash(rows), fields)))
  }

  function Kept(rows: seq<Row>, cut: Stamp): seq<Row> {
    if rows == [] then []
    else
      var r := rows[|rows| - 1];
      Kept(rows[..|rows| - 1], cut) + (if r.fields.ts < cut then [] else [r])
  }

  // ---------------------------------------------------------------- the chain

  /** What row i must hold as the previous hash: the row before's entry, or the first row's own anchor. */
  function Expected(rows: seq<Row>, i: nat): Option<Hash>
    requires i < |rows|
  {
    if i == 0 then Some(OrGenesis(rows[0].prevHash)) else rows[i - 1].entryHash
  }

  predicate FitsAt(hash: Hasher, rows: seq<Row>, i: nat)
    requires i < |rows|
  {
    && Expected(rows, i).Some?
    && rows[i].prevHash == Expected(rows, i)
    && rows[i].entryHash == Some(hash(Expected(rows, i).value, rows[i].fields))
  }

  predicate FitsUpTo(hash: Hasher, rows: seq<Row>, n: nat)
    requires n <= |rows|
  {
    forall i: nat :: i < n ==> FitsAt(hash, rows, i)
  }

  predicate Chained(hash: Hasher, rows: seq<Row>) {
    FitsUpTo(hash, rows, |rows|)
  }

  predicate FirstBroken(hash: Hasher, rows: seq<Row>, k: nat) {
    k < |rows| && !FitsAt(hash, rows, k) && FitsUpTo(hash, rows, k)
  }

  predicate DistinctEntries(rows: seq<Row>) {
    forall i, k :: 0 <= i < k < |rows| ==> rows[i].entryHash != rows[k].entryHash
  }

  /** A chain that starts at the genesis value never repeats an entry hash. */
  lemma {:induction false} NoRepeats(hash: Hasher, rows: seq<Row>, i: nat, k: nat)
    requires CollisionFree(hash) && Chained(hash, rows) && i < k < |rows|
    requires Expected(rows, 0) == Some(GENESIS)
    ensures rows[i].entryHash != rows[k].entryHash
  {
    assert FitsAt(hash, rows, i) && FitsAt(hash, rows, k) && FitsAt(hash, rows, k - 1);
    if i > 0 {
      NoRepeats(hash, rows, i - 1, k - 1);
    }
  }

  // ---------------------------------------------------------------- appending and pruning

  /** Appending keeps a chain a chain, and never mends a broken one. */
  lemma AppendKeepsChain(hash: Hasher, rows: seq<Row>, id: nat, fields: Fields)
    requires CollisionFree(hash)
    ensures Chained(hash, rows + [NewRow(hash, rows, id, fields)]) <==> Chained(hash, rows)
  {
    var more := rows + [NewRow(hash, rows, id, fields)];
    forall i: nat | i < |rows|
      ensures FitsAt(hash, more, i) <==> FitsAt(hash, rows, i)
    {
      assert Expected(more, i) == Expected(rows, i);
    }
    if Chained(hash, rows) {
      if rows != [] {
        assert FitsAt(hash, rows, |rows| - 1);
      }
      assert FitsAt(hash, more, |rows|);
    } else {
      var i: nat :| i < |rows| && !FitsAt(hash, rows, i);
      assert !FitsAt(hash, more, i);
    }
  }

  /** Cutting a slice out of the middle of a chain is noticed, and only that: what is left is a chain
      exactly when the slice was at its head or its tail. */
  lemma CutNoticedExactly(hash: Hasher, rows: seq<Row>, a: nat, b: nat)
    requires CollisionFree(hash) && Chained(hash, rows) && DistinctEntries(rows) && a < b <= |rows|
    ensures Chained(hash, rows[..a] + rows[b..]) <==> a == 0 || b == |rows|
    ensures 0 < a && b < |rows| ==> FirstBroken(hash, rows[..a] + rows[b..], a)
  {
    var left := rows[..a] + rows[b..];
    forall i: nat | i < |left| && (i != a || a == 0)
      ensures FitsAt(hash, left, i)
    {
      assert FitsAt(hash, rows, if i < a then i else i + b - a);
      if i == 0 && a == 0 {
        assert OrGenesis(left[0].prevHash) == left[0].prevHash.value by {
          assert b > 0 && FitsAt(hash, rows, b - 1);
        }
      }
    }
    if 0 < a && b < |rows| {
      assert FitsAt(hash, rows, b) && FitsAt(hash, rows, b - 1) && FitsAt(hash, rows, a - 1);
      assert rows[a - 1].entryHash != rows[b - 1].entryHash;
      assert !FitsAt(hash, left, a);
    }
  }

  /** Rows in time order, oldest first. */
  predicate InTimeOrder(rows: seq<Row>) {
    forall i, k :: 0 <= i < k < |rows| ==> rows[i].fields.ts <= rows[k].fields.ts
  }

  predicate Survives(row: Row, cut: Stamp) {
    !(row.fields.ts < cut)
  }

  /** No dropped row between two survivors. */
  predicate NoGap(rows: seq<Row>, cut: Stamp) {
    forall i, j, k :: 0 <= i < j < k < |rows| && Survives(rows[i], cut) && Survives(rows[k], cut) ==>
      Survives(rows[j], cut)
  }

  /** The survivors are the rows from a to b. */
  ghost predicate KeptSlice(rows: seq<Row>, cut: Stamp, a: nat, b: nat) {
    && a <= b <= |rows| && Kept(rows, cut) == rows[a..b]
    && forall i :: 0 <= i < |rows| ==> (a <= i < b <==> Survives(rows[i], cut))
  }

  lemma KeptSliceDropped(rows: seq<Row>, cut: Stamp, a: nat, b: nat)
    requires rows != [] && KeptSlice(rows[..|rows| - 1], cut, a, b) && !Survives(rows[|rows| - 1], cut)
    ensures KeptSlice(rows, cut, a, b)
  {
    var before := rows[..|rows| - 1];
    assert Kept(before, cut) + [] == Kept(before, cut) && rows[a..b] == before[a..b];
    assert forall i :: 0 <= i < |before| ==> rows[i] == before[i];
  }

  lemma KeptSliceGrown(rows: seq<Row>, cut: Stamp, a: nat)
    requires rows != [] && KeptSlice(rows[..|rows| - 1], cut, a, |rows| - 1) && Survives(rows[|rows| - 1], cut)
    ensures KeptSlice(rows, cut, a, |rows|)
  {
    var before := rows[..|rows| - 1];
    assert rows[a..|rows|] == before[a..|rows| - 1] + [rows[|rows| - 1]];
    assert forall i :: 0 <= i < |before| ==> rows[i] == before[i];
  }

  lemma KeptSliceNext(rows: seq<Row>, cut: Stamp, a: nat, b: nat) returns (a': nat, b': nat)
    requires rows != [] && KeptSlice(rows[..|rows| - 1], cut, a, b)
    requires Survives(rows[|rows| - 1], cut) && a < b ==> b == |rows| - 1
    ensures KeptSlice(rows, cut, a', b')
  {
    a', b' := a, b;
    if !Survives(rows[|rows| - 1], cut) {
      KeptSliceDropped(rows, cut, a, b);
    } else {
      b' := |rows|;
      if a == b {
        a' := |rows| - 1;
        assert rows[..|rows| - 1][a..b] == rows[..|rows| - 1][a'..a'];
      }
      KeptSliceGrown(rows, cut, a');
    }
  }

  lemma {:induction false} NoGapIsSlice(rows: seq<Row>, cut: Stamp) returns (a: nat, b: nat)
    requires NoGap(rows, cut)
    ensures KeptSlice(rows, cut, a, b)
  {
    if rows == [] {
      a, b := 0, 0;
    } else {
      var before := rows[..|rows| - 1];
      a, b := NoGapIsSlice(before, cut);
      assert a < b ==> Survives(rows[b - 1], cut);
      a, b := KeptSliceNext(rows, cut, a, b);
    }
  }

  lemma SliceIsChain(hash: Hasher, rows: seq<Row>, a: nat, b: nat)
    requires CollisionFree(hash) && Chained(hash, rows) && a <= b <= |rows|
    ensures Chained(hash, rows[a..b])
  {
    forall i: nat | i < |rows[a..b]|
      ensures FitsAt(hash, rows[a..b], i)
    {
      assert FitsAt(hash, rows, a + i);
      if i == 0 && a > 0 {
        assert FitsAt(hash, rows, a - 1);
      }
    }
  }

  lemma PrefixIsChain(hash: Hasher, rows: seq<Row>, more: seq<Row>)
    requires Chained(hash, rows + more)
    ensures Chained(hash, rows)
  {
    forall i: nat | i < |rows|
      ensures FitsAt(hash, rows, i)
    {
      assert FitsAt(hash, rows + more, i) && Expected(rows + more, i) == Expected(rows, i);
    }
  }

  /** Two survivors joined in a pruned chain stood next to each other. */
  lemma JoinedWereNext(hash: Hasher, rows: seq<Row>, left: seq<Row>, i: nat)
    requires Chained(hash, rows) && DistinctEntries(rows) && |rows| >= 2 && i < |rows| - 1
    requires left != [] && left[|left| - 1] == rows[i] && Chained(hash, left + [rows[|rows| - 1]])
    ensures i == |rows| - 2
  {
    var more := left + [rows[|rows| - 1]];
    assert FitsAt(hash, more, |left|) && Expected(more, |left|) == rows[i].entryHash;
    assert FitsAt(hash, rows, |rows| - 1);
  }

  lemma {:induction false} ChainIsSlice(hash: Hasher, rows: seq<Row>, cut: Stamp) returns (a: nat, b: nat)
    requires Chained(hash, rows) && DistinctEntries(rows) && Chained(hash, Kept(rows, cut))
    ensures KeptSlice(rows, cut, a, b)
  {
    if rows == [] {
      a, b := 0, 0;
    } else {
      var before, r := rows[..|rows| - 1], rows[|rows| - 1];
      assert rows == before + [r];
      PrefixIsChain(hash, before, [r]);
      PrefixIsChain(hash, Kept(before, cut), if Survives(r, cut) then [r] else []);
      a, b := ChainIsSlice(hash, before, cut);
      if Survives(r, cut) && a < b {
        assert Kept(before, cut)[b - a - 1] == rows[b - 1];
        JoinedWereNext(hash, rows, Kept(before, cut), b - 1);
      }
      a, b := KeptSliceNext(rows, cut, a, b);
    }
  }

  /** Pruning keeps a chain exactly when no dropped row stood between two survivors. */
  lemma PruneKeepsExactly(hash: Hasher, rows: seq<Row>, cut: Stamp)
    requires CollisionFree(hash) && Chained(hash, rows) && DistinctEntries(rows)
    ensures Chained(hash, Kept(rows, cut)) <==> NoGap(rows, cut)
  {
    if NoGap(rows, cut) {
      var a, b := NoGapIsSlice(rows, cut);
      SliceIsChain(hash, rows, a, b);
    }
    if Chained(hash, Kept(rows, cut)) {
      var a, b := ChainIsSlice(hash, rows, cut);
    }
  }

  /** A nondecreasing clock leaves no gap: pruning then cuts the head alone. */
  lemma PruneCutsHead(rows: seq<Row>, cut: Stamp) returns (n: nat)
    requires InTimeOrder(rows)
    ensures n <= |rows| && Kept(rows, cut) == rows[n..]
  {
    var a, b := NoGapIsSlice(rows, cut);
    n := if a < b then a else |rows|;
    if a < b {
      assert Survives(rows[|rows| - 1], cut) by {
        assert Survives(rows[a], cut);
      }
    }
  }

  // ---------------------------------------------------------------- what a chain pins down

  function FromEnd(rows: seq<Row>, t: nat): Row
    requires t < |rows|
  {
    rows[|rows| - 1 - t]
  }

  /** Two chains that end in the same entry hash hold the same rows, counted from the end, as far back
      as both go: no column, previous hash or entry hash of an earlier row can differ. */
  lemma {:induction false} SameEndSameRows(hash: Hasher, a: seq<Row>, b: seq<Row>, t: nat)
    requires CollisionFree(hash) && Chained(hash, a) && Chained(hash, b)
    requires t < |a| && t < |b| && FromEnd(a, 0).entryHash == FromEnd(b, 0).entryHash
    ensures FromEnd(a, t).entryHash == FromEnd(b, t).entryHash
    ensures FromEnd(a, t).prevHash == FromEnd(b, t).prevHash
    ensures FromEnd(a, t).fields == FromEnd(b, t).fields
  {
    assert FitsAt(hash, a, |a| - 1 - t) && FitsAt(hash, b, |b| - 1 - t);
    if t > 0 {
      SameEndSameRows(hash, a, b, t - 1);
      assert FitsAt(hash, a, |a| - t) && FitsAt(hash, b, |b| - t);
    }
  }

  /** Changing any column of one row is reported at that very row. */
  lemma EditReported(hash: Hasher, rows: seq<Row>, k: nat, fields: Fields)
    requires CollisionFree(hash) && Chained(hash, rows) && k < |rows| && fields != rows[k].fields
    ensures FirstBroken(hash, rows[k := rows[k].(fields := fields)], k)
  {
    var edited := rows[k := rows[k].(fields := fields)];
    forall i: nat | i <= k
      ensures Expected(edited, i) == Expected(rows, i) && FitsAt(hash, rows, i)
    {
    }
    assert forall i: nat :: i < k ==> FitsAt(hash, edited, i);
  }

  /** Replacing a row by a forged one, hashes and all, leaves a chain only when it is the last row or
      the same row. */
  lemma ForgeryReported(hash: Hasher, rows: seq<Row>, k: nat, forged: Row)
    requires CollisionFree(hash) && Chained(hash, rows) && k < |rows| - 1 && forged != rows[k]
    requires forged.id == rows[k].id
    ensures !Chained(hash, rows[k := forged])
  {
    if Chained(hash, rows[k := forged]) {
      SameEndSameRows(hash, rows, rows[k := forged], |rows| - 1 - k);
    }
  }

  // ---------------------------------------------------------------- runs

  datatype Op = Append(id: nat, fields: Fields) | Prune(cut: Stamp)

  function Done(hash: Hasher, rows: seq<Row>, op: Op): seq<Row> {
    match op
    case Append(id, fields) => rows + [NewRow(hash, rows, id, fields)]
    case Prune(cut) => Kept(rows, cut)
  }

  function After(hash: Hasher, ops: seq<Op>): seq<Row> {
    if ops == [] then [] else Done(hash, After(hash, ops[..|ops| - 1]), ops[|ops| - 1])
  }

  /** Rows are appended with a clock that never goes back. */
  predicate Clocked(ops: seq<Op>) {
    forall i, k :: 0 <= i < k < |ops| && ops[i].Append? && ops[k].Append? ==> ops[i].fields.ts <= ops[k].fields.ts
  }

  predicate OpsUntil(ops: seq<Op>, t: Stamp) {
    forall i :: 0 <= i < |ops| && ops[i].Append? ==> ops[i].fields.ts <= t
  }

  predicate RowsUntil(rows: seq<Row>, t: Stamp) {
    forall i :: 0 <= i < |rows| ==> rows[i].fields.ts <= t
  }

  lemma {:induction false} KeptUntil(rows: seq<Row>, cut: Stamp, t: Stamp)
    requires RowsUntil(rows, t)
    ensures RowsUntil(Kept(rows, cut), t)
  {
    if rows != [] {
      KeptUntil(rows[..|rows| - 1], cut, t);
    }
  }

  lemma {:induction false} AfterUntil(hash: Hasher, ops: seq<Op>, t: Stamp)
    requires OpsUntil(ops, t)
    ensures RowsUntil(After(hash, ops), t)
  {
    if ops != [] {
      var before, op := ops[..|ops| - 1], ops[|ops| - 1];
      AfterUntil(hash, before, t);
      if op.Prune? {
        KeptUntil(After(hash, before), op.cut, t);
      }
    }
  }

  /** The table is what is left, after pruning, of one chain that starts at the genesis value. */
  ghost predicate LeftOf(hash: Hasher, pruned: seq<Row>, rows: seq<Row>) {
    && Chained(hash, pruned + rows)
    && (rows == [] ==> pruned == [])
    && (rows != [] ==> Expected(pruned + rows, 0) == Some(GENESIS))
    && InTimeOrder(rows)
  }

  lemma AppendLeft(hash: Hasher, pruned: seq<Row>, rows: seq<Row>, id: nat, fields: Fields)
    requires CollisionFree(hash) && LeftOf(hash, pruned, rows) && RowsUntil(rows, fields.ts)
    ensures LeftOf(hash, pruned, rows + [NewRow(hash, rows, id, fields)])
  {
    var all, row := pruned + rows, NewRow(hash, rows, id, fields);
    assert row == NewRow(hash, all, id, fields);
    AppendKeepsChain(hash, all, id, fields);
    assert pruned + (rows + [row]) == all + [row];
    assert Expected(all + [row], 0) == if all == [] then Some(GENESIS) else Expected(all, 0);
  }

  lemma HeadIsLeft(hash: Hasher, pruned: seq<Row>, rows: seq<Row>, n: nat)
    requires LeftOf(hash, pruned, rows) && n < |rows|
    ensures LeftOf(hash, pruned + rows[..n], rows[n..])
  {
    assert (pruned + rows[..n]) + rows[n..] == pruned + rows;
  }

  lemma NothingIsLeft(hash: Hasher)
    ensures LeftOf(hash, [], [])
  {
  }

  lemma PruneLeft(hash: Hasher, pruned: seq<Row>, rows: seq<Row>, cut: Stamp) returns (pruned': seq<Row>)
    requires CollisionFree(hash) && LeftOf(hash, pruned, rows)
    ensures LeftOf(hash, pruned', Kept(rows, cut))
  {
    var n := PruneCutsHead(rows, cut);
    if n < |rows| {
      pruned' := pruned + rows[..n];
      HeadIsLeft(hash, pruned, rows, n);
    } else {
      pruned' := [];
      NothingIsLeft(hash);
      assert Kept(rows, cut) == [];
    }
  }

  lemma {:induction false} RunIsLeft(hash: Hasher, ops: seq<Op>) returns (pruned: seq<Row>)
    requires CollisionFree(hash) && Clocked(ops)
    ensures LeftOf(hash, pruned, After(hash, ops))
  {
    pruned := [];
    if ops != [] {
      var before, op := ops[..|ops| - 1], ops[|ops| - 1];
      pruned := RunIsLeft(hash, before);
      match op {
        case Append(id, fields) =>
          AfterUntil(hash, before, fields.ts);
          AppendLeft(hash, pruned, After(hash, before), id, fields);
        case Prune(cut) =>
          pruned := PruneLeft(hash, pruned, After(hash, before), cut);
      }
    }
  }

  /** After any run of appends and prunes under a clock that never goes back, the table is a chain, in
      time order, and no entry hash occurs twice in it. */
  lemma RunsStayChained(hash: Hasher, ops: seq<Op>)
    requires CollisionFree(hash) && Clocked(ops)
    ensures var rows := After(hash, ops);
            Chained(hash, rows) && InTimeOrder(rows) && DistinctEntries(rows)
  {
    var rows := After(hash, ops);
    var pruned := RunIsLeft(hash, ops);
    var all := pruned + rows;
    SliceIsChain(hash, all, |pruned|, |all|);
    assert all[|pruned|..|all|] == rows;
    forall i: nat, k: nat | i < k < |rows|
      ensures rows[i].entryHash != rows[k].entryHash
    {
      NoRepeats(hash, all, |pruned| + i, |pruned| + k);
    }
  }

  // ---------------------------------------------------------------- insertion

  function Inserted(rows: seq<Row>, a: nat, extra: seq<Row>): seq<Row>
    requires a <= |rows|
  {
    rows[..a] + extra + rows[a..]
  }

  /** Rows put between two neighbours, if the result were a chain, would have to lead back to the hash
      they started from. */
  lemma InsertionRepeats(hash: Hasher, rows: seq<Row>, a: nat, extra: seq<Row>)
    requires Chained(hash, rows) && 0 < a < |rows| && extra != [] && Chained(hash, Inserted(rows, a, extra))
    ensures Inserted(rows, a, extra)[a - 1].entryHash == Inserted(rows, a, extra)[a - 1 + |extra|].entryHash
  {
    var more := Inserted(rows, a, extra);
    assert FitsAt(hash, rows, a) && FitsAt(hash, more, a + |extra|);
    assert more[a + |extra|] == rows[a] && more[a - 1] == rows[a - 1];
  }

  /** A chain with the same first row continues the same pruned head. */
  lemma SameHead(hash: Hasher, pruned: seq<Row>, rows: seq<Row>, more: seq<Row>)
    requires Chained(hash, pruned + rows) && Chained(hash, more) && rows != [] && more != [] && more[0] == rows[0]
    ensures Chained(hash, pruned + more) && Expected(pruned + more, 0) == Expected(pruned + rows, 0)
  {
    forall i: nat | i < |pruned + more|
      ensures FitsAt(hash, pruned + more, i)
    {
      if i <= |pruned| {
        assert FitsAt(hash, pruned + rows, i) && Expected(pruned + more, i) == Expected(pruned + rows, i);
      } else {
        assert FitsAt(hash, more, i - |pruned|) && Expected(pruned + more, i) == Expected(more, i - |pruned|);
      }
    }
  }

  lemma NoRepeatsLater(hash: Hasher, head: seq<Row>, rows: seq<Row>, i: nat, k: nat)
    requires CollisionFree(hash) && Chained(hash, head + rows) && i < k < |rows|
    requires Expected(head + rows, 0) == Some(GENESIS)
    ensures rows[i].entryHash != rows[k].entryHash
  {
    var all := head + rows;
    assert all[|head| + i] == rows[i] && all[|head| + k] == rows[k];
    NoRepeats(hash, all, |head| + i, |head| + k);
  }

  lemma LeftCannotGrow(hash: Hasher, pruned: seq<Row>, rows: seq<Row>, a: nat, extra: seq<Row>)
    requires CollisionFree(hash) && LeftOf(hash, pruned, rows) && Chained(hash, rows)
    requires 0 < a < |rows| && extra != []
    ensures !Chained(hash, Inserted(rows, a, extra))
  {
    var more := Inserted(rows, a, extra);
    if Chained(hash, more) {
      InsertionRepeats(hash, rows, a, extra);
      SameHead(hash, pruned, rows, more);
      NoRepeatsLater(hash, pruned, more, a - 1, a - 1 + |extra|);
    }
  }

  /** After any run, rows inserted between two rows of the table are noticed, however many they are and
      whatever they hold. */
  lemma InsertionNoticed(hash: Hasher, ops: seq<Op>, a: nat, extra: seq<Row>)
    requires CollisionFree(hash) && Clocked(ops) && 0 < a < |After(hash, ops)| && extra != []
    ensures !Chained(hash, Inserted(After(hash, ops), a, extra))
  {
    var pruned := RunIsLeft(hash, ops);
    RunsStayChained(hash, ops);
    LeftCannotGrow(hash, pruned, After(hash, ops), a, extra);
  }
}

/** The audit writer itself: two tables, each row chained to its table's last. */
module Audit {
  import opened Basics
  import opened AuditChain

  datatype Which = ConfigAudit | PrintAudit

  datatype Verdict = Valid(count: nat) | Broken(id: nat, count: nat)

  class Audit {
    const hash: Hasher
    var config: seq<Row>
    var print_: seq<Row>
    var nextConfig: nat
    var nextPrint: nat

    function Table(which: Which): seq<Row>
      reads this
    {
      if which.ConfigAudit? then config else print_
    }

    constructor (hash: Hasher)
      ensures this.hash == hash && config == [] && print_ == [] && nextConfig == 1 && nextPrint == 1
    {
      this.hash := hash;
      config, print_, nextConfig, nextPrint := [], [], 1, 1;
    }

    method LastHashOf(which: Which) returns (prev: Hash)
      ensures prev == LastHash(Table(which))
    {
      var rows := Table(which);
      prev := GENESIS;
      if rows != [] {
        var last := rows[|rows| - 1];
        if last.entryHash.Some? && last.entryHash.value != "" {
          prev := last.entryHash.value;
        }
      }
    }

    method RecordConfigChange(entity: string, action: string, entityId: Option<string>, actor: Option<string>,
                              realIp: Option<string>, diff: Option<string>, now: Stamp)
      modifies this`config, this`nextConfig
      ensures config == Done(hash, old(config),
                             Append(old(nextConfig), ConfigChange(actor, realIp, entity, entityId, action, diff, now)))
      ensures nextConfig == old(nextConfig) + 1
    {
      var prev := LastHashOf(ConfigAudit);
      var fields := ConfigChange(actor, realIp, entity, entityId, action, diff, now);
      var entry := hash(prev, fields);
      config := config + [Row(nextConfig, fields, Some(prev), Some(entry))];
      nextConfig := nextConfig + 1;
    }

    method RecordPrintJob(jobId: string, printerId: int, outcome: string, size: int, actor: Option<string>,
                          realIp: Option<string>, now: Stamp)
      modifies this`print_, this`nextPrint
      ensures print_ == Done(hash, old(print_),
                             Append(old(nextPrint), PrintOutcome(jobId, Some(printerId), actor, realIp, Some(size),
                                                                 Some(outcome), now)))
      ensures nextPrint == old(nextPrint) + 1
    {
      var prev := LastHashOf(PrintAudit);
      var fields := PrintOutcome(jobId, Some(printerId), actor, realIp, Some(size), Some(outcome), now);
      var entry := hash(prev, fields);
      print_ := print_ + [Row(nextPrint, fields, Some(prev), Some(entry))];
      nextPrint := nextPrint + 1;
    }

    /** Valid exactly for a chain; otherwise the first row that does not fit, after a prefix that does. */
    method VerifyChain(which: Which) returns (v: Verdict)
      ensures v.count == |Table(which)|
      ensures v.Valid? <==> Chained(hash, Table(which))
      ensures v.Broken? ==> exists k: nat :: FirstBroken(hash, Table(which), k) && Table(which)[k].id == v.id
    {
      var rows := Table(which);
      if rows == [] {
        return Valid(0);
      }
      var first := rows[0].prevHash;
      var prev := if first.Some? && first.value != "" then first.value else GENESIS;
      for i := 0 to |rows|
        invariant FitsUpTo(hash, rows, i)
        invariant i < |rows| ==> Expected(rows, i) == Some(prev)
      {
        var row := rows[i];
        var expected := hash(prev, row.fields);
        if row.prevHash != Some(prev) || row.entryHash != Some(expected) {
          assert FirstBroken(hash, rows, i);
          return Broken(row.id, |rows|);
        }
        assert FitsAt(hash, rows, i);
        prev := row.entryHash.value;
      }
      v := Valid(|rows|);
    }

    method Prune(cut: Stamp)
      modifies this`config, this`print_
      ensures config == Done(hash, old(config), AuditChain.Prune(cut))
      ensures print_ == Done(hash, old(print_), AuditChain.Prune(cut))
    {
      config := DropOld(config, cut);
      print_ := DropOld(print_, cut);
    }
  }

  method DropOld(rows: seq<Row>, cut: Stamp) returns (left: seq<Row>)
    ensures left == Kept(rows, cut)
  {
    left := [];
    for i := 0 to |rows|
      invariant left == Kept(rows[..i], cut)
    {
      assert rows[..i + 1][..i] == rows[..i];
      if rows[i].fields.ts >= cut {
        left := left + [rows[i]];
      }
    }
    assert rows[..|rows|] == rows;
  }
}
