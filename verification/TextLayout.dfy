/** Fixed-width text (app/render.py): decimal numbers, fitting a cell, laying out a table. */
module TextLayout {
  import opened Basics

  // ---------------------------------------------------------------- numbers

  function Digit(d: nat): char
    requires d < 10
  {
    "0123456789"[d]
  }

  function Dec(n: int): (s: string)
    ensures |s| > 0
    decreases n < 0, if n < 0 then -n else n
  {
    if n < 0 then "-" + Dec(-n)
    else if n < 10 then [Digit(n)]
    else Dec(n / 10) + [Digit(n % 10)]
  }

  predicate Numeric(s: string) {
    forall i :: 0 <= i < |s| ==> s[i] == '-' || '0' <= s[i] <= '9'
  }

  lemma {:induction false} DecIsNumeric(n: int)
    ensures Numeric(Dec(n))
    decreases n < 0, if n < 0 then -n else n
  {
    if n < 0 {
      DecIsNumeric(-n);
    } else if n >= 10 {
      DecIsNumeric(n / 10);
    }
  }

  /** Value of a string of digits. */
  function ReadDec(s: string): nat
    requires forall i :: 0 <= i < |s| ==> '0' <= s[i] <= '9'
  {
    if s == [] then 0 else ReadDec(s[..|s| - 1]) * 10 + (s[|s| - 1] as int - '0' as int)
  }

  lemma {:induction false} DecReadsBack(n: nat)
    ensures forall i :: 0 <= i < |Dec(n)| ==> '0' <= Dec(n)[i] <= '9'
    ensures ReadDec(Dec(n)) == n
  {
    if n >= 10 {
      DecReadsBack(n / 10);
      assert Dec(n)[..|Dec(n)| - 1] == Dec(n / 10);
    } else {
      assert Dec(n)[..0] == [];
    }
  }

  lemma NegativeReadsBack(n: int)
    requires n > 0
    ensures var s := Dec(-n);
            s[0] == '-' && (forall i :: 1 <= i < |s| ==> '0' <= s[i] <= '9') && ReadDec(s[1..]) == n
  {
    DecReadsBack(n);
    assert Dec(-n)[1..] == Dec(n);
  }

  // ---------------------------------------------------------------- splitting

  /** Python's s.split(sep): the stretches between separators, at least one. */
  function Split(s: string, sep: char): (parts: seq<string>)
    ensures |parts| > 0
  {
    if s == [] then [[]]
    else
      var rest := Split(s[1..], sep);
      if s[0] == sep then [[]] + rest else [[s[0]] + rest[0]] + rest[1..]
  }

  lemma {:induction false} SplitAt(a: string, sep: char, rest: string)
    requires sep !in a
    ensures Split(a + [sep] + rest, sep) == [a] + Split(rest, sep)
  {
    var s := a + [sep] + rest;
    if a == [] {
      assert s[1..] == rest;
    } else {
      SplitAt(a[1..], sep, rest);
      assert s[1..] == a[1..] + [sep] + rest;
      assert [a[0]] + a[1..] == a;
    }
  }

  lemma {:induction false} SplitNone(a: string, sep: char)
    requires sep !in a
    ensures Split(a, sep) == [a]
  {
    if a != [] {
      SplitNone(a[1..], sep);
      assert [a[0]] + a[1..] == a;
    }
  }

  // ---------------------------------------------------------------- one cell

  function Min(a: int, b: int): int {
    if a < b then a else b
  }

  /** Python's slice s[:n], which counts from the end for a negative n. */
  function Prefix(s: string, n: int): string {
    if n >= 0 then s[..Min(n, |s|)]
    else if |s| + n >= 0 then s[..|s| + n]
    else []
  }

  /** It is the text's beginning, of the length asked for if there is that much. */
  lemma PrefixExactly(s: string, n: int)
    ensures Prefix(s, n) <= s
    ensures |Prefix(s, n)| == (if n >= |s| then |s| else if n >= 0 then n else if |s| + n >= 0 then |s| + n else 0)
  {
  }

  /** A repeated space; a negative count repeats nothing. */
  function Spaces(n: int): (s: string)
    ensures |s| == (if n > 0 then n else 0) && forall i :: 0 <= i < |s| ==> s[i] == ' '
  {
    if n <= 0 then "" else seq(n, _ => ' ')
  }

  function Fit(text: string, width: int, align: string): string {
    var cut := Prefix(text, width);
    var pad := width - |cut|;
    if align == "right" then Spaces(pad) + cut
    else if align == "center" then
      var left := pad / 2;
      Spaces(left) + cut + Spaces(pad - left)
    else cut + Spaces(pad)
  }

  /** Where a fitted text begins in its cell. */
  function Indent(length: nat, width: nat, align: string): nat
    requires length <= width
  {
    if align == "right" then width - length
    else if align == "center" then (width - length) / 2
    else 0
  }

  /** A fitted cell has its exact width and holds as much of the text as fits, placed as aligned, in
      blanks. */
  lemma FitsExactly(text: string, width: nat, align: string)
    ensures var cell := Fit(text, width, align);
            var kept := Min(|text|, width);
            var at := Indent(kept, width, align);
            && |cell| == width && at + kept <= width
            && cell[at..at + kept] == text[..kept]
            && (forall i :: 0 <= i < width && !(at <= i < at + kept) ==> cell[i] == ' ')
  {
  }

  // ---------------------------------------------------------------- tables

  datatype Table = Table(cols: seq<int>, aligns: Option<seq<string>>, rows: seq<seq<string>>)

  function CellText(row: seq<string>, i: nat): string {
    if i < |row| then row[i] else ""
  }

  /** A missing or short list of alignments means left. */
  function AlignOf(t: Table, i: nat): string {
    if t.aligns.Some? && i < |t.aligns.value| then t.aligns.value[i] else "left"
  }

  function Cell(t: Table, row: seq<string>, i: nat): string
    requires i < |t.cols|
  {
    Fit(CellText(row, i), t.cols[i], AlignOf(t, i))
  }

  function Cells(t: Table, row: seq<string>, n: nat): (cells: seq<string>)
    requires n <= |t.cols|
    ensures |cells| == n
  {
    if n == 0 then [] else Cells(t, row, n - 1) + [Cell(t, row, n - 1)]
  }

  function Joined(cells: seq<string>): string {
    if cells == [] then ""
    else if |cells| == 1 then cells[0]
    else Joined(cells[..|cells| - 1]) + " " + cells[|cells| - 1]
  }

  function TableLine(t: Table, row: seq<string>, columns: int): string {
    Prefix(Joined(Cells(t, row, |t.cols|)), columns)
  }

  method TableLines(t: Table, columns: int) returns (lines: seq<string>)
    ensures |lines| == |t.rows|
    ensures forall r :: 0 <= r < |lines| ==> lines[r] == TableLine(t, t.rows[r], columns)
  {
    lines := [];
    for r := 0 to |t.rows|
      invariant |lines| == r
      invariant forall q :: 0 <= q < r ==> lines[q] == TableLine(t, t.rows[q], columns)
    {
      var cells := RowCells(t, t.rows[r]);
      lines := lines + [Prefix(Joined(cells), columns)];
    }
  }

  /** The inner loop: one row's fitted cells. */
  method RowCells(t: Table, row: seq<string>) returns (cells: seq<string>)
    ensures cells == Cells(t, row, |t.cols|)
  {
    cells := [];
    for i := 0 to |t.cols|
      invariant cells == Cells(t, row, i)
    {
      var val := if i < |row| then row[i] else "";
      var align := if t.aligns.Some? && i < |t.aligns.value| then t.aligns.value[i] else "left";
      cells := cells + [Fit(val, t.cols[i], align)];
    }
  }

  /** Where column i starts: every column before it, and the space after each. */
  function Start(cols: seq<int>, i: nat): int
    requires i <= |cols|
  {
    if i == 0 then 0 else Start(cols, i - 1) + cols[i - 1] + 1
  }

  predicate Widths(cols: seq<int>) {
    forall i :: 0 <= i < |cols| ==> cols[i] >= 0
  }

  /** Columns come in order and do not overlap. */
  lemma {:induction false} StartsGrow(cols: seq<int>, i: nat, k: nat)
    requires Widths(cols) && i < k <= |cols|
    ensures 0 <= Start(cols, i) && Start(cols, i) + cols[i] < Start(cols, k)
    decreases k
  {
    if i > 0 {
      StartsGrow(cols, i - 1, i);
    }
    if k > i + 1 {
      StartsGrow(cols, i, k - 1);
    }
  }

  /** The cell stands at a position of the line, after a space unless it is the first. */
  predicate StandsAt(line: string, at: int, cell: string, first: bool) {
    && 0 <= at && at + |cell| <= |line|
    && line[at..at + |cell|] == cell
    && (!first ==> 0 < at && line[at - 1] == ' ')
  }

  lemma StandsInLonger(line: string, more: string, at: int, cell: string, first: bool)
    requires StandsAt(line, at, cell, first)
    ensures StandsAt(line + more, at, cell, first)
  {
    assert (line + more)[at..at + |cell|] == line[at..at + |cell|];
  }

  lemma StandsInPrefix(line: string, n: nat, at: int, cell: string, first: bool)
    requires StandsAt(line, at, cell, first) && at + |cell| <= n
    ensures StandsAt(Prefix(line, n), at, cell, first)
  {
    assert Prefix(line, n)[at..at + |cell|] == line[at..at + |cell|];
  }

  lemma CellWidth(t: Table, row: seq<string>, i: nat)
    requires Widths(t.cols) && i < |t.cols|
    ensures |Cell(t, row, i)| == t.cols[i]
  {
    FitsExactly(CellText(row, i), t.cols[i], AlignOf(t, i));
  }

  lemma JoinedNext(t: Table, row: seq<string>, n: nat)
    requires 1 < n <= |t.cols|
    ensures Joined(Cells(t, row, n)) == Joined(Cells(t, row, n - 1)) + " " + Cell(t, row, n - 1)
  {
    assert Cells(t, row, n)[..n - 1] == Cells(t, row, n - 1);
  }

  lemma JoinedFirst(t: Table, row: seq<string>)
    requires |t.cols| > 0
    ensures Joined(Cells(t, row, 1)) == Cell(t, row, 0)
  {
    assert Cells(t, row, 0) == [];
    assert Cells(t, row, 1) == [Cell(t, row, 0)];
  }

  lemma LineStarts(line: string)
    ensures StandsAt(line, 0, line, true)
  {
    assert line[0..|line|] == line;
  }

  lemma LineEnds(line: string, before: string, last: string)
    requires line == before + " " + last
    ensures StandsAt(line, |before| + 1, last, false) && |line| == |before| + 1 + |last|
  {
    assert line[|before| + 1..|before| + 1 + |last|] == last;
  }

  lemma LineGrows(line: string, before: string, last: string, at: int, cell: string, first: bool)
    requires line == before + " " + last && StandsAt(before, at, cell, first)
    ensures StandsAt(line, at, cell, first)
  {
    StandsInLonger(before, " ", at, cell, first);
    StandsInLonger(before + " ", last, at, cell, first);
  }

  lemma {:induction false} JoinedLength(t: Table, row: seq<string>, n: nat)
    requires Widths(t.cols) && 0 < n <= |t.cols|
    ensures |Joined(Cells(t, row, n))| == Start(t.cols, n) - 1
  {
    CellWidth(t, row, n - 1);
    if n == 1 {
      JoinedFirst(t, row);
      assert Start(t.cols, 1) == t.cols[0] + 1;
    } else {
      JoinedLength(t, row, n - 1);
      JoinedNext(t, row, n);
      LineEnds(Joined(Cells(t, row, n)), Joined(Cells(t, row, n - 1)), Cell(t, row, n - 1));
    }
  }

  lemma {:induction false} JoinedPlaces(t: Table, row: seq<string>, n: nat, i: nat)
    requires Widths(t.cols) && i < n <= |t.cols|
    ensures StandsAt(Joined(Cells(t, row, n)), Start(t.cols, i), Cell(t, row, i), i == 0)
  {
    if n == 1 {
      JoinedFirst(t, row);
      LineStarts(Cell(t, row, 0));
    } else {
      var line, before, last := Joined(Cells(t, row, n)), Joined(Cells(t, row, n - 1)), Cell(t, row, n - 1);
      JoinedNext(t, row, n);
      if i < n - 1 {
        JoinedPlaces(t, row, n - 1, i);
        LineGrows(line, before, last, Start(t.cols, i), Cell(t, row, i), i == 0);
      } else {
        JoinedLength(t, row, n - 1);
        LineEnds(line, before, last);
      }
    }
  }

  /** Alignment: no line is longer than the page, and in every line of a table each cell that ends on
      the page stands, whole, in its column's own range. */
  lemma CellsAlign(t: Table, row: seq<string>, columns: nat, i: nat)
    requires Widths(t.cols) && i < |t.cols|
    ensures |TableLine(t, row, columns)| == Min(columns, Start(t.cols, |t.cols|) - 1)
    ensures |Cell(t, row, i)| == t.cols[i]
    ensures Start(t.cols, i) + t.cols[i] <= columns ==>
              StandsAt(TableLine(t, row, columns), Start(t.cols, i), Cell(t, row, i), i == 0)
  {
    JoinedPlaces(t, row, |t.cols|, i);
    JoinedLength(t, row, |t.cols|);
    CellWidth(t, row, i);
    if Start(t.cols, i) + t.cols[i] <= columns {
      StandsInPrefix(Joined(Cells(t, row, |t.cols|)), columns, Start(t.cols, i), Cell(t, row, i), i == 0);
    }
  }

  /** A range of the line shows a text after some blanks, and then blanks to its end. */
  ghost predicate Shows(line: string, at: int, width: int, shown: string, indent: int) {
    && 0 <= at && at + width <= |line| && 0 <= indent && indent + |shown| <= width
    && (forall k :: 0 <= k < |shown| ==> line[at + indent + k] == shown[k])
    && (forall x :: at <= x < at + indent || at + indent + |shown| <= x < at + width ==> line[x] == ' ')
  }

  lemma RangeShows(line: string, at: nat, cell: string, shown: string, indent: nat)
    requires at + |cell| <= |line| && line[at..at + |cell|] == cell
    requires indent + |shown| <= |cell| && cell[indent..indent + |shown|] == shown
    requires forall x :: 0 <= x < |cell| && !(indent <= x < indent + |shown|) ==> cell[x] == ' '
    ensures Shows(line, at, |cell|, shown, indent)
  {
    forall x | at <= x < at + |cell|
      ensures line[x] == cell[x - at]
    {
      assert line[at..at + |cell|][x - at] == line[x];
    }
    forall k | 0 <= k < |shown|
      ensures line[at + indent + k] == shown[k]
    {
      assert cell[indent..indent + |shown|][k] == cell[indent + k];
    }
  }

  lemma CellShows(text: string, width: nat, align: string, line: string, at: int)
    requires StandsAt(line, at, Fit(text, width, align), true)
    ensures var kept := Min(|text|, width); Shows(line, at, width, text[..kept], Indent(kept, width, align))
  {
    var kept := Min(|text|, width);
    FitsExactly(text, width, align);
    RangeShows(line, at, Fit(text, width, align), text[..kept], Indent(kept, width, align));
  }

  /** What of row[i] fits column i. */
  function Shown(t: Table, row: seq<string>, i: nat): string
    requires i < |t.cols| && t.cols[i] >= 0
  {
    if i >= |row| then "" else if |row[i]| <= t.cols[i] then row[i] else row[i][..t.cols[i]]
  }

  /** Blanks left of a text of that length in column i. */
  function Indented(t: Table, i: nat, length: nat): int
    requires i < |t.cols|
  {
    if t.aligns == None || i >= |t.aligns.value| then 0
    else if t.aligns.value[i] == "right" then t.cols[i] - length
    else if t.aligns.value[i] == "center" then (t.cols[i] - length) / 2
    else 0
  }

  lemma ShownIsKept(t: Table, row: seq<string>, i: nat)
    requires i < |t.cols| && t.cols[i] >= 0
    ensures var text := CellText(row, i);
            var kept := Min(|text|, t.cols[i]);
            && text[..kept] == Shown(t, row, i)
            && Indent(kept, t.cols[i], AlignOf(t, i)) == Indented(t, i, |Shown(t, row, i)|)
  {
    var text := CellText(row, i);
    assert text[..|text|] == text;
  }

  /** What a line shows in column i, if the column ends on the page: the row's i-th value, as much of it as fits,
      flush left unless the table's alignment for the column says right or center, in blanks; all blanks if the
      row has no i-th value.  Columns are one blank apart. */
  lemma ColumnShows(t: Table, row: seq<string>, columns: nat, i: nat)
    requires Widths(t.cols) && i < |t.cols| && Start(t.cols, i) + t.cols[i] <= columns
    ensures var line, at, shown := TableLine(t, row, columns), Start(t.cols, i), Shown(t, row, i);
            && Shows(line, at, t.cols[i], shown, Indented(t, i, |shown|))
            && (i > 0 ==> 0 < at <= |line| && line[at - 1] == ' ')
  {
    CellsAlign(t, row, columns, i);
    CellShows(CellText(row, i), t.cols[i], AlignOf(t, i), TableLine(t, row, columns), Start(t.cols, i));
    ShownIsKept(t, row, i);
  }
}
