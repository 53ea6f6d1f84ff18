/** Rendering a document to ZPL (app/render.py, `render_zpl`), and what a printer reads in it. */
module Zpl {
  import opened Basics
  import opened TextLayout

  /** Element options are given with their defaults applied; `other` is any unknown type. */
  datatype Element =
    | Text(value: string, scale: int)
    | Rule
    | TableOf(table: Table)
    | Qr(value: string, size: int)
    | Barcode(format: string, value: string)
    | Feed(lines: int)
    | Cut
    | Pulse
    | Image
    | Other(name: string)

  /** The printer's parameters and capabilities. */
  datatype Target = Target(width: int, columns: int, qr: bool, barcodes: set<string>)

  datatype Command =
    | BeginLabel
    | Utf8
    | Origin(y: int)
    | Font(height: int)
    | Box(width: int)
    | QrCode(size: int)
    | Code128
    | Field(text: string)
    | FieldEnd
    | EndLabel

  type Line = seq<Command>

  function EscapeChar(c: char): char {
    if c == '^' || c == '~' then ' ' else c
  }

  function Escape(s: string): string {
    seq(|s|, i requires 0 <= i < |s| => EscapeChar(s[i]))
  }

  /** A command as printed after its caret. */
  function CommandText(c: Command): string {
    match c
    case BeginLabel => "XA"
    case Utf8 => "CI28"
    case Origin(y) => "FO20," + Dec(y)
    case Font(h) => "A0N," + Dec(h) + "," + Dec(h)
    case Box(w) => "GB" + Dec(w) + ",2,2"
    case QrCode(size) => "BQN,2," + Dec(size)
    case Code128 => "BCN,90,Y,N,N"
    case Field(text) => "FD" + text
    case FieldEnd => "FS"
    case EndLabel => "XZ"
  }

  function LineText(line: Line): string {
    if line == [] then "" else "^" + CommandText(line[0]) + LineText(line[1..])
  }

  function PageText(lines: seq<Line>): string {
    if lines == [] then "" else LineText(lines[0]) + "\n" + PageText(lines[1..])
  }

  // ---------------------------------------------------------------- layout

  function TextLine(y: int, height: int, text: string): Line {
    [Origin(y), Font(height), Field(text), FieldEnd]
  }

  /** The text of each row of a table. */
  function TableTexts(t: Table, columns: int): (texts: seq<string>)
    ensures |texts| == |t.rows|
    ensures forall i :: 0 <= i < |texts| ==> texts[i] == Escape(TableLine(t, t.rows[i], columns))
  {
    seq(|t.rows|, i requires 0 <= i < |t.rows| => Escape(TableLine(t, t.rows[i], columns)))
  }

  /** The first n texts as lines, 28 dots apart. */
  function TableBody(texts: seq<string>, y: int, n: nat): (lines: seq<Line>)
    requires n <= |texts|
    ensures |lines| == n
  {
    if n == 0 then [] else TableBody(texts, y, n - 1) + [TextLine(y + 28 * (n - 1), 24, texts[n - 1])]
  }

  /** The lines an element adds at height y, and the height after it. */
  function Placed(e: Element, y: int, target: Target): Result<(seq<Line>, int)> {
    match e
    case Text(value, scale) => Ok(([TextLine(y, 24 * scale, Escape(value))], y + 24 * scale + 8))
    case Rule => Ok(([[Origin(y), Box(target.width - 40), FieldEnd]], y + 14))
    case TableOf(t) =>
      Ok((TableBody(TableTexts(t, target.columns), y, |t.rows|), y + 28 * |t.rows|))
    case Qr(value, size) =>
      if !target.qr then Err(UnsupportedForPrinter)
      else Ok(([[Origin(y), QrCode(size), Field("LA," + Escape(value)), FieldEnd]], y + 140))
    case Barcode(format, value) =>
      if format !in target.barcodes then Err(UnsupportedForPrinter)
      else Ok(([[Origin(y), Code128, Field(Escape(value)), FieldEnd]], y + 130))
    case Feed(n) => Ok(([], y + 24 * n))
    case Cut => Ok(([], y))
    case Pulse => Ok(([], y))
    case Image => Ok(([], y))
    case Other(_) => Err(ValidationError)
  }

  function Layout(elements: seq<Element>, y: int, target: Target): Result<seq<Line>> {
    if elements == [] then Ok([])
    else
      match Placed(elements[0], y, target)
      case Err(e) => Err(e)
      case Ok((lines, next)) =>
        match Layout(elements[1..], next, target)
        case Err(e) => Err(e)
        case Ok(rest) => Ok(lines + rest)
  }

  const TOP: int := 20

  const HEAD: seq<Line> := [[BeginLabel], [Utf8]]

  function Page(lines: seq<Line>): seq<Line> {
    HEAD + lines + [[EndLabel]]
  }

  // ---------------------------------------------------------------- rendering

  /** Python's sep.join(parts) for a newline. */
  function JoinLines(parts: seq<string>): string
    requires parts != []
  {
    if |parts| == 1 then parts[0] else parts[0] + "\n" + JoinLines(parts[1..])
  }

  function Texts(lines: seq<Line>): seq<string> {
    seq(|lines|, i requires 0 <= i < |lines| => LineText(lines[i]))
  }

  lemma {:induction false} JoinedIsPage(lines: seq<Line>)
    requires lines != []
    ensures JoinLines(Texts(lines)) + "\n" == PageText(lines)
  {
    if |lines| == 1 {
      assert PageText(lines) == LineText(lines[0]) + "\n" + PageText(lines[1..]);
    } else {
      assert Texts(lines)[1..] == Texts(lines[1..]);
      JoinedIsPage(lines[1..]);
    }
  }

  lemma TextsAppend(a: seq<Line>, b: seq<Line>)
    ensures Texts(a + b) == Texts(a) + Texts(b)
  {
  }

  lemma LayoutStart(elements: seq<Element>, target: Target)
    ensures Layout(elements, TOP, target) == Prepended([], Layout(elements[0..], TOP, target))
  {
    assert elements[0..] == elements;
    var r := Layout(elements, TOP, target);
    assert r.Ok? ==> [] + r.value == r.value;
  }

  function Prepended(done: seq<Line>, r: Result<seq<Line>>): Result<seq<Line>> {
    match r
    case Err(e) => Err(e)
    case Ok(rest) => Ok(done + rest)
  }

  lemma LayoutStep(elements: seq<Element>, i: nat, y: int, done: seq<Line>, target: Target)
    requires i < |elements|
    ensures Prepended(done, Layout(elements[i..], y, target))
         == match Placed(elements[i], y, target)
            case Err(e) => Err(e)
            case Ok((lines, next)) => Prepended(done + lines, Layout(elements[i + 1..], next, target))
  {
    assert elements[i..][1..] == elements[i + 1..];
    if Placed(elements[i], y, target).Ok? {
      var (lines, next) := Placed(elements[i], y, target).value;
      var tail := Layout(elements[i + 1..], next, target);
      if tail.Ok? {
        assert done + (lines + tail.value) == (done + lines) + tail.value;
      }
    }
  }

  /** One round of the loop: the lines the element appends and the new height, or its error. */
  method RenderElement(e: Element, y: int, target: Target) returns (out: seq<string>, next: int, failed: Option<Error>)
    ensures match Placed(e, y, target)
            case Err(error) => failed == Some(error)
            case Ok((lines, y')) => failed == None && out == Texts(lines) && next == y'
  {
    out, next, failed := [], y, None;
    match e {
      case Text(value, scale) =>
        var h := 24 * scale;
        out := [LineText(TextLine(y, h, Escape(value)))];
        next := y + h + 8;
      case Rule =>
        out := [LineText([Origin(y), Box(target.width - 40), FieldEnd])];
        next := y + 14;
      case TableOf(t) =>
        out, next := RenderTable(t, y, target.columns);
      case Qr(value, size) =>
        if !target.qr {
          return [], y, Some(UnsupportedForPrinter);
        }
        out := [LineText([Origin(y), QrCode(size), Field("LA," + Escape(value)), FieldEnd])];
        next := y + 140;
      case Barcode(format, value) =>
        if format !in target.barcodes {
          return [], y, Some(UnsupportedForPrinter);
        }
        out := [LineText([Origin(y), Code128, Field(Escape(value)), FieldEnd])];
        next := y + 130;
      case Feed(n) =>
        next := y + 24 * n;
      case Cut =>
      case Pulse =>
      case Image =>
      case Other(_) =>
        failed := Some(ValidationError);
    }
  }

  lemma RoundTexts(done: seq<Line>, lines: seq<Line>)
    ensures Texts(HEAD + done) + Texts(lines) == Texts(HEAD + (done + lines))
  {
    TextsAppend(HEAD + done, lines);
    assert HEAD + done + lines == HEAD + (done + lines);
  }

  lemma PageTexts(done: seq<Line>)
    ensures JoinLines(Texts(HEAD + done) + [LineText([EndLabel])]) + "\n" == PageText(Page(done))
  {
    TextsAppend(HEAD + done, [[EndLabel]]);
    assert Texts([[EndLabel]]) == [LineText([EndLabel])];
    JoinedIsPage(Page(done));
  }

  /** The renderer: one pass over the elements, appending printed lines and moving down the label. */
  method RenderZpl(elements: seq<Element>, target: Target) returns (r: Result<string>)
    ensures r == match Layout(elements, 20, target)
                 case Err(e) => Err(e)
                 case Ok(lines) => Ok(PageText(Page(lines)))
  {
    var out := [LineText([BeginLabel]), LineText([Utf8])];
    var y := 20;
    ghost var done: seq<Line> := [];
    LayoutStart(elements, target);
    assert HEAD + done == HEAD;
    for i := 0 to |elements|
      invariant out == Texts(HEAD + done)
      invariant Layout(elements, TOP, target) == Prepended(done, Layout(elements[i..], y, target))
    {
      LayoutStep(elements, i, y, done, target);
      var added, next, failed := RenderElement(elements[i], y, target);
      if failed.Some? {
        return Err(failed.value);
      }
      ghost var lines := Placed(elements[i], y, target).value.0;
      RoundTexts(done, lines);
      out, y, done := out + added, next, done + lines;
    }
    assert done + [] == done;
    PageTexts(done);
    out := out + [LineText([EndLabel])];
    r := Ok(JoinLines(out) + "\n");
  }

  lemma TableBodyStep(texts: seq<string>, y: int, i: nat)
    requires i < |texts|
    ensures Texts(TableBody(texts, y, i + 1))
         == Texts(TableBody(texts, y, i)) + [LineText(TextLine(y + 28 * i, 24, texts[i]))]
  {
    var line := TextLine(y + 28 * i, 24, texts[i]);
    TextsAppend(TableBody(texts, y, i), [line]);
    assert Texts([line]) == [LineText(line)];
  }

  /** The first n rows have been printed. */
  predicate Printed(out: seq<string>, texts: seq<string>, start: int, n: nat)
    requires n <= |texts|
  {
    out == Texts(TableBody(texts, start, n))
  }

  lemma PrintedNext(out: seq<string>, texts: seq<string>, start: int, n: nat, y: int, text: string)
    requires n < |texts| && Printed(out, texts, start, n) && y == start + 28 * n && text == texts[n]
    ensures Printed(out + [LineText(TextLine(y, 24, text))], texts, start, n + 1)
  {
    TableBodyStep(texts, start, n);
  }

  method RenderTable(t: Table, start: int, columns: int) returns (out: seq<string>, y: int)
    ensures out == Texts(TableBody(TableTexts(t, columns), start, |t.rows|)) && y == start + 28 * |t.rows|
  {
    out, y := [], start;
    var lines := TableLines(t, columns);
    ghost var texts := TableTexts(t, columns);
    assert Printed(out, texts, start, 0);
    for i := 0 to |lines|
      invariant y == start + 28 * i
      invariant Printed(out, texts, start, i)
    {
      PrintedNext(out, texts, start, i, y, Escape(lines[i]));
      out := out + [LineText(TextLine(y, 24, Escape(lines[i])))];
      y := y + 28;
    }
  }

  // ---------------------------------------------------------------- what a printer reads

  /** The escaped value has no command character left, and differs only where it had one. */
  lemma EscapeIsPlain(s: string)
    ensures '^' !in Escape(s) && '~' !in Escape(s) && |Escape(s)| == |s|
    ensures forall i :: 0 <= i < |s| && s[i] != '^' && s[i] != '~' ==> Escape(s)[i] == s[i]
  {
  }

  lemma EscapeBlanks(s: string, i: nat)
    requires i < |s| && (s[i] == '^' || s[i] == '~')
    ensures Escape(s)[i] == ' '
  {
  }

  predicate PlainCommand(c: Command) {
    c.Field? ==> '^' !in c.text && '~' !in c.text
  }

  predicate PlainLine(line: Line) {
    forall i :: 0 <= i < |line| ==> PlainCommand(line[i])
  }

  predicate PlainLines(lines: seq<Line>) {
    forall i :: 0 <= i < |lines| ==> PlainLine(lines[i])
  }

  lemma DecHasNoCaret(n: int)
    ensures '^' !in Dec(n) && '~' !in Dec(n)
  {
    DecIsNumeric(n);
  }

  lemma CommandHasNoCaret(c: Command)
    requires PlainCommand(c)
    ensures '^' !in CommandText(c) && '~' !in CommandText(c)
  {
    match c
    case Origin(y) => DecHasNoCaret(y);
    case Font(h) => DecHasNoCaret(h);
    case Box(w) => DecHasNoCaret(w);
    case QrCode(size) => DecHasNoCaret(size);
    case _ =>
  }

  /** The commands of a page as a printer receives them: each up to the next caret, so the last of a
      line keeps the line's newline. */
  function LineParts(line: Line): seq<string> {
    if line == [] then []
    else [CommandText(line[0]) + (if |line| == 1 then "\n" else "")] + LineParts(line[1..])
  }

  function PageParts(lines: seq<Line>): seq<string> {
    if lines == [] then [] else LineParts(lines[0]) + PageParts(lines[1..])
  }

  /** Parts printed each after a caret. */
  function Caretted(parts: seq<string>): string {
    if parts == [] then "" else ['^'] + (parts[0] + Caretted(parts[1..]))
  }

  predicate NoCarets(parts: seq<string>) {
    forall i :: 0 <= i < |parts| ==> '^' !in parts[i]
  }

  lemma {:induction false} CarettedAppend(a: seq<string>, b: seq<string>)
    ensures Caretted(a + b) == Caretted(a) + Caretted(b)
  {
    if a == [] {
      assert a + b == b;
    } else {
      assert (a + b)[0] == a[0] && (a + b)[1..] == a[1..] + b;
      CarettedAppend(a[1..], b);
    }
  }

  lemma Shuffle(a: string, b: string, c: string, d: string)
    ensures (a + b + c) + d == a + (b + (c + d))
  {
  }

  lemma LinePartsStep(line: Line)
    requires |line| > 1
    ensures Caretted(LineParts(line)) == ['^'] + (CommandText(line[0]) + Caretted(LineParts(line[1..])))
  {
    var first := CommandText(line[0]) + "";
    assert first == CommandText(line[0]);
    assert LineParts(line) == [first] + LineParts(line[1..]);
    assert LineParts(line)[1..] == LineParts(line[1..]);
  }

  lemma LastPart(line: Line)
    requires |line| == 1
    ensures LineText(line) + "\n" == Caretted(LineParts(line))
  {
    var last := CommandText(line[0]) + "\n";
    assert line[1..] == [];
    assert LineParts(line) == [last] + [];
    assert LineParts(line)[1..] == [] && last + "" == last;
    Shuffle("^", CommandText(line[0]), "", "\n");
    assert "" + "\n" == "\n";
  }

  lemma {:induction false} LineIsCaretted(line: Line)
    requires line != []
    ensures LineText(line) + "\n" == Caretted(LineParts(line))
  {
    if |line| == 1 {
      LastPart(line);
    } else {
      LineIsCaretted(line[1..]);
      LinePartsStep(line);
      Shuffle("^", CommandText(line[0]), LineText(line[1..]), "\n");
    }
  }

  predicate FullLines(lines: seq<Line>) {
    forall i :: 0 <= i < |lines| ==> lines[i] != []
  }

  lemma {:induction false} PageIsCaretted(lines: seq<Line>)
    requires FullLines(lines)
    ensures PageText(lines) == Caretted(PageParts(lines))
  {
    if lines != [] {
      LineIsCaretted(lines[0]);
      PageIsCaretted(lines[1..]);
      CarettedAppend(LineParts(lines[0]), PageParts(lines[1..]));
    }
  }

  lemma {:induction false} LinePartsPlain(line: Line)
    requires PlainLine(line)
    ensures NoCarets(LineParts(line))
  {
    if line != [] {
      assert PlainCommand(line[0]);
      CommandHasNoCaret(line[0]);
      LinePartsPlain(line[1..]);
    }
  }

  lemma {:induction false} PagePartsPlain(lines: seq<Line>)
    requires PlainLines(lines)
    ensures NoCarets(PageParts(lines))
  {
    if lines != [] {
      assert PlainLine(lines[0]);
      LinePartsPlain(lines[0]);
      PagePartsPlain(lines[1..]);
    }
  }

  lemma SplitsLast(part: string)
    requires '^' !in part
    ensures Split(part + "", '^') == [part]
  {
    SplitNone(part, '^');
    assert part + "" == part;
  }

  lemma SplitsBefore(part: string, w: string, rest: seq<string>)
    requires '^' !in part && Split(w, '^') == rest
    ensures Split(part + (['^'] + w), '^') == [part] + rest
  {
    assert part + (['^'] + w) == part + ['^'] + w;
    SplitAt(part, '^', w);
  }

  lemma SplitsAfter(part: string, rest: seq<string>)
    requires '^' !in part
    requires Split(Caretted(rest), '^') == [""] + rest
    ensures Split(part + Caretted(rest), '^') == [part] + rest
  {
    if rest == [] {
      SplitsLast(part);
    } else {
      var w := rest[0] + Caretted(rest[1..]);
      SplitsAtCaret(w);
      SameTail("", Split(w, '^'), rest);
      SplitsBefore(part, w, rest);
    }
  }

  lemma SameTail(head: string, a: seq<string>, b: seq<string>)
    requires [head] + a == [head] + b
    ensures a == b
  {
    assert ([head] + a)[1..] == a && ([head] + b)[1..] == b;
  }

  lemma SplitsAtCaret(w: string)
    ensures Split(['^'] + w, '^') == [""] + Split(w, '^')
  {
    assert (['^'] + w)[1..] == w;
  }

  lemma {:induction false} CarettedSplits(parts: seq<string>)
    requires NoCarets(parts)
    ensures Split(Caretted(parts), '^') == [""] + parts
  {
    if parts != [] {
      CarettedSplits(parts[1..]);
      SplitsAfter(parts[0], parts[1..]);
      SplitsAtCaret(parts[0] + Caretted(parts[1..]));
    }
  }

  lemma {:induction false} TablePlain(texts: seq<string>, y: int, n: nat)
    requires n <= |texts| && forall i :: 0 <= i < |texts| ==> '^' !in texts[i] && '~' !in texts[i]
    ensures PlainLines(TableBody(texts, y, n)) && FullLines(TableBody(texts, y, n))
  {
    if n > 0 {
      TablePlain(texts, y, n - 1);
    }
  }

  lemma TextsPlain(t: Table, columns: int)
    ensures forall i :: 0 <= i < |t.rows| ==>
              '^' !in TableTexts(t, columns)[i] && '~' !in TableTexts(t, columns)[i]
  {
    forall i | 0 <= i < |t.rows|
      ensures '^' !in TableTexts(t, columns)[i] && '~' !in TableTexts(t, columns)[i]
    {
      EscapeIsPlain(TableLine(t, t.rows[i], columns));
    }
  }

  lemma PlacedPlain(e: Element, y: int, target: Target)
    requires Placed(e, y, target).Ok?
    ensures PlainLines(Placed(e, y, target).value.0) && FullLines(Placed(e, y, target).value.0)
  {
    match e
    case TableOf(t) =>
      TextsPlain(t, target.columns);
      TablePlain(TableTexts(t, target.columns), y, |t.rows|);
    case _ =>
  }

  lemma {:induction false} LayoutPlain(elements: seq<Element>, y: int, target: Target)
    requires Layout(elements, y, target).Ok?
    ensures PlainLines(Layout(elements, y, target).value) && FullLines(Layout(elements, y, target).value)
  {
    if elements != [] {
      PlacedPlain(elements[0], y, target);
      LayoutPlain(elements[1..], Placed(elements[0], y, target).value.1, target);
    }
  }

  /** The output splits at its carets into exactly the page's own commands: no value adds, removes or
      changes one. */
  lemma CommandsReadBack(elements: seq<Element>, target: Target)
    requires Layout(elements, TOP, target).Ok?
    ensures var page := Page(Layout(elements, TOP, target).value);
            Split(PageText(page), '^') == [""] + PageParts(page)
  {
    var lines := Layout(elements, TOP, target).value;
    LayoutPlain(elements, TOP, target);
    var page := Page(lines);
    assert PlainLines(page) && FullLines(page);
    PageIsCaretted(page);
    PagePartsPlain(page);
    CarettedSplits(PageParts(page));
  }

  lemma {:induction false} LineHasNoTilde(line: Line)
    requires PlainLine(line)
    ensures '~' !in LineText(line)
  {
    if line != [] {
      assert PlainCommand(line[0]);
      CommandHasNoCaret(line[0]);
      LineHasNoTilde(line[1..]);
    }
  }

  lemma {:induction false} PageHasNoTilde(lines: seq<Line>)
    requires PlainLines(lines)
    ensures '~' !in PageText(lines)
  {
    if lines != [] {
      assert PlainLine(lines[0]);
      LineHasNoTilde(lines[0]);
      PageHasNoTilde(lines[1..]);
    }
  }

  /** Nor is there any control command in the output: no text can put a tilde there. */
  lemma NoControlCommands(elements: seq<Element>, target: Target)
    requires Layout(elements, TOP, target).Ok?
    ensures '~' !in PageText(Page(Layout(elements, TOP, target).value))
  {
    var lines := Layout(elements, TOP, target).value;
    LayoutPlain(elements, TOP, target);
    assert PlainLines(Page(lines));
    PageHasNoTilde(Page(lines));
  }

  // ---------------------------------------------------------------- fields

  /** The data of the received commands that are fields. */
  function FieldsIn(parts: seq<string>): seq<string> {
    if parts == [] then []
    else (if "FD" <= parts[0] then [parts[0][2..]] else []) + FieldsIn(parts[1..])
  }

  lemma {:induction false} FieldsAppend(a: seq<string>, b: seq<string>)
    ensures FieldsIn(a + b) == FieldsIn(a) + FieldsIn(b)
  {
    if a == [] {
      assert a + b == b;
    } else {
      assert (a + b)[0] == a[0] && (a + b)[1..] == a[1..] + b;
      FieldsAppend(a[1..], b);
    }
  }

  /** What each element should print as data. */
  function ElementFields(e: Element, columns: int): seq<string> {
    match e
    case Text(value, _) => [Escape(value)]
    case TableOf(t) => TableTexts(t, columns)
    case Qr(value, _) => ["LA," + Escape(value)]
    case Barcode(_, value) => [Escape(value)]
    case _ => []
  }

  function DocumentFields(elements: seq<Element>, columns: int): seq<string> {
    if elements == [] then [] else ElementFields(elements[0], columns) + DocumentFields(elements[1..], columns)
  }

  function CommandField(c: Command): seq<string> {
    if c.Field? then [c.text] else []
  }

  lemma CommandFields(c: Command, end: string)
    requires c.Field? ==> end == ""
    ensures FieldsIn([CommandText(c) + end]) == CommandField(c)
  {
    var part := CommandText(c) + end;
    assert FieldsIn([part]) == (if "FD" <= part then [part[2..]] else []) + FieldsIn([part][1..]);
    if c.Field? {
      assert part == "FD" + c.text && part[2..] == c.text;
    } else {
      assert part[0] != 'F' || part[1] != 'D';
    }
  }

  function LineFields(line: Line): seq<string> {
    if line == [] then [] else CommandField(line[0]) + LineFields(line[1..])
  }

  predicate EndsPlain(line: Line) {
    line != [] && !line[|line| - 1].Field?
  }

  lemma {:induction false} LineFieldsRead(line: Line)
    requires EndsPlain(line)
    ensures FieldsIn(LineParts(line)) == LineFields(line)
  {
    var end := if |line| == 1 then "\n" else "";
    CommandFields(line[0], end);
    FieldsAppend([CommandText(line[0]) + end], LineParts(line[1..]));
    if |line| > 1 {
      LineFieldsRead(line[1..]);
    }
  }

  function LinesFields(lines: seq<Line>): seq<string> {
    if lines == [] then [] else LineFields(lines[0]) + LinesFields(lines[1..])
  }

  predicate AllEndPlain(lines: seq<Line>) {
    forall i :: 0 <= i < |lines| ==> EndsPlain(lines[i])
  }

  lemma {:induction false} PageFieldsRead(lines: seq<Line>)
    requires AllEndPlain(lines)
    ensures FieldsIn(PageParts(lines)) == LinesFields(lines)
  {
    if lines != [] {
      assert EndsPlain(lines[0]);
      LineFieldsRead(lines[0]);
      PageFieldsRead(lines[1..]);
      FieldsAppend(LineParts(lines[0]), PageParts(lines[1..]));
    }
  }

  lemma {:induction false} LinesFieldsAppend(a: seq<Line>, b: seq<Line>)
    ensures LinesFields(a + b) == LinesFields(a) + LinesFields(b)
  {
    if a == [] {
      assert a + b == b;
    } else {
      assert (a + b)[0] == a[0] && (a + b)[1..] == a[1..] + b;
      LinesFieldsAppend(a[1..], b);
    }
  }

  lemma NotAField(line: Line)
    requires line != [] && !line[0].Field?
    ensures LineFields(line) == LineFields(line[1..])
  {
    assert LineFields(line) == [] + LineFields(line[1..]);
  }

  lemma OneLineFields(line: Line)
    requires |line| == 4 && line[2].Field? && !line[0].Field? && !line[1].Field? && !line[3].Field?
    ensures LinesFields([line]) == [line[2].text]
  {
    var l1, l2, l3 := line[1..], line[2..], line[3..];
    assert l1[1..] == l2 && l2[1..] == l3 && l3[1..] == [];
    NotAField(line);
    NotAField(l1);
    NotAField(l3);
    assert LineFields(l2) == [line[2].text] + LineFields(l3);
    assert [line][1..] == [];
    assert LinesFields([line]) == LineFields(line) + LinesFields([]);
  }

  lemma {:induction false} TableFieldsPlaced(texts: seq<string>, y: int, n: nat)
    requires n <= |texts|
    ensures LinesFields(TableBody(texts, y, n)) == texts[..n]
    ensures AllEndPlain(TableBody(texts, y, n))
  {
    if n > 0 {
      TableFieldsPlaced(texts, y, n - 1);
      var line := TextLine(y + 28 * (n - 1), 24, texts[n - 1]);
      OneLineFields(line);
      LinesFieldsAppend(TableBody(texts, y, n - 1), [line]);
      assert texts[..n] == texts[..n - 1] + [texts[n - 1]];
    }
  }

  lemma ElementFieldsPlaced(e: Element, y: int, target: Target)
    requires Placed(e, y, target).Ok?
    ensures LinesFields(Placed(e, y, target).value.0) == ElementFields(e, target.columns)
    ensures AllEndPlain(Placed(e, y, target).value.0)
  {
    var lines := Placed(e, y, target).value.0;
    match e
    case TableOf(t) =>
      var texts := TableTexts(t, target.columns);
      TableFieldsPlaced(texts, y, |t.rows|);
      assert texts[..|t.rows|] == texts;
    case Text(_, _) => OneLineFields(lines[0]);
    case Qr(_, _) => OneLineFields(lines[0]);
    case Barcode(_, _) => OneLineFields(lines[0]);
    case Rule =>
      assert lines[0][1..][1..] == [FieldEnd] && [FieldEnd][1..] == [];
      assert LineFields(lines[0][1..]) == [] && lines[1..] == [];
    case _ =>
  }

  lemma {:induction false} LayoutFields(elements: seq<Element>, y: int, target: Target)
    requires Layout(elements, y, target).Ok?
    ensures LinesFields(Layout(elements, y, target).value) == DocumentFields(elements, target.columns)
    ensures AllEndPlain(Layout(elements, y, target).value)
  {
    if elements != [] {
      var (lines, next) := Placed(elements[0], y, target).value;
      ElementFieldsPlaced(elements[0], y, target);
      LayoutFields(elements[1..], next, target);
      LinesFieldsAppend(lines, Layout(elements[1..], next, target).value);
    }
  }

  lemma PageFields(lines: seq<Line>)
    requires AllEndPlain(lines)
    ensures LinesFields(Page(lines)) == LinesFields(lines) && AllEndPlain(Page(lines))
  {
    LinesFieldsAppend(HEAD + lines, [[EndLabel]]);
    LinesFieldsAppend(HEAD, lines);
    assert HEAD == [HEAD[0]] + [HEAD[1]];
    LinesFieldsAppend([HEAD[0]], [HEAD[1]]);
    NoFields(BeginLabel);
    NoFields(Utf8);
    NoFields(EndLabel);
  }

  lemma NoFields(c: Command)
    requires !c.Field?
    ensures LinesFields([[c]]) == []
  {
    assert [[c]][1..] == [] && [c][1..] == [];
    assert LineFields([c]) == [];
  }

  /** The fields received are, in order, the escaped values of the document: a QR code's with its
      `LA,` prefix, a table's line by line. */
  lemma FieldsReadBack(elements: seq<Element>, target: Target)
    requires Layout(elements, TOP, target).Ok?
    ensures FieldsIn(Split(PageText(Page(Layout(elements, TOP, target).value)), '^'))
         == DocumentFields(elements, target.columns)
  {
    var lines := Layout(elements, TOP, target).value;
    CommandsReadBack(elements, target);
    LayoutFields(elements, TOP, target);
    PageFields(lines);
    PageFieldsRead(Page(lines));
    FieldsAppend([""], PageParts(Page(lines)));
    assert FieldsIn([""]) == [] + FieldsIn([""][1..]);
  }

  // ---------------------------------------------------------------- values never reach the structure

  /** An element with its texts blanked: its kind, numeric options and number of table rows. */
  function Shape(e: Element): Element {
    match e
    case Text(_, scale) => Text("", scale)
    case TableOf(t) => TableOf(Table([], None, seq(|t.rows|, _ => [])))
    case Qr(_, size) => Qr("", size)
    case Barcode(format, _) => Barcode(format, "")
    case _ => e
  }

  predicate SameShape(a: seq<Element>, b: seq<Element>) {
    |a| == |b| && forall i :: 0 <= i < |a| ==> Shape(a[i]) == Shape(b[i])
  }

  function Blank(c: Command): Command {
    if c.Field? then Field("") else c
  }

  predicate SameLine(a: Line, b: Line) {
    |a| == |b| && forall i :: 0 <= i < |a| ==> Blank(a[i]) == Blank(b[i])
  }

  predicate SameSkeleton(a: seq<Line>, b: seq<Line>) {
    |a| == |b| && forall i :: 0 <= i < |a| ==> SameLine(a[i], b[i])
  }

  lemma {:induction false} TableSkeleton(a: seq<string>, b: seq<string>, y: int, n: nat)
    requires n <= |a| && n <= |b|
    ensures SameSkeleton(TableBody(a, y, n), TableBody(b, y, n))
  {
    if n > 0 {
      TableSkeleton(a, b, y, n - 1);
      RowMatches(TableBody(a, y, n - 1), TableBody(b, y, n - 1), y + 28 * (n - 1), a[n - 1], b[n - 1]);
    }
  }

  lemma RowMatches(a: seq<Line>, b: seq<Line>, y: int, text: string, text': string)
    requires SameSkeleton(a, b)
    ensures SameSkeleton(a + [TextLine(y, 24, text)], b + [TextLine(y, 24, text')])
  {
    TextLinesMatch(y, text, text');
    SkeletonAppend(a, b, [TextLine(y, 24, text)], [TextLine(y, 24, text')]);
  }

  lemma TextLinesMatch(y: int, a: string, b: string)
    ensures SameSkeleton([TextLine(y, 24, a)], [TextLine(y, 24, b)])
  {
    assert SameLine(TextLine(y, 24, a), TextLine(y, 24, b));
  }

  lemma PlacedSkeleton(a: Element, b: Element, y: int, target: Target)
    requires Shape(a) == Shape(b)
    ensures match (Placed(a, y, target), Placed(b, y, target))
            case (Ok((la, na)), Ok((lb, nb))) => na == nb && SameSkeleton(la, lb)
            case (Err(ea), Err(eb)) => ea == eb
            case _ => false
  {
    if a.TableOf? {
      ShapeRows(a, b);
      TableSkeleton(TableTexts(a.table, target.columns), TableTexts(b.table, target.columns), y, |a.table.rows|);
    }
  }

  lemma ShapeRows(a: Element, b: Element)
    requires a.TableOf? && Shape(a) == Shape(b)
    ensures b.TableOf? && |b.table.rows| == |a.table.rows|
  {
    assert |Shape(a).table.rows| == |a.table.rows|;
    assert b.TableOf? ==> |Shape(b).table.rows| == |b.table.rows|;
  }

  lemma SkeletonAppend(a: seq<Line>, b: seq<Line>, a': seq<Line>, b': seq<Line>)
    requires SameSkeleton(a, b) && SameSkeleton(a', b')
    ensures SameSkeleton(a + a', b + b')
  {
    forall i | 0 <= i < |a + a'|
      ensures SameLine((a + a')[i], (b + b')[i])
    {
      if i < |a| {
        assert SameLine(a[i], b[i]);
      } else {
        assert SameLine(a'[i - |a|], b'[i - |a|]);
      }
    }
  }

  lemma ShapesAfter(a: seq<Element>, b: seq<Element>)
    requires SameShape(a, b) && a != []
    ensures Shape(a[0]) == Shape(b[0]) && SameShape(a[1..], b[1..])
  {
    forall i | 0 <= i < |a| - 1
      ensures Shape(a[1..][i]) == Shape(b[1..][i])
    {
      assert Shape(a[i + 1]) == Shape(b[i + 1]);
    }
  }

  /** The command sequence depends on the element kinds, numeric options and row counts alone: two
      documents of the same shape print the same commands, or fail with the same error, whatever
      their texts. */
  lemma {:induction false} SkeletonFixedByShape(a: seq<Element>, b: seq<Element>, y: int, target: Target)
    requires SameShape(a, b)
    ensures match (Layout(a, y, target), Layout(b, y, target))
            case (Ok(la), Ok(lb)) => SameSkeleton(la, lb)
            case (Err(ea), Err(eb)) => ea == eb
            case _ => false
  {
    if a != [] {
      ShapesAfter(a, b);
      PlacedSkeleton(a[0], b[0], y, target);
      if Placed(a[0], y, target).Ok? {
        var (la, next) := Placed(a[0], y, target).value;
        var (lb, _) := Placed(b[0], y, target).value;
        SkeletonFixedByShape(a[1..], b[1..], next, target);
        var ra, rb := Layout(a[1..], next, target), Layout(b[1..], next, target);
        if ra.Ok? {
          SkeletonAppend(la, lb, ra.value, rb.value);
        }
      }
    }
  }

  // ---------------------------------------------------------------- what is printed, and where

  lemma FourParts(a: Command, b: Command, c: Command, d: Command)
    ensures LineParts([a, b, c, d]) == [CommandText(a), CommandText(b), CommandText(c), CommandText(d) + "\n"]
  {
    var line := [a, b, c, d];
    var l1, l2, l3 := line[1..], line[2..], line[3..];
    assert l1[1..] == l2 && l2[1..] == l3 && l3[1..] == [];
    FirstPart(line);
    FirstPart(l1);
    FirstPart(l2);
    assert LineParts(l3) == [CommandText(d) + "\n"] + LineParts(l3[1..]);
  }

  lemma ThreeParts(a: Command, b: Command, c: Command)
    ensures LineParts([a, b, c]) == [CommandText(a), CommandText(b), CommandText(c) + "\n"]
  {
    var line := [a, b, c];
    var l1, l2 := line[1..], line[2..];
    assert l1[1..] == l2 && l2[1..] == [];
    FirstPart(line);
    FirstPart(l1);
    assert LineParts(l2) == [CommandText(c) + "\n"] + LineParts(l2[1..]);
  }

  lemma FirstPart(line: Line)
    requires |line| > 1
    ensures LineParts(line) == [CommandText(line[0])] + LineParts(line[1..])
  {
    assert CommandText(line[0]) + "" == CommandText(line[0]);
  }

  lemma TextLineParts(y: int, h: int, text: string)
    ensures LineParts(TextLine(y, h, text))
         == ["FO20," + Dec(y), "A0N," + Dec(h) + "," + Dec(h), "FD" + text, "FS\n"]
  {
    FourParts(Origin(y), Font(h), Field(text), FieldEnd);
    assert "FS" + "\n" == "FS\n";
  }

  lemma LineAmong(before: seq<Line>, last: Line, i: nat)
    requires i <= |before|
    ensures (before + [last])[i] == if i < |before| then before[i] else last
  {
  }

  lemma {:induction false} TableLineAt(texts: seq<string>, y: int, n: nat, i: nat)
    requires i < n <= |texts|
    ensures TableBody(texts, y, n)[i] == TextLine(y + 28 * i, 24, texts[i])
  {
    LineAmong(TableBody(texts, y, n - 1), TextLine(y + 28 * (n - 1), 24, texts[n - 1]), i);
    if i < n - 1 {
      TableLineAt(texts, y, n - 1, i);
    }
  }

  lemma TablePrints(t: Table, columns: int, y: int, i: nat)
    requires i < |t.rows|
    ensures LineParts(TableBody(TableTexts(t, columns), y, |t.rows|)[i])
         == ["FO20," + Dec(y + 28 * i), "A0N," + Dec(24) + "," + Dec(24),
             "FD" + Escape(TableLine(t, t.rows[i], columns)), "FS\n"]
  {
    TableLineAt(TableTexts(t, columns), y, |t.rows|, i);
    TextLineParts(y + 28 * i, 24, Escape(TableLine(t, t.rows[i], columns)));
  }

  /** The commands each element prints at a height, as received. */
  lemma PlacedPrints(e: Element, y: int, target: Target)
    requires Placed(e, y, target).Ok?
    ensures var lines := Placed(e, y, target).value.0;
            match e
            case Text(value, scale) =>
              && |lines| == 1
              && LineParts(lines[0]) == ["FO20," + Dec(y), "A0N," + Dec(24 * scale) + "," + Dec(24 * scale),
                                         "FD" + Escape(value), "FS\n"]
            case Rule =>
              |lines| == 1 && LineParts(lines[0]) == ["FO20," + Dec(y), "GB" + Dec(target.width - 40) + ",2,2", "FS\n"]
            case TableOf(t) =>
              && |lines| == |t.rows|
              && forall i :: 0 <= i < |lines| ==>
                   LineParts(lines[i]) == ["FO20," + Dec(y + 28 * i), "A0N," + Dec(24) + "," + Dec(24),
                                           "FD" + Escape(TableLine(t, t.rows[i], target.columns)), "FS\n"]
            case Qr(value, size) =>
              && target.qr && |lines| == 1
              && LineParts(lines[0]) == ["FO20," + Dec(y), "BQN,2," + Dec(size), "FD" + ("LA," + Escape(value)), "FS\n"]
            case Barcode(format, value) =>
              && format in target.barcodes && |lines| == 1
              && LineParts(lines[0]) == ["FO20," + Dec(y), "BCN,90,Y,N,N", "FD" + Escape(value), "FS\n"]
            case Other(_) => false
            case _ => lines == []
  {
    assert "FS" + "\n" == "FS\n";
    match e
    case Text(value, scale) => TextLineParts(y, 24 * scale, Escape(value));
    case Rule => ThreeParts(Origin(y), Box(target.width - 40), FieldEnd);
    case TableOf(t) =>
      forall i | 0 <= i < |t.rows|
        ensures LineParts(TableBody(TableTexts(t, target.columns), y, |t.rows|)[i])
             == ["FO20," + Dec(y + 28 * i), "A0N," + Dec(24) + "," + Dec(24),
                 "FD" + Escape(TableLine(t, t.rows[i], target.columns)), "FS\n"]
      {
        TablePrints(t, target.columns, y, i);
      }
    case Qr(value, size) => FourParts(Origin(y), QrCode(size), Field("LA," + Escape(value)), FieldEnd);
    case Barcode(_, value) => FourParts(Origin(y), Code128, Field(Escape(value)), FieldEnd);
    case _ =>
  }

  /** Why a document cannot be printed on the target: what it cannot do, or does not know. */
  function Refusal(e: Element, target: Target): Option<Error> {
    match e
    case Qr(_, _) => if target.qr then None else Some(UnsupportedForPrinter)
    case Barcode(format, _) => if format in target.barcodes then None else Some(UnsupportedForPrinter)
    case Other(_) => Some(ValidationError)
    case _ => None
  }

  /** The first element that is refused decides. */
  lemma {:induction false} FailsAtFirst(elements: seq<Element>, y: int, target: Target, k: nat)
    requires k <= |elements| && forall i :: 0 <= i < k ==> Refusal(elements[i], target).None?
    requires k < |elements| ==> Refusal(elements[k], target).Some?
    ensures k == |elements| ==> Layout(elements, y, target).Ok?
    ensures k < |elements| ==> Layout(elements, y, target) == Err(Refusal(elements[k], target).value)
  {
    if k > 0 {
      var e := elements[0];
      assert Refusal(e, target).None? && Placed(e, y, target).Ok?;
      FailsAtFirst(elements[1..], Placed(e, y, target).value.1, target, k - 1);
    }
  }

  lemma {:induction false} PagePartsAppend(a: seq<Line>, b: seq<Line>)
    ensures PageParts(a + b) == PageParts(a) + PageParts(b)
  {
    if a == [] {
      assert a + b == b;
    } else {
      assert (a + b)[0] == a[0] && (a + b)[1..] == a[1..] + b;
      PagePartsAppend(a[1..], b);
    }
  }

  lemma OnePart(c: Command, text: string)
    requires CommandText(c) + "\n" == text
    ensures PageParts([[c]]) == [text]
  {
    var line := [c];
    var page := [line];
    assert line[1..] == [] && page[1..] == [];
    assert LineParts(line) == [text] + LineParts([]);
  }

  /** A label is its elements' commands between the opening and the closing ones. */
  lemma PageFrame(lines: seq<Line>)
    ensures PageParts(Page(lines)) == ["XA\n", "CI28\n"] + PageParts(lines) + ["XZ\n"]
  {
    PagePartsAppend(HEAD + lines, [[EndLabel]]);
    PagePartsAppend(HEAD, lines);
    PagePartsAppend([HEAD[0]], [HEAD[1]]);
    OnePart(BeginLabel, "XA\n");
    OnePart(Utf8, "CI28\n");
    OnePart(EndLabel, "XZ\n");
  }

  /** The dots an element takes down the label. */
  function Height(e: Element): int {
    match e
    case Text(_, scale) => 24 * scale + 8
    case Rule => 14
    case TableOf(t) => 28 * |t.rows|
    case Qr(_, _) => 140
    case Barcode(_, _) => 130
    case Feed(n) => 24 * n
    case _ => 0
  }

  function Heights(elements: seq<Element>): int {
    if elements == [] then 0 else Heights(elements[..|elements| - 1]) + Height(elements[|elements| - 1])
  }

  lemma {:induction false} HeightsFirst(elements: seq<Element>)
    requires elements != []
    ensures Heights(elements) == Height(elements[0]) + Heights(elements[1..])
  {
    var last := |elements| - 1;
    if last > 0 {
      HeightsFirst(elements[..last]);
      assert elements[..last][1..] == elements[1..][..last - 1];
    } else {
      assert elements[..0] == [] && elements[1..] == [];
    }
  }

  lemma HeightsPrefix(elements: seq<Element>, k: nat)
    requires 0 < k <= |elements|
    ensures Heights(elements[..k]) == Height(elements[0]) + Heights(elements[1..][..k - 1])
  {
    HeightsFirst(elements[..k]);
    assert elements[..k][1..] == elements[1..][..k - 1];
  }

  lemma LayoutFirst(elements: seq<Element>, y: int, target: Target)
    requires Layout(elements, y, target).Ok? && elements != []
    ensures Placed(elements[0], y, target).Ok? && Layout(elements[1..], y + Height(elements[0]), target).Ok?
    ensures Layout(elements, y, target).value
         == Placed(elements[0], y, target).value.0 + Layout(elements[1..], y + Height(elements[0]), target).value
  {
  }

  lemma PartOfMore(whole: seq<Line>, first: seq<Line>, rest: seq<Line>, before: seq<Line>, mine: seq<Line>,
                   after: seq<Line>)
    requires whole == first + rest && rest == before + mine + after
    ensures whole == (first + before) + mine + after
  {
  }

  /** Element k's lines are placed below all that the elements before it take. */
  lemma {:induction false} PlacedBelow(elements: seq<Element>, y: int, target: Target, k: nat, at: int)
    returns (before: seq<Line>, after: seq<Line>)
    requires Layout(elements, y, target).Ok? && k < |elements| && at == y + Heights(elements[..k])
    ensures Placed(elements[k], at, target).Ok?
    ensures Layout(elements, y, target).value == before + Placed(elements[k], at, target).value.0 + after
  {
    LayoutFirst(elements, y, target);
    var next := y + Height(elements[0]);
    if k == 0 {
      before, after := [], Layout(elements[1..], next, target).value;
    } else {
      HeightsPrefix(elements, k);
      assert elements[1..][k - 1] == elements[k];
      before, after := PlacedBelow(elements[1..], next, target, k - 1, at);
      PartOfMore(Layout(elements, y, target).value, Placed(elements[0], y, target).value.0,
                 Layout(elements[1..], next, target).value, before, Placed(elements[k], at, target).value.0, after);
      before := Placed(elements[0], y, target).value.0 + before;
    }
  }

  /** No negative size or feed. */
  predicate Sensible(e: Element) {
    && (e.Text? ==> e.scale >= 0)
    && (e.Feed? ==> e.lines >= 0)
  }

  predicate AllSensible(elements: seq<Element>) {
    forall i :: 0 <= i < |elements| ==> Sensible(elements[i])
  }

  /** The dots a printed line reaches down from its origin: its letters, its rule, its bars, or what is kept for a
      QR code. */
  function Reach(line: Line): int {
    if |line| < 2 then 0
    else
      match line[1]
      case Font(h) => h
      case Box(_) => 2
      case Code128 => 90
      case QrCode(_) => 140
      case _ => 0
  }

  /** The lines stand between two heights, each wholly above the next. */
  predicate Stacked(lines: seq<Line>, top: int, bottom: int) {
    && (forall i :: 0 <= i < |lines| ==>
          && lines[i] != [] && lines[i][0].Origin? && top <= lines[i][0].y
          && lines[i][0].y + Reach(lines[i]) <= bottom)
    && (forall i, k :: 0 <= i < k < |lines| ==>
          lines[i] != [] && lines[i][0].Origin? && lines[k] != [] && lines[k][0].Origin?
          && lines[i][0].y + Reach(lines[i]) <= lines[k][0].y)
  }

  lemma RowStacked(lines: seq<Line>, y: int, at: int, text: string)
    requires y <= at && Stacked(lines, y, at)
    ensures Stacked(lines + [TextLine(at, 24, text)], y, at + 28)
  {
    StackedAppend(lines, [TextLine(at, 24, text)], y, at, at + 28);
  }

  lemma {:induction false} TableStacked(texts: seq<string>, y: int, n: nat)
    requires n <= |texts|
    ensures Stacked(TableBody(texts, y, n), y, y + 28 * n)
  {
    if n > 0 {
      TableStacked(texts, y, n - 1);
      RowStacked(TableBody(texts, y, n - 1), y, y + 28 * (n - 1), texts[n - 1]);
    }
  }

  lemma PlacedStacked(e: Element, y: int, target: Target)
    requires Placed(e, y, target).Ok? && Sensible(e)
    ensures Placed(e, y, target).value.1 >= y
    ensures Stacked(Placed(e, y, target).value.0, y, Placed(e, y, target).value.1)
  {
    match e
    case TableOf(t) => TableStacked(TableTexts(t, target.columns), y, |t.rows|);
    case _ =>
  }

  lemma StackedAppend(a: seq<Line>, b: seq<Line>, top: int, mid: int, bottom: int)
    requires top <= mid <= bottom && Stacked(a, top, mid) && Stacked(b, mid, bottom)
    ensures Stacked(a + b, top, bottom)
  {
  }

  /** Nothing is printed over anything else: the lines of a document stand one below the other. */
  lemma {:induction false} NoOverlap(elements: seq<Element>, y: int, target: Target) returns (bottom: int)
    requires Layout(elements, y, target).Ok? && AllSensible(elements)
    ensures bottom >= y && Stacked(Layout(elements, y, target).value, y, bottom)
  {
    bottom := y;
    if elements != [] {
      var (lines, next) := Placed(elements[0], y, target).value;
      assert Sensible(elements[0]);
      PlacedStacked(elements[0], y, target);
      bottom := NoOverlap(elements[1..], next, target);
      StackedAppend(lines, Layout(elements[1..], next, target).value, y, next, bottom);
    }
  }
}
