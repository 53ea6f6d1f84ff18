/** The requests app/ipp_client.py sends, built byte by byte, and what a reader finds in them. */
module IppClient {
  import opened Basics
  import opened IppWire

  function Ascii(s: string): (b: bytes)
    ensures |b| == |s|
  {
    seq(|s|, i requires 0 <= i < |s| => if s[i] < 128 as char then s[i] as int else 63)
  }

  const CHARSET: byte := 0x47
  const NATURAL_LANG: byte := 0x48
  const URI: byte := 0x45
  const KEYWORD: byte := 0x44
  const NAME: byte := 0x42
  const MIME: byte := 0x49
  const BEG_COLLECTION: byte := 0x34
  const END_COLLECTION: byte := 0x37
  const MEMBER_NAME: byte := 0x4A
  const OPERATION_ATTRS: byte := 0x01
  const JOB_ATTRS: byte := 0x02
  const END_ATTRS: byte := 0x03
  const PRINT_JOB: nat := 2

  // ---------------------------------------------------------------- what the requests say

  function One(name: bytes, tag: byte, content: bytes): Attribute {
    Attribute(name, [Value(tag, content)])
  }

  /** The collection media-col = { media-source = tray }. */
  function MediaCol(tray: bytes): Attribute {
    Attribute(Ascii("media-col"),
              [Value(BEG_COLLECTION, []), Value(MEMBER_NAME, Ascii("media-source")), Value(KEYWORD, tray),
               Value(END_COLLECTION, [])])
  }

  function JobTemplate(outputBin: bytes, inputTray: bytes): seq<Attribute> {
    (if outputBin == [] then [] else [One(Ascii("output-bin"), KEYWORD, outputBin)])
    + (if inputTray == [] then [] else [MediaCol(inputTray)])
  }

  function OperationAttributes(uri: bytes): seq<Attribute> {
    [One(Ascii("attributes-charset"), CHARSET, Ascii("utf-8")),
     One(Ascii("attributes-natural-language"), NATURAL_LANG, Ascii("en")),
     One(Ascii("printer-uri"), URI, uri),
     One(Ascii("requesting-user-name"), NAME, Ascii("vibe-print"))]
  }

  function DocumentAttributes(jobName: bytes): seq<Attribute> {
    [One(Ascii("job-name"), NAME, jobName), One(Ascii("document-format"), MIME, Ascii("application/pdf"))]
  }

  /** The groups of a request: operation attributes, then job attributes if there are any. */
  function RequestGroups(uri: bytes, more: seq<Attribute>, job: seq<Attribute>): seq<Group> {
    [Group(OPERATION_ATTRS, OperationAttributes(uri) + more)] + (if job == [] then [] else [Group(JOB_ATTRS, job)])
  }

  function PrintJobGroups(uri: bytes, jobName: bytes, outputBin: bytes, inputTray: bytes): seq<Group> {
    RequestGroups(uri, DocumentAttributes(jobName), JobTemplate(outputBin, inputTray))
  }

  function Header(operation: nat, requestId: nat): bytes
    requires operation < 0x1_0000 && requestId < 0x1_0000_0000
  {
    [2, 0] + Be16(operation) + Be32(requestId)
  }

  predicate Short(b: bytes) {
    |b| < 0x1_0000
  }

  // ---------------------------------------------------------------- encoding lemmas

  lemma FitsAppend(a: seq<Attribute>, b: seq<Attribute>)
    requires FitsAttributes(a) && FitsAttributes(b)
    ensures FitsAttributes(a + b)
  {
  }

  lemma {:induction false} AttributesWireAppend(a: seq<Attribute>, b: seq<Attribute>)
    requires FitsAttributes(a) && FitsAttributes(b)
    ensures FitsAttributes(a + b) && AttributesWire(a + b) == AttributesWire(a) + AttributesWire(b)
  {
    FitsAppend(a, b);
    if a == [] {
      assert a + b == b && AttributesWire(a) + AttributesWire(b) == AttributesWire(b);
    } else {
      AttributesWireAppend(a[1..], b);
      assert (a + b)[0] == a[0] && (a + b)[1..] == a[1..] + b;
      Associative(ValuesWire(a[0].name, a[0].values), AttributesWire(a[1..]), AttributesWire(b));
    }
  }

  lemma OneWire(name: bytes, tag: byte, content: bytes)
    requires 0 < |name| < 0x1_0000 && tag >= 0x10 && Short(content)
    ensures FitsAttributes([One(name, tag, content)])
    ensures AttributesWire([One(name, tag, content)]) == Attr(tag, name, content).value
  {
    var v := Value(tag, content);
    assert FitsValues([v]) && FitsAttribute(One(name, tag, content));
    assert ValuesWire(name, [v]) == Attr(tag, name, content).value + ValuesWire([], [v][1..]);
    assert [One(name, tag, content)][1..] == [];
  }

  lemma MediaColWire(tray: bytes)
    requires Short(tray)
    ensures FitsAttributes([MediaCol(tray)])
    ensures AttributesWire([MediaCol(tray)])
         == Attr(BEG_COLLECTION, Ascii("media-col"), []).value
            + Member(MEMBER_NAME, Ascii("media-source")).value
            + Member(KEYWORD, tray).value
            + Attr(END_COLLECTION, [], []).value
  {
    var a := MediaCol(tray);
    var v := a.values;
    assert FitsValues(v) && FitsAttribute(a);
    assert ValuesWire(a.name, v) == Attr(v[0].tag, a.name, v[0].content).value + ValuesWire([], v[1..]);
    assert ValuesWire([], v[1..]) == Attr(v[1].tag, [], v[1].content).value + ValuesWire([], v[1..][1..]);
    assert v[1..][1..] == v[2..] && v[2..][1..] == v[3..] && v[3..][1..] == [];
    assert ValuesWire([], v[2..]) == Attr(v[2].tag, [], v[2].content).value + ValuesWire([], v[3..]);
    assert ValuesWire([], v[3..]) == Attr(v[3].tag, [], v[3].content).value + ValuesWire([], []);
    assert [a][1..] == [];
  }

  // ---------------------------------------------------------------- builders

  method MediaColSource(tray: bytes) returns (out: Option<bytes>)
    ensures Short(tray) ==> FitsAttributes([MediaCol(tray)]) && out == Some(AttributesWire([MediaCol(tray)]))
    ensures !Short(tray) ==> out == None
  {
    var buffer := Attr(BEG_COLLECTION, Ascii("media-col"), []).value;
    buffer := buffer + Member(MEMBER_NAME, Ascii("media-source")).value;
    var member := Member(KEYWORD, tray);
    if member == None {
      return None;
    }
    buffer := buffer + member.value;
    buffer := buffer + Attr(END_COLLECTION, [], []).value;
    MediaColWire(tray);
    out := Some(buffer);
  }

  lemma JobTemplateFits(outputBin: bytes, inputTray: bytes)
    requires Short(outputBin) && Short(inputTray)
    ensures FitsAttributes(JobTemplate(outputBin, inputTray))
  {
    OneWire(Ascii("output-bin"), KEYWORD, outputBin);
    MediaColWire(inputTray);
  }

  method JobAttributes(outputBin: bytes, inputTray: bytes) returns (out: Option<bytes>)
    ensures Short(outputBin) && Short(inputTray) ==>
              && FitsAttributes(JobTemplate(outputBin, inputTray))
              && out == Some(AttributesWire(JobTemplate(outputBin, inputTray)))
    ensures !(Short(outputBin) && Short(inputTray)) ==> out == None
  {
    var buffer: bytes := [];
    ghost var first := if outputBin == [] then [] else [One(Ascii("output-bin"), KEYWORD, outputBin)];
    if outputBin != [] {
      var bin := Attr(KEYWORD, Ascii("output-bin"), outputBin);
      if bin == None {
        return None;
      }
      buffer := buffer + bin.value;
      OneWire(Ascii("output-bin"), KEYWORD, outputBin);
    }
    assert FitsAttributes(first) && buffer == AttributesWire(first);
    if inputTray != [] {
      var col := MediaColSource(inputTray);
      if col == None {
        return None;
      }
      buffer := buffer + col.value;
      MediaColWire(inputTray);
      AttributesWireAppend(first, [MediaCol(inputTray)]);
      assert JobTemplate(outputBin, inputTray) == first + [MediaCol(inputTray)];
    } else {
      assert JobTemplate(outputBin, inputTray) == first;
    }
    out := Some(buffer);
  }

  lemma OperationWire(uri: bytes)
    requires Short(uri)
    ensures FitsAttributes(OperationAttributes(uri))
    ensures AttributesWire(OperationAttributes(uri))
         == Attr(CHARSET, Ascii("attributes-charset"), Ascii("utf-8")).value
            + Attr(NATURAL_LANG, Ascii("attributes-natural-language"), Ascii("en")).value
            + Attr(URI, Ascii("printer-uri"), uri).value
            + Attr(NAME, Ascii("requesting-user-name"), Ascii("vibe-print")).value
  {
    var a := OperationAttributes(uri);
    OneWire(Ascii("attributes-charset"), CHARSET, Ascii("utf-8"));
    OneWire(Ascii("attributes-natural-language"), NATURAL_LANG, Ascii("en"));
    OneWire(Ascii("printer-uri"), URI, uri);
    OneWire(Ascii("requesting-user-name"), NAME, Ascii("vibe-print"));
    AttributesWireAppend([a[0]], [a[1]]);
    AttributesWireAppend([a[0]] + [a[1]], [a[2]]);
    AttributesWireAppend([a[0]] + [a[1]] + [a[2]], [a[3]]);
    assert a == [a[0]] + [a[1]] + [a[2]] + [a[3]];
  }

  lemma TwoGroupsWire(g: Group, rest: seq<Group>)
    requires g.tag < 0x10 && g.tag != 3 && FitsAttributes(g.attributes) && FitsGroups(rest) && |rest| <= 1
    ensures FitsGroups([g] + rest)
    ensures GroupsWire([g] + rest)
         == [g.tag] + AttributesWire(g.attributes)
            + (if rest == [] then [] else [rest[0].tag] + AttributesWire(rest[0].attributes))
  {
    assert ([g] + rest)[1..] == rest;
    assert rest != [] ==> rest[1..] == [];
  }

  lemma RequestWire(uri: bytes, more: seq<Attribute>, job: seq<Attribute>)
    requires Short(uri) && FitsAttributes(more) && FitsAttributes(job)
    ensures FitsAttributes(OperationAttributes(uri)) && FitsGroups(RequestGroups(uri, more, job))
    ensures GroupsWire(RequestGroups(uri, more, job))
         == [OPERATION_ATTRS] + (AttributesWire(OperationAttributes(uri)) + AttributesWire(more))
            + (if job == [] then [] else [JOB_ATTRS] + AttributesWire(job))
  {
    OperationWire(uri);
    AttributesWireAppend(OperationAttributes(uri), more);
    TwoGroupsWire(Group(OPERATION_ATTRS, OperationAttributes(uri) + more),
                  if job == [] then [] else [Group(JOB_ATTRS, job)]);
  }

  /** The appends of `_build`, regrouped. */
  lemma Regroup(h: bytes, ops: bytes, extra: bytes, tail: bytes, end: bytes)
    ensures h + [OPERATION_ATTRS] + ops + extra + tail + end == h + ([OPERATION_ATTRS] + (ops + extra) + tail) + end
  {
  }

  /** `_build`: header, operation group, job group if any, end tag, whatever the two byte strings passed
      in hold. */
  method Build(operation: nat, uri: bytes, extra: bytes, jobAttrs: bytes, requestId: nat)
    returns (out: Option<bytes>)
    ensures out.Some? <==> operation < 0x1_0000 && requestId < 0x1_0000_0000 && Short(uri)
    ensures out.Some? ==>
              && FitsAttributes(OperationAttributes(uri))
              && out.value == Header(operation, requestId)
                              + [OPERATION_ATTRS] + AttributesWire(OperationAttributes(uri)) + extra
                              + (if jobAttrs == [] then [] else [JOB_ATTRS] + jobAttrs)
                              + [END_ATTRS]
  {
    if operation >= 0x1_0000 || requestId >= 0x1_0000_0000 {
      return None;
    }
    var buffer: bytes := [2, 0];
    buffer := buffer + Be16(operation);
    buffer := buffer + Be32(requestId);
    buffer := buffer + [OPERATION_ATTRS];
    buffer := buffer + Attr(CHARSET, Ascii("attributes-charset"), Ascii("utf-8")).value;
    buffer := buffer + Attr(NATURAL_LANG, Ascii("attributes-natural-language"), Ascii("en")).value;
    var printerUri := Attr(URI, Ascii("printer-uri"), uri);
    if printerUri == None {
      return None;
    }
    buffer := buffer + printerUri.value;
    buffer := buffer + Attr(NAME, Ascii("requesting-user-name"), Ascii("vibe-print")).value;
    HeaderAndOperation(operation, requestId, uri);
    buffer := buffer + extra;
    if jobAttrs != [] {
      buffer := buffer + ([JOB_ATTRS] + jobAttrs);
    }
    buffer := buffer + [END_ATTRS];
    out := Some(buffer);
  }

  /** What `_build` returns for encoded attributes is the encoding of the request's groups. */
  lemma BuiltFromAttributes(operation: nat, uri: bytes, more: seq<Attribute>, job: seq<Attribute>, requestId: nat)
    requires operation < 0x1_0000 && requestId < 0x1_0000_0000 && Short(uri)
    requires FitsAttributes(more) && FitsAttributes(job)
    ensures FitsAttributes(OperationAttributes(uri)) && FitsGroups(RequestGroups(uri, more, job))
    ensures var jobAttrs := AttributesWire(job);
            Header(operation, requestId)
            + [OPERATION_ATTRS] + AttributesWire(OperationAttributes(uri)) + AttributesWire(more)
            + (if jobAttrs == [] then [] else [JOB_ATTRS] + jobAttrs)
            + [END_ATTRS]
            == Header(operation, requestId) + GroupsWire(RequestGroups(uri, more, job)) + [END_ATTRS]
  {
    WireEmpty(job);
    RequestWire(uri, more, job);
    Regroup(Header(operation, requestId), AttributesWire(OperationAttributes(uri)), AttributesWire(more),
            if job == [] then [] else [JOB_ATTRS] + AttributesWire(job), [END_ATTRS]);
  }

  lemma HeaderAndOperation(operation: nat, requestId: nat, uri: bytes)
    requires operation < 0x1_0000 && requestId < 0x1_0000_0000 && Short(uri)
    ensures FitsAttributes(OperationAttributes(uri))
    ensures [2, 0] + Be16(operation) + Be32(requestId) + [OPERATION_ATTRS]
            + Attr(CHARSET, Ascii("attributes-charset"), Ascii("utf-8")).value
            + Attr(NATURAL_LANG, Ascii("attributes-natural-language"), Ascii("en")).value
            + Attr(URI, Ascii("printer-uri"), uri).value
            + Attr(NAME, Ascii("requesting-user-name"), Ascii("vibe-print")).value
         == Header(operation, requestId) + [OPERATION_ATTRS] + AttributesWire(OperationAttributes(uri))
  {
    OperationWire(uri);
    FourAppends(Header(operation, requestId) + [OPERATION_ATTRS],
                Attr(CHARSET, Ascii("attributes-charset"), Ascii("utf-8")).value,
                Attr(NATURAL_LANG, Ascii("attributes-natural-language"), Ascii("en")).value,
                Attr(URI, Ascii("printer-uri"), uri).value,
                Attr(NAME, Ascii("requesting-user-name"), Ascii("vibe-print")).value);
  }

  lemma FourAppends(h: bytes, a: bytes, b: bytes, c: bytes, d: bytes)
    ensures h + a + b + c + d == h + (a + b + c + d)
  {
  }

  /** Only an empty list of attributes encodes to nothing. */
  lemma WireEmpty(a: seq<Attribute>)
    requires FitsAttributes(a)
    ensures AttributesWire(a) == [] <==> a == []
  {
    if a != [] {
      assert FitsAttribute(a[0]) && FitsValue(a[0].values[0]);
    }
  }

  lemma DocumentWire(jobName: bytes)
    requires Short(jobName)
    ensures FitsAttributes(DocumentAttributes(jobName))
    ensures AttributesWire(DocumentAttributes(jobName))
         == Attr(NAME, Ascii("job-name"), jobName).value
            + Attr(MIME, Ascii("document-format"), Ascii("application/pdf")).value
  {
    var a := DocumentAttributes(jobName);
    OneWire(Ascii("job-name"), NAME, jobName);
    OneWire(Ascii("document-format"), MIME, Ascii("application/pdf"));
    AttributesWireAppend([a[0]], [a[1]]);
    assert a == [a[0]] + [a[1]];
  }

  /** `build_print_job`: the request, then the document.  It is built exactly when every caller-given
      string fits in 65535 bytes. */
  method BuildPrintJob(uri: bytes, pdf: bytes, jobName: bytes, outputBin: bytes, inputTray: bytes)
    returns (out: Option<bytes>)
    ensures out.Some? <==> Short(uri) && Short(jobName) && Short(outputBin) && Short(inputTray)
    ensures out.Some? ==>
              && FitsGroups(PrintJobGroups(uri, jobName, outputBin, inputTray))
              && out.value == Header(PRINT_JOB, 1) + GroupsWire(PrintJobGroups(uri, jobName, outputBin, inputTray))
                              + [END_ATTRS] + pdf
  {
    var named := Attr(NAME, Ascii("job-name"), jobName);
    if named == None {
      return None;
    }
    var extra := named.value + Attr(MIME, Ascii("document-format"), Ascii("application/pdf")).value;
    DocumentWire(jobName);
    var jobAttrs := JobAttributes(outputBin, inputTray);
    if jobAttrs == None {
      return None;
    }
    var request := Build(PRINT_JOB, uri, extra, jobAttrs.value, 1);
    if request == None {
      return None;
    }
    BuiltFromAttributes(PRINT_JOB, uri, DocumentAttributes(jobName), JobTemplate(outputBin, inputTray), 1);
    out := Some(request.value + pdf);
  }

  // ---------------------------------------------------------------- reading a request back

  /** The parser run over any encoded request finds its values and nothing else, whatever document
      follows the end tag. */
  lemma RequestReadsBack<T>(operation: nat, requestId: nat, groups: seq<Group>, document: bytes, decode: bytes -> T)
    requires operation < 0x1_0000 && requestId < 0x1_0000_0000 && FitsGroups(groups)
    ensures Entries(Drop(Header(operation, requestId) + GroupsWire(groups) + [END_ATTRS] + document, 8), None, decode)
         == GroupsEntries(groups, decode)
  {
    var body := GroupsWire(groups) + [3] + document;
    var message := Header(operation, requestId) + GroupsWire(groups) + [END_ATTRS] + document;
    assert message == Header(operation, requestId) + body && |Header(operation, requestId)| == 8;
    assert Drop(message, 8) == body;
    GroupsReadBack<T>(groups, document, None, decode);
  }

  lemma {:induction false} AttributesEntriesAppend<T>(a: seq<Attribute>, b: seq<Attribute>, decode: bytes -> T)
    ensures AttributesEntries(a + b, decode) == AttributesEntries(a, decode) + AttributesEntries(b, decode)
  {
    if a == [] {
      assert a + b == b;
    } else {
      assert (a + b)[0] == a[0] && (a + b)[1..] == a[1..] + b;
      AttributesEntriesAppend(a[1..], b, decode);
    }
  }

  lemma OneEntry<T>(name: bytes, tag: byte, content: bytes, decode: bytes -> T)
    requires !Skipped(tag)
    ensures AttributesEntries([One(name, tag, content)], decode) == [Entry(decode(name), content)]
  {
    var v := [Value(tag, content)];
    assert AttributeEntries(decode(name), v) == [Entry(decode(name), content)] + AttributeEntries(decode(name), v[1..]);
    assert [One(name, tag, content)][1..] == [];
  }

  lemma MediaColEntries<T>(tray: bytes, decode: bytes -> T)
    ensures var k := decode(Ascii("media-col"));
            AttributesEntries([MediaCol(tray)], decode)
            == [Entry(k, []), Entry(k, Ascii("media-source")), Entry(k, tray), Entry(k, [])]
  {
    var a, k := MediaCol(tray), decode(Ascii("media-col"));
    var v := a.values;
    assert v[1..][1..] == v[2..] && v[2..][1..] == v[3..] && v[3..][1..] == [];
    assert AttributeEntries(k, v) == [Entry(k, v[0].content)] + AttributeEntries(k, v[1..]);
    assert AttributeEntries(k, v[1..]) == [Entry(k, v[1].content)] + AttributeEntries(k, v[2..]);
    assert AttributeEntries(k, v[2..]) == [Entry(k, v[2].content)] + AttributeEntries(k, v[3..]);
    assert AttributeEntries(k, v[3..]) == [Entry(k, v[3].content)] + AttributeEntries(k, []);
    assert [a][1..] == [];
  }

  /** A print request, read back by the program's own parser: six operation attributes, then the output bin
      as sent if one was asked for, and the media-col collection, flattened under its name, if a tray was. */
  lemma TraysReadBack<T>(uri: bytes, pdf: bytes, jobName: bytes, outputBin: bytes, inputTray: bytes, decode: bytes -> T)
    requires Short(uri) && Short(jobName) && Short(outputBin) && Short(inputTray)
    ensures FitsGroups(PrintJobGroups(uri, jobName, outputBin, inputTray))
    ensures var message := Header(PRINT_JOB, 1) + GroupsWire(PrintJobGroups(uri, jobName, outputBin, inputTray))
                           + [END_ATTRS] + pdf;
            var k := decode(Ascii("media-col"));
            Entries(Drop(message, 8), None, decode)
            == [Entry(decode(Ascii("attributes-charset")), Ascii("utf-8")),
                Entry(decode(Ascii("attributes-natural-language")), Ascii("en")),
                Entry(decode(Ascii("printer-uri")), uri),
                Entry(decode(Ascii("requesting-user-name")), Ascii("vibe-print")),
                Entry(decode(Ascii("job-name")), jobName),
                Entry(decode(Ascii("document-format")), Ascii("application/pdf"))]
               + (if outputBin == [] then [] else [Entry(decode(Ascii("output-bin")), outputBin)])
               + (if inputTray == [] then []
                  else [Entry(k, []), Entry(k, Ascii("media-source")), Entry(k, inputTray), Entry(k, [])])
  {
    var ops, job := OperationAttributes(uri) + DocumentAttributes(jobName), JobTemplate(outputBin, inputTray);
    PrintJobFits(uri, jobName, outputBin, inputTray);
    RequestReadsBack(PRINT_JOB, 1, PrintJobGroups(uri, jobName, outputBin, inputTray), pdf, decode);
    RequestAttributes(uri, DocumentAttributes(jobName), job, decode);
    AttributesEntriesAppend(ops, job, decode);
    OperationEntries(uri, jobName, decode);
    TemplateEntries(outputBin, inputTray, decode);
  }

  lemma PrintJobFits(uri: bytes, jobName: bytes, outputBin: bytes, inputTray: bytes)
    requires Short(uri) && Short(jobName) && Short(outputBin) && Short(inputTray)
    ensures FitsGroups(PrintJobGroups(uri, jobName, outputBin, inputTray))
  {
    DocumentWire(jobName);
    JobTemplateFits(outputBin, inputTray);
    RequestWire(uri, DocumentAttributes(jobName), JobTemplate(outputBin, inputTray));
  }

  /** Only the attributes matter to the parser, not the groups they are in. */
  lemma RequestAttributes<T>(uri: bytes, more: seq<Attribute>, job: seq<Attribute>, decode: bytes -> T)
    ensures GroupsEntries(RequestGroups(uri, more, job), decode)
         == AttributesEntries(OperationAttributes(uri) + more + job, decode)
  {
    var groups := RequestGroups(uri, more, job);
    var ops, rest := OperationAttributes(uri) + more, groups[1..];
    AttributesEntriesAppend(ops, job, decode);
    assert groups[0].attributes == ops;
    if job == [] {
      assert rest == [];
    } else {
      assert rest == [Group(JOB_ATTRS, job)] && rest[1..] == [];
      assert GroupsEntries(rest, decode) == AttributesEntries(job, decode) + GroupsEntries(rest[1..], decode);
    }
  }

  lemma TemplateEntries<T>(outputBin: bytes, inputTray: bytes, decode: bytes -> T)
    ensures var k := decode(Ascii("media-col"));
            AttributesEntries(JobTemplate(outputBin, inputTray), decode)
            == (if outputBin == [] then [] else [Entry(decode(Ascii("output-bin")), outputBin)])
               + (if inputTray == [] then []
                  else [Entry(k, []), Entry(k, Ascii("media-source")), Entry(k, inputTray), Entry(k, [])])
  {
    OneEntry(Ascii("output-bin"), KEYWORD, outputBin, decode);
    MediaColEntries(inputTray, decode);
    AttributesEntriesAppend(if outputBin == [] then [] else [One(Ascii("output-bin"), KEYWORD, outputBin)],
                            if inputTray == [] then [] else [MediaCol(inputTray)], decode);
  }

  lemma OperationEntries<T>(uri: bytes, jobName: bytes, decode: bytes -> T)
    ensures AttributesEntries(OperationAttributes(uri) + DocumentAttributes(jobName), decode)
         == [Entry(decode(Ascii("attributes-charset")), Ascii("utf-8")),
             Entry(decode(Ascii("attributes-natural-language")), Ascii("en")),
             Entry(decode(Ascii("printer-uri")), uri),
             Entry(decode(Ascii("requesting-user-name")), Ascii("vibe-print")),
             Entry(decode(Ascii("job-name")), jobName),
             Entry(decode(Ascii("document-format")), Ascii("application/pdf"))]
  {
    SinglesEntries(OperationAttributes(uri) + DocumentAttributes(jobName), decode);
  }

  /** Attributes with one string value each give one entry each. */
  lemma {:induction false} SinglesEntries<T>(a: seq<Attribute>, decode: bytes -> T)
    requires forall i :: 0 <= i < |a| ==> |a[i].values| == 1 && !Skipped(a[i].values[0].tag)
    ensures AttributesEntries(a, decode)
         == seq(|a|, i requires 0 <= i < |a| => Entry(decode(a[i].name), a[i].values[0].content))
  {
    if a != [] {
      SinglesEntries(a[1..], decode);
      var v := a[0].values;
      assert AttributeEntries(decode(a[0].name), v)
          == [Entry(decode(a[0].name), v[0].content)] + AttributeEntries(decode(a[0].name), v[1..]);
    }
  }
}
