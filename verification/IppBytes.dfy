/** The print request of app/ipp_client.py octet by octet, with the numbers RFC 8010 gives (sections 3.1.1 to
    3.1.7 for the layout, 3.5 for the tags) and RFC 8011 gives the operation (section 5.4.15). */
module IppBytes {
  import opened Basics
  import opened IppWire
  import opened IppClient

  /** One value: its tag, then its name and its content, each after its length in two octets. */
  function Octets(tag: byte, name: bytes, content: bytes): bytes
    requires Short(name) && Short(content)
  {
    [tag, |name| / 256, |name| % 256] + name + [|content| / 256, |content| % 256] + content
  }

  function Flat(parts: seq<bytes>): bytes {
    if parts == [] then [] else parts[0] + Flat(parts[1..])
  }

  lemma {:induction false} FlatAppend(a: seq<bytes>, b: seq<bytes>)
    ensures Flat(a + b) == Flat(a) + Flat(b)
  {
    if a == [] {
      assert a + b == b;
    } else {
      assert (a + b)[0] == a[0] && (a + b)[1..] == a[1..] + b;
      FlatAppend(a[1..], b);
      Associative(a[0], Flat(a[1..]), Flat(b));
    }
  }

  lemma FlatOne(a: bytes)
    ensures Flat([a]) == a
  {
    assert [a][1..] == [];
  }

  lemma FlatTwo(a: bytes, b: bytes)
    ensures Flat([a, b]) == a + b
  {
    FlatAppend([a], [b]);
    FlatOne(a);
    FlatOne(b);
    assert [a] + [b] == [a, b];
  }

  lemma FlatFour(a: bytes, b: bytes, c: bytes, d: bytes)
    ensures Flat([a, b, c, d]) == a + b + c + d
  {
    FlatTwo(a, b);
    FlatTwo(c, d);
    FlatAppend([a, b], [c, d]);
    assert [a, b] + [c, d] == [a, b, c, d];
    Associative(a + b, c, d);
  }

  lemma AttrOctets(tag: byte, name: bytes, content: bytes)
    requires Short(name) && Short(content)
    ensures Attr(tag, name, content) == Some(Octets(tag, name, content))
  {
    assert Be16(|name|) == [|name| / 256, |name| % 256];
    assert [tag] + [|name| / 256, |name| % 256] == [tag, |name| / 256, |name| % 256];
  }

  /** The characters of a plain text are its octets. */
  lemma AsciiIsPlain(s: string, i: nat)
    requires i < |s| && s[i] < 128 as char
    ensures Ascii(s)[i] == s[i] as int
  {
  }

  function OperationPart(uri: bytes): seq<bytes>
    requires Short(uri)
  {
    [Octets(0x47, Ascii("attributes-charset"), Ascii("utf-8")),
     Octets(0x48, Ascii("attributes-natural-language"), Ascii("en")),
     Octets(0x45, Ascii("printer-uri"), uri),
     Octets(0x42, Ascii("requesting-user-name"), Ascii("vibe-print"))]
  }

  function DocumentPart(jobName: bytes): seq<bytes>
    requires Short(jobName)
  {
    [Octets(0x42, Ascii("job-name"), jobName), Octets(0x49, Ascii("document-format"), Ascii("application/pdf"))]
  }

  function BinPart(outputBin: bytes): seq<bytes>
    requires Short(outputBin)
  {
    if outputBin == [] then [] else [Octets(0x44, Ascii("output-bin"), outputBin)]
  }

  function TrayPart(inputTray: bytes): seq<bytes>
    requires Short(inputTray)
  {
    if inputTray == [] then []
    else [Octets(0x34, Ascii("media-col"), []), Octets(0x4A, [], Ascii("media-source")), Octets(0x44, [], inputTray),
          Octets(0x37, [], [])]
  }

  lemma OperationOctets(uri: bytes)
    requires Short(uri)
    ensures FitsAttributes(OperationAttributes(uri))
    ensures AttributesWire(OperationAttributes(uri)) == Flat(OperationPart(uri))
  {
    OperationWire(uri);
    AttrOctets(0x47, Ascii("attributes-charset"), Ascii("utf-8"));
    AttrOctets(0x48, Ascii("attributes-natural-language"), Ascii("en"));
    AttrOctets(0x45, Ascii("printer-uri"), uri);
    AttrOctets(0x42, Ascii("requesting-user-name"), Ascii("vibe-print"));
    var p := OperationPart(uri);
    FlatFour(p[0], p[1], p[2], p[3]);
  }

  lemma DocumentOctets(jobName: bytes)
    requires Short(jobName)
    ensures FitsAttributes(DocumentAttributes(jobName))
    ensures AttributesWire(DocumentAttributes(jobName)) == Flat(DocumentPart(jobName))
  {
    DocumentWire(jobName);
    AttrOctets(0x42, Ascii("job-name"), jobName);
    AttrOctets(0x49, Ascii("document-format"), Ascii("application/pdf"));
    FlatTwo(DocumentPart(jobName)[0], DocumentPart(jobName)[1]);
  }

  lemma BinOctets(outputBin: bytes)
    requires Short(outputBin)
    ensures var a := if outputBin == [] then [] else [One(Ascii("output-bin"), KEYWORD, outputBin)];
            FitsAttributes(a) && AttributesWire(a) == Flat(BinPart(outputBin))
  {
    if outputBin != [] {
      OneWire(Ascii("output-bin"), KEYWORD, outputBin);
      AttrOctets(0x44, Ascii("output-bin"), outputBin);
      FlatOne(Octets(0x44, Ascii("output-bin"), outputBin));
    }
  }

  lemma TrayOctets(inputTray: bytes)
    requires Short(inputTray)
    ensures var a := if inputTray == [] then [] else [MediaCol(inputTray)];
            FitsAttributes(a) && AttributesWire(a) == Flat(TrayPart(inputTray))
  {
    if inputTray != [] {
      MediaColWire(inputTray);
      AttrOctets(0x34, Ascii("media-col"), []);
      AttrOctets(0x4A, [], Ascii("media-source"));
      AttrOctets(0x44, [], inputTray);
      AttrOctets(0x37, [], []);
      var p := TrayPart(inputTray);
      FlatFour(p[0], p[1], p[2], p[3]);
    }
  }

  lemma JobOctets(outputBin: bytes, inputTray: bytes)
    requires Short(outputBin) && Short(inputTray)
    ensures var a := JobTemplate(outputBin, inputTray);
            && FitsAttributes(a)
            && AttributesWire(a) == Flat(BinPart(outputBin) + TrayPart(inputTray))
            && (a == [] <==> outputBin == [] && inputTray == [])
  {
    BinOctets(outputBin);
    TrayOctets(inputTray);
    AttributesWireAppend(if outputBin == [] then [] else [One(Ascii("output-bin"), KEYWORD, outputBin)],
                         if inputTray == [] then [] else [MediaCol(inputTray)]);
    FlatAppend(BinPart(outputBin), TrayPart(inputTray));
  }

  /** The parts of a print request: its header, the operation group (tag 1), the job group (tag 2) only if a bin or
      a tray was asked for, the end (tag 3), and the document. */
  function RequestParts(header: bytes, uri: bytes, pdf: bytes, jobName: bytes, outputBin: bytes, inputTray: bytes)
    : seq<bytes>
    requires Short(uri) && Short(jobName) && Short(outputBin) && Short(inputTray)
  {
    [header, [1]] + OperationPart(uri) + DocumentPart(jobName) + JobPart(outputBin, inputTray) + [[3], pdf]
  }

  function JobPart(outputBin: bytes, inputTray: bytes): seq<bytes>
    requires Short(outputBin) && Short(inputTray)
  {
    if outputBin == [] && inputTray == [] then [] else [[2]] + BinPart(outputBin) + TrayPart(inputTray)
  }

  lemma FlatFive(a: seq<bytes>, b: seq<bytes>, c: seq<bytes>, d: seq<bytes>, e: seq<bytes>)
    ensures Flat(a + b + c + d + e) == Flat(a) + Flat(b) + Flat(c) + Flat(d) + Flat(e)
  {
    FlatAppend(a, b);
    FlatAppend(a + b, c);
    FlatAppend(a + b + c, d);
    FlatAppend(a + b + c + d, e);
  }

  lemma Reassociate(h: bytes, one: bytes, a: bytes, b: bytes, t: bytes, three: bytes, pdf: bytes)
    ensures h + (one + (a + b) + t) + three + pdf == (h + one) + a + b + t + (three + pdf)
  {
  }

  /** Version 2.0, the operation in two octets, the request in four. */
  lemma HeaderOctets(operation: nat, requestId: nat)
    requires operation < 0x1_0000 && requestId < 0x1_0000_0000
    ensures var high, low := requestId / 0x1_0000, requestId % 0x1_0000;
            Header(operation, requestId)
            == [2, 0, operation / 256, operation % 256, high / 256, high % 256, low / 256, low % 256]
  {
  }

  lemma JobTail(outputBin: bytes, inputTray: bytes)
    requires Short(outputBin) && Short(inputTray)
    ensures FitsAttributes(JobTemplate(outputBin, inputTray))
    ensures Flat(JobPart(outputBin, inputTray))
         == if JobTemplate(outputBin, inputTray) == [] then []
            else [JOB_ATTRS] + AttributesWire(JobTemplate(outputBin, inputTray))
  {
    JobOctets(outputBin, inputTray);
    if outputBin != [] || inputTray != [] {
      var job := BinPart(outputBin) + TrayPart(inputTray);
      assert [[2]] + BinPart(outputBin) + TrayPart(inputTray) == [[2]] + job;
      FlatAppend([[2]], job);
      FlatOne([2]);
    }
  }

  lemma Assembled(h: bytes, ops: seq<bytes>, document: seq<bytes>, job: seq<bytes>, pdf: bytes, groups: bytes)
    requires groups == [1] + (Flat(ops) + Flat(document)) + Flat(job)
    ensures h + groups + [3] + pdf == Flat([h, [1]] + ops + document + job + [[3], pdf])
  {
    FlatFive([h, [1]], ops, document, job, [[3], pdf]);
    FlatTwo(h, [1]);
    FlatTwo([3], pdf);
    Reassociate(h, [1], Flat(ops), Flat(document), Flat(job), [3], pdf);
  }

  lemma GroupsOctets(uri: bytes, jobName: bytes, outputBin: bytes, inputTray: bytes)
    requires Short(uri) && Short(jobName) && Short(outputBin) && Short(inputTray)
    ensures FitsGroups(PrintJobGroups(uri, jobName, outputBin, inputTray))
    ensures GroupsWire(PrintJobGroups(uri, jobName, outputBin, inputTray))
         == [1] + (Flat(OperationPart(uri)) + Flat(DocumentPart(jobName)))
            + Flat(JobPart(outputBin, inputTray))
  {
    OperationOctets(uri);
    DocumentOctets(jobName);
    JobTail(outputBin, inputTray);
    RequestWire(uri, DocumentAttributes(jobName), JobTemplate(outputBin, inputTray));
  }

  lemma MessageOctets(header: bytes, uri: bytes, pdf: bytes, jobName: bytes, outputBin: bytes, inputTray: bytes)
    requires Short(uri) && Short(jobName) && Short(outputBin) && Short(inputTray)
    ensures FitsGroups(PrintJobGroups(uri, jobName, outputBin, inputTray))
    ensures header + GroupsWire(PrintJobGroups(uri, jobName, outputBin, inputTray)) + [3] + pdf
         == Flat(RequestParts(header, uri, pdf, jobName, outputBin, inputTray))
  {
    GroupsOctets(uri, jobName, outputBin, inputTray);
    Assembled(header, OperationPart(uri), DocumentPart(jobName), JobPart(outputBin, inputTray), pdf,
              GroupsWire(PrintJobGroups(uri, jobName, outputBin, inputTray)));
  }

  /** What `build_print_job` sends is exactly these octets: version 2.0, operation 2, request 1, and the parts. */
  lemma PrintJobOctets(uri: bytes, pdf: bytes, jobName: bytes, outputBin: bytes, inputTray: bytes)
    requires Short(uri) && Short(jobName) && Short(outputBin) && Short(inputTray)
    ensures FitsGroups(PrintJobGroups(uri, jobName, outputBin, inputTray))
    ensures Header(PRINT_JOB, 1) == [2, 0, 0, 2, 0, 0, 0, 1]
    ensures Header(PRINT_JOB, 1) + GroupsWire(PrintJobGroups(uri, jobName, outputBin, inputTray)) + [END_ATTRS] + pdf
         == Flat(RequestParts(Header(PRINT_JOB, 1), uri, pdf, jobName, outputBin, inputTray))
  {
    HeaderOctets(PRINT_JOB, 1);
    MessageOctets(Header(PRINT_JOB, 1), uri, pdf, jobName, outputBin, inputTray);
  }

  // ---------------------------------------------------------------- what the parser makes of them

  /** A named value is stored under its name, unless it is an integer, a boolean or an enum. */
  lemma NamedIsStored<T>(tag: byte, name: bytes, content: bytes, rest: bytes, last: Option<T>, decode: bytes -> T)
    requires tag >= 0x10 && Short(name) && Short(content) && name != []
    ensures Entries(Octets(tag, name, content) + rest, last, decode)
         == (if tag in {0x21, 0x22, 0x23} then [] else [Entry(decode(name), content)])
            + Entries(rest, Some(decode(name)), decode)
  {
    AttrOctets(tag, name, content);
    NextEntry(tag, name, content, rest, last, decode(name), decode);
  }

  /** A value without a name belongs to the attribute before it. */
  lemma NamelessIsAdded<T>(tag: byte, content: bytes, rest: bytes, key: T, decode: bytes -> T)
    requires tag >= 0x10 && Short(content)
    ensures Entries(Octets(tag, [], content) + rest, Some(key), decode)
         == (if tag in {0x21, 0x22, 0x23} then [] else [Entry(key, content)]) + Entries(rest, Some(key), decode)
  {
    AttrOctets(tag, [], content);
    NextEntry(tag, [], content, rest, Some(key), key, decode);
  }

  /** Except at the head of a group, where there is none: it is dropped. */
  lemma NamelessIsDropped<T>(group: byte, tag: byte, content: bytes, rest: bytes, last: Option<T>, decode: bytes -> T)
    requires group < 0x10 && group != 3 && tag >= 0x10 && Short(content)
    ensures Entries([group] + (Octets(tag, [], content) + rest), last, decode) == Entries(rest, None, decode)
  {
    AttrOctets(tag, [], content);
    OpensGroup(group, Octets(tag, [], content) + rest, last, decode);
    FieldReadsBack(tag, [], content, rest);
  }
}
