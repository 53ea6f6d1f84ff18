/** The table the IPP parser of app/ipp_client.py returns for an encoded message, name by name. */
module IppTables {
  import opened Basics
  import opened IppWire
  import opened IppClient

  /** The contents the parser keeps of one attribute: integers, booleans and enums are skipped. */
  function Contents(values: seq<Value>): seq<bytes> {
    if values == [] then []
    else (if Skipped(values[0].tag) then [] else [values[0].content]) + Contents(values[1..])
  }

  predicate DistinctNames<T(==)>(attributes: seq<Attribute>, decode: bytes -> T) {
    forall i, k :: 0 <= i < k < |attributes| ==> decode(attributes[i].name) != decode(attributes[k].name)
  }

  /** A table with each attribute's own values under its own name; one with nothing to keep has no entry. */
  function TableOf<T>(attributes: seq<Attribute>, decode: bytes -> T): map<T, seq<T>> {
    if attributes == [] then map[]
    else
      var rest, kept := TableOf(attributes[1..], decode), Contents(attributes[0].values);
      if kept == [] then rest else rest[decode(attributes[0].name) := Decoded(kept, decode)]
  }

  lemma {:induction false} AttributeUnder<T>(name: T, values: seq<Value>, key: T)
    ensures Under(AttributeEntries(name, values), key) == if key == name then Contents(values) else []
  {
    if values != [] {
      var first := if Skipped(values[0].tag) then [] else [Entry(name, values[0].content)];
      AttributeUnder(name, values[1..], key);
      UnderAppend(first, AttributeEntries(name, values[1..]), key);
      UnderOne(Entry(name, values[0].content), key);
    }
  }

  lemma {:induction false} TableKeys<T>(attributes: seq<Attribute>, decode: bytes -> T, key: T)
    requires forall i :: 0 <= i < |attributes| ==> decode(attributes[i].name) != key
    ensures key !in TableOf(attributes, decode)
  {
    if attributes != [] {
      TableKeys(attributes[1..], decode, key);
    }
  }

  lemma UnderOneMore<T>(name: T, values: seq<Value>, entries: seq<Entry<T>>, key: T)
    requires Under(entries, name) == []
    ensures Under(AttributeEntries(name, values) + entries, key)
         == if key == name then Contents(values) else Under(entries, key)
  {
    UnderAppend(AttributeEntries(name, values), entries, key);
    AttributeUnder(name, values, key);
  }

  /** One attribute in front of others of other names. */
  lemma HoldsOneMore<T(!new)>(name: T, values: seq<Value>, rest: map<T, seq<T>>, entries: seq<Entry<T>>,
                              decode: bytes -> T)
    requires Holds(rest, entries, decode) && name !in rest
    ensures Holds(if Contents(values) == [] then rest else rest[name := Decoded(Contents(values), decode)],
                  AttributeEntries(name, values) + entries, decode)
  {
    var table := if Contents(values) == [] then rest else rest[name := Decoded(Contents(values), decode)];
    assert Under(entries, name) == [];
    forall k
      ensures k in table <==> Under(AttributeEntries(name, values) + entries, k) != []
      ensures k in table ==> table[k] == Decoded(Under(AttributeEntries(name, values) + entries, k), decode)
    {
      UnderOneMore(name, values, entries, k);
    }
  }

  lemma {:induction false} TableHolds<T(!new)>(attributes: seq<Attribute>, decode: bytes -> T)
    requires DistinctNames(attributes, decode)
    ensures Holds(TableOf(attributes, decode), AttributesEntries(attributes, decode), decode)
  {
    if attributes != [] {
      var rest, name := attributes[1..], decode(attributes[0].name);
      TableHolds(rest, decode);
      TableKeys(rest, decode, name);
      HoldsOneMore(name, attributes[0].values, TableOf(rest, decode), AttributesEntries(rest, decode), decode);
    }
  }

  lemma OneTable<T(!new)>(a: map<T, seq<T>>, b: map<T, seq<T>>, entries: seq<Entry<T>>, decode: bytes -> T)
    requires Holds(a, entries, decode) && Holds(b, entries, decode)
    ensures a == b
  {
    forall k
      ensures k in a <==> k in b
      ensures k in a && k in b ==> a[k] == b[k]
    {
    }
  }

  function AllAttributes(groups: seq<Group>): seq<Attribute> {
    if groups == [] then [] else groups[0].attributes + AllAttributes(groups[1..])
  }

  lemma {:induction false} GroupsDoNotMatter<T>(groups: seq<Group>, decode: bytes -> T)
    ensures GroupsEntries(groups, decode) == AttributesEntries(AllAttributes(groups), decode)
  {
    if groups != [] {
      GroupsDoNotMatter(groups[1..], decode);
      AttributesEntriesAppend(groups[0].attributes, AllAttributes(groups[1..]), decode);
    }
  }

  /** The round trip as its caller sees it: whatever table the parser fills from a message that encodes
      groups of attributes with names of their own, it is the table of those attributes. */
  lemma MessageReadsBack<T(!new)>(operation: nat, requestId: nat, groups: seq<Group>, document: bytes,
                                  decode: bytes -> T, attrs: map<T, seq<T>>)
    requires operation < 0x1_0000 && requestId < 0x1_0000_0000 && FitsGroups(groups)
    requires DistinctNames(AllAttributes(groups), decode)
    requires var message := Header(operation, requestId) + GroupsWire(groups) + [END_ATTRS] + document;
             Holds(attrs, Entries(Drop(message, 8), None, decode), decode)
    ensures attrs == TableOf(AllAttributes(groups), decode)
  {
    RequestReadsBack(operation, requestId, groups, document, decode);
    GroupsDoNotMatter(groups, decode);
    TableHolds(AllAttributes(groups), decode);
    OneTable(attrs, TableOf(AllAttributes(groups), decode), GroupsEntries(groups, decode), decode);
  }

  // ---------------------------------------------------------------- the print request

  const NAMES: seq<bytes> :=
    [Ascii("attributes-charset"), Ascii("attributes-natural-language"), Ascii("printer-uri"),
     Ascii("requesting-user-name"), Ascii("job-name"), Ascii("document-format"), Ascii("output-bin"),
     Ascii("media-col")]

  /** Decoding keeps the names of a print request apart, as UTF-8 does. */
  predicate TellsApart<T(==)>(decode: bytes -> T) {
    forall i, k :: 0 <= i < k < |NAMES| ==> decode(NAMES[i]) != decode(NAMES[k])
  }

  lemma PrintJobAttributes(uri: bytes, jobName: bytes, outputBin: bytes, inputTray: bytes)
    ensures AllAttributes(PrintJobGroups(uri, jobName, outputBin, inputTray))
         == OperationAttributes(uri) + DocumentAttributes(jobName) + JobTemplate(outputBin, inputTray)
  {
    var groups := PrintJobGroups(uri, jobName, outputBin, inputTray);
    var rest := groups[1..];
    if JobTemplate(outputBin, inputTray) == [] {
      assert rest == [];
    } else {
      assert rest[1..] == [];
      assert AllAttributes(rest) == rest[0].attributes + AllAttributes(rest[1..]);
    }
  }

  lemma NamesApart<T>(a: seq<Attribute>, b: seq<Attribute>, decode: bytes -> T)
    requires a != [] && DistinctNames(a + b, decode)
    ensures DistinctNames(a[1..] + b, decode)
    ensures forall i :: 0 <= i < |b| ==> decode(b[i].name) != decode(a[0].name)
  {
    assert (a + b)[0] == a[0] && (a + b)[1..] == a[1..] + b;
    forall i | 0 <= i < |b|
      ensures decode(b[i].name) != decode(a[0].name)
    {
      assert (a + b)[|a| + i] == b[i];
    }
  }

  lemma {:induction false} TableAppend<T>(a: seq<Attribute>, b: seq<Attribute>, decode: bytes -> T)
    requires DistinctNames(a + b, decode)
    ensures TableOf(a + b, decode) == TableOf(a, decode) + TableOf(b, decode)
  {
    if a == [] {
      assert a + b == b;
    } else {
      NamesApart(a, b, decode);
      assert (a + b)[0] == a[0] && (a + b)[1..] == a[1..] + b;
      TableAppend(a[1..], b, decode);
      TableKeys(b, decode, decode(a[0].name));
    }
  }

  lemma OneRow<T>(name: bytes, tag: byte, content: bytes, decode: bytes -> T)
    requires !Skipped(tag)
    ensures TableOf([One(name, tag, content)], decode) == map[decode(name) := [decode(content)]]
  {
    FirstRow([One(name, tag, content)], decode);
  }

  lemma MediaColRow<T>(tray: bytes, decode: bytes -> T)
    ensures TableOf([MediaCol(tray)], decode)
         == map[decode(NAMES[7]) := [decode([]), decode(Ascii("media-source")), decode(tray), decode([])]]
  {
    var a := MediaCol(tray);
    var v := a.values;
    assert v[1..][1..] == v[2..] && v[2..][1..] == v[3..] && v[3..][1..] == [];
    assert Contents(v[3..]) == [[]];
    assert Contents(v[2..]) == [tray] + Contents(v[3..]);
    assert Contents(v[1..]) == [Ascii("media-source")] + Contents(v[2..]);
    assert Contents(v) == [[], Ascii("media-source"), tray, []];
    assert Decoded(Contents(v), decode) == [decode([]), decode(Ascii("media-source")), decode(tray), decode([])];
    assert TableOf([a][1..], decode) == map[];
  }

  function SixRows<T>(uri: bytes, jobName: bytes, decode: bytes -> T): map<T, seq<T>> {
    map[decode(NAMES[0]) := [decode(Ascii("utf-8"))],
        decode(NAMES[1]) := [decode(Ascii("en"))],
        decode(NAMES[2]) := [decode(uri)],
        decode(NAMES[3]) := [decode(Ascii("vibe-print"))],
        decode(NAMES[4]) := [decode(jobName)],
        decode(NAMES[5]) := [decode(Ascii("application/pdf"))]]
  }

  function JobRows<T>(outputBin: bytes, inputTray: bytes, decode: bytes -> T): map<T, seq<T>> {
    (if outputBin == [] then map[] else map[decode(NAMES[6]) := [decode(outputBin)]])
    + (if inputTray == [] then map[]
       else map[decode(NAMES[7]) := [decode([]), decode(Ascii("media-source")), decode(inputTray), decode([])]])
  }

  /** Attributes named in the order of NAMES, some left out, have names of their own. */
  lemma NamedApart<T>(attributes: seq<Attribute>, at: seq<nat>, decode: bytes -> T)
    requires TellsApart(decode) && |at| == |attributes|
    requires forall i :: 0 <= i < |at| ==> at[i] < |NAMES| && attributes[i].name == NAMES[at[i]]
    requires forall i, k :: 0 <= i < k < |at| ==> at[i] < at[k]
    ensures DistinctNames(attributes, decode)
  {
  }

  lemma {:induction false} FirstRow<T>(a: seq<Attribute>, decode: bytes -> T)
    requires a != [] && |a[0].values| == 1 && !Skipped(a[0].values[0].tag)
    ensures TableOf(a, decode) == TableOf(a[1..], decode)[decode(a[0].name) := [decode(a[0].values[0].content)]]
  {
    var v := a[0].values;
    assert Contents(v[1..]) == [] && Contents(v) == [v[0].content];
    assert Decoded([v[0].content], decode) == [decode(v[0].content)];
  }

  lemma SixKeys<K, V>(k: seq<K>, v: seq<V>)
    requires |k| == 6 == |v| && forall i, j :: 0 <= i < j < 6 ==> k[i] != k[j]
    ensures map[][k[5] := v[5]][k[4] := v[4]][k[3] := v[3]][k[2] := v[2]][k[1] := v[1]][k[0] := v[0]]
         == map[k[0] := v[0], k[1] := v[1], k[2] := v[2], k[3] := v[3], k[4] := v[4], k[5] := v[5]]
  {
  }

  lemma ThreeRows<T>(a: seq<Attribute>, decode: bytes -> T)
    requires |a| >= 3 && forall i :: 0 <= i < 3 ==> |a[i].values| == 1 && !Skipped(a[i].values[0].tag)
    ensures TableOf(a, decode)
         == TableOf(a[3..], decode)[decode(a[2].name) := [decode(a[2].values[0].content)]]
                                   [decode(a[1].name) := [decode(a[1].values[0].content)]]
                                   [decode(a[0].name) := [decode(a[0].values[0].content)]]
  {
    FirstRow(a, decode);
    FirstRow(a[1..], decode);
    FirstRow(a[2..], decode);
    assert a[1..][1..] == a[2..] && a[2..][1..] == a[3..];
  }

  lemma SixAttributes<T>(uri: bytes, jobName: bytes, decode: bytes -> T)
    requires TellsApart(decode)
    ensures TableOf(OperationAttributes(uri) + DocumentAttributes(jobName), decode) == SixRows(uri, jobName, decode)
  {
    var a := OperationAttributes(uri) + DocumentAttributes(jobName);
    ThreeRows(a, decode);
    ThreeRows(a[3..], decode);
    assert a[3..][3..] == [];
    SixKeys([decode(NAMES[0]), decode(NAMES[1]), decode(NAMES[2]), decode(NAMES[3]), decode(NAMES[4]),
             decode(NAMES[5])],
            [[decode(Ascii("utf-8"))], [decode(Ascii("en"))], [decode(uri)], [decode(Ascii("vibe-print"))],
             [decode(jobName)], [decode(Ascii("application/pdf"))]]);
  }

  lemma JobAttributesTable<T>(outputBin: bytes, inputTray: bytes, decode: bytes -> T)
    requires TellsApart(decode)
    ensures TableOf(JobTemplate(outputBin, inputTray), decode) == JobRows(outputBin, inputTray, decode)
  {
    var bin := if outputBin == [] then [] else [One(Ascii("output-bin"), KEYWORD, outputBin)];
    var tray := if inputTray == [] then [] else [MediaCol(inputTray)];
    OneRow(NAMES[6], KEYWORD, outputBin, decode);
    MediaColRow(inputTray, decode);
    NamedApart(bin + tray, if outputBin == [] then [7][..|tray|] else [6, 7][..1 + |tray|], decode);
    TableAppend(bin, tray, decode);
  }

  lemma PrintJobNames<T>(uri: bytes, jobName: bytes, outputBin: bytes, inputTray: bytes, decode: bytes -> T)
    requires TellsApart(decode)
    ensures DistinctNames(OperationAttributes(uri) + DocumentAttributes(jobName) + JobTemplate(outputBin, inputTray),
                          decode)
  {
    var a := OperationAttributes(uri) + DocumentAttributes(jobName) + JobTemplate(outputBin, inputTray);
    var six: seq<nat> := [0, 1, 2, 3, 4, 5];
    NamedApart(a, six + (if outputBin == [] then [] else [6]) + (if inputTray == [] then [] else [7]), decode);
  }

  /** A print request parsed back: every name with what was sent under it, the output bin exactly if one
      was asked for, and the tray inside the flattened media-col exactly if one was. */
  lemma PrintJobReadsBack<T(!new)>(uri: bytes, pdf: bytes, jobName: bytes, outputBin: bytes, inputTray: bytes,
                                   decode: bytes -> T, attrs: map<T, seq<T>>)
    requires Short(uri) && Short(jobName) && Short(outputBin) && Short(inputTray) && TellsApart(decode)
    requires FitsGroups(PrintJobGroups(uri, jobName, outputBin, inputTray))
    requires var message := Header(PRINT_JOB, 1) + GroupsWire(PrintJobGroups(uri, jobName, outputBin, inputTray))
                            + [END_ATTRS] + pdf;
             Holds(attrs, Entries(Drop(message, 8), None, decode), decode)
    ensures attrs == SixRows(uri, jobName, decode) + JobRows(outputBin, inputTray, decode)
  {
    var ops, job := OperationAttributes(uri) + DocumentAttributes(jobName), JobTemplate(outputBin, inputTray);
    PrintJobAttributes(uri, jobName, outputBin, inputTray);
    PrintJobNames(uri, jobName, outputBin, inputTray, decode);
    MessageReadsBack(PRINT_JOB, 1, PrintJobGroups(uri, jobName, outputBin, inputTray), pdf, decode, attrs);
    TableAppend(ops, job, decode);
    SixAttributes(uri, jobName, decode);
    JobAttributesTable(outputBin, inputTray, decode);
  }
}
