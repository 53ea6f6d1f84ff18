/** The IPP encoding (sections 3.1.1 to 3.1.7 and 3.5 of RFC 8010) as app/ipp_client.py writes and
    reads it.  A message is described by its attribute groups; strings are their UTF-8 bytes. */
module IppWire {
  import opened Basics

  // ---------------------------------------------------------------- encoding

  function Be16(n: nat): bytes
    requires n < 0x1_0000
  {
    [n / 256, n % 256]
  }

  function Be32(n: nat): bytes
    requires n < 0x1_0000_0000
  {
    Be16(n / 0x1_0000) + Be16(n % 0x1_0000)
  }

  /** One attribute-with-one-value or additional value; a length over 65535 is an overflow error. */
  function Attr(tag: byte, name: bytes, value: bytes): Option<bytes> {
    if |name| < 0x1_0000 && |value| < 0x1_0000 then
      Some([tag] + Be16(|name|) + name + Be16(|value|) + value)
    else None
  }

  /** A member of a collection: no name of its own. */
  function Member(tag: byte, value: bytes): Option<bytes> {
    Attr(tag, [], value)
  }

  datatype Value = Value(tag: byte, content: bytes)

  datatype Attribute = Attribute(name: bytes, values: seq<Value>)

  datatype Group = Group(tag: byte, attributes: seq<Attribute>)

  predicate FitsValue(v: Value) {
    v.tag >= 0x10 && |v.content| < 0x1_0000
  }

  predicate FitsValues(values: seq<Value>) {
    forall i :: 0 <= i < |values| ==> FitsValue(values[i])
  }

  /** A named attribute with at least one value, every length within 16 bits. */
  predicate FitsAttribute(a: Attribute) {
    0 < |a.name| < 0x1_0000 && a.values != [] && FitsValues(a.values)
  }

  predicate FitsAttributes(attributes: seq<Attribute>) {
    forall i :: 0 <= i < |attributes| ==> FitsAttribute(attributes[i])
  }

  /** Groups open with a delimiter tag other than end-of-attributes. */
  predicate FitsGroups(groups: seq<Group>) {
    forall i :: 0 <= i < |groups| ==> groups[i].tag < 0x10 && groups[i].tag != 3 && FitsAttributes(groups[i].attributes)
  }

  /** The first value carries the name; a 1setOf continues with nameless values. */
  function ValuesWire(name: bytes, values: seq<Value>): bytes
    requires |name| < 0x1_0000 && FitsValues(values)
    decreases |values|
  {
    if values == [] then []
    else assert FitsValue(values[0]); Attr(values[0].tag, name, values[0].content).value + ValuesWire([], values[1..])
  }

  function AttributesWire(attributes: seq<Attribute>): bytes
    requires FitsAttributes(attributes)
  {
    if attributes == [] then []
    else ValuesWire(attributes[0].name, attributes[0].values) + AttributesWire(attributes[1..])
  }

  function GroupsWire(groups: seq<Group>): bytes
    requires FitsGroups(groups)
  {
    if groups == [] then []
    else [groups[0].tag] + AttributesWire(groups[0].attributes) + GroupsWire(groups[1..])
  }

  // ---------------------------------------------------------------- parsing

  function Take(b: bytes, n: nat): bytes {
    if n < |b| then b[..n] else b
  }

  function Drop(b: bytes, n: nat): bytes {
    if n < |b| then b[n..] else []
  }

  /** A slice of n bytes from position i, cut short at the end as Python cuts any slice. */
  function Slice(b: bytes, i: nat, n: nat): (r: bytes)
    ensures |r| <= n
  {
    Take(Drop(b, i), n)
  }

  /** Big-endian value of at most two bytes: a truncated length field counts as what is left of it. */
  function Length(b: bytes): nat
    requires |b| <= 2
  {
    if |b| == 0 then 0 else if |b| == 1 then b[0] as nat else (b[0] as nat) * 256 + b[1] as nat
  }

  /** Integers, booleans and enums are skipped. */
  predicate Skipped(tag: byte) {
    tag == 0x21 || tag == 0x22 || tag == 0x23
  }

  /** One stored value: the attribute it belongs to, and its raw bytes. */
  datatype Entry<T> = Entry(key: T, raw: bytes)

  datatype Field = Field(nameLength: nat, name: bytes, value: bytes, rest: bytes)

  function ReadField(b: bytes): (f: Field)
    requires |b| >= 3
    ensures |f.rest| < |b| && 3 + |f.value| + |f.rest| <= |b|
  {
    var nameLength := Length(Slice(b, 1, 2));
    var valueLength := Length(Slice(b, 3 + nameLength, 2));
    Field(nameLength, Slice(b, 3, nameLength), Slice(b, 5 + nameLength, valueLength),
          Drop(b, 5 + nameLength + valueLength))
  }

  /** What parsing stores, in order, from the bytes after the header; `last` is the attribute that
      nameless values belong to. */
  function Entries<T>(b: bytes, last: Option<T>, decode: bytes -> T): seq<Entry<T>>
    decreases |b|
  {
    if b == [] then []
    else if b[0] < 0x10 then
      if b[0] == 3 then [] else Entries(b[1..], None, decode)
    else if |b| < 3 then []
    else
      var f := ReadField(b);
      var key := if f.nameLength > 0 then Some(decode(f.name)) else last;
      (if key.None? || Skipped(b[0]) then [] else [Entry(key.value, f.value)]) + Entries(f.rest, key, decode)
  }

  /** The raw contents stored under one key, in order. */
  function Under<T(==)>(entries: seq<Entry<T>>, key: T): seq<bytes> {
    if entries == [] then []
    else (if entries[0].key == key then [entries[0].raw] else []) + Under(entries[1..], key)
  }

  function Decoded<T>(raws: seq<bytes>, decode: bytes -> T): seq<T> {
    seq(|raws|, i requires 0 <= i < |raws| => decode(raws[i]))
  }

  /** The table holds exactly the entries: each key that occurs, with its values decoded in order. */
  ghost predicate Holds<T(!new)>(attrs: map<T, seq<T>>, entries: seq<Entry<T>>, decode: bytes -> T) {
    && (forall k :: k in attrs <==> Under(entries, k) != [])
    && (forall k :: k in attrs ==> attrs[k] == Decoded(Under(entries, k), decode))
  }

  lemma {:induction false} UnderAppend<T>(a: seq<Entry<T>>, b: seq<Entry<T>>, key: T)
    ensures Under(a + b, key) == Under(a, key) + Under(b, key)
  {
    if a == [] {
      assert a + b == b;
    } else {
      assert (a + b)[0] == a[0] && (a + b)[1..] == a[1..] + b;
      UnderAppend(a[1..], b, key);
    }
  }

  lemma UnderOne<T>(e: Entry<T>, key: T)
    ensures Under([e], key) == if key == e.key then [e.raw] else []
  {
    assert [e][1..] == [];
  }

  lemma UnderSnoc<T>(entries: seq<Entry<T>>, e: Entry<T>, k: T)
    ensures Under(entries + [e], k) == if k == e.key then Under(entries, k) + [e.raw] else Under(entries, k)
  {
    UnderAppend(entries, [e], k);
    UnderOne(e, k);
  }

  lemma HoldsAppend<T(!new)>(attrs: map<T, seq<T>>, entries: seq<Entry<T>>, e: Entry<T>, decode: bytes -> T)
    requires Holds(attrs, entries, decode)
    ensures var old' := if e.key in attrs then attrs[e.key] else [];
            Holds(attrs[e.key := old' + [decode(e.raw)]], entries + [e], decode)
  {
    var more := entries + [e];
    forall k
      ensures Under(more, k) == if k == e.key then Under(entries, k) + [e.raw] else Under(entries, k)
    {
      UnderSnoc(entries, e, k);
    }
  }

  /** Where the parser stands at position i: it has stored `seen`, and the rest of the body gives the
      rest of the entries. */
  ghost predicate Parsed<T>(body: bytes, i: nat, last: Option<T>, seen: seq<Entry<T>>, decode: bytes -> T) {
    Entries(Drop(body, 8), None, decode) == seen + Entries(Drop(body, i), last, decode)
  }

  lemma ParsedAll<T>(body: bytes, i: nat, last: Option<T>, seen: seq<Entry<T>>, decode: bytes -> T)
    requires Parsed(body, i, last, seen, decode) && |Drop(body, i)| < 3 && (i < |body| ==> body[i] >= 0x10)
    ensures Entries(Drop(body, 8), None, decode) == seen
  {
    assert seen + [] == seen;
  }

  lemma ParsedOn<T>(body: bytes, i: nat, last: Option<T>, seen: seq<Entry<T>>, decode: bytes -> T,
                    next: nat, last': Option<T>, stored: seq<Entry<T>>)
    requires Parsed(body, i, last, seen, decode)
    requires Entries(Drop(body, i), last, decode) == stored + Entries(Drop(body, next), last', decode)
    ensures Parsed(body, next, last', seen + stored, decode)
  {
    Associative(seen, stored, Entries(Drop(body, next), last', decode));
  }

  /** A delimiter ends the parse or forgets the last name. */
  lemma ParsedDelimiter<T>(body: bytes, at: nat, last: Option<T>, seen: seq<Entry<T>>, decode: bytes -> T)
    requires at < |body| && body[at] < 0x10 && Parsed(body, at, last, seen, decode)
    ensures |Drop(body, at + 1)| < |Drop(body, at)|
    ensures body[at] == 3 ==> Entries(Drop(body, 8), None, decode) == seen
    ensures body[at] != 3 ==> Parsed(body, at + 1, None, seen, decode)
  {
    DelimiterAtCursor(body, at, last, decode);
    assert seen + [] == seen;
  }

  /** A value is stored under its own name or the last one's, unless it is skipped or there is none. */
  lemma ParsedValue<T>(body: bytes, at: nat, nameLength: nat, name: bytes, val: bytes, next: nat,
                       last: Option<T>, seen: seq<Entry<T>>, decode: bytes -> T)
    requires at + 3 <= |body| && body[at] >= 0x10 && Parsed(body, at, last, seen, decode)
    requires ReadField(Drop(body, at)) == Field(nameLength, name, val, Drop(body, next))
    ensures |Drop(body, next)| < |Drop(body, at)|
    ensures var key := if nameLength > 0 then Some(decode(name)) else last;
            Parsed(body, next, key,
                   if key.None? || Skipped(body[at]) then seen else seen + [Entry(key.value, val)], decode)
  {
    var key := if nameLength > 0 then Some(decode(name)) else last;
    var stored := if key.None? || Skipped(body[at]) then [] else [Entry(key.value, val)];
    ValueAtCursor(body, at, nameLength, name, val, next, last, decode);
    ParsedOn(body, at, last, seen, decode, next, key, stored);
    assert seen + [] == seen;
  }

  /** Reads the value at the cursor, telling what the parser has stored once it is dealt with. */
  method NextValue<T>(body: bytes, at: nat, ghost last: Option<T>, ghost seen: seq<Entry<T>>, decode: bytes -> T)
    returns (nameLength: nat, name: bytes, val: bytes, next: nat)
    requires at + 3 <= |body| && body[at] >= 0x10 && Parsed(body, at, last, seen, decode)
    ensures next > at && |Drop(body, next)| < |Drop(body, at)|
    ensures var key := if nameLength > 0 then Some(decode(name)) else last;
            Parsed(body, next, key,
                   if key.None? || Skipped(body[at]) then seen else seen + [Entry(key.value, val)], decode)
  {
    nameLength, name, val, next := ReadAt(body, at);
    ParsedValue(body, at, nameLength, name, val, next, last, seen, decode);
  }

  /** The value goes to the end of its key's list, which starts empty. */
  method AppendValue<T(==, !new)>(attrs: map<T, seq<T>>, key: T, val: bytes, decode: bytes -> T,
                                  ghost seen: seq<Entry<T>>)
    returns (attrs': map<T, seq<T>>)
    requires Holds(attrs, seen, decode)
    ensures Holds(attrs', seen + [Entry(key, val)], decode)
  {
    HoldsAppend(attrs, seen, Entry(key, val), decode);
    attrs' := attrs[key := (if key in attrs then attrs[key] else []) + [decode(val)]];
  }

  /** The parser (`_parse_attributes`): a cursor over the body, filling a table.  Never out of
      bounds, whatever the bytes, and at most one round per byte. */
  method ParseAttributes<T(==, !new)>(body: bytes, decode: bytes -> T)
    returns (attrs: map<T, seq<T>>, ghost rounds: nat)
    ensures Holds(attrs, Entries(Drop(body, 8), None, decode), decode)
    ensures rounds <= |Drop(body, 8)|
  {
    attrs := map[];
    ghost var seen: seq<Entry<T>> := [];
    var i, n := 8, |body|;
    var last: Option<T> := None;
    rounds := 0;
    while i < n
      invariant 8 <= i
      invariant Holds(attrs, seen, decode)
      invariant Parsed(body, i, last, seen, decode)
      invariant rounds + |Drop(body, i)| <= |Drop(body, 8)|
    {
      ghost var was := last;
      var tag := body[i];
      rounds := rounds + 1;
      i := i + 1;
      if tag < 0x10 {
        ParsedDelimiter(body, i - 1, was, seen, decode);
        if tag == 0x03 {
          return;
        }
        last := None;
        continue;
      }
      if i + 2 > n {
        ParsedAll(body, i - 1, was, seen, decode);
        return;
      }
      var nameLength, name, val, next := NextValue(body, i - 1, was, seen, decode);
      i := next;
      var key := if nameLength > 0 then Some(decode(name)) else last;
      if nameLength > 0 {
        last := Some(decode(name));
      }
      if key == None || Skipped(tag) {
        continue;
      }
      attrs := AppendValue(attrs, key.value, val, decode, seen);
      seen := seen + [Entry(key.value, val)];
    }
    ParsedAll(body, i, last, seen, decode);
  }

  lemma DelimiterAtCursor<T>(body: bytes, at: nat, last: Option<T>, decode: bytes -> T)
    requires at < |body| && body[at] < 0x10
    ensures |Drop(body, at + 1)| + 1 == |Drop(body, at)|
    ensures Entries(Drop(body, at), last, decode)
         == if body[at] == 3 then [] else Entries(Drop(body, at + 1), None, decode)
  {
    assert Drop(body, at)[1..] == Drop(body, at + 1);
  }

  lemma ValueAtCursor<T>(body: bytes, at: nat, nameLength: nat, name: bytes, val: bytes, next: nat,
                         last: Option<T>, decode: bytes -> T)
    requires at + 3 <= |body| && body[at] >= 0x10
    requires ReadField(Drop(body, at)) == Field(nameLength, name, val, Drop(body, next))
    ensures var key := if nameLength > 0 then Some(decode(name)) else last;
            && |Drop(body, next)| < |Drop(body, at)|
            && Entries(Drop(body, at), last, decode)
               == (if key.None? || Skipped(body[at]) then [] else [Entry(key.value, val)])
                  + Entries(Drop(body, next), key, decode)
  {
  }

  /** The reads of one attribute value, whose tag is at position `at`. */
  method ReadAt(body: bytes, at: nat) returns (nameLength: nat, name: bytes, val: bytes, next: nat)
    requires at + 3 <= |body|
    ensures next > at
    ensures ReadField(Drop(body, at)) == Field(nameLength, name, val, Drop(body, next))
  {
    nameLength := Length(Slice(body, at + 1, 2));
    name := Slice(body, at + 3, nameLength);
    var valueLength := Length(Slice(body, at + 3 + nameLength, 2));
    val := Slice(body, at + 5 + nameLength, valueLength);
    next := at + 5 + nameLength + valueLength;
    FieldAtCursor(body, at, nameLength, valueLength);
  }

  lemma DropDrop(b: bytes, i: nat, k: nat)
    ensures Drop(Drop(b, i), k) == Drop(b, i + k)
  {
  }

  /** The cursor's arithmetic reads the same field as the suffix at the cursor. */
  lemma FieldAtCursor(body: bytes, at: nat, nameLength: nat, valueLength: nat)
    requires at + 3 <= |body| && nameLength == Length(Slice(body, at + 1, 2))
    requires valueLength == Length(Slice(body, at + 3 + nameLength, 2))
    ensures ReadField(Drop(body, at))
         == Field(nameLength, Slice(body, at + 3, nameLength), Slice(body, at + 5 + nameLength, valueLength),
                  Drop(body, at + 5 + nameLength + valueLength))
  {
    SliceOfDrop(body, at, 1, at + 1, 2);
    SliceOfDrop(body, at, 3 + nameLength, at + 3 + nameLength, 2);
    FieldIs(Drop(body, at), nameLength, valueLength);
    SliceOfDrop(body, at, 3, at + 3, nameLength);
    SliceOfDrop(body, at, 5 + nameLength, at + 5 + nameLength, valueLength);
    DropOfDrop(body, at, 5 + nameLength + valueLength, at + 5 + nameLength + valueLength);
  }

  lemma FieldIs(b: bytes, nameLength: nat, valueLength: nat)
    requires |b| >= 3
    requires nameLength == Length(Slice(b, 1, 2)) && valueLength == Length(Slice(b, 3 + nameLength, 2))
    ensures ReadField(b) == Field(nameLength, Slice(b, 3, nameLength), Slice(b, 5 + nameLength, valueLength),
                                  Drop(b, 5 + nameLength + valueLength))
  {
  }

  lemma SliceOfDrop(body: bytes, at: nat, i: nat, pos: nat, n: nat)
    requires pos == at + i
    ensures Slice(Drop(body, at), i, n) == Slice(body, pos, n)
  {
    DropDrop(body, at, i);
  }

  lemma DropOfDrop(body: bytes, at: nat, i: nat, pos: nat)
    requires pos == at + i
    ensures Drop(Drop(body, at), i) == Drop(body, pos)
  {
    DropDrop(body, at, i);
  }

  // ---------------------------------------------------------------- totality

  function Weight<T>(entries: seq<Entry<T>>): nat {
    if entries == [] then 0 else 3 + |entries[0].raw| + Weight(entries[1..])
  }

  /** On any bytes at all, what is stored, plus three bytes of framing per value, fits in what was read. */
  lemma {:induction false} StoredBytesFit<T>(b: bytes, last: Option<T>, decode: bytes -> T)
    ensures Weight(Entries(b, last, decode)) <= |b|
    decreases |b|
  {
    if b != [] {
      if b[0] < 0x10 {
        StoredBytesFit<T>(b[1..], None, decode);
      } else if |b| >= 3 {
        var f := ReadField(b);
        var key := if f.nameLength > 0 then Some(decode(f.name)) else last;
        StoredBytesFit(f.rest, key, decode);
        var rest := Entries(f.rest, key, decode);
        if key.Some? && !Skipped(b[0]) {
          assert ([Entry(key.value, f.value)] + rest)[1..] == rest;
        } else {
          assert [] + rest == rest;
        }
      }
    }
  }

  // ---------------------------------------------------------------- round trip

  /** What should be stored for one attribute: its values, integers, booleans and enums aside. */
  function AttributeEntries<T>(key: T, values: seq<Value>): seq<Entry<T>> {
    if values == [] then []
    else (if Skipped(values[0].tag) then [] else [Entry(key, values[0].content)]) + AttributeEntries(key, values[1..])
  }

  function AttributesEntries<T>(attributes: seq<Attribute>, decode: bytes -> T): seq<Entry<T>> {
    if attributes == [] then []
    else AttributeEntries(decode(attributes[0].name), attributes[0].values) + AttributesEntries(attributes[1..], decode)
  }

  function GroupsEntries<T>(groups: seq<Group>, decode: bytes -> T): seq<Entry<T>> {
    if groups == [] then []
    else AttributesEntries(groups[0].attributes, decode) + GroupsEntries(groups[1..], decode)
  }

  lemma Be16ReadsBack(n: nat)
    requires n < 0x1_0000
    ensures Length(Be16(n)) == n
  {
  }

  lemma SliceOfConcat(pre: bytes, mid: bytes, post: bytes)
    ensures Slice(pre + mid + post, |pre|, |mid|) == mid && Drop(pre + mid + post, |pre| + |mid|) == post
  {
    var b := pre + mid + post;
    assert b[..|pre|] == pre && b[|pre|..] == mid + post && b[|pre| + |mid|..] == post;
  }

  lemma FieldReadsBack(tag: byte, name: bytes, value: bytes, rest: bytes)
    requires |name| < 0x1_0000 && |value| < 0x1_0000
    ensures ReadField(Attr(tag, name, value).value + rest) == Field(|name|, name, value, rest)
  {
    var b, nl, vl := Attr(tag, name, value).value + rest, Be16(|name|), Be16(|value|);
    Be16ReadsBack(|name|);
    Be16ReadsBack(|value|);
    assert b == [tag] + nl + (name + vl + value + rest);
    SliceOfConcat([tag], nl, name + vl + value + rest);
    assert b == ([tag] + nl) + name + (vl + value + rest);
    SliceOfConcat([tag] + nl, name, vl + value + rest);
    assert b == ([tag] + nl + name) + vl + (value + rest);
    SliceOfConcat([tag] + nl + name, vl, value + rest);
    assert b == ([tag] + nl + name + vl) + value + rest;
    SliceOfConcat([tag] + nl + name + vl, value, rest);
  }

  lemma Associative<T>(a: seq<T>, b: seq<T>, c: seq<T>)
    ensures a + (b + c) == (a + b) + c
  {
  }

  /** One encoded value at the front is one round of the parser. */
  lemma NextEntry<T>(tag: byte, name: bytes, value: bytes, rest: bytes, last: Option<T>, key: T, decode: bytes -> T)
    requires tag >= 0x10 && |name| < 0x1_0000 && |value| < 0x1_0000
    requires if name == [] then last == Some(key) else decode(name) == key
    ensures Entries(Attr(tag, name, value).value + rest, last, decode)
         == (if Skipped(tag) then [] else [Entry(key, value)]) + Entries(rest, Some(key), decode)
  {
    FieldReadsBack(tag, name, value, rest);
  }

  lemma {:induction false} ValuesReadBack<T>(name: bytes, values: seq<Value>, rest: bytes, last: Option<T>,
                                             key: T, decode: bytes -> T)
    requires |name| < 0x1_0000 && FitsValues(values)
    requires (name != [] && decode(name) == key) || (name == [] && last == Some(key))
    requires values == [] ==> last == Some(key)
    ensures Entries(ValuesWire(name, values) + rest, last, decode)
         == AttributeEntries(key, values) + Entries(rest, Some(key), decode)
    decreases |values|
  {
    if values == [] {
      assert ValuesWire(name, values) + rest == rest;
    } else {
      var v, others := values[0], values[1..];
      assert FitsValue(v);
      var first := if Skipped(v.tag) then [] else [Entry(key, v.content)];
      Associative(Attr(v.tag, name, v.content).value, ValuesWire([], others), rest);
      NextEntry(v.tag, name, v.content, ValuesWire([], others) + rest, last, key, decode);
      ValuesReadBack([], others, rest, Some(key), key, decode);
      Associative(first, AttributeEntries(key, others), Entries(rest, Some(key), decode));
    }
  }

  /** After a list of attributes the parser goes on with the last one's name, or with `last`. */
  function LastKey<T>(attributes: seq<Attribute>, last: Option<T>, decode: bytes -> T): Option<T> {
    if attributes == [] then last else Some(decode(attributes[|attributes| - 1].name))
  }

  lemma LastKeyMore<T>(attributes: seq<Attribute>, last: Option<T>, decode: bytes -> T)
    requires attributes != []
    ensures LastKey(attributes[1..], Some(decode(attributes[0].name)), decode) == LastKey(attributes, last, decode)
  {
  }

  lemma Regrouped<T>(whole: seq<T>, part: seq<T>, a: seq<T>, b: seq<T>, c: seq<T>)
    requires whole == a + part && part == b + c
    ensures whole == (a + b) + c
  {
  }

  lemma OneAttributeMore<T>(attributes: seq<Attribute>, rest: bytes, last: Option<T>, decode: bytes -> T)
    requires FitsAttributes(attributes) && attributes != []
    ensures var a := attributes[0];
            var key := decode(a.name);
            Entries(AttributesWire(attributes) + rest, last, decode)
            == AttributeEntries(key, a.values) + Entries(AttributesWire(attributes[1..]) + rest, Some(key), decode)
  {
    var a := attributes[0];
    assert FitsAttribute(a);
    Associative(ValuesWire(a.name, a.values), AttributesWire(attributes[1..]), rest);
    ValuesReadBack(a.name, a.values, AttributesWire(attributes[1..]) + rest, last, decode(a.name), decode);
  }

  lemma {:induction false} AttributesReadBack<T>(attributes: seq<Attribute>, rest: bytes, last: Option<T>,
                                                 decode: bytes -> T)
    requires FitsAttributes(attributes)
    ensures Entries(AttributesWire(attributes) + rest, last, decode)
         == AttributesEntries(attributes, decode) + Entries(rest, LastKey(attributes, last, decode), decode)
    decreases |attributes|
  {
    if attributes == [] {
      assert AttributesWire(attributes) + rest == rest;
      assert AttributesEntries(attributes, decode) + Entries(rest, last, decode) == Entries(rest, last, decode);
    } else {
      var key, more := decode(attributes[0].name), attributes[1..];
      OneAttributeMore(attributes, rest, last, decode);
      AttributesReadBack(more, rest, Some(key), decode);
      LastKeyMore(attributes, last, decode);
      Regrouped(Entries(AttributesWire(attributes) + rest, last, decode),
                Entries(AttributesWire(more) + rest, Some(key), decode),
                AttributeEntries(key, attributes[0].values), AttributesEntries(more, decode),
                Entries(rest, LastKey(attributes, last, decode), decode));
    }
  }

  lemma OpensGroup<T>(tag: byte, rest: bytes, last: Option<T>, decode: bytes -> T)
    requires tag < 0x10 && tag != 3
    ensures Entries([tag] + rest, last, decode) == Entries(rest, None, decode)
  {
    assert ([tag] + rest)[1..] == rest;
  }

  lemma GroupShuffle(tag: bytes, a: bytes, b: bytes, c: bytes)
    ensures (tag + a + b) + c == tag + (a + (b + c))
  {
  }

  lemma OneGroupMore<T>(groups: seq<Group>, tail: bytes, last: Option<T>, decode: bytes -> T)
    requires FitsGroups(groups) && groups != []
    ensures var g := groups[0];
            Entries(GroupsWire(groups) + tail, last, decode)
            == AttributesEntries(g.attributes, decode)
               + Entries(GroupsWire(groups[1..]) + tail, LastKey(g.attributes, None, decode), decode)
  {
    var g, more := groups[0], GroupsWire(groups[1..]) + tail;
    GroupShuffle([g.tag], AttributesWire(g.attributes), GroupsWire(groups[1..]), tail);
    OpensGroup(g.tag, AttributesWire(g.attributes) + more, last, decode);
    AttributesReadBack<T>(g.attributes, more, None, decode);
  }

  lemma {:induction false} GroupsThenTail<T>(groups: seq<Group>, tail: bytes, last: Option<T>, decode: bytes -> T)
    requires FitsGroups(groups) && tail != [] && tail[0] == 3
    ensures Entries(GroupsWire(groups) + tail, last, decode) == GroupsEntries(groups, decode)
    decreases |groups|
  {
    if groups == [] {
      assert GroupsWire(groups) + tail == tail;
    } else {
      OneGroupMore(groups, tail, last, decode);
      GroupsThenTail(groups[1..], tail, LastKey(groups[0].attributes, None, decode), decode);
    }
  }

  /** Round trip: parsing the encoding of any groups of named attributes, collections and 1setOf
      values included, stores exactly the values encoded, whatever bytes follow the end tag. */
  lemma GroupsReadBack<T>(groups: seq<Group>, document: bytes, last: Option<T>, decode: bytes -> T)
    requires FitsGroups(groups)
    ensures Entries(GroupsWire(groups) + [3] + document, last, decode) == GroupsEntries(groups, decode)
  {
    GroupsThenTail(groups, [3] + document, last, decode);
    Associative(GroupsWire(groups), [3], document);
  }
}
