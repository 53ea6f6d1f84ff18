/** One versioned configuration table (app/registry.py): create, update, delete and upsert by name, as
    values.  `C` is what a row holds besides its name. */
module ConfigTable {
  import opened Basics

  datatype Row<C> = Row(id: nat, name: string, body: C, version: int)

  /** Rows in id order, and the id the next row gets. */
  datatype Table<C> = Table(rows: seq<Row<C>>, next: nat)

  datatype Item<C> = Item(name: string, body: C)

  /** Ids ascend and stay below the next one. */
  ghost predicate Ordered<C>(t: Table<C>) {
    && (forall i, k :: 0 <= i < k < |t.rows| ==> t.rows[i].id < t.rows[k].id)
    && (forall i :: 0 <= i < |t.rows| ==> t.rows[i].id < t.next)
  }

  /** The place of the first row of a name. */
  function Find<C>(rows: seq<Row<C>>, name: string): (k: Option<nat>)
    ensures k.Some? ==> k.value < |rows| && rows[k.value].name == name
    ensures k.Some? ==> forall j :: 0 <= j < k.value ==> rows[j].name != name
    ensures k.None? ==> forall j :: 0 <= j < |rows| ==> rows[j].name != name
  {
    if rows == [] then None
    else
      var k := Find(rows[..|rows| - 1], name);
      if k.Some? then k
      else if rows[|rows| - 1].name == name then Some(|rows| - 1)
      else None
  }

  /** The place of the row of an id. */
  function At<C>(rows: seq<Row<C>>, id: nat): (k: Option<nat>)
    ensures k.Some? ==> k.value < |rows| && rows[k.value].id == id
    ensures k.None? ==> forall j :: 0 <= j < |rows| ==> rows[j].id != id
  {
    if rows == [] then None
    else if rows[|rows| - 1].id == id then Some(|rows| - 1)
    else At(rows[..|rows| - 1], id)
  }

  // ---------------------------------------------------------------- statements

  function Created<C>(t: Table<C>, item: Item<C>): Table<C> {
    Table(t.rows + [Row(t.next, item.name, item.body, 1)], t.next + 1)
  }

  function Replaced<C>(t: Table<C>, k: nat, item: Item<C>): Table<C>
    requires k < |t.rows|
  {
    t.(rows := t.rows[k := Row(t.rows[k].id, item.name, item.body, t.rows[k].version + 1)])
  }

  function Updated<C>(t: Table<C>, id: nat, version: int, item: Item<C>): Result<Table<C>> {
    var k := At(t.rows, id);
    if k.None? then Err(NotFound)
    else if t.rows[k.value].version != version then Err(Conflict)
    else Ok(Replaced(t, k.value, item))
  }

  /** `restarts`: whether numbering restarts at 1 once the table is empty. */
  function Deleted<C>(t: Table<C>, id: nat, restarts: bool): Result<Table<C>> {
    var k := At(t.rows, id);
    if k.None? then Err(NotFound)
    else
      var rows := t.rows[..k.value] + t.rows[k.value + 1..];
      Ok(Table(rows, if restarts && rows == [] then 1 else t.next))
  }

  function Upserted<C>(t: Table<C>, item: Item<C>): Table<C> {
    var k := Find(t.rows, item.name);
    if k.Some? then Replaced(t, k.value, item) else Created(t, item)
  }

  /** Items upserted one after another. */
  function Imported<C>(t: Table<C>, items: seq<Item<C>>): Table<C> {
    if items == [] then t else Upserted(Imported(t, items[..|items| - 1]), items[|items| - 1])
  }

  lemma ImportedNext<C>(t: Table<C>, items: seq<Item<C>>, i: nat)
    requires i < |items|
    ensures Imported(t, items[..i + 1]) == Upserted(Imported(t, items[..i]), items[i])
  {
    assert items[..i + 1][..i] == items[..i];
  }

  function Exported<C>(t: Table<C>): seq<Item<C>> {
    seq(|t.rows|, i requires 0 <= i < |t.rows| => Item(t.rows[i].name, t.rows[i].body))
  }

  /** What a dry run announces: how many items have no row of their name yet. */
  function PlannedCreates<C>(t: Table<C>, items: seq<Item<C>>): nat {
    if items == [] then 0
    else PlannedCreates(t, items[..|items| - 1]) + (if Find(t.rows, items[|items| - 1].name).None? then 1 else 0)
  }

  // ---------------------------------------------------------------- ids

  lemma OnlyAt<C>(t: Table<C>, k: nat)
    requires Ordered(t) && k < |t.rows|
    ensures At(t.rows, t.rows[k].id) == Some(k)
  {
  }

  ghost predicate KeepsIds<C>(t: Table<C>, t': Table<C>) {
    forall id :: At(t.rows, id).Some? ==> At(t'.rows, id).Some?
  }

  lemma CreatedKeeps<C>(t: Table<C>, item: Item<C>)
    requires Ordered(t)
    ensures Ordered(Created(t, item)) && KeepsIds(t, Created(t, item))
  {
    forall id | At(t.rows, id).Some?
      ensures At(Created(t, item).rows, id).Some?
    {
      assert Created(t, item).rows[At(t.rows, id).value].id == id;
    }
  }

  lemma ReplacedKeeps<C>(t: Table<C>, k: nat, item: Item<C>)
    requires Ordered(t) && k < |t.rows|
    ensures Ordered(Replaced(t, k, item)) && KeepsIds(t, Replaced(t, k, item))
  {
    forall id | At(t.rows, id).Some?
      ensures At(Replaced(t, k, item).rows, id).Some?
    {
      assert Replaced(t, k, item).rows[At(t.rows, id).value].id == id;
    }
  }

  lemma DeletedKeeps<C>(t: Table<C>, id: nat, restarts: bool)
    requires Ordered(t) && Deleted(t, id, restarts).Ok?
    ensures Ordered(Deleted(t, id, restarts).value)
    ensures forall other :: At(t.rows, other).Some? && other != id ==>
              At(Deleted(t, id, restarts).value.rows, other).Some?
  {
    var gone, rows := At(t.rows, id).value, Deleted(t, id, restarts).value.rows;
    forall other | At(t.rows, other).Some? && other != id
      ensures At(rows, other).Some?
    {
      var k := At(t.rows, other).value;
      assert rows[if k < gone then k else k - 1].id == other;
    }
  }

  lemma {:induction false} ImportedKeeps<C>(t: Table<C>, items: seq<Item<C>>)
    requires Ordered(t)
    ensures Ordered(Imported(t, items)) && KeepsIds(t, Imported(t, items))
  {
    if items != [] {
      var before, item := Imported(t, items[..|items| - 1]), items[|items| - 1];
      ImportedKeeps(t, items[..|items| - 1]);
      var k := Find(before.rows, item.name);
      if k.Some? {
        ReplacedKeeps(before, k.value, item);
      } else {
        CreatedKeeps(before, item);
      }
    }
  }

  /** An update in plain terms: of the row of that id, and only with its version as it is, everything but the id is
      replaced and the version counted up. */
  lemma UpdateExactly<C>(t: Table<C>, id: nat, version: int, item: Item<C>, k: nat)
    requires Ordered(t) && k <= |t.rows| && forall i :: 0 <= i < |t.rows| ==> (t.rows[i].id == id <==> i == k)
    ensures Updated(t, id, version, item)
         == if k == |t.rows| then Err(NotFound)
            else if t.rows[k].version != version then Err(Conflict)
            else Ok(Table(t.rows[k := Row(id, item.name, item.body, version + 1)], t.next))
  {
    AtIs(t.rows, id, k);
  }

  /** And a deletion: that row goes, the others keep their order and their ids, and the next id stays unless numbering
      restarts in an emptied table. */
  lemma DeleteExactly<C>(t: Table<C>, id: nat, restarts: bool, k: nat)
    requires Ordered(t) && k <= |t.rows| && forall i :: 0 <= i < |t.rows| ==> (t.rows[i].id == id <==> i == k)
    ensures Deleted(t, id, restarts)
         == if k == |t.rows| then Err(NotFound)
            else Ok(Table(t.rows[..k] + t.rows[k + 1..], if restarts && |t.rows| == 1 then 1 else t.next))
  {
    AtIs(t.rows, id, k);
  }

  lemma AtIs<C>(rows: seq<Row<C>>, id: nat, k: nat)
    requires k <= |rows| && forall i :: 0 <= i < |rows| ==> (rows[i].id == id <==> i == k)
    ensures At(rows, id) == if k == |rows| then None else Some(k)
  {
    assert k < |rows| ==> rows[k].id == id;
  }

  // ---------------------------------------------------------------- what an import leaves

  function Count<C>(items: seq<Item<C>>, name: string): nat {
    if items == [] then 0
    else Count(items[..|items| - 1], name) + (if items[|items| - 1].name == name then 1 else 0)
  }

  /** The body of the last item of a name. */
  function LastBody<C>(items: seq<Item<C>>, name: string): C
    requires Count(items, name) > 0
  {
    var last := items[|items| - 1];
    if last.name == name then last.body else LastBody(items[..|items| - 1], name)
  }

  /** The names that have no row yet, in the order they first occur. */
  function NewNames<C>(rows: seq<Row<C>>, items: seq<Item<C>>): (names: seq<string>)
    ensures |names| <= |items|
    ensures forall i :: 0 <= i < |names| ==> Find(rows, names[i]).None? && Count(items, names[i]) > 0
    ensures forall i, k :: 0 <= i < k < |names| ==> names[i] != names[k]
  {
    if items == [] then []
    else
      var names, name := NewNames(rows, items[..|items| - 1]), items[|items| - 1].name;
      if Find(rows, name).None? && name !in names then names + [name] else names
  }

  /** A row of the table after an import, told from the table before and the items alone: the first row
      of a name takes the last body given for it and one version for each; new names follow. */
  function ExpectedRow<C>(t: Table<C>, items: seq<Item<C>>, k: nat): Row<C>
    requires k < |t.rows| + |NewNames(t.rows, items)|
  {
    if k < |t.rows| then
      var r := t.rows[k];
      if Find(t.rows, r.name) == Some(k) && Count(items, r.name) > 0
      then Row(r.id, r.name, LastBody(items, r.name), r.version + Count(items, r.name))
      else r
    else
      var n := k - |t.rows|;
      var name := NewNames(t.rows, items)[n];
      Row(t.next + n, name, LastBody(items, name), Count(items, name))
  }

  ghost predicate ImportedAs<C>(t: Table<C>, items: seq<Item<C>>, t': Table<C>) {
    && |t'.rows| == |t.rows| + |NewNames(t.rows, items)|
    && t'.next == t.next + |NewNames(t.rows, items)|
    && forall k :: 0 <= k < |t'.rows| ==> t'.rows[k] == ExpectedRow(t, items, k)
  }

  /** The names an import leaves, row by row. */
  function NamesAfter<C>(t: Table<C>, items: seq<Item<C>>): seq<string> {
    seq(|t.rows|, i requires 0 <= i < |t.rows| => t.rows[i].name) + NewNames(t.rows, items)
  }

  ghost predicate Named<C>(rows: seq<Row<C>>, names: seq<string>) {
    |rows| == |names| && forall k :: 0 <= k < |rows| ==> rows[k].name == names[k]
  }

  lemma ImportedNames<C>(t: Table<C>, items: seq<Item<C>>, t': Table<C>)
    requires ImportedAs(t, items, t')
    ensures Named(t'.rows, NamesAfter(t, items))
  {
    forall k | 0 <= k < |t'.rows|
      ensures t'.rows[k].name == NamesAfter(t, items)[k]
    {
      assert t'.rows[k] == ExpectedRow(t, items, k);
    }
  }

  lemma NewNamed<C>(t: Table<C>, items: seq<Item<C>>, rows: seq<Row<C>>, n: nat)
    requires Named(rows, NamesAfter(t, items)) && n < |NewNames(t.rows, items)|
    ensures |t.rows| + n < |rows| && rows[|t.rows| + n].name == NewNames(t.rows, items)[n]
  {
  }

  lemma OldNamed<C>(t: Table<C>, items: seq<Item<C>>, rows: seq<Row<C>>)
    requires Named(rows, NamesAfter(t, items))
    ensures |rows| >= |t.rows| && forall j :: 0 <= j < |t.rows| ==> rows[j].name == t.rows[j].name
  {
  }

  /** Where an item of a name lands after some imports: on its first row, or on none. */
  lemma FindAfter<C>(t: Table<C>, items: seq<Item<C>>, rows: seq<Row<C>>, name: string)
    requires Named(rows, NamesAfter(t, items))
    ensures Find(t.rows, name).Some? ==> Find(rows, name) == Find(t.rows, name)
    ensures Find(t.rows, name).None? ==>
              var names := NewNames(t.rows, items);
              match Find(rows, name)
              case None => name !in names
              case Some(k) => k >= |t.rows| && names[k - |t.rows|] == name
  {
    var names := NewNames(t.rows, items);
    OldNamed(t, items, rows);
    if Find(t.rows, name).Some? {
      assert rows[Find(t.rows, name).value].name == name;
    } else if Find(rows, name).Some? {
      var k := Find(rows, name).value;
      assert k >= |t.rows|;
      NewNamed(t, items, rows, k - |t.rows|);
    } else {
      forall n | 0 <= n < |names|
        ensures names[n] != name
      {
        NewNamed(t, items, rows, n);
      }
    }
  }

  lemma {:induction false} NoneYet<C>(rows: seq<Row<C>>, items: seq<Item<C>>, name: string)
    requires Find(rows, name).None? && name !in NewNames(rows, items)
    ensures Count(items, name) == 0
  {
    if items != [] {
      NoneYet(rows, items[..|items| - 1], name);
    }
  }

  /** Whether an item of a name lands on row k. */
  predicate LandsOn<C>(t: Table<C>, r: Row<C>, k: nat, name: string) {
    r.name == name && (k < |t.rows| ==> Find(t.rows, name) == Some(k))
  }

  lemma ExpectedNext<C>(t: Table<C>, items: seq<Item<C>>, k: nat)
    requires items != [] && k < |t.rows| + |NewNames(t.rows, items[..|items| - 1])|
    ensures var r, item := ExpectedRow(t, items[..|items| - 1], k), items[|items| - 1];
            ExpectedRow(t, items, k)
            == if LandsOn(t, r, k, item.name) then Row(r.id, item.name, item.body, r.version + 1) else r
  {
  }

  lemma ExpectedNew<C>(t: Table<C>, items: seq<Item<C>>)
    requires items != []
    requires var names, item := NewNames(t.rows, items[..|items| - 1]), items[|items| - 1];
             Find(t.rows, item.name).None? && item.name !in names
    ensures var names, item := NewNames(t.rows, items[..|items| - 1]), items[|items| - 1];
            && NewNames(t.rows, items) == names + [item.name]
            && ExpectedRow(t, items, |t.rows| + |names|) == Row(t.next + |names|, item.name, item.body, 1)
  {
    NoneYet(t.rows, items[..|items| - 1], items[|items| - 1].name);
  }

  lemma LandsWhereFound<C>(t: Table<C>, items: seq<Item<C>>, rows: seq<Row<C>>, k: nat, name: string)
    requires Named(rows, NamesAfter(t, items)) && k < |rows|
    ensures LandsOn(t, rows[k], k, name) <==> Find(rows, name) == Some(k)
  {
    FindAfter(t, items, rows, name);
    OldNamed(t, items, rows);
    if k >= |t.rows| {
      NewNamed(t, items, rows, k - |t.rows|);
    }
  }

  lemma ImportStep<C>(t: Table<C>, items: seq<Item<C>>, t': Table<C>)
    requires items != [] && ImportedAs(t, items[..|items| - 1], t')
    ensures ImportedAs(t, items, Upserted(t', items[|items| - 1]))
  {
    var before, item := items[..|items| - 1], items[|items| - 1];
    ImportedNames(t, before, t');
    FindAfter(t, before, t'.rows, item.name);
    if Find(t'.rows, item.name).None? {
      ExpectedNew(t, items);
    }
    forall k | 0 <= k < |t'.rows|
      ensures Upserted(t', item).rows[k] == ExpectedRow(t, items, k)
    {
      ExpectedNext(t, items, k);
      LandsWhereFound(t, before, t'.rows, k, item.name);
      assert t'.rows[k] == ExpectedRow(t, before, k);
    }
  }

  /** Importing any items, repeated names included, leaves exactly the expected rows. */
  lemma {:induction false} ImportLeaves<C>(t: Table<C>, items: seq<Item<C>>)
    ensures ImportedAs(t, items, Imported(t, items))
  {
    if items != [] {
      ImportLeaves(t, items[..|items| - 1]);
      ImportStep(t, items, Imported(t, items[..|items| - 1]));
    }
  }

  // ---------------------------------------------------------------- the plan

  predicate NewNameTwice<C>(rows: seq<Row<C>>, items: seq<Item<C>>) {
    exists i, k :: 0 <= i < k < |items| && items[i].name == items[k].name && Find(rows, items[i].name).None?
  }

  lemma {:induction false} NamedSomewhere<C>(rows: seq<Row<C>>, items: seq<Item<C>>, name: string)
    requires Find(rows, name).None?
    ensures name in NewNames(rows, items) <==> exists i :: 0 <= i < |items| && items[i].name == name
  {
    if items != [] {
      NamedSomewhere(rows, items[..|items| - 1], name);
    }
  }

  /** A new name is given twice when it was before, or when the last item gives one again. */
  lemma TwiceStep<C>(rows: seq<Row<C>>, items: seq<Item<C>>)
    requires items != []
    ensures var before, name := items[..|items| - 1], items[|items| - 1].name;
            NewNameTwice(rows, items)
            <==> NewNameTwice(rows, before) || (Find(rows, name).None? && name in NewNames(rows, before))
  {
    var before, last := items[..|items| - 1], |items| - 1;
    if Find(rows, items[last].name).None? {
      NamedSomewhere(rows, before, items[last].name);
    }
    if NewNameTwice(rows, before) {
      var i, k :| 0 <= i < k < |before| && before[i].name == before[k].name && Find(rows, before[i].name).None?;
      assert items[i].name == items[k].name;
    } else if i :| 0 <= i < last && items[i].name == items[last].name && Find(rows, items[i].name).None? {
      assert before[i].name == items[last].name;
    } else {
      forall i, k | 0 <= i < k < |items| && items[i].name == items[k].name
        ensures Find(rows, items[i].name).Some?
      {
        if k < last {
          assert before[i].name == before[k].name;
        }
      }
    }
  }

  /** The rows an import creates are at most those its plan announces, and exactly those unless the
      document gives some new name twice. */
  lemma {:induction false} PlanHoldsExactly<C>(t: Table<C>, items: seq<Item<C>>)
    ensures |NewNames(t.rows, items)| <= PlannedCreates(t, items)
    ensures |NewNames(t.rows, items)| == PlannedCreates(t, items) <==> !NewNameTwice(t.rows, items)
  {
    if items != [] {
      PlanHoldsExactly(t, items[..|items| - 1]);
      TwiceStep(t.rows, items);
    }
  }

  // ---------------------------------------------------------------- importing again

  /** Everything but the versions. */
  ghost predicate SameContents<C>(t: Table<C>, t': Table<C>) {
    && t.next == t'.next && |t.rows| == |t'.rows|
    && forall k :: 0 <= k < |t.rows| ==>
                     t'.rows[k] == t.rows[k].(version := t'.rows[k].version) && t'.rows[k].version >= t.rows[k].version
  }

  lemma {:induction false} AllKnown<C>(rows: seq<Row<C>>, items: seq<Item<C>>)
    requires forall i :: 0 <= i < |items| ==> Find(rows, items[i].name).Some?
    ensures NewNames(rows, items) == []
  {
    if items != [] {
      AllKnown(rows, items[..|items| - 1]);
    }
  }

  lemma {:induction false} Counted<C>(items: seq<Item<C>>, i: nat)
    requires i < |items|
    ensures Count(items, items[i].name) > 0
  {
    if i < |items| - 1 {
      Counted(items[..|items| - 1], i);
    }
  }

  lemma ImportedNamesKnown<C>(t: Table<C>, items: seq<Item<C>>, t': Table<C>, i: nat)
    requires ImportedAs(t, items, t') && i < |items|
    ensures Find(t'.rows, items[i].name).Some?
  {
    ImportedNames(t, items, t');
    FindAfter(t, items, t'.rows, items[i].name);
    if Find(t.rows, items[i].name).None? {
      NamedSomewhere(t.rows, items, items[i].name);
    }
  }

  /** Importing a document a second time creates no row and changes nothing but versions, whatever
      names the document or the table repeats. */
  lemma ReimportKeepsContents<C>(t: Table<C>, items: seq<Item<C>>)
    ensures SameContents(Imported(t, items), Imported(Imported(t, items), items))
    ensures PlannedCreates(Imported(t, items), items) == 0
  {
    var once := Imported(t, items);
    var twice := Imported(once, items);
    ImportLeaves(t, items);
    ImportLeaves(once, items);
    forall i | 0 <= i < |items|
      ensures Find(once.rows, items[i].name).Some?
    {
      ImportedNamesKnown(t, items, once, i);
    }
    AllKnown(once.rows, items);
    PlanHoldsExactly(once, items);
    forall k | 0 <= k < |once.rows|
      ensures twice.rows[k] == once.rows[k].(version := twice.rows[k].version)
      ensures twice.rows[k].version >= once.rows[k].version
    {
      SettledRow(t, items, once, k);
      assert twice.rows[k] == ExpectedRow(once, items, k);
    }
  }

  /** A row an item lands on again already holds that name's last body. */
  lemma SettledRow<C>(t: Table<C>, items: seq<Item<C>>, once: Table<C>, k: nat)
    requires ImportedAs(t, items, once) && k < |once.rows|
    ensures var r := once.rows[k];
            Find(once.rows, r.name) == Some(k) && Count(items, r.name) > 0 ==> r.body == LastBody(items, r.name)
  {
    ImportedNames(t, items, once);
    FindAfter(t, items, once.rows, once.rows[k].name);
    assert once.rows[k] == ExpectedRow(t, items, k);
    assert once.rows[k].name == NamesAfter(t, items)[k];
  }

  // ---------------------------------------------------------------- importing one's own export

  /** The last row of a name. */
  predicate LastOf<C>(rows: seq<Row<C>>, k: nat)
    requires k < |rows|
  {
    forall j :: k < j < |rows| ==> rows[j].name != rows[k].name
  }

  lemma {:induction false} LastBodyIs<C>(items: seq<Item<C>>, k: nat)
    requires k < |items| && forall j :: k < j < |items| ==> items[j].name != items[k].name
    ensures Count(items, items[k].name) > 0 && LastBody(items, items[k].name) == items[k].body
  {
    Counted(items, k);
    if k < |items| - 1 {
      LastBodyIs(items[..|items| - 1], k);
    }
  }

  lemma {:induction false} HasLast<C>(rows: seq<Row<C>>, k: nat) returns (last: nat)
    requires k < |rows|
    ensures k <= last < |rows| && rows[last].name == rows[k].name && LastOf(rows, last)
    decreases |rows| - k
  {
    last := k;
    if j :| k < j < |rows| && rows[j].name == rows[k].name {
      last := HasLast(rows, j);
    }
  }

  /** For every repeated name the first row and the last hold the same. */
  ghost predicate EndsAgree<C>(rows: seq<Row<C>>) {
    forall i: nat, k: nat ::
      i <= k < |rows| && rows[i].name == rows[k].name && Find(rows, rows[i].name) == Some(i) && LastOf(rows, k)
      ==> rows[i].body == rows[k].body
  }

  lemma OwnExportCreatesNothing<C>(t: Table<C>)
    ensures NewNames(t.rows, Exported(t)) == [] && PlannedCreates(t, Exported(t)) == 0
    ensures ImportedAs(t, Exported(t), Imported(t, Exported(t)))
  {
    ImportLeaves(t, Exported(t));
    AllKnown(t.rows, Exported(t));
    PlanHoldsExactly(t, Exported(t));
  }

  lemma OwnExportRow<C>(t: Table<C>, i: nat, last: nat)
    requires i <= last < |t.rows| && t.rows[i].name == t.rows[last].name && LastOf(t.rows, last)
    ensures |Imported(t, Exported(t)).rows| == |t.rows|
    ensures var r, r' := t.rows[i], Imported(t, Exported(t)).rows[i];
            && r' == r.(version := r'.version, body := r'.body) && r'.version >= r.version
            && r'.body == if Find(t.rows, r.name) == Some(i) then t.rows[last].body else r.body
  {
    OwnExportCreatesNothing(t);
    LastBodyIs(Exported(t), last);
    assert Imported(t, Exported(t)).rows[i] == ExpectedRow(t, Exported(t), i);
  }

  /** Importing a table's own export keeps its contents exactly when the first and last row of every
      name agree: an import by name gives the first the last one's body.  It never creates a row. */
  lemma OwnExportExactly<C>(t: Table<C>)
    ensures PlannedCreates(t, Exported(t)) == 0 && |Imported(t, Exported(t)).rows| == |t.rows|
    ensures SameContents(t, Imported(t, Exported(t))) <==> EndsAgree(t.rows)
  {
    var t' := Imported(t, Exported(t));
    OwnExportCreatesNothing(t);
    if SameContents(t, t') {
      forall i: nat, k: nat | i <= k < |t.rows| && t.rows[i].name == t.rows[k].name
                              && Find(t.rows, t.rows[i].name) == Some(i) && LastOf(t.rows, k)
        ensures t.rows[i].body == t.rows[k].body
      {
        OwnExportRow(t, i, k);
        assert t'.rows[i] == t.rows[i].(version := t'.rows[i].version);
      }
    }
    if EndsAgree(t.rows) {
      forall i: nat | i < |t.rows|
        ensures t'.rows[i] == t.rows[i].(version := t'.rows[i].version) && t'.rows[i].version >= t.rows[i].version
      {
        var last := HasLast(t.rows, i);
        OwnExportRow(t, i, last);
      }
    }
  }

  ghost predicate DistinctNames<C>(rows: seq<Row<C>>) {
    forall i, k :: 0 <= i < k < |rows| ==> rows[i].name != rows[k].name
  }

  lemma {:induction false} CountedOnce<C>(items: seq<Item<C>>, k: nat)
    requires k < |items| && forall i, j :: 0 <= i < j < |items| ==> items[i].name != items[j].name
    ensures Count(items, items[k].name) == 1
  {
    if k == |items| - 1 {
      NotCounted(items[..k], items[k].name);
    } else {
      CountedOnce(items[..|items| - 1], k);
    }
  }

  lemma {:induction false} NotCounted<C>(items: seq<Item<C>>, name: string)
    requires forall i :: 0 <= i < |items| ==> items[i].name != name
    ensures Count(items, name) == 0
  {
    if items != [] {
      NotCounted(items[..|items| - 1], name);
    }
  }

  lemma DistinctRow<C>(t: Table<C>, k: nat)
    requires DistinctNames(t.rows) && k < |t.rows|
    ensures ExpectedRow(t, Exported(t), k) == t.rows[k].(version := t.rows[k].version + 1)
  {
    LastBodyIs(Exported(t), k);
    CountedOnce(Exported(t), k);
    assert Exported(t)[k].name == t.rows[k].name;
  }

  ghost predicate Bumped<C>(t: Table<C>, t': Table<C>) {
    && t'.next == t.next && |t'.rows| == |t.rows|
    && forall k :: 0 <= k < |t.rows| ==> t'.rows[k] == t.rows[k].(version := t.rows[k].version + 1)
  }

  /** With distinct names it only adds one to every version. */
  lemma OwnExportBumpsVersions<C>(t: Table<C>)
    requires DistinctNames(t.rows)
    ensures Bumped(t, Imported(t, Exported(t)))
  {
    OwnExportCreatesNothing(t);
    forall k | 0 <= k < |t.rows|
      ensures Imported(t, Exported(t)).rows[k] == t.rows[k].(version := t.rows[k].version + 1)
    {
      DistinctRow(t, k);
    }
  }

  // ---------------------------------------------------------------- stale writes

  datatype Op<C> =
    | Create(item: Item<C>)
    | Update(id: nat, version: int, item: Item<C>)
    | Upsert(item: Item<C>)
    | Delete(id: nat)

  /** A refused operation changes nothing. */
  function Ran<C>(t: Table<C>, op: Op<C>, restarts: bool): Table<C> {
    match op
    case Create(item) => Created(t, item)
    case Upsert(item) => Upserted(t, item)
    case Update(id, version, item) => (match Updated(t, id, version, item) case Ok(t') => t' case Err(_) => t)
    case Delete(id) => (match Deleted(t, id, restarts) case Ok(t') => t' case Err(_) => t)
  }

  function After<C>(t: Table<C>, ops: seq<Op<C>>, restarts: bool): Table<C> {
    if ops == [] then t else Ran(After(t, ops[..|ops| - 1], restarts), ops[|ops| - 1], restarts)
  }

  /** No deletion leaves the table empty. */
  predicate NeverEmptied<C>(t: Table<C>, ops: seq<Op<C>>, restarts: bool) {
    forall i :: 0 <= i < |ops| && ops[i].Delete? ==> After(t, ops[..i + 1], restarts).rows != []
  }

  /** A row of a later table against an earlier one: an id once below `next` was there before, its
      version has not fallen, and with its old version it is the old row. */
  ghost predicate Continues<C>(t: Table<C>, r: Row<C>) {
    r.id < t.next ==>
      exists i :: 0 <= i < |t.rows| && t.rows[i].id == r.id && t.rows[i].version <= r.version
                  && (t.rows[i].version == r.version ==> t.rows[i] == r)
  }

  ghost predicate Pins<C>(t: Table<C>, t': Table<C>) {
    t.next <= t'.next && forall k :: 0 <= k < |t'.rows| ==> Continues(t, t'.rows[k])
  }

  lemma PinsItself<C>(t: Table<C>)
    ensures Pins(t, t)
  {
  }

  lemma PinsOn<C>(t: Table<C>, t': Table<C>, t'': Table<C>)
    requires Ordered(t) && Pins(t, t') && Pins(t', t'')
    ensures Pins(t, t'')
  {
    forall k | 0 <= k < |t''.rows|
      ensures Continues(t, t''.rows[k])
    {
      assert Continues(t', t''.rows[k]);
      if t''.rows[k].id < t.next {
        var i :| 0 <= i < |t'.rows| && t'.rows[i].id == t''.rows[k].id && t'.rows[i].version <= t''.rows[k].version
                 && (t'.rows[i].version == t''.rows[k].version ==> t'.rows[i] == t''.rows[k]);
        assert Continues(t, t'.rows[i]);
      }
    }
  }

  lemma RanStaysOrdered<C>(t: Table<C>, op: Op<C>, restarts: bool)
    requires Ordered(t)
    ensures Ordered(Ran(t, op, restarts))
  {
    match op
    case Create(item) => CreatedKeeps(t, item);
    case Upsert(item) =>
      if Find(t.rows, item.name).Some? {
        ReplacedKeeps(t, Find(t.rows, item.name).value, item);
      } else {
        CreatedKeeps(t, item);
      }
    case Update(id, version, item) =>
      if Updated(t, id, version, item).Ok? {
        ReplacedKeeps(t, At(t.rows, id).value, item);
      }
    case Delete(id) =>
      if Deleted(t, id, restarts).Ok? {
        DeletedKeeps(t, id, restarts);
      }
  }

  lemma RanPins<C>(t: Table<C>, op: Op<C>, restarts: bool)
    requires Ordered(t) && (op.Delete? ==> Ran(t, op, restarts).rows != [] || !restarts)
    ensures Pins(t, Ran(t, op, restarts))
  {
    var t' := Ran(t, op, restarts);
    forall k | 0 <= k < |t'.rows|
      ensures Continues(t, t'.rows[k])
    {
      if op.Delete? && At(t.rows, op.id).Some? {
        var gone := At(t.rows, op.id).value;
        assert t'.rows[k] == t.rows[if k < gone then k else k + 1];
      } else if k < |t.rows| {
        assert t.rows[k].id == t'.rows[k].id;
      }
    }
  }

  lemma SliceOfSlice<T>(s: seq<T>, n: nat, i: nat)
    requires i <= n <= |s|
    ensures s[..n][..i] == s[..i]
  {
  }

  lemma NeverEmptiedBefore<C>(t: Table<C>, ops: seq<Op<C>>)
    requires ops != [] && NeverEmptied(t, ops, true)
    ensures NeverEmptied(t, ops[..|ops| - 1], true)
    ensures ops[|ops| - 1].Delete? ==> After(t, ops, true).rows != []
  {
    var n := |ops| - 1;
    forall i | 0 <= i < n && ops[..n][i].Delete?
      ensures After(t, ops[..n][..i + 1], true).rows != []
    {
      SliceOfSlice(ops, n, i + 1);
      assert ops[i].Delete?;
    }
    SliceOfSlice(ops, |ops|, n + 1);
    assert ops[..n + 1] == ops;
  }

  /** Over any run of operations, refused ones included, in which numbering does not restart: an update
      carrying a version read before the run is accepted only if the row is still the one that was read,
      so no one else's change is ever overwritten unseen. */
  lemma {:induction false} NoLostUpdate<C>(t: Table<C>, ops: seq<Op<C>>, restarts: bool)
    requires Ordered(t) && (restarts ==> NeverEmptied(t, ops, restarts))
    ensures Ordered(After(t, ops, restarts)) && Pins(t, After(t, ops, restarts))
  {
    if ops == [] {
      PinsItself(t);
    } else {
      var before, op := ops[..|ops| - 1], ops[|ops| - 1];
      if restarts {
        NeverEmptiedBefore(t, ops);
      }
      NoLostUpdate(t, before, restarts);
      var mid := After(t, before, restarts);
      RanStaysOrdered(mid, op, restarts);
      RanPins(mid, op, restarts);
      PinsOn(t, mid, Ran(mid, op, restarts));
    }
  }

  lemma AcceptedMeansUnchanged<C>(t: Table<C>, ops: seq<Op<C>>, restarts: bool, k: nat, item: Item<C>)
    requires Ordered(t) && k < |t.rows| && (restarts ==> NeverEmptied(t, ops, restarts))
    requires Updated(After(t, ops, restarts), t.rows[k].id, t.rows[k].version, item).Ok?
    ensures t.rows[k] in After(t, ops, restarts).rows
  {
    NoLostUpdate(t, ops, restarts);
    var t' := After(t, ops, restarts);
    var i := At(t'.rows, t.rows[k].id).value;
    assert Continues(t, t'.rows[i]);
  }

  // ---------------------------------------------------------------- restarted numbering

  lemma {:induction false} AfterBoth<C>(t: Table<C>, a: seq<Op<C>>, b: seq<Op<C>>, restarts: bool)
    ensures After(t, a + b, restarts) == After(After(t, a, restarts), b, restarts)
  {
    if b == [] {
      assert a + b == a;
    } else {
      assert (a + b)[..|a + b| - 1] == a + b[..|b| - 1];
      AfterBoth(t, a, b[..|b| - 1], restarts);
    }
  }

  lemma AfterOne<C>(t: Table<C>, op: Op<C>, restarts: bool)
    ensures After(t, [op], restarts) == Ran(t, op, restarts)
  {
    assert [op][..0] == [];
  }

  lemma LastAt<C>(t: Table<C>)
    requires Ordered(t) && t.rows != []
    ensures At(t.rows, t.rows[|t.rows| - 1].id) == Some(|t.rows| - 1)
  {
  }

  /** Deleting every row, last first: numbering restarts at 1. */
  lemma {:induction false} EmptyOut<C>(t: Table<C>) returns (ops: seq<Op<C>>)
    requires Ordered(t) && t.rows != []
    ensures After(t, ops, true) == Table([], 1) && forall i :: 0 <= i < |ops| ==> ops[i].Delete?
    decreases |t.rows|
  {
    var last: Op<C> := Delete(t.rows[|t.rows| - 1].id);
    LastAt(t);
    AfterOne(t, last, true);
    var t' := Ran(t, last, true);
    assert t'.rows == t.rows[..|t.rows| - 1];
    if t'.rows == [] {
      ops := [last];
    } else {
      RanStaysOrdered(t, last, true);
      var more := EmptyOut(t');
      AfterBoth(t, [last], more, true);
      ops := [last] + more;
    }
  }

  /** n rows just created, all alike. */
  function Fresh<C>(item: Item<C>, n: nat): Table<C> {
    Table(seq(n, i requires 0 <= i < n => Row(i + 1, item.name, item.body, 1)), n + 1)
  }

  lemma {:induction false} CreateMany<C>(item: Item<C>, n: nat) returns (ops: seq<Op<C>>)
    ensures forall i :: 0 <= i < |ops| ==> ops[i] == Create(item)
    ensures After(Table([], 1), ops, true) == Fresh(item, n)
  {
    if n == 0 {
      ops := [];
      assert Fresh(item, 0).rows == [];
    } else {
      var before := CreateMany(item, n - 1);
      AfterBoth(Table([], 1), before, [Create(item)], true);
      AfterOne(Fresh(item, n - 1), Create(item), true);
      assert Fresh(item, n).rows == Fresh(item, n - 1).rows + [Row(n, item.name, item.body, 1)];
      ops := before + [Create(item)];
    }
  }

  /** The last row brought to version v by writing the same again. */
  function Raised<C>(item: Item<C>, n: nat, v: int): Table<C>
    requires n >= 1
  {
    Fresh(item, n).(rows := Fresh(item, n).rows[n - 1 := Row(n, item.name, item.body, v)])
  }

  lemma RaiseOnce<C>(item: Item<C>, n: nat, v: int)
    requires n >= 1
    ensures Ran(Raised(item, n, v), Update(n, v, item), true) == Raised(item, n, v + 1)
  {
    var rows := Raised(item, n, v).rows;
    assert rows[n - 1].id == n && At(rows, n) == Some(n - 1);
    assert rows[n - 1 := Row(n, item.name, item.body, v + 1)] == Raised(item, n, v + 1).rows;
  }

  lemma {:induction false} RaiseMany<C>(item: Item<C>, n: nat, v: int) returns (ops: seq<Op<C>>)
    requires n >= 1 && v >= 1
    ensures forall i :: 0 <= i < |ops| ==> ops[i].Update? && ops[i].item == item
    ensures After(Fresh(item, n), ops, true) == Raised(item, n, v)
    decreases v
  {
    if v == 1 {
      ops := [];
      assert Raised(item, n, 1).rows == Fresh(item, n).rows;
    } else {
      var before := RaiseMany(item, n, v - 1);
      AfterBoth(Fresh(item, n), before, [Update(n, v - 1, item)], true);
      AfterOne(Raised(item, n, v - 1), Update(n, v - 1, item), true);
      RaiseOnce(item, n, v - 1);
      ops := before + [Update(n, v - 1, item)];
    }
  }

  /** A run that puts another item under the id and at the version of any row. */
  lemma Impostor<C>(t: Table<C>, k: nat, item: Item<C>) returns (ops: seq<Op<C>>)
    requires Ordered(t) && k < |t.rows| && t.rows[k].id >= 1 && t.rows[k].version >= 1
    ensures After(t, ops, true) == Raised(item, t.rows[k].id, t.rows[k].version)
    ensures forall i :: 0 <= i < |ops| ==> ops[i].Delete? || ((ops[i].Create? || ops[i].Update?) && ops[i].item == item)
  {
    var n, v := t.rows[k].id, t.rows[k].version;
    var gone := EmptyOut(t);
    var made := CreateMany(item, n);
    var raised := RaiseMany(item, n, v);
    AfterBoth(t, gone, made, true);
    AfterBoth(t, gone + made, raised, true);
    ops := gone + made + raised;
  }

  /** Some run lets an update prepared for row k overwrite something else. */
  ghost predicate CanLose<C(!new)>(t: Table<C>, k: nat, restarts: bool)
    requires k < |t.rows|
  {
    exists ops: seq<Op<C>>, item: Item<C> ::
      && Updated(After(t, ops, restarts), t.rows[k].id, t.rows[k].version, item).Ok?
      && t.rows[k] !in After(t, ops, restarts).rows
  }

  lemma RaisedAt<C>(item: Item<C>, n: nat, v: int, r: Row<C>)
    requires n >= 1 && r.id == n && r.version == v && r.name != item.name
    ensures Updated(Raised(item, n, v), n, v, item).Ok? && r !in Raised(item, n, v).rows
  {
    var rows := Raised(item, n, v).rows;
    assert rows[n - 1].id == n && At(rows, n) == Some(n - 1);
    assert forall i :: 0 <= i < |rows| ==> rows[i].name == item.name;
  }

  /** For every row, some run loses an update prepared for it exactly when numbering restarts once the
      table is empty. */
  lemma LosesExactlyIfRestarts<C(!new)>(t: Table<C>, k: nat, restarts: bool)
    requires Ordered(t) && k < |t.rows| && t.rows[k].id >= 1 && t.rows[k].version >= 1
    ensures CanLose(t, k, restarts) <==> restarts
  {
    var r := t.rows[k];
    if restarts {
      var item := Item(r.name + "'", r.body);
      assert |item.name| != |r.name|;
      var ops := Impostor(t, k, item);
      RaisedAt(item, r.id, r.version, r);
    } else if CanLose(t, k, false) {
      var ops: seq<Op<C>>, item: Item<C> :|
        Updated(After(t, ops, false), r.id, r.version, item).Ok? && r !in After(t, ops, false).rows;
      AcceptedMeansUnchanged(t, ops, false, k, item);
    }
  }
}
