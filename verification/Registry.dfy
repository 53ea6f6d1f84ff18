/** The configuration registry (app/registry.py): formats, templates and printers, and the import of a
    whole document.  A printer may refer to a format and a template by id; the database refuses
    references to missing rows and clears them when the row they point at is deleted. */
module ConfigRules {
  import opened Basics
  import opened ConfigTable

  datatype FormatBody = FormatBody(elements: string, sampleData: string)
  datatype TemplateBody = TemplateBody(html: string, css: string, pageSetup: string, sampleData: string)

  /** A printer's parameters, each as its JSON text. */
  type Params = map<string, string>

  datatype PrinterBody = PrinterBody(params: Params, format: Option<nat>, template: Option<nat>, allowRaw: bool)

  /** `caps` holds the cached capabilities of the printers that have any. */
  datatype Config = Config(formats: Table<FormatBody>, templates: Table<TemplateBody>,
                           printers: Table<PrinterBody>, caps: map<nat, string>)

  /** An item of an imported document; an invalid one is refused by validation. */
  datatype Entry<C> = Entry(item: Item<C>, valid: bool)

  datatype Doc = Doc(formats: seq<Entry<FormatBody>>, templates: seq<Entry<TemplateBody>>,
                     printers: seq<Entry<PrinterBody>>)

  datatype Split = Split(create: nat, update: nat)
  datatype Plan = Plan(formats: Split, templates: Split, printers: Split)

  // ---------------------------------------------------------------- references

  predicate RefersWell(c: Config, p: PrinterBody) {
    && (p.format.Some? ==> At(c.formats.rows, p.format.value).Some?)
    && (p.template.Some? ==> At(c.templates.rows, p.template.value).Some?)
  }

  ghost predicate Sound(c: Config) {
    && Ordered(c.formats) && Ordered(c.templates) && Ordered(c.printers)
    && (forall k :: 0 <= k < |c.printers.rows| ==> RefersWell(c, c.printers.rows[k].body))
    && (forall id :: id in c.caps ==> At(c.printers.rows, id).Some?)
  }

  function Unformatted(rows: seq<Row<PrinterBody>>, id: nat): seq<Row<PrinterBody>> {
    seq(|rows|, i requires 0 <= i < |rows| =>
      if rows[i].body.format == Some(id) then rows[i].(body := rows[i].body.(format := None)) else rows[i])
  }

  function Untemplated(rows: seq<Row<PrinterBody>>, id: nat): seq<Row<PrinterBody>> {
    seq(|rows|, i requires 0 <= i < |rows| =>
      if rows[i].body.template == Some(id) then rows[i].(body := rows[i].body.(template := None)) else rows[i])
  }

  // ---------------------------------------------------------------- the import

  /** The items up to the first refused one. */
  function Usable<C>(entries: seq<Entry<C>>): (items: seq<Item<C>>)
    ensures |items| <= |entries|
    ensures forall i :: 0 <= i < |items| ==> entries[i].valid && items[i] == entries[i].item
    ensures |items| < |entries| ==> !entries[|items|].valid
  {
    if entries == [] || !entries[0].valid then [] else [entries[0].item] + Usable(entries[1..])
  }

  function Items<C>(entries: seq<Entry<C>>): seq<Item<C>> {
    seq(|entries|, i requires 0 <= i < |entries| => entries[i].item)
  }

  function SplitOf<C>(t: Table<C>, entries: seq<Entry<C>>): Split {
    var create := PlannedCreates(t, Items(entries));
    PlanBound(t, Items(entries));
    Split(create, |entries| - create)
  }

  lemma {:induction false} PlanBound<C>(t: Table<C>, items: seq<Item<C>>)
    ensures PlannedCreates(t, items) <= |items|
  {
    if items != [] {
      PlanBound(t, items[..|items| - 1]);
    }
  }

  function PlanOf(c: Config, doc: Doc): Plan {
    Plan(SplitOf(c.formats, doc.formats), SplitOf(c.templates, doc.templates), SplitOf(c.printers, doc.printers))
  }

  /** An update clears the printer's cached capabilities, and a new printer has none. */
  function Cleared(t: Table<PrinterBody>, items: seq<Item<PrinterBody>>, caps: map<nat, string>): map<nat, string> {
    if items == [] then caps
    else
      var before, item := items[..|items| - 1], items[|items| - 1];
      var k := Find(Imported(t, before).rows, item.name);
      if k.Some? then Cleared(t, before, caps) - {Imported(t, before).rows[k.value].id} else Cleared(t, before, caps)
  }

  function FormatsIn(doc: Doc): seq<Item<FormatBody>> {
    Usable(doc.formats)
  }

  function TemplatesIn(doc: Doc): seq<Item<TemplateBody>> {
    if |FormatsIn(doc)| < |doc.formats| then [] else Usable(doc.templates)
  }

  function WithTemplates(c: Config, doc: Doc): Config {
    c.(formats := Imported(c.formats, FormatsIn(doc)), templates := Imported(c.templates, TemplatesIn(doc)))
  }

  /** A printer item is refused also when it refers to a missing row. */
  function Checked(c: Config, entries: seq<Entry<PrinterBody>>): seq<Entry<PrinterBody>> {
    seq(|entries|, i requires 0 <= i < |entries| =>
      Entry(entries[i].item, entries[i].valid && RefersWell(c, entries[i].item.body)))
  }

  function PrintersIn(c: Config, doc: Doc): seq<Item<PrinterBody>> {
    if |FormatsIn(doc)| < |doc.formats| || |TemplatesIn(doc)| < |doc.templates| then []
    else Usable(Checked(WithTemplates(c, doc), doc.printers))
  }

  function PrinterUpserted(c: Config, item: Item<PrinterBody>): Config {
    var k := Find(c.printers.rows, item.name);
    c.(printers := Upserted(c.printers, item),
    caps := if k.Some? then c.caps - {c.printers.rows[k.value].id} else c.caps)
  }

  function PrintersUpserted(c: Config, items: seq<Item<PrinterBody>>): Config {
    c.(printers := Imported(c.printers, items), caps := Cleared(c.printers, items, c.caps))
  }

  lemma {:induction false} UsableStops<C>(entries: seq<Entry<C>>, i: nat)
    requires i <= |entries| && forall j :: 0 <= j < i ==> entries[j].valid
    requires i < |entries| ==> !entries[i].valid
    ensures Usable(entries) == Items(entries)[..i]
  {
    if i > 0 {
      UsableStops(entries[1..], i - 1);
      assert Items(entries)[..i] == [entries[0].item] + Items(entries[1..])[..i - 1];
    }
  }

  /** The first i items, all valid, have been imported. */
  ghost predicate Sofar<C>(before: Table<C>, t: Table<C>, entries: seq<Entry<C>>, i: nat)
    requires i <= |entries|
  {
    (forall j :: 0 <= j < i ==> entries[j].valid) && t == Imported(before, Items(entries)[..i])
  }

  lemma SofarStarts<C>(t: Table<C>, entries: seq<Entry<C>>)
    ensures Sofar(t, t, entries, 0)
  {
  }

  lemma SofarNext<C>(before: Table<C>, t: Table<C>, entries: seq<Entry<C>>, i: nat)
    requires Ordered(before) && i < |entries| && Sofar(before, t, entries, i) && entries[i].valid
    ensures Ordered(t) && Sofar(before, Upserted(t, entries[i].item), entries, i + 1)
  {
    ImportedKeeps(before, Items(entries)[..i]);
    ImportedNext(before, Items(entries), i);
  }

  lemma SofarEnds<C>(before: Table<C>, t: Table<C>, entries: seq<Entry<C>>, i: nat)
    requires i <= |entries| && Sofar(before, t, entries, i) && (i < |entries| ==> !entries[i].valid)
    ensures t == Imported(before, Usable(entries)) && (|Usable(entries)| == |entries| <==> i == |entries|)
  {
    UsableStops(entries, i);
  }

  /** Formats, then templates, then printers: the configuration after the items that were accepted.  A
      refused item stops the import, and what was written before it stays. */
  function ImportUpTo(c: Config, doc: Doc): Config {
    PrintersUpserted(WithTemplates(c, doc), PrintersIn(c, doc))
  }

  predicate Completes(c: Config, doc: Doc) {
    && |FormatsIn(doc)| == |doc.formats| && |TemplatesIn(doc)| == |doc.templates|
    && |PrintersIn(c, doc)| == |doc.printers|
  }

  /** Why an import stopped, if it did: validation, or a reference the database refused. */
  function ImportError(c: Config, doc: Doc): Option<Error> {
    if |FormatsIn(doc)| < |doc.formats| || |TemplatesIn(doc)| < |doc.templates| then Some(ValidationError)
    else PrinterError(doc.printers, |PrintersIn(c, doc)|)
  }

  function PrinterError(entries: seq<Entry<PrinterBody>>, accepted: nat): Option<Error>
    requires accepted <= |entries|
  {
    if accepted == |entries| then None
    else if entries[accepted].valid then Some(IntegrityError)
    else Some(ValidationError)
  }

  function AllValid<C>(items: seq<Item<C>>): seq<Entry<C>> {
    seq(|items|, i requires 0 <= i < |items| => Entry(items[i], true))
  }

  /** Stored parameters are validated again when they come back; `accepts` is what that validation says of
      them, which it need not say of parameters merged in without it. */
  function PrinterEntries(t: Table<PrinterBody>, accepts: Params -> bool): seq<Entry<PrinterBody>> {
    seq(|t.rows|, i requires 0 <= i < |t.rows| => Entry(Exported(t)[i], accepts(t.rows[i].body.params)))
  }

  function ExportOf(c: Config, accepts: Params -> bool): Doc {
    Doc(AllValid(Exported(c.formats)), AllValid(Exported(c.templates)), PrinterEntries(c.printers, accepts))
  }

  predicate AllAccepted(c: Config, accepts: Params -> bool) {
    forall k :: 0 <= k < |c.printers.rows| ==> accepts(c.printers.rows[k].body.params)
  }

  // ---------------------------------------------------------------- own export, whole configuration

  lemma {:induction false} AllUsable<C>(items: seq<Item<C>>)
    ensures Usable(AllValid(items)) == items
  {
    if items != [] {
      assert AllValid(items)[1..] == AllValid(items[1..]);
      AllUsable(items[1..]);
    }
  }

  lemma {:induction false} SameIds<C>(a: seq<Row<C>>, b: seq<Row<C>>, id: nat)
    requires |a| == |b| && forall k :: 0 <= k < |a| ==> a[k].id == b[k].id
    ensures At(a, id) == At(b, id)
  {
    if a != [] {
      SameIds(a[..|a| - 1], b[..|b| - 1], id);
    }
  }

  lemma OwnPrefixFinds(t: Table<PrinterBody>, n: nat)
    requires DistinctNames(t.rows) && n < |t.rows|
    ensures var rows := Imported(t, Exported(t)[..n]).rows;
            && Find(rows, t.rows[n].name) == Some(n) && rows[n].id == t.rows[n].id
  {
    var items := Exported(t)[..n];
    ImportLeaves(t, items);
    ImportedNames(t, items, Imported(t, items));
    FindAfter(t, items, Imported(t, items).rows, t.rows[n].name);
    assert Find(t.rows, t.rows[n].name) == Some(n);
    assert Imported(t, items).rows[n] == ExpectedRow(t, items, n);
  }

  function IdsUpTo<C>(rows: seq<Row<C>>, n: nat): set<nat>
    requires n <= |rows|
  {
    if n == 0 then {} else IdsUpTo(rows, n - 1) + {rows[n - 1].id}
  }

  lemma {:induction false} IdUpTo<C>(rows: seq<Row<C>>, n: nat, k: nat)
    requires k < n <= |rows|
    ensures rows[k].id in IdsUpTo(rows, n)
  {
    if k < n - 1 {
      IdUpTo(rows, n - 1, k);
    }
  }

  lemma ClearedNext(t: Table<PrinterBody>, caps: map<nat, string>, n: nat)
    requires DistinctNames(t.rows) && n < |t.rows|
    ensures Cleared(t, Exported(t)[..n + 1], caps) == Cleared(t, Exported(t)[..n], caps) - {t.rows[n].id}
  {
    OwnPrefixFinds(t, n);
    assert Exported(t)[..n + 1][..n] == Exported(t)[..n];
  }

  lemma LessAndLess(caps: map<nat, string>, gone: set<nat>, id: nat)
    ensures (caps - gone) - {id} == caps - (gone + {id})
  {
  }

  lemma {:induction false} AllCleared(t: Table<PrinterBody>, caps: map<nat, string>, n: nat)
    requires DistinctNames(t.rows) && n <= |t.rows|
    ensures Cleared(t, Exported(t)[..n], caps) == caps - IdsUpTo(t.rows, n)
  {
    if n == 0 {
      assert Exported(t)[..0] == [] && caps - {} == caps;
    } else {
      AllCleared(t, caps, n - 1);
      ClearedNext(t, caps, n - 1);
      LessAndLess(caps, IdsUpTo(t.rows, n - 1), t.rows[n - 1].id);
    }
  }

  lemma OwnExportPlan<C>(t: Table<C>)
    ensures SplitOf(t, AllValid(Exported(t))) == Split(0, |t.rows|)
  {
    assert Items(AllValid(Exported(t))) == Exported(t);
    OwnExportCreatesNothing(t);
  }

  /** The printers of an export refer to nothing missing: the rows they refer to keep their ids. */
  lemma OwnPrintersChecked(c: Config, c': Config, accepts: Params -> bool)
    requires Sound(c)
    requires DistinctNames(c.formats.rows) && c'.formats == Imported(c.formats, Exported(c.formats))
    requires DistinctNames(c.templates.rows) && c'.templates == Imported(c.templates, Exported(c.templates))
    ensures Checked(c', PrinterEntries(c.printers, accepts)) == PrinterEntries(c.printers, accepts)
  {
    OwnExportBumpsVersions(c.formats);
    OwnExportBumpsVersions(c.templates);
    forall k | 0 <= k < |c.printers.rows|
      ensures RefersWell(c', Exported(c.printers)[k].body)
    {
      var p := c.printers.rows[k].body;
      if p.format.Some? {
        SameIds(c.formats.rows, c'.formats.rows, p.format.value);
      }
      if p.template.Some? {
        SameIds(c.templates.rows, c'.templates.rows, p.template.value);
      }
    }
  }

  lemma OwnPrinterItems(t: Table<PrinterBody>, accepts: Params -> bool)
    ensures Items(PrinterEntries(t, accepts)) == Exported(t)
    ensures (forall k :: 0 <= k < |t.rows| ==> accepts(t.rows[k].body.params))
       <==> |Usable(PrinterEntries(t, accepts))| == |t.rows|
    ensures |Usable(PrinterEntries(t, accepts))| == |t.rows| ==> Usable(PrinterEntries(t, accepts)) == Exported(t)
  {
    var entries := PrinterEntries(t, accepts);
    if forall k :: 0 <= k < |t.rows| ==> accepts(t.rows[k].body.params) {
      UsableStops(entries, |entries|);
    } else {
      var k :| 0 <= k < |t.rows| && !accepts(t.rows[k].body.params);
      assert !entries[k].valid;
    }
  }

  lemma OwnItems(c: Config, accepts: Params -> bool)
    requires Sound(c) && DistinctNames(c.formats.rows) && DistinctNames(c.templates.rows)
    ensures FormatsIn(ExportOf(c, accepts)) == Exported(c.formats)
    ensures TemplatesIn(ExportOf(c, accepts)) == Exported(c.templates)
    ensures PrintersIn(c, ExportOf(c, accepts)) == Usable(PrinterEntries(c.printers, accepts))
  {
    AllUsable(Exported(c.formats));
    AllUsable(Exported(c.templates));
    OwnPrintersChecked(c, WithTemplates(c, ExportOf(c, accepts)), accepts);
  }

  lemma OwnCapsCleared(c: Config)
    requires Sound(c) && DistinctNames(c.printers.rows)
    ensures Cleared(c.printers, Exported(c.printers), c.caps) == map[]
  {
    var n := |c.printers.rows|;
    AllCleared(c.printers, c.caps, n);
    assert Exported(c.printers)[..n] == Exported(c.printers);
    forall id | id in c.caps
      ensures id in IdsUpTo(c.printers.rows, n)
    {
      IdUpTo(c.printers.rows, n, At(c.printers.rows, id).value);
    }
    assert (c.caps - IdsUpTo(c.printers.rows, n)).Keys == {};
  }

  /** The plan for a configuration's own export is updates alone. */
  lemma OwnExportPlans(c: Config, accepts: Params -> bool)
    ensures PlanOf(c, ExportOf(c, accepts))
         == Plan(Split(0, |c.formats.rows|), Split(0, |c.templates.rows|), Split(0, |c.printers.rows|))
  {
    OwnExportPlan(c.formats);
    OwnExportPlan(c.templates);
    OwnPrinterItems(c.printers, accepts);
    OwnExportCreatesNothing(c.printers);
  }

  /** Importing a configuration's own export, when no table repeats a name, completes exactly when
      validation accepts the stored parameters of every printer; then it creates no row, and changes
      nothing but the versions, each up by one, and the cached capabilities, all cleared. */
  lemma OwnExportKeepsConfig(c: Config, accepts: Params -> bool)
    requires Sound(c)
    requires DistinctNames(c.formats.rows) && DistinctNames(c.templates.rows) && DistinctNames(c.printers.rows)
    ensures Completes(c, ExportOf(c, accepts)) <==> AllAccepted(c, accepts)
    ensures AllAccepted(c, accepts) ==>
              var c' := ImportUpTo(c, ExportOf(c, accepts));
              && Bumped(c.formats, c'.formats) && Bumped(c.templates, c'.templates) && Bumped(c.printers, c'.printers)
              && c'.caps == map[]
  {
    OwnItems(c, accepts);
    OwnPrinterItems(c.printers, accepts);
    if AllAccepted(c, accepts) {
      OwnExportApplied(c, ExportOf(c, accepts));
    }
  }

  lemma OwnExportApplied(c: Config, doc: Doc)
    requires Sound(c)
    requires DistinctNames(c.formats.rows) && DistinctNames(c.templates.rows) && DistinctNames(c.printers.rows)
    requires FormatsIn(doc) == Exported(c.formats) && TemplatesIn(doc) == Exported(c.templates)
    requires PrintersIn(c, doc) == Exported(c.printers)
    ensures var c' := ImportUpTo(c, doc);
            && Bumped(c.formats, c'.formats) && Bumped(c.templates, c'.templates) && Bumped(c.printers, c'.printers)
            && c'.caps == map[]
  {
    OwnExportBumpsVersions(c.formats);
    OwnExportBumpsVersions(c.templates);
    OwnExportBumpsVersions(c.printers);
    OwnCapsCleared(c);
  }

  // ---------------------------------------------------------------- any document

  lemma CompleteItems(c: Config, doc: Doc)
    requires Completes(c, doc)
    ensures FormatsIn(doc) == Items(doc.formats) && TemplatesIn(doc) == Items(doc.templates)
    ensures PrintersIn(c, doc) == Items(doc.printers)
  {
  }

  ghost predicate PlanHolds<C>(t: Table<C>, entries: seq<Entry<C>>, t': Table<C>, plan: Split) {
    && |t'.rows| - |t.rows| <= plan.create
    && (|t'.rows| - |t.rows| == plan.create <==> !NewNameTwice(t.rows, Items(entries)))
  }

  lemma PlanHoldsFor<C>(t: Table<C>, entries: seq<Entry<C>>)
    ensures PlanHolds(t, entries, Imported(t, Items(entries)), SplitOf(t, entries))
  {
    ImportLeaves(t, Items(entries));
    PlanHoldsExactly(t, Items(entries));
  }

  /** A completed import creates in each table as many rows as its plan announced, exactly when the
      document gives no new name twice there; never more. */
  lemma PlanMatchesImport(c: Config, doc: Doc)
    requires Completes(c, doc)
    ensures PlanHolds(c.formats, doc.formats, ImportUpTo(c, doc).formats, PlanOf(c, doc).formats)
    ensures PlanHolds(c.templates, doc.templates, ImportUpTo(c, doc).templates, PlanOf(c, doc).templates)
    ensures PlanHolds(c.printers, doc.printers, ImportUpTo(c, doc).printers, PlanOf(c, doc).printers)
  {
    CompleteItems(c, doc);
    PlanHoldsFor(c.formats, doc.formats);
    PlanHoldsFor(c.templates, doc.templates);
    PlanHoldsFor(c.printers, doc.printers);
  }

  lemma SameChecks(c: Config, c': Config, entries: seq<Entry<PrinterBody>>)
    requires SameContents(c.formats, c'.formats) && SameContents(c.templates, c'.templates)
    ensures Checked(c, entries) == Checked(c', entries)
  {
    forall i | 0 <= i < |entries|
      ensures RefersWell(c, entries[i].item.body) == RefersWell(c', entries[i].item.body)
    {
      var p := entries[i].item.body;
      if p.format.Some? {
        SameIds(c.formats.rows, c'.formats.rows, p.format.value);
      }
      if p.template.Some? {
        SameIds(c.templates.rows, c'.templates.rows, p.template.value);
      }
    }
  }

  /** A document that imported completely imports completely again, creating no row and changing no
      contents. */
  lemma ReimportKeepsConfig(c: Config, doc: Doc)
    requires Completes(c, doc)
    ensures Completes(ImportUpTo(c, doc), doc)
    ensures var once := ImportUpTo(c, doc);
            var twice := ImportUpTo(once, doc);
            && SameContents(once.formats, twice.formats) && SameContents(once.templates, twice.templates)
            && SameContents(once.printers, twice.printers)
  {
    var once := ImportUpTo(c, doc);
    CompleteItems(c, doc);
    ReimportKeepsContents(c.formats, Items(doc.formats));
    ReimportKeepsContents(c.templates, Items(doc.templates));
    ReimportKeepsContents(c.printers, Items(doc.printers));
    SameChecks(WithTemplates(c, doc), WithTemplates(once, doc), doc.printers);
  }

  // ---------------------------------------------------------------- requests

  datatype Request =
    | CreateFormat(format: Item<FormatBody>)
    | UpdateFormat(id: nat, version: int, format: Item<FormatBody>)
    | DeleteFormat(id: nat)
    | CreateTemplate(template: Item<TemplateBody>)
    | UpdateTemplate(id: nat, version: int, template: Item<TemplateBody>)
    | DeleteTemplate(id: nat)
    | CreatePrinter(printer: Item<PrinterBody>)
    | UpdatePrinter(id: nat, version: int, printer: Item<PrinterBody>)
    | DeletePrinter(id: nat)
    | SetCapabilities(id: nat, capabilities: string)
    | MergeParams(id: nat, patch: Params)
    | Import(doc: Doc)

  /** The configuration after a request, and the error it answers with, if any. */
  datatype Outcome = Outcome(config: Config, error: Option<Error>)

  /** Parameters merged in, with no new version. */
  function Patched(t: Table<PrinterBody>, k: nat, patch: Params): Table<PrinterBody>
    requires k < |t.rows|
  {
    var r := t.rows[k];
    t.(rows := t.rows[k := r.(body := r.body.(params := r.body.params + patch))])
  }

  function NoPrinter(e: Error): Error {
    if e == NotFound then UnknownPrinter else e
  }

  function Handled(c: Config, r: Request): Outcome {
    match r
    case CreateFormat(item) => Outcome(c.(formats := Created(c.formats, item)), None)
    case UpdateFormat(id, version, item) => (
      match Updated(c.formats, id, version, item)
      case Ok(t) => Outcome(c.(formats := t), None)
      case Err(e) => Outcome(c, Some(e)))
    case DeleteFormat(id) => (
      match Deleted(c.formats, id, false)
      case Ok(t) => Outcome(c.(formats := t, printers := c.printers.(rows := Unformatted(c.printers.rows, id))), None)
      case Err(e) => Outcome(c, Some(e)))
    case CreateTemplate(item) => Outcome(c.(templates := Created(c.templates, item)), None)
    case UpdateTemplate(id, version, item) => (
      match Updated(c.templates, id, version, item)
      case Ok(t) => Outcome(c.(templates := t), None)
      case Err(e) => Outcome(c, Some(e)))
    case DeleteTemplate(id) => (
      match Deleted(c.templates, id, false)
      case Ok(t) => Outcome(c.(templates := t, printers := c.printers.(rows := Untemplated(c.printers.rows, id))), None)
      case Err(e) => Outcome(c, Some(e)))
    case CreatePrinter(item) =>
      if RefersWell(c, item.body) then Outcome(c.(printers := Created(c.printers, item)), None)
      else Outcome(c, Some(IntegrityError))
    case UpdatePrinter(id, version, item) => (
      match Updated(c.printers, id, version, item)
      case Ok(t) =>
        if RefersWell(c, item.body) then Outcome(c.(printers := t, caps := c.caps - {id}), None)
        else Outcome(c, Some(IntegrityError))
      case Err(e) => Outcome(c, Some(NoPrinter(e))))
    case DeletePrinter(id) => (
      match Deleted(c.printers, id, true)
      case Ok(t) => Outcome(c.(printers := t, caps := c.caps - {id}), None)
      case Err(e) => Outcome(c, Some(NoPrinter(e))))
    case SetCapabilities(id, capabilities) =>
      Outcome(if At(c.printers.rows, id).Some? then c.(caps := c.caps[id := capabilities]) else c, None)
    case MergeParams(id, patch) =>
      var k := At(c.printers.rows, id);
      if k.None? then Outcome(c, Some(UnknownPrinter))
      else Outcome(c.(printers := Patched(c.printers, k.value, patch)), None)
    case Import(doc) =>
      Outcome(ImportUpTo(c, doc), ImportError(c, doc))
  }

  // ---------------------------------------------------------------- requests in plain terms

  /** Row k is the one of that id; there is none if k is the number of rows. */
  predicate RowOf<C>(t: Table<C>, id: nat, k: nat) {
    k <= |t.rows| && forall i :: 0 <= i < |t.rows| ==> (t.rows[i].id == id <==> i == k)
  }

  /** Whether a printer's references lead anywhere. */
  predicate Leads(c: Config, p: PrinterBody) {
    && (p.format.Some? ==> exists i :: 0 <= i < |c.formats.rows| && c.formats.rows[i].id == p.format.value)
    && (p.template.Some? ==> exists i :: 0 <= i < |c.templates.rows| && c.templates.rows[i].id == p.template.value)
  }

  lemma LeadsExactly(c: Config, p: PrinterBody)
    ensures RefersWell(c, p) <==> Leads(c, p)
  {
  }

  lemma FormatRequestsExactly(c: Config, id: nat, version: int, item: Item<FormatBody>, k: nat)
    requires Sound(c) && RowOf(c.formats, id, k)
    ensures Handled(c, UpdateFormat(id, version, item))
         == if k == |c.formats.rows| then Outcome(c, Some(NotFound))
            else if c.formats.rows[k].version != version then Outcome(c, Some(Conflict))
            else Outcome(c.(formats := Table(c.formats.rows[k := Row(id, item.name, item.body, version + 1)],
                                             c.formats.next)), None)
    ensures Handled(c, CreateFormat(item))
         == Outcome(c.(formats := Table(c.formats.rows + [Row(c.formats.next, item.name, item.body, 1)],
                                        c.formats.next + 1)), None)
  {
    UpdateExactly(c.formats, id, version, item, k);
  }

  lemma TemplateRequestsExactly(c: Config, id: nat, version: int, item: Item<TemplateBody>, k: nat)
    requires Sound(c) && RowOf(c.templates, id, k)
    ensures Handled(c, UpdateTemplate(id, version, item))
         == if k == |c.templates.rows| then Outcome(c, Some(NotFound))
            else if c.templates.rows[k].version != version then Outcome(c, Some(Conflict))
            else Outcome(c.(templates := Table(c.templates.rows[k := Row(id, item.name, item.body, version + 1)],
                                               c.templates.next)), None)
    ensures Handled(c, CreateTemplate(item))
         == Outcome(c.(templates := Table(c.templates.rows + [Row(c.templates.next, item.name, item.body, 1)],
                                          c.templates.next + 1)), None)
  {
    UpdateExactly(c.templates, id, version, item, k);
  }

  lemma PrinterRequestsExactly(c: Config, id: nat, version: int, item: Item<PrinterBody>, k: nat)
    requires Sound(c) && RowOf(c.printers, id, k)
    ensures Handled(c, UpdatePrinter(id, version, item))
         == if k == |c.printers.rows| then Outcome(c, Some(UnknownPrinter))
            else if c.printers.rows[k].version != version then Outcome(c, Some(Conflict))
            else if !Leads(c, item.body) then Outcome(c, Some(IntegrityError))
            else Outcome(c.(printers := Table(c.printers.rows[k := Row(id, item.name, item.body, version + 1)],
                                              c.printers.next), caps := c.caps - {id}), None)
    ensures Handled(c, CreatePrinter(item))
         == if !Leads(c, item.body) then Outcome(c, Some(IntegrityError))
            else Outcome(c.(printers := Table(c.printers.rows + [Row(c.printers.next, item.name, item.body, 1)],
                                              c.printers.next + 1)), None)
  {
    LeadsExactly(c, item.body);
    UpdateExactly(c.printers, id, version, item, k);
  }

  /** What is kept about a printer beside its versioned columns. */
  lemma PrinterCallsExactly(c: Config, id: nat, capabilities: string, patch: Params, k: nat)
    requires Sound(c) && RowOf(c.printers, id, k)
    ensures Handled(c, SetCapabilities(id, capabilities))
         == Outcome(if k == |c.printers.rows| then c else c.(caps := c.caps[id := capabilities]), None)
    ensures var merged := Handled(c, MergeParams(id, patch));
            if k == |c.printers.rows| then merged == Outcome(c, Some(UnknownPrinter))
            else
              var row := c.printers.rows[k];
              && merged.error == None
              && merged.config == c.(printers := c.printers.(rows := merged.config.printers.rows))
              && |merged.config.printers.rows| == |c.printers.rows|
              && (forall i :: 0 <= i < |c.printers.rows| && i != k ==>
                    merged.config.printers.rows[i] == c.printers.rows[i])
              && var params := merged.config.printers.rows[k].body.params;
                 && merged.config.printers.rows[k] == row.(body := row.body.(params := params))
                 && params.Keys == row.body.params.Keys + patch.Keys
                 && forall p :: p in params ==> params[p] == if p in patch then patch[p] else row.body.params[p]
  {
    AtIs(c.printers.rows, id, k);
  }

  /** Deleting a format clears every reference to it and touches nothing else. */
  lemma FormatDeletionExactly(c: Config, id: nat, k: nat)
    requires Sound(c) && RowOf(c.formats, id, k) && k < |c.formats.rows|
    ensures var done := Handled(c, DeleteFormat(id));
            && done.error == None
            && done.config == c.(formats := Table(c.formats.rows[..k] + c.formats.rows[k + 1..], c.formats.next),
                                 printers := c.printers.(rows := done.config.printers.rows))
            && |done.config.printers.rows| == |c.printers.rows|
            && forall i :: 0 <= i < |c.printers.rows| ==>
                 var row := c.printers.rows[i];
                 done.config.printers.rows[i]
                 == row.(body := row.body.(format := if row.body.format == Some(id) then None else row.body.format))
  {
    DeleteExactly(c.formats, id, false, k);
  }

  /** The same for a template. */
  lemma TemplateDeletionExactly(c: Config, id: nat, k: nat)
    requires Sound(c) && RowOf(c.templates, id, k) && k < |c.templates.rows|
    ensures var done := Handled(c, DeleteTemplate(id));
            && done.error == None
            && done.config == c.(templates := Table(c.templates.rows[..k] + c.templates.rows[k + 1..],
                                                    c.templates.next),
                                 printers := c.printers.(rows := done.config.printers.rows))
            && |done.config.printers.rows| == |c.printers.rows|
            && forall i :: 0 <= i < |c.printers.rows| ==>
                 var row := c.printers.rows[i];
                 done.config.printers.rows[i]
                 == row.(body := row.body.(template := if row.body.template == Some(id) then None
                                                       else row.body.template))
  {
    DeleteExactly(c.templates, id, false, k);
  }

  /** Deleting a printer drops its cached capabilities too; an unknown id is an error, whatever it was of. */
  lemma PrinterDeletionExactly(c: Config, id: nat, k: nat)
    requires Sound(c) && RowOf(c.printers, id, k)
    ensures Handled(c, DeletePrinter(id))
         == if k == |c.printers.rows| then Outcome(c, Some(UnknownPrinter))
            else Outcome(c.(printers := Table(c.printers.rows[..k] + c.printers.rows[k + 1..],
                                              if |c.printers.rows| == 1 then 1 else c.printers.next),
                            caps := c.caps - {id}), None)
    ensures RowOf(c.formats, id, |c.formats.rows|) ==> Handled(c, DeleteFormat(id)) == Outcome(c, Some(NotFound))
    ensures RowOf(c.templates, id, |c.templates.rows|) ==>
              Handled(c, DeleteTemplate(id)) == Outcome(c, Some(NotFound))
  {
    DeleteExactly(c.printers, id, true, k);
  }

  /** The place of the first entry that validation refuses, or how many there are. */
  predicate FirstInvalid<C>(entries: seq<Entry<C>>, k: nat) {
    && k <= |entries| && (forall i :: 0 <= i < k ==> entries[i].valid)
    && (k < |entries| ==> !entries[k].valid)
  }

  /** The place of the first printer that validation or the database refuses. */
  predicate FirstRefused(c: Config, entries: seq<Entry<PrinterBody>>, k: nat) {
    && k <= |entries| && (forall i :: 0 <= i < k ==> entries[i].valid && Leads(c, entries[i].item.body))
    && (k < |entries| ==> !entries[k].valid || !Leads(c, entries[k].item.body))
  }

  /** An import in plain terms: formats, then templates, then printers, each up to its first refused item; there it
      stops with that item's error, and what it wrote stays. */
  lemma ImportStopsInFormats(c: Config, doc: Doc, k: nat)
    requires FirstInvalid(doc.formats, k) && k < |doc.formats|
    ensures ImportUpTo(c, doc) == c.(formats := Imported(c.formats, Items(doc.formats)[..k]))
    ensures ImportError(c, doc) == Some(ValidationError)
  {
    FirstValid(doc.formats, k);
    assert TemplatesIn(doc) == [] && PrintersIn(c, doc) == [];
    WritesUpTo(c, doc, FormatsIn(doc), [], []);
  }

  lemma FirstValid<C>(entries: seq<Entry<C>>, k: nat)
    requires FirstInvalid(entries, k)
    ensures Usable(entries) == Items(entries)[..k] && |Usable(entries)| == k
    ensures k == |entries| ==> Usable(entries) == Items(entries)
  {
    UsableStops(entries, k);
    assert Items(entries)[..|entries|] == Items(entries);
  }

  /** What an import has written when these are the items accepted. */
  lemma WritesUpTo(c: Config, doc: Doc, formats: seq<Item<FormatBody>>, templates: seq<Item<TemplateBody>>,
                   printers: seq<Item<PrinterBody>>)
    requires FormatsIn(doc) == formats && TemplatesIn(doc) == templates && PrintersIn(c, doc) == printers
    ensures ImportUpTo(c, doc)
         == c.(formats := Imported(c.formats, formats), templates := Imported(c.templates, templates),
               printers := Imported(c.printers, printers), caps := Cleared(c.printers, printers, c.caps))
    ensures templates == [] ==> Imported(c.templates, templates) == c.templates
    ensures printers == [] ==>
              Imported(c.printers, printers) == c.printers && Cleared(c.printers, printers, c.caps) == c.caps
  {
  }

  lemma TemplatesAccepted(c: Config, doc: Doc, k: nat)
    requires FirstInvalid(doc.formats, |doc.formats|) && FirstInvalid(doc.templates, k)
    ensures FormatsIn(doc) == Items(doc.formats) && TemplatesIn(doc) == Items(doc.templates)[..k]
    ensures k < |doc.templates| ==> PrintersIn(c, doc) == [] && ImportError(c, doc) == Some(ValidationError)
    ensures k == |doc.templates| ==> TemplatesIn(doc) == Items(doc.templates)
  {
    FirstValid(doc.formats, |doc.formats|);
    FirstValid(doc.templates, k);
  }

  lemma ImportStopsInTemplates(c: Config, doc: Doc, k: nat)
    requires FirstInvalid(doc.formats, |doc.formats|) && FirstInvalid(doc.templates, k) && k < |doc.templates|
    ensures ImportUpTo(c, doc)
         == c.(formats := Imported(c.formats, Items(doc.formats)),
               templates := Imported(c.templates, Items(doc.templates)[..k]))
    ensures ImportError(c, doc) == Some(ValidationError)
  {
    TemplatesAccepted(c, doc, k);
    WritesUpTo(c, doc, Items(doc.formats), Items(doc.templates)[..k], []);
  }

  lemma PrintersAccepted(c: Config, doc: Doc, c': Config, k: nat)
    requires FormatsIn(doc) == Items(doc.formats) && TemplatesIn(doc) == Items(doc.templates)
    requires WithTemplates(c, doc) == c' && FirstRefused(c', doc.printers, k)
    ensures PrintersIn(c, doc) == Items(doc.printers)[..k]
    ensures ImportError(c, doc) == (if k == |doc.printers| then None
                                    else if doc.printers[k].valid then Some(IntegrityError)
                                    else Some(ValidationError))
  {
    RefusedStops(c', doc.printers, k);
  }

  lemma ImportReachesPrinters(c: Config, doc: Doc, c': Config, k: nat)
    requires FirstInvalid(doc.formats, |doc.formats|) && FirstInvalid(doc.templates, |doc.templates|)
    requires c' == c.(formats := Imported(c.formats, Items(doc.formats)),
                      templates := Imported(c.templates, Items(doc.templates)))
    requires FirstRefused(c', doc.printers, k)
    ensures var items := Items(doc.printers)[..k];
            ImportUpTo(c, doc)
            == c'.(printers := Imported(c.printers, items), caps := Cleared(c.printers, items, c.caps))
    ensures ImportError(c, doc) == (if k == |doc.printers| then None
                                    else if doc.printers[k].valid then Some(IntegrityError)
                                    else Some(ValidationError))
  {
    TemplatesAccepted(c, doc, |doc.templates|);
    PrintersAccepted(c, doc, c', k);
    WritesUpTo(c, doc, Items(doc.formats), Items(doc.templates), Items(doc.printers)[..k]);
  }

  lemma ImportAnswers(c: Config, doc: Doc)
    ensures Handled(c, Import(doc)) == Outcome(ImportUpTo(c, doc), ImportError(c, doc))
  {
  }

  lemma RefusedStops(c: Config, entries: seq<Entry<PrinterBody>>, k: nat)
    requires FirstRefused(c, entries, k)
    ensures Usable(Checked(c, entries)) == Items(entries)[..k] && |Usable(Checked(c, entries))| == k
  {
    forall i | 0 <= i < |entries|
      ensures Checked(c, entries)[i].valid <==> entries[i].valid && Leads(c, entries[i].item.body)
    {
      LeadsExactly(c, entries[i].item.body);
    }
    UsableStops(Checked(c, entries), k);
    assert Items(Checked(c, entries)) == Items(entries);
  }

  /** Versions do not cover references: deleting a format changes every printer that referred to it but
      not its version, so a write prepared before the deletion is still accepted. */
  lemma DeletionKeepsVersions(c: Config, id: nat, k: nat, stale: Item<PrinterBody>)
    requires Sound(c) && At(c.formats.rows, id).Some?
    requires k < |c.printers.rows| && c.printers.rows[k].body.format == Some(id)
    ensures var c', row := Handled(c, DeleteFormat(id)).config, c.printers.rows[k];
            && c'.printers.rows[k] == row.(body := row.body.(format := None))
            && Updated(c'.printers, row.id, row.version, stale).Ok?
  {
    var c' := Handled(c, DeleteFormat(id)).config;
    OnlyAt(c.printers, k);
    SameIds(c.printers.rows, c'.printers.rows, c.printers.rows[k].id);
  }

  // ---------------------------------------------------------------- no dangling references

  lemma FormatsKept(c: Config, t: Table<FormatBody>)
    requires Sound(c) && Ordered(t) && KeepsIds(c.formats, t)
    ensures Sound(c.(formats := t))
  {
    forall k | 0 <= k < |c.printers.rows|
      ensures RefersWell(c.(formats := t), c.printers.rows[k].body)
    {
      assert RefersWell(c, c.printers.rows[k].body);
    }
  }

  lemma TemplatesKept(c: Config, t: Table<TemplateBody>)
    requires Sound(c) && Ordered(t) && KeepsIds(c.templates, t)
    ensures Sound(c.(templates := t))
  {
    forall k | 0 <= k < |c.printers.rows|
      ensures RefersWell(c.(templates := t), c.printers.rows[k].body)
    {
      assert RefersWell(c, c.printers.rows[k].body);
    }
  }

  lemma FormatDropped(c: Config, id: nat)
    requires Sound(c) && At(c.formats.rows, id).Some?
    ensures Sound(Handled(c, DeleteFormat(id)).config)
  {
    var c' := Handled(c, DeleteFormat(id)).config;
    DeletedKeeps(c.formats, id, false);
    forall k | 0 <= k < |c'.printers.rows|
      ensures RefersWell(c', c'.printers.rows[k].body)
    {
      assert RefersWell(c, c.printers.rows[k].body);
    }
    SamePrinterIds(c, c');
  }

  lemma TemplateDropped(c: Config, id: nat)
    requires Sound(c) && At(c.templates.rows, id).Some?
    ensures Sound(Handled(c, DeleteTemplate(id)).config)
  {
    var c' := Handled(c, DeleteTemplate(id)).config;
    DeletedKeeps(c.templates, id, false);
    forall k | 0 <= k < |c'.printers.rows|
      ensures RefersWell(c', c'.printers.rows[k].body)
    {
      assert RefersWell(c, c.printers.rows[k].body);
    }
    SamePrinterIds(c, c');
  }

  lemma SamePrinterIds(c: Config, c': Config)
    requires Sound(c) && c'.caps == c.caps && |c'.printers.rows| == |c.printers.rows|
    requires forall k :: 0 <= k < |c.printers.rows| ==> c.printers.rows[k].id == c'.printers.rows[k].id
    ensures forall id :: id in c'.caps ==> At(c'.printers.rows, id).Some?
  {
    forall id | id in c'.caps
      ensures At(c'.printers.rows, id).Some?
    {
      SameIds(c.printers.rows, c'.printers.rows, id);
    }
  }

  lemma PrinterAdded(c: Config, item: Item<PrinterBody>)
    requires Sound(c) && RefersWell(c, item.body)
    ensures Sound(c.(printers := Created(c.printers, item)))
  {
    CreatedKeeps(c.printers, item);
    var c' := c.(printers := Created(c.printers, item));
    assert forall k :: 0 <= k < |c.printers.rows| ==> c'.printers.rows[k] == c.printers.rows[k];
    assert forall k :: 0 <= k < |c'.printers.rows| ==> RefersWell(c, c'.printers.rows[k].body);
  }

  lemma PrinterReplaced(c: Config, k: nat, item: Item<PrinterBody>)
    requires Sound(c) && RefersWell(c, item.body) && k < |c.printers.rows|
    ensures Sound(c.(printers := Replaced(c.printers, k, item), caps := c.caps - {c.printers.rows[k].id}))
  {
    ReplacedKeeps(c.printers, k, item);
    var t := Replaced(c.printers, k, item);
    assert forall i :: 0 <= i < |t.rows| ==> RefersWell(c, t.rows[i].body);
  }

  lemma PrinterPatched(c: Config, k: nat, patch: Params)
    requires Sound(c) && k < |c.printers.rows|
    ensures Sound(c.(printers := Patched(c.printers, k, patch)))
  {
    var c' := c.(printers := Patched(c.printers, k, patch));
    SamePrinterIds(c, c');
    forall i | 0 <= i < |c'.printers.rows|
      ensures RefersWell(c', c'.printers.rows[i].body)
    {
      assert RefersWell(c, c.printers.rows[i].body);
    }
  }

  lemma PrinterDropped(c: Config, id: nat)
    requires Sound(c) && At(c.printers.rows, id).Some?
    ensures Sound(Handled(c, DeletePrinter(id)).config)
  {
    DeletedKeeps(c.printers, id, true);
    var c', gone := Handled(c, DeletePrinter(id)).config, At(c.printers.rows, id).value;
    forall k | 0 <= k < |c'.printers.rows|
      ensures RefersWell(c', c'.printers.rows[k].body)
    {
      assert c'.printers.rows[k] == c.printers.rows[if k < gone then k else k + 1];
    }
  }

  lemma {:induction false} PrintersImported(c: Config, items: seq<Item<PrinterBody>>)
    requires Sound(c) && forall i :: 0 <= i < |items| ==> RefersWell(c, items[i].body)
    ensures Sound(c.(printers := Imported(c.printers, items), caps := Cleared(c.printers, items, c.caps)))
  {
    if items != [] {
      var before, item := items[..|items| - 1], items[|items| - 1];
      PrintersImported(c, before);
      var c' := c.(printers := Imported(c.printers, before), caps := Cleared(c.printers, before, c.caps));
      var k := Find(c'.printers.rows, item.name);
      if k.Some? {
        PrinterReplaced(c', k.value, item);
      } else {
        PrinterAdded(c', item);
      }
    }
  }

  lemma ImportStaysSound(c: Config, doc: Doc)
    requires Sound(c)
    ensures Sound(ImportUpTo(c, doc))
  {
    ImportedKeeps(c.formats, FormatsIn(doc));
    FormatsKept(c, Imported(c.formats, FormatsIn(doc)));
    var c1 := c.(formats := Imported(c.formats, FormatsIn(doc)));
    ImportedKeeps(c.templates, TemplatesIn(doc));
    TemplatesKept(c1, Imported(c.templates, TemplatesIn(doc)));
    var c2 := WithTemplates(c, doc);
    PrintersImported(c2, PrintersIn(c, doc));
  }

  /** No request, an import that stops half way included, leaves a printer that refers to a missing format
      or template, cached capabilities of a missing printer, or ids out of order. */
  lemma RequestsStaySound(c: Config, r: Request)
    requires Sound(c)
    ensures Sound(Handled(c, r).config)
  {
    if Handled(c, r).config != c {
      match r
      case CreateFormat(item) =>
        CreatedKeeps(c.formats, item);
        FormatsKept(c, Created(c.formats, item));
      case UpdateFormat(id, _, item) =>
        ReplacedKeeps(c.formats, At(c.formats.rows, id).value, item);
        FormatsKept(c, Handled(c, r).config.formats);
      case DeleteFormat(id) => FormatDropped(c, id);
      case CreateTemplate(item) =>
        CreatedKeeps(c.templates, item);
        TemplatesKept(c, Created(c.templates, item));
      case UpdateTemplate(id, _, item) =>
        ReplacedKeeps(c.templates, At(c.templates.rows, id).value, item);
        TemplatesKept(c, Handled(c, r).config.templates);
      case DeleteTemplate(id) => TemplateDropped(c, id);
      case CreatePrinter(item) => PrinterAdded(c, item);
      case UpdatePrinter(id, _, item) => PrinterReplaced(c, At(c.printers.rows, id).value, item);
      case DeletePrinter(id) => PrinterDropped(c, id);
      case SetCapabilities(_, _) =>
      case MergeParams(id, patch) => PrinterPatched(c, At(c.printers.rows, id).value, patch);
      case Import(doc) => ImportStaysSound(c, doc);
    }
  }
}

/** The registry object, its tables updated in place. */
module Registry {
  import opened Basics
  import opened ConfigTable
  import opened ConfigRules

  class Registry {
    var formats: Table<FormatBody>
    var templates: Table<TemplateBody>
    var printers: Table<PrinterBody>
    var caps: map<nat, string>

    function View(): Config
      reads this
    {
      Config(formats, templates, printers, caps)
    }

    constructor ()
      ensures View() == Config(Table([], 1), Table([], 1), Table([], 1), map[])
    {
      formats, templates, printers, caps := Table([], 1), Table([], 1), Table([], 1), map[];
    }

    method CreateFormat(item: Item<FormatBody>)
      modifies this
      ensures View() == Handled(old(View()), Request.CreateFormat(item)).config
    {
      formats := Table(formats.rows + [Row(formats.next, item.name, item.body, 1)], formats.next + 1);
    }

    method UpdateFormat(id: nat, version: int, item: Item<FormatBody>) returns (error: Option<Error>)
      modifies this
      ensures Outcome(View(), error) == Handled(old(View()), Request.UpdateFormat(id, version, item))
    {
      var k := At(formats.rows, id);
      if k.None? {
        return Some(NotFound);
      }
      var current := formats.rows[k.value];
      if current.version != version {
        return Some(Conflict);
      }
      var row := Row(id, item.name, item.body, current.version + 1);
      formats := Table(formats.rows[k.value := row], formats.next);
      error := None;
    }

    method DeleteFormat(id: nat) returns (error: Option<Error>)
      modifies this
      ensures Outcome(View(), error) == Handled(old(View()), Request.DeleteFormat(id))
    {
      var k := At(formats.rows, id);
      if k.None? {
        return Some(NotFound);
      }
      formats := Table(formats.rows[..k.value] + formats.rows[k.value + 1..], formats.next);
      printers := Table(Unformatted(printers.rows, id), printers.next);
      error := None;
    }

    method CreateTemplate(item: Item<TemplateBody>)
      modifies this
      ensures View() == Handled(old(View()), Request.CreateTemplate(item)).config
    {
      templates := Table(templates.rows + [Row(templates.next, item.name, item.body, 1)], templates.next + 1);
    }

    method UpdateTemplate(id: nat, version: int, item: Item<TemplateBody>) returns (error: Option<Error>)
      modifies this
      ensures Outcome(View(), error) == Handled(old(View()), Request.UpdateTemplate(id, version, item))
    {
      var k := At(templates.rows, id);
      if k.None? {
        return Some(NotFound);
      }
      var current := templates.rows[k.value];
      if current.version != version {
        return Some(Conflict);
      }
      var row := Row(id, item.name, item.body, current.version + 1);
      templates := Table(templates.rows[k.value := row], templates.next);
      error := None;
    }

    method DeleteTemplate(id: nat) returns (error: Option<Error>)
      modifies this
      ensures Outcome(View(), error) == Handled(old(View()), Request.DeleteTemplate(id))
    {
      var k := At(templates.rows, id);
      if k.None? {
        return Some(NotFound);
      }
      templates := Table(templates.rows[..k.value] + templates.rows[k.value + 1..], templates.next);
      printers := Table(Untemplated(printers.rows, id), printers.next);
      error := None;
    }

    method CreatePrinter(item: Item<PrinterBody>) returns (error: Option<Error>)
      modifies this
      ensures Outcome(View(), error) == Handled(old(View()), Request.CreatePrinter(item))
    {
      if !RefersWell(View(), item.body) {
        return Some(IntegrityError);
      }
      printers := Table(printers.rows + [Row(printers.next, item.name, item.body, 1)], printers.next + 1);
      error := None;
    }

    method UpdatePrinter(id: nat, version: int, item: Item<PrinterBody>) returns (error: Option<Error>)
      modifies this
      ensures Outcome(View(), error) == Handled(old(View()), Request.UpdatePrinter(id, version, item))
    {
      var k := At(printers.rows, id);
      if k.None? {
        return Some(UnknownPrinter);
      }
      var current := printers.rows[k.value];
      if current.version != version {
        return Some(Conflict);
      }
      if !RefersWell(View(), item.body) {
        return Some(IntegrityError);
      }
      var row := Row(id, item.name, item.body, current.version + 1);
      printers := Table(printers.rows[k.value := row], printers.next);
      caps := caps - {id};
      error := None;
    }

    method DeletePrinter(id: nat) returns (error: Option<Error>)
      modifies this
      ensures Outcome(View(), error) == Handled(old(View()), Request.DeletePrinter(id))
    {
      var k := At(printers.rows, id);
      if k.None? {
        return Some(UnknownPrinter);
      }
      var left := printers.rows[..k.value] + printers.rows[k.value + 1..];
      printers := Table(left, printers.next);
      if |left| == 0 {
        printers := printers.(next := 1);
      }
      caps := caps - {id};
      error := None;
    }

    method SetCapabilities(id: nat, capabilities: string)
      modifies this
      ensures View() == Handled(old(View()), Request.SetCapabilities(id, capabilities)).config
    {
      if At(printers.rows, id).Some? {
        caps := caps[id := capabilities];
      }
    }

    method UpdatePrinterParams(id: nat, patch: Params) returns (error: Option<Error>)
      modifies this
      ensures Outcome(View(), error) == Handled(old(View()), Request.MergeParams(id, patch))
    {
      var k := At(printers.rows, id);
      if k.None? {
        return Some(UnknownPrinter);
      }
      var row := printers.rows[k.value];
      var params := row.body.params + patch;
      printers := Table(printers.rows[k.value := row.(body := row.body.(params := params))], printers.next);
      error := None;
    }

    // -------------------------------------------------------------- import

    method UpsertFormat(item: Item<FormatBody>)
      requires Ordered(formats)
      modifies this
      ensures View() == old(View()).(formats := Upserted(old(formats), item))
    {
      var existing := Find(formats.rows, item.name);
      if existing.Some? {
        var current := formats.rows[existing.value];
        OnlyAt(formats, existing.value);
        var _ := UpdateFormat(current.id, current.version, item);
      } else {
        CreateFormat(item);
      }
    }

    method UpsertTemplate(item: Item<TemplateBody>)
      requires Ordered(templates)
      modifies this
      ensures View() == old(View()).(templates := Upserted(old(templates), item))
    {
      var existing := Find(templates.rows, item.name);
      if existing.Some? {
        var current := templates.rows[existing.value];
        OnlyAt(templates, existing.value);
        var _ := UpdateTemplate(current.id, current.version, item);
      } else {
        CreateTemplate(item);
      }
    }

    method UpsertPrinter(item: Item<PrinterBody>) returns (error: Option<Error>)
      requires Ordered(printers)
      modifies this
      ensures error == if RefersWell(old(View()), item.body) then None else Some(IntegrityError)
      ensures View() == if error.Some? then old(View()) else PrinterUpserted(old(View()), item)
    {
      var existing := Find(printers.rows, item.name);
      if existing.Some? {
        var current := printers.rows[existing.value];
        OnlyAt(printers, existing.value);
        error := UpdatePrinter(current.id, current.version, item);
      } else {
        error := CreatePrinter(item);
      }
    }

    /** Counts what an import would do, then, unless it is a dry run, upserts item by item by name. */
    method ImportYaml(doc: Doc, dryRun: bool) returns (r: Result<Plan>)
      requires Sound(View())
      modifies this
      ensures dryRun ==> View() == old(View()) && r == Ok(PlanOf(old(View()), doc))
      ensures !dryRun ==> match r
                          case Ok(plan) => plan == PlanOf(old(View()), doc)
                                           && Outcome(View(), None) == Handled(old(View()), Request.Import(doc))
                          case Err(e) => Outcome(View(), Some(e)) == Handled(old(View()), Request.Import(doc))
    {
      var fs := SplitItems(formats, doc.formats);
      var ts := SplitItems(templates, doc.templates);
      var ps := SplitItems(printers, doc.printers);
      var plan := Plan(fs, ts, ps);
      if dryRun {
        return Ok(plan);
      }
      var complete := ImportFormats(doc);
      if complete {
        complete := ImportTemplates(doc);
      }
      if !complete {
        return Err(ValidationError);
      }
      var error := ImportPrinters(doc);
      r := if error.Some? then Err(error.value) else Ok(plan);
    }

    method ImportFormats(doc: Doc) returns (complete: bool)
      requires Ordered(formats)
      modifies this
      ensures View() == old(View()).(formats := Imported(old(formats), Usable(doc.formats)))
      ensures complete <==> |Usable(doc.formats)| == |doc.formats|
    {
      ghost var before := View();
      SofarStarts(formats, doc.formats);
      for i := 0 to |doc.formats|
        invariant Sofar(before.formats, formats, doc.formats, i)
        invariant View() == before.(formats := formats)
      {
        if !doc.formats[i].valid {
          SofarEnds(before.formats, formats, doc.formats, i);
          return false;
        }
        SofarNext(before.formats, formats, doc.formats, i);
        UpsertFormat(doc.formats[i].item);
      }
      SofarEnds(before.formats, formats, doc.formats, |doc.formats|);
      complete := true;
    }

    method ImportTemplates(doc: Doc) returns (complete: bool)
      requires Ordered(templates)
      modifies this
      ensures View() == old(View()).(templates := Imported(old(templates), Usable(doc.templates)))
      ensures complete <==> |Usable(doc.templates)| == |doc.templates|
    {
      ghost var before := View();
      SofarStarts(templates, doc.templates);
      for i := 0 to |doc.templates|
        invariant Sofar(before.templates, templates, doc.templates, i)
        invariant View() == before.(templates := templates)
      {
        if !doc.templates[i].valid {
          SofarEnds(before.templates, templates, doc.templates, i);
          return false;
        }
        SofarNext(before.templates, templates, doc.templates, i);
        UpsertTemplate(doc.templates[i].item);
      }
      SofarEnds(before.templates, templates, doc.templates, |doc.templates|);
      complete := true;
    }

    method ImportPrinters(doc: Doc) returns (error: Option<Error>)
      requires Ordered(printers)
      modifies this
      ensures View() == PrintersUpserted(old(View()), Usable(Checked(old(View()), doc.printers)))
      ensures error == ConfigRules.PrinterError(doc.printers, |Usable(Checked(old(View()), doc.printers))|)
    {
      ghost var before := View();
      ghost var checked := Checked(before, doc.printers);
      for i := 0 to |doc.printers|
        invariant forall j :: 0 <= j < i ==> checked[j].valid
        invariant View() == PrintersUpserted(before, Items(checked)[..i])
      {
        var entry := doc.printers[i];
        if !entry.valid {
          UsableStops(checked, i);
          return Some(ValidationError);
        }
        ImportedKeeps(before.printers, Items(checked)[..i]);
        assert Items(checked)[..i + 1][..i] == Items(checked)[..i];
        SameReferences(before, View(), entry.item.body);
        error := UpsertPrinter(entry.item);
        if error.Some? {
          UsableStops(checked, i);
          return;
        }
      }
      UsableStops(checked, |checked|);
      error := None;
    }
  }

  method SplitItems<C>(t: Table<C>, entries: seq<Entry<C>>) returns (s: Split)
    ensures s == SplitOf(t, entries)
  {
    var create, update := 0, 0;
    ghost var items := Items(entries);
    for i := 0 to |entries|
      invariant create == PlannedCreates(t, items[..i]) && create + update == i
    {
      assert items[..i + 1][..i] == items[..i];
      if Find(t.rows, entries[i].item.name).Some? {
        update := update + 1;
      } else {
        create := create + 1;
      }
    }
    assert items[..|entries|] == items;
    s := Split(create, update);
  }

  lemma SameReferences(c: Config, c': Config, p: PrinterBody)
    requires c.formats == c'.formats && c.templates == c'.templates
    ensures RefersWell(c, p) == RefersWell(c', p)
  {
  }
}
