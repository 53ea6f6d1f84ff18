/** Optimistic concurrency over whole runs of registry requests (app/registry.py): what an accepted version
    says of the row it is about. */
module ConfigRuns {
  import opened Basics
  import opened ConfigTable
  import opened ConfigRules

  function AfterAll(c: Config, reqs: seq<Request>): Config {
    if reqs == [] then c else Handled(AfterAll(c, reqs[..|reqs| - 1]), reqs[|reqs| - 1]).config
  }

  lemma {:induction false} RunStaysSound(c: Config, reqs: seq<Request>)
    requires Sound(c)
    ensures Sound(AfterAll(c, reqs))
  {
    if reqs != [] {
      RunStaysSound(c, reqs[..|reqs| - 1]);
      RequestsStaySound(AfterAll(c, reqs[..|reqs| - 1]), reqs[|reqs| - 1]);
    }
  }

  // ---------------------------------------------------------------- formats and templates

  lemma OpPins<C>(t: Table<C>, op: Op<C>)
    requires Ordered(t)
    ensures Ordered(Ran(t, op, false)) && Pins(t, Ran(t, op, false))
  {
    RanStaysOrdered(t, op, false);
    RanPins(t, op, false);
  }

  lemma {:induction false} ImportPins<C>(t: Table<C>, items: seq<Item<C>>)
    requires Ordered(t)
    ensures Ordered(Imported(t, items)) && Pins(t, Imported(t, items))
  {
    if items == [] {
      PinsItself(t);
    } else {
      var before := Imported(t, items[..|items| - 1]);
      ImportPins(t, items[..|items| - 1]);
      OpPins(before, Upsert(items[|items| - 1]));
      PinsOn(t, before, Imported(t, items));
    }
  }

  lemma FormatsPin(c: Config, r: Request)
    requires Sound(c)
    ensures Pins(c.formats, Handled(c, r).config.formats)
  {
    PinsItself(c.formats);
    match r
    case CreateFormat(item) => OpPins(c.formats, Create(item));
    case UpdateFormat(id, version, item) => OpPins(c.formats, Update(id, version, item));
    case DeleteFormat(id) => OpPins(c.formats, Delete(id));
    case Import(doc) => ImportPins(c.formats, FormatsIn(doc));
    case _ =>
  }

  lemma TemplatesPin(c: Config, r: Request)
    requires Sound(c)
    ensures Pins(c.templates, Handled(c, r).config.templates)
  {
    PinsItself(c.templates);
    match r
    case CreateTemplate(item) => OpPins(c.templates, Create(item));
    case UpdateTemplate(id, version, item) => OpPins(c.templates, Update(id, version, item));
    case DeleteTemplate(id) => OpPins(c.templates, Delete(id));
    case Import(doc) => ImportPins(c.templates, TemplatesIn(doc));
    case _ =>
  }

  lemma {:induction false} RunPins(c: Config, reqs: seq<Request>)
    requires Sound(c)
    ensures Pins(c.formats, AfterAll(c, reqs).formats) && Pins(c.templates, AfterAll(c, reqs).templates)
  {
    if reqs == [] {
      PinsItself(c.formats);
      PinsItself(c.templates);
    } else {
      var mid, r := AfterAll(c, reqs[..|reqs| - 1]), reqs[|reqs| - 1];
      RunPins(c, reqs[..|reqs| - 1]);
      RunStaysSound(c, reqs[..|reqs| - 1]);
      FormatsPin(mid, r);
      TemplatesPin(mid, r);
      PinsOn(c.formats, mid.formats, Handled(mid, r).config.formats);
      PinsOn(c.templates, mid.templates, Handled(mid, r).config.templates);
    }
  }

  lemma PinnedRow<C>(t: Table<C>, t': Table<C>, k: nat, item: Item<C>)
    requires Ordered(t) && Pins(t, t') && k < |t.rows| && Updated(t', t.rows[k].id, t.rows[k].version, item).Ok?
    ensures t.rows[k] in t'.rows
  {
    assert Continues(t, t'.rows[At(t'.rows, t.rows[k].id).value]);
  }

  /** Formats and templates are always safe: over any run of requests, imports included, an update with a
      version read earlier is accepted only if the row is still the one that was read. */
  lemma FormatsNeverLose(c: Config, reqs: seq<Request>, k: nat, item: Item<FormatBody>)
    requires Sound(c) && k < |c.formats.rows|
    requires Handled(AfterAll(c, reqs), UpdateFormat(c.formats.rows[k].id, c.formats.rows[k].version, item)).error.None?
    ensures c.formats.rows[k] in AfterAll(c, reqs).formats.rows
  {
    RunPins(c, reqs);
    PinnedRow(c.formats, AfterAll(c, reqs).formats, k, item);
  }

  lemma TemplatesNeverLose(c: Config, reqs: seq<Request>, k: nat, item: Item<TemplateBody>)
    requires Sound(c) && k < |c.templates.rows|
    requires Handled(AfterAll(c, reqs), UpdateTemplate(c.templates.rows[k].id, c.templates.rows[k].version, item))
             .error.None?
    ensures c.templates.rows[k] in AfterAll(c, reqs).templates.rows
  {
    RunPins(c, reqs);
    PinnedRow(c.templates, AfterAll(c, reqs).templates, k, item);
  }

  // ---------------------------------------------------------------- printers

  /** A reference that was deleted reads as none. */
  function Aged<C>(t: Table<C>, ref: Option<nat>): Option<nat> {
    if ref.Some? && At(t.rows, ref.value).None? then None else ref
  }

  /** A printer's contents some time later, if no one updated it: parameters as merged meanwhile, deleted
      references cleared. */
  function AgedBody(c: Config, body: PrinterBody, params: Params): PrinterBody {
    PrinterBody(params, Aged(c.formats, body.format), Aged(c.templates, body.template), body.allowRaw)
  }

  function MergedBy(r: Request, id: nat, params: Params): Params {
    if r.MergeParams? && r.id == id then params + r.patch else params
  }

  /** The parameters after the merges a run makes into them. */
  function Merged(reqs: seq<Request>, id: nat, params: Params): Params {
    if reqs == [] then params else MergedBy(reqs[|reqs| - 1], id, Merged(reqs[..|reqs| - 1], id, params))
  }

  predicate RefBelow<C>(t: Table<C>, ref: Option<nat>) {
    ref.Some? ==> ref.value < t.next
  }

  /** What a later configuration holds under the id of a row read earlier: nothing, a later version, or at
      the same version the row itself, aged. */
  ghost predicate Tracks(row: Row<PrinterBody>, c: Config, params: Params) {
    && row.id < c.printers.next && RefBelow(c.formats, row.body.format) && RefBelow(c.templates, row.body.template)
    && forall i :: 0 <= i < |c.printers.rows| && c.printers.rows[i].id == row.id ==>
         TracksRow(row, c, params, c.printers.rows[i])
  }

  predicate TracksRow(row: Row<PrinterBody>, c: Config, params: Params, now: Row<PrinterBody>) {
    now.version > row.version || now == row.(body := AgedBody(c, row.body, params))
  }

  /** No request leaves the printers table empty by deleting its last row. */
  predicate KeepsSome(c: Config, r: Request) {
    r.DeletePrinter? ==> Handled(c, r).config.printers.rows != []
  }

  lemma SameAge<C>(t: Table<C>, t': Table<C>, ref: Option<nat>)
    requires Pins(t, t') && KeepsIds(t, t') && RefBelow(t, ref)
    ensures Aged(t', ref) == Aged(t, ref) && RefBelow(t', ref)
  {
    if ref.Some? && At(t'.rows, ref.value).Some? {
      assert Continues(t, t'.rows[At(t'.rows, ref.value).value]);
    }
  }

  /** Requests that leave the printers alone and delete no format or template. */
  lemma OthersKeepTrack(row: Row<PrinterBody>, c: Config, c': Config, params: Params)
    requires Tracks(row, c, params) && c'.printers == c.printers
    requires Pins(c.formats, c'.formats) && KeepsIds(c.formats, c'.formats)
    requires Pins(c.templates, c'.templates) && KeepsIds(c.templates, c'.templates)
    ensures Tracks(row, c', params)
  {
    SameAge(c.formats, c'.formats, row.body.format);
    SameAge(c.templates, c'.templates, row.body.template);
  }

  lemma DeletedIsGone<C>(t: Table<C>, id: nat)
    requires Ordered(t) && At(t.rows, id).Some?
    ensures At(Deleted(t, id, false).value.rows, id).None?
  {
    var rows, gone := Deleted(t, id, false).value.rows, At(t.rows, id).value;
    forall i | 0 <= i < |rows|
      ensures rows[i].id != id
    {
      assert rows[i] == t.rows[if i < gone then i else i + 1];
    }
  }

  lemma OthersStay<C>(t: Table<C>, id: nat, other: nat)
    requires Ordered(t) && At(t.rows, id).Some? && other != id
    ensures At(Deleted(t, id, false).value.rows, other).Some? <==> At(t.rows, other).Some?
  {
    var rows, gone := Deleted(t, id, false).value.rows, At(t.rows, id).value;
    DeletedKeeps(t, id, false);
    if At(rows, other).Some? {
      var i := At(rows, other).value;
      assert rows[i] == t.rows[if i < gone then i else i + 1];
    }
  }

  lemma AgedByDeletion<C>(t: Table<C>, id: nat, ref: Option<nat>)
    requires Ordered(t) && At(t.rows, id).Some? && RefBelow(t, ref)
    ensures var t' := Deleted(t, id, false).value;
            Aged(t', ref) == (if ref == Some(id) then None else Aged(t, ref)) && RefBelow(t', ref)
  {
    if ref == Some(id) {
      DeletedIsGone(t, id);
    } else if ref.Some? {
      OthersStay(t, id, ref.value);
    }
  }

  lemma FormatDeletionKeepsTrack(row: Row<PrinterBody>, c: Config, id: nat, params: Params)
    requires Sound(c) && Tracks(row, c, params) && At(c.formats.rows, id).Some?
    ensures Tracks(row, Handled(c, DeleteFormat(id)).config, params)
  {
    var c' := Handled(c, DeleteFormat(id)).config;
    AgedByDeletion(c.formats, id, row.body.format);
    forall i | 0 <= i < |c'.printers.rows| && c'.printers.rows[i].id == row.id
      ensures TracksRow(row, c', params, c'.printers.rows[i])
    {
      assert TracksRow(row, c, params, c.printers.rows[i]);
    }
  }

  lemma TemplateDeletionKeepsTrack(row: Row<PrinterBody>, c: Config, id: nat, params: Params)
    requires Sound(c) && Tracks(row, c, params) && At(c.templates.rows, id).Some?
    ensures Tracks(row, Handled(c, DeleteTemplate(id)).config, params)
  {
    var c' := Handled(c, DeleteTemplate(id)).config;
    AgedByDeletion(c.templates, id, row.body.template);
    forall i | 0 <= i < |c'.printers.rows| && c'.printers.rows[i].id == row.id
      ensures TracksRow(row, c', params, c'.printers.rows[i])
    {
      assert TracksRow(row, c, params, c.printers.rows[i]);
    }
  }

  lemma CreationKeepsTrack(row: Row<PrinterBody>, c: Config, item: Item<PrinterBody>, params: Params)
    requires Tracks(row, c, params)
    ensures Tracks(row, c.(printers := Created(c.printers, item)), params)
  {
  }

  lemma ReplacementKeepsTrack(row: Row<PrinterBody>, c: Config, k: nat, item: Item<PrinterBody>, params: Params)
    requires Tracks(row, c, params) && k < |c.printers.rows|
    ensures Tracks(row, c.(printers := Replaced(c.printers, k, item)), params)
  {
    var rows := Replaced(c.printers, k, item).rows;
    forall i | 0 <= i < |rows| && rows[i].id == row.id
      ensures TracksRow(row, c, params, rows[i])
    {
      assert TracksRow(row, c, params, c.printers.rows[i]);
    }
  }

  lemma PatchKeepsTrack(row: Row<PrinterBody>, c: Config, k: nat, patch: Params, params: Params)
    requires Sound(c) && Tracks(row, c, params) && k < |c.printers.rows|
    ensures Tracks(row, c.(printers := Patched(c.printers, k, patch)),
                   if c.printers.rows[k].id == row.id then params + patch else params)
  {
    var c' := c.(printers := Patched(c.printers, k, patch));
    var params' := if c.printers.rows[k].id == row.id then params + patch else params;
    forall i | 0 <= i < |c'.printers.rows| && c'.printers.rows[i].id == row.id
      ensures TracksRow(row, c', params', c'.printers.rows[i])
    {
      assert TracksRow(row, c, params, c.printers.rows[i]);
      assert c.printers.rows[i].id == c.printers.rows[k].id ==> i == k;
    }
  }

  lemma PrinterDeletionKeepsTrack(row: Row<PrinterBody>, c: Config, id: nat, params: Params)
    requires Tracks(row, c, params) && At(c.printers.rows, id).Some? && KeepsSome(c, DeletePrinter(id))
    ensures Tracks(row, Handled(c, DeletePrinter(id)).config, params)
  {
    var c', gone := Handled(c, DeletePrinter(id)).config, At(c.printers.rows, id).value;
    forall i | 0 <= i < |c'.printers.rows| && c'.printers.rows[i].id == row.id
      ensures TracksRow(row, c', params, c'.printers.rows[i])
    {
      assert c'.printers.rows[i] == c.printers.rows[if i < gone then i else i + 1];
    }
  }

  lemma {:induction false} ImportKeepsTrack(row: Row<PrinterBody>, c: Config, items: seq<Item<PrinterBody>>,
                                            params: Params)
    requires Tracks(row, c, params)
    ensures Tracks(row, c.(printers := Imported(c.printers, items)), params)
  {
    if items != [] {
      var before, item := Imported(c.printers, items[..|items| - 1]), items[|items| - 1];
      ImportKeepsTrack(row, c, items[..|items| - 1], params);
      var k := Find(before.rows, item.name);
      if k.Some? {
        ReplacementKeepsTrack(row, c.(printers := before), k.value, item, params);
      } else {
        CreationKeepsTrack(row, c.(printers := before), item, params);
      }
    }
  }

  lemma TracksIgnoresCaps(row: Row<PrinterBody>, c: Config, caps: map<nat, string>, params: Params)
    requires Tracks(row, c, params)
    ensures Tracks(row, c.(caps := caps), params)
  {
  }

  lemma WholeImportKeepsTrack(row: Row<PrinterBody>, c: Config, doc: Doc, params: Params)
    requires Sound(c) && Tracks(row, c, params)
    ensures Tracks(row, ImportUpTo(c, doc), params)
  {
    var c' := WithTemplates(c, doc);
    ImportPins(c.formats, FormatsIn(doc));
    ImportedKeeps(c.formats, FormatsIn(doc));
    ImportPins(c.templates, TemplatesIn(doc));
    ImportedKeeps(c.templates, TemplatesIn(doc));
    OthersKeepTrack(row, c, c', params);
    ImportKeepsTrack(row, c', PrintersIn(c, doc), params);
    TracksIgnoresCaps(row, c'.(printers := Imported(c.printers, PrintersIn(c, doc))), ImportUpTo(c, doc).caps, params);
  }

  lemma FormatWriteKeepsTrack(row: Row<PrinterBody>, c: Config, r: Request, params: Params)
    requires Sound(c) && Tracks(row, c, params) && (r.CreateFormat? || r.UpdateFormat?)
    ensures Tracks(row, Handled(c, r).config, params)
  {
    FormatsPin(c, r);
    PinsItself(c.templates);
    match r
    case CreateFormat(item) =>
      CreatedKeeps(c.formats, item);
      OthersKeepTrack(row, c, Handled(c, r).config, params);
    case UpdateFormat(id, version, item) =>
      if Updated(c.formats, id, version, item).Ok? {
        ReplacedKeeps(c.formats, At(c.formats.rows, id).value, item);
        OthersKeepTrack(row, c, Handled(c, r).config, params);
      }
  }

  lemma TemplateWriteKeepsTrack(row: Row<PrinterBody>, c: Config, r: Request, params: Params)
    requires Sound(c) && Tracks(row, c, params) && (r.CreateTemplate? || r.UpdateTemplate?)
    ensures Tracks(row, Handled(c, r).config, params)
  {
    TemplatesPin(c, r);
    PinsItself(c.formats);
    match r
    case CreateTemplate(item) =>
      CreatedKeeps(c.templates, item);
      OthersKeepTrack(row, c, Handled(c, r).config, params);
    case UpdateTemplate(id, version, item) =>
      if Updated(c.templates, id, version, item).Ok? {
        ReplacedKeeps(c.templates, At(c.templates.rows, id).value, item);
        OthersKeepTrack(row, c, Handled(c, r).config, params);
      }
  }

  lemma PrinterWriteKeepsTrack(row: Row<PrinterBody>, c: Config, r: Request, params: Params)
    requires Sound(c) && Tracks(row, c, params) && KeepsSome(c, r)
    requires r.CreatePrinter? || r.UpdatePrinter? || r.DeletePrinter? || r.SetCapabilities? || r.MergeParams?
    requires Handled(c, r).config != c
    ensures Tracks(row, Handled(c, r).config, MergedBy(r, row.id, params))
  {
    match r
    case CreatePrinter(item) => CreationKeepsTrack(row, c, item, params);
    case UpdatePrinter(id, _, item) =>
      var k := At(c.printers.rows, id).value;
      ReplacementKeepsTrack(row, c, k, item, params);
      TracksIgnoresCaps(row, c.(printers := Replaced(c.printers, k, item)), c.caps - {id}, params);
    case DeletePrinter(id) => PrinterDeletionKeepsTrack(row, c, id, params);
    case SetCapabilities(id, capabilities) => TracksIgnoresCaps(row, c, c.caps[id := capabilities], params);
    case MergeParams(id, patch) => PatchKeepsTrack(row, c, At(c.printers.rows, id).value, patch, params);
  }

  /** A refused merge is about no row: whatever the id, the row read is not there. */
  lemma NothingToMerge(row: Row<PrinterBody>, c: Config, r: Request, params: Params)
    requires Tracks(row, c, params) && r.MergeParams? && At(c.printers.rows, r.id).None?
    ensures Tracks(row, c, MergedBy(r, row.id, params))
  {
  }

  lemma TrackStep(row: Row<PrinterBody>, c: Config, r: Request, params: Params)
    requires Sound(c) && Tracks(row, c, params) && KeepsSome(c, r)
    ensures Tracks(row, Handled(c, r).config, MergedBy(r, row.id, params))
  {
    match r
    case CreateFormat(_) => FormatWriteKeepsTrack(row, c, r, params);
    case UpdateFormat(_, _, _) => FormatWriteKeepsTrack(row, c, r, params);
    case CreateTemplate(_) => TemplateWriteKeepsTrack(row, c, r, params);
    case UpdateTemplate(_, _, _) => TemplateWriteKeepsTrack(row, c, r, params);
    case DeleteFormat(id) =>
      if At(c.formats.rows, id).Some? {
        FormatDeletionKeepsTrack(row, c, id, params);
      }
    case DeleteTemplate(id) =>
      if At(c.templates.rows, id).Some? {
        TemplateDeletionKeepsTrack(row, c, id, params);
      }
    case Import(doc) => WholeImportKeepsTrack(row, c, doc, params);
    case MergeParams(id, patch) =>
      if At(c.printers.rows, id).None? {
        NothingToMerge(row, c, r, params);
      } else {
        PatchKeepsTrack(row, c, At(c.printers.rows, id).value, patch, params);
      }
    case _ =>
      if Handled(c, r).config != c {
        PrinterWriteKeepsTrack(row, c, r, params);
      }
  }

  /** No request of a run deletes the last printer. */
  predicate AllKeepSome(c: Config, reqs: seq<Request>) {
    reqs == [] ||
    (AllKeepSome(c, reqs[..|reqs| - 1]) && KeepsSome(AfterAll(c, reqs[..|reqs| - 1]), reqs[|reqs| - 1]))
  }

  lemma TracksItself(c: Config, k: nat)
    requires Sound(c) && k < |c.printers.rows|
    ensures Tracks(c.printers.rows[k], c, c.printers.rows[k].body.params)
  {
    var row := c.printers.rows[k];
    assert RefersWell(c, row.body);
    forall i | 0 <= i < |c.printers.rows| && c.printers.rows[i].id == row.id
      ensures i == k
    {
    }
  }

  lemma {:induction false} RunTracks(c: Config, reqs: seq<Request>, k: nat)
    requires Sound(c) && k < |c.printers.rows| && AllKeepSome(c, reqs)
    ensures var row := c.printers.rows[k]; Tracks(row, AfterAll(c, reqs), Merged(reqs, row.id, row.body.params))
  {
    var row := c.printers.rows[k];
    if reqs == [] {
      TracksItself(c, k);
    } else {
      var before := reqs[..|reqs| - 1];
      RunTracks(c, before, k);
      RunStaysSound(c, before);
      TrackStep(row, AfterAll(c, before), reqs[|reqs| - 1], Merged(before, row.id, row.body.params));
    }
  }

  /** Printers, over any run of requests in which the last one is never deleted: when an update with the
      version of a row read before the run is accepted, what it overwrites is that row, with the
      parameters merged meanwhile and the references deleted meanwhile cleared, and nothing else changed.
      So it meets a changed row exactly when a format or template the row referred to is gone, or a merge
      changed its parameters. */
  lemma StaleUpdateMeets(c: Config, reqs: seq<Request>, k: nat, item: Item<PrinterBody>)
    requires Sound(c) && k < |c.printers.rows| && AllKeepSome(c, reqs)
    requires Handled(AfterAll(c, reqs), UpdatePrinter(c.printers.rows[k].id, c.printers.rows[k].version, item))
             .error.None?
    ensures var row, c' := c.printers.rows[k], AfterAll(c, reqs);
            var i := At(c'.printers.rows, row.id);
            var params := Merged(reqs, row.id, row.body.params);
            && i.Some?
            && c'.printers.rows[i.value] == row.(body := AgedBody(c', row.body, params))
            && (c'.printers.rows[i.value] != row
                <==> || (row.body.format.Some? && At(c'.formats.rows, row.body.format.value).None?)
                     || (row.body.template.Some? && At(c'.templates.rows, row.body.template.value).None?)
                     || params != row.body.params)
  {
    RunTracks(c, reqs, k);
    var row, c' := c.printers.rows[k], AfterAll(c, reqs);
    var i := At(c'.printers.rows, row.id).value;
    assert TracksRow(row, c', Merged(reqs, row.id, row.body.params), c'.printers.rows[i]);
  }

  // ---------------------------------------------------------------- the last printer deleted

  function AsRequest(op: Op<PrinterBody>): Request {
    match op
    case Create(item) => CreatePrinter(item)
    case Update(id, version, item) => UpdatePrinter(id, version, item)
    case Upsert(item) => CreatePrinter(item)
    case Delete(id) => DeletePrinter(id)
  }

  function AsRequests(ops: seq<Op<PrinterBody>>): seq<Request> {
    seq(|ops|, i requires 0 <= i < |ops| => AsRequest(ops[i]))
  }

  predicate Plain(op: Op<PrinterBody>) {
    op.Delete? || ((op.Create? || op.Update?) && op.item.body.format.None? && op.item.body.template.None?)
  }

  lemma LiftOne(c: Config, op: Op<PrinterBody>)
    requires Plain(op)
    ensures Handled(c, AsRequest(op)).config.printers == Ran(c.printers, op, true)
  {
  }

  lemma AsRequestsLast(ops: seq<Op<PrinterBody>>)
    requires ops != []
    ensures |AsRequests(ops)| == |ops| && AsRequests(ops)[|ops| - 1] == AsRequest(ops[|ops| - 1])
    ensures AsRequests(ops)[..|ops| - 1] == AsRequests(ops[..|ops| - 1])
  {
  }

  /** Requests about printers that refer to nothing do to the printers what the table's operations do. */
  lemma {:induction false} Lift(c: Config, ops: seq<Op<PrinterBody>>)
    requires forall i :: 0 <= i < |ops| ==> Plain(ops[i])
    ensures AfterAll(c, AsRequests(ops)).printers == After(c.printers, ops, true)
  {
    if ops != [] {
      var before, last := ops[..|ops| - 1], ops[|ops| - 1];
      Lift(c, before);
      AsRequestsLast(ops);
      LiftOne(AfterAll(c, AsRequests(before)), last);
    }
  }

  /** A run that leaves only printers made from the item, one of them under the row's id and version. */
  lemma ImpostorRequests(c: Config, k: nat, item: Item<PrinterBody>) returns (reqs: seq<Request>)
    requires Sound(c) && k < |c.printers.rows| && c.printers.rows[k].id >= 1 && c.printers.rows[k].version >= 1
    requires item.body.format.None? && item.body.template.None?
    ensures AfterAll(c, reqs).printers == Raised(item, c.printers.rows[k].id, c.printers.rows[k].version)
  {
    var ops := Impostor(c.printers, k, item);
    reqs := AsRequests(ops);
    Lift(c, ops);
  }

  lemma ImpostorAccepts(c: Config, row: Row<PrinterBody>, item: Item<PrinterBody>)
    requires row.id >= 1 && c.printers == Raised(item, row.id, row.version) && item.name != row.name
    requires item.body.format.None? && item.body.template.None?
    ensures Handled(c, UpdatePrinter(row.id, row.version, item)).error.None?
    ensures At(c.printers.rows, row.id).Some?
         && c.printers.rows[At(c.printers.rows, row.id).value].name != row.name
  {
    RaisedAt(item, row.id, row.version, row);
    RaisedName(item, row.id, row.version);
  }

  /** When the last printer may be deleted, no version is safe: for every printer of every configuration
      some run puts another one under its id and at its version, and an update meant for the first is
      accepted for the second. */
  lemma PrinterUpdateLost(c: Config, k: nat) returns (reqs: seq<Request>, item: Item<PrinterBody>)
    requires Sound(c) && k < |c.printers.rows| && c.printers.rows[k].id >= 1 && c.printers.rows[k].version >= 1
    ensures var row, c' := c.printers.rows[k], AfterAll(c, reqs);
            && Handled(c', UpdatePrinter(row.id, row.version, item)).error.None?
            && At(c'.printers.rows, row.id).Some?
            && c'.printers.rows[At(c'.printers.rows, row.id).value].name != row.name
  {
    var row := c.printers.rows[k];
    item := Item(row.name + "'", row.body.(format := None, template := None));
    assert |item.name| != |row.name|;
    reqs := ImpostorRequests(c, k, item);
    ImpostorAccepts(AfterAll(c, reqs), row, item);
  }

  lemma RaisedName<C>(item: Item<C>, n: nat, v: int)
    requires n >= 1
    ensures var rows := Raised(item, n, v).rows; forall i :: 0 <= i < |rows| ==> rows[i].name == item.name
  {
  }
}
