/** Active sections, the forms they use, and the metadata bindings those forms declare. */
module SubmissionBindings {
  import opened JsonValues
  import opened Ordering

  datatype SectionEntry = SectionEntry(
    id: Json, order: nat, sectionType: Json, header: Json, mandatory: Json, scope: Json, configForm: Option<string>)

  datatype Binding = Binding(
    bindingKey: string,
    form: string,
    metadata: string,
    occurrence: nat,
    position: seq<int>,
    fieldLabel: Json,
    selectorLabel: Json,
    required: bool,
    repeatable: bool,
    inputType: Json,
    controlledVocabulary: Json,
    closed: Json,
    typeBind: Json)

  // Sections and the forms they use

  function StripSlashes(text: string): string {
    if text != "" && text[|text| - 1] == '/' then StripSlashes(text[..|text| - 1]) else text
  }

  function AfterLastSlash(text: string): string {
    if text == "" || text[|text| - 1] == '/' then "" else AfterLastSlash(text[..|text| - 1]) + [text[|text| - 1]]
  }

  /** The form a section's configuration link ends in. */
  function ConfigFormId(section: Json): Option<string> {
    var href := Get(Get(Get(section, "_links"), "config"), "href");
    if href.Str? && StripSlashes(href.text) != "" then Some(AfterLastSlash(StripSlashes(href.text))) else None
  }

  predicate AllSlashes(text: string) {
    forall i :: 0 <= i < |text| ==> text[i] == '/'
  }

  predicate Segments(path: string, before: string, form: string, slashes: string) {
    && path == before + form + slashes && AllSlashes(slashes)
    && (before != "" ==> before[|before| - 1] == '/')
  }

  /** `form` is the last segment of the path, whatever slashes follow it. */
  ghost predicate LastSegment(path: string, form: string) {
    form != "" && '/' !in form && exists before, slashes :: Segments(path, before, form, slashes)
  }

  lemma {:induction false} StripSlashesMeaning(text: string) returns (slashes: string)
    ensures text == StripSlashes(text) + slashes && AllSlashes(slashes)
    ensures StripSlashes(text) != "" ==> StripSlashes(text)[|StripSlashes(text)| - 1] != '/'
  {
    slashes := "";
    if text != "" && text[|text| - 1] == '/' {
      var front := text[..|text| - 1];
      var more := StripSlashesMeaning(front);
      slashes := more + "/";
      assert text == front + "/" == StripSlashes(front) + more + "/";
    }
  }

  lemma {:induction false} StripSlashesUndoes(path: string, slashes: string)
    requires AllSlashes(slashes) && (path != "" ==> path[|path| - 1] != '/')
    ensures StripSlashes(path + slashes) == path
  {
    if slashes == "" {
      assert path + slashes == path;
    } else {
      assert (path + slashes)[..|path + slashes| - 1] == path + slashes[..|slashes| - 1];
      StripSlashesUndoes(path, slashes[..|slashes| - 1]);
    }
  }

  lemma {:induction false} AfterLastSlashMeaning(text: string) returns (before: string)
    ensures text == before + AfterLastSlash(text) && '/' !in AfterLastSlash(text)
    ensures before != "" ==> before[|before| - 1] == '/'
  {
    before := text;
    if text != "" && text[|text| - 1] != '/' {
      var front, last := text[..|text| - 1], text[|text| - 1];
      before := AfterLastSlashMeaning(front);
      assert text == front + [last] == before + (AfterLastSlash(front) + [last]);
    }
  }

  lemma {:induction false} AfterLastSlashUndoes(before: string, form: string)
    requires '/' !in form && (before != "" ==> before[|before| - 1] == '/')
    ensures AfterLastSlash(before + form) == form
  {
    if form == "" {
      assert before + form == before;
    } else {
      var last := form[|form| - 1];
      assert last in form;
      assert (before + form)[..|before + form| - 1] == before + form[..|form| - 1];
      AfterLastSlashUndoes(before, form[..|form| - 1]);
    }
  }

  /** A section's form is exactly the last segment of its configuration link. */
  lemma ConfigFormMeaning(section: Json, form: string)
    ensures ConfigFormId(section) == Some(form) <==>
      var href := Get(Get(Get(section, "_links"), "config"), "href");
      href.Str? && LastSegment(href.text, form)
  {
    var href := Get(Get(Get(section, "_links"), "config"), "href");
    if href.Str? {
      LastSegmentMeaning(href.text, form);
    }
  }

  lemma LastSegmentMeaning(path: string, form: string)
    ensures LastSegment(path, form) <==> StripSlashes(path) != "" && AfterLastSlash(StripSlashes(path)) == form
  {
    if LastSegment(path, form) {
      var before, slashes :| Segments(path, before, form, slashes);
      SegmentsFound(path, before, form, slashes);
    }
    if StripSlashes(path) != "" && AfterLastSlash(StripSlashes(path)) == form {
      SegmentsThere(path);
    }
  }

  lemma SegmentsFound(path: string, before: string, form: string, slashes: string)
    requires Segments(path, before, form, slashes) && form != "" && '/' !in form
    ensures StripSlashes(path) == before + form && AfterLastSlash(before + form) == form
  {
    var kept := before + form;
    assert form[|form| - 1] in form && kept[|kept| - 1] == form[|form| - 1];
    assert path == kept + slashes;
    StripSlashesUndoes(kept, slashes);
    AfterLastSlashUndoes(before, form);
  }

  lemma SegmentsThere(path: string)
    requires StripSlashes(path) != ""
    ensures LastSegment(path, AfterLastSlash(StripSlashes(path)))
  {
    var kept := StripSlashes(path);
    var slashes := StripSlashesMeaning(path);
    var before := AfterLastSlashMeaning(kept);
    assert Segments(path, before, AfterLastSlash(kept), slashes);
    assert before + "" == before;
  }

  function CanonicalSections(sections: seq<Json>): seq<SectionEntry> {
    seq(|sections|, i requires 0 <= i < |sections| =>
      var s := sections[i];
      SectionEntry(Get(s, "id"), i, Get(s, "sectionType"), Get(s, "header"), Get(s, "mandatory"), Get(s, "scope"),
        ConfigFormId(s)))
  }

  datatype FormIds = FormIds(ids: seq<string>, warnings: seq<string>)

  function ScanFormIds(sections: seq<Json>): FormIds {
    if sections == [] then FormIds([], [])
    else
      var front, section := ScanFormIds(sections[..|sections| - 1]), sections[|sections| - 1];
      if Get(section, "sectionType") != Str("submission-form") then front
      else
        match ConfigFormId(section)
        case Some(form) => front.(ids := front.ids + [form])
        case None =>
          var id := Get(section, "id");
          if IsText(id) then front.(ids := front.ids + [id.text])
          else front.(warnings := front.warnings + ["UNRESOLVED_SUBMISSION_FORM_LINK"])
  }

  function ActiveFormIds(sections: seq<Json>): FormIds {
    var scan := ScanFormIds(sections);
    if scan.ids == [] then scan.(warnings := scan.warnings + ["NO_ACTIVE_SUBMISSION_FORMS"]) else scan
  }

  /** The form a section makes active: the one it links to, or else the one it is named after. */
  function FormOf(): Json -> Option<string> {
    (section: Json) =>
      if Get(section, "sectionType") != Str("submission-form") then None
      else if ConfigFormId(section).Some? then ConfigFormId(section)
      else if IsText(Get(section, "id")) then Some(Get(section, "id").text)
      else None
  }

  /** The warning about a form section that names no form. */
  function UnlinkedOf(): Json -> Option<string> {
    (section: Json) =>
      if Get(section, "sectionType") == Str("submission-form") && FormOf()(section).None? then
        Some("UNRESOLVED_SUBMISSION_FORM_LINK")
      else None
  }

  lemma {:induction false} ScanIsFilter(sections: seq<Json>)
    ensures ScanFormIds(sections) == FormIds(FilterMap(sections, FormOf()), FilterMap(sections, UnlinkedOf()))
  {
    if sections != [] {
      ScanIsFilter(sections[..|sections| - 1]);
    }
  }

  /**
    The active forms are those of the sections, in order; each section without one is warned about, and so is
    having none.
   */
  lemma ActiveFormsMeaning(sections: seq<Json>)
    ensures var active := ActiveFormIds(sections);
            && active.ids == FilterMap(sections, FormOf())
            && active.warnings == FilterMap(sections, UnlinkedOf()) + if active.ids == [] then
               ["NO_ACTIVE_SUBMISSION_FORMS"] else []
  {
    ScanIsFilter(sections);
  }

  // Bindings

  function FormKey(form: Json): Json {
    OrElse(Get(form, "id"), Get(form, "name"))
  }

  /** Forms by their identifier; a later form replaces an earlier one of the same name. */
  function FormsById(forms: seq<Json>): map<string, Json> {
    if forms == [] then map[]
    else
      var front, form := FormsById(forms[..|forms| - 1]), forms[|forms| - 1];
      if Truthy(FormKey(form)) then front[Render(FormKey(form)) := form] else front
  }

  /** One selectable metadata option of one field of one row of one active form. */
  datatype Slot = Slot(form: string, metadata: string, position: seq<int>, field: Json, choice: Json)

  /** The slots of the first `n` options of a field. */
  function OptionSlots(form: string, at: seq<int>, field: Json, options: seq<Json>, n: nat): seq<Slot>
    requires n <= |options|
  {
    if n == 0 then []
    else
      var metadata := Get(options[n - 1], "metadata");
      OptionSlots(form, at, field, options, n - 1)
      + if IsText(metadata) then [Slot(form, metadata.text, at + [n - 1], field, options[n - 1])] else []
  }

  function SlotsOfField(form: string, at: seq<int>, field: Json): seq<Slot> {
    var selectable := Get(field, "selectableMetadata");
    if selectable.Arr? then OptionSlots(form, at, field, selectable.items, |selectable.items|) else []
  }

  /** The slots of the first `n` fields of a row. */
  function FieldSlots(form: string, at: seq<int>, fields: seq<Json>, n: nat): seq<Slot>
    requires n <= |fields|
  {
    if n == 0 then [] else FieldSlots(form, at, fields, n - 1) + SlotsOfField(form, at + [n - 1], fields[n - 1])
  }

  function SlotsOfRow(form: string, at: seq<int>, row: Json): seq<Slot> {
    var fields := Get(row, "fields");
    if fields.Arr? then FieldSlots(form, at, fields.items, |fields.items|) else []
  }

  /** The slots of the first `n` rows of a form. */
  function RowSlots(form: string, at: seq<int>, rows: seq<Json>, n: nat): seq<Slot>
    requires n <= |rows|
  {
    if n == 0 then [] else RowSlots(form, at, rows, n - 1) + SlotsOfRow(form, at + [n - 1], rows[n - 1])
  }

  function RowsOf(forms: map<string, Json>, form: string): Json {
    if form in forms then Get(forms[form], "rows") else Null
  }

  function SlotsOfForm(forms: map<string, Json>, form: string, order: nat): seq<Slot> {
    var rows := RowsOf(forms, form);
    if rows.Arr? then RowSlots(form, [order], rows.items, |rows.items|) else []
  }

  /** The slots of the first `n` active forms, in the order the nested loops meet them. */
  function FormSlots(forms: map<string, Json>, formIds: seq<string>, n: nat): seq<Slot>
    requires n <= |formIds|
  {
    if n == 0 then [] else FormSlots(forms, formIds, n - 1) + SlotsOfForm(forms, formIds[n - 1], n - 1)
  }

  function CountSlots(slots: seq<Slot>, form: string, metadata: string): nat {
    if slots == [] then 0
    else
      var last := slots[|slots| - 1];
      CountSlots(slots[..|slots| - 1], form, metadata) + if last.form == form && last.metadata == metadata then 1 else 0
  }

  function BindingKey(form: string, metadata: string, occurrence: nat): string {
    form + ":" + metadata + ":" + NatText(occurrence)
  }

  function BindingOf(slot: Slot, occurrence: nat): Binding {
    var typeBind := Get(slot.field, "typeBind");
    Binding(
      BindingKey(slot.form, slot.metadata, occurrence),
      slot.form,
      slot.metadata,
      occurrence,
      slot.position,
      Get(slot.field, "label"),
      Get(slot.choice, "label"),
      Truthy(Get(slot.field, "mandatory")),
      Truthy(Get(slot.field, "repeatable")),
      Get(Get(slot.field, "input"), "type"),
      Get(slot.choice, "controlledVocabulary"),
      Get(slot.choice, "closed"),
      if typeBind.Arr? then typeBind else Arr([]))
  }

  /** Each slot numbered by how many slots before it have the same form and metadata. */
  function Numbered(slots: seq<Slot>): seq<Binding> {
    if slots == [] then []
    else
      var front, last := slots[..|slots| - 1], slots[|slots| - 1];
      Numbered(front) + [BindingOf(last, CountSlots(front, last.form, last.metadata))]
  }

  function SlotWarnings(slots: seq<Slot>, registry: set<string>): seq<string> {
    if slots == [] then []
    else
      var last := slots[|slots| - 1];
      SlotWarnings(slots[..|slots| - 1], registry)
      + if last.metadata in registry then [] else ["BINDING_METADATA_NOT_IN_REGISTRY:" + last.metadata]
  }

  function WarningsOfForm(forms: map<string, Json>, form: string, order: nat, registry: set<string>): seq<string> {
    if form !in forms then ["UNRESOLVED_ACTIVE_FORM:" + form]
    else if !RowsOf(forms, form).Arr? then ["UNRESOLVED_FORM_ROWS:" + form]
    else SlotWarnings(SlotsOfForm(forms, form, order), registry)
  }

  function WarningsByForm(
    forms: map<string, Json>, formIds: seq<string>, registry: set<string>, n: nat): seq<seq<string>>
    requires n <= |formIds|
  {
    seq(n, i requires 0 <= i < n => WarningsOfForm(forms, formIds[i], i, registry))
  }

  function FormWarnings(forms: map<string, Json>, formIds: seq<string>, registry: set<string>, n: nat): seq<string>
    requires n <= |formIds|
  {
    Flatten(WarningsByForm(forms, formIds, registry, n))
  }

  function KeyOf(): Binding -> string {
    (b: Binding) => b.bindingKey
  }

  function KeyOrder(): (Binding, Binding) -> bool {
    (a: Binding, b: Binding) => TextLe(a.bindingKey, b.bindingKey)
  }

  datatype Bindings = Bindings(bindings: seq<Binding>, warnings: seq<string>)

  function CanonicalBindings(forms: seq<Json>, formIds: seq<string>, registry: set<string>): Bindings {
    var byId := FormsById(forms);
    Bindings(
      Sort(Numbered(FormSlots(byId, formIds, |formIds|)), KeyOrder()),
      FormWarnings(byId, formIds, registry, |formIds|))
  }

  // The nested loops

  /** What the innermost loop updates. */
  datatype Walk = Walk(occurrences: map<(string, string), nat>, bindings: seq<Binding>, warnings: seq<string>)

  function Meet(walk: Walk, slot: Slot, registry: set<string>): Walk {
    var key := (slot.form, slot.metadata);
    var occurrence := if key in walk.occurrences then walk.occurrences[key] else 0;
    Walk(
      walk.occurrences[key := occurrence + 1],
      walk.bindings + [BindingOf(slot, occurrence)],
      walk.warnings + if slot.metadata in registry then [] else ["BINDING_METADATA_NOT_IN_REGISTRY:" + slot.metadata])
  }

  function MeetAll(walk: Walk, slots: seq<Slot>, registry: set<string>): Walk {
    if slots == [] then walk
    else Meet(MeetAll(walk, slots[..|slots| - 1], registry), slots[|slots| - 1], registry)
  }

  function WalkForms(byId: map<string, Json>, formIds: seq<string>, registry: set<string>, n: nat): Walk
    requires n <= |formIds|
  {
    if n == 0 then Walk(map[], [], [])
    else
      var walk, form := WalkForms(byId, formIds, registry, n - 1), formIds[n - 1];
      if form !in byId then walk.(warnings := walk.warnings + ["UNRESOLVED_ACTIVE_FORM:" + form])
      else if !RowsOf(byId, form).Arr? then walk.(warnings := walk.warnings + ["UNRESOLVED_FORM_ROWS:" + form])
      else MeetAll(walk, SlotsOfForm(byId, form, n - 1), registry)
  }

  lemma {:induction false} MeetConcat(walk: Walk, a: seq<Slot>, b: seq<Slot>, registry: set<string>)
    ensures MeetAll(walk, a + b, registry) == MeetAll(MeetAll(walk, a, registry), b, registry)
  {
    if b == [] {
      assert a + b == a;
    } else {
      assert (a + b)[..|a + b| - 1] == a + b[..|b| - 1];
      MeetConcat(walk, a, b[..|b| - 1], registry);
    }
  }

  /** The occurrence counters agree with the slots met so far. */
  ghost predicate Tallies(occurrences: map<(string, string), nat>, slots: seq<Slot>) {
    forall form, metadata ::
      CountSlots(slots, form, metadata)
      == if (form, metadata) in occurrences then occurrences[(form, metadata)] else 0
  }

  lemma {:induction false} MeetAllWarns(walk: Walk, slots: seq<Slot>, registry: set<string>)
    ensures MeetAll(walk, slots, registry).warnings == walk.warnings + SlotWarnings(slots, registry)
  {
    if slots != [] {
      MeetAllWarns(walk, slots[..|slots| - 1], registry);
    }
  }

  ghost predicate Numbers(walk: Walk, slots: seq<Slot>) {
    Tallies(walk.occurrences, slots) && walk.bindings == Numbered(slots)
  }

  lemma MeetNumbers(walk: Walk, slots: seq<Slot>, slot: Slot, registry: set<string>)
    requires Numbers(walk, slots)
    ensures Numbers(Meet(walk, slot, registry), slots + [slot])
  {
  }

  /** Counting occurrences in a dictionary numbers each slot by the slots before it. */
  lemma {:induction false} MeetAllNumbers(walk: Walk, before: seq<Slot>, slots: seq<Slot>, registry: set<string>)
    requires Numbers(walk, before)
    ensures Numbers(MeetAll(walk, slots, registry), before + slots)
  {
    if slots == [] {
      assert before + slots == before;
    } else {
      var front, last := slots[..|slots| - 1], slots[|slots| - 1];
      assert before + slots == before + front + [last];
      MeetAllNumbers(walk, before, front, registry);
      MeetNumbers(MeetAll(walk, front, registry), before + front, last, registry);
    }
  }

  lemma {:induction false} WalkFormsNumbers(
    byId: map<string, Json>, formIds: seq<string>, registry: set<string>, n: nat)
    requires n <= |formIds|
    ensures var walk := WalkForms(byId, formIds, registry, n);
            && Numbers(walk, FormSlots(byId, formIds, n))
            && walk.warnings == FormWarnings(byId, formIds, registry, n)
  {
    if n > 0 {
      WalkFormsNumbers(byId, formIds, registry, n - 1);
      var before := FormSlots(byId, formIds, n - 1);
      assert before + [] == before;
      var parts := WarningsByForm(byId, formIds, registry, n);
      assert parts[..n - 1] == WarningsByForm(byId, formIds, registry, n - 1);
      var walk, slots := WalkForms(byId, formIds, registry, n - 1), SlotsOfForm(byId, formIds[n - 1], n - 1);
      MeetAllNumbers(walk, before, slots, registry);
      MeetAllWarns(walk, slots, registry);
    }
  }

  method BuildActiveFormIds(sections: seq<Json>) returns (found: FormIds)
    ensures found == ActiveFormIds(sections)
  {
    var ids: seq<string> := [];
    var warnings: seq<string> := [];
    for i := 0 to |sections|
      invariant FormIds(ids, warnings) == ScanFormIds(sections[..i])
    {
      assert sections[..i + 1][..i] == sections[..i];
      if Get(sections[i], "sectionType") != Str("submission-form") {
        continue;
      }
      var form := ConfigFormId(sections[i]);
      if form.Some? {
        ids := ids + [form.value];
        continue;
      }
      var id := Get(sections[i], "id");
      if IsText(id) {
        ids := ids + [id.text];
      } else {
        warnings := warnings + ["UNRESOLVED_SUBMISSION_FORM_LINK"];
      }
    }
    assert sections[..|sections|] == sections;
    if ids == [] {
      warnings := warnings + ["NO_ACTIVE_SUBMISSION_FORMS"];
    }
    found := FormIds(ids, warnings);
  }

  /** The innermost loop, over the selectable metadata of one field. */
  method WalkField(walk: Walk, form: string, at: seq<int>, field: Json, registry: set<string>) returns (next: Walk)
    ensures next == MeetAll(walk, SlotsOfField(form, at, field), registry)
  {
    next := walk;
    var selectable := Get(field, "selectableMetadata");
    if !selectable.Arr? {
      return;
    }
    var options := selectable.items;
    for k := 0 to |options|
      invariant next == MeetAll(walk, OptionSlots(form, at, field, options, k), registry)
    {
      var metadata := Get(options[k], "metadata");
      ghost var met := OptionSlots(form, at, field, options, k);
      assert met + [] == met;
      if !IsText(metadata) {
        continue;
      }
      var slot := Slot(form, metadata.text, at + [k], field, options[k]);
      assert (met + [slot])[..|met|] == met;
      next := Meet(next, slot, registry);
    }
  }

  method WalkRow(walk: Walk, form: string, at: seq<int>, row: Json, registry: set<string>) returns (next: Walk)
    ensures next == MeetAll(walk, SlotsOfRow(form, at, row), registry)
  {
    next := walk;
    var fields := Get(row, "fields");
    if !fields.Arr? {
      return;
    }
    for k := 0 to |fields.items|
      invariant next == MeetAll(walk, FieldSlots(form, at, fields.items, k), registry)
    {
      next := WalkField(next, form, at + [k], fields.items[k], registry);
      MeetConcat(walk, FieldSlots(form, at, fields.items, k), SlotsOfField(form, at + [k], fields.items[k]), registry);
    }
  }

  method WalkRows(walk: Walk, form: string, at: seq<int>, rows: seq<Json>, registry: set<string>) returns (next: Walk)
    ensures next == MeetAll(walk, RowSlots(form, at, rows, |rows|), registry)
  {
    next := walk;
    for j := 0 to |rows|
      invariant next == MeetAll(walk, RowSlots(form, at, rows, j), registry)
    {
      next := WalkRow(next, form, at + [j], rows[j], registry);
      MeetConcat(walk, RowSlots(form, at, rows, j), SlotsOfRow(form, at + [j], rows[j]), registry);
    }
  }

  /** `_canonical_bindings`: forms, their rows, the fields of a row, the options of a field. */
  method BuildCanonicalBindings(forms: seq<Json>, formIds: seq<string>, registry: set<string>) returns (built: Bindings)
    ensures built == CanonicalBindings(forms, formIds, registry)
  {
    var byId := FormsById(forms);
    var walk := Walk(map[], [], []);
    for i := 0 to |formIds|
      invariant walk == WalkForms(byId, formIds, registry, i)
    {
      var form := formIds[i];
      if form !in byId {
        walk := walk.(warnings := walk.warnings + ["UNRESOLVED_ACTIVE_FORM:" + form]);
        continue;
      }
      var rows := Get(byId[form], "rows");
      if !rows.Arr? {
        walk := walk.(warnings := walk.warnings + ["UNRESOLVED_FORM_ROWS:" + form]);
        continue;
      }
      walk := WalkRows(walk, form, [i], rows.items, registry);
    }
    WalkFormsNumbers(byId, formIds, registry, |formIds|);
    built := Bindings(Sort(walk.bindings, KeyOrder()), walk.warnings);
  }
}
