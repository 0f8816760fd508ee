/** The canonicalizer: from the stored pages of a run to a sorted contract and the warnings about it. */
module ContractSnapshot {
  import opened JsonValues
  import opened Ordering
  import opened PageSequence
  import opened ContractStore
  import opened ContractClient
  import opened SubmissionBindings

  datatype SchemaEntry = SchemaEntry(prefix: string, id: Json, namespace: Json)

  datatype FieldEntry = FieldEntry(metadata: string, id: Json, scopeNote: Json)

  datatype Canonical = Canonical(
    activeDefinition: Json,
    schemas: seq<SchemaEntry>,
    fields: seq<FieldEntry>,
    sections: seq<SectionEntry>,
    bindings: seq<Binding>)

  datatype View = View(canonical: Canonical, semanticHash: Digest<Canonical>, complete: bool, warnings: seq<string>)

  type Pages = map<Surface, seq<Json>>

  function JsonHash(canonical: Canonical): Digest<Canonical> {
    Sha256(canonical)
  }

  function Payloads(pages: Pages, surface: Surface): seq<Json> {
    if surface in pages then pages[surface] else []
  }

  function SurfaceName(surface: Surface): string {
    match surface
    case MetadataSchemas => "metadata_schemas"
    case MetadataFields => "metadata_fields"
    case FieldsBySchema(prefix) => "metadata_fields_by_schema:" + prefix
    case SubmissionDefinitions => "submission_definitions"
    case SubmissionSections => "submission_sections"
    case SubmissionForms => "submission_forms"
    case ActiveDefinition => "active_submission_definition"
    case ActiveSections => "active_submission_sections"
  }

  // Items

  function Objects(values: seq<Json>): seq<Json> {
    if values == [] then []
    else Objects(values[..|values| - 1]) + if values[|values| - 1].Obj? then [values[|values| - 1]] else []
  }

  function ItemsOn(payload: Json, relation: string): seq<Json> {
    var values := Get(Get(payload, "_embedded"), relation);
    if values.Arr? then Objects(values.items) else []
  }

  /** `_surface_items`: the objects every page of the surface lists, in page order. */
  function Items(payloads: seq<Json>, relation: string): seq<Json> {
    if payloads == [] then []
    else Items(payloads[..|payloads| - 1], relation) + ItemsOn(payloads[|payloads| - 1], relation)
  }

  function SurfaceItems(pages: Pages, surface: Surface): seq<Json> {
    Items(Payloads(pages, surface), Relation(surface))
  }

  // The metadata registry

  function FieldName(field: Json, prefix: string): Option<string> {
    var element, qualifier := Get(field, "element"), Get(field, "qualifier");
    if !IsText(element) then None
    else if IsText(qualifier) then Some(prefix + "." + element.text + "." + qualifier.text)
    else Some(prefix + "." + element.text)
  }

  function IdText(item: Json): string {
    Render(Get(item, "id"))
  }

  /** `item.get('id', 'unknown')`. */
  function IdOrUnknown(item: Json): string {
    if item.Obj? && "id" in item.members then IdText(item) else "unknown"
  }

  datatype Schemas = Schemas(entries: seq<SchemaEntry>, warnings: seq<string>)

  function ScanSchemas(items: seq<Json>): Schemas {
    if items == [] then Schemas([], [])
    else
      var front, schema := ScanSchemas(items[..|items| - 1]), items[|items| - 1];
      var prefix := Get(schema, "prefix");
      if IsText(prefix) then
        front.(entries := front.entries + [SchemaEntry(prefix.text, Get(schema, "id"), Get(schema, "namespace"))])
      else front.(warnings := front.warnings + ["UNRESOLVED_SCHEMA_PREFIX:" + IdOrUnknown(schema)])
  }

  function EntryPrefixes(entries: seq<SchemaEntry>): seq<string> {
    seq(|entries|, i requires 0 <= i < |entries| => entries[i].prefix)
  }

  /** The qualified fields gathered so far, and the identifiers they came with. */
  datatype Fields = Fields(entries: seq<FieldEntry>, ids: seq<string>, warnings: seq<string>)

  function AddField(fields: Fields, prefix: string, field: Json): Fields {
    match FieldName(field, prefix)
    case None => fields.(warnings := fields.warnings + ["UNRESOLVED_FIELD_NAME:" + IdOrUnknown(field)])
    case Some(name) =>
      var id := IdText(field);
      Fields(
        fields.entries + [FieldEntry(name, Get(field, "id"), Get(field, "scopeNote"))],
        fields.ids + [id],
        fields.warnings + if id in fields.ids then ["DUPLICATE_METADATA_FIELD_ID:" + id] else [])
  }

  function AddFields(fields: Fields, prefix: string, items: seq<Json>): Fields {
    if items == [] then fields
    else AddField(AddFields(fields, prefix, items[..|items| - 1]), prefix, items[|items| - 1])
  }

  function ScanFields(pages: Pages, prefixes: seq<string>): Fields {
    if prefixes == [] then Fields([], [], [])
    else
      var front, prefix := ScanFields(pages, prefixes[..|prefixes| - 1]), prefixes[|prefixes| - 1];
      var surface := FieldsBySchema(prefix);
      if surface !in pages then front.(warnings := front.warnings + ["UNOBSERVABLE_SURFACE:" + SurfaceName(surface)])
      else AddFields(front, prefix, SurfaceItems(pages, surface))
  }

  function IdTexts(items: seq<Json>): set<string> {
    set i | 0 <= i < |items| :: IdText(items[i])
  }

  function SchemaKey(): SchemaEntry -> string {
    (e: SchemaEntry) => e.prefix
  }

  function SchemaOrder(): (SchemaEntry, SchemaEntry) -> bool {
    (a: SchemaEntry, b: SchemaEntry) => TextLe(a.prefix, b.prefix)
  }

  predicate FieldLe(a: FieldEntry, b: FieldEntry) {
    if a.metadata == b.metadata then TextLe(Render(a.id), Render(b.id)) else TextLe(a.metadata, b.metadata)
  }

  function FieldOrder(): (FieldEntry, FieldEntry) -> bool {
    (a: FieldEntry, b: FieldEntry) => FieldLe(a, b)
  }

  datatype Registry = Registry(schemas: seq<SchemaEntry>, fields: seq<FieldEntry>, warnings: seq<string>)

  function CoverageWarnings(pages: Pages, fields: Fields): seq<string> {
    var ids := set id | id in fields.ids;
    var globals := IdTexts(SurfaceItems(pages, MetadataFields));
    if globals == ids then []
    else ["METADATA_FIELD_COVERAGE_MISMATCH:global=" + NatText(|globals|) + ":qualified=" + NatText(|ids|)]
  }

  function CanonicalRegistry(pages: Pages): Registry {
    var schemas := ScanSchemas(SurfaceItems(pages, MetadataSchemas));
    var fields := ScanFields(pages, SortedSet(EntryPrefixes(schemas.entries)));
    Registry(
      Sort(schemas.entries, SchemaOrder()),
      Sort(fields.entries, FieldOrder()),
      schemas.warnings + fields.warnings + CoverageWarnings(pages, fields))
  }

  method CollectSchemaEntries(items: seq<Json>) returns (schemas: Schemas)
    ensures schemas == ScanSchemas(items)
  {
    var entries: seq<SchemaEntry> := [];
    var warnings: seq<string> := [];
    for i := 0 to |items|
      invariant Schemas(entries, warnings) == ScanSchemas(items[..i])
    {
      assert items[..i + 1][..i] == items[..i];
      var prefix := Get(items[i], "prefix");
      if IsText(prefix) {
        entries := entries + [SchemaEntry(prefix.text, Get(items[i], "id"), Get(items[i], "namespace"))];
      } else {
        warnings := warnings + ["UNRESOLVED_SCHEMA_PREFIX:" + IdOrUnknown(items[i])];
      }
    }
    assert items[..|items|] == items;
    schemas := Schemas(entries, warnings);
  }

  method CollectFields(scan: Fields, prefix: string, items: seq<Json>) returns (fields: Fields)
    ensures fields == AddFields(scan, prefix, items)
  {
    fields := scan;
    for k := 0 to |items|
      invariant fields == AddFields(scan, prefix, items[..k])
    {
      assert items[..k + 1][..k] == items[..k];
      fields := AddField(fields, prefix, items[k]);
    }
    assert items[..|items|] == items;
  }

  /** `_canonical_registry`: one pass over the schemas, then one pass over the fields of each prefix. */
  method BuildCanonicalRegistry(pages: Pages) returns (registry: Registry)
    ensures registry == CanonicalRegistry(pages)
  {
    var schemas := CollectSchemaEntries(SurfaceItems(pages, MetadataSchemas));
    var ordered := SortedSet(EntryPrefixes(schemas.entries));
    var scan := Fields([], [], []);
    for j := 0 to |ordered|
      invariant scan == ScanFields(pages, ordered[..j])
    {
      assert ordered[..j + 1][..j] == ordered[..j];
      var surface := FieldsBySchema(ordered[j]);
      if surface !in pages {
        scan := scan.(warnings := scan.warnings + ["UNOBSERVABLE_SURFACE:" + SurfaceName(surface)]);
      } else {
        scan := CollectFields(scan, ordered[j], SurfaceItems(pages, surface));
      }
    }
    assert ordered[..|ordered|] == ordered;
    registry := Registry(
      Sort(schemas.entries, SchemaOrder()),
      Sort(scan.entries, FieldOrder()),
      schemas.warnings + scan.warnings + CoverageWarnings(pages, scan));
  }

  // The snapshot

  const PAGINATED_REQUIRED := [ActiveSections, MetadataFields, MetadataSchemas, SubmissionForms]
  const REQUIRED := {MetadataSchemas, MetadataFields, SubmissionForms, ActiveDefinition, ActiveSections}

  function VerdictText(verdict: Verdict): string {
    match verdict
    case Clean => ""
    case Empty => "EMPTY_REQUIRED_SURFACE:"
    case InvalidMetadata => "INVALID_PAGE_METADATA:"
    case Inconsistent => "INCONSISTENT_PAGE_METADATA:"
    case Duplicate => "DUPLICATE_PAGE_EVIDENCE:"
    case Incomplete => "INCOMPLETE_PAGE_SEQUENCE:"
  }

  /** What is wrong with the pages of one paginated surface, if anything. */
  function SequenceWarning(pages: Pages, surface: Surface): Option<string> {
    if surface !in pages then Some("UNOBSERVABLE_SURFACE:" + SurfaceName(surface))
    else
      var verdict := PageVerdict(pages[surface]);
      if verdict == Clean then None else Some(VerdictText(verdict) + SurfaceName(surface))
  }

  /** The surfaces whose page sequence is checked: the required ones and every by-schema listing there is. */
  predicate SequenceChecked(pages: Pages, surface: Surface) {
    surface in PAGINATED_REQUIRED || (surface.FieldsBySchema? && surface in pages)
  }

  ghost function SequenceWarnings(pages: Pages): set<string> {
    set surface | surface in pages.Keys + REQUIRED && SequenceChecked(pages, surface)
    && SequenceWarning(pages, surface).Some?
      :: SequenceWarning(pages, surface).value
  }

  ghost function MissingWarnings(pages: Pages): set<string> {
    set surface | surface in REQUIRED && surface !in pages :: "UNOBSERVABLE_SURFACE:" + SurfaceName(surface)
  }

  function DefinitionName(pages: Pages): Json {
    var payloads := Payloads(pages, ActiveDefinition);
    if payloads == [] then Null else Get(payloads[0], "name")
  }

  function DefinitionWarnings(pages: Pages): seq<string> {
    (if |Payloads(pages, ActiveDefinition)| != 1 then ["INVALID_ACTIVE_DEFINITION_EVIDENCE"] else [])
    + (if IsText(DefinitionName(pages)) then [] else ["UNRESOLVED_ACTIVE_DEFINITION"])
  }

  function RegistryNames(fields: seq<FieldEntry>): set<string> {
    set i | 0 <= i < |fields| :: fields[i].metadata
  }

  function BindingsOf(pages: Pages): Bindings {
    CanonicalBindings(
      SurfaceItems(pages, SubmissionForms),
      ActiveFormIds(SurfaceItems(pages, ActiveSections)).ids,
      RegistryNames(CanonicalRegistry(pages).fields))
  }

  function CanonicalOf(pages: Pages): Canonical {
    var registry := CanonicalRegistry(pages);
    Canonical(
      DefinitionName(pages),
      registry.schemas,
      registry.fields,
      CanonicalSections(SurfaceItems(pages, ActiveSections)),
      BindingsOf(pages).bindings)
  }

  /** The warnings raised while the items are canonicalized. */
  function ItemWarnings(pages: Pages): seq<string> {
    CanonicalRegistry(pages).warnings
    + DefinitionWarnings(pages)
    + ActiveFormIds(SurfaceItems(pages, ActiveSections)).warnings
    + BindingsOf(pages).warnings
  }

  ghost function WarningsOf(pages: Pages): set<string> {
    MissingWarnings(pages) + SequenceWarnings(pages) + set w | w in ItemWarnings(pages)
  }

  /** `build_contract_snapshot`. */
  ghost function SnapshotOf(pages: Pages): View {
    var canonical, warnings := CanonicalOf(pages), SortedOf(WarningsOf(pages));
    View(canonical, JsonHash(canonical), warnings == [], warnings)
  }

  /** `_page_sequence_warnings`; the order of the surfaces does not show, since all warnings are sorted. */
  method PageSequenceWarnings(pages: Pages) returns (warnings: seq<string>)
    ensures forall w :: w in warnings <==> w in SequenceWarnings(pages)
  {
    warnings := [];
    var left := set surface | surface in pages.Keys + REQUIRED && SequenceChecked(pages, surface);
    ghost var all := left;
    while left != {}
      invariant left <= all
      invariant forall w :: w in warnings <==>
        exists surface :: surface in all - left && SequenceWarning(pages, surface) == Some(w)
    {
      var surface :| surface in left;
      var warning := CheckSequence(pages, surface);
      ghost var before, done := warnings, all - left;
      if warning.Some? {
        warnings := warnings + [warning.value];
      }
      left := left - {surface};
      assert all - left == done + {surface};
    }
  }

  method CheckSequence(pages: Pages, surface: Surface) returns (warning: Option<string>)
    ensures warning == SequenceWarning(pages, surface)
  {
    if surface !in pages {
      return Some("UNOBSERVABLE_SURFACE:" + SurfaceName(surface));
    }
    var verdict := ValidatePageSequence(pages[surface]);
    warning := if verdict == Clean then None else Some(VerdictText(verdict) + SurfaceName(surface));
  }

  method MissingSurfaceWarnings(pages: Pages) returns (warnings: seq<string>)
    ensures forall w :: w in warnings <==> w in MissingWarnings(pages)
  {
    warnings := [];
    var missing := REQUIRED - pages.Keys;
    while missing != {}
      invariant missing <= REQUIRED - pages.Keys
      invariant forall w :: w in warnings <==>
        exists surface ::
          surface in REQUIRED - pages.Keys - missing && w == "UNOBSERVABLE_SURFACE:" + SurfaceName(surface)
    {
      var surface :| surface in missing;
      ghost var done := REQUIRED - pages.Keys - missing;
      warnings := warnings + ["UNOBSERVABLE_SURFACE:" + SurfaceName(surface)];
      missing := missing - {surface};
      assert REQUIRED - pages.Keys - missing == done + {surface};
    }
  }

  lemma AllWarnings(pages: Pages, missing: seq<string>, sequence: seq<string>, items: seq<string>)
    requires forall w :: w in missing <==> w in MissingWarnings(pages)
    requires forall w :: w in sequence <==> w in SequenceWarnings(pages)
    requires items == ItemWarnings(pages)
    ensures SortedSet(missing + sequence + items) == SortedOf(WarningsOf(pages))
  {
    SortedSetOfUnion(missing, sequence, items, MissingWarnings(pages), SequenceWarnings(pages));
  }

  method BuildContractSnapshot(pages: Pages) returns (view: View)
    ensures view == SnapshotOf(pages)
  {
    var warnings := MissingSurfaceWarnings(pages);
    var sequence := PageSequenceWarnings(pages);
    var registry := BuildCanonicalRegistry(pages);
    var sections := SurfaceItems(pages, ActiveSections);
    var definition := DefinitionName(pages);
    var active := BuildActiveFormIds(sections);
    var names := set i | 0 <= i < |registry.fields| :: registry.fields[i].metadata;
    var built := BuildCanonicalBindings(SurfaceItems(pages, SubmissionForms), active.ids, names);
    var canonical :=
      Canonical(definition, registry.schemas, registry.fields, CanonicalSections(sections), built.bindings);
    var items := registry.warnings + DefinitionWarnings(pages) + active.warnings + built.warnings;
    var unique := SortedSet(warnings + sequence + items);
    AllWarnings(pages, warnings, sequence, items);
    view := View(canonical, JsonHash(canonical), unique == [], unique);
  }
}
