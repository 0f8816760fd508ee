/** What a complete snapshot vouches for, and what about the pages it does not depend on. */
module ContractCompleteness {
  import opened JsonValues
  import opened Ordering
  import opened PageSequence
  import opened ContractStore
  import opened SubmissionBindings
  import opened ContractSnapshot

  // Schemas and fields, without the loops

  predicate Prefixed(items: seq<Json>) {
    forall i :: 0 <= i < |items| ==> IsText(Get(items[i], "prefix"))
  }

  predicate Named(items: seq<Json>) {
    forall i :: 0 <= i < |items| ==> IsText(Get(items[i], "element"))
  }

  function SchemaOf(): Json -> Option<SchemaEntry> {
    (item: Json) =>
      if IsText(Get(item, "prefix")) then
        Some(SchemaEntry(Get(item, "prefix").text, Get(item, "id"), Get(item, "namespace")))
      else None
  }

  function FieldOf(prefix: string): Json -> Option<FieldEntry> {
    (item: Json) =>
      match FieldName(item, prefix)
      case Some(name) => Some(FieldEntry(name, Get(item, "id"), Get(item, "scopeNote")))
      case None => None
  }

  lemma {:induction false} ScanSchemasEntries(items: seq<Json>)
    ensures ScanSchemas(items).entries == FilterMap(items, SchemaOf())
  {
    if items != [] {
      ScanSchemasEntries(items[..|items| - 1]);
    }
  }

  lemma {:induction false} ScanSchemasClean(items: seq<Json>)
    ensures ScanSchemas(items).warnings == [] <==> Prefixed(items)
  {
    if items != [] {
      var front, last := items[..|items| - 1], items[|items| - 1];
      ScanSchemasClean(front);
      assert Prefixed(items) <==> Prefixed(front) && IsText(Get(last, "prefix"));
    }
  }

  function EntryIds(entries: seq<FieldEntry>): seq<string> {
    seq(|entries|, i requires 0 <= i < |entries| => Render(entries[i].id))
  }

  lemma EntryIdsAppend(a: seq<FieldEntry>, b: seq<FieldEntry>)
    ensures EntryIds(a + b) == EntryIds(a) + EntryIds(b)
  {
  }

  lemma DistinctAppend<T>(xs: seq<T>, x: T)
    ensures Distinct(xs + [x]) <==> Distinct(xs) && x !in xs
  {
    var all := xs + [x];
    if Distinct(all) {
      forall i, j | 0 <= i < j < |xs| ensures xs[i] != xs[j] {
        assert all[i] != all[j];
      }
      forall i | 0 <= i < |xs| ensures xs[i] != x {
        assert all[i] != all[|xs|];
      }
    }
  }

  lemma DistinctPrefix<T>(xs: seq<T>, ys: seq<T>)
    requires Distinct(xs + ys)
    ensures Distinct(xs)
  {
    forall i, j | 0 <= i < j < |xs| ensures xs[i] != xs[j] {
      assert (xs + ys)[i] != (xs + ys)[j];
    }
  }

  lemma {:induction false} AddFieldsMeaning(fields: Fields, prefix: string, items: seq<Json>)
    requires fields.ids == EntryIds(fields.entries)
    ensures AddFields(fields, prefix, items).entries == fields.entries + FilterMap(items, FieldOf(prefix))
    ensures AddFields(fields, prefix, items).ids == EntryIds(AddFields(fields, prefix, items).entries)
  {
    if items != [] {
      var front, last := items[..|items| - 1], items[|items| - 1];
      AddFieldsMeaning(fields, prefix, front);
    }
  }

  lemma {:induction false} AddFieldsClean(fields: Fields, prefix: string, items: seq<Json>)
    requires fields.warnings == [] ==> Distinct(fields.ids)
    ensures AddFields(fields, prefix, items).warnings == []
       <==> fields.warnings == [] && Named(items) && Distinct(AddFields(fields, prefix, items).ids)
  {
    if items != [] {
      var front, last := items[..|items| - 1], items[|items| - 1];
      AddFieldsClean(fields, prefix, front);
      assert Named(items) <==> Named(front) && IsText(Get(last, "element"));
      DistinctAppend(AddFields(fields, prefix, front).ids, IdText(last));
    }
  }

  /** All fields listed by schema, prefix by prefix. */
  function QualifiedEntries(pages: Pages, prefixes: seq<string>): seq<FieldEntry> {
    if prefixes == [] then []
    else
      var prefix := prefixes[|prefixes| - 1];
      QualifiedEntries(pages, prefixes[..|prefixes| - 1])
      + if FieldsBySchema(prefix) in pages then FilterMap(SurfaceItems(pages, FieldsBySchema(prefix)), FieldOf(prefix))
        else []
  }

  lemma {:induction false} ScanFieldsMeaning(pages: Pages, prefixes: seq<string>)
    ensures ScanFields(pages, prefixes).entries == QualifiedEntries(pages, prefixes)
    ensures ScanFields(pages, prefixes).ids == EntryIds(QualifiedEntries(pages, prefixes))
  {
    if prefixes != [] {
      ScanFieldsMeaning(pages, prefixes[..|prefixes| - 1]);
      var front, prefix := ScanFields(pages, prefixes[..|prefixes| - 1]), prefixes[|prefixes| - 1];
      AddFieldsMeaning(front, prefix, SurfaceItems(pages, FieldsBySchema(prefix)));
      EntryIdsAppend(front.entries, []);
    }
  }

  /** The schema's field listing is there and every field on it has a name. */
  predicate Listed(pages: Pages, prefix: string) {
    FieldsBySchema(prefix) in pages && Named(SurfaceItems(pages, FieldsBySchema(prefix)))
  }

  ghost predicate AllListed(pages: Pages, prefixes: seq<string>) {
    forall prefix :: prefix in prefixes ==> Listed(pages, prefix)
  }

  lemma AllListedStep(pages: Pages, before: seq<string>, prefix: string)
    ensures AllListed(pages, before + [prefix]) <==> AllListed(pages, before) && Listed(pages, prefix)
  {
  }

  /** Adding the fields of one more schema is clean when they are named and bring new identifiers only. */
  lemma AddingIsClean(front: Fields, prefix: string, items: seq<Json>)
    requires front.warnings == [] ==> Distinct(front.ids)
    ensures var all := AddFields(front, prefix, items);
            all.warnings == [] <==> front.warnings == [] && Named(items) && Distinct(all.ids)
    ensures Distinct(AddFields(front, prefix, items).ids) ==> Distinct(front.ids)
  {
    AddFieldsClean(front, prefix, items);
    IdsGrow(front, prefix, items);
    if Distinct(AddFields(front, prefix, items).ids) {
      DistinctPrefix(front.ids, AddFields(front, prefix, items).ids[|front.ids|..]);
    }
  }

  lemma ScanStepIsClean(pages: Pages, before: seq<string>, prefix: string)
    requires ScanFields(pages, before).warnings == [] ==> Distinct(ScanFields(pages, before).ids)
    ensures var front, all := ScanFields(pages, before), ScanFields(pages, before + [prefix]);
            && (all.warnings == [] <==> front.warnings == [] && Listed(pages, prefix) && Distinct(all.ids))
            && (Distinct(all.ids) ==> Distinct(front.ids))
  {
    var prefixes := before + [prefix];
    assert prefixes[..|prefixes| - 1] == before;
    if FieldsBySchema(prefix) in pages {
      AddingIsClean(ScanFields(pages, before), prefix, SurfaceItems(pages, FieldsBySchema(prefix)));
    }
  }

  ghost predicate ScansClean(pages: Pages, prefixes: seq<string>) {
    ScanFields(pages, prefixes).warnings == []
    <==> AllListed(pages, prefixes) && Distinct(ScanFields(pages, prefixes).ids)
  }

  lemma OneMoreScansClean(pages: Pages, before: seq<string>, prefix: string)
    requires ScansClean(pages, before)
    ensures ScansClean(pages, before + [prefix])
  {
    AllListedStep(pages, before, prefix);
    ScanStepIsClean(pages, before, prefix);
  }

  lemma NothingScansClean(pages: Pages)
    ensures ScansClean(pages, [])
  {
  }

  lemma {:induction false} ScanFieldsClean(pages: Pages, prefixes: seq<string>)
    ensures ScansClean(pages, prefixes)
  {
    if prefixes != [] {
      var before, prefix := prefixes[..|prefixes| - 1], prefixes[|prefixes| - 1];
      ScanFieldsClean(pages, before);
      OneMoreScansClean(pages, before, prefix);
      assert prefixes == before + [prefix];
    } else {
      NothingScansClean(pages);
    }
  }

  lemma {:induction false} IdsGrow(fields: Fields, prefix: string, items: seq<Json>)
    ensures fields.ids <= AddFields(fields, prefix, items).ids
    ensures fields.ids + AddFields(fields, prefix, items).ids[|fields.ids|..] == AddFields(fields, prefix, items).ids
  {
    if items != [] {
      IdsGrow(fields, prefix, items[..|items| - 1]);
    }
  }

  // Sections and forms

  predicate Resolves(section: Json) {
    Get(section, "sectionType") == Str("submission-form") ==> ConfigFormId(section).Some? || IsText(Get(section, "id"))
  }

  predicate AllResolve(sections: seq<Json>) {
    forall i :: 0 <= i < |sections| ==> Resolves(sections[i])
  }

  predicate UsesForms(sections: seq<Json>) {
    exists i :: 0 <= i < |sections|
      && Get(sections[i], "sectionType") == Str("submission-form")
      && (ConfigFormId(sections[i]).Some? || IsText(Get(sections[i], "id")))
  }

  lemma {:induction false} ScanFormIdsMeaning(sections: seq<Json>)
    ensures ScanFormIds(sections).warnings == [] <==> AllResolve(sections)
    ensures ScanFormIds(sections).ids != [] <==> UsesForms(sections)
  {
    if sections != [] {
      var front, last := sections[..|sections| - 1], sections[|sections| - 1];
      ScanFormIdsMeaning(front);
      assert AllResolve(sections) <==> AllResolve(front) && Resolves(last);
      assert UsesForms(front) ==> UsesForms(sections);
    }
  }

  /** The form is known, has rows, and binds only registered fields. */
  ghost predicate FormBinds(byId: map<string, Json>, form: string, order: nat, registry: set<string>) {
    && form in byId
    && RowsOf(byId, form).Arr?
    && forall slot :: slot in SlotsOfForm(byId, form, order) ==> slot.metadata in registry
  }

  ghost predicate FormsBind(byId: map<string, Json>, formIds: seq<string>, n: nat, registry: set<string>)
    requires n <= |formIds|
  {
    forall i :: 0 <= i < n ==> FormBinds(byId, formIds[i], i, registry)
  }

  lemma {:induction false} SlotWarningsMeaning(slots: seq<Slot>, registry: set<string>)
    ensures SlotWarnings(slots, registry) == [] <==> forall slot :: slot in slots ==> slot.metadata in registry
  {
    if slots != [] {
      SlotWarningsMeaning(slots[..|slots| - 1], registry);
      assert slots == slots[..|slots| - 1] + [slots[|slots| - 1]];
    }
  }

  lemma WarningsOfFormMeaning(byId: map<string, Json>, form: string, order: nat, registry: set<string>)
    ensures WarningsOfForm(byId, form, order, registry) == [] <==> FormBinds(byId, form, order, registry)
  {
    SlotWarningsMeaning(SlotsOfForm(byId, form, order), registry);
  }

  lemma FormWarningsMeaning(byId: map<string, Json>, formIds: seq<string>, registry: set<string>, n: nat)
    requires n <= |formIds|
    ensures FormWarnings(byId, formIds, registry, n) == [] <==> FormsBind(byId, formIds, n, registry)
  {
    FlattenEmpty(WarningsByForm(byId, formIds, registry, n));
    forall i | 0 <= i < n
      ensures WarningsByForm(byId, formIds, registry, n)[i] == [] <==> FormBinds(byId, formIds[i], i, registry)
    {
      WarningsOfFormMeaning(byId, formIds[i], i, registry);
    }
  }

  // Completeness

  function Prefixes(pages: Pages): seq<string> {
    SortedSet(EntryPrefixes(ScanSchemas(SurfaceItems(pages, MetadataSchemas)).entries))
  }

  /** All page sequences are exact: the required surfaces and every by-schema listing there is. */
  ghost predicate PagesExact(pages: Pages) {
    && (forall surface :: surface in PAGINATED_REQUIRED ==> surface in pages && ExactPages(pages[surface]))
    && (forall surface :: surface in pages && surface.FieldsBySchema? ==> ExactPages(pages[surface]))
  }

  ghost predicate DefinitionExact(pages: Pages) {
    ActiveDefinition in pages && |pages[ActiveDefinition]| == 1 && IsText(DefinitionName(pages))
  }

  /**
    Every schema has its field listing; every field appears once by identifier; the identifiers are the global
    ones.
   */
  ghost predicate RegistryExact(pages: Pages) {
    var ids := EntryIds(QualifiedEntries(pages, Prefixes(pages)));
    && Prefixed(SurfaceItems(pages, MetadataSchemas))
    && AllListed(pages, Prefixes(pages))
    && Distinct(ids)
    && IdTexts(SurfaceItems(pages, MetadataFields)) == set id | id in ids
  }

  ghost predicate FormsExact(pages: Pages) {
    var sections := SurfaceItems(pages, ActiveSections);
    var formIds := ScanFormIds(sections).ids;
    && AllResolve(sections)
    && UsesForms(sections)
    && FormsBind(FormsById(SurfaceItems(pages, SubmissionForms)), formIds, |formIds|,
       RegistryNames(CanonicalRegistry(pages).fields))
  }

  ghost predicate SequencesQuiet(pages: Pages) {
    forall surface :: SequenceChecked(pages, surface) ==> SequenceWarning(pages, surface).None?
  }

  lemma QuietIffExact(pages: Pages)
    ensures SequencesQuiet(pages) <==> PagesExact(pages)
  {
    forall surface | surface in pages ensures SequenceWarning(pages, surface).None? <==> ExactPages(pages[surface]) {
      CleanIffExact(pages[surface]);
    }
    if SequencesQuiet(pages) {
      forall surface | surface in PAGINATED_REQUIRED ensures surface in pages && ExactPages(pages[surface]) {
        assert SequenceChecked(pages, surface);
      }
      forall surface | surface in pages && surface.FieldsBySchema? ensures ExactPages(pages[surface]) {
        assert SequenceChecked(pages, surface);
      }
    }
  }

  lemma SequencesClean(pages: Pages)
    ensures SequenceWarnings(pages) == {} <==> PagesExact(pages)
  {
    assert forall surface :: SequenceChecked(pages, surface) && SequenceWarning(pages, surface).Some? ==>
      surface in pages.Keys + REQUIRED && SequenceWarning(pages, surface).value in SequenceWarnings(pages);
    QuietIffExact(pages);
  }

  lemma MissingClean(pages: Pages)
    ensures MissingWarnings(pages) == {} <==> REQUIRED <= pages.Keys
  {
    assert forall surface :: surface in REQUIRED && surface !in pages ==>
      "UNOBSERVABLE_SURFACE:" + SurfaceName(surface) in MissingWarnings(pages);
  }

  lemma RegistryClean(pages: Pages)
    ensures CanonicalRegistry(pages).warnings == [] <==> RegistryExact(pages)
  {
    ScanSchemasClean(SurfaceItems(pages, MetadataSchemas));
    ScanFieldsMeaning(pages, Prefixes(pages));
    ScanFieldsClean(pages, Prefixes(pages));
  }

  lemma FormsClean(pages: Pages)
    ensures ActiveFormIds(SurfaceItems(pages, ActiveSections)).warnings == [] && BindingsOf(pages).warnings == []
       <==> FormsExact(pages)
  {
    var sections := SurfaceItems(pages, ActiveSections);
    ScanFormIdsMeaning(sections);
    var formIds := ActiveFormIds(sections).ids;
    FormWarningsMeaning(
      FormsById(SurfaceItems(pages, SubmissionForms)), formIds, RegistryNames(CanonicalRegistry(pages).fields),
      |formIds|);
  }

  lemma ItemsClean(pages: Pages)
    ensures ItemWarnings(pages) == [] <==>
      && CanonicalRegistry(pages).warnings == []
      && DefinitionWarnings(pages) == []
      && ActiveFormIds(SurfaceItems(pages, ActiveSections)).warnings == []
      && BindingsOf(pages).warnings == []
  {
  }

  lemma WarningsClean(pages: Pages)
    ensures SnapshotOf(pages).complete <==>
      MissingWarnings(pages) == {} && SequenceWarnings(pages) == {} && ItemWarnings(pages) == []
  {
    SortedOfProperties(WarningsOf(pages));
    var warnings := ItemWarnings(pages);
    assert |warnings| > 0 ==> warnings[0] in WarningsOf(pages);
  }

  lemma RequiredPresent(pages: Pages)
    ensures PagesExact(pages) && ActiveDefinition in pages ==> REQUIRED <= pages.Keys
  {
  }

  lemma DefinitionClean(pages: Pages)
    ensures DefinitionWarnings(pages) == [] <==> DefinitionExact(pages)
  {
  }

  /** A snapshot is complete exactly when its pages are all there and everything on them resolves. */
  lemma CompleteIffExact(pages: Pages)
    ensures SnapshotOf(pages).complete
       <==> PagesExact(pages) && DefinitionExact(pages) && RegistryExact(pages) && FormsExact(pages)
  {
    WarningsClean(pages);
    SequencesClean(pages);
    ItemsClean(pages);
    RegistryClean(pages);
    FormsClean(pages);
    DefinitionClean(pages);
    MissingClean(pages);
    RequiredPresent(pages);
  }
}
