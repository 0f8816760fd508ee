/** Which warnings a snapshot carries, said of the stored pages and of the canonical contract. */
module ContractWarnings {
  import opened JsonValues
  import opened Ordering
  import opened PageSequence
  import opened ContractStore
  import opened ContractClient
  import opened SubmissionBindings
  import opened BindingAddresses
  import opened ContractSnapshot
  import opened ContractCompleteness
  import opened ContractSources

  // What there is to warn about

  /** The first thing that is wrong with a page sequence: each warning presupposes that those before it do not apply. */
  ghost predicate SequenceWarns(payloads: seq<Json>, surface: Surface, w: string) {
    if payloads == [] then w == "EMPTY_REQUIRED_SURFACE:" + SurfaceName(surface)
    else if !AllMeta(payloads) then w == "INVALID_PAGE_METADATA:" + SurfaceName(surface)
    else if !TotalsAgree(payloads) then w == "INCONSISTENT_PAGE_METADATA:" + SurfaceName(surface)
    else if !Distinct(PageSequence.Numbers(payloads)) then w == "DUPLICATE_PAGE_EVIDENCE:" + SurfaceName(surface)
    else !ExactPages(payloads) && w == "INCOMPLETE_PAGE_SEQUENCE:" + SurfaceName(surface)
  }

  ghost predicate Paginated(surface: Surface) {
    || surface == MetadataSchemas || surface == MetadataFields || surface == SubmissionForms
       || surface == ActiveSections
    || surface.FieldsBySchema?
  }

  ghost predicate Missing(pages: Pages, surface: Surface, w: string) {
    && surface !in pages && w == "UNOBSERVABLE_SURFACE:" + SurfaceName(surface)
    && (surface == ActiveDefinition || (Paginated(surface) && !surface.FieldsBySchema?))
  }

  ghost predicate Malformed(pages: Pages, surface: Surface, w: string) {
    Paginated(surface) && surface in pages && SequenceWarns(pages[surface], surface, w)
  }

  ghost predicate SurfacesWarn(pages: Pages, w: string) {
    exists surface :: Missing(pages, surface, w) || Malformed(pages, surface, w)
  }

  /** The item by its identifier, or as unknown if it states none. */
  ghost predicate NamedIn(w: string, text: string, item: Json) {
    if item.Obj? && "id" in item.members then w == text + Render(item.members["id"]) else w == text + "unknown"
  }

  ghost predicate SchemaWarns(pages: Pages, w: string) {
    exists item ::
      Lists(pages, MetadataSchemas, item) && !IsText(Get(item, "prefix"))
      && NamedIn(w, "UNRESOLVED_SCHEMA_PREFIX:", item)
  }

  ghost predicate Unnamed(pages: Pages, prefix: string, w: string) {
    exists item ::
      && Lists(pages, FieldsBySchema(prefix), item) && !IsText(Get(item, "element"))
      && NamedIn(w, "UNRESOLVED_FIELD_NAME:", item)
  }

  /** A declared schema has no field listing, or one with a field that has no name. */
  ghost predicate ListingWarns(pages: Pages, prefix: string, w: string) {
    if FieldsBySchema(prefix) in pages then Unnamed(pages, prefix, w)
    else w == "UNOBSERVABLE_SURFACE:" + SurfaceName(FieldsBySchema(prefix))
  }

  /** Two entries of the list have this identifier. */
  ghost predicate RepeatsId(ids: seq<string>, w: string) {
    exists id :: multiset(ids)[id] > 1 && w == "DUPLICATE_METADATA_FIELD_ID:" + id
  }

  /** The identifiers of the global listing are not those of the fields listed by schema. */
  ghost predicate CoverageWarns(pages: Pages, ids: set<string>, w: string) {
    var globals := IdTexts(SurfaceItems(pages, MetadataFields));
    && globals != ids
    && w == "METADATA_FIELD_COVERAGE_MISMATCH:global=" + NatText(|globals|) + ":qualified=" + NatText(|ids|)
  }

  ghost predicate RegistryWarns(pages: Pages, w: string) {
    var ids := EntryIds(CanonicalOf(pages).fields);
    || SchemaWarns(pages, w)
    || (exists s :: s in CanonicalOf(pages).schemas && ListingWarns(pages, s.prefix, w))
    || RepeatsId(ids, w)
    || CoverageWarns(pages, (set id | id in ids), w)
  }

  ghost predicate DefinitionWarns(pages: Pages, w: string) {
    || (w == "INVALID_ACTIVE_DEFINITION_EVIDENCE" && (ActiveDefinition in pages ==> |pages[ActiveDefinition]| != 1))
    || (w == "UNRESOLVED_ACTIVE_DEFINITION" && !IsText(CanonicalOf(pages).activeDefinition))
  }

  ghost predicate FormSection(pages: Pages, section: Json) {
    Lists(pages, ActiveSections, section) && Get(section, "sectionType") == Str("submission-form")
  }

  /** The section links to no form and has no name either. */
  ghost predicate NoForm(section: Json) {
    ConfigFormId(section).None? && !IsText(Get(section, "id"))
  }

  ghost predicate SectionsWarn(pages: Pages, w: string) {
    || (w == "UNRESOLVED_SUBMISSION_FORM_LINK" && exists section :: FormSection(pages, section) && NoForm(section))
    || (w == "NO_ACTIVE_SUBMISSION_FORMS" && forall section :: FormSection(pages, section) ==> NoForm(section))
  }

  ghost predicate FormWarns(byId: map<string, Json>, form: string, w: string) {
    if form !in byId then w == "UNRESOLVED_ACTIVE_FORM:" + form
    else !Get(byId[form], "rows").Arr? && w == "UNRESOLVED_FORM_ROWS:" + form
  }

  /** No field of the contract has this name. */
  ghost predicate Unregistered(pages: Pages, name: string) {
    forall field :: field in CanonicalOf(pages).fields ==> field.metadata != name
  }

  /** An active form is not there or has no rows, or an option in one binds a field that is not registered. */
  ghost predicate FormsWarn(pages: Pages, w: string) {
    var byId := FormsById(SurfaceItems(pages, SubmissionForms));
    var active := ActiveFormIds(SurfaceItems(pages, ActiveSections)).ids;
    || (exists form :: form in active && FormWarns(byId, form, w))
    || exists slot ::
         && Addressed(byId, active, slot) && Unregistered(pages, slot.metadata)
         && w == "BINDING_METADATA_NOT_IN_REGISTRY:" + slot.metadata
  }

  ghost predicate Warns(pages: Pages, w: string) {
    || SurfacesWarn(pages, w)
    || RegistryWarns(pages, w)
    || DefinitionWarns(pages, w)
    || SectionsWarn(pages, w)
    || FormsWarn(pages, w)
  }

  // Page sequences

  lemma SequenceIff(pages: Pages, surface: Surface, w: string)
    requires surface in pages
    ensures SequenceWarning(pages, surface) == Some(w) <==> SequenceWarns(pages[surface], surface, w)
  {
    var payloads := pages[surface];
    CleanIffExact(payloads);
    if AllMeta(payloads) {
      SortedNumbers(payloads);
    }
  }

  lemma PaginatedIff(pages: Pages, surface: Surface)
    ensures SequenceChecked(pages, surface) <==> Paginated(surface) && (surface.FieldsBySchema? ==> surface in pages)
  {
  }

  lemma SurfacesIff(pages: Pages, w: string)
    ensures w in MissingWarnings(pages) + SequenceWarnings(pages) <==> SurfacesWarn(pages, w)
  {
    forall surface
      ensures surface in REQUIRED && surface !in pages && w == "UNOBSERVABLE_SURFACE:" + SurfaceName(surface)
         <==> Missing(pages, surface, w)
    {
    }
    forall surface
      ensures SequenceChecked(pages, surface) && SequenceWarning(pages, surface) == Some(w) ==>
              Missing(pages, surface, w) || Malformed(pages, surface, w)
      ensures Malformed(pages, surface, w) ==>
              SequenceChecked(pages, surface) && SequenceWarning(pages, surface) == Some(w)
    {
      PaginatedIff(pages, surface);
      if surface in pages {
        SequenceIff(pages, surface, w);
      }
    }
    if surface :| Missing(pages, surface, w) {
      assert surface in REQUIRED && surface !in pages;
    }
    if surface :| Malformed(pages, surface, w) {
      assert surface in pages.Keys + REQUIRED && SequenceChecked(pages, surface);
      assert SequenceWarning(pages, surface).value == w;
    }
    if w in SequenceWarnings(pages) {
      var surface :| SequenceChecked(pages, surface) && SequenceWarning(pages, surface) == Some(w);
    }
    if w in MissingWarnings(pages) {
      var surface :| surface in REQUIRED && surface !in pages && w == "UNOBSERVABLE_SURFACE:" + SurfaceName(surface);
    }
  }

  // The registry

  ghost predicate UnnamedIn(items: seq<Json>, key: string, text: string, w: string) {
    exists item :: item in items && !IsText(Get(item, key)) && NamedIn(w, text, item)
  }

  lemma UnnamedOneMore(front: seq<Json>, last: Json, key: string, text: string, w: string)
    ensures UnnamedIn(front + [last], key, text, w)
       <==> UnnamedIn(front, key, text, w) || (!IsText(Get(last, key)) && NamedIn(w, text, last))
  {
    assert last in front + [last];
  }

  lemma IdOrUnknownIff(item: Json, text: string, w: string)
    ensures w == text + IdOrUnknown(item) <==> NamedIn(w, text, item)
  {
  }

  lemma {:induction false} SchemasIff(items: seq<Json>, w: string)
    ensures w in ScanSchemas(items).warnings <==> UnnamedIn(items, "prefix", "UNRESOLVED_SCHEMA_PREFIX:", w)
  {
    if items != [] {
      var front, last := items[..|items| - 1], items[|items| - 1];
      SchemasIff(front, w);
      UnnamedOneMore(front, last, "prefix", "UNRESOLVED_SCHEMA_PREFIX:", w);
      IdOrUnknownIff(last, "UNRESOLVED_SCHEMA_PREFIX:", w);
      SplitLast(items);
    }
  }

  lemma RepeatsOneMore(ids: seq<string>, id: string, w: string)
    ensures RepeatsId(ids + [id], w) <==> RepeatsId(ids, w) || (id in ids && w == "DUPLICATE_METADATA_FIELD_ID:" + id)
  {
    assert forall x :: multiset(ids + [id])[x] == multiset(ids)[x] + if x == id then 1 else 0;
    assert id in ids <==> multiset(ids)[id] > 0;
    if RepeatsId(ids + [id], w) {
      var x :| multiset(ids + [id])[x] > 1 && w == "DUPLICATE_METADATA_FIELD_ID:" + x;
      assert x != id ==> multiset(ids)[x] > 1;
    }
    if id in ids && w == "DUPLICATE_METADATA_FIELD_ID:" + id {
      assert multiset(ids + [id])[id] > 1;
    }
    if RepeatsId(ids, w) {
      var x :| multiset(ids)[x] > 1 && w == "DUPLICATE_METADATA_FIELD_ID:" + x;
      assert multiset(ids + [id])[x] > 1;
    }
  }

  /** The warning is there because of what came before, or because identifiers repeat. */
  ghost predicate Explained(fields: Fields, because: bool, w: string) {
    w in fields.warnings <==> because || RepeatsId(fields.ids, w)
  }

  lemma AddFieldIff(fields: Fields, prefix: string, field: Json, because: bool, w: string)
    requires Explained(fields, because, w)
    ensures Explained(
      AddField(fields, prefix, field),
      because || (!IsText(Get(field, "element")) && NamedIn(w, "UNRESOLVED_FIELD_NAME:", field)), w)
  {
    IdOrUnknownIff(field, "UNRESOLVED_FIELD_NAME:", w);
    RepeatsOneMore(fields.ids, IdText(field), w);
  }

  lemma {:induction false} AddFieldsIff(fields: Fields, prefix: string, items: seq<Json>, because: bool, w: string)
    requires Explained(fields, because, w)
    ensures Explained(
      AddFields(fields, prefix, items), because || UnnamedIn(items, "element", "UNRESOLVED_FIELD_NAME:", w), w)
  {
    if items != [] {
      var front, last := items[..|items| - 1], items[|items| - 1];
      AddFieldsIff(fields, prefix, front, because, w);
      AddFieldIff(
        AddFields(fields, prefix, front), prefix, last,
        because || UnnamedIn(front, "element", "UNRESOLVED_FIELD_NAME:", w), w);
      UnnamedOneMore(front, last, "element", "UNRESOLVED_FIELD_NAME:", w);
      SplitLast(items);
    }
  }

  lemma UnnamedIff(pages: Pages, surface: Surface, key: string, text: string, w: string)
    ensures UnnamedIn(SurfaceItems(pages, surface), key, text, w)
       <==> exists item :: Lists(pages, surface, item) && !IsText(Get(item, key)) && NamedIn(w, text, item)
  {
    forall item ensures item in SurfaceItems(pages, surface) <==> Lists(pages, surface, item) {
      ItemsAreListed(pages, surface, item);
    }
  }

  ghost predicate SomeListingWarns(pages: Pages, prefixes: seq<string>, w: string) {
    exists prefix :: prefix in prefixes && ListingWarns(pages, prefix, w)
  }

  lemma ListingOneMore(pages: Pages, before: seq<string>, prefix: string, w: string)
    requires Explained(ScanFields(pages, before), SomeListingWarns(pages, before, w), w)
    ensures Explained(ScanFields(pages, before + [prefix]), SomeListingWarns(pages, before + [prefix], w), w)
  {
    var all := before + [prefix];
    assert all[..|all| - 1] == before && prefix in all;
    assert SomeListingWarns(pages, all, w) <==> SomeListingWarns(pages, before, w) || ListingWarns(pages, prefix, w);
    if FieldsBySchema(prefix) in pages {
      var items := SurfaceItems(pages, FieldsBySchema(prefix));
      UnnamedIff(pages, FieldsBySchema(prefix), "element", "UNRESOLVED_FIELD_NAME:", w);
      AddFieldsIff(ScanFields(pages, before), prefix, items, SomeListingWarns(pages, before, w), w);
    }
  }

  lemma NothingListed(pages: Pages, w: string)
    ensures Explained(ScanFields(pages, []), SomeListingWarns(pages, [], w), w)
  {
  }

  lemma {:induction false} ListingsIff(pages: Pages, prefixes: seq<string>, w: string)
    ensures Explained(ScanFields(pages, prefixes), SomeListingWarns(pages, prefixes, w), w)
  {
    if prefixes != [] {
      var n := |prefixes| - 1;
      ListingsIff(pages, prefixes[..n], w);
      ListingOneMore(pages, prefixes[..n], prefixes[n], w);
      SplitLast(prefixes);
    } else {
      NothingListed(pages, w);
    }
  }

  lemma {:induction false} EntryIdsPermute(a: seq<FieldEntry>, b: seq<FieldEntry>)
    requires multiset(a) == multiset(b)
    ensures multiset(EntryIds(a)) == multiset(EntryIds(b))
  {
    var f := (e: FieldEntry) => Some(Render(e.id));
    FilterMapPermutes(a, b, f);
    EntryIdsFilter(a, f);
    EntryIdsFilter(b, f);
  }

  lemma {:induction false} EntryIdsFilter(a: seq<FieldEntry>, f: FieldEntry -> Option<string>)
    requires forall e :: f(e) == Some(Render(e.id))
    ensures EntryIds(a) == FilterMap(a, f)
  {
    if a != [] {
      EntryIdsFilter(a[..|a| - 1], f);
    }
  }

  /** The identifiers gathered are those of the canonical fields. */
  lemma IdsAreCanonical(pages: Pages)
    ensures multiset(ScanFields(pages, Prefixes(pages)).ids) == multiset(EntryIds(CanonicalOf(pages).fields))
  {
    var entries := QualifiedEntries(pages, Prefixes(pages));
    ScanFieldsMeaning(pages, Prefixes(pages));
    SortKeeps(entries, FieldOrder());
    EntryIdsPermute(entries, Sort(entries, FieldOrder()));
  }

  lemma ListedSchemasIff(pages: Pages, w: string)
    ensures SomeListingWarns(pages, Prefixes(pages), w)
       <==> exists s :: s in CanonicalOf(pages).schemas && ListingWarns(pages, s.prefix, w)
  {
    forall prefix
      ensures prefix in Prefixes(pages) <==> exists e :: e in CanonicalOf(pages).schemas && e.prefix == prefix
    {
      PrefixesAreDeclared(pages, prefix);
    }
  }

  lemma CoverageIff(pages: Pages, fields: Fields, ids: seq<string>, w: string)
    requires multiset(fields.ids) == multiset(ids)
    ensures w in CoverageWarnings(pages, fields) <==> CoverageWarns(pages, (set id | id in ids), w)
    ensures RepeatsId(fields.ids, w) <==> RepeatsId(ids, w)
  {
    MembersOfPermutation(fields.ids, ids);
    assert (set id | id in fields.ids) == set id | id in ids;
  }

  lemma SchemaWarnsIff(pages: Pages, w: string)
    ensures w in ScanSchemas(SurfaceItems(pages, MetadataSchemas)).warnings <==> SchemaWarns(pages, w)
  {
    SchemasIff(SurfaceItems(pages, MetadataSchemas), w);
    UnnamedIff(pages, MetadataSchemas, "prefix", "UNRESOLVED_SCHEMA_PREFIX:", w);
  }

  lemma RegistryParts(pages: Pages, w: string)
    ensures w in CanonicalRegistry(pages).warnings
       <==> || w in ScanSchemas(SurfaceItems(pages, MetadataSchemas)).warnings
            || w in ScanFields(pages, Prefixes(pages)).warnings
            || w in CoverageWarnings(pages, ScanFields(pages, Prefixes(pages)))
  {
  }

  lemma RegistryIff(pages: Pages, w: string)
    ensures w in CanonicalRegistry(pages).warnings <==> RegistryWarns(pages, w)
  {
    RegistryParts(pages, w);
    SchemaWarnsIff(pages, w);
    ListingsIff(pages, Prefixes(pages), w);
    ListedSchemasIff(pages, w);
    IdsAreCanonical(pages);
    CoverageIff(pages, ScanFields(pages, Prefixes(pages)), EntryIds(CanonicalOf(pages).fields), w);
  }

  // The definition, the sections and the forms

  lemma DefinitionIff(pages: Pages, w: string)
    ensures w in DefinitionWarnings(pages) <==> DefinitionWarns(pages, w)
  {
  }

  lemma FormOfIff(section: Json)
    requires Get(section, "sectionType") == Str("submission-form")
    ensures FormOf()(section).None? <==> NoForm(section)
  {
  }

  lemma ListedSections(pages: Pages)
    ensures forall section :: section in SurfaceItems(pages, ActiveSections) <==> Lists(pages, ActiveSections, section)
  {
    forall section
      ensures section in SurfaceItems(pages, ActiveSections) <==> Lists(pages, ActiveSections, section)
    {
      ItemsAreListed(pages, ActiveSections, section);
    }
  }

  lemma UnlinkedIff(pages: Pages, w: string)
    ensures w in FilterMap(SurfaceItems(pages, ActiveSections), UnlinkedOf())
       <==> w == "UNRESOLVED_SUBMISSION_FORM_LINK" && exists section :: FormSection(pages, section) && NoForm(section)
  {
    var sections, f := SurfaceItems(pages, ActiveSections), UnlinkedOf();
    ListedSections(pages);
    FilterMapHas(sections, f, w);
    forall section | section in sections
      ensures f(section) == Some(w)
         <==> w == "UNRESOLVED_SUBMISSION_FORM_LINK" && FormSection(pages, section) && NoForm(section)
    {
      if FormSection(pages, section) {
        FormOfIff(section);
      }
    }
  }

  lemma {:induction false} NoneGiven<T, U>(xs: seq<T>, f: T -> Option<U>)
    ensures FilterMap(xs, f) == [] <==> forall x :: x in xs ==> f(x).None?
  {
    if xs != [] {
      NoneGiven(xs[..|xs| - 1], f);
      SplitLast(xs);
    }
  }

  lemma NoneActiveIff(pages: Pages)
    ensures FilterMap(SurfaceItems(pages, ActiveSections), FormOf()) == []
       <==> forall section :: FormSection(pages, section) ==> NoForm(section)
  {
    var sections := SurfaceItems(pages, ActiveSections);
    ListedSections(pages);
    NoneGiven(sections, FormOf());
    forall section | section in sections
      ensures FormOf()(section).None? <==> FormSection(pages, section) ==> NoForm(section)
    {
      if FormSection(pages, section) {
        FormOfIff(section);
      }
    }
  }

  lemma SectionsIff(pages: Pages, w: string)
    ensures w in ActiveFormIds(SurfaceItems(pages, ActiveSections)).warnings <==> SectionsWarn(pages, w)
  {
    ActiveFormsMeaning(SurfaceItems(pages, ActiveSections));
    UnlinkedIff(pages, w);
    NoneActiveIff(pages);
  }

  ghost predicate UnregisteredIn(slots: seq<Slot>, registry: set<string>, w: string) {
    exists slot ::
      slot in slots && slot.metadata !in registry && w == "BINDING_METADATA_NOT_IN_REGISTRY:" + slot.metadata
  }

  lemma {:induction false} SlotsIff(slots: seq<Slot>, registry: set<string>, w: string)
    ensures w in SlotWarnings(slots, registry) <==> UnregisteredIn(slots, registry, w)
  {
    if slots != [] {
      var front, last := slots[..|slots| - 1], slots[|slots| - 1];
      SlotsIff(front, registry, w);
      assert slots == front + [last] && last in slots;
    }
  }

  lemma OneFormIff(byId: map<string, Json>, form: string, order: nat, registry: set<string>, w: string)
    ensures w in WarningsOfForm(byId, form, order, registry)
       <==> FormWarns(byId, form, w) || UnregisteredIn(SlotsOfForm(byId, form, order), registry, w)
  {
    SlotsIff(SlotsOfForm(byId, form, order), registry, w);
  }

  ghost predicate FlawedForm(byId: map<string, Json>, active: seq<string>, i: int, registry: set<string>, w: string) {
    0 <= i < |active| && (FormWarns(byId, active[i], w) || UnregisteredIn(SlotsOfForm(byId, active[i], i), registry, w))
  }

  lemma FormsByIndex(byId: map<string, Json>, active: seq<string>, registry: set<string>, w: string)
    ensures w in FormWarnings(byId, active, registry, |active|)
       <==> exists i :: FlawedForm(byId, active, i, registry, w)
  {
    var parts := WarningsByForm(byId, active, registry, |active|);
    FlattenHas(parts, w);
    forall i | 0 <= i < |active| ensures w in parts[i] <==> FlawedForm(byId, active, i, registry, w) {
      OneFormIff(byId, active[i], i, registry, w);
    }
  }

  /** The slots of all forms are the addressed ones. */
  lemma SlotsByForm(forms: seq<Json>, active: seq<string>, registry: set<string>, w: string)
    ensures (exists i: nat :: i < |active| && UnregisteredIn(SlotsOfForm(FormsById(forms), active[i], i), registry, w))
       <==> exists slot ::
              && Addressed(FormsById(forms), active, slot) && slot.metadata !in registry
              && w == "BINDING_METADATA_NOT_IN_REGISTRY:" + slot.metadata
  {
    var byId := FormsById(forms);
    forall slot
      ensures Addressed(byId, active, slot) <==> exists o :: o < |active| && InForm(byId, active, o, slot)
    {
      SlotsAreAddressed(forms, active, slot);
      FormsHave(byId, active, |active|, slot);
    }
    if i: nat :| i < |active| && UnregisteredIn(SlotsOfForm(byId, active[i], i), registry, w) {
      var slot :| slot in SlotsOfForm(byId, active[i], i) && slot.metadata !in registry
        && w == "BINDING_METADATA_NOT_IN_REGISTRY:" + slot.metadata;
      assert InForm(byId, active, i, slot);
    }
    if slot :|
        && Addressed(byId, active, slot) && slot.metadata !in registry
        && w == "BINDING_METADATA_NOT_IN_REGISTRY:" + slot.metadata
    {
      var o :| o < |active| && InForm(byId, active, o, slot);
      assert UnregisteredIn(SlotsOfForm(byId, active[o], o), registry, w);
    }
  }

  lemma FlawedIff(byId: map<string, Json>, active: seq<string>, registry: set<string>, w: string)
    ensures (exists i :: FlawedForm(byId, active, i, registry, w))
       <==> || (exists form :: form in active && FormWarns(byId, form, w))
            || exists i: nat :: i < |active| && UnregisteredIn(SlotsOfForm(byId, active[i], i), registry, w)
  {
    if i :| FlawedForm(byId, active, i, registry, w) {
      assert active[i] in active;
    }
    if form :| form in active && FormWarns(byId, form, w) {
      var i :| 0 <= i < |active| && active[i] == form;
      assert FlawedForm(byId, active, i, registry, w);
    }
    if i: nat :| i < |active| && UnregisteredIn(SlotsOfForm(byId, active[i], i), registry, w) {
      assert FlawedForm(byId, active, i, registry, w);
    }
  }

  lemma UnregisteredIff(pages: Pages, name: string)
    ensures Unregistered(pages, name) <==> name !in RegistryNames(CanonicalOf(pages).fields)
  {
    var fields := CanonicalOf(pages).fields;
    if field :| field in fields && field.metadata == name {
      var i :| 0 <= i < |fields| && fields[i] == field;
      assert fields[i].metadata in RegistryNames(fields);
    }
  }

  lemma FormsIff(pages: Pages, w: string)
    ensures w in BindingsOf(pages).warnings <==> FormsWarn(pages, w)
  {
    var forms, active := SurfaceItems(pages, SubmissionForms), ActiveFormIds(SurfaceItems(pages, ActiveSections)).ids;
    var registry := RegistryNames(CanonicalOf(pages).fields);
    FormsByIndex(FormsById(forms), active, registry, w);
    FlawedIff(FormsById(forms), active, registry, w);
    SlotsByForm(forms, active, registry, w);
    forall name ensures Unregistered(pages, name) <==> name !in registry {
      UnregisteredIff(pages, name);
    }
  }

  /** A snapshot carries exactly the warnings called for, sorted and each once. */
  lemma WarningsMeaning(pages: Pages)
    ensures var warnings := SnapshotOf(pages).warnings;
            && SortedBy(warnings, TextOrder()) && Distinct(warnings)
            && forall w :: w in warnings <==> Warns(pages, w)
  {
    SortedOfProperties(WarningsOf(pages));
    forall w ensures w in WarningsOf(pages) <==> Warns(pages, w) {
      SurfacesIff(pages, w);
      RegistryIff(pages, w);
      DefinitionIff(pages, w);
      SectionsIff(pages, w);
      FormsIff(pages, w);
    }
  }
}
