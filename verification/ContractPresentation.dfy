/** The contract does not depend on how its items are split into pages, nor on the order fields come in. */
module ContractPresentation {
  import opened JsonValues
  import opened Ordering
  import opened ContractStore
  import opened ContractSnapshot
  import opened ContractCompleteness

  // Splitting

  /** Both hold the same items, whatever pages they are on. */
  ghost predicate Resplit(p: Pages, q: Pages) {
    && p.Keys == q.Keys
    && Payloads(p, ActiveDefinition) == Payloads(q, ActiveDefinition)
    && forall surface :: surface != ActiveDefinition ==> SurfaceItems(p, surface) == SurfaceItems(q, surface)
  }

  lemma {:induction false} ItemsConcat(a: seq<Json>, b: seq<Json>, relation: string)
    ensures Items(a + b, relation) == Items(a, relation) + Items(b, relation)
  {
    if b == [] {
      assert a + b == a;
    } else {
      assert (a + b)[..|a + b| - 1] == a + b[..|b| - 1];
      ItemsConcat(a, b[..|b| - 1], relation);
    }
  }

  lemma {:induction false} ObjectsConcat(a: seq<Json>, b: seq<Json>)
    ensures Objects(a + b) == Objects(a) + Objects(b)
  {
    if b == [] {
      assert a + b == a;
    } else {
      assert (a + b)[..|a + b| - 1] == a + b[..|b| - 1];
      ObjectsConcat(a, b[..|b| - 1]);
    }
  }

  /** Cutting one page's list in two, anywhere, leaves the items of the surface as they were. */
  lemma CuttingAPageKeepsItems(
    before: seq<Json>, page: Json, first: Json, second: Json, after: seq<Json>, relation: string)
    requires Get(Get(page, "_embedded"), relation).Arr?
    requires Get(Get(first, "_embedded"), relation).Arr? && Get(Get(second, "_embedded"), relation).Arr?
    requires Get(Get(page, "_embedded"), relation).items
          == Get(Get(first, "_embedded"), relation).items + Get(Get(second, "_embedded"), relation).items
    ensures Items(before + [page] + after, relation) == Items(before + [first, second] + after, relation)
  {
    ObjectsConcat(Get(Get(first, "_embedded"), relation).items, Get(Get(second, "_embedded"), relation).items);
    ItemsConcat(before, [page], relation);
    ItemsConcat(before, [first, second], relation);
    ItemsConcat(before + [page], after, relation);
    ItemsConcat(before + [first, second], after, relation);
    ItemsConcat([first], [second], relation);
    assert [first] + [second] == [first, second];
    assert ItemsOn(page, relation) == ItemsOn(first, relation) + ItemsOn(second, relation);
    OnePage(page, relation);
    OnePage(first, relation);
    OnePage(second, relation);
  }

  lemma OnePage(page: Json, relation: string)
    ensures Items([page], relation) == ItemsOn(page, relation)
  {
  }

  lemma {:induction false} ScanFieldsResplit(p: Pages, q: Pages, prefixes: seq<string>)
    requires Resplit(p, q)
    ensures ScanFields(p, prefixes) == ScanFields(q, prefixes)
  {
    if prefixes != [] {
      ScanFieldsResplit(p, q, prefixes[..|prefixes| - 1]);
      assert SurfaceItems(p, FieldsBySchema(prefixes[|prefixes| - 1]))
        == SurfaceItems(q, FieldsBySchema(prefixes[|prefixes| - 1]));
    }
  }

  lemma RegistryResplit(p: Pages, q: Pages)
    requires Resplit(p, q)
    ensures CanonicalRegistry(p) == CanonicalRegistry(q)
  {
    assert SurfaceItems(p, MetadataSchemas) == SurfaceItems(q, MetadataSchemas);
    assert SurfaceItems(p, MetadataFields) == SurfaceItems(q, MetadataFields);
    ScanFieldsResplit(p, q, Prefixes(p));
  }

  /** Splitting the items over other pages changes neither the contract nor what is said about its items. */
  lemma ResplitKeepsContract(p: Pages, q: Pages)
    requires Resplit(p, q)
    ensures CanonicalOf(p) == CanonicalOf(q) && ItemWarnings(p) == ItemWarnings(q)
  {
    RegistryResplit(p, q);
    assert SurfaceItems(p, SubmissionForms) == SurfaceItems(q, SubmissionForms);
    assert SurfaceItems(p, ActiveSections) == SurfaceItems(q, ActiveSections);
    assert DefinitionName(p) == DefinitionName(q) && DefinitionWarnings(p) == DefinitionWarnings(q);
    assert BindingsOf(p) == BindingsOf(q);
  }

  // Order

  /** The same items, with schemas and fields in another order and on other pages. */
  ghost predicate Rearranged(p: Pages, q: Pages) {
    && p.Keys == q.Keys
    && Payloads(p, ActiveDefinition) == Payloads(q, ActiveDefinition)
    && SurfaceItems(p, SubmissionForms) == SurfaceItems(q, SubmissionForms)
    && SurfaceItems(p, ActiveSections) == SurfaceItems(q, ActiveSections)
    && multiset(SurfaceItems(p, MetadataSchemas)) == multiset(SurfaceItems(q, MetadataSchemas))
    && multiset(SurfaceItems(p, MetadataFields)) == multiset(SurfaceItems(q, MetadataFields))
    && forall prefix: string ::
         multiset(SurfaceItems(p, FieldsBySchema(prefix))) == multiset(SurfaceItems(q, FieldsBySchema(prefix)))
  }

  /** No prefix names two schemas. */
  ghost predicate PrefixesUnique(pages: Pages) {
    DistinctBy(ScanSchemas(SurfaceItems(pages, MetadataSchemas)).entries, SchemaKey())
  }

  lemma SchemaOrderIsTotal()
    ensures TotalPreorder(SchemaOrder())
  {
    forall a: SchemaEntry, b: SchemaEntry ensures SchemaOrder()(a, b) || SchemaOrder()(b, a) {
      TextLeTotal(a.prefix, b.prefix);
    }
    forall a: SchemaEntry, b: SchemaEntry, c: SchemaEntry | SchemaOrder()(a, b) && SchemaOrder()(b, c)
      ensures SchemaOrder()(a, c)
    {
      TextLeTransitive(a.prefix, b.prefix, c.prefix);
    }
  }

  lemma FieldLeTotal(a: FieldEntry, b: FieldEntry)
    ensures FieldLe(a, b) || FieldLe(b, a)
    ensures FieldLe(a, b) && FieldLe(b, a) ==> Render(a.id) == Render(b.id)
  {
    TextLeTotal(a.metadata, b.metadata);
    TextLeTotal(Render(a.id), Render(b.id));
  }

  lemma FieldLeTransitive(a: FieldEntry, b: FieldEntry, c: FieldEntry)
    requires FieldLe(a, b) && FieldLe(b, c)
    ensures FieldLe(a, c)
  {
    TextLeTotal(a.metadata, b.metadata);
    TextLeTotal(b.metadata, c.metadata);
    if a.metadata == b.metadata == c.metadata {
      TextLeTransitive(Render(a.id), Render(b.id), Render(c.id));
    } else {
      assert TextLe(a.metadata, b.metadata) && TextLe(b.metadata, c.metadata);
      TextLeTransitive(a.metadata, b.metadata, c.metadata);
    }
  }

  lemma FieldOrderIsTotal()
    ensures TotalPreorder(FieldOrder())
  {
    forall a: FieldEntry, b: FieldEntry ensures FieldOrder()(a, b) || FieldOrder()(b, a) {
      FieldLeTotal(a, b);
    }
    forall a: FieldEntry, b: FieldEntry, c: FieldEntry | FieldOrder()(a, b) && FieldOrder()(b, c)
      ensures FieldOrder()(a, c)
    {
      FieldLeTransitive(a, b, c);
    }
  }

  lemma SchemaTies(entries: seq<SchemaEntry>)
    requires DistinctBy(entries, SchemaKey())
    ensures TiesAreEqual(entries, SchemaOrder())
  {
    forall i, j | 0 <= i < |entries| && 0 <= j < |entries|
      && SchemaOrder()(entries[i], entries[j]) && SchemaOrder()(entries[j], entries[i])
      ensures entries[i] == entries[j]
    {
      TextLeTotal(entries[i].prefix, entries[j].prefix);
      assert SchemaKey()(entries[i]) == SchemaKey()(entries[j]);
    }
  }

  lemma SchemasRearranged(p: Pages, q: Pages)
    requires Rearranged(p, q) && PrefixesUnique(p)
    ensures CanonicalRegistry(p).schemas == CanonicalRegistry(q).schemas
  {
    var a, b := SurfaceItems(p, MetadataSchemas), SurfaceItems(q, MetadataSchemas);
    ScanSchemasEntries(a);
    ScanSchemasEntries(b);
    FilterMapPermutes(a, b, SchemaOf());
    SchemaOrderIsTotal();
    SchemaTies(ScanSchemas(a).entries);
    SortOfPermutation(ScanSchemas(a).entries, ScanSchemas(b).entries, SchemaOrder());
  }

  lemma PrefixesRearranged(p: Pages, q: Pages)
    requires Rearranged(p, q)
    ensures Prefixes(p) == Prefixes(q)
  {
    var a, b := SurfaceItems(p, MetadataSchemas), SurfaceItems(q, MetadataSchemas);
    ScanSchemasEntries(a);
    ScanSchemasEntries(b);
    FilterMapPermutes(a, b, SchemaOf());
    var xs, ys := ScanSchemas(a).entries, ScanSchemas(b).entries;
    MembersOfPermutation(xs, ys);
    SamePrefixes(xs, ys);
    SamePrefixes(ys, xs);
    SortedSetOfSameMembers(EntryPrefixes(xs), EntryPrefixes(ys));
  }

  lemma SamePrefixes(xs: seq<SchemaEntry>, ys: seq<SchemaEntry>)
    requires forall x :: x in xs ==> x in ys
    ensures forall prefix :: prefix in EntryPrefixes(xs) ==> prefix in EntryPrefixes(ys)
  {
    forall prefix | prefix in EntryPrefixes(xs) ensures prefix in EntryPrefixes(ys) {
      var i :| 0 <= i < |EntryPrefixes(xs)| && EntryPrefixes(xs)[i] == prefix;
      assert xs[i] in ys;
      var j :| 0 <= j < |ys| && ys[j] == xs[i];
      assert EntryPrefixes(ys)[j] == prefix;
    }
  }

  lemma {:induction false} QualifiedRearranged(p: Pages, q: Pages, prefixes: seq<string>)
    requires Rearranged(p, q)
    ensures multiset(QualifiedEntries(p, prefixes)) == multiset(QualifiedEntries(q, prefixes))
  {
    if prefixes != [] {
      var prefix := prefixes[|prefixes| - 1];
      QualifiedRearranged(p, q, prefixes[..|prefixes| - 1]);
      FilterMapPermutes(
        SurfaceItems(p, FieldsBySchema(prefix)), SurfaceItems(q, FieldsBySchema(prefix)), FieldOf(prefix));
    }
  }

  function RenderedId(): FieldEntry -> string {
    (entry: FieldEntry) => Render(entry.id)
  }

  lemma IdsDistinct(entries: seq<FieldEntry>)
    ensures Distinct(EntryIds(entries)) <==> DistinctBy(entries, RenderedId())
  {
    var ids := EntryIds(entries);
    if Distinct(ids) {
      forall i, j | 0 <= i < j < |entries| ensures RenderedId()(entries[i]) != RenderedId()(entries[j]) {
        assert ids[i] != ids[j];
      }
    }
    if DistinctBy(entries, RenderedId()) {
      forall i, j | 0 <= i < j < |ids| ensures ids[i] != ids[j] {
        assert RenderedId()(entries[i]) != RenderedId()(entries[j]);
      }
    }
  }

  /** Fields with distinct identifiers are told apart by their order. */
  lemma FieldTiesAreEqual(xs: seq<FieldEntry>)
    requires DistinctBy(xs, RenderedId())
    ensures TiesAreEqual(xs, FieldOrder())
  {
    forall i, j | 0 <= i < |xs| && 0 <= j < |xs| && FieldOrder()(xs[i], xs[j]) && FieldOrder()(xs[j], xs[i])
      ensures xs[i] == xs[j]
    {
      FieldLeTotal(xs[i], xs[j]);
      assert RenderedId()(xs[i]) == RenderedId()(xs[j]);
    }
  }

  lemma FieldsRearranged(p: Pages, q: Pages)
    requires Rearranged(p, q) && Distinct(EntryIds(QualifiedEntries(p, Prefixes(p))))
    ensures CanonicalRegistry(p).fields == CanonicalRegistry(q).fields
    ensures Distinct(EntryIds(QualifiedEntries(q, Prefixes(q))))
  {
    PrefixesRearranged(p, q);
    var prefixes := Prefixes(p);
    var xs, ys := QualifiedEntries(p, prefixes), QualifiedEntries(q, prefixes);
    QualifiedRearranged(p, q, prefixes);
    ScanFieldsMeaning(p, prefixes);
    ScanFieldsMeaning(q, prefixes);
    IdsDistinct(xs);
    PermutedDistinctBy(xs, ys, RenderedId());
    IdsDistinct(ys);
    FieldOrderIsTotal();
    FieldTiesAreEqual(xs);
    SortOfPermutation(xs, ys, FieldOrder());
  }

  lemma SameIdTexts(a: seq<Json>, b: seq<Json>)
    requires multiset(a) == multiset(b)
    ensures IdTexts(a) == IdTexts(b)
  {
    MembersOfPermutation(a, b);
    forall i | 0 <= i < |a| ensures IdText(a[i]) in IdTexts(b) {
      assert a[i] in b;
    }
    forall i | 0 <= i < |b| ensures IdText(b[i]) in IdTexts(a) {
      assert b[i] in a;
    }
  }

  lemma SameIdSets(a: seq<FieldEntry>, b: seq<FieldEntry>)
    requires multiset(a) == multiset(b)
    ensures forall id :: id in EntryIds(a) ==> id in EntryIds(b)
  {
    MembersOfPermutation(a, b);
    forall id | id in EntryIds(a) ensures id in EntryIds(b) {
      var i :| 0 <= i < |a| && EntryIds(a)[i] == id;
      assert a[i] in b;
      var j :| 0 <= j < |b| && b[j] == a[i];
      assert EntryIds(b)[j] == id;
    }
  }

  lemma ListedRearranged(p: Pages, q: Pages, prefix: string)
    requires Rearranged(p, q) && Listed(p, prefix)
    ensures Listed(q, prefix)
  {
    var a, b := SurfaceItems(p, FieldsBySchema(prefix)), SurfaceItems(q, FieldsBySchema(prefix));
    MembersOfPermutation(a, b);
    forall i | 0 <= i < |b| ensures IsText(Get(b[i], "element")) {
      assert b[i] in a;
    }
  }

  lemma PrefixedRearranged(p: Pages, q: Pages)
    requires Rearranged(p, q) && Prefixed(SurfaceItems(p, MetadataSchemas))
    ensures Prefixed(SurfaceItems(q, MetadataSchemas))
  {
    var a, b := SurfaceItems(p, MetadataSchemas), SurfaceItems(q, MetadataSchemas);
    MembersOfPermutation(a, b);
    forall i | 0 <= i < |b| ensures IsText(Get(b[i], "prefix")) {
      assert b[i] in a;
    }
  }

  lemma RegistryRearranged(p: Pages, q: Pages)
    requires Rearranged(p, q) && RegistryExact(p)
    ensures RegistryExact(q)
  {
    PrefixesRearranged(p, q);
    PrefixedRearranged(p, q);
    FieldsRearranged(p, q);
    forall prefix | prefix in Prefixes(q) ensures Listed(q, prefix) {
      ListedRearranged(p, q, prefix);
    }
    SameIdTexts(SurfaceItems(p, MetadataFields), SurfaceItems(q, MetadataFields));
    QualifiedRearranged(p, q, Prefixes(p));
    SameIdSets(QualifiedEntries(p, Prefixes(p)), QualifiedEntries(q, Prefixes(q)));
    SameIdSets(QualifiedEntries(q, Prefixes(q)), QualifiedEntries(p, Prefixes(p)));
  }

  /** A complete snapshot is the same one however its schemas and fields are ordered and paged. */
  lemma RearrangingKeepsSnapshot(p: Pages, q: Pages)
    requires Rearranged(p, q) && PrefixesUnique(p) && PagesExact(q)
    requires SnapshotOf(p).complete
    ensures SnapshotOf(q) == SnapshotOf(p)
  {
    CompleteIffExact(p);
    RegistryRearranged(p, q);
    SchemasRearranged(p, q);
    FieldsRearranged(p, q);
    assert DefinitionName(p) == DefinitionName(q);
    assert BindingsOf(p) == BindingsOf(q);
    assert CanonicalOf(p) == CanonicalOf(q);
    CompleteIffExact(q);
  }
}
