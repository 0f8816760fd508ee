/** Two complete observations that differ although the comparison reports nothing, because a field name is repeated. */
module ContractRepetition {
  import opened JsonValues
  import opened Ordering
  import opened PageSequence
  import opened ContractStore
  import opened ContractClient
  import opened SubmissionBindings
  import opened ContractSnapshot
  import opened ContractCompleteness
  import opened ContractDiff
  import opened ContractPatch
  import opened ContractClassification

  // Pages of a small registry

  /** The only page of a collection with these items. */
  function OnlyPage(relation: string, items: seq<Json>): Json {
    Obj(map[
      "page" := Obj(map["number" := Num(0), "totalPages" := Num(1), "totalElements" := Num(|items|)]),
      "_embedded" := Obj(map[relation := Arr(items)])])
  }

  /** A field `title` with this identifier. */
  function Title(id: nat): Json {
    Obj(map["id" := Num(id), "element" := Str("title")])
  }

  const SCHEMA := Obj(map["id" := Num(1), "prefix" := Str("dc")])
  const SECTION := Obj(map["id" := Str("page"), "sectionType" := Str("submission-form")])
  const FORM := Obj(map["id" := Str("page"), "rows" := Arr([])])
  const DEFINITION := Obj(map["name" := Str("traditional")])

  /** One schema with these fields, and one active form without rows. */
  function PagesWith(fields: seq<Json>): Pages {
    map[
      MetadataSchemas := [OnlyPage(Relation(MetadataSchemas), [SCHEMA])],
      MetadataFields := [OnlyPage(Relation(MetadataFields), fields)],
      FieldsBySchema("dc") := [OnlyPage(Relation(FieldsBySchema("dc")), fields)],
      SubmissionForms := [OnlyPage(Relation(SubmissionForms), [FORM])],
      ActiveDefinition := [DEFINITION],
      ActiveSections := [OnlyPage(Relation(ActiveSections), [SECTION])]]
  }

  predicate AllObjects(items: seq<Json>) {
    forall i :: 0 <= i < |items| ==> items[i].Obj?
  }

  lemma {:induction false} ObjectsOfObjects(items: seq<Json>)
    requires AllObjects(items)
    ensures Objects(items) == items
  {
    if items != [] {
      ObjectsOfObjects(items[..|items| - 1]);
      assert items == items[..|items| - 1] + [items[|items| - 1]];
    }
  }

  /** The surface has one page, with these items. */
  predicate Holds(pages: Pages, surface: Surface, items: seq<Json>) {
    surface in pages && pages[surface] == [OnlyPage(Relation(surface), items)] && AllObjects(items)
  }

  lemma HeldItems(pages: Pages, surface: Surface, items: seq<Json>)
    requires Holds(pages, surface, items)
    ensures SurfaceItems(pages, surface) == items
  {
    var page := OnlyPage(Relation(surface), items);
    ObjectsOfObjects(items);
    assert ItemsOn(page, Relation(surface)) == items;
    assert Items([page], Relation(surface)) == Items([], Relation(surface)) + items;
  }

  lemma OnlyPageIsExact(relation: string, items: seq<Json>)
    ensures ExactPages([OnlyPage(relation, items)])
  {
    var page := OnlyPage(relation, items);
    assert MetaOf(page) == Some(PageMeta(0, 1, |items|));
    assert PageSequence.Numbers([page]) == [0];
  }

  /** One schema with these fields, one active form without rows, and nothing else by schema. */
  predicate HoldsAll(pages: Pages, fields: seq<Json>) {
    && Holds(pages, MetadataSchemas, [SCHEMA])
    && Holds(pages, MetadataFields, fields)
    && Holds(pages, FieldsBySchema("dc"), fields)
    && Holds(pages, SubmissionForms, [FORM])
    && Holds(pages, ActiveSections, [SECTION])
    && ActiveDefinition in pages && pages[ActiveDefinition] == [DEFINITION]
    && forall surface :: surface in pages && surface.FieldsBySchema? ==> surface == FieldsBySchema("dc")
  }

  lemma PagesHold(fields: seq<Json>)
    requires AllObjects(fields)
    ensures HoldsAll(PagesWith(fields), fields)
  {
  }

  // What they canonicalize to

  lemma SortedSingle(x: string)
    ensures SortedSet([x]) == [x]
  {
    assert [x][..0] == [] && [x][1..] == [];
    assert Dedup([x]) == [x];
    assert Sort([x], TextOrder()) == Insert(x, Sort([], TextOrder()), TextOrder());
  }

  lemma OnePrefix(pages: Pages)
    requires SurfaceItems(pages, MetadataSchemas) == [SCHEMA]
    ensures ScanSchemas([SCHEMA]).entries == [SchemaEntry("dc", Num(1), Null)]
    ensures Prefixes(pages) == ["dc"]
  {
    assert [SCHEMA][..0] == [];
    assert ScanSchemas([]) == Schemas([], []);
    assert EntryPrefixes([SchemaEntry("dc", Num(1), Null)]) == ["dc"];
    SortedSingle("dc");
  }

  function TitleEntry(id: nat): FieldEntry {
    FieldEntry("dc" + "." + "title", Num(id), Null)
  }

  function Titles(ids: seq<nat>): seq<Json> {
    seq(|ids|, i requires 0 <= i < |ids| => Title(ids[i]))
  }

  function TitleEntries(ids: seq<nat>): seq<FieldEntry> {
    seq(|ids|, i requires 0 <= i < |ids| => TitleEntry(ids[i]))
  }

  lemma TitleReads(id: nat)
    ensures FieldOf("dc")(Title(id)) == Some(TitleEntry(id))
  {
  }

  lemma {:induction false} TitlesRead(ids: seq<nat>)
    ensures FilterMap(Titles(ids), FieldOf("dc")) == TitleEntries(ids)
  {
    if ids != [] {
      var front := ids[..|ids| - 1];
      TitlesRead(front);
      assert Titles(ids)[..|ids| - 1] == Titles(front);
      TitleReads(ids[|ids| - 1]);
    }
  }

  /** What the pages list, surface by surface. */
  predicate ListTitles(pages: Pages, ids: seq<nat>) {
    && SurfaceItems(pages, MetadataSchemas) == [SCHEMA]
    && SurfaceItems(pages, MetadataFields) == Titles(ids)
    && FieldsBySchema("dc") in pages && SurfaceItems(pages, FieldsBySchema("dc")) == Titles(ids)
    && SurfaceItems(pages, SubmissionForms) == [FORM]
    && SurfaceItems(pages, ActiveSections) == [SECTION]
  }

  lemma AllItems(pages: Pages, ids: seq<nat>)
    requires HoldsAll(pages, Titles(ids))
    ensures ListTitles(pages, ids)
  {
    HeldItems(pages, MetadataSchemas, [SCHEMA]);
    HeldItems(pages, MetadataFields, Titles(ids));
    HeldItems(pages, FieldsBySchema("dc"), Titles(ids));
    HeldItems(pages, SubmissionForms, [FORM]);
    HeldItems(pages, ActiveSections, [SECTION]);
  }

  lemma PagesAre(pages: Pages, ids: seq<nat>)
    requires HoldsAll(pages, Titles(ids))
    ensures PagesExact(pages) && DefinitionExact(pages)
  {
    OnlyPageIsExact(Relation(MetadataSchemas), [SCHEMA]);
    OnlyPageIsExact(Relation(MetadataFields), Titles(ids));
    OnlyPageIsExact(Relation(FieldsBySchema("dc")), Titles(ids));
    OnlyPageIsExact(Relation(SubmissionForms), [FORM]);
    OnlyPageIsExact(Relation(ActiveSections), [SECTION]);
  }

  lemma FieldsAre(pages: Pages, ids: seq<nat>)
    requires ListTitles(pages, ids)
    ensures Prefixes(pages) == ["dc"] && QualifiedEntries(pages, ["dc"]) == TitleEntries(ids)
    ensures CanonicalRegistry(pages).fields == Sort(TitleEntries(ids), FieldOrder())
    ensures CanonicalRegistry(pages).schemas == Sort([SchemaEntry("dc", Num(1), Null)], SchemaOrder())
  {
    OnePrefix(pages);
    TitlesRead(ids);
    assert ["dc"][..0] == [];
    assert QualifiedEntries(pages, []) == [];
    ScanFieldsMeaning(pages, ["dc"]);
  }

  lemma OneFormId()
    ensures ScanFormIds([SECTION]).ids == ["page"] && AllResolve([SECTION]) && UsesForms([SECTION])
  {
    assert ConfigFormId(SECTION) == None;
    assert [SECTION][..0] == [];
    assert ScanFormIds([]) == FormIds([], []);
    ScanFormIdsMeaning([SECTION]);
    assert Resolves([SECTION][0]);
  }

  lemma OneFormById()
    ensures FormsById([FORM]) == map["page" := FORM] && SlotsOfForm(map["page" := FORM], "page", 0) == []
  {
    assert [FORM][..0] == [];
    assert FormsById([]) == map[];
    assert RowsOf(map["page" := FORM], "page") == Arr([]);
  }

  lemma FormsAre(pages: Pages, ids: seq<nat>)
    requires ListTitles(pages, ids)
    ensures FormsExact(pages) && BindingsOf(pages).bindings == []
  {
    OneFormId();
    OneFormById();
    OneFormBinds(RegistryNames(CanonicalRegistry(pages).fields));
  }

  lemma OneFormBinds(registry: set<string>)
    ensures FormsBind(FormsById([FORM]), ["page"], 1, registry)
    ensures CanonicalBindings([FORM], ["page"], registry).bindings == []
  {
    OneFormById();
    var byId := map["page" := FORM];
    assert FormSlots(byId, ["page"], 1) == FormSlots(byId, ["page"], 0) + SlotsOfForm(byId, "page", 0);
    assert FormBinds(byId, "page", 0, registry);
  }

  lemma IdTextsOfTitles(ids: seq<nat>)
    ensures IdTexts(Titles(ids)) == set id | id in EntryIds(TitleEntries(ids))
  {
    var items, rendered := Titles(ids), EntryIds(TitleEntries(ids));
    forall i | 0 <= i < |ids| ensures IdText(items[i]) == rendered[i] {
      assert Get(items[i], "id") == Num(ids[i]);
    }
  }

  lemma SchemaAndTitlesAreNamed(ids: seq<nat>)
    ensures Prefixed([SCHEMA]) && Named(Titles(ids))
  {
    assert Get(SCHEMA, "prefix") == Str("dc");
    forall i | 0 <= i < |ids| ensures Get(Titles(ids)[i], "element") == Str("title") {
    }
  }

  lemma RegistryIs(pages: Pages, ids: seq<nat>)
    requires ListTitles(pages, ids) && Distinct(EntryIds(TitleEntries(ids)))
    ensures RegistryExact(pages)
  {
    FieldsAre(pages, ids);
    IdTextsOfTitles(ids);
    SchemaAndTitlesAreNamed(ids);
    assert AllListed(pages, ["dc"]);
  }

  /** Pages with distinct identifiers make a complete snapshot, repeated names or not. */
  lemma TitlesAreComplete(ids: seq<nat>)
    requires Distinct(EntryIds(TitleEntries(ids)))
    ensures SnapshotOf(PagesWith(Titles(ids))).complete
  {
    var pages := PagesWith(Titles(ids));
    PagesHold(Titles(ids));
    AllItems(pages, ids);
    PagesAre(pages, ids);
    RegistryIs(pages, ids);
    FormsAre(pages, ids);
    CompleteIffExact(pages);
  }

  /** The contract these pages make. */
  function TitlesContract(ids: seq<nat>): Canonical {
    Canonical(
      Str("traditional"),
      Sort([SchemaEntry("dc", Num(1), Null)], SchemaOrder()),
      Sort(TitleEntries(ids), FieldOrder()),
      CanonicalSections([SECTION]),
      [])
  }

  lemma TitlesAreCanonical(ids: seq<nat>)
    ensures CanonicalOf(PagesWith(Titles(ids))) == TitlesContract(ids)
  {
    var pages := PagesWith(Titles(ids));
    PagesHold(Titles(ids));
    AllItems(pages, ids);
    FieldsAre(pages, ids);
    FormsAre(pages, ids);
    assert DefinitionName(pages) == Str("traditional");
  }

  // The hidden change

  lemma LaterEntryStands<T>(x: T, y: T, key: T -> string)
    requires key(x) == key(y)
    ensures MapBy([x, y], key) == MapBy([y], key)
  {
  }

  lemma SortedTitles()
    ensures Sort(TitleEntries([2]), FieldOrder()) == [TitleEntry(2)]
    ensures Sort(TitleEntries([1, 2]), FieldOrder()) == [TitleEntry(1), TitleEntry(2)]
  {
    var x, y := TitleEntry(1), TitleEntry(2);
    assert TitleEntries([2]) == [y] && TitleEntries([1, 2]) == [x, y];
    assert Sort([y], FieldOrder()) == Insert(y, [], FieldOrder()) == [y];
    assert FieldLe(x, y) by {
      assert Render(x.id) == "1" && Render(y.id) == "2";
    }
    assert Sort([x, y], FieldOrder()) == Insert(x, Sort([y], FieldOrder()), FieldOrder());
  }

  lemma TitleIdsDistinct()
    ensures Distinct(EntryIds(TitleEntries([2]))) && Distinct(EntryIds(TitleEntries([1, 2])))
  {
    assert EntryIds(TitleEntries([1, 2])) == ["1", "2"];
  }

  /**
    Both observations are complete; the second lists a further field of the same name first. The later
    entry stands for both, so the comparison reports nothing although the contracts are not the same.
   */
  lemma RepeatedNamesHideChanges()
    ensures var one, two := SnapshotOf(PagesWith(Titles([2]))), SnapshotOf(PagesWith(Titles([1, 2])));
            && one.complete && two.complete
            && Diff(one, two) == []
            && one.semanticHash != two.semanticHash
  {
    var one, two := SnapshotOf(PagesWith(Titles([2]))), SnapshotOf(PagesWith(Titles([1, 2])));
    TitleIdsDistinct();
    TitlesAreComplete([2]);
    TitlesAreComplete([1, 2]);
    TitlesAreCanonical([2]);
    TitlesAreCanonical([1, 2]);
    HiddenTitle();
    NoChangesIffSameContents(one, two);
  }

  lemma HiddenTitle()
    ensures ContentsOf(TitlesContract([2])) == ContentsOf(TitlesContract([1, 2]))
    ensures TitlesContract([2]) != TitlesContract([1, 2])
  {
    SortedTitles();
    LaterEntryStands(TitleEntry(1), TitleEntry(2), FieldKey());
    assert |TitlesContract([2]).fields| == 1 && |TitlesContract([1, 2]).fields| == 2;
  }
}
