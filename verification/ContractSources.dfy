/** Where the canonical registry comes from: each entry stands on a stored page, and each page item gives one. */
module ContractSources {
  import opened JsonValues
  import opened Ordering
  import opened ContractStore
  import opened ContractClient
  import opened ContractSnapshot
  import opened ContractCompleteness

  /** Item `i` of page `p` of the surface. */
  ghost predicate OnPage(pages: Pages, surface: Surface, p: nat, i: nat, item: Json) {
    && surface in pages && p < |pages[surface]|
    && var values := Get(Get(pages[surface][p], "_embedded"), Relation(surface));
    && values.Arr? && i < |values.items| && values.items[i] == item && item.Obj?
  }

  ghost predicate Lists(pages: Pages, surface: Surface, item: Json) {
    exists p, i :: OnPage(pages, surface, p, i, item)
  }

  lemma {:induction false} ObjectsHave(values: seq<Json>, item: Json)
    ensures item in Objects(values) <==> item.Obj? && item in values
  {
    if values != [] {
      ObjectsHave(values[..|values| - 1], item);
      assert values == values[..|values| - 1] + [values[|values| - 1]];
    }
  }

  lemma {:induction false} ItemsHave(payloads: seq<Json>, relation: string, item: Json)
    ensures item in Items(payloads, relation)
       <==> exists p :: 0 <= p < |payloads| && item in ItemsOn(payloads[p], relation)
  {
    if payloads != [] {
      ItemsHave(payloads[..|payloads| - 1], relation, item);
    }
  }

  lemma ItemsAreListed(pages: Pages, surface: Surface, item: Json)
    ensures item in SurfaceItems(pages, surface) <==> Lists(pages, surface, item)
  {
    var payloads, relation := Payloads(pages, surface), Relation(surface);
    ItemsHave(payloads, relation, item);
    if item in SurfaceItems(pages, surface) {
      var p :| 0 <= p < |payloads| && item in ItemsOn(payloads[p], relation);
      var values := Get(Get(payloads[p], "_embedded"), relation);
      ObjectsHave(values.items, item);
      var i :| 0 <= i < |values.items| && values.items[i] == item;
      assert OnPage(pages, surface, p, i, item);
    }
    if Lists(pages, surface, item) {
      var p: nat, i: nat :| OnPage(pages, surface, p, i, item);
      var values := Get(Get(payloads[p], "_embedded"), relation);
      assert values.items[i] in values.items;
      ObjectsHave(values.items, item);
    }
  }

  // Schemas

  ghost predicate DeclaresSchema(item: Json, e: SchemaEntry) {
    && Get(item, "prefix") == Str(e.prefix) && e.prefix != ""
    && e.id == Get(item, "id") && e.namespace == Get(item, "namespace")
  }

  lemma SortHas<T>(xs: seq<T>, le: (T, T) -> bool, x: T)
    ensures x in Sort(xs, le) <==> x in xs
  {
    SortKeeps(xs, le);
    MembersOfPermutation(xs, Sort(xs, le));
  }

  /** The schemas are exactly those the stored pages declare with a prefix. */
  lemma SchemasReadThePages(pages: Pages, e: SchemaEntry)
    ensures e in CanonicalOf(pages).schemas
       <==> exists item :: Lists(pages, MetadataSchemas, item) && DeclaresSchema(item, e)
  {
    var items := SurfaceItems(pages, MetadataSchemas);
    ScanSchemasEntries(items);
    SortHas(ScanSchemas(items).entries, SchemaOrder(), e);
    FilterMapHas(items, SchemaOf(), e);
    if item :| Lists(pages, MetadataSchemas, item) && DeclaresSchema(item, e) {
      ItemsAreListed(pages, MetadataSchemas, item);
      assert SchemaOf()(item) == Some(e);
    }
    if item :| item in items && SchemaOf()(item) == Some(e) {
      ItemsAreListed(pages, MetadataSchemas, item);
      assert DeclaresSchema(item, e);
    }
  }

  // Fields

  /** `name` is the dotted name an item has under the prefix; an empty or absent qualifier is left out. */
  predicate NamedAs(item: Json, prefix: string, name: string) {
    var element, qualifier := Get(item, "element"), Get(item, "qualifier");
    && IsText(element)
    && name == prefix + "." + element.text + if IsText(qualifier) then "." + qualifier.text else ""
  }

  ghost predicate DeclaresField(item: Json, prefix: string, e: FieldEntry) {
    NamedAs(item, prefix, e.metadata) && e.id == Get(item, "id") && e.scopeNote == Get(item, "scopeNote")
  }

  lemma FieldOfMeaning(item: Json, prefix: string, e: FieldEntry)
    ensures FieldOf(prefix)(item) == Some(e) <==> DeclaresField(item, prefix, e)
  {
    if IsText(Get(item, "element")) && !IsText(Get(item, "qualifier")) {
      assert prefix + "." + Get(item, "element").text + "" == prefix + "." + Get(item, "element").text;
    }
    if IsText(Get(item, "element")) && IsText(Get(item, "qualifier")) {
      assert prefix + "." + Get(item, "element").text + ("." + Get(item, "qualifier").text)
          == prefix + "." + Get(item, "element").text + "." + Get(item, "qualifier").text;
    }
  }

  ghost predicate ListsField(pages: Pages, prefix: string, e: FieldEntry) {
    exists item :: Lists(pages, FieldsBySchema(prefix), item) && DeclaresField(item, prefix, e)
  }

  lemma PrefixListing(pages: Pages, prefix: string, e: FieldEntry)
    ensures e in FilterMap(SurfaceItems(pages, FieldsBySchema(prefix)), FieldOf(prefix))
       <==> ListsField(pages, prefix, e)
  {
    var surface := FieldsBySchema(prefix);
    var items := SurfaceItems(pages, surface);
    FilterMapHas(items, FieldOf(prefix), e);
    if item :| Lists(pages, surface, item) && DeclaresField(item, prefix, e) {
      ItemsAreListed(pages, surface, item);
      FieldOfMeaning(item, prefix, e);
    }
    if item :| item in items && FieldOf(prefix)(item) == Some(e) {
      ItemsAreListed(pages, surface, item);
      FieldOfMeaning(item, prefix, e);
    }
  }

  function PrefixPart(pages: Pages, prefix: string): seq<FieldEntry> {
    if FieldsBySchema(prefix) in pages then FilterMap(SurfaceItems(pages, FieldsBySchema(prefix)), FieldOf(prefix))
    else []
  }

  lemma QualifiedStep(pages: Pages, before: seq<string>, prefix: string, e: FieldEntry)
    ensures e in QualifiedEntries(pages, before + [prefix])
       <==> e in QualifiedEntries(pages, before) || e in PrefixPart(pages, prefix)
  {
    var all := before + [prefix];
    assert all[..|all| - 1] == before && all[|all| - 1] == prefix;
    assert QualifiedEntries(pages, all) == QualifiedEntries(pages, before) + PrefixPart(pages, prefix);
  }

  ghost predicate FieldUnder(pages: Pages, prefixes: seq<string>, k: int, e: FieldEntry) {
    0 <= k < |prefixes| && ListsField(pages, prefixes[k], e)
  }

  lemma {:induction false} QualifiedHave(pages: Pages, prefixes: seq<string>, e: FieldEntry)
    ensures e in QualifiedEntries(pages, prefixes) <==> exists k :: FieldUnder(pages, prefixes, k, e)
  {
    if prefixes != [] {
      var n := |prefixes| - 1;
      var front := prefixes[..n];
      assert prefixes == front + [prefixes[n]];
      QualifiedHave(pages, front, e);
      QualifiedStep(pages, front, prefixes[n], e);
      PrefixListing(pages, prefixes[n], e);
      assert e in PrefixPart(pages, prefixes[n]) <==> FieldUnder(pages, prefixes, n, e);
      assert forall k :: 0 <= k < n ==> (FieldUnder(pages, prefixes, k, e) <==> FieldUnder(pages, front, k, e));
    }
  }

  lemma PrefixesAreDeclared(pages: Pages, prefix: string)
    ensures prefix in Prefixes(pages) <==> exists e :: e in CanonicalOf(pages).schemas && e.prefix == prefix
  {
    var entries := ScanSchemas(SurfaceItems(pages, MetadataSchemas)).entries;
    SortedSetProperties(EntryPrefixes(entries));
    if prefix in Prefixes(pages) {
      var i :| 0 <= i < |EntryPrefixes(entries)| && EntryPrefixes(entries)[i] == prefix;
      SortHas(entries, SchemaOrder(), entries[i]);
    }
    if e :| e in CanonicalOf(pages).schemas && e.prefix == prefix {
      SortHas(entries, SchemaOrder(), e);
      var i :| 0 <= i < |entries| && entries[i] == e;
      assert EntryPrefixes(entries)[i] == prefix;
    }
  }

  /** The fields are exactly those listed, on the pages of some declared schema, under that schema's prefix. */
  lemma FieldsReadThePages(pages: Pages, e: FieldEntry)
    ensures e in CanonicalOf(pages).fields <==>
      exists s :: s in CanonicalOf(pages).schemas && ListsField(pages, s.prefix, e)
  {
    var prefixes := Prefixes(pages);
    ScanFieldsMeaning(pages, prefixes);
    SortHas(QualifiedEntries(pages, prefixes), FieldOrder(), e);
    QualifiedHave(pages, prefixes, e);
    if e in CanonicalOf(pages).fields {
      var k :| FieldUnder(pages, prefixes, k, e);
      PrefixesAreDeclared(pages, prefixes[k]);
    }
    if s :| s in CanonicalOf(pages).schemas && ListsField(pages, s.prefix, e) {
      PrefixesAreDeclared(pages, s.prefix);
      var k :| 0 <= k < |prefixes| && prefixes[k] == s.prefix;
      assert FieldUnder(pages, prefixes, k, e);
    }
  }
}
