/**
  What a COMPLETE run brings to the canonicalizer, whatever the server answered: every required surface
  and every schema's field listing is there, and the only fault its page sequences can show is totals
  that changed between pages.
 */
module ContractCompleteRuns {
  import opened JsonValues
  import opened Ordering
  import opened PageSequence
  import opened ContractStore
  import opened ContractClient
  import opened ContractSync
  import opened ContractEvidence
  import opened ContractPages
  import opened ContractHistory
  import opened ContractResume
  import Snapshot = ContractSnapshot
  import Completeness = ContractCompleteness
  import Sources = ContractSources

  /** The pages loaded for a surface are the payloads of its stored pages, page 0 first. */
  lemma LoadedSurface(rows: seq<RawPage>, ok: (Request, Json) -> bool, surface: Surface)
    requires Trace(rows, ok)
    ensures surface in LoadedPages(rows) <==> Count(rows, surface) > 0
    ensures surface in LoadedPages(rows) ==>
              && |LoadedPages(rows)[surface]| == Count(rows, surface)
              && forall n :: 0 <= n < Count(rows, surface) ==>
                   match FindPage(rows, surface, n)
                   case None => false
                   case Some(page) => LoadedPages(rows)[surface][n] == page.payload
  {
    var sorted := Sort(rows, RowOrder());
    RowsAreDense(rows, ok, surface);
    LoadedInOrder(rows, ok, surface);
    if surface !in SurfacesOf(sorted) {
      NoRows(sorted, surface);
    } else {
      var i :| 0 <= i < |sorted| && sorted[i].surface == surface;
      HasRow(sorted, i);
    }
  }

  lemma {:induction false} HasRow(rows: seq<RawPage>, i: nat)
    requires i < |rows|
    ensures RowsOf(rows, rows[i].surface) != []
  {
    if i < |rows| - 1 {
      HasRow(rows[..|rows| - 1], i);
    }
  }

  lemma PlanDone(rows: seq<RawPage>, target: Target)
    requires NextTarget(rows) == None && target in Plan(rows)
    ensures Done(rows, target.surface)
  {
    FirstUndoneNone(Plan(rows), rows);
  }

  /** What the checks read off a stored page. */
  lemma LoadedMeta(page: RawPage)
    requires WellFormed(page) && page.surface != ActiveDefinition
    ensures match MetaOf(page.payload)
            case None => false
            case Some(meta) =>
              && meta.number == page.pageNumber
              && meta.totalPages == TotalPages(page)
              && (meta.totalPages == 0 ==> meta.totalElements == 0)
  {
  }

  lemma DoneCloses(rows: seq<RawPage>, surface: Surface)
    requires surface != ActiveDefinition && Done(rows, surface)
    ensures Count(rows, surface) > 0
    ensures match FindPage(rows, surface, Count(rows, surface) - 1)
            case None => false
            case Some(page) => TotalPages(page) <= Count(rows, surface)
  {
  }

  lemma PagesNumbered(rows: seq<RawPage>, ok: (Request, Json) -> bool, surface: Surface)
    requires Trace(rows, ok) && surface != ActiveDefinition && Count(rows, surface) > 0
    ensures surface in LoadedPages(rows)
    ensures var payloads := LoadedPages(rows)[surface];
            && AllMeta(payloads)
            && |payloads| == Count(rows, surface)
            && Numbers(payloads) == Range(|payloads|)
            && forall n: nat :: n < |payloads| ==>
                 match FindPage(rows, surface, n)
                 case None => false
                 case Some(page) => WellFormed(page) && page.surface == surface && payloads[n] == page.payload
  {
    LoadedSurface(rows, ok, surface);
    forall n: nat | n < Count(rows, surface)
      ensures match FindPage(rows, surface, n)
              case None => false
              case Some(page) =>
                && WellFormed(page) && page.surface == surface
                && MetaOf(page.payload).Some? && MetaOf(page.payload).value.number == n
    {
      FindDense(rows, ok, surface, n);
      LoadedMeta(FindPage(rows, surface, n).value);
    }
  }

  /** If the pages of a finished surface agree on the totals, there are exactly as many as they say. */
  lemma AgreeingTotalsCount(rows: seq<RawPage>, ok: (Request, Json) -> bool, surface: Surface)
    requires Trace(rows, ok) && surface != ActiveDefinition && Done(rows, surface)
    requires surface in LoadedPages(rows) && TotalsAgree(LoadedPages(rows)[surface])
    ensures ExactPages(LoadedPages(rows)[surface])
  {
    var payloads, c := LoadedPages(rows)[surface], Count(rows, surface);
    DoneCloses(rows, surface);
    PagesNumbered(rows, ok, surface);
    var first := MetaOf(payloads[0]).value;
    var last := FindPage(rows, surface, c - 1).value;
    LoadedMeta(last);
    LoadedMeta(FindPage(rows, surface, 0).value);
    assert SameTotals(payloads[c - 1], payloads[0]);
    assert first.totalPages <= c;
    if c > 1 {
      EarlierAnnounced(rows, ok, surface, c - 2);
      LoadedMeta(FindPage(rows, surface, c - 2).value);
      assert SameTotals(payloads[c - 2], payloads[0]);
      assert first.totalPages == c;
    }
    assert Distinct(Numbers(payloads));
    assert Numbers(payloads)[0] == 0;
    forall k: nat ensures k in Numbers(payloads) <==> k < c {
      if k < c {
        assert Numbers(payloads)[k] == k;
      }
    }
  }

  /** A finished surface passes the page checks exactly when its pages agree on the totals. */
  lemma FinishedSurfaceVerdict(rows: seq<RawPage>, ok: (Request, Json) -> bool, surface: Surface)
    requires Trace(rows, ok) && surface != ActiveDefinition && Done(rows, surface)
    ensures surface in LoadedPages(rows)
    ensures PageVerdict(LoadedPages(rows)[surface])
         == if TotalsAgree(LoadedPages(rows)[surface]) then Clean else Inconsistent
  {
    DoneCloses(rows, surface);
    PagesNumbered(rows, ok, surface);
    if TotalsAgree(LoadedPages(rows)[surface]) {
      AgreeingTotalsCount(rows, ok, surface);
    }
    CleanIffExact(LoadedPages(rows)[surface]);
  }

  // The schema prefixes the collector and the canonicalizer see

  lemma {:induction false} SchemaPrefixesHas(items: seq<Json>, item: Json)
    requires item in items && IsText(Get(item, "prefix"))
    ensures match SchemaPrefixes(items)
            case None => true
            case Some(prefixes) => Get(item, "prefix").text in prefixes
  {
    var front, last := items[..|items| - 1], items[|items| - 1];
    assert items == front + [last];
    if item in front {
      SchemaPrefixesHas(front, item);
    }
  }

  lemma {:induction false} PrefixesHasPage(rows: seq<RawPage>, page: RawPage, prefix: string)
    requires page in rows && prefix in PrefixesOn(page)
    ensures prefix in Prefixes(rows)
  {
    var front, last := rows[..|rows| - 1], rows[|rows| - 1];
    assert rows == front + [last];
    if page in front {
      PrefixesHasPage(front, page, prefix);
    }
  }

  lemma ItemPrefixCollected(page: RawPage, item: Json)
    requires WellFormed(page) && page.surface == MetadataSchemas
    requires var values := Get(Get(page.payload, "_embedded"), Relation(MetadataSchemas));
             values.Arr? && item in values.items && IsText(Get(item, "prefix"))
    ensures Get(item, "prefix").text in PrefixesOn(page)
  {
    var hal := ParsePage(Relation(MetadataSchemas), page.payload).value;
    var values := Get(Get(page.payload, "_embedded"), Relation(MetadataSchemas));
    assert hal.items == values.items;
    SchemaPrefixesHas(hal.items, item);
  }

  lemma PrefixOnSomePage(pages: Snapshot.Pages, prefix: string) returns (n: nat, item: Json)
    requires prefix in Completeness.Prefixes(pages)
    ensures MetadataSchemas in pages && n < |pages[MetadataSchemas]|
    ensures var values := Get(Get(pages[MetadataSchemas][n], "_embedded"), Relation(MetadataSchemas));
            values.Arr? && item in values.items
    ensures Get(item, "prefix") == Str(prefix) && prefix != ""
  {
    Sources.PrefixesAreDeclared(pages, prefix);
    var entry :| entry in Snapshot.CanonicalOf(pages).schemas && entry.prefix == prefix;
    Sources.SchemasReadThePages(pages, entry);
    item :| Sources.Lists(pages, MetadataSchemas, item) && Sources.DeclaresSchema(item, entry);
    var p: nat, i: nat :| Sources.OnPage(pages, MetadataSchemas, p, i, item);
    n := p;
  }

  /** Every schema the canonicalizer finds had its fields collected. */
  lemma SchemaWasWalked(rows: seq<RawPage>, ok: (Request, Json) -> bool, prefix: string)
    requires Trace(rows, ok) && NextTarget(rows) == None
    requires prefix in Completeness.Prefixes(LoadedPages(rows))
    ensures Done(rows, FieldsBySchema(prefix))
  {
    var pages := LoadedPages(rows);
    var n, item := PrefixOnSomePage(pages, prefix);
    LoadedSurface(rows, ok, MetadataSchemas);
    FindDense(rows, ok, MetadataSchemas, n);
    var page := FindPage(rows, MetadataSchemas, n).value;
    ItemPrefixCollected(page, item);
    PrefixesHasPage(rows, page, prefix);
    SortedSetProperties(Prefixes(rows));
    PrefixPlanned(rows, prefix);
    PlanDone(rows, BySchema(prefix));
  }

  lemma PrefixPlanned(rows: seq<RawPage>, prefix: string)
    requires prefix in SortedSet(Prefixes(rows))
    ensures BySchema(prefix) in Plan(rows)
  {
    var prefixes := SortedSet(Prefixes(rows));
    var i :| 0 <= i < |prefixes| && prefixes[i] == prefix;
    assert BySchemas(prefixes)[i] == BySchema(prefix);
    assert BySchema(prefix) in BySchemas(prefixes);
  }

  predicate Paginated(surface: Surface) {
    surface in Snapshot.PAGINATED_REQUIRED || surface.FieldsBySchema?
  }

  lemma RequiredPlanned(rows: seq<RawPage>, surface: Surface) returns (target: Target)
    requires surface in Snapshot.REQUIRED
    ensures target in Plan(rows) && target.surface == surface
  {
    var b := |BeforeGlobals(rows)|;
    PlanParts(rows, b);
    var at := if surface == MetadataSchemas then 0 else if surface == MetadataFields then 1
              else if surface == SubmissionForms then b + 2 else if surface == ActiveDefinition then b + 3 else b + 4;
    target := Plan(rows)[at];
  }

  lemma RequiredDone(rows: seq<RawPage>, surface: Surface)
    requires NextTarget(rows) == None && surface in Snapshot.REQUIRED
    ensures Done(rows, surface)
  {
    var target := RequiredPlanned(rows, surface);
    PlanDone(rows, target);
  }

  lemma {:induction false} PrefixesGrow(rows: seq<RawPage>, i: nat)
    requires i <= |rows|
    ensures Prefixes(rows[..i]) <= Prefixes(rows)
  {
    if i < |rows| {
      var front := rows[..|rows| - 1];
      PrefixesGrow(front, i);
      assert front[..i] == rows[..i];
    } else {
      assert rows[..i] == rows;
    }
  }

  lemma HasSurface(rows: seq<RawPage>, surface: Surface) returns (i: nat)
    requires Count(rows, surface) > 0
    ensures i < |rows| && rows[i].surface == surface
  {
    i := |rows| - 1;
    if rows[i].surface != surface {
      i := HasSurface(rows[..i], surface);
    }
  }

  /** In any plan, a by-schema surface stands for one of the prefixes known. */
  lemma PlannedPrefix(rows: seq<RawPage>, target: Target)
    requires target in Plan(rows) && target.surface.FieldsBySchema?
    ensures target.surface.prefix in SortedSet(Prefixes(rows))
  {
    var prefixes := SortedSet(Prefixes(rows));
    assert target in BySchemas(prefixes);
    var i :| 0 <= i < |BySchemas(prefixes)| && BySchemas(prefixes)[i] == target;
    assert prefixes[i] == target.surface.prefix;
  }

  lemma SchemaSurfaceDone(rows: seq<RawPage>, ok: (Request, Json) -> bool, surface: Surface)
    requires Trace(rows, ok) && NextTarget(rows) == None && surface.FieldsBySchema? && Count(rows, surface) > 0
    ensures Done(rows, surface)
  {
    var i := HasSurface(rows, surface);
    assert StoredAt(rows, ok, i);
    var k := FirstUndoneSplits(Plan(rows[..i]), rows[..i]);
    PlannedPrefix(rows[..i], Plan(rows[..i])[k]);
    SortedSetProperties(Prefixes(rows[..i]));
    SortedSetProperties(Prefixes(rows));
    PrefixesGrow(rows, i);
    PrefixPlanned(rows, surface.prefix);
    PlanDone(rows, BySchema(surface.prefix));
  }

  /** The definition of a finished run is there once, and has a name. */
  lemma DefinitionLoaded(rows: seq<RawPage>, ok: (Request, Json) -> bool)
    requires Trace(rows, ok) && Done(rows, ActiveDefinition)
    ensures Completeness.DefinitionExact(LoadedPages(rows))
  {
    LoadedSurface(rows, ok, ActiveDefinition);
    FindDense(rows, ok, ActiveDefinition, 0);
    DefinitionOnce(rows, ok);
  }

  lemma {:induction false} DefinitionOnce(rows: seq<RawPage>, ok: (Request, Json) -> bool)
    requires Trace(rows, ok)
    ensures Count(rows, ActiveDefinition) <= 1
  {
    if rows != [] {
      var front, last := rows[..|rows| - 1], rows[|rows| - 1];
      TraceLast(rows, ok);
      DefinitionOnce(front, ok);
      if last.surface == ActiveDefinition {
        var k := FirstUndoneSplits(Plan(front), front);
      }
    }
  }

  lemma RequiredLoaded(rows: seq<RawPage>, ok: (Request, Json) -> bool)
    requires Trace(rows, ok) && NextTarget(rows) == None
    ensures Snapshot.REQUIRED <= LoadedPages(rows).Keys
  {
    forall surface | surface in Snapshot.REQUIRED ensures surface in LoadedPages(rows) {
      RequiredDone(rows, surface);
      LoadedSurface(rows, ok, surface);
    }
  }

  lemma PaginatedVerdict(rows: seq<RawPage>, ok: (Request, Json) -> bool, surface: Surface)
    requires Trace(rows, ok) && NextTarget(rows) == None && Paginated(surface) && surface in LoadedPages(rows)
    ensures ExactPages(LoadedPages(rows)[surface]) <==> TotalsAgree(LoadedPages(rows)[surface])
  {
    LoadedSurface(rows, ok, surface);
    if surface.FieldsBySchema? {
      SchemaSurfaceDone(rows, ok, surface);
    } else {
      RequiredDone(rows, surface);
    }
    FinishedSurfaceVerdict(rows, ok, surface);
    CleanIffExact(LoadedPages(rows)[surface]);
  }

  ghost predicate TotalsNeverChange(pages: Snapshot.Pages) {
    forall surface :: surface in pages && Paginated(surface) ==> TotalsAgree(pages[surface])
  }

  lemma PaginatedIsRequired(surface: Surface)
    requires surface in Snapshot.PAGINATED_REQUIRED
    ensures surface in Snapshot.REQUIRED
  {
  }

  lemma ExactPageByPage(pages: Snapshot.Pages)
    requires Snapshot.REQUIRED <= pages.Keys
    ensures Completeness.PagesExact(pages)
       <==> forall surface :: surface in pages && Paginated(surface) ==> ExactPages(pages[surface])
  {
    forall surface | surface in Snapshot.PAGINATED_REQUIRED ensures surface in pages {
      PaginatedIsRequired(surface);
    }
  }

  lemma ExactIffTotalsAgree(rows: seq<RawPage>, ok: (Request, Json) -> bool)
    requires Trace(rows, ok) && NextTarget(rows) == None
    ensures Completeness.PagesExact(LoadedPages(rows)) <==> TotalsNeverChange(LoadedPages(rows))
  {
    var pages := LoadedPages(rows);
    RequiredLoaded(rows, ok);
    ExactPageByPage(pages);
    forall surface | surface in pages && Paginated(surface)
      ensures ExactPages(pages[surface]) <==> TotalsAgree(pages[surface])
    {
      PaginatedVerdict(rows, ok, surface);
    }
  }

  /**
    The pages of a COMPLETE run: nothing required is missing, no schema lacks its field listing, the
    definition is there once with a name, and a page sequence is flagged only for changing totals.
   */
  lemma CompleteRunIsFullyPaged(run: Run, ok: Rule, args: Args)
    requires Evidence(run, ok) && Finished(run, args)
    ensures Snapshot.REQUIRED <= LoadedPages(run.pages).Keys
    ensures Completeness.DefinitionExact(LoadedPages(run.pages))
    ensures forall prefix :: prefix in Completeness.Prefixes(LoadedPages(run.pages)) ==>
              FieldsBySchema(prefix) in LoadedPages(run.pages)
    ensures Completeness.PagesExact(LoadedPages(run.pages)) <==> TotalsNeverChange(LoadedPages(run.pages))
  {
    var rows := run.pages;
    RequiredLoaded(rows, ok);
    RequiredDone(rows, ActiveDefinition);
    DefinitionLoaded(rows, ok);
    forall prefix | prefix in Completeness.Prefixes(LoadedPages(rows))
      ensures FieldsBySchema(prefix) in LoadedPages(rows)
    {
      SchemaWasWalked(rows, ok, prefix);
      FinishedSurfaceVerdict(rows, ok, FieldsBySchema(prefix));
    }
    ExactIffTotalsAgree(rows, ok);
  }
}
