/**
  What the stored pages of a run prove, whatever the server answered.

  The stored pages alone decide which page comes next, so a run is a trace: every page was, when it
  was stored, the next page of the pages before it.
 */
module ContractEvidence {
  import opened JsonValues
  import opened Ordering
  import opened ContractStore
  import opened ContractClient
  import opened ContractSync

  datatype Args = Args(uuid: string, size: int)

  function Count(pages: seq<RawPage>, surface: Surface): nat {
    if pages == [] then 0
    else Count(pages[..|pages| - 1], surface) + if pages[|pages| - 1].surface == surface then 1 else 0
  }

  predicate Done(pages: seq<RawPage>, surface: Surface) {
    if surface == ActiveDefinition then Count(pages, surface) > 0
    else LastPageCloses(pages, surface, Count(pages, surface))
  }

  function PrefixesOn(page: RawPage): seq<string> {
    if page.surface != MetadataSchemas then []
    else
      match ParsePage(Relation(MetadataSchemas), page.payload)
      case Err(_) => []
      case Ok(hal) => SchemaPrefixes(hal.items).GetOr([])
  }

  /** Every schema prefix the stored schema pages list, in order. */
  function Prefixes(pages: seq<RawPage>): seq<string> {
    if pages == [] then [] else Prefixes(pages[..|pages| - 1]) + PrefixesOn(pages[|pages| - 1])
  }

  function DefinitionName(pages: seq<RawPage>): string {
    match FindPage(pages, ActiveDefinition, 0)
    case None => ""
    case Some(page) => var name := Get(page.payload, "name"); if name.Str? then name.text else ""
  }

  function BeforeGlobals(pages: seq<RawPage>): seq<Target> {
    [SCHEMAS, FIELDS] + BySchemas(SortedSet(Prefixes(pages)))
  }

  /** The surfaces a run walks through, as far as the stored pages tell. */
  function Plan(pages: seq<RawPage>): seq<Target> {
    BeforeGlobals(pages) + GLOBALS + [DEFINITION] + [Sections(DefinitionName(pages))]
  }

  /** The plan in parts: what comes before the global surfaces, those, the definition and its sections. */
  lemma PlanParts(pages: seq<RawPage>, b: nat)
    requires b == |BeforeGlobals(pages)|
    ensures |Plan(pages)| == b + 5 && b >= 2
    ensures Plan(pages)[..b] == BeforeGlobals(pages)
    ensures Plan(pages)[0].surface == MetadataSchemas && Plan(pages)[1].surface == MetadataFields
    ensures forall k :: b <= k < b + 3 ==> Plan(pages)[k] == GLOBALS[k - b]
    ensures Plan(pages)[b + 3] == DEFINITION && Plan(pages)[b + 4] == Sections(DefinitionName(pages))
  {
  }

  function FirstUndone(targets: seq<Target>, pages: seq<RawPage>): Option<Target> {
    if targets == [] then None
    else if !Done(pages, targets[0].surface) then Some(targets[0])
    else FirstUndone(targets[1..], pages)
  }

  /** The surface whose next page comes next, or nothing when the collection is finished. */
  function NextTarget(pages: seq<RawPage>): Option<Target> {
    FirstUndone(Plan(pages), pages)
  }

  function RequestOf(page: RawPage): Request {
    Request(page.surface, page.endpoint, page.params)
  }

  /** The collector accepted this payload for this page. */
  predicate WellFormed(page: RawPage) {
    && page.hash == CanonicalRawHash(page.payload)
    && if page.surface == ActiveDefinition then
         page.params.CollectionParams? && IsText(Get(page.payload, "name"))
       else
         var hal := ParsePage(Relation(page.surface), page.payload);
         && page.params.PageParams?
         && page.params.page == page.pageNumber
         && hal.Ok?
         && hal.value.page == page.pageNumber
         && (page.surface == MetadataSchemas ==> SchemaPrefixes(hal.value.items).Some?)
  }

  /** How many pages the listing had when this page was served. */
  function TotalPages(page: RawPage): int {
    var total := Get(Get(page.payload, "page"), "totalPages");
    if total.Num? then total.number else 0
  }

  /** `page` is a page that may be stored next. */
  predicate Fits(pages: seq<RawPage>, page: RawPage) {
    var next := NextTarget(pages);
    && next.Some?
    && page.surface == next.value.surface
    && page.endpoint == next.value.endpoint
    && page.pageNumber == Count(pages, page.surface)
    && WellFormed(page)
    && (page.params.PageParams? ==> page.params.schema == next.value.schema)
  }

  /** The i-th page was the next one when it was stored, and answered its request as `ok` allows. */
  predicate StoredAt(pages: seq<RawPage>, ok: (Request, Json) -> bool, i: nat)
    requires i < |pages|
  {
    Fits(pages[..i], pages[i]) && ok(RequestOf(pages[i]), pages[i].payload)
  }

  ghost predicate Trace(pages: seq<RawPage>, ok: (Request, Json) -> bool) {
    forall i {:trigger StoredAt(pages, ok, i)} :: 0 <= i < |pages| ==> StoredAt(pages, ok, i)
  }

  /** Checkpoints, page counter and hash list are exactly those of the stored pages. */
  ghost predicate Bookkeeping(run: Run) {
    && run.pagesCompleted == |run.pages| == |run.hashes|
    && (forall i :: 0 <= i < |run.pages| ==> run.hashes[i] == run.pages[i].hash)
    && (forall s :: s in run.checkpoints <==> Count(run.pages, s) > 0)
    && (forall s :: CheckpointNextPage(run, s) == Count(run.pages, s))
  }

  /** A page past the first is asked for only if the page before it is stored and announced it. */
  predicate Announced(request: Request, pages: seq<RawPage>) {
    request.params.PageParams? && request.params.page > 0 ==>
      match FindPage(pages, request.surface, request.params.page - 1)
      case None => false
      case Some(before) =>
        var totalPages := Get(Get(before.payload, "page"), "totalPages");
        totalPages.Num? && totalPages.number > request.params.page
  }

  ghost predicate Sound(w: World, ok: (Request, Json) -> bool) {
    && w.run.status == Running
    && Trace(w.run.pages, ok)
    && Bookkeeping(w.run)
    && (forall i :: 0 <= i < |w.asked| ==> Announced(w.asked[i], w.run.pages))
  }

  /** What would be stored for this reply is allowed by `ok`; a 204 is stored only for the active sections. */
  ghost predicate Allows(ok: (Request, Json) -> bool, q: Request, reply: Reply) {
    && (reply.Payload? ==> ok(q, reply.body))
    && (reply == Raise(DSpaceFault(Some(204))) && q.surface == ActiveSections ==> ok(q, OBSERVATION_204))
  }

  /** Everything these turns can answer is allowed by `ok`. */
  ghost predicate Conforms(script: seq<Turn>, ok: (Request, Json) -> bool) {
    forall i, q :: 0 <= i < |script| ==> Allows(ok, q, script[i](q))
  }

  predicate Uses(page: RawPage, args: Args) {
    match page.params
    case PageParams(_, size, _) => size == args.size
    case CollectionParams(uuid) => uuid == args.uuid
  }

  predicate AllUse(pages: seq<RawPage>, args: Args) {
    forall i :: 0 <= i < |pages| ==> Uses(pages[i], args)
  }

  // Stored pages, one more at a time

  lemma FindAppend(pages: seq<RawPage>, page: RawPage, surface: Surface, n: nat)
    ensures FindPage(pages + [page], surface, n) ==
            if page.surface == surface && page.pageNumber == n then Some(page) else FindPage(pages, surface, n)
    ensures Count(pages + [page], surface) == Count(pages, surface) + if page.surface == surface then 1 else 0
  {
    assert (pages + [page])[..|pages|] == pages;
  }

  lemma TracePrefix(pages: seq<RawPage>, more: seq<RawPage>, ok: (Request, Json) -> bool)
    requires Trace(more, ok) && pages <= more
    ensures Trace(pages, ok)
  {
    forall i | 0 <= i < |pages| ensures StoredAt(pages, ok, i) {
      assert StoredAt(more, ok, i);
      assert pages[..i] == more[..i];
    }
  }

  lemma TraceLast(pages: seq<RawPage>, ok: (Request, Json) -> bool)
    requires Trace(pages, ok) && pages != []
    ensures Trace(pages[..|pages| - 1], ok)
    ensures Fits(pages[..|pages| - 1], pages[|pages| - 1])
    ensures ok(RequestOf(pages[|pages| - 1]), pages[|pages| - 1].payload)
  {
    TracePrefix(pages[..|pages| - 1], pages, ok);
    assert StoredAt(pages, ok, |pages| - 1);
  }

  lemma {:induction false} FindDense(pages: seq<RawPage>, ok: (Request, Json) -> bool, surface: Surface, n: nat)
    requires Trace(pages, ok)
    ensures FindPage(pages, surface, n).Some? <==> n < Count(pages, surface)
    ensures match FindPage(pages, surface, n)
            case None => true
            case Some(page) => page in pages && page.surface == surface && page.pageNumber == n && WellFormed(page)
  {
    if pages != [] {
      TraceLast(pages, ok);
      FindDense(pages[..|pages| - 1], ok, surface, n);
    }
  }

  /** The pagination of a stored page can be read back from its payload. */
  lemma StoredPagination(page: RawPage)
    requires WellFormed(page) && page.surface != ActiveDefinition
    ensures Get(Get(page.payload, "page"), "number") == Num(page.pageNumber)
    ensures Get(Get(page.payload, "page"), "totalPages") == Num(TotalPages(page))
    ensures ParsePage(Relation(page.surface), page.payload).Ok?
    ensures ParsePage(Relation(page.surface), page.payload).value.totalPages == TotalPages(page)
  {
  }

  /** A stored page is never altered by what is stored after it. */
  lemma {:induction false} FindStable(
    pages: seq<RawPage>, more: seq<RawPage>, ok: (Request, Json) -> bool, surface: Surface, n: nat)
    requires Trace(more, ok) && pages <= more && FindPage(pages, surface, n).Some?
    ensures FindPage(more, surface, n) == FindPage(pages, surface, n)
    decreases |more|
  {
    if pages != more {
      var front := more[..|more| - 1];
      assert pages <= front;
      TraceLast(more, ok);
      FindStable(pages, front, ok, surface, n);
      FindDense(front, ok, surface, n);
    } else {
      assert pages == more;
    }
  }

  /** The k-th page of the surface is stored, and announced the page after it. */
  predicate AnnouncedNext(pages: seq<RawPage>, surface: Surface, k: nat) {
    match FindPage(pages, surface, k)
    case None => false
    case Some(page) => page.surface == surface && WellFormed(page) && TotalPages(page) > k + 1
  }

  /** If the surface is next, it is not closed, so its last page announced another. */
  lemma NextIsAnnounced(pages: seq<RawPage>, ok: (Request, Json) -> bool, surface: Surface, k: nat)
    requires Trace(pages, ok) && surface != ActiveDefinition && k + 1 == Count(pages, surface)
    requires NextTarget(pages).Some? && NextTarget(pages).value.surface == surface
    ensures AnnouncedNext(pages, surface, k)
  {
    FindDense(pages, ok, surface, k);
    StoredPagination(FindPage(pages, surface, k).value);
    var j := FirstUndoneSplits(Plan(pages), pages);
  }

  /** Every stored page of a surface but the last announced the page after it. */
  lemma {:induction false} EarlierAnnounced(pages: seq<RawPage>, ok: (Request, Json) -> bool, surface: Surface, k: nat)
    requires Trace(pages, ok) && surface != ActiveDefinition && k + 1 < Count(pages, surface)
    ensures AnnouncedNext(pages, surface, k)
  {
    var front, last := pages[..|pages| - 1], pages[|pages| - 1];
    TraceLast(pages, ok);
    FindDense(front, ok, surface, k);
    FindStable(front, pages, ok, surface, k);
    if last.surface == surface && k + 1 == Count(front, surface) {
      NextIsAnnounced(front, ok, surface, k);
    } else {
      EarlierAnnounced(front, ok, surface, k);
    }
  }

  lemma {:induction false} CountAll(pages: seq<RawPage>, surface: Surface)
    requires forall i :: 0 <= i < |pages| ==> pages[i].surface == surface
    ensures Count(pages, surface) == |pages|
  {
    if pages != [] {
      CountAll(pages[..|pages| - 1], surface);
    }
  }

  /** The schema listing is the first surface of every plan. */
  lemma SchemasNext(pages: seq<RawPage>)
    ensures !Done(pages, MetadataSchemas) ==> NextTarget(pages) == Some(SCHEMAS)
    ensures Done(pages, MetadataSchemas) && NextTarget(pages).Some? ==>
            NextTarget(pages).value.surface != MetadataSchemas
  {
    assert Plan(pages)[0] == SCHEMAS;
    if NextTarget(pages).Some? {
      var k := FirstUndoneSplits(Plan(pages), pages);
    }
  }

  /** The schema pages come first, and nothing else is stored before they are complete. */
  lemma {:induction false} SchemasFirst(pages: seq<RawPage>, ok: (Request, Json) -> bool)
    requires Trace(pages, ok)
    ensures var c := Count(pages, MetadataSchemas);
            && c <= |pages|
            && (forall i :: 0 <= i < c ==> pages[i].surface == MetadataSchemas)
            && (forall i :: c <= i < |pages| ==> pages[i].surface != MetadataSchemas)
            && (c < |pages| ==> Done(pages, MetadataSchemas))
  {
    if pages != [] {
      var front, last := pages[..|pages| - 1], pages[|pages| - 1];
      TraceLast(pages, ok);
      SchemasFirst(front, ok);
      SchemasNext(front);
      if last.surface != MetadataSchemas {
        assert pages == front + [last];
        assert Grown(front, pages, last.surface);
        GrownElsewhere(front, pages, last.surface, MetadataSchemas);
      }
    }
  }

  lemma SchemaPageStored(pages: seq<RawPage>, ok: (Request, Json) -> bool, n: nat)
    requires Trace(pages, ok) && n < Count(pages, MetadataSchemas)
    ensures n < |pages| && pages[n].surface == MetadataSchemas && Count(pages[..n], MetadataSchemas) == n
    ensures StoredAt(pages, ok, n)
  {
    SchemasFirst(pages, ok);
    CountAll(pages[..n], MetadataSchemas);
    assert StoredAt(pages, ok, n);
  }

  lemma SchemaPageAt(pages: seq<RawPage>, ok: (Request, Json) -> bool, n: nat)
    requires Trace(pages, ok) && n < Count(pages, MetadataSchemas)
    ensures n < |pages| && pages[n].surface == MetadataSchemas && pages[n].pageNumber == n && WellFormed(pages[n])
    ensures pages[n].endpoint == SCHEMAS.endpoint && pages[n].params.PageParams?
    ensures pages[n].params.page == n && pages[n].params.schema == None
    ensures ok(RequestOf(pages[n]), pages[n].payload)
  {
    SchemaPageStored(pages, ok, n);
    SchemasNext(pages[..n]);
    FitsSchemas(pages[..n], pages[n]);
  }

  lemma FitsSchemas(pages: seq<RawPage>, page: RawPage)
    requires Fits(pages, page) && page.surface == MetadataSchemas && NextTarget(pages) == Some(SCHEMAS)
    ensures page.pageNumber == Count(pages, MetadataSchemas) && WellFormed(page) && page.endpoint == SCHEMAS.endpoint
    ensures page.params.PageParams? && page.params.page == page.pageNumber && page.params.schema == None
  {
  }

  /** Every stored page is found under its surface and number. */
  lemma StoredIsFound(pages: seq<RawPage>, ok: (Request, Json) -> bool, i: nat)
    requires Trace(pages, ok) && i < |pages|
    ensures FindPage(pages, pages[i].surface, pages[i].pageNumber) == Some(pages[i])
  {
    var front := pages[..i + 1];
    TracePrefix(front, pages, ok);
    assert front[|front| - 1] == pages[i];
    assert FindPage(front, pages[i].surface, pages[i].pageNumber) == Some(pages[i]);
    FindStable(front, pages, ok, pages[i].surface, pages[i].pageNumber);
  }

  lemma SchemaPageFound(pages: seq<RawPage>, ok: (Request, Json) -> bool, n: nat)
    requires Trace(pages, ok) && n < Count(pages, MetadataSchemas)
    ensures n < |pages| && FindPage(pages, MetadataSchemas, n) == Some(pages[n])
  {
    SchemaPageAt(pages, ok, n);
    StoredIsFound(pages, ok, n);
  }

  /** Pages are only added, all of them to one surface. */
  predicate Grown(pages: seq<RawPage>, more: seq<RawPage>, surface: Surface) {
    pages <= more && forall i :: |pages| <= i < |more| ==> more[i].surface == surface
  }

  lemma {:induction false} GrownElsewhere(pages: seq<RawPage>, more: seq<RawPage>, surface: Surface, other: Surface)
    requires Grown(pages, more, surface) && other != surface
    ensures Count(more, other) == Count(pages, other)
    ensures forall n: nat :: FindPage(more, other, n) == FindPage(pages, other, n)
    ensures Done(more, other) == Done(pages, other)
    ensures other == MetadataSchemas ==> Prefixes(more) == Prefixes(pages)
    decreases |more|
  {
    if pages == more {
      assert pages == more;
    } else {
      GrownElsewhere(pages, more[..|more| - 1], surface, other);
    }
  }

  lemma PlanStable(pages: seq<RawPage>, more: seq<RawPage>, surface: Surface)
    requires Grown(pages, more, surface) && surface != MetadataSchemas && surface != ActiveDefinition
    ensures Plan(more) == Plan(pages)
  {
    GrownElsewhere(pages, more, surface, MetadataSchemas);
    GrownElsewhere(pages, more, surface, ActiveDefinition);
  }

  ghost predicate AllDone(targets: seq<Target>, pages: seq<RawPage>) {
    forall i :: 0 <= i < |targets| ==> Done(pages, targets[i].surface)
  }

  lemma AllDoneStable(targets: seq<Target>, pages: seq<RawPage>, more: seq<RawPage>, surface: Surface)
    requires Grown(pages, more, surface) && AllDone(targets, pages) && (!Done(pages, surface) || Done(more, surface))
    ensures AllDone(targets, more)
  {
    forall i | 0 <= i < |targets| ensures Done(more, targets[i].surface) {
      if targets[i].surface != surface {
        GrownElsewhere(pages, more, surface, targets[i].surface);
      }
    }
  }

  lemma {:induction false} FirstUndoneAfter(before: seq<Target>, after: seq<Target>, pages: seq<RawPage>)
    requires AllDone(before, pages)
    ensures FirstUndone(before + after, pages) == FirstUndone(after, pages)
  {
    if before == [] {
      assert before + after == after;
    } else {
      assert (before + after)[1..] == before[1..] + after;
      FirstUndoneAfter(before[1..], after, pages);
    }
  }

  lemma {:induction false} FirstUndoneSplits(targets: seq<Target>, pages: seq<RawPage>) returns (k: nat)
    requires FirstUndone(targets, pages).Some?
    ensures k < |targets| && targets[k] == FirstUndone(targets, pages).value
    ensures AllDone(targets[..k], pages) && !Done(pages, targets[k].surface)
  {
    if !Done(pages, targets[0].surface) {
      k := 0;
    } else {
      var j := FirstUndoneSplits(targets[1..], pages);
      k := j + 1;
      assert targets[..k] == [targets[0]] + targets[1..][..j];
    }
  }

  lemma {:induction false} FirstUndoneNone(targets: seq<Target>, pages: seq<RawPage>)
    ensures FirstUndone(targets, pages).None? <==> AllDone(targets, pages)
  {
    if targets != [] {
      FirstUndoneNone(targets[1..], pages);
      if AllDone(targets[1..], pages) && Done(pages, targets[0].surface) {
        forall i | 0 <= i < |targets| ensures Done(pages, targets[i].surface) {
          assert i == 0 || targets[i] == targets[1..][i - 1];
        }
      }
    }
  }

  /** While the next surface is not closed, it stays the next one. */
  lemma NextStays(pages: seq<RawPage>, more: seq<RawPage>)
    requires NextTarget(pages).Some?
    requires NextTarget(pages).value.surface != MetadataSchemas && NextTarget(pages).value.surface != ActiveDefinition
    requires Grown(pages, more, NextTarget(pages).value.surface)
    requires !Done(more, NextTarget(pages).value.surface)
    ensures NextTarget(more) == NextTarget(pages)
  {
    var next := NextTarget(pages).value;
    PlanStable(pages, more, next.surface);
    var plan := Plan(pages);
    var k := FirstUndoneSplits(plan, pages);
    AllDoneStable(plan[..k], pages, more, next.surface);
    assert plan == plan[..k] + plan[k..];
    FirstUndoneAfter(plan[..k], plan[k..], more);
  }

  lemma BookkeepingAppend(run: Run, page: RawPage)
    requires Bookkeeping(run) && run.status == Running
    requires FindPage(run.pages, page.surface, page.pageNumber).None?
             && page.pageNumber == Count(run.pages, page.surface)
    requires page.hash == CanonicalRawHash(page.payload)
    ensures var stored := PersistPage(run, page.surface, page.endpoint, page.pageNumber, page.params, page.payload);
            && stored.Ok?
            && stored.value.pages == run.pages + [page]
            && stored.value.status == Running
            && Bookkeeping(stored.value)
  {
    var stored := PersistPage(run, page.surface, page.endpoint, page.pageNumber, page.params, page.payload).value;
    forall s ensures CheckpointNextPage(stored, s) == Count(run.pages + [page], s)
             ensures s in stored.checkpoints <==> Count(run.pages + [page], s) > 0
    {
      FindAppend(run.pages, page, s, 0);
    }
  }

  lemma TraceAppend(pages: seq<RawPage>, page: RawPage, ok: (Request, Json) -> bool)
    requires Trace(pages, ok) && Fits(pages, page) && ok(RequestOf(page), page.payload)
    ensures Trace(pages + [page], ok)
  {
    var more := pages + [page];
    forall i | 0 <= i < |more| ensures StoredAt(more, ok, i) {
      assert more[..i] == pages[..i];
      assert i < |pages| ==> StoredAt(pages, ok, i);
      assert i == |pages| ==> more[..i] == pages;
    }
  }

  /** Storing a page that fits keeps the trace and the bookkeeping. */
  lemma AppendKeeps(w: World, ok: (Request, Json) -> bool, page: RawPage)
    requires Sound(w, ok) && Fits(w.run.pages, page) && ok(RequestOf(page), page.payload)
    ensures var run := PersistPage(w.run, page.surface, page.endpoint, page.pageNumber, page.params, page.payload);
            && run.Ok?
            && run.value.pages == w.run.pages + [page]
            && Sound(w.(run := run.value), ok)
  {
    FindDense(w.run.pages, ok, page.surface, page.pageNumber);
    BookkeepingAppend(w.run, page);
    TraceAppend(w.run.pages, page, ok);
    AnnouncedStable(w.asked, w.run.pages, w.run.pages + [page], ok);
  }

  lemma AnnouncedStable(asked: seq<Request>, pages: seq<RawPage>, more: seq<RawPage>, ok: (Request, Json) -> bool)
    requires Trace(more, ok) && pages <= more
    requires forall i :: 0 <= i < |asked| ==> Announced(asked[i], pages)
    ensures forall i :: 0 <= i < |asked| ==> Announced(asked[i], more)
  {
    forall i | 0 <= i < |asked| ensures Announced(asked[i], more) {
      var q := asked[i];
      if q.params.PageParams? && q.params.page > 0 {
        FindStable(pages, more, ok, q.surface, q.params.page - 1);
      }
    }
  }
}
