/** The weekly report's paging loops: they end against any server, and what they read is exactly what it announced. */
module WeeklyPaging {
  import opened JsonValues
  import opened Ordering
  import opened ContractClient

  /** The server's answer to the request for each page; every page is asked for once. */
  type Loader = nat -> Reply

  /** What one listed item contributes: a row, nothing, or an error that ends the report. */
  type Builder<!R> = Json -> Result<Option<R>, Fault>

  function Min(a: int, b: int): int {
    if a < b then a else b
  }

  function Max(a: int, b: int): int {
    if a < b then b else a
  }

  /** How many items page `k` has when `total` items are cut into pages of `size`. */
  function ItemsExpected(size: int, total: int, k: nat): int {
    Min(size, Max(total - k * size, 0))
  }

  function PagesExpected(size: int, total: int): int
    requires size > 0
  {
    if total == 0 then 0 else (total + size - 1) / size
  }

  predicate SizeStated(body: Json, size: int) {
    var info := Get(body, "page");
    size > 0 && (info.Obj? && "size" in info.members ==> info.members["size"] == Num(size))
  }

  /** `_require_requested_page`, on a page the client accepted. */
  predicate RequestedPage(page: HalPage, requested: nat, size: int) {
    && page.page == requested
    && SizeStated(page.raw, size)
    && page.totalPages == PagesExpected(size, page.totalElements)
    && |page.items| == ItemsExpected(size, page.totalElements, page.page)
  }

  datatype Totals = Totals(pages: int, elements: int)

  function TotalsOf(page: HalPage): Totals {
    Totals(page.totalPages, page.totalElements)
  }

  /** The checked page, or the error that ends the report; totals may not change between pages. */
  function LoadPage(
    loader: Loader, relation: string, size: int, k: nat, expected: Option<Totals>): Result<HalPage, Fault>
  {
    match loader(k)
    case Raise(fault) => Err(fault)
    case Payload(body) =>
      match ParsePage(relation, body)
      case Err(fault) => Err(fault)
      case Ok(page) =>
        if !RequestedPage(page, k, size) then Err(INVALID_HAL)
        else if expected.Some? && expected.value != TotalsOf(page) then Err(INVALID_HAL)
        else Ok(page)
  }

  /** The rows of the first `n` items, or the first error. */
  function BuildRows<R>(items: seq<Json>, n: nat, build: Builder<R>): Result<seq<R>, Fault>
    requires n <= |items|
  {
    if n == 0 then Ok([])
    else
      match BuildRows(items, n - 1, build)
      case Err(fault) => Err(fault)
      case Ok(rows) =>
        match build(items[n - 1])
        case Err(fault) => Err(fault)
        case Ok(None) => Ok(rows)
        case Ok(Some(row)) => Ok(rows + [row])
  }

  function AllItems(pages: seq<HalPage>): seq<Json> {
    if pages == [] then [] else AllItems(pages[..|pages| - 1]) + pages[|pages| - 1].items
  }

  /** These are pages 0, 1, ... as the server gave them, all checked, all with the same totals. */
  ghost predicate Visited(loader: Loader, relation: string, size: int, pages: seq<HalPage>) {
    forall k :: 0 <= k < |pages| ==>
      LoadPage(loader, relation, size, k, None) == Ok(pages[k]) && TotalsOf(pages[k]) == TotalsOf(pages[0])
  }

  /** The page after which the loop returns. */
  predicate LastPage(page: HalPage) {
    page.totalPages <= page.page + 1
  }

  /** The pages of a complete collection: the last one visited is the first that ends the loop. */
  ghost predicate Complete(loader: Loader, relation: string, size: int, pages: seq<HalPage>) {
    && pages != []
    && Visited(loader, relation, size, pages)
    && LastPage(pages[|pages| - 1])
    && forall k :: 0 <= k < |pages| - 1 ==> !LastPage(pages[k])
  }

  // Arithmetic of pages

  function ItemsBefore(size: int, total: int, k: nat): int {
    if k == 0 then 0 else ItemsBefore(size, total, k - 1) + ItemsExpected(size, total, k - 1)
  }

  lemma {:induction false} ItemsBeforeIs(size: int, total: int, k: nat)
    requires size > 0 && total >= 0
    ensures ItemsBefore(size, total, k) == Min(k * size, total)
  {
    if k > 0 {
      ItemsBeforeIs(size, total, k - 1);
      assert k * size == (k - 1) * size + size;
    }
  }

  lemma PagesCover(size: int, total: int)
    requires size > 0 && total >= 0
    ensures PagesExpected(size, total) >= 0
    ensures PagesExpected(size, total) * size >= total
    ensures total > 0 ==> (PagesExpected(size, total) - 1) * size < total
  {
  }

  /** Summed over the expected pages, the expected items are all of them. */
  lemma PagesSumToTotal(size: int, total: int)
    requires size > 0 && total >= 0
    ensures PagesExpected(size, total) >= 0
    ensures ItemsBefore(size, total, PagesExpected(size, total)) == total
  {
    PagesCover(size, total);
    ItemsBeforeIs(size, total, PagesExpected(size, total));
  }

  lemma LoadedItems(loader: Loader, relation: string, size: int, k: nat, page: HalPage)
    requires LoadPage(loader, relation, size, k, None) == Ok(page)
    ensures |page.items| == ItemsExpected(size, page.totalElements, k)
  {
  }

  lemma VisitedPage(loader: Loader, relation: string, size: int, pages: seq<HalPage>, k: nat)
    requires Visited(loader, relation, size, pages) && k < |pages|
    ensures |pages[k].items| == ItemsExpected(size, pages[0].totalElements, k)
  {
    LoadedItems(loader, relation, size, k, pages[k]);
    assert TotalsOf(pages[k]) == TotalsOf(pages[0]);
  }

  lemma ItemsOfOneMore(pages: seq<HalPage>, k: nat)
    requires k < |pages|
    ensures AllItems(pages[..k + 1]) == AllItems(pages[..k]) + pages[k].items
  {
    assert pages[..k + 1][..k] == pages[..k];
  }

  lemma {:induction false} VisitedItems(loader: Loader, relation: string, size: int, pages: seq<HalPage>, n: nat)
    requires Visited(loader, relation, size, pages) && 0 < |pages| && n <= |pages|
    ensures |AllItems(pages[..n])| == ItemsBefore(size, pages[0].totalElements, n)
  {
    if n > 0 {
      VisitedItems(loader, relation, size, pages, n - 1);
      VisitedPage(loader, relation, size, pages, n - 1);
      ItemsOfOneMore(pages, n - 1);
    }
  }

  /** A complete collection is pages 0 to totalPages - 1, once each, and exactly totalElements items. */
  lemma CompleteConserves(loader: Loader, relation: string, size: int, pages: seq<HalPage>)
    requires Complete(loader, relation, size, pages)
    ensures |pages| == Max(pages[0].totalPages, 1)
    ensures |AllItems(pages)| == pages[0].totalElements
    ensures forall k :: 0 <= k < |pages| ==> pages[k].page == k
  {
    var total, n := pages[0].totalElements, |pages|;
    forall k | 0 <= k < n ensures pages[k].page == k && TotalsOf(pages[k]) == TotalsOf(pages[0]) {
      assert LoadPage(loader, relation, size, k, None) == Ok(pages[k]);
    }
    assert LoadPage(loader, relation, size, 0, None) == Ok(pages[0]);
    if n > 1 {
      assert !LastPage(pages[n - 2]);
    }
    VisitedItems(loader, relation, size, pages, n);
    assert pages[..n] == pages;
    PagesSumToTotal(size, total);
    ItemsBeforeIs(size, total, n);
  }

  // What an accepted page and a complete collection are

  /** `n` pages of this size hold the total, and fewer do not. */
  predicate FewestPages(n: int, size: int, total: int) {
    n >= 0 && n * size >= total && (n > 0 ==> (n - 1) * size < total)
  }

  /** How many of `total` items fall to page `k`: as many as fit, what is left, or none. */
  function ShareOf(size: int, total: int, k: nat): int {
    if (k + 1) * size <= total then size
    else if k * size <= total then total - k * size
    else 0
  }

  /** The answer for page `k` is a page of that number and size, and holds what falls to it. */
  ghost predicate Serves(loader: Loader, relation: string, size: int, k: nat, page: HalPage) {
    var info := Get(page.raw, "page");
    && loader(k) == Payload(page.raw)
    && Reads(relation, page.raw, page)
    && page.page == k && page.totalElements >= 0
    && size > 0 && (Get(info, "size") == Num(size) || (info.Obj? && "size" !in info.members))
    && FewestPages(page.totalPages, size, page.totalElements)
    && |page.items| == ShareOf(size, page.totalElements, k)
  }

  lemma TimesGrows(a: int, b: int, size: int)
    requires a <= b && size > 0
    ensures a * size <= b * size
  {
    assert b * size == a * size + (b - a) * size;
  }

  lemma OnlyOneFewest(n: int, m: int, size: int, total: int)
    requires size > 0 && FewestPages(n, size, total) && FewestPages(m, size, total)
    ensures n == m
  {
    if n < m {
      TimesGrows(n, m - 1, size);
    } else if m < n {
      TimesGrows(m, n - 1, size);
    }
  }

  lemma ExpectedIsFewest(size: int, total: int)
    requires size > 0 && total >= 0
    ensures FewestPages(PagesExpected(size, total), size, total)
  {
    PagesCover(size, total);
  }

  lemma FewestIs(n: int, size: int, total: int)
    requires size > 0 && total >= 0
    ensures FewestPages(n, size, total) <==> n == PagesExpected(size, total)
  {
    ExpectedIsFewest(size, total);
    if FewestPages(n, size, total) {
      OnlyOneFewest(n, PagesExpected(size, total), size, total);
    }
  }

  lemma ShareIs(size: int, total: int, k: nat)
    requires size > 0 && total >= 0
    ensures ShareOf(size, total, k) == ItemsExpected(size, total, k)
  {
    assert (k + 1) * size == k * size + size;
  }

  /** A page is accepted exactly when it is what falls to it of the collection it announces. */
  lemma LoadedIff(loader: Loader, relation: string, size: int, k: nat, page: HalPage)
    ensures LoadPage(loader, relation, size, k, None) == Ok(page) <==> Serves(loader, relation, size, k, page)
  {
    ParsedIff(relation, page.raw, page);
    if size > 0 && page.totalElements >= 0 {
      FewestIs(page.totalPages, size, page.totalElements);
      ShareIs(size, page.totalElements, k);
    }
  }

  /** These are all the pages of one collection, each served for its number, with totals that never change. */
  ghost predicate Announced(loader: Loader, relation: string, size: int, pages: seq<HalPage>) {
    && pages != []
    && |pages| == (if pages[0].totalPages == 0 then 1 else pages[0].totalPages)
    && forall k :: 0 <= k < |pages| ==>
         && Serves(loader, relation, size, k, pages[k])
         && pages[k].totalPages == pages[0].totalPages && pages[k].totalElements == pages[0].totalElements
  }

  /** The loop completes exactly when the server gives all the pages it announces. */
  lemma CompleteIff(loader: Loader, relation: string, size: int, pages: seq<HalPage>)
    ensures Complete(loader, relation, size, pages) <==> Announced(loader, relation, size, pages)
  {
    forall k | 0 <= k < |pages|
      ensures LoadPage(loader, relation, size, k, None) == Ok(pages[k]) <==> Serves(loader, relation, size, k, pages[k])
    {
      LoadedIff(loader, relation, size, k, pages[k]);
    }
    if Complete(loader, relation, size, pages) {
      CompleteConserves(loader, relation, size, pages);
    }
  }

  /** What an item contributes when nothing goes wrong with it. */
  function Contribution<R>(build: Builder<R>): Json -> Option<R> {
    (item: Json) => match build(item) case Ok(row) => row case Err(_) => None
  }

  ghost predicate FirstFails<R>(items: seq<Json>, i: int, build: Builder<R>, fault: Fault) {
    0 <= i < |items| && build(items[i]) == Err(fault) && forall j :: 0 <= j < i ==> build(items[j]).Ok?
  }

  ghost predicate NoneFails<R>(items: seq<Json>, build: Builder<R>) {
    forall i :: 0 <= i < |items| ==> build(items[i]).Ok?
  }

  lemma FirstFailsStays<R>(front: seq<Json>, last: Json, i: int, build: Builder<R>, fault: Fault)
    requires FirstFails(front, i, build, fault)
    ensures FirstFails(front + [last], i, build, fault)
  {
  }

  lemma NoneFailsOneMore<R>(front: seq<Json>, last: Json, build: Builder<R>)
    requires NoneFails(front, build)
    ensures match build(last)
            case Ok(_) => NoneFails(front + [last], build)
            case Err(fault) => FirstFails(front + [last], |front|, build, fault)
  {
  }

  lemma RowsOneMore<R>(front: seq<Json>, last: Json, build: Builder<R>)
    ensures BuildRows(front + [last], |front| + 1, build) ==
            match BuildRows(front, |front|, build)
            case Err(fault) => Err(fault)
            case Ok(rows) =>
              match build(last)
              case Err(fault) => Err(fault)
              case Ok(None) => Ok(rows)
              case Ok(Some(row)) => Ok(rows + [row])
  {
    SamePrefixRows(front, [last], |front|, build);
    assert (front + [last])[|front|] == last;
  }

  lemma ContributionsOneMore<R>(front: seq<Json>, last: Json, build: Builder<R>)
    ensures FilterMap(front + [last], Contribution(build))
         == FilterMap(front, Contribution(build)) +
            match build(last)
            case Ok(Some(row)) => [row]
            case _ => []
  {
    assert (front + [last])[..|front|] == front;
  }

  /** The rows are what the items contribute, in order, if none fails; otherwise the first failure is the answer. */
  lemma {:induction false} RowsAre<R>(items: seq<Json>, build: Builder<R>)
    ensures match BuildRows(items, |items|, build)
            case Ok(rows) => NoneFails(items, build) && rows == FilterMap(items, Contribution(build))
            case Err(fault) => exists i :: FirstFails(items, i, build, fault)
  {
    if items != [] {
      var n := |items| - 1;
      var front, last := items[..n], items[n];
      RowsAre(front, build);
      assert front + [last] == items;
      RowsOneMore(front, last, build);
      match BuildRows(front, n, build)
      case Ok(rows) =>
        NoneFailsOneMore(front, last, build);
        ContributionsOneMore(front, last, build);
        assert rows + [] == rows;
      case Err(fault) =>
        var i :| FirstFails(front, i, build, fault);
        FirstFailsStays(front, last, i, build, fault);
    }
  }

  // The loop

  method BuildAll<R>(items: seq<Json>, build: Builder<R>) returns (built: Result<seq<R>, Fault>)
    ensures built == BuildRows(items, |items|, build)
  {
    var rows: seq<R> := [];
    for i := 0 to |items|
      invariant BuildRows(items, i, build) == Ok(rows)
    {
      var row := build(items[i]);
      if row.Err? {
        FirstErrorStays(items, i + 1, |items|, build);
        return Err(row.error);
      }
      if row.value.Some? {
        rows := rows + [row.value.value];
      }
    }
    built := Ok(rows);
  }

  lemma {:induction false} FirstErrorStays<R>(items: seq<Json>, m: nat, n: nat, build: Builder<R>)
    requires m <= n <= |items| && BuildRows(items, m, build).Err?
    ensures BuildRows(items, n, build) == BuildRows(items, m, build)
  {
    if m < n {
      FirstErrorStays(items, m, n - 1, build);
    }
  }

  lemma {:induction false} BuildMore<R>(a: seq<Json>, b: seq<Json>, n: nat, build: Builder<R>)
    requires n <= |b|
    ensures BuildRows(a + b, |a| + n, build) ==
            match (BuildRows(a, |a|, build), BuildRows(b, n, build))
            case (Err(fault), _) => Err(fault)
            case (Ok(_), Err(fault)) => Err(fault)
            case (Ok(x), Ok(y)) => Ok(x + y)
  {
    if n > 0 {
      BuildMore(a, b, n - 1, build);
      assert (a + b)[|a| + n - 1] == b[n - 1];
      match BuildRows(b, n, build)
      case Err(_) =>
      case Ok(y) =>
        if BuildRows(a, |a|, build).Ok? && build(b[n - 1]).value.Some? {
          var x, front := BuildRows(a, |a|, build).value, BuildRows(b, n - 1, build).value;
          assert x + (front + [build(b[n - 1]).value.value]) == x + front + [build(b[n - 1]).value.value];
        }
    } else {
      SamePrefixRows(a, b, |a|, build);
      match BuildRows(a, |a|, build)
      case Err(_) =>
      case Ok(x) => assert x + [] == x;
    }
  }

  lemma {:induction false} SamePrefixRows<R>(a: seq<Json>, b: seq<Json>, n: nat, build: Builder<R>)
    requires n <= |a|
    ensures BuildRows(a + b, n, build) == BuildRows(a, n, build)
  {
    if n > 0 {
      SamePrefixRows(a, b, n - 1, build);
    }
  }

  lemma VisitNext(loader: Loader, relation: string, size: int, pages: seq<HalPage>, page: HalPage)
    requires Visited(loader, relation, size, pages)
    requires LoadPage(loader, relation, size, |pages|, ExpectedAfter(pages)) == Ok(page)
    ensures Visited(loader, relation, size, pages + [page])
    ensures page.page == |pages| && TotalsOf(page) == TotalsOf((pages + [page])[0])
  {
  }

  function ExpectedAfter(pages: seq<HalPage>): Option<Totals> {
    if pages == [] then None else Some(TotalsOf(pages[0]))
  }

  /** The items of one page more, and their rows. */
  lemma BuiltNext<R>(pages: seq<HalPage>, page: HalPage, rows: seq<R>, build: Builder<R>)
    requires BuildRows(AllItems(pages), |AllItems(pages)|, build) == Ok(rows)
    ensures BuildRows(AllItems(pages + [page]), |AllItems(pages + [page])|, build) ==
            match BuildRows(page.items, |page.items|, build)
            case Err(fault) => Err(fault)
            case Ok(more) => Ok(rows + more)
  {
    assert (pages + [page])[..|pages|] == pages;
    BuildMore(AllItems(pages), page.items, |page.items|, build);
  }

  /**
    `_collect_archived` and `_collect_submissions`: the loop either raises or returns the rows of a
    complete collection, and it returns whenever there is a complete collection whose items all build.
   */
  method Collect<R>(loader: Loader, relation: string, size: int, build: Builder<R>)
    returns (collected: Result<seq<R>, Fault>, pages: seq<HalPage>)
    ensures Visited(loader, relation, size, pages)
    ensures collected.Ok? ==>
              && Complete(loader, relation, size, pages)
              && BuildRows(AllItems(pages), |AllItems(pages)|, build) == collected
    ensures collected.Err? ==>
              forall all ::
                Complete(loader, relation, size, all) ==> BuildRows(AllItems(all), |AllItems(all)|, build).Err?
    ensures collected.Err? ==>
              match BuildRows(AllItems(pages), |AllItems(pages)|, build)
              case Err(fault) => fault == collected.error
              case Ok(_) => LoadPage(loader, relation, size, |pages|, ExpectedAfter(pages)) == Err(collected.error)
  {
    pages := [];
    var rows: seq<R> := [];
    var pageNumber: nat := 0;
    var expected: Option<Totals> := None;
    while true
      invariant |pages| == pageNumber
      invariant Visited(loader, relation, size, pages)
      invariant expected == ExpectedAfter(pages)
      invariant forall k :: 0 <= k < |pages| ==> !LastPage(pages[k])
      invariant BuildRows(AllItems(pages), |AllItems(pages)|, build) == Ok(rows)
      decreases if pages == [] then 1 else 0, if pages == [] then 0 else pages[0].totalPages - pageNumber
    {
      var loaded := LoadPage(loader, relation, size, pageNumber, expected);
      if loaded.Err? {
        NoCompletionPast(loader, relation, size, pages);
        return Err(loaded.error), pages;
      }
      var page := loaded.value;
      VisitNext(loader, relation, size, pages, page);
      var built := BuildAll(page.items, build);
      BuiltNext(pages, page, rows, build);
      pages := pages + [page];
      if built.Err? {
        ErrorInEveryCompletion(loader, relation, size, pages, build);
        return Err(built.error), pages;
      }
      rows := rows + built.value;
      expected := Some(TotalsOf(page));
      if page.totalPages <= page.page + 1 {
        return Ok(rows), pages;
      }
      pageNumber := page.page + 1;
    }
  }

  lemma {:induction false} ItemsOfPrefix(pages: seq<HalPage>, n: nat)
    requires n <= |pages|
    ensures AllItems(pages[..n]) <= AllItems(pages)
  {
    if n < |pages| {
      var front := pages[..|pages| - 1];
      ItemsOfPrefix(front, n);
      assert front[..n] == pages[..n];
    } else {
      assert pages[..n] == pages;
    }
  }

  /** What was visited, all before the last page, starts every complete collection. */
  lemma CompletionStartsThus(loader: Loader, relation: string, size: int, pages: seq<HalPage>, all: seq<HalPage>)
    requires Visited(loader, relation, size, pages) && Complete(loader, relation, size, all)
    requires forall k :: 0 <= k < |pages| - 1 ==> !LastPage(pages[k])
    ensures pages <= all
  {
  }

  lemma NoCompletionPast(loader: Loader, relation: string, size: int, pages: seq<HalPage>)
    requires Visited(loader, relation, size, pages)
    requires forall k :: 0 <= k < |pages| ==> !LastPage(pages[k])
    requires LoadPage(loader, relation, size, |pages|, ExpectedAfter(pages)).Err?
    ensures forall all :: !Complete(loader, relation, size, all)
  {
    assert pages != [] ==> !LastPage(pages[|pages| - 1]);
    forall all ensures !Complete(loader, relation, size, all) {
      if Complete(loader, relation, size, all) {
        CompletionStartsThus(loader, relation, size, pages, all);
        var next := LoadPage(loader, relation, size, |pages|, None);
      }
    }
  }

  /** An error among the first pages' items is an error among all. */
  lemma ErrorCarries<R>(pages: seq<HalPage>, all: seq<HalPage>, build: Builder<R>)
    requires pages <= all && BuildRows(AllItems(pages), |AllItems(pages)|, build).Err?
    ensures BuildRows(AllItems(all), |AllItems(all)|, build).Err?
  {
    assert all[..|pages|] == pages;
    ItemsOfPrefix(all, |pages|);
    var rest := AllItems(all)[|AllItems(pages)|..];
    assert AllItems(all) == AllItems(pages) + rest;
    SamePrefixRows(AllItems(pages), rest, |AllItems(pages)|, build);
    FirstErrorStays(AllItems(all), |AllItems(pages)|, |AllItems(all)|, build);
  }

  lemma ErrorInEveryCompletion<R>(loader: Loader, relation: string, size: int, pages: seq<HalPage>, build: Builder<R>)
    requires Visited(loader, relation, size, pages)
    requires forall k :: 0 <= k < |pages| - 1 ==> !LastPage(pages[k])
    requires BuildRows(AllItems(pages), |AllItems(pages)|, build).Err?
    ensures forall all ::
            Complete(loader, relation, size, all) ==> BuildRows(AllItems(all), |AllItems(all)|, build).Err?
  {
    forall all | Complete(loader, relation, size, all) ensures BuildRows(AllItems(all), |AllItems(all)|, build).Err? {
      CompletionStartsThus(loader, relation, size, pages, all);
      ErrorCarries(pages, all, build);
    }
  }
}
