/** From the rows of a run to the pages the canonicalizer reads. */
module ContractPages {
  import opened JsonValues
  import opened Ordering
  import opened ContractStore
  import opened ContractSync
  import opened ContractEvidence
  import Snapshot = ContractSnapshot

  predicate RowLe(a: RawPage, b: RawPage) {
    var x, y := Snapshot.SurfaceName(a.surface), Snapshot.SurfaceName(b.surface);
    if x == y then a.pageNumber <= b.pageNumber else TextLe(x, y)
  }

  /** `ORDER BY surface, page_number`. */
  function RowOrder(): (RawPage, RawPage) -> bool {
    (a: RawPage, b: RawPage) => RowLe(a, b)
  }

  function RowOf(surface: Surface): RawPage -> Option<RawPage> {
    (row: RawPage) => if row.surface == surface then Some(row) else None
  }

  function RowsOf(rows: seq<RawPage>, surface: Surface): seq<RawPage> {
    FilterMap(rows, RowOf(surface))
  }

  function PayloadsOf(rows: seq<RawPage>, surface: Surface): seq<Json> {
    var mine := RowsOf(rows, surface);
    seq(|mine|, i requires 0 <= i < |mine| => mine[i].payload)
  }

  function SurfacesOf(rows: seq<RawPage>): set<Surface> {
    set i | 0 <= i < |rows| :: rows[i].surface
  }

  function GroupBySurface(rows: seq<RawPage>): Snapshot.Pages {
    map surface | surface in SurfacesOf(rows) :: PayloadsOf(rows, surface)
  }

  function LoadedPages(rows: seq<RawPage>): Snapshot.Pages {
    GroupBySurface(Sort(rows, RowOrder()))
  }

  /** `_load_pages_by_surface`: fills a dictionary of lists in row order. */
  method LoadPagesBySurface(rows: seq<RawPage>) returns (grouped: Snapshot.Pages)
    ensures grouped == LoadedPages(rows)
  {
    var sorted := Sort(rows, RowOrder());
    grouped := map[];
    for i := 0 to |sorted|
      invariant grouped == GroupBySurface(sorted[..i])
    {
      var row := sorted[i];
      assert sorted[..i + 1] == sorted[..i] + [row];
      GroupOneMore(sorted[..i], row);
      grouped := grouped[row.surface := (if row.surface in grouped then grouped[row.surface] else []) + [row.payload]];
    }
    assert sorted[..|sorted|] == sorted;
  }

  lemma RowsOfOneMore(rows: seq<RawPage>, row: RawPage, surface: Surface)
    ensures RowsOf(rows + [row], surface) == RowsOf(rows, surface) + if row.surface == surface then [row] else []
  {
  }

  lemma PayloadsOneMore(rows: seq<RawPage>, row: RawPage, surface: Surface)
    ensures PayloadsOf(rows + [row], surface)
         == PayloadsOf(rows, surface) + if row.surface == surface then [row.payload] else []
  {
  }

  lemma SurfacesOneMore(rows: seq<RawPage>, row: RawPage)
    ensures SurfacesOf(rows + [row]) == SurfacesOf(rows) + {row.surface}
  {
    var all := rows + [row];
    assert forall i :: 0 <= i < |rows| ==> all[i] == rows[i];
    assert all[|rows|] == row;
  }

  lemma GroupOneMore(rows: seq<RawPage>, row: RawPage)
    ensures var grouped := GroupBySurface(rows);
            GroupBySurface(rows + [row])
            == grouped[row.surface := (if row.surface in grouped then grouped[row.surface] else []) + [row.payload]]
  {
    var grouped, more := GroupBySurface(rows), GroupBySurface(rows + [row]);
    var mine := if row.surface in grouped then grouped[row.surface] else [];
    SurfacesOneMore(rows, row);
    if row.surface !in SurfacesOf(rows) {
      NoRows(rows, row.surface);
    }
    PayloadsOneMore(rows, row, row.surface);
    assert mine == PayloadsOf(rows, row.surface);
    var next := grouped[row.surface := mine + [row.payload]];
    assert more.Keys == next.Keys;
    forall surface | surface in more ensures more[surface] == next[surface] {
      PayloadsOneMore(rows, row, surface);
      assert PayloadsOf(rows, surface) + [] == PayloadsOf(rows, surface);
    }
  }

  lemma {:induction false} NoRows(rows: seq<RawPage>, surface: Surface)
    requires surface !in SurfacesOf(rows)
    ensures RowsOf(rows, surface) == []
  {
    if rows != [] {
      var front, last := rows[..|rows| - 1], rows[|rows| - 1];
      assert last.surface in SurfacesOf(rows);
      assert forall i :: 0 <= i < |front| ==> front[i].surface in SurfacesOf(rows) by {
        assert forall i :: 0 <= i < |front| ==> front[i] == rows[i];
      }
      NoRows(front, surface);
    }
  }

  // Stored order is page order

  /** The rows of a surface are its pages 0, 1, ..., in the order they were stored. */
  lemma {:induction false} RowsAreDense(rows: seq<RawPage>, ok: (Request, Json) -> bool, surface: Surface)
    requires Trace(rows, ok)
    ensures |RowsOf(rows, surface)| == Count(rows, surface)
    ensures forall n :: 0 <= n < Count(rows, surface) ==> FindPage(rows, surface, n) == Some(RowsOf(rows, surface)[n])
  {
    if rows != [] {
      var front, last := rows[..|rows| - 1], rows[|rows| - 1];
      TraceLast(rows, ok);
      RowsAreDense(front, ok, surface);
      assert rows == front + [last];
      RowsOfOneMore(front, last, surface);
      forall n: nat ensures FindPage(rows, surface, n) ==
                            if last.surface == surface && last.pageNumber == n then Some(last)
                            else FindPage(front, surface, n)
      {
        FindAppend(front, last, surface, n);
      }
    }
  }

  lemma {:induction false} RowsStaySorted(rows: seq<RawPage>, surface: Surface)
    requires SortedBy(rows, RowOrder())
    ensures SortedBy(RowsOf(rows, surface), RowOrder())
    ensures forall row :: row in RowsOf(rows, surface) ==> row in rows && row.surface == surface
  {
    if rows != [] {
      var front, last := rows[..|rows| - 1], rows[|rows| - 1];
      assert SortedBy(front, RowOrder());
      RowsStaySorted(front, surface);
      assert rows == front + [last];
      RowsOfOneMore(front, last, surface);
      var mine := RowsOf(front, surface);
      forall i | 0 <= i < |mine| ensures RowLe(mine[i], last) {
        assert mine[i] in front;
        var k :| 0 <= k < |front| && front[k] == mine[i];
        assert RowOrder()(rows[k], rows[|rows| - 1]);
      }
    }
  }

  lemma RowOrderIsTotal()
    ensures TotalPreorder(RowOrder())
  {
    forall a: RawPage, b: RawPage ensures RowOrder()(a, b) || RowOrder()(b, a) {
      TextLeTotal(Snapshot.SurfaceName(a.surface), Snapshot.SurfaceName(b.surface));
    }
    forall a: RawPage, b: RawPage, c: RawPage | RowOrder()(a, b) && RowOrder()(b, c) ensures RowOrder()(a, c) {
      var x, y, z := Snapshot.SurfaceName(a.surface), Snapshot.SurfaceName(b.surface), Snapshot.SurfaceName(c.surface);
      TextLeTotal(x, y);
      TextLeTotal(y, z);
      TextLeTransitive(x, y, z);
    }
  }

  /** The pages the canonicalizer reads for a surface are its stored pages, by number. */
  lemma LoadedInOrder(rows: seq<RawPage>, ok: (Request, Json) -> bool, surface: Surface)
    requires Trace(rows, ok)
    ensures RowsOf(Sort(rows, RowOrder()), surface) == RowsOf(rows, surface)
  {
    var sorted := Sort(rows, RowOrder());
    var xs, ys := RowsOf(rows, surface), RowsOf(sorted, surface);
    RowOrderIsTotal();
    SortIsSorted(rows, RowOrder());
    SortKeeps(rows, RowOrder());
    FilterMapPermutes(rows, sorted, RowOf(surface));
    RowsStaySorted(sorted, surface);
    RowsAreDense(rows, ok, surface);
    forall n | 0 <= n < |xs| ensures xs[n].surface == surface && xs[n].pageNumber == n {
      FindDense(rows, ok, surface, n);
    }
    SortedPermutationIsUnique(xs, ys, RowOrder());
  }
}
