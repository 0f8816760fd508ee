/** Which page sequences count as complete evidence of a paginated surface. */
module PageSequence {
  import opened JsonValues
  import opened Ordering

  datatype Verdict = Clean | Empty | InvalidMetadata | Inconsistent | Duplicate | Incomplete

  datatype PageMeta = PageMeta(number: nat, totalPages: nat, totalElements: nat)

  function NatOf(j: Json): Option<nat> {
    match AsInt(j)
    case Some(n) => if n >= 0 then Some(n) else None
    case None => None
  }

  /** The pagination of one payload, if it has any that makes sense. */
  function MetaOf(payload: Json): Option<PageMeta> {
    var page := Get(payload, "page");
    var number, totalPages, totalElements :=
      NatOf(Get(page, "number")), NatOf(Get(page, "totalPages")), NatOf(Get(page, "totalElements"));
    if page.Obj? && number.Some? && totalPages.Some? && totalElements.Some? then
      Some(PageMeta(number.value, totalPages.value, totalElements.value))
    else None
  }

  predicate AllMeta(payloads: seq<Json>) {
    forall i :: 0 <= i < |payloads| ==> MetaOf(payloads[i]).Some?
  }

  function Numbers(payloads: seq<Json>): seq<nat>
    requires AllMeta(payloads)
  {
    seq(|payloads|, i requires 0 <= i < |payloads| => MetaOf(payloads[i]).value.number)
  }

  function NumberOrder(): (nat, nat) -> bool {
    (a: nat, b: nat) => a <= b
  }

  function Range(n: nat): seq<nat> {
    seq(n, i => i)
  }

  /** `_validate_page_sequence`: loops over the payloads, then checks what it gathered. */
  method ValidatePageSequence(payloads: seq<Json>) returns (verdict: Verdict)
    ensures verdict == PageVerdict(payloads)
  {
    if payloads == [] {
      return Empty;
    }
    var pageNumbers: seq<nat> := [];
    var totalPagesValues: set<nat> := {};
    var totalElementsValues: set<nat> := {};
    for i := 0 to |payloads|
      invariant AllMeta(payloads[..i])
      invariant pageNumbers == Numbers(payloads[..i])
      invariant totalPagesValues == set k | 0 <= k < i :: MetaOf(payloads[..i][k]).value.totalPages
      invariant totalElementsValues == set k | 0 <= k < i :: MetaOf(payloads[..i][k]).value.totalElements
    {
      var meta := MetaOf(payloads[i]);
      if meta.None? {
        return InvalidMetadata;
      }
      pageNumbers := pageNumbers + [meta.value.number];
      totalPagesValues := totalPagesValues + {meta.value.totalPages};
      totalElementsValues := totalElementsValues + {meta.value.totalElements};
      assert forall k :: 0 <= k < i ==> payloads[..i + 1][k] == payloads[..i][k];
      assert payloads[..i + 1][i] == payloads[i];
    }
    assert payloads[..|payloads|] == payloads;
    var first := MetaOf(payloads[0]).value;
    assert first.totalPages in totalPagesValues && first.totalElements in totalElementsValues;
    if totalPagesValues != {first.totalPages} || totalElementsValues != {first.totalElements} {
      assert exists k :: 0 <= k < |payloads| && !SameTotals(payloads[k], payloads[0]) by {
        SetsTellTotals(payloads, totalPagesValues, totalElementsValues);
      }
      return Inconsistent;
    }
    assert TotalsAgree(payloads) by {
      SetsTellTotals(payloads, totalPagesValues, totalElementsValues);
    }
    var observed := Sort(pageNumbers, NumberOrder());
    if |observed| != |Dedup(observed)| {
      return Duplicate;
    }
    if first.totalPages == 0 {
      if observed != [0] || first.totalElements != 0 {
        return Incomplete;
      }
      return Clean;
    }
    if observed != Range(first.totalPages) {
      return Incomplete;
    }
    return Clean;
  }

  predicate SameTotals(a: Json, b: Json) {
    && MetaOf(a).Some? && MetaOf(b).Some?
    && MetaOf(a).value.totalPages == MetaOf(b).value.totalPages
    && MetaOf(a).value.totalElements == MetaOf(b).value.totalElements
  }

  predicate TotalsAgree(payloads: seq<Json>) {
    forall i :: 0 <= i < |payloads| ==> SameTotals(payloads[i], payloads[0])
  }

  lemma SetsTellTotals(payloads: seq<Json>, pages: set<nat>, elements: set<nat>)
    requires payloads != [] && AllMeta(payloads)
    requires pages == set k | 0 <= k < |payloads| :: MetaOf(payloads[k]).value.totalPages
    requires elements == set k | 0 <= k < |payloads| :: MetaOf(payloads[k]).value.totalElements
    ensures TotalsAgree(payloads) <==>
            pages == {MetaOf(payloads[0]).value.totalPages} && elements == {MetaOf(payloads[0]).value.totalElements}
  {
    var first := MetaOf(payloads[0]).value;
    if pages == {first.totalPages} && elements == {first.totalElements} {
      forall i | 0 <= i < |payloads| ensures SameTotals(payloads[i], payloads[0]) {
        assert MetaOf(payloads[i]).value.totalPages in pages;
        assert MetaOf(payloads[i]).value.totalElements in elements;
      }
    }
    if TotalsAgree(payloads) {
      assert first.totalPages in pages && first.totalElements in elements;
      assert forall k :: 0 <= k < |payloads| ==> SameTotals(payloads[k], payloads[0]);
    }
  }

  /** What the checks find, in the order they are made. */
  function PageVerdict(payloads: seq<Json>): Verdict {
    if payloads == [] then Empty
    else if !AllMeta(payloads) then InvalidMetadata
    else if !TotalsAgree(payloads) then Inconsistent
    else
      var first := MetaOf(payloads[0]).value;
      var observed := Sort(Numbers(payloads), NumberOrder());
      if |observed| != |Dedup(observed)| then Duplicate
      else if first.totalPages == 0 then
        if observed != [0] || first.totalElements != 0 then Incomplete else Clean
      else if observed != Range(first.totalPages) then Incomplete
      else Clean
  }

  /** Every page from 0 on is there once, and all pages agree on how many there are. */
  ghost predicate ExactPages(payloads: seq<Json>) {
    && payloads != []
    && AllMeta(payloads)
    && TotalsAgree(payloads)
    && var first := MetaOf(payloads[0]).value;
    && Distinct(Numbers(payloads))
    && if first.totalPages == 0 then |payloads| == 1 && first.number == 0 && first.totalElements == 0
       else |payloads| == first.totalPages && forall k: nat :: k in Numbers(payloads) <==> k < first.totalPages
  }

  lemma NumberOrderIsTotal()
    ensures TotalPreorder(NumberOrder())
  {
  }

  lemma SortedNumbers(payloads: seq<Json>)
    requires AllMeta(payloads)
    ensures var observed := Sort(Numbers(payloads), NumberOrder());
            && |observed| == |payloads|
            && multiset(observed) == multiset(Numbers(payloads))
            && SortedBy(observed, NumberOrder())
            && (|observed| == |Dedup(observed)| <==> Distinct(Numbers(payloads)))
  {
    var numbers := Numbers(payloads);
    var observed := Sort(numbers, NumberOrder());
    NumberOrderIsTotal();
    SortIsSorted(numbers, NumberOrder());
    SortKeeps(numbers, NumberOrder());
    MembersOfPermutation(numbers, observed);
    DedupLength(observed);
    if Distinct(numbers) {
      PermutationOfDistinct(numbers, observed);
    }
    if Distinct(observed) {
      PermutationOfDistinct(observed, numbers);
    }
  }

  /** A permutation of 0..n-1 sorts to exactly that range. */
  lemma RangeWhenExact(observed: seq<nat>, n: nat)
    requires SortedBy(observed, NumberOrder()) && Distinct(observed)
    ensures observed == Range(n) <==> |observed| == n && forall k: nat :: k in observed <==> k < n
  {
    if observed == Range(n) {
      forall k: nat | k < n ensures k in observed {
        assert observed[k] == k;
      }
    }
    if |observed| == n && forall k: nat :: k in observed <==> k < n {
      assert forall i, j :: 0 <= i < j < n ==> observed[i] < observed[j];
      assert forall i :: 0 <= i < n ==> observed[i] in observed;
      StrictlyIncreasing(observed, n);
    }
  }

  lemma {:induction false} StrictlyIncreasing(observed: seq<nat>, n: nat)
    requires |observed| == n && forall i, j :: 0 <= i < j < n ==> observed[i] < observed[j]
    requires forall i :: 0 <= i < n ==> observed[i] < n
    ensures observed == Range(n)
  {
    if n > 0 {
      var front := observed[..n - 1];
      assert observed[n - 1] < n;
      assert forall i :: 0 <= i < n - 1 ==> front[i] < observed[n - 1] < n;
      StrictlyIncreasing(front, n - 1);
      assert observed[n - 1] == n - 1 by {
        if n > 1 {
          assert front[n - 2] == n - 2;
        }
      }
      assert observed == front + [n - 1];
    }
  }

  /** The checks pass exactly when the pages are all there, once each, with agreeing totals. */
  lemma CleanIffExact(payloads: seq<Json>)
    ensures PageVerdict(payloads) == Clean <==> ExactPages(payloads)
  {
    if payloads != [] && AllMeta(payloads) && TotalsAgree(payloads) {
      var first := MetaOf(payloads[0]).value;
      var numbers := Numbers(payloads);
      var observed := Sort(numbers, NumberOrder());
      SortedNumbers(payloads);
      MembersOfPermutation(numbers, observed);
      if Distinct(numbers) {
        PermutationOfDistinct(numbers, observed);
        RangeWhenExact(observed, first.totalPages);
        if first.totalPages == 0 {
          assert numbers[0] == first.number && numbers[0] in observed;
          if |payloads| == 1 {
            assert observed == [observed[0]];
          }
        }
      }
    }
  }
}
