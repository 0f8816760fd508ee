/** What a run must prove again to inherit an approved resolution. */
module ContractInheritance {
  import opened JsonValues
  import opened Ordering
  import opened SubmissionBindings
  import opened ContractSnapshot
  import opened ContractStore
  import Completeness = ContractCompleteness
  import opened ContractGovernance

  /** The two bindings differ at most in which section of the submission they are counted under. */
  predicate SameButSection(a: Binding, b: Binding) {
    && |a.position| == |b.position| == 4
    && a.position[1..] == b.position[1..]
    && a == b.(position := a.position)
    && a.form in EXPECTED_FORMS
  }

  ghost predicate Normalizes(xs: seq<Binding>, ys: seq<Binding>) {
    |xs| == |ys| && forall i :: 0 <= i < |xs| ==> NormalizedBinding(xs[i]) == Some(ys[i])
  }

  lemma {:induction false} NormalizeAllMeaning(bindings: seq<Binding>)
    ensures match NormalizeAll(bindings)
            case None => exists i :: 0 <= i < |bindings| && NormalizedBinding(bindings[i]).None?
            case Some(normalized) => Normalizes(bindings, normalized)
  {
    if bindings != [] {
      NormalizeAllMeaning(bindings[..|bindings| - 1]);
    }
  }

  /** Normalizing keeps the key, and with it the place in the order. */
  lemma KeptInOrder(x: Binding, y: Binding, x': Binding, y': Binding)
    requires NormalizedBinding(x) == Some(y) && NormalizedBinding(x') == Some(y')
    ensures KeyOrder()(x, x') <==> KeyOrder()(y, y')
  {
  }

  lemma NormalizesCons(x: Binding, y: Binding, xs: seq<Binding>, ys: seq<Binding>)
    requires NormalizedBinding(x) == Some(y) && Normalizes(xs, ys)
    ensures Normalizes([x] + xs, [y] + ys)
  {
  }

  lemma NormalizesSplit(xs: seq<Binding>, ys: seq<Binding>)
    requires Normalizes(xs, ys) && xs != []
    ensures ys != [] && NormalizedBinding(xs[0]) == Some(ys[0]) && Normalizes(xs[1..], ys[1..])
  {
  }

  lemma {:induction false} InsertNormalizes(x: Binding, y: Binding, xs: seq<Binding>, ys: seq<Binding>)
    requires NormalizedBinding(x) == Some(y) && Normalizes(xs, ys)
    ensures Normalizes(Insert(x, xs, KeyOrder()), Insert(y, ys, KeyOrder()))
  {
    if xs != [] {
      NormalizesSplit(xs, ys);
      KeptInOrder(x, y, xs[0], ys[0]);
    }
    if xs != [] && !KeyOrder()(x, xs[0]) {
      InsertNormalizes(x, y, xs[1..], ys[1..]);
      NormalizesCons(xs[0], ys[0], Insert(x, xs[1..], KeyOrder()), Insert(y, ys[1..], KeyOrder()));
    } else {
      NormalizesCons(x, y, xs, ys);
    }
  }

  /** Normalizing and then sorting by key is sorting by key and then normalizing. */
  lemma {:induction false} SortNormalizes(xs: seq<Binding>, ys: seq<Binding>)
    requires Normalizes(xs, ys)
    ensures Normalizes(Sort(xs, KeyOrder()), Sort(ys, KeyOrder()))
  {
    if xs != [] {
      SortNormalizes(xs[1..], ys[1..]);
      InsertNormalizes(xs[0], ys[0], Sort(xs[1..], KeyOrder()), Sort(ys[1..], KeyOrder()));
    }
  }

  lemma NormalizedAlike(a: Binding, b: Binding)
    ensures NormalizedBinding(a).Some? && NormalizedBinding(a) == NormalizedBinding(b) <==> SameButSection(a, b)
  {
    if NormalizedBinding(a).Some? && NormalizedBinding(a) == NormalizedBinding(b) {
      var n := NormalizedBinding(a).value;
      assert n.position[1..] == a.position[1..] && n.position[1..] == b.position[1..];
      assert a == n.(position := a.position) && b == n.(position := b.position);
    }
  }

  lemma AllNormalize(a: seq<Binding>, x: seq<Binding>)
    requires multiset(a) == multiset(x) && forall i :: 0 <= i < |x| ==> NormalizedBinding(x[i]).Some?
    ensures NormalizeAll(a).Some?
  {
    MembersOfPermutation(a, x);
    NormalizeAllMeaning(a);
    forall i | 0 <= i < |a| ensures NormalizedBinding(a[i]).Some? {
      assert a[i] in x;
    }
  }

  lemma BothNormalize(a: seq<Binding>, b: seq<Binding>, m: seq<Binding>, n: seq<Binding>)
    requires Normalizes(a, m) && Normalizes(b, n)
    ensures Sort(m, KeyOrder()) == Sort(n, KeyOrder()) <==> SameButSections(a, b)
  {
    var x, y := Sort(a, KeyOrder()), Sort(b, KeyOrder());
    SortNormalizes(a, m);
    SortNormalizes(b, n);
    forall i | 0 <= i < |x| && i < |y|
      ensures Sort(m, KeyOrder())[i] == Sort(n, KeyOrder())[i] <==> SameButSection(x[i], y[i])
    {
      NormalizedAlike(x[i], y[i]);
    }
  }

  /** Sorted by key, the lists differ at most in section places. */
  ghost predicate SameButSections(a: seq<Binding>, b: seq<Binding>) {
    var x, y := Sort(a, KeyOrder()), Sort(b, KeyOrder());
    |x| == |y| && forall i :: 0 <= i < |x| ==> SameButSection(x[i], y[i])
  }

  lemma AlikeBothNormalize(a: seq<Binding>, b: seq<Binding>)
    requires SameButSections(a, b)
    ensures NormalizeAll(a).Some? && NormalizeAll(b).Some?
  {
    var x, y := Sort(a, KeyOrder()), Sort(b, KeyOrder());
    SortKeeps(a, KeyOrder());
    SortKeeps(b, KeyOrder());
    forall i | 0 <= i < |x| ensures NormalizedBinding(x[i]).Some? && NormalizedBinding(y[i]).Some? {
      NormalizedAlike(x[i], y[i]);
    }
    AllNormalize(a, x);
    AllNormalize(b, y);
  }

  /** Two lists normalize alike exactly when they differ at most in section places. */
  lemma NormalizationForgetsSections(a: seq<Binding>, b: seq<Binding>)
    ensures NormalizedBindings(a).Some? && NormalizedBindings(a) == NormalizedBindings(b) <==> SameButSections(a, b)
  {
    if SameButSections(a, b) {
      AlikeBothNormalize(a, b);
    }
    if NormalizeAll(a).Some? && NormalizeAll(b).Some? {
      NormalizeAllMeaning(a);
      NormalizeAllMeaning(b);
      BothNormalize(a, b, NormalizeAll(a).value, NormalizeAll(b).value);
    }
  }

  /** A run inherits only if its own form pages give the approved bindings again, but for their section. */
  lemma InheritingRunReprovesBindings(active: Snapshot, observed: View, pages: Pages)
    requires Inherited(active, observed, pages).Some?
    ensures SameButSections(ReprovedBindings(observed.canonical, pages).bindings, GovernedCanonical(active).bindings)
  {
    NormalizationForgetsSections(ReprovedBindings(observed.canonical, pages).bindings,
      GovernedCanonical(active).bindings);
  }

  // When a run inherits

  /** `f` gives something for the elements at these places and for no others. */
  ghost predicate OnlyThere<T, U>(xs: seq<T>, f: T -> Option<U>, places: set<int>) {
    forall k :: 0 <= k < |xs| ==> (f(xs[k]).Some? <==> k in places)
  }

  lemma {:induction false} GivesNone<T, U>(xs: seq<T>, f: T -> Option<U>)
    ensures FilterMap(xs, f) == [] <==> OnlyThere(xs, f, {})
  {
    if xs != [] {
      GivesNone(xs[..|xs| - 1], f);
      SplitLast(xs);
    }
  }

  lemma SnocIs<U>(a: seq<U>, x: U, b: seq<U>, y: U)
    ensures a + [x] == b + [y] <==> a == b && x == y
  {
    if a + [x] == b + [y] {
      assert (a + [x])[..|a|] == a && (b + [y])[..|b|] == b;
      assert (a + [x])[|a|] == x && (b + [y])[|b|] == y;
    }
  }

  ghost predicate GivesOneAt<T, U>(xs: seq<T>, f: T -> Option<U>, u: U, i: int) {
    0 <= i < |xs| && f(xs[i]) == Some(u) && OnlyThere(xs, f, {i})
  }

  lemma {:induction false} GivesOne<T, U>(xs: seq<T>, f: T -> Option<U>, u: U)
    ensures FilterMap(xs, f) == [u] <==> exists i :: GivesOneAt(xs, f, u, i)
  {
    if xs != [] {
      var n := |xs| - 1;
      var front, last := xs[..n], xs[n];
      GivesOne(front, f, u);
      GivesNone(front, f);
      if f(last).None? {
        assert forall i :: GivesOneAt(xs, f, u, i) ==> GivesOneAt(front, f, u, i);
        assert forall i :: GivesOneAt(front, f, u, i) ==> GivesOneAt(xs, f, u, i);
      } else {
        SnocIs(FilterMap(front, f), f(last).value, [], u);
        assert [] + [u] == [u];
        assert forall i :: GivesOneAt(xs, f, u, i) ==> i == n && OnlyThere(front, f, {});
        assert OnlyThere(front, f, {}) && f(last) == Some(u) ==> GivesOneAt(xs, f, u, n);
      }
    }
  }

  ghost predicate GivesTwoAt<T, U>(xs: seq<T>, f: T -> Option<U>, u: U, v: U, i: int, j: int) {
    0 <= i < j < |xs| && f(xs[i]) == Some(u) && f(xs[j]) == Some(v) && OnlyThere(xs, f, {i, j})
  }

  lemma {:induction false} GivesTwo<T, U>(xs: seq<T>, f: T -> Option<U>, u: U, v: U)
    ensures FilterMap(xs, f) == [u, v] <==> exists i, j :: GivesTwoAt(xs, f, u, v, i, j)
  {
    if xs != [] {
      var n := |xs| - 1;
      var front, last := xs[..n], xs[n];
      GivesTwo(front, f, u, v);
      GivesOne(front, f, u);
      if f(last).None? {
        assert forall i, j :: GivesTwoAt(xs, f, u, v, i, j) ==> GivesTwoAt(front, f, u, v, i, j);
        assert forall i, j :: GivesTwoAt(front, f, u, v, i, j) ==> GivesTwoAt(xs, f, u, v, i, j);
      } else {
        SnocIs(FilterMap(front, f), f(last).value, [u], v);
        assert [u] + [v] == [u, v];
        LastOfTwo(xs, f, u, v);
      }
    }
  }

  lemma LastOfTwo<T, U>(xs: seq<T>, f: T -> Option<U>, u: U, v: U)
    requires xs != [] && f(xs[|xs| - 1]).Some?
    ensures var n := |xs| - 1;
            (exists i, j :: GivesTwoAt(xs, f, u, v, i, j))
            <==> f(xs[n]) == Some(v) && exists i :: GivesOneAt(xs[..n], f, u, i)
  {
    var n := |xs| - 1;
    forall i, j | GivesTwoAt(xs, f, u, v, i, j) ensures j == n && GivesOneAt(xs[..n], f, u, i) {
    }
    forall i | GivesOneAt(xs[..n], f, u, i) && f(xs[n]) == Some(v) ensures GivesTwoAt(xs, f, u, v, i, n) {
    }
  }

  /** These two sections use forms, the first page and the second, and no other does. */
  ghost predicate UsesTwoFormsAt(sections: seq<SectionEntry>, i: int, j: int) {
    && 0 <= i < j < |sections|
    && sections[i].configForm == Some("traditionalpageone") && sections[j].configForm == Some("traditionalpagetwo")
    && forall k :: 0 <= k < |sections| ==> (sections[k].sectionType == Str("submission-form") <==> k == i || k == j)
  }

  /** Two sections use forms, the first page before the second. */
  ghost predicate UsesTheTwoForms(sections: seq<SectionEntry>) {
    exists i, j :: UsesTwoFormsAt(sections, i, j)
  }

  lemma TwoFormsAtIff(sections: seq<SectionEntry>, u: Option<string>, v: Option<string>, i: int, j: int)
    requires u == Some("traditionalpageone") && v == Some("traditionalpagetwo")
    ensures GivesTwoAt(sections, FormOfSection(), u, v, i, j) <==> UsesTwoFormsAt(sections, i, j)
  {
    var f := FormOfSection();
    assert forall k ::
      0 <= k < |sections| ==> (f(sections[k]).Some? <==> sections[k].sectionType == Str("submission-form"));
  }

  lemma TwoFormsIff(sections: seq<SectionEntry>)
    ensures FormsOfSections(sections) == [Some(EXPECTED_FORMS[0]), Some(EXPECTED_FORMS[1])]
       <==> UsesTheTwoForms(sections)
  {
    var u: Option<string>, v: Option<string> := Some("traditionalpageone"), Some("traditionalpagetwo");
    GivesTwo(sections, FormOfSection(), u, v);
    forall i, j ensures GivesTwoAt(sections, FormOfSection(), u, v, i, j) <==> UsesTwoFormsAt(sections, i, j) {
      TwoFormsAtIff(sections, u, v, i, j);
    }
  }

  /** Nothing was unobservable but the sections that the approved resolution is about. */
  predicate OnlySectionsUnobserved(warnings: seq<string>) {
    forall w :: w in warnings ==>
      || w == "NO_ACTIVE_SUBMISSION_FORMS"
      || w == "UNOBSERVABLE_SURFACE:active_submission_sections"
      || w == "UNOBSERVABLE_SURFACE:active_submission_sections:HTTP_204"
  }

  /** The run shows again, from its own pages, all of the resolved contract but its sections. */
  ghost predicate Reproves(active: Snapshot, observed: View, pages: Pages) {
    var approved, forms := GovernedCanonical(active), SurfaceItems(pages, SubmissionForms);
    && active.effectiveHash.Some? && active.resolutionSurface == Some("active_submission_sections")
    && OnlySectionsUnobserved(observed.warnings)
    && observed.canonical.activeDefinition == Str("traditional")
    && observed.canonical.schemas == approved.schemas && observed.canonical.fields == approved.fields
    && UsesTheTwoForms(approved.sections)
    && Completeness.FormsBind(FormsById(forms), EXPECTED_FORMS, 2, RegistryNames(observed.canonical.fields))
    && SameButSections(ReprovedBindings(observed.canonical, pages).bindings, approved.bindings)
  }

  /** A run inherits exactly when it reproves the approved resolution. */
  lemma InheritsIff(active: Snapshot, observed: View, pages: Pages)
    ensures Inherited(active, observed, pages).Some? <==> Reproves(active, observed, pages)
  {
    var approved, forms := GovernedCanonical(active), SurfaceItems(pages, SubmissionForms);
    NormalizationForgetsSections(ReprovedBindings(observed.canonical, pages).bindings, approved.bindings);
    TwoFormsIff(approved.sections);
    Completeness.FormWarningsMeaning(FormsById(forms), EXPECTED_FORMS, RegistryNames(observed.canonical.fields), 2);
    InheritableIff(observed.warnings);
  }

  lemma InheritableIff(warnings: seq<string>)
    ensures OnlyInheritable(warnings) <==> OnlySectionsUnobserved(warnings)
  {
    if OnlyInheritable(warnings) {
      forall w | w in warnings ensures w in INHERITABLE_WARNINGS {
        var i :| 0 <= i < |warnings| && warnings[i] == w;
      }
    }
    if OnlySectionsUnobserved(warnings) {
      forall i | 0 <= i < |warnings| ensures warnings[i] in INHERITABLE_WARNINGS {
        assert warnings[i] in warnings;
      }
    }
  }
}
