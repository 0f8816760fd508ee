/** What an acceptable overlay is, said place by place in rendering order. */
module ContractOverlay {
  import opened JsonValues
  import opened Ordering
  import opened SubmissionBindings
  import opened BindingIdentity
  import opened ContractSnapshot
  import opened ContractClassification
  import opened ContractGovernance

  function FormAt(index: nat): string {
    if index < FIRST_FORM_COUNT then EXPECTED_FORMS[0] else EXPECTED_FORMS[1]
  }

  /** The binding is the one the reviewed profile expects at this place. */
  predicate Matches(b: Binding, e: ExpectedField, index: nat) {
    b.form == FormAt(index)
    && (b.metadata, b.fieldLabel, b.selectorLabel, b.required, b.repeatable, b.controlledVocabulary)
       == (e.metadata, e.fieldLabel, e.selectorLabel, e.required, e.repeatable, e.vocabulary)
  }

  ghost predicate AllMatch(ordered: seq<Binding>, profile: seq<ExpectedField>, n: nat) {
    n <= |ordered| && n <= |profile| && forall i :: 0 <= i < n ==> Matches(ordered[i], profile[i], i)
  }

  /** Incomplete for the one allowed reason, over the traditional definition, and not in force. */
  predicate Resolvable(s: Snapshot) {
    !s.complete && s.status != Active && OnlyInheritable(s.warnings) && s.canonical.activeDefinition == TRADITIONAL
  }

  ghost predicate Reconciled(s: Snapshot, overlay: Overlay, profile: seq<ExpectedField>) {
    && Resolvable(s)
    && ConfigForms(overlay.sections) == [Some(EXPECTED_FORMS[0]), Some(EXPECTED_FORMS[1])]
    && |overlay.bindings| == |profile| == FIRST_FORM_COUNT + SECOND_FORM_COUNT
    && "" !in BindingKeys(overlay.bindings) && Distinct(BindingKeys(overlay.bindings))
    && ExpectedMetadata(profile) <= RegistryNames(s.canonical.fields)
    && AllMatch(Sort(overlay.bindings, PositionOrder()), profile, |profile|)
  }

  lemma PlaceErrorIff(b: Binding, e: ExpectedField, index: nat)
    ensures PlaceError(b, e, index).None? <==> Matches(b, e, index)
  {
  }

  lemma {:induction false} PlacesErrorIff(ordered: seq<Binding>, profile: seq<ExpectedField>, n: nat)
    requires n <= |ordered| == |profile|
    ensures PlacesError(ordered, profile, n).None? <==> AllMatch(ordered, profile, n)
  {
    if n > 0 {
      PlacesErrorIff(ordered, profile, n - 1);
      PlaceErrorIff(ordered[n - 1], profile[n - 1], n - 1);
    }
  }

  // The counts follow from the places

  function OfForm(form: string): Binding -> Option<()> {
    (b: Binding) => if b.form == form then Some(()) else None
  }

  lemma {:induction false} CountIsFilter(bindings: seq<Binding>, form: string)
    ensures CountForm(bindings, form) == |FilterMap(bindings, OfForm(form))|
  {
    if bindings != [] {
      CountIsFilter(bindings[..|bindings| - 1], form);
    }
  }

  lemma CountPermutes(a: seq<Binding>, b: seq<Binding>, form: string)
    requires multiset(a) == multiset(b)
    ensures CountForm(a, form) == CountForm(b, form)
  {
    CountIsFilter(a, form);
    CountIsFilter(b, form);
    FilterMapPermutes(a, b, OfForm(form));
    MembersOfPermutation(FilterMap(a, OfForm(form)), FilterMap(b, OfForm(form)));
  }

  lemma FormsDiffer()
    ensures EXPECTED_FORMS[0] != EXPECTED_FORMS[1]
  {
    assert |EXPECTED_FORMS[0]| == |EXPECTED_FORMS[1]| && EXPECTED_FORMS[0][15] != EXPECTED_FORMS[1][15];
  }

  lemma {:induction false} CountsOfMatched(ordered: seq<Binding>, profile: seq<ExpectedField>, n: nat)
    requires AllMatch(ordered, profile, n)
    ensures CountForm(ordered[..n], EXPECTED_FORMS[0]) == if n < FIRST_FORM_COUNT then n else FIRST_FORM_COUNT
    ensures CountForm(ordered[..n], EXPECTED_FORMS[1]) == if n < FIRST_FORM_COUNT then 0 else n - FIRST_FORM_COUNT
  {
    if n > 0 {
      FormsDiffer();
      CountsOfMatched(ordered, profile, n - 1);
      assert ordered[..n][..n - 1] == ordered[..n - 1];
      assert Matches(ordered[n - 1], profile[n - 1], n - 1);
    }
  }

  lemma MetadataPermutes(a: seq<Binding>, b: seq<Binding>)
    requires multiset(a) == multiset(b)
    ensures MetadataOf(a) == MetadataOf(b)
  {
    MembersOfPermutation(a, b);
    forall m ensures m in MetadataOf(a) <==> m in MetadataOf(b) {
      if m in MetadataOf(a) {
        var i :| 0 <= i < |a| && a[i].metadata == m;
        assert a[i] in b;
      }
      if m in MetadataOf(b) {
        var i :| 0 <= i < |b| && b[i].metadata == m;
        assert b[i] in a;
      }
    }
  }

  lemma MetadataOfMatched(ordered: seq<Binding>, profile: seq<ExpectedField>)
    requires |ordered| == |profile| && AllMatch(ordered, profile, |profile|)
    ensures MetadataOf(ordered) == ExpectedMetadata(profile)
  {
    assert forall i :: 0 <= i < |profile| ==> ordered[i].metadata == profile[i].metadata;
  }

  /** The counts and names the shape checks ask for, once every place matches. */
  lemma MatchedShape(bindings: seq<Binding>, profile: seq<ExpectedField>)
    requires |bindings| == |profile| == FIRST_FORM_COUNT + SECOND_FORM_COUNT
    requires AllMatch(Sort(bindings, PositionOrder()), profile, |profile|)
    ensures CountForm(bindings, EXPECTED_FORMS[0]) == FIRST_FORM_COUNT
            && CountForm(bindings, EXPECTED_FORMS[1]) == SECOND_FORM_COUNT
    ensures MetadataOf(bindings) == ExpectedMetadata(profile)
  {
    var ordered := Sort(bindings, PositionOrder());
    SortKeeps(bindings, PositionOrder());
    MembersOfPermutation(bindings, ordered);
    CountPermutes(bindings, ordered, EXPECTED_FORMS[0]);
    CountPermutes(bindings, ordered, EXPECTED_FORMS[1]);
    CountsOfMatched(ordered, profile, |profile|);
    assert ordered[..|profile|] == ordered;
    MetadataPermutes(bindings, ordered);
    MetadataOfMatched(ordered, profile);
  }

  lemma ShapeOfReconciled(s: Snapshot, overlay: Overlay, profile: seq<ExpectedField>)
    requires Reconciled(s, overlay, profile)
    ensures OverlayShapeError(s, overlay, profile).None?
  {
    MatchedShape(overlay.bindings, profile);
    DedupLength(BindingKeys(overlay.bindings));
  }

  lemma ShapeMeans(s: Snapshot, overlay: Overlay, profile: seq<ExpectedField>)
    requires OverlayShapeError(s, overlay, profile).None?
    ensures Resolvable(s) && ConfigForms(overlay.sections) == [Some(EXPECTED_FORMS[0]), Some(EXPECTED_FORMS[1])]
    ensures |overlay.bindings| == |profile| == FIRST_FORM_COUNT + SECOND_FORM_COUNT
    ensures "" !in BindingKeys(overlay.bindings) && Distinct(BindingKeys(overlay.bindings))
    ensures MetadataOf(overlay.bindings) <= RegistryNames(s.canonical.fields)
  {
    DedupLength(BindingKeys(overlay.bindings));
  }

  /**
    An overlay is accepted exactly when it is reconciled: the counting checks refuse nothing that matches
    place by place.
   */
  lemma AcceptedIffReconciled(s: Snapshot, overlay: Overlay, profile: seq<ExpectedField>)
    ensures OverlayError(s, overlay, profile).None? <==> Reconciled(s, overlay, profile)
  {
    var ordered := Sort(overlay.bindings, PositionOrder());
    SortKeeps(overlay.bindings, PositionOrder());
    MembersOfPermutation(overlay.bindings, ordered);
    if Reconciled(s, overlay, profile) {
      ShapeOfReconciled(s, overlay, profile);
      PlacesErrorIff(ordered, profile, |profile|);
    }
    if OverlayError(s, overlay, profile).None? {
      ShapeMeans(s, overlay, profile);
      PlacesErrorIff(ordered, profile, |profile|);
      MatchedShape(overlay.bindings, profile);
    }
  }
}
