/** The deterministic diagnostics of an item's metadata, and what they depend on. */
module DiagnosticsEngine {
  import opened JsonValues
  import opened Ordering

  const FAMILY := "dc.subject.linguisticFamily"
  const BRANCH := "dc.subject.linguisticBranch"
  const GROUP := "dc.subject.linguiscgroup"
  const VARIANT := "dc.subject.linguisticVariant"
  const CONTROLLED := ["dc.description.registeredLanguage", GROUP, FAMILY, BRANCH, VARIANT]

  /** Trimming, and the normalization of an already trimmed value, are whatever the runtime makes of them. */
  datatype Text = Text(strip: string -> string, fold: string -> string)

  datatype Value = Value(field: string, text: string)

  /** An approved vocabulary revision; its key names the field and the revision. */
  datatype VocabularyRule = VocabularyRule(field: string, revision: nat, terms: set<string>)

  datatype Evidence =
    | NoEvidence
    | Duplicates(field: string, values: seq<string>)
    | Invalid(rule: (string, nat), values: seq<string>)

  datatype Code = Ling002 | Ling003 | Ling004 | Ling005 | Meta001 | Vocab001

  datatype Finding = Finding(code: Code, affectedFields: seq<string>, evidence: Evidence)

  function Fingerprint(): Finding -> Digest<(Code, seq<string>, Evidence)> {
    (f: Finding) => Sha256((f.code, f.affectedFields, f.evidence))
  }

  // Grouping

  function TextOf(field: string): Value -> Option<string> {
    (v: Value) => if v.field == field then Some(v.text) else None
  }

  /** The values of one field, in the order they are listed. */
  function ValuesOf(values: seq<Value>, field: string): seq<string> {
    FilterMap(values, TextOf(field))
  }

  function FieldsOf(values: seq<Value>): set<string> {
    set i | 0 <= i < |values| :: values[i].field
  }

  function Grouped(values: seq<Value>): map<string, seq<string>> {
    map field | field in FieldsOf(values) :: ValuesOf(values, field)
  }

  /** `group_metadata_values`. */
  method GroupMetadataValues(values: seq<Value>) returns (metadata: map<string, seq<string>>)
    ensures metadata == Grouped(values)
  {
    metadata := map[];
    for i := 0 to |values|
      invariant metadata == Grouped(values[..i])
    {
      var v := values[i];
      GroupOneMore(values[..i], v);
      assert values[..i + 1] == values[..i] + [v];
      metadata := metadata[v.field := (if v.field in metadata then metadata[v.field] else []) + [v.text]];
    }
    assert values[..|values|] == values;
  }

  lemma ValuesOneMore(values: seq<Value>, v: Value, field: string)
    ensures ValuesOf(values + [v], field) == ValuesOf(values, field) + if v.field == field then [v.text] else []
  {
  }

  lemma FieldsOneMore(values: seq<Value>, v: Value)
    ensures FieldsOf(values + [v]) == FieldsOf(values) + {v.field}
  {
    var more := values + [v];
    assert forall i :: 0 <= i < |values| ==> more[i] == values[i];
    assert more[|values|] == v;
  }

  lemma GroupOneMore(values: seq<Value>, v: Value)
    ensures var before := Grouped(values);
            Grouped(values + [v]) == before[v.field := (if v.field in before then before[v.field] else []) + [v.text]]
  {
    var before, after := Grouped(values), Grouped(values + [v]);
    var mine := if v.field in before then before[v.field] else [];
    FieldsOneMore(values, v);
    if v.field !in FieldsOf(values) {
      NoValues(values, v.field);
    }
    ValuesOneMore(values, v, v.field);
    assert mine == ValuesOf(values, v.field);
    var next := before[v.field := mine + [v.text]];
    assert after.Keys == next.Keys;
    forall field | field in after ensures after[field] == next[field] {
      ValuesOneMore(values, v, field);
      assert ValuesOf(values, field) + [] == ValuesOf(values, field);
    }
  }

  lemma {:induction false} NoValues(values: seq<Value>, field: string)
    requires field !in FieldsOf(values)
    ensures ValuesOf(values, field) == []
  {
    if values != [] {
      var front, last := values[..|values| - 1], values[|values| - 1];
      assert last.field in FieldsOf(values);
      forall i | 0 <= i < |front| ensures front[i].field in FieldsOf(values) {
        assert front[i] == values[i];
      }
      NoValues(front, field);
    }
  }

  /** `metadata.get(field, ())`. */
  function GetValues(metadata: map<string, seq<string>>, field: string): seq<string> {
    if field in metadata then metadata[field] else []
  }

  lemma GroupedValues(values: seq<Value>, field: string)
    ensures GetValues(Grouped(values), field) == ValuesOf(values, field)
  {
    if field !in FieldsOf(values) {
      NoValues(values, field);
    }
  }

  // The rules

  function Stripped(text: Text): string -> Option<string> {
    (value: string) => if text.strip(value) != "" then Some(text.strip(value)) else None
  }

  predicate Present(text: Text, metadata: map<string, seq<string>>, field: string) {
    FilterMap(GetValues(metadata, field), Stripped(text)) != []
  }

  /** A field given without the one it belongs under. */
  function Orphan(
    text: Text, metadata: map<string, seq<string>>, code: Code, child: string, parent: string): seq<Finding>
  {
    if Present(text, metadata, child) && !Present(text, metadata, parent) then
      [Finding(code, [child, parent], NoEvidence)]
    else []
  }

  function HierarchyFindings(text: Text, metadata: map<string, seq<string>>): seq<Finding> {
    Orphan(text, metadata, Ling002, BRANCH, FAMILY)
    + Orphan(text, metadata, Ling004, GROUP, FAMILY)
    + Orphan(text, metadata, Ling005, VARIANT, GROUP)
  }

  function RequiredFinding(text: Text, metadata: map<string, seq<string>>): string -> Option<Finding> {
    (field: string) => if Present(text, metadata, field) then None else Some(Finding(Meta001, [field], NoEvidence))
  }

  function Folded(text: Text): string -> Option<string> {
    (value: string) => if text.strip(value) != "" then Some(text.fold(text.strip(value))) else None
  }

  function MoreThanOnce(counts: multiset<string>): string -> Option<string> {
    (x: string) => if counts[x] > 1 then Some(x) else None
  }

  /** The values that occur more than once, sorted. */
  function Repeated(xs: seq<string>): seq<string> {
    SortedSet(FilterMap(xs, MoreThanOnce(multiset(xs))))
  }

  function DuplicateFinding(text: Text, metadata: map<string, seq<string>>): string -> Option<Finding> {
    (field: string) =>
      var duplicates := Repeated(FilterMap(GetValues(metadata, field), Folded(text)));
      if duplicates == [] then None else Some(Finding(Ling003, [field], Duplicates(field, duplicates)))
  }

  function Unapproved(text: Text, terms: set<string>): string -> Option<string> {
    (value: string) => if text.strip(value) != "" && text.strip(value) !in terms then Some(text.strip(value)) else None
  }

  function VocabularyFinding(
    text: Text, metadata: map<string, seq<string>>, rules: map<string, VocabularyRule>): string -> Option<Finding>
  {
    (field: string) =>
      if field !in rules then None
      else
        var rule := rules[field];
        var invalid := SortedSet(FilterMap(GetValues(metadata, field), Unapproved(text, rule.terms)));
        if invalid == [] then None
        else Some(Finding(Vocab001, [field], Invalid((rule.field, rule.revision), invalid)))
  }

  /** `evaluate_metadata`. */
  ghost function Evaluate(
    text: Text, metadata: map<string, seq<string>>, required: seq<string>,
    rules: map<string, VocabularyRule>): seq<Finding>
  {
    HierarchyFindings(text, metadata)
    + FilterMap(SortedSet(required), RequiredFinding(text, metadata))
    + FilterMap(CONTROLLED, DuplicateFinding(text, metadata))
    + FilterMap(SortedOf(rules.Keys), VocabularyFinding(text, metadata, rules))
  }

  method Gather(keys: seq<string>, rule: string -> Option<Finding>) returns (findings: seq<Finding>)
    ensures findings == FilterMap(keys, rule)
  {
    findings := [];
    for i := 0 to |keys|
      invariant findings == FilterMap(keys[..i], rule)
    {
      assert keys[..i + 1][..i] == keys[..i];
      var finding := rule(keys[i]);
      if finding.Some? {
        findings := findings + [finding.value];
      }
    }
    assert keys[..|keys|] == keys;
  }

  method SortKeys(keys: set<string>) returns (sorted: seq<string>)
    ensures sorted == SortedOf(keys)
  {
    var listed: seq<string> := [];
    var left := keys;
    while left != {}
      invariant left <= keys
      invariant forall k :: k in listed <==> k in keys - left
    {
      var k :| k in left;
      listed := listed + [k];
      left := left - {k};
    }
    sorted := SortedSet(listed);
    SortedSetOfSameMembers(listed, Enumerate(keys));
  }

  method EvaluateMetadata(
    text: Text, metadata: map<string, seq<string>>, required: seq<string>, rules: map<string, VocabularyRule>)
    returns (findings: seq<Finding>)
    ensures findings == Evaluate(text, metadata, required, rules)
  {
    findings := HierarchyFindings(text, metadata);
    var missing := Gather(SortedSet(required), RequiredFinding(text, metadata));
    var duplicates := Gather(CONTROLLED, DuplicateFinding(text, metadata));
    var keys := SortKeys(rules.Keys);
    var invalid := Gather(keys, VocabularyFinding(text, metadata, rules));
    findings := findings + missing + duplicates + invalid;
  }

  // What the findings say

  predicate Filled(text: Text, value: string) {
    text.strip(value) != ""
  }

  /** The field has a value that is more than white space. */
  ghost predicate HasValue(text: Text, metadata: map<string, seq<string>>, field: string) {
    exists value :: value in GetValues(metadata, field) && Filled(text, value)
  }

  lemma PresentIff(text: Text, metadata: map<string, seq<string>>, field: string)
    ensures Present(text, metadata, field) <==> HasValue(text, metadata, field)
  {
    var values, f := GetValues(metadata, field), Stripped(text);
    var found := FilterMap(values, f);
    if found != [] {
      assert found[0] in found;
      FilterMapHas(values, f, found[0]);
      var value :| value in values && f(value) == Some(found[0]);
      assert Filled(text, value);
    }
    if HasValue(text, metadata, field) {
      var value :| value in values && Filled(text, value);
      FilterMapHas(values, f, text.strip(value));
    }
  }

  ghost predicate Reads<T, U>(xs: seq<T>, f: T -> Option<U>, i: int, u: U) {
    0 <= i < |xs| && f(xs[i]) == Some(u)
  }

  /** Two of the elements give `u`. */
  ghost predicate Twice<T, U>(xs: seq<T>, f: T -> Option<U>, u: U) {
    exists i, j :: Reads(xs, f, i, u) && Reads(xs, f, j, u) && i < j
  }

  lemma TwiceOneMore<T, U>(front: seq<T>, last: T, f: T -> Option<U>, u: U)
    ensures Twice(front + [last], f, u) <==> Twice(front, f, u) || (f(last) == Some(u) && u in FilterMap(front, f))
  {
    var xs := front + [last];
    FilterMapHas(front, f, u);
    if Twice(xs, f, u) {
      var i, j :| Reads(xs, f, i, u) && Reads(xs, f, j, u) && i < j;
      assert Reads(front, f, i, u) && front[i] in front;
      assert j < |front| ==> Reads(front, f, j, u);
    }
    if Twice(front, f, u) {
      var i, j :| Reads(front, f, i, u) && Reads(front, f, j, u) && i < j;
      assert Reads(xs, f, i, u) && Reads(xs, f, j, u);
    }
    if f(last) == Some(u) && u in FilterMap(front, f) {
      var x :| x in front && f(x) == Some(u);
      var i :| 0 <= i < |front| && front[i] == x;
      assert Reads(xs, f, i, u) && Reads(xs, f, |front|, u);
    }
  }

  lemma {:induction false} CountedTwiceIff<T, U>(xs: seq<T>, f: T -> Option<U>, u: U)
    ensures multiset(FilterMap(xs, f))[u] > 1 <==> Twice(xs, f, u)
  {
    if xs != [] {
      var front, last := xs[..|xs| - 1], xs[|xs| - 1];
      assert xs == front + [last];
      CountedTwiceIff(front, f, u);
      TwiceOneMore(front, last, f, u);
      assert u in FilterMap(front, f) <==> multiset(FilterMap(front, f))[u] > 0;
    }
  }

  lemma RepeatedHas(xs: seq<string>, x: string)
    ensures x in Repeated(xs) <==> multiset(xs)[x] > 1
  {
    var f := MoreThanOnce(multiset(xs));
    SortedSetProperties(FilterMap(xs, f));
    FilterMapHas(xs, f, x);
    assert multiset(xs)[x] > 0 ==> x in xs;
  }

  /** The value is more than white space, and reads like this once trimmed and normalized. */
  ghost predicate Normal(text: Text, values: seq<string>, i: int, x: string) {
    0 <= i < |values| && Filled(text, values[i]) && text.fold(text.strip(values[i])) == x
  }

  /** Two of the values read alike. */
  ghost predicate Shared(text: Text, values: seq<string>, x: string) {
    exists i, j :: i < j && Normal(text, values, i, x) && Normal(text, values, j, x)
  }

  lemma SharedIff(text: Text, values: seq<string>, x: string)
    ensures Twice(values, Folded(text), x) <==> Shared(text, values, x)
  {
    forall i ensures Reads(values, Folded(text), i, x) <==> Normal(text, values, i, x) {
    }
  }

  lemma RepeatedIff(text: Text, values: seq<string>)
    ensures var repeated := Repeated(FilterMap(values, Folded(text)));
            SortedBy(repeated, TextOrder()) && Distinct(repeated) && forall x ::
              x in repeated <==> Shared(text, values, x)
  {
    var folded := FilterMap(values, Folded(text));
    SortedSetProperties(FilterMap(folded, MoreThanOnce(multiset(folded))));
    forall x ensures x in Repeated(folded) <==> Shared(text, values, x) {
      RepeatedHas(folded, x);
      CountedTwiceIff(values, Folded(text), x);
      SharedIff(text, values, x);
    }
  }

  ghost predicate Trimmed(text: Text, values: seq<string>, x: string) {
    exists value :: value in values && text.strip(value) == x
  }

  lemma UnapprovedHas(text: Text, values: seq<string>, terms: set<string>, x: string)
    ensures x in FilterMap(values, Unapproved(text, terms)) <==> x != "" && x !in terms && Trimmed(text, values, x)
  {
    FilterMapHas(values, Unapproved(text, terms), x);
  }

  lemma UnapprovedIff(text: Text, values: seq<string>, terms: set<string>)
    ensures var invalid := SortedSet(FilterMap(values, Unapproved(text, terms)));
            && SortedBy(invalid, TextOrder()) && Distinct(invalid)
            && forall x :: x in invalid <==> x != "" && x !in terms && Trimmed(text, values, x)
  {
    SortedSetProperties(FilterMap(values, Unapproved(text, terms)));
    forall x
      ensures x in FilterMap(values, Unapproved(text, terms)) <==> x != "" && x !in terms && Trimmed(text, values, x)
    {
      UnapprovedHas(text, values, terms, x);
    }
  }

  /** `listed` is what `wanted` holds of, sorted, and there is some. */
  ghost predicate Lists(listed: seq<string>, wanted: string -> bool) {
    && listed != [] && SortedBy(listed, TextOrder()) && Distinct(listed)
    && forall x :: x in listed <==> wanted(x)
  }

  /** `child` is given without the field it belongs under. */
  ghost predicate Orphaned(
    text: Text, metadata: map<string, seq<string>>, code: Code, child: string, parent: string, f: Finding)
  {
    && f == Finding(code, [child, parent], NoEvidence)
    && HasValue(text, metadata, child) && !HasValue(text, metadata, parent)
  }

  ghost predicate Lacks(
    text: Text, metadata: map<string, seq<string>>, required: seq<string>, field: string, f: Finding)
  {
    && f == Finding(Meta001, [field], NoEvidence)
    && field in required && !HasValue(text, metadata, field)
  }

  /** The evidence is every normalized value that two values of the field share. */
  ghost predicate RepeatsValues(text: Text, metadata: map<string, seq<string>>, field: string, f: Finding) {
    && f.code == Ling003 && f.affectedFields == [field] && f.evidence.Duplicates? && f.evidence.field == field
    && Lists(f.evidence.values, (x: string) => Shared(text, GetValues(metadata, field), x))
  }

  /** The evidence is every trimmed value of the field that the approved revision does not list. */
  ghost predicate LeavesVocabulary(
    text: Text, metadata: map<string, seq<string>>, field: string, rule: VocabularyRule, f: Finding)
  {
    && f.code == Vocab001 && f.affectedFields == [field] && f.evidence.Invalid?
    && f.evidence.rule == (rule.field, rule.revision)
    && Lists(f.evidence.values, (x: string) => x != "" && x !in rule.terms
       && Trimmed(text, GetValues(metadata, field), x))
  }

  /** The fields for which `f` reports the values that leave their vocabulary. */
  ghost function LeavingField(
    text: Text, metadata: map<string, seq<string>>, rules: map<string, VocabularyRule>, f: Finding): string -> bool
  {
    (field: string) => field in rules && LeavesVocabulary(text, metadata, field, rules[field], f)
  }

  ghost predicate HierarchyCalls(text: Text, metadata: map<string, seq<string>>, f: Finding) {
    || Orphaned(text, metadata, Ling002, BRANCH, FAMILY, f)
    || Orphaned(text, metadata, Ling004, GROUP, FAMILY, f)
    || Orphaned(text, metadata, Ling005, VARIANT, GROUP, f)
  }

  ghost predicate RequirementCalls(
    text: Text, metadata: map<string, seq<string>>, required: seq<string>, f: Finding)
  {
    exists field :: Lacks(text, metadata, required, field, f)
  }

  ghost predicate RepetitionCalls(text: Text, metadata: map<string, seq<string>>, f: Finding) {
    exists field :: field in CONTROLLED && RepeatsValues(text, metadata, field, f)
  }

  ghost predicate VocabularyCalls(
    text: Text, metadata: map<string, seq<string>>, rules: map<string, VocabularyRule>, f: Finding)
  {
    exists field :: LeavingField(text, metadata, rules, f)(field)
  }

  /** When a rule reports a finding, said of the values themselves. */
  ghost predicate Reported(
    text: Text, metadata: map<string, seq<string>>, required: seq<string>, rules: map<string, VocabularyRule>,
    f: Finding)
  {
    || HierarchyCalls(text, metadata, f)
    || RequirementCalls(text, metadata, required, f)
    || RepetitionCalls(text, metadata, f)
    || VocabularyCalls(text, metadata, rules, f)
  }

  /** A strictly sorted list is determined by its members. */
  lemma ListsOnce(a: seq<string>, b: seq<string>, wanted: string -> bool)
    requires Lists(a, wanted) && SortedBy(b, TextOrder()) && Distinct(b) && forall x :: x in b <==> wanted(x)
    ensures a == b
  {
    SameMembersPermute(a, b);
    TextTiesAreEqual(a);
    SortedPermutationIsUnique(a, b, TextOrder());
  }

  lemma OrphanMeaning(
    text: Text, metadata: map<string, seq<string>>, code: Code, child: string, parent: string, f: Finding)
    ensures f in Orphan(text, metadata, code, child, parent) <==> Orphaned(text, metadata, code, child, parent, f)
  {
    PresentIff(text, metadata, child);
    PresentIff(text, metadata, parent);
  }

  lemma HierarchyMeaning(text: Text, metadata: map<string, seq<string>>, f: Finding)
    ensures f in HierarchyFindings(text, metadata) <==> HierarchyCalls(text, metadata, f)
  {
    OrphanMeaning(text, metadata, Ling002, BRANCH, FAMILY, f);
    OrphanMeaning(text, metadata, Ling004, GROUP, FAMILY, f);
    OrphanMeaning(text, metadata, Ling005, VARIANT, GROUP, f);
  }

  lemma RequiredMeaning(text: Text, metadata: map<string, seq<string>>, required: seq<string>, f: Finding)
    ensures f in FilterMap(SortedSet(required), RequiredFinding(text, metadata))
       <==> RequirementCalls(text, metadata, required, f)
  {
    SortedSetProperties(required);
    FilterMapHas(SortedSet(required), RequiredFinding(text, metadata), f);
    forall field
      ensures field in required && RequiredFinding(text, metadata)(field) == Some(f)
         <==> Lacks(text, metadata, required, field, f)
    {
      PresentIff(text, metadata, field);
    }
  }

  lemma DuplicateOf(text: Text, metadata: map<string, seq<string>>, field: string, f: Finding)
    ensures DuplicateFinding(text, metadata)(field) == Some(f) <==> RepeatsValues(text, metadata, field, f)
  {
    var values := Repeated(FilterMap(GetValues(metadata, field), Folded(text)));
    RepeatedIff(text, GetValues(metadata, field));
    if RepeatsValues(text, metadata, field, f) {
      ListsOnce(f.evidence.values, values, (x: string) => Shared(text, GetValues(metadata, field), x));
    }
  }

  lemma DuplicateMeaning(text: Text, metadata: map<string, seq<string>>, f: Finding)
    ensures f in FilterMap(CONTROLLED, DuplicateFinding(text, metadata)) <==> RepetitionCalls(text, metadata, f)
  {
    FilterMapHas(CONTROLLED, DuplicateFinding(text, metadata), f);
    forall field
      ensures DuplicateFinding(text, metadata)(field) == Some(f) <==> RepeatsValues(text, metadata, field, f)
    {
      DuplicateOf(text, metadata, field, f);
    }
  }

  lemma UnapprovedOf(
    text: Text, metadata: map<string, seq<string>>, rules: map<string, VocabularyRule>, field: string, f: Finding)
    requires field in rules
    ensures VocabularyFinding(text, metadata, rules)(field) == Some(f)
       <==> LeavesVocabulary(text, metadata, field, rules[field], f)
  {
    var terms, all := rules[field].terms, GetValues(metadata, field);
    UnapprovedIff(text, all, terms);
    if LeavesVocabulary(text, metadata, field, rules[field], f) {
      ListsOnce(
        f.evidence.values, SortedSet(FilterMap(all, Unapproved(text, terms))),
        (x: string) => x != "" && x !in rules[field].terms && Trimmed(text, GetValues(metadata, field), x));
    }
  }

  /** A list gathered key by key has what some key's rule gives. */
  lemma GatheredIff(keys: seq<string>, rule: string -> Option<Finding>, called: string -> bool, f: Finding)
    requires forall key :: key in keys ==> (rule(key) == Some(f) <==> called(key))
    ensures f in FilterMap(keys, rule) <==> exists key :: key in keys && called(key)
  {
    FilterMapHas(keys, rule, f);
  }

  lemma LeavingFieldIff(
    text: Text, metadata: map<string, seq<string>>, rules: map<string, VocabularyRule>, f: Finding, keys: seq<string>)
    requires forall key :: key in keys ==> key in rules
    ensures forall key :: key in keys ==>
              (VocabularyFinding(text, metadata, rules)(key) == Some(f)
              <==> LeavingField(text, metadata, rules, f)(key))
  {
    forall key | key in keys
      ensures VocabularyFinding(text, metadata, rules)(key) == Some(f) <==> LeavingField(text, metadata, rules, f)(key)
    {
      UnapprovedOf(text, metadata, rules, key, f);
    }
  }

  lemma VocabularyMeaning(
    text: Text, metadata: map<string, seq<string>>, rules: map<string, VocabularyRule>, f: Finding)
    ensures f in FilterMap(SortedOf(rules.Keys), VocabularyFinding(text, metadata, rules))
       <==> VocabularyCalls(text, metadata, rules, f)
  {
    var keys, called := SortedOf(rules.Keys), LeavingField(text, metadata, rules, f);
    SortedOfProperties(rules.Keys);
    LeavingFieldIff(text, metadata, rules, f, keys);
    GatheredIff(keys, VocabularyFinding(text, metadata, rules), called, f);
    assert forall field :: called(field) ==> field in keys;
  }

  /** An evaluation reports exactly the findings its rules call for, each with its evidence. */
  lemma EvaluationMeaning(
    text: Text, metadata: map<string, seq<string>>, required: seq<string>, rules: map<string, VocabularyRule>,
    f: Finding)
    ensures f in Evaluate(text, metadata, required, rules) <==> Reported(text, metadata, required, rules, f)
  {
    HierarchyMeaning(text, metadata, f);
    RequiredMeaning(text, metadata, required, f);
    DuplicateMeaning(text, metadata, f);
    VocabularyMeaning(text, metadata, rules, f);
  }

  // Order does not matter

  /** Both list the same values for every field, in whatever order. */
  ghost predicate SameValues(a: map<string, seq<string>>, b: map<string, seq<string>>) {
    forall field :: multiset(GetValues(a, field)) == multiset(GetValues(b, field))
  }

  lemma PresentAlike(text: Text, a: map<string, seq<string>>, b: map<string, seq<string>>, field: string)
    requires SameValues(a, b)
    ensures Present(text, a, field) == Present(text, b, field)
  {
    FilterMapPermutes(GetValues(a, field), GetValues(b, field), Stripped(text));
    MembersOfPermutation(FilterMap(GetValues(a, field), Stripped(text)),
      FilterMap(GetValues(b, field), Stripped(text)));
  }

  lemma RepeatedAlike(xs: seq<string>, ys: seq<string>)
    requires multiset(xs) == multiset(ys)
    ensures Repeated(xs) == Repeated(ys)
  {
    var f := MoreThanOnce(multiset(xs));
    FilterMapPermutes(xs, ys, f);
    MembersOfPermutation(FilterMap(xs, f), FilterMap(ys, f));
    SortedSetOfSameMembers(FilterMap(xs, f), FilterMap(ys, f));
  }

  lemma DuplicatesAlike(text: Text, a: map<string, seq<string>>, b: map<string, seq<string>>, field: string)
    requires SameValues(a, b)
    ensures DuplicateFinding(text, a)(field) == DuplicateFinding(text, b)(field)
  {
    FilterMapPermutes(GetValues(a, field), GetValues(b, field), Folded(text));
    RepeatedAlike(FilterMap(GetValues(a, field), Folded(text)), FilterMap(GetValues(b, field), Folded(text)));
  }

  lemma VocabularyAlike(
    text: Text, a: map<string, seq<string>>, b: map<string, seq<string>>, rules: map<string, VocabularyRule>,
    field: string)
    requires SameValues(a, b)
    ensures VocabularyFinding(text, a, rules)(field) == VocabularyFinding(text, b, rules)(field)
  {
    if field in rules {
      var f := Unapproved(text, rules[field].terms);
      FilterMapPermutes(GetValues(a, field), GetValues(b, field), f);
      MembersOfPermutation(FilterMap(GetValues(a, field), f), FilterMap(GetValues(b, field), f));
      SortedSetOfSameMembers(FilterMap(GetValues(a, field), f), FilterMap(GetValues(b, field), f));
    }
  }

  lemma {:induction false} FilterMapAlike<T, U>(xs: seq<T>, f: T -> Option<U>, g: T -> Option<U>)
    requires forall x :: x in xs ==> f(x) == g(x)
    ensures FilterMap(xs, f) == FilterMap(xs, g)
  {
    if xs != [] {
      FilterMapAlike(xs[..|xs| - 1], f, g);
    }
  }

  lemma HierarchyAlike(text: Text, a: map<string, seq<string>>, b: map<string, seq<string>>)
    requires SameValues(a, b)
    ensures HierarchyFindings(text, a) == HierarchyFindings(text, b)
  {
    PresentAlike(text, a, b, FAMILY);
    PresentAlike(text, a, b, BRANCH);
    PresentAlike(text, a, b, GROUP);
    PresentAlike(text, a, b, VARIANT);
  }

  lemma RequiredAlike(text: Text, a: map<string, seq<string>>, b: map<string, seq<string>>, keys: seq<string>)
    requires SameValues(a, b)
    ensures FilterMap(keys, RequiredFinding(text, a)) == FilterMap(keys, RequiredFinding(text, b))
  {
    forall field ensures RequiredFinding(text, a)(field) == RequiredFinding(text, b)(field) {
      PresentAlike(text, a, b, field);
    }
    FilterMapAlike(keys, RequiredFinding(text, a), RequiredFinding(text, b));
  }

  lemma AllDuplicatesAlike(text: Text, a: map<string, seq<string>>, b: map<string, seq<string>>, keys: seq<string>)
    requires SameValues(a, b)
    ensures FilterMap(keys, DuplicateFinding(text, a)) == FilterMap(keys, DuplicateFinding(text, b))
  {
    forall field ensures DuplicateFinding(text, a)(field) == DuplicateFinding(text, b)(field) {
      DuplicatesAlike(text, a, b, field);
    }
    FilterMapAlike(keys, DuplicateFinding(text, a), DuplicateFinding(text, b));
  }

  lemma AllVocabularyAlike(
    text: Text, a: map<string, seq<string>>, b: map<string, seq<string>>, rules: map<string, VocabularyRule>,
    keys: seq<string>)
    requires SameValues(a, b)
    ensures FilterMap(keys, VocabularyFinding(text, a, rules)) == FilterMap(keys, VocabularyFinding(text, b, rules))
  {
    forall field ensures VocabularyFinding(text, a, rules)(field) == VocabularyFinding(text, b, rules)(field) {
      VocabularyAlike(text, a, b, rules, field);
    }
    FilterMapAlike(keys, VocabularyFinding(text, a, rules), VocabularyFinding(text, b, rules));
  }

  /** The findings depend on which values each field has and how often, not on the order they are listed in. */
  lemma EvaluationIgnoresOrder(
    text: Text, a: map<string, seq<string>>, b: map<string, seq<string>>, required: seq<string>,
    rules: map<string, VocabularyRule>)
    requires SameValues(a, b)
    ensures Evaluate(text, a, required, rules) == Evaluate(text, b, required, rules)
  {
    HierarchyAlike(text, a, b);
    RequiredAlike(text, a, b, SortedSet(required));
    AllDuplicatesAlike(text, a, b, CONTROLLED);
    AllVocabularyAlike(text, a, b, rules, SortedOf(rules.Keys));
  }

  // The order of the findings

  /** Hierarchy first, then required fields, repeated values and vocabularies. */
  function Rank(code: Code): nat {
    match code
    case Ling002 => 0
    case Ling004 => 1
    case Ling005 => 2
    case Meta001 => 3
    case Ling003 => 4
    case Vocab001 => 5
  }

  ghost predicate Precedes(x: Finding, y: Finding) {
    || Rank(x.code) < Rank(y.code)
    || (x.code == y.code && |x.affectedFields| == |y.affectedFields| == 1 && FieldPrecedes(x, y))
  }

  /** Within a rule the fields are in order of their names, or of the controlled fields. */
  ghost predicate FieldPrecedes(x: Finding, y: Finding)
    requires |x.affectedFields| == |y.affectedFields| == 1
  {
    if x.code == Ling003 then
      exists a, b ::
        0 <= a < b < |CONTROLLED| && x.affectedFields[0] == CONTROLLED[a] && y.affectedFields[0] == CONTROLLED[b]
    else TextOrder()(x.affectedFields[0], y.affectedFields[0])
  }

  ghost predicate InOrder(findings: seq<Finding>) {
    forall i, j :: 0 <= i < j < |findings| ==> Precedes(findings[i], findings[j])
  }

  lemma {:induction false} GatheredFrom(keys: seq<string>, rule: string -> Option<Finding>, j: nat) returns (b: nat)
    requires j < |FilterMap(keys, rule)|
    ensures b < |keys| && rule(keys[b]) == Some(FilterMap(keys, rule)[j])
    ensures forall i :: 0 <= i < j ==>
              exists a :: 0 <= a < b && rule(keys[a]) == Some(FilterMap(keys, rule)[i])
  {
    var n := |keys| - 1;
    var front := keys[..n];
    if j < |FilterMap(front, rule)| {
      b := GatheredFrom(front, rule, j);
    } else {
      b := n;
      forall i | 0 <= i < j ensures exists a :: 0 <= a < n && rule(keys[a]) == Some(FilterMap(keys, rule)[i]) {
        var a := GatheredFrom(front, rule, i);
        assert front[a] == keys[a];
      }
    }
  }

  lemma BlockInOrder(keys: seq<string>, rule: string -> Option<Finding>, code: Code)
    requires OnePerKey(keys, rule, code) && code != Ling002 && code != Ling004 && code != Ling005
    requires if code == Ling003 then keys == CONTROLLED else SortedBy(keys, TextOrder())
    ensures InOrder(FilterMap(keys, rule))
  {
    var found := FilterMap(keys, rule);
    forall i, j | 0 <= i < j < |found| ensures Precedes(found[i], found[j]) {
      var b := GatheredFrom(keys, rule, j);
      var a :| 0 <= a < b && rule(keys[a]) == Some(found[i]);
      assert keys[a] in keys && keys[b] in keys;
    }
  }

  lemma BlocksInOrder(a: seq<Finding>, b: seq<Finding>, n: nat)
    requires InOrder(a) && InOrder(b)
    requires forall i :: 0 <= i < |a| ==> Rank(a[i].code) < n
    requires forall i :: 0 <= i < |b| ==> n <= Rank(b[i].code)
    ensures InOrder(a + b)
  {
  }

  lemma ThreeInOrder(a: seq<Finding>, b: seq<Finding>, c: seq<Finding>)
    requires |a| <= 1 && |b| <= 1 && |c| <= 1
    requires CodesIn(a, {Ling002}) && CodesIn(b, {Ling004}) && CodesIn(c, {Ling005})
    ensures InOrder(a + b + c)
  {
    BlocksInOrder(a, b, 1);
    BlocksInOrder(a + b, c, 2);
  }

  lemma HierarchyInOrder(text: Text, metadata: map<string, seq<string>>)
    ensures InOrder(HierarchyFindings(text, metadata))
  {
    OrphanBlock(text, metadata, Ling002, BRANCH, FAMILY);
    OrphanBlock(text, metadata, Ling004, GROUP, FAMILY);
    OrphanBlock(text, metadata, Ling005, VARIANT, GROUP);
    ThreeInOrder(
      Orphan(text, metadata, Ling002, BRANCH, FAMILY),
      Orphan(text, metadata, Ling004, GROUP, FAMILY),
      Orphan(text, metadata, Ling005, VARIANT, GROUP));
  }

  lemma RequiredInOrder(text: Text, metadata: map<string, seq<string>>, required: seq<string>)
    ensures InOrder(FilterMap(SortedSet(required), RequiredFinding(text, metadata)))
  {
    SortedSetProperties(required);
    BlockInOrder(SortedSet(required), RequiredFinding(text, metadata), Meta001);
  }

  lemma DuplicatesInOrder(text: Text, metadata: map<string, seq<string>>)
    ensures InOrder(FilterMap(CONTROLLED, DuplicateFinding(text, metadata)))
  {
    ControlledDistinct();
    BlockInOrder(CONTROLLED, DuplicateFinding(text, metadata), Ling003);
  }

  lemma VocabularyInOrder(text: Text, metadata: map<string, seq<string>>, rules: map<string, VocabularyRule>)
    ensures InOrder(FilterMap(SortedOf(rules.Keys), VocabularyFinding(text, metadata, rules)))
  {
    SortedOfProperties(rules.Keys);
    BlockInOrder(SortedOf(rules.Keys), VocabularyFinding(text, metadata, rules), Vocab001);
  }

  lemma AllInOrder(a: seq<Finding>, b: seq<Finding>, c: seq<Finding>, d: seq<Finding>)
    requires InOrder(a) && CodesIn(a, {Ling002, Ling004, Ling005}) && InOrder(b) && CodesIn(b, {Meta001})
    requires InOrder(c) && CodesIn(c, {Ling003}) && InOrder(d) && CodesIn(d, {Vocab001})
    ensures InOrder(a + b + c + d)
  {
    BlocksInOrder(a, b, 3);
    BlocksInOrder(a + b, c, 4);
    BlocksInOrder(a + b + c, d, 5);
  }

  /** Findings come rule by rule, and within a rule field by field. */
  lemma EvaluationIsOrdered(
    text: Text, metadata: map<string, seq<string>>, required: seq<string>, rules: map<string, VocabularyRule>)
    ensures InOrder(Evaluate(text, metadata, required, rules))
  {
    HierarchyInOrder(text, metadata);
    HierarchyDistinct(text, metadata);
    RequiredInOrder(text, metadata, required);
    RequiredBlock(text, metadata, required);
    DuplicatesInOrder(text, metadata);
    DuplicateBlock(text, metadata);
    VocabularyInOrder(text, metadata, rules);
    VocabularyBlock(text, metadata, rules);
    AllInOrder(
      HierarchyFindings(text, metadata),
      FilterMap(SortedSet(required), RequiredFinding(text, metadata)),
      FilterMap(CONTROLLED, DuplicateFinding(text, metadata)),
      FilterMap(SortedOf(rules.Keys), VocabularyFinding(text, metadata, rules)));
  }

  // Fingerprints

  /** Every finding is about one key, and different keys give different fingerprints. */
  ghost predicate OnePerKey(keys: seq<string>, rule: string -> Option<Finding>, code: Code) {
    && Distinct(keys)
    && forall key ::
       key in keys && rule(key).Some? ==> rule(key).value.code == code && rule(key).value.affectedFields == [key]
  }

  lemma {:induction false} OnePerKeyFindings(keys: seq<string>, rule: string -> Option<Finding>, code: Code)
    requires OnePerKey(keys, rule, code)
    ensures DistinctBy(FilterMap(keys, rule), Fingerprint())
    ensures forall f ::
            f in FilterMap(keys, rule) ==> f.code == code && |f.affectedFields| == 1 && f.affectedFields[0] in keys
  {
    if keys != [] {
      var front, last := keys[..|keys| - 1], keys[|keys| - 1];
      assert keys == front + [last] && last in keys;
      OnePerKeyFindings(front, rule, code);
      var found := FilterMap(front, rule);
      if rule(last).Some? {
        forall i | 0 <= i < |found| ensures Fingerprint()(found[i]) != Fingerprint()(rule(last).value) {
          assert found[i] in found;
        }
      }
    }
  }

  ghost predicate CodesIn(findings: seq<Finding>, codes: set<Code>) {
    forall i :: 0 <= i < |findings| ==> findings[i].code in codes
  }

  lemma OrphanBlock(text: Text, metadata: map<string, seq<string>>, code: Code, child: string, parent: string)
    ensures var block := Orphan(text, metadata, code, child, parent);
            |block| <= 1 && forall i :: 0 <= i < |block| ==> block[i].code == code
  {
  }

  lemma ThreeBlocks(a: seq<Finding>, b: seq<Finding>, c: seq<Finding>, x: Code, y: Code, z: Code)
    requires |a| <= 1 && |b| <= 1 && |c| <= 1 && x != y && y != z && x != z
    requires forall i :: 0 <= i < |a| ==> a[i].code == x
    requires forall i :: 0 <= i < |b| ==> b[i].code == y
    requires forall i :: 0 <= i < |c| ==> c[i].code == z
    ensures DistinctBy(a + b + c, Fingerprint()) && CodesIn(a + b + c, {x, y, z})
  {
  }

  lemma HierarchyDistinct(text: Text, metadata: map<string, seq<string>>)
    ensures DistinctBy(HierarchyFindings(text, metadata), Fingerprint())
    ensures CodesIn(HierarchyFindings(text, metadata), {Ling002, Ling004, Ling005})
  {
    OrphanBlock(text, metadata, Ling002, BRANCH, FAMILY);
    OrphanBlock(text, metadata, Ling004, GROUP, FAMILY);
    OrphanBlock(text, metadata, Ling005, VARIANT, GROUP);
    ThreeBlocks(
      Orphan(text, metadata, Ling002, BRANCH, FAMILY),
      Orphan(text, metadata, Ling004, GROUP, FAMILY),
      Orphan(text, metadata, Ling005, VARIANT, GROUP),
      Ling002, Ling004, Ling005);
  }

  lemma ControlledDistinct()
    ensures Distinct(CONTROLLED)
  {
  }

  lemma BlockDistinct(keys: seq<string>, rule: string -> Option<Finding>, code: Code)
    requires OnePerKey(keys, rule, code)
    ensures DistinctBy(FilterMap(keys, rule), Fingerprint()) && CodesIn(FilterMap(keys, rule), {code})
  {
    OnePerKeyFindings(keys, rule, code);
    forall i | 0 <= i < |FilterMap(keys, rule)| ensures FilterMap(keys, rule)[i].code == code {
      assert FilterMap(keys, rule)[i] in FilterMap(keys, rule);
    }
  }

  lemma RequiredBlock(text: Text, metadata: map<string, seq<string>>, required: seq<string>)
    ensures var block := FilterMap(SortedSet(required), RequiredFinding(text, metadata));
            DistinctBy(block, Fingerprint()) && CodesIn(block, {Meta001})
  {
    SortedSetProperties(required);
    BlockDistinct(SortedSet(required), RequiredFinding(text, metadata), Meta001);
  }

  lemma DuplicateBlock(text: Text, metadata: map<string, seq<string>>)
    ensures var block := FilterMap(CONTROLLED, DuplicateFinding(text, metadata));
            DistinctBy(block, Fingerprint()) && CodesIn(block, {Ling003})
  {
    ControlledDistinct();
    BlockDistinct(CONTROLLED, DuplicateFinding(text, metadata), Ling003);
  }

  lemma VocabularyBlock(text: Text, metadata: map<string, seq<string>>, rules: map<string, VocabularyRule>)
    ensures var block := FilterMap(SortedOf(rules.Keys), VocabularyFinding(text, metadata, rules));
            DistinctBy(block, Fingerprint()) && CodesIn(block, {Vocab001})
  {
    SortedOfProperties(rules.Keys);
    BlockDistinct(SortedOf(rules.Keys), VocabularyFinding(text, metadata, rules), Vocab001);
  }

  lemma FourBlocks(a: seq<Finding>, b: seq<Finding>, c: seq<Finding>, d: seq<Finding>)
    requires DistinctBy(a, Fingerprint()) && CodesIn(a, {Ling002, Ling004, Ling005})
    requires DistinctBy(b, Fingerprint()) && CodesIn(b, {Meta001})
    requires DistinctBy(c, Fingerprint()) && CodesIn(c, {Ling003})
    requires DistinctBy(d, Fingerprint()) && CodesIn(d, {Vocab001})
    ensures DistinctBy(a + b + c + d, Fingerprint())
  {
  }

  /** The findings of one evaluation have pairwise distinct fingerprints. */
  lemma FingerprintsAreDistinct(
    text: Text, metadata: map<string, seq<string>>, required: seq<string>, rules: map<string, VocabularyRule>)
    ensures DistinctBy(Evaluate(text, metadata, required, rules), Fingerprint())
  {
    HierarchyDistinct(text, metadata);
    RequiredBlock(text, metadata, required);
    DuplicateBlock(text, metadata);
    VocabularyBlock(text, metadata, rules);
    FourBlocks(
      HierarchyFindings(text, metadata),
      FilterMap(SortedSet(required), RequiredFinding(text, metadata)),
      FilterMap(CONTROLLED, DuplicateFinding(text, metadata)),
      FilterMap(SortedOf(rules.Keys), VocabularyFinding(text, metadata, rules)));
  }
}
