/** Stored findings against fresh evaluation: what an item reported "current" vouches for. */
module DiagnosticsCache {
  import opened JsonValues
  import opened Ordering
  import opened DiagnosticsEngine

  /** An item as DSpace serves it; its hash is taken with sorted keys, so the order of the fields is not hashed. */
  datatype Source = Source(metadata: map<string, seq<string>>, rest: Json)

  /** The field values in the order the item lists its fields. */
  function ListValues(metadata: map<string, seq<string>>, order: seq<string>): seq<Value> {
    if order == [] then []
    else
      var field := order[|order| - 1];
      var texts := GetValues(metadata, field);
      ListValues(metadata, order[..|order| - 1]) + seq(|texts|, i requires 0 <= i < |texts| => Value(field, texts[i]))
  }

  datatype ProfileKey = ProfileKey(required: seq<string>, revisions: set<(string, nat)>)

  /** `diagnostic_profile_version`, its hash taken whole. */
  function ProfileVersion(required: seq<string>, rules: map<string, VocabularyRule>): Digest<ProfileKey> {
    Sha256(ProfileKey(SortedSet(required), set field | field in rules :: (rules[field].field, rules[field].revision)))
  }

  datatype Row = Row(
    sourceHash: Digest<Source>,
    values: seq<Value>,
    findings: seq<Finding>,
    diagnosticHash: Option<Digest<Source>>,
    profile: Option<Digest<ProfileKey>>)

  /** A vocabulary revision is never changed once it is stored. */
  datatype Revision = Revision(field: string, terms: set<string>)

  /** Which revision holds for which field, at some time. */
  type RuleSet = map<string, nat>

  datatype State = State(items: map<nat, Row>, revisions: seq<Revision>, active: RuleSet)

  predicate Known(revisions: seq<Revision>, rules: RuleSet) {
    forall field :: field in rules ==> rules[field] < |revisions| && revisions[rules[field]].field == field
  }

  /** `load_active_vocabulary_rules`, for the rule set that held when it was called. */
  function RulesOf(revisions: seq<Revision>, rules: RuleSet): map<string, VocabularyRule> {
    map field | field in rules && rules[field] < |revisions| ::
      VocabularyRule(field, rules[field], revisions[rules[field]].terms)
  }

  /** `replace_item_findings`. */
  ghost function Diagnosed(
    text: Text, row: Row, hash: Digest<Source>, values: seq<Value>, required: seq<string>,
    rules: map<string, VocabularyRule>): Row
  {
    row.(findings := Evaluate(text, Grouped(values), required, rules),
         diagnosticHash := Some(hash),
         profile := Some(ProfileVersion(required, rules)))
  }

  /** `upsert_item`: an unchanged item is evaluated again only if its profile is another one. */
  ghost function Upserted(
    text: Text, existing: Option<Row>, hash: Digest<Source>, values: seq<Value>, required: seq<string>,
    rules: map<string, VocabularyRule>): Row
  {
    match existing
    case None => Diagnosed(text, Row(hash, values, [], None, None), hash, values, required, rules)
    case Some(row) =>
      if row.sourceHash != hash then
        Diagnosed(text, row.(sourceHash := hash, values := values), hash, values, required, rules)
      else if row.profile != Some(ProfileVersion(required, rules)) then
        Diagnosed(text, row, hash, values, required, rules)
      else row
  }

  datatype Operation =
    | Upsert(id: nat, source: Source, order: seq<string>, required: seq<string>, rules: RuleSet)
    | Rebuild(id: nat, arrangement: seq<Value>, required: seq<string>, rules: RuleSet)
    | ReplaceVocabulary(field: string, terms: set<string>)

  /** Rule sets are ones that were loaded at some time; listings and arrangements leave nothing out. */
  ghost predicate Possible(state: State, op: Operation) {
    match op
    case Upsert(_, source, order, _, rules) =>
      Known(state.revisions, rules) && Distinct(order) && forall field :: field in order <==> field in source.metadata
    case Rebuild(id, arrangement, _, rules) =>
      Known(state.revisions, rules) && (id in state.items ==> multiset(arrangement) == multiset(state.items[id].values))
    case ReplaceVocabulary(_, _) => true
  }

  function RowOf(state: State, id: nat): Option<Row> {
    if id in state.items then Some(state.items[id]) else None
  }

  ghost function Step(text: Text, state: State, op: Operation): State {
    match op
    case Upsert(id, source, order, required, rules) =>
      var row := Upserted(
        text, RowOf(state, id), Sha256(source), ListValues(source.metadata, order), required,
        RulesOf(state.revisions, rules));
      state.(items := state.items[id := row])
    case Rebuild(id, arrangement, required, rules) =>
      if id !in state.items then state
      else
        var row := state.items[id];
        state.(items := state.items[id :=
          Diagnosed(text, row, row.sourceHash, arrangement, required, RulesOf(state.revisions, rules))])
    case ReplaceVocabulary(field, terms) =>
      state.(revisions := state.revisions + [Revision(field, terms)],
        active := state.active[field := |state.revisions|])
  }

  /** What the item view reports as "current". */
  predicate Current(state: State, row: Row, required: seq<string>) {
    row.diagnosticHash == Some(row.sourceHash)
    && row.profile == Some(ProfileVersion(required, RulesOf(state.revisions, state.active)))
  }

  // What is stored

  ghost predicate ListsSource(values: seq<Value>, source: Source) {
    SameValues(Grouped(values), source.metadata)
  }

  /** The row's findings are those of its stored values under this required list and rule set. */
  ghost predicate Explains(text: Text, row: Row, revisions: seq<Revision>, required: seq<string>, rules: RuleSet) {
    && Known(revisions, rules)
    && row.profile == Some(ProfileVersion(required, RulesOf(revisions, rules)))
    && row.findings == Evaluate(text, Grouped(row.values), required, RulesOf(revisions, rules))
  }

  ghost predicate RowSound(text: Text, row: Row, revisions: seq<Revision>) {
    && ListsSource(row.values, row.sourceHash.preimage)
    && row.diagnosticHash == Some(row.sourceHash)
    && exists required, rules :: Explains(text, row, revisions, required, rules)
  }

  ghost predicate Sound(text: Text, state: State) {
    && Known(state.revisions, state.active)
    && forall id :: id in state.items ==> RowSound(text, state.items[id], state.revisions)
  }

  lemma {:induction false} ListedValues(metadata: map<string, seq<string>>, order: seq<string>, field: string)
    requires Distinct(order)
    ensures ValuesOf(ListValues(metadata, order), field) == if field in order then GetValues(metadata, field) else []
  {
    if order != [] {
      var front, last := order[..|order| - 1], order[|order| - 1];
      assert order == front + [last];
      assert Distinct(front) && last !in front;
      ListedValues(metadata, front, field);
      var texts := GetValues(metadata, last);
      var block := seq(|texts|, i requires 0 <= i < |texts| => Value(last, texts[i]));
      FilterMapConcat(ListValues(metadata, front), block, TextOf(field));
      BlockValues(last, texts, field);
    }
  }

  lemma {:induction false} BlockValues(owner: string, texts: seq<string>, field: string)
    ensures var block := seq(|texts|, i requires 0 <= i < |texts| => Value(owner, texts[i]));
            ValuesOf(block, field) == if field == owner then texts else []
  {
    if texts != [] {
      var front := texts[..|texts| - 1];
      BlockValues(owner, front, field);
      var block := seq(|texts|, i requires 0 <= i < |texts| => Value(owner, texts[i]));
      assert block[..|texts| - 1] == seq(|front|, i requires 0 <= i < |front| => Value(owner, front[i]));
    }
  }

  /** However an item lists its fields, it lists its source. */
  lemma ListingListsSource(source: Source, order: seq<string>)
    requires Distinct(order) && forall field :: field in order <==> field in source.metadata
    ensures ListsSource(ListValues(source.metadata, order), source)
  {
    var values := ListValues(source.metadata, order);
    forall field ensures GetValues(Grouped(values), field) == GetValues(source.metadata, field) {
      GroupedValues(values, field);
      ListedValues(source.metadata, order, field);
    }
  }

  lemma ArrangementAlike(a: seq<Value>, b: seq<Value>)
    requires multiset(a) == multiset(b)
    ensures SameValues(Grouped(a), Grouped(b))
  {
    forall field ensures multiset(GetValues(Grouped(a), field)) == multiset(GetValues(Grouped(b), field)) {
      GroupedValues(a, field);
      GroupedValues(b, field);
      FilterMapPermutes(a, b, TextOf(field));
    }
  }

  /** Evaluating any listing of the same values explains the row. */
  lemma DiagnosedExplains(
    text: Text, row: Row, values: seq<Value>, required: seq<string>, revisions: seq<Revision>, rules: RuleSet)
    requires Known(revisions, rules) && SameValues(Grouped(values), Grouped(row.values))
    requires ListsSource(row.values, row.sourceHash.preimage)
    ensures RowSound(text, Diagnosed(text, row, row.sourceHash, values, required, RulesOf(revisions, rules)), revisions)
  {
    EvaluationIgnoresOrder(text, Grouped(values), Grouped(row.values), required, RulesOf(revisions, rules));
    assert Explains(text, Diagnosed(text, row, row.sourceHash, values, required, RulesOf(revisions, rules)), revisions,
      required, rules);
  }

  lemma UpsertKeeps(
    text: Text, state: State, id: nat, source: Source, order: seq<string>, required: seq<string>, rules: RuleSet)
    requires Sound(text, state) && Possible(state, Upsert(id, source, order, required, rules))
    ensures var values := ListValues(source.metadata, order);
            RowSound(text,
              Upserted(text, RowOf(state, id), Sha256(source), values, required, RulesOf(state.revisions, rules)),
                state.revisions)
  {
    var values := ListValues(source.metadata, order);
    ListingListsSource(source, order);
    match RowOf(state, id)
    case None =>
      DiagnosedExplains(text, Row(Sha256(source), values, [], None, None), values, required, state.revisions, rules);
    case Some(row) =>
      if row.sourceHash != Sha256(source) {
        DiagnosedExplains(text, row.(sourceHash := Sha256(source), values := values), values, required, state.revisions,
          rules);
      } else if row.profile != Some(ProfileVersion(required, RulesOf(state.revisions, rules))) {
        assert SameValues(Grouped(values), Grouped(row.values));
        DiagnosedExplains(text, row, values, required, state.revisions, rules);
      }
  }

  lemma RulesStay(revisions: seq<Revision>, revision: Revision, rules: RuleSet)
    requires Known(revisions, rules)
    ensures Known(revisions + [revision], rules) && RulesOf(revisions + [revision], rules) == RulesOf(revisions, rules)
  {
  }

  lemma RevisionAdded(text: Text, row: Row, revisions: seq<Revision>, revision: Revision)
    requires RowSound(text, row, revisions)
    ensures RowSound(text, row, revisions + [revision])
  {
    var required, rules :| Explains(text, row, revisions, required, rules);
    RulesStay(revisions, revision, rules);
    assert Explains(text, row, revisions + [revision], required, rules);
  }

  lemma RebuildKeeps(text: Text, state: State, id: nat, arrangement: seq<Value>, required: seq<string>, rules: RuleSet)
    requires Sound(text, state) && Possible(state, Rebuild(id, arrangement, required, rules)) && id in state.items
    ensures var row := state.items[id];
            RowSound(text, Diagnosed(text, row, row.sourceHash, arrangement, required, RulesOf(state.revisions, rules)),
              state.revisions)
  {
    ArrangementAlike(arrangement, state.items[id].values);
    DiagnosedExplains(text, state.items[id], arrangement, required, state.revisions, rules);
  }

  lemma ReplacementKeeps(text: Text, state: State, field: string, terms: set<string>)
    requires Sound(text, state)
    ensures Sound(text, Step(text, state, ReplaceVocabulary(field, terms)))
  {
    forall id | id in state.items ensures RowSound(text, state.items[id], state.revisions + [Revision(field, terms)]) {
      RevisionAdded(text, state.items[id], state.revisions, Revision(field, terms));
    }
    assert Known(state.revisions + [Revision(field, terms)], state.active[field := |state.revisions|]);
  }

  lemma RowStored(text: Text, state: State, id: nat, row: Row)
    requires Sound(text, state) && RowSound(text, row, state.revisions)
    ensures Sound(text, state.(items := state.items[id := row]))
  {
  }

  /** Every operation, with whatever rule set it was started with, leaves the stored findings explained. */
  lemma StepKeeps(text: Text, state: State, op: Operation)
    requires Sound(text, state) && Possible(state, op)
    ensures Sound(text, Step(text, state, op))
  {
    match op
    case Upsert(id, source, order, required, rules) =>
      var values := ListValues(source.metadata, order);
      UpsertKeeps(text, state, id, source, order, required, rules);
      RowStored(text, state, id,
        Upserted(text, RowOf(state, id), Sha256(source), values, required, RulesOf(state.revisions, rules)));
    case Rebuild(id, arrangement, required, rules) =>
      if id in state.items {
        var row := state.items[id];
        RebuildKeeps(text, state, id, arrangement, required, rules);
        RowStored(text, state, id,
          Diagnosed(text, row, row.sourceHash, arrangement, required, RulesOf(state.revisions, rules)));
      }
    case ReplaceVocabulary(field, terms) => ReplacementKeeps(text, state, field, terms);
  }

  /** The profile tells the required fields and the rules it was taken of. */
  lemma ProfileTells(revisions: seq<Revision>, r1: seq<string>, a: RuleSet, r2: seq<string>, b: RuleSet)
    requires Known(revisions, a) && Known(revisions, b)
    requires ProfileVersion(r1, RulesOf(revisions, a)) == ProfileVersion(r2, RulesOf(revisions, b))
    ensures SortedSet(r1) == SortedSet(r2) && a == b
  {
    var x, y := RulesOf(revisions, a), RulesOf(revisions, b);
    var p := set field | field in x :: (x[field].field, x[field].revision);
    var q := set field | field in y :: (y[field].field, y[field].revision);
    assert p == q;
    forall field | field in a ensures field in b && b[field] == a[field] {
      assert (x[field].field, x[field].revision) in p;
      assert (field, a[field]) in q;
    }
    forall field | field in b ensures field in a {
      assert (y[field].field, y[field].revision) in q;
      assert (field, b[field]) in p;
    }
  }

  /**
    In every reachable state, an item reported current has stored exactly the findings that evaluating its
    stored metadata now, under the active rules, would give.
   */
  lemma CurrentIsFresh(text: Text, state: State, id: nat, required: seq<string>)
    requires Sound(text, state) && id in state.items && Current(state, state.items[id], required)
    ensures state.items[id].findings
         == Evaluate(text, Grouped(state.items[id].values), required, RulesOf(state.revisions, state.active))
  {
    var row := state.items[id];
    var required0, rules :| Explains(text, row, state.revisions, required0, rules);
    ProfileTells(state.revisions, required0, rules, required, state.active);
  }

  /** The histories that can happen, from an empty store. */
  ghost predicate History(text: Text, states: seq<State>, ops: seq<Operation>) {
    && |states| == |ops| + 1
    && states[0] == State(map[], [], map[])
    && forall i :: 0 <= i < |ops| ==> Possible(states[i], ops[i]) && states[i + 1] == Step(text, states[i], ops[i])
  }

  lemma {:induction false} HistoryIsSound(text: Text, states: seq<State>, ops: seq<Operation>, n: nat)
    requires History(text, states, ops) && n < |states|
    ensures Sound(text, states[n])
  {
    if n > 0 {
      HistoryIsSound(text, states, ops, n - 1);
      StepKeeps(text, states[n - 1], ops[n - 1]);
      assert states[n - 1 + 1] == Step(text, states[n - 1], ops[n - 1]);
    }
  }

  /** Some finding was not there before, by fingerprint. */
  ghost predicate BringsNew(before: seq<Finding>, after: seq<Finding>) {
    exists f :: f in after && forall g :: g in before ==> Fingerprint()(g) != Fingerprint()(f)
  }

  function Fingerprints(findings: seq<Finding>): set<Digest<(Code, seq<string>, Evidence)>> {
    set f | f in findings :: Fingerprint()(f)
  }

  /**
    There is something new exactly when the fingerprints are not all old ones; the same findings again bring
    nothing.
   */
  lemma NewIff(before: seq<Finding>, after: seq<Finding>)
    ensures BringsNew(before, after) <==> !(Fingerprints(after) <= Fingerprints(before))
    ensures multiset(before) == multiset(after) ==> !BringsNew(before, after)
  {
    if BringsNew(before, after) {
      var f :| f in after && forall g :: g in before ==> Fingerprint()(g) != Fingerprint()(f);
      assert Fingerprint()(f) in Fingerprints(after) && Fingerprint()(f) !in Fingerprints(before);
    }
    if !(Fingerprints(after) <= Fingerprints(before)) {
      var x :| x in Fingerprints(after) && x !in Fingerprints(before);
      var f :| f in after && Fingerprint()(f) == x;
      assert forall g :: g in before ==> Fingerprint()(g) in Fingerprints(before);
    }
    if multiset(before) == multiset(after) {
      MembersOfPermutation(before, after);
    }
  }

  method ReplaceItemFindings(
    text: Text, row: Row, hash: Digest<Source>, values: seq<Value>, required: seq<string>,
    rules: map<string, VocabularyRule>)
    returns (after: Row, hasNewFindings: bool)
    ensures after == Diagnosed(text, row, hash, values, required, rules)
    ensures hasNewFindings <==> BringsNew(row.findings, after.findings)
  {
    var metadata := GroupMetadataValues(values);
    var findings := EvaluateMetadata(text, metadata, required, rules);
    var known := set f | f in row.findings :: Fingerprint()(f);
    hasNewFindings := exists f :: f in findings && Fingerprint()(f) !in known;
    after := row.(findings := findings, diagnosticHash := Some(hash), profile := Some(ProfileVersion(required, rules)));
  }

  function FindingsBefore(existing: Option<Row>): seq<Finding> {
    match existing
    case None => []
    case Some(row) => row.findings
  }

  method UpsertRow(
    text: Text, existing: Option<Row>, hash: Digest<Source>, values: seq<Value>, required: seq<string>,
    rules: map<string, VocabularyRule>)
    returns (row: Row, changed: bool, hasNewFindings: bool)
    ensures row == Upserted(text, existing, hash, values, required, rules)
    ensures changed <==> existing.None? || existing.value.sourceHash != hash
    ensures hasNewFindings <==> BringsNew(FindingsBefore(existing), row.findings)
  {
    changed := existing.None? || existing.value.sourceHash != hash;
    hasNewFindings := false;
    if !changed {
      row := existing.value;
      NewIff(row.findings, row.findings);
      if row.profile != Some(ProfileVersion(required, rules)) {
        row, hasNewFindings := ReplaceItemFindings(text, row, hash, values, required, rules);
      }
      return;
    }
    row := if existing.Some? then existing.value.(sourceHash := hash, values := values)
      else Row(hash, values, [], None, None);
    row, hasNewFindings := ReplaceItemFindings(text, row, hash, values, required, rules);
  }

  /** The tables, updated in place. */
  class DiagnosticsStore {
    var items: map<nat, Row>
    var revisions: seq<Revision>
    var active: RuleSet
    const text: Text

    function Tables(): State
      reads this
    {
      State(items, revisions, active)
    }

    constructor (text: Text)
      ensures Tables() == State(map[], [], map[]) && this.text == text
    {
      this.text := text;
      items, revisions, active := map[], [], map[];
    }

    method UpsertItem(id: nat, source: Source, order: seq<string>, required: seq<string>, rules: RuleSet)
      returns (changed: bool, hasNewFindings: bool)
      modifies this
      ensures Tables() == Step(text, old(Tables()), Upsert(id, source, order, required, rules))
      ensures changed <==> id !in old(items) || old(items)[id].sourceHash != Sha256(source)
      ensures hasNewFindings <==>
              BringsNew(FindingsBefore(RowOf(old(Tables()), id)), FindingsBefore(RowOf(Tables(), id)))
    {
      var existing := RowOf(Tables(), id);
      var row;
      row, changed, hasNewFindings :=
        UpsertRow(text, existing, Sha256(source), ListValues(source.metadata, order), required,
          RulesOf(revisions, rules));
      items := items[id := row];
    }

    method RebuildItem(id: nat, arrangement: seq<Value>, required: seq<string>, rules: RuleSet)
      modifies this
      ensures Tables() == Step(text, old(Tables()), Rebuild(id, arrangement, required, rules))
    {
      if id in items {
        var row, _ :=
          ReplaceItemFindings(text, items[id], items[id].sourceHash, arrangement, required, RulesOf(revisions, rules));
        items := items[id := row];
      }
    }

    method ReplaceActiveVocabulary(field: string, terms: set<string>)
      modifies this
      ensures Tables() == Step(text, old(Tables()), ReplaceVocabulary(field, terms))
    {
      active := active[field := |revisions|];
      revisions := revisions + [Revision(field, terms)];
    }
  }
}
