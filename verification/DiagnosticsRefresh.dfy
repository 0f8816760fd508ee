/** What the operations of the diagnostics cache leave of the item they are about, and of all others. */
module DiagnosticsRefresh {
  import opened JsonValues
  import opened DiagnosticsEngine
  import opened DiagnosticsCache

  /** The row stores this source, and what evaluating it under these rules gives, under their profile. */
  ghost predicate Refreshed(
    text: Text, row: Row, source: Source, revisions: seq<Revision>, required: seq<string>, rules: RuleSet)
  {
    && row.sourceHash == Sha256(source) && row.diagnosticHash == Some(Sha256(source))
    && ListsSource(row.values, source)
    && row.findings == Evaluate(text, source.metadata, required, RulesOf(revisions, rules))
    && row.profile == Some(ProfileVersion(required, RulesOf(revisions, rules)))
  }

  /** Only the row of this item is another one. */
  ghost predicate OnlyItem(before: State, after: State, id: nat) {
    && after.revisions == before.revisions && after.active == before.active
    && after.items.Keys == before.items.Keys + {id}
    && forall other :: other in before.items && other != id ==> after.items[other] == before.items[other]
  }

  /** A row that is explained under this profile has what evaluating its source under it gives. */
  lemma ProfiledIsRefreshed(text: Text, row: Row, revisions: seq<Revision>, required: seq<string>, rules: RuleSet)
    requires RowSound(text, row, revisions) && Known(revisions, rules)
    requires row.profile == Some(ProfileVersion(required, RulesOf(revisions, rules)))
    ensures Refreshed(text, row, row.sourceHash.preimage, revisions, required, rules)
  {
    var required0, rules0 :| Explains(text, row, revisions, required0, rules0);
    ProfileTells(revisions, required0, rules0, required, rules);
    EvaluationIgnoresOrder(
      text, Grouped(row.values), row.sourceHash.preimage.metadata, required, RulesOf(revisions, rules));
    assert row.sourceHash == Sha256(row.sourceHash.preimage);
  }

  /** The state with one row put in place. */
  function Put(state: State, id: nat, row: Row): State {
    state.(items := state.items[id := row])
  }

  lemma PutOnly(state: State, id: nat, row: Row)
    ensures OnlyItem(state, Put(state, id, row), id)
  {
  }

  lemma UpsertPuts(
    text: Text, state: State, id: nat, source: Source, order: seq<string>, required: seq<string>, rules: RuleSet)
    ensures Step(text, state, Upsert(id, source, order, required, rules))
         == Put(
              state, id,
              Upserted(
                text, RowOf(state, id), Sha256(source), ListValues(source.metadata, order), required,
                RulesOf(state.revisions, rules)))
  {
  }

  lemma UpsertedProfile(
    text: Text, existing: Option<Row>, source: Source, values: seq<Value>, required: seq<string>,
    rules: map<string, VocabularyRule>)
    ensures var row := Upserted(text, existing, Sha256(source), values, required, rules);
            row.profile == Some(ProfileVersion(required, rules)) && row.sourceHash == Sha256(source)
  {
  }

  lemma UpsertedIsRefreshed(
    text: Text, state: State, id: nat, source: Source, order: seq<string>, required: seq<string>, rules: RuleSet)
    requires Sound(text, state) && Possible(state, Upsert(id, source, order, required, rules))
    ensures Refreshed(
              text,
              Upserted(
                text, RowOf(state, id), Sha256(source), ListValues(source.metadata, order), required,
                RulesOf(state.revisions, rules)),
              source, state.revisions, required, rules)
  {
    var values := ListValues(source.metadata, order);
    UpsertKeeps(text, state, id, source, order, required, rules);
    UpsertedProfile(text, RowOf(state, id), source, values, required, RulesOf(state.revisions, rules));
    ProfiledIsRefreshed(
      text, Upserted(text, RowOf(state, id), Sha256(source), values, required, RulesOf(state.revisions, rules)),
      state.revisions, required, rules);
  }

  /**
    Leaving an unchanged item alone does not show: an upsert always leaves what storing and evaluating
    the item anew would leave.
   */
  lemma UpsertRefreshes(
    text: Text, state: State, id: nat, source: Source, order: seq<string>, required: seq<string>, rules: RuleSet)
    requires Sound(text, state) && Possible(state, Upsert(id, source, order, required, rules))
    ensures var after := Step(text, state, Upsert(id, source, order, required, rules));
            && OnlyItem(state, after, id)
            && Refreshed(text, after.items[id], source, state.revisions, required, rules)
  {
    var row := Upserted(
      text, RowOf(state, id), Sha256(source), ListValues(source.metadata, order), required,
      RulesOf(state.revisions, rules));
    UpsertPuts(text, state, id, source, order, required, rules);
    PutOnly(state, id, row);
    UpsertedIsRefreshed(text, state, id, source, order, required, rules);
  }

  /** With the active rules, an item just upserted is reported current. */
  lemma UpsertedIsCurrent(
    text: Text, state: State, id: nat, source: Source, order: seq<string>, required: seq<string>)
    requires Sound(text, state) && Possible(state, Upsert(id, source, order, required, state.active))
    ensures var after := Step(text, state, Upsert(id, source, order, required, state.active));
            id in after.items && Current(after, after.items[id], required)
  {
    UpsertRefreshes(text, state, id, source, order, required, state.active);
  }

  lemma RebuildPuts(text: Text, state: State, id: nat, arrangement: seq<Value>, required: seq<string>, rules: RuleSet)
    requires id in state.items
    ensures Step(text, state, Rebuild(id, arrangement, required, rules))
         == Put(
              state, id,
              Diagnosed(
                text, state.items[id], state.items[id].sourceHash, arrangement, required,
                RulesOf(state.revisions, rules)))
  {
  }

  lemma DiagnosedKeeps(
    text: Text, row: Row, values: seq<Value>, required: seq<string>, rules: map<string, VocabularyRule>)
    ensures var after := Diagnosed(text, row, row.sourceHash, values, required, rules);
            && after.values == row.values && after.sourceHash == row.sourceHash
            && after.profile == Some(ProfileVersion(required, rules))
  {
  }

  lemma RebuiltIsRefreshed(
    text: Text, state: State, id: nat, arrangement: seq<Value>, required: seq<string>, rules: RuleSet)
    requires Sound(text, state) && Possible(state, Rebuild(id, arrangement, required, rules)) && id in state.items
    ensures var row := state.items[id];
            var after := Diagnosed(text, row, row.sourceHash, arrangement, required, RulesOf(state.revisions, rules));
            && after.values == row.values
            && Refreshed(text, after, row.sourceHash.preimage, state.revisions, required, rules)
  {
    var row := state.items[id];
    RebuildKeeps(text, state, id, arrangement, required, rules);
    DiagnosedKeeps(text, row, arrangement, required, RulesOf(state.revisions, rules));
    ProfiledIsRefreshed(
      text, Diagnosed(text, row, row.sourceHash, arrangement, required, RulesOf(state.revisions, rules)),
      state.revisions, required, rules);
  }

  /** A rebuild leaves the stored source and values of its item, and what evaluating them gives. */
  lemma RebuildRefreshes(
    text: Text, state: State, id: nat, arrangement: seq<Value>, required: seq<string>, rules: RuleSet)
    requires Sound(text, state) && Possible(state, Rebuild(id, arrangement, required, rules)) && id in state.items
    ensures var after, row := Step(text, state, Rebuild(id, arrangement, required, rules)), state.items[id];
            && OnlyItem(state, after, id)
            && after.items[id].values == row.values
            && Refreshed(text, after.items[id], row.sourceHash.preimage, state.revisions, required, rules)
  {
    var row := state.items[id];
    RebuildPuts(text, state, id, arrangement, required, rules);
    PutOnly(state, id, Diagnosed(text, row, row.sourceHash, arrangement, required, RulesOf(state.revisions, rules)));
    RebuiltIsRefreshed(text, state, id, arrangement, required, rules);
  }

  /**
    A replaced vocabulary is a new revision and the active one of its field; nothing that was stored
    changes, and no item is reported current until it is evaluated again.
   */
  lemma ReplacementOutdates(text: Text, state: State, field: string, terms: set<string>, required: seq<string>)
    requires Sound(text, state)
    ensures var after := Step(text, state, ReplaceVocabulary(field, terms));
            && after.items == state.items
            && after.revisions == state.revisions + [Revision(field, terms)]
            && after.active.Keys == state.active.Keys + {field}
            && (forall other :: other in state.active && other != field ==> after.active[other] == state.active[other])
            && RulesOf(after.revisions, after.active)[field].terms == terms
            && forall id :: id in state.items ==> !Current(after, state.items[id], required)
  {
    var after := Step(text, state, ReplaceVocabulary(field, terms));
    ReplacementKeeps(text, state, field, terms);
    forall id | id in state.items ensures !Current(after, state.items[id], required) {
      OlderRulesDiffer(text, state, state.items[id], Revision(field, terms), after.active, required);
    }
  }

  /** A row explained by older revisions does not carry the profile of rules that have a newer one. */
  lemma OlderRulesDiffer(
    text: Text, state: State, row: Row, revision: Revision, rules: RuleSet, required: seq<string>)
    requires RowSound(text, row, state.revisions) && Known(state.revisions + [revision], rules)
    requires revision.field in rules && rules[revision.field] == |state.revisions|
    ensures row.profile != Some(ProfileVersion(required, RulesOf(state.revisions + [revision], rules)))
  {
    var required0, rules0 :| Explains(text, row, state.revisions, required0, rules0);
    RulesStay(state.revisions, revision, rules0);
    if ProfileVersion(required0, RulesOf(state.revisions + [revision], rules0))
       == ProfileVersion(required, RulesOf(state.revisions + [revision], rules))
    {
      ProfileTells(state.revisions + [revision], required0, rules0, required, rules);
    }
  }
}
