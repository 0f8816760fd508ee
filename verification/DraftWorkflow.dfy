/** Drafts, their revisions, decisions on them, and the suggestions and evidence that feed them. */
module DraftWorkflow {
  import opened JsonValues
  import opened Ordering
  import opened DraftPatches

  type Hash = string

  /** A client's own request identifier, or the one derived for a suggestion decision's revision. */
  datatype RequestId = Direct(id: nat) | ForSuggestion(id: nat)

  datatype Validation = Valid | Invalid | NotConfigured

  datatype Item = Item(hash: Hash, active: bool, metadata: Patch)

  datatype Revision = Revision(request: RequestId, version: nat, patch: Patch, validation: Validation)

  datatype Draft = Draft(item: nat, baseHash: Hash, baseMetadata: Patch, revisions: seq<Revision>)

  datatype Verdict = Approved | Rejected

  datatype DecisionRequest = DecisionRequest(
    item: nat, draftId: nat, version: nat, verdict: Verdict, reviewer: string, note: string, validationOverride: bool)

  datatype Decision = Decision(
    request: nat, fingerprint: Digest<DecisionRequest>, draftId: nat, version: nat, item: nat, sourceHash: Hash,
    validation: Validation)

  datatype SuggestionKind = Accepted | Corrected | Dismissed

  datatype Suggestion = Suggestion(item: nat, field: string, proposed: string, sourceHash: Hash)

  datatype SuggestionDecision = SuggestionDecision(request: nat, suggestionId: nat, kind: SuggestionKind,
    revision: Option<(nat, nat)>)

  /** Rows are named by their place; items are never deleted. */
  datatype State = State(
    items: map<nat, Item>,
    drafts: seq<Draft>,
    decisions: seq<Decision>,
    suggestions: seq<Suggestion>,
    suggestionDecisions: seq<SuggestionDecision>)

  datatype Reason = Conflict | Stale | Unsupported | Patch(error: PatchError)

  datatype Answer = Done(id: nat) | Missing | Refused(reason: Reason)

  datatype Result = Result(state: State, answer: Answer)

  // Lookups

  predicate HasRequest(draft: Draft, request: RequestId) {
    exists k :: 0 <= k < |draft.revisions| && draft.revisions[k].request == request
  }

  function FindRequest(drafts: seq<Draft>, request: RequestId): Option<nat> {
    if drafts == [] then None
    else if HasRequest(drafts[|drafts| - 1], request) then Some(|drafts| - 1)
    else FindRequest(drafts[..|drafts| - 1], request)
  }

  function FindDraft(drafts: seq<Draft>, item: nat): Option<nat> {
    if drafts == [] then None
    else if drafts[|drafts| - 1].item == item then Some(|drafts| - 1)
    else FindDraft(drafts[..|drafts| - 1], item)
  }

  lemma {:induction false} FindRequestMeaning(drafts: seq<Draft>, request: RequestId)
    ensures match FindRequest(drafts, request)
            case None => forall d :: 0 <= d < |drafts| ==> !HasRequest(drafts[d], request)
            case Some(d) => d < |drafts| && HasRequest(drafts[d], request)
  {
    if drafts != [] {
      FindRequestMeaning(drafts[..|drafts| - 1], request);
    }
  }

  lemma {:induction false} FindDraftMeaning(drafts: seq<Draft>, item: nat)
    ensures match FindDraft(drafts, item)
            case None => forall d :: 0 <= d < |drafts| ==> drafts[d].item != item
            case Some(d) => d < |drafts| && drafts[d].item == item
  {
    if drafts != [] {
      FindDraftMeaning(drafts[..|drafts| - 1], item);
    }
  }

  function LatestVersion(draft: Draft): nat {
    if draft.revisions == [] then 0 else draft.revisions[|draft.revisions| - 1].version
  }

  function LatestPatch(draft: Draft): Patch {
    if draft.revisions == [] then map[] else draft.revisions[|draft.revisions| - 1].patch
  }

  // Drafts

  /** `create_draft`. */
  function OpenDraft(
    s: State, item: nat, request: RequestId, changes: Patch, validation: Validation, profile: Profile): Result
  {
    match FindRequest(s.drafts, request)
    case Some(d) => Result(s, if d < |s.drafts| && s.drafts[d].item == item then Done(d) else Refused(Conflict))
    case None =>
      if item !in s.items || !s.items[item].active then Result(s, Missing)
      else if FindDraft(s.drafts, item).Some? then Result(s, Refused(Conflict))
      else
        match NormalizePatch(changes, profile)
        case Err(error) => Result(s, Refused(Patch(error)))
        case Ok(patch) =>
          var base := map field | field in profile.fields ::
            if field in s.items[item].metadata then s.items[item].metadata[field] else [];
          var draft := Draft(item, s.items[item].hash, base, [Revision(request, 1, patch, validation)]);
          Result(s.(drafts := s.drafts + [draft]), Done(|s.drafts|))
  }

  predicate Fresh(s: State, draft: Draft) {
    draft.item in s.items && s.items[draft.item].hash == draft.baseHash
  }

  /** `append_draft_revision`. */
  function AppendRevision(
    s: State, item: nat, draftId: nat, request: RequestId, expectedVersion: nat, changes: Patch, validation: Validation,
    profile: Profile): Result
  {
    match FindRequest(s.drafts, request)
    case Some(d) =>
      Result(s, if d < |s.drafts| && s.drafts[d].item == item && d == draftId then Done(d) else Refused(Conflict))
    case None =>
      if draftId >= |s.drafts| || s.drafts[draftId].item != item then Result(s, Missing)
      else
        var draft := s.drafts[draftId];
        if !Fresh(s, draft) then Result(s, Refused(Stale))
        else if LatestVersion(draft) != expectedVersion then Result(s, Refused(Conflict))
        else
          match NormalizePatch(changes, profile)
          case Err(error) => Result(s, Refused(Patch(error)))
          case Ok(patch) =>
            var revision := Revision(request, LatestVersion(draft) + 1, patch, validation);
            Result(s.(drafts := s.drafts[draftId := draft.(revisions := draft.revisions + [revision])]), Done(draftId))
  }

  // Decisions

  function FindDecision(decisions: seq<Decision>, request: nat): Option<nat> {
    if decisions == [] then None
    else if decisions[|decisions| - 1].request == request then Some(|decisions| - 1)
    else FindDecision(decisions[..|decisions| - 1], request)
  }

  /** `decide_draft_revision`. */
  function DecideRevision(s: State, request: nat, d: DecisionRequest): Result {
    match FindDecision(s.decisions, request)
    case Some(i) =>
      Result(s, if i < |s.decisions| && s.decisions[i].fingerprint == Sha256(d) then Done(i) else Refused(Conflict))
    case None =>
      if d.draftId >= |s.drafts| || s.drafts[d.draftId].item != d.item || s.drafts[d.draftId].revisions == [] then
        Result(s, Missing)
      else
        var draft := s.drafts[d.draftId];
        var latest := draft.revisions[|draft.revisions| - 1];
        if !Fresh(s, draft) then Result(s, Refused(Conflict))
        else if latest.version != d.version then Result(s, Refused(Conflict))
        else if d.verdict == Approved && latest.validation == Invalid && !d.validationOverride then
          Result(s, Refused(Unsupported))
        else if d.validationOverride && d.verdict != Approved then Result(s, Refused(Unsupported))
        else
          var decision :=
            Decision(request, Sha256(d), d.draftId, d.version, d.item, s.items[draft.item].hash, latest.validation);
          Result(s.(decisions := s.decisions + [decision]), Done(|s.decisions|))
  }

  // Suggestions

  function FindSuggestionDecision(decisions: seq<SuggestionDecision>, request: nat): Option<nat> {
    if decisions == [] then None
    else if decisions[|decisions| - 1].request == request then Some(|decisions| - 1)
    else FindSuggestionDecision(decisions[..|decisions| - 1], request)
  }

  /** The draft step of an accepted or corrected suggestion. */
  function DraftFromSuggestion(
    s: State, suggestion: Suggestion, value: string, request: nat, validation: Validation, profile: Profile): Result
  {
    match FindDraft(s.drafts, suggestion.item)
    case None =>
      OpenDraft(s, suggestion.item, ForSuggestion(request), map[suggestion.field := [value]], validation, profile)
    case Some(d) =>
      if d >= |s.drafts| || s.drafts[d].revisions == [] then Result(s, Missing)
      else
        var latest := s.drafts[d].revisions[|s.drafts[d].revisions| - 1];
        AppendRevision(
          s, suggestion.item, d, ForSuggestion(request), latest.version, latest.patch[suggestion.field := [value]],
            validation, profile)
  }

  /** The value a reviewer settled on. */
  function SettledValue(suggestion: Suggestion, kind: SuggestionKind, corrected: string, profile: Profile): string {
    if kind == Corrected then Strip(corrected, profile.space) else suggestion.proposed
  }

  /** `record_suggestion_decision`; a draft step that fails rolls everything back. */
  function DecideSuggestion(
    s: State, suggestionId: nat, request: nat, kind: SuggestionKind, corrected: string, validation: Validation,
    profile: Profile): Result
  {
    match FindSuggestionDecision(s.suggestionDecisions, request)
    case Some(i) =>
      Result(s, if i < |s.suggestionDecisions|
      && s.suggestionDecisions[i].suggestionId == suggestionId then Done(i) else Refused(Conflict))
    case None =>
      if kind == Corrected && Strip(corrected, profile.space) == "" then Result(s, Refused(Unsupported))
      else if suggestionId >= |s.suggestions| || s.suggestions[suggestionId].item !in s.items then Result(s, Missing)
      else
        var suggestion := s.suggestions[suggestionId];
        if kind == Dismissed then
          Result(s.(suggestionDecisions := s.suggestionDecisions
            + [SuggestionDecision(request, suggestionId, kind, None)]), Done(|s.suggestionDecisions|))
        else if suggestion.sourceHash != s.items[suggestion.item].hash then Result(s, Refused(Unsupported))
        else
          var value := SettledValue(suggestion, kind, corrected, profile);
          var drafted := DraftFromSuggestion(s, suggestion, value, request, validation, profile);
          match drafted.answer
          case Missing => Result(s, Missing)
          case Refused(reason) => Result(s, Refused(if reason == Stale then Unsupported else reason))
          case Done(d) =>
            var version := if d < |drafted.state.drafts| then LatestVersion(drafted.state.drafts[d]) else 0;
            var row := SuggestionDecision(request, suggestionId, kind, Some((d, version)));
            Result(drafted.state.(suggestionDecisions := s.suggestionDecisions + [row]), Done(|s.suggestionDecisions|))
  }

  // Evidence

  /** An evidence session: the item it is attached to, if any, and the hash it was captured at. */
  datatype Session = Session(item: Option<nat>, baseHash: Hash)

  function CandidateText(field: string): Candidate -> Option<string> {
    (c: Candidate) => if c.field == field then Some(c.value) else None
  }

  function GroupCandidates(selected: seq<Candidate>): Patch {
    map i | 0 <= i < |selected| :: selected[i].field := FilterMap(selected, CandidateText(selected[i].field))
  }

  function CopiedChanges(draft: Draft, selected: seq<Candidate>, profile: Profile): Patch {
    Merged(RevisionValues(LatestPatch(draft), draft.baseMetadata, profile), selected, |selected|)
  }

  predicate Copyable(c: Candidate, terms: map<string, set<string>>, profile: Profile) {
    c.field in profile.fields && (c.field in terms ==> c.value in terms[c.field])
  }

  /** `copy_candidates_to_draft`, once the selected candidates are read; `complete` says that all ids were found. */
  function CopyCandidates(
    s: State, session: Session, selected: seq<Candidate>, complete: bool, terms: map<string, set<string>>, request: nat,
    target: Option<nat>, expectedVersion: Option<nat>, validation: Validation, profile: Profile): Result
  {
    if session.item.None? then Result(s, Refused(Unsupported))
    else
      var item := session.item.value;
      if item !in s.items || !s.items[item].active || s.items[item].hash != session.baseHash then
        Result(s, Refused(Stale))
      else if !complete || !(forall i :: 0 <= i < |selected| ==> Copyable(selected[i], terms, profile))
          || selected == [] then
        Result(s, Refused(Unsupported))
      else
        match target
        case None => OpenDraft(s, item, Direct(request), GroupCandidates(selected), validation, profile)
        case Some(d) =>
          if expectedVersion.None? then Result(s, Refused(Unsupported))
          else if d >= |s.drafts| || s.drafts[d].item != item then Result(s, Missing)
          else
            AppendRevision(
              s, item, d, Direct(request), expectedVersion.value, CopiedChanges(s.drafts[d], selected, profile),
              validation, profile)
  }

  // What every run keeps

  datatype Operation =
    | SyncItem(id: nat, synced: Item)
    | AddSuggestion(suggestion: Suggestion)
    | Create(item: nat, request: nat, changes: Patch, validation: Validation)
    | Append(item: nat, draftId: nat, request: nat, expectedVersion: nat, changes: Patch, validation: Validation)
    | Decide(request: nat, decision: DecisionRequest)
    | DecideOnSuggestion(suggestionId: nat, request: nat, kind: SuggestionKind, corrected: string,
      validation: Validation)
    | Copy(session: Session, selected: seq<Candidate>, complete: bool, terms: map<string, set<string>>, request: nat,
           target: Option<nat>, expected: Option<nat>, validation: Validation)

  function Step(s: State, op: Operation, profile: Profile): State {
    match op
    case SyncItem(id, item) => s.(items := s.items[id := item])
    case AddSuggestion(suggestion) => s.(suggestions := s.suggestions + [suggestion])
    case Create(item, request, changes, validation) =>
      OpenDraft(s, item, Direct(request), changes, validation, profile).state
    case Append(item, draftId, request, expectedVersion, changes, validation) =>
      AppendRevision(s, item, draftId, Direct(request), expectedVersion, changes, validation, profile).state
    case Decide(request, decision) => DecideRevision(s, request, decision).state
    case DecideOnSuggestion(suggestionId, request, kind, corrected, validation) =>
      DecideSuggestion(s, suggestionId, request, kind, corrected, validation, profile).state
    case Copy(session, selected, complete, terms, request, target, expectedVersion, validation) =>
      CopyCandidates(s, session, selected, complete, terms, request, target, expectedVersion, validation, profile).state
  }

  /** Versions are 1, 2, ..., and every patch is stored in normal form. */
  ghost predicate DraftSound(draft: Draft, profile: Profile) {
    && draft.revisions != []
    && forall k :: 0 <= k < |draft.revisions| ==>
         draft.revisions[k].version == k + 1 && NormalForm(draft.revisions[k].patch, profile)
  }

  ghost predicate OneDraftPerItem(drafts: seq<Draft>) {
    forall i, j :: 0 <= i < j < |drafts| ==> drafts[i].item != drafts[j].item
  }

  /** No request identifier is on two revisions. */
  ghost predicate RequestsOnce(drafts: seq<Draft>) {
    && (forall d, k, l :: 0 <= d < |drafts| && 0 <= k < l < |drafts[d].revisions| ==>
          drafts[d].revisions[k].request != drafts[d].revisions[l].request)
    && (forall i, j, k, l ::
       0 <= i < j < |drafts| && 0 <= k < |drafts[i].revisions| && 0 <= l < |drafts[j].revisions| ==>
          drafts[i].revisions[k].request != drafts[j].revisions[l].request)
  }

  /** A decision names a revision of its draft and records the hash that draft started from. */
  ghost predicate DecisionSound(decision: Decision, drafts: seq<Draft>) {
    && decision.draftId < |drafts|
    && 1 <= decision.version <= |drafts[decision.draftId].revisions|
    && decision.item == drafts[decision.draftId].item
    && decision.sourceHash == drafts[decision.draftId].baseHash
  }

  ghost predicate DecidedOnce(decisions: seq<Decision>) {
    forall i, j :: 0 <= i < j < |decisions| ==> decisions[i].request != decisions[j].request
  }

  predicate SuggestionDecided(decisions: seq<SuggestionDecision>, request: nat) {
    exists i :: 0 <= i < |decisions| && decisions[i].request == request
  }

  /** A revision made for a suggestion decision is there only together with that decision. */
  ghost predicate Linked(s: State) {
    forall d, k ::
      0 <= d < |s.drafts| && 0 <= k < |s.drafts[d].revisions| && s.drafts[d].revisions[k].request.ForSuggestion? ==>
      SuggestionDecided(s.suggestionDecisions, s.drafts[d].revisions[k].request.id)
  }

  ghost predicate Consistent(s: State, profile: Profile) {
    && (forall d :: 0 <= d < |s.drafts| ==> DraftSound(s.drafts[d], profile))
    && OneDraftPerItem(s.drafts)
    && RequestsOnce(s.drafts)
    && (forall i :: 0 <= i < |s.decisions| ==> DecisionSound(s.decisions[i], s.drafts))
    && DecidedOnce(s.decisions)
  }

  ghost predicate Sound(s: State, profile: Profile) {
    Consistent(s, profile) && Linked(s)
  }

  /** A draft keeps what it started from and every revision; a new one is written only while the item is unchanged. */
  predicate DraftEvolves(s: State, a: Draft, b: Draft) {
    && a.item == b.item && a.baseHash == b.baseHash && a.baseMetadata == b.baseMetadata
    && a.revisions <= b.revisions
    && (a.revisions != b.revisions ==> |b.revisions| == |a.revisions| + 1 && Fresh(s, a))
  }

  ghost predicate DraftsEvolve(s: State, a: seq<Draft>, b: seq<Draft>) {
    && |a| <= |b| <= |a| + 1
    && (forall d :: 0 <= d < |a| ==> DraftEvolves(s, a[d], b[d]))
    && (|b| == |a| + 1 ==> Fresh(s, b[|a|]) && |b[|a|].revisions| == 1)
  }

  /** The decision is about the latest revision of a draft whose item is unchanged. */
  predicate MadeOn(s: State, decision: Decision) {
    && decision.draftId < |s.drafts|
    && decision.version == |s.drafts[decision.draftId].revisions|
    && Fresh(s, s.drafts[decision.draftId])
  }

  ghost predicate DecisionsEvolve(s: State, b: seq<Decision>) {
    && s.decisions <= b
    && |b| <= |s.decisions| + 1
    && (|b| > |s.decisions| ==> MadeOn(s, b[|s.decisions|]))
  }

  ghost predicate Evolves(a: State, b: State) {
    DraftsEvolve(a, a.drafts, b.drafts) && DecisionsEvolve(a, b.decisions)
  }

  lemma DecisionsStay(s: State, drafts: seq<Draft>)
    requires DraftsEvolve(s, s.drafts, drafts) && forall i ::
             0 <= i < |s.decisions| ==> DecisionSound(s.decisions[i], s.drafts)
    ensures forall i :: 0 <= i < |s.decisions| ==> DecisionSound(s.decisions[i], drafts)
  {
  }

  ghost predicate Unused(drafts: seq<Draft>, request: RequestId) {
    forall d :: 0 <= d < |drafts| ==> !HasRequest(drafts[d], request)
  }

  lemma RequestsOnceWithDraft(drafts: seq<Draft>, draft: Draft)
    requires RequestsOnce(drafts) && |draft.revisions| == 1 && Unused(drafts, draft.revisions[0].request)
    ensures RequestsOnce(drafts + [draft])
  {
  }

  lemma RequestsOnceWithRevision(drafts: seq<Draft>, d: nat, revision: Revision)
    requires RequestsOnce(drafts) && d < |drafts| && Unused(drafts, revision.request)
    ensures RequestsOnce(drafts[d := drafts[d].(revisions := drafts[d].revisions + [revision])])
  {
  }

  lemma DraftAdded(s: State, draft: Draft, profile: Profile)
    requires Consistent(s, profile) && Fresh(s, draft) && FindDraft(s.drafts, draft.item).None?
    requires |draft.revisions| == 1 && Unused(s.drafts, draft.revisions[0].request) && DraftSound(draft, profile)
    ensures Consistent(s.(drafts := s.drafts + [draft]), profile) && Evolves(s, s.(drafts := s.drafts + [draft]))
  {
    FindDraftMeaning(s.drafts, draft.item);
    RequestsOnceWithDraft(s.drafts, draft);
    DecisionsStay(s, s.drafts + [draft]);
  }

  lemma RevisionAdded(s: State, d: nat, revision: Revision, profile: Profile)
    requires Consistent(s, profile) && d < |s.drafts| && Fresh(s, s.drafts[d]) && Unused(s.drafts, revision.request)
    requires revision.version == |s.drafts[d].revisions| + 1 && NormalForm(revision.patch, profile)
    ensures var drafts := s.drafts[d := s.drafts[d].(revisions := s.drafts[d].revisions + [revision])];
            Consistent(s.(drafts := drafts), profile) && Evolves(s, s.(drafts := drafts))
  {
    var draft := s.drafts[d].(revisions := s.drafts[d].revisions + [revision]);
    RequestsOnceWithRevision(s.drafts, d, revision);
    assert DraftSound(draft, profile) by {
      assert DraftSound(s.drafts[d], profile);
    }
    assert DraftsEvolve(s, s.drafts, s.drafts[d := draft]);
    DecisionsStay(s, s.drafts[d := draft]);
  }

  lemma CreateKeeps(s: State, item: nat, request: RequestId, changes: Patch, validation: Validation, profile: Profile)
    requires Consistent(s, profile)
    ensures var after := OpenDraft(s, item, request, changes, validation, profile).state;
            Consistent(after, profile) && Evolves(s, after) && after == s.(drafts := after.drafts)
  {
    FindRequestMeaning(s.drafts, request);
    var after := OpenDraft(s, item, request, changes, validation, profile).state;
    if after != s {
      NormalizedIsNormal(changes, profile);
      DraftAdded(s, after.drafts[|s.drafts|], profile);
    }
  }

  lemma AppendKeeps(
    s: State, item: nat, draftId: nat, request: RequestId, expectedVersion: nat, changes: Patch,
    validation: Validation, profile: Profile)
    requires Consistent(s, profile)
    ensures var after := AppendRevision(s, item, draftId, request, expectedVersion, changes, validation, profile).state;
            Consistent(after, profile) && Evolves(s, after) && after == s.(drafts := after.drafts)
  {
    FindRequestMeaning(s.drafts, request);
    var after := AppendRevision(s, item, draftId, request, expectedVersion, changes, validation, profile).state;
    if after != s {
      var draft := s.drafts[draftId];
      assert DraftSound(draft, profile);
      NormalizedIsNormal(changes, profile);
      RevisionAdded(
        s, draftId, Revision(request, LatestVersion(draft) + 1, NormalizePatch(changes, profile).value, validation),
        profile);
    }
  }

  lemma {:induction false} FindDecisionMeaning(decisions: seq<Decision>, request: nat)
    ensures match FindDecision(decisions, request)
            case None => forall i :: 0 <= i < |decisions| ==> decisions[i].request != request
            case Some(i) => i < |decisions| && decisions[i].request == request
  {
    if decisions != [] {
      FindDecisionMeaning(decisions[..|decisions| - 1], request);
    }
  }

  /**
    The draft's latest version is named while its item is unchanged, and an override goes with an approval
    that may need it.
   */
  predicate Decidable(s: State, d: DecisionRequest) {
    && d.draftId < |s.drafts|
    && var draft := s.drafts[d.draftId];
    && draft.item == d.item && Fresh(s, draft)
    && draft.revisions != [] && d.version == |draft.revisions|
    && (d.validationOverride ==> d.verdict == Approved)
    && (d.verdict == Approved && draft.revisions[d.version - 1].validation == Invalid ==> d.validationOverride)
  }

  /** A new decision is recorded exactly when its revision may be decided, and records what it was decided on. */
  lemma DecidedIffDecidable(s: State, request: nat, d: DecisionRequest, profile: Profile)
    requires Consistent(s, profile) && FindDecision(s.decisions, request).None?
    ensures var out := DecideRevision(s, request, d);
            && (out.answer == Done(|s.decisions|) <==> Decidable(s, d))
            && (!Decidable(s, d) ==> out.state == s)
            && (Decidable(s, d) ==>
                  var draft := s.drafts[d.draftId];
                  out.state == s.(decisions := s.decisions + [
                    Decision(request, Sha256(d), d.draftId, d.version, d.item, draft.baseHash,
                      draft.revisions[d.version - 1].validation)]))
  {
    if d.draftId < |s.drafts| {
      assert DraftSound(s.drafts[d.draftId], profile);
    }
  }

  lemma DecideKeeps(s: State, request: nat, d: DecisionRequest, profile: Profile)
    requires Consistent(s, profile)
    ensures var after := DecideRevision(s, request, d).state;
            Consistent(after, profile) && Evolves(s, after) && after == s.(decisions := after.decisions)
  {
    FindDecisionMeaning(s.decisions, request);
    if FindDecision(s.decisions, request).None? {
      DecidedIffDecidable(s, request, d, profile);
    }
  }

  lemma SuggestionKeeps(
    s: State, suggestionId: nat, request: nat, kind: SuggestionKind, corrected: string, validation: Validation,
    profile: Profile)
    requires Consistent(s, profile)
    ensures var after := DecideSuggestion(s, suggestionId, request, kind, corrected, validation, profile).state;
            Consistent(after, profile) && Evolves(s, after)
  {
    var after := DecideSuggestion(s, suggestionId, request, kind, corrected, validation, profile).state;
    if suggestionId < |s.suggestions| && after != s {
      var suggestion := s.suggestions[suggestionId];
      DraftingKeeps(s, suggestion, SettledValue(suggestion, kind, corrected, profile), request, validation, profile);
    }
  }

  lemma DraftingKeeps(
    s: State, suggestion: Suggestion, value: string, request: nat, validation: Validation, profile: Profile)
    requires Consistent(s, profile)
    ensures var after := DraftFromSuggestion(s, suggestion, value, request, validation, profile).state;
            Consistent(after, profile) && Evolves(s, after) && after == s.(drafts := after.drafts)
  {
    FindDraftMeaning(s.drafts, suggestion.item);
    match FindDraft(s.drafts, suggestion.item)
    case None =>
      CreateKeeps(s, suggestion.item, ForSuggestion(request), map[suggestion.field := [value]], validation, profile);
    case Some(d) =>
      if s.drafts[d].revisions != [] {
        var latest := s.drafts[d].revisions[|s.drafts[d].revisions| - 1];
        AppendKeeps(
          s, suggestion.item, d, ForSuggestion(request), latest.version, latest.patch[suggestion.field := [value]],
            validation, profile);
      }
  }

  /** Copying changes nothing, or opens a draft, or appends to one. */
  lemma CopyForwards(
    s: State, session: Session, selected: seq<Candidate>, complete: bool, terms: map<string, set<string>>, request: nat,
    target: Option<nat>, expected: Option<nat>, validation: Validation, profile: Profile)
    ensures var out :=
            CopyCandidates(s, session, selected, complete, terms, request, target, expected, validation, profile);
            || out.state == s
            || (session.item.Some? && target.None?
                && out == OpenDraft(
                     s, session.item.value, Direct(request), GroupCandidates(selected), validation, profile))
            || (session.item.Some? && target.Some? && expected.Some? && target.value < |s.drafts|
                && out == AppendRevision(
                     s, session.item.value, target.value, Direct(request), expected.value,
                     CopiedChanges(s.drafts[target.value], selected, profile), validation, profile))
  {
  }

  lemma CopyKeeps(
    s: State, session: Session, selected: seq<Candidate>, complete: bool, terms: map<string, set<string>>, request: nat,
    target: Option<nat>, expected: Option<nat>, validation: Validation, profile: Profile)
    requires Consistent(s, profile)
    ensures var out :=
            CopyCandidates(s, session, selected, complete, terms, request, target, expected, validation, profile);
            Consistent(out.state, profile) && Evolves(s, out.state)
  {
    CopyForwards(s, session, selected, complete, terms, request, target, expected, validation, profile);
    if session.item.Some? && target.None? {
      CreateKeeps(s, session.item.value, Direct(request), GroupCandidates(selected), validation, profile);
    }
    if session.item.Some? && target.Some? && expected.Some? && target.value < |s.drafts| {
      AppendKeeps(
        s, session.item.value, target.value, Direct(request), expected.value,
        CopiedChanges(s.drafts[target.value], selected, profile), validation, profile);
    }
  }

  // Revisions made for suggestions

  /** Every revision was there before, or carries this request. */
  ghost predicate AddsOnly(a: seq<Draft>, b: seq<Draft>, request: RequestId) {
    forall d, k :: 0 <= d < |b| && 0 <= k < |b[d].revisions| ==>
      b[d].revisions[k].request == request
      || (d < |a| && k < |a[d].revisions| && a[d].revisions[k] == b[d].revisions[k])
  }

  lemma OpenAddsOnly(s: State, item: nat, request: RequestId, changes: Patch, validation: Validation, profile: Profile)
    ensures AddsOnly(s.drafts, OpenDraft(s, item, request, changes, validation, profile).state.drafts, request)
  {
  }

  lemma AppendAddsOnly(
    s: State, item: nat, draftId: nat, request: RequestId, expectedVersion: nat, changes: Patch, validation: Validation,
    profile: Profile)
    ensures AddsOnly(
      s.drafts, AppendRevision(s, item, draftId, request, expectedVersion, changes, validation, profile).state.drafts,
      request)
  {
  }

  lemma DraftingAddsOnly(
    s: State, suggestion: Suggestion, value: string, request: nat, validation: Validation, profile: Profile)
    ensures AddsOnly(s.drafts, DraftFromSuggestion(s, suggestion, value, request, validation, profile).state.drafts,
            ForSuggestion(request))
  {
    OpenAddsOnly(s, suggestion.item, ForSuggestion(request), map[suggestion.field := [value]], validation, profile);
    match FindDraft(s.drafts, suggestion.item)
    case None =>
    case Some(d) =>
      if d < |s.drafts| && s.drafts[d].revisions != [] {
        var latest := s.drafts[d].revisions[|s.drafts[d].revisions| - 1];
        AppendAddsOnly(
          s, suggestion.item, d, ForSuggestion(request), latest.version, latest.patch[suggestion.field := [value]],
            validation, profile);
      }
  }

  lemma CopyAddsOnly(
    s: State, session: Session, selected: seq<Candidate>, complete: bool, terms: map<string, set<string>>, request: nat,
    target: Option<nat>, expectedVersion: Option<nat>, validation: Validation, profile: Profile)
    ensures var after :=
            CopyCandidates(s, session, selected, complete, terms, request, target, expectedVersion, validation,
              profile).state;
            AddsOnly(s.drafts, after.drafts, Direct(request)) && after.suggestionDecisions == s.suggestionDecisions
  {
    if session.item.Some? {
      OpenAddsOnly(s, session.item.value, Direct(request), GroupCandidates(selected), validation, profile);
      if target.Some? && expectedVersion.Some? && target.value < |s.drafts| {
        AppendAddsOnly(
          s, session.item.value, target.value, Direct(request), expectedVersion.value,
          CopiedChanges(s.drafts[target.value], selected, profile), validation, profile);
      }
    }
  }

  lemma StaysLinked(a: State, b: State, request: RequestId)
    requires Linked(a) && AddsOnly(a.drafts, b.drafts, request) && a.suggestionDecisions <= b.suggestionDecisions
    requires request.ForSuggestion? ==> SuggestionDecided(b.suggestionDecisions, request.id)
    ensures Linked(b)
  {
    forall d, k | 0 <= d < |b.drafts| && 0 <= k < |b.drafts[d].revisions|
        && b.drafts[d].revisions[k].request.ForSuggestion?
      ensures SuggestionDecided(b.suggestionDecisions, b.drafts[d].revisions[k].request.id)
    {
      var id := b.drafts[d].revisions[k].request.id;
      if b.drafts[d].revisions[k].request != request {
        assert SuggestionDecided(a.suggestionDecisions, id);
        var i :| 0 <= i < |a.suggestionDecisions| && a.suggestionDecisions[i].request == id;
        assert b.suggestionDecisions[i].request == id;
      }
    }
  }

  lemma SuggestionStaysLinked(
    s: State, suggestionId: nat, request: nat, kind: SuggestionKind, corrected: string, validation: Validation,
    profile: Profile)
    requires Linked(s)
    ensures Linked(DecideSuggestion(s, suggestionId, request, kind, corrected, validation, profile).state)
  {
    var after := DecideSuggestion(s, suggestionId, request, kind, corrected, validation, profile).state;
    if suggestionId < |s.suggestions| && after != s {
      var suggestion := s.suggestions[suggestionId];
      DraftingAddsOnly(s, suggestion, SettledValue(suggestion, kind, corrected, profile), request, validation, profile);
      DraftingLeaves(s, suggestion, SettledValue(suggestion, kind, corrected, profile), request, validation, profile);
      assert after.suggestionDecisions[|s.suggestionDecisions|].request == request;
      StaysLinked(s, after, ForSuggestion(request));
    }
  }

  lemma DraftingLeaves(
    s: State, suggestion: Suggestion, value: string, request: nat, validation: Validation, profile: Profile)
    ensures var after := DraftFromSuggestion(s, suggestion, value, request, validation, profile).state;
            after == s.(drafts := after.drafts)
  {
  }

  lemma StepStaysLinked(s: State, op: Operation, profile: Profile)
    requires Linked(s)
    ensures Linked(Step(s, op, profile))
  {
    match op
    case SyncItem(_, _) =>
    case AddSuggestion(_) =>
    case Create(item, request, changes, validation) =>
      OpenAddsOnly(s, item, Direct(request), changes, validation, profile);
      StaysLinked(s, Step(s, op, profile), Direct(request));
    case Append(item, draftId, request, expectedVersion, changes, validation) =>
      AppendAddsOnly(s, item, draftId, Direct(request), expectedVersion, changes, validation, profile);
      StaysLinked(s, Step(s, op, profile), Direct(request));
    case Decide(_, _) =>
    case DecideOnSuggestion(suggestionId, request, kind, corrected, validation) =>
      SuggestionStaysLinked(s, suggestionId, request, kind, corrected, validation, profile);
    case Copy(session, selected, complete, terms, request, target, expectedVersion, validation) =>
      CopyAddsOnly(s, session, selected, complete, terms, request, target, expectedVersion, validation, profile);
      StaysLinked(s, Step(s, op, profile), Direct(request));
  }

  lemma StepStaysConsistent(s: State, op: Operation, profile: Profile)
    requires Consistent(s, profile)
    ensures Consistent(Step(s, op, profile), profile) && Evolves(s, Step(s, op, profile))
  {
    match op
    case SyncItem(_, _) =>
    case AddSuggestion(_) =>
    case Create(item, request, changes, validation) =>
      CreateKeeps(s, item, Direct(request), changes, validation, profile);
    case Append(item, draftId, request, expectedVersion, changes, validation) =>
      AppendKeeps(s, item, draftId, Direct(request), expectedVersion, changes, validation, profile);
    case Decide(request, decision) => DecideKeeps(s, request, decision, profile);
    case DecideOnSuggestion(suggestionId, request, kind, corrected, validation) =>
      SuggestionKeeps(s, suggestionId, request, kind, corrected, validation, profile);
    case Copy(session, selected, complete, terms, request, target, expectedVersion, validation) =>
      CopyKeeps(s, session, selected, complete, terms, request, target, expectedVersion, validation, profile);
  }

  /**
    Every operation keeps one draft per item, versions without a gap, every revision and base as they
    were, writes revisions and decisions only while the item is what the draft started from, and makes
    the revision for a suggestion only together with the decision on it.
   */
  lemma StepKeeps(s: State, op: Operation, profile: Profile)
    requires Sound(s, profile)
    ensures Sound(Step(s, op, profile), profile) && Evolves(s, Step(s, op, profile))
  {
    StepStaysConsistent(s, op, profile);
    StepStaysLinked(s, op, profile);
  }

  function Steps(s: State, ops: seq<Operation>, profile: Profile): State
    decreases |ops|
  {
    if ops == [] then s else Steps(Step(s, ops[0], profile), ops[1..], profile)
  }

  /** Nothing written is lost or altered: drafts keep what they started from, revisions and decisions only grow. */
  ghost predicate Preserves(a: State, b: State) {
    && |a.drafts| <= |b.drafts|
    && (forall d :: 0 <= d < |a.drafts| ==> Continues(a.drafts[d], b.drafts[d]))
    && a.decisions <= b.decisions
  }

  predicate Continues(a: Draft, b: Draft) {
    a.item == b.item && a.baseHash == b.baseHash && a.baseMetadata == b.baseMetadata && a.revisions <= b.revisions
  }

  /** Before anything was drafted, everything is sound. */
  lemma StartIsSound(s: State, profile: Profile)
    requires s.drafts == [] && s.decisions == []
    ensures Sound(s, profile)
  {
  }

  /** Over every history: soundness stays, and no draft, revision or decision is lost or altered. */
  lemma {:induction false} SoundForever(s: State, ops: seq<Operation>, profile: Profile)
    requires Sound(s, profile)
    ensures Sound(Steps(s, ops, profile), profile) && Preserves(s, Steps(s, ops, profile))
    decreases |ops|
  {
    if ops != [] {
      StepKeeps(s, ops[0], profile);
      SoundForever(Step(s, ops[0], profile), ops[1..], profile);
    }
  }

  lemma StepsPrefix(s: State, ops: seq<Operation>, n: nat, profile: Profile)
    requires ops != [] && n <= |ops| - 1
    ensures Steps(s, ops[..n + 1], profile) == Steps(Step(s, ops[0], profile), ops[1..][..n], profile)
  {
    assert ops[..n + 1][1..] == ops[1..][..n];
  }

  /** Decision `i` was made after the first `n` operations, on what was then the latest revision of a fresh draft. */
  ghost predicate DecidedAfter(s: State, ops: seq<Operation>, n: nat, i: nat, profile: Profile) {
    && n < |ops| && i < |Steps(s, ops, profile).decisions|
    && var at := Steps(s, ops[..n], profile);
    && |at.decisions| == i && MadeOn(at, Steps(s, ops, profile).decisions[i])
  }

  ghost predicate MadeOnLatest(s: State, ops: seq<Operation>, i: nat, profile: Profile) {
    exists n: nat :: DecidedAfter(s, ops, n, i, profile)
  }

  lemma DecidedFirst(s: State, ops: seq<Operation>, profile: Profile)
    requires Sound(s, profile) && ops != [] && |s.decisions| < |Step(s, ops[0], profile).decisions|
    ensures MadeOnLatest(s, ops, |s.decisions|, profile)
  {
    var next := Step(s, ops[0], profile);
    StepKeeps(s, ops[0], profile);
    SoundForever(next, ops[1..], profile);
    assert Steps(s, ops[..0], profile) == s;
    assert next.decisions[|s.decisions|] == Steps(s, ops, profile).decisions[|s.decisions|];
    assert DecidedAfter(s, ops, 0, |s.decisions|, profile);
  }

  lemma DecidedLater(s: State, ops: seq<Operation>, i: nat, profile: Profile)
    requires ops != [] && MadeOnLatest(Step(s, ops[0], profile), ops[1..], i, profile)
    ensures MadeOnLatest(s, ops, i, profile)
  {
    var n: nat :| DecidedAfter(Step(s, ops[0], profile), ops[1..], n, i, profile);
    StepsPrefix(s, ops, n, profile);
    assert DecidedAfter(s, ops, n + 1, i, profile);
  }

  /** Every decision made in a history was made on the then latest revision, while the item was unchanged. */
  lemma {:induction false} DecisionsWereOnLatest(s: State, ops: seq<Operation>, i: nat, profile: Profile)
    requires Sound(s, profile) && |s.decisions| <= i < |Steps(s, ops, profile).decisions|
    ensures MadeOnLatest(s, ops, i, profile)
    decreases |ops|
  {
    var next := Step(s, ops[0], profile);
    assert Sound(next, profile) && |next.decisions| <= |s.decisions| + 1 by {
      StepKeeps(s, ops[0], profile);
    }
    if i < |next.decisions| {
      DecidedFirst(s, ops, profile);
    } else {
      DecisionsWereOnLatest(next, ops[1..], i, profile);
      DecidedLater(s, ops, i, profile);
    }
  }

  /** Revision `k` of draft `d` is there. */
  predicate Written(s: State, d: nat, k: nat) {
    d < |s.drafts| && k < |s.drafts[d].revisions|
  }

  /**
    The revision was written by the operation after the first `n`, when the item had the hash its draft
    started from.
   */
  ghost predicate WrittenAfter(s: State, ops: seq<Operation>, n: nat, d: nat, k: nat, profile: Profile) {
    && n < |ops| && d < |Steps(s, ops, profile).drafts|
    && var at := Steps(s, ops[..n], profile);
    && !Written(at, d, k) && Written(Steps(s, ops[..n + 1], profile), d, k)
    && Fresh(at, Steps(s, ops, profile).drafts[d])
  }

  ghost predicate WrittenFresh(s: State, ops: seq<Operation>, d: nat, k: nat, profile: Profile) {
    exists n: nat :: WrittenAfter(s, ops, n, d, k, profile)
  }

  lemma WritesWhileFresh(a: State, b: State, d: nat, k: nat)
    requires Evolves(a, b) && Written(b, d, k) && !Written(a, d, k)
    ensures Fresh(a, b.drafts[d])
  {
    if d < |a.drafts| {
      assert DraftEvolves(a, a.drafts[d], b.drafts[d]);
    }
  }

  /** Every revision written in a history was written while the item's hash was the draft's base hash. */
  lemma {:induction false} RevisionsWereFresh(s: State, ops: seq<Operation>, d: nat, k: nat, profile: Profile)
    requires Sound(s, profile) && Written(Steps(s, ops, profile), d, k) && !Written(s, d, k)
    ensures WrittenFresh(s, ops, d, k, profile)
    decreases |ops|
  {
    var next := Step(s, ops[0], profile);
    StepKeeps(s, ops[0], profile);
    if Written(next, d, k) {
      SoundForever(next, ops[1..], profile);
      WritesWhileFresh(s, next, d, k);
      assert Steps(s, ops[..0], profile) == s;
      StepsPrefix(s, ops, 0, profile);
      assert Steps(next, ops[1..][..0], profile) == next;
      assert Continues(next.drafts[d], Steps(s, ops, profile).drafts[d]);
      assert WrittenAfter(s, ops, 0, d, k, profile);
    } else {
      RevisionsWereFresh(next, ops[1..], d, k, profile);
      var n: nat :| WrittenAfter(next, ops[1..], n, d, k, profile);
      StepsPrefix(s, ops, n, profile);
      StepsPrefix(s, ops, n + 1, profile);
      assert WrittenAfter(s, ops, n + 1, d, k, profile);
    }
  }

  /**
    From a store in which nothing was drafted, any history leaves one sound draft at most for each item,
    each of its revisions written while the item was what the draft started from, and each decision made
    on what was then the latest revision.
   */
  lemma EveryHistoryIsSound(s: State, ops: seq<Operation>, profile: Profile)
    requires s.drafts == [] && s.decisions == []
    ensures var after := Steps(s, ops, profile);
            && Sound(after, profile)
            && (forall d, k :: Written(after, d, k) ==> WrittenFresh(s, ops, d, k, profile))
            && (forall i: nat :: i < |after.decisions| ==> MadeOnLatest(s, ops, i, profile))
  {
    var after := Steps(s, ops, profile);
    StartIsSound(s, profile);
    SoundForever(s, ops, profile);
    forall d, k | Written(after, d, k) ensures WrittenFresh(s, ops, d, k, profile) {
      RevisionsWereFresh(s, ops, d, k, profile);
    }
    forall i: nat | i < |after.decisions| ensures MadeOnLatest(s, ops, i, profile) {
      DecisionsWereOnLatest(s, ops, i, profile);
    }
  }

  // Repetition

  lemma FindRequestIs(drafts: seq<Draft>, d: nat, k: nat)
    requires RequestsOnce(drafts) && d < |drafts| && k < |drafts[d].revisions|
    ensures FindRequest(drafts, drafts[d].revisions[k].request) == Some(d)
  {
    FindRequestMeaning(drafts, drafts[d].revisions[k].request);
    assert HasRequest(drafts[d], drafts[d].revisions[k].request);
  }

  lemma FindDecisionIs(decisions: seq<Decision>, i: nat)
    requires DecidedOnce(decisions) && i < |decisions|
    ensures FindDecision(decisions, decisions[i].request) == Some(i)
  {
    FindDecisionMeaning(decisions, decisions[i].request);
  }

  /**
    Neither operation on drafts touches anything when the request is known, and a creation is answered only
    for its item.
   */
  lemma KnownRequestAddsNothing(
    s: State, item: nat, draftId: nat, request: RequestId, version: nat, changes: Patch, validation: Validation,
    profile: Profile)
    requires FindRequest(s.drafts, request).Some?
    ensures OpenDraft(s, item, request, changes, validation, profile).state == s
    ensures AppendRevision(s, item, draftId, request, version, changes, validation, profile).state == s
    ensures FindRequest(s.drafts, request).value < |s.drafts|
    ensures OpenDraft(s, item, request, changes, validation, profile).answer.Done?
       <==> s.drafts[FindRequest(s.drafts, request).value].item == item
  {
    FindRequestMeaning(s.drafts, request);
  }

  /** A request that is known stays known, as one of the same draft. */
  lemma RequestStaysKnown(s: State, request: RequestId, ops: seq<Operation>, profile: Profile)
    requires Sound(s, profile) && FindRequest(s.drafts, request).Some?
    ensures FindRequest(Steps(s, ops, profile).drafts, request) == FindRequest(s.drafts, request)
    ensures FindRequest(s.drafts, request).value < |s.drafts| <= |Steps(s, ops, profile).drafts|
    ensures s.drafts[FindRequest(s.drafts, request).value].item
       == Steps(s, ops, profile).drafts[FindRequest(s.drafts, request).value].item
  {
    SoundForever(s, ops, profile);
    FindRequestMeaning(s.drafts, request);
    var d, later := FindRequest(s.drafts, request).value, Steps(s, ops, profile);
    var k :| 0 <= k < |s.drafts[d].revisions| && s.drafts[d].revisions[k].request == request;
    assert Continues(s.drafts[d], later.drafts[d]);
    FindRequestIs(later.drafts, d, k);
  }

  lemma KnownIsOpened(
    s: State, item: nat, d: nat, request: RequestId, changes: Patch, validation: Validation, profile: Profile)
    requires FindRequest(s.drafts, request) == Some(d) && d < |s.drafts| && s.drafts[d].item == item
    ensures OpenDraft(s, item, request, changes, validation, profile) == Result(s, Done(d))
  {
  }

  lemma OpenedIsKnown(s: State, item: nat, request: RequestId, changes: Patch, validation: Validation, profile: Profile)
    requires Consistent(s, profile) && OpenDraft(s, item, request, changes, validation, profile).answer.Done?
    ensures var done := OpenDraft(s, item, request, changes, validation, profile);
            FindRequest(done.state.drafts, request) == Some(done.answer.id)
            && done.answer.id < |done.state.drafts| && done.state.drafts[done.answer.id].item == item
  {
    var done := OpenDraft(s, item, request, changes, validation, profile);
    if FindRequest(s.drafts, request).None? {
      CreateKeeps(s, item, request, changes, validation, profile);
      FindRequestIs(done.state.drafts, |s.drafts|, 0);
    }
  }

  /**
    A creation that was done answers its repetition with the same draft and adds nothing, whatever was done in
    between.
   */
  lemma RepeatedCreation(
    s: State, item: nat, request: nat, changes: Patch, validation: Validation, ops: seq<Operation>,
    again: Patch, laterValidation: Validation, profile: Profile)
    requires Sound(s, profile) && OpenDraft(s, item, Direct(request), changes, validation, profile).answer.Done?
    ensures var done := OpenDraft(s, item, Direct(request), changes, validation, profile);
            var later := Steps(done.state, ops, profile);
            OpenDraft(later, item, Direct(request), again, laterValidation, profile) == Result(later, done.answer)
  {
    var done := OpenDraft(s, item, Direct(request), changes, validation, profile);
    assert Sound(done.state, profile) by {
      StepKeeps(s, Create(item, request, changes, validation), profile);
    }
    OpenedIsKnown(s, item, Direct(request), changes, validation, profile);
    RequestStaysKnown(done.state, Direct(request), ops, profile);
    KnownIsOpened(Steps(done.state, ops, profile), item, done.answer.id, Direct(request), again, laterValidation,
      profile);
  }

  lemma KnownIsAppended(
    s: State, item: nat, draftId: nat, request: RequestId, version: nat, changes: Patch, validation: Validation,
    profile: Profile)
    requires FindRequest(s.drafts, request) == Some(draftId) && draftId < |s.drafts| && s.drafts[draftId].item == item
    ensures AppendRevision(s, item, draftId, request, version, changes, validation, profile) == Result(s, Done(draftId))
  {
  }

  lemma AppendedIsKnown(
    s: State, item: nat, draftId: nat, request: RequestId, version: nat, changes: Patch, validation: Validation,
    profile: Profile)
    requires Consistent(s, profile)
             && AppendRevision(s, item, draftId, request, version, changes, validation, profile).answer.Done?
    ensures var done := AppendRevision(s, item, draftId, request, version, changes, validation, profile);
            FindRequest(done.state.drafts, request) == Some(draftId)
            && done.answer == Done(draftId) && draftId < |done.state.drafts| && done.state.drafts[draftId].item == item
  {
    var done := AppendRevision(s, item, draftId, request, version, changes, validation, profile);
    if FindRequest(s.drafts, request).None? {
      AppendKeeps(s, item, draftId, request, version, changes, validation, profile);
      FindRequestIs(done.state.drafts, draftId, |s.drafts[draftId].revisions|);
    }
  }

  /** A revision that was appended is not appended again by its repetition, whatever was done in between. */
  lemma RepeatedRevision(
    s: State, item: nat, draftId: nat, request: nat, version: nat, changes: Patch, validation: Validation,
    ops: seq<Operation>, laterVersion: nat, again: Patch, laterValidation: Validation, profile: Profile)
    requires Sound(s, profile)
    requires AppendRevision(s, item, draftId, Direct(request), version, changes, validation, profile).answer.Done?
    ensures var done := AppendRevision(s, item, draftId, Direct(request), version, changes, validation, profile);
            var later := Steps(done.state, ops, profile);
            AppendRevision(later, item, draftId, Direct(request), laterVersion, again, laterValidation, profile)
            == Result(later, done.answer)
  {
    var done := AppendRevision(s, item, draftId, Direct(request), version, changes, validation, profile);
    assert Sound(done.state, profile) by {
      StepKeeps(s, Append(item, draftId, request, version, changes, validation), profile);
    }
    AppendedIsKnown(s, item, draftId, Direct(request), version, changes, validation, profile);
    RequestStaysKnown(done.state, Direct(request), ops, profile);
    KnownIsAppended(
      Steps(done.state, ops, profile), item, draftId, Direct(request), laterVersion, again, laterValidation, profile);
  }

  lemma DecidedIsKnown(s: State, request: nat, d: DecisionRequest, profile: Profile)
    requires Consistent(s, profile) && DecideRevision(s, request, d).answer.Done?
    ensures var done := DecideRevision(s, request, d);
            done.answer.id < |done.state.decisions|
            && done.state.decisions[done.answer.id].request == request
            && done.state.decisions[done.answer.id].fingerprint == Sha256(d)
  {
    FindDecisionMeaning(s.decisions, request);
    if FindDecision(s.decisions, request).None? {
      DecidedIffDecidable(s, request, d, profile);
    }
  }

  lemma AnsweredFromTable(s: State, request: nat, d: DecisionRequest, i: nat)
    requires DecidedOnce(s.decisions) && i < |s.decisions| && s.decisions[i].request == request
    ensures DecideRevision(s, request, d)
         == Result(s, if s.decisions[i].fingerprint == Sha256(d) then Done(i) else Refused(Conflict))
  {
    FindDecisionIs(s.decisions, i);
  }

  /**
    A decision request that was answered is answered with the same record when it is repeated, and refused
    when it then says something else, whatever was done in between; neither adds anything.
   */
  lemma RepeatedDecision(
    s: State, request: nat, first: DecisionRequest, ops: seq<Operation>, second: DecisionRequest, profile: Profile)
    requires Sound(s, profile) && DecideRevision(s, request, first).answer.Done?
    ensures var done := DecideRevision(s, request, first);
            var later := Steps(done.state, ops, profile);
            DecideRevision(later, request, second)
            == Result(later, if second == first then done.answer else Refused(Conflict))
  {
    var done := DecideRevision(s, request, first);
    DecidedIsKnown(s, request, first, profile);
    assert Sound(done.state, profile) by {
      StepKeeps(s, Decide(request, first), profile);
    }
    SoundForever(done.state, ops, profile);
    AnsweredFromTable(Steps(done.state, ops, profile), request, second, done.answer.id);
  }

  // What a suggestion and an evidence copy do to a draft

  lemma {:induction false} FindSuggestionDecisionMeaning(decisions: seq<SuggestionDecision>, request: nat)
    ensures FindSuggestionDecision(decisions, request).None? <==> !SuggestionDecided(decisions, request)
  {
    if decisions != [] {
      var front := decisions[..|decisions| - 1];
      FindSuggestionDecisionMeaning(front, request);
      assert SuggestionDecided(front, request) ==> SuggestionDecided(decisions, request);
    }
  }

  lemma UsedIsDecided(s: State, request: nat)
    requires Linked(s) && FindRequest(s.drafts, ForSuggestion(request)).Some?
    ensures SuggestionDecided(s.suggestionDecisions, request)
  {
    FindRequestMeaning(s.drafts, ForSuggestion(request));
    var d := FindRequest(s.drafts, ForSuggestion(request)).value;
    var k :| 0 <= k < |s.drafts[d].revisions| && s.drafts[d].revisions[k].request == ForSuggestion(request);
    assert SuggestionDecided(s.suggestionDecisions, s.drafts[d].revisions[k].request.id);
  }

  /** No revision was made yet for a request that no suggestion decision carries. */
  lemma UndecidedIsUnused(s: State, request: nat)
    requires Linked(s) && FindSuggestionDecision(s.suggestionDecisions, request).None?
    ensures FindRequest(s.drafts, ForSuggestion(request)).None?
  {
    FindSuggestionDecisionMeaning(s.suggestionDecisions, request);
    if FindRequest(s.drafts, ForSuggestion(request)).Some? {
      UsedIsDecided(s, request);
    }
  }

  /** Accepting a suggestion into an existing draft changes the suggested field of its latest patch and no other. */
  lemma AcceptedSuggestionKeepsOtherFields(
    s: State, suggestion: Suggestion, d: nat, value: string, request: nat, validation: Validation, profile: Profile)
    requires Sound(s, profile) && FindDraft(s.drafts, suggestion.item) == Some(d)
    requires FindSuggestionDecision(s.suggestionDecisions, request).None?
    requires DraftFromSuggestion(s, suggestion, value, request, validation, profile).answer.Done?
    ensures d < |s.drafts|
    ensures var after := DraftFromSuggestion(s, suggestion, value, request, validation, profile).state;
            && |after.drafts| == |s.drafts|
            && LatestPatch(after.drafts[d])
               == LatestPatch(s.drafts[d])[suggestion.field := Clean([value], profile.space)]
            && |after.drafts[d].revisions| == |s.drafts[d].revisions| + 1
            && s.drafts[d].revisions <= after.drafts[d].revisions
  {
    assert FindRequest(s.drafts, ForSuggestion(request)).None? by {
      UndecidedIsUnused(s, request);
    }
    FindDraftMeaning(s.drafts, suggestion.item);
    assert DraftSound(s.drafts[d], profile);
    AcceptingKeepsOtherFields(LatestPatch(s.drafts[d]), suggestion.field, value, profile);
  }

  lemma OpenedFromSuggestion(
    s: State, suggestion: Suggestion, value: string, request: nat, validation: Validation, profile: Profile)
    requires FindDraft(s.drafts, suggestion.item).None? && FindRequest(s.drafts, ForSuggestion(request)).None?
    requires DraftFromSuggestion(s, suggestion, value, request, validation, profile).answer.Done?
    ensures var after := DraftFromSuggestion(s, suggestion, value, request, validation, profile);
            && after.answer == Done(|s.drafts|)
            && after.state.drafts[..|s.drafts|] == s.drafts && |after.state.drafts| == |s.drafts| + 1
            && after.state.drafts[|s.drafts|].item == suggestion.item
            && LatestPatch(after.state.drafts[|s.drafts|]) == map[suggestion.field := Clean([value], profile.space)]
  {
    var changes := map[suggestion.field := [value]];
    assert suggestion.field in changes;
  }

  /**
    The draft a recorded suggestion decision points to is the suggested item's, at its latest version; in that
    version the suggested field has the settled value, and every other field what the version before it had.
   */
  ghost predicate CarriesSuggestion(
    before: State, after: State, row: SuggestionDecision, suggestion: Suggestion, value: string, profile: Profile)
  {
    && row.revision.Some?
    && var (d, version) := row.revision.value;
    && d < |after.drafts| && after.drafts[d].item == suggestion.item
    && version == |after.drafts[d].revisions|
    && LatestPatch(after.drafts[d])
       == (if d < |before.drafts| then LatestPatch(before.drafts[d])
         else map[])[suggestion.field := Clean([value], profile.space)]
  }

  lemma DraftedSuggestion(
    s: State, suggestion: Suggestion, value: string, request: nat, validation: Validation, profile: Profile)
    requires Sound(s, profile) && FindSuggestionDecision(s.suggestionDecisions, request).None?
    requires DraftFromSuggestion(s, suggestion, value, request, validation, profile).answer.Done?
    ensures var out := DraftFromSuggestion(s, suggestion, value, request, validation, profile);
            && out.answer.id < |out.state.drafts|
            && forall row: SuggestionDecision | row.revision
               == Some((out.answer.id, LatestVersion(out.state.drafts[out.answer.id]))) ::
                 CarriesSuggestion(s, out.state, row, suggestion, value, profile)
  {
    var out := DraftFromSuggestion(s, suggestion, value, request, validation, profile);
    UndecidedIsUnused(s, request);
    FindDraftMeaning(s.drafts, suggestion.item);
    DraftingKeeps(s, suggestion, value, request, validation, profile);
    match FindDraft(s.drafts, suggestion.item) {
      case None => OpenedFromSuggestion(s, suggestion, value, request, validation, profile);
      case Some(d) =>
        AcceptedSuggestionKeepsOtherFields(s, suggestion, d, value, request, validation, profile);
        assert out.answer == Done(d);
    }
    assert DraftSound(out.state.drafts[out.answer.id], profile);
  }

  /** An accepted or corrected suggestion was current, and its recorded draft version carries the settled value. */
  lemma AcceptedSuggestionIsCarried(
    s: State, suggestionId: nat, request: nat, kind: SuggestionKind, corrected: string, validation: Validation,
    profile: Profile)
    requires Sound(s, profile) && kind != Dismissed
    requires FindSuggestionDecision(s.suggestionDecisions, request).None?
    requires DecideSuggestion(s, suggestionId, request, kind, corrected, validation, profile).answer.Done?
    ensures suggestionId < |s.suggestions|
    ensures var suggestion, after := s.suggestions[suggestionId],
            DecideSuggestion(s, suggestionId, request, kind, corrected, validation, profile).state;
            && suggestion.item in s.items && s.items[suggestion.item].hash == suggestion.sourceHash
            && |after.suggestionDecisions| == |s.suggestionDecisions| + 1
            && CarriesSuggestion(
              s, after, after.suggestionDecisions[|s.suggestionDecisions|], suggestion,
              SettledValue(suggestion, kind, corrected, profile), profile)
  {
    var suggestion := s.suggestions[suggestionId];
    var value := SettledValue(suggestion, kind, corrected, profile);
    DraftedSuggestion(s, suggestion, value, request, validation, profile);
    DraftingKeeps(s, suggestion, value, request, validation, profile);
  }

  lemma AppendedPatch(
    s: State, item: nat, d: nat, request: RequestId, version: nat, changes: Patch, validation: Validation,
    profile: Profile)
    requires FindRequest(s.drafts, request).None?
    requires AppendRevision(s, item, d, request, version, changes, validation, profile).answer.Done?
    ensures d < |s.drafts|
            && |AppendRevision(s, item, d, request, version, changes, validation, profile).state.drafts| == |s.drafts|
    ensures NormalizePatch(changes, profile)
         == JsonValues.Result.Ok(LatestPatch(AppendRevision(s, item, d, request, version, changes, validation,
           profile).state.drafts[d]))
  {
  }

  lemma CopyAppends(
    s: State, session: Session, selected: seq<Candidate>, complete: bool, terms: map<string, set<string>>, request: nat,
    d: nat, version: nat, validation: Validation, profile: Profile)
    requires d < |s.drafts|
    requires CopyCandidates(s, session, selected, complete, terms, request, Some(d), Some(version), validation,
             profile).answer.Done?
    ensures CopyCandidates(s, session, selected, complete, terms, request, Some(d), Some(version), validation, profile)
         == AppendRevision(
           s, s.drafts[d].item, d, Direct(request), version, CopiedChanges(s.drafts[d], selected, profile), validation,
           profile)
  {
  }

  lemma CopiedChangesKeepValues(draft: Draft, selected: seq<Candidate>, profile: Profile)
    requires NormalizePatch(CopiedChanges(draft, selected, profile), profile).Ok?
    ensures KeepsValues(
      RevisionValues(LatestPatch(draft), draft.baseMetadata, profile),
      NormalizePatch(CopiedChanges(draft, selected, profile), profile).value, profile)
  {
    CopyingDropsNothing(LatestPatch(draft), draft.baseMetadata, selected, profile);
  }

  /** Copying evidence into an existing draft keeps every value it had that is not blank. */
  lemma CopiedEvidenceKeepsValues(
    s: State, session: Session, selected: seq<Candidate>, complete: bool, terms: map<string, set<string>>, request: nat,
    d: nat, version: nat, validation: Validation, profile: Profile, out: Result)
    requires FindRequest(s.drafts, Direct(request)).None? && d < |s.drafts|
    requires out
       == CopyCandidates(s, session, selected, complete, terms, request, Some(d), Some(version), validation, profile)
    requires out.answer.Done?
    ensures d < |out.state.drafts|
    ensures KeepsValues(
      RevisionValues(LatestPatch(s.drafts[d]), s.drafts[d].baseMetadata, profile), LatestPatch(out.state.drafts[d]),
      profile)
  {
    CopyAppends(s, session, selected, complete, terms, request, d, version, validation, profile);
    AppendedPatch(
      s, s.drafts[d].item, d, Direct(request), version, CopiedChanges(s.drafts[d], selected, profile), validation,
      profile);
    CopiedChangesKeepValues(s.drafts[d], selected, profile);
  }

  /** The tables of drafts and decisions, updated in place. */
  class DraftStore {
    var items: map<nat, Item>
    var drafts: seq<Draft>
    var decisions: seq<Decision>
    var suggestions: seq<Suggestion>
    var suggestionDecisions: seq<SuggestionDecision>

    function Tables(): State
      reads this
    {
      State(items, drafts, decisions, suggestions, suggestionDecisions)
    }

    method CreateDraft(
      item: nat, request: RequestId, changes: Patch, validation: Validation, profile: Profile) returns (answer: Answer)
      modifies this
      ensures Result(Tables(), answer) == OpenDraft(old(Tables()), item, request, changes, validation, profile)
    {
      var known := FindRequest(drafts, request);
      FindRequestMeaning(drafts, request);
      if known.Some? {
        return if drafts[known.value].item == item then Done(known.value) else Refused(Conflict);
      }
      if item !in items || !items[item].active {
        return Missing;
      }
      if FindDraft(drafts, item).Some? {
        return Refused(Conflict);
      }
      var normalized := NormalizeMetadataPatch(changes, profile);
      if normalized.Err? {
        return Refused(Patch(normalized.error));
      }
      var base := map field | field in profile.fields ::
        if field in items[item].metadata then items[item].metadata[field] else [];
      answer := Done(|drafts|);
      drafts := drafts + [Draft(item, items[item].hash, base, [Revision(request, 1, normalized.value, validation)])];
    }

    method AppendDraftRevision(
      item: nat, draftId: nat, request: RequestId, expectedVersion: nat, changes: Patch, validation: Validation,
      profile: Profile) returns (answer: Answer)
      modifies this
      ensures Result(Tables(), answer)
           == AppendRevision(old(Tables()), item, draftId, request, expectedVersion, changes, validation, profile)
    {
      var known := FindRequest(drafts, request);
      FindRequestMeaning(drafts, request);
      if known.Some? {
        return if drafts[known.value].item == item
          && known.value == draftId then Done(known.value) else Refused(Conflict);
      }
      if draftId >= |drafts| || drafts[draftId].item != item {
        return Missing;
      }
      var draft := drafts[draftId];
      if !Fresh(Tables(), draft) {
        return Refused(Stale);
      }
      var currentVersion := LatestVersion(draft);
      if currentVersion != expectedVersion {
        return Refused(Conflict);
      }
      var normalized := NormalizeMetadataPatch(changes, profile);
      if normalized.Err? {
        return Refused(Patch(normalized.error));
      }
      var revision := Revision(request, currentVersion + 1, normalized.value, validation);
      drafts := drafts[draftId := draft.(revisions := draft.revisions + [revision])];
      answer := Done(draftId);
    }

    method CopyCandidatesToDraft(
      session: Session, selected: seq<Candidate>, complete: bool, terms: map<string, set<string>>, request: nat,
      target: Option<nat>, expectedVersion: Option<nat>, validation: Validation, profile: Profile)
      returns (answer: Answer)
      modifies this
      ensures Result(Tables(), answer)
           == CopyCandidates(old(Tables()), session, selected, complete, terms, request, target, expectedVersion,
             validation, profile)
    {
      if session.item.None? {
        return Refused(Unsupported);
      }
      var item := session.item.value;
      if item !in items || !items[item].active || items[item].hash != session.baseHash {
        return Refused(Stale);
      }
      if !complete || selected == [] {
        return Refused(Unsupported);
      }
      for i := 0 to |selected|
        invariant forall k :: 0 <= k < i ==> Copyable(selected[k], terms, profile)
        invariant unchanged(this)
      {
        if !Copyable(selected[i], terms, profile) {
          return Refused(Unsupported);
        }
      }
      if target.None? {
        answer := this.CreateDraft(item, Direct(request), GroupCandidates(selected), validation, profile);
        return;
      }
      if expectedVersion.None? {
        return Refused(Unsupported);
      }
      if target.value >= |drafts| || drafts[target.value].item != item {
        return Missing;
      }
      var draft := drafts[target.value];
      var changes := MergeCandidates(LatestPatch(draft), draft.baseMetadata, selected, profile);
      answer :=
        AppendDraftRevision(item, target.value, Direct(request), expectedVersion.value, changes, validation, profile);
    }
  }
}
