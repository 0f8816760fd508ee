/** The table of contract snapshots and the three operations that act on it. */
module ContractGovernance {
  import opened JsonValues
  import opened Ordering
  import opened ContractStore
  import opened ContractPages
  import opened SubmissionBindings
  import opened BindingIdentity
  import opened ContractSnapshot
  import opened ContractDiff
  import opened ContractClassification

  /** One row of the snapshot table, with the change rows that belong to it. */
  datatype Snapshot = Snapshot(
    runId: nat,
    status: SnapshotStatus,
    semanticHash: Digest<Canonical>,
    complete: bool,
    canonical: Canonical,
    warnings: seq<string>,
    changes: seq<Change>,
    effectiveHash: Option<Digest<Canonical>>,
    effectiveCanonical: Option<Canonical>,
    resolutionSurface: Option<string>,
    resolutionSourceHash: Option<string>,
    resolutionReconciliationHash: Option<string>,
    inheritedFrom: Option<nat>,
    resolvedBy: Option<string>,
    approvedBy: Option<string>,
    approvedHash: Option<Digest<Canonical>>)

  /** The collected runs and the snapshots taken of them; a row is named by its place in its table. */
  datatype State = State(runs: seq<Run>, snapshots: seq<Snapshot>)

  type Reason = string

  datatype Decision = Decision(state: State, result: Result<nat, Reason>)

  // What governs

  function GovernedHash(s: Snapshot): Digest<Canonical> {
    s.effectiveHash.GetOr(s.semanticHash)
  }

  function GovernedCanonical(s: Snapshot): Canonical {
    s.effectiveCanonical.GetOr(s.canonical)
  }

  predicate Given(text: Option<string>) {
    text.Some? && text.value != ""
  }

  predicate GovernanceComplete(s: Snapshot) {
    s.complete
    || (s.effectiveHash.Some? && s.effectiveCanonical.Some? && Given(s.resolutionSurface) && Given(s.resolvedBy))
  }

  function AsView(s: Snapshot): View {
    View(GovernedCanonical(s), GovernedHash(s), s.effectiveHash.Some? || s.complete, s.warnings)
  }

  /** The newest ACTIVE snapshot. */
  function FindActive(snapshots: seq<Snapshot>): Option<nat> {
    if snapshots == [] then None
    else if snapshots[|snapshots| - 1].status == Active then Some(|snapshots| - 1)
    else FindActive(snapshots[..|snapshots| - 1])
  }

  function FindByRun(snapshots: seq<Snapshot>, runId: nat): Option<nat> {
    if snapshots == [] then None
    else if snapshots[|snapshots| - 1].runId == runId then Some(|snapshots| - 1)
    else FindByRun(snapshots[..|snapshots| - 1], runId)
  }

  lemma {:induction false} FindActiveMeaning(snapshots: seq<Snapshot>)
    ensures match FindActive(snapshots)
            case None => forall i :: 0 <= i < |snapshots| ==> snapshots[i].status != Active
            case Some(i) => i < |snapshots| && snapshots[i].status == Active
  {
    if snapshots != [] {
      FindActiveMeaning(snapshots[..|snapshots| - 1]);
    }
  }

  lemma {:induction false} FindByRunMeaning(snapshots: seq<Snapshot>, runId: nat)
    ensures match FindByRun(snapshots, runId)
            case None => forall i :: 0 <= i < |snapshots| ==> snapshots[i].runId != runId
            case Some(i) => i < |snapshots| && snapshots[i].runId == runId
  {
    if snapshots != [] {
      FindByRunMeaning(snapshots[..|snapshots| - 1], runId);
    }
  }

  // Inheritance

  const INHERITABLE_WARNINGS := {
    "NO_ACTIVE_SUBMISSION_FORMS",
    "UNOBSERVABLE_SURFACE:active_submission_sections",
    "UNOBSERVABLE_SURFACE:active_submission_sections:HTTP_204"}
  const EXPECTED_FORMS := ["traditionalpageone", "traditionalpagetwo"]
  const TRADITIONAL := Str("traditional")
  const RESOLVABLE_SURFACE := "active_submission_sections"
  const SUBMISSION_FORM := Str("submission-form")

  /** The binding with its section order counted among the expected forms, if it can be. */
  function NormalizedBinding(b: Binding): Option<Binding> {
    if b.form !in EXPECTED_FORMS || |b.position| != 4 then None
    else Some(b.(position := [if b.form == EXPECTED_FORMS[0] then 0 else 1] + b.position[1..]))
  }

  function NormalizeAll(bindings: seq<Binding>): Option<seq<Binding>> {
    if bindings == [] then Some([])
    else
      match (NormalizeAll(bindings[..|bindings| - 1]), NormalizedBinding(bindings[|bindings| - 1]))
      case (Some(front), Some(last)) => Some(front + [last])
      case _ => None
  }

  function NormalizedBindings(bindings: seq<Binding>): Option<seq<Binding>> {
    match NormalizeAll(bindings)
    case None => None
    case Some(normalized) => Some(Sort(normalized, KeyOrder()))
  }

  function FormOfSection(): SectionEntry -> Option<Option<string>> {
    (s: SectionEntry) => if s.sectionType == SUBMISSION_FORM then Some(s.configForm) else None
  }

  function FormsOfSections(sections: seq<SectionEntry>): seq<Option<string>> {
    FilterMap(sections, FormOfSection())
  }

  /** The forms' bindings as this run's own form pages give them. */
  function ReprovedBindings(observed: Canonical, pages: Pages): Bindings {
    CanonicalBindings(SurfaceItems(pages, SubmissionForms), EXPECTED_FORMS, RegistryNames(observed.fields))
  }

  predicate OnlyInheritable(warnings: seq<string>) {
    forall i :: 0 <= i < |warnings| ==> warnings[i] in INHERITABLE_WARNINGS
  }

  /** The active snapshot has an approved resolution, and nothing else than what it resolves was unobservable. */
  predicate InheritanceConsidered(active: Snapshot, observed: View) {
    && active.effectiveHash.Some?
    && active.resolutionSurface == Some(RESOLVABLE_SURFACE)
    && OnlyInheritable(observed.warnings)
    && observed.canonical.activeDefinition == TRADITIONAL
    && FormsOfSections(GovernedCanonical(active).sections) == [Some(EXPECTED_FORMS[0]), Some(EXPECTED_FORMS[1])]
  }

  /** The run proves again, from its own pages, all that the approved resolution was about. */
  predicate Reproved(active: Snapshot, observed: View, pages: Pages) {
    var approved, reproved := GovernedCanonical(active), ReprovedBindings(observed.canonical, pages);
    && InheritanceConsidered(active, observed)
    && reproved.warnings == []
    && observed.canonical.schemas == approved.schemas
    && observed.canonical.fields == approved.fields
    && NormalizedBindings(reproved.bindings).Some?
    && NormalizedBindings(reproved.bindings) == NormalizedBindings(approved.bindings)
  }

  /** `build_inherited_effective_snapshot`. */
  function Inherited(active: Snapshot, observed: View, pages: Pages): Option<View> {
    if !Reproved(active, observed, pages) then None
    else
      var approved := GovernedCanonical(active);
      var effective := observed.canonical.(sections := approved.sections, bindings := approved.bindings);
      Some(View(effective, JsonHash(effective), true, []))
  }

  /** `apply_inherited_resolution`. */
  function ApplyInherited(
    record: Snapshot, active: Snapshot, activeId: nat, inherited: View): Result<Snapshot, Reason>
  {
    if record.effectiveHash.Some? then
      if record.effectiveHash == Some(inherited.semanticHash) && record.inheritedFrom == Some(activeId) then Ok(record)
      else Err("inherited_resolution_conflict")
    else
      Ok(record.(
         effectiveHash := Some(inherited.semanticHash),
         effectiveCanonical := Some(inherited.canonical),
         resolutionSurface := active.resolutionSurface,
         resolutionSourceHash := active.resolutionSourceHash,
         resolutionReconciliationHash := active.resolutionReconciliationHash,
         inheritedFrom := Some(activeId),
         resolvedBy := Some("SYSTEM_INHERITED")))
  }

  // Materialization

  function NewRecord(runId: nat, observed: View, status: SnapshotStatus, changes: seq<Change>): Snapshot {
    Snapshot(runId, status, observed.semanticHash, observed.complete, observed.canonical, observed.warnings, changes,
             None, None, None, None, None, None, None, None, None)
  }

  /** `persist_snapshot`: one snapshot per run; the same observation again changes nothing. */
  function Persist(snapshots: seq<Snapshot>, record: Snapshot): Result<(seq<Snapshot>, nat), Reason> {
    match FindByRun(snapshots, record.runId)
    case None => Ok((snapshots + [record], |snapshots|))
    case Some(i) =>
      if i < |snapshots| && snapshots[i].semanticHash == record.semanticHash then Ok((snapshots, i))
      else Err("contract_snapshot_conflict")
  }

  /** What a run is compared as: itself, or the approved contract it reproves. */
  function InheritedFor(snapshots: seq<Snapshot>, observed: View, pages: Pages): Option<View> {
    match FindActive(snapshots)
    case None => None
    case Some(i) => if i < |snapshots| && !observed.complete then Inherited(snapshots[i], observed, pages) else None
  }

  function ChangesAgainst(snapshots: seq<Snapshot>, comparison: View): seq<Change> {
    match FindActive(snapshots)
    case None => []
    case Some(i) => if i < |snapshots| then Diff(AsView(snapshots[i]), comparison) else []
  }

  function StatusAgainst(snapshots: seq<Snapshot>, comparison: View): SnapshotStatus {
    var hash := match FindActive(snapshots)
                case None => None
                case Some(i) => if i < |snapshots| then Some(GovernedHash(snapshots[i])) else None;
    ClassifySnapshotStatus(hash, comparison, ChangesAgainst(snapshots, comparison))
  }

  ghost function ObservedView(run: Run): View {
    SnapshotOf(LoadedPages(run.pages))
  }

  /** The table after a record, and the resolution it inherits if any, are written. */
  function RecordRows(
    snapshots: seq<Snapshot>, record: Snapshot, inherited: Option<View>): Result<(seq<Snapshot>, nat), Reason>
  {
    match Persist(snapshots, record)
    case Err(why) => Err(why)
    case Ok((rows, id)) =>
      var active := FindActive(snapshots);
      if inherited.None? || active.None? || id >= |rows| || active.value >= |snapshots| then Ok((rows, id))
      else
        match ApplyInherited(rows[id], snapshots[active.value], active.value, inherited.value)
        case Err(why) => Err(why)
        case Ok(resolved) => Ok((rows[id := resolved], id))
  }

  /** The table after the observation of one run is recorded. */
  function MaterializeRows(
    snapshots: seq<Snapshot>, runId: nat, observed: View, pages: Pages): Result<(seq<Snapshot>, nat), Reason>
  {
    var inherited := InheritedFor(snapshots, observed, pages);
    var comparison := inherited.GetOr(observed);
    var record :=
      NewRecord(runId, observed, StatusAgainst(snapshots, comparison), ChangesAgainst(snapshots, comparison));
    RecordRows(snapshots, record, inherited)
  }

  /** How a COMPLETE run reads as a contract. */
  type Reading = Run -> View

  /** `materialize_snapshot_for_run`; an error rolls everything back. */
  function MaterializeAs(state: State, runId: nat, reading: Reading): Decision {
    if runId >= |state.runs| then Decision(state, Err("contract_sync_run_not_found"))
    else if state.runs[runId].status != Complete then Decision(state, Err("contract_sync_run_not_complete"))
    else
      var run := state.runs[runId];
      match MaterializeRows(state.snapshots, runId, reading(run), LoadedPages(run.pages))
      case Err(why) => Decision(state, Err(why))
      case Ok((rows, id)) => Decision(state.(snapshots := rows), Ok(id))
  }

  /** The same, reading runs the way `build_contract_snapshot` does. */
  ghost function Materialize(state: State, runId: nat): Decision {
    MaterializeAs(state, runId, ObservedView)
  }

  // Resolution

  /** What the reviewed field profile expects of the binding at one place. */
  datatype ExpectedField = ExpectedField(
    metadata: string, fieldLabel: Json, selectorLabel: Json, required: bool, repeatable: bool, vocabulary: Json)

  const FIRST_FORM_COUNT := 44
  const SECOND_FORM_COUNT := 12

  datatype Overlay = Overlay(sections: seq<SectionEntry>, bindings: seq<Binding>)

  datatype Resolution = Resolution(
    snapshotId: nat,
    expectedSnapshotHash: Digest<Canonical>,
    expectedEffectiveHash: Digest<Canonical>,
    sourceExportHash: string,
    reconciliationHash: string,
    overlay: Overlay,
    resolvedBy: string)

  predicate IsSha256(text: string) {
    |text| == 64 && forall c :: c in text ==> c in "0123456789abcdefABCDEF"
  }

  function CountForm(bindings: seq<Binding>, form: string): nat {
    if bindings == [] then 0
    else CountForm(bindings[..|bindings| - 1], form) + if bindings[|bindings| - 1].form == form then 1 else 0
  }

  function MetadataOf(bindings: seq<Binding>): set<string> {
    set i | 0 <= i < |bindings| :: bindings[i].metadata
  }

  function ExpectedMetadata(profile: seq<ExpectedField>): set<string> {
    set i | 0 <= i < |profile| :: profile[i].metadata
  }

  function ConfigForms(sections: seq<SectionEntry>): seq<Option<string>> {
    seq(|sections|, i requires 0 <= i < |sections| => sections[i].configForm)
  }

  function BindingKeys(bindings: seq<Binding>): seq<string> {
    seq(|bindings|, i requires 0 <= i < |bindings| => bindings[i].bindingKey)
  }

  /** What is wrong with the binding rendered at place `index`, if anything. */
  function PlaceError(binding: Binding, expected: ExpectedField, index: nat): Option<Reason> {
    if binding.form != (if index < FIRST_FORM_COUNT then EXPECTED_FORMS[0] else EXPECTED_FORMS[1]) then
      Some("resolved_binding_form_order_mismatch")
    else if binding.metadata != expected.metadata then Some("resolved_binding_metadata_mismatch")
    else if binding.fieldLabel != expected.fieldLabel then Some("resolved_binding_label_mismatch")
    else if binding.selectorLabel != expected.selectorLabel then Some("resolved_binding_selector_label_mismatch")
    else if binding.required != expected.required then Some("resolved_binding_required_mismatch")
    else if binding.repeatable != expected.repeatable then Some("resolved_binding_repeatable_mismatch")
    else if binding.controlledVocabulary != expected.vocabulary then Some("resolved_binding_vocabulary_mismatch")
    else None
  }

  function PlacesError(ordered: seq<Binding>, profile: seq<ExpectedField>, n: nat): Option<Reason>
    requires n <= |ordered| == |profile|
  {
    if n == 0 then None
    else
      match PlacesError(ordered, profile, n - 1)
      case Some(why) => Some(why)
      case None => PlaceError(ordered[n - 1], profile[n - 1], n - 1)
  }

  /** The checks made before the bindings are compared place by place. */
  function OverlayShapeError(s: Snapshot, overlay: Overlay, profile: seq<ExpectedField>): Option<Reason> {
    var bindings := overlay.bindings;
    var keys, metadata := BindingKeys(bindings), MetadataOf(bindings);
    if s.complete then Some("complete_snapshot_does_not_require_resolution")
    else if s.status == Active then Some("active_snapshot_resolution_is_immutable")
    else if !OnlyInheritable(s.warnings) then Some("snapshot_has_unresolved_non_204_warnings")
    else if s.canonical.activeDefinition != TRADITIONAL then Some("unsupported_active_definition")
    else if |overlay.sections| != 2 then Some("resolved_sections_must_contain_two_forms")
    else if ConfigForms(overlay.sections) != [Some(EXPECTED_FORMS[0]), Some(EXPECTED_FORMS[1])] then
      Some("resolved_section_form_order_mismatch")
    else if |bindings| != |profile| then Some("resolved_binding_count_mismatch")
    else if "" in keys then Some("resolved_binding_key_missing")
    else if |Dedup(keys)| != |keys| then Some("resolved_binding_key_duplicate")
    else if CountForm(bindings, EXPECTED_FORMS[0]) != FIRST_FORM_COUNT
         || CountForm(bindings, EXPECTED_FORMS[1]) != SECOND_FORM_COUNT
         || |bindings| != FIRST_FORM_COUNT + SECOND_FORM_COUNT then Some("resolved_form_binding_counts_mismatch")
    else if |metadata| != |ExpectedMetadata(profile)| then Some("resolved_unique_metadata_count_mismatch")
    else if !(metadata <= RegistryNames(s.canonical.fields)) then Some("resolved_binding_metadata_not_in_registry")
    else None
  }

  /** `validate_reconciled_overlay`: the first check an overlay fails. */
  function OverlayError(s: Snapshot, overlay: Overlay, profile: seq<ExpectedField>): Option<Reason> {
    match OverlayShapeError(s, overlay, profile)
    case Some(why) => Some(why)
    case None =>
      var ordered := Sort(overlay.bindings, PositionOrder());
      if |ordered| != |profile| then Some("resolved_binding_order_mismatch")
      else PlacesError(ordered, profile, |profile|)
  }

  function EffectiveCanonical(observed: Canonical, overlay: Overlay): Canonical {
    observed.(sections := overlay.sections, bindings := Sort(overlay.bindings, KeyOrder()))
  }

  predicate IsObservation204(payload: Json) {
    var observation := Get(payload, "_observation");
    observation.Obj? && Get(observation, "observable") == Bool(false) && Get(observation, "statusCode") == Num(204)
  }

  /** The run's only page of active sections is the record that the server answered 204. */
  predicate Observed204(run: Run) {
    var rows := ContractPages.RowsOf(run.pages, ActiveSections);
    |rows| == 1 && IsObservation204(rows[0].payload)
  }

  function ResolvedStatus(snapshots: seq<Snapshot>, status: SnapshotStatus): SnapshotStatus {
    if FindActive(snapshots).None? then BaselineReviewRequired
    else if status == ReviewRequired || status == DiffDetected then status
    else ReviewRequired
  }

  predicate AlreadyResolved(s: Snapshot, r: Resolution) {
    && s.effectiveHash == Some(r.expectedEffectiveHash)
    && s.resolutionSourceHash == Some(r.sourceExportHash)
    && s.resolutionReconciliationHash == Some(r.reconciliationHash)
  }

  function WithResolution(s: Snapshot, effective: Canonical, r: Resolution, status: SnapshotStatus): Snapshot {
    s.(effectiveHash := Some(JsonHash(effective)),
       effectiveCanonical := Some(effective),
       resolutionSurface := Some(RESOLVABLE_SURFACE),
       resolutionSourceHash := Some(r.sourceExportHash),
       resolutionReconciliationHash := Some(r.reconciliationHash),
       resolvedBy := Some(r.resolvedBy),
       status := status)
  }

  /** The row after a resolution, or why it is refused. */
  function ResolveRow(
    s: Snapshot, snapshots: seq<Snapshot>, run: Run, r: Resolution, profile: seq<ExpectedField>): Result<Snapshot,
    Reason>
  {
    if s.semanticHash != r.expectedSnapshotHash then Err("snapshot_hash_mismatch")
    else if s.effectiveHash.Some? then
      if AlreadyResolved(s, r) then Ok(s) else Err("authoritative_resolution_conflict")
    else if !Observed204(run) then Err("missing_authoritative_http_204_observation")
    else
      match OverlayError(s, r.overlay, profile)
      case Some(why) => Err(why)
      case None =>
        var effective := EffectiveCanonical(s.canonical, r.overlay);
        if JsonHash(effective) != r.expectedEffectiveHash then Err("effective_contract_hash_mismatch")
        else Ok(WithResolution(s, effective, r, ResolvedStatus(snapshots, s.status)))
  }

  /** `resolve_authoritative_evidence`. */
  function Resolve(state: State, r: Resolution, profile: seq<ExpectedField>): Decision {
    if !IsSha256(r.sourceExportHash) || !IsSha256(r.reconciliationHash) then Decision(state, Err("invalid_sha256"))
    else if r.snapshotId >= |state.snapshots| then Decision(state, Err("snapshot_not_found"))
    else
      var s := state.snapshots[r.snapshotId];
      var run := if s.runId < |state.runs| then state.runs[s.runId] else NEW_RUN;
      match ResolveRow(s, state.snapshots, run, r, profile)
      case Err(why) => Decision(state, Err(why))
      case Ok(resolved) => Decision(state.(snapshots := state.snapshots[r.snapshotId := resolved]), Ok(r.snapshotId))
  }

  // Approval

  datatype Approval = Approval(snapshotId: nat, expectedHash: Digest<Canonical>, approvedBy: string)

  datatype Transition = Baseline | Promotion | Idempotent

  /** `validate_approval_transition`. */
  function ValidateApprovalTransition(
    candidate: Snapshot, hasActive: bool, expectedHash: Digest<Canonical>): Result<Transition, Reason>
  {
    if GovernedHash(candidate) != expectedHash then Err("snapshot_hash_mismatch")
    else if !GovernanceComplete(candidate) then Err("incomplete_snapshot_cannot_be_approved")
    else if candidate.status == Active then
      if candidate.approvedHash != Some(expectedHash) then Err("active_snapshot_audit_mismatch") else Ok(Idempotent)
    else if !hasActive then
      if candidate.status != BaselineReviewRequired then Err("baseline_candidate_required") else Ok(Baseline)
    else if candidate.status != DiffDetected && candidate.status != ReviewRequired then
      Err("reviewed_snapshot_required")
    else Ok(Promotion)
  }

  function Approved(candidate: Snapshot, a: Approval): Snapshot {
    candidate.(status := Active, approvedBy := Some(a.approvedBy), approvedHash := Some(a.expectedHash))
  }

  function Supersede(snapshots: seq<Snapshot>, active: Option<nat>): seq<Snapshot> {
    match active
    case None => snapshots
    case Some(i) => if i < |snapshots| then snapshots[i := snapshots[i].(status := Superseded)] else snapshots
  }

  /** `approve_snapshot`. */
  function Approve(state: State, a: Approval): Decision {
    if a.snapshotId >= |state.snapshots| then Decision(state, Err("snapshot_not_found"))
    else
      var candidate, active := state.snapshots[a.snapshotId], FindActive(state.snapshots);
      match ValidateApprovalTransition(candidate, active.Some?, a.expectedHash)
      case Err(why) => Decision(state, Err(why))
      case Ok(Idempotent) => Decision(state, Ok(a.snapshotId))
      case Ok(_) =>
        var rows := Supersede(state.snapshots, active);
        if a.snapshotId >= |rows| then Decision(state, Err("snapshot_not_found"))
        else Decision(state.(snapshots := rows[a.snapshotId := Approved(candidate, a)]), Ok(a.snapshotId))
  }
}
