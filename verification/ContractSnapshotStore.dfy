/** The snapshot table as the service updates it: each method does what the governance functions say. */
module ContractSnapshotStore {
  import opened JsonValues
  import opened Ordering
  import opened ContractStore
  import ContractPages
  import opened SubmissionBindings
  import opened BindingIdentity
  import opened ContractSnapshot
  import opened ContractDiff
  import opened ContractClassification
  import opened ContractGovernance

  /** `_normalized_bindings`: one binding that cannot be normalized rejects them all. */
  method BuildNormalizedBindings(bindings: seq<Binding>) returns (result: Option<seq<Binding>>)
    ensures result == NormalizedBindings(bindings)
  {
    var normalized: seq<Binding> := [];
    for i := 0 to |bindings|
      invariant NormalizeAll(bindings[..i]) == Some(normalized)
    {
      assert bindings[..i + 1][..i] == bindings[..i];
      var value := NormalizedBinding(bindings[i]);
      if value.None? {
        NothingNormalizes(bindings, i + 1);
        return None;
      }
      normalized := normalized + [value.value];
    }
    assert bindings[..|bindings|] == bindings;
    result := Some(Sort(normalized, KeyOrder()));
  }

  lemma {:induction false} NothingNormalizes(bindings: seq<Binding>, n: nat)
    requires n <= |bindings| && NormalizeAll(bindings[..n]).None?
    ensures NormalizeAll(bindings).None?
  {
    if n < |bindings| {
      assert bindings[..|bindings| - 1][..n] == bindings[..n];
      NothingNormalizes(bindings[..|bindings| - 1], n);
    } else {
      assert bindings[..n] == bindings;
    }
  }

  /** The last loop of `validate_reconciled_overlay`: place by place, against the reviewed profile. */
  method CheckPlaces(ordered: seq<Binding>, profile: seq<ExpectedField>) returns (error: Option<Reason>)
    requires |ordered| == |profile|
    ensures error == PlacesError(ordered, profile, |profile|)
  {
    for i := 0 to |profile|
      invariant PlacesError(ordered, profile, i) == None
    {
      error := PlaceError(ordered[i], profile[i], i);
      if error.Some? {
        FirstErrorStays(ordered, profile, i + 1, |profile|);
        return;
      }
    }
    error := None;
  }

  lemma {:induction false} FirstErrorStays(ordered: seq<Binding>, profile: seq<ExpectedField>, m: nat, n: nat)
    requires m <= n <= |ordered| == |profile| && PlacesError(ordered, profile, m).Some?
    ensures PlacesError(ordered, profile, n) == PlacesError(ordered, profile, m)
  {
    if m < n {
      FirstErrorStays(ordered, profile, m, n - 1);
    }
  }

  /** `validate_reconciled_overlay`. */
  method ValidateReconciledOverlay(
    s: Snapshot, overlay: Overlay, profile: seq<ExpectedField>) returns (error: Option<Reason>)
    ensures error == OverlayError(s, overlay, profile)
  {
    var early := OverlayShapeError(s, overlay, profile);
    if early.Some? {
      return early;
    }
    var ordered := Sort(overlay.bindings, PositionOrder());
    if |ordered| != |profile| {
      return Some("resolved_binding_order_mismatch");
    }
    error := CheckPlaces(ordered, profile);
  }

  /** `build_inherited_effective_snapshot`. */
  method BuildInheritedEffectiveSnapshot(
    active: Snapshot, observed: View, pages: Pages) returns (inherited: Option<View>)
    ensures inherited == Inherited(active, observed, pages)
  {
    var approved := GovernedCanonical(active);
    if !InheritanceConsidered(active, observed) {
      return None;
    }
    var current := BuildCanonicalBindings(
      SurfaceItems(pages, SubmissionForms), EXPECTED_FORMS, RegistryNames(observed.canonical.fields));
    if current.warnings != [] {
      return None;
    }
    if observed.canonical.schemas != approved.schemas || observed.canonical.fields != approved.fields {
      return None;
    }
    var normalizedCurrent := BuildNormalizedBindings(current.bindings);
    var normalizedActive := BuildNormalizedBindings(approved.bindings);
    if normalizedCurrent.None? || normalizedActive.None? || normalizedCurrent != normalizedActive {
      return None;
    }
    var effective := observed.canonical.(sections := approved.sections, bindings := approved.bindings);
    inherited := Some(View(effective, JsonHash(effective), true, []));
  }

  /** `persist_snapshot`, then `apply_inherited_resolution` on the row it gives. */
  method RecordSnapshot(snapshots: seq<Snapshot>, record: Snapshot, inherited: Option<View>)
    returns (written: Result<(seq<Snapshot>, nat), Reason>)
    requires inherited.Some? ==> FindActive(snapshots).Some?
    ensures written == RecordRows(snapshots, record, inherited)
  {
    var persisted := Persist(snapshots, record);
    FindActiveMeaning(snapshots);
    FindByRunMeaning(snapshots, record.runId);
    if persisted.Err? || inherited.None? {
      return persisted;
    }
    var (rows, id) := persisted.value;
    var active := FindActive(snapshots).value;
    var resolved := ApplyInherited(rows[id], snapshots[active], active, inherited.value);
    if resolved.Err? {
      return Err(resolved.error);
    }
    written := Ok((rows[id := resolved.value], id));
  }

  /** The snapshot a run is recorded as, and the view it inherits if it does. */
  method CompareWithActive(snapshots: seq<Snapshot>, runId: nat, observed: View, pages: Pages)
    returns (record: Snapshot, inherited: Option<View>)
    ensures inherited == InheritedFor(snapshots, observed, pages)
    ensures var comparison := inherited.GetOr(observed);
            record == NewRecord(runId, observed, StatusAgainst(snapshots, comparison),
              ChangesAgainst(snapshots, comparison))
  {
    var active := FindActive(snapshots);
    FindActiveMeaning(snapshots);
    inherited := None;
    if active.Some? && !observed.complete {
      inherited := BuildInheritedEffectiveSnapshot(snapshots[active.value], observed, pages);
    }
    var comparison := inherited.GetOr(observed);
    var changes: seq<Change> := [];
    var hash: Option<Digest<Canonical>> := None;
    if active.Some? {
      changes := DiffContractSnapshots(AsView(snapshots[active.value]), comparison);
      hash := Some(GovernedHash(snapshots[active.value]));
    }
    record := NewRecord(runId, observed, ClassifySnapshotStatus(hash, comparison, changes), changes);
  }

  method ObserveAndRecord(
    snapshots: seq<Snapshot>, runId: nat, run: Run) returns (written: Result<(seq<Snapshot>, nat), Reason>)
    ensures written == MaterializeRows(snapshots, runId, ObservedView(run), ContractPages.LoadedPages(run.pages))
  {
    var pages := ContractPages.LoadPagesBySurface(run.pages);
    var observed := BuildContractSnapshot(pages);
    var record, inherited := CompareWithActive(snapshots, runId, observed, pages);
    FindActiveMeaning(snapshots);
    written := RecordSnapshot(snapshots, record, inherited);
  }

  lemma MaterializeUnfolds(state: State, runId: nat, written: Result<(seq<Snapshot>, nat), Reason>)
    requires runId < |state.runs| && state.runs[runId].status == Complete
    requires var run := state.runs[runId];
             written == MaterializeRows(state.snapshots, runId, ObservedView(run), ContractPages.LoadedPages(run.pages))
    ensures Materialize(state, runId) ==
            match written
            case Err(why) => Decision(state, Err(why))
            case Ok((rows, id)) => Decision(State(state.runs, rows), Ok(id))
  {
  }

  /** The new tables and the answer; an error leaves the tables as they were. */
  method MaterializeTables(state: State, runId: nat) returns (decision: Decision)
    ensures decision == Materialize(state, runId)
  {
    if runId >= |state.runs| {
      return Decision(state, Err("contract_sync_run_not_found"));
    }
    if state.runs[runId].status != Complete {
      return Decision(state, Err("contract_sync_run_not_complete"));
    }
    var written := ObserveAndRecord(state.snapshots, runId, state.runs[runId]);
    MaterializeUnfolds(state, runId, written);
    decision := match written
      case Err(why) => Decision(state, Err(why))
      case Ok((rows, id)) => Decision(State(state.runs, rows), Ok(id));
  }

  lemma MaterializeLeavesRuns(state: State, runId: nat)
    ensures Materialize(state, runId).state.runs == state.runs
  {
  }

  class SnapshotStore {
    var runs: seq<Run>
    var snapshots: seq<Snapshot>

    function Table(): State
      reads this
    {
      State(runs, snapshots)
    }

    constructor ()
      ensures Table() == State([], [])
    {
      runs, snapshots := [], [];
    }

    method MaterializeSnapshotForRun(runId: nat) returns (result: Result<nat, Reason>)
      modifies this
      ensures Decision(Table(), result) == Materialize(old(Table()), runId)
    {
      var decision := MaterializeTables(Table(), runId);
      MaterializeLeavesRuns(Table(), runId);
      snapshots := decision.state.snapshots;
      result := decision.result;
    }

    method ResolveAuthoritativeEvidence(
      r: Resolution, profile: seq<ExpectedField>) returns (result: Result<nat, Reason>)
      modifies this
      ensures Decision(Table(), result) == Resolve(old(Table()), r, profile)
    {
      if !IsSha256(r.sourceExportHash) || !IsSha256(r.reconciliationHash) {
        return Err("invalid_sha256");
      }
      if r.snapshotId >= |snapshots| {
        return Err("snapshot_not_found");
      }
      var s := snapshots[r.snapshotId];
      var run := if s.runId < |runs| then runs[s.runId] else NEW_RUN;
      if s.semanticHash != r.expectedSnapshotHash {
        return Err("snapshot_hash_mismatch");
      }
      if s.effectiveHash.Some? {
        if AlreadyResolved(s, r) {
          return Ok(r.snapshotId);
        }
        return Err("authoritative_resolution_conflict");
      }
      if !Observed204(run) {
        return Err("missing_authoritative_http_204_observation");
      }
      var error := ValidateReconciledOverlay(s, r.overlay, profile);
      if error.Some? {
        return Err(error.value);
      }
      var effective := EffectiveCanonical(s.canonical, r.overlay);
      if JsonHash(effective) != r.expectedEffectiveHash {
        return Err("effective_contract_hash_mismatch");
      }
      var status := s.status;
      if FindActive(snapshots).None? {
        status := BaselineReviewRequired;
      } else if status != ReviewRequired && status != DiffDetected {
        status := ReviewRequired;
      }
      snapshots := snapshots[r.snapshotId := WithResolution(s, effective, r, status)];
      result := Ok(r.snapshotId);
    }

    method ApproveSnapshot(a: Approval) returns (result: Result<nat, Reason>)
      modifies this
      ensures Decision(Table(), result) == Approve(old(Table()), a)
    {
      if a.snapshotId >= |snapshots| {
        return Err("snapshot_not_found");
      }
      var active := FindActive(snapshots);
      FindActiveMeaning(snapshots);
      var candidate := snapshots[a.snapshotId];
      var transition := ValidateApprovalTransition(candidate, active.Some?, a.expectedHash);
      if transition.Err? {
        return Err(transition.error);
      }
      if transition.value == Idempotent {
        return Ok(a.snapshotId);
      }
      if transition.value == Promotion && active.Some? {
        snapshots := snapshots[active.value := snapshots[active.value].(status := Superseded)];
      }
      snapshots := snapshots[a.snapshotId := Approved(candidate, a)];
      result := Ok(a.snapshotId);
    }
  }
}
