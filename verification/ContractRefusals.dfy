/** For which reason approval and resolution refuse, in a governed table. */
module ContractRefusals {
  import opened JsonValues
  import opened Ordering
  import opened SubmissionBindings
  import opened BindingIdentity
  import opened ContractSnapshot
  import opened ContractClassification
  import opened ContractGovernance
  import opened ContractOverlay
  import opened ContractLifecycle
  import opened ContractDecisions

  /**
    A refused approval names the first of these that applies; an ACTIVE row is never found to differ from its
    approval.
   */
  lemma ApprovalRefused(state: State, a: Approval, reading: Reading)
    requires Governed(state, reading) && Hashes(reading) && !Approvable(state, a)
    ensures Approve(state, a) == Decision(state, Err(
              if a.snapshotId >= |state.snapshots| then "snapshot_not_found"
              else if a.expectedHash != Sha256(ContractOf(state.snapshots[a.snapshotId])) then "snapshot_hash_mismatch"
              else if !Governable(state.snapshots[a.snapshotId]) then "incomplete_snapshot_cannot_be_approved"
              else if NoneInForce(state.snapshots) then "baseline_candidate_required"
              else "reviewed_snapshot_required"))
  {
    if a.snapshotId < |state.snapshots| {
      assert RowSound(state, state.snapshots[a.snapshotId], reading);
      NoneInForceMeans(state.snapshots);
      FindActiveMeaning(state.snapshots);
    }
  }

  /** The snapshot is not one that an overlay may be laid over. */
  ghost predicate SnapshotFault(s: Snapshot, why: Reason) {
    if s.complete then why == "complete_snapshot_does_not_require_resolution"
    else if s.status == Active then why == "active_snapshot_resolution_is_immutable"
    else if !OnlyInheritable(s.warnings) then why == "snapshot_has_unresolved_non_204_warnings"
    else s.canonical.activeDefinition != Str("traditional") && why == "unsupported_active_definition"
  }

  /** The overlay is not made of the two forms and of as many bindings, each with a key of its own, as are expected. */
  ghost predicate ShapeFault(s: Snapshot, overlay: Overlay, profile: seq<ExpectedField>, why: Reason) {
    var keys := BindingKeys(overlay.bindings);
    if |overlay.sections| != 2 then why == "resolved_sections_must_contain_two_forms"
    else if !UsesExpectedForms(overlay.sections) then why == "resolved_section_form_order_mismatch"
    else if |overlay.bindings| != |profile| then why == "resolved_binding_count_mismatch"
    else if (exists b :: b in overlay.bindings && b.bindingKey == "") then why == "resolved_binding_key_missing"
    else if !Distinct(keys) then why == "resolved_binding_key_duplicate"
    else if !FormsInNumber(overlay.bindings) then why == "resolved_form_binding_counts_mismatch"
    else if |MetadataOf(overlay.bindings)| != |ExpectedMetadata(profile)| then
      why == "resolved_unique_metadata_count_mismatch"
    else
      && (exists b :: b in overlay.bindings && b.metadata !in RegistryNames(s.canonical.fields))
      && why == "resolved_binding_metadata_not_in_registry"
  }

  predicate UsesExpectedForms(sections: seq<SectionEntry>) {
    && |sections| == 2
    && sections[0].configForm == Some("traditionalpageone") && sections[1].configForm == Some("traditionalpagetwo")
  }

  /** Forty-four bindings are on the first form, twelve on the second, and none elsewhere. */
  predicate FormsInNumber(bindings: seq<Binding>) {
    && |bindings| == 56
    && CountForm(bindings, "traditionalpageone") == 44 && CountForm(bindings, "traditionalpagetwo") == 12
  }

  /** The first place that does not match, and the first attribute that does not match there. */
  ghost predicate PlaceFault(ordered: seq<Binding>, profile: seq<ExpectedField>, i: int, why: Reason) {
    && 0 <= i < |ordered| && i < |profile|
    && AllMatch(ordered, profile, i)
    && !Matches(ordered[i], profile[i], i)
    && AttributeFault(ordered[i], profile[i], i, why)
  }

  predicate AttributeFault(b: Binding, e: ExpectedField, index: nat, why: Reason) {
    if b.form != FormAt(index) then why == "resolved_binding_form_order_mismatch"
    else if b.metadata != e.metadata then why == "resolved_binding_metadata_mismatch"
    else if b.fieldLabel != e.fieldLabel then why == "resolved_binding_label_mismatch"
    else if b.selectorLabel != e.selectorLabel then why == "resolved_binding_selector_label_mismatch"
    else if b.required != e.required then why == "resolved_binding_required_mismatch"
    else if b.repeatable != e.repeatable then why == "resolved_binding_repeatable_mismatch"
    else b.controlledVocabulary != e.vocabulary && why == "resolved_binding_vocabulary_mismatch"
  }

  lemma AttributeFaultNamed(b: Binding, e: ExpectedField, index: nat)
    ensures match PlaceError(b, e, index)
            case Some(why) => !Matches(b, e, index) && AttributeFault(b, e, index, why)
            case None => Matches(b, e, index)
  {
  }

  lemma {:induction false} PlacesFault(ordered: seq<Binding>, profile: seq<ExpectedField>, n: nat, why: Reason)
    requires n <= |ordered| == |profile| && PlacesError(ordered, profile, n) == Some(why)
    ensures exists i :: PlaceFault(ordered, profile, i, why)
  {
    if PlacesError(ordered, profile, n - 1).Some? {
      PlacesFault(ordered, profile, n - 1, why);
    } else {
      PlacesErrorIff(ordered, profile, n - 1);
      AttributeFaultNamed(ordered[n - 1], profile[n - 1], n - 1);
      assert PlaceFault(ordered, profile, n - 1, why);
    }
  }

  lemma SnapshotFaultNamed(s: Snapshot, overlay: Overlay, profile: seq<ExpectedField>)
    requires !Resolvable(s)
    ensures OverlayShapeError(s, overlay, profile).Some?
    ensures SnapshotFault(s, OverlayShapeError(s, overlay, profile).value)
  {
  }

  lemma BlankKeyIff(bindings: seq<Binding>)
    ensures "" in BindingKeys(bindings) <==> exists b :: b in bindings && b.bindingKey == ""
  {
    if "" in BindingKeys(bindings) {
      var i :| 0 <= i < |bindings| && BindingKeys(bindings)[i] == "";
      assert bindings[i] in bindings;
    }
    if b :| b in bindings && b.bindingKey == "" {
      var i :| 0 <= i < |bindings| && bindings[i] == b;
      assert BindingKeys(bindings)[i] == "";
    }
  }

  lemma UnregisteredIff(bindings: seq<Binding>, names: set<string>)
    ensures !(MetadataOf(bindings) <= names) <==> exists b :: b in bindings && b.metadata !in names
  {
    if m :| m in MetadataOf(bindings) && m !in names {
      var i :| 0 <= i < |bindings| && bindings[i].metadata == m;
      assert bindings[i] in bindings;
    }
    if b :| b in bindings && b.metadata !in names {
      var i :| 0 <= i < |bindings| && bindings[i] == b;
      assert bindings[i].metadata in MetadataOf(bindings);
    }
  }

  lemma ExpectedFormsIff(sections: seq<SectionEntry>)
    requires |sections| == 2
    ensures ConfigForms(sections) == [Some(EXPECTED_FORMS[0]), Some(EXPECTED_FORMS[1])] <==> UsesExpectedForms(sections)
  {
    assert ConfigForms(sections) == [sections[0].configForm, sections[1].configForm];
  }

  lemma ShapeFaultNamed(s: Snapshot, overlay: Overlay, profile: seq<ExpectedField>)
    requires Resolvable(s) && OverlayShapeError(s, overlay, profile).Some?
    ensures ShapeFault(s, overlay, profile, OverlayShapeError(s, overlay, profile).value)
  {
    BlankKeyIff(overlay.bindings);
    DedupLength(BindingKeys(overlay.bindings));
    UnregisteredIff(overlay.bindings, RegistryNames(s.canonical.fields));
    if |overlay.sections| == 2 {
      ExpectedFormsIff(overlay.sections);
    }
  }

  /** A refused overlay is refused for the first fault of the snapshot, of its own shape, or of a place in it. */
  lemma OverlayRefused(s: Snapshot, overlay: Overlay, profile: seq<ExpectedField>)
    requires !Reconciled(s, overlay, profile)
    ensures OverlayError(s, overlay, profile).Some?
    ensures var why := OverlayError(s, overlay, profile).value;
            || SnapshotFault(s, why)
            || (Resolvable(s) && ShapeFault(s, overlay, profile, why))
            || (Resolvable(s) && exists i :: PlaceFault(Sort(overlay.bindings, PositionOrder()), profile, i, why))
  {
    AcceptedIffReconciled(s, overlay, profile);
    if !Resolvable(s) {
      SnapshotFaultNamed(s, overlay, profile);
    } else if OverlayShapeError(s, overlay, profile).Some? {
      ShapeFaultNamed(s, overlay, profile);
    } else {
      ShapeMeans(s, overlay, profile);
      var ordered := Sort(overlay.bindings, PositionOrder());
      SortKeeps(overlay.bindings, PositionOrder());
      MembersOfPermutation(overlay.bindings, ordered);
      PlacesFault(ordered, profile, |profile|, OverlayError(s, overlay, profile).value);
    }
  }

  /** A refused resolution of an unresolved row names the first of these that applies. */
  lemma ResolutionRefused(state: State, r: Resolution, profile: seq<ExpectedField>, reading: Reading)
    requires Governed(state, reading) && Hashes(reading) && Resolve(state, r, profile).result.Err?
    requires r.snapshotId < |state.snapshots| ==> state.snapshots[r.snapshotId].effectiveHash.None?
    ensures var why := Resolve(state, r, profile).result.error;
            if !WellFormedHashes(r) then why == "invalid_sha256"
            else if r.snapshotId >= |state.snapshots| then why == "snapshot_not_found"
            else
              var s := state.snapshots[r.snapshotId];
              if r.expectedSnapshotHash != Sha256(s.canonical) then why == "snapshot_hash_mismatch"
              else if s.runId < |state.runs| && !RecordsNoContent(state.runs[s.runId]) then
                why == "missing_authoritative_http_204_observation"
              else if !Reconciled(s, r.overlay, profile) then OverlayError(s, r.overlay, profile) == Some(why)
              else why == "effective_contract_hash_mismatch"
  {
    HexDigitsIff(r.sourceExportHash);
    HexDigitsIff(r.reconciliationHash);
    if r.snapshotId < |state.snapshots| {
      var s := state.snapshots[r.snapshotId];
      assert RowSound(state, s, reading);
      RecordedIff(state.runs[s.runId]);
      AcceptedIffReconciled(s, r.overlay, profile);
    }
  }
}
