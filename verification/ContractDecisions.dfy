/**
  What materializing, resolving and approving answer in a governed table, and what they leave there,
  said of the rows themselves.
 */
module ContractDecisions {
  import opened JsonValues
  import opened Ordering
  import opened ContractStore
  import opened SubmissionBindings
  import opened ContractSnapshot
  import opened ContractDiff
  import opened ContractClassification
  import opened ContractGovernance
  import opened ContractOverlay
  import opened ContractLifecycle
  import ContractPages

  /** The contract a row stands for: the resolved one if there is one. */
  function ContractOf(s: Snapshot): Canonical {
    match s.effectiveCanonical
    case Some(c) => c
    case None => s.canonical
  }

  predicate NoneInForce(snapshots: seq<Snapshot>) {
    forall i :: 0 <= i < |snapshots| ==> snapshots[i].status != Active
  }

  lemma NoneInForceMeans(snapshots: seq<Snapshot>)
    ensures NoneInForce(snapshots) <==> FindActive(snapshots).None?
    ensures NoneInForce(snapshots) <==> !HasActive(snapshots)
  {
    FindActiveMeaning(snapshots);
  }

  // Approval

  /** The row is complete as observed, or was resolved by somebody named. */
  predicate Governable(s: Snapshot) {
    s.complete || (s.effectiveCanonical.Some? && s.resolvedBy.Some? && s.resolvedBy.value != "")
  }

  /** The row is in force already, or is a reviewed candidate for what is in force, or for the first baseline. */
  predicate Candidate(s: Snapshot, snapshots: seq<Snapshot>) {
    match s.status
    case Active => true
    case BaselineReviewRequired => NoneInForce(snapshots)
    case DiffDetected => !NoneInForce(snapshots)
    case ReviewRequired => !NoneInForce(snapshots)
    case NoChange => false
    case Superseded => false
  }

  /** The approver names the row by the hash of the very contract it stands for. */
  predicate Approvable(state: State, a: Approval) {
    && a.snapshotId < |state.snapshots|
    && var s := state.snapshots[a.snapshotId];
    && a.expectedHash == Sha256(ContractOf(s))
    && Governable(s)
    && Candidate(s, state.snapshots)
  }

  /** The row in force steps down, the approved one takes its place, and nothing else changes. */
  function Promoted(snapshots: seq<Snapshot>, a: Approval): seq<Snapshot> {
    seq(|snapshots|, i requires 0 <= i < |snapshots| =>
      if i == a.snapshotId then
        snapshots[i].(status := Active, approvedBy := Some(a.approvedBy), approvedHash := Some(a.expectedHash))
      else if snapshots[i].status == Active then snapshots[i].(status := Superseded)
      else snapshots[i])
  }

  lemma SupersedeIs(snapshots: seq<Snapshot>)
    requires SingleActive(snapshots)
    ensures var rows := Supersede(snapshots, FindActive(snapshots));
            && |rows| == |snapshots|
            && forall i :: 0 <= i < |rows| ==>
                 rows[i] == if snapshots[i].status == Active then snapshots[i].(status := Superseded) else snapshots[i]
  {
    FindActiveMeaning(snapshots);
  }

  lemma TransitionMeans(s: Snapshot, snapshots: seq<Snapshot>, expectedHash: Digest<Canonical>)
    requires ResolutionSound(s) && ApprovalSound(s) && s.semanticHash == JsonHash(s.canonical)
    ensures var verdict := ValidateApprovalTransition(s, !NoneInForce(snapshots), expectedHash);
            && (verdict.Ok? <==> expectedHash == Sha256(ContractOf(s)) && Governable(s) && Candidate(s, snapshots))
            && (verdict == Ok(Idempotent) <==> verdict.Ok? && s.status == Active)
  {
  }

  lemma PromotedIs(state: State, a: Approval)
    requires SingleActive(state.snapshots) && a.snapshotId < |state.snapshots|
    requires state.snapshots[a.snapshotId].status != Active
    requires ValidateApprovalTransition(
      state.snapshots[a.snapshotId], FindActive(state.snapshots).Some?, a.expectedHash).Ok?
    ensures Approve(state, a) == Decision(state.(snapshots := Promoted(state.snapshots, a)), Ok(a.snapshotId))
  {
    SupersedeIs(state.snapshots);
    var rows := Supersede(state.snapshots, FindActive(state.snapshots));
    assert rows[a.snapshotId := Approved(state.snapshots[a.snapshotId], a)] == Promoted(state.snapshots, a);
  }

  /**
    Approval succeeds exactly for a governable candidate named by its hash.  It then changes nothing if
    the row was in force already, and otherwise puts it in force in place of the row that was.
   */
  lemma ApprovedIff(state: State, a: Approval, reading: Reading)
    requires Governed(state, reading) && Hashes(reading)
    ensures var out := Approve(state, a);
            && (out.result == Ok(a.snapshotId) <==> Approvable(state, a))
            && (out.result.Err? <==> !Approvable(state, a))
            && out.state == (
               if !Approvable(state, a) || state.snapshots[a.snapshotId].status == Active then state
               else state.(snapshots := Promoted(state.snapshots, a)))
  {
    if a.snapshotId < |state.snapshots| {
      var s := state.snapshots[a.snapshotId];
      assert RowSound(state, s, reading);
      NoneInForceMeans(state.snapshots);
      TransitionMeans(s, state.snapshots, a.expectedHash);
      if Approvable(state, a) && s.status != Active {
        PromotedIs(state, a);
      }
    }
  }

  // Resolution

  /** The only page of the run's active sections is the record of a 204. */
  predicate RecordsNoContent(run: Run) {
    exists i :: 0 <= i < |run.pages| && OnlySectionsPage(run, i)
      && Get(Get(run.pages[i].payload, "_observation"), "observable") == Bool(false)
      && Get(Get(run.pages[i].payload, "_observation"), "statusCode") == Num(204)
  }

  predicate OnlySectionsPage(run: Run, i: nat)
    requires i < |run.pages|
  {
    forall j :: 0 <= j < |run.pages| ==> (run.pages[j].surface == ActiveSections <==> j == i)
  }

  lemma {:induction false} SectionsRows(rows: seq<RawPage>)
    ensures var found := ContractPages.RowsOf(rows, ActiveSections);
            && (found == [] <==> forall j :: 0 <= j < |rows| ==> rows[j].surface != ActiveSections)
            && (|found| == 1 <==> exists i :: OnlyAt(rows, i))
            && (forall i :: OnlyAt(rows, i) ==> found == [rows[i]])
  {
    if rows != [] {
      var n := |rows| - 1;
      var front, last := rows[..n], rows[n];
      SectionsRows(front);
      var before := ContractPages.RowsOf(front, ActiveSections);
      if last.surface == ActiveSections {
        assert before == [] ==> OnlyAt(rows, n);
        assert forall i :: OnlyAt(rows, i) ==> i == n && before == [];
      } else {
        assert forall i :: 0 <= i < n ==> (OnlyAt(rows, i) <==> OnlyAt(front, i));
        assert !OnlyAt(rows, n);
      }
    }
  }

  predicate OnlyAt(rows: seq<RawPage>, i: int) {
    && 0 <= i < |rows|
    && forall j :: 0 <= j < |rows| ==> (rows[j].surface == ActiveSections <==> j == i)
  }

  lemma RecordedIff(run: Run)
    ensures Observed204(run) <==> RecordsNoContent(run)
  {
    SectionsRows(run.pages);
    if RecordsNoContent(run) {
      var i :| 0 <= i < |run.pages| && OnlySectionsPage(run, i)
        && Get(Get(run.pages[i].payload, "_observation"), "observable") == Bool(false)
        && Get(Get(run.pages[i].payload, "_observation"), "statusCode") == Num(204);
      assert OnlyAt(run.pages, i);
    }
    if Observed204(run) {
      var i :| OnlyAt(run.pages, i);
      assert OnlySectionsPage(run, i);
    }
  }

  /** The observed contract with the overlay's sections, and its bindings in the order of their keys. */
  ghost predicate Overlaid(c: Canonical, observed: Canonical, overlay: Overlay) {
    && c.schemas == observed.schemas && c.fields == observed.fields
    && c.activeDefinition == observed.activeDefinition
    && c.sections == overlay.sections
    && multiset(c.bindings) == multiset(overlay.bindings)
    && SortedBy(c.bindings, KeyOrder())
  }

  lemma OverlaidIs(c: Canonical, observed: Canonical, overlay: Overlay)
    requires Distinct(BindingKeys(overlay.bindings))
    ensures Overlaid(c, observed, overlay) <==> c == EffectiveCanonical(observed, overlay)
  {
    var sorted := Sort(overlay.bindings, KeyOrder());
    KeyOrderIsTotal();
    SortIsSorted(overlay.bindings, KeyOrder());
    SortKeeps(overlay.bindings, KeyOrder());
    if Overlaid(c, observed, overlay) {
      KeyTiesAreEqual(overlay.bindings);
      TiesOfPermutation(overlay.bindings, sorted, KeyOrder());
      SortedPermutationIsUnique(sorted, c.bindings, KeyOrder());
    }
  }

  lemma KeyTiesAreEqual(bindings: seq<Binding>)
    requires Distinct(BindingKeys(bindings))
    ensures TiesAreEqual(bindings, KeyOrder())
  {
    forall i, j | 0 <= i < |bindings| && 0 <= j < |bindings| && KeyOrder()(bindings[i], bindings[j])
                  && KeyOrder()(bindings[j], bindings[i])
      ensures bindings[i] == bindings[j]
    {
      TextLeTotal(bindings[i].bindingKey, bindings[j].bindingKey);
      assert BindingKeys(bindings)[i] == BindingKeys(bindings)[j];
    }
  }

  /** Everything a first resolution of this row needs. */
  ghost predicate Resolves(s: Snapshot, run: Run, r: Resolution, profile: seq<ExpectedField>, c: Canonical) {
    && r.expectedSnapshotHash == Sha256(s.canonical)
    && RecordsNoContent(run)
    && Reconciled(s, r.overlay, profile)
    && Overlaid(c, s.canonical, r.overlay)
    && r.expectedEffectiveHash == Sha256(c)
  }

  /** The row as it stands resolved: what was reviewed, by whom, on what evidence, and still to be approved. */
  function Reviewed(s: Snapshot, r: Resolution, c: Canonical, snapshots: seq<Snapshot>): Snapshot {
    s.(effectiveHash := Some(Sha256(c)),
       effectiveCanonical := Some(c),
       resolutionSurface := Some("active_submission_sections"),
       resolutionSourceHash := Some(r.sourceExportHash),
       resolutionReconciliationHash := Some(r.reconciliationHash),
       resolvedBy := Some(r.resolvedBy),
       status :=
         if NoneInForce(snapshots) then BaselineReviewRequired
         else if s.status == DiffDetected then DiffDetected
         else ReviewRequired)
  }

  lemma RowResolvedIff(s: Snapshot, snapshots: seq<Snapshot>, run: Run, r: Resolution, profile: seq<ExpectedField>)
    requires s.effectiveHash.None? && s.semanticHash == JsonHash(s.canonical)
    ensures var row := ResolveRow(s, snapshots, run, r, profile);
            && (row.Ok? <==> exists c :: Resolves(s, run, r, profile, c))
            && (forall c :: Resolves(s, run, r, profile, c) ==> row == Ok(Reviewed(s, r, c, snapshots)))
  {
    RecordedIff(run);
    AcceptedIffReconciled(s, r.overlay, profile);
    NoneInForceMeans(snapshots);
    var effective := EffectiveCanonical(s.canonical, r.overlay);
    if Reconciled(s, r.overlay, profile) {
      forall c ensures Overlaid(c, s.canonical, r.overlay) <==> c == effective {
        OverlaidIs(c, s.canonical, r.overlay);
      }
    }
    if ResolveRow(s, snapshots, run, r, profile).Ok? {
      assert Resolves(s, run, r, profile, effective);
    }
  }

  predicate WellFormedHashes(r: Resolution) {
    HexDigits(r.sourceExportHash) && HexDigits(r.reconciliationHash)
  }

  /** Sixty-four hexadecimal digits. */
  predicate HexDigits(text: string) {
    |text| == 64 && forall i :: 0 <= i < 64 ==>
      '0' <= text[i] <= '9' || 'a' <= text[i] <= 'f' || 'A' <= text[i] <= 'F'
  }

  lemma HexDigitsIff(text: string)
    ensures IsSha256(text) <==> HexDigits(text)
  {
    forall c: char ensures c in "0123456789abcdefABCDEF" <==> '0' <= c <= '9' || 'a' <= c <= 'f' || 'A' <= c <= 'F' {
      HexDigitIff(c);
    }
    if HexDigits(text) {
      forall c | c in text ensures c in "0123456789abcdefABCDEF" {
        var i :| 0 <= i < |text| && text[i] == c;
      }
    }
    if IsSha256(text) {
      assert forall i :: 0 <= i < |text| ==> text[i] in text;
    }
  }

  lemma HexDigitIff(c: char)
    ensures c in "0123456789abcdefABCDEF" <==> '0' <= c <= '9' || 'a' <= c <= 'f' || 'A' <= c <= 'F'
  {
    var all := "0123456789abcdefABCDEF";
    if '0' <= c <= '9' {
      assert all[c as int - '0' as int] == c;
    }
    if 'a' <= c <= 'f' {
      assert all[c as int - 'a' as int + 10] == c;
    }
    if 'A' <= c <= 'F' {
      assert all[c as int - 'A' as int + 16] == c;
    }
  }

  /**
    A row without a resolution is resolved exactly when the reviewed overlay may be laid over it and the
    reviewer named both contracts by their hashes; the row then carries the overlaid contract, and nothing
    else in the tables changes.
   */
  lemma ResolvedIff(state: State, r: Resolution, profile: seq<ExpectedField>, reading: Reading)
    requires Governed(state, reading) && Hashes(reading)
    requires r.snapshotId < |state.snapshots| && state.snapshots[r.snapshotId].effectiveHash.None?
    ensures var s := state.snapshots[r.snapshotId];
            s.runId < |state.runs|
    ensures var s, out := state.snapshots[r.snapshotId], Resolve(state, r, profile);
            && (out.result == Ok(r.snapshotId) <==>
                WellFormedHashes(r) && exists c :: Resolves(s, state.runs[s.runId], r, profile, c))
            && (out.result.Err? ==> out.state == state)
            && (out.result.Ok? ==>
                  exists c ::
                    && Resolves(s, state.runs[s.runId], r, profile, c)
                    && out.state == state.(
                         snapshots := state.snapshots[r.snapshotId := Reviewed(s, r, c, state.snapshots)]))
  {
    var s := state.snapshots[r.snapshotId];
    assert RowSound(state, s, reading);
    HexDigitsIff(r.sourceExportHash);
    HexDigitsIff(r.reconciliationHash);
    RowResolvedIff(s, state.snapshots, state.runs[s.runId], r, profile);
    if ResolveRow(s, state.snapshots, state.runs[s.runId], r, profile).Ok? {
      var c :| Resolves(s, state.runs[s.runId], r, profile, c);
    }
  }

  /** A row that has a resolution is never resolved again: the same request is answered, any other refused. */
  lemma ResolvedOnce(state: State, r: Resolution, profile: seq<ExpectedField>, reading: Reading)
    requires Governed(state, reading) && Hashes(reading)
    requires r.snapshotId < |state.snapshots| && state.snapshots[r.snapshotId].effectiveHash.Some?
    ensures var s, out := state.snapshots[r.snapshotId], Resolve(state, r, profile);
            && out.state == state
            && (out.result == Ok(r.snapshotId) <==>
                && WellFormedHashes(r)
                && r.expectedSnapshotHash == Sha256(s.canonical)
                && r.expectedEffectiveHash == Sha256(ContractOf(s))
                && s.resolutionSourceHash == Some(r.sourceExportHash)
                && s.resolutionReconciliationHash == Some(r.reconciliationHash))
            && (out.result.Ok? ==> out.result == Ok(r.snapshotId))
  {
    assert RowSound(state, state.snapshots[r.snapshotId], reading);
    HexDigitsIff(r.sourceExportHash);
    HexDigitsIff(r.reconciliationHash);
  }

  /** A resolution that was made answers its repetition with the same row. */
  lemma RepeatedResolution(state: State, r: Resolution, profile: seq<ExpectedField>, reading: Reading)
    requires Governed(state, reading) && Hashes(reading) && Resolve(state, r, profile).result.Ok?
    ensures var done := Resolve(state, r, profile);
            Resolve(done.state, r, profile) == done
  {
    var done := Resolve(state, r, profile);
    ResolveKeeps(state, r, profile, reading);
    assert r.snapshotId < |state.snapshots|;
    if state.snapshots[r.snapshotId].effectiveHash.Some? {
      ResolvedOnce(state, r, profile, reading);
    } else {
      ResolvedIff(state, r, profile, reading);
      ResolvedOnce(done.state, r, profile, reading);
    }
  }

  // The first baseline

  /** With nothing in force, a run recorded for the first time is a baseline candidate exactly when it is complete. */
  lemma BaselineStatusMeaning(state: State, runId: nat, reading: Reading)
    requires runId < |state.runs| && state.runs[runId].status == Complete
    requires FindByRun(state.snapshots, runId).None? && NoneInForce(state.snapshots)
    ensures var out, view := MaterializeAs(state, runId, reading), reading(state.runs[runId]);
            && out.result == Ok(|state.snapshots|)
            && out.state.runs == state.runs
            && |out.state.snapshots| == |state.snapshots| + 1
            && out.state.snapshots[..|state.snapshots|] == state.snapshots
            && var row := out.state.snapshots[|state.snapshots|];
            && Records(row, runId, view)
            && row.changes == []
            && row.status == if view.complete then BaselineReviewRequired else ReviewRequired
  {
    NoneInForceMeans(state.snapshots);
  }

  /** The row is the observation of this run, not resolved and not approved. */
  predicate Records(row: Snapshot, runId: nat, view: View) {
    && row.runId == runId
    && View(row.canonical, row.semanticHash, row.complete, row.warnings) == view
    && row.effectiveHash.None? && row.effectiveCanonical.None? && row.inheritedFrom.None? && row.resolvedBy.None?
    && row.approvedBy.None? && row.approvedHash.None?
  }

  /** A complete first observation can be put in force by approving it under its own hash. */
  lemma FirstBaseline(state: State, runId: nat, approvedBy: string, reading: Reading)
    requires Reachable(state, reading) && Hashes(reading)
    requires runId < |state.runs| && state.runs[runId].status == Complete && reading(state.runs[runId]).complete
    requires FindByRun(state.snapshots, runId).None? && NoneInForce(state.snapshots)
    ensures var id := |state.snapshots|;
            var recorded := MaterializeAs(state, runId, reading).state;
            var a := Approval(id, reading(state.runs[runId]).semanticHash, approvedBy);
            var approved := Approve(recorded, a);
            && approved.result == Ok(id)
            && id < |approved.state.snapshots|
            && approved.state.snapshots[id].status == Active
            && approved.state.snapshots[id].canonical == reading(state.runs[runId]).canonical
            && approved.state.snapshots[id].approvedBy == Some(approvedBy)
  {
    var id := |state.snapshots|;
    var recorded := MaterializeAs(state, runId, reading).state;
    var a := Approval(id, reading(state.runs[runId]).semanticHash, approvedBy);
    BaselineStatusMeaning(state, runId, reading);
    MaterializeKeeps(state, runId, reading);
    ApprovedIff(recorded, a, reading);
    assert NoneInForce(recorded.snapshots) by {
      forall i | 0 <= i < |recorded.snapshots| ensures recorded.snapshots[i].status != Active {
        assert i < id ==> recorded.snapshots[i] == recorded.snapshots[..id][i];
      }
    }
  }

  // Later observations

  /** Against what is in force, a run recorded for the first time without inheriting keeps the whole comparison. */
  lemma ComparedWithInForce(state: State, runId: nat, activeId: nat, reading: Reading)
    requires Governed(state, reading) && Hashes(reading)
    requires runId < |state.runs| && state.runs[runId].status == Complete
    requires FindByRun(state.snapshots, runId).None? && FindActive(state.snapshots) == Some(activeId)
    requires InheritedFor(
      state.snapshots, reading(state.runs[runId]), ContractPages.LoadedPages(state.runs[runId].pages)).None?
    ensures activeId < |state.snapshots|
    ensures var out, view := MaterializeAs(state, runId, reading), reading(state.runs[runId]);
            && out.result == Ok(|state.snapshots|)
            && out.state.runs == state.runs
            && |out.state.snapshots| == |state.snapshots| + 1
            && out.state.snapshots[..|state.snapshots|] == state.snapshots
            && var row := out.state.snapshots[|state.snapshots|];
            && Records(row, runId, view)
            && row.changes == Diff(InForce(state.snapshots[activeId]), view)
  {
    FindActiveMeaning(state.snapshots);
    assert RowSound(state, state.snapshots[activeId], reading);
  }

  /** The row carries over what was reviewed for the row in force, and says that it was inherited. */
  function Inheriting(row: Snapshot, active: Snapshot, activeId: nat): Snapshot {
    row.(effectiveHash := Some(Sha256(ContractOf(active))),
         effectiveCanonical := Some(ContractOf(active)),
         resolutionSurface := active.resolutionSurface,
         resolutionSourceHash := active.resolutionSourceHash,
         resolutionReconciliationHash := active.resolutionReconciliationHash,
         inheritedFrom := Some(activeId),
         resolvedBy := Some("SYSTEM_INHERITED"))
  }

  /** The view is what the row in force stands for. */
  predicate Carries(view: View, active: Snapshot) {
    view.canonical == ContractOf(active) && view.semanticHash == Sha256(ContractOf(active))
  }

  lemma AppliedIs(row: Snapshot, active: Snapshot, activeId: nat, view: View)
    requires Carries(view, active)
    ensures match ApplyInherited(row, active, activeId, view)
            case Ok(after) => after == if row.effectiveHash.None? then Inheriting(row, active, activeId) else row
            case Err(_) => row.effectiveHash.Some?
  {
  }

  /** The table after a new or an old row inherits. */
  function InheritedRows(snapshots: seq<Snapshot>, record: Snapshot, active: Snapshot, activeId: nat): seq<Snapshot> {
    match FindByRun(snapshots, record.runId)
    case None => snapshots + [Inheriting(record, active, activeId)]
    case Some(i) =>
      if i < |snapshots| && snapshots[i].effectiveHash.None? then
        snapshots[i := Inheriting(snapshots[i], active, activeId)]
      else snapshots
  }

  lemma InheritedRowsAre(snapshots: seq<Snapshot>, record: Snapshot, activeId: nat, view: View)
    requires FindActive(snapshots) == Some(activeId) && activeId < |snapshots| && Carries(view, snapshots[activeId])
    requires Persist(snapshots, record).Ok? && record.effectiveHash.None?
    ensures match RecordRows(snapshots, record, Some(view))
            case Ok((rows, id)) =>
              && rows == InheritedRows(snapshots, record, snapshots[activeId], activeId)
              && id == FindByRun(snapshots, record.runId).GetOr(|snapshots|)
            case Err(_) => FindByRun(snapshots, record.runId).Some?
  {
    PersistedRow(snapshots, record);
    var (rows, id) := Persist(snapshots, record).value;
    RecordedWith(snapshots, record, view, activeId, rows, id);
    AppliedIs(rows[id], snapshots[activeId], activeId, view);
  }

  /** When a run reproves what is in force, its row, new or not resolved yet, inherits the resolution. */
  lemma InheritedRowIs(state: State, runId: nat, activeId: nat, reading: Reading)
    requires Governed(state, reading) && Hashes(reading)
    requires runId < |state.runs| && state.runs[runId].status == Complete
             && FindActive(state.snapshots) == Some(activeId)
    requires InheritedFor(
      state.snapshots, reading(state.runs[runId]), ContractPages.LoadedPages(state.runs[runId].pages)).Some?
    ensures activeId < |state.snapshots|
    ensures exists record ::
              && Records(record, runId, reading(state.runs[runId]))
              && record.status == NoChange && record.changes == []
              && var rows := InheritedRows(state.snapshots, record, state.snapshots[activeId], activeId);
              && var out := MaterializeAs(state, runId, reading);
              && (FindByRun(state.snapshots, runId).None? ==> out.result.Ok?)
              && (out.result.Ok? ==>
                    out == Decision(
                      state.(snapshots := rows), Ok(FindByRun(state.snapshots, runId).GetOr(|state.snapshots|))))
  {
    var run := state.runs[runId];
    var pages := ContractPages.LoadedPages(run.pages);
    var inherited := InheritedFor(state.snapshots, reading(run), pages);
    var record := NewRecord(runId, reading(run), NoChange, []);
    assert activeId < |state.snapshots| && Carries(inherited.value, state.snapshots[activeId]) by {
      InheritedCarries(state, reading(run), pages, activeId, reading);
    }
    assert StatusAgainst(state.snapshots, inherited.value) == NoChange
      && ChangesAgainst(state.snapshots, inherited.value) == [] by {
      AllResolutionsSound(state, reading);
      InheritanceShowsNoChange(state.snapshots, reading(run), pages);
    }
    PersistKeeps(state, runId, NoChange, [], reading);
    MaterializedWith(state, runId, reading, record, inherited);
    InheritedRowsAre(state.snapshots, record, activeId, inherited.value);
    assert Records(record, runId, reading(run));
  }

  lemma InheritedCarries(state: State, observed: View, pages: Pages, activeId: nat, reading: Reading)
    requires Governed(state, reading) && Hashes(reading) && FindActive(state.snapshots) == Some(activeId)
    requires InheritedFor(state.snapshots, observed, pages).Some?
    ensures activeId < |state.snapshots|
    ensures Carries(InheritedFor(state.snapshots, observed, pages).value, state.snapshots[activeId])
  {
    InheritedForMeaning(state.snapshots, observed, pages);
    assert RowSound(state, state.snapshots[activeId], reading);
    InheritedIsApproved(state.snapshots[activeId], observed, pages);
  }

  /** Recording a run again that inherits nothing changes nothing. */
  lemma RecordedAgain(state: State, runId: nat, reading: Reading)
    requires Governed(state, reading)
    requires runId < |state.runs| && state.runs[runId].status == Complete
    requires InheritedFor(
      state.snapshots, reading(state.runs[runId]), ContractPages.LoadedPages(state.runs[runId].pages)).None?
    ensures match FindByRun(state.snapshots, runId)
            case None => true
            case Some(i) => MaterializeAs(state, runId, reading) == Decision(state, Ok(i))
  {
    FindByRunMeaning(state.snapshots, runId);
    if FindByRun(state.snapshots, runId).Some? {
      assert RowSound(state, state.snapshots[FindByRun(state.snapshots, runId).value], reading);
    }
  }

  /** Only COMPLETE runs are recorded. */
  lemma RecordsOnlyComplete(state: State, runId: nat, reading: Reading)
    requires runId < |state.runs| ==> state.runs[runId].status != Complete
    ensures MaterializeAs(state, runId, reading).result.Err? && MaterializeAs(state, runId, reading).state == state
  {
  }

  /** What is in force, as one side of a comparison. */
  function InForce(s: Snapshot): View {
    View(ContractOf(s), Sha256(ContractOf(s)), true, s.warnings)
  }
}
