/**
  Governance over every run of collecting, materializing, resolving and approving: there is one ACTIVE
  snapshot at most, what was approved is frozen, and inheriting a resolution changes nothing.
 */
module ContractLifecycle {
  import opened JsonValues
  import opened ContractStore
  import Sync = ContractSync
  import opened ContractHistory
  import ContractPages
  import opened ContractSnapshot
  import opened ContractCompleteness
  import opened ContractDiff
  import opened ContractClassification
  import opened ContractGovernance

  datatype Operation =
    | Collecting(attempt: Sync.Attempt)
    | Materializing(runId: nat)
    | Resolving(resolution: Resolution, profile: seq<ExpectedField>)
    | Approving(approval: Approval)

  function Step(state: State, op: Operation, reading: Reading): State {
    match op
    case Collecting(attempt) => state.(runs := Sync.CollectContractRun(state.runs, attempt))
    case Materializing(runId) => MaterializeAs(state, runId, reading).state
    case Resolving(resolution, profile) => Resolve(state, resolution, profile).state
    case Approving(approval) => Approve(state, approval).state
  }

  function Steps(state: State, ops: seq<Operation>, reading: Reading): State
    decreases |ops|
  {
    if ops == [] then state else Steps(Step(state, ops[0], reading), ops[1..], reading)
  }

  const EMPTY := State([], [])

  // What every reachable table satisfies

  predicate WasApproved(s: Snapshot) {
    s.status == Active || s.status == Superseded
  }

  /** The row records exactly what its COMPLETE run's pages canonicalize to. */
  predicate ObservationSound(s: Snapshot, runs: seq<Run>, reading: Reading) {
    && s.runId < |runs|
    && runs[s.runId].status == Complete
    && View(s.canonical, s.semanticHash, s.complete, s.warnings) == reading(runs[s.runId])
  }

  /** A resolution keeps the observed schemas, fields and definition, and is hashed as stored. */
  predicate ResolutionSound(s: Snapshot) {
    match s.effectiveCanonical
    case None => s.effectiveHash.None? && s.inheritedFrom.None?
    case Some(c) =>
      && s.effectiveHash == Some(JsonHash(c))
      && !s.complete
      && s.resolutionSurface == Some(RESOLVABLE_SURFACE)
      && c.activeDefinition == s.canonical.activeDefinition == TRADITIONAL
      && c.schemas == s.canonical.schemas
      && c.fields == s.canonical.fields
  }

  predicate ApprovalSound(s: Snapshot) {
    if WasApproved(s) then GovernanceComplete(s) && s.approvedHash == Some(GovernedHash(s)) else s.approvedHash.None?
  }

  /** A resolution rests on the run's own 204 record, or is the one of an approved snapshot. */
  predicate ProvenanceSound(s: Snapshot, snapshots: seq<Snapshot>, runs: seq<Run>) {
    s.effectiveHash.Some? ==>
      match s.inheritedFrom
      case None => s.runId < |runs| && Observed204(runs[s.runId])
      case Some(j) =>
        j < |snapshots| && WasApproved(snapshots[j]) && snapshots[j].effectiveCanonical == s.effectiveCanonical
  }

  predicate RowSound(state: State, s: Snapshot, reading: Reading) {
    && ObservationSound(s, state.runs, reading)
    && ResolutionSound(s)
    && ApprovalSound(s)
    && ProvenanceSound(s, state.snapshots, state.runs)
  }

  ghost predicate SingleActive(snapshots: seq<Snapshot>) {
    forall i, j :: 0 <= i < j < |snapshots| && snapshots[i].status == Active ==> snapshots[j].status != Active
  }

  ghost predicate OnePerRun(snapshots: seq<Snapshot>) {
    forall i, j :: 0 <= i < j < |snapshots| ==> snapshots[i].runId != snapshots[j].runId
  }

  ghost predicate Governed(state: State, reading: Reading) {
    && (forall i :: 0 <= i < |state.snapshots| ==> RowSound(state, state.snapshots[i], reading))
    && SingleActive(state.snapshots)
    && OnePerRun(state.snapshots)
  }

  predicate HasActive(snapshots: seq<Snapshot>) {
    exists i :: 0 <= i < |snapshots| && snapshots[i].status == Active
  }

  // How a row may change

  predicate SameObservation(a: Snapshot, b: Snapshot) {
    && a.runId == b.runId && a.semanticHash == b.semanticHash && a.complete == b.complete
    && a.canonical == b.canonical && a.warnings == b.warnings && a.changes == b.changes
  }

  predicate SameResolution(a: Snapshot, b: Snapshot) {
    && a.effectiveHash == b.effectiveHash && a.effectiveCanonical == b.effectiveCanonical
    && a.resolutionSurface == b.resolutionSurface && a.resolutionSourceHash == b.resolutionSourceHash
    && a.resolutionReconciliationHash == b.resolutionReconciliationHash
    && a.inheritedFrom == b.inheritedFrom && a.resolvedBy == b.resolvedBy
  }

  /** The observation never changes, nor a resolution once made, nor anything but the status once approved. */
  predicate RowEvolves(a: Snapshot, b: Snapshot) {
    && SameObservation(a, b)
    && (a.effectiveHash.Some? ==> SameResolution(a, b))
    && (WasApproved(a) ==>
        WasApproved(b) && SameResolution(a, b) && a.approvedHash == b.approvedHash && a.approvedBy == b.approvedBy)
    && (a.status == Superseded ==> b.status == Superseded)
  }

  ghost predicate Evolves(a: State, b: State) {
    && RowsEvolve(a.snapshots, b.snapshots)
    && |a.runs| <= |b.runs|
    && (forall i :: 0 <= i < |a.runs| && a.runs[i].status == Complete ==> a.runs[i] == b.runs[i])
  }

  lemma EvolvesTransitive(a: State, b: State, c: State)
    requires Evolves(a, b) && Evolves(b, c)
    ensures Evolves(a, c)
  {
  }

  ghost predicate RowsEvolve(a: seq<Snapshot>, b: seq<Snapshot>) {
    |a| <= |b| && forall i :: 0 <= i < |a| ==> RowEvolves(a[i], b[i])
  }

  /** A resolution keeps what it rests on. */
  lemma ProvenanceKept(s: Snapshot, a: seq<Snapshot>, b: seq<Snapshot>, runs: seq<Run>)
    requires ProvenanceSound(s, a, runs) && RowsEvolve(a, b)
    ensures ProvenanceSound(s, b, runs)
  {
  }

  lemma RowKept(state: State, s: Snapshot, rows: seq<Snapshot>, reading: Reading)
    requires RowSound(state, s, reading) && RowsEvolve(state.snapshots, rows)
    ensures RowSound(state.(snapshots := rows), s, reading)
  {
    ProvenanceKept(s, state.snapshots, rows, state.runs);
  }

  /** A row that changes as rows may, and is sound, leaves the table governed. */
  lemma UpdateKeeps(state: State, i: nat, s: Snapshot, reading: Reading)
    requires Governed(state, reading) && i < |state.snapshots| && RowEvolves(state.snapshots[i], s)
             && RowSound(state, s, reading)
    requires s.status == Active ==> forall k ::
             0 <= k < |state.snapshots| && k != i ==> state.snapshots[k].status != Active
    ensures Governed(state.(snapshots := state.snapshots[i := s]), reading)
    ensures Evolves(state, state.(snapshots := state.snapshots[i := s]))
  {
    var rows := state.snapshots[i := s];
    assert RowsEvolve(state.snapshots, rows);
    forall k | 0 <= k < |rows| ensures RowSound(state.(snapshots := rows), rows[k], reading) {
      assert k != i ==> RowSound(state, state.snapshots[k], reading);
      RowKept(state, rows[k], rows, reading);
    }
  }

  lemma AppendKeeps(state: State, s: Snapshot, reading: Reading)
    requires Governed(state, reading) && RowSound(state, s, reading) && s.status != Active
    requires forall k :: 0 <= k < |state.snapshots| ==> state.snapshots[k].runId != s.runId
    ensures Governed(state.(snapshots := state.snapshots + [s]), reading)
    ensures Evolves(state, state.(snapshots := state.snapshots + [s]))
  {
    var rows := state.snapshots + [s];
    assert RowsEvolve(state.snapshots, rows);
    forall k | 0 <= k < |rows| ensures RowSound(state.(snapshots := rows), rows[k], reading) {
      assert k < |state.snapshots| ==> RowSound(state, state.snapshots[k], reading);
      RowKept(state, rows[k], rows, reading);
    }
  }

  // Inheritance

  /** A reading hashes the contract it reads. */
  ghost predicate Hashes(reading: Reading) {
    forall run: Run :: reading(run).semanticHash == JsonHash(reading(run).canonical)
  }

  lemma ObservedViewHashes()
    ensures Hashes(ObservedView)
  {
  }

  /** What is inherited is the approved contract itself. */
  lemma InheritedIsApproved(active: Snapshot, observed: View, pages: Pages)
    requires ResolutionSound(active) && Inherited(active, observed, pages).Some?
    ensures var view := Inherited(active, observed, pages).value;
            && view.canonical == GovernedCanonical(active)
            && view.semanticHash == GovernedHash(active)
            && view.complete
  {
  }

  /** A contract compared with itself shows no change. */
  lemma SameContractNoChanges(previous: View, current: View)
    requires current.complete && previous.canonical == current.canonical
    ensures Diff(previous, current) == []
  {
    NoChangesIffSameContents(previous, current);
  }

  /** A run that reproves the approved resolution shows no change and needs no review. */
  lemma InheritanceShowsNoChange(snapshots: seq<Snapshot>, observed: View, pages: Pages)
    requires forall i :: 0 <= i < |snapshots| ==> ResolutionSound(snapshots[i])
    requires InheritedFor(snapshots, observed, pages).Some?
    ensures var view := InheritedFor(snapshots, observed, pages).value;
            && FindActive(snapshots).Some?
            && view.canonical == GovernedCanonical(snapshots[FindActive(snapshots).value])
            && ChangesAgainst(snapshots, view) == []
            && StatusAgainst(snapshots, view) == NoChange
  {
    FindActiveMeaning(snapshots);
    var active, view := snapshots[FindActive(snapshots).value], InheritedFor(snapshots, observed, pages).value;
    InheritedIsApproved(active, observed, pages);
    SameContractNoChanges(AsView(active), view);
  }

  // One operation

  ghost predicate Keeps(before: State, after: State, reading: Reading) {
    && Governed(after, reading)
    && Evolves(before, after)
    && (HasActive(before.snapshots) ==> HasActive(after.snapshots))
  }

  lemma StatusUpdateKeepsActive(rows: seq<Snapshot>, i: nat, s: Snapshot)
    requires i < |rows| && (rows[i].status == Active ==> s.status == Active)
    ensures HasActive(rows) ==> HasActive(rows[i := s])
  {
    if HasActive(rows) {
      var k :| 0 <= k < |rows| && rows[k].status == Active;
      assert rows[i := s][k].status == Active;
    }
  }

  lemma AppendKeepsActive(rows: seq<Snapshot>, s: Snapshot)
    ensures HasActive(rows) ==> HasActive(rows + [s])
  {
    if HasActive(rows) {
      var k :| 0 <= k < |rows| && rows[k].status == Active;
      assert (rows + [s])[k].status == Active;
    }
  }

  lemma CompletedRunsStay(runs: seq<Run>, attempt: Sync.Attempt)
    requires ValidTable(runs)
    ensures var after := Sync.CollectContractRun(runs, attempt);
            ValidTable(after) && |runs| <= |after| && forall i ::
              0 <= i < |runs| && runs[i].status == Complete ==> after[i] == runs[i]
  {
    TableStep(runs, attempt);
  }

  /** Rows stay sound while runs are only added or end. */
  lemma RunsAdvance(state: State, runs: seq<Run>, reading: Reading)
    requires Governed(state, reading) && |state.runs| <= |runs|
    requires forall i :: 0 <= i < |state.runs| && state.runs[i].status == Complete ==> runs[i] == state.runs[i]
    ensures Keeps(state, state.(runs := runs), reading)
  {
    forall i | 0 <= i < |state.snapshots| ensures RowSound(state.(runs := runs), state.snapshots[i], reading) {
      assert RowSound(state, state.snapshots[i], reading);
    }
  }

  lemma CollectKeeps(state: State, attempt: Sync.Attempt, reading: Reading)
    requires Governed(state, reading) && ValidTable(state.runs)
    ensures Keeps(state, state.(runs := Sync.CollectContractRun(state.runs, attempt)), reading)
  {
    var runs := Sync.CollectContractRun(state.runs, attempt);
    CompletedRunsStay(state.runs, attempt);
    RunsAdvance(state, runs, reading);
  }

  /** The row of a run that has just been recorded. */
  lemma NewRecordSound(state: State, runId: nat, status: SnapshotStatus, changes: seq<Change>, reading: Reading)
    requires runId < |state.runs| && state.runs[runId].status == Complete && status != Active && status != Superseded
    ensures RowSound(state, NewRecord(runId, reading(state.runs[runId]), status, changes), reading)
  {
  }

  lemma InheritedRowSound(state: State, record: Snapshot, activeId: nat, pages: Pages, reading: Reading)
    requires Governed(state, reading) && RowSound(state, record, reading)
    requires activeId < |state.snapshots| && state.snapshots[activeId].status == Active
    requires !reading(state.runs[record.runId]).complete
    requires Inherited(state.snapshots[activeId], reading(state.runs[record.runId]), pages).Some?
    ensures var view := Inherited(state.snapshots[activeId], reading(state.runs[record.runId]), pages).value;
            match ApplyInherited(record, state.snapshots[activeId], activeId, view)
            case Err(_) => true
            case Ok(resolved) =>
              RowSound(state, resolved, reading) && RowEvolves(record, resolved) && resolved.status == record.status
  {
    var active := state.snapshots[activeId];
    assert RowSound(state, active, reading);
    InheritedIsApproved(active, reading(state.runs[record.runId]), pages);
  }

  /** Recording a run again finds the row it has; recording it for the first time adds one. */
  lemma PersistKeeps(state: State, runId: nat, status: SnapshotStatus, changes: seq<Change>, reading: Reading)
    requires Governed(state, reading) && runId < |state.runs| && state.runs[runId].status == Complete
    requires status != Active && status != Superseded
    ensures match Persist(state.snapshots, NewRecord(runId, reading(state.runs[runId]), status, changes))
            case Err(_) => false
            case Ok((rows, id)) =>
              && Keeps(state, state.(snapshots := rows), reading)
              && id < |rows| && rows[id].runId == runId
              && |state.snapshots| <= |rows|
              && (forall k :: 0 <= k < |state.snapshots| ==> rows[k] == state.snapshots[k])
              && (FindByRun(state.snapshots, runId).None? ==>
                    id == |state.snapshots|
                    && rows[id] == NewRecord(runId, reading(state.runs[runId]), status, changes))
  {
    var record := NewRecord(runId, reading(state.runs[runId]), status, changes);
    FindByRunMeaning(state.snapshots, runId);
    match FindByRun(state.snapshots, runId)
    case None =>
      NewRecordSound(state, runId, status, changes, reading);
      AppendKeeps(state, record, reading);
      AppendKeepsActive(state.snapshots, record);
    case Some(i) =>
      assert RowSound(state, state.snapshots[i], reading);
  }

  lemma StatusIsNotApproved(snapshots: seq<Snapshot>, comparison: View)
    ensures StatusAgainst(snapshots, comparison) != Active && StatusAgainst(snapshots, comparison) != Superseded
  {
  }

  lemma InheritedForMeaning(snapshots: seq<Snapshot>, observed: View, pages: Pages)
    requires InheritedFor(snapshots, observed, pages).Some?
    ensures FindActive(snapshots).Some? && !observed.complete
    ensures var i := FindActive(snapshots).value;
            && i < |snapshots| && snapshots[i].status == Active
            && Inherited(snapshots[i], observed, pages) == InheritedFor(snapshots, observed, pages)
  {
    FindActiveMeaning(snapshots);
  }

  lemma RecordedAlone(snapshots: seq<Snapshot>, record: Snapshot)
    ensures RecordRows(snapshots, record, None) == Persist(snapshots, record)
  {
  }

  lemma RecordedWith(
    snapshots: seq<Snapshot>, record: Snapshot, inherited: View, activeId: nat, rows: seq<Snapshot>, id: nat)
    requires FindActive(snapshots) == Some(activeId) && activeId < |snapshots|
    requires Persist(snapshots, record) == Ok((rows, id)) && id < |rows|
    ensures RecordRows(snapshots, record, Some(inherited)) ==
            match ApplyInherited(rows[id], snapshots[activeId], activeId, inherited)
            case Err(why) => Err(why)
            case Ok(resolved) => Ok((rows[id := resolved], id))
  {
  }

  lemma RecordingKeeps(
    state: State, runId: nat, pages: Pages, status: SnapshotStatus, changes: seq<Change>, reading: Reading)
    requires Governed(state, reading) && runId < |state.runs| && state.runs[runId].status == Complete
    requires status != Active && status != Superseded
    ensures var observed := reading(state.runs[runId]);
            match RecordRows(
              state.snapshots, NewRecord(runId, observed, status, changes),
              InheritedFor(state.snapshots, observed, pages))
            case Err(_) => true
            case Ok((rows, _)) => Keeps(state, state.(snapshots := rows), reading)
  {
    var observed := reading(state.runs[runId]);
    var record, inherited := NewRecord(runId, observed, status, changes),
      InheritedFor(state.snapshots, observed, pages);
    PersistKeeps(state, runId, status, changes, reading);
    var (rows, id) := Persist(state.snapshots, record).value;
    if inherited.Some? {
      InheritedForMeaning(state.snapshots, observed, pages);
      var activeId := FindActive(state.snapshots).value;
      RecordedWith(state.snapshots, record, inherited.value, activeId, rows, id);
      InheritingKeeps(state, rows, id, activeId, pages, reading);
    } else {
      RecordedAlone(state.snapshots, record);
    }
  }

  lemma MaterializeKeeps(state: State, runId: nat, reading: Reading)
    requires Governed(state, reading)
    ensures Keeps(state, MaterializeAs(state, runId, reading).state, reading)
  {
    if runId < |state.runs| && state.runs[runId].status == Complete {
      var run := state.runs[runId];
      var pages := ContractPages.LoadedPages(run.pages);
      var comparison := InheritedFor(state.snapshots, reading(run), pages).GetOr(reading(run));
      StatusIsNotApproved(state.snapshots, comparison);
      RecordingKeeps(
        state, runId, pages, StatusAgainst(state.snapshots, comparison), ChangesAgainst(state.snapshots, comparison),
        reading);
    }
  }

  lemma InheritingKeeps(state: State, rows: seq<Snapshot>, id: nat, activeId: nat, pages: Pages, reading: Reading)
    requires Keeps(state, state.(snapshots := rows), reading) && id < |rows| && rows[id].runId < |state.runs|
    requires |state.snapshots| <= |rows| && forall k :: 0 <= k < |state.snapshots| ==> rows[k] == state.snapshots[k]
    requires activeId < |state.snapshots| && state.snapshots[activeId].status == Active
    requires !reading(state.runs[rows[id].runId]).complete
    requires Inherited(state.snapshots[activeId], reading(state.runs[rows[id].runId]), pages).Some?
    ensures var view := Inherited(state.snapshots[activeId], reading(state.runs[rows[id].runId]), pages).value;
            match ApplyInherited(rows[id], state.snapshots[activeId], activeId, view)
            case Err(_) => true
            case Ok(resolved) => Keeps(state, state.(snapshots := rows[id := resolved]), reading)
  {
    var middle := state.(snapshots := rows);
    var view := Inherited(state.snapshots[activeId], reading(state.runs[rows[id].runId]), pages).value;
    assert RowSound(middle, rows[id], reading);
    InheritedRowSound(middle, rows[id], activeId, pages, reading);
    match ApplyInherited(rows[id], state.snapshots[activeId], activeId, view)
    case Err(_) =>
    case Ok(resolved) =>
      if resolved.status == Active {
        OthersNotActive(rows, id);
      }
      UpdateKeeps(middle, id, resolved, reading);
      StatusUpdateKeepsActive(rows, id, resolved);
      EvolvesTransitive(state, middle, middle.(snapshots := rows[id := resolved]));
  }

  lemma OthersNotActive(rows: seq<Snapshot>, i: nat)
    requires SingleActive(rows) && i < |rows| && rows[i].status == Active
    ensures forall k :: 0 <= k < |rows| && k != i ==> rows[k].status != Active
  {
  }

  /** A resolved row is sound, and was not approved before. */
  lemma ResolvedRowSound(state: State, i: nat, r: Resolution, profile: seq<ExpectedField>, reading: Reading)
    requires Governed(state, reading) && i < |state.snapshots|
    ensures var s := state.snapshots[i];
            s.runId < |state.runs| &&
            match ResolveRow(s, state.snapshots, state.runs[s.runId], r, profile)
            case Err(_) => true
            case Ok(resolved) =>
              && RowSound(state, resolved, reading) && RowEvolves(s, resolved)
              && (resolved == s || (s.status != Active && resolved.status != Active))
  {
    assert RowSound(state, state.snapshots[i], reading);
  }

  lemma ResolvedKeeps(state: State, i: nat, resolved: Snapshot, reading: Reading)
    requires Governed(state, reading) && i < |state.snapshots|
    requires RowSound(state, resolved, reading) && RowEvolves(state.snapshots[i], resolved)
    requires resolved == state.snapshots[i] || (state.snapshots[i].status != Active && resolved.status != Active)
    ensures Keeps(state, state.(snapshots := state.snapshots[i := resolved]), reading)
  {
    if resolved.status == Active {
      OthersNotActive(state.snapshots, i);
    }
    UpdateKeeps(state, i, resolved, reading);
    StatusUpdateKeepsActive(state.snapshots, i, resolved);
  }

  /** Resolving changes nothing, or puts the resolved row in its place. */
  lemma ResolveUpdates(state: State, r: Resolution, profile: seq<ExpectedField>)
    requires r.snapshotId < |state.snapshots| && state.snapshots[r.snapshotId].runId < |state.runs|
    ensures var i, s := r.snapshotId, state.snapshots[r.snapshotId];
            var row := ResolveRow(s, state.snapshots, state.runs[s.runId], r, profile);
            || Resolve(state, r, profile).state == state
            || (row.Ok? && Resolve(state, r, profile).state == state.(snapshots := state.snapshots[i := row.value]))
  {
  }

  lemma ResolveKeeps(state: State, r: Resolution, profile: seq<ExpectedField>, reading: Reading)
    requires Governed(state, reading)
    ensures Keeps(state, Resolve(state, r, profile).state, reading)
  {
    KeepsItself(state, reading);
    if r.snapshotId < |state.snapshots| {
      var s := state.snapshots[r.snapshotId];
      ResolvedRowSound(state, r.snapshotId, r, profile, reading);
      ResolveUpdates(state, r, profile);
      var row := ResolveRow(s, state.snapshots, state.runs[s.runId], r, profile);
      if row.Ok? {
        ResolvedKeeps(state, r.snapshotId, row.value, reading);
      }
    }
  }

  lemma SupersededRow(state: State, s: Snapshot, reading: Reading)
    requires RowSound(state, s, reading) && s.status == Active
    ensures RowSound(state, s.(status := Superseded), reading) && RowEvolves(s, s.(status := Superseded))
  {
  }

  lemma SupersedeChanges(snapshots: seq<Snapshot>)
    ensures var rows := Supersede(snapshots, FindActive(snapshots));
            && |rows| == |snapshots|
            && forall k :: 0 <= k < |rows| && snapshots[k].status != Active ==> rows[k] == snapshots[k]
  {
    FindActiveMeaning(snapshots);
  }

  lemma SupersedeKeeps(state: State, reading: Reading)
    requires Governed(state, reading)
    ensures var after := state.(snapshots := Supersede(state.snapshots, FindActive(state.snapshots)));
            Governed(after, reading) && Evolves(state, after) && !HasActive(after.snapshots)
  {
    FindActiveMeaning(state.snapshots);
    if FindActive(state.snapshots).Some? {
      var i := FindActive(state.snapshots).value;
      assert RowSound(state, state.snapshots[i], reading);
      SupersededRow(state, state.snapshots[i], reading);
      OthersNotActive(state.snapshots, i);
      UpdateKeeps(state, i, state.snapshots[i].(status := Superseded), reading);
    } else {
      KeepsItself(state, reading);
    }
  }

  lemma ApprovedRow(state: State, candidate: Snapshot, a: Approval, hasActive: bool, reading: Reading)
    requires RowSound(state, candidate, reading)
    requires ValidateApprovalTransition(candidate, hasActive, a.expectedHash).Ok?
    requires ValidateApprovalTransition(candidate, hasActive, a.expectedHash).value != Idempotent
    ensures RowSound(state, Approved(candidate, a), reading) && RowEvolves(candidate, Approved(candidate, a))
    ensures candidate.status != Active
  {
  }

  lemma ApproveKeeps(state: State, a: Approval, reading: Reading)
    requires Governed(state, reading)
    ensures Keeps(state, Approve(state, a).state, reading)
  {
    if a.snapshotId < |state.snapshots| {
      var candidate, active := state.snapshots[a.snapshotId], FindActive(state.snapshots);
      var verdict := ValidateApprovalTransition(candidate, active.Some?, a.expectedHash);
      if verdict.Ok? && verdict.value != Idempotent {
        PromotionKeeps(state, a, active.Some?, reading);
      }
    }
  }

  lemma PromotionKeeps(state: State, a: Approval, hasActive: bool, reading: Reading)
    requires Governed(state, reading) && a.snapshotId < |state.snapshots|
    requires var verdict := ValidateApprovalTransition(state.snapshots[a.snapshotId], hasActive, a.expectedHash);
             verdict.Ok? && verdict.value != Idempotent
    ensures var rows := Supersede(state.snapshots, FindActive(state.snapshots));
            && a.snapshotId < |rows|
            && Keeps(state, state.(snapshots := rows[a.snapshotId := Approved(state.snapshots[a.snapshotId], a)]),
               reading)
  {
    var candidate := state.snapshots[a.snapshotId];
    SupersedeKeeps(state, reading);
    SupersedeChanges(state.snapshots);
    var middle := state.(snapshots := Supersede(state.snapshots, FindActive(state.snapshots)));
    assert candidate.status != Active;
    assert middle.snapshots[a.snapshotId] == candidate;
    assert RowSound(middle, candidate, reading);
    ApprovedRow(middle, candidate, a, hasActive, reading);
    NoneActive(middle.snapshots);
    UpdateKeeps(middle, a.snapshotId, Approved(candidate, a), reading);
    var after := middle.(snapshots := middle.snapshots[a.snapshotId := Approved(candidate, a)]);
    assert after.snapshots[a.snapshotId].status == Active;
    EvolvesTransitive(state, middle, after);
  }

  lemma NoneActive(rows: seq<Snapshot>)
    requires !HasActive(rows)
    ensures forall k :: 0 <= k < |rows| ==> rows[k].status != Active
  {
  }

  lemma StepKeepsSnapshots(state: State, op: Operation, reading: Reading)
    requires Governed(state, reading) && ValidTable(state.runs)
    ensures Keeps(state, Step(state, op, reading), reading)
  {
    match op
    case Collecting(attempt) =>
      assert Step(state, op, reading) == state.(runs := Sync.CollectContractRun(state.runs, attempt));
      CollectKeeps(state, attempt, reading);
    case Materializing(runId) =>
      assert Step(state, op, reading) == MaterializeAs(state, runId, reading).state;
      MaterializeKeeps(state, runId, reading);
    case Resolving(resolution, profile) =>
      assert Step(state, op, reading) == Resolve(state, resolution, profile).state;
      ResolveKeeps(state, resolution, profile, reading);
    case Approving(approval) =>
      assert Step(state, op, reading) == Approve(state, approval).state;
      ApproveKeeps(state, approval, reading);
  }

  lemma StepKeepsRuns(state: State, op: Operation, reading: Reading)
    requires ValidTable(state.runs)
    ensures ValidTable(Step(state, op, reading).runs)
  {
    if op.Collecting? {
      CompletedRunsStay(state.runs, op.attempt);
    }
  }

  /** Snapshots governed, and runs as the collector leaves them. */
  ghost predicate Reachable(state: State, reading: Reading) {
    Governed(state, reading) && ValidTable(state.runs)
  }

  /** Every operation, with any arguments, leaves the table governed and what was approved frozen. */
  lemma StepKeeps(state: State, op: Operation, reading: Reading)
    requires Reachable(state, reading)
    ensures Keeps(state, Step(state, op, reading), reading) && Reachable(Step(state, op, reading), reading)
  {
    StepKeepsSnapshots(state, op, reading);
    StepKeepsRuns(state, op, reading);
  }

  lemma KeepsTransitive(a: State, b: State, c: State, reading: Reading)
    requires Keeps(a, b, reading) && Keeps(b, c, reading)
    ensures Keeps(a, c, reading)
  {
    EvolvesTransitive(a, b, c);
  }

  lemma KeepsItself(state: State, reading: Reading)
    requires Governed(state, reading)
    ensures Keeps(state, state, reading)
  {
  }

  /** Over every history of operations. */
  lemma {:induction false} GovernedForever(state: State, ops: seq<Operation>, reading: Reading)
    requires Reachable(state, reading)
    ensures Keeps(state, Steps(state, ops, reading), reading) && Reachable(Steps(state, ops, reading), reading)
    decreases |ops|
  {
    if ops != [] {
      var next := Step(state, ops[0], reading);
      assert Keeps(state, next, reading) && Reachable(next, reading) by {
        StepKeeps(state, ops[0], reading);
      }
      GovernedForever(next, ops[1..], reading);
      KeepsTransitive(state, next, Steps(next, ops[1..], reading), reading);
    } else {
      KeepsItself(state, reading);
    }
  }

  // What this means for the snapshots

  ghost predicate ExactlyOneActive(rows: seq<Snapshot>) {
    exists i ::
      0 <= i < |rows| && rows[i].status == Active && forall k :: 0 <= k < |rows| && k != i ==> rows[k].status != Active
  }

  lemma EmptyIsGoverned(reading: Reading)
    ensures Reachable(EMPTY, reading)
  {
  }

  /** Every table reachable from the empty one is governed. */
  lemma ReachableIsGoverned(ops: seq<Operation>)
    ensures Reachable(Steps(EMPTY, ops, ObservedView), ObservedView)
  {
    EmptyIsGoverned(ObservedView);
    GovernedForever(EMPTY, ops, ObservedView);
  }

  lemma SingleIsExact(rows: seq<Snapshot>)
    requires SingleActive(rows) && HasActive(rows)
    ensures ExactlyOneActive(rows)
  {
    var i :| 0 <= i < |rows| && rows[i].status == Active;
    OthersNotActive(rows, i);
  }

  /** Once a baseline is approved there is exactly one ACTIVE snapshot, whatever is done next. */
  lemma OneActiveForever(state: State, ops: seq<Operation>, reading: Reading)
    requires Reachable(state, reading) && HasActive(state.snapshots)
    ensures ExactlyOneActive(Steps(state, ops, reading).snapshots)
  {
    GovernedForever(state, ops, reading);
    SingleIsExact(Steps(state, ops, reading).snapshots);
  }

  /** The approved row keeps its content and its audited hash, and is governed by what it was approved as. */
  ghost predicate Frozen(before: Snapshot, after: Snapshot) {
    && WasApproved(after)
    && (before.status == Superseded ==> after.status == Superseded)
    && after.canonical == before.canonical
    && GovernedCanonical(after) == GovernedCanonical(before)
    && after.approvedHash == Some(GovernedHash(after)) == Some(JsonHash(GovernedCanonical(before)))
    && GovernanceComplete(after)
  }

  /** What was approved stays frozen, and what was superseded stays superseded, whatever is done next. */
  lemma ApprovedIsFrozen(state: State, ops: seq<Operation>, i: nat, reading: Reading)
    requires Reachable(state, reading) && Hashes(reading)
    requires i < |state.snapshots| && WasApproved(state.snapshots[i])
    ensures i < |Steps(state, ops, reading).snapshots|
    ensures Frozen(state.snapshots[i], Steps(state, ops, reading).snapshots[i])
  {
    GovernedForever(state, ops, reading);
    var end := Steps(state, ops, reading);
    assert RowEvolves(state.snapshots[i], end.snapshots[i]);
    GovernedIsHashed(end, i, reading);
  }

  /**
    From empty tables on, through any history of the operations as the code runs them: every row ever
    approved is frozen from then on, there is never more than one ACTIVE snapshot, and from the first
    one on always exactly one.
   */
  lemma EveryHistoryIsGoverned(past: seq<Operation>, future: seq<Operation>)
    ensures var before, now := Steps(EMPTY, past, ObservedView),
            Steps(Steps(EMPTY, past, ObservedView), future, ObservedView);
            && SingleActive(now.snapshots)
            && (HasActive(before.snapshots) ==> ExactlyOneActive(now.snapshots))
            && |before.snapshots| <= |now.snapshots|
            && forall i :: 0 <= i < |before.snapshots| && WasApproved(before.snapshots[i]) ==>
                 Frozen(before.snapshots[i], now.snapshots[i])
  {
    var before := Steps(EMPTY, past, ObservedView);
    ObservedViewHashes();
    ReachableIsGoverned(past);
    GovernedForever(before, future, ObservedView);
    if HasActive(before.snapshots) {
      OneActiveForever(before, future, ObservedView);
    }
    forall i | 0 <= i < |before.snapshots| && WasApproved(before.snapshots[i])
      ensures Frozen(before.snapshots[i], Steps(before, future, ObservedView).snapshots[i])
    {
      ApprovedIsFrozen(before, future, i, ObservedView);
    }
  }

  lemma GovernedIsHashed(state: State, i: nat, reading: Reading)
    requires Governed(state, reading) && i < |state.snapshots| && Hashes(reading)
    ensures GovernedHash(state.snapshots[i]) == JsonHash(GovernedCanonical(state.snapshots[i]))
  {
    assert RowSound(state, state.snapshots[i], reading);
  }

  /**
    The run was recorded before, it now reproves what the ACTIVE row was approved as, and its row has a
    resolution already that is not the one it would inherit: another contract, or from another row.
   */
  predicate ResolvedOtherwise(snapshots: seq<Snapshot>, runId: nat, observed: View, pages: Pages) {
    var active := FindActive(snapshots);
    && InheritedFor(snapshots, observed, pages).Some?
    && active.Some? && active.value < |snapshots|
    && FindsOtherwise(snapshots, runId, GovernedHash(snapshots[active.value]), active.value)
  }

  /** The record finds a row that was resolved, but not as `governed` inherited from `activeId`. */
  predicate FindsOtherwise(
    snapshots: seq<Snapshot>, runId: nat, governed: Digest<Canonical>, activeId: nat)
  {
    var found := FindByRun(snapshots, runId);
    && found.Some? && found.value < |snapshots|
    && snapshots[found.value].effectiveHash.Some?
    && (snapshots[found.value].effectiveHash != Some(governed)
       || snapshots[found.value].inheritedFrom != Some(activeId))
  }

  lemma RefusedIff(snapshots: seq<Snapshot>, record: Snapshot, inherited: View, activeId: nat)
    requires FindActive(snapshots) == Some(activeId) && activeId < |snapshots|
    requires Persist(snapshots, record).Ok? && record.effectiveHash.None?
    ensures var result := RecordRows(snapshots, record, Some(inherited));
            && (result.Err? <==> FindsOtherwise(snapshots, record.runId, inherited.semanticHash, activeId))
            && (result.Err? ==> result == Err("inherited_resolution_conflict"))
  {
    PersistedRow(snapshots, record);
    var (rows, id) := Persist(snapshots, record).value;
    RecordedWith(snapshots, record, inherited, activeId, rows, id);
  }

  lemma PersistedRow(snapshots: seq<Snapshot>, record: Snapshot)
    requires Persist(snapshots, record).Ok?
    ensures var (rows, id) := Persist(snapshots, record).value;
            match FindByRun(snapshots, record.runId)
            case None => rows == snapshots + [record] && id == |snapshots|
            case Some(i) => rows == snapshots && id == i < |snapshots|
  {
  }

  /** Recording a COMPLETE run fails exactly when its row was resolved otherwise, and then with that conflict. */
  lemma MaterializingSucceedsIff(state: State, runId: nat, reading: Reading)
    requires Governed(state, reading) && runId < |state.runs| && state.runs[runId].status == Complete
    ensures var run, result := state.runs[runId], MaterializeAs(state, runId, reading).result;
            && (result.Err? <==>
                ResolvedOtherwise(state.snapshots, runId, reading(run), ContractPages.LoadedPages(run.pages)))
            && (result.Err? ==> result == Err("inherited_resolution_conflict"))
  {
    var run := state.runs[runId];
    var pages := ContractPages.LoadedPages(run.pages);
    var inherited := InheritedFor(state.snapshots, reading(run), pages);
    var comparison := inherited.GetOr(reading(run));
    var status, changes := StatusAgainst(state.snapshots, comparison), ChangesAgainst(state.snapshots, comparison);
    var record := NewRecord(runId, reading(run), status, changes);
    StatusIsNotApproved(state.snapshots, comparison);
    PersistKeeps(state, runId, status, changes, reading);
    MaterializedWith(state, runId, reading, record, inherited);
    if inherited.Some? {
      InheritedHash(state, reading(run), pages, reading);
      RefusedIff(state.snapshots, record, inherited.value, FindActive(state.snapshots).value);
    } else {
      RecordedAlone(state.snapshots, record);
    }
  }

  lemma InheritedHash(state: State, observed: View, pages: Pages, reading: Reading)
    requires Governed(state, reading) && InheritedFor(state.snapshots, observed, pages).Some?
    ensures FindActive(state.snapshots).Some? && FindActive(state.snapshots).value < |state.snapshots|
    ensures InheritedFor(state.snapshots, observed, pages).value.semanticHash
         == GovernedHash(state.snapshots[FindActive(state.snapshots).value])
  {
    InheritedForMeaning(state.snapshots, observed, pages);
    AllResolutionsSound(state, reading);
    InheritedIsApproved(state.snapshots[FindActive(state.snapshots).value], observed, pages);
  }

  lemma MaterializedWith(state: State, runId: nat, reading: Reading, record: Snapshot, inherited: Option<View>)
    requires runId < |state.runs| && state.runs[runId].status == Complete
    requires var run := state.runs[runId];
             var comparison := inherited.GetOr(reading(run));
             && inherited == InheritedFor(state.snapshots, reading(run), ContractPages.LoadedPages(run.pages))
             && record == NewRecord(
               runId, reading(run), StatusAgainst(state.snapshots, comparison),
               ChangesAgainst(state.snapshots, comparison))
    ensures MaterializeAs(state, runId, reading) ==
            match RecordRows(state.snapshots, record, inherited)
            case Err(why) => Decision(state, Err(why))
            case Ok((rows, id)) => Decision(state.(snapshots := rows), Ok(id))
  {
  }

  /** The row after a run that was not recorded yet inherits `view`. */
  lemma RecordedWithInheritance(snapshots: seq<Snapshot>, record: Snapshot, view: View, activeId: nat)
    requires FindByRun(snapshots, record.runId).None? && FindActive(snapshots) == Some(activeId)
             && activeId < |snapshots|
    requires record.effectiveHash.None?
    ensures match RecordRows(snapshots, record, Some(view))
            case Err(_) => false
            case Ok((rows, id)) =>
              && id == |snapshots| && |rows| == |snapshots| + 1
              && ApplyInherited(record, snapshots[activeId], activeId, view) == Ok(rows[id])
  {
  }

  /** A record that inherits the approved contract is governed by it. */
  predicate GovernedAlike(row: Snapshot, approved: Snapshot, activeId: nat) {
    && GovernedCanonical(row) == GovernedCanonical(approved)
    && GovernedHash(row) == GovernedHash(approved)
    && row.inheritedFrom == Some(activeId)
    && GovernanceComplete(row)
  }

  lemma AppliedIsAlike(record: Snapshot, active: Snapshot, activeId: nat, observed: View, pages: Pages)
    requires ResolutionSound(active) && Inherited(active, observed, pages).Some? && record.effectiveHash.None?
    ensures match ApplyInherited(record, active, activeId, Inherited(active, observed, pages).value)
            case Err(_) => false
            case Ok(row) =>
              GovernedAlike(row, active, activeId) && row.status == record.status && row.changes == record.changes
  {
    InheritedIsApproved(active, observed, pages);
  }

  /**
    Inheritance changes nothing: a run recorded for the first time that reproves the approved resolution
    is NO_CHANGE with no changes, and is governed by the very contract that is ACTIVE.
   */
  lemma InheritanceChangesNothing(state: State, runId: nat, activeId: nat, reading: Reading)
    requires Governed(state, reading) && runId < |state.runs| && state.runs[runId].status == Complete
    requires FindByRun(state.snapshots, runId).None? && FindActive(state.snapshots) == Some(activeId)
    requires InheritedFor(state.snapshots, reading(state.runs[runId]),
             ContractPages.LoadedPages(state.runs[runId].pages)).Some?
    ensures activeId < |state.snapshots|
    ensures match MaterializeRows(state.snapshots, runId, reading(state.runs[runId]),
            ContractPages.LoadedPages(state.runs[runId].pages))
            case Err(_) => false
            case Ok((rows, id)) =>
              && id == |state.snapshots| < |rows|
              && rows[id].status == NoChange
              && rows[id].changes == []
              && GovernedAlike(rows[id], state.snapshots[activeId], activeId)
  {
    var observed, pages := reading(state.runs[runId]), ContractPages.LoadedPages(state.runs[runId].pages);
    AllResolutionsSound(state, reading);
    FindActiveMeaning(state.snapshots);
    InheritanceShowsNoChange(state.snapshots, observed, pages);
    var view := InheritedFor(state.snapshots, observed, pages).value;
    var record := NewRecord(runId, observed, NoChange, []);
    RecordedWithInheritance(state.snapshots, record, view, activeId);
    AppliedIsAlike(record, state.snapshots[activeId], activeId, observed, pages);
  }

  lemma AllResolutionsSound(state: State, reading: Reading)
    requires Governed(state, reading)
    ensures forall i :: 0 <= i < |state.snapshots| ==> ResolutionSound(state.snapshots[i])
  {
    forall i | 0 <= i < |state.snapshots| ensures ResolutionSound(state.snapshots[i]) {
      assert RowSound(state, state.snapshots[i], reading);
    }
  }

  /** Otherwise the status says how the new observation compares with the ACTIVE contract. */
  lemma ObservedStatusMeaning(state: State, runId: nat, activeId: nat, reading: Reading)
    requires Governed(state, reading) && Hashes(reading) && runId < |state.runs| && state.runs[runId].status == Complete
    requires FindByRun(state.snapshots, runId).None? && FindActive(state.snapshots) == Some(activeId)
    requires InheritedFor(state.snapshots, reading(state.runs[runId]),
             ContractPages.LoadedPages(state.runs[runId].pages)).None?
    ensures activeId < |state.snapshots| < |MaterializeAs(state, runId, reading).state.snapshots|
    ensures var row := MaterializeAs(state, runId, reading).state.snapshots[|state.snapshots|];
            var approved := GovernedCanonical(state.snapshots[activeId]);
            && (row.status == NoChange <==> row.complete && row.canonical == approved)
            && (row.status == DiffDetected <==>
                row.complete && row.canonical != approved && CompatibleExtension(approved, row.canonical))
            && (row.status == ReviewRequired <==>
                !row.complete || (row.canonical != approved && !CompatibleExtension(approved, row.canonical)))
  {
    FindActiveMeaning(state.snapshots);
    GovernedIsHashed(state, activeId, reading);
    StatusMeaning(AsView(state.snapshots[activeId]), reading(state.runs[runId]));
  }

  /** What an approved snapshot rests on: exact pages of its own run, or a 204 record resolved by review. */
  lemma ApprovedRestsOnEvidence(state: State, i: nat)
    requires Governed(state, ObservedView) && i < |state.snapshots| && WasApproved(state.snapshots[i])
    ensures var s := state.snapshots[i];
            && s.runId < |state.runs|
            && var pages := ContractPages.LoadedPages(state.runs[s.runId].pages);
            && s.canonical == CanonicalOf(pages)
            && (s.complete ==> PagesExact(pages) && DefinitionExact(pages) && RegistryExact(pages) && FormsExact(pages))
            && (!s.complete ==>
                match s.inheritedFrom
                case None => Observed204(state.runs[s.runId])
                case Some(j) =>
                  j < |state.snapshots| && WasApproved(state.snapshots[j])
                  && GovernedCanonical(state.snapshots[j]) == GovernedCanonical(s))
  {
    var s := state.snapshots[i];
    assert RowSound(state, s, ObservedView);
    CompleteIffExact(ContractPages.LoadedPages(state.runs[s.runId].pages));
  }
}
