# Verified model of the cataloging API

A Dafny 4.11 model of the parts of the cataloging API whose guarantees span many calls, with proofs.
`dafny verify dfyconfig.toml` checks all of it.

**The DSpace contract pipeline** is the core, in three layers that build on each other.

1. *Collection* (`ContractStore`, `ContractClient`, `ContractSync`, `ContractCollector`; proofs in
   `ContractEvidence`, `ContractResume`, `ContractPhases`, `ContractAttempt`, `ContractReplies`,
   `ContractHistory`, `ContractResumption`). A run pages through surfaces of an untrusted server and can
   be killed or fail at any point. A worker is driven by a script of turns, one per request; when the
   script ends the process is dead and what was committed remains. The methods of `ContractCollector`
   are proved to do exactly what the functions of `ContractSync` say; the theorems are about those
   functions, over every script, every history of attempts and every table of runs.
2. *Canonical contract and difference* (`PageSequence`, `SubmissionBindings`, `ContractSnapshot`,
   `ContractPages`, `ContractDiff`; proofs in `BindingIdentity`, `BindingAddresses`, `ContractSources`,
   `FormSources`, `ContractCompleteness`, `ContractWarnings`, `ContractPresentation`,
   `ContractCompleteRuns`, `ContractPatch`, `ContractChanges`, `ContractEmission`,
   `ContractClassification`, `ContractRepetition`). Stored pages become a sorted contract with warnings;
   two contracts become a list of typed, graded changes, and those a status.
3. *Governance* (`ContractGovernance`, `ContractOverlay`, `ContractInheritance`,
   `ContractSnapshotStore`, `ContractLifecycle`, `ContractDecisions`, `ContractRefusals`,
   `ContractObservation`). Runs are recorded as snapshots, resolved by a reviewed overlay where the
   server gave nothing to observe, and approved; the invariants hold over every history of all
   operations, collection included, and each operation succeeds on exactly the rows it should.

**Beside it:** the diagnostics cache (`DiagnosticsEngine`, `DiagnosticsCache`, `DiagnosticsRefresh`),
the draft, suggestion and evidence workflow (`DraftPatches`, `DraftWorkflow`, `DraftDecisions`), the
evaluation scorer (`Scorer`), the weekly report's paging (`WeeklyPaging`), the notification log
(`Notifications`), page attribution in PDF text (`PdfPages`) and vocabulary promotion
(`VocabularyPromotion`). `JsonValues` and `Ordering` hold what they share.

Conventions. SHA-256 over the canonical encoding is a constructor of the value it is taken of, hence
injective. Unicode normalization, case folding and trimming are function parameters, with an equation
stated where one is needed. A committed transaction is one step; a table is a sequence and a row is
named by its place. Errors are values, in the order the code checks for them.

Where a property is false of the code, the model keeps the code and states the exact condition beside a
concrete input: binding keys collide when form identifiers contain colons
(`BindingIdentity.KeysDistinctIff`, `BindingIdentity.ColonsCanCollide`), repeated names hide differences
(`ContractClassification.NoChangesIffSameContents`, `ContractRepetition.RepeatedNamesHideChanges`), and
the rate of unsupported values can exceed one (`Scorer.UnsupportedRateWithinOneIff`,
`Scorer.UnsupportedRateCanExceedOne`).

## Model

| member | source | states |
|---|---|---|
| `ContractStore.SyncRun.PersistPageAndAdvanceCheckpoint` | apps/api/src/cataloging_api/dspace/contract_store.py:118-175 | Persisting one page: a COMPLETE run refuses it, a stored page is never altered (same payload and provenance give it back, anything else conflicts), a new page advances page counter, hash list and checkpoint together; rows are only appended. |
| `ContractClient.ParsedIff` | apps/api/src/cataloging_api/dspace/client.py:105-163 | A collection response is accepted as a page if and only if its pagination is three integers that make sense and its items are the objects listed under the relation, which only a collection of no elements may leave out; the page reports the body's own numbers, and everything else is an invalid-HAL error. |
| `ContractCollector.CollectSurface` | apps/api/src/cataloging_api/dspace/contract_sync_core.py:71-109 | The paging loop leaves exactly the run, requests and exit of its specification: skip a closed surface, resume at the checkpoint, refuse a page of another number, commit each page, stop after the last. |
| `ContractCollector.CollectSchemas` | apps/api/src/cataloging_api/dspace/contract_sync_core.py:121-148 | The schema loop always starts from page 0, commits each page and gathers every prefix, or raises on a schema without one. |
| `ContractCollector.CollectMetadataRegistry` | apps/api/src/cataloging_api/dspace/contract_sync_core.py:112-179 | Schemas, then all fields, then the fields of each distinct prefix in sorted order. |
| `ContractCollector.CollectActiveDefinition` | apps/api/src/cataloging_api/dspace/contract_sync_core.py:182-252 | The definition is stored as page 0 under its collection; its sections follow, and a 204 is stored as an explicit observation. |
| `ContractCollector.CollectContractRun` | apps/api/src/cataloging_api/dspace/contract_sync_core.py:255-341 | One attempt on a run, whatever is served and whenever the process dies: the committed state and the final status. |
| `ContractHistory.AttemptKeepsEvidence` | apps/api/src/cataloging_api/dspace/contract_sync_core.py:255-341 | One attempt from any state against any server keeps the evidence invariant: stored pages and hashes only grow, each surface holds pages 0 to checkpoint - 1 in order, counter and hash list match the pages, and a run that ends COMPLETE has nothing left to collect. |
| `ContractHistory.RequestsAreAnnounced` | apps/api/src/cataloging_api/dspace/contract_sync_core.py:28-109 | No page past the first is ever asked for unless the stored page before it announced it. |
| `ContractHistory.CompleteProvenanceIsUniform` | apps/api/src/cataloging_api/dspace/contract_sync_core.py:182-252 | A COMPLETE run used one page size throughout, the last attempt's collection, and sections asked for under the name of its stored definition, even against an adversarial server and changing arguments. |
| `ContractHistory.TableStep` | apps/api/src/cataloging_api/dspace/contract_store.py:101-115 | The call on the table of runs resumes the newest resumable run or opens one; a run that ended is never touched again. |
| `ContractHistory.TableForever` | apps/api/src/cataloging_api/dspace/contract_store.py:101-175 | Over every sequence of calls: stored pages are prefixes of what is stored later, and ended runs stay exactly as they ended. |
| `ContractHistory.TracesAreComparable` | apps/api/src/cataloging_api/dspace/contract_sync_core.py:71-341 | Against one server, what two histories store is always one list and a prefix of it. |
| `ContractHistory.InterruptionsDoNotShow` | apps/api/src/cataloging_api/dspace/contract_sync_core.py:255-341 | Against a server that answers alike, two histories of kills and errors store comparable pages, and if both complete they end in the same run, parameters, checkpoints and hash list included. |
| `ContractHistory.UndisturbedReturns` | apps/api/src/cataloging_api/dspace/contract_sync_core.py:255-341 | An undisturbed attempt, from whatever was left, completes whenever completion is possible. |
| `ContractHistory.OneShotCompletesTheSame` | apps/api/src/cataloging_api/dspace/contract_sync_core.py:255-341 | Resumption refines one-shot collection: if an interrupted history completes, one undisturbed attempt from scratch or from any leftover completes with the very same run. |
| `ContractReplies.LastReplyDecidesStatus` | apps/api/src/cataloging_api/dspace/contract_sync_core.py:255-341 | How a surviving call leaves its run depends on its last reply alone: INTERRUPTED exactly when that reply was a DSpace error or could not be read as what was asked for (a 204 for the sections apart), FAILED exactly when it was another exception or a page the run refuses; a killed call leaves it RUNNING. |
| `ContractResumption.ErrorsLeaveRunResumable` | apps/api/src/cataloging_api/dspace/contract_sync_core.py:319-341 | If completion is possible at all, no history of DSpace errors and kills ever costs the run: it stays resumable, or is that very completion. |
| `ContractResumption.NextCallTakesUp` | apps/api/src/cataloging_api/dspace/contract_store.py:101-115 | The next call takes up the newest run when it can be resumed, changes no other and opens none; when no run can be resumed it opens a new one. |
| `ContractResumption.OneRunIsTakenUp` | apps/api/src/cataloging_api/dspace/contract_store.py:101-115 | Calls that leave their run unfinished all work on one run, which is what the attempts in a row make of it. |
| `ContractResumption.AnyInterruptionCompletesTheSame` | apps/api/src/cataloging_api/dspace/contract_sync_core.py:255-341 | After any DSpace errors and kills, with nothing assumed of what they left, one undisturbed call ends in the very run any other completing history ends in. |
| `ContractPages.LoadPagesBySurface` | apps/api/src/cataloging_api/dspace/contract_materialize.py:31-44 | Rows are grouped by surface in page order. |
| `ContractPages.LoadedInOrder` | apps/api/src/cataloging_api/dspace/contract_materialize.py:31-44 | For a run's stored pages, ordering by surface and number gives each surface back in the order it was stored. |
| `ContractCompleteRuns.FinishedSurfaceVerdict` | apps/api/src/cataloging_api/dspace/contract_snapshot.py:75-113 | A surface the collector finished passes the page checks exactly when its pages agree on the totals; otherwise it is flagged inconsistent and nothing else. |
| `ContractCompleteRuns.SchemaWasWalked` | apps/api/src/cataloging_api/dspace/contract_snapshot.py:159-184 | Every schema prefix the canonicalizer finds is one whose fields the collector walked to the end. |
| `ContractCompleteRuns.CompleteRunIsFullyPaged` | apps/api/src/cataloging_api/dspace/contract_snapshot.py:116-132 | A COMPLETE run, against any server, has every required surface, every schema's listing and one named definition; its page sequences are exact if and only if totals never changed between pages. |
| `PageSequence.ValidatePageSequence` | apps/api/src/cataloging_api/dspace/contract_snapshot.py:75-113 | The loop over the payloads and the checks after it give the first thing wrong with a page sequence. |
| `PageSequence.CleanIffExact` | apps/api/src/cataloging_api/dspace/contract_snapshot.py:75-113 | A page sequence is clean if and only if it is pages 0 to totalPages - 1, each once, with agreeing totals (or the single empty page). |
| `ContractSnapshot.BuildCanonicalRegistry` | apps/api/src/cataloging_api/dspace/contract_snapshot.py:145-213 | The schema and field loops, with their warnings, and both sorts. |
| `ContractSources.SchemasReadThePages` | apps/api/src/cataloging_api/dspace/contract_snapshot.py:145-171 | A schema is in the contract if and only if an item on a stored schema page declares it with a prefix; identifier and namespace are that item's. |
| `ContractSources.FieldsReadThePages` | apps/api/src/cataloging_api/dspace/contract_snapshot.py:173-204 | A field is in the contract if and only if an item on a page of some declared schema's listing carries its element and qualifier; its name is the dotted one under that schema's prefix. |
| `FormSources.ItemsInOrder` | apps/api/src/cataloging_api/dspace/contract_snapshot.py:62-72 | A surface's items are exactly the objects on its stored pages, in the order of the pages and of the entries on them. |
| `ContractSnapshot.PageSequenceWarnings` | apps/api/src/cataloging_api/dspace/contract_snapshot.py:116-132 | Exactly the warnings of the required surfaces and of every by-schema listing there is. |
| `ContractSnapshot.BuildContractSnapshot` | apps/api/src/cataloging_api/dspace/contract_snapshot.py:331-377 | The canonical contract, its hash, the sorted set of all warnings, and completeness as their absence. |
| `SubmissionBindings.BuildActiveFormIds` | apps/api/src/cataloging_api/dspace/contract_snapshot.py:242-261 | The forms the active sections link to, in order, with a warning for a section that links to none and for no form at all. |
| `SubmissionBindings.ActiveFormsMeaning` | apps/api/src/cataloging_api/dspace/contract_snapshot.py:242-261 | The active forms are, in order, the form each form section links to or else is named after; there is one warning for each section with neither, and one when no form is active. |
| `SubmissionBindings.ConfigFormMeaning` | apps/api/src/cataloging_api/dspace/contract_snapshot.py:216-222 | A section's form is exactly the last segment of its configuration link, whatever slashes end the link; a link of slashes only has none. |
| `SubmissionBindings.BuildCanonicalBindings` | apps/api/src/cataloging_api/dspace/contract_snapshot.py:264-328 | The nested loops over forms, rows, fields and options, with a dictionary of counters, number each option by how many earlier ones have its form and metadata; the result is sorted by key. |
| `SubmissionBindings.MeetAllNumbers` | apps/api/src/cataloging_api/dspace/contract_snapshot.py:304-307 | Counting in a dictionary agrees with counting the earlier occurrences. |
| `BindingAddresses.SlotsAreAddressed` | apps/api/src/cataloging_api/dspace/contract_snapshot.py:271-303 | The loops meet exactly the options that a section, row, field and option index lead to and that name their metadata. |
| `BindingAddresses.BindingsReadTheForms` | apps/api/src/cataloging_api/dspace/contract_snapshot.py:304-328 | Every canonical binding reads its attributes off the option at its position, and every such option has a binding. |
| `BindingAddresses.OccurrencesFollowPositions` | apps/api/src/cataloging_api/dspace/contract_snapshot.py:304-327 | Among bindings of one form and metadata the occurrence counts up with the position. |
| `FormSources.SectionsReadThePages` | apps/api/src/cataloging_api/dspace/contract_snapshot.py:225-239 | The sections are the objects on the stored pages, in the order of the pages and of the entries on them, each read attribute by attribute and numbered. |
| `FormSources.DefinitionReadsThePage` | apps/api/src/cataloging_api/dspace/contract_snapshot.py:348-354 | The definition is named by the first page stored of it. |
| `FormSources.FormsMeaning` | apps/api/src/cataloging_api/dspace/contract_snapshot.py:270-276 | A name stands for the last form that goes by it, by identifier or, for want of one, by name. |
| `BindingIdentity.OccurrencesIdentify` | apps/api/src/cataloging_api/dspace/contract_snapshot.py:304-328 | Form, metadata and occurrence are pairwise distinct over the canonical bindings, and occurrences run 0, 1, ... without a gap. |
| `BindingIdentity.EmissionAscends` | apps/api/src/cataloging_api/dspace/contract_snapshot.py:277-327 | Positions increase strictly and lexicographically in the order the loops emit them. |
| `BindingIdentity.PositionUndoesKeyOrder` | apps/api/src/cataloging_api/dspace/contract_snapshot.py:313-328 | Sorting the canonical bindings by position gives back exactly the emission order. |
| `BindingIdentity.KeysDistinctIff` | apps/api/src/cataloging_api/dspace/contract_snapshot.py:309-328 | Binding keys are pairwise distinct if and only if no two bound pairs of form and metadata read the same when joined by a colon. |
| `BindingIdentity.PlainFormIdsGiveDistinctKeys` | apps/api/src/cataloging_api/dspace/contract_snapshot.py:309-328 | Form identifiers without a colon are enough for distinct keys. |
| `BindingIdentity.ColonsCanCollide` | apps/api/src/cataloging_api/dspace/contract_snapshot.py:309-309 | A concrete pair of forms, one with a colon in its identifier, whose bindings share a key. |
| `ContractCompleteness.CompleteIffExact` | apps/api/src/cataloging_api/dspace/contract_snapshot.py:331-377 | complete is true if and only if every page sequence is exact, the definition is there once with a name, every schema has its named field listing, field identifiers occur once and are the global ones, and every active form resolves with rows and registered metadata only. |
| `ContractWarnings.WarningsMeaning` | apps/api/src/cataloging_api/dspace/contract_snapshot.py:75-377 | The warnings are exactly those called for, sorted and each once: a missing surface, the first flaw of each page sequence, an item without prefix or name, a missing listing, a repeated identifier, a coverage mismatch with both counts, a bad definition, sections that name no form, forms without rows, and bindings of unregistered fields. |
| `ContractPresentation.ResplitKeepsContract` | apps/api/src/cataloging_api/dspace/contract_snapshot.py:62-72 | The same items on other pages give the same contract and the same item warnings. |
| `ContractPresentation.CuttingAPageKeepsItems` | apps/api/src/cataloging_api/dspace/contract_snapshot.py:62-72 | Cutting one page's list in two leaves the surface's items as they were. |
| `ContractPresentation.RearrangingKeepsSnapshot` | apps/api/src/cataloging_api/dspace/contract_snapshot.py:145-213 | When complete and no prefix names two schemas, permuting schemas and fields, on whatever exact pages, leaves the whole snapshot unchanged. |
| `ContractDiff.DiffContractSnapshots` | apps/api/src/cataloging_api/dspace/contract_snapshot.py:384-495 | The comparison blocks in order, their keys sorted, emit exactly the typed and graded changes. |
| `ContractDiff.KeysOfMeaning` | apps/api/src/cataloging_api/dspace/contract_snapshot.py:380-402 | The keys compared are exactly those added, removed or shared, each once, with the last of equal names standing. |
| `ContractChanges.DiffMeaning` | apps/api/src/cataloging_api/dspace/contract_snapshot.py:384-495 | A record is in the change list if and only if the two contracts call for it: its type names the attribute or item that differs, its severity is that of its type, before and after are what each contract holds, and removals need a complete observation. |
| `ContractEmission.DiffAscends` | apps/api/src/cataloging_api/dspace/contract_snapshot.py:388-495 | The warnings of an incomplete observation come first and in their order; all other records ascend strictly by block, then name, then attribute, so none is emitted twice. |
| `ContractEmission.AscendingOnce` | apps/api/src/cataloging_api/dspace/contract_snapshot.py:388-495 | Two strictly ascending lists of the same records are the same list: which records are called for determines the whole emission. |
| `ContractPatch.KindPatched` | apps/api/src/cataloging_api/dspace/contract_snapshot.py:393-473 | The changes of one kind of item turn the old dictionary into the new one, or into the new one over the old when the observation is incomplete. |
| `ContractPatch.DiffIsPatch` | apps/api/src/cataloging_api/dspace/contract_snapshot.py:384-495 | Applying the emitted change records to the previous contract rebuilds the current one (over what it could not see, when incomplete). |
| `ContractClassification.PatchRebuildsContract` | apps/api/src/cataloging_api/dspace/contract_snapshot.py:384-495 | With sorted, uniquely named lists the patch determines the current canonical contract itself. |
| `ContractClassification.BuiltIsWellKeyed` | apps/api/src/cataloging_api/dspace/contract_snapshot.py:211-212 | Built lists are always sorted; their names are unique if and only if prefixes, field names and joined pairs of the items are. |
| `ContractClassification.NoChangesIffSameContents` | apps/api/src/cataloging_api/dspace/contract_snapshot.py:384-495 | Against a complete observation the change list is empty if and only if the dictionaries agree. |
| `ContractClassification.NoChangesIffSame` | apps/api/src/cataloging_api/dspace/contract_snapshot.py:384-495 | With unique names the change list is empty if and only if the two contracts are equal. |
| `ContractRepetition.RepeatedNamesHideChanges` | apps/api/src/cataloging_api/dspace/contract_snapshot.py:380-381 | Two sets of pages, both giving complete snapshots, whose contracts differ by a field of repeated name although the comparison reports nothing. |
| `ContractClassification.NoneSevereIffCompatible` | apps/api/src/cataloging_api/dspace/contract_snapshot.py:384-495 | No change is HIGH or CRITICAL if and only if every schema, field and binding is still there with the same field id, required, repeatable, input type and vocabulary, and definition and sections are the same. |
| `ContractClassification.StatusMeaning` | apps/api/src/cataloging_api/dspace/contract_materialize.py:66-79 | NO_CHANGE holds exactly for the same contract, DIFF_DETECTED exactly for a different compatible extension, REVIEW_REQUIRED for everything else and for every incomplete observation. |
| `ContractClassification.IncompleteNeverRemoves` | apps/api/src/cataloging_api/dspace/contract_snapshot.py:388-448 | An incomplete observation reports no removal, and reports each of its warnings as critical. |
| `ContractSnapshotStore.SnapshotStore.MaterializeSnapshotForRun` | apps/api/src/cataloging_api/dspace/contract_materialize.py:82-132 | One call: the table and the answer are those of the specification, an error leaving the table as it was. |
| `ContractSnapshotStore.SnapshotStore.ResolveAuthoritativeEvidence` | apps/api/src/cataloging_api/dspace/contract_resolution.py:147-234 | One call: every check in order, then the overlay and the status it leads to. |
| `ContractSnapshotStore.SnapshotStore.ApproveSnapshot` | apps/api/src/cataloging_api/dspace/contract_governance.py:144-185 | One call: the transition, the superseded baseline and the approved row. |
| `ContractSnapshotStore.ValidateReconciledOverlay` | apps/api/src/cataloging_api/dspace/contract_resolution.py:65-135 | The first check an overlay fails, the last ones place by place against the reviewed profile. |
| `ContractOverlay.AcceptedIffReconciled` | apps/api/src/cataloging_api/dspace/contract_resolution.py:65-135 | An overlay is accepted if and only if the snapshot is resolvable, the two forms are in order, the keys are distinct, the names are registered and every place in rendering order matches the profile; the counting checks refuse nothing else. |
| `ContractSnapshotStore.BuildInheritedEffectiveSnapshot` | apps/api/src/cataloging_api/dspace/contract_inheritance.py:47-131 | The inherited view, or none, as the all-or-nothing checks decide. |
| `ContractSnapshotStore.BuildNormalizedBindings` | apps/api/src/cataloging_api/dspace/contract_inheritance.py:37-44 | Normalizing binding by binding and sorting by key; one that cannot be normalized rejects all. |
| `ContractSnapshotStore.RecordSnapshot` | apps/api/src/cataloging_api/dspace/contract_snapshot_store.py:103-145 | One row per run; recording again gives the row back, and the inherited resolution is written once. |
| `ContractInheritance.NormalizationForgetsSections` | apps/api/src/cataloging_api/dspace/contract_inheritance.py:25-44 | Two lists normalize alike if and only if, sorted by key, they differ at most in the section component of positions. |
| `ContractInheritance.InheritingRunReprovesBindings` | apps/api/src/cataloging_api/dspace/contract_inheritance.py:47-131 | A run inherits only if its own form pages give the approved bindings again, but for their section. |
| `ContractInheritance.InheritsIff` | apps/api/src/cataloging_api/dspace/contract_inheritance.py:47-131 | A run inherits if and only if the ACTIVE resolution is of the active sections, nothing but those sections went unobserved, definition, schemas and fields are the approved ones, the approved sections use the two forms in order, both forms bind without a warning, and the bindings differ at most in section places. |
| `ContractLifecycle.InheritedIsApproved` | apps/api/src/cataloging_api/dspace/contract_inheritance.py:121-131 | What is inherited is the approved contract itself, with its hash. |
| `ContractLifecycle.InheritanceChangesNothing` | apps/api/src/cataloging_api/dspace/contract_materialize.py:105-129 | A run that reproves the approved resolution is recorded NO_CHANGE, with no changes, and governed by the very contract that is ACTIVE. |
| `ContractLifecycle.ObservedStatusMeaning` | apps/api/src/cataloging_api/dspace/contract_materialize.py:116-126 | Otherwise a new row's status says how its observation compares with the ACTIVE contract. |
| `ContractLifecycle.MaterializingSucceedsIff` | apps/api/src/cataloging_api/dspace/contract_inheritance.py:134-160 | Recording a COMPLETE run fails if and only if it was recorded before, now reproves what the ACTIVE row was approved as, and its row has a resolution that is another contract or was not inherited from that row; the error is then the inherited-resolution conflict, never a snapshot conflict. |
| `ContractDecisions.BaselineStatusMeaning` | apps/api/src/cataloging_api/dspace/contract_materialize.py:66-79 | Without an ACTIVE row, a run recorded for the first time is one row more, BASELINE_REVIEW_REQUIRED exactly when its observation is complete and REVIEW_REQUIRED otherwise, with no changes. |
| `ContractDecisions.FirstBaseline` | apps/api/src/cataloging_api/dspace/contract_governance.py:101-185 | A complete first observation becomes ACTIVE by approving it under its own hash. |
| `ContractDecisions.ComparedWithInForce` | apps/api/src/cataloging_api/dspace/contract_materialize.py:105-129 | Against an ACTIVE row, a run that does not inherit is one row more that keeps the comparison of the governing contract with the observed one. |
| `ContractDecisions.InheritedRowIs` | apps/api/src/cataloging_api/dspace/contract_inheritance.py:134-161 | A run that reproves the ACTIVE resolution is recorded NO_CHANGE; its row, new or not resolved yet, takes over contract, hash and evidence of the resolution and says where from, and no other row changes. |
| `ContractDecisions.RecordedAgain` | apps/api/src/cataloging_api/dspace/contract_snapshot_store.py:103-145 | Recording a run again that inherits nothing gives its row back and changes nothing. |
| `ContractDecisions.RecordsOnlyComplete` | apps/api/src/cataloging_api/dspace/contract_materialize.py:88-90 | A run that is missing or not COMPLETE is never recorded. |
| `ContractDecisions.ResolvedIff` | apps/api/src/cataloging_api/dspace/contract_resolution.py:147-234 | An unresolved row is resolved if and only if the two free hashes are well formed, the row is named by its hash, its run's one page of sections is the 204 record, the overlay is reconciled, and the expected hash is that of the observed contract under the overlay's sections and key-sorted bindings; the row then holds exactly that, and nothing else changes. |
| `ContractDecisions.ResolvedOnce` | apps/api/src/cataloging_api/dspace/contract_resolution.py:162-187 | A resolved row is never resolved again: the request is answered exactly when both contracts and both evidence hashes are the stored ones. |
| `ContractObservation.NoContentIsRecorded` | apps/api/src/cataloging_api/dspace/contract_resolution.py:138-145 | A run that completes against a server that answers 204 for its active sections, after whatever interruptions, stores exactly the record that a resolution asks for. |
| `ContractDecisions.RepeatedResolution` | apps/api/src/cataloging_api/dspace/contract_resolution.py:162-187 | A resolution that was made answers its repetition with the same row and changes nothing. |
| `ContractRefusals.ResolutionRefused` | apps/api/src/cataloging_api/dspace/contract_resolution.py:147-214 | A refused resolution of an unresolved row names the first thing in its way: malformed hashes, no such row, another snapshot, no 204 record, the overlay's first fault, another effective contract. |
| `ContractRefusals.OverlayRefused` | apps/api/src/cataloging_api/dspace/contract_resolution.py:65-135 | A refused overlay is refused for the first fault of the snapshot, of its own shape, or of the first place that does not match, by the first attribute that differs there. |
| `ContractDecisions.ApprovedIff` | apps/api/src/cataloging_api/dspace/contract_governance.py:101-185 | Approval succeeds if and only if the row exists, is named by the hash of the contract it stands for, is complete or was resolved by someone named, and is ACTIVE already, or the first baseline candidate with none ACTIVE, or a difference or review candidate with one ACTIVE; then exactly that row becomes ACTIVE, the former one SUPERSEDED, and nothing else changes. |
| `ContractRefusals.ApprovalRefused` | apps/api/src/cataloging_api/dspace/contract_governance.py:101-125 | A refused approval names the first thing in its way: no such row, another hash, not complete, no baseline candidate, not reviewed; in a governed table an ACTIVE row never differs from what it was approved as. |
| `ContractLifecycle.MaterializeKeeps` | apps/api/src/cataloging_api/dspace/contract_materialize.py:82-132 | Materializing keeps every governance invariant. |
| `ContractLifecycle.ResolveKeeps` | apps/api/src/cataloging_api/dspace/contract_resolution.py:147-234 | Resolving keeps every governance invariant. |
| `ContractLifecycle.ApproveKeeps` | apps/api/src/cataloging_api/dspace/contract_governance.py:101-185 | Approving keeps every governance invariant. |
| `ContractLifecycle.GovernedForever` | apps/api/src/cataloging_api/dspace/contract_governance.py:101-185 | Over every history of collecting, materializing, resolving and approving: observations never change, resolutions are made once, approved rows are frozen, superseded rows stay superseded. |
| `ContractLifecycle.OneActiveForever` | apps/api/src/cataloging_api/dspace/contract_snapshot_store.py:32-37 | Once a baseline is approved there is exactly one ACTIVE snapshot after any further operations. |
| `ContractLifecycle.ApprovedIsFrozen` | apps/api/src/cataloging_api/dspace/contract_governance.py:51-59 | An approved row keeps its content, stays governance-complete, and its approved hash is the hash of what governs. |
| `ContractLifecycle.EveryHistoryIsGoverned` | apps/api/src/cataloging_api/dspace/contract_governance.py:101-185 | From empty tables, over any history and any continuation of it: never more than one ACTIVE snapshot, exactly one once there was one, and every row ever approved frozen from then on. |
| `ContractLifecycle.ApprovedRestsOnEvidence` | apps/api/src/cataloging_api/dspace/contract_resolution.py:189-197 | An approved row is what its run canonicalizes to; it is complete with exact pages, or resolved on its run's 204 record, or carries an approved row's resolution. |
| `DiagnosticsEngine.GroupMetadataValues` | apps/api/src/cataloging_api/diagnostics/engine.py:213-217 | Values are grouped by field in order. |
| `DiagnosticsEngine.EvaluateMetadata` | apps/api/src/cataloging_api/diagnostics/engine.py:77-210 | Hierarchy, required, duplicate and vocabulary findings, in that order. |
| `DiagnosticsEngine.EvaluationMeaning` | apps/api/src/cataloging_api/diagnostics/engine.py:77-210 | A finding is reported if and only if its rule calls for it: a child field filled and its parent not, a required field empty, values that coincide once normalized, or values outside the approved revision, with exactly those values as sorted evidence. |
| `DiagnosticsEngine.EvaluationIsOrdered` | apps/api/src/cataloging_api/diagnostics/engine.py:77-210 | Findings come rule by rule, and within a rule in the order of field names or of the controlled fields. |
| `DiagnosticsEngine.EvaluationIgnoresOrder` | apps/api/src/cataloging_api/diagnostics/engine.py:77-210 | Findings depend on which values each field has and how often, not on their order. |
| `DiagnosticsEngine.FingerprintsAreDistinct` | apps/api/src/cataloging_api/diagnostics/engine.py:43-55 | The findings of one evaluation have pairwise distinct fingerprints. |
| `DiagnosticsCache.ReplaceItemFindings` | apps/api/src/cataloging_api/diagnostics/repository.py:24-79 | The row's findings, source hash and profile after evaluation, and whether a fingerprint is new. |
| `DiagnosticsCache.NewIff` | apps/api/src/cataloging_api/diagnostics/repository.py:78-79 | There is something new if and only if some fingerprint was not there before; the same findings again bring nothing. |
| `DiagnosticsCache.DiagnosticsStore.UpsertItem` | apps/api/src/cataloging_api/sync/repository.py:59-169 | An item with the same hash and profile is left alone; any other is evaluated and stored; the call reports whether the item changed and whether there is a finding that was not there before. |
| `DiagnosticsCache.DiagnosticsStore.RebuildItem` | apps/api/src/cataloging_api/diagnostics/service.py:49-69 | Rebuilding one item stores the findings of its stored metadata under the given rules. |
| `DiagnosticsCache.DiagnosticsStore.ReplaceActiveVocabulary` | apps/api/src/cataloging_api/vocabularies/service.py:137-162 | Replacing a vocabulary adds a revision and makes it the field's active one. |
| `DiagnosticsCache.StepKeeps` | apps/api/src/cataloging_api/sync/repository.py:59-169 | Upserts with whatever rules they were started with, rebuilds and vocabulary replacements keep stored findings explained by the profile stored with them. |
| `DiagnosticsCache.ProfileTells` | apps/api/src/cataloging_api/diagnostics/engine.py:58-74 | The profile version determines the required fields and the vocabulary revisions it was taken of. |
| `DiagnosticsCache.CurrentIsFresh` | apps/api/src/cataloging_api/api/routes.py:533-545 | An item reported current has stored exactly the findings of evaluating its stored metadata under the active rules. |
| `DiagnosticsCache.HistoryIsSound` | apps/api/src/cataloging_api/diagnostics/service.py:28-72 | Every state of every history from empty tables is sound. |
| `DiagnosticsRefresh.UpsertRefreshes` | apps/api/src/cataloging_api/sync/repository.py:59-169 | Leaving an unchanged item alone does not show: an upsert leaves the source, values, findings and profile that storing and evaluating the item anew would leave, and no other row changes. |
| `DiagnosticsRefresh.UpsertedIsCurrent` | apps/api/src/cataloging_api/api/routes.py:533-545 | An item just upserted under the active rules is reported current. |
| `DiagnosticsRefresh.RebuildRefreshes` | apps/api/src/cataloging_api/diagnostics/service.py:28-72 | A rebuild leaves the stored source and values of its item and what evaluating them gives, and no other row changes. |
| `DiagnosticsRefresh.ReplacementOutdates` | apps/api/src/cataloging_api/vocabularies/service.py:137-162 | A replaced vocabulary is a new revision and the active one of its field only; nothing stored changes, and no item is reported current until it is evaluated again. |
| `WeeklyPaging.Collect` | apps/api/src/cataloging_api/reports/weekly_dspace.py:250-353 | Against any server the loop ends; it returns the rows of a complete collection, and raises only if there is none whose items all build. |
| `WeeklyPaging.CompleteConserves` | apps/api/src/cataloging_api/reports/weekly_dspace.py:687-747 | A complete collection is pages 0 to totalPages - 1, once each, and exactly totalElements items. |
| `WeeklyPaging.LoadedIff` | apps/api/src/cataloging_api/reports/weekly_dspace.py:687-731 | A page is accepted if and only if it is the number asked for, states no other size, announces the fewest pages that hold its total, and has as many items as fall to it. |
| `WeeklyPaging.CompleteIff` | apps/api/src/cataloging_api/reports/weekly_dspace.py:250-291 | A collection is complete if and only if the server gives every page it announces under its number, with totals that never change. |
| `WeeklyPaging.RowsAre` | apps/api/src/cataloging_api/reports/weekly_dspace.py:275-286 | The rows are what the items contribute, in order, if none fails; otherwise the first failure is the answer. |
| `WeeklyPaging.PagesSumToTotal` | apps/api/src/cataloging_api/reports/weekly_dspace.py:724-731 | The expected item counts over the expected number of pages add up to the total. |
| `Scorer.MatchGreedily` | apps/api/src/cataloging_api/evaluation/scorer.py:89-138 | Each proposal in turn takes the first free expected candidate that fits. |
| `Scorer.ScoreCase` | apps/api/src/cataloging_api/evaluation/scorer.py:81-208 | Counts, binding diagnostics, unsupported values and the error list of a case. |
| `Scorer.GreedyMatches` | apps/api/src/cataloging_api/evaluation/scorer.py:89-138 | The pairs fit and are one-to-one. |
| `Scorer.GreedyIsMaximal` | apps/api/src/cataloging_api/evaluation/scorer.py:89-103 | No fitting pair is left with both sides free. |
| `Scorer.TruePositivesAreHalfOptimal` | apps/api/src/cataloging_api/evaluation/scorer.py:89-103 | No authoritative assignment has more than twice the true positives counted. |
| `Scorer.PairsMeaning` | apps/api/src/cataloging_api/evaluation/scorer.py:35-138 | True positives pair proposals with expected candidates of the same normalized value, intent and binding whose grounding, where required, cites allowed sources only and an accepted range; diagnostic pairs agree in value and intent and fail in one of the others; neither kind leaves a fitting pair with both sides free. |
| `Scorer.UnsupportedCounts` | apps/api/src/cataloging_api/evaluation/scorer.py:162-175 | The unsupported count is the number of proposals for a binding to abstain on plus the number of those of a prohibited value. |
| `Scorer.EveryProposalHasOneClass` | apps/api/src/cataloging_api/evaluation/scorer.py:89-191 | Every proposed index is exactly one of true positive, diagnostic match and reported UNSUPPORTED_VALUE. |
| `Scorer.UnsupportedIff` | apps/api/src/cataloging_api/evaluation/scorer.py:188-191 | UNSUPPORTED_VALUE is reported for exactly the proposed indices in neither kind of match. |
| `Scorer.MissingIff` | apps/api/src/cataloging_api/evaluation/scorer.py:192-196 | MISSING_EXPECTED_CANDIDATE is reported for exactly the expected indices no true positive has, when recall applies. |
| `Scorer.PairErrorsIff` | apps/api/src/cataloging_api/evaluation/scorer.py:177-186 | WRONG_BINDING and BAD_GROUNDING are reported for exactly the diagnostic matches whose binding, or grounding, is not right. |
| `Scorer.ScoreBalances` | apps/api/src/cataloging_api/evaluation/scorer.py:140-196 | tp + fp is the proposed count, tp + fn the expected count when recall applies, missing errors number fn, unsupported errors and diagnostic matches make up fp, and binding accuracy is tp over tp plus wrong bindings. |
| `Scorer.UnsupportedRateWithinOneIff` | apps/api/src/cataloging_api/evaluation/scorer.py:162-175 | The unsupported count stays within the number of proposals if and only if no more proposals are both abstained on and prohibited than are neither; in particular when none is both. |
| `Scorer.UnsupportedRateCanExceedOne` | apps/api/src/cataloging_api/evaluation/scorer.py:162-175 | A case in which the rate exceeds one. |
| `DraftPatches.NormalizeMetadataPatch` | apps/api/src/cataloging_api/drafts/service.py:36-62 | The field loop, with the first error it meets. |
| `DraftPatches.AcceptedIff` | apps/api/src/cataloging_api/drafts/service.py:36-62 | A patch is accepted if and only if it is not empty, names draftable fields only, and has few and short values. |
| `DraftDecisions.StripTrims` | apps/api/src/cataloging_api/drafts/service.py:50-53 | Trimming takes white space away at the ends only, and all of it. |
| `DraftDecisions.TrimsOnce` | apps/api/src/cataloging_api/drafts/service.py:50-53 | There is only one way to trim a text. |
| `DraftDecisions.NormalizedIff` | apps/api/src/cataloging_api/drafts/service.py:36-62 | A patch is stored if and only if it names draftable fields only, each with at most 20 values of at most 1000 trimmed characters; stored is every field with its values trimmed and the blank ones left out. |
| `DraftPatches.NormalizationIsIdempotent` | apps/api/src/cataloging_api/drafts/service.py:36-62 | Normalization is the identity on its own output. |
| `DraftPatches.MergeCandidates` | apps/api/src/cataloging_api/evidence/service.py:901-905 | Candidates are appended to their field unless it has the value already. |
| `DraftPatches.CopyingDropsNothing` | apps/api/src/cataloging_api/evidence/service.py:798-907 | The merged and normalized patch has every earlier value and every candidate that is not blank. |
| `DraftWorkflow.DraftStore.CreateDraft` | apps/api/src/cataloging_api/drafts/service.py:98-146 | One call: idempotent by request, refused if the item has a draft, otherwise version 1 at the item's hash. |
| `DraftWorkflow.DraftStore.AppendDraftRevision` | apps/api/src/cataloging_api/drafts/service.py:149-193 | One call: refused when stale or not at the expected version, otherwise the next version. |
| `DraftWorkflow.DraftStore.CopyCandidatesToDraft` | apps/api/src/cataloging_api/evidence/service.py:809-916 | One call: the session and candidate checks, then a new draft or a merged revision. |
| `DraftDecisions.CreatedIff` | apps/api/src/cataloging_api/drafts/service.py:98-146 | A new request opens a draft if and only if the item is known and active, has no draft, and the patch is acceptable; what stands in the way is named in that order and changes nothing; the draft holds the item's hash and draftable metadata and version 1. |
| `DraftDecisions.AppendedIff` | apps/api/src/cataloging_api/drafts/service.py:149-193 | A new request appends if and only if the draft is the item's, the item's hash is the draft's base, the expected version is the latest, and the patch is acceptable; otherwise it is missing, stale, a conflict or unsupported, in that order, and nothing changes; the new revision is the expected version plus one. |
| `DraftDecisions.OneOfTwoAppends` | apps/api/src/cataloging_api/drafts/service.py:175-177 | Of two appends by different new requests that expect the same version, the second is refused and changes nothing, whatever operations come between. |
| `DraftDecisions.KnownAnswers` | apps/api/src/cataloging_api/drafts/service.py:107-111 | A known request is answered with its draft when it names that draft again, and refused when it does not. |
| `DraftDecisions.CopiedIff` | apps/api/src/cataloging_api/evidence/service.py:809-916 | Evidence is copied if and only if the session's item is unchanged and the selection is found, not empty and allowed: into a new draft of exactly the selected values by field, or into a revision that keeps every value in order and adds the selected ones it did not have once each. |
| `DraftDecisions.SuggestionDecidedIff` | apps/api/src/cataloging_api/suggestions/decisions.py:30-125 | A new decision is recorded if and only if the suggestion may be decided so: dismissed at any time, used only while item and draft are current and the value fits its field; a refusal changes nothing, and dismissing touches no draft. |
| `DraftDecisions.KnownSuggestionDecision` | apps/api/src/cataloging_api/suggestions/decisions.py:30-60 | A decision request that is repeated gives the first record, or a conflict when it names another suggestion. |
| `DraftDecisions.SuggestionRefused` | apps/api/src/cataloging_api/suggestions/decisions.py:40-110 | A decision that is not recorded is refused for the first thing in its way: an empty correction, a missing suggestion, a changed item, an item that may not be drafted, a draft that is not current, a value that does not fit. |
| `DraftDecisions.RevisionDecidedIff` | apps/api/src/cataloging_api/drafts/decisions.py:78-114 | A new decision is recorded if and only if the draft is the item's, the item unchanged, the version the latest, and an override is claimed by approvals only and by every approval of an invalid revision; otherwise it is missing, a conflict or unsupported, in that order, and nothing changes. |
| `DraftWorkflow.StepKeeps` | apps/api/src/cataloging_api/drafts/service.py:98-193 | At most one draft per item, versions 1 to n, request identifiers used once, base hash and old revisions immutable; revisions and decisions are written only while the item's hash is the base hash, decisions on the latest revision only; a suggestion's revision exists only with its decision. |
| `DraftWorkflow.SoundForever` | apps/api/src/cataloging_api/drafts/decisions.py:47-114 | Over every history no draft, base, revision or decision is lost or altered, and soundness stays. |
| `DraftWorkflow.RevisionsWereFresh` | apps/api/src/cataloging_api/drafts/service.py:98-193 | In every history each revision was written by an operation that found the item's hash equal to the draft's base hash. |
| `DraftWorkflow.DecisionsWereOnLatest` | apps/api/src/cataloging_api/drafts/decisions.py:78-91 | In every history each decision was made on what was then the latest revision of a draft whose item was unchanged. |
| `DraftWorkflow.EveryHistoryIsSound` | apps/api/src/cataloging_api/drafts/service.py:98-193 | From a store in which nothing was drafted, after any history: soundness, every revision written while its item was unchanged, every decision made on the then latest revision. |
| `DraftWorkflow.KnownRequestAddsNothing` | apps/api/src/cataloging_api/drafts/service.py:107-111 | A known request changes nothing, and a creation with it is answered exactly when it names the same item. |
| `DraftWorkflow.RepeatedCreation` | apps/api/src/cataloging_api/drafts/service.py:107-111 | A creation repeated after any further operations is answered with the same draft and adds nothing. |
| `DraftWorkflow.RepeatedRevision` | apps/api/src/cataloging_api/drafts/service.py:160-164 | An append repeated after any further operations is answered with the same draft and adds nothing. |
| `DraftWorkflow.RepeatedDecision` | apps/api/src/cataloging_api/drafts/decisions.py:59-76 | A decision request repeated after any further operations gives the first record, or a conflict if it says something else, and adds nothing. |
| `DraftWorkflow.AcceptedSuggestionIsCarried` | apps/api/src/cataloging_api/suggestions/decisions.py:40-110 | An accepted or corrected suggestion was made for the item as it is; the recorded draft version is the latest, has the settled value in the suggested field and nothing else changed. |
| `DraftWorkflow.AcceptedSuggestionKeepsOtherFields` | apps/api/src/cataloging_api/suggestions/decisions.py:83-97 | Accepting a suggestion changes the suggested field of the latest patch and no other. |
| `DraftWorkflow.CopiedEvidenceKeepsValues` | apps/api/src/cataloging_api/evidence/service.py:891-916 | Copying evidence into an existing draft drops no earlier value that is not blank. |
| `Notifications.CursorRoundTrip` | apps/api/src/cataloging_api/notifications/service.py:22-33 | Decoding gives back the sequence number that was encoded. |
| `Notifications.PageOfGrownLog` | apps/api/src/cataloging_api/notifications/service.py:49-77 | A page of a log that has grown is the next stretch, backwards, of the log as it was at the first page. |
| `Notifications.WalkReadsTheLog` | apps/api/src/cataloging_api/notifications/service.py:49-77 | Following the cursors reads every delivery there was at the first page exactly once, in descending order, while the log grows, and comes to a page without a cursor after at most one page per delivery (one page for an empty log). |
| `Notifications.EndedWalkStays` | apps/api/src/cataloging_api/notifications/service.py:49-77 | Once a page has no cursor no further page is asked for, however much longer the client lives. |
| `Notifications.PublishingDeliversOnce` | apps/api/src/cataloging_api/notifications/publisher.py:44-62 | Each claimed event has a delivery afterwards if unmuted and gains none if muted; no event has two; the log only grows. |
| `Notifications.PublishingLeaves` | apps/api/src/cataloging_api/notifications/publisher.py:41-62 | Every claimed row is published and counts one attempt more; a number is drawn for each row of an unmuted type; each delivery added is of a claimed, unmuted event that had none, under a new number, and unread; no other row, delivery or state changes. |
| `Notifications.NotificationService.PublishClaimed` | apps/api/src/cataloging_api/notifications/publisher.py:41-62 | The fan-out loop, and the sequence numbers of exactly the deliveries it added. |
| `Notifications.NotificationService.MarkRead` | apps/api/src/cataloging_api/notifications/service.py:91-101 | Only an unread state changes, and no delivery. |
| `Notifications.NotificationService.Archive` | apps/api/src/cataloging_api/notifications/service.py:116-126 | Only the state changes, and no delivery. |
| `PdfPages.PageCharOffsets` | apps/api/src/cataloging_api/evidence/pdf_extraction.py:82-87 | The offset loop gives where each page's text starts in the joined text. |
| `PdfPages.PageForOffset` | apps/api/src/cataloging_api/evidence/pdf_extraction.py:108-121 | The last of the leading pages that start no later than the offset. |
| `PdfPages.AttributionInvertsJoining` | apps/api/src/cataloging_api/evidence/pdf_extraction.py:82-121 | For every offset into the joined text, the page named holds that character, or is followed by that separator. |
| `PdfPages.LineSpans` | apps/api/src/cataloging_api/evidence/service.py:642-666 | The line loop's spans and pages. |
| `PdfPages.LinesLieOnTheirPage` | apps/api/src/cataloging_api/evidence/service.py:642-666 | A line that is not empty stands where its span says and lies wholly on the page it cites. |
| `PdfPages.SpansStand` | apps/api/src/cataloging_api/evidence/service.py:642-666 | Lines are counted from 1; each stands at its span, also an empty one, and starts on the page it cites or on the separator after it. |
| `VocabularyPromotion.ResolvePromotionValues` | apps/api/src/cataloging_api/vocabularies/promotion_routes.py:37-74 | The choice and selection loops. |
| `VocabularyPromotion.ResolvesIff` | apps/api/src/cataloging_api/vocabularies/promotion_routes.py:45-61 | It succeeds if and only if the choices pick one existing variant for each ambiguous key; a choice that is no such variant, or a second one for its key, is the error reported first. |
| `VocabularyPromotion.AmbiguousCollides` | apps/api/src/cataloging_api/vocabularies/promotion_routes.py:41-49 | A key is ambiguous if and only if two different values normalize to it. |
| `VocabularyPromotion.ResolvedKeepsOnePerKey` | apps/api/src/cataloging_api/vocabularies/promotion_routes.py:63-74 | The result is a subsequence with exactly one value for every key there was, the chosen one where there was a choice. |
| `VocabularyPromotion.ResolvedInOrder` | apps/api/src/cataloging_api/vocabularies/promotion_routes.py:63-74 | The values kept stand in the order in which they first came. |
| `VocabularyPromotion.PrepareControlledTerms` | apps/api/src/cataloging_api/vocabularies/service.py:74-99 | The preparation loop, with the first error it meets. |
| `VocabularyPromotion.PreparesIff` | apps/api/src/cataloging_api/vocabularies/service.py:74-99 | Every value becomes its trimmed text with its key, in order, or the first value that is blank or repeats a key is what fails, or there was none. |
| `VocabularyPromotion.ResolvedValuesPrepare` | apps/api/src/cataloging_api/vocabularies/service.py:74-99 | On resolved values a duplicate is never found; preparation fails only for blank values or none at all. |

## Left out

- Concurrency: two collectors on one run, row locks and isolation levels; every operation is one atomic step, and the unique indexes on ACTIVE, run, item and delivery are proved never to be hit instead of being modelled.
- HTTP, retries, authentication and raw transport errors: a request is answered by a decoded body or a raised error.
- Timestamps, free-text notes and the wording of errors and notifications; `current_surface`, error codes on runs, and the collector version (one version is assumed when a resumable run is looked for).
- `ContractCollector.CollectContractRun`: the check that the collection identifier is not empty is not modelled; an empty one never reaches the collector.
- `ContractCollector.CollectSurface`: termination against a server whose totals keep growing is not claimed, because the loop has none; a worker lives for a finite number of turns.
- `int()` conversions of stored pagination on resumption: pages the collector stored always hold integers, which is proved, so other values do not arise.
- `JsonValues.Render`: the text Python gives to lists and objects used as identifiers is not told apart; scalars are rendered in full.
- Column widths (identities and names cut or refused by the database) and JSON number formats.
- `ContractSnapshotStore.SnapshotStore.ResolveAuthoritativeEvidence`: overlay sections and bindings are typed values, so entries with missing keys or wrong types, which the code also refuses or tolerates, cannot be written down; expected contract hashes are hashes, so their hexadecimal form is checked only for the two free ones.
- The literal table of reviewed form fields: it is a parameter; the counts 44 and 12 of its two forms are kept.
- `derive_contract_health`: a direct reading of two statuses.
- `DiagnosticsCache.ProfileTells`: the profile hash is taken whole, while the code keeps its first twelve hexadecimal digits.
- `DiagnosticsEngine.EvaluateMetadata`: severities, explanations and the rule version of a finding are not modelled; fingerprints do not depend on them.
- Bundles, bitstreams and the stale-draft notification of `upsert_item`.
- `WeeklyPaging.Collect`: what becomes of one listed item (row, nothing, or an error, including the item request of a submission and its tolerated 404) is a parameter; evidence rows and the final sort and numbering are not modelled.
- `Scorer.ScoreCase`: unsupported normalization rules and grounding policies, which raise, are not representable; rates are left as the pairs of counts they are quotients of; grounding accuracy and `score_run` totals are not modelled.
- `DraftWorkflow`: the vocabulary validation snapshot is a parameter of each operation; authors and provenance notes are not modelled; `list` ordering of candidates by position is taken as given.
- `Notifications.CursorRoundTrip`: `int()` also reads signs, blanks and underscores; the model decodes plain digits, which are all that is ever encoded.
- `Notifications.WalkReadsTheLog`: with a state filter, marking rows between pages changes what later pages list, so the walk is stated without one; unread counts and `mark_all_read` are not modelled.
- `PdfPages.LineSpans`: the field pattern, the value it captures and the identifier detectors are not modelled; the set of line boundaries is a parameter that contains the form feed.
- `VocabularyPromotion.ResolvePromotionValues`: the notes on collapsed and chosen values.
- Profile percentages, similarity ranking, agent conversations, report exporters and the web application.
