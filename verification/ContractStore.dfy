/** The contract sync run and its raw pages: what one acquisition run records, and how it may change. */
module ContractStore {
  import opened JsonValues

  datatype RunStatus = Running | Interrupted | Failed | Complete

  /** The endpoints a run walks through; a by-schema field listing is one surface per schema prefix. */
  datatype Surface =
    | MetadataSchemas
    | MetadataFields
    | FieldsBySchema(prefix: string)
    | SubmissionDefinitions
    | SubmissionSections
    | SubmissionForms
    | ActiveDefinition
    | ActiveSections

  datatype Params =
    | PageParams(page: nat, size: int, schema: Option<string>)
    | CollectionParams(uuid: string)

  datatype RawPage = RawPage(
    surface: Surface,
    endpoint: string,
    pageNumber: nat,
    params: Params,
    payload: Json,
    hash: Digest<Json>)

  /** The run row together with the raw pages stored under it, in the order they were stored. */
  datatype Run = Run(
    status: RunStatus,
    checkpoints: map<Surface, nat>,
    pagesCompleted: nat,
    hashes: seq<Digest<Json>>,
    pages: seq<RawPage>)

  datatype StoreError = RunIsComplete | PageConflict | ProvenanceConflict

  function CanonicalRawHash(payload: Json): Digest<Json> {
    Sha256(payload)
  }

  const NEW_RUN := Run(Running, map[], 0, [], [])

  function CheckpointNextPage(run: Run, surface: Surface): nat {
    if surface in run.checkpoints then run.checkpoints[surface] else 0
  }

  /** The stored page with this surface and number, if there is one. */
  function FindPage(pages: seq<RawPage>, surface: Surface, pageNumber: nat): Option<RawPage> {
    if pages == [] then None
    else
      var last := pages[|pages| - 1];
      if last.surface == surface && last.pageNumber == pageNumber then Some(last)
      else FindPage(pages[..|pages| - 1], surface, pageNumber)
  }

  predicate SameProvenance(page: RawPage, endpoint: string, params: Params) {
    page.endpoint == endpoint && page.params == params
  }

  function Advance(run: Run, surface: Surface, pageNumber: nat): Run {
    var reached := CheckpointNextPage(run, surface);
    run.(checkpoints := run.checkpoints[surface := if reached < pageNumber + 1 then pageNumber + 1 else reached])
  }

  /** The run after a page is persisted and committed, or the reason it is refused. */
  function PersistPage(run: Run, surface: Surface, endpoint: string, pageNumber: nat, params: Params, payload: Json)
    : Result<Run, StoreError>
  {
    if run.status == Complete then Err(RunIsComplete)
    else
      match FindPage(run.pages, surface, pageNumber)
      case Some(existing) =>
        if existing.hash != CanonicalRawHash(payload) then Err(PageConflict)
        else if !SameProvenance(existing, endpoint, params) then Err(ProvenanceConflict)
        else Ok(Advance(run, surface, pageNumber))
      case None =>
        var page := RawPage(surface, endpoint, pageNumber, params, payload, CanonicalRawHash(payload));
        Ok(Advance(
             run.(pages := run.pages + [page],
                  pagesCompleted := run.pagesCompleted + 1,
                  hashes := run.hashes + [page.hash]),
             surface,
             pageNumber))
  }

  lemma FindAppended(pages: seq<RawPage>, page: RawPage)
    ensures FindPage(pages + [page], page.surface, page.pageNumber) == Some(page)
  {
  }

  predicate Resumable(status: RunStatus) {
    status == Running || status == Interrupted
  }

  /** One row of the sync run table, updated in place by the collector. */
  class SyncRun {
    var status: RunStatus
    var checkpoints: map<Surface, nat>
    var pagesCompleted: nat
    var rawPayloadHashes: seq<Digest<Json>>
    var pages: seq<RawPage>

    function State(): Run
      reads this
    {
      Run(status, checkpoints, pagesCompleted, rawPayloadHashes, pages)
    }

    constructor ()
      ensures State() == NEW_RUN
    {
      status, checkpoints, pagesCompleted, rawPayloadHashes, pages := Running, map[], 0, [], [];
    }

    method PersistPageAndAdvanceCheckpoint(
      surface: Surface, endpoint: string, pageNumber: nat, params: Params, payload: Json)
      returns (stored: Result<RawPage, StoreError>)
      modifies this
      ensures match PersistPage(old(State()), surface, endpoint, pageNumber, params, payload)
              case Ok(run) =>
                && State() == run
                && stored.Ok?
                && FindPage(pages, surface, pageNumber) == Some(stored.value)
                && stored.value.hash == CanonicalRawHash(payload)
              case Err(why) => State() == old(State()) && stored == Err(why)
      ensures old(pages) <= pages
    {
      if status == Complete {
        return Err(RunIsComplete);
      }
      var rawHash := CanonicalRawHash(payload);
      var existing := FindPage(pages, surface, pageNumber);
      if existing.Some? {
        if existing.value.hash != rawHash {
          return Err(PageConflict);
        }
        if !SameProvenance(existing.value, endpoint, params) {
          return Err(ProvenanceConflict);
        }
        stored := Ok(existing.value);
      } else {
        var page := RawPage(surface, endpoint, pageNumber, params, payload, rawHash);
        FindAppended(pages, page);
        pages := pages + [page];
        pagesCompleted := pagesCompleted + 1;
        rawPayloadHashes := rawPayloadHashes + [rawHash];
        stored := Ok(page);
      }
      var reached := if surface in checkpoints then checkpoints[surface] else 0;
      checkpoints := checkpoints[surface := if reached < pageNumber + 1 then pageNumber + 1 else reached];
    }
  }
}
