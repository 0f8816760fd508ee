/**
  The resumable contract collector.

  A worker process is driven by a script of turns: the i-th request it sends is answered by the i-th
  turn, and when the script runs out the process is killed where it stands.  Every function below
  gives what is committed at that point.
 */
module ContractSync {
  import opened JsonValues
  import opened Ordering
  import opened ContractStore
  import opened ContractClient

  datatype Request = Request(surface: Surface, endpoint: string, params: Params)

  type Turn = Request -> Reply

  /** The run, the requests sent so far, and the turns the process still has to live. */
  datatype World = World(run: Run, asked: seq<Request>, script: seq<Turn>)

  /** How a piece of the collector ended. */
  datatype Exit = Returned | Faulted(fault: Fault) | Errored | Killed

  datatype Outcome = Outcome(world: World, exit: Exit)

  /** One call of `_collect_surface`. */
  datatype Target = Target(surface: Surface, endpoint: string, schema: Option<string>)

  const SCHEMAS := Target(MetadataSchemas, "/core/metadataschemas", None)
  const FIELDS := Target(MetadataFields, "/core/metadatafields", None)
  const DEFINITION := Target(ActiveDefinition, "/config/submissiondefinitions/search/findByCollection", None)
  const GLOBALS: seq<Target> := [
    Target(SubmissionDefinitions, "/config/submissiondefinitions", None),
    Target(SubmissionSections, "/config/submissionsections", None),
    Target(SubmissionForms, "/config/submissionforms", None)]

  function BySchema(prefix: string): Target {
    Target(FieldsBySchema(prefix), "/core/metadatafields/search/bySchema", Some(prefix))
  }

  function BySchemas(prefixes: seq<string>): seq<Target> {
    seq(|prefixes|, i requires 0 <= i < |prefixes| => BySchema(prefixes[i]))
  }

  function Sections(definition: string): Target {
    Target(ActiveSections, "/config/submissiondefinitions/" + definition + "/sections", None)
  }

  function PageRequest(target: Target, page: nat, size: int): Request {
    Request(target.surface, target.endpoint, PageParams(page, size, target.schema))
  }

  /** What is stored in place of a sections listing that answers 204 No Content. */
  const OBSERVATION_204: Json := Obj(map[
    "_observation" := Obj(map["observable" := Bool(false), "statusCode" := Num(204), "reason" := Str("no_content")]),
    "page" := Obj(map["number" := Num(0), "totalPages" := Num(0), "totalElements" := Num(0)])])

  /** The stored page before `next` proves that every page of the surface was captured. */
  predicate LastPageCloses(pages: seq<RawPage>, surface: Surface, next: nat) {
    next > 0 &&
    match FindPage(pages, surface, next - 1)
    case None => false
    case Some(last) =>
      var info := Get(last.payload, "page");
      var number, totalPages := Get(info, "number"), Get(info, "totalPages");
      number.Num? && totalPages.Num? && number.number == next - 1 && totalPages.number <= next
  }

  predicate SurfaceCheckpointIsComplete(run: Run, surface: Surface) {
    LastPageCloses(run.pages, surface, CheckpointNextPage(run, surface))
  }

  datatype Fetched = Got(world: World, page: HalPage) | Lost(outcome: Outcome)

  function FetchPage(w: World, request: Request): (r: Fetched)
    ensures r.Got? ==> |r.world.script| < |w.script|
  {
    if w.script == [] then Lost(Outcome(w, Killed))
    else
      var w' := w.(asked := w.asked + [request], script := w.script[1..]);
      match w.script[0](request)
      case Raise(OtherFault) => Lost(Outcome(w', Errored))
      case Raise(fault) => Lost(Outcome(w', Faulted(fault)))
      case Payload(body) =>
        match ParsePage(Relation(request.surface), body)
        case Err(fault) => Lost(Outcome(w', Faulted(fault)))
        case Ok(page) => Got(w', page)
  }

  function StorePage(w: World, target: Target, pageNumber: nat, params: Params, payload: Json): Outcome {
    match PersistPage(w.run, target.surface, target.endpoint, pageNumber, params, payload)
    case Err(_) => Outcome(w, Errored)
    case Ok(run) => Outcome(w.(run := run), Returned)
  }

  /** One turn of a paging loop: the loop ends, or goes on with what is committed so far. */
  datatype Step = Stop(outcome: Outcome) | More(world: World)

  /** One turn of the paging loop of `_collect_surface`, for page `pageNumber`. */
  function CollectStep(w: World, target: Target, size: int, pageNumber: nat): (s: Step)
    ensures s.More? ==> |s.world.script| < |w.script|
  {
    var request := PageRequest(target, pageNumber, size);
    match FetchPage(w, request)
    case Lost(outcome) => Stop(outcome)
    case Got(w1, page) =>
      if page.page != pageNumber then Stop(Outcome(w1, Faulted(INVALID_HAL)))
      else
        var stored := StorePage(w1, target, page.page, request.params, page.raw);
        if stored.exit != Returned || page.totalPages <= page.page + 1 then Stop(stored) else More(stored.world)
  }

  /** The paging loop of `_collect_surface`, from page `pageNumber` on. */
  function CollectFrom(w: World, target: Target, size: int, pageNumber: nat): Outcome
    decreases |w.script|
  {
    match CollectStep(w, target, size, pageNumber)
    case Stop(outcome) => outcome
    case More(w') => CollectFrom(w', target, size, CheckpointNextPage(w'.run, target.surface))
  }

  function CollectSurface(w: World, target: Target, size: int): Outcome {
    if SurfaceCheckpointIsComplete(w.run, target.surface) then Outcome(w, Returned)
    else CollectFrom(w, target, size, CheckpointNextPage(w.run, target.surface))
  }

  function CollectAll(w: World, targets: seq<Target>, size: int): Outcome
    decreases |targets|
  {
    if targets == [] then Outcome(w, Returned)
    else
      var first := CollectSurface(w, targets[0], size);
      if first.exit != Returned then first else CollectAll(first.world, targets[1..], size)
  }

  /** The prefixes of a page of schemas, unless one of them has none. */
  function SchemaPrefixes(items: seq<Json>): Option<seq<string>> {
    if items == [] then Some([])
    else
      var prefix := Get(items[|items| - 1], "prefix");
      match SchemaPrefixes(items[..|items| - 1])
      case None => None
      case Some(front) => if IsText(prefix) then Some(front + [prefix.text]) else None
  }

  /** One turn of the schema loop, with the prefixes it adds. */
  function SchemaStep(w: World, size: int, pageNumber: nat): (r: (Step, seq<string>))
    ensures r.0.More? ==> |r.0.world.script| < |w.script|
  {
    var request := PageRequest(SCHEMAS, pageNumber, size);
    match FetchPage(w, request)
    case Lost(outcome) => (Stop(outcome), [])
    case Got(w1, page) =>
      if page.page != pageNumber then (Stop(Outcome(w1, Faulted(INVALID_HAL))), [])
      else
        match SchemaPrefixes(page.items)
        case None => (Stop(Outcome(w1, Faulted(INVALID_HAL))), [])
        case Some(found) =>
          var stored := StorePage(w1, SCHEMAS, page.page, request.params, page.raw);
          if stored.exit != Returned || page.totalPages <= page.page + 1 then (Stop(stored), found)
          else (More(stored.world), found)
  }

  /** The schema loop, which always starts from page 0 to learn every prefix again. */
  function CollectSchemas(w: World, size: int, pageNumber: nat, prefixes: seq<string>): (Outcome, seq<string>)
    decreases |w.script|
  {
    var (step, found) := SchemaStep(w, size, pageNumber);
    match step
    case Stop(outcome) => (outcome, prefixes + found)
    case More(w') => CollectSchemas(w', size, pageNumber + 1, prefixes + found)
  }

  function CollectMetadataRegistry(w: World, size: int): Outcome {
    var (schemas, prefixes) := CollectSchemas(w, size, 0, []);
    if schemas.exit != Returned then schemas
    else CollectAll(schemas.world, [FIELDS] + BySchemas(SortedSet(prefixes)), size)
  }

  function CollectSections(w: World, definition: string, size: int): Outcome {
    var target := Sections(definition);
    var sections := CollectSurface(w, target, size);
    if sections.exit == Faulted(DSpaceFault(Some(204))) then
      StorePage(sections.world, target, 0, PageParams(0, size, None), OBSERVATION_204)
    else sections
  }

  function CollectActiveDefinition(w: World, uuid: string, size: int): Outcome {
    var request := Request(ActiveDefinition, DEFINITION.endpoint, CollectionParams(uuid));
    if w.script == [] then Outcome(w, Killed)
    else
      var w1 := w.(asked := w.asked + [request], script := w.script[1..]);
      match w.script[0](request)
      case Raise(OtherFault) => Outcome(w1, Errored)
      case Raise(fault) => Outcome(w1, Faulted(fault))
      case Payload(body) =>
        var name := Get(body, "name");
        if !IsText(name) then Outcome(w1, Faulted(INVALID_HAL))
        else
          var stored := StorePage(w1, DEFINITION, 0, request.params, body);
          if stored.exit != Returned then stored else CollectSections(stored.world, name.text, size)
  }

  function CollectEverything(w: World, uuid: string, size: int): Outcome {
    var registry := CollectMetadataRegistry(w, size);
    if registry.exit != Returned then registry
    else
      var globals := CollectAll(registry.world, GLOBALS, size);
      if globals.exit != Returned then globals else CollectActiveDefinition(globals.world, uuid, size)
  }

  /** One attempt: its arguments, the turns its process lives, and whether it lives to commit how it ended. */
  datatype Attempt = Attempt(uuid: string, size: int, script: seq<Turn>, survives: bool)

  function FinalStatus(exit: Exit): RunStatus {
    match exit
    case Returned => Complete
    case Faulted(_) => Interrupted
    case Errored => Failed
    case Killed => Running
  }

  /** `collect_contract_run` on a resumable run. */
  function CollectRun(run: Run, asked: seq<Request>, attempt: Attempt): Outcome {
    var started := World(run.(status := Running), asked, attempt.script);
    var outcome := CollectEverything(started, attempt.uuid, attempt.size);
    if outcome.exit == Killed || !attempt.survives then outcome
    else outcome.(world := outcome.world.(run := outcome.world.run.(status := FinalStatus(outcome.exit))))
  }

  /** The table of runs, oldest first; the newest resumable one is taken up again. */
  function FindResumableRun(runs: seq<Run>): Option<nat> {
    if runs == [] then None
    else if Resumable(runs[|runs| - 1].status) then Some(|runs| - 1)
    else FindResumableRun(runs[..|runs| - 1])
  }

  /** The run after one more attempt. */
  function Resume(run: Run, attempt: Attempt): Run {
    CollectRun(run, [], attempt).world.run
  }

  /** `collect_contract_run` on the table of runs: resume the newest resumable run or open a new one. */
  function CollectContractRun(runs: seq<Run>, attempt: Attempt): seq<Run> {
    match FindResumableRun(runs)
    case Some(i) => if i < |runs| then runs[i := Resume(runs[i], attempt)] else runs
    case None => runs + [Resume(NEW_RUN, attempt)]
  }
}
