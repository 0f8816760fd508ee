/**
  The collector as it runs: loops that update the run record page by page.  Each method is shown to do
  what the function of the same name in ContractSync says.
 */
module ContractCollector {
  import opened JsonValues
  import opened Ordering
  import opened ContractStore
  import opened ContractClient
  import opened Sync = ContractSync

  /** The client of one worker process; each request uses up one of the turns it lives to see. */
  class DSpaceClient {
    var asked: seq<Request>
    var script: seq<Turn>

    constructor (script: seq<Turn>)
      ensures asked == [] && this.script == script
    {
      asked, this.script := [], script;
    }

    method Send(request: Request) returns (alive: bool, reply: Reply)
      modifies this
      ensures alive == (old(script) != [])
      ensures !alive ==> asked == old(asked) && script == old(script)
      ensures alive ==>
              asked == old(asked) + [request] && script == old(script)[1..] && reply == old(script)[0](request)
    {
      alive, reply := script != [], Raise(OtherFault);
      if alive {
        reply := script[0](request);
        asked, script := asked + [request], script[1..];
      }
    }
  }

  function WorldOf(run: SyncRun, client: DSpaceClient): World
    reads run, client
  {
    World(run.State(), client.asked, client.script)
  }

  /** One page of a HAL collection, or how the collector ends without it. */
  method FetchPage(run: SyncRun, client: DSpaceClient, request: Request) returns (page: Option<HalPage>, exit: Exit)
    modifies client
    ensures Sync.FetchPage(old(WorldOf(run, client)), request) ==
            if page.Some? then Got(WorldOf(run, client), page.value) else Lost(Outcome(WorldOf(run, client), exit))
  {
    var alive, reply := client.Send(request);
    if !alive {
      return None, Killed;
    }
    match reply {
      case Raise(OtherFault) => return None, Errored;
      case Raise(fault) => return None, Faulted(fault);
      case Payload(body) =>
        match ParsePage(Relation(request.surface), body) {
          case Err(fault) => return None, Faulted(fault);
          case Ok(hal) => return Some(hal), Returned;
        }
    }
  }

  /** Persist a page and commit. */
  method StorePage(run: SyncRun, client: DSpaceClient, target: Target, pageNumber: nat, params: Params, payload: Json)
    returns (exit: Exit)
    modifies run
    ensures Sync.StorePage(old(WorldOf(run, client)), target, pageNumber, params, payload)
       == Outcome(WorldOf(run, client), exit)
  {
    var stored := run.PersistPageAndAdvanceCheckpoint(target.surface, target.endpoint, pageNumber, params, payload);
    exit := if stored.Ok? then Returned else Errored;
  }

  method CollectSurface(run: SyncRun, client: DSpaceClient, target: Target, size: int) returns (exit: Exit)
    modifies run, client
    ensures Sync.CollectSurface(old(WorldOf(run, client)), target, size) == Outcome(WorldOf(run, client), exit)
  {
    if SurfaceCheckpointIsComplete(run.State(), target.surface) {
      return Returned;
    }
    var pageNumber := CheckpointNextPage(run.State(), target.surface);
    ghost var begun := Sync.CollectFrom(WorldOf(run, client), target, size, pageNumber);
    while true
      invariant Sync.CollectFrom(WorldOf(run, client), target, size, pageNumber) == begun
      decreases |client.script|
    {
      var request := PageRequest(target, pageNumber, size);
      var page, lost := FetchPage(run, client, request);
      if page.None? {
        return lost;
      }
      if page.value.page != pageNumber {
        return Faulted(INVALID_HAL);
      }
      var stored := StorePage(run, client, target, page.value.page, request.params, page.value.raw);
      if stored != Returned || page.value.totalPages <= page.value.page + 1 {
        return stored;
      }
      pageNumber := CheckpointNextPage(run.State(), target.surface);
    }
  }

  method CollectAll(run: SyncRun, client: DSpaceClient, targets: seq<Target>, size: int) returns (exit: Exit)
    modifies run, client
    ensures Sync.CollectAll(old(WorldOf(run, client)), targets, size) == Outcome(WorldOf(run, client), exit)
  {
    ghost var begun := Sync.CollectAll(WorldOf(run, client), targets, size);
    for i := 0 to |targets|
      invariant Sync.CollectAll(WorldOf(run, client), targets[i..], size) == begun
    {
      exit := CollectSurface(run, client, targets[i], size);
      assert targets[i..][1..] == targets[i + 1..];
      if exit != Returned {
        return;
      }
    }
    exit := Returned;
  }

  method CollectSchemas(run: SyncRun, client: DSpaceClient, size: int) returns (exit: Exit, prefixes: seq<string>)
    modifies run, client
    ensures Sync.CollectSchemas(old(WorldOf(run, client)), size, 0, []).0 == Outcome(WorldOf(run, client), exit)
    ensures exit == Returned ==> prefixes == Sync.CollectSchemas(old(WorldOf(run, client)), size, 0, []).1
  {
    prefixes := [];
    var pageNumber := 0;
    ghost var begun := Sync.CollectSchemas(WorldOf(run, client), size, 0, []);
    while true
      invariant Sync.CollectSchemas(WorldOf(run, client), size, pageNumber, prefixes) == begun
      decreases |client.script|
    {
      var request := PageRequest(SCHEMAS, pageNumber, size);
      var page, lost := FetchPage(run, client, request);
      if page.None? {
        exit := lost;
        return;
      }
      if page.value.page != pageNumber {
        exit := Faulted(INVALID_HAL);
        return;
      }
      var found := SchemaPrefixes(page.value.items);
      if found.None? {
        exit := Faulted(INVALID_HAL);
        return;
      }
      exit := StorePage(run, client, SCHEMAS, page.value.page, request.params, page.value.raw);
      prefixes := prefixes + found.value;
      if exit != Returned || page.value.totalPages <= page.value.page + 1 {
        return;
      }
      pageNumber := pageNumber + 1;
    }
  }

  method CollectMetadataRegistry(run: SyncRun, client: DSpaceClient, size: int) returns (exit: Exit)
    modifies run, client
    ensures Sync.CollectMetadataRegistry(old(WorldOf(run, client)), size) == Outcome(WorldOf(run, client), exit)
  {
    var prefixes;
    exit, prefixes := CollectSchemas(run, client, size);
    if exit == Returned {
      exit := CollectAll(run, client, [FIELDS] + BySchemas(SortedSet(prefixes)), size);
    }
  }

  method CollectSections(run: SyncRun, client: DSpaceClient, definition: string, size: int) returns (exit: Exit)
    modifies run, client
    ensures Sync.CollectSections(old(WorldOf(run, client)), definition, size) == Outcome(WorldOf(run, client), exit)
  {
    exit := CollectSurface(run, client, Sections(definition), size);
    if exit == Faulted(DSpaceFault(Some(204))) {
      exit := StorePage(run, client, Sections(definition), 0, PageParams(0, size, None), OBSERVATION_204);
    }
  }

  method CollectActiveDefinition(run: SyncRun, client: DSpaceClient, uuid: string, size: int) returns (exit: Exit)
    modifies run, client
    ensures Sync.CollectActiveDefinition(old(WorldOf(run, client)), uuid, size) == Outcome(WorldOf(run, client), exit)
  {
    var request := Request(ActiveDefinition, DEFINITION.endpoint, CollectionParams(uuid));
    var alive, reply := client.Send(request);
    if !alive {
      return Killed;
    }
    match reply {
      case Raise(OtherFault) => return Errored;
      case Raise(fault) => return Faulted(fault);
      case Payload(body) =>
        var name := Get(body, "name");
        if !IsText(name) {
          return Faulted(INVALID_HAL);
        }
        exit := StorePage(run, client, DEFINITION, 0, request.params, body);
        if exit == Returned {
          exit := CollectSections(run, client, name.text, size);
        }
    }
  }

  /** `collect_contract_run` on the run found resumable or just opened. */
  method CollectContractRun(
    run: SyncRun, client: DSpaceClient, uuid: string, size: int, survives: bool) returns (exit: Exit)
    requires client.asked == []
    modifies run, client
    ensures CollectRun(old(run.State()), [], Attempt(uuid, size, old(client.script), survives)) ==
            Outcome(WorldOf(run, client), exit)
  {
    run.status := Running;
    exit := CollectMetadataRegistry(run, client, size);
    if exit == Returned {
      exit := CollectAll(run, client, GLOBALS, size);
      if exit == Returned {
        exit := CollectActiveDefinition(run, client, uuid, size);
      }
    }
    if exit != Killed && survives {
      run.status := FinalStatus(exit);
    }
  }
}
