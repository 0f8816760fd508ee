/** One attempt at collecting a contract, from any state an earlier attempt may have left behind. */
module ContractAttempt {
  import opened JsonValues
  import opened Ordering
  import opened ContractStore
  import opened ContractClient
  import opened ContractSync
  import opened ContractEvidence
  import opened ContractResume
  import opened ContractPhases

  // The active sections, with the 204 observation

  /** A page that lists nothing cannot be one that announced another page. */
  lemma ObservationCannotReplace(pages: seq<RawPage>, ok: Rule)
    requires Trace(pages, ok) && Count(pages, ActiveSections) > 0 && !Done(pages, ActiveSections)
    ensures match FindPage(pages, ActiveSections, 0)
            case None => false
            case Some(first) => first.hash != CanonicalRawHash(OBSERVATION_204)
  {
    FindDense(pages, ok, ActiveSections, 0);
    StoredPagination(FindPage(pages, ActiveSections, 0).value);
    if Count(pages, ActiveSections) > 1 {
      EarlierAnnounced(pages, ok, ActiveSections, 0);
    }
  }

  function ObservationPage(target: Target, size: int): RawPage {
    PageFor(target, 0, size, OBSERVATION_204)
  }

  lemma ObservationIsWellFormed(target: Target, size: int)
    requires target.surface == ActiveSections
    ensures WellFormed(ObservationPage(target, size)) && TotalPages(ObservationPage(target, size)) == 0
  {
  }

  lemma ObservationFits(pages: seq<RawPage>, target: Target, size: int)
    requires NextTarget(pages) == Some(target) && target.surface == ActiveSections && Count(pages, ActiveSections) == 0
    ensures Fits(pages, ObservationPage(target, size))
    ensures Done(pages + [ObservationPage(target, size)], ActiveSections)
  {
    ObservationIsWellFormed(target, size);
    ClosedByLast(pages, ObservationPage(target, size));
  }

  lemma StoreObservation(w: World, target: Target, ok: Rule, args: Args)
    requires Sound(w, ok) && NextTarget(w.run.pages) == Some(target)
    requires target.surface == ActiveSections && target.schema == None && Count(w.run.pages, ActiveSections) == 0
    requires ok(PageRequest(target, 0, args.size), OBSERVATION_204)
    ensures var out := StorePage(w, target, 0, PageParams(0, args.size, None), OBSERVATION_204);
            && out.exit == Returned
            && out.world.script == w.script
            && out.world.run.pages == w.run.pages + [ObservationPage(target, args.size)]
            && Advanced(w, out.world, ok, args)
            && Done(out.world.run.pages, ActiveSections)
  {
    var page := ObservationPage(target, args.size);
    ObservationFits(w.run.pages, target, args.size);
    assert RequestOf(page) == PageRequest(target, 0, args.size);
    StoreKeeps(w, ok, args, target, page);
  }

  /** A turn that only found nothing is paid for by the observation stored in its place. */
  lemma ObservationPhase(w: World, failed: World, after: World, ok: Rule, args: Args)
    requires Advanced(w, failed, ok, args) && Advanced(failed, after, ok, args)
    requires |w.script| - |failed.script| == |failed.run.pages| - |w.run.pages| + 1
    requires |after.script| == |failed.script| && |after.run.pages| == |failed.run.pages| + 1
    ensures Phase(w, Outcome(after, Returned), ok, args, 0)
  {
  }

  /** What holds once the sections of the stored definition were listed. */
  ghost predicate SectionsKept(w: World, out: Outcome, ok: Rule, args: Args) {
    var pages := out.world.run.pages;
    && Phase(w, out, ok, args, 0)
    && Grown(w.run.pages, pages, ActiveSections)
    && (out.exit == Returned ==> AllDone(Plan(pages), pages))
  }

  lemma ObservationCloses(
    w: World, before: seq<Target>, failed: World, after: World, target: Target, ok: Rule, args: Args)
    requires Advanced(w, failed, ok, args) && Advanced(failed, after, ok, args)
    requires Grown(w.run.pages, failed.run.pages, ActiveSections)
             && Grown(failed.run.pages, after.run.pages, ActiveSections)
    requires |w.script| - |failed.script| == |failed.run.pages| - |w.run.pages| + 1
    requires |after.script| == |failed.script| && |after.run.pages| == |failed.run.pages| + 1
    requires before + [target] == Plan(w.run.pages) && AllDone(before, w.run.pages)
    requires target.surface == ActiveSections && Done(after.run.pages, ActiveSections)
    ensures SectionsKept(w, Outcome(after, Returned), ok, args)
  {
    ObservationPhase(w, failed, after, ok, args);
    SectionsClosed(w.run.pages, before, target, after.run.pages);
  }

  /** The sections listing answers 204 before any page of it was stored. */
  lemma SectionsUnobservable(w: World, before: seq<Target>, failed: Outcome, target: Target, ok: Rule, args: Args)
    requires Paged(w, target, failed, ok, args) && NoContent(failed.exit, target, failed.world.run.pages)
    requires before + [target] == Plan(w.run.pages) && AllDone(before, w.run.pages) && target.schema == None
    requires !Done(w.run.pages, ActiveSections)
    ensures SectionsKept(w, StorePage(failed.world, target, 0, PageParams(0, args.size, None), OBSERVATION_204), ok,
            args)
  {
    StoreObservation(failed.world, target, ok, args);
    var stored := StorePage(failed.world, target, 0, PageParams(0, args.size, None), OBSERVATION_204);
    ObservationCloses(w, before, failed.world, stored.world, target, ok, args);
  }

  lemma SectionsClosed(pages: seq<RawPage>, before: seq<Target>, target: Target, more: seq<RawPage>)
    requires before + [target] == Plan(pages) && AllDone(before, pages) && target.surface == ActiveSections
    requires Grown(pages, more, ActiveSections) && Done(more, ActiveSections)
    ensures AllDone(Plan(more), more)
  {
    PlanStable(pages, more, ActiveSections);
    AllDoneStable(before, pages, more, ActiveSections);
  }

  /** A 204 after some page was stored: the observation conflicts with that page. */
  lemma SectionsConflict(w: World, failed: Outcome, target: Target, ok: Rule, args: Args)
    requires Paged(w, target, failed, ok, args) && target.surface == ActiveSections
    requires failed.exit == Faulted(DSpaceFault(Some(204))) && Count(failed.world.run.pages, ActiveSections) > 0
    ensures SectionsKept(w, StorePage(failed.world, target, 0, PageParams(0, args.size, None), OBSERVATION_204), ok,
            args)
  {
    var pages := failed.world.run.pages;
    var k := FirstUndoneSplits(Plan(pages), pages);
    ObservationCannotReplace(pages, ok);
  }

  lemma CollectSectionsKeeps(w: World, before: seq<Target>, definition: string, ok: Rule, args: Args)
    requires Sound(w, ok) && Conforms(w.script, ok)
    requires before + [Sections(definition)] == Plan(w.run.pages) && AllDone(before, w.run.pages)
    ensures SectionsKept(w, CollectSections(w, definition, args.size), ok, args)
  {
    var target := Sections(definition);
    CollectSurfaceKeeps(w, before, target, ok, args);
    var sections := CollectSurface(w, target, args.size);
    if sections.exit == Faulted(DSpaceFault(Some(204))) {
      if Count(sections.world.run.pages, ActiveSections) == 0 {
        SectionsUnobservable(w, before, sections, target, ok, args);
      } else {
        SectionsConflict(w, sections, target, ok, args);
      }
    }
  }

  // The active definition

  lemma NoDefinitionBeforeGlobals(pages: seq<RawPage>)
    ensures forall j :: 0 <= j < |BeforeGlobals(pages)| ==> BeforeGlobals(pages)[j].surface != ActiveDefinition
  {
  }

  lemma PlanHasOneDefinition(pages: seq<RawPage>, k: nat)
    requires k < |Plan(pages)| && Plan(pages)[k].surface == ActiveDefinition
    ensures Plan(pages)[k] == DEFINITION
  {
  }

  lemma DefinitionNext(pages: seq<RawPage>)
    requires NextTarget(pages).Some? && NextTarget(pages).value.surface == ActiveDefinition
    ensures NextTarget(pages) == Some(DEFINITION)
  {
    var k := FirstUndoneSplits(Plan(pages), pages);
    PlanHasOneDefinition(pages, k);
  }

  lemma FitsDefinition(pages: seq<RawPage>, page: RawPage)
    requires Fits(pages, page) && page.surface == ActiveDefinition
    ensures page.pageNumber == 0 && page.endpoint == DEFINITION.endpoint && WellFormed(page)
  {
    DefinitionNext(pages);
    var k := FirstUndoneSplits(Plan(pages), pages);
  }

  lemma DefinitionStored(pages: seq<RawPage>, ok: Rule)
    requires Trace(pages, ok) && Count(pages, ActiveDefinition) > 0
    ensures match FindPage(pages, ActiveDefinition, 0)
            case None => false
            case Some(page) =>
              && page in pages
              && page.surface == ActiveDefinition && page.pageNumber == 0
              && page.endpoint == DEFINITION.endpoint
              && WellFormed(page)
              && ok(RequestOf(page), page.payload)
  {
    FindDense(pages, ok, ActiveDefinition, 0);
    var page := FindPage(pages, ActiveDefinition, 0).value;
    var i :| 0 <= i < |pages| && pages[i] == page;
    assert StoredAt(pages, ok, i);
    FitsDefinition(pages[..i], page);
  }

  function DefinitionRequest(uuid: string): Request {
    Request(ActiveDefinition, DEFINITION.endpoint, CollectionParams(uuid))
  }

  function DefinitionPage(uuid: string, payload: Json): RawPage {
    RawPage(ActiveDefinition, DEFINITION.endpoint, 0, CollectionParams(uuid), payload, CanonicalRawHash(payload))
  }

  /** The definition payload the first turn serves, when it has a name. */
  function DefinitionServed(w: World, uuid: string): Option<Json>
    requires w.script != []
  {
    var reply := w.script[0](DefinitionRequest(uuid));
    if reply.Payload? && IsText(Get(reply.body, "name")) then Some(reply.body) else None
  }

  lemma DefinitionUnfolds(w: World, uuid: string, size: int)
    requires w.script != []
    ensures var out := CollectActiveDefinition(w, uuid, size);
            var sent := Sent(w, DefinitionRequest(uuid));
            match DefinitionServed(w, uuid)
            case None =>
              && Raised(out.exit) && out.world == sent
              && (out.exit.Errored? ==> w.script[0](DefinitionRequest(uuid)) == Raise(OtherFault))
            case Some(body) =>
              var stored := StorePage(sent, DEFINITION, 0, CollectionParams(uuid), body);
              out == if stored.exit != Returned then stored
                else CollectSections(stored.world, Get(body, "name").text, size)
  {
  }

  /** The answer these turns decide for the definition is the one that is stored or would be. */
  lemma DefinitionDecided(w: World, payload: Json, ok: Rule, args: Args)
    requires w.script != [] && ok(DefinitionRequest(args.uuid), payload)
    requires var q := DefinitionRequest(args.uuid);
             Decides(w.script, ok) || (Settles(w.script, ok) && !Excuses(w.script[0](q), q))
    ensures w.script[0](DefinitionRequest(args.uuid)) == Payload(payload)
  {
  }

  lemma DefinitionAnswer(pages: seq<RawPage>, ok: Rule, args: Args) returns (payload: Json)
    requires Trace(pages, ok) && AllUse(pages, args) && Count(pages, ActiveDefinition) > 0
    ensures ok(DefinitionRequest(args.uuid), payload) && IsText(Get(payload, "name"))
    ensures FindPage(pages, ActiveDefinition, 0) == Some(DefinitionPage(args.uuid, payload))
  {
    DefinitionStored(pages, ok);
    var page := FindPage(pages, ActiveDefinition, 0).value;
    var i :| 0 <= i < |pages| && pages[i] == page;
    assert Uses(pages[i], args);
    payload := page.payload;
  }

  lemma DefinitionRaises(w: World, ok: Rule, args: Args)
    requires Sound(w, ok) && w.script != []
    requires Count(w.run.pages, ActiveDefinition) == 0 ==> NextTarget(w.run.pages) == Some(DEFINITION)
    requires match DefinitionServed(w, args.uuid)
             case None => true
             case Some(body) =>
               match FindPage(w.run.pages, ActiveDefinition, 0)
               case None => false
               case Some(page) => page.payload != body || page.params != CollectionParams(args.uuid)
    ensures Decides(w.script, ok) && AllUse(w.run.pages, args) ==> Stuck(w.run.pages, ok, args)
    ensures var q := DefinitionRequest(args.uuid);
            Settles(w.script, ok) && !Excuses(w.script[0](q), q) && AllUse(w.run.pages, args) ==>
              Stuck(w.run.pages, ok, args)
  {
    var pages, q := w.run.pages, DefinitionRequest(args.uuid);
    var blamed := Decides(w.script, ok) || (Settles(w.script, ok) && !Excuses(w.script[0](q), q));
    if blamed && AllUse(pages, args) {
      if Count(pages, ActiveDefinition) > 0 {
        var payload := DefinitionAnswer(pages, ok, args);
        DefinitionDecided(w, payload, ok, args);
      } else {
        FindDense(pages, ok, ActiveDefinition, 0);
        forall page | Fits(pages, page) && Uses(page, args) ensures !ok(RequestOf(page), page.payload) {
          assert RequestOf(page) == DefinitionRequest(args.uuid);
          if ok(RequestOf(page), page.payload) {
            DefinitionDecided(w, page.payload, ok, args);
          }
        }
      }
    }
  }

  /** What holds once the definition of the collection is on record. */
  ghost predicate DefinitionKept(w: World, out: Outcome, ok: Rule, args: Args) {
    && Phase(w, out, ok, args, 1)
    && (out.exit == Returned ==>
          && AllDone(Plan(out.world.run.pages), out.world.run.pages)
          && match FindPage(out.world.run.pages, ActiveDefinition, 0)
             case None => false
             case Some(page) => Uses(page, args))
  }

  predicate BeforeDefinition(pages: seq<RawPage>, before: seq<Target>) {
    before == BeforeGlobals(pages) + GLOBALS
  }

  lemma StoreDefinition(w: World, before: seq<Target>, body: Json, ok: Rule, args: Args)
    requires Sound(w, ok) && BeforeDefinition(w.run.pages, before) && AllDone(before, w.run.pages)
    requires Count(w.run.pages, ActiveDefinition) == 0
    requires ok(DefinitionRequest(args.uuid), body) && IsText(Get(body, "name"))
    ensures var out := StorePage(w, DEFINITION, 0, CollectionParams(args.uuid), body);
            && out.exit == Returned
            && Phase(w, out, ok, args, 0)
            && out.world.script == w.script
            && BeforeDefinition(out.world.run.pages, before)
            && AllDone(before + [DEFINITION], out.world.run.pages)
            && FindPage(out.world.run.pages, ActiveDefinition, 0) == Some(DefinitionPage(args.uuid, body))
  {
    var pages := w.run.pages;
    var page := DefinitionPage(args.uuid, body);
    DefinitionIsNext(pages, before);
    StoreKeeps(w, ok, args, DEFINITION, page);
    assert Grown(pages, pages + [page], ActiveDefinition);
    GrownElsewhere(pages, pages + [page], ActiveDefinition, MetadataSchemas);
    AllDoneStable(before, pages, pages + [page], ActiveDefinition);
    FindAppend(pages, page, ActiveDefinition, 0);
  }

  lemma DefinitionIsNext(pages: seq<RawPage>, before: seq<Target>)
    requires BeforeDefinition(pages, before) && AllDone(before, pages) && Count(pages, ActiveDefinition) == 0
    ensures NextTarget(pages) == Some(DEFINITION)
  {
    var rest := [DEFINITION] + [Sections(DefinitionName(pages))];
    assert Plan(pages) == before + rest;
    FirstUndoneAfter(before, rest, pages);
  }

  /** The sections are listed under the name of the stored definition. */
  lemma SectionsFollow(w: World, before: seq<Target>, body: Json, ok: Rule, args: Args)
    requires Sound(w, ok) && Conforms(w.script, ok)
    requires BeforeDefinition(w.run.pages, before) && AllDone(before + [DEFINITION], w.run.pages)
    requires FindPage(w.run.pages, ActiveDefinition, 0) == Some(DefinitionPage(args.uuid, body))
             && IsText(Get(body, "name"))
    ensures var out := CollectSections(w, Get(body, "name").text, args.size);
            Phase(w, out, ok, args, 0) && DefinitionKept(w, out, ok, args)
  {
    var name := Get(body, "name").text;
    assert Plan(w.run.pages) == (before + [DEFINITION]) + [Sections(name)];
    CollectSectionsKeeps(w, before + [DEFINITION], name, ok, args);
    GrownElsewhere(w.run.pages, CollectSections(w, name, args.size).world.run.pages, ActiveSections, ActiveDefinition);
  }

  /** The definition is on record already, for this collection and with this payload. */
  predicate DefinitionAgrees(w: World, body: Json, uuid: string) {
    FindPage(w.run.pages, ActiveDefinition, 0) == Some(DefinitionPage(uuid, body))
  }

  lemma DefinitionPersists(w: World, body: Json, uuid: string, ok: Rule)
    requires Sound(w, ok) && Count(w.run.pages, ActiveDefinition) > 0
    ensures var out := StorePage(w, DEFINITION, 0, CollectionParams(uuid), body);
            out == Outcome(w, if DefinitionAgrees(w, body, uuid) then Returned else Errored)
  {
    DefinitionStored(w.run.pages, ok);
    PersistAgain(w, FindPage(w.run.pages, ActiveDefinition, 0).value, body, CollectionParams(uuid));
  }

  lemma DefinitionAgain(w: World, before: seq<Target>, body: Json, ok: Rule, args: Args)
    requires Sound(w, ok) && Conforms(w.script, ok) && w.script != []
    requires BeforeDefinition(w.run.pages, before) && AllDone(before, w.run.pages)
    requires Count(w.run.pages, ActiveDefinition) > 0 && DefinitionServed(w, args.uuid) == Some(body)
    ensures DefinitionKept(w, CollectActiveDefinition(w, args.uuid, args.size), ok, args)
  {
    var sent := Sent(w, DefinitionRequest(args.uuid));
    AskKeeps(w, ok, args, DefinitionRequest(args.uuid));
    DefinitionUnfolds(w, args.uuid, args.size);
    DefinitionPersists(sent, body, args.uuid, ok);
    if DefinitionAgrees(w, body, args.uuid) {
      ScriptSuffix(w.script, 1, ok);
      SectionsFollow(sent, before, body, ok, args);
      PhaseThen(w, Outcome(sent, Returned), CollectSections(sent, Get(body, "name").text, args.size), ok, args, 1, 0);
    } else {
      DefinitionStored(w.run.pages, ok);
      DefinitionRaises(w, ok, args);
    }
  }

  lemma DefinitionFirst(w: World, before: seq<Target>, body: Json, ok: Rule, args: Args)
    requires Sound(w, ok) && Conforms(w.script, ok) && w.script != []
    requires BeforeDefinition(w.run.pages, before) && AllDone(before, w.run.pages)
    requires Count(w.run.pages, ActiveDefinition) == 0 && DefinitionServed(w, args.uuid) == Some(body)
    ensures DefinitionKept(w, CollectActiveDefinition(w, args.uuid, args.size), ok, args)
  {
    var q := DefinitionRequest(args.uuid);
    var sent := Sent(w, q);
    AskKeeps(w, ok, args, q);
    DefinitionUnfolds(w, args.uuid, args.size);
    assert Allows(ok, q, w.script[0](q));
    StoreDefinition(sent, before, body, ok, args);
    var stored := StorePage(sent, DEFINITION, 0, CollectionParams(args.uuid), body);
    ScriptSuffix(w.script, 1, ok);
    PhaseThen(w, Outcome(sent, Returned), stored, ok, args, 1, 0);
    SectionsFollow(stored.world, before, body, ok, args);
    PhaseThen(w, stored, CollectSections(stored.world, Get(body, "name").text, args.size), ok, args, 1, 0);
  }

  lemma CollectActiveDefinitionKeeps(w: World, before: seq<Target>, ok: Rule, args: Args)
    requires Sound(w, ok) && Conforms(w.script, ok)
    requires BeforeDefinition(w.run.pages, before) && AllDone(before, w.run.pages)
    ensures DefinitionKept(w, CollectActiveDefinition(w, args.uuid, args.size), ok, args)
  {
    if w.script != [] {
      var body := DefinitionServed(w, args.uuid);
      if body.None? {
        AskKeeps(w, ok, args, DefinitionRequest(args.uuid));
        DefinitionUnfolds(w, args.uuid, args.size);
        if Count(w.run.pages, ActiveDefinition) == 0 {
          DefinitionIsNext(w.run.pages, before);
        }
        DefinitionRaises(w, ok, args);
      } else if Count(w.run.pages, ActiveDefinition) > 0 {
        DefinitionAgain(w, before, body.value, ok, args);
      } else {
        DefinitionFirst(w, before, body.value, ok, args);
      }
    }
  }

  // The whole attempt

  /** What one attempt keeps, and what it proves when it returns. */
  ghost predicate Attempted(w: World, out: Outcome, ok: Rule, args: Args) {
    var pages := out.world.run.pages;
    && Phase(w, out, ok, args, |w.run.pages| + 1)
    && (|pages| > |w.run.pages| ==> Uses(pages[0], args))
    && (out.exit == Returned ==>
          && pages != [] && Uses(pages[0], args)
          && NextTarget(pages) == None
          && match FindPage(pages, ActiveDefinition, 0)
             case None => false
             case Some(page) => Uses(page, args))
  }

  lemma PhaseSlack(w: World, out: Outcome, ok: Rule, args: Args, small: nat, large: nat)
    requires Phase(w, out, ok, args, small) && small <= large
    ensures Phase(w, out, ok, args, large)
  {
  }

  lemma SchemasBegin(w: World, ok: Rule, args: Args)
    requires Sound(w, ok)
    ensures AtSchemaPage(w, 0, [], ok, args)
  {
    SchemasFirst(w.run.pages, ok);
    assert w.run.pages[..0] == [];
  }

  /** After the schema listing, the rest of the registry. */
  lemma CollectListed(w: World, targets: seq<Target>, ok: Rule, args: Args)
    requires Sound(w, ok) && Conforms(w.script, ok) && Done(w.run.pages, MetadataSchemas)
    requires [SCHEMAS] + targets == BeforeGlobals(w.run.pages)
    ensures var fields := CollectAll(w, targets, args.size);
            && Phase(w, fields, ok, args, 0)
            && (fields.exit == Returned ==> AllDone(BeforeGlobals(fields.world.run.pages), fields.world.run.pages))
  {
    NoDefinitionBeforeGlobals(w.run.pages);
    ListedAreOrdinary(w.run.pages, targets);
    CollectAllKeeps(w, [SCHEMAS], targets, ok, args);
    SamePlanSameStart(w.run.pages, CollectAll(w, targets, args.size).world.run.pages);
  }

  lemma ListedAreOrdinary(pages: seq<RawPage>, targets: seq<Target>)
    requires [SCHEMAS] + targets == BeforeGlobals(pages)
    ensures forall i :: 0 <= i < |targets| ==> Ordinary(targets[i])
  {
    var bySchemas := BySchemas(SortedSet(Prefixes(pages)));
    assert [FIELDS] + bySchemas == BeforeGlobals(pages)[1..] == targets;
  }

  /** The plan starts with everything that comes before the global surfaces. */
  lemma SamePlanSameStart(pages: seq<RawPage>, more: seq<RawPage>)
    requires Plan(more) == Plan(pages)
    ensures BeforeGlobals(more) == BeforeGlobals(pages)
  {
    PlanParts(pages, |BeforeGlobals(pages)|);
    PlanParts(more, |BeforeGlobals(more)|);
  }

  lemma CollectGlobals(w: World, ok: Rule, args: Args)
    requires Sound(w, ok) && Conforms(w.script, ok) && AllDone(BeforeGlobals(w.run.pages), w.run.pages)
    ensures var globals := CollectAll(w, GLOBALS, args.size);
            && Phase(w, globals, ok, args, 0)
            && (globals.exit == Returned ==>
                  AllDone(BeforeGlobals(globals.world.run.pages) + GLOBALS, globals.world.run.pages))
  {
    CollectAllKeeps(w, BeforeGlobals(w.run.pages), GLOBALS, ok, args);
    SamePlanSameStart(w.run.pages, CollectAll(w, GLOBALS, args.size).world.run.pages);
  }

  /** What holds once the registry was collected. */
  ghost predicate RegistryKept(w: World, out: Outcome, ok: Rule, args: Args) {
    var pages := out.world.run.pages;
    && Phase(w, out, ok, args, |w.run.pages|)
    && (|pages| > |w.run.pages| || out.exit == Returned ==> pages != [] && Uses(pages[0], args))
    && (out.exit == Returned ==> AllDone(BeforeGlobals(pages), pages))
  }

  lemma CollectRegistryKeeps(w: World, ok: Rule, args: Args)
    requires Sound(w, ok) && Conforms(w.script, ok)
    ensures RegistryKept(w, CollectMetadataRegistry(w, args.size), ok, args)
  {
    SchemasBegin(w, ok, args);
    CollectSchemasKeeps(w, 0, [], ok, args);
    var (schemas, prefixes) := CollectSchemas(w, args.size, 0, []);
    PhaseSlack(w, schemas, ok, args, Count(w.run.pages, MetadataSchemas), |w.run.pages|);
    if schemas.exit == Returned {
      ScriptSuffix(w.script, |w.script| - |schemas.world.script|, ok);
      var targets := [FIELDS] + BySchemas(SortedSet(prefixes));
      assert [SCHEMAS] + targets == BeforeGlobals(schemas.world.run.pages);
      CollectListed(schemas.world, targets, ok, args);
      PhaseThen(w, schemas, CollectMetadataRegistry(w, args.size), ok, args, |w.run.pages|, 0);
    }
  }

  lemma FirstPageStays(w: World, out: Outcome, ok: Rule, args: Args)
    requires Phase(w, out, ok, args, 0) && w.run.pages != [] && Uses(w.run.pages[0], args)
    ensures out.world.run.pages != [] && Uses(out.world.run.pages[0], args)
  {
  }

  /** The definition and its sections come last. */
  lemma DefinitionLast(w: World, globals: Outcome, ok: Rule, args: Args)
    requires Phase(w, globals, ok, args, |w.run.pages|) && globals.exit == Returned && Conforms(w.script, ok)
    requires globals.world.run.pages != [] && Uses(globals.world.run.pages[0], args)
    requires AllDone(BeforeGlobals(globals.world.run.pages) + GLOBALS, globals.world.run.pages)
    ensures Attempted(w, CollectActiveDefinition(globals.world, args.uuid, args.size), ok, args)
  {
    var before := BeforeGlobals(globals.world.run.pages) + GLOBALS;
    ScriptSuffix(w.script, |w.script| - |globals.world.script|, ok);
    CollectActiveDefinitionKeeps(globals.world, before, ok, args);
    var out := CollectActiveDefinition(globals.world, args.uuid, args.size);
    PhaseThen(w, globals, out, ok, args, |w.run.pages|, 1);
    FirstUndoneNone(Plan(out.world.run.pages), out.world.run.pages);
  }

  lemma GlobalsLast(w: World, registry: Outcome, ok: Rule, args: Args)
    requires RegistryKept(w, registry, ok, args) && registry.exit == Returned && Conforms(w.script, ok)
    ensures var globals := CollectAll(registry.world, GLOBALS, args.size);
            Attempted(w, if globals.exit == Returned then CollectActiveDefinition(globals.world, args.uuid, args.size)
            else globals, ok, args)
  {
    ScriptSuffix(w.script, |w.script| - |registry.world.script|, ok);
    CollectGlobals(registry.world, ok, args);
    var globals := CollectAll(registry.world, GLOBALS, args.size);
    PhaseThen(w, registry, globals, ok, args, |w.run.pages|, 0);
    FirstPageStays(registry.world, globals, ok, args);
    if globals.exit == Returned {
      DefinitionLast(w, globals, ok, args);
    }
  }

  lemma CollectEverythingKeeps(w: World, ok: Rule, args: Args)
    requires Sound(w, ok) && Conforms(w.script, ok)
    ensures Attempted(w, CollectEverything(w, args.uuid, args.size), ok, args)
  {
    CollectRegistryKeeps(w, ok, args);
    var registry := CollectMetadataRegistry(w, args.size);
    if registry.exit == Returned {
      GlobalsLast(w, registry, ok, args);
    }
  }
}
