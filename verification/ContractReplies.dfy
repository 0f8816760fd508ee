/** What the last reply of an attempt says about how the run ends, whatever was stored before. */
module ContractReplies {
  import opened JsonValues
  import opened ContractStore
  import opened ContractClient
  import opened ContractSync

  /** The reply is an error of the repository's, or not the page or the definition that was asked for. */
  predicate Unreadable(q: Request, reply: Reply) {
    match reply
    case Raise(fault) => fault.DSpaceFault?
    case Payload(body) =>
      match q.params
      case CollectionParams(_) => !IsText(Get(body, "name"))
      case PageParams(number, _, _) =>
        match ParsePage(Relation(q.surface), body)
        case Err(_) => true
        case Ok(page) => page.page != number || (q.surface == MetadataSchemas && SchemaPrefixes(page.items).None?)
  }

  /** That the sections answer 204 is not an error but an observation. */
  predicate Observes(q: Request, reply: Reply) {
    q.surface == ActiveSections && reply == Raise(DSpaceFault(Some(204)))
  }

  predicate Interrupts(q: Request, reply: Reply, observing: bool) {
    Unreadable(q, reply) && !(observing && Observes(q, reply))
  }

  function NumberOf(params: Params): nat {
    if params.PageParams? then params.page else 0
  }

  /** Another payload is stored in its place, or it was stored for another request. */
  predicate Refused(pages: seq<RawPage>, q: Request, payload: Json) {
    match FindPage(pages, q.surface, NumberOf(q.params))
    case None => false
    case Some(page) => page.hash != CanonicalRawHash(payload) || page.endpoint != q.endpoint || page.params != q.params
  }

  /** The request an observation in place of the first page answers. */
  function FirstPageOf(q: Request): Request {
    if q.params.PageParams? then q.(params := PageParams(0, q.params.size, None)) else q
  }

  predicate Fails(q: Request, reply: Reply, pages: seq<RawPage>, observing: bool) {
    || reply == Raise(OtherFault)
    || (!Unreadable(q, reply) && reply.Payload? && Refused(pages, q, reply.body))
    || (observing && Observes(q, reply) && Refused(pages, FirstPageOf(q), OBSERVATION_204))
  }

  // Turns spent

  /** One turn was spent for each request that was sent. */
  ghost predicate Spends(w: World, w': World) {
    && w.asked <= w'.asked
    && |w'.script| <= |w.script|
    && w'.script == w.script[|w.script| - |w'.script|..]
    && |w'.asked| - |w.asked| == |w.script| - |w'.script|
  }

  predicate Heard(w: World, w': World) {
    |w'.asked| > |w.asked|
  }

  /** The last request sent, and what it was answered. */
  function LastHeard(w: World, w': World): (Request, Reply)
    requires Spends(w, w') && Heard(w, w')
  {
    var q := w'.asked[|w'.asked| - 1];
    (q, w.script[|w.script| - |w'.script| - 1](q))
  }

  /** The exit is what the last reply leads to; when nothing was heard nothing changed. */
  ghost predicate Explained(w: World, out: Outcome, observing: bool) {
    && out.world.run.status == w.run.status == Running
    && Spends(w, out.world)
    && (out.exit == Killed ==> out.world.script == [])
    && if Heard(w, out.world) then
         var (q, reply) := LastHeard(w, out.world);
         && (out.exit.Faulted? <==> Interrupts(q, reply, observing))
         && (out.exit.Errored? <==> Fails(q, reply, out.world.run.pages, observing))
       else
         out.world.run == w.run && (out.exit == Returned || out.exit == Killed)
  }

  lemma NothingHeard(w: World, exit: Exit, observing: bool)
    requires w.run.status == Running && (exit == Returned || (exit == Killed && w.script == []))
    ensures Explained(w, Outcome(w, exit), observing)
  {
  }

  lemma SpendsTransitive(w: World, w1: World, w2: World)
    requires Spends(w, w1) && Spends(w1, w2)
    ensures Spends(w, w2)
    ensures Heard(w1, w2) ==> Heard(w, w2) && LastHeard(w, w2) == LastHeard(w1, w2)
    ensures !Heard(w1, w2) && Heard(w, w1) ==> Heard(w, w2) && LastHeard(w, w2) == LastHeard(w, w1)
  {
  }

  lemma ExplainedThen(w: World, first: Outcome, second: Outcome, observing: bool)
    requires Explained(w, first, observing) && first.exit == Returned && Explained(first.world, second, observing)
    ensures Explained(w, second, observing)
  {
    SpendsTransitive(w, first.world, second.world);
  }

  // One reply

  lemma SentSpends(w: World, q: Request)
    requires w.script != []
    ensures var w1 := w.(asked := w.asked + [q], script := w.script[1..]);
            Spends(w, w1) && Heard(w, w1) && LastHeard(w, w1) == (q, w.script[0](q))
  {
  }

  /** Persisting either stores the payload under its request or finds it refused. */
  lemma StoreMeans(w: World, target: Target, params: Params, payload: Json)
    requires w.run.status == Running
    ensures var q := Request(target.surface, target.endpoint, params);
            var out := StorePage(w, target, NumberOf(params), params, payload);
            && out.world == w.(run := out.world.run)
            && out.world.run.status == Running
            && (out.exit == Returned || out.exit == Errored)
            && (out.exit == Errored <==> Refused(out.world.run.pages, q, payload))
            && (out.exit == Errored ==> out.world.run == w.run)
  {
    var page := RawPage(
      target.surface, target.endpoint, NumberOf(params), params, payload, CanonicalRawHash(payload));
    FindAppended(w.run.pages, page);
  }

  lemma ReplyStored(w: World, target: Target, q: Request, body: Json, observing: bool)
    requires w.script != [] && w.run.status == Running
    requires q.surface == target.surface && q.endpoint == target.endpoint
    requires w.script[0](q) == Payload(body) && !Unreadable(q, Payload(body))
    ensures var sent := w.(asked := w.asked + [q], script := w.script[1..]);
            Explained(w, StorePage(sent, target, NumberOf(q.params), q.params, body), observing)
  {
    var sent := w.(asked := w.asked + [q], script := w.script[1..]);
    SentSpends(w, q);
    StoreMeans(sent, target, q.params, body);
    assert q == Request(target.surface, target.endpoint, q.params);
    SpendsTransitive(w, sent, StorePage(sent, target, NumberOf(q.params), q.params, body).world);
  }

  lemma ReplyRaises(w: World, q: Request, exit: Exit, observing: bool)
    requires w.script != [] && w.run.status == Running
    requires exit == Errored ==> w.script[0](q) == Raise(OtherFault)
    requires exit.Faulted? ==> Interrupts(q, w.script[0](q), observing)
    requires exit == Errored || exit.Faulted?
    ensures Explained(w, Outcome(w.(asked := w.asked + [q], script := w.script[1..]), exit), observing)
  {
    SentSpends(w, q);
  }

  // The paging loop

  /** All that was heard was asked of this surface. */
  ghost predicate Asks(w: World, w': World, surface: Surface) {
    forall i :: |w.asked| <= i < |w'.asked| ==> w'.asked[i].surface == surface && w'.asked[i].params.PageParams?
  }

  /** A fault is the one that was raised; what cannot be read is an invalid response. */
  ghost predicate FaultIsReply(w: World, out: Outcome) {
    out.exit.Faulted? && Spends(w, out.world) && Heard(w, out.world) ==>
      var reply := LastHeard(w, out.world).1;
      out.exit.fault == if reply.Raise? then reply.fault else INVALID_HAL
  }

  /** What one paging loop leaves, before a 204 on the sections is taken as an observation. */
  ghost predicate Paging(w: World, out: Outcome, target: Target) {
    Explained(w, out, false) && Asks(w, out.world, target.surface) && FaultIsReply(w, out)
  }

  ghost predicate PagingStep(w: World, step: Step, target: Target) {
    match step
    case Stop(out) => Paging(w, out, target)
    case More(w') => Paging(w, Outcome(w', Returned), target)
  }

  function SentTo(w: World, q: Request): World
    requires w.script != []
  {
    w.(asked := w.asked + [q], script := w.script[1..])
  }

  function RaisedExit(reply: Reply): Exit {
    if reply == Raise(OtherFault) then Errored else Faulted(if reply.Raise? then reply.fault else INVALID_HAL)
  }

  lemma StepRead(w: World, target: Target, size: int, n: nat)
    requires w.script != [] && target.surface != MetadataSchemas
    requires var q := PageRequest(target, n, size);
             !Unreadable(q, w.script[0](q)) && w.script[0](q).Payload?
    ensures var q, step := PageRequest(target, n, size), CollectStep(w, target, size, n);
            var out := StorePage(SentTo(w, q), target, n, q.params, w.script[0](q).body);
            step == Stop(out) || (step == More(out.world) && out.exit == Returned)
  {
  }

  lemma StepNotRead(w: World, target: Target, size: int, n: nat)
    requires w.script != [] && target.surface != MetadataSchemas
    requires var q := PageRequest(target, n, size);
             Unreadable(q, w.script[0](q)) || w.script[0](q).Raise?
    ensures var q := PageRequest(target, n, size);
            CollectStep(w, target, size, n) == Stop(Outcome(SentTo(w, q), RaisedExit(w.script[0](q))))
  {
  }

  lemma StoredPaging(w: World, target: Target, size: int, n: nat, body: Json)
    requires w.script != [] && w.run.status == Running && target.surface != MetadataSchemas
    requires var q := PageRequest(target, n, size);
             w.script[0](q) == Payload(body) && !Unreadable(q, Payload(body))
    ensures var q := PageRequest(target, n, size);
            Paging(w, StorePage(SentTo(w, q), target, n, q.params, body), target)
  {
    var q := PageRequest(target, n, size);
    ReplyStored(w, target, q, body, false);
    StoreMeans(SentTo(w, q), target, q.params, body);
  }

  lemma RaisedPaging(w: World, target: Target, size: int, n: nat)
    requires w.script != [] && w.run.status == Running && target.surface != MetadataSchemas
    requires var q := PageRequest(target, n, size);
             Unreadable(q, w.script[0](q)) || w.script[0](q).Raise?
    ensures var q := PageRequest(target, n, size);
            Paging(w, Outcome(SentTo(w, q), RaisedExit(w.script[0](q))), target)
  {
    var q := PageRequest(target, n, size);
    SentSpends(w, q);
    ReplyRaises(w, q, RaisedExit(w.script[0](q)), false);
  }

  lemma CollectStepExplained(w: World, target: Target, size: int, n: nat)
    requires w.run.status == Running && target.surface != MetadataSchemas
    ensures PagingStep(w, CollectStep(w, target, size, n), target)
  {
    var q := PageRequest(target, n, size);
    if w.script == [] {
      NothingHeard(w, Killed, false);
    } else if w.script[0](q).Payload? && !Unreadable(q, w.script[0](q)) {
      StepRead(w, target, size, n);
      StoredPaging(w, target, size, n, w.script[0](q).body);
    } else {
      StepNotRead(w, target, size, n);
      RaisedPaging(w, target, size, n);
    }
  }

  lemma PagingThen(w: World, w1: World, out: Outcome, target: Target)
    requires Paging(w, Outcome(w1, Returned), target) && Paging(w1, out, target)
    ensures Paging(w, out, target)
  {
    ExplainedThen(w, Outcome(w1, Returned), out, false);
    SpendsTransitive(w, w1, out.world);
  }

  lemma {:induction false} CollectFromExplained(w: World, target: Target, size: int, n: nat)
    requires w.run.status == Running && target.surface != MetadataSchemas
    ensures Paging(w, CollectFrom(w, target, size, n), target)
    decreases |w.script|
  {
    CollectStepExplained(w, target, size, n);
    match CollectStep(w, target, size, n)
    case Stop(_) =>
    case More(w') =>
      var n' := CheckpointNextPage(w'.run, target.surface);
      CollectFromExplained(w', target, size, n');
      PagingThen(w, w', CollectFrom(w', target, size, n'), target);
  }

  lemma CollectSurfaceExplained(w: World, target: Target, size: int)
    requires w.run.status == Running && target.surface != MetadataSchemas
    ensures Paging(w, CollectSurface(w, target, size), target)
  {
    if SurfaceCheckpointIsComplete(w.run, target.surface) {
      NothingHeard(w, Returned, false);
    } else {
      CollectFromExplained(w, target, size, CheckpointNextPage(w.run, target.surface));
    }
  }

  /** Away from the sections nothing is taken as an observation. */
  lemma NothingObserved(w: World, out: Outcome, target: Target)
    requires Paging(w, out, target) && target.surface != ActiveSections
    ensures Explained(w, out, true)
  {
  }

  lemma {:induction false} CollectAllExplained(w: World, targets: seq<Target>, size: int)
    requires w.run.status == Running
    requires forall i :: 0 <= i < |targets| ==>
               targets[i].surface != MetadataSchemas && targets[i].surface != ActiveSections
    ensures Explained(w, CollectAll(w, targets, size), true)
    decreases |targets|
  {
    if targets == [] {
      NothingHeard(w, Returned, true);
    } else {
      var first := CollectSurface(w, targets[0], size);
      CollectSurfaceExplained(w, targets[0], size);
      NothingObserved(w, first, targets[0]);
      if first.exit == Returned {
        CollectAllExplained(first.world, targets[1..], size);
        ExplainedThen(w, first, CollectAll(first.world, targets[1..], size), true);
      }
    }
  }

  // The schema listing

  lemma SchemaStepExplained(w: World, size: int, n: nat)
    requires w.run.status == Running
    ensures match SchemaStep(w, size, n).0
            case Stop(out) => Explained(w, out, true)
            case More(w') => Explained(w, Outcome(w', Returned), true)
  {
    var q := PageRequest(SCHEMAS, n, size);
    if w.script == [] {
      NothingHeard(w, Killed, true);
    } else {
      var reply := w.script[0](q);
      SentSpends(w, q);
      if reply.Payload? && !Unreadable(q, reply) {
        ReplyStored(w, SCHEMAS, q, reply.body, true);
      } else {
        ReplyRaises(w, q, if reply == Raise(OtherFault) then Errored
          else Faulted(if reply.Raise? then reply.fault else INVALID_HAL), true);
      }
    }
  }

  lemma {:induction false} CollectSchemasExplained(w: World, size: int, n: nat, prefixes: seq<string>)
    requires w.run.status == Running
    ensures Explained(w, CollectSchemas(w, size, n, prefixes).0, true)
    decreases |w.script|
  {
    SchemaStepExplained(w, size, n);
    var (step, found) := SchemaStep(w, size, n);
    if step.More? {
      var rest := CollectSchemas(step.world, size, n + 1, prefixes + found).0;
      CollectSchemasExplained(step.world, size, n + 1, prefixes + found);
      ExplainedThen(w, Outcome(step.world, Returned), rest, true);
    }
  }

  lemma CollectRegistryExplained(w: World, size: int)
    requires w.run.status == Running
    ensures Explained(w, CollectMetadataRegistry(w, size), true)
  {
    CollectSchemasExplained(w, size, 0, []);
    var (schemas, prefixes) := CollectSchemas(w, size, 0, []);
    if schemas.exit == Returned {
      var targets := [FIELDS] + BySchemas(Ordering.SortedSet(prefixes));
      CollectAllExplained(schemas.world, targets, size);
      ExplainedThen(w, schemas, CollectAll(schemas.world, targets, size), true);
    }
  }

  // The definition and its sections

  /** A 204 on the sections is stored in place of their first page, or refused because there is one. */
  lemma ObservationExplained(w: World, failed: Outcome, target: Target, size: int)
    requires Paging(w, failed, target) && target.surface == ActiveSections
    requires failed.exit == Faulted(DSpaceFault(Some(204)))
    requires target.schema == None && AsksFor(w, failed.world, target, size)
    ensures Explained(w, StorePage(failed.world, target, 0, PageParams(0, size, None), OBSERVATION_204), true)
  {
    StoreMeans(failed.world, target, PageParams(0, size, None), OBSERVATION_204);
    var out := StorePage(failed.world, target, 0, PageParams(0, size, None), OBSERVATION_204);
    assert FirstPageOf(LastHeard(w, failed.world).0)
      == Request(target.surface, target.endpoint, PageParams(0, size, None));
    assert Spends(w, out.world) && LastHeard(w, out.world) == LastHeard(w, failed.world);
  }

  /** All requests are the target's, with this page size. */
  ghost predicate AsksFor(w: World, w': World, target: Target, size: int) {
    forall i :: |w.asked| <= i < |w'.asked| ==>
      && w'.asked[i].surface == target.surface && w'.asked[i].endpoint == target.endpoint
      && w'.asked[i].params.PageParams? && w'.asked[i].params.size == size
  }

  lemma {:induction false} CollectFromAsks(w: World, target: Target, size: int, n: nat)
    ensures w.asked <= CollectFrom(w, target, size, n).world.asked
    ensures AsksFor(w, CollectFrom(w, target, size, n).world, target, size)
    decreases |w.script|
  {
    var step := CollectStep(w, target, size, n);
    if step.More? {
      assert step.world.asked == w.asked + [PageRequest(target, n, size)];
      CollectFromAsks(step.world, target, size, CheckpointNextPage(step.world.run, target.surface));
    }
  }

  lemma CollectSectionsExplained(w: World, definition: string, size: int)
    requires w.run.status == Running
    ensures Explained(w, CollectSections(w, definition, size), true)
  {
    var target := Sections(definition);
    var sections := CollectSurface(w, target, size);
    CollectSurfaceExplained(w, target, size);
    if sections.exit == Faulted(DSpaceFault(Some(204))) {
      CollectFromAsks(w, target, size, CheckpointNextPage(w.run, target.surface));
      ObservationExplained(w, sections, target, size);
    } else {
      OtherFaultsStay(w, sections, target);
    }
  }

  lemma OtherFaultsStay(w: World, out: Outcome, target: Target)
    requires Paging(w, out, target) && out.exit != Faulted(DSpaceFault(Some(204)))
    ensures Explained(w, out, true)
  {
  }

  lemma CollectDefinitionExplained(w: World, uuid: string, size: int)
    requires w.run.status == Running
    ensures Explained(w, CollectActiveDefinition(w, uuid, size), true)
  {
    var q := Request(ActiveDefinition, DEFINITION.endpoint, CollectionParams(uuid));
    if w.script == [] {
      NothingHeard(w, Killed, true);
    } else {
      var reply := w.script[0](q);
      var sent := w.(asked := w.asked + [q], script := w.script[1..]);
      if reply.Payload? && !Unreadable(q, reply) {
        ReplyStored(w, DEFINITION, q, reply.body, true);
        var stored := StorePage(sent, DEFINITION, 0, q.params, reply.body);
        if stored.exit == Returned {
          var name := Get(reply.body, "name").text;
          CollectSectionsExplained(stored.world, name, size);
          ExplainedThen(w, stored, CollectSections(stored.world, name, size), true);
        }
      } else {
        ReplyRaises(w, q, if reply == Raise(OtherFault) then Errored
          else Faulted(if reply.Raise? then reply.fault else INVALID_HAL), true);
      }
    }
  }

  lemma GlobalsExplained(w: World, registry: Outcome, uuid: string, size: int)
    requires Explained(w, registry, true) && registry.exit == Returned
    ensures var globals := CollectAll(registry.world, GLOBALS, size);
            Explained(w, if globals.exit == Returned then CollectActiveDefinition(globals.world, uuid, size)
              else globals,
            true)
  {
    CollectAllExplained(registry.world, GLOBALS, size);
    var globals := CollectAll(registry.world, GLOBALS, size);
    ExplainedThen(w, registry, globals, true);
    if globals.exit == Returned {
      CollectDefinitionExplained(globals.world, uuid, size);
      ExplainedThen(w, globals, CollectActiveDefinition(globals.world, uuid, size), true);
    }
  }

  lemma CollectEverythingExplained(w: World, uuid: string, size: int)
    requires w.run.status == Running
    ensures Explained(w, CollectEverything(w, uuid, size), true)
  {
    CollectRegistryExplained(w, size);
    var registry := CollectMetadataRegistry(w, size);
    if registry.exit == Returned {
      GlobalsExplained(w, registry, uuid, size);
    }
  }

  // The attempt

  /** How many of its turns an attempt spends: one for each request. */
  function TurnsSpent(run: Run, attempt: Attempt): nat {
    |CollectRun(run, [], attempt).world.asked|
  }

  /** The last request an attempt sent and what it was answered. */
  function LastReply(run: Run, attempt: Attempt): (Request, Reply)
    requires 0 < TurnsSpent(run, attempt) <= |attempt.script|
  {
    var n := TurnsSpent(run, attempt);
    var q := CollectRun(run, [], attempt).world.asked[n - 1];
    (q, attempt.script[n - 1](q))
  }

  /** The attempt as the collection from the run set to running. */
  lemma RunUnfolds(run: Run, attempt: Attempt)
    ensures var w := World(run.(status := Running), [], attempt.script);
            var out, after := CollectEverything(w, attempt.uuid, attempt.size), Resume(run, attempt);
            && TurnsSpent(run, attempt) == |out.world.asked|
            && after.pages == out.world.run.pages
            && after.status ==
               if attempt.survives && out.exit != Killed then FinalStatus(out.exit) else out.world.run.status
  {
  }

  lemma HeardLast(run: Run, attempt: Attempt)
    requires var w := World(run.(status := Running), [], attempt.script);
             var out := CollectEverything(w, attempt.uuid, attempt.size);
             Spends(w, out.world) && Heard(w, out.world)
    ensures 0 < TurnsSpent(run, attempt) <= |attempt.script|
    ensures var w := World(run.(status := Running), [], attempt.script);
            LastReply(run, attempt) == LastHeard(w, CollectEverything(w, attempt.uuid, attempt.size).world)
  {
    RunUnfolds(run, attempt);
  }

  /**
    How a call leaves its run.  Its last reply alone decides: an error of the repository's, or a response
    that cannot be read as what was asked for, interrupts the run; another exception, or a page that
    conflicts with what is stored, fails it.  A process that dies leaves it as running.
   */
  lemma LastReplyDecidesStatus(run: Run, attempt: Attempt)
    requires Resumable(run.status)
    ensures TurnsSpent(run, attempt) <= |attempt.script|
    ensures !attempt.survives ==> Resume(run, attempt).status == Running
    ensures var after, n := Resume(run, attempt), TurnsSpent(run, attempt);
            attempt.survives ==>
              && (after.status == Interrupted <==>
                    n > 0 && var (q, reply) := LastReply(run, attempt); Interrupts(q, reply, true))
              && (after.status == Failed <==>
                    n > 0 && var (q, reply) := LastReply(run, attempt); Fails(q, reply, after.pages, true))
              && (after.status == Running ==> n == |attempt.script|)
  {
    var w := World(run.(status := Running), [], attempt.script);
    CollectEverythingExplained(w, attempt.uuid, attempt.size);
    RunUnfolds(run, attempt);
    var out := CollectEverything(w, attempt.uuid, attempt.size);
    if Heard(w, out.world) {
      HeardLast(run, attempt);
    }
  }
}
