/**
  The collector, phase by phase, started anywhere.

  Each phase keeps the trace, stores only pages that come next, and when it returns its surfaces are
  closed.  If the turns decide every answer, a phase that raises is stuck: no page fits.
 */
module ContractResume {
  import opened JsonValues
  import opened ContractStore
  import opened ContractClient
  import opened ContractSync
  import opened ContractEvidence

  type Rule = (Request, Json) -> bool

  /** From `w` to `w'` pages were only added, all with these arguments, and turns were only spent. */
  ghost predicate Advanced(w: World, w': World, ok: Rule, args: Args) {
    && Sound(w', ok)
    && w.run.pages <= w'.run.pages
    && (forall i :: |w.run.pages| <= i < |w'.run.pages| ==> Uses(w'.run.pages[i], args))
    && |w'.script| <= |w.script|
    && w'.script == w.script[|w.script| - |w'.script|..]
  }

  /** There is a next page, and no page that fits has an answer. */
  ghost predicate Stuck(pages: seq<RawPage>, ok: Rule, args: Args) {
    && NextTarget(pages).Some?
    && forall page :: Fits(pages, page) && Uses(page, args) ==> !ok(RequestOf(page), page.payload)
  }

  /** `reply` is the answer that leads to `payload` being stored. */
  predicate Answers(reply: Reply, q: Request, payload: Json) {
    || reply == Payload(payload)
    || (reply == Raise(DSpaceFault(Some(204))) && q.surface == ActiveSections && payload == OBSERVATION_204)
  }

  /** These turns leave no doubt: an allowed payload is what they answer. */
  ghost predicate Decides(script: seq<Turn>, ok: Rule) {
    forall i, q, payload :: 0 <= i < |script| && ok(q, payload) ==> Answers(script[i](q), q, payload)
  }

  /** An error of the repository's that tells nothing about what it would serve. */
  predicate Excuses(reply: Reply, q: Request) {
    && reply.Raise? && reply.fault.DSpaceFault?
    && !(reply.fault == DSpaceFault(Some(204)) && q.surface == ActiveSections)
  }

  /** These turns answer an allowed payload, or excuse themselves. */
  ghost predicate Settles(script: seq<Turn>, ok: Rule) {
    forall i, q, payload ::
      0 <= i < |script| && ok(q, payload) ==> Answers(script[i](q), q, payload) || Excuses(script[i](q), q)
  }

  /** The exit cannot be put down to a passing error: that it happened says that no page could follow. */
  ghost predicate Unexcused(exit: Exit, sections: bool, script: seq<Turn>, ok: Rule) {
    if exit.Errored? || (sections && exit == Faulted(DSpaceFault(Some(204)))) then Settles(script, ok)
    else exit.Faulted? && Decides(script, ok)
  }

  ghost predicate Raised(exit: Exit) {
    exit.Faulted? || exit.Errored?
  }

  lemma AdvancedTransitive(w: World, w1: World, w2: World, ok: Rule, args: Args)
    requires Advanced(w, w1, ok, args) && Advanced(w1, w2, ok, args)
    ensures Advanced(w, w2, ok, args)
  {
    assert forall i :: 0 <= i < |w1.run.pages| ==> w2.run.pages[i] == w1.run.pages[i];
  }

  lemma ScriptSuffix(script: seq<Turn>, k: nat, ok: Rule)
    requires k <= |script|
    ensures Conforms(script, ok) ==> Conforms(script[k..], ok)
    ensures Decides(script, ok) ==> Decides(script[k..], ok)
    ensures Settles(script, ok) ==> Settles(script[k..], ok)
  {
  }

  /** The page that must be asked for next was announced by the page before it. */
  lemma NextIsAnnounced(pages: seq<RawPage>, ok: Rule, target: Target, size: int)
    requires Trace(pages, ok) && !Done(pages, target.surface) && target.surface != ActiveDefinition
    ensures Announced(PageRequest(target, Count(pages, target.surface), size), pages)
  {
    var n := Count(pages, target.surface);
    if n > 0 {
      FindDense(pages, ok, target.surface, n - 1);
      StoredPagination(FindPage(pages, target.surface, n - 1).value);
    }
  }

  /** A page just stored closes its surface exactly when it claims to be the last. */
  lemma ClosedByLast(pages: seq<RawPage>, page: RawPage)
    requires WellFormed(page) && page.surface != ActiveDefinition && page.pageNumber == Count(pages, page.surface)
    ensures Done(pages + [page], page.surface) <==> TotalPages(page) <= page.pageNumber + 1
  {
    FindAppend(pages, page, page.surface, page.pageNumber);
    StoredPagination(page);
  }

  /** Asking changes the log and the script only. */
  lemma AskKeeps(w: World, ok: Rule, args: Args, q: Request)
    requires Sound(w, ok) && w.script != [] && Announced(q, w.run.pages)
    ensures Advanced(w, w.(asked := w.asked + [q], script := w.script[1..]), ok, args)
  {
  }

  /** Storing a page that fits, seen from the world. */
  lemma StoreKeeps(w: World, ok: Rule, args: Args, target: Target, page: RawPage)
    requires Sound(w, ok) && Fits(w.run.pages, page) && ok(RequestOf(page), page.payload) && Uses(page, args)
    requires target.surface == page.surface && target.endpoint == page.endpoint
    ensures var out := StorePage(w, target, page.pageNumber, page.params, page.payload);
            && out.exit == Returned
            && Advanced(w, out.world, ok, args)
            && out.world.run.pages == w.run.pages + [page]
            && out.world.script == w.script
  {
    AppendKeeps(w, ok, page);
  }

  function PageFor(target: Target, n: nat, size: int, payload: Json): RawPage {
    RawPage(target.surface, target.endpoint, n, PageParams(n, size, target.schema), payload, CanonicalRawHash(payload))
  }

  /** A 204 for the first page of the active sections, which the caller turns into an observation. */
  predicate NoContent(exit: Exit, target: Target, pages: seq<RawPage>) {
    exit == Faulted(DSpaceFault(Some(204))) && target.surface == ActiveSections && Count(pages, target.surface) == 0
  }

  /** What holds when the paging loop of the next surface ends. */
  ghost predicate Paged(w: World, target: Target, out: Outcome, ok: Rule, args: Args) {
    var pages := out.world.run.pages;
    && Advanced(w, out.world, ok, args)
    && Grown(w.run.pages, pages, target.surface)
    && (out.exit == Returned ==> Done(pages, target.surface))
    && (out.exit != Returned ==> NextTarget(pages) == Some(target))
    && (out.exit == Killed ==> out.world.script == [])
    && (!Raised(out.exit) ==> |w.script| - |out.world.script| == |pages| - |w.run.pages|)
    && (NoContent(out.exit, target, pages) ==>
          && ok(PageRequest(target, 0, args.size), OBSERVATION_204)
          && |w.script| - |out.world.script| == |pages| - |w.run.pages| + 1)
    && (Unexcused(out.exit, target.surface == ActiveSections, w.script, ok) && !NoContent(out.exit, target, pages) ==>
          Stuck(pages, ok, args))
  }

  /** The world after a request was sent and answered. */
  function Sent(w: World, q: Request): World
    requires w.script != []
  {
    w.(asked := w.asked + [q], script := w.script[1..])
  }

  /** What the first turn answers this page request with, if it is a page with the right number. */
  function Served(w: World, target: Target, n: nat, size: int): Option<HalPage>
    requires w.script != []
  {
    var reply := w.script[0](PageRequest(target, n, size));
    if reply.Payload? then
      var hal := ParsePage(Relation(target.surface), reply.body);
      if hal.Ok? && hal.value.page == n then Some(hal.value) else None
    else None
  }

  lemma StepServed(w: World, target: Target, n: nat, ok: Rule, args: Args)
    requires Sound(w, ok) && Conforms(w.script, ok) && w.script != []
    requires NextTarget(w.run.pages) == Some(target) && n == Count(w.run.pages, target.surface)
    requires target.surface != MetadataSchemas && target.surface != ActiveDefinition
    requires Served(w, target, n, args.size).Some?
    ensures var page := PageFor(target, n, args.size, Served(w, target, n, args.size).value.raw);
            var out := StorePage(Sent(w, PageRequest(target, n, args.size)), target, n, page.params, page.payload);
            && out.exit == Returned
            && Advanced(w, out.world, ok, args)
            && out.world.run.pages == w.run.pages + [page]
            && out.world.script == w.script[1..]
            && WellFormed(page)
  {
    var q := PageRequest(target, n, args.size);
    var k := FirstUndoneSplits(Plan(w.run.pages), w.run.pages);
    NextIsAnnounced(w.run.pages, ok, target, args.size);
    AskKeeps(w, ok, args, q);
    assert Allows(ok, q, w.script[0](q));
    var page := PageFor(target, n, args.size, Served(w, target, n, args.size).value.raw);
    StoreKeeps(Sent(w, q), ok, args, target, page);
    AdvancedTransitive(w, Sent(w, q), StorePage(Sent(w, q), target, n, page.params, page.payload).world, ok, args);
  }

  /** The exit is the error that the reply is, or that reading it met. */
  ghost predicate RaisedBy(reply: Reply, exit: Exit) {
    && Raised(exit)
    && (exit.Errored? <==> reply == Raise(OtherFault))
    && (exit == Faulted(DSpaceFault(Some(204))) <==> reply == Raise(DSpaceFault(Some(204))))
  }

  lemma StepRaisedBy(w: World, target: Target, n: nat, size: int)
    requires w.script != [] && Served(w, target, n, size).None?
    ensures var q, step := PageRequest(target, n, size), CollectStep(w, target, size, n);
            && step.Stop? && step.outcome.world == Sent(w, q)
            && RaisedBy(w.script[0](q), step.outcome.exit)
  {
  }

  lemma RaisedPaged(w: World, target: Target, exit: Exit, ok: Rule, args: Args)
    requires Sound(w, ok) && Conforms(w.script, ok) && w.script != [] && NextTarget(w.run.pages) == Some(target)
    requires target.surface != MetadataSchemas && target.surface != ActiveDefinition
    requires Served(w, target, Count(w.run.pages, target.surface), args.size).None?
    requires RaisedBy(w.script[0](PageRequest(target, Count(w.run.pages, target.surface), args.size)), exit)
    requires !Done(w.run.pages, target.surface)
    ensures Paged(
      w, target, Outcome(Sent(w, PageRequest(target, Count(w.run.pages, target.surface), args.size)), exit), ok, args)
  {
    var q := PageRequest(target, Count(w.run.pages, target.surface), args.size);
    assert Advanced(w, Sent(w, q), ok, args) by {
      NextIsAnnounced(w.run.pages, ok, target, args.size);
      AskKeeps(w, ok, args, q);
    }
    assert Allows(ok, q, w.script[0](q));
    if !NoContent(exit, target, w.run.pages) {
      RaisedIsStuck(w.run.pages, target, w.script, ok, args);
    }
  }

  lemma StepRaises(w: World, target: Target, n: nat, ok: Rule, args: Args)
    requires Sound(w, ok) && Conforms(w.script, ok) && w.script != []
    requires NextTarget(w.run.pages) == Some(target) && n == Count(w.run.pages, target.surface)
    requires target.surface != MetadataSchemas && target.surface != ActiveDefinition
    requires Served(w, target, n, args.size).None?
    ensures var step := CollectStep(w, target, args.size, n);
            step.Stop? && Raised(step.outcome.exit) && Paged(w, target, step.outcome, ok, args)
  {
    var k := FirstUndoneSplits(Plan(w.run.pages), w.run.pages);
    StepRaisedBy(w, target, n, args.size);
    RaisedPaged(w, target, CollectStep(w, target, args.size, n).outcome.exit, ok, args);
  }

  lemma KilledKeeps(w: World, target: Target, n: nat, ok: Rule, args: Args)
    requires Sound(w, ok) && w.script == [] && NextTarget(w.run.pages) == Some(target)
    ensures CollectStep(w, target, args.size, n) == Stop(Outcome(w, Killed))
    ensures Paged(w, target, Outcome(w, Killed), ok, args)
  {
  }

  lemma StepUnfolds(w: World, target: Target, n: nat, size: int)
    requires w.script != [] && Served(w, target, n, size).Some?
    ensures var hal := Served(w, target, n, size).value;
            var out :=
              StorePage(Sent(w, PageRequest(target, n, size)), target, n, PageParams(n, size, target.schema), hal.raw);
            CollectStep(w, target, size, n) ==
            if out.exit != Returned || hal.totalPages <= n + 1 then Stop(out) else More(out.world)
  {
  }

  /** One turn of the paging loop of the next surface. */
  ghost predicate Stepped(w: World, target: Target, step: Step, ok: Rule, args: Args) {
    match step
    case Stop(out) => Paged(w, target, out, ok, args)
    case More(w') =>
      && Advanced(w, w', ok, args)
      && Grown(w.run.pages, w'.run.pages, target.surface)
      && |w'.run.pages| == |w.run.pages| + 1
      && |w'.script| == |w.script| - 1
      && NextTarget(w'.run.pages) == Some(target)
  }

  lemma StepStores(w: World, target: Target, n: nat, ok: Rule, args: Args)
    requires Sound(w, ok) && Conforms(w.script, ok) && w.script != []
    requires NextTarget(w.run.pages) == Some(target) && n == Count(w.run.pages, target.surface)
    requires target.surface != MetadataSchemas && target.surface != ActiveDefinition
    requires Served(w, target, n, args.size).Some?
    ensures Stepped(w, target, CollectStep(w, target, args.size, n), ok, args)
  {
    StepServed(w, target, n, ok, args);
    StepUnfolds(w, target, n, args.size);
    var page := PageFor(target, n, args.size, Served(w, target, n, args.size).value.raw);
    ClosedByLast(w.run.pages, page);
    StoredPagination(page);
    if !Done(w.run.pages + [page], target.surface) {
      NextStays(w.run.pages, w.run.pages + [page]);
    }
  }

  lemma CollectStepKeeps(w: World, target: Target, n: nat, ok: Rule, args: Args)
    requires Sound(w, ok) && Conforms(w.script, ok)
    requires NextTarget(w.run.pages) == Some(target) && n == Count(w.run.pages, target.surface)
    requires target.surface != MetadataSchemas && target.surface != ActiveDefinition
    ensures Stepped(w, target, CollectStep(w, target, args.size, n), ok, args)
  {
    if w.script == [] {
      KilledKeeps(w, target, n, ok, args);
    } else if Served(w, target, n, args.size).None? {
      StepRaises(w, target, n, ok, args);
    } else {
      StepStores(w, target, n, ok, args);
    }
  }

  /** What was paged after one more turn was paged from the start. */
  lemma PagedThen(w: World, w1: World, target: Target, out: Outcome, ok: Rule, args: Args)
    requires Stepped(w, target, More(w1), ok, args) && Paged(w1, target, out, ok, args)
    requires Decides(w.script, ok) ==> Decides(w1.script, ok)
    requires Settles(w.script, ok) ==> Settles(w1.script, ok)
    ensures Paged(w, target, out, ok, args)
  {
    AdvancedTransitive(w, w1, out.world, ok, args);
  }

  /** `_collect_surface` from the next page of the next surface. */
  lemma {:induction false} CollectFromKeeps(w: World, target: Target, n: nat, ok: Rule, args: Args)
    requires Sound(w, ok) && Conforms(w.script, ok)
    requires NextTarget(w.run.pages) == Some(target) && n == Count(w.run.pages, target.surface)
    requires target.surface != MetadataSchemas && target.surface != ActiveDefinition
    ensures Paged(w, target, CollectFrom(w, target, args.size, n), ok, args)
    decreases |w.script|
  {
    CollectStepKeeps(w, target, n, ok, args);
    var step := CollectStep(w, target, args.size, n);
    if step.More? {
      ScriptSuffix(w.script, 1, ok);
      var n' := Count(step.world.run.pages, target.surface);
      CollectFromKeeps(step.world, target, n', ok, args);
      PagedThen(w, step.world, target, CollectFrom(step.world, target, args.size, n'), ok, args);
    }
  }

  lemma RaisedIsStuck(pages: seq<RawPage>, target: Target, script: seq<Turn>, ok: Rule, args: Args)
    requires NextTarget(pages) == Some(target) && target.surface != ActiveDefinition
             && target.surface != MetadataSchemas
    requires script != []
    requires var n := Count(pages, target.surface);
             match script[0](PageRequest(target, n, args.size))
             case Raise(fault) => !(fault == DSpaceFault(Some(204)) && target.surface == ActiveSections && n == 0)
             case Payload(body) => var hal := ParsePage(Relation(target.surface), body); hal.Ok? ==> hal.value.page != n
    ensures Decides(script, ok) ==> Stuck(pages, ok, args)
    ensures var q := PageRequest(target, Count(pages, target.surface), args.size);
            Settles(script, ok) && !Excuses(script[0](q), q) ==> Stuck(pages, ok, args)
  {
    var q := PageRequest(target, Count(pages, target.surface), args.size);
    if Decides(script, ok) || (Settles(script, ok) && !Excuses(script[0](q), q)) {
      forall page | Fits(pages, page) && Uses(page, args) ensures !ok(RequestOf(page), page.payload) {
        assert RequestOf(page) == q;
        if ok(q, page.payload) {
          assert Answers(script[0](q), q, page.payload);
          ObservationIsPageZero();
        }
      }
    }
  }

  lemma ObservationIsPageZero()
    ensures ParsePage(Relation(ActiveSections), OBSERVATION_204) == Ok(HalPage([], 0, 0, 0, OBSERVATION_204))
  {
  }
}
