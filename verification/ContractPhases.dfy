/** The phases of one attempt put together: schema listing, other surfaces, active definition. */
module ContractPhases {
  import opened JsonValues
  import opened ContractStore
  import opened ContractClient
  import opened ContractSync
  import opened ContractEvidence
  import opened ContractResume

  /**
    What every phase of an attempt keeps.  Up to `slack` of the turns it spent asked again for pages
    that were stored already.
   */
  ghost predicate Phase(w: World, out: Outcome, ok: Rule, args: Args, slack: nat) {
    && Advanced(w, out.world, ok, args)
    && (out.exit == Killed ==> out.world.script == [])
    && (!Raised(out.exit) ==> |w.script| - |out.world.script| <= |out.world.run.pages| - |w.run.pages| + slack)
    && (Unexcused(out.exit, false, w.script, ok) && AllUse(w.run.pages, args) ==> Stuck(out.world.run.pages, ok, args))
  }

  lemma PhaseThen(w: World, first: Outcome, second: Outcome, ok: Rule, args: Args, s1: nat, s2: nat)
    requires Phase(w, first, ok, args, s1) && first.exit == Returned && Phase(first.world, second, ok, args, s2)
    ensures Phase(w, second, ok, args, s1 + s2)
  {
  }

  lemma PhaseReturned(w: World, ok: Rule, args: Args)
    requires Sound(w, ok)
    ensures Phase(w, Outcome(w, Returned), ok, args, 0)
  {
  }

  // The surfaces collected by `_collect_surface`

  predicate Ordinary(target: Target) {
    target.surface != MetadataSchemas && target.surface != ActiveDefinition && target.surface != ActiveSections
  }

  lemma CollectSurfaceKeeps(w: World, before: seq<Target>, target: Target, ok: Rule, args: Args)
    requires Sound(w, ok) && Conforms(w.script, ok)
    requires before + [target] <= Plan(w.run.pages) && AllDone(before, w.run.pages)
    requires target.surface != MetadataSchemas && target.surface != ActiveDefinition
    ensures var out := CollectSurface(w, target, args.size);
            var pages := out.world.run.pages;
            Paged(w, target, out, ok, args) || (out == Outcome(w, Returned) && Done(pages, target.surface))
    ensures var out := CollectSurface(w, target, args.size);
            var pages := out.world.run.pages;
            && Plan(pages) == Plan(w.run.pages)
            && (out.exit == Returned ==> AllDone(before + [target], pages))
  {
    var pages := w.run.pages;
    var out := CollectSurface(w, target, args.size);
    if !Done(pages, target.surface) {
      var plan := Plan(pages);
      assert plan == before + plan[|before|..];
      FirstUndoneAfter(before, plan[|before|..], pages);
      assert plan[|before|] == target;
      CollectFromKeeps(w, target, Count(pages, target.surface), ok, args);
      PlanStable(pages, out.world.run.pages, target.surface);
      if out.exit == Returned {
        AllDoneStable(before, pages, out.world.run.pages, target.surface);
      }
    }
  }

  /** A run of `_collect_surface` calls along the plan. */
  lemma {:induction false} CollectAllKeeps(w: World, before: seq<Target>, targets: seq<Target>, ok: Rule, args: Args)
    requires Sound(w, ok) && Conforms(w.script, ok)
    requires before + targets <= Plan(w.run.pages) && AllDone(before, w.run.pages)
    requires forall i :: 0 <= i < |targets| ==> Ordinary(targets[i])
    ensures var out := CollectAll(w, targets, args.size);
            && Phase(w, out, ok, args, 0)
            && Plan(out.world.run.pages) == Plan(w.run.pages)
            && (out.exit == Returned ==> AllDone(before + targets, out.world.run.pages))
    decreases |targets|
  {
    if targets == [] {
      PhaseReturned(w, ok, args);
      assert before + targets == before;
    } else {
      assert before + targets == before + [targets[0]] + targets[1..];
      CollectSurfaceKeeps(w, before, targets[0], ok, args);
      var first := CollectSurface(w, targets[0], args.size);
      assert Phase(w, first, ok, args, 0);
      if first.exit == Returned {
        ScriptSuffix(w.script, |w.script| - |first.world.script|, ok);
        CollectAllKeeps(first.world, before + [targets[0]], targets[1..], ok, args);
        PhaseThen(w, first, CollectAll(first.world, targets[1..], args.size), ok, args, 0, 0);
      }
    }
  }

  // The schema listing

  /** Where the schema loop stands before it asks for page `n`. */
  ghost predicate AtSchemaPage(w: World, n: nat, prefixes: seq<string>, ok: Rule, args: Args) {
    && Sound(w, ok)
    && n <= Count(w.run.pages, MetadataSchemas) <= |w.run.pages|
    && prefixes == Prefixes(w.run.pages[..n])
    && (n > 0 ==> Uses(w.run.pages[0], args))
    && Announced(PageRequest(SCHEMAS, n, args.size), w.run.pages)
  }

  ghost predicate SchemasKept(w: World, n: nat, out: Outcome, prefixes: seq<string>, ok: Rule, args: Args) {
    var pages := out.world.run.pages;
    && Count(w.run.pages, MetadataSchemas) >= n
    && Phase(w, out, ok, args, Count(w.run.pages, MetadataSchemas) - n)
    && Grown(w.run.pages, pages, MetadataSchemas)
    && (out.exit == Returned ==> Done(pages, MetadataSchemas) && prefixes == Prefixes(pages))
    && (out.exit == Returned || |pages| > |w.run.pages| ==> pages != [] && Uses(pages[0], args))
  }

  lemma {:induction false} PrefixesAreFirst(pages: seq<RawPage>, n: nat)
    requires n <= |pages| && forall i :: n <= i < |pages| ==> pages[i].surface != MetadataSchemas
    ensures Prefixes(pages) == Prefixes(pages[..n])
    decreases |pages|
  {
    if n < |pages| {
      var front := pages[..|pages| - 1];
      PrefixesAreFirst(front, n);
      assert front[..n] == pages[..n];
    } else {
      assert pages[..n] == pages;
    }
  }

  lemma PrefixesNext(pages: seq<RawPage>, n: nat)
    requires n < |pages|
    ensures Prefixes(pages[..n + 1]) == Prefixes(pages[..n]) + PrefixesOn(pages[n])
  {
    assert pages[..n + 1][..n] == pages[..n];
  }

  /** Persisting a stored page again with the same payload, endpoint and parameters changes nothing. */
  lemma PersistAgain(w: World, page: RawPage, payload: Json, params: Params)
    requires Bookkeeping(w.run) && w.run.status == Running && page.pageNumber < Count(w.run.pages, page.surface)
    requires FindPage(w.run.pages, page.surface, page.pageNumber) == Some(page) && WellFormed(page)
    ensures PersistPage(w.run, page.surface, page.endpoint, page.pageNumber, params, payload).Ok? <==>
            payload == page.payload && params == page.params
    ensures payload == page.payload && params == page.params ==>
              PersistPage(w.run, page.surface, page.endpoint, page.pageNumber, params, payload) == Ok(w.run)
  {
    var run := w.run;
    var reached := CheckpointNextPage(run, page.surface);
    assert page.surface in run.checkpoints && reached == Count(run.pages, page.surface);
    assert run.checkpoints[page.surface := reached] == run.checkpoints;
  }

  function SchemaServed(w: World, n: nat, size: int): Option<HalPage>
    requires w.script != []
  {
    var hal := Served(w, SCHEMAS, n, size);
    if hal.Some? && SchemaPrefixes(hal.value.items).Some? then hal else None
  }

  lemma SchemaStepUnfolds(w: World, n: nat, size: int)
    requires w.script != []
    ensures var (step, found) := SchemaStep(w, size, n);
            match SchemaServed(w, n, size)
            case None =>
              && step.Stop? && Raised(step.outcome.exit)
              && step.outcome.world == Sent(w, PageRequest(SCHEMAS, n, size))
              && (step.outcome.exit.Errored? ==> w.script[0](PageRequest(SCHEMAS, n, size)) == Raise(OtherFault))
            case Some(hal) =>
              var out :=
                StorePage(Sent(w, PageRequest(SCHEMAS, n, size)), SCHEMAS, n, PageParams(n, size, None), hal.raw);
              && step == (if out.exit != Returned || hal.totalPages <= n + 1 then Stop(out) else More(out.world))
              && Some(found) == SchemaPrefixes(hal.items)
  {
  }

  lemma SchemaAnswer(pages: seq<RawPage>, n: nat, ok: Rule, args: Args)
    requires Trace(pages, ok) && AllUse(pages, args) && n < Count(pages, MetadataSchemas)
    ensures n < |pages| && ok(PageRequest(SCHEMAS, n, args.size), pages[n].payload) && WellFormed(pages[n])
    ensures pages[n].surface == MetadataSchemas && pages[n].pageNumber == n
  {
    SchemaPageAt(pages, ok, n);
    assert Uses(pages[n], args);
  }

  lemma SchemaRaisedIsStuck(w: World, n: nat, ok: Rule, args: Args)
    requires Sound(w, ok) && w.script != [] && n <= Count(w.run.pages, MetadataSchemas)
    requires n == Count(w.run.pages, MetadataSchemas) ==> !Done(w.run.pages, MetadataSchemas)
    requires SchemaServed(w, n, args.size).None?
    ensures Decides(w.script, ok) && AllUse(w.run.pages, args) ==> Stuck(w.run.pages, ok, args)
    ensures var q := PageRequest(SCHEMAS, n, args.size);
            Settles(w.script, ok) && !Excuses(w.script[0](q), q) && AllUse(w.run.pages, args) ==>
              Stuck(w.run.pages, ok, args)
  {
    var pages := w.run.pages;
    var q := PageRequest(SCHEMAS, n, args.size);
    var blamed := Decides(w.script, ok) || (Settles(w.script, ok) && !Excuses(w.script[0](q), q));
    if blamed && AllUse(pages, args) {
      if n < Count(pages, MetadataSchemas) {
        SchemaAnswer(pages, n, ok, args);
        assert false;
      } else {
        SchemasNext(pages);
        forall page | Fits(pages, page) && Uses(page, args) ensures !ok(RequestOf(page), page.payload) {
          assert RequestOf(page) == q;
          assert ok(q, page.payload) ==> Answers(w.script[0](q), q, page.payload);
        }
      }
    }
  }

  predicate SchemaAgrees(w: World, n: nat, size: int)
    requires w.script != [] && n < |w.run.pages| && SchemaServed(w, n, size).Some?
  {
    SchemaServed(w, n, size).value.raw == w.run.pages[n].payload && PageParams(n, size, None) == w.run.pages[n].params
  }

  /** Persisting the schema page that was served, when it is stored already. */
  lemma SchemaRestored(w: World, n: nat, ok: Rule, args: Args)
    requires Sound(w, ok) && w.script != [] && n < Count(w.run.pages, MetadataSchemas) <= |w.run.pages|
    requires SchemaServed(w, n, args.size).Some?
    ensures var q := PageRequest(SCHEMAS, n, args.size);
            var out := StorePage(Sent(w, q), SCHEMAS, n, q.params, SchemaServed(w, n, args.size).value.raw);
            out == Outcome(Sent(w, q), if SchemaAgrees(w, n, args.size) then Returned else Errored)
  {
    SchemaPageAt(w.run.pages, ok, n);
    SchemaPageFound(w.run.pages, ok, n);
    var q := PageRequest(SCHEMAS, n, args.size);
    PersistAgain(Sent(w, q), w.run.pages[n], SchemaServed(w, n, args.size).value.raw, q.params);
  }

  lemma SchemaPageTellsEarlier(pages: seq<RawPage>, n: nat, ok: Rule, size: int)
    requires Trace(pages, ok) && n + 1 < Count(pages, MetadataSchemas) <= |pages|
    ensures TotalPages(pages[n]) > n + 1 && Announced(PageRequest(SCHEMAS, n + 1, size), pages)
  {
    SchemaPageAt(pages, ok, n);
    SchemaPageFound(pages, ok, n);
    EarlierAnnounced(pages, ok, MetadataSchemas, n);
    SchemaPageReads(pages[n], pages, n, size);
  }

  lemma SchemaPageTellsLast(pages: seq<RawPage>, n: nat, ok: Rule, size: int)
    requires Trace(pages, ok) && n + 1 == Count(pages, MetadataSchemas) <= |pages|
    ensures if TotalPages(pages[n]) <= n + 1 then
              Done(pages, MetadataSchemas) && Prefixes(pages) == Prefixes(pages[..n + 1])
            else Announced(PageRequest(SCHEMAS, n + 1, size), pages)
  {
    SchemaPageAt(pages, ok, n);
    SchemaPageFound(pages, ok, n);
    SchemaPageReads(pages[n], pages, n, size);
    SchemasFirst(pages, ok);
    PrefixesAreFirst(pages, n + 1);
  }

  /** Once page `n` is stored, its own totals tell whether the listing ends with it. */
  lemma SchemaPageTells(pages: seq<RawPage>, n: nat, ok: Rule, size: int)
    requires Trace(pages, ok) && n < Count(pages, MetadataSchemas) <= |pages|
    ensures if TotalPages(pages[n]) <= n + 1 then
              Done(pages, MetadataSchemas) && Prefixes(pages) == Prefixes(pages[..n + 1])
            else Announced(PageRequest(SCHEMAS, n + 1, size), pages)
  {
    if n + 1 < Count(pages, MetadataSchemas) {
      SchemaPageTellsEarlier(pages, n, ok, size);
    } else {
      SchemaPageTellsLast(pages, n, ok, size);
    }
  }

  lemma SchemaPageReads(page: RawPage, pages: seq<RawPage>, n: nat, size: int)
    requires WellFormed(page) && page.surface == MetadataSchemas && page.pageNumber == n
    requires FindPage(pages, MetadataSchemas, n) == Some(page)
    ensures LastPageCloses(pages, MetadataSchemas, n + 1) <==> TotalPages(page) <= n + 1
    ensures Announced(PageRequest(SCHEMAS, n + 1, size), pages) <==> TotalPages(page) > n + 1
  {
  }

  /** The schema loop after page `n` is known to be stored in `w'`. */
  lemma SchemaTurnKeeps(w: World, w': World, n: nat, prefixes: seq<string>, ok: Rule, args: Args)
    requires AtSchemaPage(w, n, prefixes, ok, args)
    requires Advanced(w, w', ok, args) && Grown(w.run.pages, w'.run.pages, MetadataSchemas)
    requires |w.script| - |w'.script| == 1
    requires n < Count(w'.run.pages, MetadataSchemas) <= |w'.run.pages|
    requires |w'.run.pages| == if n < Count(w.run.pages, MetadataSchemas) then |w.run.pages| else |w.run.pages| + 1
    requires Uses(w'.run.pages[n], args) && Uses(w'.run.pages[0], args)
    ensures SchemaTurned(w, n, SchemaVerdict(w', w'.run.pages[n], n), prefixes, ok, args)
  {
    SchemaPageTells(w'.run.pages, n, ok, args.size);
    PrefixesNext(w'.run.pages, n);
    assert w'.run.pages[..n] == w.run.pages[..n];
    GrownCount(w.run.pages, w'.run.pages, MetadataSchemas);
  }

  lemma {:induction false} GrownCount(pages: seq<RawPage>, more: seq<RawPage>, surface: Surface)
    requires Grown(pages, more, surface)
    ensures Count(more, surface) == Count(pages, surface) + |more| - |pages|
    decreases |more|
  {
    if pages == more {
      assert pages == more;
    } else {
      GrownCount(pages, more[..|more| - 1], surface);
    }
  }

  /** How the schema loop goes on once `page` is stored as page `n`, and the prefixes it adds. */
  function SchemaVerdict(w: World, page: RawPage, n: nat): (Step, seq<string>) {
    (if TotalPages(page) <= n + 1 then Stop(Outcome(w, Returned)) else More(w), PrefixesOn(page))
  }

  lemma SchemaVerdictIsStep(w: World, w': World, n: nat, page: RawPage, size: int)
    requires w.script != [] && SchemaServed(w, n, size).Some? && page.payload == SchemaServed(w, n, size).value.raw
    requires page.surface == MetadataSchemas && page.pageNumber == n && WellFormed(page)
    requires StorePage(Sent(w, PageRequest(SCHEMAS, n, size)), SCHEMAS, n, PageParams(n, size, None), page.payload)
             == Outcome(w', Returned)
    ensures SchemaStep(w, size, n) == SchemaVerdict(w', page, n)
  {
  }

  lemma SchemaAgainAgrees(w: World, n: nat, prefixes: seq<string>, ok: Rule, args: Args)
    requires AtSchemaPage(w, n, prefixes, ok, args) && w.script != [] && n < Count(w.run.pages, MetadataSchemas)
    requires SchemaServed(w, n, args.size).Some? && SchemaAgrees(w, n, args.size)
    ensures SchemaTurned(w, n, SchemaStep(w, args.size, n), prefixes, ok, args)
  {
    var sent := Sent(w, PageRequest(SCHEMAS, n, args.size));
    AskKeeps(w, ok, args, PageRequest(SCHEMAS, n, args.size));
    SchemaRestored(w, n, ok, args);
    SchemaPageAt(w.run.pages, ok, n);
    SchemaTurnKeeps(w, sent, n, prefixes, ok, args);
    SchemaVerdictIsStep(w, sent, n, w.run.pages[n], args.size);
  }

  /** One turn of the schema loop. */
  ghost predicate SchemaTurned(
    w: World, n: nat, turn: (Step, seq<string>), prefixes: seq<string>, ok: Rule, args: Args)
  {
    match turn.0
    case Stop(out) => SchemasKept(w, n, out, prefixes + turn.1, ok, args)
    case More(w') =>
      && AtSchemaPage(w', n + 1, prefixes + turn.1, ok, args)
      && Advanced(w, w', ok, args)
      && Grown(w.run.pages, w'.run.pages, MetadataSchemas)
      && |w.script| - |w'.script| == 1
      && |w'.run.pages| - Count(w'.run.pages, MetadataSchemas) == |w.run.pages| - Count(w.run.pages, MetadataSchemas)
  }

  lemma SchemaAgainConflicts(w: World, n: nat, prefixes: seq<string>, ok: Rule, args: Args)
    requires AtSchemaPage(w, n, prefixes, ok, args) && w.script != [] && n < Count(w.run.pages, MetadataSchemas)
    requires SchemaServed(w, n, args.size).Some? && !SchemaAgrees(w, n, args.size)
    ensures var (step, found) := SchemaStep(w, args.size, n);
            SchemaTurned(w, n, (step, found), prefixes, ok, args)
  {
    AskKeeps(w, ok, args, PageRequest(SCHEMAS, n, args.size));
    SchemaStepUnfolds(w, n, args.size);
    SchemaRestored(w, n, ok, args);
    SchemaConflict(w, n, ok, args);
  }

  /** A stored schema page whose payload or parameters differ now is never what these turns decide. */
  lemma SchemaConflict(w: World, n: nat, ok: Rule, args: Args)
    requires Sound(w, ok) && w.script != [] && n < Count(w.run.pages, MetadataSchemas)
    requires SchemaServed(w, n, args.size).Some?
    requires n < |w.run.pages| && !SchemaAgrees(w, n, args.size)
    ensures !(Settles(w.script, ok) && AllUse(w.run.pages, args))
  {
    var q := PageRequest(SCHEMAS, n, args.size);
    var page := w.run.pages[n];
    SchemaPageAt(w.run.pages, ok, n);
    if AllUse(w.run.pages, args) {
      assert Uses(page, args);
    }
  }

  lemma SchemaFits(w: World, n: nat, ok: Rule, args: Args)
    requires Sound(w, ok) && Conforms(w.script, ok) && w.script != []
    requires n == Count(w.run.pages, MetadataSchemas) && !Done(w.run.pages, MetadataSchemas)
    requires SchemaServed(w, n, args.size).Some?
    ensures var page := PageFor(SCHEMAS, n, args.size, SchemaServed(w, n, args.size).value.raw);
            Fits(w.run.pages, page) && ok(RequestOf(page), page.payload)
  {
  }

  /** The schema page that was served is stored as page `n`. */
  lemma SchemaStored(w: World, n: nat, prefixes: seq<string>, ok: Rule, args: Args)
    requires AtSchemaPage(w, n, prefixes, ok, args) && Conforms(w.script, ok) && w.script != []
    requires n == Count(w.run.pages, MetadataSchemas) && !Done(w.run.pages, MetadataSchemas)
    requires SchemaServed(w, n, args.size).Some?
    ensures var q := PageRequest(SCHEMAS, n, args.size);
            var page := PageFor(SCHEMAS, n, args.size, SchemaServed(w, n, args.size).value.raw);
            var out := StorePage(Sent(w, q), SCHEMAS, n, q.params, page.payload);
            && out.exit == Returned
            && out.world.run.pages == w.run.pages + [page]
            && |w.run.pages| == n
            && out.world.script == w.script[1..]
            && Advanced(w, out.world, ok, args)
  {
    var q := PageRequest(SCHEMAS, n, args.size);
    var page := PageFor(SCHEMAS, n, args.size, SchemaServed(w, n, args.size).value.raw);
    AskKeeps(w, ok, args, q);
    SchemasFirst(w.run.pages, ok);
    SchemaFits(w, n, ok, args);
    StoreKeeps(Sent(w, q), ok, args, SCHEMAS, page);
    AdvancedTransitive(w, Sent(w, q), StorePage(Sent(w, q), SCHEMAS, n, q.params, page.payload).world, ok, args);
  }

  /** One turn of the schema loop for a page that is not stored yet. */
  lemma SchemaFresh(w: World, n: nat, prefixes: seq<string>, ok: Rule, args: Args)
    requires AtSchemaPage(w, n, prefixes, ok, args) && Conforms(w.script, ok) && w.script != []
    requires n == Count(w.run.pages, MetadataSchemas) && !Done(w.run.pages, MetadataSchemas)
    requires SchemaServed(w, n, args.size).Some?
    ensures SchemaTurned(w, n, SchemaStep(w, args.size, n), prefixes, ok, args)
  {
    var page := PageFor(SCHEMAS, n, args.size, SchemaServed(w, n, args.size).value.raw);
    SchemaStored(w, n, prefixes, ok, args);
    var w' := StorePage(Sent(w, PageRequest(SCHEMAS, n, args.size)), SCHEMAS, n, page.params, page.payload).world;
    FindAppend(w.run.pages, page, MetadataSchemas, n);
    SchemaTurnKeeps(w, w', n, prefixes, ok, args);
    SchemaVerdictIsStep(w, w', n, page, args.size);
  }

  /** Before page `n` is asked for, either it is stored or the listing is still open. */
  lemma SchemaOpen(w: World, n: nat, prefixes: seq<string>, ok: Rule, args: Args)
    requires AtSchemaPage(w, n, prefixes, ok, args)
    ensures n == Count(w.run.pages, MetadataSchemas) ==> !Done(w.run.pages, MetadataSchemas)
  {
  }

  lemma SchemaTurn(w: World, n: nat, prefixes: seq<string>, ok: Rule, args: Args)
    requires AtSchemaPage(w, n, prefixes, ok, args) && Conforms(w.script, ok)
    ensures SchemaTurned(w, n, SchemaStep(w, args.size, n), prefixes, ok, args)
  {
    SchemaOpen(w, n, prefixes, ok, args);
    if w.script == [] {
    } else if SchemaServed(w, n, args.size).None? {
      AskKeeps(w, ok, args, PageRequest(SCHEMAS, n, args.size));
      SchemaStepUnfolds(w, n, args.size);
      SchemaRaisedIsStuck(w, n, ok, args);
    } else if n == Count(w.run.pages, MetadataSchemas) {
      SchemaFresh(w, n, prefixes, ok, args);
    } else if SchemaAgrees(w, n, args.size) {
      SchemaAgainAgrees(w, n, prefixes, ok, args);
    } else {
      SchemaAgainConflicts(w, n, prefixes, ok, args);
    }
  }

  /** The loop keeps what its turns keep. */
  lemma SchemasThen(
    w: World, n: nat, w': World, out: Outcome, prefixes: seq<string>, more: seq<string>, found: seq<string>, ok: Rule,
    args: Args)
    requires AtSchemaPage(w, n, prefixes, ok, args)
    requires SchemaTurned(w, n, (More(w'), more), prefixes, ok, args)
    requires SchemasKept(w', n + 1, out, found, ok, args)
    ensures SchemasKept(w, n, out, found, ok, args)
  {
    AdvancedTransitive(w, w', out.world, ok, args);
  }

  lemma SchemasUnfold(w: World, size: int, n: nat, prefixes: seq<string>)
    ensures var (step, found) := SchemaStep(w, size, n);
            CollectSchemas(w, size, n, prefixes) == match step
              case Stop(outcome) => (outcome, prefixes + found)
              case More(w') => CollectSchemas(w', size, n + 1, prefixes + found)
  {
  }

  lemma {:induction false} CollectSchemasKeeps(w: World, n: nat, prefixes: seq<string>, ok: Rule, args: Args)
    requires AtSchemaPage(w, n, prefixes, ok, args) && Conforms(w.script, ok)
    ensures var (out, found) := CollectSchemas(w, args.size, n, prefixes);
            SchemasKept(w, n, out, found, ok, args)
    decreases |w.script|
  {
    SchemaTurn(w, n, prefixes, ok, args);
    SchemasUnfold(w, args.size, n, prefixes);
    var (step, more) := SchemaStep(w, args.size, n);
    if step.More? {
      ScriptSuffix(w.script, 1, ok);
      CollectSchemasKeeps(step.world, n + 1, prefixes + more, ok, args);
      var (out, found) := CollectSchemas(step.world, args.size, n + 1, prefixes + more);
      SchemasThen(w, n, step.world, out, prefixes, more, found, ok, args);
    }
  }
}
