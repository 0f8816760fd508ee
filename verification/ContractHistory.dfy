/**
  Whole histories of attempts.

  Against any server, what is stored is evidence that is never altered, and a COMPLETE run proves every
  surface of its plan with one page size.  Against a server that answers the same question the same way,
  interruptions do not matter: every history walks the same list of pages, and one that completes ends
  in the very run an undisturbed attempt produces.
 */
module ContractHistory {
  import opened JsonValues
  import opened Ordering
  import opened ContractStore
  import opened ContractClient
  import opened ContractSync
  import opened ContractEvidence
  import opened ContractResume
  import opened ContractAttempt

  function ArgsOf(attempt: Attempt): Args {
    Args(attempt.uuid, attempt.size)
  }

  /** Every paged request stored in the run used the page size of the first one. */
  predicate OnePageSize(pages: seq<RawPage>) {
    forall i :: 0 <= i < |pages| ==>
      (pages[i].params.PageParams? ==> pages[0].params.PageParams? && pages[i].params.size == pages[0].params.size)
  }

  ghost predicate Evidence(run: Run, ok: Rule) {
    Trace(run.pages, ok) && Bookkeeping(run) && OnePageSize(run.pages)
  }

  /** Nothing is left to collect, and every page was asked for with these arguments. */
  ghost predicate Finished(run: Run, args: Args) {
    NextTarget(run.pages) == None && AllUse(run.pages, args)
  }

  lemma NewRunIsEvidence(ok: Rule)
    ensures Evidence(NEW_RUN, ok)
  {
    assert NEW_RUN.pages == [];
    forall s ensures Count(NEW_RUN.pages, s) == 0 && CheckpointNextPage(NEW_RUN, s) == 0 {
    }
  }

  lemma StartedIsSound(run: Run, attempt: Attempt, ok: Rule)
    requires Evidence(run, ok)
    ensures Sound(World(run.(status := Running), [], attempt.script), ok)
  {
    var started := run.(status := Running);
    assert forall s :: CheckpointNextPage(started, s) == CheckpointNextPage(run, s);
  }

  lemma FirstPageIsPaged(pages: seq<RawPage>, ok: Rule)
    requires Trace(pages, ok) && pages != []
    ensures pages[0].params.PageParams?
  {
    assert StoredAt(pages, ok, 0);
    assert pages[..0] == [];
    SchemasNext(pages[..0]);
  }

  lemma OnePageSizeKept(pages: seq<RawPage>, more: seq<RawPage>, ok: Rule, args: Args)
    requires OnePageSize(pages) && Trace(more, ok) && pages <= more
    requires forall i :: |pages| <= i < |more| ==> Uses(more[i], args)
    requires |more| > |pages| ==> Uses(more[0], args)
    ensures OnePageSize(more)
  {
    if more != [] {
      FirstPageIsPaged(more, ok);
    }
    forall i | 0 <= i < |more| && more[i].params.PageParams? ensures more[i].params.size == more[0].params.size {
      if i < |pages| {
        assert more[i] == pages[i];
      }
    }
  }

  /** The stored definition is the only page that carries a collection. */
  lemma DefinitionIsUnique(pages: seq<RawPage>, ok: Rule, i: nat)
    requires Trace(pages, ok) && i < |pages| && pages[i].params.CollectionParams?
    ensures FindPage(pages, ActiveDefinition, 0) == Some(pages[i])
  {
    assert StoredAt(pages, ok, i);
    CollectionIsDefinition(pages[..i], pages[i]);
    FitsDefinition(pages[..i], pages[i]);
    StoredIsFound(pages, ok, i);
  }

  lemma CollectionIsDefinition(pages: seq<RawPage>, page: RawPage)
    requires Fits(pages, page) && page.params.CollectionParams?
    ensures page.surface == ActiveDefinition
  {
  }

  lemma CompleteUsesItsArguments(pages: seq<RawPage>, ok: Rule, args: Args)
    requires Trace(pages, ok) && OnePageSize(pages) && pages != [] && Uses(pages[0], args)
    requires FindPage(pages, ActiveDefinition, 0).Some? && Uses(FindPage(pages, ActiveDefinition, 0).value, args)
    ensures AllUse(pages, args)
  {
    FirstPageIsPaged(pages, ok);
    forall i | 0 <= i < |pages| ensures Uses(pages[i], args) {
      if pages[i].params.CollectionParams? {
        DefinitionIsUnique(pages, ok, i);
      }
    }
  }

  /**
    One attempt, from any state an earlier one left, against any server.  Stored pages stay; a run that
    ends COMPLETE has nothing left to collect and used one page size and the collection of this attempt.
   */
  lemma AttemptKeepsEvidence(run: Run, attempt: Attempt, ok: Rule)
    requires Evidence(run, ok) && Resumable(run.status) && Conforms(attempt.script, ok)
    ensures var after := Resume(run, attempt);
            && Evidence(after, ok)
            && run.pages <= after.pages
            && run.hashes <= after.hashes
            && (forall i :: |run.pages| <= i < |after.pages| ==> Uses(after.pages[i], ArgsOf(attempt)))
            && (after.status == Complete ==> Finished(after, ArgsOf(attempt)))
  {
    StartedIsSound(run, attempt, ok);
    var w := World(run.(status := Running), [], attempt.script);
    CollectEverythingKeeps(w, ok, ArgsOf(attempt));
    var out := CollectEverything(w, attempt.uuid, attempt.size);
    OnePageSizeKept(run.pages, out.world.run.pages, ok, ArgsOf(attempt));
    var after := Resume(run, attempt);
    assert forall s :: CheckpointNextPage(after, s) == CheckpointNextPage(out.world.run, s);
    if out.exit == Returned {
      CompleteUsesItsArguments(after.pages, ok, ArgsOf(attempt));
    }
    assert run.hashes == after.hashes[..|run.hashes|];
  }

  /** No attempt asks for a page past the first unless the stored page before it announced one. */
  lemma RequestsAreAnnounced(run: Run, attempt: Attempt, ok: Rule)
    requires Evidence(run, ok) && Resumable(run.status) && Conforms(attempt.script, ok)
    ensures var out := CollectRun(run, [], attempt);
            forall i :: 0 <= i < |out.world.asked| ==> Announced(out.world.asked[i], out.world.run.pages)
  {
    StartedIsSound(run, attempt, ok);
    CollectEverythingKeeps(World(run.(status := Running), [], attempt.script), ok, ArgsOf(attempt));
  }

  /** In any plan, the sections surface is the last one, and names the stored definition. */
  lemma PlannedSections(pages: seq<RawPage>, k: nat)
    requires k < |Plan(pages)| && Plan(pages)[k].surface == ActiveSections
    ensures k == |Plan(pages)| - 1 && Plan(pages)[k] == Sections(DefinitionName(pages))
  {
    var b := |BeforeGlobals(pages)|;
    PlanParts(pages, b);
    NoSectionsBeforeGlobals(pages);
    assert forall j :: 0 <= j < b ==> Plan(pages)[j] == BeforeGlobals(pages)[j];
    assert forall i :: 0 <= i < 3 ==> GLOBALS[i].surface != ActiveSections;
  }

  lemma NoSectionsBeforeGlobals(pages: seq<RawPage>)
    ensures forall j :: 0 <= j < |BeforeGlobals(pages)| ==> BeforeGlobals(pages)[j].surface != ActiveSections
  {
    var bySchemas := BySchemas(SortedSet(Prefixes(pages)));
    forall j | 0 <= j < |BeforeGlobals(pages)| ensures BeforeGlobals(pages)[j].surface != ActiveSections {
      assert j >= 2 ==> BeforeGlobals(pages)[j] == bySchemas[j - 2];
    }
  }

  /** When a page of the sections may come next, the definition is stored. */
  lemma SectionsAfterDefinition(pages: seq<RawPage>, page: RawPage)
    requires Fits(pages, page) && page.surface == ActiveSections
    ensures page.endpoint == Sections(DefinitionName(pages)).endpoint && Count(pages, ActiveDefinition) > 0
  {
    var plan, b := Plan(pages), |BeforeGlobals(pages)|;
    var k := FirstUndoneSplits(plan, pages);
    PlannedSections(pages, k);
    PlanParts(pages, b);
    assert plan[..k][b + 3] == DEFINITION;
  }

  /** Every stored page of the sections was asked for under the name of the stored definition. */
  lemma SectionsNameTheDefinition(pages: seq<RawPage>, ok: Rule, i: nat)
    requires Trace(pages, ok) && i < |pages| && pages[i].surface == ActiveSections
    ensures pages[i].endpoint == Sections(DefinitionName(pages)).endpoint
  {
    assert StoredAt(pages, ok, i);
    SectionsAfterDefinition(pages[..i], pages[i]);
    TracePrefix(pages[..i], pages, ok);
    FindDense(pages[..i], ok, ActiveDefinition, 0);
    FindStable(pages[..i], pages, ok, ActiveDefinition, 0);
  }

  /**
    A COMPLETE run has one provenance, even against an adversarial server and with arguments that changed
    between attempts: one page size, the last attempt's collection, and the sections of its definition.
   */
  lemma CompleteProvenanceIsUniform(run: Run, ok: Rule, args: Args)
    requires Evidence(run, ok) && Finished(run, args)
    ensures forall i ::
            0 <= i < |run.pages| && run.pages[i].params.PageParams? ==> run.pages[i].params.size == args.size
    ensures forall i ::
            0 <= i < |run.pages| && run.pages[i].surface == ActiveDefinition ==>
              run.pages[i].params == CollectionParams(args.uuid)
    ensures forall i :: 0 <= i < |run.pages| && run.pages[i].surface == ActiveSections ==>
              run.pages[i].endpoint == Sections(DefinitionName(run.pages)).endpoint
  {
    forall i | 0 <= i < |run.pages|
      ensures Uses(run.pages[i], args)
      ensures run.pages[i].surface == ActiveDefinition ==> run.pages[i].params == CollectionParams(args.uuid)
      ensures run.pages[i].surface == ActiveSections ==>
              run.pages[i].endpoint == Sections(DefinitionName(run.pages)).endpoint
    {
      assert StoredAt(run.pages, ok, i);
      if run.pages[i].surface == ActiveSections {
        SectionsNameTheDefinition(run.pages, ok, i);
      }
    }
  }

  // The table of runs

  ghost const ANY: Rule := (q: Request, payload: Json) => true

  lemma AnythingConforms(script: seq<Turn>)
    ensures Conforms(script, ANY)
  {
  }

  /** At most the newest run can still be resumed, and every run is evidence. */
  ghost predicate ValidTable(runs: seq<Run>) {
    && (forall i :: 0 <= i < |runs| ==> Evidence(runs[i], ANY))
    && (forall i :: 0 <= i < |runs| - 1 ==> !Resumable(runs[i].status))
    && (forall i :: 0 <= i < |runs| && runs[i].status == Complete ==> NextTarget(runs[i].pages) == None)
  }

  lemma {:induction false} ResumableIsNewest(runs: seq<Run>)
    ensures match FindResumableRun(runs)
            case None => forall i :: 0 <= i < |runs| ==> !Resumable(runs[i].status)
            case Some(i) =>
              i < |runs| && Resumable(runs[i].status) && forall j :: i < j < |runs| ==> !Resumable(runs[j].status)
  {
    if runs != [] && !Resumable(runs[|runs| - 1].status) {
      ResumableIsNewest(runs[..|runs| - 1]);
    }
  }

  /**
    The table after one more call, against any server: a run that ended is never touched again, stored
    pages are never altered, and a COMPLETE run has collected its whole plan with one page size.
   */
  lemma TableStep(runs: seq<Run>, attempt: Attempt)
    requires ValidTable(runs)
    ensures var after := CollectContractRun(runs, attempt);
            && ValidTable(after)
            && |runs| <= |after| <= |runs| + 1
            && (forall i :: 0 <= i < |runs| ==> runs[i].pages <= after[i].pages && runs[i].hashes <= after[i].hashes)
            && (forall i :: 0 <= i < |runs| && !Resumable(runs[i].status) ==> after[i] == runs[i])
            && forall i ::
               0 <= i < |after| && after[i].status == Complete && (i < |runs| ==> runs[i].status != Complete) ==>
                 AllUse(after[i].pages, ArgsOf(attempt))
  {
    AnythingConforms(attempt.script);
    ResumableIsNewest(runs);
    match FindResumableRun(runs)
    case Some(i) => AttemptKeepsEvidence(runs[i], attempt, ANY);
    case None =>
      NewRunIsEvidence(ANY);
      AttemptKeepsEvidence(NEW_RUN, attempt, ANY);
  }

  function RunAll(runs: seq<Run>, attempts: seq<Attempt>): seq<Run>
    decreases |attempts|
  {
    if attempts == [] then runs else RunAll(CollectContractRun(runs, attempts[0]), attempts[1..])
  }

  /** Over every history: the table stays valid, and whatever ended stays exactly as it ended. */
  lemma {:induction false} TableForever(runs: seq<Run>, attempts: seq<Attempt>)
    requires ValidTable(runs)
    ensures ValidTable(RunAll(runs, attempts))
    ensures |runs| <= |RunAll(runs, attempts)|
    ensures forall i :: 0 <= i < |runs| ==> runs[i].pages <= RunAll(runs, attempts)[i].pages
    ensures forall i :: 0 <= i < |runs| && !Resumable(runs[i].status) ==> RunAll(runs, attempts)[i] == runs[i]
    decreases |attempts|
  {
    if attempts != [] {
      TableStep(runs, attempts[0]);
      TableForever(CollectContractRun(runs, attempts[0]), attempts[1..]);
    }
  }

  // One server that always answers a request the same way

  /** What storing the server's answer to `q` stores. */
  function FromServer(server: Turn): Rule {
    (q: Request, payload: Json) => Answers(server(q), q, payload)
  }

  /** Each turn is the server's answer or an error; for the active sections, where it would be recorded, not a 204. */
  ghost predicate FaultyScript(script: seq<Turn>, server: Turn) {
    forall i, q :: 0 <= i < |script| ==>
      script[i](q) == server(q)
      || (script[i](q).Raise? && (q.surface == ActiveSections ==> script[i](q).fault != DSpaceFault(Some(204))))
  }

  ghost predicate Against(attempts: seq<Attempt>, server: Turn, args: Args) {
    forall i :: 0 <= i < |attempts| ==> ArgsOf(attempts[i]) == args && FaultyScript(attempts[i].script, server)
  }

  /** A run through a history of attempts; a run that ended is left alone. */
  function Replay(run: Run, attempts: seq<Attempt>): Run
    decreases |attempts|
  {
    if attempts == [] || !Resumable(run.status) then run else Replay(Resume(run, attempts[0]), attempts[1..])
  }

  lemma FaultyConforms(script: seq<Turn>, server: Turn)
    requires FaultyScript(script, server)
    ensures Conforms(script, FromServer(server))
  {
    forall i, q | 0 <= i < |script| ensures Allows(FromServer(server), q, script[i](q)) {
      assert script[i](q) == server(q) || script[i](q).Raise?;
    }
  }

  lemma {:induction false} ReplayKeeps(run: Run, attempts: seq<Attempt>, server: Turn, args: Args)
    requires Evidence(run, FromServer(server)) && AllUse(run.pages, args) && Against(attempts, server, args)
    requires run.status == Complete ==> NextTarget(run.pages) == None
    ensures var after := Replay(run, attempts);
            && Evidence(after, FromServer(server))
            && AllUse(after.pages, args)
            && (after.status == Complete ==> NextTarget(after.pages) == None)
    decreases |attempts|
  {
    if attempts != [] && Resumable(run.status) {
      FaultyConforms(attempts[0].script, server);
      AttemptKeepsEvidence(run, attempts[0], FromServer(server));
      ReplayKeeps(Resume(run, attempts[0]), attempts[1..], server, args);
    }
  }

  /** Given what is stored, the server leaves only one page that can be stored next. */
  lemma NextPageIsUnique(pages: seq<RawPage>, a: RawPage, b: RawPage, server: Turn, args: Args)
    requires Fits(pages, a) && Fits(pages, b) && Uses(a, args) && Uses(b, args)
    requires Answers(server(RequestOf(a)), RequestOf(a), a.payload)
             && Answers(server(RequestOf(b)), RequestOf(b), b.payload)
    ensures a == b
  {
    assert RequestOf(a) == RequestOf(b);
  }

  /** All traces against one server lie along one line. */
  lemma {:induction false} TracesAreComparable(a: seq<RawPage>, b: seq<RawPage>, server: Turn, args: Args)
    requires Trace(a, FromServer(server)) && Trace(b, FromServer(server)) && AllUse(a, args) && AllUse(b, args)
    requires |a| <= |b|
    ensures a <= b
    decreases |a|
  {
    if a != [] {
      var front := a[..|a| - 1];
      TraceLast(a, FromServer(server));
      TracesAreComparable(front, b, server, args);
      NextFits(front, b, FromServer(server));
      NextPageIsUnique(front, a[|front|], b[|front|], server, args);
      assert a == front + [a[|front|]];
    }
  }

  lemma NothingFollowsFinished(a: seq<RawPage>, b: seq<RawPage>, server: Turn, args: Args)
    requires Trace(a, FromServer(server)) && Trace(b, FromServer(server)) && AllUse(a, args) && AllUse(b, args)
    requires NextTarget(a) == None
    ensures b <= a
  {
    if |b| <= |a| {
      TracesAreComparable(b, a, server, args);
    } else {
      TracesAreComparable(a, b, server, args);
      NextFits(a, b, FromServer(server));
    }
  }

  lemma NextFits(pages: seq<RawPage>, more: seq<RawPage>, ok: Rule)
    requires Trace(more, ok) && pages < more
    ensures Fits(pages, more[|pages|]) && ok(RequestOf(more[|pages|]), more[|pages|].payload)
  {
    assert StoredAt(more, ok, |pages|);
    assert more[..|pages|] == pages;
  }

  lemma PagesDetermineRun(a: Run, b: Run)
    requires Bookkeeping(a) && Bookkeeping(b) && a.pages == b.pages && a.status == b.status
    ensures a == b
  {
    forall s ensures s in a.checkpoints <==> s in b.checkpoints
             ensures s in a.checkpoints ==> a.checkpoints[s] == b.checkpoints[s]
    {
      assert CheckpointNextPage(a, s) == CheckpointNextPage(b, s);
    }
    assert a.checkpoints == b.checkpoints;
    assert a.hashes == b.hashes;
  }

  /**
    Kills and errors between commits do not show: two histories against the same server store pages of
    one and the same list, and if both complete they end in the same run, hash list and checkpoints
    included.
   */
  lemma InterruptionsDoNotShow(server: Turn, args: Args, one: seq<Attempt>, other: seq<Attempt>)
    requires Against(one, server, args) && Against(other, server, args)
    ensures var a, b := Replay(NEW_RUN, one), Replay(NEW_RUN, other);
            && (a.pages <= b.pages || b.pages <= a.pages)
            && (a.status == Complete ==> b.pages <= a.pages)
            && (a.status == Complete && b.status == Complete ==> a == b)
  {
    NewRunIsEvidence(FromServer(server));
    ReplayKeeps(NEW_RUN, one, server, args);
    ReplayKeeps(NEW_RUN, other, server, args);
    var a, b := Replay(NEW_RUN, one), Replay(NEW_RUN, other);
    if |a.pages| <= |b.pages| {
      TracesAreComparable(a.pages, b.pages, server, args);
    } else {
      TracesAreComparable(b.pages, a.pages, server, args);
    }
    if a.status == Complete {
      NothingFollowsFinished(a.pages, b.pages, server, args);
    }
    if a.status == Complete && b.status == Complete {
      NothingFollowsFinished(b.pages, a.pages, server, args);
      PagesDetermineRun(a, b);
    }
  }

  /** An attempt nothing disturbs. */
  function Undisturbed(server: Turn, args: Args, turns: nat): Attempt {
    Attempt(args.uuid, args.size, seq(turns, i => server), true)
  }

  lemma UndisturbedDecides(server: Turn, args: Args, turns: nat)
    ensures var script := Undisturbed(server, args, turns).script;
            FaultyScript(script, server) && Decides(script, FromServer(server))
  {
  }

  /** An undisturbed attempt neither raises nor runs out of turns when the collection can finish. */
  lemma UndisturbedReturns(run: Run, goal: seq<RawPage>, server: Turn, args: Args, turns: nat)
    requires Evidence(run, FromServer(server)) && AllUse(run.pages, args) && Resumable(run.status)
    requires Trace(goal, FromServer(server)) && AllUse(goal, args) && NextTarget(goal) == None
    requires turns >= |goal| + 2
    ensures Resume(run, Undisturbed(server, args, turns)).status == Complete
  {
    var ok := FromServer(server);
    var attempt := Undisturbed(server, args, turns);
    UndisturbedDecides(server, args, turns);
    FaultyConforms(attempt.script, server);
    StartedIsSound(run, attempt, ok);
    var w := World(run.(status := Running), [], attempt.script);
    CollectEverythingKeeps(w, ok, args);
    var out := CollectEverything(w, args.uuid, args.size);
    var pages := out.world.run.pages;
    assert AllUse(pages, args);
    NothingFollowsFinished(goal, pages, server, args);
    if Raised(out.exit) {
      NeverStuck(pages, goal, ok, args);
      assert false;
    }
  }

  /** As long as the goal is ahead, its next page can be stored. */
  lemma NeverStuck(pages: seq<RawPage>, goal: seq<RawPage>, ok: Rule, args: Args)
    requires pages <= goal && Trace(goal, ok) && AllUse(goal, args) && NextTarget(goal) == None
    ensures !Stuck(pages, ok, args)
  {
    if |pages| < |goal| {
      NextFits(pages, goal, ok);
      assert Uses(goal[|pages|], args);
    } else {
      assert pages == goal;
    }
  }

  /**
    Resumption refines one-shot collection: whenever some interrupted history completes, a single
    undisturbed attempt, from scratch or from whatever any other history left behind, completes with the
    very same run.
   */
  lemma OneShotCompletesTheSame(server: Turn, args: Args, history: seq<Attempt>, left: seq<Attempt>, turns: nat)
    requires Against(history, server, args) && Against(left, server, args)
    requires Replay(NEW_RUN, history).status == Complete && turns >= |Replay(NEW_RUN, history).pages| + 2
    requires Resumable(Replay(NEW_RUN, left).status)
    ensures Resume(Replay(NEW_RUN, left), Undisturbed(server, args, turns)) == Replay(NEW_RUN, history)
  {
    var attempt := Undisturbed(server, args, turns);
    NewRunIsEvidence(FromServer(server));
    ReplayKeeps(NEW_RUN, history, server, args);
    ReplayKeeps(NEW_RUN, left, server, args);
    UndisturbedDecides(server, args, turns);
    var run, goal := Replay(NEW_RUN, left), Replay(NEW_RUN, history);
    UndisturbedReturns(run, goal.pages, server, args, turns);
    FaultyConforms(attempt.script, server);
    AttemptKeepsEvidence(run, attempt, FromServer(server));
    var after := Resume(run, attempt);
    NothingFollowsFinished(goal.pages, after.pages, server, args);
    NothingFollowsFinished(after.pages, goal.pages, server, args);
    PagesDetermineRun(after, goal);
  }
}
