/**
  From collection to resolution: a run that completes against a server that answers 204 for its active
  sections stores the very record that a resolution asks for.
 */
module ContractObservation {
  import opened JsonValues
  import opened ContractStore
  import opened ContractClient
  import opened ContractSync
  import opened ContractEvidence
  import opened ContractResume
  import opened ContractHistory
  import ContractDecisions

  /** The server has no content for the active sections, however they are asked for. */
  ghost predicate AnswersNoContent(server: Turn) {
    forall q: Request :: q.surface == ActiveSections ==> server(q) == Raise(DSpaceFault(Some(204)))
  }

  /** Every stored page of the sections is the observation, and thus page 0. */
  lemma SectionsAreObserved(pages: seq<RawPage>, server: Turn, i: nat)
    requires Trace(pages, FromServer(server)) && AnswersNoContent(server)
    requires i < |pages| && pages[i].surface == ActiveSections
    ensures pages[i].payload == OBSERVATION_204 && Count(pages[..i], ActiveSections) == 0
  {
    assert StoredAt(pages, FromServer(server), i);
    assert Answers(server(RequestOf(pages[i])), RequestOf(pages[i]), pages[i].payload);
    ObservationIsPageZero();
  }

  lemma {:induction false} CountedIsThere(pages: seq<RawPage>, surface: Surface)
    ensures Count(pages, surface) > 0 <==> exists i :: 0 <= i < |pages| && pages[i].surface == surface
  {
    if pages != [] {
      CountedIsThere(pages[..|pages| - 1], surface);
    }
  }

  lemma NoneEarlier(pages: seq<RawPage>, i: nat, j: nat)
    requires j < i < |pages| && Count(pages[..i], ActiveSections) == 0
    ensures pages[j].surface != ActiveSections
  {
    CountedIsThere(pages[..i], ActiveSections);
    assert pages[..i][j] == pages[j];
  }

  lemma OneObservation(pages: seq<RawPage>, server: Turn, i: nat)
    requires Trace(pages, FromServer(server)) && AnswersNoContent(server)
    requires i < |pages| && pages[i].surface == ActiveSections
    ensures forall j :: 0 <= j < |pages| ==> (pages[j].surface == ActiveSections <==> j == i)
  {
    forall j | 0 <= j < |pages| && pages[j].surface == ActiveSections ensures j == i {
      if j < i {
        SectionsAreObserved(pages, server, i);
        NoneEarlier(pages, i, j);
      } else if i < j {
        SectionsAreObserved(pages, server, j);
        NoneEarlier(pages, j, i);
      }
    }
  }

  lemma SectionsDone(pages: seq<RawPage>)
    requires NextTarget(pages) == None
    ensures Count(pages, ActiveSections) > 0
  {
    var b := |BeforeGlobals(pages)|;
    PlanParts(pages, b);
    FirstUndoneNone(Plan(pages), pages);
    assert Done(pages, Plan(pages)[b + 4].surface);
  }

  lemma ObservationReads()
    ensures Get(Get(OBSERVATION_204, "_observation"), "observable") == Bool(false)
    ensures Get(Get(OBSERVATION_204, "_observation"), "statusCode") == Num(204)
  {
  }

  /** Whatever interruptions its history had, a completed run against such a server can be resolved. */
  lemma NoContentIsRecorded(server: Turn, args: Args, history: seq<Attempt>)
    requires Against(history, server, args) && Replay(NEW_RUN, history).status == Complete && AnswersNoContent(server)
    ensures ContractDecisions.RecordsNoContent(Replay(NEW_RUN, history))
  {
    var run := Replay(NEW_RUN, history);
    NewRunIsEvidence(FromServer(server));
    ReplayKeeps(NEW_RUN, history, server, args);
    SectionsDone(run.pages);
    CountedIsThere(run.pages, ActiveSections);
    var i: nat :| i < |run.pages| && run.pages[i].surface == ActiveSections;
    SectionsAreObserved(run.pages, server, i);
    OneObservation(run.pages, server, i);
    ObservationReads();
    assert ContractDecisions.OnlySectionsPage(run, i);
  }
}
