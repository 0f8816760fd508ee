/**
  What errors do to a run.  As long as the server's errors are passing ones and the collection can be
  finished, no error ever costs the run: it is taken up again, and ends as if nothing had happened.
 */
module ContractResumption {
  import opened JsonValues
  import opened ContractStore
  import opened ContractClient
  import opened ContractSync
  import opened ContractEvidence
  import opened ContractResume
  import opened ContractAttempt
  import opened ContractHistory

  /** Errors are the repository's own, or kills; nothing fails inside the collector. */
  ghost predicate OnlyPassingErrors(script: seq<Turn>) {
    forall i, q :: 0 <= i < |script| ==> script[i](q) != Raise(OtherFault)
  }

  ghost predicate AllPassing(attempts: seq<Attempt>) {
    forall i :: 0 <= i < |attempts| ==> OnlyPassingErrors(attempts[i].script)
  }

  /** A complete collection of the server's answers. */
  ghost predicate Goal(goal: seq<RawPage>, server: Turn, args: Args) {
    Trace(goal, FromServer(server)) && AllUse(goal, args) && NextTarget(goal) == None
  }

  lemma FaultySettles(script: seq<Turn>, server: Turn)
    requires FaultyScript(script, server) && OnlyPassingErrors(script)
    ensures Settles(script, FromServer(server))
  {
    var ok := FromServer(server);
    forall i, q, payload | 0 <= i < |script| && ok(q, payload)
      ensures Answers(script[i](q), q, payload) || Excuses(script[i](q), q)
    {
      assert script[i](q) != Raise(OtherFault);
    }
  }

  /** Passing errors leave a run that can be resumed, unless it completes. */
  lemma AttemptNeverFails(run: Run, goal: seq<RawPage>, server: Turn, args: Args, attempt: Attempt)
    requires Evidence(run, FromServer(server)) && AllUse(run.pages, args) && Resumable(run.status)
    requires Goal(goal, server, args) && ArgsOf(attempt) == args
    requires FaultyScript(attempt.script, server) && OnlyPassingErrors(attempt.script)
    ensures Resumable(Resume(run, attempt).status) || Resume(run, attempt).status == Complete
  {
    var ok := FromServer(server);
    FaultyConforms(attempt.script, server);
    FaultySettles(attempt.script, server);
    StartedIsSound(run, attempt, ok);
    var w := World(run.(status := Running), [], attempt.script);
    CollectEverythingKeeps(w, ok, args);
    var out := CollectEverything(w, attempt.uuid, attempt.size);
    if out.exit.Errored? {
      StuckIsHopeless(out.world.run.pages, goal, server, args);
    }
  }

  lemma StuckIsHopeless(pages: seq<RawPage>, goal: seq<RawPage>, server: Turn, args: Args)
    requires Trace(pages, FromServer(server)) && AllUse(pages, args) && Goal(goal, server, args)
    ensures !Stuck(pages, FromServer(server), args)
  {
    NothingFollowsFinished(goal, pages, server, args);
    NeverStuck(pages, goal, FromServer(server), args);
  }

  lemma {:induction false} ReplayNeverFails(
    run: Run, attempts: seq<Attempt>, goal: seq<RawPage>, server: Turn, args: Args)
    requires Evidence(run, FromServer(server)) && AllUse(run.pages, args) && Against(attempts, server, args)
    requires run.status != Failed && Goal(goal, server, args) && AllPassing(attempts)
    ensures Replay(run, attempts).status != Failed
    decreases |attempts|
  {
    if attempts != [] && Resumable(run.status) {
      AttemptNeverFails(run, goal, server, args, attempts[0]);
      FaultyConforms(attempts[0].script, server);
      AttemptKeepsEvidence(run, attempts[0], FromServer(server));
      ReplayNeverFails(Resume(run, attempts[0]), attempts[1..], goal, server, args);
    }
  }

  lemma CompletedIsGoal(server: Turn, args: Args, possible: seq<Attempt>)
    requires Against(possible, server, args) && Replay(NEW_RUN, possible).status == Complete
    ensures Goal(Replay(NEW_RUN, possible).pages, server, args)
  {
    NewRunIsEvidence(FromServer(server));
    ReplayKeeps(NEW_RUN, possible, server, args);
  }

  /**
    If the collection can be completed at all, passing errors and kills leave a run that can be resumed, or
    that very completion.
   */
  lemma ErrorsLeaveRunResumable(server: Turn, args: Args, history: seq<Attempt>, possible: seq<Attempt>)
    requires Against(history, server, args) && AllPassing(history)
    requires Against(possible, server, args) && Replay(NEW_RUN, possible).status == Complete
    ensures Resumable(Replay(NEW_RUN, history).status) || Replay(NEW_RUN, history) == Replay(NEW_RUN, possible)
  {
    NewRunIsEvidence(FromServer(server));
    CompletedIsGoal(server, args, possible);
    ReplayNeverFails(NEW_RUN, history, Replay(NEW_RUN, possible).pages, server, args);
    InterruptionsDoNotShow(server, args, history, possible);
  }

  // The same run is taken up

  /** The call takes up the newest run if it can be resumed, and changes no other. */
  lemma NextCallTakesUp(runs: seq<Run>, attempt: Attempt)
    requires runs != []
    ensures var n, after := |runs| - 1, CollectContractRun(runs, attempt);
            Resumable(runs[n].status) ==> |after| == |runs| && after == runs[..n] + [Resume(runs[n], attempt)]
    ensures (forall i :: 0 <= i < |runs| ==> !Resumable(runs[i].status)) ==>
              CollectContractRun(runs, attempt) == runs + [Resume(NEW_RUN, attempt)]
  {
    var n := |runs| - 1;
    ResumableIsNewest(runs);
    if Resumable(runs[n].status) {
      assert FindResumableRun(runs) == Some(n);
      assert runs[n := Resume(runs[n], attempt)] == runs[..n] + [Resume(runs[n], attempt)];
    }
  }

  lemma {:induction false} ReplayAppend(run: Run, a: seq<Attempt>, b: seq<Attempt>)
    ensures Replay(run, a + b) == Replay(Replay(run, a), b)
    decreases |a|
  {
    if a == [] || !Resumable(run.status) {
      assert a == [] ==> a + b == b;
    } else {
      assert (a + b)[1..] == a[1..] + b;
      ReplayAppend(Resume(run, a[0]), a[1..], b);
    }
  }

  /** The run can be resumed before each of these attempts. */
  ghost predicate ResumedThroughout(run: Run, attempts: seq<Attempt>) {
    forall k :: 0 <= k < |attempts| ==> Resumable(Replay(run, attempts[..k]).status)
  }

  lemma ResumedAfterOne(run: Run, attempts: seq<Attempt>)
    requires ResumedThroughout(run, attempts) && attempts != []
    ensures Resumable(run.status) && ResumedThroughout(Resume(run, attempts[0]), attempts[1..])
  {
    assert Replay(run, attempts[..0]) == run;
    forall k | 0 <= k < |attempts| - 1 ensures Resumable(Replay(Resume(run, attempts[0]), attempts[1..][..k]).status) {
      assert attempts[..k + 1][1..] == attempts[1..][..k];
      assert Resumable(Replay(run, attempts[..k + 1]).status);
    }
  }

  lemma {:induction false} TableFollowsRun(run: Run, attempts: seq<Attempt>)
    requires ResumedThroughout(run, attempts)
    ensures RunAll([run], attempts) == [Replay(run, attempts)]
    decreases |attempts|
  {
    if attempts != [] {
      ResumedAfterOne(run, attempts);
      NextCallTakesUp([run], attempts[0]);
      assert CollectContractRun([run], attempts[0]) == [Resume(run, attempts[0])];
      TableFollowsRun(Resume(run, attempts[0]), attempts[1..]);
    }
  }

  /** Calls that leave their run unfinished never open a second one. */
  lemma OneRunIsTakenUp(attempts: seq<Attempt>)
    requires attempts != [] && ResumedThroughout(NEW_RUN, attempts)
    ensures RunAll([], attempts) == [Replay(NEW_RUN, attempts)]
  {
    ResumedAfterOne(NEW_RUN, attempts);
    assert CollectContractRun([], attempts[0]) == [Resume(NEW_RUN, attempts[0])];
    TableFollowsRun(Resume(NEW_RUN, attempts[0]), attempts[1..]);
  }

  /**
    Whatever passing errors and kills came before, one undisturbed call completes the collection with the
    very run that any other history completes with, stored pages, hash list and checkpoints included.
   */
  lemma AnyInterruptionCompletesTheSame(
    server: Turn, args: Args, history: seq<Attempt>, left: seq<Attempt>, turns: nat)
    requires Against(history, server, args) && Replay(NEW_RUN, history).status == Complete
    requires Against(left, server, args) && AllPassing(left)
    requires turns >= |Replay(NEW_RUN, history).pages| + 2
    ensures Replay(NEW_RUN, left + [Undisturbed(server, args, turns)]) == Replay(NEW_RUN, history)
  {
    var last, run := Undisturbed(server, args, turns), Replay(NEW_RUN, left);
    ReplayAppend(NEW_RUN, left, [last]);
    ErrorsLeaveRunResumable(server, args, left, history);
    if Resumable(run.status) {
      OneShotCompletesTheSame(server, args, history, left, turns);
      assert Replay(run, [last]) == Replay(Resume(run, last), [last][1..]);
    }
  }
}
