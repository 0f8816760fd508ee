/**
  When the operations on drafts are done, when they are refused and why, and all they leave behind,
  said of the tables themselves.
 */
module DraftDecisions {
  import opened JsonValues
  import opened Ordering
  import opened DraftPatches
  import opened DraftWorkflow

  // White space

  predicate Blank(s: string, space: char -> bool) {
    forall i :: 0 <= i < |s| ==> space(s[i])
  }

  /** `t` is `s` without the white space at its ends. */
  ghost predicate Trims(s: string, t: string, space: char -> bool) {
    && (t != "" ==> !space(t[0]) && !space(t[|t| - 1]))
    && exists a, b :: Around(s, a, t, b, space)
  }

  ghost predicate Around(s: string, a: string, t: string, b: string, space: char -> bool) {
    s == a + t + b && Blank(a, space) && Blank(b, space)
  }

  lemma {:induction false} StripLeftMeaning(s: string, space: char -> bool) returns (a: string)
    ensures s == a + StripLeft(s, space) && Blank(a, space)
    ensures StripLeft(s, space) != "" ==> !space(StripLeft(s, space)[0])
  {
    a := "";
    if s != "" && space(s[0]) {
      var more := StripLeftMeaning(s[1..], space);
      a := [s[0]] + more;
      assert s == [s[0]] + s[1..] == [s[0]] + more + StripLeft(s[1..], space);
    }
  }

  lemma {:induction false} StripRightMeaning(s: string, space: char -> bool) returns (b: string)
    ensures s == StripRight(s, space) + b && Blank(b, space)
    ensures StripRight(s, space) != "" ==> !space(StripRight(s, space)[|StripRight(s, space)| - 1])
  {
    b := "";
    if s != "" && space(s[|s| - 1]) {
      var front := s[..|s| - 1];
      var more := StripRightMeaning(front, space);
      b := more + [s[|s| - 1]];
      assert s == front + [s[|s| - 1]] == StripRight(front, space) + more + [s[|s| - 1]];
    }
  }

  /** What is stripped is trimmed: only white space at the ends is taken away, and all of it. */
  lemma StripTrims(s: string, space: char -> bool)
    ensures Trims(s, Strip(s, space), space)
  {
    var left := StripLeft(s, space);
    var a := StripLeftMeaning(s, space);
    var b := StripRightMeaning(left, space);
    assert Around(s, a, Strip(s, space), b, space);
    if Strip(s, space) != "" {
      assert left[0] == Strip(s, space)[0];
    }
  }

  /** There is only one way to trim a text. */
  lemma TrimsOnce(s: string, t: string, u: string, space: char -> bool)
    requires Trims(s, t, space) && Trims(s, u, space)
    ensures t == u
  {
    var a, b :| Around(s, a, t, b, space);
    var c, d :| Around(s, c, u, d, space);
    if t != "" && u != "" {
      SameStart(s, a, t, b, c, u, d, space);
      SameEnd(s, a, t, b, c, u, d, space);
      assert t == s[|a|..|s| - |b|] && u == s[|c|..|s| - |d|];
    } else if t != "" {
      assert s[|a|] == t[0];
      NothingAround(s, c, d, space);
    } else if u != "" {
      assert s[|c|] == u[0];
      NothingAround(s, a, b, space);
    }
  }

  lemma NothingAround(s: string, c: string, d: string, space: char -> bool)
    requires Around(s, c, "", d, space)
    ensures Blank(s, space)
  {
    assert s == c + d;
  }

  lemma SameStart(s: string, a: string, t: string, b: string, c: string, u: string, d: string, space: char -> bool)
    requires Around(s, a, t, b, space) && Around(s, c, u, d, space) && t != "" && u != "" && !space(t[0])
             && !space(u[0])
    ensures |a| == |c|
  {
    assert s[|a|] == t[0] && s[|c|] == u[0];
    assert forall i :: 0 <= i < |a| ==> s[i] == a[i];
    assert forall i :: 0 <= i < |c| ==> s[i] == c[i];
  }

  lemma SameEnd(s: string, a: string, t: string, b: string, c: string, u: string, d: string, space: char -> bool)
    requires Around(s, a, t, b, space) && Around(s, c, u, d, space) && t != "" && u != ""
    requires !space(t[|t| - 1]) && !space(u[|u| - 1])
    ensures |b| == |d|
  {
    var m, n := |a| + |t|, |c| + |u|;
    assert s[m - 1] == t[|t| - 1] && s[n - 1] == u[|u| - 1];
    assert forall i :: m <= i < |s| ==> s[i] == b[i - m];
    assert forall i :: n <= i < |s| ==> s[i] == d[i - n];
  }

  // Patches

  /** The patch names draftable fields only, each with at most 20 values of at most 1000 characters once trimmed. */
  predicate Acceptable(changes: Patch, profile: Profile) {
    && changes != map[]
    && forall field :: field in changes ==>
         && field in profile.fields
         && |changes[field]| <= 20
         && forall i :: 0 <= i < |changes[field]| ==> |Strip(changes[field][i], profile.space)| <= 1000
  }

  /** Every field with its values trimmed and the blank ones left out. */
  function Tidied(changes: Patch, profile: Profile): Patch {
    map field | field in changes :: Clean(changes[field], profile.space)
  }

  lemma FieldAcceptable(values: seq<string>, space: char -> bool)
    ensures FieldError(values, space).None? <==>
            |values| <= 20 && forall i :: 0 <= i < |values| ==> |Strip(values[i], space)| <= 1000
  {
    var clean := Clean(values, space);
    if Short(clean) {
      forall i | 0 <= i < |values| ensures |Strip(values[i], space)| <= 1000 {
        if Strip(values[i], space) != "" {
          CleanHas(values, space, values[i]);
          var k :| 0 <= k < |clean| && clean[k] == Strip(values[i], space);
        }
      }
    }
    if forall i :: 0 <= i < |values| ==> |Strip(values[i], space)| <= 1000 {
      forall k | 0 <= k < |clean| ensures |clean[k]| <= MAX_LENGTH {
        FilterMapHas(values, NonBlank(space), clean[k]);
        var v :| v in values && NonBlank(space)(v) == Some(clean[k]);
      }
    }
  }

  /** An acceptable patch is stored tidied, and any other is refused. */
  lemma NormalizedIff(changes: Patch, profile: Profile)
    ensures NormalizePatch(changes, profile).Ok? <==> Acceptable(changes, profile)
    ensures Acceptable(changes, profile) ==>
            NormalizePatch(changes, profile) == JsonValues.Result.Ok(Tidied(changes, profile))
  {
    AcceptedIff(changes, profile);
    forall field | field in changes
      ensures FieldError(changes[field], profile.space).None? <==>
              |changes[field]| <= 20
              && forall i :: 0 <= i < |changes[field]| ==> |Strip(changes[field][i], profile.space)| <= 1000
    {
      FieldAcceptable(changes[field], profile.space);
    }
    if Acceptable(changes, profile) {
      NormalizesTo(changes, Tidied(changes, profile), profile);
    }
  }

  // Creating and appending

  predicate NewRequest(drafts: seq<Draft>, request: RequestId) {
    forall d, k :: 0 <= d < |drafts| && 0 <= k < |drafts[d].revisions| ==> drafts[d].revisions[k].request != request
  }

  lemma NewRequestIff(drafts: seq<Draft>, request: RequestId)
    ensures NewRequest(drafts, request) <==> FindRequest(drafts, request).None?
  {
    FindRequestMeaning(drafts, request);
    if FindRequest(drafts, request).Some? {
      assert HasRequest(drafts[FindRequest(drafts, request).value], request);
    } else {
      forall d, k | 0 <= d < |drafts| && 0 <= k < |drafts[d].revisions|
        ensures drafts[d].revisions[k].request != request
      {
        assert !HasRequest(drafts[d], request);
      }
    }
  }

  predicate Undrafted(drafts: seq<Draft>, item: nat) {
    forall d :: 0 <= d < |drafts| ==> drafts[d].item != item
  }

  lemma UndraftedIff(drafts: seq<Draft>, item: nat)
    ensures Undrafted(drafts, item) <==> FindDraft(drafts, item).None?
  {
    FindDraftMeaning(drafts, item);
  }

  predicate Editable(s: State, item: nat) {
    item in s.items && s.items[item].active
  }

  /** What the item's record says of a field when a draft of it is opened. */
  function BaseValues(item: Item, field: string): seq<string> {
    if field in item.metadata then item.metadata[field] else []
  }

  /** A new draft: the hash and the draftable metadata of its item, and one revision. */
  ghost predicate Opens(draft: Draft, id: nat, item: Item, revision: Revision, profile: Profile) {
    && draft.item == id && draft.baseHash == item.hash
    && (forall field :: field in draft.baseMetadata <==> field in profile.fields)
    && (forall field :: field in profile.fields ==> draft.baseMetadata[field] == BaseValues(item, field))
    && draft.revisions == [revision]
  }

  /**
    A new request opens a draft exactly for an active item without one and an acceptable patch.  What stands
    in the way is named in this order, and leaves everything as it was.
   */
  lemma CreatedIff(s: State, item: nat, request: RequestId, changes: Patch, validation: Validation, profile: Profile)
    requires NewRequest(s.drafts, request)
    ensures var out := OpenDraft(s, item, request, changes, validation, profile);
            if !Editable(s, item) then out == Result(s, Missing)
            else if !Undrafted(s.drafts, item) then out == Result(s, Refused(Conflict))
            else if !Acceptable(changes, profile) then
              out.state == s && out.answer.Refused? && out.answer.reason.Patch?
            else
              && out.answer == Done(|s.drafts|)
              && exists draft ::
                   && Opens(draft, item, s.items[item], Revision(request, 1, Tidied(changes, profile), validation),
                      profile)
                   && out.state == s.(drafts := s.drafts + [draft])
  {
    NewRequestIff(s.drafts, request);
    UndraftedIff(s.drafts, item);
    NormalizedIff(changes, profile);
    if Editable(s, item) && Undrafted(s.drafts, item) && Acceptable(changes, profile) {
      var draft := OpenDraft(s, item, request, changes, validation, profile).state.drafts[|s.drafts|];
      assert Opens(draft, item, s.items[item], Revision(request, 1, Tidied(changes, profile), validation), profile);
    }
  }

  predicate DraftOf(s: State, item: nat, d: nat) {
    d < |s.drafts| && s.drafts[d].item == item
  }

  predicate Current(s: State, draft: Draft) {
    draft.item in s.items && s.items[draft.item].hash == draft.baseHash
  }

  /** The draft with one revision more. */
  function Extended(draft: Draft, revision: Revision): Draft {
    Draft(draft.item, draft.baseHash, draft.baseMetadata, draft.revisions + [revision])
  }

  /**
    A new request appends a revision exactly to a draft of the item, while the item is what the draft
    started from, if the editor knew its latest version, and with an acceptable patch.  What stands in the
    way is named in this order, and leaves everything as it was.
   */
  lemma AppendedIff(
    s: State, item: nat, d: nat, request: RequestId, expected: nat, changes: Patch, validation: Validation,
    profile: Profile)
    requires Sound(s, profile) && NewRequest(s.drafts, request)
    ensures var out := AppendRevision(s, item, d, request, expected, changes, validation, profile);
            if !DraftOf(s, item, d) then out == Result(s, Missing)
            else if !Current(s, s.drafts[d]) then out == Result(s, Refused(Stale))
            else if expected != |s.drafts[d].revisions| then out == Result(s, Refused(Conflict))
            else if !Acceptable(changes, profile) then
              out.state == s && out.answer.Refused? && out.answer.reason.Patch?
            else
              var revision := Revision(request, expected + 1, Tidied(changes, profile), validation);
              out == Result(s.(drafts := s.drafts[d := Extended(s.drafts[d], revision)]), Done(d))
  {
    NewRequestIff(s.drafts, request);
    NormalizedIff(changes, profile);
    if DraftOf(s, item, d) {
      assert DraftSound(s.drafts[d], profile);
    }
  }

  /** As a new request, this append is not done and changes nothing. */
  predicate Beaten(
    s: State, item: nat, d: nat, request: RequestId, expected: nat, changes: Patch, validation: Validation,
    profile: Profile)
  {
    NewRequest(s.drafts, request) ==>
      var out := AppendRevision(s, item, d, request, expected, changes, validation, profile);
      out.state == s && !out.answer.Done?
  }

  lemma StepIsSound(s: State, op: Operation, profile: Profile)
    requires Sound(s, profile)
    ensures Sound(Step(s, op, profile), profile)
  {
    StepKeeps(s, op, profile);
  }

  lemma StepIsAppend(
    s: State, item: nat, d: nat, request: nat, expected: nat, changes: Patch, validation: Validation, profile: Profile)
    ensures Step(s, Append(item, d, request, expected, changes, validation), profile)
         == AppendRevision(s, item, d, Direct(request), expected, changes, validation, profile).state
  {
  }

  lemma AppendIsSound(
    s: State, item: nat, d: nat, request: nat, expected: nat, changes: Patch, validation: Validation, profile: Profile)
    requires Sound(s, profile)
    ensures Sound(AppendRevision(s, item, d, Direct(request), expected, changes, validation, profile).state, profile)
  {
    StepIsSound(s, Append(item, d, request, expected, changes, validation), profile);
    StepIsAppend(s, item, d, request, expected, changes, validation, profile);
  }

  lemma AppendGrows(
    s: State, item: nat, d: nat, request: RequestId, expected: nat, changes: Patch, validation: Validation,
    profile: Profile)
    requires Sound(s, profile) && NewRequest(s.drafts, request)
    requires AppendRevision(s, item, d, request, expected, changes, validation, profile).answer.Done?
    ensures var after := AppendRevision(s, item, d, request, expected, changes, validation, profile).state;
            d < |after.drafts| && |after.drafts[d].revisions| == expected + 1
  {
    AppendedIff(s, item, d, request, expected, changes, validation, profile);
  }

  /**
    Of two editors who both start from the same version, one at most gets a revision in, whatever happens
    in between.
   */
  lemma OneOfTwoAppends(
    s: State, item: nat, d: nat, first: nat, expected: nat, changes: Patch, validation: Validation,
    ops: seq<Operation>, second: nat, others: Patch, laterValidation: Validation, profile: Profile)
    requires Sound(s, profile) && NewRequest(s.drafts, Direct(first))
    requires AppendRevision(s, item, d, Direct(first), expected, changes, validation, profile).answer.Done?
    ensures var done := AppendRevision(s, item, d, Direct(first), expected, changes, validation, profile);
            var later := Steps(done.state, ops, profile);
            Beaten(later, item, d, Direct(second), expected, others, laterValidation, profile)
  {
    var done := AppendRevision(s, item, d, Direct(first), expected, changes, validation, profile);
    var later := Steps(done.state, ops, profile);
    AppendIsSound(s, item, d, first, expected, changes, validation, profile);
    AppendGrows(s, item, d, Direct(first), expected, changes, validation, profile);
    GrownDraftRefuses(done.state, ops, item, d, Direct(second), expected, others, laterValidation, profile);
  }

  /** Once a draft has more revisions than an editor knew of, that editor's append is refused from then on. */
  lemma GrownDraftRefuses(
    s: State, ops: seq<Operation>, item: nat, d: nat, request: RequestId, expected: nat, changes: Patch,
    validation: Validation, profile: Profile)
    requires Sound(s, profile) && d < |s.drafts| && expected < |s.drafts[d].revisions|
    ensures var later := Steps(s, ops, profile);
            Beaten(later, item, d, request, expected, changes, validation, profile)
  {
    var later := Steps(s, ops, profile);
    SoundForever(s, ops, profile);
    assert Continues(s.drafts[d], later.drafts[d]);
    if NewRequest(later.drafts, request) {
      AppendedIff(later, item, d, request, expected, changes, validation, profile);
    }
  }

  /** A known request is answered with its draft when it names that draft again, and refused when it does not. */
  lemma KnownAnswers(
    s: State, item: nat, d: nat, request: RequestId, expected: nat, changes: Patch, validation: Validation,
    profile: Profile, known: nat, k: nat)
    requires Sound(s, profile) && known < |s.drafts| && k < |s.drafts[known].revisions|
    requires s.drafts[known].revisions[k].request == request
    ensures OpenDraft(s, item, request, changes, validation, profile)
         == Result(s, if s.drafts[known].item == item then Done(known) else Refused(Conflict))
    ensures AppendRevision(s, item, d, request, expected, changes, validation, profile)
         == Result(s, if s.drafts[known].item == item && d == known then Done(known) else Refused(Conflict))
  {
    FindRequestIs(s.drafts, known, k);
  }

  // Copying evidence

  /** The session's item is as it was when the evidence was captured. */
  predicate Captured(s: State, session: Session) {
    session.item.Some? && Editable(s, session.item.value) && s.items[session.item.value].hash == session.baseHash
  }

  /** Something was selected, all of it was found, and every value may go into its field. */
  predicate Selectable(selected: seq<Candidate>, complete: bool, terms: map<string, set<string>>, profile: Profile) {
    && complete && selected != []
    && forall i :: 0 <= i < |selected| ==>
         && selected[i].field in profile.fields
         && (selected[i].field in terms ==> selected[i].value in terms[selected[i].field])
  }

  /** What the latest revision says of a field, or what the draft started from if it says nothing. */
  function ValuesBefore(draft: Draft, field: string): seq<string> {
    if draft.revisions != [] && field in draft.revisions[|draft.revisions| - 1].patch then
      draft.revisions[|draft.revisions| - 1].patch[field]
    else if field in draft.baseMetadata then draft.baseMetadata[field]
    else []
  }

  function ValueFor(field: string): Candidate -> Option<string> {
    (c: Candidate) => if c.field == field then Some(c.value) else None
  }

  /** The patch has, for every field that was selected and no other, the selected values in order. */
  ghost predicate GroupsSelected(changes: Patch, selected: seq<Candidate>) {
    && (forall field :: field in changes <==> exists i :: 0 <= i < |selected| && selected[i].field == field)
    && (forall field :: field in changes ==> changes[field] == FilterMap(selected, ValueFor(field)))
  }

  /** Every draftable field keeps its values in order; the selected values it did not have follow, each once. */
  ghost predicate AddsSelected(changes: Patch, draft: Draft, selected: seq<Candidate>, profile: Profile) {
    && (forall field :: field in changes <==> field in profile.fields)
    && forall field :: field in profile.fields ==> AddsTo(ValuesBefore(draft, field), changes[field], selected, field)
  }

  ghost predicate AddsTo(before: seq<string>, after: seq<string>, selected: seq<Candidate>, field: string) {
    && before <= after
    && Distinct(after[|before|..])
    && (forall v :: v in after[|before|..] ==> v !in before && Candidate(field, v) in selected)
    && (forall v :: Candidate(field, v) in selected ==> v in after)
  }

  lemma {:induction false} MergedAdds(values: Patch, selected: seq<Candidate>, n: nat, field: string)
    requires n <= |selected| && field in values
    ensures field in Merged(values, selected, n)
    ensures AddsTo(values[field], Merged(values, selected, n)[field], selected[..n], field)
  {
    if n > 0 {
      MergedAdds(values, selected, n - 1, field);
      assert selected[..n] == selected[..n - 1] + [selected[n - 1]];
      OneMoreAdds(
        values[field], Merged(values, selected, n - 1)[field], selected[..n - 1], selected[n - 1], field);
    }
  }

  lemma OneMoreAdds(before: seq<string>, after: seq<string>, selected: seq<Candidate>, c: Candidate, field: string)
    requires AddsTo(before, after, selected, field)
    ensures c.field == field && c.value !in after ==> AddsTo(before, after + [c.value], selected + [c], field)
    ensures c.field != field || c.value in after ==> AddsTo(before, after, selected + [c], field)
  {
    if c.field == field && c.value !in after {
      var more := after + [c.value];
      assert more[|before|..] == after[|before|..] + [c.value];
      assert forall v :: v in after ==> v in more;
      forall v | v in after[|before|..] ensures v in after {
      }
      assert forall v :: v in before ==> v in after;
    }
  }

  lemma CopiedAdds(draft: Draft, selected: seq<Candidate>, profile: Profile)
    ensures AddsSelected(CopiedChanges(draft, selected, profile), draft, selected, profile)
  {
    var values := RevisionValues(LatestPatch(draft), draft.baseMetadata, profile);
    MergedExtends(values, selected, |selected|);
    assert selected[..|selected|] == selected;
    forall field | field in profile.fields
      ensures AddsTo(ValuesBefore(draft, field), CopiedChanges(draft, selected, profile)[field], selected, field)
    {
      MergedAdds(values, selected, |selected|, field);
    }
  }

  lemma GroupedIs(selected: seq<Candidate>)
    ensures GroupsSelected(GroupCandidates(selected), selected)
  {
    forall field | field in GroupCandidates(selected)
      ensures GroupCandidates(selected)[field] == FilterMap(selected, ValueFor(field))
    {
      SameText(selected, field);
    }
  }

  lemma {:induction false} SameText(selected: seq<Candidate>, field: string)
    ensures FilterMap(selected, CandidateText(field)) == FilterMap(selected, ValueFor(field))
  {
    if selected != [] {
      SameText(selected[..|selected| - 1], field);
    }
  }

  /**
    Evidence is copied exactly from a session whose item is unchanged and a selection that may be copied: into
    a new draft grouped by field, or into a revision that adds it to what the draft had.
   */
  lemma CopiedIff(
    s: State, session: Session, selected: seq<Candidate>, complete: bool, terms: map<string, set<string>>, request: nat,
    target: Option<nat>, expected: Option<nat>, validation: Validation, profile: Profile)
    ensures var out :=
            CopyCandidates(s, session, selected, complete, terms, request, target, expected, validation, profile);
            if session.item.None? then out == Result(s, Refused(Unsupported))
            else if !Captured(s, session) then out == Result(s, Refused(Stale))
            else if !Selectable(selected, complete, terms, profile) then out == Result(s, Refused(Unsupported))
            else if target.None? then
              exists changes ::
                && GroupsSelected(changes, selected)
                && out == OpenDraft(s, session.item.value, Direct(request), changes, validation, profile)
            else if expected.None? then out == Result(s, Refused(Unsupported))
            else if !DraftOf(s, session.item.value, target.value) then out == Result(s, Missing)
            else
              exists changes ::
                && AddsSelected(changes, s.drafts[target.value], selected, profile)
                && out == AppendRevision(
                  s, session.item.value, target.value, Direct(request), expected.value, changes, validation, profile)
  {
    CopyRefuses(s, session, selected, complete, terms, request, target, expected, validation, profile);
    if Captured(s, session) && Selectable(selected, complete, terms, profile) {
      if target.None? {
        GroupedIs(selected);
        CopyOpens(s, session, selected, complete, terms, request, expected, validation, profile);
      } else if expected.Some? && DraftOf(s, session.item.value, target.value) {
        CopiedAdds(s.drafts[target.value], selected, profile);
        CopyExtends(s, session, selected, complete, terms, request, target.value, expected.value, validation, profile);
      }
    }
  }

  lemma CopyRefuses(
    s: State, session: Session, selected: seq<Candidate>, complete: bool, terms: map<string, set<string>>, request: nat,
    target: Option<nat>, expected: Option<nat>, validation: Validation, profile: Profile)
    ensures var out :=
            CopyCandidates(s, session, selected, complete, terms, request, target, expected, validation, profile);
            && (session.item.None? ==> out == Result(s, Refused(Unsupported)))
            && (session.item.Some? && !Captured(s, session) ==> out == Result(s, Refused(Stale)))
            && (Captured(s, session) && !Selectable(selected, complete, terms, profile) ==>
                  out == Result(s, Refused(Unsupported)))
            && (Captured(s, session) && Selectable(selected, complete, terms, profile) && target.Some? ==>
                  && (expected.None? ==> out == Result(s, Refused(Unsupported)))
                  && (expected.Some? && !DraftOf(s, session.item.value, target.value) ==> out == Result(s, Missing)))
  {
  }

  lemma CopyOpens(
    s: State, session: Session, selected: seq<Candidate>, complete: bool, terms: map<string, set<string>>, request: nat,
    expected: Option<nat>, validation: Validation, profile: Profile)
    requires Captured(s, session) && Selectable(selected, complete, terms, profile)
    ensures CopyCandidates(s, session, selected, complete, terms, request, None, expected, validation, profile)
         == OpenDraft(s, session.item.value, Direct(request), GroupCandidates(selected), validation, profile)
  {
  }

  lemma CopyExtends(
    s: State, session: Session, selected: seq<Candidate>, complete: bool, terms: map<string, set<string>>, request: nat,
    d: nat, expected: nat, validation: Validation, profile: Profile)
    requires Captured(s, session) && Selectable(selected, complete, terms, profile)
    requires DraftOf(s, session.item.value, d)
    ensures CopyCandidates(s, session, selected, complete, terms, request, Some(d), Some(expected), validation, profile)
         == AppendRevision(
           s, session.item.value, d, Direct(request), expected, CopiedChanges(s.drafts[d], selected, profile),
           validation, profile)
  {
  }

  // Suggestions

  /** The suggestion may be decided this way: dismissed at any time, used only while it and the draft are current. */
  predicate Decided(s: State, id: nat, kind: SuggestionKind, corrected: string, profile: Profile) {
    && id < |s.suggestions| && s.suggestions[id].item in s.items
    && (kind == Corrected ==> Strip(corrected, profile.space) != "")
    && (kind != Dismissed ==>
          var suggestion := s.suggestions[id];
          && suggestion.sourceHash == s.items[suggestion.item].hash
          && Draftable(s, suggestion, if kind == Corrected then corrected else suggestion.proposed, profile))
  }

  /** The value fits its field, and the item has a draft that is current, or may have one. */
  predicate Draftable(s: State, suggestion: Suggestion, value: string, profile: Profile)
    requires suggestion.item in s.items
  {
    && suggestion.field in profile.fields
    && |Strip(value, profile.space)| <= 1000
    && (Undrafted(s.drafts, suggestion.item) ==> s.items[suggestion.item].active)
    && (forall d :: 0 <= d < |s.drafts| && s.drafts[d].item == suggestion.item ==> Current(s, s.drafts[d]))
  }

  predicate NewDecision(decisions: seq<SuggestionDecision>, request: nat) {
    forall i :: 0 <= i < |decisions| ==> decisions[i].request != request
  }

  lemma {:induction false} NewDecisionIff(decisions: seq<SuggestionDecision>, request: nat)
    ensures NewDecision(decisions, request) <==> FindSuggestionDecision(decisions, request).None?
  {
    if decisions != [] {
      NewDecisionIff(decisions[..|decisions| - 1], request);
    }
  }

  lemma OneValueAcceptable(patch: Patch, field: string, value: string, profile: Profile)
    requires patch == map[] || NormalForm(patch, profile)
    ensures Acceptable(patch[field := [value]], profile) <==>
            field in profile.fields && |Strip(value, profile.space)| <= 1000
  {
    forall other | other in patch && patch != map[]
      ensures |patch[other]| <= 20
      ensures forall i :: 0 <= i < |patch[other]| ==> |Strip(patch[other][i], profile.space)| <= 1000
    {
      TidyHasNoError(patch[other], profile.space);
      FieldAcceptable(patch[other], profile.space);
    }
    var changes := patch[field := [value]];
    assert changes[field] == [value] && [value][0] == value;
    assert changes != map[];
    assert forall other :: other in changes <==> other in patch || other == field;
  }

  lemma DraftedAnewIff(
    s: State, suggestion: Suggestion, value: string, request: nat, validation: Validation, profile: Profile)
    requires NewRequest(s.drafts, ForSuggestion(request)) && suggestion.item in s.items
    requires FindDraft(s.drafts, suggestion.item).None?
    ensures DraftFromSuggestion(s, suggestion, value, request, validation, profile).answer.Done?
       <==> Draftable(s, suggestion, value, profile)
  {
    UndraftedIff(s.drafts, suggestion.item);
    var changes: Patch := map[suggestion.field := [value]];
    CreatedIff(s, suggestion.item, ForSuggestion(request), changes, validation, profile);
    OneValueAcceptable(map[], suggestion.field, value, profile);
    assert changes == map[][suggestion.field := [value]];
  }

  lemma DraftedOnIff(
    s: State, suggestion: Suggestion, d: nat, value: string, request: nat, validation: Validation, profile: Profile)
    requires Sound(s, profile) && NewRequest(s.drafts, ForSuggestion(request)) && suggestion.item in s.items
    requires FindDraft(s.drafts, suggestion.item) == Some(d)
    ensures DraftFromSuggestion(s, suggestion, value, request, validation, profile).answer.Done?
       <==> Draftable(s, suggestion, value, profile)
  {
    UndraftedIff(s.drafts, suggestion.item);
    FindDraftMeaning(s.drafts, suggestion.item);
    assert DraftSound(s.drafts[d], profile);
    var latest := s.drafts[d].revisions[|s.drafts[d].revisions| - 1];
    var changes := latest.patch[suggestion.field := [value]];
    AppendedIff(s, suggestion.item, d, ForSuggestion(request), latest.version, changes, validation, profile);
    OneValueAcceptable(latest.patch, suggestion.field, value, profile);
    assert forall e :: 0 <= e < |s.drafts| && s.drafts[e].item == suggestion.item ==> e == d;
  }

  lemma DraftedIff(
    s: State, suggestion: Suggestion, value: string, request: nat, validation: Validation, profile: Profile)
    requires Sound(s, profile) && NewRequest(s.drafts, ForSuggestion(request)) && suggestion.item in s.items
    ensures DraftFromSuggestion(s, suggestion, value, request, validation, profile).answer.Done?
       <==> Draftable(s, suggestion, value, profile)
  {
    match FindDraft(s.drafts, suggestion.item)
    case None => DraftedAnewIff(s, suggestion, value, request, validation, profile);
    case Some(d) => DraftedOnIff(s, suggestion, d, value, request, validation, profile);
  }

  /** Trimming twice trims no more, so a corrected value is as long as what is stored of it. */
  lemma SettledLength(suggestion: Suggestion, kind: SuggestionKind, corrected: string, profile: Profile)
    ensures Strip(SettledValue(suggestion, kind, corrected, profile), profile.space)
         == Strip(if kind == Corrected then corrected else suggestion.proposed, profile.space)
  {
    StripTwice(corrected, profile.space);
  }

  /**
    A new decision on a suggestion is recorded exactly when the suggestion may be decided so; a refusal
    changes nothing.
   */
  lemma SuggestionDecidedIff(
    s: State, id: nat, request: nat, kind: SuggestionKind, corrected: string, validation: Validation, profile: Profile)
    requires Sound(s, profile) && NewDecision(s.suggestionDecisions, request)
    ensures var out := DecideSuggestion(s, id, request, kind, corrected, validation, profile);
            && (out.answer == Done(|s.suggestionDecisions|) <==> Decided(s, id, kind, corrected, profile))
            && (!Decided(s, id, kind, corrected, profile) ==> out.state == s && !out.answer.Done?)
            && (Decided(s, id, kind, corrected, profile) ==>
                  exists revision ::
                    && (kind == Dismissed ==> revision == None && out.state.drafts == s.drafts)
                    && out.state == s.(
                         drafts := out.state.drafts,
                         suggestionDecisions :=
                           s.suggestionDecisions + [SuggestionDecision(request, id, kind, revision)]))
  {
    NewDecisionIff(s.suggestionDecisions, request);
    UndecidedIsUnused(s, request);
    NewRequestIff(s.drafts, ForSuggestion(request));
    if id < |s.suggestions| && s.suggestions[id].item in s.items && kind != Dismissed {
      var suggestion := s.suggestions[id];
      var value := SettledValue(suggestion, kind, corrected, profile);
      SettledLength(suggestion, kind, corrected, profile);
      DraftedIff(s, suggestion, value, request, validation, profile);
      DraftingLeaves(s, suggestion, value, request, validation, profile);
    }
  }

  /**
    Why a suggestion is not used for its value: the item may not be drafted, its draft is not current, or the
    value does not fit.
   */
  predicate DraftRefused(s: State, suggestion: Suggestion, value: string, answer: Answer, profile: Profile)
    requires suggestion.item in s.items
  {
    if Undrafted(s.drafts, suggestion.item) && !s.items[suggestion.item].active then answer == Missing
    else if exists d :: 0 <= d < |s.drafts| && s.drafts[d].item == suggestion.item && !Current(s, s.drafts[d]) then
      answer == Refused(Unsupported)
    else answer.Refused? && answer.reason.Patch?
  }

  lemma AnewRefused(
    s: State, suggestion: Suggestion, value: string, request: nat, validation: Validation, profile: Profile)
    requires NewRequest(s.drafts, ForSuggestion(request)) && suggestion.item in s.items
    requires FindDraft(s.drafts, suggestion.item).None?
    ensures var answer := DraftFromSuggestion(s, suggestion, value, request, validation, profile).answer;
            !answer.Done? ==> answer != Refused(Stale) && DraftRefused(s, suggestion, value, answer, profile)
  {
    UndraftedIff(s.drafts, suggestion.item);
    CreatedIff(
      s, suggestion.item, ForSuggestion(request), map[suggestion.field := [value]], validation, profile);
  }

  lemma OnRefused(
    s: State, suggestion: Suggestion, d: nat, value: string, request: nat, validation: Validation, profile: Profile)
    requires Sound(s, profile) && NewRequest(s.drafts, ForSuggestion(request)) && suggestion.item in s.items
    requires FindDraft(s.drafts, suggestion.item) == Some(d)
    ensures var answer := DraftFromSuggestion(s, suggestion, value, request, validation, profile).answer;
            && (answer == Refused(Stale) ==> DraftRefused(s, suggestion, value, Refused(Unsupported), profile))
            && (!answer.Done? && answer != Refused(Stale) ==> DraftRefused(s, suggestion, value, answer, profile))
  {
    UndraftedIff(s.drafts, suggestion.item);
    FindDraftMeaning(s.drafts, suggestion.item);
    assert DraftSound(s.drafts[d], profile);
    var latest := s.drafts[d].revisions[|s.drafts[d].revisions| - 1];
    AppendedIff(
      s, suggestion.item, d, ForSuggestion(request), latest.version, latest.patch[suggestion.field := [value]],
        validation,
      profile);
  }

  /** What is in the way of a decision that is not recorded, in the order in which it is named. */
  lemma SuggestionRefused(
    s: State, id: nat, request: nat, kind: SuggestionKind, corrected: string, validation: Validation, profile: Profile)
    requires Sound(s, profile) && NewDecision(s.suggestionDecisions, request)
    requires !Decided(s, id, kind, corrected, profile)
    ensures var answer := DecideSuggestion(s, id, request, kind, corrected, validation, profile).answer;
            if kind == Corrected && Strip(corrected, profile.space) == "" then answer == Refused(Unsupported)
            else if id >= |s.suggestions| || s.suggestions[id].item !in s.items then answer == Missing
            else if s.suggestions[id].sourceHash != s.items[s.suggestions[id].item].hash then
              answer == Refused(Unsupported)
            else
              DraftRefused(
                s, s.suggestions[id], if kind == Corrected then corrected else s.suggestions[id].proposed, answer,
                profile)
  {
    NewDecisionIff(s.suggestionDecisions, request);
    UndecidedIsUnused(s, request);
    NewRequestIff(s.drafts, ForSuggestion(request));
    SuggestionDecidedIff(s, id, request, kind, corrected, validation, profile);
    if id < |s.suggestions| && s.suggestions[id].item in s.items {
      var suggestion := s.suggestions[id];
      var value := SettledValue(suggestion, kind, corrected, profile);
      match FindDraft(s.drafts, suggestion.item)
      case None => AnewRefused(s, suggestion, value, request, validation, profile);
      case Some(d) => OnRefused(s, suggestion, d, value, request, validation, profile);
    }
  }

  /**
    A decision request on a suggestion that is repeated gives the first record, or a conflict for another
    suggestion.
   */
  lemma KnownSuggestionDecision(
    s: State, id: nat, request: nat, kind: SuggestionKind, corrected: string, validation: Validation, profile: Profile)
    requires !NewDecision(s.suggestionDecisions, request)
    ensures var out := DecideSuggestion(s, id, request, kind, corrected, validation, profile);
            && out.state == s
            && match out.answer
               case Done(i) =>
                 && i < |s.suggestionDecisions| && s.suggestionDecisions[i].request == request
                 && s.suggestionDecisions[i].suggestionId == id
               case Missing => false
               case Refused(reason) =>
                 reason == Conflict && exists i ::
                   && 0 <= i < |s.suggestionDecisions| && s.suggestionDecisions[i].request == request
                   && s.suggestionDecisions[i].suggestionId != id
  {
    FoundSuggestionDecision(s.suggestionDecisions, request);
  }

  lemma {:induction false} FoundSuggestionDecision(decisions: seq<SuggestionDecision>, request: nat)
    requires !NewDecision(decisions, request)
    ensures match FindSuggestionDecision(decisions, request)
            case None => false
            case Some(i) => i < |decisions| && decisions[i].request == request
  {
    var front := decisions[..|decisions| - 1];
    if decisions[|decisions| - 1].request != request {
      FoundSuggestionDecision(front, request);
    }
  }

  // Decisions on revisions

  /** Only approvals override, and an approval of an invalid revision must. */
  predicate RightlyOverridden(d: DecisionRequest, validation: Validation) {
    if d.verdict == Approved then validation == Invalid ==> d.validationOverride else !d.validationOverride
  }

  /**
    A new decision is recorded exactly on the latest revision of a draft of the item, while the item is what the draft
    started from.  What stands in the way is named in this order, and leaves everything as it was.
   */
  lemma RevisionDecidedIff(s: State, request: nat, d: DecisionRequest, profile: Profile)
    requires Sound(s, profile) && forall i :: 0 <= i < |s.decisions| ==> s.decisions[i].request != request
    ensures var out := DecideRevision(s, request, d);
            if !DraftOf(s, d.item, d.draftId) then out == Result(s, Missing)
            else
              var draft := s.drafts[d.draftId];
              if !Current(s, draft) || d.version != |draft.revisions| then out == Result(s, Refused(Conflict))
              else
                var validation := draft.revisions[|draft.revisions| - 1].validation;
                if !RightlyOverridden(d, validation) then out == Result(s, Refused(Unsupported))
                else
                  out == Result(
                    s.(decisions := s.decisions
                         + [Decision(request, Sha256(d), d.draftId, d.version, d.item, draft.baseHash, validation)]),
                    Done(|s.decisions|))
  {
    UndecidedIsNotFound(s.decisions, request);
    if DraftOf(s, d.item, d.draftId) {
      assert DraftSound(s.drafts[d.draftId], profile);
    }
  }

  lemma {:induction false} UndecidedIsNotFound(decisions: seq<Decision>, request: nat)
    requires forall i :: 0 <= i < |decisions| ==> decisions[i].request != request
    ensures FindDecision(decisions, request).None?
  {
    if decisions != [] {
      UndecidedIsNotFound(decisions[..|decisions| - 1], request);
    }
  }
}
