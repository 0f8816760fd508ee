/** Metadata patches of linguistic drafts: how they are normalized, extended and merged. */
module DraftPatches {
  import opened JsonValues
  import opened Ordering

  /** Field to values; an entry's place is its index, and its other attributes are always null. */
  type Patch = map<string, seq<string>>

  datatype PatchError = NoField | FieldNotDraftable | TooManyValues | ValueTooLong

  const MAX_VALUES := 20
  const MAX_LENGTH := 1000

  /** Which fields may be drafted, in order, and which characters are white space. */
  datatype Profile = Profile(fields: seq<string>, space: char -> bool)

  function StripLeft(s: string, space: char -> bool): string {
    if s != "" && space(s[0]) then StripLeft(s[1..], space) else s
  }

  function StripRight(s: string, space: char -> bool): string {
    if s != "" && space(s[|s| - 1]) then StripRight(s[..|s| - 1], space) else s
  }

  /** `value.strip()`. */
  function Strip(s: string, space: char -> bool): string {
    StripRight(StripLeft(s, space), space)
  }

  function NonBlank(space: char -> bool): string -> Option<string> {
    (value: string) => if Strip(value, space) != "" then Some(Strip(value, space)) else None
  }

  function Clean(values: seq<string>, space: char -> bool): seq<string> {
    FilterMap(values, NonBlank(space))
  }

  predicate Short(values: seq<string>) {
    forall i :: 0 <= i < |values| ==> |values[i]| <= MAX_LENGTH
  }

  /** What is wrong with the values of one field, if anything. */
  function FieldError(values: seq<string>, space: char -> bool): Option<PatchError> {
    if |values| > MAX_VALUES then Some(TooManyValues)
    else if !Short(Clean(values, space)) then Some(ValueTooLong)
    else None
  }

  /** The first error among the first `n` fields. */
  function FirstError(changes: Patch, profile: Profile, n: nat): Option<PatchError>
    requires n <= |profile.fields|
  {
    if n == 0 then None
    else
      match FirstError(changes, profile, n - 1)
      case Some(why) => Some(why)
      case None =>
        var field := profile.fields[n - 1];
        if field in changes then FieldError(changes[field], profile.space) else None
  }

  function Cleaned(changes: Patch, profile: Profile, n: nat): Patch
    requires n <= |profile.fields|
  {
    map field | field in profile.fields[..n] && field in changes :: Clean(changes[field], profile.space)
  }

  /** `normalize_metadata_patch`. */
  function NormalizePatch(changes: Patch, profile: Profile): Result<Patch, PatchError> {
    if changes == map[] then Err(NoField)
    else if !(forall field :: field in changes ==> field in profile.fields) then Err(FieldNotDraftable)
    else
      match FirstError(changes, profile, |profile.fields|)
      case Some(why) => Err(why)
      case None => Ok(Cleaned(changes, profile, |profile.fields|))
  }

  method NormalizeMetadataPatch(changes: Patch, profile: Profile) returns (normalized: Result<Patch, PatchError>)
    ensures normalized == NormalizePatch(changes, profile)
  {
    if changes == map[] {
      return Err(NoField);
    }
    if exists field :: field in changes.Keys && field !in profile.fields {
      return Err(FieldNotDraftable);
    }
    var patch: Patch := map[];
    for i := 0 to |profile.fields|
      invariant FirstError(changes, profile, i) == None
      invariant patch == Cleaned(changes, profile, i)
    {
      var field := profile.fields[i];
      assert profile.fields[..i + 1] == profile.fields[..i] + [field];
      if field !in changes {
        assert Cleaned(changes, profile, i + 1) == Cleaned(changes, profile, i);
        continue;
      }
      var error := FieldError(changes[field], profile.space);
      if error.Some? {
        ErrorStays(changes, profile, i + 1, |profile.fields|);
        return Err(error.value);
      }
      patch := patch[field := Clean(changes[field], profile.space)];
      assert patch == Cleaned(changes, profile, i + 1);
    }
    normalized := Ok(patch);
  }

  lemma {:induction false} ErrorStays(changes: Patch, profile: Profile, m: nat, n: nat)
    requires m <= n <= |profile.fields| && FirstError(changes, profile, m).Some?
    ensures FirstError(changes, profile, n) == FirstError(changes, profile, m)
  {
    if m < n {
      ErrorStays(changes, profile, m, n - 1);
    }
  }

  // White space

  lemma {:induction false} StripRightTwice(s: string, space: char -> bool)
    ensures StripRight(StripRight(s, space), space) == StripRight(s, space)
  {
    if s != "" && space(s[|s| - 1]) {
      StripRightTwice(s[..|s| - 1], space);
    }
  }

  lemma {:induction false} LeftHasNoSpace(s: string, space: char -> bool)
    ensures StripLeft(s, space) != "" ==> !space(StripLeft(s, space)[0])
  {
    if s != "" && space(s[0]) {
      LeftHasNoSpace(s[1..], space);
    }
  }

  lemma {:induction false} RightIsPrefix(s: string, space: char -> bool)
    ensures StripRight(s, space) <= s
  {
    if s != "" && space(s[|s| - 1]) {
      RightIsPrefix(s[..|s| - 1], space);
    }
  }

  lemma StripTwice(s: string, space: char -> bool)
    ensures Strip(Strip(s, space), space) == Strip(s, space)
  {
    var left := StripLeft(s, space);
    LeftHasNoSpace(s, space);
    RightIsPrefix(left, space);
    StripRightTwice(left, space);
  }

  // What normalization gives, and gives back

  /** Values as they are stored: trimmed, not blank, few and short. */
  ghost predicate Tidy(values: seq<string>, space: char -> bool) {
    && |values| <= MAX_VALUES
    && forall i :: 0 <= i < |values| ==> Strip(values[i], space) == values[i] != "" && |values[i]| <= MAX_LENGTH
  }

  ghost predicate NormalForm(patch: Patch, profile: Profile) {
    && patch != map[]
    && forall field :: field in patch ==> field in profile.fields && Tidy(patch[field], profile.space)
  }

  lemma {:induction false} CleanIsTidy(values: seq<string>, space: char -> bool)
    ensures |Clean(values, space)| <= |values|
    ensures forall i :: 0 <= i < |Clean(values, space)| ==>
              Strip(Clean(values, space)[i], space) == Clean(values, space)[i] != ""
  {
    if values != [] {
      CleanIsTidy(values[..|values| - 1], space);
      StripTwice(values[|values| - 1], space);
    }
  }

  lemma {:induction false} CleanKeepsTidy(values: seq<string>, space: char -> bool)
    requires forall i :: 0 <= i < |values| ==> Strip(values[i], space) == values[i] != ""
    ensures Clean(values, space) == values
  {
    if values != [] {
      CleanKeepsTidy(values[..|values| - 1], space);
      assert values == values[..|values| - 1] + [values[|values| - 1]];
    }
  }

  lemma {:induction false} NoErrorMeans(changes: Patch, profile: Profile, n: nat)
    requires n <= |profile.fields|
    ensures FirstError(changes, profile, n).None? <==>
      forall i ::
        0 <= i < n && profile.fields[i] in changes ==> FieldError(changes[profile.fields[i]], profile.space).None?
  {
    if n > 0 {
      NoErrorMeans(changes, profile, n - 1);
    }
  }

  /** A patch is accepted exactly when it names draftable fields only, each with few and short values. */
  lemma AcceptedIff(changes: Patch, profile: Profile)
    ensures NormalizePatch(changes, profile).Ok? <==>
      && changes != map[]
      && forall field :: field in changes ==> field in profile.fields && FieldError(changes[field], profile.space).None?
  {
    NoErrorMeans(changes, profile, |profile.fields|);
    forall field | field in changes && field in profile.fields
      ensures FirstError(changes, profile, |profile.fields|).None? ==> FieldError(changes[field], profile.space).None?
    {
      var i :| 0 <= i < |profile.fields| && profile.fields[i] == field;
    }
  }

  /** What is accepted is cleaned field by field, and is then in normal form. */
  lemma NormalizedIsNormal(changes: Patch, profile: Profile)
    requires NormalizePatch(changes, profile).Ok?
    ensures var patch := NormalizePatch(changes, profile).value;
            && patch.Keys == changes.Keys
            && (forall field :: field in changes ==> patch[field] == Clean(changes[field], profile.space))
            && NormalForm(patch, profile)
  {
    AcceptedIff(changes, profile);
    var patch := NormalizePatch(changes, profile).value;
    assert profile.fields[..|profile.fields|] == profile.fields;
    assert patch.Keys == changes.Keys;
    forall field | field in changes ensures Tidy(patch[field], profile.space) {
      CleanIsTidy(changes[field], profile.space);
    }
    assert exists field :: field in changes;
  }

  /** Normalizing what was normalized changes nothing. */
  lemma NormalizationIsIdempotent(patch: Patch, profile: Profile)
    requires NormalForm(patch, profile)
    ensures NormalizePatch(patch, profile) == Ok(patch)
  {
    forall field | field in patch
      ensures FieldError(patch[field], profile.space).None? && Clean(patch[field], profile.space) == patch[field]
    {
      TidyHasNoError(patch[field], profile.space);
    }
    NormalizesTo(patch, patch, profile);
  }

  lemma TidyHasNoError(values: seq<string>, space: char -> bool)
    requires Tidy(values, space)
    ensures FieldError(values, space).None? && Clean(values, space) == values
  {
    CleanKeepsTidy(values, space);
  }

  /** A patch whose every field is acceptable normalizes to its fields cleaned. */
  lemma NormalizesTo(changes: Patch, cleaned: Patch, profile: Profile)
    requires changes != map[] && changes.Keys == cleaned.Keys
    requires forall field :: field in changes ==>
               field in profile.fields && FieldError(changes[field], profile.space).None?
               && Clean(changes[field], profile.space) == cleaned[field]
    ensures NormalizePatch(changes, profile) == Ok(cleaned)
  {
    AcceptedIff(changes, profile);
    NormalizedIsNormal(changes, profile);
    var patch := NormalizePatch(changes, profile).value;
    assert patch == cleaned;
  }

  lemma OneValueFits(value: string, space: char -> bool)
    requires |Strip(value, space)| <= MAX_LENGTH
    ensures FieldError([value], space).None?
  {
    OneValue(value, space);
  }

  lemma AcceptingWorks(latest: Patch, field: string, value: string, profile: Profile)
    requires NormalForm(latest, profile) && field in profile.fields && |Strip(value, profile.space)| <= MAX_LENGTH
    ensures NormalizePatch(latest[field := [value]], profile) == Ok(latest[field := Clean([value], profile.space)])
  {
    var changes, cleaned := latest[field := [value]], latest[field := Clean([value], profile.space)];
    OneValueFits(value, profile.space);
    forall other | other in latest
      ensures FieldError(latest[other], profile.space).None? && Clean(latest[other], profile.space) == latest[other]
    {
      TidyHasNoError(latest[other], profile.space);
    }
    assert field in changes;
    NormalizesTo(changes, cleaned, profile);
  }

  lemma AcceptingFails(latest: Patch, field: string, value: string, profile: Profile)
    requires NormalForm(latest, profile) && field in profile.fields && |Strip(value, profile.space)| > MAX_LENGTH
    ensures NormalizePatch(latest[field := [value]], profile) == Err(ValueTooLong)
  {
    var changes := latest[field := [value]];
    OneValue(value, profile.space);
    assert !Short([Strip(value, profile.space)]) by {
      assert |[Strip(value, profile.space)][0]| > MAX_LENGTH;
    }
    forall other | other in changes && other != field ensures FieldError(changes[other], profile.space).None? {
      TidyHasNoError(latest[other], profile.space);
    }
    assert field in changes;
    OnlyTooLong(changes, field, profile, |profile.fields|);
    assert profile.fields[..|profile.fields|] == profile.fields;
  }

  /** Accepting one value for one field keeps every other field of the earlier patch as it was. */
  lemma AcceptingKeepsOtherFields(latest: Patch, field: string, value: string, profile: Profile)
    requires NormalForm(latest, profile)
    ensures NormalizePatch(latest[field := [value]], profile)
         == if field !in profile.fields then Err(FieldNotDraftable)
            else if |Strip(value, profile.space)| > MAX_LENGTH then Err(ValueTooLong)
            else Ok(latest[field := Clean([value], profile.space)])
  {
    if field !in profile.fields {
      assert field in latest[field := [value]];
    } else if |Strip(value, profile.space)| > MAX_LENGTH {
      AcceptingFails(latest, field, value, profile);
    } else {
      AcceptingWorks(latest, field, value, profile);
    }
  }

  lemma OneValue(value: string, space: char -> bool)
    ensures Clean([value], space) == if Strip(value, space) != "" then [Strip(value, space)] else []
  {
    var front := FilterMap([value][..0], NonBlank(space));
    assert front == [];
    assert Clean([value], space) == front + if Strip(value, space) != "" then [Strip(value, space)] else [];
  }

  /** When one field alone is at fault, its error is the error. */
  lemma {:induction false} OnlyTooLong(changes: Patch, field: string, profile: Profile, n: nat)
    requires n <= |profile.fields| && field in changes
             && FieldError(changes[field], profile.space) == Some(ValueTooLong)
    requires forall other :: other in changes && other != field ==> FieldError(changes[other], profile.space).None?
    ensures FirstError(changes, profile, n) == if field in profile.fields[..n] then Some(ValueTooLong) else None
  {
    if n > 0 {
      OnlyTooLong(changes, field, profile, n - 1);
      assert profile.fields[..n] == profile.fields[..n - 1] + [profile.fields[n - 1]];
    } else {
      assert profile.fields[..0] == [];
    }
  }

  // Merging evidence into a draft

  datatype Candidate = Candidate(field: string, value: string)

  /** `_revision_values`: the latest patch over the metadata the draft started from, for every draftable field. */
  function RevisionValues(patch: Patch, base: Patch, profile: Profile): Patch {
    map field | field in profile.fields ::
      if field in patch then patch[field] else if field in base then base[field] else []
  }

  /** Adds the first `n` candidates, each unless its field has that value already. */
  function Merged(values: Patch, selected: seq<Candidate>, n: nat): Patch
    requires n <= |selected|
  {
    if n == 0 then values
    else
      var front, c := Merged(values, selected, n - 1), selected[n - 1];
      if c.field in front && c.value !in front[c.field] then front[c.field := front[c.field] + [c.value]] else front
  }

  /** The merging loop of `copy_candidates_to_draft`. */
  method MergeCandidates(patch: Patch, base: Patch, selected: seq<Candidate>, profile: Profile) returns (changes: Patch)
    requires forall i :: 0 <= i < |selected| ==> selected[i].field in profile.fields
    ensures changes == Merged(RevisionValues(patch, base, profile), selected, |selected|)
  {
    changes := RevisionValues(patch, base, profile);
    for i := 0 to |selected|
      invariant changes == Merged(RevisionValues(patch, base, profile), selected, i)
      invariant forall field :: field in profile.fields ==> field in changes
    {
      var c := selected[i];
      if c.value !in changes[c.field] {
        changes := changes[c.field := changes[c.field] + [c.value]];
      }
    }
  }

  lemma {:induction false} MergedExtends(values: Patch, selected: seq<Candidate>, n: nat)
    requires n <= |selected|
    ensures Merged(values, selected, n).Keys == values.Keys
    ensures forall field :: field in values ==> values[field] <= Merged(values, selected, n)[field]
    ensures forall i ::
            0 <= i < n && selected[i].field in values ==>
              selected[i].value in Merged(values, selected, n)[selected[i].field]
  {
    if n > 0 {
      MergedExtends(values, selected, n - 1);
    }
  }

  lemma {:induction false} CleanHas(values: seq<string>, space: char -> bool, value: string)
    requires value in values && Strip(value, space) != ""
    ensures Strip(value, space) in Clean(values, space)
  {
    var front, last := values[..|values| - 1], values[|values| - 1];
    assert values == front + [last];
    if value in front {
      CleanHas(front, space, value);
    }
  }

  /** The later patch has, trimmed, every value of the earlier ones that is not blank. */
  ghost predicate KeepsValues(before: Patch, after: Patch, profile: Profile) {
    forall field, value :: field in before && value in before[field] && Strip(value, profile.space) != "" ==>
      field in after && Strip(value, profile.space) in after[field]
  }

  /** Every candidate's value is in its field, trimmed, if it is not blank. */
  ghost predicate HasCandidates(selected: seq<Candidate>, after: Patch, profile: Profile) {
    forall i ::
      0 <= i < |selected| && selected[i].field in profile.fields && Strip(selected[i].value, profile.space) != "" ==>
      selected[i].field in after && Strip(selected[i].value, profile.space) in after[selected[i].field]
  }

  /** Cleaning a list that only grew keeps its values. */
  lemma CleaningKeeps(before: seq<string>, merged: seq<string>, value: string, space: char -> bool)
    requires before <= merged && value in before && Strip(value, space) != ""
    ensures Strip(value, space) in Clean(merged, space)
  {
    var i :| 0 <= i < |before| && before[i] == value;
    assert merged[i] == value;
    CleanHas(merged, space, value);
  }

  /** Copying evidence into a draft drops no value that is not blank, earlier or new. */
  lemma CopyingDropsNothing(patch: Patch, base: Patch, selected: seq<Candidate>, profile: Profile)
    requires NormalizePatch(Merged(RevisionValues(patch, base, profile), selected, |selected|), profile).Ok?
    ensures var after :=
            NormalizePatch(Merged(RevisionValues(patch, base, profile), selected, |selected|), profile).value;
            KeepsValues(RevisionValues(patch, base, profile), after, profile) && HasCandidates(selected, after, profile)
  {
    var before := RevisionValues(patch, base, profile);
    var merged := Merged(before, selected, |selected|);
    MergedExtends(before, selected, |selected|);
    NormalizedIsNormal(merged, profile);
    forall field, value | field in before && value in before[field] && Strip(value, profile.space) != ""
      ensures Strip(value, profile.space) in Clean(merged[field], profile.space)
    {
      CleaningKeeps(before[field], merged[field], value, profile.space);
    }
    forall i | 0 <= i < |selected| && selected[i].field in profile.fields
        && Strip(selected[i].value, profile.space) != ""
      ensures Strip(selected[i].value, profile.space) in Clean(merged[selected[i].field], profile.space)
    {
      CleaningKeeps(merged[selected[i].field], merged[selected[i].field], selected[i].value, profile.space);
    }
  }
}
