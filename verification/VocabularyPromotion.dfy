/** Promoting a DSpace vocabulary: resolving values that collide once normalized, and preparing them as terms. */
module VocabularyPromotion {
  import opened JsonValues
  import opened Ordering

  type Normalizer = string -> string

  function OfKey(normalize: Normalizer, key: string): string -> Option<string> {
    (value: string) => if normalize(value) == key then Some(value) else None
  }

  /** The values that normalize to `key`, in order. */
  function Group(values: seq<string>, normalize: Normalizer, key: string): seq<string> {
    FilterMap(values, OfKey(normalize, key))
  }

  predicate Collides(values: seq<string>, normalize: Normalizer, key: string) {
    |Group(values, normalize, key)| > 1
  }

  /** More than one value, and not all the same. */
  predicate Ambiguous(values: seq<string>, normalize: Normalizer, key: string) {
    var group := Group(values, normalize, key);
    |group| > 1 && exists i :: 0 <= i < |group| && group[i] != group[0]
  }

  datatype Error = InvalidChoice | MissingChoice

  predicate Acceptable(values: seq<string>, normalize: Normalizer, choices: map<string, string>, choice: string) {
    var key := normalize(choice);
    Ambiguous(values, normalize, key) && choice in Group(values, normalize, key) && key !in choices
  }

  /** The choices by key, if each names one of the variants of an ambiguous group, and no group twice. */
  function ReadChoices(values: seq<string>, normalize: Normalizer, choices: seq<string>): Option<map<string, string>> {
    if choices == [] then Some(map[])
    else
      var last := choices[|choices| - 1];
      match ReadChoices(values, normalize, choices[..|choices| - 1])
      case None => None
      case Some(front) =>
        if Acceptable(values, normalize, front, last) then Some(front[normalize(last) := last]) else None
  }

  predicate AllChosen(values: seq<string>, normalize: Normalizer, chosen: map<string, string>) {
    forall i ::
      0 <= i < |values| && Ambiguous(values, normalize, normalize(values[i])) ==> normalize(values[i]) in chosen
  }

  /** The value kept for a key: the chosen one, or the first. */
  function Kept(values: seq<string>, normalize: Normalizer, chosen: map<string, string>, key: string): string {
    if key in chosen then chosen[key]
    else
      var group := Group(values, normalize, key);
      if group == [] then "" else group[0]
  }

  /** The first occurrence of the kept value of each key, among the first `n` values. */
  function Select(values: seq<string>, normalize: Normalizer, chosen: map<string, string>, n: nat): seq<string>
    requires n <= |values|
  {
    if n == 0 then []
    else
      var front, value := Select(values, normalize, chosen, n - 1), values[n - 1];
      if value == Kept(values, normalize, chosen, normalize(value)) && value !in front then front + [value] else front
  }

  /** `resolve_promotion_values`, without its notes. */
  function Resolve(values: seq<string>, normalize: Normalizer, choices: seq<string>): Result<seq<string>, Error> {
    match ReadChoices(values, normalize, choices)
    case None => Err(InvalidChoice)
    case Some(chosen) =>
      if AllChosen(values, normalize, chosen) then Ok(Select(values, normalize, chosen, |values|))
      else Err(MissingChoice)
  }

  // Groups

  lemma {:induction false} GroupHas(values: seq<string>, normalize: Normalizer, key: string)
    ensures forall v :: v in Group(values, normalize, key) <==> v in values && normalize(v) == key
  {
    if values != [] {
      GroupHas(values[..|values| - 1], normalize, key);
      assert values == values[..|values| - 1] + [values[|values| - 1]];
    }
  }

  lemma AmbiguousCollides(values: seq<string>, normalize: Normalizer, key: string)
    ensures Ambiguous(values, normalize, key)
       <==> exists v, w :: v in values && w in values && v != w && normalize(v) == normalize(w) == key
  {
    GroupHas(values, normalize, key);
    var group := Group(values, normalize, key);
    if v, w :| v in values && w in values && v != w && normalize(v) == normalize(w) == key {
      assert v in group && w in group;
      var i :| 0 <= i < |group| && group[i] == v;
      var j :| 0 <= j < |group| && group[j] == w;
      assert group[i] != group[0] || group[j] != group[0];
    }
    if Ambiguous(values, normalize, key) {
      var i :| 0 <= i < |group| && group[i] != group[0];
      assert group[i] in group && group[0] in group;
    }
  }

  // The choices

  /** Each choice is one of the values of an ambiguous key, and no two choices are about the same key. */
  ghost predicate GoodChoices(values: seq<string>, normalize: Normalizer, choices: seq<string>) {
    && (forall i :: 0 <= i < |choices| ==> choices[i] in values && Ambiguous(values, normalize, normalize(choices[i])))
    && (forall i, j :: 0 <= i < j < |choices| ==> normalize(choices[i]) != normalize(choices[j]))
  }

  ghost predicate EveryAmbiguityChosen(values: seq<string>, normalize: Normalizer, choices: seq<string>) {
    forall key :: Ambiguous(values, normalize, key) ==> exists i :: 0 <= i < |choices| && normalize(choices[i]) == key
  }

  /** The choices by key are just the choices. */
  ghost predicate Records(chosen: map<string, string>, choices: seq<string>, normalize: Normalizer) {
    && (forall key :: key in chosen ==> chosen[key] in choices && normalize(chosen[key]) == key)
    && (forall i :: 0 <= i < |choices| ==> normalize(choices[i]) in chosen)
  }

  lemma {:induction false} ChoicesRecorded(values: seq<string>, normalize: Normalizer, choices: seq<string>)
    requires ReadChoices(values, normalize, choices).Some?
    ensures Records(ReadChoices(values, normalize, choices).value, choices, normalize)
  {
    if choices != [] {
      var front, last := choices[..|choices| - 1], choices[|choices| - 1];
      assert choices == front + [last];
      ChoicesRecorded(values, normalize, front);
    }
  }

  lemma GoodChoicesStep(values: seq<string>, normalize: Normalizer, front: seq<string>, last: string)
    ensures GoodChoices(values, normalize, front + [last]) <==>
      && GoodChoices(values, normalize, front)
      && last in values && Ambiguous(values, normalize, normalize(last))
      && forall i :: 0 <= i < |front| ==> normalize(front[i]) != normalize(last)
  {
    var all := front + [last];
    if GoodChoices(values, normalize, all) {
      assert forall i :: 0 <= i < |front| ==> front[i] == all[i];
      assert all[|front|] == last;
    }
  }

  lemma NewKey(front: seq<string>, chosen: map<string, string>, normalize: Normalizer, key: string)
    requires Records(chosen, front, normalize)
    ensures key !in chosen <==> forall i :: 0 <= i < |front| ==> normalize(front[i]) != key
  {
  }

  lemma {:induction false} ChoicesReadIff(values: seq<string>, normalize: Normalizer, choices: seq<string>)
    ensures ReadChoices(values, normalize, choices).Some? <==> GoodChoices(values, normalize, choices)
  {
    if choices != [] {
      var front, last := choices[..|choices| - 1], choices[|choices| - 1];
      assert choices == front + [last];
      ChoicesReadIff(values, normalize, front);
      GroupHas(values, normalize, normalize(last));
      GoodChoicesStep(values, normalize, front, last);
      if ReadChoices(values, normalize, front).Some? {
        ChoicesRecorded(values, normalize, front);
        NewKey(front, ReadChoices(values, normalize, front).value, normalize, normalize(last));
      }
    }
  }

  lemma ReadChoicesMeaning(values: seq<string>, normalize: Normalizer, choices: seq<string>)
    ensures ReadChoices(values, normalize, choices).Some? <==> GoodChoices(values, normalize, choices)
    ensures ReadChoices(values, normalize, choices).Some? ==>
            Records(ReadChoices(values, normalize, choices).value, choices, normalize)
  {
    ChoicesReadIff(values, normalize, choices);
    if ReadChoices(values, normalize, choices).Some? {
      ChoicesRecorded(values, normalize, choices);
    }
  }

  /** Resolution succeeds exactly when the choices pick one existing variant for each ambiguous key. */
  lemma ResolvesIff(values: seq<string>, normalize: Normalizer, choices: seq<string>)
    ensures Resolve(values, normalize, choices).Ok?
       <==> GoodChoices(values, normalize, choices) && EveryAmbiguityChosen(values, normalize, choices)
    ensures Resolve(values, normalize, choices) == Err(InvalidChoice) <==> !GoodChoices(values, normalize, choices)
  {
    ReadChoicesMeaning(values, normalize, choices);
    if GoodChoices(values, normalize, choices) {
      var chosen := ReadChoices(values, normalize, choices).value;
      ChosenMeansPicked(values, normalize, choices, chosen);
    }
  }

  lemma ChosenMeansPicked(values: seq<string>, normalize: Normalizer, choices: seq<string>, chosen: map<string, string>)
    requires ReadChoices(values, normalize, choices) == Some(chosen)
    ensures AllChosen(values, normalize, chosen) <==> EveryAmbiguityChosen(values, normalize, choices)
  {
    ReadChoicesMeaning(values, normalize, choices);
    if AllChosen(values, normalize, chosen) {
      forall key | Ambiguous(values, normalize, key)
        ensures exists i :: 0 <= i < |choices| && normalize(choices[i]) == key
      {
        AmbiguousCollides(values, normalize, key);
        var v, w :| v in values && w in values && v != w && normalize(v) == normalize(w) == key;
        var k :| 0 <= k < |values| && values[k] == v;
        assert key in chosen && chosen[key] in choices;
        var i :| 0 <= i < |choices| && choices[i] == chosen[key];
      }
    }
    if EveryAmbiguityChosen(values, normalize, choices) {
      forall i | 0 <= i < |values| && Ambiguous(values, normalize, normalize(values[i]))
        ensures normalize(values[i]) in chosen
      {
        var k :| 0 <= k < |choices| && normalize(choices[k]) == normalize(values[i]);
      }
    }
  }

  // The values kept

  lemma KeptIsOfKey(
    values: seq<string>, normalize: Normalizer, choices: seq<string>, chosen: map<string, string>, value: string)
    requires ReadChoices(values, normalize, choices) == Some(chosen) && value in values
    ensures Kept(values, normalize, chosen, normalize(value)) in values
    ensures normalize(Kept(values, normalize, chosen, normalize(value))) == normalize(value)
  {
    ReadChoicesMeaning(values, normalize, choices);
    GroupHas(values, normalize, normalize(value));
    var group := Group(values, normalize, normalize(value));
    assert value in group;
    assert group[0] in group;
  }

  lemma {:induction false} SelectedAre(values: seq<string>, normalize: Normalizer, chosen: map<string, string>, n: nat)
    requires n <= |values|
    ensures forall v :: v in Select(values, normalize, chosen, n) <==>
              v in values[..n] && v == Kept(values, normalize, chosen, normalize(v))
    ensures Distinct(Select(values, normalize, chosen, n))
  {
    if n > 0 {
      SelectedAre(values, normalize, chosen, n - 1);
      assert values[..n] == values[..n - 1] + [values[n - 1]];
    }
  }

  /** `xs` is `ys` with some elements left out. */
  ghost predicate Subsequence(xs: seq<string>, ys: seq<string>) {
    if xs == [] then true
    else if ys == [] then false
    else
      (xs[|xs| - 1] == ys[|ys| - 1] && Subsequence(xs[..|xs| - 1], ys[..|ys| - 1])) || Subsequence(xs, ys[..|ys| - 1])
  }

  lemma {:induction false} SelectIsSubsequence(
    values: seq<string>, normalize: Normalizer, chosen: map<string, string>, n: nat)
    requires n <= |values|
    ensures Subsequence(Select(values, normalize, chosen, n), values[..n])
  {
    if n > 0 {
      SelectIsSubsequence(values, normalize, chosen, n - 1);
      assert values[..n][..n - 1] == values[..n - 1];
      var front, all := Select(values, normalize, chosen, n - 1), Select(values, normalize, chosen, n);
      if all != front {
        assert all[..|all| - 1] == front;
      }
    }
  }

  /** `x` was there before `y` came. */
  ghost predicate ComesBefore(values: seq<string>, x: string, y: string) {
    exists a :: 0 <= a < |values| && values[a] == x && y !in values[..a + 1]
  }

  /** The kept values stand in the order in which they first came. */
  ghost predicate AppearInOrder(kept: seq<string>, values: seq<string>) {
    forall i, j :: 0 <= i < j < |kept| ==> ComesBefore(values, kept[i], kept[j])
  }

  lemma CameBefore(values: seq<string>, x: string, n: nat)
    requires n < |values| && x in values[..n] && values[n] !in values[..n]
    ensures ComesBefore(values, x, values[n])
  {
    var a :| 0 <= a < n && values[..n][a] == x;
    assert values[..n] == values[..a + 1] + values[a + 1..n];
    assert values[a] == x && values[n] !in values[..a + 1];
  }

  lemma {:induction false} SelectedInOrder(
    values: seq<string>, normalize: Normalizer, chosen: map<string, string>, n: nat)
    requires n <= |values|
    ensures AppearInOrder(Select(values, normalize, chosen, n), values)
  {
    if n > 0 {
      SelectedInOrder(values, normalize, chosen, n - 1);
      SelectedAre(values, normalize, chosen, n - 1);
      var front, value := Select(values, normalize, chosen, n - 1), values[n - 1];
      if value == Kept(values, normalize, chosen, normalize(value)) && value !in front {
        forall i | 0 <= i < |front| ensures ComesBefore(values, front[i], value) {
          assert front[i] in front;
          CameBefore(values, front[i], n - 1);
        }
      }
    }
  }

  /** The result leaves out values of the input, keeps one for every key there was, and honours the choices. */
  lemma ResolvedKeepsOnePerKey(values: seq<string>, normalize: Normalizer, choices: seq<string>)
    requires Resolve(values, normalize, choices).Ok?
    ensures var kept := Resolve(values, normalize, choices).value;
            && Subsequence(kept, values)
            && (forall i, j :: 0 <= i < j < |kept| ==> normalize(kept[i]) != normalize(kept[j]))
            && (forall value :: value in values ==> exists k :: k in kept && normalize(k) == normalize(value))
            && (forall i :: 0 <= i < |choices| ==> choices[i] in kept)
  {
    var chosen := ReadChoices(values, normalize, choices).value;
    var kept := Select(values, normalize, chosen, |values|);
    assert values[..|values|] == values;
    SelectedAre(values, normalize, chosen, |values|);
    SelectIsSubsequence(values, normalize, chosen, |values|);
    ReadChoicesMeaning(values, normalize, choices);
    forall i, j | 0 <= i < j < |kept| ensures normalize(kept[i]) != normalize(kept[j]) {
      assert kept[i] in kept && kept[j] in kept && kept[i] != kept[j];
    }
    forall value | value in values ensures exists k :: k in kept && normalize(k) == normalize(value) {
      KeptIsOfKey(values, normalize, choices, chosen, value);
      assert Kept(values, normalize, chosen, normalize(value)) in kept;
    }
    forall i | 0 <= i < |choices| ensures choices[i] in kept {
      ChoiceIsKept(values, normalize, choices, chosen, i);
    }
  }

  /** The values kept stand in the order in which they first came. */
  lemma ResolvedInOrder(values: seq<string>, normalize: Normalizer, choices: seq<string>)
    requires Resolve(values, normalize, choices).Ok?
    ensures AppearInOrder(Resolve(values, normalize, choices).value, values)
  {
    SelectedInOrder(values, normalize, ReadChoices(values, normalize, choices).value, |values|);
  }

  lemma ChoiceIsKept(
    values: seq<string>, normalize: Normalizer, choices: seq<string>, chosen: map<string, string>, i: nat)
    requires ReadChoices(values, normalize, choices) == Some(chosen) && i < |choices|
    ensures choices[i] in values && Kept(values, normalize, chosen, normalize(choices[i])) == choices[i]
  {
    ReadChoicesMeaning(values, normalize, choices);
    var key := normalize(choices[i]);
    var k :| 0 <= k < |choices| && choices[k] == chosen[key];
    assert k == i;
  }

  // The loops

  lemma {:induction false} ReadFails(values: seq<string>, normalize: Normalizer, choices: seq<string>, m: nat)
    requires m <= |choices| && ReadChoices(values, normalize, choices[..m]).None?
    ensures ReadChoices(values, normalize, choices).None?
  {
    if m < |choices| {
      assert choices[..|choices| - 1][..m] == choices[..m];
      ReadFails(values, normalize, choices[..|choices| - 1], m);
    } else {
      assert choices[..m] == choices;
    }
  }

  lemma {:induction false} TwiceInGroup(values: seq<string>, normalize: Normalizer, i: nat, j: nat)
    requires i < j < |values| && normalize(values[i]) == normalize(values[j])
    ensures |Group(values, normalize, normalize(values[i]))| > 1
  {
    var front := values[..|values| - 1];
    if j < |front| {
      TwiceInGroup(front, normalize, i, j);
    } else {
      GroupHas(front, normalize, normalize(values[i]));
      assert front[i] in front;
    }
  }

  lemma ChosenIsAmbiguous(
    values: seq<string>, normalize: Normalizer, choices: seq<string>, chosen: map<string, string>, key: string)
    requires ReadChoices(values, normalize, choices) == Some(chosen) && key in chosen
    ensures Ambiguous(values, normalize, key)
  {
    ReadChoicesMeaning(values, normalize, choices);
    var k :| 0 <= k < |choices| && choices[k] == chosen[key];
  }

  /** The only value of its key is kept, and was not met before. */
  lemma LoneValue(values: seq<string>, normalize: Normalizer, choices: seq<string>, chosen: map<string, string>, i: nat)
    requires ReadChoices(values, normalize, choices) == Some(chosen) && i < |values|
    requires !Collides(values, normalize, normalize(values[i]))
    ensures Kept(values, normalize, chosen, normalize(values[i])) == values[i]
    ensures values[i] !in values[..i]
  {
    var key := normalize(values[i]);
    ReadChoicesMeaning(values, normalize, choices);
    GroupHas(values, normalize, key);
    assert values[i] in Group(values, normalize, key);
    if key in chosen {
      ChosenIsAmbiguous(values, normalize, choices, chosen, key);
    }
    if values[i] in values[..i] {
      var j :| 0 <= j < i && values[j] == values[i];
      TwiceInGroup(values, normalize, j, i);
    }
  }

  /** The selected values with colliding keys are those whose keys were marked. */
  ghost predicate Marks(keys: set<string>, selected: seq<string>, values: seq<string>, normalize: Normalizer) {
    && (forall v :: v in selected && Collides(values, normalize, normalize(v)) ==> normalize(v) in keys)
    && (forall key ::
       key in keys ==> Collides(values, normalize, key) && exists v :: v in selected && normalize(v) == key)
  }

  method ResolvePromotionValues(values: seq<string>, normalize: Normalizer, collisionChoices: seq<string>)
    returns (resolved: Result<seq<string>, Error>)
    ensures resolved == Resolve(values, normalize, collisionChoices)
  {
    var chosen: map<string, string> := map[];
    for i := 0 to |collisionChoices|
      invariant ReadChoices(values, normalize, collisionChoices[..i]) == Some(chosen)
    {
      var choice := collisionChoices[i];
      assert collisionChoices[..i + 1][..i] == collisionChoices[..i];
      if !Acceptable(values, normalize, chosen, choice) {
        ReadFails(values, normalize, collisionChoices, i + 1);
        return Err(InvalidChoice);
      }
      chosen := chosen[normalize(choice) := choice];
    }
    assert collisionChoices[..|collisionChoices|] == collisionChoices;
    if !AllChosen(values, normalize, chosen) {
      return Err(MissingChoice);
    }
    var selected := SelectValues(values, normalize, collisionChoices, chosen);
    resolved := Ok(selected);
  }

  lemma MarksLone(keys: set<string>, selected: seq<string>, value: string, values: seq<string>, normalize: Normalizer)
    requires Marks(keys, selected, values, normalize) && !Collides(values, normalize, normalize(value))
    ensures Marks(keys, selected + [value], values, normalize)
  {
  }

  lemma MarksKept(keys: set<string>, selected: seq<string>, value: string, values: seq<string>, normalize: Normalizer)
    requires Marks(keys, selected, values, normalize) && Collides(values, normalize, normalize(value))
    ensures Marks(keys + {normalize(value)}, selected + [value], values, normalize)
  {
  }

  /** A marked key's kept value is selected already; an unmarked colliding key's is not. */
  lemma MarkTells(values: seq<string>, normalize: Normalizer, chosen: map<string, string>, keys: set<string>, i: nat)
    requires i < |values| && Collides(values, normalize, normalize(values[i]))
    requires Marks(keys, Select(values, normalize, chosen, i), values, normalize)
    requires values[i] == Kept(values, normalize, chosen, normalize(values[i]))
    ensures normalize(values[i]) in keys <==> values[i] in Select(values, normalize, chosen, i)
  {
    SelectedAre(values, normalize, chosen, i);
    var selected := Select(values, normalize, chosen, i);
    if normalize(values[i]) in keys {
      var v :| v in selected && normalize(v) == normalize(values[i]);
    }
  }

  /** The selection loop: a marked key takes no further value. */
  method SelectValues(
    values: seq<string>, normalize: Normalizer, ghost choices: seq<string>, chosen: map<string, string>)
    returns (selected: seq<string>)
    requires ReadChoices(values, normalize, choices) == Some(chosen)
    ensures selected == Select(values, normalize, chosen, |values|)
  {
    selected := [];
    var selectedKeys: set<string> := {};
    for i := 0 to |values|
      invariant selected == Select(values, normalize, chosen, i)
      invariant Marks(selectedKeys, selected, values, normalize)
    {
      var value := values[i];
      var key := normalize(value);
      if !Collides(values, normalize, key) {
        LoneValue(values, normalize, choices, chosen, i);
        SelectedAre(values, normalize, chosen, i);
        MarksLone(selectedKeys, selected, value, values, normalize);
        selected := selected + [value];
        continue;
      }
      if value == Kept(values, normalize, chosen, key) {
        MarkTells(values, normalize, chosen, selectedKeys, i);
      }
      if key !in selectedKeys {
        if value == Kept(values, normalize, chosen, key) {
          MarksKept(selectedKeys, selected, value, values, normalize);
          selected := selected + [value];
          selectedKeys := selectedKeys + {key};
        }
      }
    }
  }

  // Terms

  datatype TermError = EmptyTerm | DuplicateTerm | NoTerms

  /** How a term is normalized: trimming first changes nothing. */
  ghost predicate TrimFirst(normalize: Normalizer, strip: Normalizer) {
    forall value :: normalize(strip(value)) == normalize(value)
  }

  datatype Term = Term(value: string, normalized: string)

  function Normals(terms: seq<Term>): set<string> {
    set k | 0 <= k < |terms| :: terms[k].normalized
  }

  /** The terms of the first `n` values, or the first error. */
  function PrepareTerms(
    values: seq<string>, n: nat, normalize: Normalizer, strip: Normalizer): Result<seq<Term>, TermError>
    requires n <= |values|
  {
    if n == 0 then Ok([])
    else
      match PrepareTerms(values, n - 1, normalize, strip)
      case Err(error) => Err(error)
      case Ok(front) =>
        var literal := strip(values[n - 1]);
        if literal == "" then Err(EmptyTerm)
        else if normalize(literal) in Normals(front) then Err(DuplicateTerm)
        else Ok(front + [Term(literal, normalize(literal))])
  }

  /** `prepare_terms`. */
  function Prepared(values: seq<string>, normalize: Normalizer, strip: Normalizer): Result<seq<Term>, TermError> {
    match PrepareTerms(values, |values|, normalize, strip)
    case Err(error) => Err(error)
    case Ok(terms) => if terms == [] then Err(NoTerms) else Ok(terms)
  }

  method PrepareControlledTerms(
    values: seq<string>, normalize: Normalizer, strip: Normalizer) returns (prepared: Result<seq<Term>, TermError>)
    ensures prepared == Prepared(values, normalize, strip)
  {
    var terms: seq<Term> := [];
    var seen: set<string> := {};
    for i := 0 to |values|
      invariant PrepareTerms(values, i, normalize, strip) == Ok(terms)
      invariant seen == Normals(terms)
    {
      var literal := strip(values[i]);
      var normalized := normalize(literal);
      if literal == "" {
        PrepareFails(values, i + 1, |values|, normalize, strip);
        return Err(EmptyTerm);
      }
      if normalized in seen {
        PrepareFails(values, i + 1, |values|, normalize, strip);
        return Err(DuplicateTerm);
      }
      SeenOneMore(terms, Term(literal, normalized));
      terms := terms + [Term(literal, normalized)];
      seen := seen + {normalized};
    }
    prepared := if terms == [] then Err(NoTerms) else Ok(terms);
  }

  lemma SeenOneMore(terms: seq<Term>, term: Term)
    ensures Normals(terms + [term]) == Normals(terms) + {term.normalized}
  {
    var more := terms + [term];
    assert forall k :: 0 <= k < |terms| ==> more[k] == terms[k];
    assert more[|terms|] == term;
  }

  lemma {:induction false} PrepareFails(values: seq<string>, m: nat, n: nat, normalize: Normalizer, strip: Normalizer)
    requires m <= n <= |values| && PrepareTerms(values, m, normalize, strip).Err?
    ensures PrepareTerms(values, n, normalize, strip) == PrepareTerms(values, m, normalize, strip)
  {
    if m < n {
      PrepareFails(values, m, n - 1, normalize, strip);
    }
  }

  lemma {:induction false} DistinctKeysPrepare(values: seq<string>, n: nat, normalize: Normalizer, strip: Normalizer)
    requires TrimFirst(normalize, strip) && n <= |values|
    requires forall i, j :: 0 <= i < j < |values| ==> normalize(values[i]) != normalize(values[j])
    ensures match PrepareTerms(values, n, normalize, strip)
            case Err(error) => error == EmptyTerm && exists i :: 0 <= i < n && strip(values[i]) == ""
            case Ok(terms) =>
              && |terms| == n
              && forall i ::
                 0 <= i < n ==> strip(values[i]) != "" && terms[i] == Term(strip(values[i]), normalize(values[i]))
  {
    if n > 0 {
      DistinctKeysPrepare(values, n - 1, normalize, strip);
      assert normalize(strip(values[n - 1])) == normalize(values[n - 1]);
    }
  }

  /** The first `n` values are not blank, and no two of them have the same key. */
  ghost predicate FineUpTo(values: seq<string>, n: nat, normalize: Normalizer, strip: Normalizer)
    requires n <= |values|
  {
    && (forall i :: 0 <= i < n ==> strip(values[i]) != "")
    && (forall i, j :: 0 <= i < j < n ==> normalize(strip(values[i])) != normalize(strip(values[j])))
  }

  ghost predicate BlankAt(values: seq<string>, i: int, strip: Normalizer) {
    0 <= i < |values| && strip(values[i]) == ""
  }

  ghost predicate RepeatedAt(values: seq<string>, i: int, normalize: Normalizer, strip: Normalizer) {
    && 0 <= i < |values| && strip(values[i]) != ""
    && exists j :: 0 <= j < i && normalize(strip(values[j])) == normalize(strip(values[i]))
  }

  lemma {:induction false} PreparesFirst(values: seq<string>, n: nat, normalize: Normalizer, strip: Normalizer)
    requires n <= |values|
    ensures match PrepareTerms(values, n, normalize, strip)
            case Ok(terms) =>
              && FineUpTo(values, n, normalize, strip)
              && |terms| == n
              && forall i :: 0 <= i < n ==> terms[i] == Term(strip(values[i]), normalize(strip(values[i])))
            case Err(EmptyTerm) =>
              exists i :: BlankAt(values, i, strip) && FineUpTo(values, i, normalize, strip)
            case Err(DuplicateTerm) =>
              exists i :: RepeatedAt(values, i, normalize, strip) && FineUpTo(values, i, normalize, strip)
            case Err(NoTerms) => false
  {
    if n > 0 {
      PreparesFirst(values, n - 1, normalize, strip);
      if PrepareTerms(values, n - 1, normalize, strip).Ok? {
        var front := PrepareTerms(values, n - 1, normalize, strip).value;
        assert FineUpTo(values, n - 1, normalize, strip);
        assert BlankAt(values, n - 1, strip) || strip(values[n - 1]) != "";
        if strip(values[n - 1]) != "" && normalize(strip(values[n - 1])) in Normals(front) {
          assert RepeatedAt(values, n - 1, normalize, strip);
        }
      }
    }
  }

  /** Every value is prepared, or the first that is blank or repeats a key is what fails. */
  lemma PreparesIff(values: seq<string>, normalize: Normalizer, strip: Normalizer)
    ensures match Prepared(values, normalize, strip)
            case Ok(terms) =>
              && values != [] && FineUpTo(values, |values|, normalize, strip)
              && |terms| == |values|
              && forall i :: 0 <= i < |values| ==> terms[i] == Term(strip(values[i]), normalize(strip(values[i])))
            case Err(EmptyTerm) => exists i :: BlankAt(values, i, strip) && FineUpTo(values, i, normalize, strip)
            case Err(DuplicateTerm) =>
              exists i :: RepeatedAt(values, i, normalize, strip) && FineUpTo(values, i, normalize, strip)
            case Err(NoTerms) => values == []
  {
    PreparesFirst(values, |values|, normalize, strip);
  }

  /** On resolved values, preparing the terms never finds a duplicate: it fails only for blank values or none at all. */
  lemma ResolvedValuesPrepare(values: seq<string>, normalize: Normalizer, strip: Normalizer, choices: seq<string>)
    requires TrimFirst(normalize, strip) && Resolve(values, normalize, choices).Ok?
    ensures var kept := Resolve(values, normalize, choices).value;
            match Prepared(kept, normalize, strip)
            case Ok(terms) =>
              |terms| == |kept| && forall i :: 0 <= i < |kept| ==> terms[i] == Term(strip(kept[i]), normalize(kept[i]))
            case Err(EmptyTerm) => exists i :: 0 <= i < |kept| && strip(kept[i]) == ""
            case Err(NoTerms) => values == []
            case Err(DuplicateTerm) => false
  {
    var kept := Resolve(values, normalize, choices).value;
    ResolvedKeepsOnePerKey(values, normalize, choices);
    DistinctKeysPrepare(kept, |kept|, normalize, strip);
    assert |values| > 0 ==> values[0] in values;
  }
}
