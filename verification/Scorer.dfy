/** The evaluation scorer: greedy one-to-one matching of proposed candidates with expected ones. */
module Scorer {
  import opened JsonValues
  import opened Ordering

  datatype Rule = Verbatim | UnicodeWhitespace | CasefoldIfContractAllows | ClosedAliasSet

  datatype Policy = ExactRange | RangeWithinGold

  datatype Range = Range(sourceId: string, start: int, end: int)

  datatype Gold = Gold(
    rule: Rule,
    acceptedValues: seq<string>,
    intent: Option<string>,
    bindingId: Option<string>,
    groundingRequired: bool,
    sourceRefsAllowed: set<string>,
    acceptedRanges: seq<Range>,
    policy: Policy)

  datatype Candidate = Candidate(
    value: string, intent: Option<string>, bindingId: Option<string>, sourceRefs: set<string>, ranges: seq<Range>)

  /** Unicode normalization and case folding are whatever the runtime makes of them. */
  type Normalizer = (string, Rule) -> string

  predicate ValueMatches(normalize: Normalizer, gold: Gold, candidate: Candidate) {
    exists i :: 0 <= i < |gold.acceptedValues|
      && normalize(gold.acceptedValues[i], gold.rule) == normalize(candidate.value, gold.rule)
  }

  predicate RangeAccepted(gold: Gold, range: Range) {
    match gold.policy
    case ExactRange => range in gold.acceptedRanges
    case RangeWithinGold =>
      exists i :: 0 <= i < |gold.acceptedRanges|
        && range.sourceId == gold.acceptedRanges[i].sourceId
        && range.start >= gold.acceptedRanges[i].start
        && range.end <= gold.acceptedRanges[i].end
  }

  predicate GroundingMatches(gold: Gold, candidate: Candidate) {
    gold.groundingRequired ==>
      && candidate.sourceRefs != {}
      && candidate.sourceRefs <= gold.sourceRefsAllowed
      && exists i :: 0 <= i < |candidate.ranges| && RangeAccepted(gold, candidate.ranges[i])
  }

  predicate Authoritative(normalize: Normalizer, gold: Gold, candidate: Candidate) {
    && ValueMatches(normalize, gold, candidate)
    && candidate.intent == gold.intent
    && candidate.bindingId == gold.bindingId
    && GroundingMatches(gold, candidate)
  }

  datatype Code = WrongBinding | BadGrounding | UnsupportedValue | MissingExpectedCandidate

  function MatchErrors(gold: Gold, candidate: Candidate): seq<Code> {
    (if candidate.bindingId != gold.bindingId then [WrongBinding] else [])
    + (if GroundingMatches(gold, candidate) then [] else [BadGrounding])
  }

  /** The value and intent are right, but the binding or the grounding is not. */
  predicate Diagnostic(normalize: Normalizer, gold: Gold, candidate: Candidate) {
    && ValueMatches(normalize, gold, candidate)
    && candidate.intent == gold.intent
    && MatchErrors(gold, candidate) != []
  }

  // Greedy matching

  datatype Pair = Pair(expected: nat, proposed: nat)

  function ExpectedOf(pairs: seq<Pair>): set<nat> {
    set i | 0 <= i < |pairs| :: pairs[i].expected
  }

  function ProposedOf(pairs: seq<Pair>): set<nat> {
    set i | 0 <= i < |pairs| :: pairs[i].proposed
  }

  type Relation = (nat, nat) -> bool

  /** The first of the expected `from..m` that is free and fits proposal `p`. */
  function FirstFree(m: nat, used: set<nat>, p: nat, fits: Relation, from: nat): Option<nat>
    decreases m - from
  {
    if from >= m then None
    else if from !in used && fits(from, p) then Some(from)
    else FirstFree(m, used, p, fits, from + 1)
  }

  /** The pairs after the first `n` proposals took, in turn, the first free expected candidate that fits. */
  function Greedy(n: nat, m: nat, skip: set<nat>, fits: Relation): seq<Pair> {
    if n == 0 then []
    else
      var front := Greedy(n - 1, m, skip, fits);
      if n - 1 in skip then front
      else
        match FirstFree(m, ExpectedOf(front), n - 1, fits, 0)
        case Some(e) => front + [Pair(e, n - 1)]
        case None => front
  }

  /** The nested loops of `score_case`, one pass of them. */
  method MatchGreedily(n: nat, m: nat, skip: set<nat>, fits: Relation) returns (pairs: seq<Pair>)
    ensures pairs == Greedy(n, m, skip, fits)
  {
    pairs := [];
    var used: set<nat> := {};
    for p := 0 to n
      invariant pairs == Greedy(p, m, skip, fits)
      invariant used == ExpectedOf(pairs)
    {
      if p in skip {
        continue;
      }
      ghost var front := pairs;
      var found: Option<nat> := None;
      for e := 0 to m
        invariant found == None
        invariant FirstFree(m, used, p, fits, 0) == FirstFree(m, used, p, fits, e)
      {
        if e in used {
          continue;
        }
        if fits(e, p) {
          found := Some(e);
          break;
        }
      }
      if found.Some? {
        pairs := pairs + [Pair(found.value, p)];
        used := used + {found.value};
        ExpectedOneMore(front, Pair(found.value, p));
      }
    }
  }

  lemma ExpectedOneMore(pairs: seq<Pair>, pair: Pair)
    ensures ExpectedOf(pairs + [pair]) == ExpectedOf(pairs) + {pair.expected}
    ensures ProposedOf(pairs + [pair]) == ProposedOf(pairs) + {pair.proposed}
  {
    var more := pairs + [pair];
    assert forall i :: 0 <= i < |pairs| ==> more[i] == pairs[i];
    assert more[|pairs|] == pair;
  }

  lemma {:induction false} FirstFreeMeaning(m: nat, used: set<nat>, p: nat, fits: Relation, from: nat)
    requires from <= m
    ensures match FirstFree(m, used, p, fits, from)
            case Some(e) => from <= e < m && e !in used && fits(e, p)
            case None => forall e :: from <= e < m ==> e in used || !fits(e, p)
    decreases m - from
  {
    if from < m {
      FirstFreeMeaning(m, used, p, fits, from + 1);
    }
  }

  ghost predicate OneToOne(pairs: seq<Pair>) {
    forall i, j :: 0 <= i < j < |pairs| ==>
      pairs[i].expected != pairs[j].expected && pairs[i].proposed != pairs[j].proposed
  }

  /** Every pair fits and none is skipped; no expected candidate and no proposal is in two pairs. */
  ghost predicate Matching(pairs: seq<Pair>, n: nat, m: nat, skip: set<nat>, fits: Relation) {
    && (forall i :: 0 <= i < |pairs| ==>
          pairs[i].expected < m && pairs[i].proposed < n && pairs[i].proposed !in skip
          && fits(pairs[i].expected, pairs[i].proposed))
    && OneToOne(pairs)
  }

  /** No fitting pair is left with both sides free. */
  ghost predicate Maximal(pairs: seq<Pair>, n: nat, m: nat, skip: set<nat>, fits: Relation) {
    forall e, p ::
      0 <= e < m && 0 <= p < n && p !in skip && fits(e, p) ==> e in ExpectedOf(pairs) || p in ProposedOf(pairs)
  }

  lemma {:induction false} GreedyMatches(n: nat, m: nat, skip: set<nat>, fits: Relation)
    ensures Matching(Greedy(n, m, skip, fits), n, m, skip, fits)
  {
    if n > 0 {
      GreedyMatches(n - 1, m, skip, fits);
      var front := Greedy(n - 1, m, skip, fits);
      FirstFreeMeaning(m, ExpectedOf(front), n - 1, fits, 0);
      forall i | 0 <= i < |front| ensures front[i].expected in ExpectedOf(front) {
      }
    }
  }

  lemma {:induction false} GreedyIsMaximal(n: nat, m: nat, skip: set<nat>, fits: Relation)
    ensures Maximal(Greedy(n, m, skip, fits), n, m, skip, fits)
  {
    if n > 0 {
      GreedyIsMaximal(n - 1, m, skip, fits);
      var front, all := Greedy(n - 1, m, skip, fits), Greedy(n, m, skip, fits);
      FirstFreeMeaning(m, ExpectedOf(front), n - 1, fits, 0);
      if all != front {
        ExpectedOneMore(front, all[|front|]);
      }
      forall e, p | 0 <= e < m && 0 <= p < n && p !in skip && fits(e, p)
        ensures e in ExpectedOf(all) || p in ProposedOf(all)
      {
        assert p < n - 1 ==> e in ExpectedOf(front) || p in ProposedOf(front);
      }
    }
  }

  lemma {:induction false} SidesCount(pairs: seq<Pair>)
    requires OneToOne(pairs)
    ensures |ExpectedOf(pairs)| == |ProposedOf(pairs)| == |pairs|
  {
    if pairs != [] {
      var front, last := pairs[..|pairs| - 1], pairs[|pairs| - 1];
      SidesCount(front);
      assert pairs == front + [last];
      ExpectedOneMore(front, last);
      assert last.expected !in ExpectedOf(front);
      assert last.proposed !in ProposedOf(front);
    }
  }

  /** Pairs with distinct expected sides, all in `side`, are no more than `side` has elements. */
  lemma {:induction false} AtMostPerExpected(pairs: seq<Pair>, side: set<nat>)
    requires forall i, j :: 0 <= i < j < |pairs| ==> pairs[i].expected != pairs[j].expected
    requires forall i :: 0 <= i < |pairs| ==> pairs[i].expected in side
    ensures |pairs| <= |side|
  {
    if pairs != [] {
      var front, last := pairs[..|pairs| - 1], pairs[|pairs| - 1];
      AtMostPerExpected(front, side - {last.expected});
    }
  }

  lemma {:induction false} AtMostPerProposed(pairs: seq<Pair>, side: set<nat>)
    requires forall i, j :: 0 <= i < j < |pairs| ==> pairs[i].proposed != pairs[j].proposed
    requires forall i :: 0 <= i < |pairs| ==> pairs[i].proposed in side
    ensures |pairs| <= |side|
  {
    if pairs != [] {
      var front, last := pairs[..|pairs| - 1], pairs[|pairs| - 1];
      AtMostPerProposed(front, side - {last.proposed});
    }
  }

  /** The pairs whose expected side is used, and the others. */
  function Split(pairs: seq<Pair>, used: set<nat>, inside: bool): seq<Pair> {
    if pairs == [] then []
    else
      var last := pairs[|pairs| - 1];
      Split(pairs[..|pairs| - 1], used, inside) + if (last.expected in used) == inside then [last] else []
  }

  lemma {:induction false} SplitCounts(pairs: seq<Pair>, used: set<nat>)
    ensures |pairs| == |Split(pairs, used, true)| + |Split(pairs, used, false)|
  {
    if pairs != [] {
      SplitCounts(pairs[..|pairs| - 1], used);
    }
  }

  lemma {:induction false} SplitHas(pairs: seq<Pair>, used: set<nat>, inside: bool)
    ensures forall x :: x in Split(pairs, used, inside) ==> x in pairs && (x.expected in used) == inside
  {
    if pairs != [] {
      SplitHas(pairs[..|pairs| - 1], used, inside);
      assert pairs == pairs[..|pairs| - 1] + [pairs[|pairs| - 1]];
    }
  }

  lemma {:induction false} SplitIsOneToOne(pairs: seq<Pair>, used: set<nat>, inside: bool)
    requires OneToOne(pairs)
    ensures OneToOne(Split(pairs, used, inside))
  {
    if pairs != [] {
      var front, last := pairs[..|pairs| - 1], pairs[|pairs| - 1];
      SplitIsOneToOne(front, used, inside);
      SplitHas(front, used, inside);
      var part := Split(front, used, inside);
      forall i | 0 <= i < |part| ensures part[i].expected != last.expected && part[i].proposed != last.proposed {
        assert part[i] in front;
        var k :| 0 <= k < |front| && front[k] == part[i];
        assert pairs[k].expected != pairs[|front|].expected;
      }
    }
  }

  /** A greedy matching has at least half the pairs of any other. */
  lemma AnyMatchingAtMostTwice(greedy: seq<Pair>, other: seq<Pair>, n: nat, m: nat, skip: set<nat>, fits: Relation)
    requires Matching(greedy, n, m, skip, fits) && Maximal(greedy, n, m, skip, fits)
             && Matching(other, n, m, skip, fits)
    ensures |other| <= 2 * |greedy|
  {
    var used := ExpectedOf(greedy);
    var a, b := Split(other, used, true), Split(other, used, false);
    SplitCounts(other, used);
    SplitHas(other, used, true);
    SplitHas(other, used, false);
    SplitIsOneToOne(other, used, true);
    SplitIsOneToOne(other, used, false);
    SidesCount(greedy);
    forall i | 0 <= i < |a| ensures a[i].expected in used {
      assert a[i] in a;
    }
    forall i | 0 <= i < |b| ensures b[i].proposed in ProposedOf(greedy) {
      assert b[i] in b;
      assert b[i] in other;
    }
    AtMostPerExpected(a, used);
    AtMostPerProposed(b, ProposedOf(greedy));
  }

  // The score of a case

  datatype Case = Case(
    expected: seq<Gold>,
    proposed: seq<Candidate>,
    recallApplicable: bool,
    abstentionBindings: set<string>,
    prohibitedValues: set<string>)

  datatype Error = Error(code: Code, proposed: Option<nat>, expected: Option<nat>)

  datatype Score = Score(
    tp: nat, fp: int, fn: int, bindingCorrect: nat, bindingEvaluable: nat, unsupported: nat, errors: seq<Error>)

  function AuthoritativeFit(normalize: Normalizer, c: Case): Relation {
    (e: nat, p: nat) => e < |c.expected| && p < |c.proposed| && Authoritative(normalize, c.expected[e], c.proposed[p])
  }

  function DiagnosticFit(normalize: Normalizer, c: Case): Relation {
    (e: nat, p: nat) => e < |c.expected| && p < |c.proposed| && Diagnostic(normalize, c.expected[e], c.proposed[p])
  }

  function TruePairs(normalize: Normalizer, c: Case): seq<Pair> {
    Greedy(|c.proposed|, |c.expected|, {}, AuthoritativeFit(normalize, c))
  }

  function DiagnosticPairs(normalize: Normalizer, c: Case): seq<Pair> {
    Greedy(|c.proposed|, |c.expected|, ProposedOf(TruePairs(normalize, c)), DiagnosticFit(normalize, c))
  }

  function ErrorsOfPair(c: Case, pair: Pair): seq<Error> {
    if pair.expected < |c.expected| && pair.proposed < |c.proposed| then
      var codes := MatchErrors(c.expected[pair.expected], c.proposed[pair.proposed]);
      seq(|codes|, i requires 0 <= i < |codes| => Error(codes[i], Some(pair.proposed), Some(pair.expected)))
    else []
  }

  function MatchedErrors(c: Case, pairs: seq<Pair>): seq<Error> {
    if pairs == [] then [] else MatchedErrors(c, pairs[..|pairs| - 1]) + ErrorsOfPair(c, pairs[|pairs| - 1])
  }

  /** One error for every index below `n` that is not among the explained ones. */
  function Unexplained(n: nat, explained: set<nat>, error: nat -> Error): seq<Error> {
    if n == 0 then [] else Unexplained(n - 1, explained, error) + if n - 1 in explained then [] else [error(n - 1)]
  }

  function UnsupportedAt(): nat -> Error {
    (p: nat) => Error(UnsupportedValue, Some(p), None)
  }

  function MissingAt(): nat -> Error {
    (e: nat) => Error(MissingExpectedCandidate, None, Some(e))
  }

  function CountCode(errors: seq<Error>, code: Code): nat {
    if errors == [] then 0
    else CountCode(errors[..|errors| - 1], code) + if errors[|errors| - 1].code == code then 1 else 0
  }

  /** The proposal is for a binding on which nothing should be proposed. */
  predicate Abstained(c: Case, p: nat)
    requires p < |c.proposed|
  {
    c.proposed[p].bindingId.Some? && c.proposed[p].bindingId.value in c.abstentionBindings
  }

  predicate Prohibited(c: Case, p: nat)
    requires p < |c.proposed|
  {
    c.proposed[p].value in c.prohibitedValues
  }

  /** Candidates proposed for a binding to abstain on, and candidates of a prohibited value; one may be both. */
  function CountUnsupported(c: Case, n: nat): nat
    requires n <= |c.proposed|
  {
    if n == 0 then 0
    else
      CountUnsupported(c, n - 1)
      + (if Abstained(c, n - 1) then 1 else 0)
      + (if Prohibited(c, n - 1) then 1 else 0)
  }

  /** How many of the pairs have, or have not, the expected binding. */
  function CountBound(c: Case, pairs: seq<Pair>, bound: bool): nat {
    if pairs == [] then 0
    else
      var last := pairs[|pairs| - 1];
      CountBound(c, pairs[..|pairs| - 1], bound) + if BindingOk(c, last) == bound then 1 else 0
  }

  predicate BindingOk(c: Case, pair: Pair) {
    pair.expected < |c.expected| && pair.proposed < |c.proposed|
    && c.proposed[pair.proposed].bindingId == c.expected[pair.expected].bindingId
  }

  function ScoreErrors(c: Case, truePairs: seq<Pair>, diagnostics: seq<Pair>): seq<Error> {
    MatchedErrors(c, diagnostics)
    + Unexplained(|c.proposed|, ProposedOf(truePairs) + ProposedOf(diagnostics), UnsupportedAt())
    + if c.recallApplicable then Unexplained(|c.expected|, ExpectedOf(truePairs), MissingAt()) else []
  }

  function ScoreOf(normalize: Normalizer, c: Case): Score {
    var truePairs, diagnostics := TruePairs(normalize, c), DiagnosticPairs(normalize, c);
    var tp := |truePairs|;
    Score(
      tp,
      |c.proposed| - tp,
      if c.recallApplicable then |c.expected| - tp else 0,
      CountBound(c, truePairs, true),
      tp + CountBound(c, diagnostics, false),
      CountUnsupported(c, |c.proposed|),
      ScoreErrors(c, truePairs, diagnostics))
  }

  method CollectErrors(c: Case, truePairs: seq<Pair>, diagnostics: seq<Pair>) returns (errors: seq<Error>)
    ensures errors == ScoreErrors(c, truePairs, diagnostics)
  {
    errors := [];
    for i := 0 to |diagnostics|
      invariant errors == MatchedErrors(c, diagnostics[..i])
    {
      assert diagnostics[..i + 1][..i] == diagnostics[..i];
      errors := errors + ErrorsOfPair(c, diagnostics[i]);
    }
    assert diagnostics[..|diagnostics|] == diagnostics;
    var unsupported := ErrorsAt(|c.proposed|, ProposedOf(truePairs) + ProposedOf(diagnostics), UnsupportedAt());
    errors := errors + unsupported;
    if c.recallApplicable {
      var missing := ErrorsAt(|c.expected|, ExpectedOf(truePairs), MissingAt());
      errors := errors + missing;
    }
  }

  method ErrorsAt(n: nat, explained: set<nat>, error: nat -> Error) returns (errors: seq<Error>)
    ensures errors == Unexplained(n, explained, error)
  {
    errors := [];
    for i := 0 to n
      invariant errors == Unexplained(i, explained, error)
    {
      if i !in explained {
        errors := errors + [error(i)];
      }
    }
  }

  method SumUnsupported(c: Case) returns (unsupported: nat)
    ensures unsupported == CountUnsupported(c, |c.proposed|)
  {
    unsupported := 0;
    for p := 0 to |c.proposed|
      invariant unsupported == CountUnsupported(c, p)
    {
      if Abstained(c, p) {
        unsupported := unsupported + 1;
      }
      if Prohibited(c, p) {
        unsupported := unsupported + 1;
      }
    }
  }

  method SumBound(c: Case, pairs: seq<Pair>, bound: bool) returns (count: nat)
    ensures count == CountBound(c, pairs, bound)
  {
    count := 0;
    for i := 0 to |pairs|
      invariant count == CountBound(c, pairs[..i], bound)
    {
      assert pairs[..i + 1][..i] == pairs[..i];
      if BindingOk(c, pairs[i]) == bound {
        count := count + 1;
      }
    }
    assert pairs[..|pairs|] == pairs;
  }

  /** `score_case`. */
  method ScoreCase(normalize: Normalizer, c: Case) returns (score: Score)
    ensures score == ScoreOf(normalize, c)
  {
    var truePairs := MatchGreedily(|c.proposed|, |c.expected|, {}, AuthoritativeFit(normalize, c));
    var diagnostics := MatchGreedily(|c.proposed|, |c.expected|, ProposedOf(truePairs), DiagnosticFit(normalize, c));
    var errors := CollectErrors(c, truePairs, diagnostics);
    var unsupported := SumUnsupported(c);
    var correct := SumBound(c, truePairs, true);
    var wrong := SumBound(c, diagnostics, false);
    var tp := |truePairs|;
    score := Score(
      tp, |c.proposed| - tp, if c.recallApplicable then |c.expected| - tp else 0, correct, tp + wrong, unsupported,
      errors);
  }

  // The books balance

  lemma {:induction false} CountConcat(a: seq<Error>, b: seq<Error>, code: Code)
    ensures CountCode(a + b, code) == CountCode(a, code) + CountCode(b, code)
  {
    if b == [] {
      assert a + b == a;
    } else {
      assert (a + b)[..|a + b| - 1] == a + b[..|b| - 1];
      CountConcat(a, b[..|b| - 1], code);
    }
  }

  ghost predicate Below(s: set<nat>, n: nat) {
    forall x :: x in s ==> x < n
  }

  lemma {:induction false} BelowCount(s: set<nat>, n: nat)
    requires Below(s, n)
    ensures |s| <= n
  {
    if n > 0 {
      BelowCount(s - {n - 1}, n - 1);
    } else {
      assert s == {};
    }
  }

  /** As many are left unexplained as are not explained. */
  lemma {:induction false} UnexplainedCount(n: nat, explained: set<nat>, error: nat -> Error, code: Code)
    requires Below(explained, n) && forall x :: error(x).code == code
    ensures CountCode(Unexplained(n, explained, error), code) == n - |explained|
  {
    if n > 0 {
      var before := explained - {n - 1};
      UnexplainedSame(n - 1, before, explained, error);
      UnexplainedCount(n - 1, before, error, code);
      assert |explained| == |before| + if n - 1 in explained then 1 else 0;
      CountConcat(Unexplained(n - 1, explained, error), if n - 1 in explained then [] else [error(n - 1)], code);
      assert [error(n - 1)][..0] == [];
    } else {
      assert explained == {};
    }
  }

  lemma {:induction false} UnexplainedSame(n: nat, a: set<nat>, b: set<nat>, error: nat -> Error)
    requires forall x :: x < n ==> (x in a <==> x in b)
    ensures Unexplained(n, a, error) == Unexplained(n, b, error)
  {
    if n > 0 {
      UnexplainedSame(n - 1, a, b, error);
    }
  }

  lemma {:induction false} UnexplainedOnly(n: nat, explained: set<nat>, error: nat -> Error, other: Code)
    requires forall x :: error(x).code != other
    ensures CountCode(Unexplained(n, explained, error), other) == 0
  {
    if n > 0 {
      UnexplainedOnly(n - 1, explained, error, other);
      CountConcat(Unexplained(n - 1, explained, error), if n - 1 in explained then [] else [error(n - 1)], other);
      assert [error(n - 1)][..0] == [];
    }
  }

  lemma PairErrorsOnly(c: Case, pair: Pair, other: Code)
    requires other == UnsupportedValue || other == MissingExpectedCandidate
    ensures CountCode(ErrorsOfPair(c, pair), other) == 0
  {
    NoneOfCode(ErrorsOfPair(c, pair), other);
  }

  lemma {:induction false} MatchedOnly(c: Case, pairs: seq<Pair>, other: Code)
    requires other == UnsupportedValue || other == MissingExpectedCandidate
    ensures CountCode(MatchedErrors(c, pairs), other) == 0
  {
    if pairs != [] {
      MatchedOnly(c, pairs[..|pairs| - 1], other);
      CountConcat(MatchedErrors(c, pairs[..|pairs| - 1]), ErrorsOfPair(c, pairs[|pairs| - 1]), other);
      PairErrorsOnly(c, pairs[|pairs| - 1], other);
    }
  }

  lemma {:induction false} NoneOfCode(errors: seq<Error>, code: Code)
    requires forall i :: 0 <= i < |errors| ==> errors[i].code != code
    ensures CountCode(errors, code) == 0
  {
    if errors != [] {
      NoneOfCode(errors[..|errors| - 1], code);
    }
  }

  lemma {:induction false} WrongBindingsCount(c: Case, pairs: seq<Pair>)
    requires forall i :: 0 <= i < |pairs| ==> pairs[i].expected < |c.expected| && pairs[i].proposed < |c.proposed|
    ensures CountCode(MatchedErrors(c, pairs), WrongBinding) == CountBound(c, pairs, false)
  {
    if pairs != [] {
      var front, last := pairs[..|pairs| - 1], pairs[|pairs| - 1];
      WrongBindingsCount(c, front);
      CountConcat(MatchedErrors(c, front), ErrorsOfPair(c, last), WrongBinding);
      WrongBindingOfPair(c, last);
    }
  }

  lemma WrongBindingOfPair(c: Case, pair: Pair)
    requires pair.expected < |c.expected| && pair.proposed < |c.proposed|
    ensures CountCode(ErrorsOfPair(c, pair), WrongBinding) == if BindingOk(c, pair) then 0 else 1
  {
    var errors := ErrorsOfPair(c, pair);
    if BindingOk(c, pair) {
      NoneOfCode(errors, WrongBinding);
    } else {
      assert errors == [errors[0]] + errors[1..];
      CountConcat([errors[0]], errors[1..], WrongBinding);
      NoneOfCode(errors[1..], WrongBinding);
      assert [errors[0]][..0] == [];
    }
  }

  lemma {:induction false} AllBound(c: Case, pairs: seq<Pair>)
    requires forall i :: 0 <= i < |pairs| ==> BindingOk(c, pairs[i])
    ensures CountBound(c, pairs, true) == |pairs|
  {
    if pairs != [] {
      AllBound(c, pairs[..|pairs| - 1]);
    }
  }

  lemma {:induction false} UnsupportedBound(c: Case, n: nat)
    requires n <= |c.proposed|
    ensures CountUnsupported(c, n) <= 2 * n
  {
    if n > 0 {
      UnsupportedBound(c, n - 1);
    }
  }

  lemma PairsAreMatchings(normalize: Normalizer, c: Case)
    ensures Matching(TruePairs(normalize, c), |c.proposed|, |c.expected|, {}, AuthoritativeFit(normalize, c))
    ensures Matching(DiagnosticPairs(normalize, c), |c.proposed|, |c.expected|, ProposedOf(TruePairs(normalize, c)),
            DiagnosticFit(normalize, c))
  {
    GreedyMatches(|c.proposed|, |c.expected|, {}, AuthoritativeFit(normalize, c));
    GreedyMatches(|c.proposed|, |c.expected|, ProposedOf(TruePairs(normalize, c)), DiagnosticFit(normalize, c));
  }

  /** No authoritative assignment, however chosen, has more than twice the true positives counted. */
  lemma TruePositivesAreHalfOptimal(normalize: Normalizer, c: Case, other: seq<Pair>)
    requires Matching(other, |c.proposed|, |c.expected|, {}, AuthoritativeFit(normalize, c))
    ensures |other| <= 2 * ScoreOf(normalize, c).tp
  {
    PairsAreMatchings(normalize, c);
    GreedyIsMaximal(|c.proposed|, |c.expected|, {}, AuthoritativeFit(normalize, c));
    AnyMatchingAtMostTwice(
      TruePairs(normalize, c), other, |c.proposed|, |c.expected|, {}, AuthoritativeFit(normalize, c));
  }

  /** Every proposal is a true positive, or explained by a diagnostic pair, or neither; never two of these. */
  lemma ProposalsAreClassified(normalize: Normalizer, c: Case)
    ensures ProposedOf(TruePairs(normalize, c)) !! ProposedOf(DiagnosticPairs(normalize, c))
    ensures |ProposedOf(TruePairs(normalize, c)) + ProposedOf(DiagnosticPairs(normalize, c))|
         == |TruePairs(normalize, c)| + |DiagnosticPairs(normalize, c)|
    ensures Below(ProposedOf(TruePairs(normalize, c)) + ProposedOf(DiagnosticPairs(normalize, c)), |c.proposed|)
    ensures |ExpectedOf(TruePairs(normalize, c))| == |TruePairs(normalize, c)|
            && Below(ExpectedOf(TruePairs(normalize, c)), |c.expected|)
  {
    PairsAreMatchings(normalize, c);
    SidesCount(TruePairs(normalize, c));
    SidesCount(DiagnosticPairs(normalize, c));
  }

  lemma {:induction false} UnexplainedHas(n: nat, explained: set<nat>, error: nat -> Error, e: Error)
    ensures e in Unexplained(n, explained, error) <==> exists x: nat :: x < n && x !in explained && error(x) == e
  {
    if n > 0 {
      UnexplainedHas(n - 1, explained, error, e);
      assert n - 1 !in explained && error(n - 1) == e ==> e in Unexplained(n, explained, error);
    }
  }

  lemma {:induction false} MatchedErrorsNameBoth(c: Case, pairs: seq<Pair>, e: Error)
    requires e in MatchedErrors(c, pairs)
    ensures e.proposed.Some? && e.expected.Some?
  {
    var front, last := pairs[..|pairs| - 1], pairs[|pairs| - 1];
    if e in MatchedErrors(c, front) {
      MatchedErrorsNameBoth(c, front, e);
    } else {
      assert e in ErrorsOfPair(c, last);
    }
  }

  /** A proposal is reported unsupported exactly when it is neither a true positive nor in a diagnostic pair. */
  lemma UnsupportedIff(normalize: Normalizer, c: Case, p: nat)
    requires p < |c.proposed|
    ensures Error(UnsupportedValue, Some(p), None) in ScoreOf(normalize, c).errors
       <==> p !in ProposedOf(TruePairs(normalize, c)) && p !in ProposedOf(DiagnosticPairs(normalize, c))
  {
    var truePairs, diagnostics, e := TruePairs(normalize, c), DiagnosticPairs(normalize, c), UnsupportedAt()(p);
    var explained := ProposedOf(truePairs) + ProposedOf(diagnostics);
    UnexplainedHas(|c.proposed|, explained, UnsupportedAt(), e);
    UnexplainedHas(|c.expected|, ExpectedOf(truePairs), MissingAt(), e);
    if e in MatchedErrors(c, diagnostics) {
      MatchedErrorsNameBoth(c, diagnostics, e);
    }
    assert p !in explained ==> UnsupportedAt()(p) == e;
  }

  /** An expected candidate is reported missing exactly when recall applies and no true positive has it. */
  lemma MissingIff(normalize: Normalizer, c: Case, e: nat)
    requires e < |c.expected|
    ensures Error(MissingExpectedCandidate, None, Some(e)) in ScoreOf(normalize, c).errors
       <==> c.recallApplicable && e !in ExpectedOf(TruePairs(normalize, c))
  {
    var truePairs, diagnostics, missing := TruePairs(normalize, c), DiagnosticPairs(normalize, c), MissingAt()(e);
    UnexplainedHas(|c.proposed|, ProposedOf(truePairs) + ProposedOf(diagnostics), UnsupportedAt(), missing);
    UnexplainedHas(|c.expected|, ExpectedOf(truePairs), MissingAt(), missing);
    if missing in MatchedErrors(c, diagnostics) {
      MatchedErrorsNameBoth(c, diagnostics, missing);
    }
    assert e !in ExpectedOf(truePairs) ==> MissingAt()(e) == missing;
  }

  ghost predicate PairReports(c: Case, pairs: seq<Pair>, i: int, e: Error) {
    0 <= i < |pairs| && e in ErrorsOfPair(c, pairs[i])
  }

  lemma MatchedErrorsOneMore(c: Case, front: seq<Pair>, last: Pair)
    ensures MatchedErrors(c, front + [last]) == MatchedErrors(c, front) + ErrorsOfPair(c, last)
  {
    assert (front + [last])[..|front|] == front;
  }

  lemma PairReportsOneMore(c: Case, front: seq<Pair>, last: Pair, e: Error)
    ensures (exists i :: PairReports(c, front + [last], i, e))
       <==> (exists i :: PairReports(c, front, i, e)) || e in ErrorsOfPair(c, last)
  {
    var all := front + [last];
    if i :| PairReports(c, all, i, e) {
      assert i < |front| ==> PairReports(c, front, i, e);
    }
    if i :| PairReports(c, front, i, e) {
      assert PairReports(c, all, i, e);
    }
    if e in ErrorsOfPair(c, last) {
      assert PairReports(c, all, |front|, e);
    }
  }

  /** The error is listed exactly when some pair reports it. */
  ghost predicate ListedByPair(c: Case, pairs: seq<Pair>, e: Error) {
    e in MatchedErrors(c, pairs) <==> exists i :: PairReports(c, pairs, i, e)
  }

  lemma ListedByPairOneMore(c: Case, front: seq<Pair>, last: Pair, e: Error)
    requires ListedByPair(c, front, e)
    ensures ListedByPair(c, front + [last], e)
  {
    MatchedErrorsOneMore(c, front, last);
    PairReportsOneMore(c, front, last, e);
  }

  lemma NothingListed(c: Case, e: Error)
    ensures ListedByPair(c, [], e)
  {
  }

  lemma {:induction false} MatchedErrorsHave(c: Case, pairs: seq<Pair>, e: Error)
    ensures ListedByPair(c, pairs, e)
  {
    if pairs != [] {
      var front, last := pairs[..|pairs| - 1], pairs[|pairs| - 1];
      MatchedErrorsHave(c, front, e);
      ListedByPairOneMore(c, front, last, e);
      SplitLast(pairs);
    } else {
      NothingListed(c, e);
    }
  }

  lemma PairErrorsHave(c: Case, pair: Pair, code: Code, e: nat, p: nat)
    requires e < |c.expected| && p < |c.proposed|
    ensures Error(code, Some(p), Some(e)) in ErrorsOfPair(c, pair)
       <==> pair == Pair(e, p) && code in MatchErrors(c.expected[e], c.proposed[p])
  {
    if pair == Pair(e, p) && code in MatchErrors(c.expected[e], c.proposed[p]) {
      var codes := MatchErrors(c.expected[e], c.proposed[p]);
      var i :| 0 <= i < |codes| && codes[i] == code;
      assert ErrorsOfPair(c, pair)[i] == Error(code, Some(p), Some(e));
    }
  }

  /** A wrong binding is reported exactly for the diagnostic pairs whose bindings differ, a bad grounding likewise. */
  lemma PairErrorsIff(normalize: Normalizer, c: Case, e: nat, p: nat)
    requires e < |c.expected| && p < |c.proposed|
    ensures var errors, diagnosed := ScoreOf(normalize, c).errors, Pair(e, p) in DiagnosticPairs(normalize, c);
            && (Error(WrongBinding, Some(p), Some(e)) in errors <==>
                diagnosed && c.proposed[p].bindingId != c.expected[e].bindingId)
            && (Error(BadGrounding, Some(p), Some(e)) in errors <==>
                diagnosed && !GroundingMatches(c.expected[e], c.proposed[p]))
  {
    PairErrorIff(normalize, c, WrongBinding, e, p);
    PairErrorIff(normalize, c, BadGrounding, e, p);
  }

  lemma PairErrorIff(normalize: Normalizer, c: Case, code: Code, e: nat, p: nat)
    requires e < |c.expected| && p < |c.proposed|
    ensures Error(code, Some(p), Some(e)) in ScoreOf(normalize, c).errors
       <==> Pair(e, p) in DiagnosticPairs(normalize, c) && code in MatchErrors(c.expected[e], c.proposed[p])
  {
    var truePairs, diagnostics, error := TruePairs(normalize, c), DiagnosticPairs(normalize, c),
      Error(code, Some(p), Some(e));
    UnexplainedHas(|c.proposed|, ProposedOf(truePairs) + ProposedOf(diagnostics), UnsupportedAt(), error);
    UnexplainedHas(|c.expected|, ExpectedOf(truePairs), MissingAt(), error);
    MatchedErrorsHave(c, diagnostics, error);
    forall i | 0 <= i < |diagnostics|
      ensures PairReports(c, diagnostics, i, error)
         <==> diagnostics[i] == Pair(e, p) && code in MatchErrors(c.expected[e], c.proposed[p])
    {
      PairErrorsHave(c, diagnostics[i], code, e, p);
    }
  }

  /** Which of the three a proposal is. */
  datatype Class = TruePositive | Diagnosed | Unsupported

  ghost predicate ClassedAs(normalize: Normalizer, c: Case, p: nat, kind: Class) {
    match kind
    case TruePositive => p in ProposedOf(TruePairs(normalize, c))
    case Diagnosed => p in ProposedOf(DiagnosticPairs(normalize, c))
    case Unsupported => Error(UnsupportedValue, Some(p), None) in ScoreOf(normalize, c).errors
  }

  /** Every proposal is exactly one of true positive, diagnostic match and unsupported value. */
  lemma EveryProposalHasOneClass(normalize: Normalizer, c: Case, p: nat)
    requires p < |c.proposed|
    ensures exists x :: ClassedAs(normalize, c, p, x) && forall y :: ClassedAs(normalize, c, p, y) ==> y == x
  {
    UnsupportedIff(normalize, c, p);
    ProposalsAreClassified(normalize, c);
    var x := if p in ProposedOf(TruePairs(normalize, c)) then TruePositive
             else if p in ProposedOf(DiagnosticPairs(normalize, c)) then Diagnosed
             else Unsupported;
    assert ClassedAs(normalize, c, p, x);
    forall y | ClassedAs(normalize, c, p, y) ensures y == x {
    }
  }

  lemma ErrorsByPart(c: Case, truePairs: seq<Pair>, diagnostics: seq<Pair>, code: Code)
    ensures CountCode(ScoreErrors(c, truePairs, diagnostics), code)
         == CountCode(MatchedErrors(c, diagnostics), code)
          + CountCode(Unexplained(|c.proposed|, ProposedOf(truePairs) + ProposedOf(diagnostics), UnsupportedAt()), code)
          + if c.recallApplicable then CountCode(Unexplained(|c.expected|, ExpectedOf(truePairs), MissingAt()), code)
            else 0
  {
    var a := MatchedErrors(c, diagnostics);
    var b := Unexplained(|c.proposed|, ProposedOf(truePairs) + ProposedOf(diagnostics), UnsupportedAt());
    var d := if c.recallApplicable then Unexplained(|c.expected|, ExpectedOf(truePairs), MissingAt()) else [];
    CountConcat(a, b, code);
    CountConcat(a + b, d, code);
  }

  lemma ErrorCounts(normalize: Normalizer, c: Case)
    ensures var errors := ScoreErrors(c, TruePairs(normalize, c), DiagnosticPairs(normalize, c));
            && CountCode(errors, MissingExpectedCandidate)
               == (if c.recallApplicable then |c.expected| - |TruePairs(normalize, c)| else 0)
            && CountCode(errors, UnsupportedValue)
               == |c.proposed| - |TruePairs(normalize, c)| - |DiagnosticPairs(normalize, c)|
            && CountCode(errors, WrongBinding) == CountBound(c, DiagnosticPairs(normalize, c), false)
  {
    var truePairs, diagnostics := TruePairs(normalize, c), DiagnosticPairs(normalize, c);
    ProposalsAreClassified(normalize, c);
    PairsAreMatchings(normalize, c);
    var explained := ProposedOf(truePairs) + ProposedOf(diagnostics);
    ErrorsByPart(c, truePairs, diagnostics, MissingExpectedCandidate);
    MatchedOnly(c, diagnostics, MissingExpectedCandidate);
    UnexplainedOnly(|c.proposed|, explained, UnsupportedAt(), MissingExpectedCandidate);
    UnexplainedCount(|c.expected|, ExpectedOf(truePairs), MissingAt(), MissingExpectedCandidate);
    ErrorsByPart(c, truePairs, diagnostics, UnsupportedValue);
    MatchedOnly(c, diagnostics, UnsupportedValue);
    UnexplainedCount(|c.proposed|, explained, UnsupportedAt(), UnsupportedValue);
    UnexplainedOnly(|c.expected|, ExpectedOf(truePairs), MissingAt(), UnsupportedValue);
    ErrorsByPart(c, truePairs, diagnostics, WrongBinding);
    WrongBindingsCount(c, diagnostics);
    UnexplainedOnly(|c.proposed|, explained, UnsupportedAt(), WrongBinding);
    UnexplainedOnly(|c.expected|, ExpectedOf(truePairs), MissingAt(), WrongBinding);
  }

  /** The counts that recall and precision are drawn from add up, and the error list accounts for each of them. */
  lemma ScoreBalances(normalize: Normalizer, c: Case)
    ensures var score := ScoreOf(normalize, c);
            && score.tp + score.fp == |c.proposed| && score.fp >= 0
            && score.fn >= 0 && (c.recallApplicable ==> score.tp + score.fn == |c.expected|)
            && CountCode(score.errors, MissingExpectedCandidate) == score.fn
            && CountCode(score.errors, UnsupportedValue) + |DiagnosticPairs(normalize, c)| == score.fp
            && score.bindingCorrect == score.tp
            && score.bindingEvaluable == score.tp + CountCode(score.errors, WrongBinding)
            && score.unsupported <= 2 * |c.proposed|
  {
    ErrorCounts(normalize, c);
    ProposalsAreClassified(normalize, c);
    BelowCount(ProposedOf(TruePairs(normalize, c)), |c.proposed|);
    BelowCount(ExpectedOf(TruePairs(normalize, c)), |c.expected|);
    PairsAreMatchings(normalize, c);
    SidesCount(TruePairs(normalize, c));
    AllBound(c, TruePairs(normalize, c));
    UnsupportedBound(c, |c.proposed|);
  }

  // What a counted pair says of its two sides

  /** Some accepted value reads like the proposed one. */
  ghost predicate SaysTheSame(normalize: Normalizer, gold: Gold, candidate: Candidate) {
    exists v :: v in gold.acceptedValues && normalize(v, gold.rule) == normalize(candidate.value, gold.rule)
  }

  /** The range is the accepted one, or, where the policy is lenient, a part of it. */
  ghost predicate Within(policy: Policy, range: Range, accepted: Range) {
    && range.sourceId == accepted.sourceId
    && accepted.start <= range.start
    && range.end <= accepted.end
    && (policy == ExactRange ==> range.start <= accepted.start && accepted.end <= range.end)
  }

  /** Only allowed sources are cited, one at least, and one cited range is an accepted one. */
  ghost predicate WellGrounded(gold: Gold, candidate: Candidate) {
    && (exists ref :: ref in candidate.sourceRefs)
    && (forall ref :: ref in candidate.sourceRefs ==> ref in gold.sourceRefsAllowed)
    && exists r, a :: r in candidate.ranges && a in gold.acceptedRanges && Within(gold.policy, r, a)
  }

  /** Binding and grounding are right too, where grounding is asked for. */
  ghost predicate Faultless(gold: Gold, candidate: Candidate) {
    candidate.bindingId == gold.bindingId && (gold.groundingRequired ==> WellGrounded(gold, candidate))
  }

  /** The same value for the same intent, and faultless or not. */
  ghost function Answers(normalize: Normalizer, c: Case, faultless: bool): Relation {
    (e: nat, p: nat) =>
      && e < |c.expected| && p < |c.proposed|
      && SaysTheSame(normalize, c.expected[e], c.proposed[p])
      && c.proposed[p].intent == c.expected[e].intent
      && Faultless(c.expected[e], c.proposed[p]) == faultless
  }

  lemma ValueMatchesIff(normalize: Normalizer, gold: Gold, candidate: Candidate)
    ensures ValueMatches(normalize, gold, candidate) <==> SaysTheSame(normalize, gold, candidate)
  {
    if SaysTheSame(normalize, gold, candidate) {
      var v :| v in gold.acceptedValues && normalize(v, gold.rule) == normalize(candidate.value, gold.rule);
      var i :| 0 <= i < |gold.acceptedValues| && gold.acceptedValues[i] == v;
    }
  }

  lemma RangeAcceptedIff(gold: Gold, range: Range)
    ensures RangeAccepted(gold, range) <==> exists a :: a in gold.acceptedRanges && Within(gold.policy, range, a)
  {
    if a :| a in gold.acceptedRanges && Within(gold.policy, range, a) {
      var i :| 0 <= i < |gold.acceptedRanges| && gold.acceptedRanges[i] == a;
      assert gold.policy == ExactRange ==> range == a;
    }
    if RangeAccepted(gold, range) {
      match gold.policy {
        case ExactRange =>
          assert Within(gold.policy, range, range);
        case RangeWithinGold =>
          var i :| 0 <= i < |gold.acceptedRanges|
            && range.sourceId == gold.acceptedRanges[i].sourceId
            && range.start >= gold.acceptedRanges[i].start
            && range.end <= gold.acceptedRanges[i].end;
          assert Within(gold.policy, range, gold.acceptedRanges[i]);
      }
    }
  }

  lemma GroundingMatchesIff(gold: Gold, candidate: Candidate)
    ensures GroundingMatches(gold, candidate) <==> gold.groundingRequired ==> WellGrounded(gold, candidate)
  {
    forall r | r in candidate.ranges
      ensures RangeAccepted(gold, r) <==> exists a :: a in gold.acceptedRanges && Within(gold.policy, r, a)
    {
      RangeAcceptedIff(gold, r);
    }
    if r, a :| r in candidate.ranges && a in gold.acceptedRanges && Within(gold.policy, r, a) {
      var i :| 0 <= i < |candidate.ranges| && candidate.ranges[i] == r;
    }
  }

  lemma FitsMeaning(normalize: Normalizer, c: Case, e: nat, p: nat)
    ensures AuthoritativeFit(normalize, c)(e, p) <==> Answers(normalize, c, true)(e, p)
    ensures DiagnosticFit(normalize, c)(e, p) <==> Answers(normalize, c, false)(e, p)
  {
    if e < |c.expected| && p < |c.proposed| {
      ValueMatchesIff(normalize, c.expected[e], c.proposed[p]);
      GroundingMatchesIff(c.expected[e], c.proposed[p]);
    }
  }

  /**
   * The true positives pair faultless answers with what they answer, the diagnostic pairs the faulty answers among the
   * other proposals, and of neither kind is one left over with both sides free.
   */
  lemma PairsMeaning(normalize: Normalizer, c: Case)
    ensures var n, m, pairs := |c.proposed|, |c.expected|, TruePairs(normalize, c);
            Matching(pairs, n, m, {}, Answers(normalize, c, true))
            && Maximal(pairs, n, m, {}, Answers(normalize, c, true))
    ensures var n, m, pairs, others := |c.proposed|, |c.expected|, DiagnosticPairs(normalize, c),
              ProposedOf(TruePairs(normalize, c));
            Matching(pairs, n, m, others, Answers(normalize, c, false))
            && Maximal(pairs, n, m, others, Answers(normalize, c, false))
  {
    forall e: nat, p: nat
      ensures AuthoritativeFit(normalize, c)(e, p) <==> Answers(normalize, c, true)(e, p)
      ensures DiagnosticFit(normalize, c)(e, p) <==> Answers(normalize, c, false)(e, p)
    {
      FitsMeaning(normalize, c, e, p);
    }
    PairsAreMatchings(normalize, c);
    GreedyIsMaximal(|c.proposed|, |c.expected|, {}, AuthoritativeFit(normalize, c));
    GreedyIsMaximal(|c.proposed|, |c.expected|, ProposedOf(TruePairs(normalize, c)), DiagnosticFit(normalize, c));
  }

  // When the rate of unsupported values stays within one

  /** The proposals counted twice: for a binding to abstain on, and of a prohibited value. */
  function TwiceWrong(c: Case): set<nat> {
    set p | 0 <= p < |c.proposed| && Abstained(c, p) && Prohibited(c, p)
  }

  /** The proposals not counted at all. */
  function Unobjectionable(c: Case): set<nat> {
    set p | 0 <= p < |c.proposed| && !Abstained(c, p) && !Prohibited(c, p)
  }

  function UpTo(s: set<nat>, n: nat): set<nat> {
    set p | p in s && p < n
  }

  lemma UpToOneMore(s: set<nat>, n: nat)
    ensures |UpTo(s, n + 1)| == |UpTo(s, n)| + if n in s then 1 else 0
  {
    assert UpTo(s, n + 1) == UpTo(s, n) + if n in s then {n} else {};
  }

  lemma {:induction false} UnsupportedBalances(c: Case, n: nat)
    requires n <= |c.proposed|
    ensures CountUnsupported(c, n) + |UpTo(Unobjectionable(c), n)| == n + |UpTo(TwiceWrong(c), n)|
  {
    if n > 0 {
      UnsupportedBalances(c, n - 1);
      UpToOneMore(Unobjectionable(c), n - 1);
      UpToOneMore(TwiceWrong(c), n - 1);
    } else {
      assert UpTo(Unobjectionable(c), 0) == {} && UpTo(TwiceWrong(c), 0) == {};
    }
  }

  lemma {:induction false} UnsupportedSplits(c: Case, n: nat, abstained: set<nat>, prohibited: set<nat>)
    requires n <= |c.proposed|
    requires abstained == set p | 0 <= p < |c.proposed| && c.proposed[p].bindingId.Some?
      && c.proposed[p].bindingId.value in c.abstentionBindings
    requires prohibited == set p | 0 <= p < |c.proposed| && c.proposed[p].value in c.prohibitedValues
    ensures CountUnsupported(c, n) == |UpTo(abstained, n)| + |UpTo(prohibited, n)|
  {
    if n > 0 {
      UnsupportedSplits(c, n - 1, abstained, prohibited);
      UpToOneMore(abstained, n - 1);
      UpToOneMore(prohibited, n - 1);
    } else {
      assert UpTo(abstained, 0) == {} && UpTo(prohibited, 0) == {};
    }
  }

  /** Counted as unsupported: the proposals for a binding to abstain on, and again those of a prohibited value. */
  lemma UnsupportedCounts(normalize: Normalizer, c: Case)
    ensures ScoreOf(normalize, c).unsupported
         == |set p | 0 <= p < |c.proposed| && c.proposed[p].bindingId.Some?
               && c.proposed[p].bindingId.value in c.abstentionBindings|
          + |set p | 0 <= p < |c.proposed| && c.proposed[p].value in c.prohibitedValues|
  {
    var abstained: set<nat> := set p | 0 <= p < |c.proposed| && c.proposed[p].bindingId.Some?
      && c.proposed[p].bindingId.value in c.abstentionBindings;
    var prohibited: set<nat> := set p | 0 <= p < |c.proposed| && c.proposed[p].value in c.prohibitedValues;
    UnsupportedSplits(c, |c.proposed|, abstained, prohibited);
    assert UpTo(abstained, |c.proposed|) == abstained;
    assert UpTo(prohibited, |c.proposed|) == prohibited;
  }

  /** The rate stays within one exactly when no more proposals are counted twice than are not counted. */
  lemma UnsupportedRateWithinOneIff(normalize: Normalizer, c: Case)
    ensures ScoreOf(normalize, c).unsupported <= |c.proposed| <==> |TwiceWrong(c)| <= |Unobjectionable(c)|
    ensures TwiceWrong(c) == {} ==> ScoreOf(normalize, c).unsupported <= |c.proposed|
  {
    UnsupportedBalances(c, |c.proposed|);
    assert UpTo(Unobjectionable(c), |c.proposed|) == Unobjectionable(c);
    assert UpTo(TwiceWrong(c), |c.proposed|) == TwiceWrong(c);
  }

  /** One candidate can count twice, so the rate of unsupported values over proposals can exceed 1. */
  lemma UnsupportedRateCanExceedOne(normalize: Normalizer)
    ensures exists c: Case :: |c.proposed| > 0 && ScoreOf(normalize, c).unsupported > |c.proposed|
  {
    var c := Case([], [Candidate("x", None, Some("b"), {}, [])], false, {"b"}, {"x"});
    assert CountUnsupported(c, 1) == CountUnsupported(c, 0) + 2;
    assert ScoreOf(normalize, c).unsupported > |c.proposed|;
  }
}
