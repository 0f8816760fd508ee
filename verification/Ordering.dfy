/** Sorting as the repository uses it: a stable sort by a total preorder, and `sorted(set(...))` on text. */
module Ordering {
  import opened JsonValues

  ghost predicate TotalPreorder<T(!new)>(le: (T, T) -> bool) {
    && (forall a, b :: le(a, b) || le(b, a))
    && (forall a, b, c :: le(a, b) && le(b, c) ==> le(a, c))
  }

  ghost predicate SortedBy<T>(xs: seq<T>, le: (T, T) -> bool) {
    forall i, j :: 0 <= i < j < |xs| ==> le(xs[i], xs[j])
  }

  /** Elements of `xs` that the order cannot tell apart are the same element. */
  ghost predicate TiesAreEqual<T>(xs: seq<T>, le: (T, T) -> bool) {
    forall i, j :: 0 <= i < |xs| && 0 <= j < |xs| && le(xs[i], xs[j]) && le(xs[j], xs[i]) ==> xs[i] == xs[j]
  }

  function Insert<T>(x: T, xs: seq<T>, le: (T, T) -> bool): seq<T> {
    if xs == [] then [x]
    else if le(x, xs[0]) then [x] + xs
    else [xs[0]] + Insert(x, xs[1..], le)
  }

  /** Python's `sorted(xs, key=...)`. */
  function Sort<T>(xs: seq<T>, le: (T, T) -> bool): seq<T> {
    if xs == [] then [] else Insert(xs[0], Sort(xs[1..], le), le)
  }

  lemma {:induction false} InsertKeeps<T>(x: T, xs: seq<T>, le: (T, T) -> bool)
    ensures multiset(Insert(x, xs, le)) == multiset(xs) + multiset{x}
  {
    if xs != [] && !le(x, xs[0]) {
      InsertKeeps(x, xs[1..], le);
      assert xs == [xs[0]] + xs[1..];
    }
  }

  /** Sorting neither loses nor repeats an element. */
  lemma {:induction false} SortKeeps<T>(xs: seq<T>, le: (T, T) -> bool)
    ensures multiset(Sort(xs, le)) == multiset(xs)
  {
    if xs != [] {
      SortKeeps(xs[1..], le);
      InsertKeeps(xs[0], Sort(xs[1..], le), le);
      assert xs == [xs[0]] + xs[1..];
    }
  }

  lemma MembersOfPermutation<T>(xs: seq<T>, ys: seq<T>)
    requires multiset(xs) == multiset(ys)
    ensures |xs| == |ys|
    ensures forall x :: x in xs <==> x in ys
  {
    assert |multiset(xs)| == |xs| && |multiset(ys)| == |ys|;
    forall x ensures x in xs <==> x in ys {
      assert x in xs <==> x in multiset(xs);
      assert x in ys <==> x in multiset(ys);
    }
  }

  lemma {:induction false} InsertIsSorted<T(!new)>(x: T, xs: seq<T>, le: (T, T) -> bool)
    requires TotalPreorder(le) && SortedBy(xs, le)
    ensures SortedBy(Insert(x, xs, le), le)
  {
    if xs != [] && !le(x, xs[0]) {
      InsertIsSorted(x, xs[1..], le);
      InsertKeeps(x, xs[1..], le);
      var rest := Insert(x, xs[1..], le);
      forall k | 0 <= k < |rest| ensures le(xs[0], rest[k]) {
        assert rest[k] in multiset(rest);
        assert rest[k] in multiset(xs[1..]) + multiset{x};
        assert rest[k] in xs[1..] || rest[k] == x;
      }
    }
  }

  lemma {:induction false} SortIsSorted<T(!new)>(xs: seq<T>, le: (T, T) -> bool)
    requires TotalPreorder(le)
    ensures SortedBy(Sort(xs, le), le)
  {
    if xs != [] {
      SortIsSorted(xs[1..], le);
      InsertIsSorted(xs[0], Sort(xs[1..], le), le);
    }
  }

  lemma HeadIsLeast<T(!new)>(xs: seq<T>, ys: seq<T>, le: (T, T) -> bool)
    requires xs != [] && SortedBy(xs, le) && SortedBy(ys, le) && multiset(xs) == multiset(ys)
    requires TiesAreEqual(xs, le)
    ensures ys != [] && xs[0] == ys[0]
  {
    MembersOfPermutation(xs, ys);
    assert ys[0] in xs && xs[0] in ys;
    var i :| 0 <= i < |xs| && xs[i] == ys[0];
    var j :| 0 <= j < |ys| && ys[j] == xs[0];
  }

  lemma TiesOfPermutation<T(!new)>(xs: seq<T>, ys: seq<T>, le: (T, T) -> bool)
    requires TiesAreEqual(xs, le) && multiset(xs) == multiset(ys)
    ensures TiesAreEqual(ys, le)
  {
    MembersOfPermutation(xs, ys);
    forall i, j | 0 <= i < |ys| && 0 <= j < |ys| && le(ys[i], ys[j]) && le(ys[j], ys[i])
      ensures ys[i] == ys[j]
    {
      assert ys[i] in xs && ys[j] in xs;
    }
  }

  lemma TailsPermute<T>(xs: seq<T>, ys: seq<T>)
    requires xs != [] && ys != [] && xs[0] == ys[0] && multiset(xs) == multiset(ys)
    ensures multiset(xs[1..]) == multiset(ys[1..])
  {
    assert xs == [xs[0]] + xs[1..] && ys == [ys[0]] + ys[1..];
    assert multiset(xs[1..]) == multiset(xs) - multiset{xs[0]};
    assert multiset(ys[1..]) == multiset(ys) - multiset{ys[0]};
  }

  lemma TailSorted<T>(xs: seq<T>, le: (T, T) -> bool)
    requires xs != [] && SortedBy(xs, le)
    ensures SortedBy(xs[1..], le) && (TiesAreEqual(xs, le) ==> TiesAreEqual(xs[1..], le))
  {
  }

  /** A list has only one sorted arrangement when elements the order cannot tell apart are equal. */
  lemma {:induction false} SortedPermutationIsUnique<T(!new)>(xs: seq<T>, ys: seq<T>, le: (T, T) -> bool)
    requires SortedBy(xs, le) && SortedBy(ys, le) && multiset(xs) == multiset(ys)
    requires TiesAreEqual(xs, le)
    ensures xs == ys
  {
    if xs != [] {
      HeadIsLeast(xs, ys, le);
      TailsPermute(xs, ys);
      TailSorted(xs, le);
      TailSorted(ys, le);
      SortedPermutationIsUnique(xs[1..], ys[1..], le);
      assert xs == [xs[0]] + xs[1..] && ys == [ys[0]] + ys[1..];
    } else {
      assert |multiset(ys)| == 0;
    }
  }

  /** Sorting forgets the order its input came in. */
  lemma SortOfPermutation<T(!new)>(xs: seq<T>, ys: seq<T>, le: (T, T) -> bool)
    requires TotalPreorder(le) && multiset(xs) == multiset(ys)
    requires TiesAreEqual(xs, le)
    ensures Sort(xs, le) == Sort(ys, le)
  {
    SortIsSorted(xs, le);
    SortIsSorted(ys, le);
    SortKeeps(xs, le);
    SortKeeps(ys, le);
    TiesOfPermutation(xs, Sort(xs, le), le);
    SortedPermutationIsUnique(Sort(xs, le), Sort(ys, le), le);
  }

  lemma SortOfSorted<T(!new)>(xs: seq<T>, le: (T, T) -> bool)
    requires TotalPreorder(le) && SortedBy(xs, le)
    requires TiesAreEqual(xs, le)
    ensures Sort(xs, le) == xs
  {
  }

  /** Text compares by code point, as Python's `str` does. */
  predicate TextLe(a: string, b: string) {
    a == "" || (b != "" && (a[0] < b[0] || (a[0] == b[0] && TextLe(a[1..], b[1..]))))
  }

  lemma {:induction false} TextLeTotal(a: string, b: string)
    ensures TextLe(a, b) || TextLe(b, a)
    ensures TextLe(a, b) && TextLe(b, a) ==> a == b
  {
    if a != "" && b != "" && a[0] == b[0] {
      TextLeTotal(a[1..], b[1..]);
      assert a == [a[0]] + a[1..] && b == [b[0]] + b[1..];
    }
  }

  lemma {:induction false} TextLeTransitive(a: string, b: string, c: string)
    requires TextLe(a, b) && TextLe(b, c)
    ensures TextLe(a, c)
  {
    if a != "" && a[0] == b[0] == c[0] {
      TextLeTransitive(a[1..], b[1..], c[1..]);
    }
  }

  function TextOrder(): (string, string) -> bool {
    (a: string, b: string) => TextLe(a, b)
  }

  lemma TextOrderIsTotal()
    ensures TotalPreorder(TextOrder())
  {
    forall a: string, b: string ensures TextOrder()(a, b) || TextOrder()(b, a) {
      TextLeTotal(a, b);
    }
    forall a: string, b: string, c: string | TextOrder()(a, b) && TextOrder()(b, c)
      ensures TextOrder()(a, c)
    {
      TextLeTransitive(a, b, c);
    }
  }

  ghost predicate Distinct<T>(xs: seq<T>) {
    forall i, j :: 0 <= i < j < |xs| ==> xs[i] != xs[j]
  }

  /** The list with every repetition of an earlier element dropped. */
  function Dedup<T(==)>(xs: seq<T>): seq<T> {
    if xs == [] then []
    else
      var front, last := Dedup(xs[..|xs| - 1]), xs[|xs| - 1];
      if last in front then front else front + [last]
  }

  lemma {:induction false} DedupProperties<T(!new)>(xs: seq<T>)
    ensures forall x :: x in Dedup(xs) <==> x in xs
    ensures Distinct(Dedup(xs))
  {
    if xs != [] {
      DedupProperties(xs[..|xs| - 1]);
      assert xs == xs[..|xs| - 1] + [xs[|xs| - 1]];
    }
  }

  lemma {:induction false} DedupLength<T(!new)>(xs: seq<T>)
    ensures |Dedup(xs)| <= |xs|
    ensures |Dedup(xs)| == |xs| <==> Distinct(xs)
  {
    if xs != [] {
      var front, last := xs[..|xs| - 1], xs[|xs| - 1];
      DedupLength(front);
      DedupProperties(front);
      assert xs == front + [last];
      if Distinct(xs) {
        assert forall i :: 0 <= i < |front| ==> front[i] != last;
      }
    }
  }

  /** `sorted(set(xs))`. */
  function SortedSet(xs: seq<string>): seq<string> {
    Sort(Dedup(xs), TextOrder())
  }

  lemma SortedSetProperties(xs: seq<string>)
    ensures forall x :: x in SortedSet(xs) <==> x in xs
    ensures Distinct(SortedSet(xs))
    ensures SortedBy(SortedSet(xs), TextOrder())
  {
    TextOrderIsTotal();
    DedupProperties(xs);
    SortIsSorted(Dedup(xs), TextOrder());
    SortKeeps(Dedup(xs), TextOrder());
    MembersOfPermutation(Dedup(xs), SortedSet(xs));
    PermutationOfDistinct(Dedup(xs), SortedSet(xs));
  }

  lemma DistinctIffSingle<T>(xs: seq<T>)
    ensures Distinct(xs) <==> forall x :: multiset(xs)[x] <= 1
  {
    if !(forall x :: multiset(xs)[x] <= 1) {
      var x :| multiset(xs)[x] >= 2;
      RepeatedTwice(xs, x);
    } else {
      forall i, j | 0 <= i < j < |xs| ensures xs[i] != xs[j] {
        assert xs == xs[..i] + [xs[i]] + xs[i + 1..];
        assert xs[j] in xs[i + 1..];
        assert multiset(xs) == multiset(xs[..i]) + multiset{xs[i]} + multiset(xs[i + 1..]);
        assert multiset(xs)[xs[i]] <= 1 && multiset(xs[i + 1..])[xs[j]] >= 1;
      }
    }
  }

  lemma {:induction false} RepeatedTwice<T>(xs: seq<T>, x: T)
    requires multiset(xs)[x] >= 2
    ensures !Distinct(xs)
  {
    assert xs == [xs[0]] + xs[1..];
    assert multiset(xs) == multiset{xs[0]} + multiset(xs[1..]);
    if xs[0] == x {
      assert x in multiset(xs[1..]);
      var k :| 0 <= k < |xs[1..]| && xs[1..][k] == x;
      assert xs[0] == xs[k + 1];
    } else {
      RepeatedTwice(xs[1..], x);
      var i, j :| 0 <= i < j < |xs[1..]| && xs[1..][i] == xs[1..][j];
      assert xs[i + 1] == xs[j + 1];
    }
  }

  lemma PermutationOfDistinct<T>(xs: seq<T>, ys: seq<T>)
    requires Distinct(xs) && multiset(xs) == multiset(ys)
    ensures Distinct(ys)
  {
    DistinctIffSingle(xs);
    DistinctIffSingle(ys);
  }

  ghost function Enumerate<T(!new)>(s: set<T>): (xs: seq<T>)
    ensures forall x :: x in xs <==> x in s
  {
    if s == {} then []
    else
      var x :| x in s;
      var rest := Enumerate(s - {x});
      assert forall y :: y in [x] + rest <==> y == x || y in rest;
      [x] + rest
  }

  /** `sorted(s)` of a set of texts. */
  ghost function SortedOf(s: set<string>): seq<string> {
    SortedSet(Enumerate(s))
  }

  lemma SortedOfProperties(s: set<string>)
    ensures forall x :: x in SortedOf(s) <==> x in s
    ensures Distinct(SortedOf(s))
    ensures SortedBy(SortedOf(s), TextOrder())
    ensures SortedOf(s) == [] <==> s == {}
  {
    SortedSetProperties(Enumerate(s));
    assert forall x :: x in SortedOf(s) <==> x in s;
    if SortedOf(s) == [] {
      assert forall x :: x !in s;
    }
    assert |SortedOf(s)| > 0 ==> SortedOf(s)[0] in s;
  }

  lemma TextTiesAreEqual(xs: seq<string>)
    ensures TiesAreEqual(xs, TextOrder())
  {
    forall i, j | 0 <= i < |xs| && 0 <= j < |xs| && TextLe(xs[i], xs[j]) && TextLe(xs[j], xs[i])
      ensures xs[i] == xs[j]
    {
      TextLeTotal(xs[i], xs[j]);
    }
  }

  lemma SplitLast<T>(xs: seq<T>)
    requires xs != []
    ensures xs == xs[..|xs| - 1] + [xs[|xs| - 1]]
  {
  }

  /** The values `f` gives for the elements it has one for. */
  function FilterMap<T, U>(xs: seq<T>, f: T -> Option<U>): seq<U> {
    if xs == [] then []
    else
      FilterMap(xs[..|xs| - 1], f)
      + match f(xs[|xs| - 1])
        case Some(u) => [u]
        case None => []
  }

  lemma {:induction false} FilterMapHas<T, U>(xs: seq<T>, f: T -> Option<U>, u: U)
    ensures u in FilterMap(xs, f) <==> exists x :: x in xs && f(x) == Some(u)
  {
    if xs != [] {
      FilterMapHas(xs[..|xs| - 1], f, u);
      assert xs == xs[..|xs| - 1] + [xs[|xs| - 1]];
    }
  }

  lemma {:induction false} FilterMapConcat<T, U>(a: seq<T>, b: seq<T>, f: T -> Option<U>)
    ensures FilterMap(a + b, f) == FilterMap(a, f) + FilterMap(b, f)
  {
    if b == [] {
      assert a + b == a;
    } else {
      assert (a + b)[..|a + b| - 1] == a + b[..|b| - 1];
      FilterMapConcat(a, b[..|b| - 1], f);
    }
  }

  lemma FilterMapTakesOut<T, U>(a: seq<T>, x: T, b: seq<T>, f: T -> Option<U>)
    ensures multiset(FilterMap(a + [x] + b, f)) == multiset(FilterMap(a + b, f)) + multiset(FilterMap([x], f))
  {
    FilterMapConcat(a + [x], b, f);
    FilterMapConcat(a, [x], f);
    FilterMapConcat(a, b, f);
  }

  lemma TakeOut<T>(front: seq<T>, x: T, ys: seq<T>) returns (a: seq<T>, b: seq<T>)
    requires multiset(front + [x]) == multiset(ys)
    ensures ys == a + [x] + b && multiset(front) == multiset(a + b)
  {
    MembersOfPermutation(front + [x], ys);
    assert (front + [x])[|front|] in ys;
    var i :| 0 <= i < |ys| && ys[i] == x;
    a, b := ys[..i], ys[i + 1..];
    assert ys == a + [x] + b;
    assert multiset(front) == multiset(front + [x]) - multiset{x};
  }

  lemma FilterMapPutsBack<T, U>(front: seq<T>, a: seq<T>, x: T, b: seq<T>, f: T -> Option<U>)
    requires multiset(FilterMap(front, f)) == multiset(FilterMap(a + b, f))
    ensures multiset(FilterMap(front + [x], f)) == multiset(FilterMap(a + [x] + b, f))
  {
    FilterMapTakesOut(a, x, b, f);
    FilterMapConcat(front, [x], f);
  }

  /** Rearranging the elements rearranges their values. */
  lemma {:induction false} FilterMapPermutes<T, U>(xs: seq<T>, ys: seq<T>, f: T -> Option<U>)
    requires multiset(xs) == multiset(ys)
    ensures multiset(FilterMap(xs, f)) == multiset(FilterMap(ys, f))
  {
    if xs == [] {
      MembersOfPermutation(xs, ys);
      assert xs == ys;
    } else {
      var front, last := xs[..|xs| - 1], xs[|xs| - 1];
      assert xs == front + [last];
      var a, b := TakeOut(front, last, ys);
      FilterMapPermutes(front, a + b, f);
      FilterMapPutsBack(front, a, last, b, f);
    }
  }

  lemma {:induction false} SameMembersPermute<T>(xs: seq<T>, ys: seq<T>)
    requires Distinct(xs) && Distinct(ys) && forall x :: x in xs <==> x in ys
    ensures multiset(xs) == multiset(ys)
  {
    DistinctIffSingle(xs);
    DistinctIffSingle(ys);
    forall x ensures multiset(xs)[x] == multiset(ys)[x] {
      assert x in multiset(xs) <==> x in xs;
      assert x in multiset(ys) <==> x in ys;
    }
  }

  lemma SortedSetOfSameMembers(xs: seq<string>, ys: seq<string>)
    requires forall x :: x in xs <==> x in ys
    ensures SortedSet(xs) == SortedSet(ys)
  {
    DedupProperties(xs);
    DedupProperties(ys);
    SameMembersPermute(Dedup(xs), Dedup(ys));
    TextOrderIsTotal();
    TextTiesAreEqual(Dedup(xs));
    SortOfPermutation(Dedup(xs), Dedup(ys), TextOrder());
  }

  lemma MemberOfUnion(a: seq<string>, b: seq<string>, c: seq<string>, x: set<string>, y: set<string>, w: string)
    requires w in a <==> w in x
    requires w in b <==> w in y
    ensures w in a + b + c <==> w in Enumerate(x + y + set v | v in c)
  {
  }

  lemma SortedSetOfUnion(a: seq<string>, b: seq<string>, c: seq<string>, x: set<string>, y: set<string>)
    requires forall w :: w in a <==> w in x
    requires forall w :: w in b <==> w in y
    ensures SortedSet(a + b + c) == SortedOf(x + y + set w | w in c)
  {
    forall w ensures w in a + b + c <==> w in Enumerate(x + y + set v | v in c) {
      MemberOfUnion(a, b, c, x, y, w);
    }
    SortedSetOfSameMembers(a + b + c, Enumerate(x + y + set v | v in c));
  }

  function Flatten<T>(parts: seq<seq<T>>): seq<T> {
    if parts == [] then [] else Flatten(parts[..|parts| - 1]) + parts[|parts| - 1]
  }

  lemma {:induction false} FlattenEmpty<T>(parts: seq<seq<T>>)
    ensures Flatten(parts) == [] <==> forall i :: 0 <= i < |parts| ==> parts[i] == []
  {
    if parts != [] {
      FlattenEmpty(parts[..|parts| - 1]);
    }
  }

  lemma {:induction false} FlattenHas<T>(parts: seq<seq<T>>, x: T)
    ensures x in Flatten(parts) <==> exists i :: 0 <= i < |parts| && x in parts[i]
  {
    if parts != [] {
      FlattenHas(parts[..|parts| - 1], x);
    }
  }

  ghost predicate DistinctBy<T, K>(xs: seq<T>, key: T -> K) {
    forall i, j :: 0 <= i < j < |xs| ==> key(xs[i]) != key(xs[j])
  }

  lemma PermutedDistinctBy<T, K>(xs: seq<T>, ys: seq<T>, key: T -> K)
    requires DistinctBy(xs, key) && multiset(xs) == multiset(ys)
    ensures DistinctBy(ys, key)
  {
    MembersOfPermutation(xs, ys);
    assert Distinct(xs);
    PermutationOfDistinct(xs, ys);
    forall i, j | 0 <= i < j < |ys| ensures key(ys[i]) != key(ys[j]) {
      assert ys[i] in xs && ys[j] in xs && ys[i] != ys[j];
      var k :| 0 <= k < |xs| && xs[k] == ys[i];
      var l :| 0 <= l < |xs| && xs[l] == ys[j];
    }
  }
}
