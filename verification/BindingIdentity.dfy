/** What identifies a binding: its occurrence number, its position and its key. */
module BindingIdentity {
  import opened JsonValues
  import opened Ordering
  import opened SubmissionBindings

  /** All slots of the active forms, in the order the loops meet them. */
  function AllSlots(forms: seq<Json>, formIds: seq<string>): seq<Slot> {
    FormSlots(FormsById(forms), formIds, |formIds|)
  }

  /** A pair as the key spells it. */
  function Joined(slot: Slot): string {
    slot.form + ":" + slot.metadata
  }

  predicate SamePair(a: Slot, b: Slot) {
    a.form == b.form && a.metadata == b.metadata
  }

  // Occurrences

  lemma {:induction false} NumberedAt(slots: seq<Slot>, i: nat)
    requires i < |slots|
    ensures |Numbered(slots)| == |slots|
    ensures Numbered(slots)[i] == BindingOf(slots[i], CountSlots(slots[..i], slots[i].form, slots[i].metadata))
  {
    var front := slots[..|slots| - 1];
    if i < |front| {
      NumberedAt(front, i);
      assert front[..i] == slots[..i];
    } else if front != [] {
      NumberedAt(front, 0);
    }
  }

  lemma NumberedLength(slots: seq<Slot>)
    ensures |Numbered(slots)| == |slots|
  {
  }

  lemma {:induction false} CountGrows(slots: seq<Slot>, i: nat, j: nat)
    requires i < j <= |slots|
    ensures CountSlots(slots[..i], slots[i].form, slots[i].metadata) < CountSlots(slots[..j], slots[i].form,
            slots[i].metadata)
  {
    assert slots[..j][..j - 1] == slots[..j - 1];
    if i < j - 1 {
      CountGrows(slots, i, j - 1);
    }
  }

  lemma {:induction false} CountReaches(slots: seq<Slot>, form: string, metadata: string, n: nat) returns (i: nat)
    requires n < CountSlots(slots, form, metadata)
    ensures i < |slots| && slots[i].form == form && slots[i].metadata == metadata
    ensures CountSlots(slots[..i], form, metadata) == n
  {
    i := |slots| - 1;
    var front := slots[..i];
    if n < CountSlots(front, form, metadata) {
      i := CountReaches(front, form, metadata, n);
      assert front[..i] == slots[..i];
    }
  }

  predicate SameTriple(a: Binding, b: Binding) {
    a.form == b.form && a.metadata == b.metadata && a.occurrence == b.occurrence
  }

  /** No two bindings agree on form, metadata and occurrence. */
  ghost predicate TriplesDistinct(bindings: seq<Binding>) {
    forall i, j :: 0 <= i < j < |bindings| ==> !SameTriple(bindings[i], bindings[j])
  }

  ghost predicate HasOccurrence(bindings: seq<Binding>, form: string, metadata: string, n: nat) {
    exists b :: b in bindings && b.form == form && b.metadata == metadata && b.occurrence == n
  }

  /** The occurrences of each pair of form and metadata are 0, 1, ... without a gap. */
  ghost predicate OccurrencesDense(bindings: seq<Binding>) {
    forall b, n: nat {:trigger HasOccurrence(bindings, b.form, b.metadata, n)} ::
      b in bindings && n <= b.occurrence ==> HasOccurrence(bindings, b.form, b.metadata, n)
  }

  lemma NumberedTriples(slots: seq<Slot>)
    ensures TriplesDistinct(Numbered(slots))
  {
    var bindings := Numbered(slots);
    NumberedLength(slots);
    forall i, j | 0 <= i < j < |bindings| ensures !SameTriple(bindings[i], bindings[j]) {
      NumberedAt(slots, i);
      NumberedAt(slots, j);
      CountGrows(slots, i, j);
    }
  }

  lemma NumberedDense(slots: seq<Slot>)
    ensures OccurrencesDense(Numbered(slots))
  {
    var bindings := Numbered(slots);
    NumberedLength(slots);
    forall b, n: nat | b in bindings && n <= b.occurrence ensures HasOccurrence(bindings, b.form, b.metadata, n) {
      var j :| 0 <= j < |bindings| && bindings[j] == b;
      NumberedAt(slots, j);
      assert slots[..j + 1][..j] == slots[..j];
      var i := CountReaches(slots[..j + 1], b.form, b.metadata, n);
      assert slots[..j + 1][..i] == slots[..i];
      NumberedAt(slots, i);
      assert bindings[i] in bindings;
    }
  }

  function Triple(): Binding -> (string, string, nat) {
    (b: Binding) => (b.form, b.metadata, b.occurrence)
  }

  lemma PermutedTriples(xs: seq<Binding>, ys: seq<Binding>)
    requires multiset(xs) == multiset(ys) && TriplesDistinct(xs)
    ensures TriplesDistinct(ys)
  {
    assert DistinctBy(xs, Triple()) by {
      forall i, j | 0 <= i < j < |xs| ensures Triple()(xs[i]) != Triple()(xs[j]) {
        assert !SameTriple(xs[i], xs[j]);
      }
    }
    PermutedDistinctBy(xs, ys, Triple());
    forall i, j | 0 <= i < j < |ys| ensures !SameTriple(ys[i], ys[j]) {
      assert Triple()(ys[i]) != Triple()(ys[j]);
    }
  }

  lemma PermutedDense(xs: seq<Binding>, ys: seq<Binding>)
    requires multiset(xs) == multiset(ys) && OccurrencesDense(xs)
    ensures OccurrencesDense(ys)
  {
    MembersOfPermutation(xs, ys);
    forall b, n: nat | b in ys && n <= b.occurrence ensures HasOccurrence(ys, b.form, b.metadata, n) {
      assert HasOccurrence(xs, b.form, b.metadata, n);
    }
  }

  /** Each form numbers its uses of a metadata field 0, 1, ... and never gives a number twice. */
  lemma OccurrencesIdentify(forms: seq<Json>, formIds: seq<string>, registry: set<string>)
    ensures TriplesDistinct(CanonicalBindings(forms, formIds, registry).bindings)
    ensures OccurrencesDense(CanonicalBindings(forms, formIds, registry).bindings)
  {
    var numbered := Numbered(AllSlots(forms, formIds));
    NumberedTriples(AllSlots(forms, formIds));
    NumberedDense(AllSlots(forms, formIds));
    SortKeeps(numbered, KeyOrder());
    PermutedTriples(numbered, Sort(numbered, KeyOrder()));
    PermutedDense(numbered, Sort(numbered, KeyOrder()));
  }

  // Positions

  predicate LexLe(a: seq<int>, b: seq<int>) {
    a == [] || (b != [] && (a[0] < b[0] || (a[0] == b[0] && LexLe(a[1..], b[1..]))))
  }

  lemma {:induction false} LexTotal(a: seq<int>, b: seq<int>)
    ensures LexLe(a, b) || LexLe(b, a)
    ensures LexLe(a, b) && LexLe(b, a) ==> a == b
  {
    if a != [] && b != [] && a[0] == b[0] {
      LexTotal(a[1..], b[1..]);
      assert a == [a[0]] + a[1..] && b == [b[0]] + b[1..];
    }
  }

  lemma {:induction false} LexTransitive(a: seq<int>, b: seq<int>, c: seq<int>)
    requires LexLe(a, b) && LexLe(b, c)
    ensures LexLe(a, c)
  {
    if a != [] && a[0] == b[0] == c[0] {
      LexTransitive(a[1..], b[1..], c[1..]);
    }
  }

  lemma {:induction false} LexBelow(at: seq<int>, a: seq<int>, b: seq<int>)
    requires at < a && at < b && a[|at|] < b[|at|]
    ensures LexLe(a, b) && a != b
  {
    if at != [] {
      assert a[0] == at[0] == b[0];
      LexBelow(at[1..], a[1..], b[1..]);
    }
  }

  predicate PositionLess(a: Slot, b: Slot) {
    LexLe(a.position, b.position) && a.position != b.position
  }

  ghost predicate Ascending(slots: seq<Slot>) {
    forall i, j :: 0 <= i < j < |slots| ==> PositionLess(slots[i], slots[j])
  }

  /** Every slot lies under `at`, at an index below `n`. */
  ghost predicate Under(slots: seq<Slot>, at: seq<int>, n: nat) {
    forall i :: 0 <= i < |slots| ==> at < slots[i].position && slots[i].position[|at|] < n
  }

  /** Slots under index `n` come after the slots under smaller indices. */
  lemma AscendingAppend(front: seq<Slot>, more: seq<Slot>, at: seq<int>, n: nat)
    requires Ascending(front) && Under(front, at, n) && Ascending(more)
    requires forall i :: 0 <= i < |more| ==> at + [n] <= more[i].position
    ensures Ascending(front + more) && Under(front + more, at, n + 1)
  {
    var all := front + more;
    forall i | 0 <= i < |more| ensures at < more[i].position && more[i].position[|at|] == n {
      assert at + [n] <= more[i].position;
      assert (at + [n])[|at|] == n;
    }
    forall i, j | 0 <= i < j < |all| ensures PositionLess(all[i], all[j]) {
      if i < |front| <= j {
        LexBelow(at, all[i].position, all[j].position);
      }
    }
  }

  lemma {:induction false} OptionsAscend(form: string, at: seq<int>, field: Json, options: seq<Json>, n: nat)
    requires n <= |options|
    ensures Ascending(OptionSlots(form, at, field, options, n))
            && Under(OptionSlots(form, at, field, options, n), at, n)
  {
    if n > 0 {
      OptionsAscend(form, at, field, options, n - 1);
      var front := OptionSlots(form, at, field, options, n - 1);
      var metadata := Get(options[n - 1], "metadata");
      AscendingAppend(front, [], at, n - 1);
      assert front + [] == front;
      if IsText(metadata) {
        AscendingAppend(front, [Slot(form, metadata.text, at + [n - 1], field, options[n - 1])], at, n - 1);
      }
    }
  }

  /** These slots ascend, and all lie at or under `at`. */
  ghost predicate AscendAt(slots: seq<Slot>, at: seq<int>) {
    Ascending(slots) && forall i :: 0 <= i < |slots| ==> at <= slots[i].position
  }

  lemma FieldAscends(form: string, at: seq<int>, field: Json)
    ensures AscendAt(SlotsOfField(form, at, field), at)
  {
    var selectable := Get(field, "selectableMetadata");
    if selectable.Arr? {
      OptionsAscend(form, at, field, selectable.items, |selectable.items|);
    }
  }

  lemma {:induction false} FieldsAscend(form: string, at: seq<int>, fields: seq<Json>, n: nat)
    requires n <= |fields|
    ensures Ascending(FieldSlots(form, at, fields, n)) && Under(FieldSlots(form, at, fields, n), at, n)
  {
    if n > 0 {
      FieldsAscend(form, at, fields, n - 1);
      FieldAscends(form, at + [n - 1], fields[n - 1]);
      AscendingAppend(FieldSlots(form, at, fields, n - 1), SlotsOfField(form, at + [n - 1], fields[n - 1]), at, n - 1);
    }
  }

  lemma RowAscends(form: string, at: seq<int>, row: Json)
    ensures AscendAt(SlotsOfRow(form, at, row), at)
  {
    var fields := Get(row, "fields");
    if fields.Arr? {
      FieldsAscend(form, at, fields.items, |fields.items|);
    }
  }

  lemma {:induction false} RowsAscend(form: string, at: seq<int>, rows: seq<Json>, n: nat)
    requires n <= |rows|
    ensures Ascending(RowSlots(form, at, rows, n)) && Under(RowSlots(form, at, rows, n), at, n)
  {
    if n > 0 {
      RowsAscend(form, at, rows, n - 1);
      RowAscends(form, at + [n - 1], rows[n - 1]);
      AscendingAppend(RowSlots(form, at, rows, n - 1), SlotsOfRow(form, at + [n - 1], rows[n - 1]), at, n - 1);
    }
  }

  lemma FormAscends(byId: map<string, Json>, form: string, order: nat)
    ensures AscendAt(SlotsOfForm(byId, form, order), [order])
  {
    var rows := RowsOf(byId, form);
    if rows.Arr? {
      RowsAscend(form, [order], rows.items, |rows.items|);
    }
  }

  lemma {:induction false} FormsAscend(byId: map<string, Json>, formIds: seq<string>, n: nat)
    requires n <= |formIds|
    ensures Ascending(FormSlots(byId, formIds, n)) && Under(FormSlots(byId, formIds, n), [], n)
  {
    if n > 0 {
      FormsAscend(byId, formIds, n - 1);
      FormAscends(byId, formIds[n - 1], n - 1);
      assert [] + [n - 1] == [n - 1];
      AscendingAppend(FormSlots(byId, formIds, n - 1), SlotsOfForm(byId, formIds[n - 1], n - 1), [], n - 1);
    }
  }

  function PositionOrder(): (Binding, Binding) -> bool {
    (a: Binding, b: Binding) => LexLe(a.position, b.position)
  }

  lemma PositionOrderIsTotal()
    ensures TotalPreorder(PositionOrder())
  {
    forall a: Binding, b: Binding ensures PositionOrder()(a, b) || PositionOrder()(b, a) {
      LexTotal(a.position, b.position);
    }
    forall a: Binding, b: Binding, c: Binding | PositionOrder()(a, b) && PositionOrder()(b, c)
      ensures PositionOrder()(a, c)
    {
      LexTransitive(a.position, b.position, c.position);
    }
  }

  ghost predicate PositionsAscend(bindings: seq<Binding>) {
    forall i, j :: 0 <= i < j < |bindings| ==>
      LexLe(bindings[i].position, bindings[j].position) && bindings[i].position != bindings[j].position
  }

  lemma EmissionAscends(forms: seq<Json>, formIds: seq<string>)
    ensures PositionsAscend(Numbered(AllSlots(forms, formIds)))
  {
    var slots := AllSlots(forms, formIds);
    FormsAscend(FormsById(forms), formIds, |formIds|);
    NumberedLength(slots);
    forall i, j | 0 <= i < j < |slots|
      ensures LexLe(Numbered(slots)[i].position, Numbered(slots)[j].position)
      ensures Numbered(slots)[i].position != Numbered(slots)[j].position
    {
      NumberedAt(slots, i);
      NumberedAt(slots, j);
      assert PositionLess(slots[i], slots[j]);
    }
  }

  /** Sorting the canonical bindings by position gives back the order in which the loops met them. */
  lemma PositionUndoesKeyOrder(forms: seq<Json>, formIds: seq<string>, registry: set<string>)
    ensures Sort(CanonicalBindings(forms, formIds, registry).bindings, PositionOrder())
         == Numbered(AllSlots(forms, formIds))
  {
    var numbered := Numbered(AllSlots(forms, formIds));
    var canonical := CanonicalBindings(forms, formIds, registry).bindings;
    EmissionAscends(forms, formIds);
    PositionOrderIsTotal();
    SortKeeps(numbered, KeyOrder());
    assert TiesAreEqual(numbered, PositionOrder()) by {
      forall i, j | 0 <= i < |numbered| && 0 <= j < |numbered|
        && PositionOrder()(numbered[i], numbered[j]) && PositionOrder()(numbered[j], numbered[i])
        ensures numbered[i] == numbered[j]
      {
        LexTotal(numbered[i].position, numbered[j].position);
      }
    }
    SortOfPermutation(numbered, canonical, PositionOrder());
    SortOfSorted(numbered, PositionOrder());
  }

  // Keys

  ghost predicate NoColon(text: string) {
    ':' !in text
  }

  lemma {:induction false} NatTextHasNoColon(n: nat)
    ensures NatText(n) != "" && NoColon(NatText(n))
  {
    if n >= 10 {
      NatTextHasNoColon(n / 10);
    }
  }

  lemma {:induction false} NatTextIsInjective(m: nat, n: nat)
    requires NatText(m) == NatText(n)
    ensures m == n
  {
    NatTextHasNoColon(m / 10);
    NatTextHasNoColon(n / 10);
    var a, b := NatText(m), NatText(n);
    assert a[|a| - 1] == b[|b| - 1];
    if m >= 10 && n >= 10 {
      assert a[..|a| - 1] == NatText(m / 10) && b[..|b| - 1] == NatText(n / 10);
      NatTextIsInjective(m / 10, n / 10);
      assert Digit(m % 10) == Digit(n % 10);
    } else {
      assert |NatText(m / 10)| >= 1 && |NatText(n / 10)| >= 1;
    }
  }

  lemma LastColon(a: string, x: string)
    requires NoColon(x)
    ensures (a + ":" + x)[|a|] == ':' && forall k :: |a| < k < |a + ":" + x| ==> (a + ":" + x)[k] != ':'
  {
  }

  lemma FirstColon(a: string, x: string)
    requires NoColon(a)
    ensures (a + ":" + x)[|a|] == ':' && forall k :: 0 <= k < |a| ==> (a + ":" + x)[k] != ':'
  {
  }

  lemma SameSplit(a: string, x: string, b: string, y: string)
    requires |a| == |b| && a + ":" + x == b + ":" + y
    ensures a == b && x == y
  {
    assert a == (a + ":" + x)[..|a|] && b == (b + ":" + y)[..|b|];
    assert x == (a + ":" + x)[|a| + 1..] && y == (b + ":" + y)[|b| + 1..];
  }

  lemma LastColonSplits(a: string, x: string, b: string, y: string)
    requires NoColon(x) && NoColon(y) && a + ":" + x == b + ":" + y
    ensures a == b && x == y
  {
    LastColon(a, x);
    LastColon(b, y);
    SameSplit(a, x, b, y);
  }

  lemma FirstColonSplits(a: string, x: string, b: string, y: string)
    requires NoColon(a) && NoColon(b) && a + ":" + x == b + ":" + y
    ensures a == b && x == y
  {
    FirstColon(a, x);
    FirstColon(b, y);
    SameSplit(a, x, b, y);
  }

  /** A key tells the joined pair and the occurrence, and nothing more. */
  lemma KeysCollide(form: string, metadata: string, n: nat, otherForm: string, otherMetadata: string, m: nat)
    ensures BindingKey(form, metadata, n) == BindingKey(otherForm, otherMetadata, m)
       <==> form + ":" + metadata == otherForm + ":" + otherMetadata && n == m
  {
    if BindingKey(form, metadata, n) == BindingKey(otherForm, otherMetadata, m) {
      NatTextHasNoColon(n);
      NatTextHasNoColon(m);
      LastColonSplits(form + ":" + metadata, NatText(n), otherForm + ":" + otherMetadata, NatText(m));
      NatTextIsInjective(n, m);
    }
  }

  /** Two slots of different pairs never read the same once joined. */
  ghost predicate JoinsTellPairs(slots: seq<Slot>) {
    forall i, j :: 0 <= i < |slots| && 0 <= j < |slots| && Joined(slots[i]) == Joined(slots[j]) ==>
      SamePair(slots[i], slots[j])
  }

  ghost predicate KeysDistinct(bindings: seq<Binding>) {
    DistinctBy(bindings, KeyOf())
  }

  lemma KeysTellWhenJoinsDo(slots: seq<Slot>)
    requires JoinsTellPairs(slots)
    ensures KeysDistinct(Numbered(slots))
  {
    NumberedLength(slots);
    NumberedTriples(slots);
    var bindings := Numbered(slots);
    forall i, j | 0 <= i < j < |bindings| ensures KeyOf()(bindings[i]) != KeyOf()(bindings[j]) {
      NumberedAt(slots, i);
      NumberedAt(slots, j);
      var a, b := bindings[i], bindings[j];
      KeysCollide(a.form, a.metadata, a.occurrence, b.form, b.metadata, b.occurrence);
      assert !SameTriple(a, b);
    }
  }

  lemma JoinsTellWhenKeysDo(slots: seq<Slot>)
    requires KeysDistinct(Numbered(slots))
    ensures JoinsTellPairs(slots)
  {
    NumberedLength(slots);
    var bindings := Numbered(slots);
    forall i, j | 0 <= i < |slots| && 0 <= j < |slots| && Joined(slots[i]) == Joined(slots[j])
      ensures SamePair(slots[i], slots[j])
    {
      CountGrows(slots, i, |slots|);
      CountGrows(slots, j, |slots|);
      assert slots[..|slots|] == slots;
      var a := CountReaches(slots, slots[i].form, slots[i].metadata, 0);
      var b := CountReaches(slots, slots[j].form, slots[j].metadata, 0);
      NumberedAt(slots, a);
      NumberedAt(slots, b);
      KeysCollide(slots[i].form, slots[i].metadata, 0, slots[j].form, slots[j].metadata, 0);
      assert KeyOf()(bindings[a]) == KeyOf()(bindings[b]);
      assert a == b;
    }
  }

  /** Binding keys are pairwise distinct exactly when no two active pairs join to the same text. */
  lemma KeysDistinctIff(forms: seq<Json>, formIds: seq<string>, registry: set<string>)
    ensures KeysDistinct(CanonicalBindings(forms, formIds, registry).bindings)
       <==> JoinsTellPairs(AllSlots(forms, formIds))
  {
    var slots := AllSlots(forms, formIds);
    var numbered, sorted := Numbered(slots), Sort(Numbered(slots), KeyOrder());
    SortKeeps(numbered, KeyOrder());
    if KeysDistinct(sorted) {
      PermutedDistinctBy(sorted, numbered, KeyOf());
      JoinsTellWhenKeysDo(slots);
    }
    if JoinsTellPairs(slots) {
      KeysTellWhenJoinsDo(slots);
      PermutedDistinctBy(numbered, sorted, KeyOf());
    }
  }

  lemma {:induction false} SlotsNameTheirForm(byId: map<string, Json>, formIds: seq<string>, n: nat)
    requires n <= |formIds|
    ensures forall slot :: slot in FormSlots(byId, formIds, n) ==> slot.form in formIds
  {
    if n > 0 {
      SlotsNameTheirForm(byId, formIds, n - 1);
      var rows := RowsOf(byId, formIds[n - 1]);
      if rows.Arr? {
        RowsNameForm(formIds[n - 1], [n - 1], rows.items, |rows.items|);
      }
    }
  }

  lemma {:induction false} RowsNameForm(form: string, at: seq<int>, rows: seq<Json>, n: nat)
    requires n <= |rows|
    ensures forall slot :: slot in RowSlots(form, at, rows, n) ==> slot.form == form
  {
    if n > 0 {
      RowsNameForm(form, at, rows, n - 1);
      var fields := Get(rows[n - 1], "fields");
      if fields.Arr? {
        FieldsNameForm(form, at + [n - 1], fields.items, |fields.items|);
      }
    }
  }

  lemma {:induction false} FieldsNameForm(form: string, at: seq<int>, fields: seq<Json>, n: nat)
    requires n <= |fields|
    ensures forall slot :: slot in FieldSlots(form, at, fields, n) ==> slot.form == form
  {
    if n > 0 {
      FieldsNameForm(form, at, fields, n - 1);
      var selectable := Get(fields[n - 1], "selectableMetadata");
      if selectable.Arr? {
        OptionsNameForm(form, at + [n - 1], fields[n - 1], selectable.items, |selectable.items|);
      }
    }
  }

  lemma {:induction false} OptionsNameForm(form: string, at: seq<int>, field: Json, options: seq<Json>, n: nat)
    requires n <= |options|
    ensures forall slot :: slot in OptionSlots(form, at, field, options, n) ==> slot.form == form
  {
    if n > 0 {
      OptionsNameForm(form, at, field, options, n - 1);
    }
  }

  /** Form identifiers without a colon are enough for distinct keys. */
  lemma PlainFormIdsGiveDistinctKeys(forms: seq<Json>, formIds: seq<string>, registry: set<string>)
    requires forall form :: form in formIds ==> NoColon(form)
    ensures KeysDistinct(CanonicalBindings(forms, formIds, registry).bindings)
  {
    var slots := AllSlots(forms, formIds);
    SlotsNameTheirForm(FormsById(forms), formIds, |formIds|);
    forall i, j | 0 <= i < |slots| && 0 <= j < |slots| && Joined(slots[i]) == Joined(slots[j])
      ensures SamePair(slots[i], slots[j])
    {
      assert slots[i] in slots && slots[j] in slots;
      FirstColonSplits(slots[i].form, slots[i].metadata, slots[j].form, slots[j].metadata);
    }
    KeysDistinctIff(forms, formIds, registry);
  }

  function FormWith(id: string, metadata: string): Json {
    var field := Obj(map["selectableMetadata" := Arr([Obj(map["metadata" := Str(metadata)])])]);
    Obj(map["id" := Str(id), "rows" := Arr([Obj(map["fields" := Arr([field])])])])
  }

  lemma TwoForms(first: Json, second: Json)
    requires IsText(Get(first, "id")) && IsText(Get(second, "id")) && Get(first, "id") != Get(second, "id")
    ensures FormsById([first, second]) == map[Get(first, "id").text := first, Get(second, "id").text := second]
  {
    assert [first, second][..1] == [first];
    assert FormsById([first]) == map[Get(first, "id").text := first];
  }

  lemma OneSlot(id: string, metadata: string, order: nat)
    requires metadata != ""
    ensures var slots := RowSlots(id, [order], Get(FormWith(id, metadata), "rows").items, 1);
            |slots| == 1 && slots[0].form == id && slots[0].metadata == metadata
  {
    var choice := Obj(map["metadata" := Str(metadata)]);
    var field := Obj(map["selectableMetadata" := Arr([choice])]);
    var row := Obj(map["fields" := Arr([field])]);
    var at := [order] + [0] + [0];
    assert OptionSlots(id, at, field, [choice], 1) == [] + [Slot(id, metadata, at + [0], field, choice)];
    assert FieldSlots(id, [order] + [0], [field], 1) == [] + SlotsOfField(id, at, field);
    assert RowSlots(id, [order], [row], 1) == [] + SlotsOfRow(id, [order] + [0], row);
  }

  lemma OneSlotEach(forms: seq<Json>, formIds: seq<string>, metadata: seq<string>)
    requires |forms| == |formIds| == |metadata| == 2 && formIds[0] != formIds[1]
    requires forall i ::
             0 <= i < 2 ==> formIds[i] != "" && metadata[i] != "" && forms[i] == FormWith(formIds[i], metadata[i])
    ensures var slots := AllSlots(forms, formIds);
            |slots| == 2 && forall i :: 0 <= i < 2 ==> slots[i].form == formIds[i] && slots[i].metadata == metadata[i]
  {
    TwoForms(forms[0], forms[1]);
    assert forms == [forms[0], forms[1]];
    OneSlot(formIds[0], metadata[0], 0);
    OneSlot(formIds[1], metadata[1], 1);
    assert FormSlots(FormsById(forms), formIds, 1) == [] + SlotsOfForm(FormsById(forms), formIds[0], 0);
  }

  lemma JoinedAlikeCollide(forms: seq<Json>, formIds: seq<string>, registry: set<string>)
    requires var slots := AllSlots(forms, formIds);
             |slots| == 2 && Joined(slots[0]) == Joined(slots[1]) && !SamePair(slots[0], slots[1])
    ensures !KeysDistinct(CanonicalBindings(forms, formIds, registry).bindings)
  {
    KeysDistinctIff(forms, formIds, registry);
  }

  lemma JoinedAlike(a: Slot, b: Slot)
    requires a.form == "a:b" && a.metadata == "c" && b.form == "a" && b.metadata == "b:c"
    ensures Joined(a) == Joined(b) && !SamePair(a, b)
  {
    assert Joined(a) == "a:b:c" == Joined(b);
  }

  /** Form `a:b` with field `c` and form `a` with field `b:c` share the key `a:b:c:0`. */
  lemma ColonsCanCollide()
    ensures !KeysDistinct(
      CanonicalBindings([FormWith("a:b", "c"), FormWith("a", "b:c")], ["a:b", "a"], {"c", "b:c"}).bindings)
  {
    var forms, formIds := [FormWith("a:b", "c"), FormWith("a", "b:c")], ["a:b", "a"];
    OneSlotEach(forms, formIds, ["c", "b:c"]);
    JoinedAlike(AllSlots(forms, formIds)[0], AllSlots(forms, formIds)[1]);
    JoinedAlikeCollide(forms, formIds, {"c", "b:c"});
  }
}
