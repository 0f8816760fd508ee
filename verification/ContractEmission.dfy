/**
  In which order a comparison emits its change records.  They ascend strictly, so that no record is
  emitted twice, and together with what is emitted at all the whole list is determined.
 */
module ContractEmission {
  import opened JsonValues
  import opened Ordering
  import opened SubmissionBindings
  import opened ContractSnapshot
  import opened ContractDiff

  /** Schemas, then fields, then bindings: each the added, the removed and the changed ones; then the form structure. */
  function Block(c: Change): nat {
    match c.changeType
    case UnobservableSurface => 0
    case SchemaAdded => 1
    case SchemaRemoved => 2
    case SchemaChanged => 3
    case FieldAdded => 4
    case FieldRemoved => 5
    case FieldIdChanged | FieldChanged => 6
    case BindingAdded => 7
    case BindingRemoved => 8
    case FormStructureChanged => if c.identity == "activeDefinition" then 10 else 11
    case _ => 9
  }

  /** Among the changes of one item. */
  function Place(t: ChangeType): nat {
    match t
    case FieldIdChanged | OrderChanged => 0
    case FieldChanged | LabelChanged => 1
    case RequiredChanged => 2
    case RepeatableChanged => 3
    case InputTypeChanged => 4
    case VocabularyChanged => 5
    case _ => 6
  }

  predicate Before(x: Change, y: Change) {
    if Block(x) != Block(y) then Block(x) < Block(y)
    else if x.identity != y.identity then TextLe(x.identity, y.identity)
    else Place(x.changeType) < Place(y.changeType)
  }

  ghost predicate Ascends(changes: seq<Change>) {
    forall i, j :: 0 <= i < j < |changes| ==> Before(changes[i], changes[j])
  }

  ghost predicate AllIn(changes: seq<Change>, low: nat, high: nat) {
    forall i :: 0 <= i < |changes| ==> low <= Block(changes[i]) < high
  }

  lemma AscendsTogether(a: seq<Change>, b: seq<Change>, low: nat, middle: nat, high: nat)
    requires Ascends(a) && AllIn(a, low, middle) && Ascends(b) && AllIn(b, middle, high) && low <= middle <= high
    ensures Ascends(a + b) && AllIn(a + b, low, high)
  {
  }

  /** In the order of their names, each once. */
  ghost predicate Alphabetic(keys: seq<string>) {
    SortedBy(keys, TextOrder()) && Distinct(keys)
  }

  lemma KeysAreAlphabetic<T>(items: seq<T>, key: T -> string, other: map<string, T>, shared: bool)
    ensures Alphabetic(KeysOf(items, key, other, shared))
  {
    SortedSetProperties(FilterMap(items, (item: T) =>
      if (key(item) in other) == shared then Some(key(item)) else None));
  }

  /** What is written about an item carries its name and belongs to this block. */
  ghost predicate Writes<T(!new)>(emit: (string, T) -> Change, block: nat) {
    forall key, item :: emit(key, item).identity == key && Block(emit(key, item)) == block
  }

  lemma EachAscends<T(!new)>(keys: seq<string>, items: map<string, T>, emit: (string, T) -> Change, block: nat)
    requires forall k :: k in keys ==> k in items
    requires Alphabetic(keys) && Writes(emit, block)
    ensures Ascends(Each(keys, items, emit)) && AllIn(Each(keys, items, emit), block, block + 1)
  {
    var changes := Each(keys, items, emit);
    forall i, j | 0 <= i < j < |changes| ensures Before(changes[i], changes[j]) {
      assert TextOrder()(keys[i], keys[j]);
    }
  }

  ghost predicate AllAbout(changes: seq<Change>, key: string) {
    forall i :: 0 <= i < |changes| ==> changes[i].identity == key
  }

  ghost predicate Compares<T(!new)>(compare: (string, T, T) -> seq<Change>, block: nat) {
    forall key, a, b ::
      var changes := compare(key, a, b);
      AllAbout(changes, key) && Ascends(changes) && AllIn(changes, block, block + 1)
  }

  /** Everything so far is about names before this one. */
  ghost predicate AboutEarlier(changes: seq<Change>, key: string) {
    forall i :: 0 <= i < |changes| ==> changes[i].identity != key && TextLe(changes[i].identity, key)
  }

  lemma AscendsOneKey(front: seq<Change>, more: seq<Change>, key: string, block: nat)
    requires Ascends(front) && AllIn(front, block, block + 1) && AboutEarlier(front, key)
    requires Ascends(more) && AllIn(more, block, block + 1) && AllAbout(more, key)
    ensures Ascends(front + more) && AllIn(front + more, block, block + 1)
  {
  }

  ghost predicate AboutKeys(changes: seq<Change>, keys: seq<string>) {
    forall i :: 0 <= i < |changes| ==> changes[i].identity in keys
  }

  lemma LastKeyIsLater(keys: seq<string>, changes: seq<Change>)
    requires Alphabetic(keys) && keys != [] && AboutKeys(changes, keys[..|keys| - 1])
    ensures AboutEarlier(changes, keys[|keys| - 1])
  {
    var n := |keys| - 1;
    forall i | 0 <= i < |changes| ensures changes[i].identity != keys[n] && TextLe(changes[i].identity, keys[n]) {
      var k :| 0 <= k < n && keys[..n][k] == changes[i].identity;
      assert TextOrder()(keys[k], keys[n]);
    }
  }

  lemma {:induction false} PerKeyAscends<T(!new)>(
    keys: seq<string>, was: map<string, T>, now: map<string, T>, compare: (string, T, T) -> seq<Change>, block: nat)
    requires forall k :: k in keys ==> k in was && k in now
    requires Alphabetic(keys) && Compares(compare, block)
    ensures var changes := Flatten(PerKey(keys, was, now, compare));
            Ascends(changes) && AllIn(changes, block, block + 1) && AboutKeys(changes, keys)
  {
    if keys != [] {
      var n := |keys| - 1;
      var front, last := keys[..n], keys[n];
      assert keys == front + [last];
      PerKeyAscends(front, was, now, compare, block);
      var before := Flatten(PerKey(front, was, now, compare));
      assert PerKey(keys, was, now, compare)[..n] == PerKey(front, was, now, compare);
      LastKeyIsLater(keys, before);
      AscendsOneKey(before, compare(last, was[last], now[last]), last, block);
    }
  }

  lemma ItemsAscend<T(!new)>(a: seq<T>, b: seq<T>, complete: bool, kind: Kind<T>, block: nat)
    requires Writes(kind.added, block) && Writes(kind.removed, block + 1) && Compares(kind.compare, block + 2)
    ensures Ascends(DiffItems(a, b, complete, kind)) && AllIn(DiffItems(a, b, complete, kind), block, block + 3)
  {
    var was, now := MapBy(a, kind.key), MapBy(b, kind.key);
    KeysOfMeaning(b, kind.key, was, false);
    KeysOfMeaning(a, kind.key, now, false);
    KeysOfMeaning(a, kind.key, now, true);
    KeysAreAlphabetic(b, kind.key, was, false);
    KeysAreAlphabetic(a, kind.key, now, false);
    KeysAreAlphabetic(a, kind.key, now, true);
    var added := Each(KeysOf(b, kind.key, was, false), now, kind.added);
    var removed := if complete then Each(KeysOf(a, kind.key, now, false), was, kind.removed) else [];
    var changed := Flatten(PerKey(KeysOf(a, kind.key, now, true), was, now, kind.compare));
    EachAscends(KeysOf(b, kind.key, was, false), now, kind.added, block);
    EachAscends(KeysOf(a, kind.key, now, false), was, kind.removed, block + 1);
    PerKeyAscends(KeysOf(a, kind.key, now, true), was, now, kind.compare, block + 2);
    AscendsTogether(added, removed, block, block + 1, block + 2);
    AscendsTogether(added + removed, changed, block, block + 2, block + 3);
  }

  /** Types of one binding's changes, in their order. */
  ghost predicate TypesAscend(types: seq<(ChangeType, Severity)>, low: nat, high: nat) {
    && (forall i ::
       0 <= i < |types| ==>
         low <= Place(types[i].0) < high && Block(Change(types[i].0, Info, "", Nothing, Nothing)) == 9)
    && forall i, j :: 0 <= i < j < |types| ==> Place(types[i].0) < Place(types[j].0)
  }

  lemma TypesTogether(
    a: seq<(ChangeType, Severity)>, b: seq<(ChangeType, Severity)>, low: nat, middle: nat, high: nat)
    requires TypesAscend(a, low, middle) && TypesAscend(b, middle, high) && low <= middle <= high
    ensures TypesAscend(a + b, low, high)
  {
  }

  lemma OneType(differs: bool, t: ChangeType, severity: Severity, place: nat)
    requires Place(t) == place && Block(Change(t, Info, "", Nothing, Nothing)) == 9
    ensures TypesAscend(TypeIf(differs, t, severity), place, place + 1)
  {
  }

  lemma SixTypes(
    a: seq<(ChangeType, Severity)>, b: seq<(ChangeType, Severity)>, c: seq<(ChangeType, Severity)>,
    d: seq<(ChangeType, Severity)>, e: seq<(ChangeType, Severity)>, f: seq<(ChangeType, Severity)>)
    requires TypesAscend(a, 0, 1) && TypesAscend(b, 1, 2) && TypesAscend(c, 2, 3)
    requires TypesAscend(d, 3, 4) && TypesAscend(e, 4, 5) && TypesAscend(f, 5, 6)
    ensures TypesAscend(a + b + c + d + e + f, 0, 6)
  {
    TypesTogether(a, b, 0, 1, 2);
    TypesTogether(a + b, c, 0, 2, 3);
    TypesTogether(a + b + c, d, 0, 3, 4);
    TypesTogether(a + b + c + d, e, 0, 4, 5);
    TypesTogether(a + b + c + d + e, f, 0, 5, 6);
  }

  lemma AppearanceAscends(position: bool, caption: bool)
    ensures TypesAscend(TypeIf(position, OrderChanged, Info), 0, 1)
            && TypesAscend(TypeIf(caption, LabelChanged, Low), 1, 2)
  {
    OneType(position, OrderChanged, Info, 0);
    OneType(caption, LabelChanged, Low, 1);
  }

  lemma CardinalityAscends(required: bool, repeatable: bool)
    ensures TypesAscend(TypeIf(required, RequiredChanged, High), 2, 3)
    ensures TypesAscend(TypeIf(repeatable, RepeatableChanged, High), 3, 4)
  {
    OneType(required, RequiredChanged, High, 2);
    OneType(repeatable, RepeatableChanged, High, 3);
  }

  lemma InputAscends(inputType: bool, vocabulary: bool)
    ensures TypesAscend(TypeIf(inputType, InputTypeChanged, High), 4, 5)
    ensures TypesAscend(TypeIf(vocabulary, VocabularyChanged, High), 5, 6)
  {
    OneType(inputType, InputTypeChanged, High, 4);
    OneType(vocabulary, VocabularyChanged, High, 5);
  }

  lemma SpecificAscend(
    position: bool, caption: bool, required: bool, repeatable: bool, inputType: bool, vocabulary: bool)
    ensures TypesAscend(SpecificTypes(position, caption, required, repeatable, inputType, vocabulary), 0, 6)
  {
    AppearanceAscends(position, caption);
    CardinalityAscends(required, repeatable);
    InputAscends(inputType, vocabulary);
    SixTypes(
      TypeIf(position, OrderChanged, Info),
      TypeIf(caption, LabelChanged, Low),
      TypeIf(required, RequiredChanged, High),
      TypeIf(repeatable, RepeatableChanged, High),
      TypeIf(inputType, InputTypeChanged, High),
      TypeIf(vocabulary, VocabularyChanged, High));
  }

  lemma GeneralAscends(specific: seq<(ChangeType, Severity)>)
    requires TypesAscend(specific, 0, 6)
    ensures TypesAscend(OrGeneral(specific), 0, 7)
  {
  }

  lemma BindingTypesAscend(a: Binding, b: Binding)
    ensures TypesAscend(BindingChangeTypes(a, b), 0, 7)
  {
    var vocabulary := a.controlledVocabulary != b.controlledVocabulary || a.closed != b.closed;
    SpecificAscend(
      a.position != b.position, a.fieldLabel != b.fieldLabel, a.required != b.required, a.repeatable != b.repeatable,
      a.inputType != b.inputType, vocabulary);
    GeneralAscends(
      SpecificTypes(
        a.position != b.position, a.fieldLabel != b.fieldLabel, a.required != b.required, a.repeatable != b.repeatable,
        a.inputType != b.inputType, vocabulary));
  }

  ghost predicate WrittenAs(changes: seq<Change>, types: seq<(ChangeType, Severity)>, key: string) {
    && |changes| == |types|
    && forall i :: 0 <= i < |changes| ==> changes[i].changeType == types[i].0 && changes[i].identity == key
  }

  lemma TypesWritten(changes: seq<Change>, types: seq<(ChangeType, Severity)>, key: string)
    requires TypesAscend(types, 0, 7) && WrittenAs(changes, types, key)
    ensures AllAbout(changes, key) && Ascends(changes) && AllIn(changes, 9, 10)
  {
    forall i | 0 <= i < |changes| ensures Block(changes[i]) == 9 {
      assert Block(Change(types[i].0, Info, "", Nothing, Nothing)) == 9;
    }
  }

  lemma BindingsCompared(key: string, a: Binding, b: Binding)
    ensures var changes := CompareBindings(key, a, b);
            AllAbout(changes, key) && Ascends(changes) && AllIn(changes, 9, 10)
  {
    if a != b {
      BindingTypesAscend(a, b);
      assert WrittenAs(CompareBindings(key, a, b), BindingChangeTypes(a, b), key);
      TypesWritten(CompareBindings(key, a, b), BindingChangeTypes(a, b), key);
    }
  }

  lemma SchemasAscend(a: seq<SchemaEntry>, b: seq<SchemaEntry>, complete: bool)
    ensures Ascends(DiffItems(a, b, complete, SchemaKind())) && AllIn(DiffItems(a, b, complete, SchemaKind()), 1, 4)
  {
    ItemsAscend(a, b, complete, SchemaKind(), 1);
  }

  lemma FieldsAscend(a: seq<FieldEntry>, b: seq<FieldEntry>, complete: bool)
    ensures Ascends(DiffItems(a, b, complete, FieldKind())) && AllIn(DiffItems(a, b, complete, FieldKind()), 4, 7)
  {
    ItemsAscend(a, b, complete, FieldKind(), 4);
  }

  lemma BindingsAscend(a: seq<Binding>, b: seq<Binding>, complete: bool)
    ensures Ascends(DiffItems(a, b, complete, BindingKind())) && AllIn(DiffItems(a, b, complete, BindingKind()), 7, 10)
  {
    forall key, x, y
      ensures var changes := CompareBindings(key, x, y);
              AllAbout(changes, key) && Ascends(changes) && AllIn(changes, 9, 10)
    {
      BindingsCompared(key, x, y);
    }
    ItemsAscend(a, b, complete, BindingKind(), 7);
  }

  lemma FormsAscend(a: Canonical, b: Canonical)
    ensures Ascends(FormChanges(a, b)) && AllIn(FormChanges(a, b), 10, 12)
  {
    AscendsTogether(DefinitionChanges(a, b), SectionsChanges(a, b), 10, 11, 12);
  }

  lemma FourAscend(a: seq<Change>, b: seq<Change>, c: seq<Change>, d: seq<Change>)
    requires Ascends(a) && AllIn(a, 1, 4) && Ascends(b) && AllIn(b, 4, 7)
    requires Ascends(c) && AllIn(c, 7, 10) && Ascends(d) && AllIn(d, 10, 12)
    ensures Ascends(a + b + c + d) && AllIn(a + b + c + d, 1, 12)
  {
    AscendsTogether(a, b, 1, 4, 7);
    AscendsTogether(a + b, c, 1, 7, 10);
    AscendsTogether(a + b + c, d, 1, 10, 12);
  }

  /** The unobservable surfaces, one by one in the order of the warnings. */
  ghost predicate Warns(changes: seq<Change>, warnings: seq<string>) {
    |changes| == |warnings| && forall i :: 0 <= i < |changes| ==>
      changes[i].changeType == UnobservableSurface && changes[i].identity == warnings[i]
  }

  /** All but the unobservable surfaces. */
  function Observed(a: Canonical, b: Canonical, complete: bool): seq<Change> {
    DiffItems(a.schemas, b.schemas, complete, SchemaKind())
    + DiffItems(a.fields, b.fields, complete, FieldKind())
    + DiffItems(a.bindings, b.bindings, complete, BindingKind())
    + FormChanges(a, b)
  }

  lemma ObservedAscend(a: Canonical, b: Canonical, complete: bool)
    ensures Ascends(Observed(a, b, complete)) && AllIn(Observed(a, b, complete), 1, 12)
  {
    SchemasAscend(a.schemas, b.schemas, complete);
    FieldsAscend(a.fields, b.fields, complete);
    BindingsAscend(a.bindings, b.bindings, complete);
    FormsAscend(a, b);
    FourAscend(
      DiffItems(a.schemas, b.schemas, complete, SchemaKind()),
      DiffItems(a.fields, b.fields, complete, FieldKind()),
      DiffItems(a.bindings, b.bindings, complete, BindingKind()),
      FormChanges(a, b));
  }

  lemma Regroup<T>(u: seq<T>, v: seq<T>, w: seq<T>, x: seq<T>, y: seq<T>)
    ensures u + v + w + x + y == u + (v + w + x + y)
  {
  }

  lemma DiffSplits(previous: View, current: View)
    ensures Diff(previous, current)
         == (if current.complete then [] else UnobservableChanges(current.warnings))
            + Observed(previous.canonical, current.canonical, current.complete)
  {
    var a, b, complete := previous.canonical, current.canonical, current.complete;
    Regroup(
      if complete then [] else UnobservableChanges(current.warnings),
      DiffItems(a.schemas, b.schemas, complete, SchemaKind()),
      DiffItems(a.fields, b.fields, complete, FieldKind()),
      DiffItems(a.bindings, b.bindings, complete, BindingKind()),
      FormChanges(a, b));
  }

  lemma SurfacesWarn(warnings: seq<string>)
    ensures Warns(UnobservableChanges(warnings), warnings)
  {
  }

  /** Warnings, and then records in strict order. */
  ghost predicate WarnsThenAscends(changes: seq<Change>, warnings: seq<string>) {
    && |warnings| <= |changes|
    && Warns(changes[..|warnings|], warnings)
    && Ascends(changes[|warnings|..]) && AllIn(changes[|warnings|..], 1, 12)
  }

  lemma WarnedFirst(warned: seq<Change>, rest: seq<Change>, warnings: seq<string>)
    requires Warns(warned, warnings) && Ascends(rest) && AllIn(rest, 1, 12)
    ensures WarnsThenAscends(warned + rest, warnings)
  {
    assert (warned + rest)[..|warned|] == warned && (warned + rest)[|warned|..] == rest;
  }

  /** The warnings of an incomplete observation come first, and all other records after them ascend strictly. */
  lemma DiffAscends(previous: View, current: View)
    ensures WarnsThenAscends(Diff(previous, current), if current.complete then [] else current.warnings)
  {
    DiffSplits(previous, current);
    ObservedAscend(previous.canonical, current.canonical, current.complete);
    SurfacesWarn(current.warnings);
    WarnedFirst(
      if current.complete then [] else UnobservableChanges(current.warnings),
      Observed(previous.canonical, current.canonical, current.complete),
      if current.complete then [] else current.warnings);
  }

  /** Two strictly ascending lists with the same records are the same list. */
  lemma {:induction false} AscendingOnce(a: seq<Change>, b: seq<Change>)
    requires Ascends(a) && Ascends(b) && forall c :: c in a <==> c in b
    ensures a == b
  {
    assert b != [] ==> b[0] in b;
    if a != [] {
      assert a[0] in a && a[0] in b && b != [] && b[0] in a;
      FirstIsFirst(a, b);
      forall c ensures c in a[1..] <==> c in b[1..] {
        RestHas(a, c);
        RestHas(b, c);
      }
      AscendingOnce(a[1..], b[1..]);
    }
  }

  lemma BeforeIsStrict(x: Change, y: Change)
    requires Before(x, y)
    ensures !Before(y, x) && x != y
  {
    TextLeTotal(x.identity, y.identity);
  }

  lemma FirstIsFirst(a: seq<Change>, b: seq<Change>)
    requires Ascends(a) && Ascends(b) && a != [] && b != [] && a[0] in b && b[0] in a
    ensures a[0] == b[0]
  {
    var i :| 0 <= i < |a| && a[i] == b[0];
    var j :| 0 <= j < |b| && b[j] == a[0];
    if i > 0 && j > 0 {
      BeforeIsStrict(a[0], a[i]);
    }
  }

  lemma RestHas(a: seq<Change>, c: Change)
    requires Ascends(a) && a != []
    ensures c in a[1..] <==> c in a && c != a[0]
  {
    forall i | 0 < i < |a| ensures a[i] != a[0] {
      BeforeIsStrict(a[0], a[i]);
    }
    assert a == [a[0]] + a[1..];
  }
}
