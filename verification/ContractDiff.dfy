/** The difference between two contracts as a list of typed, graded changes. */
module ContractDiff {
  import opened JsonValues
  import opened Ordering
  import opened SubmissionBindings
  import opened ContractSnapshot

  datatype ChangeType =
    | UnobservableSurface
    | SchemaAdded | SchemaRemoved | SchemaChanged
    | FieldAdded | FieldRemoved | FieldIdChanged | FieldChanged
    | BindingAdded | BindingRemoved
    | OrderChanged | LabelChanged | RequiredChanged | RepeatableChanged | InputTypeChanged | VocabularyChanged
    | BindingChanged
    | FormStructureChanged

  datatype Severity = Info | Low | Medium | High | Critical

  /** What a change records before and after. */
  datatype Evidence =
    | Nothing
    | OfSchema(schema: SchemaEntry)
    | OfField(field: FieldEntry)
    | OfBinding(binding: Binding)
    | OfJson(json: Json)
    | OfSections(sections: seq<SectionEntry>)

  datatype Change = Change(
    changeType: ChangeType, severity: Severity, identity: string, before: Evidence, after: Evidence)

  // Lists as dictionaries

  /** `{item[identity]: item for item in items}`: a later item replaces an earlier one of the same name. */
  function MapBy<T>(items: seq<T>, key: T -> string): map<string, T> {
    if items == [] then map[]
    else
      var last := items[|items| - 1];
      MapBy(items[..|items| - 1], key)[key(last) := last]
  }

  /** The names in `items` that `other` has, or has not, sorted. */
  function KeysOf<T>(items: seq<T>, key: T -> string, other: map<string, T>, shared: bool): seq<string> {
    SortedSet(FilterMap(items, (item: T) => if (key(item) in other) == shared then Some(key(item)) else None))
  }

  lemma {:induction false} MapByHas<T>(items: seq<T>, key: T -> string)
    ensures forall k :: k in MapBy(items, key) ==> MapBy(items, key)[k] in items && key(MapBy(items, key)[k]) == k
    ensures forall item :: item in items ==> key(item) in MapBy(items, key)
  {
    if items != [] {
      MapByHas(items[..|items| - 1], key);
      assert items == items[..|items| - 1] + [items[|items| - 1]];
    }
  }

  lemma KeysOfMeaning<T>(items: seq<T>, key: T -> string, other: map<string, T>, shared: bool)
    ensures forall k :: k in KeysOf(items, key, other, shared) <==> k in MapBy(items, key) && (k in other) == shared
    ensures Distinct(KeysOf(items, key, other, shared))
  {
    var f := (item: T) => if (key(item) in other) == shared then Some(key(item)) else None;
    MapByHas(items, key);
    SortedSetProperties(FilterMap(items, f));
    forall k ensures k in FilterMap(items, f) <==> k in MapBy(items, key) && (k in other) == shared {
      FilterMapHas(items, f, k);
    }
  }

  // Changes of one kind of item

  function Each<T>(keys: seq<string>, items: map<string, T>, emit: (string, T) -> Change): seq<Change>
    requires forall k :: k in keys ==> k in items
  {
    seq(|keys|, i requires 0 <= i < |keys| => emit(keys[i], items[keys[i]]))
  }

  function PerKey<T>(
    keys: seq<string>, was: map<string, T>, now: map<string, T>, compare: (string, T, T) -> seq<Change>)
    : seq<seq<Change>>
    requires forall k :: k in keys ==> k in was && k in now
  {
    seq(|keys|, i requires 0 <= i < |keys| => compare(keys[i], was[keys[i]], now[keys[i]]))
  }

  /** How one kind of item is named and how its changes are written. */
  datatype Kind<!T> = Kind(
    key: T -> string,
    added: (string, T) -> Change,
    removed: (string, T) -> Change,
    compare: (string, T, T) -> seq<Change>)

  function DiffItems<T>(a: seq<T>, b: seq<T>, complete: bool, kind: Kind<T>): seq<Change> {
    var was, now := MapBy(a, kind.key), MapBy(b, kind.key);
    KeysOfMeaning(b, kind.key, was, false);
    KeysOfMeaning(a, kind.key, now, false);
    KeysOfMeaning(a, kind.key, now, true);
    Each(KeysOf(b, kind.key, was, false), now, kind.added)
    + (if complete then Each(KeysOf(a, kind.key, now, false), was, kind.removed) else [])
    + Flatten(PerKey(KeysOf(a, kind.key, now, true), was, now, kind.compare))
  }

  function FieldKey(): FieldEntry -> string {
    (e: FieldEntry) => e.metadata
  }

  function CompareSchemas(key: string, a: SchemaEntry, b: SchemaEntry): seq<Change> {
    if a != b then [Change(SchemaChanged, Medium, key, OfSchema(a), OfSchema(b))] else []
  }

  function CompareFields(key: string, a: FieldEntry, b: FieldEntry): seq<Change> {
    (if a.id != b.id then [Change(FieldIdChanged, High, key, OfJson(a.id), OfJson(b.id))] else [])
    + (if a.scopeNote != b.scopeNote then [Change(FieldChanged, Low, key, OfField(a), OfField(b))] else [])
  }

  function TypeIf(differs: bool, t: ChangeType, severity: Severity): seq<(ChangeType, Severity)> {
    if differs then [(t, severity)] else []
  }

  /** The change types of the attributes that differ, as far as they have one of their own. */
  function SpecificTypes(
    position: bool, caption: bool, required: bool, repeatable: bool, inputType: bool, vocabulary: bool)
    : seq<(ChangeType, Severity)>
  {
    TypeIf(position, OrderChanged, Info)
    + TypeIf(caption, LabelChanged, Low)
    + TypeIf(required, RequiredChanged, High)
    + TypeIf(repeatable, RepeatableChanged, High)
    + TypeIf(inputType, InputTypeChanged, High)
    + TypeIf(vocabulary, VocabularyChanged, High)
  }

  function OrGeneral(specific: seq<(ChangeType, Severity)>): seq<(ChangeType, Severity)> {
    if specific == [] then [(BindingChanged, Medium)] else specific
  }

  /** The specific changes between two bindings, or the general one if there is none. */
  function BindingChangeTypes(a: Binding, b: Binding): seq<(ChangeType, Severity)> {
    OrGeneral(
      SpecificTypes(
        a.position != b.position,
        a.fieldLabel != b.fieldLabel,
        a.required != b.required,
        a.repeatable != b.repeatable,
        a.inputType != b.inputType,
        a.controlledVocabulary != b.controlledVocabulary || a.closed != b.closed))
  }

  function CompareBindings(key: string, a: Binding, b: Binding): seq<Change> {
    if a == b then []
    else
      var types := BindingChangeTypes(a, b);
      seq(|types|, i requires 0 <= i < |types| => Change(types[i].0, types[i].1, key, OfBinding(a), OfBinding(b)))
  }

  function SchemaKind(): Kind<SchemaEntry> {
    Kind(
      SchemaKey(),
      (key: string, e: SchemaEntry) => Change(SchemaAdded, Info, key, Nothing, OfSchema(e)),
      (key: string, e: SchemaEntry) => Change(SchemaRemoved, High, key, OfSchema(e), Nothing),
      CompareSchemas)
  }

  function FieldKind(): Kind<FieldEntry> {
    Kind(
      FieldKey(),
      (key: string, e: FieldEntry) => Change(FieldAdded, Info, key, Nothing, OfField(e)),
      (key: string, e: FieldEntry) => Change(FieldRemoved, Critical, key, OfField(e), Nothing),
      CompareFields)
  }

  function BindingKind(): Kind<Binding> {
    Kind(
      KeyOf(),
      (key: string, b: Binding) => Change(BindingAdded, Medium, key, Nothing, OfBinding(b)),
      (key: string, b: Binding) => Change(BindingRemoved, Critical, key, OfBinding(b), Nothing),
      CompareBindings)
  }

  function UnobservableChanges(warnings: seq<string>): seq<Change> {
    seq(|warnings|, i requires 0 <= i < |warnings| =>
      Change(UnobservableSurface, Critical, warnings[i], Nothing, Nothing))
  }

  function DefinitionChanges(a: Canonical, b: Canonical): seq<Change> {
    if a.activeDefinition != b.activeDefinition then
      [Change(FormStructureChanged, High, "activeDefinition", OfJson(a.activeDefinition), OfJson(b.activeDefinition))]
    else []
  }

  function SectionsChanges(a: Canonical, b: Canonical): seq<Change> {
    if a.sections != b.sections then
      [Change(FormStructureChanged, High, "activeSections", OfSections(a.sections), OfSections(b.sections))]
    else []
  }

  function FormChanges(a: Canonical, b: Canonical): seq<Change> {
    DefinitionChanges(a, b) + SectionsChanges(a, b)
  }

  /** `diff_contract_snapshots`. */
  function Diff(previous: View, current: View): seq<Change> {
    var a, b, complete := previous.canonical, current.canonical, current.complete;
    (if complete then [] else UnobservableChanges(current.warnings))
    + DiffItems(a.schemas, b.schemas, complete, SchemaKind())
    + DiffItems(a.fields, b.fields, complete, FieldKind())
    + DiffItems(a.bindings, b.bindings, complete, BindingKind())
    + FormChanges(a, b)
  }

  // The loops

  method EmitEach<T>(
    keys: seq<string>, items: map<string, T>, emit: (string, T) -> Change) returns (changes: seq<Change>)
    requires forall k :: k in keys ==> k in items
    ensures changes == Each(keys, items, emit)
  {
    changes := [];
    for i := 0 to |keys|
      invariant changes == Each(keys[..i], items, emit)
    {
      assert keys[i] in keys;
      changes := changes + [emit(keys[i], items[keys[i]])];
    }
    assert keys[..|keys|] == keys;
  }

  method CompareEach<T>(
    keys: seq<string>, was: map<string, T>, now: map<string, T>, compare: (string, T, T) -> seq<Change>)
    returns (changes: seq<Change>)
    requires forall k :: k in keys ==> k in was && k in now
    ensures changes == Flatten(PerKey(keys, was, now, compare))
  {
    changes := [];
    for i := 0 to |keys|
      invariant changes == Flatten(PerKey(keys[..i], was, now, compare))
    {
      assert keys[i] in keys;
      assert PerKey(keys[..i + 1], was, now, compare)[..i] == PerKey(keys[..i], was, now, compare);
      changes := changes + compare(keys[i], was[keys[i]], now[keys[i]]);
    }
    assert keys[..|keys|] == keys;
  }

  /** One block of the comparison: what was added, what was removed, what changed. */
  method DiffKind<T>(a: seq<T>, b: seq<T>, complete: bool, kind: Kind<T>) returns (changes: seq<Change>)
    ensures changes == DiffItems(a, b, complete, kind)
  {
    var was, now := MapBy(a, kind.key), MapBy(b, kind.key);
    KeysOfMeaning(b, kind.key, was, false);
    KeysOfMeaning(a, kind.key, now, false);
    KeysOfMeaning(a, kind.key, now, true);
    var added := EmitEach(KeysOf(b, kind.key, was, false), now, kind.added);
    var removed: seq<Change> := [];
    if complete {
      removed := EmitEach(KeysOf(a, kind.key, now, false), was, kind.removed);
    }
    var changed := CompareEach(KeysOf(a, kind.key, now, true), was, now, kind.compare);
    changes := added + removed + changed;
  }

  method DiffContractSnapshots(previous: View, current: View) returns (changes: seq<Change>)
    ensures changes == Diff(previous, current)
  {
    changes := [];
    if !current.complete {
      for i := 0 to |current.warnings|
        invariant changes == UnobservableChanges(current.warnings[..i])
      {
        changes := changes + [Change(UnobservableSurface, Critical, current.warnings[i], Nothing, Nothing)];
      }
      assert current.warnings[..|current.warnings|] == current.warnings;
    }
    var schemas := DiffKind(previous.canonical.schemas, current.canonical.schemas, current.complete, SchemaKind());
    var fields := DiffKind(previous.canonical.fields, current.canonical.fields, current.complete, FieldKind());
    var bindings := DiffKind(previous.canonical.bindings, current.canonical.bindings, current.complete, BindingKind());
    changes := changes + schemas + fields + bindings + FormChanges(previous.canonical, current.canonical);
  }
}
