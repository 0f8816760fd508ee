/** Which change records a comparison emits, said of the two contracts themselves. */
module ContractChanges {
  import opened Ordering
  import opened SubmissionBindings
  import opened ContractSnapshot
  import opened ContractDiff
  import opened ContractPatch

  /** How grave a change is depends on its type alone. */
  function Gravity(t: ChangeType): Severity {
    match t
    case SchemaAdded | FieldAdded | OrderChanged => Info
    case FieldChanged | LabelChanged => Low
    case SchemaChanged | BindingAdded | BindingChanged => Medium
    case SchemaRemoved | FieldIdChanged | FormStructureChanged => High
    case RequiredChanged | RepeatableChanged | InputTypeChanged | VocabularyChanged => High
    case UnobservableSurface | FieldRemoved | BindingRemoved => Critical
  }

  /** The difference between two bindings that a change type stands for. */
  predicate Differs(t: ChangeType, a: Binding, b: Binding) {
    match t
    case OrderChanged => a.position != b.position
    case LabelChanged => a.fieldLabel != b.fieldLabel
    case RequiredChanged => a.required != b.required
    case RepeatableChanged => a.repeatable != b.repeatable
    case InputTypeChanged => a.inputType != b.inputType
    case VocabularyChanged => (a.controlledVocabulary, a.closed) != (b.controlledVocabulary, b.closed)
    case BindingChanged => a != b && OnlyUntypedDiffer(a, b)
    case _ => false
  }

  /** No attribute with a change type of its own differs. */
  predicate OnlyUntypedDiffer(a: Binding, b: Binding) {
    && a.position == b.position && a.fieldLabel == b.fieldLabel && a.required == b.required
    && a.repeatable == b.repeatable
    && a.inputType == b.inputType && a.controlledVocabulary == b.controlledVocabulary && a.closed == b.closed
  }

  ghost predicate SchemaCall(a: map<string, SchemaEntry>, b: map<string, SchemaEntry>, complete: bool, c: Change) {
    var k := c.identity;
    match c.changeType
    case SchemaAdded => k in b && k !in a && c.before == Nothing && c.after == OfSchema(b[k])
    case SchemaRemoved => complete && k in a && k !in b && c.before == OfSchema(a[k]) && c.after == Nothing
    case SchemaChanged => k in a && k in b && a[k] != b[k] && c.before == OfSchema(a[k]) && c.after == OfSchema(b[k])
    case _ => false
  }

  ghost predicate FieldCall(a: map<string, FieldEntry>, b: map<string, FieldEntry>, complete: bool, c: Change) {
    var k := c.identity;
    match c.changeType
    case FieldAdded => k in b && k !in a && c.before == Nothing && c.after == OfField(b[k])
    case FieldRemoved => complete && k in a && k !in b && c.before == OfField(a[k]) && c.after == Nothing
    case FieldIdChanged =>
      k in a && k in b && a[k].id != b[k].id && c.before == OfJson(a[k].id) && c.after == OfJson(b[k].id)
    case FieldChanged =>
      k in a && k in b && a[k].scopeNote != b[k].scopeNote && c.before == OfField(a[k]) && c.after == OfField(b[k])
    case _ => false
  }

  ghost predicate BindingCall(a: map<string, Binding>, b: map<string, Binding>, complete: bool, c: Change) {
    var k := c.identity;
    match c.changeType
    case BindingAdded => k in b && k !in a && c.before == Nothing && c.after == OfBinding(b[k])
    case BindingRemoved => complete && k in a && k !in b && c.before == OfBinding(a[k]) && c.after == Nothing
    case t => k in a && k in b && Differs(t, a[k], b[k]) && c.before == OfBinding(a[k]) && c.after == OfBinding(b[k])
  }

  ghost predicate FormCall(a: Canonical, b: Canonical, c: Change) {
    && c.changeType == FormStructureChanged
    && if c.identity == "activeDefinition" then
         a.activeDefinition != b.activeDefinition && c.before == OfJson(a.activeDefinition)
         && c.after == OfJson(b.activeDefinition)
       else
         c.identity == "activeSections" && a.sections != b.sections && c.before == OfSections(a.sections)
         && c.after == OfSections(b.sections)
  }

  /** When a comparison must emit this very record. */
  ghost predicate Called(previous: View, current: View, c: Change) {
    var a, b, complete := ContentsOf(previous.canonical), ContentsOf(current.canonical), current.complete;
    && c.severity == Gravity(c.changeType)
    && match PartOf(c)
       case SurfacePart => !complete && c.identity in current.warnings && c.before == c.after == Nothing
       case SchemaPart => SchemaCall(a.schemas, b.schemas, complete, c)
       case FieldPart => FieldCall(a.fields, b.fields, complete, c)
       case BindingPart => BindingCall(a.bindings, b.bindings, complete, c)
       case FormPart => FormCall(previous.canonical, current.canonical, c)
  }

  // One kind of item

  /** What one kind of item calls for, in terms of how its changes are written. */
  ghost predicate Emits<T>(was: map<string, T>, now: map<string, T>, complete: bool, kind: Kind<T>, c: Change) {
    || (exists k :: k in now && k !in was && c == kind.added(k, now[k]))
    || (complete && exists k :: k in was && k !in now && c == kind.removed(k, was[k]))
    || (exists k :: k in was && k in now && c in kind.compare(k, was[k], now[k]))
  }

  lemma EachHas<T>(keys: seq<string>, items: map<string, T>, emit: (string, T) -> Change, c: Change)
    requires forall k :: k in keys ==> k in items
    ensures c in Each(keys, items, emit) <==> exists k :: k in keys && c == emit(k, items[k])
  {
    var all := Each(keys, items, emit);
    if c in all {
      var i :| 0 <= i < |all| && all[i] == c;
      assert keys[i] in keys;
    }
    if k :| k in keys && c == emit(k, items[k]) {
      var i :| 0 <= i < |keys| && keys[i] == k;
      assert all[i] == c;
    }
  }

  lemma PerKeyHas<T>(
    keys: seq<string>, was: map<string, T>, now: map<string, T>, compare: (string, T, T) -> seq<Change>, c: Change)
    requires forall k :: k in keys ==> k in was && k in now
    ensures c in Flatten(PerKey(keys, was, now, compare)) <==> exists k :: k in keys && c in compare(k, was[k], now[k])
  {
    var parts := PerKey(keys, was, now, compare);
    FlattenHas(parts, c);
    if c in Flatten(parts) {
      var i :| 0 <= i < |parts| && c in parts[i];
      assert keys[i] in keys;
    }
    if k :| k in keys && c in compare(k, was[k], now[k]) {
      var i :| 0 <= i < |keys| && keys[i] == k;
      assert c in parts[i];
    }
  }

  lemma KindMeaning<T>(a: seq<T>, b: seq<T>, complete: bool, kind: Kind<T>, c: Change)
    ensures c in DiffItems(a, b, complete, kind) <==> Emits(MapBy(a, kind.key), MapBy(b, kind.key), complete, kind, c)
  {
    var was, now := MapBy(a, kind.key), MapBy(b, kind.key);
    KeysOfMeaning(b, kind.key, was, false);
    KeysOfMeaning(a, kind.key, now, false);
    KeysOfMeaning(a, kind.key, now, true);
    EachHas(KeysOf(b, kind.key, was, false), now, kind.added, c);
    EachHas(KeysOf(a, kind.key, now, false), was, kind.removed, c);
    PerKeyHas(KeysOf(a, kind.key, now, true), was, now, kind.compare, c);
  }

  /** Every record names the item it is about. */
  ghost predicate Names<T(!new)>(kind: Kind<T>) {
    && (forall k: string, v: T :: kind.added(k, v).identity == k)
    && (forall k: string, v: T :: kind.removed(k, v).identity == k)
    && forall k: string, u: T, v: T, c: Change :: c in kind.compare(k, u, v) ==> c.identity == k
  }

  /** What is called for under one name. */
  ghost predicate EmitsAt<T>(
    was: map<string, T>, now: map<string, T>, complete: bool, kind: Kind<T>, k: string, c: Change)
  {
    if k in was && k in now then c in kind.compare(k, was[k], now[k])
    else if k in now then c == kind.added(k, now[k])
    else complete && k in was && c == kind.removed(k, was[k])
  }

  lemma NamedMeaning<T(!new)>(a: seq<T>, b: seq<T>, complete: bool, kind: Kind<T>, c: Change)
    requires Names(kind)
    ensures c in DiffItems(a, b, complete, kind)
       <==> EmitsAt(MapBy(a, kind.key), MapBy(b, kind.key), complete, kind, c.identity, c)
  {
    KindMeaning(a, b, complete, kind, c);
  }

  // The three kinds

  lemma SchemasEmit(was: map<string, SchemaEntry>, now: map<string, SchemaEntry>, complete: bool, c: Change)
    ensures EmitsAt(was, now, complete, SchemaKind(), c.identity, c)
       <==> c.severity == Gravity(c.changeType) && SchemaCall(was, now, complete, c)
  {
  }

  lemma FieldsEmit(was: map<string, FieldEntry>, now: map<string, FieldEntry>, complete: bool, c: Change)
    ensures EmitsAt(was, now, complete, FieldKind(), c.identity, c)
       <==> c.severity == Gravity(c.changeType) && FieldCall(was, now, complete, c)
  {
  }

  lemma TypesMeaning(a: Binding, b: Binding, t: (ChangeType, Severity))
    requires a != b
    ensures t in BindingChangeTypes(a, b) <==> Differs(t.0, a, b) && t.1 == Gravity(t.0)
  {
  }

  lemma ComparedMeaning(key: string, a: Binding, b: Binding, c: Change)
    ensures c in CompareBindings(key, a, b)
       <==> c.identity == key && c.severity == Gravity(c.changeType) && Differs(c.changeType, a, b)
            && c.before == OfBinding(a) && c.after == OfBinding(b)
  {
    if a != b {
      var types, all := BindingChangeTypes(a, b), CompareBindings(key, a, b);
      TypesMeaning(a, b, (c.changeType, c.severity));
      if c in all {
        var i :| 0 <= i < |all| && all[i] == c;
        assert types[i] in types;
        assert types[i] == (c.changeType, c.severity);
      }
      if (c.changeType, c.severity) in types {
        var i :| 0 <= i < |types| && types[i] == (c.changeType, c.severity);
        assert all[i] in all;
      }
    }
  }

  lemma BindingsEmit(was: map<string, Binding>, now: map<string, Binding>, complete: bool, c: Change)
    ensures EmitsAt(was, now, complete, BindingKind(), c.identity, c)
       <==> c.severity == Gravity(c.changeType) && BindingCall(was, now, complete, c)
  {
    var k := c.identity;
    if k in was && k in now {
      ComparedMeaning(k, was[k], now[k], c);
    }
  }

  lemma KindsName()
    ensures Names(SchemaKind()) && Names(FieldKind()) && Names(BindingKind())
  {
    forall k: string, u: Binding, v: Binding, c: Change | c in CompareBindings(k, u, v) ensures c.identity == k {
      ComparedMeaning(k, u, v, c);
    }
  }

  lemma SurfacesMeaning(current: View, c: Change)
    ensures c in UnobservableChanges(current.warnings)
       <==> c == Change(UnobservableSurface, Critical, c.identity, Nothing, Nothing) && c.identity in current.warnings
  {
    var all := UnobservableChanges(current.warnings);
    if c in all {
      var i :| 0 <= i < |all| && all[i] == c;
    }
    if c.identity in current.warnings {
      var i :| 0 <= i < |current.warnings| && current.warnings[i] == c.identity;
      assert all[i] in all;
    }
  }

  lemma FormsMeaning(a: Canonical, b: Canonical, c: Change)
    ensures c in FormChanges(a, b) <==> c.severity == High && FormCall(a, b, c)
  {
  }

  lemma FiveBlocks<T>(u: seq<T>, v: seq<T>, w: seq<T>, x: seq<T>, y: seq<T>, c: T)
    ensures c in u + v + w + x + y <==> c in u || c in v || c in w || c in x || c in y
  {
  }

  ghost predicate ItemsCall(previous: View, current: View, c: Change) {
    var a, b, complete := ContentsOf(previous.canonical), ContentsOf(current.canonical), current.complete;
    || SchemaCall(a.schemas, b.schemas, complete, c)
    || FieldCall(a.fields, b.fields, complete, c)
    || BindingCall(a.bindings, b.bindings, complete, c)
  }

  lemma ItemsMeaning(previous: View, current: View, c: Change)
    ensures var a, b, complete := previous.canonical, current.canonical, current.complete;
            (c in DiffItems(a.schemas, b.schemas, complete, SchemaKind())
             || c in DiffItems(a.fields, b.fields, complete, FieldKind())
             || c in DiffItems(a.bindings, b.bindings, complete, BindingKind()))
            <==> c.severity == Gravity(c.changeType) && ItemsCall(previous, current, c)
  {
    var a, b, complete := previous.canonical, current.canonical, current.complete;
    KindsName();
    NamedMeaning(a.schemas, b.schemas, complete, SchemaKind(), c);
    NamedMeaning(a.fields, b.fields, complete, FieldKind(), c);
    NamedMeaning(a.bindings, b.bindings, complete, BindingKind(), c);
    SchemasEmit(MapBy(a.schemas, SchemaKey()), MapBy(b.schemas, SchemaKey()), complete, c);
    FieldsEmit(MapBy(a.fields, FieldKey()), MapBy(b.fields, FieldKey()), complete, c);
    BindingsEmit(MapBy(a.bindings, KeyOf()), MapBy(b.bindings, KeyOf()), complete, c);
  }

  lemma CalledByPart(previous: View, current: View, c: Change)
    ensures Called(previous, current, c) <==>
      && c.severity == Gravity(c.changeType)
      && (|| (!current.complete && c.changeType == UnobservableSurface && c.identity in current.warnings
         && c.before == c.after == Nothing)
          || ItemsCall(previous, current, c)
          || FormCall(previous.canonical, current.canonical, c))
  {
  }

  lemma BlocksHave(previous: View, current: View, c: Change)
    ensures var a, b, complete := previous.canonical, current.canonical, current.complete;
            c in Diff(previous, current) <==>
              || (!complete && c in UnobservableChanges(current.warnings))
              || c in DiffItems(a.schemas, b.schemas, complete, SchemaKind())
              || c in DiffItems(a.fields, b.fields, complete, FieldKind())
              || c in DiffItems(a.bindings, b.bindings, complete, BindingKind())
              || c in FormChanges(a, b)
  {
    var a, b, complete := previous.canonical, current.canonical, current.complete;
    FiveBlocks(
      if complete then [] else UnobservableChanges(current.warnings),
      DiffItems(a.schemas, b.schemas, complete, SchemaKind()),
      DiffItems(a.fields, b.fields, complete, FieldKind()),
      DiffItems(a.bindings, b.bindings, complete, BindingKind()),
      FormChanges(a, b), c);
  }

  /** The change list holds exactly the records the two contracts call for. */
  lemma DiffMeaning(previous: View, current: View, c: Change)
    ensures c in Diff(previous, current) <==> Called(previous, current, c)
  {
    BlocksHave(previous, current, c);
    SurfacesMeaning(current, c);
    ItemsMeaning(previous, current, c);
    FormsMeaning(previous.canonical, current.canonical, c);
    CalledByPart(previous, current, c);
  }
}
