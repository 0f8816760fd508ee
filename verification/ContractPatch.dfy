/** The change list as a patch: applied to the old contract it gives the new one. */
module ContractPatch {
  import opened JsonValues
  import opened Ordering
  import opened SubmissionBindings
  import opened ContractSnapshot
  import opened ContractDiff

  /** A contract as dictionaries. */
  datatype Contents = Contents(
    schemas: map<string, SchemaEntry>,
    fields: map<string, FieldEntry>,
    bindings: map<string, Binding>,
    activeDefinition: Json,
    sections: seq<SectionEntry>)

  function ContentsOf(c: Canonical): Contents {
    Contents(MapBy(c.schemas, SchemaKey()), MapBy(c.fields, FieldKey()), MapBy(c.bindings, KeyOf()), c.activeDefinition,
      c.sections)
  }

  // What one change does, read off its record

  /** The part of the contract a change is about. */
  datatype Part = SurfacePart | SchemaPart | FieldPart | BindingPart | FormPart

  function PartOf(c: Change): Part {
    match c.changeType
    case UnobservableSurface => SurfacePart
    case SchemaAdded | SchemaRemoved | SchemaChanged => SchemaPart
    case FieldAdded | FieldRemoved | FieldIdChanged | FieldChanged => FieldPart
    case FormStructureChanged => FormPart
    case _ => BindingPart
  }

  function SchemaStep(m: map<string, SchemaEntry>, c: Change): map<string, SchemaEntry> {
    if PartOf(c) != SchemaPart then m
    else if c.changeType == SchemaRemoved then m - {c.identity}
    else if c.after.OfSchema? then m[c.identity := c.after.schema]
    else m
  }

  function FieldStep(m: map<string, FieldEntry>, c: Change): map<string, FieldEntry> {
    if PartOf(c) != FieldPart then m
    else if c.changeType == FieldRemoved then m - {c.identity}
    else if c.after.OfField? then m[c.identity := c.after.field]
    else if c.after.OfJson? && c.identity in m then m[c.identity := m[c.identity].(id := c.after.json)]
    else m
  }

  function BindingStep(m: map<string, Binding>, c: Change): map<string, Binding> {
    if PartOf(c) != BindingPart then m
    else if c.changeType == BindingRemoved then m - {c.identity}
    else if c.after.OfBinding? then m[c.identity := c.after.binding]
    else m
  }

  function DefinitionStep(definition: Json, c: Change): Json {
    if PartOf(c) == FormPart && c.after.OfJson? then c.after.json else definition
  }

  function SectionsStep(sections: seq<SectionEntry>, c: Change): seq<SectionEntry> {
    if PartOf(c) == FormPart && c.after.OfSections? then c.after.sections else sections
  }

  function Apply(contents: Contents, c: Change): Contents {
    Contents(
      SchemaStep(contents.schemas, c),
      FieldStep(contents.fields, c),
      BindingStep(contents.bindings, c),
      DefinitionStep(contents.activeDefinition, c),
      SectionsStep(contents.sections, c))
  }

  function Fold<S>(state: S, changes: seq<Change>, step: (S, Change) -> S): S {
    if changes == [] then state else step(Fold(state, changes[..|changes| - 1], step), changes[|changes| - 1])
  }

  /** Applies the records one after the other. */
  function ApplyAll(contents: Contents, changes: seq<Change>): Contents {
    Fold(contents, changes, Apply)
  }

  lemma {:induction false} Componentwise(contents: Contents, changes: seq<Change>)
    ensures ApplyAll(contents, changes) == Contents(
      Fold(contents.schemas, changes, SchemaStep), Fold(contents.fields, changes, FieldStep),
      Fold(contents.bindings, changes, BindingStep), Fold(contents.activeDefinition, changes, DefinitionStep),
      Fold(contents.sections, changes, SectionsStep))
  {
    if changes != [] {
      Componentwise(contents, changes[..|changes| - 1]);
    }
  }

  lemma {:induction false} FoldAppend<S>(state: S, a: seq<Change>, b: seq<Change>, step: (S, Change) -> S)
    ensures Fold(state, a + b, step) == Fold(Fold(state, a, step), b, step)
  {
    if b == [] {
      assert a + b == a;
    } else {
      assert (a + b)[..|a + b| - 1] == a + b[..|b| - 1];
      FoldAppend(state, a, b[..|b| - 1], step);
    }
  }

  ghost predicate Ignores<S(!new)>(step: (S, Change) -> S, change: Change) {
    forall state: S :: step(state, change) == state
  }

  ghost predicate IgnoresAll<S(!new)>(step: (S, Change) -> S, changes: seq<Change>) {
    forall i :: 0 <= i < |changes| ==> Ignores(step, changes[i])
  }

  lemma {:induction false} FoldIgnored<S(!new)>(state: S, changes: seq<Change>, step: (S, Change) -> S)
    requires IgnoresAll(step, changes)
    ensures Fold(state, changes, step) == state
  {
    if changes != [] {
      FoldIgnored(state, changes[..|changes| - 1], step);
      assert Ignores(step, changes[|changes| - 1]);
    }
  }

  // One kind of item

  function Restrict<T>(m: map<string, T>, keys: seq<string>): map<string, T> {
    map k | k in keys && k in m :: m[k]
  }

  ghost predicate Adds<T(!new)>(kind: Kind<T>, step: (map<string, T>, Change) -> map<string, T>) {
    forall m: map<string, T>, k: string, v: T :: step(m, kind.added(k, v)) == m[k := v]
  }

  ghost predicate Removes<T(!new)>(kind: Kind<T>, step: (map<string, T>, Change) -> map<string, T>) {
    forall m: map<string, T>, k: string, v: T :: step(m, kind.removed(k, v)) == m - {k}
  }

  ghost predicate Updates<T(!new)>(kind: Kind<T>, step: (map<string, T>, Change) -> map<string, T>) {
    forall m: map<string, T>, k: string, u: T, v: T {:trigger Fold(m, kind.compare(k, u, v), step)} ::
      k in m && m[k] == u && kind.key(u) == k && kind.key(v) == k ==> Fold(m, kind.compare(k, u, v), step) == m[k := v]
  }

  lemma RestrictOneMore<T>(m: map<string, T>, items: map<string, T>, keys: seq<string>, k: string)
    requires k in items
    ensures m + Restrict(items, keys + [k]) == (m + Restrict(items, keys))[k := items[k]]
  {
  }

  lemma FoldOneMore<S>(state: S, changes: seq<Change>, c: Change, step: (S, Change) -> S)
    ensures Fold(state, changes + [c], step) == step(Fold(state, changes, step), c)
  {
    assert (changes + [c])[..|changes|] == changes;
  }

  lemma EachOneMore<T>(keys: seq<string>, k: string, items: map<string, T>, emit: (string, T) -> Change)
    requires forall x :: x in keys + [k] ==> x in items
    ensures k in items && (forall x :: x in keys ==> x in items)
    ensures Each(keys + [k], items, emit) == Each(keys, items, emit) + [emit(k, items[k])]
  {
    assert (keys + [k])[|keys|] == k;
    assert forall x :: x in keys ==> x in keys + [k];
  }

  lemma {:induction false} AddedPatched<T(!new)>(
    m: map<string, T>, keys: seq<string>, items: map<string, T>, kind: Kind<T>,
    step: (map<string, T>, Change) -> map<string, T>)
    requires Adds(kind, step) && forall k :: k in keys ==> k in items
    ensures Fold(m, Each(keys, items, kind.added), step) == m + Restrict(items, keys)
  {
    if keys != [] {
      var front, last := keys[..|keys| - 1], keys[|keys| - 1];
      assert keys == front + [last];
      EachOneMore(front, last, items, kind.added);
      AddedPatched(m, front, items, kind, step);
      FoldOneMore(m, Each(front, items, kind.added), kind.added(last, items[last]), step);
      RestrictOneMore(m, items, front, last);
    } else {
      assert m + Restrict(items, keys) == m;
    }
  }

  function MembersOf(keys: seq<string>): set<string> {
    set k | k in keys
  }

  lemma WithoutOneMore<T>(m: map<string, T>, keys: seq<string>, k: string)
    ensures m - MembersOf(keys + [k]) == (m - MembersOf(keys)) - {k}
  {
    assert MembersOf(keys + [k]) == MembersOf(keys) + {k};
  }

  lemma {:induction false} RemovedPatched<T(!new)>(
    m: map<string, T>, keys: seq<string>, items: map<string, T>, kind: Kind<T>,
    step: (map<string, T>, Change) -> map<string, T>)
    requires Removes(kind, step) && forall k :: k in keys ==> k in items
    ensures Fold(m, Each(keys, items, kind.removed), step) == m - MembersOf(keys)
  {
    if keys != [] {
      var front, last := keys[..|keys| - 1], keys[|keys| - 1];
      assert keys == front + [last];
      EachOneMore(front, last, items, kind.removed);
      RemovedPatched(m, front, items, kind, step);
      FoldOneMore(m, Each(front, items, kind.removed), kind.removed(last, items[last]), step);
      WithoutOneMore(m, front, last);
    }
  }

  /** The names are in all three dictionaries, and `m` still has the old values. */
  ghost predicate Aligned<T>(
    m: map<string, T>, keys: seq<string>, was: map<string, T>, now: map<string, T>, key: T -> string)
  {
    forall k :: k in keys ==> k in was && k in now && k in m && m[k] == was[k] && key(was[k]) == k && key(now[k]) == k
  }

  lemma OneChanged<T(!new)>(
    m: map<string, T>, k: string, u: T, v: T, kind: Kind<T>, step: (map<string, T>, Change) -> map<string, T>)
    requires Updates(kind, step) && k in m && m[k] == u && kind.key(u) == k && kind.key(v) == k
    ensures Fold(m, kind.compare(k, u, v), step) == m[k := v]
  {
  }

  lemma PerKeyOneMore<T>(
    keys: seq<string>, k: string, was: map<string, T>, now: map<string, T>, compare: (string, T, T) -> seq<Change>)
    requires forall k :: k in keys ==> k in was && k in now
    requires k in was && k in now
    ensures Flatten(PerKey(keys + [k], was, now, compare))
       == Flatten(PerKey(keys, was, now, compare)) + compare(k, was[k], now[k])
  {
    assert PerKey(keys + [k], was, now, compare)[..|keys|] == PerKey(keys, was, now, compare);
  }

  lemma {:induction false} ChangedPatched<T(!new)>(
    m: map<string, T>, keys: seq<string>, was: map<string, T>, now: map<string, T>, kind: Kind<T>,
    step: (map<string, T>, Change) -> map<string, T>)
    requires Updates(kind, step) && Distinct(keys) && Aligned(m, keys, was, now, kind.key)
    ensures Fold(m, Flatten(PerKey(keys, was, now, kind.compare)), step) == m + Restrict(now, keys)
  {
    if keys != [] {
      var front, last := keys[..|keys| - 1], keys[|keys| - 1];
      assert keys == front + [last] && last !in front;
      assert last in keys;
      ChangedPatched(m, front, was, now, kind, step);
      PerKeyOneMore(front, last, was, now, kind.compare);
      FoldAppend(m, Flatten(PerKey(front, was, now, kind.compare)), kind.compare(last, was[last], now[last]), step);
      OneChanged(m + Restrict(now, front), last, was[last], now[last], kind, step);
      RestrictOneMore(m, now, front, last);
    } else {
      assert m + Restrict(now, keys) == m;
    }
  }

  /** The dictionary a partial observation gives: what it shows, over what it does not. */
  function Merged<T>(was: map<string, T>, now: map<string, T>, complete: bool): map<string, T> {
    if complete then now else was + now
  }

  lemma PatchMerges<T>(
    was: map<string, T>, now: map<string, T>, added: seq<string>, removed: seq<string>, shared: seq<string>,
    complete: bool)
    requires forall k :: k in added <==> k in now && k !in was
    requires forall k :: k in removed <==> k in was && k !in now
    requires forall k :: k in shared <==> k in was && k in now
    ensures (was + Restrict(now, added) - if complete then MembersOf(removed) else {}) + Restrict(now, shared)
       == Merged(was, now, complete)
  {
  }

  /** What was added and removed, applied. */
  lemma AddedAndRemovedPatched<T(!new)>(
    was: map<string, T>, now: map<string, T>, added: seq<string>, removed: seq<string>, complete: bool, kind: Kind<T>,
    step: (map<string, T>, Change) -> map<string, T>)
    requires Adds(kind, step) && Removes(kind, step)
    requires (forall k :: k in added ==> k in now) && (forall k :: k in removed ==> k in was)
    ensures Fold(was, Each(added, now, kind.added) + (if complete then Each(removed, was, kind.removed) else []), step)
         == was + Restrict(now, added) - if complete then MembersOf(removed) else {}
  {
    var m := was + Restrict(now, added);
    var second := if complete then Each(removed, was, kind.removed) else [];
    AddedPatched(was, added, now, kind, step);
    FoldAppend(was, Each(added, now, kind.added), second, step);
    if complete {
      RemovedPatched(m, removed, was, kind, step);
    } else {
      assert m - {} == m;
    }
  }

  lemma PatchedByNames<T(!new)>(
    was: map<string, T>, now: map<string, T>, added: seq<string>, removed: seq<string>, shared: seq<string>,
    complete: bool, kind: Kind<T>, step: (map<string, T>, Change) -> map<string, T>)
    requires Adds(kind, step) && Removes(kind, step) && Updates(kind, step)
    requires forall k :: k in added <==> k in now && k !in was
    requires forall k :: k in removed <==> k in was && k !in now
    requires forall k :: k in shared <==> k in was && k in now
    requires Distinct(shared) && Aligned(was, shared, was, now, kind.key)
    ensures Fold(
              was,
              Each(added, now, kind.added) + (if complete then Each(removed, was, kind.removed) else [])
              + Flatten(PerKey(shared, was, now, kind.compare)),
              step)
         == Merged(was, now, complete)
  {
    var half := Each(added, now, kind.added) + if complete then Each(removed, was, kind.removed) else [];
    var m := was + Restrict(now, added) - if complete then MembersOf(removed) else {};
    AddedAndRemovedPatched(was, now, added, removed, complete, kind, step);
    assert Aligned(m, shared, was, now, kind.key);
    ChangedPatched(m, shared, was, now, kind, step);
    FoldAppend(was, half, Flatten(PerKey(shared, was, now, kind.compare)), step);
    PatchMerges(was, now, added, removed, shared, complete);
  }

  /** One block of changes turns the old dictionary into the new one. */
  lemma KindPatched<T(!new)>(
    a: seq<T>, b: seq<T>, complete: bool, kind: Kind<T>, step: (map<string, T>, Change) -> map<string, T>)
    requires Adds(kind, step) && Removes(kind, step) && Updates(kind, step)
    ensures Fold(MapBy(a, kind.key), DiffItems(a, b, complete, kind), step)
         == Merged(MapBy(a, kind.key), MapBy(b, kind.key), complete)
  {
    var was, now := MapBy(a, kind.key), MapBy(b, kind.key);
    var added, removed := KeysOf(b, kind.key, was, false), KeysOf(a, kind.key, now, false);
    var shared := KeysOf(a, kind.key, now, true);
    KeysOfMeaning(b, kind.key, was, false);
    KeysOfMeaning(a, kind.key, now, false);
    KeysOfMeaning(a, kind.key, now, true);
    assert Aligned(was, shared, was, now, kind.key) by {
      MapByHas(a, kind.key);
      MapByHas(b, kind.key);
    }
    PatchedByNames(was, now, added, removed, shared, complete, kind, step);
  }

  // The three kinds

  lemma SchemasPatch()
    ensures Adds(SchemaKind(), SchemaStep) && Removes(SchemaKind(), SchemaStep) && Updates(SchemaKind(), SchemaStep)
  {
  }

  lemma FieldsUpdated(m: map<string, FieldEntry>, k: string, u: FieldEntry, v: FieldEntry)
    requires k in m && m[k] == u && u.metadata == v.metadata == k
    ensures Fold(m, CompareFields(k, u, v), FieldStep) == m[k := v]
  {
    var renamed := if u.id != v.id then [Change(FieldIdChanged, High, k, OfJson(u.id), OfJson(v.id))] else [];
    var noted := if u.scopeNote != v.scopeNote then [Change(FieldChanged, Low, k, OfField(u), OfField(v))] else [];
    FoldAppend(m, renamed, noted, FieldStep);
    assert Fold(m, renamed, FieldStep) == m[k := u.(id := v.id)];
    var half := m[k := u.(id := v.id)];
    if noted == [] {
      assert u.(id := v.id) == v;
    } else {
      assert noted[..0] == [];
      assert Fold(half, noted, FieldStep) == half[k := v];
    }
  }

  lemma FieldsPatch()
    ensures Adds(FieldKind(), FieldStep) && Removes(FieldKind(), FieldStep) && Updates(FieldKind(), FieldStep)
  {
    forall m: map<string, FieldEntry>, k: string, u: FieldEntry, v: FieldEntry
      | k in m && m[k] == u && u.metadata == k && v.metadata == k
      ensures Fold(m, CompareFields(k, u, v), FieldStep) == m[k := v]
    {
      FieldsUpdated(m, k, u, v);
    }
  }

  /** Every one of these records puts the same binding in the same place. */
  ghost predicate AllPut(changes: seq<Change>, k: string, v: Binding) {
    forall i :: 0 <= i < |changes| ==>
      PartOf(changes[i]) == BindingPart && changes[i].changeType != BindingRemoved
      && changes[i].identity == k && changes[i].after == OfBinding(v)
  }

  lemma {:induction false} PutAgain(m: map<string, Binding>, changes: seq<Change>, k: string, v: Binding)
    requires AllPut(changes, k, v) && changes != []
    ensures Fold(m, changes, BindingStep) == m[k := v]
  {
    if |changes| > 1 {
      PutAgain(m, changes[..|changes| - 1], k, v);
    }
  }

  predicate BindingChange(t: ChangeType) {
    t in {OrderChanged, LabelChanged, RequiredChanged, RepeatableChanged, InputTypeChanged, VocabularyChanged,
      BindingChanged}
  }

  lemma BindingTypesAreBindingChanges(u: Binding, v: Binding)
    ensures BindingChangeTypes(u, v) != []
    ensures forall i :: 0 <= i < |BindingChangeTypes(u, v)| ==> BindingChange(BindingChangeTypes(u, v)[i].0)
  {
  }

  lemma ComparedBindings(k: string, u: Binding, v: Binding)
    ensures AllPut(CompareBindings(k, u, v), k, v)
    ensures u != v ==> CompareBindings(k, u, v) != []
  {
    BindingTypesAreBindingChanges(u, v);
  }

  lemma BindingsPatch()
    ensures Adds(BindingKind(), BindingStep) && Removes(BindingKind(), BindingStep)
            && Updates(BindingKind(), BindingStep)
  {
    forall m: map<string, Binding>, k: string, u: Binding, v: Binding | k in m && m[k] == u
      ensures Fold(m, CompareBindings(k, u, v), BindingStep) == m[k := v]
    {
      if u != v {
        ComparedBindings(k, u, v);
        PutAgain(m, CompareBindings(k, u, v), k, v);
      }
    }
  }

  // Blocks do not interfere

  ghost predicate About(changes: seq<Change>, part: Part) {
    forall i :: 0 <= i < |changes| ==> PartOf(changes[i]) == part
  }

  ghost predicate Writes<T(!new)>(kind: Kind<T>, part: Part) {
    EmitsOnly(kind.added, part) && EmitsOnly(kind.removed, part) && ComparesOnly(kind.compare, part)
  }

  lemma {:induction false} FlattenAbout(parts: seq<seq<Change>>, part: Part)
    requires forall i :: 0 <= i < |parts| ==> About(parts[i], part)
    ensures About(Flatten(parts), part)
  {
    if parts != [] {
      FlattenAbout(parts[..|parts| - 1], part);
    }
  }

  lemma AboutConcat(a: seq<Change>, b: seq<Change>, part: Part)
    requires About(a, part) && About(b, part)
    ensures About(a + b, part)
  {
  }

  ghost predicate EmitsOnly<T(!new)>(emit: (string, T) -> Change, part: Part) {
    forall k: string, v: T :: PartOf(emit(k, v)) == part
  }

  lemma EachAbout<T(!new)>(keys: seq<string>, items: map<string, T>, emit: (string, T) -> Change, part: Part)
    requires EmitsOnly(emit, part) && forall k :: k in keys ==> k in items
    ensures About(Each(keys, items, emit), part)
  {
  }

  ghost predicate ComparesOnly<T(!new)>(compare: (string, T, T) -> seq<Change>, part: Part) {
    forall k: string, u: T, v: T :: About(compare(k, u, v), part)
  }

  lemma PerKeyAbout<T(!new)>(
    keys: seq<string>, was: map<string, T>, now: map<string, T>, compare: (string, T, T) -> seq<Change>, part: Part)
    requires ComparesOnly(compare, part) && forall k :: k in keys ==> k in was && k in now
    ensures About(Flatten(PerKey(keys, was, now, compare)), part)
  {
    FlattenAbout(PerKey(keys, was, now, compare), part);
  }

  lemma DiffAbout<T(!new)>(a: seq<T>, b: seq<T>, complete: bool, kind: Kind<T>, part: Part)
    requires Writes(kind, part)
    ensures About(DiffItems(a, b, complete, kind), part)
  {
    var was, now := MapBy(a, kind.key), MapBy(b, kind.key);
    KeysOfMeaning(b, kind.key, was, false);
    KeysOfMeaning(a, kind.key, now, false);
    KeysOfMeaning(a, kind.key, now, true);
    EachAbout(KeysOf(b, kind.key, was, false), now, kind.added, part);
    EachAbout(KeysOf(a, kind.key, now, false), was, kind.removed, part);
    PerKeyAbout(KeysOf(a, kind.key, now, true), was, now, kind.compare, part);
    var added := Each(KeysOf(b, kind.key, was, false), now, kind.added);
    var removed := if complete then Each(KeysOf(a, kind.key, now, false), was, kind.removed) else [];
    AboutConcat(added, removed, part);
    AboutConcat(added + removed, Flatten(PerKey(KeysOf(a, kind.key, now, true), was, now, kind.compare)), part);
  }

  lemma BindingKindWrites()
    ensures Writes(BindingKind(), BindingPart)
  {
    forall k: string, u: Binding, v: Binding ensures About(CompareBindings(k, u, v), BindingPart) {
      ComparedBindings(k, u, v);
    }
  }

  lemma SchemaKindWrites()
    ensures Writes(SchemaKind(), SchemaPart)
  {
  }

  lemma FieldKindWrites()
    ensures Writes(FieldKind(), FieldPart)
  {
  }

  lemma SurfaceBlockAbout(current: View)
    ensures About(if current.complete then [] else UnobservableChanges(current.warnings), SurfacePart)
  {
  }

  lemma FormBlockAbout(a: Canonical, b: Canonical)
    ensures About(FormChanges(a, b), FormPart)
  {
  }

  lemma BlocksAbout(previous: View, current: View)
    ensures var a, b, complete := previous.canonical, current.canonical, current.complete;
            && About(if complete then [] else UnobservableChanges(current.warnings), SurfacePart)
            && About(DiffItems(a.schemas, b.schemas, complete, SchemaKind()), SchemaPart)
            && About(DiffItems(a.fields, b.fields, complete, FieldKind()), FieldPart)
            && About(DiffItems(a.bindings, b.bindings, complete, BindingKind()), BindingPart)
            && About(FormChanges(a, b), FormPart)
  {
    var a, b, complete := previous.canonical, current.canonical, current.complete;
    assert About(DiffItems(a.schemas, b.schemas, complete, SchemaKind()), SchemaPart) by {
      SchemaKindWrites();
      DiffAbout(a.schemas, b.schemas, complete, SchemaKind(), SchemaPart);
    }
    assert About(DiffItems(a.fields, b.fields, complete, FieldKind()), FieldPart) by {
      FieldKindWrites();
      DiffAbout(a.fields, b.fields, complete, FieldKind(), FieldPart);
    }
    assert About(DiffItems(a.bindings, b.bindings, complete, BindingKind()), BindingPart) by {
      BindingKindWrites();
      DiffAbout(a.bindings, b.bindings, complete, BindingKind(), BindingPart);
    }
    SurfaceBlockAbout(current);
    FormBlockAbout(a, b);
  }

  ghost predicate Local<S(!new)>(step: (S, Change) -> S, part: Part) {
    forall c: Change :: PartOf(c) != part ==> Ignores(step, c)
  }

  /** Of five consecutive blocks, a step that minds one part only sees the block about that part. */
  lemma OnlyOwnBlock<S(!new)>(state: S, blocks: seq<seq<Change>>, parts: seq<Part>, own: nat, step: (S, Change) -> S)
    requires |blocks| == |parts| && own < |parts| && Distinct(parts) && Local(step, parts[own])
    requires forall i :: 0 <= i < |blocks| ==> About(blocks[i], parts[i])
    ensures Fold(state, Flatten(blocks), step) == Fold(state, blocks[own], step)
  {
    var front, last := blocks[..|blocks| - 1], blocks[|blocks| - 1];
    FoldAppend(state, Flatten(front), last, step);
    if own == |blocks| - 1 {
      OthersIgnored(state, front, parts, own, step);
    } else {
      OnlyOwnBlock(state, front, parts[..|parts| - 1], own, step);
      assert parts[|parts| - 1] != parts[own];
      FoldIgnored(Fold(state, Flatten(front), step), last, step);
    }
  }

  lemma {:induction false} OthersIgnored<S(!new)>(
    state: S, blocks: seq<seq<Change>>, parts: seq<Part>, own: nat, step: (S, Change) -> S)
    requires |blocks| <= own < |parts| && Distinct(parts) && Local(step, parts[own])
    requires forall i :: 0 <= i < |blocks| ==> About(blocks[i], parts[i])
    ensures Fold(state, Flatten(blocks), step) == state
  {
    if blocks != [] {
      var front, last := blocks[..|blocks| - 1], blocks[|blocks| - 1];
      OthersIgnored(state, front, parts, own, step);
      FoldAppend(state, Flatten(front), last, step);
      assert parts[|front|] != parts[own];
      FoldIgnored(state, last, step);
    }
  }

  function Blocks(previous: View, current: View): seq<seq<Change>> {
    var a, b, complete := previous.canonical, current.canonical, current.complete;
    [if complete then [] else UnobservableChanges(current.warnings),
     DiffItems(a.schemas, b.schemas, complete, SchemaKind()),
     DiffItems(a.fields, b.fields, complete, FieldKind()),
     DiffItems(a.bindings, b.bindings, complete, BindingKind()),
     FormChanges(a, b)]
  }

  const PARTS := [SurfacePart, SchemaPart, FieldPart, BindingPart, FormPart]

  lemma FlattenFive(x: seq<Change>, y: seq<Change>, z: seq<Change>, u: seq<Change>, v: seq<Change>)
    ensures Flatten([x, y, z, u, v]) == x + y + z + u + v
  {
    assert [x][..0] == [] && [x, y][..1] == [x] && [x, y, z][..2] == [x, y];
    assert Flatten([x]) == [] + x == x;
    assert Flatten([x, y]) == x + y;
    assert Flatten([x, y, z]) == x + y + z;
    assert [x, y, z, u][..3] == [x, y, z] && [x, y, z, u, v][..4] == [x, y, z, u];
    assert Flatten([x, y, z, u]) == x + y + z + u;
  }

  lemma BlocksMatchParts(previous: View, current: View)
    ensures |Blocks(previous, current)| == |PARTS|
    ensures forall i :: 0 <= i < |PARTS| ==> About(Blocks(previous, current)[i], PARTS[i])
  {
    BlocksAbout(previous, current);
  }

  lemma DiffIsBlocks(previous: View, current: View)
    ensures Diff(previous, current) == Flatten(Blocks(previous, current))
  {
    var bs := Blocks(previous, current);
    FlattenFive(bs[0], bs[1], bs[2], bs[3], bs[4]);
  }

  lemma PartsAreDistinct()
    ensures Distinct(PARTS)
  {
  }

  lemma OwnBlockOf<S(!new)>(
    state: S, blocks: seq<seq<Change>>, whole: seq<Change>, own: nat, step: (S, Change) -> S)
    requires whole == Flatten(blocks) && |blocks| == |PARTS| && own < |PARTS| && Local(step, PARTS[own])
    requires forall i :: 0 <= i < |PARTS| ==> About(blocks[i], PARTS[i])
    ensures Fold(state, whole, step) == Fold(state, blocks[own], step)
  {
    PartsAreDistinct();
    OnlyOwnBlock(state, blocks, PARTS, own, step);
  }

  /** What a step about one part does to the change list is done by that part's block alone. */
  lemma BlockAlone<S(!new)>(state: S, previous: View, current: View, own: nat, step: (S, Change) -> S)
    requires own < |PARTS| == |Blocks(previous, current)| && Local(step, PARTS[own])
    ensures Fold(state, Diff(previous, current), step) == Fold(state, Blocks(previous, current)[own], step)
  {
    DiffIsBlocks(previous, current);
    BlocksMatchParts(previous, current);
    OwnBlockOf(state, Blocks(previous, current), Diff(previous, current), own, step);
  }

  lemma SchemaStepIsLocal()
    ensures Local(SchemaStep, SchemaPart)
  {
  }

  lemma FieldStepIsLocal()
    ensures Local(FieldStep, FieldPart)
  {
  }

  lemma BindingStepIsLocal()
    ensures Local(BindingStep, BindingPart)
  {
  }

  lemma FormStepsAreLocal()
    ensures Local(DefinitionStep, FormPart) && Local(SectionsStep, FormPart)
  {
  }

  /** What the new observation and the old contract together amount to. */
  function Observed(previous: View, current: View): Contents {
    var a, b := ContentsOf(previous.canonical), ContentsOf(current.canonical);
    Contents(
      Merged(a.schemas, b.schemas, current.complete),
      Merged(a.fields, b.fields, current.complete),
      Merged(a.bindings, b.bindings, current.complete),
      b.activeDefinition,
      b.sections)
  }

  lemma SchemaBlockAlone(previous: View, current: View, state: map<string, SchemaEntry>)
    ensures Fold(state, Diff(previous, current), SchemaStep)
         == Fold(
           state, DiffItems(previous.canonical.schemas, current.canonical.schemas, current.complete, SchemaKind()),
           SchemaStep)
  {
    SchemaStepIsLocal();
    BlockAlone(state, previous, current, 1, SchemaStep);
  }

  lemma SchemaBlockPatches(a: seq<SchemaEntry>, b: seq<SchemaEntry>, complete: bool)
    ensures Fold(MapBy(a, SchemaKey()), DiffItems(a, b, complete, SchemaKind()), SchemaStep)
         == Merged(MapBy(a, SchemaKey()), MapBy(b, SchemaKey()), complete)
  {
    SchemasPatch();
    KindPatched(a, b, complete, SchemaKind(), SchemaStep);
  }

  lemma SchemasPatched(previous: View, current: View)
    ensures Fold(MapBy(previous.canonical.schemas, SchemaKey()), Diff(previous, current), SchemaStep)
         == Observed(previous, current).schemas
  {
    SchemaBlockAlone(previous, current, MapBy(previous.canonical.schemas, SchemaKey()));
    SchemaBlockPatches(previous.canonical.schemas, current.canonical.schemas, current.complete);
  }

  lemma FieldBlockAlone(previous: View, current: View, state: map<string, FieldEntry>)
    ensures Fold(state, Diff(previous, current), FieldStep)
         == Fold(
           state, DiffItems(previous.canonical.fields, current.canonical.fields, current.complete, FieldKind()),
           FieldStep)
  {
    FieldStepIsLocal();
    BlockAlone(state, previous, current, 2, FieldStep);
  }

  lemma FieldBlockPatches(a: seq<FieldEntry>, b: seq<FieldEntry>, complete: bool)
    ensures Fold(MapBy(a, FieldKey()), DiffItems(a, b, complete, FieldKind()), FieldStep)
         == Merged(MapBy(a, FieldKey()), MapBy(b, FieldKey()), complete)
  {
    FieldsPatch();
    KindPatched(a, b, complete, FieldKind(), FieldStep);
  }

  lemma FieldsPatched(previous: View, current: View)
    ensures Fold(MapBy(previous.canonical.fields, FieldKey()), Diff(previous, current), FieldStep)
         == Observed(previous, current).fields
  {
    FieldBlockAlone(previous, current, MapBy(previous.canonical.fields, FieldKey()));
    FieldBlockPatches(previous.canonical.fields, current.canonical.fields, current.complete);
  }

  lemma BindingBlockAlone(previous: View, current: View, state: map<string, Binding>)
    ensures Fold(state, Diff(previous, current), BindingStep)
         == Fold(
           state, DiffItems(previous.canonical.bindings, current.canonical.bindings, current.complete, BindingKind()),
           BindingStep)
  {
    BindingStepIsLocal();
    BlockAlone(state, previous, current, 3, BindingStep);
  }

  lemma BindingBlockPatches(a: seq<Binding>, b: seq<Binding>, complete: bool)
    ensures Fold(MapBy(a, KeyOf()), DiffItems(a, b, complete, BindingKind()), BindingStep)
         == Merged(MapBy(a, KeyOf()), MapBy(b, KeyOf()), complete)
  {
    BindingsPatch();
    KindPatched(a, b, complete, BindingKind(), BindingStep);
  }

  lemma BindingsPatched(previous: View, current: View)
    ensures Fold(MapBy(previous.canonical.bindings, KeyOf()), Diff(previous, current), BindingStep)
         == Observed(previous, current).bindings
  {
    BindingBlockAlone(previous, current, MapBy(previous.canonical.bindings, KeyOf()));
    BindingBlockPatches(previous.canonical.bindings, current.canonical.bindings, current.complete);
  }

  lemma DefinitionPatched(a: Canonical, b: Canonical)
    ensures Fold(a.activeDefinition, FormChanges(a, b), DefinitionStep) == b.activeDefinition
  {
    var definition, sections := DefinitionChanges(a, b), SectionsChanges(a, b);
    FoldAppend(a.activeDefinition, definition, sections, DefinitionStep);
    OneFolded(a.activeDefinition, definition, DefinitionStep);
    OneFolded(b.activeDefinition, sections, DefinitionStep);
  }

  lemma SectionsPatched(a: Canonical, b: Canonical)
    ensures Fold(a.sections, FormChanges(a, b), SectionsStep) == b.sections
  {
    var definition, sections := DefinitionChanges(a, b), SectionsChanges(a, b);
    FoldAppend(a.sections, definition, sections, SectionsStep);
    OneFolded(a.sections, definition, SectionsStep);
    OneFolded(a.sections, sections, SectionsStep);
  }

  lemma OneFolded<S>(state: S, changes: seq<Change>, step: (S, Change) -> S)
    requires |changes| <= 1
    ensures Fold(state, changes, step) == if changes == [] then state else step(state, changes[0])
  {
    assert changes != [] ==> changes[..0] == [];
  }


  lemma FormsPatched(previous: View, current: View)
    ensures Fold(previous.canonical.activeDefinition, Diff(previous, current), DefinitionStep)
         == current.canonical.activeDefinition
    ensures Fold(previous.canonical.sections, Diff(previous, current), SectionsStep) == current.canonical.sections
  {
    FormStepsAreLocal();
    BlockAlone(previous.canonical.activeDefinition, previous, current, 4, DefinitionStep);
    DefinitionPatched(previous.canonical, current.canonical);
    BlockAlone(previous.canonical.sections, previous, current, 4, SectionsStep);
    SectionsPatched(previous.canonical, current.canonical);
  }

  /**
    The change list is a faithful patch: applied to the previous contract it gives the current one, or,
    when the current observation is incomplete, the current one over what it could not see.
   */
  lemma DiffIsPatch(previous: View, current: View)
    ensures ApplyAll(ContentsOf(previous.canonical), Diff(previous, current)) == Observed(previous, current)
  {
    Componentwise(ContentsOf(previous.canonical), Diff(previous, current));
    SchemasPatched(previous, current);
    FieldsPatched(previous, current);
    BindingsPatched(previous, current);
    FormsPatched(previous, current);
  }
}
