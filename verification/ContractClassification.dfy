/** What a change list, and the status drawn from it, say about two contracts. */
module ContractClassification {
  import opened JsonValues
  import opened Ordering
  import opened ContractStore
  import opened SubmissionBindings
  import opened BindingIdentity
  import opened ContractSnapshot
  import opened ContractCompleteness
  import opened ContractPresentation
  import opened ContractDiff
  import opened ContractPatch
  import opened ContractChanges

  // Lists with unique names

  /** The lists are sorted and no name is used twice. */
  ghost predicate WellKeyed(c: Canonical) {
    && SortedBy(c.schemas, SchemaOrder()) && DistinctBy(c.schemas, SchemaKey())
    && SortedBy(c.fields, FieldOrder()) && DistinctBy(c.fields, FieldKey())
    && SortedBy(c.bindings, KeyOrder()) && DistinctBy(c.bindings, KeyOf())
  }

  lemma {:induction false} MapByKeepsAll<T>(items: seq<T>, key: T -> string)
    requires DistinctBy(items, key)
    ensures forall x :: x in items <==> key(x) in MapBy(items, key) && MapBy(items, key)[key(x)] == x
  {
    if items != [] {
      var front, last := items[..|items| - 1], items[|items| - 1];
      assert items == front + [last];
      assert DistinctBy(front, key);
      MapByKeepsAll(front, key);
      forall x | x in front ensures key(x) != key(last) {
        var i :| 0 <= i < |front| && front[i] == x;
        assert key(items[i]) != key(items[|items| - 1]);
      }
    }
  }

  /** A sorted list with unique names can be read back from its dictionary. */
  lemma ListOfMap<T(!new)>(a: seq<T>, b: seq<T>, key: T -> string, le: (T, T) -> bool)
    requires DistinctBy(a, key) && DistinctBy(b, key) && MapBy(a, key) == MapBy(b, key)
    requires SortedBy(a, le) && SortedBy(b, le)
    requires forall x: T, y: T :: le(x, y) && le(y, x) ==> key(x) == key(y)
    ensures a == b
  {
    MapByKeepsAll(a, key);
    MapByKeepsAll(b, key);
    assert Distinct(a) && Distinct(b);
    SameMembersPermute(a, b);
    forall i, j | 0 <= i < |a| && 0 <= j < |a| && le(a[i], a[j]) && le(a[j], a[i]) ensures a[i] == a[j] {
      assert key(a[i]) == key(a[j]);
    }
    SortedPermutationIsUnique(a, b, le);
  }

  lemma OrdersTellNames()
    ensures forall x: SchemaEntry, y: SchemaEntry ::
            SchemaOrder()(x, y) && SchemaOrder()(y, x) ==> SchemaKey()(x) == SchemaKey()(y)
    ensures forall x: FieldEntry, y: FieldEntry ::
            FieldOrder()(x, y) && FieldOrder()(y, x) ==> FieldKey()(x) == FieldKey()(y)
    ensures forall x: Binding, y: Binding :: KeyOrder()(x, y) && KeyOrder()(y, x) ==> KeyOf()(x) == KeyOf()(y)
  {
    forall x: SchemaEntry, y: SchemaEntry | SchemaOrder()(x, y) && SchemaOrder()(y, x) ensures x.prefix == y.prefix {
      TextLeTotal(x.prefix, y.prefix);
    }
    forall x: FieldEntry, y: FieldEntry | FieldOrder()(x, y) && FieldOrder()(y, x) ensures x.metadata == y.metadata {
      TextLeTotal(x.metadata, y.metadata);
    }
    forall x: Binding, y: Binding | KeyOrder()(x, y) && KeyOrder()(y, x) ensures x.bindingKey == y.bindingKey {
      TextLeTotal(x.bindingKey, y.bindingKey);
    }
  }

  /** Contracts with sorted, uniquely named lists are the same when their dictionaries are. */
  lemma ContentsTellContract(a: Canonical, b: Canonical)
    requires WellKeyed(a) && WellKeyed(b) && ContentsOf(a) == ContentsOf(b)
    ensures a == b
  {
    OrdersTellNames();
    ListOfMap(a.schemas, b.schemas, SchemaKey(), SchemaOrder());
    ListOfMap(a.fields, b.fields, FieldKey(), FieldOrder());
    ListOfMap(a.bindings, b.bindings, KeyOf(), KeyOrder());
  }

  /** The patch rebuilds the very lists of a complete contract. */
  lemma PatchRebuildsContract(previous: View, current: View, rebuilt: Canonical)
    requires current.complete && WellKeyed(current.canonical) && WellKeyed(rebuilt)
    requires ContentsOf(rebuilt) == ApplyAll(ContentsOf(previous.canonical), Diff(previous, current))
    ensures rebuilt == current.canonical
  {
    DiffIsPatch(previous, current);
    ContentsTellContract(rebuilt, current.canonical);
  }

  lemma SortDistinctBy<T(!new), K>(items: seq<T>, le: (T, T) -> bool, key: T -> K)
    requires TotalPreorder(le)
    ensures SortedBy(Sort(items, le), le)
    ensures DistinctBy(Sort(items, le), key) <==> DistinctBy(items, key)
  {
    SortIsSorted(items, le);
    SortKeeps(items, le);
    if DistinctBy(items, key) {
      PermutedDistinctBy(items, Sort(items, le), key);
    }
    if DistinctBy(Sort(items, le), key) {
      PermutedDistinctBy(Sort(items, le), items, key);
    }
  }

  lemma KeyOrderIsTotal()
    ensures TotalPreorder(KeyOrder())
  {
    forall a: Binding, b: Binding ensures KeyOrder()(a, b) || KeyOrder()(b, a) {
      TextLeTotal(a.bindingKey, b.bindingKey);
    }
    forall a: Binding, b: Binding, c: Binding | KeyOrder()(a, b) && KeyOrder()(b, c) ensures KeyOrder()(a, c) {
      TextLeTransitive(a.bindingKey, b.bindingKey, c.bindingKey);
    }
  }

  function SlotsOf(pages: Pages): seq<Slot> {
    AllSlots(SurfaceItems(pages, SubmissionForms), ActiveFormIds(SurfaceItems(pages, ActiveSections)).ids)
  }

  /** A contract built from pages is sorted; its names are unique exactly when those of its items are. */
  lemma BuiltIsWellKeyed(pages: Pages)
    ensures WellKeyed(CanonicalOf(pages)) <==>
      && PrefixesUnique(pages)
      && DistinctBy(QualifiedEntries(pages, Prefixes(pages)), FieldKey())
      && JoinsTellPairs(SlotsOf(pages))
  {
    ScanFieldsMeaning(pages, Prefixes(pages));
    SchemaOrderIsTotal();
    FieldOrderIsTotal();
    KeyOrderIsTotal();
    SortDistinctBy(ScanSchemas(SurfaceItems(pages, MetadataSchemas)).entries, SchemaOrder(), SchemaKey());
    SortDistinctBy(QualifiedEntries(pages, Prefixes(pages)), FieldOrder(), FieldKey());
    SortDistinctBy(Numbered(SlotsOf(pages)), KeyOrder(), KeyOf());
    KeysDistinctIff(
      SurfaceItems(pages, SubmissionForms),
      ActiveFormIds(SurfaceItems(pages, ActiveSections)).ids,
      RegistryNames(CanonicalRegistry(pages).fields));
  }

  // The empty change list

  lemma FlattenOfEmpty(parts: seq<seq<Change>>)
    requires forall i :: 0 <= i < |parts| ==> parts[i] == []
    ensures Flatten(parts) == []
  {
  }

  lemma HasMember<T>(xs: seq<T>)
    ensures xs != [] ==> exists x :: x in xs
  {
    assert |xs| > 0 ==> xs[0] in xs;
  }

  lemma NoItemsChanged<T>(a: seq<T>, b: seq<T>, complete: bool, kind: Kind<T>)
    requires MapBy(a, kind.key) == MapBy(b, kind.key)
    requires forall k, u :: kind.compare(k, u, u) == []
    ensures DiffItems(a, b, complete, kind) == []
  {
    var was, now := MapBy(a, kind.key), MapBy(b, kind.key);
    var added, removed, shared := KeysOf(b, kind.key, was, false), KeysOf(a, kind.key, now, false),
      KeysOf(a, kind.key, now, true);
    KeysOfMeaning(b, kind.key, was, false);
    KeysOfMeaning(a, kind.key, now, false);
    KeysOfMeaning(a, kind.key, now, true);
    HasMember(added);
    HasMember(removed);
    FlattenOfEmpty(PerKey(shared, was, now, kind.compare));
  }

  /** Against a complete observation, no change is reported exactly when the dictionaries agree. */
  lemma NoChangesIffSameContents(previous: View, current: View)
    requires current.complete
    ensures Diff(previous, current) == [] <==> ContentsOf(previous.canonical) == ContentsOf(current.canonical)
  {
    var a, b := previous.canonical, current.canonical;
    DiffIsPatch(previous, current);
    if ContentsOf(a) == ContentsOf(b) {
      NoItemsChanged(a.schemas, b.schemas, true, SchemaKind());
      NoItemsChanged(a.fields, b.fields, true, FieldKind());
      NoItemsChanged(a.bindings, b.bindings, true, BindingKind());
    }
  }

  /** With unique names, no change is reported exactly when the contracts are the same. */
  lemma NoChangesIffSame(previous: View, current: View)
    requires current.complete && WellKeyed(previous.canonical) && WellKeyed(current.canonical)
    ensures Diff(previous, current) == [] <==> previous.canonical == current.canonical
  {
    NoChangesIffSameContents(previous, current);
    if ContentsOf(previous.canonical) == ContentsOf(current.canonical) {
      ContentsTellContract(previous.canonical, current.canonical);
    }
  }

  // The status

  datatype SnapshotStatus =
    | BaselineReviewRequired | ReviewRequired | NoChange | DiffDetected | Active | Superseded

  predicate Severe(c: Change) {
    c.severity == High || c.severity == Critical
  }

  predicate NoneSevere(changes: seq<Change>) {
    forall i :: 0 <= i < |changes| ==> !Severe(changes[i])
  }

  /** `classify_snapshot_status`, given the governed hash of the active snapshot if there is one. */
  function ClassifySnapshotStatus(
    active: Option<Digest<Canonical>>, current: View, changes: seq<Change>): SnapshotStatus
  {
    match active
    case None => if current.complete then BaselineReviewRequired else ReviewRequired
    case Some(hash) =>
      if !current.complete then ReviewRequired
      else if current.semanticHash == hash then NoChange
      else if !NoneSevere(changes) then ReviewRequired
      else DiffDetected
  }

  ghost predicate SchemasKept(x: map<string, SchemaEntry>, y: map<string, SchemaEntry>) {
    forall k :: k in x ==> k in y
  }

  ghost predicate FieldsKept(x: map<string, FieldEntry>, y: map<string, FieldEntry>) {
    forall k :: k in x ==> k in y && x[k].id == y[k].id
  }

  ghost predicate BindingsKept(x: map<string, Binding>, y: map<string, Binding>) {
    forall k :: k in x ==> k in y && BindsAlike(x[k], y[k])
  }

  /** Nothing is gone, and what is still there binds the same way. */
  ghost predicate CompatibleExtension(a: Canonical, b: Canonical) {
    var x, y := ContentsOf(a), ContentsOf(b);
    && SchemasKept(x.schemas, y.schemas)
    && FieldsKept(x.fields, y.fields)
    && BindingsKept(x.bindings, y.bindings)
    && a.activeDefinition == b.activeDefinition
    && a.sections == b.sections
  }

  predicate BindsAlike(u: Binding, v: Binding) {
    && u.required == v.required
    && u.repeatable == v.repeatable
    && u.inputType == v.inputType
    && u.controlledVocabulary == v.controlledVocabulary
    && u.closed == v.closed
  }

  lemma NoneSevereConcat(a: seq<Change>, b: seq<Change>)
    ensures NoneSevere(a + b) <==> NoneSevere(a) && NoneSevere(b)
  {
    if NoneSevere(a + b) {
      forall i | 0 <= i < |a| ensures !Severe(a[i]) {
        assert (a + b)[i] == a[i];
      }
      forall i | 0 <= i < |b| ensures !Severe(b[i]) {
        assert (a + b)[|a| + i] == b[i];
      }
    }
  }

  lemma {:induction false} NoneSevereFlatten(parts: seq<seq<Change>>)
    ensures NoneSevere(Flatten(parts)) <==> forall i :: 0 <= i < |parts| ==> NoneSevere(parts[i])
  {
    if parts != [] {
      NoneSevereFlatten(parts[..|parts| - 1]);
      NoneSevereConcat(Flatten(parts[..|parts| - 1]), parts[|parts| - 1]);
    }
  }

  /** Additions are mild, removals are severe, and `mild` says which updates are. */
  ghost predicate Grades<T(!new)>(kind: Kind<T>, mild: (T, T) -> bool) {
    && (forall k: string, v: T :: !Severe(kind.added(k, v)))
    && (forall k: string, v: T :: Severe(kind.removed(k, v)))
    && (forall k: string, u: T, v: T {:trigger kind.compare(k, u, v)} ::
       NoneSevere(kind.compare(k, u, v)) <==> mild(u, v))
  }

  ghost predicate KeptMildly<T>(was: map<string, T>, now: map<string, T>, mild: (T, T) -> bool) {
    forall k :: k in was ==> k in now && mild(was[k], now[k])
  }

  lemma RemovalsAreSevere<T(!new)>(keys: seq<string>, items: map<string, T>, kind: Kind<T>, mild: (T, T) -> bool)
    requires Grades(kind, mild) && forall k :: k in keys ==> k in items
    ensures NoneSevere(Each(keys, items, kind.removed)) <==> keys == []
  {
    if keys != [] {
      assert keys[0] in keys;
      assert Severe(Each(keys, items, kind.removed)[0]);
    }
  }

  lemma AdditionsAreMild<T(!new)>(keys: seq<string>, items: map<string, T>, kind: Kind<T>, mild: (T, T) -> bool)
    requires Grades(kind, mild) && forall k :: k in keys ==> k in items
    ensures NoneSevere(Each(keys, items, kind.added))
  {
  }

  lemma NoneSevereThree(a: seq<Change>, b: seq<Change>, c: seq<Change>)
    ensures NoneSevere(a + b + c) <==> NoneSevere(a) && NoneSevere(b) && NoneSevere(c)
  {
    NoneSevereConcat(a, b);
    NoneSevereConcat(a + b, c);
  }

  lemma UpdatesGraded<T(!new)>(
    keys: seq<string>, was: map<string, T>, now: map<string, T>, kind: Kind<T>, mild: (T, T) -> bool)
    requires Grades(kind, mild) && forall k :: k in keys ==> k in was && k in now
    ensures NoneSevere(Flatten(PerKey(keys, was, now, kind.compare)))
       <==> forall k :: k in keys ==> mild(was[k], now[k])
  {
    var parts := PerKey(keys, was, now, kind.compare);
    NoneSevereFlatten(parts);
    forall i | 0 <= i < |keys| ensures NoneSevere(parts[i]) <==> mild(was[keys[i]], now[keys[i]]) {
      assert parts[i] == kind.compare(keys[i], was[keys[i]], now[keys[i]]);
    }
    if NoneSevere(Flatten(parts)) {
      forall k | k in keys ensures mild(was[k], now[k]) {
        var i :| 0 <= i < |keys| && keys[i] == k;
        assert NoneSevere(parts[i]);
      }
    }
  }

  lemma KeptByName<T(!new)>(
    was: map<string, T>, now: map<string, T>, removed: seq<string>, shared: seq<string>, mild: (T, T) -> bool)
    requires forall k :: k in removed <==> k in was && k !in now
    requires forall k :: k in shared <==> k in was && k in now
    ensures KeptMildly(was, now, mild) <==> removed == [] && forall k :: k in shared ==> mild(was[k], now[k])
  {
    HasMember(removed);
  }

  /** One block has no severe change exactly when everything is still there, mildly changed at most. */
  lemma KindGraded<T(!new)>(a: seq<T>, b: seq<T>, kind: Kind<T>, mild: (T, T) -> bool)
    requires Grades(kind, mild)
    ensures NoneSevere(DiffItems(a, b, true, kind)) <==> KeptMildly(MapBy(a, kind.key), MapBy(b, kind.key), mild)
  {
    var was, now := MapBy(a, kind.key), MapBy(b, kind.key);
    var added, removed, shared := KeysOf(b, kind.key, was, false), KeysOf(a, kind.key, now, false),
      KeysOf(a, kind.key, now, true);
    KeysOfMeaning(b, kind.key, was, false);
    KeysOfMeaning(a, kind.key, now, false);
    KeysOfMeaning(a, kind.key, now, true);
    AdditionsAreMild(added, now, kind, mild);
    RemovalsAreSevere(removed, was, kind, mild);
    UpdatesGraded(shared, was, now, kind, mild);
    NoneSevereThree(Each(added, now, kind.added), Each(removed, was, kind.removed),
      Flatten(PerKey(shared, was, now, kind.compare)));
    KeptByName(was, now, removed, shared, mild);
  }

  function AnySchema(): (SchemaEntry, SchemaEntry) -> bool {
    (u: SchemaEntry, v: SchemaEntry) => true
  }

  function SameId(): (FieldEntry, FieldEntry) -> bool {
    (u: FieldEntry, v: FieldEntry) => u.id == v.id
  }

  function Alike(): (Binding, Binding) -> bool {
    (u: Binding, v: Binding) => BindsAlike(u, v)
  }

  lemma SchemasGraded()
    ensures Grades(SchemaKind(), AnySchema())
  {
  }

  lemma FieldsGraded()
    ensures Grades(FieldKind(), SameId())
  {
    forall k: string, u: FieldEntry, v: FieldEntry ensures NoneSevere(CompareFields(k, u, v)) <==> u.id == v.id {
      if u.id != v.id {
        assert Severe(CompareFields(k, u, v)[0]);
      }
    }
  }

  predicate SevereType(t: (ChangeType, Severity)) {
    t.1 == High || t.1 == Critical
  }

  lemma BindingTypesGraded(u: Binding, v: Binding)
    ensures (forall i :: 0 <= i < |BindingChangeTypes(u, v)| ==> !SevereType(BindingChangeTypes(u, v)[i]))
       <==> BindsAlike(u, v)
  {
    var types := BindingChangeTypes(u, v);
    assert u.required != v.required ==> (RequiredChanged, High) in types;
    assert u.repeatable != v.repeatable ==> (RepeatableChanged, High) in types;
    assert u.inputType != v.inputType ==> (InputTypeChanged, High) in types;
    assert u.controlledVocabulary != v.controlledVocabulary || u.closed != v.closed ==>
      (VocabularyChanged, High) in types;
  }

  lemma BindingsGraded()
    ensures Grades(BindingKind(), Alike())
  {
    forall k: string, u: Binding, v: Binding ensures NoneSevere(CompareBindings(k, u, v)) <==> BindsAlike(u, v) {
      BindingTypesGraded(u, v);
      var types, changes := BindingChangeTypes(u, v), CompareBindings(k, u, v);
      if u != v {
        assert forall i :: 0 <= i < |types| ==> (Severe(changes[i]) <==> SevereType(types[i]));
      }
    }
  }

  lemma SchemaBlockGraded(a: seq<SchemaEntry>, b: seq<SchemaEntry>)
    ensures NoneSevere(DiffItems(a, b, true, SchemaKind()))
       <==> SchemasKept(MapBy(a, SchemaKey()), MapBy(b, SchemaKey()))
  {
    SchemasGraded();
    KindGraded(a, b, SchemaKind(), AnySchema());
  }

  lemma FieldBlockGraded(a: seq<FieldEntry>, b: seq<FieldEntry>)
    ensures NoneSevere(DiffItems(a, b, true, FieldKind())) <==> FieldsKept(MapBy(a, FieldKey()), MapBy(b, FieldKey()))
  {
    FieldsGraded();
    KindGraded(a, b, FieldKind(), SameId());
  }

  lemma BindingBlockGraded(a: seq<Binding>, b: seq<Binding>)
    ensures NoneSevere(DiffItems(a, b, true, BindingKind())) <==> BindingsKept(MapBy(a, KeyOf()), MapBy(b, KeyOf()))
  {
    BindingsGraded();
    KindGraded(a, b, BindingKind(), Alike());
  }

  lemma FormGraded(a: Canonical, b: Canonical)
    ensures NoneSevere(FormChanges(a, b)) <==> a.activeDefinition == b.activeDefinition && a.sections == b.sections
  {
    var changes := FormChanges(a, b);
    assert |changes| > 0 ==> Severe(changes[0]);
  }

  lemma DiffGraded(previous: View, current: View)
    requires current.complete
    ensures var a, b := previous.canonical, current.canonical;
            NoneSevere(Diff(previous, current)) <==>
              && NoneSevere(DiffItems(a.schemas, b.schemas, true, SchemaKind()))
              && NoneSevere(DiffItems(a.fields, b.fields, true, FieldKind()))
              && NoneSevere(DiffItems(a.bindings, b.bindings, true, BindingKind()))
              && NoneSevere(FormChanges(a, b))
  {
    var a, b := previous.canonical, current.canonical;
    var x, y, z, u :=
      DiffItems(a.schemas, b.schemas, true, SchemaKind()), DiffItems(a.fields, b.fields, true, FieldKind()),
      DiffItems(a.bindings, b.bindings, true, BindingKind()), FormChanges(a, b);
    assert Diff(previous, current) == [] + x + y + z + u;
    NoneSevereConcat([] + x + y + z, u);
    NoneSevereConcat([] + x + y, z);
    NoneSevereConcat([] + x, y);
    NoneSevereConcat([], x);
  }

  /** Against a complete observation, no change is severe exactly when the contract is compatibly extended. */
  lemma NoneSevereIffCompatible(previous: View, current: View)
    requires current.complete
    ensures NoneSevere(Diff(previous, current)) <==> CompatibleExtension(previous.canonical, current.canonical)
  {
    var a, b := previous.canonical, current.canonical;
    DiffGraded(previous, current);
    SchemaBlockGraded(a.schemas, b.schemas);
    FieldBlockGraded(a.fields, b.fields);
    BindingBlockGraded(a.bindings, b.bindings);
    FormGraded(a, b);
  }

  lemma StatusOf(hash: Digest<Canonical>, current: View, changes: seq<Change>)
    ensures var status := ClassifySnapshotStatus(Some(hash), current, changes);
            && (status == NoChange <==> current.complete && current.semanticHash == hash)
            && (status == DiffDetected <==> current.complete && current.semanticHash != hash && NoneSevere(changes))
            && (status == ReviewRequired
               <==> !current.complete || (current.semanticHash != hash && !NoneSevere(changes)))
  {
  }

  /**
    What each status means when a snapshot is compared with the active contract: NO_CHANGE that it is the
    same contract, DIFF_DETECTED that it is another one that only extends it, and everything else, an
    incomplete observation first of all, needs review.
   */
  lemma StatusMeaning(active: View, current: View)
    requires active.semanticHash == JsonHash(active.canonical) && current.semanticHash == JsonHash(current.canonical)
    ensures var status := ClassifySnapshotStatus(Some(active.semanticHash), current, Diff(active, current));
            && (status == NoChange <==> current.complete && current.canonical == active.canonical)
            && (status == DiffDetected <==>
                current.complete && current.canonical != active.canonical
                && CompatibleExtension(active.canonical, current.canonical))
            && (status == ReviewRequired <==>
                !current.complete
                || (current.canonical != active.canonical && !CompatibleExtension(active.canonical, current.canonical)))
  {
    StatusOf(active.semanticHash, current, Diff(active, current));
    if current.complete {
      NoneSevereIffCompatible(active, current);
    }
  }

  // Incomplete observations

  predicate Removal(c: Change) {
    c.changeType == SchemaRemoved || c.changeType == FieldRemoved || c.changeType == BindingRemoved
  }

  predicate NoRemovals(changes: seq<Change>) {
    forall i :: 0 <= i < |changes| ==> !Removal(changes[i])
  }

  lemma CalledRemovals(previous: View, current: View, c: Change)
    requires Called(previous, current, c) && Removal(c)
    ensures current.complete
  {
  }

  /** An incomplete observation reports no removal, and reports every warning as critical. */
  lemma IncompleteNeverRemoves(previous: View, current: View)
    requires !current.complete
    ensures NoRemovals(Diff(previous, current))
    ensures forall w ::
            w in current.warnings ==>
              Change(UnobservableSurface, Critical, w, Nothing, Nothing) in Diff(previous, current)
  {
    var changes := Diff(previous, current);
    forall i | 0 <= i < |changes| ensures !Removal(changes[i]) {
      DiffMeaning(previous, current, changes[i]);
      if Removal(changes[i]) {
        CalledRemovals(previous, current, changes[i]);
      }
    }
    forall w | w in current.warnings ensures Change(UnobservableSurface, Critical, w, Nothing, Nothing) in changes {
      DiffMeaning(previous, current, Change(UnobservableSurface, Critical, w, Nothing, Nothing));
    }
  }
}
