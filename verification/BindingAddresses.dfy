/** Where the canonical bindings come from: each one stands at an address in the forms, and each address gives one. */
module BindingAddresses {
  import opened JsonValues
  import opened Ordering
  import opened SubmissionBindings
  import opened BindingIdentity

  predicate Within(j: Json, i: int) {
    j.Arr? && 0 <= i < |j.items|
  }

  /** The four indices of a position lead to the option the slot is made of, and that option names its metadata. */
  ghost predicate Addressed(byId: map<string, Json>, formIds: seq<string>, slot: Slot) {
    && |slot.position| == 4
    && 0 <= slot.position[0] < |formIds| && slot.form == formIds[slot.position[0]]
    && AddressedInRows(RowsOf(byId, slot.form), slot)
  }

  ghost predicate AddressedInRows(rows: Json, slot: Slot)
    requires |slot.position| == 4
  {
    && Within(rows, slot.position[1])
    && var fields := Get(rows.items[slot.position[1]], "fields");
    && Within(fields, slot.position[2]) && slot.field == fields.items[slot.position[2]]
    && var options := Get(slot.field, "selectableMetadata");
    && Within(options, slot.position[3]) && slot.choice == options.items[slot.position[3]]
    && Get(slot.choice, "metadata") == Str(slot.metadata) && slot.metadata != ""
  }

  // Level by level

  predicate IsOption(form: string, at: seq<int>, field: Json, options: seq<Json>, c: int, slot: Slot) {
    && 0 <= c < |options|
    && IsText(Get(options[c], "metadata"))
    && slot == Slot(form, Get(options[c], "metadata").text, at + [c], field, options[c])
  }

  lemma {:induction false} OptionsHave(form: string, at: seq<int>, field: Json, options: seq<Json>, n: nat, slot: Slot)
    requires n <= |options|
    ensures slot in OptionSlots(form, at, field, options, n)
       <==> exists c :: c < n && IsOption(form, at, field, options, c, slot)
  {
    if n > 0 {
      OptionsHave(form, at, field, options, n - 1, slot);
      assert IsOption(form, at, field, options, n - 1, slot) ==> slot in OptionSlots(form, at, field, options, n);
    }
  }

  predicate InField(form: string, at: seq<int>, fields: seq<Json>, f: int, slot: Slot) {
    0 <= f < |fields| && slot in SlotsOfField(form, at + [f], fields[f])
  }

  lemma {:induction false} FieldsHave(form: string, at: seq<int>, fields: seq<Json>, n: nat, slot: Slot)
    requires n <= |fields|
    ensures slot in FieldSlots(form, at, fields, n) <==> exists f :: f < n && InField(form, at, fields, f, slot)
  {
    if n > 0 {
      FieldsHave(form, at, fields, n - 1, slot);
      assert InField(form, at, fields, n - 1, slot) ==> slot in FieldSlots(form, at, fields, n);
    }
  }

  predicate InRow(form: string, at: seq<int>, rows: seq<Json>, r: int, slot: Slot) {
    0 <= r < |rows| && slot in SlotsOfRow(form, at + [r], rows[r])
  }

  lemma {:induction false} RowsHave(form: string, at: seq<int>, rows: seq<Json>, n: nat, slot: Slot)
    requires n <= |rows|
    ensures slot in RowSlots(form, at, rows, n) <==> exists r :: r < n && InRow(form, at, rows, r, slot)
  {
    if n > 0 {
      RowsHave(form, at, rows, n - 1, slot);
      var front, last := RowSlots(form, at, rows, n - 1), SlotsOfRow(form, at + [n - 1], rows[n - 1]);
      assert slot in front + last <==> slot in front || slot in last;
      assert InRow(form, at, rows, n - 1, slot) ==> slot in RowSlots(form, at, rows, n);
    }
  }

  predicate InForm(byId: map<string, Json>, formIds: seq<string>, o: int, slot: Slot) {
    0 <= o < |formIds| && slot in SlotsOfForm(byId, formIds[o], o)
  }

  lemma {:induction false} FormsHave(byId: map<string, Json>, formIds: seq<string>, n: nat, slot: Slot)
    requires n <= |formIds|
    ensures slot in FormSlots(byId, formIds, n) <==> exists o :: o < n && InForm(byId, formIds, o, slot)
  {
    if n > 0 {
      FormsHave(byId, formIds, n - 1, slot);
      var front, last := FormSlots(byId, formIds, n - 1), SlotsOfForm(byId, formIds[n - 1], n - 1);
      assert slot in front + last <==> slot in front || slot in last;
      assert InForm(byId, formIds, n - 1, slot) <==> slot in last;
    }
  }

  // All levels together

  ghost predicate FieldLeads(form: string, at: seq<int>, field: Json, slot: Slot) {
    && slot.form == form && slot.field == field
    && var options := Get(field, "selectableMetadata");
    && options.Arr? && |slot.position| == |at| + 1 && slot.position[..|at|] == at
    && Within(options, slot.position[|at|]) && slot.choice == options.items[slot.position[|at|]]
    && Get(slot.choice, "metadata") == Str(slot.metadata) && slot.metadata != ""
  }

  lemma FieldLeadsIff(form: string, at: seq<int>, field: Json, slot: Slot)
    ensures slot in SlotsOfField(form, at, field) <==> FieldLeads(form, at, field, slot)
  {
    var options := Get(field, "selectableMetadata");
    if options.Arr? {
      OptionsHave(form, at, field, options.items, |options.items|, slot);
      if FieldLeads(form, at, field, slot) {
        assert slot.position == at + [slot.position[|at|]];
        assert IsOption(form, at, field, options.items, slot.position[|at|], slot);
      }
    }
  }

  ghost predicate RowLeads(form: string, at: seq<int>, row: Json, slot: Slot) {
    && |slot.position| == |at| + 2 && slot.position[..|at|] == at
    && var fields := Get(row, "fields");
    && Within(fields, slot.position[|at|])
    && FieldLeads(form, at + [slot.position[|at|]], fields.items[slot.position[|at|]], slot)
  }

  lemma RowLeadsIff(form: string, at: seq<int>, row: Json, slot: Slot)
    ensures slot in SlotsOfRow(form, at, row) <==> RowLeads(form, at, row, slot)
  {
    var fields := Get(row, "fields");
    if fields.Arr? {
      FieldsHave(form, at, fields.items, |fields.items|, slot);
      if RowLeads(form, at, row, slot) {
        var f := slot.position[|at|];
        FieldLeadsIff(form, at + [f], fields.items[f], slot);
        assert InField(form, at, fields.items, f, slot);
      }
      if slot in SlotsOfRow(form, at, row) {
        var f :| 0 <= f < |fields.items| && InField(form, at, fields.items, f, slot);
        FieldLeadsIff(form, at + [f], fields.items[f], slot);
        assert slot.position[..|at|] == slot.position[..|at| + 1][..|at|] == at;
        assert slot.position[|at|] == slot.position[..|at| + 1][|at|] == f;
      }
    }
  }

  ghost predicate FormLeads(rows: Json, form: string, order: nat, slot: Slot) {
    && |slot.position| == 4 && slot.position[0] == order
    && Within(rows, slot.position[1])
    && RowLeads(form, [order, slot.position[1]], rows.items[slot.position[1]], slot)
  }

  lemma FormLeadsIff(byId: map<string, Json>, form: string, order: nat, slot: Slot)
    ensures slot in SlotsOfForm(byId, form, order) <==> FormLeads(RowsOf(byId, form), form, order, slot)
  {
    var rows := RowsOf(byId, form);
    if rows.Arr? {
      RowsHave(form, [order], rows.items, |rows.items|, slot);
      if FormLeads(rows, form, order, slot) {
        var r := slot.position[1];
        assert [order] + [r] == [order, r];
        RowLeadsIff(form, [order] + [r], rows.items[r], slot);
        assert InRow(form, [order], rows.items, r, slot);
      }
      if slot in SlotsOfForm(byId, form, order) {
        var r :| 0 <= r < |rows.items| && InRow(form, [order], rows.items, r, slot);
        assert [order] + [r] == [order, r];
        RowLeadsIff(form, [order] + [r], rows.items[r], slot);
        assert slot.position[0] == slot.position[..2][0] == order;
        assert slot.position[1] == slot.position[..2][1] == r;
      }
    }
  }

  lemma LeadsIffAddressed(rows: Json, form: string, order: nat, slot: Slot)
    ensures FormLeads(rows, form, order, slot) <==>
      |slot.position| == 4 && slot.position[0] == order && slot.form == form && AddressedInRows(rows, slot)
  {
    if |slot.position| == 4 && slot.position[0] == order {
      assert slot.position[..2] == [order, slot.position[1]];
      assert slot.position[..3] == [order, slot.position[1]] + [slot.position[2]];
    }
  }

  /** The loops meet exactly the slots that stand at an address in the active forms. */
  lemma SlotsAreAddressed(forms: seq<Json>, formIds: seq<string>, slot: Slot)
    ensures slot in AllSlots(forms, formIds) <==> Addressed(FormsById(forms), formIds, slot)
  {
    var byId := FormsById(forms);
    FormsHave(byId, formIds, |formIds|, slot);
    if slot in AllSlots(forms, formIds) {
      var o :| 0 <= o < |formIds| && InForm(byId, formIds, o, slot);
      FormLeadsIff(byId, formIds[o], o, slot);
      LeadsIffAddressed(RowsOf(byId, formIds[o]), formIds[o], o, slot);
    }
    if Addressed(byId, formIds, slot) {
      var o := slot.position[0];
      LeadsIffAddressed(RowsOf(byId, formIds[o]), formIds[o], o, slot);
      FormLeadsIff(byId, formIds[o], o, slot);
      assert InForm(byId, formIds, o, slot);
    }
  }

  // The bindings

  /** The binding reads its attributes off the slot at its position. */
  ghost predicate ReadFrom(byId: map<string, Json>, formIds: seq<string>, b: Binding, slot: Slot) {
    && Addressed(byId, formIds, slot)
    && b.form == slot.form && b.metadata == slot.metadata && b.position == slot.position
    && b.fieldLabel == Get(slot.field, "label") && b.selectorLabel == Get(slot.choice, "label")
    && b.required == Truthy(Get(slot.field, "mandatory")) && b.repeatable == Truthy(Get(slot.field, "repeatable"))
    && b.inputType == Get(Get(slot.field, "input"), "type")
    && b.controlledVocabulary == Get(slot.choice, "controlledVocabulary") && b.closed == Get(slot.choice, "closed")
    && b.bindingKey == b.form + ":" + b.metadata + ":" + NatText(b.occurrence)
    && (if Get(slot.field, "typeBind").Arr? then b.typeBind == Get(slot.field, "typeBind") else b.typeBind == Arr([]))
  }

  ghost predicate HasAddress(byId: map<string, Json>, formIds: seq<string>, b: Binding) {
    exists slot :: ReadFrom(byId, formIds, b, slot)
  }

  ghost predicate HasBinding(byId: map<string, Json>, formIds: seq<string>, bindings: seq<Binding>, slot: Slot) {
    exists i :: 0 <= i < |bindings| && ReadFrom(byId, formIds, bindings[i], slot)
  }

  lemma BindingHasAddress(forms: seq<Json>, formIds: seq<string>, registry: set<string>, b: Binding)
    requires b in CanonicalBindings(forms, formIds, registry).bindings
    ensures HasAddress(FormsById(forms), formIds, b)
  {
    var numbered := Numbered(AllSlots(forms, formIds));
    SortKeeps(numbered, KeyOrder());
    MembersOfPermutation(numbered, Sort(numbered, KeyOrder()));
    var i :| 0 <= i < |numbered| && numbered[i] == b;
    NumberedLength(AllSlots(forms, formIds));
    NumberedReads(forms, formIds, i);
  }

  lemma AddressHasBinding(forms: seq<Json>, formIds: seq<string>, registry: set<string>, slot: Slot)
    requires Addressed(FormsById(forms), formIds, slot)
    ensures HasBinding(FormsById(forms), formIds, CanonicalBindings(forms, formIds, registry).bindings, slot)
  {
    var slots := AllSlots(forms, formIds);
    var numbered, bindings := Numbered(slots), CanonicalBindings(forms, formIds, registry).bindings;
    SlotsAreAddressed(forms, formIds, slot);
    var i :| 0 <= i < |slots| && slots[i] == slot;
    NumberedReads(forms, formIds, i);
    SortKeeps(numbered, KeyOrder());
    MembersOfPermutation(numbered, bindings);
    assert numbered[i] in bindings;
    var j :| 0 <= j < |bindings| && bindings[j] == numbered[i];
  }

  /** Every canonical binding is read from one address, and every address has a binding read from it. */
  lemma BindingsReadTheForms(forms: seq<Json>, formIds: seq<string>, registry: set<string>)
    ensures var byId, bindings := FormsById(forms), CanonicalBindings(forms, formIds, registry).bindings;
            && (forall b :: b in bindings ==> HasAddress(byId, formIds, b))
            && (forall slot :: Addressed(byId, formIds, slot) ==> HasBinding(byId, formIds, bindings, slot))
  {
    forall b | b in CanonicalBindings(forms, formIds, registry).bindings
      ensures HasAddress(FormsById(forms), formIds, b)
    {
      BindingHasAddress(forms, formIds, registry, b);
    }
    forall slot | Addressed(FormsById(forms), formIds, slot)
      ensures HasBinding(FormsById(forms), formIds, CanonicalBindings(forms, formIds, registry).bindings, slot)
    {
      AddressHasBinding(forms, formIds, registry, slot);
    }
  }

  lemma NumberedReads(forms: seq<Json>, formIds: seq<string>, i: nat)
    requires i < |AllSlots(forms, formIds)|
    ensures |Numbered(AllSlots(forms, formIds))| == |AllSlots(forms, formIds)|
    ensures ReadFrom(FormsById(forms), formIds, Numbered(AllSlots(forms, formIds))[i], AllSlots(forms, formIds)[i])
  {
    var slots := AllSlots(forms, formIds);
    NumberedAt(slots, i);
    assert slots[i] in slots;
    SlotsAreAddressed(forms, formIds, slots[i]);
  }

  /** Among the bindings of one form and metadata, the occurrence counts up in the order of the positions. */
  lemma OccurrencesFollowPositions(forms: seq<Json>, formIds: seq<string>, i: nat, j: nat)
    requires i < j < |AllSlots(forms, formIds)|
    ensures |Numbered(AllSlots(forms, formIds))| == |AllSlots(forms, formIds)|
    ensures var a, b := Numbered(AllSlots(forms, formIds))[i], Numbered(AllSlots(forms, formIds))[j];
            a.form == b.form && a.metadata == b.metadata ==>
              a.occurrence < b.occurrence && LexLe(a.position, b.position) && a.position != b.position
  {
    var slots := AllSlots(forms, formIds);
    NumberedAt(slots, i);
    NumberedAt(slots, j);
    FormsAscend(FormsById(forms), formIds, |formIds|);
    if SamePair(slots[i], slots[j]) {
      CountGrows(slots, i, j);
    }
  }
}
