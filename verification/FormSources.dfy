/** Where the sections, the definition and the forms of a contract come from, in the order of the stored pages. */
module FormSources {
  import opened JsonValues
  import opened ContractStore
  import opened ContractClient
  import opened SubmissionBindings
  import opened ContractSnapshot

  // Items in the order of the pages

  /** An entry on a page of a surface. */
  datatype Place = Place(page: nat, entry: nat)

  predicate Earlier(a: Place, b: Place) {
    a.page < b.page || (a.page == b.page && a.entry < b.entry)
  }

  ghost predicate Ascending(places: seq<Place>) {
    forall j, k :: 0 <= j < k < |places| ==> Earlier(places[j], places[k])
  }

  ghost predicate EntryIs(payload: Json, relation: string, i: nat, item: Json) {
    var values := Get(Get(payload, "_embedded"), relation);
    values.Arr? && i < |values.items| && values.items[i] == item && item.Obj?
  }

  ghost predicate StandsAt(payloads: seq<Json>, relation: string, place: Place, item: Json) {
    place.page < |payloads| && EntryIs(payloads[place.page], relation, place.entry, item)
  }

  ghost predicate EachStands(payloads: seq<Json>, relation: string, items: seq<Json>, places: seq<Place>) {
    |places| == |items| && forall k :: 0 <= k < |items| ==> StandsAt(payloads, relation, places[k], items[k])
  }

  ghost predicate NoneLeftOut(payloads: seq<Json>, relation: string, places: seq<Place>) {
    forall place, item :: StandsAt(payloads, relation, place, item) ==> place in places
  }

  /** The items are the objects at these places, in their order, and there are no others. */
  ghost predicate InOrder(payloads: seq<Json>, relation: string, items: seq<Json>, places: seq<Place>) {
    && EachStands(payloads, relation, items, places)
    && Ascending(places)
    && NoneLeftOut(payloads, relation, places)
  }

  /** Places of the objects among the first `n` entries of a page. */
  function PlacesOn(values: seq<Json>, page: nat, n: nat): seq<Place>
    requires n <= |values|
  {
    if n == 0 then [] else PlacesOn(values, page, n - 1) + if values[n - 1].Obj? then [Place(page, n - 1)] else []
  }

  ghost predicate AreObjects(values: seq<Json>, page: nat, n: nat, items: seq<Json>, places: seq<Place>)
    requires n <= |values|
  {
    && |places| == |items|
    && (forall k :: 0 <= k < |items| ==>
          places[k].page == page && places[k].entry < n && values[places[k].entry] == items[k] && items[k].Obj?)
    && Ascending(places)
    && forall i: nat :: i < n && values[i].Obj? ==> Place(page, i) in places
  }

  lemma {:induction false} PlacesOnPage(values: seq<Json>, page: nat, n: nat)
    requires n <= |values|
    ensures AreObjects(values, page, n, Objects(values[..n]), PlacesOn(values, page, n))
  {
    if n > 0 {
      PlacesOnPage(values, page, n - 1);
      assert values[..n][..n - 1] == values[..n - 1];
    }
  }

  /** The objects on page `page`. */
  ghost predicate OnlyPage(payloads: seq<Json>, relation: string, page: nat, items: seq<Json>, places: seq<Place>)
    requires page < |payloads|
  {
    && EachStands(payloads, relation, items, places)
    && Ascending(places)
    && (forall k :: 0 <= k < |places| ==> places[k].page == page)
    && forall place: Place, item :: place.page == page && StandsAt(payloads, relation, place, item) ==> place in places
  }

  lemma PageStands(payloads: seq<Json>, relation: string, page: nat) returns (places: seq<Place>)
    requires page < |payloads|
    ensures OnlyPage(payloads, relation, page, ItemsOn(payloads[page], relation), places)
  {
    var values := Get(Get(payloads[page], "_embedded"), relation);
    places := [];
    if values.Arr? {
      PlacesOnPage(values.items, page, |values.items|);
      assert values.items[..|values.items|] == values.items;
      places := PlacesOn(values.items, page, |values.items|);
    }
  }

  lemma StandsElsewhere(front: seq<Json>, payload: Json, relation: string, place: Place, item: Json)
    ensures StandsAt(front + [payload], relation, place, item)
       <==> if place.page == |front| then EntryIs(payload, relation, place.entry, item)
            else StandsAt(front, relation, place, item)
  {
  }

  lemma EachStandsTogether(
    front: seq<Json>, payload: Json, relation: string, items: seq<Json>, places: seq<Place>, more: seq<Json>,
    last: seq<Place>)
    requires EachStands(front, relation, items, places) && EachStands(front + [payload], relation, more, last)
    ensures EachStands(front + [payload], relation, items + more, places + last)
  {
    forall k | 0 <= k < |items| ensures StandsAt(front + [payload], relation, places[k], items[k]) {
      StandsElsewhere(front, payload, relation, places[k], items[k]);
    }
  }

  lemma AscendingTogether(places: seq<Place>, last: seq<Place>, page: nat)
    requires Ascending(places) && Ascending(last)
    requires forall k :: 0 <= k < |places| ==> places[k].page < page
    requires forall k :: 0 <= k < |last| ==> last[k].page == page
    ensures Ascending(places + last)
  {
  }

  lemma OnePageMore(
    front: seq<Json>, payload: Json, relation: string, items: seq<Json>, places: seq<Place>, more: seq<Json>,
    last: seq<Place>)
    requires InOrder(front, relation, items, places)
    requires OnlyPage(front + [payload], relation, |front|, more, last)
    ensures InOrder(front + [payload], relation, items + more, places + last)
  {
    EachStandsTogether(front, payload, relation, items, places, more, last);
    assert forall k :: 0 <= k < |places| ==> StandsAt(front, relation, places[k], items[k]);
    AscendingTogether(places, last, |front|);
    forall place, item | StandsAt(front + [payload], relation, place, item) ensures place in places + last {
      StandsElsewhere(front, payload, relation, place, item);
    }
  }

  lemma {:induction false} ItemsStand(payloads: seq<Json>, relation: string) returns (places: seq<Place>)
    ensures InOrder(payloads, relation, Items(payloads, relation), places)
  {
    places := [];
    if payloads != [] {
      var n := |payloads| - 1;
      var front := payloads[..n];
      var before := ItemsStand(front, relation);
      var last := PageStands(payloads, relation, n);
      assert front + [payloads[n]] == payloads;
      OnePageMore(
        front, payloads[n], relation, Items(front, relation), before, ItemsOn(payloads[n], relation), last);
      places := before + last;
    }
  }

  /** A surface's items are the objects on its pages, in the order of the pages and of the entries on them. */
  lemma ItemsInOrder(pages: Pages, surface: Surface)
    ensures exists places ::
              InOrder(Payloads(pages, surface), Relation(surface), SurfaceItems(pages, surface), places)
  {
    var places := ItemsStand(Payloads(pages, surface), Relation(surface));
    assert InOrder(Payloads(pages, surface), Relation(surface), SurfaceItems(pages, surface), places);
  }

  // What is read off them

  predicate ReadsSection(e: SectionEntry, item: Json, order: nat) {
    && e.id == Get(item, "id") && e.order == order
    && e.sectionType == Get(item, "sectionType") && e.header == Get(item, "header")
    && e.mandatory == Get(item, "mandatory") && e.scope == Get(item, "scope")
    && e.configForm == ConfigFormId(item)
  }

  /** The sections are the objects on the pages of the sections, read one by one and numbered in their order. */
  lemma SectionsReadThePages(pages: Pages)
    ensures exists items, places ::
              && InOrder(Payloads(pages, ActiveSections), Relation(ActiveSections), items, places)
              && |CanonicalOf(pages).sections| == |items|
              && forall k :: 0 <= k < |items| ==> ReadsSection(CanonicalOf(pages).sections[k], items[k], k)
  {
    var items := SurfaceItems(pages, ActiveSections);
    var places := ItemsStand(Payloads(pages, ActiveSections), Relation(ActiveSections));
    SectionsRead(pages, items);
  }

  lemma SectionsRead(pages: Pages, items: seq<Json>)
    requires items == SurfaceItems(pages, ActiveSections)
    ensures |CanonicalOf(pages).sections| == |items|
    ensures forall k :: 0 <= k < |items| ==> ReadsSection(CanonicalOf(pages).sections[k], items[k], k)
  {
  }

  /** The definition is named by the first page stored of it. */
  lemma DefinitionReadsThePage(pages: Pages)
    ensures CanonicalOf(pages).activeDefinition
         == if ActiveDefinition in pages && pages[ActiveDefinition] != [] then Get(pages[ActiveDefinition][0], "name")
            else Null
  {
  }

  /** The form goes by its identifier or, for want of one, by its name. */
  predicate GoesBy(form: Json, name: string) {
    if Truthy(Get(form, "id")) then name == Render(Get(form, "id"))
    else Truthy(Get(form, "name")) && name == Render(Get(form, "name"))
  }

  /** It is the last of the forms that go by this name. */
  ghost predicate LastNamed(forms: seq<Json>, i: int, name: string) {
    0 <= i < |forms| && GoesBy(forms[i], name) && forall j :: i < j < |forms| ==> !GoesBy(forms[j], name)
  }

  lemma GoesByKey(form: Json, name: string)
    ensures GoesBy(form, name) <==> Truthy(FormKey(form)) && Render(FormKey(form)) == name
  {
  }

  lemma LastNamedStays(front: seq<Json>, form: Json, i: int, name: string)
    requires LastNamed(front, i, name) && !GoesBy(form, name)
    ensures LastNamed(front + [form], i, name)
  {
  }

  /** A name stands for the last form that goes by it. */
  lemma {:induction false} FormsMeaning(forms: seq<Json>, name: string)
    ensures if name in FormsById(forms) then exists i :: LastNamed(forms, i, name) && forms[i] == FormsById(forms)[name]
            else forall i :: 0 <= i < |forms| ==> !GoesBy(forms[i], name)
  {
    if forms != [] {
      var n := |forms| - 1;
      var front := forms[..n];
      FormsMeaning(front, name);
      GoesByKey(forms[n], name);
      if GoesBy(forms[n], name) {
        assert LastNamed(forms, n, name);
      } else if name in FormsById(front) {
        var i :| LastNamed(front, i, name) && front[i] == FormsById(front)[name];
        LastNamedStays(front, forms[n], i, name);
        assert front + [forms[n]] == forms;
      }
    }
  }
}
