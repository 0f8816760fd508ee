/** What the read-only DSpace client accepts as a page of a HAL collection. */
module ContractClient {
  import opened JsonValues
  import opened ContractStore

  /** A `DSpaceError`, carrying the HTTP status when there was one, or any other exception. */
  datatype Fault = DSpaceFault(statusCode: Option<int>) | OtherFault

  /** What a request comes back with: a decoded body or a raised exception. */
  datatype Reply = Payload(body: Json) | Raise(fault: Fault)

  datatype HalPage = HalPage(items: seq<Json>, page: nat, totalPages: nat, totalElements: nat, raw: Json)

  const INVALID_HAL := DSpaceFault(None)

  function Relation(surface: Surface): string {
    match surface
    case MetadataSchemas => "metadataschemas"
    case MetadataFields => "metadatafields"
    case FieldsBySchema(_) => "metadatafields"
    case SubmissionDefinitions => "submissiondefinitions"
    case SubmissionSections => "submissionsections"
    case SubmissionForms => "submissionforms"
    case ActiveDefinition => ""
    case ActiveSections => "submissionsections"
  }

  predicate ValidPagination(number: int, totalPages: int, totalElements: int) {
    && number >= 0
    && totalPages >= 0
    && totalElements >= 0
    && (totalElements == 0 ==> totalPages == 0)
    && (totalElements > 0 ==> totalPages > number)
  }

  /** The page a collection response stands for; malformed pagination or relations fail closed. */
  function ParsePage(relation: string, body: Json): (r: Result<HalPage, Fault>)
    ensures r.Ok? ==>
              && r.value.raw == body
              && Get(Get(body, "page"), "number") == Num(r.value.page)
              && Get(Get(body, "page"), "totalPages") == Num(r.value.totalPages)
    ensures r.Err? ==> r.error == INVALID_HAL
  {
    var info := Get(body, "page");
    var number, totalPages, totalElements := Get(info, "number"), Get(info, "totalPages"), Get(info, "totalElements");
    if !number.Num? || !totalPages.Num? || !totalElements.Num? then Err(INVALID_HAL)
    else if !ValidPagination(number.number, totalPages.number, totalElements.number) then Err(INVALID_HAL)
    else
      var embedded := Get(body, "_embedded");
      var absent := embedded == Null || (embedded.Obj? && relation !in embedded.members);
      if totalElements.number == 0 && absent then
        Ok(HalPage([], number.number, totalPages.number, totalElements.number, body))
      else
        var values := Get(embedded, relation);
        if !values.Arr? || (exists value :: value in values.items && !value.Obj?) then Err(INVALID_HAL)
        else Ok(HalPage(values.items, number.number, totalPages.number, totalElements.number, body))
  }

  /** These are the objects the body lists under the relation; only a collection of no elements may leave it out. */
  predicate ListsObjects(relation: string, body: Json, items: seq<Json>, totalElements: int) {
    var embedded := Get(body, "_embedded");
    if embedded.Obj? && relation in embedded.members then
      embedded.members[relation] == Arr(items) && forall i :: 0 <= i < |items| ==> items[i].Obj?
    else
      totalElements == 0 && items == [] && (embedded.Obj? || embedded == Null)
  }

  /** The page says of itself what the body says, and that is a possible page of a collection. */
  predicate Reads(relation: string, body: Json, page: HalPage) {
    var info := Get(body, "page");
    && page.raw == body
    && Get(info, "number") == Num(page.page)
    && Get(info, "totalPages") == Num(page.totalPages)
    && Get(info, "totalElements") == Num(page.totalElements)
    && (if page.totalElements == 0 then page.totalPages == 0 else page.page < page.totalPages)
    && ListsObjects(relation, body, page.items, page.totalElements)
  }

  /** A response is accepted as a page exactly when the page reads it, and is refused as invalid when none does. */
  lemma ParsedIff(relation: string, body: Json, page: HalPage)
    ensures ParsePage(relation, body) == Ok(page) <==> Reads(relation, body, page)
    ensures ParsePage(relation, body).Err? ==> ParsePage(relation, body) == Err(INVALID_HAL)
  {
    var embedded := Get(body, "_embedded");
    if Reads(relation, body, page) && embedded.Obj? && relation in embedded.members {
      assert forall value :: value in page.items ==> value.Obj?;
    }
    if ParsePage(relation, body) == Ok(page) {
      assert forall i :: 0 <= i < |page.items| ==> page.items[i] in page.items;
    }
  }
}
