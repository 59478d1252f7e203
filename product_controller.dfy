/** The product list endpoint: it validates the query, maps it to the
    service's parameters, and answers with a success envelope, a 400
    validation error, or hands the error on. */
module ProductController {
  import opened Wrappers
  import opened Catalog
  import opened Http
  import opened Procedure
  import opened QuerySchema
  import opened Falsy
  import opened ProductRules

  /** The query string after number coercion. */
  datatype Query = Query(idCategory: NumberParam, page: NumberParam, pageSize: NumberParam)

  /** The query once the schema accepted it, with defaults filled in. */
  datatype ValidatedQuery = ValidatedQuery(idCategory: Option<int>, page: int, pageSize: int)

  /** Every value the schema can produce. */
  predicate WellFormed(v: ValidatedQuery)
  {
    (v.idCategory.Some? ==> v.idCategory.value > 0) && v.page >= 1 && v.pageSize in PageSizes
  }

  /** The schema's fields, in order. */
  const FieldNames: seq<string> := ["idCategory", "page", "pageSize"]

  /** Whether the k-th field of the schema rejects its query value. */
  predicate FieldRejected(q: Query, k: nat)
    requires k < |FieldNames|
  {
    if k == 0 then OptionalPositiveInt(q.idCategory).Rejected?
    else if k == 1 then PageParam(q.page).Rejected?
    else PageSizeParam(q.pageSize).Rejected?
  }

  /** The names of the rejected fields from the k-th on, in schema order. */
  function RejectedFields(q: Query, k: nat): (names: seq<string>)
    requires k <= |FieldNames|
    ensures forall n :: n in names ==> n in FieldNames[k..]
    decreases |FieldNames| - k
  {
    if k == |FieldNames| then []
    else (if FieldRejected(q, k) then [FieldNames[k]] else []) + RejectedFields(q, k + 1)
  }

  /** `querySchema.parse`: the query is accepted when all three fields are,
      and otherwise the error names the failing fields in schema order. */
  function ParseQuery(q: Query): (r: Result<ValidatedQuery, seq<string>>)
    ensures r.Success? <==>
      && (q.idCategory.Absent? || (q.idCategory.Integer? && q.idCategory.value > 0))
      && (q.page.Absent? || (q.page.Integer? && q.page.value > 0))
      && (q.pageSize.Absent? || (q.pageSize.Integer? && q.pageSize.value in PageSizes))
    ensures r.Success? ==> WellFormed(r.value)
    ensures r.Success? ==>
      && r.value.idCategory == (if q.idCategory.Integer? then Some(q.idCategory.value) else None)
      && r.value.page == (if q.page.Integer? then q.page.value else 1)
      && r.value.pageSize == (if q.pageSize.Integer? then q.pageSize.value else 12)
    ensures r.Failure? ==> r.error != [] && r.error == RejectedFields(q, 0)
  {
    var idCategory := OptionalPositiveInt(q.idCategory);
    var page := PageParam(q.page);
    var pageSize := PageSizeParam(q.pageSize);
    var issues := IssueOf("idCategory", idCategory) + (IssueOf("page", page) + IssueOf("pageSize", pageSize));
    assert RejectedFields(q, 0) == issues;
    if issues == [] then Success(ValidatedQuery(idCategory.value, page.value, pageSize.value))
    else Failure(issues)
  }

  /** The query that spells out an accepted query's values. */
  function Unparse(v: ValidatedQuery): Query
  {
    Query(ParamOf(v.idCategory), Integer(v.page), Integer(v.pageSize))
  }

  /** The schema accepts exactly the well-formed values: each is read back
      unchanged from its own spelling. */
  lemma ParseUnparse(v: ValidatedQuery)
    requires WellFormed(v)
    ensures ParseQuery(Unparse(v)) == Success(v)
  {
  }

  /** The parameters the service receives: account 1, the category with a
      missing or zero value sent as null, page and page size unchanged. */
  function ServiceParams(v: ValidatedQuery): (p: ProductListParams)
    ensures p.idAccount == 1 && p.idCategory == OrAbsent(v.idCategory)
    ensures p.page == v.page && p.pageSize == v.pageSize
  {
    ProductListParams(1, OrAbsent(v.idCategory), v.page, v.pageSize)
  }

  /** The product list service, as the handler sees it. */
  type Service = ProductListParams -> Result<ListResult<Product>, ThrownError>

  /** `listHandler`: a rejected query goes to the catch block before the
      service is reached; otherwise the service's result is wrapped with the
      validated page and page size and its total, and an error it throws goes
      to the same catch block. */
  function ListHandler(q: Query, service: Service): (r: HandlerOutcome<Option<seq<Product>>>)
    ensures ParseQuery(q).Failure? ==>
      r == Respond(BAD_REQUEST, ErrorBody("Invalid query parameters", "VALIDATION_ERROR", ParseQuery(q).error))
    ensures r.Respond? && r.status == OK ==>
      && ParseQuery(q).Success?
      && service(ServiceParams(ParseQuery(q).value)).Success?
      && r.body == SuccessBody(
           service(ServiceParams(ParseQuery(q).value)).value.items,
           Metadata(ParseQuery(q).value.page, ParseQuery(q).value.pageSize,
                    service(ServiceParams(ParseQuery(q).value)).value.total))
    ensures ParseQuery(q).Success? && service(ServiceParams(ParseQuery(q).value)).Success? ==>
      r == Respond(OK, SuccessBody(
             service(ServiceParams(ParseQuery(q).value)).value.items,
             Metadata(ParseQuery(q).value.page, ParseQuery(q).value.pageSize,
                      service(ServiceParams(ParseQuery(q).value)).value.total)))
    ensures r.PassToNext? ==>
      && ParseQuery(q).Success?
      && service(ServiceParams(ParseQuery(q).value)) == Failure(r.error)
      && r.error.name != "ZodError"
  {
    match ParseQuery(q)
    case Failure(issues) => CatchListError(SchemaError(issues))
    case Success(v) =>
      match service(ServiceParams(v))
      case Failure(e) => CatchListError(e)
      case Success(result) => Respond(OK, SuccessBody(result.items, Metadata(v.page, v.pageSize, result.total)))
  }

  /** A rejected query never reaches the service. */
  lemma RejectedQueryIgnoresService(q: Query, s1: Service, s2: Service)
    requires ParseQuery(q).Failure?
    ensures ListHandler(q, s1) == ListHandler(q, s2)
    ensures ListHandler(q, s1).Respond? && ListHandler(q, s1).status == BAD_REQUEST
  {
  }

  /** For an accepted query the answer depends on the service only through
      its answer to the mapped parameters. */
  lemma AcceptedQueryAsksServiceOnce(q: Query, s1: Service, s2: Service)
    requires ParseQuery(q).Success?
    requires s1(ServiceParams(ParseQuery(q).value)) == s2(ServiceParams(ParseQuery(q).value))
    ensures ListHandler(q, s1) == ListHandler(q, s2)
  {
  }

  /** A service error is handed on unchanged unless it is named "ZodError". */
  lemma ServiceErrorsPassOn(q: Query, service: Service)
    requires ParseQuery(q).Success?
    requires service(ServiceParams(ParseQuery(q).value)).Failure?
    ensures var e := service(ServiceParams(ParseQuery(q).value)).error;
      e.name != "ZodError" ==> ListHandler(q, service) == PassToNext(e)
  {
  }

  /** An empty query gets the default call: account 1, no category, page 1 of 12. */
  lemma DefaultQuery()
    ensures ParseQuery(Query(Absent, Absent, Absent)) == Success(ValidatedQuery(None, 1, 12))
    ensures ServiceParams(ValidatedQuery(None, 1, 12)) == ProductListParams(1, None, 1, 12)
  {
  }

  /** The whole path through the real service: when the procedure returns
      rows and a total, the endpoint answers 200 with those rows, the
      validated page and page size, and that total. */
  lemma EndToEndListing(
    q: Query, execute: ProcedureCall -> Result<Recordsets<Product>, ThrownError>,
    rows: seq<Product>, total: int)
    requires ParseQuery(q).Success?
    requires execute(ProductListCall(ServiceParams(ParseQuery(q).value))) == Success(ProcedureOutput(rows, total))
    ensures ListHandler(q, p => ProductList(p, execute)) ==
      Respond(OK, SuccessBody(Some(rows), Metadata(ParseQuery(q).value.page, ParseQuery(q).value.pageSize, total)))
  {
    ProductListReturnsProcedureRows(ServiceParams(ParseQuery(q).value), execute, rows, total);
  }
}
