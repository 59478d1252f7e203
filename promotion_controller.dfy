/** The promotion list endpoint: it validates the query, maps it to the
    service's parameters, and answers with a success envelope, a 400
    validation error, or hands the error on. */
module PromotionController {
  import opened Wrappers
  import opened Catalog
  import opened Http
  import opened Procedure
  import opened QuerySchema
  import opened Falsy
  import opened PromotionRules

  /** The query string after number coercion. */
  datatype Query = Query(
    idCategory: NumberParam, minDiscount: NumberParam, maxDiscount: NumberParam,
    sortBy: Option<string>, page: NumberParam, pageSize: NumberParam)

  /** The query once the schema accepted it, with defaults filled in. */
  datatype ValidatedQuery = ValidatedQuery(
    idCategory: Option<int>, minDiscount: Option<int>, maxDiscount: Option<int>,
    sortBy: SortBy, page: int, pageSize: int)

  /** Every value the schema can produce: a positive category, whole
      percentages, a positive page and an allowed page size. Nothing relates
      the minimum discount to the maximum. */
  predicate WellFormed(v: ValidatedQuery)
  {
    && (v.idCategory.Some? ==> v.idCategory.value > 0)
    && (v.minDiscount.Some? ==> 0 <= v.minDiscount.value <= 100)
    && (v.maxDiscount.Some? ==> 0 <= v.maxDiscount.value <= 100)
    && v.page >= 1
    && v.pageSize in PageSizes
  }

  /** The schema's fields, in order. */
  const FieldNames: seq<string> := ["idCategory", "minDiscount", "maxDiscount", "sortBy", "page", "pageSize"]

  /** Whether the k-th field of the schema rejects its query value. */
  predicate FieldRejected(q: Query, k: nat)
    requires k < |FieldNames|
  {
    if k == 0 then OptionalPositiveInt(q.idCategory).Rejected?
    else if k == 1 then OptionalPercent(q.minDiscount).Rejected?
    else if k == 2 then OptionalPercent(q.maxDiscount).Rejected?
    else if k == 3 then SortByParam(q.sortBy).Rejected?
    else if k == 4 then PageParam(q.page).Rejected?
    else PageSizeParam(q.pageSize).Rejected?
  }

  /** The names of the rejected fields from the k-th on, in schema order. */
  function RejectedFields(q: Query, k: nat): (names: seq<string>)
    requires k <= |FieldNames|
    ensures forall n :: n in names ==> n in FieldNames[k..]
    decreases |FieldNames| - k
  {
    if k == |FieldNames| then []
    else (if FieldRejected(q, k) then [FieldNames[k]] else []) + RejectedFields(q, k + 1)
  }

  /** `querySchema.parse`: all six fields are checked; the query is accepted
      when every field is, and otherwise the error names the failing fields in
      schema order. */
  function ParseQuery(q: Query): (r: Result<ValidatedQuery, seq<string>>)
    ensures r.Success? <==>
      && (q.idCategory.Absent? || (q.idCategory.Integer? && q.idCategory.value > 0))
      && (q.minDiscount.Absent? || (q.minDiscount.Integer? && 0 <= q.minDiscount.value <= 100))
      && (q.maxDiscount.Absent? || (q.maxDiscount.Integer? && 0 <= q.maxDiscount.value <= 100))
      && (q.sortBy.None? || ParseSortBy(q.sortBy.value).Some?)
      && (q.page.Absent? || (q.page.Integer? && q.page.value > 0))
      && (q.pageSize.Absent? || (q.pageSize.Integer? && q.pageSize.value in PageSizes))
    ensures r.Success? ==> WellFormed(r.value)
    ensures r.Success? ==>
      && r.value.idCategory == (if q.idCategory.Integer? then Some(q.idCategory.value) else None)
      && r.value.minDiscount == (if q.minDiscount.Integer? then Some(q.minDiscount.value) else None)
      && r.value.maxDiscount == (if q.maxDiscount.Integer? then Some(q.maxDiscount.value) else None)
      && SortKey(r.value.sortBy) == (if q.sortBy.Some? then q.sortBy.value else "maior_desconto")
      && r.value.page == (if q.page.Integer? then q.page.value else 1)
      && r.value.pageSize == (if q.pageSize.Integer? then q.pageSize.value else 12)
    ensures r.Failure? ==> r.error != [] && r.error == RejectedFields(q, 0)
  {
    var idCategory := OptionalPositiveInt(q.idCategory);
    var minDiscount := OptionalPercent(q.minDiscount);
    var maxDiscount := OptionalPercent(q.maxDiscount);
    var sortBy := SortByParam(q.sortBy);
    var page := PageParam(q.page);
    var pageSize := PageSizeParam(q.pageSize);
    var issues :=
      IssueOf("idCategory", idCategory) + (IssueOf("minDiscount", minDiscount) + (IssueOf("maxDiscount", maxDiscount)
      + (IssueOf("sortBy", sortBy) + (IssueOf("page", page) + IssueOf("pageSize", pageSize)))));
    IssuesInSchemaOrder(q);
    if issues == [] then
      Success(ValidatedQuery(idCategory.value, minDiscount.value, maxDiscount.value, sortBy.value, page.value, pageSize.value))
    else
      Failure(issues)
  }

  lemma IssuesInSchemaOrder(q: Query)
    ensures IssueOf("idCategory", OptionalPositiveInt(q.idCategory)) + (IssueOf("minDiscount", OptionalPercent(q.minDiscount))
      + (IssueOf("maxDiscount", OptionalPercent(q.maxDiscount)) + (IssueOf("sortBy", SortByParam(q.sortBy))
      + (IssueOf("page", PageParam(q.page)) + IssueOf("pageSize", PageSizeParam(q.pageSize))))))
      == RejectedFields(q, 0)
  {
    FieldIssue(q, 5, "pageSize", PageSizeParam(q.pageSize));
    FieldIssue(q, 4, "page", PageParam(q.page));
    FieldIssue(q, 3, "sortBy", SortByParam(q.sortBy));
    FieldIssue(q, 2, "maxDiscount", OptionalPercent(q.maxDiscount));
    FieldIssue(q, 1, "minDiscount", OptionalPercent(q.minDiscount));
    FieldIssue(q, 0, "idCategory", OptionalPositiveInt(q.idCategory));
  }

  /** One field's issue followed by the later fields' issues. */
  lemma FieldIssue<T>(q: Query, k: nat, name: string, c: Checked<T>)
    requires k < |FieldNames| && name == FieldNames[k] && (c.Rejected? <==> FieldRejected(q, k))
    ensures k + 1 < |FieldNames| ==> IssueOf(name, c) + RejectedFields(q, k + 1) == RejectedFields(q, k)
    ensures k + 1 == |FieldNames| ==> IssueOf(name, c) == RejectedFields(q, k)
  {
  }

  /** The query that spells out an accepted query's values. */
  function Unparse(v: ValidatedQuery): Query
  {
    Query(ParamOf(v.idCategory), ParamOf(v.minDiscount), ParamOf(v.maxDiscount),
          Some(SortKey(v.sortBy)), Integer(v.page), Integer(v.pageSize))
  }

  /** The schema accepts exactly the well-formed values: each is read back
      unchanged from its own spelling. */
  lemma ParseUnparse(v: ValidatedQuery)
    requires WellFormed(v)
    ensures ParseQuery(Unparse(v)) == Success(v)
  {
    assert ParseSortBy(SortKey(v.sortBy)) == Some(v.sortBy);
  }

  /** The parameters the service receives: account 1, the filters with a
      missing or zero value sent as null, and the rest unchanged. */
  function ServiceParams(v: ValidatedQuery): (p: PromotionListParams)
    ensures p.idAccount == 1
    ensures p.idCategory == OrAbsent(v.idCategory)
    ensures p.minDiscount == OrAbsent(v.minDiscount) && p.maxDiscount == OrAbsent(v.maxDiscount)
    ensures p.sortBy == SortKey(v.sortBy) && p.page == v.page && p.pageSize == v.pageSize
  {
    PromotionListParams(1, OrAbsent(v.idCategory), OrAbsent(v.minDiscount), OrAbsent(v.maxDiscount),
                        SortKey(v.sortBy), v.page, v.pageSize)
  }

  /** The promotion list service, as the handler sees it. */
  type Service = PromotionListParams -> Result<ListResult<Promotion>, ThrownError>

  /** `listHandler`: a query the schema rejects throws its error into the
      catch block before the service is reached; otherwise the service's
      result is wrapped with the validated page and page size and its total,
      and an error it throws goes to the same catch block. */
  function ListHandler(q: Query, service: Service): (r: HandlerOutcome<Option<seq<Promotion>>>)
    ensures ParseQuery(q).Failure? ==>
      r == Respond(BAD_REQUEST, ErrorBody("Invalid query parameters", "VALIDATION_ERROR", ParseQuery(q).error))
    ensures r.Respond? && r.status == OK ==>
      && ParseQuery(q).Success?
      && service(ServiceParams(ParseQuery(q).value)).Success?
      && r.body == SuccessBody(
           service(ServiceParams(ParseQuery(q).value)).value.items,
           Metadata(ParseQuery(q).value.page, ParseQuery(q).value.pageSize,
                    service(ServiceParams(ParseQuery(q).value)).value.total))
    ensures ParseQuery(q).Success? && service(ServiceParams(ParseQuery(q).value)).Success? ==>
      r == Respond(OK, SuccessBody(
             service(ServiceParams(ParseQuery(q).value)).value.items,
             Metadata(ParseQuery(q).value.page, ParseQuery(q).value.pageSize,
                      service(ServiceParams(ParseQuery(q).value)).value.total)))
    ensures r.PassToNext? ==>
      && ParseQuery(q).Success?
      && service(ServiceParams(ParseQuery(q).value)) == Failure(r.error)
      && r.error.name != "ZodError"
  {
    match ParseQuery(q)
    case Failure(issues) => CatchListError(SchemaError(issues))
    case Success(v) =>
      match service(ServiceParams(v))
      case Failure(e) => CatchListError(e)
      case Success(result) => Respond(OK, SuccessBody(result.items, Metadata(v.page, v.pageSize, result.total)))
  }

  /** A rejected query never reaches the service: the answer is the same
      whatever the service would do. */
  lemma RejectedQueryIgnoresService(q: Query, s1: Service, s2: Service)
    requires ParseQuery(q).Failure?
    ensures ListHandler(q, s1) == ListHandler(q, s2)
    ensures ListHandler(q, s1).Respond? && ListHandler(q, s1).status == BAD_REQUEST
  {
  }

  /** For an accepted query the service is asked exactly once, with the
      mapped parameters: two services that agree on those give the same answer. */
  lemma AcceptedQueryAsksServiceOnce(q: Query, s1: Service, s2: Service)
    requires ParseQuery(q).Success?
    requires s1(ServiceParams(ParseQuery(q).value)) == s2(ServiceParams(ParseQuery(q).value))
    ensures ListHandler(q, s1) == ListHandler(q, s2)
  {
  }

  /** A service error is handed on unchanged unless it is named "ZodError",
      in which case it too is answered as a validation error. */
  lemma ServiceErrorsPassOn(q: Query, service: Service)
    requires ParseQuery(q).Success?
    requires service(ServiceParams(ParseQuery(q).value)).Failure?
    ensures var e := service(ServiceParams(ParseQuery(q).value)).error;
      && (e.name != "ZodError" ==> ListHandler(q, service) == PassToNext(e))
      && (e.name == "ZodError" ==> ListHandler(q, service).Respond? && ListHandler(q, service).status == BAD_REQUEST)
  {
  }

  /** An empty query gets every default, which is the call documented for
      the service: account 1, no filters, largest discount first, page 1 of 12. */
  lemma DefaultQuery()
    ensures ParseQuery(Query(Absent, Absent, Absent, None, Absent, Absent)) ==
      Success(ValidatedQuery(None, None, None, MaiorDesconto, 1, 12))
    ensures ServiceParams(ValidatedQuery(None, None, None, MaiorDesconto, 1, 12)) ==
      PromotionListParams(1, None, None, None, "maior_desconto", 1, 12)
  {
  }

  /** A minimum discount of 0 passes the schema but reaches the service, and
      from there the procedure, as null: "at least 0%" becomes "no minimum". */
  lemma ZeroMinimumDiscountBecomesNull(q: Query)
    requires ParseQuery(q).Success? && q.minDiscount == Integer(0)
    ensures ServiceParams(ParseQuery(q).value).minDiscount == None
    ensures Lookup(PromotionListCall(ServiceParams(ParseQuery(q).value)).inputs, "minDiscount") == Some(SqlNull)
  {
  }

  /** The schema does not require the minimum discount to stay below the maximum. */
  lemma InvertedDiscountRangeAccepted()
    ensures ParseQuery(Query(Absent, Integer(50), Integer(10), None, Absent, Absent)).Success?
  {
  }

  /** The whole path through the real service: when the procedure returns
      rows and a total, the endpoint answers 200 with those rows, the
      validated page and page size, and that total. */
  lemma EndToEndListing(
    q: Query, execute: ProcedureCall -> Result<Recordsets<Promotion>, ThrownError>,
    rows: seq<Promotion>, total: int)
    requires ParseQuery(q).Success?
    requires execute(PromotionListCall(ServiceParams(ParseQuery(q).value))) == Success(ProcedureOutput(rows, total))
    ensures ListHandler(q, p => PromotionList(p, execute)) ==
      Respond(OK, SuccessBody(Some(rows), Metadata(ParseQuery(q).value.page, ParseQuery(q).value.pageSize, total)))
  {
    PromotionListReturnsProcedureRows(ServiceParams(ParseQuery(q).value), execute, rows, total);
  }
}
