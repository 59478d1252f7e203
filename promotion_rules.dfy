/** The promotion list service: it binds its seven parameters to the
    promotion list procedure by name and reshapes what comes back. */
module PromotionRules {
  import opened Wrappers
  import opened Catalog
  import opened Http
  import opened Procedure

  /** The parameters of a promotion listing; null filters are missing. */
  datatype PromotionListParams = PromotionListParams(
    idAccount: int, idCategory: Option<int>, minDiscount: Option<int>, maxDiscount: Option<int>,
    sortBy: string, page: int, pageSize: int)

  const ProcedureName: string := "[functional].[spPromotionList]"

  /** The procedure call: every parameter bound, unchanged, to the input of its own name. */
  function PromotionListCall(p: PromotionListParams): (c: ProcedureCall)
    ensures c.procedure == ProcedureName && |c.inputs| == 7
    ensures Lookup(c.inputs, "idAccount") == Some(SqlInt(p.idAccount))
    ensures Lookup(c.inputs, "idCategory") == Some(IntOrNull(p.idCategory))
    ensures Lookup(c.inputs, "minDiscount") == Some(IntOrNull(p.minDiscount))
    ensures Lookup(c.inputs, "maxDiscount") == Some(IntOrNull(p.maxDiscount))
    ensures Lookup(c.inputs, "sortBy") == Some(SqlText(p.sortBy))
    ensures Lookup(c.inputs, "page") == Some(SqlInt(p.page))
    ensures Lookup(c.inputs, "pageSize") == Some(SqlInt(p.pageSize))
  {
    var inputs := [
      ("idAccount", SqlInt(p.idAccount)),
      ("idCategory", IntOrNull(p.idCategory)),
      ("minDiscount", IntOrNull(p.minDiscount)),
      ("maxDiscount", IntOrNull(p.maxDiscount)),
      ("sortBy", SqlText(p.sortBy)),
      ("page", SqlInt(p.page)),
      ("pageSize", SqlInt(p.pageSize))
    ];
    InputsFound(inputs);
    ProcedureCall(ProcedureName, inputs)
  }

  lemma InputsFound(inputs: seq<(string, SqlValue)>)
    requires |inputs| == 7
    requires inputs[0].0 == "idAccount" && inputs[1].0 == "idCategory" && inputs[2].0 == "minDiscount"
    requires inputs[3].0 == "maxDiscount" && inputs[4].0 == "sortBy" && inputs[5].0 == "page"
    requires inputs[6].0 == "pageSize"
    ensures forall k :: 0 <= k < 7 ==> Lookup(inputs, inputs[k].0) == Some(inputs[k].1)
  {
    assert |inputs[0].0| == 9 && |inputs[1].0| == 10 && |inputs[2].0| == 11 && |inputs[3].0| == 11;
    assert |inputs[4].0| == 6 && |inputs[5].0| == 4 && |inputs[6].0| == 8;
    assert inputs[2].0[1] != inputs[3].0[1];
    forall k | 0 <= k < 7 ensures Lookup(inputs, inputs[k].0) == Some(inputs[k].1) {
      LookupFindsBinding(inputs, k);
    }
  }

  /** The parameters a procedure call carries, read back by input name. */
  function ParamsOfCall(c: ProcedureCall): Option<PromotionListParams>
  {
    var account := IntInput(c.inputs, "idAccount");
    var category := NullableIntInput(c.inputs, "idCategory");
    var minDiscount := NullableIntInput(c.inputs, "minDiscount");
    var maxDiscount := NullableIntInput(c.inputs, "maxDiscount");
    var sortBy := TextInput(c.inputs, "sortBy");
    var page := IntInput(c.inputs, "page");
    var pageSize := IntInput(c.inputs, "pageSize");
    if account.Some? && category.Some? && minDiscount.Some? && maxDiscount.Some? && sortBy.Some? && page.Some? && pageSize.Some?
    then Some(PromotionListParams(account.value, category.value, minDiscount.value, maxDiscount.value,
                                  sortBy.value, page.value, pageSize.value))
    else None
  }

  /** No parameter is lost or altered on its way to the procedure: the call
      can be read back into exactly the parameters it was built from. */
  lemma CallRoundTrip(p: PromotionListParams)
    ensures ParamsOfCall(PromotionListCall(p)) == Some(p)
  {
  }

  /** Distinct parameters make distinct procedure calls. */
  lemma CallIsInjective(p: PromotionListParams, q: PromotionListParams)
    requires PromotionListCall(p) == PromotionListCall(q)
    ensures p == q
  {
    CallRoundTrip(p);
    CallRoundTrip(q);
  }

  /** `promotionList`: run the call; a failing call's error propagates, a
      successful one is reshaped into the promotions and their total. */
  function PromotionList(p: PromotionListParams, execute: ProcedureCall -> Result<Recordsets<Promotion>, ThrownError>)
    : (r: Result<ListResult<Promotion>, ThrownError>)
    ensures execute(PromotionListCall(p)).Failure? ==> r == Failure(execute(PromotionListCall(p)).error)
    ensures execute(PromotionListCall(p)).Success? ==> r == Success(Reshape(execute(PromotionListCall(p)).value))
  {
    match execute(PromotionListCall(p))
    case Failure(e) => Failure(e)
    case Success(rs) => Success(Reshape(rs))
  }

  /** When the procedure answers with rows and a total row, the service
      returns those very rows and that total. */
  lemma PromotionListReturnsProcedureRows(
    p: PromotionListParams, execute: ProcedureCall -> Result<Recordsets<Promotion>, ThrownError>,
    rows: seq<Promotion>, total: int)
    requires execute(PromotionListCall(p)) == Success(ProcedureOutput(rows, total))
    ensures PromotionList(p, execute) == Success(ListResult(Some(rows), total))
  {
    ReshapeRoundTrip(rows, total, []);
  }
}
