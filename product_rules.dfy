/** The product list service: it binds its four parameters to the product
    list procedure by name and reshapes what comes back. */
module ProductRules {
  import opened Wrappers
  import opened Catalog
  import opened Http
  import opened Procedure

  /** The parameters of a product listing; a null category is missing. */
  datatype ProductListParams = ProductListParams(idAccount: int, idCategory: Option<int>, page: int, pageSize: int)

  const ProcedureName: string := "[functional].[spProductList]"

  lemma InputsFound(inputs: seq<(string, SqlValue)>)
    requires |inputs| == 4
    requires inputs[0].0 == "idAccount" && inputs[1].0 == "idCategory"
    requires inputs[2].0 == "page" && inputs[3].0 == "pageSize"
    ensures forall k :: 0 <= k < 4 ==> Lookup(inputs, inputs[k].0) == Some(inputs[k].1)
  {
    assert |inputs[0].0| == 9 && |inputs[1].0| == 10 && |inputs[2].0| == 4 && |inputs[3].0| == 8;
    forall k | 0 <= k < 4 ensures Lookup(inputs, inputs[k].0) == Some(inputs[k].1) {
      LookupFindsBinding(inputs, k);
    }
  }

  /** The procedure call: every parameter bound, unchanged, to the input of its own name. */
  function ProductListCall(p: ProductListParams): (c: ProcedureCall)
    ensures c.procedure == ProcedureName && |c.inputs| == 4
    ensures Lookup(c.inputs, "idAccount") == Some(SqlInt(p.idAccount))
    ensures Lookup(c.inputs, "idCategory") == Some(IntOrNull(p.idCategory))
    ensures Lookup(c.inputs, "page") == Some(SqlInt(p.page))
    ensures Lookup(c.inputs, "pageSize") == Some(SqlInt(p.pageSize))
  {
    var inputs := [
      ("idAccount", SqlInt(p.idAccount)),
      ("idCategory", IntOrNull(p.idCategory)),
      ("page", SqlInt(p.page)),
      ("pageSize", SqlInt(p.pageSize))
    ];
    InputsFound(inputs);
    ProcedureCall(ProcedureName, inputs)
  }

  /** The parameters a procedure call carries, read back by input name. */
  function ParamsOfCall(c: ProcedureCall): Option<ProductListParams>
  {
    var account := IntInput(c.inputs, "idAccount");
    var category := NullableIntInput(c.inputs, "idCategory");
    var page := IntInput(c.inputs, "page");
    var pageSize := IntInput(c.inputs, "pageSize");
    if account.Some? && category.Some? && page.Some? && pageSize.Some?
    then Some(ProductListParams(account.value, category.value, page.value, pageSize.value))
    else None
  }

  /** No parameter is lost or altered on its way to the procedure: the call
      can be read back into exactly the parameters it was built from. */
  lemma CallRoundTrip(p: ProductListParams)
    ensures ParamsOfCall(ProductListCall(p)) == Some(p)
  {
  }

  /** `productList`: run the call; a failing call's error propagates, a
      successful one is reshaped into the products and their total. */
  function ProductList(p: ProductListParams, execute: ProcedureCall -> Result<Recordsets<Product>, ThrownError>)
    : (r: Result<ListResult<Product>, ThrownError>)
    ensures execute(ProductListCall(p)).Failure? ==> r == Failure(execute(ProductListCall(p)).error)
    ensures execute(ProductListCall(p)).Success? ==> r == Success(Reshape(execute(ProductListCall(p)).value))
  {
    match execute(ProductListCall(p))
    case Failure(e) => Failure(e)
    case Success(rs) => Success(Reshape(rs))
  }

  /** When the procedure answers with rows and a total row, the service
      returns those very rows, in order, and that total; without a total
      row the total is 0. */
  lemma ProductListReturnsProcedureRows(
    p: ProductListParams, execute: ProcedureCall -> Result<Recordsets<Product>, ThrownError>,
    rows: seq<Product>, total: int)
    ensures execute(ProductListCall(p)) == Success(ProcedureOutput(rows, total)) ==>
      ProductList(p, execute) == Success(ListResult(Some(rows), total))
    ensures execute(ProductListCall(p)) == Success(RecordsetArray(Some(rows), None)) ==>
      ProductList(p, execute) == Success(ListResult(Some(rows), 0))
  {
    ReshapeRoundTrip(rows, total, []);
    MissingTotalIsZero(Some(rows));
  }
}
