/** A stored-procedure call with named inputs, the recordsets it returns, and
    how the list services reshape those recordsets into rows and a total. */
module Procedure {
  import opened Wrappers

  /** A value bound to a procedure input. */
  datatype SqlValue = SqlNull | SqlInt(i: int) | SqlText(s: string)

  /** A nullable number as a procedure input: null stays null. */
  function IntOrNull(v: Option<int>): (x: SqlValue)
    ensures v.None? <==> x == SqlNull
    ensures v.Some? ==> x == SqlInt(v.value)
  {
    if v.Some? then SqlInt(v.value) else SqlNull
  }

  /** The number an input carries back, if it is a number or null. */
  function NullableIntOf(x: SqlValue): (r: Option<Option<int>>)
    ensures forall v :: r == Some(v) <==> x == IntOrNull(v)
  {
    match x
    case SqlNull => Some(None)
    case SqlInt(i) => Some(Some(i))
    case SqlText(_) => None
  }

  /** A procedure call: the procedure's name and its inputs in the order they were bound. */
  datatype ProcedureCall = ProcedureCall(procedure: string, inputs: seq<(string, SqlValue)>)

  /** The value bound to an input name (the first binding of that name). */
  function Lookup(inputs: seq<(string, SqlValue)>, name: string): (r: Option<SqlValue>)
    ensures r.None? <==> forall k :: 0 <= k < |inputs| ==> inputs[k].0 != name
    ensures r.Some? ==> exists k :: 0 <= k < |inputs| && inputs[k] == (name, r.value)
    decreases |inputs|
  {
    if inputs == [] then None
    else if inputs[0].0 == name then Some(inputs[0].1)
    else
      var r := Lookup(inputs[1..], name);
      assert forall k :: 1 <= k < |inputs| ==> inputs[k] == inputs[1..][k - 1];
      r
  }

  /** An input bound after others of different names is the one a lookup finds. */
  lemma {:induction false} LookupFindsBinding(inputs: seq<(string, SqlValue)>, k: int)
    requires 0 <= k < |inputs|
    requires forall j :: 0 <= j < k ==> inputs[j].0 != inputs[k].0
    ensures Lookup(inputs, inputs[k].0) == Some(inputs[k].1)
    decreases k
  {
    if k > 0 {
      LookupFindsBinding(inputs[1..], k - 1);
    }
  }

  /** The whole number bound to an input, if it is one. */
  function IntInput(inputs: seq<(string, SqlValue)>, name: string): (r: Option<int>)
    ensures forall i :: r == Some(i) <==> Lookup(inputs, name) == Some(SqlInt(i))
  {
    match Lookup(inputs, name)
    case Some(SqlInt(i)) => Some(i)
    case _ => None
  }

  /** The text bound to an input, if it is text. */
  function TextInput(inputs: seq<(string, SqlValue)>, name: string): (r: Option<string>)
    ensures forall t :: r == Some(t) <==> Lookup(inputs, name) == Some(SqlText(t))
  {
    match Lookup(inputs, name)
    case Some(SqlText(t)) => Some(t)
    case _ => None
  }

  /** The nullable number bound to an input, if it is a number or null. */
  function NullableIntInput(inputs: seq<(string, SqlValue)>, name: string): (r: Option<Option<int>>)
    ensures forall v :: r == Some(v) <==> Lookup(inputs, name) == Some(IntOrNull(v))
  {
    match Lookup(inputs, name)
    case Some(x) => NullableIntOf(x)
    case None => None
  }

  /** The one row of the second recordset: the total number of matching rows. */
  datatype TotalRow = TotalRow(total: int)

  /** `result.recordsets` as the services see it: not an array at all, or an
      array whose first and second recordsets may each be missing. */
  datatype Recordsets<Row> =
    | NotAnArray
    | RecordsetArray(rows: Option<seq<Row>>, totals: Option<seq<TotalRow>>)

  /** What a list service returns: the rows (missing when the array has no
      first recordset) and the total. */
  datatype ListResult<Row> = ListResult(items: Option<seq<Row>>, total: int)

  /** The reshaping both list services apply: the first recordset as-is (empty
      when recordsets is not an array), and the `total` of the first row of
      the second recordset, or 0 when there is no such row. */
  function Reshape<Row>(rs: Recordsets<Row>): (r: ListResult<Row>)
    ensures rs.NotAnArray? ==> r == ListResult(Some([]), 0)
    ensures rs.RecordsetArray? ==> r.items == rs.rows
    ensures rs.RecordsetArray? && rs.totals.Some? && |rs.totals.value| > 0 ==> r.total == rs.totals.value[0].total
    ensures rs.NotAnArray? || rs.totals.None? || rs.totals.value == [] ==> r.total == 0
  {
    var items := if rs.NotAnArray? then Some([]) else rs.rows;
    var total := if rs.RecordsetArray? && rs.totals.Some? && |rs.totals.value| > 0 then rs.totals.value[0].total else 0;
    ListResult(items, total)
  }

  /** The recordsets a list procedure returns for some rows and their total:
      the rows, then a single row holding the total. */
  function ProcedureOutput<Row>(items: seq<Row>, total: int): Recordsets<Row>
  {
    RecordsetArray(Some(items), Some([TotalRow(total)]))
  }

  /** Reshaping gives back exactly the rows (no filtering, reordering or
      truncation) and the total the procedure reported, whatever follows
      the first total row. */
  lemma ReshapeRoundTrip<Row>(items: seq<Row>, total: int, moreTotals: seq<TotalRow>)
    ensures Reshape(ProcedureOutput(items, total)) == ListResult(Some(items), total)
    ensures Reshape(RecordsetArray(Some(items), Some([TotalRow(total)] + moreTotals))) == ListResult(Some(items), total)
  {
  }

  /** When no total row comes back, the total is 0 and the rows are untouched. */
  lemma MissingTotalIsZero<Row>(rows: Option<seq<Row>>)
    ensures Reshape(RecordsetArray(rows, None)) == ListResult(rows, 0)
    ensures Reshape(RecordsetArray(rows, Some([]))) == ListResult(rows, 0)
    ensures Reshape<Row>(NotAnArray) == ListResult(Some([]), 0)
  {
  }
}
