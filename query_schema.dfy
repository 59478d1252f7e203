/** The field validators shared by the query schemas of the list endpoints.
    A query value reaches them already coerced to a number: absent, an
    integer, or a number that is not an integer (a fraction, NaN or an
    infinity). */
module QuerySchema {
  import opened Wrappers
  import opened Catalog

  /** A query parameter after `z.coerce.number()`. */
  datatype NumberParam = Absent | Integer(value: int) | NonInteger

  /** The page sizes the endpoints accept. */
  const PageSizes: set<int> := {12, 24, 36}
  const DefaultPage: int := 1
  const DefaultPageSize: int := 12

  /** The outcome of one field's check: the value it contributes, or a rejection. */
  datatype Checked<T> = Accepted(value: T) | Rejected

  /** `.int().positive().optional()`: absent, or a positive integer. */
  function OptionalPositiveInt(p: NumberParam): (r: Checked<Option<int>>)
    ensures r.Accepted? <==> p.Absent? || (p.Integer? && p.value > 0)
    ensures r.Accepted? && p.Absent? ==> r.value == None
    ensures r.Accepted? && p.Integer? ==> r.value == Some(p.value) && p.value > 0
  {
    match p
    case Absent => Accepted(None)
    case Integer(v) => if v > 0 then Accepted(Some(v)) else Rejected
    case NonInteger => Rejected
  }

  /** `.int().min(0).max(100).optional()`: absent, or a whole percentage. */
  function OptionalPercent(p: NumberParam): (r: Checked<Option<int>>)
    ensures r.Accepted? <==> p.Absent? || (p.Integer? && 0 <= p.value <= 100)
    ensures r.Accepted? && p.Absent? ==> r.value == None
    ensures r.Accepted? && p.Integer? ==> r.value == Some(p.value) && 0 <= p.value <= 100
  {
    match p
    case Absent => Accepted(None)
    case Integer(v) => if 0 <= v <= 100 then Accepted(Some(v)) else Rejected
    case NonInteger => Rejected
  }

  /** `page`: a positive integer, 1 when absent. */
  function PageParam(p: NumberParam): (r: Checked<int>)
    ensures r.Accepted? <==> p.Absent? || (p.Integer? && p.value > 0)
    ensures r.Accepted? ==> r.value >= 1 && r.value == (if p.Absent? then DefaultPage else p.value)
  {
    match p
    case Absent => Accepted(DefaultPage)
    case Integer(v) => if v > 0 then Accepted(v) else Rejected
    case NonInteger => Rejected
  }

  /** `pageSize`: 12, 24 or 36, 12 when absent. */
  function PageSizeParam(p: NumberParam): (r: Checked<int>)
    ensures r.Accepted? <==> p.Absent? || (p.Integer? && p.value in PageSizes)
    ensures r.Accepted? ==> r.value in PageSizes && r.value == (if p.Absent? then DefaultPageSize else p.value)
  {
    match p
    case Absent => Accepted(DefaultPageSize)
    case Integer(v) => if v == 12 || v == 24 || v == 36 then Accepted(v) else Rejected
    case NonInteger => Rejected
  }

  /** `sortBy`: one of the four sort keys, "maior_desconto" when absent. */
  function SortByParam(s: Option<string>): (r: Checked<SortBy>)
    ensures r.Accepted? <==> s.None? || s.value in {"maior_desconto", "menor_preco", "maior_preco", "alfabetica"}
    ensures r.Accepted? ==> SortKey(r.value) == (if s.None? then "maior_desconto" else s.value)
  {
    if s.None? then Accepted(MaiorDesconto)
    else match ParseSortBy(s.value)
      case Some(k) => Accepted(k)
      case None => Rejected
  }

  /** The issue list contribution of one field: its name when it was rejected. */
  function IssueOf<T>(name: string, c: Checked<T>): (issues: seq<string>)
    ensures issues == [] <==> c.Accepted?
    ensures issues != [] ==> issues == [name]
  {
    if c.Accepted? then [] else [name]
  }

  /** The query value an accepted optional field came from. */
  function ParamOf(v: Option<int>): (p: NumberParam)
    ensures v.None? <==> p.Absent?
    ensures v.Some? ==> p == Integer(v.value)
  {
    if v.Some? then Integer(v.value) else Absent
  }
}
