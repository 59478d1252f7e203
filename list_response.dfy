/** The list response as the frontend receives it, and the fallbacks the list
    hooks apply while there is no data. */
module ListResponse {
  import opened Wrappers
  import opened Http

  /** The decoded JSON of a list endpoint; either member may be missing. */
  datatype ListResponse<Row> = ListResponse(data: Option<seq<Row>>, metadata: Option<Metadata>)

  /** `data?.data || []`: the rows of the response, or none while there is no response. */
  function ItemsOrEmpty<Row>(response: Option<ListResponse<Row>>): (items: seq<Row>)
    ensures response.Some? && response.value.data.Some? ==> items == response.value.data.value
    ensures response.None? || response.value.data.None? ==> items == []
  {
    if response.Some? && response.value.data.Some? then response.value.data.value else []
  }

  /** `data?.metadata?.total || 0`: the reported total, or 0 without one. */
  function TotalOrZero<Row>(response: Option<ListResponse<Row>>): (total: int)
    ensures response.Some? && response.value.metadata.Some? ==> total == response.value.metadata.value.total
    ensures response.None? || response.value.metadata.None? ==> total == 0
  {
    if response.Some? && response.value.metadata.Some? then response.value.metadata.value.total else 0
  }
}
