/** The JSON envelopes the list endpoints answer with, the errors their
    handlers can catch, and the shared catch block. */
module Http {

  const OK: int := 200
  const BAD_REQUEST: int := 400

  /** Pagination metadata of a list response. */
  datatype Metadata = Metadata(page: int, pageSize: int, total: int)

  /** A success envelope with data and metadata, or an error envelope. */
  datatype Body<T> =
    | SuccessBody(data: T, metadata: Metadata)
    | ErrorBody(message: string, code: string, details: seq<string>)

  /** An exception: its `name` and the list of issues it carries (the names of
      the failing query fields for a schema error, empty otherwise). */
  datatype ThrownError = ThrownError(name: string, issues: seq<string>)

  /** What a handler does: write a response, or hand the error to `next`. */
  datatype HandlerOutcome<T> =
    | Respond(status: int, body: Body<T>)
    | PassToNext(error: ThrownError)

  /** The error the query schema throws when the query does not validate. */
  function SchemaError(failingFields: seq<string>): ThrownError
  {
    ThrownError("ZodError", failingFields)
  }

  /** The catch block of both list handlers: an error named "ZodError" is
      answered with 400 and code VALIDATION_ERROR carrying its issues, any other
      error goes to `next` unchanged and nothing is written. */
  function CatchListError<T>(e: ThrownError): (r: HandlerOutcome<T>)
    ensures r.PassToNext? <==> e.name != "ZodError"
    ensures r.PassToNext? ==> r.error == e
    ensures r.Respond? ==>
      r.status == BAD_REQUEST && r.body == ErrorBody("Invalid query parameters", "VALIDATION_ERROR", e.issues)
  {
    if e.name == "ZodError" then
      Respond(BAD_REQUEST, ErrorBody("Invalid query parameters", "VALIDATION_ERROR", e.issues))
    else
      PassToNext(e)
  }
}
