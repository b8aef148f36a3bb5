/** The uniform error envelope of main.go and its three constructors. */
module ErrResponses {
  import opened Results

  /** `ErrResponse`: the wrapped error and the HTTP status are not serialised
      (`json:"-"`); `status` always is, `code` and `error` only when non-zero and
      non-empty (`omitempty`). A Go `error` is modelled by its message. */
  datatype ErrResponse = ErrResponse(
    err: Option<string>,
    httpStatusCode: int,
    statusText: string,
    appCode: int,
    errorText: string)

  datatype JsonValue = Str(s: string) | Num(n: int)

  /** The fields a client receives, in declaration order, as the struct tags say. */
  function Body(e: ErrResponse): seq<(string, JsonValue)> {
    [("status", Str(e.statusText))]
    + (if e.appCode != 0 then [("code", Num(e.appCode))] else [])
    + (if e.errorText != "" then [("error", Str(e.errorText))] else [])
  }

  /** `ErrInvalidRequest(err)`: a 400 response that carries the error and shows
      its message. */
  function ErrInvalidRequest(message: string): (e: ErrResponse)
    ensures e.httpStatusCode == 400 && e.err == Some(message)
    ensures Body(e) == [("status", Str("Invalid request."))]
                       + (if message == "" then [] else [("error", Str(message))])
  {
    ErrResponse(Some(message), 400, "Invalid request.", 0, message)
  }

  /** `ErrRender(err)`: a 422 response that carries the error and shows its
      message. */
  function ErrRender(message: string): (e: ErrResponse)
    ensures e.httpStatusCode == 422 && e.err == Some(message)
    ensures Body(e) == [("status", Str("Error rendering response."))]
                       + (if message == "" then [] else [("error", Str(message))])
  {
    ErrResponse(Some(message), 422, "Error rendering response.", 0, message)
  }

  /** `ErrNotFound`: the fixed 404 response, with no wrapped error. */
  const ErrNotFound := ErrResponse(None, 404, "Resource not found.", 0, "")

  /** The not-found response is a 404 with no wrapped error and the body
      `{"status":"Resource not found."}`. */
  lemma NotFoundBody()
    ensures Body(ErrNotFound) == [("status", Str("Resource not found."))]
    ensures ErrNotFound.httpStatusCode == 404 && ErrNotFound.err == None
  {
  }
}
