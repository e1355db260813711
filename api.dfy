/**
 * The result shape of apiFetch (frontend/src/lib/api.js): either the request
 * never reached the server, or a response arrived with a status and a body
 * that may not have parsed as JSON. `Throws` stands for an exception raised
 * while the caller awaits the call.
 */
module Api {
  import opened Wrappers

  /** The JSON body fields the client reads from POST /api/shorten. */
  datatype Body = Body(
    shortCode: Option<string>,
    existing: bool,
    reactivated: bool,
    msg: Option<string>,
    error: Option<string>)

  datatype ApiResult =
    | NetworkError
    | Response(status: int, data: Option<Body>)
    | Throws(message: string)

  /** Response.ok in the Fetch standard: a status in 200..299. */
  predicate IsOk(status: int) {
    200 <= status <= 299
  }

  /** `text || fallback` on an optional string: absent and "" are falsy. */
  function OrElse(text: Option<string>, fallback: string): (r: string)
    ensures r == fallback || (text.Some? && r == text.value)
    ensures fallback != "" ==> r != ""
  {
    if text.Some? && text.value != "" then text.value else fallback
  }

  /** `data?.error`: the error field of a body that may be missing. */
  function ErrorOf(data: Option<Body>): Option<string> {
    if data.Some? then data.value.error else None
  }
}
