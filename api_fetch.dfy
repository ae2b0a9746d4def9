/**
 * The status handling of `apiFetch`, once the HTTP exchange itself is
 * abstracted: a decision on the response's status and (parsed) body.  The
 * ratings client repeats the same status handling without the `apiPath`
 * rewrite; its paths already start with "/api" and are fixed points of
 * `apiPath` (RatingsClient.RequestShapes), so the difference does not show.
 */
module ApiFetch {
  import opened Wrappers
  import opened Strings
  import opened Requests

  /**
   * A response body as `res.json()` sees it: text that is not JSON (parsing
   * throws a SyntaxError with the parser's message), or a JSON value together
   * with the string form of its `error` field (`None` when that field is
   * absent, `null` or `undefined`, or when the value has no fields).
   */
  datatype Body<+T> = NotJson(parseError: string) | Json(value: T, errorField: Option<string>)

  datatype Response<+T> = Response(status: nat, body: Body<T>)

  /** What the awaited `apiFetch` promise gives: `undefined`, the body, or a thrown error. */
  datatype Fetched<+T> = NoBody | Data(value: T) | Threw(error: Thrown)

  const NotFound := "NOT_FOUND"

  /** `res.ok`. */
  predicate IsOk(status: nat) {
    200 <= status <= 299
  }

  /** The fallback message of a failed request, `HTTP <status>`. */
  function HttpMessage(status: nat): string {
    "HTTP " + NatToString(status)
  }

  /**
   * The decision of `apiFetch` on a response: 204 gives no body; 404 throws
   * "NOT_FOUND"; otherwise the body is parsed, and a status outside 2xx
   * throws the body's `error` field or "HTTP <status>".
   */
  function MapStatus<T>(r: Response<T>): Fetched<T> {
    if r.status == 204 then NoBody
    else if r.status == 404 then Threw(Thrown(PlainError, NotFound))
    else match r.body
      case NotJson(m) => Threw(Thrown(SyntaxError, m))
      case Json(v, err) =>
        if !IsOk(r.status) then Threw(Thrown(PlainError, err.GetOr(HttpMessage(r.status))))
        else Data(v)
  }

  /** `apiFetch` as a whole: a failed `fetch` (network error, abort) propagates as thrown. */
  function Fetch<T>(response: Settled<Response<T>>): Fetched<T> {
    match response
    case Rejected(e) => Threw(e)
    case Resolved(r) => MapStatus(r)
  }

  /**
   * The status classification: a request succeeds with the body exactly
   * when its status is a 2xx other than 204 and the body parses; 204 gives
   * no body and 404 fails with "NOT_FOUND", both whatever the body is; a
   * non-2xx failure carries the server's `error` field if present, and
   * otherwise a fallback message that is never "NOT_FOUND".
   */
  lemma StatusClassification<T>(r: Response<T>)
    ensures MapStatus(r).Data? <==> IsOk(r.status) && r.status != 204 && r.body.Json?
    ensures MapStatus(r).Data? ==> MapStatus(r).value == r.body.value
    ensures r.status == 204 ==> forall b: Body<T> :: MapStatus(Response(r.status, b)) == NoBody
    ensures r.status == 404 ==> forall b: Body<T> :: MapStatus(Response(r.status, b)) == Threw(Thrown(PlainError, NotFound))
    ensures MapStatus(r).NoBody? <==> r.status == 204
    ensures !IsOk(r.status) && r.status != 404 && r.body.Json? ==>
              MapStatus(r) == Threw(Thrown(PlainError, r.body.errorField.GetOr(HttpMessage(r.status))))
    ensures HttpMessage(r.status) != NotFound
  {
    assert HttpMessage(r.status)[0] == 'H';
  }
}
