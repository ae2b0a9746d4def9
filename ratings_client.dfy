/**
 * The front-end ratings client: request shapes of the three calls on
 * `/api/ratings/<movieId>`, and how each call's outcome is derived from the
 * response (with `getRating` turning a "NOT_FOUND" failure into `null`).
 */
module RatingsClient {
  import opened Wrappers
  import opened Strings
  import opened Requests
  import opened ApiFetch
  import ApiPath

  /** `RatingDTO` as read from JSON: either field may be missing. */
  datatype RatingDto = RatingDto(movieId: Option<int>, rating: Option<int>)

  datatype Verb = Get | Put | Delete

  /** A request: HTTP method, path and, for PUT, the `{rating}` JSON body. */
  datatype Request = Request(verb: Verb, path: string, ratingBody: Option<int>)

  /** What `getRating` resolves to: the DTO, `null` (no rating), or `undefined` (a 204). */
  datatype Lookup = Found(dto: RatingDto) | Null | Undefined

  function RatingPath(movieId: int): string {
    "/api/ratings/" + IntToString(movieId)
  }

  function GetRatingRequest(movieId: int): Request {
    Request(Get, RatingPath(movieId), None)
  }

  function UpsertRatingRequest(movieId: int, rating: int): Request {
    Request(Put, RatingPath(movieId), Some(rating))
  }

  function DeleteRatingRequest(movieId: int): Request {
    Request(Delete, RatingPath(movieId), None)
  }

  /**
   * All three calls target the same resource `/api/ratings/<movieId>`,
   * which already carries the "/api" prefix that `apiPath` would add, so it
   * is a fixed point of `apiPath`; they read, replace and remove it with
   * GET, PUT and DELETE; only the upsert sends a body, `{rating}`.
   */
  lemma RequestShapes(movieId: int, rating: int, parseUrl: string -> Option<string>)
    ensures GetRatingRequest(movieId).path == UpsertRatingRequest(movieId, rating).path == DeleteRatingRequest(movieId).path
    ensures ApiPath.ApiPath(RatingPath(movieId), parseUrl) == Some(RatingPath(movieId))
    ensures UpsertRatingRequest(movieId, rating).ratingBody == Some(rating)
    ensures GetRatingRequest(movieId).ratingBody.None? && DeleteRatingRequest(movieId).ratingBody.None?
    ensures GetRatingRequest(movieId).verb == Get && UpsertRatingRequest(movieId, rating).verb == Put
         && DeleteRatingRequest(movieId).verb == Delete
  {
    var p := RatingPath(movieId);
    assert p[..1] == "/";
    assert p[..4] == "/api";
    ApiPath.SlashPathUnchanged(p, parseUrl);
  }

  /**
   * `getRating`: the fetched DTO, or `null` when the fetch failed with the
   * message "NOT_FOUND"; every other failure is rethrown.
   */
  function GetRating(response: Settled<Response<RatingDto>>): Settled<Lookup> {
    match Fetch(response)
    case NoBody => Resolved(Undefined)
    case Data(dto) => Resolved(Found(dto))
    case Threw(e) => if e.message == NotFound then Resolved(Null) else Rejected(e)
  }

  /** `upsertRating`: whatever `apiFetch` gives (the saved DTO, `undefined` on a 204, or a failure). */
  function UpsertRating(response: Settled<Response<RatingDto>>): Fetched<RatingDto> {
    Fetch(response)
  }

  /** `deleteRating`: resolves with nothing on any success, fails as `apiFetch` fails. */
  function DeleteRating(response: Settled<Response<RatingDto>>): Settled<()> {
    match Fetch(response)
    case Threw(e) => Rejected(e)
    case _ => Resolved(())
  }

  /**
   * `getRating` yields `null` exactly when the fetch failed with the message
   * "NOT_FOUND": on every 404, but also on any other failing status whose
   * body's `error` field reads "NOT_FOUND"; a 204 yields `undefined`; every
   * other failure is rethrown unchanged.
   */
  lemma GetRatingNull(response: Settled<Response<RatingDto>>)
    ensures GetRating(response) == Resolved(Null) <==> Fetch(response).Threw? && Fetch(response).error.message == NotFound
    ensures response.Resolved? && response.value.status == 404 ==> GetRating(response) == Resolved(Null)
    ensures response.Resolved? && response.value.status == 204 ==> GetRating(response) == Resolved(Undefined)
    ensures response.Resolved? && !IsOk(response.value.status) && response.value.status != 404
            && response.value.body.Json? && response.value.body.errorField == Some(NotFound)
            ==> GetRating(response) == Resolved(Null)
    ensures Fetch(response).Threw? && Fetch(response).error.message != NotFound ==>
              GetRating(response) == Rejected(Fetch(response).error)
  {
  }

  /** A delete fails exactly when the fetch failed; the body of a success is ignored. */
  lemma DeleteIgnoresBody(response: Settled<Response<RatingDto>>)
    ensures DeleteRating(response).Rejected? <==> Fetch(response).Threw?
    ensures response.Resolved? && IsOk(response.value.status) && response.value.body.Json? ==> DeleteRating(response) == Resolved(())
  {
  }
}
