/**
 * The `ratings` table's row type: its columns, its constraints and its
 * dictionary form.
 */
module RatingModel {
  import opened Wrappers
  import opened JsonValues

  /** The default of the `user_id` column; the handlers name user 1 themselves. */
  const DefaultUserId := 1

  /**
   * A rating value as the handler accepts it: `isinstance(v, (int, float))`
   * lets through integers, floats, and booleans (a subclass of `int`).
   */
  datatype RatingValue = IntRating(i: int) | FloatRating(f: real) | BoolRating(b: bool)

  /** The value Python compares: booleans count as 0 and 1. */
  function Numeric(v: RatingValue): real {
    match v
    case IntRating(i) => i as real
    case FloatRating(f) => f
    case BoolRating(b) => if b then 1.0 else 0.0
  }

  /** `1 <= v <= 5`, as both the handler and the check constraint `ck_rating_range` demand. */
  predicate InRange(v: RatingValue) {
    1.0 <= Numeric(v) <= 5.0
  }

  /** The rating carried by a JSON value, when it is a number or a boolean. */
  function FromJson(j: Json): (r: Option<RatingValue>)
    ensures r.Some? <==> j.JInt? || j.JFloat? || j.JBool?
  {
    match j
    case JInt(i) => Some(IntRating(i))
    case JFloat(f) => Some(FloatRating(f))
    case JBool(b) => Some(BoolRating(b))
    case _ => None
  }

  /** The JSON form of a stored rating. */
  function ToJson(v: RatingValue): Json {
    match v
    case IntRating(i) => JInt(i)
    case FloatRating(f) => JFloat(f)
    case BoolRating(b) => JBool(b)
  }

  /** Reading a rating back from its JSON form gives the same tagged value, and conversely. */
  lemma RatingJsonRoundTrip(v: RatingValue, j: Json)
    ensures FromJson(ToJson(v)) == Some(v)
    ensures FromJson(j).Some? ==> ToJson(FromJson(j).value) == j
  {
  }

  /**
   * Exactly the integers 1 to 5, the floats in [1, 5] and `true` pass the
   * range check; `false` does not.
   */
  lemma AcceptedRatings(v: RatingValue)
    ensures v.IntRating? ==> (InRange(v) <==> 1 <= v.i <= 5)
    ensures v.FloatRating? ==> (InRange(v) <==> 1.0 <= v.f <= 5.0)
    ensures v.BoolRating? ==> (InRange(v) <==> v.b)
  {
  }

  /** A row: the owning user, the provider's movie id and the rating. */
  datatype Row = Row(userId: int, movieId: int, rating: RatingValue)

  /** `to_dict()`: the movie under `tmdb_movie_id` and the rating. */
  function ToDict(row: Row): (j: Json)
    ensures j.JObject? && j.fields.Keys == {"tmdb_movie_id", "rating"}
  {
    JObject(map["tmdb_movie_id" := JInt(row.movieId), "rating" := ToJson(row.rating)])
  }

  /** The dictionary gives back the row's movie and rating (the user is not part of it). */
  lemma ToDictRoundTrip(row: Row)
    ensures ToDict(row).fields["tmdb_movie_id"] == JInt(row.movieId)
    ensures FromJson(ToDict(row).fields["rating"]) == Some(row.rating)
    ensures forall other: Row :: ToDict(other) == ToDict(row) <==> other.movieId == row.movieId && other.rating == row.rating
  {
    forall other: Row ensures ToDict(other) == ToDict(row) ==> other.movieId == row.movieId && other.rating == row.rating {
      if ToDict(other) == ToDict(row) {
        assert ToDict(other).fields["tmdb_movie_id"] == ToDict(row).fields["tmdb_movie_id"];
        assert ToDict(other).fields["rating"] == ToDict(row).fields["rating"];
        RatingJsonRoundTrip(other.rating, ToJson(row.rating));
        RatingJsonRoundTrip(row.rating, ToJson(row.rating));
      }
    }
  }

  /** `uq_user_movie_rating`: no two rows share a user and a movie. */
  predicate UniqueKeys(rows: seq<Row>) {
    forall i, j | 0 <= i < j < |rows| :: (rows[i].userId, rows[i].movieId) != (rows[j].userId, rows[j].movieId)
  }

  /** The table's constraints: unique (user, movie) and every rating in range. */
  predicate TableValid(rows: seq<Row>) {
    UniqueKeys(rows) && forall i | 0 <= i < |rows| :: InRange(rows[i].rating)
  }
}
