/**
 * The ratings blueprint (mounted under /api/ratings): get one rating, list
 * all ratings, upsert and delete, for the fixed user 1, over the `ratings`
 * table.  Database commits are an outcome supplied by the environment.
 */
module RatingsRoutes {
  import opened Wrappers
  import opened JsonValues
  import opened RatingModel
  import opened RatingsService

  /** Every handler acts for user 1. */
  const CurrentUser := 1

  const NotJsonMessage := "Body must be JSON (Content-Type: application/json)"
  const RangeMessage := "Rating must be between 1 and 5"

  /** A response: its status and its JSON body (`None` for an empty body or Flask's own error page). */
  datatype Reply = Reply(status: nat, body: Option<Json>)

  /** What `db.session.commit()` does: succeed, or raise an integrity or another database error. */
  datatype Commit = Committed | IntegrityFailure | DatabaseFailure

  predicate Matches(row: Row, user: int, movieId: int) {
    row.userId == user && row.movieId == movieId
  }

  /** `Rating.query.filter_by(user_id=user, tmdb_movie_id=movieId).first()`, as a position in the table. */
  function Find(rows: seq<Row>, user: int, movieId: int): (r: Option<nat>)
    ensures r.Some? ==> r.value < |rows| && Matches(rows[r.value], user, movieId)
    ensures r.Some? ==> forall j | 0 <= j < r.value :: !Matches(rows[j], user, movieId)
    ensures r.None? <==> forall i | 0 <= i < |rows| :: !Matches(rows[i], user, movieId)
  {
    if rows == [] then None
    else if Matches(rows[0], user, movieId) then Some(0)
    else match Find(rows[1..], user, movieId)
      case None => None
      case Some(i) => Some(i + 1)
  }

  /** The table as a map from (user, movie) to rating. */
  ghost function AsMap(rows: seq<Row>): map<(int, int), RatingValue> {
    if rows == [] then map[]
    else
      var last := rows[|rows| - 1];
      AsMap(rows[..|rows| - 1])[(last.userId, last.movieId) := last.rating]
  }

  /** With unique keys, the map holds exactly the table's keys, each with its row's rating. */
  lemma {:induction false} AsMapSpec(rows: seq<Row>)
    requires UniqueKeys(rows)
    ensures forall i | 0 <= i < |rows| ::
      (rows[i].userId, rows[i].movieId) in AsMap(rows) && AsMap(rows)[(rows[i].userId, rows[i].movieId)] == rows[i].rating
    ensures forall k | k in AsMap(rows) :: exists i | 0 <= i < |rows| :: (rows[i].userId, rows[i].movieId) == k
  {
    if rows != [] {
      var n := |rows| - 1;
      var init := rows[..n];
      assert UniqueKeys(init) by {
        forall i, j | 0 <= i < j < |init| ensures (init[i].userId, init[i].movieId) != (init[j].userId, init[j].movieId) {
          assert init[i] == rows[i] && init[j] == rows[j];
        }
      }
      AsMapSpec(init);
      forall i | 0 <= i < |rows|
        ensures (rows[i].userId, rows[i].movieId) in AsMap(rows)
        ensures AsMap(rows)[(rows[i].userId, rows[i].movieId)] == rows[i].rating
      {
        if i < n {
          assert init[i] == rows[i];
        }
      }
      forall k | k in AsMap(rows) ensures exists i | 0 <= i < |rows| :: (rows[i].userId, rows[i].movieId) == k {
        if k != (rows[n].userId, rows[n].movieId) {
          var i :| 0 <= i < |init| && (init[i].userId, init[i].movieId) == k;
          assert rows[i] == init[i];
        }
      }
    }
  }

  // ---------------------------------------------------------------------
  // GET /<movie_id> and GET /
  // ---------------------------------------------------------------------

  /** `get_rating(movie_id)`: the stored rating under `movie_id`, or 404 with the id echoed. */
  function GetRatingReply(rows: seq<Row>, movieId: nat): Reply {
    match Find(rows, CurrentUser, movieId)
    case Some(i) =>
      Reply(200, Some(JObject(map["movie_id" := JInt(rows[i].movieId), "rating" := ToJson(rows[i].rating)])))
    case None =>
      Reply(404, Some(JObject(map["error" := JString("Rating not found"), "movie_id" := JInt(movieId)])))
  }

  /** The user's rows, in table order. */
  function RowsOf(rows: seq<Row>, user: int): (r: seq<Row>)
    ensures forall row :: row in r <==> row in rows && row.userId == user
  {
    if rows == [] then []
    else (if rows[0].userId == user then [rows[0]] else []) + RowsOf(rows[1..], user)
  }

  /** One `to_dict()` per row, in the rows' order. */
  function Dicts(rows: seq<Row>): (r: seq<Json>)
    ensures |r| == |rows|
    ensures forall i | 0 <= i < |rows| :: r[i] == ToDict(rows[i])
  {
    if rows == [] then [] else [ToDict(rows[0])] + Dicts(rows[1..])
  }

  /** Selecting a user's rows keeps table order: it distributes over concatenation. */
  lemma {:induction false} RowsOfConcat(a: seq<Row>, b: seq<Row>, user: int)
    ensures RowsOf(a + b, user) == RowsOf(a, user) + RowsOf(b, user)
  {
    if a == [] {
      assert a + b == b;
    } else {
      assert (a + b)[0] == a[0];
      assert (a + b)[1..] == a[1..] + b;
      RowsOfConcat(a[1..], b, user);
    }
  }

  /** A single row is selected exactly when it is the user's. */
  lemma RowsOfOne(row: Row, user: int)
    ensures RowsOf([row], user) == if row.userId == user then [row] else []
  {
    assert [row][1..] == [];
  }

  /** `get_all_ratings()`: 404 when the user has no rating, else the list of `to_dict()` forms. */
  function GetAllReply(rows: seq<Row>): Reply {
    var mine := RowsOf(rows, CurrentUser);
    if mine == [] then Reply(404, Some(ErrorBody("Ratings not found for this user")))
    else Reply(200, Some(JArray(Dicts(mine))))
  }

  /**
   * A single rating is found exactly when the table has a row for user 1
   * and the movie, and the answer carries that row's rating; otherwise 404.
   */
  lemma GetRatingSpec(rows: seq<Row>, movieId: nat)
    ensures var reply := GetRatingReply(rows, movieId);
      && (reply.status == 200 <==> exists i | 0 <= i < |rows| :: Matches(rows[i], CurrentUser, movieId))
      && (reply.status == 200 || reply.status == 404)
      && (reply.status == 404 ==> reply.body.value.fields["movie_id"] == JInt(movieId))
    ensures UniqueKeys(rows) && (CurrentUser, movieId as int) in AsMap(rows) ==>
      GetRatingReply(rows, movieId)
        == Reply(200, Some(JObject(map["movie_id" := JInt(movieId), "rating" := ToJson(AsMap(rows)[(CurrentUser, movieId as int)])])))
  {
    if UniqueKeys(rows) && (CurrentUser, movieId as int) in AsMap(rows) {
      AsMapSpec(rows);
      var i :| 0 <= i < |rows| && (rows[i].userId, rows[i].movieId) == (CurrentUser, movieId as int);
      assert Matches(rows[i], CurrentUser, movieId);
    }
  }

  /**
   * The list is answered 404 exactly when user 1 has no rating; otherwise
   * it holds one `to_dict()` per row of the user, in table order, and every
   * rated movie of the user appears.
   */
  lemma {:induction false} GetAllSpec(rows: seq<Row>)
    ensures GetAllReply(rows).status == 404 <==> forall i | 0 <= i < |rows| :: rows[i].userId != CurrentUser
    ensures GetAllReply(rows).status == 200 ==>
      GetAllReply(rows).body == Some(JArray(Dicts(RowsOf(rows, CurrentUser))))
    ensures forall i | 0 <= i < |rows| && rows[i].userId == CurrentUser :: rows[i] in RowsOf(rows, CurrentUser)
  {
    if !forall i | 0 <= i < |rows| :: rows[i].userId != CurrentUser {
      var i :| 0 <= i < |rows| && rows[i].userId == CurrentUser;
      assert rows[i] in RowsOf(rows, CurrentUser);
    }
  }

  // ---------------------------------------------------------------------
  // PUT /<movie_id>
  // ---------------------------------------------------------------------

  /** The body check ends with an early reply, or with an accepted rating. */
  datatype Checked = Reject(reply: Reply) | Accept(value: RatingValue)

  /**
   * The checks of `upsert_rate` before any database work: a JSON body,
   * the required field, then a number (or boolean) between 1 and 5.  A body
   * that passes `validate_json` without being an object makes
   * `data["rating"]` raise, and so do scalar bodies inside `validate_json`.
   */
  function CheckBody(body: Option<Json>): Checked {
    if body.None? || body.value.JNull? then Reject(Reply(400, Some(ErrorBody(NotJsonMessage))))
    else
      var data := body.value;
      match ValidateJson(data, ["rating"])
      case Raises => Reject(Reply(500, None))
      case Missing(fields) =>
        Reject(Reply(400, Some(JObject(map["error" := JString("Missing required fields"),
                                           "missing_fields" := JArray(seq(|fields|, k requires 0 <= k < |fields| => JString(fields[k])))]))))
      case Passed =>
        if !data.JObject? then Reject(Reply(500, None))
        else match FromJson(data.fields["rating"])
          case None => Reject(Reply(400, Some(ErrorBody(RangeMessage))))
          case Some(v) => if InRange(v) then Accept(v) else Reject(Reply(400, Some(ErrorBody(RangeMessage))))
  }

  /**
   * A body is accepted exactly when it is an object whose `rating` is a
   * number or boolean between 1 and 5; the rejections are 400 except for
   * the bodies Python raises on, which get 500.
   */
  lemma CheckBodySpec(body: Option<Json>)
    ensures CheckBody(body).Accept? <==>
      && body.Some? && body.value.JObject? && "rating" in body.value.fields
      && FromJson(body.value.fields["rating"]).Some? && InRange(FromJson(body.value.fields["rating"]).value)
    ensures CheckBody(body).Accept? ==> CheckBody(body).value == FromJson(body.value.fields["rating"]).value
    ensures CheckBody(body).Reject? ==> CheckBody(body).reply.status in {400, 500}
    ensures CheckBody(body).Reject? && CheckBody(body).reply.status == 500 <==>
      && body.Some?
      && (|| body.value.JBool? || body.value.JInt? || body.value.JFloat?
          || (body.value.JArray? && JString("rating") in body.value.items)
          || (body.value.JString? && IsSubstring("rating", body.value.s)))
  {
    if body.Some? {
      RatingFieldCheck(body.value);
    }
  }

  /**
   * `upsert_rate(movie_id)`: after the checks, the existing row of user 1
   * for the movie is updated (200) or a new one added (201); a failed
   * commit is rolled back and answered 409 (integrity) or 500.
   */
  function UpsertResult(rows: seq<Row>, movieId: nat, body: Option<Json>, commit: Commit): (seq<Row>, Reply) {
    match CheckBody(body)
    case Reject(reply) => (rows, reply)
    case Accept(v) =>
      match commit
      case IntegrityFailure => (rows, Reply(409, Some(ErrorBody("Conflict"))))
      case DatabaseFailure => (rows, Reply(500, Some(ErrorBody("Database error"))))
      case Committed =>
        match Find(rows, CurrentUser, movieId)
        case Some(i) =>
          var row := rows[i].(rating := v);
          (rows[i := row], Reply(200, Some(ToDict(row))))
        case None =>
          var row := Row(CurrentUser, movieId, v);
          (rows + [row], Reply(201, Some(ToDict(row))))
  }

  /**
   * The status of an upsert: 200 for an update and 201 for an insert,
   * both only after an accepted body and a successful commit; 409 for an
   * integrity failure; the table changes only with 200 or 201.
   */
  lemma UpsertStatus(rows: seq<Row>, movieId: nat, body: Option<Json>, commit: Commit)
    ensures var (rows', reply) := UpsertResult(rows, movieId, body, commit);
      var found := exists i | 0 <= i < |rows| :: Matches(rows[i], CurrentUser, movieId);
      && (reply.status == 200 <==> CheckBody(body).Accept? && commit == Committed && found)
      && (reply.status == 201 <==> CheckBody(body).Accept? && commit == Committed && !found)
      && (reply.status == 409 <==> CheckBody(body).Accept? && commit == IntegrityFailure)
      && (reply.status == 400 <==> CheckBody(body).Reject? && CheckBody(body).reply.status == 400)
      && (reply.status != 200 && reply.status != 201 ==> rows' == rows)
      && (reply.status == 200 || reply.status == 201 ==>
            reply.body == Some(ToDict(Row(CurrentUser, movieId, CheckBody(body).value))))
  {
    CheckBodySpec(body);
  }

  /** An upsert keeps the table's constraints. */
  lemma UpsertKeepsValid(rows: seq<Row>, movieId: nat, body: Option<Json>, commit: Commit)
    requires TableValid(rows)
    ensures TableValid(UpsertResult(rows, movieId, body, commit).0)
  {
    CheckBodySpec(body);
    var rows' := UpsertResult(rows, movieId, body, commit).0;
    if CheckBody(body).Accept? && commit == Committed {
      var v := CheckBody(body).value;
      match Find(rows, CurrentUser, movieId) {
        case Some(i) =>
          forall a, b | 0 <= a < b < |rows'|
            ensures (rows'[a].userId, rows'[a].movieId) != (rows'[b].userId, rows'[b].movieId)
          {
            assert (rows'[a].userId, rows'[a].movieId) == (rows[a].userId, rows[a].movieId);
            assert (rows'[b].userId, rows'[b].movieId) == (rows[b].userId, rows[b].movieId);
          }
        case None =>
          forall a, b | 0 <= a < b < |rows'|
            ensures (rows'[a].userId, rows'[a].movieId) != (rows'[b].userId, rows'[b].movieId)
          {
            if b == |rows| {
              assert !Matches(rows[a], CurrentUser, movieId);
            }
          }
      }
    }
  }

  /** A committed upsert maps (user 1, movie) to the accepted rating and leaves every other entry alone. */
  lemma UpsertSetsRating(rows: seq<Row>, movieId: nat, body: Option<Json>)
    requires UniqueKeys(rows) && CheckBody(body).Accept?
    ensures AsMap(UpsertResult(rows, movieId, body, Committed).0)
              == AsMap(rows)[(CurrentUser, movieId as int) := CheckBody(body).value]
  {
    var v := CheckBody(body).value;
    var rows' := UpsertResult(rows, movieId, body, Committed).0;
    var key := (CurrentUser, movieId as int);
    match Find(rows, CurrentUser, movieId) {
      case None =>
        assert rows' == rows + [Row(CurrentUser, movieId, v)];
        assert rows'[..|rows'| - 1] == rows;
      case Some(i) =>
        UpsertKeepsValidKeys(rows, i, v);
        var m := AsMap(rows)[key := v];
        forall k | k in AsMap(rows') ensures k in m && AsMap(rows')[k] == m[k] {
          var j := KeyRow(rows', k);
          if j != i {
            assert rows'[j] == rows[j];
            RowKey(rows, j);
          }
        }
        forall k | k in m ensures k in AsMap(rows') {
          if k != key {
            var j := KeyRow(rows, k);
            assert rows'[j].userId == rows[j].userId && rows'[j].movieId == rows[j].movieId;
            RowKey(rows', j);
          } else {
            RowKey(rows', i);
          }
        }
    }
  }

  /** Changing one row's rating keeps the keys unique. */
  lemma UpsertKeepsValidKeys(rows: seq<Row>, i: nat, v: RatingValue)
    requires UniqueKeys(rows) && i < |rows|
    ensures UniqueKeys(rows[i := rows[i].(rating := v)])
  {
    var rows' := rows[i := rows[i].(rating := v)];
    forall a, b | 0 <= a < b < |rows'|
      ensures (rows'[a].userId, rows'[a].movieId) != (rows'[b].userId, rows'[b].movieId)
    {
      assert (rows'[a].userId, rows'[a].movieId) == (rows[a].userId, rows[a].movieId);
      assert (rows'[b].userId, rows'[b].movieId) == (rows[b].userId, rows[b].movieId);
    }
  }

  /**
   * After a committed upsert, reading the rating back gives the accepted
   * value, and repeating the same upsert answers 200 and changes nothing.
   */
  lemma UpsertThenGet(rows: seq<Row>, movieId: nat, body: Option<Json>)
    requires CheckBody(body).Accept?
    ensures var rows' := UpsertResult(rows, movieId, body, Committed).0;
      && GetRatingReply(rows', movieId)
           == Reply(200, Some(JObject(map["movie_id" := JInt(movieId), "rating" := ToJson(CheckBody(body).value)])))
      && UpsertResult(rows', movieId, body, Committed) == (rows', Reply(200, Some(ToDict(Row(CurrentUser, movieId, CheckBody(body).value)))))
  {
    var v := CheckBody(body).value;
    var rows' := UpsertResult(rows, movieId, body, Committed).0;
    match Find(rows, CurrentUser, movieId) {
      case Some(i) =>
        assert Matches(rows'[i], CurrentUser, movieId);
        var j := Find(rows', CurrentUser, movieId).value;
        assert j == i;
        assert rows'[i := rows'[i].(rating := v)] == rows';
      case None =>
        var n := |rows|;
        assert Matches(rows'[n], CurrentUser, movieId);
        var j := Find(rows', CurrentUser, movieId).value;
        assert j == n;
        assert rows'[n] == Row(CurrentUser, movieId, v);
        assert rows'[n := rows'[n].(rating := v)] == rows';
    }
  }

  // ---------------------------------------------------------------------
  // DELETE /<movie_id>
  // ---------------------------------------------------------------------

  /**
   * `delete_rating(movie_id)`: removes the row of user 1 for the movie if
   * there is one; 204 either way.  A failing commit is not caught, so Flask
   * answers 500 and the removal does not take place.
   */
  function DeleteResult(rows: seq<Row>, movieId: nat, commit: Commit): (seq<Row>, Reply) {
    match Find(rows, CurrentUser, movieId)
    case None => (rows, Reply(204, None))
    case Some(i) =>
      if commit == Committed then (rows[..i] + rows[i + 1..], Reply(204, None))
      else (rows, Reply(500, None))
  }

  /**
   * Delete answers 204 with no body unless a present row's commit fails;
   * it keeps the constraints and removes exactly the key (user 1, movie).
   */
  lemma DeleteSpec(rows: seq<Row>, movieId: nat, commit: Commit)
    requires TableValid(rows)
    ensures var (rows', reply) := DeleteResult(rows, movieId, commit);
      && reply.body.None?
      && (reply.status == 204 <==> commit == Committed || forall i | 0 <= i < |rows| :: !Matches(rows[i], CurrentUser, movieId))
      && (reply.status != 204 ==> reply.status == 500 && rows' == rows)
      && TableValid(rows')
      && (reply.status == 204 ==> AsMap(rows') == AsMap(rows) - {(CurrentUser, movieId as int)})
  {
    var key := (CurrentUser, movieId as int);
    match Find(rows, CurrentUser, movieId) {
      case None =>
        AsMapSpec(rows);
        forall j | 0 <= j < |rows| ensures (rows[j].userId, rows[j].movieId) != key {
          assert !Matches(rows[j], CurrentUser, movieId);
        }
        assert key !in AsMap(rows);
        assert AsMap(rows) - {key} == AsMap(rows);
      case Some(i) =>
        if commit == Committed {
          RemoveRowKeepsValid(rows, i);
          RemoveRowMap(rows, i);
        }
    }
  }

  /** Removing a row keeps the constraints. */
  lemma RemoveRowKeepsValid(rows: seq<Row>, i: nat)
    requires TableValid(rows) && i < |rows|
    ensures TableValid(rows[..i] + rows[i + 1..])
  {
    var rows' := rows[..i] + rows[i + 1..];
    forall a, b | 0 <= a < b < |rows'|
      ensures (rows'[a].userId, rows'[a].movieId) != (rows'[b].userId, rows'[b].movieId)
    {
      var a' := if a < i then a else a + 1;
      var b' := if b < i then b else b + 1;
      assert rows'[a] == rows[a'] && rows'[b] == rows[b'];
    }
    forall a | 0 <= a < |rows'| ensures InRange(rows'[a].rating) {
      var a' := if a < i then a else a + 1;
      assert rows'[a] == rows[a'];
    }
  }

  /** Removing the row at `i` removes exactly its key from the map view. */
  lemma RemoveRowMap(rows: seq<Row>, i: nat)
    requires TableValid(rows) && i < |rows|
    ensures AsMap(rows[..i] + rows[i + 1..]) == AsMap(rows) - {(rows[i].userId, rows[i].movieId)}
  {
    var rows' := rows[..i] + rows[i + 1..];
    var m := AsMap(rows) - {(rows[i].userId, rows[i].movieId)};
    RemoveRowKeepsValid(rows, i);
    forall k | k in AsMap(rows') ensures k in m && AsMap(rows')[k] == m[k] {
      RemoveRowSub(rows, i, k);
    }
    forall k | k in m ensures k in AsMap(rows') {
      RemoveRowSuper(rows, i, k);
    }
  }

  /** The row that a key of the map view comes from. */
  lemma KeyRow(rows: seq<Row>, k: (int, int)) returns (j: nat)
    requires UniqueKeys(rows) && k in AsMap(rows)
    ensures j < |rows| && (rows[j].userId, rows[j].movieId) == k && AsMap(rows)[k] == rows[j].rating
  {
    AsMapSpec(rows);
    j :| 0 <= j < |rows| && (rows[j].userId, rows[j].movieId) == k;
  }

  /** The map view holds every row's key with that row's rating. */
  lemma RowKey(rows: seq<Row>, j: nat)
    requires UniqueKeys(rows) && j < |rows|
    ensures (rows[j].userId, rows[j].movieId) in AsMap(rows)
    ensures AsMap(rows)[(rows[j].userId, rows[j].movieId)] == rows[j].rating
  {
    AsMapSpec(rows);
  }

  lemma RemoveRowSub(rows: seq<Row>, i: nat, k: (int, int))
    requires UniqueKeys(rows) && i < |rows| && UniqueKeys(rows[..i] + rows[i + 1..])
    requires k in AsMap(rows[..i] + rows[i + 1..])
    ensures k in AsMap(rows) && k != (rows[i].userId, rows[i].movieId)
    ensures AsMap(rows[..i] + rows[i + 1..])[k] == AsMap(rows)[k]
  {
    var rows' := rows[..i] + rows[i + 1..];
    var j := KeyRow(rows', k);
    var j' := if j < i then j else j + 1;
    assert rows'[j] == rows[j'];
    RowKey(rows, j');
  }

  lemma RemoveRowSuper(rows: seq<Row>, i: nat, k: (int, int))
    requires UniqueKeys(rows) && i < |rows| && UniqueKeys(rows[..i] + rows[i + 1..])
    requires k in AsMap(rows) && k != (rows[i].userId, rows[i].movieId)
    ensures k in AsMap(rows[..i] + rows[i + 1..])
  {
    var rows' := rows[..i] + rows[i + 1..];
    var j := KeyRow(rows, k);
    var j' := if j < i then j else j - 1;
    assert rows'[j'] == rows[j];
    RowKey(rows', j');
  }

  /** Delete is idempotent: a second delete finds nothing, answers 204 and changes nothing. */
  lemma DeleteIdempotent(rows: seq<Row>, movieId: nat)
    requires TableValid(rows)
    ensures var rows' := DeleteResult(rows, movieId, Committed).0;
      && DeleteResult(rows', movieId, Committed) == (rows', Reply(204, None))
      && GetRatingReply(rows', movieId).status == 404
  {
    var rows' := DeleteResult(rows, movieId, Committed).0;
    DeleteSpec(rows, movieId, Committed);
    AsMapSpec(rows');
  }

  /** The `ratings` table and the handlers over it. */
  class RatingsTable {
    var rows: seq<Row>

    constructor (rows: seq<Row>)
      ensures this.rows == rows
    {
      this.rows := rows;
    }

    /** GET /api/ratings/<movie_id>. */
    method GetRating(movieId: nat) returns (reply: Reply)
      ensures reply == GetRatingReply(rows, movieId)
      ensures reply.status == 200 <==> exists i | 0 <= i < |rows| :: Matches(rows[i], CurrentUser, movieId)
    {
      GetRatingSpec(rows, movieId);
      var found := Find(rows, CurrentUser, movieId);
      if found.Some? {
        var rating := rows[found.value];
        return Reply(200, Some(JObject(map["movie_id" := JInt(rating.movieId), "rating" := ToJson(rating.rating)])));
      }
      return Reply(404, Some(JObject(map["error" := JString("Rating not found"), "movie_id" := JInt(movieId)])));
    }

    /** GET /api/ratings/. */
    method GetAllRatings() returns (reply: Reply)
      ensures reply == GetAllReply(rows)
      ensures reply.status == 404 <==> forall i | 0 <= i < |rows| :: rows[i].userId != CurrentUser
    {
      GetAllSpec(rows);
      var ratings := RowsOf(rows, CurrentUser);
      if ratings == [] {
        return Reply(404, Some(ErrorBody("Ratings not found for this user")));
      }
      return Reply(200, Some(JArray(Dicts(ratings))));
    }

    /** PUT /api/ratings/<movie_id> with `body`, the commit behaving as `commit`. */
    method UpsertRate(movieId: nat, body: Option<Json>, commit: Commit) returns (reply: Reply)
      modifies this
      ensures (rows, reply) == UpsertResult(old(rows), movieId, body, commit)
      ensures TableValid(old(rows)) ==> TableValid(rows)
    {
      if TableValid(rows) {
        UpsertKeepsValid(rows, movieId, body, commit);
      }
      var checked := CheckBody(body);
      if checked.Reject? {
        return checked.reply;
      }
      var ratingValue := checked.value;
      var previous := Find(rows, CurrentUser, movieId);
      if commit == IntegrityFailure {
        return Reply(409, Some(ErrorBody("Conflict")));
      } else if commit == DatabaseFailure {
        return Reply(500, Some(ErrorBody("Database error")));
      }
      var rating: Row;
      var status: nat;
      if previous.Some? {
        rating := rows[previous.value].(rating := ratingValue);
        rows := rows[previous.value := rating];
        status := 200;
      } else {
        rating := Row(CurrentUser, movieId, ratingValue);
        rows := rows + [rating];
        status := 201;
      }
      reply := Reply(status, Some(ToDict(rating)));
    }

    /** DELETE /api/ratings/<movie_id>, the commit behaving as `commit`. */
    method DeleteRating(movieId: nat, commit: Commit) returns (reply: Reply)
      modifies this
      ensures (rows, reply) == DeleteResult(old(rows), movieId, commit)
    {
      var found := Find(rows, CurrentUser, movieId);
      if found.Some? {
        if commit != Committed {
          return Reply(500, None);
        }
        rows := rows[..found.value] + rows[found.value + 1..];
        return Reply(204, None);
      }
      return Reply(204, None);
    }
  }
}
