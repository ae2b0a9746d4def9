/**
 * The details-dialog hook: opening a movie loads its details and credits
 * together (abortable, tagged with a request number), then the user's
 * rating (not abortable); changing the rating is optimistic and rolls back
 * on failure; retry re-opens the last movie.
 */
module DetailsDialog {
  import opened Wrappers
  import opened Requests
  import opened Tmdb
  import opened ApiFetch
  import opened RatingsClient

  const LoadRatingError := "Não foi possível carregar sua avaliação."
  const SaveRatingError := "Não foi possível salvar sua avaliação. Tente novamente."

  /** A rating change awaiting its server answer: the value to roll back to, the value asked for, the movie. */
  datatype Save = Save(prev: Option<int>, rating: Option<int>, movieId: int)

  /**
   * The hook's state.  `requestId` is `requestIdRef.current`; `awaitingRating`
   * holds the opens whose details were applied and whose rating lookup is
   * pending; `saves` the rating changes awaiting an answer, by number.
   */
  datatype State = State(
    isDialogOpen: bool,
    selectedMovie: Option<MovieDetails>,
    cast: seq<CastMember>,
    isLoadingDetails: bool,
    isDetailsError: bool,
    lastMovieId: Option<int>,
    userRating: Option<int>,
    isSavingRating: bool,
    ratingError: Option<string>,
    handles: Handles,
    requestId: nat,
    awaitingRating: set<nat>,
    saves: map<nat, Save>,
    nextSave: nat)

  /** Controllers are numbered from 1, so that open number `n` owns controller `n`. */
  const Initial := State(false, None, [], false, false, None, None, false, None,
                         Handles(None, {}, {}, 1), 0, {}, map[], 0)

  ghost predicate Inv(s: State) {
    && s.handles.Valid()
    && s.handles.next == s.requestId + 1
    && (forall t | t in s.awaitingRating :: t <= s.requestId)
    && (forall k | k in s.saves :: k < s.nextSave)
  }

  /**
   * `openMovie(movieId)`: remember the movie, open the dialog in its loading
   * state with both errors cleared, abort the previous controller, install a
   * new one and take the next request number.  Returns the controller.
   */
  function OpenStep(s: State, movieId: int): (State, nat) {
    var h := s.handles.AbortCurrent();
    (s.(lastMovieId := Some(movieId), isDialogOpen := true, isLoadingDetails := true,
        isDetailsError := false, ratingError := None,
        handles := h.Install(), requestId := s.requestId + 1),
     h.next)
  }

  /** The request of open `t` is still the one that counts: not aborted and the latest. */
  predicate Live(s: State, t: nat) {
    t !in s.handles.aborted && t == s.requestId
  }

  /**
   * Details and credits of open `t` settle.  On success the movie and cast
   * are applied only when `t` is live, and the rating lookup starts; the
   * `finally` that clears loading then waits for that lookup.  On failure
   * an AbortError is ignored, any other failure sets the details error
   * whatever the request number, and loading is cleared if `t` is live.
   */
  function DetailsDoneStep(s: State, t: nat, outcome: Settled<(MovieDetails, seq<CastMember>)>): State {
    var h := s.handles.Resume(t);
    match outcome
    case Resolved((movie, credits)) =>
      if !Live(s, t) then s.(handles := h)
      else s.(selectedMovie := Some(movie), cast := credits, handles := h,
              awaitingRating := s.awaitingRating + {t})
    case Rejected(e) =>
      var s1 := if e.name == AbortError then s else s.(isDetailsError := true);
      s1.(isLoadingDetails := if Live(s, t) then false else s1.isLoadingDetails, handles := h)
  }

  /** `rating?.rating ?? null`. */
  function LookupRating(l: Lookup): Option<int> {
    match l
    case Found(dto) => dto.rating
    case _ => None
  }

  /**
   * The rating lookup of open `t` settles (its raw response given): it is
   * applied, or its failure reported, only when `t` is still the latest
   * request number; abort and close are not consulted.  Then the outer
   * `finally` clears loading if `t` is live.
   */
  function RatingDoneStep(s: State, t: nat, response: Settled<Response<RatingDto>>): State {
    var s1 := match GetRating(response)
      case Resolved(l) => if t == s.requestId then s.(userRating := LookupRating(l)) else s
      case Rejected(_) => if t == s.requestId then s.(ratingError := Some(LoadRatingError)) else s;
    s1.(isLoadingDetails := if Live(s, t) then false else s1.isLoadingDetails,
        awaitingRating := s.awaitingRating - {t})
  }

  /** `closeDialog()`: abort the current controller and reset the dialog; the request number stays. */
  function CloseStep(s: State): State {
    s.(handles := s.handles.AbortCurrent(), isDialogOpen := false, selectedMovie := None, cast := [],
       userRating := None, ratingError := None, isDetailsError := false, isLoadingDetails := false)
  }

  /**
   * `handleRatingChange(rating)`: nothing without a selected movie; else
   * the new rating is shown at once, saving starts, the rating error is
   * cleared, and a delete (for `null`) or an upsert is issued.  Returns the
   * save's number and the request.
   */
  function ChangeRatingStep(s: State, rating: Option<int>): (State, Option<(nat, Request)>) {
    match s.selectedMovie
    case None => (s, None)
    case Some(movie) =>
      var request := if rating.None? then DeleteRatingRequest(movie.id) else UpsertRatingRequest(movie.id, rating.value);
      (s.(userRating := rating, isSavingRating := true, ratingError := None,
          saves := s.saves[s.nextSave := Save(s.userRating, rating, movie.id)], nextSave := s.nextSave + 1),
       Some((s.nextSave, request)))
  }

  /**
   * What a save's answer makes of the rating: `Some(r)` when it succeeded
   * with `r` as the new rating (`null` after a delete, the saved DTO's rating
   * after an upsert), `None` when it threw.  An upsert answered with 204
   * has no DTO, so reading its rating throws a TypeError.
   */
  function SaveResult(rating: Option<int>, response: Settled<Response<RatingDto>>): Option<Option<int>> {
    if rating.None? then
      if DeleteRating(response).Resolved? then Some(None) else None
    else match UpsertRating(response)
      case Data(dto) => Some(dto.rating)
      case _ => None
  }

  /** Save `k` is answered: apply the result, or roll back to the previous rating with an error; saving ends. */
  function SaveDoneStep(s: State, k: nat, response: Settled<Response<RatingDto>>): State
    requires k in s.saves
  {
    var sv := s.saves[k];
    var s1 := match SaveResult(sv.rating, response)
      case Some(r) => s.(userRating := r)
      case None => s.(userRating := sv.prev, ratingError := Some(SaveRatingError));
    s1.(isSavingRating := false, saves := s.saves - {k})
  }

  /** `retry()`: re-open the last movie when its id is truthy (0 counts as never opened). */
  function RetryStep(s: State): (State, Option<nat>) {
    match s.lastMovieId
    case Some(v) => if v != 0 then var (s1, t) := OpenStep(s, v); (s1, Some(t)) else (s, None)
    case None => (s, None)
  }

  datatype Event =
    | Open(movieId: int)
    | DetailsDone(token: nat, details: Settled<(MovieDetails, seq<CastMember>)>)
    | RatingDone(token: nat, response: Settled<Response<RatingDto>>)
    | Close
    | ChangeRating(rating: Option<int>)
    | SaveDone(key: nat, response: Settled<Response<RatingDto>>)
    | Retry

  predicate Enabled(s: State, e: Event) {
    match e
    case DetailsDone(t, _) => t in s.handles.inFlight
    case RatingDone(t, _) => t in s.awaitingRating
    case SaveDone(k, _) => k in s.saves
    case _ => true
  }

  function Step(s: State, e: Event): State
    requires Enabled(s, e)
  {
    match e
    case Open(m) => OpenStep(s, m).0
    case DetailsDone(t, o) => DetailsDoneStep(s, t, o)
    case RatingDone(t, r) => RatingDoneStep(s, t, r)
    case Close => CloseStep(s)
    case ChangeRating(r) => ChangeRatingStep(s, r).0
    case SaveDone(k, r) => SaveDoneStep(s, k, r)
    case Retry => RetryStep(s).0
  }

  predicate Runnable(s: State, trace: seq<Event>)
    decreases |trace|
  {
    trace == [] || (Enabled(s, trace[0]) && Runnable(Step(s, trace[0]), trace[1..]))
  }

  function Run(s: State, trace: seq<Event>): State
    requires Runnable(s, trace)
    decreases |trace|
  {
    if trace == [] then s else Run(Step(s, trace[0]), trace[1..])
  }

  /** What the dialog shows of the movie. */
  function Shown(s: State): (Option<MovieDetails>, seq<CastMember>) {
    (s.selectedMovie, s.cast)
  }

  /** Events that take a new request number. */
  predicate Reopens(e: Event) {
    e.Open? || e.Retry?
  }

  /**
   * Each open takes the next request number and owns the controller of the
   * same number; every step keeps the numbering invariant.
   */
  lemma StepInv(s: State, e: Event)
    requires Inv(s) && Enabled(s, e)
    ensures Inv(Step(s, e))
    ensures e.Open? ==> OpenStep(s, e.movieId).1 == Step(s, e).requestId
    ensures !Reopens(e) ==> Step(s, e).requestId == s.requestId
  {
    match e {
      case Open(m) => OpenInv(s, m);
      case Retry =>
        if s.lastMovieId.Some? && s.lastMovieId.value != 0 {
          OpenInv(s, s.lastMovieId.value);
        }
      case DetailsDone(t, o) => DetailsDoneInv(s, t, o);
      case RatingDone(t, r) => RatingDoneInv(s, t, r);
      case Close =>
      case ChangeRating(r) => ChangeRatingInv(s, r);
      case SaveDone(k, r) => SaveDoneInv(s, k, r);
    }
  }

  lemma DetailsDoneInv(s: State, t: nat, outcome: Settled<(MovieDetails, seq<CastMember>)>)
    requires Inv(s) && t in s.handles.inFlight
    ensures Inv(DetailsDoneStep(s, t, outcome)) && DetailsDoneStep(s, t, outcome).requestId == s.requestId
  {
    assert t < s.handles.next;
  }

  lemma RatingDoneInv(s: State, t: nat, response: Settled<Response<RatingDto>>)
    requires Inv(s)
    ensures Inv(RatingDoneStep(s, t, response)) && RatingDoneStep(s, t, response).requestId == s.requestId
  {
    var s' := RatingDoneStep(s, t, response);
    assert s'.handles == s.handles && s'.saves == s.saves && s'.nextSave == s.nextSave;
  }

  lemma ChangeRatingInv(s: State, rating: Option<int>)
    requires Inv(s)
    ensures Inv(ChangeRatingStep(s, rating).0) && ChangeRatingStep(s, rating).0.requestId == s.requestId
  {
  }

  lemma SaveDoneInv(s: State, k: nat, response: Settled<Response<RatingDto>>)
    requires Inv(s) && k in s.saves
    ensures Inv(SaveDoneStep(s, k, response)) && SaveDoneStep(s, k, response).requestId == s.requestId
  {
    var s' := SaveDoneStep(s, k, response);
    assert s'.handles == s.handles && s'.awaitingRating == s.awaitingRating && s'.nextSave == s.nextSave;
  }

  lemma OpenInv(s: State, movieId: int)
    requires Inv(s)
    ensures Inv(OpenStep(s, movieId).0)
    ensures OpenStep(s, movieId).1 == OpenStep(s, movieId).0.requestId
  {
  }

  /**
   * One step other than an open changes the movie shown only by clearing it
   * (a close) or by applying the details of the latest open.
   */
  lemma StepShown(u: State, e: Event)
    requires Enabled(u, e) && !Reopens(e)
    ensures var u1 := Step(u, e);
      && u1.requestId == u.requestId
      && (|| Shown(u1) == Shown(u)
          || Shown(u1) == (None, [])
          || (e.DetailsDone? && e.token == u.requestId && e.details.Resolved?
              && Shown(u1) == (Some(e.details.value.0), e.details.value.1)))
  {
    match e {
      case DetailsDone(t, o) =>
      case RatingDone(t, r) =>
      case Close =>
      case ChangeRating(r) =>
      case SaveDone(k, r) =>
    }
  }

  /**
   * Between two opens, the movie and cast shown are those from before, the
   * empty ones of a close, or those fetched by the latest open `b`.
   */
  lemma {:induction false} OnlyLatestWrites(u: State, rest: seq<Event>)
    requires Runnable(u, rest)
    requires forall i | 0 <= i < |rest| :: !Reopens(rest[i])
    decreases |rest|
    ensures var f := Run(u, rest);
      || Shown(f) == Shown(u)
      || Shown(f) == (None, [])
      || exists i | 0 <= i < |rest| ::
           && rest[i].DetailsDone? && rest[i].token == u.requestId && rest[i].details.Resolved?
           && Shown(f) == (Some(rest[i].details.value.0), rest[i].details.value.1)
  {
    if rest != [] {
      var e := rest[0];
      var u1 := Step(u, e);
      StepShown(u, e);
      forall i | 0 <= i < |rest[1..]| ensures !Reopens(rest[1..][i]) {
        assert rest[1..][i] == rest[i + 1];
      }
      OnlyLatestWrites(u1, rest[1..]);
      var f := Run(u, rest);
      assert f == Run(u1, rest[1..]);
      if Shown(f) != Shown(u) && Shown(f) != (None, []) {
        if Shown(f) == Shown(u1) {
          assert rest[0] == e;
        } else {
          var i :| 0 <= i < |rest[1..]| && rest[1..][i].DetailsDone? && rest[1..][i].token == u1.requestId
            && rest[1..][i].details.Resolved?
            && Shown(f) == (Some(rest[1..][i].details.value.0), rest[1..][i].details.value.1);
          assert rest[i + 1] == rest[1..][i];
        }
      }
    }
  }

  /**
   * The latest open wins: after opening a movie, until the next open or
   * retry, the dialog shows what it showed before, nothing (after a close),
   * or the details and credits fetched by this very open, never those of
   * an earlier one.
   */
  lemma LatestOpenWins(s: State, movieId: int, rest: seq<Event>)
    requires Inv(s)
    requires Runnable(OpenStep(s, movieId).0, rest)
    requires forall i | 0 <= i < |rest| :: !Reopens(rest[i])
    ensures var (s1, b) := OpenStep(s, movieId);
      var f := Run(s1, rest);
      || Shown(f) == Shown(s)
      || Shown(f) == (None, [])
      || exists i | 0 <= i < |rest| ::
           && rest[i].DetailsDone? && rest[i].token == b && rest[i].details.Resolved?
           && Shown(f) == (Some(rest[i].details.value.0), rest[i].details.value.1)
  {
    var (s1, b) := OpenStep(s, movieId);
    StepInv(s, Open(movieId));
    OnlyLatestWrites(s1, rest);
  }

  /**
   * The rating lookup ignores aborts: its result is applied, or its failure
   * reported, exactly when its open is still the latest, even after the
   * dialog was closed (closing does not change the request number).  It
   * never touches the movie or the cast, and loading is cleared only when
   * the open is live, aborted or not being consulted there.
   */
  lemma RatingIgnoresAbort(s: State, t: nat, response: Settled<Response<RatingDto>>)
    ensures var s' := RatingDoneStep(s, t, response);
      && (GetRating(response).Resolved? ==>
            && s'.userRating == (if t == s.requestId then LookupRating(GetRating(response).value) else s.userRating)
            && s'.ratingError == s.ratingError)
      && (GetRating(response).Rejected? ==>
            && s'.userRating == s.userRating
            && s'.ratingError == (if t == s.requestId then Some(LoadRatingError) else s.ratingError))
      && Shown(s') == Shown(s)
      && s'.isLoadingDetails == (if Live(s, t) then false else s.isLoadingDetails)
      && t !in s'.awaitingRating
    ensures CloseStep(s).requestId == s.requestId
  {
  }

  /**
   * What the details of open `t` may write when they settle: the details
   * error only on a failure other than an abort, whatever the request
   * number; the movie and cast only from a successful fetch of the live
   * open; loading only when `t` is live, and then it ends off.  A success
   * leaves loading to the rating lookup it starts.
   */
  lemma DetailsDoneEffects(s: State, t: nat, outcome: Settled<(MovieDetails, seq<CastMember>)>)
    ensures var d := DetailsDoneStep(s, t, outcome);
      && (d.isDetailsError <==> s.isDetailsError || (outcome.Rejected? && outcome.error.name != AbortError))
      && (Shown(d) != Shown(s) ==> Live(s, t) && outcome.Resolved?
                                   && Shown(d) == (Some(outcome.value.0), outcome.value.1))
      && (d.isLoadingDetails != s.isLoadingDetails ==> Live(s, t) && !d.isLoadingDetails)
      && (outcome.Rejected? && Live(s, t) ==> !d.isLoadingDetails)
      && (outcome.Resolved? ==> d.isLoadingDetails == s.isLoadingDetails)
      && d.userRating == s.userRating && d.ratingError == s.ratingError
  {
    match outcome {
      case Resolved(v) =>
      case Rejected(e) =>
    }
  }

  /**
   * What the rating lookup of open `t` may write: loading only when `t` is
   * live, and then it ends off; the rating and the lookup error only when
   * `t` is the latest request number; never the movie, cast or details error.
   */
  lemma RatingDoneEffects(s: State, t: nat, response: Settled<Response<RatingDto>>)
    ensures var r := RatingDoneStep(s, t, response);
      && (r.isLoadingDetails != s.isLoadingDetails ==> Live(s, t) && !r.isLoadingDetails)
      && (r.ratingError != s.ratingError ==> t == s.requestId && r.ratingError == Some(LoadRatingError))
      && (r.userRating != s.userRating ==> t == s.requestId)
      && Shown(r) == Shown(s) && r.isDetailsError == s.isDetailsError
  {
    match GetRating(response) {
      case Resolved(l) =>
      case Rejected(e) =>
    }
  }

  /**
   * A concrete run of that quirk: open a movie, receive its details, close
   * the dialog, then receive the stored rating 4: the closed dialog now holds
   * rating 4, and loading stays off.
   */
  lemma RatingAppliedAfterClose(s: State, movieId: int, movie: MovieDetails, credits: seq<CastMember>)
    requires Inv(s)
    ensures var (s1, b) := OpenStep(s, movieId);
      var s2 := DetailsDoneStep(s1, b, Resolved((movie, credits)));
      var s3 := CloseStep(s2);
      var s4 := RatingDoneStep(s3, b, Resolved(Response(200, Json(RatingDto(Some(movieId), Some(4)), None))));
      && b in s1.handles.inFlight && b in s2.awaitingRating && b in s3.awaitingRating
      && !s3.isDialogOpen && s3.userRating == None
      && !s4.isDialogOpen && s4.userRating == Some(4) && !s4.isLoadingDetails
  {
    var (s1, b) := OpenStep(s, movieId);
    StepInv(s, Open(movieId));
    assert Live(s1, b);
  }

  /**
   * A failure of the details of an earlier, superseded open still sets the
   * details error (only AbortError is filtered), while the latest open's
   * loading indicator stays on.
   */
  lemma StaleDetailsFailureSetsError(s: State, first: int, second: int)
    requires Inv(s)
    ensures var (s1, a) := OpenStep(s, first);
      var (s2, b) := OpenStep(s1, second);
      var s3 := DetailsDoneStep(s2, a, Rejected(Thrown(TypeError, "Failed to fetch")));
      && a != b && a in s2.handles.inFlight
      && s3.isDetailsError && s3.isLoadingDetails && s3.requestId == b
  {
    var (s1, a) := OpenStep(s, first);
    StepInv(s, Open(first));
    StepInv(s1, Open(second));
  }

  /**
   * The optimistic rating change: the asked-for rating shows at once; when
   * the save fails the previous rating comes back with the save error, and
   * when it succeeds the rating is the server's (`null` after a delete).
   * An upsert answered with 204 counts as a failure.
   */
  lemma OptimisticRollback(s: State, rating: Option<int>, response: Settled<Response<RatingDto>>)
    requires s.selectedMovie.Some?
    ensures var (s1, issued) := ChangeRatingStep(s, rating);
      && issued.Some? && issued.value.0 in s1.saves
      && s1.userRating == rating && s1.isSavingRating && s1.ratingError == None
      && var s2 := SaveDoneStep(s1, issued.value.0, response);
      && !s2.isSavingRating
      && (SaveResult(rating, response).None? ==> s2.userRating == s.userRating && s2.ratingError == Some(SaveRatingError))
      && (SaveResult(rating, response).Some? ==> s2.userRating == SaveResult(rating, response).value && s2.ratingError == None)
    ensures rating.None? ==> (SaveResult(rating, response).None? <==> Fetch(response).Threw?)
    ensures rating.Some? ==> (SaveResult(rating, response).None? <==> !Fetch(response).Data?)
    ensures rating.Some? && response.Resolved? && response.value.status == 204 ==> SaveResult(rating, response).None?
  {
  }

  /**
   * Clearing a rating whose delete fails: a rating of 3 is cleared, the
   * delete answers with a server error, and the rating 3 is shown again
   * with the save error.
   */
  lemma ClearThenFailRestores(s: State)
    requires s.selectedMovie.Some? && s.userRating == Some(3)
    ensures var (s1, issued) := ChangeRatingStep(s, None);
      && issued.Some? && s1.userRating == None
      && issued.value.1 == DeleteRatingRequest(s.selectedMovie.value.id)
      && var s2 := SaveDoneStep(s1, issued.value.0, Rejected(Thrown(PlainError, "HTTP 500")));
      s2.userRating == Some(3) && s2.ratingError == Some(SaveRatingError)
  {
    OptimisticRollback(s, None, Rejected(Thrown(PlainError, "HTTP 500")));
  }

  /** Without a selected movie a rating change does nothing and issues nothing. */
  lemma ChangeWithoutMovieIgnored(s: State, rating: Option<int>)
    ensures s.selectedMovie.None? <==> ChangeRatingStep(s, rating) == (s, None)
  {
    if s.selectedMovie.Some? {
      assert ChangeRatingStep(s, rating).1.Some?;
    }
  }

  /** Retry re-opens the last movie exactly when its id is truthy; an id of 0 behaves as none. */
  lemma RetryTruthy(s: State)
    ensures RetryStep(s).1.Some? <==> s.lastMovieId.Some? && s.lastMovieId.value != 0
    ensures RetryStep(s).1.Some? ==> RetryStep(s) == (OpenStep(s, s.lastMovieId.value).0, Some(OpenStep(s, s.lastMovieId.value).1))
    ensures RetryStep(s).1.None? ==> RetryStep(s).0 == s
  {
  }

  /** The hook's state, its refs and its pending continuations. */
  class DialogHook {
    var isDialogOpen: bool
    var selectedMovie: Option<MovieDetails>
    var cast: seq<CastMember>
    var isLoadingDetails: bool
    var isDetailsError: bool
    var lastMovieId: Option<int>
    var userRating: Option<int>
    var isSavingRating: bool
    var ratingError: Option<string>
    var abortRef: Handles
    var requestIdRef: nat
    var awaitingRating: set<nat>
    var saves: map<nat, Save>
    var nextSave: nat

    function Snapshot(): State
      reads this
    {
      State(isDialogOpen, selectedMovie, cast, isLoadingDetails, isDetailsError, lastMovieId,
            userRating, isSavingRating, ratingError, abortRef, requestIdRef, awaitingRating, saves, nextSave)
    }

    constructor ()
      ensures Snapshot() == Initial
    {
      isDialogOpen, selectedMovie, cast, isLoadingDetails, isDetailsError := false, None, [], false, false;
      lastMovieId, userRating, isSavingRating, ratingError := None, None, false, None;
      abortRef, requestIdRef, awaitingRating, saves, nextSave := Handles(None, {}, {}, 1), 0, {}, map[], 0;
    }

    /** `openMovie(movieId)`; returns the new controller. */
    method OpenMovie(movieId: int) returns (controller: nat)
      modifies this
      ensures (Snapshot(), controller) == OpenStep(old(Snapshot()), movieId)
    {
      lastMovieId := Some(movieId);
      isDialogOpen := true;
      isLoadingDetails := true;
      isDetailsError := false;
      ratingError := None;
      abortRef := abortRef.AbortCurrent();
      controller := abortRef.next;
      abortRef := abortRef.Install();
      requestIdRef := requestIdRef + 1;
    }

    /** The awaited details and credits of open `t` settle. */
    method DetailsDone(t: nat, outcome: Settled<(MovieDetails, seq<CastMember>)>)
      requires t in abortRef.inFlight
      modifies this
      ensures Snapshot() == DetailsDoneStep(old(Snapshot()), t, outcome)
    {
      var live := t !in abortRef.aborted && t == requestIdRef;
      abortRef := abortRef.Resume(t);
      match outcome {
        case Resolved(pair) =>
          if live {
            selectedMovie := Some(pair.0);
            cast := pair.1;
            awaitingRating := awaitingRating + {t};
          }
        case Rejected(err) =>
          if err.name != AbortError {
            isDetailsError := true;
          }
          if live {
            isLoadingDetails := false;
          }
      }
    }

    /** The awaited rating lookup of open `t` settles with the raw `response`. */
    method RatingDone(t: nat, response: Settled<Response<RatingDto>>)
      requires t in awaitingRating
      modifies this
      ensures Snapshot() == RatingDoneStep(old(Snapshot()), t, response)
    {
      match GetRating(response) {
        case Resolved(lookup) =>
          if t == requestIdRef {
            userRating := LookupRating(lookup);
          }
        case Rejected(_) =>
          if t == requestIdRef {
            ratingError := Some(LoadRatingError);
          }
      }
      if t !in abortRef.aborted && t == requestIdRef {
        isLoadingDetails := false;
      }
      awaitingRating := awaitingRating - {t};
    }

    /** `closeDialog()`. */
    method CloseDialog()
      modifies this
      ensures Snapshot() == CloseStep(old(Snapshot()))
    {
      abortRef := abortRef.AbortCurrent();
      isDialogOpen := false;
      selectedMovie := None;
      cast := [];
      userRating := None;
      ratingError := None;
      isDetailsError := false;
      isLoadingDetails := false;
    }

    /** `handleRatingChange(rating)`; returns the save's number and its request, if any. */
    method HandleRatingChange(rating: Option<int>) returns (issued: Option<(nat, Request)>)
      modifies this
      ensures (Snapshot(), issued) == ChangeRatingStep(old(Snapshot()), rating)
    {
      if selectedMovie.None? {
        return None;
      }
      var movieId := selectedMovie.value.id;
      saves := saves[nextSave := Save(userRating, rating, movieId)];
      userRating := rating;
      isSavingRating := true;
      ratingError := None;
      var request := if rating.None? then DeleteRatingRequest(movieId) else UpsertRatingRequest(movieId, rating.value);
      issued := Some((nextSave, request));
      nextSave := nextSave + 1;
    }

    /** Save `k` is answered with `response`. */
    method SaveDone(k: nat, response: Settled<Response<RatingDto>>)
      requires k in saves
      modifies this
      ensures Snapshot() == SaveDoneStep(old(Snapshot()), k, response)
    {
      var sv := saves[k];
      match SaveResult(sv.rating, response) {
        case Some(r) => userRating := r;
        case None =>
          userRating := sv.prev;
          ratingError := Some(SaveRatingError);
      }
      isSavingRating := false;
      saves := saves - {k};
    }

    /** `retry()`; returns the controller of the re-open, if any. */
    method Retry() returns (controller: Option<nat>)
      modifies this
      ensures (Snapshot(), controller) == RetryStep(old(Snapshot()))
    {
      if lastMovieId.Some? && lastMovieId.value != 0 {
        var c := OpenMovie(lastMovieId.value);
        controller := Some(c);
      } else {
        controller := None;
      }
    }
  }
}
