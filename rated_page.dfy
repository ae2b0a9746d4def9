/**
 * The rated-movies page: for the user's ratings it fetches every movie's
 * details at once, keeps the fetches that succeeded (in rating order, each
 * with its rating) and warns once when any failed; after a rating change in
 * the dialog it reconciles both lists locally, which changes the ratings
 * and so resolves the movies again.
 */
module RatedPage {
  import opened Wrappers
  import opened Requests
  import opened Tmdb
  import opened ApiFetch
  import opened RatingsClient
  import opened UserRatings
  import DetailsDialog

  const ResolveError := "Não foi possível carregar alguns filmes avaliados."

  /** A movie's details together with the user's rating of it. */
  datatype RatedMovie = RatedMovie(details: MovieDetails, userRating: int)

  // ---------------------------------------------------------------------
  // The fan-out partition
  // ---------------------------------------------------------------------

  /**
   * The fulfilled detail fetches, in order, each paired with the rating of
   * the entry it was fetched for (`results[i]` answers `ratings[i]`).
   */
  function Fulfilled(ratings: seq<UserRating>, results: seq<Settled<MovieDetails>>): (r: seq<RatedMovie>)
    requires |ratings| == |results|
    ensures |r| <= |results|
  {
    if results == [] then []
    else
      var n := |results| - 1;
      Fulfilled(ratings[..n], results[..n])
      + (if results[n].Resolved? then [RatedMovie(results[n].value, ratings[n].rating)] else [])
  }

  /** The positions of the fulfilled fetches, in increasing order. */
  function FulfilledPositions(results: seq<Settled<MovieDetails>>): (idx: seq<nat>)
    ensures |idx| <= |results|
  {
    if results == [] then []
    else
      var n := |results| - 1;
      FulfilledPositions(results[..n]) + (if results[n].Resolved? then [n] else [])
  }

  predicate HasRejected(results: seq<Settled<MovieDetails>>) {
    exists i | 0 <= i < |results| :: results[i].Rejected?
  }

  /**
   * The partition keeps exactly the fulfilled fetches, in the order of the
   * ratings: the k-th movie is the value of the k-th fulfilled fetch, with
   * the rating of the entry it answered; no fulfilled fetch is dropped.
   */
  lemma FulfilledInOrder(ratings: seq<UserRating>, results: seq<Settled<MovieDetails>>)
    requires |ratings| == |results|
    ensures var r := Fulfilled(ratings, results);
      var idx := FulfilledPositions(results);
      && |r| == |idx|
      && (forall k | 0 <= k < |idx| ::
            && idx[k] < |results| && results[idx[k]].Resolved?
            && r[k] == RatedMovie(results[idx[k]].value, ratings[idx[k]].rating))
      && (forall i | 0 <= i < |results| && results[i].Resolved? :: i in idx)
      && (forall k, l | 0 <= k < l < |idx| :: idx[k] < idx[l])
  {
    FulfilledValues(ratings, results);
    PositionsComplete(results);
    PositionsIncreasing(results);
  }

  /** Every recorded position is a fulfilled fetch. */
  lemma {:induction false} PositionsValid(results: seq<Settled<MovieDetails>>)
    ensures forall k | 0 <= k < |FulfilledPositions(results)| ::
      FulfilledPositions(results)[k] < |results| && results[FulfilledPositions(results)[k]].Resolved?
  {
    if results != [] {
      var n := |results| - 1;
      PositionsValid(results[..n]);
      var p := FulfilledPositions(results[..n]);
      var idx := FulfilledPositions(results);
      assert idx == p + (if results[n].Resolved? then [n] else []);
      forall k | 0 <= k < |idx| ensures idx[k] < |results| && results[idx[k]].Resolved? {
        if k < |p| {
          assert idx[k] == p[k] && p[k] < n;
          assert results[..n][p[k]] == results[p[k]];
        } else {
          assert idx[k] == n && results[n].Resolved?;
        }
      }
    }
  }

  /** Every fulfilled fetch has its position recorded. */
  lemma {:induction false} PositionsComplete(results: seq<Settled<MovieDetails>>)
    ensures forall i | 0 <= i < |results| && results[i].Resolved? :: i in FulfilledPositions(results)
  {
    if results != [] {
      var n := |results| - 1;
      PositionsComplete(results[..n]);
      forall i | 0 <= i < |results| && results[i].Resolved? ensures i in FulfilledPositions(results) {
        if i < n {
          assert results[..n][i] == results[i];
          assert i in FulfilledPositions(results[..n]);
        }
      }
    }
  }

  /** The positions are recorded in increasing order. */
  lemma {:induction false} PositionsIncreasing(results: seq<Settled<MovieDetails>>)
    ensures forall k, l | 0 <= k < l < |FulfilledPositions(results)| ::
      FulfilledPositions(results)[k] < FulfilledPositions(results)[l]
  {
    if results != [] {
      var n := |results| - 1;
      PositionsIncreasing(results[..n]);
      PositionsValid(results[..n]);
      var p := FulfilledPositions(results[..n]);
      var idx := FulfilledPositions(results);
      assert idx == p + (if results[n].Resolved? then [n] else []);
      forall k, l | 0 <= k < l < |idx| ensures idx[k] < idx[l] {
        assert k < |p| && idx[k] == p[k];
        assert p[k] < |results[..n]|;
        if l < |p| {
          assert idx[l] == p[l] && p[k] < p[l];
        } else {
          assert idx[l] == n;
        }
      }
    }
  }

  /** The k-th resolved movie is the fetch at the k-th fulfilled position, with its entry's rating. */
  lemma {:induction false} FulfilledValues(ratings: seq<UserRating>, results: seq<Settled<MovieDetails>>)
    requires |ratings| == |results|
    ensures var r := Fulfilled(ratings, results);
      var idx := FulfilledPositions(results);
      && |r| == |idx|
      && forall k | 0 <= k < |idx| ::
           && idx[k] < |results| && results[idx[k]].Resolved?
           && r[k] == RatedMovie(results[idx[k]].value, ratings[idx[k]].rating)
  {
    PositionsValid(results);
    if results != [] {
      var n := |results| - 1;
      FulfilledValues(ratings[..n], results[..n]);
      var p := FulfilledPositions(results[..n]);
      var r0 := Fulfilled(ratings[..n], results[..n]);
      var r := Fulfilled(ratings, results);
      var idx := FulfilledPositions(results);
      forall k | 0 <= k < |idx| ensures r[k] == RatedMovie(results[idx[k]].value, ratings[idx[k]].rating) {
        if k < |p| {
          assert r[k] == r0[k] && idx[k] == p[k];
          assert results[..n][p[k]] == results[p[k]] && ratings[..n][p[k]] == ratings[p[k]];
        }
      }
    }
  }

  /** Some fetch was rejected exactly when fewer movies than ratings come out. */
  lemma {:induction false} RejectedIffFewer(ratings: seq<UserRating>, results: seq<Settled<MovieDetails>>)
    requires |ratings| == |results|
    ensures HasRejected(results) <==> |Fulfilled(ratings, results)| < |results|
  {
    if results != [] {
      var n := |results| - 1;
      RejectedIffFewer(ratings[..n], results[..n]);
      assert forall i | 0 <= i < n :: results[..n][i] == results[i];
      if HasRejected(results[..n]) {
        var i :| 0 <= i < n && results[..n][i].Rejected?;
        assert results[i].Rejected?;
      }
    }
  }

  // ---------------------------------------------------------------------
  // The reconciliation updaters
  // ---------------------------------------------------------------------

  /** `list.filter(keep)`. */
  function Filter<T(!new)>(s: seq<T>, keep: T -> bool): (r: seq<T>)
    ensures |r| <= |s|
    ensures forall x :: x in r <==> x in s && keep(x)
  {
    if s == [] then [] else (if keep(s[0]) then [s[0]] else []) + Filter(s[1..], keep)
  }

  /** Filtering keeps relative order: it distributes over concatenation. */
  lemma {:induction false} FilterConcat<T(!new)>(a: seq<T>, b: seq<T>, keep: T -> bool)
    ensures Filter(a + b, keep) == Filter(a, keep) + Filter(b, keep)
  {
    if a != [] {
      assert (a + b)[1..] == a[1..] + b;
      FilterConcat(a[1..], b, keep);
    } else {
      assert a + b == b;
    }
  }

  /** `list.map(x => hit(x) ? change(x) : x)`. */
  function UpdateWhere<T>(s: seq<T>, hit: T -> bool, change: T -> T): (r: seq<T>)
    ensures |r| == |s|
    ensures forall i | 0 <= i < |s| :: r[i] == if hit(s[i]) then change(s[i]) else s[i]
  {
    if s == [] then [] else [if hit(s[0]) then change(s[0]) else s[0]] + UpdateWhere(s[1..], hit, change)
  }

  /** Delete: drop every rating of the movie. */
  function DeleteRatings(ratings: seq<UserRating>, id: int): seq<UserRating> {
    Filter(ratings, (r: UserRating) => r.movieId != id)
  }

  /** Delete: drop every card of the movie. */
  function DeleteMovies(movies: seq<RatedMovie>, id: int): seq<RatedMovie> {
    Filter(movies, (m: RatedMovie) => m.details.id != id)
  }

  predicate HasRating(ratings: seq<UserRating>, id: int) {
    exists i | 0 <= i < |ratings| :: ratings[i].movieId == id
  }

  predicate HasMovie(movies: seq<RatedMovie>, id: int) {
    exists i | 0 <= i < |movies| :: movies[i].details.id == id
  }

  /** Upsert: prepend a new rating when the movie has none, else change the rating of its entries. */
  function UpsertRatings(ratings: seq<UserRating>, id: int, rating: int): seq<UserRating> {
    if !HasRating(ratings, id) then [UserRating(id, rating)] + ratings
    else UpdateWhere(ratings, (r: UserRating) => r.movieId == id, (r: UserRating) => r.(rating := rating))
  }

  /** Upsert: prepend the dialog's movie when it has no card, else change the rating on its cards. */
  function UpsertMovies(movies: seq<RatedMovie>, movie: MovieDetails, rating: int): seq<RatedMovie> {
    if !HasMovie(movies, movie.id) then [RatedMovie(movie, rating)] + movies
    else UpdateWhere(movies, (m: RatedMovie) => m.details.id == movie.id, (m: RatedMovie) => m.(userRating := rating))
  }

  /**
   * Delete reconciliation removes every entry of the movie from both lists
   * and keeps every other entry, in the same relative order; a movie
   * without a rating leaves the ratings as they were.
   */
  lemma DeleteReconciles(ratings: seq<UserRating>, movies: seq<RatedMovie>, id: int, cut: nat)
    requires cut <= |ratings|
    ensures !HasRating(DeleteRatings(ratings, id), id) && !HasMovie(DeleteMovies(movies, id), id)
    ensures forall r :: r in DeleteRatings(ratings, id) <==> r in ratings && r.movieId != id
    ensures forall m :: m in DeleteMovies(movies, id) <==> m in movies && m.details.id != id
    ensures DeleteRatings(ratings, id) == DeleteRatings(ratings[..cut], id) + DeleteRatings(ratings[cut..], id)
    ensures !HasRating(ratings, id) ==> DeleteRatings(ratings, id) == ratings
  {
    DeleteRemoves(ratings, movies, id);
    assert ratings == ratings[..cut] + ratings[cut..];
    FilterConcat(ratings[..cut], ratings[cut..], (r: UserRating) => r.movieId != id);
    if !HasRating(ratings, id) {
      FilterKeepsAll(ratings, (r: UserRating) => r.movieId != id);
    }
  }

  lemma DeleteRemoves(ratings: seq<UserRating>, movies: seq<RatedMovie>, id: int)
    ensures !HasRating(DeleteRatings(ratings, id), id) && !HasMovie(DeleteMovies(movies, id), id)
  {
    var r := DeleteRatings(ratings, id);
    forall i | 0 <= i < |r| ensures r[i].movieId != id {
      assert r[i] in r;
    }
    var ms := DeleteMovies(movies, id);
    forall i | 0 <= i < |ms| ensures ms[i].details.id != id {
      assert ms[i] in ms;
    }
  }

  lemma {:induction false} FilterKeepsAll<T(!new)>(s: seq<T>, keep: T -> bool)
    requires forall i | 0 <= i < |s| :: keep(s[i])
    ensures Filter(s, keep) == s
  {
    if s != [] {
      assert keep(s[0]);
      FilterKeepsAll(s[1..], keep);
    }
  }

  /**
   * Upsert reconciliation: for a movie without a rating the new entry is
   * prepended and the rest is unchanged; otherwise the list keeps its
   * length and its movies, and only the matching entries take the new
   * rating.  Either way the movie ends up rated `rating`, and repeating the
   * upsert changes nothing.
   */
  lemma UpsertReconcilesRatings(ratings: seq<UserRating>, id: int, rating: int)
    ensures var r := UpsertRatings(ratings, id, rating);
      && (!HasRating(ratings, id) ==> r == [UserRating(id, rating)] + ratings)
      && (HasRating(ratings, id) ==>
            && |r| == |ratings|
            && forall i | 0 <= i < |r| ::
                 r[i].movieId == ratings[i].movieId
                 && r[i].rating == (if ratings[i].movieId == id then rating else ratings[i].rating))
      && HasRating(r, id)
      && (forall i | 0 <= i < |r| && r[i].movieId == id :: r[i].rating == rating)
      && UpsertRatings(r, id, rating) == r
  {
    var r := UpsertRatings(ratings, id, rating);
    if !HasRating(ratings, id) {
      assert r[0].movieId == id;
    } else {
      var j :| 0 <= j < |ratings| && ratings[j].movieId == id;
      assert r[j].movieId == id;
    }
    assert HasRating(r, id);
    var r2 := UpsertRatings(r, id, rating);
    assert |r2| == |r|;
    forall i | 0 <= i < |r| ensures r2[i] == r[i] {
    }
  }

  /** The same for the cards: a new card carries the dialog's movie; an existing card keeps its own details. */
  lemma UpsertReconcilesMovies(movies: seq<RatedMovie>, movie: MovieDetails, rating: int)
    ensures var r := UpsertMovies(movies, movie, rating);
      && (!HasMovie(movies, movie.id) ==> r == [RatedMovie(movie, rating)] + movies)
      && (HasMovie(movies, movie.id) ==>
            && |r| == |movies|
            && forall i | 0 <= i < |r| ::
                 r[i].details == movies[i].details
                 && r[i].userRating == (if movies[i].details.id == movie.id then rating else movies[i].userRating))
      && HasMovie(r, movie.id)
      && (forall i | 0 <= i < |r| && r[i].details.id == movie.id :: r[i].userRating == rating)
  {
    var r := UpsertMovies(movies, movie, rating);
    if !HasMovie(movies, movie.id) {
      assert r[0].details.id == movie.id;
    } else {
      var j :| 0 <= j < |movies| && movies[j].details.id == movie.id;
      assert r[j].details.id == movie.id;
    }
  }

  // ---------------------------------------------------------------------
  // The page's state and its resolution effect
  // ---------------------------------------------------------------------

  /**
   * The page: the ratings it shows (the user-ratings hook's list), the
   * resolved movies and their flags, the resolutions still awaiting their
   * details (by number, with the ratings they were started for), and the
   * one whose `cancelled` flag is still false.
   */
  datatype Page = Page(
    ratings: seq<UserRating>,
    movies: seq<RatedMovie>,
    isResolvingMovies: bool,
    resolveError: Option<string>,
    pending: map<nat, seq<UserRating>>,
    live: Option<nat>,
    nextResolution: nat)

  const InitialPage := Page([], [], false, None, map[], None, 0)

  /** The loading flag is on exactly while the live resolution is still pending. */
  ghost predicate PageInv(p: Page) {
    && (p.isResolvingMovies <==> p.live.Some? && p.live.value in p.pending)
    && (forall k | k in p.pending :: k < p.nextResolution)
    && (p.live.Some? ==> p.live.value < p.nextResolution)
  }

  /**
   * The effect on a new ratings array, as written: the previous run's
   * cleanup cancels its resolution; an empty list only clears the movies;
   * otherwise a resolution starts, with loading on and the error cleared.
   */
  function EffectAsWritten(p: Page): (Page, Option<nat>) {
    var p0 := p.(live := None);
    if |p.ratings| == 0 then (p0.(movies := []), None)
    else
      var k := p.nextResolution;
      (p0.(isResolvingMovies := true, resolveError := None, pending := p.pending[k := p.ratings],
           live := Some(k), nextResolution := k + 1),
       Some(k))
  }

  /** The effect with the loading flag also cleared for an empty list. */
  function Effect(p: Page): (r: (Page, Option<nat>))
    ensures |p.ratings| == 0 ==> !r.0.isResolvingMovies && r.0.movies == [] && r.1.None?
    ensures |p.ratings| > 0 ==> r.0.isResolvingMovies && r.1 == Some(p.nextResolution)
                                && p.nextResolution in r.0.pending && r.0.pending[p.nextResolution] == p.ratings
  {
    var (p1, k) := EffectAsWritten(p);
    if |p.ratings| == 0 then (p1.(isResolvingMovies := false), k) else (p1, k)
  }

  /**
   * `setRatings(list)` (a fetch or a reconciliation): a new array, so the
   * effect runs again.  This and every page step after it run the
   * corrected `Effect`; `EffectAsWritten` is the program's own, used by the
   * lemmas that exhibit its stuck loading flag.
   */
  function RatingsChangedStep(p: Page, list: seq<UserRating>): (Page, Option<nat>) {
    Effect(p.(ratings := list))
  }

  /**
   * Resolution `k` has all its detail fetches settled.  A cancelled one
   * writes nothing, not even the loading flag; otherwise the movies become
   * the fulfilled fetches, the warning is set when any fetch failed, and
   * loading ends.
   */
  function ResolvedStep(p: Page, k: nat, results: seq<Settled<MovieDetails>>): Page
    requires k in p.pending && |results| == |p.pending[k]|
  {
    if p.live != Some(k) then p.(pending := p.pending - {k})
    else p.(movies := Fulfilled(p.pending[k], results),
            resolveError := if HasRejected(results) then Some(ResolveError) else p.resolveError,
            isResolvingMovies := false,
            pending := p.pending - {k})
  }

  /**
   * `onRatingChange(rating)` after the dialog's own handler returned (which
   * it always does, save failed or not): with a selected movie, delete or
   * upsert it in both lists; the new ratings array re-runs the (corrected) effect.
   */
  function ReconcileStep(p: Page, selected: Option<MovieDetails>, rating: Option<int>): (Page, Option<nat>) {
    match selected
    case None => (p, None)
    case Some(movie) =>
      if rating.None? then
        Effect(p.(ratings := DeleteRatings(p.ratings, movie.id), movies := DeleteMovies(p.movies, movie.id)))
      else
        Effect(p.(ratings := UpsertRatings(p.ratings, movie.id, rating.value),
                  movies := UpsertMovies(p.movies, movie, rating.value)))
  }

  datatype PageEvent =
    | RatingsChanged(list: seq<UserRating>)
    | Resolved(key: nat, results: seq<Settled<MovieDetails>>)
    | RatingChange(selected: Option<MovieDetails>, rating: Option<int>)

  predicate PageEnabled(p: Page, e: PageEvent) {
    e.Resolved? ==> e.key in p.pending && |e.results| == |p.pending[e.key]|
  }

  function PageStep(p: Page, e: PageEvent): Page
    requires PageEnabled(p, e)
  {
    match e
    case RatingsChanged(list) => RatingsChangedStep(p, list).0
    case Resolved(k, results) => ResolvedStep(p, k, results)
    case RatingChange(selected, rating) => ReconcileStep(p, selected, rating).0
  }

  predicate PageRunnable(p: Page, trace: seq<PageEvent>)
    decreases |trace|
  {
    trace == [] || (PageEnabled(p, trace[0]) && PageRunnable(PageStep(p, trace[0]), trace[1..]))
  }

  function PageRun(p: Page, trace: seq<PageEvent>): Page
    requires PageRunnable(p, trace)
    decreases |trace|
  {
    if trace == [] then p else PageRun(PageStep(p, trace[0]), trace[1..])
  }

  lemma EffectInv(p: Page)
    requires PageInv(p)
    ensures PageInv(Effect(p).0)
  {
  }

  lemma PageStepInv(p: Page, e: PageEvent)
    requires PageInv(p) && PageEnabled(p, e)
    ensures PageInv(PageStep(p, e))
  {
    match e {
      case RatingsChanged(list) => EffectInv(p.(ratings := list));
      case Resolved(k, results) =>
      case RatingChange(selected, rating) =>
        if selected.Some? {
          var m := selected.value;
          if rating.None? {
            EffectInv(p.(ratings := DeleteRatings(p.ratings, m.id), movies := DeleteMovies(p.movies, m.id)));
          } else {
            EffectInv(p.(ratings := UpsertRatings(p.ratings, m.id, rating.value),
                         movies := UpsertMovies(p.movies, m, rating.value)));
          }
        }
    }
  }

  /**
   * Whatever happens, the loading flag is on exactly while the live
   * resolution is pending; in particular it always goes off once that
   * resolution settles.
   */
  lemma {:induction false} LoadingTracksLiveResolution(p: Page, trace: seq<PageEvent>)
    requires PageInv(p) && PageRunnable(p, trace)
    decreases |trace|
    ensures PageInv(PageRun(p, trace))
  {
    if trace != [] {
      PageStepInv(p, trace[0]);
      LoadingTracksLiveResolution(PageStep(p, trace[0]), trace[1..]);
    }
  }

  /**
   * A cancelled resolution writes nothing: neither the movies, nor the
   * warning, nor the loading flag.
   */
  lemma CancelledWritesNothing(p: Page, k: nat, results: seq<Settled<MovieDetails>>)
    requires k in p.pending && |results| == |p.pending[k]| && p.live != Some(k)
    ensures var p' := ResolvedStep(p, k, results);
      p'.movies == p.movies && p'.resolveError == p.resolveError && p'.isResolvingMovies == p.isResolvingMovies
  {
  }

  /**
   * The live resolution publishes the partition: the fulfilled movies in
   * order, and the warning exactly when a fetch failed (the warning was
   * cleared when the resolution started).
   */
  lemma LiveResolutionPublishes(p: Page, list: seq<UserRating>, results: seq<Settled<MovieDetails>>)
    requires |list| > 0 && |results| == |list|
    ensures var (p1, k) := RatingsChangedStep(p, list);
      && k.Some? && p1.live == k
      && var p2 := ResolvedStep(p1, k.value, results);
      && p2.movies == Fulfilled(list, results)
      && (p2.resolveError == Some(ResolveError) <==> HasRejected(results))
      && (p2.resolveError.None? <==> !HasRejected(results))
      && !p2.isResolvingMovies
  {
  }

  /**
   * An empty ratings list clears the movies and starts no detail fetch,
   * as written and as corrected; as written the loading flag is left as it was.
   */
  lemma EmptyRatingsNoFetch(p: Page)
    ensures var (a, ka) := EffectAsWritten(p.(ratings := []));
      && a.movies == [] && ka.None? && a.pending == p.pending && a.live.None?
      && a.isResolvingMovies == p.isResolvingMovies
    ensures var (p1, k) := RatingsChangedStep(p, []);
      p1.movies == [] && k.None? && p1.pending == p.pending && p1.live.None?
  {
  }

  /** Corrected: with the corrected effect, empty ratings also turn loading off. */
  lemma EmptyRatingsClearLoading(p: Page)
    ensures !RatingsChangedStep(p, []).0.isResolvingMovies
    ensures RatingsChangedStep(p, []).0 == EffectAsWritten(p.(ratings := [])).0.(isResolvingMovies := false)
  {
  }

  /**
   * As written, emptying the ratings while a resolution is pending leaves
   * the loading flag on: one rating resolving, then deleted in the dialog.
   */
  lemma EmptyingWhileResolvingAsWritten(movie: MovieDetails, rating: int)
    ensures var (p1, k) := RatingsChangedStep(InitialPage, [UserRating(movie.id, rating)]);
      var p2 := EffectAsWritten(p1.(ratings := DeleteRatings(p1.ratings, movie.id),
                                    movies := DeleteMovies(p1.movies, movie.id))).0;
      && p1.isResolvingMovies && k == Some(0)
      && p2.ratings == [] && p2.isResolvingMovies && p2.live.None? && 0 in p2.pending
      && !PageInv(p2)
  {
    var (p1, k) := RatingsChangedStep(InitialPage, [UserRating(movie.id, rating)]);
    assert DeleteRatings(p1.ratings, movie.id) == [];
  }

  /** ... and no later settling of any resolution turns it off. */
  lemma {:induction false} NothingClearsCancelledLoading(p: Page, trace: seq<PageEvent>)
    requires p.live.None? && p.isResolvingMovies
    requires PageRunnable(p, trace)
    requires forall i | 0 <= i < |trace| :: trace[i].Resolved?
    decreases |trace|
    ensures PageRun(p, trace).isResolvingMovies
  {
    if trace != [] {
      forall i | 0 <= i < |trace[1..]| ensures trace[1..][i].Resolved? {
        assert trace[1..][i] == trace[i + 1];
      }
      NothingClearsCancelledLoading(PageStep(p, trace[0]), trace[1..]);
    }
  }

  /** The corrected effect keeps the loading invariant in that same run. */
  lemma EmptyingWhileResolvingCorrected(movie: MovieDetails, rating: int)
    ensures var (p1, k) := RatingsChangedStep(InitialPage, [UserRating(movie.id, rating)]);
      var (p2, _) := ReconcileStep(p1, Some(movie), None);
      p1.isResolvingMovies && p2.ratings == [] && !p2.isResolvingMovies && PageInv(p2)
  {
    var (p1, k) := RatingsChangedStep(InitialPage, [UserRating(movie.id, rating)]);
    assert DeleteRatings(p1.ratings, movie.id) == [];
    EffectInv(p1.(ratings := [], movies := DeleteMovies(p1.movies, movie.id)));
  }

  /**
   * The reconciliation does not look at the save's outcome: when the save
   * fails the dialog rolls its rating back, while the page's list already
   * holds the new rating.
   */
  lemma FailedSaveStillReconciles(d: DetailsDialog.State, p: Page, rating: int, response: Settled<Response<RatingDto>>)
    requires d.selectedMovie.Some?
    requires DetailsDialog.SaveResult(Some(rating), response).None?
    ensures var (d1, issued) := DetailsDialog.ChangeRatingStep(d, Some(rating));
      && issued.Some?
      && DetailsDialog.SaveDoneStep(d1, issued.value.0, response).userRating == d.userRating
      && var (p1, _) := ReconcileStep(p, d.selectedMovie, Some(rating));
      && HasRating(p1.ratings, d.selectedMovie.value.id)
      && (forall i | 0 <= i < |p1.ratings| && p1.ratings[i].movieId == d.selectedMovie.value.id ::
            p1.ratings[i].rating == rating)
  {
    DetailsDialog.OptimisticRollback(d, Some(rating), response);
    UpsertReconcilesRatings(p.ratings, d.selectedMovie.value.id, rating);
  }

  /**
   * Ratings [(1, 4), (2, 5)] and an upsert of movie 3 to 2: the new entry
   * and its card come first, the others follow unchanged.
   */
  lemma UpsertPrependsExample(m1: MovieDetails, m2: MovieDetails, m3: MovieDetails)
    requires m1.id == 1 && m2.id == 2 && m3.id == 3
    ensures UpsertRatings([UserRating(1, 4), UserRating(2, 5)], 3, 2)
              == [UserRating(3, 2), UserRating(1, 4), UserRating(2, 5)]
    ensures UpsertMovies([RatedMovie(m1, 4), RatedMovie(m2, 5)], m3, 2)
              == [RatedMovie(m3, 2), RatedMovie(m1, 4), RatedMovie(m2, 5)]
  {
    var rs := [UserRating(1, 4), UserRating(2, 5)];
    assert !HasRating(rs, 3) by {
      forall i | 0 <= i < |rs| ensures rs[i].movieId != 3 {
      }
    }
    var ms := [RatedMovie(m1, 4), RatedMovie(m2, 5)];
    assert !HasMovie(ms, 3) by {
      forall i | 0 <= i < |ms| ensures ms[i].details.id != 3 {
      }
    }
  }

  /**
   * A reconciliation always hands the hook a new ratings array, so the
   * resolution effect runs again: the previous resolution is cancelled and,
   * unless the list became empty, a new one starts for the reconciled list.
   */
  lemma ReconcileRestartsResolution(p: Page, movie: MovieDetails, rating: Option<int>)
    requires PageInv(p)
    ensures var (p1, started) := ReconcileStep(p, Some(movie), rating);
      && p1.live == started
      && (started.Some? <==> |p1.ratings| > 0)
      && (started.Some? ==> started.value in p1.pending && p1.pending[started.value] == p1.ratings && p1.isResolvingMovies)
      && (forall k | k in p.pending :: p1.live != Some(k))
  {
  }

  // ---------------------------------------------------------------------
  // What the page renders
  // ---------------------------------------------------------------------

  /** The page's blocks: skeleton, error text, empty note, and the grid of cards. */
  datatype View = View(skeleton: bool, errorText: Option<string>, emptyNote: bool, grid: seq<RatedMovie>)

  /** The blocks rendered, given the hook's loading flag and error. */
  function Render(isLoading: bool, error: Option<string>, p: Page): (v: View)
    ensures v.skeleton <==> isLoading || p.isResolvingMovies
    ensures v.skeleton ==> v.errorText.None? && !v.emptyNote && v.grid == []
    ensures !v.skeleton ==> v.grid == p.movies
    ensures v.errorText.Some? ==> v.errorText == (if error.Some? then error else p.resolveError)
    ensures v.emptyNote ==> p.movies == [] && v.errorText.None?
  {
    var showLoading := isLoading || p.isResolvingMovies;
    var showError := if error.Some? then error else p.resolveError;
    View(showLoading,
         if !showLoading then showError else None,
         !showLoading && showError.None? && |p.movies| == 0,
         if !showLoading && |p.movies| > 0 then p.movies else [])
  }

  /** A partial failure shows the warning and, beside it, the movies that did resolve. */
  lemma PartialFailureShowsBoth(p: Page, list: seq<UserRating>, results: seq<Settled<MovieDetails>>)
    requires |list| > 0 && |results| == |list|
    requires HasRejected(results) && exists i | 0 <= i < |results| :: results[i].Resolved?
    ensures var (p1, k) := RatingsChangedStep(p, list);
      var v := Render(false, None, ResolvedStep(p1, k.value, results));
      v.errorText == Some(ResolveError) && v.grid == Fulfilled(list, results) && v.grid != []
  {
    FulfilledInOrder(list, results);
    var i :| 0 <= i < |results| && results[i].Resolved?;
    assert i in FulfilledPositions(results);
  }

  /**
   * The page's own state; `ratings` mirrors the user-ratings hook's list.
   * Its methods run the corrected effect, like the page steps.
   */
  class RatedPageState {
    var ratings: seq<UserRating>
    var movies: seq<RatedMovie>
    var isResolvingMovies: bool
    var resolveError: Option<string>
    var pending: map<nat, seq<UserRating>>
    var live: Option<nat>
    var nextResolution: nat

    function Snapshot(): Page
      reads this
    {
      Page(ratings, movies, isResolvingMovies, resolveError, pending, live, nextResolution)
    }

    constructor ()
      ensures Snapshot() == InitialPage
    {
      ratings, movies, isResolvingMovies, resolveError := [], [], false, None;
      pending, live, nextResolution := map[], None, 0;
    }

    /** The corrected effect on the current ratings; returns the resolution it starts, if any. */
    method RunEffect() returns (started: Option<nat>)
      modifies this
      ensures (Snapshot(), started) == Effect(old(Snapshot()))
    {
      live := None;
      if |ratings| == 0 {
        movies := [];
        isResolvingMovies := false;
        return None;
      }
      var k := nextResolution;
      nextResolution := nextResolution + 1;
      isResolvingMovies := true;
      resolveError := None;
      pending := pending[k := ratings];
      live := Some(k);
      started := Some(k);
    }

    /** `setRatings(list)`, then the corrected effect. */
    method SetRatings(list: seq<UserRating>) returns (started: Option<nat>)
      modifies this
      ensures (Snapshot(), started) == RatingsChangedStep(old(Snapshot()), list)
    {
      ratings := list;
      started := RunEffect();
    }

    /** Resolution `k`'s detail fetches have all settled with `results`. */
    method Resolve(k: nat, results: seq<Settled<MovieDetails>>)
      requires k in pending && |results| == |pending[k]|
      modifies this
      ensures Snapshot() == ResolvedStep(old(Snapshot()), k, results)
    {
      var forRatings := pending[k];
      pending := pending - {k};
      if live != Some(k) {
        return;
      }
      movies := Fulfilled(forRatings, results);
      if HasRejected(results) {
        resolveError := Some(ResolveError);
      }
      isResolvingMovies := false;
    }

    /** `onRatingChange(rating)` once the dialog's handler has returned. */
    method OnRatingChange(selected: Option<MovieDetails>, rating: Option<int>) returns (started: Option<nat>)
      modifies this
      ensures (Snapshot(), started) == ReconcileStep(old(Snapshot()), selected, rating)
    {
      if selected.None? {
        return None;
      }
      var movie := selected.value;
      if rating.None? {
        ratings := DeleteRatings(ratings, movie.id);
        movies := DeleteMovies(movies, movie.id);
      } else {
        ratings := UpsertRatings(ratings, movie.id, rating.value);
        movies := UpsertMovies(movies, movie, rating.value);
      }
      started := RunEffect();
    }
  }
}
