/**
 * The trending hook: lists the provider's trending movies, or its
 * discover-by-year listing when a year is selected, page by page, with
 * abort-and-replace on every fetch and an abort on teardown.
 */
module TrendingMovies {
  import opened Wrappers
  import opened Requests
  import opened Tmdb

  const TrendingError := "Não foi possível carregar os filmes em alta."

  /** The provider listing a fetch asks for. */
  datatype Source = Trending(page: int) | DiscoverByYear(year: string, page: int)

  datatype Issued = Issued(token: nat, source: Source)

  datatype State = State(
    year: Option<string>,
    movies: seq<MovieSummary>,
    page: int,
    totalPages: int,
    isLoading: bool,
    error: Option<string>,
    handles: Handles)

  function InitialFor(year: Option<string>): State {
    State(year, [], 1, 1, false, None, NoHandles)
  }

  ghost predicate Inv(s: State) {
    s.handles.Valid() && s.handles.OnlyCurrentLive()
  }

  /** JavaScript truthiness of the `year` argument: set and not the empty string. */
  predicate IsTruthy(year: Option<string>) {
    year.Some? && year.value != ""
  }

  /**
   * `fetchTrending(nextPage)`: a new controller replaces (and aborts) the
   * previous one, loading is set and the error cleared, and the request goes
   * to the discover-by-year listing when a year is set, else to trending.
   */
  function FetchStep(s: State, nextPage: int): (State, Issued) {
    var h := s.handles.AbortCurrent();
    var source := if IsTruthy(s.year) then DiscoverByYear(s.year.value, nextPage) else Trending(nextPage);
    (s.(handles := h.Install(), isLoading := true, error := None), Issued(h.next, source))
  }

  /** The fetch with controller `t` settles (same rules as a search). */
  function CompleteStep(s: State, t: nat, outcome: Settled<PageData<MovieSummary>>): State {
    var live := t !in s.handles.aborted;
    var s1 := match outcome
      case Resolved(d) => if live then s.(movies := d.results, page := d.page, totalPages := d.totalPages) else s
      case Rejected(e) => if e.name == AbortError then s else s.(error := Some(TrendingError));
    s1.(isLoading := if live then false else s1.isLoading, handles := s.handles.Resume(t))
  }

  /** The effect's cleanup: `abortRef.current?.abort()`. */
  function TeardownStep(s: State): State {
    s.(handles := s.handles.AbortCurrent())
  }

  /**
   * A new `year` argument changes `fetchTrending`, so the effect is torn
   * down and run again: abort, then fetch page 1 with the new year.
   */
  function YearStep(s: State, year: Option<string>): (State, Option<Issued>) {
    if year == s.year then (s, None)
    else var (s1, issued) := FetchStep(TeardownStep(s).(year := year), 1); (s1, Some(issued))
  }

  datatype Event =
    | Fetch(nextPage: int)
    | ChangeYear(year: Option<string>)
    | Teardown
    | Complete(token: nat, outcome: Settled<PageData<MovieSummary>>)

  predicate Enabled(s: State, e: Event) {
    e.Complete? ==> e.token in s.handles.inFlight
  }

  function Step(s: State, e: Event): State {
    match e
    case Fetch(p) => FetchStep(s, p).0
    case ChangeYear(y) => YearStep(s, y).0
    case Teardown => TeardownStep(s)
    case Complete(t, o) => CompleteStep(s, t, o)
  }

  predicate Runnable(s: State, trace: seq<Event>)
    decreases |trace|
  {
    trace == [] || (Enabled(s, trace[0]) && Runnable(Step(s, trace[0]), trace[1..]))
  }

  function Run(s: State, trace: seq<Event>): State
    requires Runnable(s, trace)
    decreases |trace|
  {
    if trace == [] then s else Run(Step(s, trace[0]), trace[1..])
  }

  function Shown(s: State): (seq<MovieSummary>, int, int) {
    (s.movies, s.page, s.totalPages)
  }

  /** Fetches, year changes and teardowns issue or abort requests; none of them writes the listing. */
  predicate Issues(e: Event) {
    e.Fetch? || e.ChangeYear?
  }

  lemma StepInv(s: State, e: Event)
    requires Inv(s) && Enabled(s, e)
    ensures Inv(Step(s, e))
    ensures !e.Complete? ==> Shown(Step(s, e)) == Shown(s)
  {
    match e {
      case Fetch(p) => AbortThenInstall(s.handles);
      case ChangeYear(y) =>
        if y != s.year {
          AbortThenInstall(TeardownStep(s).handles);
        }
      case Teardown =>
      case Complete(t, o) =>
    }
  }

  /**
   * The source follows the year: a truthy year asks for discover-by-year,
   * anything else for trending, always for the requested page; mounting and
   * every change of year fetch page 1.
   */
  lemma SourceFollowsYear(s: State, nextPage: int, year: Option<string>)
    ensures var src := FetchStep(s, nextPage).1.source;
      && src.page == nextPage
      && (src.DiscoverByYear? <==> IsTruthy(s.year))
      && (src.DiscoverByYear? ==> src.year == s.year.value)
    ensures year != s.year ==>
      && YearStep(s, year).1.Some?
      && YearStep(s, year).1.value.source.page == 1
      && (YearStep(s, year).1.value.source.DiscoverByYear? <==> IsTruthy(year))
  {
  }

  /**
   * Effects of one settling fetch: the listing changes only when the
   * controller was not aborted and the fetch succeeded; loading is cleared
   * exactly when it was not aborted; the error is set exactly by a failure
   * other than an AbortError.
   */
  lemma CompleteEffects(s: State, t: nat, outcome: Settled<PageData<MovieSummary>>)
    ensures var s' := CompleteStep(s, t, outcome);
      && (Shown(s') != Shown(s) ==> t !in s.handles.aborted && outcome.Resolved?)
      && (t !in s.handles.aborted && outcome.Resolved? ==>
            Shown(s') == (outcome.value.results, outcome.value.page, outcome.value.totalPages))
      && (t !in s.handles.aborted ==> !s'.isLoading)
      && (t in s.handles.aborted ==> s'.isLoading == s.isLoading)
      && (s'.error != s.error ==> outcome.Rejected? && outcome.error.name != AbortError)
      && (outcome.Rejected? && outcome.error.name != AbortError ==> s'.error == Some(TrendingError))
  {
  }

  /** Until the next fetch, only the response of fetch `b` can change the listing. */
  lemma {:induction false} OnlyLatestWrites(u: State, b: nat, rest: seq<Event>)
    requires Inv(u)
    requires forall t | t in u.handles.inFlight && t != b :: t in u.handles.aborted
    requires Runnable(u, rest)
    requires forall i | 0 <= i < |rest| :: !Issues(rest[i])
    decreases |rest|
    ensures b !in u.handles.inFlight ==> Shown(Run(u, rest)) == Shown(u)
    ensures || Shown(Run(u, rest)) == Shown(u)
            || exists i | 0 <= i < |rest| ::
                 && rest[i].Complete? && rest[i].token == b && rest[i].outcome.Resolved?
                 && Shown(Run(u, rest)) == (rest[i].outcome.value.results, rest[i].outcome.value.page,
                                            rest[i].outcome.value.totalPages)
  {
    if rest != [] {
      var e := rest[0];
      var u1 := Step(u, e);
      StepInv(u, e);
      assert forall t | t in u1.handles.inFlight && t != b :: t in u1.handles.aborted;
      forall i | 0 <= i < |rest[1..]| ensures !Issues(rest[1..][i]) {
        assert rest[1..][i] == rest[i + 1];
      }
      OnlyLatestWrites(u1, b, rest[1..]);
      if e.Complete? {
        CompleteEffects(u, e.token, e.outcome);
      }
      var f := Run(u, rest);
      assert f == Run(u1, rest[1..]);
      if Shown(f) != Shown(u) && Shown(f) != Shown(u1) {
        var i :| 0 <= i < |rest[1..]| && rest[1..][i].Complete? && rest[1..][i].token == b
          && rest[1..][i].outcome.Resolved?
          && Shown(f) == (rest[1..][i].outcome.value.results, rest[1..][i].outcome.value.page,
                          rest[1..][i].outcome.value.totalPages);
        assert rest[i + 1] == rest[1..][i];
      }
    }
  }

  /**
   * Last issued fetch wins: after a fetch, until the next one, the listing
   * is either what it was when the fetch was issued or this fetch's own
   * response, never an earlier fetch's.
   */
  lemma LastFetchWins(s: State, nextPage: int, rest: seq<Event>)
    requires Inv(s)
    requires Runnable(FetchStep(s, nextPage).0, rest)
    requires forall i | 0 <= i < |rest| :: !Issues(rest[i])
    ensures var (s1, issued) := FetchStep(s, nextPage);
      || Shown(Run(s1, rest)) == Shown(s)
      || exists i | 0 <= i < |rest| ::
           && rest[i].Complete? && rest[i].token == issued.token && rest[i].outcome.Resolved?
           && Shown(Run(s1, rest)) == (rest[i].outcome.value.results, rest[i].outcome.value.page,
                                       rest[i].outcome.value.totalPages)
  {
    var (s1, issued) := FetchStep(s, nextPage);
    StepInv(s, Fetch(nextPage));
    OnlyLatestWrites(s1, issued.token, rest);
  }

  /** After teardown no response, late or not, changes the listing again. */
  lemma TeardownFreezes(s: State, rest: seq<Event>)
    requires Inv(s)
    requires Runnable(TeardownStep(s), rest)
    requires forall i | 0 <= i < |rest| :: !Issues(rest[i])
    ensures Shown(Run(TeardownStep(s), rest)) == Shown(s)
  {
    var s1 := TeardownStep(s);
    StepInv(s, Teardown);
    OnlyLatestWrites(s1, s1.handles.next, rest);
  }

  /** The hook's state; `year` is the hook's argument. */
  class TrendingHook {
    var year: Option<string>
    var movies: seq<MovieSummary>
    var page: int
    var totalPages: int
    var isLoading: bool
    var error: Option<string>
    var abortRef: Handles

    function Snapshot(): State
      reads this
    {
      State(year, movies, page, totalPages, isLoading, error, abortRef)
    }

    /** Mounting: the initial state, then the effect fetches page 1. */
    constructor Mount(year: Option<string>)
      ensures Snapshot() == FetchStep(InitialFor(year), 1).0
    {
      this.year := year;
      movies, page, totalPages, isLoading, error := [], 1, 1, false, None;
      abortRef := NoHandles;
      new;
      var _ := FetchTrending(1);
    }

    /** `fetchTrending(nextPage = 1)`; returns the request it issues. */
    method FetchTrending(nextPage: int := 1) returns (issued: Issued)
      modifies this
      ensures (Snapshot(), issued) == FetchStep(old(Snapshot()), nextPage)
    {
      var controller := abortRef.next;
      abortRef := abortRef.AbortCurrent().Install();
      isLoading := true;
      error := None;
      var source := if IsTruthy(year) then DiscoverByYear(year.value, nextPage) else Trending(nextPage);
      issued := Issued(controller, source);
    }

    /** The awaited listing of controller `t` settles with `outcome`. */
    method Complete(t: nat, outcome: Settled<PageData<MovieSummary>>)
      requires t in abortRef.inFlight
      modifies this
      ensures Snapshot() == CompleteStep(old(Snapshot()), t, outcome)
    {
      var aborted := t in abortRef.aborted;
      match outcome {
        case Resolved(data) =>
          if !aborted {
            movies := data.results;
            page := data.page;
            totalPages := data.totalPages;
          }
        case Rejected(err) =>
          if err.name != AbortError {
            error := Some(TrendingError);
          }
      }
      if !aborted {
        isLoading := false;
      }
      abortRef := abortRef.Resume(t);
    }

    /** The effect's cleanup, run on unmount. */
    method Teardown()
      modifies this
      ensures Snapshot() == TeardownStep(old(Snapshot()))
    {
      abortRef := abortRef.AbortCurrent();
    }

    /** The hook is rendered with a (possibly) different year. */
    method ChangeYear(newYear: Option<string>) returns (issued: Option<Issued>)
      modifies this
      ensures (Snapshot(), issued) == YearStep(old(Snapshot()), newYear)
    {
      if newYear == year {
        return None;
      }
      Teardown();
      year := newYear;
      var i := FetchTrending(1);
      issued := Some(i);
    }
  }
}
