/**
 * The search hook: trims the query, short-circuits an empty one, aborts the
 * previous search and applies a response only while its controller has not
 * been aborted.
 */
module MovieSearch {
  import opened Wrappers
  import opened Requests
  import opened Tmdb

  const SearchError := "Erro ao buscar filmes."

  /** The characters `String.prototype.trim` removes (white space and line terminators). */
  predicate IsJsSpace(c: char) {
    c == '\t' || c == '\n' || c == '\U{B}' || c == '\U{C}' || c == '\r' || c == ' '
    || c == '\U{A0}' || c == '\U{1680}' || ('\U{2000}' <= c <= '\U{200A}')
    || c == '\U{2028}' || c == '\U{2029}' || c == '\U{202F}' || c == '\U{205F}'
    || c == '\U{3000}' || c == '\U{FEFF}'
  }

  /** `s.trim()`. */
  function Trim(s: string): (r: string)
    ensures |r| <= |s|
  {
    if s == [] then []
    else if IsJsSpace(s[0]) then Trim(s[1..])
    else if IsJsSpace(s[|s| - 1]) then Trim(s[..|s| - 1])
    else s
  }

  /**
   * The trimmed string is the part of `s` left after removing white space
   * from both ends: it neither starts nor ends with white space, and it is
   * empty exactly when `s` is all white space.
   */
  lemma TrimSpec(s: string)
    ensures var r := Trim(s);
      && (r == [] || (!IsJsSpace(r[0]) && !IsJsSpace(r[|r| - 1])))
      && (r == [] <==> forall k | 0 <= k < |s| :: IsJsSpace(s[k]))
      && exists i, j | 0 <= i <= j <= |s| ::
           && r == s[i..j]
           && (forall k | 0 <= k < i :: IsJsSpace(s[k]))
           && (forall k | j <= k < |s| :: IsJsSpace(s[k]))
  {
    TrimEnds(s);
    TrimEmpty(s);
    var i, j := TrimSlice(s);
  }

  lemma {:induction false} TrimEnds(s: string)
    ensures var r := Trim(s); r == [] || (!IsJsSpace(r[0]) && !IsJsSpace(r[|r| - 1]))
  {
    if s != [] && IsJsSpace(s[0]) {
      TrimEnds(s[1..]);
    } else if s != [] && IsJsSpace(s[|s| - 1]) {
      TrimEnds(s[..|s| - 1]);
    }
  }

  lemma {:induction false} TrimEmpty(s: string)
    ensures Trim(s) == [] <==> forall k | 0 <= k < |s| :: IsJsSpace(s[k])
  {
    if s != [] && IsJsSpace(s[0]) {
      TrimEmpty(s[1..]);
      assert forall k | 0 < k < |s| :: s[k] == s[1..][k - 1];
    } else if s != [] && IsJsSpace(s[|s| - 1]) {
      TrimEmpty(s[..|s| - 1]);
      assert forall k | 0 <= k < |s| - 1 :: s[k] == s[..|s| - 1][k];
    }
  }

  /** The bounds of the slice that `Trim` keeps: white space only before `i` and from `j` on. */
  lemma {:induction false} TrimSlice(s: string) returns (i: nat, j: nat)
    ensures i <= j <= |s| && Trim(s) == s[i..j]
    ensures forall k | 0 <= k < i :: IsJsSpace(s[k])
    ensures forall k | j <= k < |s| :: IsJsSpace(s[k])
  {
    if s == [] {
      i, j := 0, 0;
    } else if IsJsSpace(s[0]) {
      var t := s[1..];
      var i', j' := TrimSlice(t);
      i, j := i' + 1, j' + 1;
      assert Trim(s) == t[i'..j'] == s[i..j];
      forall k | 0 <= k < i ensures IsJsSpace(s[k]) {
        if k > 0 { assert s[k] == t[k - 1]; }
      }
      forall k | j <= k < |s| ensures IsJsSpace(s[k]) {
        assert s[k] == t[k - 1];
      }
    } else if IsJsSpace(s[|s| - 1]) {
      var t := s[..|s| - 1];
      i, j := TrimSlice(t);
      assert Trim(s) == t[i..j] == s[i..j];
      forall k | j <= k < |s| ensures IsJsSpace(s[k]) {
        if k < |t| { assert s[k] == t[k]; }
      }
    } else {
      i, j := 0, |s|;
    }
  }

  datatype State = State(
    query: string,
    hasSearched: bool,
    results: seq<MovieSummary>,
    isLoading: bool,
    error: Option<string>,
    page: int,
    totalPages: int,
    handles: Handles)

  const Initial := State("", false, [], false, None, 1, 1, NoHandles)

  /** A request that was issued: its controller, the trimmed query and the page. */
  datatype Issued = Issued(token: nat, query: string, page: int)

  /** The controllers are well formed and every in-flight search but the current one is aborted. */
  ghost predicate Inv(s: State) {
    s.handles.Valid() && s.handles.OnlyCurrentLive()
  }

  /**
   * `search(nextQuery, nextPage)`: trims the argument (or the current query),
   * marks the hook as having searched, aborts the previous search; an empty
   * query resets the results and issues nothing, any other installs a new
   * controller, sets loading and clears the error.
   */
  function SearchStep(s: State, nextQuery: Option<string>, nextPage: int): (State, Option<Issued>) {
    var q := Trim(nextQuery.GetOr(s.query));
    var h := s.handles.AbortCurrent();
    if q == [] then
      (s.(hasSearched := true, handles := h, results := [], error := None, isLoading := false, page := 1, totalPages := 1), None)
    else
      (s.(hasSearched := true, handles := h.Install(), isLoading := true, error := None), Some(Issued(h.next, q, nextPage)))
  }

  /**
   * The search with controller `t` settles: a response is applied only if
   * `t` was not aborted; an AbortError is ignored and any other failure sets
   * the error message; loading is cleared only if `t` was not aborted.
   */
  function CompleteStep(s: State, t: nat, outcome: Settled<PageData<MovieSummary>>): State {
    var live := t !in s.handles.aborted;
    var s1 := match outcome
      case Resolved(d) => if live then s.(results := d.results, page := d.page, totalPages := d.totalPages) else s
      case Rejected(e) => if e.name == AbortError then s else s.(error := Some(SearchError));
    s1.(isLoading := if live then false else s1.isLoading, handles := s.handles.Resume(t))
  }

  datatype Event =
    | SetQuery(q: string)
    | Search(nextQuery: Option<string>, nextPage: int)
    | Complete(token: nat, outcome: Settled<PageData<MovieSummary>>)

  /** Only a search that is in flight can settle, and only once. */
  predicate Enabled(s: State, e: Event) {
    e.Complete? ==> e.token in s.handles.inFlight
  }

  function Step(s: State, e: Event): State {
    match e
    case SetQuery(q) => s.(query := q)
    case Search(q, p) => SearchStep(s, q, p).0
    case Complete(t, o) => CompleteStep(s, t, o)
  }

  predicate Runnable(s: State, trace: seq<Event>)
    decreases |trace|
  {
    trace == [] || (Enabled(s, trace[0]) && Runnable(Step(s, trace[0]), trace[1..]))
  }

  function Run(s: State, trace: seq<Event>): State
    requires Runnable(s, trace)
    decreases |trace|
  {
    if trace == [] then s else Run(Step(s, trace[0]), trace[1..])
  }

  /** What the results grid shows: results, page and page count. */
  function Shown(s: State): (seq<MovieSummary>, int, int) {
    (s.results, s.page, s.totalPages)
  }

  lemma StepInv(s: State, e: Event)
    requires Inv(s) && Enabled(s, e)
    ensures Inv(Step(s, e))
  {
    if e.Search? {
      AbortThenInstall(s.handles);
    }
  }

  /**
   * Effects of one settling search: results, page and page count change
   * only when the controller was not aborted and the search succeeded;
   * loading is cleared exactly when it was not aborted; the error is set
   * exactly by a failure other than an AbortError.
   */
  lemma CompleteEffects(s: State, t: nat, outcome: Settled<PageData<MovieSummary>>)
    ensures var s' := CompleteStep(s, t, outcome);
      && (Shown(s') != Shown(s) ==> t !in s.handles.aborted && outcome.Resolved?)
      && (t !in s.handles.aborted && outcome.Resolved? ==>
            Shown(s') == (outcome.value.results, outcome.value.page, outcome.value.totalPages))
      && (t !in s.handles.aborted ==> !s'.isLoading)
      && (t in s.handles.aborted ==> s'.isLoading == s.isLoading)
      && (s'.error != s.error ==> outcome.Rejected? && outcome.error.name != AbortError)
      && (outcome.Rejected? && outcome.error.name != AbortError ==> s'.error == Some(SearchError))
  {
  }

  /**
   * Once search `b` is the one issued last, nothing but `b`'s own response
   * can change what the grid shows; and if `b` is not in flight at all,
   * nothing changes it.
   */
  lemma {:induction false} OnlyLatestWrites(u: State, b: nat, rest: seq<Event>)
    requires Inv(u)
    requires forall t | t in u.handles.inFlight && t != b :: t in u.handles.aborted
    requires Runnable(u, rest)
    requires forall i | 0 <= i < |rest| :: !rest[i].Search?
    decreases |rest|
    ensures b !in u.handles.inFlight ==> Shown(Run(u, rest)) == Shown(u)
    ensures || Shown(Run(u, rest)) == Shown(u)
            || exists i | 0 <= i < |rest| ::
                 && rest[i].Complete? && rest[i].token == b && rest[i].outcome.Resolved?
                 && Shown(Run(u, rest)) == (rest[i].outcome.value.results, rest[i].outcome.value.page,
                                            rest[i].outcome.value.totalPages)
  {
    if rest != [] {
      var e := rest[0];
      var u1 := Step(u, e);
      StepInv(u, e);
      assert forall t | t in u1.handles.inFlight && t != b :: t in u1.handles.aborted;
      assert forall i | 0 <= i < |rest[1..]| :: !rest[1..][i].Search? by {
        forall i | 0 <= i < |rest[1..]| ensures !rest[1..][i].Search? {
          assert rest[1..][i] == rest[i + 1];
        }
      }
      OnlyLatestWrites(u1, b, rest[1..]);
      if e.Complete? {
        CompleteEffects(u, e.token, e.outcome);
      }
      var f := Run(u, rest);
      assert f == Run(u1, rest[1..]);
      if Shown(f) != Shown(u) && Shown(f) != Shown(u1) {
        var i :| 0 <= i < |rest[1..]| && rest[1..][i].Complete? && rest[1..][i].token == b
          && rest[1..][i].outcome.Resolved?
          && Shown(f) == (rest[1..][i].outcome.value.results, rest[1..][i].outcome.value.page,
                          rest[1..][i].outcome.value.totalPages);
        assert rest[i + 1] == rest[1..][i];
      }
    }
  }

  /**
   * Last issued search wins: after a search, until the next search, the
   * grid shows either what it showed right after the search (the cleared
   * results of an empty query, or the previous results while loading) or
   * the response to this very search, never that of an earlier one.
   */
  lemma LastSearchWins(s: State, nextQuery: Option<string>, nextPage: int, rest: seq<Event>)
    requires Inv(s)
    requires Runnable(SearchStep(s, nextQuery, nextPage).0, rest)
    requires forall i | 0 <= i < |rest| :: !rest[i].Search?
    ensures var (s1, issued) := SearchStep(s, nextQuery, nextPage);
      && (issued.None? ==> Shown(Run(s1, rest)) == ([], 1, 1))
      && (|| Shown(Run(s1, rest)) == Shown(s1)
          || (issued.Some? && exists i | 0 <= i < |rest| ::
                && rest[i].Complete? && rest[i].token == issued.value.token && rest[i].outcome.Resolved?
                && Shown(Run(s1, rest)) == (rest[i].outcome.value.results, rest[i].outcome.value.page,
                                            rest[i].outcome.value.totalPages)))
  {
    var (s1, issued) := SearchStep(s, nextQuery, nextPage);
    StepInv(s, Search(nextQuery, nextPage));
    var b := if issued.Some? then issued.value.token else s1.handles.next;
    assert forall t | t in s1.handles.inFlight && t != b :: t in s1.handles.aborted;
    OnlyLatestWrites(s1, b, rest);
  }

  /**
   * Searching "dune" and then "" leaves empty results on page 1 of 1, in
   * whatever order the network answers.
   */
  lemma DuneThenEmpty(s: State, rest: seq<Event>)
    requires Inv(s)
    requires var s1 := SearchStep(s, Some("dune"), 1).0; Runnable(SearchStep(s1, Some(""), 1).0, rest)
    requires forall i | 0 <= i < |rest| :: !rest[i].Search?
    ensures var s2 := SearchStep(SearchStep(s, Some("dune"), 1).0, Some(""), 1).0;
      Shown(Run(s2, rest)) == ([], 1, 1)
  {
    var s1 := SearchStep(s, Some("dune"), 1).0;
    StepInv(s, Search(Some("dune"), 1));
    assert Trim("") == [];
    LastSearchWins(s1, Some(""), 1, rest);
  }

  /** The hook's state, as the fields React keeps for it. */
  class SearchHook {
    var query: string
    var hasSearched: bool
    var results: seq<MovieSummary>
    var isLoading: bool
    var error: Option<string>
    var page: int
    var totalPages: int
    var abortRef: Handles

    function Snapshot(): State
      reads this
    {
      State(query, hasSearched, results, isLoading, error, page, totalPages, abortRef)
    }

    constructor ()
      ensures Snapshot() == Initial
    {
      query, hasSearched, results, isLoading, error := "", false, [], false, None;
      page, totalPages := 1, 1;
      abortRef := NoHandles;
    }

    method SetQuery(q: string)
      modifies this
      ensures Snapshot() == old(Snapshot()).(query := q)
    {
      query := q;
    }

    /** `search(nextQuery?, nextPage = 1)`; returns the request it issues, if any. */
    method Search(nextQuery: Option<string>, nextPage: int := 1) returns (issued: Option<Issued>)
      modifies this
      ensures (Snapshot(), issued) == SearchStep(old(Snapshot()), nextQuery, nextPage)
    {
      var queryToSearch := Trim(nextQuery.GetOr(query));
      hasSearched := true;
      abortRef := abortRef.AbortCurrent();
      if queryToSearch == [] {
        results := [];
        error := None;
        isLoading := false;
        page := 1;
        totalPages := 1;
        return None;
      }
      var controller := abortRef.next;
      abortRef := abortRef.Install();
      isLoading := true;
      error := None;
      issued := Some(Issued(controller, queryToSearch, nextPage));
    }

    /** The awaited `searchMovies` call of controller `t` settles with `outcome`. */
    method Complete(t: nat, outcome: Settled<PageData<MovieSummary>>)
      requires t in abortRef.inFlight
      modifies this
      ensures Snapshot() == CompleteStep(old(Snapshot()), t, outcome)
    {
      var aborted := t in abortRef.aborted;
      match outcome {
        case Resolved(data) =>
          if !aborted {
            results := data.results;
            page := data.page;
            totalPages := data.totalPages;
          }
        case Rejected(err) =>
          if err.name != AbortError {
            error := Some(SearchError);
          }
      }
      if !aborted {
        isLoading := false;
      }
      abortRef := abortRef.Resume(t);
    }
  }
}
