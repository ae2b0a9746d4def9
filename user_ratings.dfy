/**
 * The user-ratings hook: fetches the user's ratings with abort-and-replace,
 * aborts on teardown, and exposes `setRatings` so that a page can change the
 * list locally.
 */
module UserRatings {
  import opened Wrappers
  import opened Requests

  const RatingsError := "Não foi possível carregar suas avaliações."

  /** One entry of the user's ratings as the hook holds it. */
  datatype UserRating = UserRating(movieId: int, rating: int)

  datatype State = State(
    ratings: seq<UserRating>,
    isLoading: bool,
    error: Option<string>,
    handles: Handles)

  const Initial := State([], false, None, NoHandles)

  ghost predicate Inv(s: State) {
    s.handles.Valid() && s.handles.OnlyCurrentLive()
  }

  /** `fetchRatings()`: abort the previous controller, install a new one, set loading, clear the error. */
  function FetchStep(s: State): (State, nat) {
    var h := s.handles.AbortCurrent();
    (s.(handles := h.Install(), isLoading := true, error := None), h.next)
  }

  /** The fetch with controller `t` settles. */
  function CompleteStep(s: State, t: nat, outcome: Settled<seq<UserRating>>): State {
    var live := t !in s.handles.aborted;
    var s1 := match outcome
      case Resolved(list) => if live then s.(ratings := list) else s
      case Rejected(e) => if e.name == AbortError then s else s.(error := Some(RatingsError));
    s1.(isLoading := if live then false else s1.isLoading, handles := s.handles.Resume(t))
  }

  /** `setRatings(list)` from the page. */
  function SetRatingsStep(s: State, list: seq<UserRating>): State {
    s.(ratings := list)
  }

  /** The effect's cleanup. */
  function TeardownStep(s: State): State {
    s.(handles := s.handles.AbortCurrent())
  }

  datatype Event =
    | Fetch
    | SetRatings(list: seq<UserRating>)
    | Teardown
    | Complete(token: nat, outcome: Settled<seq<UserRating>>)

  predicate Enabled(s: State, e: Event) {
    e.Complete? ==> e.token in s.handles.inFlight
  }

  function Step(s: State, e: Event): State {
    match e
    case Fetch => FetchStep(s).0
    case SetRatings(list) => SetRatingsStep(s, list)
    case Teardown => TeardownStep(s)
    case Complete(t, o) => CompleteStep(s, t, o)
  }

  predicate Runnable(s: State, trace: seq<Event>)
    decreases |trace|
  {
    trace == [] || (Enabled(s, trace[0]) && Runnable(Step(s, trace[0]), trace[1..]))
  }

  function Run(s: State, trace: seq<Event>): State
    requires Runnable(s, trace)
    decreases |trace|
  {
    if trace == [] then s else Run(Step(s, trace[0]), trace[1..])
  }

  lemma StepInv(s: State, e: Event)
    requires Inv(s) && Enabled(s, e)
    ensures Inv(Step(s, e))
    ensures e.Fetch? || e.Teardown? ==> Step(s, e).ratings == s.ratings
  {
    if e.Fetch? {
      AbortThenInstall(s.handles);
    }
  }

  /**
   * Effects of one settling fetch: the list changes only for a successful,
   * non-aborted fetch, and then becomes its result; loading is cleared
   * exactly when the controller was not aborted; a non-abort failure sets
   * the error message whatever the controller.
   */
  lemma CompleteEffects(s: State, t: nat, outcome: Settled<seq<UserRating>>)
    ensures var s' := CompleteStep(s, t, outcome);
      && (s'.ratings != s.ratings ==> t !in s.handles.aborted && outcome.Resolved?)
      && (t !in s.handles.aborted && outcome.Resolved? ==> s'.ratings == outcome.value)
      && (!s'.isLoading <==> t !in s.handles.aborted || !s.isLoading)
      && (s'.error != s.error ==> outcome.Rejected? && outcome.error.name != AbortError)
      && (outcome.Rejected? && outcome.error.name != AbortError ==> s'.error == Some(RatingsError))
  {
  }

  /** Until the next fetch or local change, only fetch `b`'s result can replace the list. */
  lemma {:induction false} OnlyLatestWrites(u: State, b: nat, rest: seq<Event>)
    requires Inv(u)
    requires forall t | t in u.handles.inFlight && t != b :: t in u.handles.aborted
    requires Runnable(u, rest)
    requires forall i | 0 <= i < |rest| :: rest[i].Complete? || rest[i].Teardown?
    decreases |rest|
    ensures b !in u.handles.inFlight ==> Run(u, rest).ratings == u.ratings
    ensures || Run(u, rest).ratings == u.ratings
            || exists i | 0 <= i < |rest| ::
                 && rest[i].Complete? && rest[i].token == b && rest[i].outcome.Resolved?
                 && Run(u, rest).ratings == rest[i].outcome.value
  {
    if rest != [] {
      var e := rest[0];
      var u1 := Step(u, e);
      StepInv(u, e);
      assert forall t | t in u1.handles.inFlight && t != b :: t in u1.handles.aborted;
      forall i | 0 <= i < |rest[1..]| ensures rest[1..][i].Complete? || rest[1..][i].Teardown? {
        assert rest[1..][i] == rest[i + 1];
      }
      OnlyLatestWrites(u1, b, rest[1..]);
      if e.Complete? {
        CompleteEffects(u, e.token, e.outcome);
      }
      var f := Run(u, rest);
      assert f == Run(u1, rest[1..]);
      if f.ratings != u.ratings && f.ratings != u1.ratings {
        var i :| 0 <= i < |rest[1..]| && rest[1..][i].Complete? && rest[1..][i].token == b
          && rest[1..][i].outcome.Resolved? && f.ratings == rest[1..][i].outcome.value;
        assert rest[i + 1] == rest[1..][i];
      }
    }
  }

  /** Last fetch wins: after `refetch`, no earlier fetch's result can replace the list. */
  lemma LastFetchWins(s: State, rest: seq<Event>)
    requires Inv(s)
    requires Runnable(FetchStep(s).0, rest)
    requires forall i | 0 <= i < |rest| :: rest[i].Complete? || rest[i].Teardown?
    ensures var (s1, b) := FetchStep(s);
      || Run(s1, rest).ratings == s.ratings
      || exists i | 0 <= i < |rest| ::
           && rest[i].Complete? && rest[i].token == b && rest[i].outcome.Resolved?
           && Run(s1, rest).ratings == rest[i].outcome.value
  {
    var (s1, b) := FetchStep(s);
    StepInv(s, Fetch);
    OnlyLatestWrites(s1, b, rest);
  }

  /**
   * A local `setRatings` survives every response that settles after a
   * teardown: aborted fetches never overwrite it.
   */
  lemma LocalChangeSurvivesTeardown(s: State, list: seq<UserRating>, rest: seq<Event>)
    requires Inv(s)
    requires Runnable(TeardownStep(SetRatingsStep(s, list)), rest)
    requires forall i | 0 <= i < |rest| :: rest[i].Complete? || rest[i].Teardown?
    ensures Run(TeardownStep(SetRatingsStep(s, list)), rest).ratings == list
  {
    var s1 := TeardownStep(SetRatingsStep(s, list));
    StepInv(SetRatingsStep(s, list), Teardown);
    OnlyLatestWrites(s1, s1.handles.next, rest);
  }

  /** The hook's state. */
  class UserRatingsHook {
    var ratings: seq<UserRating>
    var isLoading: bool
    var error: Option<string>
    var abortRef: Handles

    function Snapshot(): State
      reads this
    {
      State(ratings, isLoading, error, abortRef)
    }

    /** Mounting: the initial state, then the effect fetches once. */
    constructor Mount()
      ensures Snapshot() == FetchStep(Initial).0
    {
      ratings, isLoading, error, abortRef := [], false, None, NoHandles;
      new;
      var _ := FetchRatings();
    }

    /** `fetchRatings()` (also exposed as `refetch`); returns its controller. */
    method FetchRatings() returns (token: nat)
      modifies this
      ensures (Snapshot(), token) == FetchStep(old(Snapshot()))
    {
      abortRef := abortRef.AbortCurrent();
      token := abortRef.next;
      abortRef := abortRef.Install();
      isLoading := true;
      error := None;
    }

    /** The awaited list of controller `t` settles with `outcome`. */
    method Complete(t: nat, outcome: Settled<seq<UserRating>>)
      requires t in abortRef.inFlight
      modifies this
      ensures Snapshot() == CompleteStep(old(Snapshot()), t, outcome)
    {
      var aborted := t in abortRef.aborted;
      match outcome {
        case Resolved(list) =>
          if !aborted {
            ratings := list;
          }
        case Rejected(err) =>
          if err.name != AbortError {
            error := Some(RatingsError);
          }
      }
      if !aborted {
        isLoading := false;
      }
      abortRef := abortRef.Resume(t);
    }

    /** `setRatings(list)`. */
    method SetRatings(list: seq<UserRating>)
      modifies this
      ensures Snapshot() == SetRatingsStep(old(Snapshot()), list)
    {
      ratings := list;
    }

    /** The effect's cleanup, run on unmount. */
    method Teardown()
      modifies this
      ensures Snapshot() == TeardownStep(old(Snapshot()))
    {
      abortRef := abortRef.AbortCurrent();
    }
  }
}
