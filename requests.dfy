/**
 * The asynchronous machinery the front-end hooks rely on, made explicit:
 * `AbortController` objects become numbered tokens, a pending `await`
 * becomes a token that is "in flight", and a settled promise becomes a
 * `Settled` value that the environment hands back in a completion event.
 */
module Requests {
  import opened Wrappers

  /** The `name` of a thrown JavaScript error; only `AbortError` is ever tested. */
  datatype ErrorName = AbortError | SyntaxError | TypeError | PlainError

  /** A thrown JavaScript error: its `name` and its `message`. */
  datatype Thrown = Thrown(name: ErrorName, message: string)

  /** The outcome of an awaited promise. */
  datatype Settled<+T> = Resolved(value: T) | Rejected(error: Thrown)

  /**
   * One hook's abort handles.  `current` is what `abortRef.current` points
   * to, `aborted` the controllers whose `abort()` was called, `inFlight` the
   * controllers whose request has been issued and not yet resumed, and
   * `next` the number the next `new AbortController()` receives.
   */
  datatype Handles = Handles(current: Option<nat>, aborted: set<nat>, inFlight: set<nat>, next: nat) {

    /** Every controller handed out so far is below `next`. */
    ghost predicate Valid() {
      && (current.Some? ==> current.value < next)
      && (forall t | t in aborted :: t < next)
      && (forall t | t in inFlight :: t < next)
    }

    /** Every controller in flight other than the current one has been aborted. */
    ghost predicate OnlyCurrentLive() {
      forall t | t in inFlight && Some(t) != current :: t in aborted
    }

    /** `abortRef.current?.abort()`. */
    function AbortCurrent(): (h: Handles)
      ensures h.current == current && h.inFlight == inFlight && h.next == next
      ensures current.None? ==> h.aborted == aborted
      ensures current.Some? ==> h.aborted == aborted + {current.value}
    {
      match current
      case None => this
      case Some(c) => this.(aborted := aborted + {c})
    }

    /**
     * `const controller = new AbortController(); abortRef.current = controller`
     * followed by issuing the request: the fresh controller is current and in flight.
     */
    function Install(): (h: Handles)
      ensures h.current == Some(next) && h.next == next + 1
      ensures h.aborted == aborted && h.inFlight == inFlight + {next}
    {
      Handles(Some(next), aborted, inFlight + {next}, next + 1)
    }

    /** The continuation of request `t` resumes: it is no longer in flight. */
    function Resume(t: nat): (h: Handles)
      ensures h.current == current && h.aborted == aborted && h.next == next
      ensures h.inFlight == inFlight - {t}
    {
      this.(inFlight := inFlight - {t})
    }
  }

  const NoHandles := Handles(None, {}, {}, 0)

  /** Aborting and then installing a fresh controller leaves exactly one live request. */
  lemma AbortThenInstall(h: Handles)
    requires h.Valid() && h.OnlyCurrentLive()
    ensures var h' := h.AbortCurrent().Install();
      h'.Valid() && h'.OnlyCurrentLive() && h'.current == Some(h.next) && h.next !in h'.aborted
  {
    var h' := h.AbortCurrent().Install();
    forall t | t in h'.inFlight && Some(t) != h'.current
      ensures t in h'.aborted
    {
      assert t in h.inFlight;
      if Some(t) == h.current {
        assert t in h.AbortCurrent().aborted;
      }
    }
  }
}
