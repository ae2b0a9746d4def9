/**
 * The details dialog's rendering rules: which of the skeleton, the error
 * pane or the content is shown, how much of the cast is listed, and what
 * dismissing the dialog does.
 */
module DetailsView {
  import opened Wrappers
  import opened Requests
  import opened Tmdb
  import DetailsDialog

  /** The maximum number of cast members listed. */
  const CastCap := 8

  datatype Pane = Skeleton | ErrorPane | Content

  /**
   * The selection as written: loading when details load or there is no
   * movie; the error pane only when not loading; the content when there is
   * a movie and neither of the others; the error pane as a fallback.
   */
  function PaneAsWritten(isLoadingDetails: bool, isError: bool, movie: Option<MovieDetails>): Pane {
    var shouldShowLoading := isLoadingDetails || movie.None?;
    var shouldShowError := isError && !shouldShowLoading;
    var shouldShowContent := movie.Some? && !shouldShowLoading && !shouldShowError;
    if shouldShowLoading then Skeleton
    else if shouldShowError then ErrorPane
    else if shouldShowContent then Content
    else ErrorPane
  }

  /**
   * As written, the error pane needs a movie: without one the skeleton is
   * shown whatever the error flag, and the fallback branch is never taken.
   */
  lemma AsWrittenErrorNeedsMovie(isLoadingDetails: bool, isError: bool, movie: Option<MovieDetails>)
    ensures PaneAsWritten(isLoadingDetails, isError, movie) == ErrorPane <==>
              movie.Some? && isError && !isLoadingDetails
    ensures PaneAsWritten(isLoadingDetails, isError, movie) == Skeleton <==> isLoadingDetails || movie.None?
    ensures PaneAsWritten(isLoadingDetails, isError, movie) == Content <==>
              movie.Some? && !isLoadingDetails && !isError
  {
  }

  /**
   * The selection with a missing movie counted as loading only while no
   * error is reported, so that a failed first load shows the error pane
   * and its retry button.
   */
  function SelectPane(isLoadingDetails: bool, isError: bool, movie: Option<MovieDetails>): (p: Pane)
    ensures p == Skeleton <==> isLoadingDetails || (movie.None? && !isError)
    ensures p == ErrorPane <==> !isLoadingDetails && isError
    ensures p == Content <==> !isLoadingDetails && !isError && movie.Some?
  {
    var shouldShowLoading := isLoadingDetails || (movie.None? && !isError);
    var shouldShowError := isError && !shouldShowLoading;
    var shouldShowContent := movie.Some? && !shouldShowLoading && !shouldShowError;
    if shouldShowLoading then Skeleton
    else if shouldShowError then ErrorPane
    else if shouldShowContent then Content
    else ErrorPane
  }

  /** The pane shown for the dialog hook's state. */
  function PaneOf(d: DetailsDialog.State): Pane {
    SelectPane(d.isLoadingDetails, d.isDetailsError, d.selectedMovie)
  }

  /**
   * The first open fails to load its details: the hook reports the error
   * and stops loading, yet the selection as written shows the skeleton (and
   * keeps showing it: no retry button is reachable), while the corrected
   * selection shows the error pane.
   */
  lemma FailedFirstLoad(movieId: int, failure: Thrown)
    requires failure.name != AbortError
    ensures var (d1, b) := DetailsDialog.OpenStep(DetailsDialog.Initial, movieId);
      var d2 := DetailsDialog.DetailsDoneStep(d1, b, Rejected(failure));
      && b in d1.handles.inFlight
      && d2.isDetailsError && !d2.isLoadingDetails && d2.selectedMovie.None?
      && PaneAsWritten(d2.isLoadingDetails, d2.isDetailsError, d2.selectedMovie) == Skeleton
      && PaneOf(d2) == ErrorPane
  {
    var (d1, b) := DetailsDialog.OpenStep(DetailsDialog.Initial, movieId);
    assert DetailsDialog.Live(d1, b);
  }

  /** The cast listed: the first eight members, in order. */
  function ShownCast(cast: seq<CastMember>): (r: seq<CastMember>)
    ensures |r| == if |cast| < CastCap then |cast| else CastCap
    ensures r <= cast
  {
    if |cast| <= CastCap then cast else cast[..CastCap]
  }

  /** The cast section appears only with at least one member, and lists at most eight. */
  lemma CastCapped(cast: seq<CastMember>)
    ensures |ShownCast(cast)| <= CastCap
    ensures |ShownCast(cast)| > 0 <==> |cast| > 0
    ensures |cast| <= CastCap ==> ShownCast(cast) == cast
    ensures forall i | 0 <= i < |ShownCast(cast)| :: ShownCast(cast)[i] == cast[i]
  {
  }

  /** `onOpenChange(open)`: dismissing (open == false) calls `onClose`; opening does nothing. */
  function OnOpenChange(d: DetailsDialog.State, open: bool): DetailsDialog.State {
    if !open then DetailsDialog.CloseStep(d) else d
  }

  /** Dismissing closes and resets the dialog, whose pane is then the skeleton. */
  lemma DismissCloses(d: DetailsDialog.State)
    ensures var d' := OnOpenChange(d, false);
      !d'.isDialogOpen && d'.selectedMovie.None? && d'.cast == [] && !d'.isDetailsError
      && PaneOf(d') == Skeleton && d'.requestId == d.requestId
    ensures OnOpenChange(d, true) == d
  {
  }
}
