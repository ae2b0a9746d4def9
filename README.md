# Pixel Breeders movie ratings — a Dafny model of the core

The application lists trending movies and searches them through a movie
provider. It shows each movie's details in a dialog, lets the single user rate
a movie from one to five stars, and lists the rated movies. A small Flask
service stores the ratings. This project models the logic of that application
that can be stated precisely, and proves what each piece promises:

- **Pagination bar** (`Pagination`): the window of page numbers and ellipsis
  markers that `getVisiblePages` builds with its two loops, the capped page
  count `safeTotal`, and the `go` guard.
- **Backend client** (`ApiPath`, `ApiFetch`, `RatingsClient`): the path rewriting
  of `normalizePath`/`apiPath`, the status handling of `apiFetch` as a decision
  on a response's status and parsed body, and the three rating calls with
  `getRating`'s NOT_FOUND-to-null rule.
- **Request controllers** (`MovieSearch`, `TrendingMovies`, `UserRatings`,
  `DetailsDialog`). Each hook is a class whose fields are the hook's state
  variables plus its abort handle. It has one method per event: issuing a
  request, a request completing with a given outcome, teardown, closing and so
  on. Every method is proved equal to a pure step function on a snapshot of the
  fields. The trace lemmas over those step functions state that an aborted or
  superseded request never writes what is shown. The abort handle (`Requests`)
  records the current controller, the aborted controllers and the requests
  still in flight.
- **Rated movies page** (`RatedPage`): the fan-out of detail fetches and the
  partition of their settled outcomes; the cancellable resolution effect; the
  pure list updaters that reconcile the page after a rating change; and the
  loading/error/empty/grid choice of the render. The program's effect is
  `EffectAsWritten`; the page steps (`RatingsChangedStep`, `ReconcileStep`,
  `PageStep`), their trace lemmas and the class `RatedPageState` run the
  corrected `Effect` of the first finding below, which also turns the loading
  flag off when the ratings become empty.
- **Small view rules** (`RatingStars`, `DetailsView`): the star toggle and the
  filled-star test; the skeleton/error/content choice of the details dialog, the
  cap on the shown cast, and the dialog's open-change handler.
- **Ratings service** (`JsonValues`, `RatingModel`, `RatingsService`,
  `RatingsRoutes`): the four route handlers over a table of rows with unique
  (user, movie) keys and ratings between 1 and 5. It includes `validate_json`
  with Python's `in` on whatever JSON value arrives. A rating value is tagged
  int, float or bool, since `isinstance(v, (int, float))` accepts booleans. The
  outcome of `db.session.commit()` is a parameter of each writing handler.

Where the design description and the code differ, the model follows the code:

- The rated page reconciles its lists after every rating change with a
  selected movie. This happens even when the save failed, because
  `handleRatingChange` catches every error (`RatedPage.FailedSaveStillReconciles`).
  The design describes reconciliation on success only.
- A 404 becomes `null` only in `getRating`; every other call fails with the
  message "NOT_FOUND". A failure carries a message, not a status code.
- The rating lookup in the details dialog is not given the abort signal.
  Closing the dialog does not bump the request id, so a late lookup is still
  applied after the dialog is closed.

## Model

| member | source | states |
|---|---|---|
| Pagination.PagesOfRun | frontend/src/components/pagination-bar.tsx:37-41 | the page numbers of a run are consecutive, from its first page on |
| Pagination.PagesOfWindow | frontend/src/components/pagination-bar.tsx:15-46 | the page numbers of a seven-slot window are 1, the middle pages, and total |
| Pagination.WindowShape | frontend/src/components/pagination-bar.tsx:15-46 | with more than seven pages: seven slots, first 1, last total, an ellipsis after 1 iff current > 4, an ellipsis before total iff current < total - 3, no two adjacent ellipses, strictly increasing pages within 1..total that include the current page when it is in range |
| Pagination.WindowPages | frontend/src/components/pagination-bar.tsx:26-46 | with more than seven pages the listed page numbers increase strictly, lie within 1..total and include the current page when it is in range |
| Pagination.SmallWindow | frontend/src/components/pagination-bar.tsx:22-24 | with 1..7 pages the pages are exactly 1..total, with no ellipsis, whatever the current page |
| Pagination.SnocEllipsis | frontend/src/components/pagination-bar.tsx:48-54 | appending an item leaves an ellipsis in the list iff there was one or the item is one |
| Pagination.SnocAdjacent | frontend/src/components/pagination-bar.tsx:48-54 | appending an item keeps ellipses apart iff they were apart and the item does not follow an ellipsis as another |
| Pagination.SnocPages | frontend/src/components/pagination-bar.tsx:48-54 | appending an item adds its page number, if it is a page, to the end of the page numbers |
| Pagination.SkipStep | frontend/src/components/pagination-bar.tsx:50-52 | skipping an ellipsis that follows the last kept one keeps every cleanup fact (no adjacent ellipses, same page numbers, an ellipsis iff the input prefix had one) one item further |
| Pagination.KeepStep | frontend/src/components/pagination-bar.tsx:50-53 | copying any other item keeps every cleanup fact one item further, including that the copy equals the input prefix when the input has no adjacent ellipses |
| Pagination.DropRepeatedEllipses | frontend/src/components/pagination-bar.tsx:48-54 | the cleanup loop leaves no two adjacent ellipses, keeps every page number in order, removes only ellipses, keeps an ellipsis wherever there was one, and changes nothing when no two were adjacent |
| Pagination.GetVisiblePages | frontend/src/components/pagination-bar.tsx:11-57 | the two loops build exactly the window for the current page |
| Pagination.SafeTotal | frontend/src/components/pagination-bar.tsx:76-79 | the capped count is at least 1; it is the total when no non-zero cap lowers it, the cap when 1 <= cap < total, and 1 for a negative cap or a total below 1 |
| Pagination.Bar | frontend/src/components/pagination-bar.tsx:76-93 | nothing is rendered iff the capped count is at most 1; otherwise the window, whose pages are all within the capped count |
| Pagination.LinkClick | frontend/src/components/pagination-bar.tsx:88-93 | a page link changes the page iff the bar is enabled and it is not the current page; the arrows move by one when enabled |
| ApiPath.HostLen | frontend/src/services/api.ts:4 | the scan of a host stops at the first character that is not a letter, digit, dot or dash |
| ApiPath.IndexOf | frontend/src/services/api.ts:5-6 | the index of the first occurrence, or -1 exactly when the character is absent |
| ApiPath.PortSlashMatches | frontend/src/services/api.ts:4-6 | the scanner recognises exactly the paths that begin with host, colon, digits and slash, and it cuts at the first slash |
| ApiPath.StripsHostPort | frontend/src/services/api.ts:4-6 | a path starting with host:port/ loses exactly that prefix and keeps its leading slash |
| ApiPath.SlashPathUnchanged | frontend/src/services/api.ts:3-14 | a path beginning with "/" is normalized to itself |
| ApiPath.ApiPathPrefix | frontend/src/services/api.ts:16-28 | the result always begins with "/api"; a normalized path already beginning with "/api" (even "/apiary") is returned unchanged; one without a leading "/" gets "/api/"; any other gets "/api" |
| ApiPath.ApiPathIdempotent | frontend/src/services/api.ts:3-28 | applying apiPath to its own result changes nothing |
| ApiFetch.StatusClassification | frontend/src/services/api.ts:39-53 | the body is returned iff the status is a 2xx other than 204 and the body parses; 204 gives no body and 404 fails with NOT_FOUND whatever the body; another failure carries the body's error field, otherwise "HTTP status", which is never NOT_FOUND |
| RatingsClient.RequestShapes | frontend/src/services/ratings.ts:29-47 | all three calls target /api/ratings/id, a fixed point of apiPath, with GET, PUT and DELETE; only the upsert sends a body, holding the rating |
| RatingsClient.GetRatingNull | frontend/src/services/ratings.ts:6-36 | getRating gives null exactly when the fetch failed with NOT_FOUND: after a 404, and also after another failure whose error field reads NOT_FOUND; 204 gives undefined; every other failure is rethrown |
| RatingsClient.DeleteIgnoresBody | frontend/src/services/ratings.ts:45-47 | deleteRating fails exactly when the fetch fails and otherwise resolves to nothing |
| Requests.AbortThenInstall | frontend/src/hooks/use-user-ratings.ts:18-21 | after abort-and-replace only the new controller is live, and it is not aborted |
| MovieSearch.Trim | frontend/src/hooks/use-movie-search.ts:20 | trimming never lengthens the string |
| MovieSearch.TrimSpec | frontend/src/hooks/use-movie-search.ts:20 | the trimmed query is a slice of the input with only white space cut from either end, starts and ends with non-space, and is empty iff the input is all white space |
| MovieSearch.StepInv | frontend/src/hooks/use-movie-search.ts:18-56 | every event keeps the abort handle consistent: only the current request can be live |
| MovieSearch.CompleteEffects | frontend/src/hooks/use-movie-search.ts:43-52 | results, page and total change only for a non-aborted success and then take its data; loading is cleared iff the request was not aborted; the error changes only on a non-abort failure, to "Erro ao buscar filmes." |
| MovieSearch.OnlyLatestWrites | frontend/src/hooks/use-movie-search.ts:23-47 | with one live request and no new search, what is shown stays as it is or becomes the data of that request's own successful completion |
| MovieSearch.LastSearchWins | frontend/src/hooks/use-movie-search.ts:18-56 | after a search, an empty query shows no results on page 1 of 1 whatever arrives later; otherwise only the new request's own success can change what is shown |
| MovieSearch.DuneThenEmpty | frontend/src/hooks/use-movie-search.ts:23-32 | searching "dune" then "" shows no results on page 1 of 1, in whatever order the network answers |
| MovieSearch.SearchHook.constructor | frontend/src/hooks/use-movie-search.ts:7-15 | the hook starts with an empty query, no results, page 1 of 1, not loading, no error |
| MovieSearch.SearchHook.SetQuery | frontend/src/hooks/use-movie-search.ts:60 | only the query changes |
| MovieSearch.SearchHook.Search | frontend/src/hooks/use-movie-search.ts:18-41 | the new state and issued request are those of the search step: trim the argument or the query, mark searched, abort, then short-circuit or install |
| MovieSearch.SearchHook.Complete | frontend/src/hooks/use-movie-search.ts:43-53 | the new state is that of the completion step for this request |
| TrendingMovies.StepInv | frontend/src/hooks/use-trending-movies.ts:17-48 | every event keeps the abort handle consistent, and no event other than a completion changes what is shown |
| TrendingMovies.SourceFollowsYear | frontend/src/hooks/use-trending-movies.ts:26-28 | a fetch asks for the given page, from discover-by-year iff the year is truthy; a changed year fetches page 1 from the source that year selects |
| TrendingMovies.CompleteEffects | frontend/src/hooks/use-trending-movies.ts:30-39 | movies, page and total change only for a non-aborted success and then take its data; loading is cleared iff not aborted; the error changes only on a non-abort failure, to the trending error message |
| TrendingMovies.OnlyLatestWrites | frontend/src/hooks/use-trending-movies.ts:18-34 | with one live request and no new fetch, what is shown stays or becomes that request's own successful data |
| TrendingMovies.LastFetchWins | frontend/src/hooks/use-trending-movies.ts:17-44 | after a fetch, only the new request's own success can change what is shown |
| TrendingMovies.TeardownFreezes | frontend/src/hooks/use-trending-movies.ts:47 | after teardown nothing that arrives changes what is shown |
| TrendingMovies.TrendingHook.Mount | frontend/src/hooks/use-trending-movies.ts:45-46 | mounting fetches page 1 for the given year |
| TrendingMovies.TrendingHook.FetchTrending | frontend/src/hooks/use-trending-movies.ts:17-28 | the new state and issued request are those of the fetch step |
| TrendingMovies.TrendingHook.Complete | frontend/src/hooks/use-trending-movies.ts:30-40 | the new state is that of the completion step |
| TrendingMovies.TrendingHook.Teardown | frontend/src/hooks/use-trending-movies.ts:47 | the in-flight controller is aborted |
| TrendingMovies.TrendingHook.ChangeYear | frontend/src/hooks/use-trending-movies.ts:42-48 | the same year changes nothing; another year tears down and fetches page 1 |
| UserRatings.StepInv | frontend/src/hooks/use-user-ratings.ts:17-51 | every event keeps the abort handle consistent; fetch and teardown leave the ratings alone |
| UserRatings.CompleteEffects | frontend/src/hooks/use-user-ratings.ts:27-37 | ratings change only for a non-aborted success and then become its list; loading is cleared iff not aborted (or already clear); the error changes only on a non-abort failure, to the ratings error message |
| UserRatings.OnlyLatestWrites | frontend/src/hooks/use-user-ratings.ts:18-30 | with one live request and no new fetch, the ratings stay or become that request's own successful list |
| UserRatings.LastFetchWins | frontend/src/hooks/use-user-ratings.ts:17-39 | after a fetch, only its own success can replace the ratings |
| UserRatings.LocalChangeSurvivesTeardown | frontend/src/hooks/use-user-ratings.ts:43-51 | a list set by the page survives teardown and every late completion |
| UserRatings.UserRatingsHook.Mount | frontend/src/hooks/use-user-ratings.ts:41-42 | mounting starts one fetch |
| UserRatings.UserRatingsHook.FetchRatings | frontend/src/hooks/use-user-ratings.ts:17-26 | the new state and token are those of the fetch step |
| UserRatings.UserRatingsHook.Complete | frontend/src/hooks/use-user-ratings.ts:27-38 | the new state is that of the completion step |
| UserRatings.UserRatingsHook.SetRatings | frontend/src/hooks/use-user-ratings.ts:51 | only the ratings change |
| UserRatings.UserRatingsHook.Teardown | frontend/src/hooks/use-user-ratings.ts:43 | the in-flight controller is aborted |
| DetailsDialog.StepInv | frontend/src/hooks/use-movie-details-dialog.ts:22-106 | every event keeps the handle, request id and pending-save bookkeeping consistent; an open takes the next request id; no other event changes the request id |
| DetailsDialog.OpenInv | frontend/src/hooks/use-movie-details-dialog.ts:33-43 | an open keeps the invariant and its controller carries the new latest request id |
| DetailsDialog.StepShown | frontend/src/hooks/use-movie-details-dialog.ts:51-54 | one event other than an open leaves the movie and cast, clears them, or writes the latest request's own details |
| DetailsDialog.OnlyLatestWrites | frontend/src/hooks/use-movie-details-dialog.ts:51-54 | without a new open, the movie and cast stay, are cleared, or become the latest request's own details |
| DetailsDialog.LatestOpenWins | frontend/src/hooks/use-movie-details-dialog.ts:33-72 | after an open, only that open's own successful details can be shown |
| DetailsDialog.RatingIgnoresAbort | frontend/src/hooks/use-movie-details-dialog.ts:22-71 | a lookup result is applied, or its failure sets the lookup error, exactly when its id is the latest, aborted or not; it never changes the movie or cast; loading is cleared iff the open is live; closing does not bump the id |
| DetailsDialog.DetailsDoneEffects | frontend/src/hooks/use-movie-details-dialog.ts:45-71 | the details error is set iff a non-abort failure arrives, whatever the id; movie and cast change only to a live open's own fetch; loading changes only for a live open and then ends off, and a success leaves it to the rating lookup |
| DetailsDialog.RatingDoneEffects | frontend/src/hooks/use-movie-details-dialog.ts:56-71 | loading changes only for a live open and ends off; the rating and the lookup error change only for the latest id; movie, cast and details error are untouched |
| DetailsDialog.RatingAppliedAfterClose | frontend/src/hooks/use-movie-details-dialog.ts:22-59 | open, details, close, then a late lookup of 4: the closed dialog holds rating 4 |
| DetailsDialog.StaleDetailsFailureSetsError | frontend/src/hooks/use-movie-details-dialog.ts:64-66 | a superseded open whose fetch fails with a non-abort error still sets the details error for the newer open |
| DetailsDialog.OptimisticRollback | frontend/src/hooks/use-movie-details-dialog.ts:74-98 | a change sets the rating at once, marks saving and clears the error; completion ends saving and either confirms the server's value (null after delete) or restores the previous rating with the save error; a 204 upsert counts as a failure |
| DetailsDialog.ClearThenFailRestores | frontend/src/hooks/use-movie-details-dialog.ts:84-94 | clearing rating 3 issues a delete, and its failure restores 3 with the save error |
| DetailsDialog.ChangeWithoutMovieIgnored | frontend/src/hooks/use-movie-details-dialog.ts:76 | a change without a selected movie is exactly a no-op |
| DetailsDialog.RetryTruthy | frontend/src/hooks/use-movie-details-dialog.ts:102-106 | retry reopens the last movie iff its id is set and not 0, and otherwise changes nothing |
| DetailsDialog.DialogHook.constructor | frontend/src/hooks/use-movie-details-dialog.ts:8-20 | the dialog starts closed, empty, with request id 0 |
| DetailsDialog.DialogHook.OpenMovie | frontend/src/hooks/use-movie-details-dialog.ts:33-43 | the new state and controller are those of the open step |
| DetailsDialog.DialogHook.DetailsDone | frontend/src/hooks/use-movie-details-dialog.ts:45-71 | the new state is that of the details-completion step |
| DetailsDialog.DialogHook.RatingDone | frontend/src/hooks/use-movie-details-dialog.ts:56-71 | the new state is that of the rating-completion step |
| DetailsDialog.DialogHook.CloseDialog | frontend/src/hooks/use-movie-details-dialog.ts:22-31 | the new state is that of the close step |
| DetailsDialog.DialogHook.HandleRatingChange | frontend/src/hooks/use-movie-details-dialog.ts:74-90 | the new state and issued request are those of the change step |
| DetailsDialog.DialogHook.SaveDone | frontend/src/hooks/use-movie-details-dialog.ts:85-97 | the new state is that of the save-completion step |
| DetailsDialog.DialogHook.Retry | frontend/src/hooks/use-movie-details-dialog.ts:102-106 | the new state and controller are those of the retry step |
| RatedPage.Fulfilled | frontend/src/pages/rated.tsx:49-58 | the resolved movies are never more than the fetches |
| RatedPage.FulfilledPositions | frontend/src/pages/rated.tsx:49-52 | the fulfilled positions are never more than the fetches |
| RatedPage.PositionsValid | frontend/src/pages/rated.tsx:49-52 | every recorded position is a fulfilled fetch |
| RatedPage.PositionsComplete | frontend/src/pages/rated.tsx:49-52 | every fulfilled fetch has its position recorded |
| RatedPage.PositionsIncreasing | frontend/src/pages/rated.tsx:49-52 | the positions are recorded in increasing order |
| RatedPage.FulfilledInOrder | frontend/src/pages/rated.tsx:37-58 | the resolved movies are exactly the fulfilled fetches, in rating order, each carrying its own entry's rating |
| RatedPage.RejectedIffFewer | frontend/src/pages/rated.tsx:54-64 | some fetch was rejected iff fewer movies than ratings were resolved |
| RatedPage.Filter | frontend/src/pages/rated.tsx:101-104 | the filtered list holds exactly the kept elements and is no longer |
| RatedPage.FilterConcat | frontend/src/pages/rated.tsx:101-104 | filtering distributes over concatenation, so untouched entries keep their relative order |
| RatedPage.UpdateWhere | frontend/src/pages/rated.tsx:117-133 | the mapped list has the same length and changes exactly the matching entries |
| RatedPage.DeleteReconciles | frontend/src/pages/rated.tsx:100-105 | delete removes every entry with the id from both lists, keeps every other entry in its relative order, and changes nothing when the id is absent |
| RatedPage.DeleteRemoves | frontend/src/pages/rated.tsx:100-105 | no entry with the deleted id remains in either list |
| RatedPage.FilterKeepsAll | frontend/src/pages/rated.tsx:101-104 | a filter that keeps every element returns the list unchanged |
| RatedPage.UpsertReconcilesRatings | frontend/src/pages/rated.tsx:109-120 | an absent id is prepended and the tail is unchanged; a present id keeps the length and changes only the matching ratings; the result holds the id with the new rating, and repeating the upsert changes nothing |
| RatedPage.UpsertReconcilesMovies | frontend/src/pages/rated.tsx:122-134 | an absent movie is prepended with its rating; a present one keeps the length and changes only the matching ratings |
| RatedPage.UpsertPrependsExample | frontend/src/pages/rated.tsx:109-128 | rating movie 3 at 2 after movies 1 and 2 puts movie 3 first in both lists |
| RatedPage.Effect | frontend/src/pages/rated.tsx:24-45 | corrected effect: empty ratings clear the movies and the loading flag and fetch nothing; otherwise a resolution for the current ratings starts and loading is set |
| RatedPage.EffectInv | frontend/src/pages/rated.tsx:24-77 | corrected: the effect keeps "loading iff a live resolution is pending" |
| RatedPage.PageStepInv | frontend/src/pages/rated.tsx:24-135 | corrected page: every page event keeps that invariant |
| RatedPage.LoadingTracksLiveResolution | frontend/src/pages/rated.tsx:24-77 | corrected page: over any run of events, loading holds exactly while the live resolution is pending |
| RatedPage.CancelledWritesNothing | frontend/src/pages/rated.tsx:47-76 | a cancelled resolution writes neither movies, error nor loading |
| RatedPage.LiveResolutionPublishes | frontend/src/pages/rated.tsx:33-68 | the live resolution publishes the fulfilled movies, sets the warning iff a fetch was rejected, and clears loading |
| RatedPage.EmptyRatingsNoFetch | frontend/src/pages/rated.tsx:25-28 | empty ratings clear the movies and start no fetch, as written and as corrected; as written the loading flag keeps its value |
| RatedPage.EmptyRatingsClearLoading | frontend/src/pages/rated.tsx:25-28 | corrected: the empty branch also turns loading off, and differs from the program's effect in nothing else |
| RatedPage.EmptyingWhileResolvingAsWritten | frontend/src/pages/rated.tsx:24-76 | as written: ratings emptied while a resolution runs leave loading set with no live resolution |
| RatedPage.NothingClearsCancelledLoading | frontend/src/pages/rated.tsx:47-68 | as written: once that happens, no later resolution clears loading |
| RatedPage.EmptyingWhileResolvingCorrected | frontend/src/pages/rated.tsx:24-28 | corrected: the same events end with loading cleared |
| RatedPage.FailedSaveStillReconciles | frontend/src/pages/rated.tsx:94-97 | a failed save rolls the dialog back, yet the page still records the new rating |
| RatedPage.ReconcileRestartsResolution | frontend/src/pages/rated.tsx:77-120 | corrected page: reconciliation produces a new ratings list, which cancels every running resolution and starts a new one iff the list is non-empty |
| RatedPage.Render | frontend/src/pages/rated.tsx:138-179 | the skeleton shows iff either side is loading and then alone; the grid shows the movies otherwise; the hook error wins over the resolve warning; the empty note shows only with no movies and no error |
| RatedPage.PartialFailureShowsBoth | frontend/src/pages/rated.tsx:156-179 | a partial failure shows the warning and the resolved movies together |
| RatedPage.RatedPageState.constructor | frontend/src/pages/rated.tsx:19-22 | the page starts with no ratings, no movies, not loading |
| RatedPage.RatedPageState.RunEffect | frontend/src/pages/rated.tsx:24-77 | the new state and started resolution are those of the corrected effect |
| RatedPage.RatedPageState.SetRatings | frontend/src/pages/rated.tsx:77 | new ratings cancel the running resolution and rerun the corrected effect |
| RatedPage.RatedPageState.Resolve | frontend/src/pages/rated.tsx:37-68 | the new state is that of the settling of that resolution |
| RatedPage.RatedPageState.OnRatingChange | frontend/src/pages/rated.tsx:94-135 | the new state is that of the reconciliation step, which reruns the corrected effect |
| RatingStars.ClickToggles | frontend/src/components/rating-stars.tsx:25-33 | a click calls nothing iff read-only or without a handler; otherwise the current star clears the rating and any other star sets it |
| RatingStars.FilledPrefix | frontend/src/components/rating-stars.tsx:37-54 | the filled stars form a prefix, none without a rating, and as many as the rating allows among the five |
| RatingStars.ClickThenDraw | frontend/src/components/rating-stars.tsx:25-54 | clicking star k fills exactly the first k stars; clicking it again fills none |
| DetailsView.AsWrittenErrorNeedsMovie | frontend/src/components/movie-details-dialog.tsx:56-85 | as written: exactly one pane shows; the error pane iff not loading, an error and a movie; the skeleton iff loading or no movie |
| DetailsView.SelectPane | frontend/src/components/movie-details-dialog.tsx:56-85 | corrected: the error pane iff not loading and an error, whether or not a movie arrived |
| DetailsView.FailedFirstLoad | frontend/src/components/movie-details-dialog.tsx:56-58 | a first open whose details fail shows the skeleton forever as written, and the error pane as corrected |
| DetailsView.ShownCast | frontend/src/components/movie-details-dialog.tsx:136 | the shown cast is a prefix of the cast of length min(size, 8) |
| DetailsView.CastCapped | frontend/src/components/movie-details-dialog.tsx:129-136 | at most eight members in order, none iff the cast is empty, all of a short cast |
| DetailsView.DismissCloses | frontend/src/components/movie-details-dialog.tsx:63 | open-change to false closes the dialog without bumping the request id; to true changes nothing |
| RatingModel.FromJson | backend/app/blueprints/ratings/routes.py:64 | a JSON value passes the type test iff it is an int, a float or a bool |
| RatingModel.RatingJsonRoundTrip | backend/app/blueprints/ratings/routes.py:60-64 | the tagged rating value and its JSON form convert into each other without loss |
| RatingModel.AcceptedRatings | backend/app/blueprints/ratings/routes.py:64 | the range test accepts ints 1..5, floats in [1, 5], and True but not False |
| RatingModel.ToDict | backend/app/models/rating.py:33-37 | the dictionary has exactly the keys tmdb_movie_id and rating |
| RatingModel.ToDictRoundTrip | backend/app/models/rating.py:33-37 | the dictionary gives back the row's movie and rating, and two rows give the same dictionary iff they agree on both |
| RatingsService.Contains | backend/app/services/ratings_service.py:3 | Python's `in` raises exactly on null, booleans and numbers |
| RatingsService.MissingFields | backend/app/services/ratings_service.py:3 | the missing fields are never more than the required ones |
| RatingsService.ValidateJson | backend/app/services/ratings_service.py:1-9 | a reported failure always names at least one field |
| RatingsService.MissingFieldsSpec | backend/app/services/ratings_service.py:3-5 | the check raises iff the body is a scalar; otherwise the missing fields are exactly the required fields absent from the body, in the required order, and none are missing iff every one is present |
| RatingsService.RatingFieldCheck | backend/app/services/ratings_service.py:1-9 | for an object, validation passes iff it has the key "rating", else it reports ["rating"]; an array passes iff it holds the string "rating"; a string passes iff "rating" is a substring; a scalar raises |
| RatingsRoutes.Find | backend/app/blueprints/ratings/routes.py:13-16 | the query finds the first row for the user and movie, or reports that none exists |
| RatingsRoutes.AsMapSpec | backend/app/models/rating.py:30 | with unique keys the table read as a map gives each row's rating under its key, and every key comes from a row |
| RatingsRoutes.RowsOf | backend/app/blueprints/ratings/routes.py:34-36 | the user's rows are exactly the table's rows for that user |
| RatingsRoutes.RowsOfConcat | backend/app/blueprints/ratings/routes.py:34-36 | selecting a user's rows distributes over concatenation, so they come out in table order |
| RatingsRoutes.RowsOfOne | backend/app/blueprints/ratings/routes.py:34-36 | a single row is selected iff it belongs to the user |
| RatingsRoutes.Dicts | backend/app/blueprints/ratings/routes.py:43 | one dictionary per row, the i-th being the i-th row's to_dict() |
| RatingsRoutes.GetRatingSpec | backend/app/blueprints/ratings/routes.py:8-27 | the reply is 200 iff a row exists for user 1 and the movie, with movie_id and the stored rating, and 404 with the movie id otherwise |
| RatingsRoutes.GetAllSpec | backend/app/blueprints/ratings/routes.py:29-43 | the reply is 404 iff user 1 has no rows, otherwise 200 with the dictionary of each of the user's rows |
| RatingsRoutes.CheckBodySpec | backend/app/blueprints/ratings/routes.py:50-65 | a body is accepted iff it is an object with an in-range int, float or bool "rating", which becomes the stored value; every rejection is 400, except 500 for a scalar body or for an array or string that passes the field check |
| RatingsRoutes.UpsertStatus | backend/app/blueprints/ratings/routes.py:47-97 | 200 iff accepted, committed and the row existed; 201 iff accepted, committed and new; 409 on an integrity failure; 400 exactly on a validation reply; the table is unchanged unless the reply is 200 or 201 |
| RatingsRoutes.UpsertKeepsValid | backend/app/models/rating.py:28-31 | every upsert keeps the keys unique and the ratings in 1..5 |
| RatingsRoutes.UpsertSetsRating | backend/app/blueprints/ratings/routes.py:67-86 | a committed upsert maps (user 1, movie) to the new rating and leaves every other key as it was |
| RatingsRoutes.UpsertKeepsValidKeys | backend/app/blueprints/ratings/routes.py:73-76 | updating a rating in place keeps the keys unique |
| RatingsRoutes.UpsertThenGet | backend/app/blueprints/ratings/routes.py:8-97 | after a committed upsert, get returns the new rating, and repeating the upsert answers 200 and changes nothing |
| RatingsRoutes.DeleteSpec | backend/app/blueprints/ratings/routes.py:99-114 | the reply has no body and is 204 unless a failed commit surfaces as 500 with the table unchanged; on 204 the key is gone and every other key keeps its rating |
| RatingsRoutes.RemoveRowKeepsValid | backend/app/blueprints/ratings/routes.py:110-111 | removing a row keeps the table valid |
| RatingsRoutes.RemoveRowMap | backend/app/blueprints/ratings/routes.py:110-111 | removing a row removes exactly its key from the map view |
| RatingsRoutes.DeleteIdempotent | backend/app/blueprints/ratings/routes.py:99-114 | deleting twice is the same as deleting once, answers 204, and get then answers 404 |
| RatingsRoutes.RatingsTable.constructor | backend/app/models/rating.py:4-31 | the table holds the given rows |
| RatingsRoutes.RatingsTable.GetRating | backend/app/blueprints/ratings/routes.py:8-27 | the reply is that of get_rating, 200 iff a row exists for user 1 and the movie |
| RatingsRoutes.RatingsTable.GetAllRatings | backend/app/blueprints/ratings/routes.py:29-43 | the reply is that of get_all_ratings, 404 iff user 1 has no rows |
| RatingsRoutes.RatingsTable.UpsertRate | backend/app/blueprints/ratings/routes.py:47-97 | the new table and reply are those of upsert_rate, and a valid table stays valid |
| RatingsRoutes.RatingsTable.DeleteRating | backend/app/blueprints/ratings/routes.py:99-114 | the new table and reply are those of delete_rating |

## Findings

| source | as written | input that shows it | evidently intended | confidence | as-written member | corrected member |
|---|---|---|---|---|---|---|
| frontend/src/pages/rated.tsx:24-68 | when the ratings become empty, the effect clears the movies and returns without clearing `isResolvingMovies`; the cleanup cancels the running resolution, whose `finally` then skips clearing it | one rating whose resolution is in flight, then the user deletes it from the dialog | the empty branch also clears the loading flag, so the page shows its empty note | not executed | RatedPage.EmptyingWhileResolvingAsWritten, RatedPage.NothingClearsCancelledLoading (on RatedPage.EffectAsWritten) | RatedPage.Effect, RatedPage.EmptyingWhileResolvingCorrected, RatedPage.LoadingTracksLiveResolution |
| frontend/src/components/movie-details-dialog.tsx:56-58 | `shouldShowLoading` holds whenever `movie` is null, so the error pane needs a movie; a first open whose details fail leaves the skeleton on screen and the retry button out of reach | open a movie whose details request fails with a network error | a failed load shows the error pane with its retry button | not executed | DetailsView.AsWrittenErrorNeedsMovie, DetailsView.FailedFirstLoad (on DetailsView.PaneAsWritten) | DetailsView.SelectPane, DetailsView.FailedFirstLoad |

## Left out

- The HTTP exchange, `AbortController`, Promise scheduling and React rendering
  are not modelled as such. Each request is an issued token. Its completion is
  an event carrying the settled outcome, so any order of network answers can
  be expressed. React's batching of state updates is not modelled: each
  handler's effects apply as one step.
- Closures that capture stale state (`selectedMovie` and `userRating` in
  `handleRatingChange`, `query` and `year` in the callbacks) are not modelled.
  Each step reads the current state.
- The movie provider's client (`frontend/src/services/tmdb.ts`) is not part of
  this model. Its responses are an abstract page `{results, page, total_pages}`,
  movie details and a cast list. `getUserRatings` is not defined in the shown
  client code, so the user ratings fetch is an abstract call as well.
- ApiPath.NormalizePath: the `URL` parsing of http(s) inputs is a function
  parameter, because the `URL` class is a foreign library. The lemmas hold for
  every such parser.
- `console.error`, the date formatting of the dialog and the page markup are
  not modelled.
- The rating's SMALLINT column and the database's coercion of a float or bool
  on commit are not modelled. The table keeps the tagged value that was
  accepted, so an upsert reply shows the value as sent, not as re-read.
- NaN and infinite floats, which Python's JSON parser accepts, are not modelled.
  Floats are exact reals here.
- The `created_at`/`updated_at` timestamps, sessions, the app factory, the
  configuration, the seed command and the users table are not modelled.
- The database's row order is taken to be the order of the table's sequence.
  `first()` is the first matching row in that order.
- The body of Flask's error page for an uncaught exception is not modelled. The
  reply is status 500 without a body.
- The route's `<int:...>` converter admits only natural movie ids, so the
  handlers take a `nat`.
