/**
 * The shapes of the data the movie-metadata provider returns.  The provider
 * itself (the HTTP calls in the TMDB service) is not part of this model: each
 * hook receives these values in a completion event.
 */
module Tmdb {
  import opened Wrappers

  datatype MovieSummary = MovieSummary(id: int, title: string, posterPath: Option<string>)

  /** A summary plus the optional overview and release date. */
  datatype MovieDetails = MovieDetails(id: int, title: string, posterPath: Option<string>,
                                       overview: Option<string>, releaseDate: Option<string>)

  datatype CastMember = CastMember(id: int, name: string, character: string)

  /** The provider's pagination envelope `{results, page, total_pages}`. */
  datatype PageData<T> = PageData(results: seq<T>, page: int, totalPages: int)
}
