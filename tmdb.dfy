/**
 * The metadata-service client: the image URL builder and the failure policy
 * of the five fetchers. The HTTP transport is abstracted to an `Outcome`:
 * either the response body arrived or the request raised.
 */
module Tmdb {
  import opened Wrappers
  import opened Movies
  import opened Strings

  /** The CDN prefix every image URL starts with. */
  const ImageBase := "https://image.tmdb.org/t/p/"

  /** The size used when a caller passes none (`size = 'w500'`). */
  const DefaultSize := "w500"

  /** JavaScript truthiness of an optional string: not null/undefined and not "". */
  predicate Truthy(s: Option<string>)
    ensures !Truthy(s) <==> s == None || s == Some("")
  {
    s.Some? && s.value != ""
  }

  /** The size after the default parameter is applied; `None` is an omitted argument. */
  function EffectiveSize(size: Option<string>): (r: string)
    ensures size.Some? ==> r == size.value
    ensures size.None? ==> r == "w500"
  {
    if size.Some? then size.value else DefaultSize
  }

  /**
   * `getImageUrl(path, size)`: no URL for a falsy path, otherwise the CDN
   * prefix, then the size, then the path.
   */
  function ImageUrl(path: Option<string>, size: Option<string>): (r: Option<string>)
    ensures r.None? <==> !Truthy(path)
    ensures r.Some? ==>
      var sz := EffectiveSize(size);
      && |r.value| == |ImageBase| + |sz| + |path.value|
      && r.value[..|ImageBase|] == ImageBase
      && r.value[|ImageBase|..|ImageBase| + |sz|] == sz
      && r.value[|ImageBase| + |sz|..] == path.value
  {
    if !Truthy(path) then None
    else Some(ImageBase + EffectiveSize(size) + path.value)
  }

  /**
   * The inverse of `ImageUrl` for a known size: the path of a URL, or
   * `None` when the URL does not start with the CDN prefix and that size
   * or has nothing after them.
   */
  function ImagePath(url: string, size: string): (r: Option<string>)
    ensures r.Some? ==> r.value != "" && url == ImageBase + size + r.value
  {
    var head := ImageBase + size;
    if |head| < |url| && url[..|head|] == head then Some(url[|head|..]) else None
  }

  /** Building a URL and reading its path back gives the path again. */
  lemma ImagePathOfImageUrl(path: Option<string>, size: Option<string>)
    requires Truthy(path)
    ensures ImageUrl(path, size).Some?
    ensures ImagePath(ImageUrl(path, size).value, EffectiveSize(size)) == path
  {
  }

  /** The URL contains both the size and the path. */
  lemma ImageUrlContainsSizeAndPath(path: Option<string>, size: Option<string>)
    requires Truthy(path)
    ensures ImageUrl(path, size).Some?
    ensures Includes(ImageUrl(path, size).value, EffectiveSize(size))
    ensures Includes(ImageUrl(path, size).value, path.value)
  {
    var url, sz := ImageUrl(path, size).value, EffectiveSize(size);
    assert OccursAt(sz, url, |ImageBase|);
    assert OccursAt(path.value, url, |ImageBase| + |sz|);
  }

  /** Omitting the size is the same as asking for `w500`. */
  lemma ImageUrlDefaultSize(path: Option<string>)
    ensures ImageUrl(path, None) == ImageUrl(path, Some("w500"))
  {
  }

  /** What the transport delivered: the response body, or a raised error. */
  datatype Outcome<T> = Delivered(body: T) | Failed

  /** The body of a list endpoint. */
  datatype Page = Page(results: seq<Movie>)

  /**
   * The policy shared by `getTrendingMovies`, `getTopRatedMovies`,
   * `getUpcomingMovies` and `searchMovies`: the page's results on success,
   * the empty list on any error.
   */
  function ListResult(o: Outcome<Page>): (r: seq<Movie>)
    ensures o.Delivered? ==> r == o.body.results
    ensures o.Failed? ==> r == []
  {
    match o
    case Delivered(page) => page.results
    case Failed => []
  }

  /** `getMovieDetails`: the body on success, null on any error. */
  function DetailsResult(o: Outcome<Movie>): (r: Option<Movie>)
    ensures r.Some? <==> o.Delivered?
    ensures r.Some? ==> r.value == o.body
  {
    match o
    case Delivered(movie) => Some(movie)
    case Failed => None
  }
}
