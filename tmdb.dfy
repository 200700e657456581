/** The pure parts of src/lib/tmdb.ts: image URLs, and what each catalogue call does
    with the response it gets. The request itself is not modelled; a call is handed
    the response as a value. */
module Tmdb {
  import opened Opt
  import opened Seqs
  import opened Types

  const ImageBaseUrl: string := "https://image.tmdb.org/t/p"
  const DefaultPosterSize: string := "w342"
  const DefaultBackdropSize: string := "w1280"

  /** `${IMAGE_BASE_URL}/${size}${path}`, or "" for a null or empty path. */
  function ImageUrl(path: Option<string>, size: string): (url: string)
    ensures url == "" <==> !Truthy(path)
    ensures Truthy(path) ==> |url| == |ImageBaseUrl| + 1 + |size| + |path.value|
  {
    if !Truthy(path) then "" else ImageBaseUrl + "/" + size + path.value
  }

  /** `getPosterUrl(path, size)`; an omitted size is "w342". */
  function PosterUrl(path: Option<string>, size: Option<string>): string {
    ImageUrl(path, size.GetOr(DefaultPosterSize))
  }

  /** `getBackdropUrl(path, size)`; an omitted size is "w1280". */
  function BackdropUrl(path: Option<string>, size: Option<string>): string {
    ImageUrl(path, size.GetOr(DefaultBackdropSize))
  }

  /** The path part of an image URL built for `size`. */
  function ImagePath(url: string, size: string): string
    requires |ImageBaseUrl| + 1 + |size| <= |url|
  {
    url[|ImageBaseUrl| + 1 + |size|..]
  }

  /** A URL starts with the base and the size, and gives back the path it was built from. */
  lemma ImageUrlRoundTrip(path: Option<string>, size: string)
    requires Truthy(path)
    ensures var url := ImageUrl(path, size);
      && url[..|ImageBaseUrl| + 1 + |size|] == ImageBaseUrl + "/" + size
      && ImagePath(url, size) == path.value
  {
    var url := ImageUrl(path, size);
    assert url == (ImageBaseUrl + "/" + size) + path.value;
  }

  /** Two non-empty paths give the same URL at a size only when they are equal. */
  lemma ImageUrlInjective(p: Option<string>, q: Option<string>, size: string)
    requires Truthy(p) && Truthy(q)
    requires ImageUrl(p, size) == ImageUrl(q, size)
    ensures p == q
  {
    ImageUrlRoundTrip(p, size);
    ImageUrlRoundTrip(q, size);
  }

  /** The default sizes are the ones the UI asks for. */
  lemma DefaultSizes(path: Option<string>)
    requires Truthy(path)
    ensures PosterUrl(path, None) == ImageBaseUrl + "/w342" + path.value
    ensures BackdropUrl(path, None) == ImageBaseUrl + "/w1280" + path.value
  {
    assert ImageBaseUrl + "/" + DefaultPosterSize + path.value == ImageBaseUrl + "/w342" + path.value;
    assert ImageBaseUrl + "/" + DefaultBackdropSize + path.value == ImageBaseUrl + "/w1280" + path.value;
  }

  // ---------------------------------------------------------------------
  // Responses
  // ---------------------------------------------------------------------

  /** What a call sees of an HTTP response: `response.ok`, and the `results` field of
      its JSON body when there is one. */
  datatype Response = Response(ok: bool, results: Option<seq<TmdbResult>>)

  predicate IsMovieOrTv(r: TmdbResult) {
    r.mediaType == "movie" || r.mediaType == "tv"
  }

  /** `results.filter(item => item.media_type === "movie" || item.media_type === "tv")` */
  function KeepMoviesAndShows(results: seq<TmdbResult>): seq<TmdbResult> {
    Filter(results, IsMovieOrTv)
  }

  lemma KeepMoviesAndShowsSpec(results: seq<TmdbResult>, x: TmdbResult)
    ensures forall i :: 0 <= i < |KeepMoviesAndShows(results)| ==>
      ParseMediaType(KeepMoviesAndShows(results)[i].mediaType).Some?
    ensures x in KeepMoviesAndShows(results) <==> x in results && IsMovieOrTv(x)
    ensures KeepMoviesAndShows(KeepMoviesAndShows(results)) == KeepMoviesAndShows(results)
  {
    FilterMembers(results, IsMovieOrTv, x);
    FilterKeepsAll(KeepMoviesAndShows(results), IsMovieOrTv);
  }

  /** A list call that throws: `!response.ok`, or a body without `results` (reading
      `.filter` or `.map` of undefined). */
  function Fetched(resp: Response, failure: string): Result<seq<TmdbResult>> {
    if !resp.ok then Err(failure)
    else if resp.results.None? then Err("TypeError: results is undefined")
    else Ok(resp.results.value)
  }

  /** `searchMedia(query)`: the response's results, movies and shows only. */
  function SearchMedia(resp: Response): (r: Result<seq<TmdbResult>>)
    ensures r.Err? <==> !resp.ok || resp.results.None?
    ensures r.Ok? ==> r.value == KeepMoviesAndShows(resp.results.value)
  {
    match Fetched(resp, "Failed to search media")
    case Ok(results) => Ok(KeepMoviesAndShows(results))
    case Err(m) => Err(m)
  }

  /** `getTrending()` */
  function Trending(resp: Response): (r: Result<seq<TmdbResult>>)
    ensures r.Err? <==> !resp.ok || resp.results.None?
    ensures r.Ok? ==> r.value == KeepMoviesAndShows(resp.results.value)
  {
    match Fetched(resp, "Failed to fetch trending")
    case Ok(results) => Ok(KeepMoviesAndShows(results))
    case Err(m) => Err(m)
  }

  /** `results.map(item => ({ ...item, media_type: t }))` */
  function StampAll(results: seq<TmdbResult>, t: MediaType): (r: seq<TmdbResult>)
    ensures |r| == |results|
    ensures forall i :: 0 <= i < |r| ==> r[i] == results[i].(mediaType := MediaTypeName(t))
  {
    seq(|results|, i requires 0 <= i < |results| => results[i].(mediaType := MediaTypeName(t)))
  }

  /** The popular and top-rated lists: every item stamped with the list's type. */
  function StampedList(resp: Response, t: MediaType, failure: string): (r: Result<seq<TmdbResult>>)
    ensures r.Err? <==> !resp.ok || resp.results.None?
    ensures r.Ok? ==> StampAll(resp.results.value, t) == r.value
  {
    match Fetched(resp, failure)
    case Ok(results) => Ok(StampAll(results, t))
    case Err(m) => Err(m)
  }

  function PopularMovies(resp: Response): Result<seq<TmdbResult>> {
    StampedList(resp, Movie, "Failed to fetch popular movies")
  }

  function PopularTv(resp: Response): Result<seq<TmdbResult>> {
    StampedList(resp, Tv, "Failed to fetch popular TV")
  }

  function TopRatedMovies(resp: Response): Result<seq<TmdbResult>> {
    StampedList(resp, Movie, "Failed to fetch top rated movies")
  }

  function TopRatedTv(resp: Response): Result<seq<TmdbResult>> {
    StampedList(resp, Tv, "Failed to fetch top rated TV")
  }

  /** Every item of a stamped list has the list's type and keeps everything else. */
  lemma StampedListSpec(resp: Response, t: MediaType, failure: string)
    requires resp.ok && resp.results.Some?
    ensures var r := StampedList(resp, t, failure);
      && r.Ok? && |r.value| == |resp.results.value|
      && forall i :: 0 <= i < |r.value| ==>
           && ParseMediaType(r.value[i].mediaType) == Some(t)
           && r.value[i].id == resp.results.value[i].id
           && r.value[i].voteAverage == resp.results.value[i].voteAverage
  {
    MediaTypeRoundTrip(t);
  }

  /** `item.media_type || mediaType` */
  function OwnTypeOr(item: TmdbResult, queried: MediaType): TmdbResult {
    if item.mediaType != "" then item else item.(mediaType := MediaTypeName(queried))
  }

  /** `getRecommendations(tmdbId, mediaType)`: `[]` for a response that is not ok or
      has no results; otherwise each item with its own type, or the queried one. */
  function Recommendations(resp: Response, queried: MediaType): (r: seq<TmdbResult>)
    ensures !resp.ok || resp.results.None? ==> r == []
    ensures resp.ok && resp.results.Some? ==> |r| == |resp.results.value|
  {
    if !resp.ok then []
    else
      var results := resp.results.GetOr([]);
      seq(|results|, i requires 0 <= i < |results| => OwnTypeOr(results[i], queried))
  }

  /** A recommendation keeps its own non-empty type and otherwise takes the queried
      one; nothing else about it changes. */
  lemma RecommendationsSpec(resp: Response, queried: MediaType)
    requires resp.ok && resp.results.Some?
    ensures var r := Recommendations(resp, queried);
      var src := resp.results.value;
      forall i :: 0 <= i < |r| ==>
        && r[i].mediaType != ""
        && (src[i].mediaType != "" ==> r[i] == src[i])
        && (src[i].mediaType == "" ==> r[i] == src[i].(mediaType := MediaTypeName(queried)))
  {
  }

  // ---------------------------------------------------------------------
  // The pages' type filter over result lists
  // ---------------------------------------------------------------------

  function HasType(t: MediaType): TmdbResult -> bool {
    (r: TmdbResult) => r.mediaType == MediaTypeName(t)
  }

  /** `filter === "all" ? items : items.filter(item => item.media_type === filter)` */
  function FilterByType(items: seq<TmdbResult>, f: TypeFilter): seq<TmdbResult> {
    match f
    case All => items
    case Only(t) => Filter(items, HasType(t))
  }

  /** "all" keeps the list; a type keeps exactly the results of that type, and
      filtering again by it changes nothing. */
  lemma FilterByTypeSpec(items: seq<TmdbResult>, f: TypeFilter, x: TmdbResult)
    ensures f.All? ==> FilterByType(items, f) == items
    ensures f.Only? ==> (x in FilterByType(items, f) <==> x in items && x.mediaType == MediaTypeName(f.mediaType))
    ensures f.Only? ==> forall i :: 0 <= i < |FilterByType(items, f)| ==>
      FilterByType(items, f)[i].mediaType == MediaTypeName(f.mediaType)
    ensures FilterByType(FilterByType(items, f), f) == FilterByType(items, f)
  {
    if f.Only? {
      FilterMembers(items, HasType(f.mediaType), x);
      FilterKeepsAll(FilterByType(items, f), HasType(f.mediaType));
    }
  }
}
