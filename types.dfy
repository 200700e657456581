/** The record shapes of src/lib/types.ts, and the table's value constraints from
    the schema in src-tauri/src/lib.rs. */
module Types {
  import opened Opt
  import opened Strings

  /** `media_type: "movie" | "tv"`, which the table also enforces with a CHECK. */
  datatype MediaType = Movie | Tv

  /** `status: "watched" | "watchlist"`, also enforced by a CHECK. */
  datatype Status = Watched | Watchlist

  function MediaTypeName(t: MediaType): string {
    match t
    case Movie => "movie"
    case Tv => "tv"
  }

  /** Reads a raw `media_type` string; `None` for a value the table would refuse. */
  function ParseMediaType(s: string): (r: Option<MediaType>)
    ensures r.Some? ==> MediaTypeName(r.value) == s
  {
    if s == "movie" then Some(Movie) else if s == "tv" then Some(Tv) else None
  }

  lemma MediaTypeRoundTrip(t: MediaType)
    ensures ParseMediaType(MediaTypeName(t)) == Some(t)
  {
  }

  function StatusName(st: Status): string {
    match st
    case Watched => "watched"
    case Watchlist => "watchlist"
  }

  /** Reads a raw `status` string; `None` for a value the table would refuse. */
  function ParseStatus(s: string): (r: Option<Status>)
    ensures r.Some? ==> StatusName(r.value) == s
  {
    if s == "watched" then Some(Watched) else if s == "watchlist" then Some(Watchlist) else None
  }

  /** Timestamps (`created_at`, `updated_at`) as ticks of an abstract clock. */
  type Timestamp = int

  /** `MediaItem`: one library row. */
  datatype MediaItem = MediaItem(
    id: Option<nat>,
    tmdbId: int,
    mediaType: MediaType,
    title: string,
    posterPath: Option<string>,
    backdropPath: Option<string>,
    overview: string,
    releaseDate: string,
    genres: string,
    voteAverage: real,
    status: Status,
    userRating: Option<real>,
    userNotes: Option<string>,
    watchedDate: Option<string>,
    createdAt: Option<Timestamp>,
    updatedAt: Option<Timestamp>)

  /** `Omit<MediaItem, "id" | "created_at" | "updated_at">`: what `addMedia` is given. */
  datatype NewMedia = NewMedia(
    tmdbId: int,
    mediaType: MediaType,
    title: string,
    posterPath: Option<string>,
    backdropPath: Option<string>,
    overview: string,
    releaseDate: string,
    genres: string,
    voteAverage: real,
    status: Status,
    userRating: Option<real>,
    userNotes: Option<string>,
    watchedDate: Option<string>)

  /** `TmdbSearchResult`. The catalogue's `media_type` is kept as the raw string it
      sends ("" when absent): nothing checks it before the page code sees it. */
  datatype TmdbResult = TmdbResult(
    id: int,
    title: Option<string>,
    name: Option<string>,
    mediaType: string,
    posterPath: Option<string>,
    backdropPath: Option<string>,
    overview: string,
    releaseDate: Option<string>,
    firstAirDate: Option<string>,
    voteAverage: real)

  datatype Genre = Genre(id: int, name: string)

  /** `TmdbDetails`, the fields the core reads. */
  datatype TmdbDetails = TmdbDetails(
    title: Option<string>,
    name: Option<string>,
    posterPath: Option<string>,
    backdropPath: Option<string>,
    overview: string,
    releaseDate: Option<string>,
    firstAirDate: Option<string>,
    genres: seq<Genre>,
    voteAverage: real)

  /** The pages' type filter: "all" | "movie" | "tv". */
  datatype TypeFilter = All | Only(mediaType: MediaType)

  /** The identity key `${tmdb_id}-${media_type}` as a pair. */
  type Key = (int, string)

  function ItemKey(item: MediaItem): Key {
    (item.tmdbId, MediaTypeName(item.mediaType))
  }

  function ResultKey(r: TmdbResult): Key {
    (r.id, r.mediaType)
  }

  /** Whether an optional string is truthy: present and not "". */
  predicate Truthy(s: Option<string>) {
    s.Some? && s.value != ""
  }

  /** `a || b || fallback` over optional strings. */
  function FirstTruthy(a: Option<string>, b: Option<string>, fallback: string): (r: string)
    ensures Truthy(a) ==> r == a.value
    ensures !Truthy(a) && Truthy(b) ==> r == b.value
    ensures !Truthy(a) && !Truthy(b) ==> r == fallback
  {
    if Truthy(a) then a.value else if Truthy(b) then b.value else fallback
  }

  /** `item.title || item.name || "Unknown"` */
  function DisplayTitle(title: Option<string>, name: Option<string>): (r: string)
    ensures r != ""
    ensures r == "Unknown" || Some(r) == title || Some(r) == name
  {
    FirstTruthy(title, name, "Unknown")
  }

  /** `genres.map(g => g.name).join(", ")` */
  function GenreNames(genres: seq<Genre>): (r: seq<string>)
    ensures |r| == |genres|
    ensures forall i :: 0 <= i < |genres| ==> r[i] == genres[i].name
  {
    seq(|genres|, i requires 0 <= i < |genres| => genres[i].name)
  }

  function JoinGenres(genres: seq<Genre>): string {
    Join(GenreNames(genres), ", ")
  }

  /** `JSON` `id` truthiness: present and not 0. The table hands out ids from 1. */
  predicate HasId(item: MediaItem) {
    item.id.Some? && item.id.value != 0
  }
}
