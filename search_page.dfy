/** src/pages/SearchPage.tsx: the query box, the debounced search it schedules, the
    type filter over the results and the counts on the filter buttons. The quick-add
    of a result card is the same code as the discover page's (module QuickAdd). */
module SearchPage {
  import opened Opt
  import opened Strings
  import opened Seqs
  import opened Types
  import opened Tmdb

  const SearchFailed: string := "Search failed. Check your API key and connection."

  /** `SelectedMedia`: what a click on a result hands to the detail view. */
  datatype SelectedMedia = SelectedMedia(tmdbId: int, mediaType: string, title: string, posterPath: Option<string>)

  /** `handleSelect(item)` */
  function Selection(item: TmdbResult): (m: SelectedMedia)
    ensures m.tmdbId == item.id && m.mediaType == item.mediaType && m.posterPath == item.posterPath
    ensures m.title != ""
    ensures Truthy(item.title) ==> m.title == item.title.value
    ensures !Truthy(item.title) && Truthy(item.name) ==> m.title == item.name.value
    ensures !Truthy(item.title) && !Truthy(item.name) ==> m.title == "Unknown"
  {
    SelectedMedia(item.id, item.mediaType, DisplayTitle(item.title, item.name), item.posterPath)
  }

  /** The page's state. `pending` is the query the debounce timer will search for, if
      one is set. */
  class SearchState {
    var query: string
    var results: seq<TmdbResult>
    var pending: Option<string>
    var error: Option<string>

    /** A scheduled query is trimmed and not blank, and every result is a movie or a
        show. */
    ghost predicate Valid()
      reads this
    {
      && (pending.Some? ==> pending.value != "" && Trim(pending.value) == pending.value)
      && (forall i :: 0 <= i < |results| ==> IsMovieOrTv(results[i]))
    }

    constructor ()
      ensures Valid()
      ensures query == "" && results == [] && pending.None? && error.None?
    {
      query, results, pending, error := "", [], None, None;
    }

    /** `handleInputChange(value)`: the previous timer is cleared; a blank query clears
        the results, any other schedules a search for the trimmed query. */
    method HandleInputChange(value: string)
      requires Valid()
      modifies this
      ensures Valid()
      ensures query == value && error == old(error)
      ensures Trim(value) == "" ==> results == [] && pending.None?
      ensures Trim(value) != "" ==> results == old(results) && pending == Some(Trim(value))
    {
      query := value;
      pending := None;
      var trimmed := Trim(value);
      if trimmed == "" {
        results := [];
        return;
      }
      TrimIdempotent(value);
      pending := Some(trimmed);
    }

    /** The clear button: empties the query and the results. It does not clear the
        timer, so a search already scheduled still runs. */
    method Clear()
      requires Valid()
      modifies this
      ensures Valid()
      ensures query == "" && results == [] && pending == old(pending) && error == old(error)
    {
      query, results := "", [];
    }

    /** The timer fires: `doSearch(pending)`, given the response to that search. */
    method RunPendingSearch(resp: Response)
      requires Valid()
      requires pending.Some?
      modifies this
      ensures Valid()
      ensures pending.None? && query == old(query)
      ensures var r := SearchMedia(resp);
        && (r.Ok? ==> results == r.value && error.None?)
        && (r.Err? ==> results == old(results) && error == Some(SearchFailed))
    {
      pending := None;
      error := None;
      var r := SearchMedia(resp);
      if r.Err? {
        error := Some(SearchFailed);
        return;
      }
      results := r.value;
    }

    /** `filtered` */
    function Filtered(f: TypeFilter): seq<TmdbResult>
      reads this
    {
      FilterByType(results, f)
    }

    /** The count on a filter button. */
    function Count(f: TypeFilter): nat
      reads this
    {
      if f.All? then |results| else |Filtered(f)|
    }
  }

  /** Results that are all movies or shows split into the two type filters. */
  lemma TypeCountsAddUp(results: seq<TmdbResult>)
    requires forall i :: 0 <= i < |results| ==> IsMovieOrTv(results[i])
    ensures |FilterByType(results, Only(Movie))| + |FilterByType(results, Only(Tv))| == |results|
  {
    FilterComplement(results, HasType(Movie), HasType(Tv));
  }

  /** The "all" count is the number of results, each type's count is the length of its
      filtered list, and the two type counts add up to the "all" count. */
  lemma CountsMatchFilters(s: SearchState)
    requires s.Valid()
    ensures s.Count(All) == |s.Filtered(All)| == |s.results|
    ensures s.Count(Only(Movie)) == |s.Filtered(Only(Movie))|
    ensures s.Count(Only(Tv)) == |s.Filtered(Only(Tv))|
    ensures s.Count(Only(Movie)) + s.Count(Only(Tv)) == s.Count(All)
  {
    TypeCountsAddUp(s.results);
  }
}
