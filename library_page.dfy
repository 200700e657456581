/** src/pages/LibraryPage.tsx: the watched list as the page shows it (type filter,
    case-insensitive title search, one of four orders), and the card's quick-add,
    which only ever moves a watched item to the watchlist. */
module LibraryPage {
  import opened Opt
  import opened Strings
  import opened Seqs
  import opened Types
  import opened Database

  /** `SortType`: "recent" | "title" | "rating" | "year". */
  datatype SortMode = Recent | ByTitle | ByRating | ByYear

  function IsType(t: MediaType): MediaItem -> bool {
    (x: MediaItem) => x.mediaType == t
  }

  /** `item.title.toLowerCase().includes(q)` with `q = searchQuery.toLowerCase()` */
  function TitleMatches(query: string): MediaItem -> bool {
    (x: MediaItem) => Contains(Lower(x.title), Lower(query))
  }

  /** The two filters of `displayed`. */
  function Filtered(items: seq<MediaItem>, f: TypeFilter, query: string): seq<MediaItem> {
    var byType := match f
      case All => items
      case Only(t) => Filter(items, IsType(t));
    if query != "" then Filter(byType, TitleMatches(query)) else byType
  }

  /** `a.title.localeCompare(b.title)` */
  predicate TitleAsc(a: MediaItem, b: MediaItem) {
    StrLe(a.title, b.title)
  }

  /** `(b.user_rating ?? 0) - (a.user_rating ?? 0)` */
  predicate RatingDesc(a: MediaItem, b: MediaItem) {
    a.userRating.GetOr(0.0) >= b.userRating.GetOr(0.0)
  }

  /** `(b.release_date || "").localeCompare(a.release_date || "")` */
  predicate YearDesc(a: MediaItem, b: MediaItem) {
    StrLe(b.releaseDate, a.releaseDate)
  }

  /** The comparator of a sort mode, as "may stay in front of". */
  function Order(mode: SortMode): (MediaItem, MediaItem) -> bool {
    match mode
    case Recent => (a: MediaItem, b: MediaItem) => true
    case ByTitle => TitleAsc
    case ByRating => RatingDesc
    case ByYear => YearDesc
  }

  /** `displayed`: the filtered list, copied and sorted unless the order is "recent". */
  function Displayed(items: seq<MediaItem>, f: TypeFilter, query: string, mode: SortMode): seq<MediaItem> {
    var result := Filtered(items, f, query);
    if mode == Recent then result else SortBy(result, Order(mode))
  }

  /** Every comparator the page uses is a total preorder. */
  lemma OrdersTotal(mode: SortMode)
    ensures TotalPreorder(Order(mode))
  {
    match mode
    case Recent =>
    case ByTitle =>
      forall a: MediaItem, b: MediaItem ensures TitleAsc(a, b) || TitleAsc(b, a) {
        StrLeTotal(a.title, b.title);
      }
      forall a: MediaItem, b: MediaItem, c: MediaItem | TitleAsc(a, b) && TitleAsc(b, c)
        ensures TitleAsc(a, c)
      {
        StrLeTransitive(a.title, b.title, c.title);
      }
    case ByRating =>
    case ByYear =>
      forall a: MediaItem, b: MediaItem ensures YearDesc(a, b) || YearDesc(b, a) {
        StrLeTotal(a.releaseDate, b.releaseDate);
      }
      forall a: MediaItem, b: MediaItem, c: MediaItem | YearDesc(a, b) && YearDesc(b, c)
        ensures YearDesc(a, c)
      {
        StrLeTransitive(c.releaseDate, b.releaseDate, a.releaseDate);
      }
  }

  /** An item passes the filters exactly when it has the chosen type and, for a
      non-empty query, its title contains the query ignoring ASCII case. */
  lemma FilteredMembers(items: seq<MediaItem>, f: TypeFilter, query: string, x: MediaItem)
    ensures x in Filtered(items, f, query) <==>
      && x in items
      && (f.Only? ==> x.mediaType == f.mediaType)
      && (query != "" ==> Contains(Lower(x.title), Lower(query)))
  {
    var byType := match f
      case All => items
      case Only(t) => Filter(items, IsType(t));
    if f.Only? {
      FilterMembers(items, IsType(f.mediaType), x);
    }
    if query != "" {
      FilterMembers(byType, TitleMatches(query), x);
    }
  }

  /** The page shows a reordering of the filtered sublist of `items`: the same items,
      as often; "recent" keeps the input order, and the other modes are in their
      order. */
  lemma DisplayedSpec(items: seq<MediaItem>, f: TypeFilter, query: string, mode: SortMode)
    ensures multiset(Displayed(items, f, query, mode)) == multiset(Filtered(items, f, query))
    ensures mode == Recent ==> Displayed(items, f, query, mode) == Filtered(items, f, query)
    ensures mode == ByTitle ==> Sorted(Displayed(items, f, query, mode), TitleAsc)
    ensures mode == ByRating ==> Sorted(Displayed(items, f, query, mode), RatingDesc)
    ensures mode == ByYear ==> Sorted(Displayed(items, f, query, mode), YearDesc)
  {
    if mode != Recent {
      OrdersTotal(mode);
      SortBySorted(Filtered(items, f, query), Order(mode));
    }
  }

  /** Every displayed item has the chosen type and a title that contains the query. */
  lemma DisplayedMatch(items: seq<MediaItem>, f: TypeFilter, query: string, mode: SortMode, x: MediaItem)
    requires x in Displayed(items, f, query, mode)
    ensures x in items
    ensures f.Only? ==> x.mediaType == f.mediaType
    ensures query != "" ==> Contains(Lower(x.title), Lower(query))
  {
    DisplayedSpec(items, f, query, mode);
    assert x in multiset(Filtered(items, f, query));
    FilteredMembers(items, f, query, x);
  }

  /** The page's items are `getMediaByStatus("watched")`, newest first, so "recent"
      shows the matching watched rows newest first. */
  lemma RecentIsNewestFirst(rows: seq<MediaItem>, f: TypeFilter, query: string)
    ensures Sorted(Displayed(ByStatus(rows, Watched), f, query, Recent), NewerFirst)
  {
    var items := ByStatus(rows, Watched);
    ByStatusSpec(rows, Watched);
    var byType := match f
      case All => items
      case Only(t) => Filter(items, IsType(t));
    if f.Only? {
      FilterSorted(items, IsType(f.mediaType), NewerFirst);
    }
    if query != "" {
      FilterSorted(byType, TitleMatches(query), NewerFirst);
    }
  }

  /** The card's quick add: `if (item.id && status !== "watched") updateMedia(item.id, { status })`. */
  method LibraryQuickAdd(table: MediaTable, item: MediaItem, status: Status, now: Timestamp)
    returns (r: Result<()>)
    requires table.Valid()
    modifies table
    ensures table.Valid() && table.nextId == old(table.nextId)
    ensures !(HasId(item) && status != Watched) ==> r.Ok? && table.rows == old(table.rows)
    ensures HasId(item) && status != Watched ==>
      var u := UpdateRows(old(table.rows), item.id.value, StatusOnly(status), now);
      && (u.Ok? ==> r.Ok? && table.rows == u.value)
      && (u.Err? ==> r.Err? && table.rows == old(table.rows))
  {
    if HasId(item) && status != Watched {
      r := table.UpdateMedia(item.id.value, StatusOnly(status), now);
    } else {
      r := Ok(());
    }
  }

  /** `{ status }` */
  function StatusOnly(status: Status): (u: Updates)
    ensures u.Keys == {"status"} && WellTyped(u)
  {
    map["status" := Text(StatusName(status))]
  }

  /** A status-only update succeeds and changes only the status (and the stamp) of the
      row with that id. */
  lemma StatusOnlyEffect(rows: seq<MediaItem>, id: int, status: Status, now: Timestamp)
    ensures var u := UpdateRows(rows, id, StatusOnly(status), now);
      && u.Ok? && |u.value| == |rows|
      && forall i :: 0 <= i < |rows| ==>
           u.value[i] == if rows[i].id == Some(id) then rows[i].(status := status, updatedAt := Some(now)) else rows[i]
  {
    ChosenMembers(StatusOnly(status), 4, StatusField);
    assert ParseStatus(StatusName(status)) == Some(status);
  }
}
