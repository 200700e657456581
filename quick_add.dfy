/** The quick-add button of a catalogue card: `handleQuickAdd` in
    src/pages/DiscoverPage.tsx, which src/pages/SearchPage.tsx repeats word for word.
    An item already in the library gets its status and watched date updated; any other
    item is looked up for its genres and added with no rating and no notes. */
module QuickAdd {
  import opened Opt
  import opened Types
  import opened Database

  /** `status === "watched" ? today : otherwise` */
  function DateFor(status: Status, today: string, otherwise: Option<string>): (d: Option<string>)
    ensures status == Watched ==> d == Some(today)
    ensures status == Watchlist ==> d == otherwise
  {
    if status == Watched then Some(today) else otherwise
  }

  /** A nullable string as the value bound to an SQL parameter. */
  function TextOrNull(s: Option<string>): (v: Value)
    ensures TextValue(v) == s
  {
    match s
    case Some(x) => Text(x)
    case None => Null
  }

  /** `{ status, watched_date: ... }` for a row already in the library. */
  function ExistingUpdates(existing: MediaItem, status: Status, today: string): (u: Updates)
    ensures u.Keys == {"status", "watched_date"}
    ensures WellTyped(u)
    ensures u["status"] == Text(StatusName(status))
    ensures TextValue(u["watched_date"]) == DateFor(status, today, existing.watchedDate)
  {
    map["status" := Text(StatusName(status)),
        "watched_date" := TextOrNull(DateFor(status, today, existing.watchedDate))]
  }

  /** The record `addMedia` gets for a new item, or `None` when the catalogue's type is
      one the table's CHECK refuses. */
  function NewRecord(item: TmdbResult, details: TmdbDetails, status: Status, today: string): (r: Option<NewMedia>)
    ensures r.None? <==> ParseMediaType(item.mediaType).None?
    ensures r.Some? ==>
      && NewMediaKey(r.value) == (item.id, item.mediaType)
      && r.value.title == DisplayTitle(item.title, item.name)
      && r.value.releaseDate == FirstTruthy(item.releaseDate, item.firstAirDate, "")
      && r.value.genres == JoinGenres(details.genres)
      && r.value.status == status
      && r.value.userRating.None? && r.value.userNotes.None?
      && r.value.watchedDate == DateFor(status, today, None)
  {
    match ParseMediaType(item.mediaType)
    case None => None
    case Some(t) =>
      Some(NewMedia(item.id, t, DisplayTitle(item.title, item.name), item.posterPath,
        item.backdropPath, item.overview, FirstTruthy(item.releaseDate, item.firstAirDate, ""),
        JoinGenres(details.genres), item.voteAverage, status, None, None,
        DateFor(status, today, None)))
  }

  /** What a quick add does to the rows and the next id. `details` is the outcome of
      `getMediaDetails`, which is only asked for an item not yet in the library. */
  function QuickAddEffect(rows: seq<MediaItem>, nextId: nat, item: TmdbResult, status: Status,
                          details: Result<TmdbDetails>, today: string, now: Timestamp)
    : Result<(seq<MediaItem>, nat)>
  {
    var existing := ByTmdbId(rows, item.id, item.mediaType);
    if existing.Some? && HasId(existing.value) then
      match UpdateRows(rows, existing.value.id.value, ExistingUpdates(existing.value, status, today), now)
      case Ok(rs) => Ok((rs, nextId))
      case Err(m) => Err(m)
    else
      match details
      case Err(m) => Err(m)
      case Ok(d) =>
        match NewRecord(item, d, status, today)
        case None => Err("CHECK constraint failed: media")
        case Some(rec) => Upsert(rows, nextId, rec, now)
  }

  /** `handleQuickAdd(item, status)` on the table. A failure is caught by the page and
      leaves the table as it was. */
  method QuickAdd(table: MediaTable, item: TmdbResult, status: Status,
                  details: Result<TmdbDetails>, today: string, now: Timestamp)
    returns (r: Result<()>)
    requires table.Valid()
    modifies table
    ensures table.Valid()
    ensures var e := QuickAddEffect(old(table.rows), old(table.nextId), item, status, details, today, now);
      && (e.Ok? ==> r.Ok? && table.rows == e.value.0 && table.nextId == e.value.1)
      && (e.Err? ==> r.Err? && table.rows == old(table.rows) && table.nextId == old(table.nextId))
  {
    var existing := ByTmdbId(table.rows, item.id, item.mediaType);
    if existing.Some? && HasId(existing.value) {
      r := table.UpdateMedia(existing.value.id.value, ExistingUpdates(existing.value, status, today), now);
      return;
    }
    if details.Err? {
      return Err(details.message);
    }
    var rec := NewRecord(item, details.value, status, today);
    if rec.None? {
      return Err("CHECK constraint failed: media");
    }
    r := table.AddMedia(rec.value, now);
  }

  /** In a table that keeps its invariant, an id names one row. */
  lemma IdNamesOneRow(rows: seq<MediaItem>, nextId: nat, i: int, j: int)
    requires TableInvariant(rows, nextId)
    requires 0 <= i < |rows| && 0 <= j < |rows|
    ensures rows[i].id == rows[j].id ==> i == j
  {
    if i < j {
      assert RowBefore(rows[i], rows[j]);
    } else if j < i {
      assert RowBefore(rows[j], rows[i]);
    }
  }

  /** On an item already in the library, a quick add changes only that row's status and
      watched date (today when watched, the old date otherwise), and stamps it. */
  lemma QuickAddExisting(rows: seq<MediaItem>, nextId: nat, item: TmdbResult, status: Status,
                         details: Result<TmdbDetails>, today: string, now: Timestamp)
    requires TableInvariant(rows, nextId)
    requires ByTmdbId(rows, item.id, item.mediaType).Some?
    ensures var x := ByTmdbId(rows, item.id, item.mediaType).value;
      var e := QuickAddEffect(rows, nextId, item, status, details, today, now);
      && e.Ok? && e.value.1 == nextId && |e.value.0| == |rows|
      && forall i :: 0 <= i < |rows| ==>
           e.value.0[i] == if rows[i] == x
             then x.(status := status, watchedDate := DateFor(status, today, x.watchedDate), updatedAt := Some(now))
             else rows[i]
  {
    var x := ByTmdbId(rows, item.id, item.mediaType).value;
    var k :| 0 <= k < |rows| && rows[k] == x;
    ExistingRowUpdated(rows, nextId, k, status, today, now);
    forall i | 0 <= i < |rows| ensures rows[i] == x <==> i == k {
      IdNamesOneRow(rows, nextId, i, k);
    }
  }

  /** The update of a quick add, on the stored row at index `k`. */
  lemma ExistingRowUpdated(rows: seq<MediaItem>, nextId: nat, k: nat, status: Status, today: string, now: Timestamp)
    requires TableInvariant(rows, nextId)
    requires k < |rows|
    ensures var x := rows[k];
      var u := UpdateRows(rows, x.id.value, ExistingUpdates(x, status, today), now);
      && u.Ok? && |u.value| == |rows|
      && forall i :: 0 <= i < |rows| ==>
           u.value[i] == if i == k
             then x.(status := status, watchedDate := DateFor(status, today, x.watchedDate), updatedAt := Some(now))
             else rows[i]
  {
    var x := rows[k];
    assert Stored(x, nextId);
    ChosenMembers(ExistingUpdates(x, status, today), 4, StatusField);
    assert ParseStatus(StatusName(status)) == Some(status);
    forall i | 0 <= i < |rows| ensures rows[i].id == Some(x.id.value) <==> i == k {
      IdNamesOneRow(rows, nextId, i, k);
    }
  }

  /** On an item not in the library, a quick add appends one row with the next id: no
      rating, no notes, a watched date only when watched, and the title falling back
      from title to name to "Unknown". */
  lemma QuickAddNew(rows: seq<MediaItem>, nextId: nat, item: TmdbResult, status: Status,
                    d: TmdbDetails, today: string, now: Timestamp)
    requires TableInvariant(rows, nextId)
    requires ByTmdbId(rows, item.id, item.mediaType).None?
    requires ParseMediaType(item.mediaType).Some?
    ensures var e := QuickAddEffect(rows, nextId, item, status, Ok(d), today, now);
      && e.Ok? && e.value.1 == nextId + 1
      && |e.value.0| == |rows| + 1 && e.value.0[..|rows|] == rows
      && var n := e.value.0[|rows|];
      && n.id == Some(nextId) && ItemKey(n) == (item.id, item.mediaType)
      && n.title == DisplayTitle(item.title, item.name)
      && n.genres == JoinGenres(d.genres)
      && n.status == status
      && n.userRating.None? && n.userNotes.None?
      && n.watchedDate == (if status == Watched then Some(today) else None)
  {
    var rec := NewRecord(item, d, status, today).value;
    forall i | 0 <= i < |rows| ensures ItemKey(rows[i]) != NewMediaKey(rec) {
      assert rows[i] in rows;
    }
    UpsertAbsentAppends(rows, nextId, rec, now);
  }

  /** A catalogue item whose type is neither movie nor tv is never added. */
  lemma QuickAddRefusesOtherTypes(rows: seq<MediaItem>, nextId: nat, item: TmdbResult, status: Status,
                                  details: Result<TmdbDetails>, today: string, now: Timestamp)
    requires ParseMediaType(item.mediaType).None?
    ensures QuickAddEffect(rows, nextId, item, status, details, today, now).Err?
  {
    ByTmdbIdUnknownType(rows, item.id, item.mediaType);
  }
}
