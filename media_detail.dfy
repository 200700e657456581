/** src/components/MediaDetail.tsx: the detail view's copy of the library row, and
    what saving, rating and deleting do to the table and to that copy. */
module MediaDetail {
  import opened Opt
  import opened Types
  import opened Database
  import opened QuickAdd

  const LoadFailed: string := "Failed to load details. Check your internet connection."
  const SaveFailed: string := "Failed to save. Please try again."

  /** `userRating || null`: no rating is 0 in the view and NULL in the table. */
  function RatingOrNull(rating: real): (v: Value)
    ensures RatingValue(v) == (if rating == 0.0 then None else Some(rating))
    ensures !v.Text?
  {
    if rating == 0.0 then Null else Number(rating)
  }

  /** `userNotes || null` */
  function NotesOrNull(notes: string): (v: Value)
    ensures TextValue(v) == (if notes == "" then None else Some(notes))
    ensures !v.Number?
  {
    if notes == "" then Null else Text(notes)
  }

  /** The update `handleSave` sends for an item already in the library. */
  function SaveUpdates(existing: MediaItem, status: Status, rating: real, notes: string, today: string): (u: Updates)
    ensures u.Keys == {"status", "user_rating", "user_notes", "watched_date"}
    ensures WellTyped(u)
    ensures u["status"] == Text(StatusName(status))
    ensures RatingValue(u["user_rating"]) == (if rating == 0.0 then None else Some(rating))
    ensures TextValue(u["user_notes"]) == (if notes == "" then None else Some(notes))
    ensures TextValue(u["watched_date"]) == DateFor(status, today, existing.watchedDate)
  {
    assert ParseStatus(StatusName(status)) == Some(status);
    map["status" := Text(StatusName(status)),
        "user_rating" := RatingOrNull(rating),
        "user_notes" := NotesOrNull(notes),
        "watched_date" := TextOrNull(DateFor(status, today, existing.watchedDate))]
  }

  /** The record `handleSave` adds for an item not yet in the library. */
  function SaveRecord(tmdbId: int, mediaType: MediaType, details: TmdbDetails, status: Status,
                      rating: real, notes: string, today: string): (r: NewMedia)
    ensures NewMediaKey(r) == (tmdbId, MediaTypeName(mediaType))
    ensures r.title == DisplayTitle(details.title, details.name)
    ensures r.releaseDate == FirstTruthy(details.releaseDate, details.firstAirDate, "")
    ensures r.genres == JoinGenres(details.genres)
    ensures r.posterPath == details.posterPath && r.backdropPath == details.backdropPath
    ensures r.overview == details.overview && r.voteAverage == details.voteAverage
    ensures r.status == status
    ensures r.userRating == (if rating == 0.0 then None else Some(rating))
    ensures r.userNotes == (if notes == "" then None else Some(notes))
    ensures r.watchedDate == DateFor(status, today, None)
  {
    NewMedia(tmdbId, mediaType, DisplayTitle(details.title, details.name), details.posterPath,
      details.backdropPath, details.overview, FirstTruthy(details.releaseDate, details.firstAirDate, ""),
      JoinGenres(details.genres), details.voteAverage, status,
      RatingValue(RatingOrNull(rating)), TextValue(NotesOrNull(notes)), DateFor(status, today, None))
  }

  /** `{ user_rating: newRating || null }` */
  function RatingOnly(rating: real): (u: Updates)
    ensures u.Keys == {"user_rating"} && WellTyped(u)
    ensures RatingValue(u["user_rating"]) == (if rating == 0.0 then None else Some(rating))
  {
    map["user_rating" := RatingOrNull(rating)]
  }

  /** What `handleSave` does to the rows and the next id: update the view's row when
      it has an id, add a record otherwise. */
  function SaveEffect(rows: seq<MediaItem>, nextId: nat, dbItem: Option<MediaItem>, details: TmdbDetails,
                      tmdbId: int, mediaType: MediaType, status: Status, rating: real, notes: string,
                      today: string, now: Timestamp): Result<(seq<MediaItem>, nat)>
  {
    if dbItem.Some? && HasId(dbItem.value) then
      match UpdateRows(rows, dbItem.value.id.value, SaveUpdates(dbItem.value, status, rating, notes, today), now)
      case Ok(rs) => Ok((rs, nextId))
      case Err(m) => Err(m)
    else
      Upsert(rows, nextId, SaveRecord(tmdbId, mediaType, details, status, rating, notes, today), now)
  }

  /** The component's state. */
  class DetailState {
    var details: Option<TmdbDetails>
    var dbItem: Option<MediaItem>
    var userRating: real
    var userNotes: string
    var error: Option<string>

    constructor ()
      ensures details.None? && dbItem.None? && userRating == 0.0 && userNotes == "" && error.None?
    {
      details, dbItem, userRating, userNotes, error := None, None, 0.0, "", None;
    }

    /** `loadData()`, given the outcome of `getMediaDetails`; the library lookup is
        made on the table. */
    method LoadData(table: MediaTable, tmdbId: int, mediaType: MediaType, fetched: Result<TmdbDetails>)
      modifies this
      ensures fetched.Err? ==>
        && error == Some(LoadFailed)
        && details == old(details) && dbItem == old(dbItem)
        && userRating == old(userRating) && userNotes == old(userNotes)
      ensures fetched.Ok? ==>
        && error.None? && details == Some(fetched.value)
        && dbItem == ByTmdbId(table.rows, tmdbId, MediaTypeName(mediaType))
        && (dbItem.Some? ==>
              userRating == dbItem.value.userRating.GetOr(0.0) && userNotes == dbItem.value.userNotes.GetOr(""))
        && (dbItem.None? ==> userRating == old(userRating) && userNotes == old(userNotes))
    {
      error := None;
      if fetched.Err? {
        error := Some(LoadFailed);
        return;
      }
      var existing := ByTmdbId(table.rows, tmdbId, MediaTypeName(mediaType));
      details := Some(fetched.value);
      dbItem := existing;
      if existing.Some? {
        userRating := existing.value.userRating.GetOr(0.0);
        userNotes := existing.value.userNotes.GetOr("");
      }
    }

    /** `handleSave(status)`: nothing before the details are loaded; then the update or
        the insert, and the view's row fetched again. A failure leaves the table and
        the view's row as they were. */
    method HandleSave(table: MediaTable, tmdbId: int, mediaType: MediaType, status: Status,
                      today: string, now: Timestamp)
      requires table.Valid()
      modifies this, table
      ensures table.Valid()
      ensures details == old(details) && userRating == old(userRating) && userNotes == old(userNotes)
      ensures old(details).None? ==>
        && table.rows == old(table.rows) && table.nextId == old(table.nextId)
        && dbItem == old(dbItem) && error == old(error)
      ensures old(details).Some? ==>
        var e := SaveEffect(old(table.rows), old(table.nextId), old(dbItem), old(details).value,
                            tmdbId, mediaType, status, old(userRating), old(userNotes), today, now);
        && (e.Ok? ==> && table.rows == e.value.0 && table.nextId == e.value.1 && error.None?
                      && dbItem == ByTmdbId(table.rows, tmdbId, MediaTypeName(mediaType)))
        && (e.Err? ==> && table.rows == old(table.rows) && table.nextId == old(table.nextId)
                       && dbItem == old(dbItem) && error == Some(SaveFailed))
    {
      if details.None? {
        return;
      }
      error := None;
      var r: Result<()>;
      if dbItem.Some? && HasId(dbItem.value) {
        r := table.UpdateMedia(dbItem.value.id.value, SaveUpdates(dbItem.value, status, userRating, userNotes, today), now);
      } else {
        r := table.AddMedia(SaveRecord(tmdbId, mediaType, details.value, status, userRating, userNotes, today), now);
      }
      if r.Err? {
        error := Some(SaveFailed);
        return;
      }
      dbItem := ByTmdbId(table.rows, tmdbId, MediaTypeName(mediaType));
    }

    /** `handleRatingChange(newRating)`: the view always takes the new rating; the
        table only when the view's row has an id. A failure is only logged. */
    method HandleRatingChange(table: MediaTable, tmdbId: int, mediaType: MediaType, newRating: real, now: Timestamp)
      requires table.Valid()
      modifies this, table
      ensures table.Valid() && table.nextId == old(table.nextId)
      ensures userRating == newRating
      ensures details == old(details) && userNotes == old(userNotes) && error == old(error)
      ensures !(old(dbItem).Some? && HasId(old(dbItem).value)) ==>
        table.rows == old(table.rows) && dbItem == old(dbItem)
      ensures old(dbItem).Some? && HasId(old(dbItem).value) ==>
        var u := UpdateRows(old(table.rows), old(dbItem).value.id.value, RatingOnly(newRating), now);
        && (u.Ok? ==> table.rows == u.value && dbItem == ByTmdbId(table.rows, tmdbId, MediaTypeName(mediaType)))
        && (u.Err? ==> table.rows == old(table.rows) && dbItem == old(dbItem))
    {
      userRating := newRating;
      if dbItem.Some? && HasId(dbItem.value) {
        var r := table.UpdateMedia(dbItem.value.id.value, RatingOnly(newRating), now);
        if r.Ok? {
          dbItem := ByTmdbId(table.rows, tmdbId, MediaTypeName(mediaType));
        }
      }
    }

    /** `handleDelete()`: nothing without an id; otherwise the row is deleted and the
        view forgets it. */
    method HandleDelete(table: MediaTable)
      requires table.Valid()
      modifies this, table
      ensures table.Valid() && table.nextId == old(table.nextId)
      ensures details == old(details) && error == old(error)
      ensures !(old(dbItem).Some? && HasId(old(dbItem).value)) ==>
        && table.rows == old(table.rows)
        && dbItem == old(dbItem) && userRating == old(userRating) && userNotes == old(userNotes)
      ensures old(dbItem).Some? && HasId(old(dbItem).value) ==>
        && table.rows == DeleteRows(old(table.rows), old(dbItem).value.id.value)
        && dbItem.None? && userRating == 0.0 && userNotes == ""
    {
      if !(dbItem.Some? && HasId(dbItem.value)) {
        return;
      }
      table.DeleteMedia(dbItem.value.id.value);
      dbItem, userRating, userNotes := None, 0.0, "";
    }
  }

  /** Saving a row already in the library fails exactly when the rating is out of
      range; otherwise it rewrites that row's status, rating, notes and watched date
      (today when watched, the old date otherwise), stamps it, and leaves every other
      row alone. */
  lemma SaveExisting(rows: seq<MediaItem>, nextId: nat, k: nat, details: TmdbDetails,
                     status: Status, rating: real, notes: string, today: string, now: Timestamp)
    requires TableInvariant(rows, nextId)
    requires k < |rows|
    ensures var x := rows[k];
      var e := SaveEffect(rows, nextId, Some(x), details, x.tmdbId, x.mediaType, status, rating, notes, today, now);
      && (e.Err? <==> !RatingInRange(if rating == 0.0 then None else Some(rating)))
      && (e.Ok? ==>
           && e.value.1 == nextId && |e.value.0| == |rows|
           && forall i :: 0 <= i < |rows| ==>
                e.value.0[i] == if i == k
                  then x.(status := status,
                          userRating := if rating == 0.0 then None else Some(rating),
                          userNotes := if notes == "" then None else Some(notes),
                          watchedDate := DateFor(status, today, x.watchedDate),
                          updatedAt := Some(now))
                  else rows[i])
  {
    var x := rows[k];
    assert Stored(x, nextId);
    var u := SaveUpdates(x, status, rating, notes, today);
    ChosenMembers(u, 4, StatusField);
    assert HasRowWithId(rows, x.id.value);
    forall i | 0 <= i < |rows| ensures rows[i].id == Some(x.id.value) <==> i == k {
      IdNamesOneRow(rows, nextId, i, k);
    }
    assert ParseStatus(StatusName(status)) == Some(status);
  }

  /** Saving an item not in the library appends one row with the next id; the title
      falls back from title to name to "Unknown", the genres are the names joined by
      ", ", and the watched date is today only when watched. */
  lemma SaveNew(rows: seq<MediaItem>, nextId: nat, details: TmdbDetails, tmdbId: int, mediaType: MediaType,
                status: Status, rating: real, notes: string, today: string, now: Timestamp)
    requires TableInvariant(rows, nextId)
    requires ByTmdbId(rows, tmdbId, MediaTypeName(mediaType)).None?
    requires 0.0 <= rating <= 5.0
    ensures var e := SaveEffect(rows, nextId, None, details, tmdbId, mediaType, status, rating, notes, today, now);
      && e.Ok? && e.value.1 == nextId + 1
      && |e.value.0| == |rows| + 1 && e.value.0[..|rows|] == rows
      && var n := e.value.0[|rows|];
      && n.id == Some(nextId) && ItemKey(n) == (tmdbId, MediaTypeName(mediaType))
      && n.title == DisplayTitle(details.title, details.name)
      && n.genres == JoinGenres(details.genres)
      && n.status == status
      && n.userRating == (if rating == 0.0 then None else Some(rating))
      && n.watchedDate == (if status == Watched then Some(today) else None)
  {
    var rec := SaveRecord(tmdbId, mediaType, details, status, rating, notes, today);
    forall i | 0 <= i < |rows| ensures ItemKey(rows[i]) != NewMediaKey(rec) {
      assert rows[i] in rows;
    }
    UpsertAbsentAppends(rows, nextId, rec, now);
  }

  /** A successful save of a new item leaves the view's row in the table with the chosen
      status: the lookup after it finds it. */
  lemma SaveNewThenFound(rows: seq<MediaItem>, nextId: nat, details: TmdbDetails, tmdbId: int, mediaType: MediaType,
                         status: Status, rating: real, notes: string, today: string, now: Timestamp)
    requires TableInvariant(rows, nextId)
    requires 0.0 <= rating <= 5.0
    ensures var e := SaveEffect(rows, nextId, None, details, tmdbId, mediaType, status, rating, notes, today, now);
      && e.Ok?
      && var found := ByTmdbId(e.value.0, tmdbId, MediaTypeName(mediaType));
      && found.Some? && found.value.status == status && found.value.updatedAt == Some(now)
  {
    var rec := SaveRecord(tmdbId, mediaType, details, status, rating, notes, today);
    UpsertThenFind(rows, nextId, rec, now);
  }

  /** A rating change on a stored row writes only that row's rating (NULL for 0) and
      stamp, and fails exactly when the rating is out of range. */
  lemma RatingChangeEffect(rows: seq<MediaItem>, nextId: nat, k: nat, rating: real, now: Timestamp)
    requires TableInvariant(rows, nextId)
    requires k < |rows|
    ensures var u := UpdateRows(rows, rows[k].id.value, RatingOnly(rating), now);
      && (u.Err? <==> !RatingInRange(if rating == 0.0 then None else Some(rating)))
      && (u.Ok? ==>
           && |u.value| == |rows|
           && forall i :: 0 <= i < |rows| ==>
                u.value[i] == if i == k
                  then rows[k].(userRating := if rating == 0.0 then None else Some(rating), updatedAt := Some(now))
                  else rows[i])
  {
    var x := rows[k];
    assert Stored(x, nextId);
    ChosenMembers(RatingOnly(rating), 4, RatingField);
    assert HasRowWithId(rows, x.id.value);
    forall i | 0 <= i < |rows| ensures rows[i].id == Some(x.id.value) <==> i == k {
      IdNamesOneRow(rows, nextId, i, k);
    }
  }

  /** Deleting a stored row by its id removes its key from the table: looking the item
      up again finds nothing, and every other row stays. */
  lemma DeleteThenGone(rows: seq<MediaItem>, nextId: nat, k: nat)
    requires TableInvariant(rows, nextId)
    requires k < |rows|
    ensures var x := rows[k];
      var rest := DeleteRows(rows, x.id.value);
      && ByTmdbId(rest, x.tmdbId, MediaTypeName(x.mediaType)).None?
      && forall i :: 0 <= i < |rows| && i != k ==> rows[i] in rest
  {
    var x := rows[k];
    var rest := DeleteRows(rows, x.id.value);
    assert Stored(x, nextId);
    forall y | y in rest ensures ItemKey(y) != ItemKey(x) {
      DeleteRowsEffect(rows, x.id.value, y);
      var j :| 0 <= j < |rows| && rows[j] == y;
      assert j != k;
      if j < k {
        assert RowBefore(rows[j], rows[k]);
      } else {
        assert RowBefore(rows[k], rows[j]);
      }
    }
    forall i | 0 <= i < |rows| && i != k ensures rows[i] in rest {
      IdNamesOneRow(rows, nextId, i, k);
      DeleteRowsEffect(rows, x.id.value, rows[i]);
    }
  }
}
