/** src/pages/SettingsPage.tsx: importing a backup file into the library, and going
    back to the default theme. */
module SettingsPage {
  import opened Opt
  import opened Strings
  import opened Seqs
  import opened Types
  import opened Database
  import opened Theme

  /** One element of a parsed backup array, as JSON gives it: any field may be absent,
      and the strings are whatever the file holds. */
  datatype BackupItem = BackupItem(
    tmdbId: Option<int>,
    mediaType: Option<string>,
    title: Option<string>,
    posterPath: Option<string>,
    backdropPath: Option<string>,
    overview: Option<string>,
    releaseDate: Option<string>,
    genres: Option<string>,
    voteAverage: Option<real>,
    status: Option<string>,
    userRating: Option<real>,
    userNotes: Option<string>,
    watchedDate: Option<string>)

  const ImportFailed: string := "Import failed — check file format"

  /** `!(!item.tmdb_id || !item.media_type || !item.title)` */
  predicate Importable(item: BackupItem) {
    item.tmdbId.Some? && item.tmdbId.value != 0 && Truthy(item.mediaType) && Truthy(item.title)
  }

  /** `item.status || "watched"` */
  function StatusOrWatched(s: Option<string>): string {
    if Truthy(s) then s.value else "watched"
  }

  /** The record `addMedia` gets for an importable item, with the defaults filled in;
      `None` when its type or status is one the table's CHECK refuses. */
  function Record(item: BackupItem): (r: Option<NewMedia>)
    requires Importable(item)
    ensures r.None? <==> ParseMediaType(item.mediaType.value).None? || ParseStatus(StatusOrWatched(item.status)).None?
    ensures r.Some? ==>
      && NewMediaKey(r.value) == (item.tmdbId.value, item.mediaType.value)
      && r.value.title == item.title.value
      && r.value.posterPath == item.posterPath
      && r.value.backdropPath == item.backdropPath
      && r.value.overview == item.overview.GetOr("")
      && r.value.releaseDate == item.releaseDate.GetOr("")
      && r.value.genres == item.genres.GetOr("")
      && r.value.voteAverage == item.voteAverage.GetOr(0.0)
      && (!Truthy(item.status) ==> r.value.status == Watched)
      && (Truthy(item.status) ==> StatusName(r.value.status) == item.status.value)
      && r.value.userRating == item.userRating
      && r.value.userNotes == item.userNotes
      && r.value.watchedDate == item.watchedDate
  {
    match (ParseMediaType(item.mediaType.value), ParseStatus(StatusOrWatched(item.status)))
    case (Some(t), Some(st)) =>
      Some(NewMedia(item.tmdbId.value, t, item.title.value, item.posterPath, item.backdropPath,
        item.overview.GetOr(""), item.releaseDate.GetOr(""), item.genres.GetOr(""),
        item.voteAverage.GetOr(0.0), st, item.userRating, item.userNotes, item.watchedDate))
    case _ => None
  }

  /** Where the import loop stands: the table, the count so far, and the error that
      stopped it, if one did. */
  datatype Progress = Progress(rows: seq<MediaItem>, nextId: nat, count: nat, failure: Option<string>)

  /** The message of the TypeError that reading `item.tmdb_id` of a `null` element
      throws. */
  const NullElement: string := "Cannot read properties of null (reading 'tmdb_id')"

  /** One turn of the loop over an element of the array, `None` standing for a JSON
      `null`: reading a field of `null` throws out of the loop; otherwise skip an item
      that is not importable, or add it and count it. A failing `addMedia` throws out
      of the loop. */
  function Step(p: Progress, elem: Option<BackupItem>, now: Timestamp): Progress {
    if p.failure.Some? then p
    else if elem.None? then p.(failure := Some(NullElement))
    else if !Importable(elem.value) then p
    else
      var item := elem.value;
      match Record(item)
      case None => p.(failure := Some("CHECK constraint failed: media"))
      case Some(rec) =>
        match Upsert(p.rows, p.nextId, rec, now)
        case Err(m) => p.(failure := Some(m))
        case Ok(u) => Progress(u.0, u.1, p.count + 1, None)
  }

  /** The loop over the items. */
  function ImportAll(p: Progress, items: seq<Option<BackupItem>>, now: Timestamp): Progress
    decreases |items|
  {
    if items == [] then p else Step(ImportAll(p, items[..|items| - 1], now), items[|items| - 1], now)
  }

  /** `handleImport`, given the parsed file: `None` when it did not parse to an
      array. Rows added before a failing item stay added. */
  method ImportBackup(table: MediaTable, parsed: Option<seq<Option<BackupItem>>>, now: Timestamp)
    returns (r: Result<nat>)
    requires table.Valid()
    modifies table
    ensures table.Valid()
    ensures parsed.None? ==> r == Err(ImportFailed) && table.rows == old(table.rows) && table.nextId == old(table.nextId)
    ensures parsed.Some? ==>
      var p := ImportAll(Progress(old(table.rows), old(table.nextId), 0, None), parsed.value, now);
      && table.rows == p.rows && table.nextId == p.nextId
      && (p.failure.None? ==> r == Ok(p.count))
      && (p.failure.Some? ==> r == Err(ImportFailed))
  {
    if parsed.None? {
      return Err(ImportFailed);
    }
    var items := parsed.value;
    ghost var start := Progress(table.rows, table.nextId, 0, None);
    var count := 0;
    for i := 0 to |items|
      invariant table.Valid()
      invariant ImportAll(start, items[..i], now) == Progress(table.rows, table.nextId, count, None)
    {
      assert items[..i + 1][..i] == items[..i];
      if items[i].None? {
        ImportStopped(start, items, i + 1, now);
        return Err(ImportFailed);
      }
      var item := items[i].value;
      if !Importable(item) {
        continue;
      }
      var rec := Record(item);
      if rec.None? {
        ImportStopped(start, items, i + 1, now);
        return Err(ImportFailed);
      }
      var added := table.AddMedia(rec.value, now);
      if added.Err? {
        ImportStopped(start, items, i + 1, now);
        return Err(ImportFailed);
      }
      count := count + 1;
    }
    assert items[..|items|] == items;
    r := Ok(count);
  }

  /** Once an item has failed, the later ones change nothing. */
  lemma {:induction false} ImportStopped(p: Progress, items: seq<Option<BackupItem>>, i: nat, now: Timestamp)
    requires i <= |items|
    requires ImportAll(p, items[..i], now).failure.Some?
    ensures ImportAll(p, items, now) == ImportAll(p, items[..i], now)
    decreases |items| - i
  {
    if i < |items| {
      assert items[..i + 1][..i] == items[..i];
      assert ImportAll(p, items[..i + 1], now) == ImportAll(p, items[..i], now);
      ImportStopped(p, items, i + 1, now);
    } else {
      assert items[..i] == items;
    }
  }

  /** An element that is an importable item. */
  predicate Counted(elem: Option<BackupItem>) {
    elem.Some? && Importable(elem.value)
  }

  /** The count only ever grows by the items that are importable; when the import
      finishes, it is the number of importable items. */
  lemma {:induction false} ImportCount(p: Progress, items: seq<Option<BackupItem>>, now: Timestamp)
    requires p.failure.None?
    ensures ImportAll(p, items, now).count <= p.count + |Filter(items, Counted)|
    ensures ImportAll(p, items, now).failure.None? ==>
      ImportAll(p, items, now).count == p.count + |Filter(items, Counted)|
    decreases |items|
  {
    if items != [] {
      ImportCount(p, items[..|items| - 1], now);
    }
  }

  /** An import finishes only when it started without a failure and no element of the
      array is `null`. */
  lemma {:induction false} ImportNull(p: Progress, items: seq<Option<BackupItem>>, now: Timestamp)
    ensures ImportAll(p, items, now).failure.None? ==>
      p.failure.None? && forall i :: 0 <= i < |items| ==> items[i].Some?
    decreases |items|
  {
    if items != [] {
      ImportNull(p, items[..|items| - 1], now);
      assert forall i :: 0 <= i < |items| - 1 ==> items[..|items| - 1][i] == items[i];
    }
  }

  /** A backup of items none of which is importable leaves the table as it is. */
  lemma {:induction false} ImportSkipsAll(p: Progress, items: seq<Option<BackupItem>>, now: Timestamp)
    requires forall i :: 0 <= i < |items| ==> items[i].Some? && !Importable(items[i].value)
    ensures ImportAll(p, items, now) == p
    decreases |items|
  {
    if items != [] {
      ImportSkipsAll(p, items[..|items| - 1], now);
    }
  }

  /** The message `handleImport` shows. */
  function ImportMessage(r: Result<nat>): (m: string)
    ensures r.Err? <==> m == ImportFailed
  {
    match r
    case Ok(n) =>
      var m := "Imported " + NatToString(n) + " items";
      assert m[6] != ImportFailed[6];
      m
    case Err(_) => ImportFailed
  }

  /** Different counts give different messages. */
  lemma ImportMessageInjective(m: nat, n: nat)
    requires ImportMessage(Ok(m)) == ImportMessage(Ok(n))
    ensures m == n
  {
    var a, b := NatToString(m), NatToString(n);
    assert "Imported " + a + " items" == "Imported " + b + " items";
    assert |a| == |b|;
    assert a == ("Imported " + a + " items")[9..9 + |a|];
    NatToStringInjective(m, n);
  }

  /** `handleReset()`: the default theme, whatever the current one was. */
  function ResetTheme(current: ThemeData): (t: ThemeData)
    ensures t.bgImageDataUrl.None?
    ensures t.accentRgb == "16 185 129" && t.accentLightRgb == "110 231 183"
    ensures WellFormed(t)
  {
    DefaultAccentString();
    DefaultAccentLightString();
    DefaultThemeWellFormed();
    DefaultTheme()
  }
}
