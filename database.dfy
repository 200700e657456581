/** The library table of src/lib/database.ts over the schema of src-tauri/src/lib.rs:
    rows unique by `(tmdb_id, media_type)`, ids handed out by AUTOINCREMENT, and the
    statements the app sends: the `addMedia` upsert, the `updateMedia` builder and
    update, `deleteMedia`, and the four queries. The SQL engine itself is not
    modelled: each statement's effect is stated directly on the rows. */
module Database {
  import opened Opt
  import opened Strings
  import opened Seqs
  import opened Types

  // ---------------------------------------------------------------------
  // Statement parameters and the `updateMedia` builder
  // ---------------------------------------------------------------------

  /** A value bound to a `$n` placeholder. */
  datatype Value = Null | Number(n: real) | Text(s: string)

  /** The `updates` object: each key it holds with a value other than `undefined`.
      It is a `Partial<MediaItem>`, so any column name may appear. */
  type Updates = map<string, Value>

  /** The columns `updateMedia` may write. */
  datatype Field = StatusField | RatingField | NotesField | WatchedDateField

  function ColumnName(f: Field): string {
    match f
    case StatusField => "status"
    case RatingField => "user_rating"
    case NotesField => "user_notes"
    case WatchedDateField => "watched_date"
  }

  /** The allow-list, in the order the builder visits it. */
  const AllowedFields: seq<Field> := [StatusField, RatingField, NotesField, WatchedDateField]

  function FieldIndex(f: Field): (i: nat)
    ensures i < |AllowedFields| && AllowedFields[i] == f
  {
    match f
    case StatusField => 0
    case RatingField => 1
    case NotesField => 2
    case WatchedDateField => 3
  }

  predicate IsAllowedColumn(name: string) {
    name == "status" || name == "user_rating" || name == "user_notes" || name == "watched_date"
  }

  /** The fields among the first `n` of the allow-list that `u` sets, in allow-list order. */
  function Chosen(u: Updates, n: nat): (cs: seq<Field>)
    requires n <= |AllowedFields|
    ensures |cs| <= n
    ensures forall i :: 0 <= i < |cs| ==> FieldIndex(cs[i]) < n && ColumnName(cs[i]) in u
    ensures forall i, j :: 0 <= i < j < |cs| ==> FieldIndex(cs[i]) < FieldIndex(cs[j])
  {
    if n == 0 then []
    else
      var f := AllowedFields[n - 1];
      Chosen(u, n - 1) + (if ColumnName(f) in u then [f] else [])
  }

  /** A field is chosen exactly when it lies in the visited part of the allow-list
      and `u` sets it. */
  lemma {:induction false} ChosenMembers(u: Updates, n: nat, f: Field)
    requires n <= |AllowedFields|
    ensures f in Chosen(u, n) <==> FieldIndex(f) < n && ColumnName(f) in u
  {
    if n > 0 {
      ChosenMembers(u, n - 1, f);
    }
  }

  /** The fields `updateMedia` writes for `u`. */
  function ChosenFields(u: Updates): seq<Field> {
    Chosen(u, |AllowedFields|)
  }

  /** One entry of the builder's `fields` array: `${field} = $${n}`, or the closing
      `updated_at = datetime('now')`. */
  datatype Clause = Assign(column: string, placeholder: nat) | SetUpdatedAtNow

  function ClauseText(c: Clause): string {
    match c
    case Assign(column, n) => column + " = $" + NatToString(n)
    case SetUpdatedAtNow => "updated_at = datetime('now')"
  }

  /** The assignments for the chosen fields, numbered from `$1`. */
  function Assignments(cs: seq<Field>): (r: seq<Clause>)
    ensures |r| == |cs|
    ensures forall i :: 0 <= i < |cs| ==> r[i] == Assign(ColumnName(cs[i]), i + 1)
  {
    if cs == [] then [] else Assignments(cs[..|cs| - 1]) + [Assign(ColumnName(cs[|cs| - 1]), |cs|)]
  }

  /** The values bound to the assignments, in the same order. */
  function Params(u: Updates, cs: seq<Field>): (r: seq<Value>)
    requires forall i :: 0 <= i < |cs| ==> ColumnName(cs[i]) in u
    ensures |r| == |cs|
    ensures forall i :: 0 <= i < |cs| ==> r[i] == u[ColumnName(cs[i])]
  {
    if cs == [] then [] else Params(u, cs[..|cs| - 1]) + [u[ColumnName(cs[|cs| - 1])]]
  }

  /** `UPDATE media SET ${fields.join(", ")} WHERE id = $${paramIndex}` with its values. */
  datatype Statement = Update(clauses: seq<Clause>, idPlaceholder: nat, params: seq<Value>)

  function ClauseTexts(cs: seq<Clause>): (r: seq<string>)
    ensures |r| == |cs|
  {
    seq(|cs|, i requires 0 <= i < |cs| => ClauseText(cs[i]))
  }

  /** The statement's SQL text. */
  function SqlText(st: Statement): string {
    "UPDATE media SET " + Join(ClauseTexts(st.clauses), ", ") + " WHERE id = $" + NatToString(st.idPlaceholder)
  }

  /** The builder's loop over the allow-list: the assignments, their values and the
      next placeholder number. */
  method CollectAssignments(updates: Updates) returns (fields: seq<Clause>, values: seq<Value>, paramIndex: nat)
    ensures fields == Assignments(ChosenFields(updates))
    ensures values == Params(updates, ChosenFields(updates))
    ensures paramIndex == |ChosenFields(updates)| + 1
  {
    fields, values, paramIndex := [], [], 1;
    for j := 0 to |AllowedFields|
      invariant fields == Assignments(Chosen(updates, j))
      invariant values == Params(updates, Chosen(updates, j))
      invariant paramIndex == |Chosen(updates, j)| + 1
    {
      var field := AllowedFields[j];
      ghost var cs := Chosen(updates, j);
      if ColumnName(field) in updates {
        assert Chosen(updates, j + 1) == cs + [field];
        assert (cs + [field])[..|cs|] == cs;
        fields := fields + [Assign(ColumnName(field), paramIndex)];
        values := values + [updates[ColumnName(field)]];
        paramIndex := paramIndex + 1;
      } else {
        assert Chosen(updates, j + 1) == cs;
      }
    }
  }

  /** The statement for updates that set at least one allowed field. */
  function UpdateStatement(id: int, u: Updates): Statement {
    var cs := ChosenFields(u);
    Update(Assignments(cs) + [SetUpdatedAtNow], |cs| + 1, Params(u, cs) + [Number(id as real)])
  }

  /** The statement `updateMedia(id, updates)` sends, if any. */
  method BuildUpdate(id: int, updates: Updates) returns (stmt: Option<Statement>)
    ensures stmt.None? <==> ChosenFields(updates) == []
    ensures stmt.Some? ==> stmt.value == UpdateStatement(id, updates)
  {
    var fields, values, paramIndex := CollectAssignments(updates);
    if |fields| == 0 {
      return None;
    }
    fields := fields + [SetUpdatedAtNow];
    values := values + [Number(id as real)];
    stmt := Some(Update(fields, paramIndex, values));
  }

  /** The statement's placeholders are `$1`..`$(k+1)`: the chosen fields' in
      allow-list order, then the id's. Each binds the matching value, `updated_at`
      is set exactly once, and no other column is assigned. */
  lemma UpdateStatementShape(id: int, u: Updates)
    ensures var cs := ChosenFields(u);
      var st := UpdateStatement(id, u);
      && |st.clauses| == |cs| + 1 && |st.params| == |cs| + 1
      && st.idPlaceholder == |st.params| && st.params[st.idPlaceholder - 1] == Number(id as real)
      && (forall i :: 0 <= i < |cs| ==>
            && st.clauses[i].Assign? && IsAllowedColumn(st.clauses[i].column)
            && st.clauses[i].placeholder == i + 1
            && st.params[st.clauses[i].placeholder - 1] == u[st.clauses[i].column])
      && (forall i, j :: 0 <= i < j < |cs| ==>
            FieldIndex(cs[i]) < FieldIndex(cs[j]))
      && multiset(st.clauses)[SetUpdatedAtNow] == 1
  {
    var cs := ChosenFields(u);
    var a := Assignments(cs);
    assert forall i :: 0 <= i < |a| ==> a[i] != SetUpdatedAtNow;
    assert multiset(a)[SetUpdatedAtNow] == 0;
  }

  /** A key outside the allow-list changes neither the chosen fields nor their values. */
  lemma {:induction false} ChosenIgnoresOtherKeys(u: Updates, key: string, v: Value, n: nat)
    requires !IsAllowedColumn(key)
    requires n <= |AllowedFields|
    ensures Chosen(u[key := v], n) == Chosen(u, n)
    ensures forall i :: 0 <= i < |Chosen(u, n)| ==> u[key := v][ColumnName(Chosen(u, n)[i])] == u[ColumnName(Chosen(u, n)[i])]
  {
    if n > 0 {
      ChosenIgnoresOtherKeys(u, key, v, n - 1);
    }
  }

  /** `updateMedia` sends the same statement whatever keys outside the allow-list hold. */
  lemma OnlyAllowedKeysMatter(id: int, u: Updates, key: string, v: Value)
    requires !IsAllowedColumn(key)
    ensures ChosenFields(u[key := v]) == ChosenFields(u)
    ensures UpdateStatement(id, u[key := v]) == UpdateStatement(id, u)
  {
    ChosenIgnoresOtherKeys(u, key, v, |AllowedFields|);
    var cs := ChosenFields(u);
    assert Params(u[key := v], cs) == Params(u, cs);
  }

  // ---------------------------------------------------------------------
  // The table
  // ---------------------------------------------------------------------

  /** `CHECK(user_rating >= 0 AND user_rating <= 5)`; NULL passes. */
  predicate RatingInRange(r: Option<real>) {
    r.None? || 0.0 <= r.value <= 5.0
  }

  function IdOf(r: MediaItem): nat {
    r.id.GetOr(0)
  }

  /** What every stored row satisfies: an id below the next one AUTOINCREMENT hands
      out, both timestamps, and a rating the CHECK constraint admits. */
  ghost predicate Stored(r: MediaItem, nextId: nat) {
    && r.id.Some? && 1 <= r.id.value < nextId
    && r.createdAt.Some? && r.updatedAt.Some?
    && RatingInRange(r.userRating)
  }

  /** Rows are kept in rowid order: ids increase, and no two rows share a key. */
  predicate RowBefore(a: MediaItem, b: MediaItem) {
    IdOf(a) < IdOf(b) && ItemKey(a) != ItemKey(b)
  }

  ghost predicate TableInvariant(rows: seq<MediaItem>, nextId: nat) {
    && nextId >= 1
    && (forall i :: 0 <= i < |rows| ==> Stored(rows[i], nextId))
    && Sorted(rows, RowBefore)
  }

  /** The index of the row with `key` (`WHERE tmdb_id = $1 AND media_type = $2`), at
      or after `from`. */
  function FindKeyFrom(rows: seq<MediaItem>, key: Key, from: nat): (r: Option<nat>)
    requires from <= |rows|
    ensures r.Some? ==> from <= r.value < |rows| && ItemKey(rows[r.value]) == key
                        && forall i :: from <= i < r.value ==> ItemKey(rows[i]) != key
    ensures r.None? ==> forall i :: from <= i < |rows| ==> ItemKey(rows[i]) != key
    decreases |rows| - from
  {
    if from == |rows| then None
    else if ItemKey(rows[from]) == key then Some(from)
    else FindKeyFrom(rows, key, from + 1)
  }

  function FindKey(rows: seq<MediaItem>, key: Key): (r: Option<nat>)
    ensures r.Some? ==> r.value < |rows| && ItemKey(rows[r.value]) == key
    ensures r.None? ==> forall i :: 0 <= i < |rows| ==> ItemKey(rows[i]) != key
  {
    FindKeyFrom(rows, key, 0)
  }

  /** When keys are unique, the row with a key is the only one. */
  lemma FindKeyUnique(rows: seq<MediaItem>, nextId: nat, key: Key, i: nat)
    requires TableInvariant(rows, nextId)
    requires i < |rows| && ItemKey(rows[i]) == key
    ensures FindKey(rows, key) == Some(i)
  {
  }

  function NewMediaKey(item: NewMedia): Key {
    (item.tmdbId, MediaTypeName(item.mediaType))
  }

  /** The row the INSERT adds for an absent key. */
  function InsertedRow(item: NewMedia, id: nat, now: Timestamp): (r: MediaItem)
    ensures ItemKey(r) == NewMediaKey(item) && r.id == Some(id)
  {
    MediaItem(Some(id), item.tmdbId, item.mediaType, item.title, item.posterPath,
      item.backdropPath, item.overview, item.releaseDate, item.genres, item.voteAverage,
      item.status, item.userRating, item.userNotes, item.watchedDate, Some(now), Some(now))
  }

  /** `COALESCE(a, b)` */
  function Coalesce<T>(a: Option<T>, b: Option<T>): Option<T> {
    if a.Some? then a else b
  }

  /** The DO UPDATE branch: the catalogue columns and the status are overwritten, the
      user columns keep their old value where the new one is NULL. */
  function Merged(o: MediaItem, item: NewMedia, now: Timestamp): (r: MediaItem)
    ensures r.id == o.id && r.createdAt == o.createdAt && ItemKey(r) == ItemKey(o)
    ensures r.updatedAt == Some(now)
    ensures r.title == item.title && r.posterPath == item.posterPath
            && r.backdropPath == item.backdropPath && r.overview == item.overview
            && r.releaseDate == item.releaseDate && r.genres == item.genres
            && r.voteAverage == item.voteAverage && r.status == item.status
    ensures item.userRating.None? ==> r.userRating == o.userRating
    ensures item.userRating.Some? ==> r.userRating == item.userRating
    ensures item.userNotes.None? ==> r.userNotes == o.userNotes
    ensures item.userNotes.Some? ==> r.userNotes == item.userNotes
    ensures item.watchedDate.None? ==> r.watchedDate == o.watchedDate
    ensures item.watchedDate.Some? ==> r.watchedDate == item.watchedDate
  {
    o.(title := item.title, posterPath := item.posterPath, backdropPath := item.backdropPath,
       overview := item.overview, releaseDate := item.releaseDate, genres := item.genres,
       voteAverage := item.voteAverage, status := item.status,
       userRating := Coalesce(item.userRating, o.userRating),
       userNotes := Coalesce(item.userNotes, o.userNotes),
       watchedDate := Coalesce(item.watchedDate, o.watchedDate),
       updatedAt := Some(now))
  }

  /** Merging the same record twice is merging it once. */
  lemma MergedIdempotent(o: MediaItem, item: NewMedia, now: Timestamp)
    ensures Merged(Merged(o, item, now), item, now) == Merged(o, item, now)
  {
  }

  /** `addMedia(item)` on the rows and the next id: the new rows and next id, or the
      CHECK failure that aborts the statement. */
  function Upsert(rows: seq<MediaItem>, nextId: nat, item: NewMedia, now: Timestamp)
    : Result<(seq<MediaItem>, nat)>
  {
    if !RatingInRange(item.userRating) then Err("CHECK constraint failed: media")
    else
      match FindKey(rows, NewMediaKey(item))
      case None => Ok((rows + [InsertedRow(item, nextId, now)], nextId + 1))
      case Some(i) => Ok((rows[i := Merged(rows[i], item, now)], nextId))
  }

  /** The upsert fails exactly when the rating breaks the CHECK constraint. */
  lemma UpsertFailsIffBadRating(rows: seq<MediaItem>, nextId: nat, item: NewMedia, now: Timestamp)
    ensures Upsert(rows, nextId, item, now).Err? <==> !RatingInRange(item.userRating)
  {
  }

  /** An absent key adds one row at the end, with the next id, and keeps the rest. */
  lemma UpsertAbsentAppends(rows: seq<MediaItem>, nextId: nat, item: NewMedia, now: Timestamp)
    requires RatingInRange(item.userRating)
    requires forall i :: 0 <= i < |rows| ==> ItemKey(rows[i]) != NewMediaKey(item)
    ensures var u := Upsert(rows, nextId, item, now);
      && u.Ok? && |u.value.0| == |rows| + 1 && u.value.0[..|rows|] == rows
      && u.value.0[|rows|] == InsertedRow(item, nextId, now) && u.value.1 == nextId + 1
  {
    assert FindKey(rows, NewMediaKey(item)).None?;
    var u := Upsert(rows, nextId, item, now);
    assert u.value.0 == rows + [InsertedRow(item, nextId, now)];
  }

  /** An existing key updates that row in place and leaves every other row alone. */
  lemma UpsertPresentInPlace(rows: seq<MediaItem>, nextId: nat, item: NewMedia, now: Timestamp, i: nat)
    requires TableInvariant(rows, nextId)
    requires RatingInRange(item.userRating)
    requires i < |rows| && ItemKey(rows[i]) == NewMediaKey(item)
    ensures var u := Upsert(rows, nextId, item, now);
      && u.Ok? && |u.value.0| == |rows| && u.value.1 == nextId
      && u.value.0[i] == Merged(rows[i], item, now)
      && forall j :: 0 <= j < |rows| && j != i ==> u.value.0[j] == rows[j]
  {
    FindKeyUnique(rows, nextId, NewMediaKey(item), i);
  }

  /** The upsert keeps the table invariant. */
  lemma UpsertKeepsInvariant(rows: seq<MediaItem>, nextId: nat, item: NewMedia, now: Timestamp)
    requires TableInvariant(rows, nextId)
    ensures var u := Upsert(rows, nextId, item, now);
      u.Ok? ==> TableInvariant(u.value.0, u.value.1)
  {
    var u := Upsert(rows, nextId, item, now);
    if u.Ok? {
      var key := NewMediaKey(item);
      var rs := u.value.0;
      match FindKey(rows, key)
      case None =>
        var n := InsertedRow(item, nextId, now);
        assert rs == rows + [n];
        forall i | 0 <= i < |rs| ensures Stored(rs[i], nextId + 1) {
          if i < |rows| {
            assert Stored(rows[i], nextId);
          }
        }
        forall i, j | 0 <= i < j < |rs| ensures RowBefore(rs[i], rs[j]) {
          if j == |rows| {
            assert Stored(rows[i], nextId);
          } else {
            assert rs[i] == rows[i] && rs[j] == rows[j];
          }
        }
      case Some(k) =>
        forall i, j | 0 <= i < j < |rs| ensures RowBefore(rs[i], rs[j]) {
          assert RowBefore(rows[i], rows[j]);
        }
    }
  }

  /** After a successful upsert the key's row is found, and it carries the record. */
  lemma UpsertThenFind(rows: seq<MediaItem>, nextId: nat, item: NewMedia, now: Timestamp)
    requires TableInvariant(rows, nextId)
    requires RatingInRange(item.userRating)
    ensures var u := Upsert(rows, nextId, item, now);
      && u.Ok?
      && var found := FindKey(u.value.0, NewMediaKey(item));
      && found.Some?
      && var r := u.value.0[found.value];
      && r.title == item.title && r.status == item.status && r.updatedAt == Some(now)
      && (item.userRating.Some? ==> r.userRating == item.userRating)
  {
    UpsertKeepsInvariant(rows, nextId, item, now);
    var u := Upsert(rows, nextId, item, now);
    var key := NewMediaKey(item);
    match FindKey(rows, key)
    case None =>
      FindKeyUnique(u.value.0, u.value.1, key, |rows|);
    case Some(k) =>
      FindKeyUnique(u.value.0, u.value.1, key, k);
  }

  /** What `updates` must look like to have the types `Partial<MediaItem>` gives the
      allow-listed columns. */
  predicate WellTyped(u: Updates) {
    && ("status" in u ==> u["status"].Text? && ParseStatus(u["status"].s).Some?)
    && ("user_rating" in u ==> !u["user_rating"].Text?)
    && ("user_notes" in u ==> !u["user_notes"].Number?)
    && ("watched_date" in u ==> !u["watched_date"].Number?)
  }

  function RatingValue(v: Value): Option<real> {
    if v.Number? then Some(v.n) else None
  }

  function TextValue(v: Value): Option<string> {
    if v.Text? then Some(v.s) else None
  }

  /** The catalogue and identity columns `updateMedia` can never write. */
  predicate SameFixedColumns(a: MediaItem, b: MediaItem) {
    && a.id == b.id && a.tmdbId == b.tmdbId && a.mediaType == b.mediaType
    && a.title == b.title && a.posterPath == b.posterPath && a.backdropPath == b.backdropPath
    && a.overview == b.overview && a.releaseDate == b.releaseDate && a.genres == b.genres
    && a.voteAverage == b.voteAverage && a.createdAt == b.createdAt
  }

  /** The row after `UPDATE media SET ... WHERE id = ...` for `u` with at least one
      allowed key. */
  function Patched(row: MediaItem, u: Updates, now: Timestamp): (r: MediaItem)
    requires WellTyped(u)
    ensures SameFixedColumns(row, r)
    ensures r.updatedAt == Some(now)
    ensures "status" in u ==> StatusName(r.status) == u["status"].s
    ensures "status" !in u ==> r.status == row.status
    ensures "user_rating" in u ==> r.userRating == RatingValue(u["user_rating"])
    ensures "user_rating" !in u ==> r.userRating == row.userRating
    ensures "user_notes" in u ==> r.userNotes == TextValue(u["user_notes"])
    ensures "user_notes" !in u ==> r.userNotes == row.userNotes
    ensures "watched_date" in u ==> r.watchedDate == TextValue(u["watched_date"])
    ensures "watched_date" !in u ==> r.watchedDate == row.watchedDate
  {
    row.(
      status := if "status" in u then ParseStatus(u["status"].s).value else row.status,
      userRating := if "user_rating" in u then RatingValue(u["user_rating"]) else row.userRating,
      userNotes := if "user_notes" in u then TextValue(u["user_notes"]) else row.userNotes,
      watchedDate := if "watched_date" in u then TextValue(u["watched_date"]) else row.watchedDate,
      updatedAt := Some(now))
  }

  /** Some row has this id. */
  predicate HasRowWithId(rows: seq<MediaItem>, id: int) {
    exists i :: 0 <= i < |rows| && rows[i].id == Some(id)
  }

  /** `updateMedia(id, u)` on the rows: unchanged when no allowed key is set; the CHECK constraint
      failure when the row exists and the new rating is out of range; otherwise the
      row with that id patched. */
  function UpdateRows(rows: seq<MediaItem>, id: int, u: Updates, now: Timestamp): Result<seq<MediaItem>>
    requires WellTyped(u)
  {
    if ChosenFields(u) == [] then Ok(rows)
    else if "user_rating" in u && !RatingInRange(RatingValue(u["user_rating"])) && HasRowWithId(rows, id)
    then Err("CHECK constraint failed: media")
    else Ok(seq(|rows|, i requires 0 <= i < |rows| =>
                if rows[i].id == Some(id) then Patched(rows[i], u, now) else rows[i]))
  }

  /** The update writes only the row with that id, and in it only the allowed columns. */
  lemma UpdateRowsEffect(rows: seq<MediaItem>, id: int, u: Updates, now: Timestamp)
    requires WellTyped(u)
    ensures var r := UpdateRows(rows, id, u, now);
      r.Ok? ==> && |r.value| == |rows|
                && forall i :: 0 <= i < |rows| ==>
                     && SameFixedColumns(rows[i], r.value[i])
                     && (rows[i].id != Some(id) ==> r.value[i] == rows[i])
  {
  }

  /** An update whose keys are all outside the allow-list changes nothing. */
  lemma UpdateWithoutAllowedKeysIsNoOp(rows: seq<MediaItem>, id: int, u: Updates, now: Timestamp)
    requires WellTyped(u)
    requires forall k :: k in u ==> !IsAllowedColumn(k)
    ensures UpdateRows(rows, id, u, now) == Ok(rows)
  {
    NoAllowedKeyChoosesNothing(u, |AllowedFields|);
  }

  lemma {:induction false} NoAllowedKeyChoosesNothing(u: Updates, n: nat)
    requires forall k :: k in u ==> !IsAllowedColumn(k)
    requires n <= |AllowedFields|
    ensures Chosen(u, n) == []
  {
    if n > 0 {
      NoAllowedKeyChoosesNothing(u, n - 1);
      assert IsAllowedColumn(ColumnName(AllowedFields[n - 1]));
    }
  }

  /** The update keeps the table invariant. */
  lemma UpdateKeepsInvariant(rows: seq<MediaItem>, nextId: nat, id: int, u: Updates, now: Timestamp)
    requires TableInvariant(rows, nextId)
    requires WellTyped(u)
    ensures var r := UpdateRows(rows, id, u, now);
      r.Ok? ==> TableInvariant(r.value, nextId)
  {
    var r := UpdateRows(rows, id, u, now);
    if r.Ok? && ChosenFields(u) != [] {
      var rs := r.value;
      forall i | 0 <= i < |rs| ensures Stored(rs[i], nextId) {
        assert Stored(rows[i], nextId);
        if rows[i].id == Some(id) && "user_rating" in u {
          assert HasRowWithId(rows, id);
        }
      }
      forall i, j | 0 <= i < j < |rs| ensures RowBefore(rs[i], rs[j]) {
        assert RowBefore(rows[i], rows[j]);
      }
    }
  }

  /** `deleteMedia(id)` on the rows. */
  function DeleteRows(rows: seq<MediaItem>, id: int): (r: seq<MediaItem>)
    ensures |r| <= |rows|
  {
    Filter(rows, IdIsNot(id))
  }

  function IdIsNot(id: int): MediaItem -> bool {
    (r: MediaItem) => r.id != Some(id)
  }

  /** After a delete no row has the id, and every other row is still there. */
  lemma DeleteRowsEffect(rows: seq<MediaItem>, id: int, x: MediaItem)
    ensures x in DeleteRows(rows, id) <==> x in rows && x.id != Some(id)
  {
    FilterMembers(rows, IdIsNot(id), x);
  }

  /** The delete keeps the table invariant. */
  lemma DeleteKeepsInvariant(rows: seq<MediaItem>, nextId: nat, id: int)
    requires TableInvariant(rows, nextId)
    ensures TableInvariant(DeleteRows(rows, id), nextId)
  {
    var rs := DeleteRows(rows, id);
    FilterSorted(rows, IdIsNot(id), RowBefore);
    forall i | 0 <= i < |rs| ensures Stored(rs[i], nextId) {
      FilterMembers(rows, IdIsNot(id), rs[i]);
      var k :| 0 <= k < |rows| && rows[k] == rs[i];
    }
  }

  /** The table: its rows in rowid order and the next id AUTOINCREMENT hands out. */
  class MediaTable {
    var rows: seq<MediaItem>
    var nextId: nat

    ghost predicate Valid()
      reads this
    {
      TableInvariant(rows, nextId)
    }

    /** The freshly created, empty table. */
    constructor ()
      ensures Valid()
      ensures rows == [] && nextId == 1
    {
      rows := [];
      nextId := 1;
    }

    /** `addMedia(item)` */
    method AddMedia(item: NewMedia, now: Timestamp) returns (r: Result<()>)
      requires Valid()
      modifies this
      ensures Valid()
      ensures var u := Upsert(old(rows), old(nextId), item, now);
        && (u.Ok? ==> r.Ok? && rows == u.value.0 && nextId == u.value.1)
        && (u.Err? ==> r.Err? && rows == old(rows) && nextId == old(nextId))
    {
      UpsertKeepsInvariant(rows, nextId, item, now);
      var u := Upsert(rows, nextId, item, now);
      if u.Err? {
        return Err(u.message);
      }
      rows, nextId := u.value.0, u.value.1;
      r := Ok(());
    }

    /** `updateMedia(id, updates)`: builds the statement, and sends it only when there
        is one. */
    method UpdateMedia(id: int, updates: Updates, now: Timestamp) returns (r: Result<()>)
      requires Valid()
      requires WellTyped(updates)
      modifies this
      ensures Valid()
      ensures nextId == old(nextId)
      ensures var u := UpdateRows(old(rows), id, updates, now);
        && (u.Ok? ==> r.Ok? && rows == u.value)
        && (u.Err? ==> r.Err? && rows == old(rows))
    {
      var stmt := BuildUpdate(id, updates);
      if stmt.None? {
        return Ok(());
      }
      UpdateKeepsInvariant(rows, nextId, id, updates, now);
      var u := UpdateRows(rows, id, updates, now);
      if u.Err? {
        return Err(u.message);
      }
      rows := u.value;
      r := Ok(());
    }

    /** `deleteMedia(id)` */
    method DeleteMedia(id: int)
      requires Valid()
      modifies this
      ensures Valid()
      ensures rows == DeleteRows(old(rows), id) && nextId == old(nextId)
    {
      DeleteKeepsInvariant(rows, nextId, id);
      rows := DeleteRows(rows, id);
    }
  }

  // ---------------------------------------------------------------------
  // Queries
  // ---------------------------------------------------------------------

  function Stamp(r: MediaItem): Timestamp {
    r.updatedAt.GetOr(0)
  }

  /** `ORDER BY updated_at DESC` */
  predicate NewerFirst(a: MediaItem, b: MediaItem) {
    Stamp(a) >= Stamp(b)
  }

  function StatusIs(st: Status): MediaItem -> bool {
    (r: MediaItem) => r.status == st
  }

  /** `getMediaByStatus(status)` */
  function ByStatus(rows: seq<MediaItem>, st: Status): seq<MediaItem> {
    SortBy(Filter(rows, StatusIs(st)), NewerFirst)
  }

  /** `getAllMedia()` */
  function AllMedia(rows: seq<MediaItem>): seq<MediaItem> {
    SortBy(rows, NewerFirst)
  }

  lemma NewerFirstTotal()
    ensures TotalPreorder(NewerFirst)
  {
  }

  /** `getMediaByStatus` returns exactly the rows with that status, newest first. */
  lemma ByStatusSpec(rows: seq<MediaItem>, st: Status)
    ensures multiset(ByStatus(rows, st)) == multiset(Filter(rows, StatusIs(st)))
    ensures forall x :: x in ByStatus(rows, st) <==> x in rows && x.status == st
    ensures Sorted(ByStatus(rows, st), NewerFirst)
  {
    NewerFirstTotal();
    SortBySorted(Filter(rows, StatusIs(st)), NewerFirst);
    forall x ensures x in ByStatus(rows, st) <==> x in rows && x.status == st {
      FilterMembers(rows, StatusIs(st), x);
      assert x in ByStatus(rows, st) <==> x in multiset(ByStatus(rows, st));
    }
  }

  /** `getAllMedia` returns every row, newest first. */
  lemma AllMediaSpec(rows: seq<MediaItem>)
    ensures multiset(AllMedia(rows)) == multiset(rows)
    ensures Sorted(AllMedia(rows), NewerFirst)
  {
    NewerFirstTotal();
    SortBySorted(rows, NewerFirst);
  }

  /** `getMediaByTmdbId(tmdbId, mediaType)`: the first matching row, or null. */
  function ByTmdbId(rows: seq<MediaItem>, tmdbId: int, mediaType: string): (r: Option<MediaItem>)
    ensures r.Some? ==> r.value in rows && ItemKey(r.value) == (tmdbId, mediaType)
    ensures r.None? <==> forall x :: x in rows ==> ItemKey(x) != (tmdbId, mediaType)
  {
    match FindKey(rows, (tmdbId, mediaType))
    case Some(i) => Some(rows[i])
    case None => None
  }

  /** A catalogue type the table's CHECK refuses is never found. */
  lemma ByTmdbIdUnknownType(rows: seq<MediaItem>, tmdbId: int, mediaType: string)
    requires ParseMediaType(mediaType).None?
    ensures ByTmdbId(rows, tmdbId, mediaType).None?
  {
    forall x | x in rows ensures ItemKey(x) != (tmdbId, mediaType) {
      MediaTypeRoundTrip(x.mediaType);
    }
  }

  function RatingOf(r: MediaItem): real {
    r.userRating.GetOr(0.0)
  }

  /** `status = 'watched' AND user_rating IS NOT NULL AND user_rating >= 3` */
  predicate TopCandidate(r: MediaItem) {
    r.status == Watched && r.userRating.Some? && r.userRating.value >= 3.0
  }

  /** `ORDER BY user_rating DESC, updated_at DESC` */
  predicate RatingThenNewer(a: MediaItem, b: MediaItem) {
    RatingOf(a) > RatingOf(b) || (RatingOf(a) == RatingOf(b) && Stamp(a) >= Stamp(b))
  }

  lemma RatingThenNewerTotal()
    ensures TotalPreorder(RatingThenNewer)
  {
  }

  function TopCandidates(rows: seq<MediaItem>): seq<MediaItem> {
    SortBy(Filter(rows, TopCandidate), RatingThenNewer)
  }

  /** `getTopRatedMedia(limit)`; a negative LIMIT means no limit. The source's default
      argument `limit = 5` is not modelled: the only caller passes 5 itself. */
  function TopRated(rows: seq<MediaItem>, limit: int): seq<MediaItem> {
    var sorted := TopCandidates(rows);
    if limit < 0 then sorted else Take(sorted, limit)
  }

  /** `getTopRatedMedia` returns the `limit` best watched rows rated 3 or more: all
      candidates sorted, cut to min(limit, candidates) (a negative limit cuts nothing),
      best first, and every candidate it leaves out ranks no higher than those it
      returns. */
  lemma TopRatedSpec(rows: seq<MediaItem>, limit: int)
    ensures var r := TopRated(rows, limit);
      && multiset(TopCandidates(rows)) == multiset(Filter(rows, TopCandidate))
      && (limit >= 0 ==> |r| == if |TopCandidates(rows)| <= limit then |TopCandidates(rows)| else limit)
      && (limit < 0 ==> r == TopCandidates(rows))
      && (forall x :: x in r ==> x in rows && TopCandidate(x))
      && Sorted(r, RatingThenNewer)
      && var all := TopCandidates(rows);
      && r == all[..|r|]
      && (forall i, j :: 0 <= i < |r| <= j < |all| ==> RatingThenNewer(all[i], all[j]))
  {
    var all := TopCandidates(rows);
    var r := TopRated(rows, limit);
    RatingThenNewerTotal();
    SortBySorted(Filter(rows, TopCandidate), RatingThenNewer);
    forall x | x in r ensures x in rows && TopCandidate(x) {
      assert x in multiset(all);
      FilterMembers(rows, TopCandidate, x);
    }
    assert forall i, j :: 0 <= i < j < |r| ==> r[i] == all[i] && r[j] == all[j];
  }
}
