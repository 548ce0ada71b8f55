// The media_items table as the importer uses it (repository/media.go).
module Catalogue {
  import opened Base
  import opened Paths
  import opened FileSystem
  import opened ImportContext

  /** A media item; descriptive columns are bundled in info. */
  datatype MediaItem = MediaItem(
    id: Id, typ: EntityKind, info: Info,
    filePath: Path, rootPath: Path, primaryPath: Path, nfoPath: Path,
    parentId: Id, season: Option<int>, episode: Option<int>,
    metadataSource: string, providerId: string, libraryId: string, status: string,
    createdAt: int, updatedAt: int)

  /** What the database does at each operation, numbered by tick: whether a lookup returns without error,
      whether a write is accepted, and the time. Constraint violations are refused writes. */
  datatype Store = Store(
    lookupOk: nat -> bool,
    accepts: (nat, seq<MediaItem>, MediaItem) -> bool,
    clock: nat -> int)

  ghost predicate LookupsOk(store: Store) {
    forall t :: store.lookupOk(t)
  }

  /** Rows in insertion order, the next tick, and the next identifier Create draws for an item without one. */
  datatype Db = Db(rows: seq<MediaItem>, tick: nat, next: nat)

  datatype Column = ByFile | ByRoot

  /** The columns a lookup fixes: library, type and one of the two paths. */
  datatype Key = Key(column: Column, libraryId: string, path: Path, typ: EntityKind)

  predicate Hits(row: MediaItem, key: Key) {
    && row.libraryId == key.libraryId && row.typ == key.typ
    && (if key.column == ByFile then row.filePath else row.rootPath) == key.path
  }

  /** The index of the first row a lookup returns, or -1. */
  function FirstHit(rows: seq<MediaItem>, key: Key): (k: int)
    ensures -1 <= k < |rows|
    ensures k >= 0 ==> Hits(rows[k], key)
    ensures forall i :: 0 <= i < (if k >= 0 then k else |rows|) ==> !Hits(rows[i], key)
  {
    if rows == [] then -1
    else
      var k := FirstHit(rows[..|rows|-1], key);
      if k >= 0 then k else if Hits(rows[|rows|-1], key) then |rows| - 1 else -1
  }

  function Lookup(rows: seq<MediaItem>, key: Key): Id {
    if FirstHit(rows, key) >= 0 then rows[FirstHit(rows, key)].id else NoId
  }

  /** FindExistingItem and FindByRootPath; the callers drop the error and see no row. */
  function Find(store: Store, db: Db, key: Key): (Db, Id) {
    (db.(tick := db.tick + 1), if store.lookupOk(db.tick) then Lookup(db.rows, key) else NoId)
  }

  function OrElse(s: string, default: string): string {
    if s == "" then default else s
  }

  /** normalizeMediaItemForWrite, and season and episode stored as 0 when absent. */
  function Stored(m: MediaItem): MediaItem {
    m.(providerId := OrElse(m.providerId, "local"),
       libraryId := OrElse(m.libraryId, "default"),
       metadataSource := OrElse(m.metadataSource, "nfo"),
       status := OrElse(m.status, "available"),
       primaryPath := if m.primaryPath.NoPath? then m.filePath else m.primaryPath,
       rootPath := if m.rootPath.NoPath? then Path(true, [], "") else m.rootPath,
       season := if m.season.None? then Some(0) else m.season,
       episode := if m.episode.None? then Some(0) else m.episode)
  }

  predicate HasId(rows: seq<MediaItem>, id: Id) {
    exists i :: 0 <= i < |rows| && rows[i].id == id
  }

  /** INSERT: a taken id violates the primary key. */
  function InsertRow(store: Store, db: Db, m: MediaItem): (Db, bool) {
    var id := if m.id.NoId? then Uuid(db.next) else m.id;
    var next := if m.id.NoId? then db.next + 1 else db.next;
    var now := store.clock(db.tick);
    var row := Stored(m.(id := id, createdAt := now, updatedAt := now));
    var ok := !HasId(db.rows, id) && store.accepts(db.tick, db.rows, row);
    (Db(if ok then db.rows + [row] else db.rows, db.tick + 1, next), ok)
  }

  /** The columns UPDATE sets: all but id, type, status and created_at. */
  function Overwrite(row: MediaItem, m: MediaItem): MediaItem {
    m.(id := row.id, typ := row.typ, status := row.status, createdAt := row.createdAt)
  }

  function UpdateRows(rows: seq<MediaItem>, m: MediaItem): seq<MediaItem> {
    seq(|rows|, i requires 0 <= i < |rows| => if rows[i].id == m.id then Overwrite(rows[i], m) else rows[i])
  }

  function UpdateRow(store: Store, db: Db, m: MediaItem): (Db, bool) {
    var row := Stored(m.(updatedAt := store.clock(db.tick)));
    var ok := store.accepts(db.tick, db.rows, row);
    (Db(if ok then UpdateRows(db.rows, row) else db.rows, db.tick + 1, db.next), ok)
  }

  /** The columns that INSERT and UPDATE take from m, with the defaults of the write. */
  predicate Carries(row: MediaItem, m: MediaItem) {
    && row.id == m.id && row.info == m.info && row.filePath == m.filePath && row.nfoPath == m.nfoPath
    && row.parentId == m.parentId
    && row.rootPath == (if m.rootPath == NoPath then Path(true, [], "") else m.rootPath)
    && row.primaryPath == (if m.primaryPath == NoPath then m.filePath else m.primaryPath)
    && row.season == (if m.season == None then Some(0) else m.season)
    && row.episode == (if m.episode == None then Some(0) else m.episode)
    && row.metadataSource == (if m.metadataSource == "" then "nfo" else m.metadataSource)
    && row.providerId == (if m.providerId == "" then "local" else m.providerId)
    && row.libraryId == (if m.libraryId == "" then "default" else m.libraryId)
  }

  /** The columns that only INSERT sets. */
  predicate SameOrigin(a: MediaItem, b: MediaItem) {
    a.typ == b.typ && a.status == b.status && a.createdAt == b.createdAt
  }

  /** MediaRepository over the stored rows. */
  class MediaRepository {
    const store: Store
    const ids: UuidSource
    var rows: seq<MediaItem>
    var tick: nat

    constructor (store: Store, ids: UuidSource, rows: seq<MediaItem>)
      ensures this.store == store && this.ids == ids && this.rows == rows && tick == 0
    {
      this.store, this.ids, this.rows, tick := store, ids, rows, 0;
    }

    function State(): Db
      reads this, ids
    {
      Db(rows, tick, ids.next)
    }

    method FindExistingItem(libraryId: string, filePath: Path, mediaType: EntityKind) returns (id: Id)
      modifies `tick
      ensures (State(), id) == Find(store, old(State()), Key(ByFile, libraryId, filePath, mediaType))
    {
      id := Scan(Key(ByFile, libraryId, filePath, mediaType));
    }

    method FindByRootPath(libraryId: string, rootPath: Path, mediaType: EntityKind) returns (id: Id)
      modifies `tick
      ensures (State(), id) == Find(store, old(State()), Key(ByRoot, libraryId, rootPath, mediaType))
    {
      id := Scan(Key(ByRoot, libraryId, rootPath, mediaType));
    }

    method Scan(key: Key) returns (id: Id)
      modifies `tick
      ensures (State(), id) == Find(store, old(State()), key)
    {
      tick := tick + 1;
      if !store.lookupOk(tick - 1) {
        return NoId;
      }
      for i := 0 to |rows|
        invariant forall j :: 0 <= j < i ==> !Hits(rows[j], key)
      {
        if Hits(rows[i], key) {
          return rows[i].id;
        }
      }
      id := NoId;
    }

    method Create(item: MediaItem) returns (ok: bool)
      modifies `rows, `tick, ids
      ensures (State(), ok) == InsertRow(store, old(State()), item)
      ensures !ok ==> rows == old(rows)
      ensures ok ==>
                && |rows| == |old(rows)| + 1 && rows[..|old(rows)|] == old(rows)
                && var row := rows[|old(rows)|];
                && Carries(row, item.(id := row.id)) && (item.id.Uuid? ==> row.id == item.id) && row.typ == item.typ
                && row.status == (if item.status == "" then "available" else item.status)
                && row.createdAt == row.updatedAt == store.clock(old(tick))
    {
      var m := item;
      if m.id.NoId? {
        var id := ids.New();
        m := m.(id := id);
      }
      var now := store.clock(tick);
      m := Stored(m.(createdAt := now, updatedAt := now));
      ok := !HasId(rows, m.id) && store.accepts(tick, rows, m);
      if ok {
        rows := rows + [m];
      }
      tick := tick + 1;
    }

    method Update(item: MediaItem) returns (ok: bool)
      modifies `rows, `tick
      ensures (State(), ok) == UpdateRow(store, old(State()), item)
      ensures !ok ==> rows == old(rows)
      ensures ok ==>
                && |rows| == |old(rows)|
                && forall i :: 0 <= i < |rows| ==>
                  if old(rows)[i].id != item.id then rows[i] == old(rows)[i]
                  else Carries(rows[i], item) && SameOrigin(rows[i], old(rows)[i]) &&
                       rows[i].updatedAt == store.clock(old(tick))
    {
      var m := Stored(item.(updatedAt := store.clock(tick)));
      ok := store.accepts(tick, rows, m);
      if ok {
        rows := UpdateRows(rows, m);
      }
      tick := tick + 1;
    }
  }

  // ---- Invariants ---------------------------------------------------------------------------------------

  /** The key a row is looked up by: a show by its directory, any other item by its file. */
  function RowKey(row: MediaItem): Key {
    if row.typ == Show then Key(ByRoot, row.libraryId, row.rootPath, Show)
    else Key(ByFile, row.libraryId, row.filePath, row.typ)
  }

  /** A key of the kind the reconciler looks up. */
  predicate ProperKey(key: Key) {
    key.column == ByRoot <==> key.typ == Show
  }

  ghost predicate KeysUnique(rows: seq<MediaItem>) {
    forall i, j :: 0 <= i < j < |rows| ==> RowKey(rows[i]) != RowKey(rows[j])
  }

  ghost predicate IdsUnique(rows: seq<MediaItem>) {
    && (forall i, j :: 0 <= i < j < |rows| ==> rows[i].id != rows[j].id)
    && (forall i :: 0 <= i < |rows| ==> rows[i].id != NoId)
  }

  ghost predicate Valid(rows: seq<MediaItem>) {
    IdsUnique(rows) && KeysUnique(rows)
  }

  /** With unique keys a proper lookup returns the row with that key. */
  lemma FirstHitIs(rows: seq<MediaItem>, key: Key, k: nat)
    requires KeysUnique(rows) && ProperKey(key) && k < |rows| && RowKey(rows[k]) == key
    ensures FirstHit(rows, key) == k
  {
    var f := FirstHit(rows, key);
    assert Hits(rows[k], key);
    assert RowKey(rows[f]) == key;
  }

  lemma UpdateRowsAt(rows: seq<MediaItem>, m: MediaItem, k: nat)
    requires IdsUnique(rows) && k < |rows| && rows[k].id == m.id
    ensures UpdateRows(rows, m) == rows[k := Overwrite(rows[k], m)]
  {
  }
}
