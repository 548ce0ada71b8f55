// The constraints of the shipped schema: migrations/0001_init.up.sql declares file_path UNIQUE and parent_id a foreign
// key, repository/db.go turns foreign keys on, and no later migration drops either.
module Schema {
  import opened Base
  import opened Paths
  import opened ImportContext
  import opened Catalogue
  import opened Reconcile
  import opened CatalogueKeys
  import opened Reimport

  predicate FileFree(rows: seq<MediaItem>, m: MediaItem) {
    forall i :: 0 <= i < |rows| && rows[i].filePath == m.filePath ==> rows[i].id == m.id
  }

  predicate ParentKnown(rows: seq<MediaItem>, m: MediaItem) {
    m.parentId.NoId? || m.parentId == m.id || HasId(rows, m.parentId)
  }

  /** The row m may be written, under its identifier, into a table with these rows. */
  predicate Admits(rows: seq<MediaItem>, m: MediaItem) {
    FileFree(rows, m) && ParentKnown(rows, m)
  }

  /** A store that lets nothing past the constraints; it may refuse more. */
  ghost predicate Enforces(store: Store) {
    forall t, rows, m :: store.accepts(t, rows, m) ==> Admits(rows, m)
  }

  /** A store that refuses nothing but violations. */
  ghost predicate Permits(store: Store) {
    forall t, rows, m :: Admits(rows, m) ==> store.accepts(t, rows, m)
  }

  /** The shipped database when nothing else fails. */
  ghost predicate Schematic(store: Store) {
    LookupsOk(store) && Enforces(store) && Permits(store)
  }

  function SchemaStore(clock: nat -> int): Store {
    Store(t => true, (t, rows, m) => Admits(rows, m), clock)
  }

  lemma SchemaStoreIsSchematic(clock: nat -> int)
    ensures Schematic(SchemaStore(clock))
  {
  }

  // ---- UNIQUE(file_path) alone keeps keys unique, whatever lookups do -------------------------------------------

  ghost predicate FilesDistinct(rows: seq<MediaItem>) {
    forall i, j :: 0 <= i < j < |rows| ==> rows[i].filePath != rows[j].filePath
  }

  /** Shows are stored without a file; the importer writes them so. */
  ghost predicate ShowsFileless(rows: seq<MediaItem>) {
    forall i :: 0 <= i < |rows| && rows[i].typ == Show ==> rows[i].filePath == NoPath
  }

  ghost predicate FilesOk(rows: seq<MediaItem>) {
    IdsUnique(rows) && FilesDistinct(rows) && ShowsFileless(rows)
  }

  lemma FilesMakeKeys(rows: seq<MediaItem>)
    requires FilesOk(rows)
    ensures Valid(rows)
  {
    forall i, j | 0 <= i < j < |rows|
      ensures RowKey(rows[i]) != RowKey(rows[j])
    {
      assert rows[i].filePath != rows[j].filePath;
    }
  }

  lemma WriteKeepsFiles(store: Store, db: Db, key: Key, existing: Id, m: MediaItem)
    requires FilesOk(db.rows) && UniqueFilePath(store)
    requires key.typ == m.typ && (m.typ == Show ==> m.filePath == NoPath)
    requires existing == NoId || existing == Lookup(db.rows, key)
    requires existing.Uuid? ==> m.id == existing
    ensures FilesOk(Write(store, db, existing, m).0.rows)
  {
    if existing.Uuid? {
      UpdateRowsAt(db.rows, Stored(m.(updatedAt := store.clock(db.tick))), FirstHit(db.rows, key));
    }
  }

  lemma StepKeepsFiles(imp: Importing, store: Store, db: Db, c: Candidate)
    requires FilesOk(db.rows) && UniqueFilePath(store) && Reconcilable(c)
    ensures FilesOk(Step(imp, store, db, c).0.rows)
  {
    var key := KeyOf(imp, c);
    if c.kind == Show {
      var (db1, existing) := Find(store, db, key);
      WriteKeepsFiles(store, db1, key, existing, ShowItem(imp, c, if existing.NoId? then c.id else existing));
    } else if c.primaryPath.Path? {
      if c.kind == Movie {
        var (db1, existing) := Find(store, db, key);
        WriteKeepsFiles(store, db1, key, existing, MovieItem(imp, c, if existing.NoId? then c.id else existing));
      } else {
        var (db1, parent) := ResolveShow(imp, store, db, c);
        var (db2, existing) := Find(store, db1, key);
        WriteKeepsFiles(store, db2, key, existing,
            EpisodeItem(imp, c, if existing.NoId? then c.id else existing, parent));
      }
    }
  }

  lemma {:induction false} RunKeepsFiles(imp: Importing, store: Store, db: Db, cs: seq<Candidate>, total: nat)
    requires FilesOk(db.rows) && UniqueFilePath(store)
    ensures FilesOk(Run(imp, store, db, cs, total).0.rows)
  {
    if cs != [] {
      RunKeepsFiles(imp, store, db, cs[..|cs|-1], total);
      if Reconcilable(cs[|cs|-1]) {
        StepKeepsFiles(imp, store, Run(imp, store, db, cs[..|cs|-1], total).0, cs[|cs|-1]);
      }
    }
  }

  /** Under UNIQUE(file_path) keys stay unique over any sequence of imports of arbitrary candidates, whatever lookups
      and other writes do: one row per library, file and type, one show row per library and directory. */
  lemma {:induction false} SchemaKeepsKeys(db: Db, runs: seq<ImportRun>)
    requires FilesOk(db.rows) && forall i :: 0 <= i < |runs| ==> UniqueFilePath(runs[i].store)
    ensures FilesOk(Runs(db, runs).rows) && KeysUnique(Runs(db, runs).rows)
  {
    if runs != [] {
      var r := runs[|runs|-1];
      var before := runs[..|runs|-1];
      assert forall i :: 0 <= i < |before| ==> before[i] == runs[i];
      SchemaKeepsKeys(db, before);
      RunKeepsFiles(r.imp, r.store, Runs(db, before), r.cands, |r.cands|);
    }
    FilesMakeKeys(Runs(db, runs).rows);
  }

  // ---- All constraints ------------------------------------------------------------------------------------------

  /** Shows are stored with a directory, and every parent is a row. */
  ghost predicate ParentsExist(rows: seq<MediaItem>) {
    && (forall i :: 0 <= i < |rows| && rows[i].typ == Show ==> rows[i].rootPath.Path?)
    && (forall i :: 0 <= i < |rows| ==> rows[i].parentId.NoId? || HasId(rows, rows[i].parentId))
  }

  /** A table that satisfies the constraints. */
  ghost predicate Sound(rows: seq<MediaItem>) {
    FilesOk(rows) && ParentsExist(rows)
  }

  lemma HasIdGrows(rows: seq<MediaItem>, rows': seq<MediaItem>, id: Id)
    requires |rows| <= |rows'| && forall i :: 0 <= i < |rows| ==> rows'[i].id == rows[i].id
    ensures HasId(rows, id) ==> HasId(rows', id)
  {
    if HasId(rows, id) {
      var i :| 0 <= i < |rows| && rows[i].id == id;
      assert rows'[i].id == id;
    }
  }

  lemma WriteKeepsParents(store: Store, db: Db, key: Key, existing: Id, m: MediaItem)
    requires IdsUnique(db.rows) && ParentsExist(db.rows) && Enforces(store)
    requires existing == NoId || existing == Lookup(db.rows, key)
    requires existing.Uuid? ==> m.id == existing
    ensures ParentsExist(Write(store, db, existing, m).0.rows)
  {
    var rows' := Write(store, db, existing, m).0.rows;
    if existing.Uuid? {
      UpdateRowsAt(db.rows, Stored(m.(updatedAt := store.clock(db.tick))), FirstHit(db.rows, key));
    }
    forall id
      ensures HasId(db.rows, id) ==> HasId(rows', id)
    {
      HasIdGrows(db.rows, rows', id);
    }
  }

  lemma StepKeepsSound(imp: Importing, store: Store, db: Db, c: Candidate)
    requires Sound(db.rows) && Enforces(store) && Reconcilable(c)
    ensures Sound(Step(imp, store, db, c).0.rows)
  {
    StepKeepsFiles(imp, store, db, c);
    var key := KeyOf(imp, c);
    if c.kind == Show {
      var (db1, existing) := Find(store, db, key);
      WriteKeepsParents(store, db1, key, existing, ShowItem(imp, c, if existing.NoId? then c.id else existing));
    } else if c.primaryPath.Path? {
      if c.kind == Movie {
        var (db1, existing) := Find(store, db, key);
        WriteKeepsParents(store, db1, key, existing, MovieItem(imp, c, if existing.NoId? then c.id else existing));
      } else {
        var (db1, parent) := ResolveShow(imp, store, db, c);
        var (db2, existing) := Find(store, db1, key);
        WriteKeepsParents(store, db2, key, existing,
            EpisodeItem(imp, c, if existing.NoId? then c.id else existing, parent));
      }
    }
  }

  lemma {:induction false} RunKeepsSound(imp: Importing, store: Store, db: Db, cs: seq<Candidate>, total: nat)
    requires Sound(db.rows) && Enforces(store)
    ensures Sound(Run(imp, store, db, cs, total).0.rows)
  {
    if cs != [] {
      RunKeepsSound(imp, store, db, cs[..|cs|-1], total);
      if Reconcilable(cs[|cs|-1]) {
        StepKeepsSound(imp, store, Run(imp, store, db, cs[..|cs|-1], total).0, cs[|cs|-1]);
      }
    }
  }

  /** The shipped database accepts every rewrite. */
  lemma SchemaAcceptsRewrites(store: Store, rows: seq<MediaItem>)
    requires Permits(store) && Sound(rows)
    ensures AcceptsRewrites(store, rows)
  {
    forall now: seq<MediaItem> | SameRows(rows, now)
      ensures RewriteOk(store, now)
    {
      SameSound(rows, now);
      forall t, m: MediaItem, k | 0 <= k < |now| && now[k].id == m.id && SameButUpdate(Overwrite(now[k], m), now[k])
        ensures store.accepts(t, now, m)
      {
        assert m.filePath == now[k].filePath && m.parentId == now[k].parentId;
        assert Admits(now, m);
      }
    }
  }

  lemma SameSound(a: seq<MediaItem>, b: seq<MediaItem>)
    requires SameRows(a, b) && Sound(a)
    ensures Sound(b)
  {
    assert forall i :: 0 <= i < |a| ==> SameButUpdate(a[i], b[i]);
    forall id
      ensures HasId(a, id) ==> HasId(b, id)
    {
      HasIdGrows(a, b, id);
    }
  }

  // ---- Which candidates are accepted --------------------------------------------------------------------------------

  /** The file path a candidate's row carries. */
  function FileOf(c: Candidate): Path {
    if c.kind == Show then NoPath else c.primaryPath
  }

  ghost predicate FileStored(rows: seq<MediaItem>, p: Path) {
    exists i :: 0 <= i < |rows| && rows[i].filePath == p
  }

  /** The candidate has no row yet, and another row holds its file path. */
  ghost predicate Taken(imp: Importing, rows: seq<MediaItem>, c: Candidate) {
    Lookup(rows, KeyOf(imp, c)).NoId? && FileStored(rows, FileOf(c))
  }

  /** An episode whose upward walk leads to no show row. */
  predicate Orphan(imp: Importing, rows: seq<MediaItem>, c: Candidate) {
    c.kind == Episode && Lookup(rows, WalkKey(imp, c)).NoId?
  }

  /** The identifiers drawn for c are new and different. */
  ghost predicate FreshlyDrawn(rows: seq<MediaItem>, c: Candidate) {
    c.id.Uuid? && !HasId(rows, c.id) && (c.kind == Episode ==> c.showId != c.id)
  }

  lemma LookupHasId(rows: seq<MediaItem>, key: Key)
    ensures Lookup(rows, key).Uuid? ==> HasId(rows, Lookup(rows, key))
  {
  }

  /** The row that a candidate is written as is admitted in exactly these cases. */
  lemma ItemAdmittedIff(imp: Importing, rows: seq<MediaItem>, c: Candidate, now: int, created: int)
    requires Sound(rows) && imp.libraryId != "" && ProperCandidate(c) && FreshlyDrawn(rows, c)
    ensures var existing := Lookup(rows, KeyOf(imp, c));
            var m := ItemIn(imp, rows, c, if existing.NoId? then c.id else existing);
            Admits(rows, Stored(m.(updatedAt := now, createdAt := created))) <==>
            !Taken(imp, rows, c) && (Orphan(imp, rows, c) ==> HasId(rows, c.showId))
  {
    FilesMakeKeys(rows);
    var key := KeyOf(imp, c);
    var existing := Lookup(rows, key);
    var m := ItemIn(imp, rows, c, if existing.NoId? then c.id else existing);
    var row := Stored(m.(updatedAt := now, createdAt := created));
    LookupHasId(rows, WalkKey(imp, c));
    LookupHasId(rows, key);
    assert row.filePath == FileOf(c) && row.id == m.id && row.parentId == m.parentId;
    if existing.Uuid? {
      var k := FirstHit(rows, key);
      assert rows[k].filePath == FileOf(c);
      assert FileFree(rows, row);
    } else {
      FreeIffNotStored(rows, row, FileOf(c));
    }
  }

  lemma FreeIffNotStored(rows: seq<MediaItem>, row: MediaItem, p: Path)
    requires !HasId(rows, row.id) && row.filePath == p
    ensures FileFree(rows, row) <==> !FileStored(rows, p)
  {
  }

  /** On the shipped database a candidate is rejected exactly when its file path is taken, or when it is an episode
      that finds no show row and whose own show is not a row either. A rejected candidate changes nothing. */
  lemma StepAcceptedIff(imp: Importing, store: Store, db: Db, c: Candidate)
    requires Sound(db.rows) && Schematic(store) && imp.libraryId != "" && ProperCandidate(c) && FreshlyDrawn(db.rows, c)
    ensures var (db', r) := Step(imp, store, db, c);
            && (r.Resolved? <==> !Taken(imp, db.rows, c) && (Orphan(imp, db.rows, c) ==> HasId(db.rows, c.showId)))
            && (r.Failed? ==> db'.rows == db.rows)
  {
    var key := KeyOf(imp, c);
    var db1 := if c.kind == Episode then ResolveShow(imp, store, db, c).0 else db;
    var (db2, existing) := Find(store, db1, key);
    var m := ItemIn(imp, db.rows, c, if existing.NoId? then c.id else existing);
    var now := store.clock(db2.tick);
    ItemAdmittedIff(imp, db.rows, c, now, if existing.NoId? then now else m.createdAt);
    assert Step(imp, store, db, c).0 == Write(store, db2, existing, m).0;
    assert Step(imp, store, db, c).1.Resolved? == Write(store, db2, existing, m).1;
    WriteVerdict(store, db2, existing, m, now);
  }

  lemma WriteVerdict(store: Store, db: Db, existing: Id, m: MediaItem, now: int)
    requires Schematic(store) && now == store.clock(db.tick) && m.id.Uuid?
    requires existing.NoId? ==> !HasId(db.rows, m.id)
    ensures var row := Stored(m.(updatedAt := now, createdAt := if existing.NoId? then now else m.createdAt));
            var (db', ok) := Write(store, db, existing, m);
            (ok <==> Admits(db.rows, row)) && (!ok ==> db'.rows == db.rows)
  {
    if existing.NoId? {
      assert m.(id := m.id, createdAt := now, updatedAt := now) == m.(updatedAt := now, createdAt := now);
    } else {
      assert m.(updatedAt := now) == m.(updatedAt := now, createdAt := m.createdAt);
    }
  }
}
