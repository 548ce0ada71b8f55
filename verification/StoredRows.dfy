// What the row of an accepted candidate says, column by column.
module StoredRows {
  import opened Base
  import opened Paths
  import opened Names
  import opened FileSystem
  import opened ImportContext
  import opened ShowLinks
  import opened Catalogue
  import opened Reconcile
  import opened CatalogueKeys
  import opened Reimport

  /** db' is db with row added, or with a row of its identifier replaced by it; the write was the last statement. */
  ghost predicate SavedAs(store: Store, db: Db, db': Db, item: ResolvedItem, row: MediaItem) {
    && row.id == item.mediaId && db'.tick > db.tick && row.updatedAt == store.clock(db'.tick - 1)
    && if item.action == CreateAction then
      db'.rows == db.rows + [row] && row.createdAt == row.updatedAt && row.status == "available"
    else
      exists k :: Replaces(db.rows, db'.rows, row, k)
  }

  ghost predicate Replaces(rows: seq<MediaItem>, rows': seq<MediaItem>, row: MediaItem, k: int) {
    && 0 <= k < |rows| && rows[k].id == row.id && rows' == rows[k := row]
    && row.createdAt == rows[k].createdAt && row.status == rows[k].status
  }

  /** The columns every kind shares. */
  predicate CommonColumns(imp: Importing, row: MediaItem, c: Candidate) {
    && row.typ == c.kind && row.libraryId == imp.libraryId
    && row.providerId == (if imp.providerId == "" then "local" else imp.providerId)
  }

  /** The stored row of a show: no file, its own directory, the NFO that made it one. */
  predicate ShowRow(imp: Importing, row: MediaItem, c: Candidate) {
    && row.info == imp.fs.showInfo(c.rootPath)
    && row.filePath == NoPath && row.primaryPath == NoPath && row.rootPath == c.rootPath && row.nfoPath == c.nfoPath
    && row.parentId == NoId && row.season == row.episode == Some(0) && row.metadataSource == "nfo"
  }

  /** The stored row of a movie; a root path left out is stored as "/". */
  predicate MovieRow(imp: Importing, row: MediaItem, c: Candidate) {
    && row.info == imp.fs.movieInfo(c.rootPath, c.primaryPath, c.nfoPath)
    && row.filePath == row.primaryPath == c.primaryPath && row.nfoPath == c.nfoPath
    && row.rootPath == (if c.rootPath.NoPath? then Path(true, [], "") else c.rootPath)
    && row.parentId == NoId && row.season == row.episode == Some(0)
    && row.metadataSource == (if c.nfoPath == NoPath then "filename" else "nfo")
  }

  /** The stored row of an episode, its numbers aside: its root path is "/". */
  predicate EpisodeRow(imp: Importing, row: MediaItem, c: Candidate) {
    && row.info == imp.fs.episodeInfo(c.primaryPath)
    && row.filePath == row.primaryPath == c.primaryPath && row.rootPath == Path(true, [], "") && row.nfoPath == NoPath
    && row.metadataSource == "nfo"
  }

  predicate ShowRowAt(imp: Importing, row: MediaItem, dir: Path) {
    row.typ == Show && row.libraryId == imp.libraryId && row.rootPath == dir
  }

  /** The parent is the stored show that the upward walk leads to, or else the show the candidate names. */
  predicate ParentColumn(imp: Importing, rows: seq<MediaItem>, row: MediaItem, c: Candidate) {
    var dir := ShowRootOf(imp.fs, c.primaryPath);
    if c.showId == NoId || c.seasonNumber == None || forall k :: 0 <= k < |rows| ==> !ShowRowAt(imp, rows[k], dir)
    then row.parentId == c.showId
    else exists k :: 0 <= k < |rows| && ShowRowAt(imp, rows[k], dir) && row.parentId == rows[k].id
  }

  predicate ColumnsOf(imp: Importing, row: MediaItem, c: Candidate) {
    && CommonColumns(imp, row, c)
    && match c.kind
       case Show => ShowRow(imp, row, c)
       case Movie => MovieRow(imp, row, c)
       case _ => EpisodeRow(imp, row, c)
  }

  ghost predicate RowOf(imp: Importing, rows: seq<MediaItem>, row: MediaItem, c: Candidate) {
    ColumnsOf(imp, row, c) && (c.kind == Episode ==> ParentColumn(imp, rows, row, c))
  }

  /** A settled candidate's row has them. */
  lemma SettledColumns(imp: Importing, rows: seq<MediaItem>, c: Candidate, id: Id) returns (k: nat)
    requires Settled(imp, rows, c, id) && ProperCandidate(c) && imp.libraryId != ""
    ensures k < |rows| && rows[k].id == id && ColumnsOf(imp, rows[k], c)
  {
    k :| 0 <= k < |rows| && SettledAt(imp, rows, c, k) && rows[k].id == id;
  }

  lemma WriteSays(store: Store, db: Db, key: Key, m: MediaItem) returns (row: MediaItem)
    requires IdsUnique(db.rows) && Write(store, db, Lookup(db.rows, key), m).1 && m.id.Uuid?
    requires Lookup(db.rows, key).Uuid? ==> m.id == Lookup(db.rows, key)
    requires m.typ == key.typ && m.status == ""
    ensures var existing := Lookup(db.rows, key);
            var (db', ok) := Write(store, db, existing, m);
            && Carries(row, m) && row.typ == m.typ && db'.tick == db.tick + 1 && row.updatedAt == store.clock(db.tick)
            && if existing == NoId then
                 db'.rows == db.rows + [row] && row.createdAt == row.updatedAt && row.status == "available"
               else exists k :: Replaces(db.rows, db'.rows, row, k)
  {
    var now := store.clock(db.tick);
    var k := FirstHit(db.rows, key);
    if k >= 0 {
      row := Overwrite(db.rows[k], Stored(m.(updatedAt := now)));
      UpdateRowsAt(db.rows, Stored(m.(updatedAt := now)), k);
      assert Replaces(db.rows, Write(store, db, Lookup(db.rows, key), m).0.rows, row, k);
    } else {
      row := Stored(m.(createdAt := now, updatedAt := now));
    }
  }

  ghost predicate SavedRow(imp: Importing, store: Store, db: Db, db': Db, item: ResolvedItem, c: Candidate,
                           row: MediaItem)
  {
    SavedAs(store, db, db', item, row) && RowOf(imp, db.rows, row, c) && Reports(item, c)
  }

  /** What the report says of an accepted candidate; a new row has the candidate's identifier. */
  predicate Reports(item: ResolvedItem, c: Candidate) {
    && item.candidateId == c.id && item.kind == c.kind && (item.action == CreateAction ==> item.mediaId == c.id)
    && item.rootPath == (if c.kind == Episode then NoPath else c.rootPath)
    && item.primaryPath == (if c.kind == Show then NoPath else c.primaryPath)
  }

  /** An accepted candidate's row, under the identifier reported, says what the candidate and its files say; it is the
      only row written, at the time of the write, and an update keeps its status and time of creation. */
  lemma AcceptedRow(imp: Importing, store: Store, db: Db, c: Candidate)
    requires Valid(db.rows) && LookupsOk(store) && imp.libraryId != ""
    requires Reconcilable(c) && Rooted(c) && c.id.Uuid? && Step(imp, store, db, c).1.Resolved?
    ensures var (db', r) := Step(imp, store, db, c);
            exists row :: SavedRow(imp, store, db, db', r.item, c, row)
  {
    var row := SavedBy(imp, store, db, c);
  }

  lemma SavedBy(imp: Importing, store: Store, db: Db, c: Candidate) returns (row: MediaItem)
    requires Valid(db.rows) && LookupsOk(store) && imp.libraryId != ""
    requires Reconcilable(c) && Rooted(c) && c.id.Uuid? && Step(imp, store, db, c).1.Resolved?
    ensures var (db', r) := Step(imp, store, db, c); SavedRow(imp, store, db, db', r.item, c, row)
  {
    var key := KeyOf(imp, c);
    var existing := Lookup(db.rows, key);
    var id := if existing.NoId? then c.id else existing;
    if c.kind == Show {
      row := WriteSays(store, Find(store, db, key).0, key, ShowItem(imp, c, id));
    } else if c.kind == Movie {
      row := WriteSays(store, Find(store, db, key).0, key, MovieItem(imp, c, id));
    } else {
      row := EpisodeSaved(imp, store, db, c);
    }
  }

  lemma EpisodeSaved(imp: Importing, store: Store, db: Db, c: Candidate) returns (row: MediaItem)
    requires Valid(db.rows) && LookupsOk(store) && imp.libraryId != ""
    requires c.kind == Episode && c.id.Uuid? && Step(imp, store, db, c).1.Resolved?
    ensures var (db', r) := Step(imp, store, db, c); SavedRow(imp, store, db, db', r.item, c, row)
    ensures (row.season, row.episode) ==
            (Some(EpisodeNumbers(imp.fs, c.primaryPath).0), Some(EpisodeNumbers(imp.fs, c.primaryPath).1))
  {
    var key := KeyOf(imp, c);
    var existing := Lookup(db.rows, key);
    var (db1, parent) := ResolveShow(imp, store, db, c);
    var id := if existing.NoId? then c.id else existing;
    row := WriteSays(store, Find(store, db1, key).0, key, EpisodeItem(imp, c, id, parent));
    EpisodeColumns(imp, row, c, id, parent);
    ParentResolved(imp, store, db, c, row);
  }

  lemma EpisodeColumns(imp: Importing, row: MediaItem, c: Candidate, id: Id, parent: Id)
    requires Carries(row, EpisodeItem(imp, c, id, parent)) && row.typ == Episode
    requires c.kind == Episode && c.primaryPath.Path? && imp.libraryId != ""
    ensures CommonColumns(imp, row, c) && EpisodeRow(imp, row, c) && row.parentId == parent
    ensures (row.season, row.episode) ==
            (Some(EpisodeNumbers(imp.fs, c.primaryPath).0), Some(EpisodeNumbers(imp.fs, c.primaryPath).1))
  {
  }

  lemma ParentResolved(imp: Importing, store: Store, db: Db, c: Candidate, row: MediaItem)
    requires Valid(db.rows) && LookupsOk(store) && row.parentId == ResolveShow(imp, store, db, c).1
    ensures ParentColumn(imp, db.rows, row, c)
  {
    var dir := ShowRootOf(imp.fs, c.primaryPath);
    var key := ShowKey(imp, dir);
    var k := FirstHit(db.rows, key);
    if k >= 0 {
      assert Hits(db.rows[k], key) && ShowRowAt(imp, db.rows[k], dir);
    } else {
      forall i | 0 <= i < |db.rows|
        ensures !ShowRowAt(imp, db.rows[i], dir)
      {
        assert !Hits(db.rows[i], key);
      }
    }
  }

  // ---- The numbers of an episode -----------------------------------------------------------------------------------

  /** stem is name without its last dot and what follows it. */
  predicate IsStem(name: string, stem: string) {
    && stem <= name
    && (forall i :: |stem| < i < |name| ==> name[i] != '.')
    && if |stem| < |name| then name[|stem|] == '.' else forall i :: 0 <= i < |name| ==> name[i] != '.'
  }

  /** An accepted episode's numbers: for a video dir/stem.ext those of dir/stem.nfo where that exists, parses and has
      positive ones, otherwise those of the file name, whatever other files there are. */
  lemma EpisodeRowNumbers(imp: Importing, store: Store, db: Db, c: Candidate, dir: Path, name: string, stem: string)
    requires Valid(db.rows) && LookupsOk(store) && imp.libraryId != ""
    requires c.kind == Episode && c.id.Uuid? && Step(imp, store, db, c).1.Resolved?
    requires dir.Path? && c.primaryPath == Join(dir, name) && IsStem(name, stem)
    ensures var (db', r) := Step(imp, store, db, c);
            var nfo := Join(dir, stem + ".nfo");
            var parsed := if imp.fs.exists_(nfo) then imp.fs.episodeNFO(nfo) else None;
            var (season, episode) := ExtractEpisodeInfo(name);
            exists row :: SavedAs(store, db, db', r.item, row) &&
              row.season == Some(if parsed.Some? && parsed.value.season > 0 then parsed.value.season else season) &&
              row.episode == Some(if parsed.Some? && parsed.value.episode > 0 then parsed.value.episode else episode)
  {
    var row := EpisodeSaved(imp, store, db, c);
    StemIsTrimmed(name, stem);
    assert (dir.segs + [name])[..|dir.segs|] == dir.segs;
    assert Join(Dir(c.primaryPath), stem + ".nfo") == Join(dir, stem + ".nfo");
  }

  lemma StemIsTrimmed(name: string, stem: string)
    requires IsStem(name, stem)
    ensures TrimExt(name) == stem
  {
    var d := LastDot(name);
    if |stem| < |name| {
      assert d == |stem|;
    } else {
      assert stem == name;
    }
  }
}
