// What reconciliation keeps of the catalogue, over any sequence of imports.
module CatalogueKeys {
  import opened Base
  import opened Paths
  import opened ImportContext
  import opened Catalogue
  import opened Reconcile

  /** The key a candidate is looked up by. */
  function KeyOf(imp: Importing, c: Candidate): Key {
    if c.kind == Show then ShowKey(imp, c.rootPath) else FileKey(imp, c.primaryPath, c.kind)
  }

  predicate SameIdentity(a: MediaItem, b: MediaItem) {
    a.id == b.id && RowKey(a) == RowKey(b)
  }

  /** Rows keep their place, identifier and key; only the row with this key may change, and at most one row,
      with this key, is added. */
  ghost predicate Touches(rows: seq<MediaItem>, rows': seq<MediaItem>, key: Key) {
    && |rows| <= |rows'| <= |rows| + 1
    && (forall i :: 0 <= i < |rows| ==>
      SameIdentity(rows[i], rows'[i]) && (RowKey(rows[i]) != key ==> rows'[i] == rows[i]))
    && (|rows'| > |rows| ==> RowKey(rows'[|rows|]) == key)
  }

  /** Saving an item under the key that was looked up touches that key only and keeps the catalogue valid. */
  lemma WriteTouches(store: Store, db: Db, key: Key, m: MediaItem)
    requires Valid(db.rows) && ProperKey(key)
    requires forall id, t, u :: RowKey(Stored(m.(id := id, createdAt := t, updatedAt := u))) == key
    requires Lookup(db.rows, key).Uuid? ==> m.id == Lookup(db.rows, key)
    ensures var rows' := Write(store, db, Lookup(db.rows, key), m).0.rows;
            Touches(db.rows, rows', key) && Valid(rows')
  {
    var k := FirstHit(db.rows, key);
    if k >= 0 {
      assert RowKey(db.rows[k]) == key;
      UpdateRowsAt(db.rows, Stored(m.(updatedAt := store.clock(db.tick))), k);
      assert RowKey(Stored(m.(id := m.id, createdAt := m.createdAt, updatedAt := store.clock(db.tick)))) == key;
    } else {
      assert forall i :: 0 <= i < |db.rows| ==> RowKey(db.rows[i]) != key by {
        forall i | 0 <= i < |db.rows|
          ensures RowKey(db.rows[i]) != key
        {
          assert !Hits(db.rows[i], key);
        }
      }
    }
  }

  /** A show candidate with an empty root path is looked up as "" but stored as "/". */
  predicate Rooted(c: Candidate) {
    c.kind == Show ==> c.rootPath.Path?
  }

  lemma StepTouches(imp: Importing, store: Store, db: Db, c: Candidate)
    requires Valid(db.rows) && LookupsOk(store) && imp.libraryId != ""
    requires Reconcilable(c) && Rooted(c)
    ensures var rows' := Step(imp, store, db, c).0.rows;
            Touches(db.rows, rows', KeyOf(imp, c)) && Valid(rows')
  {
    var key := KeyOf(imp, c);
    if c.kind == Show {
      var (db1, existing) := Find(store, db, key);
      WriteTouches(store, db1, key, ShowItem(imp, c, if existing.NoId? then c.id else existing));
    } else if c.primaryPath.Path? {
      if c.kind == Movie {
        var (db1, existing) := Find(store, db, key);
        WriteTouches(store, db1, key, MovieItem(imp, c, if existing.NoId? then c.id else existing));
      } else {
        var (db1, parent) := ResolveShow(imp, store, db, c);
        var (db2, existing) := Find(store, db1, key);
        WriteTouches(store, db2, key, EpisodeItem(imp, c, if existing.NoId? then c.id else existing, parent));
      }
    }
  }

  // ---- Sequences of imports ------------------------------------------------------------------------------

  datatype ImportRun = ImportRun(imp: Importing, store: Store, cands: seq<Candidate>)

  function Runs(db: Db, runs: seq<ImportRun>): Db {
    if runs == [] then db
    else
      var r := runs[|runs|-1];
      RunAll(r.imp, r.store, Runs(db, runs[..|runs|-1]), r.cands).0
  }

  ghost predicate AllRooted(cs: seq<Candidate>) {
    forall i :: 0 <= i < |cs| ==> Rooted(cs[i])
  }

  /** Lookups do not err and every show candidate names its directory; writes are free to fail. */
  ghost predicate SoundRun(r: ImportRun) {
    r.imp.libraryId != "" && LookupsOk(r.store) && AllRooted(r.cands)
  }

  lemma {:induction false} RunKeepsValid(imp: Importing, store: Store, db: Db, cs: seq<Candidate>, total: nat)
    requires Valid(db.rows) && SoundRun(ImportRun(imp, store, cs))
    ensures Valid(Run(imp, store, db, cs, total).0.rows)
  {
    if cs != [] {
      var before := cs[..|cs|-1];
      assert forall i :: 0 <= i < |before| ==> before[i] == cs[i];
      RunKeepsValid(imp, store, db, before, total);
      if Reconcilable(cs[|cs|-1]) {
        StepTouches(imp, store, Run(imp, store, db, before, total).0, cs[|cs|-1]);
      }
    }
  }

  /** At most one movie or episode row per library, file and type, and one show row per library and directory,
      after any sequence of imports of arbitrary candidate lists. */
  lemma {:induction false} KeysStayUnique(db: Db, runs: seq<ImportRun>)
    requires Valid(db.rows) && forall i :: 0 <= i < |runs| ==> SoundRun(runs[i])
    ensures Valid(Runs(db, runs).rows)
  {
    if runs != [] {
      var r := runs[|runs|-1];
      KeysStayUnique(db, runs[..|runs|-1]);
      RunKeepsValid(r.imp, r.store, Runs(db, runs[..|runs|-1]), r.cands, |r.cands|);
    }
  }

  /** As far as the code alone goes, exactly the candidates that name their directory keep keys unique in every
      catalogue: a show candidate without a root path duplicates a show row stored at "/". UNIQUE(file_path) prevents
      that. */
  lemma UniqueExactlyWhenRooted(imp: Importing, c: Candidate)
    requires Reconcilable(c) && imp.libraryId != ""
    ensures (forall store: Store, db: Db :: LookupsOk(store) && Valid(db.rows) ==>
              Valid(Step(imp, store, db, c).0.rows)) <==> Rooted(c)
  {
    if Rooted(c) {
      forall store: Store, db: Db | LookupsOk(store) && Valid(db.rows)
        ensures Valid(Step(imp, store, db, c).0.rows)
      {
        StepTouches(imp, store, db, c);
      }
    } else {
      var store := Store(t => true, (t, rows, m) => true, t => 0);
      var other := Uuid(if c.id.Uuid? then c.id.n + 1 else 0);
      var rows := [Stored(ShowItem(imp, c, other))];
      var db := Db(rows, 0, 1);
      assert Valid(rows);
      var (db1, existing) := Find(store, db, ShowKey(imp, c.rootPath));
      assert !Hits(rows[0], ShowKey(imp, c.rootPath));
      var rows' := Step(imp, store, db, c).0.rows;
      assert |rows'| == 2;
      assert RowKey(rows'[0]) == RowKey(rows'[1]);
      assert LookupsOk(store) && !Valid(rows');
    }
  }

  /** The key of the row a candidate is written as. */
  function StoredKey(imp: Importing, c: Candidate): Key {
    if c.kind == Show then ShowKey(imp, if c.rootPath.NoPath? then Path(true, [], "") else c.rootPath)
        else KeyOf(imp, c)
  }

  ghost predicate HeldByOther(rows: seq<MediaItem>, key: Key, id: Id) {
    exists k :: 0 <= k < |rows| && RowKey(rows[k]) == key && rows[k].id != id
  }

  /** An accepted write makes a key ambiguous exactly when a row other than the one written holds it. */
  lemma WriteBreaksIff(store: Store, db: Db, looked: Key, key: Key, existing: Id, m: MediaItem)
    requires Valid(db.rows) && looked.typ == m.typ && m.id.Uuid?
    requires forall id, t, u :: RowKey(Stored(m.(id := id, createdAt := t, updatedAt := u))) == key
    requires existing == NoId || (existing == Lookup(db.rows, looked) && m.id == existing)
    ensures var (db', ok) := Write(store, db, existing, m);
            !KeysUnique(db'.rows) <==> ok && HeldByOther(db.rows, key, m.id)
  {
    var (db', ok) := Write(store, db, existing, m);
    var now := store.clock(db.tick);
    var w := if existing.NoId? then |db.rows| else FirstHit(db.rows, looked);
    if existing.Uuid? {
      UpdateRowsAt(db.rows, Stored(m.(updatedAt := now)), w);
      assert RowKey(Stored(m.(id := m.id, createdAt := m.createdAt, updatedAt := now))) == key;
    } else {
      assert RowKey(Stored(m.(id := m.id, createdAt := now, updatedAt := now))) == key;
    }
    if ok {
      assert RowKey(db'.rows[w]) == key && db'.rows[w].id == m.id;
      assert forall i :: 0 <= i < |db.rows| && i != w ==> db'.rows[i] == db.rows[i] && db.rows[i].id != m.id;
      if HeldByOther(db.rows, key, m.id) {
        var k :| 0 <= k < |db.rows| && RowKey(db.rows[k]) == key && db.rows[k].id != m.id;
        assert RowKey(db'.rows[k]) == RowKey(db'.rows[w]);
      }
    }
  }

  /** When the lookup of c's key takes place: an episode looks its show up first. The write follows. */
  function KeyTick(db: Db, c: Candidate): nat {
    if c.kind == Episode && c.showId.Uuid? && c.seasonNumber.Some? then db.tick + 1 else db.tick
  }

  /** What the lookup of c's key returns. */
  function Found(imp: Importing, store: Store, db: Db, c: Candidate): Id {
    if store.lookupOk(KeyTick(db, c)) then Lookup(db.rows, KeyOf(imp, c)) else NoId
  }

  /** The identifier c is written under: that of the row found, or its own. */
  function Target(imp: Importing, store: Store, db: Db, c: Candidate): Id {
    if Found(imp, store, db, c).NoId? then c.id else Found(imp, store, db, c)
  }

  /** The item c is written as, under this identifier. */
  function Draft(imp: Importing, store: Store, db: Db, c: Candidate, id: Id): MediaItem {
    if c.kind == Show then ShowItem(imp, c, id)
    else if c.kind == Movie then MovieItem(imp, c, id)
    else EpisodeItem(imp, c, id, ResolveShow(imp, store, db, c).1)
  }

  /** The row that is offered to the store for insertion under c's own identifier. */
  function NewRow(imp: Importing, store: Store, db: Db, c: Candidate): MediaItem {
    var now := store.clock(KeyTick(db, c) + 1);
    Stored(Draft(imp, store, db, c, c.id).(createdAt := now, updatedAt := now))
  }

  /** The row that is offered to the store for updating the row found. */
  function NewContents(imp: Importing, store: Store, db: Db, c: Candidate): MediaItem {
    Stored(Draft(imp, store, db, c, Found(imp, store, db, c)).(updatedAt := store.clock(KeyTick(db, c) + 1)))
  }

  /** Whether c will be accepted, as a caller can tell from the catalogue and the store before the call. */
  predicate GoesThrough(imp: Importing, store: Store, db: Db, c: Candidate) {
    var t := KeyTick(db, c) + 1;
    && (c.kind != Show ==> c.primaryPath.Path?)
    && if Found(imp, store, db, c).NoId? then
        !HasId(db.rows, c.id) && store.accepts(t, db.rows, NewRow(imp, store, db, c))
       else store.accepts(t, db.rows, NewContents(imp, store, db, c))
  }

  predicate VerdictIs(imp: Importing, store: Store, db: Db, c: Candidate, r: Resolution) {
    && (r.Resolved? <==> GoesThrough(imp, store, db, c))
    && (r.Resolved? ==> r.item.mediaId == Target(imp, store, db, c))
  }

  lemma ShowVerdict(imp: Importing, store: Store, db: Db, c: Candidate)
    requires c.kind == Show && c.id.Uuid?
    ensures VerdictIs(imp, store, db, c, Step(imp, store, db, c).1)
  {
    var (db1, found) := Find(store, db, KeyOf(imp, c));
    WriteGoesThrough(store, db1, found, Draft(imp, store, db, c, Target(imp, store, db, c)));
  }

  lemma MovieVerdict(imp: Importing, store: Store, db: Db, c: Candidate)
    requires c.kind == Movie && c.id.Uuid?
    ensures VerdictIs(imp, store, db, c, Step(imp, store, db, c).1)
  {
    if c.primaryPath.Path? {
      var (db1, found) := Find(store, db, KeyOf(imp, c));
      WriteGoesThrough(store, db1, found, Draft(imp, store, db, c, Target(imp, store, db, c)));
    }
  }

  /** The statements of an episode's step: the lookups leave the rows alone. */
  lemma EpisodeStatements(imp: Importing, store: Store, db: Db, c: Candidate)
    requires c.kind == Episode && c.primaryPath.Path?
    ensures var found := Found(imp, store, db, c);
            var m := Draft(imp, store, db, c, Target(imp, store, db, c));
            var db2 := Db(db.rows, KeyTick(db, c) + 1, db.next);
            Step(imp, store, db, c) == Concluded(c, found, NoPath, c.primaryPath, Write(store, db2, found, m))
  {
    var (db1, parent) := ResolveShow(imp, store, db, c);
    assert db1 == Db(db.rows, KeyTick(db, c), db.next);
  }

  lemma EpisodeVerdict(imp: Importing, store: Store, db: Db, c: Candidate)
    requires c.kind == Episode && c.id.Uuid?
    ensures VerdictIs(imp, store, db, c, Step(imp, store, db, c).1)
  {
    if c.primaryPath.Path? {
      EpisodeStatements(imp, store, db, c);
      var db2 := Db(db.rows, KeyTick(db, c) + 1, db.next);
      WriteGoesThrough(store, db2, Found(imp, store, db, c), Draft(imp, store, db, c, Target(imp, store, db, c)));
    }
  }

  lemma StepVerdict(imp: Importing, store: Store, db: Db, c: Candidate)
    requires Reconcilable(c) && c.id.Uuid?
    ensures VerdictIs(imp, store, db, c, Step(imp, store, db, c).1)
  {
    if c.kind == Show {
      ShowVerdict(imp, store, db, c);
    } else if c.kind == Movie {
      MovieVerdict(imp, store, db, c);
    } else {
      EpisodeVerdict(imp, store, db, c);
    }
  }

  lemma WriteGoesThrough(store: Store, db: Db, existing: Id, m: MediaItem)
    requires m.id.Uuid?
    ensures var now := store.clock(db.tick);
            Write(store, db, existing, m).1 <==>
            if existing.NoId? then
              !HasId(db.rows, m.id) && store.accepts(db.tick, db.rows, Stored(m.(createdAt := now, updatedAt := now)))
            else store.accepts(db.tick, db.rows, Stored(m.(updatedAt := now)))
  {
    var now := store.clock(db.tick);
    assert m.(id := m.id, createdAt := now, updatedAt := now) == m.(createdAt := now, updatedAt := now);
  }

  /** On any store, whatever lookups do, a step makes a key ambiguous exactly when its write goes through and a row
      other than the one it writes holds the key. */
  lemma KeysBreakIff(imp: Importing, store: Store, db: Db, c: Candidate)
    requires Valid(db.rows) && imp.libraryId != "" && Reconcilable(c) && c.id.Uuid?
    ensures !KeysUnique(Step(imp, store, db, c).0.rows) <==>
            GoesThrough(imp, store, db, c) && HeldByOther(db.rows, StoredKey(imp, c), Target(imp, store, db, c))
  {
    var looked, key := KeyOf(imp, c), StoredKey(imp, c);
    StepVerdict(imp, store, db, c);
    if c.kind == Show {
      var (db1, existing) := Find(store, db, looked);
      WriteBreaksIff(store, db1, looked, key, existing, ShowItem(imp, c, if existing.NoId? then c.id else existing));
    } else if c.primaryPath.Path? {
      if c.kind == Movie {
        var (db1, existing) := Find(store, db, looked);
        WriteBreaksIff(store, db1, looked, key, existing, MovieItem(imp, c, if existing.NoId? then c.id else existing));
      } else {
        var (db1, parent) := ResolveShow(imp, store, db, c);
        var (db2, existing) := Find(store, db1, looked);
        var m := EpisodeItem(imp, c, if existing.NoId? then c.id else existing, parent);
        WriteBreaksIff(store, db2, looked, key, existing, m);
      }
    }
  }

  /** The reconciler drops lookup errors. For shows, movies and episodes alike, as far as the code alone goes, a step
      makes a key ambiguous exactly when the key is stored, its lookup errs, the candidate's identifier is new, and the
      store accepts its row. */
  lemma LookupErrorDuplicates(imp: Importing, store: Store, db: Db, c: Candidate)
    requires Valid(db.rows) && imp.libraryId != "" && Reconcilable(c) && Rooted(c) && c.id.Uuid?
    ensures !KeysUnique(Step(imp, store, db, c).0.rows) <==>
            && Lookup(db.rows, KeyOf(imp, c)).Uuid? && !store.lookupOk(KeyTick(db, c))
            && (c.kind != Show ==> c.primaryPath.Path?)
            && !HasId(db.rows, c.id) && store.accepts(KeyTick(db, c) + 1, db.rows, NewRow(imp, store, db, c))
  {
    KeysBreakIff(imp, store, db, c);
    var key := KeyOf(imp, c);
    var f := FirstHit(db.rows, key);
    assert f >= 0 ==> RowKey(db.rows[f]) == key;
    forall k | 0 <= k < |db.rows| && RowKey(db.rows[k]) == key
      ensures k == f
    {
      FirstHitIs(db.rows, key, k);
    }
    if f >= 0 && !HasId(db.rows, c.id) {
      assert db.rows[f].id != c.id;
    }
  }

  /** Such a step: a show is stored, its lookup errs, and a store without UNIQUE(file_path) takes a second row. */
  lemma LookupErrorExample(imp: Importing, root: Path, clock: nat -> int)
    requires imp.libraryId != "" && root.Path?
    ensures var store := Store(t => t > 0, (t, rows, m) => true, clock);
            var c := Candidate(Uuid(1), imp.libraryId, Show, root, NoPath, Join(root, "tvshow.nfo"), NoId, None, None);
            var db := Db([Stored(ShowItem(imp, c, Uuid(0)))], 0, 2);
            Valid(db.rows) && !KeysUnique(Step(imp, store, db, c).0.rows)
  {
    var store := Store(t => t > 0, (t, rows, m) => true, clock);
    var c := Candidate(Uuid(1), imp.libraryId, Show, root, NoPath, Join(root, "tvshow.nfo"), NoId, None, None);
    var db := Db([Stored(ShowItem(imp, c, Uuid(0)))], 0, 2);
    LookupErrorDuplicates(imp, store, db, c);
    FirstHitIs(db.rows, KeyOf(imp, c), 0);
  }

  // ---- Whatever fails ------------------------------------------------------------------------------------

  /** What no import changes of a row: its identifier, library, type, availability status and creation time. */
  predicate KeepsPlace(a: MediaItem, b: MediaItem) {
    b.id == a.id && b.libraryId == a.libraryId && b.typ == a.typ && b.status == a.status && b.createdAt == a.createdAt
  }

  /** No row is lost or moved, rows of other libraries are untouched, new rows are in this library. */
  ghost predicate Preserves(rows: seq<MediaItem>, rows': seq<MediaItem>, libraryId: string) {
    && |rows| <= |rows'|
    && (forall i :: 0 <= i < |rows| ==> KeepsPlace(rows[i], rows'[i]))
    && (forall i :: 0 <= i < |rows| && rows[i].libraryId != libraryId ==> rows'[i] == rows[i])
    && (forall i :: |rows| <= i < |rows'| ==> rows'[i].libraryId == libraryId)
  }

  lemma WritePreserves(store: Store, db: Db, key: Key, existing: Id, m: MediaItem)
    requires IdsUnique(db.rows) && key.libraryId == m.libraryId != ""
    requires existing == NoId || existing == Lookup(db.rows, key)
    requires existing.Uuid? ==> m.id == existing
    ensures var rows' := Write(store, db, existing, m).0.rows;
            Preserves(db.rows, rows', m.libraryId) && IdsUnique(rows')
  {
    if existing.Uuid? {
      UpdateRowsAt(db.rows, Stored(m.(updatedAt := store.clock(db.tick))), FirstHit(db.rows, key));
    }
  }

  lemma StepPreserves(imp: Importing, store: Store, db: Db, c: Candidate)
    requires IdsUnique(db.rows) && imp.libraryId != "" && Reconcilable(c)
    ensures var rows' := Step(imp, store, db, c).0.rows; Preserves(db.rows, rows', imp.libraryId) && IdsUnique(rows')
  {
    var key := KeyOf(imp, c);
    if c.kind == Show {
      var (db1, existing) := Find(store, db, key);
      WritePreserves(store, db1, key, existing, ShowItem(imp, c, if existing.NoId? then c.id else existing));
    } else if c.primaryPath.Path? {
      if c.kind == Movie {
        var (db1, existing) := Find(store, db, key);
        WritePreserves(store, db1, key, existing, MovieItem(imp, c, if existing.NoId? then c.id else existing));
      } else {
        var (db1, parent) := ResolveShow(imp, store, db, c);
        var (db2, existing) := Find(store, db1, key);
        WritePreserves(store, db2, key, existing,
            EpisodeItem(imp, c, if existing.NoId? then c.id else existing, parent));
      }
    }
  }

  /** Whatever fails during an import of arbitrary candidates, lookups included. */
  lemma {:induction false} RunPreserves(imp: Importing, store: Store, db: Db, cs: seq<Candidate>, total: nat)
    requires IdsUnique(db.rows) && imp.libraryId != ""
    ensures var rows' := Run(imp, store, db, cs, total).0.rows;
            Preserves(db.rows, rows', imp.libraryId) && IdsUnique(rows')
  {
    if cs != [] {
      RunPreserves(imp, store, db, cs[..|cs|-1], total);
      if Reconcilable(cs[|cs|-1]) {
        StepPreserves(imp, store, Run(imp, store, db, cs[..|cs|-1], total).0, cs[|cs|-1]);
      }
    }
  }

  /** No import is into this library. */
  ghost predicate Unnamed(runs: seq<ImportRun>, libraryId: string) {
    forall i :: 0 <= i < |runs| ==> runs[i].imp.libraryId != libraryId
  }

  /** Over any sequence of imports no row is deleted or changes its identifier, and the rows of a library that no
      import names are exactly as they were. */
  lemma {:induction false} NothingLost(db: Db, runs: seq<ImportRun>)
    requires IdsUnique(db.rows) && forall i :: 0 <= i < |runs| ==> runs[i].imp.libraryId != ""
    ensures var rows' := Runs(db, runs).rows;
            && IdsUnique(rows') && |db.rows| <= |rows'|
            && (forall k :: 0 <= k < |db.rows| ==> KeepsPlace(db.rows[k], rows'[k]))
            && (forall k :: 0 <= k < |db.rows| && Unnamed(runs, db.rows[k].libraryId) ==> rows'[k] == db.rows[k])
  {
    if runs != [] {
      var r := runs[|runs|-1];
      var before := runs[..|runs|-1];
      assert forall i :: 0 <= i < |before| ==> before[i] == runs[i];
      NothingLost(db, before);
      RunPreserves(r.imp, r.store, Runs(db, before), r.cands, |r.cands|);
      forall k | 0 <= k < |db.rows| && Unnamed(runs, db.rows[k].libraryId)
        ensures Runs(db, runs).rows[k] == db.rows[k]
      {
        assert Unnamed(before, db.rows[k].libraryId) && runs[|runs|-1].imp.libraryId != db.rows[k].libraryId;
        assert Runs(db, before).rows[k] == db.rows[k];
      }
    }
  }

  // ---- The schema's UNIQUE(file_path) ------------------------------------------------------------------------

  /** migrations/0001_init.up.sql declares file_path UNIQUE: a row whose file path another row holds is refused. */
  ghost predicate UniqueFilePath(store: Store) {
    forall t, rows: seq<MediaItem>, m, i :: 0 <= i < |rows| && store.accepts(t, rows, m) ==>
      rows[i].filePath == m.filePath ==> rows[i].id == m.id
  }

  ghost predicate AtMostOneShow(rows: seq<MediaItem>) {
    && (forall i, j :: 0 <= i < j < |rows| ==> !(rows[i].typ == Show && rows[j].typ == Show))
    && (forall i :: 0 <= i < |rows| && rows[i].typ == Show ==> rows[i].filePath == NoPath)
  }

  lemma WriteOneShow(store: Store, db: Db, key: Key, existing: Id, m: MediaItem)
    requires IdsUnique(db.rows) && AtMostOneShow(db.rows) && UniqueFilePath(store)
    requires key.typ == m.typ && (m.typ == Show ==> m.filePath == NoPath)
    requires existing == NoId || existing == Lookup(db.rows, key)
    requires existing.Uuid? ==> m.id == existing
    ensures AtMostOneShow(Write(store, db, existing, m).0.rows)
  {
    if existing.Uuid? {
      UpdateRowsAt(db.rows, Stored(m.(updatedAt := store.clock(db.tick))), FirstHit(db.rows, key));
    }
  }

  lemma StepOneShow(imp: Importing, store: Store, db: Db, c: Candidate)
    requires IdsUnique(db.rows) && AtMostOneShow(db.rows) && UniqueFilePath(store) && Reconcilable(c)
    ensures AtMostOneShow(Step(imp, store, db, c).0.rows)
  {
    var key := KeyOf(imp, c);
    if c.kind == Show {
      var (db1, existing) := Find(store, db, key);
      WriteOneShow(store, db1, key, existing, ShowItem(imp, c, if existing.NoId? then c.id else existing));
    } else if c.primaryPath.Path? {
      if c.kind == Movie {
        var (db1, existing) := Find(store, db, key);
        WriteOneShow(store, db1, key, existing, MovieItem(imp, c, if existing.NoId? then c.id else existing));
      } else {
        var (db1, parent) := ResolveShow(imp, store, db, c);
        var (db2, existing) := Find(store, db1, key);
        WriteOneShow(store, db2, key, existing, EpisodeItem(imp, c, if existing.NoId? then c.id else existing, parent));
      }
    }
  }

  /** Show rows all carry the empty file path, so under that constraint a database never holds two shows:
      every further show candidate is rejected. */
  lemma {:induction false} OneShowPerDatabase(db: Db, runs: seq<ImportRun>)
    requires IdsUnique(db.rows) && AtMostOneShow(db.rows)
    requires forall i :: 0 <= i < |runs| ==> runs[i].imp.libraryId != "" && UniqueFilePath(runs[i].store)
    ensures AtMostOneShow(Runs(db, runs).rows)
  {
    if runs != [] {
      var r := runs[|runs|-1];
      var before := runs[..|runs|-1];
      assert forall i :: 0 <= i < |before| ==> before[i] == runs[i];
      OneShowPerDatabase(db, before);
      NothingLost(db, before);
      RunOneShow(r.imp, r.store, Runs(db, before), r.cands, |r.cands|);
    }
  }

  /** In particular: once any show is stored, a show found under no key yet is rejected. */
  lemma SecondShowRejected(imp: Importing, store: Store, db: Db, c: Candidate, k: nat)
    requires UniqueFilePath(store) && c.kind == Show && store.lookupOk(db.tick)
    requires k < |db.rows| && db.rows[k].typ == Show && db.rows[k].filePath == NoPath
    requires Lookup(db.rows, ShowKey(imp, c.rootPath)).NoId?
    ensures Step(imp, store, db, c).1 == Failed(WriteFailed) && Step(imp, store, db, c).0.rows == db.rows
  {
    var (db1, existing) := Find(store, db, ShowKey(imp, c.rootPath));
    var m := ShowItem(imp, c, c.id);
    var id := if m.id.NoId? then Uuid(db1.next) else m.id;
    var now := store.clock(db1.tick);
    var row := Stored(m.(id := id, createdAt := now, updatedAt := now));
    assert db.rows[k].filePath == row.filePath;
    assert store.accepts(db1.tick, db1.rows, row) ==> db.rows[k].id == id;
  }

  lemma {:induction false} RunOneShow(imp: Importing, store: Store, db: Db, cs: seq<Candidate>, total: nat)
    requires IdsUnique(db.rows) && AtMostOneShow(db.rows) && UniqueFilePath(store) && imp.libraryId != ""
    ensures AtMostOneShow(Run(imp, store, db, cs, total).0.rows)
  {
    if cs != [] {
      RunOneShow(imp, store, db, cs[..|cs|-1], total);
      RunPreserves(imp, store, db, cs[..|cs|-1], total);
      if Reconcilable(cs[|cs|-1]) {
        StepOneShow(imp, store, Run(imp, store, db, cs[..|cs|-1], total).0, cs[|cs|-1]);
      }
    }
  }
}
