// Importing twice: when a second import of the same candidates changes nothing.
module Reimport {
  import opened Base
  import opened Paths
  import opened Names
  import opened ImportContext
  import opened ShowLinks
  import opened Catalogue
  import opened Reconcile
  import opened CatalogueKeys

  /** The show row an episode's upward walk leads to. */
  function WalkKey(imp: Importing, c: Candidate): Key {
    ShowKey(imp, ShowRootOf(imp.fs, c.primaryPath))
  }

  function ParentIn(imp: Importing, rows: seq<MediaItem>, c: Candidate): Id {
    if c.showId.NoId? || c.seasonNumber.None? || Lookup(rows, WalkKey(imp, c)).NoId? then c.showId
    else Lookup(rows, WalkKey(imp, c))
  }

  /** What reconciliation writes for c into a catalogue with these rows. */
  function ItemIn(imp: Importing, rows: seq<MediaItem>, c: Candidate, id: Id): MediaItem {
    if c.kind == Show then ShowItem(imp, c, id)
    else if c.kind == Movie then MovieItem(imp, c, id)
    else EpisodeItem(imp, c, id, ParentIn(imp, rows, c))
  }

  /** Updating the row with m would leave it as it is, the time of update aside. */
  predicate Absorbs(row: MediaItem, m: MediaItem) {
    Overwrite(row, Stored(m)).(updatedAt := row.updatedAt) == row
  }

  /** Row k is the row of candidate c, and already says what c says. */
  ghost predicate SettledAt(imp: Importing, rows: seq<MediaItem>, c: Candidate, k: int) {
    && 0 <= k < |rows| && RowKey(rows[k]) == KeyOf(imp, c)
    && Absorbs(rows[k], ItemIn(imp, rows, c, rows[k].id))
  }

  // ---- One step ---------------------------------------------------------------------------------------------

  lemma LookupIs(rows: seq<MediaItem>, key: Key, k: nat)
    requires Valid(rows) && ProperKey(key) && k < |rows| && RowKey(rows[k]) == key
    ensures Lookup(rows, key) == rows[k].id && rows[k].id.Uuid?
  {
    FirstHitIs(rows, key, k);
  }

  /** A lookup that found its row keeps finding it; one that found none keeps finding none unless its key is touched. */
  lemma LookupStable(rows: seq<MediaItem>, rows': seq<MediaItem>, touched: Key, key: Key)
    requires Valid(rows) && Valid(rows') && Touches(rows, rows', touched) && ProperKey(key)
    requires Lookup(rows, key).Uuid? || key != touched
    ensures Lookup(rows', key) == Lookup(rows, key)
  {
    var f := FirstHit(rows, key);
    if f >= 0 {
      assert RowKey(rows[f]) == key && SameIdentity(rows[f], rows'[f]);
      LookupIs(rows', key, f);
    } else {
      forall i | 0 <= i < |rows'|
        ensures !Hits(rows'[i], key)
      {
        if i < |rows| {
          assert SameIdentity(rows[i], rows'[i]) && !Hits(rows[i], key);
        }
      }
    }
  }

  /** A successful write leaves the item's row behind, under the identifier it was given. */
  lemma WriteSettles(store: Store, db: Db, key: Key, m: MediaItem) returns (k: nat)
    requires Valid(db.rows) && ProperKey(key) && m.id.Uuid?
    requires forall id, t, u :: RowKey(Stored(m.(id := id, createdAt := t, updatedAt := u))) == key
    requires Lookup(db.rows, key).Uuid? ==> m.id == Lookup(db.rows, key)
    requires Write(store, db, Lookup(db.rows, key), m).1
    ensures var rows' := Write(store, db, Lookup(db.rows, key), m).0.rows;
            k < |rows'| && RowKey(rows'[k]) == key && rows'[k].id == m.id && Absorbs(rows'[k], m)
  {
    WriteTouches(store, db, key, m);
    var f := FirstHit(db.rows, key);
    if f >= 0 {
      k := f;
      UpdateRowsAt(db.rows, Stored(m.(updatedAt := store.clock(db.tick))), k);
      assert RowKey(db.rows[k]) == key;
    } else {
      k := |db.rows|;
      assert RowKey(Stored(m.(id := m.id, createdAt := store.clock(db.tick), updatedAt := store.clock(db.tick)))) ==
                 key;
    }
  }

  lemma EpisodeSettles(imp: Importing, store: Store, db: Db, c: Candidate) returns (k: nat)
    requires Valid(db.rows) && LookupsOk(store) && imp.libraryId != ""
    requires c.kind == Episode && c.id.Uuid? && Step(imp, store, db, c).1.Resolved?
    ensures var (db', r) := Step(imp, store, db, c); SettledAt(imp, db'.rows, c, k) && db'.rows[k].id == r.item.mediaId
  {
    var key := KeyOf(imp, c);
    StepTouches(imp, store, db, c);
    var (db1, parent) := ResolveShow(imp, store, db, c);
    var (db2, existing) := Find(store, db1, key);
    assert parent == ParentIn(imp, db.rows, c);
    k := WriteSettles(store, db2, key, EpisodeItem(imp, c, if existing.NoId? then c.id else existing, parent));
    LookupStable(db.rows, Step(imp, store, db, c).0.rows, key, WalkKey(imp, c));
  }

  lemma StepSettles(imp: Importing, store: Store, db: Db, c: Candidate) returns (k: nat)
    requires Valid(db.rows) && LookupsOk(store) && imp.libraryId != ""
    requires Reconcilable(c) && Rooted(c) && c.id.Uuid? && Step(imp, store, db, c).1.Resolved?
    ensures var (db', r) := Step(imp, store, db, c); SettledAt(imp, db'.rows, c, k) && db'.rows[k].id == r.item.mediaId
  {
    var key := KeyOf(imp, c);
    if c.kind == Show {
      var (db1, existing) := Find(store, db, key);
      k := WriteSettles(store, db1, key, ShowItem(imp, c, if existing.NoId? then c.id else existing));
    } else if c.kind == Movie {
      var (db1, existing) := Find(store, db, key);
      k := WriteSettles(store, db1, key, MovieItem(imp, c, if existing.NoId? then c.id else existing));
    } else {
      k := EpisodeSettles(imp, store, db, c);
    }
  }

  /** Reconciling another candidate leaves c settled, unless it creates the show that c had not found. */
  lemma SettledPersists(imp: Importing, rows: seq<MediaItem>, rows': seq<MediaItem>, touched: Key, c: Candidate, k: nat)
    requires Valid(rows) && Valid(rows') && Touches(rows, rows', touched)
    requires SettledAt(imp, rows, c, k) && touched != KeyOf(imp, c)
    requires Reconcilable(c) && (c.kind == Episode ==>
               touched != WalkKey(imp, c) || Lookup(rows, WalkKey(imp, c)).Uuid?)
    ensures SettledAt(imp, rows', c, k) && rows'[k].id == rows[k].id
  {
    assert rows'[k] == rows[k];
    if c.kind == Episode {
      LookupStable(rows, rows', touched, WalkKey(imp, c));
      assert ParentIn(imp, rows', c) == ParentIn(imp, rows, c);
    }
    assert ItemIn(imp, rows', c, rows[k].id) == ItemIn(imp, rows, c, rows[k].id);
  }

  /** Equal rows, the time of update aside. */
  ghost predicate SameRows(a: seq<MediaItem>, b: seq<MediaItem>) {
    |a| == |b| && forall i :: 0 <= i < |a| ==> SameButUpdate(a[i], b[i])
  }

  predicate SameButUpdate(a: MediaItem, b: MediaItem) {
    a.(updatedAt := b.updatedAt) == b
  }

  /** A write that leaves its row as it is, the time of update aside, is accepted. */
  ghost predicate RewriteOk(store: Store, rows: seq<MediaItem>) {
    forall t, m: MediaItem, k :: 0 <= k < |rows| && rows[k].id == m.id ==>
      SameButUpdate(Overwrite(rows[k], m), rows[k]) ==> store.accepts(t, rows, m)
  }

  /** So it is in every catalogue with these rows, update times aside. */
  ghost predicate AcceptsRewrites(store: Store, rows: seq<MediaItem>) {
    forall now :: SameRows(rows, now) ==> RewriteOk(store, now)
  }

  /** The statements that reconciling c takes, the write last. */
  function Statements(c: Candidate): nat {
    if c.kind == Episode && c.showId != NoId && c.seasonNumber != None then 3 else 2
  }

  /** Reconciling a settled candidate updates its row in place and changes only the time of update, to the time of the
      write. */
  lemma SettledRedone(imp: Importing, store: Store, db: Db, c: Candidate, k: nat)
    requires Valid(db.rows) && LookupsOk(store) && RewriteOk(store, db.rows) && imp.libraryId != ""
    requires Reconcilable(c) && Rooted(c) && (c.kind != Show ==> c.primaryPath.Path?) && SettledAt(imp, db.rows, c, k)
    ensures var (db', r) := Step(imp, store, db, c);
            && r.Resolved? && r.item.action == UpdateAction && r.item.mediaId == db.rows[k].id
            && db'.tick == db.tick + Statements(c)
            && db'.rows == db.rows[k := db.rows[k].(updatedAt := store.clock(db.tick + Statements(c) - 1))]
  {
    var key := KeyOf(imp, c);
    LookupIs(db.rows, key, k);
    var id := db.rows[k].id;
    var m := ItemIn(imp, db.rows, c, id);
    var db1: Db;
    if c.kind == Episode {
      var (d, parent) := ResolveShow(imp, store, db, c);
      assert parent == ParentIn(imp, db.rows, c);
      db1 := Find(store, d, key).0;
      assert Step(imp, store, db, c) == Concluded(c, id, NoPath, c.primaryPath, Write(store, db1, id, m));
    } else {
      db1 := Find(store, db, key).0;
    }
    SettledWrite(store, db1, m, k);
  }

  /** An update that leaves its row as it is is accepted and moves only the time of update. */
  lemma SettledWrite(store: Store, db: Db, m: MediaItem, k: nat)
    requires IdsUnique(db.rows) && RewriteOk(store, db.rows)
    requires k < |db.rows| && m.id == db.rows[k].id && Absorbs(db.rows[k], m)
    ensures Write(store, db, m.id, m) ==
            (db.(rows := db.rows[k := db.rows[k].(updatedAt := store.clock(db.tick))], tick := db.tick + 1), true)
  {
    var now := store.clock(db.tick);
    var row := Stored(m.(updatedAt := now));
    assert Overwrite(db.rows[k], row) == db.rows[k].(updatedAt := now);
    assert SameButUpdate(Overwrite(db.rows[k], row), db.rows[k]);
    UpdateRowsAt(db.rows, row, k);
  }

  // ---- One import ----------------------------------------------------------------------------------------------

  ghost predicate ProperCandidate(c: Candidate) {
    && Reconcilable(c) && Rooted(c) && c.id.Uuid?
    && (c.kind != Show ==> c.primaryPath.Path?)
    && (c.kind == Episode ==> c.showId.Uuid? && c.seasonNumber.Some?)
  }

  /** What the classifier guarantees of its candidate lists: distinct keys, and a show before its episodes. */
  ghost predicate WellOrdered(imp: Importing, cs: seq<Candidate>) {
    && (forall i :: 0 <= i < |cs| ==> ProperCandidate(cs[i]))
    && (forall i, j :: 0 <= i < j < |cs| ==> KeyOf(imp, cs[i]) != KeyOf(imp, cs[j]))
    && (forall i, j :: 0 <= i < |cs| && 0 <= j < |cs| && cs[j].kind == Episode ==>
          KeyOf(imp, cs[i]) == WalkKey(imp, cs[j]) ==> i < j)
  }

  ghost predicate Settled(imp: Importing, rows: seq<MediaItem>, c: Candidate, id: Id) {
    exists k :: SettledAt(imp, rows, c, k) && rows[k].id == id
  }

  /** Candidate j is settled under ids[j]. */
  ghost predicate AllSettled(imp: Importing, rows: seq<MediaItem>, cs: seq<Candidate>, ids: seq<Id>) {
    |ids| == |cs| && forall j :: 0 <= j < |cs| ==> Settled(imp, rows, cs[j], ids[j])
  }

  function MediaIds(items: seq<ResolvedItem>): seq<Id> {
    seq(|items|, j requires 0 <= j < |items| => items[j].mediaId)
  }

  lemma WellOrderedPrefix(imp: Importing, cs: seq<Candidate>)
    requires WellOrdered(imp, cs) && cs != []
    ensures WellOrdered(imp, cs[..|cs|-1]) && AllRooted(cs) && AllRooted(cs[..|cs|-1])
  {
    var b := cs[..|cs|-1];
    assert forall i :: 0 <= i < |b| ==> b[i] == cs[i];
  }

  /** The candidates reconciled before stay settled when the last one is reconciled. */
  lemma AllPersist(imp: Importing, rows: seq<MediaItem>, rows': seq<MediaItem>, cs: seq<Candidate>, ids: seq<Id>)
    requires WellOrdered(imp, cs) && cs != [] && Valid(rows) && Valid(rows')
    requires Touches(rows, rows', KeyOf(imp, cs[|cs|-1])) && AllSettled(imp, rows, cs[..|cs|-1], ids)
    ensures AllSettled(imp, rows', cs[..|cs|-1], ids)
  {
    var before := cs[..|cs|-1];
    forall j | 0 <= j < |before|
      ensures Settled(imp, rows', before[j], ids[j])
    {
      assert Settled(imp, rows, before[j], ids[j]) && before[j] == cs[j];
      var l :| SettledAt(imp, rows, cs[j], l) && rows[l].id == ids[j];
      SettledPersists(imp, rows, rows', KeyOf(imp, cs[|cs|-1]), cs[j], l);
    }
  }

  /** When the last candidate gets settled, touching only its key, all are settled. */
  lemma AllSettledNow(imp: Importing, rows: seq<MediaItem>, rows': seq<MediaItem>, cs: seq<Candidate>, ids: seq<Id>,
                      id: Id)
    requires WellOrdered(imp, cs) && cs != [] && Valid(rows) && Valid(rows')
    requires Touches(rows, rows', KeyOf(imp, cs[|cs|-1])) && AllSettled(imp, rows, cs[..|cs|-1], ids)
    requires Settled(imp, rows', cs[|cs|-1], id)
    ensures AllSettled(imp, rows', cs, ids + [id])
  {
    AllPersist(imp, rows, rows', cs, ids);
    assert cs == cs[..|cs|-1] + [cs[|cs|-1]];
  }

  lemma StepAllSettles(imp: Importing, store: Store, db: Db, cs: seq<Candidate>, ids: seq<Id>)
    requires Valid(db.rows) && LookupsOk(store) && imp.libraryId != "" && WellOrdered(imp, cs) && cs != []
    requires AllSettled(imp, db.rows, cs[..|cs|-1], ids) && Step(imp, store, db, cs[|cs|-1]).1.Resolved?
    ensures var (db', r) := Step(imp, store, db, cs[|cs|-1]);
            Valid(db'.rows) && AllSettled(imp, db'.rows, cs, ids + [r.item.mediaId])
  {
    var c := cs[|cs|-1];
    StepTouches(imp, store, db, c);
    var k := StepSettles(imp, store, db, c);
    AllSettledNow(imp, db.rows, Step(imp, store, db, c).0.rows, cs, ids, Step(imp, store, db, c).1.item.mediaId);
  }

  /** After an import without rejections every candidate is settled, under the identifier reported for it. */
  lemma {:induction false} RunSettles(imp: Importing, store: Store, db: Db, cs: seq<Candidate>, total: nat)
    requires Valid(db.rows) && LookupsOk(store) && imp.libraryId != "" && WellOrdered(imp, cs)
    requires Run(imp, store, db, cs, total).1.rejected == []
    ensures var (db', r) := Run(imp, store, db, cs, total);
            Valid(db'.rows) && AllSettled(imp, db'.rows, cs, MediaIds(r.accepted))
  {
    if cs != [] {
      var before := cs[..|cs|-1];
      WellOrderedPrefix(imp, cs);
      RunSettles(imp, store, db, before, total);
      var (db1, r1) := Run(imp, store, db, before, total);
      StepAllSettles(imp, store, db1, cs, MediaIds(r1.accepted));
      MediaIdsOneMore(r1.accepted, Step(imp, store, db1, cs[|cs|-1]).1.item);
    }
  }

  lemma MediaIdsOneMore(items: seq<ResolvedItem>, item: ResolvedItem)
    ensures MediaIds(items + [item]) == MediaIds(items) + [item.mediaId]
  {
  }

  lemma {:induction false} SameLookup(a: seq<MediaItem>, b: seq<MediaItem>, key: Key)
    requires SameRows(a, b)
    ensures Lookup(a, key) == Lookup(b, key) && FirstHit(a, key) == FirstHit(b, key)
  {
    if a != [] {
      SameLookup(a[..|a|-1], b[..|b|-1], key);
      assert SameButUpdate(a[|a|-1], b[|b|-1]);
    }
    var k := FirstHit(a, key);
    assert k >= 0 ==> SameButUpdate(a[k], b[k]);
  }

  lemma SameSettled(imp: Importing, a: seq<MediaItem>, b: seq<MediaItem>, c: Candidate, k: nat)
    requires SameRows(a, b) && SettledAt(imp, a, c, k)
    ensures SettledAt(imp, b, c, k) && b[k].id == a[k].id
  {
    assert SameButUpdate(a[k], b[k]);
    SameLookup(a, b, WalkKey(imp, c));
  }

  lemma SameValid(a: seq<MediaItem>, b: seq<MediaItem>)
    requires SameRows(a, b) && Valid(a)
    ensures Valid(b)
  {
    assert forall i :: 0 <= i < |a| ==> SameButUpdate(a[i], b[i]);
  }

  /** Candidate j was accepted as an update of the row with this identifier. */
  predicate UpdatedAs(item: ResolvedItem, id: Id) {
    item.action == UpdateAction && item.mediaId == id
  }

  /** The row with this identifier gets a new time of update. */
  function Restamp(rows: seq<MediaItem>, id: Id, now: int): seq<MediaItem> {
    seq(|rows|, i requires 0 <= i < |rows| => if rows[i].id == id then rows[i].(updatedAt := now) else rows[i])
  }

  function Ticks(cs: seq<Candidate>): nat {
    if cs == [] then 0 else Ticks(cs[..|cs|-1]) + Statements(cs[|cs|-1])
  }

  /** Candidate by candidate: its row gets the time of the last of its statements. */
  function StampedRow(store: Store, row: MediaItem, cs: seq<Candidate>, ids: seq<Id>, tick: nat): MediaItem
    requires |cs| == |ids|
  {
    if cs == [] then row
    else
      var n := |cs| - 1;
      var before := StampedRow(store, row, cs[..n], ids[..n], tick);
      if ids[n] == row.id then before.(updatedAt := store.clock(tick + Ticks(cs) - 1)) else before
  }

  /** The row is there to be rewritten. */
  ghost predicate Ready(imp: Importing, store: Store, rows: seq<MediaItem>, c: Candidate, id: Id) {
    Valid(rows) && RewriteOk(store, rows) && Settled(imp, rows, c, id)
  }

  lemma StaysReady(imp: Importing, store: Store, rows: seq<MediaItem>, now: seq<MediaItem>, c: Candidate, id: Id)
    requires Valid(rows) && SameRows(rows, now) && AcceptsRewrites(store, rows) && Settled(imp, rows, c, id)
    ensures Ready(imp, store, now, c, id)
  {
    var k :| SettledAt(imp, rows, c, k) && rows[k].id == id;
    SameSettled(imp, rows, now, c, k);
    SameValid(rows, now);
  }

  lemma StepRestamps(imp: Importing, store: Store, db: Db, c: Candidate, id: Id)
    requires Ready(imp, store, db.rows, c, id) && LookupsOk(store) && imp.libraryId != "" && ProperCandidate(c)
    ensures var (db', r) := Step(imp, store, db, c);
            && r.Resolved? && UpdatedAs(r.item, id) && db'.tick == db.tick + Statements(c)
            && db'.rows == Restamp(db.rows, id, store.clock(db'.tick - 1))
  {
    var k :| SettledAt(imp, db.rows, c, k) && db.rows[k].id == id;
    SettledRedone(imp, store, db, c, k);
    RestampAt(db.rows, k, store.clock(db.tick + Statements(c) - 1));
  }

  lemma StepRedoes(imp: Importing, store: Store, rows: seq<MediaItem>, db: Db, c: Candidate, id: Id)
    requires Valid(rows) && SameRows(rows, db.rows) && LookupsOk(store) && AcceptsRewrites(store, rows) &&
             imp.libraryId != ""
    requires ProperCandidate(c) && Settled(imp, rows, c, id)
    ensures var (db', r) := Step(imp, store, db, c); SameRows(rows, db'.rows) && r.Resolved? && UpdatedAs(r.item, id)
  {
    StaysReady(imp, store, rows, db.rows, c, id);
    StepRestamps(imp, store, db, c, id);
    SameRestamped(rows, db.rows, id, store.clock(Step(imp, store, db, c).0.tick - 1));
  }

  lemma RestampAt(rows: seq<MediaItem>, k: nat, now: int)
    requires IdsUnique(rows) && k < |rows|
    ensures Restamp(rows, rows[k].id, now) == rows[k := rows[k].(updatedAt := now)]
  {
  }

  lemma SameRestamped(a: seq<MediaItem>, b: seq<MediaItem>, id: Id, now: int)
    requires SameRows(a, b)
    ensures SameRows(a, Restamp(b, id, now))
  {
    assert forall i :: 0 <= i < |a| ==> SameButUpdate(a[i], b[i]);
  }

  ghost predicate AllUpdated(items: seq<ResolvedItem>, ids: seq<Id>) {
    |items| == |ids| && forall j :: 0 <= j < |items| ==> UpdatedAs(items[j], ids[j])
  }

  /** An import of settled candidates accepts every one as an update of its row and changes nothing but times of
      update. */
  lemma {:induction false} RunRedoes(imp: Importing, store: Store, rows: seq<MediaItem>, db: Db, cs: seq<Candidate>,
                                     ids: seq<Id>, total: nat)
    requires Valid(rows) && SameRows(rows, db.rows) && LookupsOk(store) && AcceptsRewrites(store, rows) &&
             imp.libraryId != ""
    requires AllSettled(imp, rows, cs, ids) && forall j :: 0 <= j < |cs| ==> ProperCandidate(cs[j])
    ensures var (db', r) := Run(imp, store, db, cs, total);
            SameRows(rows, db'.rows) && r.rejected == [] && AllUpdated(r.accepted, ids)
  {
    if cs != [] {
      var n := |cs| - 1;
      SettledPrefix(imp, rows, cs, ids);
      RunRedoes(imp, store, rows, db, cs[..n], ids[..n], total);
      var (db1, r1) := Run(imp, store, db, cs[..n], total);
      StepRedoes(imp, store, rows, db1, cs[n], ids[n]);
      AllUpdatedOneMore(r1.accepted, Step(imp, store, db1, cs[n]).1.item, ids);
    }
  }

  /** The times of update become those of the writes. */
  lemma {:induction false} RunRestamps(imp: Importing, store: Store, db: Db, cs: seq<Candidate>, ids: seq<Id>,
                                       total: nat, i: nat)
    requires Valid(db.rows) && LookupsOk(store) && AcceptsRewrites(store, db.rows) && imp.libraryId != ""
    requires AllSettled(imp, db.rows, cs, ids) && forall j :: 0 <= j < |cs| ==> ProperCandidate(cs[j])
    requires i < |db.rows|
    ensures StampedAt(store, db, cs, ids, i, Run(imp, store, db, cs, total).0)
  {
    if cs != [] {
      var n := |cs| - 1;
      SettledPrefix(imp, db.rows, cs, ids);
      RunRestamps(imp, store, db, cs[..n], ids[..n], total, i);
      LastIsReady(imp, store, db, cs, ids, total);
      var db1 := Run(imp, store, db, cs[..n], total).0;
      StepRestamps(imp, store, db1, cs[n], ids[n]);
      StampedMore(store, db, cs, ids, i, db1, Step(imp, store, db1, cs[n]).0);
      RunIsStep(imp, store, db, cs, total);
    }
  }

  /** Row i carries the times of the writes for the candidates so far. */
  ghost predicate StampedAt(store: Store, db: Db, cs: seq<Candidate>, ids: seq<Id>, i: nat, db': Db)
    requires |cs| == |ids| && i < |db.rows|
  {
    && db'.tick == db.tick + Ticks(cs) && |db'.rows| == |db.rows| && db'.rows[i].id == db.rows[i].id
    && db'.rows[i] == StampedRow(store, db.rows[i], cs, ids, db.tick)
  }

  lemma StampedMore(store: Store, db: Db, cs: seq<Candidate>, ids: seq<Id>, i: nat, db1: Db, db2: Db)
    requires |cs| == |ids| > 0 && i < |db.rows| && StampedAt(store, db, cs[..|cs|-1], ids[..|cs|-1], i, db1)
    requires db2.tick == db1.tick + Statements(cs[|cs|-1])
    requires db2.rows == Restamp(db1.rows, ids[|cs|-1], store.clock(db2.tick - 1))
    ensures StampedAt(store, db, cs, ids, i, db2)
  {
  }

  lemma RunIsStep(imp: Importing, store: Store, db: Db, cs: seq<Candidate>, total: nat)
    requires cs != [] && Reconcilable(cs[|cs|-1])
    ensures Run(imp, store, db, cs, total).0 ==
            Step(imp, store, Run(imp, store, db, cs[..|cs|-1], total).0, cs[|cs|-1]).0
  {
  }

  lemma LastIsReady(imp: Importing, store: Store, db: Db, cs: seq<Candidate>, ids: seq<Id>, total: nat)
    requires Valid(db.rows) && LookupsOk(store) && AcceptsRewrites(store, db.rows) && imp.libraryId != ""
    requires AllSettled(imp, db.rows, cs, ids) && cs != [] && forall j :: 0 <= j < |cs| ==> ProperCandidate(cs[j])
    ensures var n := |cs| - 1; Ready(imp, store, Run(imp, store, db, cs[..n], total).0.rows, cs[n], ids[n])
  {
    var n := |cs| - 1;
    SettledPrefix(imp, db.rows, cs, ids);
    assert forall i :: 0 <= i < |db.rows| ==> SameButUpdate(db.rows[i], db.rows[i]);
    RunRedoes(imp, store, db.rows, db, cs[..n], ids[..n], total);
    StaysReady(imp, store, db.rows, Run(imp, store, db, cs[..n], total).0.rows, cs[n], ids[n]);
  }

  lemma SettledPrefix(imp: Importing, rows: seq<MediaItem>, cs: seq<Candidate>, ids: seq<Id>)
    requires AllSettled(imp, rows, cs, ids) && cs != [] && forall j :: 0 <= j < |cs| ==> ProperCandidate(cs[j])
    ensures var n := |cs| - 1;
            && AllSettled(imp, rows, cs[..n], ids[..n]) && Settled(imp, rows, cs[n], ids[n])
            && ProperCandidate(cs[n]) && forall j :: 0 <= j < n ==> ProperCandidate(cs[..n][j])
  {
    var n := |cs| - 1;
    forall j | 0 <= j < n
      ensures ProperCandidate(cs[..n][j]) && Settled(imp, rows, cs[..n][j], ids[..n][j])
    {
      assert cs[..n][j] == cs[j] && ids[..n][j] == ids[j];
    }
  }

  /** A row that no candidate names stays exactly as it was. */
  lemma {:induction false} StampedOther(store: Store, row: MediaItem, cs: seq<Candidate>, ids: seq<Id>, tick: nat)
    requires |cs| == |ids| && forall j :: 0 <= j < |ids| ==> ids[j] != row.id
    ensures StampedRow(store, row, cs, ids, tick) == row
  {
    if cs != [] {
      StampedOther(store, row, cs[..|cs|-1], ids[..|cs|-1], tick);
    }
  }

  /** With distinct identifiers a candidate's row carries the time of that candidate's write. */
  lemma {:induction false} StampedOwn(store: Store, row: MediaItem, cs: seq<Candidate>, ids: seq<Id>, tick: nat, j: nat)
    requires |cs| == |ids| && (forall i, k :: 0 <= i < k < |ids| ==> ids[i] != ids[k]) && j < |ids| && ids[j] == row.id
    ensures StampedRow(store, row, cs, ids, tick) == row.(updatedAt := store.clock(tick + Ticks(cs[..j+1]) - 1))
  {
    var n := |cs| - 1;
    if j < n {
      assert cs[..n][..j+1] == cs[..j+1];
      StampedOwn(store, row, cs[..n], ids[..n], tick, j);
    } else {
      assert cs[..n+1] == cs;
      StampedOther(store, row, cs[..n], ids[..n], tick);
    }
  }

  lemma AllUpdatedOneMore(items: seq<ResolvedItem>, item: ResolvedItem, ids: seq<Id>)
    requires ids != [] && AllUpdated(items, ids[..|ids|-1]) && UpdatedAs(item, ids[|ids|-1])
    ensures AllUpdated(items + [item], ids)
  {
    var before := ids[..|ids|-1];
    forall j | 0 <= j < |ids|
      ensures UpdatedAs((items + [item])[j], ids[j])
    {
      assert j < |before| ==> UpdatedAs(items[j], before[j]);
    }
  }

  // ---- Two imports ----------------------------------------------------------------------------------------------

  ghost predicate IsShowAt(imp: Importing, cs: seq<Candidate>, key: Key) {
    exists i :: 0 <= i < |cs| && KeyOf(imp, cs[i]) == key
  }

  lemma StepLookup(imp: Importing, store: Store, db: Db, c: Candidate, key: Key)
    requires Valid(db.rows) && LookupsOk(store) && imp.libraryId != "" && ProperCandidate(c) && ProperKey(key)
    requires Step(imp, store, db, c).1.Resolved?
    ensures Lookup(Step(imp, store, db, c).0.rows, key).Uuid? <==> Lookup(db.rows, key).Uuid? || KeyOf(imp, c) == key
  {
    StepTouches(imp, store, db, c);
    var rows' := Step(imp, store, db, c).0.rows;
    if KeyOf(imp, c) == key {
      var k := StepSettles(imp, store, db, c);
      LookupIs(rows', key, k);
    } else {
      LookupStable(db.rows, rows', KeyOf(imp, c), key);
    }
  }

  lemma ShowAtPrefix(imp: Importing, cs: seq<Candidate>, key: Key)
    requires cs != []
    ensures IsShowAt(imp, cs, key) <==> IsShowAt(imp, cs[..|cs|-1], key) || KeyOf(imp, cs[|cs|-1]) == key
  {
    var before := cs[..|cs|-1];
    if IsShowAt(imp, before, key) {
      var i :| 0 <= i < |before| && KeyOf(imp, before[i]) == key;
      assert cs[i] == before[i];
    }
    if IsShowAt(imp, cs, key) {
      var i :| 0 <= i < |cs| && KeyOf(imp, cs[i]) == key;
      assert i < |before| ==> before[i] == cs[i];
    }
  }

  /** The show rows after an import are those before it and those of its show candidates. */
  lemma {:induction false} ShowsAfter(imp: Importing, store: Store, db: Db, cs: seq<Candidate>, total: nat, key: Key)
    requires Valid(db.rows) && LookupsOk(store) && imp.libraryId != "" && WellOrdered(imp, cs) && ProperKey(key)
    requires Run(imp, store, db, cs, total).1.rejected == []
    ensures Lookup(Run(imp, store, db, cs, total).0.rows, key).Uuid? <==>
            Lookup(db.rows, key).Uuid? || IsShowAt(imp, cs, key)
  {
    if cs != [] {
      var before := cs[..|cs|-1];
      WellOrderedPrefix(imp, cs);
      ShowAtPrefix(imp, cs, key);
      ShowsAfter(imp, store, db, before, total, key);
      RunKeepsValid(imp, store, db, before, total);
      StepLookup(imp, store, Run(imp, store, db, before, total).0, cs[|cs|-1], key);
    }
  }

  /** Every episode's upward walk leads to a show: one stored before the import or one it brings. */
  ghost predicate ShowsKnown(imp: Importing, rows: seq<MediaItem>, cs: seq<Candidate>) {
    forall j :: 0 <= j < |cs| && cs[j].kind == Episode ==>
      Lookup(rows, WalkKey(imp, cs[j])).Uuid? || IsShowAt(imp, cs, WalkKey(imp, cs[j]))
  }

  /** The second report accepts everything as updates of the rows the first reported, and no row changed. */
  ghost predicate NothingChanged(rows1: seq<MediaItem>, r1: Report, rows2: seq<MediaItem>, r2: Report) {
    && SameRows(rows1, rows2) && r2.rejected == [] && r2.unknown == []
    && AllUpdated(r2.accepted, MediaIds(r1.accepted))
  }

  /** The second import draws other identifiers for the same candidates. */
  ghost predicate Redrawn(cs1: seq<Candidate>, cs2: seq<Candidate>) {
    && |cs1| == |cs2|
    && forall j :: 0 <= j < |cs1| ==>
      Erase(cs1[j]) == Erase(cs2[j]) && (cs1[j].kind == Episode ==> cs1[j].showId != cs2[j].showId)
  }

  lemma SettledForRedrawn(imp: Importing, rows: seq<MediaItem>, c1: Candidate, c2: Candidate, id: Id)
    requires Erase(c1) == Erase(c2) && ProperCandidate(c1) && ProperCandidate(c2) && Settled(imp, rows, c1, id)
    requires c1.kind == Episode ==> Lookup(rows, WalkKey(imp, c1)).Uuid?
    ensures Settled(imp, rows, c2, id)
  {
    assert c2 == c1.(id := c2.id, showId := c2.showId);
    var k :| SettledAt(imp, rows, c1, k) && rows[k].id == id;
    assert ItemIn(imp, rows, c1, id) == ItemIn(imp, rows, c2, id);
    assert SettledAt(imp, rows, c2, k);
  }

  /** Re-import: after an import in which nothing failed, a second import of the same candidates under other
      identifiers, on a store that accepts rewrites, changes nothing if and only if every episode's upward walk leads
      to a known show. */
  lemma ReimportIff(imp: Importing, store1: Store, store2: Store, db: Db, tick: nat, next: nat, cs1: seq<Candidate>,
                    cs2: seq<Candidate>)
    requires Valid(db.rows) && LookupsOk(store1) && LookupsOk(store2) && imp.libraryId != ""
    requires WellOrdered(imp, cs1) && WellOrdered(imp, cs2) && Redrawn(cs1, cs2)
    requires RunAll(imp, store1, db, cs1).1.rejected == [] &&
             AcceptsRewrites(store2, RunAll(imp, store1, db, cs1).0.rows)
    ensures var (db1, r1) := RunAll(imp, store1, db, cs1);
            var (db2, r2) := RunAll(imp, store2, Db(db1.rows, tick, next), cs2);
            NothingChanged(db1.rows, r1, db2.rows, r2) <==> ShowsKnown(imp, db.rows, cs1)
  {
    var (db1, r1) := RunAll(imp, store1, db, cs1);
    RunSettles(imp, store1, db, cs1, |cs1|);
    if ShowsKnown(imp, db.rows, cs1) {
      KnownUnchanged(imp, store1, store2, db, tick, next, cs1, cs2);
    } else {
      var j :| 0 <= j < |cs1| && cs1[j].kind == Episode &&
               !(Lookup(db.rows, WalkKey(imp, cs1[j])).Uuid? || IsShowAt(imp, cs1, WalkKey(imp, cs1[j])));
      ShowsAfter(imp, store1, db, cs1, |cs1|, WalkKey(imp, cs1[j]));
      UnknownChanges(imp, store2, db1.rows, r1, tick, next, cs1, cs2, j);
    }
  }

  lemma KnownUnchanged(imp: Importing, store1: Store, store2: Store, db: Db, tick: nat, next: nat, cs1: seq<Candidate>,
                       cs2: seq<Candidate>)
    requires Valid(db.rows) && LookupsOk(store1) && LookupsOk(store2) && imp.libraryId != ""
    requires WellOrdered(imp, cs1) && WellOrdered(imp, cs2) && Redrawn(cs1, cs2)
    requires AcceptsRewrites(store2, RunAll(imp, store1, db, cs1).0.rows)
    requires RunAll(imp, store1, db, cs1).1.rejected == [] && ShowsKnown(imp, db.rows, cs1)
    ensures var (db1, r1) := RunAll(imp, store1, db, cs1);
            var (db2, r2) := RunAll(imp, store2, Db(db1.rows, tick, next), cs2);
            NothingChanged(db1.rows, r1, db2.rows, r2)
  {
    var (db1, r1) := RunAll(imp, store1, db, cs1);
    KnownSettled(imp, store1, db, cs1, cs2);
    RunRedoes(imp, store2, db1.rows, Db(db1.rows, tick, next), cs2, MediaIds(r1.accepted), |cs2|);
    CountsConserved(imp, store2, Db(db1.rows, tick, next), cs2, |cs2|);
  }

  /** The redrawn candidates find their rows as they want them. */
  lemma KnownSettled(imp: Importing, store: Store, db: Db, cs1: seq<Candidate>, cs2: seq<Candidate>)
    requires Valid(db.rows) && LookupsOk(store) && imp.libraryId != ""
    requires WellOrdered(imp, cs1) && WellOrdered(imp, cs2) && Redrawn(cs1, cs2)
    requires RunAll(imp, store, db, cs1).1.rejected == [] && ShowsKnown(imp, db.rows, cs1)
    ensures var (db1, r1) := RunAll(imp, store, db, cs1);
            Valid(db1.rows) && AllSettled(imp, db1.rows, cs2, MediaIds(r1.accepted))
  {
    var (db1, r1) := RunAll(imp, store, db, cs1);
    RunSettles(imp, store, db, cs1, |cs1|);
    var ids := MediaIds(r1.accepted);
    forall j | 0 <= j < |cs2|
      ensures Settled(imp, db1.rows, cs2[j], ids[j])
    {
      assert Settled(imp, db1.rows, cs1[j], ids[j]);
      if cs1[j].kind == Episode {
        ShowsAfter(imp, store, db, cs1, |cs1|, WalkKey(imp, cs1[j]));
      }
      SettledForRedrawn(imp, db1.rows, cs1[j], cs2[j], ids[j]);
    }
  }

  /** Then the second import changes rows exactly in their times of update: each candidate's row gets the time of that
      candidate's write, and a row that belongs to no candidate is not touched at all. */
  lemma KnownStamps(imp: Importing, store1: Store, store2: Store, db: Db, tick: nat, next: nat, cs1: seq<Candidate>,
                    cs2: seq<Candidate>)
    requires Valid(db.rows) && LookupsOk(store1) && LookupsOk(store2) && imp.libraryId != ""
    requires WellOrdered(imp, cs1) && WellOrdered(imp, cs2) && Redrawn(cs1, cs2)
    requires AcceptsRewrites(store2, RunAll(imp, store1, db, cs1).0.rows)
    requires RunAll(imp, store1, db, cs1).1.rejected == [] && ShowsKnown(imp, db.rows, cs1)
    ensures var (db1, r1) := RunAll(imp, store1, db, cs1);
            var db2 := RunAll(imp, store2, Db(db1.rows, tick, next), cs2).0;
            Stamps(store2, db1.rows, db2.rows, cs2, MediaIds(r1.accepted), tick)
  {
    var (db1, r1) := RunAll(imp, store1, db, cs1);
    KnownSettled(imp, store1, db, cs1, cs2);
    RunStamps(imp, store2, Db(db1.rows, tick, next), cs2, MediaIds(r1.accepted));
  }

  /** Candidate j's row carries the time of the last statement of candidate j, and nothing else has changed. */
  ghost predicate Stamps(store: Store, rows: seq<MediaItem>, rows': seq<MediaItem>, cs: seq<Candidate>, ids: seq<Id>,
                         tick: nat)
  {
    && |ids| == |cs| && |rows'| == |rows|
    && (forall i :: 0 <= i < |rows| && rows[i].id !in ids ==> rows'[i] == rows[i])
    && (forall i, j :: 0 <= i < |rows| && 0 <= j < |ids| && ids[j] == rows[i].id ==>
          rows'[i] == rows[i].(updatedAt := store.clock(tick + Ticks(cs[..j+1]) - 1)))
  }

  lemma RunStamps(imp: Importing, store: Store, db: Db, cs: seq<Candidate>, ids: seq<Id>)
    requires Valid(db.rows) && LookupsOk(store) && AcceptsRewrites(store, db.rows) && imp.libraryId != ""
    requires AllSettled(imp, db.rows, cs, ids) && WellOrdered(imp, cs)
    ensures Stamps(store, db.rows, RunAll(imp, store, db, cs).0.rows, cs, ids, db.tick)
  {
    var rows' := RunAll(imp, store, db, cs).0.rows;
    SettledIdsDistinct(imp, db.rows, cs, ids);
    SameSize(imp, store, db, cs, ids);
    forall i | 0 <= i < |db.rows|
      ensures rows'[i] == StampedRow(store, db.rows[i], cs, ids, db.tick)
    {
      RunRestamps(imp, store, db, cs, ids, |cs|, i);
    }
    StampedRows(store, db.rows, rows', cs, ids, db.tick);
  }

  lemma SameSize(imp: Importing, store: Store, db: Db, cs: seq<Candidate>, ids: seq<Id>)
    requires Valid(db.rows) && LookupsOk(store) && AcceptsRewrites(store, db.rows) && imp.libraryId != ""
    requires AllSettled(imp, db.rows, cs, ids) && WellOrdered(imp, cs)
    ensures |RunAll(imp, store, db, cs).0.rows| == |db.rows|
  {
    assert forall i :: 0 <= i < |db.rows| ==> SameButUpdate(db.rows[i], db.rows[i]);
    RunRedoes(imp, store, db.rows, db, cs, ids, |cs|);
  }

  lemma StampedRows(store: Store, rows: seq<MediaItem>, rows': seq<MediaItem>, cs: seq<Candidate>, ids: seq<Id>,
                    tick: nat)
    requires |ids| == |cs| && |rows'| == |rows| && forall i, j :: 0 <= i < j < |ids| ==> ids[i] != ids[j]
    requires forall i :: 0 <= i < |rows| ==> rows'[i] == StampedRow(store, rows[i], cs, ids, tick)
    ensures Stamps(store, rows, rows', cs, ids, tick)
  {
    forall i | 0 <= i < |rows| && rows[i].id !in ids
      ensures rows'[i] == rows[i]
    {
      StampedOther(store, rows[i], cs, ids, tick);
    }
    forall i, j | 0 <= i < |rows| && 0 <= j < |ids| && ids[j] == rows[i].id
      ensures rows'[i] == rows[i].(updatedAt := store.clock(tick + Ticks(cs[..j+1]) - 1))
    {
      StampedOwn(store, rows[i], cs, ids, tick, j);
    }
  }

  lemma SettledIdsDistinct(imp: Importing, rows: seq<MediaItem>, cs: seq<Candidate>, ids: seq<Id>)
    requires IdsUnique(rows) && WellOrdered(imp, cs) && AllSettled(imp, rows, cs, ids)
    ensures forall i, j :: 0 <= i < j < |ids| ==> ids[i] != ids[j]
  {
    forall i, j | 0 <= i < j < |ids|
      ensures ids[i] != ids[j]
    {
      assert Settled(imp, rows, cs[i], ids[i]) && Settled(imp, rows, cs[j], ids[j]);
      assert KeyOf(imp, cs[i]) != KeyOf(imp, cs[j]);
    }
  }

  /** An episode whose walk leads nowhere carries its own run's show id, so a second import alters its parent. */
  lemma UnknownChanges(imp: Importing, store: Store, rows: seq<MediaItem>, r1: Report, tick: nat, next: nat,
                       cs1: seq<Candidate>, cs2: seq<Candidate>, j: nat)
    requires Valid(rows) && LookupsOk(store) && imp.libraryId != ""
    requires WellOrdered(imp, cs1) && WellOrdered(imp, cs2) && Redrawn(cs1, cs2)
    requires AllSettled(imp, rows, cs1, MediaIds(r1.accepted)) && j < |cs1| && cs1[j].kind == Episode
    requires Lookup(rows, WalkKey(imp, cs1[j])).NoId?
    ensures var (db2, r2) := RunAll(imp, store, Db(rows, tick, next), cs2); !NothingChanged(rows, r1, db2.rows, r2)
  {
    var (db2, r2) := RunAll(imp, store, Db(rows, tick, next), cs2);
    if NothingChanged(rows, r1, db2.rows, r2) {
      RunSettles(imp, store, Db(rows, tick, next), cs2, |cs2|);
      assert Settled(imp, rows, cs1[j], MediaIds(r1.accepted)[j]);
      assert Settled(imp, db2.rows, cs2[j], MediaIds(r2.accepted)[j]);
      assert UpdatedAs(r2.accepted[j], MediaIds(r1.accepted)[j]);
      SharedRowSameShow(imp, rows, db2.rows, cs1[j], cs2[j], r1.accepted[j].mediaId);
    }
  }

  /** Two settled episodes in one row, with no show to walk to, carry the same show id. */
  lemma SharedRowSameShow(imp: Importing, rows: seq<MediaItem>, rows2: seq<MediaItem>, c1: Candidate, c2: Candidate,
                          id: Id)
    requires IdsUnique(rows) && SameRows(rows, rows2) && Erase(c1) == Erase(c2) && c1.kind == Episode
    requires Settled(imp, rows, c1, id) && Settled(imp, rows2, c2, id) && Lookup(rows, WalkKey(imp, c1)).NoId?
    ensures c1.showId == c2.showId
  {
    var k :| SettledAt(imp, rows, c1, k) && rows[k].id == id;
    var l :| SettledAt(imp, rows2, c2, l) && rows2[l].id == id;
    SameLookup(rows, rows2, WalkKey(imp, c1));
    assert c2.kind == c1.kind && c2.primaryPath == c1.primaryPath;
    assert SameButUpdate(rows[k], rows2[k]) && SameButUpdate(rows[l], rows2[l]);
    assert rows[k].parentId == c1.showId && rows2[l].parentId == c2.showId;
  }
}
