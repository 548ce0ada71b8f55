// Sequences of imports of changing trees into the shipped database: whose parents the episode rows have.
module SchemaRuns {
  import opened Base
  import opened FileSystem
  import opened ImportContext
  import opened Classify
  import opened Scan
  import opened Catalogue
  import opened Reconcile
  import opened CatalogueKeys
  import opened Reimport
  import opened ImportTheorems
  import opened Schema
  import opened SchemaReimport
  import opened SchemaTheorems

  /** Row s is a show of row k's library, and k's parent. */
  predicate IsParent(rows: seq<MediaItem>, k: int, s: int) {
    && 0 <= k < |rows| && 0 <= s < |rows|
    && rows[s].id == rows[k].parentId && rows[s].typ == Show && rows[s].libraryId == rows[k].libraryId
  }

  ghost predicate UnderShow(rows: seq<MediaItem>, k: int) {
    exists s :: IsParent(rows, k, s)
  }

  ghost predicate EpisodesUnderShows(rows: seq<MediaItem>) {
    forall k :: 0 <= k < |rows| && rows[k].typ == Episode ==> UnderShow(rows, k)
  }

  lemma FailedKeepsRows(imp: Importing, store: Store, db: Db, c: Candidate)
    requires Reconcilable(c) && Step(imp, store, db, c).1.Failed?
    ensures Step(imp, store, db, c).0.rows == db.rows
  {
  }

  /** A row the step did not write keeps its parent. */
  lemma OtherKeepsParent(rows: seq<MediaItem>, rows': seq<MediaItem>, touched: Key, k: nat)
    requires Touches(rows, rows', touched) && k < |rows| && rows'[k] == rows[k] && UnderShow(rows, k)
    ensures UnderShow(rows', k)
  {
    var s :| IsParent(rows, k, s);
    assert SameIdentity(rows[s], rows'[s]);
    assert IsParent(rows', k, s);
  }

  /** An accepted episode's row is under a show. */
  lemma WrittenUnderShow(imp: Importing, rows: seq<MediaItem>, cs: seq<Candidate>, base: nat, start: nat, id: Id,
                         k: nat)
    requires Sound(rows) && Drawn(imp, cs, base) && cs != [] && NewRows(imp, rows, cs, base, start)
    requires Settled(imp, rows, cs[|cs|-1], id) && k < |rows| && RowKey(rows[k]) == KeyOf(imp, cs[|cs|-1])
    requires cs[|cs|-1].kind == Episode
    ensures UnderShow(rows, k)
  {
    var c := cs[|cs|-1];
    FilesMakeKeys(rows);
    var l, s := SettledParent(imp, rows, c, id);
    assert l == k;
    if Orphan(imp, rows, c) {
      assert NewRowAt(imp, rows, cs, base, start, s);
    }
    assert RowKey(rows[s]).typ == Show && RowKey(rows[s]).libraryId == imp.libraryId;
    assert IsParent(rows, k, s);
  }

  lemma StepKeepsShows(imp: Importing, store: Store, db: Db, cs: seq<Candidate>, base: nat, start: nat)
    requires Sound(db.rows) && LookupsOk(store) && Enforces(store) && imp.libraryId != ""
    requires Drawn(imp, cs, base) && cs != [] && NewRows(imp, db.rows, cs[..|cs|-1], base, start)
    requires EpisodesUnderShows(db.rows)
    ensures var rows' := Step(imp, store, db, cs[|cs|-1]).0.rows;
            Sound(rows') && NewRows(imp, rows', cs, base, start) && EpisodesUnderShows(rows')
  {
    var c := cs[|cs|-1];
    var (db', r) := Step(imp, store, db, c);
    StepSteps(imp, store, db, c);
    NewRowsStep(imp, db.rows, db'.rows, cs, base, start);
    if r.Failed? {
      FailedKeepsRows(imp, store, db, c);
    } else {
      FilesMakeKeys(db.rows);
      var w := StepSettles(imp, store, db, c);
      RowsKeepShows(imp, db.rows, db'.rows, cs, base, start, r.item.mediaId);
    }
  }

  lemma RowsKeepShows(imp: Importing, rows: seq<MediaItem>, rows': seq<MediaItem>, cs: seq<Candidate>, base: nat,
                      start: nat, id: Id)
    requires Drawn(imp, cs, base) && cs != [] && NewRows(imp, rows', cs, base, start)
    requires StepsTo(imp, rows, rows', cs[|cs|-1]) && Settled(imp, rows', cs[|cs|-1], id) && EpisodesUnderShows(rows)
    ensures EpisodesUnderShows(rows')
  {
    var key := KeyOf(imp, cs[|cs|-1]);
    forall k | 0 <= k < |rows'| && rows'[k].typ == Episode
      ensures UnderShow(rows', k)
    {
      if RowKey(rows'[k]) == key {
        WrittenUnderShow(imp, rows', cs, base, start, id, k);
      } else {
        assert SameIdentity(rows[k], rows'[k]);
        OtherKeepsParent(rows, rows', key, k);
      }
    }
  }

  lemma {:induction false} RunKeepsShows(imp: Importing, store: Store, db: Db, cs: seq<Candidate>, total: nat,
                                         base: nat)
    requires Sound(db.rows) && LookupsOk(store) && Enforces(store) && imp.libraryId != ""
    requires Drawn(imp, cs, base) && IdsBelow(db.rows, base) && EpisodesUnderShows(db.rows)
    ensures var rows' := Run(imp, store, db, cs, total).0.rows;
            Sound(rows') && NewRows(imp, rows', cs, base, |db.rows|) && EpisodesUnderShows(rows')
  {
    if cs != [] {
      DrawnPrefix(imp, cs, base);
      RunKeepsShows(imp, store, db, cs[..|cs|-1], total, base);
      StepKeepsShows(imp, store, Run(imp, store, db, cs[..|cs|-1], total).0, cs, base, |db.rows|);
    }
  }

  // ---- Any sequence of imports ------------------------------------------------------------------------------------

  datatype TreeImport = TreeImport(cfg: Settings, providerId: string, store: Store, root: FSNode)

  function Imports(db: Db, imports: seq<TreeImport>): Db {
    if imports == [] then db
    else
      var i := imports[|imports|-1];
      ImportTree(i.cfg, i.providerId, i.store, Imports(db, imports[..|imports|-1]), i.root).0
  }

  /** A well-formed snapshot, a named library, lookups that do not err, and the schema's constraints; writes are free to
      fail otherwise. */
  ghost predicate Ordinary(i: TreeImport) {
    WellFormed(i.root) && i.cfg.libraryId != "" && LookupsOk(i.store) && Enforces(i.store)
  }

  /** After any sequence of imports of changing trees into any libraries, every episode row's parent is a show row of
      its own library, and the table satisfies the schema's constraints. */
  lemma {:induction false} ImportsKeepShows(db: Db, imports: seq<TreeImport>)
    requires Sound(db.rows) && IdsBelow(db.rows, db.next) && EpisodesUnderShows(db.rows)
    requires forall i :: 0 <= i < |imports| ==> Ordinary(imports[i])
    ensures var db' := Imports(db, imports);
            Sound(db'.rows) && IdsBelow(db'.rows, db'.next) && EpisodesUnderShows(db'.rows)
  {
    if imports != [] {
      var i := imports[|imports|-1];
      var before := imports[..|imports|-1];
      assert forall k :: 0 <= k < |before| ==> before[k] == imports[k];
      ImportsKeepShows(db, before);
      assert Ordinary(i);
      ImportKeepsShows(i.cfg, i.providerId, i.store, Imports(db, before), i.root);
    }
  }

  lemma ImportKeepsShows(cfg: Settings, providerId: string, store: Store, db: Db, root: FSNode)
    requires WellFormed(root) && cfg.libraryId != "" && LookupsOk(store) && Enforces(store)
    requires Sound(db.rows) && IdsBelow(db.rows, db.next) && EpisodesUnderShows(db.rows)
    ensures var db' := ImportTree(cfg, providerId, store, db, root).0;
            Sound(db'.rows) && IdsBelow(db'.rows, db'.next) && EpisodesUnderShows(db'.rows)
  {
    var imp, o := ImportingOf(cfg, providerId), Scanning(cfg, root, db.next);
    ScanDrawn(cfg, providerId, root, db.next);
    RunKeepsShows(imp, store, db.(next := o.next), o.cands, |o.cands|, db.next);
    NewRowsBelow(imp, ImportTree(cfg, providerId, store, db, root).0.rows, o.cands, db.next, |db.rows|);
    RunNext(imp, store, db.(next := o.next), o.cands, |o.cands|);
  }
}
