// Whose episodes they are: parent links of the rows an import leaves behind.
module Parents {
  import opened ImportContext
  import opened ShowLinks
  import opened Catalogue
  import opened Reconcile
  import opened CatalogueKeys
  import opened Reimport

  ghost predicate NoShowRejected(r: Report) {
    forall i :: 0 <= i < |r.rejected| ==> r.rejected[i].kind != Show
  }

  /** Row k is the accepted episode's and its parent is row s, the show its upward walk leads to. */
  ghost predicate ChildOf(imp: Importing, rows: seq<MediaItem>, item: ResolvedItem, k: int, s: int) {
    && 0 <= k < |rows| && 0 <= s < |rows|
    && rows[k].id == item.mediaId && RowKey(rows[k]) == FileKey(imp, item.primaryPath, Episode)
    && RowKey(rows[s]) == ShowKey(imp, ShowRootOf(imp.fs, item.primaryPath))
    && rows[k].parentId == rows[s].id
  }

  ghost predicate HasParent(imp: Importing, rows: seq<MediaItem>, item: ResolvedItem) {
    exists k, s :: ChildOf(imp, rows, item, k, s)
  }

  /** The accepted item is that of a candidate in the list. */
  ghost predicate FromCandidate(cs: seq<Candidate>, item: ResolvedItem) {
    exists j :: 0 <= j < |cs| && cs[j].kind == item.kind &&
        (item.kind == Episode ==> cs[j].primaryPath == item.primaryPath)
  }

  /** Every show among the first candidates has its row. */
  ghost predicate ShowsStored(imp: Importing, rows: seq<MediaItem>, cs: seq<Candidate>) {
    forall i :: 0 <= i < |cs| && cs[i].kind == Show ==> Lookup(rows, KeyOf(imp, cs[i])).Uuid?
  }

  /** Every accepted episode whose walk leads to a show of the whole list has its parent. */
  ghost predicate ParentsSound(imp: Importing, rows: seq<MediaItem>, all: seq<Candidate>, cs: seq<Candidate>,
                               items: seq<ResolvedItem>) {
    forall a :: 0 <= a < |items| ==>
      FromCandidate(cs, items[a]) &&
      (items[a].kind == Episode && IsShowAt(imp, all, ShowKey(imp, ShowRootOf(imp.fs, items[a].primaryPath))) ==>
         HasParent(imp, rows, items[a]))
  }

  lemma ParentPersists(imp: Importing, rows: seq<MediaItem>, rows': seq<MediaItem>, touched: Key, item: ResolvedItem)
    requires Touches(rows, rows', touched) && HasParent(imp, rows, item)
    requires touched != FileKey(imp, item.primaryPath, Episode)
    ensures HasParent(imp, rows', item)
  {
    var k, s :| ChildOf(imp, rows, item, k, s);
    assert SameIdentity(rows[s], rows'[s]) && rows'[k] == rows[k];
    assert ChildOf(imp, rows', item, k, s);
  }

  lemma NewParent(imp: Importing, rows: seq<MediaItem>, c: Candidate, item: ResolvedItem)
    requires Valid(rows) && ProperCandidate(c) && c.kind == Episode
    requires item.kind == Episode && item.primaryPath == c.primaryPath && Settled(imp, rows, c, item.mediaId)
    requires Lookup(rows, WalkKey(imp, c)).Uuid?
    ensures HasParent(imp, rows, item)
  {
    var k :| SettledAt(imp, rows, c, k) && rows[k].id == item.mediaId;
    var s := FirstHit(rows, WalkKey(imp, c));
    assert rows[k].parentId == ParentIn(imp, rows, c) == rows[s].id;
    assert ChildOf(imp, rows, item, k, s);
  }

  lemma ShowsStayStored(imp: Importing, rows: seq<MediaItem>, rows': seq<MediaItem>, touched: Key, cs: seq<Candidate>)
    requires Valid(rows) && Valid(rows') && Touches(rows, rows', touched) && ShowsStored(imp, rows, cs)
    ensures ShowsStored(imp, rows', cs)
  {
    forall i | 0 <= i < |cs| && cs[i].kind == Show
      ensures Lookup(rows', KeyOf(imp, cs[i])).Uuid?
    {
      LookupStable(rows, rows', touched, KeyOf(imp, cs[i]));
    }
  }

  lemma ParentsPersist(imp: Importing, rows: seq<MediaItem>, rows': seq<MediaItem>, all: seq<Candidate>, n: nat,
                       items: seq<ResolvedItem>)
    requires WellOrdered(imp, all) && n < |all| && Touches(rows, rows', KeyOf(imp, all[n]))
    requires ParentsSound(imp, rows, all, all[..n], items)
    ensures ParentsSound(imp, rows', all, all[..n+1], items)
  {
    forall a | 0 <= a < |items|
      ensures FromCandidate(all[..n+1], items[a])
      ensures items[a].kind == Episode && IsShowAt(imp, all, ShowKey(imp, ShowRootOf(imp.fs, items[a].primaryPath))) ==>
                HasParent(imp, rows', items[a])
    {
      var j :| 0 <= j < n && all[..n][j].kind == items[a].kind &&
          (items[a].kind == Episode ==> all[..n][j].primaryPath == items[a].primaryPath);
      assert all[..n+1][j] == all[j] == all[..n][j];
      if items[a].kind == Episode && HasParent(imp, rows, items[a]) {
        assert KeyOf(imp, all[j]) == FileKey(imp, items[a].primaryPath, Episode);
        ParentPersists(imp, rows, rows', KeyOf(imp, all[n]), items[a]);
      }
    }
  }

  /** The show an episode walks to was reconciled before it. */
  lemma WalkedShowStored(imp: Importing, rows: seq<MediaItem>, all: seq<Candidate>, n: nat)
    requires WellOrdered(imp, all) && n < |all| && all[n].kind == Episode
    requires ShowsStored(imp, rows, all[..n]) && IsShowAt(imp, all, WalkKey(imp, all[n]))
    ensures Lookup(rows, WalkKey(imp, all[n])).Uuid?
  {
    var i :| 0 <= i < |all| && KeyOf(imp, all[i]) == WalkKey(imp, all[n]);
    assert i < n && all[..n][i] == all[i];
  }

  /** What a resolved step reports about its candidate. */
  lemma StepReports(imp: Importing, store: Store, db: Db, c: Candidate)
    requires Reconcilable(c) && Step(imp, store, db, c).1.Resolved?
    ensures var item := Step(imp, store, db, c).1.item;
            item.kind == c.kind && item.candidateId == c.id && (c.kind != Show ==> item.primaryPath == c.primaryPath)
  {
  }

  /** The item of a resolved step is sound. */
  lemma NewItemSound(imp: Importing, store: Store, db: Db, all: seq<Candidate>, n: nat)
    requires Valid(db.rows) && LookupsOk(store) && imp.libraryId != "" && WellOrdered(imp, all) && n < |all|
    requires ShowsStored(imp, db.rows, all[..n]) && Step(imp, store, db, all[n]).1.Resolved?
    ensures var (db', r) := Step(imp, store, db, all[n]);
            && ParentsSound(imp, db'.rows, all, all[..n+1], [r.item])
            && (all[n].kind == Show ==> Lookup(db'.rows, KeyOf(imp, all[n])).Uuid?)
  {
    var c := all[n];
    var rows' := Step(imp, store, db, c).0.rows;
    var item := Step(imp, store, db, c).1.item;
    StepTouches(imp, store, db, c);
    var k := StepSettles(imp, store, db, c);
    StepReports(imp, store, db, c);
    assert all[..n+1][n] == c;
    assert FromCandidate(all[..n+1], item);
    if c.kind == Show {
      LookupIs(rows', KeyOf(imp, c), k);
    }
    if c.kind == Episode && IsShowAt(imp, all, WalkKey(imp, c)) {
      WalkedShowStored(imp, db.rows, all, n);
      LookupStable(db.rows, rows', KeyOf(imp, c), WalkKey(imp, c));
      assert Settled(imp, rows', c, item.mediaId);
      NewParent(imp, rows', c, item);
    }
  }

  lemma StepParents(imp: Importing, store: Store, db: Db, all: seq<Candidate>, n: nat, items: seq<ResolvedItem>)
    requires Valid(db.rows) && LookupsOk(store) && imp.libraryId != "" && WellOrdered(imp, all) && n < |all|
    requires ShowsStored(imp, db.rows, all[..n]) && ParentsSound(imp, db.rows, all, all[..n], items)
    requires all[n].kind == Show ==> Step(imp, store, db, all[n]).1.Resolved?
    ensures var (db', r) := Step(imp, store, db, all[n]);
            && Valid(db'.rows) && ShowsStored(imp, db'.rows, all[..n+1])
            && ParentsSound(imp, db'.rows, all, all[..n+1], if r.Resolved? then items + [r.item] else items)
  {
    var rows' := Step(imp, store, db, all[n]).0.rows;
    StepTouches(imp, store, db, all[n]);
    ShowsStayStored(imp, db.rows, rows', KeyOf(imp, all[n]), all[..n]);
    ParentsPersist(imp, db.rows, rows', all, n, items);
    if Step(imp, store, db, all[n]).1.Resolved? {
      NewItemSound(imp, store, db, all, n);
    }
    ShowsStoredSnoc(imp, rows', all, n);
  }

  lemma ShowsStoredSnoc(imp: Importing, rows: seq<MediaItem>, all: seq<Candidate>, n: nat)
    requires n < |all| && ShowsStored(imp, rows, all[..n])
    requires all[n].kind == Show ==> Lookup(rows, KeyOf(imp, all[n])).Uuid?
    ensures ShowsStored(imp, rows, all[..n+1])
  {
    var cs := all[..n+1];
    forall i | 0 <= i < |cs| && cs[i].kind == Show
      ensures Lookup(rows, KeyOf(imp, cs[i])).Uuid?
    {
      assert i < n ==> all[..n][i] == cs[i];
    }
  }

  lemma {:induction false} RunParents(imp: Importing, store: Store, db: Db, all: seq<Candidate>, n: nat, total: nat)
    requires Valid(db.rows) && LookupsOk(store) && imp.libraryId != "" && WellOrdered(imp, all) && n <= |all|
    requires NoShowRejected(Run(imp, store, db, all[..n], total).1)
    ensures var (db', r) := Run(imp, store, db, all[..n], total);
            Valid(db'.rows) && ShowsStored(imp, db'.rows, all[..n]) &&
                ParentsSound(imp, db'.rows, all, all[..n], r.accepted)
  {
    if n > 0 {
      assert all[..n][..n-1] == all[..n-1];
      var (db1, r1) := Run(imp, store, db, all[..n-1], total);
      var r := Run(imp, store, db, all[..n], total).1;
      assert r1.rejected <= r.rejected;
      RunParents(imp, store, db, all, n - 1, total);
      if Step(imp, store, db1, all[n-1]).1.Failed? {
        assert r.rejected[|r.rejected|-1].kind == all[n-1].kind;
      }
      StepParents(imp, store, db1, all, n - 1, r1.accepted);
    }
  }
}
