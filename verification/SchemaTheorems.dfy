// Whole imports into the shipped database.
module SchemaTheorems {
  import opened Base
  import opened Paths
  import opened FileSystem
  import opened ImportContext
  import opened Classify
  import opened Scan
  import opened ShowLinks
  import opened Catalogue
  import opened Reconcile
  import opened Reimport
  import opened StoredRows
  import opened Parents
  import opened ImportTheorems
  import opened Schema
  import opened SchemaReimport

  lemma ScanReconcilable(cfg: Settings, root: FSNode, next: nat)
    ensures var cs := Scanning(cfg, root, next).cands; forall j :: 0 <= j < |cs| ==> Reconcilable(cs[j])
  {
    TreeBookkept(cfg, root, ROOT_CTX, map[], next);
    var cs := Scanning(cfg, root, next).cands;
    assert forall j :: 0 <= j < |cs| ==> KnownKind(cs[j]);
  }

  /** What becomes of each candidate of an import. */
  function ImportVerdicts(cfg: Settings, providerId: string, store: Store, db: Db, root: FSNode): seq<Resolution> {
    ScanReconcilable(cfg, root, db.next);
    var o := Scanning(cfg, root, db.next);
    Verdicts(ImportingOf(cfg, providerId), store, db.(next := o.next), o.cands, |o.cands|)
  }

  lemma ScanDrawn(cfg: Settings, providerId: string, root: FSNode, next: nat)
    requires WellFormed(root)
    ensures var o := Scanning(cfg, root, next);
            Drawn(ImportingOf(cfg, providerId), o.cands, next) && o.next == next + |o.cands|
  {
    var cs := Scanning(cfg, root, next).cands;
    ScanWellOrdered(cfg, providerId, root, next);
    TreeBookkept(cfg, root, ROOT_CTX, map[], next);
    forall j | 0 <= j < |cs| && cs[j].kind == Episode
      ensures cs[j].showId.Uuid? && next <= cs[j].showId.n < next + j && cs[cs[j].showId.n - next].kind == Show
    {
      var i := EpisodeHasShow(cfg, root, next, j);
    }
  }

  /** What an import under the schema's constraints leaves behind, candidate by candidate. */
  lemma ImportFates(cfg: Settings, providerId: string, store: Store, db: Db, root: FSNode, permits: bool)
    requires WellFormed(root) && Sound(db.rows) && IdsBelow(db.rows, db.next) && cfg.libraryId != ""
    requires LookupsOk(store) && Enforces(store) && (permits ==> Permits(store))
    ensures var imp, o := ImportingOf(cfg, providerId), Scanning(cfg, root, db.next);
            var (db', r) := ImportTree(cfg, providerId, store, db, root);
            var vs := ImportVerdicts(cfg, providerId, store, db, root);
            && Sound(db'.rows) && NewRows(imp, db'.rows, o.cands, db.next, |db.rows|) && IdsBelow(db'.rows, db'.next)
            && Fates(imp, db'.rows, o.cands, vs, permits)
            && r.accepted == AcceptedItems(vs) && r.rejected == RejectedItems(o.cands, vs)
  {
    var imp, o := ImportingOf(cfg, providerId), Scanning(cfg, root, db.next);
    ScanDrawn(cfg, providerId, root, db.next);
    ScanReconcilable(cfg, root, db.next);
    RunFates(imp, store, db.(next := o.next), o.cands, |o.cands|, permits, db.next);
    ReportOf(imp, store, db.(next := o.next), o.cands, |o.cands|);
    NewRowsBelow(imp, ImportTree(cfg, providerId, store, db, root).0.rows, o.cands, db.next, |db.rows|);
    RunNext(imp, store, db.(next := o.next), o.cands, |o.cands|);
  }

  /** Importing the same tree into the shipped database again: whatever was rejected the first time, no row changes,
      update times aside, and a candidate is accepted, as an update of its row, exactly when it was accepted before and
      is not an episode whose walk leads to no show row. */
  lemma SecondImport(cfg: Settings, providerId: string, store1: Store, store2: Store, db: Db, root: FSNode)
    requires WellFormed(root) && Sound(db.rows) && IdsBelow(db.rows, db.next) && cfg.libraryId != ""
    requires Schematic(store1) && Schematic(store2)
    ensures var imp, cs := ImportingOf(cfg, providerId), Scanning(cfg, root, db.next).cands;
            var db1 := ImportTree(cfg, providerId, store1, db, root).0;
            && SameRows(db1.rows, ImportTree(cfg, providerId, store2, db1, root).0.rows)
            && AllAgain(imp, db1.rows, cs, ImportVerdicts(cfg, providerId, store1, db, root),
                        ImportVerdicts(cfg, providerId, store2, db1, root))
  {
    var imp := ImportingOf(cfg, providerId);
    var o1 := Scanning(cfg, root, db.next);
    var db1 := ImportTree(cfg, providerId, store1, db, root).0;
    var o2 := Scanning(cfg, root, db1.next);
    ImportFates(cfg, providerId, store1, db, root, true);
    RunNext(imp, store1, db.(next := o1.next), o1.cands, |o1.cands|);
    ScanDrawn(cfg, providerId, root, db.next);
    ScanDrawn(cfg, providerId, root, db1.next);
    RescanRedraws(cfg, root, db.next, db1.next);
    ScanReconcilable(cfg, root, db1.next);
    RunAgain(imp, store2, db1.rows, db1.(next := o2.next), o1.cands, o2.cands,
             ImportVerdicts(cfg, providerId, store1, db, root), |o2.cands|, db1.next);
  }

  // ---- Whose parents ----------------------------------------------------------------------------------------------

  /** A settled episode's parent is a row: the show its walk leads to, else the show of its own run. */
  lemma SettledParent(imp: Importing, rows: seq<MediaItem>, c: Candidate, id: Id) returns (k: nat, s: nat)
    requires Sound(rows) && ProperCandidate(c) && c.kind == Episode && Settled(imp, rows, c, id)
    ensures k < |rows| && s < |rows| && rows[k].id == id && RowKey(rows[k]) == FileKey(imp, c.primaryPath, Episode)
    ensures rows[k].parentId == rows[s].id
    ensures if Orphan(imp, rows, c) then rows[s].id == c.showId else RowKey(rows[s]) == WalkKey(imp, c)
  {
    k :| 0 <= k < |rows| && SettledAt(imp, rows, c, k) && rows[k].id == id;
    assert rows[k].parentId == ParentIn(imp, rows, c);
    if Orphan(imp, rows, c) {
      assert HasId(rows, rows[k].parentId);
      s :| 0 <= s < |rows| && rows[s].id == c.showId;
    } else {
      s := FirstHit(rows, WalkKey(imp, c));
    }
  }

  /** An orphan's parent row s, when it has one, is that of the show candidate i of its own run. */
  lemma OrphanParent(cfg: Settings, providerId: string, root: FSNode, next: nat, rows: seq<MediaItem>, j: nat, s: nat,
                     start: nat)
    returns (i: nat)
    requires WellFormed(root) && s < |rows|
    requires var imp, cs := ImportingOf(cfg, providerId), Scanning(cfg, root, next).cands;
             j < |cs| && cs[j].kind == Episode && NewRows(imp, rows, cs, next, start) && rows[s].id == cs[j].showId
    ensures var imp, cs := ImportingOf(cfg, providerId), Scanning(cfg, root, next).cands;
            && i < |cs| && Link(cfg.fs, cs, i, j) && RowKey(rows[s]) == ShowKey(imp, cs[i].rootPath)
            && (cs[i].rootPath == root.path || (Walkable(cs[i].rootPath) && Below(root.path, cs[i].rootPath)))
  {
    var imp, cs := ImportingOf(cfg, providerId), Scanning(cfg, root, next).cands;
    i := EpisodeHasShow(cfg, root, next, j);
    TreeBookkept(cfg, root, ROOT_CTX, map[], next);
    assert NewRowAt(imp, rows, cs, next, start, s);
  }

  /** An accepted episode's parent row is a show row of its library at its nearest show directory. */
  lemma SettledUnderNearest(cfg: Settings, providerId: string, root: FSNode, next: nat, rows: seq<MediaItem>, j: nat,
                            item: ResolvedItem, start: nat)
    requires WellFormed(root) && Sound(rows)
    requires var imp, cs := ImportingOf(cfg, providerId), Scanning(cfg, root, next).cands;
             && j < |cs| && cs[j].kind == Episode && NewRows(imp, rows, cs, next, start)
             && Settled(imp, rows, cs[j], item.mediaId) && item.primaryPath == cs[j].primaryPath
    ensures exists showRoot ::
              Nearest(cfg.fs, showRoot, item.primaryPath) && UnderNearestShow(cfg, rows, item, showRoot)
  {
    var imp, cs := ImportingOf(cfg, providerId), Scanning(cfg, root, next).cands;
    CandidateProper(cfg, root, next, j);
    TreeLinked(cfg, root, ROOT_CTX, map[], next);
    var k, s := SettledParent(imp, rows, cs[j], item.mediaId);
    if Orphan(imp, rows, cs[j]) {
      var i := OrphanParent(cfg, providerId, root, next, rows, j, s, start);
    } else {
      UpwardWalkSound(cfg.fs, cs[j].primaryPath);
    }
    assert rows[s].typ == Show;
    assert UnderNearestShow(cfg, rows, item, rows[s].rootPath);
  }

  lemma {:induction false} AcceptedItemFrom(vs: seq<Resolution>, a: nat) returns (j: nat)
    requires a < |AcceptedItems(vs)|
    ensures j < |vs| && vs[j] == Resolved(AcceptedItems(vs)[a])
  {
    if a < |AcceptedItems(vs[..|vs|-1])| {
      j := AcceptedItemFrom(vs[..|vs|-1], a);
    } else {
      j := |vs| - 1;
    }
  }

  lemma {:induction false} VerdictReports(imp: Importing, store: Store, db: Db, cs: seq<Candidate>, total: nat, j: nat)
    requires j < |cs| && forall i :: 0 <= i < |cs| ==> Reconcilable(cs[i])
    ensures var v := Verdicts(imp, store, db, cs, total)[j];
            v.Resolved? ==>
              v.item.kind == cs[j].kind && (cs[j].kind != Show ==> v.item.primaryPath == cs[j].primaryPath)
    decreases |cs|
  {
    VerdictsPrefix(imp, store, db, cs, total);
    var n := |cs| - 1;
    if j == n {
      if Verdicts(imp, store, db, cs, total)[j].Resolved? {
        StepReports(imp, store, Run(imp, store, db, cs[..n], total).0, cs[n]);
      }
    } else {
      VerdictReports(imp, store, db, cs[..n], total, j);
      assert Verdicts(imp, store, db, cs, total)[..n][j] == Verdicts(imp, store, db, cs, total)[j];
    }
  }

  /** Under the schema's constraints every accepted episode hangs under the show row of its nearest show directory,
      wherever that is and whatever else is rejected; a lookup that errs is the only excuse. */
  lemma AcceptedEpisodesHaveParents(cfg: Settings, providerId: string, store: Store, db: Db, root: FSNode, a: nat)
    requires WellFormed(root) && Sound(db.rows) && IdsBelow(db.rows, db.next) && cfg.libraryId != ""
    requires LookupsOk(store) && Enforces(store)
    requires var r := ImportTree(cfg, providerId, store, db, root).1; a < |r.accepted| && r.accepted[a].kind == Episode
    ensures var (db', r) := ImportTree(cfg, providerId, store, db, root);
            exists showRoot :: Nearest(cfg.fs, showRoot, r.accepted[a].primaryPath) &&
              UnderNearestShow(cfg, db'.rows, r.accepted[a], showRoot)
  {
    var imp, o := ImportingOf(cfg, providerId), Scanning(cfg, root, db.next);
    var vs := ImportVerdicts(cfg, providerId, store, db, root);
    var (db', r) := ImportTree(cfg, providerId, store, db, root);
    ImportFates(cfg, providerId, store, db, root, false);
    ScanReconcilable(cfg, root, db.next);
    var j := AcceptedItemFrom(vs, a);
    VerdictReports(imp, store, db.(next := o.next), o.cands, |o.cands|, j);
    assert Fate(imp, db'.rows, o.cands[j], vs[j], false);
    SettledUnderNearest(cfg, providerId, root, db.next, db'.rows, j, r.accepted[a], |db.rows|);
  }

  /** The row of an accepted item: a candidate of the tree, stored in the library imported with the columns that it and
      the files give. */
  ghost predicate Imported(cfg: Settings, providerId: string, cs: seq<Candidate>, rows: seq<MediaItem>,
                           item: ResolvedItem, j: int, k: int)
  {
    && 0 <= j < |cs| && 0 <= k < |rows| && rows[k].id == item.mediaId && item.kind == cs[j].kind
    && ColumnsOf(Importing(cfg.fs, cfg.libraryId, providerId), rows[k], cs[j])
  }

  /** At the end of an import into the shipped database every accepted item has its row. */
  lemma AcceptedAreImported(cfg: Settings, providerId: string, store: Store, db: Db, root: FSNode, a: nat)
    requires WellFormed(root) && Sound(db.rows) && IdsBelow(db.rows, db.next) && cfg.libraryId != ""
    requires LookupsOk(store) && Enforces(store) && a < |ImportTree(cfg, providerId, store, db, root).1.accepted|
    ensures var (db', r) := ImportTree(cfg, providerId, store, db, root);
            exists j, k :: Imported(cfg, providerId, Scanning(cfg, root, db.next).cands, db'.rows, r.accepted[a], j, k)
  {
    var imp, o := ImportingOf(cfg, providerId), Scanning(cfg, root, db.next);
    var vs := ImportVerdicts(cfg, providerId, store, db, root);
    var (db', r) := ImportTree(cfg, providerId, store, db, root);
    ImportFates(cfg, providerId, store, db, root, false);
    ScanReconcilable(cfg, root, db.next);
    var j := AcceptedItemFrom(vs, a);
    VerdictReports(imp, store, db.(next := o.next), o.cands, |o.cands|, j);
    assert Fate(imp, db'.rows, o.cands[j], vs[j], false);
    CandidateProper(cfg, root, db.next, j);
    var k := SettledColumns(imp, db'.rows, o.cands[j], r.accepted[a].mediaId);
    assert Imported(cfg, providerId, o.cands, db'.rows, r.accepted[a], j, k);
  }

  // ---- The orphans ------------------------------------------------------------------------------------------------

  /** An accepted episode is an orphan only when its show is at a source root that the upward walk cannot return. */
  lemma {:induction false} OrphanAtRoot(cfg: Settings, providerId: string, root: FSNode, next: nat,
                                        rows: seq<MediaItem>, j: nat, id: Id, start: nat)
    requires WellFormed(root) && Sound(rows)
    requires var imp, cs := ImportingOf(cfg, providerId), Scanning(cfg, root, next).cands;
             && j < |cs| && NewRows(imp, rows, cs, next, start)
             && Settled(imp, rows, cs[j], id) && Orphan(imp, rows, cs[j])
    ensures !Walkable(root.path) && Nearest(cfg.fs, root.path, Scanning(cfg, root, next).cands[j].primaryPath)
  {
    var imp, cs := ImportingOf(cfg, providerId), Scanning(cfg, root, next).cands;
    CandidateProper(cfg, root, next, j);
    TreeLinked(cfg, root, ROOT_CTX, map[], next);
    var k, s := SettledParent(imp, rows, cs[j], id);
    var i := OrphanParent(cfg, providerId, root, next, rows, j, s, start);
    if Walkable(cs[i].rootPath) {
      WalkableShowKnown(cfg, providerId, root, next, i, j);
      FilesMakeKeys(rows);
      LookupIs(rows, WalkKey(imp, cs[j]), s);
    }
  }

  lemma {:induction false} SameVerdictsSameReport(cs1: seq<Candidate>, cs2: seq<Candidate>, vs1: seq<Resolution>,
                                                  vs2: seq<Resolution>)
    requires |cs1| == |cs2| == |vs1| == |vs2|
    requires forall j :: 0 <= j < |cs1| ==> Erase(cs1[j]) == Erase(cs2[j])
    requires forall j :: 0 <= j < |cs1| ==> (vs1[j].Resolved? <==> vs2[j].Resolved?)
    requires forall j :: 0 <= j < |cs1| ==> if vs1[j].Resolved? then UpdatedAs(vs2[j].item, vs1[j].item.mediaId)
             else vs1[j] == vs2[j]
    ensures RejectedItems(cs1, vs1) == RejectedItems(cs2, vs2)
    ensures AllUpdated(AcceptedItems(vs2), MediaIds(AcceptedItems(vs1)))
  {
    if cs1 != [] {
      var n := |cs1| - 1;
      SameVerdictsSameReport(cs1[..n], cs2[..n], vs1[..n], vs2[..n]);
      assert Erase(cs1[n]) == Erase(cs2[n]);
      if vs1[n].Resolved? {
        MediaIdsOneMore(AcceptedItems(vs1[..n]), vs1[n].item);
        AllUpdatedOneMore(AcceptedItems(vs2[..n]), vs2[n].item, MediaIds(AcceptedItems(vs1)));
      }
    }
  }

  lemma {:induction false} FailedReason(imp: Importing, store: Store, db: Db, cs: seq<Candidate>, total: nat, j: nat)
    requires j < |cs| && (forall i :: 0 <= i < |cs| ==> Reconcilable(cs[i])) && forall i :: 0 <= i < |cs| ==>
               ProperCandidate(cs[i])
    ensures var v := Verdicts(imp, store, db, cs, total)[j]; v.Failed? ==> v.reason == WriteFailed
    decreases |cs|
  {
    VerdictsPrefix(imp, store, db, cs, total);
    var n := |cs| - 1;
    if j < n {
      assert forall i :: 0 <= i < n ==> cs[..n][i] == cs[i];
      FailedReason(imp, store, db, cs[..n], total, j);
      assert Verdicts(imp, store, db, cs, total)[..n][j] == Verdicts(imp, store, db, cs, total)[j];
    }
  }

  /** From a source root the upward walk can return, a second import into the shipped database repeats the first: the
      same candidates are rejected for the same reasons, the others are accepted as updates of their rows, and no row
      changes, update times aside. Nothing is assumed of how the first import went. */
  lemma SecondImportRepeats(cfg: Settings, providerId: string, store1: Store, store2: Store, db: Db, root: FSNode)
    requires WellFormed(root) && Walkable(root.path) && Sound(db.rows) && IdsBelow(db.rows, db.next) &&
             cfg.libraryId != ""
    requires Schematic(store1) && Schematic(store2)
    ensures var (db1, r1) := ImportTree(cfg, providerId, store1, db, root);
            var (db2, r2) := ImportTree(cfg, providerId, store2, db1, root);
            && SameRows(db1.rows, db2.rows) && r2.rejected == r1.rejected && r2.unknown == r1.unknown == []
            && AllUpdated(r2.accepted, MediaIds(r1.accepted))
  {
    var imp := ImportingOf(cfg, providerId);
    var cs1 := Scanning(cfg, root, db.next).cands;
    var (db1, r1) := ImportTree(cfg, providerId, store1, db, root);
    var cs2 := Scanning(cfg, root, db1.next).cands;
    var vs1 := ImportVerdicts(cfg, providerId, store1, db, root);
    var vs2 := ImportVerdicts(cfg, providerId, store2, db1, root);
    SecondImport(cfg, providerId, store1, store2, db, root);
    ImportFates(cfg, providerId, store1, db, root, true);
    SecondReport(cfg, providerId, store2, db1, root);
    ImportCounts(cfg, providerId, store1, db, root);
    ImportCounts(cfg, providerId, store2, db1, root);
    RescanErases(cfg, root, db.next, db1.next);
    forall j | 0 <= j < |cs1|
      ensures if vs1[j].Resolved? then vs2[j].Resolved? && UpdatedAs(vs2[j].item, vs1[j].item.mediaId)
              else vs1[j] == vs2[j]
    {
      assert Again(imp, db1.rows, cs1[j], vs1[j], vs2[j]) && Fate(imp, db1.rows, cs1[j], vs1[j], true);
      if vs1[j].Resolved? {
        if Orphan(imp, db1.rows, cs1[j]) {
          OrphanAtRoot(cfg, providerId, root, db.next, db1.rows, j, vs1[j].item.mediaId, |db.rows|);
        }
      } else {
        VerdictReason(cfg, providerId, store1, db, root, j);
        VerdictReason(cfg, providerId, store2, db1, root, j);
      }
    }
    SameVerdictsSameReport(cs1, cs2, vs1, vs2);
  }

  lemma RescanErases(cfg: Settings, root: FSNode, n1: nat, n2: nat)
    requires WellFormed(root)
    ensures var cs1, cs2 := Scanning(cfg, root, n1).cands, Scanning(cfg, root, n2).cands;
            |cs1| == |cs2| && forall j :: 0 <= j < |cs1| ==> Erase(cs1[j]) == Erase(cs2[j])
  {
    ClaimsChangeNothing(cfg, root, n1);
    ClaimsChangeNothing(cfg, root, n2);
    SameErased(Scanning(cfg, root, n1).cands, Scanning(cfg, root, n2).cands);
  }

  lemma SameErased(a: seq<Candidate>, b: seq<Candidate>)
    requires EraseAll(a) == EraseAll(b)
    ensures |a| == |b| && forall j :: 0 <= j < |a| ==> Erase(a[j]) == Erase(b[j])
  {
    assert |EraseAll(a)| == |a| && |EraseAll(b)| == |b|;
    forall j | 0 <= j < |a|
      ensures Erase(a[j]) == Erase(b[j])
    {
      assert EraseAll(a)[j] == Erase(a[j]) && EraseAll(b)[j] == Erase(b[j]);
    }
  }

  lemma SecondReport(cfg: Settings, providerId: string, store: Store, db: Db, root: FSNode)
    ensures var r, vs := ImportTree(cfg, providerId, store, db, root).1,
                ImportVerdicts(cfg, providerId, store, db, root);
            r.accepted == AcceptedItems(vs) && r.rejected == RejectedItems(Scanning(cfg, root, db.next).cands, vs)
  {
    var o := Scanning(cfg, root, db.next);
    ScanReconcilable(cfg, root, db.next);
    ReportOf(ImportingOf(cfg, providerId), store, db.(next := o.next), o.cands, |o.cands|);
  }

  lemma VerdictReason(cfg: Settings, providerId: string, store: Store, db: Db, root: FSNode, j: nat)
    requires WellFormed(root) && j < |Scanning(cfg, root, db.next).cands|
    ensures var v := ImportVerdicts(cfg, providerId, store, db, root)[j]; v.Failed? ==> v.reason == WriteFailed
  {
    var o := Scanning(cfg, root, db.next);
    forall i | 0 <= i < |o.cands|
      ensures ProperCandidate(o.cands[i])
    {
      CandidateProper(cfg, root, db.next, i);
    }
    ScanReconcilable(cfg, root, db.next);
    FailedReason(ImportingOf(cfg, providerId), store, db.(next := o.next), o.cands, |o.cands|, j);
  }
}
