// The stages together: what a whole import of a directory tree does to the catalogue.
module ImportTheorems {
  import opened Base
  import opened Paths
  import opened FileSystem
  import opened Snapshot
  import opened ImportContext
  import opened Classify
  import opened Visits
  import opened Separation
  import opened Scan
  import opened ShowLinks
  import opened Catalogue
  import opened Reconcile
  import opened CatalogueKeys
  import opened Reimport
  import opened Parents

  /** The reconciler of the importer that classified with cfg. */
  function ImportingOf(cfg: Settings, providerId: string): Importing {
    Importing(cfg.fs, cfg.libraryId, providerId)
  }

  /** Stages 2 to 4 on a snapshot: the identifiers drawn by the classifier come before those of the repository. */
  function ImportTree(cfg: Settings, providerId: string, store: Store, db: Db, root: FSNode): (Db, Report) {
    var o := Scanning(cfg, root, db.next);
    RunAll(ImportingOf(cfg, providerId), store, db.(next := o.next), o.cands)
  }

  lemma CandidateProper(cfg: Settings, root: FSNode, next: nat, i: nat)
    requires WellFormed(root) && i < |Scanning(cfg, root, next).cands|
    ensures ProperCandidate(Scanning(cfg, root, next).cands[i])
  {
    var vs := VisitsOf(cfg, root, ROOT_CTX);
    var cs := Scanning(cfg, root, next).cands;
    TreeRefines(cfg, root, ROOT_CTX, map[], next);
    TreeBookkept(cfg, root, ROOT_CTX, map[], next);
    VisitedWellFormed(cfg, root, ROOT_CTX);
    var src := CandOrigins(cfg, vs);
    assert Erase(cs[i]) == EraseAll(cs)[i] == Cands(cfg, vs)[i];
    EmitPlaces(cfg, vs[src[i]]);
    if cs[i].kind == Episode {
      DownwardContextIsUpwardWalk(cfg, root, next, i);
      TreeLinked(cfg, root, ROOT_CTX, map[], next);
    }
  }

  /** The classifier's candidate lists have distinct keys and put every show before its episodes. */
  lemma ScanWellOrdered(cfg: Settings, providerId: string, root: FSNode, next: nat)
    requires WellFormed(root)
    ensures WellOrdered(ImportingOf(cfg, providerId), Scanning(cfg, root, next).cands)
  {
    var imp := ImportingOf(cfg, providerId);
    var cs := Scanning(cfg, root, next).cands;
    forall i | 0 <= i < |cs|
      ensures ProperCandidate(cs[i])
    {
      CandidateProper(cfg, root, next, i);
    }
    KeysAndRootsDistinct(cfg, root, next);
    forall i, j | 0 <= i < |cs| && 0 <= j < |cs| && cs[j].kind == Episode && KeyOf(imp, cs[i]) == WalkKey(imp, cs[j])
      ensures i < j
    {
      ShowPrecedes(cfg, providerId, root, next, i, j);
    }
  }

  lemma ShowPrecedes(cfg: Settings, providerId: string, root: FSNode, next: nat, i: nat, j: nat)
    requires WellFormed(root)
    requires var cs := Scanning(cfg, root, next).cands; i < |cs| && j < |cs| && cs[j].kind == Episode
    requires var imp, cs := ImportingOf(cfg, providerId), Scanning(cfg, root, next).cands;
             KeyOf(imp, cs[i]) == WalkKey(imp, cs[j])
    ensures i < j
  {
    var cs := Scanning(cfg, root, next).cands;
    TreeLinked(cfg, root, ROOT_CTX, map[], next);
    var l :| 0 <= l < |cs| && Link(cfg.fs, cs, l, j);
    UpwardWalkFindsNearest(cfg.fs, cs[l].rootPath, cs[j].primaryPath);
    CandidateProper(cfg, root, next, i);
    KeysAndRootsDistinct(cfg, root, next);
    assert cs[i].rootPath == Clean(cs[l].rootPath);
    assert i == l;
  }

  /** A later scan of the same snapshot finds the same candidates under other identifiers. */
  lemma RescanRedraws(cfg: Settings, root: FSNode, n1: nat, n2: nat)
    requires WellFormed(root) && Scanning(cfg, root, n1).next <= n2
    ensures Redrawn(Scanning(cfg, root, n1).cands, Scanning(cfg, root, n2).cands)
  {
    var cs1, cs2 := Scanning(cfg, root, n1).cands, Scanning(cfg, root, n2).cands;
    TreeRefines(cfg, root, ROOT_CTX, map[], n1);
    TreeRefines(cfg, root, ROOT_CTX, map[], n2);
    assert |EraseAll(cs1)| == |EraseAll(cs2)|;
    forall j | 0 <= j < |cs1|
      ensures Erase(cs1[j]) == Erase(cs2[j]) && (cs1[j].kind == Episode ==> cs1[j].showId != cs2[j].showId)
    {
      assert Erase(cs1[j]) == EraseAll(cs1)[j] && Erase(cs2[j]) == EraseAll(cs2)[j];
      if cs1[j].kind == Episode {
        ShowIdRange(cfg, root, n1, j);
        ShowIdRange(cfg, root, n2, j);
      }
    }
  }

  lemma ShowIdRange(cfg: Settings, root: FSNode, next: nat, j: nat)
    requires WellFormed(root) && j < |Scanning(cfg, root, next).cands| &&
             Scanning(cfg, root, next).cands[j].kind == Episode
    ensures var o := Scanning(cfg, root, next); o.cands[j].showId.Uuid? && next <= o.cands[j].showId.n < o.next
  {
    var cs := Scanning(cfg, root, next).cands;
    TreeLinked(cfg, root, ROOT_CTX, map[], next);
    TreeBookkept(cfg, root, ROOT_CTX, map[], next);
    var l :| 0 <= l < |cs| && Link(cfg.fs, cs, l, j);
  }

  /** The identifiers an import may draw later are above those drawn so far. */
  lemma {:induction false} RunNext(imp: Importing, store: Store, db: Db, cs: seq<Candidate>, total: nat)
    ensures db.next <= Run(imp, store, db, cs, total).0.next
  {
    if cs != [] {
      RunNext(imp, store, db, cs[..|cs|-1], total);
    }
  }

  /** Re-import is idempotent exactly when every episode's upward walk leads to a show row: after an import in which
      nothing failed, importing the same tree again, on a store that accepts rewrites, accepts every candidate as an
      update of the same row and leaves every row as it was, update times aside, if and only if that condition held. */
  lemma ReimportIdempotentIff(cfg: Settings, providerId: string, store1: Store, store2: Store, db: Db, root: FSNode)
    requires WellFormed(root) && Valid(db.rows) && cfg.libraryId != "" && LookupsOk(store1) && LookupsOk(store2)
    requires ImportTree(cfg, providerId, store1, db, root).1.rejected == []
    requires AcceptsRewrites(store2, ImportTree(cfg, providerId, store1, db, root).0.rows)
    ensures var (db1, r1) := ImportTree(cfg, providerId, store1, db, root);
            var (db2, r2) := ImportTree(cfg, providerId, store2, db1, root);
            NothingChanged(db1.rows, r1, db2.rows, r2) <==>
            ShowsKnown(ImportingOf(cfg, providerId), db.rows, Scanning(cfg, root, db.next).cands)
  {
    var imp := ImportingOf(cfg, providerId);
    var o1 := Scanning(cfg, root, db.next);
    var db1 := ImportTree(cfg, providerId, store1, db, root).0;
    RunNext(imp, store1, db.(next := o1.next), o1.cands, |o1.cands|);
    var o2 := Scanning(cfg, root, db1.next);
    ScanWellOrdered(cfg, providerId, root, db.next);
    ScanWellOrdered(cfg, providerId, root, db1.next);
    RescanRedraws(cfg, root, db.next, db1.next);
    ReimportIff(imp, store1, store2, db.(next := o1.next), db1.tick, o2.next, o1.cands, o2.cands);
    assert db1.(next := o2.next) == Db(db1.rows, db1.tick, o2.next);
  }

  // ---- The source root ----------------------------------------------------------------------------------------

  lemma {:induction false} VisitedBelow(cfg: Settings, node: FSNode, ctx: Ctx)
    requires WellFormed(node)
    ensures forall i :: 0 <= i < |VisitsOf(cfg, node, ctx)| ==>
              AtOrCleanBelow(node.path, VisitsOf(cfg, node, ctx)[i].node.path)
    decreases node, |node.children| + 1
  {
    if node.isDir {
      var role := RoleOf(cfg, node, ctx);
      if Descends(cfg, node, role) {
        KidsVisitedBelow(cfg, node, |node.children|, TakesVideos(role), KidCtx(role, node, ctx, NoId));
      }
    }
  }

  predicate AtOrCleanBelow(p: Path, q: Path) {
    q == p || (Below(p, q) && q.typed == "")
  }

  lemma {:induction false} KidsVisitedBelow(cfg: Settings, node: FSNode, i: nat, videos: bool, ctx: Ctx)
    requires WellFormed(node) && i <= |node.children|
    ensures forall k :: 0 <= k < |KidVisits(cfg, node, i, videos, ctx)| ==>
              AtOrCleanBelow(node.path, KidVisits(cfg, node, i, videos, ctx)[k].node.path)
    decreases node, i
  {
    if i > 0 {
      KidsVisitedBelow(cfg, node, i - 1, videos, ctx);
      var child := node.children[i-1];
      assert Placed(node, child);
      if child.isDir {
        VisitedBelow(cfg, child, ctx);
        var vs := VisitsOf(cfg, child, ctx);
        forall k | 0 <= k < |vs|
          ensures AtOrCleanBelow(node.path, vs[k].node.path)
        {
          assert AtOrCleanBelow(child.path, vs[k].node.path);
          InTrans(node.path, child.path, vs[k].node.path);
        }
      }
    }
  }

  /** Only the source directory itself can be a show root that the upward walk misses. */
  lemma ShowRootsWalkable(cfg: Settings, root: FSNode, next: nat, i: nat)
    requires WellFormed(root) && i < |Scanning(cfg, root, next).cands| &&
             Scanning(cfg, root, next).cands[i].kind == Show
    ensures var c := Scanning(cfg, root, next).cands[i];
            c.rootPath == root.path || (Walkable(c.rootPath) && Below(root.path, c.rootPath))
  {
    var vs := VisitsOf(cfg, root, ROOT_CTX);
    var cs := Scanning(cfg, root, next).cands;
    TreeRefines(cfg, root, ROOT_CTX, map[], next);
    VisitedWellFormed(cfg, root, ROOT_CTX);
    VisitedBelow(cfg, root, ROOT_CTX);
    var src := CandOrigins(cfg, vs);
    assert Erase(cs[i]) == EraseAll(cs)[i] == Cands(cfg, vs)[i];
    EmitPlaces(cfg, vs[src[i]]);
    assert AtOrCleanBelow(root.path, vs[src[i]].node.path);
  }

  /** An episode whose nearest show root is walkable finds that show in its own import. */
  lemma WalkableShowKnown(cfg: Settings, providerId: string, root: FSNode, next: nat, i: nat, j: nat)
    requires var cs := Scanning(cfg, root, next).cands;
             i < |cs| && j < |cs| && Link(cfg.fs, cs, i, j) && Walkable(cs[i].rootPath)
    requires var cs := Scanning(cfg, root, next).cands;
             cs[j].kind == Episode && cs[j].primaryPath.Path? && cs[j].primaryPath.typed == ""
    ensures var cs := Scanning(cfg, root, next).cands;
            var imp := ImportingOf(cfg, providerId);
            WalkKey(imp, cs[j]) == ShowKey(imp, cs[i].rootPath) && IsShowAt(imp, cs, WalkKey(imp, cs[j]))
  {
    var imp := ImportingOf(cfg, providerId);
    var cs := Scanning(cfg, root, next).cands;
    UpwardWalkFindsNearest(cfg.fs, cs[i].rootPath, cs[j].primaryPath);
    assert KeyOf(imp, cs[i]) == WalkKey(imp, cs[j]);
  }

  /** From a source path that is clean and neither "/" nor ".", re-import is idempotent. */
  lemma ReimportIdempotent(cfg: Settings, providerId: string, store1: Store, store2: Store, db: Db, root: FSNode)
    requires WellFormed(root) && Walkable(root.path)
    requires Valid(db.rows) && cfg.libraryId != "" && LookupsOk(store1) && LookupsOk(store2)
    requires ImportTree(cfg, providerId, store1, db, root).1.rejected == []
    requires AcceptsRewrites(store2, ImportTree(cfg, providerId, store1, db, root).0.rows)
    ensures var (db1, r1) := ImportTree(cfg, providerId, store1, db, root);
            var (db2, r2) := ImportTree(cfg, providerId, store2, db1, root);
            NothingChanged(db1.rows, r1, db2.rows, r2)
  {
    var imp := ImportingOf(cfg, providerId);
    var cs := Scanning(cfg, root, db.next).cands;
    forall j | 0 <= j < |cs| && cs[j].kind == Episode
      ensures IsShowAt(imp, cs, WalkKey(imp, cs[j]))
    {
      TreeLinked(cfg, root, ROOT_CTX, map[], db.next);
      var i :| 0 <= i < |cs| && Link(cfg.fs, cs, i, j);
      ShowRootsWalkable(cfg, root, db.next, i);
      WalkableShowKnown(cfg, providerId, root, db.next, i, j);
    }
    ReimportIdempotentIff(cfg, providerId, store1, store2, db, root);
  }

  /** An accepted episode's row hangs under the row of its nearest show. */
  ghost predicate UnderNearestShow(cfg: Settings, rows: seq<MediaItem>, item: ResolvedItem, showRoot: Path) {
    exists k, s :: 0 <= k < |rows| && 0 <= s < |rows|
      && rows[k].id == item.mediaId && rows[k].typ == Episode && rows[k].libraryId == cfg.libraryId
      && rows[k].filePath == item.primaryPath && rows[k].parentId == rows[s].id
      && rows[s].typ == Show && rows[s].libraryId == cfg.libraryId && rows[s].rootPath == showRoot
  }

  /** Every episode of a scan has a nearest show directory: the source directory or one below it. */
  lemma EpisodeHasShow(cfg: Settings, root: FSNode, next: nat, j: nat) returns (i: nat)
    requires WellFormed(root) && j < |Scanning(cfg, root, next).cands| &&
             Scanning(cfg, root, next).cands[j].kind == Episode
    ensures var cs := Scanning(cfg, root, next).cands;
            && i < |cs| && Link(cfg.fs, cs, i, j)
            && (cs[i].rootPath == root.path || (Walkable(cs[i].rootPath) && Below(root.path, cs[i].rootPath)))
  {
    var cs := Scanning(cfg, root, next).cands;
    TreeLinked(cfg, root, ROOT_CTX, map[], next);
    i :| 0 <= i < |cs| && Link(cfg.fs, cs, i, j);
    ShowRootsWalkable(cfg, root, next, i);
  }

  /** A show directory as this scan spells it: the source path as given, any other path clean. */
  predicate AsScanned(root: FSNode, showRoot: Path) {
    showRoot == root.path || (Below(root.path, showRoot) && showRoot.typed == "")
  }

  /** The show a scan links an episode to is the one at its nearest show directory, spelled as in this scan. */
  lemma LinkedIsNearest(cfg: Settings, root: FSNode, next: nat, i: nat, j: nat, showRoot: Path)
    requires WellFormed(root)
    requires var cs := Scanning(cfg, root, next).cands; i < |cs| && j < |cs| && Link(cfg.fs, cs, i, j)
    requires Nearest(cfg.fs, showRoot, Scanning(cfg, root, next).cands[j].primaryPath) && AsScanned(root, showRoot)
    ensures Scanning(cfg, root, next).cands[i].rootPath == showRoot
  {
    var cs := Scanning(cfg, root, next).cands;
    ShowRootsWalkable(cfg, root, next, i);
    NearestUnique(cfg.fs, cs[i].rootPath, showRoot, cs[j].primaryPath);
  }

  /** Parent integrity, on first import and re-import alike: when no lookup errs and no show is rejected, every accepted
      episode hangs under the show row of the nearest directory above it with a tvshow.nfo, if the upward walk can
      return that directory. */
  lemma ParentIntegrity(cfg: Settings, providerId: string, store: Store, db: Db, root: FSNode, a: nat, showRoot: Path)
    requires WellFormed(root) && Valid(db.rows) && cfg.libraryId != "" && LookupsOk(store)
    requires NoShowRejected(ImportTree(cfg, providerId, store, db, root).1)
    requires var r := ImportTree(cfg, providerId, store, db, root).1; a < |r.accepted| && r.accepted[a].kind == Episode
    requires Nearest(cfg.fs, showRoot, ImportTree(cfg, providerId, store, db, root).1.accepted[a].primaryPath)
    requires Walkable(showRoot) && AsScanned(root, showRoot)
    ensures var (db', r) := ImportTree(cfg, providerId, store, db, root);
            UnderNearestShow(cfg, db'.rows, r.accepted[a], showRoot)
  {
    var imp := ImportingOf(cfg, providerId);
    var o := Scanning(cfg, root, db.next);
    var cs := o.cands;
    var db0 := db.(next := o.next);
    ScanWellOrdered(cfg, providerId, root, db.next);
    assert cs[..|cs|] == cs;
    RunParents(imp, store, db0, cs, |cs|, |cs|);
    var (db', r) := ImportTree(cfg, providerId, store, db, root);
    assert FromCandidate(cs, r.accepted[a]);
    SoundUnderNearest(cfg, providerId, root, db.next, db'.rows, r.accepted[a], showRoot);
  }

  lemma SoundUnderNearest(cfg: Settings, providerId: string, root: FSNode, next: nat, rows: seq<MediaItem>,
                          item: ResolvedItem,
                          showRoot: Path)
    requires WellFormed(root) && item.kind == Episode && FromCandidate(Scanning(cfg, root, next).cands, item)
    requires Nearest(cfg.fs, showRoot, item.primaryPath) && Walkable(showRoot) && AsScanned(root, showRoot)
    requires var imp, cs := ImportingOf(cfg, providerId), Scanning(cfg, root, next).cands;
             IsShowAt(imp, cs, ShowKey(imp, ShowRootOf(imp.fs, item.primaryPath))) ==> HasParent(imp, rows, item)
    ensures UnderNearestShow(cfg, rows, item, showRoot)
  {
    var cs := Scanning(cfg, root, next).cands;
    var j :| 0 <= j < |cs| && cs[j].kind == item.kind &&
        (item.kind == Episode ==> cs[j].primaryPath == item.primaryPath);
    var i := EpisodeHasShow(cfg, root, next, j);
    LinkedIsNearest(cfg, root, next, i, j, showRoot);
    CandidateProper(cfg, root, next, j);
    TreeLinked(cfg, root, ROOT_CTX, map[], next);
    WalkableShowKnown(cfg, providerId, root, next, i, j);
    ParentIsNearest(cfg, ImportingOf(cfg, providerId), rows, item, showRoot);
  }

  lemma ParentIsNearest(cfg: Settings, imp: Importing, rows: seq<MediaItem>, item: ResolvedItem, showRoot: Path)
    requires imp.fs == cfg.fs && imp.libraryId == cfg.libraryId && HasParent(imp, rows, item)
    requires ShowRootOf(imp.fs, item.primaryPath) == showRoot
    ensures UnderNearestShow(cfg, rows, item, showRoot)
  {
    var k, s :| ChildOf(imp, rows, item, k, s);
    assert rows[k].typ == Episode && rows[s].typ == Show;
  }

  /** Import conserves counts: for the classifier's candidates nothing is unknown. */
  lemma ImportCounts(cfg: Settings, providerId: string, store: Store, db: Db, root: FSNode)
    ensures var r := ImportTree(cfg, providerId, store, db, root).1;
            r.unknown == [] && |r.accepted| + |r.rejected| == r.done == r.total == |Scanning(cfg, root, db.next).cands|
  {
    var o := Scanning(cfg, root, db.next);
    TreeBookkept(cfg, root, ROOT_CTX, map[], db.next);
    assert forall i :: 0 <= i < |o.cands| ==> KnownKind(o.cands[i]);
    CountsConserved(ImportingOf(cfg, providerId), store, db.(next := o.next), o.cands, |o.cands|);
  }

  /** From the filesystem itself: importing a readable directory twice, from a clean source path other than "/" and ".",
      on a filesystem that stays the same and repeats no name in a directory. */
  lemma ReimportDirectory(cfg: Settings, providerId: string, store1: Store, store2: Store, db: Db, sourcePath: Path,
                          depth: nat)
    requires Finite(cfg.fs, sourcePath, depth) && Snap(cfg.fs, sourcePath, depth).Some?
    requires DistinctNames(cfg.fs) && Walkable(sourcePath)
    requires Valid(db.rows) && cfg.libraryId != "" && LookupsOk(store1) && LookupsOk(store2)
    requires ImportTree(cfg, providerId, store1, db, Snap(cfg.fs, sourcePath, depth).value).1.rejected == []
    requires AcceptsRewrites(store2,
                 ImportTree(cfg, providerId, store1, db, Snap(cfg.fs, sourcePath, depth).value).0.rows)
    ensures var root := Snap(cfg.fs, sourcePath, depth).value;
            var (db1, r1) := ImportTree(cfg, providerId, store1, db, root);
            var (db2, r2) := ImportTree(cfg, providerId, store2, db1, root);
            NothingChanged(db1.rows, r1, db2.rows, r2)
  {
    SnapshotWellFormed(cfg.fs, sourcePath, depth);
    ReimportIdempotent(cfg, providerId, store1, store2, db, Snap(cfg.fs, sourcePath, depth).value);
  }
}
