// The first import of a library: when it accepts everything, and from which source roots it can be repeated.
module FirstImport {
  import opened Base
  import opened Paths
  import opened Names
  import opened FileSystem
  import opened Snapshot
  import opened ImportContext
  import opened Classify
  import opened Visits
  import opened Separation
  import opened Scan
  import opened ShowLinks
  import opened Catalogue
  import opened Reconcile
  import opened CatalogueKeys
  import opened Reimport
  import opened ImportTheorems
  import opened PathMeaning
  import opened Schema
  import opened SchemaReimport
  import opened SchemaTheorems
  import Spelling

  ghost predicate NewLibrary(rows: seq<MediaItem>, libraryId: string) {
    forall i :: 0 <= i < |rows| ==> rows[i].libraryId != libraryId
  }

  // ---- What the first import accepts ------------------------------------------------------------------------------

  /** A catalogue after the first import of a library into the shipped database, which had these old rows. */
  ghost predicate Imported(imp: Importing, before: seq<MediaItem>, rows: seq<MediaItem>, cs: seq<Candidate>,
                           vs: seq<Resolution>, base: nat) {
    && NewLibrary(before, imp.libraryId) && imp.libraryId != "" && Drawn(imp, cs, base)
    && Sound(rows) && NewRows(imp, rows, cs, base, |before|) && Fates(imp, rows, cs, vs, true)
    && Preserves(before, rows, imp.libraryId)
  }

  lemma ImportImported(cfg: Settings, providerId: string, store: Store, db: Db, root: FSNode)
    requires WellFormed(root) && Sound(db.rows) && IdsBelow(db.rows, db.next) && cfg.libraryId != "" && Schematic(store)
    requires NewLibrary(db.rows, cfg.libraryId)
    ensures Imported(ImportingOf(cfg, providerId), db.rows, ImportTree(cfg, providerId, store, db, root).0.rows,
                     Scanning(cfg, root, db.next).cands, ImportVerdicts(cfg, providerId, store, db, root), db.next)
  {
    var imp, o := ImportingOf(cfg, providerId), Scanning(cfg, root, db.next);
    ImportFates(cfg, providerId, store, db, root, true);
    ScanDrawn(cfg, providerId, root, db.next);
    RunPreserves(imp, store, db.(next := o.next), o.cands, |o.cands|);
  }

  /** A row of the new library is that of the candidate with its identifier. */
  lemma LibraryRow(imp: Importing, before: seq<MediaItem>, rows: seq<MediaItem>, cs: seq<Candidate>,
                   vs: seq<Resolution>, base: nat, k: nat)
    returns (l: nat)
    requires Imported(imp, before, rows, cs, vs, base) && k < |rows| && rows[k].libraryId == imp.libraryId
    ensures k >= |before| && l < |cs| && rows[k].id == cs[l].id && RowKey(rows[k]) == KeyOf(imp, cs[l])
    ensures rows[k].filePath == FileOf(cs[l])
  {
    l := NewRowOwner(imp, rows, cs, base, |before|, k);
  }

  lemma NewRowOwner(imp: Importing, rows: seq<MediaItem>, cs: seq<Candidate>, base: nat, start: nat,
                    k: nat) returns (l: nat)
    requires NewRows(imp, rows, cs, base, start) && Numbered(cs, base) && start <= k < |rows|
    ensures l < |cs| && rows[k].id == cs[l].id && RowKey(rows[k]) == KeyOf(imp, cs[l])
  {
    assert NewRowAt(imp, rows, cs, base, start, k);
    l := rows[k].id.n - base;
  }

  lemma AcceptedRowOf(imp: Importing, before: seq<MediaItem>, rows: seq<MediaItem>, cs: seq<Candidate>,
                      vs: seq<Resolution>, base: nat, j: nat)
    returns (k: nat)
    requires Imported(imp, before, rows, cs, vs, base) && j < |cs| && vs[j].Resolved?
    ensures |before| <= k < |rows| && rows[k].id == cs[j].id && rows[k].filePath == FileOf(cs[j]) &&
            rows[k].typ == cs[j].kind
  {
    assert Fate(imp, rows, cs[j], vs[j], true);
    k :| 0 <= k < |rows| && SettledAt(imp, rows, cs[j], k) && rows[k].id == vs[j].item.mediaId;
    assert RowKey(rows[k]).libraryId == imp.libraryId;
    var l := LibraryRow(imp, before, rows, cs, vs, base, k);
    assert l == j;
  }

  /** No candidate's file is stored yet. */
  ghost predicate FilesNew(rows: seq<MediaItem>, cs: seq<Candidate>) {
    forall j :: 0 <= j < |cs| ==> !FileStored(rows, FileOf(cs[j]))
  }

  predicate OneShow(cs: seq<Candidate>) {
    forall i, j :: 0 <= i < j < |cs| ==> !(cs[i].kind == Show && cs[j].kind == Show)
  }

  lemma AllAcceptedOnly(imp: Importing, before: seq<MediaItem>, rows: seq<MediaItem>, cs: seq<Candidate>,
                        vs: seq<Resolution>, base: nat)
    requires Imported(imp, before, rows, cs, vs, base) && forall j :: 0 <= j < |cs| ==> vs[j].Resolved?
    ensures FilesNew(before, cs) && OneShow(cs)
  {
    forall j | 0 <= j < |cs|
      ensures !FileStored(before, FileOf(cs[j]))
    {
      var k := AcceptedRowOf(imp, before, rows, cs, vs, base, j);
      forall i | 0 <= i < |before|
        ensures before[i].filePath != FileOf(cs[j])
      {
        assert rows[i] == before[i] && rows[i].filePath != rows[k].filePath;
      }
    }
    forall i, j | 0 <= i < j < |cs|
      ensures !(cs[i].kind == Show && cs[j].kind == Show)
    {
      var k := AcceptedRowOf(imp, before, rows, cs, vs, base, i);
      var l := AcceptedRowOf(imp, before, rows, cs, vs, base, j);
      assert cs[i].id != cs[j].id;
      assert k != l && rows[k].filePath != rows[l].filePath;
    }
  }

  lemma NotTaken(imp: Importing, before: seq<MediaItem>, rows: seq<MediaItem>, cs: seq<Candidate>, vs: seq<Resolution>,
                 base: nat, j: nat)
    requires Imported(imp, before, rows, cs, vs, base) && FilesNew(before, cs) && OneShow(cs) && DistinctKeys(cs) &&
             j < |cs|
    ensures !Taken(imp, rows, cs[j])
  {
    if Lookup(rows, KeyOf(imp, cs[j])).NoId? {
      assert ProperCandidate(cs[j]);
      LookupNone(rows, KeyOf(imp, cs[j]));
      forall k | 0 <= k < |rows|
        ensures rows[k].filePath != FileOf(cs[j])
      {
        if k < |before| {
          assert rows[k] == before[k];
        } else {
          assert rows[k].libraryId == imp.libraryId;
          var l := LibraryRow(imp, before, rows, cs, vs, base, k);
          FilesApart(imp, cs, l, j);
        }
      }
    }
  }

  /** A key that a lookup does not find is no row's. */
  lemma LookupNone(rows: seq<MediaItem>, key: Key)
    requires IdsUnique(rows) && ProperKey(key) && Lookup(rows, key).NoId?
    ensures forall k :: 0 <= k < |rows| ==> RowKey(rows[k]) != key
  {
    forall k | 0 <= k < |rows|
      ensures RowKey(rows[k]) != key
    {
      assert !Hits(rows[k], key);
    }
  }

  /** Different candidates have different files, two shows aside. */
  lemma FilesApart(imp: Importing, cs: seq<Candidate>, l: nat, j: nat)
    requires WellOrdered(imp, cs) && OneShow(cs) && DistinctKeys(cs) && l < |cs| && j < |cs| && l != j
    ensures FileOf(cs[l]) != FileOf(cs[j])
  {
    assert ProperCandidate(cs[l]) && ProperCandidate(cs[j]);
    assert ClaimKey(cs[l]) != ClaimKey(cs[j]);
  }

  lemma AllAcceptedIf(imp: Importing, fs: FS, before: seq<MediaItem>, rows: seq<MediaItem>, cs: seq<Candidate>,
                      vs: seq<Resolution>, base: nat)
    requires Imported(imp, before, rows, cs, vs, base) && FilesNew(before, cs) && OneShow(cs) && DistinctKeys(cs)
    requires forall j :: 0 <= j < |cs| && cs[j].kind == Episode ==> exists i :: 0 <= i < |cs| && Link(fs, cs, i, j)
    ensures forall j :: 0 <= j < |cs| ==> vs[j].Resolved?
  {
    forall j | 0 <= j < |cs|
      ensures vs[j].Resolved?
    {
      assert Fate(imp, rows, cs[j], vs[j], true);
      NotTaken(imp, before, rows, cs, vs, base, j);
      if cs[j].kind == Episode {
        var i :| 0 <= i < |cs| && Link(fs, cs, i, j);
        assert Fate(imp, rows, cs[i], vs[i], true);
        NotTaken(imp, before, rows, cs, vs, base, i);
        var k := AcceptedRowOf(imp, before, rows, cs, vs, base, i);
        assert HasId(rows, cs[j].showId);
      }
    }
  }

  lemma {:induction false} NoneRejectedIff(cs: seq<Candidate>, vs: seq<Resolution>)
    requires |cs| == |vs|
    ensures RejectedItems(cs, vs) == [] <==> forall j :: 0 <= j < |vs| ==> vs[j].Resolved?
  {
    if vs != [] {
      var n := |vs| - 1;
      NoneRejectedIff(cs[..n], vs[..n]);
      assert forall j :: 0 <= j < n ==> vs[..n][j] == vs[j];
    }
  }

  /** The first import of a library into the shipped database accepts everything exactly when no file it finds is stored
      yet, in whichever library, and it finds at most one show, and none when another library has one. */
  lemma NewLibraryAcceptedIff(cfg: Settings, providerId: string, store: Store, db: Db, root: FSNode)
    requires WellFormed(root) && Sound(db.rows) && IdsBelow(db.rows, db.next) && cfg.libraryId != "" && Schematic(store)
    requires NewLibrary(db.rows, cfg.libraryId)
    ensures var cs := Scanning(cfg, root, db.next).cands;
            ImportTree(cfg, providerId, store, db, root).1.rejected == [] <==> FilesNew(db.rows, cs) && OneShow(cs)
  {
    var imp, cs := ImportingOf(cfg, providerId), Scanning(cfg, root, db.next).cands;
    var vs := ImportVerdicts(cfg, providerId, store, db, root);
    var rows := ImportTree(cfg, providerId, store, db, root).0.rows;
    ImportImported(cfg, providerId, store, db, root);
    SecondReport(cfg, providerId, store, db, root);
    NoneRejectedIff(cs, vs);
    if forall j :: 0 <= j < |vs| ==> vs[j].Resolved? {
      AllAcceptedOnly(imp, db.rows, rows, cs, vs, db.next);
    }
    if FilesNew(db.rows, cs) && OneShow(cs) {
      KeysAndRootsDistinct(cfg, root, db.next);
      forall j | 0 <= j < |cs| && cs[j].kind == Episode
        ensures exists i :: 0 <= i < |cs| && Link(cfg.fs, cs, i, j)
      {
        var i := EpisodeHasShow(cfg, root, db.next, j);
      }
      AllAcceptedIf(imp, cfg.fs, db.rows, rows, cs, vs, db.next);
    }
  }

  /** Then, from a source path that is clean and neither "/" nor ".", importing again accepts everything
      as updates and changes no row. */
  lemma ImportedTwice(cfg: Settings, providerId: string, store1: Store, store2: Store, db: Db, root: FSNode)
    requires WellFormed(root) && Walkable(root.path) && Sound(db.rows) && IdsBelow(db.rows, db.next) &&
             cfg.libraryId != ""
    requires Schematic(store1) && Schematic(store2) && NewLibrary(db.rows, cfg.libraryId)
    requires FilesNew(db.rows, Scanning(cfg, root, db.next).cands) && OneShow(Scanning(cfg, root, db.next).cands)
    ensures var (db1, r1) := ImportTree(cfg, providerId, store1, db, root);
            var (db2, r2) := ImportTree(cfg, providerId, store2, db1, root);
            |r1.accepted| == |r2.accepted| == r1.total && NothingChanged(db1.rows, r1, db2.rows, r2)
  {
    NewLibraryAcceptedIff(cfg, providerId, store1, db, root);
    SecondImportRepeats(cfg, providerId, store1, store2, db, root);
    ImportCounts(cfg, providerId, store1, db, root);
  }

  // ---- Source roots the upward walk cannot see -------------------------------------------------------------------

  /** Some episode belongs to the source directory itself. */
  ghost predicate RootOwnsEpisode(cfg: Settings, root: FSNode, cs: seq<Candidate>) {
    exists j :: 0 <= j < |cs| && cs[j].kind == Episode && Nearest(cfg.fs, root.path, cs[j].primaryPath)
  }

  /** The first import of a library, if nothing in it failed, can be repeated without change exactly when its source
      root is one the upward walk can return, or no episode in it belongs to the root itself. */
  lemma RepeatableIff(cfg: Settings, providerId: string, store1: Store, store2: Store, db: Db, root: FSNode)
    requires WellFormed(root) && cfg.libraryId != "" && Valid(db.rows) && NewLibrary(db.rows, cfg.libraryId)
    requires LookupsOk(store1) && LookupsOk(store2) && ImportTree(cfg, providerId, store1, db, root).1.rejected == []
    requires AcceptsRewrites(store2, ImportTree(cfg, providerId, store1, db, root).0.rows)
    ensures var (db1, r1) := ImportTree(cfg, providerId, store1, db, root);
            var (db2, r2) := ImportTree(cfg, providerId, store2, db1, root);
            NothingChanged(db1.rows, r1, db2.rows, r2) <==>
            Walkable(root.path) || !RootOwnsEpisode(cfg, root, Scanning(cfg, root, db.next).cands)
  {
    var imp := ImportingOf(cfg, providerId);
    var cs := Scanning(cfg, root, db.next).cands;
    ReimportIdempotentIff(cfg, providerId, store1, store2, db, root);
    forall j | 0 <= j < |cs| && cs[j].kind == Episode
      ensures Lookup(db.rows, WalkKey(imp, cs[j])).NoId?
      ensures IsShowAt(imp, cs, WalkKey(imp, cs[j])) <==>
              Walkable(root.path) || !Nearest(cfg.fs, root.path, cs[j].primaryPath)
    {
      ShowFoundIff(cfg, providerId, root, db.next, j);
    }
  }

  /** An episode finds its show by walking up exactly when that show is not at an invisible source root. */
  lemma ShowFoundIff(cfg: Settings, providerId: string, root: FSNode, next: nat, j: nat)
    requires WellFormed(root) && j < |Scanning(cfg, root, next).cands| &&
             Scanning(cfg, root, next).cands[j].kind == Episode
    ensures var imp, cs := ImportingOf(cfg, providerId), Scanning(cfg, root, next).cands;
            IsShowAt(imp, cs, WalkKey(imp, cs[j])) <==>
                Walkable(root.path) || !Nearest(cfg.fs, root.path, cs[j].primaryPath)
  {
    var imp, cs := ImportingOf(cfg, providerId), Scanning(cfg, root, next).cands;
    TreeLinked(cfg, root, ROOT_CTX, map[], next);
    var i :| 0 <= i < |cs| && Link(cfg.fs, cs, i, j);
    ShowRootsWalkable(cfg, root, next, i);
    if Walkable(cs[i].rootPath) {
      WalkableShowKnown(cfg, providerId, root, next, i, j);
      if Below(root.path, cs[i].rootPath) {
        InnerIsNearer(cfg.fs, root.path, cs[i].rootPath, cs[j].primaryPath);
      }
    } else {
      InvisibleRoot(cfg, providerId, root, next, i, j);
    }
  }

  /** No show candidate has the key that the walk towards an invisible root looks up. */
  lemma InvisibleRoot(cfg: Settings, providerId: string, root: FSNode, next: nat, i: nat, j: nat)
    requires WellFormed(root)
    requires var cs := Scanning(cfg, root, next).cands;
             i < |cs| && j < |cs| && cs[j].kind == Episode && Link(cfg.fs, cs, i, j) && !Walkable(cs[i].rootPath)
    ensures var imp, cs := ImportingOf(cfg, providerId), Scanning(cfg, root, next).cands;
            !IsShowAt(imp, cs, WalkKey(imp, cs[j]))
  {
    var imp, cs := ImportingOf(cfg, providerId), Scanning(cfg, root, next).cands;
    TreeLinked(cfg, root, ROOT_CTX, map[], next);
    UpwardWalkFindsNearest(cfg.fs, cs[i].rootPath, cs[j].primaryPath);
    KeysAndRootsDistinct(cfg, root, next);
    forall k | 0 <= k < |cs|
      ensures KeyOf(imp, cs[k]) != WalkKey(imp, cs[j])
    {
      CandidateProper(cfg, root, next, k);
      assert k != i && cs[k].kind == Show ==> Clean(cs[k].rootPath) != Clean(cs[i].rootPath);
    }
  }

  /** What the second import of a new library into the shipped database does, from any source root: no row changes, and
      what was accepted is accepted again, except episodes of a show at a root the upward walk cannot return; their
      update names a show that is no row, and is refused. */
  lemma SecondImportOfNew(cfg: Settings, providerId: string, store1: Store, store2: Store, db: Db, root: FSNode)
    requires WellFormed(root) && Sound(db.rows) && IdsBelow(db.rows, db.next) && cfg.libraryId != ""
    requires Schematic(store1) && Schematic(store2) && NewLibrary(db.rows, cfg.libraryId)
    ensures var cs := Scanning(cfg, root, db.next).cands;
            var db1 := ImportTree(cfg, providerId, store1, db, root).0;
            var vs1, vs2 := ImportVerdicts(cfg, providerId, store1, db, root),
                                ImportVerdicts(cfg, providerId, store2, db1, root);
            && SameRows(db1.rows, ImportTree(cfg, providerId, store2, db1, root).0.rows) && |vs1| == |vs2| == |cs|
            && forall j :: 0 <= j < |cs| ==>
                 (vs2[j].Resolved? <==> vs1[j].Resolved? && (Walkable(root.path) || !OwnedByRoot(cfg, root, cs[j])))
  {
    var imp, cs := ImportingOf(cfg, providerId), Scanning(cfg, root, db.next).cands;
    var db1 := ImportTree(cfg, providerId, store1, db, root).0;
    var vs1, vs2 := ImportVerdicts(cfg, providerId, store1, db, root),
                        ImportVerdicts(cfg, providerId, store2, db1, root);
    SecondImport(cfg, providerId, store1, store2, db, root);
    ImportImported(cfg, providerId, store1, db, root);
    forall j | 0 <= j < |cs|
      ensures vs2[j].Resolved? <==> vs1[j].Resolved? && (Walkable(root.path) || !OwnedByRoot(cfg, root, cs[j]))
    {
      assert Again(imp, db1.rows, cs[j], vs1[j], vs2[j]) && Fate(imp, db1.rows, cs[j], vs1[j], true);
      if vs1[j].Resolved? {
        OrphanIff(cfg, providerId, root, db.rows, db1.rows, vs1, db.next, j);
      }
    }
  }

  /** The same for the source path as it was typed: what was accepted is accepted again unless that text is unclean, "/"
      or ".", and the item is an episode of the show at the source directory itself. */
  lemma SecondImportOfTyped(cfg: Settings, providerId: string, store1: Store, store2: Store, db: Db, text: string,
                            root: FSNode, j: nat)
    requires WellFormed(root) && root.path == Parse(text)
    requires Sound(db.rows) && IdsBelow(db.rows, db.next) && cfg.libraryId != ""
    requires Schematic(store1) && Schematic(store2) && NewLibrary(db.rows, cfg.libraryId)
    requires j < |Scanning(cfg, root, db.next).cands|
    ensures var db1 := ImportTree(cfg, providerId, store1, db, root).0;
            var vs1 := ImportVerdicts(cfg, providerId, store1, db, root);
            var vs2 := ImportVerdicts(cfg, providerId, store2, db1, root);
            && SameRows(db1.rows, ImportTree(cfg, providerId, store2, db1, root).0.rows)
            && j < |vs1| && j < |vs2|
            && (vs2[j].Resolved? <==>
                vs1[j].Resolved? &&
                (Spelling.IsOrdinary(text) || !OwnedByRoot(cfg, root, Scanning(cfg, root, db.next).cands[j])))
  {
    SecondImportOfNew(cfg, providerId, store1, store2, db, root);
    Spelling.WalkableIffOrdinary(text);
  }

  ghost predicate OwnedByRoot(cfg: Settings, root: FSNode, c: Candidate) {
    c.kind == Episode && Nearest(cfg.fs, root.path, c.primaryPath)
  }

  lemma OrphanIff(cfg: Settings, providerId: string, root: FSNode, before: seq<MediaItem>, rows: seq<MediaItem>,
                  vs: seq<Resolution>,
                  next: nat, j: nat)
    requires WellFormed(root) && j < |Scanning(cfg, root, next).cands|
    requires Imported(ImportingOf(cfg, providerId), before, rows, Scanning(cfg, root, next).cands, vs, next) &&
             vs[j].Resolved?
    ensures var imp, cs := ImportingOf(cfg, providerId), Scanning(cfg, root, next).cands;
            Orphan(imp, rows, cs[j]) <==> !Walkable(root.path) && OwnedByRoot(cfg, root, cs[j])
  {
    var imp, cs := ImportingOf(cfg, providerId), Scanning(cfg, root, next).cands;
    assert Fate(imp, rows, cs[j], vs[j], true);
    if Orphan(imp, rows, cs[j]) {
      OrphanAtRoot(cfg, providerId, root, next, rows, j, vs[j].item.mediaId, |before|);
    }
    if !Walkable(root.path) && OwnedByRoot(cfg, root, cs[j]) {
      ShowFoundIff(cfg, providerId, root, next, j);
      forall s | 0 <= s < |rows|
        ensures !Hits(rows[s], WalkKey(imp, cs[j]))
      {
        if rows[s].libraryId == imp.libraryId {
          var l := LibraryRow(imp, before, rows, cs, vs, next, s);
          assert KeyOf(imp, cs[l]) != WalkKey(imp, cs[j]);
        }
      }
    }
  }

  // ---- An example: a show whose files lie directly under "/" ------------------------------------------------------

  const SLASH: Path := Path(true, [], "")
  const SEASON: Path := Path(true, ["Season 1"], "")

  /** "/" holds a tvshow.nfo and "Season 1", which holds "S01E01.mkv". */
  function SlashListing(p: Path): Option<seq<DirEntry>> {
    if p == SLASH then Some([DirEntry("Season 1", true), DirEntry("tvshow.nfo", false)])
    else if p == SEASON then Some([DirEntry("S01E01.mkv", false)])
    else None
  }

  function SlashFS(): FS {
    FS(SlashListing, p => p in {SEASON, Join(SLASH, "tvshow.nfo"), Join(SEASON, "S01E01.mkv")},
       p => None, p => None, p => "", (p, q, r) => "", p => "")
  }

  function Leaf(p: Path, name: string): FSNode {
    FSNode(p, name, FileKind(name), false, [])
  }

  function SlashTree(): FSNode {
    FSNode(SLASH, "", DirNode, true,
           [FSNode(SEASON, "Season 1", DirNode, true, [Leaf(Join(SEASON, "S01E01.mkv"), "S01E01.mkv")]),
            Leaf(Join(SLASH, "tvshow.nfo"), "tvshow.nfo")])
  }

  lemma SeasonSnapshot()
    ensures Finite(SlashFS(), SEASON, 0) && Snap(SlashFS(), SEASON, 0) == Some(SlashTree().children[0])
  {
    var es := SlashFS().readDir(SEASON).value;
    assert es == [DirEntry("S01E01.mkv", false)] && es[..0] == [];
    assert SnapKids(SlashFS(), SEASON, 0, []) == [];
    assert SnapKids(SlashFS(), SEASON, 0, es) == SlashTree().children[0].children;
  }

  lemma SlashEntries()
    ensures Finite(SlashFS(), SLASH, 1) && Subdirs(SlashFS(), SLASH, 1, SlashListing(SLASH).value)
    ensures SnapEntry(SlashFS(), SLASH, 1, DirEntry("Season 1", true)) == [SlashTree().children[0]]
    ensures SnapEntry(SlashFS(), SLASH, 1, DirEntry("tvshow.nfo", false)) == [SlashTree().children[1]]
  {
    SeasonSnapshot();
    assert Join(SLASH, "Season 1") == SEASON;
  }

  /** The snapshot of that filesystem. */
  lemma SlashSnapshot()
    ensures Finite(SlashFS(), SLASH, 1) && Snap(SlashFS(), SLASH, 1) == Some(SlashTree())
  {
    SlashEntries();
    var d, f := DirEntry("Season 1", true), DirEntry("tvshow.nfo", false);
    TwoEntries(SlashFS(), SLASH, 1, d, f);
    assert SlashListing(SLASH) == Some([d, f]) && SlashFS().readDir(SLASH) == Some([d, f]);
    var kids := SnapKids(SlashFS(), SLASH, 1, [d, f]);
    assert kids == SlashTree().children;
    assert Snap(SlashFS(), SLASH, 1) == Some(FSNode(SLASH, BaseName(SLASH), DirNode, true, kids));
  }

  lemma TwoEntries(fs: FS, p: Path, depth: nat, a: DirEntry, b: DirEntry)
    requires Subdirs(fs, p, depth, [a, b])
    ensures SnapKids(fs, p, depth, [a, b]) == SnapEntry(fs, p, depth, a) + SnapEntry(fs, p, depth, b)
  {
    assert [a, b][..1] == [a] && [a][..0] == [];
    assert SnapKids(fs, p, depth, [a]) == SnapKids(fs, p, depth, []) + SnapEntry(fs, p, depth, a);
  }

  lemma SlashTreeWellFormed()
    ensures WellFormed(SlashTree())
  {
    var season := SlashTree().children[0];
    assert WellFormed(season.children[0]);
    assert WellFormed(season) && WellFormed(SlashTree().children[1]);
  }

  lemma SeasonOne()
    ensures IsSeasonDirName("Season 1")
  {
    SeasonNumberRoundTrip(1, 1);
    assert Padded(1, 1) == "1";
    assert "Season " + Padded(1, 1) == "Season 1";
  }

  lemma SlashPlaces(cfg: Settings)
    requires cfg.fs == SlashFS() && cfg.libraryType == "show"
    ensures var season := SlashTree().children[0];
            var p := Follow(cfg, SlashTree(), ROOT_CTX, ["Season 1"]);
            p.Some? && p.value.node == season && RoleAt(cfg, p.value) == SeasonDir
  {
    var season, nfo := SlashTree().children[0], SlashTree().children[1];
    SeasonOne();
    OnlySlashHasNFO(SEASON);
    assert [season, nfo][..1] == [season];
    assert ChildNamed([season], "Season 1") == Some(season);
    assert ChildNamed(SlashTree().children, "Season 1") == Some(season);
    assert ["Season 1"][1..] == [];
  }

  lemma EpisodeOf(cfg: Settings, root: FSNode, next: nat, segs: seq<string>, f: FSNode) returns (j: nat)
    requires WellFormed(root) && Follow(cfg, root, ROOT_CTX, segs).Some?
    requires var p := Follow(cfg, root, ROOT_CTX, segs).value;
             f in p.node.children && IsVideo(f) && TakesVideos(RoleAt(cfg, p))
    ensures var cs := Scanning(cfg, root, next).cands; j < |cs| && cs[j].kind == Episode && cs[j].primaryPath == f.path
  {
    EpisodeIffInSeason(cfg, root, next, segs, f);
    var cs := Scanning(cfg, root, next).cands;
    var c :| c in EraseAll(cs) && c.kind == Episode && c.primaryPath == f.path;
    j :| 0 <= j < |cs| && EraseAll(cs)[j] == c;
  }

  /** The only tvshow.nfo lies in "/". */
  lemma OnlySlashHasNFO(p: Path)
    ensures SlashFS().HasShowNFO(p) && p.Path? ==> p.abs && p.segs == []
  {
    var q := Join(p, "tvshow.nfo");
    assert q.segs[|q.segs|-1] == "tvshow.nfo";
    assert "tvshow.nfo"[0] != "Season 1"[0] && "tvshow.nfo"[0] != "S01E01.mkv"[0];
    assert q != SEASON && q != Join(SEASON, "S01E01.mkv");
  }

  lemma NearSlash(p: Path)
    requires p.Path? && p.abs && p.segs != []
    ensures Nearest(SlashFS(), SLASH, p)
  {
    forall n {:trigger Prefix(p, n)} | 0 < n < |p.segs|
      ensures !SlashFS().HasShowNFO(Prefix(p, n))
    {
      OnlySlashHasNFO(Prefix(p, n));
    }
  }

  lemma SlashOneShow(cfg: Settings)
    requires cfg.fs == SlashFS()
    ensures OneShow(Scanning(cfg, SlashTree(), 0).cands)
  {
    var cs := Scanning(cfg, SlashTree(), 0).cands;
    SlashTreeWellFormed();
    KeysAndRootsDistinct(cfg, SlashTree(), 0);
    forall i, j | 0 <= i < j < |cs|
      ensures !(cs[i].kind == Show && cs[j].kind == Show)
    {
      if cs[i].kind == Show && cs[j].kind == Show {
        ShowHasNFO(cfg, SlashTree(), 0, i);
        ShowHasNFO(cfg, SlashTree(), 0, j);
        OnlySlashHasNFO(cs[i].rootPath);
        OnlySlashHasNFO(cs[j].rootPath);
      }
    }
  }

  lemma ShowHasNFO(cfg: Settings, root: FSNode, next: nat, i: nat)
    requires WellFormed(root) && i < |Scanning(cfg, root, next).cands| &&
             Scanning(cfg, root, next).cands[i].kind == Show
    ensures cfg.fs.HasShowNFO(Scanning(cfg, root, next).cands[i].rootPath) &&
            Scanning(cfg, root, next).cands[i].rootPath.Path?
  {
    var cs := Scanning(cfg, root, next).cands;
    CandidateProper(cfg, root, next, i);
    assert EraseAll(cs)[i] == Erase(cs[i]);
    CandidateIffReached(cfg, root, next, Erase(cs[i]));
    var v :| Reached(cfg, root, ROOT_CTX, v) && Emit(cfg, v) == [Erase(cs[i])];
    var segs :| Leads(cfg, root, ROOT_CTX, segs, v);
  }

  lemma SlashEpisode(cfg: Settings) returns (j: nat)
    requires cfg.fs == SlashFS() && cfg.libraryType == "show"
    ensures var cs := Scanning(cfg, SlashTree(), 0).cands; j < |cs| && OwnedByRoot(cfg, SlashTree(), cs[j])
  {
    SlashTreeWellFormed();
    SlashPlaces(cfg);
    SlashVideo();
    var p := Follow(cfg, SlashTree(), ROOT_CTX, ["Season 1"]).value;
    j := EpisodeOf(cfg, SlashTree(), 0, ["Season 1"], p.node.children[0]);
    NearSlash(p.node.children[0].path);
  }

  lemma SlashVideo()
    ensures var f := SlashTree().children[0].children[0];
            IsVideo(f) && f.path == Path(true, ["Season 1", "S01E01.mkv"], "")
  {
    var name := "S01E01.mkv";
    assert name[6] == '.' && LastDot(name) == 6;
    assert ToLower(name[6..]) == ".mkv";
    VideoKindsAgree(name);
  }

  /** Importing "/" twice into the empty shipped database: the first import accepts everything, the second refuses an
      episode, and no row changes. */
  lemma SlashRootNotRepeatable(providerId: string, libraryId: string, store1: Store, store2: Store)
    requires libraryId != "" && Schematic(store1) && Schematic(store2)
    ensures Finite(SlashFS(), SLASH, 1) && Snap(SlashFS(), SLASH, 1).Some?
    ensures var cfg, root := Settings(SlashFS(), libraryId, "show"), Snap(SlashFS(), SLASH, 1).value;
            var (db1, r1) := ImportTree(cfg, providerId, store1, Db([], 0, 0), root);
            var (db2, r2) := ImportTree(cfg, providerId, store2, db1, root);
            r1.rejected == [] && r2.rejected != [] && SameRows(db1.rows, db2.rows)
  {
    var cfg, root, db := Settings(SlashFS(), libraryId, "show"), SlashTree(), Db([], 0, 0);
    SlashSnapshot();
    SlashTreeWellFormed();
    SlashOneShow(cfg);
    NewLibraryAcceptedIff(cfg, providerId, store1, db, root);
    var j := SlashEpisode(cfg);
    SecondRefuses(cfg, providerId, store1, store2, db, root, j);
  }

  /** An episode of an invisible source root is refused the second time. */
  lemma SecondRefuses(cfg: Settings, providerId: string, store1: Store, store2: Store, db: Db, root: FSNode, j: nat)
    requires WellFormed(root) && Sound(db.rows) && IdsBelow(db.rows, db.next) && cfg.libraryId != ""
    requires Schematic(store1) && Schematic(store2) && NewLibrary(db.rows, cfg.libraryId)
    requires var cs := Scanning(cfg, root, db.next).cands;
             j < |cs| && !Walkable(root.path) && OwnedByRoot(cfg, root, cs[j])
    ensures var db1 := ImportTree(cfg, providerId, store1, db, root).0;
            var (db2, r2) := ImportTree(cfg, providerId, store2, db1, root);
            r2.rejected != [] && SameRows(db1.rows, db2.rows)
  {
    var db1 := ImportTree(cfg, providerId, store1, db, root).0;
    SecondImportOfNew(cfg, providerId, store1, store2, db, root);
    SecondReport(cfg, providerId, store2, db1, root);
    NoneRejectedIff(Scanning(cfg, root, db1.next).cands, ImportVerdicts(cfg, providerId, store2, db1, root));
  }
}
