// Stage 4: reconciling candidates with the catalogue (importer_reconcile.go).
module Reconcile {
  import opened Base
  import opened Paths
  import opened Names
  import opened FileSystem
  import opened ImportContext
  import opened ShowLinks
  import opened Catalogue

  /** The importer's fixed fields; SetLibraryID never stores an empty library. */
  datatype Importing = Importing(fs: FS, libraryId: string, providerId: string)

  datatype Action = CreateAction | UpdateAction

  datatype ResolvedItem = ResolvedItem(
    candidateId: Id, mediaId: Id, kind: EntityKind, action: Action, rootPath: Path, primaryPath: Path)

  datatype Resolution = Resolved(item: ResolvedItem) | Failed(reason: Reason)

  datatype Report = Report(
    accepted: seq<ResolvedItem>, rejected: seq<RejectedItem>, unknown: seq<Candidate>, total: nat, done: nat)

  // ---- The rows a candidate is written as ----------------------------------------------------------------

  function ShowItem(imp: Importing, c: Candidate, id: Id): MediaItem {
    MediaItem(id, Show, imp.fs.showInfo(c.rootPath), NoPath, c.rootPath, NoPath, c.nfoPath,
              NoId, None, None, "nfo", imp.providerId, imp.libraryId, "", 0, 0)
  }

  function MovieItem(imp: Importing, c: Candidate, id: Id): MediaItem {
    MediaItem(id, Movie, imp.fs.movieInfo(c.rootPath, c.primaryPath, c.nfoPath),
              c.primaryPath, c.rootPath, c.primaryPath, c.nfoPath,
              NoId, None, None, if c.nfoPath.NoPath? then "filename" else "nfo",
              imp.providerId, imp.libraryId, "", 0, 0)
  }

  /** The episode NFO beside the video, when it exists and parses. */
  function EpisodeNFOOf(fs: FS, video: Path): Option<EpisodeNFO> {
    var nfo := Join(Dir(video), TrimExt(BaseName(video)) + ".nfo");
    if fs.exists_(nfo) then fs.episodeNFO(nfo) else None
  }

  /** Season and episode from the file name, overridden by positive numbers in the NFO. */
  function EpisodeNumbers(fs: FS, video: Path): (int, int) {
    var (s, e) := ExtractEpisodeInfo(BaseName(video));
    var nfo := EpisodeNFOOf(fs, video);
    (if nfo.Some? && nfo.value.season > 0 then nfo.value.season else s,
     if nfo.Some? && nfo.value.episode > 0 then nfo.value.episode else e)
  }

  function EpisodeItem(imp: Importing, c: Candidate, id: Id, parent: Id): MediaItem {
    var (s, e) := EpisodeNumbers(imp.fs, c.primaryPath);
    MediaItem(id, Episode, imp.fs.episodeInfo(c.primaryPath), c.primaryPath, NoPath, c.primaryPath, NoPath,
              parent, Some(s), Some(e), "nfo", imp.providerId, imp.libraryId, "", 0, 0)
  }

  // ---- One candidate ---------------------------------------------------------------------------------------

  function ShowKey(imp: Importing, rootPath: Path): Key {
    Key(ByRoot, imp.libraryId, rootPath, Show)
  }

  function FileKey(imp: Importing, path: Path, typ: EntityKind): Key {
    Key(ByFile, imp.libraryId, path, typ)
  }

  /** Update the existing row, or create one. */
  function Write(store: Store, db: Db, existing: Id, m: MediaItem): (Db, bool) {
    if existing.NoId? then InsertRow(store, db, m) else UpdateRow(store, db, m)
  }

  function Concluded(c: Candidate, existing: Id, root: Path, primary: Path, written: (Db, bool)): (Db, Resolution) {
    var item := ResolvedItem(c.id, if existing.NoId? then c.id else existing, c.kind,
                             if existing.NoId? then CreateAction else UpdateAction, root, primary);
    (written.0, if written.1 then Resolved(item) else Failed(WriteFailed))
  }

  function StepShow(imp: Importing, store: Store, db: Db, c: Candidate): (Db, Resolution) {
    var (db1, existing) := Find(store, db, ShowKey(imp, c.rootPath));
    var m := ShowItem(imp, c, if existing.NoId? then c.id else existing);
    Concluded(c, existing, c.rootPath, NoPath, Write(store, db1, existing, m))
  }

  function StepMovie(imp: Importing, store: Store, db: Db, c: Candidate): (Db, Resolution) {
    if c.primaryPath.NoPath? then (db, Failed(NoVideoPath))
    else
      var (db1, existing) := Find(store, db, FileKey(imp, c.primaryPath, Movie));
      var m := MovieItem(imp, c, if existing.NoId? then c.id else existing);
      Concluded(c, existing, c.rootPath, c.primaryPath, Write(store, db1, existing, m))
  }

  /** The show id the candidate carries is replaced by that of the show row its upward walk leads to. */
  function ResolveShow(imp: Importing, store: Store, db: Db, c: Candidate): (Db, Id) {
    if c.showId.NoId? || c.seasonNumber.None? then (db, c.showId)
    else
      var (db1, existing) := Find(store, db, ShowKey(imp, ShowRootOf(imp.fs, c.primaryPath)));
      (db1, if existing.NoId? then c.showId else existing)
  }

  function StepEpisode(imp: Importing, store: Store, db: Db, c: Candidate): (Db, Resolution) {
    if c.primaryPath.NoPath? then (db, Failed(NoVideoPath))
    else
      var (db1, parent) := ResolveShow(imp, store, db, c);
      var (db2, existing) := Find(store, db1, FileKey(imp, c.primaryPath, Episode));
      var m := EpisodeItem(imp, c, if existing.NoId? then c.id else existing, parent);
      Concluded(c, existing, NoPath, c.primaryPath, Write(store, db2, existing, m))
  }

  predicate Reconcilable(c: Candidate) {
    c.kind == Show || c.kind == Movie || c.kind == Episode
  }

  function Step(imp: Importing, store: Store, db: Db, c: Candidate): (Db, Resolution)
    requires Reconcilable(c)
  {
    if c.kind == Show then StepShow(imp, store, db, c)
    else if c.kind == Movie then StepMovie(imp, store, db, c)
    else StepEpisode(imp, store, db, c)
  }

  // ---- All candidates ----------------------------------------------------------------------------------------

  function Note(r: Report, c: Candidate, res: Resolution): Report {
    var path := if c.kind == Show then c.rootPath else c.primaryPath;
    if res.Resolved? then r.(accepted := r.accepted + [res.item], done := r.done + 1)
    else r.(rejected := r.rejected + [RejectedItem(path, c.kind, res.reason)], done := r.done + 1)
  }

  /** The reconciliation of the candidates cs, in order, out of total. */
  function Run(imp: Importing, store: Store, db: Db, cs: seq<Candidate>, total: nat): (Db, Report) {
    if cs == [] then (db, Report([], [], [], total, 0))
    else
      var (db1, r) := Run(imp, store, db, cs[..|cs|-1], total);
      var c := cs[|cs|-1];
      if Reconcilable(c) then
        var (db2, res) := Step(imp, store, db1, c);
        (db2, Note(r, c, res))
      else (db1, r.(unknown := r.unknown + [c], done := r.done + 1))
  }

  function RunAll(imp: Importing, store: Store, db: Db, cs: seq<Candidate>): (Db, Report) {
    Run(imp, store, db, cs, |cs|)
  }

  /** The body of the loop: one candidate, by its kind. */
  function Account(imp: Importing, store: Store, db: Db, r: Report, c: Candidate): (Db, Report) {
    if Reconcilable(c) then (Step(imp, store, db, c).0, Note(r, c, Step(imp, store, db, c).1))
    else (db, r.(unknown := r.unknown + [c], done := r.done + 1))
  }

  lemma RunOneMore(imp: Importing, store: Store, db: Db, cs: seq<Candidate>, i: nat, total: nat)
    requires i < |cs|
    ensures var (db1, r) := Run(imp, store, db, cs[..i], total);
            Run(imp, store, db, cs[..i+1], total) == Account(imp, store, db1, r, cs[i])
  {
    assert cs[..i+1][..i] == cs[..i];
  }

  /** Every candidate is accounted for exactly once. */
  lemma {:induction false} CountsConserved(imp: Importing, store: Store, db: Db, cs: seq<Candidate>, total: nat)
    ensures var r := Run(imp, store, db, cs, total).1;
            && |r.accepted| + |r.rejected| + |r.unknown| == r.done == |cs|
            && ((forall i :: 0 <= i < |cs| ==> Reconcilable(cs[i])) ==> r.unknown == [])
            && r.total == total
  {
    if cs != [] {
      CountsConserved(imp, store, db, cs[..|cs|-1], total);
      var before := cs[..|cs|-1];
      assert forall i :: 0 <= i < |before| ==> before[i] == cs[i];
    }
  }

  // ---- The imperative form --------------------------------------------------------------------------------------

  class Reconciler {
    const imp: Importing
    const repo: MediaRepository

    constructor (imp: Importing, repo: MediaRepository)
      ensures this.imp == imp && this.repo == repo
    {
      this.imp, this.repo := imp, repo;
    }

    method Save(existing: Id, m: MediaItem) returns (ok: bool)
      modifies repo, repo.ids
      ensures (repo.State(), ok) == Write(repo.store, old(repo.State()), existing, m)
    {
      if !existing.NoId? {
        ok := repo.Update(m);
      } else {
        ok := repo.Create(m);
      }
    }

    method ReconcileShow(c: Candidate) returns (r: Resolution)
      requires c.kind == Show
      modifies repo, repo.ids
      ensures (repo.State(), r) == Step(imp, repo.store, old(repo.State()), c)
    {
      var existing := repo.FindByRootPath(imp.libraryId, c.rootPath, Show);
      var showId, action := c.id, CreateAction;
      if !existing.NoId? {
        showId, action := existing, UpdateAction;
      }
      var ok := Save(existing, ShowItem(imp, c, showId));
      if !ok {
        return Failed(WriteFailed);
      }
      r := Resolved(ResolvedItem(c.id, showId, Show, action, c.rootPath, NoPath));
    }

    method ReconcileMovie(c: Candidate) returns (r: Resolution)
      requires c.kind == Movie
      modifies repo, repo.ids
      ensures (repo.State(), r) == Step(imp, repo.store, old(repo.State()), c)
    {
      if c.primaryPath.NoPath? {
        return Failed(NoVideoPath);
      }
      var existing := repo.FindExistingItem(imp.libraryId, c.primaryPath, Movie);
      var movieId, action := c.id, CreateAction;
      if !existing.NoId? {
        movieId, action := existing, UpdateAction;
      }
      var ok := Save(existing, MovieItem(imp, c, movieId));
      if !ok {
        return Failed(WriteFailed);
      }
      r := Resolved(ResolvedItem(c.id, movieId, Movie, action, c.rootPath, c.primaryPath));
    }

    method ResolveShowId(c: Candidate) returns (showId: Id)
      modifies repo`tick
      ensures (repo.State(), showId) == ResolveShow(imp, repo.store, old(repo.State()), c)
    {
      showId := c.showId;
      if !c.showId.NoId? && c.seasonNumber.Some? {
        var showRoot := GetShowRootPath(imp.fs, c.primaryPath);
        var existingShowId := repo.FindByRootPath(imp.libraryId, showRoot, Show);
        if !existingShowId.NoId? {
          showId := existingShowId;
        }
      }
    }

    method ReconcileEpisode(c: Candidate) returns (r: Resolution)
      requires c.kind == Episode
      modifies repo, repo.ids
      ensures (repo.State(), r) == Step(imp, repo.store, old(repo.State()), c)
    {
      if c.primaryPath.NoPath? {
        return Failed(NoVideoPath);
      }
      var showId := ResolveShowId(c);
      var existing := repo.FindExistingItem(imp.libraryId, c.primaryPath, Episode);
      var epId, action := c.id, CreateAction;
      if !existing.NoId? {
        epId, action := existing, UpdateAction;
      }
      var ok := Save(existing, EpisodeItem(imp, c, epId, showId));
      if !ok {
        return Failed(WriteFailed);
      }
      r := Resolved(ResolvedItem(c.id, epId, Episode, action, NoPath, c.primaryPath));
    }

    method ReconcileCandidate(c: Candidate, report: Report) returns (updated: Report)
      modifies repo, repo.ids
      ensures (repo.State(), updated) == Account(imp, repo.store, old(repo.State()), report, c)
    {
      match c.kind {
        case Show =>
          var r := ReconcileShow(c);
          updated := Note(report, c, r);
        case Movie =>
          var r := ReconcileMovie(c);
          updated := Note(report, c, r);
        case Episode =>
          var r := ReconcileEpisode(c);
          updated := Note(report, c, r);
        case _ =>
          updated := report.(unknown := report.unknown + [c], done := report.done + 1);
      }
    }

    method ReconcileCandidates(cs: seq<Candidate>) returns (report: Report)
      modifies repo, repo.ids
      ensures (repo.State(), report) == RunAll(imp, repo.store, old(repo.State()), cs)
      ensures |report.accepted| + |report.rejected| + |report.unknown| == report.done == report.total == |cs|
    {
      ghost var start := repo.State();
      report := Report([], [], [], |cs|, 0);
      for i := 0 to |cs|
        invariant (repo.State(), report) == Run(imp, repo.store, start, cs[..i], |cs|)
      {
        RunOneMore(imp, repo.store, start, cs, i, |cs|);
        report := ReconcileCandidate(cs[i], report);
      }
      assert cs[..|cs|] == cs;
      CountsConserved(imp, repo.store, start, cs, |cs|);
    }
  }
}
