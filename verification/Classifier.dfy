// Stage 2 in its imperative form: seven mutually recursive methods over one shared claims map.
module Classifier {
  import opened Base
  import opened Paths
  import opened Names
  import opened FileSystem
  import opened ImportContext
  import opened Classify

  /** ClaimedPaths: one map object, shared by every walk context of a scan. */
  class ClaimMap {
    var paths: map<Path, PathClaim>

    constructor ()
      ensures paths == map[]
    {
      paths := map[];
    }
  }

  class WalkContext {
    const parentKind: EntityKind
    const showRoot: Path
    const showId: Id
    const seasonNumber: Option<nat>
    const claims: ClaimMap

    constructor (v: Ctx, claims: ClaimMap)
      ensures Value() == v && this.claims == claims
    {
      parentKind, showRoot, showId, seasonNumber := v.parentKind, v.showRoot, v.showId, v.seasonNumber;
      this.claims := claims;
    }

    function Value(): Ctx {
      Ctx(parentKind, showRoot, showId, seasonNumber)
    }
  }

  class ClassificationResult {
    var candidates: seq<Candidate>
    var rejected: seq<RejectedItem>
    var unknown: seq<Candidate>
    var scannedDirs: nat

    constructor ()
      ensures candidates == [] && rejected == [] && unknown == [] && scannedDirs == 0
    {
      candidates, rejected, unknown, scannedDirs := [], [], [], 0;
    }

    method Absorb(other: ClassificationResult)
      requires other != this
      modifies this
      ensures candidates == old(candidates) + other.candidates
      ensures rejected == old(rejected) + other.rejected
      ensures unknown == old(unknown) + other.unknown
      ensures scannedDirs == old(scannedDirs) + other.scannedDirs
    {
      candidates := candidates + other.candidates;
      rejected := rejected + other.rejected;
      unknown := unknown + other.unknown;
      scannedDirs := scannedDirs + other.scannedDirs;
    }
  }

  /** The first pass of findMovieNFO: the standard name. The second: any other .nfo with a title. */
  method FindMovieNFO(fs: FS, dir: Path) returns (nfo: Path)
    ensures nfo == MovieNFO(fs, dir)
  {
    var listing := fs.readDir(dir);
    if listing.None? {
      return NoPath;
    }
    var entries := listing.value;
    for i := 0 to |entries|
      invariant FirstStandardNFO(fs, dir, entries) == FirstStandardNFO(fs, dir, entries[i..])
    {
      var e := entries[i];
      assert entries[i..][1..] == entries[i+1..];
      if !e.isDir && IsMovieNfoName(e.name) {
        var path := Join(dir, e.name);
        if fs.movieTitle(path).Some? {
          return path;
        }
      }
    }
    for i := 0 to |entries|
      invariant FirstOtherNFO(fs, dir, entries) == FirstOtherNFO(fs, dir, entries[i..])
    {
      var e := entries[i];
      assert entries[i..][1..] == entries[i+1..];
      if !e.isDir && !IsMovieNfoName(e.name) && Ext(e.name) == ".nfo" {
        var path := Join(dir, e.name);
        var title := fs.movieTitle(path);
        if title.Some? && title.value != "" {
          return path;
        }
      }
    }
    nfo := NoPath;
  }

  method FindVideoFileInDir(fs: FS, dir: Path) returns (video: Path)
    ensures video == VideoIn(fs, dir)
  {
    var listing := fs.readDir(dir);
    if listing.None? {
      return NoPath;
    }
    var entries := listing.value;
    var firstVideo := NoPath;
    for i := 0 to |entries|
      invariant VideoAmong(dir, entries, NoPath) == VideoAmong(dir, entries[i..], firstVideo)
    {
      var e := entries[i];
      assert entries[i..][1..] == entries[i+1..];
      if IsVideoEntry(e) {
        if firstVideo.NoPath? {
          firstVideo := Join(dir, e.name);
        }
        if TrimExt(e.name) == "" {
          return Join(dir, e.name);
        }
      }
    }
    video := firstVideo;
  }

  method IsTransparentContainer(node: FSNode) returns (r: bool)
    ensures r == IsTransparent(node)
  {
    var hasSubdirs, hasDirectVideo := false, false;
    for i := 0 to |node.children|
      invariant hasSubdirs <==> exists j :: 0 <= j < i && node.children[j].isDir
      invariant hasDirectVideo <==> exists j :: 0 <= j < i && IsVideo(node.children[j])
    {
      var child := node.children[i];
      if child.isDir {
        hasSubdirs := true;
      } else if child.kind == Video {
        assert IsVideo(child);
        hasDirectVideo := true;
      }
    }
    r := hasSubdirs && !hasDirectVideo;
  }

  method HasVideoFile(node: FSNode) returns (hasVideo: bool)
    ensures hasVideo == HasVideoChild(node)
  {
    hasVideo := false;
    for i := 0 to |node.children|
      invariant hasVideo <==> exists j :: 0 <= j < i && IsVideo(node.children[j])
    {
      if !node.children[i].isDir && node.children[i].kind == Video {
        assert IsVideo(node.children[i]);
        return true;
      }
    }
  }

  class Importer {
    const cfg: Settings
    const ids: UuidSource

    constructor (cfg: Settings, ids: UuidSource)
      ensures this.cfg == cfg && this.ids == ids
    {
      this.cfg, this.ids := cfg, ids;
    }

    /** The result, the claims map and the identifier supply at this moment. */
    ghost function Now(result: ClassificationResult, ctx: WalkContext): Outcome
      reads result, ctx.claims, ids
    {
      Outcome(result.candidates, result.rejected, result.scannedDirs, ctx.claims.paths, ids.next)
    }

    method ClassifyTree(node: FSNode, ctx: WalkContext) returns (result: ClassificationResult)
      modifies ctx.claims, ids
      ensures fresh(result) && result.unknown == []
      ensures Now(result, ctx) == Tree(cfg, node, ctx.Value(), old(ctx.claims.paths), old(ids.next))
      decreases node, 2
    {
      result := new ClassificationResult();
      if !node.isDir {
        return;
      }
      result.scannedDirs := result.scannedDirs + 1;
      if cfg.fs.HasShowNFO(node.path) {
        ClassifyShowDir(node, ctx, result);
        return;
      }
      var nfoPath := FindMovieNFO(cfg.fs, node.path);
      if nfoPath.Path? {
        ClassifyMovieDir(node, nfoPath, ctx, result);
        return;
      }
      if ctx.parentKind == Show || ctx.parentKind == Season {
        if IsSeasonDirName(node.name) {
          ClassifySeasonDir(node, ctx, result);
          return;
        }
        if ctx.parentKind == Season {
          ClassifyEpisodeDir(node, ctx, result);
          return;
        }
      }
      var transparent := IsTransparentContainer(node);
      if transparent {
        ClassifyContainerDir(node, ctx, result);
        return;
      }
      if ctx.parentKind == Unknown || ctx.parentKind == NoKind || ctx.parentKind == Container {
        var hasVideo := HasVideoFile(node);
        if hasVideo {
          ClassifyMovieDirNoNFO(node, ctx, result);
          return;
        }
      }
      WalkSubdirs(node, ctx, result);
    }

    /** Classify a child directory and append its result. */
    method WalkSubdir(child: FSNode, childCtx: WalkContext, result: ClassificationResult)
      requires result.unknown == []
      modifies result, childCtx.claims, ids
      ensures result.unknown == []
      ensures Now(result, childCtx) ==
              Then(old(Now(result, childCtx)),
                  Tree(cfg, child, childCtx.Value(), old(childCtx.claims.paths), old(ids.next)))
      decreases child, 3
    {
      var childResult := ClassifyTree(child, childCtx);
      result.Absorb(childResult);
    }

    /** The loop over child directories. */
    method WalkSubdirs(node: FSNode, childCtx: WalkContext, result: ClassificationResult)
      requires result.unknown == []
      modifies result, childCtx.claims, ids
      ensures result.unknown == []
      ensures Now(result, childCtx) ==
              Then(old(Now(result, childCtx)),
                   Kids(cfg, node, |node.children|, false, childCtx.Value(), old(childCtx.claims.paths), old(ids.next)))
      decreases node, 0
    {
      ghost var before := Now(result, childCtx);
      KidsNone(cfg, node, false, childCtx.Value(), before);
      for i := 0 to |node.children|
        invariant result.unknown == []
        invariant Now(result, childCtx) ==
                      Then(before, Kids(cfg, node, i, false, childCtx.Value(), before.claims, before.next))
      {
        ghost var here := Now(result, childCtx);
        KidsStep(cfg, node, i, false, childCtx.Value(), before);
        if node.children[i].isDir {
          WalkSubdir(node.children[i], childCtx, result);
        } else {
          KidSkipped(cfg, node, i, false, childCtx.Value(), here);
        }
      }
    }

    /** The loop over child directories and videos: an unclaimed video becomes an episode. */
    method WalkSubdirsAndVideos(node: FSNode, childCtx: WalkContext, result: ClassificationResult)
      requires result.unknown == []
      modifies result, childCtx.claims, ids
      ensures result.unknown == []
      ensures Now(result, childCtx) ==
              Then(old(Now(result, childCtx)),
                   Kids(cfg, node, |node.children|, true, childCtx.Value(), old(childCtx.claims.paths), old(ids.next)))
      decreases node, 0
    {
      ghost var before := Now(result, childCtx);
      KidsNone(cfg, node, true, childCtx.Value(), before);
      for i := 0 to |node.children|
        invariant result.unknown == []
        invariant Now(result, childCtx) ==
                      Then(before, Kids(cfg, node, i, true, childCtx.Value(), before.claims, before.next))
      {
        ghost var here := Now(result, childCtx);
        KidsStep(cfg, node, i, true, childCtx.Value(), before);
        if node.children[i].isDir {
          WalkSubdir(node.children[i], childCtx, result);
        } else if node.children[i].kind == Video {
          TakeVideo(node, i, childCtx, result);
        } else {
          KidSkipped(cfg, node, i, true, childCtx.Value(), here);
        }
      }
    }

    /** The body of that loop for a video. */
    method TakeVideo(node: FSNode, i: nat, childCtx: WalkContext, result: ClassificationResult)
      requires i < |node.children| && IsVideo(node.children[i])
      modifies result, childCtx.claims, ids
      ensures result.unknown == old(result.unknown)
      ensures Now(result, childCtx) ==
              Then(old(Now(result, childCtx)),
                  Kid(cfg, node, i, true, childCtx.Value(), old(childCtx.claims.paths), old(ids.next)))
    {
      var child := node.children[i];
      if child.path in childCtx.claims.paths {
        return;
      }
      var candidate := ClassifyEpisodeFile(child, childCtx);
      result.candidates := result.candidates + [candidate];
    }

    method ClassifyContainerDir(node: FSNode, ctx: WalkContext, result: ClassificationResult)
      requires result.unknown == []
      modifies result, ctx.claims, ids
      ensures result.unknown == []
      ensures Now(result, ctx) ==
              Then(old(Now(result, ctx)),
                  Handle(cfg, node, ContainerDir, ctx.Value(), old(ctx.claims.paths), old(ids.next)))
      decreases node, 1
    {
      var childCtx := new WalkContext(Ctx(Container, ctx.showRoot, ctx.showId, None), ctx.claims);
      WalkSubdirs(node, childCtx, result);
    }

    method ClassifyShowDir(node: FSNode, ctx: WalkContext, result: ClassificationResult)
      requires result.unknown == []
      modifies result, ctx.claims, ids
      ensures result.unknown == []
      ensures Now(result, ctx) ==
              Then(old(Now(result, ctx)), Handle(cfg, node, ShowDir, ctx.Value(), old(ctx.claims.paths), old(ids.next)))
      decreases node, 1
    {
      if cfg.libraryType == "movie" {
        result.rejected := result.rejected + [RejectedItem(node.path, Show, ShowInMovieLibrary)];
        return;
      }
      ghost var start := Now(result, ctx);
      var showId := ids.New();
      var candidate := ShowCandidate(cfg, node, showId);
      result.candidates := result.candidates + [candidate];
      ctx.claims.paths := ctx.claims.paths[node.path := PathClaim(showId, Show, node.path)];
      var childCtx := new WalkContext(Ctx(Show, node.path, showId, None), ctx.claims);
      ghost var before := Now(result, ctx);
      ghost var own := Append(candidate, start.claims, start.next);
      assert before == Then(start, own);
      WalkSubdirs(node, childCtx, result);
      ThenAssoc(start, own, Kids(cfg, node, |node.children|, false, childCtx.Value(), before.claims, before.next));
    }

    method ClassifyMovieDir(node: FSNode, nfoPath: Path, ctx: WalkContext, result: ClassificationResult)
      modifies result, ctx.claims, ids
      ensures result.unknown == old(result.unknown)
      ensures Now(result, ctx) ==
              Then(old(Now(result, ctx)),
                  Handle(cfg, node, MovieDir(nfoPath), ctx.Value(), old(ctx.claims.paths), old(ids.next)))
    {
      if cfg.libraryType == "show" {
        result.rejected := result.rejected + [RejectedItem(node.path, Movie, MovieInShowLibrary)];
        return;
      }
      var videoPath := FindVideoFileInDir(cfg.fs, node.path);
      if videoPath.NoPath? {
        result.rejected := result.rejected + [RejectedItem(node.path, Movie, MovieWithoutVideo)];
        return;
      }
      if videoPath in ctx.claims.paths {
        return;
      }
      var id := ids.New();
      result.candidates := result.candidates + [MovieCandidate(cfg, node, videoPath, nfoPath, id)];
      ctx.claims.paths := ctx.claims.paths[videoPath := PathClaim(id, Movie, videoPath)];
    }

    method ClassifyMovieDirNoNFO(node: FSNode, ctx: WalkContext, result: ClassificationResult)
      modifies result, ctx.claims, ids
      ensures result.unknown == old(result.unknown)
      ensures Now(result, ctx) ==
              Then(old(Now(result, ctx)),
                  Handle(cfg, node, FallbackMovieDir, ctx.Value(), old(ctx.claims.paths), old(ids.next)))
    {
      if cfg.libraryType == "show" {
        result.rejected := result.rejected + [RejectedItem(node.path, Movie, MovieInShowLibrary)];
        return;
      }
      var videoPath := NoPath;
      for i := 0 to |node.children|
        invariant FirstVideoChild(node.children) == FirstVideoChild(node.children[i..])
      {
        assert node.children[i..][1..] == node.children[i+1..];
        if !node.children[i].isDir && node.children[i].kind == Video {
          videoPath := node.children[i].path;
          break;
        }
      }
      if videoPath.NoPath? {
        return;
      }
      if videoPath in ctx.claims.paths {
        return;
      }
      var id := ids.New();
      result.candidates := result.candidates + [MovieCandidate(cfg, node, videoPath, NoPath, id)];
      ctx.claims.paths := ctx.claims.paths[videoPath := PathClaim(id, Movie, videoPath)];
    }

    method ClassifySeasonDir(node: FSNode, ctx: WalkContext, result: ClassificationResult)
      requires result.unknown == []
      modifies result, ctx.claims, ids
      ensures result.unknown == []
      ensures Now(result, ctx) ==
              Then(old(Now(result, ctx)),
                  Handle(cfg, node, SeasonDir, ctx.Value(), old(ctx.claims.paths), old(ids.next)))
      decreases node, 1
    {
      var childCtx := new WalkContext(Ctx(Season, ctx.showRoot, ctx.showId, SeasonNumberOf(node.name)), ctx.claims);
      WalkSubdirsAndVideos(node, childCtx, result);
    }

    method ClassifyEpisodeDir(node: FSNode, ctx: WalkContext, result: ClassificationResult)
      requires result.unknown == []
      modifies result, ctx.claims, ids
      ensures result.unknown == []
      ensures Now(result, ctx) ==
              Then(old(Now(result, ctx)),
                  Handle(cfg, node, EpisodeDir, ctx.Value(), old(ctx.claims.paths), old(ids.next)))
      decreases node, 1
    {
      WalkSubdirsAndVideos(node, ctx, result);
    }

    method ClassifyEpisodeFile(node: FSNode, ctx: WalkContext) returns (candidate: Candidate)
      modifies ctx.claims, ids
      ensures candidate == EpisodeCandidate(cfg, node, ctx.Value(), Uuid(old(ids.next)))
      ensures ctx.claims.paths == old(ctx.claims.paths)[node.path := ClaimOf(candidate)]
      ensures ids.next == old(ids.next) + 1
    {
      var (season, episode) := ExtractEpisodeInfo(node.name);
      if season == 0 && ctx.seasonNumber.Some? {
        season := ctx.seasonNumber.value;
      }
      var id := ids.New();
      candidate := Candidate(id, cfg.libraryId, Episode, NoPath, node.path, NoPath, ctx.showId, Some(season),
          Some(episode));
      ctx.claims.paths := ctx.claims.paths[node.path := PathClaim(id, Episode, node.path)];
    }
  }
}
