// Stage 2: what the classifier computes, with the claims map and the identifier supply passed
// from call to call (importer_classify.go).
module Classify {
  import opened Base
  import opened Paths
  import opened Names
  import opened FileSystem
  import opened ImportContext

  datatype Settings = Settings(fs: FS, libraryId: string, libraryType: string)

  /** The parts of a WalkContext that classification reads, apart from the shared claims map. */
  datatype Ctx = Ctx(parentKind: EntityKind, showRoot: Path, showId: Id, seasonNumber: Option<nat>)

  const ROOT_CTX: Ctx := Ctx(NoKind, NoPath, NoId, None)

  /** What one call adds: candidates, rejections and scanned directories, and the claims map and
      identifier supply it leaves behind. */
  datatype Outcome = Outcome(
    cands: seq<Candidate>, rejected: seq<RejectedItem>, scanned: nat, claims: map<Path, PathClaim>, next: nat)

  // ---- Directory contents -----------------------------------------------------------------

  predicate DecodesAsMovie(fs: FS, dir: Path, e: DirEntry) {
    !e.isDir && IsMovieNfoName(e.name) && fs.movieTitle(Join(dir, e.name)).Some?
  }

  predicate DecodesAsTitledMovie(fs: FS, dir: Path, e: DirEntry) {
    && !e.isDir && !IsMovieNfoName(e.name) && Ext(e.name) == ".nfo"
    && fs.movieTitle(Join(dir, e.name)).Some? && fs.movieTitle(Join(dir, e.name)).value != ""
  }

  function FirstStandardNFO(fs: FS, dir: Path, es: seq<DirEntry>): Path {
    if es == [] then NoPath
    else if DecodesAsMovie(fs, dir, es[0]) then Join(dir, es[0].name)
    else FirstStandardNFO(fs, dir, es[1..])
  }

  function FirstOtherNFO(fs: FS, dir: Path, es: seq<DirEntry>): Path {
    if es == [] then NoPath
    else if DecodesAsTitledMovie(fs, dir, es[0]) then Join(dir, es[0].name)
    else FirstOtherNFO(fs, dir, es[1..])
  }

  /** findMovieNFO: movie.nfo in any case first, else the first other NFO with a titled <movie>. */
  function MovieNFO(fs: FS, dir: Path): Path {
    if fs.readDir(dir).None? then NoPath
    else
      var es := fs.readDir(dir).value;
      var standard := FirstStandardNFO(fs, dir, es);
      if standard.Path? then standard else FirstOtherNFO(fs, dir, es)
  }

  predicate IsVideoEntry(e: DirEntry) {
    !e.isDir && Ext(e.name) in VIDEO_EXTENSIONS
  }

  /** The scan of findVideoFileInDir with an empty title: a video whose name is only its extension
      matches the title and wins at once, otherwise the first video does. */
  function VideoAmong(dir: Path, es: seq<DirEntry>, firstVideo: Path): Path {
    if es == [] then firstVideo
    else if !IsVideoEntry(es[0]) then VideoAmong(dir, es[1..], firstVideo)
    else if TrimExt(es[0].name) == "" then Join(dir, es[0].name)
    else VideoAmong(dir, es[1..], if firstVideo.NoPath? then Join(dir, es[0].name) else firstVideo)
  }

  function VideoIn(fs: FS, dir: Path): Path {
    if fs.readDir(dir).None? then NoPath else VideoAmong(dir, fs.readDir(dir).value, NoPath)
  }

  function FirstVideoChild(kids: seq<FSNode>): Path {
    if kids == [] then NoPath
    else if IsVideo(kids[0]) then kids[0].path
    else FirstVideoChild(kids[1..])
  }

  predicate HasVideoChild(node: FSNode) {
    exists i :: 0 <= i < |node.children| && IsVideo(node.children[i])
  }

  predicate HasSubdir(node: FSNode) {
    exists i :: 0 <= i < |node.children| && node.children[i].isDir
  }

  predicate IsTransparent(node: FSNode) {
    HasSubdir(node) && !HasVideoChild(node)
  }

  // ---- How a directory is handled -----------------------------------------------------------

  datatype Role =
    | ShowDir
    | MovieDir(nfo: Path)
    | SeasonDir
    | EpisodeDir
    | ContainerDir
    | FallbackMovieDir
    | PlainDir

  /** The decision of classifyTree, in its order. */
  function RoleOf(cfg: Settings, node: FSNode, ctx: Ctx): Role {
    if cfg.fs.HasShowNFO(node.path) then ShowDir
    else
      var nfo := MovieNFO(cfg.fs, node.path);
      if nfo.Path? then MovieDir(nfo)
      else if (ctx.parentKind == Show || ctx.parentKind == Season) && IsSeasonDirName(node.name) then SeasonDir
      else if ctx.parentKind == Season then EpisodeDir
      else if IsTransparent(node) then ContainerDir
      else if ctx.parentKind in {Unknown, NoKind, Container} && HasVideoChild(node) then FallbackMovieDir
      else PlainDir
  }

  /** The context for the children of a directory handled as role; showId is the new show's. */
  function KidCtx(role: Role, node: FSNode, ctx: Ctx, showId: Id): Ctx {
    match role
    case ShowDir => Ctx(Show, node.path, showId, None)
    case SeasonDir => Ctx(Season, ctx.showRoot, ctx.showId, SeasonNumberOf(node.name))
    case ContainerDir => Ctx(Container, ctx.showRoot, ctx.showId, None)
    case _ => ctx
  }

  predicate TakesVideos(role: Role) {
    role.SeasonDir? || role.EpisodeDir?
  }

  predicate IsMovieRole(role: Role) {
    role.MovieDir? || role.FallbackMovieDir?
  }

  // ---- Candidates ---------------------------------------------------------------------------

  function ShowCandidate(cfg: Settings, node: FSNode, id: Id): Candidate {
    Candidate(id, cfg.libraryId, Show, node.path, NoPath, Join(node.path, "tvshow.nfo"), NoId, None, None)
  }

  function MovieCandidate(cfg: Settings, node: FSNode, video: Path, nfo: Path, id: Id): Candidate {
    Candidate(id, cfg.libraryId, Movie, node.path, video, nfo, NoId, None, None)
  }

  function EpisodeCandidate(cfg: Settings, node: FSNode, ctx: Ctx, id: Id): Candidate {
    var (season, episode) := ExtractEpisodeInfo(node.name);
    var s := if season == 0 && ctx.seasonNumber.Some? then ctx.seasonNumber.value else season;
    Candidate(id, cfg.libraryId, Episode, NoPath, node.path, NoPath, ctx.showId, Some(s), Some(episode))
  }

  /** The video and NFO a movie directory offers. */
  function MovieVideo(cfg: Settings, node: FSNode, role: Role): Path
    requires IsMovieRole(role)
  {
    if role.MovieDir? then VideoIn(cfg.fs, node.path) else FirstVideoChild(node.children)
  }

  function MovieNfoOf(role: Role): Path
    requires IsMovieRole(role)
  {
    if role.MovieDir? then role.nfo else NoPath
  }

  /** The rejection a directory handled as role gives rise to, if any. */
  function Refusal(cfg: Settings, node: FSNode, role: Role): seq<RejectedItem> {
    if role.ShowDir? && cfg.libraryType == "movie" then [RejectedItem(node.path, Show, ShowInMovieLibrary)]
    else if IsMovieRole(role) && cfg.libraryType == "show" then [RejectedItem(node.path, Movie, MovieInShowLibrary)]
    else if role.MovieDir? && MovieVideo(cfg, node, role).NoPath? then
        [RejectedItem(node.path, Movie, MovieWithoutVideo)]
    else []
  }

  // ---- The walk -------------------------------------------------------------------------------

  function Tree(cfg: Settings, node: FSNode, ctx: Ctx, claims: map<Path, PathClaim>, next: nat): Outcome
    decreases node, |node.children| + 2
  {
    if !node.isDir then Outcome([], [], 0, claims, next)
    else Then(Outcome([], [], 1, claims, next), Handle(cfg, node, RoleOf(cfg, node, ctx), ctx, claims, next))
  }

  function Handle(cfg: Settings, node: FSNode, role: Role, ctx: Ctx, claims: map<Path, PathClaim>, next: nat): Outcome
    decreases node, |node.children| + 1
  {
    var refusal := Refusal(cfg, node, role);
    if refusal != [] then Outcome([], refusal, 0, claims, next)
    else if IsMovieRole(role) then
      var video := MovieVideo(cfg, node, role);
      if video.NoPath? || video in claims then Outcome([], [], 0, claims, next)
      else Append(MovieCandidate(cfg, node, video, MovieNfoOf(role), Uuid(next)), claims, next)
    else if role.ShowDir? then
      var o := Append(ShowCandidate(cfg, node, Uuid(next)), claims, next);
      Then(o, Kids(cfg, node, |node.children|, false, KidCtx(role, node, ctx, Uuid(next)), o.claims, o.next))
    else
      Kids(cfg, node, |node.children|, TakesVideos(role), KidCtx(role, node, ctx, NoId), claims, next)
  }

  /** One candidate, carrying the next identifier, appended and claiming its key. */
  function Append(c: Candidate, claims: map<Path, PathClaim>, next: nat): Outcome {
    Outcome([c], [], 0, claims[ClaimKey(c) := ClaimOf(c)], next + 1)
  }

  /** The loop over the first i children: directories are walked, videos taken when videos is set. */
  function Kids(cfg: Settings, node: FSNode, i: nat, videos: bool, ctx: Ctx, claims: map<Path, PathClaim>,
                next: nat): Outcome
    requires i <= |node.children|
    decreases node, i
  {
    if i == 0 then Outcome([], [], 0, claims, next)
    else
      var o := Kids(cfg, node, i - 1, videos, ctx, claims, next);
      Then(o, Kid(cfg, node, i - 1, videos, ctx, o.claims, o.next))
  }

  function Kid(cfg: Settings, node: FSNode, i: nat, videos: bool, ctx: Ctx, claims: map<Path, PathClaim>,
               next: nat): Outcome
    requires i < |node.children|
    decreases node, i
  {
    var child := node.children[i];
    if child.isDir then Tree(cfg, child, ctx, claims, next)
    else if videos && child.kind == Video && child.path !in claims then
      Append(EpisodeCandidate(cfg, child, ctx, Uuid(next)), claims, next)
    else Outcome([], [], 0, claims, next)
  }

  /** The results of two consecutive calls. */
  function Then(a: Outcome, b: Outcome): Outcome {
    Outcome(a.cands + b.cands, a.rejected + b.rejected, a.scanned + b.scanned, b.claims, b.next)
  }

  lemma ThenAssoc(a: Outcome, b: Outcome, c: Outcome)
    ensures Then(Then(a, b), c) == Then(a, Then(b, c))
  {
    assert a.cands + b.cands + c.cands == a.cands + (b.cands + c.cands);
    assert a.rejected + b.rejected + c.rejected == a.rejected + (b.rejected + c.rejected);
  }

  /** What a loop over the children adds to start with one more child. */
  lemma KidsStep(cfg: Settings, node: FSNode, i: nat, videos: bool, ctx: Ctx, start: Outcome)
    requires i < |node.children|
    ensures var o := Then(start, Kids(cfg, node, i, videos, ctx, start.claims, start.next));
            Then(start, Kids(cfg, node, i + 1, videos, ctx, start.claims, start.next)) ==
            Then(o, Kid(cfg, node, i, videos, ctx, o.claims, o.next))
  {
    var o := Kids(cfg, node, i, videos, ctx, start.claims, start.next);
    ThenAssoc(start, o, Kid(cfg, node, i, videos, ctx, o.claims, o.next));
  }

  /** A child that is neither a directory nor a video to be taken adds nothing. */
  lemma KidSkipped(cfg: Settings, node: FSNode, i: nat, videos: bool, ctx: Ctx, now: Outcome)
    requires i < |node.children| && !node.children[i].isDir && !(videos && node.children[i].kind == Video)
    ensures Then(now, Kid(cfg, node, i, videos, ctx, now.claims, now.next)) == now
  {
  }

  lemma KidsNone(cfg: Settings, node: FSNode, videos: bool, ctx: Ctx, now: Outcome)
    ensures Then(now, Kids(cfg, node, 0, videos, ctx, now.claims, now.next)) == now
  {
  }
}
