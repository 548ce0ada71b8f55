// Where shows, movies and episodes come from, told by the names and files on the way down to a directory alone:
// without roles, contexts, claims or traversal.
module Trails {
  import opened Base
  import opened Decimal
  import opened Paths
  import opened Names
  import opened FileSystem
  import opened ImportContext
  import opened Classify
  import opened Visits
  import opened Separation
  import opened Scan
  import opened PathMeaning

  /** The directories from root down to one of them, each inside the one before. */
  ghost predicate IsTrail(root: FSNode, t: seq<FSNode>) {
    && t != [] && t[0] == root && (forall i :: 0 <= i < |t| ==> t[i].isDir)
    && forall i :: 0 < i < |t| ==> t[i] in t[i-1].children
  }

  function Last(t: seq<FSNode>): FSNode
    requires t != []
  {
    t[|t|-1]
  }

  function NamesOf(t: seq<FSNode>): seq<string>
    requires t != []
  {
    seq(|t| - 1, i requires 0 <= i < |t| - 1 => t[i+1].name)
  }

  predicate HasShowFile(fs: FS, d: FSNode) {
    fs.exists_(Join(d.path, "tvshow.nfo"))
  }

  predicate HasMovieFile(fs: FS, d: FSNode) {
    MovieNFO(fs, d.path).Path?
  }

  predicate HasVideos(d: FSNode) {
    exists f :: f in d.children && !f.isDir && f.kind == Video
  }

  predicate NoNFO(fs: FS, d: FSNode) {
    !HasShowFile(fs, d) && !HasMovieFile(fs, d)
  }

  /** t[a] is a show and t[b] a season of it: nothing below the show on the way holds an NFO of its own, and every
      directory between show and season holds videos, so that none of them is a mere grouping directory. */
  ghost predicate InSeasonOf(fs: FS, t: seq<FSNode>, a: int, b: int) {
    && 0 <= a < b < |t| && HasShowFile(fs, t[a]) && IsSeasonDirName(t[b].name)
    && (forall m :: a < m < |t| ==> NoNFO(fs, t[m])) && (forall m :: a < m < b ==> HasVideos(t[m]))
  }

  /** t[a] is a show, and the way goes on from it through directories with videos, none of them a season. */
  ghost predicate InShowOf(fs: FS, t: seq<FSNode>, a: int) {
    && 0 <= a < |t| && HasShowFile(fs, t[a])
    && forall m :: a < m < |t| ==> NoNFO(fs, t[m]) && HasVideos(t[m]) && !IsSeasonDirName(t[m].name)
  }

  ghost predicate InSeason(fs: FS, t: seq<FSNode>) {
    exists a, b :: InSeasonOf(fs, t, a, b)
  }

  ghost predicate InShow(fs: FS, t: seq<FSNode>) {
    exists a :: InShowOf(fs, t, a)
  }

  /** The last directory of t is no movie and is not refused: the search goes on below it. */
  ghost predicate Passed(cfg: Settings, t: seq<FSNode>)
    requires t != []
  {
    if HasShowFile(cfg.fs, Last(t)) then cfg.libraryType != "movie"
    else !HasMovieFile(cfg.fs, Last(t)) && (HasVideos(Last(t)) ==> InShow(cfg.fs, t) || InSeason(cfg.fs, t))
  }

  /** The search gets as far as the last directory. */
  ghost predicate Arrives(cfg: Settings, t: seq<FSNode>) {
    forall n :: 0 < n < |t| ==> Passed(cfg, t[..n])
  }

  // ---- One more directory -------------------------------------------------------------------------------------------

  lemma InShowMore(fs: FS, u: seq<FSNode>, c: FSNode)
    ensures InShow(fs, u + [c]) <==>
            HasShowFile(fs, c) || (NoNFO(fs, c) && HasVideos(c) && !IsSeasonDirName(c.name) && InShow(fs, u))
  {
    var t := u + [c];
    assert t[|u|] == c;
    if HasShowFile(fs, c) {
      assert InShowOf(fs, t, |u|);
    } else if InShow(fs, u) && NoNFO(fs, c) && HasVideos(c) && !IsSeasonDirName(c.name) {
      var a :| InShowOf(fs, u, a);
      assert InShowOf(fs, t, a);
    }
    if InShow(fs, t) && !HasShowFile(fs, c) {
      var a :| InShowOf(fs, t, a);
      assert forall m :: 0 <= m < |u| ==> t[m] == u[m];
      assert InShowOf(fs, u, a);
    }
  }

  lemma InSeasonMore(fs: FS, u: seq<FSNode>, c: FSNode)
    ensures InSeason(fs, u + [c]) <==>
            NoNFO(fs, c) && (InSeason(fs, u) || (InShow(fs, u) && IsSeasonDirName(c.name)))
  {
    var t := u + [c];
    if NoNFO(fs, c) && InSeason(fs, u) {
      var a, b :| InSeasonOf(fs, u, a, b);
      assert InSeasonOf(fs, t, a, b);
    } else if NoNFO(fs, c) && InShow(fs, u) && IsSeasonDirName(c.name) {
      var a :| InShowOf(fs, u, a);
      assert InSeasonOf(fs, t, a, |u|);
    }
    if InSeason(fs, t) {
      InSeasonLess(fs, u, c);
    }
  }

  lemma InSeasonLess(fs: FS, u: seq<FSNode>, c: FSNode)
    requires InSeason(fs, u + [c])
    ensures NoNFO(fs, c) && (InSeason(fs, u) || (InShow(fs, u) && IsSeasonDirName(c.name)))
  {
    var t := u + [c];
    var a, b :| InSeasonOf(fs, t, a, b);
    assert t[|u|] == c && NoNFO(fs, t[|u|]) && forall m :: 0 <= m < |u| ==> t[m] == u[m];
    if b < |u| {
      assert InSeasonOf(fs, u, a, b);
    } else if m :| a < m < b && IsSeasonDirName(t[m].name) {
      assert InSeasonOf(fs, u, a, m);
    } else {
      assert InShowOf(fs, u, a);
    }
  }

  lemma VideosAgree(d: FSNode)
    ensures HasVideos(d) <==> HasVideoChild(d)
  {
    if HasVideos(d) {
      var f :| f in d.children && !f.isDir && f.kind == Video;
      var i :| 0 <= i < |d.children| && d.children[i] == f;
      assert IsVideo(d.children[i]);
    }
    if HasVideoChild(d) {
      var i :| 0 <= i < |d.children| && IsVideo(d.children[i]);
      assert d.children[i] in d.children;
    }
  }

  /** The season-named directory nearest to the end of t. */
  ghost predicate NearestSeason(t: seq<FSNode>, b: int) {
    0 <= b < |t| && IsSeasonDirName(t[b].name) && forall m :: b < m < |t| ==> !IsSeasonDirName(t[m].name)
  }

  /** The kind of context that the directories of t hand down. */
  ghost predicate TellsKind(fs: FS, t: seq<FSNode>, kind: EntityKind) {
    && kind in {NoKind, Container, Show, Season}
    && (kind == Show <==> InShow(fs, t)) && (kind == Season <==> InSeason(fs, t))
  }

  ghost predicate TellsNumber(t: seq<FSNode>, n: Option<nat>) {
    exists b :: NearestSeason(t, b) && n == SeasonNumberOf(t[b].name)
  }

  ghost predicate Tells(fs: FS, t: seq<FSNode>, ctx: Ctx) {
    TellsKind(fs, t, ctx.parentKind) && (ctx.parentKind == Season ==> TellsNumber(t, ctx.seasonNumber))
  }

  /** Videos are taken exactly in seasons. */
  lemma TakesInSeason(cfg: Settings, u: seq<FSNode>, c: FSNode, ctx: Ctx)
    requires TellsKind(cfg.fs, u, ctx.parentKind)
    ensures TakesVideos(RoleOf(cfg, c, ctx)) <==> InSeason(cfg.fs, u + [c])
  {
    InSeasonMore(cfg.fs, u, c);
  }

  /** The search goes on below a directory exactly when the names and files say so. */
  lemma DescendsIffPassed(cfg: Settings, u: seq<FSNode>, c: FSNode, ctx: Ctx)
    requires TellsKind(cfg.fs, u, ctx.parentKind)
    ensures Descends(cfg, c, RoleOf(cfg, c, ctx)) <==> Passed(cfg, u + [c])
  {
    assert Last(u + [c]) == c;
    InShowMore(cfg.fs, u, c);
    InSeasonMore(cfg.fs, u, c);
    VideosAgree(c);
  }

  lemma HandsDownKind(cfg: Settings, u: seq<FSNode>, c: FSNode, ctx: Ctx)
    requires TellsKind(cfg.fs, u, ctx.parentKind) && HasSubdir(c)
    requires Descends(cfg, c, RoleOf(cfg, c, ctx))
    ensures TellsKind(cfg.fs, u + [c], KidCtx(RoleOf(cfg, c, ctx), c, ctx, NoId).parentKind)
  {
    InShowMore(cfg.fs, u, c);
    InSeasonMore(cfg.fs, u, c);
    VideosAgree(c);
  }

  lemma HandsDown(cfg: Settings, u: seq<FSNode>, c: FSNode, ctx: Ctx)
    requires Tells(cfg.fs, u, ctx) && HasSubdir(c) && Descends(cfg, c, RoleOf(cfg, c, ctx))
    ensures Tells(cfg.fs, u + [c], KidCtx(RoleOf(cfg, c, ctx), c, ctx, NoId))
  {
    HandsDownKind(cfg, u, c, ctx);
    SeasonContexts(cfg, c, ctx);
    SeasonHandsDown(cfg, u, c, ctx);
  }

  lemma SeasonContexts(cfg: Settings, c: FSNode, ctx: Ctx)
    ensures var role := RoleOf(cfg, c, ctx);
            Descends(cfg, c, role) && KidCtx(role, c, ctx, NoId).parentKind == Season ==> TakesVideos(role)
  {
  }

  /** In a season the number is that of the nearest directory named like one. */
  lemma SeasonHandsDown(cfg: Settings, u: seq<FSNode>, c: FSNode, ctx: Ctx)
    requires ctx.parentKind == Season ==> TellsNumber(u, ctx.seasonNumber)
    ensures var kid := KidCtx(RoleOf(cfg, c, ctx), c, ctx, NoId);
            TakesVideos(RoleOf(cfg, c, ctx)) ==> TellsNumber(u + [c], kid.seasonNumber)
  {
    var role := RoleOf(cfg, c, ctx);
    if role.SeasonDir? {
      NearestIsNew(u, c);
    } else if role.EpisodeDir? {
      NearestStays(u, c, ctx.seasonNumber);
    }
  }

  lemma NearestIsNew(u: seq<FSNode>, c: FSNode)
    requires IsSeasonDirName(c.name)
    ensures TellsNumber(u + [c], SeasonNumberOf(c.name))
  {
    assert (u + [c])[|u|] == c;
    assert NearestSeason(u + [c], |u|);
  }

  lemma NearestStays(u: seq<FSNode>, c: FSNode, n: Option<nat>)
    requires TellsNumber(u, n) && !IsSeasonDirName(c.name)
    ensures TellsNumber(u + [c], n)
  {
    var b :| NearestSeason(u, b) && n == SeasonNumberOf(u[b].name);
    var t := u + [c];
    assert t[b] == u[b];
    forall m | b < m < |t|
      ensures !IsSeasonDirName(t[m].name)
    {
      assert t[m] == if m < |u| then u[m] else c;
    }
    assert NearestSeason(t, b);
  }

  // ---- Following the names of a trail -------------------------------------------------------------------------------

  /** One name further down. */
  function Onward(cfg: Settings, p: Place, name: string): Option<Place> {
    var child := ChildNamed(p.node.children, name);
    if !Descends(cfg, p.node, RoleAt(cfg, p)) || child.None? || !child.value.isDir then None
    else Some(Place(child.value, Inside(cfg, p)))
  }

  lemma {:induction false} FollowMore(cfg: Settings, node: FSNode, ctx: Ctx, segs: seq<string>, name: string)
    ensures var p := Follow(cfg, node, ctx, segs);
            Follow(cfg, node, ctx, segs + [name]) == if p.None? then None else Onward(cfg, p.value, name)
    decreases |segs|
  {
    var all := segs + [name];
    if segs == [] {
      assert all[1..] == [];
    } else {
      assert all[1..] == segs[1..] + [name] && all[0] == segs[0];
      var child := ChildNamed(node.children, segs[0]);
      if node.isDir && Descends(cfg, node, RoleOf(cfg, node, ctx)) && child.Some? {
        FollowMore(cfg, child.value, KidCtx(RoleOf(cfg, node, ctx), node, ctx, NoId), segs[1..], name);
      }
    }
  }

  lemma {:induction false} TrailIsAt(root: FSNode, t: seq<FSNode>)
    requires IsTrail(root, t)
    ensures At(root, NamesOf(t), Last(t))
    decreases |t|
  {
    if |t| > 1 {
      var rest := t[1..];
      assert rest[0] in root.children;
      var i :| 0 <= i < |root.children| && root.children[i] == rest[0];
      assert forall j :: 0 < j < |rest| ==> rest[j] == t[j+1] && rest[j-1] == t[j];
      TrailIsAt(rest[0], rest);
      assert NamesOf(t)[1..] == NamesOf(rest) && Last(rest) == Last(t);
    }
  }

  /** Following the names of a trail leads to its end exactly when the search gets that far, in the context that the
      names and files above tell. */
  lemma {:induction false} FollowTrail(cfg: Settings, root: FSNode, t: seq<FSNode>)
    requires WellFormed(root) && IsTrail(root, t)
    ensures var p := Follow(cfg, root, ROOT_CTX, NamesOf(t));
            && (p.Some? <==> Arrives(cfg, t))
            && (p.Some? ==> p.value.node == Last(t) && Tells(cfg.fs, t[..|t|-1], p.value.ctx))
    decreases |t|
  {
    var u, c := t[..|t|-1], Last(t);
    if u != [] {
      assert IsTrail(root, u) && u + [c] == t;
      FollowTrail(cfg, root, u);
      assert NamesOf(t) == NamesOf(u) + [c.name];
      FollowMore(cfg, root, ROOT_CTX, NamesOf(u), c.name);
      ArrivesMore(cfg, u, c);
      var p := Follow(cfg, root, ROOT_CTX, NamesOf(u));
      if p.Some? {
        TrailIsAt(root, u);
        AtWellFormed(root, NamesOf(u), Last(u));
        TrailStep(cfg, u, c, p.value);
      }
    }
  }

  lemma ArrivesMore(cfg: Settings, u: seq<FSNode>, c: FSNode)
    requires u != []
    ensures Arrives(cfg, u + [c]) <==> Arrives(cfg, u) && Passed(cfg, u)
  {
    var t := u + [c];
    assert t[..|u|] == u && forall n :: 0 < n < |u| ==> t[..n] == u[..n];
  }

  lemma TrailStep(cfg: Settings, u: seq<FSNode>, c: FSNode, p: Place)
    requires u != [] && c in Last(u).children && c.isDir && WellFormed(Last(u))
    requires p.node == Last(u) && Tells(cfg.fs, u[..|u|-1], p.ctx)
    ensures var q := Onward(cfg, p, c.name);
            (q.Some? <==> Passed(cfg, u)) && (q.Some? ==> q.value.node == c && Tells(cfg.fs, u, q.value.ctx))
  {
    var before := u[..|u|-1];
    assert before + [Last(u)] == u;
    var i :| 0 <= i < |p.node.children| && p.node.children[i] == c;
    ChildNamedIs(p.node.children, i);
    DescendsIffPassed(cfg, before, p.node, p.ctx);
    if Passed(cfg, u) {
      HandsDown(cfg, before, p.node, p.ctx);
    }
  }

  // ---- Shows --------------------------------------------------------------------------------------------------------

  function CandidatesOf(cfg: Settings, root: FSNode, next: nat): seq<Candidate> {
    EraseAll(Scanning(cfg, root, next).cands)
  }

  /** A candidate rooted in the last directory of t comes from that directory's own visit, if the search gets there. */
  lemma RootedThere(cfg: Settings, root: FSNode, next: nat, t: seq<FSNode>, c: Candidate)
    requires WellFormed(root) && IsTrail(root, t) && c.rootPath == Last(t).path
    ensures var p := Follow(cfg, root, ROOT_CTX, NamesOf(t));
            c in CandidatesOf(cfg, root, next) <==>
            p.Some? && Emit(cfg, DirVisit(Last(t), RoleOf(cfg, Last(t), p.value.ctx))) == [c]
  {
    var p := Follow(cfg, root, ROOT_CTX, NamesOf(t));
    FollowTrail(cfg, root, t);
    TrailIsAt(root, t);
    PathAt(root, NamesOf(t), Last(t));
    CandidateIffReached(cfg, root, next, c);
    if p.Some? && Emit(cfg, DirVisit(Last(t), RoleAt(cfg, p.value))) == [c] {
      assert Leads(cfg, root, ROOT_CTX, NamesOf(t), DirVisit(Last(t), RoleAt(cfg, p.value)));
      assert EmittedSomewhere(cfg, root, c);
    }
    if EmittedSomewhere(cfg, root, c) {
      var w :| Reached(cfg, root, ROOT_CTX, w) && Emit(cfg, w) == [c];
      var s :| Leads(cfg, root, ROOT_CTX, s, w);
      FollowIsAt(cfg, root, ROOT_CTX, s);
      PathsIdentifyNodes(root, s, w.node, NamesOf(t), Last(t));
    }
  }

  ghost predicate Yields(cfg: Settings, root: FSNode, next: nat, kind: EntityKind, d: FSNode) {
    exists c :: c in CandidatesOf(cfg, root, next) && c.kind == kind && c.rootPath == d.path
  }

  /** A directory yields a show exactly when the search gets there, it holds tvshow.nfo and the library is no movie
      library. */
  lemma ShowIff(cfg: Settings, root: FSNode, next: nat, t: seq<FSNode>)
    requires WellFormed(root) && IsTrail(root, t)
    ensures Yields(cfg, root, next, Show, Last(t)) <==>
            Arrives(cfg, t) && HasShowFile(cfg.fs, Last(t)) && cfg.libraryType != "movie"
    ensures forall c :: c in CandidatesOf(cfg, root, next) && c.kind == Show && c.rootPath == Last(t).path ==>
              && c.libraryId == cfg.libraryId && c.nfoPath == Join(Last(t).path, "tvshow.nfo")
              && c.primaryPath == NoPath && c.seasonNumber == c.episodeNumber == None
  {
    var d := Last(t);
    FollowTrail(cfg, root, t);
    forall c | c in CandidatesOf(cfg, root, next) && c.kind == Show && c.rootPath == d.path
      ensures Arrives(cfg, t) && HasShowFile(cfg.fs, d) && cfg.libraryType != "movie"
      ensures c == ShowCandidate(cfg, d, NoId)
    {
      RootedThere(cfg, root, next, t, c);
      ShowEmits(cfg, d, Follow(cfg, root, ROOT_CTX, NamesOf(t)).value.ctx);
    }
    if Arrives(cfg, t) && HasShowFile(cfg.fs, d) && cfg.libraryType != "movie" {
      RootedThere(cfg, root, next, t, ShowCandidate(cfg, d, NoId));
      ShowEmits(cfg, d, Follow(cfg, root, ROOT_CTX, NamesOf(t)).value.ctx);
      assert ShowCandidate(cfg, d, NoId) in CandidatesOf(cfg, root, next);
    }
  }

  lemma ShowEmits(cfg: Settings, d: FSNode, ctx: Ctx)
    ensures var e := Emit(cfg, DirVisit(d, RoleOf(cfg, d, ctx)));
            var show := HasShowFile(cfg.fs, d) && cfg.libraryType != "movie";
            && (show ==> e == [ShowCandidate(cfg, d, NoId)])
            && (forall c :: e == [c] && c.kind == Show ==> show && c == ShowCandidate(cfg, d, NoId))
  {
  }

  // ---- Movies -------------------------------------------------------------------------------------------------------

  ghost predicate IsFirstVideo(d: FSNode, p: Path) {
    exists i :: 0 <= i < |d.children| && IsVideo(d.children[i]) && p == d.children[i].path &&
      forall j :: 0 <= j < i ==> !IsVideo(d.children[j])
  }

  lemma {:induction false} FirstVideoIsFirst(d: FSNode, i: nat)
    requires i <= |d.children| && forall j :: 0 <= j < i ==> !IsVideo(d.children[j])
    ensures HasVideos(d) ==> IsFirstVideo(d, FirstVideoChild(d.children[i..]))
    decreases |d.children| - i
  {
    if i < |d.children| {
      assert d.children[i..][1..] == d.children[i+1..];
      if !IsVideo(d.children[i]) {
        FirstVideoIsFirst(d, i + 1);
      }
    }
  }

  /** A directory yields a movie exactly when the search gets there, the library is no show library, it holds no
      tvshow.nfo, and either it has a movie NFO and a video file, or it has neither NFO, holds videos and lies in no
      show. */
  lemma MovieIff(cfg: Settings, root: FSNode, next: nat, t: seq<FSNode>)
    requires WellFormed(root) && IsTrail(root, t)
    ensures Yields(cfg, root, next, Movie, Last(t)) <==>
            && Arrives(cfg, t) && cfg.libraryType != "show" && !HasShowFile(cfg.fs, Last(t))
            && if HasMovieFile(cfg.fs, Last(t)) then VideoIn(cfg.fs, Last(t).path).Path?
               else HasVideos(Last(t)) && !InShow(cfg.fs, t) && !InSeason(cfg.fs, t)
    ensures forall c :: c in CandidatesOf(cfg, root, next) && c.kind == Movie && c.rootPath == Last(t).path ==>
              && c.libraryId == cfg.libraryId && c.nfoPath == MovieNFO(cfg.fs, Last(t).path)
              && (if c.nfoPath.Path? then c.primaryPath == VideoIn(cfg.fs, Last(t).path)
                  else IsFirstVideo(Last(t), c.primaryPath))
              && c.seasonNumber == c.episodeNumber == None
  {
    var d := Last(t);
    FollowTrail(cfg, root, t);
    TrailIsAt(root, t);
    AtWellFormed(root, NamesOf(t), d);
    forall c | c in CandidatesOf(cfg, root, next) && c.kind == Movie && c.rootPath == d.path
      ensures Arrives(cfg, t) && MovieHere(cfg, t) && c == MovieOf(cfg, d)
    {
      RootedThere(cfg, root, next, t, c);
      MovieEmits(cfg, t, Follow(cfg, root, ROOT_CTX, NamesOf(t)).value.ctx);
    }
    if Arrives(cfg, t) && MovieHere(cfg, t) {
      RootedThere(cfg, root, next, t, MovieOf(cfg, d));
      MovieEmits(cfg, t, Follow(cfg, root, ROOT_CTX, NamesOf(t)).value.ctx);
      assert MovieOf(cfg, d) in CandidatesOf(cfg, root, next);
    }
    FirstVideoIsFirst(d, 0);
    assert d.children[0..] == d.children;
  }

  ghost predicate MovieHere(cfg: Settings, t: seq<FSNode>)
    requires t != []
  {
    && cfg.libraryType != "show" && !HasShowFile(cfg.fs, Last(t))
    && if HasMovieFile(cfg.fs, Last(t)) then VideoIn(cfg.fs, Last(t).path).Path?
       else HasVideos(Last(t)) && !InShow(cfg.fs, t) && !InSeason(cfg.fs, t)
  }

  function MovieOf(cfg: Settings, d: FSNode): Candidate {
    var nfo := MovieNFO(cfg.fs, d.path);
    MovieCandidate(cfg, d, if nfo.Path? then VideoIn(cfg.fs, d.path) else FirstVideoChild(d.children), nfo, NoId)
  }

  lemma MovieEmits(cfg: Settings, t: seq<FSNode>, ctx: Ctx)
    requires t != [] && TellsKind(cfg.fs, t[..|t|-1], ctx.parentKind) && WellFormed(Last(t))
    ensures var e := Emit(cfg, DirVisit(Last(t), RoleOf(cfg, Last(t), ctx)));
            && (MovieHere(cfg, t) ==> e == [MovieOf(cfg, Last(t))])
            && (forall c :: e == [c] && c.kind == Movie ==> MovieHere(cfg, t) && c == MovieOf(cfg, Last(t)))
  {
    var u, d := t[..|t|-1], Last(t);
    assert u + [d] == t;
    InShowMore(cfg.fs, u, d);
    InSeasonMore(cfg.fs, u, d);
    VideosAgree(d);
    FallbackHasVideo(d);
  }

  // ---- Episodes -----------------------------------------------------------------------------------------------------

  ghost predicate YieldsEpisodeOf(cfg: Settings, root: FSNode, next: nat, f: FSNode) {
    exists c :: c in CandidatesOf(cfg, root, next) && c.kind == Episode && c.primaryPath == f.path
  }

  /** A video yields an episode exactly when the search gets to its directory and that lies in a season of a show. */
  lemma EpisodeIff(cfg: Settings, root: FSNode, next: nat, t: seq<FSNode>, f: FSNode)
    requires WellFormed(root) && IsTrail(root, t) && f in Last(t).children && IsVideo(f)
    ensures YieldsEpisodeOf(cfg, root, next, f) <==> Arrives(cfg, t) && InSeason(cfg.fs, t)
  {
    FollowTrail(cfg, root, t);
    var p := Follow(cfg, root, ROOT_CTX, NamesOf(t));
    if p.Some? {
      assert t[..|t|-1] + [Last(t)] == t;
      TakesInSeason(cfg, t[..|t|-1], Last(t), p.value.ctx);
      EpisodeIffInSeason(cfg, root, next, NamesOf(t), f);
    } else if c :| c in CandidatesOf(cfg, root, next) && c.kind == Episode && c.primaryPath == f.path {
      var w := VideoPlace(cfg, root, next, t, f, c);
    }
  }

  /** The episode of a video. */
  lemma EpisodeFields(cfg: Settings, root: FSNode, next: nat, t: seq<FSNode>, f: FSNode, c: Candidate)
    requires WellFormed(root) && IsTrail(root, t) && f in Last(t).children && IsVideo(f)
    requires c in CandidatesOf(cfg, root, next) && c.kind == Episode && c.primaryPath == f.path
    ensures c.libraryId == cfg.libraryId && c.rootPath == NoPath && NumbersFit(t, f, c)
  {
    var w := VideoPlace(cfg, root, next, t, f, c);
    FollowTrail(cfg, root, t);
    assert t[..|t|-1] + [Last(t)] == t;
    SeasonHandsDown(cfg, t[..|t|-1], Last(t), w.ctx);
  }

  /** The numbers are those of the video's name; a season missing there is that of the nearest directory named like
      one, if it has a number. */
  ghost predicate NumbersFit(t: seq<FSNode>, f: FSNode, c: Candidate) {
    var (season, episode) := ExtractEpisodeInfo(f.name);
    && c.episodeNumber == Some(episode)
    && exists b :: NearestSeason(t, b) && c.seasonNumber == Some(SeasonFor(season, SeasonNumberOf(t[b].name)))
  }

  function SeasonFor(season: nat, ofDirectory: Option<nat>): nat {
    if season == 0 && ofDirectory.Some? then ofDirectory.value else season
  }

  lemma VideoPlace(cfg: Settings, root: FSNode, next: nat, t: seq<FSNode>, f: FSNode, c: Candidate) returns (p: Place)
    requires WellFormed(root) && IsTrail(root, t) && f in Last(t).children
    requires c in CandidatesOf(cfg, root, next) && c.kind == Episode && c.primaryPath == f.path
    ensures Follow(cfg, root, ROOT_CTX, NamesOf(t)) == Some(p) && TakesVideos(RoleAt(cfg, p))
    ensures p.node == Last(t)
    ensures c == EpisodeCandidate(cfg, f, Inside(cfg, p).(showId := NoId), NoId)
  {
    TrailIsAt(root, t);
    FollowTrail(cfg, root, t);
    CandidateIffReached(cfg, root, next, c);
    var w :| Reached(cfg, root, ROOT_CTX, w) && Emit(cfg, w) == [c];
    var s :| Leads(cfg, root, ROOT_CTX, s, w);
    SamePlace(cfg, root, NamesOf(t), Last(t), s, f, w);
    p := Follow(cfg, root, ROOT_CTX, s).value;
  }

  /** A video whose name carries no season takes the number of the "Season n" directory nearest above it, at any
      depth. */
  lemma SeasonFromDirectory(cfg: Settings, root: FSNode, next: nat, t: seq<FSNode>, f: FSNode, c: Candidate, b: nat,
                            n: nat, width: nat)
    requires WellFormed(root) && IsTrail(root, t) && f in Last(t).children && IsVideo(f) && n <= MAX_INT64
    requires c in CandidatesOf(cfg, root, next) && c.kind == Episode && c.primaryPath == f.path
    requires NearestSeason(t, b) && t[b].name == "Season " + Padded(n, width) && ExtractEpisodeInfo(f.name).0 == 0
    ensures c.seasonNumber == Some(n)
  {
    EpisodeFields(cfg, root, next, t, f, c);
    SeasonNumberRoundTrip(n, width);
    var b' :| NearestSeason(t, b') && c.seasonNumber == Some(SeasonFor(0, SeasonNumberOf(t[b'].name)));
    assert b' == b;
  }

  /** Below a season directly in a show that the search gets to, in a library that takes shows, every video is an
      episode, at any depth, as long as no directory from the season down to it holds tvshow.nfo or a movie NFO. */
  lemma EpisodesBelowSeason(cfg: Settings, root: FSNode, next: nat, t: seq<FSNode>, a: nat, f: FSNode)
    requires WellFormed(root) && IsTrail(root, t) && f in Last(t).children && IsVideo(f)
    requires a + 1 < |t| && Arrives(cfg, t[..a+1]) && HasShowFile(cfg.fs, t[a]) && cfg.libraryType != "movie"
    requires IsSeasonDirName(t[a+1].name) && forall m :: a < m < |t| ==> NoNFO(cfg.fs, t[m])
    ensures YieldsEpisodeOf(cfg, root, next, f)
  {
    assert InSeasonOf(cfg.fs, t, a, a + 1);
    forall n | 0 < n < |t|
      ensures Passed(cfg, t[..n])
    {
      if n <= a {
        assert t[..a+1][..n] == t[..n];
      } else if n > a + 1 {
        assert InSeasonOf(cfg.fs, t[..n], a, a + 1);
      }
    }
    EpisodeIff(cfg, root, next, t, f);
  }

  /** A grouping directory without videos between a show and its seasons hides them: no video below it is an episode,
      unless another tvshow.nfo lies on the way. */
  lemma GroupingHidesEpisodes(cfg: Settings, root: FSNode, next: nat, t: seq<FSNode>, a: nat, g: nat, f: FSNode)
    requires WellFormed(root) && IsTrail(root, t) && f in Last(t).children && IsVideo(f)
    requires a < g < |t| && HasShowFile(cfg.fs, t[a]) && !HasVideos(t[g])
    requires forall m :: a < m <= g ==> !IsSeasonDirName(t[m].name)
    requires forall m :: a < m < |t| ==> !HasShowFile(cfg.fs, t[m])
    ensures !YieldsEpisodeOf(cfg, root, next, f)
  {
    EpisodeIff(cfg, root, next, t, f);
    if InSeason(cfg.fs, t) {
      var a', b :| InSeasonOf(cfg.fs, t, a', b);
      assert a' <= a;
      assert a' < a ==> NoNFO(cfg.fs, t[a]);
    }
  }

  // ---- Rejections ---------------------------------------------------------------------------------------------------

  lemma RefusedThere(cfg: Settings, root: FSNode, next: nat, t: seq<FSNode>, r: RejectedItem)
    requires WellFormed(root) && IsTrail(root, t) && r.path == Last(t).path
    ensures var p := Follow(cfg, root, ROOT_CTX, NamesOf(t));
            r in Scanning(cfg, root, next).rejected <==>
            p.Some? && Refusal(cfg, Last(t), RoleOf(cfg, Last(t), p.value.ctx)) == [r]
  {
    var p := Follow(cfg, root, ROOT_CTX, NamesOf(t));
    FollowTrail(cfg, root, t);
    TrailIsAt(root, t);
    RejectionIffReached(cfg, root, next, r);
    if p.Some? && Refusal(cfg, Last(t), RoleAt(cfg, p.value)) == [r] {
      var v := DirVisit(Last(t), RoleAt(cfg, p.value));
      assert Leads(cfg, root, ROOT_CTX, NamesOf(t), v) && Refuse(cfg, v) == [r];
      assert RefusedSomewhere(cfg, root, r);
    }
    if RefusedSomewhere(cfg, root, r) {
      var w :| Reached(cfg, root, ROOT_CTX, w) && Refuse(cfg, w) == [r];
      var s :| Leads(cfg, root, ROOT_CTX, s, w);
      FollowIsAt(cfg, root, ROOT_CTX, s);
      PathsIdentifyNodes(root, s, w.node, NamesOf(t), Last(t));
    }
  }

  /** A directory is rejected exactly when the search gets there and it is a show in a movie library, a movie in a show
      library, or a movie NFO without a video file beside it. */
  lemma RejectedIff(cfg: Settings, root: FSNode, next: nat, t: seq<FSNode>, kind: EntityKind, reason: Reason)
    requires WellFormed(root) && IsTrail(root, t)
    ensures RejectedItem(Last(t).path, kind, reason) in Scanning(cfg, root, next).rejected <==>
            && Arrives(cfg, t)
            && if HasShowFile(cfg.fs, Last(t)) then
                cfg.libraryType == "movie" && kind == Show && reason == ShowInMovieLibrary
               else
                && kind == Movie
                && (HasMovieFile(cfg.fs, Last(t)) ||
                    (HasVideos(Last(t)) && !InShow(cfg.fs, t) && !InSeason(cfg.fs, t)))
                && if cfg.libraryType == "show" then reason == MovieInShowLibrary
                   else HasMovieFile(cfg.fs, Last(t)) && VideoIn(cfg.fs, Last(t).path).NoPath? &&
                        reason == MovieWithoutVideo
  {
    FollowTrail(cfg, root, t);
    RefusedThere(cfg, root, next, t, RejectedItem(Last(t).path, kind, reason));
    if Arrives(cfg, t) {
      RefusalHere(cfg, t, Follow(cfg, root, ROOT_CTX, NamesOf(t)).value.ctx);
    }
  }

  lemma RefusalHere(cfg: Settings, t: seq<FSNode>, ctx: Ctx)
    requires t != [] && TellsKind(cfg.fs, t[..|t|-1], ctx.parentKind)
    ensures var d := Last(t);
            var movie := HasMovieFile(cfg.fs, d) || (HasVideos(d) && !InShow(cfg.fs, t) && !InSeason(cfg.fs, t));
            Refusal(cfg, d, RoleOf(cfg, d, ctx)) ==
              if HasShowFile(cfg.fs, d) then
                if cfg.libraryType == "movie" then [RejectedItem(d.path, Show, ShowInMovieLibrary)] else []
              else if movie && cfg.libraryType == "show" then [RejectedItem(d.path, Movie, MovieInShowLibrary)]
              else if HasMovieFile(cfg.fs, d) && VideoIn(cfg.fs, d.path).NoPath? then
                [RejectedItem(d.path, Movie, MovieWithoutVideo)]
              else []
  {
    var u, d := t[..|t|-1], Last(t);
    assert u + [d] == t;
    InShowMore(cfg.fs, u, d);
    InSeasonMore(cfg.fs, u, d);
    VideosAgree(d);
  }

  // ---- All candidates and all scanned directories -------------------------------------------------------------------

  lemma {:induction false} TrailTo(cfg: Settings, node: FSNode, ctx: Ctx, segs: seq<string>) returns (t: seq<FSNode>)
    requires Follow(cfg, node, ctx, segs).Some?
    ensures IsTrail(node, t) && NamesOf(t) == segs && Last(t) == Follow(cfg, node, ctx, segs).value.node
    decreases |segs|
  {
    if segs == [] {
      t := [node];
    } else {
      var i := ChildNamedIn(node.children, segs[0]);
      ChildNamedHasName(node.children, segs[0]);
      var rest := TrailTo(cfg, node.children[i], KidCtx(RoleOf(cfg, node, ctx), node, ctx, NoId), segs[1..]);
      TrailBelow(node, rest);
      t := [node] + rest;
      assert segs == [segs[0]] + segs[1..];
    }
  }

  lemma TrailBelow(node: FSNode, rest: seq<FSNode>)
    requires node.isDir && rest != [] && rest[0] in node.children && IsTrail(rest[0], rest)
    ensures var t := [node] + rest;
            IsTrail(node, t) && NamesOf(t) == [rest[0].name] + NamesOf(rest) && Last(t) == Last(rest)
  {
    var t := [node] + rest;
    assert forall j :: 0 < j < |t| ==> t[j] == rest[j-1];
  }

  /** Every candidate belongs to a directory that the search gets to: a show or movie to the directory itself, an
      episode to a video in it. */
  lemma EveryCandidate(cfg: Settings, root: FSNode, next: nat, c: Candidate)
    requires WellFormed(root) && c in CandidatesOf(cfg, root, next)
    ensures exists t :: IsTrail(root, t) && Arrives(cfg, t) && BelongsTo(c, Last(t))
  {
    CandidateIffReached(cfg, root, next, c);
    var w :| Reached(cfg, root, ROOT_CTX, w) && Emit(cfg, w) == [c];
    var s :| Leads(cfg, root, ROOT_CTX, s, w);
    var t := TrailTo(cfg, root, ROOT_CTX, s);
    FollowTrail(cfg, root, t);
    EmittedBelongs(cfg, Follow(cfg, root, ROOT_CTX, s).value, w, c);
  }

  lemma EmittedBelongs(cfg: Settings, p: Place, w: Visit, c: Candidate)
    requires Explains(cfg, p, w) && Emit(cfg, w) == [c]
    ensures BelongsTo(c, p.node)
  {
  }

  ghost predicate BelongsTo(c: Candidate, d: FSNode) {
    if c.kind == Episode then exists f :: f in d.children && IsVideo(f) && c.primaryPath == f.path
    else c.kind in {Show, Movie} && c.rootPath == d.path
  }

  function DirsOf(vs: seq<Visit>): seq<FSNode> {
    if vs == [] then []
    else DirsOf(vs[..|vs|-1]) + if vs[|vs|-1].DirVisit? then [vs[|vs|-1].node] else []
  }

  lemma {:induction false} DirsListed(vs: seq<Visit>, d: FSNode)
    ensures d in DirsOf(vs) <==> exists k :: 0 <= k < |vs| && vs[k].DirVisit? && vs[k].node == d
  {
    if vs != [] {
      var n := |vs| - 1;
      DirsListed(vs[..n], d);
      if k :| 0 <= k < |vs| && vs[k].DirVisit? && vs[k].node == d {
        assert k < n ==> vs[..n][k] == vs[k];
      }
    }
  }

  lemma {:induction false} DirsApart(cfg: Settings, vs: seq<Visit>)
    requires Separated(cfg, vs) && VisitsWellFormed(vs)
    ensures |DirsOf(vs)| == Scanned(vs)
    ensures forall i, j :: 0 <= i < j < |DirsOf(vs)| ==> DirsOf(vs)[i].path != DirsOf(vs)[j].path
  {
    if vs != [] {
      var n := |vs| - 1;
      var before := DirsOf(vs[..n]);
      DirsApart(cfg, vs[..n]);
      forall i | 0 <= i < |before|
        ensures before[i].path != vs[n].node.path
      {
        DirsListed(vs[..n], before[i]);
        var k :| 0 <= k < n && vs[..n][k].DirVisit? && vs[..n][k].node == before[i];
        VisitsElsewhere(cfg, vs, k, n);
      }
    }
  }

  ghost predicate Searched(cfg: Settings, root: FSNode, d: FSNode) {
    exists t :: IsTrail(root, t) && Arrives(cfg, t) && Last(t) == d
  }

  /** The directories that the search gets to, each once. */
  ghost predicate AreSearched(cfg: Settings, root: FSNode, ds: seq<FSNode>) {
    && (forall i, j :: 0 <= i < j < |ds| ==> ds[i].path != ds[j].path)
    && (forall d :: d in ds <==> Searched(cfg, root, d))
  }

  /** The number of scanned directories that an import reports is the number of those that the search gets to. */
  lemma ScannedExactly(cfg: Settings, root: FSNode, next: nat)
    requires WellFormed(root)
    ensures exists ds :: AreSearched(cfg, root, ds) && |ds| == Scanning(cfg, root, next).scanned
  {
    var vs := VisitsOf(cfg, root, ROOT_CTX);
    TreeRefines(cfg, root, ROOT_CTX, map[], next);
    VisitsSeparated(cfg, root, ROOT_CTX);
    VisitedWellFormed(cfg, root, ROOT_CTX);
    DirsApart(cfg, vs);
    forall d
      ensures d in DirsOf(vs) <==> Searched(cfg, root, d)
    {
      VisitedIffSearched(cfg, root, d);
    }
    assert AreSearched(cfg, root, DirsOf(vs));
  }

  lemma VisitedIffSearched(cfg: Settings, root: FSNode, d: FSNode)
    requires WellFormed(root)
    ensures d in DirsOf(VisitsOf(cfg, root, ROOT_CTX)) <==> Searched(cfg, root, d)
  {
    var vs := VisitsOf(cfg, root, ROOT_CTX);
    DirsListed(vs, d);
    if k :| 0 <= k < |vs| && vs[k].DirVisit? && vs[k].node == d {
      VisitedIffReached(cfg, root, vs[k]);
      var s :| Leads(cfg, root, ROOT_CTX, s, vs[k]);
      var t := TrailTo(cfg, root, ROOT_CTX, s);
      FollowTrail(cfg, root, t);
      assert Last(t) == d;
    }
    if t :| IsTrail(root, t) && Arrives(cfg, t) && Last(t) == d {
      FollowTrail(cfg, root, t);
      var p := Follow(cfg, root, ROOT_CTX, NamesOf(t)).value;
      var v := DirVisit(d, RoleAt(cfg, p));
      assert Leads(cfg, root, ROOT_CTX, NamesOf(t), v);
      VisitedIffReached(cfg, root, v);
      var k :| 0 <= k < |vs| && vs[k] == v;
    }
  }
}
