// An episode's show: the context passed down by the classifier against the walk back up that the
// reconciler makes (getShowRootPath in importer_util.go).
module ShowLinks {
  import opened Base
  import opened Paths
  import opened FileSystem
  import opened ImportContext
  import opened Classify
  import opened Scan

  /** The first n components of p. */
  function Prefix(p: Path, n: nat): Path
    requires p.Path? && n <= |p.segs|
  {
    Path(p.abs, p.segs[..n], "")
  }

  /** root is the nearest directory above p that holds a tvshow.nfo. */
  ghost predicate Nearest(fs: FS, root: Path, p: Path) {
    && Below(root, p)
    && fs.HasShowNFO(root)
    && forall n {:trigger Prefix(p, n)} :: |root.segs| < n < |p.segs| ==> !fs.HasShowNFO(Prefix(p, n))
  }

  // What the walk from dir upwards finds; it never looks into "/" or ".".
  function WalkUp(fs: FS, dir: Path): Path
    decreases if dir.Path? then |dir.segs| else 0
  {
    if dir.NoPath? || dir.segs == [] || dir.typed != "" then NoPath
    else if fs.HasShowNFO(dir) then dir
    else WalkUp(fs, Dir(dir))
  }

  function ShowRootOf(fs: FS, video: Path): Path {
    if video.NoPath? then NoPath else WalkUp(fs, Dir(video))
  }

  method GetShowRootPath(fs: FS, videoPath: Path) returns (r: Path)
    ensures r == ShowRootOf(fs, videoPath)
  {
    if videoPath.NoPath? {
      return NoPath;
    }
    var dir := Dir(videoPath);
    while dir != Path(true, [], "") && dir != Path(false, [], "")
      invariant dir.Path? && dir.typed == "" && WalkUp(fs, dir) == WalkUp(fs, Dir(videoPath))
      decreases |dir.segs|
    {
      if fs.HasShowNFO(dir) {
        return dir;
      }
      var parent := Dir(dir);
      if parent == dir {
        break;
      }
      dir := parent;
    }
    r := NoPath;
  }

  lemma {:induction false} WalkReaches(fs: FS, root: Path, p: Path, n: nat)
    requires Nearest(fs, root, p) && |root.segs| <= n < |p.segs|
    ensures WalkUp(fs, Prefix(p, n)) == if root.segs == [] then NoPath else Clean(root)
    decreases n
  {
    if n == |root.segs| {
      assert Prefix(p, n) == Clean(root);
      assert fs.HasShowNFO(Clean(root)) by { assert Join(root, "tvshow.nfo") == Join(Clean(root), "tvshow.nfo"); }
    } else {
      assert Dir(Prefix(p, n)) == Prefix(p, n - 1) by { assert p.segs[..n][..n-1] == p.segs[..n-1]; }
      WalkReaches(fs, root, p, n - 1);
    }
  }

  /** The upward walk from a video returns its nearest show root exactly when that root is spelled
      clean and is neither "/" nor "."; these two are never found, any other is found under its clean spelling. */
  lemma UpwardWalkFindsNearest(fs: FS, root: Path, video: Path)
    requires Nearest(fs, root, video) && video.typed == ""
    ensures ShowRootOf(fs, video) == root <==> Walkable(root)
    ensures root.segs == [] ==> ShowRootOf(fs, video) == NoPath
    ensures root.segs != [] ==> ShowRootOf(fs, video) == Clean(root)
  {
    WalkReaches(fs, root, video, |video.segs| - 1);
    assert Dir(video) == Prefix(video, |video.segs| - 1);
  }

  /** An outer directory is not the nearest when one between it and the file holds a tvshow.nfo. */
  lemma InnerIsNearer(fs: FS, outer: Path, inner: Path, p: Path)
    requires Nearest(fs, inner, p) && Below(outer, inner)
    ensures !Nearest(fs, outer, p)
  {
    var n := |inner.segs|;
    assert Prefix(p, n) == Clean(inner);
    assert Join(inner, "tvshow.nfo") == Join(Prefix(p, n), "tvshow.nfo");
    assert fs.HasShowNFO(Prefix(p, n));
  }

  /** The nearest show directory is one directory, however it is spelled. */
  lemma NearestUnique(fs: FS, a: Path, b: Path, p: Path)
    requires Nearest(fs, a, p) && Nearest(fs, b, p)
    ensures Clean(a) == Clean(b)
  {
    InComparable(a, b, p);
    if |a.segs| < |b.segs| {
      InnerIsNearer(fs, a, b, p);
    } else if |b.segs| < |a.segs| {
      InnerIsNearer(fs, b, a, p);
    }
  }

  lemma {:induction false} WalkSound(fs: FS, p: Path, n: nat)
    requires p.Path? && n < |p.segs|
    requires forall m {:trigger Prefix(p, m)} :: n < m < |p.segs| ==> !fs.HasShowNFO(Prefix(p, m))
    ensures var r := WalkUp(fs, Prefix(p, n));
            if r.Path? then Walkable(r) && Nearest(fs, r, p)
            else forall m {:trigger Prefix(p, m)} :: 0 < m < |p.segs| ==> !fs.HasShowNFO(Prefix(p, m))
    decreases n
  {
    if n > 0 && !fs.HasShowNFO(Prefix(p, n)) {
      assert Dir(Prefix(p, n)) == Prefix(p, n - 1) by { assert p.segs[..n][..n-1] == p.segs[..n-1]; }
      WalkSound(fs, p, n - 1);
    }
  }

  /** What the upward walk from a video returns is its nearest show directory; it returns none exactly when no
      directory above the video, other than "/" and ".", holds a tvshow.nfo. */
  lemma UpwardWalkSound(fs: FS, video: Path)
    requires video.Path? && video.typed == ""
    ensures var r := ShowRootOf(fs, video);
            && (r.Path? ==> Walkable(r) && Nearest(fs, r, video))
            && (r.NoPath? <==> forall n {:trigger Prefix(video, n)} :: 0 < n < |video.segs| ==>
              !fs.HasShowNFO(Prefix(video, n)))
  {
    if video.segs != [] {
      var n := |video.segs| - 1;
      assert Dir(video) == Prefix(video, n);
      WalkSound(fs, video, n);
      var r := ShowRootOf(fs, video);
      if r.Path? {
        assert Prefix(video, |r.segs|) == r;
      }
    }
  }

  // ---- Downward context ------------------------------------------------------------------------------

  /** Show cs[i] is the one that episode cs[j] names, and the nearest above its video. */
  ghost predicate Link(fs: FS, cs: seq<Candidate>, i: int, j: int)
    requires 0 <= i < |cs| && 0 <= j < |cs|
  {
    i < j && cs[i].kind == Show && cs[i].id == cs[j].showId && cs[i].id != NoId &&
    Nearest(fs, cs[i].rootPath, cs[j].primaryPath)
  }

  ghost predicate EpisodeShaped(c: Candidate) {
    c.kind == Episode ==>
      c.seasonNumber.Some? && c.primaryPath.Path? && c.primaryPath.typed == "" && c.rootPath == NoPath
  }

  /** The episode belongs to the show of the context the walk started in. */
  ghost predicate OfContext(fs: FS, c: Candidate, ctx: Ctx) {
    ctx.showId != NoId && c.showId == ctx.showId && Nearest(fs, ctx.showRoot, c.primaryPath)
  }

  ghost predicate Linked(fs: FS, cs: seq<Candidate>, ctx: Ctx) {
    forall j :: 0 <= j < |cs| ==>
      EpisodeShaped(cs[j]) &&
      (cs[j].kind == Episode ==> OfContext(fs, cs[j], ctx) || exists i :: 0 <= i < |cs| && Link(fs, cs, i, j))
  }

  /** The context is right for the directory or video at p. */
  ghost predicate CtxNear(fs: FS, ctx: Ctx, p: Path) {
    && (ctx.showId != NoId ==> Nearest(fs, ctx.showRoot, p))
    && (ctx.parentKind == Show || ctx.parentKind == Season ==> ctx.showId != NoId)
  }

  lemma LinkedConcat(fs: FS, a: seq<Candidate>, b: seq<Candidate>, ctx: Ctx)
    requires Linked(fs, a, ctx) && Linked(fs, b, ctx)
    ensures Linked(fs, a + b, ctx)
  {
    var cs := a + b;
    forall j | 0 <= j < |cs| && cs[j].kind == Episode && !OfContext(fs, cs[j], ctx)
      ensures exists i :: 0 <= i < |cs| && Link(fs, cs, i, j)
    {
      if j < |a| {
        var i :| 0 <= i < |a| && Link(fs, a, i, j);
        assert Link(fs, cs, i, j);
      } else {
        var i :| 0 <= i < |b| && Link(fs, b, i, j - |a|);
        assert Link(fs, cs, i + |a|, j);
      }
    }
  }

  lemma LinkedUnderShow(fs: FS, show: Candidate, kids: seq<Candidate>, inner: Ctx, outer: Ctx)
    requires show.kind == Show && show.id == inner.showId && show.rootPath == inner.showRoot
    requires Linked(fs, kids, inner)
    ensures Linked(fs, [show] + kids, outer)
  {
    var cs := [show] + kids;
    forall j | 0 <= j < |cs| && cs[j].kind == Episode
      ensures exists i :: 0 <= i < |cs| && Link(fs, cs, i, j)
    {
      if OfContext(fs, cs[j], inner) {
        assert Link(fs, cs, 0, j);
      } else {
        var i :| 0 <= i < |kids| && Link(fs, kids, i, j - 1);
        assert Link(fs, cs, i + 1, j);
      }
    }
  }

  lemma LinkedSameShow(fs: FS, cs: seq<Candidate>, a: Ctx, b: Ctx)
    requires Linked(fs, cs, a) && a.showId == b.showId && a.showRoot == b.showRoot
    ensures Linked(fs, cs, b)
  {
    forall j | 0 <= j < |cs| && cs[j].kind == Episode && !OfContext(fs, cs[j], b)
      ensures exists i :: 0 <= i < |cs| && Link(fs, cs, i, j)
    {
      assert !OfContext(fs, cs[j], a);
    }
  }

  /** One step down: the children of a directory without tvshow.nfo keep its nearest show, those of a show get it. */
  lemma NearestChild(fs: FS, root: Path, node: FSNode, i: nat)
    requires WellFormed(node) && i < |node.children|
    ensures !fs.HasShowNFO(node.path) && Nearest(fs, root, node.path) ==> Nearest(fs, root, node.children[i].path)
    ensures fs.HasShowNFO(node.path) ==> Nearest(fs, node.path, node.children[i].path)
  {
    var p, q := node.path, node.children[i].path;
    assert Placed(node, node.children[i]);
    if !fs.HasShowNFO(p) && Nearest(fs, root, p) {
      forall n {:trigger Prefix(q, n)} | |root.segs| < n < |q.segs|
        ensures !fs.HasShowNFO(Prefix(q, n))
      {
        if n < |p.segs| {
          assert Prefix(q, n) == Prefix(p, n);
        } else {
          assert Prefix(q, n) == Clean(p);
          assert Join(p, "tvshow.nfo") == Join(Clean(p), "tvshow.nfo");
        }
      }
    }
  }

  lemma {:induction false} TreeLinked(cfg: Settings, node: FSNode, ctx: Ctx, claims: map<Path, PathClaim>, next: nat)
    requires WellFormed(node) && CtxNear(cfg.fs, ctx, node.path)
    ensures Linked(cfg.fs, Tree(cfg, node, ctx, claims, next).cands, ctx)
    decreases node, |node.children| + 1
  {
    if node.isDir {
      var role := RoleOf(cfg, node, ctx);
      if Refusal(cfg, node, role) == [] && !IsMovieRole(role) {
        var show := ShowCandidate(cfg, node, Uuid(next));
        var kidCtx := KidCtx(role, node, ctx, if role.ShowDir? then Uuid(next) else NoId);
        forall i | 0 <= i < |node.children|
          ensures CtxNear(cfg.fs, kidCtx, node.children[i].path)
        {
          NearestChild(cfg.fs, ctx.showRoot, node, i);
        }
        if role.ShowDir? {
          var own := Append(show, claims, next);
          KidsLinked(cfg, node, |node.children|, false, kidCtx, own.claims, own.next);
          var kids := Kids(cfg, node, |node.children|, false, kidCtx, own.claims, own.next);
          LinkedUnderShow(cfg.fs, show, kids.cands, kidCtx, ctx);
          assert Tree(cfg, node, ctx, claims, next).cands == [show] + kids.cands;
        } else {
          KidsLinked(cfg, node, |node.children|, TakesVideos(role), kidCtx, claims, next);
          var kids := Kids(cfg, node, |node.children|, TakesVideos(role), kidCtx, claims, next);
          LinkedSameShow(cfg.fs, kids.cands, kidCtx, ctx);
          assert Tree(cfg, node, ctx, claims, next).cands == kids.cands;
        }
      }
    }
  }

  lemma {:induction false} KidsLinked(cfg: Settings, node: FSNode, i: nat, videos: bool, ctx: Ctx,
                                      claims: map<Path, PathClaim>, next: nat)
    requires WellFormed(node) && i <= |node.children| && (videos ==> ctx.showId != NoId)
    requires forall j :: 0 <= j < |node.children| ==> CtxNear(cfg.fs, ctx, node.children[j].path)
    ensures Linked(cfg.fs, Kids(cfg, node, i, videos, ctx, claims, next).cands, ctx)
    decreases node, i
  {
    if i > 0 {
      var o := Kids(cfg, node, i - 1, videos, ctx, claims, next);
      KidsLinked(cfg, node, i - 1, videos, ctx, claims, next);
      var child := node.children[i-1];
      assert Placed(node, child) && CtxNear(cfg.fs, ctx, child.path);
      if child.isDir {
        TreeLinked(cfg, child, ctx, o.claims, o.next);
      }
      LinkedConcat(cfg.fs, o.cands, Kid(cfg, node, i - 1, videos, ctx, o.claims, o.next).cands, ctx);
    }
  }

  /** Every episode candidate is preceded by the show candidate it names, whose directory is the nearest above
      the video with a tvshow.nfo; the upward walk returns that directory exactly when it is walkable. */
  lemma DownwardContextIsUpwardWalk(cfg: Settings, root: FSNode, next: nat, j: nat)
    requires WellFormed(root)
    requires j < |Scanning(cfg, root, next).cands| && Scanning(cfg, root, next).cands[j].kind == Episode
    ensures var cs := Scanning(cfg, root, next).cands;
            exists i :: 0 <= i < |cs| && Link(cfg.fs, cs, i, j) &&
              (ShowRootOf(cfg.fs, cs[j].primaryPath) == cs[i].rootPath <==> Walkable(cs[i].rootPath))
  {
    var cs := Scanning(cfg, root, next).cands;
    TreeLinked(cfg, root, ROOT_CTX, map[], next);
    var i :| 0 <= i < |cs| && Link(cfg.fs, cs, i, j);
    UpwardWalkFindsNearest(cfg.fs, cs[i].rootPath, cs[j].primaryPath);
  }
}
