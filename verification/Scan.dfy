// Properties of a whole classification run: claims, identifiers, videos taken once, library policy,
// scanned directories, and every episode's link to its show.
module Scan {
  import opened Base
  import opened Paths
  import opened Names
  import opened FileSystem
  import opened ImportContext
  import opened Classify
  import opened Visits
  import opened Separation

  /** The classification of a snapshot, from an empty claims map. */
  function Scanning(cfg: Settings, root: FSNode, next: nat): Outcome {
    Tree(cfg, root, ROOT_CTX, map[], next)
  }

  // ---- Every snapshot, repeated paths included -----------------------------------------------------

  /** Every video candidate's path was unclaimed when it was appended. */
  predicate AllNew(claims: map<Path, PathClaim>, cs: seq<Candidate>) {
    cs == [] ||
    (AllNew(claims, cs[..|cs|-1]) &&
     (cs[|cs|-1].kind != Show ==> ClaimKey(cs[|cs|-1]) !in Claimed(claims, cs[..|cs|-1])))
  }

  predicate Numbered(cs: seq<Candidate>, next: nat) {
    forall j :: 0 <= j < |cs| ==> cs[j].id == Uuid(next + j)
  }

  predicate KnownKind(c: Candidate) {
    c.kind == Show || c.kind == Movie || c.kind == Episode
  }

  predicate KnownKinds(cs: seq<Candidate>) {
    forall j :: 0 <= j < |cs| ==> KnownKind(cs[j])
  }

  /** What holds of every outcome of a step: the claims are exactly those its candidates made, its videos
      were new, and its candidates carry the identifiers drawn, in order. */
  ghost predicate Bookkept(o: Outcome, claims: map<Path, PathClaim>, next: nat) {
    && o.claims == Claimed(claims, o.cands)
    && AllNew(claims, o.cands)
    && Numbered(o.cands, next) && o.next == next + |o.cands|
    && KnownKinds(o.cands)
  }

  lemma {:induction false} AllNewConcat(claims: map<Path, PathClaim>, a: seq<Candidate>, b: seq<Candidate>)
    requires AllNew(claims, a) && AllNew(Claimed(claims, a), b)
    ensures AllNew(claims, a + b)
  {
    if b == [] {
      assert a + b == a;
    } else {
      var b' := b[..|b|-1];
      assert (a + b)[..|a + b|-1] == a + b';
      AllNewConcat(claims, a, b');
      ClaimedConcat(claims, a, b');
    }
  }

  lemma BookkeptThen(a: Outcome, b: Outcome, claims: map<Path, PathClaim>, next: nat)
    requires Bookkept(a, claims, next) && Bookkept(b, a.claims, a.next)
    ensures Bookkept(Then(a, b), claims, next)
  {
    ClaimedConcat(claims, a.cands, b.cands);
    AllNewConcat(claims, a.cands, b.cands);
  }

  lemma BookkeptAppend(c: Candidate, claims: map<Path, PathClaim>, next: nat)
    requires c.id == Uuid(next) && KnownKind(c) && (c.kind != Show ==> ClaimKey(c) !in claims)
    ensures Bookkept(Append(c, claims, next), claims, next)
  {
    assert [c][..0] == [];
    assert Claimed(claims, []) == claims && AllNew(claims, []);
  }

  lemma {:induction false} TreeBookkept(cfg: Settings, node: FSNode, ctx: Ctx, claims: map<Path, PathClaim>, next: nat)
    ensures Bookkept(Tree(cfg, node, ctx, claims, next), claims, next)
    decreases node, |node.children| + 1
  {
    if node.isDir {
      var role := RoleOf(cfg, node, ctx);
      var scan := Outcome([], [], 1, claims, next);
      if Refusal(cfg, node, role) != [] {
      } else if IsMovieRole(role) {
        var video := MovieVideo(cfg, node, role);
        if video.Path? && video !in claims {
          var c := MovieCandidate(cfg, node, video, MovieNfoOf(role), Uuid(next));
          BookkeptAppend(c, claims, next);
          BookkeptThen(scan, Append(c, claims, next), claims, next);
        }
      } else if role.ShowDir? {
        var own := Append(ShowCandidate(cfg, node, Uuid(next)), claims, next);
        BookkeptAppend(ShowCandidate(cfg, node, Uuid(next)), claims, next);
        var kidCtx := KidCtx(role, node, ctx, Uuid(next));
        KidsBookkept(cfg, node, |node.children|, false, kidCtx, own.claims, own.next);
        var kids := Kids(cfg, node, |node.children|, false, kidCtx, own.claims, own.next);
        BookkeptThen(own, kids, claims, next);
        BookkeptThen(scan, Then(own, kids), claims, next);
      } else {
        var kidCtx := KidCtx(role, node, ctx, NoId);
        KidsBookkept(cfg, node, |node.children|, TakesVideos(role), kidCtx, claims, next);
        BookkeptThen(scan, Kids(cfg, node, |node.children|, TakesVideos(role), kidCtx, claims, next), claims, next);
      }
    }
  }

  lemma {:induction false} KidsBookkept(cfg: Settings, node: FSNode, i: nat, videos: bool, ctx: Ctx,
                                        claims: map<Path, PathClaim>, next: nat)
    requires i <= |node.children|
    ensures Bookkept(Kids(cfg, node, i, videos, ctx, claims, next), claims, next)
    decreases node, i
  {
    if i > 0 {
      var o := Kids(cfg, node, i - 1, videos, ctx, claims, next);
      KidsBookkept(cfg, node, i - 1, videos, ctx, claims, next);
      var child := node.children[i-1];
      if child.isDir {
        TreeBookkept(cfg, child, ctx, o.claims, o.next);
      } else if videos && child.kind == Video && child.path !in o.claims {
        BookkeptAppend(EpisodeCandidate(cfg, child, ctx, Uuid(o.next)), o.claims, o.next);
      }
      BookkeptThen(o, Kid(cfg, node, i - 1, videos, ctx, o.claims, o.next), claims, next);
    }
  }

  lemma {:induction false} AllNewDistinct(claims: map<Path, PathClaim>, cs: seq<Candidate>, i: nat, j: nat)
    requires AllNew(claims, cs) && i < j < |cs| && cs[j].kind != Show
    ensures ClaimKey(cs[i]) != ClaimKey(cs[j])
  {
    if j == |cs| - 1 {
      ClaimedKeys(claims, cs[..j]);
      assert cs[i] in cs[..j];
    } else {
      AllNewDistinct(claims, cs[..|cs|-1], i, j);
    }
  }

  /** No video is taken twice, on any snapshot whatsoever. */
  lemma NoVideoTakenTwice(cfg: Settings, root: FSNode, next: nat)
    ensures var cs := Scanning(cfg, root, next).cands;
            forall i, j :: 0 <= i < j < |cs| && cs[i].kind != Show && cs[j].kind != Show ==>
              cs[i].primaryPath != cs[j].primaryPath
  {
    TreeBookkept(cfg, root, ROOT_CTX, map[], next);
    var cs := Scanning(cfg, root, next).cands;
    forall i, j | 0 <= i < j < |cs| && cs[i].kind != Show && cs[j].kind != Show
      ensures cs[i].primaryPath != cs[j].primaryPath
    {
      AllNewDistinct(map[], cs, i, j);
    }
  }

  /** On a well-formed snapshot the final claims map and the candidates correspond one to one, and the
      candidates, identifiers aside, are exactly what the plain walk without claims yields. */
  lemma ClaimsChangeNothing(cfg: Settings, root: FSNode, next: nat)
    requires WellFormed(root)
    ensures var o := Scanning(cfg, root, next);
            && EraseAll(o.cands) == Cands(cfg, VisitsOf(cfg, root, ROOT_CTX))
            && o.rejected == Rejects(cfg, VisitsOf(cfg, root, ROOT_CTX))
            && Mirrors(o.claims, o.cands)
  {
    TreeRefines(cfg, root, ROOT_CTX, map[], next);
    TreeBookkept(cfg, root, ROOT_CTX, map[], next);
    KeysAndRootsDistinct(cfg, root, next);
    ClaimsBijective(Scanning(cfg, root, next).cands);
  }

  // ---- Library type policy ---------------------------------------------------------------------------

  /** The policy of a library: movie libraries take no show and no episode, show libraries no movie. */
  predicate Admits(libraryType: string, c: Candidate) {
    && (libraryType == "movie" ==> c.kind == Movie)
    && (libraryType == "show" ==> c.kind != Movie)
  }

  predicate AdmitsAll(libraryType: string, cs: seq<Candidate>) {
    forall i :: 0 <= i < |cs| ==> Admits(libraryType, cs[i])
  }

  /** In a movie library no context below a show ever arises. */
  predicate CtxPossible(libraryType: string, ctx: Ctx) {
    libraryType == "movie" ==> ctx.parentKind != Show && ctx.parentKind != Season
  }

  lemma {:induction false} TreeAdmitted(cfg: Settings, node: FSNode, ctx: Ctx, claims: map<Path, PathClaim>, next: nat)
    requires CtxPossible(cfg.libraryType, ctx)
    ensures AdmitsAll(cfg.libraryType, Tree(cfg, node, ctx, claims, next).cands)
    ensures Tree(cfg, node, ctx, claims, next).scanned <= DirCount(node)
    decreases node, |node.children| + 1
  {
    if node.isDir {
      var role := RoleOf(cfg, node, ctx);
      if Descends(cfg, node, role) {
        var own := if role.ShowDir? then Append(ShowCandidate(cfg, node, Uuid(next)), claims, next)
                   else Outcome([], [], 0, claims, next);
        var kidCtx := KidCtx(role, node, ctx, if role.ShowDir? then Uuid(next) else NoId);
        KidsAdmitted(cfg, node, |node.children|, TakesVideos(role), kidCtx, own.claims, own.next);
      }
    }
  }

  lemma {:induction false} KidsAdmitted(cfg: Settings, node: FSNode, i: nat, videos: bool, ctx: Ctx,
                                        claims: map<Path, PathClaim>, next: nat)
    requires CtxPossible(cfg.libraryType, ctx) && i <= |node.children| && (videos ==> cfg.libraryType != "movie")
    ensures AdmitsAll(cfg.libraryType, Kids(cfg, node, i, videos, ctx, claims, next).cands)
    ensures Kids(cfg, node, i, videos, ctx, claims, next).scanned <= KidDirCount(node, i)
    decreases node, i
  {
    if i > 0 {
      KidsAdmitted(cfg, node, i - 1, videos, ctx, claims, next);
      var o := Kids(cfg, node, i - 1, videos, ctx, claims, next);
      if node.children[i-1].isDir {
        TreeAdmitted(cfg, node.children[i-1], ctx, o.claims, o.next);
      }
    }
  }

  /** The policy holds over the whole tree, and no directory is counted twice. */
  lemma LibraryPolicy(cfg: Settings, root: FSNode, next: nat)
    ensures AdmitsAll(cfg.libraryType, Scanning(cfg, root, next).cands)
    ensures Scanning(cfg, root, next).scanned <= DirCount(root)
  {
    TreeAdmitted(cfg, root, ROOT_CTX, map[], next);
  }

  // ---- Season and episode directories take each of their videos once ------------------------------------

  lemma {:induction false} VideosVisited(cfg: Settings, node: FSNode, ctx: Ctx, d: nat, f: FSNode)
    requires d < |VisitsOf(cfg, node, ctx)|
    requires var v := VisitsOf(cfg, node, ctx)[d];
             v.DirVisit? && TakesVideos(v.role) && f in v.node.children && IsVideo(f)
    ensures exists k ::
              && 0 <= k < |VisitsOf(cfg, node, ctx)|
              && VisitsOf(cfg, node, ctx)[k].VideoVisit? && VisitsOf(cfg, node, ctx)[k].node == f
    decreases node, |node.children| + 1
  {
    var vs := VisitsOf(cfg, node, ctx);
    var role := RoleOf(cfg, node, ctx);
    if Descends(cfg, node, role) {
      var kidCtx := KidCtx(role, node, ctx, NoId);
      var kv := KidVisits(cfg, node, |node.children|, TakesVideos(role), kidCtx);
      assert vs == [DirVisit(node, role)] + kv;
      var k: nat;
      if d == 0 {
        var i :| 0 <= i < |node.children| && node.children[i] == f;
        k := KidVideoVisited(cfg, node, |node.children|, kidCtx, i);
      } else {
        k := KidVideosVisited(cfg, node, |node.children|, TakesVideos(role), kidCtx, d - 1, f);
      }
      assert vs[k + 1] == kv[k];
    }
  }

  lemma {:induction false} KidVideoVisited(cfg: Settings, node: FSNode, n: nat, ctx: Ctx, i: nat) returns (k: nat)
    requires i < n <= |node.children| && IsVideo(node.children[i])
    ensures k < |KidVisits(cfg, node, n, true, ctx)|
    ensures KidVisits(cfg, node, n, true, ctx)[k] == VideoVisit(node.children[i], ctx)
  {
    if i == n - 1 {
      k := |KidVisits(cfg, node, n - 1, true, ctx)|;
    } else {
      k := KidVideoVisited(cfg, node, n - 1, ctx, i);
    }
  }

  lemma {:induction false} KidVideosVisited(cfg: Settings, node: FSNode, n: nat, videos: bool, ctx: Ctx, d: nat,
                                            f: FSNode) returns (k: nat)
    requires n <= |node.children| && d < |KidVisits(cfg, node, n, videos, ctx)|
    requires var v := KidVisits(cfg, node, n, videos, ctx)[d];
             v.DirVisit? && TakesVideos(v.role) && f in v.node.children && IsVideo(f)
    ensures k < |KidVisits(cfg, node, n, videos, ctx)|
    ensures var w := KidVisits(cfg, node, n, videos, ctx)[k]; w.VideoVisit? && w.node == f
    decreases node, n
  {
    var before := KidVisits(cfg, node, n - 1, videos, ctx);
    if d < |before| {
      k := KidVideosVisited(cfg, node, n - 1, videos, ctx, d, f);
    } else {
      var child := node.children[n-1];
      var here := KidVisit(cfg, node, n - 1, videos, ctx);
      VideosVisited(cfg, child, ctx, d - |before|, f);
      var l :| 0 <= l < |here| && here[l].VideoVisit? && here[l].node == f;
      k := |before| + l;
    }
  }

  /** Every video directly in a directory handled as a season or episode directory gives exactly one candidate,
      an episode. */
  lemma SeasonVideosTakenOnce(cfg: Settings, root: FSNode, next: nat, d: nat, f: FSNode)
    requires WellFormed(root) && d < |VisitsOf(cfg, root, ROOT_CTX)|
    requires var v := VisitsOf(cfg, root, ROOT_CTX)[d];
             v.DirVisit? && TakesVideos(v.role) && f in v.node.children && IsVideo(f)
    ensures var cs := Scanning(cfg, root, next).cands;
            exists j :: 0 <= j < |cs| && cs[j].kind == Episode && cs[j].primaryPath == f.path &&
              forall i :: 0 <= i < |cs| && cs[i].primaryPath == f.path ==> i == j
  {
    var vs := VisitsOf(cfg, root, ROOT_CTX);
    var cs := Scanning(cfg, root, next).cands;
    VideosVisited(cfg, root, ROOT_CTX, d, f);
    var k :| 0 <= k < |vs| && vs[k].VideoVisit? && vs[k].node == f;
    var j := EmittedIsCand(cfg, vs, k);
    TreeRefines(cfg, root, ROOT_CTX, map[], next);
    assert Erase(cs[j]) == EraseAll(cs)[j] == Cands(cfg, vs)[j];
    VisitedWellFormed(cfg, root, ROOT_CTX);
    TreeBookkept(cfg, root, ROOT_CTX, map[], next);
    KeysAndRootsDistinct(cfg, root, next);
    var src := CandOrigins(cfg, vs);
    forall i | 0 <= i < |cs| && cs[i].primaryPath == f.path
      ensures i == j
    {
      assert Erase(cs[i]) == EraseAll(cs)[i] == Cands(cfg, vs)[i];
      EmitPlaces(cfg, vs[src[i]]);
      assert ClaimKey(cs[i]) == ClaimKey(cs[j]);
    }
  }
}
