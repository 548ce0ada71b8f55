// The plain meaning of classification: which directories and videos the walk visits and what each
// visit contributes, with no claims map and no identifiers.
module Visits {
  import opened Base
  import opened Paths
  import opened Names
  import opened FileSystem
  import opened ImportContext
  import opened Classify

  datatype Visit =
    | DirVisit(node: FSNode, role: Role)
    | VideoVisit(node: FSNode, ctx: Ctx)

  predicate Descends(cfg: Settings, node: FSNode, role: Role) {
    Refusal(cfg, node, role) == [] && !IsMovieRole(role)
  }

  function VisitsOf(cfg: Settings, node: FSNode, ctx: Ctx): seq<Visit>
    decreases node, |node.children| + 1
  {
    if !node.isDir then []
    else
      var role := RoleOf(cfg, node, ctx);
      [DirVisit(node, role)] +
      if Descends(cfg, node, role)
      then KidVisits(cfg, node, |node.children|, TakesVideos(role), KidCtx(role, node, ctx, NoId))
      else []
  }

  function KidVisits(cfg: Settings, node: FSNode, i: nat, videos: bool, ctx: Ctx): seq<Visit>
    requires i <= |node.children|
    decreases node, i
  {
    if i == 0 then []
    else
      KidVisits(cfg, node, i - 1, videos, ctx) + KidVisit(cfg, node, i - 1, videos, ctx)
  }

  function KidVisit(cfg: Settings, node: FSNode, i: nat, videos: bool, ctx: Ctx): seq<Visit>
    requires i < |node.children|
    decreases node, i
  {
    var child := node.children[i];
    if child.isDir then VisitsOf(cfg, child, ctx)
    else if videos && child.kind == Video then [VideoVisit(child, ctx)]
    else []
  }

  /** The candidate a visit contributes, identifiers erased. */
  function Emit(cfg: Settings, v: Visit): seq<Candidate> {
    match v
    case VideoVisit(node, ctx) => [EpisodeCandidate(cfg, node, ctx.(showId := NoId), NoId)]
    case DirVisit(node, role) =>
      if Refusal(cfg, node, role) != [] then []
      else if role.ShowDir? then [ShowCandidate(cfg, node, NoId)]
      else if IsMovieRole(role) && MovieVideo(cfg, node, role).Path?
      then [MovieCandidate(cfg, node, MovieVideo(cfg, node, role), MovieNfoOf(role), NoId)]
      else []
  }

  function Refuse(cfg: Settings, v: Visit): seq<RejectedItem> {
    if v.DirVisit? then Refusal(cfg, v.node, v.role) else []
  }

  function Cands(cfg: Settings, vs: seq<Visit>): seq<Candidate> {
    if vs == [] then [] else Cands(cfg, vs[..|vs|-1]) + Emit(cfg, vs[|vs|-1])
  }

  function Rejects(cfg: Settings, vs: seq<Visit>): seq<RejectedItem> {
    if vs == [] then [] else Rejects(cfg, vs[..|vs|-1]) + Refuse(cfg, vs[|vs|-1])
  }

  function Scanned(vs: seq<Visit>): nat {
    if vs == [] then 0 else Scanned(vs[..|vs|-1]) + if vs[|vs|-1].DirVisit? then 1 else 0
  }

  lemma {:induction false} CandsConcat(cfg: Settings, a: seq<Visit>, b: seq<Visit>)
    ensures Cands(cfg, a + b) == Cands(cfg, a) + Cands(cfg, b)
  {
    if b == [] {
      assert a + b == a;
    } else {
      var last := Emit(cfg, b[|b|-1]);
      assert (a + b)[..|a + b|-1] == a + b[..|b|-1];
      CandsConcat(cfg, a, b[..|b|-1]);
      assert Cands(cfg, a + b) == Cands(cfg, a + b[..|b|-1]) + last;
      assert Cands(cfg, a) + Cands(cfg, b[..|b|-1]) + last == Cands(cfg, a) + (Cands(cfg, b[..|b|-1]) + last);
    }
  }

  lemma {:induction false} RejectsConcat(cfg: Settings, a: seq<Visit>, b: seq<Visit>)
    ensures Rejects(cfg, a + b) == Rejects(cfg, a) + Rejects(cfg, b)
  {
    if b == [] {
      assert a + b == a;
    } else {
      var last := Refuse(cfg, b[|b|-1]);
      assert (a + b)[..|a + b|-1] == a + b[..|b|-1];
      RejectsConcat(cfg, a, b[..|b|-1]);
      assert Rejects(cfg, a + b) == Rejects(cfg, a + b[..|b|-1]) + last;
      assert Rejects(cfg, a) + Rejects(cfg, b[..|b|-1]) + last == Rejects(cfg, a) + (Rejects(cfg, b[..|b|-1]) + last);
    }
  }

  lemma {:induction false} ScannedConcat(a: seq<Visit>, b: seq<Visit>)
    ensures Scanned(a + b) == Scanned(a) + Scanned(b)
  {
    if b == [] {
      assert a + b == a;
    } else {
      assert (a + b)[..|a + b|-1] == a + b[..|b|-1];
      ScannedConcat(a, b[..|b|-1]);
    }
  }

  lemma SingleVisit(cfg: Settings, v: Visit)
    ensures Cands(cfg, [v]) == Emit(cfg, v) && Rejects(cfg, [v]) == Refuse(cfg, v)
    ensures Scanned([v]) == if v.DirVisit? then 1 else 0
  {
    assert [v][..0] == [];
    assert Cands(cfg, []) == [] && Rejects(cfg, []) == [];
  }

  lemma EraseConcat(a: seq<Candidate>, b: seq<Candidate>)
    ensures EraseAll(a + b) == EraseAll(a) + EraseAll(b)
  {
  }

  // ---- The claims map changes nothing ---------------------------------------------------------

  function Anon(ctx: Ctx): Ctx {
    ctx.(showId := NoId)
  }

  /** No claim lies in the subtree of p. */
  ghost predicate Free(claims: map<Path, PathClaim>, p: Path) {
    forall k :: k in claims ==> !In(p, k)
  }

  /** k lies in the subtree of one of the first i children. */
  ghost predicate InKids(node: FSNode, i: nat, k: Path)
    requires i <= |node.children|
  {
    exists j :: 0 <= j < i && In(node.children[j].path, k)
  }

  ghost predicate KidsFree(claims: map<Path, PathClaim>, node: FSNode) {
    forall j :: 0 <= j < |node.children| ==> Free(claims, node.children[j].path)
  }

  /** The claims added since lie under the first i children. */
  ghost predicate AddedInKids(claims: map<Path, PathClaim>, now: map<Path, PathClaim>, node: FSNode, i: nat)
    requires i <= |node.children|
  {
    forall k :: k in now ==> k in claims || InKids(node, i, k)
  }

  /** An outcome is what the visits contribute. */
  ghost predicate Realizes(cfg: Settings, o: Outcome, vs: seq<Visit>) {
    EraseAll(o.cands) == Cands(cfg, vs) && o.rejected == Rejects(cfg, vs) && o.scanned == Scanned(vs)
  }

  lemma RealizesThen(cfg: Settings, a: Outcome, va: seq<Visit>, b: Outcome, vb: seq<Visit>)
    requires Realizes(cfg, a, va) && Realizes(cfg, b, vb)
    ensures Realizes(cfg, Then(a, b), va + vb)
  {
    CandsConcat(cfg, va, vb);
    RejectsConcat(cfg, va, vb);
    ScannedConcat(va, vb);
    EraseConcat(a.cands, b.cands);
  }

  /** The claims added since lie in the subtree of p. */
  ghost predicate AddedAt(claims: map<Path, PathClaim>, now: map<Path, PathClaim>, p: Path) {
    forall k :: k in now ==> k in claims || In(p, k)
  }

  /** A directory claims paths of its own subtree only. */
  lemma {:induction false} TreeAdds(cfg: Settings, node: FSNode, ctx: Ctx, claims: map<Path, PathClaim>, next: nat)
    requires WellFormed(node)
    ensures AddedAt(claims, Tree(cfg, node, ctx, claims, next).claims, node.path)
    decreases node, |node.children| + 1
  {
    if node.isDir {
      var role := RoleOf(cfg, node, ctx);
      MovieVideoBelow(cfg, node, role);
      if Descends(cfg, node, role) {
        var own := OwnStep(cfg, node, role, claims, next);
        var kidCtx := OwnKidCtx(role, node, ctx, next);
        KidsAdd(cfg, node, |node.children|, TakesVideos(role), kidCtx, own.claims, own.next);
        AddedBelow(node, claims, own.claims,
            Kids(cfg, node, |node.children|, TakesVideos(role), kidCtx, own.claims, own.next).claims);
      }
    }
  }

  lemma {:induction false} KidsAdd(cfg: Settings, node: FSNode, i: nat, videos: bool, ctx: Ctx,
                                   claims: map<Path, PathClaim>, next: nat)
    requires WellFormed(node) && i <= |node.children|
    ensures AddedInKids(claims, Kids(cfg, node, i, videos, ctx, claims, next).claims, node, i)
    decreases node, i
  {
    if i > 0 {
      var o := Kids(cfg, node, i - 1, videos, ctx, claims, next);
      KidsAdd(cfg, node, i - 1, videos, ctx, claims, next);
      var child := node.children[i-1];
      assert Placed(node, child) && In(child.path, child.path);
      if child.isDir {
        TreeAdds(cfg, child, ctx, o.claims, o.next);
      }
    }
  }

  lemma AddedBelow(node: FSNode, claims: map<Path, PathClaim>, own: map<Path, PathClaim>, now: map<Path, PathClaim>)
    requires WellFormed(node) && own.Keys <= claims.Keys + {node.path} && AddedInKids(own, now, node, |node.children|)
    ensures AddedAt(claims, now, node.path)
  {
    forall k | k in now && k !in own
      ensures In(node.path, k)
    {
      assert InKids(node, |node.children|, k);
      var j :| 0 <= j < |node.children| && In(node.children[j].path, k);
      assert Placed(node, node.children[j]);
      InTrans(node.path, node.children[j].path, k);
    }
  }

  /** What a directory that is descended into adds itself: a show its candidate, any other nothing. */
  function OwnStep(cfg: Settings, node: FSNode, role: Role, claims: map<Path, PathClaim>, next: nat): Outcome {
    if role.ShowDir? then Append(ShowCandidate(cfg, node, Uuid(next)), claims, next)
        else Outcome([], [], 0, claims, next)
  }

  function OwnKidCtx(role: Role, node: FSNode, ctx: Ctx, next: nat): Ctx {
    KidCtx(role, node, ctx, if role.ShowDir? then Uuid(next) else NoId)
  }

  /** On a well-formed snapshot whose region nobody has claimed yet, the classifier with its shared
      claims map yields what the plain visits contribute. */
  lemma {:induction false} TreeRefines(cfg: Settings, node: FSNode, ctx: Ctx, claims: map<Path, PathClaim>, next: nat)
    requires WellFormed(node) && Free(claims, node.path)
    ensures Realizes(cfg, Tree(cfg, node, ctx, claims, next), VisitsOf(cfg, node, Anon(ctx)))
    decreases node, |node.children| + 1
  {
    if node.isDir {
      var role := RoleOf(cfg, node, ctx);
      var v := DirVisit(node, role);
      assert RoleOf(cfg, node, Anon(ctx)) == role;
      SingleVisit(cfg, v);
      if !Descends(cfg, node, role) {
        MovieVideoBelow(cfg, node, role);
      } else {
        var own := OwnStep(cfg, node, role, claims, next);
        var kidCtx := OwnKidCtx(role, node, ctx, next);
        var scan := Outcome([], [], 1, claims, next);
        var kids := Kids(cfg, node, |node.children|, TakesVideos(role), kidCtx, own.claims, own.next);
        var kv := KidVisits(cfg, node, |node.children|, TakesVideos(role), Anon(kidCtx));
        OwnKidsFree(node, claims, own.claims);
        KidsRefine(cfg, node, |node.children|, TakesVideos(role), kidCtx, own.claims, own.next);
        assert Realizes(cfg, Then(scan, own), [v]);
        RealizesThen(cfg, Then(scan, own), [v], kids, kv);
        ThenAssoc(scan, own, kids);
        assert Tree(cfg, node, ctx, claims, next) == Then(Then(scan, own), kids);
        assert VisitsOf(cfg, node, Anon(ctx)) == [v] + kv;
      }
    }
  }

  /** Claiming its own directory leaves the subtrees of the children free. */
  lemma OwnKidsFree(node: FSNode, claims: map<Path, PathClaim>, own: map<Path, PathClaim>)
    requires WellFormed(node) && Free(claims, node.path) && own.Keys <= claims.Keys + {node.path}
    ensures KidsFree(own, node)
  {
    forall j, k | 0 <= j < |node.children| && k in own
      ensures !In(node.children[j].path, k)
    {
      assert Placed(node, node.children[j]);
      if In(node.children[j].path, k) {
        InTrans(node.path, node.children[j].path, k);
      }
    }
  }

  lemma {:induction false} KidsRefine(cfg: Settings, node: FSNode, i: nat, videos: bool, ctx: Ctx,
                                      claims: map<Path, PathClaim>, next: nat)
    requires WellFormed(node) && i <= |node.children| && KidsFree(claims, node)
    ensures Realizes(cfg, Kids(cfg, node, i, videos, ctx, claims, next), KidVisits(cfg, node, i, videos, Anon(ctx)))
    decreases node, i
  {
    if i > 0 {
      var o := Kids(cfg, node, i - 1, videos, ctx, claims, next);
      KidsRefine(cfg, node, i - 1, videos, ctx, claims, next);
      KidFree(cfg, node, i - 1, videos, ctx, claims, next);
      KidRefines(cfg, node, i - 1, videos, ctx, o.claims, o.next);
      RealizesThen(cfg, o, KidVisits(cfg, node, i - 1, videos, Anon(ctx)),
                   Kid(cfg, node, i - 1, videos, ctx, o.claims, o.next), KidVisit(cfg, node, i - 1, videos, Anon(ctx)));
    }
  }

  lemma {:induction false} KidRefines(cfg: Settings, node: FSNode, i: nat, videos: bool, ctx: Ctx,
                                      claims: map<Path, PathClaim>, next: nat)
    requires WellFormed(node) && i < |node.children| && Free(claims, node.children[i].path)
    ensures Realizes(cfg, Kid(cfg, node, i, videos, ctx, claims, next), KidVisit(cfg, node, i, videos, Anon(ctx)))
    decreases node, i
  {
    var child := node.children[i];
    if child.isDir {
      TreeRefines(cfg, child, ctx, claims, next);
    } else if videos && child.kind == Video {
      assert Placed(node, child);
      assert In(child.path, child.path);
      SingleVisit(cfg, VideoVisit(child, Anon(ctx)));
    }
  }

  /** The region of a child is still free when the loop reaches it. */
  lemma KidFree(cfg: Settings, node: FSNode, i: nat, videos: bool, ctx: Ctx, claims: map<Path, PathClaim>, next: nat)
    requires WellFormed(node) && i < |node.children| && KidsFree(claims, node)
    ensures Free(Kids(cfg, node, i, videos, ctx, claims, next).claims, node.children[i].path)
  {
    var now := Kids(cfg, node, i, videos, ctx, claims, next).claims;
    KidsAdd(cfg, node, i, videos, ctx, claims, next);
    assert Placed(node, node.children[i]);
    assert Free(claims, node.children[i].path);
    forall k | k in now && k !in claims
      ensures !In(node.children[i].path, k)
    {
      assert InKids(node, i, k);
      var j :| 0 <= j < i && In(node.children[j].path, k);
      assert Placed(node, node.children[j]);
      SiblingsDisjoint(node.path, node.children[j].name, node.children[i].name, k);
    }
  }

  /** The video of a movie directory lies directly in it. */
  lemma MovieVideoBelow(cfg: Settings, node: FSNode, role: Role)
    requires WellFormed(node)
    ensures IsMovieRole(role) && MovieVideo(cfg, node, role).Path? ==> Below(node.path, MovieVideo(cfg, node, role))
  {
    if role.MovieDir? {
      if cfg.fs.readDir(node.path).Some? {
        VideoAmongBelow(node.path, cfg.fs.readDir(node.path).value, NoPath);
      }
    } else if role.FallbackMovieDir? {
      FirstVideoBelow(node, 0);
    }
  }

  lemma {:induction false} VideoAmongBelow(dir: Path, es: seq<DirEntry>, first: Path)
    requires dir.Path? && (first.Path? ==> Below(dir, first))
    ensures VideoAmong(dir, es, first).Path? ==> Below(dir, VideoAmong(dir, es, first))
    decreases |es|
  {
    if es != [] {
      var f := if IsVideoEntry(es[0]) && first.NoPath? then Join(dir, es[0].name) else first;
      VideoAmongBelow(dir, es[1..], f);
    }
  }

  lemma {:induction false} FirstVideoBelow(node: FSNode, i: nat)
    requires WellFormed(node) && i <= |node.children|
    ensures var v := FirstVideoChild(node.children[i..]); v.Path? ==> Below(node.path, v)
    decreases |node.children| - i
  {
    if i < |node.children| {
      assert Placed(node, node.children[i]);
      assert node.children[i..][1..] == node.children[i+1..];
      FirstVideoBelow(node, i + 1);
    }
  }
}
