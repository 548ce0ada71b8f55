// What becomes of a directory or video depends on the directories above it alone: the classifier's
// output described path by path instead of by traversal.
module PathMeaning {
  import opened Base
  import opened FileSystem
  import opened ImportContext
  import opened Classify
  import opened Visits
  import opened Separation
  import opened Scan

  /** A directory and the context it is handled in. */
  datatype Place = Place(node: FSNode, ctx: Ctx)

  function ChildNamed(kids: seq<FSNode>, name: string): Option<FSNode> {
    if kids == [] then None
    else if kids[|kids|-1].name == name then Some(kids[|kids|-1])
    else ChildNamed(kids[..|kids|-1], name)
  }

  /** Follow the names segs downwards from node: where they lead, and in which context, if every directory passed
      is one that is descended into. */
  function Follow(cfg: Settings, node: FSNode, ctx: Ctx, segs: seq<string>): Option<Place>
    decreases |segs|
  {
    if !node.isDir then None
    else if segs == [] then Some(Place(node, ctx))
    else
      var role := RoleOf(cfg, node, ctx);
      var child := ChildNamed(node.children, segs[0]);
      if !Descends(cfg, node, role) || child.None? then None
      else Follow(cfg, child.value, KidCtx(role, node, ctx, NoId), segs[1..])
  }

  function RoleAt(cfg: Settings, p: Place): Role {
    RoleOf(cfg, p.node, p.ctx)
  }

  /** The context in which a directory handles its children. */
  function Inside(cfg: Settings, p: Place): Ctx {
    KidCtx(RoleAt(cfg, p), p.node, p.ctx, NoId)
  }

  /** What the place of visit v is: the directory itself, or the directory holding the video. */
  predicate Explains(cfg: Settings, p: Place, v: Visit) {
    match v
    case DirVisit(d, role) => p.node == d && RoleAt(cfg, p) == role
    case VideoVisit(f, ctx) =>
      f in p.node.children && IsVideo(f) && Descends(cfg, p.node, RoleAt(cfg, p)) && TakesVideos(RoleAt(cfg, p)) &&
          ctx == Inside(cfg, p)
  }

  ghost predicate Reached(cfg: Settings, node: FSNode, ctx: Ctx, v: Visit) {
    exists segs :: Leads(cfg, node, ctx, segs, v)
  }

  ghost predicate Leads(cfg: Settings, node: FSNode, ctx: Ctx, segs: seq<string>, v: Visit) {
    Follow(cfg, node, ctx, segs).Some? && Explains(cfg, Follow(cfg, node, ctx, segs).value, v)
  }

  lemma {:induction false} ChildNamedIs(kids: seq<FSNode>, i: nat)
    requires i < |kids| && forall a, b :: 0 <= a < b < |kids| ==> kids[a].name != kids[b].name
    ensures ChildNamed(kids, kids[i].name) == Some(kids[i])
  {
    if i < |kids| - 1 {
      assert kids[..|kids|-1][i] == kids[i];
      ChildNamedIs(kids[..|kids|-1], i);
    }
  }

  lemma {:induction false} ChildNamedIn(kids: seq<FSNode>, name: string) returns (i: nat)
    requires ChildNamed(kids, name).Some?
    ensures i < |kids| && kids[i] == ChildNamed(kids, name).value
  {
    if kids[|kids|-1].name == name {
      i := |kids| - 1;
    } else {
      i := ChildNamedIn(kids[..|kids|-1], name);
    }
  }

  lemma {:induction false} VisitsAreReached(cfg: Settings, node: FSNode, ctx: Ctx, v: Visit)
    requires WellFormed(node) && v in VisitsOf(cfg, node, ctx)
    ensures Reached(cfg, node, ctx, v)
    decreases node, |node.children| + 1
  {
    var role := RoleOf(cfg, node, ctx);
    if v == DirVisit(node, role) {
      assert Leads(cfg, node, ctx, [], v);
    } else {
      KidVisitsAreReached(cfg, node, |node.children|, ctx, v);
    }
  }

  lemma {:induction false} KidVisitsAreReached(cfg: Settings, node: FSNode, i: nat, ctx: Ctx, v: Visit)
    requires WellFormed(node) && i <= |node.children| && node.isDir && Descends(cfg, node, RoleOf(cfg, node, ctx))
    requires var role := RoleOf(cfg, node, ctx);
             v in KidVisits(cfg, node, i, TakesVideos(role), KidCtx(role, node, ctx, NoId))
    ensures Reached(cfg, node, ctx, v)
    decreases node, i
  {
    var role := RoleOf(cfg, node, ctx);
    var kidCtx := KidCtx(role, node, ctx, NoId);
    if v in KidVisits(cfg, node, i - 1, TakesVideos(role), kidCtx) {
      KidVisitsAreReached(cfg, node, i - 1, ctx, v);
    } else {
      assert v in KidVisit(cfg, node, i - 1, TakesVideos(role), kidCtx);
      var child := node.children[i-1];
      if child.isDir {
        VisitsAreReached(cfg, child, kidCtx, v);
        var segs :| Leads(cfg, child, kidCtx, segs, v);
        ChildNamedIs(node.children, i - 1);
        assert ([child.name] + segs)[1..] == segs;
        assert Leads(cfg, node, ctx, [child.name] + segs, v);
      } else {
        assert Leads(cfg, node, ctx, [], v);
      }
    }
  }

  lemma {:induction false} LeadsToVisit(cfg: Settings, node: FSNode, ctx: Ctx, segs: seq<string>, v: Visit)
    requires WellFormed(node) && Leads(cfg, node, ctx, segs, v)
    ensures v in VisitsOf(cfg, node, ctx)
    decreases |segs|
  {
    var role := RoleOf(cfg, node, ctx);
    var kidCtx := KidCtx(role, node, ctx, NoId);
    var kv := KidVisits(cfg, node, |node.children|, TakesVideos(role), kidCtx);
    if segs == [] {
      if v.VideoVisit? {
        var i :| 0 <= i < |node.children| && node.children[i] == v.node;
        KidVisitIn(cfg, node, |node.children|, TakesVideos(role), kidCtx, i, v);
      }
    } else {
      var child := ChildNamed(node.children, segs[0]).value;
      var i := ChildNamedIn(node.children, segs[0]);
      LeadsToVisit(cfg, child, kidCtx, segs[1..], v);
      KidVisitIn(cfg, node, |node.children|, TakesVideos(role), kidCtx, i, v);
    }
  }

  lemma {:induction false} KidVisitIn(cfg: Settings, node: FSNode, n: nat, videos: bool, ctx: Ctx, i: nat, v: Visit)
    requires i < n <= |node.children| && v in KidVisit(cfg, node, i, videos, ctx)
    ensures v in KidVisits(cfg, node, n, videos, ctx)
  {
    if i < n - 1 {
      KidVisitIn(cfg, node, n - 1, videos, ctx, i, v);
    }
  }

  /** The traversal visits exactly the places that following names reaches. */
  lemma VisitedIffReached(cfg: Settings, root: FSNode, v: Visit)
    requires WellFormed(root)
    ensures v in VisitsOf(cfg, root, ROOT_CTX) <==> Reached(cfg, root, ROOT_CTX, v)
  {
    if v in VisitsOf(cfg, root, ROOT_CTX) {
      VisitsAreReached(cfg, root, ROOT_CTX, v);
    }
    if Reached(cfg, root, ROOT_CTX, v) {
      var segs :| Leads(cfg, root, ROOT_CTX, segs, v);
      LeadsToVisit(cfg, root, ROOT_CTX, segs, v);
    }
  }

  ghost predicate EmittedBy(cfg: Settings, vs: seq<Visit>, c: Candidate) {
    exists k :: 0 <= k < |vs| && Emit(cfg, vs[k]) == [c]
  }

  lemma CandIffEmitted(cfg: Settings, vs: seq<Visit>, c: Candidate)
    ensures c in Cands(cfg, vs) <==> EmittedBy(cfg, vs, c)
  {
    if c in Cands(cfg, vs) {
      var src := CandOrigins(cfg, vs);
      var j :| 0 <= j < |Cands(cfg, vs)| && Cands(cfg, vs)[j] == c;
      assert Emit(cfg, vs[src[j]]) == [c];
    }
    if EmittedBy(cfg, vs, c) {
      var k :| 0 <= k < |vs| && Emit(cfg, vs[k]) == [c];
      var j := EmittedIsCand(cfg, vs, k);
    }
  }

  ghost predicate EmittedSomewhere(cfg: Settings, root: FSNode, c: Candidate) {
    exists v :: Reached(cfg, root, ROOT_CTX, v) && Emit(cfg, v) == [c]
  }

  /** The classifier's candidates, identifiers aside, are exactly those of the places that following names reaches:
      siblings, traversal order and claims play no part. */
  lemma CandidateIffReached(cfg: Settings, root: FSNode, next: nat, c: Candidate)
    requires WellFormed(root)
    ensures c in EraseAll(Scanning(cfg, root, next).cands) <==> EmittedSomewhere(cfg, root, c)
  {
    var vs := VisitsOf(cfg, root, ROOT_CTX);
    ClaimsChangeNothing(cfg, root, next);
    CandIffEmitted(cfg, vs, c);
    if EmittedBy(cfg, vs, c) {
      var k :| 0 <= k < |vs| && Emit(cfg, vs[k]) == [c];
      VisitedIffReached(cfg, root, vs[k]);
      assert Reached(cfg, root, ROOT_CTX, vs[k]);
    }
    if EmittedSomewhere(cfg, root, c) {
      var v :| Reached(cfg, root, ROOT_CTX, v) && Emit(cfg, v) == [c];
      VisitedIffReached(cfg, root, v);
      var k :| 0 <= k < |vs| && vs[k] == v;
      assert Emit(cfg, vs[k]) == [c];
    }
  }

  ghost predicate RefusedSomewhere(cfg: Settings, root: FSNode, r: RejectedItem) {
    exists v :: Reached(cfg, root, ROOT_CTX, v) && Refuse(cfg, v) == [r]
  }

  /** So are its rejections. */
  lemma RejectionIffReached(cfg: Settings, root: FSNode, next: nat, r: RejectedItem)
    requires WellFormed(root)
    ensures r in Scanning(cfg, root, next).rejected <==> RefusedSomewhere(cfg, root, r)
  {
    var vs := VisitsOf(cfg, root, ROOT_CTX);
    ClaimsChangeNothing(cfg, root, next);
    if r in Rejects(cfg, vs) {
      var src := RejectOrigins(cfg, vs);
      var j :| 0 <= j < |Rejects(cfg, vs)| && Rejects(cfg, vs)[j] == r;
      VisitedIffReached(cfg, root, vs[src[j]]);
      assert Refuse(cfg, vs[src[j]]) == [r];
    }
    if RefusedSomewhere(cfg, root, r) {
      var v :| Reached(cfg, root, ROOT_CTX, v) && Refuse(cfg, v) == [r];
      VisitedIffReached(cfg, root, v);
      var k :| 0 <= k < |vs| && vs[k] == v;
      var j := RefusedIsRejected(cfg, vs, k);
    }
  }

  /** A video in a directory that is reached becomes an episode exactly when that directory is handled as a season or
      episode directory; its numbers come from its name and that directory's context. */
  lemma EpisodeIffInSeason(cfg: Settings, root: FSNode, next: nat, segs: seq<string>, f: FSNode)
    requires WellFormed(root) && Follow(cfg, root, ROOT_CTX, segs).Some?
    requires f in Follow(cfg, root, ROOT_CTX, segs).value.node.children && IsVideo(f)
    ensures var p := Follow(cfg, root, ROOT_CTX, segs).value;
            (exists c :: c in EraseAll(Scanning(cfg, root, next).cands) && c.kind == Episode &&
                c.primaryPath == f.path) <==>
            TakesVideos(RoleAt(cfg, p))
    ensures var p := Follow(cfg, root, ROOT_CTX, segs).value;
            TakesVideos(RoleAt(cfg, p)) ==>
              EpisodeCandidate(cfg, f, Inside(cfg, p).(showId := NoId),
                  NoId) in EraseAll(Scanning(cfg, root, next).cands)
  {
    var p := Follow(cfg, root, ROOT_CTX, segs).value;
    var v := VideoVisit(f, Inside(cfg, p));
    if TakesVideos(RoleAt(cfg, p)) {
      assert Leads(cfg, root, ROOT_CTX, segs, v);
      var c := EpisodeCandidate(cfg, f, Inside(cfg, p).(showId := NoId), NoId);
      assert Emit(cfg, v) == [c] && EmittedSomewhere(cfg, root, c);
      CandidateIffReached(cfg, root, next, c);
    }
    if c :| c in EraseAll(Scanning(cfg, root, next).cands) && c.kind == Episode && c.primaryPath == f.path {
      CandidateIffReached(cfg, root, next, c);
      var w :| Reached(cfg, root, ROOT_CTX, w) && Emit(cfg, w) == [c];
      var s :| Leads(cfg, root, ROOT_CTX, s, w);
      FollowIsAt(cfg, root, ROOT_CTX, segs);
      SamePlace(cfg, root, segs, p.node, s, f, w);
    }
  }

  lemma FallbackHasVideo(node: FSNode)
    requires WellFormed(node)
    ensures FirstVideoChild(node.children).Path? <==> HasVideoChild(node)
  {
    FirstVideoFound(node, 0);
    assert node.children[0..] == node.children;
  }

  lemma {:induction false} FirstVideoFound(node: FSNode, i: nat)
    requires WellFormed(node) && i <= |node.children|
    ensures FirstVideoChild(node.children[i..]).Path? <==>
            exists j :: i <= j < |node.children| && IsVideo(node.children[j])
    decreases |node.children| - i
  {
    if i < |node.children| {
      assert Placed(node, node.children[i]);
      assert node.children[i..][1..] == node.children[i+1..];
      FirstVideoFound(node, i + 1);
    }
  }

  lemma {:induction false} FollowIsAt(cfg: Settings, node: FSNode, ctx: Ctx, segs: seq<string>)
    requires WellFormed(node) && Follow(cfg, node, ctx, segs).Some?
    ensures At(node, segs, Follow(cfg, node, ctx, segs).value.node)
    decreases |segs|
  {
    if segs != [] {
      var role := RoleOf(cfg, node, ctx);
      var i := ChildNamedIn(node.children, segs[0]);
      ChildNamedHasName(node.children, segs[0]);
      FollowIsAt(cfg, node.children[i], KidCtx(role, node, ctx, NoId), segs[1..]);
    }
  }

  lemma {:induction false} ChildNamedHasName(kids: seq<FSNode>, name: string)
    requires ChildNamed(kids, name).Some?
    ensures ChildNamed(kids, name).value.name == name
  {
    if kids[|kids|-1].name != name {
      ChildNamedHasName(kids[..|kids|-1], name);
    }
  }

  lemma {:induction false} AtWellFormed(node: FSNode, segs: seq<string>, d: FSNode)
    requires WellFormed(node) && At(node, segs, d)
    ensures WellFormed(d)
    decreases segs
  {
    if segs != [] {
      var i :| 0 <= i < |node.children| && node.children[i].name == segs[0] && At(node.children[i], segs[1..], d);
      AtWellFormed(node.children[i], segs[1..], d);
    }
  }

  /** Two ways to a video of the same path are the same way. */
  lemma SamePlace(cfg: Settings, root: FSNode, s: seq<string>, d: FSNode, t: seq<string>, f: FSNode, w: Visit)
    requires WellFormed(root) && At(root, s, d) && f in d.children
    requires Leads(cfg, root, ROOT_CTX, t, w) && w.VideoVisit? && w.node.path == f.path
    ensures s == t && w.node == f
  {
    var e := Follow(cfg, root, ROOT_CTX, t).value.node;
    FollowIsAt(cfg, root, ROOT_CTX, t);
    PathAt(root, s, d);
    PathAt(root, t, e);
    AtWellFormed(root, s, d);
    AtWellFormed(root, t, e);
    assert Placed(d, f) && Placed(e, w.node);
    assert d.path.segs + [f.name] == e.path.segs + [w.node.name];
    assert d.path.segs == f.path.segs[..|f.path.segs|-1] == e.path.segs;
    assert s == d.path.segs[|root.path.segs|..] == t;
    UniqueAt(root, s, d, e);
    assert f.name == w.node.name;
  }
}
