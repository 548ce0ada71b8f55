// Structure of the classifier's output on well-formed snapshots: visits lie apart, so candidates do.
module Separation {
  import opened Base
  import opened Paths
  import opened FileSystem
  import opened ImportContext
  import opened Classify
  import opened Visits

  /** Nothing below this visit is visited. */
  predicate Leaf(cfg: Settings, v: Visit) {
    v.VideoVisit? || !Descends(cfg, v.node, v.role)
  }

  /** b, visited after a, is not at or above a, and lies outside a when a is a leaf. */
  predicate Apart(cfg: Settings, a: Visit, b: Visit) {
    !In(b.node.path, a.node.path) && (Leaf(cfg, a) ==> !In(a.node.path, b.node.path))
  }

  ghost predicate Separated(cfg: Settings, vs: seq<Visit>) {
    forall i, j :: 0 <= i < j < |vs| ==> Apart(cfg, vs[i], vs[j])
  }

  ghost predicate Within(p: Path, vs: seq<Visit>) {
    forall i :: 0 <= i < |vs| ==> In(p, vs[i].node.path)
  }

  ghost predicate WithinKids(node: FSNode, i: nat, vs: seq<Visit>)
    requires i <= |node.children|
  {
    forall k :: 0 <= k < |vs| ==> InKids(node, i, vs[k].node.path)
  }

  lemma {:induction false} VisitsSeparated(cfg: Settings, node: FSNode, ctx: Ctx)
    requires WellFormed(node)
    ensures Separated(cfg, VisitsOf(cfg, node, ctx)) && Within(node.path, VisitsOf(cfg, node, ctx))
    decreases node, |node.children| + 1
  {
    if node.isDir {
      var role := RoleOf(cfg, node, ctx);
      if Descends(cfg, node, role) {
        var kidCtx := KidCtx(role, node, ctx, NoId);
        var kv := KidVisits(cfg, node, |node.children|, TakesVideos(role), kidCtx);
        KidsSeparated(cfg, node, |node.children|, TakesVideos(role), kidCtx);
        forall k | 0 <= k < |kv|
          ensures Below(node.path, kv[k].node.path)
        {
          assert InKids(node, |node.children|, kv[k].node.path);
          var j :| 0 <= j < |node.children| && In(node.children[j].path, kv[k].node.path);
          assert Placed(node, node.children[j]);
          InTrans(node.path, node.children[j].path, kv[k].node.path);
        }
      }
    }
  }

  lemma {:induction false} KidsSeparated(cfg: Settings, node: FSNode, i: nat, videos: bool, ctx: Ctx)
    requires WellFormed(node) && i <= |node.children|
    ensures Separated(cfg, KidVisits(cfg, node, i, videos, ctx)) &&
            WithinKids(node, i, KidVisits(cfg, node, i, videos, ctx))
    decreases node, i
  {
    if i > 0 {
      KidsSeparated(cfg, node, i - 1, videos, ctx);
      var child := node.children[i-1];
      if child.isDir {
        VisitsSeparated(cfg, child, ctx);
      }
      assert Placed(node, child);
      var a := KidVisits(cfg, node, i - 1, videos, ctx);
      var b := KidVisit(cfg, node, i - 1, videos, ctx);
      assert Separated(cfg, b) && Within(child.path, b);
      forall k, l | 0 <= k < |a| && 0 <= l < |b|
        ensures Apart(cfg, a[k], b[l])
      {
        assert InKids(node, i - 1, a[k].node.path);
        OtherKidApart(node, i - 1, a[k].node.path, b[l].node.path);
      }
      forall k | 0 <= k < |a + b|
        ensures InKids(node, i, (a + b)[k].node.path)
      {
        if k < |a| {
          assert InKids(node, i - 1, a[k].node.path);
        } else {
          assert In(child.path, b[k-|a|].node.path);
        }
      }
    }
  }

  /** Paths under different children are incomparable. */
  lemma OtherKidApart(node: FSNode, i: nat, p: Path, q: Path)
    requires WellFormed(node) && i < |node.children|
    requires InKids(node, i, p) && In(node.children[i].path, q)
    ensures !In(p, q) && !In(q, p)
  {
    var j :| 0 <= j < i && In(node.children[j].path, p);
    assert Placed(node, node.children[j]) && Placed(node, node.children[i]);
    if In(p, q) {
      InTrans(node.children[j].path, p, q);
      SiblingsDisjoint(node.path, node.children[j].name, node.children[i].name, q);
    }
    if In(q, p) {
      InTrans(node.children[i].path, q, p);
      SiblingsDisjoint(node.path, node.children[i].name, node.children[j].name, p);
    }
  }

  // ---- From visits to candidates ------------------------------------------------------------------

  /** Candidate j comes from visit src[j], in visiting order. */
  ghost predicate Origins(cfg: Settings, vs: seq<Visit>, src: seq<nat>) {
    && |src| == |Cands(cfg, vs)|
    && (forall j :: 0 <= j < |src| ==> src[j] < |vs| && Emit(cfg, vs[src[j]]) == [Cands(cfg, vs)[j]])
    && (forall j, k :: 0 <= j < k < |src| ==> src[j] < src[k])
  }

  lemma {:induction false} CandOrigins(cfg: Settings, vs: seq<Visit>) returns (src: seq<nat>)
    ensures Origins(cfg, vs, src)
  {
    if vs == [] {
      src := [];
    } else {
      var before := vs[..|vs|-1];
      src := CandOrigins(cfg, before);
      var e := Emit(cfg, vs[|vs|-1]);
      assert |e| <= 1;
      assert Cands(cfg, vs) == Cands(cfg, before) + e;
      if |e| == 1 {
        assert e == [Cands(cfg, vs)[|src|]];
        src := src + [|vs| - 1];
      }
    }
  }

  lemma {:induction false} EmittedIsCand(cfg: Settings, vs: seq<Visit>, k: nat) returns (j: nat)
    requires k < |vs| && Emit(cfg, vs[k]) != []
    ensures j < |Cands(cfg, vs)| && [Cands(cfg, vs)[j]] == Emit(cfg, vs[k])
  {
    if k == |vs| - 1 {
      j := |Cands(cfg, vs[..k])|;
    } else {
      j := EmittedIsCand(cfg, vs[..|vs|-1], k);
    }
  }

  /** A candidate's paths relative to the directory or video it came from. */
  lemma EmitPlaces(cfg: Settings, v: Visit)
    requires WellFormed(v.node) && Emit(cfg, v) != []
    ensures var c := Emit(cfg, v)[0];
            && c.kind in {Show, Movie, Episode}
            && (c.kind == Show ==> !Leaf(cfg, v) && c.rootPath == v.node.path && c.primaryPath == NoPath)
            && (c.kind == Movie ==> Leaf(cfg, v) && c.rootPath == v.node.path && Below(v.node.path, c.primaryPath))
            && (c.kind == Episode ==> Leaf(cfg, v) && c.rootPath == NoPath && c.primaryPath == v.node.path)
  {
    if v.DirVisit? {
      MovieVideoBelow(cfg, v.node, v.role);
    }
  }

  ghost predicate VisitsWellFormed(vs: seq<Visit>) {
    forall i :: 0 <= i < |vs| ==> WellFormed(vs[i].node)
  }

  lemma {:induction false} VisitedWellFormed(cfg: Settings, node: FSNode, ctx: Ctx)
    requires WellFormed(node)
    ensures VisitsWellFormed(VisitsOf(cfg, node, ctx))
    decreases node, |node.children| + 1
  {
    if node.isDir {
      var role := RoleOf(cfg, node, ctx);
      if Descends(cfg, node, role) {
        KidsVisitedWellFormed(cfg, node, |node.children|, TakesVideos(role), KidCtx(role, node, ctx, NoId));
      }
    }
  }

  lemma {:induction false} KidsVisitedWellFormed(cfg: Settings, node: FSNode, i: nat, videos: bool, ctx: Ctx)
    requires WellFormed(node) && i <= |node.children|
    ensures VisitsWellFormed(KidVisits(cfg, node, i, videos, ctx))
    decreases node, i
  {
    if i > 0 {
      KidsVisitedWellFormed(cfg, node, i - 1, videos, ctx);
      assert WellFormed(node.children[i-1]);
      if node.children[i-1].isDir {
        VisitedWellFormed(cfg, node.children[i-1], ctx);
      }
    }
  }

  /** A movie directory's region: nothing of the other candidate lies in it. */
  predicate Outside(movie: Candidate, c: Candidate) {
    !In(movie.rootPath, c.rootPath) && !In(movie.rootPath, c.primaryPath)
  }

  predicate HasRoot(c: Candidate) {
    c.kind == Show || c.kind == Movie
  }

  /** What holds between any two candidates of one scan. */
  predicate CandsApart(a: Candidate, b: Candidate) {
    && ClaimKey(a) != ClaimKey(b)
    && (a.kind == Movie ==> Outside(a, b))
    && (b.kind == Movie ==> Outside(b, a))
    && (HasRoot(a) && HasRoot(b) ==> Clean(a.rootPath) != Clean(b.rootPath))
  }

  lemma EmittedApart(cfg: Settings, v: Visit, w: Visit)
    requires WellFormed(v.node) && WellFormed(w.node) && Apart(cfg, v, w)
    requires Emit(cfg, v) != [] && Emit(cfg, w) != []
    ensures CandsApart(Emit(cfg, v)[0], Emit(cfg, w)[0])
  {
    var a, b := Emit(cfg, v)[0], Emit(cfg, w)[0];
    EmitPlaces(cfg, v);
    EmitPlaces(cfg, w);
    var p, q := v.node.path, w.node.path;
    assert In(p, p) && In(q, q);
    RegionsApart(p, q, Leaf(cfg, v), ClaimKey(a), ClaimKey(b), b.primaryPath);
    if b.kind == Movie && In(q, a.primaryPath) {
      InComparable(p, q, a.primaryPath);
    }
  }

  /** x lies at or below p, y and z at or below q, q is not at or above p, and not below p when p is a leaf. */
  lemma RegionsApart(p: Path, q: Path, leaf: bool, x: Path, y: Path, z: Path)
    requires In(p, x) && In(q, y) && !In(q, p) && (leaf ==> !In(p, q))
    requires !leaf ==> x == p
    ensures x != y
    ensures leaf && (z.Path? ==> In(q, z)) ==> !In(p, z)
  {
    if x == y {
      InComparable(p, q, x);
    }
    if leaf && z.Path? && In(q, z) && In(p, z) {
      InComparable(p, q, z);
    }
  }

  /** Candidates of a scan of a well-formed snapshot are pairwise apart. */
  lemma CandidatesApart(cfg: Settings, root: FSNode, next: nat, i: nat, j: nat)
    requires WellFormed(root) && i < j < |Tree(cfg, root, ROOT_CTX, map[], next).cands|
    ensures var cs := Tree(cfg, root, ROOT_CTX, map[], next).cands; CandsApart(cs[i], cs[j])
  {
    var vs := VisitsOf(cfg, root, ROOT_CTX);
    TreeRefines(cfg, root, ROOT_CTX, map[], next);
    VisitsSeparated(cfg, root, ROOT_CTX);
    VisitedWellFormed(cfg, root, ROOT_CTX);
    var cs := Tree(cfg, root, ROOT_CTX, map[], next).cands;
    var src := CandOrigins(cfg, vs);
    EmittedApart(cfg, vs[src[i]], vs[src[j]]);
    assert Erase(cs[i]) == EraseAll(cs)[i] == Cands(cfg, vs)[i];
    assert Erase(cs[j]) == EraseAll(cs)[j] == Cands(cfg, vs)[j];
  }

  /** Movie directories are leaves of the catalogue. */
  lemma MovieDirsAreLeaves(cfg: Settings, root: FSNode, next: nat)
    requires WellFormed(root)
    ensures var cs := Tree(cfg, root, ROOT_CTX, map[], next).cands;
            forall i, j :: 0 <= i < |cs| && 0 <= j < |cs| && i != j && cs[i].kind == Movie ==> Outside(cs[i], cs[j])
  {
    var cs := Tree(cfg, root, ROOT_CTX, map[], next).cands;
    forall i, j | 0 <= i < |cs| && 0 <= j < |cs| && i != j && cs[i].kind == Movie
      ensures Outside(cs[i], cs[j])
    {
      if i < j {
        CandidatesApart(cfg, root, next, i, j);
      } else {
        CandidatesApart(cfg, root, next, j, i);
      }
    }
  }

  /** Claimed keys and show/movie roots are pairwise distinct. */
  lemma KeysAndRootsDistinct(cfg: Settings, root: FSNode, next: nat)
    requires WellFormed(root)
    ensures var cs := Tree(cfg, root, ROOT_CTX, map[], next).cands;
            && DistinctKeys(cs)
            && forall i, j :: 0 <= i < j < |cs| && HasRoot(cs[i]) && HasRoot(cs[j]) ==>
              Clean(cs[i].rootPath) != Clean(cs[j].rootPath)
  {
    var cs := Tree(cfg, root, ROOT_CTX, map[], next).cands;
    forall i, j | 0 <= i < j < |cs|
      ensures CandsApart(cs[i], cs[j])
    {
      CandidatesApart(cfg, root, next, i, j);
    }
  }

  /** A directory that yields no show and no movie, such as a transparent container, is never a root path. */
  lemma ContainersAreNeverRoots(cfg: Settings, root: FSNode, next: nat, k: nat, i: nat)
    requires WellFormed(root)
    requires k < |VisitsOf(cfg, root, ROOT_CTX)| && VisitsOf(cfg, root, ROOT_CTX)[k].DirVisit?
    requires VisitsOf(cfg, root, ROOT_CTX)[k].role == ContainerDir
    requires i < |Tree(cfg, root, ROOT_CTX, map[], next).cands|
    ensures Tree(cfg, root, ROOT_CTX, map[], next).cands[i].rootPath != VisitsOf(cfg, root, ROOT_CTX)[k].node.path
  {
    var vs := VisitsOf(cfg, root, ROOT_CTX);
    TreeRefines(cfg, root, ROOT_CTX, map[], next);
    VisitsSeparated(cfg, root, ROOT_CTX);
    VisitedWellFormed(cfg, root, ROOT_CTX);
    var cs := Tree(cfg, root, ROOT_CTX, map[], next).cands;
    var src := CandOrigins(cfg, vs);
    assert Erase(cs[i]) == EraseAll(cs)[i] == Cands(cfg, vs)[i];
    EmitPlaces(cfg, vs[src[i]]);
    assert src[i] != k;
    VisitsElsewhere(cfg, vs, src[i], k);
  }

  lemma VisitsElsewhere(cfg: Settings, vs: seq<Visit>, a: nat, b: nat)
    requires Separated(cfg, vs) && VisitsWellFormed(vs) && a < |vs| && b < |vs| && a != b
    ensures vs[a].node.path != vs[b].node.path
  {
    assert WellFormed(vs[a].node);
    assert In(vs[a].node.path, vs[a].node.path);
    if a < b {
      assert Apart(cfg, vs[a], vs[b]);
    } else {
      assert Apart(cfg, vs[b], vs[a]);
    }
  }

  // ---- Rejections ------------------------------------------------------------------------------------

  lemma {:induction false} RejectOrigins(cfg: Settings, vs: seq<Visit>) returns (src: seq<nat>)
    ensures |src| == |Rejects(cfg, vs)|
    ensures forall j :: 0 <= j < |src| ==> src[j] < |vs| && Refuse(cfg, vs[src[j]]) == [Rejects(cfg, vs)[j]]
    ensures forall j, k :: 0 <= j < k < |src| ==> src[j] < src[k]
  {
    if vs == [] {
      src := [];
    } else {
      var before := vs[..|vs|-1];
      src := RejectOrigins(cfg, before);
      var e := Refuse(cfg, vs[|vs|-1]);
      assert |e| <= 1;
      assert Rejects(cfg, vs) == Rejects(cfg, before) + e;
      if |e| == 1 {
        assert e == [Rejects(cfg, vs)[|src|]];
        src := src + [|vs| - 1];
      }
    }
  }

  lemma {:induction false} RefusedIsRejected(cfg: Settings, vs: seq<Visit>, k: nat) returns (j: nat)
    requires k < |vs| && Refuse(cfg, vs[k]) != []
    ensures j < |Rejects(cfg, vs)| && [Rejects(cfg, vs)[j]] == Refuse(cfg, vs[k])
  {
    if k == |vs| - 1 {
      j := |Rejects(cfg, vs[..k])|;
    } else {
      j := RefusedIsRejected(cfg, vs[..|vs|-1], k);
    }
  }

  /** Every refused directory is rejected exactly once, and nothing else is. */
  lemma RefusedExactlyOnce(cfg: Settings, root: FSNode, next: nat)
    requires WellFormed(root)
    ensures var vs, rs := VisitsOf(cfg, root, ROOT_CTX), Tree(cfg, root, ROOT_CTX, map[], next).rejected;
            && (forall k :: 0 <= k < |vs| && Refuse(cfg, vs[k]) != [] ==> Refuse(cfg, vs[k])[0] in rs)
            && (forall j :: 0 <= j < |rs| ==> IsRefused(cfg, vs, rs[j]))
            && (forall j, k :: 0 <= j < k < |rs| ==> Clean(rs[j].path) != Clean(rs[k].path))
  {
    var vs := VisitsOf(cfg, root, ROOT_CTX);
    TreeRefines(cfg, root, ROOT_CTX, map[], next);
    VisitsSeparated(cfg, root, ROOT_CTX);
    VisitedWellFormed(cfg, root, ROOT_CTX);
    RefusalsListed(cfg, vs);
    RejectsApart(cfg, vs);
  }

  ghost predicate IsRefused(cfg: Settings, vs: seq<Visit>, r: RejectedItem) {
    exists k :: 0 <= k < |vs| && Refuse(cfg, vs[k]) == [r]
  }

  lemma RefusalsListed(cfg: Settings, vs: seq<Visit>)
    ensures forall k :: 0 <= k < |vs| && Refuse(cfg, vs[k]) != [] ==> Refuse(cfg, vs[k])[0] in Rejects(cfg, vs)
  {
    forall k | 0 <= k < |vs| && Refuse(cfg, vs[k]) != []
      ensures Refuse(cfg, vs[k])[0] in Rejects(cfg, vs)
    {
      var j := RefusedIsRejected(cfg, vs, k);
      assert Rejects(cfg, vs)[j] == Refuse(cfg, vs[k])[0];
    }
  }

  lemma RejectsApart(cfg: Settings, vs: seq<Visit>)
    requires Separated(cfg, vs) && VisitsWellFormed(vs)
    ensures forall j :: 0 <= j < |Rejects(cfg, vs)| ==> IsRefused(cfg, vs, Rejects(cfg, vs)[j])
    ensures forall j, k :: 0 <= j < k < |Rejects(cfg, vs)| ==>
              Clean(Rejects(cfg, vs)[j].path) != Clean(Rejects(cfg, vs)[k].path)
  {
    var rs := Rejects(cfg, vs);
    var src := RejectOrigins(cfg, vs);
    forall j, k | 0 <= j < k < |rs|
      ensures Clean(rs[j].path) != Clean(rs[k].path)
    {
      var v, w := vs[src[j]], vs[src[k]];
      assert Refuse(cfg, v) == [rs[j]] && Refuse(cfg, w) == [rs[k]];
      assert rs[j].path == v.node.path && rs[k].path == w.node.path;
      assert Apart(cfg, v, w);
    }
    forall j | 0 <= j < |rs|
      ensures IsRefused(cfg, vs, rs[j])
    {
      assert Refuse(cfg, vs[src[j]]) == [rs[j]];
    }
  }
}
