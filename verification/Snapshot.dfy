// Stage 1: the recursive snapshot of the source directory (importer_snapshot.go).
module Snapshot {
  import opened Base
  import opened Paths
  import opened Names
  import opened FileSystem

  /** Directories nest at most depth levels below p: the filesystem is finite there. */
  ghost predicate Finite(fs: FS, p: Path, depth: nat)
    decreases depth
  {
    fs.readDir(p).Some? ==>
      forall e :: e in fs.readDir(p).value && e.isDir ==> depth > 0 && Finite(fs, Join(p, e.name), depth - 1)
  }

  /** No listing names an entry twice. */
  ghost predicate DistinctNames(fs: FS) {
    forall p :: fs.readDir(p).Some? ==> NoRepeats(fs.readDir(p).value)
  }

  predicate NoRepeats(es: seq<DirEntry>) {
    forall i, j :: 0 <= i < j < |es| ==> es[i].name != es[j].name
  }

  // What the recursion builds; None stands for the read error.
  ghost function Snap(fs: FS, p: Path, depth: nat): Option<FSNode>
    requires Finite(fs, p, depth)
    decreases depth, 1, 0
  {
    if fs.readDir(p).None? then None
    else Some(FSNode(p, BaseName(p), DirNode, true, SnapKids(fs, p, depth, fs.readDir(p).value)))
  }

  ghost predicate Subdirs(fs: FS, p: Path, depth: nat, es: seq<DirEntry>) {
    forall e :: e in es && e.isDir ==> depth > 0 && Finite(fs, Join(p, e.name), depth - 1)
  }

  ghost function SnapKids(fs: FS, p: Path, depth: nat, es: seq<DirEntry>): seq<FSNode>
    requires Subdirs(fs, p, depth, es)
    decreases depth, 0, |es|
  {
    if es == [] then [] else SnapKids(fs, p, depth, es[..|es|-1]) + SnapEntry(fs, p, depth, es[|es|-1])
  }

  // The node an entry contributes: none for a directory that cannot be read.
  ghost function SnapEntry(fs: FS, p: Path, depth: nat, e: DirEntry): seq<FSNode>
    requires Subdirs(fs, p, depth, [e])
    decreases depth, 0, 0
  {
    var path := Join(p, e.name);
    if e.isDir then
      assert e in [e];
      var sub := Snap(fs, path, depth - 1);
      if sub.Some? then [sub.value] else []
    else [FSNode(path, e.name, FileKind(e.name), false, [])]
  }

  /** buildSnapshotRecursive */
  method BuildSnapshotRecursive(fs: FS, p: Path, ghost depth: nat) returns (r: Option<FSNode>)
    requires Finite(fs, p, depth)
    ensures r == Snap(fs, p, depth)
    decreases depth
  {
    var listing := fs.readDir(p);
    if listing.None? {
      return None;
    }
    var entries := listing.value;
    var children := [];
    for i := 0 to |entries|
      invariant children == SnapKids(fs, p, depth, entries[..i])
    {
      var e := entries[i];
      assert entries[..i+1][..i] == entries[..i];
      var path := Join(p, e.name);
      if e.isDir {
        var sub := BuildSnapshotRecursive(fs, path, depth - 1);
        if sub.Some? {
          children := children + [sub.value];
        }
      } else {
        children := children + [FSNode(path, e.name, FileKind(e.name), false, [])];
      }
    }
    assert entries[..|entries|] == entries;
    r := Some(FSNode(p, BaseName(p), DirNode, true, children));
  }

  // ---- Faithfulness -----------------------------------------------------------------------

  /** From directory p the names segs lead, through readable directories only, to a readable directory
      (isDir) or to a file. */
  ghost predicate Reach(fs: FS, p: Path, segs: seq<string>, isDir: bool)
    decreases |segs|, 1
  {
    && fs.readDir(p).Some?
    && if segs == [] then isDir else exists e :: e in fs.readDir(p).value && EntryLeads(fs, p, e, segs, isDir)
  }

  ghost predicate EntryLeads(fs: FS, p: Path, e: DirEntry, segs: seq<string>, isDir: bool)
    requires segs != []
    decreases |segs|, 0
  {
    e.name == segs[0] && if e.isDir then Reach(fs, Join(p, e.name), segs[1..], isDir) else |segs| == 1 && !isDir
  }

  ghost predicate Contains(node: FSNode, segs: seq<string>, isDir: bool) {
    exists d :: At(node, segs, d) && d.isDir == isDir
  }

  /** The tree holds exactly the entries reachable through readable directories. */
  lemma {:induction false} SnapshotFaithful(fs: FS, p: Path, depth: nat, segs: seq<string>, isDir: bool)
    requires Finite(fs, p, depth) && Snap(fs, p, depth).Some?
    ensures Contains(Snap(fs, p, depth).value, segs, isDir) <==> Reach(fs, p, segs, isDir)
    decreases depth
  {
    var node := Snap(fs, p, depth).value;
    var es := fs.readDir(p).value;
    assert node.children == SnapKids(fs, p, depth, es);
    if segs == [] {
      assert At(node, segs, node);
    } else {
      if Contains(node, segs, isDir) {
        var d :| At(node, segs, d) && d.isDir == isDir;
        var i :| 0 <= i < |node.children| && node.children[i].name == segs[0] && At(node.children[i], segs[1..], d);
        assert Contains(node.children[i], segs[1..], isDir);
        var e := KidOrigin(fs, p, depth, es, i);
        assert e.name == node.children[i].name == segs[0];
        EntryFaithful(fs, p, depth, e, segs, isDir);
        assert Reach(fs, p, segs, isDir);
      }
      if Reach(fs, p, segs, isDir) {
        var e :| e in es && EntryLeads(fs, p, e, segs, isDir);
        EntryFaithful(fs, p, depth, e, segs, isDir);
        var i := KidPresent(fs, p, depth, es, e);
        assert Contains(node.children[i], segs[1..], isDir);
        var d :| At(node.children[i], segs[1..], d) && d.isDir == isDir;
        assert At(node, segs, d);
      }
    }
  }

  lemma EntryFaithful(fs: FS, p: Path, depth: nat, e: DirEntry, segs: seq<string>, isDir: bool)
    requires Subdirs(fs, p, depth, [e]) && segs != [] && e.name == segs[0]
    ensures EntryLeads(fs, p, e, segs, isDir) <==>
            SnapEntry(fs, p, depth, e) != [] && Contains(SnapEntry(fs, p, depth, e)[0], segs[1..], isDir)
    decreases depth, 0
  {
    assert e in [e];
    if e.isDir {
      var path := Join(p, e.name);
      if Snap(fs, path, depth - 1).Some? {
        SnapshotFaithful(fs, path, depth - 1, segs[1..], isDir);
      }
    } else {
      var f := SnapEntry(fs, p, depth, e)[0];
      if |segs| == 1 {
        assert At(f, segs[1..], f);
      }
    }
  }

  lemma {:induction false} KidOrigin(fs: FS, p: Path, depth: nat, es: seq<DirEntry>, i: nat) returns (e: DirEntry)
    requires Subdirs(fs, p, depth, es) && i < |SnapKids(fs, p, depth, es)|
    ensures e in es && Subdirs(fs, p, depth, [e]) && SnapEntry(fs, p, depth, e) == [SnapKids(fs, p, depth, es)[i]]
    ensures e.name == SnapKids(fs, p, depth, es)[i].name
    decreases |es|
  {
    if i < |SnapKids(fs, p, depth, es[..|es|-1])| {
      e := KidOrigin(fs, p, depth, es[..|es|-1], i);
    } else {
      e := es[|es|-1];
      SnapEntryShape(fs, p, depth, e);
    }
  }

  lemma {:induction false} KidPresent(fs: FS, p: Path, depth: nat, es: seq<DirEntry>, e: DirEntry) returns (i: nat)
    requires Subdirs(fs, p, depth, es) && e in es && SnapEntry(fs, p, depth, e) != []
    ensures i < |SnapKids(fs, p, depth, es)| && SnapKids(fs, p, depth, es)[i] == SnapEntry(fs, p, depth, e)[0]
    ensures SnapKids(fs, p, depth, es)[i].name == e.name
    decreases |es|
  {
    SnapEntryShape(fs, p, depth, e);
    if e == es[|es|-1] {
      i := |SnapKids(fs, p, depth, es[..|es|-1])|;
    } else {
      i := KidPresent(fs, p, depth, es[..|es|-1], e);
    }
  }

  lemma SnapEntryShape(fs: FS, p: Path, depth: nat, e: DirEntry)
    requires Subdirs(fs, p, depth, [e])
    ensures |SnapEntry(fs, p, depth, e)| <= 1
    ensures SnapEntry(fs, p, depth, e) != [] <==> (e.isDir ==> fs.readDir(Join(p, e.name)).Some?)
    ensures SnapEntry(fs, p, depth, e) != [] ==>
              var n := SnapEntry(fs, p, depth, e)[0];
              n.name == e.name && n.isDir == e.isDir && n.path == Join(p, e.name)
  {
  }

  // The entries that make it into the tree, in listing order.
  ghost function Kept(fs: FS, p: Path, es: seq<DirEntry>): seq<DirEntry> {
    if es == [] then []
    else
      var e := es[|es|-1];
      Kept(fs, p, es[..|es|-1]) + if e.isDir ==> fs.readDir(Join(p, e.name)).Some? then [e] else []
  }

  ghost function AsEntries(nodes: seq<FSNode>): seq<DirEntry> {
    seq(|nodes|, i requires 0 <= i < |nodes| => DirEntry(nodes[i].name, nodes[i].isDir))
  }

  /** Every directory of the tree lists its readable entries in ReadDir order, and every file is of the kind that its
      name tells. */
  ghost predicate InListingOrder(fs: FS, node: FSNode)
    decreases node
  {
    if node.isDir then
      && fs.readDir(node.path).Some? && node.name == BaseName(node.path) && node.kind == DirNode
      && AsEntries(node.children) == Kept(fs, node.path, fs.readDir(node.path).value)
      && forall i :: 0 <= i < |node.children| ==> InListingOrder(fs, node.children[i])
    else node.children == [] && node.kind == FileKind(node.name)
  }

  lemma {:induction false} SnapshotOrdered(fs: FS, p: Path, depth: nat)
    requires Finite(fs, p, depth) && Snap(fs, p, depth).Some?
    ensures InListingOrder(fs, Snap(fs, p, depth).value)
    decreases depth, 1, 0
  {
    KidsOrdered(fs, p, depth, fs.readDir(p).value);
  }

  lemma {:induction false} KidsOrdered(fs: FS, p: Path, depth: nat, es: seq<DirEntry>)
    requires Subdirs(fs, p, depth, es)
    ensures AsEntries(SnapKids(fs, p, depth, es)) == Kept(fs, p, es)
    ensures forall i :: 0 <= i < |SnapKids(fs, p, depth, es)| ==> InListingOrder(fs, SnapKids(fs, p, depth, es)[i])
    decreases depth, 0, |es|
  {
    if es != [] {
      var e := es[|es|-1];
      KidsOrdered(fs, p, depth, es[..|es|-1]);
      assert e in es;
      SnapEntryShape(fs, p, depth, e);
      if e.isDir && Snap(fs, Join(p, e.name), depth - 1).Some? {
        SnapshotOrdered(fs, Join(p, e.name), depth - 1);
      }
    }
  }

  /** The snapshot of a filesystem whose listings repeat no name is well-formed; by PathAt and
      PathsIdentifyNodes its paths are then pairwise distinct and extend those of their ancestors. */
  lemma {:induction false} SnapshotWellFormed(fs: FS, p: Path, depth: nat)
    requires Finite(fs, p, depth) && Snap(fs, p, depth).Some? && DistinctNames(fs) && p.Path?
    ensures WellFormed(Snap(fs, p, depth).value)
    ensures Snap(fs, p, depth).value.path == p && Snap(fs, p, depth).value.isDir
    decreases depth, 1, 0
  {
    var es := fs.readDir(p).value;
    var node := Snap(fs, p, depth).value;
    KidsWellFormed(fs, p, depth, es);
    assert node.children == SnapKids(fs, p, depth, es);
    forall i | 0 <= i < |node.children|
      ensures Placed(node, node.children[i]) && WellFormed(node.children[i])
    {
      assert node.children[i] == SnapKids(fs, p, depth, es)[i];
    }
  }

  lemma {:induction false} KidsWellFormed(fs: FS, p: Path, depth: nat, es: seq<DirEntry>)
    requires Subdirs(fs, p, depth, es) && DistinctNames(fs) && p.Path? && NoRepeats(es)
    ensures var kids := SnapKids(fs, p, depth, es);
            && (forall i :: 0 <= i < |kids| ==> kids[i].path == Join(p, kids[i].name) && WellFormed(kids[i]))
            && (forall i, j :: 0 <= i < j < |kids| ==> kids[i].name != kids[j].name)
    decreases depth, 0, |es|
  {
    if es != [] {
      var e := es[|es|-1];
      var before := es[..|es|-1];
      KidsWellFormed(fs, p, depth, before);
      assert e in es;
      SnapEntryShape(fs, p, depth, e);
      if e.isDir && Snap(fs, Join(p, e.name), depth - 1).Some? {
        SnapshotWellFormed(fs, Join(p, e.name), depth - 1);
      }
      var kids := SnapKids(fs, p, depth, before);
      forall i | 0 <= i < |kids|
        ensures kids[i].name != e.name
      {
        var o := KidOrigin(fs, p, depth, before, i);
        var k :| 0 <= k < |before| && before[k] == o;
        assert es[k] == o;
      }
      var last := SnapEntry(fs, p, depth, e);
      var all := SnapKids(fs, p, depth, es);
      assert all == kids + last;
      forall i, j | 0 <= i < j < |all|
        ensures all[i].name != all[j].name
      {
        assert all[i] == kids[i];
        assert j < |kids| ==> all[j] == kids[j];
        assert j == |kids| ==> all[j] == last[0];
      }
    }
  }
}
