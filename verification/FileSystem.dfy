// The filesystem the importer reads: listings, existence checks and parsed NFO contents.
// All of them are fixed functions of the path for the length of an import.
module FileSystem {
  import opened Base
  import opened Paths
  import opened Names

  datatype DirEntry = DirEntry(name: string, isDir: bool)

  /** What an episode NFO contributes besides descriptive fields. */
  datatype EpisodeNFO = EpisodeNFO(season: int, episode: int)

  /** Descriptive columns (titles, plots, artwork, credits), never inspected by the pipeline. */
  type Info = string

  datatype FS = FS(
    readDir: Path -> Option<seq<DirEntry>>,
    exists_: Path -> bool,
    movieTitle: Path -> Option<string>,        // open and decode as <movie>: its title
    episodeNFO: Path -> Option<EpisodeNFO>,    // open and parse: the first episode
    showInfo: Path -> Info,
    movieInfo: (Path, Path, Path) -> Info,
    episodeInfo: Path -> Info)
  {
    predicate HasShowNFO(dir: Path) {
      exists_(Join(dir, "tvshow.nfo"))
    }
  }

  /** A node of the snapshot tree. */
  datatype FSNode = FSNode(path: Path, name: string, kind: NodeKind, isDir: bool, children: seq<FSNode>)

  predicate IsVideo(node: FSNode) {
    !node.isDir && node.kind == Video
  }

  /** Children lie where their names say, and no two share a name. */
  ghost predicate WellFormed(node: FSNode)
    decreases node
  {
    && node.path.Path?
    && (forall i :: 0 <= i < |node.children| ==> Placed(node, node.children[i]) && WellFormed(node.children[i]))
    && (forall i, j :: 0 <= i < j < |node.children| ==> node.children[i].name != node.children[j].name)
  }

  predicate Placed(parent: FSNode, child: FSNode) {
    child.path == Join(parent.path, child.name)
  }

  /** d sits in the tree under the names segs. */
  ghost predicate At(node: FSNode, segs: seq<string>, d: FSNode)
    decreases node
  {
    if segs == [] then d == node
    else exists i :: 0 <= i < |node.children| && node.children[i].name == segs[0] && At(node.children[i], segs[1..], d)
  }

  function DirCount(node: FSNode): nat
    decreases node, |node.children| + 1
  {
    if node.isDir then 1 + KidDirCount(node, |node.children|) else 0
  }

  function KidDirCount(node: FSNode, i: nat): nat
    requires i <= |node.children|
    decreases node, i
  {
    if i == 0 then 0 else KidDirCount(node, i - 1) + DirCount(node.children[i-1])
  }

  lemma {:induction false} PathAt(node: FSNode, segs: seq<string>, d: FSNode)
    requires WellFormed(node) && At(node, segs, d)
    ensures d.path.Path? && d.path.abs == node.path.abs && d.path.segs == node.path.segs + segs
    ensures segs != [] ==> Below(node.path, d.path) && d.path.typed == ""
    decreases segs
  {
    if segs != [] {
      var i :| 0 <= i < |node.children| && node.children[i].name == segs[0] && At(node.children[i], segs[1..], d);
      var c := node.children[i];
      assert Placed(node, c);
      PathAt(c, segs[1..], d);
      assert node.path.segs + segs == c.path.segs + segs[1..];
    }
  }

  lemma {:induction false} UniqueAt(node: FSNode, segs: seq<string>, d: FSNode, e: FSNode)
    requires WellFormed(node) && At(node, segs, d) && At(node, segs, e)
    ensures d == e
    decreases segs
  {
    if segs != [] {
      var i :| 0 <= i < |node.children| && node.children[i].name == segs[0] && At(node.children[i], segs[1..], d);
      var j :| 0 <= j < |node.children| && node.children[j].name == segs[0] && At(node.children[j], segs[1..], e);
      UniqueAt(node.children[i], segs[1..], d, e);
    }
  }

  /** In a well-formed tree a path names one node. */
  lemma PathsIdentifyNodes(node: FSNode, s1: seq<string>, d1: FSNode, s2: seq<string>, d2: FSNode)
    requires WellFormed(node) && At(node, s1, d1) && At(node, s2, d2)
    ensures Clean(d1.path) == Clean(d2.path) ==> s1 == s2 && d1 == d2
  {
    PathAt(node, s1, d1);
    PathAt(node, s2, d2);
    if Clean(d1.path) == Clean(d2.path) {
      assert s1 == d1.path.segs[|node.path.segs|..] == s2;
      UniqueAt(node, s1, d1, d2);
    }
  }
}
