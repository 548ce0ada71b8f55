// Paths as component sequences, with the operations of path/filepath the importer uses.
module Paths {
  import PathText

  /** `NoPath` is the empty string. `Path(true, [], "")` is "/" and `Path(false, [], "")` is ".". The components are
      those of the cleaned path. A library's source path is stored as typed: `typed` is its text when that is not what
      filepath.Clean makes of it, and "" otherwise. Every other path is produced by Join or Dir and is clean. */
  datatype Path = NoPath | Path(abs: bool, segs: seq<string>, typed: string)

  /** The components left when "." is skipped and ".." takes the component before it away. */
  function Resolve(abs: bool, kept: seq<string>, rest: seq<string>): seq<string>
    decreases |rest|
  {
    if rest == [] then kept
    else if rest[0] == "." then Resolve(abs, kept, rest[1..])
    else if rest[0] == ".." then
      if kept != [] && kept[|kept|-1] != ".." then Resolve(abs, kept[..|kept|-1], rest[1..])
      else Resolve(abs, if abs then kept else kept + [".."], rest[1..])
    else Resolve(abs, kept + [rest[0]], rest[1..])
  }

  /** filepath.Clean */
  function Cleaned(text: string): (p: Path)
    ensures p.Path? && p.typed == ""
  {
    var abs := text != "" && text[0] == '/';
    Path(abs, Resolve(abs, [], PathText.Segments(text)), "")
  }

  function Lead(abs: bool): string {
    if abs then "/" else ""
  }

  /** How a path is spelled. */
  function Render(p: Path): string {
    if p.NoPath? then ""
    else if p.typed != "" then p.typed
    else if p.segs == [] then (if p.abs then "/" else ".")
    else Lead(p.abs) + PathText.JoinWith(p.segs)
  }

  /** The path that a text spells. */
  function Parse(text: string): Path {
    if text == "" then NoPath
    else if Render(Cleaned(text)) == text then Cleaned(text)
    else Cleaned(text).(typed := text)
  }

  /** filepath.Join */
  function Join(dir: Path, name: string): Path {
    if dir.NoPath? then Path(false, [name], "") else Path(dir.abs, dir.segs + [name], "")
  }

  /** filepath.Dir: the cleaned text up to the last slash; for a clean path, all but the last component. */
  function Dir(p: Path): (d: Path)
    ensures d.Path? && d.typed == ""
  {
    if p.NoPath? then Path(false, [], "")
    else if p.typed != "" then Cleaned(p.typed[..PathText.LastSlash(p.typed)+1])
    else if p.segs == [] then p
    else Path(p.abs, p.segs[..|p.segs|-1], "")
  }

  function Clean(p: Path): Path {
    if p.NoPath? then p else Path(p.abs, p.segs, "")
  }

  /** baseName in importer_util.go: what stands behind the last slash; for a clean path, the last component. */
  function BaseName(p: Path): string {
    if p.NoPath? then ""
    else if p.typed != "" then PathText.BaseName(p.typed)
    else if p.segs == [] then (if p.abs then "" else ".")
    else p.segs[|p.segs|-1]
  }

  /** q is p or lies below p. */
  predicate In(p: Path, q: Path) {
    p.Path? && q.Path? && p.abs == q.abs && p.segs <= q.segs
  }

  /** q lies strictly below p. */
  predicate Below(p: Path, q: Path) {
    In(p, q) && |p.segs| < |q.segs|
  }

  /** The upward walk can return exactly this directory: it is spelled clean, and is neither "/" nor ".". */
  predicate Walkable(p: Path) {
    p.Path? && p.segs != [] && p.typed == ""
  }

  lemma InTrans(p: Path, q: Path, r: Path)
    requires In(p, q) && In(q, r)
    ensures In(p, r)
  {
    assert p.segs == r.segs[..|p.segs|];
  }

  /** Two ancestors of one path are comparable. */
  lemma InComparable(p: Path, q: Path, r: Path)
    requires In(p, r) && In(q, r)
    ensures In(p, q) || In(q, p)
  {
    if |p.segs| <= |q.segs| {
      assert p.segs == q.segs[..|p.segs|];
    } else {
      assert q.segs == p.segs[..|q.segs|];
    }
  }

  /** Subtrees of differently named siblings are disjoint. */
  lemma SiblingsDisjoint(dir: Path, a: string, b: string, q: Path)
    requires dir.Path? && a != b
    requires In(Join(dir, a), q)
    ensures !In(Join(dir, b), q)
  {
    assert q.segs[|dir.segs|] == a;
    assert Join(dir, b).segs[|dir.segs|] == b;
  }
}
