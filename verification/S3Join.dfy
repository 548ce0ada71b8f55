// S3ImportFS.Join (importfs_s3.go) and baseName (importer_util.go) on plain strings.
module S3Join {
  import opened PathText

  predicate DoubleAt(s: string, i: int) {
    0 <= i && i + 1 < |s| && s[i] == '/' && s[i+1] == '/'
  }

  predicate HasDouble(s: string) {
    exists i :: 0 <= i < |s| && DoubleAt(s, i)
  }

  /** strings.ReplaceAll(s, "//", "/"): non-overlapping, from the left. */
  function Halve(s: string): string {
    if s == [] then ""
    else if DoubleAt(s, 0) then "/" + Halve(s[2..])
    else [s[0]] + Halve(s[1..])
  }

  /** Every run of slashes replaced by a single one. */
  function Collapse(s: string): string {
    if s == [] then ""
    else if DoubleAt(s, 0) then Collapse(s[1..])
    else [s[0]] + Collapse(s[1..])
  }

  lemma {:induction false} HalveShortens(s: string)
    ensures |Halve(s)| <= |s| && (HasDouble(s) ==> |Halve(s)| < |s|)
  {
    if s != [] {
      if DoubleAt(s, 0) {
        HalveShortens(s[2..]);
      } else {
        HalveShortens(s[1..]);
        if HasDouble(s) {
          var i :| 0 <= i < |s| && DoubleAt(s, i);
          assert DoubleAt(s[1..], i - 1);
        }
      }
    }
  }

  /** Collapse sees a slash in front of t only as one slash, whether or not t starts with one. */
  lemma CollapseSlash(t: string)
    ensures Collapse("/" + t) == if t != [] && t[0] == '/' then Collapse(t) else "/" + Collapse(t)
  {
    assert ("/" + t)[1..] == t;
  }

  lemma {:induction false} StartsHalved(s: string)
    ensures Halve(s) != [] <==> s != []
    ensures s != [] ==> Halve(s)[0] == s[0]
  {
  }

  lemma {:induction false} CollapseHalve(s: string)
    ensures Collapse(Halve(s)) == Collapse(s)
  {
    if s != [] {
      if DoubleAt(s, 0) {
        var t := s[2..];
        CollapseHalve(t);
        CollapseSlash(Halve(t));
        CollapseSlash(t);
        StartsHalved(t);
        assert s[1..] == "/" + t;
      } else {
        var t := s[1..];
        CollapseHalve(t);
        StartsHalved(t);
        assert Halve(s)[1..] == Halve(t);
      }
    }
  }

  lemma {:induction false} CollapseNoDouble(s: string)
    requires !HasDouble(s)
    ensures Collapse(s) == s
  {
    if s != [] {
      assert !DoubleAt(s, 0);
      forall i | 0 <= i < |s[1..]|
        ensures !DoubleAt(s[1..], i)
      {
        assert !DoubleAt(s, i + 1);
      }
      CollapseNoDouble(s[1..]);
    }
  }

  /** The loop halves until no double slash is left; the result is the single-pass collapse. */
  method Join(elem: seq<string>) returns (joined: string)
    ensures !HasDouble(joined)
    ensures joined == Collapse(JoinWith(elem))
  {
    joined := JoinWith(elem);
    while HasDouble(joined)
      invariant Collapse(joined) == Collapse(JoinWith(elem))
      decreases |joined|
    {
      HalveShortens(joined);
      CollapseHalve(joined);
      joined := Halve(joined);
    }
    CollapseNoDouble(joined);
  }

  // ---- Segments ------------------------------------------------------------------------------------------------

  function AllSegments(elem: seq<string>): seq<string> {
    if elem == [] then [] else Segments(elem[0]) + AllSegments(elem[1..])
  }

  lemma {:induction false} SplitCollapse(s: string, current: string)
    ensures Split(Collapse(s), current) == Split(s, current)
    decreases |s|
  {
    if s != [] {
      if DoubleAt(s, 0) {
        SplitCollapse(s[1..], current);
        assert Split(s[1..], current) == NonEmpty(current) + Split(s[2..], "") by { assert s[1..][1..] == s[2..]; }
        assert Split(s, current) == NonEmpty(current) + Split(s[1..], "");
        assert Split(s[1..], "") == [] + Split(s[2..], "") by { assert s[1..][1..] == s[2..]; }
      } else {
        assert Collapse(s)[1..] == Collapse(s[1..]);
        SplitCollapse(s[1..], if s[0] == '/' then "" else current + [s[0]]);
      }
    }
  }

  lemma {:induction false} SplitAtSlash(a: string, b: string, current: string)
    ensures Split(a + "/" + b, current) == Split(a, current) + Segments(b)
    decreases |a|
  {
    var s := a + "/" + b;
    if a == [] {
      assert s[1..] == b;
    } else {
      assert s[1..] == a[1..] + "/" + b;
      SplitAtSlash(a[1..], b, if a[0] == '/' then "" else current + [a[0]]);
    }
  }

  lemma {:induction false} JoinWithSegments(elem: seq<string>)
    ensures Segments(JoinWith(elem)) == AllSegments(elem)
  {
    if |elem| == 1 {
      assert AllSegments(elem[1..]) == [];
    } else if |elem| > 1 {
      JoinWithSegments(elem[1..]);
      SplitAtSlash(elem[0], JoinWith(elem[1..]), "");
    }
  }

  /** Joining keeps the non-empty segments of the elements, in order. */
  lemma JoinKeepsSegments(elem: seq<string>)
    ensures Segments(Collapse(JoinWith(elem))) == AllSegments(elem)
  {
    SplitCollapse(JoinWith(elem), "");
    JoinWithSegments(elem);
  }

  // ---- baseName --------------------------------------------------------------------------------------------------

  predicate PlainName(name: string) {
    name != "" && forall i :: 0 <= i < |name| ==> name[i] != '/' && name[i] != '\\'
  }

  lemma {:induction false} CollapseAppend(a: string, b: string)
    requires b != [] && b[0] != '/'
    ensures Collapse(a + b) == Collapse(a) + Collapse(b)
  {
    if a == [] {
      assert a + b == b;
    } else {
      assert (a + b)[1..] == a[1..] + b;
      CollapseAppend(a[1..], b);
    }
  }

  lemma {:induction false} EndsInSlash(a: string)
    ensures Collapse(a + "/") != [] && Collapse(a + "/")[|Collapse(a + "/")|-1] == '/'
  {
    var s := a + "/";
    if a != [] {
      assert s[1..] == a[1..] + "/";
      EndsInSlash(a[1..]);
    } else {
      assert s == "/" && s[1..] == [];
      assert Collapse(s[1..]) == "";
    }
  }

  /** Behind a prefix that ends in a slash or backslash, a plain name is the base name. */
  lemma BaseNameBehind(head: string, name: string)
    requires head != [] && (head[|head|-1] == '/' || head[|head|-1] == '\\') && PlainName(name)
    ensures BaseName(head + name) == name
  {
    var h := ForwardSlashes(head);
    var f := ForwardSlashes(head + name);
    assert f == h + name;
    assert f[|f|-1] == name[|name|-1];
    assert TrimRightSlashes(f) == f;
    assert f[|h|-1] == '/';
    assert LastSlash(f) == |h| - 1 by {
      assert forall i :: |h| <= i < |f| ==> f[i] == name[i-|h|];
    }
  }

  /** The base name of a joined path is the name joined last. */
  lemma BaseNameOfJoin(dir: string, name: string)
    requires PlainName(name)
    ensures BaseName(Collapse(JoinWith([dir, name]))) == name
  {
    var head := Collapse(dir + "/");
    assert JoinWith([dir, name]) == dir + "/" + name by {
      assert [dir, name][1..] == [name];
      assert JoinWith([name]) == name;
    }
    CollapseAppend(dir + "/", name);
    assert forall i :: 0 <= i < |name| ==> !DoubleAt(name, i);
    CollapseNoDouble(name);
    EndsInSlash(dir);
    BaseNameBehind(head, name);
  }
}
