// Texts and the paths they spell.
module Spelling {
  import opened PathText
  import opened Paths
  import S3Join

  // ---- Canonical components ------------------------------------------------------------------------------------

  /** A component that filepath.Clean leaves alone, ".." aside. */
  predicate IsName(s: string) {
    s != "" && s != "." && forall i :: 0 <= i < |s| ==> s[i] != '/'
  }

  /** ".." stands at the front only, and not behind a leading slash. */
  predicate Canonical(abs: bool, segs: seq<string>) {
    && (forall i :: 0 <= i < |segs| ==> IsName(segs[i]))
    && (forall i :: 0 <= i < |segs| && segs[i] == ".." ==> !abs && forall j :: 0 <= j < i ==> segs[j] == "..")
  }

  predicate Piece(s: string) {
    s != "" && forall i :: 0 <= i < |s| ==> s[i] != '/'
  }

  predicate Pieces(ss: seq<string>) {
    forall i :: 0 <= i < |ss| ==> Piece(ss[i])
  }

  lemma {:induction false} SplitPieces(s: string, current: string)
    requires forall i :: 0 <= i < |current| ==> current[i] != '/'
    ensures Pieces(Split(s, current))
    decreases |s|
  {
    if s != [] {
      SplitPieces(s[1..], if s[0] == '/' then "" else current + [s[0]]);
    }
  }

  lemma {:induction false} ResolveCanonical(abs: bool, kept: seq<string>, rest: seq<string>)
    requires Canonical(abs, kept) && Pieces(rest)
    ensures Canonical(abs, Resolve(abs, kept, rest))
    decreases |rest|
  {
    if rest != [] {
      var t := rest[1..];
      assert Piece(rest[0]);
      if rest[0] == "." {
        ResolveCanonical(abs, kept, t);
      } else if rest[0] != ".." {
        ResolveCanonical(abs, kept + [rest[0]], t);
      } else if kept != [] && kept[|kept|-1] != ".." {
        ResolveCanonical(abs, kept[..|kept|-1], t);
      } else if abs {
        ResolveCanonical(abs, kept, t);
      } else {
        ResolveCanonical(abs, kept + [".."], t);
      }
    }
  }

  lemma {:induction false} ResolveKeeps(abs: bool, kept: seq<string>, rest: seq<string>)
    requires Canonical(abs, kept + rest)
    ensures Resolve(abs, kept, rest) == kept + rest
    decreases |rest|
  {
    if rest == [] {
      assert kept + rest == kept;
    } else {
      var all := kept + rest;
      assert all[|kept|] == rest[0] && IsName(rest[0]);
      assert kept != [] ==> all[|kept|-1] == kept[|kept|-1];
      assert kept + [rest[0]] + rest[1..] == all;
      ResolveKeeps(abs, kept + [rest[0]], rest[1..]);
    }
  }

  /** What filepath.Clean makes of any text is canonical. */
  lemma CleanedCanonical(text: string)
    ensures Canonical(Cleaned(text).abs, Cleaned(text).segs)
  {
    SplitPieces(text, "");
    ResolveCanonical(text != "" && text[0] == '/', [], Segments(text));
  }

  lemma {:induction false} ResolveConcat(abs: bool, kept: seq<string>, a: seq<string>, b: seq<string>)
    ensures Resolve(abs, kept, a + b) == Resolve(abs, Resolve(abs, kept, a), b)
    decreases |a|
  {
    if a == [] {
      assert a + b == b;
    } else {
      assert (a + b)[1..] == a[1..] + b;
      if a[0] == "." {
        ResolveConcat(abs, kept, a[1..], b);
      } else if a[0] != ".." {
        ResolveConcat(abs, kept + [a[0]], a[1..], b);
      } else if kept != [] && kept[|kept|-1] != ".." {
        ResolveConcat(abs, kept[..|kept|-1], a[1..], b);
      } else {
        ResolveConcat(abs, if abs then kept else kept + [".."], a[1..], b);
      }
    }
  }

  /** ".." takes back the name before it, wherever the two stand, and "." changes nothing. */
  lemma DotsResolved(abs: bool, a: seq<string>, name: string, b: seq<string>)
    requires name != "." && name != ".."
    ensures Resolve(abs, [], a + [name, ".."] + b) == Resolve(abs, [], a + b)
    ensures Resolve(abs, [], a + ["."] + b) == Resolve(abs, [], a + b)
  {
    var kept := Resolve(abs, [], a);
    ResolveConcat(abs, [], a, b);
    ResolveConcat(abs, [], a + [name, ".."], b);
    ResolveConcat(abs, [], a, [name, ".."]);
    ResolveConcat(abs, [], a + ["."], b);
    ResolveConcat(abs, [], a, ["."]);
    assert [name, ".."][1..] == [".."] && [".."][1..] == [] && ["."][1..] == [];
    assert (kept + [name])[..|kept|] == kept;
    assert Resolve(abs, kept, [name, ".."]) == Resolve(abs, kept + [name], [".."]) == Resolve(abs, kept, []);
  }

  // ---- Reading back what is spelled --------------------------------------------------------------------------------

  lemma {:induction false} SplitPiece(s: string, current: string)
    requires forall i :: 0 <= i < |s| ==> s[i] != '/'
    ensures Split(s, current) == NonEmpty(current + s)
    decreases |s|
  {
    if s == [] {
      assert current + s == current;
    } else {
      SplitPiece(s[1..], current + [s[0]]);
      assert current + [s[0]] + s[1..] == current + s;
    }
  }

  lemma {:induction false} AllSegmentsOfNames(segs: seq<string>)
    requires Pieces(segs)
    ensures S3Join.AllSegments(segs) == segs
  {
    if segs != [] {
      assert Piece(segs[0]);
      SplitPiece(segs[0], "");
      assert "" + segs[0] == segs[0];
      AllSegmentsOfNames(segs[1..]);
      assert [segs[0]] + segs[1..] == segs;
    }
  }

  lemma SegmentsOfSpelled(abs: bool, segs: seq<string>)
    requires Canonical(abs, segs)
    ensures Segments(Lead(abs) + JoinWith(segs)) == segs
  {
    assert Pieces(segs) by {
      forall i | 0 <= i < |segs|
        ensures Piece(segs[i])
      {
        assert IsName(segs[i]);
      }
    }
    AllSegmentsOfNames(segs);
    S3Join.JoinWithSegments(segs);
    LeadSkipped(abs, JoinWith(segs));
  }

  lemma LeadSkipped(abs: bool, s: string)
    ensures Segments(Lead(abs) + s) == Segments(s)
  {
    var t := Lead(abs) + s;
    if abs {
      assert t[0] == '/' && t[1..] == s;
    } else {
      assert t == s;
    }
  }

  /** A text reads back as the path it spells: every clean path with canonical components is what its spelling parses
      to. */
  lemma ParseRender(p: Path)
    requires p.Path? && p.typed == "" && Canonical(p.abs, p.segs)
    ensures Parse(Render(p)) == p
  {
    var text := Render(p);
    if p.segs == [] {
      CleanedShort();
    } else {
      assert IsName(p.segs[0]);
      assert text == Lead(p.abs) + JoinWith(p.segs);
      assert text[0] == if p.abs then '/' else p.segs[0][0];
      SegmentsOfSpelled(p.abs, p.segs);
      assert [] + p.segs == p.segs;
      ResolveKeeps(p.abs, [], p.segs);
    }
    assert Cleaned(text) == p;
  }

  lemma CleanedShort()
    ensures Cleaned("/") == Path(true, [], "") && Cleaned(".") == Path(false, [], "") &&
            Cleaned("") == Path(false, [], "")
  {
    var s, d := "/", ".";
    assert s[1..] == "" && d[1..] == "";
    assert "" + [d[0]] == ['.'];
    assert Split(d, "") == Split(d[1..], ['.']) == ["."];
    assert Split(s, "") == [];
    assert Resolve(false, [], ["."]) == Resolve(false, [], []) by { assert ["."][1..] == []; }
  }

  /** Different texts spell different paths: comparing paths is comparing the strings the catalogue stores. */
  lemma RenderParse(text: string)
    ensures Render(Parse(text)) == text
  {
  }

  /** The text is what filepath.Clean would make of it. */
  predicate IsClean(text: string) {
    text != "" && Render(Cleaned(text)) == text
  }

  /** A clean path other than "/" and ".". */
  predicate IsOrdinary(text: string) {
    IsClean(text) && text != "/" && text != "."
  }

  /** In terms of the text: the upward walk can return exactly the ordinary paths. */
  lemma WalkableIffOrdinary(text: string)
    ensures Walkable(Parse(text)) <==> IsOrdinary(text)
  {
    CleanedShort();
    if text != "" && Cleaned(text).segs == [] {
      assert Render(Cleaned(text)) in {"/", "."};
    }
  }

  // ---- Some spellings that are not clean --------------------------------------------------------------------------

  lemma {:induction false} JoinNoDouble(segs: seq<string>)
    requires Pieces(segs)
    ensures !S3Join.HasDouble(JoinWith(segs))
    ensures segs != [] ==> JoinWith(segs) != "" && JoinWith(segs)[0] != '/' && JoinWith(segs)[|JoinWith(segs)|-1] != '/'
  {
    if segs != [] {
      assert Piece(segs[0]);
      if |segs| > 1 {
        var rest := JoinWith(segs[1..]);
        var s := segs[0] + "/" + rest;
        assert Pieces(segs[1..]);
        JoinNoDouble(segs[1..]);
        forall i | 0 <= i < |s|
          ensures !S3Join.DoubleAt(s, i)
        {
          assert i < |segs[0]| ==> s[i] == segs[0][i];
          assert i > |segs[0]| ==> !S3Join.DoubleAt(rest, i - |segs[0]| - 1);
        }
      }
    }
  }

  /** A path typed with a double slash, with a slash at its end, or with "./" in front is not clean. */
  lemma TypedUnclean(text: string)
    requires S3Join.HasDouble(text) || (|text| > 1 && (text[|text|-1] == '/' || text[..2] == "./"))
    ensures !IsClean(text) && !Walkable(Parse(text))
  {
    WalkableIffOrdinary(text);
    var p := Cleaned(text);
    CleanedCanonical(text);
    if p.segs != [] {
      SpelledShape(p.abs, p.segs);
    }
  }

  lemma SpelledShape(abs: bool, segs: seq<string>)
    requires Canonical(abs, segs) && segs != []
    ensures var s := Lead(abs) + JoinWith(segs);
            !S3Join.HasDouble(s) && s != "" && s[|s|-1] != '/' && !(|s| > 1 && s[..2] == "./")
  {
    var j := JoinWith(segs);
    var s := Lead(abs) + j;
    forall i | 0 <= i < |segs|
      ensures Piece(segs[i])
    {
      assert IsName(segs[i]);
    }
    JoinNoDouble(segs);
    LeadNoDouble(abs, j);
    NoDotFront(segs);
    if abs {
      assert s[0] == '/';
    } else {
      assert s == j;
    }
  }

  lemma LeadNoDouble(abs: bool, j: string)
    requires !S3Join.HasDouble(j) && j != "" && j[0] != '/' && j[|j|-1] != '/'
    ensures var s := Lead(abs) + j; !S3Join.HasDouble(s) && s != "" && s[|s|-1] != '/'
  {
    var s := Lead(abs) + j;
    forall i | 0 <= i < |s|
      ensures !S3Join.DoubleAt(s, i)
    {
      assert !S3Join.DoubleAt(j, i - |Lead(abs)|);
    }
  }

  lemma NoDotFront(segs: seq<string>)
    requires segs != [] && IsName(segs[0])
    ensures var s := JoinWith(segs); !(|s| > 1 && s[0] == '.' && s[1] == '/')
  {
    var n, s := segs[0], JoinWith(segs);
    assert s[0] == n[0];
    if |n| == 1 {
      assert n == [n[0]];
      assert "." == ['.'];
    } else {
      assert s[1] == n[1];
    }
  }

  // ---- Base names --------------------------------------------------------------------------------------------------

  lemma BaseNameAlone(name: string)
    requires S3Join.PlainName(name)
    ensures PathText.BaseName(name) == name
  {
    assert ForwardSlashes(name) == name;
  }

  lemma Assoc(a: string, b: string, c: string)
    ensures a + b + c == a + (b + c)
  {
  }

  /** What stands before the last name of a joined path. */
  function Front(segs: seq<string>): string {
    if |segs| <= 1 then "" else segs[0] + "/" + Front(segs[1..])
  }

  lemma {:induction false} JoinIsFront(segs: seq<string>)
    requires segs != []
    ensures JoinWith(segs) == Front(segs) + segs[|segs|-1]
  {
    if |segs| == 1 {
      assert Front(segs) + segs[0] == segs[0];
    } else {
      var t := segs[1..];
      JoinIsFront(t);
      Assoc(segs[0] + "/", Front(t), t[|t|-1]);
    }
  }

  predicate EndsInSlashOrEmpty(s: string) {
    s == "" || s[|s|-1] == '/'
  }

  lemma EndsAs(lead: string, s: string)
    requires EndsInSlashOrEmpty(lead) && EndsInSlashOrEmpty(s)
    ensures EndsInSlashOrEmpty(lead + s)
  {
    if s == "" {
      assert lead + s == lead;
    }
  }

  lemma {:induction false} FrontEnds(segs: seq<string>)
    ensures EndsInSlashOrEmpty(Front(segs))
  {
    if |segs| > 1 {
      FrontEnds(segs[1..]);
      EndsAs(segs[0] + "/", Front(segs[1..]));
    }
  }

  lemma HeadedBaseName(head: string, name: string)
    requires S3Join.PlainName(name) && EndsInSlashOrEmpty(head)
    ensures PathText.BaseName(head + name) == name
  {
    if head == "" {
      assert head + name == name;
      BaseNameAlone(name);
    } else {
      S3Join.BaseNameBehind(head, name);
    }
  }

  lemma RootBaseName()
    ensures PathText.BaseName("/") == ""
  {
    var s := "/";
    assert ForwardSlashes(s) == s;
    assert s[..|s|-1] == "";
    assert TrimRightSlashes(s) == "";
  }

  /** On the spelling of a path, as typed or clean, the text's base name is the path's. */
  lemma RenderedBaseName(p: Path)
    requires p.Path? && p.typed == "" ==> forall i :: 0 <= i < |p.segs| ==> S3Join.PlainName(p.segs[i])
    ensures PathText.BaseName(Render(p)) == Paths.BaseName(p)
  {
    if p.NoPath? || p.typed != "" {
    } else if p.segs != [] {
      CleanBaseName(p);
    } else if p.abs {
      RootBaseName();
    } else {
      BaseNameAlone(".");
    }
  }

  lemma CleanBaseName(p: Path)
    requires p.Path? && p.typed == "" && p.segs != [] && S3Join.PlainName(p.segs[|p.segs|-1])
    ensures PathText.BaseName(Render(p)) == Paths.BaseName(p)
  {
    var lead, name := Lead(p.abs), p.segs[|p.segs|-1];
    JoinIsFront(p.segs);
    FrontEnds(p.segs);
    Assoc(lead, Front(p.segs), name);
    EndsAs(lead, Front(p.segs));
    HeadedBaseName(lead + Front(p.segs), name);
  }
}
