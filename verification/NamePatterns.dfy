// The patterns for names, character by character: extensions, season directories and episode numbers.
module NamePatterns {
  import opened Base
  import opened Decimal
  import opened Names

  // ---- Extensions --------------------------------------------------------------------------------------------------

  /** c is the letter l in either case, or the one other character whose lower case it is, or l itself. */
  predicate SameLetter(c: char, l: char) {
    || c == l || ('a' <= l <= 'z' && c as int == l as int - 32)
    || (l == 'k' && c == '\U{212A}') || (l == 'i' && c == '\U{130}')
  }

  /** A dot and lower-case letters or digits. */
  predicate IsExtension(ext: string) {
    ext != "" && ext[0] == '.' && forall i :: 0 < i < |ext| ==> 'a' <= ext[i] <= 'z' || '0' <= ext[i] <= '9'
  }

  /** name ends in ext, in any case. */
  predicate EndsIn(name: string, ext: string) {
    |name| >= |ext| && forall i :: 0 <= i < |ext| ==> SameLetter(name[|name|-|ext|+i], ext[i])
  }

  lemma ExtIff(name: string, ext: string)
    requires IsExtension(ext)
    ensures Ext(name) == ext <==> EndsIn(name, ext)
  {
    var d := LastDot(name);
    var n := |name| - |ext|;
    if EndsIn(name, ext) {
      forall i | n <= i < |name|
        ensures Lower(name[i]) == ext[i-n] && (name[i] == '.' <==> i == n)
      {
        assert SameLetter(name[|name|-|ext|+(i-n)], ext[i-n]);
      }
      assert d == n && ToLower(name[d..]) == ext;
    }
    if Ext(name) == ext {
      var e := ToLower(name[d..]);
      forall i | 0 <= i < |ext|
        ensures SameLetter(name[|name|-|ext|+i], ext[i])
      {
        assert e[i] == ext[i] == Lower(name[d+i]);
      }
    }
  }

  /** A name with nothing before the extension. */
  lemma BareIff(name: string, ext: string)
    requires IsExtension(ext)
    ensures Ext(name) == ext && TrimExt(name) == "" <==> |name| == |ext| && EndsIn(name, ext)
  {
    ExtIff(name, ext);
    if EndsIn(name, ext) {
      assert LastDot(name) == |name| - |ext|;
    }
  }

  const VIDEO_ENDINGS: seq<string> :=
    [".mkv", ".mp4", ".avi", ".mov", ".wmv", ".flv", ".webm", ".m4v", ".ts", ".m2ts", ".vob", ".iso"]

  const IMAGE_ENDINGS: seq<string> := [".jpg", ".jpeg", ".png", ".gif", ".bmp", ".webp"]

  const SUBTITLE_ENDINGS: seq<string> := [".srt", ".sub", ".ass", ".ssa", ".vtt"]

  predicate EndsInOneOf(name: string, exts: seq<string>) {
    exists i :: 0 <= i < |exts| && EndsIn(name, exts[i])
  }

  lemma OneOf(name: string, exts: seq<string>, known: set<string>)
    requires (forall i :: 0 <= i < |exts| ==> IsExtension(exts[i])) && forall e :: e in known <==> e in exts
    ensures Ext(name) in known <==> EndsInOneOf(name, exts)
  {
    forall i | 0 <= i < |exts|
      ensures Ext(name) == exts[i] <==> EndsIn(name, exts[i])
    {
      ExtIff(name, exts[i]);
    }
  }

  lemma VideoNames(name: string)
    ensures Ext(name) in VIDEO_EXTENSIONS <==> EndsInOneOf(name, VIDEO_ENDINGS)
  {
    var s := VIDEO_ENDINGS;
    assert s[0] == ".mkv" && s[1] == ".mp4" && s[2] == ".avi" && s[3] == ".mov" && s[4] == ".wmv" &&
           s[5] == ".flv" && s[6] == ".webm" && s[7] == ".m4v" && s[8] == ".ts" && s[9] == ".m2ts" && s[10] == ".vob" &&
           s[11] == ".iso";
    OneOf(name, s, VIDEO_EXTENSIONS);
  }

  lemma ImageNames(name: string)
    ensures Ext(name) in IMAGE_EXTENSIONS <==> EndsInOneOf(name, IMAGE_ENDINGS)
  {
    var s := IMAGE_ENDINGS;
    assert s[0] == ".jpg" && s[1] == ".jpeg" && s[2] == ".png" && s[3] == ".gif" && s[4] == ".bmp" && s[5] == ".webp";
    OneOf(name, s, IMAGE_EXTENSIONS);
  }

  lemma SubtitleNames(name: string)
    ensures Ext(name) in SUBTITLE_EXTENSIONS <==> EndsInOneOf(name, SUBTITLE_ENDINGS)
  {
    var s := SUBTITLE_ENDINGS;
    assert s[0] == ".srt" && s[1] == ".sub" && s[2] == ".ass" && s[3] == ".ssa" && s[4] == ".vtt";
    OneOf(name, s, SUBTITLE_EXTENSIONS);
  }

  /** What a file is, told by the end of its name in any case. */
  lemma FileKindIff(name: string)
    ensures FileKind(name) == Video <==> EndsInOneOf(name, VIDEO_ENDINGS)
    ensures FileKind(name) == NFO <==> EndsIn(name, ".nfo")
    ensures FileKind(name) == Image <==> EndsInOneOf(name, IMAGE_ENDINGS)
    ensures FileKind(name) == Subtitle <==> EndsInOneOf(name, SUBTITLE_ENDINGS)
    ensures FileKind(name) != DirNode && (Ext(name) in VIDEO_EXTENSIONS <==> FileKind(name) == Video)
  {
    VideoNames(name);
    ImageNames(name);
    SubtitleNames(name);
    ExtIff(name, ".nfo");
    assert {".nfo"} !! VIDEO_EXTENSIONS && IMAGE_EXTENSIONS !! VIDEO_EXTENSIONS;
    assert {".nfo"} !! IMAGE_EXTENSIONS && SUBTITLE_EXTENSIONS !! VIDEO_EXTENSIONS;
    assert {".nfo"} !! SUBTITLE_EXTENSIONS && SUBTITLE_EXTENSIONS !! IMAGE_EXTENSIONS;
  }

  // ---- Season directories ------------------------------------------------------------------------------------------

  predicate SeasonWord(word: string) {
    |word| == 6 && forall i :: 0 <= i < 6 ==>
      SameLetter(word[i], "season"[i]) || (i in {0, 3} && word[i] == '\U{17F}')
  }

  /** The digits stand from n on, spaces before them. */
  predicate SpacesAndDigits(s: string, n: nat) {
    n < |s| && (forall i :: 0 <= i < n ==> IsPatternSpace(s[i])) && forall i :: n <= i < |s| ==> IsDigit(s[i])
  }

  lemma {:induction false} SkipSpaces(s: string)
    ensures SkipPatternSpaces(s) != [] && AllDigits(SkipPatternSpaces(s)) <==> exists n: nat :: SpacesAndDigits(s, n)
  {
    var r := SkipPatternSpaces(s);
    if s != [] && IsPatternSpace(s[0]) {
      SkipSpaces(s[1..]);
      if n: nat :| SpacesAndDigits(s[1..], n) {
        forall i | 0 <= i < |s|
          ensures i < n + 1 ==> IsPatternSpace(s[i])
          ensures i >= n + 1 ==> IsDigit(s[i])
        {
          assert i > 0 ==> s[i] == s[1..][i-1];
        }
        assert SpacesAndDigits(s, n + 1);
      }
      if n: nat :| SpacesAndDigits(s, n) {
        assert n > 0 && SpacesAndDigits(s[1..], n - 1);
      }
    } else {
      if n: nat :| SpacesAndDigits(s, n) {
        assert n == 0;
      }
      if s != [] && AllDigits(s) {
        assert SpacesAndDigits(s, 0);
      }
    }
  }

  /** A season directory is named "season" in any case, the long s included, any spaces, and digits. */
  lemma SeasonNameIff(name: string)
    ensures IsSeasonDirName(name) <==>
            |name| >= 6 && SeasonWord(name[..6]) && exists n: nat :: SpacesAndDigits(name[6..], n)
  {
    if |name| >= 6 {
      SkipSpaces(name[6..]);
      var w := name[..6];
      assert w[0] == name[0] && w[1] == name[1] && w[2] == name[2] && w[3] == name[3] && w[4] == name[4] &&
             w[5] == name[5];
      assert "season"[0] == 's' && "season"[1] == 'e' && "season"[2] == 'a' && "season"[3] == 's' &&
             "season"[4] == 'o' && "season"[5] == 'n';
    }
  }

  // ---- Episode numbers ---------------------------------------------------------------------------------------------

  /** At i stand a digits, at most two, a letter, and b digits, at most three, the second number not going on behind
      them unless it has three. */
  predicate PairAt(s: string, i: nat, a: nat, b: nat, lower: char, upper: char) {
    && 1 <= a <= 2 && 1 <= b <= 3 && i + a + 1 + b <= |s|
    && AllDigits(s[i..i+a]) && (s[i+a] == lower || s[i+a] == upper) && AllDigits(s[i+a+1..i+a+1+b])
    && (b < 3 && i + a + 1 + b < |s| ==> !IsDigit(s[i+a+1+b]))
  }

  function PairOf(s: string, i: nat, a: nat, b: nat): (nat, nat)
    requires i + a + 1 + b <= |s| && AllDigits(s[i..i+a]) && AllDigits(s[i+a+1..i+a+1+b])
  {
    (Val(s[i..i+a]), Val(s[i+a+1..i+a+1+b]))
  }

  /** A greedy run of digits is as long as it can be. */
  lemma {:induction false} DigitsAre(s: string, i: nat, max: nat)
    requires i <= |s|
    ensures var d := Digits(s, i, max);
            && i + |d| <= |s| && d == s[i..i+|d|] && (|d| < max && i + |d| < |s| ==> !IsDigit(s[i+|d|]))
    decreases max
  {
    if max > 0 && i < |s| && IsDigit(s[i]) {
      DigitsAre(s, i + 1, max - 1);
    }
  }

  lemma {:induction false} DigitsReach(s: string, i: nat, max: nat, n: nat)
    requires n <= max && i + n <= |s| && AllDigits(s[i..i+n]) && (n < max && i + n < |s| ==> !IsDigit(s[i+n]))
    ensures Digits(s, i, max) == s[i..i+n]
    decreases max
  {
    if n > 0 {
      assert s[i..i+n][0] == s[i];
      assert s[i..i+n][1..] == s[i+1..i+n];
      DigitsReach(s, i + 1, max - 1, n - 1);
    }
  }

  lemma PairFound(s: string, i: nat, lower: char, upper: char, a: nat, b: nat)
    requires i <= |s| && !IsDigit(lower) && !IsDigit(upper) && PairAt(s, i, a, b, lower, upper)
    ensures NumberPair(s, i, lower, upper) == Some(PairOf(s, i, a, b))
  {
    DigitsReach(s, i, 2, a);
    DigitsReach(s, i + a + 1, 3, b);
    assert |s[i..i+a]| == a && |s[i+a+1..i+a+1+b]| == b;
  }

  lemma DigitsStandThere(s: string, i: nat, max: nat) returns (n: nat)
    requires i <= |s| && Digits(s, i, max) != ""
    ensures 1 <= n <= max && i + n <= |s| && AllDigits(s[i..i+n]) && (n < max && i + n < |s| ==> !IsDigit(s[i+n]))
  {
    n := |Digits(s, i, max)|;
    DigitsAre(s, i, max);
  }

  lemma PairStandsThere(s: string, i: nat, lower: char, upper: char) returns (a: nat, b: nat)
    requires i <= |s| && NumberPair(s, i, lower, upper).Some?
    ensures PairAt(s, i, a, b, lower, upper)
  {
    a := |Digits(s, i, 2)|;
    DigitsAre(s, i, 2);
    assert s[i..i+a] == Digits(s, i, 2);
    b := DigitsStandThere(s, i + a + 1, 3);
  }

  /** S01E02 at i, in any case, the long s included. */
  predicate EpisodeAt(s: string, i: nat, a: nat, b: nat) {
    i < |s| && (s[i] == 's' || s[i] == 'S' || s[i] == '\U{17F}') && PairAt(s, i + 1, a, b, 'e', 'E')
  }

  /** 1x02 at i. */
  predicate AltAt(s: string, i: nat, a: nat, b: nat) {
    PairAt(s, i, a, b, 'x', 'X')
  }

  /** No S01E02 starts before n. */
  ghost predicate NoEpisodeBefore(s: string, n: nat) {
    forall i: nat, a: nat, b: nat :: i < n ==> !EpisodeAt(s, i, a, b)
  }

  ghost predicate NoAltBefore(s: string, n: nat) {
    forall i: nat, a: nat, b: nat :: i < n ==> !AltAt(s, i, a, b)
  }

  lemma {:induction false} FirstEpisodeIs(s: string, i: nat)
    requires i <= |s| && NoEpisodeBefore(s, i)
    ensures FirstEpisodeMatch(s, 0) == FirstEpisodeMatch(s, i)
  {
    if i > 0 {
      FirstEpisodeIs(s, i - 1);
      if EpisodeMatchAt(s, i - 1).Some? {
        var a, b := PairStandsThere(s, i, 'e', 'E');
        assert EpisodeAt(s, i - 1, a, b);
      }
    }
  }

  lemma {:induction false} FirstAltIs(s: string, i: nat)
    requires i <= |s| && NoAltBefore(s, i)
    ensures FirstAltMatch(s, 0) == FirstAltMatch(s, i)
  {
    if i > 0 {
      FirstAltIs(s, i - 1);
      if AltMatchAt(s, i - 1).Some? {
        var a, b := PairStandsThere(s, i - 1, 'x', 'X');
        assert AltAt(s, i - 1, a, b);
      }
    }
  }

  /** The leftmost S01E02 of a name gives its numbers, wherever it stands and whatever else there is. */
  lemma LeftmostEpisode(s: string, i: nat, a: nat, b: nat)
    requires EpisodeAt(s, i, a, b) && NoEpisodeBefore(s, i)
    ensures ExtractEpisodeInfo(s) == PairOf(s, i + 1, a, b)
  {
    FirstEpisodeIs(s, i);
    PairFound(s, i + 1, 'e', 'E', a, b);
  }

  /** Without any, the leftmost 1x02 does. */
  lemma LeftmostAlt(s: string, i: nat, a: nat, b: nat)
    requires NoEpisodeBefore(s, |s|) && AltAt(s, i, a, b) && NoAltBefore(s, i)
    ensures ExtractEpisodeInfo(s) == PairOf(s, i, a, b)
  {
    FirstEpisodeIs(s, |s|);
    FirstAltIs(s, i);
    PairFound(s, i, 'x', 'X', a, b);
  }

  /** A name with neither has no numbers. */
  lemma NoNumbers(s: string)
    requires NoEpisodeBefore(s, |s|) && NoAltBefore(s, |s|)
    ensures ExtractEpisodeInfo(s) == (0, 0)
  {
    FirstEpisodeIs(s, |s|);
    FirstAltIs(s, |s|);
  }
}
