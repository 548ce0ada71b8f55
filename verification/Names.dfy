// File and directory names: extensions, the season-directory pattern and the episode patterns.
module Names {
  import opened Base
  import opened Decimal

  /** unicode.ToLower, exact for every character whose lower case is ASCII. */
  function Lower(c: char): char {
    if 'A' <= c <= 'Z' then (c as int + 32) as char
    else if c == '\U{130}' then 'i'
    else if c == '\U{212A}' then 'k'
    else c
  }

  function ToLower(s: string): string {
    seq(|s|, i requires 0 <= i < |s| => Lower(s[i]))
  }

  /** The index of the last dot, or -1. */
  function LastDot(s: string): (r: int)
    ensures -1 <= r < |s|
    ensures r >= 0 ==> s[r] == '.'
    ensures forall i :: r < i < |s| ==> s[i] != '.'
  {
    if s == [] then -1
    else if s[|s|-1] == '.' then |s| - 1
    else LastDot(s[..|s|-1])
  }

  function TrimExt(name: string): string {
    if LastDot(name) >= 0 then name[..LastDot(name)] else name
  }

  function Ext(name: string): string {
    if LastDot(name) >= 0 then ToLower(name[LastDot(name)..]) else ""
  }

  const VIDEO_EXTENSIONS: set<string> :=
    {".mkv", ".mp4", ".avi", ".mov", ".wmv", ".flv", ".webm", ".m4v", ".ts", ".m2ts", ".vob", ".iso"}

  const IMAGE_EXTENSIONS: set<string> := {".jpg", ".jpeg", ".png", ".gif", ".bmp", ".webp"}

  const SUBTITLE_EXTENSIONS: set<string> := {".srt", ".sub", ".ass", ".ssa", ".vtt"}

  datatype NodeKind = DirNode | Video | NFO | Image | Subtitle | Other

  /** classifyNodeFile */
  function FileKind(name: string): NodeKind {
    var ext := Ext(name);
    if ext == ".nfo" then NFO
    else if ext in IMAGE_EXTENSIONS then Image
    else if ext in SUBTITLE_EXTENSIONS then Subtitle
    else if ext in VIDEO_EXTENSIONS then Video
    else Other
  }

  /** The snapshot's classification and the extension test of findVideoFileInDir agree on what a video is. */
  lemma VideoKindsAgree(name: string)
    ensures FileKind(name) == Video <==> Ext(name) in VIDEO_EXTENSIONS
  {
    assert ".nfo" !in VIDEO_EXTENSIONS;
    assert IMAGE_EXTENSIONS !! VIDEO_EXTENSIONS;
    assert SUBTITLE_EXTENSIONS !! VIDEO_EXTENSIONS;
  }

  /** strings.EqualFold(name, "movie.nfo"): none of these letters folds outside ASCII. */
  predicate IsMovieNfoName(name: string) {
    |name| == 9 && forall i :: 0 <= i < 9 ==> name[i] == "movie.nfo"[i] || name[i] == "MOVIE.NFO"[i]
  }

  // ---- ^season\s*\d+$, case-insensitive -------------------------------------------------

  /** The case-insensitive pattern letter s: it also folds with the long s. */
  predicate IsS(c: char) {
    c == 's' || c == 'S' || c == '\U{17F}'
  }

  /** \s of the regular expressions */
  predicate IsPatternSpace(c: char) {
    c == '\t' || c == '\n' || c == '\U{C}' || c == '\r' || c == ' '
  }

  /** unicode.IsSpace, as strings.TrimSpace uses it */
  predicate IsSpace(c: char) {
    IsPatternSpace(c) || c == '\U{B}' || c == '\U{85}' || c == '\U{A0}' || c == '\U{1680}'
    || '\U{2000}' <= c <= '\U{200A}' || c == '\U{2028}' || c == '\U{2029}' || c == '\U{202F}'
    || c == '\U{205F}' || c == '\U{3000}'
  }

  function SkipPatternSpaces(s: string): string {
    if s != [] && IsPatternSpace(s[0]) then SkipPatternSpaces(s[1..]) else s
  }

  predicate IsSeasonDirName(name: string) {
    && |name| >= 6
    && IsS(name[0]) && name[1] in "eE" && name[2] in "aA" && IsS(name[3]) && name[4] in "oO" && name[5] in "nN"
    && var rest := SkipPatternSpaces(name[6..]);
    rest != [] && AllDigits(rest)
  }

  function TrimPrefix(s: string, prefix: string): string {
    if prefix <= s then s[|prefix|..] else s
  }

  function TrimLeft(s: string): string {
    if s != [] && IsSpace(s[0]) then TrimLeft(s[1..]) else s
  }

  function TrimRight(s: string): string {
    if s != [] && IsSpace(s[|s|-1]) then TrimRight(s[..|s|-1]) else s
  }

  function TrimSpace(s: string): string {
    TrimRight(TrimLeft(s))
  }

  /** strconv.Atoi where the pattern admits no sign before the digits. */
  function Atoi(s: string): Option<nat> {
    var n := ParseInt(s);
    if n.Some? && n.value >= 0 then Some(n.value) else None
  }

  /** extractSeasonNumber: only the spellings "season" and "Season" are stripped. */
  function SeasonNumberOf(name: string): Option<nat> {
    if !IsSeasonDirName(name) then None
    else Atoi(TrimSpace(TrimSpace(TrimPrefix(TrimPrefix(name, "season"), "Season"))))
  }

  // ---- S01E02 and 1x02 ---------------------------------------------------------------

  /** The digits that start at i, at most max: a greedy \d{1,max}. */
  function Digits(s: string, i: nat, max: nat): (d: string)
    requires i <= |s|
    ensures |d| <= max && i + |d| <= |s| && AllDigits(d)
    decreases max
  {
    if max == 0 || i == |s| || !IsDigit(s[i]) then "" else [s[i]] + Digits(s, i + 1, max - 1)
  }

  /** The two numbers "\d{1,2}", the letter in either case, "\d{1,3}" starting at i. A shorter first run
      would leave a digit where the letter must stand, so the greedy run decides. */
  function NumberPair(s: string, i: nat, lower: char, upper: char): Option<(nat, nat)>
    requires i <= |s|
  {
    var a := Digits(s, i, 2);
    var m := i + |a|;
    if a == "" || m == |s| || (s[m] != lower && s[m] != upper) then None
    else
      var b := Digits(s, m + 1, 3);
      if b == "" then None else Some((Val(a), Val(b)))
  }

  function EpisodeMatchAt(s: string, i: nat): Option<(nat, nat)>
    requires i <= |s|
  {
    if i < |s| && IsS(s[i]) then NumberPair(s, i + 1, 'e', 'E') else None
  }

  function AltMatchAt(s: string, i: nat): Option<(nat, nat)>
    requires i <= |s|
  {
    NumberPair(s, i, 'x', 'X')
  }

  /** Leftmost match at or after i. */
  function FirstEpisodeMatch(s: string, i: nat): Option<(nat, nat)>
    requires i <= |s|
    decreases |s| - i
  {
    if EpisodeMatchAt(s, i).Some? then EpisodeMatchAt(s, i)
    else if i == |s| then None
    else FirstEpisodeMatch(s, i + 1)
  }

  function FirstAltMatch(s: string, i: nat): Option<(nat, nat)>
    requires i <= |s|
    decreases |s| - i
  {
    if AltMatchAt(s, i).Some? then AltMatchAt(s, i)
    else if i == |s| then None
    else FirstAltMatch(s, i + 1)
  }

  /** extractEpisodeInfo */
  function ExtractEpisodeInfo(filename: string): (nat, nat) {
    var m := FirstEpisodeMatch(filename, 0);
    if m.Some? then m.value
    else
      var a := FirstAltMatch(filename, 0);
      if a.Some? then a.value else (0, 0)
  }

  // ---- The parsers invert the printers -------------------------------------------------

  lemma NumberPairRange(s: string, i: nat, lower: char, upper: char)
    requires i <= |s| && NumberPair(s, i, lower, upper).Some?
    ensures NumberPair(s, i, lower, upper).value.0 <= 99 && NumberPair(s, i, lower, upper).value.1 <= 999
  {
    var a := Digits(s, i, 2);
    ValBound(a);
    ValBound(Digits(s, i + |a| + 1, 3));
  }

  lemma {:induction false} FirstEpisodeRange(s: string, i: nat)
    requires i <= |s|
    ensures FirstEpisodeMatch(s, i).Some? ==>
              FirstEpisodeMatch(s, i).value.0 <= 99 && FirstEpisodeMatch(s, i).value.1 <= 999
    decreases |s| - i
  {
    if EpisodeMatchAt(s, i).Some? {
      NumberPairRange(s, i + 1, 'e', 'E');
    } else if i < |s| {
      FirstEpisodeRange(s, i + 1);
    }
  }

  lemma {:induction false} FirstAltRange(s: string, i: nat)
    requires i <= |s|
    ensures FirstAltMatch(s, i).Some? ==>
              FirstAltMatch(s, i).value.0 <= 99 && FirstAltMatch(s, i).value.1 <= 999
    decreases |s| - i
  {
    if AltMatchAt(s, i).Some? {
      NumberPairRange(s, i, 'x', 'X');
    } else if i < |s| {
      FirstAltRange(s, i + 1);
    }
  }

  /** Whatever the file name, the numbers stay within what the patterns can capture. */
  lemma EpisodeInfoRange(s: string)
    ensures ExtractEpisodeInfo(s).0 <= 99 && ExtractEpisodeInfo(s).1 <= 999
  {
    FirstEpisodeRange(s, 0);
    FirstAltRange(s, 0);
  }

  /** d stands in s at i, and the character behind it is no digit. */
  predicate StandsAt(s: string, i: nat, d: string) {
    && i + |d| < |s|
    && (forall k :: 0 <= k < |d| ==> s[i+k] == d[k])
    && !IsDigit(s[i+|d|])
  }

  /** A greedy run reads exactly the digit string that stands there. */
  lemma {:induction false} DigitsRead(s: string, i: nat, max: nat, d: string)
    requires StandsAt(s, i, d) && AllDigits(d) && |d| <= max
    ensures Digits(s, i, max) == d
    decreases |d|
  {
    if d != [] {
      assert s[i+0] == d[0];
      forall k | 0 <= k < |d[1..]|
        ensures s[i+1+k] == d[1..][k]
      {
        assert s[i+(k+1)] == d[k+1];
      }
      DigitsRead(s, i + 1, max - 1, d[1..]);
    }
  }

  /** Nothing in the prefix looks like the start of an episode number. */
  predicate HarmlessPrefix(p: string) {
    forall i :: 0 <= i < |p| - 1 && IsS(p[i]) ==> !IsDigit(p[i+1])
  }

  lemma {:induction false} SkipsPrefix(p: string, rest: string, i: nat)
    requires HarmlessPrefix(p) && i <= |p|
    requires rest != [] && !IsDigit(rest[0])
    ensures FirstEpisodeMatch(p + rest, i) == FirstEpisodeMatch(p + rest, |p|)
    decreases |p| - i
  {
    if i < |p| {
      var s := p + rest;
      assert IsS(s[i]) ==> Digits(s, i + 1, 2) == "";
      SkipsPrefix(p, rest, i + 1);
    }
  }

  lemma NumberPairReads(s: string, i: nat, a: string, lower: char, upper: char, b: string)
    requires AllDigits(a) && 1 <= |a| <= 2 && AllDigits(b) && 1 <= |b| <= 3
    requires StandsAt(s, i, a) && (s[i+|a|] == lower || s[i+|a|] == upper)
    requires StandsAt(s, i + |a| + 1, b)
    ensures NumberPair(s, i, lower, upper) == Some((Val(a), Val(b)))
  {
    DigitsRead(s, i, 2, a);
    DigitsRead(s, i + |a| + 1, 3, b);
  }

  /** Where the two numbers stand in a name spelled out. */
  lemma PairStands(p: string, a: string, sep: char, b: string, tail: string)
    requires AllDigits(a) && AllDigits(b) && !IsDigit(sep) && tail != [] && !IsDigit(tail[0])
    ensures var s := p + (a + [sep] + b + tail);
            StandsAt(s, |p|, a) && s[|p|+|a|] == sep && StandsAt(s, |p| + |a| + 1, b)
  {
    var s := p + (a + [sep] + b + tail);
    assert s[|p|+|a|] == sep;
    assert s[|p|+|a|+1+|b|] == tail[0];
  }

  lemma Regroup(p: string, a: string, sep: string, b: string, ext: string)
    ensures p + a + sep + b + "." + ext == p + (a + sep + b + (['.'] + ext))
  {
    assert p + a + sep + b + "." + ext == p + a + sep + b + (['.'] + ext);
  }

  /** Any spelling of the two numbers, zero-padded or not, is read back, whatever stands before and after. */
  lemma EpisodeDigitsRoundTrip(p: string, s: char, season: string, e: char, episode: string, ext: string)
    requires HarmlessPrefix(p) && IsS(s) && (e == 'e' || e == 'E')
    requires 1 <= |season| <= 2 && AllDigits(season)
    requires 1 <= |episode| <= 3 && AllDigits(episode)
    ensures ExtractEpisodeInfo(p + [s] + season + [e] + episode + "." + ext) == (Val(season), Val(episode))
  {
    var tail := ['.'] + ext;
    var pair := season + [e] + episode + tail;
    var name := p + ([s] + pair);
    Regroup(p + [s], season, [e], episode, ext);
    assert (p + [s]) + pair == name;
    PairStands(p + [s], season, e, episode, tail);
    NumberPairReads(name, |p| + 1, season, 'e', 'E', episode);
    assert EpisodeMatchAt(name, |p|) == Some((Val(season), Val(episode)));
    SkipsPrefix(p, [s] + pair, 0);
  }

  lemma {:induction false} SkipsToAlt(p: string, rest: string, i: nat)
    requires i <= |p| && forall k :: 0 <= k < |p| ==> !IsDigit(p[k])
    ensures FirstAltMatch(p + rest, i) == FirstAltMatch(p + rest, |p|)
    decreases |p| - i
  {
    if i < |p| {
      assert !IsDigit((p + rest)[i]);
      assert Digits(p + rest, i, 2) == "";
      SkipsToAlt(p, rest, i + 1);
    }
  }

  /** The 1x02 form is read back behind a prefix without digits, unless the name also holds an S01E02 form,
      which takes precedence. */
  lemma AltDigitsRoundTrip(p: string, season: string, x: char, episode: string, ext: string)
    requires (forall k :: 0 <= k < |p| ==> !IsDigit(p[k])) && (x == 'x' || x == 'X')
    requires 1 <= |season| <= 2 && AllDigits(season)
    requires 1 <= |episode| <= 3 && AllDigits(episode)
    requires FirstEpisodeMatch(p + season + [x] + episode + "." + ext, 0).None?
    ensures ExtractEpisodeInfo(p + season + [x] + episode + "." + ext) == (Val(season), Val(episode))
  {
    var tail := ['.'] + ext;
    var pair := season + [x] + episode + tail;
    Regroup(p, season, [x], episode, ext);
    PairStands(p, season, x, episode, tail);
    NumberPairReads(p + pair, |p|, season, 'x', 'X', episode);
    SkipsToAlt(p, pair, 0);
  }

  /** Print(n) padded on the left with zeros to the given width. */
  function Padded(n: nat, width: nat): string
    decreases width - |Print(n)|
  {
    if |Print(n)| >= width then Print(n) else Zeros(width - |Print(n)|) + Print(n)
  }

  function Zeros(k: nat): (s: string)
    ensures |s| == k && AllDigits(s)
  {
    if k == 0 then "" else "0" + Zeros(k - 1)
  }

  lemma {:induction false} ValZeros(k: nat, s: string)
    requires AllDigits(s)
    ensures AllDigits(Zeros(k) + s) && Val(Zeros(k) + s) == Val(s)
  {
    if k == 0 {
      assert Zeros(0) + s == s;
    } else {
      var t := Zeros(k - 1) + s;
      ValZeros(k - 1, s);
      ValZeroPadded(t);
      assert Zeros(k) + s == "0" + t;
    }
  }

  lemma PaddedVal(n: nat, width: nat)
    ensures Padded(n, width) != [] && AllDigits(Padded(n, width)) && Val(Padded(n, width)) == n
    ensures |Print(n)| <= width ==> |Padded(n, width)| == width
  {
    ValPrint(n);
    if |Print(n)| < width {
      ValZeros(width - |Print(n)|, Print(n));
    }
  }

  lemma PrintLength(n: nat)
    ensures n <= 99 ==> |Print(n)| <= 2
    ensures n <= 999 ==> |Print(n)| <= 3
  {
    if 10 <= n <= 999 {
      assert |Print(n / 10)| <= 2;
    }
  }

  /** extractEpisodeInfo inverts the S<season>E<episode> printer, plain or zero-padded. */
  lemma EpisodeInfoRoundTrip(p: string, season: nat, episode: nat, ws: nat, we: nat, ext: string)
    requires HarmlessPrefix(p) && season <= 99 && episode <= 999 && ws <= 2 && we <= 3
    ensures ExtractEpisodeInfo(p + "S" + Padded(season, ws) + "E" + Padded(episode, we) + "." + ext) ==
                (season, episode)
  {
    PaddedVal(season, ws);
    PaddedVal(episode, we);
    PrintLength(season);
    PrintLength(episode);
    EpisodeDigitsRoundTrip(p, 'S', Padded(season, ws), 'E', Padded(episode, we), ext);
  }

  /** extractSeasonNumber inverts "Season " and a zero-padded number, for every number an int can hold. */
  lemma SeasonNumberRoundTrip(n: nat, width: nat)
    requires n <= MAX_INT64
    ensures IsSeasonDirName("Season " + Padded(n, width))
    ensures SeasonNumberOf("Season " + Padded(n, width)) == Some(n)
  {
    var d := Padded(n, width);
    PaddedVal(n, width);
    var name := "Season " + d;
    assert name[6..] == " " + d;
    assert (" " + d)[1..] == d;
    assert SkipPatternSpaces(" " + d) == SkipPatternSpaces(d) == d;
    assert name[..6] == "Season";
    SeasonNumberIffSpelling(name);
  }

  /** The pattern ignores case but the number is only read after "season" or "Season": in every other
      spelling the directory is a season directory without a number. */
  lemma SeasonNumberIffSpelling(name: string)
    requires IsSeasonDirName(name)
    ensures var n := Val(SkipPatternSpaces(name[6..]));
            SeasonNumberOf(name) ==
            if (name[..6] == "season" || name[..6] == "Season") && n <= MAX_INT64 then Some(n) else None
  {
    var rest := name[6..];
    var d := SkipPatternSpaces(rest);
    if "season" <= name {
      assert name[..6] == "season";
      assert TrimPrefix(name, "season") == rest;
      SeasonRest(rest);
      assert !("Season" <= rest);
    } else if "Season" <= name {
      assert name[..6] == "Season";
      SeasonRest(rest);
    } else {
      assert name[..6] != "season" && name[..6] != "Season";
      assert !IsDigit(name[0]) && !IsSpace(name[0]);
      KeepsFirst(name);
    }
  }

  lemma {:induction false} SeasonRest(rest: string)
    requires SkipPatternSpaces(rest) != [] && AllDigits(SkipPatternSpaces(rest))
    ensures TrimSpace(TrimSpace(rest)) == SkipPatternSpaces(rest)
    ensures IsDigit(rest[0]) || IsPatternSpace(rest[0])
    decreases |rest|
  {
    if IsPatternSpace(rest[0]) {
      SeasonRest(rest[1..]);
      assert TrimLeft(rest) == TrimLeft(rest[1..]);
    }
  }

  lemma {:induction false} KeepsFirst(s: string)
    requires s != [] && !IsSpace(s[0])
    ensures TrimRight(s) != [] && TrimRight(s)[0] == s[0]
    ensures TrimSpace(s) != [] && TrimSpace(s)[0] == s[0]
    ensures TrimSpace(TrimSpace(s)) != [] && TrimSpace(TrimSpace(s))[0] == s[0]
  {
    KeepsFirstRight(s);
    KeepsFirstRight(TrimRight(s));
  }

  lemma {:induction false} KeepsFirstRight(s: string)
    requires s != [] && !IsSpace(s[0])
    ensures TrimRight(s) != [] && TrimRight(s)[0] == s[0]
  {
    if IsSpace(s[|s|-1]) {
      KeepsFirstRight(s[..|s|-1]);
    }
  }
}
