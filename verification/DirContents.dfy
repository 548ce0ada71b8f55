// What findMovieNFO and findVideoFileInDir choose among the entries of a directory.
module DirContents {
  import opened Base
  import opened Paths
  import opened Names
  import opened FileSystem
  import opened Classify
  import opened NamePatterns

  /** A file named movie.nfo, in either case, that decodes as <movie>. */
  predicate IsStandardNFO(fs: FS, dir: Path, e: DirEntry) {
    && !e.isDir && fs.movieTitle(Join(dir, e.name)) != None
    && |e.name| == 9 && forall i :: 0 <= i < 9 ==> e.name[i] == "movie.nfo"[i] || e.name[i] == "MOVIE.NFO"[i]
  }

  /** A file that ends in .nfo in any case, is not named movie.nfo, and decodes as <movie> with a title. */
  predicate IsOtherNFO(fs: FS, dir: Path, e: DirEntry) {
    && !e.isDir && EndsIn(e.name, ".nfo") && fs.movieTitle(Join(dir, e.name)) !in {None, Some("")}
    && !(|e.name| == 9 && forall i :: 0 <= i < 9 ==> e.name[i] == "movie.nfo"[i] || e.name[i] == "MOVIE.NFO"[i])
  }

  predicate IsVideoFile(e: DirEntry) {
    !e.isDir && EndsInOneOf(e.name, VIDEO_ENDINGS)
  }

  /** A video file whose name is nothing but the extension. */
  predicate IsBareExtension(e: DirEntry) {
    !e.isDir && exists i ::
      0 <= i < |VIDEO_ENDINGS| && |e.name| == |VIDEO_ENDINGS[i]| && EndsIn(e.name, VIDEO_ENDINGS[i])
  }

  lemma EntriesAre(fs: FS, dir: Path, e: DirEntry)
    ensures DecodesAsMovie(fs, dir, e) <==> IsStandardNFO(fs, dir, e)
    ensures DecodesAsTitledMovie(fs, dir, e) <==> IsOtherNFO(fs, dir, e)
  {
    ExtIff(e.name, ".nfo");
  }

  lemma VideosAre(e: DirEntry)
    ensures IsVideoEntry(e) <==> IsVideoFile(e)
    ensures IsVideoEntry(e) && TrimExt(e.name) == "" <==> IsBareExtension(e)
  {
    VideoNames(e.name);
    forall i | 0 <= i < |VIDEO_ENDINGS|
      ensures Ext(e.name) == VIDEO_ENDINGS[i] <==> EndsIn(e.name, VIDEO_ENDINGS[i])
      ensures Ext(e.name) == VIDEO_ENDINGS[i] && TrimExt(e.name) == "" <==>
              |e.name| == |VIDEO_ENDINGS[i]| && EndsIn(e.name, VIDEO_ENDINGS[i])
    {
      ExtIff(e.name, VIDEO_ENDINGS[i]);
      BareIff(e.name, VIDEO_ENDINGS[i]);
    }
  }

  /** Entry i satisfies p and no earlier entry does. */
  ghost predicate FirstAt(es: seq<DirEntry>, i: int, p: DirEntry -> bool) {
    0 <= i < |es| && p(es[i]) && forall j :: 0 <= j < i ==> !p(es[j])
  }

  ghost predicate NoneOf(es: seq<DirEntry>, p: DirEntry -> bool) {
    forall j :: 0 <= j < |es| ==> !p(es[j])
  }

  lemma {:induction false} StandardChoice(fs: FS, dir: Path, es: seq<DirEntry>)
    requires dir.Path?
    ensures var p := (e: DirEntry) => IsStandardNFO(fs, dir, e);
            var r := FirstStandardNFO(fs, dir, es);
            if r.NoPath? then NoneOf(es, p) else exists i :: FirstAt(es, i, p) && r == Join(dir, es[i].name)
  {
    var p := (e: DirEntry) => IsStandardNFO(fs, dir, e);
    if es != [] {
      EntriesAre(fs, dir, es[0]);
      if DecodesAsMovie(fs, dir, es[0]) {
        assert FirstAt(es, 0, p);
      } else {
        StandardChoice(fs, dir, es[1..]);
        ShiftChoice(es, p, FirstStandardNFO(fs, dir, es), dir);
      }
    }
  }

  lemma {:induction false} OtherChoice(fs: FS, dir: Path, es: seq<DirEntry>)
    requires dir.Path?
    ensures var p := (e: DirEntry) => IsOtherNFO(fs, dir, e);
            var r := FirstOtherNFO(fs, dir, es);
            if r.NoPath? then NoneOf(es, p) else exists i :: FirstAt(es, i, p) && r == Join(dir, es[i].name)
  {
    var p := (e: DirEntry) => IsOtherNFO(fs, dir, e);
    if es != [] {
      EntriesAre(fs, dir, es[0]);
      if DecodesAsTitledMovie(fs, dir, es[0]) {
        assert FirstAt(es, 0, p);
      } else {
        OtherChoice(fs, dir, es[1..]);
        ShiftChoice(es, p, FirstOtherNFO(fs, dir, es), dir);
      }
    }
  }

  /** A choice among all but the first entry is the choice among all, when the first does not qualify. */
  lemma ShiftChoice(es: seq<DirEntry>, p: DirEntry -> bool, r: Path, dir: Path)
    requires es != [] && !p(es[0])
    requires if r.NoPath? then NoneOf(es[1..], p)
             else exists i :: FirstAt(es[1..], i, p) && r == Join(dir, es[1..][i].name)
    ensures if r.NoPath? then NoneOf(es, p) else exists i :: FirstAt(es, i, p) && r == Join(dir, es[i].name)
  {
    if r.NoPath? {
      forall j | 0 <= j < |es|
        ensures !p(es[j])
      {
        assert j > 0 ==> es[1..][j-1] == es[j];
      }
    } else {
      var i :| FirstAt(es[1..], i, p) && r == Join(dir, es[1..][i].name);
      forall j | 0 <= j < i + 1
        ensures !p(es[j])
      {
        assert j > 0 ==> es[1..][j-1] == es[j];
      }
      assert FirstAt(es, i + 1, p);
    }
  }

  /** findMovieNFO: the first decodable movie.nfo in any case, else the first other NFO with a title, else nothing. */
  lemma MovieNFOChoice(fs: FS, dir: Path)
    requires dir.Path? && fs.readDir(dir).Some?
    ensures var es := fs.readDir(dir).value;
            var standard := (e: DirEntry) => IsStandardNFO(fs, dir, e);
            var other := (e: DirEntry) => IsOtherNFO(fs, dir, e);
            || (exists i :: FirstAt(es, i, standard) && MovieNFO(fs, dir) == Join(dir, es[i].name))
            || (NoneOf(es, standard) && exists i :: FirstAt(es, i, other) && MovieNFO(fs, dir) == Join(dir, es[i].name))
            || (NoneOf(es, standard) && NoneOf(es, other) && MovieNFO(fs, dir) == NoPath)
  {
    StandardChoice(fs, dir, fs.readDir(dir).value);
    OtherChoice(fs, dir, fs.readDir(dir).value);
  }

  lemma {:induction false} VideoChoiceAmong(dir: Path, es: seq<DirEntry>, first: Path)
    requires dir.Path?
    ensures var r := VideoAmong(dir, es, first);
            || (exists i :: FirstAt(es, i, IsBareExtension) && r == Join(dir, es[i].name))
            || (NoneOf(es, IsBareExtension) && first.Path? && r == first)
            || (NoneOf(es, IsBareExtension) && first.NoPath? &&
                exists i :: FirstAt(es, i, IsVideoFile) && r == Join(dir, es[i].name))
            || (NoneOf(es, IsVideoFile) && r == first)
    decreases |es|
  {
    if es != [] {
      VideosAre(es[0]);
    }
    if es != [] && !IsBareExtension(es[0]) {
      var next := if IsVideoFile(es[0]) && first.NoPath? then Join(dir, es[0].name) else first;
      var r := VideoAmong(dir, es[1..], next);
      VideoChoiceAmong(dir, es[1..], next);
      if exists i :: FirstAt(es[1..], i, IsBareExtension) && r == Join(dir, es[1..][i].name) {
        assert r.Path?;
        ShiftChoice(es, IsBareExtension, r, dir);
      } else {
        if NoneOf(es[1..], IsBareExtension) {
          ShiftChoice(es, IsBareExtension, NoPath, dir);
        }
        if IsVideoFile(es[0]) {
          assert FirstAt(es, 0, IsVideoFile);
          assert NoneOf(es[1..], IsVideoFile) ==> NoneOf(es[1..], IsBareExtension);
        } else if NoneOf(es[1..], IsVideoFile) {
          ShiftChoice(es, IsVideoFile, NoPath, dir);
        } else if exists i :: FirstAt(es[1..], i, IsVideoFile) && r == Join(dir, es[1..][i].name) {
          assert r.Path?;
          ShiftChoice(es, IsVideoFile, r, dir);
        }
      }
    } else if es != [] {
      assert FirstAt(es, 0, IsBareExtension);
    }
  }

  /** findVideoFileInDir with an empty title: a file that is nothing but a video extension is taken before any other
      video; otherwise the first video is, and nothing only when there is none. */
  lemma VideoChoice(fs: FS, dir: Path)
    requires dir.Path? && fs.readDir(dir).Some?
    ensures var es := fs.readDir(dir).value;
            || (exists i :: FirstAt(es, i, IsBareExtension) && VideoIn(fs, dir) == Join(dir, es[i].name))
            || (NoneOf(es, IsBareExtension) &&
                exists i :: FirstAt(es, i, IsVideoFile) && VideoIn(fs, dir) == Join(dir, es[i].name))
            || (NoneOf(es, IsVideoFile) && VideoIn(fs, dir) == NoPath)
  {
    VideoChoiceAmong(dir, fs.readDir(dir).value, NoPath);
  }
}
