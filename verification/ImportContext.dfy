// Vocabulary of the import stages (import_context.go).
module ImportContext {
  import opened Base
  import opened Paths

  /** ImportEntityKind; `NoKind` is the empty kind of the initial walk context. */
  datatype EntityKind = NoKind | Unknown | Container | Movie | Show | Season | Episode | Extra

  datatype PathClaim = PathClaim(candidateId: Id, kind: EntityKind, path: Path)

  /** Confidence, evidence and an episode's NFO path are not modelled: they do not reach the catalogue. */
  datatype Candidate = Candidate(
    id: Id, libraryId: string, kind: EntityKind,
    rootPath: Path, primaryPath: Path, nfoPath: Path,
    showId: Id, seasonNumber: Option<nat>, episodeNumber: Option<nat>)

  datatype Reason =
    | ShowInMovieLibrary
    | MovieInShowLibrary
    | MovieWithoutVideo
    | NoVideoPath
    | WriteFailed

  datatype RejectedItem = RejectedItem(path: Path, kind: EntityKind, reason: Reason)

  /** The path a candidate claims: a show its directory, a movie or an episode its video. */
  function ClaimKey(c: Candidate): Path {
    if c.kind == Show then c.rootPath else c.primaryPath
  }

  /** The claim a candidate makes. */
  function ClaimOf(c: Candidate): PathClaim {
    PathClaim(c.id, c.kind, ClaimKey(c))
  }

  /** A candidate with the drawn identifiers forgotten. */
  function Erase(c: Candidate): Candidate {
    c.(id := NoId, showId := NoId)
  }

  function EraseAll(cs: seq<Candidate>): seq<Candidate> {
    seq(|cs|, i requires 0 <= i < |cs| => Erase(cs[i]))
  }

  /** The claims map after the candidates claimed their keys in order. */
  function Claimed(claims: map<Path, PathClaim>, cs: seq<Candidate>): map<Path, PathClaim> {
    if cs == [] then claims
    else
      var c := cs[|cs|-1];
      Claimed(claims, cs[..|cs|-1])[ClaimKey(c) := ClaimOf(c)]
  }

  lemma {:induction false} ClaimedConcat(claims: map<Path, PathClaim>, a: seq<Candidate>, b: seq<Candidate>)
    ensures Claimed(claims, a + b) == Claimed(Claimed(claims, a), b)
  {
    if b == [] {
      assert a + b == a;
    } else {
      assert (a + b)[..|a + b|-1] == a + b[..|b|-1];
      ClaimedConcat(claims, a, b[..|b|-1]);
    }
  }

  lemma {:induction false} ClaimedKeys(claims: map<Path, PathClaim>, cs: seq<Candidate>)
    ensures Claimed(claims, cs).Keys == claims.Keys + set c | c in cs :: ClaimKey(c)
  {
    if cs != [] {
      ClaimedKeys(claims, cs[..|cs|-1]);
      assert cs == cs[..|cs|-1] + [cs[|cs|-1]];
    }
  }

  predicate DistinctKeys(cs: seq<Candidate>) {
    forall i, j :: 0 <= i < j < |cs| ==> ClaimKey(cs[i]) != ClaimKey(cs[j])
  }

  ghost predicate Claims(claims: map<Path, PathClaim>, c: Candidate) {
    var key := if c.kind == Show then c.rootPath else c.primaryPath;
    key in claims && claims[key] == PathClaim(c.id, c.kind, key)
  }

  ghost predicate Claimant(cs: seq<Candidate>, k: Path) {
    exists i :: 0 <= i < |cs| && ClaimKey(cs[i]) == k
  }

  /** Every candidate holds the claim to its key, and every claim is some candidate's. */
  ghost predicate Mirrors(claims: map<Path, PathClaim>, cs: seq<Candidate>) {
    && |claims| == |cs|
    && (forall i :: 0 <= i < |cs| ==> Claims(claims, cs[i]))
    && (forall k :: k in claims ==> Claimant(cs, k))
  }

  lemma MirrorsOneMore(m: map<Path, PathClaim>, cs: seq<Candidate>, c: Candidate)
    requires Mirrors(m, cs) && !Claimant(cs, ClaimKey(c))
    ensures Mirrors(m[ClaimKey(c) := ClaimOf(c)], cs + [c])
  {
    var m' := m[ClaimKey(c) := ClaimOf(c)];
    var cs' := cs + [c];
    assert ClaimKey(c) !in m;
    assert m'.Keys == m.Keys + {ClaimKey(c)};
    assert |m'.Keys| == |m.Keys| + 1;
    forall i | 0 <= i < |cs'|
      ensures Claims(m', cs'[i])
    {
      if i < |cs| {
        assert cs'[i] == cs[i] && Claims(m, cs[i]) && ClaimKey(cs[i]) != ClaimKey(c);
      }
    }
    forall k | k in m'
      ensures Claimant(cs', k)
    {
      if k in m {
        var i :| 0 <= i < |cs| && ClaimKey(cs[i]) == k;
        assert cs'[i] == cs[i];
      } else {
        assert cs'[|cs|] == c;
      }
    }
  }

  /** Claims and candidates correspond one to one, with matching identifiers. */
  lemma {:induction false} ClaimsBijective(cs: seq<Candidate>)
    requires DistinctKeys(cs)
    ensures Mirrors(Claimed(map[], cs), cs)
  {
    if cs != [] {
      var before := cs[..|cs|-1];
      ClaimsBijective(before);
      MirrorsOneMore(Claimed(map[], before), before, cs[|cs|-1]);
      assert cs == before + [cs[|cs|-1]];
    }
  }
}
