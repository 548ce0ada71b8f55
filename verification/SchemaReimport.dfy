// Imports into the shipped database: what becomes of each candidate, the first time and again.
module SchemaReimport {
  import opened Base
  import opened Paths
  import opened ImportContext
  import opened Scan
  import opened Catalogue
  import opened Reconcile
  import opened CatalogueKeys
  import opened Reimport
  import opened Schema

  // ---- What becomes of each candidate ---------------------------------------------------------------------------

  /** The results of reconciling the candidates, in order. */
  function Verdicts(imp: Importing, store: Store, db: Db, cs: seq<Candidate>, total: nat): (vs: seq<Resolution>)
    requires forall j :: 0 <= j < |cs| ==> Reconcilable(cs[j])
    ensures |vs| == |cs|
  {
    if cs == [] then []
    else
      var before := cs[..|cs|-1];
      Verdicts(imp, store, db, before, total) + [Step(imp, store, Run(imp, store, db, before, total).0, cs[|cs|-1]).1]
  }

  function AcceptedItems(vs: seq<Resolution>): seq<ResolvedItem> {
    if vs == [] then []
    else AcceptedItems(vs[..|vs|-1]) + if vs[|vs|-1].Resolved? then [vs[|vs|-1].item] else []
  }

  function RejectedItems(cs: seq<Candidate>, vs: seq<Resolution>): seq<RejectedItem>
    requires |cs| == |vs|
  {
    if vs == [] then []
    else
      var c, v := cs[|cs|-1], vs[|vs|-1];
      RejectedItems(cs[..|cs|-1], vs[..|vs|-1]) +
      if v.Failed? then [RejectedItem(if c.kind == Show then c.rootPath else c.primaryPath, c.kind, v.reason)] else []
  }

  /** The report is made of these results. */
  lemma {:induction false} ReportOf(imp: Importing, store: Store, db: Db, cs: seq<Candidate>, total: nat)
    requires forall j :: 0 <= j < |cs| ==> Reconcilable(cs[j])
    ensures var r, vs := Run(imp, store, db, cs, total).1, Verdicts(imp, store, db, cs, total);
            r.accepted == AcceptedItems(vs) && r.rejected == RejectedItems(cs, vs) && r.unknown == []
  {
    if cs != [] {
      VerdictsPrefix(imp, store, db, cs, total);
      ReportOf(imp, store, db, cs[..|cs|-1], total);
    }
  }

  /** A run of n candidates is the run of the first n - 1 and one more step. */
  lemma VerdictsPrefix(imp: Importing, store: Store, db: Db, cs: seq<Candidate>, total: nat)
    requires cs != [] && forall j :: 0 <= j < |cs| ==> Reconcilable(cs[j])
    ensures var n, vs := |cs| - 1, Verdicts(imp, store, db, cs, total);
            && (forall j :: 0 <= j < n ==> Reconcilable(cs[..n][j]))
            && vs[..n] == Verdicts(imp, store, db, cs[..n], total)
            && vs[n] == Step(imp, store, Run(imp, store, db, cs[..n], total).0, cs[n]).1
            && Run(imp, store, db, cs, total).0 == Step(imp, store, Run(imp, store, db, cs[..n], total).0, cs[n]).0
  {
    var before := cs[..|cs|-1];
    assert forall j :: 0 <= j < |before| ==> before[j] == cs[j];
  }

  // ---- Identifiers ------------------------------------------------------------------------------------------------

  /** Every row carries an identifier drawn before n. */
  ghost predicate IdsBelow(rows: seq<MediaItem>, n: nat) {
    forall i :: 0 <= i < |rows| ==> rows[i].id.Uuid? && rows[i].id.n < n
  }

  /** A row with an identifier drawn from base on, as every row from start on is, is that of the candidate that carries
      this identifier. */
  ghost predicate NewRowAt(imp: Importing, rows: seq<MediaItem>, cs: seq<Candidate>, base: nat, start: nat, k: nat)
    requires k < |rows|
  {
    && rows[k].id.Uuid? && rows[k].id.n < base + |cs|
    && (k >= start ==> rows[k].id.n >= base)
    && (rows[k].id.n >= base ==> RowKey(rows[k]) == KeyOf(imp, cs[rows[k].id.n - base]))
  }

  ghost predicate NewRows(imp: Importing, rows: seq<MediaItem>, cs: seq<Candidate>, base: nat, start: nat) {
    start <= |rows| && forall k :: 0 <= k < |rows| ==> NewRowAt(imp, rows, cs, base, start, k)
  }

  lemma NewRowsBelow(imp: Importing, rows: seq<MediaItem>, cs: seq<Candidate>, base: nat, start: nat)
    requires NewRows(imp, rows, cs, base, start)
    ensures IdsBelow(rows, base + |cs|)
  {
    forall k | 0 <= k < |rows|
      ensures rows[k].id.Uuid? && rows[k].id.n < base + |cs|
    {
      assert NewRowAt(imp, rows, cs, base, start, k);
    }
  }

  /** A row that a step adds carries the candidate's identifier. */
  lemma StepIds(imp: Importing, store: Store, db: Db, c: Candidate)
    requires Valid(db.rows) && LookupsOk(store) && imp.libraryId != "" && ProperCandidate(c)
    ensures var rows' := Step(imp, store, db, c).0.rows;
            |rows'| > |db.rows| ==> rows'[|db.rows|].id == c.id
  {
    var key := KeyOf(imp, c);
    var db1 := if c.kind == Episode then ResolveShow(imp, store, db, c).0 else db;
    var (db2, existing) := Find(store, db1, key);
  }

  /** The step of candidate c from these rows to those: it touches c's key, and a row it adds has c's identifier. */
  ghost predicate StepsTo(imp: Importing, rows: seq<MediaItem>, rows': seq<MediaItem>, c: Candidate) {
    && Sound(rows) && Sound(rows') && Touches(rows, rows', KeyOf(imp, c))
    && (|rows'| > |rows| ==> rows'[|rows|].id == c.id)
  }

  lemma StepSteps(imp: Importing, store: Store, db: Db, c: Candidate)
    requires Sound(db.rows) && LookupsOk(store) && Enforces(store) && imp.libraryId != "" && ProperCandidate(c)
    ensures StepsTo(imp, db.rows, Step(imp, store, db, c).0.rows, c)
  {
    FilesMakeKeys(db.rows);
    StepTouches(imp, store, db, c);
    StepIds(imp, store, db, c);
    StepKeepsSound(imp, store, db, c);
  }

  lemma NewRowsStep(imp: Importing, rows: seq<MediaItem>, rows': seq<MediaItem>, cs: seq<Candidate>, base: nat,
                    start: nat)
    requires cs != [] && Numbered(cs, base) && StepsTo(imp, rows, rows', cs[|cs|-1])
    requires NewRows(imp, rows, cs[..|cs|-1], base, start)
    ensures NewRows(imp, rows', cs, base, start)
  {
    var before := cs[..|cs|-1];
    forall k | 0 <= k < |rows'|
      ensures NewRowAt(imp, rows', cs, base, start, k)
    {
      if k < |rows| {
        assert NewRowAt(imp, rows, before, base, start, k);
        assert SameIdentity(rows[k], rows'[k]);
        assert rows[k].id.n >= base ==> before[rows[k].id.n - base] == cs[rows[k].id.n - base];
      } else {
        assert rows'[k].id == cs[|before|].id;
      }
    }
  }

  // ---- The first import ---------------------------------------------------------------------------------------------

  /** What the classifier guarantees of its candidates and their identifiers. */
  ghost predicate Drawn(imp: Importing, cs: seq<Candidate>, base: nat) {
    && WellOrdered(imp, cs) && Numbered(cs, base)
    && forall j :: 0 <= j < |cs| && cs[j].kind == Episode ==>
         cs[j].showId.Uuid? && base <= cs[j].showId.n < base + j && cs[cs[j].showId.n - base].kind == Show
  }

  lemma DrawnPrefix(imp: Importing, cs: seq<Candidate>, base: nat)
    requires Drawn(imp, cs, base) && cs != []
    ensures Drawn(imp, cs[..|cs|-1], base)
  {
    WellOrderedPrefix(imp, cs);
  }

  lemma DrawnFresh(imp: Importing, rows: seq<MediaItem>, cs: seq<Candidate>, base: nat)
    requires Drawn(imp, cs, base) && cs != [] && IdsBelow(rows, base + |cs| - 1)
    ensures ProperCandidate(cs[|cs|-1]) && FreshlyDrawn(rows, cs[|cs|-1])
  {
  }

  /** The candidate cannot be written: its file path is taken, or it finds no show row and its own show is no row. */
  ghost predicate Barred(imp: Importing, rows: seq<MediaItem>, c: Candidate) {
    Taken(imp, rows, c) || (Orphan(imp, rows, c) && !HasId(rows, c.showId))
  }

  /** After its step a candidate has its row, or, when the store refuses nothing but violations, is barred for good. */
  ghost predicate Fate(imp: Importing, rows: seq<MediaItem>, c: Candidate, v: Resolution, permits: bool) {
    if v.Resolved? then Settled(imp, rows, c, v.item.mediaId) else permits ==> Barred(imp, rows, c)
  }

  ghost predicate Fates(imp: Importing, rows: seq<MediaItem>, cs: seq<Candidate>, vs: seq<Resolution>, permits: bool) {
    |vs| == |cs| && forall j :: 0 <= j < |cs| ==> Fate(imp, rows, cs[j], vs[j], permits)
  }

  /** Files stay where they are. */
  lemma FileStoredPersists(rows: seq<MediaItem>, rows': seq<MediaItem>, touched: Key, p: Path)
    requires Touches(rows, rows', touched) && ShowsFileless(rows) && ShowsFileless(rows') && FileStored(rows, p)
    ensures FileStored(rows', p)
  {
    var i :| 0 <= i < |rows| && rows[i].filePath == p;
    assert SameIdentity(rows[i], rows'[i]);
    assert rows'[i].filePath == p;
  }

  lemma BarPersists(imp: Importing, rows: seq<MediaItem>, rows': seq<MediaItem>, cs: seq<Candidate>, j: nat, base: nat)
    requires Drawn(imp, cs, base) && j < |cs| - 1 && StepsTo(imp, rows, rows', cs[|cs|-1]) && Barred(imp, rows, cs[j])
    ensures Barred(imp, rows', cs[j])
  {
    var touched := KeyOf(imp, cs[|cs|-1]);
    FilesMakeKeys(rows);
    FilesMakeKeys(rows');
    if Taken(imp, rows, cs[j]) {
      FileStoredPersists(rows, rows', touched, FileOf(cs[j]));
      LookupStable(rows, rows', touched, KeyOf(imp, cs[j]));
    } else {
      LookupStable(rows, rows', touched, WalkKey(imp, cs[j]));
      forall i | 0 <= i < |rows'|
        ensures rows'[i].id != cs[j].showId
      {
        assert i < |rows| ==> SameIdentity(rows[i], rows'[i]);
      }
    }
  }

  lemma FatePersists(imp: Importing, rows: seq<MediaItem>, rows': seq<MediaItem>, cs: seq<Candidate>, j: nat,
                     v: Resolution,
                     permits: bool, base: nat)
    requires Drawn(imp, cs, base) && j < |cs| - 1 && StepsTo(imp, rows, rows', cs[|cs|-1])
    requires Fate(imp, rows, cs[j], v, permits)
    ensures Fate(imp, rows', cs[j], v, permits)
  {
    if v.Resolved? {
      FilesMakeKeys(rows);
      FilesMakeKeys(rows');
      var k :| SettledAt(imp, rows, cs[j], k) && rows[k].id == v.item.mediaId;
      SettledPersists(imp, rows, rows', KeyOf(imp, cs[|cs|-1]), cs[j], k);
    } else if permits {
      BarPersists(imp, rows, rows', cs, j, base);
    }
  }

  lemma FatesStep(imp: Importing, store: Store, db: Db, cs: seq<Candidate>, vs: seq<Resolution>, permits: bool,
                  base: nat, start: nat)
    requires Sound(db.rows) && LookupsOk(store) && Enforces(store) && (permits ==> Permits(store)) &&
             imp.libraryId != ""
    requires Drawn(imp, cs, base) && cs != []
    requires NewRows(imp, db.rows, cs[..|cs|-1], base, start) && Fates(imp, db.rows, cs[..|cs|-1], vs, permits)
    ensures var (db', r) := Step(imp, store, db, cs[|cs|-1]);
            Sound(db'.rows) && NewRows(imp, db'.rows, cs, base, start) && Fates(imp, db'.rows, cs, vs + [r], permits)
  {
    var n := |cs| - 1;
    var (db', r) := Step(imp, store, db, cs[n]);
    NewRowsBelow(imp, db.rows, cs[..n], base, start);
    DrawnFresh(imp, db.rows, cs, base);
    StepSteps(imp, store, db, cs[n]);
    NewRowsStep(imp, db.rows, db'.rows, cs, base, start);
    StepFate(imp, store, db, cs[n], permits);
    forall j | 0 <= j < n
      ensures Fate(imp, db'.rows, cs[j], vs[j], permits)
    {
      assert Fate(imp, db.rows, cs[..n][j], vs[j], permits);
      FatePersists(imp, db.rows, db'.rows, cs, j, vs[j], permits, base);
    }
  }

  lemma StepFate(imp: Importing, store: Store, db: Db, c: Candidate, permits: bool)
    requires Sound(db.rows) && LookupsOk(store) && Enforces(store) && (permits ==> Permits(store)) &&
             imp.libraryId != ""
    requires ProperCandidate(c) && FreshlyDrawn(db.rows, c)
    ensures var (db', r) := Step(imp, store, db, c); Fate(imp, db'.rows, c, r, permits)
  {
    FilesMakeKeys(db.rows);
    if Step(imp, store, db, c).1.Resolved? {
      var k := StepSettles(imp, store, db, c);
    } else if permits {
      StepAcceptedIff(imp, store, db, c);
    }
  }

  /** After an import under the schema's constraints every accepted candidate has its row; when nothing else is refused
      every rejected one is barred. */
  lemma {:induction false} RunFates(imp: Importing, store: Store, db: Db, cs: seq<Candidate>, total: nat, permits: bool,
                                    base: nat)
    requires Sound(db.rows) && LookupsOk(store) && Enforces(store) && (permits ==> Permits(store)) &&
             imp.libraryId != ""
    requires Drawn(imp, cs, base) && IdsBelow(db.rows, base)
    ensures var rows' := Run(imp, store, db, cs, total).0.rows;
            && Sound(rows') && NewRows(imp, rows', cs, base, |db.rows|)
            && Fates(imp, rows', cs, Verdicts(imp, store, db, cs, total), permits)
  {
    if cs != [] {
      DrawnPrefix(imp, cs, base);
      VerdictsPrefix(imp, store, db, cs, total);
      RunFates(imp, store, db, cs[..|cs|-1], total, permits, base);
      var vs := Verdicts(imp, store, db, cs, total);
      FatesStep(imp, store, Run(imp, store, db, cs[..|cs|-1], total).0, cs, vs[..|cs|-1], permits, base, |db.rows|);
      assert vs == vs[..|cs|-1] + [vs[|cs|-1]];
    }
  }

  // ---- The second import ------------------------------------------------------------------------------------------

  /** The second time a candidate is accepted, as an update of its row, exactly when it was the first time and is no
      orphan. */
  predicate Again(imp: Importing, rows: seq<MediaItem>, c: Candidate, v1: Resolution, v2: Resolution) {
    && (v2.Resolved? <==> v1.Resolved? && !Orphan(imp, rows, c))
    && (v2.Resolved? ==> UpdatedAs(v2.item, v1.item.mediaId))
  }

  ghost predicate AllAgain(imp: Importing, rows: seq<MediaItem>, cs: seq<Candidate>, vs1: seq<Resolution>,
                           vs2: seq<Resolution>) {
    |vs1| == |vs2| == |cs| && forall j :: 0 <= j < |cs| ==> Again(imp, rows, cs[j], vs1[j], vs2[j])
  }

  lemma SameBars(imp: Importing, a: seq<MediaItem>, b: seq<MediaItem>, c1: Candidate, c2: Candidate)
    requires SameRows(a, b) && Erase(c1) == Erase(c2)
    ensures Taken(imp, a, c1) <==> Taken(imp, b, c2)
    ensures Orphan(imp, a, c1) <==> Orphan(imp, b, c2)
    ensures forall id :: HasId(a, id) <==> HasId(b, id)
  {
    assert c2 == c1.(id := c2.id, showId := c2.showId);
    SameLookup(a, b, KeyOf(imp, c1));
    SameLookup(a, b, WalkKey(imp, c1));
    assert forall i :: 0 <= i < |a| ==> SameButUpdate(a[i], b[i]);
    forall p
      ensures FileStored(a, p) <==> FileStored(b, p)
    {
      if FileStored(a, p) {
        var i :| 0 <= i < |a| && a[i].filePath == p;
        assert b[i].filePath == p;
      }
      if FileStored(b, p) {
        var i :| 0 <= i < |b| && b[i].filePath == p;
        assert a[i].filePath == p;
      }
    }
    forall id
      ensures HasId(a, id) <==> HasId(b, id)
    {
      HasIdGrows(a, b, id);
      HasIdGrows(b, a, id);
    }
  }

  lemma StepAgain(imp: Importing, store: Store, rows: seq<MediaItem>, db: Db, c1: Candidate, c2: Candidate,
                  v1: Resolution)
    requires Sound(rows) && SameRows(rows, db.rows) && Schematic(store) && imp.libraryId != ""
    requires ProperCandidate(c1) && ProperCandidate(c2) && Erase(c1) == Erase(c2) && Fate(imp, rows, c1, v1, true)
    requires FreshlyDrawn(rows, c2) && (c2.kind == Episode ==> !HasId(rows, c2.showId))
    ensures var (db', v2) := Step(imp, store, db, c2); SameRows(rows, db'.rows) && Again(imp, rows, c1, v1, v2)
  {
    FilesMakeKeys(rows);
    SameSound(rows, db.rows);
    SameBars(imp, rows, db.rows, c1, c2);
    StepAcceptedIff(imp, store, db, c2);
    if v1.Resolved? && !Orphan(imp, rows, c1) {
      SettledForRedrawn(imp, rows, c1, c2, v1.item.mediaId);
      SchemaAcceptsRewrites(store, rows);
      StepRedoes(imp, store, rows, db, c2, v1.item.mediaId);
    }
  }

  /** The second time round, from the first candidates' fates. */
  lemma {:induction false} RunAgain(imp: Importing, store: Store, rows: seq<MediaItem>, db: Db, cs1: seq<Candidate>,
                                    cs2: seq<Candidate>,
                                    vs1: seq<Resolution>, total: nat, base: nat)
    requires Sound(rows) && SameRows(rows, db.rows) && Schematic(store) && imp.libraryId != ""
    requires Matching(cs1, cs2) && Fates(imp, rows, cs1, vs1, true) && IdsBelow(rows, base) && Drawn(imp, cs2, base)
    ensures SameRows(rows, Run(imp, store, db, cs2, total).0.rows)
    ensures AllAgain(imp, rows, cs1, vs1, Verdicts(imp, store, db, cs2, total))
    decreases |cs2|
  {
    if cs2 != [] {
      var n := |cs2| - 1;
      DrawnPrefix(imp, cs2, base);
      VerdictsPrefix(imp, store, db, cs2, total);
      FatesPrefix(imp, rows, cs1, cs2, vs1);
      RunAgain(imp, store, rows, db, cs1[..n], cs2[..n], vs1[..n], total, base);
      DrawnFresh(imp, rows, cs2, base);
      StepAgain(imp, store, rows, Run(imp, store, db, cs2[..n], total).0, cs1[n], cs2[n], vs1[n]);
      AllAgainOneMore(imp, rows, cs1, vs1, Verdicts(imp, store, db, cs2, total));
    }
  }

  /** The candidates of the second import are those of the first under other identifiers. */
  ghost predicate Matching(cs1: seq<Candidate>, cs2: seq<Candidate>) {
    |cs1| == |cs2| && forall j :: 0 <= j < |cs1| ==> ProperCandidate(cs1[j]) && Erase(cs1[j]) == Erase(cs2[j])
  }

  lemma FatesPrefix(imp: Importing, rows: seq<MediaItem>, cs1: seq<Candidate>, cs2: seq<Candidate>, vs: seq<Resolution>)
    requires Matching(cs1, cs2) && cs1 != [] && Fates(imp, rows, cs1, vs, true)
    ensures var n := |cs1| - 1;
            Matching(cs1[..n], cs2[..n]) && Fates(imp, rows, cs1[..n], vs[..n], true) &&
                Fate(imp, rows, cs1[n], vs[n], true)
  {
    var n := |cs1| - 1;
    forall j | 0 <= j < n
      ensures Fate(imp, rows, cs1[..n][j], vs[..n][j], true)
    {
      assert Fate(imp, rows, cs1[j], vs[j], true);
    }
  }

  lemma AllAgainOneMore(imp: Importing, rows: seq<MediaItem>, cs: seq<Candidate>, vs1: seq<Resolution>,
                        vs2: seq<Resolution>)
    requires |vs1| == |vs2| == |cs| && cs != []
    requires AllAgain(imp, rows, cs[..|cs|-1], vs1[..|cs|-1], vs2[..|cs|-1]) &&
             Again(imp, rows, cs[|cs|-1], vs1[|cs|-1], vs2[|cs|-1])
    ensures AllAgain(imp, rows, cs, vs1, vs2)
  {
    var n := |cs| - 1;
    forall j | 0 <= j < |cs|
      ensures Again(imp, rows, cs[j], vs1[j], vs2[j])
    {
      assert j < n ==> cs[..n][j] == cs[j] && vs1[..n][j] == vs1[j] && vs2[..n][j] == vs2[j];
    }
  }
}
