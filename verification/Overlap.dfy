// Imports that overlap: any number of reconcilers, of the same or of different libraries, whose lookups and writes
// interleave statement by statement (ImportRequest returns before its goroutine ends, importer.go:124).
module Overlap {
  import opened Base
  import opened Paths
  import opened ImportContext
  import opened ShowLinks
  import opened Catalogue
  import opened Reconcile
  import opened CatalogueKeys
  import opened Schema

  /** How far a reconciler is with its candidate: nothing looked up, the parent known, or the key looked up too. */
  datatype Phase = Start | ParentKnown(parent: Id) | KeyLooked(parent: Id, existing: Id)

  datatype Worker = Worker(imp: Importing, cands: seq<Candidate>, pos: nat, phase: Phase)

  datatype Sys = Sys(db: Db, workers: map<nat, Worker>)

  /** An import arrives, executes its next statement, or ends with the server. */
  datatype Action = Arrive(w: nat, imp: Importing, cands: seq<Candidate>) | Act(w: nat) | Die(w: nat)

  function Item(imp: Importing, c: Candidate, id: Id, parent: Id): MediaItem {
    if c.kind == Show then ShowItem(imp, c, id)
    else if c.kind == Movie then MovieItem(imp, c, id)
    else EpisodeItem(imp, c, id, parent)
  }

  /** The candidate is reconciled with statements, not just counted or rejected. */
  predicate Queries(c: Candidate) {
    Reconcilable(c) && (c.kind != Show ==> c.primaryPath.Path?)
  }

  predicate LooksShowUp(c: Candidate) {
    c.kind == Episode && c.showId.Uuid? && c.seasonNumber.Some?
  }

  function LookKey(store: Store, s: Sys, w: nat, c: Candidate, parent: Id): Sys
    requires w in s.workers
  {
    var k := s.workers[w];
    var (db1, existing) := Find(store, s.db, KeyOf(k.imp, c));
    Sys(db1, s.workers[w := k.(phase := KeyLooked(parent, existing))])
  }

  /** The next statement of worker w. */
  function Advance(store: Store, s: Sys, w: nat): Sys
    requires w in s.workers
  {
    var k := s.workers[w];
    if k.pos >= |k.cands| then s
    else
      var c := k.cands[k.pos];
      if !Queries(c) then s.(workers := s.workers[w := k.(pos := k.pos + 1)])
      else
        match k.phase
        case Start =>
          if LooksShowUp(c) then
            var (db1, id) := Find(store, s.db, ShowKey(k.imp, ShowRootOf(k.imp.fs, c.primaryPath)));
            Sys(db1, s.workers[w := k.(phase := ParentKnown(if id.NoId? then c.showId else id))])
          else LookKey(store, s, w, c, c.showId)
        case ParentKnown(parent) => LookKey(store, s, w, c, parent)
        case KeyLooked(parent, existing) =>
          var m := Item(k.imp, c, if existing.NoId? then c.id else existing, parent);
          Sys(Write(store, s.db, existing, m).0, s.workers[w := k.(pos := k.pos + 1, phase := Start)])
  }

  function Do(store: Store, s: Sys, a: Action): Sys {
    match a
    case Arrive(w, imp, cands) =>
      if w in s.workers then s else s.(workers := s.workers[w := Worker(imp, cands, 0, Start)])
    case Act(w) => if w in s.workers then Advance(store, s, w) else s
    case Die(w) => s.(workers := s.workers - {w})
  }

  function Exec(store: Store, db: Db, trace: seq<Action>): Sys {
    if trace == [] then Sys(db, map[])
    else Do(store, Exec(store, db, trace[..|trace|-1]), trace[|trace|-1])
  }

  // ---- What every interleaving keeps -------------------------------------------------------------------------------

  ghost predicate HasRow(rows: seq<MediaItem>, id: Id, typ: EntityKind) {
    exists i :: 0 <= i < |rows| && rows[i].id == id && rows[i].typ == typ
  }

  /** Rows keep their place, identifier and type. */
  predicate Grows(rows: seq<MediaItem>, rows': seq<MediaItem>) {
    |rows| <= |rows'| && forall i :: 0 <= i < |rows| ==> rows'[i].id == rows[i].id && rows'[i].typ == rows[i].typ
  }

  /** What a worker looked up, however stale, is a row of its candidate's type. */
  ghost predicate WorkerOk(rows: seq<MediaItem>, k: Worker) {
    && (k.phase != Start ==> k.pos < |k.cands| && Queries(k.cands[k.pos]))
    && (k.phase.KeyLooked? && k.phase.existing.Uuid? ==> HasRow(rows, k.phase.existing, k.cands[k.pos].kind))
  }

  ghost predicate Inv(s: Sys) {
    FilesOk(s.db.rows) && forall w :: w in s.workers ==> WorkerOk(s.db.rows, s.workers[w])
  }

  lemma WorkerStays(rows: seq<MediaItem>, rows': seq<MediaItem>, k: Worker)
    requires Grows(rows, rows') && WorkerOk(rows, k)
    ensures WorkerOk(rows', k)
  {
    if k.phase.KeyLooked? && k.phase.existing.Uuid? {
      var i :| 0 <= i < |rows| && rows[i].id == k.phase.existing && rows[i].typ == k.cands[k.pos].kind;
      assert rows'[i].id == rows[i].id;
    }
  }

  /** A write under the identifier of some row of its type, or a new one, keeps files distinct: the key it was looked up
      by may long have changed hands. */
  lemma StaleWriteKeepsFiles(store: Store, db: Db, existing: Id, m: MediaItem)
    requires FilesOk(db.rows) && UniqueFilePath(store) && (m.typ == Show ==> m.filePath == NoPath)
    requires existing.Uuid? ==> m.id == existing && HasRow(db.rows, existing, m.typ)
    ensures var rows' := Write(store, db, existing, m).0.rows; FilesOk(rows') && Grows(db.rows, rows')
  {
    if existing.Uuid? {
      var i :| 0 <= i < |db.rows| && db.rows[i].id == existing && db.rows[i].typ == m.typ;
      UpdateRowsAt(db.rows, Stored(m.(updatedAt := store.clock(db.tick))), i);
    }
  }

  lemma LookupHasRow(rows: seq<MediaItem>, key: Key)
    ensures Lookup(rows, key).Uuid? ==> HasRow(rows, Lookup(rows, key), key.typ)
  {
  }

  lemma AdvanceKeeps(store: Store, s: Sys, w: nat)
    requires Inv(s) && UniqueFilePath(store) && w in s.workers
    ensures Inv(Advance(store, s, w)) && Grows(s.db.rows, Advance(store, s, w).db.rows)
  {
    var k := s.workers[w];
    var s' := Advance(store, s, w);
    if k.pos < |k.cands| && Queries(k.cands[k.pos]) {
      var c := k.cands[k.pos];
      LookupHasRow(s.db.rows, KeyOf(k.imp, c));
      if k.phase.KeyLooked? {
        var existing := k.phase.existing;
        assert WorkerOk(s.db.rows, k);
        StaleWriteKeepsFiles(store, s.db, existing,
            Item(k.imp, c, if existing.NoId? then c.id else existing, k.phase.parent));
      } else {
        assert WorkerOk(s.db.rows, s'.workers[w]);
      }
    }
    forall v | v in s'.workers
      ensures WorkerOk(s'.db.rows, s'.workers[v])
    {
      if v != w {
        WorkerStays(s.db.rows, s'.db.rows, s.workers[v]);
      }
    }
  }

  /** Under UNIQUE(file_path) keys stay unique in every interleaving of any imports, whatever lookups and other writes
      do: one row per library, file and type, one show row per library and directory. No row is lost. */
  lemma {:induction false} OverlapKeepsKeys(store: Store, db: Db, trace: seq<Action>)
    requires FilesOk(db.rows) && UniqueFilePath(store)
    ensures Inv(Exec(store, db, trace)) && KeysUnique(Exec(store, db, trace).db.rows)
    ensures Grows(db.rows, Exec(store, db, trace).db.rows)
  {
    if trace != [] {
      var before := trace[..|trace|-1];
      OverlapKeepsKeys(store, db, before);
      var s := Exec(store, db, before);
      match trace[|trace|-1]
      case Act(w) =>
        if w in s.workers {
          AdvanceKeeps(store, s, w);
        }
      case Arrive(_, _, _) =>
      case Die(_) =>
    }
    FilesMakeKeys(Exec(store, db, trace).db.rows);
  }

  // ---- An import on its own ---------------------------------------------------------------------------------------

  /** n statements of w in a row. */
  function Alone(store: Store, s: Sys, w: nat, n: nat): Sys
    decreases n
  {
    if n == 0 || w !in s.workers then s else Alone(store, Advance(store, s, w), w, n - 1)
  }

  lemma {:induction false} AloneMore(store: Store, s: Sys, w: nat, m: nat, n: nat)
    ensures Alone(store, s, w, m + n) == Alone(store, Alone(store, s, w, m), w, n)
    decreases m
  {
    if m > 0 && w in s.workers {
      AloneMore(store, Advance(store, s, w), w, m - 1, n);
    }
  }

  ghost predicate AtCandidate(s: Sys, w: nat, k: Worker, pos: nat) {
    w in s.workers && s.workers[w] == k.(pos := pos, phase := Start) && pos <= |k.cands|
  }

  /** The database after the lookups that precede c's write, and the parent found. */
  function BeforeKey(imp: Importing, store: Store, db: Db, c: Candidate): (Db, Id) {
    if LooksShowUp(c) then ResolveShow(imp, store, db, c) else (db, c.showId)
  }

  lemma StepIsStatements(imp: Importing, store: Store, db: Db, c: Candidate)
    requires Queries(c)
    ensures var (db1, parent) := BeforeKey(imp, store, db, c);
            var (db2, existing) := Find(store, db1, KeyOf(imp, c));
            var m := Item(imp, c, if existing.NoId? then c.id else existing, parent);
            Step(imp, store, db, c).0 == Write(store, db2, existing, m).0
  {
  }

  /** The last two statements for a candidate: its key's lookup and the write. */
  lemma LookAndWrite(store: Store, s: Sys, w: nat, k: Worker, pos: nat, parent: Id)
    requires w in s.workers && pos < |k.cands| && Queries(k.cands[pos])
    requires s.workers[w] == k.(pos := pos, phase := ParentKnown(parent)) ||
             (s.workers[w] == k.(pos := pos, phase := Start) && !LooksShowUp(k.cands[pos]) &&
                 parent == k.cands[pos].showId)
    ensures var c := k.cands[pos];
            var (db2, existing) := Find(store, s.db, KeyOf(k.imp, c));
            var m := Item(k.imp, c, if existing.NoId? then c.id else existing, parent);
            var s' := Alone(store, s, w, 2);
            AtCandidate(s', w, k, pos + 1) && s'.db == Write(store, db2, existing, m).0
  {
    var s1 := Advance(store, s, w);
    var s2 := Advance(store, s1, w);
    assert s1 == LookKey(store, s, w, k.cands[pos], parent);
    assert Alone(store, s, w, 2) == Alone(store, s1, w, 1) == Alone(store, s2, w, 0);
  }

  /** Its statements for one candidate make one step of the reconciler. */
  lemma AloneStep(store: Store, s: Sys, w: nat, k: Worker, pos: nat) returns (n: nat)
    requires AtCandidate(s, w, k, pos) && pos < |k.cands|
    ensures var s' := Alone(store, s, w, n);
            && AtCandidate(s', w, k, pos + 1)
            && s'.db == if Reconcilable(k.cands[pos]) then Step(k.imp, store, s.db, k.cands[pos]).0 else s.db
  {
    var c := k.cands[pos];
    var s1 := Advance(store, s, w);
    if !Queries(c) {
      n := 1;
      assert Alone(store, s, w, 1) == Alone(store, s1, w, 0);
    } else {
      StepIsStatements(k.imp, store, s.db, c);
      var parent := BeforeKey(k.imp, store, s.db, c).1;
      if LooksShowUp(c) {
        n := 3;
        assert s1.workers[w] == k.(pos := pos, phase := ParentKnown(parent));
        LookAndWrite(store, s1, w, k, pos, parent);
        assert Alone(store, s, w, 3) == Alone(store, s1, w, 2);
      } else {
        n := 2;
        LookAndWrite(store, s, w, k, pos, parent);
      }
    }
  }

  /** An import that nothing overlaps is a run of the reconciler. */
  lemma {:induction false} AloneIsRun(store: Store, s: Sys, w: nat, k: Worker, pos: nat, total: nat) returns (n: nat)
    requires AtCandidate(s, w, k, 0) && pos <= |k.cands|
    ensures AtCandidate(Alone(store, s, w, n), w, k, pos)
    ensures Alone(store, s, w, n).db == Run(k.imp, store, s.db, k.cands[..pos], total).0
    decreases pos
  {
    if pos == 0 {
      n := 0;
    } else {
      var a := AloneIsRun(store, s, w, k, pos - 1, total);
      var b := AloneStep(store, Alone(store, s, w, a), w, k, pos - 1);
      AloneMore(store, s, w, a, b);
      assert k.cands[..pos][..pos-1] == k.cands[..pos-1];
      n := a + b;
    }
  }

  function Acts(w: nat, n: nat): seq<Action> {
    seq(n, i => Act(w))
  }

  lemma AloneActs(store: Store, s: Sys, w: nat, n: nat)
    ensures Alone(store, s, w, n + 1) == Do(store, Alone(store, s, w, n), Act(w))
  {
    AloneMore(store, s, w, n, 1);
    var before := Alone(store, s, w, n);
    assert w in before.workers ==> Alone(store, before, w, 1) == Alone(store, Advance(store, before, w), w, 0);
  }

  lemma {:induction false} ExecActs(store: Store, db: Db, trace: seq<Action>, w: nat, n: nat)
    ensures Exec(store, db, trace + Acts(w, n)) == Alone(store, Exec(store, db, trace), w, n)
  {
    var all := trace + Acts(w, n);
    if n == 0 {
      assert all == trace;
    } else {
      assert all[..|all|-1] == trace + Acts(w, n - 1) && all[|all|-1] == Act(w);
      ExecActs(store, db, trace, w, n - 1);
      AloneActs(store, Exec(store, db, trace), w, n - 1);
    }
  }

  /** In a trace: whatever came before, an import that then arrives and that nothing overlaps leaves the database as the
      reconciler does. */
  lemma ArrivedRuns(store: Store, db: Db, trace: seq<Action>, w: nat, imp: Importing, cands: seq<Candidate>)
    requires w !in Exec(store, db, trace).workers
    ensures exists n ::
              Exec(store, db, trace + [Arrive(w, imp, cands)] + Acts(w, n)).db ==
              RunAll(imp, store, Exec(store, db, trace).db, cands).0
  {
    var arrived := trace + [Arrive(w, imp, cands)];
    var k := Worker(imp, cands, 0, Start);
    assert arrived[..|arrived|-1] == trace;
    var n := AloneIsRun(store, Exec(store, db, arrived), w, k, |cands|, |cands|);
    ExecActs(store, db, arrived, w, n);
    assert cands[..|cands|] == cands;
  }
}
