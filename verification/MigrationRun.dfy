// The migration protocol against its sequential meaning: what one undisturbed start does.
module MigrationRun {
  import opened Base
  import opened Migrations

  /** Run, in list order, the scripts whose version is not recorded yet; None when one of them fails. */
  function Sequential(sc: Scripts, db: Committed, todo: seq<Migration>, i: nat): Option<Committed>
    decreases |todo| - i
  {
    if i >= |todo| then Some(db)
    else if Recorded(db, todo[i].version) then Sequential(sc, db, todo, i + 1)
    else
      var w := sc.run(todo[i].file, db.schema);
      if w.None? then None else Sequential(sc, Committed(w.value, db.log + [todo[i]]), todo, i + 1)
  }

  ghost predicate Completes(sc: Scripts, s: Sys, p: nat, db: Committed) {
    p in s.procs && s.procs[p].pc == Returned(true) && s.lock == None && s.db == db
  }

  // ---- A start that finds the database busy now and then ------------------------------------------------------------

  /** The events es happen to p's statements, one after the other. */
  function Play(sc: Scripts, s: Sys, p: nat, es: seq<Event>): Sys {
    if es == [] then s else Do(sc, Play(sc, s, p, es[..|es|-1]), Act(p, es[|es|-1]))
  }

  function BusyErrors(es: seq<Event>): nat {
    if es == [] then 0 else BusyErrors(es[..|es|-1]) + if es[|es|-1] == BusyError then 1 else 0
  }

  /** p is at a database statement other than ROLLBACK. */
  predicate MeetsBusy(s: Sys, p: nat) {
    p in s.procs && !s.procs[p].pc.ListDir? && !s.procs[p].pc.ReadFile? && !s.procs[p].pc.Rollback?
  }

  /** Every statement succeeds, or is a database statement other than ROLLBACK and reports busy. */
  predicate OnlyBusy(sc: Scripts, s: Sys, p: nat, es: seq<Event>) {
    forall k :: 0 <= k < |es| ==> es[k] == Succeeds || (es[k] == BusyError && MeetsBusy(Play(sc, s, p, es[..k]), p))
  }

  /** How many successful statements are still to come at most; n is the length of the migration list. */
  function Rank(n: nat, pc: Pc): int {
    match pc
    case CreateTable(_) => 6 * n + 2
    case ListDir => 6 * n + 1
    case Check(i, _) => 6 * (n - i)
    case ReadFile(i) => 6 * (n - i) - 1
    case Begin(i, _) => 6 * (n - i) - 2
    case Script(i, _) => 6 * (n - i) - 3
    case Insert(i, _, _) => 6 * (n - i) - 4
    case Commit(i, _, _) => 6 * (n - i) - 5
    case Rollback(i, _, _) => 6 * (n - i) - 1
    case _ => 0
  }

  /** p is on its way to the database final, alone, after at most `busy` busy errors. */
  ghost predicate OnTrack(sc: Scripts, s: Sys, p: nat, busy: nat, todo: seq<Migration>, final: Committed) {
    && p in s.procs && s.procs[p].todo == Some(todo) && busy <= MAX_ATTEMPT
    && var pc := s.procs[p].pc;
    && s.lock == (if pc.Script? || pc.Insert? || pc.Commit? || pc.Rollback? then Some(p) else None)
    && match pc
       case CreateTable(a) => a <= busy && Sequential(sc, s.db, todo, 0) == Some(final)
       case ListDir => Sequential(sc, s.db, todo, 0) == Some(final)
       case Check(i, a) => i < |todo| && a <= busy && Sequential(sc, s.db, todo, i) == Some(final)
       case ReadFile(i) => Pending(sc, s.db, todo, i, final)
       case Begin(i, a) => a <= busy && Pending(sc, s.db, todo, i, final)
       case Script(i, a) => a <= busy && Pending(sc, s.db, todo, i, final)
       case Insert(i, a, work) => a <= busy && Pending(sc, s.db, todo, i, final) && Works(sc, s.db, todo, i, work)
       case Commit(i, a, work) => a <= busy && Pending(sc, s.db, todo, i, final) && Works(sc, s.db, todo, i, work)
       case Rollback(i, a, again) => again && a < busy && Pending(sc, s.db, todo, i, final)
       case Returned(ok) => ok && s.db == final
       case Crashed => false
  }

  /** Entry i is next and can be applied. */
  ghost predicate Pending(sc: Scripts, db: Committed, todo: seq<Migration>, i: nat, final: Committed) {
    && i < |todo| && !Recorded(db, todo[i].version) && sc.run(todo[i].file, db.schema).Some?
    && Sequential(sc, db, todo, i) == Some(final)
  }

  predicate Works(sc: Scripts, db: Committed, todo: seq<Migration>, i: nat, work: Schema)
    requires i < |todo|
  {
    sc.run(todo[i].file, db.schema) == Some(work)
  }

  lemma SuccessOnTrack(sc: Scripts, s: Sys, p: nat, busy: nat, todo: seq<Migration>, final: Committed)
    requires OnTrack(sc, s, p, busy, todo, final)
    ensures var s' := Do(sc, s, Act(p, Succeeds));
            && OnTrack(sc, s', p, busy, todo, final)
            && (Rank(|todo|, s'.procs[p].pc) < Rank(|todo|, s.procs[p].pc) || s' == s)
  {
    var db := Do(sc, s, Act(p, Succeeds)).db;
    assert Sequential(sc, db, todo, |todo|) == Some(db);
  }

  lemma BusyOnTrack(sc: Scripts, s: Sys, p: nat, busy: nat, todo: seq<Migration>, final: Committed)
    requires OnTrack(sc, s, p, busy, todo, final) && busy < MAX_ATTEMPT && MeetsBusy(s, p)
    ensures var s' := Do(sc, s, Act(p, BusyError));
            && OnTrack(sc, s', p, busy + 1, todo, final)
            && (Rank(|todo|, s'.procs[p].pc) <= Rank(|todo|, s.procs[p].pc) + 4 || s' == s)
  {
  }

  /** count events have brought p this far. */
  ghost predicate GotOn(s: Sys, p: nat, todo: seq<Migration>, start: int, count: nat, busy: nat)
    requires p in s.procs
  {
    var rank := Rank(|todo|, s.procs[p].pc);
    rank == 0 || rank + count <= start + 5 * busy
  }

  lemma OneEvent(sc: Scripts, s: Sys, p: nat, e: Event, busy: nat, todo: seq<Migration>, final: Committed, start: int,
                 count: nat)
    requires OnTrack(sc, s, p, busy, todo, final) && GotOn(s, p, todo, start, count, busy)
    requires e == Succeeds || (e == BusyError && MeetsBusy(s, p) && busy < MAX_ATTEMPT)
    ensures var s' := Do(sc, s, Act(p, e));
            var busy' := busy + if e == BusyError then 1 else 0;
            OnTrack(sc, s', p, busy', todo, final) && GotOn(s', p, todo, start, count + 1, busy')
  {
    if e == Succeeds {
      SuccessOnTrack(sc, s, p, busy, todo, final);
    } else {
      BusyOnTrack(sc, s, p, busy, todo, final);
    }
  }

  lemma {:induction false} PlayOnTrack(sc: Scripts, s: Sys, p: nat, es: seq<Event>, todo: seq<Migration>,
                                       final: Committed)
    requires OnTrack(sc, s, p, 0, todo, final) && OnlyBusy(sc, s, p, es) && BusyErrors(es) <= MAX_ATTEMPT
    ensures OnTrack(sc, Play(sc, s, p, es), p, BusyErrors(es), todo, final)
    ensures GotOn(Play(sc, s, p, es), p, todo, Rank(|todo|, s.procs[p].pc), |es|, BusyErrors(es))
  {
    if es != [] {
      var n := |es| - 1;
      OnlyBusyBefore(sc, s, p, es);
      PlayOnTrack(sc, s, p, es[..n], todo, final);
      OneEvent(sc, Play(sc, s, p, es[..n]), p, es[n], BusyErrors(es[..n]), todo, final, Rank(|todo|, s.procs[p].pc), n);
    }
  }

  lemma OnlyBusyBefore(sc: Scripts, s: Sys, p: nat, es: seq<Event>)
    requires OnlyBusy(sc, s, p, es) && es != []
    ensures var n := |es| - 1;
            && OnlyBusy(sc, s, p, es[..n])
            && (es[n] == Succeeds || (es[n] == BusyError && MeetsBusy(Play(sc, s, p, es[..n]), p)))
  {
    var n := |es| - 1;
    assert forall k :: 0 <= k < n ==> es[..n][k] == es[k] && es[..n][..k] == es[..k];
  }

  /** A start alone on its database gets through busy errors, at any of its database statements: whatever the events,
      as long as at most five statements report busy, none of them a ROLLBACK, and nothing else goes wrong, after
      6n + 28 events it has returned nil and left exactly what running the n scripts in order would. */
  lemma BusyStart(sc: Scripts, s: Sys, p: nat, todo: seq<Migration>, es: seq<Event>)
    requires p !in s.procs && s.lock == None && Sorted(todo) && Sequential(sc, s.db, todo, 0).Some?
    requires OnlyBusy(sc, Do(sc, s, Start(p, Some(todo))), p, es) && BusyErrors(es) <= 5
    requires |es| >= 6 * |todo| + 28
    ensures Completes(sc, Play(sc, Do(sc, s, Start(p, Some(todo))), p, es), p, Sequential(sc, s.db, todo, 0).value)
  {
    PlayOnTrack(sc, Do(sc, s, Start(p, Some(todo))), p, es, todo, Sequential(sc, s.db, todo, 0).value);
  }

  lemma {:induction false} NoBusyErrors(n: nat)
    ensures BusyErrors(seq(n, i => Succeeds)) == 0
  {
    if n > 0 {
      var es: seq<Event> := seq(n, i => Succeeds);
      assert es[..n-1] == seq(n - 1, i => Succeeds);
      NoBusyErrors(n - 1);
    }
  }

  /** In particular a start that nothing disturbs completes. */
  lemma UndisturbedStart(sc: Scripts, s: Sys, p: nat, todo: seq<Migration>)
    requires p !in s.procs && s.lock == None && Sorted(todo) && Sequential(sc, s.db, todo, 0).Some?
    ensures var es := seq(6 * |todo| + 28, i => Succeeds);
            Completes(sc, Play(sc, Do(sc, s, Start(p, Some(todo))), p, es), p, Sequential(sc, s.db, todo, 0).value)
  {
    NoBusyErrors(6 * |todo| + 28);
    BusyStart(sc, s, p, todo, seq(6 * |todo| + 28, i => Succeeds));
  }

  function Busys(n: nat): seq<Event> {
    seq(n, i => BusyError)
  }

  /** What n busy errors make of a statement. */
  function Retried(pc: Pc, n: nat): Pc {
    match pc
    case CreateTable(a) => CreateTable(a + n)
    case Check(i, a) => Check(i, a + n)
    case Begin(i, a) => Begin(i, a + n)
    case _ => pc
  }

  /** CREATE TABLE, the version query after a first busy one, and BEGIN are tried six times: five busy errors lead to
      another try, the sixth ends the start. */
  lemma {:induction false} SixTries(sc: Scripts, s: Sys, p: nat, i: nat, n: nat)
    requires p in s.procs && InRange(s.procs[p], i) && n <= 6
    requires s.procs[p].pc in {CreateTable(0), Check(i, 1), Begin(i, 0)}
    ensures Play(sc, s, p, Busys(n)) == SetPc(s, p, if n <= 5 then Retried(s.procs[p].pc, n) else Returned(false))
  {
    if n > 0 {
      assert Busys(n)[..n-1] == Busys(n - 1);
      SixTries(sc, s, p, i, n - 1);
      OneTry(sc, s, p, i, n - 1);
    }
  }

  lemma OneTry(sc: Scripts, s: Sys, p: nat, i: nat, n: nat)
    requires p in s.procs && InRange(s.procs[p], i) && n <= 5
    requires s.procs[p].pc in {CreateTable(0), Check(i, 1), Begin(i, 0)}
    ensures Do(sc, SetPc(s, p, Retried(s.procs[p].pc, n)), Act(p, BusyError)) ==
            SetPc(s, p, if n < 5 then Retried(s.procs[p].pc, n + 1) else Returned(false))
  {
  }

  predicate EndsNow(pc: Pc) {
    pc.CreateTable? || pc.ListDir? || pc.Check? || pc.ReadFile? || pc.Begin?
  }

  /** An error other than busy, or the end of the context, ends the start without touching the database: at once, or
      after the ROLLBACK of an open transaction, whatever that meets. */
  lemma HardErrorEndsStart(sc: Scripts, s: Sys, p: nat, e: Event, rollback: Event)
    requires p in s.procs && (e == OtherError || e == ContextDone) && !rollback.Crash?
    requires var pc := s.procs[p].pc; EndsNow(pc) || pc.Script? || pc.Insert? || pc.Commit?
    ensures var s1 := Do(sc, s, Act(p, e));
            var end := if EndsNow(s.procs[p].pc) then s1 else Do(sc, s1, Act(p, rollback));
            end.procs[p].pc == Returned(false) && end.db == s.db
  {
  }

  /** So does the end of the context during the wait for the next attempt. */
  lemma ContextEndsStart(sc: Scripts, s: Sys, p: nat)
    requires p in s.procs && s.procs[p].pc.Rollback?
    ensures var end := Do(sc, s, Act(p, ContextDone)); end.procs[p].pc == Returned(false) && end.db == s.db
  {
  }
}
