// The migration protocol of repository/db.go: processes that start, check, apply, fail, retry and crash
// over one committed database.
module Migrations {
  import opened Base
  import BusyRetry

  type Schema = string

  datatype Migration = Migration(version: int, file: string)

  /** The scripts on disk: what executing a file's statements makes of a schema, or an error. */
  datatype Scripts = Scripts(run: (string, Schema) -> Option<Schema>, initial: Schema)

  /** What is committed: the schema, and the recorded versions in commit order, each with the file it came from. */
  datatype Committed = Committed(schema: Schema, log: seq<Migration>)

  /** The last retry of WithSQLiteBusyRetry. */
  const MAX_ATTEMPT: nat := |BusyRetry.DELAYS|

  /** The next statement of a start. i is the index in its migration list, attempt counts busy retries, and work is
      the schema inside the open transaction. */
  datatype Pc =
    | CreateTable(attempt: nat)
    | ListDir
    | Check(i: nat, attempt: nat)
    | ReadFile(i: nat)
    | Begin(i: nat, attempt: nat)
    | Script(i: nat, attempt: nat)
    | Insert(i: nat, attempt: nat, work: Schema)
    | Commit(i: nat, attempt: nat, work: Schema)
    | Rollback(i: nat, attempt: nat, again: bool)
    | Returned(ok: bool)
    | Crashed

  /** One start of the server. todo is None when no migrations directory is found; applied lists the versions this
      start has committed. */
  datatype Proc = Proc(pc: Pc, todo: Option<seq<Migration>>, applied: seq<int>)

  datatype Sys = Sys(db: Committed, lock: Option<nat>, procs: map<nat, Proc>)

  /** What happens to the next statement: it succeeds, reports busy, fails otherwise, reports busy and the context ends
      while waiting, takes effect as a commit but reports an error, or the process dies. A ROLLBACK that reports busy or
      fails leaves the lock with its process. */
  datatype Event = Succeeds | BusyError | OtherError | ContextDone | CommitLost(busy: bool) | Crash

  datatype Action = Start(p: nat, todo: Option<seq<Migration>>) | Act(p: nat, e: Event)

  predicate Recorded(db: Committed, version: int) {
    exists k :: 0 <= k < |db.log| && db.log[k].version == version
  }

  predicate Sorted(ms: seq<Migration>) {
    forall i, j :: 0 <= i < j < |ms| ==> ms[i].version <= ms[j].version
  }

  // ---- Steps -------------------------------------------------------------------------------------------------

  function SetPc(s: Sys, p: nat, pc: Pc): Sys
    requires p in s.procs
  {
    s.(procs := s.procs[p := s.procs[p].(pc := pc)])
  }

  function Unlock(s: Sys, p: nat): Sys {
    if s.lock == Some(p) then s.(lock := None) else s
  }

  /** The loop of migrate moves to entry i. */
  function Goto(proc: Proc, i: nat): Pc {
    if proc.todo.Some? && i < |proc.todo.value| then Check(i, 0) else Returned(true)
  }

  /** A busy error in the retry loop around applyMigration's transaction. */
  function Retry(i: nat, attempt: nat): Pc {
    if attempt < MAX_ATTEMPT then Begin(i, attempt + 1) else Returned(false)
  }

  function CommitNow(s: Sys, p: nat, i: nat, work: Schema): Sys
    requires p in s.procs && s.procs[p].todo.Some? && i < |s.procs[p].todo.value|
  {
    var m := s.procs[p].todo.value[i];
    s.(db := Committed(work, s.db.log + [m]), lock := None,
       procs := s.procs[p := s.procs[p].(applied := s.procs[p].applied + [m.version])])
  }

  predicate InRange(proc: Proc, i: nat) {
    proc.todo.Some? && i < |proc.todo.value|
  }

  /** An error inside the transaction: the deferred ROLLBACK runs, then a busy error is retried. */
  function FailTx(s: Sys, p: nat, i: nat, attempt: nat, e: Event): Sys
    requires p in s.procs
  {
    SetPc(s, p, Rollback(i, attempt, e == BusyError))
  }

  function Advance(sc: Scripts, s: Sys, p: nat, e: Event): Sys
    requires p in s.procs
  {
    var proc := s.procs[p];
    if proc.pc.Crashed? || (proc.pc.Returned? && e != Crash) then s
    else if e == Crash then SetPc(Unlock(s, p), p, Crashed)
    else
      match proc.pc
      case CreateTable(a) =>
        if e == Succeeds then SetPc(s, p, if proc.todo.None? then Returned(true) else ListDir)
        else if e == BusyError && a < MAX_ATTEMPT then SetPc(s, p, CreateTable(a + 1))
        else SetPc(s, p, Returned(false))
      case ListDir =>
        SetPc(s, p, if e == Succeeds then Goto(proc, 0) else Returned(false))
      case Check(i, a) =>
        // The first query is not part of the retry loop that follows a busy error.
        if !InRange(proc, i) then SetPc(s, p, Returned(false))
        else if e == Succeeds then
          SetPc(s, p, if Recorded(s.db, proc.todo.value[i].version) then Goto(proc, i + 1) else ReadFile(i))
        else if e == BusyError && a <= MAX_ATTEMPT then SetPc(s, p, Check(i, a + 1))
        else SetPc(s, p, Returned(false))
      case ReadFile(i) =>
        SetPc(s, p, if e == Succeeds then Begin(i, 0) else Returned(false))
      case Begin(i, a) =>
        if e == BusyError || (e == Succeeds && s.lock.Some?) then SetPc(s, p, Retry(i, a))
        else if e == Succeeds then SetPc(s.(lock := Some(p)), p, Script(i, a))
        else SetPc(s, p, Returned(false))
      case Script(i, a) =>
        if e == Succeeds && InRange(proc, i) && sc.run(proc.todo.value[i].file, s.db.schema).Some?
        then SetPc(s, p, Insert(i, a, sc.run(proc.todo.value[i].file, s.db.schema).value))
        else FailTx(s, p, i, a, e)
      case Insert(i, a, work) =>
        if e == Succeeds && InRange(proc, i) && !Recorded(s.db, proc.todo.value[i].version)
        then SetPc(s, p, Commit(i, a, work))
        else FailTx(s, p, i, a, e)
      case Commit(i, a, work) =>
        if InRange(proc, i) && e == Succeeds then SetPc(CommitNow(s, p, i, work), p, Goto(proc, i + 1))
        else if InRange(proc, i) && e.CommitLost? then SetPc(CommitNow(s, p, i, work), p, Rollback(i, a, e.busy))
        else FailTx(s, p, i, a, e)
      case Rollback(i, a, again) =>
        // Its error is ignored: the transaction then stays open on the pooled connection, with nobody to commit it.
        SetPc(if e == BusyError || e == OtherError then s else Unlock(s, p), p,
              if again && e != ContextDone then Retry(i, a) else Returned(false))
  }

  function Do(sc: Scripts, s: Sys, a: Action): Sys {
    match a
    case Start(p, todo) =>
      if p in s.procs || (todo.Some? && !Sorted(todo.value)) then s
      else s.(procs := s.procs[p := Proc(CreateTable(0), todo, [])])
    case Act(p, e) => if p in s.procs then Advance(sc, s, p, e) else s
  }

  function Exec(sc: Scripts, s: Sys, trace: seq<Action>): Sys {
    if trace == [] then s else Do(sc, Exec(sc, s, trace[..|trace|-1]), trace[|trace|-1])
  }

  function Fresh(sc: Scripts): Sys {
    Sys(Committed(sc.initial, []), None, map[])
  }

  // ---- Invariant ----------------------------------------------------------------------------------------------

  /** The schema the recorded scripts make, run in log order. */
  function Fold(sc: Scripts, log: seq<Migration>): Option<Schema> {
    if log == [] then Some(sc.initial)
    else
      var before := Fold(sc, log[..|log|-1]);
      if before.None? then None else sc.run(log[|log|-1].file, before.value)
  }

  ghost predicate DbOk(sc: Scripts, db: Committed) {
    && Fold(sc, db.log) == Some(db.schema)
    && forall i, j :: 0 <= i < j < |db.log| ==> db.log[i].version != db.log[j].version
  }

  /** The entry a start is working on; everything before it is recorded. */
  function Position(proc: Proc): nat
    requires proc.todo.Some?
  {
    match proc.pc
    case Check(i, _) => i
    case ReadFile(i) => i
    case Begin(i, _) => i
    case Script(i, _) => i
    case Insert(i, _, _) => i
    case Commit(i, _, _) => i
    case Rollback(i, _, _) => i
    case Returned(ok) => if ok then |proc.todo.value| else 0
    case _ => 0
  }

  predicate Busy(pc: Pc) {
    !pc.CreateTable? && !pc.ListDir? && !pc.Returned? && !pc.Crashed?
  }

  ghost predicate AllRecorded(db: Committed, ms: seq<Migration>, n: nat) {
    n <= |ms| && forall k :: 0 <= k < n ==> Recorded(db, ms[k].version)
  }

  /** A start's versions ascend, are recorded, and do not exceed the entry it works on. */
  ghost predicate AppliedOk(db: Committed, proc: Proc) {
    && (forall i, j :: 0 <= i < j < |proc.applied| ==> proc.applied[i] < proc.applied[j])
    && (forall i :: 0 <= i < |proc.applied| ==> Recorded(db, proc.applied[i]))
    && (Busy(proc.pc) && proc.todo.Some? && Position(proc) < |proc.todo.value| ==>
          forall i :: 0 <= i < |proc.applied| ==> proc.applied[i] <= proc.todo.value[Position(proc)].version)
    && (proc.pc.CreateTable? || proc.pc.ListDir? ==> proc.applied == [])
  }

  ghost predicate ProcOk(sc: Scripts, db: Committed, lock: Option<nat>, p: nat, proc: Proc) {
    && (proc.todo.None? ==> !Busy(proc.pc) && !proc.pc.ListDir?)
    && (proc.todo.Some? ==> Sorted(proc.todo.value) && AllRecorded(db, proc.todo.value, Position(proc)))
    && (Busy(proc.pc) ==> proc.todo.Some? && Position(proc) < |proc.todo.value|)
    && AppliedOk(db, proc)
    && (proc.pc.Script? || proc.pc.Insert? || proc.pc.Commit? ==> lock == Some(p))
    && (proc.pc.Insert? || proc.pc.Commit? ==>
          sc.run(proc.todo.value[proc.pc.i].file, db.schema) == Some(proc.pc.work))
    && (proc.pc.Commit? ==> !Recorded(db, proc.todo.value[proc.pc.i].version))
  }

  ghost predicate LockOk(s: Sys) {
    s.lock.Some? ==> s.lock.value in s.procs && MayHoldLock(s.procs[s.lock.value].pc)
  }

  predicate MayHoldLock(pc: Pc) {
    pc.Script? || pc.Insert? || pc.Commit? || pc.Rollback? || pc.Begin? || pc.Returned?
  }

  ghost predicate Inv(sc: Scripts, s: Sys) {
    DbOk(sc, s.db) && LockOk(s) && forall p :: p in s.procs ==> ProcOk(sc, s.db, s.lock, p, s.procs[p])
  }

  /** Nothing the other starts rely on is disturbed: the log only grows, and the schema stays while p's lock is held. */
  lemma OthersKeep(sc: Scripts, s: Sys, s': Sys, q: nat)
    requires q in s.procs && ProcOk(sc, s.db, s.lock, q, s.procs[q])
    requires s.db.log <= s'.db.log
    requires s.lock == Some(q) ==> s'.lock == s.lock && s'.db == s.db
    ensures ProcOk(sc, s'.db, s'.lock, q, s.procs[q])
  {
    forall v | Recorded(s.db, v)
      ensures Recorded(s'.db, v)
    {
      var k :| 0 <= k < |s.db.log| && s.db.log[k].version == v;
      assert s'.db.log[k].version == v;
    }
  }

  lemma CommitKeepsDb(sc: Scripts, db: Committed, m: Migration, work: Schema)
    requires DbOk(sc, db) && sc.run(m.file, db.schema) == Some(work) && !Recorded(db, m.version)
    ensures DbOk(sc, Committed(work, db.log + [m])) && Recorded(Committed(work, db.log + [m]), m.version)
  {
    var log := db.log + [m];
    assert log[..|log|-1] == db.log;
    assert log[|db.log|].version == m.version;
  }

  lemma RecordedGrows(a: Committed, b: Committed, v: int)
    requires a.log <= b.log && Recorded(a, v)
    ensures Recorded(b, v)
  {
    var k :| 0 <= k < |a.log| && a.log[k].version == v;
    assert b.log[k].version == v;
  }

  /** What a step must keep of the acting start: the database stays sound, its log grows, and so does the start. */
  ghost predicate OwnKept(sc: Scripts, s: Sys, s': Sys, p: nat) {
    p in s'.procs && DbOk(sc, s'.db) && s.db.log <= s'.db.log && ProcOk(sc, s'.db, s'.lock, p, s'.procs[p])
  }

  /** Committing entry i makes it recorded and extends the start's ascending list. */
  lemma AppliedAfterCommit(db: Committed, db': Committed, proc: Proc, pc': Pc)
    requires proc.pc.Commit? && InRange(proc, proc.pc.i) && Sorted(proc.todo.value)
    requires AppliedOk(db, proc) && AllRecorded(db, proc.todo.value, proc.pc.i)
    requires var v := proc.todo.value[proc.pc.i].version; !Recorded(db, v) && Recorded(db', v)
    requires db.log <= db'.log
    requires pc' == Goto(proc, proc.pc.i + 1) || (pc'.Rollback? && pc'.i == proc.pc.i)
    ensures var proc' := proc.(applied := proc.applied + [proc.todo.value[proc.pc.i].version], pc := pc');
            AppliedOk(db', proc') && AllRecorded(db', proc.todo.value, Position(proc'))
  {
    var v := proc.todo.value[proc.pc.i].version;
    forall u | Recorded(db, u)
      ensures Recorded(db', u) && u != v
    {
      RecordedGrows(db, db', u);
    }
    assert forall k :: 0 <= k < |proc.applied| ==> proc.applied[k] < v by {
      forall k | 0 <= k < |proc.applied|
        ensures proc.applied[k] < v
      {
        assert proc.applied[k] <= v && Recorded(db, proc.applied[k]);
      }
    }
  }

  predicate Commits(pc: Pc, e: Event) {
    pc.Commit? && (e == Succeeds || e.CommitLost?)
  }

  lemma CommittedProcOk(sc: Scripts, db: Committed, db': Committed, lock: Option<nat>, p: nat, proc: Proc, pc': Pc)
    requires ProcOk(sc, db, Some(p), p, proc) && proc.pc.Commit? && db.log <= db'.log
    requires Recorded(db', proc.todo.value[proc.pc.i].version)
    requires pc' == Goto(proc, proc.pc.i + 1) || (pc'.Rollback? && pc'.i == proc.pc.i)
    ensures ProcOk(sc, db', lock, p, proc.(applied := proc.applied + [proc.todo.value[proc.pc.i].version], pc := pc'))
  {
    AppliedAfterCommit(db, db', proc, pc');
  }

  lemma OwnCommits(sc: Scripts, s: Sys, p: nat, e: Event)
    requires Inv(sc, s) && p in s.procs && Commits(s.procs[p].pc, e)
    ensures OwnKept(sc, s, Advance(sc, s, p, e), p)
  {
    var proc := s.procs[p];
    var m := proc.todo.value[proc.pc.i];
    var db' := Committed(proc.pc.work, s.db.log + [m]);
    var pc' := if e == Succeeds then Goto(proc, proc.pc.i + 1) else Rollback(proc.pc.i, proc.pc.attempt, e.busy);
    CommitKeepsDb(sc, s.db, m, proc.pc.work);
    CommittedProcOk(sc, s.db, db', None, p, proc, pc');
    CommitEffect(sc, s, p, e, pc');
  }

  lemma CommitEffect(sc: Scripts, s: Sys, p: nat, e: Event, pc': Pc)
    requires p in s.procs && Commits(s.procs[p].pc, e) && InRange(s.procs[p], s.procs[p].pc.i)
    requires pc' == if e == Succeeds then Goto(s.procs[p], s.procs[p].pc.i + 1)
                    else Rollback(s.procs[p].pc.i, s.procs[p].pc.attempt, e.busy)
    ensures var proc := s.procs[p];
            var m := proc.todo.value[proc.pc.i];
            var s' := Advance(sc, s, p, e);
            && p in s'.procs && s'.db == Committed(proc.pc.work, s.db.log + [m]) && s'.lock == None
            && s'.procs[p] == proc.(applied := proc.applied + [m.version], pc := pc')
  {
  }

  lemma OwnStarts(sc: Scripts, s: Sys, p: nat, e: Event)
    requires Inv(sc, s) && p in s.procs && (s.procs[p].pc.CreateTable? || s.procs[p].pc.ListDir?) && e != Crash
    ensures OwnKept(sc, s, Advance(sc, s, p, e), p)
  {
  }

  lemma OwnChecks(sc: Scripts, s: Sys, p: nat, e: Event)
    requires Inv(sc, s) && p in s.procs && s.procs[p].pc.Check? && e != Crash
    ensures OwnKept(sc, s, Advance(sc, s, p, e), p)
  {
    var proc := s.procs[p];
    if e == Succeeds && Recorded(s.db, proc.todo.value[proc.pc.i].version) {
      CheckMoves(s.db, proc);
    }
  }

  lemma OwnBegins(sc: Scripts, s: Sys, p: nat, e: Event)
    requires Inv(sc, s) && p in s.procs && (s.procs[p].pc.ReadFile? || s.procs[p].pc.Begin?) && e != Crash
    ensures OwnKept(sc, s, Advance(sc, s, p, e), p)
  {
  }

  /** Past a recorded entry the start goes on to the next one. */
  lemma CheckMoves(db: Committed, proc: Proc)
    requires proc.pc.Check? && InRange(proc, proc.pc.i) && Sorted(proc.todo.value)
    requires AllRecorded(db, proc.todo.value, proc.pc.i) && AppliedOk(db, proc)
    requires Recorded(db, proc.todo.value[proc.pc.i].version)
    ensures var proc' := proc.(pc := Goto(proc, proc.pc.i + 1));
            AllRecorded(db, proc.todo.value, Position(proc')) && AppliedOk(db, proc')
  {
  }

  lemma OwnScript(sc: Scripts, s: Sys, p: nat, e: Event)
    requires Inv(sc, s) && p in s.procs && e != Crash && s.procs[p].pc.Script?
    ensures OwnKept(sc, s, Advance(sc, s, p, e), p)
  {
  }

  lemma OwnInsert(sc: Scripts, s: Sys, p: nat, e: Event)
    requires Inv(sc, s) && p in s.procs && e != Crash && s.procs[p].pc.Insert?
    ensures OwnKept(sc, s, Advance(sc, s, p, e), p)
  {
  }

  lemma OwnCommitFails(sc: Scripts, s: Sys, p: nat, e: Event)
    requires Inv(sc, s) && p in s.procs && e != Crash && s.procs[p].pc.Commit? && !Commits(s.procs[p].pc, e)
    ensures OwnKept(sc, s, Advance(sc, s, p, e), p)
  {
  }

  lemma OwnRollsBack(sc: Scripts, s: Sys, p: nat, e: Event)
    requires Inv(sc, s) && p in s.procs && s.procs[p].pc.Rollback? && e != Crash
    ensures OwnKept(sc, s, Advance(sc, s, p, e), p)
  {
  }

  lemma OwnEnds(sc: Scripts, s: Sys, p: nat, e: Event)
    requires Inv(sc, s) && p in s.procs && (e == Crash || s.procs[p].pc.Returned? || s.procs[p].pc.Crashed?)
    ensures OwnKept(sc, s, Advance(sc, s, p, e), p)
  {
  }

  lemma AdvanceOwn(sc: Scripts, s: Sys, p: nat, e: Event)
    requires Inv(sc, s) && p in s.procs
    ensures OwnKept(sc, s, Advance(sc, s, p, e), p)
  {
    var pc := s.procs[p].pc;
    if e == Crash || pc.Returned? || pc.Crashed? {
      OwnEnds(sc, s, p, e);
    } else if Commits(pc, e) {
      OwnCommits(sc, s, p, e);
    } else {
      match pc
      case CreateTable(_) => OwnStarts(sc, s, p, e);
      case ListDir => OwnStarts(sc, s, p, e);
      case Check(_, _) => OwnChecks(sc, s, p, e);
      case ReadFile(_) => OwnBegins(sc, s, p, e);
      case Begin(_, _) => OwnBegins(sc, s, p, e);
      case Rollback(_, _, _) => OwnRollsBack(sc, s, p, e);
      case Script(_, _) => OwnScript(sc, s, p, e);
      case Insert(_, _, _) => OwnInsert(sc, s, p, e);
      case _ => OwnCommitFails(sc, s, p, e);
    }
  }

  lemma AdvanceKeys(sc: Scripts, s: Sys, p: nat, e: Event)
    requires p in s.procs
    ensures Advance(sc, s, p, e).procs.Keys == s.procs.Keys
  {
  }

  /** Only the holder of the lock commits or lets go of it. */
  lemma AdvanceOthers(sc: Scripts, s: Sys, p: nat, e: Event, q: nat)
    requires Inv(sc, s) && p in s.procs && q in s.procs && q != p
    ensures var s' := Advance(sc, s, p, e);
            && s'.procs[q] == s.procs[q]
            && (s.lock == Some(q) ==> s'.lock == s.lock && s'.db == s.db)
  {
  }

  lemma AdvanceLock(sc: Scripts, s: Sys, p: nat, e: Event)
    requires Inv(sc, s) && p in s.procs
    ensures LockOk(Advance(sc, s, p, e))
  {
  }

  lemma AdvanceKeeps(sc: Scripts, s: Sys, p: nat, e: Event)
    requires Inv(sc, s) && p in s.procs
    ensures Inv(sc, Advance(sc, s, p, e)) && s.db.log <= Advance(sc, s, p, e).db.log
  {
    var s' := Advance(sc, s, p, e);
    AdvanceOwn(sc, s, p, e);
    AdvanceKeys(sc, s, p, e);
    AdvanceLock(sc, s, p, e);
    forall q | q in s'.procs
      ensures ProcOk(sc, s'.db, s'.lock, q, s'.procs[q])
    {
      if q != p {
        AdvanceOthers(sc, s, p, e, q);
        OthersKeep(sc, s, s', q);
      }
    }
  }

  lemma StartKeeps(sc: Scripts, s: Sys, p: nat, todo: Option<seq<Migration>>)
    requires Inv(sc, s)
    ensures Inv(sc, Do(sc, s, Start(p, todo)))
  {
    var s' := Do(sc, s, Start(p, todo));
    if s' != s {
      assert LockOk(s');
      forall q | q in s'.procs
        ensures ProcOk(sc, s'.db, s'.lock, q, s'.procs[q])
      {
        if q != p {
          OthersKeep(sc, s, s', q);
        }
      }
    }
  }

  lemma {:induction false} ExecKeeps(sc: Scripts, trace: seq<Action>)
    ensures Inv(sc, Exec(sc, Fresh(sc), trace))
  {
    if trace == [] {
      assert Fold(sc, []) == Some(sc.initial);
    } else {
      var s := Exec(sc, Fresh(sc), trace[..|trace|-1]);
      ExecKeeps(sc, trace[..|trace|-1]);
      match trace[|trace|-1]
      case Start(p, todo) => StartKeeps(sc, s, p, todo);
      case Act(p, e) =>
        if p in s.procs {
          AdvanceKeeps(sc, s, p, e);
        }
    }
  }

  // ---- What holds after any interleaving -----------------------------------------------------------------------

  /** Migrations take effect at most once: in every interleaving of starts, with crashes, errors, lost commit
      reports and retries at any statement, no version is recorded twice and the committed schema is what the
      recorded scripts make, run once each in log order. */
  lemma AppliedAtMostOnce(sc: Scripts, trace: seq<Action>)
    ensures var db := Exec(sc, Fresh(sc), trace).db;
            && Fold(sc, db.log) == Some(db.schema)
            && forall i, j :: 0 <= i < j < |db.log| ==> db.log[i].version != db.log[j].version
  {
    ExecKeeps(sc, trace);
  }

  /** A start that returns nil with a migrations directory found leaves every one of its versions recorded, and the
      versions it committed itself ascend strictly. */
  lemma ReturnedNil(sc: Scripts, trace: seq<Action>, p: nat)
    requires var s := Exec(sc, Fresh(sc), trace); p in s.procs
    ensures var s := Exec(sc, Fresh(sc), trace);
            && (s.procs[p].pc == Returned(true) && s.procs[p].todo.Some? ==>
                  AllRecorded(s.db, s.procs[p].todo.value, |s.procs[p].todo.value|))
            && (forall i, j :: 0 <= i < j < |s.procs[p].applied| ==> s.procs[p].applied[i] < s.procs[p].applied[j])
            && (forall i :: 0 <= i < |s.procs[p].applied| ==> Recorded(s.db, s.procs[p].applied[i]))
  {
    ExecKeeps(sc, trace);
  }

  /** A recorded version is never lost. */
  lemma {:induction false} LogOnlyGrows(sc: Scripts, trace: seq<Action>, more: seq<Action>)
    ensures Exec(sc, Fresh(sc), trace).db.log <= Exec(sc, Fresh(sc), trace + more).db.log
  {
    if more == [] {
      assert trace + more == trace;
    } else {
      var before := trace + more[..|more|-1];
      assert (trace + more)[..|trace + more|-1] == before;
      LogOnlyGrows(sc, trace, more[..|more|-1]);
      ExecKeeps(sc, before);
      var s := Exec(sc, Fresh(sc), before);
      var a := more[|more|-1];
      if a.Act? && a.p in s.procs {
        AdvanceKeeps(sc, s, a.p, a.e);
      }
    }
  }

  // ---- A ROLLBACK that fails ---------------------------------------------------------------------------------------

  /** p has let go of its transaction without ending it. */
  predicate Stuck(s: Sys, p: nat) {
    s.lock == Some(p) && p in s.procs && (s.procs[p].pc.Begin? || s.procs[p].pc.Returned?)
  }

  predicate Survives(trace: seq<Action>, p: nat) {
    forall k :: 0 <= k < |trace| ==> trace[k] != Act(p, Crash)
  }

  lemma StuckStays(sc: Scripts, s: Sys, p: nat, a: Action)
    requires Inv(sc, s) && Stuck(s, p) && a != Act(p, Crash)
    ensures Stuck(Do(sc, s, a), p) && Do(sc, s, a).db == s.db
  {
    if a.Act? && a.p in s.procs && a.p != p {
      assert ProcOk(sc, s.db, s.lock, a.p, s.procs[a.p]);
      AdvanceOthers(sc, s, a.p, a.e, p);
    }
  }

  /** A ROLLBACK that fails keeps every start, its own included, from applying anything until its process dies. */
  lemma {:induction false} FailedRollbackBlocks(sc: Scripts, trace: seq<Action>, p: nat, e: Event, more: seq<Action>)
    requires var s := Exec(sc, Fresh(sc), trace); s.lock == Some(p) && p in s.procs && s.procs[p].pc.Rollback?
    requires (e == BusyError || e == OtherError) && Survives(more, p)
    ensures var s' := Exec(sc, Fresh(sc), trace + [Act(p, e)] + more);
            Stuck(s', p) && s'.db == Exec(sc, Fresh(sc), trace).db
  {
    var all := trace + [Act(p, e)] + more;
    if more == [] {
      assert all[..|all|-1] == trace;
    } else {
      var n := |more| - 1;
      assert all[..|all|-1] == trace + [Act(p, e)] + more[..n];
      FailedRollbackBlocks(sc, trace, p, e, more[..n]);
      ExecKeeps(sc, all[..|all|-1]);
      StuckStays(sc, Exec(sc, Fresh(sc), all[..|all|-1]), p, more[n]);
    }
  }
}
