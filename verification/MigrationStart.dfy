// migrate, isMigrationApplied and applyMigration (repository/db.go) as one start runs them, alone on its database.
module MigrationStart {
  import opened Base
  import opened Migrations
  import opened MigrationRun

  type CallResult = BusyRetry.CallResult

  predicate CanApply(sc: Scripts, db: Committed, m: Migration) {
    !Recorded(db, m.version) && sc.run(m.file, db.schema).Some?
  }

  /** Applying m to a database that has not recorded it. */
  ghost predicate Applies(sc: Scripts, db: Committed, m: Migration, db': Committed) {
    && CanApply(sc, db, m)
    && db' == Committed(sc.run(m.file, db.schema).value, db.log + [m])
  }

  /** What the environment does to statement t: its error if it reports one, whether a failing COMMIT took effect
      nevertheless, and whether the context ends while waiting after it. */
  datatype Faults = Faults(error: nat -> CallResult, late: nat -> bool, done: nat -> bool)

  predicate AllReadable(ms: seq<Migration>, readable: string -> bool) {
    forall i :: 0 <= i < |ms| ==> readable(ms[i].file)
  }

  // ---- What an attempt and its retries do, statement by statement --------------------------------------------------

  /** Result, committed state and next statement. */
  datatype After = After(r: CallResult, db: Committed, tick: nat)

  function Appended(sc: Scripts, db: Committed, m: Migration): Committed
    requires sc.run(m.file, db.schema).Some?
  {
    Committed(sc.run(m.file, db.schema).value, db.log + [m])
  }

  /** One transaction that starts with statement t: BEGIN, the script, the version, COMMIT. */
  function Attempt(sc: Scripts, f: Faults, db: Committed, m: Migration, t: nat): After {
    if f.error(t) != BusyRetry.Ok then After(f.error(t), db, t + 1)
    else if f.error(t + 1) != BusyRetry.Ok then After(f.error(t + 1), db, t + 2)
    else if sc.run(m.file, db.schema).None? then After(BusyRetry.Error("script"), db, t + 2)
    else if f.error(t + 2) != BusyRetry.Ok then After(f.error(t + 2), db, t + 3)
    else if Recorded(db, m.version) then After(BusyRetry.Error("primary key"), db, t + 3)
    else
      var took := f.error(t + 3) == BusyRetry.Ok || f.late(t + 3);
      After(f.error(t + 3), if took then Appended(sc, db, m) else db, t + 4)
  }

  /** The transaction with at most retries more attempts after the first. */
  function Attempts(sc: Scripts, f: Faults, db: Committed, m: Migration, t: nat, retries: nat): After
    decreases retries
  {
    var a := Attempt(sc, f, db, m, t);
    if a.r != BusyRetry.Busy || retries == 0 || f.done(a.tick) then a
    else Attempts(sc, f, a.db, m, a.tick, retries - 1)
  }

  /** A database connection. tx is what an open transaction sees. */
  class DB {
    const sc: Scripts
    const faults: Faults
    var committed: Committed
    var tx: Option<Committed>
    var tick: nat

    constructor (sc: Scripts, faults: Faults, committed: Committed)
      ensures this.sc == sc && this.faults == faults && this.committed == committed && tx == None && tick == 0
    {
      this.sc, this.faults, this.committed, tx, tick := sc, faults, committed, None, 0;
    }

    method Begin() returns (r: CallResult)
      requires tx == None
      modifies `tx, `tick
      ensures r == faults.error(old(tick)) && tick == old(tick) + 1
      ensures tx == if r == BusyRetry.Ok then Some(committed) else None
    {
      r := faults.error(tick);
      tick := tick + 1;
      if r == BusyRetry.Ok {
        tx := Some(committed);
      }
    }

    method ExecScript(file: string) returns (r: CallResult)
      requires tx.Some?
      modifies `tx, `tick
      ensures tx.Some? && tick == old(tick) + 1
      ensures r == if faults.error(old(tick)) == BusyRetry.Ok && sc.run(file, old(tx.value.schema)).None?
                   then BusyRetry.Error("script") else faults.error(old(tick))
      ensures r == BusyRetry.Ok ==>
                tx.value == Committed(sc.run(file, old(tx.value.schema)).value, old(tx.value.log))
    {
      r := faults.error(tick);
      tick := tick + 1;
      var after := sc.run(file, tx.value.schema);
      if r == BusyRetry.Ok {
        if after.None? {
          return BusyRetry.Error("script");
        }
        tx := Some(tx.value.(schema := after.value));
      }
    }

    /** version is the primary key of schema_migrations. */
    method InsertVersion(m: Migration) returns (r: CallResult)
      requires tx.Some?
      modifies `tx, `tick
      ensures tx.Some? && tick == old(tick) + 1
      ensures r == if faults.error(old(tick)) == BusyRetry.Ok && Recorded(old(tx.value), m.version)
                   then BusyRetry.Error("primary key") else faults.error(old(tick))
      ensures r == BusyRetry.Ok ==> tx.value == old(tx.value).(log := old(tx.value.log) + [m])
    {
      r := faults.error(tick);
      tick := tick + 1;
      if r == BusyRetry.Ok {
        if Recorded(tx.value, m.version) {
          return BusyRetry.Error("primary key");
        }
        tx := Some(tx.value.(log := tx.value.log + [m]));
      }
    }

    method CommitTx() returns (r: CallResult)
      requires tx.Some?
      modifies this
      ensures r == faults.error(old(tick)) && tick == old(tick) + 1
      ensures if r == BusyRetry.Ok || faults.late(old(tick)) then tx == None && committed == old(tx.value)
              else tx == old(tx) && committed == old(committed)
    {
      r := faults.error(tick);
      if r == BusyRetry.Ok || faults.late(tick) {
        committed, tx := tx.value, None;
      }
      tick := tick + 1;
    }

    method RollbackTx()
      modifies `tx
      ensures tx == None
    {
      tx := None;
    }

    /** One attempt of applyMigration's transaction: it takes effect as a whole or not at all. */
    method AttemptTx(m: Migration) returns (r: CallResult)
      requires tx == None
      modifies this
      ensures tx == None
      ensures After(r, committed, tick) == Attempt(sc, faults, old(committed), m, old(tick))
      ensures Applies(sc, old(committed), m, committed) || (r != BusyRetry.Ok && committed == old(committed))
    {
      r := Begin();
      if r != BusyRetry.Ok {
        return;
      }
      r := ExecScript(m.file);
      if r != BusyRetry.Ok {
        RollbackTx();
        return;
      }
      r := InsertVersion(m);
      if r != BusyRetry.Ok {
        RollbackTx();
        return;
      }
      r := CommitTx();
      if r != BusyRetry.Ok {
        RollbackTx();
      }
    }

    /** The retry loop around the transaction; a commit that took effect but reported busy is not repeated, since the
        version is recorded by then. */
    method ApplyMigration(m: Migration, readable: bool) returns (ok: bool)
      requires tx == None
      modifies this
      ensures tx == None
      ensures Applies(sc, old(committed), m, committed) || (!ok && committed == old(committed))
      ensures !readable ==> !ok && tick == old(tick)
      ensures readable ==>
                var a := Attempts(sc, faults, old(committed), m, old(tick), 5);
                (ok <==> a.r == BusyRetry.Ok) && committed == a.db && tick == a.tick
    {
      if !readable {
        return false;
      }
      ghost var all := Attempts(sc, faults, committed, m, tick, 5);
      for attempt := 0 to |BusyRetry.DELAYS| + 1
        invariant tx == None
        invariant committed == old(committed) || Applies(sc, old(committed), m, committed)
        invariant attempt <= 5 && all == Attempts(sc, faults, committed, m, tick, 5 - attempt)
      {
        ghost var before := committed;
        var r := AttemptTx(m);
        if Applies(sc, before, m, committed) {
          AppliesRecords(sc, old(committed), m, before);
        }
        if r == BusyRetry.Ok {
          return true;
        }
        if r != BusyRetry.Busy || attempt == |BusyRetry.DELAYS| || faults.done(tick) {
          return false;
        }
      }
      ok := false;
    }

    /** The first query is not part of the retry loop that follows a busy error. */
    method IsMigrationApplied(version: int) returns (ok: bool, applied: bool)
      modifies `tick
      ensures ok ==> applied == Recorded(committed, version)
      ensures ok <==> faults.error(old(tick)) == BusyRetry.Ok ||
                      (faults.error(old(tick)) == BusyRetry.Busy && Endures(faults, old(tick) + 1))
    {
      var err := faults.error(tick);
      tick := tick + 1;
      if err == BusyRetry.Ok {
        return true, Recorded(committed, version);
      }
      if err != BusyRetry.Busy {
        return false, false;
      }
      var start, f := tick, faults;
      var fn, done := (k: nat) => f.error(start + k), (k: nat) => f.done(start + k);
      var r, calls, waited := BusyRetry.WithSQLiteBusyRetry(fn, done);
      tick := tick + calls;
      EnduresIff(f, start, fn, done, r, calls);
      if r != BusyRetry.Nil {
        return false, false;
      }
      return true, Recorded(committed, version);
    }

    method CreateVersionTable() returns (ok: bool)
      modifies `tick
      ensures ok <==> Endures(faults, old(tick))
    {
      var start, f := tick, faults;
      var fn, done := (k: nat) => f.error(start + k), (k: nat) => f.done(start + k);
      var r, calls, waited := BusyRetry.WithSQLiteBusyRetry(fn, done);
      tick := tick + calls;
      EnduresIff(f, start, fn, done, r, calls);
      ok := r == BusyRetry.Nil;
    }

    /** One start. todo is the collected migration list, None when no directory is found; listed says whether the
        directory can be read, readable which of its files can. When it returns nil, every unrecorded script has run
        once, in order; when it fails, starting again has the same outcome ahead of it as this start had. When the
        database is only busy, and never six attempts in a row, it fails only when a script does. */
    method Migrate(todo: Option<seq<Migration>>, listed: bool, readable: string -> bool) returns (ok: bool)
      requires tx == None
      modifies this
      ensures tx == None && old(committed.log) <= committed.log
      ensures todo.None? ==> committed == old(committed)
      ensures todo.Some? && ok ==> Sequential(sc, old(committed), todo.value, 0) == Some(committed)
      ensures todo.Some? ==> Sequential(sc, committed, todo.value, 0) == Sequential(sc, old(committed), todo.value, 0)
      ensures JustBusy(faults) && (todo.Some? ==> listed && AllReadable(todo.value, readable)) ==>
                (ok <==> todo.Some? ==> Sequential(sc, old(committed), todo.value, 0).Some?)
    {
      ok := CreateVersionTable();
      if JustBusy(faults) {
        BusyEnds(faults, old(tick), 0);
      }
      if !ok || todo.None? {
        return;
      }
      if !listed {
        return false;
      }
      var ms := todo.value;
      for i := 0 to |ms|
        invariant tx == None && old(committed.log) <= committed.log && AllRecorded(committed, ms, i)
        invariant Sequential(sc, committed, ms, i) == Sequential(sc, old(committed), ms, 0)
      {
        SkipsRecorded(sc, committed, ms, i);
        ghost var now := tick;
        var checked, applied := IsMigrationApplied(ms[i].version);
        if JustBusy(faults) {
          BusyEnds(faults, now + 1, 0);
        }
        if !checked {
          return false;
        }
        if applied {
          continue;
        }
        ghost var before := committed;
        now := tick;
        var done := ApplyMigration(ms[i], readable(ms[i].file));
        if JustBusy(faults) && CanApply(sc, before, ms[i]) {
          BusyApplies(sc, faults, before, ms[i], now);
        }
        if committed != before {
          AppliedMoves(sc, before, committed, ms, i);
        }
        if !done {
          SkipsRecorded(sc, committed, ms, if committed != before then i + 1 else i);
          return false;
        }
      }
      SkipsRecorded(sc, committed, ms, |ms|);
      ok := true;
    }
  }

  // ---- Success in spite of busy errors -----------------------------------------------------------------------------

  /** A statement retried from t on is busy n times, at most five, with the context alive, and then succeeds. */
  predicate Persists(f: Faults, t: nat, n: nat) {
    n <= 5 && f.error(t + n) == BusyRetry.Ok && 
      forall u :: t <= u < t + n ==> f.error(u) == BusyRetry.Busy && !f.done(u)
  }

  ghost predicate Endures(f: Faults, t: nat) {
    exists n: nat :: Persists(f, t, n)
  }

  lemma EnduresIff(f: Faults, t: nat, fn: nat -> CallResult, done: nat -> bool, r: BusyRetry.RetryResult, calls: nat)
    requires forall k: nat :: fn(k) == f.error(t + k) && done(k) == f.done(t + k)
    requires 1 <= calls <= 6 && forall k :: 0 <= k < calls - 1 ==> fn(k) == BusyRetry.Busy && !done(k)
    requires r == BusyRetry.Nil <==> fn(calls - 1) == BusyRetry.Ok
    requires fn(calls - 1) == BusyRetry.Busy ==> calls == 6 || done(calls - 1)
    ensures r == BusyRetry.Nil <==> Endures(f, t)
  {
    var last := t + calls - 1;
    assert f.error(last) == fn(calls - 1) && f.done(last) == done(calls - 1);
    forall u | t <= u < last
      ensures f.error(u) == BusyRetry.Busy && !f.done(u)
    {
      assert f.error(u) == fn(u - t) && f.done(u) == done(u - t);
    }
    if r == BusyRetry.Nil {
      assert Persists(f, t, calls - 1);
    }
    if n: nat :| Persists(f, t, n) {
      var u := t + n;
      assert f.error(u) == BusyRetry.Ok;
      assert u <= last;
    }
  }

  /** After an application the version is recorded, so it cannot be applied again. */
  lemma AppliesRecords(sc: Scripts, db: Committed, m: Migration, db': Committed)
    ensures Applies(sc, db, m, db') ==> Recorded(db', m.version)
  {
    if Applies(sc, db, m, db') {
      assert db'.log[|db.log|] == m;
    }
  }

  lemma AppliedMoves(sc: Scripts, db: Committed, db': Committed, ms: seq<Migration>, i: nat)
    requires i < |ms| && AllRecorded(db, ms, i) && Applies(sc, db, ms[i], db')
    ensures db.log <= db'.log && AllRecorded(db', ms, i + 1)
    ensures Sequential(sc, db', ms, i + 1) == Sequential(sc, db, ms, i)
  {
    AppliesRecords(sc, db, ms[i], db');
    forall k | 0 <= k < i
      ensures Recorded(db', ms[k].version)
    {
      RecordedGrows(db, db', ms[k].version);
    }
  }

  /** Entries that are recorded already are passed over. */
  lemma {:induction false} SkipsRecorded(sc: Scripts, db: Committed, ms: seq<Migration>, i: nat)
    requires AllRecorded(db, ms, i)
    ensures Sequential(sc, db, ms, i) == Sequential(sc, db, ms, 0)
  {
    if i > 0 {
      assert Recorded(db, ms[i-1].version);
      SkipsRecorded(sc, db, ms, i - 1);
    }
  }

  /** The attempts that start with statement t end busy, at their first to fourth statement, as lens says one after the
      other; the context stays alive and no busy COMMIT has taken effect. */
  ghost predicate BusyAttempts(f: Faults, t: nat, lens: seq<nat>)
    decreases |lens|
  {
    lens == [] || (BusyAttempt(f, t, lens[0]) && BusyAttempts(f, t + lens[0], lens[1..]))
  }

  predicate BusyAttempt(f: Faults, t: nat, len: nat) {
    && 1 <= len <= 4 && (forall u :: t <= u < t + len - 1 ==> f.error(u) == BusyRetry.Ok)
    && f.error(t + len - 1) == BusyRetry.Busy && !f.done(t + len) && (len == 4 ==> !f.late(t + 3))
  }

  function Total(lens: seq<nat>): nat {
    if lens == [] then 0 else lens[0] + Total(lens[1..])
  }

  predicate FourOk(f: Faults, t: nat) {
    forall u :: t <= u < t + 4 ==> f.error(u) == BusyRetry.Ok
  }

  lemma BusyAttemptIs(sc: Scripts, f: Faults, db: Committed, m: Migration, t: nat, len: nat)
    requires CanApply(sc, db, m) && BusyAttempt(f, t, len)
    ensures Attempt(sc, f, db, m, t) == After(BusyRetry.Busy, db, t + len)
  {
  }

  lemma OneMoreAttempt(sc: Scripts, f: Faults, db: Committed, m: Migration, t: nat, retries: nat, u: nat)
    requires Attempt(sc, f, db, m, t) == After(BusyRetry.Busy, db, u) && !f.done(u) && retries > 0
    ensures Attempts(sc, f, db, m, t, retries) == Attempts(sc, f, db, m, u, retries - 1)
  {
  }

  lemma LastAttempt(sc: Scripts, f: Faults, db: Committed, m: Migration, t: nat, retries: nat, a: After)
    requires Attempt(sc, f, db, m, t) == a && (a.r != BusyRetry.Busy || retries == 0)
    ensures Attempts(sc, f, db, m, t, retries) == a
  {
  }

  /** Busy attempts change nothing but the number of attempts left. */
  lemma {:induction false} BusyAttemptsPass(sc: Scripts, f: Faults, db: Committed, m: Migration, t: nat,
                                            lens: seq<nat>, u: nat, left: nat)
    requires CanApply(sc, db, m) && BusyAttempts(f, t, lens) && u == t + Total(lens)
    ensures Attempts(sc, f, db, m, t, left + |lens|) == Attempts(sc, f, db, m, u, left)
    decreases |lens|
  {
    if lens != [] {
      BusyAttemptIs(sc, f, db, m, t, lens[0]);
      BusyAttemptsPass(sc, f, db, m, t + lens[0], lens[1..], u, left);
      OneMoreAttempt(sc, f, db, m, t, left + |lens|, t + lens[0]);
    }
  }

  /** Whatever the first attempts, at most five of them, ran into, the migration is applied if they only found the
      database busy and the next attempt, from statement u, meets no error. */
  lemma AppliedAfterBusy(sc: Scripts, f: Faults, db: Committed, m: Migration, t: nat, lens: seq<nat>, u: nat)
    requires CanApply(sc, db, m) && BusyAttempts(f, t, lens) && |lens| <= 5 && u == t + Total(lens) && FourOk(f, u)
    ensures Attempts(sc, f, db, m, t, 5) == After(BusyRetry.Ok, Appended(sc, db, m), u + 4)
  {
    BusyAttemptsPass(sc, f, db, m, t, lens, u, 5 - |lens|);
    LastAttempt(sc, f, db, m, u, 5 - |lens|, After(BusyRetry.Ok, Appended(sc, db, m), u + 4));
  }

  /** There is no seventh attempt. */
  lemma SixAttemptsAtMost(sc: Scripts, f: Faults, db: Committed, m: Migration, t: nat, lens: seq<nat>, len: nat, u: nat)
    requires CanApply(sc, db, m) && BusyAttempts(f, t, lens) && |lens| == 5 && u == t + Total(lens)
    requires BusyAttempt(f, u, len)
    ensures Attempts(sc, f, db, m, t, 5) == After(BusyRetry.Busy, db, u + len)
  {
    BusyAttemptsPass(sc, f, db, m, t, lens, u, 5 - |lens|);
    BusyAttemptIs(sc, f, db, m, u, len);
    LastAttempt(sc, f, db, m, u, 0, After(BusyRetry.Busy, db, u + len));
  }

  /** The attempt that starts with statement t meets an error other than busy at its len-th statement. */
  predicate HardAttempt(f: Faults, t: nat, len: nat) {
    && 1 <= len <= 4 && (forall u :: t <= u < t + len - 1 ==> f.error(u) == BusyRetry.Ok)
    && f.error(t + len - 1).Error?
  }

  lemma HardAttemptIs(sc: Scripts, f: Faults, db: Committed, m: Migration, t: nat, len: nat) returns (a: After)
    requires CanApply(sc, db, m) && HardAttempt(f, t, len)
    ensures a == Attempt(sc, f, db, m, t) && a.r == f.error(t + len - 1) && a.tick == t + len
    ensures a.db == db || (len == 4 && f.late(t + 3))
  {
    a := Attempt(sc, f, db, m, t);
  }

  /** Any other error ends the attempts at once. */
  lemma HardErrorEnds(sc: Scripts, f: Faults, db: Committed, m: Migration, t: nat, lens: seq<nat>, len: nat, u: nat)
    requires CanApply(sc, db, m) && BusyAttempts(f, t, lens) && |lens| <= 5 && u == t + Total(lens)
    requires HardAttempt(f, u, len)
    ensures var a := Attempts(sc, f, db, m, t, 5);
            a.r == f.error(u + len - 1) && a.tick == u + len && (a.db == db || (len == 4 && f.late(u + 3)))
  {
    BusyAttemptsPass(sc, f, db, m, t, lens, u, 5 - |lens|);
    var a := HardAttemptIs(sc, f, db, m, u, len);
    LastAttempt(sc, f, db, m, u, 5 - |lens|, a);
  }

  ghost predicate ClearsUp(f: Faults, t: nat, lens: seq<nat>) {
    |lens| <= 5 && BusyAttempts(f, t, lens) && FourOk(f, t + Total(lens))
  }

  /** applyMigration applies a migration that can be applied exactly when at most five attempts end busy and the next
      one meets no error. */
  lemma AppliedIff(sc: Scripts, f: Faults, db: Committed, m: Migration, t: nat)
    requires CanApply(sc, db, m)
    ensures Attempts(sc, f, db, m, t, 5).r == BusyRetry.Ok <==> exists lens :: ClearsUp(f, t, lens)
  {
    if Attempts(sc, f, db, m, t, 5).r == BusyRetry.Ok {
      var lens := BusyBefore(sc, f, db, m, t, 5);
      assert ClearsUp(f, t, lens);
    } else if lens :| ClearsUp(f, t, lens) {
      AppliedAfterBusy(sc, f, db, m, t, lens, t + Total(lens));
    }
  }

  lemma {:induction false} BusyBefore(sc: Scripts, f: Faults, db: Committed, m: Migration, t: nat, retries: nat)
    returns (lens: seq<nat>)
    requires CanApply(sc, db, m) && Attempts(sc, f, db, m, t, retries).r == BusyRetry.Ok
    ensures |lens| <= retries && BusyAttempts(f, t, lens) && FourOk(f, t + Total(lens))
    decreases retries
  {
    var a := Attempt(sc, f, db, m, t);
    if a.r == BusyRetry.Ok {
      lens := [];
    } else {
      var len := a.tick - t;
      if a.db != db {
        assert a.db.log[|db.log|] == m;
        RecordedFails(sc, f, a.db, m, a.tick, retries - 1);
      }
      var rest := BusyBefore(sc, f, db, m, a.tick, retries - 1);
      lens := [len] + rest;
      assert lens[1..] == rest;
      assert BusyAttempt(f, t, len);
    }
  }

  /** What is recorded already is not applied again, however often it is tried. */
  lemma {:induction false} RecordedFails(sc: Scripts, f: Faults, db: Committed, m: Migration, t: nat, retries: nat)
    requires Recorded(db, m.version)
    ensures Attempts(sc, f, db, m, t, retries).r != BusyRetry.Ok
    decreases retries
  {
    var a := Attempt(sc, f, db, m, t);
    if retries > 0 && a.r == BusyRetry.Busy && !f.done(a.tick) {
      RecordedFails(sc, f, a.db, m, a.tick, retries - 1);
    }
  }

  lemma {:induction false} BusyAttemptsMore(f: Faults, t: nat, lens: seq<nat>, len: nat)
    requires BusyAttempts(f, t, lens) && BusyAttempt(f, t + Total(lens), len)
    ensures BusyAttempts(f, t, lens + [len]) && Total(lens + [len]) == Total(lens) + len
    decreases |lens|
  {
    var all := lens + [len];
    if lens == [] {
      assert all[1..] == [];
    } else {
      assert all[1..] == lens[1..] + [len];
      BusyAttemptsMore(f, t + lens[0], lens[1..], len);
    }
  }

  /** The database may be busy, but never for six attempts in a row; nothing else goes wrong. */
  ghost predicate JustBusy(f: Faults) {
    && (forall t: nat :: !f.error(t).Error?)
    && (forall t: nat :: f.error(t) == BusyRetry.Busy ==> !f.late(t) && !f.done(t) && !f.done(t + 1))
    && (forall t: nat, lens :: BusyAttempts(f, t, lens) ==> |lens| <= 5)
  }

  /** Without any error that is so. */
  lemma NoErrorsAtAll(f: Faults)
    requires forall t: nat :: f.error(t) == BusyRetry.Ok
    ensures JustBusy(f)
  {
    forall t: nat, lens | BusyAttempts(f, t, lens)
      ensures lens == []
    {
    }
  }

  lemma {:induction false} BusyEnds(f: Faults, t: nat, n: nat)
    requires JustBusy(f) && n <= 5 && forall u :: t <= u < t + n ==> f.error(u) == BusyRetry.Busy
    ensures Endures(f, t)
    decreases 5 - n
  {
    if f.error(t + n) == BusyRetry.Ok {
      assert Persists(f, t, n);
    } else {
      assert !f.error(t + n).Error?;
      SingleBusy(f, t, n + 1);
      BusyEnds(f, t, n + 1);
    }
  }

  lemma {:induction false} SingleBusy(f: Faults, t: nat, n: nat)
    requires JustBusy(f) && forall u :: t <= u < t + n ==> f.error(u) == BusyRetry.Busy
    ensures n <= 5
  {
    var ones := seq(n, i => 1);
    SingleAttempts(f, t, n);
    assert BusyAttempts(f, t, ones);
  }

  lemma {:induction false} SingleAttempts(f: Faults, t: nat, n: nat)
    requires JustBusy(f) && forall u :: t <= u < t + n ==> f.error(u) == BusyRetry.Busy
    ensures BusyAttempts(f, t, seq(n, i => 1))
    decreases n
  {
    if n > 0 {
      var ones: seq<nat> := seq(n, i => 1);
      assert ones[1..] == seq(n - 1, i => 1);
      assert f.error(t) == BusyRetry.Busy;
      SingleAttempts(f, t + 1, n - 1);
    }
  }

  lemma BusyApplies(sc: Scripts, f: Faults, db: Committed, m: Migration, t: nat)
    requires JustBusy(f) && CanApply(sc, db, m)
    ensures Attempts(sc, f, db, m, t, 5).r == BusyRetry.Ok
  {
    var lens := BusyUntilClear(f, t, [], t);
    AppliedAfterBusy(sc, f, db, m, t, lens, t + Total(lens));
  }

  lemma {:induction false} BusyUntilClear(f: Faults, t: nat, seen: seq<nat>, u: nat) returns (lens: seq<nat>)
    requires JustBusy(f) && BusyAttempts(f, t, seen) && u == t + Total(seen) && |seen| <= 5
    ensures ClearsUp(f, t, lens)
    decreases 5 - |seen|
  {
    var len := BusyOrClear(f, u);
    if len == 0 {
      lens := seen;
    } else {
      BusyAttemptsMore(f, t, seen, len);
      FiveAtMost(f, t, seen + [len]);
      lens := BusyUntilClear(f, t, seen + [len], u + len);
    }
  }

  /** The next attempt meets no error, or ends busy at statement len. */
  lemma BusyOrClear(f: Faults, t: nat) returns (len: nat)
    requires JustBusy(f)
    ensures if len == 0 then FourOk(f, t) else BusyAttempt(f, t, len)
  {
    assert !f.error(t).Error? && !f.error(t + 1).Error? && !f.error(t + 2).Error? && !f.error(t + 3).Error?;
    len := if f.error(t) != BusyRetry.Ok then 1 else if f.error(t + 1) != BusyRetry.Ok then 2
           else if f.error(t + 2) != BusyRetry.Ok then 3 else if f.error(t + 3) != BusyRetry.Ok then 4 else 0;
  }

  lemma FiveAtMost(f: Faults, t: nat, lens: seq<nat>)
    requires JustBusy(f) && BusyAttempts(f, t, lens)
    ensures |lens| <= 5
  {
  }
}
