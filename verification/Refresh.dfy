// The refresh token of a library: RefreshCoordinator and its users (refresh_coordinator.go,
// handler/media.go Import, server.go checkAndRefreshLibraries).
module Refresh {
  import opened Base

  /** The coordinator; each method runs under its mutex. finishes records the calls of Finish. */
  class RefreshCoordinator {
    var running: map<string, bool>
    ghost var finishes: seq<string>

    constructor ()
      ensures running == map[] && finishes == []
    {
      running := map[];
      finishes := [];
    }

    predicate Holds(libraryId: string)
      reads this
    {
      libraryId in running && running[libraryId]
    }

    method TryStart(libraryId: string) returns (ok: bool)
      modifies this
      ensures ok == !old(Holds(libraryId))
      ensures running == if ok then old(running)[libraryId := true] else old(running)
      ensures finishes == old(finishes)
    {
      if libraryId in running && running[libraryId] {
        return false;
      }
      running := running[libraryId := true];
      return true;
    }

    method Finish(libraryId: string)
      modifies this
      ensures running == old(running) - {libraryId}
      ensures finishes == old(finishes) + [libraryId]
    {
      running := running - {libraryId};
      finishes := finishes + [libraryId];
    }

    method IsRunning(libraryId: string) returns (r: bool)
      ensures r == Holds(libraryId)
    {
      r := libraryId in running && running[libraryId];
    }
  }

  /** What ImportRequest returns: the job, an AppError with its HTTP status, or another error. */
  datatype JobOutcome = Started | AppError(code: nat) | OtherError

  /** ImportRequest: 404 for a source path that cannot be listed, 500 for a job that cannot be created. */
  function ImportRequest(readable: bool, created: bool): JobOutcome {
    if !readable then AppError(404) else if !created then AppError(500) else Started
  }

  /** What the checks of one Import request find; decodes says that the body decodes and names a source path. */
  datatype Request = Request(
    unrestricted: bool, decodes: bool, providerId: string, libraryId: string, libraryAllowed: bool,
    libraryFound: bool, providerType: Option<string>, providerRecord: bool, s3Client: bool, job: JobOutcome)

  datatype Response = Success | Failure(status: nat)

  predicate IsLocal(r: Request) {
    r.providerId in {"", "local"}
  }

  /** The request is turned away before it asks for the token. */
  predicate TurnedAway(r: Request) {
    !r.unrestricted || !r.decodes || r.libraryId == "" || !r.libraryAllowed
  }

  /** Everything between TryStart and ImportRequest succeeds. */
  predicate Ready(r: Request) {
    r.libraryFound && (IsLocal(r) || (r.providerType == Some("s3") && r.providerRecord && r.s3Client))
  }

  predicate Marked(running: map<string, bool>, l: string) {
    l in running && running[l]
  }

  /** The coordinator's map after one Import request. */
  function AfterImport(running: map<string, bool>, r: Request): map<string, bool> {
    if TurnedAway(r) || Marked(running, r.libraryId) then running
    else if Ready(r) && r.job == Started then running[r.libraryId := true]
    else running - {r.libraryId}
  }

  /** MediaHandler.Import: the status of every exit. A success keeps the token; every failing exit after TryStart gives
      it back exactly once, and every other exit leaves it alone. */
  method Import(c: RefreshCoordinator, r: Request) returns (response: Response)
    modifies c
    ensures !r.unrestricted ==> response == Failure(403)
    ensures r.unrestricted && (!r.decodes || r.libraryId == "") ==> response == Failure(400)
    ensures r.unrestricted && r.decodes && r.libraryId != "" && !r.libraryAllowed ==> response == Failure(404)
    ensures r.unrestricted && r.decodes && r.libraryId != "" && r.libraryAllowed && old(c.Holds(r.libraryId)) ==>
              response == Failure(409)
    ensures r.unrestricted && r.decodes && r.libraryId != "" && r.libraryAllowed && !old(c.Holds(r.libraryId)) ==>
              response ==
              if r.libraryFound && (r.providerId in {"", "local"} ||
                  (r.providerType == Some("s3") && r.providerRecord && r.s3Client)) then
                match r.job
                case Started => Success
                case AppError(code) => Failure(if code == 0 then 500 else code)
                case OtherError => Failure(500)
              else Failure(if r.libraryFound && r.providerType == Some("s3") then 500 else 400)
    ensures c.running == AfterImport(old(c.running), r)
    ensures response == Success ==> c.running == old(c.running)[r.libraryId := true] && c.finishes == old(c.finishes)
    ensures TurnedAway(r) || old(c.Holds(r.libraryId)) ==> c.running == old(c.running) && c.finishes == old(c.finishes)
    ensures !TurnedAway(r) && !old(c.Holds(r.libraryId)) && response != Success ==>
              c.running == old(c.running) - {r.libraryId} && c.finishes == old(c.finishes) + [r.libraryId]
  {
    if !r.unrestricted {
      return Failure(403);
    }
    if !r.decodes {
      return Failure(400);
    }
    var providerId := if r.providerId == "" then "local" else r.providerId;
    if r.libraryId == "" {
      return Failure(400);
    }
    if !r.libraryAllowed {
      return Failure(404);
    }
    var started := c.TryStart(r.libraryId);
    if !started {
      return Failure(409);
    }
    if !r.libraryFound {
      c.Finish(r.libraryId);
      return Failure(400);
    }
    if providerId != "local" {
      if r.providerType.None? {
        c.Finish(r.libraryId);
        return Failure(400);
      }
      if r.providerType.value != "s3" {
        c.Finish(r.libraryId);
        return Failure(400);
      }
      if !r.providerRecord {
        c.Finish(r.libraryId);
        return Failure(500);
      }
      if !r.s3Client {
        c.Finish(r.libraryId);
        return Failure(500);
      }
    }
    if r.job != Started {
      c.Finish(r.libraryId);
      if r.job.AppError? {
        return Failure(if r.job.code == 0 then 500 else r.job.code);
      }
      return Failure(500);
    }
    response := Success;
  }

  /** What the scheduler reads of a library: its interval setting, when it can be read as a number, and its last
      refresh. */
  datatype Library = Library(id: string, interval: Option<int>, lastRefresh: int)

  predicate Due(lib: Library, now: int) {
    lib.interval.Some? && lib.interval.value > 0 && now - lib.lastRefresh >= lib.interval.value
  }

  ghost predicate DueAmong(libs: seq<Library>, now: nat -> int, n: nat, id: string)
    requires n <= |libs|
  {
    exists i :: 0 <= i < n && libs[i].id == id && libs[i].interval.Some? && libs[i].interval.value > 0 &&
      now(i) - libs[i].lastRefresh >= libs[i].interval.value
  }

  /** The coordinator's map after the scheduler looked at the first n libraries. */
  function AfterCheck(running: map<string, bool>, libs: seq<Library>, now: nat -> int, n: nat): map<string, bool>
    requires n <= |libs|
  {
    if n == 0 then running
    else
      var before := AfterCheck(running, libs, now, n - 1);
      var lib := libs[n-1];
      if Due(lib, now(n - 1)) && !Marked(before, lib.id) then before[lib.id := true] else before
  }

  lemma DueOneMore(libs: seq<Library>, now: nat -> int, n: nat)
    requires n < |libs|
    ensures forall l :: DueAmong(libs, now, n + 1, l) <==>
            DueAmong(libs, now, n, l) || (libs[n].id == l && Due(libs[n], now(n)))
  {
    forall l | DueAmong(libs, now, n, l)
      ensures DueAmong(libs, now, n + 1, l)
    {
      var i :| 0 <= i < n && libs[i].id == l && Due(libs[i], now(i));
      assert libs[i].id == l && i < n + 1;
    }
  }

  /** checkAndRefreshLibraries: the libraries a worker is started for, each with its token taken; now(i) is the time the
      i-th library is looked at. A worker is started for a library exactly when it is due and nobody held its token, and
      only once however often it is listed. */
  method CheckAndRefreshLibraries(c: RefreshCoordinator, libs: seq<Library>,
                                  now: nat -> int) returns (workers: seq<string>)
    modifies c
    ensures forall l :: l in workers <==> DueAmong(libs, now, |libs|, l) && !old(c.Holds(l))
    ensures forall i, j :: 0 <= i < j < |workers| ==> workers[i] != workers[j]
    ensures forall l :: c.Holds(l) <==> old(c.Holds(l)) || l in workers
    ensures c.running == AfterCheck(old(c.running), libs, now, |libs|)
    ensures c.finishes == old(c.finishes)
  {
    workers := [];
    for i := 0 to |libs|
      invariant forall l :: l in workers <==> DueAmong(libs, now, i, l) && !old(c.Holds(l))
      invariant forall k, j :: 0 <= k < j < |workers| ==> workers[k] != workers[j]
      invariant forall l :: c.Holds(l) <==> old(c.Holds(l)) || l in workers
      invariant c.running == AfterCheck(old(c.running), libs, now, i)
      invariant c.finishes == old(c.finishes)
    {
      var lib := libs[i];
      DueOneMore(libs, now, i);
      if lib.interval.None? || lib.interval.value <= 0 {
        continue;
      }
      if now(i) - lib.lastRefresh < lib.interval.value {
        continue;
      }
      var started := c.TryStart(lib.id);
      if !started {
        continue;
      }
      workers := workers + [lib.id];
    }
  }

  /** The worker's body: whatever its import does, the deferred Finish gives the token back; the time of refresh is
      stored only after a successful import request. */
  method RunWorker(c: RefreshCoordinator, libraryId: string, importOk: bool, now: int) returns (stored: Option<int>)
    modifies c
    ensures c.running == old(c.running) - {libraryId} && c.finishes == old(c.finishes) + [libraryId]
    ensures stored == if importOk then Some(now) else None
  {
    stored := None;
    if importOk {
      stored := Some(now);
    }
    c.Finish(libraryId);
  }

  // ---- Interleavings -------------------------------------------------------------------------------------------

  /** An Import request or a scheduler worker, before it asks for the token, while it runs with it, and after. */
  datatype Stage = Asking | Holding | Refused | GaveBack | KeptForJob
  datatype User = User(isImport: bool, libraryId: string, stage: Stage)

  datatype Sys = Sys(running: map<string, bool>, users: map<nat, User>)

  /** Arrive: a request past its checks or a due library of the scheduler; Ask: TryStart; Fail: a failing exit of Import
      after TryStart; Succeed: its success; WorkerEnds: the worker's deferred Finish, whatever its import did. */
  datatype Event =
    | Arrive(u: nat, isImport: bool, libraryId: string)
    | Ask(u: nat)
    | Fail(u: nat)
    | Succeed(u: nat)
    | WorkerEnds(u: nat)

  predicate IsRunning(s: Sys, l: string) {
    Marked(s.running, l)
  }

  function Stand(s: Sys, u: nat, stage: Stage): map<nat, User>
    requires u in s.users
  {
    s.users[u := s.users[u].(stage := stage)]
  }

  /** The user whose next event calls Finish. */
  predicate Finishes(s: Sys, e: Event) {
    (e.Fail? || e.WorkerEnds?) && e.u in s.users && s.users[e.u].stage == Holding &&
        (e.Fail? <==> s.users[e.u].isImport)
  }

  function Do(s: Sys, e: Event): Sys {
    match e
    case Arrive(u, isImport, l) => if u in s.users then s else s.(users := s.users[u := User(isImport, l, Asking)])
    case Ask(u) =>
      if u !in s.users || s.users[u].stage != Asking then s
      else if IsRunning(s, s.users[u].libraryId) then s.(users := Stand(s, u, Refused))
      else Sys(s.running[s.users[u].libraryId := true], Stand(s, u, Holding))
    case Succeed(u) =>
      if u in s.users && s.users[u].stage == Holding && s.users[u].isImport then
          s.(users := Stand(s, u, KeptForJob)) else s
    case _ =>
      if Finishes(s, e) then Sys(s.running - {s.users[e.u].libraryId}, Stand(s, e.u, GaveBack)) else s
  }

  function Exec(trace: seq<Event>): Sys {
    if trace == [] then Sys(map[], map[]) else Do(Exec(trace[..|trace|-1]), trace[|trace|-1])
  }

  /** u has taken l's token and not given it back. */
  predicate Owns(s: Sys, u: nat, l: string) {
    u in s.users && s.users[u].libraryId == l && (s.users[u].stage == Holding || s.users[u].stage == KeptForJob)
  }

  ghost predicate Owned(s: Sys, l: string) {
    exists u :: Owns(s, u, l)
  }

  ghost predicate Inv(s: Sys) {
    && (forall u, v, l :: Owns(s, u, l) && Owns(s, v, l) ==> u == v)
    && (forall u, l :: Owns(s, u, l) ==> IsRunning(s, l))
    && (forall l :: IsRunning(s, l) ==> Owned(s, l))
  }

  lemma DoKeeps(s: Sys, e: Event)
    requires Inv(s)
    ensures Inv(Do(s, e))
  {
    var s' := Do(s, e);
    if e.Ask? && e.u in s.users && s.users[e.u].stage == Asking && !IsRunning(s, s.users[e.u].libraryId) {
      AskKeeps(s, e.u);
    } else if Finishes(s, e) {
      FinishKeeps(s, e);
    } else {
      forall u, l
        ensures Owns(s', u, l) <==> Owns(s, u, l)
      {
      }
      forall l | IsRunning(s', l)
        ensures Owned(s', l)
      {
        assert IsRunning(s, l) && Owned(s, l);
        var u :| Owns(s, u, l);
        assert Owns(s', u, l);
      }
    }
  }

  lemma AskKeeps(s: Sys, u: nat)
    requires Inv(s) && u in s.users && s.users[u].stage == Asking && !IsRunning(s, s.users[u].libraryId)
    ensures Inv(Do(s, Ask(u)))
  {
    var s' := Do(s, Ask(u));
    forall v, l
      ensures Owns(s', v, l) <==> if v == u then l == s.users[u].libraryId else Owns(s, v, l)
    {
    }
    forall l | IsRunning(s', l)
      ensures Owned(s', l)
    {
      if l == s.users[u].libraryId {
        assert Owns(s', u, l);
      } else {
        assert IsRunning(s, l) && Owned(s, l);
        var v :| Owns(s, v, l);
        assert Owns(s', v, l);
      }
    }
  }

  lemma FinishKeeps(s: Sys, e: Event)
    requires Inv(s) && Finishes(s, e)
    ensures Inv(Do(s, e))
  {
    var s' := Do(s, e);
    assert Owns(s, e.u, s.users[e.u].libraryId);
    forall v, l
      ensures Owns(s', v, l) <==> v != e.u && Owns(s, v, l)
    {
    }
    forall l | IsRunning(s', l)
      ensures Owned(s', l)
    {
      assert IsRunning(s, l) && Owned(s, l);
      var v :| Owns(s, v, l);
      assert Owns(s', v, l);
    }
  }

  lemma {:induction false} ExecKeeps(trace: seq<Event>)
    ensures Inv(Exec(trace))
  {
    if trace != [] {
      ExecKeeps(trace[..|trace|-1]);
      DoKeeps(Exec(trace[..|trace|-1]), trace[|trace|-1]);
    }
  }

  /** In every interleaving a library is marked running if and only if someone owns its token, and then exactly one
      user does. */
  lemma TokenHasOneOwner(trace: seq<Event>, l: string)
    ensures IsRunning(Exec(trace), l) <==> Owned(Exec(trace), l)
    ensures forall u, v :: Owns(Exec(trace), u, l) && Owns(Exec(trace), v, l) ==> u == v
  {
    ExecKeeps(trace);
  }

  /** Every Finish is the owner's: it frees that library's token, which nobody holds afterwards, and no other. */
  lemma FinishIsByOwner(trace: seq<Event>, e: Event)
    requires Finishes(Exec(trace), e)
    ensures var s, s' := Exec(trace), Do(Exec(trace), e);
            var l := s.users[e.u].libraryId;
            && Owns(s, e.u, l) && IsRunning(s, l) && !IsRunning(s', l)
            && (forall u :: !Owns(s', u, l))
            && (forall k :: k != l ==> (IsRunning(s', k) <==> IsRunning(s, k)))
  {
    ExecKeeps(trace);
    DoKeeps(Exec(trace), e);
    assert Owns(Exec(trace), e.u, Exec(trace).users[e.u].libraryId);
  }

  /** How often u's events called Finish. */
  function FinishCount(trace: seq<Event>, u: nat): nat {
    if trace == [] then 0
    else
      var e := trace[|trace|-1];
      FinishCount(trace[..|trace|-1], u) + if Finishes(Exec(trace[..|trace|-1]), e) && e.u == u then 1 else 0
  }

  /** A user gives its token back at most once, exactly once when it ended by giving it back, and never while it holds
      it. */
  lemma {:induction false} GivesBackOnce(trace: seq<Event>, u: nat)
    ensures FinishCount(trace, u) == if u in Exec(trace).users && Exec(trace).users[u].stage == GaveBack then 1 else 0
  {
    if trace != [] {
      GivesBackOnce(trace[..|trace|-1], u);
    }
  }

  // ---- The methods act as these events ------------------------------------------------------------------------------

  function Play(s: Sys, events: seq<Event>): Sys {
    if events == [] then s else Do(Play(s, events[..|events|-1]), events[|events|-1])
  }

  /** What request r, made by user u, does with the token: nothing, one refused Ask, or an Ask and its end. */
  function ImportEvents(u: nat, r: Request, held: bool): seq<Event> {
    if TurnedAway(r) then []
    else if held then [Ask(u)]
    else [Ask(u), if Ready(r) && r.job == Started then Succeed(u) else Fail(u)]
  }

  function ImportStage(r: Request, held: bool): Stage {
    if TurnedAway(r) then Asking
    else if held then Refused
    else if Ready(r) && r.job == Started then KeptForJob
    else GaveBack
  }

  /** Import leaves the map as these events do, and its user where it should be. */
  lemma ImportActsAsEvents(s: Sys, u: nat, r: Request)
    requires u in s.users && s.users[u] == User(true, r.libraryId, Asking)
    ensures var held := IsRunning(s, r.libraryId);
            var s' := Play(s, ImportEvents(u, r, held));
            && s'.running == AfterImport(s.running, r)
            && s'.users == s.users[u := s.users[u].(stage := ImportStage(r, held))]
  {
    var held := IsRunning(s, r.libraryId);
    if !TurnedAway(r) {
      var end := if Ready(r) && r.job == Started then Succeed(u) else Fail(u);
      OneEvent(s, Ask(u));
      TwoEvents(s, Ask(u), end);
      if !held {
        assert s.running[r.libraryId := true] - {r.libraryId} == s.running - {r.libraryId};
      }
    }
  }

  lemma OneEvent(s: Sys, e: Event)
    ensures Play(s, [e]) == Do(s, e)
  {
    assert [e][..0] == [];
  }

  lemma TwoEvents(s: Sys, e: Event, f: Event)
    ensures Play(s, [e, f]) == Do(Do(s, e), f)
  {
    assert [e, f][..1] == [e];
    OneEvent(s, e);
  }

  /** What the scheduler does: for each due library a new user arrives and asks. */
  function SchedulerEvents(libs: seq<Library>, now: nat -> int, first: nat, n: nat): seq<Event>
    requires n <= |libs|
  {
    if n == 0 then []
    else
      SchedulerEvents(libs, now, first, n - 1) +
      if Due(libs[n-1], now(n - 1)) then [Arrive(first + n - 1, false, libs[n-1].id), Ask(first + n - 1)] else []
  }

  lemma {:induction false} PlayConcat(s: Sys, a: seq<Event>, b: seq<Event>)
    ensures Play(s, a + b) == Play(Play(s, a), b)
  {
    if b == [] {
      assert a + b == a;
    } else {
      assert (a + b)[..|a + b|-1] == a + b[..|b|-1];
      PlayConcat(s, a, b[..|b|-1]);
    }
  }

  lemma ArriveAndAsk(s: Sys, u: nat, l: string)
    requires u !in s.users
    ensures var s' := Do(Do(s, Arrive(u, false, l)), Ask(u));
            && s'.running == (if Marked(s.running, l) then s.running else s.running[l := true])
            && s'.users.Keys == s.users.Keys + {u}
  {
    var s1 := Do(s, Arrive(u, false, l));
    assert s1.users[u] == User(false, l, Asking) && s1.users.Keys == s.users.Keys + {u};
    assert s1.running == s.running;
  }

  lemma LibraryActsAsEvents(s: Sys, before: seq<Event>, u: nat, l: string)
    requires u !in Play(s, before).users
    ensures var s1, s2 := Play(s, before), Play(s, before + [Arrive(u, false, l), Ask(u)]);
            && s2.running == (if Marked(s1.running, l) then s1.running else s1.running[l := true])
            && s2.users.Keys == s1.users.Keys + {u}
  {
    PlayConcat(s, before, [Arrive(u, false, l), Ask(u)]);
    TwoEvents(Play(s, before), Arrive(u, false, l), Ask(u));
    ArriveAndAsk(Play(s, before), u, l);
  }

  /** The scheduler's check leaves the map as these events do. */
  lemma {:induction false} CheckActsAsEvents(s: Sys, libs: seq<Library>, now: nat -> int, first: nat, n: nat)
    requires n <= |libs| && forall u :: u in s.users ==> u < first
    ensures var s' := Play(s, SchedulerEvents(libs, now, first, n));
            s'.running == AfterCheck(s.running, libs, now, n) && forall u :: u in s'.users ==> u < first + n
  {
    if n > 0 {
      CheckActsAsEvents(s, libs, now, first, n - 1);
      var lib := libs[n-1];
      var u := first + n - 1;
      if Due(lib, now(n - 1)) {
        var before := SchedulerEvents(libs, now, first, n - 1);
        LibraryActsAsEvents(s, before, u, lib.id);
      } else {
        assert SchedulerEvents(libs, now, first, n) == SchedulerEvents(libs, now, first, n - 1);
      }
    }
  }

  /** The worker's deferred Finish is its end. */
  lemma WorkerActsAsEvent(s: Sys, u: nat)
    requires u in s.users && !s.users[u].isImport && s.users[u].stage == Holding
    ensures Finishes(s, WorkerEnds(u)) && Do(s, WorkerEnds(u)).running == s.running - {s.users[u].libraryId}
  {
  }
}
