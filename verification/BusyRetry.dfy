// WithSQLiteBusyRetry (repository/db.go): bounded retry of an operation while SQLite is busy.
module BusyRetry {
  /** What one call of the operation returns. */
  datatype CallResult = Ok | Busy | Error(message: string)

  /** nil, the operation's last error, or that error joined with the context's. */
  datatype RetryResult = Nil | Last(error: CallResult) | Cancelled(error: CallResult)

  const DELAYS: seq<nat> := [25, 50, 100, 200, 400]

  function Sum(s: seq<nat>): nat {
    if s == [] then 0 else Sum(s[..|s|-1]) + s[|s|-1]
  }

  lemma DelaySums()
    ensures Sum(DELAYS[..0]) == 0 && Sum(DELAYS[..1]) == 25 && Sum(DELAYS[..2]) == 75
    ensures Sum(DELAYS[..3]) == 175 && Sum(DELAYS[..4]) == 375 && Sum(DELAYS[..5]) == 775
  {
    SumStep(0);
    SumStep(1);
    SumStep(2);
    SumStep(3);
    SumStep(4);
  }

  lemma SumStep(n: nat)
    requires n < |DELAYS|
    ensures Sum(DELAYS[..n+1]) == Sum(DELAYS[..n]) + DELAYS[n]
  {
    assert DELAYS[..n+1][..n] == DELAYS[..n];
  }

  /** fn(k) is the result of call k, done(k) whether the context ends during the wait after it.
      waited adds up the timers started, in milliseconds. */
  method WithSQLiteBusyRetry(fn: nat -> CallResult, done: nat -> bool) returns (r: RetryResult, calls: nat, waited: nat)
    ensures 1 <= calls <= 6
    ensures forall k :: 0 <= k < calls - 1 ==> fn(k) == Busy && !done(k)
    ensures r == Nil <==> fn(calls - 1) == Ok
    ensures fn(calls - 1).Error? ==> r == Last(fn(calls - 1))
    ensures fn(calls - 1) == Busy ==> if calls == 6 then r == Last(Busy) else done(calls - 1) && r == Cancelled(Busy)
    ensures waited == Sum(DELAYS[..if r.Cancelled? then calls else calls - 1]) <= 775
  {
    DelaySums();
    calls, waited := 0, 0;
    var lastErr := Ok;
    for attempt := 0 to |DELAYS| + 1
      invariant attempt <= |DELAYS| && calls == attempt && waited == Sum(DELAYS[..attempt])
      invariant forall k :: 0 <= k < attempt ==> fn(k) == Busy && !done(k)
    {
      var err := fn(attempt);
      calls := calls + 1;
      if err != Ok {
        lastErr := err;
        if err != Busy {
          return Last(err), calls, waited;
        }
        if attempt == |DELAYS| {
          break;
        }
        SumStep(attempt);
        waited := waited + DELAYS[attempt];
        if done(attempt) {
          return Cancelled(lastErr), calls, waited;
        }
        continue;
      }
      return Nil, calls, waited;
    }
    r := Last(lastErr);
  }
}
