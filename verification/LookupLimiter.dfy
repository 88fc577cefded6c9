/** The sliding-window limiter of wallet lookups: 30 accepted calls per IP in any 60 seconds. */
module LookupLimiter {
  const RATE_LIMIT := 30
  const RATE_WINDOW := 60.0

  /** `[t for t in attempts if now - t < 60]`. */
  function Recent(times: seq<real>, now: real): (kept: seq<real>)
  {
    if times == [] then []
    else Recent(times[..|times| - 1], now) + if now - times[|times| - 1] < RATE_WINDOW then [times[|times| - 1]] else []
  }

  /** The log of one IP after a call: pruned, and extended if the call is accepted. */
  function Logged(log: seq<real>, now: real): seq<real> {
    var kept := Recent(log, now);
    if |kept| >= RATE_LIMIT then kept else kept + [now]
  }

  function AttemptsOf(attempts: map<string, seq<real>>, ip: string): seq<real> {
    if ip in attempts then attempts[ip] else []
  }

  class Limiter {
    var attempts: map<string, seq<real>>

    constructor ()
      ensures attempts == map[]
    {
      attempts := map[];
    }

    /** A refused call is not recorded, but the pruning is kept. */
    method RateLimitLookup(ip: string, now: real) returns (allowed: bool)
      modifies this`attempts
      ensures allowed <==> |Recent(AttemptsOf(old(attempts), ip), now)| < RATE_LIMIT
      ensures attempts == old(attempts)[ip := Logged(AttemptsOf(old(attempts), ip), now)]
    {
      var log := AttemptsOf(attempts, ip);
      var kept := [];
      for i := 0 to |log|
        invariant kept == Recent(log[..i], now)
      {
        assert log[..i + 1][..i] == log[..i];
        if now - log[i] < RATE_WINDOW { kept := kept + [log[i]]; }
      }
      assert log[..|log|] == log;
      attempts := attempts[ip := kept];
      if |kept| >= RATE_LIMIT { return false; }
      attempts := attempts[ip := kept + [now]];
      return true;
    }
  }

  // ─── Against the full history ─────────────────────────────────────────────

  /** The accepted calls among all calls, decided on the whole history and never pruned. */
  function Accepted(calls: seq<real>): seq<real> {
    if calls == [] then []
    else
      var past := Accepted(calls[..|calls| - 1]);
      if |Recent(past, calls[|calls| - 1])| < RATE_LIMIT then past + [calls[|calls| - 1]] else past
  }

  function Log(calls: seq<real>): seq<real> {
    if calls == [] then [] else Logged(Log(calls[..|calls| - 1]), calls[|calls| - 1])
  }

  predicate NonDecreasing(calls: seq<real>) {
    forall i, j :: 0 <= i < j < |calls| ==> calls[i] <= calls[j]
  }

  lemma RecentSnoc(times: seq<real>, t: real, now: real)
    ensures Recent(times + [t], now) == Recent(times, now) + if now - t < RATE_WINDOW then [t] else []
  {
    assert (times + [t])[..|times|] == times;
  }

  lemma {:induction false} PruneTwice(times: seq<real>, early: real, late: real)
    requires early <= late
    ensures Recent(Recent(times, early), late) == Recent(times, late)
  {
    if times != [] {
      var front, t := times[..|times| - 1], times[|times| - 1];
      PruneTwice(front, early, late);
      assert Recent(front, early) + [] == Recent(front, early) && Recent(front, late) + [] == Recent(front, late);
      if early - t < RATE_WINDOW { RecentSnoc(Recent(front, early), t, late); }
    }
  }

  /** At any clock value not before the last call, the pruned log shows exactly what the full history would. */
  lemma {:induction false} LogAgreesWithHistory(calls: seq<real>, now: real)
    requires NonDecreasing(calls) && (calls != [] ==> calls[|calls| - 1] <= now)
    ensures Recent(Log(calls), now) == Recent(Accepted(calls), now)
  {
    if calls != [] {
      var front, t := calls[..|calls| - 1], calls[|calls| - 1];
      LogAgreesWithHistory(front, t);
      LogAgreesWithHistory(front, now);
      PruneTwice(Log(front), t, now);
      RecentSnoc(Recent(Log(front), t), t, now);
      RecentSnoc(Accepted(front), t, now);
    }
  }

  /** So the two decide every next call alike. */
  lemma SameDecision(calls: seq<real>, now: real)
    requires NonDecreasing(calls) && (calls != [] ==> calls[|calls| - 1] <= now)
    ensures |Recent(Log(calls), now)| < RATE_LIMIT <==> Accepted(calls + [now]) == Accepted(calls) + [now]
  {
    LogAgreesWithHistory(calls, now);
    assert (calls + [now])[..|calls|] == calls;
    assert Accepted(calls) != Accepted(calls) + [now];
  }

  function InWindow(times: seq<real>, start: real): nat {
    if times == [] then 0
    else InWindow(times[..|times| - 1], start) + if start <= times[|times| - 1] < start + 60.0 then 1 else 0
  }

  lemma {:induction false} WindowIsRecent(times: seq<real>, start: real, now: real)
    requires now < start + RATE_WINDOW
    ensures InWindow(times, start) <= |Recent(times, now)|
  {
    if times != [] { WindowIsRecent(times[..|times| - 1], start, now); }
  }

  /** No half-open window of 60 seconds ever holds more than 30 accepted calls. */
  lemma {:induction false} AtMostLimitPerWindow(calls: seq<real>, start: real)
    ensures InWindow(Accepted(calls), start) <= 30
  {
    if calls != [] {
      var front, t := calls[..|calls| - 1], calls[|calls| - 1];
      var past := Accepted(front);
      AtMostLimitPerWindow(front, start);
      assert (past + [t])[..|past|] == past;
      if start <= t < start + RATE_WINDOW { WindowIsRecent(past, start, t); }
    }
  }

  /** How many of the times lie in the 60 seconds up to now: after now - 60 and not after now. */
  function CountLastMinute(times: seq<real>, now: real): nat {
    if times == [] then 0
    else
      var t := times[|times| - 1];
      CountLastMinute(times[..|times| - 1], now) + if now - 60.0 < t <= now then 1 else 0
  }

  /** A call is refused exactly when 30 calls were accepted in the 60 seconds before it. */
  lemma RefusedIff(calls: seq<real>, now: real)
    requires NonDecreasing(calls) && (calls != [] ==> calls[|calls| - 1] <= now)
    ensures |Recent(Log(calls), now)| >= RATE_LIMIT <==> CountLastMinute(Accepted(calls), now) >= 30
  {
    LogAgreesWithHistory(calls, now);
    AcceptedAreCalls(calls, now);
    RecentIsLastMinute(Accepted(calls), now);
  }

  lemma {:induction false} AcceptedAreCalls(calls: seq<real>, now: real)
    requires forall i :: 0 <= i < |calls| ==> calls[i] <= now
    ensures forall i :: 0 <= i < |Accepted(calls)| ==> Accepted(calls)[i] <= now
  {
    if calls != [] { AcceptedAreCalls(calls[..|calls| - 1], now); }
  }

  lemma {:induction false} RecentIsLastMinute(times: seq<real>, now: real)
    requires forall i :: 0 <= i < |times| ==> times[i] <= now
    ensures |Recent(times, now)| == CountLastMinute(times, now)
  {
    if times != [] { RecentIsLastMinute(times[..|times| - 1], now); }
  }

  // ─── One table, many IPs ──────────────────────────────────────────────────

  datatype Lookup = Lookup(ip: string, at: real)

  /** The table after a run of calls of RateLimitLookup. */
  function Table(calls: seq<Lookup>): map<string, seq<real>> {
    if calls == [] then map[]
    else
      var before := Table(calls[..|calls| - 1]);
      var c := calls[|calls| - 1];
      before[c.ip := Logged(AttemptsOf(before, c.ip), c.at)]
  }

  function TimesOf(calls: seq<Lookup>, ip: string): seq<real> {
    if calls == [] then []
    else TimesOf(calls[..|calls| - 1], ip) + if calls[|calls| - 1].ip == ip then [calls[|calls| - 1].at] else []
  }

  /** Each IP is limited by its own calls alone. */
  lemma {:induction false} TableIsPerIp(calls: seq<Lookup>, ip: string)
    ensures AttemptsOf(Table(calls), ip) == Log(TimesOf(calls, ip))
  {
    if calls != [] {
      var front, c := calls[..|calls| - 1], calls[|calls| - 1];
      TableIsPerIp(front, ip);
      if c.ip == ip {
        var times := TimesOf(front, ip) + [c.at];
        assert times[..|times| - 1] == TimesOf(front, ip);
      } else {
        assert TimesOf(calls, ip) == TimesOf(front, ip);
      }
    }
  }
}
