/** The gRPC client's circuit breaker and retry loop. The breaker's operations run under a lock,
    so any interleaving of calls in flight is a sequence of them: its log. */
module CircuitBreaker {
  datatype Circuit = Closed | Open | HalfOpen

  datatype Breaker = Breaker(circuit: Circuit, errors: int, lastFail: int)

  datatype Config = Config(maxRetries: int, retryBackoff: nat, maxConsecutiveErr: int, recoverTime: int)

  const INIT := Breaker(Closed, 0, 0)

  datatype Event =
    | Check(now: int)
    | Success
    | Failure(now: int)
    | Reconnect

  /** More than the recovery time has passed since the last recorded failure. */
  predicate Recovered(cfg: Config, b: Breaker, now: int) {
    now - b.lastFail > cfg.recoverTime
  }

  /** checkCircuitBreaker lets the call through. */
  predicate Admits(cfg: Config, b: Breaker, now: int) {
    b.circuit == Open ==> Recovered(cfg, b, now)
  }

  function Step(cfg: Config, b: Breaker, e: Event): Breaker {
    match e
    case Check(now) =>
      if b.circuit == Open && Recovered(cfg, b, now) then b.(circuit := HalfOpen, errors := 0) else b
    case Success =>
      Breaker(if b.circuit == HalfOpen then Closed else b.circuit, 0, b.lastFail)
    case Failure(now) =>
      Breaker(if b.errors + 1 >= cfg.maxConsecutiveErr && b.circuit != Open then Open else b.circuit,
              b.errors + 1, now)
    case Reconnect => b.(circuit := Closed, errors := 0)
  }

  function Exec(cfg: Config, b: Breaker, log: seq<Event>): Breaker {
    if log == [] then b else Step(cfg, Exec(cfg, b, log[..|log| - 1]), log[|log| - 1])
  }

  /** How many failures in a row open the breaker; a configured value below one acts as one. */
  function Threshold(cfg: Config): (t: nat)
    ensures t >= 1
  {
    if cfg.maxConsecutiveErr >= 1 then cfg.maxConsecutiveErr else 1
  }

  /** e resets the error count of b: a success, a reconnect or the move to half-open. */
  predicate Resets(cfg: Config, b: Breaker, e: Event) {
    || e.Success? || e.Reconnect?
    || (e.Check? && b.circuit == Open && Recovered(cfg, b, e.now))
  }

  /** The part of the log after its last reset. */
  function SinceReset(cfg: Config, log: seq<Event>): seq<Event> {
    if log == [] then []
    else
      var n := |log| - 1;
      if Resets(cfg, Exec(cfg, INIT, log[..n]), log[n]) then [] else SinceReset(cfg, log[..n]) + [log[n]]
  }

  function Failures(log: seq<Event>): nat {
    if log == [] then 0 else Failures(log[..|log| - 1]) + (if log[|log| - 1].Failure? then 1 else 0)
  }

  lemma FailuresSnoc(log: seq<Event>, e: Event)
    ensures Failures(log + [e]) == Failures(log) + (if e.Failure? then 1 else 0)
  {
    assert (log + [e])[..|log|] == log;
  }

  lemma ExecSnoc(cfg: Config, b: Breaker, log: seq<Event>, e: Event)
    ensures Exec(cfg, b, log + [e]) == Step(cfg, Exec(cfg, b, log), e)
  {
    assert (log + [e])[..|log|] == log;
  }

  /** In every log the error count is the number of failures since the last reset; and it is
      below the threshold unless the breaker is open. */
  lemma {:induction false} ErrorsAreFailuresSinceReset(cfg: Config, log: seq<Event>)
    ensures Exec(cfg, INIT, log).errors == Failures(SinceReset(cfg, log))
    ensures Exec(cfg, INIT, log).circuit != Open ==> Exec(cfg, INIT, log).errors < Threshold(cfg)
    decreases |log|
  {
    if log != [] {
      var n := |log| - 1;
      ErrorsAreFailuresSinceReset(cfg, log[..n]);
      FailuresSnoc(SinceReset(cfg, log[..n]), log[n]);
    }
  }

  /** The breaker opens exactly on the threshold-th failure since the last reset. */
  lemma OpensOnThreshold(cfg: Config, log: seq<Event>, e: Event)
    requires Exec(cfg, INIT, log).circuit != Open
    ensures Exec(cfg, INIT, log + [e]).circuit == Open
       <==> e.Failure? && Failures(SinceReset(cfg, log + [e])) == Threshold(cfg)
  {
    ErrorsAreFailuresSinceReset(cfg, log);
    ErrorsAreFailuresSinceReset(cfg, log + [e]);
    ExecSnoc(cfg, INIT, log, e);
  }

  /** The time of the last failure in the log. */
  function LastFailure(log: seq<Event>): int {
    if log == [] then 0
    else if log[|log| - 1].Failure? then log[|log| - 1].now
    else LastFailure(log[..|log| - 1])
  }

  lemma {:induction false} LastFailIsLogged(cfg: Config, log: seq<Event>)
    ensures Exec(cfg, INIT, log).lastFail == LastFailure(log)
    decreases |log|
  {
    if log != [] {
      LastFailIsLogged(cfg, log[..|log| - 1]);
    }
  }

  /** A check is refused exactly when the breaker is open and the recovery time since the last
      failure of any call, including calls still in flight when it opened, has not passed. */
  lemma RefusedIff(cfg: Config, log: seq<Event>, now: int)
    ensures !Admits(cfg, Exec(cfg, INIT, log), now)
       <==> Exec(cfg, INIT, log).circuit == Open && now - LastFailure(log) <= cfg.recoverTime
  {
    LastFailIsLogged(cfg, log);
  }

  /** After the log, e lets an open breaker go: a reconnect, or a check more than the recovery time
      after the last failure of any call. */
  predicate Releases(cfg: Config, log: seq<Event>, e: Event) {
    e.Reconnect? || (e.Check? && e.now - LastFailure(log) > cfg.recoverTime)
  }

  /** Open after the log and after every further event. */
  predicate OpenThroughout(cfg: Config, log: seq<Event>, later: seq<Event>)
    decreases |later|
  {
    && Exec(cfg, INIT, log).circuit == Open
    && (later != [] ==> OpenThroughout(cfg, log + [later[0]], later[1..]))
  }

  /** None of the further events lets go at its place in the log. */
  predicate NeverReleased(cfg: Config, log: seq<Event>, later: seq<Event>)
    decreases |later|
  {
    later != [] ==> !Releases(cfg, log, later[0]) && NeverReleased(cfg, log + [later[0]], later[1..])
  }

  lemma OneMoreOpenIff(cfg: Config, log: seq<Event>, e: Event)
    requires Exec(cfg, INIT, log).circuit == Open
    ensures Exec(cfg, INIT, log + [e]).circuit == Open <==> !Releases(cfg, log, e)
  {
    ExecSnoc(cfg, INIT, log, e);
    LastFailIsLogged(cfg, log);
  }

  /** An open breaker stays open through a continuation of the log exactly when nothing in it lets
      go. In particular no number of successes of calls that were in flight closes it, and their
      failures put the recovery off. */
  lemma {:induction false} StaysOpenIff(cfg: Config, log: seq<Event>, later: seq<Event>)
    requires Exec(cfg, INIT, log).circuit == Open
    ensures OpenThroughout(cfg, log, later) <==> NeverReleased(cfg, log, later)
    decreases |later|
  {
    if later != [] {
      OneMoreOpenIff(cfg, log, later[0]);
      if !Releases(cfg, log, later[0]) {
        StaysOpenIff(cfg, log + [later[0]], later[1..]);
      }
    }
  }

  // ----- half-open -----

  predicate OnlyChecksAndFailures(log: seq<Event>) {
    forall e :: e in log ==> e.Check? || e.Failure?
  }

  /** Half-open is not a single test call. From half-open with no errors, every check is let
      through until the threshold-th failure, and only that one opens the breaker again. */
  lemma {:induction false} HalfOpenReopensIff(cfg: Config, b: Breaker, log: seq<Event>)
    requires b.circuit == HalfOpen && b.errors == 0
    requires OnlyChecksAndFailures(log) && Failures(log) <= Threshold(cfg)
    requires Failures(log) == Threshold(cfg) ==> log[|log| - 1].Failure?
    ensures Exec(cfg, b, log).errors == Failures(log)
    ensures Exec(cfg, b, log).circuit == if Failures(log) == Threshold(cfg) then Open else HalfOpen
    decreases |log|
  {
    if log != [] {
      var n := |log| - 1;
      assert log[n] in log;
      assert OnlyChecksAndFailures(log[..n]) by {
        assert forall e :: e in log[..n] ==> e in log;
      }
      HalfOpenReopensIff(cfg, b, log[..n]);
    }
  }

  /** The documented rule "a half-open failure opens again" holds exactly for a threshold of
      one; with the default of five it does not. */
  lemma HalfOpenFailureReopensIff(cfg: Config, b: Breaker, now: int)
    requires b.circuit == HalfOpen && b.errors == 0
    ensures Step(cfg, b, Failure(now)).circuit == Open <==> Threshold(cfg) == 1
  {
    var log := [Failure(now)];
    assert log[..0] == [];
    assert Failures(log) == 1;
    HalfOpenReopensIff(cfg, b, log);
    assert Exec(cfg, b, log) == Step(cfg, b, Failure(now));
  }

  /** The i-th event of the log released an open breaker by a check, and since then there were only
      checks and fewer failures than open it. */
  ghost predicate HalfOpenSince(cfg: Config, log: seq<Event>, i: nat) {
    && i < |log| && Exec(cfg, INIT, log[..i]).circuit == Open
    && log[i].Check? && log[i].now - LastFailure(log[..i]) > cfg.recoverTime
    && OnlyChecksAndFailures(log[i + 1..]) && Failures(log[i + 1..]) < Threshold(cfg)
  }

  lemma HalfOpenSinceIs(cfg: Config, log: seq<Event>, i: nat)
    requires HalfOpenSince(cfg, log, i)
    ensures Exec(cfg, INIT, log).circuit == HalfOpen && Exec(cfg, INIT, log).errors == Failures(log[i + 1..])
  {
    var before, rest := log[..i], log[i + 1..];
    LastFailIsLogged(cfg, before);
    ExecSnoc(cfg, INIT, before, log[i]);
    assert log == before + [log[i]] + rest;
    ExecJoin(cfg, INIT, before + [log[i]], rest);
    HalfOpenReopensIff(cfg, Exec(cfg, INIT, before + [log[i]]), rest);
  }

  lemma HalfOpenGoesOn(cfg: Config, log: seq<Event>, e: Event, i: nat)
    requires HalfOpenSince(cfg, log, i) && Exec(cfg, INIT, log + [e]).circuit == HalfOpen
    ensures HalfOpenSince(cfg, log + [e], i)
  {
    var all := log + [e];
    HalfOpenSinceIs(cfg, log, i);
    ExecSnoc(cfg, INIT, log, e);
    assert all[..i] == log[..i] && all[i + 1..] == log[i + 1..] + [e];
    FailuresSnoc(log[i + 1..], e);
    assert e.Check? || e.Failure?;
  }

  /** The breaker is half-open exactly between a check that released it and the first success or
      reconnect, which close it, or the threshold-th failure, which opens it again. */
  lemma {:induction false} HalfOpenIff(cfg: Config, log: seq<Event>)
    ensures Exec(cfg, INIT, log).circuit == HalfOpen <==> exists i: nat :: HalfOpenSince(cfg, log, i)
    decreases |log|
  {
    if i: nat :| HalfOpenSince(cfg, log, i) {
      HalfOpenSinceIs(cfg, log, i);
    }
    if Exec(cfg, INIT, log).circuit == HalfOpen {
      var n := |log| - 1;
      var before, e := log[..n], log[n];
      assert log == before + [e];
      ExecSnoc(cfg, INIT, before, e);
      HalfOpenIff(cfg, before);
      if Exec(cfg, INIT, before).circuit == HalfOpen {
        var i: nat :| HalfOpenSince(cfg, before, i);
        HalfOpenGoesOn(cfg, before, e, i);
      } else {
        LastFailIsLogged(cfg, before);
        assert log[n + 1..] == [];
        assert HalfOpenSince(cfg, log, n);
      }
    }
  }

  function FailuresAtZero(k: nat): seq<Event> {
    if k == 0 then [] else FailuresAtZero(k - 1) + [Failure(0)]
  }

  lemma {:induction false} FailuresOpen(cfg: Config, k: nat)
    requires k <= Threshold(cfg)
    ensures Exec(cfg, INIT, FailuresAtZero(k)) == Breaker(if k == Threshold(cfg) then Open else Closed, k, 0)
  {
    if k > 0 {
      FailuresOpen(cfg, k - 1);
      ExecSnoc(cfg, INIT, FailuresAtZero(k - 1), Failure(0));
    }
  }

  /** A run from the start: as many failures as open the breaker, a check after the recovery time
      and one more failure. The breaker is open again if and only if the threshold is one;
      otherwise it is still half-open. */
  lemma HalfOpenFailureRun(cfg: Config)
    ensures var log := FailuresAtZero(Threshold(cfg)) + [Check(cfg.recoverTime + 1)] + [Failure(cfg.recoverTime + 2)];
            Exec(cfg, INIT, log).circuit == if Threshold(cfg) == 1 then Open else HalfOpen
  {
    var fails, check, fail := FailuresAtZero(Threshold(cfg)), Check(cfg.recoverTime + 1), Failure(cfg.recoverTime + 2);
    FailuresOpen(cfg, Threshold(cfg));
    ExecSnoc(cfg, INIT, fails, check);
    ExecSnoc(cfg, INIT, fails + [check], fail);
  }

  // ----- the retry loop -----

  function Pow2(k: nat): (p: nat)
    ensures p >= 1
  {
    if k == 0 then 1 else 2 * Pow2(k - 1)
  }

  datatype CallResult = Succeeded | Refused | Cancelled | Exhausted

  function Max0(x: int): nat {
    if x < 0 then 0 else x
  }

  class Client {
    const cfg: Config
    var b: Breaker

    constructor (cfg: Config)
      ensures this.cfg == cfg && b == INIT
    {
      this.cfg, b := cfg, INIT;
    }

    method CheckCircuitBreaker(now: int) returns (ok: bool)
      modifies this
      ensures b == Step(cfg, old(b), Check(now)) && ok == Admits(cfg, old(b), now)
    {
      if b.circuit == Closed {
        return true;
      }
      if b.circuit == Open {
        if now - b.lastFail > cfg.recoverTime {
          b := b.(circuit := HalfOpen);
          b := b.(errors := 0);
          return true;
        }
        return false;
      }
      return true;
    }

    method RecordSuccess()
      modifies this
      ensures b == Step(cfg, old(b), Success)
    {
      if b.circuit == HalfOpen {
        b := b.(circuit := Closed);
      }
      b := b.(errors := 0);
    }

    method RecordFailure(now: int)
      modifies this
      ensures b == Step(cfg, old(b), Failure(now))
    {
      b := b.(errors := b.errors + 1);
      b := b.(lastFail := now);
      if b.errors >= cfg.maxConsecutiveErr && b.circuit != Open {
        b := b.(circuit := Open);
      }
    }

    /** What other goroutines record while this call runs. */
    method OthersRecord(log: seq<Event>)
      modifies this
      ensures b == Exec(cfg, old(b), log)
    {
      var i := 0;
      while i < |log|
        invariant 0 <= i <= |log| && b == Exec(cfg, old(b), log[..i])
      {
        assert log[..i + 1] == log[..i] + [log[i]];
        ExecSnoc(cfg, old(b), log[..i], log[i]);
        b := Step(cfg, b, log[i]);
        i := i + 1;
      }
      assert log[..i] == log;
    }

    /** One call. `ok(i)` is the result of attempt i and `cancelled(i)` whether the context ends
        during the backoff after it; `others` is what other calls record in the meantime.
        A refused call attempts nothing and changes nothing. An admitted one makes at most
        maxRetries + 1 attempts, waits retryBackoff * (2^k - 1) over k completed backoffs, and adds
        to the log one success, one failure or, when cancelled, nothing. */
    method CallWithRetry(start: int, end: int, ok: nat -> bool, cancelled: nat -> bool, others: seq<Event>)
      returns (r: CallResult, attempts: nat, waited: nat, ghost backoffs: nat)
      modifies this
      ensures r == Refused <==> !Admits(cfg, old(b), start)
      ensures r == Refused ==> attempts == 0 && b == old(b)
      ensures attempts <= Max0(cfg.maxRetries + 1)
      ensures waited == cfg.retryBackoff * (Pow2(backoffs) - 1)
      ensures r != Refused ==> forall i :: 0 <= i < backoffs ==> !ok(i) && !cancelled(i)
      ensures r == Succeeded ==> attempts == backoffs + 1 && ok(backoffs)
      ensures r == Cancelled ==> attempts == backoffs + 1 <= cfg.maxRetries && !ok(backoffs) && cancelled(backoffs)
      ensures r == Exhausted ==> attempts == Max0(cfg.maxRetries + 1) && backoffs == Max0(cfg.maxRetries)
                                 && forall i :: 0 <= i < attempts ==> !ok(i)
      ensures r == Succeeded ==> b == Exec(cfg, old(b), [Check(start)] + others + [Success])
      ensures r == Exhausted ==> b == Exec(cfg, old(b), [Check(start)] + others + [Failure(end)])
      ensures r == Cancelled ==> b == Exec(cfg, old(b), [Check(start)] + others)
    {
      backoffs, attempts, waited := 0, 0, 0;
      var admitted := CheckCircuitBreaker(start);
      if !admitted {
        return Refused, 0, 0, 0;
      }
      ghost var checked := b;
      OthersRecord(others);
      CheckThen(cfg, old(b), start, others);
      ExecSnoc(cfg, old(b), [Check(start)] + others, Success);
      ExecSnoc(cfg, old(b), [Check(start)] + others, Failure(end));
      var backoff := cfg.retryBackoff;
      var attempt := 0;
      while attempt <= cfg.maxRetries
        invariant 0 <= attempt <= Max0(cfg.maxRetries + 1) && attempts == attempt
        invariant backoffs == if attempt <= cfg.maxRetries then attempt else Max0(cfg.maxRetries)
        invariant attempt <= cfg.maxRetries ==> backoff == cfg.retryBackoff * Pow2(backoffs)
        invariant waited == cfg.retryBackoff * (Pow2(backoffs) - 1)
        invariant forall i :: 0 <= i < attempt ==> !ok(i)
        invariant forall i :: 0 <= i < backoffs ==> !cancelled(i)
        invariant b == Exec(cfg, checked, others)
      {
        attempts := attempts + 1;
        if ok(attempt) {
          RecordSuccess();
          return Succeeded, attempts, waited, backoffs;
        }
        if attempt < cfg.maxRetries {
          if cancelled(attempt) {
            return Cancelled, attempts, waited, backoffs;
          }
          DoubleBackoff(cfg.retryBackoff, backoffs);
          waited := waited + backoff;
          backoff := backoff * 2;
          backoffs := backoffs + 1;
        }
        attempt := attempt + 1;
      }
      RecordFailure(end);
      r := Exhausted;
    }

    /** Dials up to maxRetries times; a success closes the breaker, a failure records nothing.
        `others` is what calls record in the meantime. Before the n-th dial the loop has slept
        retryBackoff * (2^(n-1) - 1). */
    method ConnectWithRetry(ok: nat -> bool, others: seq<Event>) returns (connected: bool, dials: nat, slept: nat)
      modifies this
      ensures dials <= Max0(cfg.maxRetries)
      ensures connected ==> dials >= 1 && ok(dials) && b == Exec(cfg, old(b), others + [Reconnect])
      ensures !connected ==> dials == Max0(cfg.maxRetries) && b == Exec(cfg, old(b), others)
      ensures forall i :: 1 <= i < dials || (!connected && i == dials >= 1) ==> !ok(i)
      ensures slept == if dials == 0 then 0 else cfg.retryBackoff * (Pow2(dials - 1) - 1)
    {
      dials, slept := 0, 0;
      OthersRecord(others);
      ExecSnoc(cfg, old(b), others, Reconnect);
      ghost var sleeps: nat := 0;
      var attempt := 1;
      while attempt <= cfg.maxRetries
        invariant 1 <= attempt && dials == attempt - 1 <= Max0(cfg.maxRetries)
        invariant b == Exec(cfg, old(b), others)
        invariant sleeps == if dials > 0 && attempt > cfg.maxRetries then dials - 1 else dials
        invariant slept == cfg.retryBackoff * (Pow2(sleeps) - 1)
        invariant forall i :: 1 <= i < attempt ==> !ok(i)
      {
        dials := dials + 1;
        if ok(attempt) {
          b := b.(errors := 0);
          b := b.(circuit := Closed);
          return true, dials, slept;
        }
        if attempt < cfg.maxRetries {
          DoubleBackoff(cfg.retryBackoff, sleeps);
          slept := slept + cfg.retryBackoff * Pow2(attempt - 1);
          sleeps := sleeps + 1;
        }
        attempt := attempt + 1;
      }
      connected := false;
    }
  }

  lemma CheckThen(cfg: Config, b: Breaker, start: int, others: seq<Event>)
    ensures Exec(cfg, b, [Check(start)] + others) == Exec(cfg, Step(cfg, b, Check(start)), others)
  {
    ExecJoin(cfg, b, [Check(start)], others);
    assert [Check(start)][..0] == [];
    assert Exec(cfg, b, [Check(start)]) == Step(cfg, b, Check(start));
  }

  lemma {:induction false} ExecJoin(cfg: Config, b: Breaker, log: seq<Event>, more: seq<Event>)
    ensures Exec(cfg, b, log + more) == Exec(cfg, Exec(cfg, b, log), more)
    decreases |more|
  {
    if more == [] {
      assert log + more == log;
    } else {
      var n := |more| - 1;
      assert (log + more)[..|log + more| - 1] == log + more[..n];
      ExecJoin(cfg, b, log, more[..n]);
    }
  }

  lemma DoubleBackoff(base: nat, k: nat)
    ensures base * (Pow2(k) - 1) + base * Pow2(k) == base * (Pow2(k + 1) - 1)
    ensures base * Pow2(k) * 2 == base * Pow2(k + 1)
  {
  }
}
