/** Retry and idempotency wrapped around each other, in both orders. */
module Composition {
  import opened Values
  import opened ErrorChain
  import opened Arithmetic
  import T = ClaimTable
  import P = SendProtocol
  import Retry

  // ---------------------------------------------------------------- retry over idempotency

  /** One attempt of a retry loop whose wrapped provider is idempotent: what others do to the store before it
      takes the lock, what the base provider returns if it is called, and what others do while it runs. */
  datatype Attempt = Attempt(before: seq<T.Event>, token: T.Token, stamp: int, lockAt: int,
                             base: Outcome, during: seq<T.Event>, settleAt: int)

  function Run(t: T.Table, trace: seq<T.Event>): T.Table {
    T.TableAt(t, trace, |trace|)
  }

  function AnswerTo(t: T.Table, key: T.Key, a: Attempt): T.ReserveAnswer {
    T.ReserveAnswerOf(Run(t, a.before), key, a.token, a.stamp)
  }

  /** Whether the attempt reaches the base provider. */
  predicate CallsBase(t: T.Table, key: T.Key, a: Attempt) {
    AnswerTo(t, key, a).Claimed?
  }

  function OutcomeOf(t: T.Table, key: T.Key, a: Attempt): Outcome {
    match AnswerTo(t, key, a)
    case Claimed(_) => a.base
    case Recorded(r) => Outcome(Some(r), None)
    case InFlight => IN_FLIGHT
  }

  function TableAfter(t: T.Table, key: T.Key, ttl: int, a: Attempt): T.Table {
    var reserved := T.Reserve(Run(t, a.before), key, a.token, a.stamp, ttl);
    if CallsBase(t, key, a)
    then T.Settle(Run(reserved, a.during), key, a.token, ttl, a.base.result, a.base.err.Some?, a.settleAt)
    else reserved
  }

  /** The attempt as operations on the store: what others do, its Reserve, and, if that is granted, what others do
      meanwhile and the write that settles the claim. */
  function AttemptTrace(t: T.Table, key: T.Key, ttl: int, a: Attempt): seq<T.Event> {
    var reserve := T.At(a.lockAt, T.OpReserve(key, a.token, a.stamp, ttl));
    var settle := if a.base.err.Some? && a.base.result.None? then T.OpAbandon(key, a.token)
                  else T.OpFinalize(key, a.token, a.base.result, ttl);
    a.before + [reserve] + if CallsBase(t, key, a) then a.during + [T.At(a.settleAt, settle)] else []
  }

  /** An attempt leaves the table that its operations leave, and goes by what its Reserve is answered in their midst. */
  lemma AttemptIsTrace(t: T.Table, key: T.Key, ttl: int, a: Attempt)
    ensures var trace, n := AttemptTrace(t, key, ttl, a), |a.before|;
            && TableAfter(t, key, ttl, a) == Run(t, trace)
            && n < |trace| && T.AnswerOf(T.TableAt(t, trace, n), trace[n]) == T.Reserved(AnswerTo(t, key, a))
  {
    var reserve := T.At(a.lockAt, T.OpReserve(key, a.token, a.stamp, ttl));
    var trace := AttemptTrace(t, key, ttl, a);
    var upToReserve := a.before + [reserve];
    RunMore(t, a.before, [reserve]);
    RunOne(Run(t, a.before), reserve);
    SamePrefix(t, trace, a.before, |a.before|);
    if CallsBase(t, key, a) {
      var settle := trace[|trace| - 1];
      RunMore(t, upToReserve, a.during + [settle]);
      RunMore(Run(t, upToReserve), a.during, [settle]);
      RunOne(Run(Run(t, upToReserve), a.during), settle);
    } else {
      assert trace == upToReserve;
    }
  }

  lemma RunOne(t: T.Table, e: T.Event)
    ensures Run(t, [e]) == T.Apply(t, e)
  {
    assert T.TableAt(t, [e], 0) == t;
  }

  lemma {:induction false} SamePrefix(t: T.Table, a: seq<T.Event>, b: seq<T.Event>, i: nat)
    requires i <= |a| && i <= |b| && forall j | 0 <= j < i :: a[j] == b[j]
    ensures T.TableAt(t, a, i) == T.TableAt(t, b, i)
  {
    if i > 0 {
      SamePrefix(t, a, b, i - 1);
    }
  }

  lemma {:induction false} RunMore(t: T.Table, a: seq<T.Event>, b: seq<T.Event>)
    ensures Run(t, a + b) == Run(Run(t, a), b)
  {
    if b == [] {
      assert a + b == a;
    } else {
      var n := |b| - 1;
      RunMore(t, a, b[..n]);
      SamePrefix(t, a + b, a + b[..n], |a| + n);
      SamePrefix(Run(t, a), b, b[..n], n);
    }
  }

  /** An attempt that nobody disturbs is a Send that nothing interleaves with. */
  lemma UndisturbedAttempt(t: T.Table, key: T.Key, ttl: int, a: Attempt)
    requires a.before == [] && a.during == []
    ensures TableAfter(t, key, ttl, a)
         == T.SendTable(t, key, a.token, a.stamp, ttl, a.base.result, a.base.err.Some?, a.settleAt)
    ensures OutcomeOf(t, key, a).result == T.SentResult(t, key, a.token, a.stamp, a.base.result)
    ensures CallsBase(t, key, a) ==> OutcomeOf(t, key, a) == a.base
  {
  }

  /** The tables that a loop's attempts find, each left by the attempt before. */
  ghost predicate Follows(tables: nat -> T.Table, key: T.Key, ttl: int, attempts: nat -> Attempt, i: nat) {
    tables(i + 1) == TableAfter(tables(i), key, ttl, attempts(i))
  }

  function Outcomes(tables: nat -> T.Table, key: T.Key, attempts: nat -> Attempt): nat -> Outcome {
    (i: nat) => OutcomeOf(tables(i), key, attempts(i))
  }

  /** The attempt's times are in order, and nobody else writes to the key unfenced or with its token. */
  ghost predicate Regular(key: T.Key, a: Attempt) {
    && T.Ordered(a.before) && T.Ordered(a.during) && a.token != T.NO_TOKEN
    && a.stamp <= a.lockAt <= a.settleAt
    && (forall i | 0 <= i < |a.before| :: a.before[i].now <= a.lockAt && !T.Overwrites(a.before[i], key))
    && (forall i | 0 <= i < |a.during| :: a.during[i].now <= a.settleAt && !T.Overwrites(a.during[i], key)
                                       && !T.UsesToken(a.during[i], key, a.token))
  }

  ghost predicate RegularAt(tables: nat -> T.Table, key: T.Key, ttl: int, attempts: nat -> Attempt, i: nat) {
    && Regular(key, attempts(i)) && attempts(i).settleAt <= attempts(i + 1).lockAt
    && Follows(tables, key, ttl, attempts, i)
  }

  ghost predicate RegularLoop(tables: nat -> T.Table, key: T.Key, ttl: int, attempts: nat -> Attempt) {
    forall i: nat :: RegularAt(tables, key, ttl, attempts, i)
  }

  /** The attempt reaches the base provider, gets the result, and its Finalize is not refused. */
  ghost predicate Records(t: T.Table, key: T.Key, ttl: int, a: Attempt, r: ResultValue) {
    && CallsBase(t, key, a) && a.base.result == Some(r)
    && !T.Superseded(Run(T.Reserve(Run(t, a.before), key, a.token, a.stamp, ttl), a.during), key, a.token)
  }

  /** A base call that produces a result before its claim runs out gets it recorded. */
  lemma TimelyResultIsRecorded(t: T.Table, key: T.Key, ttl: int, a: Attempt, r: ResultValue)
    requires Regular(key, a) && CallsBase(t, key, a) && a.base.result == Some(r) && a.settleAt < a.stamp + ttl
    ensures Records(t, key, ttl, a, r)
  {
    var reserved := T.Reserve(Run(t, a.before), key, a.token, a.stamp, ttl);
    T.ClaimSurvives(reserved, a.during, |a.during|, key, a.token, a.stamp + ttl);
  }

  lemma RecordHolds(t: T.Table, key: T.Key, ttl: int, a: Attempt, r: ResultValue)
    requires Records(t, key, ttl, a, r)
    ensures T.Holds(TableAfter(t, key, ttl, a), key, r, a.settleAt + ttl)
  {
  }

  /** An attempt that takes the lock while a record stands is answered by it and leaves it standing. */
  lemma RecordAnswersAttempt(t: T.Table, key: T.Key, ttl: int, a: Attempt, r: ResultValue, expiresAt: int)
    requires Regular(key, a) && T.Holds(t, key, r, expiresAt) && a.lockAt < expiresAt
    ensures AnswerTo(t, key, a) == T.Recorded(r) && T.Holds(TableAfter(t, key, ttl, a), key, r, expiresAt)
  {
    T.RecordedResultSurvives(t, a.before, 0, |a.before|, key, r, expiresAt);
  }

  lemma {:induction false} LocksAreOrdered(tables: nat -> T.Table, key: T.Key, ttl: int, attempts: nat -> Attempt,
          i: nat, j: nat)
    requires RegularLoop(tables, key, ttl, attempts) && i <= j
    ensures attempts(i).lockAt <= attempts(j).lockAt
  {
    if i < j {
      LocksAreOrdered(tables, key, ttl, attempts, i, j - 1);
      assert RegularAt(tables, key, ttl, attempts, j - 1);
    }
  }

  lemma {:induction false} RecordLastsOverAttempts(tables: nat -> T.Table, key: T.Key, ttl: int,
                                                   attempts: nat -> Attempt, i: nat, j: nat, r: ResultValue,
                                                   expiresAt: int)
    requires RegularLoop(tables, key, ttl, attempts) && i <= j
    requires T.Holds(tables(i), key, r, expiresAt) && attempts(j).lockAt < expiresAt
    ensures T.Holds(tables(j), key, r, expiresAt)
  {
    if i < j {
      LocksAreOrdered(tables, key, ttl, attempts, j - 1, j);
      RecordLastsOverAttempts(tables, key, ttl, attempts, i, j - 1, r, expiresAt);
      assert RegularAt(tables, key, ttl, attempts, j - 1);
      RecordAnswersAttempt(tables(j - 1), key, ttl, attempts(j - 1), r, expiresAt);
    }
  }

  /** Once a base call of the loop has produced a result and recorded it, no later attempt within the ttl reaches
      the base provider: each is answered with that result and a nil error. */
  lemma NoSecondBaseCall(tables: nat -> T.Table, key: T.Key, ttl: int, attempts: nat -> Attempt, a: nat, j: nat,
          r: ResultValue)
    requires RegularLoop(tables, key, ttl, attempts) && a < j
    requires Records(tables(a), key, ttl, attempts(a), r) && attempts(j).lockAt < attempts(a).settleAt + ttl
    ensures !CallsBase(tables(j), key, attempts(j))
    ensures OutcomeOf(tables(j), key, attempts(j)) == Outcome(Some(r), None)
  {
    assert RegularAt(tables, key, ttl, attempts, a);
    RecordHolds(tables(a), key, ttl, attempts(a), r);
    RecordLastsOverAttempts(tables, key, ttl, attempts, a + 1, j, r, attempts(a).settleAt + ttl);
    assert RegularAt(tables, key, ttl, attempts, j);
    RecordAnswersAttempt(tables(j), key, ttl, attempts(j), r, attempts(a).settleAt + ttl);
  }

  /** RETRY OVER IDEMPOTENCY. In a run of the loop over an idempotent provider, let attempt a record the result
      r of its base call, the loop going on after it and staying within the ttl. If r is a success the very next attempt
      returns it. If r is a recorded failure no attempt reaches the base again: the loop uses them all up and
      returns that failure with a nil error, unless it is cancelled. */
  lemma LoopAfterRecordedResult(cfg: Retry.RetryConfig, tables: nat -> T.Table, key: T.Key, ttl: int,
                                attempts: nat -> Attempt, cancelled: nat -> bool, ctxErr: ErrorValue, n: nat,
                                e: Retry.Ending, a: nat, r: ResultValue)
    requires RegularLoop(tables, key, ttl, attempts) && a + 1 < n
    requires Retry.IsRun(cfg, Outcomes(tables, key, attempts), cancelled, ctxErr, n, e)
    requires Records(tables(a), key, ttl, attempts(a), r) && attempts(n - 1).lockAt < attempts(a).settleAt + ttl
    ensures forall j | a < j < n :: !CallsBase(tables(j), key, attempts(j))
    ensures r.ok ==> n == a + 2 && e == Retry.Returned(Outcome(Some(r), None))
    ensures !r.ok ==> if n == cfg.MaxAttempts() then e == Retry.Returned(Outcome(Some(r), None))
                      else cancelled(n) && e == Retry.Returned(Outcome(None, Some(ctxErr)))
  {
    forall j | a < j < n
      ensures !CallsBase(tables(j), key, attempts(j))
      ensures OutcomeOf(tables(j), key, attempts(j)) == Outcome(Some(r), None)
    {
      LocksAreOrdered(tables, key, ttl, attempts, j, n - 1);
      NoSecondBaseCall(tables, key, ttl, attempts, a, j, r);
    }
    Retry.RunOnFixedResult(cfg, Outcomes(tables, key, attempts), cancelled, ctxErr, n, e, a, r);
  }

  /** A losing caller's ErrSendInFlight is retryable under every configuration. */
  lemma InFlightIsRetryable(cfg: Retry.RetryConfig)
    ensures Retryable(cfg.retryableReasons, Some(ERR_SEND_IN_FLIGHT)) && !Retry.Stops(cfg, IN_FLIGHT)
  {
  }

  /** Every way the loop can end: cancelled; with a recorded result and no error; with the outcome of a claim of its
      own, or by a crash on that outcome; or, having lost every remaining attempt, with ErrSendInFlight. */
  lemma LoopEndings(cfg: Retry.RetryConfig, tables: nat -> T.Table, key: T.Key, attempts: nat -> Attempt,
                    cancelled: nat -> bool, ctxErr: ErrorValue, n: nat, e: Retry.Ending)
    requires Retry.IsRun(cfg, Outcomes(tables, key, attempts), cancelled, ctxErr, n, e) && n > 0
    ensures var last := AnswerTo(tables(n - 1), key, attempts(n - 1));
            || (cancelled(n) && n < cfg.MaxAttempts() && e == Retry.Returned(Outcome(None, Some(ctxErr))))
            || (last.Recorded? && e == Retry.Returned(Outcome(Some(last.result), None)))
            || (last.Claimed? && e == if Retry.NilWithoutError(attempts(n - 1).base) then Retry.Panicked
                                      else Retry.Returned(attempts(n - 1).base))
            || (last.InFlight? && n == cfg.MaxAttempts() && e == Retry.Returned(IN_FLIGHT))
  {
    InFlightIsRetryable(cfg);
    Retry.RunEndings(cfg, Outcomes(tables, key, attempts), cancelled, ctxErr, n, e);
  }

  // ---------------------------------------------------------------- idempotency over retry

  /** A retry loop run by the holder of a claim, and how long each of its calls takes. */
  datatype Loop = Loop(stream: nat -> Outcome, cancelled: nat -> bool, ctxErr: ErrorValue, durations: nat -> int,
                       calls: nat, ending: Retry.Ending)

  function CallTime(durations: nat -> int, n: nat): int {
    if n == 0 then 0 else CallTime(durations, n - 1) + durations(n - 1)
  }

  /** Waits the loop enters: one before each call but the first, and the one that cancellation cuts short. */
  function WaitsEntered(cfg: Retry.RetryConfig, l: Loop): nat {
    if l.calls == 0 then 0
    else if l.calls < cfg.MaxAttempts() && l.cancelled(l.calls) then l.calls
    else l.calls - 1
  }

  function LongestRun(cfg: Retry.RetryConfig, l: Loop): int {
    CallTime(l.durations, l.calls) + Retry.TotalDelay(cfg, WaitsEntered(cfg, l))
  }

  lemma {:induction false} CallTimeBound(durations: nat -> int, n: nat, m: nat, bound: int)
    requires n <= m && bound >= 0 && forall i: nat :: durations(i) <= bound
    ensures CallTime(durations, n) <= m * bound
    decreases m
  {
    if n > 0 {
      CallTimeBound(durations, n - 1, m - 1, bound);
      OneMore(m, bound);
    } else {
      assert m * bound >= 0;
    }
  }

  ghost predicate SaneBackoff(cfg: Retry.RetryConfig) {
    cfg.retryDelay >= 0 && cfg.backoffMultiplier >= 0.0 && cfg.maxRetryDelay >= 0
  }

  lemma {:induction false} TotalDelayGrows(cfg: Retry.RetryConfig, n: nat, m: nat)
    requires SaneBackoff(cfg) && n <= m
    ensures Retry.TotalDelay(cfg, n) <= Retry.TotalDelay(cfg, m)
  {
    if n < m {
      TotalDelayGrows(cfg, n, m - 1);
      Retry.DelayIsMonotone(cfg, m - 1, m - 1);
    }
  }

  /** The longest a retry loop can hold a claim: MaxRetries + 1 calls and MaxRetries waits. */
  lemma LoopTimeBound(cfg: Retry.RetryConfig, l: Loop, bound: int)
    requires SaneBackoff(cfg) && 0 <= cfg.maxRetries < Retry.MAX_INT && bound >= 0
    requires Retry.IsRun(cfg, l.stream, l.cancelled, l.ctxErr, l.calls, l.ending)
    requires forall i: nat :: l.durations(i) <= bound
    ensures LongestRun(cfg, l) <= (cfg.maxRetries + 1) * bound + Retry.TotalDelay(cfg, cfg.maxRetries)
  {
    CallTimeBound(l.durations, l.calls, cfg.maxRetries + 1, bound);
    TotalDelayGrows(cfg, WaitsEntered(cfg, l), cfg.maxRetries);
  }

  /** With base calls that all take the same time the bound is exact: `calls` calls, and the waits between them, with
      the one before the next attempt if cancellation cuts that one short. */
  lemma LoopTimeExact(cfg: Retry.RetryConfig, l: Loop, each: int)
    requires Retry.IsRun(cfg, l.stream, l.cancelled, l.ctxErr, l.calls, l.ending) && l.calls > 0
    requires forall i: nat :: l.durations(i) == each
    ensures var waits := if l.calls <= cfg.maxRetries && l.cancelled(l.calls) then l.calls else l.calls - 1;
            LongestRun(cfg, l) == l.calls * each + Retry.TotalDelay(cfg, waits)
  {
    CallTimeExact(l.durations, l.calls, each);
  }

  lemma {:induction false} CallTimeExact(durations: nat -> int, n: nat, each: int)
    requires forall i: nat :: durations(i) == each
    ensures CallTime(durations, n) == n * each
  {
    if n > 0 {
      CallTimeExact(durations, n - 1, each);
      OneMore(n, each);
    }
  }

  /** A loop cancelled during its backoff makes Send abandon its claim: the claim is gone from the store, the caller
      gets the context's error, and the next Reserve for the key is granted. */
  lemma CancelledBackoffReleases(cfg: Retry.RetryConfig, l: Loop, s: P.State, p: P.Caller, next: T.Token, stamp: int)
    requires Retry.IsRun(cfg, l.stream, l.cancelled, l.ctxErr, l.calls, l.ending)
    requires 0 < l.calls < cfg.MaxAttempts() && !Retry.NilWithoutError(l.stream(l.calls - 1))
             && !Retry.Stops(cfg, l.stream(l.calls - 1))
    requires P.Inv(s) && p in s.callers && s.callers[p].Returned?
    requires l.ending.Returned? && s.callers[p].outcome == l.ending.outcome
    requires T.Claims(s.table, s.callers[p].claim.key, s.callers[p].claim.token, s.callers[p].claim.Deadline())
    ensures var s' := P.Next(s, P.Settle(p)); var key := s.callers[p].claim.key;
            && s'.table == T.Delete(s.table, key)
            && s'.callers[p].reply == Outcome(None, Some(l.ctxErr))
            && T.ReserveAnswerOf(s'.table, key, next, stamp) == T.Claimed(next)
  {
  }
}
