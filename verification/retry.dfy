/** The retry loop, its backoff, and what it does to any stream of provider outcomes. */
module Retry {
  import opened Values
  import opened ErrorChain
  import opened Arithmetic

  const MAX_INT := 0x7FFF_FFFF_FFFF_FFFF

  type Int64 = x: int | -0x8000_0000_0000_0000 <= x <= 0x7FFF_FFFF_FFFF_FFFF

  datatype RetryConfig = RetryConfig(
    maxRetries: Int64,
    retryDelay: int,
    maxRetryDelay: int,
    backoffMultiplier: real,
    retryableReasons: seq<ErrorReason>)
  {
    /** MaxRetries + 1 in 64 bits. */
    function MaxAttempts(): Int64 {
      if maxRetries == MAX_INT then -0x8000_0000_0000_0000 else maxRetries + 1
    }

    function UncappedDelay(attempt: int): real {
      retryDelay as real * (attempt + 1) as real * backoffMultiplier
    }

    /** The wait before retry number `attempt`: linear in the attempt, and capped. */
    function CalculateDelay(attempt: int): int {
      var delay := Truncate(UncappedDelay(attempt));
      if delay > maxRetryDelay then maxRetryDelay else delay
    }
  }

  const MILLISECOND := 1_000_000

  const SECOND := 1_000_000_000

  const DEFAULT_RETRY_CONFIG: RetryConfig :=
    RetryConfig(3, 100 * MILLISECOND, 5 * SECOND, 2.0, [REASON_PROVIDER_DOWN, REASON_TIMEOUT, REASON_RATE_LIMITED])

  /** Conversion of a float to an integer type drops the fraction. */
  function Truncate(x: real): int {
    if x >= 0.0 then x.Floor else -((-x).Floor)
  }

  // ---------------------------------------------------------------- the loop

  datatype Ending = Returned(outcome: Outcome) | Panicked

  /** The loop is over after this outcome, however many attempts are left. */
  ghost predicate Stops(cfg: RetryConfig, o: Outcome) {
    || (o.err.None? && o.result.Some? && o.result.value.ok)
    || (o.err.Some? && !Retryable(cfg.retryableReasons, o.err))
  }

  /** The loop reads OK from the result of a nil error without looking whether there is one. */
  predicate NilWithoutError(o: Outcome) {
    o.err.None? && o.result.None?
  }

  /** What a loop over a stream of outcomes does: it makes `calls` calls and ends like this.
      `cancelled(i)` tells whether cancellation wins the wait before attempt i. */
  ghost predicate IsRun(cfg: RetryConfig, stream: nat -> Outcome, cancelled: nat -> bool, ctxErr: ErrorValue,
          calls: nat, ending: Ending) {
    if cfg.MaxAttempts() <= 0 then
      calls == 0 && ending == Returned(Outcome(None, None))
    else
      && 1 <= calls <= cfg.MaxAttempts()
      && (forall i | 0 <= i < calls - 1 :: !Stops(cfg, stream(i)) && !NilWithoutError(stream(i)))
      && (forall i | 0 < i < calls :: !cancelled(i))
      && var last := stream(calls - 1);
         if NilWithoutError(last) then ending == Panicked
         else if Stops(cfg, last) || calls == cfg.MaxAttempts() then ending == Returned(last)
         else cancelled(calls) && ending == Returned(Outcome(None, Some(ctxErr)))
  }

  /** The end of the loop, if it does not outlast this outcome. */
  method Judge(cfg: RetryConfig, last: Outcome) returns (over: Option<Ending>)
    ensures over == if NilWithoutError(last) then Some(Panicked)
                    else if Stops(cfg, last) then Some(Returned(last))
                    else None
  {
    if last.err.None? {
      if last.result.None? {
        return Some(Panicked);
      }
      if last.result.value.ok {
        return Some(Returned(last));
      }
    } else {
      var again := IsRetryable(cfg.retryableReasons, last.err);
      if !again {
        return Some(Returned(last));
      }
    }
    return None;
  }

  method Send(cfg: RetryConfig, stream: nat -> Outcome, cancelled: nat -> bool, ctxErr: ErrorValue)
    returns (ending: Ending, calls: nat, waits: seq<int>)
    ensures IsRun(cfg, stream, cancelled, ctxErr, calls, ending)
    ensures |waits| == (if calls == 0 then 0 else calls - 1)
    ensures forall i | 0 <= i < |waits| :: waits[i] == cfg.CalculateDelay(i)
  {
    var last := Outcome(None, None);
    var maxAttempts := cfg.MaxAttempts();
    var attempt := 0;
    calls, waits := 0, [];
    while attempt < maxAttempts
      invariant calls == attempt && 0 <= attempt <= (if maxAttempts > 0 then maxAttempts else 0)
      invariant |waits| == (if calls == 0 then 0 else calls - 1)
      invariant forall i | 0 <= i < |waits| :: waits[i] == cfg.CalculateDelay(i)
      invariant forall i | 0 <= i < attempt :: !Stops(cfg, stream(i)) && !NilWithoutError(stream(i))
      invariant forall i | 0 < i < attempt :: !cancelled(i)
      invariant last == if attempt == 0 then Outcome(None, None) else stream(attempt - 1)
    {
      if attempt > 0 {
        var delay := cfg.CalculateDelay(attempt - 1);
        if cancelled(attempt) {
          return Returned(Outcome(None, Some(ctxErr))), calls, waits;
        }
        waits := waits + [delay];
      }
      last := stream(attempt);
      calls := calls + 1;
      var over := Judge(cfg, last);
      if over.Some? {
        return over.value, calls, waits;
      }
      attempt := attempt + 1;
    }
    return Returned(last), calls, waits;
  }

  /** The description leaves no choice. */
  lemma RunsAreUnique(cfg: RetryConfig, stream: nat -> Outcome, cancelled: nat -> bool, ctxErr: ErrorValue,
                      n: nat, e: Ending, n': nat, e': Ending)
    requires IsRun(cfg, stream, cancelled, ctxErr, n, e) && IsRun(cfg, stream, cancelled, ctxErr, n', e')
    ensures n == n' && e == e'
  {
  }

  /** A run looks at no outcome past its last call. */
  lemma RunsAreLocal(cfg: RetryConfig, stream: nat -> Outcome, other: nat -> Outcome, cancelled: nat -> bool,
                     ctxErr: ErrorValue, n: nat, e: Ending)
    requires IsRun(cfg, stream, cancelled, ctxErr, n, e)
    requires forall i | 0 <= i < n :: stream(i) == other(i)
    ensures IsRun(cfg, other, cancelled, ctxErr, n, e)
  {
    if cfg.MaxAttempts() > 0 {
      assert stream(n - 1) == other(n - 1);
      forall i | 0 <= i < n - 1 ensures !Stops(cfg, other(i)) && !NilWithoutError(other(i)) {
        assert stream(i) == other(i);
      }
    }
  }

  function Min(a: int, b: int): int { if a < b then a else b }

  /** CALL COUNT. With 0 <= MaxRetries < max int, let outcome `stop` be the first that stops the loop or crashes it
      and `cut` the first wait that cancellation wins. The loop makes min(stop, MaxRetries) + 1 calls and returns
      the last outcome unless the cut comes first: then it makes `cut` calls and returns the context's error. */
  lemma CallCount(cfg: RetryConfig, stream: nat -> Outcome, cancelled: nat -> bool, ctxErr: ErrorValue, n: nat,
          e: Ending, stop: nat, cut: nat)
    requires IsRun(cfg, stream, cancelled, ctxErr, n, e) && 0 <= cfg.maxRetries < MAX_INT
    requires forall i | 0 <= i < stop && i <= cfg.maxRetries :: !Stops(cfg, stream(i)) && !NilWithoutError(stream(i))
    requires stop <= cfg.maxRetries ==> Stops(cfg, stream(stop)) || NilWithoutError(stream(stop))
    requires cut > 0 && forall i | 0 < i < cut && i <= cfg.maxRetries :: !cancelled(i)
    requires cut <= cfg.maxRetries ==> cancelled(cut)
    ensures n == Min(Min(stop, cfg.maxRetries) + 1, cut)
    ensures e == if cut <= Min(stop, cfg.maxRetries) then Returned(Outcome(None, Some(ctxErr)))
                 else if NilWithoutError(stream(n - 1)) then Panicked
                 else Returned(stream(n - 1))
  {
    assert n <= stop && n <= cfg.maxRetries ==> !Stops(cfg, stream(n - 1)) && !NilWithoutError(stream(n - 1));
    assert n <= cfg.maxRetries && n < cut ==> !cancelled(n);
  }

  /** The provider is called at all if and only if MaxRetries is neither negative nor the largest int, which
      overflows; otherwise the loop returns neither a result nor an error. */
  lemma CallsAtAll(cfg: RetryConfig, stream: nat -> Outcome, cancelled: nat -> bool, ctxErr: ErrorValue, n: nat,
          e: Ending)
    requires IsRun(cfg, stream, cancelled, ctxErr, n, e)
    ensures n > 0 <==> 0 <= cfg.maxRetries < MAX_INT
    ensures n == 0 ==> e == Returned(Outcome(None, None))
  {
  }

  /** WHAT A CALL DECIDES. Each outcome of a run, whatever surrounds it, settles how the run goes on. A result that says
      OK, with no error, is returned; no result and no error is a crash; a provider error whose reason is not to be
      retried is returned with the result beside it, if any. All else, errors that hold no provider error included,
      is followed by another call, unless MaxRetries is used up or the next wait is cancelled. */
  lemma CallDecides(cfg: RetryConfig, stream: nat -> Outcome, cancelled: nat -> bool, ctxErr: ErrorValue, n: nat,
          e: Ending, i: nat)
    requires IsRun(cfg, stream, cancelled, ctxErr, n, e) && i < n
    ensures var Outcome(result, err) := stream(i);
            if err.None? && result.None? then
              n == i + 1 && e == Panicked
            else if err.None? && result.value.ok then
              n == i + 1 && e == Returned(stream(i))
            else if err.Some? && First(err.value).Some? && First(err.value).value.reason !in cfg.retryableReasons then
              n == i + 1 && e == Returned(stream(i))
            else if i == cfg.maxRetries then
              n == i + 1 && e == Returned(stream(i))
            else if cancelled(i + 1) then
              n == i + 1 && e == Returned(Outcome(None, Some(ctxErr)))
            else
              n > i + 1
  {
  }

  /** A result that says it failed. */
  predicate FailsQuietly(o: Outcome) {
    o.err.None? && o.result.Some? && !o.result.value.ok
  }

  /** A failing result with a nil error is retried whatever reason it carries and whatever surrounds it: it is followed
      by another attempt, unless it used up the last one, and then it is returned as it is, or cancellation wins the
      wait after it. */
  lemma FailingResultsAreRetried(cfg: RetryConfig, stream: nat -> Outcome, cancelled: nat -> bool,
          ctxErr: ErrorValue, n: nat, e: Ending, i: nat)
    requires IsRun(cfg, stream, cancelled, ctxErr, n, e) && i < n && FailsQuietly(stream(i))
    ensures || i + 1 < n
            || (n == cfg.MaxAttempts() && e == Returned(stream(i)))
            || (n < cfg.MaxAttempts() && cancelled(n) && e == Returned(Outcome(None, Some(ctxErr))))
  {
    RunEndings(cfg, stream, cancelled, ctxErr, n, e);
  }

  /** With nothing else in the stream every attempt is used up. */
  lemma NothingButFailingResults(cfg: RetryConfig, stream: nat -> Outcome, cancelled: nat -> bool,
          ctxErr: ErrorValue, n: nat, e: Ending)
    requires IsRun(cfg, stream, cancelled, ctxErr, n, e) && 0 <= cfg.maxRetries < MAX_INT
    requires forall i | 0 <= i <= cfg.maxRetries :: !cancelled(i) && FailsQuietly(stream(i))
    ensures n == cfg.maxRetries + 1 && e == Returned(stream(cfg.maxRetries))
  {
    CallCount(cfg, stream, cancelled, ctxErr, n, e, cfg.maxRetries + 1, cfg.maxRetries + 1);
  }

  /** A run that makes calls ends with its last outcome, having stopped or run out of attempts, crashes on it,
      or is cancelled after it. */
  lemma RunEndings(cfg: RetryConfig, stream: nat -> Outcome, cancelled: nat -> bool, ctxErr: ErrorValue, n: nat,
          e: Ending)
    requires IsRun(cfg, stream, cancelled, ctxErr, n, e) && n > 0
    ensures || (NilWithoutError(stream(n - 1)) && e == Panicked)
            || (!NilWithoutError(stream(n - 1)) && e == Returned(stream(n - 1))
                && (Stops(cfg, stream(n - 1)) || n == cfg.MaxAttempts()))
            || (cancelled(n) && n < cfg.MaxAttempts() && e == Returned(Outcome(None, Some(ctxErr))))
  {
  }

  /** A loop that sees nothing but one and the same error-free result from attempt a + 1 on: a success ends it at
      once, a failure never does. */
  lemma RunOnFixedResult(cfg: RetryConfig, stream: nat -> Outcome, cancelled: nat -> bool, ctxErr: ErrorValue,
          n: nat, e: Ending, a: nat, r: ResultValue)
    requires IsRun(cfg, stream, cancelled, ctxErr, n, e) && a + 1 < n
    requires forall j | a < j < n :: stream(j) == Outcome(Some(r), None)
    ensures r.ok ==> n == a + 2 && e == Returned(Outcome(Some(r), None))
    ensures !r.ok ==> if n == cfg.MaxAttempts() then e == Returned(Outcome(Some(r), None))
                      else cancelled(n) && e == Returned(Outcome(None, Some(ctxErr)))
  {
    assert r.ok ==> Stops(cfg, stream(a + 1));
  }

  // ---------------------------------------------------------------- backoff

  function TotalDelay(cfg: RetryConfig, n: nat): int {
    if n == 0 then 0 else TotalDelay(cfg, n - 1) + cfg.CalculateDelay(n - 1)
  }

  lemma TruncateIsMonotone(x: real, y: real)
    requires x <= y
    ensures Truncate(x) <= Truncate(y)
  {
  }

  lemma UncappedDelayGrows(cfg: RetryConfig, a: nat, b: nat)
    requires cfg.retryDelay >= 0 && cfg.backoffMultiplier >= 0.0 && a <= b
    ensures 0.0 <= cfg.UncappedDelay(a) <= cfg.UncappedDelay(b)
  {
    var d, m := cfg.retryDelay as real, cfg.backoffMultiplier;
    TimesIsMonotone(0.0, (a + 1) as real, d);
    TimesIsMonotone((a + 1) as real, (b + 1) as real, d);
    TimesIsMonotone(0.0, d * (a + 1) as real, m);
    TimesIsMonotone(d * (a + 1) as real, d * (b + 1) as real, m);
  }

  /** For non-negative settings later retries wait no less, and none longer than the cap. */
  lemma DelayIsMonotone(cfg: RetryConfig, a: nat, b: nat)
    requires cfg.retryDelay >= 0 && cfg.backoffMultiplier >= 0.0 && cfg.maxRetryDelay >= 0 && a <= b
    ensures 0 <= cfg.CalculateDelay(a) <= cfg.CalculateDelay(b) <= cfg.maxRetryDelay
  {
    UncappedDelayGrows(cfg, a, b);
    TruncateIsMonotone(cfg.UncappedDelay(a), cfg.UncappedDelay(b));
  }

  /** The delay is RetryDelay * (attempt + 1) * BackoffMultiplier without its fraction, or the cap if that is less. */
  lemma DelayLaw(cfg: RetryConfig, attempt: nat)
    ensures var x := cfg.retryDelay as real * (attempt as real + 1.0) * cfg.backoffMultiplier;
            var delay := cfg.CalculateDelay(attempt);
            && delay <= cfg.maxRetryDelay
            && (delay < cfg.maxRetryDelay && x >= 0.0 ==> delay as real <= x < delay as real + 1.0)
            && (delay < cfg.maxRetryDelay && x < 0.0 ==> delay as real - 1.0 < x <= delay as real)
            && (delay == cfg.maxRetryDelay ==>
                  if x >= 0.0 then delay as real <= x else delay as real < x + 1.0)
  {
    assert (attempt + 1) as real == attempt as real + 1.0;
  }

  lemma Exchange(d: real, a: real, m: real)
    ensures d * a * m == d * m * a
  {
  }

  lemma IntegralDelay(cfg: RetryConfig, c: int, j: nat)
    requires cfg.retryDelay as real * cfg.backoffMultiplier == c as real && c > 0
    ensures cfg.CalculateDelay(j) == if c * (j + 1) > cfg.maxRetryDelay then cfg.maxRetryDelay else c * (j + 1)
  {
    Exchange(cfg.retryDelay as real, (j + 1) as real, cfg.backoffMultiplier);
    assert cfg.UncappedDelay(j) == (c * (j + 1)) as real;
    assert c * (j + 1) >= 0;
  }

  /** The default settings wait 200ms longer each time, and 5s at most. */
  lemma DefaultDelay(j: nat)
    ensures DEFAULT_RETRY_CONFIG.maxRetries == 3
    ensures DEFAULT_RETRY_CONFIG.CalculateDelay(j) == Min(200 * MILLISECOND * (j + 1), 5 * SECOND)
  {
    IntegralDelay(DEFAULT_RETRY_CONFIG, 200 * MILLISECOND, j);
  }

  /** BACKOFF. When RetryDelay * BackoffMultiplier is a positive integer c, the first k = min(n, cap div c) of n
      waits grow by c each and the others are the cap: twice the total is c*k*(k+1) + 2*(n-k)*cap. */
  lemma {:induction false} TotalDelayFormula(cfg: RetryConfig, c: int, n: nat)
    requires cfg.retryDelay as real * cfg.backoffMultiplier == c as real && c > 0 && cfg.maxRetryDelay >= 0
    ensures var k := Min(n, cfg.maxRetryDelay / c);
            2 * TotalDelay(cfg, n) == c * (k * (k + 1)) + 2 * ((n - k) * cfg.maxRetryDelay)
  {
    if n > 0 {
      TotalDelayFormula(cfg, c, n - 1);
      NthWait(cfg, c, n);
      OneMoreWait(c, cfg.maxRetryDelay, n, cfg.maxRetryDelay / c);
    }
  }

  lemma NthWait(cfg: RetryConfig, c: int, n: nat)
    requires cfg.retryDelay as real * cfg.backoffMultiplier == c as real && c > 0 && cfg.maxRetryDelay >= 0 && n > 0
    ensures cfg.CalculateDelay(n - 1) == if n <= cfg.maxRetryDelay / c then c * n else cfg.maxRetryDelay
  {
    IntegralDelay(cfg, c, n - 1);
    DivisionBounds(cfg.maxRetryDelay, c, n);
    assert n - 1 + 1 == n;
  }

  /** The closed form grows by the n-th wait. */
  lemma OneMoreWait(c: int, cap: int, n: int, q: int)
    ensures var k', k := Min(n - 1, q), Min(n, q);
            c * (k * (k + 1)) + 2 * ((n - k) * cap)
            == c * (k' * (k' + 1)) + 2 * ((n - 1 - k') * cap) + 2 * (if n <= q then c * n else cap)
  {
    if n <= q {
      Triangle(c, n);
    } else {
      OneMore(n - q, cap);
    }
  }

  lemma Triangle(c: int, n: int)
    ensures c * (n * (n + 1)) == c * ((n - 1) * (n - 1 + 1)) + 2 * (c * n)
  {
    assert n * (n + 1) == (n - 1) * (n - 1 + 1) + 2 * n;
    assert c * ((n - 1) * (n - 1 + 1) + 2 * n) == c * ((n - 1) * (n - 1 + 1)) + c * (2 * n);
  }

  /** Whatever the settings, n waits never exceed n times the cap. */
  lemma {:induction false} TotalDelayIsCapped(cfg: RetryConfig, n: nat)
    ensures TotalDelay(cfg, n) <= n * cfg.maxRetryDelay
  {
    if n > 0 {
      TotalDelayIsCapped(cfg, n - 1);
      OneMore(n, cfg.maxRetryDelay);
    }
  }
}
