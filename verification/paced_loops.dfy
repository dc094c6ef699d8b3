/** Idempotency over retry, step by step: the Sends of the protocol whose provider is a retry loop, its base calls and
    waits being steps of their own. */
module PacedLoops {
  import opened Values
  import opened Arithmetic
  import T = ClaimTable
  import P = SendProtocol
  import Retry
  import C = Composition

  /** Where the loop of a Send stands, after the outcomes it has seen. */
  datatype Loop =
    | InCall(seen: seq<Outcome>, since: int)
    | Waiting(seen: seq<Outcome>, since: int)
    | Over(seen: seq<Outcome>, cancelled: bool, outcome: Outcome, at: int)
    | Crashed(seen: seq<Outcome>)

  datatype State = State(p: P.State, loops: map<P.Caller, Loop>)

  datatype Step =
    | Outer(step: P.Step)
    | BaseReturns(p: P.Caller, outcome: Outcome)
    | WaitEnds(p: P.Caller)
    | Cancel(p: P.Caller, ctxErr: ErrorValue)

  /** A call of the wrapped provider returns when its loop is over, with what the loop returns. */
  predicate Enabled(s: State, step: Step) {
    match step
    case Outer(step) => step.ProviderReturns? ==>
        step.p in s.loops && s.loops[step.p].Over? && s.loops[step.p].outcome == step.outcome
    case BaseReturns(p, _) => p in s.loops && s.loops[p].InCall?
    case WaitEnds(p) => p in s.loops && s.loops[p].Waiting?
    case Cancel(p, _) => p in s.loops && s.loops[p].Waiting?
  }

  function Started(cfg: Retry.RetryConfig, clock: int): Loop {
    if cfg.MaxAttempts() <= 0 then Over([], false, Outcome(None, None), clock) else InCall([], clock)
  }

  ghost function Continued(cfg: Retry.RetryConfig, seen: seq<Outcome>, o: Outcome, clock: int): Loop {
    if Retry.NilWithoutError(o) then Crashed(seen + [o])
    else if Retry.Stops(cfg, o) || |seen| + 1 >= cfg.MaxAttempts() then Over(seen + [o], false, o, clock)
    else Waiting(seen + [o], clock)
  }

  ghost function Next(cfg: Retry.RetryConfig, s: State, step: Step): State {
    if !Enabled(s, step) then s
    else
      match step
      case Outer(step) =>
        var calls := step.CallProvider? && P.Enabled(s.p, step);
        State(P.Next(s.p, step), if calls then s.loops[step.p := Started(cfg, s.p.clock)] else s.loops)
      case BaseReturns(p, o) => s.(loops := s.loops[p := Continued(cfg, s.loops[p].seen, o, s.p.clock)])
      case WaitEnds(p) => s.(loops := s.loops[p := InCall(s.loops[p].seen, s.p.clock)])
      case Cancel(p, e) =>
        s.(loops := s.loops[p := Over(s.loops[p].seen, true, Outcome(None, Some(e)), s.p.clock)])
  }

  ghost function StateAt(cfg: Retry.RetryConfig, clock: int, steps: seq<Step>, i: nat): State
    requires i <= |steps|
  {
    if i == 0 then State(P.Init(clock), map[]) else Next(cfg, StateAt(cfg, clock, steps, i - 1), steps[i - 1])
  }

  // ---------------------------------------------------------------- the run without the loops' insides

  ghost function OuterStep(s: State, step: Step): P.Step {
    if step.Outer? && Enabled(s, step) then step.step else P.Tick(0)
  }

  ghost function OuterSteps(cfg: Retry.RetryConfig, clock: int, steps: seq<Step>): seq<P.Step> {
    seq(|steps|, i requires 0 <= i < |steps| => OuterStep(StateAt(cfg, clock, steps, i), steps[i]))
  }

  /** A run with loops is a run of the send protocol. */
  lemma {:induction false} RunsTheProtocol(cfg: Retry.RetryConfig, clock: int, steps: seq<Step>, i: nat)
    requires i <= |steps|
    ensures P.StateAt(clock, OuterSteps(cfg, clock, steps), i) == StateAt(cfg, clock, steps, i).p
  {
    if i > 0 {
      RunsTheProtocol(cfg, clock, steps, i - 1);
      assert OuterSteps(cfg, clock, steps)[i - 1] == OuterStep(StateAt(cfg, clock, steps, i - 1), steps[i - 1]);
    }
  }

  // ---------------------------------------------------------------- the insides are retry loops

  ghost predicate GoesOn(cfg: Retry.RetryConfig, seen: seq<Outcome>) {
    forall i | 0 <= i < |seen| :: !Retry.Stops(cfg, seen[i]) && !Retry.NilWithoutError(seen[i])
  }

  ghost predicate Regular(cfg: Retry.RetryConfig, l: Loop) {
    match l
    case InCall(seen, _) => |seen| < cfg.MaxAttempts() && GoesOn(cfg, seen)
    case Waiting(seen, _) => 0 < |seen| < cfg.MaxAttempts() && GoesOn(cfg, seen)
    case Over(seen, cancelled, o, _) =>
      if cancelled then 0 < |seen| < cfg.MaxAttempts() && GoesOn(cfg, seen) && o.result.None? && o.err.Some?
      else if seen == [] then cfg.MaxAttempts() <= 0 && o == Outcome(None, None)
      else
        && |seen| <= cfg.MaxAttempts() && GoesOn(cfg, seen[..|seen| - 1])
        && o == seen[|seen| - 1] && !Retry.NilWithoutError(o)
        && (Retry.Stops(cfg, o) || |seen| == cfg.MaxAttempts())
    case Crashed(_) => true
  }

  /** Loops and phases go together. */
  ghost predicate Matches(s: State, p: P.Caller) {
    && (p in s.loops ==> p in s.p.callers && P.Rank(s.p.callers[p]) >= 2)
    && (p in s.loops && !s.loops[p].Over? ==> s.p.callers[p].Calling?)
    && (p in s.p.callers && (s.p.callers[p].Calling? || s.p.callers[p].Returned?) ==> p in s.loops)
  }

  lemma StepKeepsMatch(cfg: Retry.RetryConfig, s: State, step: Step, p: P.Caller)
    requires Matches(s, p)
    ensures Matches(Next(cfg, s, step), p)
  {
  }

  lemma StepKeepsRegular(cfg: Retry.RetryConfig, s: State, step: Step, p: P.Caller)
    requires p in s.loops ==> Regular(cfg, s.loops[p])
    ensures p in Next(cfg, s, step).loops ==> Regular(cfg, Next(cfg, s, step).loops[p])
  {
    if step.BaseReturns? && step.p == p && Enabled(s, step) {
      var seen := s.loops[p].seen;
      assert (seen + [step.outcome])[..|seen|] == seen;
    }
  }

  lemma {:induction false} LoopsAreRegular(cfg: Retry.RetryConfig, clock: int, steps: seq<Step>, i: nat, p: P.Caller)
    requires i <= |steps|
    ensures Matches(StateAt(cfg, clock, steps, i), p)
    ensures p in StateAt(cfg, clock, steps, i).loops ==> Regular(cfg, StateAt(cfg, clock, steps, i).loops[p])
  {
    if i > 0 {
      LoopsAreRegular(cfg, clock, steps, i - 1, p);
      StepKeepsMatch(cfg, StateAt(cfg, clock, steps, i - 1), steps[i - 1], p);
      StepKeepsRegular(cfg, StateAt(cfg, clock, steps, i - 1), steps[i - 1], p);
    }
  }

  function Stream(seen: seq<Outcome>): nat -> Outcome {
    (i: nat) => if i < |seen| then seen[i] else Outcome(None, None)
  }

  function CancelledAt(cancelled: bool, n: nat): nat -> bool {
    (i: nat) => cancelled && i == n
  }

  /** A loop that is over in a run is a run of the retry loop on what its base calls returned. */
  lemma LoopsAreRetries(cfg: Retry.RetryConfig, clock: int, steps: seq<Step>, i: nat, p: P.Caller)
    requires i <= |steps|
    requires p in StateAt(cfg, clock, steps, i).loops && StateAt(cfg, clock, steps, i).loops[p].Over?
    ensures var l := StateAt(cfg, clock, steps, i).loops[p];
            Retry.IsRun(cfg, Stream(l.seen), CancelledAt(l.cancelled, |l.seen|),
                        if l.outcome.err.Some? then l.outcome.err.value else ERR_SEND_IN_FLIGHT,
                        |l.seen|, Retry.Returned(l.outcome))
  {
    LoopsAreRegular(cfg, clock, steps, i, p);
    var l := StateAt(cfg, clock, steps, i).loops[p];
    if l.seen != [] && !l.cancelled {
      assert forall j | 0 <= j < |l.seen| - 1 :: l.seen[j] == l.seen[..|l.seen| - 1][j];
    }
  }

  /** The state after k base calls of p's loop, each followed by its wait. */
  ghost function Feed(cfg: Retry.RetryConfig, s: State, p: P.Caller, stream: nat -> Outcome, k: nat): State {
    if k == 0 then s
    else Next(cfg, Next(cfg, Feed(cfg, s, p, stream, k - 1), BaseReturns(p, stream(k - 1))), WaitEnds(p))
  }

  function Prefix(stream: nat -> Outcome, k: nat): seq<Outcome> {
    if k == 0 then [] else Prefix(stream, k - 1) + [stream(k - 1)]
  }

  lemma {:induction false} FeedGoesOn(cfg: Retry.RetryConfig, s: State, p: P.Caller, stream: nat -> Outcome, k: nat)
    requires p in s.loops && s.loops[p].InCall? && s.loops[p].seen == [] && k < cfg.MaxAttempts()
    requires forall i | 0 <= i < k :: !Retry.Stops(cfg, stream(i)) && !Retry.NilWithoutError(stream(i))
    ensures var s' := Feed(cfg, s, p, stream, k);
            p in s'.loops && s'.loops[p].InCall? && s'.loops[p].seen == Prefix(stream, k) && |Prefix(stream, k)| == k
  {
    if k > 0 {
      FeedGoesOn(cfg, s, p, stream, k - 1);
    }
  }

  /** Conversely every run of the retry loop is one of these: fed with its outcomes, the loop of a Send that has just
      called its provider crashes or returns as that run does, after the same calls. */
  lemma RetriesAreLoops(cfg: Retry.RetryConfig, s: State, p: P.Caller, stream: nat -> Outcome, cancelled: nat -> bool,
                        ctxErr: ErrorValue, n: nat, e: Retry.Ending)
    requires p in s.loops && s.loops[p].InCall? && s.loops[p].seen == []
    requires n > 0 && Retry.IsRun(cfg, stream, cancelled, ctxErr, n, e)
    ensures var last := Next(cfg, Feed(cfg, s, p, stream, n - 1), BaseReturns(p, stream(n - 1)));
            && p in last.loops
            && match e
               case Panicked => last.loops[p].Crashed? && |last.loops[p].seen| == n
               case Returned(o) =>
                 var end := if e == Retry.Returned(stream(n - 1)) && !last.loops[p].Waiting? then last
                            else Next(cfg, last, Cancel(p, ctxErr));
                 && p in end.loops && end.loops[p].Over? && end.loops[p].outcome == o
                 && end.loops[p].seen == Prefix(stream, n) && |Prefix(stream, n)| == n
  {
    FeedGoesOn(cfg, s, p, stream, n - 1);
    assert Prefix(stream, n) == Prefix(stream, n - 1) + [stream(n - 1)];
  }

  // ---------------------------------------------------------------- time

  /** How long the single stages of a Send may take: from the clock reading to the loop, each base call, each wait
      beyond its delay, and from the end of the loop to the settlement. */
  datatype Pace = Pace(start: nat, call: nat, slack: nat, settle: nat)

  /** No stage of a Send for the key has lasted longer. A Send that crashed is not going to move. */
  ghost predicate Punctual(cfg: Retry.RetryConfig, pace: Pace, s: State, key: T.Key) {
    forall p | p in s.p.callers && s.p.callers[p].claim.key == key :: StageInTime(cfg, pace, s, p)
  }

  ghost predicate StageInTime(cfg: Retry.RetryConfig, pace: Pace, s: State, p: P.Caller)
    requires p in s.p.callers
  {
    var ph := s.p.callers[p];
    && (ph.Granted? ==> s.p.clock <= ph.claim.stamp + pace.start)
    && ((ph.Calling? || ph.Returned?) && p in s.loops ==>
          LoopInTime(cfg, pace, s.loops[p], s.p.clock))
  }

  /** The time until attempt n starts. */
  function Until(cfg: Retry.RetryConfig, pace: Pace, n: nat): int {
    if n == 0 then 0 else Until(cfg, pace, n - 1) + pace.call + cfg.CalculateDelay(n - 1) + pace.slack
  }

  lemma {:induction false} UntilFormula(cfg: Retry.RetryConfig, pace: Pace, n: nat)
    ensures Until(cfg, pace, n) == n * (pace.call + pace.slack) + Retry.TotalDelay(cfg, n)
  {
    if n > 0 {
      UntilFormula(cfg, pace, n - 1);
      OneMore(n, pace.call + pace.slack);
    }
  }

  lemma {:induction false} UntilGrows(cfg: Retry.RetryConfig, pace: Pace, n: nat, m: nat)
    requires C.SaneBackoff(cfg) && n <= m
    ensures Until(cfg, pace, n) <= Until(cfg, pace, m)
  {
    if n < m {
      UntilGrows(cfg, pace, n, m - 1);
      Retry.DelayIsMonotone(cfg, m - 1, m - 1);
    }
  }

  /** The loop of a claim stamped at `stamp` is where it is no later than the stages before allow. */
  ghost predicate OnSchedule(cfg: Retry.RetryConfig, pace: Pace, stamp: int, l: Loop) {
    var start := stamp + pace.start;
    match l
    case InCall(seen, since) => since <= start + Until(cfg, pace, |seen|)
    case Waiting(seen, since) => |seen| > 0 && since <= start + Until(cfg, pace, |seen| - 1) + pace.call
    case Over(seen, cancelled, _, at) =>
      if seen == [] then at <= start
      else if cancelled then at <= start + Until(cfg, pace, |seen|)
      else at <= start + Until(cfg, pace, |seen| - 1) + pace.call
    case Crashed(_) => true
  }

  lemma StepKeepsSchedule(cfg: Retry.RetryConfig, pace: Pace, s: State, step: Step, p: P.Caller)
    requires Matches(s, p) && Matches(Next(cfg, s, step), p)
    requires p in s.p.callers ==> StageInTime(cfg, pace, s, p)
    requires p in s.loops ==> OnSchedule(cfg, pace, s.p.callers[p].claim.stamp, s.loops[p])
    requires p in Next(cfg, s, step).loops
    ensures OnSchedule(cfg, pace, Next(cfg, s, step).p.callers[p].claim.stamp, Next(cfg, s, step).loops[p])
  {
    if step.BaseReturns? && step.p == p && Enabled(s, step) {
      var seen := s.loops[p].seen;
      assert |seen + [step.outcome]| - 1 == |seen|;
    }
  }

  ghost predicate PunctualRun(cfg: Retry.RetryConfig, pace: Pace, clock: int, steps: seq<Step>, key: T.Key) {
    forall i | 0 <= i <= |steps| :: Punctual(cfg, pace, StateAt(cfg, clock, steps, i), key)
  }

  lemma {:induction false} LoopsKeepSchedule(cfg: Retry.RetryConfig, pace: Pace, clock: int, steps: seq<Step>,
                                             key: T.Key, i: nat, p: P.Caller)
    requires i <= |steps| && PunctualRun(cfg, pace, clock, steps, key)
    ensures var s := StateAt(cfg, clock, steps, i);
            Matches(s, p) && (p in s.loops && s.p.callers[p].claim.key == key ==>
                                OnSchedule(cfg, pace, s.p.callers[p].claim.stamp, s.loops[p]))
  {
    LoopsAreRegular(cfg, clock, steps, i, p);
    if i > 0 {
      LoopsKeepSchedule(cfg, pace, clock, steps, key, i - 1, p);
      var s, s' := StateAt(cfg, clock, steps, i - 1), StateAt(cfg, clock, steps, i);
      if p in s'.loops && s'.p.callers[p].claim.key == key && p in s.p.callers {
        KeepsClaim(cfg, s, steps[i - 1], p);
        assert Punctual(cfg, pace, s, key);
        StepKeepsSchedule(cfg, pace, s, steps[i - 1], p);
      }
    }
  }

  lemma KeepsClaim(cfg: Retry.RetryConfig, s: State, step: Step, p: P.Caller)
    requires p in s.p.callers
    ensures p in Next(cfg, s, step).p.callers
    ensures Next(cfg, s, step).p.callers[p].claim == s.p.callers[p].claim
  {
  }

  /** The longest a Send can hold its claim when every stage keeps its pace. */
  function LongestHold(cfg: Retry.RetryConfig, pace: Pace): int
    requires cfg.maxRetries >= 0
  {
    pace.start + (cfg.maxRetries + 1) * pace.call + cfg.maxRetries * pace.slack
    + Retry.TotalDelay(cfg, cfg.maxRetries) + pace.settle
  }

  /** The clock has not gone past what the stage of the loop allows. */
  ghost predicate LoopInTime(cfg: Retry.RetryConfig, pace: Pace, l: Loop, clock: int) {
    match l
    case InCall(_, since) => clock <= since + pace.call
    case Waiting(seen, since) => clock <= since + cfg.CalculateDelay(|seen| - 1) + pace.slack
    case Over(_, _, _, at) => clock <= at + pace.settle
    case Crashed(_) => true
  }

  lemma HoldIsBounded(cfg: Retry.RetryConfig, pace: Pace, stamp: int, l: Loop, clock: int)
    requires C.SaneBackoff(cfg) && 0 <= cfg.maxRetries < Retry.MAX_INT
    requires Regular(cfg, l) && OnSchedule(cfg, pace, stamp, l) && LoopInTime(cfg, pace, l, clock) && !l.Crashed?
    ensures clock <= stamp + LongestHold(cfg, pace)
  {
    var n := if l.InCall? || l.Waiting? || l.seen == [] || l.cancelled then |l.seen| else |l.seen| - 1;
    UntilGrows(cfg, pace, n, cfg.maxRetries);
    LongestHoldIsLongest(cfg, pace);
    if l.Waiting? {
      assert Until(cfg, pace, n) == Until(cfg, pace, n - 1) + pace.call + cfg.CalculateDelay(n - 1) + pace.slack;
    }
  }

  lemma LongestHoldIsLongest(cfg: Retry.RetryConfig, pace: Pace)
    requires C.SaneBackoff(cfg) && 0 <= cfg.maxRetries < Retry.MAX_INT
    ensures LongestHold(cfg, pace) == pace.start + Until(cfg, pace, cfg.maxRetries) + pace.call + pace.settle
    ensures pace.start <= LongestHold(cfg, pace)
  {
    UntilFormula(cfg, pace, cfg.maxRetries);
    UntilGrows(cfg, pace, 0, cfg.maxRetries);
    OneMore(cfg.maxRetries + 1, pace.call);
    Spread(cfg.maxRetries, pace.call, pace.slack);
  }

  lemma Spread(n: int, a: int, b: int)
    ensures n * (a + b) == n * a + n * b
  {
  }

  lemma HoldersAreTimely(cfg: Retry.RetryConfig, pace: Pace, clock: int, steps: seq<Step>, key: T.Key, m: nat,
                         p: P.Caller)
    requires C.SaneBackoff(cfg) && 0 <= cfg.maxRetries < Retry.MAX_INT
    requires m <= |steps| && PunctualRun(cfg, pace, clock, steps, key)
    requires var s := StateAt(cfg, clock, steps, m);
             && p in s.p.callers && P.Holding(s.p.callers[p]) && s.p.callers[p].claim.key == key
             && !(p in s.loops && s.loops[p].Crashed?)
    ensures StateAt(cfg, clock, steps, m).p.clock - StateAt(cfg, clock, steps, m).p.callers[p].claim.stamp
         <= pace.start + (cfg.maxRetries + 1) * pace.call + cfg.maxRetries * pace.slack
            + Retry.TotalDelay(cfg, cfg.maxRetries) + pace.settle
  {
    var s := StateAt(cfg, clock, steps, m);
    LoopsAreRegular(cfg, clock, steps, m, p);
    LoopsKeepSchedule(cfg, pace, clock, steps, key, m, p);
    assert Punctual(cfg, pace, s, key);
    if s.p.callers[p].Granted? {
      LongestHoldIsLongest(cfg, pace);
    } else {
      HoldIsBounded(cfg, pace, s.p.callers[p].claim.stamp, s.loops[p], s.p.clock);
    }
  }

  ghost predicate WritesFromOutside(steps: seq<Step>, key: T.Key) {
    exists i | 0 <= i < |steps| :: steps[i].Outer? && P.WritesFromOutside(steps[i].step, key)
  }

  /** IDEMPOTENCY OVER RETRY. Let every base call, every wait and the two ends of a Send keep their pace, and let
      (MaxRetries + 1) calls, MaxRetries waits with their slack and the two ends together stay below every claim's ttl.
      Then at every moment of every run each holder of the key, unless it crashed, is within its deadline and owns the
      entry. No other holder coexists with it, but for one that crashed, or lost its settlement, and is overdue. */
  lemma NoSecondHolder(cfg: Retry.RetryConfig, pace: Pace, clock: int, steps: seq<Step>, key: T.Key, ttl: int, m: nat,
                       p: P.Caller)
    requires C.SaneBackoff(cfg) && 0 <= cfg.maxRetries < Retry.MAX_INT
    requires pace.start + (cfg.maxRetries + 1) * pace.call + cfg.maxRetries * pace.slack
             + Retry.TotalDelay(cfg, cfg.maxRetries) + pace.settle < ttl
    requires m <= |steps| && PunctualRun(cfg, pace, clock, steps, key) && !WritesFromOutside(steps, key)
    requires var s := StateAt(cfg, clock, steps, m);
             && p in s.p.callers && P.Holding(s.p.callers[p]) && s.p.callers[p].claim.key == key
             && !(p in s.loops && s.loops[p].Crashed?)
             && forall q | q in s.p.callers && s.p.callers[q].claim.key == key :: s.p.callers[q].claim.ttl >= ttl
    ensures var s := StateAt(cfg, clock, steps, m); var c := s.p.callers[p].claim;
            && s.p.clock < c.Deadline() && T.Claims(s.p.table, key, c.token, c.Deadline())
            && forall q | q in s.p.callers && q != p && P.Owing(s.p.callers[q]) && s.p.callers[q].claim.key == key ::
                 && s.p.callers[q].claim.Deadline() <= s.p.clock
                 && (s.p.callers[q].Lost? || (q in s.loops && s.loops[q].Crashed?))
  {
    var s, outer := StateAt(cfg, clock, steps, m), OuterSteps(cfg, clock, steps);
    RunsTheProtocol(cfg, clock, steps, m);
    NoOutsideWritesInside(cfg, clock, steps, key);
    P.ReachableHoldersOwn(clock, outer, m, key);
    HoldersAreTimely(cfg, pace, clock, steps, key, m, p);
    forall q | q in s.p.callers && q != p && P.Owing(s.p.callers[q]) && s.p.callers[q].claim.key == key
      ensures s.p.callers[q].claim.Deadline() <= s.p.clock
      ensures s.p.callers[q].Lost? || (q in s.loops && s.loops[q].Crashed?)
    {
      if s.p.clock < s.p.callers[q].claim.Deadline() {
        P.AtMostOneTimelyHolder(clock, outer, m, key, p, q);
      } else if P.Holding(s.p.callers[q]) && !(q in s.loops && s.loops[q].Crashed?) {
        HoldersAreTimely(cfg, pace, clock, steps, key, m, q);
      }
    }
  }

  lemma NoOutsideWritesInside(cfg: Retry.RetryConfig, clock: int, steps: seq<Step>, key: T.Key)
    requires !WritesFromOutside(steps, key)
    ensures P.NoOutsideWrites(OuterSteps(cfg, clock, steps), key)
  {
    forall i | 0 <= i < |steps| ensures !P.WritesFromOutside(OuterSteps(cfg, clock, steps)[i], key) {
      assert OuterSteps(cfg, clock, steps)[i] == OuterStep(StateAt(cfg, clock, steps, i), steps[i]);
    }
  }
}
