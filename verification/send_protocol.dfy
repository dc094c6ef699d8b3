/** Any number of concurrent Sends over one claim table, as a step system: a clock that only moves
    forward, a background sweep, outside writers, and one phase per Send in progress. */
module SendProtocol {
  import opened Values
  import T = ClaimTable

  /** Identifies one invocation of Send. */
  type Caller = nat

  /** What a Send knows once it has drawn its token and read the clock. */
  datatype Claim = Claim(key: T.Key, ttl: int, token: T.Token, stamp: int)
  {
    function Deadline(): int { stamp + ttl }
  }

  datatype Phase =
    | Stamped(claim: Claim)
    | Granted(claim: Claim, lockedAt: int)
    | Calling(claim: Claim, lockedAt: int, calledAt: int)
    | Returned(claim: Claim, lockedAt: int, calledAt: int, outcome: Outcome)
    | Done(claim: Claim, reply: Outcome, called: bool)
    | Lost(claim: Claim, reply: Outcome)

  /** A Send is Lost rather than Done if the store refused its last write: its caller cannot tell, for the error is
      dropped. The memory store never refuses; a store that heeds contexts may once `cleanupTimeout` is over. */
  datatype State = State(clock: int, table: T.Table, nextToken: T.Token, callers: map<Caller, Phase>)

  datatype Step =
    | Tick(elapsed: nat)
    | ReadClock(p: Caller, key: T.Key, ttl: int)
    | TakeLock(p: Caller)
    | CallProvider(p: Caller)
    | ProviderReturns(p: Caller, outcome: Outcome)
    | Settle(p: Caller)
    | SettleRefused(p: Caller)
    | RemoveExpired
    | OutsideGet(key: T.Key)
    | OutsideSet(key: T.Key, result: Option<ResultValue>, ttl: int)
    | OutsideDelete(key: T.Key)

  function Init(clock: int): State {
    State(clock, map[], 1, map[])
  }

  /** A Send between its grant and its Finalize or Abandon. */
  predicate Holding(ph: Phase) {
    ph.Granted? || ph.Calling? || ph.Returned?
  }

  /** A Send whose claim may still stand: it has not settled it, or could not. */
  predicate Owing(ph: Phase) {
    Holding(ph) || ph.Lost?
  }

  predicate Enabled(s: State, step: Step) {
    match step
    case ReadClock(p, _, _) => p !in s.callers
    case TakeLock(p) => p in s.callers && s.callers[p].Stamped?
    case CallProvider(p) => p in s.callers && s.callers[p].Granted?
    case ProviderReturns(p, _) => p in s.callers && s.callers[p].Calling?
    case Settle(p) => p in s.callers && s.callers[p].Returned?
    case SettleRefused(p) => p in s.callers && s.callers[p].Returned?
    case _ => true
  }

  /** The store operation a step performs under the lock; a step that performs none reads. */
  function StoreOp(s: State, step: Step): T.Op
    requires Enabled(s, step)
  {
    match step
    case TakeLock(p) =>
      var c := s.callers[p].claim;
      T.OpReserve(c.key, c.token, c.stamp, c.ttl)
    case Settle(p) =>
      var ph := s.callers[p];
      if ph.outcome.err.Some? && ph.outcome.result.None? then T.OpAbandon(ph.claim.key, ph.claim.token)
      else T.OpFinalize(ph.claim.key, ph.claim.token, ph.outcome.result, ph.claim.ttl)
    case RemoveExpired => T.OpSweep
    case OutsideSet(key, result, ttl) => T.OpSet(key, result, ttl)
    case OutsideDelete(key) => T.OpDelete(key)
    case _ => T.OpGet("")
  }

  function StoreEvent(s: State, step: Step): T.Event {
    T.At(s.clock, if Enabled(s, step) then StoreOp(s, step) else T.OpGet(""))
  }

  /** How the Send that takes the step moves on. */
  function NextPhase(s: State, step: Step): Phase
    requires Enabled(s, step) && HasCaller(step)
  {
    match step
    case ReadClock(_, key, ttl) => Stamped(Claim(key, ttl, s.nextToken, s.clock))
    case TakeLock(p) =>
      var c := s.callers[p].claim;
      (match T.ReserveAnswerOf(s.table, c.key, c.token, c.stamp)
       case Claimed(_) => Granted(c, s.clock)
       case Recorded(r) => Done(c, Outcome(Some(r), None), false)
       case InFlight => Done(c, IN_FLIGHT, false))
    case CallProvider(p) => Calling(s.callers[p].claim, s.callers[p].lockedAt, s.clock)
    case ProviderReturns(p, outcome) =>
      Returned(s.callers[p].claim, s.callers[p].lockedAt, s.callers[p].calledAt, outcome)
    case Settle(p) => Done(s.callers[p].claim, s.callers[p].outcome, true)
    case SettleRefused(p) => Lost(s.callers[p].claim, s.callers[p].outcome)
  }

  predicate HasCaller(step: Step) {
    || step.ReadClock? || step.TakeLock? || step.CallProvider? || step.ProviderReturns?
    || step.Settle? || step.SettleRefused?
  }

  /** A step that is not enabled leaves the state alone, so that every sequence of steps is a run. */
  function Next(s: State, step: Step): State {
    if !Enabled(s, step) then s
    else
      State(
        if step.Tick? then s.clock + step.elapsed else s.clock,
        T.Apply(s.table, StoreEvent(s, step)),
        if step.ReadClock? then s.nextToken + 1 else s.nextToken,
        if HasCaller(step) then s.callers[step.p := NextPhase(s, step)] else s.callers)
  }

  function StateAt(clock: int, steps: seq<Step>, i: nat): State
    requires i <= |steps|
  {
    if i == 0 then Init(clock) else Next(StateAt(clock, steps, i - 1), steps[i - 1])
  }

  // ---------------------------------------------------------------- what every reachable state keeps

  ghost predicate TokensFresh(s: State) {
    && s.nextToken != T.NO_TOKEN
    && (forall p | p in s.callers ::
          T.NO_TOKEN < s.callers[p].claim.token < s.nextToken && s.callers[p].claim.stamp <= s.clock)
    && (forall p, q | p in s.callers && q in s.callers && p != q ::
          s.callers[p].claim.token != s.callers[q].claim.token)
  }

  ghost predicate HeldBy(s: State, p: Caller, key: T.Key, token: T.Token) {
    p in s.callers && Owing(s.callers[p]) && s.callers[p].claim.key == key && s.callers[p].claim.token == token
  }

  /** Every claim in the store belongs to a Send that is between its grant and its Finalize or Abandon, or whose
      Finalize or Abandon the store refused. */
  ghost predicate NoOrphanClaims(s: State) {
    forall k | k in s.table && s.table[k].token != T.NO_TOKEN :: exists p :: HeldBy(s, p, k, s.table[k].token)
  }

  ghost predicate Inv(s: State) {
    T.WellFormed(s.table) && TokensFresh(s) && NoOrphanClaims(s)
  }

  lemma EventIsPlausible(s: State, step: Step)
    requires TokensFresh(s)
    ensures T.PlausibleEvent(StoreEvent(s, step))
  {
  }

  lemma StandingClaimStaysHeld(s: State, step: Step, k: T.Key, p: Caller)
    requires Inv(s) && k in s.table && s.table[k].token != T.NO_TOKEN && HeldBy(s, p, k, s.table[k].token)
    requires k in Next(s, step).table && Next(s, step).table[k] == s.table[k]
    ensures HeldBy(Next(s, step), p, k, s.table[k].token)
  {
  }

  lemma NewClaimIsHeld(s: State, step: Step, k: T.Key)
    requires k in Next(s, step).table && Next(s, step).table[k].token != T.NO_TOKEN
    requires k in s.table ==> s.table[k] != Next(s, step).table[k]
    ensures HasCaller(step) && HeldBy(Next(s, step), step.p, k, Next(s, step).table[k].token)
  {
  }

  lemma StepKeepsNoOrphans(s: State, step: Step)
    requires Inv(s)
    ensures NoOrphanClaims(Next(s, step))
  {
    var s' := Next(s, step);
    forall k | k in s'.table && s'.table[k].token != T.NO_TOKEN
      ensures exists p :: HeldBy(s', p, k, s'.table[k].token)
    {
      if k in s.table && s.table[k] == s'.table[k] {
        var p :| HeldBy(s, p, k, s.table[k].token);
        StandingClaimStaysHeld(s, step, k, p);
      } else {
        NewClaimIsHeld(s, step, k);
      }
    }
  }

  lemma StepKeepsTokensFresh(s: State, step: Step)
    requires TokensFresh(s)
    ensures TokensFresh(Next(s, step))
  {
  }

  lemma StepKeepsInv(s: State, step: Step)
    requires Inv(s)
    ensures Inv(Next(s, step))
  {
    StepKeepsTokensFresh(s, step);
    EventIsPlausible(s, step);
    T.OperationsKeepWellFormed(s.table, StoreEvent(s, step));
    StepKeepsNoOrphans(s, step);
  }

  /** NO ORPHANS. In every reachable state, whatever outsiders Set and Delete: entries are well formed,
      tokens are distinct, and no Send that returned has left a claim behind unless its settlement was refused. */
  lemma {:induction false} ReachableInv(clock: int, steps: seq<Step>, i: nat)
    requires i <= |steps|
    ensures Inv(StateAt(clock, steps, i))
    ensures var s := StateAt(clock, steps, i);
            forall p, k | p in s.callers && s.callers[p].Done? && k in s.table ::
              s.table[k].token != s.callers[p].claim.token
  {
    if i > 0 {
      ReachableInv(clock, steps, i - 1);
      StepKeepsInv(StateAt(clock, steps, i - 1), steps[i - 1]);
    }
    var s := StateAt(clock, steps, i);
    forall p, k | p in s.callers && s.callers[p].Done? && k in s.table
      ensures s.table[k].token != s.callers[p].claim.token
    {
      assert forall q :: !HeldBy(s, q, k, s.callers[p].claim.token);
    }
  }

  predicate WritesFromOutside(step: Step, key: T.Key) {
    (step.OutsideSet? || step.OutsideDelete?) && step.key == key
  }

  ghost predicate NoOutsideWrites(steps: seq<Step>, key: T.Key) {
    forall i | 0 <= i < |steps| :: !WritesFromOutside(steps[i], key)
  }

  /** A Send that has a claim for the key to settle, or could not settle it, and is still within its time owns the
      entry. */
  ghost predicate HoldersOwn(s: State, key: T.Key) {
    forall p | p in s.callers && Owing(s.callers[p]) && s.callers[p].claim.key == key
            && s.clock < s.callers[p].claim.Deadline() ::
      key in s.table && s.table[key] == T.Entry(None, s.callers[p].claim.Deadline(), s.callers[p].claim.token)
  }

  lemma StepKeepsHoldersOwn(s: State, step: Step, key: T.Key)
    requires Inv(s) && HoldersOwn(s, key) && !WritesFromOutside(step, key)
    ensures HoldersOwn(Next(s, step), key)
  {
  }

  lemma {:induction false} ReachableHoldersOwn(clock: int, steps: seq<Step>, i: nat, key: T.Key)
    requires i <= |steps| && NoOutsideWrites(steps, key)
    ensures HoldersOwn(StateAt(clock, steps, i), key)
  {
    if i > 0 {
      ReachableHoldersOwn(clock, steps, i - 1, key);
      ReachableInv(clock, steps, i - 1);
      StepKeepsHoldersOwn(StateAt(clock, steps, i - 1), steps[i - 1], key);
    }
  }

  /** At no moment of any run do two Sends hold one key, or have lost its settlement, both within their deadlines. */
  lemma AtMostOneTimelyHolder(clock: int, steps: seq<Step>, i: nat, key: T.Key, p: Caller, q: Caller)
    requires i <= |steps| && NoOutsideWrites(steps, key)
    requires var s := StateAt(clock, steps, i);
             && p in s.callers && q in s.callers && Owing(s.callers[p]) && Owing(s.callers[q])
             && s.callers[p].claim.key == s.callers[q].claim.key == key
             && s.clock < s.callers[p].claim.Deadline() && s.clock < s.callers[q].claim.Deadline()
    ensures p == q
  {
    ReachableHoldersOwn(clock, steps, i, key);
    ReachableInv(clock, steps, i);
  }

  /** IN FLIGHT. While a Send holds the key within its deadline, however it will end, every other Send that takes the
      lock ends with ErrSendInFlight and calls no provider. A Send whose settlement the store refused keeps the others
      out in the same way, for as long as its claim had left. */
  lemma InFlightMeanwhile(clock: int, steps: seq<Step>, m: nat, key: T.Key, p: Caller, q: Caller)
    requires m < |steps| && NoOutsideWrites(steps, key) && steps[m] == TakeLock(q)
    requires var s := StateAt(clock, steps, m);
             && p in s.callers && Owing(s.callers[p]) && s.callers[p].claim.key == key
             && s.clock < s.callers[p].claim.Deadline()
             && q in s.callers && s.callers[q].Stamped? && s.callers[q].claim.key == key
    ensures StateAt(clock, steps, m + 1).callers[q] == Done(StateAt(clock, steps, m).callers[q].claim, IN_FLIGHT, false)
    ensures StateAt(clock, steps, m + 1).table == StateAt(clock, steps, m).table
  {
    ReachableHoldersOwn(clock, steps, m, key);
    ReachableInv(clock, steps, m);
  }

  /** What steps without a caller do to the store: a sweep drops exactly the entries past their expiry, an outside Set
      with a result records it anew, a nil Set removes a recorded result and nothing else, a Delete removes any
      entry. */
  lemma OutsideStepLaw(s: State, step: Step)
    requires !HasCaller(step)
    ensures var s' := Next(s, step);
            && s'.callers == s.callers && s'.nextToken == s.nextToken
            && s'.clock == (if step.Tick? then s.clock + step.elapsed else s.clock)
            && match step
               case RemoveExpired =>
                 && (forall k :: k in s'.table <==> k in s.table && s.clock <= s.table[k].expiresAt)
                 && (forall k | k in s'.table :: s'.table[k] == s.table[k])
               case OutsideSet(key, result, ttl) =>
                 && T.ElsewhereSame(s.table, s'.table, key)
                 && (if result.Some? then T.Holds(s'.table, key, result.value, s.clock + ttl)
                     else (key in s'.table <==> key in s.table && s.table[key].result.None?)
                          && (key in s'.table ==> s'.table[key] == s.table[key]))
               case OutsideDelete(key) => key !in s'.table && T.ElsewhereSame(s.table, s'.table, key)
               case _ => s'.table == s.table
  {
  }

  /** No entry outlives a sweep that comes after its expiry, and it comes back only by a new grant, a settlement or an
      outside Set for its key. */
  lemma {:induction false} SweptStaysAway(clock: int, steps: seq<Step>, i: nat, j: nat, key: T.Key)
    requires i < j <= |steps| && steps[i] == RemoveExpired
    requires var s := StateAt(clock, steps, i); key in s.table ==> s.table[key].expiresAt < s.clock
    requires forall m | i < m < j :: !Enters(StateAt(clock, steps, m), steps[m], key)
    ensures key !in StateAt(clock, steps, j).table
  {
    if i + 1 < j {
      SweptStaysAway(clock, steps, i, j - 1, key);
      StaysAway(StateAt(clock, steps, j - 1), steps[j - 1], key);
    } else {
      OutsideStepLaw(StateAt(clock, steps, i), steps[i]);
    }
  }

  lemma StaysAway(s: State, step: Step, key: T.Key)
    requires key !in s.table && !Enters(s, step, key)
    ensures key !in Next(s, step).table
  {
  }

  /** The step may put an entry under the key. */
  predicate Enters(s: State, step: Step, key: T.Key) {
    match step
    case TakeLock(p) => p in s.callers && s.callers[p].claim.key == key
    case Settle(p) => p in s.callers && s.callers[p].claim.key == key
    case OutsideSet(k, _, _) => k == key
    case _ => false
  }

  /** After that the price of the refused write is paid: a Send that reads the clock at or past the deadline of a lost
      claim, and finds it still standing, is granted the key, so that the provider is called a second time. */
  lemma LostOutcomeIsSentAgain(s: State, p: Caller, q: Caller)
    requires p in s.callers && s.callers[p].Lost? && q in s.callers && s.callers[q].Stamped?
    requires var c := s.callers[p].claim;
             && s.callers[q].claim.key == c.key && T.Claims(s.table, c.key, c.token, c.Deadline())
    ensures Next(s, TakeLock(q)).callers[q].Granted? <==> s.callers[p].claim.Deadline() <= s.callers[q].claim.stamp
  {
  }

  /** Finalize takes an absent entry for a claim that expired unreplaced. Expired it is: a Send that comes to settle and
      finds no entry has outlasted its claim. */
  lemma AbsentEntryMeansOverrun(clock: int, steps: seq<Step>, m: nat, key: T.Key, p: Caller)
    requires m <= |steps| && NoOutsideWrites(steps, key)
    requires var s := StateAt(clock, steps, m);
             && p in s.callers && Owing(s.callers[p]) && s.callers[p].claim.key == key && key !in s.table
    ensures StateAt(clock, steps, m).callers[p].claim.Deadline() <= StateAt(clock, steps, m).clock
  {
    ReachableHoldersOwn(clock, steps, m, key);
  }

  // ---------------------------------------------------------------- a single Send over a run

  lemma {:induction false} ClockIsMonotone(clock: int, steps: seq<Step>, i: nat, j: nat)
    requires i <= j <= |steps|
    ensures StateAt(clock, steps, i).clock <= StateAt(clock, steps, j).clock
  {
    if i < j {
      ClockIsMonotone(clock, steps, i, j - 1);
    }
  }

  function Rank(ph: Phase): nat {
    match ph
    case Stamped(_) => 0
    case Granted(_, _) => 1
    case Calling(_, _, _) => 2
    case Returned(_, _, _, _) => 3
    case Done(_, _, _) => 4
    case Lost(_, _) => 4
  }

  /** A Send only moves forward, and keeps its claim. */
  lemma {:induction false} PhasesMoveForward(clock: int, steps: seq<Step>, i: nat, j: nat, p: Caller)
    requires i <= j <= |steps| && p in StateAt(clock, steps, i).callers
    ensures p in StateAt(clock, steps, j).callers
    ensures StateAt(clock, steps, j).callers[p].claim == StateAt(clock, steps, i).callers[p].claim
    ensures Rank(StateAt(clock, steps, i).callers[p]) <= Rank(StateAt(clock, steps, j).callers[p])
  {
    if i < j {
      PhasesMoveForward(clock, steps, i, j - 1, p);
    }
  }

  /** Step i grants the key to p. */
  ghost predicate GrantsTo(clock: int, steps: seq<Step>, i: nat, p: Caller, key: T.Key) {
    && i < |steps| && steps[i] == TakeLock(p)
    && p in StateAt(clock, steps, i).callers && StateAt(clock, steps, i).callers[p].Stamped?
    && StateAt(clock, steps, i).callers[p].claim.key == key
    && StateAt(clock, steps, i + 1).callers[p].Granted?
  }

  /** Step f ends p's Send with the outcome its provider call produced. */
  ghost predicate SettlesWith(clock: int, steps: seq<Step>, f: nat, p: Caller, outcome: Outcome) {
    && f < |steps| && steps[f] == Settle(p)
    && p in StateAt(clock, steps, f).callers && StateAt(clock, steps, f).callers[p].Returned?
    && StateAt(clock, steps, f).callers[p].outcome == outcome
  }

  /** The same, but the store may have refused the write. */
  ghost predicate EndsWith(clock: int, steps: seq<Step>, f: nat, p: Caller, outcome: Outcome) {
    && f < |steps| && (steps[f] == Settle(p) || steps[f] == SettleRefused(p))
    && p in StateAt(clock, steps, f).callers && StateAt(clock, steps, f).callers[p].Returned?
    && StateAt(clock, steps, f).callers[p].outcome == outcome
  }

  /** No Send for the key settles, or tries to, at or after its own deadline. */
  ghost predicate NoOverrun(clock: int, steps: seq<Step>, key: T.Key) {
    forall f, p, o | EndsWith(clock, steps, f, p, o) && StateAt(clock, steps, f).callers[p].claim.key == key ::
      StateAt(clock, steps, f).clock < StateAt(clock, steps, f).callers[p].claim.Deadline()
  }

  lemma HolderBetween(clock: int, steps: seq<Step>, i: nat, f: nat, m: nat, p: Caller, key: T.Key, o: Outcome)
    requires GrantsTo(clock, steps, i, p, key) && SettlesWith(clock, steps, f, p, o) && i < m <= f
    ensures p in StateAt(clock, steps, m).callers && Holding(StateAt(clock, steps, m).callers[p])
    ensures StateAt(clock, steps, m).callers[p].claim == StateAt(clock, steps, i).callers[p].claim
  {
    PhasesMoveForward(clock, steps, i, i + 1, p);
    PhasesMoveForward(clock, steps, i + 1, m, p);
    PhasesMoveForward(clock, steps, m, f, p);
  }

  /** While a timely holder is in flight, the entry is its claim. */
  lemma EntryDuringFlight(clock: int, steps: seq<Step>, i: nat, f: nat, m: nat, p: Caller, key: T.Key, o: Outcome)
    requires GrantsTo(clock, steps, i, p, key) && SettlesWith(clock, steps, f, p, o) && i < m <= f
    requires NoOutsideWrites(steps, key) && NoOverrun(clock, steps, key)
    ensures var s := StateAt(clock, steps, m); var c := StateAt(clock, steps, i).callers[p].claim;
            s.clock < c.Deadline() && key in s.table && s.table[key] == T.Entry(None, c.Deadline(), c.token)
  {
    HolderBetween(clock, steps, i, f, m, p, key, o);
    HolderBetween(clock, steps, i, f, f, p, key, o);
    assert EndsWith(clock, steps, f, p, o);
    ClockIsMonotone(clock, steps, m, f);
    ReachableHoldersOwn(clock, steps, m, key);
  }

  /** A timely holder's Finalize is not refused. */
  lemma OutcomeIsRecorded(clock: int, steps: seq<Step>, i: nat, f: nat, p: Caller, key: T.Key, r: ResultValue,
          err: Option<ErrorValue>)
    requires GrantsTo(clock, steps, i, p, key) && SettlesWith(clock, steps, f, p, Outcome(Some(r), err)) && i < f
    requires NoOutsideWrites(steps, key) && NoOverrun(clock, steps, key)
    ensures T.Holds(StateAt(clock, steps, f + 1).table, key, r,
              StateAt(clock, steps, f).clock + StateAt(clock, steps, i).callers[p].claim.ttl)
  {
    EntryDuringFlight(clock, steps, i, f, f, p, key, Outcome(Some(r), err));
    HolderBetween(clock, steps, i, f, f, p, key, Outcome(Some(r), err));
    ReachableInv(clock, steps, f);
  }

  /** A recorded result stays until it expires. */
  lemma {:induction false} RecordLasts(clock: int, steps: seq<Step>, f: nat, m: nat, key: T.Key, r: ResultValue,
          expiresAt: int)
    requires f <= m <= |steps| && NoOutsideWrites(steps, key)
    requires T.Holds(StateAt(clock, steps, f).table, key, r, expiresAt)
    requires StateAt(clock, steps, m).clock < expiresAt
    ensures T.Holds(StateAt(clock, steps, m).table, key, r, expiresAt)
  {
    if f < m {
      var s := StateAt(clock, steps, m - 1);
      ClockIsMonotone(clock, steps, m - 1, m);
      RecordLasts(clock, steps, f, m - 1, key, r, expiresAt);
      ReachableInv(clock, steps, m - 1);
      EventIsPlausible(s, steps[m - 1]);
      T.RecordedResultIsStable(s.table, StoreEvent(s, steps[m - 1]), key, r, expiresAt);
    }
  }

  /** A Send about to settle owns the entry, if none for its key overruns. */
  lemma SettlersOwn(clock: int, steps: seq<Step>, m: nat, q: Caller, key: T.Key)
    requires m < |steps| && (steps[m] == Settle(q) || steps[m] == SettleRefused(q))
    requires NoOutsideWrites(steps, key) && NoOverrun(clock, steps, key)
    requires var s := StateAt(clock, steps, m);
             q in s.callers && s.callers[q].Returned? && s.callers[q].claim.key == key
    ensures var s := StateAt(clock, steps, m); var c := s.callers[q].claim;
            key in s.table && s.table[key] == T.Entry(None, c.Deadline(), c.token) && c.token != T.NO_TOKEN
  {
    assert EndsWith(clock, steps, m, q, StateAt(clock, steps, m).callers[q].outcome);
    ReachableHoldersOwn(clock, steps, m, key);
    ReachableInv(clock, steps, m);
  }

  /** AGREEMENT. Let p be granted the key at step i and settle with a result r at step f, nobody writing
      to the key from outside and no Send for it overrunning its claim. From the grant until r expires,
      every other Send for the key that takes the lock ends there, without calling the provider: with
      ErrSendInFlight before step f, with r and no error after it. And no other Send settles or tries to:
      whoever else returns a result in that time returns r. */
  lemma Agreement(clock: int, steps: seq<Step>, i: nat, f: nat, m: nat, p: Caller, q: Caller, key: T.Key,
          r: ResultValue, err: Option<ErrorValue>)
    requires GrantsTo(clock, steps, i, p, key) && SettlesWith(clock, steps, f, p, Outcome(Some(r), err)) && i < f
    requires NoOutsideWrites(steps, key) && NoOverrun(clock, steps, key)
    requires i < m < |steps|
    requires m > f ==> StateAt(clock, steps, m).clock
                       < StateAt(clock, steps, f).clock + StateAt(clock, steps, i).callers[p].claim.ttl
    requires q in StateAt(clock, steps, m).callers && StateAt(clock, steps, m).callers[q].claim.key == key
    ensures steps[m] == TakeLock(q) && StateAt(clock, steps, m).callers[q].Stamped? ==>
              StateAt(clock, steps, m + 1).callers[q] ==
              Done(StateAt(clock, steps, m).callers[q].claim,
                   if m < f then IN_FLIGHT else Outcome(Some(r), None), false)
    ensures steps[m] == Settle(q) && StateAt(clock, steps, m).callers[q].Returned? ==>
              q == p && m == f && StateAt(clock, steps, m + 1).callers[q].reply == Outcome(Some(r), err)
    ensures steps[m] == SettleRefused(q) ==> !StateAt(clock, steps, m).callers[q].Returned?
  {
    var o := Outcome(Some(r), err);
    var s := StateAt(clock, steps, m);
    ReachableInv(clock, steps, m);
    if m <= f {
      EntryDuringFlight(clock, steps, i, f, m, p, key, o);
      HolderBetween(clock, steps, i, f, m, p, key, o);
    } else {
      OutcomeIsRecorded(clock, steps, i, f, p, key, r, err);
      RecordLasts(clock, steps, f + 1, m, key, r,
                  StateAt(clock, steps, f).clock + StateAt(clock, steps, i).callers[p].claim.ttl);
    }
    if (steps[m] == Settle(q) || steps[m] == SettleRefused(q)) && s.callers[q].Returned? {
      SettlersOwn(clock, steps, m, q, key);
      if q == p && m < f {
        PhasesMoveForward(clock, steps, m + 1, f, p);
      }
    }
  }

  // ---------------------------------------------------------------- runs as traces of the table

  function TraceOf(clock: int, steps: seq<Step>, n: nat): seq<T.Event>
    requires n <= |steps|
    ensures |TraceOf(clock, steps, n)| == n
  {
    if n == 0 then [] else TraceOf(clock, steps, n - 1) + [StoreEvent(StateAt(clock, steps, n - 1), steps[n - 1])]
  }

  lemma {:induction false} TraceElement(clock: int, steps: seq<Step>, n: nat, i: nat)
    requires i < n <= |steps|
    ensures TraceOf(clock, steps, n)[i] == StoreEvent(StateAt(clock, steps, i), steps[i])
  {
    if i < n - 1 {
      TraceElement(clock, steps, n - 1, i);
    }
  }

  /** The table of a run is what the claim table makes of the run's trace, and the trace is ordered. */
  lemma {:induction false} RunFollowsTrace(clock: int, steps: seq<Step>, n: nat, i: nat)
    requires i <= n <= |steps|
    ensures T.TableAt(map[], TraceOf(clock, steps, n), i) == StateAt(clock, steps, i).table
  {
    if i > 0 {
      RunFollowsTrace(clock, steps, n, i - 1);
      TraceElement(clock, steps, n, i - 1);
    }
  }

  lemma TraceIsOrdered(clock: int, steps: seq<Step>)
    ensures T.Ordered(TraceOf(clock, steps, |steps|))
  {
    var trace := TraceOf(clock, steps, |steps|);
    forall i, j | 0 <= i < j < |trace| ensures trace[i].now <= trace[j].now {
      TraceElement(clock, steps, |steps|, i);
      TraceElement(clock, steps, |steps|, j);
      ClockIsMonotone(clock, steps, i, j);
    }
    forall i | 0 <= i < |trace| ensures T.PlausibleEvent(trace[i]) {
      TraceElement(clock, steps, |steps|, i);
      ReachableInv(clock, steps, i);
      EventIsPlausible(StateAt(clock, steps, i), steps[i]);
    }
  }

  function ClaimOf(s: State, p: Caller): Claim {
    if p in s.callers then s.callers[p].claim else Claim("", 0, T.NO_TOKEN, 0)
  }

  /** p did not release its claim between steps i and j with an Abandon or a nil Finalize. */
  ghost predicate Unreleased(clock: int, steps: seq<Step>, i: nat, j: nat, p: Caller) {
    forall m, o | i < m < j && SettlesWith(clock, steps, m, p, o) :: o.result.Some?
  }

  /** What p does between its grant and step j does not free the key early. */
  lemma UnreleasedMeansUnfreed(clock: int, steps: seq<Step>, i: nat, j: nat, m: nat, p: Caller, key: T.Key)
    requires GrantsTo(clock, steps, i, p, key) && i < m < j <= |steps|
    requires NoOutsideWrites(steps, key) && Unreleased(clock, steps, i, j, p)
    ensures var c := StateAt(clock, steps, i).callers[p].claim;
            !T.Frees(StoreEvent(StateAt(clock, steps, m), steps[m]), key, c.token, c.Deadline())
  {
    var s := StateAt(clock, steps, m);
    ReachableInv(clock, steps, m);
    ReachableInv(clock, steps, i);
    PhasesMoveForward(clock, steps, i, m, p);
    ClockIsMonotone(clock, steps, i, m);
    if steps[m].Settle? && Enabled(s, steps[m]) {
      assert SettlesWith(clock, steps, m, steps[m].p, s.callers[steps[m].p].outcome);
    }
  }

  lemma GrantIsTraceGrant(clock: int, steps: seq<Step>, i: nat, p: Caller, key: T.Key)
    requires GrantsTo(clock, steps, i, p, key)
    ensures T.GrantAt(map[], TraceOf(clock, steps, |steps|), i, key)
    ensures var c := StateAt(clock, steps, i).callers[p].claim;
            TraceOf(clock, steps, |steps|)[i]
            == T.At(StateAt(clock, steps, i).clock, T.OpReserve(key, c.token, c.stamp, c.ttl))
  {
    TraceElement(clock, steps, |steps|, i);
    RunFollowsTrace(clock, steps, |steps|, i);
  }

  /** EXCLUSION over a run: unless p released its claim itself, the key is granted again no earlier than
      p's deadline, whatever stale readings, overruns, sweeps and late settlements happen in between. */
  lemma GrantsExclude(clock: int, steps: seq<Step>, i: nat, j: nat, p: Caller, q: Caller, key: T.Key)
    requires i < j && GrantsTo(clock, steps, i, p, key) && GrantsTo(clock, steps, j, q, key)
    requires NoOutsideWrites(steps, key) && Unreleased(clock, steps, i, j, p)
    ensures StateAt(clock, steps, i).callers[p].claim.Deadline() <= StateAt(clock, steps, j).clock
  {
    var trace := TraceOf(clock, steps, |steps|);
    TraceIsOrdered(clock, steps);
    GrantIsTraceGrant(clock, steps, i, p, key);
    GrantIsTraceGrant(clock, steps, j, q, key);
    forall m | i < m < j ensures !T.Frees(trace[m], key, trace[i].op.token, T.Deadline(trace[i])) {
      TraceElement(clock, steps, |steps|, m);
      UnreleasedMeansUnfreed(clock, steps, i, j, m, p, key);
    }
    T.Exclusion(map[], trace, i, j, key);
  }

  /** PROVIDER CALL RATE. Take n calls for one key, in the order of their grants, none of whose claims its own
      holder released before the next grant. If every claim lasts at least ttl and every call starts at most
      `gap` after its clock reading, the calls span at least (n - 1) * (ttl - gap). */
  lemma ProviderCallsAreSpaced(clock: int, steps: seq<Step>, key: T.Key, grants: seq<nat>, ps: seq<Caller>,
          calls: seq<nat>, ttl: int, gap: int)
    requires |grants| == |ps| == |calls| > 0 && NoOutsideWrites(steps, key)
    requires forall n | 0 <= n < |grants| :: GrantsTo(clock, steps, grants[n], ps[n], key)
    requires forall n | 0 < n < |grants| ::
               grants[n - 1] < grants[n] && Unreleased(clock, steps, grants[n - 1], grants[n], ps[n - 1])
    requires forall n | 0 <= n < |grants| :: grants[n] < calls[n] < |steps| && steps[calls[n]] == CallProvider(ps[n])
    requires forall n | 0 <= n < |grants| :: ClaimOf(StateAt(clock, steps, grants[n]), ps[n]).ttl >= ttl
    requires forall n | 0 <= n < |grants| ::
               StateAt(clock, steps, calls[n]).clock <= ClaimOf(StateAt(clock, steps, grants[n]), ps[n]).stamp + gap
    ensures (|calls| - 1) * (ttl - gap)
         <= StateAt(clock, steps, calls[|calls| - 1]).clock - StateAt(clock, steps, calls[0]).clock
  {
    var trace := TraceOf(clock, steps, |steps|);
    var times := seq(|calls|, n requires 0 <= n < |calls| => StateAt(clock, steps, calls[n]).clock);
    TraceIsOrdered(clock, steps);
    forall n | 0 <= n < |grants|
      ensures T.GrantAt(map[], trace, grants[n], key)
      ensures trace[grants[n]].op.ttl >= ttl
      ensures trace[grants[n]].now <= times[n] <= trace[grants[n]].op.stamp + gap
    {
      GrantIsTraceGrant(clock, steps, grants[n], ps[n], key);
      ClockIsMonotone(clock, steps, grants[n], calls[n]);
    }
    forall n, m | 0 < n < |grants| && grants[n - 1] < m < grants[n]
      ensures !T.Frees(trace[m], key, trace[grants[n - 1]].op.token, T.Deadline(trace[grants[n - 1]]))
    {
      GrantIsTraceGrant(clock, steps, grants[n - 1], ps[n - 1], key);
      TraceElement(clock, steps, |steps|, m);
      UnreleasedMeansUnfreed(clock, steps, grants[n - 1], grants[n], m, ps[n - 1], key);
    }
    T.CallsAreSpaced(map[], trace, key, grants, times, ttl, gap, |calls| - 1);
  }
}
