/** The claim table behind MemoryIdempotencyStore: each operation as a function from the table
    it finds under the lock to the table it leaves, and what every sequence of operations keeps. */
module ClaimTable {
  import opened Values
  import opened Arithmetic

  type Key = string

  /** A claim token; 0 stands for the empty token. */
  type Token = nat

  const NO_TOKEN: Token := 0

  datatype Entry = Entry(result: Option<ResultValue>, expiresAt: int, token: Token)

  type Table = map<Key, Entry>

  datatype ReserveAnswer = Claimed(token: Token) | Recorded(result: ResultValue) | InFlight

  // ---------------------------------------------------------------- operations

  /** Whether Reserve, having read the clock as `stamp`, respects this entry. */
  predicate Live(e: Entry, stamp: int) {
    stamp < e.expiresAt
  }

  function ReserveAnswerOf(t: Table, key: Key, token: Token, stamp: int): ReserveAnswer {
    if key in t && Live(t[key], stamp) then
      if t[key].result.None? then InFlight else Recorded(t[key].result.value)
    else
      Claimed(token)
  }

  function Reserve(t: Table, key: Key, token: Token, stamp: int, ttl: int): Table {
    if key in t && Live(t[key], stamp) then t else t[key := Entry(None, stamp + ttl, token)]
  }

  function Delete(t: Table, key: Key): Table {
    t - {key}
  }

  function Abandon(t: Table, key: Key, token: Token): Table {
    if token == NO_TOKEN then t
    else if key in t && t[key].result.None? && t[key].token == token then Delete(t, key)
    else t
  }

  /** Whether Finalize answers ErrClaimSuperseded. */
  predicate Superseded(t: Table, key: Key, token: Token) {
    token == NO_TOKEN || (key in t && t[key].token != token)
  }

  function Finalize(t: Table, key: Key, token: Token, result: Option<ResultValue>, ttl: int, now: int): Table {
    if Superseded(t, key, token) then t
    else if result.None? then Delete(t, key)
    else t[key := Entry(result, now + ttl, NO_TOKEN)]
  }

  function Get(t: Table, key: Key, now: int): Option<ResultValue> {
    if key !in t then None
    else if now > t[key].expiresAt || t[key].result.None? then None
    else t[key].result
  }

  function Set(t: Table, key: Key, result: Option<ResultValue>, ttl: int, now: int): Table {
    if result.None? then
      if key in t && t[key].result.Some? then Delete(t, key) else t
    else
      t[key := Entry(result, now + ttl, NO_TOKEN)]
  }

  function Sweep(t: Table, now: int): Table {
    map k | k in t && !(now > t[k].expiresAt) :: t[k]
  }

  /** How a keyed Send leaves the store once its provider call is over. */
  function Settle(t: Table, key: Key, token: Token, ttl: int, result: Option<ResultValue>, failed: bool,
          now: int): Table {
    if failed && result.None? then Abandon(t, key, token)
    else Finalize(t, key, token, result, ttl, now)
  }

  /** The store after one keyed Send that nothing interleaves with. */
  function SendTable(t: Table, key: Key, token: Token, stamp: int, ttl: int,
                     result: Option<ResultValue>, failed: bool, settleAt: int): Table
  {
    var reserved := Reserve(t, key, token, stamp, ttl);
    if ReserveAnswerOf(t, key, token, stamp).Claimed? then Settle(reserved, key, token, ttl, result, failed, settleAt)
    else reserved
  }

  /** What that Send hands its caller: the provider's result, a recorded one, or nothing. */
  function SentResult(t: Table, key: Key, token: Token, stamp: int, result: Option<ResultValue>): Option<ResultValue> {
    match ReserveAnswerOf(t, key, token, stamp)
    case Claimed(_) => result
    case Recorded(r) => Some(r)
    case InFlight => None
  }

  /** The same table for the check-then-act path. */
  function UnreservedSendTable(t: Table, key: Key, checkAt: int, ttl: int,
                               result: Option<ResultValue>, failed: bool, settleAt: int): Table
  {
    if Get(t, key, checkAt).Some? || (failed && result.None?) then t
    else Set(t, key, result, ttl, settleAt)
  }

  // ---------------------------------------------------------------- operations as events

  datatype Op =
    | OpReserve(key: Key, token: Token, stamp: int, ttl: int)
    | OpAbandon(key: Key, token: Token)
    | OpFinalize(key: Key, token: Token, result: Option<ResultValue>, ttl: int)
    | OpGet(key: Key)
    | OpSet(key: Key, result: Option<ResultValue>, ttl: int)
    | OpDelete(key: Key)
    | OpSweep

  /** An operation together with the clock reading at which it holds the lock. */
  datatype Event = At(now: int, op: Op)

  datatype Answer =
    | Reserved(answer: ReserveAnswer)
    | Finalized(superseded: bool)
    | Found(result: Option<ResultValue>)
    | Silent

  function Apply(t: Table, e: Event): Table {
    match e.op
    case OpReserve(key, token, stamp, ttl) => Reserve(t, key, token, stamp, ttl)
    case OpAbandon(key, token) => Abandon(t, key, token)
    case OpFinalize(key, token, result, ttl) => Finalize(t, key, token, result, ttl, e.now)
    case OpGet(_) => t
    case OpSet(key, result, ttl) => Set(t, key, result, ttl, e.now)
    case OpDelete(key) => Delete(t, key)
    case OpSweep => Sweep(t, e.now)
  }

  function AnswerOf(t: Table, e: Event): Answer {
    match e.op
    case OpReserve(key, token, stamp, _) => Reserved(ReserveAnswerOf(t, key, token, stamp))
    case OpFinalize(key, token, _, _) => Finalized(Superseded(t, key, token))
    case OpGet(key) => Found(Get(t, key, e.now))
    case _ => Silent
  }

  /** The table after the first i events. */
  function TableAt(t: Table, trace: seq<Event>, i: nat): Table
    requires i <= |trace|
  {
    if i == 0 then t else Apply(TableAt(t, trace, i - 1), trace[i - 1])
  }

  /** The lock is passed on in clock order, and Reserve's stamp, read before it takes the
      lock, may be stale but is never in the future. Reserve never draws the empty token. */
  ghost predicate Ordered(trace: seq<Event>) {
    && (forall i, j | 0 <= i < j < |trace| :: trace[i].now <= trace[j].now)
    && (forall i | 0 <= i < |trace| :: PlausibleEvent(trace[i]))
  }

  predicate PlausibleEvent(e: Event) {
    e.op.OpReserve? ==> e.op.stamp <= e.now && e.op.token != NO_TOKEN
  }

  /** Every entry is either a recorded result or a claim with an owner, never both or neither. */
  ghost predicate WellFormed(t: Table) {
    forall k | k in t :: t[k].result.Some? <==> t[k].token == NO_TOKEN
  }

  /** All seven operations keep every entry either a result or an owned claim. Set(nil) neither creates
      nor releases a claim, and leaves no result under its key. */
  lemma OperationsKeepWellFormed(t: Table, e: Event)
    requires WellFormed(t) && PlausibleEvent(e)
    ensures WellFormed(Apply(t, e))
    ensures e.op.OpSet? && e.op.result.None? ==>
              && (forall k :: (k in Apply(t, e) && Apply(t, e)[k].result.None?) <==> (k in t && t[k].result.None?))
              && (forall later :: Get(Apply(t, e), e.op.key, later).None?)
  {
  }

  lemma {:induction false} TraceKeepsWellFormed(t: Table, trace: seq<Event>, i: nat)
    requires WellFormed(t) && Ordered(trace) && i <= |trace|
    ensures WellFormed(TableAt(t, trace, i))
  {
    if i > 0 {
      TraceKeepsWellFormed(t, trace, i - 1);
      OperationsKeepWellFormed(TableAt(t, trace, i - 1), trace[i - 1]);
    }
  }

  /** No operation on one key is visible at another, except a sweep dropping an expired entry. */
  lemma OtherKeysUntouched(t: Table, e: Event, k: Key)
    requires e.op.OpSweep? || e.op.key != k
    ensures k in Apply(t, e) ==> k in t && Apply(t, e)[k] == t[k]
    ensures k in t && k !in Apply(t, e) ==> e.op.OpSweep? && e.now > t[k].expiresAt
  {
  }

  // ---------------------------------------------------------------- what each operation does to any table

  /** Reserve, on a key that is absent, claimed or recorded, live or expired: a live entry stands and answers; otherwise
      the caller owns a claim until stamp + ttl, even one that is born expired. */
  lemma ReserveLaw(t: Table, key: Key, token: Token, stamp: int, ttl: int, now: int)
    ensures var e := At(now, OpReserve(key, token, stamp, ttl));
            if key in t && stamp < t[key].expiresAt then
              && Apply(t, e) == t
              && AnswerOf(t, e) == Reserved(if t[key].result.Some? then Recorded(t[key].result.value) else InFlight)
            else
              && AnswerOf(t, e) == Reserved(Claimed(token)) && Claims(Apply(t, e), key, token, stamp + ttl)
              && ElsewhereSame(t, Apply(t, e), key)
  {
  }

  /** Set with a result takes the place of whatever stands under the key, and the time it is kept starts anew. */
  lemma SetLaw(t: Table, key: Key, r: ResultValue, ttl: int, now: int)
    ensures var after := Apply(t, At(now, OpSet(key, Some(r), ttl)));
            && Holds(after, key, r, now + ttl) && ElsewhereSame(t, after, key)
            && (forall later :: Get(after, key, later) == if later <= now + ttl then Some(r) else None)
  {
  }

  /** Set without one removes a recorded result, and leaves a claim standing. */
  lemma SetNilLaw(t: Table, key: Key, ttl: int, now: int)
    ensures var after := Apply(t, At(now, OpSet(key, None, ttl)));
            && ElsewhereSame(t, after, key)
            && (key in after <==> key in t && t[key].result.None?) && (key in after ==> after[key] == t[key])
  {
  }

  lemma DeleteLaw(t: Table, key: Key, now: int)
    ensures var after := Apply(t, At(now, OpDelete(key)));
            key !in after && ElsewhereSame(t, after, key)
  {
  }

  /** Abandon removes the claim of its own token, expired or not, and nothing else ever. */
  lemma AbandonLaw(t: Table, key: Key, token: Token, now: int)
    ensures var after := Apply(t, At(now, OpAbandon(key, token)));
            && ElsewhereSame(t, after, key) && (key in after ==> key in t && after[key] == t[key])
            && (key in t && key !in after <==>
                  token != NO_TOKEN && key in t && t[key] == Entry(None, t[key].expiresAt, token))
  {
  }

  /** Get changes nothing, and finds a recorded result up to and including its expiry. */
  lemma GetLaw(t: Table, key: Key, now: int)
    ensures var e := At(now, OpGet(key));
            && Apply(t, e) == t
            && (forall r :: AnswerOf(t, e) == Found(Some(r)) <==>
                              key in t && t[key].result == Some(r) && now <= t[key].expiresAt)
            && AnswerOf(t, e).Found?
  {
  }

  /** The two tables agree under every other key. */
  ghost predicate ElsewhereSame(t: Table, u: Table, key: Key) {
    forall k | k != key :: (k in t <==> k in u) && (k in t ==> t[k] == u[k])
  }

  // ---------------------------------------------------------------- fencing

  /** Abandon and Finalize are fenced: with a token that does not match a present entry they
      leave the whole table as it was, and Finalize says so. */
  lemma ForeignTokenIsFenced(t: Table, key: Key, token: Token, result: Option<ResultValue>, ttl: int, now: int)
    requires key in t && t[key].token != token
    ensures Abandon(t, key, token) == t
    ensures Finalize(t, key, token, result, ttl, now) == t && Superseded(t, key, token)
  {
  }

  /** A Finalize that carries no token, or finds somebody else's entry under its key, reports that it was superseded and
      changes nothing. Any other leaves its result, and only its result, recorded until now + ttl: later readings find
      it, and a Finalize repeated with the same token, a late retry of the same write, is refused. */
  lemma FinalizeRecordsOrReports(t: Table, key: Key, token: Token, r: ResultValue, ttl: int, now: int)
    ensures var e := At(now, OpFinalize(key, token, Some(r), ttl));
            if token == NO_TOKEN || (key in t && t[key].token != token) then
              AnswerOf(t, e) == Finalized(true) && Apply(t, e) == t
            else
              && AnswerOf(t, e) == Finalized(false) && Holds(Apply(t, e), key, r, now + ttl)
              && ElsewhereSame(t, Apply(t, e), key)
              && (forall later :: Get(Apply(t, e), key, later) == if later <= now + ttl then Some(r) else None)
              && AnswerOf(Apply(t, e), e) == Finalized(true)
  {
  }

  /** The same for a Finalize without a result, which records nothing: it removes what its own token may remove. */
  lemma FinalizeNilReleasesOrReports(t: Table, key: Key, token: Token, ttl: int, now: int)
    ensures var e := At(now, OpFinalize(key, token, None, ttl));
            if token == NO_TOKEN || (key in t && t[key].token != token) then
              AnswerOf(t, e) == Finalized(true) && Apply(t, e) == t
            else
              AnswerOf(t, e) == Finalized(false) && key !in Apply(t, e) && ElsewhereSame(t, Apply(t, e), key)
  {
  }

  /** A result recorded under a key. */
  ghost predicate Holds(t: Table, key: Key, r: ResultValue, expiresAt: int) {
    key in t && t[key] == Entry(Some(r), expiresAt, NO_TOKEN)
  }

  /** An outside write to the key: Set and Delete carry no token and are not fenced. */
  predicate Overwrites(e: Event, key: Key) {
    (e.op.OpSet? || e.op.OpDelete?) && e.op.key == key
  }

  /** An unexpired recorded result is moved by no Reserve, Abandon, Finalize, Get or sweep,
      whatever token or stale stamp they carry. */
  lemma RecordedResultIsStable(t: Table, e: Event, key: Key, r: ResultValue, expiresAt: int)
    requires Holds(t, key, r, expiresAt)
    requires PlausibleEvent(e) && !Overwrites(e, key) && e.now < expiresAt
    ensures Holds(Apply(t, e), key, r, expiresAt)
    ensures e.op.OpReserve? && e.op.key == key ==> AnswerOf(t, e) == Reserved(Recorded(r))
    ensures e.op.OpGet? && e.op.key == key ==> AnswerOf(t, e) == Found(Some(r))
    ensures e.op.OpFinalize? && e.op.key == key ==> AnswerOf(t, e) == Finalized(true)
  {
  }

  /** The same over a whole stretch of a trace. */
  lemma {:induction false} RecordedResultSurvives(t: Table, trace: seq<Event>, i: nat, j: nat, key: Key,
          r: ResultValue, expiresAt: int)
    requires i <= j <= |trace| && Ordered(trace)
    requires Holds(TableAt(t, trace, i), key, r, expiresAt)
    requires forall m | i <= m < j :: trace[m].now < expiresAt && !Overwrites(trace[m], key)
    ensures Holds(TableAt(t, trace, j), key, r, expiresAt)
  {
    if i < j {
      RecordedResultSurvives(t, trace, i, j - 1, key, r, expiresAt);
      RecordedResultIsStable(TableAt(t, trace, j - 1), trace[j - 1], key, r, expiresAt);
    }
  }

  /** An open claim. */
  ghost predicate Claims(t: Table, key: Key, token: Token, expiresAt: int) {
    key in t && t[key] == Entry(None, expiresAt, token)
  }

  /** A write that carries the claim's own token. */
  predicate UsesToken(e: Event, key: Key, token: Token) {
    (e.op.OpAbandon? || e.op.OpFinalize?) && e.op.key == key && e.op.token == token
  }

  /** An unexpired claim is moved only by its own token, or by a write that is not fenced. */
  lemma {:induction false} ClaimSurvives(t: Table, trace: seq<Event>, i: nat, key: Key, token: Token, expiresAt: int)
    requires i <= |trace| && Ordered(trace) && token != NO_TOKEN
    requires Claims(t, key, token, expiresAt)
    requires forall m | 0 <= m < i ::
               trace[m].now < expiresAt && !Overwrites(trace[m], key) && !UsesToken(trace[m], key, token)
    ensures Claims(TableAt(t, trace, i), key, token, expiresAt)
  {
    if i > 0 {
      ClaimSurvives(t, trace, i - 1, key, token, expiresAt);
      assert PlausibleEvent(trace[i - 1]);
    }
  }

  // ---------------------------------------------------------------- exclusion

  /** Event i of the trace is a Reserve that hands out its claim. */
  ghost predicate GrantAt(t: Table, trace: seq<Event>, i: nat, key: Key) {
    && i < |trace| && trace[i].op.OpReserve? && trace[i].op.key == key
    && ReserveAnswerOf(TableAt(t, trace, i), key, trace[i].op.token, trace[i].op.stamp).Claimed?
  }

  function Deadline(e: Event): int
    requires e.op.OpReserve?
  {
    e.op.stamp + e.op.ttl
  }

  /** The event opens the key before the deadline of the claim `token`: the claim's own release, its
      own outcome recorded for less time than the claim had left, or a write that is not fenced. */
  predicate Frees(e: Event, key: Key, token: Token, deadline: int) {
    || Overwrites(e, key)
    || e.op == OpAbandon(key, token)
    || (e.op.OpFinalize? && e.op.key == key && e.op.token == token
        && (e.op.result.None? || e.now + e.op.ttl < deadline))
  }

  /** The key stands claimed by `token`, or answered, at least until the deadline. */
  ghost predicate Guarded(t: Table, key: Key, token: Token, deadline: int) {
    key in t && t[key].expiresAt >= deadline && (t[key].result.Some? || t[key].token == token)
  }

  lemma GuardIsKept(t: Table, e: Event, key: Key, token: Token, deadline: int)
    requires WellFormed(t) && Guarded(t, key, token, deadline) && token != NO_TOKEN
    requires PlausibleEvent(e) && e.now < deadline && !Frees(e, key, token, deadline)
    ensures Guarded(Apply(t, e), key, token, deadline)
    ensures e.op.OpReserve? && e.op.key == key ==> !AnswerOf(t, e).answer.Claimed?
  {
  }

  lemma {:induction false} GuardLasts(t: Table, trace: seq<Event>, i: nat, j: nat, key: Key)
    requires WellFormed(t) && Ordered(trace) && GrantAt(t, trace, i, key) && i < j <= |trace|
    requires forall m | i < m < j :: trace[m].now < Deadline(trace[i])
    requires forall m | i < m < j :: !Frees(trace[m], key, trace[i].op.token, Deadline(trace[i]))
    ensures Guarded(TableAt(t, trace, j), key, trace[i].op.token, Deadline(trace[i]))
  {
    if i + 1 < j {
      GuardLasts(t, trace, i, j - 1, key);
      TraceKeepsWellFormed(t, trace, j - 1);
      GuardIsKept(TableAt(t, trace, j - 1), trace[j - 1], key, trace[i].op.token, Deadline(trace[i]));
    }
  }

  /** EXCLUSION. Two grants for one key: unless the first was freed in between, the second takes the
      lock no earlier than the first one's deadline. The operations in between are arbitrary: stale
      stamps, sweeps, and Abandon or Finalize calls with any other token, in any number. */
  lemma Exclusion(t: Table, trace: seq<Event>, i: nat, j: nat, key: Key)
    requires WellFormed(t) && Ordered(trace) && i < j
    requires GrantAt(t, trace, i, key) && GrantAt(t, trace, j, key)
    requires forall m | i < m < j :: !Frees(trace[m], key, trace[i].op.token, Deadline(trace[i]))
    ensures Deadline(trace[i]) <= trace[j].now
  {
    if trace[j].now < Deadline(trace[i]) {
      GuardLasts(t, trace, i, j, key);
      TraceKeepsWellFormed(t, trace, j);
    }
  }

  /** The holder's own Abandon, or its own nil Finalize, opens the key at once: the next Reserve is
      granted however stale its stamp. The exclusion above therefore cannot drop its last premise. */
  lemma OwnReleaseReopens(t: Table, key: Key, token: Token, ttl: int, now: int, next: Token, stamp: int)
    requires key in t && t[key].result.None? && t[key].token == token && token != NO_TOKEN
    ensures ReserveAnswerOf(Abandon(t, key, token), key, next, stamp) == Claimed(next)
    ensures ReserveAnswerOf(Finalize(t, key, token, None, ttl, now), key, next, stamp) == Claimed(next)
    ensures Abandon(t, key, token) == Finalize(t, key, token, None, ttl, now) == Delete(t, key)
  {
  }

  /** Grants of one key, in order, none of which was freed before the next one. */
  ghost predicate UnfreedGrants(t: Table, trace: seq<Event>, key: Key, grants: seq<nat>) {
    && (forall n | 0 <= n < |grants| :: GrantAt(t, trace, grants[n], key))
    && (forall n | 0 < n < |grants| :: grants[n - 1] < grants[n])
    && (forall n, m | 0 < n < |grants| && grants[n - 1] < m < grants[n] ::
          !Frees(trace[m], key, trace[grants[n - 1]].op.token, Deadline(trace[grants[n - 1]])))
  }

  /** RATE. If a granted call starts at most `gap` after its clock reading, unfreed grants of one key keep
      their calls apart: from the first to the n-th after it at least n * (ttl - gap) passes. */
  lemma {:induction false} CallsAreSpaced(t: Table, trace: seq<Event>, key: Key, grants: seq<nat>, calls: seq<int>,
          ttl: int, gap: int, n: nat)
    requires WellFormed(t) && Ordered(trace) && UnfreedGrants(t, trace, key, grants)
    requires n < |calls| == |grants|
    requires forall m | 0 <= m < |grants| :: trace[grants[m]].op.ttl >= ttl
    requires forall m | 0 <= m < |grants| :: trace[grants[m]].now <= calls[m] <= trace[grants[m]].op.stamp + gap
    ensures n * (ttl - gap) <= calls[n] - calls[0]
  {
    if n > 0 {
      CallsAreSpaced(t, trace, key, grants, calls, ttl, gap, n - 1);
      Exclusion(t, trace, grants[n - 1], grants[n], key);
      OneMore(n, ttl - gap);
    }
  }

  // ---------------------------------------------------------------- the sweep

  /** `u` is `t` without some entries that were already expired at `since`. */
  ghost predicate Swept(t: Table, u: Table, since: int) {
    && (forall k | k in u :: k in t && t[k] == u[k])
    && (forall k | k in t && k !in u :: t[k].expiresAt < since)
  }

  /** A sweep drops exactly the entries that are expired at its own reading. */
  lemma SweepIsSwept(t: Table, now: int)
    ensures Swept(t, Sweep(t, now), now) && Apply(t, At(now, OpSweep)) == Sweep(t, now)
    ensures forall k :: k in Sweep(t, now) <==> k in t && now <= t[k].expiresAt
    ensures forall k | k in Sweep(t, now) :: Sweep(t, now)[k] == t[k]
  {
  }

  predicate NotBefore(e: Event, since: int) {
    since <= e.now && (e.op.OpReserve? ==> since <= e.op.stamp)
  }

  /** Events other than Finalize cannot tell the swept table from the unswept one. */
  lemma SweepUnseenByEvent(t: Table, u: Table, since: int, e: Event)
    requires Swept(t, u, since) && NotBefore(e, since)
    requires e.op.OpFinalize? ==>
               e.op.token == NO_TOKEN || e.op.key !in t || e.op.key in u || t[e.op.key].token == e.op.token
    ensures AnswerOf(t, e) == AnswerOf(u, e)
    ensures Swept(Apply(t, e), Apply(u, e), since)
  {
  }

  /** SWEEP TRANSPARENCY. Dropping the expired entries changes no answer of any continuation free of
      Finalize whose clock readings are not before the sweep's own. */
  lemma {:induction false} SweepIsTransparent(t: Table, since: int, trace: seq<Event>, i: nat)
    requires i < |trace|
    requires forall m | 0 <= m < |trace| :: NotBefore(trace[m], since) && !trace[m].op.OpFinalize?
    ensures AnswerOf(TableAt(t, trace, i), trace[i]) == AnswerOf(TableAt(Sweep(t, since), trace, i), trace[i])
  {
    SweptTraces(t, since, trace, i);
    SweepUnseenByEvent(TableAt(t, trace, i), TableAt(Sweep(t, since), trace, i), since, trace[i]);
  }

  lemma {:induction false} SweptTraces(t: Table, since: int, trace: seq<Event>, i: nat)
    requires i <= |trace|
    requires forall m | 0 <= m < |trace| :: NotBefore(trace[m], since) && !trace[m].op.OpFinalize?
    ensures Swept(TableAt(t, trace, i), TableAt(Sweep(t, since), trace, i), since)
  {
    if i == 0 {
      SweepIsSwept(t, since);
    } else {
      SweptTraces(t, since, trace, i - 1);
      SweepUnseenByEvent(TableAt(t, trace, i - 1), TableAt(Sweep(t, since), trace, i - 1), since, trace[i - 1]);
    }
  }

  /** Finalize is the exception, and exactly so: a sweep changes its answer if and only if it drops
      another token's expired entry from under the key, which would have refused the write. */
  lemma SweepSeenByFinalize(t: Table, since: int, key: Key, token: Token)
    ensures Superseded(t, key, token) != Superseded(Sweep(t, since), key, token)
       <==> token != NO_TOKEN && key in t && since > t[key].expiresAt && t[key].token != token
  {
  }

  /** Get and Reserve read the clock differently: on a recorded result they agree if and only if
      the clock does not stand exactly at the expiry. */
  lemma GetAndReserveAgree(t: Table, key: Key, token: Token, now: int)
    requires key in t && t[key].result.Some?
    ensures ReserveAnswerOf(t, key, token, now).Recorded? == Get(t, key, now).Some? <==> now != t[key].expiresAt
    ensures ReserveAnswerOf(t, key, token, now).Recorded? ==>
              Get(t, key, now) == Some(ReserveAnswerOf(t, key, token, now).result)
  {
  }
}
