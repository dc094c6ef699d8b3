/** Sends that do not overlap: the reserving path and the check-then-act path are one machine. */
module SequentialSend {
  import opened Values
  import T = ClaimTable
  import P = SendProtocol
  import opened ErrorChain
  import opened MemoryStore
  import opened CacheKey

  /** A Send with its clock readings and what the provider returns if it is called, perhaps with a
      sweep while the provider is working; or a sweep between Sends. */
  datatype Event =
    | Send(key: T.Key, token: T.Token, ttl: int, startAt: int, outcome: Outcome, sweptAt: Option<int>, settleAt: int)
    | Sweep(now: int)

  datatype Reply = Reply(outcome: Outcome, called: bool)

  function First(e: Event): int { if e.Send? then e.startAt else e.now }

  function Last(e: Event): int { if e.Send? then e.settleAt else e.now }

  predicate Plausible(e: Event) {
    e.Send? ==>
      && e.token != T.NO_TOKEN && e.startAt <= e.settleAt
      && (e.sweptAt.Some? ==> e.startAt <= e.sweptAt.value <= e.settleAt)
  }

  ghost predicate InOrder(events: seq<Event>) {
    && (forall i | 0 <= i < |events| :: Plausible(events[i]))
    && (forall i | 0 < i < |events| :: Succeeds(events, i))
  }

  predicate Succeeds(events: seq<Event>, i: nat)
    requires 0 < i < |events|
  {
    Last(events[i - 1]) <= First(events[i])
  }

  predicate Failed(o: Outcome) { o.err.Some? }

  function MaybeSwept(t: T.Table, at: Option<int>): T.Table {
    if at.None? then t else T.Sweep(t, at.value)
  }

  // ---------------------------------------------------------------- the two paths

  function ReservingTable(t: T.Table, e: Event): T.Table {
    match e
    case Sweep(now) => T.Sweep(t, now)
    case Send(key, token, ttl, startAt, o, sweptAt, settleAt) =>
      var t' := T.Reserve(t, key, token, startAt, ttl);
      if T.ReserveAnswerOf(t, key, token, startAt).Claimed?
      then T.Settle(MaybeSwept(t', sweptAt), key, token, ttl, o.result, Failed(o), settleAt)
      else t'
  }

  function ReservingReply(t: T.Table, e: Event): Reply
    requires e.Send?
  {
    match T.ReserveAnswerOf(t, e.key, e.token, e.startAt)
    case Claimed(_) => Reply(e.outcome, true)
    case Recorded(r) => Reply(Outcome(Some(r), None), false)
    case InFlight => Reply(IN_FLIGHT, false)
  }

  function CheckingTable(t: T.Table, e: Event): T.Table {
    match e
    case Sweep(now) => T.Sweep(t, now)
    case Send(key, token, ttl, startAt, o, sweptAt, settleAt) =>
      if T.Get(t, key, startAt).Some? then t
      else if Failed(o) && o.result.None? then MaybeSwept(t, sweptAt)
      else T.Set(MaybeSwept(t, sweptAt), key, o.result, ttl, settleAt)
  }

  function CheckingReply(t: T.Table, e: Event): Reply
    requires e.Send?
  {
    if T.Get(t, e.key, e.startAt).Some? then Reply(Outcome(T.Get(t, e.key, e.startAt), None), false)
    else Reply(e.outcome, true)
  }

  /** Without a sweep in between, these are the tables IdempotentProvider's two methods leave. */
  lemma SameAsProviderMethods(t: T.Table, e: Event)
    requires e.Send? && e.sweptAt.None?
    ensures ReservingTable(t, e)
         == T.SendTable(t, e.key, e.token, e.startAt, e.ttl, e.outcome.result, Failed(e.outcome), e.settleAt)
    ensures CheckingTable(t, e)
         == T.UnreservedSendTable(t, e.key, e.startAt, e.ttl, e.outcome.result, Failed(e.outcome), e.settleAt)
  {
  }

  function ReadError(err: Option<Error<ProviderError>>): Option<ErrorValue>
    reads if err.Some? then Objects(err.value) else {}
  {
    if err.Some? then Some(Snapshot(err.value)) else None
  }

  /** What the wrapped provider hands back to the provider methods below is the event's outcome. */
  ghost predicate Hands(provider: IdempotentProvider, e: Event, outcome: SendResult?,
                        failure: Option<Error<ProviderError>>)
    reads provider.store, provider.store.Repr
    reads outcome, if outcome == null then {} else {outcome.metadata, outcome.error}
    reads if failure.Some? then Objects(failure.value) else {}
  {
    && provider.store.Valid() && e.Send? && e.sweptAt.None? && e.ttl == provider.ttl
    && FootprintOf(outcome) !! provider.store.Repr && provider.store !in FootprintOf(outcome)
    && e.outcome == Outcome(ValueOf(outcome), ReadError(failure))
  }

  /** The reserving path is IdempotentProvider's Send: its table and its reply. */
  method SendReserving(provider: IdempotentProvider, idempotencyKey: string, e: Event, outcome: SendResult?,
                       failure: Option<Error<ProviderError>>)
    returns (reply: Reply)
    requires Hands(provider, e, outcome, failure) && e.token != T.NO_TOKEN
    requires idempotencyKey != "" && e.key == BuildCacheKey(provider.channel, idempotencyKey)
    modifies provider.store
    ensures provider.store.Valid() && provider.store.table == ReservingTable(old(provider.store.table), e)
    ensures reply == ReservingReply(old(provider.store.table), e)
  {
    SameAsProviderMethods(provider.store.table, e);
    if failure.Some? {
      ObjectsAreAllocated(failure.value);
    }
    var result, err, called :=
      provider.Send(idempotencyKey, Drawn(e.token), e.startAt, outcome, failure, e.settleAt);
    if failure.Some? {
      SnapshotIsFramed(failure.value);
    }
    reply := Reply(Outcome(ValueOf(result), ReadError(err)), called);
  }

  /** The check-then-act path is its sendUnreserved. */
  method SendChecking(provider: IdempotentProvider, e: Event, outcome: SendResult?,
                      failure: Option<Error<ProviderError>>)
    returns (reply: Reply)
    requires Hands(provider, e, outcome, failure)
    modifies provider.store
    ensures provider.store.Valid() && provider.store.table == CheckingTable(old(provider.store.table), e)
    ensures reply == CheckingReply(old(provider.store.table), e)
  {
    SameAsProviderMethods(provider.store.table, e);
    if failure.Some? {
      ObjectsAreAllocated(failure.value);
    }
    var result, err, called := provider.SendUnreserved(e.key, None, e.startAt, outcome, failure, e.settleAt);
    if failure.Some? {
      SnapshotIsFramed(failure.value);
    }
    reply := Reply(Outcome(ValueOf(result), ReadError(err)), called);
  }

  /** The provider's call, which takes `wait`, and the settlement. */
  function AfterGrant(s: P.State, p: P.Caller, o: Outcome, wait: nat): P.State {
    P.Next(P.Next(P.Next(P.Next(s, P.CallProvider(p)), P.Tick(wait)), P.ProviderReturns(p, o)), P.Settle(p))
  }

  /** A Send of the concurrent protocol that nobody interrupts, its provider taking `wait`, is that same Send: it leaves
      the same table and returns the same reply. Where the claim is not granted the later steps are disabled. */
  lemma UninterruptedSend(s: P.State, p: P.Caller, key: T.Key, ttl: int, o: Outcome, wait: nat)
    requires p !in s.callers && s.nextToken != T.NO_TOKEN
    ensures var s1 := P.Next(P.Next(s, P.ReadClock(p, key, ttl)), P.TakeLock(p));
            var s2 := AfterGrant(s1, p, o, wait);
            var e := Send(key, s.nextToken, ttl, s.clock, o, None, s.clock + wait);
            && s2.table == ReservingTable(s.table, e) && s2.clock == s.clock + wait
            && p in s2.callers && s2.callers[p].Done?
            && Reply(s2.callers[p].reply, s2.callers[p].called) == ReservingReply(s.table, e)
  {
    var c := P.Claim(key, ttl, s.nextToken, s.clock);
    var s1 := P.Next(P.Next(s, P.ReadClock(p, key, ttl)), P.TakeLock(p));
    assert T.ReserveAnswerOf(s.table, key, s.nextToken, s.clock).Claimed? ==> s1.callers[p] == P.Granted(c, s.clock);
    assert s1.table == T.Reserve(s.table, key, s.nextToken, s.clock, ttl) && s1.clock == s.clock;
    FromGrantToReply(s1, p, o, wait);
  }

  lemma FromGrantToReply(s: P.State, p: P.Caller, o: Outcome, wait: nat)
    requires p in s.callers && (s.callers[p].Granted? || s.callers[p].Done?)
    ensures var s2 := AfterGrant(s, p, o, wait);
            var c := s.callers[p].claim;
            && s2.clock == s.clock + wait && p in s2.callers
            && (s.callers[p].Done? ==> s2.callers[p] == s.callers[p] && s2.table == s.table)
            && (s.callers[p].Granted? ==>
                  && s2.callers[p] == P.Done(c, o, true)
                  && s2.table == T.Settle(s.table, c.key, c.token, c.ttl, o.result, o.err.Some?, s.clock + wait))
  {
    var s1 := P.Next(P.Next(P.Next(s, P.CallProvider(p)), P.Tick(wait)), P.ProviderReturns(p, o));
    assert s1.table == s.table && s1.clock == s.clock + wait && p in s1.callers;
    assert s.callers[p].Granted? ==> s1.callers[p] == P.Returned(s.callers[p].claim, s.callers[p].lockedAt, s.clock, o);
    assert s.callers[p].Done? ==> s1.callers[p] == s.callers[p];
  }

  function ReservingAt(t: T.Table, events: seq<Event>, i: nat): T.Table
    requires i <= |events|
  {
    if i == 0 then t else ReservingTable(ReservingAt(t, events, i - 1), events[i - 1])
  }

  function CheckingAt(t: T.Table, events: seq<Event>, i: nat): T.Table
    requires i <= |events|
  {
    if i == 0 then t else CheckingTable(CheckingAt(t, events, i - 1), events[i - 1])
  }

  // ---------------------------------------------------------------- refinement

  /** What a table shows at a key from `now` on. */
  function Visible(t: T.Table, key: T.Key, now: int): Option<T.Entry> {
    if key in t && now <= t[key].expiresAt then Some(t[key]) else None
  }

  ghost predicate ClaimFree(t: T.Table) {
    forall k | k in t :: t[k].result.Some?
  }

  /** The two tables hold no claims and differ only in expired entries. */
  ghost predicate Alike(r: T.Table, c: T.Table, now: int) {
    ClaimFree(r) && ClaimFree(c) && forall k :: Visible(r, k, now) == Visible(c, k, now)
  }

  lemma AlikeLater(r: T.Table, c: T.Table, now: int, later: int)
    requires Alike(r, c, now) && now <= later
    ensures Alike(r, c, later)
  {
    forall k ensures Visible(r, k, later) == Visible(c, k, later) {
      assert Visible(r, k, now) == Visible(c, k, now);
    }
  }

  /** The clock stands exactly at the expiry of what is recorded under the key. */
  predicate Tie(t: T.Table, e: Event) {
    e.Send? && e.key in t && t[e.key].expiresAt == e.startAt
  }

  /** One Send: the paths answer alike if and only if there is no tie. */
  lemma RepliesAgreeUnlessTied(r: T.Table, c: T.Table, e: Event)
    requires e.Send? && Plausible(e) && Alike(r, c, e.startAt)
    ensures ReservingReply(r, e) == CheckingReply(c, e) <==> !Tie(r, e)
    ensures Tie(r, e) <==> Tie(c, e)
    ensures Tie(r, e) ==> ReservingReply(r, e).called && !CheckingReply(c, e).called
  {
    assert Visible(r, e.key, e.startAt) == Visible(c, e.key, e.startAt);
  }

  lemma SweepKeepsVisible(t: T.Table, at: Option<int>, k: T.Key, from: int, later: int)
    requires from <= later && (at.Some? ==> at.value <= later)
    ensures Visible(MaybeSwept(t, at), k, later) == Visible(t, k, later)
  {
  }

  /** After a Send that found nothing, both tables show its result, or nothing, and otherwise what they showed. */
  lemma MissShows(t: T.Table, e: Event, k: T.Key)
    requires e.Send? && Plausible(e) && ClaimFree(t) && Visible(t, e.key, e.startAt).None?
    ensures var entry := T.Entry(e.outcome.result, e.settleAt + e.ttl, T.NO_TOKEN);
            var shown := if k != e.key then Visible(t, k, e.settleAt)
                         else if e.outcome.result.None? then None
                         else Visible(map[k := entry], k, e.settleAt);
            && Visible(ReservingTable(t, e), k, e.settleAt) == shown
            && Visible(CheckingTable(t, e), k, e.settleAt) == shown
  {
    SweepKeepsVisible(t, e.sweptAt, k, e.startAt, e.settleAt);
  }

  lemma MissKeepsAlike(r: T.Table, c: T.Table, e: Event)
    requires e.Send? && Plausible(e) && Alike(r, c, e.startAt) && Visible(r, e.key, e.startAt).None?
    ensures Alike(ReservingTable(r, e), CheckingTable(c, e), e.settleAt)
  {
    AlikeLater(r, c, e.startAt, e.settleAt);
    assert Visible(c, e.key, e.startAt).None?;
    forall k ensures Visible(ReservingTable(r, e), k, e.settleAt) == Visible(CheckingTable(c, e), k, e.settleAt) {
      MissShows(r, e, k);
      MissShows(c, e, k);
      assert Visible(r, k, e.settleAt) == Visible(c, k, e.settleAt);
    }
  }

  lemma EventKeepsAlike(r: T.Table, c: T.Table, e: Event)
    requires Plausible(e) && Alike(r, c, First(e)) && !Tie(r, e)
    ensures Alike(ReservingTable(r, e), CheckingTable(c, e), Last(e))
  {
    AlikeLater(r, c, First(e), Last(e));
    if e.Send? {
      assert Visible(r, e.key, e.startAt) == Visible(c, e.key, e.startAt);
      if Visible(r, e.key, e.startAt).None? {
        MissKeepsAlike(r, c, e);
      }
    } else {
      forall k ensures Visible(T.Sweep(r, e.now), k, e.now) == Visible(T.Sweep(c, e.now), k, e.now) {
        assert Visible(r, k, e.now) == Visible(c, k, e.now);
      }
    }
  }

  ghost predicate UntiedBefore(t: T.Table, events: seq<Event>, n: nat)
    requires n <= |events|
  {
    forall i | 0 <= i < n :: UntiedAt(t, events, i)
  }

  predicate UntiedAt(t: T.Table, events: seq<Event>, i: nat)
    requires i < |events|
  {
    !Tie(ReservingAt(t, events, i), events[i])
  }

  lemma UntiedStep(r: T.Table, c: T.Table, e: Event, later: int)
    requires Plausible(e) && Alike(r, c, First(e)) && !Tie(r, e) && Last(e) <= later
    ensures Alike(ReservingTable(r, e), CheckingTable(c, e), later)
  {
    EventKeepsAlike(r, c, e);
    AlikeLater(ReservingTable(r, e), CheckingTable(c, e), Last(e), later);
  }

  lemma {:induction false} RunsStayAlike(t: T.Table, events: seq<Event>, i: nat, r: T.Table, c: T.Table)
    requires i < |events| && ClaimFree(t) && InOrder(events) && UntiedBefore(t, events, i)
    requires r == ReservingAt(t, events, i) && c == CheckingAt(t, events, i)
    ensures Alike(r, c, First(events[i]))
  {
    if i > 0 {
      var r', c', e := ReservingAt(t, events, i - 1), CheckingAt(t, events, i - 1), events[i - 1];
      RunsStayAlike(t, events, i - 1, r', c');
      assert Succeeds(events, i) && UntiedAt(t, events, i - 1) && Plausible(e);
      UntiedStep(r', c', e, First(events[i]));
    }
  }

  /** REFINEMENT. From any table without claims, over any sequence of non-overlapping Sends and sweeps, the two
      paths give every Send the same reply and call the provider for the same ones: (nil, err), (nil, nil) and
      failing results, Sends that outlast their claim and sweeps under a running Send included. They part at the
      first Send that starts exactly at the expiry of its key's record, and not before. */
  lemma PathsAgree(t: T.Table, events: seq<Event>, i: nat)
    requires i < |events| && events[i].Send? && ClaimFree(t) && InOrder(events) && UntiedBefore(t, events, i)
    ensures ReservingReply(ReservingAt(t, events, i), events[i]) == CheckingReply(CheckingAt(t, events, i), events[i])
       <==> !Tie(ReservingAt(t, events, i), events[i])
  {
    RunsStayAlike(t, events, i, ReservingAt(t, events, i), CheckingAt(t, events, i));
    RepliesAgreeUnlessTied(ReservingAt(t, events, i), CheckingAt(t, events, i), events[i]);
  }

  /** A reserving Send leaves no claim behind, even one that outlasted its own. */
  lemma {:induction false} NoClaimsBetweenSends(t: T.Table, events: seq<Event>, i: nat)
    requires i <= |events| && ClaimFree(t) && forall j | 0 <= j < |events| :: Plausible(events[j])
    ensures ClaimFree(ReservingAt(t, events, i))
  {
    if i > 0 {
      NoClaimsBetweenSends(t, events, i - 1);
    }
  }
}
