/** MemoryIdempotencyStore and IdempotentProvider over the heap: who owns which object, and that
    callers who mutate everything they can reach cannot change what the store answers. */
module MemoryStore {
  import opened Values
  import opened ErrorChain
  import T = ClaimTable
  import opened CacheKey

  /** A Go map: a reference shared by everyone who copied it. */
  class Metadata {
    var entries: map<string, string>

    constructor ()
      ensures entries == map[]
    {
      entries := map[];
    }
  }

  class SendResult {
    var ok: bool
    var messageID: string
    var provider: string
    var channel: Channel
    var timestamp: int
    var metadata: Metadata?
    var error: ProviderError?

    /** A struct copy: it shares the metadata map and the error with whoever supplied them. */
    constructor (ok: bool, messageID: string, provider: string, channel: Channel, timestamp: int,
                 metadata: Metadata?, error: ProviderError?)
      ensures this.ok == ok && this.messageID == messageID && this.provider == provider
      ensures this.channel == channel && this.timestamp == timestamp
      ensures this.metadata == metadata && this.error == error
    {
      this.ok, this.messageID, this.provider := ok, messageID, provider;
      this.channel, this.timestamp := channel, timestamp;
      this.metadata, this.error := metadata, error;
    }

    /** The struct, its metadata map and its top-level error. */
    ghost function Footprint(): set<object>
      reads this
    {
      {this} + (if metadata == null then {} else {metadata}) + (if error == null then {} else {error})
    }

    function Value(): ResultValue
      reads this, metadata, error
    {
      ResultValue(ok, messageID, provider, channel, timestamp,
                  if metadata == null then None else Some(metadata.entries),
                  if error == null then None else Some(error.Info()))
    }

    method WithMetadata(key: string, value: string) returns (r: SendResult)
      modifies this`metadata, metadata
      ensures r == this && metadata != null
      ensures if old(metadata) == null then fresh(metadata) else metadata == old(metadata)
      ensures metadata.entries == old(if metadata == null then map[] else metadata.entries)[key := value]
    {
      if metadata == null {
        metadata := new Metadata();
      }
      metadata.entries := metadata.entries[key := value];
      return this;
    }
  }

  function ValueOf(r: SendResult?): Option<ResultValue>
    reads r, if r == null then {} else {r.metadata, r.error}
  {
    if r == null then None else Some(r.Value())
  }

  ghost function FootprintOf(r: SendResult?): set<object>
    reads r
  {
    if r == null then {} else r.Footprint()
  }

  /** The provider errors in what the result's own error wraps: a copy of the result shares them. */
  ghost function WrappedBy(r: SendResult?): set<ProviderError>
    reads r, if r == null then {} else {r.error}
  {
    if r == null || r.error == null || r.error.err.None? then {} else Objects(r.error.err.value)
  }

  method CopyMetadata(src: Metadata) returns (out: Metadata)
    ensures fresh(out) && out.entries == src.entries
  {
    out := new Metadata();
    var todo := src.entries.Keys;
    while todo != {}
      invariant todo <= src.entries.Keys && out.entries == src.entries - todo
      decreases todo
    {
      var k :| k in todo;
      out.entries := out.entries[k := src.entries[k]];
      todo := todo - {k};
    }
    assert out.entries == src.entries;
  }

  /** An independent copy: equal in value, none of its mutable parts shared. The error that a
      provider error wraps is shared, as in a Go struct copy. */
  method CloneSendResult(src: SendResult?) returns (out: SendResult?)
    ensures ValueOf(out) == ValueOf(src)
    ensures fresh(FootprintOf(out))
    ensures src != null && src.error != null ==> out.error.err == src.error.err
    ensures WrappedBy(out) == WrappedBy(src)
  {
    if src == null {
      return null;
    }
    out := new SendResult(src.ok, src.messageID, src.provider, src.channel, src.timestamp, src.metadata, src.error);
    if src.metadata != null {
      out.metadata := CopyMetadata(src.metadata);
    }
    if src.error != null {
      out.error := new ProviderError(src.error.Info(), src.error.err);
    }
  }

  /** A stored entry. Entries are replaced, never mutated, and never handed out. */
  datatype HeapEntry = HeapEntry(result: SendResult?, expiresAt: int, token: T.Token)

  /** What drawing a claim token leads to. */
  datatype Draw = Drawn(token: T.Token) | DrawFailed(error: Error<ProviderError>)

  class MemoryIdempotencyStore {
    var entries: map<string, HeapEntry>

    /** Every object a stored result was ever made of. */
    ghost var Repr: set<object>

    /** Every provider error a stored result ever wrapped: objects the store has in common with others. */
    ghost var Shared: set<ProviderError>

    /** The claim table this store represents. */
    ghost var table: T.Table

    ghost predicate Valid()
      reads this, Repr
    {
      && this !in Repr
      && entries.Keys == table.Keys
      && forall k :: k in entries ==> Represents(Repr, Shared, entries[k], table[k])
    }

    static ghost predicate Represents(repr: set<object>, shared: set<ProviderError>, e: HeapEntry, v: T.Entry)
      reads repr
    {
      && (e.result != null ==> e.result in repr && e.result.Footprint() <= repr)
      && WrappedBy(e.result) <= shared
      && v == T.Entry(ValueOf(e.result), e.expiresAt, e.token)
    }

    static lemma StillRepresents(repr: set<object>, shared: set<ProviderError>, e: HeapEntry, v: T.Entry,
                                 repr': set<object>, shared': set<ProviderError>)
      requires Represents(repr, shared, e, v) && repr <= repr' && shared <= shared'
      ensures Represents(repr', shared', e, v)
    {
    }

    constructor ()
      ensures Valid() && table == map[] && Repr == {} && Shared == {}
    {
      entries, Repr, Shared, table := map[], {}, {}, map[];
    }

    method Put(key: string, e: HeapEntry)
      requires Valid() && this !in FootprintOf(e.result)
      modifies this
      ensures Valid() && Repr == old(Repr) + FootprintOf(e.result) && Shared == old(Shared) + WrappedBy(e.result)
      ensures table == old(table)[key := T.Entry(ValueOf(e.result), e.expiresAt, e.token)]
      ensures entries == old(entries)[key := e]
    {
      ghost var repr, shared := Repr + FootprintOf(e.result), Shared + WrappedBy(e.result);
      forall k | k in entries ensures Represents(repr, shared, entries[k], table[k]) {
        StillRepresents(Repr, Shared, entries[k], table[k], repr, shared);
      }
      assert Represents(repr, shared, e, T.Entry(ValueOf(e.result), e.expiresAt, e.token));
      table := table[key := T.Entry(ValueOf(e.result), e.expiresAt, e.token)];
      entries := entries[key := e];
      Repr, Shared := repr, shared;
    }

    method Drop(key: string)
      requires Valid()
      modifies this`entries, this`table
      ensures Valid() && table == T.Delete(old(table), key)
    {
      entries, table := entries - {key}, T.Delete(table, key);
    }

    /** A copy of the recorded result: stored objects themselves are never handed out. */
    method CopyOf(key: string) returns (copy: SendResult?)
      requires Valid() && key in entries
      ensures ValueOf(copy) == table[key].result && fresh(FootprintOf(copy)) && WrappedBy(copy) <= Shared
    {
      assert Represents(Repr, Shared, entries[key], table[key]);
      copy := CloneSendResult(entries[key].result);
    }

    /** `drawn` is what the token generator returns: a token, or the error it failed with. The token is drawn first,
        so that a failing generator fails the call whatever the key holds. */
    method Reserve(key: string, ttl: int, drawn: Draw, stamp: int)
      returns (claimed: T.Token, existing: SendResult?, err: Option<Error<ProviderError>>)
      requires Valid() && (drawn.Drawn? ==> drawn.token != T.NO_TOKEN)
      modifies this
      ensures Valid() && Repr == old(Repr) && Shared == old(Shared)
      ensures match drawn
              case DrawFailed(e) => claimed == T.NO_TOKEN && existing == null && err == Some(e) && table == old(table)
              case Drawn(token) =>
                && err == None && table == T.Reserve(old(table), key, token, stamp, ttl)
                && match T.ReserveAnswerOf(old(table), key, token, stamp)
                   case Claimed(mine) => claimed == mine && existing == null
                   case Recorded(r) => claimed == T.NO_TOKEN && ValueOf(existing) == Some(r)
                   case InFlight => claimed == T.NO_TOKEN && existing == null
      ensures fresh(FootprintOf(existing)) && WrappedBy(existing) <= Shared
    {
      if drawn.DrawFailed? {
        return T.NO_TOKEN, null, Some(drawn.error);
      }
      if key in entries && stamp < entries[key].expiresAt {
        if entries[key].result == null {
          return T.NO_TOKEN, null, None;
        }
        var copy := CopyOf(key);
        return T.NO_TOKEN, copy, None;
      }
      Put(key, HeapEntry(null, stamp + ttl, drawn.token));
      return drawn.token, null, None;
    }

    method Abandon(key: string, token: T.Token)
      requires Valid()
      modifies this`entries, this`table
      ensures Valid() && table == T.Abandon(old(table), key, token)
    {
      if token == T.NO_TOKEN {
        return;
      }
      if key in entries && entries[key].result == null && entries[key].token == token {
        Drop(key);
      }
    }

    /** The result handed over becomes part of the store. */
    method Finalize(key: string, token: T.Token, result: SendResult?, ttl: int, now: int) returns (superseded: bool)
      requires Valid() && this !in FootprintOf(result)
      modifies this
      ensures Valid() && old(Repr) <= Repr <= old(Repr) + FootprintOf(result)
      ensures old(Shared) <= Shared <= old(Shared) + WrappedBy(result)
      ensures table == T.Finalize(old(table), key, token, ValueOf(result), ttl, now)
      ensures superseded == T.Superseded(old(table), key, token)
    {
      assert key in entries ==> Represents(Repr, Shared, entries[key], table[key]);
      if token == T.NO_TOKEN {
        return true;
      }
      if key in entries && entries[key].token != token {
        return true;
      }
      if result == null {
        Drop(key);
        return false;
      }
      Put(key, HeapEntry(result, now + ttl, T.NO_TOKEN));
      return false;
    }

    method Get(key: string, now: int) returns (result: SendResult?, found: bool)
      requires Valid()
      ensures ValueOf(result) == T.Get(table, key, now) && found == (result != null)
      ensures fresh(FootprintOf(result)) && WrappedBy(result) <= Shared
    {
      if key !in entries {
        return null, false;
      }
      if now > entries[key].expiresAt || entries[key].result == null {
        return null, false;
      }
      result := CopyOf(key);
      found := true;
    }

    /** The result handed over becomes part of the store. */
    method Set(key: string, result: SendResult?, ttl: int, now: int)
      requires Valid() && this !in FootprintOf(result)
      modifies this
      ensures Valid() && old(Repr) <= Repr <= old(Repr) + FootprintOf(result)
      ensures old(Shared) <= Shared <= old(Shared) + WrappedBy(result)
      ensures table == T.Set(old(table), key, ValueOf(result), ttl, now)
      ensures result != null ==> key in entries && entries[key].result == result
    {
      if result == null {
        if key in entries && entries[key].result != null {
          Drop(key);
        }
        return;
      }
      Put(key, HeapEntry(result, now + ttl, T.NO_TOKEN));
    }

    method Delete(key: string)
      requires Valid()
      modifies this`entries, this`table
      ensures Valid() && table == T.Delete(old(table), key)
    {
      Drop(key);
    }

    method RemoveExpired(now: int)
      requires Valid()
      modifies this`entries, this`table
      ensures Valid() && table == T.Sweep(old(table), now)
    {
      var todo := entries.Keys;
      ghost var before := entries;
      assert forall k | k in before ::
          Represents(Repr, Shared, before[k], table[k]) && before[k].expiresAt == table[k].expiresAt;
      while todo != {}
        invariant table == old(table) && todo <= entries.Keys <= before.Keys
        invariant forall k | k in before :: k in entries <==> k in todo || now <= before[k].expiresAt
        invariant forall k | k in entries :: entries[k] == before[k]
        decreases todo
      {
        var k :| k in todo;
        if now > entries[k].expiresAt {
          entries := entries - {k};
        }
        todo := todo - {k};
      }
      table := T.Sweep(table, now);
      assert entries.Keys == table.Keys;
    }
  }

  // ---------------------------------------------------------------- the wrapping provider

  const DEFAULT_TTL := 300_000_000_000

  /** The caller's configuration object: the constructor below fills its gaps in. */
  class IdempotencyConfig {
    var store: MemoryIdempotencyStore?
    var ttl: int

    constructor (store: MemoryIdempotencyStore?, ttl: int)
      ensures this.store == store && this.ttl == ttl
    {
      this.store, this.ttl := store, ttl;
    }
  }

  class IdempotentProvider {
    const store: MemoryIdempotencyStore
    const channel: Channel
    const ttl: int

    /** A missing store is a new one, and is written into the caller's configuration: every provider built from that
        object afterwards shares it. */
    constructor (config: IdempotencyConfig?, channel: Channel)
      modifies config
      ensures this.channel == channel
      ensures ttl == if config == null || old(config.ttl) == 0 then 5 * 60 * 1_000_000_000 else old(config.ttl)
      ensures if config != null && old(config.store) != null then store == old(config.store)
              else fresh(store) && store.Valid() && store.table == map[] && store.Repr == {} && store.Shared == {}
      ensures config != null ==> config.store == store && config.ttl == ttl
    {
      var c := config;
      if c == null {
        var s := new MemoryIdempotencyStore();
        c := new IdempotencyConfig(s, DEFAULT_TTL);
      }
      if c.store == null {
        c.store := new MemoryIdempotencyStore();
      }
      if c.ttl == 0 {
        c.ttl := DEFAULT_TTL;
      }
      this.store, this.channel, this.ttl := c.store, channel, c.ttl;
    }

    /** One Send that nothing interleaves with. `outcome` and `failure` are what the wrapped provider
        returns if it is called; `called` tells whether it was. The result may be any object outside
        the store, and the caller gets that very object back. An error of Reserve is handed on. */
    method Send(idempotencyKey: string, drawn: Draw, stamp: int, outcome: SendResult?,
                failure: Option<Error<ProviderError>>, settleAt: int)
      returns (result: SendResult?, err: Option<Error<ProviderError>>, called: bool)
      requires store.Valid() && (drawn.Drawn? ==> drawn.token != T.NO_TOKEN)
      requires FootprintOf(outcome) !! store.Repr && store !in FootprintOf(outcome)
      modifies store
      ensures store.Valid() && store.Repr >= old(store.Repr) && fresh(store.Repr - old(store.Repr))
      ensures old(store.Shared) <= store.Shared <= old(store.Shared) + WrappedBy(outcome)
      ensures FootprintOf(result) !! store.Repr && (result == outcome || fresh(FootprintOf(result)))
      ensures WrappedBy(result) <= old(store.Shared) + WrappedBy(outcome)
      ensures called ==> result == outcome && err == failure
      ensures idempotencyKey != "" && drawn.DrawFailed? ==>
                !called && result == null && err == Some(drawn.error) && store.table == old(store.table)
      ensures if idempotencyKey == "" then called && store.table == old(store.table)
              else KeyedReply(old(store.table), BuildCacheKey(channel, idempotencyKey), drawn, stamp, ValueOf(outcome),
                              ValueOf(result), err, called)
                   && store.table == KeyedTable(old(store.table), BuildCacheKey(channel, idempotencyKey), drawn, stamp,
                                                ttl, ValueOf(outcome), failure.Some?, settleAt)
    {
      if idempotencyKey == "" {
        return outcome, failure, true;
      }
      var cacheKey := BuildCacheKey(channel, idempotencyKey);
      result, err, called := SendKeyed(cacheKey, drawn, stamp, outcome, failure, settleAt);
    }

    method SendKeyed(cacheKey: string, drawn: Draw, stamp: int, outcome: SendResult?,
                     failure: Option<Error<ProviderError>>, settleAt: int)
      returns (result: SendResult?, err: Option<Error<ProviderError>>, called: bool)
      requires store.Valid() && (drawn.Drawn? ==> drawn.token != T.NO_TOKEN)
      requires FootprintOf(outcome) !! store.Repr && store !in FootprintOf(outcome)
      modifies store
      ensures store.Valid() && store.Repr >= old(store.Repr) && fresh(store.Repr - old(store.Repr))
      ensures old(store.Shared) <= store.Shared <= old(store.Shared) + WrappedBy(outcome)
      ensures FootprintOf(result) !! store.Repr && (result == outcome || fresh(FootprintOf(result)))
      ensures WrappedBy(result) <= old(store.Shared) + WrappedBy(outcome)
      ensures called ==> result == outcome && err == failure
      ensures KeyedReply(old(store.table), cacheKey, drawn, stamp, ValueOf(outcome), ValueOf(result), err, called)
      ensures store.table == KeyedTable(old(store.table), cacheKey, drawn, stamp, ttl, ValueOf(outcome), failure.Some?,
                                        settleAt)
    {
      var claimed;
      claimed, result, err := Claim(cacheKey, drawn, stamp);
      if claimed == T.NO_TOKEN {
        return result, err, false;
      }
      Settle(cacheKey, claimed, outcome, failure.Some?, settleAt);
      assert FootprintOf(outcome) !! store.Repr && ValueOf(outcome) == old(ValueOf(outcome));
      return outcome, failure, true;
    }

    /** The claim that lets Send call the provider, or else what Send returns without calling it. */
    method Claim(cacheKey: string, drawn: Draw, stamp: int)
      returns (claimed: T.Token, result: SendResult?, err: Option<Error<ProviderError>>)
      requires store.Valid() && (drawn.Drawn? ==> drawn.token != T.NO_TOKEN)
      modifies store
      ensures store.Valid() && store.Repr == old(store.Repr) && store.Shared == old(store.Shared)
      ensures fresh(FootprintOf(result)) && WrappedBy(result) <= store.Shared
      ensures match drawn
              case DrawFailed(e) =>
                claimed == T.NO_TOKEN && result == null && err == Some(e) && store.table == old(store.table)
              case Drawn(token) =>
                && store.table == T.Reserve(old(store.table), cacheKey, token, stamp, ttl)
                && match T.ReserveAnswerOf(old(store.table), cacheKey, token, stamp)
                   case Claimed(_) => claimed == token && result == null
                   case Recorded(r) => claimed == T.NO_TOKEN && ValueOf(result) == Some(r) && err == None
                   case InFlight => claimed == T.NO_TOKEN && result == null && err == Some(ErrSendInFlight())
    {
      var existing, reserveErr;
      claimed, existing, reserveErr := store.Reserve(cacheKey, ttl, drawn, stamp);
      if reserveErr.Some? {
        return T.NO_TOKEN, null, reserveErr;
      }
      if claimed == T.NO_TOKEN {
        if existing != null {
          return T.NO_TOKEN, existing, None;
        }
        return T.NO_TOKEN, null, Some(ErrSendInFlight());
      }
      return claimed, null, None;
    }

    /** Records or releases the claim once the provider has returned; the store keeps a copy. */
    method Settle(cacheKey: string, token: T.Token, result: SendResult?, failed: bool, settleAt: int)
      requires store.Valid() && store !in FootprintOf(result)
      modifies store
      ensures store.Valid() && store.Repr >= old(store.Repr) && fresh(store.Repr - old(store.Repr))
      ensures old(store.Shared) <= store.Shared <= old(store.Shared) + WrappedBy(result)
      ensures store.table == T.Settle(old(store.table), cacheKey, token, ttl, old(ValueOf(result)), failed, settleAt)
      ensures FootprintOf(result) == old(FootprintOf(result)) && ValueOf(result) == old(ValueOf(result))
      ensures WrappedBy(result) == old(WrappedBy(result))
    {
      if failed && result == null {
        store.Abandon(cacheKey, token);
      } else {
        var copy := CloneSendResult(result);
        var _ := store.Finalize(cacheKey, token, copy, ttl, settleAt);
      }
    }

    /** The check-then-act path kept for stores that cannot reserve. `unavailable` is the error with which such a store
        may answer Get instead; it is handed on, not read as a miss. */
    method SendUnreserved(cacheKey: string, unavailable: Option<Error<ProviderError>>, checkAt: int,
                          outcome: SendResult?, failure: Option<Error<ProviderError>>, settleAt: int)
      returns (result: SendResult?, err: Option<Error<ProviderError>>, called: bool)
      requires store.Valid()
      requires FootprintOf(outcome) !! store.Repr && store !in FootprintOf(outcome)
      modifies store
      ensures store.Valid() && store.Repr >= old(store.Repr) && fresh(store.Repr - old(store.Repr))
      ensures FootprintOf(result) !! store.Repr && (result == outcome || fresh(FootprintOf(result)))
      ensures called ==> result == outcome && err == failure
      ensures unavailable.Some? ==> !called && result == null && err == unavailable && store.table == old(store.table)
      ensures unavailable.None? ==>
                && store.table == T.UnreservedSendTable(old(store.table), cacheKey, checkAt, ttl, ValueOf(outcome),
                                                        failure.Some?, settleAt)
                && called == T.Get(old(store.table), cacheKey, checkAt).None?
                && (!called ==> ValueOf(result) == T.Get(old(store.table), cacheKey, checkAt) && err == None)
    {
      if unavailable.Some? {
        return null, unavailable, false;
      }
      var found;
      result, found := store.Get(cacheKey, checkAt);
      if found {
        return result, None, false;
      }
      result, err, called := outcome, failure, true;
      if err.Some? && result == null {
        return;
      }
      var copy := CloneSendResult(result);
      assert ValueOf(copy) == old(ValueOf(outcome));
      store.Set(cacheKey, copy, ttl, settleAt);
      assert FootprintOf(outcome) !! store.Repr && ValueOf(outcome) == old(ValueOf(outcome));
    }
  }

  /** What a keyed Send hands back, by the draw of its token and the answer of Reserve. */
  ghost predicate KeyedReply(t: T.Table, cacheKey: string, drawn: Draw, stamp: int, outcome: Option<ResultValue>,
                             result: Option<ResultValue>, err: Option<Error<ProviderError>>, called: bool)
  {
    match drawn
    case DrawFailed(e) => !called && result == None && err == Some(e)
    case Drawn(token) =>
      && result == T.SentResult(t, cacheKey, token, stamp, outcome)
      && match T.ReserveAnswerOf(t, cacheKey, token, stamp)
         case Claimed(_) => called
         case Recorded(_) => !called && err == None
         case InFlight => !called && err == Some(ErrSendInFlight())
  }

  function KeyedTable(t: T.Table, cacheKey: string, drawn: Draw, stamp: int, ttl: int, outcome: Option<ResultValue>,
                      failed: bool, settleAt: int): T.Table
  {
    match drawn
    case DrawFailed(_) => t
    case Drawn(token) => T.SendTable(t, cacheKey, token, stamp, ttl, outcome, failed, settleAt)
  }

  function ErrSendInFlight<P>(): Error<P> {
    Plain(ERR_SEND_IN_FLIGHT.text)
  }
}
