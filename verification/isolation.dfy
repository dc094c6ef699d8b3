/** Callers and providers who keep and mutate every result they ever saw, against one shared store. */
module Isolation {
  import opened Values
  import opened ErrorChain
  import opened MemoryStore
  import opened CacheKey
  import T = ClaimTable

  /** Whatever happens to objects outside the store's own, its table does not move. */
  twostate lemma OutsideMutationIsInvisible(store: MemoryIdempotencyStore)
    requires old(store.Valid()) && unchanged(store) && unchanged(old(store.Repr))
    ensures store.Valid() && store.table == old(store.table)
  {
  }

  /** What callers and providers do on their own, to any struct, metadata map or provider error they have ever come
      across and to new ones; objects are named by number, errors may wrap trees of known errors. */
  datatype Mutation =
    | MakeResult(v: ResultValue)
    | MakeMap(entries: map<string, string>)
    | MakeError(info: ErrorInfo, wraps: Option<Error<nat>>)
    | Overwrite(r: nat, ok: bool, messageID: string, provider: string, channel: Channel, timestamp: int)
    | Link(r: nat, metadata: Option<nat>, error: Option<nat>)
    | AddMetadata(r: nat, key: string, value: string)
    | RewriteMap(m: nat, entries: map<string, string>)
    | RewriteError(e: nat, info: ErrorInfo, wraps: Option<Error<nat>>)

  /** What a provider returns when it is called: no result, a new one, or one that somebody holds already. */
  datatype Source = Nothing | Built(v: ResultValue) | Held(r: nat)

  /** A line of a script. */
  datatype Directive =
    | Change(m: Mutation)
    | Request(key: string, token: T.Token, stamp: int, source: Source, failed: bool, settleAt: int)
    | Query(a: Action)

  /** What a line of a script comes down to, once it is known what a held result says at that moment. */
  datatype Action =
    | Mutate
    | Send(key: string, token: T.Token, stamp: int, outcome: Option<ResultValue>, failed: bool, settleAt: int)
    | Lookup(key: string, now: int)
    | Claim(key: string, token: T.Token, stamp: int, ttl: int)
    | Expire(now: int)

  predicate DrawsTokens(a: Action) {
    (a.Send? || a.Claim?) ==> a.token != T.NO_TOKEN
  }

  predicate Admissible(d: Directive) {
    match d
    case Change(_) => true
    case Request(_, token, _, _, _, _) => token != T.NO_TOKEN
    case Query(a) => DrawsTokens(a) && !a.Mutate? && !a.Send?
  }

  /** The action is the one the line asks for. Only the outcome of a Send that returns a held result depends on more. */
  predicate Performs(d: Directive, a: Action) {
    match d
    case Change(_) => a.Mutate?
    case Request(key, token, stamp, source, failed, settleAt) =>
      && a.Send? && a == Send(key, token, stamp, a.outcome, failed, settleAt)
      && (source.Nothing? ==> a.outcome == None) && (source.Built? ==> a.outcome == Some(source.v))
    case Query(b) => a == b
  }

  ghost predicate PerformsAll(script: seq<Directive>, actions: seq<Action>) {
    |script| == |actions| && forall i | 0 <= i < |script| :: Performs(script[i], actions[i])
  }

  lemma OneMorePerformed(script: seq<Directive>, i: nat, actions: seq<Action>, a: Action)
    requires i < |script| && PerformsAll(script[..i], actions) && Performs(script[i], a)
    ensures PerformsAll(script[..i + 1], actions + [a])
  {
    assert forall j | 0 <= j < i :: script[..i + 1][j] == script[..i][j];
  }

  /** The table after an action: mutation of objects in callers' hands is no action at all. */
  function TableAfter(t: T.Table, a: Action, channel: Channel, ttl: int): T.Table {
    match a
    case Mutate => t
    case Send(key, token, stamp, outcome, failed, settleAt) =>
      if key == "" then t else T.SendTable(t, BuildCacheKey(channel, key), token, stamp, ttl, outcome, failed, settleAt)
    case Lookup(_, _) => t
    case Claim(key, token, stamp, claimTtl) => T.Reserve(t, key, token, stamp, claimTtl)
    case Expire(now) => T.Sweep(t, now)
  }

  /** The result value the action hands to its caller. */
  function ResultOf(t: T.Table, a: Action, channel: Channel): Option<ResultValue> {
    match a
    case Send(key, token, stamp, outcome, _, _) =>
      if key == "" then outcome else T.SentResult(t, BuildCacheKey(channel, key), token, stamp, outcome)
    case Lookup(key, now) => T.Get(t, key, now)
    case Claim(key, token, stamp, _) =>
      (match T.ReserveAnswerOf(t, key, token, stamp)
       case Recorded(r) => Some(r)
       case _ => None)
    case _ => None
  }

  function TableAfterAll(t: T.Table, actions: seq<Action>, i: nat, channel: Channel, ttl: int): T.Table
    requires i <= |actions|
  {
    if i == 0 then t else TableAfter(TableAfterAll(t, actions, i - 1, channel, ttl), actions[i - 1], channel, ttl)
  }

  /** An error tree over known errors, with the errors filled in. */
  function Resolve(e: Error<nat>, errors: seq<ProviderError>): Error<ProviderError>
    decreases e
  {
    match e
    case Plain(text) => Plain(text)
    case Wrapped(text, inner) => Wrapped(text, Resolve(inner, errors))
    case Joined(text, errs) => Joined(text, ResolveAll(errs, errors))
    case Provider(n) => if n < |errors| then Provider(errors[n]) else Plain("")
  }

  function ResolveAll(errs: seq<Error<nat>>, errors: seq<ProviderError>): seq<Error<ProviderError>>
    decreases errs
  {
    if errs == [] then [] else [Resolve(errs[0], errors)] + ResolveAll(errs[1..], errors)
  }

  lemma {:induction false} ResolvedIsKnown(e: Error<nat>, errors: seq<ProviderError>)
    ensures forall p | p in Objects(Resolve(e, errors)) :: p in errors
    decreases e
  {
    match e
    case Plain(_) =>
    case Wrapped(_, inner) => ResolvedIsKnown(inner, errors);
    case Joined(_, errs) => AllResolvedAreKnown(errs, errors);
    case Provider(_) =>
  }

  lemma {:induction false} AllResolvedAreKnown(errs: seq<Error<nat>>, errors: seq<ProviderError>)
    ensures forall p | p in ObjectsOf(ResolveAll(errs, errors)) :: p in errors
    decreases errs
  {
    if errs != [] {
      ResolvedIsKnown(errs[0], errors);
      AllResolvedAreKnown(errs[1..], errors);
      assert ResolveAll(errs, errors)[1..] == ResolveAll(errs[1..], errors);
    }
  }

  method Build(wraps: Option<Error<nat>>, errors: seq<ProviderError>) returns (err: Option<Error<ProviderError>>)
    ensures err.Some? ==> forall p | p in Objects(err.value) :: p in errors
  {
    if wraps.None? {
      return None;
    }
    ResolvedIsKnown(wraps.value, errors);
    return Some(Resolve(wraps.value, errors));
  }

  method NewResult(v: ResultValue) returns (r: SendResult)
    ensures fresh(r.Footprint()) && r.Value() == v && WrappedBy(r) == {}
  {
    var m: Metadata? := null;
    if v.metadata.Some? {
      m := new Metadata();
      m.entries := v.metadata.value;
    }
    var e: ProviderError? := null;
    if v.error.Some? {
      e := new ProviderError(v.error.value, None);
    }
    r := new SendResult(v.ok, v.messageID, v.provider, v.channel, v.timestamp, m, e);
  }

  method WriteError(e: ProviderError, info: ErrorInfo, err: Option<Error<ProviderError>>)
    modifies e
    ensures e.Info() == info && e.err == err
  {
    e.reason, e.message := info.reason, info.message;
    var _ := e.WithProvider(info.providerName, info.channel);
    var _ := e.WithError(err);
  }

  method WriteResult(r: SendResult, ok: bool, messageID: string, provider: string, channel: Channel, timestamp: int)
    modifies r
    ensures r.ok == ok && r.messageID == messageID && r.provider == provider && r.channel == channel
    ensures r.timestamp == timestamp && r.Footprint() == old(r.Footprint())
  {
    r.ok, r.messageID, r.provider, r.channel, r.timestamp := ok, messageID, provider, channel, timestamp;
  }

  /** One Reserve of the script. */
  method RelayClaim(store: MemoryIdempotencyStore, a: Action) returns (result: SendResult?)
    requires store.Valid() && a.Claim? && DrawsTokens(a)
    modifies store
    ensures store.Valid() && store.Repr == old(store.Repr) && store.Shared == old(store.Shared)
    ensures fresh(FootprintOf(result)) && WrappedBy(result) <= store.Shared
    ensures store.table == T.Reserve(old(store.table), a.key, a.token, a.stamp, a.ttl)
    ensures forall channel :: ValueOf(result) == ResultOf(old(store.table), a, channel)
  {
    var _, r, _ := store.Reserve(a.key, a.ttl, Drawn(a.token), a.stamp);
    result := r;
  }

  /** One Send of the script. */
  method Relay(provider: IdempotentProvider, a: Action, outcome: SendResult?) returns (result: SendResult?)
    requires provider.store.Valid() && a.Send? && DrawsTokens(a) && ValueOf(outcome) == a.outcome
    requires FootprintOf(outcome) !! provider.store.Repr && provider.store !in FootprintOf(outcome)
    modifies provider.store
    ensures provider.store.Valid() && provider.store.Repr >= old(provider.store.Repr)
    ensures fresh(provider.store.Repr - old(provider.store.Repr)) && FootprintOf(result) !! provider.store.Repr
    ensures provider.store.Shared <= old(provider.store.Shared) + WrappedBy(outcome)
    ensures WrappedBy(result) <= old(provider.store.Shared) + WrappedBy(outcome)
    ensures result == outcome || fresh(FootprintOf(result))
    ensures provider.store.table == TableAfter(old(provider.store.table), a, provider.channel, provider.ttl)
    ensures ValueOf(result) == ResultOf(old(provider.store.table), a, provider.channel)
  {
    var failure := if a.failed then Some(Plain("send failed")) else None;
    var r, _, _ := provider.Send(a.key, Drawn(a.token), a.stamp, outcome, failure, a.settleAt);
    result := r;
  }

  function Known(results: seq<SendResult>, maps: seq<Metadata>, errors: seq<ProviderError>): set<object> {
    (set r | r in results) + (set m | m in maps) + (set e | e in errors)
  }

  class Session {
    const provider: IdempotentProvider
    const store: MemoryIdempotencyStore

    /** Every result, metadata map and provider error that anyone outside the store ever came across. */
    var results: seq<SendResult>
    var maps: seq<Metadata>
    var errors: seq<ProviderError>

    ghost var World: set<object>

    /** The known objects are closed under every pointer, those wrapped inside stored errors included, so that nothing
        else is within the callers' reach; and none of them is the store's. */
    ghost predicate Valid()
      reads this, store, store.Repr, World
    {
      && provider.store == store && store.Valid() && World == Known(results, maps, errors)
      && World !! store.Repr && store !in World && this !in World && this !in store.Repr
      && (forall r | r in results :: r in World && r.Footprint() <= World)
      && (forall e | e in errors :: e in World && WrapsOnly(e, World))
      && store.Shared <= World
    }

    static ghost predicate WrapsOnly(e: ProviderError, known: set<object>)
      reads e
    {
      e.err.Some? ==> Objects(e.err.value) <= known
    }

    /** A session starts with the errors that the store already shares with its callers. */
    constructor (provider: IdempotentProvider, errors: seq<ProviderError>)
      requires provider.store.Valid() && provider.store.Shared <= Known([], [], errors)
      requires forall e | e in errors :: e !in provider.store.Repr && WrapsOnly(e, Known([], [], errors))
      ensures this.provider == provider && store == provider.store && Valid() && this.errors == errors
      ensures results == [] && maps == [] && store.table == old(provider.store.table)
    {
      this.provider, this.store := provider, provider.store;
      this.results, this.maps, this.errors := [], [], errors;
      World := Known([], [], errors);
    }

    // -------------------------------------------------------------- what becomes known

    method KeepMap(m: Metadata)
      requires Valid() && m !in store.Repr && m as object != store && m as object != this
      modifies this`maps, this`World
      ensures Valid() && maps == old(maps) + [m] && World == old(World) + {m}
    {
      maps := maps + [m];
      World := World + {m};
      assert World == Known(results, maps, errors);
    }

    method KeepError(e: ProviderError)
      requires Valid() && e !in store.Repr && e as object != store && e as object != this && WrapsOnly(e, World)
      modifies this`errors, this`World
      ensures Valid() && errors == old(errors) + [e] && World == old(World) + {e}
    {
      errors := errors + [e];
      World := World + {e};
      assert World == Known(results, maps, errors);
    }

    method KeepStruct(r: SendResult)
      requires Valid() && r !in store.Repr && r as object != store && r as object != this
      requires r.Footprint() <= World + {r}
      modifies this`results, this`World
      ensures Valid() && results == old(results) + [r] && World == old(World) + {r}
    {
      results := results + [r];
      World := World + {r};
      assert World == Known(results, maps, errors);
    }

    method Keep(r: SendResult)
      requires Valid() && r.Footprint() !! store.Repr && store !in r.Footprint() && this !in r.Footprint()
      requires WrappedBy(r) <= World
      modifies this`results, this`maps, this`errors, this`World
      ensures Valid() && results == old(results) + [r] && World == old(World) + r.Footprint()
    {
      if r.metadata != null {
        KeepMap(r.metadata);
      }
      if r.error != null {
        KeepError(r.error);
      }
      KeepStruct(r);
    }

    /** A result built outside the store; whoever built it keeps it. */
    method Make(v: ResultValue) returns (r: SendResult)
      requires Valid()
      modifies this`results, this`maps, this`errors, this`World
      ensures Valid() && r.Value() == v && World >= old(World) && fresh(World - old(World))
      ensures results == old(results) + [r]
    {
      r := NewResult(v);
      Keep(r);
    }

    /** The caller reads what it was handed and keeps it. */
    method Receive(r: SendResult?) returns (seen: Option<ResultValue>)
      requires Valid() && FootprintOf(r) !! store.Repr && store !in FootprintOf(r) && this !in FootprintOf(r)
      requires WrappedBy(r) <= World
      modifies this`results, this`maps, this`errors, this`World
      ensures Valid() && World == old(World) + FootprintOf(r)
      ensures seen == ValueOf(r)
    {
      seen := ValueOf(r);
      if r != null {
        Keep(r);
      }
    }

    // -------------------------------------------------------------- mutations

    method LinkTo(r: SendResult, metadata: Option<nat>, error: Option<nat>)
      requires Valid() && r in results
      modifies World
      ensures Valid() && store.table == old(store.table)
    {
      r.metadata := if metadata.Some? && metadata.value < |maps| then maps[metadata.value] else null;
      r.error := if error.Some? && error.value < |errors| then errors[error.value] else null;
    }

    method AddMetadataTo(r: SendResult, key: string, value: string)
      requires Valid() && r in results
      modifies World, this`maps, this`World
      ensures Valid() && World >= old(World) && fresh(World - old(World))
      ensures store.table == old(store.table)
    {
      var _ := r.WithMetadata(key, value);
      maps, World := maps + [r.metadata], World + {r.metadata};
      assert World == Known(results, maps, errors);
    }

    method RewriteErrorWith(e: ProviderError, info: ErrorInfo, wraps: Option<Error<nat>>)
      requires Valid() && e in errors
      modifies World
      ensures Valid() && store.table == old(store.table)
    {
      var err := Build(wraps, errors);
      WriteError(e, info, err);
    }

    method MakeErrorWith(info: ErrorInfo, wraps: Option<Error<nat>>)
      requires Valid()
      modifies this`errors, this`World
      ensures Valid() && World >= old(World) && fresh(World - old(World))
    {
      var err := Build(wraps, errors);
      var e := new ProviderError(info, err);
      KeepError(e);
    }

    method MakeMapOf(entries: map<string, string>)
      requires Valid()
      modifies this`maps, this`World
      ensures Valid() && World >= old(World) && fresh(World - old(World))
    {
      var m := new Metadata();
      m.entries := entries;
      KeepMap(m);
    }

    method OverwriteResult(r: SendResult, ok: bool, messageID: string, provider: string, channel: Channel,
                           timestamp: int)
      requires Valid() && r in results
      modifies World
      ensures Valid() && store.table == old(store.table)
    {
      WriteResult(r, ok, messageID, provider, channel, timestamp);
    }

    method RewriteMapWith(m: Metadata, entries: map<string, string>)
      requires Valid() && m in maps
      modifies World
      ensures Valid() && store.table == old(store.table)
    {
      m.entries := entries;
    }

    method ApplyMutation(m: Mutation)
      requires Valid()
      modifies World, this`results, this`maps, this`errors, this`World
      ensures Valid() && World >= old(World) && fresh(World - old(World))
      ensures store.table == old(store.table)
    {
      match m
      case MakeResult(v) =>
        var _ := Make(v);
      case MakeMap(entries) =>
        MakeMapOf(entries);
      case MakeError(info, wraps) =>
        MakeErrorWith(info, wraps);
      case Overwrite(n, ok, messageID, provider, channel, timestamp) =>
        if n < |results| {
          OverwriteResult(results[n], ok, messageID, provider, channel, timestamp);
        }
      case Link(n, metadata, error) =>
        if n < |results| {
          LinkTo(results[n], metadata, error);
        }
      case AddMetadata(n, key, value) =>
        if n < |results| {
          AddMetadataTo(results[n], key, value);
        }
      case RewriteMap(n, entries) =>
        if n < |maps| {
          RewriteMapWith(maps[n], entries);
        }
      case RewriteError(n, info, wraps) =>
        if n < |errors| {
          RewriteErrorWith(errors[n], info, wraps);
        }
    }

    // -------------------------------------------------------------- actions

    /** What the store does to itself leaves the session intact: its new objects are nobody else's. */
    twostate lemma StoreGrows()
      requires old(Valid()) && unchanged(this) && unchanged(old(World))
      requires store.Valid() && store.Repr >= old(store.Repr) && fresh(store.Repr - old(store.Repr))
      requires store.Shared <= World
      ensures Valid()
    {
    }

    /** The result in the caller's hands that a source stands for. */
    function Chosen(source: Source): SendResult?
      reads this
      requires !source.Built?
    {
      if source.Held? && source.r < |results| then results[source.r] else null
    }

    /** A Send whose provider, if called, returns an object the callers hold. */
    method SendWith(a: Action, outcome: SendResult?) returns (seen: Option<ResultValue>)
      requires Valid() && a.Send? && DrawsTokens(a)
      requires outcome != null ==> outcome in results
      requires ValueOf(outcome) == a.outcome
      modifies this`results, this`maps, this`errors, this`World, store
      ensures Valid() && World >= old(World) && fresh(World - old(World))
      ensures store.table == TableAfter(old(store.table), a, provider.channel, provider.ttl)
      ensures seen == ResultOf(old(store.table), a, provider.channel)
    {
      assert FootprintOf(outcome) <= World && WrappedBy(outcome) <= World;
      var result := Relay(provider, a, outcome);
      StoreGrows();
      seen := Receive(result);
    }

    method DoSend(d: Directive) returns (did: Action, seen: Option<ResultValue>)
      requires Valid() && d.Request? && Admissible(d)
      modifies this`results, this`maps, this`errors, this`World, store
      ensures Valid() && World >= old(World) && fresh(World - old(World))
      ensures Performs(d, did)
      ensures !d.source.Built? ==> did.outcome == old(ValueOf(Chosen(d.source)))
      ensures store.table == TableAfter(old(store.table), did, provider.channel, provider.ttl)
      ensures seen == ResultOf(old(store.table), did, provider.channel)
    {
      var outcome: SendResult?;
      if d.source.Built? {
        outcome := Make(d.source.v);
      } else {
        outcome := Chosen(d.source);
      }
      did := Send(d.key, d.token, d.stamp, ValueOf(outcome), d.failed, d.settleAt);
      seen := SendWith(did, outcome);
    }

    method DoLookup(key: string, now: int) returns (seen: Option<ResultValue>)
      requires Valid()
      modifies this`results, this`maps, this`errors, this`World
      ensures Valid() && World >= old(World) && fresh(World - old(World))
      ensures store.table == old(store.table) && seen == T.Get(store.table, key, now)
    {
      var r, _ := store.Get(key, now);
      assert ValueOf(r) == T.Get(store.table, key, now);
      assert WrappedBy(r) <= World;
      seen := Receive(r);
    }

    method DoClaim(a: Action) returns (seen: Option<ResultValue>)
      requires Valid() && a.Claim? && DrawsTokens(a)
      modifies this`results, this`maps, this`errors, this`World, store
      ensures Valid() && World >= old(World) && fresh(World - old(World))
      ensures store.table == T.Reserve(old(store.table), a.key, a.token, a.stamp, a.ttl)
      ensures seen == ResultOf(old(store.table), a, provider.channel)
    {
      var r := RelayClaim(store, a);
      StoreGrows();
      seen := Receive(r);
    }

    method DoQuery(a: Action) returns (seen: Option<ResultValue>)
      requires Valid() && DrawsTokens(a) && !a.Mutate? && !a.Send?
      modifies this`results, this`maps, this`errors, this`World, store
      ensures Valid() && World >= old(World) && fresh(World - old(World))
      ensures store.table == TableAfter(old(store.table), a, provider.channel, provider.ttl)
      ensures seen == ResultOf(old(store.table), a, provider.channel)
    {
      match a
      case Lookup(key, now) => seen := DoLookup(key, now);
      case Claim(_, _, _, _) => seen := DoClaim(a);
      case Expire(now) =>
        store.RemoveExpired(now);
        StoreGrows();
        seen := None;
    }

    method Do(d: Directive) returns (did: Action, seen: Option<ResultValue>)
      requires Valid() && Admissible(d)
      modifies this`results, this`maps, this`errors, this`World, World, store
      ensures Valid() && World >= old(World) && fresh(World - old(World))
      ensures Performs(d, did)
      ensures d.Request? && !d.source.Built? ==> did.outcome == old(ValueOf(Chosen(d.source)))
      ensures store.table == TableAfter(old(store.table), did, provider.channel, provider.ttl)
      ensures seen == ResultOf(old(store.table), did, provider.channel)
    {
      match d
      case Change(m) =>
        ApplyMutation(m);
        did, seen := Mutate, None;
      case Request(_, _, _, _, _, _) =>
        did, seen := DoSend(d);
      case Query(a) =>
        did := a;
        seen := DoQuery(a);
    }

    /** ISOLATION. Let callers and providers do what they please to every object they ever came across, those that the
        store's copies wrap included. The store ends with the table, and every action sees the value, that the values
        handed over in the script's Sends yield, all mutations left out. */
    method Run(script: seq<Directive>) returns (did: seq<Action>, seen: seq<Option<ResultValue>>)
      requires Valid() && forall d | d in script :: Admissible(d)
      modifies this`results, this`maps, this`errors, this`World, World, store
      ensures Valid() && |did| == |seen|
      ensures PerformsAll(script, did)
      ensures store.table == TableAfterAll(old(store.table), did, |did|, provider.channel, provider.ttl)
      ensures forall i | 0 <= i < |did| :: seen[i] == SeenAt(old(store.table), did, i, provider.channel, provider.ttl)
    {
      ghost var t, channel, ttl := store.table, provider.channel, provider.ttl;
      did, seen := [], [];
      for i := 0 to |script|
        invariant Valid() && |did| == |seen| == i && fresh(World - old(World))
        invariant PerformsAll(script[..i], did)
        invariant store.table == TableAfterAll(t, did, i, channel, ttl)
        invariant forall j | 0 <= j < i :: seen[j] == SeenAt(t, did, j, channel, ttl)
      {
        var a, v := Do(script[i]);
        LongerScript(t, did, a, channel, ttl);
        OneMorePerformed(script, i, did, a);
        did, seen := did + [a], seen + [v];
      }
    }
  }

  /** The value that action i of a script sees. */
  function SeenAt(t: T.Table, actions: seq<Action>, i: nat, channel: Channel, ttl: int): Option<ResultValue>
    requires i < |actions|
  {
    ResultOf(TableAfterAll(t, actions, i, channel, ttl), actions[i], channel)
  }

  function WithoutMutations(actions: seq<Action>): seq<Action> {
    if actions == [] then []
    else
      var rest := WithoutMutations(actions[..|actions| - 1]);
      if actions[|actions| - 1].Mutate? then rest else rest + [actions[|actions| - 1]]
  }

  /** Mutations can be deleted: every other action has its place among those that are left, finds the same table there
      and sees the same value, and the end is the same. */
  lemma {:induction false} MutationsCanBeDropped(t: T.Table, actions: seq<Action>, i: nat, channel: Channel, ttl: int)
    requires i <= |actions|
    ensures var kept, place := WithoutMutations(actions), |WithoutMutations(actions[..i])|;
            && place <= |kept|
            && TableAfterAll(t, actions, i, channel, ttl) == TableAfterAll(t, kept, place, channel, ttl)
            && (i == |actions| ==> place == |kept|)
            && (i < |actions| && !actions[i].Mutate? ==>
                  && place < |kept| && kept[place] == actions[i]
                  && SeenAt(t, actions, i, channel, ttl) == SeenAt(t, kept, place, channel, ttl))
  {
    PrefixIsKept(actions, i);
    TableWithoutMutations(t, actions[..i], channel, ttl);
    PrefixOnly(t, actions, actions[..i], i, channel, ttl);
    var kept, before := WithoutMutations(actions), WithoutMutations(actions[..i]);
    PrefixOnly(t, kept, before, |before|, channel, ttl);
    if i < |actions| && !actions[i].Mutate? {
      PrefixIsKept(actions, i + 1);
      assert actions[..i + 1][..i] == actions[..i];
      assert WithoutMutations(actions[..i + 1]) == before + [actions[i]];
      assert kept[|before|] == kept[..|before| + 1][|before|];
    } else if i == |actions| {
      assert actions[..i] == actions;
    }
  }

  lemma {:induction false} PrefixIsKept(actions: seq<Action>, i: nat)
    requires i <= |actions|
    ensures WithoutMutations(actions[..i]) <= WithoutMutations(actions)
    decreases |actions| - i
  {
    if i < |actions| {
      PrefixIsKept(actions, i + 1);
      assert actions[..i + 1][..i] == actions[..i];
      assert WithoutMutations(actions[..i]) <= WithoutMutations(actions[..i + 1]);
    } else {
      assert actions[..i] == actions;
    }
  }

  lemma {:induction false} TableWithoutMutations(t: T.Table, actions: seq<Action>, channel: Channel, ttl: int)
    ensures TableAfterAll(t, actions, |actions|, channel, ttl)
         == TableAfterAll(t, WithoutMutations(actions), |WithoutMutations(actions)|, channel, ttl)
  {
    if actions != [] {
      var n := |actions| - 1;
      TableWithoutMutations(t, actions[..n], channel, ttl);
      PrefixOnly(t, actions, actions[..n], n, channel, ttl);
      var kept := WithoutMutations(actions[..n]);
      PrefixOnly(t, kept + [actions[n]], kept, |kept|, channel, ttl);
    }
  }

  lemma LongerScript(t: T.Table, actions: seq<Action>, a: Action, channel: Channel, ttl: int)
    ensures TableAfterAll(t, actions + [a], |actions| + 1, channel, ttl)
         == TableAfter(TableAfterAll(t, actions, |actions|, channel, ttl), a, channel, ttl)
    ensures SeenAt(t, actions + [a], |actions|, channel, ttl)
         == ResultOf(TableAfterAll(t, actions, |actions|, channel, ttl), a, channel)
    ensures forall j | 0 <= j < |actions| ::
              SeenAt(t, actions + [a], j, channel, ttl) == SeenAt(t, actions, j, channel, ttl)
  {
    forall j: nat | j <= |actions|
      ensures TableAfterAll(t, actions + [a], j, channel, ttl) == TableAfterAll(t, actions, j, channel, ttl)
    {
      PrefixOnly(t, actions + [a], actions, j, channel, ttl);
    }
  }

  lemma {:induction false} PrefixOnly(t: T.Table, a: seq<Action>, b: seq<Action>, i: nat, channel: Channel, ttl: int)
    requires i <= |a| && i <= |b| && a[..i] == b[..i]
    ensures TableAfterAll(t, a, i, channel, ttl) == TableAfterAll(t, b, i, channel, ttl)
  {
    if i > 0 {
      assert a[..i - 1] == a[..i][..i - 1] == b[..i][..i - 1] == b[..i - 1];
      assert a[i - 1] == a[..i][i - 1] == b[..i][i - 1] == b[i - 1];
      PrefixOnly(t, a, b, i - 1, channel, ttl);
    }
  }

  /** The boundary of the guarantee: a result given to Set directly stays shared with the caller, whose
      later writes reach the stored value. Send hands over copies for this reason. */
  method DirectSetStaysShared(store: MemoryIdempotencyStore, key: string, r: SendResult, ttl: int, now: int)
    requires store.Valid() && store !in r.Footprint()
    modifies store, r
    ensures key in store.table && store.table[key].result == Some(old(r.Value()))
    ensures r.ok == !old(r.ok) && !store.Valid()
  {
    store.Set(key, r, ttl, now);
    r.ok := !r.ok;
    assert !MemoryIdempotencyStore.Represents(store.Repr, store.Shared, store.entries[key], store.table[key]);
  }
}
