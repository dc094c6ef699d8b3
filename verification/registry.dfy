/** The provider registry, and retrying through it. */
module Registry {
  import opened Values
  import opened ErrorChain
  import Retry

  /** A provider as the registry sees it. */
  datatype ProviderRef = ProviderRef(id: nat, channel: Channel, invalid: Option<ErrorValue>)

  type Providers = map<Channel, ProviderRef>

  function NotRegistered(channel: Channel): ErrorValue {
    Provider(ErrorInfo(REASON_NOT_REGISTERED, "no provider registered for channel: " + channel, "", channel))
  }

  function RegisterError(p: Option<ProviderRef>): Option<ErrorValue> {
    if p.None? then Some(Provider(ErrorInfo(REASON_VALIDATION_FAILED, "provider cannot be nil", "", "")))
    else if p.value.invalid.Some? then Some(Wrapped("provider validation failed", p.value.invalid.value))
    else None
  }

  datatype Change = Register(p: Option<ProviderRef>) | Unregister(channel: Channel) | Clear

  function Changed(ps: Providers, c: Change): Providers {
    match c
    case Register(p) => if RegisterError(p).None? then ps[p.value.channel := p.value] else ps
    case Unregister(channel) => ps - {channel}
    case Clear => map[]
  }

  class Registry {
    var providers: Providers

    constructor ()
      ensures providers == map[]
    {
      providers := map[];
    }

    method Register(p: Option<ProviderRef>) returns (err: Option<ErrorValue>)
      modifies this
      ensures providers == Changed(old(providers), Change.Register(p)) && err == RegisterError(p)
      ensures p.None? ==> err == Some(Provider(ErrorInfo("validation_failed", "provider cannot be nil", "", "")))
      ensures p.Some? && p.value.invalid.Some? ==>
                err == Some(Wrapped("provider validation failed", p.value.invalid.value))
      ensures p.Some? && p.value.invalid.None? ==> err == None
    {
      if p.None? {
        return Some(Provider(ErrorInfo(REASON_VALIDATION_FAILED, "provider cannot be nil", "", "")));
      }
      if p.value.invalid.Some? {
        return Some(Wrapped("provider validation failed", p.value.invalid.value));
      }
      providers := providers[p.value.channel := p.value];
      return None;
    }

    method Unregister(channel: Channel)
      modifies this
      ensures providers == Changed(old(providers), Change.Unregister(channel))
    {
      providers := providers - {channel};
    }

    method Clear()
      modifies this
      ensures providers == Changed(old(providers), Change.Clear)
    {
      providers := map[];
    }

    method Get(channel: Channel) returns (p: Option<ProviderRef>, err: Option<ErrorValue>)
      ensures if channel in providers then p == Some(providers[channel]) && err == None
              else p == None && err == Some(NotRegistered(channel))
      ensures NotRegistered(channel)
           == Provider(ErrorInfo("not_registered", "no provider registered for channel: " + channel, "", channel))
    {
      if channel !in providers {
        return None, Some(NotRegistered(channel));
      }
      return Some(providers[channel]), None;
    }

    /** One call through the registry; `answer(p, i)` is what provider p returns to the i-th attempt. */
    method Send(channel: Channel, answer: (ProviderRef, nat) -> Outcome, attempt: nat) returns (o: Outcome)
      ensures o == Answer(providers, channel, answer, attempt)
    {
      var p, err := Get(channel);
      if err.Some? {
        return Outcome(None, err);
      }
      return answer(p.value, attempt);
    }
  }

  function Answer(ps: Providers, channel: Channel, answer: (ProviderRef, nat) -> Outcome, attempt: nat): Outcome {
    if channel in ps then answer(ps[channel], attempt) else Outcome(None, Some(NotRegistered(channel)))
  }

  // ---------------------------------------------------------------- what Get answers

  function ChangedAll(ps: Providers, changes: seq<Change>): Providers {
    if changes == [] then ps else Changed(ChangedAll(ps, changes[..|changes| - 1]), changes[|changes| - 1])
  }

  /** A registry is empty at first. */
  function After(history: seq<Change>): Providers {
    ChangedAll(map[], history)
  }

  predicate Installs(c: Change, p: ProviderRef) {
    c.Register? && c.p == Some(p) && p.invalid.None?
  }

  predicate Evicts(c: Change, channel: Channel) {
    || c.Clear?
    || (c.Unregister? && c.channel == channel)
    || (c.Register? && RegisterError(c.p).None? && c.p.value.channel == channel)
  }

  ghost predicate LastInstalled(history: seq<Change>, i: nat, channel: Channel, p: ProviderRef) {
    && i < |history| && Installs(history[i], p) && p.channel == channel
    && forall j | i < j < |history| :: !Evicts(history[j], channel)
  }

  /** A channel answers with the provider of its last successful Register, unless it was unregistered since;
      failed registrations leave no trace. */
  lemma {:induction false} GetIsLastRegistered(history: seq<Change>, channel: Channel, p: ProviderRef)
    ensures channel in After(history) && After(history)[channel] == p
       <==> exists i :: LastInstalled(history, i, channel, p)
  {
    if history != [] {
      var n := |history| - 1;
      var before := history[..n];
      GetIsLastRegistered(before, channel, p);
      if Evicts(history[n], channel) {
        assert Installs(history[n], p) && p.channel == channel ==> LastInstalled(history, n, channel, p);
        assert forall i | LastInstalled(history, i, channel, p) :: i == n;
      } else {
        forall i ensures LastInstalled(before, i, channel, p) <==> LastInstalled(history, i, channel, p) {
        }
      }
    }
  }

  // ---------------------------------------------------------------- RetrySender

  /** What a retry loop through a registry sees, attempt by attempt, the registry changing under it. */
  function Through(registries: nat -> Providers, channel: Channel, answer: (ProviderRef, nat) -> Outcome)
    : nat -> Outcome
  {
    (i: nat) => Answer(registries(i), channel, answer, i)
  }

  function Directly(p: ProviderRef, answer: (ProviderRef, nat) -> Outcome): nat -> Outcome {
    (i: nat) => answer(p, i)
  }

  /** What is registered at attempt i if `changes(j)` is what others do to the registry just before attempt j. */
  function Under(ps: Providers, changes: nat -> seq<Change>, i: nat): Providers {
    ChangedAll(if i == 0 then ps else Under(ps, changes, i - 1), changes(i))
  }

  /** All changes up to attempt i, in their order. */
  function Changes(changes: nat -> seq<Change>, i: nat): seq<Change> {
    if i == 0 then changes(0) else Changes(changes, i - 1) + changes(i)
  }

  /** The registry at attempt i is what its whole history makes of it. */
  lemma {:induction false} UnderIsAfter(history: seq<Change>, changes: nat -> seq<Change>, i: nat)
    ensures Under(After(history), changes, i) == After(history + Changes(changes, i))
  {
    if i == 0 {
      ChangedInTurn(map[], history, changes(0));
    } else {
      UnderIsAfter(history, changes, i - 1);
      ChangedInTurn(map[], history + Changes(changes, i - 1), changes(i));
      assert history + Changes(changes, i - 1) + changes(i) == history + Changes(changes, i);
    }
  }

  lemma {:induction false} ChangedInTurn(ps: Providers, a: seq<Change>, b: seq<Change>)
    ensures ChangedAll(ChangedAll(ps, a), b) == ChangedAll(ps, a + b)
  {
    if b == [] {
      assert a + b == a;
    } else {
      var n := |b| - 1;
      ChangedInTurn(ps, a, b[..n]);
      assert (a + b)[..|a + b| - 1] == a + b[..n] && (a + b)[|a + b| - 1] == b[n];
    }
  }

  function Shifting(ps: Providers, changes: nat -> seq<Change>): nat -> Providers {
    (i: nat) => Under(ps, changes, i)
  }

  /** Others at work. */
  method MakeChanges(registry: Registry, changes: seq<Change>)
    modifies registry
    ensures registry.providers == ChangedAll(old(registry.providers), changes)
  {
    for i := 0 to |changes|
      invariant registry.providers == ChangedAll(old(registry.providers), changes[..i])
    {
      match changes[i] {
        case Register(p) => var _ := registry.Register(p);
        case Unregister(channel) => registry.Unregister(channel);
        case Clear => registry.Clear();
      }
      assert changes[..i + 1][..i] == changes[..i];
    }
    assert changes[..|changes|] == changes;
  }

  /** One attempt, after what others do to the registry. */
  method Attempt(registry: Registry, channel: Channel, answer: (ProviderRef, nat) -> Outcome, attempt: nat,
                 changes: nat -> seq<Change>, ghost before: Providers)
    returns (o: Outcome)
    requires registry.providers == if attempt == 0 then before else Under(before, changes, attempt - 1)
    modifies registry
    ensures registry.providers == Under(before, changes, attempt)
    ensures o == Through(Shifting(before, changes), channel, answer)(attempt)
  {
    MakeChanges(registry, changes(attempt));
    o := registry.Send(channel, answer, attempt);
  }

  /** Retries through a registry that others change between the attempts. */
  method RetrySend(registry: Registry, cfg: Retry.RetryConfig, channel: Channel, answer: (ProviderRef, nat) -> Outcome,
                   changes: nat -> seq<Change>, cancelled: nat -> bool, ctxErr: ErrorValue)
    returns (ending: Retry.Ending, calls: nat, waits: seq<int>)
    modifies registry
    ensures Retry.IsRun(cfg, Through(Shifting(old(registry.providers), changes), channel, answer), cancelled, ctxErr,
                        calls, ending)
    ensures registry.providers == if calls == 0 then old(registry.providers)
                                  else Under(old(registry.providers), changes, calls - 1)
    ensures |waits| == (if calls == 0 then 0 else calls - 1)
    ensures forall i | 0 <= i < |waits| :: waits[i] == cfg.CalculateDelay(i)
  {
    var last := Outcome(None, None);
    var maxAttempts := cfg.MaxAttempts();
    ghost var before := registry.providers;
    ghost var stream := Through(Shifting(before, changes), channel, answer);
    calls, waits := 0, [];
    while calls < maxAttempts
      invariant 0 <= calls <= (if maxAttempts > 0 then maxAttempts else 0)
      invariant registry.providers == if calls == 0 then before else Under(before, changes, calls - 1)
      invariant |waits| == (if calls == 0 then 0 else calls - 1)
      invariant forall i | 0 <= i < |waits| :: waits[i] == cfg.CalculateDelay(i)
      invariant forall i | 0 <= i < calls :: !Retry.Stops(cfg, stream(i)) && !Retry.NilWithoutError(stream(i))
      invariant forall i | 0 < i < calls :: !cancelled(i)
      invariant last == if calls == 0 then Outcome(None, None) else stream(calls - 1)
    {
      if calls > 0 {
        var delay := cfg.CalculateDelay(calls - 1);
        if cancelled(calls) {
          return Retry.Returned(Outcome(None, Some(ctxErr))), calls, waits;
        }
        waits := waits + [delay];
      }
      last := Attempt(registry, channel, answer, calls, changes, before);
      calls := calls + 1;
      var over := Retry.Judge(cfg, last);
      if over.Some? {
        return over.value, calls, waits;
      }
    }
    return Retry.Returned(last), calls, waits;
  }

  /** Retrying through a registry that changes between attempts, but in which the channel keeps its provider for as
      long as the loop runs, is retrying that provider itself: same calls, same ending. */
  lemma SameAsRetryProvider(cfg: Retry.RetryConfig, registries: nat -> Providers, channel: Channel, p: ProviderRef,
                            answer: (ProviderRef, nat) -> Outcome, cancelled: nat -> bool, ctxErr: ErrorValue,
                            n: nat, e: Retry.Ending, n': nat, e': Retry.Ending)
    requires Retry.IsRun(cfg, Through(registries, channel, answer), cancelled, ctxErr, n, e)
    requires Retry.IsRun(cfg, Directly(p, answer), cancelled, ctxErr, n', e')
    requires forall i | 0 <= i < n :: channel in registries(i) && registries(i)[channel] == p
    ensures n == n' && e == e'
  {
    Retry.RunsAreLocal(cfg, Through(registries, channel, answer), Directly(p, answer), cancelled, ctxErr, n, e);
    Retry.RunsAreUnique(cfg, Directly(p, answer), cancelled, ctxErr, n, e, n', e');
  }

  /** Unregistering the channel ends a running loop at its next attempt, unless not_registered is to be retried. */
  lemma UnregisteredStopsTheLoop(cfg: Retry.RetryConfig, registries: nat -> Providers, channel: Channel,
                                 answer: (ProviderRef, nat) -> Outcome, cancelled: nat -> bool, ctxErr: ErrorValue,
                                 n: nat, e: Retry.Ending, i: nat)
    requires Retry.IsRun(cfg, Through(registries, channel, answer), cancelled, ctxErr, n, e)
    requires i < n && channel !in registries(i) && REASON_NOT_REGISTERED !in cfg.retryableReasons
    ensures n == i + 1 && e == Retry.Returned(Outcome(None, Some(NotRegistered(channel))))
  {
    assert Retry.Stops(cfg, Through(registries, channel, answer)(i));
  }
}
