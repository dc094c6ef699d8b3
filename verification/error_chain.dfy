/** Provider errors as shared, mutable objects, and their normalization in place. */
module ErrorChain {
  import opened Values

  class ProviderError {
    var reason: ErrorReason
    var message: string
    var providerName: string
    var channel: Channel
    var err: Option<Error<ProviderError>>

    constructor (info: ErrorInfo, err: Option<Error<ProviderError>>)
      ensures Info() == info && this.err == err
    {
      reason, message, providerName, channel := info.reason, info.message, info.providerName, info.channel;
      this.err := err;
    }

    function Info(): ErrorInfo
      reads this
    {
      ErrorInfo(reason, message, providerName, channel)
    }

    method WithProvider(name: string, channel: Channel) returns (r: ProviderError)
      modifies this
      ensures r == this && Info() == old(Info()).(providerName := name, channel := channel) && err == old(err)
    {
      this.providerName := name;
      this.channel := channel;
      return this;
    }

    method WithError(err: Option<Error<ProviderError>>) returns (r: ProviderError)
      modifies this
      ensures r == this && this.err == err && Info() == old(Info())
    {
      this.err := err;
      return this;
    }
  }

  // ---------------------------------------------------------------- errors read as values

  function Objects(e: Error<ProviderError>): set<ProviderError>
    decreases e
  {
    match e
    case Plain(_) => {}
    case Wrapped(_, inner) => Objects(inner)
    case Joined(_, errs) => ObjectsOf(errs)
    case Provider(p) => {p}
  }

  function ObjectsOf(errs: seq<Error<ProviderError>>): set<ProviderError>
    decreases errs
  {
    if errs == [] then {} else Objects(errs[0]) + ObjectsOf(errs[1..])
  }

  /** The error with every provider error in it read at this moment. */
  function Snapshot(e: Error<ProviderError>): ErrorValue
    reads Objects(e)
    decreases e
  {
    match e
    case Plain(text) => Plain(text)
    case Wrapped(text, inner) => Wrapped(text, Snapshot(inner))
    case Joined(text, errs) => Joined(text, SnapshotAll(errs))
    case Provider(p) => Provider(p.Info())
  }

  function SnapshotAll(errs: seq<Error<ProviderError>>): seq<ErrorValue>
    reads ObjectsOf(errs)
    decreases errs
  {
    if errs == [] then [] else [Snapshot(errs[0])] + SnapshotAll(errs[1..])
  }

  lemma {:induction false} ObjectsAreAllocated(e: Error<ProviderError>)
    ensures forall p | p in Objects(e) :: allocated(p)
    decreases e
  {
    match e
    case Plain(_) =>
    case Wrapped(_, inner) => ObjectsAreAllocated(inner);
    case Joined(_, errs) => AllObjectsAreAllocated(errs);
    case Provider(_) =>
  }

  lemma {:induction false} AllObjectsAreAllocated(errs: seq<Error<ProviderError>>)
    ensures forall p | p in ObjectsOf(errs) :: allocated(p)
    decreases errs
  {
    if errs != [] {
      ObjectsAreAllocated(errs[0]);
      AllObjectsAreAllocated(errs[1..]);
    }
  }

  /** An error reads the same for as long as the provider errors in it are left alone. */
  twostate lemma {:induction false} SnapshotIsFramed(e: Error<ProviderError>)
    requires forall p | p in Objects(e) :: old(allocated(p)) && p.Info() == old(p.Info())
    ensures Snapshot(e) == old(Snapshot(e))
    decreases e
  {
    match e
    case Plain(_) =>
    case Wrapped(_, inner) =>
      assert Objects(inner) <= Objects(e);
      SnapshotIsFramed(inner);
    case Joined(_, errs) =>
      assert ObjectsOf(errs) <= Objects(e);
      SnapshotsAreFramed(errs);
    case Provider(p) => assert p in Objects(e);
  }

  twostate lemma {:induction false} SnapshotsAreFramed(errs: seq<Error<ProviderError>>)
    requires forall p | p in ObjectsOf(errs) :: old(allocated(p)) && p.Info() == old(p.Info())
    ensures SnapshotAll(errs) == old(SnapshotAll(errs))
    decreases errs
  {
    if errs != [] {
      assert Objects(errs[0]) <= ObjectsOf(errs) && ObjectsOf(errs[1..]) <= ObjectsOf(errs);
      SnapshotIsFramed(errs[0]);
      SnapshotsAreFramed(errs[1..]);
    }
  }

  /** Reading an error commutes with searching it. */
  lemma {:induction false} FirstOfSnapshot(e: Error<ProviderError>)
    ensures First(e).Some? ==> First(e).value in Objects(e)
    ensures First(Snapshot(e)) == if First(e).Some? then Some(First(e).value.Info()) else None
    decreases e
  {
    match e
    case Plain(_) =>
    case Wrapped(_, inner) => FirstOfSnapshot(inner);
    case Joined(_, errs) => FirstOfSnapshots(errs);
    case Provider(_) =>
  }

  lemma {:induction false} FirstOfSnapshots(errs: seq<Error<ProviderError>>)
    ensures FirstOf(errs).Some? ==> FirstOf(errs).value in ObjectsOf(errs)
    ensures FirstOf(SnapshotAll(errs)) == if FirstOf(errs).Some? then Some(FirstOf(errs).value.Info()) else None
    decreases errs
  {
    if errs != [] {
      FirstOfSnapshot(errs[0]);
      FirstOfSnapshots(errs[1..]);
      assert SnapshotAll(errs)[1..] == SnapshotAll(errs[1..]);
    }
  }

  // ---------------------------------------------------------------- normalization

  /** What an error says about itself; asked only where the search finds no provider error. */
  function Text<P>(e: Error<P>): string
    requires First(e).None?
  {
    match e
    case Plain(text) => text
    case Wrapped(text, _) => text
    case Joined(text, _) => text
  }

  function Complete(i: ErrorInfo, channel: Channel, name: string): ErrorInfo {
    i.(channel := if i.channel == "" then channel else i.channel,
       providerName := if i.providerName == "" then name else i.providerName)
  }

  /** What NormalizeError makes of an error. */
  function Normalized(e: ErrorValue, channel: Channel, name: string): ErrorInfo {
    if First(e).Some? then Complete(First(e).value, channel, name)
    else ErrorInfo(REASON_SEND_FAILED, Text(e), name, channel)
  }

  function Touched(err: Option<Error<ProviderError>>): set<ProviderError> {
    if err.Some? && First(err.value).Some? then {First(err.value).value} else {}
  }

  /** Normalizes in place: the first provider error of the chain is completed and handed back
      itself, so every chain that shares it sees the completion; an error without one is wrapped. */
  method NormalizeError(err: Option<Error<ProviderError>>, channel: Channel, providerName: string)
    returns (p: ProviderError?)
    modifies Touched(err)
    ensures err.None? <==> p == null
    ensures p != null ==> p.Info() == Normalized(old(Snapshot(err.value)), channel, providerName)
    ensures p != null && First(err.value).Some? ==>
              p == First(err.value).value && p.err == old(First(err.value).value.err)
    ensures p != null && First(err.value).None? ==> fresh(p) && p.err == err
  {
    if err.None? {
      return null;
    }
    FirstOfSnapshot(err.value);
    var found := First(err.value);
    if found.Some? {
      p := found.value;
      if p.channel == "" {
        p.channel := channel;
      }
      if p.providerName == "" {
        p.providerName := providerName;
      }
      return;
    }
    TextOfSnapshot(err.value);
    p := new ProviderError(ErrorInfo(REASON_SEND_FAILED, Text(err.value), providerName, channel), err);
  }

  lemma TextOfSnapshot(e: Error<ProviderError>)
    requires First(e).None?
    ensures First(Snapshot(e)).None? && Text(Snapshot(e)) == Text(e)
  {
    FirstOfSnapshot(e);
  }

  /** Normalization keeps the reason the search finds first, and is a projection: a normalized error
      normalizes to itself, for the same channel and provider name or, once both are filled in, any. */
  lemma NormalizedIsStable(e: ErrorValue, channel: Channel, name: string, channel': Channel, name': string)
    ensures First(e).Some? ==> Normalized(e, channel, name).reason == First(e).value.reason
    ensures var n := Normalized(e, channel, name);
            Normalized(Provider(n), channel, name) == n
    ensures var n := Normalized(e, channel, name);
            Normalized(Provider(n), channel', name') == n <==>
              (n.channel != "" || channel' == "") && (n.providerName != "" || name' == "")
  {
  }

  /** What becomes of each part: an error without a provider error keeps its text as the message of a send failure; the
      first provider error keeps reason and message, and only what it leaves open is filled in. */
  lemma NormalizedParts(e: ErrorValue, channel: Channel, name: string)
    ensures var n := Normalized(e, channel, name);
            match First(e)
            case Some(i) =>
              && n.reason == i.reason && n.message == i.message
              && n.channel == (if i.channel != "" then i.channel else channel)
              && n.providerName == (if i.providerName != "" then i.providerName else name)
            case None =>
              && n.reason == REASON_SEND_FAILED && n.channel == channel && n.providerName == name
              && forall text, inner, errs | e == Plain(text) || e == Wrapped(text, inner) || e == Joined(text, errs) ::
                   n.message == text
  {
  }

  /** Normalizing the same error twice, as a method call: the second call changes nothing. */
  method NormalizeTwice(e: Error<ProviderError>, channel: Channel, name: string)
    returns (first: ProviderError, second: ProviderError, once: ErrorInfo)
    modifies Touched(Some(e))
    ensures once == Normalized(old(Snapshot(e)), channel, name)
    ensures second.Info() == first.Info() == once
    ensures First(e).Some? ==> second == first
  {
    FirstOfSnapshot(e);
    var p := NormalizeError(Some(e), channel, name);
    first, once := p, p.Info();
    FirstOfSnapshot(e);
    if First(e).None? {
      TextOfSnapshot(e);
    }
    var q := NormalizeError(Some(e), channel, name);
    second := q;
  }

  // ---------------------------------------------------------------- classification

  /** Whether an error should be retried: one without a reason always, another by its reason. */
  ghost predicate Retryable(reasons: seq<ErrorReason>, err: Option<ErrorValue>) {
    err.Some? && (First(err.value).Some? ==> First(err.value).value.reason in reasons)
  }

  method IsRetryable(reasons: seq<ErrorReason>, err: Option<ErrorValue>) returns (yes: bool)
    ensures yes <==> Retryable(reasons, err)
    ensures err.None? ==> !yes
    ensures err.Some? && First(err.value).None? ==> yes
    ensures err.Some? && First(err.value).Some? ==>
              (yes <==> exists i :: 0 <= i < |reasons| && reasons[i] == First(err.value).value.reason)
  {
    if err.None? {
      return false;
    }
    var found := First(err.value);
    if found.None? {
      return true;
    }
    for i := 0 to |reasons|
      invariant found.value.reason !in reasons[..i]
    {
      if found.value.reason == reasons[i] {
        return true;
      }
    }
    return false;
  }

  /** Normalizing before classifying changes the verdict on exactly those errors that hold no provider
      error, and only when send_failed is not among the retryable reasons. */
  lemma NormalizedRetryable(reasons: seq<ErrorReason>, e: ErrorValue, channel: Channel, name: string)
    ensures Retryable(reasons, Some(Provider(Normalized(e, channel, name)))) == Retryable(reasons, Some(e))
       <==> First(e).Some? || REASON_SEND_FAILED in reasons
  {
  }

  /** Wrapping an error, alone or behind errors that hold no provider error, at any depth, hides nothing. */
  lemma {:induction false} SearchSeesThroughWrapping(text: string, before: seq<ErrorValue>, e: ErrorValue,
          after: seq<ErrorValue>)
    requires FirstOf(before).None? && First(e).Some?
    ensures First(Joined(text, before + [e] + after)) == First(Wrapped(text, e)) == First(e)
  {
    assert FirstOf(before + [e] + after) == First(e) by {
      SearchSkips(before, [e] + after);
      assert before + [e] + after == before + ([e] + after);
    }
  }

  lemma {:induction false} SearchSkips(before: seq<ErrorValue>, rest: seq<ErrorValue>)
    requires FirstOf(before).None?
    ensures FirstOf(before + rest) == FirstOf(rest)
  {
    if before == [] {
      assert before + rest == rest;
    } else {
      SearchSkips(before[1..], rest);
      assert (before + rest)[1..] == before[1..] + rest;
    }
  }
}
