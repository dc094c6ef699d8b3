/** The outcome contract of HTTPProvider.Send and its bounded read. */
module HttpProvider {
  import opened Values
  import opened ErrorChain
  import Retry
  import T = ClaimTable
  import S = SendProtocol
  import opened Provenance

  const DEFAULT_MAX_RESPONSE_BYTES := 1048576

  function Digit(n: nat): char
    requires n < 10
  {
    '0' + n as char
  }

  /** %d. */
  function Decimal(n: int): string
    decreases if n < 0 then 1 - n else n
  {
    if n < 0 then "-" + Decimal(-n)
    else if n < 10 then [Digit(n)]
    else Decimal(n / 10) + [Digit(n % 10)]
  }

  function Value(c: char): nat {
    if '0' <= c <= '9' then c as int - '0' as int else 0
  }

  /** The number a decimal stands for, read from the left; what is no digit counts as 0. */
  function Number(s: string): nat {
    if s == "" then 0 else Number(s[..|s| - 1]) * 10 + Value(s[|s| - 1])
  }

  lemma {:induction false} DecimalReadsBack(n: int)
    requires n >= 0
    ensures Number(Decimal(n)) == n && (n > 0 ==> Decimal(-n) == "-" + Decimal(n))
  {
    var s := Decimal(n);
    if n < 10 {
      assert s[..0] == "";
    } else {
      DecimalReadsBack(n / 10);
      assert s[..|s| - 1] == Decimal(n / 10);
    }
  }

  /** What can be read from a response body, and whether reading on would then fail. */
  datatype Body = Body(bytes: seq<bv8>, fails: bool)

  datatype ReadResult = Accepted(bytes: seq<bv8>) | Failed(message: string)

  /** One byte more than the limit is asked for, unless the limit is the largest there is. A body is accepted whole
      if and only if it is no longer than the limit and reads without an error. */
  method ReadSendResponse(maxResponseBytes: Retry.Int64, body: Body) returns (r: ReadResult)
    requires |body.bytes| <= Retry.MAX_INT
    ensures r.Accepted? ==> r.bytes == body.bytes
    ensures var limit := if maxResponseBytes > 0 then maxResponseBytes else 1024 * 1024;
            && (r.Accepted? <==> |body.bytes| <= limit && !(body.fails && |body.bytes| < Retry.MAX_INT))
            && (r.Failed? ==> r.message == if |body.bytes| > limit then "provider response exceeds size limit"
                                           else "failed to read response")
  {
    var limit := maxResponseBytes;
    if limit <= 0 {
      limit := DEFAULT_MAX_RESPONSE_BYTES;
    }
    var readLimit := limit;
    if readLimit < Retry.MAX_INT {
      readLimit := readLimit + 1;
    }
    if body.fails && |body.bytes| < readLimit {
      return Failed("failed to read response");
    }
    var read := if |body.bytes| < readLimit then body.bytes else body.bytes[..readLimit];
    if |read| > limit {
      return Failed("provider response exceeds size limit");
    }
    return Accepted(read);
  }

  /** A decoded response body. */
  datatype Response = Response(ok: bool, messageID: string, provider: string, errorCode: string, errorMessage: string)

  /** What one Send runs into: the recipient it is given, and how the library calls on the way turn out. */
  datatype Circumstances = Circumstances(
    to: string,
    marshalFails: bool,
    requestError: Option<string>,
    transportFails: bool,
    status: int,
    body: Body,
    decoded: Option<Response>)

  class HTTPProvider {
    const name: string
    const channel: Channel
    const maxResponseBytes: Retry.Int64

    constructor (name: string, channel: Channel, maxResponseBytes: Retry.Int64)
      ensures this.name == name && this.channel == channel && this.maxResponseBytes == maxResponseBytes
    {
      this.name, this.channel, this.maxResponseBytes := name, channel, maxResponseBytes;
    }

    function Info(reason: ErrorReason, message: string): ErrorInfo {
      ErrorInfo(reason, message, name, channel)
    }

    /** Known codes are reasons by the same name; every other code, send_failed among them, is a send failure. */
    function MapErrorCode(code: string, message: string): (i: ErrorInfo)
      ensures var known := ["rate_limited", "invalid_destination", "timeout", "unauthorized", "provider_down",
                            "idempotency_conflict"];
              i == ErrorInfo(if code in known then code else "send_failed", message, name, channel)
    {
      Info(if code == "rate_limited" then REASON_RATE_LIMITED
           else if code == "invalid_destination" then REASON_INVALID_DESTINATION
           else if code == "timeout" then REASON_TIMEOUT
           else if code == "unauthorized" then REASON_UNAUTHORIZED
           else if code == "provider_down" then REASON_PROVIDER_DOWN
           else if code == "idempotency_conflict" then REASON_IDEMPOTENCY_CONFLICT
           else REASON_SEND_FAILED, message)
    }

    function FailedWith(i: ErrorInfo, now: int): Outcome {
      Outcome(Some(ResultValue(false, "", name, channel, now, Some(map[]), Some(i))), Some(Provider(i)))
    }

    function Upstream(provider: string): map<string, string> {
      if provider != "" then map["upstream_provider" := provider] else map[]
    }

    /** On every path there is a result, it says OK exactly when the error is nil, and the error it carries is the one
        that is returned beside it, named after this provider. Which error it is depends on how far the send got: to
        the transport, through it, and to a body that was read. A body that says not OK decides by its code if the
        status is a success, or if it has one. */
    method Send(c: Circumstances, now: int) returns (o: Outcome)
      requires |c.body.bytes| <= Retry.MAX_INT
      ensures Sound(o)
      ensures o.err.Some? ==>
                && o.result.value.error.Some? && o.err == Some(Provider(o.result.value.error.value))
                && o.result.value == ResultValue(false, "", name, channel, now, Some(map[]), o.result.value.error)
                && o.result.value.error.value.channel == channel && o.result.value.error.value.providerName == name
      ensures o.err.None? ==>
                && c.decoded.Some?
                && o.result.value == ResultValue(true, c.decoded.value.messageID, name, channel, now,
                                                 o.result.value.metadata, None)
                && o.result.value.metadata == Some(if c.decoded.value.provider == "" then map[]
                                                   else map["upstream_provider" := c.decoded.value.provider])
      ensures var limit := if maxResponseBytes > 0 then maxResponseBytes else 1024 * 1024;
              var reached := c.to != "" && !c.marshalFails && c.requestError.None?;
              var read := reached && !c.transportFails
                          && |c.body.bytes| <= limit && !(c.body.fails && |c.body.bytes| < Retry.MAX_INT);
              var success := 200 <= c.status < 300;
              var known := ["rate_limited", "invalid_destination", "timeout", "unauthorized", "provider_down",
                            "idempotency_conflict"];
              var saysNo := read && c.decoded.Some? && !c.decoded.value.ok
                            && (success || c.decoded.value.errorCode != "");
              && (o.err.None? <==> read && success && c.decoded.Some? && c.decoded.value.ok)
              && (o.err.Some? ==>
                    var reason := o.result.value.error.value.reason;
                    var message := o.result.value.error.value.message;
                    && (c.to == "" ==> reason == "invalid_destination" && message == "destination (To) is required")
                    && (reached && c.transportFails ==> reason == "provider_down" && message == "HTTP request failed")
                    && (saysNo ==> message == c.decoded.value.errorMessage)
                    && (saysNo && c.decoded.value.errorCode in known ==> reason == c.decoded.value.errorCode)
                    && (c.to == "" || (reached && c.transportFails)
                        || (saysNo && c.decoded.value.errorCode in known)
                        || reason == "send_failed")
                    && (c.to != "" && c.marshalFails ==> message == "failed to serialize request")
                    && (c.to != "" && !c.marshalFails && c.requestError.Some? ==> message == c.requestError.value)
                    && (reached && !c.transportFails && |c.body.bytes| > limit ==>
                          message == "provider response exceeds size limit")
                    && (reached && !c.transportFails && |c.body.bytes| <= limit && !read ==>
                          message == "failed to read response")
                    && (read && !success && !saysNo ==> message == "provider returned HTTP " + Decimal(c.status))
                    && (read && success && c.decoded.None? ==> message == "failed to parse response"))
    {
      if c.to == "" {
        // NormalizeError completes the very error that is returned.
        var invalid := ErrorInfo(REASON_INVALID_DESTINATION, "destination (To) is required", "", "");
        return FailedWith(Normalized(Provider(invalid), channel, name), now);
      }
      if c.marshalFails {
        return FailedWith(Info(REASON_SEND_FAILED, "failed to serialize request"), now);
      }
      if c.requestError.Some? {
        return FailedWith(Info(REASON_SEND_FAILED, c.requestError.value), now);
      }
      if c.transportFails {
        return FailedWith(Info(REASON_PROVIDER_DOWN, "HTTP request failed"), now);
      }
      var read := ReadSendResponse(maxResponseBytes, c.body);
      if read.Failed? {
        return FailedWith(Info(REASON_SEND_FAILED, read.message), now);
      }
      if c.status < 200 || c.status >= 300 {
        if c.decoded.Some? && !c.decoded.value.ok && c.decoded.value.errorCode != "" {
          return FailedWith(MapErrorCode(c.decoded.value.errorCode, c.decoded.value.errorMessage), now);
        }
        return FailedWith(Info(REASON_SEND_FAILED, "provider returned HTTP " + Decimal(c.status)), now);
      }
      if c.decoded.None? {
        return FailedWith(Info(REASON_SEND_FAILED, "failed to parse response"), now);
      }
      if !c.decoded.value.ok {
        return FailedWith(MapErrorCode(c.decoded.value.errorCode, c.decoded.value.errorMessage), now);
      }
      return Outcome(Some(ResultValue(true, c.decoded.value.messageID, name, channel, now,
                                      Some(Upstream(c.decoded.value.provider)), None)), None);
    }
  }

  /** One attempt of the default retry loop over such a provider. A transport failure is to be tried again, and so is
      any answer whose code is rate_limited, timeout or provider_down; every other failure ends the loop at once, with
      its result beside the error. */
  method SendAndJudge(provider: HTTPProvider, c: Circumstances, now: int)
    returns (o: Outcome, over: Option<Retry.Ending>)
    requires |c.body.bytes| <= Retry.MAX_INT
    ensures over.Some? ==> over == Some(Retry.Returned(o))
    ensures c.to != "" && !c.marshalFails && c.requestError.None? && c.transportFails ==> over.None?
    ensures o.err.None? ==> over.Some?
    ensures over.None? <==>
              && o.err.Some? && o.result.Some? && o.result.value.error.Some?
              && o.result.value.error.value.reason in ["provider_down", "timeout", "rate_limited"]
  {
    o := provider.Send(c, now);
    over := Retry.Judge(Retry.DEFAULT_RETRY_CONFIG, o);
  }

  /** There is a result, and it says OK exactly when the error is nil. */
  predicate Sound(o: Outcome) {
    o.result.Some? && (o.result.value.ok <==> o.err.None?)
  }

  /** Over a sound provider the retry loop never crashes, and what it returns is sound again unless it made no call or
      was cancelled. */
  lemma RetryKeepsSound(cfg: Retry.RetryConfig, stream: nat -> Outcome, cancelled: nat -> bool, ctxErr: ErrorValue,
          n: nat, e: Retry.Ending)
    requires Retry.IsRun(cfg, stream, cancelled, ctxErr, n, e) && forall i | 0 <= i < n :: Sound(stream(i))
    ensures e.Returned?
    ensures n > 0 && e.outcome != Outcome(None, Some(ctxErr)) ==> Sound(e.outcome)
    ensures Sound(e.outcome) ==> e.outcome == stream(n - 1)
  {
    if n > 0 {
      assert Sound(stream(n - 1));
    }
  }

  /** The wrapped provider is sound whenever it is called for the key. */
  ghost predicate SoundCalls(clock: int, steps: seq<S.Step>, key: T.Key) {
    forall j, p, o | Produces(clock, steps, j, p, key, o) :: Sound(o)
  }

  /** Idempotency over a sound provider, whoever else uses the store: a Send that called the provider returns a sound
      outcome. One that did not returns ErrSendInFlight, which has no result and is not sound, or a recorded result and
      no error, which is sound exactly if the call that was recorded had succeeded. A recorded failure is thus handed
      back without its error. */
  lemma RecordedReplySound(clock: int, steps: seq<S.Step>, i: nat, key: T.Key, p: S.Caller)
    requires i <= |steps| && NoOutsideSet(steps, key) && SoundCalls(clock, steps, key)
    requires var s := S.StateAt(clock, steps, i);
             p in s.callers && s.callers[p].Done? && s.callers[p].claim.key == key
    ensures var ph := S.StateAt(clock, steps, i).callers[p];
            && (ph.called ==> Sound(ph.reply))
            && (!ph.called && ph.reply != IN_FLIGHT ==>
                  exists q, o :: Own(clock, steps, i, q, key, o) && ph.reply == Outcome(o.result, None)
                              && (Sound(ph.reply) <==> o.err.None?))
  {
    ResultsComeFromCalls(clock, steps, i, key);
    var ph := S.StateAt(clock, steps, i).callers[p];
    assert PhaseProduced(clock, steps, i, p, key, ph);
    if ph.called {
      assert Own(clock, steps, i, p, key, ph.reply);
    } else if ph.reply != IN_FLIGHT {
      var q: S.Caller, o: Outcome :| o.result == ph.reply.result && Own(clock, steps, i, q, key, o);
      assert Sound(o);
    }
  }
}
