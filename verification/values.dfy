/** The values that flow between providers, the idempotency store and the retry loops. */
module Values {

  datatype Option<+T> = None | Some(value: T)

  type Channel = string
  type ErrorReason = string

  const REASON_SEND_FAILED: ErrorReason := "send_failed"
  const REASON_PROVIDER_DOWN: ErrorReason := "provider_down"
  const REASON_RATE_LIMITED: ErrorReason := "rate_limited"
  const REASON_INVALID_DESTINATION: ErrorReason := "invalid_destination"
  const REASON_TIMEOUT: ErrorReason := "timeout"
  const REASON_UNAUTHORIZED: ErrorReason := "unauthorized"
  const REASON_NOT_REGISTERED: ErrorReason := "not_registered"
  const REASON_VALIDATION_FAILED: ErrorReason := "validation_failed"
  const REASON_IDEMPOTENCY_CONFLICT: ErrorReason := "idempotency_conflict"

  /** What a ProviderError says about itself; the error it wraps is not part of this value. */
  datatype ErrorInfo = ErrorInfo(reason: ErrorReason, message: string, providerName: string, channel: Channel)

  /** An error as `errors.As` sees it: a tree whose inner nodes wrap one error or several,
      and in which a provider error of type P may sit anywhere. The search never looks
      behind a provider error, so what such an error wraps does not matter here. */
  datatype Error<+P> =
    | Plain(text: string)
    | Wrapped(text: string, inner: Error<P>)
    | Joined(text: string, errs: seq<Error<P>>)
    | Provider(p: P)

  /** The first provider error met in a pre-order walk. */
  function First<P>(e: Error<P>): Option<P>
    decreases e
  {
    match e
    case Plain(_) => None
    case Wrapped(_, inner) => First(inner)
    case Joined(_, errs) => FirstOf(errs)
    case Provider(p) => Some(p)
  }

  function FirstOf<P>(errs: seq<Error<P>>): Option<P>
    decreases errs
  {
    if errs == [] then None
    else
      var f := First(errs[0]);
      if f.Some? then f else FirstOf(errs[1..])
  }

  type ErrorValue = Error<ErrorInfo>

  /** A SendResult read as a value. */
  datatype ResultValue = ResultValue(
    ok: bool,
    messageID: string,
    provider: string,
    channel: Channel,
    timestamp: int,
    metadata: Option<map<string, string>>,
    error: Option<ErrorInfo>)

  /** What one call of a provider hands back: a possibly nil result and a possibly nil error. */
  datatype Outcome = Outcome(result: Option<ResultValue>, err: Option<ErrorValue>)

  const ERR_SEND_IN_FLIGHT: ErrorValue := Plain("a send for this idempotency key is already in flight")

  const IN_FLIGHT: Outcome := Outcome(None, Some(ERR_SEND_IN_FLIGHT))
}
