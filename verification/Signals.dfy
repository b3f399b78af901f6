/** What a provider reports about an endpoint, and what it means (pkg/ratelimit/signal.go). */
module Signals {
  import opened Clock

  datatype Signal = Signal(
    key: string,
    retryAfter: int,
    resetAt: Time,
    remaining: int,
    limit: int,
    hasQuota: bool,
    throttled: bool)

  datatype Kind = Throttled | Advisory | Nothing

  /** The later of now + RetryAfter and ResetAt; the zero time when the signal names neither. */
  function Deadline(s: Signal, now: Time): Time {
    var d := if s.retryAfter > 0 then now + s.retryAfter else 0;
    if s.resetAt > d then s.resetAt else d
  }

  const ADVISORY_QUOTA_DIVISOR := 4

  function Classify(s: Signal, now: Time): Kind {
    if s.throttled then Throttled
    else if s.hasQuota && s.limit > 0 && Wrapped(s.remaining * ADVISORY_QUOTA_DIVISOR) <= s.limit then Advisory
    else if s.retryAfter > 0 then Advisory
    else if !s.hasQuota && s.resetAt > now then Advisory
    else Nothing
  }
}
