/** Rate-limit headers of an HTTP response as a signal (pkg/ratelimit/httpsignal/httpsignal.go). */
module HttpSignal {
  import opened Clock
  import opened Signals
  import opened KeySets
  import opened GovernorState
  import opened GovernorRuns
  import opened GovernorLaws

  /** What a header's text says: nothing, a number, infinity spelled out, an HTTP-date, or none of these.
      A number too large for a float is none of these: the parser refuses it. */
  datatype Field = Missing | Number(f: real) | Infinite | Date(t: Time) | Garbage

  datatype Response = Response(
    status: int,
    retryAfter: Field,
    remaining: Field,
    limit: Field,
    used: Field,
    reset: Field,
    delay: Field,
    namesResource: bool)

  const TOO_MANY_REQUESTS := 429
  const FORBIDDEN := 403
  const SERVICE_UNAVAILABLE := 503

  /** A hundred years, the longest delay a header can ask for. */
  const MAX_SECONDS := 100 * 365 * 24 * 60 * 60

  const MAX_COUNT := 0x7FFF_FFFF

  /** 1970-01-01 in seconds since the zero time. */
  const UNIX := 62_135_596_800

  function Ceil(r: real): int {
    -(-r).Floor
  }

  function SmallerOf(x: real, y: real): real {
    if x < y then x else y
  }

  function ParseSeconds(v: Field): Option<int> {
    match v
    case Number(f) => if f < 0.0 then None else Some(Ceil(SmallerOf(f, MAX_SECONDS as real) * SECOND as real))
    case Infinite => Some(MAX_SECONDS * SECOND)
    case _ => None
  }

  function ParseCount(v: Field): Option<int> {
    match v
    case Number(f) => if f < 0.0 then None else Some(SmallerOf(f, MAX_COUNT as real).Floor)
    case Infinite => Some(MAX_COUNT)
    case _ => None
  }

  function ParseEpoch(v: Field): Option<Time> {
    match v
    case Number(f) =>
      if f <= 0.0 || f > 1e11 then None
      else
        var sec := f.Floor;
        Some((UNIX + sec) * SECOND + ((f - sec as real) * SECOND as real).Floor)
    case _ => None
  }

  /** The delay, and whether the header was there and valid. A date in the past is a zero delay. */
  function ParseRetryAfter(v: Field, now: Time): (int, bool) {
    var d := ParseSeconds(v);
    if d.Some? then (d.value, true)
    else if v.Date? then (if Sub(v.t, now) > 0 then Sub(v.t, now) else 0, true)
    else (0, false)
  }

  /** What is left: as stated, or else the limit less what was used. */
  function ParseRemaining(r: Response): Option<int> {
    var remaining := ParseCount(r.remaining);
    var limit := ParseCount(r.limit);
    var used := ParseCount(r.used);
    if remaining.None? && limit.Some? && used.Some? then Some(Max(0, limit.value - used.value)) else remaining
  }

  function OrElse<T>(o: Option<T>, d: T): T {
    match o
    case None => d
    case Some(x) => x
  }

  /** The signal for key, and whether there is anything to report. */
  function Parse(r: Response, key: string, now: Time): (Signal, bool) {
    var (after, hasAfter) := ParseRetryAfter(r.retryAfter, now);
    var remaining := ParseRemaining(r);
    var limit := ParseCount(r.limit);
    var resetAt := OrElse(ParseEpoch(r.reset), 0);
    var throttled :=
      if r.status == TOO_MANY_REQUESTS then true
      else if r.status == FORBIDDEN then hasAfter || remaining == Some(0)
      else r.status == SERVICE_UNAVAILABLE && hasAfter;
    var delay := ParseSeconds(r.delay);
    var spacing := if delay.Some? && !throttled && after == 0 then delay.value else after;
    var s := Signal(key, spacing, resetAt, OrElse(remaining, 0),
                    if remaining.Some? then OrElse(limit, 0) else 0, remaining.Some?, throttled);
    (s, || throttled || hasAfter || remaining.Some? || limit.Some? || ParseCount(r.used).Some?
        || resetAt != 0 || delay.Some? || r.namesResource)
  }

  // ---- rounding ----

  lemma CeilRounds(r: real)
    ensures Ceil(r) as real - 1.0 < r <= Ceil(r) as real
  {
    assert (-r).Floor as real <= -r;
  }

  /** Main result. A delay is rounded up to the nanosecond, so it is never shorter than the server asked
      for, up to a hundred years and no further. */
  lemma DelayNeverShort(f: real)
    requires 0.0 <= f
    ensures var d := ParseSeconds(Number(f));
            && d.Some?
            && (d.value as real >= f * SECOND as real <==> f <= MAX_SECONDS as real)
            && (f <= MAX_SECONDS as real ==> (d.value as real) < f * SECOND as real + 1.0)
            && 0 <= d.value <= MAX_SECONDS * SECOND <= MAX_DURATION
  {
    var m := SmallerOf(f, MAX_SECONDS as real) * SECOND as real;
    CeilRounds(m);
    assert m <= (MAX_SECONDS * SECOND) as real;
  }

  /** A count is rounded down, the careful direction for what is left. */
  lemma CountNeverHigh(f: real)
    requires 0.0 <= f
    ensures var n := ParseCount(Number(f));
            n.Some? && 0 <= n.value <= MAX_COUNT && n.value as real <= f
    ensures f <= MAX_COUNT as real ==> f < ParseCount(Number(f)).value as real + 1.0
  {
    var m := SmallerOf(f, MAX_COUNT as real);
    assert m.Floor as real <= m < m.Floor as real + 1.0;
  }

  /** A reset is rounded down: less than a nanosecond before the instant the server named. */
  lemma ResetWithinANanosecond(f: real)
    requires 0.0 < f <= 1e11
    ensures ParseEpoch(Number(f)).Some?
    ensures var exact := (UNIX as real + f) * SECOND as real;
            var t := ParseEpoch(Number(f)).value as real;
            t <= exact < t + 1.0
  {
    var sec := f.Floor;
    var frac := (f - sec as real) * SECOND as real;
    assert frac.Floor as real <= frac < frac.Floor as real + 1.0;
    assert ((UNIX + sec) * SECOND) as real == (UNIX as real + sec as real) * SECOND as real;
  }

  // ---- what each header contributes ----

  /** The text says how many, or how long: a number that is not negative, or infinity. */
  predicate Stated(v: Field) {
    v.Infinite? || (v.Number? && v.f >= 0.0)
  }

  /** Which texts are read, and as what at the ends of their range: a count is at most 2^31 - 1, a delay at most a
      hundred years, and an instant comes after 1970 and no later than the 1e11th second. */
  lemma ReadExactly(v: Field)
    ensures ParseCount(v).Some? <==> Stated(v)
    ensures ParseSeconds(v).Some? <==> Stated(v)
    ensures v.Infinite? || (v.Number? && v.f >= 2_147_483_647.0) ==> ParseCount(v) == Some(2_147_483_647)
    ensures v.Infinite? || (v.Number? && v.f >= 3_153_600_000.0) ==> ParseSeconds(v) == Some(3_153_600_000 * SECOND)
    ensures ParseEpoch(v).Some? <==> v.Number? && 0.0 < v.f <= 1e11
  {
    if v.Number? && v.f >= 3_153_600_000.0 {
      CeilOfWhole(3_153_600_000 * SECOND);
      assert 3_153_600_000.0 * SECOND as real == (3_153_600_000 * SECOND) as real;
    }
    assert (2_147_483_647 as real).Floor == 2_147_483_647;
  }

  lemma CeilOfWhole(n: int)
    ensures Ceil(n as real) == n
  {
    assert -(n as real) == (-n) as real;
  }

  /** What is left is what the response states, or else its limit less what was used, never below zero; without
      either it is unknown. */
  lemma RemainingExactly(r: Response)
    ensures ParseRemaining(r).Some? <==> Stated(r.remaining) || (Stated(r.limit) && Stated(r.used))
    ensures Stated(r.remaining) ==> ParseRemaining(r) == ParseCount(r.remaining)
    ensures !Stated(r.remaining) && Stated(r.limit) && Stated(r.used) ==>
              ParseRemaining(r) == Some(Max(0, OrElse(ParseCount(r.limit), 0) - OrElse(ParseCount(r.used), 0)))
  {
  }

  /** How long a Retry-After asks to wait: its seconds, or the time to its date, as far as a duration can tell and
      never below zero; without a readable one nothing. */
  function Wait(v: Field, now: Time): int {
    if v.Date? then Max(0, Min(v.t - now, MAX_DURATION)) else OrElse(ParseSeconds(v), 0)
  }

  /** Main result. The signal of a response, field by field: refused is a 429, a 403 with a readable Retry-After or
      with nothing left, and a 503 with a readable Retry-After; the wait is Retry-After's, or the advisory delay where
      the response is not refused and has none; the quota is known exactly when what is left is. Nothing is reported
      exactly when no header says anything and the response is not refused. */
  lemma SignalOfExactly(r: Response, key: string, now: Time)
    ensures var (x, found) := Parse(r, key, now);
            var asked := Stated(r.retryAfter) || r.retryAfter.Date?;
            var wait := Wait(r.retryAfter, now);
            && x.key == key
            && (x.throttled <==>
                  r.status == 429 || (r.status == 403 && (asked || ParseRemaining(r) == Some(0))) || (r.status == 503 && asked))
            && x.retryAfter == (if wait == 0 && !x.throttled && Stated(r.delay) then ParseSeconds(r.delay).value else wait)
            && x.resetAt == OrElse(ParseEpoch(r.reset), 0)
            && (x.hasQuota <==> ParseRemaining(r).Some?)
            && x.remaining == OrElse(ParseRemaining(r), 0)
            && x.limit == (if x.hasQuota && Stated(r.limit) then ParseCount(r.limit).value else 0)
            && (found <==>
                  || x.throttled || asked || Stated(r.remaining) || Stated(r.limit) || Stated(r.used)
                  || ParseEpoch(r.reset).Some? || Stated(r.delay) || r.namesResource)
  {
    ReadExactly(r.retryAfter);
    ReadExactly(r.remaining);
    ReadExactly(r.limit);
    ReadExactly(r.used);
    ReadExactly(r.delay);
    ReadExactly(r.reset);
    if ParseEpoch(r.reset).Some? {
      ResetWithinANanosecond(r.reset.f);
    }
  }

  /** Main result. The deadline of a refusal is exactly the later of the end of its wait, when it asks for one, and
      its reset. */
  lemma RefusalDeadlineExactly(r: Response, key: string, now: Time)
    requires Refuses(r, now)
    ensures var wait, reset := Wait(r.retryAfter, now), OrElse(ParseEpoch(r.reset), 0);
            Deadline(Parse(r, key, now).0, now) == Max(if wait > 0 then now + wait else 0, reset)
  {
    SignalOfExactly(r, key, now);
  }

  // ---- what a response does to the governor ----

  /** A response with nothing to report would have changed nothing. */
  lemma NothingLostUnreported(s: Setup, y: System, r: Response, key: string, now: Time)
    requires !Parse(r, key, now).1
    ensures Step(s, y, Observe(Parse(r, key, now).0, now)) == y
  {
    var x := Parse(r, key, now).0;
    assert Classify(x, now).Nothing?;
  }

  predicate Refuses(r: Response, now: Time) {
    || r.status == TOO_MANY_REQUESTS
    || ((r.status == FORBIDDEN || r.status == SERVICE_UNAVAILABLE) && ParseRetryAfter(r.retryAfter, now).1)
    || (r.status == FORBIDDEN && ParseRemaining(r) == Some(0))
  }

  /** Main result. A response the server did not refuse slows its key down exactly when at most a quarter
      of a known quota is left, when it asks for a delay under either header, or when it names a future
      reset without counters. */
  lemma AdvisoryExactly(r: Response, key: string, now: Time)
    requires !Refuses(r, now)
    ensures var (x, found) := Parse(r, key, now);
            && !Classify(x, now).Throttled?
            && (Classify(x, now).Advisory? <==>
                || (var n, m := ParseRemaining(r), ParseCount(r.limit);
                    n.Some? && m.Some? && m.value > 0 && 4 * n.value <= m.value)
                || ParseRetryAfter(r.retryAfter, now).0 > 0
                || OrElse(ParseSeconds(r.delay), 0) > 0
                || (ParseRemaining(r).None? && OrElse(ParseEpoch(r.reset), 0) > now))
            && (Classify(x, now).Advisory? ==> found)
  {
    var (after, hasAfter) := ParseRetryAfter(r.retryAfter, now);
    if ParseSeconds(r.retryAfter).Some? {
      SecondsAreWhole(r.retryAfter);
    }
    if ParseSeconds(r.delay).Some? {
      SecondsAreWhole(r.delay);
    }
  }

  lemma SecondsAreWhole(v: Field)
    requires ParseSeconds(v).Some?
    ensures 0 <= ParseSeconds(v).value <= MAX_DURATION
  {
    if v.Number? {
      DelayNeverShort(v.f);
    }
  }

  /** A refusal is reported, as one, and its deadline is no earlier than either header names. */
  lemma RefusalKeepsDeadlines(r: Response, key: string, now: Time)
    requires Refuses(r, now)
    ensures var (x, found) := Parse(r, key, now);
            && found && x.throttled && x.key == key
            && (r.retryAfter.Number? && 0.0 <= r.retryAfter.f <= MAX_SECONDS as real ==>
                  Deadline(x, now) as real >= now as real + r.retryAfter.f * SECOND as real || r.retryAfter.f == 0.0)
            && (r.retryAfter.Date? && now < r.retryAfter.t <= now + MAX_DURATION ==> Deadline(x, now) >= r.retryAfter.t)
            && Deadline(x, now) >= OrElse(ParseEpoch(r.reset), 0)
  {
    var x := Parse(r, key, now).0;
    if r.retryAfter.Number? && 0.0 <= r.retryAfter.f <= MAX_SECONDS as real {
      DelayNeverShort(r.retryAfter.f);
      assert x.retryAfter == ParseSeconds(r.retryAfter).value;
    }
  }

  /** Main result, end to end. After a response that refuses a call and asks in Retry-After for up to a
      hundred years, no call that names its key is granted before that many seconds have passed, whatever
      happens in between. */
  lemma RetryAfterBlocks(
    s: Setup, y: System, r: Response, key: string, at: Time,
    ops: seq<Op>, keys: seq<string>, now: Time, draw: Option<nat>)
    requires !s.ignoreSignals && key != "" && key in Named(keys)
    requires r.status in [TOO_MANY_REQUESTS, FORBIDDEN, SERVICE_UNAVAILABLE]
    requires r.retryAfter.Number? && 0.0 <= r.retryAfter.f <= MAX_SECONDS as real
    requires at as real <= now as real < at as real + r.retryAfter.f * SECOND as real
    ensures Parse(r, key, at).1
    ensures var y' := After(s, Step(s, y, Observe(Parse(r, key, at).0, at)), ops);
            IsThrottled(Answer(s, y', keys, now, draw))
  {
    RefusalKeepsDeadlines(r, key, at);
    DeadlineIsABarrier(s, y, Parse(r, key, at).0, at, ops, keys, now, draw);
  }

  /** The same for a Retry-After that is a date. */
  lemma RetryDateBlocks(
    s: Setup, y: System, r: Response, key: string, at: Time,
    ops: seq<Op>, keys: seq<string>, now: Time, draw: Option<nat>)
    requires !s.ignoreSignals && key != "" && key in Named(keys)
    requires r.status in [TOO_MANY_REQUESTS, FORBIDDEN, SERVICE_UNAVAILABLE]
    requires r.retryAfter.Date? && at <= now < r.retryAfter.t <= at + MAX_DURATION
    ensures Parse(r, key, at).1
    ensures var y' := After(s, Step(s, y, Observe(Parse(r, key, at).0, at)), ops);
            IsThrottled(Answer(s, y', keys, now, draw))
  {
    RefusalKeepsDeadlines(r, key, at);
    DeadlineIsABarrier(s, y, Parse(r, key, at).0, at, ops, keys, now, draw);
  }

  const MISSING_ALL := Response(TOO_MANY_REQUESTS, Missing, Missing, Missing, Missing, Missing, Missing, false)

  /** The latest X-RateLimit-Reset the parser takes names an instant in the year 5138. */
  lemma LatestResetRefuses(key: string, at: Time)
    requires at < (UNIX + 100_000_000_000) * SECOND
    ensures var (x, found) := Parse(MISSING_ALL.(reset := Number(1e11)), key, at);
            found && x.throttled && x.key == key && Deadline(x, at) == (UNIX + 100_000_000_000) * SECOND
  {
    LatestReset();
  }

  /** Received before the year 4846, such a refusal names a deadline further away than a duration can say: a
      call that comes back when told to, with no signal in between, is throttled again. */
  lemma WakesTooEarly(s: Setup, y: System, x: Signal, key: string, at: Time, draw: Option<nat>, again: Option<nat>)
    requires !s.ignoreSignals && key != ""
    requires (x, true) == Parse(MISSING_ALL.(reset := Number(1e11)), key, at)
    requires at + MAX_DURATION < (UNIX + 100_000_000_000) * SECOND
    ensures ThrottledAgain(s, Step(s, y, Observe(x, at)), key, at, draw, again)
  {
    LatestResetRefuses(key, at);
    FarRefusalWakesTooEarly(s, y, x, at, draw, again);
  }

  /** Any refusal with a deadline that far away does. */
  lemma FarRefusalWakesTooEarly(s: Setup, y: System, x: Signal, at: Time, draw: Option<nat>, again: Option<nat>)
    requires !s.ignoreSignals && x.key != "" && x.throttled && at + MAX_DURATION < Deadline(x, at)
    ensures ThrottledAgain(s, Step(s, y, Observe(x, at)), x.key, at, draw, again)
  {
    ObservedLine(s, y, x, at, x.key);
    FarHoldThrottlesAgain(s, Step(s, y, Observe(x, at)), x.key, at, draw, again);
  }

  lemma LatestReset()
    ensures ParseEpoch(Number(1e11)) == Some((UNIX + 100_000_000_000) * SECOND)
  {
    assert (1e11).Floor == 100_000_000_000;
  }
}
