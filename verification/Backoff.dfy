/** The work queue's rate limiter: capped exponential backoff that stops counting an item once it has
    been idle too long (pkg/workqueue/workqueue.go). */
module Backoff {
  import opened Arithmetic
  import opened Clock

  /** base and max are the delays New was given. overflow is what the platform makes of a float that does
      not fit a duration. */
  datatype Config = Config(base: Duration, max: Duration, overflow: Duration)

  datatype Failure = Failure(attempts: nat, last: Time)

  type Failures<!T> = map<T, Failure>

  /** How long an item may be idle. */
  function Limit(c: Config): Duration {
    Wrapped(2 * c.max)
  }

  predicate Idle(c: Config, f: Failure, now: Time) {
    Sub(now, f.last) > Limit(c)
  }

  function ToDuration(c: Config, x: int): Duration {
    if -TWO_63 <= x < TWO_63 then x else c.overflow
  }

  /** The delay after exp earlier attempts. The test against the largest duration is strict, and the
      float it compares with is 2^63. */
  function Delay(c: Config, exp: nat): Duration {
    var backoff := c.base * Pow2(exp);
    if backoff > TWO_63 then c.max
    else if ToDuration(c, backoff) > c.max then c.max
    else ToDuration(c, backoff)
  }

  /** When: the failures afterwards, and the delay. checked and stamped are its two clock readings. */
  function WhenAsked<T>(c: Config, f: Failures<T>, item: T, checked: Time, stamped: Time): (Failures<T>, Duration) {
    if item !in f then (f[item := Failure(1, stamped)], c.base)
    else if Idle(c, f[item], checked) then (f, 0)
    else (f[item := Failure(f[item].attempts + 1, stamped)], Delay(c, f[item].attempts))
  }

  /** Forget drops an item only once it is idle. */
  function Forgotten<T>(c: Config, f: Failures<T>, item: T, now: Time): Failures<T> {
    if item in f && Idle(c, f[item], now) then f - {item} else f
  }

  class RateLimiter<T(==)> {
    const c: Config
    var failures: Failures<T>

    constructor (c: Config)
      ensures this.c == c && failures == map[]
    {
      this.c, failures := c, map[];
    }

    method When(item: T, checked: Time, stamped: Time) returns (delay: Duration)
      modifies this
      ensures (failures, delay) == WhenAsked(c, old(failures), item, checked, stamped)
    {
      if item !in failures {
        failures := failures[item := Failure(1, stamped)];
        return c.base;
      }
      var failreq := failures[item];
      if Sub(checked, failreq.last) > Limit(c) {
        return 0;
      }
      var exp := failreq.attempts;
      failreq := Failure(failreq.attempts + 1, stamped);
      failures := failures[item := failreq];
      var backoff := c.base * Pow2(exp);
      if backoff > TWO_63 {
        return c.max;
      }
      var calculated := ToDuration(c, backoff);
      if calculated > c.max {
        return c.max;
      }
      return calculated;
    }

    method NumRequeues(item: T) returns (n: nat)
      ensures n == Attempts(failures, item)
    {
      return if item in failures then failures[item].attempts else 0;
    }

    /** A missing item reads as one last tried at the zero time; deleting it does nothing either way. */
    method Forget(item: T, now: Time)
      modifies this
      ensures failures == Forgotten(c, old(failures), item, now)
    {
      var last := if item in failures then failures[item].last else 0;
      if Sub(now, last) > Limit(c) {
        failures := failures - {item};
      }
      assert item !in old(failures) ==> failures == old(failures);
    }
  }

  // ---- the closed form ----

  /** The n-th delay of a streak as it is meant to be. */
  function Meant(c: Config, n: nat): int
    requires n > 0
  {
    if n == 1 then c.base else Min(c.max, c.base * Pow2(n - 1))
  }

  /** The n-th delay of a streak as it comes out. */
  function Nth(c: Config, n: nat): int
    requires n > 0
  {
    if n == 1 then c.base else Delay(c, n - 1)
  }

  predicate PowerOfTwo(b: int) {
    exists j :: 0 <= j < 63 && b == Pow2(j)
  }

  lemma TwoTo63()
    ensures Pow2(63) == TWO_63
  {
    assert Pow2(16) == 0x1_0000;
    Pow2Sum(16, 16);
    assert Pow2(32) == 0x1_0000_0000;
    Pow2Sum(15, 16);
    Pow2Sum(31, 32);
    assert Pow2(15) == 0x8000;
    assert Pow2(31) == 0x8000_0000;
  }

  lemma Cancel(a: int, b: int, p: int)
    requires p > 0 && a * p == b * p
    ensures a == b
  {
    if a < b {
      MoreIsMore(a + 1, b, p);
      OneMore(a, p);
    } else if b < a {
      MoreIsMore(b + 1, a, p);
      OneMore(b, p);
    }
  }

  /** A base doubles to exactly 2^63 if and only if it is a power of two. */
  lemma DoublesToTheEdge(base: Duration, k: nat)
    requires 0 < base
    ensures base * Pow2(k) == TWO_63 <==> 0 < k <= 63 && base == Pow2(63 - k)
  {
    TwoTo63();
    if k <= 63 {
      Pow2Sum(63 - k, k);
      if base * Pow2(k) == TWO_63 {
        Cancel(base, Pow2(63 - k), Pow2(k));
      }
    } else {
      Pow2Grows(63, k);
      MoreIsMore(1, base, Pow2(k));
    }
  }

  lemma DelayMeant(c: Config, k: nat)
    requires 0 < c.base && 0 < k
    ensures Delay(c, k) == Min(c.max, c.base * Pow2(k)) <==> c.base * Pow2(k) != TWO_63 || c.overflow >= c.max
  {
    MoreIsMore(0, c.base, Pow2(k));
  }

  /** Main result. Every delay of every streak is base first and then min(max, base * 2^(n-1)), if and only
      if base is no power of two, in nanoseconds, or the platform makes at least max of an overflow. */
  lemma CappedExactly(c: Config)
    requires 0 < c.base
    ensures (forall n: nat :: n > 0 ==> Nth(c, n) == Meant(c, n)) <==>
            !PowerOfTwo(c.base) || c.overflow >= c.max
  {
    if PowerOfTwo(c.base) && c.overflow < c.max {
      var j :| 0 <= j < 63 && c.base == Pow2(j);
      DoublesToTheEdge(c.base, 63 - j);
      DelayMeant(c, 63 - j);
      assert Nth(c, 64 - j) != Meant(c, 64 - j);
    } else {
      forall n: nat | n > 0 ensures Nth(c, n) == Meant(c, n) {
        if n > 1 {
          DoublesToTheEdge(c.base, n - 1);
          DelayMeant(c, n - 1);
        }
      }
    }
  }

  /** The delays of a streak do not decrease. */
  lemma NeverSooner(c: Config, m: nat, n: nat)
    requires 0 < c.base <= c.max && 0 < m <= n
    requires !PowerOfTwo(c.base) || c.overflow >= c.max
    ensures Nth(c, m) <= Nth(c, n)
  {
    CappedExactly(c);
    assert Nth(c, m) == Meant(c, m) && Nth(c, n) == Meant(c, n);
    Pow2Grows(m - 1, n - 1);
    Scaled(c.base, Pow2(m - 1), Pow2(n - 1));
    Scaled(c.base, 1, Pow2(n - 1));
  }

  lemma Scaled(b: int, x: int, y: int)
    requires 0 < b && x <= y
    ensures b * x <= b * y
  {
    MoreIsMore(x, y, b);
  }

  // ---- runs ----

  datatype Op<T> = When(item: T, checked: Time, stamped: Time) | Forget(item: T, now: Time)

  function Step<T>(c: Config, f: Failures<T>, op: Op<T>): Failures<T> {
    match op
    case When(item, checked, stamped) => WhenAsked(c, f, item, checked, stamped).0
    case Forget(item, now) => Forgotten(c, f, item, now)
  }

  function After<T>(c: Config, f: Failures<T>, ops: seq<Op<T>>): Failures<T>
    decreases |ops|
  {
    if ops == [] then f else After(c, Step(c, f, ops[0]), ops[1..])
  }

  function CheckTime<T>(op: Op<T>): Time {
    if op.When? then op.checked else op.now
  }

  /** Every operation on item finds it busy: never tried, or tried recently enough. */
  predicate Busy<T(==)>(c: Config, f: Failures<T>, ops: seq<Op<T>>, item: T)
    decreases |ops|
  {
    ops == [] ||
    (&& (ops[0].item == item && item in f ==> !Idle(c, f[item], CheckTime(ops[0])))
     && Busy(c, Step(c, f, ops[0]), ops[1..], item))
  }

  function Asked<T(==)>(ops: seq<Op<T>>, item: T): nat {
    if ops == [] then 0
    else (if ops[0].When? && ops[0].item == item then 1 else 0) + Asked(ops[1..], item)
  }

  function Attempts<T>(f: Failures<T>, item: T): nat {
    if item in f then f[item].attempts else 0
  }

  predicate Counted<T>(f: Failures<T>, item: T) {
    item in f ==> f[item].attempts > 0
  }

  lemma {:induction false} BusyCounts<T>(c: Config, f: Failures<T>, ops: seq<Op<T>>, item: T)
    requires Counted(f, item) && Busy(c, f, ops, item)
    ensures Attempts(After(c, f, ops), item) == Attempts(f, item) + Asked(ops, item)
    ensures Counted(After(c, f, ops), item)
    decreases |ops|
  {
    if ops != [] {
      BusyCounts(c, Step(c, f, ops[0]), ops[1..], item);
    }
  }

  /** When item was last asked about, None when it never was. */
  function LastAsked<T(==)>(ops: seq<Op<T>>, item: T): Option<Time>
    decreases |ops|
  {
    if ops == [] then None
    else
      var rest := LastAsked(ops[1..], item);
      if rest.None? && ops[0].When? && ops[0].item == item then Some(ops[0].stamped) else rest
  }

  /** Main result. In a run that leaves an item busy it counts as idle exactly when it was asked about, and last more
      than twice the maximum ago. */
  lemma IdleExactly<T>(c: Config, ops: seq<Op<T>>, item: T, t: Time)
    requires Busy(c, map[], ops, item) && 0 <= 2 * c.max <= MAX_DURATION
    ensures var f, last := After(c, map[], ops), LastAsked(ops, item);
            && (item in f <==> last.Some?)
            && (item in f ==> (Idle(c, f[item], t) <==> Sub(t, last.value) > 2 * c.max))
  {
    LastIsStamped(c, map[], ops, item);
  }

  lemma {:induction false} LastIsStamped<T>(c: Config, f: Failures<T>, ops: seq<Op<T>>, item: T)
    requires Busy(c, f, ops, item)
    ensures var g, last := After(c, f, ops), LastAsked(ops, item);
            && (item in g <==> item in f || last.Some?)
            && (last.Some? ==> g[item].last == last.value)
            && (last.None? && item in f ==> g[item].last == f[item].last)
    decreases |ops|
  {
    if ops != [] {
      LastIsStamped(c, Step(c, f, ops[0]), ops[1..], item);
    }
  }

  /** Main result. Whatever happens to other items, and whatever is forgotten too early, the n-th When of an
      item's unbroken streak returns the n-th delay, and NumRequeues counts the streak. */
  lemma StreakFollowsTheClosedForm<T>(c: Config, ops: seq<Op<T>>, item: T, checked: Time, stamped: Time)
    requires Busy(c, map[], ops, item)
    requires var f := After(c, map[], ops); item in f ==> !Idle(c, f[item], checked)
    ensures var f := After(c, map[], ops);
            && Attempts(f, item) == Asked(ops, item)
            && WhenAsked(c, f, item, checked, stamped).1 == Nth(c, Asked(ops, item) + 1)
  {
    BusyCounts(c, map[], ops, item);
  }

  /** No operation on item from t on is a Forget, and clock readings for it do not go back before t. */
  predicate OnlyAsked<T(==)>(ops: seq<Op<T>>, item: T, t: Time) {
    forall i :: 0 <= i < |ops| && ops[i].item == item ==> ops[i].When? && t <= ops[i].checked
  }

  lemma IdleLater(c: Config, f: Failure, t: Time, u: Time)
    requires Idle(c, f, t) && t <= u
    ensures Idle(c, f, u)
  {
  }

  /** Main result. Once an item has been idle past the limit every When returns 0 at once and counts
      nothing, however often it is asked, until it is forgotten; then it starts over at base. */
  lemma {:induction false} IdleUntilForgotten<T>(
    c: Config, f: Failures<T>, ops: seq<Op<T>>, item: T, t: Time, u: Time, stamped: Time)
    requires item in f && Idle(c, f[item], t) && OnlyAsked(ops, item, t) && t <= u
    ensures var g := After(c, f, ops);
            && WhenAsked(c, g, item, u, stamped) == (g, 0)
            && item in g && g[item] == f[item]
            && WhenAsked(c, Forgotten(c, g, item, u), item, u, stamped).1 == c.base
    decreases |ops|
  {
    IdleLater(c, f[item], t, u);
    if ops != [] {
      assert ops[0].item == item ==> ops[0].When?;
      if ops[0].item == item {
        IdleLater(c, f[item], t, ops[0].checked);
      }
      assert forall i :: 0 <= i < |ops[1..]| ==> ops[1..][i] == ops[i + 1];
      IdleUntilForgotten(c, Step(c, f, ops[0]), ops[1..], item, t, u, stamped);
    }
  }

  /** An item asked about again at once stays in its streak exactly when max doubles without wrapping. */
  lemma StreakSurvivesExactly(c: Config, at: Time)
    requires 0 <= c.max
    ensures !Idle(c, Failure(1, at), at) <==> 2 * c.max <= MAX_DURATION
  {
  }
}
