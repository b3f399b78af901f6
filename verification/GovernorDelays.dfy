/** When a deferral's delay is positive, and what the delay on the startup ramp is. */
module GovernorDelays {
  import opened Arithmetic
  import opened Clock
  import opened KeySets
  import opened Saturation
  import opened GovernorState
  import opened GovernorRuns

  /** The local capacity is still 1 before the first sample, and below the ceiling while it ramps. */
  predicate RampSound(s: Setup, g: State) {
    && (g.memory.lastStep == 0 ==> g.local.capacity == 1 || s.saturation.None?)
    && (g.memory.lastStep != 0 && g.local.ramping ==> g.local.capacity < Ceiling(s, g))
    && (s.saturation.None? ==> !g.local.ramping)
  }

  lemma StepRampSound(s: Setup, y: System, op: Op)
    requires Sensible(s) && RampSound(s, y.g) && (op.TakeSample? ==> op.now > 0)
    ensures RampSound(s, Step(s, y, op).g)
  {
    CeilingPositive(s, y.g);
    if op.AcquireAll? {
      AllOrNothing(s, y.g, op.keys, op.now, op.draw);
    }
  }

  predicate ClockStarted(ops: seq<Op>) {
    forall i :: 0 <= i < |ops| && ops[i].TakeSample? ==> ops[i].now > 0
  }

  lemma {:induction false} RunRampSound(s: Setup, y: System, ops: seq<Op>)
    requires Sensible(s) && RampSound(s, y.g) && ClockStarted(ops)
    ensures RampSound(s, After(s, y, ops).g)
    decreases |ops|
  {
    if ops != [] {
      StepRampSound(s, y, ops[0]);
      assert forall i :: 0 <= i < |ops[1..]| ==> ops[1..][i] == ops[i + 1];
      RunRampSound(s, Step(s, y, ops[0]), ops[1..]);
    }
  }

  /** Jitter keeps to its range, and reaches all of it. */
  lemma JitterCovers(lo: int, hi: int, d: int)
    requires lo < hi && lo <= d <= hi
    ensures forall draw :: lo <= JitterBetween(lo, hi, draw) <= hi
    ensures exists draw :: JitterBetween(lo, hi, draw) == d
  {
    assert JitterBetween(lo, hi, Some(d - lo)) == d;
  }

  lemma JitterPositive(hi: int, draw: Option<nat>)
    ensures Jitter(hi, draw) > 0 <==> hi > 0
  {
  }

  predicate IsRamping(d: Option<Deferral>) {
    d.Some? && d.value.reason.DeferRamping?
  }

  /** Before a call: its scopes have room once touched, the local capacity is full, nothing is saturated,
      and the sampler is at work on its startup ramp. */
  predicate AwaitsRamp(s: Setup, y: System, keys: seq<string>, now: Time) {
    var g1 := Touched(s, y.g, Named(keys), now);
    && (forall k :: k in Named(keys) ==> Room(g1, k, now))
    && y.g.localInFlight >= y.g.local.capacity
    && y.g.local.cause == []
    && y.g.local.ramping
    && y.g.samplerStarted
  }

  /** The longest delay a call on the ramp may get. */
  function LongestRampDelay(s: Setup, g: State): int {
    Min(s.recovery, RampLeft(s, g, g.local.capacity))
  }

  /** A call is deferred quietly exactly when it awaits the ramp; then its delay is drawn up to the longest
      one. Every other delay is positive. */
  lemma QuietExactly(s: Setup, y: System, keys: seq<string>, now: Time, draw: Option<nat>)
    requires Sensible(s)
    ensures var d := Answer(s, y, keys, now, draw);
            && (IsRamping(d) <==> AwaitsRamp(s, y, keys, now))
            && (IsRamping(d) ==> d.value.requeueAfter == Jitter(LongestRampDelay(s, y.g), draw)
                                 && d.value.capacity == y.g.local.capacity)
            && (d.Some? && !IsRamping(d) ==> d.value.requeueAfter > 0)
  {
    NormalizeKeepsNames(keys);
    var ks := Normalize(keys);
    assert SetOf(ks) == Named(keys);
    AnswerIsRefusal(s, y, keys, now, draw);
    RefusalQuiet(s, Touched(s, y.g, SetOf(ks), now), ks, now, draw);
    AwaitsTouched(s, y, keys, ks, now);
  }

  lemma AwaitsTouched(s: Setup, y: System, keys: seq<string>, ks: seq<string>, now: Time)
    requires SetOf(ks) == Named(keys)
    ensures var g1 := Touched(s, y.g, SetOf(ks), now);
            && (AwaitsRamp(s, y, keys, now) <==> RampsFor(g1, ks, now))
            && LongestRampDelay(s, g1) == LongestRampDelay(s, y.g)
            && g1.local == y.g.local
  {
    assert forall k :: k in ks <==> k in SetOf(ks);
  }

  /** Nothing but the local capacity, on its ramp, stops a call for ks. */
  predicate RampsFor(g: State, ks: seq<string>, now: Time)
    requires forall k :: k in ks ==> k in g.keys
  {
    && (forall k :: k in ks ==> Room(g, k, now))
    && g.localInFlight >= g.local.capacity
    && g.local.cause == [] && g.local.ramping && g.samplerStarted
  }

  lemma RefusalQuiet(s: Setup, g: State, ks: seq<string>, now: Time, draw: Option<nat>)
    requires Sensible(s) && forall k :: k in ks ==> k in g.keys
    ensures var d := Refusal(s, g, ks, now, draw);
            && (IsRamping(d) <==> RampsFor(g, ks, now))
            && (IsRamping(d) ==> d.value.requeueAfter == Jitter(LongestRampDelay(s, g), draw)
                                 && d.value.capacity == g.local.capacity)
            && (d.Some? && !IsRamping(d) ==> d.value.requeueAfter > 0)
  {
    LatestHeldIsLatest(g.keys, ks, now);
    FirstFullIsFull(g.keys, ks);
    JitterPositive(s.recovery, draw);
    var held, full := LatestHeld(g.keys, ks, now), FirstFull(g.keys, ks);
    if held.Some? {
      assert !Room(g, held.value, now);
    } else if full.Some? {
      assert !Room(g, full.value, now);
    }
  }

  /** Main result. A call is deferred without a positive delay, and so never comes back by itself, exactly
      when it awaits the ramp and the time left on the ramp, as a duration, is not positive. */
  lemma DelayPositiveExactly(s: Setup, y: System, keys: seq<string>, now: Time, draw: Option<nat>)
    requires Sensible(s)
    ensures var d := Answer(s, y, keys, now, draw);
            (d.Some? && d.value.requeueAfter <= 0) <==>
            AwaitsRamp(s, y, keys, now) && RampLeft(s, y.g, y.g.local.capacity) <= 0
  {
    QuietExactly(s, y, keys, now, draw);
    JitterPositive(LongestRampDelay(s, y.g), draw);
  }

  /** The steps the ramp still needs, at their pace, in exact time. */
  function ExactRampLeft(s: Setup, g: State): int {
    match s.saturation
    case None => 0
    case Some(o) => (Ceiling(s, g) - g.local.capacity) * RampPace(o)
  }

  /** The time left on the ramp is exact while it fits a duration, and never more than exact; it is lost
      exactly when the exact time is a multiple of 2^64, or has its 64th bit set. */
  lemma RampLeftExactly(s: Setup, g: State)
    requires Sensible(s) && g.local.capacity <= Ceiling(s, g)
    ensures var p := ExactRampLeft(s, g);
            var left := RampLeft(s, g, g.local.capacity);
            && 0 <= p && left <= p
            && (p <= MAX_DURATION ==> left == p)
            && (left <= 0 <==> p % TWO_64 == 0 || p % TWO_64 >= TWO_63)
            && (s.saturation.Some? ==> (p == 0 <==> g.local.capacity == Ceiling(s, g)))
  {
    if s.saturation.Some? {
      var gap := Ceiling(s, g) - g.local.capacity;
      MoreIsMore(0, gap, RampPace(s.saturation.value));
      if gap > 0 {
        MoreIsMore(1, gap, RampPace(s.saturation.value));
      }
      WrapsExactly(ExactRampLeft(s, g));
    }
  }

  lemma WrapsExactly(p: nat)
    ensures Wrapped(p) <= p && (p <= MAX_DURATION ==> Wrapped(p) == p)
    ensures Wrapped(p) <= 0 <==> p % TWO_64 == 0 || p % TWO_64 >= TWO_63
  {
    var q, r := p / TWO_64, p % TWO_64;
    assert p == q * TWO_64 + r;
    if r < TWO_63 {
      Remainder(p + TWO_63, TWO_64, q, r + TWO_63);
    } else {
      Remainder(p + TWO_63, TWO_64, q + 1, r - TWO_63);
    }
  }

  lemma Remainder(c: int, d: int, q: int, r: int)
    requires 0 < d && 0 <= r < d && c == q * d + r
    ensures c % d == r
  {
    Quotient(c, d, q, r);
    assert c == (c / d) * d + c % d;
  }

  /** Main result. In every reachable state on the ramp there are two ways to lose the delay: a ceiling of 1
      before the first sample, where no step is left; and a time left that no duration can hold. */
  lemma LostOnlyTwoWays(s: Setup, ops: seq<Op>)
    requires Sensible(s) && ClockStarted(ops)
    ensures var g := After(s, Begin(s), ops).g;
            && g.local.capacity <= Ceiling(s, g)
            && (g.local.ramping && RampLeft(s, g, g.local.capacity) <= 0 ==>
                  (Ceiling(s, g) == 1 && g.memory.lastStep == 0) || ExactRampLeft(s, g) > MAX_DURATION)
            && (g.local.ramping && Ceiling(s, g) == 1 && g.memory.lastStep == 0 ==>
                  RampLeft(s, g, g.local.capacity) <= 0)
  {
    var y := After(s, Begin(s), ops);
    RunRampSound(s, Begin(s), ops);
    BeginSound(s);
    AlwaysSound(s, Begin(s), ops);
    RampLeftExactly(s, y.g);
  }

  /** In every reachable state a quiet deferral's delay is at most what the ramp still needs in whole steps
      from the call on, and at most RecoveryInterval. */
  lemma RampingDelayBound(s: Setup, ops: seq<Op>, keys: seq<string>, now: Time, draw: Option<nat>)
    requires Sensible(s) && IsRamping(Answer(s, After(s, Begin(s), ops), keys, now, draw))
    ensures var y := After(s, Begin(s), ops);
            var d := Answer(s, y, keys, now, draw).value;
            && d.requeueAfter <= RampLeft(s, y.g, y.g.local.capacity) <= ExactRampLeft(s, y.g)
            && d.requeueAfter <= s.recovery
  {
    var y := After(s, Begin(s), ops);
    BeginSound(s);
    AlwaysSound(s, Begin(s), ops);
    QuietExactly(s, y, keys, now, draw);
    RampLeftExactly(s, y.g);
  }

  /** A first call is granted, and takes the only local slot there is. */
  lemma FirstCallGranted(s: Setup, y: System, k: string, now: Time)
    requires Sensible(s) && k != "" && k !in y.g.keys && y.g.localInFlight == 0 && y.g.local.capacity == 1
    ensures var y' := Step(s, y, AcquireAll([k], now, None));
            && y'.g.localInFlight == 1 && y'.g.keys.Keys == y.g.keys.Keys + {k}
            && y'.g == y.g.(keys := y'.g.keys, localInFlight := 1)
  {
    OneName(k);
    CeilingPositive(s, y.g);
    AllOrNothing(s, y.g, [k], now, None);
  }

  /** With the only local slot out, a call for another key is deferred on the ramp, up to its end. */
  lemma NextCallRamps(s: Setup, y: System, k: string, now: Time)
    requires Sensible(s) && s.saturation.Some? && k != "" && k !in y.g.keys
    requires y.g.localInFlight == y.g.local.capacity == 1 && y.g.local.cause == []
    requires y.g.local.ramping && y.g.samplerStarted
    ensures var d := Answer(s, y, [k], now, None);
            && d.Some? && d.value.reason.DeferRamping?
            && d.value.requeueAfter == Min(s.recovery, RampLeft(s, y.g, 1))
  {
    OneName(k);
    CeilingPositive(s, y.g);
    var g1 := Touched(s, y.g, {k}, now);
    assert SetOf([k]) == {k};
    AnswerIsRefusal(s, y, [k], now, None);
    LatestHeldIsLatest(g1.keys, [k], now);
    FirstFullIsFull(g1.keys, [k]);
  }

  /** The exception is reachable: one worker, the sampler started but no sample taken, one call out. */
  lemma ZeroDelayIsReachable(o: Options, a: string, b: string, now: Time)
    requires Usable(o) && a != "" && b != "" && a != b
    ensures var s := Setup(1, false, 30 * SECOND, Some(o));
            var y := After(s, Begin(s), [StartSampler, AcquireAll([a], now, None)]);
            var d := Answer(s, y, [b], now, None);
            d.Some? && d.value.reason.DeferRamping? && d.value.requeueAfter == 0
  {
    var s := Setup(1, false, 30 * SECOND, Some(o));
    var y1 := Step(s, Begin(s), StartSampler);
    FirstCallGranted(s, y1, a, now);
    var y2 := Step(s, y1, AcquireAll([a], now, None));
    RunOfTwo(s, Begin(s), StartSampler, AcquireAll([a], now, None));
    NextCallRamps(s, y2, b, now);
    NothingLeftToRamp(s, y2.g);
  }

  lemma NothingLeftToRamp(s: Setup, g: State)
    requires s.saturation.Some? && Ceiling(s, g) == 1
    ensures RampLeft(s, g, 1) == 0
  {
  }

  lemma RunOfTwo(s: Setup, y: System, a: Op, b: Op)
    ensures After(s, y, [a, b]) == Step(s, Step(s, y, a), b)
  {
    assert [a, b][1..] == [b] && [b][1..] == [];
    var z := Step(s, Step(s, y, a), b);
    assert After(s, z, []) == z;
    assert After(s, Step(s, y, a), [b]) == z;
  }

  /** The other is reachable too: a thousand workers with a startup step of 2600 hours, a clean sample taken,
      one call out. The time left is some 296 years, and wraps to a negative delay. */
  lemma NegativeDelayIsReachable(o: Options, x: Sample, a: string, b: string, now: Time)
    requires Usable(o) && o.rampInterval == 2600 * 3600 * SECOND && o.samplePeriod <= o.rampInterval
    requires !Saturated(o, x) && a != "" && b != "" && a != b
    ensures var s := Setup(1000, false, 30 * SECOND, Some(o));
            var y := After(s, Step(s, Begin(s), StartSampler), [TakeSample(x, SECOND), AcquireAll([a], SECOND, None)]);
            var d := Answer(s, y, [b], now, None);
            Sensible(s) && d.Some? && d.value.reason.DeferRamping? && d.value.requeueAfter < 0
  {
    var s := Setup(1000, false, 30 * SECOND, Some(o));
    var y1 := Step(s, Begin(s), StartSampler);
    var y2 := Step(s, y1, TakeSample(x, SECOND));
    assert y2.g.local == LocalState(1, [], true);
    FirstCallGranted(s, y2, a, SECOND);
    var y3 := Step(s, y2, AcquireAll([a], SECOND, None));
    RunOfTwo(s, y1, TakeSample(x, SECOND), AcquireAll([a], SECOND, None));
    NextCallRamps(s, y3, b, now);
    RampWraps(s, y3.g);
  }

  lemma RampWraps(s: Setup, g: State)
    requires s.saturation.Some? && RampPace(s.saturation.value) == 2600 * 3600 * SECOND && Ceiling(s, g) == 1000
    ensures RampLeft(s, g, 1) < 0
  {
  }
}
