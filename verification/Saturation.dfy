/** The controller's own saturation: a startup ramp, cuts, and additive recovery of the process-wide
    local capacity (pkg/ratelimit/saturation.go). */
module Saturation {
  import opened Arithmetic
  import opened Clock

  datatype Options = Options(
    samplePeriod: Duration,
    rampInterval: Duration,
    cpuThreshold: real,
    softRatio: real,
    hardRatio: real)

  /** Unset settings take their defaults; a setting out of range is refused. */
  function WithDefaults(o: Options): Option<Options> {
    var d := Options(
      if o.samplePeriod == 0 then SECOND else o.samplePeriod,
      if o.rampInterval == 0 then 2 * SECOND else o.rampInterval,
      if o.cpuThreshold == 0.0 then 50.0 else o.cpuThreshold,
      if o.softRatio == 0.0 then 0.80 else o.softRatio,
      if o.hardRatio == 0.0 then 0.90 else o.hardRatio);
    if d.samplePeriod < 0 || d.rampInterval < 0 then None
    else if d.cpuThreshold < 0.0 || d.cpuThreshold > 100.0 then None
    else if d.softRatio < 0.0 || d.hardRatio > 1.0 || d.softRatio > d.hardRatio then None
    else Some(d)
  }

  predicate Usable(o: Options) {
    && 0 < o.samplePeriod
    && 0 < o.rampInterval
    && 0.0 < o.cpuThreshold <= 100.0
    && 0.0 < o.softRatio <= o.hardRatio <= 1.0
  }

  /** Accepted settings are usable, and settled. */
  lemma DefaultsAreUsable(o: Options)
    ensures var d := WithDefaults(o); d.Some? ==> Usable(d.value) && WithDefaults(d.value) == d
    ensures Usable(o) ==> WithDefaults(o) == Some(o)
  {
  }

  /** One sample: the percentage of each input that is enabled. */
  datatype Sample = Sample(cpu: Option<real>, workingSet: Option<real>)

  datatype Cause = CpuPressure(percent: real) | WorkingSet(percent: real)

  /** The published local capacity. cause names what saturated the last sample, if anything did. */
  datatype LocalState = LocalState(capacity: int, cause: seq<Cause>, ramping: bool)

  /** The sampler's own memory: when capacity last changed or was last saturated, and whether it was
      ever cut. */
  datatype Memory = Memory(lastStep: Time, cut: bool)

  datatype Verdict = Verdict(hard: bool, causes: seq<Cause>)

  function Evaluate(o: Options, s: Sample): Verdict {
    var cpu := if s.cpu.Some? && s.cpu.value > o.cpuThreshold then [CpuPressure(s.cpu.value)] else [];
    var full := s.workingSet.Some? && s.workingSet.value >= o.softRatio * 100.0;
    var ws := if full then [WorkingSet(s.workingSet.value)] else [];
    Verdict(full && s.workingSet.value >= o.hardRatio * 100.0, cpu + ws)
  }

  predicate Saturated(o: Options, s: Sample) {
    Evaluate(o, s).hard || Evaluate(o, s).causes != []
  }

  /** The state that follows cur after sample s. */
  function Stepped(o: Options, m: Memory, cur: LocalState, s: Sample, now: Time, ceiling: int, recovery: int)
    : (LocalState, Memory)
  {
    var started := if m.lastStep == 0 then now else m.lastStep;
    var v := Evaluate(o, s);
    if v.hard then
      Published(LocalState(1, v.causes, false), Memory(now, true), ceiling)
    else if v.causes != [] then
      Published(LocalState(Max(1, cur.capacity / 2), v.causes, false), Memory(now, true), ceiling)
    else
      var wait := if m.cut then recovery else o.rampInterval;
      if cur.capacity < ceiling && Sub(now, started) >= wait then
        Published(LocalState(cur.capacity + 1, [], false), Memory(now, m.cut), ceiling)
      else
        Published(LocalState(cur.capacity, [], false), Memory(started, m.cut), ceiling)
  }

  function Published(l: LocalState, m: Memory, ceiling: int): (LocalState, Memory) {
    (l.(ramping := !m.cut && l.capacity < ceiling), m)
  }

  /** The inputs of a sample against their thresholds, in percent. */
  predicate CpuHot(o: Options, s: Sample) {
    s.cpu.Some? && s.cpu.value > o.cpuThreshold
  }

  predicate MemoryOver(ratio: real, s: Sample) {
    s.workingSet.Some? && s.workingSet.value >= ratio * 100.0
  }

  function HotCauses(o: Options, s: Sample): seq<Cause> {
    (if CpuHot(o, s) then [CpuPressure(s.cpu.value)] else [])
    + (if MemoryOver(o.softRatio, s) then [WorkingSet(s.workingSet.value)] else [])
  }

  /** Main result. One sample, in numbers: a working set at the hard ratio takes capacity to 1; CPU pressure above
      the threshold, or a working set at the soft ratio, halves it; both name what was hot, count as a cut and restart
      the interval. A clean sample names nothing and raises capacity by 1 exactly when it is under the ceiling and
      an interval has passed since it last changed: RecoveryInterval after a cut, StartupRampInterval before one. The
      first sample only starts the interval. */
  lemma SampleExactly(o: Options, m: Memory, cur: LocalState, s: Sample, now: Time, ceiling: int, recovery: int)
    requires Usable(o) && 0 < recovery
    ensures var (l, n) := Stepped(o, m, cur, s, now, ceiling, recovery);
            var hard, soft := MemoryOver(o.hardRatio, s), MemoryOver(o.softRatio, s) || CpuHot(o, s);
            var interval := if m.cut then recovery else o.rampInterval;
            var raised := cur.capacity < ceiling && m.lastStep != 0 && Sub(now, m.lastStep) >= interval;
            && l.cause == HotCauses(o, s) && (l.cause != [] <==> soft) && (hard ==> soft) && (Saturated(o, s) <==> soft)
            && l.capacity == (if hard then 1
                              else if soft then Max(1, cur.capacity / 2)
                              else if raised then cur.capacity + 1
                              else cur.capacity)
            && n == Memory(if soft || raised || m.lastStep == 0 then now else m.lastStep, m.cut || soft)
            && (l.ramping <==> !n.cut && l.capacity < ceiling)
  {
    assert o.softRatio * 100.0 <= o.hardRatio * 100.0;
  }

  class Sampler {
    const opts: Options
    var lastStep: Time
    var cut: bool

    function View(): Memory
      reads this
    {
      Memory(lastStep, cut)
    }

    constructor (opts: Options)
      ensures this.opts == opts && View() == Memory(0, false)
    {
      this.opts := opts;
      lastStep, cut := 0, false;
    }

    method Step(now: Time, s: Sample, cur: LocalState, ceiling: int, recovery: int) returns (next: LocalState)
      modifies this
      ensures (next, View()) == Stepped(opts, old(View()), cur, s, now, ceiling, recovery)
    {
      if lastStep == 0 {
        lastStep := now;
      }
      var v := Evaluate(opts, s);
      next := cur;
      if v.hard {
        next := next.(capacity := 1, cause := v.causes);
        cut, lastStep := true, now;
      } else if v.causes != [] {
        next := next.(capacity := Max(1, cur.capacity / 2), cause := v.causes);
        cut, lastStep := true, now;
      } else {
        next := next.(cause := []);
        var wait := opts.rampInterval;
        if cut {
          wait := recovery;
        }
        if cur.capacity < ceiling && Sub(now, lastStep) >= wait {
          next := next.(capacity := cur.capacity + 1);
          lastStep := now;
        }
      }
      next := next.(ramping := !cut && next.capacity < ceiling);
    }
  }

  // ---- runs of the sampler ----

  datatype Tick = Tick(s: Sample, now: Time, ceiling: int)

  function Sampled(o: Options, m: Memory, l: LocalState, recovery: int, ticks: seq<Tick>): (LocalState, Memory)
    decreases |ticks|
  {
    if ticks == [] then (l, m)
    else
      var (l', m') := Stepped(o, m, l, ticks[0].s, ticks[0].now, ticks[0].ceiling, recovery);
      Sampled(o, m', l', recovery, ticks[1..])
  }

  /** Time does not run backwards, from t on. */
  predicate Ordered(t: Time, ticks: seq<Tick>)
    decreases |ticks|
  {
    ticks == [] || (t <= ticks[0].now && Ordered(ticks[0].now, ticks[1..]))
  }

  function LastTime(t: Time, ticks: seq<Tick>): Time
    decreases |ticks|
  {
    if ticks == [] then t else LastTime(ticks[0].now, ticks[1..])
  }

  /** Capacity above base was earned one step at a time, pace apart, since origin. */
  predicate Earned(m: Memory, capacity: int, base: int, pace: int, origin: Time, now: Time) {
    && origin <= m.lastStep <= now
    && (capacity - base) * pace <= m.lastStep - origin
  }

  /** Nothing is earned faster than one step per pace. */
  lemma EarnedBound(m: Memory, capacity: int, base: int, pace: int, origin: Time, now: Time)
    requires 0 < pace && Earned(m, capacity, base, pace, origin, now)
    ensures capacity <= base + (now - origin) / pace
  {
    var a := capacity - base;
    var q := (now - origin) / pace;
    if a > q {
      assert (q + 1) * pace > now - origin;
      MoreIsMore(q + 1, a, pace);
    }
  }

  lemma {:induction false} RampEarned(
    o: Options, m: Memory, l: LocalState, recovery: int, ticks: seq<Tick>, origin: Time, now: Time)
    requires 0 < o.rampInterval && 0 < origin
    requires !m.cut && Earned(m, l.capacity, 1, o.rampInterval, origin, now) && Ordered(now, ticks)
    requires !Sampled(o, m, l, recovery, ticks).1.cut
    ensures var (l', m') := Sampled(o, m, l, recovery, ticks);
            Earned(m', l'.capacity, 1, o.rampInterval, origin, LastTime(now, ticks))
    decreases |ticks|
  {
    if ticks != [] {
      var t := ticks[0];
      var (l1, m1) := Stepped(o, m, l, t.s, t.now, t.ceiling, recovery);
      if m1.cut {
        CutStays(o, m1, l1, recovery, ticks[1..]);
      }
      OneMore(l.capacity - 1, o.rampInterval);
      RampEarned(o, m1, l1, recovery, ticks[1..], origin, t.now);
    }
  }

  lemma {:induction false} CutStays(o: Options, m: Memory, l: LocalState, recovery: int, ticks: seq<Tick>)
    requires m.cut
    ensures Sampled(o, m, l, recovery, ticks).1.cut
    ensures !l.ramping ==> !Sampled(o, m, l, recovery, ticks).0.ramping
    decreases |ticks|
  {
    if ticks != [] {
      var (l1, m1) := Stepped(o, m, l, ticks[0].s, ticks[0].now, ticks[0].ceiling, recovery);
      CutStays(o, m1, l1, recovery, ticks[1..]);
    }
  }

  /** Main result. As long as no sample has cut it, local capacity is at most one step per
      StartupRampInterval above 1 since the first sample. */
  lemma RampBound(o: Options, recovery: int, ticks: seq<Tick>)
    requires Usable(o)
    requires ticks != [] && 0 < ticks[0].now && Ordered(ticks[0].now, ticks)
    requires !Sampled(o, Memory(0, false), LocalState(1, [], true), recovery, ticks).1.cut
    ensures Sampled(o, Memory(0, false), LocalState(1, [], true), recovery, ticks).0.capacity <=
            1 + (LastTime(0, ticks) - ticks[0].now) / o.rampInterval
    ensures ticks[0].now <= LastTime(0, ticks)
  {
    var m := Memory(0, false);
    var l := LocalState(1, [], true);
    var t := ticks[0];
    var (l1, m1) := Stepped(o, m, l, t.s, t.now, t.ceiling, recovery);
    if m1.cut {
      CutStays(o, m1, l1, recovery, ticks[1..]);
    }
    RampEarned(o, m1, l1, recovery, ticks[1..], t.now, t.now);
    var (l', m') := Sampled(o, m1, l1, recovery, ticks[1..]);
    EarnedBound(m', l'.capacity, 1, o.rampInterval, t.now, LastTime(0, ticks));
  }

  lemma {:induction false} RecoveryEarned(
    o: Options, m: Memory, l: LocalState, recovery: int, ticks: seq<Tick>, base: int, origin: Time, now: Time)
    requires 0 < recovery <= MAX_DURATION && 0 < origin && 1 <= base && 1 <= l.capacity
    requires m.cut && Earned(m, l.capacity, base, recovery, origin, now) && Ordered(now, ticks)
    ensures var (l', m') := Sampled(o, m, l, recovery, ticks);
            Earned(m', l'.capacity, base, recovery, origin, LastTime(now, ticks)) && 1 <= l'.capacity
    decreases |ticks|
  {
    if ticks != [] {
      var t := ticks[0];
      var (l1, m1) := Stepped(o, m, l, t.s, t.now, t.ceiling, recovery);
      OneMore(l.capacity - base, recovery);
      if l1.capacity <= l.capacity {
        MoreIsMore(l1.capacity - base, l.capacity - base, recovery);
      }
      RecoveryEarned(o, m1, l1, recovery, ticks[1..], base, origin, t.now);
    }
  }

  /** Main result. After a saturated sample at t that left capacity c, capacity is at most one step per
      RecoveryInterval above c since t, whatever samples follow. */
  lemma RecoveryBound(o: Options, m: Memory, cur: LocalState, t: Tick, recovery: int, ticks: seq<Tick>)
    requires 0 < recovery <= MAX_DURATION && 0 < t.now && Saturated(o, t.s) && Ordered(t.now, ticks)
    ensures var (l, n) := Stepped(o, m, cur, t.s, t.now, t.ceiling, recovery);
            Sampled(o, n, l, recovery, ticks).0.capacity <=
            l.capacity + (LastTime(t.now, ticks) - t.now) / recovery
    ensures t.now <= LastTime(t.now, ticks)
  {
    var (l, n) := Stepped(o, m, cur, t.s, t.now, t.ceiling, recovery);
    RecoveryEarned(o, n, l, recovery, ticks, l.capacity, t.now, t.now);
    var (l', n') := Sampled(o, n, l, recovery, ticks);
    EarnedBound(n', l'.capacity, l.capacity, recovery, t.now, LastTime(t.now, ticks));
  }

  lemma HalvedAgain(c: nat, p: nat)
    requires 0 < p
    ensures (c / 2) / p == c / (2 * p)
  {
    var q := (c / 2) / p;
    var r := (c / 2) % p;
    assert c / 2 == q * p + r;
    var low := c % 2;
    assert c == 2 * (q * p + r) + low;
    assert 2 * (q * p) == q * (2 * p);
    assert c == q * (2 * p) + (2 * r + low) && 0 <= 2 * r + low < 2 * p;
    Quotient(c, 2 * p, q, 2 * r + low);
  }

  lemma MaxHalvedAgain(c: nat, p: nat)
    requires 1 <= c && 0 < p
    ensures Max(1, Max(1, c / 2) / p) == Max(1, c / (2 * p))
  {
    HalvedAgain(c, p);
    if c == 1 {
      Quotient(1, 2 * p, 0, 1);
      if p > 1 {
        Quotient(1, p, 0, 1);
      }
    }
  }

  /** Main result. k saturated samples in a row, none over the hard ratio, turn capacity c into
      max(1, c / 2^k). */
  lemma {:induction false} HalvesPerSaturatedSample(
    o: Options, m: Memory, l: LocalState, recovery: int, ticks: seq<Tick>)
    requires 1 <= l.capacity
    requires forall i :: 0 <= i < |ticks| ==> Saturated(o, ticks[i].s) && !Evaluate(o, ticks[i].s).hard
    ensures Sampled(o, m, l, recovery, ticks).0.capacity == Max(1, l.capacity / Pow2(|ticks|))
    decreases |ticks|
  {
    if ticks != [] {
      var (l1, m1) := Stepped(o, m, l, ticks[0].s, ticks[0].now, ticks[0].ceiling, recovery);
      assert Saturated(o, ticks[0].s) && !Evaluate(o, ticks[0].s).hard;
      HalvesPerSaturatedSample(o, m1, l1, recovery, ticks[1..]);
      MaxHalvedAgain(l.capacity, Pow2(|ticks| - 1));
    }
  }

  /** Every sample comes at least pace after the one before, the first after t. */
  predicate Spaced(t: Time, ticks: seq<Tick>, pace: int)
    decreases |ticks|
  {
    ticks == [] || (t + pace <= ticks[0].now && Spaced(ticks[0].now, ticks[1..], pace))
  }

  /** Main result. n clean samples an interval apart bring local capacity from c to exactly min(ceiling, c + n), on
      the startup ramp as well as after a cut. */
  lemma {:induction false} ClimbExact(
    o: Options, m: Memory, l: LocalState, recovery: int, ticks: seq<Tick>, ceiling: int, t: Time)
    requires Usable(o) && 0 < recovery <= MAX_DURATION
    requires 0 < m.lastStep <= t && l.capacity <= ceiling
    requires Spaced(t, ticks, if m.cut then recovery else o.rampInterval)
    requires forall i :: 0 <= i < |ticks| ==> !Saturated(o, ticks[i].s) && ticks[i].ceiling == ceiling
    ensures Sampled(o, m, l, recovery, ticks).0.capacity == Min(ceiling, l.capacity + |ticks|)
    decreases |ticks|
  {
    if ticks != [] {
      var k := ticks[0];
      var (l1, m1) := Stepped(o, m, l, k.s, k.now, k.ceiling, recovery);
      assert !Saturated(o, k.s) && k.ceiling == ceiling;
      ClimbExact(o, m1, l1, recovery, ticks[1..], ceiling, k.now);
    }
  }

  /** Settings left at zero take their defaults, and exactly those that then are in range are accepted. */
  lemma DefaultsExactly(o: Options)
    ensures var period := if o.samplePeriod == 0 then 1_000_000_000 else o.samplePeriod;
            var ramp := if o.rampInterval == 0 then 2_000_000_000 else o.rampInterval;
            var cpu := if o.cpuThreshold == 0.0 then 50.0 else o.cpuThreshold;
            var soft := if o.softRatio == 0.0 then 0.8 else o.softRatio;
            var hard := if o.hardRatio == 0.0 then 0.9 else o.hardRatio;
            WithDefaults(o) ==
            if period > 0 && ramp > 0 && 0.0 < cpu <= 100.0 && 0.0 < soft <= hard <= 1.0 then
              Some(Options(period, ramp, cpu, soft, hard))
            else None
  {
  }
}
