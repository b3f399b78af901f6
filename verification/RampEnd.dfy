/** Whether a call deferred on the startup ramp is back before the ramp ends. */
module RampEnd {
  import opened Arithmetic
  import opened Clock
  import opened Saturation
  import opened GovernorState
  import opened GovernorRuns
  import GovernorPace
  import opened GovernorDelays

  // ---- the sampler on its ramp ----

  /** The sampler's clock: its next sample comes no earlier than next, and each one after that at least apart
      after the one before. A ticker keeps its period apart; 0 assumes nothing. */
  datatype Ticker = Ticker(next: Time, apart: nat)

  /** How long a step takes at least. */
  function Pace(o: Options, k: Ticker): int {
    Max(o.rampInterval, k.apart)
  }

  /** The earliest instant from now on at which clean samples can have brought capacity up to the ceiling.
      The step under way counts from the last one; before the first sample, from that one. */
  function EarliestEnd(o: Options, m: Memory, capacity: int, ceiling: int, now: Time, k: Ticker): int {
    var first := Max(now, k.next);
    if m.lastStep == 0 then first + (ceiling - capacity) * Pace(o, k)
    else if capacity >= ceiling then now
    else Max(first, m.lastStep + o.rampInterval) + (ceiling - capacity - 1) * Pace(o, k)
  }

  predicate AllClean(o: Options, ticks: seq<Tick>, ceiling: int) {
    forall i :: 0 <= i < |ticks| ==> !Saturated(o, ticks[i].s) && ticks[i].ceiling == ceiling
  }

  predicate Apart(k: Ticker, ticks: seq<Tick>)
    decreases |ticks|
  {
    ticks == [] || (k.next <= ticks[0].now && Apart(k.(next := ticks[0].now + k.apart), ticks[1..]))
  }

  /** One clean sample moves the earliest end no closer. */
  lemma StepKeepsEnd(o: Options, m: Memory, l: LocalState, t: Tick, recovery: int, now: Time, k: Ticker)
    requires Usable(o) && !m.cut && l.capacity < t.ceiling && !Saturated(o, t.s)
    requires 0 < now && Max(now, k.next) <= t.now && m.lastStep <= now
    ensures var (l', m') := Stepped(o, m, l, t.s, t.now, t.ceiling, recovery);
            && !m'.cut && m'.lastStep <= t.now
            && EarliestEnd(o, m, l.capacity, t.ceiling, now, k) <=
               EarliestEnd(o, m', l'.capacity, t.ceiling, t.now, k.(next := t.now + k.apart))
            && (l'.ramping <==> l'.capacity < t.ceiling)
            && l'.capacity <= t.ceiling
  {
    var gap := t.ceiling - l.capacity;
    OneMore(gap - 2, Pace(o, k));
    OneMore(gap - 1, Pace(o, k));
    MoreIsMore(0, gap - 1, Pace(o, k));
  }

  /** Before its earliest end no clean sample ends the ramp. */
  lemma {:induction false} StaysOnRamp(
    o: Options, m: Memory, l: LocalState, recovery: int, ticks: seq<Tick>, ceiling: int, now: Time, end: Time, k: Ticker)
    requires Usable(o) && !m.cut && l.ramping && l.capacity < ceiling && AllClean(o, ticks, ceiling)
    requires 0 < now && m.lastStep <= now && Ordered(now, ticks) && LastTime(now, ticks) <= end && Apart(k, ticks)
    requires end < EarliestEnd(o, m, l.capacity, ceiling, now, k)
    ensures Sampled(o, m, l, recovery, ticks).0.ramping
    decreases |ticks|
  {
    if ticks != [] {
      var t := ticks[0];
      StepKeepsEnd(o, m, l, t, recovery, now, k);
      LastTimeAfter(t.now, ticks[1..]);
      var (l', m') := Stepped(o, m, l, t.s, t.now, t.ceiling, recovery);
      assert forall i :: 0 <= i < |ticks[1..]| ==> ticks[1..][i] == ticks[i + 1];
      StaysOnRamp(o, m', l', recovery, ticks[1..], ceiling, t.now, end, k.(next := t.now + k.apart));
    }
  }

  lemma {:induction false} LastTimeAfter(t: Time, ticks: seq<Tick>)
    requires Ordered(t, ticks)
    ensures t <= LastTime(t, ticks)
    decreases |ticks|
  {
    if ticks != [] {
      LastTimeAfter(ticks[0].now, ticks[1..]);
    }
  }

  // ---- a governor on its ramp ----

  /** The samples of a run keep to the ticker. */
  predicate OnTicker(k: Ticker, ops: seq<Op>)
    decreases |ops|
  {
    ops == []
    || (if ops[0].TakeSample? then
          k.next <= ops[0].now && OnTicker(k.(next := ops[0].now + k.apart), ops[1..])
        else OnTicker(k, ops[1..]))
  }

  /** A continuation from now to end in which nothing registers, no sample is saturated, and samples keep to
      the ticker. */
  predicate Continues(s: Setup, more: seq<Op>, now: Time, end: Time, k: Ticker) {
    && s.saturation.Some?
    && GovernorPace.InOrder(now, more, end)
    && OnTicker(k, more)
    && forall i :: 0 <= i < |more| ==>
         !more[i].Register? && (more[i].TakeSample? ==> !Saturated(s.saturation.value, more[i].x))
  }

  /** Whatever happens from now to end, the ramp is still on. */
  ghost predicate RampLasts(s: Setup, y: System, now: Time, end: Time, k: Ticker) {
    forall more :: Continues(s, more, now, end, k) ==> After(s, y, more).g.local.ramping
  }

  /** When the ramp can end, seen from a governor's state. */
  function RampEndsAt(s: Setup, g: State, now: Time, k: Ticker): int
    requires s.saturation.Some?
  {
    EarliestEnd(s.saturation.value, g.memory, g.local.capacity, Ceiling(s, g), now, k)
  }

  lemma {:induction false} CleanTicks(s: Setup, y: System, more: seq<Op>, now: Time, end: Time, k: Ticker)
    requires Continues(s, more, now, end, k)
    ensures AllClean(s.saturation.value, GovernorPace.Ticks(s, y, more), Ceiling(s, y.g))
    ensures Apart(k, GovernorPace.Ticks(s, y, more))
    decreases |more|
  {
    if more != [] {
      var u := match GovernorPace.TimeOf(more[0]) case None => now case Some(v) => v;
      var k' := if more[0].TakeSample? then k.(next := more[0].now + k.apart) else k;
      var rest := GovernorPace.Ticks(s, Step(s, y, more[0]), more[1..]);
      assert forall i :: 0 <= i < |more[1..]| ==> more[1..][i] == more[i + 1];
      GovernorPace.CeilingStays(s, y, more[0]);
      CleanTicks(s, Step(s, y, more[0]), more[1..], u, end, k');
      if more[0].TakeSample? {
        assert GovernorPace.Ticks(s, y, more)[1..] == rest;
      } else {
        assert GovernorPace.Ticks(s, y, more) == rest;
      }
    }
  }

  const CLEAN := Sample(None, None)

  /** n clean samples, pace apart, from t on. */
  function Climb(t: Time, pace: nat, n: nat): seq<Op>
    decreases n
  {
    if n == 0 then [] else [TakeSample(CLEAN, t)] + Climb(t + pace, pace, n - 1)
  }

  /** When the last of them is taken. */
  function ClimbLast(t: Time, pace: nat, n: nat): Time
    decreases n
  {
    if n <= 1 then t else ClimbLast(t + pace, pace, n - 1)
  }

  lemma {:induction false} ClimbLastAt(t: Time, pace: nat, n: nat)
    requires 0 < n
    ensures ClimbLast(t, pace, n) == t + (n - 1) * pace
    decreases n
  {
    if n > 1 {
      ClimbLastAt(t + pace, pace, n - 1);
      OneMore(n - 2, pace);
    }
  }

  lemma {:induction false} ClimbEnds(s: Setup, y: System, o: Options, now: Time, t: Time, n: nat, k: Ticker)
    requires s.saturation == Some(o) && Usable(o) && !y.g.memory.cut
    requires 0 < y.g.memory.lastStep && y.g.memory.lastStep + o.rampInterval <= t && now <= t && k.next <= t
    requires y.g.local.capacity + n == Ceiling(s, y.g) && (n == 0 ==> !y.g.local.ramping)
    ensures !After(s, y, Climb(t, Pace(o, k), n)).g.local.ramping
    ensures 0 < n ==> Continues(s, Climb(t, Pace(o, k), n), now, ClimbLast(t, Pace(o, k), n), k)
    decreases n
  {
    if n > 0 {
      var pace := Pace(o, k);
      var ops := Climb(t, pace, n);
      var y' := Step(s, y, TakeSample(CLEAN, t));
      assert !Saturated(o, CLEAN);
      assert ops[0] == TakeSample(CLEAN, t) && ops[1..] == Climb(t + pace, pace, n - 1);
      ClimbEnds(s, y', o, t, t + pace, n - 1, k.(next := t + k.apart));
    }
  }

  lemma FirstSample(s: Setup, y: System, o: Options, t: Time)
    requires s.saturation == Some(o) && Usable(o) && !y.g.memory.cut && y.g.memory.lastStep == 0 && 0 < t
    ensures var y' := Step(s, y, TakeSample(CLEAN, t));
            && y'.g.memory == Memory(t, false) && y'.g.local.capacity == y.g.local.capacity
            && Ceiling(s, y'.g) == Ceiling(s, y.g)
            && (y'.g.local.ramping <==> y.g.local.capacity < Ceiling(s, y.g))
  {
    assert !Saturated(o, CLEAN);
  }

  /** Before the first sample: that one, and a climb of all the steps. */
  lemma FirstThenClimb(s: Setup, y: System, o: Options, now: Time, t: Time, gap: nat, k: Ticker)
    requires s.saturation == Some(o) && Usable(o) && !y.g.memory.cut && y.g.memory.lastStep == 0
    requires 0 < now <= t && k.next <= t && y.g.local.capacity + gap == Ceiling(s, y.g)
    ensures var ops := Climb(t, Pace(o, k), gap + 1);
            && !After(s, y, ops).g.local.ramping
            && Continues(s, ops, now, ClimbLast(t, Pace(o, k), gap + 1), k)
  {
    FirstSample(s, y, o, t);
    var pace := Pace(o, k);
    var rest := Climb(t + pace, pace, gap);
    ClimbEnds(s, Step(s, y, TakeSample(CLEAN, t)), o, t, t + pace, gap, k.(next := t + k.apart));
    var ops := Climb(t, pace, gap + 1);
    assert ops[0] == TakeSample(CLEAN, t) && ops[1..] == rest;
    assert !Saturated(o, CLEAN);
    assert forall i :: 0 < i < |ops| ==> ops[i] == rest[i - 1];
  }

  /** The earliest end is reached, by clean samples as fast as they can count. */
  lemma FastestEnds(s: Setup, y: System, o: Options, now: Time, gap: nat, k: Ticker) returns (ops: seq<Op>)
    requires s.saturation == Some(o) && Usable(o) && !y.g.memory.cut && 0 < now
    requires y.g.local.capacity + gap == Ceiling(s, y.g)
    requires y.g.memory.lastStep != 0 ==> 0 < gap
    ensures !After(s, y, ops).g.local.ramping
    ensures Continues(s, ops, now, FastestEnd(o, y.g.memory, gap, now, k), k)
  {
    var first := Max(now, k.next);
    if y.g.memory.lastStep == 0 {
      ops := Climb(first, Pace(o, k), gap + 1);
      FirstThenClimb(s, y, o, now, first, gap, k);
    } else {
      var t := Max(first, y.g.memory.lastStep + o.rampInterval);
      ops := Climb(t, Pace(o, k), gap);
      ClimbEnds(s, y, o, now, t, gap, k);
    }
  }

  function FastestEnd(o: Options, m: Memory, gap: nat, now: Time, k: Ticker): Time {
    var first := Max(now, k.next);
    if m.lastStep == 0 then ClimbLast(first, Pace(o, k), gap + 1)
    else if gap == 0 then now
    else ClimbLast(Max(first, m.lastStep + o.rampInterval), Pace(o, k), gap)
  }

  lemma FastestEndIsEarliest(o: Options, m: Memory, capacity: int, ceiling: int, now: Time, k: Ticker)
    requires Usable(o) && capacity <= ceiling
    ensures now <= FastestEnd(o, m, ceiling - capacity, now, k) == EarliestEnd(o, m, capacity, ceiling, now, k)
  {
    var gap := ceiling - capacity;
    var first := Max(now, k.next);
    MoreIsMore(0, gap, Pace(o, k));
    if m.lastStep == 0 {
      ClimbLastAt(first, Pace(o, k), gap + 1);
    } else if gap > 0 {
      ClimbLastAt(Max(first, m.lastStep + o.rampInterval), Pace(o, k), gap);
      MoreIsMore(0, gap - 1, Pace(o, k));
    }
  }

  /** The state the ramp is judged from. */
  predicate OnRamp(s: Setup, g: State, now: Time) {
    && Sensible(s) && s.saturation.Some?
    && g.local.ramping && !g.memory.cut && RampSound(s, g) && g.local.capacity <= Ceiling(s, g)
    && g.memory.lastStep <= now && 0 < now
  }

  lemma InOrderLonger(t: Time, ops: seq<Op>, end: Time, later: Time)
    requires GovernorPace.InOrder(t, ops, end) && end <= later
    ensures GovernorPace.InOrder(t, ops, later)
    decreases |ops|
  {
  }

  /** Main result. The ramp lasts up to end, whatever happens short of a registration or a cut, exactly when
      end is before its earliest end. */
  lemma RampLastsExactly(s: Setup, y: System, now: Time, end: Time, k: Ticker)
    requires OnRamp(s, y.g, now) && now <= end
    ensures RampLasts(s, y, now, end, k) <==> end < RampEndsAt(s, y.g, now, k)
  {
    var o := s.saturation.value;
    FastestEndIsEarliest(o, y.g.memory, y.g.local.capacity, Ceiling(s, y.g), now, k);
    if end >= RampEndsAt(s, y.g, now, k) {
      var fastest := FastestEnds(s, y, o, now, Ceiling(s, y.g) - y.g.local.capacity, k);
      InOrderLonger(now, fastest, RampEndsAt(s, y.g, now, k), end);
      assert Continues(s, fastest, now, end, k);
    } else {
      forall more | Continues(s, more, now, end, k) ensures After(s, y, more).g.local.ramping {
        StillRamping(s, y, more, now, end, k);
      }
    }
  }

  lemma StillRamping(s: Setup, y: System, more: seq<Op>, now: Time, end: Time, k: Ticker)
    requires OnRamp(s, y.g, now) && Continues(s, more, now, end, k) && end < RampEndsAt(s, y.g, now, k)
    ensures After(s, y, more).g.local.ramping
  {
    CleanTicks(s, y, more, now, end, k);
    GovernorPace.TicksInOrder(s, y, more, now, end);
    GovernorPace.OnlySamplesMoveLocal(s, y, more);
    if y.g.local.capacity < Ceiling(s, y.g) {
      StaysOnRamp(s.saturation.value, y.g.memory, y.g.local, s.recovery, GovernorPace.Ticks(s, y, more),
                  Ceiling(s, y.g), now, end, k);
    } else {
      assert (Ceiling(s, y.g) - y.g.local.capacity) * Pace(s.saturation.value, k) == 0;
      NoSampleYet(GovernorPace.Ticks(s, y, more), now, end, k);
    }
  }

  /** With no step left, the ramp ends at the first sample: it lasts only as long as none can come. */
  lemma NoSampleYet(ticks: seq<Tick>, now: Time, end: Time, k: Ticker)
    requires Ordered(now, ticks) && LastTime(now, ticks) <= end < Max(now, k.next) && Apart(k, ticks)
    ensures ticks == []
  {
    if ticks != [] {
      LastTimeAfter(ticks[0].now, ticks[1..]);
    }
  }

  // ---- is the call back first? ----

  lemma {:induction false} LastStepBy(s: Setup, y: System, ops: seq<Op>, t: Time, now: Time)
    requires y.g.memory.lastStep <= t && GovernorPace.InOrder(t, ops, now)
    ensures After(s, y, ops).g.memory.lastStep <= now
    decreases |ops|
  {
    if ops != [] {
      var u := match GovernorPace.TimeOf(ops[0]) case None => t case Some(v) => v;
      if ops[0].AcquireAll? {
        AllOrNothing(s, y.g, ops[0].keys, ops[0].now, ops[0].draw);
      }
      LastStepBy(s, Step(s, y, ops[0]), ops[1..], u, now);
    } else {
      GovernorPace.InOrderEnds(t, ops, now);
    }
  }

  lemma ReachableOnRamp(s: Setup, ops: seq<Op>, now: Time)
    requires Sensible(s) && ClockStarted(ops) && GovernorPace.InOrder(0, ops, now) && 0 < now
    requires After(s, Begin(s), ops).g.local.ramping
    ensures OnRamp(s, After(s, Begin(s), ops).g, now)
  {
    RunRampSound(s, Begin(s), ops);
    BeginSound(s);
    AlwaysSound(s, Begin(s), ops);
    LastStepBy(s, Begin(s), ops, 0, now);
  }

  /** The call comes back by itself, and the ramp is still on then, whatever happened meanwhile. */
  ghost predicate BackFirst(s: Setup, y: System, keys: seq<string>, now: Time, draw: Option<nat>, k: Ticker)
    requires Answer(s, y, keys, now, draw).Some?
  {
    var after := Answer(s, y, keys, now, draw).value.requeueAfter;
    after > 0 && RampLasts(s, Step(s, y, AcquireAll(keys, now, draw)), now, now + after, k)
  }

  /** A deferred call leaves the local capacity and the sampler alone. */
  lemma DeferralLeavesRamp(s: Setup, y: System, keys: seq<string>, now: Time, draw: Option<nat>)
    requires Answer(s, y, keys, now, draw).Some?
    ensures var g := Step(s, y, AcquireAll(keys, now, draw)).g;
            g.local == y.g.local && g.memory == y.g.memory && g.reconcilers == y.g.reconcilers
  {
    AllOrNothing(s, y.g, keys, now, draw);
  }

  /** Main result. A call deferred on the ramp is back before the ramp ends, in every continuation without a
      registration or a cut, exactly when its delay is positive and ends before the earliest end. */
  lemma BackFirstExactly(s: Setup, ops: seq<Op>, keys: seq<string>, now: Time, draw: Option<nat>, k: Ticker)
    requires Sensible(s) && ClockStarted(ops) && GovernorPace.InOrder(0, ops, now) && 0 < now
    requires IsRamping(Answer(s, After(s, Begin(s), ops), keys, now, draw))
    ensures s.saturation.Some?
    ensures var y := After(s, Begin(s), ops);
            var after := Answer(s, y, keys, now, draw).value.requeueAfter;
            BackFirst(s, y, keys, now, draw, k) <==> 0 < after && now + after < RampEndsAt(s, y.g, now, k)
  {
    var y := After(s, Begin(s), ops);
    QuietExactly(s, y, keys, now, draw);
    ReachableOnRamp(s, ops, now);
    BackFirstFrom(s, y, keys, now, draw, k);
  }

  lemma BackFirstFrom(s: Setup, y: System, keys: seq<string>, now: Time, draw: Option<nat>, k: Ticker)
    requires OnRamp(s, y.g, now) && Answer(s, y, keys, now, draw).Some?
    ensures var after := Answer(s, y, keys, now, draw).value.requeueAfter;
            BackFirst(s, y, keys, now, draw, k) <==> 0 < after && now + after < RampEndsAt(s, y.g, now, k)
  {
    DeferralLeavesRamp(s, y, keys, now, draw);
    var y' := Step(s, y, AcquireAll(keys, now, draw));
    SameRamp(s, y.g, y'.g, now, k);
    var after := Answer(s, y, keys, now, draw).value.requeueAfter;
    if 0 < after {
      RampLastsExactly(s, y', now, now + after, k);
    }
  }

  lemma SameRamp(s: Setup, g: State, h: State, now: Time, k: Ticker)
    requires g.local == h.local && g.memory == h.memory && g.reconcilers == h.reconcilers && OnRamp(s, g, now)
    ensures OnRamp(s, h, now) && RampEndsAt(s, h, now, k) == RampEndsAt(s, g, now, k)
  {
  }

  /** Main result. Before the call: it is sure to be back first, whatever its draw, exactly when the longest
      delay is positive and ends before the earliest end. */
  lemma SureToBeBackFirst(s: Setup, ops: seq<Op>, keys: seq<string>, now: Time, k: Ticker)
    requires Sensible(s) && ClockStarted(ops) && GovernorPace.InOrder(0, ops, now) && 0 < now
    requires AwaitsRamp(s, After(s, Begin(s), ops), keys, now)
    ensures s.saturation.Some?
    ensures forall draw :: Answer(s, After(s, Begin(s), ops), keys, now, draw).Some?
    ensures var y := After(s, Begin(s), ops);
            var longest := LongestRampDelay(s, y.g);
            (forall draw :: BackFirst(s, y, keys, now, draw, k)) <==>
            0 < longest && now + longest < RampEndsAt(s, y.g, now, k)
  {
    var y := After(s, Begin(s), ops);
    var longest := LongestRampDelay(s, y.g);
    forall draw
      ensures Answer(s, y, keys, now, draw).Some?
      ensures s.saturation.Some?
      ensures var after := Jitter(longest, draw);
              BackFirst(s, y, keys, now, draw, k) <==> 0 < after && now + after < RampEndsAt(s, y.g, now, k)
    {
      QuietExactly(s, y, keys, now, draw);
      BackFirstExactly(s, ops, keys, now, draw, k);
    }
    assert Jitter(longest, None) == longest;
    forall draw ensures Jitter(longest, draw) <= longest && (0 < longest ==> 0 < Jitter(longest, draw)) {
    }
  }

  /** When the run ops took its last sample, if it took any. */
  function LastSample(ops: seq<Op>): Option<Time>
    decreases |ops|
  {
    if ops == [] then None
    else if ops[|ops| - 1].TakeSample? then Some(ops[|ops| - 1].now)
    else LastSample(ops[..|ops| - 1])
  }

  /** A ticker after the run ops: the next sample comes apart after the last one. */
  function TickerAfter(ops: seq<Op>, apart: nat): Ticker {
    match LastSample(ops)
    case None => Ticker(0, apart)
    case Some(t) => Ticker(t + apart, apart)
  }

  /** The last sample of a run is in its past, and one that took any has its step clock running. */
  lemma {:induction false} LastSampleTaken(s: Setup, y: System, ops: seq<Op>, t: Time, now: Time)
    requires s.saturation.Some? && GovernorPace.InOrder(t, ops, now) && ClockStarted(ops)
    ensures LastSample(ops).Some? ==> LastSample(ops).value <= now && After(s, y, ops).g.memory.lastStep != 0
    decreases |ops|
  {
    if ops != [] {
      var n := |ops| - 1;
      Unsnoc(s, y, ops);
      InOrderUpTo(t, ops, now);
      LastSampleTaken(s, y, ops[..n], t, now);
      StepClockRuns(s, After(s, y, ops[..n]), ops[n]);
    }
  }

  /** A sample starts the step clock, and nothing stops it. */
  lemma StepClockRuns(s: Setup, y: System, op: Op)
    requires s.saturation.Some? && (op.TakeSample? ==> op.now > 0)
    ensures op.TakeSample? || y.g.memory.lastStep != 0 ==> Step(s, y, op).g.memory.lastStep != 0
  {
    if op.AcquireAll? {
      AllOrNothing(s, y.g, op.keys, op.now, op.draw);
    }
  }

  lemma {:induction false} Unsnoc(s: Setup, y: System, ops: seq<Op>)
    requires ops != []
    ensures After(s, y, ops) == Step(s, After(s, y, ops[..|ops| - 1]), ops[|ops| - 1])
    decreases |ops|
  {
    if |ops| == 1 {
      var z := Step(s, y, ops[0]);
      assert ops[1..] == [] && ops[..0] == [] && After(s, z, []) == z && After(s, y, []) == y;
    } else {
      var n := |ops| - 1;
      Unsnoc(s, Step(s, y, ops[0]), ops[1..]);
      assert ops[1..][..n - 1] == ops[..n][1..] && ops[1..][n - 1] == ops[n] && ops[..n][0] == ops[0];
    }
  }

  lemma {:induction false} InOrderUpTo(t: Time, ops: seq<Op>, now: Time)
    requires ops != [] && GovernorPace.InOrder(t, ops, now)
    ensures GovernorPace.InOrder(t, ops[..|ops| - 1], now)
    ensures ops[|ops| - 1].TakeSample? ==> ops[|ops| - 1].now <= now
    decreases |ops|
  {
    var u := match GovernorPace.TimeOf(ops[0]) case None => t case Some(v) => v;
    if |ops| == 1 {
      GovernorPace.InOrderEnds(t, ops, now);
      GovernorPace.InOrderEnds(u, ops[1..], now);
    } else {
      InOrderUpTo(u, ops[1..], now);
      var n := |ops| - 1;
      assert ops[1..][..n - 1] == ops[..n][1..] && ops[1..][n - 1] == ops[n] && ops[..n][0] == ops[0];
    }
  }

  /** Main result. With a ticker no slower than SamplePeriod, and time left that fits a duration, a call is sure
      to be back first exactly when RecoveryInterval from now ends before the earliest end: the whole steps left
      are never less than the ramp can take. */
  lemma OnlyAShorterRecovery(s: Setup, ops: seq<Op>, keys: seq<string>, now: Time, apart: nat)
    requires Sensible(s) && ClockStarted(ops) && GovernorPace.InOrder(0, ops, now) && 0 < now
    requires AwaitsRamp(s, After(s, Begin(s), ops), keys, now)
    requires s.saturation.Some? ==> apart <= s.saturation.value.samplePeriod
    requires ExactRampLeft(s, After(s, Begin(s), ops).g) <= MAX_DURATION
    ensures s.saturation.Some?
    ensures forall draw :: Answer(s, After(s, Begin(s), ops), keys, now, draw).Some?
    ensures var y := After(s, Begin(s), ops);
            var k := TickerAfter(ops, apart);
            (forall draw :: BackFirst(s, y, keys, now, draw, k)) <==> now + s.recovery < RampEndsAt(s, y.g, now, k)
  {
    var y, k := After(s, Begin(s), ops), TickerAfter(ops, apart);
    SureToBeBackFirst(s, ops, keys, now, k);
    ReachableOnRamp(s, ops, now);
    LastSampleTaken(s, Begin(s), ops, 0, now);
    EndsWithinWholeSteps(s, y.g, now, k);
  }

  lemma EndsWithinWholeSteps(s: Setup, g: State, now: Time, k: Ticker)
    requires OnRamp(s, g, now) && ExactRampLeft(s, g) <= MAX_DURATION
    requires k.apart <= s.saturation.value.samplePeriod
    requires k.next <= now + if g.memory.lastStep == 0 then 0 else k.apart
    ensures (0 < LongestRampDelay(s, g) && now + LongestRampDelay(s, g) < RampEndsAt(s, g, now, k)) <==>
            now + s.recovery < RampEndsAt(s, g, now, k)
  {
    RampLeftExactly(s, g);
    var o := s.saturation.value;
    var gap := Ceiling(s, g) - g.local.capacity;
    OneMore(gap - 1, Pace(o, k));
    Scaled(gap, Pace(o, k), RampPace(o));
  }

  lemma Scaled(n: nat, a: int, b: int)
    requires a <= b
    ensures n * a <= n * b
  {
  }

  /** The ramp may be over first all the same, because the step under way has already begun: two workers,
      and a call deferred a nanosecond before the sample that ends the ramp. */
  lemma RampMayEndFirst(o: Options, x: Sample, a: string, b: string)
    requires Usable(o) && o.rampInterval == 2 * SECOND && o.samplePeriod == SECOND && !Saturated(o, x)
    requires a != "" && b != "" && a != b
    ensures var s := Setup(2, false, 30 * SECOND, Some(o));
            var call := 3 * SECOND - 1;
            var y := After(s, Step(s, Begin(s), StartSampler), [TakeSample(x, SECOND), AcquireAll([a], SECOND, None)]);
            var d := Answer(s, y, [b], call, None);
            && d.Some? && d.value.reason.DeferRamping?
            && Step(s, y, TakeSample(x, 3 * SECOND)).g.local.capacity == Ceiling(s, y.g)
            && 3 * SECOND < call + d.value.requeueAfter
  {
    var s := Setup(2, false, 30 * SECOND, Some(o));
    var y1 := Step(s, Begin(s), StartSampler);
    var y2 := Step(s, y1, TakeSample(x, SECOND));
    assert y2.g.local == LocalState(1, [], true) && y2.g.memory == Memory(SECOND, false);
    FirstCallGranted(s, y2, a, SECOND);
    var y3 := Step(s, y2, AcquireAll([a], SECOND, None));
    RunOfTwo(s, y1, TakeSample(x, SECOND), AcquireAll([a], SECOND, None));
    NextCallRamps(s, y3, b, 3 * SECOND - 1);
    SampleEndsRamp(s, y3.g, x);
  }

  lemma SampleEndsRamp(s: Setup, g: State, x: Sample)
    requires s.saturation.Some? && s.saturation.value.rampInterval == 2 * SECOND && s.saturation.value.samplePeriod == SECOND
    requires !Saturated(s.saturation.value, x) && g.memory == Memory(SECOND, false)
    requires g.local == LocalState(1, [], true) && Ceiling(s, g) == 2
    ensures SampledState(s, g, x, 3 * SECOND).local.capacity == 2
    ensures RampLeft(s, g, 1) == 2 * SECOND
  {
  }
}
