/** How fast a governor lets calls back in over whole runs, and when a deferral's delay is positive. */
module GovernorPace {
  import opened Arithmetic
  import opened Clock
  import opened Signals
  import opened KeySets
  import KT = KeyTimeline
  import opened Saturation
  import opened GovernorState
  import opened GovernorRuns
  import opened GovernorLaws

  // ---- time ----

  function TimeOf(op: Op): Option<Time> {
    match op
    case AcquireAll(_, now, _) => Some(now)
    case Observe(_, now) => Some(now)
    case Capacity(_, now) => Some(now)
    case Snapshot(now) => Some(now)
    case TakeSample(_, now) => Some(now)
    case _ => None
  }

  /** Clock readings do not decrease in lock order, from t on and up to end. */
  predicate InOrder(t: Time, ops: seq<Op>, end: Time)
    decreases |ops|
  {
    if ops == [] then t <= end
    else match TimeOf(ops[0])
         case None => InOrder(t, ops[1..], end)
         case Some(u) => t <= u && InOrder(u, ops[1..], end)
  }

  lemma {:induction false} InOrderEnds(t: Time, ops: seq<Op>, end: Time)
    requires InOrder(t, ops, end)
    ensures t <= end
    decreases |ops|
  {
    if ops != [] {
      match TimeOf(ops[0])
      case None => InOrderEnds(t, ops[1..], end);
      case Some(u) => InOrderEnds(u, ops[1..], end);
    }
  }

  // ---- a key between registrations ----

  predicate TouchesKey(s: Setup, op: Op, k: string) {
    match op
    case AcquireAll(keys, _, _) => k in Named(keys)
    case Capacity(key, _) => key == k
    case Snapshot(_) => true
    case _ => false
  }

  /** When k is touched. */
  function TouchTimes(s: Setup, ops: seq<Op>, k: string): seq<Time> {
    if ops == [] then []
    else (if TouchesKey(s, ops[0], k) then [TimeOf(ops[0]).value] else []) + TouchTimes(s, ops[1..], k)
  }

  /** No registration, and no signal for k. */
  predicate Quiet(s: Setup, ops: seq<Op>, k: string) {
    Unsignalled(s, ops, {k}) && forall i :: 0 <= i < |ops| ==> !ops[i].Register?
  }

  lemma QuietStep(s: Setup, y: System, op: Op, k: string)
    requires k in y.g.keys && Quiet(s, [op], k)
    ensures k in Step(s, y, op).g.keys && Ceiling(s, Step(s, y, op).g) == Ceiling(s, y.g)
    ensures LineAt(s, Step(s, y, op), k) ==
            if TouchesKey(s, op, k) then KT.Raised(LineAt(s, y, k), Ceiling(s, y.g), s.recovery, TimeOf(op).value)
            else LineAt(s, y, k)
  {
    assert [op][0] == op;
    match op
    case AcquireAll(keys, now, draw) =>
      AllOrNothing(s, y.g, keys, now, draw);
      DeferredCallsStillAdvance(s, y, keys, now, draw, k);
    case Observe(x, now) => ObservedLine(s, y, x, now, k);
    case _ =>
  }

  lemma {:induction false} QuietRunTouches(s: Setup, y: System, ops: seq<Op>, k: string)
    requires k in y.g.keys && Quiet(s, ops, k)
    ensures LineAt(s, After(s, y, ops), k) ==
            KT.Touches(LineAt(s, y, k), Ceiling(s, y.g), s.recovery, TouchTimes(s, ops, k))
    decreases |ops|
  {
    if ops != [] {
      assert [ops[0]][0] == ops[0];
      assert forall i :: 0 <= i < |ops[1..]| ==> ops[1..][i] == ops[i + 1];
      QuietStep(s, y, ops[0], k);
      QuietRunTouches(s, Step(s, y, ops[0]), ops[1..], k);
      if TouchesKey(s, ops[0], k) {
        var rest := TouchTimes(s, ops[1..], k);
        assert TouchTimes(s, ops, k)[0] == TimeOf(ops[0]).value && TouchTimes(s, ops, k)[1..] == rest;
      } else {
        assert TouchTimes(s, ops, k) == TouchTimes(s, ops[1..], k);
      }
    }
  }

  /** No key was raised later than now. */
  predicate RaisedBy(s: Setup, y: System, k: string, now: Time) {
    LineAt(s, y, k).lastRaise <= now
  }

  lemma StepRaisedBy(s: Setup, y: System, op: Op, k: string, t: Time)
    requires RaisedBy(s, y, k, t)
    ensures RaisedBy(s, Step(s, y, op), k, match TimeOf(op) case None => t case Some(u) => if t <= u then u else t)
  {
    match op
    case AcquireAll(keys, now, draw) => DeferredCallsStillAdvance(s, y, keys, now, draw, k);
    case Observe(x, now) => ObservedLine(s, y, x, now, k);
    case _ =>
  }

  lemma {:induction false} RunRaisedBy(s: Setup, y: System, ops: seq<Op>, k: string, t: Time, end: Time)
    requires RaisedBy(s, y, k, t) && InOrder(t, ops, end)
    ensures RaisedBy(s, After(s, y, ops), k, end)
    decreases |ops|
  {
    if ops != [] {
      StepRaisedBy(s, y, ops[0], k, t);
      RunRaisedBy(s, Step(s, y, ops[0]), ops[1..], k,
                  match TimeOf(ops[0]) case None => t case Some(u) => u, end);
    }
  }

  /** Nothing is signalled for k, and registrations come only while k stands under the ceiling. */
  predicate Undisturbed(s: Setup, y: System, ops: seq<Op>, k: string)
    decreases |ops|
  {
    ops == []
    || (&& Unsignalled(s, [ops[0]], {k})
        && (ops[0].Register? ==> LineAt(s, y, k).capacity < Ceiling(s, y.g))
        && Undisturbed(s, Step(s, y, ops[0]), ops[1..], k))
  }

  /** Such a registration leaves k as it is. */
  lemma UndisturbedStep(s: Setup, y: System, op: Op, k: string)
    requires k in y.g.keys && Unsignalled(s, [op], {k})
    requires op.Register? ==> LineAt(s, y, k).capacity < Ceiling(s, y.g)
    ensures k in Step(s, y, op).g.keys
    ensures LineAt(s, Step(s, y, op), k) ==
            if TouchesKey(s, op, k) then KT.Raised(LineAt(s, y, k), Ceiling(s, y.g), s.recovery, TimeOf(op).value)
            else LineAt(s, y, k)
  {
    if !op.Register? {
      QuietStep(s, y, op, k);
    }
  }

  lemma {:induction false} RunEarned(
    s: Setup, y: System, ops: seq<Op>, k: string, c: int, base: int, now: Time, end: Time)
    requires 0 < s.recovery <= MAX_DURATION && k in y.g.keys && Undisturbed(s, y, ops, k) && InOrder(now, ops, end)
    requires KT.Earned(LineAt(s, y, k), c, base, s.recovery, now)
    ensures KT.Earned(LineAt(s, After(s, y, ops), k), c, base, s.recovery, end)
    decreases |ops|
  {
    if ops != [] {
      var op := ops[0];
      var u := match TimeOf(op) case None => now case Some(v) => v;
      UndisturbedStep(s, y, op, k);
      if TouchesKey(s, op, k) {
        KT.RaisedEarned(LineAt(s, y, k), Ceiling(s, y.g), s.recovery, u, c, base, now);
      }
      RunEarned(s, Step(s, y, op), ops[1..], k, c, base, u, end);
    }
  }

  /** Main result. In any run, after a signal at time at cuts k to capacity c, and while nothing else is signalled
      for k and registrations come only while k stands under the ceiling, its capacity by time t is at most
      c + max(0, floor((t - base) / RecoveryInterval)), with base the later of the cut and the hold. */
  lemma RunRecoveryBound(s: Setup, before: seq<Op>, x: Signal, at: Time, cut: System, after: seq<Op>, t: Time)
    requires Sensible(s) && InOrder(0, before, at) && InOrder(at, after, t)
    requires x.key != "" && !s.ignoreSignals && !Classify(x, at).Nothing?
    requires cut == Step(s, After(s, Begin(s), before), Observe(x, at)) && Undisturbed(s, cut, after, x.key)
    ensures BoundedBy(LineAt(s, cut, x.key), LineAt(s, After(s, cut, after), x.key), s.recovery, t)
  {
    CutLine(s, before, x, at, cut);
    var c := LineAt(s, cut, x.key);
    RunEarned(s, cut, after, x.key, c.capacity, KT.CleanSince(c), at, t);
    KT.EarnedBound(LineAt(s, After(s, cut, after), x.key), c.capacity, KT.CleanSince(c), s.recovery, t);
  }

  /** By time t, end is no further above the cut line c than one unit per RecoveryInterval since the later of the
      cut and the hold. */
  predicate BoundedBy(c: KT.Line, end: KT.Line, recovery: int, t: Time)
    requires 0 < recovery
  {
    end.capacity <= c.capacity + Max(0, (t - Max(c.lastReduce, c.holdUntil)) / recovery)
  }

  /** Main result. In any run, after a cut to c, the touches of the key that come a RecoveryInterval apart
      after the later of the cut and the hold, with no registration or signal between, bring it to exactly
      min(ceiling, c + n). */
  lemma RunRecoveryExact(s: Setup, before: seq<Op>, x: Signal, at: Time, cut: System, after: seq<Op>)
    requires Sensible(s) && InOrder(0, before, at)
    requires x.key != "" && !s.ignoreSignals && !Classify(x, at).Nothing? && Quiet(s, after, x.key)
    requires cut == Step(s, After(s, Begin(s), before), Observe(x, at))
    requires KT.Spaced(KT.CleanSince(LineAt(s, cut, x.key)), TouchTimes(s, after, x.key), s.recovery)
    ensures RecoversExactly(s, cut, x.key, after)
  {
    CutLine(s, before, x, at, cut);
    SpacedAfterCut(s, cut, x.key, after, LineAt(s, cut, x.key), LineAt(s, After(s, cut, after), x.key));
  }

  /** Each touch of k in a run from the cut on gives back one unit, up to the ceiling. */
  predicate RecoversExactly(s: Setup, cut: System, k: string, after: seq<Op>) {
    LineAt(s, After(s, cut, after), k).capacity ==
    Min(Ceiling(s, cut.g), LineAt(s, cut, k).capacity + |TouchTimes(s, after, k)|)
  }

  lemma CutInBounds(s: Setup, before: seq<Op>, x: Signal, at: Time)
    requires Sensible(s) && x.key != "" && !s.ignoreSignals && !Classify(x, at).Nothing?
    ensures var cut := Step(s, After(s, Begin(s), before), Observe(x, at));
            x.key in cut.g.keys && LineAt(s, cut, x.key).capacity <= Ceiling(s, cut.g)
  {
    BeginSound(s);
    AlwaysSound(s, Begin(s), before);
    ObserveSound(s, After(s, Begin(s), before), x, at);
    assert KeySound(s, Step(s, After(s, Begin(s), before), Observe(x, at)), x.key);
  }

  lemma CutLine(s: Setup, before: seq<Op>, x: Signal, at: Time, cut: System)
    requires Sensible(s) && InOrder(0, before, at)
    requires x.key != "" && !s.ignoreSignals && !Classify(x, at).Nothing?
    requires cut == Step(s, After(s, Begin(s), before), Observe(x, at))
    ensures x.key in cut.g.keys && LineAt(s, cut, x.key).capacity <= Ceiling(s, cut.g)
    ensures LineAt(s, cut, x.key).lastRaise <= LineAt(s, cut, x.key).lastReduce == at
  {
    RunRaisedBy(s, Begin(s), before, x.key, 0, at);
    CutInBounds(s, before, x, at);
    ObservedLine(s, After(s, Begin(s), before), x, at, x.key);
  }

  lemma SpacedAfterCut(s: Setup, cut: System, k: string, after: seq<Op>, c: KT.Line, end: KT.Line)
    requires Sensible(s) && k in cut.g.keys && Quiet(s, after, k)
    requires c == LineAt(s, cut, k) && c.lastRaise <= c.lastReduce && c.capacity <= Ceiling(s, cut.g)
    requires KT.Spaced(KT.CleanSince(c), TouchTimes(s, after, k), s.recovery)
    requires end == LineAt(s, After(s, cut, after), k)
    ensures RecoversExactly(s, cut, k, after)
  {
    QuietRunTouches(s, cut, after, k);
    KT.RecoveryExact(c, Ceiling(s, cut.g), s.recovery, TouchTimes(s, after, k));
  }

  // ---- the local capacity ----

  /** The samples of a run, each with the ceiling it saw. */
  function Ticks(s: Setup, y: System, ops: seq<Op>): seq<Tick>
    decreases |ops|
  {
    if ops == [] then []
    else (if ops[0].TakeSample? then [Tick(ops[0].x, ops[0].now, Ceiling(s, y.g))] else [])
         + Ticks(s, Step(s, y, ops[0]), ops[1..])
  }

  lemma OtherOpsLeaveLocal(s: Setup, y: System, op: Op)
    requires s.saturation.Some? && !op.TakeSample?
    ensures Step(s, y, op).g.local == y.g.local && Step(s, y, op).g.memory == y.g.memory
  {
    if op.AcquireAll? {
      AllOrNothing(s, y.g, op.keys, op.now, op.draw);
    }
  }

  /** Main result. With saturation on, only samples move the local capacity: after any run it is what the
      sampler alone makes of the run's samples. */
  lemma {:induction false} OnlySamplesMoveLocal(s: Setup, y: System, ops: seq<Op>)
    requires s.saturation.Some?
    ensures (After(s, y, ops).g.local, After(s, y, ops).g.memory) ==
            Sampled(s.saturation.value, y.g.memory, y.g.local, s.recovery, Ticks(s, y, ops))
    decreases |ops|
  {
    if ops != [] {
      var y' := Step(s, y, ops[0]);
      OnlySamplesMoveLocal(s, y', ops[1..]);
      if ops[0].TakeSample? {
        var t := Tick(ops[0].x, ops[0].now, Ceiling(s, y.g));
        assert Ticks(s, y, ops)[0] == t && Ticks(s, y, ops)[1..] == Ticks(s, y', ops[1..]);
      } else {
        OtherOpsLeaveLocal(s, y, ops[0]);
        assert Ticks(s, y, ops) == Ticks(s, y', ops[1..]);
      }
    }
  }

  /** Main result. Once a sample has cut the local capacity no deferral is quiet again. */
  lemma NeverQuietAfterACut(
    s: Setup, before: seq<Op>, x: Sample, at: Time, after: seq<Op>, keys: seq<string>, now: Time, draw: Option<nat>)
    requires Sensible(s) && s.saturation.Some? && Saturated(s.saturation.value, x)
    ensures var y := After(s, Step(s, After(s, Begin(s), before), TakeSample(x, at)), after);
            var d := Answer(s, y, keys, now, draw);
            d.Some? ==> !d.value.reason.DeferRamping?
  {
    var y0 := Step(s, After(s, Begin(s), before), TakeSample(x, at));
    assert y0.g.memory.cut && !y0.g.local.ramping;
    OnlySamplesMoveLocal(s, y0, after);
    CutStays(s.saturation.value, y0.g.memory, y0.g.local, s.recovery, Ticks(s, y0, after));
    AllOrNothing(s, After(s, y0, after).g, keys, now, draw);
  }

  lemma {:induction false} TicksInOrder(s: Setup, y: System, ops: seq<Op>, t: Time, end: Time)
    requires InOrder(t, ops, end)
    ensures Ordered(t, Ticks(s, y, ops)) && LastTime(t, Ticks(s, y, ops)) <= end
    decreases |ops|
  {
    if ops != [] {
      var u := match TimeOf(ops[0]) case None => t case Some(v) => v;
      var rest := Ticks(s, Step(s, y, ops[0]), ops[1..]);
      TicksInOrder(s, Step(s, y, ops[0]), ops[1..], u, end);
      if ops[0].TakeSample? {
        assert Ticks(s, y, ops) == [Tick(ops[0].x, ops[0].now, Ceiling(s, y.g))] + rest;
      } else {
        assert Ticks(s, y, ops) == rest;
        OrderedFrom(t, u, rest);
      }
    }
  }

  lemma OrderedFrom(t: Time, u: Time, ticks: seq<Tick>)
    requires t <= u && Ordered(u, ticks)
    ensures Ordered(t, ticks) && LastTime(t, ticks) <= LastTime(u, ticks)
  {
  }

  /** Main result. In any run that has not been cut, local capacity by time t is at most one step per
      StartupRampInterval above 1 since the first sample. */
  lemma RunRampBound(s: Setup, ops: seq<Op>, t: Time)
    requires Sensible(s) && s.saturation.Some? && InOrder(0, ops, t)
    requires var ticks := Ticks(s, Begin(s), ops); ticks != [] && 0 < ticks[0].now
    requires !After(s, Begin(s), ops).g.memory.cut
    ensures After(s, Begin(s), ops).g.local.capacity <=
            1 + (t - Ticks(s, Begin(s), ops)[0].now) / s.saturation.value.rampInterval
  {
    var ticks := Ticks(s, Begin(s), ops);
    OnlySamplesMoveLocal(s, Begin(s), ops);
    TicksInOrder(s, Begin(s), ops, 0, t);
    RampBoundBy(s.saturation.value, s.recovery, ticks, t);
  }

  lemma RampBoundBy(o: Options, recovery: int, ticks: seq<Tick>, t: Time)
    requires Usable(o) && ticks != [] && 0 < ticks[0].now
    requires Ordered(ticks[0].now, ticks) && LastTime(0, ticks) <= t
    requires !Sampled(o, Memory(0, false), LocalState(1, [], true), recovery, ticks).1.cut
    ensures Sampled(o, Memory(0, false), LocalState(1, [], true), recovery, ticks).0.capacity <=
            1 + (t - ticks[0].now) / o.rampInterval
  {
    RampBound(o, recovery, ticks);
    QuotientMonotone(LastTime(0, ticks) - ticks[0].now, t - ticks[0].now, o.rampInterval);
  }

  /** Main result. In any run, after a saturated sample at time at, local capacity by time t is at most one
      step per RecoveryInterval above what that sample left, whatever happens in between. */
  lemma RunLocalRecoveryBound(s: Setup, y: System, x: Sample, at: Time, after: seq<Op>, t: Time)
    requires Sensible(s) && s.saturation.Some? && Saturated(s.saturation.value, x) && 0 < at
    requires InOrder(at, after, t)
    ensures var cut := Step(s, y, TakeSample(x, at));
            After(s, cut, after).g.local.capacity <= cut.g.local.capacity + (t - at) / s.recovery
  {
    var cut := Step(s, y, TakeSample(x, at));
    var ticks := Ticks(s, cut, after);
    OnlySamplesMoveLocal(s, cut, after);
    TicksInOrder(s, cut, after, at, t);
    Saturation.RecoveryBound(s.saturation.value, y.g.memory, y.g.local, Tick(x, at, Ceiling(s, y.g)), s.recovery, ticks);
    QuotientMonotone(LastTime(at, ticks) - at, t - at, s.recovery);
  }

  /** Main result. Any run whose k samples are all saturated, none over the hard ratio, turns local capacity c
      into max(1, c / 2^k), whatever calls, signals and registrations come between. */
  lemma RunHalves(s: Setup, y: System, ops: seq<Op>)
    requires s.saturation.Some? && 1 <= y.g.local.capacity
    requires forall i :: 0 <= i < |ops| && ops[i].TakeSample? ==>
               Saturated(s.saturation.value, ops[i].x) && !Evaluate(s.saturation.value, ops[i].x).hard
    ensures After(s, y, ops).g.local.capacity == Max(1, y.g.local.capacity / Pow2(|Ticks(s, y, ops)|))
  {
    OnlySamplesMoveLocal(s, y, ops);
    SoftTicks(s, y, ops);
    HalvesPerSaturatedSample(s.saturation.value, y.g.memory, y.g.local, s.recovery, Ticks(s, y, ops));
  }

  lemma {:induction false} SoftTicks(s: Setup, y: System, ops: seq<Op>)
    requires s.saturation.Some?
    requires forall i :: 0 <= i < |ops| && ops[i].TakeSample? ==>
               Saturated(s.saturation.value, ops[i].x) && !Evaluate(s.saturation.value, ops[i].x).hard
    ensures forall i :: 0 <= i < |Ticks(s, y, ops)| ==>
              && Saturated(s.saturation.value, Ticks(s, y, ops)[i].s)
              && !Evaluate(s.saturation.value, Ticks(s, y, ops)[i].s).hard
    decreases |ops|
  {
    if ops != [] {
      assert forall i :: 0 <= i < |ops[1..]| ==> ops[1..][i] == ops[i + 1];
      SoftTicks(s, Step(s, y, ops[0]), ops[1..]);
    }
  }

  /** A run without registrations whose samples are all clean. */
  predicate Clean(s: Setup, ops: seq<Op>)
    requires s.saturation.Some?
  {
    forall i :: 0 <= i < |ops| ==>
      !ops[i].Register? && (ops[i].TakeSample? ==> !Saturated(s.saturation.value, ops[i].x))
  }

  lemma {:induction false} CleanRun(s: Setup, y: System, ops: seq<Op>)
    requires s.saturation.Some? && Clean(s, ops)
    ensures forall i :: 0 <= i < |Ticks(s, y, ops)| ==>
              !Saturated(s.saturation.value, Ticks(s, y, ops)[i].s) && Ticks(s, y, ops)[i].ceiling == Ceiling(s, y.g)
    decreases |ops|
  {
    if ops != [] {
      assert forall i :: 0 <= i < |ops[1..]| ==> ops[1..][i] == ops[i + 1];
      CeilingStays(s, y, ops[0]);
      CleanRun(s, Step(s, y, ops[0]), ops[1..]);
    }
  }

  lemma CeilingStays(s: Setup, y: System, op: Op)
    requires !op.Register?
    ensures Ceiling(s, Step(s, y, op).g) == Ceiling(s, y.g)
  {
    if op.AcquireAll? {
      AllOrNothing(s, y.g, op.keys, op.now, op.draw);
    }
  }

  /** In any run with clean samples only and no registration, n samples an interval apart, the first an interval
      after t, raise local capacity by exactly n, up to the ceiling. */
  lemma RunClimbExact(s: Setup, y: System, ops: seq<Op>, t: Time)
    requires Sensible(s) && s.saturation.Some? && Clean(s, ops)
    requires 0 < y.g.memory.lastStep <= t && y.g.local.capacity <= Ceiling(s, y.g)
    requires Spaced(t, Ticks(s, y, ops), if y.g.memory.cut then s.recovery else s.saturation.value.rampInterval)
    ensures After(s, y, ops).g.local.capacity == Min(Ceiling(s, y.g), y.g.local.capacity + |Ticks(s, y, ops)|)
  {
    OnlySamplesMoveLocal(s, y, ops);
    CleanRun(s, y, ops);
    ClimbExact(s.saturation.value, y.g.memory, y.g.local, s.recovery, Ticks(s, y, ops), Ceiling(s, y.g), t);
  }

  /** Main result. In any run, after a saturated sample that left c, n clean samples a RecoveryInterval apart, with
      no registration between, bring local capacity to exactly min(ceiling, c + n). */
  lemma RunLocalRecoveryExact(s: Setup, before: seq<Op>, x: Sample, at: Time, cut: System, after: seq<Op>)
    requires Sensible(s) && s.saturation.Some? && Saturated(s.saturation.value, x) && 0 < at
    requires cut == Step(s, After(s, Begin(s), before), TakeSample(x, at)) && Clean(s, after)
    requires Spaced(at, Ticks(s, cut, after), s.recovery)
    ensures After(s, cut, after).g.local.capacity ==
            Min(Ceiling(s, cut.g), cut.g.local.capacity + |Ticks(s, cut, after)|)
  {
    BeginSound(s);
    AlwaysSound(s, Begin(s), before);
    SampleSound(s, After(s, Begin(s), before), x, at);
    assert cut.g.memory == Memory(at, true);
    RunClimbExact(s, cut, after, at);
  }

  /** Main result. From the first sample of a governor on, n more clean samples a StartupRampInterval apart bring
      local capacity to exactly min(ceiling, 1 + n). */
  lemma RunRampExact(s: Setup, before: seq<Op>, x: Sample, at: Time, first: System, after: seq<Op>)
    requires Sensible(s) && s.saturation.Some? && 0 < at && Ticks(s, Begin(s), before) == []
    requires first == Step(s, After(s, Begin(s), before), TakeSample(x, at)) && Clean(s, [TakeSample(x, at)] + after)
    requires Spaced(at, Ticks(s, first, after), s.saturation.value.rampInterval)
    ensures After(s, first, after).g.local.capacity == Min(Ceiling(s, first.g), 1 + |Ticks(s, first, after)|)
  {
    var y := After(s, Begin(s), before);
    OnlySamplesMoveLocal(s, Begin(s), before);
    BeginSound(s);
    AlwaysSound(s, Begin(s), before);
    assert ([TakeSample(x, at)] + after)[0] == TakeSample(x, at);
    assert first.g.memory == Memory(at, false) && first.g.local.capacity == 1;
    assert forall i :: 0 <= i < |after| ==> after[i] == ([TakeSample(x, at)] + after)[i + 1];
    RunClimbExact(s, first, after, at);
  }
}
