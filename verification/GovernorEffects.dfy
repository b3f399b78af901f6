/** What each operation of a governor does, in numbers: how deep a signal cuts, what a registration lifts, and
    what a refused call is told. */
module GovernorEffects {
  import opened Arithmetic
  import opened Clock
  import opened Signals
  import opened KeySets
  import opened KeyTimeline
  import opened Saturation
  import opened GovernorState
  import opened GovernorRuns
  import opened GovernorLaws
  import opened GovernorDelays

  // ---- settings ----

  /** What a governor is built with: at least one worker, RecoveryInterval defaulting to 30 seconds, and the saturation
      settings that WithDefaults accepts; anything else is refused. */
  lemma SettingsExactly(workers: int, ignoreSignals: bool, recovery: int, saturation: Option<Options>)
    ensures var accepted := workers >= 1 && recovery >= 0 && (saturation.Some? ==> WithDefaults(saturation.value).Some?);
            New(workers, ignoreSignals, recovery, saturation) ==
            if accepted then
              Some(Setup(workers, ignoreSignals, if recovery == 0 then 30_000_000_000 else recovery,
                         if saturation.None? then None else WithDefaults(saturation.value)))
            else None
  {
  }

  // ---- signals ----

  /** A signal that is no refusal, but slows its key down: at most a quarter of a known quota is left, it names a
      delay, or it names a future reset without a quota. */
  predicate Slows(x: Signal, now: Time) {
    && !x.throttled
    && (|| (x.hasQuota && x.limit > 0 && Wrapped(4 * x.remaining) <= x.limit)
        || x.retryAfter > 0
        || (!x.hasQuota && x.resetAt > now))
  }

  /** Main result. A refusal takes its key's capacity to 1 and holds it until the latest of the old hold, now +
      RetryAfter and ResetAt; a signal that slows takes capacity c to max(1, c / 2) and leaves the hold; both
      restart the clean interval. Any other signal changes nothing, and none changes another key, a lease or the
      local capacity. */
  lemma SignalExactly(s: Setup, y: System, x: Signal, now: Time)
    ensures var y' := Step(s, y, Observe(x, now));
            var l, l' := LineAt(s, y, x.key), LineAt(s, y', x.key);
            var delayed := if x.retryAfter > 0 then now + x.retryAfter else 0;
            if x.key == "" || s.ignoreSignals || (!x.throttled && !Slows(x, now)) then y' == y
            else
              && y' == y.(g := y.g.(keys := y'.g.keys)) && y'.g.keys.Keys == y.g.keys.Keys + {x.key}
              && (forall k :: k in y.g.keys && k != x.key ==> y'.g.keys[k] == y.g.keys[k])
              && KeyOf(s, y'.g, x.key).inFlight == KeyOf(s, y.g, x.key).inFlight
              && l'.capacity == (if x.throttled then 1 else Max(1, l.capacity / 2))
              && l'.holdUntil == (if x.throttled then Max(l.holdUntil, Max(delayed, x.resetAt)) else l.holdUntil)
              && l'.lastReduce == now && l'.lastRaise == l.lastRaise
  {
  }

  /** How often k is slowed in a run. */
  function Slowdowns(s: Setup, ops: seq<Op>, k: string): nat {
    if ops == [] then 0
    else (if ops[0].Observe? && ops[0].signal.key == k && Slows(ops[0].signal, ops[0].now) then 1 else 0)
         + Slowdowns(s, ops[1..], k)
  }

  /** No operation of the run raises k, and none refuses it. */
  predicate NeverRaised(s: Setup, y: System, ops: seq<Op>, k: string)
    decreases |ops|
  {
    ops == []
    || (&& LineAt(s, Step(s, y, ops[0]), k).capacity <= LineAt(s, y, k).capacity
        && !(ops[0].Observe? && ops[0].signal.key == k && ops[0].signal.throttled)
        && NeverRaised(s, Step(s, y, ops[0]), ops[1..], k))
  }

  /** Only signals lower a known key. */
  lemma OnlySignalsLower(s: Setup, y: System, op: Op, k: string)
    requires k in y.g.keys && !op.Observe? && y.g.keys[k].line.capacity <= Ceiling(s, y.g)
    requires Sensible(s)
    ensures k in Step(s, y, op).g.keys && LineAt(s, y, k).capacity <= LineAt(s, Step(s, y, op), k).capacity
  {
    CeilingPositive(s, y.g);
    if op.AcquireAll? {
      AllOrNothing(s, y.g, op.keys, op.now, op.draw);
      DeferredCallsStillAdvance(s, y, op.keys, op.now, op.draw, k);
    }
  }

  lemma SlowStep(s: Setup, y: System, op: Op, k: string)
    requires Sensible(s) && Sound(s, y) && k in y.g.keys && k != "" && !s.ignoreSignals
    requires LineAt(s, Step(s, y, op), k).capacity <= LineAt(s, y, k).capacity
    requires !(op.Observe? && op.signal.key == k && op.signal.throttled)
    ensures k in Step(s, y, op).g.keys
    ensures LineAt(s, Step(s, y, op), k).capacity ==
            if op.Observe? && op.signal.key == k && Slows(op.signal, op.now) then Max(1, LineAt(s, y, k).capacity / 2)
            else LineAt(s, y, k).capacity
  {
    assert KeySound(s, y, k);
    if op.Observe? {
      SignalExactly(s, y, op.signal, op.now);
    } else {
      OnlySignalsLower(s, y, op, k);
    }
  }

  /** Main result. In any run that neither raises nor refuses k, n signals that slow it turn its capacity c into
      max(1, c / 2^n). */
  lemma {:induction false} RunHalvesKey(s: Setup, y: System, ops: seq<Op>, k: string)
    requires Sensible(s) && Sound(s, y) && k in y.g.keys && k != "" && !s.ignoreSignals
    requires NeverRaised(s, y, ops, k)
    ensures LineAt(s, After(s, y, ops), k).capacity == Max(1, LineAt(s, y, k).capacity / Pow2(Slowdowns(s, ops, k)))
    decreases |ops|
  {
    assert KeySound(s, y, k);
    if ops != [] {
      var y' := Step(s, y, ops[0]);
      SlowStep(s, y, ops[0], k);
      StepSound(s, y, ops[0]);
      assert KeySound(s, y', k);
      RunHalvesKey(s, y', ops[1..], k);
      HalvedOnceMore(LineAt(s, y, k).capacity, LineAt(s, y', k).capacity, Slowdowns(s, ops[1..], k), Slowdowns(s, ops, k));
    }
  }

  lemma HalvedOnceMore(c: int, c': int, n: nat, m: nat)
    requires 1 <= c && ((m == n && c' == c) || (m == n + 1 && c' == Max(1, c / 2)))
    ensures Max(1, c' / Pow2(n)) == Max(1, c / Pow2(m))
  {
    MaxHalvedAgain(c, Pow2(n));
  }

  // ---- touches ----

  /** A touch raises capacity by one exactly when it is under the ceiling, the hold is over, and a RecoveryInterval has
      passed since the later of the cut and the hold, and since the last raise; it changes nothing else. */
  lemma TouchExactly(l: Line, ceiling: int, recovery: int, now: Time)
    requires 0 < recovery <= MAX_DURATION
    ensures var raised := && l.capacity < ceiling && l.holdUntil <= now
                          && now - Max(l.holdUntil, l.lastReduce) >= recovery && now - l.lastRaise >= recovery;
            Raised(l, ceiling, recovery, now) ==
            if raised then Line(l.capacity + 1, l.holdUntil, l.lastReduce, now) else l
  {
  }

  /** Asking for a key's capacity touches that key alone, and makes no key known; nor does a snapshot, which touches
      all. */
  lemma AskingExactly(s: Setup, y: System, k: string, now: Time)
    ensures k !in y.g.keys ==> Step(s, y, Capacity(k, now)) == y
    ensures k in y.g.keys ==>
              Step(s, y, Capacity(k, now)) ==
              y.(g := y.g.(keys := y.g.keys[k := y.g.keys[k].(line := Raised(y.g.keys[k].line, Ceiling(s, y.g), s.recovery, now))]))
    ensures var y' := Step(s, y, Snapshot(now));
            && y' == y.(g := y.g.(keys := y'.g.keys)) && y'.g.keys.Keys == y.g.keys.Keys
            && forall j :: j in y.g.keys ==>
                 y'.g.keys[j] == y.g.keys[j].(line := Raised(y.g.keys[j].line, Ceiling(s, y.g), s.recovery, now))
  {
  }

  // ---- registrations ----

  /** Main result. A registration raises the ceiling by perController, except the first, which finds it there; it
      takes to the new ceiling exactly the keys that stood at the old one, and without saturation the local
      capacity. Every cut key keeps its capacity, and every key its hold, its times and its slots. */
  lemma RegisterExactly(s: Setup, y: System)
    ensures var y' := Step(s, y, Register);
            var was, now := s.perController * Max(1, y.g.reconcilers), s.perController * (y.g.reconcilers + 1);
            && y' == y.(g := y.g.(keys := y'.g.keys, local := y'.g.local, reconcilers := y.g.reconcilers + 1))
            && y'.g.keys.Keys == y.g.keys.Keys
            && (forall k :: k in y.g.keys ==>
                  && y'.g.keys[k].line.capacity == (if y.g.keys[k].line.capacity == was then now else y.g.keys[k].line.capacity)
                  && y'.g.keys[k].line.holdUntil == y.g.keys[k].line.holdUntil
                  && y'.g.keys[k].line.lastReduce == y.g.keys[k].line.lastReduce
                  && y'.g.keys[k].line.lastRaise == y.g.keys[k].line.lastRaise
                  && y'.g.keys[k].inFlight == y.g.keys[k].inFlight)
            && y'.g.local == (if s.saturation.None? && y.g.local.capacity == was then y.g.local.(capacity := now) else y.g.local)
  {
  }

  function Registrations(ops: seq<Op>): nat {
    if ops == [] then 0 else (if ops[0].Register? then 1 else 0) + Registrations(ops[1..])
  }

  lemma {:induction false} RunCounts(s: Setup, y: System, ops: seq<Op>)
    ensures After(s, y, ops).g.reconcilers == y.g.reconcilers + Registrations(ops)
    decreases |ops|
  {
    if ops != [] {
      StepCounts(s, y, ops[0]);
      RunCounts(s, Step(s, y, ops[0]), ops[1..]);
    }
  }

  lemma StepCounts(s: Setup, y: System, op: Op)
    ensures Step(s, y, op).g.reconcilers == y.g.reconcilers + if op.Register? then 1 else 0
  {
    if op.AcquireAll? {
      AllOrNothing(s, y.g, op.keys, op.now, op.draw);
    }
  }

  /** A key nobody spoke about stands at the ceiling: the workers of every controller registered, of one at least. */
  lemma CeilingCountsRegistrations(s: Setup, ops: seq<Op>, k: string)
    requires k !in After(s, Begin(s), ops).g.keys
    ensures LineAt(s, After(s, Begin(s), ops), k).capacity == s.perController * Max(1, Registrations(ops))
  {
    RunCounts(s, Begin(s), ops);
  }

  // ---- refusals ----

  /** Main result. A drawn delay lies between a second and hi, or is hi when hi is no more than that; every instant
      of the range is drawn, and a failed draw gives hi. */
  lemma JitterExactly(hi: int, d: int)
    requires Min(1_000_000_000, hi) <= d <= hi
    ensures forall draw :: Min(1_000_000_000, hi) <= Jitter(hi, draw) <= hi
    ensures exists draw :: Jitter(hi, draw) == d
    ensures Jitter(hi, None) == hi
  {
    if 1_000_000_000 < hi {
      assert Jitter(hi, Some(d - 1_000_000_000)) == d;
    } else {
      assert Jitter(hi, None) == d;
    }
  }

  /** A key is full once touched. */
  predicate Full(g: State, k: string)
    requires k in g.keys
  {
    g.keys[k].inFlight >= g.keys[k].line.capacity
  }

  /** k is the first full key of ks in their order. */
  predicate IsFirstFull(g: State, ks: set<string>, k: string)
    requires ks <= g.keys.Keys
  {
    k in ks && Full(g, k) && forall j :: j in ks && Full(g, j) ==> !Less(j, k)
  }

  /** What a call refused by a full key is told. */
  predicate KeyDeferral(s: Setup, g: State, ks: set<string>, draw: Option<nat>, d: Deferral)
    requires ks <= g.keys.Keys
  {
    && IsFirstFull(g, ks, d.key)
    && d.reason == DeferAtCapacity && !d.isLocal && d.cause == NoCause && d.until == 0
    && d.capacity == g.keys[d.key].line.capacity
    && d.requeueAfter == Jitter(s.recovery, draw)
  }

  /** What a call refused by the local capacity alone is told. */
  predicate LocallyDeferred(s: Setup, g: State, ks: set<string>, draw: Option<nat>, d: Deferral) {
    var ramps := g.local.cause == [] && g.local.ramping && g.samplerStarted;
    && d.isLocal && d.capacity == g.local.capacity && d.until == 0
    && (if |ks| == 1 then ks == {d.key} else d.key == "")
    && (d.reason == DeferSaturated <==> g.local.cause != [])
    && (d.reason == DeferRamping <==> ramps)
    && (d.reason == DeferAtCapacity <==> g.local.cause == [] && !ramps)
    && d.cause == (if g.local.cause != [] then Inputs(g.local.cause)
                   else if g.local.ramping && !ramps then SamplerNotStarted
                   else NoCause)
    && d.requeueAfter == Jitter(if ramps then LongestRampDelay(s, g) else s.recovery, draw)
  }

  /** Main result. What a call that no hold stops is told, once its keys are touched: when a key is full, the first
      full key with its capacity; else, when the local capacity is full, that one and which of the three reasons it
      has; else nothing, for it is granted. The delay is drawn up to RecoveryInterval, or up to what the ramp may
      still need. */
  lemma RefusedExactly(s: Setup, y: System, keys: seq<string>, now: Time, draw: Option<nat>)
    requires forall k :: k in Named(keys) ==> !HeldAt(s, y, k, now)
    ensures var g := Touched(s, y.g, Named(keys), now);
            var d := Answer(s, y, keys, now, draw);
            && Named(keys) <= g.keys.Keys
            && (if exists k :: k in Named(keys) && Full(g, k) then d.Some? && KeyDeferral(s, g, Named(keys), draw, d.value)
                else if g.localInFlight >= g.local.capacity then d.Some? && LocallyDeferred(s, g, Named(keys), draw, d.value)
                else d.None?)
  {
    var ks := Normalize(keys);
    NormalizeKeepsNames(keys);
    assert SetOf(ks) == Named(keys);
    var g := Touched(s, y.g, Named(keys), now);
    AnswerIsRefusal(s, y, keys, now, draw);
    FirstFullIsFirst(g, ks);
    NoneHeld(s, y, keys, ks, now);
    SingleName(ks);
  }

  /** A call that a hold stops is told the deadline alone: the first of the latest holds. */
  lemma ThrottledTold(s: Setup, y: System, keys: seq<string>, now: Time, draw: Option<nat>)
    requires IsThrottled(Answer(s, y, keys, now, draw))
    ensures var d := Answer(s, y, keys, now, draw).value;
            && !d.isLocal && d.cause == NoCause && d.capacity == 0
            && d.key in Named(keys) && IsFirstHeldAs(Touched(s, y.g, Named(keys), now), Named(keys), d.key)
  {
    var ks := Normalize(keys);
    NormalizeKeepsNames(keys);
    assert SetOf(ks) == Named(keys);
    AnswerIsRefusal(s, y, keys, now, draw);
    HoldTold(s, Touched(s, y.g, SetOf(ks), now), ks, now, draw);
  }

  lemma HoldTold(s: Setup, g: State, ks: seq<string>, now: Time, draw: Option<nat>)
    requires Ascending(ks) && SetOf(ks) <= g.keys.Keys && (forall k :: k in ks ==> k in g.keys)
    requires IsThrottled(Refusal(s, g, ks, now, draw))
    ensures var d := Refusal(s, g, ks, now, draw).value;
            && !d.isLocal && d.cause == NoCause && d.capacity == 0
            && d.key in SetOf(ks) && IsFirstHeldAs(g, SetOf(ks), d.key)
  {
    LatestHeldIsFirst(g, ks, now);
  }

  /** No key of ks before h in their order is held as long. */
  predicate IsFirstHeldAs(g: State, ks: set<string>, h: string)
    requires ks <= g.keys.Keys && h in ks
  {
    forall k :: k in ks && g.keys[k].line.holdUntil == g.keys[h].line.holdUntil ==> !Less(k, h)
  }

  lemma {:induction false} LatestHeldIsFirst(g: State, ks: seq<string>, now: Time)
    requires Ascending(ks) && SetOf(ks) <= g.keys.Keys
    ensures var h := LatestHeld(g.keys, ks, now);
            h.Some? ==> IsFirstHeldAs(g, SetOf(ks), h.value)
    decreases |ks|
  {
    if ks != [] {
      var front, last := ks[..|ks| - 1], ks[|ks| - 1];
      assert SetOf(ks) == SetOf(front) + {last};
      LatestHeldIsFirst(g, front, now);
      LatestHeldIsLatest(g.keys, front, now);
      forall k | k in SetOf(front) ensures Less(k, last) && !Less(last, k) {
        var i :| 0 <= i < |front| && front[i] == k;
        LessAsymmetric(ks[i], last);
      }
      LessIrreflexive(last);
    }
  }

  lemma NoneHeld(s: Setup, y: System, keys: seq<string>, ks: seq<string>, now: Time)
    requires SetOf(ks) == Named(keys) && forall k :: k in Named(keys) ==> !HeldAt(s, y, k, now)
    ensures LatestHeld(Touched(s, y.g, SetOf(ks), now).keys, ks, now).None?
  {
    var g := Touched(s, y.g, SetOf(ks), now);
    forall k | k in ks ensures g.keys[k].line.holdUntil <= now {
      assert k in SetOf(ks) && !HeldAt(s, y, k, now);
    }
    LatestHeldIsLatest(g.keys, ks, now);
  }

  lemma {:induction false} FirstFullIsFirst(g: State, ks: seq<string>)
    requires Ascending(ks) && SetOf(ks) <= g.keys.Keys
    ensures var f := FirstFull(g.keys, ks);
            && (f.Some? ==> IsFirstFull(g, SetOf(ks), f.value))
            && (f.None? ==> forall k :: k in SetOf(ks) ==> !Full(g, k))
    decreases |ks|
  {
    if ks != [] {
      var front, last := ks[..|ks| - 1], ks[|ks| - 1];
      assert SetOf(ks) == SetOf(front) + {last};
      FirstFullIsFirst(g, front);
      forall k | k in SetOf(front) ensures Less(k, last) && !Less(last, k) {
        var i :| 0 <= i < |front| && front[i] == k;
        LessAsymmetric(ks[i], last);
      }
      LessIrreflexive(last);
    }
  }

  lemma LessAsymmetric(a: string, b: string)
    requires Less(a, b)
    ensures !Less(b, a)
  {
    if Less(b, a) {
      LessTransitive(a, b, a);
      LessIrreflexive(a);
    }
  }

  lemma LastIsNew(ks: seq<string>)
    requires Ascending(ks) && ks != []
    ensures ks[|ks| - 1] !in SetOf(ks[..|ks| - 1])
  {
    AscendingDistinct(ks);
  }

  lemma {:induction false} SingleName(ks: seq<string>)
    requires Ascending(ks)
    ensures |SetOf(ks)| == |ks|
    ensures |ks| == 1 ==> SetOf(ks) == {ks[0]}
    decreases |ks|
  {
    if ks != [] {
      var front, last := ks[..|ks| - 1], ks[|ks| - 1];
      SingleName(front);
      LastIsNew(ks);
      assert SetOf(ks) == SetOf(front) + {last};
    }
  }
}
