/** What callers and operators may rely on, over whole runs of a governor. */
module GovernorLaws {
  import opened Clock
  import opened Signals
  import opened KeySets
  import opened KeyTimeline
  import opened Saturation
  import opened GovernorState
  import opened GovernorRuns

  // ---- a call depends on the scopes it names, nothing else about the list ----

  lemma CallDependsOnNames(s: Setup, y: System, a: seq<string>, b: seq<string>, now: Time, draw: Option<nat>)
    requires Named(a) == Named(b)
    ensures Answer(s, y, a, now, draw) == Answer(s, y, b, now, draw)
    ensures Step(s, y, AcquireAll(a, now, draw)) == Step(s, y, AcquireAll(b, now, draw))
  {
    NormalizeDependsOnNames(a, b);
  }

  // ---- holds ----

  function LineAt(s: Setup, y: System, k: string): Line {
    KeyOf(s, y.g, k).line
  }

  predicate HeldAt(s: Setup, y: System, k: string, now: Time) {
    now < LineAt(s, y, k).holdUntil
  }

  /** A call that names k advances k's recovery whether it is granted or another key defers it, and
      disturbs no other key. */
  lemma DeferredCallsStillAdvance(s: Setup, y: System, keys: seq<string>, now: Time, draw: Option<nat>, k: string)
    ensures LineAt(s, Step(s, y, AcquireAll(keys, now, draw)), k) ==
            if k in Named(keys) then Raised(LineAt(s, y, k), Ceiling(s, y.g), s.recovery, now) else LineAt(s, y, k)
  {
    AllOrNothing(s, y.g, keys, now, draw);
  }

  lemma HeldExactlyBeforeLatest(s: Setup, y: System, ks: set<string>, latest: string, t: Time)
    requires latest in ks
    requires forall k :: k in ks ==> LineAt(s, y, k).holdUntil <= LineAt(s, y, latest).holdUntil
    ensures (exists k :: k in ks && HeldAt(s, y, k, t)) <==> t < LineAt(s, y, latest).holdUntil
  {
    if t < LineAt(s, y, latest).holdUntil {
      assert HeldAt(s, y, latest, t);
    }
  }

  /** Main result. A call is deferred as throttled exactly when one of its scopes is held, whatever else
      is full; the deadline it names is then the latest hold, and the delay the time left to it, as far
      as a duration can tell. */
  lemma ThrottledExactlyWhenHeld(s: Setup, y: System, keys: seq<string>, now: Time, draw: Option<nat>)
    ensures var d := Answer(s, y, keys, now, draw);
            && ((d.Some? && d.value.reason.DeferThrottled?) <==> exists k :: k in Named(keys) && HeldAt(s, y, k, now))
            && (d.Some? && d.value.reason.DeferThrottled? ==>
                  && d.value.key in Named(keys)
                  && d.value.until == LineAt(s, y, d.value.key).holdUntil
                  && (forall k :: k in Named(keys) ==> LineAt(s, y, k).holdUntil <= d.value.until)
                  && d.value.requeueAfter == Min(d.value.until - now, MAX_DURATION) > 0)
  {
    var ks := Normalize(keys);
    NormalizeKeepsNames(keys);
    var g1 := Touched(s, y.g, SetOf(ks), now);
    LatestHeldIsLatest(g1.keys, ks, now);
    forall k | k in ks ensures g1.keys[k].line.holdUntil == LineAt(s, y, k).holdUntil {
      TouchingKeepsHold(LineAt(s, y, k), Ceiling(s, y.g), s.recovery, now);
    }
    var h := LatestHeld(g1.keys, ks, now);
    if h.Some? {
      assert h.value in ks;
      HeldExactlyBeforeLatest(s, y, Named(keys), h.value, now);
    }
  }

  lemma TouchingKeepsHold(l: Line, ceiling: int, recovery: int, now: Time)
    ensures Raised(l, ceiling, recovery, now).holdUntil == l.holdUntil
  {
  }

  /** No operation shortens a hold. */
  lemma HoldsNeverShrink(s: Setup, y: System, op: Op, k: string)
    ensures LineAt(s, y, k).holdUntil <= LineAt(s, Step(s, y, op), k).holdUntil
  {
    match op
    case AcquireAll(keys, now, draw) => DeferredCallsStillAdvance(s, y, keys, now, draw, k);
    case Observe(x, now) => ObservedLine(s, y, x, now, k);
    case _ => OtherLine(s, y, op, k);
  }

  lemma ObservedLine(s: Setup, y: System, x: Signal, now: Time, k: string)
    ensures LineAt(s, Step(s, y, Observe(x, now)), k) ==
            if x.key != k || k == "" || s.ignoreSignals then LineAt(s, y, k) else Signalled(LineAt(s, y, k), x, now)
  {
  }

  lemma OtherLine(s: Setup, y: System, op: Op, k: string)
    requires !op.AcquireAll? && !op.Observe?
    ensures LineAt(s, Step(s, y, op), k).holdUntil == LineAt(s, y, k).holdUntil
  {
  }

  lemma {:induction false} HoldsLast(s: Setup, y: System, ops: seq<Op>, k: string)
    ensures LineAt(s, y, k).holdUntil <= LineAt(s, After(s, y, ops), k).holdUntil
    decreases |ops|
  {
    if ops != [] {
      HoldsNeverShrink(s, y, ops[0], k);
      HoldsLast(s, Step(s, y, ops[0]), ops[1..], k);
    }
  }

  /** Main result. Once a refusal with deadline d was reported for k, no call that names k is granted
      before d, whatever happens in between. */
  lemma DeadlineIsABarrier(
    s: Setup, y: System, x: Signal, at: Time, ops: seq<Op>, keys: seq<string>, now: Time, draw: Option<nat>)
    requires x.throttled && x.key != "" && !s.ignoreSignals
    requires x.key in Named(keys) && now < Deadline(x, at)
    ensures var y' := After(s, Step(s, y, Observe(x, at)), ops);
            var d := Answer(s, y', keys, now, draw);
            d.Some? && d.value.reason.DeferThrottled? && d.value.until >= Deadline(x, at)
  {
    var y1 := Step(s, y, Observe(x, at));
    assert LineAt(s, y1, x.key).holdUntil >= Deadline(x, at);
    HoldsLast(s, y1, ops, x.key);
    var y' := After(s, y1, ops);
    assert HeldAt(s, y', x.key, now);
    ThrottledExactlyWhenHeld(s, y', keys, now, draw);
  }

  /** No signal in ops reaches a key of ks. */
  predicate Unsignalled(s: Setup, ops: seq<Op>, ks: set<string>) {
    forall i :: 0 <= i < |ops| && ops[i].Observe? && ops[i].signal.key in ks ==>
                  s.ignoreSignals || Classify(ops[i].signal, ops[i].now).Nothing?
  }

  lemma HoldsStay(s: Setup, y: System, op: Op, k: string)
    requires op.Observe? && op.signal.key == k ==> s.ignoreSignals || Classify(op.signal, op.now).Nothing?
    ensures LineAt(s, Step(s, y, op), k).holdUntil == LineAt(s, y, k).holdUntil
  {
    match op
    case AcquireAll(keys, now, draw) => DeferredCallsStillAdvance(s, y, keys, now, draw, k);
    case Observe(x, now) => ObservedLine(s, y, x, now, k);
    case _ => OtherLine(s, y, op, k);
  }

  lemma {:induction false} HoldsStayUnsignalled(s: Setup, y: System, ops: seq<Op>, ks: set<string>, k: string)
    requires Unsignalled(s, ops, ks) && k in ks
    ensures LineAt(s, After(s, y, ops), k).holdUntil == LineAt(s, y, k).holdUntil
    decreases |ops|
  {
    if ops != [] {
      HoldsStay(s, y, ops[0], k);
      assert forall i :: 0 <= i < |ops[1..]| ==> ops[1..][i] == ops[i + 1];
      HoldsStayUnsignalled(s, Step(s, y, ops[0]), ops[1..], ks, k);
    }
  }

  predicate IsThrottled(d: Option<Deferral>) {
    d.Some? && d.value.reason.DeferThrottled?
  }

  /** While nothing signals its scopes, a call is throttled exactly before the latest of their holds. */
  lemma ThrottledUntilLatest(
    s: Setup, y: System, ops: seq<Op>, keys: seq<string>, latest: string, t: Time, draw: Option<nat>)
    requires latest in Named(keys) && Unsignalled(s, ops, Named(keys))
    requires forall k :: k in Named(keys) ==> LineAt(s, y, k).holdUntil <= LineAt(s, y, latest).holdUntil
    ensures IsThrottled(Answer(s, After(s, y, ops), keys, t, draw)) <==> t < LineAt(s, y, latest).holdUntil
  {
    var y' := After(s, y, ops);
    forall k | k in Named(keys) ensures LineAt(s, y', k).holdUntil == LineAt(s, y, k).holdUntil {
      HoldsStayUnsignalled(s, y, ops, Named(keys), k);
    }
    ThrottledExactlyWhenHeld(s, y', keys, t, draw);
    HeldExactlyBeforeLatest(s, y', Named(keys), latest, t);
  }

  /** One of ks is held further away than a duration can say. */
  predicate HeldFar(s: Setup, y: System, ks: set<string>, now: Time) {
    exists k :: k in ks && LineAt(s, y, k).holdUntil - now > MAX_DURATION
  }

  /** Main result. A throttled call that comes back when told to, with no new signal for its scopes, is
      throttled again exactly when one of its scopes was held further away than a duration can say. */
  lemma WakesSoundly(
    s: Setup, y: System, keys: seq<string>, now: Time, draw: Option<nat>, ops: seq<Op>, t: Time, again: Option<nat>)
    requires IsThrottled(Answer(s, y, keys, now, draw)) && Unsignalled(s, ops, Named(keys))
    requires t == now + Answer(s, y, keys, now, draw).value.requeueAfter
    ensures IsThrottled(Answer(s, After(s, y, ops), keys, t, again)) <==>
            HeldFar(s, y, Named(keys), now)
  {
    ThrottledExactlyWhenHeld(s, y, keys, now, draw);
    var d := Answer(s, y, keys, now, draw).value;
    ThrottledUntilLatest(s, y, ops, keys, d.key, t, again);
    assert d.until == LineAt(s, y, d.key).holdUntil;
  }

  /** A call for one held key names that key's deadline. */
  lemma OneKeyHeld(s: Setup, y: System, k: string, now: Time, draw: Option<nat>)
    requires k != "" && HeldAt(s, y, k, now)
    ensures var d := Answer(s, y, [k], now, draw);
            && IsThrottled(d)
            && d.value.key == k && d.value.until == LineAt(s, y, k).holdUntil
            && d.value.requeueAfter == Min(d.value.until - now, MAX_DURATION)
  {
    OneName(k);
    ThrottledExactlyWhenHeld(s, y, [k], now, draw);
  }

  /** A call for k is throttled, and throttled again when it comes back as told. */
  predicate ThrottledAgain(s: Setup, y: System, k: string, now: Time, draw: Option<nat>, again: Option<nat>) {
    var d := Answer(s, y, [k], now, draw);
    && IsThrottled(d) && d.value.requeueAfter >= 0
    && IsThrottled(Answer(s, Step(s, y, AcquireAll([k], now, draw)), [k], now + d.value.requeueAfter, again))
  }

  /** A call for a key held further away than a duration can say comes back too early. */
  lemma FarHoldThrottlesAgain(s: Setup, y: System, k: string, now: Time, draw: Option<nat>, again: Option<nat>)
    requires k != "" && LineAt(s, y, k).holdUntil - now > MAX_DURATION
    ensures ThrottledAgain(s, y, k, now, draw, again)
  {
    OneName(k);
    OneKeyHeld(s, y, k, now, draw);
    var y' := Step(s, y, AcquireAll([k], now, draw));
    DeferredCallsStillAdvance(s, y, [k], now, draw, k);
    OneKeyHeld(s, y', k, now + Answer(s, y, [k], now, draw).value.requeueAfter, again);
  }

  // ---- progress and transparency ----

  /** Main result. With nothing in flight a call is granted as soon as none of its scopes is held,
      whatever cuts, samples and registrations came before. */
  lemma ProgressAtTheFloor(s: Setup, ops: seq<Op>, keys: seq<string>, now: Time, draw: Option<nat>)
    requires Sensible(s)
    requires After(s, Begin(s), ops).leases == map[]
    requires forall k :: k in Named(keys) ==> !HeldAt(s, After(s, Begin(s), ops), k, now)
    ensures Answer(s, After(s, Begin(s), ops), keys, now, draw).None?
  {
    var y := After(s, Begin(s), ops);
    BeginSound(s);
    AlwaysSound(s, Begin(s), ops);
    TouchedSound(s, y, Named(keys), now);
    AllOrNothing(s, y.g, keys, now, draw);
    var y1 := y.(g := Touched(s, y.g, Named(keys), now));
    forall k | k in Named(keys) ensures Room(y1.g, k, now) {
      assert KeySound(s, y1, k);
      assert Holders(y.leases, k) == {};
      assert !HeldAt(s, y, k, now);
    }
  }

  /** A key that never heard a signal stands at the ceiling. */
  predicate Unslowed(s: Setup, y: System, k: string) {
    k in y.g.keys ==> y.g.keys[k].line.capacity == Ceiling(s, y.g) && y.g.keys[k].line.holdUntil == 0
  }

  lemma StaysUnslowed(s: Setup, y: System, op: Op, k: string)
    requires Unslowed(s, y, k)
    requires op.Observe? && op.signal.key == k ==> s.ignoreSignals || Classify(op.signal, op.now).Nothing?
    ensures Unslowed(s, Step(s, y, op), k)
  {
    if op.AcquireAll? {
      AllOrNothing(s, y.g, op.keys, op.now, op.draw);
    }
  }

  lemma {:induction false} RunStaysUnslowed(s: Setup, y: System, ops: seq<Op>, ks: set<string>, k: string)
    requires Unslowed(s, y, k) && Unsignalled(s, ops, ks) && k in ks
    ensures Unslowed(s, After(s, y, ops), k)
    decreases |ops|
  {
    if ops != [] {
      StaysUnslowed(s, y, ops[0], k);
      assert forall i :: 0 <= i < |ops[1..]| ==> ops[1..][i] == ops[i + 1];
      RunStaysUnslowed(s, Step(s, y, ops[0]), ops[1..], ks, k);
    }
  }

  /** Main result. With saturation off, a call whose scopes nobody signalled is granted whenever fewer
      than ceiling leases are out: the governor never holds a healthy endpoint below its workers. */
  lemma HealthyEndpointsNeverWait(s: Setup, ops: seq<Op>, keys: seq<string>, now: Time, draw: Option<nat>)
    requires Sensible(s) && s.saturation.None?
    requires Unsignalled(s, ops, Named(keys))
    requires |After(s, Begin(s), ops).leases| < Ceiling(s, After(s, Begin(s), ops).g)
    ensures Answer(s, After(s, Begin(s), ops), keys, now, draw).None?
  {
    var y := After(s, Begin(s), ops);
    BeginSound(s);
    AlwaysSound(s, Begin(s), ops);
    AllOrNothing(s, y.g, keys, now, draw);
    var g1 := Touched(s, y.g, Named(keys), now);
    forall k | k in Named(keys) ensures Room(g1, k, now) {
      RunStaysUnslowed(s, Begin(s), ops, Named(keys), k);
      HoldersAtMostLeases(y.leases, k);
      if k in y.g.keys {
        assert KeySound(s, y, k);
      }
    }
  }

  lemma HoldersAtMostLeases(leases: map<nat, set<string>>, k: string)
    ensures |Holders(leases, k)| <= |leases|
  {
    SubsetSize(Holders(leases, k), leases.Keys);
    assert |leases.Keys| == |leases|;
  }

  lemma {:induction false} SubsetSize(a: set<nat>, b: set<nat>)
    requires a <= b
    ensures |a| <= |b|
    decreases a
  {
    if a != {} {
      var x :| x in a;
      SubsetSize(a - {x}, b - {x});
    }
  }

  // ---- keys do not disturb each other ----

  /** The operations that may change k's timeline. */
  predicate Concerns(op: Op, k: string) {
    match op
    case AcquireAll(keys, _, _) => k in Named(keys)
    case Observe(x, _) => x.key == k
    case Capacity(key, _) => key == k
    case Register => true
    case Snapshot(_) => true
    case _ => false
  }

  function Concerning(ops: seq<Op>, k: string): seq<Op> {
    if ops == [] then []
    else (if Concerns(ops[0], k) then [ops[0]] else []) + Concerning(ops[1..], k)
  }

  /** Two systems that k cannot tell apart. */
  predicate Alike(y: System, z: System, k: string) {
    && y.g.reconcilers == z.g.reconcilers
    && (k in y.g.keys <==> k in z.g.keys)
    && (k in y.g.keys ==> y.g.keys[k].line == z.g.keys[k].line)
  }

  lemma ConcerningStep(s: Setup, y: System, z: System, op: Op, k: string)
    requires Alike(y, z, k) && Concerns(op, k)
    ensures Alike(Step(s, y, op), Step(s, z, op), k)
  {
    if op.AcquireAll? {
      AllOrNothing(s, y.g, op.keys, op.now, op.draw);
      AllOrNothing(s, z.g, op.keys, op.now, op.draw);
    }
  }

  lemma OtherStep(s: Setup, y: System, op: Op, k: string)
    requires !Concerns(op, k)
    ensures Alike(Step(s, y, op), y, k)
  {
    if op.AcquireAll? {
      AllOrNothing(s, y.g, op.keys, op.now, op.draw);
    }
  }

  lemma {:induction false} ConcerningOnly(s: Setup, y: System, z: System, ops: seq<Op>, k: string)
    requires Alike(y, z, k)
    ensures Alike(After(s, y, ops), After(s, z, Concerning(ops, k)), k)
    decreases |ops|
  {
    if ops != [] {
      if Concerns(ops[0], k) {
        ConcerningStep(s, y, z, ops[0], k);
        assert Concerning(ops, k)[0] == ops[0] && Concerning(ops, k)[1..] == Concerning(ops[1..], k);
        ConcerningOnly(s, Step(s, y, ops[0]), Step(s, z, ops[0]), ops[1..], k);
      } else {
        OtherStep(s, y, ops[0], k);
        assert Concerning(ops, k) == Concerning(ops[1..], k);
        ConcerningOnly(s, Step(s, y, ops[0]), z, ops[1..], k);
      }
    }
  }

  /** Main result. A key's capacity, hold and cut and raise times after any run are those after the
      operations that name it, the registrations and the snapshots alone. */
  lemma KeysDoNotInterfere(s: Setup, y: System, ops: seq<Op>, k: string)
    ensures LineAt(s, After(s, y, ops), k) == LineAt(s, After(s, y, Concerning(ops, k)), k)
    ensures k in After(s, y, ops).g.keys <==> k in After(s, y, Concerning(ops, k)).g.keys
  {
    ConcerningOnly(s, y, y, ops, k);
  }
}
