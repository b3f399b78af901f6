/** The governor as an object: each method is one mutex section (pkg/ratelimit/governor.go). Clock
    readings and random draws are parameters. */
module Governors {
  import opened Clock
  import opened Signals
  import opened KeySets
  import opened KeyTimeline
  import opened Saturation
  import opened GovernorState
  import opened GovernorRuns

  // ---- what the loops compute, one key at a time ----

  lemma LatestHeldFrame(a: map<string, KeyState>, b: map<string, KeyState>, ks: seq<string>, now: Time)
    requires forall k :: k in ks ==> k in a && k in b && a[k] == b[k]
    ensures LatestHeld(a, ks, now) == LatestHeld(b, ks, now)
  {
    if ks != [] {
      LatestHeldFrame(a, b, ks[..|ks| - 1], now);
    }
  }

  /** Touching ks one after the other. */
  function TouchedAlong(s: Setup, g: State, ks: seq<string>, now: Time): (m: map<string, KeyState>)
    ensures g.keys.Keys <= m.Keys && forall k :: k in ks ==> k in m
  {
    if ks == [] then g.keys
    else
      var last := ks[|ks| - 1];
      var m := TouchedAlong(s, g, ks[..|ks| - 1], now);
      m[last := TouchedKey(s, g.(keys := m), last, now)]
  }

  lemma FrontAscends(ks: seq<string>)
    requires Ascending(ks) && ks != []
    ensures Ascending(ks[..|ks| - 1]) && ks[|ks| - 1] !in ks[..|ks| - 1]
    ensures forall k :: k in ks <==> k in ks[..|ks| - 1] || k == ks[|ks| - 1]
  {
    AscendingDistinct(ks);
    assert ks == ks[..|ks| - 1] + [ks[|ks| - 1]];
  }

  lemma {:induction false} TouchedAlongAt(s: Setup, g: State, ks: seq<string>, now: Time, k: string)
    requires Ascending(ks)
    ensures var m := TouchedAlong(s, g, ks, now);
            && (k in m <==> k in g.keys || k in ks)
            && (k in m ==> m[k] == if k in ks then TouchedKey(s, g, k, now) else g.keys[k])
  {
    if ks != [] {
      FrontAscends(ks);
      TouchedAlongAt(s, g, ks[..|ks| - 1], now, k);
    }
  }

  lemma TouchedWhole(s: Setup, g: State, ks: seq<string>, now: Time)
    requires Ascending(ks)
    ensures Touched(s, g, SetOf(ks), now) == g.(keys := TouchedAlong(s, g, ks, now))
  {
    forall k ensures var m := TouchedAlong(s, g, ks, now);
                     && (k in m <==> k in g.keys || k in ks)
                     && (k in m ==> m[k] == if k in ks then TouchedKey(s, g, k, now) else g.keys[k])
    {
      TouchedAlongAt(s, g, ks, now, k);
    }
    var m, t := TouchedAlong(s, g, ks, now), Touched(s, g, SetOf(ks), now).keys;
    assert m.Keys == t.Keys;
    assert forall k :: k in m ==> m[k] == t[k];
    assert m == t;
  }

  /** The deferral by a server hold. */
  function HeldBy(keys: map<string, KeyState>, held: Option<string>, now: Time): Option<Deferral>
    requires held.Some? ==> held.value in keys
  {
    match held
    case None => None
    case Some(k) =>
      var until := keys[k].line.holdUntil;
      Some(Deferral(k, DeferThrottled, until, Sub(until, now), 0, false, NoCause))
  }

  /** One more key may be held longer. */
  lemma HeldSnoc(keys: map<string, KeyState>, ks: seq<string>, i: nat, st: KeyState, now: Time)
    requires i < |ks| && ks[i] !in ks[..i] && forall k :: k in ks[..i] ==> k in keys
    ensures var held := HeldBy(keys, LatestHeld(keys, ks[..i], now), now);
            var more := keys[ks[i] := st];
            HeldBy(more, LatestHeld(more, ks[..i + 1], now), now) ==
            if now < st.line.holdUntil && (held.None? || st.line.holdUntil > held.value.until)
            then Some(Deferral(ks[i], DeferThrottled, st.line.holdUntil, Sub(st.line.holdUntil, now), 0, false, NoCause))
            else held
  {
    LatestHeldFrame(keys, keys[ks[i] := st], ks[..i], now);
    assert ks[..i + 1][..i] == ks[..i];
  }

  /** Taking a slot in each of ks, one after the other. */
  function WithSlots(keys: map<string, KeyState>, ks: seq<string>): (m: map<string, KeyState>)
    ensures m.Keys == keys.Keys
  {
    if ks == [] then keys
    else
      var last := ks[|ks| - 1];
      var m := WithSlots(keys, ks[..|ks| - 1]);
      if last in m then m[last := m[last].(inFlight := m[last].inFlight + 1)] else m
  }

  lemma {:induction false} WithSlotsAt(keys: map<string, KeyState>, ks: seq<string>, k: string)
    requires Ascending(ks) && k in keys
    ensures WithSlots(keys, ks)[k] == if k in ks then keys[k].(inFlight := keys[k].inFlight + 1) else keys[k]
  {
    if ks != [] {
      FrontAscends(ks);
      WithSlotsAt(keys, ks[..|ks| - 1], k);
    }
  }

  lemma WithAllSlots(g: State, ks: seq<string>)
    requires Ascending(ks) && forall k :: k in ks ==> k in g.keys
    ensures Taken(g, SetOf(ks)) == g.(keys := WithSlots(g.keys, ks), localInFlight := g.localInFlight + 1)
  {
    var m := WithSlots(g.keys, ks);
    forall k | k in g.keys ensures m[k] == SlotIn(g.keys[k], k in ks) {
      WithSlotsAt(g.keys, ks, k);
    }
    TakenExactly(g, SetOf(ks), m);
  }

  function SlotIn(st: KeyState, taken: bool): KeyState {
    if taken then st.(inFlight := st.inFlight + 1) else st
  }

  lemma TakenExactly(g: State, ks: set<string>, m: map<string, KeyState>)
    requires ks <= g.keys.Keys && m.Keys == g.keys.Keys
    requires forall k :: k in m ==> m[k] == SlotIn(g.keys[k], k in ks)
    ensures Taken(g, ks) == g.(keys := m, localInFlight := g.localInFlight + 1)
  {
    assert Taken(g, ks).keys == m;
  }

  /** Giving a slot back in each of ks, one after the other. */
  function GivenBack(keys: map<string, KeyState>, ks: seq<string>): (m: map<string, KeyState>)
    ensures m.Keys == keys.Keys
  {
    if ks == [] then keys
    else
      var last := ks[|ks| - 1];
      var m := GivenBack(keys, ks[..|ks| - 1]);
      if last in m then m[last := m[last].(inFlight := LessOne(m[last].inFlight))] else m
  }

  lemma {:induction false} GivenBackAt(keys: map<string, KeyState>, ks: seq<string>, k: string)
    requires Ascending(ks) && k in keys
    ensures GivenBack(keys, ks)[k] == if k in ks then keys[k].(inFlight := LessOne(keys[k].inFlight)) else keys[k]
  {
    if ks != [] {
      FrontAscends(ks);
      GivenBackAt(keys, ks[..|ks| - 1], k);
    }
  }

  lemma AllGivenBack(g: State, ks: seq<string>)
    requires Ascending(ks)
    ensures Released(g, SetOf(ks)) ==
            g.(keys := GivenBack(g.keys, ks), localInFlight := LessOne(g.localInFlight))
  {
    forall k | k in g.keys
      ensures GivenBack(g.keys, ks)[k] == if k in ks then g.keys[k].(inFlight := LessOne(g.keys[k].inFlight)) else g.keys[k]
    {
      GivenBackAt(g.keys, ks, k);
    }
    assert Released(g, SetOf(ks)).keys == GivenBack(g.keys, ks);
  }

  lemma AllLifted(s: Setup, g: State, keys: map<string, KeyState>)
    requires keys.Keys == g.keys.Keys
    requires forall k :: k in keys ==>
               keys[k] == g.keys[k].(line := Lifted(g.keys[k].line, Ceiling(s, g),
                                                    Ceiling(s, g.(reconcilers := g.reconcilers + 1))))
    ensures keys == Registered(s, g).keys
  {
  }

  lemma AllTouched(s: Setup, g: State, ks: set<string>, keys: map<string, KeyState>, now: Time)
    requires keys.Keys == g.keys.Keys && ks <= g.keys.Keys
    requires forall k :: k in keys ==> keys[k] == if k in ks then TouchedKey(s, g, k, now) else g.keys[k]
    ensures Touched(s, g, ks, now) == g.(keys := keys)
  {
    assert Touched(s, g, ks, now).keys == keys;
  }

  /** What a call makes of the system, once acquire left its core as g. */
  function Called(y: System, names: seq<string>, g: State, d: Option<Deferral>): System {
    if d.Some? then y.(g := g) else System(g, y.leases[y.next := Named(names)], y.next + 1)
  }

  /** A call's step, from what acquire did. */
  lemma CallDone(s: Setup, y: System, names: seq<string>, now: Time, draw: Option<nat>, g: State, d: Option<Deferral>)
    requires Sensible(s) && Sound(s, y) && d == Answer(s, y, names, now, draw)
    requires var g1 := Touched(s, y.g, Named(names), now);
             && (d.None? ==> Named(names) <= g1.keys.Keys)
             && g == if d.Some? then g1 else Taken(g1, Named(names))
    ensures CallSteps(s, y, names, now, draw, Called(y, names, g, d))
  {
    AcquireStep(s, y, names, now, draw);
    AcquireSound(s, y, names, now, draw);
  }

  /** y' is the sound system after the call. */
  ghost predicate CallSteps(s: Setup, y: System, names: seq<string>, now: Time, draw: Option<nat>, y': System) {
    Sensible(s) && y' == Step(s, y, Op.AcquireAll(names, now, draw)) && Sound(s, y')
  }

  lemma DistinctPrefix(ks: seq<string>, i: nat)
    requires Ascending(ks) && i < |ks|
    ensures ks[i] !in ks[..i]
  {
    AscendingDistinct(ks);
  }

  /** One key's part of a snapshot. */
  datatype KeySnapshot = KeySnapshot(key: string, capacity: int, toReset: Duration)

  function SnapshotOf(k: string, st: KeyState, now: Time): KeySnapshot {
    KeySnapshot(k, st.line.capacity, if now < st.line.holdUntil then Sub(st.line.holdUntil, now) else 0)
  }

  function Listing(keys: map<string, KeyState>, names: seq<string>, now: Time): seq<KeySnapshot>
    requires forall k :: k in names ==> k in keys
  {
    seq(|names|, i requires 0 <= i < |names| => SnapshotOf(names[i], keys[names[i]], now))
  }

  lemma ListingShowsAll(keys: map<string, KeyState>, names: seq<string>, now: Time)
    requires Ascending(names) && SetOf(names) == keys.Keys
    ensures forall k :: k in names ==> k in keys
    ensures var shown := Listing(keys, names, now);
            && (forall i, j :: 0 <= i < j < |shown| ==> Less(shown[i].key, shown[j].key))
            && (set x | x in shown) == (set k | k in keys :: SnapshotOf(k, keys[k], now))
            && forall x :: x in shown ==>
                 && x.key in keys && x.capacity == keys[x.key].line.capacity
                 && x.toReset == Max(0, Min(keys[x.key].line.holdUntil - now, MAX_DURATION))
  {
    assert forall k :: k in names ==> k in SetOf(names);
    var shown := Listing(keys, names, now);
    forall k | k in keys ensures SnapshotOf(k, keys[k], now) in shown {
      assert k in SetOf(names);
      var i :| 0 <= i < |names| && names[i] == k;
      assert shown[i] == SnapshotOf(k, keys[k], now);
    }
  }

  class Governor {
    const perController: int
    const ignoreSignals: bool
    const recovery: int
    /** null when saturation is disabled. */
    const sat: Sampler?

    var keys: map<string, KeyState>
    var localInFlight: int
    var reconcilers: nat
    var local: LocalState
    var samplerStarted: bool

    /** The release closures handed out and not called yet. */
    ghost var leases: map<nat, set<string>>
    ghost var next: nat

    ghost function Configured(): Setup {
      Setup(perController, ignoreSignals, recovery, if sat == null then None else Some(sat.opts))
    }

    ghost function Core(): State
      reads this, sat
    {
      State(keys, localInFlight, reconcilers, local, if sat == null then Memory(0, false) else sat.View(), samplerStarted)
    }

    ghost function View(): System
      reads this, sat
    {
      System(Core(), leases, next)
    }

    ghost predicate Valid()
      reads this, sat
    {
      Sensible(Configured()) && Sound(Configured(), View())
    }

    constructor Configure(s: Setup, sat: Sampler?)
      requires Sensible(s)
      requires sat == null <==> s.saturation.None?
      requires sat != null ==> sat.opts == s.saturation.value && sat.View() == Memory(0, false)
      ensures Valid() && Configured() == s && this.sat == sat
      ensures View() == Begin(s)
    {
      perController, ignoreSignals, recovery := s.perController, s.ignoreSignals, s.recovery;
      this.sat := sat;
      keys, localInFlight, reconcilers := map[], 0, 0;
      local := if sat == null then LocalState(s.perController, [], false) else LocalState(1, [], true);
      samplerStarted := false;
      leases, next := map[], 0;
      new;
      assert View() == Begin(s);
      BeginSound(s);
    }

    /** New refuses settings that are out of range, and defaults those left unset. */
    static method Create(perController: int, ignoreSignals: bool, recovery: Duration, saturation: Option<Options>)
      returns (g: Governor?)
      ensures g == null <==> GovernorState.New(perController, ignoreSignals, recovery, saturation).None?
      ensures g != null ==>
                && fresh(g) && (g.sat != null ==> fresh(g.sat)) && g.Valid()
                && Some(g.Configured()) == GovernorState.New(perController, ignoreSignals, recovery, saturation)
                && g.View() == Begin(g.Configured())
    {
      if perController < 1 || recovery < 0 {
        return null;
      }
      var r := if recovery == 0 then 30 * SECOND else recovery;
      if saturation.None? {
        g := new Governor.Configure(Setup(perController, ignoreSignals, r, None), null);
        return;
      }
      var d := WithDefaults(saturation.value);
      if d.None? {
        return null;
      }
      DefaultsAreUsable(saturation.value);
      var sampler := new Sampler(d.value);
      g := new Governor.Configure(Setup(perController, ignoreSignals, r, d), sampler);
    }

    function CeilingLocked(): int
      reads `reconcilers
    {
      perController * Max(1, reconcilers)
    }

    /** maybeRaiseLocked. */
    method MaybeRaise(st: KeyState, now: Time) returns (raised: KeyState)
      ensures raised == st.(line := Raised(st.line, CeilingLocked(), recovery, now))
    {
      raised := st;
      if st.line.capacity >= CeilingLocked() || now < st.line.holdUntil {
        return;
      }
      var cleanSince := st.line.lastReduce;
      if st.line.holdUntil > cleanSince {
        cleanSince := st.line.holdUntil;
      }
      if Sub(now, cleanSince) < recovery || Sub(now, st.line.lastRaise) < recovery {
        return;
      }
      raised := st.(line := st.line.(capacity := st.line.capacity + 1, lastRaise := now));
    }

    /** A key's state, made at the ceiling when there is none, and raised when it is due. */
    method Touch(k: string, now: Time) returns (st: KeyState)
      modifies `keys
      ensures keys == old(keys)[k := st]
      ensures st == TouchedKey(Configured(), old(Core()), k, now)
    {
      st := if k in keys then keys[k] else KeyState(Line(CeilingLocked(), 0, 0, 0), 0);
      st := MaybeRaise(st, now);
      keys := keys[k := st];
    }

    /** Touch every key, and find the one held longest. */
    method TouchAll(ks: seq<string>, now: Time) returns (held: Option<Deferral>)
      requires Ascending(ks)
      modifies `keys
      ensures Core() == Touched(Configured(), old(Core()), SetOf(ks), now)
      ensures held == HeldBy(keys, LatestHeld(keys, ks, now), now)
    {
      held := None;
      ghost var s, g0 := Configured(), Core();
      var i := 0;
      while i < |ks|
        invariant 0 <= i <= |ks|
        invariant keys == TouchedAlong(s, g0, ks[..i], now)
        invariant held == HeldBy(keys, LatestHeld(keys, ks[..i], now), now)
      {
        DistinctPrefix(ks, i);
        assert ks[..i + 1][..i] == ks[..i];
        HeldSnoc(keys, ks, i, TouchedKey(s, g0.(keys := keys), ks[i], now), now);
        var st := Touch(ks[i], now);
        if now < st.line.holdUntil && (held.None? || st.line.holdUntil > held.value.until) {
          held := Some(Deferral(ks[i], DeferThrottled, st.line.holdUntil, Sub(st.line.holdUntil, now), 0, false, NoCause));
        }
        i := i + 1;
      }
      assert ks[..|ks|] == ks;
      TouchedWhole(s, g0, ks, now);
    }

    /** The first full key. */
    method FindFull(ks: seq<string>) returns (full: Option<string>)
      requires forall k :: k in ks ==> k in keys
      ensures full == FirstFull(keys, ks)
    {
      var i := 0;
      while i < |ks|
        invariant 0 <= i <= |ks| && FirstFull(keys, ks[..i]).None?
      {
        assert ks[..i + 1][..i] == ks[..i];
        if keys[ks[i]].inFlight >= keys[ks[i]].line.capacity {
          FirstFullStays(keys, ks, i + 1);
          return Some(ks[i]);
        }
        i := i + 1;
      }
      assert ks[..|ks|] == ks;
      return None;
    }

    /** Take one slot in one key. */
    method TakeSlot(k: string)
      requires k in keys
      modifies `keys
      ensures keys == old(keys)[k := old(keys)[k].(inFlight := old(keys)[k].inFlight + 1)]
    {
      var st := keys[k];
      keys := keys[k := st.(inFlight := st.inFlight + 1)];
    }

    /** Take one slot in every key. */
    method TakeSlots(ks: seq<string>)
      requires forall i :: 0 <= i < |ks| ==> ks[i] in keys
      modifies `keys
      ensures keys == WithSlots(old(keys), ks)
    {
      ghost var was := keys;
      var i := 0;
      while i < |ks|
        invariant 0 <= i <= |ks|
        invariant keys == WithSlots(was, ks[..i])
      {
        assert ks[..i + 1][..i] == ks[..i];
        TakeSlot(ks[i]);
        i := i + 1;
      }
      assert ks[..|ks|] == ks;
    }

    /** How long the startup ramp still needs. */
    method RampLeftLocked(capacity: int) returns (left: Duration)
      requires sat != null
      ensures left == RampLeft(Configured(), Core(), capacity)
    {
      var step := sat.opts.rampInterval;
      if step < sat.opts.samplePeriod {
        step := sat.opts.samplePeriod;
      }
      return Wrapped((CeilingLocked() - capacity) * step);
    }

    /** Why the local capacity stops a call. */
    method DeferLocally(ks: seq<string>, draw: Option<nat>) returns (d: Deferral)
      requires local.ramping ==> sat != null
      ensures d == LocalDeferral(Configured(), Core(), ks, draw)
    {
      var key := "";
      if |ks| == 1 {
        key := ks[0];
      }
      d := Deferral(key, DeferAtCapacity, 0, Jitter(recovery, draw), local.capacity, true,
                    if local.cause == [] then NoCause else Inputs(local.cause));
      if local.cause != [] {
        d := d.(reason := DeferSaturated);
      } else if local.ramping && samplerStarted {
        var left := RampLeftLocked(local.capacity);
        d := d.(reason := DeferRamping, requeueAfter := Jitter(Min(recovery, left), draw));
      } else if local.ramping {
        d := d.(cause := SamplerNotStarted);
      }
    }

    /** acquire: every check runs before the first slot is taken. */
    method Acquire(ks: seq<string>, now: Time, draw: Option<nat>) returns (d: Option<Deferral>)
      requires Ascending(ks) && (local.ramping ==> sat != null)
      modifies `keys, `localInFlight
      ensures var g1 := Touched(Configured(), old(Core()), SetOf(ks), now);
              && d == Refusal(Configured(), g1, ks, now, draw)
              && Core() == if d.Some? then g1 else Taken(g1, SetOf(ks))
    {
      d := TouchAll(ks, now);
      if d.None? {
        d := AcquireTouched(ks, now, draw);
      }
    }

    /** The checks that follow the holds, and the slots. */
    method AcquireTouched(ks: seq<string>, now: Time, draw: Option<nat>) returns (d: Option<Deferral>)
      requires Ascending(ks) && (local.ramping ==> sat != null) && forall k :: k in ks ==> k in keys
      requires LatestHeld(keys, ks, now).None?
      modifies `keys, `localInFlight
      ensures d == Refusal(Configured(), old(Core()), ks, now, draw)
      ensures Core() == if d.Some? then old(Core()) else Taken(old(Core()), SetOf(ks))
    {
      var full := FindFull(ks);
      if full.Some? {
        return Some(Deferral(full.value, DeferAtCapacity, 0, Jitter(recovery, draw),
                             keys[full.value].line.capacity, false, NoCause));
      }
      if localInFlight >= local.capacity {
        var l := DeferLocally(ks, draw);
        return Some(l);
      }
      WithAllSlots(Core(), ks);
      TakeSlots(ks);
      localInFlight := localInFlight + 1;
      return None;
    }

    /** AcquireAll: a slot in every scope named and a local one, with the closure that gives them back; or
        nothing, and why. */
    method AcquireAll(names: seq<string>, now: Time, draw: Option<nat>) returns (slot: Slot?, d: Option<Deferral>)
      requires Valid()
      modifies `keys, `localInFlight, `leases, `next
      ensures Valid()
      ensures View() == Step(Configured(), old(View()), Op.AcquireAll(names, now, draw))
      ensures d == Answer(Configured(), old(View()), names, now, draw)
      ensures slot == null <==> d.Some?
      ensures slot != null ==> fresh(slot) && slot.governor == this && slot.Valid() && !slot.called && slot.id == old(next)
    {
      ghost var y := View();
      var ks;
      ks, d := AcquireNamed(names, now, draw, y);
      slot := null;
      if d.None? {
        slot := Lend(ks, Called(y, names, Core(), d));
      }
      assert CallSteps(Configured(), y, names, now, draw, View());
    }

    /** The names of a call in order, and acquire on them. */
    method AcquireNamed(names: seq<string>, now: Time, draw: Option<nat>, ghost y: System)
      returns (ks: seq<string>, d: Option<Deferral>)
      requires Valid() && y == View()
      modifies `keys, `localInFlight
      ensures Ascending(ks) && SetOf(ks) == Named(names)
      ensures d == Answer(Configured(), y, names, now, draw)
      ensures CallSteps(Configured(), y, names, now, draw, Called(y, names, Core(), d))
    {
      NormalizeKeepsNames(names);
      ks := Normalize(names);
      assert SetOf(ks) == Named(names);
      AnswerIsRefusal(Configured(), y, names, now, draw);
      d := Acquire(ks, now, draw);
      CallDone(Configured(), y, names, now, draw, Core(), d);
    }

    /** The release closure of a granted call. */
    method Lend(ks: seq<string>, ghost y: System) returns (slot: Slot)
      requires Ascending(ks) && Sensible(Configured()) && Sound(Configured(), y)
      requires y == System(Core(), leases[next := SetOf(ks)], next + 1)
      modifies `leases, `next
      ensures View() == y
      ensures fresh(slot) && slot.governor == this && slot.Valid() && !slot.called && slot.id == old(next)
    {
      leases, next := leases[next := SetOf(ks)], next + 1;
      slot := new Slot(this, ks, next - 1);
    }

    /** Give one slot back in every key. */
    method GiveSlotsBack(ks: seq<string>)
      modifies `keys
      ensures keys == GivenBack(old(keys), ks)
    {
      ghost var was := keys;
      var i := 0;
      while i < |ks|
        invariant 0 <= i <= |ks|
        invariant keys == GivenBack(was, ks[..i])
      {
        assert ks[..i + 1][..i] == ks[..i];
        if ks[i] in keys && keys[ks[i]].inFlight > 0 {
          keys := keys[ks[i] := keys[ks[i]].(inFlight := keys[ks[i]].inFlight - 1)];
        }
        i := i + 1;
      }
      assert ks[..|ks|] == ks;
    }

    /** What a release closure does the first time. */
    method GiveBack(ks: seq<string>, ghost id: nat)
      requires Valid() && Ascending(ks) && id in leases && leases[id] == SetOf(ks)
      modifies `keys, `localInFlight, `leases
      ensures Valid() && View() == Step(Configured(), old(View()), Op.Release(id))
    {
      ghost var y := View();
      ReleaseSound(Configured(), y, id);
      AllGivenBack(y.g, ks);
      GiveSlotsBack(ks);
      if localInFlight > 0 {
        localInFlight := localInFlight - 1;
      }
      leases := leases - {id};
      assert View() == Step(Configured(), y, Op.Release(id));
    }

    method Observe(x: Signal, now: Time)
      requires Valid()
      modifies `keys
      ensures Valid() && View() == Step(Configured(), old(View()), Op.Observe(x, now))
    {
      ObserveSound(Configured(), View(), x, now);
      if x.key == "" || ignoreSignals {
        return;
      }
      var kind := Classify(x, now);
      if kind == Kind.Nothing {
        return;
      }
      var st := if x.key in keys then keys[x.key] else KeyState(Line(CeilingLocked(), 0, 0, 0), 0);
      match kind {
        case Throttled =>
          st := st.(line := st.line.(capacity := CAPACITY_FLOOR));
          var d := Deadline(x, now);
          if d > st.line.holdUntil {
            st := st.(line := st.line.(holdUntil := d));
          }
        case Advisory =>
          st := st.(line := st.line.(capacity := Max(CAPACITY_FLOOR, st.line.capacity / 2)));
        case Nothing =>
      }
      keys := keys[x.key := st.(line := st.line.(lastReduce := now))];
    }

    /** Lift every key that stands at the old ceiling. */
    method LiftKeys(was: int, ceiling: int)
      modifies `keys
      ensures keys.Keys == old(keys).Keys
      ensures forall k :: k in keys ==> keys[k] == old(keys)[k].(line := Lifted(old(keys)[k].line, was, ceiling))
    {
      ghost var before := keys;
      var todo := keys.Keys;
      while todo != {}
        invariant todo <= before.Keys == keys.Keys
        invariant forall k :: k in todo ==> keys[k] == before[k]
        invariant forall k :: k in before && k !in todo ==>
                    keys[k] == before[k].(line := Lifted(before[k].line, was, ceiling))
      {
        var k :| k in todo;
        if keys[k].line.capacity == was {
          keys := keys[k := keys[k].(line := keys[k].line.(capacity := ceiling))];
        }
        todo := todo - {k};
      }
    }

    method RegisterReconciler()
      requires Valid()
      modifies `keys, `reconcilers, `local
      ensures Valid() && View() == Step(Configured(), old(View()), Op.Register)
    {
      ghost var y := View();
      RegisterSound(Configured(), y);
      var was := CeilingLocked();
      reconcilers := reconcilers + 1;
      var ceiling := CeilingLocked();
      LiftKeys(was, ceiling);
      AllLifted(Configured(), y.g, keys);
      if sat == null && local.capacity == was {
        local := local.(capacity := ceiling);
      }
      assert View() == Step(Configured(), y, Op.Register);
    }

    /** A key's current capacity: at most this many of its calls may be in flight. */
    method Capacity(key: string, now: Time) returns (c: int)
      requires Valid()
      modifies `keys
      ensures Valid() && View() == Step(Configured(), old(View()), Op.Capacity(key, now))
      ensures c == KeyOf(Configured(), Core(), key).line.capacity
    {
      if key !in keys {
        return CeilingLocked();
      }
      TouchedSound(Configured(), View(), {key}, now);
      var st := MaybeRaise(keys[key], now);
      keys := keys[key := st];
      AllTouched(Configured(), old(Core()), {key}, keys, now);
      return st.line.capacity;
    }

    /** Touch every known key, and list their names in order. */
    method TouchKnown(now: Time) returns (names: seq<string>)
      modifies `keys
      ensures Core() == Touched(Configured(), old(Core()), old(keys).Keys, now)
      ensures Ascending(names) && SetOf(names) == keys.Keys
    {
      ghost var before := Core();
      names := [];
      var todo := keys.Keys;
      while todo != {}
        invariant todo <= before.keys.Keys == keys.Keys
        invariant forall k :: k in todo ==> keys[k] == before.keys[k]
        invariant forall k :: k in before.keys && k !in todo ==> keys[k] == TouchedKey(Configured(), before, k, now)
        invariant Ascending(names) && SetOf(names) == keys.Keys - todo
      {
        var k :| k in todo;
        var st := MaybeRaise(keys[k], now);
        keys := keys[k := st];
        InsertAscending(k, names);
        assert SetOf(Insert(k, names)) == SetOf(names) + {k};
        names := Insert(k, names);
        todo := todo - {k};
      }
      AllTouched(Configured(), before, before.keys.Keys, keys, now);
    }

    /** The keys in order, each with its capacity and the time left to its hold. */
    method Snapshot(now: Time) returns (shown: seq<KeySnapshot>)
      requires Valid()
      modifies `keys
      ensures Valid() && View() == Step(Configured(), old(View()), Op.Snapshot(now))
      ensures forall i, j :: 0 <= i < j < |shown| ==> Less(shown[i].key, shown[j].key)
      ensures (set x | x in shown) == (set k | k in keys :: SnapshotOf(k, keys[k], now))
    {
      TouchedSound(Configured(), View(), keys.Keys, now);
      var names := TouchKnown(now);
      assert forall k :: k in names ==> k in SetOf(names);
      ListingShowsAll(keys, names, now);
      shown := Listing(keys, names, now);
    }

    /** Take one saturation sample and publish the new local capacity. */
    method Sample(x: Saturation.Sample, now: Time)
      requires Valid() && sat != null
      modifies `local, sat
      ensures Valid() && View() == Step(Configured(), old(View()), Op.TakeSample(x, now))
    {
      SampleSound(Configured(), View(), x, now);
      local := sat.Step(now, x, local, CeilingLocked(), recovery);
    }

    /** Start marks the sampler as running when saturation is on. */
    method Start()
      requires Valid()
      modifies `samplerStarted
      ensures Valid() && View() == Step(Configured(), old(View()), Op.StartSampler)
    {
      StepSound(Configured(), View(), Op.StartSampler);
      samplerStarted := sat != null;
    }
  }

  lemma {:induction false} FirstFullStays(keys: map<string, KeyState>, ks: seq<string>, i: nat)
    requires i <= |ks| && (forall k :: k in ks ==> k in keys) && FirstFull(keys, ks[..i]).Some?
    ensures FirstFull(keys, ks) == FirstFull(keys, ks[..i])
    decreases |ks|
  {
    if i < |ks| {
      assert ks[..|ks| - 1][..i] == ks[..i];
      FirstFullStays(keys, ks[..|ks| - 1], i);
    } else {
      assert ks[..i] == ks;
    }
  }

  /** The release closure of a granted call, with the keys it captured. */
  class Slot {
    const governor: Governor
    const keys: seq<string>
    ghost const id: nat
    var called: bool

    ghost predicate Valid()
      reads this, governor, governor.sat
    {
      && governor.Valid()
      && Ascending(keys)
      && id < governor.next
      && if called then id !in governor.leases
         else id in governor.leases && governor.leases[id] == SetOf(keys)
    }

    constructor (g: Governor, ks: seq<string>, ghost id: nat)
      requires g.Valid() && Ascending(ks) && id < g.next && id in g.leases && g.leases[id] == SetOf(ks)
      ensures governor == g && keys == ks && this.id == id && !called && Valid()
    {
      governor, keys, called := g, ks, false;
      this.id := id;
    }

    /** Gives the slots back once, however often it is called. */
    method Release()
      requires Valid()
      modifies this, governor`keys, governor`localInFlight, governor`leases
      ensures Valid() && called
      ensures governor.View() == Step(governor.Configured(), old(governor.View()), Op.Release(id))
      ensures old(called) ==> governor.View() == old(governor.View())
    {
      if !called {
        called := true;
        governor.GiveBack(keys, id);
      }
    }
  }
}
