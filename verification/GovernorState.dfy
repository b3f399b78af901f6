/** The governor's mutex sections as functions of its state (pkg/ratelimit/governor.go). */
module GovernorState {
  import opened Clock
  import opened Signals
  import opened KeySets
  import opened KeyTimeline
  import opened Saturation

  /** A governor's configuration. saturation is None when the local input is off. */
  datatype Setup = Setup(
    perController: int,
    ignoreSignals: bool,
    recovery: int,
    saturation: Option<Options>)

  /** What New accepts, with RecoveryInterval defaulted to 30s. */
  function New(perController: int, ignoreSignals: bool, recovery: int, saturation: Option<Options>): Option<Setup> {
    if perController < 1 || recovery < 0 then None
    else
      var r := if recovery == 0 then 30 * SECOND else recovery;
      match saturation
      case None => Some(Setup(perController, ignoreSignals, r, None))
      case Some(o) =>
        match WithDefaults(o)
        case None => None
        case Some(d) => Some(Setup(perController, ignoreSignals, r, Some(d)))
  }

  predicate Sensible(s: Setup) {
    && 1 <= s.perController
    && 0 < s.recovery <= MAX_DURATION
    && (s.saturation.Some? ==> Usable(s.saturation.value))
  }

  datatype KeyState = KeyState(line: Line, inFlight: int)

  datatype State = State(
    keys: map<string, KeyState>,
    localInFlight: int,
    reconcilers: nat,
    local: LocalState,
    memory: Memory,
    samplerStarted: bool)

  function Initial(s: Setup): State {
    State(map[], 0, 0,
          if s.saturation.Some? then LocalState(1, [], true) else LocalState(s.perController, [], false),
          Memory(0, false), false)
  }

  function Ceiling(s: Setup, g: State): int {
    s.perController * Max(1, g.reconcilers)
  }

  /** A key nobody spoke about stands at the ceiling. */
  function KeyOf(s: Setup, g: State, k: string): KeyState {
    if k in g.keys then g.keys[k] else KeyState(Line(Ceiling(s, g), 0, 0, 0), 0)
  }

  function TouchedKey(s: Setup, g: State, k: string, now: Time): KeyState {
    var st := KeyOf(s, g, k);
    st.(line := Raised(st.line, Ceiling(s, g), s.recovery, now))
  }

  function Touched(s: Setup, g: State, ks: set<string>, now: Time): State {
    g.(keys := g.keys + map k | k in ks :: TouchedKey(s, g, k, now))
  }

  datatype Reason = DeferThrottled | DeferAtCapacity | DeferSaturated | DeferRamping

  /** Why a local deferral says it happened. */
  datatype LocalCause = NoCause | Inputs(causes: seq<Cause>) | SamplerNotStarted

  datatype Deferral = Deferral(
    key: string,
    reason: Reason,
    until: Time,
    requeueAfter: int,
    capacity: int,
    isLocal: bool,
    cause: LocalCause)

  const MIN_CAPACITY_JITTER := SECOND

  /** A delay in [lo, hi], or hi when the draw fails or hi is not above lo. */
  function JitterBetween(lo: int, hi: int, draw: Option<nat>): int {
    if hi <= lo then hi
    else match draw
         case None => hi
         case Some(n) => lo + n % (hi - lo + 1)
  }

  function Jitter(hi: int, draw: Option<nat>): int {
    JitterBetween(MIN_CAPACITY_JITTER, hi, draw)
  }

  /** The key among ks with the latest hold past now, the first of several. */
  function LatestHeld(keys: map<string, KeyState>, ks: seq<string>, now: Time): Option<string>
    requires forall k :: k in ks ==> k in keys
    ensures var h := LatestHeld(keys, ks, now); h.Some? ==> h.value in ks
  {
    if ks == [] then None
    else
      var last := ks[|ks| - 1];
      var h := LatestHeld(keys, ks[..|ks| - 1], now);
      var hold := keys[last].line.holdUntil;
      if now < hold && (h.None? || hold > keys[h.value].line.holdUntil) then Some(last) else h
  }

  /** The first key among ks that is full. */
  function FirstFull(keys: map<string, KeyState>, ks: seq<string>): Option<string>
    requires forall k :: k in ks ==> k in keys
    ensures var f := FirstFull(keys, ks); f.Some? ==> f.value in ks
  {
    if ks == [] then None
    else
      var f := FirstFull(keys, ks[..|ks| - 1]);
      var last := ks[|ks| - 1];
      if f.None? && keys[last].inFlight >= keys[last].line.capacity then Some(last) else f
  }

  /** The time between two steps of the startup ramp, at the slower of its two paces. */
  function RampPace(o: Options): Duration {
    if o.rampInterval < o.samplePeriod then o.samplePeriod else o.rampInterval
  }

  /** How long the startup ramp still needs, as far as a duration can hold it. */
  function RampLeft(s: Setup, g: State, capacity: int): Duration {
    match s.saturation
    case None => 0
    case Some(o) => Wrapped((Ceiling(s, g) - capacity) * RampPace(o))
  }

  function LocalDeferral(s: Setup, g: State, ks: seq<string>, draw: Option<nat>): Deferral {
    var key := if |ks| == 1 then ks[0] else "";
    var d := Deferral(key, DeferAtCapacity, 0, Jitter(s.recovery, draw), g.local.capacity, true,
                      if g.local.cause == [] then NoCause else Inputs(g.local.cause));
    if g.local.cause != [] then d.(reason := DeferSaturated)
    else if g.local.ramping && g.samplerStarted then
      d.(reason := DeferRamping, requeueAfter := Jitter(Min(s.recovery, RampLeft(s, g, g.local.capacity)), draw))
    else if g.local.ramping then d.(cause := SamplerNotStarted)
    else d
  }

  /** Why a call for ks must wait, once its keys are touched; None when nothing stops it. */
  function Refusal(s: Setup, g: State, ks: seq<string>, now: Time, draw: Option<nat>): Option<Deferral>
    requires forall k :: k in ks ==> k in g.keys
  {
    var held := LatestHeld(g.keys, ks, now);
    var full := FirstFull(g.keys, ks);
    if held.Some? then
      var until := g.keys[held.value].line.holdUntil;
      Some(Deferral(held.value, DeferThrottled, until, Sub(until, now), 0, false, NoCause))
    else if full.Some? then
      Some(Deferral(full.value, DeferAtCapacity, 0, Jitter(s.recovery, draw),
                    g.keys[full.value].line.capacity, false, NoCause))
    else if g.localInFlight >= g.local.capacity then Some(LocalDeferral(s, g, ks, draw))
    else None
  }

  function Taken(g: State, ks: set<string>): State
    requires forall k :: k in ks ==> k in g.keys
  {
    g.(keys := g.keys + (map k | k in ks :: g.keys[k].(inFlight := g.keys[k].inFlight + 1)),
       localInFlight := g.localInFlight + 1)
  }

  /** AcquireAll: touch every key, then take a slot in each and one local slot, or none. */
  function Acquired(s: Setup, g: State, keys: seq<string>, now: Time, draw: Option<nat>): (State, Option<Deferral>) {
    var ks := Normalize(keys);
    var all := SetOf(ks);
    var g1 := Touched(s, g, all, now);
    var d := Refusal(s, g1, ks, now, draw);
    if d.Some? then (g1, d) else (Taken(g1, all), None)
  }

  function LessOne(n: int): int {
    if n > 0 then n - 1 else n
  }

  /** What a release closure does the first time it is called. */
  function Released(g: State, ks: set<string>): State {
    g.(keys := g.keys + (map k | k in ks && k in g.keys :: g.keys[k].(inFlight := LessOne(g.keys[k].inFlight))),
       localInFlight := LessOne(g.localInFlight))
  }

  function Observed(s: Setup, g: State, x: Signal, now: Time): State {
    if x.key == "" || s.ignoreSignals || Classify(x, now).Nothing? then g
    else
      var st := KeyOf(s, g, x.key);
      g.(keys := g.keys[x.key := st.(line := Signalled(st.line, x, now))])
  }

  function Registered(s: Setup, g: State): State {
    var was := Ceiling(s, g);
    var g1 := g.(reconcilers := g.reconcilers + 1);
    var ceiling := Ceiling(s, g1);
    g1.(keys := map k | k in g.keys :: g.keys[k].(line := Lifted(g.keys[k].line, was, ceiling)),
        local := if s.saturation.None? && g.local.capacity == was then g.local.(capacity := ceiling) else g.local)
  }

  /** Capacity touches its key only when the governor knows it. */
  function Asked(s: Setup, g: State, k: string, now: Time): State {
    if k in g.keys then Touched(s, g, {k}, now) else g
  }

  function SampledState(s: Setup, g: State, x: Sample, now: Time): State {
    match s.saturation
    case None => g
    case Some(o) =>
      var (local, memory) := Stepped(o, g.memory, g.local, x, now, Ceiling(s, g), s.recovery);
      g.(local := local, memory := memory)
  }
}
