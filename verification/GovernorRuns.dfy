/** What holds of a governor over whole runs of its operations, in any interleaving. */
module GovernorRuns {
  import opened Clock
  import opened Signals
  import opened KeySets
  import opened KeyTimeline
  import opened Saturation
  import opened GovernorState

  datatype Op =
    | AcquireAll(keys: seq<string>, now: Time, draw: Option<nat>)
    | Release(lease: nat)
    | Observe(signal: Signal, now: Time)
    | Register
    | Capacity(key: string, now: Time)
    | Snapshot(now: Time)
    | TakeSample(x: Sample, now: Time)
    | StartSampler

  /** A governor with its outstanding leases, each with the keys its release closure captured. */
  datatype System = System(g: State, leases: map<nat, set<string>>, next: nat)

  function Begin(s: Setup): System {
    System(GovernorState.Initial(s), map[], 0)
  }

  function Step(s: Setup, y: System, op: Op): System {
    match op
    case AcquireAll(keys, now, draw) =>
      var (g, d) := Acquired(s, y.g, keys, now, draw);
      if d.Some? then y.(g := g) else System(g, y.leases[y.next := Named(keys)], y.next + 1)
    case Release(lease) =>
      if lease in y.leases then y.(g := Released(y.g, y.leases[lease]), leases := y.leases - {lease}) else y
    case Observe(x, now) => y.(g := Observed(s, y.g, x, now))
    case Register => y.(g := Registered(s, y.g))
    case Capacity(k, now) => y.(g := Asked(s, y.g, k, now))
    case Snapshot(now) => y.(g := Touched(s, y.g, y.g.keys.Keys, now))
    case TakeSample(x, now) => y.(g := SampledState(s, y.g, x, now))
    case StartSampler => y.(g := y.g.(samplerStarted := s.saturation.Some?))
  }

  function After(s: Setup, y: System, ops: seq<Op>): System
    decreases |ops|
  {
    if ops == [] then y else After(s, Step(s, y, ops[0]), ops[1..])
  }

  /** The deferral a call gets, None when it is granted. */
  function Answer(s: Setup, y: System, keys: seq<string>, now: Time, draw: Option<nat>): Option<Deferral> {
    Acquired(s, y.g, keys, now, draw).1
  }

  // ---- lease conservation and bounds ----

  /** The outstanding leases that hold a slot in k. */
  function Holders(leases: map<nat, set<string>>, k: string): set<nat> {
    set id | id in leases && k in leases[id]
  }

  predicate KeySound(s: Setup, y: System, k: string)
    requires k in y.g.keys
  {
    && 1 <= y.g.keys[k].line.capacity <= Ceiling(s, y.g)
    && y.g.keys[k].inFlight == |Holders(y.leases, k)| <= Ceiling(s, y.g)
  }

  predicate LocalSound(s: Setup, y: System) {
    && 1 <= y.g.local.capacity <= Ceiling(s, y.g)
    && y.g.localInFlight == |y.leases| <= Ceiling(s, y.g)
    && (s.saturation.None? ==> y.g.local == LocalState(Ceiling(s, y.g), [], false))
    && (y.g.memory.cut ==> !y.g.local.ramping)
  }

  predicate LeasesSound(y: System) {
    forall id :: id in y.leases ==> id < y.next && "" !in y.leases[id] && y.leases[id] <= y.g.keys.Keys
  }

  predicate Sound(s: Setup, y: System) {
    && LeasesSound(y)
    && LocalSound(s, y)
    && forall k :: k in y.g.keys ==> KeySound(s, y, k)
  }

  lemma CeilingPositive(s: Setup, g: State)
    requires Sensible(s)
    ensures 1 <= s.perController <= Ceiling(s, g)
    ensures Ceiling(s, g) <= Ceiling(s, g.(reconcilers := g.reconcilers + 1))
  {
  }

  lemma BeginSound(s: Setup)
    requires Sensible(s)
    ensures Sound(s, Begin(s))
  {
  }

  /** A key the governor does not know has no lease on it. */
  lemma UnknownUnheld(s: Setup, y: System, k: string)
    requires Sound(s, y) && k !in y.g.keys
    ensures Holders(y.leases, k) == {}
  {
  }

  lemma TouchedSound(s: Setup, y: System, ks: set<string>, now: Time)
    requires Sensible(s) && Sound(s, y)
    ensures Sound(s, y.(g := Touched(s, y.g, ks, now)))
  {
    var y' := y.(g := Touched(s, y.g, ks, now));
    CeilingPositive(s, y.g);
    forall k | k in y'.g.keys ensures KeySound(s, y', k) {
      if k !in y.g.keys {
        UnknownUnheld(s, y, k);
      } else {
        assert KeySound(s, y, k);
      }
    }
  }

  lemma LatestHeldIsLatest(keys: map<string, KeyState>, ks: seq<string>, now: Time)
    requires forall k :: k in ks ==> k in keys
    ensures var h := LatestHeld(keys, ks, now);
            && (h.None? ==> forall k :: k in ks ==> keys[k].line.holdUntil <= now)
            && (h.Some? ==> now < keys[h.value].line.holdUntil)
            && (h.Some? ==> forall k :: k in ks ==> keys[k].line.holdUntil <= keys[h.value].line.holdUntil)
  {
    if ks != [] {
      var front := ks[..|ks| - 1];
      LatestHeldIsLatest(keys, front, now);
      assert forall k :: k in ks ==> k in front || k == ks[|ks| - 1];
    }
  }

  lemma FirstFullIsFull(keys: map<string, KeyState>, ks: seq<string>)
    requires forall k :: k in ks ==> k in keys
    ensures var f := FirstFull(keys, ks);
            && (f.None? ==> forall k :: k in ks ==> keys[k].inFlight < keys[k].line.capacity)
            && (f.Some? ==> keys[f.value].inFlight >= keys[f.value].line.capacity)
  {
    if ks != [] {
      var front := ks[..|ks| - 1];
      FirstFullIsFull(keys, front);
      assert forall k :: k in ks ==> k in front || k == ks[|ks| - 1];
    }
  }

  predicate Room(g: State, k: string, now: Time)
    requires k in g.keys
  {
    g.keys[k].line.holdUntil <= now && g.keys[k].inFlight < g.keys[k].line.capacity
  }

  /** Main result. A call is granted exactly when none of the scopes it names is held or full and the
      local capacity has room; then it takes one slot in each scope and one local slot. Otherwise it
      takes none. Either way its keys are touched. */
  lemma AllOrNothing(s: Setup, g: State, keys: seq<string>, now: Time, draw: Option<nat>)
    ensures var g1 := Touched(s, g, Named(keys), now);
            var (g', d) := Acquired(s, g, keys, now, draw);
            && (d.None? <==> (forall k :: k in Named(keys) ==> Room(g1, k, now))
                             && g1.localInFlight < g1.local.capacity)
            && g' == if d.None? then Taken(g1, Named(keys)) else g1
  {
    var ks := Normalize(keys);
    NormalizeKeepsNames(keys);
    assert SetOf(ks) == Named(keys);
    var g1 := Touched(s, g, Named(keys), now);
    LatestHeldIsLatest(g1.keys, ks, now);
    FirstFullIsFull(g1.keys, ks);
    if forall k :: k in Named(keys) ==> Room(g1, k, now) {
      assert forall k :: k in ks ==> Room(g1, k, now);
    }
  }

  lemma HoldersGrow(leases: map<nat, set<string>>, id: nat, ks: set<string>, k: string)
    requires id !in leases
    ensures |Holders(leases[id := ks], k)| == |Holders(leases, k)| + if k in ks then 1 else 0
    ensures |leases[id := ks]| == |leases| + 1
  {
    var after := Holders(leases[id := ks], k);
    assert after == if k in ks then Holders(leases, k) + {id} else Holders(leases, k);
  }

  lemma HoldersShrink(leases: map<nat, set<string>>, id: nat, k: string)
    requires id in leases
    ensures |Holders(leases - {id}, k)| == |Holders(leases, k)| - if k in leases[id] then 1 else 0
    ensures |leases - {id}| == |leases| - 1
  {
    var after := Holders(leases - {id}, k);
    assert after == Holders(leases, k) - {id};
    assert k in leases[id] ==> id in Holders(leases, k);
    assert (leases - {id}).Keys == leases.Keys - {id};
    assert |(leases - {id}).Keys| == |leases - {id}|;
  }

  lemma AcquireSound(s: Setup, y: System, keys: seq<string>, now: Time, draw: Option<nat>)
    requires Sensible(s) && Sound(s, y)
    ensures Sound(s, Step(s, y, AcquireAll(keys, now, draw)))
  {
    var y1 := y.(g := Touched(s, y.g, Named(keys), now));
    TouchedSound(s, y, Named(keys), now);
    AllOrNothing(s, y.g, keys, now, draw);
    AcquireStep(s, y, keys, now, draw);
    if Answer(s, y, keys, now, draw).None? {
      GrantSound(s, y1, Named(keys), now);
    }
  }

  /** acquire decides on the normalized keys, once they are touched. */
  lemma AnswerIsRefusal(s: Setup, y: System, keys: seq<string>, now: Time, draw: Option<nat>)
    ensures Answer(s, y, keys, now, draw) ==
            Refusal(s, Touched(s, y.g, SetOf(Normalize(keys)), now), Normalize(keys), now, draw)
  {
  }

  lemma AcquireStep(s: Setup, y: System, keys: seq<string>, now: Time, draw: Option<nat>)
    ensures var g1 := Touched(s, y.g, Named(keys), now);
            && (Answer(s, y, keys, now, draw).None? ==> Named(keys) <= g1.keys.Keys)
            && Step(s, y, AcquireAll(keys, now, draw)) ==
               if Answer(s, y, keys, now, draw).Some? then y.(g := g1)
               else System(Taken(g1, Named(keys)), y.leases[y.next := Named(keys)], y.next + 1)
  {
    AllOrNothing(s, y.g, keys, now, draw);
  }

  lemma GrantSound(s: Setup, y: System, ks: set<string>, now: Time)
    requires Sound(s, y) && ks <= y.g.keys.Keys && "" !in ks
    requires forall k :: k in ks ==> Room(y.g, k, now)
    requires y.g.localInFlight < y.g.local.capacity
    ensures Sound(s, System(Taken(y.g, ks), y.leases[y.next := ks], y.next + 1))
  {
    var y' := System(Taken(y.g, ks), y.leases[y.next := ks], y.next + 1);
    GrantedLeasesSound(s, y, ks);
    forall k | k in y'.g.keys ensures KeySound(s, y', k) {
      assert KeySound(s, y, k);
      assert k in ks ==> Room(y.g, k, now);
      GrantedKeySound(s, y, ks, k);
    }
  }

  lemma GrantedLeasesSound(s: Setup, y: System, ks: set<string>)
    requires LeasesSound(y) && LocalSound(s, y) && ks <= y.g.keys.Keys && "" !in ks
    requires y.g.localInFlight < y.g.local.capacity
    ensures y.next !in y.leases
    ensures var y' := System(Taken(y.g, ks), y.leases[y.next := ks], y.next + 1);
            y'.g.keys.Keys == y.g.keys.Keys && LeasesSound(y') && LocalSound(s, y')
  {
    HoldersGrow(y.leases, y.next, ks, "");
  }

  lemma GrantedKeySound(s: Setup, y: System, ks: set<string>, k: string)
    requires ks <= y.g.keys.Keys && k in y.g.keys && KeySound(s, y, k) && y.next !in y.leases
    requires k in ks ==> y.g.keys[k].inFlight < y.g.keys[k].line.capacity
    ensures var y' := System(Taken(y.g, ks), y.leases[y.next := ks], y.next + 1);
            k in y'.g.keys && KeySound(s, y', k)
  {
    HoldersGrow(y.leases, y.next, ks, k);
  }

  /** The guards in a release never fire: every slot it gives back was taken. */
  lemma ReleaseGuardsNeverFire(s: Setup, y: System, lease: nat)
    requires Sound(s, y) && lease in y.leases
    ensures y.leases[lease] <= y.g.keys.Keys
    ensures forall k :: k in y.leases[lease] ==> y.g.keys[k].inFlight > 0
    ensures y.g.localInFlight > 0
  {
    forall k | k in y.leases[lease] ensures y.g.keys[k].inFlight > 0 {
      assert KeySound(s, y, k);
      assert lease in Holders(y.leases, k);
    }
    assert lease in y.leases.Keys;
    assert |y.leases.Keys| == |y.leases|;
  }

  lemma ReleaseSound(s: Setup, y: System, lease: nat)
    requires Sound(s, y)
    ensures Sound(s, Step(s, y, Release(lease)))
  {
    if lease in y.leases {
      ReleaseGuardsNeverFire(s, y, lease);
      var y' := Step(s, y, Release(lease));
      HoldersShrink(y.leases, lease, "");
      forall k | k in y'.g.keys ensures KeySound(s, y', k) {
        assert KeySound(s, y, k);
        HoldersShrink(y.leases, lease, k);
      }
    }
  }

  /** Releasing a lease again changes nothing. */
  lemma DoubleReleaseIsNothing(s: Setup, y: System, lease: nat)
    ensures var y' := Step(s, y, Release(lease)); Step(s, y', Release(lease)) == y'
  {
  }

  lemma ObserveSound(s: Setup, y: System, x: Signal, now: Time)
    requires Sensible(s) && Sound(s, y)
    ensures Sound(s, Step(s, y, Observe(x, now)))
  {
    var y' := Step(s, y, Observe(x, now));
    CeilingPositive(s, y.g);
    forall k | k in y'.g.keys ensures KeySound(s, y', k) {
      if k in y.g.keys {
        assert KeySound(s, y, k);
      } else {
        UnknownUnheld(s, y, k);
      }
    }
  }

  lemma RegisterSound(s: Setup, y: System)
    requires Sensible(s) && Sound(s, y)
    ensures Sound(s, Step(s, y, Register))
  {
    var y' := Step(s, y, Register);
    CeilingPositive(s, y.g);
    forall k | k in y'.g.keys ensures KeySound(s, y', k) {
      assert KeySound(s, y, k);
    }
  }

  lemma SampleSound(s: Setup, y: System, x: Sample, now: Time)
    requires Sensible(s) && Sound(s, y)
    ensures Sound(s, Step(s, y, TakeSample(x, now)))
  {
    var y' := Step(s, y, TakeSample(x, now));
    assert Ceiling(s, y'.g) == Ceiling(s, y.g);
    forall k | k in y'.g.keys ensures KeySound(s, y', k) {
      assert KeySound(s, y, k);
    }
  }

  lemma StepSound(s: Setup, y: System, op: Op)
    requires Sensible(s) && Sound(s, y)
    ensures Sound(s, Step(s, y, op))
  {
    match op
    case AcquireAll(keys, now, draw) => AcquireSound(s, y, keys, now, draw);
    case Release(lease) => ReleaseSound(s, y, lease);
    case Observe(x, now) => ObserveSound(s, y, x, now);
    case Register => RegisterSound(s, y);
    case Capacity(k, now) => if k in y.g.keys { TouchedSound(s, y, {k}, now); }
    case Snapshot(now) => TouchedSound(s, y, y.g.keys.Keys, now);
    case TakeSample(x, now) => SampleSound(s, y, x, now);
    case StartSampler =>
      var y' := Step(s, y, op);
      forall k | k in y'.g.keys ensures KeySound(s, y', k) {
        assert KeySound(s, y, k);
      }
  }

  lemma {:induction false} AlwaysSound(s: Setup, y: System, ops: seq<Op>)
    requires Sensible(s) && Sound(s, y)
    ensures Sound(s, After(s, y, ops))
    decreases |ops|
  {
    if ops != [] {
      StepSound(s, y, ops[0]);
      AlwaysSound(s, Step(s, y, ops[0]), ops[1..]);
    }
  }

  /** Main result. In every reachable state each key's in-flight count is the number of outstanding
      leases on it, the local count is the number of outstanding leases, none exceeds the ceiling, and
      every capacity lies between 1 and the ceiling. */
  lemma LeasesConserved(s: Setup, ops: seq<Op>)
    requires Sensible(s)
    ensures var y := After(s, Begin(s), ops);
            && y.g.localInFlight == |y.leases| <= Ceiling(s, y.g)
            && 1 <= y.g.local.capacity <= Ceiling(s, y.g)
            && forall k :: k in y.g.keys ==>
                 && y.g.keys[k].inFlight == |Holders(y.leases, k)| <= Ceiling(s, y.g)
                 && 1 <= y.g.keys[k].line.capacity <= Ceiling(s, y.g)
  {
    BeginSound(s);
    AlwaysSound(s, Begin(s), ops);
    var y := After(s, Begin(s), ops);
    forall k | k in y.g.keys
      ensures y.g.keys[k].inFlight == |Holders(y.leases, k)| <= Ceiling(s, y.g)
              && 1 <= y.g.keys[k].line.capacity <= Ceiling(s, y.g)
    {
      assert KeySound(s, y, k);
    }
  }
}
