/** The world around the passes of one object: the versioned store, the other writers, the external
    API with its lag, crashes at any point, and the clock. */
module Handshake {
  import opened Clock
  import opened Meta
  import opened ReconcilePass

  /** Timing of the external API. A resource that landed at t shows in every Observe from
      t + visibility on; a create lands before its marker is createBound old, or never; a pass
      finishes its absence checks within observeBound of the instant Observe looked. Two further
      properties of the surroundings can be switched on: laterSecond, that a pending marker falls in
      a later second than the newest terminal one; and exactErrors, that a Create which answers with
      an error landed nothing and never will. patience is how old the pending marker of an unresolved
      create is at least when a pass lets its deleted object go; the code itself has none. */
  datatype Env = Env(
    c: Config,
    visibility: nat,
    createBound: nat,
    observeBound: nat,
    laterSecond: bool,
    exactErrors: bool,
    patience: Duration)

  /** One issued external Create. */
  datatype Attempt =
    | InFlight(markedAt: Time)
    | Live(markedAt: Time, at: Time)
    | Dead

  /** How far the pass's current effect got: not started, Create issued but not answered, or
      answered but not yet acted on. */
  datatype Phase = Ready | Issued | Replied(a: Answer)

  /** A running pass, with the version its Get returned, the instants its Observe looked and its
      create marker was stamped, and the newest foreign version when that marker was stored. */
  datatype Running = Running(
    l: Local,
    phase: Phase,
    readVersion: nat,
    observedAt: Time,
    markedAt: Time,
    markedOver: nat)

  /** foreign is the newest stored version the running pass did not write itself. */
  datatype World = World(
    now: Time,
    obj: Object,
    gone: bool,
    foreign: nat,
    pass: Option<Running>,
    attempts: seq<Attempt>)

  datatype Action =
    | Tick(to: Time)
    | ForeignWrite(o: Object)
    | Vanish
    | Land(i: nat)
    | Lose(i: nat)
    | Remove(i: nat)
    | Start
    | Stop
    | Issue
    | Reply(a: Answer, applied: bool)
    | Continue

  /** An attempt whose resource exists, or may still come to exist. */
  predicate Open(e: Env, now: Time, a: Attempt) {
    a.Live? || (a.InFlight? && now < a.markedAt + e.createBound)
  }

  predicate NoneOpen(e: Env, w: World) {
    forall i :: 0 <= i < |w.attempts| ==> !Open(e, w.now, w.attempts[i])
  }

  predicate SameMarkers(o: Object, p: Object) {
    Pending(o) == Pending(p) && Succeeded(o) == Succeeded(p) && Failed(o) == Failed(p)
  }

  /** Whether a write guarded by o's version would go through. */
  predicate Current(w: World, o: Object) {
    !w.gone && o.version == w.obj.version
  }

  predicate GuardedWrite(w: World, o: Object, a: Answer, applied: bool) {
    match a
    case Wrote(v) => applied && Current(w, o) && v == o.version + 1
    case Failure => applied ==> Current(w, o)
    case NotFound => !applied && w.gone
    case _ => !applied
  }

  function Stored(w: World, o: Object): World {
    w.(obj := o.(version := w.obj.version + 1))
  }

  /** Which answers the world may give to effect x of the pass r. applied says whether the effect
      took hold: an error may hide a write that went through. */
  predicate MayReply(e: Env, w: World, r: Running, x: Effect, a: Answer, applied: bool) {
    && Fits(x, a)
    && match x
       case Get =>
         && !applied
         && (a.NotFound? ==> w.gone)
         && (a.Got? ==> a.o.version <= w.obj.version && (a.o.version == w.obj.version ==> a.o == w.obj))
       case Write(o) => GuardedWrite(w, o, a, applied)
       case WriteStatus(o) => GuardedWrite(w, o, a, applied)
       case StampAll(m) =>
         if a.Merged? then applied && !w.gone && a.o == Merge(w.obj, m) else applied ==> !w.gone
       case Gate(_) => !applied
       case Defer(_) => applied ==> Current(w, r.l.mg)
       case Call(AtObserve) => !applied && (a.Observed? ==> MayObserve(e, w, a.present))
       case Call(AtCreate) => !applied && r.phase.Issued? && MayCreate(e, w, a)
       case Call(_) => !applied
  }

  /** UpdateCriticalAnnotations adds and overwrites; it cannot delete. */
  function Merge(o: Object, m: Annotations): Object {
    o.(annotations := o.annotations + m, version := o.version + 1)
  }

  /** Observe reports a resource only when one is there, and misses one only within the lag. */
  predicate MayObserve(e: Env, w: World, present: bool) {
    if present then exists i :: 0 <= i < |w.attempts| && w.attempts[i].Live?
    else forall i :: 0 <= i < |w.attempts| && w.attempts[i].Live? ==> w.now < w.attempts[i].at + e.visibility
  }

  /** Create succeeds only after its resource landed; an exact error means that it did not. */
  predicate MayCreate(e: Env, w: World, a: Answer) {
    && |w.attempts| > 0
    && var last := w.attempts[|w.attempts| - 1];
       match a
       case Ok => !last.InFlight?
       case Panic => true
       case _ => e.exactErrors ==> !last.Live?
  }

  /** Whether a pass going on to l with clock now keeps the pace the handshake relies on: the absence
      checks come soon after the look, a pending marker falls in a later second than the newest
      terminal one, and a deleted object is not let go while its create marker is unresolved and young. */
  predicate InPace(e: Env, now: Time, r: Running, l: Local) {
    && (r.l.pc.Observing? ==> now <= r.observedAt + e.observeBound)
    && (e.laterSecond && l.pc.Marking? ==> l.pc.stamp > Latest(l.mg))
    && (r.l.pc.Observing? && r.l.unresolved && l.pc.Unfinalizing? ==> !PendingDuring(r.l.mg, now, e.patience))
  }

  predicate Allowed(e: Env, w: World, act: Action) {
    match act
    case Tick(to) => w.now <= to
    case ForeignWrite(o) => !w.gone && o.version == w.obj.version + 1 && SameMarkers(o, w.obj)
    case Vanish => !w.gone && w.obj.deleted && w.obj.finalizers == []
    case Land(i) =>
      && i < |w.attempts|
      && w.attempts[i].InFlight?
      && w.now < w.attempts[i].markedAt + e.createBound
    case Lose(i) => i < |w.attempts| && w.attempts[i].InFlight?
    case Remove(i) => i < |w.attempts| && w.attempts[i].Live?
    case Start => w.pass.None?
    case Stop => w.pass.Some?
    case Issue =>
      && w.pass.Some?
      && var r := w.pass.value;
         r.phase.Ready? && r.l.pc.Creating? && w.now < r.markedAt + e.createBound
    case Reply(a, applied) =>
      && w.pass.Some?
      && var r := w.pass.value;
         && !r.l.pc.Done?
         && !r.phase.Replied?
         && MayReply(e, w, r, Next(r.l), a, applied)
    case Continue =>
      && w.pass.Some?
      && var r := w.pass.value;
         && !r.l.pc.Done?
         && r.phase.Replied?
         && Fits(Next(r.l), r.phase.a)
         && InPace(e, w.now, r, Resume(e.c, r.l, r.phase.a, w.now))
  }

  /** The store and the API after an effect took hold, or did not. */
  function Effected(e: Env, w: World, r: Running, x: Effect, a: Answer, applied: bool): World {
    match x
    case Write(o) => if applied then Stored(w, o) else w
    case WriteStatus(o) => if applied then Stored(w, w.obj) else w
    case StampAll(m) => if applied then w.(obj := Merge(w.obj, m)) else w
    case Defer(_) => if applied then Stored(w, w.obj) else w
    case Call(AtCreate) =>
      if |w.attempts| > 0 && (a.Failure? || a.Conflict?) && e.exactErrors then
        w.(attempts := w.attempts[|w.attempts| - 1 := Dead])
      else w
    case _ => w
  }

  function AfterReply(w: World, r: Running, x: Effect, a: Answer): Running {
    r.(phase := Replied(a),
       readVersion := if a.Got? then a.o.version else r.readVersion,
       observedAt := if x == Call(AtObserve) then w.now else r.observedAt,
       markedOver := if r.l.pc.Marking? then w.foreign else r.markedOver)
  }

  function Apply(e: Env, w: World, act: Action): World
    requires Allowed(e, w, act)
  {
    match act
    case Tick(to) => w.(now := to)
    case ForeignWrite(o) => w.(obj := o, foreign := o.version)
    case Vanish => w.(gone := true)
    case Land(i) => w.(attempts := w.attempts[i := Live(w.attempts[i].markedAt, w.now)])
    case Lose(i) => w.(attempts := w.attempts[i := Dead])
    case Remove(i) => w.(attempts := w.attempts[i := Dead])
    case Start => w.(pass := Some(Running(START, Ready, 0, 0, 0, 0)), foreign := w.obj.version)
    case Stop => w.(pass := None)
    case Issue =>
      var r := w.pass.value;
      w.(attempts := w.attempts + [InFlight(r.markedAt)], pass := Some(r.(phase := Issued)))
    case Reply(a, applied) =>
      var r := w.pass.value;
      Effected(e, w, r, Next(r.l), a, applied).(pass := Some(AfterReply(w, r, Next(r.l), a)))
    case Continue =>
      var r := w.pass.value;
      var l := Resume(e.c, r.l, r.phase.a, w.now);
      w.(pass := Some(r.(l := l, phase := Ready, markedAt := if l.pc.Marking? then w.now else r.markedAt)))
  }

  /** A new object nobody has tried to create yet. */
  predicate Initial(w: World) {
    && w.now >= SECOND
    && !w.gone
    && w.foreign <= w.obj.version
    && w.pass.None?
    && w.attempts == []
  }

  /** A run: every action is allowed where it happens. */
  predicate Run(e: Env, w: World, acts: seq<Action>)
    decreases |acts|
  {
    acts == [] || (Allowed(e, w, acts[0]) && Run(e, Apply(e, w, acts[0]), acts[1..]))
  }

  function End(e: Env, w: World, acts: seq<Action>): World
    requires Run(e, w, acts)
    decreases |acts|
  {
    if acts == [] then w else End(e, Apply(e, w, acts[0]), acts[1..])
  }

  function Entry(a: Annotations, k: Key): Option<Value> {
    if k in a then Some(a[k]) else None
  }

  predicate SamePolicy(a: Annotations, b: Annotations) {
    && Entry(a, ManagementPolicy) == Entry(b, ManagementPolicy)
    && Entry(a, DeletionPolicy) == Entry(b, DeletionPolicy)
  }

  /** Nobody else drops the finalizer or changes the policies, and no version ever had others. */
  predicate Respects(w: World, act: Action) {
    match act
    case ForeignWrite(o) =>
      SamePolicy(o.annotations, w.obj.annotations) && (HasFinalizer(w.obj) ==> HasFinalizer(o))
    case Reply(a, _) => a.Got? ==> SamePolicy(a.o.annotations, w.obj.annotations)
    case _ => true
  }

  predicate Respectful(e: Env, w: World, acts: seq<Action>)
    requires Run(e, w, acts)
    decreases |acts|
  {
    acts == [] || (Respects(w, acts[0]) && Respectful(e, Apply(e, w, acts[0]), acts[1..]))
  }
}
