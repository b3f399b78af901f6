/** Runs that reach a second resource when a hypothesis of the handshake fails, and hence the exact
    lag the grace periods can cover. */
module HandshakeLimits {
  import opened Clock
  import opened Meta
  import opened ReconcilePass
  import opened Handshake
  import opened HandshakeSafety

  /** Reaches through actions that respect the policy. */
  ghost predicate Reaches(e: Env, w: World, w': World) {
    exists acts :: Run(e, w, acts) && Respectful(e, w, acts) && End(e, w, acts) == w'
  }

  /** Every run from every new object issues Create only while nothing is open. */
  ghost predicate Safe(e: Env) {
    forall w, acts :: Initial(w) && Run(e, w, acts) && Allowed(e, End(e, w, acts), Issue) ==>
                        NoneOpen(e, End(e, w, acts))
  }

  lemma {:induction false} RunAppend(e: Env, w: World, acts: seq<Action>, more: seq<Action>)
    requires Run(e, w, acts) && Run(e, End(e, w, acts), more)
    requires Respectful(e, w, acts) && Respectful(e, End(e, w, acts), more)
    ensures Run(e, w, acts + more) && Respectful(e, w, acts + more)
    ensures End(e, w, acts + more) == End(e, End(e, w, acts), more)
    decreases |acts|
  {
    if acts == [] {
      assert acts + more == more;
    } else {
      RunAppend(e, Apply(e, w, acts[0]), acts[1..], more);
      assert (acts + more)[0] == acts[0] && (acts + more)[1..] == acts[1..] + more;
    }
  }

  lemma Onwards(e: Env, w: World, v: World, u: World)
    requires Reaches(e, w, v) && Reaches(e, v, u)
    ensures Reaches(e, w, u)
  {
    var a :| Run(e, w, a) && Respectful(e, w, a) && End(e, w, a) == v;
    var b :| Run(e, v, b) && Respectful(e, v, b) && End(e, v, b) == u;
    RunAppend(e, w, a, b);
  }

  lemma One(e: Env, w: World, act: Action)
    requires Allowed(e, w, act) && Respects(w, act)
    ensures Reaches(e, w, Apply(e, w, act))
  {
    var w' := Apply(e, w, act);
    assert [act][1..] == [] && Run(e, w', []) && Respectful(e, w', []) && End(e, w', []) == w';
    assert Run(e, w, [act]) && Respectful(e, w, [act]) && End(e, w, [act]) == Apply(e, w, act);
  }

  lemma Two(e: Env, w: World, a: Action, b: Action)
    requires Allowed(e, w, a) && Respects(w, a) && Allowed(e, Apply(e, w, a), b) && Respects(Apply(e, w, a), b)
    ensures Reaches(e, w, Apply(e, Apply(e, w, a), b))
  {
    One(e, w, a);
    One(e, Apply(e, w, a), b);
    Onwards(e, w, Apply(e, w, a), Apply(e, Apply(e, w, a), b));
  }

  /** A pass resting at pc with copy o. */
  function Resting(o: Object, pc: Pc): Running {
    Running(START.(pc := pc, mg := o, unresolved := CreateIncomplete(o)), Ready, o.version, 0, 0, 0)
  }

  function With(w: World, r: Running): World {
    w.(foreign := w.obj.version, pass := Some(r))
  }

  predicate Plain(o: Object) {
    !IsPaused(o) && (o.deleted ==> ShouldDelete(o))
  }

  /** A pass reads the stored object, connects, and is about to observe. */
  lemma ToObserving(e: Env, w: World)
    requires w.pass.None? && !w.gone && Plain(w.obj)
    ensures Reaches(e, w, With(w, Resting(w.obj, Observing)))
  {
    var o := w.obj;
    var w2 := With(w, Resting(o, Gating(AtConnect)));
    var w3 := With(w, Resting(o, Connecting));
    var w4 := With(w, Resting(o, Gating(AtObserve)));
    var w5 := With(w, Resting(o, Observing));
    ToConnect(e, w);
    Granting(e, w, o, AtConnect, Connecting);
    Onwards(e, w, w2, w3);
    Connects(e, w, o);
    Onwards(e, w, w3, w4);
    Granting(e, w, o, AtObserve, Observing);
    Onwards(e, w, w4, w5);
  }

  lemma ToConnect(e: Env, w: World)
    requires w.pass.None? && !w.gone && Plain(w.obj)
    ensures Reaches(e, w, With(w, Resting(w.obj, Gating(AtConnect))))
  {
    var w1 := With(w, Running(START, Ready, 0, 0, 0, 0));
    One(e, w, Start);
    assert Reaches(e, w, w1);
    Two(e, w1, Reply(Got(w.obj), false), Continue);
    Onwards(e, w, w1, With(w, Resting(w.obj, Gating(AtConnect))));
  }

  lemma Connects(e: Env, w: World, o: Object)
    ensures Reaches(e, With(w, Resting(o, Connecting)), With(w, Resting(o, Gating(AtObserve))))
  {
    Two(e, With(w, Resting(o, Connecting)), Reply(Ok, false), Continue);
  }

  lemma Granting(e: Env, w: World, o: Object, site: Site, pc: Pc)
    requires (site == AtConnect && pc == Connecting) || (site == AtObserve && pc == Observing)
    ensures Reaches(e, With(w, Resting(o, Gating(site))), With(w, Resting(o, pc)))
  {
    Two(e, With(w, Resting(o, Gating(site))), Reply(Granted, false), Continue);
  }

  /** An object under the default policies, alive, with the finalizer. */
  predicate Creatable(o: Object) {
    && Paused !in o.annotations
    && ManagementPolicy !in o.annotations
    && HasFinalizer(o)
    && !o.deleted
  }

  predicate Unseeable(e: Env, w: World) {
    forall i :: 0 <= i < |w.attempts| && w.attempts[i].Live? ==> w.now < w.attempts[i].at + e.visibility
  }

  /** A resolved pass looks, sees nothing, finds the creation grace period over at t, and asks for a
      create slot. */
  lemma LookResolved(e: Env, w: World, t: Time)
    requires !w.gone && Creatable(w.obj) && Unseeable(e, w)
    requires w.now <= t <= w.now + e.observeBound
    requires !CreateIncomplete(w.obj) && !SucceededDuring(w.obj, t, e.c.creationGrace)
    ensures Reaches(e, With(w, Resting(w.obj, Observing)),
                    With(w, Resting(w.obj, Gating(AtCreate)).(observedAt := w.now)).(now := t))
  {
    var v := With(w, Resting(w.obj, Observing));
    var a := Observed(false, false, false);
    var v1 := Apply(e, v, Reply(a, false));
    var v2 := v1.(now := t);
    Two(e, v, Reply(a, false), Tick(t));
    assert Reaches(e, v, v2);
    One(e, v2, Continue);
    var g := With(w, Resting(w.obj, Gating(AtCreate)).(observedAt := w.now)).(now := t);
    assert Apply(e, v2, Continue) == g;
    Onwards(e, v, v2, g);
  }

  /** The attempts of w once its only create in flight landed just after a look, when land says so. */
  function LandedJustAfter(w: World, land: bool): seq<Attempt>
    requires land ==> |w.attempts| == 1 && w.attempts[0].InFlight?
  {
    if land then [Live(w.attempts[0].markedAt, w.now)] else w.attempts
  }

  predicate MayLand(e: Env, w: World) {
    |w.attempts| == 1 && w.attempts[0].InFlight? && w.now < w.attempts[0].markedAt + e.createBound
  }

  /** An unresolved pass looks, sees nothing, finds the recovery grace period over at t, clears the
      marker, and asks for a create slot; the create may land just after the look. */
  lemma LookUnresolved(e: Env, w: World, t: Time, land: bool)
    requires !w.gone && Creatable(w.obj) && Unseeable(e, w) && (land ==> MayLand(e, w))
    requires w.now <= t <= w.now + e.observeBound
    requires CreateIncomplete(w.obj) && !PendingDuring(w.obj, t, e.c.recoveryGrace)
    requires Succeeded(w.obj) == 0
    ensures var o := WithoutPending(w.obj).(version := w.obj.version + 1);
            var l := Resting(w.obj, Gating(AtCreate)).l.(mg := o);
            Reaches(e, With(w, Resting(w.obj, Observing)),
                    With(w, Resting(w.obj, Observing).(l := l, observedAt := w.now))
                    .(now := t, obj := o, attempts := LandedJustAfter(w, land)))
  {
    var v := With(w, Resting(w.obj, Observing));
    var v3 := Clears(w, t, LandedJustAfter(w, land));
    LookToClear(e, w, t, land);
    ClearStep(e, v3);
    var o := WithoutPending(w.obj).(version := w.obj.version + 1);
    var r := v3.pass.value;
    Onwards(e, v, v3, v3.(obj := o, pass := Some(r.(l := r.l.(pc := Gating(AtCreate), mg := o)))));
  }

  function Clears(w: World, t: Time, attempts: seq<Attempt>): World {
    With(w, Resting(w.obj, Clearing).(observedAt := w.now)).(now := t, attempts := attempts)
  }

  lemma LookToClear(e: Env, w: World, t: Time, land: bool)
    requires !w.gone && Creatable(w.obj) && Unseeable(e, w) && (land ==> MayLand(e, w))
    requires w.now <= t <= w.now + e.observeBound
    requires CreateIncomplete(w.obj) && !PendingDuring(w.obj, t, e.c.recoveryGrace)
    ensures Reaches(e, With(w, Resting(w.obj, Observing)), Clears(w, t, LandedJustAfter(w, land)))
  {
    var v := With(w, Resting(w.obj, Observing));
    var seen := With(w, Resting(w.obj, Observing).(observedAt := w.now, phase := Replied(Observed(false, false, false))));
    var v2 := seen.(attempts := LandedJustAfter(w, land));
    LookAndLand(e, w, land);
    Two(e, v2, Tick(t), Continue);
    Onwards(e, v, v2, Clears(w, t, LandedJustAfter(w, land)));
  }

  lemma LookAndLand(e: Env, w: World, land: bool)
    requires Unseeable(e, w) && (land ==> MayLand(e, w))
    ensures Reaches(e, With(w, Resting(w.obj, Observing)),
                    With(w, Resting(w.obj, Observing).(observedAt := w.now, phase := Replied(Observed(false, false, false))))
                    .(attempts := LandedJustAfter(w, land)))
  {
    var v := With(w, Resting(w.obj, Observing));
    var seen := With(w, Resting(w.obj, Observing).(observedAt := w.now, phase := Replied(Observed(false, false, false))));
    One(e, v, Reply(Observed(false, false, false), false));
    assert Apply(e, v, Reply(Observed(false, false, false), false)) == seen;
    if land {
      One(e, seen, Land(0));
      assert Apply(e, seen, Land(0)) == seen.(attempts := LandedJustAfter(w, true));
      Onwards(e, v, seen, seen.(attempts := LandedJustAfter(w, true)));
    }
  }

  lemma ClearStep(e: Env, w: World)
    requires w.pass.Some? && w.pass.value.phase.Ready? && w.pass.value.l.pc.Clearing?
    requires !w.gone && w.pass.value.l.mg == w.obj
    requires Creatable(w.obj) && !w.pass.value.l.present && Succeeded(w.obj) == 0
    ensures var r := w.pass.value;
            var o := WithoutPending(w.obj).(version := w.obj.version + 1);
            Reaches(e, w, w.(obj := o, pass := Some(r.(l := r.l.(pc := Gating(AtCreate), mg := o)))))
  {
    var r := w.pass.value;
    var o := WithoutPending(w.obj).(version := w.obj.version + 1);
    var a := Reply(Wrote(w.obj.version + 1), true);
    assert Next(r.l) == Write(WithoutPending(w.obj));
    var w1 := Apply(e, w, a);
    assert w1 == w.(obj := o, pass := Some(r.(phase := Replied(a.a))));
    assert Creatable(o) && Succeeded(o) == 0;
    Two(e, w, a, Continue);
  }

  /** The world once the waiting create of w is granted at m and its marker is stored. */
  function MarkedAt(w: World, m: Time): World
    requires w.pass.Some?
  {
    var r := w.pass.value;
    var o := WithStamp(w.obj, CreatePending, Truncated(m)).(version := w.obj.version + 1);
    w.(now := m, obj := o,
       pass := Some(r.(l := r.l.(pc := Creating, mg := o), phase := Ready, markedAt := m, markedOver := w.foreign)))
  }

  predicate AwaitsCreate(w: World) {
    && !w.gone
    && w.pass.Some?
    && w.pass.value.phase.Ready?
    && w.pass.value.l.pc == Gating(AtCreate)
    && w.pass.value.l.mg == w.obj
  }

  lemma GateToIssue(e: Env, w: World, m: Time)
    requires AwaitsCreate(w) && w.now <= m && e.createBound > 0
    requires e.laterSecond ==> Truncated(m) > Latest(w.obj)
    ensures Reaches(e, w, MarkedAt(w, m))
    ensures Allowed(e, MarkedAt(w, m), Issue)
  {
    GateToMarking(e, w, m);
    MarkStep(e, MarkingAt(w, m));
    Onwards(e, w, MarkingAt(w, m), MarkedAt(w, m));
  }

  /** The world once the waiting create of w is granted at m, its marker not stored yet. */
  function MarkingAt(w: World, m: Time): World
    requires w.pass.Some?
  {
    var r := w.pass.value;
    w.(now := m, pass := Some(r.(l := r.l.(pc := Marking(Truncated(m))), phase := Ready, markedAt := m)))
  }

  lemma GateToMarking(e: Env, w: World, m: Time)
    requires AwaitsCreate(w) && w.now <= m
    requires e.laterSecond ==> Truncated(m) > Latest(w.obj)
    ensures Reaches(e, w, MarkingAt(w, m))
  {
    var w2 := Apply(e, w, Reply(Granted, false)).(now := m);
    Two(e, w, Reply(Granted, false), Tick(m));
    One(e, w2, Continue);
    Onwards(e, w, w2, MarkingAt(w, m));
  }

  lemma MarkStep(e: Env, w: World)
    requires w.pass.Some? && !w.gone && w.pass.value.phase.Ready? && w.pass.value.l.pc.Marking?
    requires w.pass.value.l.mg == w.obj && w.pass.value.l.pc.stamp == Truncated(w.now)
    requires w.pass.value.markedAt == w.now
    ensures Reaches(e, w, MarkedAt(w, w.now))
  {
    var r := w.pass.value;
    var o := WithStamp(w.obj, CreatePending, Truncated(w.now));
    var a := Wrote(w.obj.version + 1);
    assert Next(r.l) == Write(o);
    Two(e, w, Reply(a, true), Continue);
  }

  // ---- the three ways to a second resource ----

  const NEW_OBJECT := Object(1, map[], [FINALIZER], false)

  function NewWorld(now: Time): World {
    World(now, NEW_OBJECT, false, 0, None, [])
  }

  /** The first pass over a new object issues its create at once. */
  function Begun(now: Time): World {
    var w := With(NewWorld(now), Resting(NEW_OBJECT, Gating(AtCreate)).(observedAt := now));
    var v := MarkedAt(w, now);
    v.(attempts := [InFlight(now)], pass := Some(v.pass.value.(phase := Issued)))
  }

  lemma FirstCreate(e: Env, now: Time)
    requires now >= SECOND && e.createBound > 0
    ensures Initial(NewWorld(now)) && Reaches(e, NewWorld(now), Begun(now))
  {
    var w := NewWorld(now);
    ToObserving(e, w);
    LookResolved(e, w, now);
    var g := With(w, Resting(NEW_OBJECT, Gating(AtCreate)).(observedAt := now));
    assert g.(now := now) == g;
    Onwards(e, w, With(w, Resting(w.obj, Observing)), g);
    GateToIssue(e, g, now);
    Onwards(e, w, g, MarkedAt(g, now));
    One(e, MarkedAt(g, now), Issue);
    Onwards(e, w, MarkedAt(g, now), Begun(now));
  }

  /** A run that may issue a create while a resource exists refutes safety. */
  lemma Refutes(e: Env, w: World, v: World)
    requires Initial(w) && Reaches(e, w, v) && Allowed(e, v, Issue) && !NoneOpen(e, v)
    ensures !Safe(e)
  {
    var acts :| Run(e, w, acts) && End(e, w, acts) == v;
  }

  /** When a create marked at the end of its second can land last, and be looked for last without showing. */
  const LATE_START := 2 * SECOND - 1

  function LateLook(e: Env): int {
    LATE_START + e.createBound + Max(e.visibility, 1) - 2
  }

  /** The pass crashed right after its create, which lands as late as it can, and shows as late as it can: at
      that instant it does not show yet, or is about to land. */
  function CrashedLate(e: Env): World
    requires e.createBound > 0
  {
    Begun(LATE_START).(pass := None, now := LateLook(e),
                       attempts := if e.visibility > 0 then [Live(LATE_START, LATE_START + e.createBound - 1)]
                                   else [InFlight(LATE_START)])
  }

  lemma CrashesLate(e: Env)
    requires e.createBound > 0
    ensures Reaches(e, NewWorld(LATE_START), CrashedLate(e))
  {
    var b := Begun(LATE_START);
    FirstCreate(e, LATE_START);
    if e.visibility > 0 {
      CrashAndLand(e, b, LATE_START + e.createBound - 1, LateLook(e));
    } else {
      CrashInFlight(e, b, LateLook(e));
    }
    Onwards(e, NewWorld(LATE_START), b, CrashedLate(e));
  }

  lemma CrashedLateShape(e: Env)
    requires e.createBound > 0
    ensures var c := CrashedLate(e);
            && Creatable(c.obj) && Unseeable(e, c) && Pending(c.obj) == 1 && Latest(c.obj) == 0
            && (e.visibility == 0 ==> MayLand(e, c)) && (e.visibility > 0 ==> |c.attempts| == 1 && c.attempts[0].Live?)
  {
  }

  /** The next pass finds nothing, and the recovery period over. */
  lemma RecoveryTooShort(e: Env)
    requires e.createBound > 0
    requires SECOND + e.createBound + e.observeBound + Max(e.visibility, 1) - 2 > e.c.recoveryGrace
    ensures !Safe(e)
  {
    var c, t, land := CrashedLate(e), LateLook(e) + e.observeBound, e.visibility == 0;
    CrashesLate(e);
    CrashedLateShape(e);
    RecoversTooSoon(e, c, t, land);
    Onwards(e, NewWorld(LATE_START), c, RecoveredAt(c, t, land));
    Refutes(e, NewWorld(LATE_START), RecoveredAt(c, t, land));
  }

  /** A pass clears an unresolved marker at t and comes to create again. */
  function RecoveredAt(w: World, t: Time, land: bool): World
    requires land ==> |w.attempts| == 1 && w.attempts[0].InFlight?
  {
    var o := WithoutPending(w.obj).(version := w.obj.version + 1);
    var l := Resting(w.obj, Gating(AtCreate)).l.(mg := o);
    var d := With(w, Resting(w.obj, Observing).(l := l, observedAt := w.now))
             .(now := t, obj := o, attempts := LandedJustAfter(w, land));
    MarkedAt(d, t)
  }

  lemma RecoversTooSoon(e: Env, c: World, t: Time, land: bool)
    requires c.pass.None? && !c.gone && Creatable(c.obj) && Unseeable(e, c) && e.createBound > 0
    requires if land then MayLand(e, c) else |c.attempts| == 1 && c.attempts[0].Live?
    requires c.now <= t <= c.now + e.observeBound
    requires Pending(c.obj) == 1 && Latest(c.obj) == 0 && SECOND <= t && !PendingDuring(c.obj, t, e.c.recoveryGrace)
    ensures var v := RecoveredAt(c, t, land);
            Reaches(e, c, v) && Allowed(e, v, Issue) && !NoneOpen(e, v)
  {
    ToObserving(e, c);
    LookUnresolved(e, c, t, land);
    var o := WithoutPending(c.obj).(version := c.obj.version + 1);
    var l := Resting(c.obj, Gating(AtCreate)).l.(mg := o);
    var d := With(c, Resting(c.obj, Observing).(l := l, observedAt := c.now))
             .(now := t, obj := o, attempts := LandedJustAfter(c, land));
    Onwards(e, c, With(c, Resting(c.obj, Observing)), d);
    assert Latest(d.obj) == 0;
    GateToIssue(e, d, t);
    Onwards(e, c, d, MarkedAt(d, t));
    assert Open(e, t, MarkedAt(d, t).attempts[0]);
  }

  lemma CrashInFlight(e: Env, w: World, at: Time)
    requires w.pass.Some? && w.now <= at
    ensures Reaches(e, w, w.(pass := None, now := at))
  {
    Two(e, w, Stop, Tick(at));
  }

  lemma CrashAndLand(e: Env, w: World, at: Time, look: Time)
    requires w.pass.Some? && |w.attempts| == 1 && w.attempts[0].InFlight?
    requires w.now <= at < w.attempts[0].markedAt + e.createBound && at <= look
    ensures Reaches(e, w, w.(pass := None, now := look, attempts := [Live(w.attempts[0].markedAt, at)]))
  {
    var w1 := w.(pass := None);
    var w2 := w1.(now := at);
    var w3 := w2.(attempts := [Live(w.attempts[0].markedAt, at)]);
    Two(e, w, Stop, Tick(at));
    assert Reaches(e, w, w2);
    Two(e, w2, Land(0), Tick(look));
    Onwards(e, w, w2, w3.(now := look));
  }

  /** The first create answered with out and stamped under k. */
  function Stamped(now: Time, attempt: Attempt, k: Key): World {
    var b := Begun(now);
    b.(pass := None, attempts := [attempt],
       obj := WithStamp(b.obj, k, Truncated(now)).(version := b.obj.version + 1))
  }

  /** The pass stamps the outcome of its create and ends. */
  lemma StampStep(e: Env, w: World, k: Key)
    requires w.pass.Some? && w.pass.value.phase.Ready? && !w.gone && w.pass.value.l.mg == w.obj
    requires match w.pass.value.l.pc
             case StampingSuccess(_) => k == CreateSucceeded
             case StampingFailure(_, _) => k == CreateFailed
             case _ => false
    ensures Reaches(e, w, w.(pass := None, obj := WithStamp(w.obj, k, w.pass.value.l.pc.stamp)
                                                  .(version := w.obj.version + 1)))
  {
    var r := w.pass.value;
    var m := WithStamp(w.obj, k, r.l.pc.stamp).annotations;
    assert Next(r.l) == StampAll(m);
    assert w.obj.annotations + m == m;
    Two(e, w, Reply(Merged(Merge(w.obj, m)), true), Stop);
  }

  /** The first create succeeds at once. */
  lemma FirstSucceeds(e: Env, now: Time)
    requires now >= SECOND && e.createBound > 0
    ensures Reaches(e, NewWorld(now), Stamped(now, Live(now, now), CreateSucceeded))
  {
    FirstCreate(e, now);
    var b := Begun(now);
    var l := b.(attempts := [Live(now, now)]);
    One(e, b, Land(0));
    assert Apply(e, b, Land(0)) == l;
    Onwards(e, NewWorld(now), b, l);
    Answered(e, l, Ok, CreateSucceeded);
    Onwards(e, NewWorld(now), l, Stamped(now, Live(now, now), CreateSucceeded));
  }

  /** A create answered a is stamped under k, and its pass ends. */
  lemma Answered(e: Env, w: World, a: Answer, k: Key)
    requires w.pass.Some? && w.pass.value.phase.Issued? && w.pass.value.l.pc.Creating?
    requires !w.gone && w.pass.value.l.mg == w.obj && |w.attempts| == 1
    requires (a.Ok? && k == CreateSucceeded && w.attempts[0].Live?)
             || (a.Failure? && k == CreateFailed && !w.attempts[0].Live?)
    ensures Reaches(e, w, w.(pass := None, attempts := AfterAnswer(e, w, a),
                             obj := WithStamp(w.obj, k, Truncated(w.now)).(version := w.obj.version + 1)))
  {
    var s := Stamping(e, w, a);
    AnswerStep(e, w, a);
    StampStep(e, s, k);
    Onwards(e, w, s, s.(pass := None, obj := WithStamp(w.obj, k, Truncated(w.now)).(version := w.obj.version + 1)));
  }

  /** An exact error ends its attempt; an inexact one leaves it as it is. */
  function AfterAnswer(e: Env, w: World, a: Answer): seq<Attempt> {
    if a.Failure? && e.exactErrors then [Dead] else w.attempts
  }

  /** The world once the only create of w was answered a, its stamp not stored yet. */
  function Stamping(e: Env, w: World, a: Answer): World
    requires w.pass.Some?
  {
    var r := w.pass.value;
    var pc := if a.Ok? then StampingSuccess(Truncated(w.now)) else StampingFailure(Truncated(w.now), false);
    w.(attempts := AfterAnswer(e, w, a), pass := Some(r.(l := r.l.(pc := pc), phase := Ready)))
  }

  lemma AnswerStep(e: Env, w: World, a: Answer)
    requires w.pass.Some? && w.pass.value.phase.Issued? && w.pass.value.l.pc.Creating? && |w.attempts| == 1
    requires (a.Ok? && w.attempts[0].Live?) || (a.Failure? && !w.attempts[0].Live?)
    ensures Reaches(e, w, Stamping(e, w, a))
  {
    ActsOnAnswer(e, w, a);
    Two(e, w, Reply(a, false), Continue);
  }

  lemma ActsOnAnswer(e: Env, w: World, a: Answer)
    requires w.pass.Some? && w.pass.value.phase.Issued? && w.pass.value.l.pc.Creating? && |w.attempts| == 1
    requires (a.Ok? && w.attempts[0].Live?) || (a.Failure? && !w.attempts[0].Live?)
    ensures Allowed(e, w, Reply(a, false)) && Allowed(e, Apply(e, w, Reply(a, false)), Continue)
    ensures Apply(e, Apply(e, w, Reply(a, false)), Continue) == Stamping(e, w, a)
  {
    var v := Apply(e, w, Reply(a, false));
    assert v.attempts == AfterAnswer(e, w, a);
    assert v == w.(attempts := AfterAnswer(e, w, a), pass := v.pass);
    ActsOnOutcome(e, v, a);
  }

  /** Acting on the answer of a create. */
  lemma ActsOnOutcome(e: Env, v: World, a: Answer)
    requires v.pass.Some? && v.pass.value.l.pc.Creating? && v.pass.value.phase == Replied(a) && (a.Ok? || a.Failure?)
    ensures Allowed(e, v, Continue)
    ensures var r := v.pass.value;
            var pc := if a.Ok? then StampingSuccess(Truncated(v.now)) else StampingFailure(Truncated(v.now), false);
            Apply(e, v, Continue) == v.(pass := Some(r.(l := r.l.(pc := pc), phase := Ready)))
  {
  }

  /** The first create fails; whether it may still land is up to how exact errors are. */
  lemma FirstFails(e: Env, now: Time)
    requires now >= SECOND && e.createBound > 0
    ensures Reaches(e, NewWorld(now), Stamped(now, if e.exactErrors then Dead else InFlight(now), CreateFailed))
  {
    FirstCreate(e, now);
    var b := Begun(now);
    Answered(e, b, Failure, CreateFailed);
    Onwards(e, NewWorld(now), b, Stamped(now, if e.exactErrors then Dead else InFlight(now), CreateFailed));
  }

  /** From a resolved object a pass that sees nothing comes to issue a create at m. */
  lemma ResolvedToIssue(e: Env, w: World, t: Time, m: Time)
    requires w.pass.None? && !w.gone && Creatable(w.obj) && Unseeable(e, w) && e.createBound > 0
    requires w.now <= t <= w.now + e.observeBound && t <= m
    requires !CreateIncomplete(w.obj) && !SucceededDuring(w.obj, t, e.c.creationGrace)
    requires e.laterSecond ==> Truncated(m) > Latest(w.obj)
    ensures var v := MarkedAt(With(w, Resting(w.obj, Gating(AtCreate)).(observedAt := w.now)), m);
            Reaches(e, w, v) && Allowed(e, v, Issue)
  {
    ToObserving(e, w);
    LookResolved(e, w, t);
    var g := With(w, Resting(w.obj, Gating(AtCreate)).(observedAt := w.now)).(now := t);
    Onwards(e, w, With(w, Resting(w.obj, Observing)), g);
    GateToIssue(e, g, m);
    var v := MarkedAt(With(w, Resting(w.obj, Gating(AtCreate)).(observedAt := w.now)), m);
    assert MarkedAt(g, m) == v;
    Onwards(e, w, g, v);
  }

  /** A create that succeeded, but shows as late as it can. */
  lemma CreationTooShort(e: Env)
    requires e.visibility > 0 && e.createBound > 0
    requires SECOND + e.observeBound + e.visibility - 1 > e.c.creationGrace
    ensures !Safe(e)
  {
    var start := 2 * SECOND - 1;
    var look := start + e.visibility - 1;
    var back := look + e.observeBound;
    FirstSucceeds(e, start);
    var s := Stamped(start, Live(start, start), CreateSucceeded);
    var c := s.(now := look);
    One(e, s, Tick(look));
    Onwards(e, NewWorld(start), s, c);
    assert Pending(c.obj) == 1 && Succeeded(c.obj) == 1 && Failed(c.obj) == 0;
    var again := Max(back, 2 * SECOND);
    assert Truncated(again) >= 2;
    ResolvedToIssue(e, c, back, again);
    var v := MarkedAt(With(c, Resting(c.obj, Gating(AtCreate)).(observedAt := look)), again);
    Onwards(e, NewWorld(start), c, v);
    assert Open(e, v.now, v.attempts[0]);
    Refutes(e, NewWorld(start), v);
  }

  /** From a resolved object a pass that sees nothing waits for its create slot. */
  lemma ResolvedToGate(e: Env, w: World)
    requires w.pass.None? && !w.gone && Creatable(w.obj) && Unseeable(e, w)
    requires !CreateIncomplete(w.obj) && Succeeded(w.obj) == 0
    ensures Reaches(e, w, GateAt(w))
  {
    ToObserving(e, w);
    LookResolved(e, w, w.now);
    Onwards(e, w, With(w, Resting(w.obj, Observing)), GateAt(w));
  }

  function GateAt(w: World): World {
    With(w, Resting(w.obj, Gating(AtCreate)).(observedAt := w.now))
  }

  /** A pass on its way to create looks just before create i, of which no marker tells any more, lands. */
  lemma LandsAfterTheLook(e: Env, w: World, i: nat, m: Time)
    requires w.pass.None? && !w.gone && Creatable(w.obj) && Unseeable(e, w) && e.createBound > 0
    requires !CreateIncomplete(w.obj) && Succeeded(w.obj) == 0
    requires i < |w.attempts| && w.attempts[i].InFlight? && w.now < w.attempts[i].markedAt + e.createBound
    requires w.now <= m && (e.laterSecond ==> Truncated(m) > Latest(w.obj))
    ensures var v := MarkedAt(LandedAt(GateAt(w), i), m);
            Reaches(e, w, v) && Allowed(e, v, Issue) && !NoneOpen(e, v)
  {
    var g := GateAt(w);
    ResolvedToGate(e, w);
    One(e, g, Land(i));
    Onwards(e, w, g, LandedAt(g, i));
    GateToIssue(e, LandedAt(g, i), m);
    var v := MarkedAt(LandedAt(g, i), m);
    Onwards(e, w, LandedAt(g, i), v);
    assert Open(e, v.now, v.attempts[i]);
  }

  function LandedAt(w: World, i: nat): World
    requires i < |w.attempts| && w.attempts[i].InFlight?
  {
    w.(attempts := w.attempts[i := Live(w.attempts[i].markedAt, w.now)])
  }

  /** A create that answers with an error, as a timed-out request does, while it is still on its way: the
      failure stamp resolves its marker, and nothing tells the next pass to wait. No grace period helps. */
  lemma LandedErrorUnsafe(e: Env)
    requires e.createBound > 0 && !e.exactErrors
    ensures !Safe(e)
  {
    var start := SECOND;
    FirstFails(e, start);
    var s := Stamped(start, InFlight(start), CreateFailed);
    assert Pending(s.obj) == 1 && Succeeded(s.obj) == 0 && Failed(s.obj) == 1;
    LandsAfterTheLook(e, s, 0, 2 * SECOND);
    var v := MarkedAt(LandedAt(GateAt(s), 0), 2 * SECOND);
    Onwards(e, NewWorld(start), s, v);
    Refutes(e, NewWorld(start), v);
  }

  /** The second create was issued in the second in which the first one failed, and its pass crashed. */
  function CrashedAgain(now: Time): World {
    var s := Stamped(now, Dead, CreateFailed);
    MarkedAt(GateAt(s), now).(pass := None, attempts := [Dead, InFlight(now)])
  }

  lemma SecondCrashes(e: Env, now: Time)
    requires now == SECOND && e.createBound > 0 && e.exactErrors && !e.laterSecond
    ensures Reaches(e, NewWorld(now), CrashedAgain(now))
  {
    FirstFails(e, now);
    var s := Stamped(now, Dead, CreateFailed);
    assert Pending(s.obj) == 1 && Succeeded(s.obj) == 0 && Failed(s.obj) == 1;
    ResolvedToGate(e, s);
    GateToIssue(e, GateAt(s), now);
    var v := MarkedAt(GateAt(s), now);
    Onwards(e, s, GateAt(s), v);
    Onwards(e, NewWorld(now), s, v);
    Two(e, v, Issue, Stop);
    assert Apply(e, Apply(e, v, Issue), Stop) == CrashedAgain(now);
    Onwards(e, NewWorld(now), v, CrashedAgain(now));
  }

  /** Two creates started in one second: the failure stamp of the first hides the pending stamp of
      the second, and a crash then leaves nothing to recover from. No grace period helps. */
  lemma SameSecondUnsafe(e: Env)
    requires e.createBound > 0 && e.exactErrors && !e.laterSecond
    ensures !Safe(e)
  {
    var start := SECOND;
    var c := CrashedAgain(start);
    SecondCrashes(e, start);
    assert Pending(c.obj) == 1 && Succeeded(c.obj) == 0 && Failed(c.obj) == 1;
    LandsAfterTheLook(e, c, 1, start);
    var v := MarkedAt(LandedAt(GateAt(c), 1), start);
    Onwards(e, NewWorld(start), c, v);
    Refutes(e, NewWorld(start), v);
  }

  // ---- the exact condition ----

  /** No pass holds a marker from the future. */
  predicate MarkedInPast(w: World) {
    w.pass.Some? ==> w.pass.value.markedAt <= w.now
  }

  lemma {:induction false} MarkersInPast(e: Env, w: World, acts: seq<Action>)
    requires MarkedInPast(w) && Run(e, w, acts)
    ensures MarkedInPast(End(e, w, acts))
    decreases |acts|
  {
    if acts != [] {
      StepMarkedInPast(e, w, acts[0]);
      MarkersInPast(e, Apply(e, w, acts[0]), acts[1..]);
    }
  }

  lemma StepMarkedInPast(e: Env, w: World, act: Action)
    requires MarkedInPast(w) && Allowed(e, w, act)
    ensures MarkedInPast(Apply(e, w, act))
  {
  }

  /** Without any time to land in, no create is ever issued. */
  lemma NoTimeNoCreate(e: Env, w: World, acts: seq<Action>)
    requires e.createBound == 0 && Initial(w) && Run(e, w, acts)
    ensures !Allowed(e, End(e, w, acts), Issue)
  {
    MarkersInPast(e, w, acts);
  }

  /** Main result. The handshake is safe, over all runs from all new objects, exactly when pending markers fall
      in later seconds than terminal ones, a create that errors never lands, and the grace periods outlast the
      API's lag. (With no time for a create to land in, there are no creates.) */
  lemma SafeExactlyWhenCovered(e: Env)
    ensures Safe(e) <==> e.createBound == 0 || (e.laterSecond && e.exactErrors && Covered(e))
  {
    if e.createBound == 0 {
      forall w, acts | Initial(w) && Run(e, w, acts) ensures !Allowed(e, End(e, w, acts), Issue) {
        NoTimeNoCreate(e, w, acts);
      }
    } else if !e.exactErrors {
      LandedErrorUnsafe(e);
    } else if !e.laterSecond {
      SameSecondUnsafe(e);
    } else if SECOND + e.createBound + e.observeBound + Max(e.visibility, 1) - 2 > e.c.recoveryGrace {
      RecoveryTooShort(e);
    } else if e.visibility > 0 && SECOND + e.observeBound + e.visibility - 1 > e.c.creationGrace {
      CreationTooShort(e);
    } else {
      forall w, acts | Initial(w) && Run(e, w, acts) && Allowed(e, End(e, w, acts), Issue)
        ensures NoneOpen(e, End(e, w, acts))
      {
        NoDuplicateCreate(e, w, acts);
      }
    }
  }
}
