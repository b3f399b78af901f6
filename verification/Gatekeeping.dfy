/** Where a pass meets the governor: when a call is gated, and what a deferral writes
    (pkg/reconciler/ratelimit.go). */
module Gatekeeping {
  import opened Clock
  import opened KeySets
  import opened GovernorState
  import opened GovernorLaws
  import opened GovernorRuns
  import opened Governors
  import opened Signals
  import opened Conditions

  // ---- gate ----

  /** What a provider's keyer answers for an object. */
  datatype Keyed = NoKeyer | Keys(keys: seq<string>) | KeyError

  /** An error names no key. */
  function KeysOf(k: Keyed): seq<string> {
    if k.Keys? then k.keys else []
  }

  /** Which objects had their key error logged, after keyer answer k for uid. */
  function LoggedAfter(logged: set<string>, uid: string, k: Keyed): set<string> {
    match k
    case NoKeyer => logged
    case KeyError => logged + {uid}
    case Keys(_) => logged - {uid}
  }

  class Gatekeeper {
    const governor: Governor?
    var logged: set<string>

    ghost predicate Valid()
      reads this, governor, if governor == null then null else governor.sat
    {
      governor != null ==> governor.Valid()
    }

    constructor (g: Governor?)
      requires g != null ==> g.Valid()
      ensures Valid() && governor == g && logged == {}
    {
      governor, logged := g, {};
    }

    /** Asks the governor to let one call for object uid through. The call goes through ungated exactly when
        there is no governor, or no scope is named and saturation is off; report says that a key error is
        logged now. */
    method Gate(uid: string, k: Keyed, now: Time, draw: Option<nat>)
      returns (slot: Slot?, d: Option<Deferral>, report: bool)
      requires Valid()
      modifies this`logged, if governor == null then {} else {governor}
      ensures Valid()
      ensures logged == if governor == null then old(logged) else LoggedAfter(old(logged), uid, k)
      ensures report <==> governor != null && k.KeyError? && uid !in old(logged)
      ensures governor == null ==> slot == null && d.None?
      ensures governor != null ==>
                var s := governor.Configured();
                if Named(KeysOf(k)) == {} && s.saturation.None? then
                  slot == null && d.None? && governor.View() == old(governor.View())
                else
                  && governor.View() == Step(s, old(governor.View()), Op.AcquireAll(KeysOf(k), now, draw))
                  && d == Answer(s, old(governor.View()), KeysOf(k), now, draw)
                  && (slot == null <==> d.Some?)
                  && (slot != null ==> fresh(slot) && slot.governor == governor && slot.Valid() && !slot.called)
    {
      if governor == null {
        return null, None, false;
      }
      var keys;
      keys, report := Names(uid, k);
      var keyed := ContainsName(keys);
      if !keyed && governor.sat == null {
        return null, None, report;
      }
      slot, d := governor.AcquireAll(keys, now, draw);
    }

    /** The scopes to gate on; a key error names none, and is reported the first time. */
    method Names(uid: string, k: Keyed) returns (keys: seq<string>, report: bool)
      modifies this`logged
      ensures keys == KeysOf(k) && logged == LoggedAfter(old(logged), uid, k)
      ensures report <==> k.KeyError? && uid !in old(logged)
    {
      keys, report := [], false;
      match k {
        case NoKeyer =>
        case KeyError =>
          report := uid !in logged;
          logged := logged + {uid};
        case Keys(ks) =>
          logged := logged - {uid};
          keys := ks;
      }
    }
  }

  method ContainsName(keys: seq<string>) returns (keyed: bool)
    ensures keyed <==> Named(keys) != {}
  {
    var i := 0;
    while i < |keys|
      invariant 0 <= i <= |keys| && forall j :: 0 <= j < i ==> keys[j] == ""
    {
      if keys[i] != "" {
        assert keys[i] in Named(keys);
        return true;
      }
      i := i + 1;
    }
    return false;
  }

  /** A gated call, as the error log sees it. */
  datatype Ask = Ask(uid: string, k: Keyed)

  function LoggedBy(logged: set<string>, asks: seq<Ask>): set<string>
    decreases |asks|
  {
    if asks == [] then logged else LoggedBy(LoggedAfter(logged, asks[0].uid, asks[0].k), asks[1..])
  }

  /** Ask i logs a line. */
  predicate Logs(asks: seq<Ask>, i: nat)
    requires i < |asks|
  {
    asks[i].k.KeyError? && asks[i].uid !in LoggedBy({}, asks[..i])
  }

  predicate AnswersFor(asks: seq<Ask>, uid: string, i: nat, j: nat)
    requires j <= |asks|
  {
    exists m :: i <= m < j && asks[m].uid == uid && asks[m].k.Keys?
  }

  lemma {:induction false} LoggedSnoc(logged: set<string>, asks: seq<Ask>, a: Ask)
    ensures LoggedBy(logged, asks + [a]) == LoggedAfter(LoggedBy(logged, asks), a.uid, a.k)
    decreases |asks|
  {
    if asks == [] {
      assert [a][1..] == [];
    } else {
      LoggedSnoc(LoggedAfter(logged, asks[0].uid, asks[0].k), asks[1..], a);
      assert (asks + [a])[1..] == asks[1..] + [a];
    }
  }

  /** An object is on the log after n asks exactly when its keyer failed and has not answered since. */
  lemma {:induction false} OnTheLogExactly(asks: seq<Ask>, n: nat, uid: string)
    requires n <= |asks|
    ensures uid in LoggedBy({}, asks[..n]) <==>
            exists i :: 0 <= i < n && asks[i] == Ask(uid, KeyError) && !AnswersFor(asks, uid, i, n)
  {
    if n > 0 {
      OnTheLogExactly(asks, n - 1, uid);
      assert asks[..n] == asks[..n - 1] + [asks[n - 1]];
      LoggedSnoc({}, asks[..n - 1], asks[n - 1]);
      if asks[n - 1] == Ask(uid, KeyError) {
        assert !AnswersFor(asks, uid, n - 1, n);
      } else if exists i :: 0 <= i < n - 1 && asks[i] == Ask(uid, KeyError) && !AnswersFor(asks, uid, i, n - 1) {
        var i :| 0 <= i < n - 1 && asks[i] == Ask(uid, KeyError) && !AnswersFor(asks, uid, i, n - 1);
        if asks[n - 1].uid != uid || !asks[n - 1].k.Keys? {
          assert !AnswersFor(asks, uid, i, n);
        }
      }
    }
  }

  /** Main result. A key error is logged exactly when the object's keyer has not failed before, or has
      answered since it last did: once per streak of errors. */
  lemma LoggedOncePerStreak(asks: seq<Ask>, n: nat, uid: string)
    requires n < |asks| && asks[n] == Ask(uid, KeyError)
    ensures Logs(asks, n) <==>
            forall i :: 0 <= i < n && asks[i] == Ask(uid, KeyError) ==> AnswersFor(asks, uid, i, n)
  {
    OnTheLogExactly(asks, n, uid);
  }

  // ---- deferrals ----

  const SYNCED := "Synced"
  const RECONCILE_DEFERRED := "ReconcileDeferred"

  /** An object as a deferral sees it: its conditions, and everything else. */
  datatype Copy<T> = Copy(conditions: seq<Condition>, rest: T)

  /** formatDeadline: the deadline rounded up to a whole second. */
  function NextAttempt(until: Time): nat {
    var r := until / SECOND * SECOND;
    if r < until then r / SECOND + 1 else r / SECOND
  }

  /** The attempt a message names is never before the server's deadline, and less than a second after. */
  lemma NextAttemptNeverEarly(until: Time)
    ensures until <= NextAttempt(until) * SECOND < until + SECOND
  {
  }

  /** Deferral.Message. say words the cause of a local deferral. */
  function MessageOf(d: Deferral, say: LocalCause -> string): Message {
    match d.reason
    case DeferThrottled => RateLimited(d.key, NextAttempt(d.until))
    case DeferSaturated => ControllerSaturated(say(d.cause), d.capacity)
    case DeferRamping => RampingUp(d.capacity)
    case DeferAtCapacity =>
      if d.isLocal && !d.cause.NoCause? then LocallyBlocked(say(d.cause), d.capacity)
      else if d.isLocal then Recovering(d.capacity)
      else AtConcurrencyLimit(d.key, d.capacity)
  }

  function ReconcileDeferred(m: Message, now: Time): Condition {
    Condition(SYNCED, False, now, RECONCILE_DEFERRED, m)
  }

  /** A deferral enters a new window: the object was not deferred before, or the server's deadline
      reads differently. */
  predicate NewWindow(prev: Condition, d: Deferral, m: Message) {
    prev.reason != RECONCILE_DEFERRED || (d.reason.DeferThrottled? && prev.message != m)
  }

  /** How a deferred pass ends: after which delay, or with an error; with an event or not; and what it
      asked the API server to store, if anything. */
  datatype Ending<T> = Ending(after: Option<int>, event: bool, written: Option<Copy<T>>)

  function ConditionsAfter(cs: seq<Condition>, d: Deferral, say: LocalCause -> string, now: Time): seq<Condition> {
    if d.reason.DeferRamping? then cs else SetOne(cs, ReconcileDeferred(MessageOf(d, say), now))
  }

  function EndingOf<T(==)>(
    o: Copy<T>, pristine: Option<Copy<T>>, d: Deferral, say: LocalCause -> string, now: Time, accepted: bool): Ending<T>
  {
    var cs := ConditionsAfter(o.conditions, d, say, now);
    var event := !d.reason.DeferRamping? && NewWindow(Get(o.conditions, SYNCED), d, MessageOf(d, say));
    if pristine == Some(Copy(cs, o.rest)) then Ending(Some(d.requeueAfter), event, None)
    else Ending(if accepted then Some(d.requeueAfter) else None, event, Some(Copy(cs, o.rest)))
  }

  class Managed<T(==)> {
    const status: ConditionedStatus
    var rest: T

    constructor (status: ConditionedStatus, rest: T)
      ensures this.status == status && this.rest == rest
    {
      this.status, this.rest := status, rest;
    }

    function View(): Copy<T>
      reads this, status
    {
      Copy(status.conditions, rest)
    }
  }

  /** deferReconcile. pristine is the copy taken after the Get; accepted is the API server's answer to the
      status update, when there is one. */
  method DeferReconcile<T(==)>(
    mg: Managed<T>, pristine: Option<Copy<T>>, d: Deferral, say: LocalCause -> string, now: Time, accepted: bool)
    returns (e: Ending<T>)
    modifies mg.status
    ensures mg.View() == old(mg.View()).(conditions := ConditionsAfter(old(mg.View()).conditions, d, say, now))
    ensures e == EndingOf(old(mg.View()), pristine, d, say, now, accepted)
  {
    if d.reason.DeferRamping? {
      if pristine.None? || pristine.value != mg.View() {
        return Ending(if accepted then Some(d.requeueAfter) else None, false, Some(mg.View()));
      }
      return Ending(Some(d.requeueAfter), false, None);
    }
    var prev := mg.status.GetCondition(SYNCED);
    var cond := ReconcileDeferred(MessageOf(d, say), now);
    var newWindow := prev.reason != RECONCILE_DEFERRED || (d.reason.DeferThrottled? && prev.message != cond.message);
    assert [cond][..0] == [];
    mg.status.SetConditions([cond]);
    if pristine.Some? && pristine.value == mg.View() {
      return Ending(Some(d.requeueAfter), newWindow, None);
    }
    return Ending(if accepted then Some(d.requeueAfter) else None, newWindow, Some(mg.View()));
  }

  /** Main result. A deferral leaves every condition but Synced as it was, transition time included; on the
      startup ramp it leaves Synced too and records no event. */
  lemma OnlySyncedMoves<T>(
    o: Copy<T>, pristine: Option<Copy<T>>, d: Deferral, say: LocalCause -> string, now: Time, accepted: bool, kind: string)
    ensures var cs := ConditionsAfter(o.conditions, d, say, now);
            && (kind != SYNCED ==> Get(cs, kind) == Get(o.conditions, kind))
            && (d.reason.DeferRamping? ==>
                  cs == o.conditions && !EndingOf(o, pristine, d, say, now, accepted).event)
            && (!d.reason.DeferRamping? ==> Same(Get(cs, SYNCED), ReconcileDeferred(MessageOf(d, say), now)))
    ensures OnePerKind(o.conditions) ==> OnePerKind(ConditionsAfter(o.conditions, d, say, now))
  {
    var x := ReconcileDeferred(MessageOf(d, say), now);
    SetThenGet(o.conditions, x, kind);
    SetThenGet(o.conditions, x, SYNCED);
    if OnePerKind(o.conditions) {
      OneOfEachStays(o.conditions, [x]);
      assert [x][..0] == [];
      assert SetAll(o.conditions, [x]) == SetOne(o.conditions, x);
    }
  }

  /** What each deferral says. A throttled one names its key and the deadline; a full key its key and capacity; a local
      one the local capacity and the cause, if there is one: saturated inputs, or a sampler not started. */
  lemma MessageExactly(d: Deferral, say: LocalCause -> string)
    ensures d.reason.DeferThrottled? ==> MessageOf(d, say) == RateLimited(d.key, (d.until + SECOND - 1) / SECOND)
    ensures d.reason.DeferSaturated? ==> MessageOf(d, say) == ControllerSaturated(say(d.cause), d.capacity)
    ensures d.reason.DeferRamping? ==> MessageOf(d, say) == RampingUp(d.capacity)
    ensures d.reason.DeferAtCapacity? && !d.isLocal ==> MessageOf(d, say) == AtConcurrencyLimit(d.key, d.capacity)
    ensures d.reason.DeferAtCapacity? && d.isLocal && d.cause.NoCause? ==> MessageOf(d, say) == Recovering(d.capacity)
    ensures d.reason.DeferAtCapacity? && d.isLocal && !d.cause.NoCause? ==>
              MessageOf(d, say) == LocallyBlocked(say(d.cause), d.capacity)
  {
  }

  /** Main result. How a deferred pass ends. It asks for one status write exactly when the object, its Synced condition
      set, is not what was read; it errs exactly when that write is refused, and otherwise comes back after the
      deferral's delay. Synced then reads False for the reason ReconcileDeferred with the deferral's message. An event is
      due exactly off the ramp, when the object was not deferred before or a throttled deferral reads differently. */
  lemma DeferralEndsExactly<T>(
    o: Copy<T>, pristine: Option<Copy<T>>, d: Deferral, say: LocalCause -> string, now: Time, accepted: bool)
    ensures var e := EndingOf(o, pristine, d, say, now, accepted);
            var cs := ConditionsAfter(o.conditions, d, say, now);
            var prev, m := Get(o.conditions, "Synced"), MessageOf(d, say);
            && (e.written.Some? <==> pristine != Some(Copy(cs, o.rest)))
            && (e.written.Some? ==> e.written.value == Copy(cs, o.rest))
            && e.after == (if e.written.Some? && !accepted then None else Some(d.requeueAfter))
            && (e.event <==> d.reason != DeferRamping
                             && (prev.reason != "ReconcileDeferred" || (d.reason == DeferThrottled && prev.message != m)))
            && (d.reason != DeferRamping ==>
                  var s := Get(cs, "Synced");
                  s.kind == "Synced" && s.status == False && s.reason == "ReconcileDeferred" && s.message == m)
  {
    OnlySyncedMoves(o, pristine, d, say, now, accepted, SYNCED);
  }

  // ---- streaks of deferrals ----

  /** What the API server keeps of a condition list: transition times to the second. */
  function AsStored(cs: seq<Condition>): (r: seq<Condition>)
    ensures |r| == |cs|
    ensures forall i :: 0 <= i < |cs| ==>
              r[i] == cs[i].(transition := cs[i].transition / SECOND * SECOND) && Same(r[i], cs[i])
  {
    seq(|cs|, i requires 0 <= i < |cs| => cs[i].(transition := cs[i].transition / SECOND * SECOND))
  }

  lemma {:induction false} StoredReadsTheSame(cs: seq<Condition>, kind: string)
    ensures Same(Get(AsStored(cs), kind), Get(cs, kind))
    ensures HasKind(AsStored(cs), kind) <==> HasKind(cs, kind)
  {
    if cs != [] {
      StoredReadsTheSame(cs[1..], kind);
      assert AsStored(cs)[1..] == AsStored(cs[1..]);
      assert AsStored(cs)[0].kind == cs[0].kind;
    }
    assert forall i :: 0 <= i < |cs| ==> AsStored(cs)[i].kind == cs[i].kind;
  }

  /** A pass that is deferred before it learned anything, and the API server's answer to its write. */
  datatype Turned = Turned(d: Deferral, now: Time, accepted: bool)

  /** The stored object after one such pass: what it wrote, if it wrote and was accepted. */
  function StoredAfter<T(==)>(o: Copy<T>, t: Turned, say: LocalCause -> string): Copy<T> {
    var e := EndingOf(o, Some(o), t.d, say, t.now, t.accepted);
    if e.written.Some? && t.accepted then Copy(AsStored(e.written.value.conditions), e.written.value.rest) else o
  }

  /** Status writes and events of a streak of such passes. */
  function Writes<T(==)>(o: Copy<T>, ts: seq<Turned>, say: LocalCause -> string): nat
    decreases |ts|
  {
    if ts == [] then 0
    else (if EndingOf(o, Some(o), ts[0].d, say, ts[0].now, ts[0].accepted).written.Some? then 1 else 0)
         + Writes(StoredAfter(o, ts[0], say), ts[1..], say)
  }

  function Events<T(==)>(o: Copy<T>, ts: seq<Turned>, say: LocalCause -> string): nat
    decreases |ts|
  {
    if ts == [] then 0
    else (if EndingOf(o, Some(o), ts[0].d, say, ts[0].now, ts[0].accepted).event then 1 else 0)
         + Events(StoredAfter(o, ts[0], say), ts[1..], say)
  }

  /** The message shown, None when Synced says something else than deferred. */
  function ShownNext(shown: Option<Message>, t: Turned, say: LocalCause -> string): Option<Message> {
    if t.d.reason.DeferRamping? || !t.accepted then shown else Some(MessageOf(t.d, say))
  }

  /** How often the message of a deferral off the ramp is not the one shown. */
  function NewMessages(shown: Option<Message>, ts: seq<Turned>, say: LocalCause -> string): nat
    decreases |ts|
  {
    if ts == [] then 0
    else (if !ts[0].d.reason.DeferRamping? && shown != Some(MessageOf(ts[0].d, say)) then 1 else 0)
         + NewMessages(ShownNext(shown, ts[0], say), ts[1..], say)
  }

  /** How often such a deferral is also the first shown, or names a server deadline. */
  function NewWindows(shown: Option<Message>, ts: seq<Turned>, say: LocalCause -> string): nat
    decreases |ts|
  {
    if ts == [] then 0
    else (if !ts[0].d.reason.DeferRamping? && shown != Some(MessageOf(ts[0].d, say))
             && (shown.None? || ts[0].d.reason.DeferThrottled?) then 1 else 0)
         + NewWindows(ShownNext(shown, ts[0], say), ts[1..], say)
  }

  predicate Shows(cs: seq<Condition>, shown: Option<Message>) {
    match shown
    case None => Get(cs, SYNCED).reason != RECONCILE_DEFERRED
    case Some(m) => HasKind(cs, SYNCED) && Same(Get(cs, SYNCED), ReconcileDeferred(m, 0))
  }

  lemma TurnShows<T>(o: Copy<T>, t: Turned, say: LocalCause -> string, shown: Option<Message>)
    requires OnePerKind(o.conditions) && Shows(o.conditions, shown)
    ensures OnePerKind(StoredAfter(o, t, say).conditions)
    ensures Shows(StoredAfter(o, t, say).conditions, ShownNext(shown, t, say))
    ensures var e := EndingOf(o, Some(o), t.d, say, t.now, t.accepted);
            var m := MessageOf(t.d, say);
            && (e.written.Some? <==> !t.d.reason.DeferRamping? && shown != Some(m))
            && (e.event <==> !t.d.reason.DeferRamping? && shown != Some(m) && (shown.None? || t.d.reason.DeferThrottled?))
  {
    if !t.d.reason.DeferRamping? {
      var x := ReconcileDeferred(MessageOf(t.d, say), t.now);
      SetChangesExactly(o.conditions, x);
      OnlySyncedMoves(o, Some(o), t.d, say, t.now, t.accepted, SYNCED);
      var cs := SetOne(o.conditions, x);
      SetHasKind(o.conditions, x, SYNCED);
      StoredReadsTheSame(cs, SYNCED);
    }
  }

  /** Main result. A streak of deferrals of an otherwise unchanged object writes its status once for each
      message that is not the one stored, and records an event once for each that is the first stored or
      names a new server deadline; repeats of the stored message are silent, and so is the startup ramp. */
  lemma {:induction false} QuietRepeats<T>(o: Copy<T>, ts: seq<Turned>, say: LocalCause -> string, shown: Option<Message>)
    requires OnePerKind(o.conditions) && Shows(o.conditions, shown)
    ensures Writes(o, ts, say) == NewMessages(shown, ts, say)
    ensures Events(o, ts, say) == NewWindows(shown, ts, say)
    decreases |ts|
  {
    if ts != [] {
      TurnShows(o, ts[0], say, shown);
      QuietRepeats(StoredAfter(o, ts[0], say), ts[1..], say, ShownNext(shown, ts[0], say));
    }
  }

  /** Two throttled deferrals of a key read the same exactly when their deadlines round up to the same
      second: then the later deadline is neither written nor announced. */
  lemma DeadlinesReadAlikeExactly(d: Deferral, e: Deferral, say: LocalCause -> string)
    requires d.reason.DeferThrottled? && e.reason.DeferThrottled?
    ensures MessageOf(d, say) == MessageOf(e, say) <==>
            d.key == e.key && (d.until + SECOND - 1) / SECOND == (e.until + SECOND - 1) / SECOND
  {
  }

  function Refusal429(key: string, until: Time): Signal {
    Signal(key, 0, until, 0, 0, false, true)
  }

  /** Such a deadline can be received: two refusals of a key, the second with a later deadline in the same
      second. The second deferral names the later deadline to the governor's caller, but writes nothing on
      the object and records no event. */
  lemma LaterDeadlineUnannounced<T>(
    s: Setup, y: System, k: string, at: Time, first: Time, second: Time, o: Copy<T>, say: LocalCause -> string,
    draw: Option<nat>)
    requires !s.ignoreSignals && k != "" && at < first < second && LineAt(s, y, k).holdUntil < first
    requires (first + SECOND - 1) / SECOND == (second + SECOND - 1) / SECOND
    requires OnePerKind(o.conditions) && Get(o.conditions, SYNCED).reason != RECONCILE_DEFERRED
    ensures var y1 := Step(s, y, Op.Observe(Refusal429(k, first), at));
            var y2 := Step(s, Step(s, y1, Op.AcquireAll([k], at, draw)), Op.Observe(Refusal429(k, second), at));
            var d1, d2 := Answer(s, y1, [k], at, draw), Answer(s, y2, [k], at, draw);
            && IsThrottled(d1) && IsThrottled(d2) && d1.value.until == first && d2.value.until == second
            && var stored := StoredAfter(o, Turned(d1.value, at, true), say);
               var e := EndingOf(stored, Some(stored), d2.value, say, at, true);
               && EndingOf(o, Some(o), d1.value, say, at, true).event
               && e.written.None? && !e.event
  {
    var y1 := Step(s, y, Op.Observe(Refusal429(k, first), at));
    var y1' := Step(s, y1, Op.AcquireAll([k], at, draw));
    var y2 := Step(s, y1', Op.Observe(Refusal429(k, second), at));
    RefusedUntil(s, y, k, at, first, draw);
    DeferredCallsStillAdvance(s, y1, [k], at, draw, k);
    RefusedUntil(s, y1', k, at, second, draw);
    SameReadingSilent(o, Answer(s, y1, [k], at, draw).value, Answer(s, y2, [k], at, draw).value, say, at);
  }

  /** A refusal with the latest deadline so far names that one. */
  lemma RefusedUntil(s: Setup, y: System, k: string, at: Time, until: Time, draw: Option<nat>)
    requires !s.ignoreSignals && k != "" && at < until && LineAt(s, y, k).holdUntil < until
    ensures var y1 := Step(s, y, Op.Observe(Refusal429(k, until), at));
            && LineAt(s, y1, k).holdUntil == until
            && IsThrottled(Answer(s, y1, [k], at, draw))
            && Answer(s, y1, [k], at, draw).value.until == until && Answer(s, y1, [k], at, draw).value.key == k
  {
    ObservedLine(s, y, Refusal429(k, until), at, k);
    OneKeyHeld(s, Step(s, y, Op.Observe(Refusal429(k, until), at)), k, at, draw);
  }

  /** A second throttled deferral that reads like the one stored is silent. */
  lemma SameReadingSilent<T>(o: Copy<T>, d: Deferral, e: Deferral, say: LocalCause -> string, at: Time)
    requires d.reason.DeferThrottled? && e.reason.DeferThrottled? && d.key == e.key
    requires (d.until + SECOND - 1) / SECOND == (e.until + SECOND - 1) / SECOND
    requires OnePerKind(o.conditions) && Get(o.conditions, SYNCED).reason != RECONCILE_DEFERRED
    ensures var stored := StoredAfter(o, Turned(d, at, true), say);
            var again := EndingOf(stored, Some(stored), e, say, at, true);
            EndingOf(o, Some(o), d, say, at, true).event && again.written.None? && !again.event
  {
    DeadlinesReadAlikeExactly(d, e, say);
    var t := Turned(d, at, true);
    TurnShows(o, t, say, None);
    TurnShows(StoredAfter(o, t, say), Turned(e, at, true), say, Some(MessageOf(d, say)));
  }
}
