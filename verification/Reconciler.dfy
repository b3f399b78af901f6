/** Reconcile as the source runs it: statement by statement over one object, with early returns,
    leases and deferred releases. Every path is a run of the step machine, so what holds of all its
    runs holds of every call. */
module Reconciler {
  import opened Clock
  import opened Meta
  import opened ManagedObjects
  import opened ReconcilePass
  import opened PassEffects

  /** The API server, the governor and the external client as one pass meets them: an arbitrary
      oracle for answers, an arbitrary clock, and the leases the pass takes. */
  class Host {
    const c: Config
    const oracle: (nat, Effect) -> Answer
    const clock: nat -> Time

    var turns: seq<Turn>
    var held: set<nat>
    var taken: nat
    var backstops: seq<nat>
    /** The lease each gated call ran under. */
    var calls: seq<nat>
    ghost var at: Local

    ghost predicate Valid()
      reads this
    {
      && PassRun(c, START, turns)
      && at == PassEnd(c, START, turns)
      && held <= (set id | id in backstops)
      && (forall id :: id in held ==> id < taken)
      && |calls| == CallCount(c, START, turns)
      && (forall i :: 0 <= i < |calls| ==> calls[i] < taken)
      && (forall i, j :: 0 <= i < j < |calls| ==> calls[i] < calls[j])
    }

    /** No lease is out, and none has served a call yet unless it was released. */
    ghost predicate Idle()
      reads this
    {
      Valid() && held == {}
    }

    /** Exactly the newest lease is out, and no call has run under it. */
    ghost predicate Leased(lease: nat)
      reads this
    {
      && Valid()
      && held == {lease}
      && taken == lease + 1
      && (forall i :: 0 <= i < |calls| ==> calls[i] < lease)
    }

    constructor (c: Config, oracle: (nat, Effect) -> Answer, clock: nat -> Time)
      ensures Idle() && at == START && turns == [] && calls == []
      ensures this.c == c
    {
      this.c, this.oracle, this.clock := c, oracle, clock;
      turns, held, taken, backstops, calls := [], {}, 0, [], [];
      at := START;
    }

    /** Whatever the oracle says, as an answer that fits. */
    function Reply(x: Effect): (a: Answer)
      reads this
      ensures Fits(x, a)
    {
      var a := oracle(|turns|, x);
      if Fits(x, a) then a else if x.Gate? then Deferred(1) else Failure
    }

    /** One effect outside the gate. */
    method Perform(x: Effect) returns (a: Answer, now: Time)
      requires Valid() && !at.pc.Done? && Next(at) == x && !x.Call?
      modifies this`turns, this`at
      ensures Valid() && Fits(x, a) && at == Resume(c, old(at), a, now)
      ensures turns == old(turns) + [Turn(a, now)]
    {
      a, now := Reply(x), clock(|turns|);
      RunSnoc(c, START, turns, Turn(a, now));
      turns, at := turns + [Turn(a, now)], Resume(c, at, a, now);
    }

    /** One gated call, under the lease that was granted for it and no other. */
    method Invoke(site: Site, lease: nat) returns (a: Answer, now: Time)
      requires Leased(lease) && !at.pc.Done? && Next(at) == Call(site)
      modifies this`turns, this`at, this`calls
      ensures Valid() && Fits(Call(site), a) && at == Resume(c, old(at), a, now)
      ensures turns == old(turns) + [Turn(a, now)]
      ensures calls == old(calls) + [lease]
    {
      a, now := Reply(Call(site)), clock(|turns|);
      RunSnoc(c, START, turns, Turn(a, now));
      turns, at := turns + [Turn(a, now)], Resume(c, at, a, now);
      calls := calls + [lease];
    }

    /** Ask for a lease, never while one is out; a granted one is at once backed by a deferred
        release. */
    method Gate(site: Site) returns (lease: nat, deferral: Option<int>, now: Time)
      requires Idle() && !at.pc.Done? && at.pc == Gating(site)
      modifies this`turns, this`at, this`held, this`taken, this`backstops
      ensures Valid()
      ensures deferral.None? ==> Leased(lease) && at == OnGranted(old(at), site, now)
      ensures deferral.Some? ==> held == {} && at == At(old(at), Deferring(deferral.value))
    {
      var a;
      a, now := Perform(ReconcilePass.Gate(site));
      if a.Deferred? {
        return 0, Some(a.after), now;
      }
      lease, deferral := taken, None;
      held, taken, backstops := held + {lease}, taken + 1, backstops + [lease];
    }

    /** Releasing twice is releasing once. */
    method Release(lease: nat)
      requires Valid()
      modifies this`held
      ensures Valid() && held == old(held) - {lease}
    {
      held := held - {lease};
    }

    /** The deferred releases, run however the pass ends. */
    method Unwind()
      requires Valid()
      modifies this`held
      ensures Valid() && held == {}
    {
      var i := |backstops|;
      while i > 0
        invariant 0 <= i <= |backstops| && Valid()
        invariant held <= set id | id in backstops[..i]
      {
        i := i - 1;
        assert backstops[..i + 1] == backstops[..i] + [backstops[i]];
        Release(backstops[i]);
      }
    }
  }

  /** How many gated calls a run made. */
  function CallCount(c: Config, l: Local, turns: seq<Turn>): nat
    requires PassRun(c, l, turns)
    decreases |turns|
  {
    if turns == [] then 0
    else
      var l' := Resume(c, l, turns[0].a, turns[0].now);
      (if Next(l).Call? then 1 else 0) + CallCount(c, l', turns[1..])
  }

  lemma {:induction false} RunSnoc(c: Config, l: Local, turns: seq<Turn>, t: Turn)
    requires PassRun(c, l, turns) && !PassEnd(c, l, turns).pc.Done?
    requires Fits(Next(PassEnd(c, l, turns)), t.a)
    ensures PassRun(c, l, turns + [t])
    ensures PassEnd(c, l, turns + [t]) == Resume(c, PassEnd(c, l, turns), t.a, t.now)
    ensures CallCount(c, l, turns + [t]) ==
            CallCount(c, l, turns) + if Next(PassEnd(c, l, turns)).Call? then 1 else 0
    decreases |turns|
  {
    if turns == [] {
      var l' := Resume(c, l, t.a, t.now);
      assert turns + [t] == [t] && [t][1..] == [] && PassRun(c, l', []) && PassEnd(c, l', []) == l' && CallCount(c, l', []) == 0;
    } else {
      RunSnoc(c, Resume(c, l, turns[0].a, turns[0].now), turns[1..], t);
      assert (turns + [t])[0] == turns[0] && (turns + [t])[1..] == turns[1..] + [t];
    }
  }

  /** Report conditions in one status update, and return out when it went through. */
  method Report(host: Host, managed: ManagedObject, out: Outcome) returns (r: Outcome)
    requires host.Valid() && host.at.mg == managed.View() && host.at.pc == Reporting(out)
    modifies host
    ensures host.Valid() && host.at.pc == Done(r)
  {
    var a, _ := host.Perform(WriteStatus(managed.View()));
    return if a.Wrote? then out else Errored;
  }

  /** End a pass whose next call was deferred. */
  method Deferral(host: Host, after: int) returns (r: Outcome)
    requires host.Valid() && host.at.pc == Deferring(after)
    modifies host
    ensures host.Valid() && host.at.pc == Done(r)
  {
    var a, _ := host.Perform(Defer(after));
    return if a.Ok? then After(after) else Errored;
  }

  /** End a pass whose write of the object did not go through. */
  method WriteError(host: Host, managed: ManagedObject, a: Answer) returns (r: Outcome)
    requires host.Valid() && host.at.mg == managed.View()
    requires host.at.pc == if a.Conflict? then Done(Requeue) else Reporting(Errored)
    modifies host
    ensures host.Valid() && host.at.pc == Done(r)
  {
    if a.Conflict? {
      return Requeue;
    }
    r := Report(host, managed, Errored);
  }

  /** Let the object go: take the finalizer off, when it is there. */
  method Finalize(host: Host, managed: ManagedObject, ghost l: Local) returns (r: Outcome)
    requires host.Valid() && l.mg == managed.View() && host.at == RemoveFinalizer(l)
    modifies host, managed
    ensures host.Valid() && host.at.pc == Done(r)
  {
    var on := managed.FinalizerExists(FINALIZER);
    if !on {
      return LetGo;
    }
    var panicked := managed.RemoveFinalizer(FINALIZER);
    if panicked {
      return Panicked;
    }
    r := TakeOff(host, managed);
  }

  /** Store the object without its finalizer; one that is gone already is let go too. */
  method TakeOff(host: Host, managed: ManagedObject) returns (r: Outcome)
    requires host.Valid() && host.at.pc == Unfinalizing && managed.View() == WithoutFinalizer(host.at.mg)
    modifies host
    ensures host.Valid() && host.at.pc == Done(r)
  {
    var a, _ := host.Perform(Write(managed.View()));
    if a.Wrote? || a.NotFound? {
      return LetGo;
    }
    r := WriteError(host, managed, a);
  }

  method DeleteExternal(host: Host, managed: ManagedObject) returns (r: Outcome)
    requires host.Idle() && host.at.mg == managed.View() && host.at.pc == Gating(AtDelete)
    modifies host
    ensures host.Valid() && host.at.pc == Done(r)
  {
    var lease, deferral, _ := host.Gate(AtDelete);
    if deferral.Some? {
      r := Deferral(host, deferral.value);
      return;
    }
    r := CallDelete(host, managed, lease);
  }

  method CallDelete(host: Host, managed: ManagedObject, lease: nat) returns (r: Outcome)
    requires host.Leased(lease) && host.at.mg == managed.View() && host.at.pc == Deleting
    modifies host
    ensures host.Valid() && host.at.pc == Done(r)
  {
    var a, _ := host.Invoke(AtDelete, lease);
    if a.Panic? {
      return Panicked;
    }
    host.Release(lease);
    r := Report(host, managed, if a.Ok? then Requeue else Errored);
  }

  method UpdateExternal(host: Host, managed: ManagedObject) returns (r: Outcome)
    requires host.Idle() && host.at.mg == managed.View() && host.at.pc == Gating(AtUpdate)
    modifies host
    ensures host.Valid() && host.at.pc == Done(r)
  {
    var lease, deferral, _ := host.Gate(AtUpdate);
    if deferral.Some? {
      r := Deferral(host, deferral.value);
      return;
    }
    r := CallUpdate(host, managed, lease);
  }

  method CallUpdate(host: Host, managed: ManagedObject, lease: nat) returns (r: Outcome)
    requires host.Leased(lease) && host.at.mg == managed.View() && host.at.pc == Updating
    modifies host
    ensures host.Valid() && host.at.pc == Done(r)
  {
    var a, _ := host.Invoke(AtUpdate, lease);
    if a.Panic? {
      return Panicked;
    }
    host.Release(lease);
    r := Report(host, managed, if a.Ok? then After(host.c.poll) else Errored);
  }

  /** The gate is asked before the marker is written, and its lease is held over the write and the
      call. */
  method CreateExternal(host: Host, managed: ManagedObject) returns (r: Outcome)
    requires host.Idle() && host.at.mg == managed.View() && host.at.pc == Gating(AtCreate)
    modifies host, managed
    ensures host.Valid() && host.at.pc == Done(r)
  {
    var lease, deferral, now := host.Gate(AtCreate);
    if deferral.Some? {
      r := Deferral(host, deferral.value);
      return;
    }
    r := MarkAndCreate(host, managed, lease, now);
  }

  /** Store the pending marker over the version read, then create. */
  method MarkAndCreate(host: Host, managed: ManagedObject, lease: nat, now: Time) returns (r: Outcome)
    requires host.Leased(lease) && host.at.mg == managed.View() && host.at.pc == Marking(Truncated(now))
    modifies host, managed
    ensures host.Valid() && host.at.pc == Done(r)
  {
    managed.SetExternalCreatePending(now);
    var w, _ := host.Perform(Write(managed.View()));
    if !w.Wrote? {
      r := WriteError(host, managed, w);
      return;
    }
    managed.version := w.version;
    r := CallCreate(host, managed, lease);
  }

  method CallCreate(host: Host, managed: ManagedObject, lease: nat) returns (r: Outcome)
    requires host.Leased(lease) && host.at.mg == managed.View() && host.at.pc == Creating
    modifies host, managed
    ensures host.Valid() && host.at.pc == Done(r)
  {
    var a, now := host.Invoke(AtCreate, lease);
    if a.Panic? {
      return Panicked;
    }
    host.Release(lease);
    r := StampOutcome(host, managed, a, now);
  }

  /** Persist what became of a create under its own marker, conflicts included. */
  method StampOutcome(host: Host, managed: ManagedObject, a: Answer, now: Time) returns (r: Outcome)
    requires host.Valid() && host.at.mg == managed.View()
    requires a.Ok? || a.Conflict? || a.Failure?
    requires host.at.pc == if a.Ok? then StampingSuccess(Truncated(now))
                           else StampingFailure(Truncated(now), a.Conflict?)
    modifies host, managed
    ensures host.Valid() && host.at.pc == Done(r)
  {
    if a.Ok? {
      managed.SetExternalCreateSucceeded(now);
    } else {
      managed.SetExternalCreateFailed(now);
    }
    var s, _ := host.Perform(StampAll(managed.annotations));
    if s.Merged? {
      managed.Load(s.o);
    }
    if a.Conflict? {
      return Requeue;
    }
    r := Report(host, managed, if a.Ok? && s.Merged? then Requeue else Errored);
  }

  /** What Observe answered. */
  datatype Observation = Observation(present: bool, upToDate: bool, lateInitialized: bool)

  ghost predicate Matches(l: Local, managed: ManagedObject, o: Observation)
    reads managed
  {
    && l.mg == managed.View()
    && l.present == o.present
    && l.upToDate == o.upToDate
    && l.lateInitialized == o.lateInitialized
  }

  /** Once the object carries the finalizer: create, or late-initialize and update. */
  method Converge(host: Host, managed: ManagedObject, o: Observation, ghost l: Local) returns (r: Outcome)
    requires host.Idle() && Matches(l, managed, o) && host.at == OnFinalizer(host.c, l)
    modifies host, managed
    ensures host.Valid() && host.at.pc == Done(r)
  {
    if !o.present && ShouldCreate(managed.View()) {
      r := CreateExternal(host, managed);
      return;
    }
    if o.lateInitialized {
      var a, _ := host.Perform(Write(managed.View()));
      if !a.Wrote? {
        r := WriteError(host, managed, a);
        return;
      }
      managed.version := a.version;
    }
    if o.upToDate || !ShouldUpdate(managed.View()) {
      r := Report(host, managed, After(host.c.poll));
      return;
    }
    r := UpdateExternal(host, managed);
  }

  /** Once no create handshake is in the way. */
  method Act(host: Host, managed: ManagedObject, o: Observation, now: Time, ghost l: Local) returns (r: Outcome)
    requires host.Idle() && Matches(l, managed, o) && host.at == OnHandshake(host.c, l, now)
    modifies host, managed
    ensures host.Valid() && host.at.pc == Done(r)
  {
    if !o.present && ShouldOnlyObserve(managed.View()) {
      r := Report(host, managed, Errored);
      return;
    }
    if !o.present && SucceededDuring(managed.View(), now, host.c.creationGrace) {
      return Requeue;
    }
    if managed.deleted {
      if o.present && ShouldDelete(managed.View()) {
        r := DeleteExternal(host, managed);
      } else {
        r := Finalize(host, managed, l);
      }
      return;
    }
    r := Hold(host, managed, o, l);
  }

  /** Put the finalizer on, when it is missing, and go on. */
  method Hold(host: Host, managed: ManagedObject, o: Observation, ghost l: Local) returns (r: Outcome)
    requires host.Idle() && Matches(l, managed, o)
    requires host.at == if HasFinalizer(l.mg) then OnFinalizer(host.c, l) else At(l, Finalizing)
    modifies host, managed
    ensures host.Valid() && host.at.pc == Done(r)
  {
    var on := managed.FinalizerExists(FINALIZER);
    ghost var next := l;
    if !on {
      managed.AddFinalizer(FINALIZER);
      var a, _ := host.Perform(Write(managed.View()));
      if !a.Wrote? {
        r := WriteError(host, managed, a);
        return;
      }
      managed.version := a.version;
      next := l.(pc := Finalizing, mg := managed.View());
    }
    r := Converge(host, managed, o, next);
  }

  /** Resolve an unresolved create handshake from what Observe answered. */
  method Resolve(host: Host, managed: ManagedObject, o: Observation, unresolved: bool, now: Time, ghost l: Local)
    returns (r: Outcome)
    requires host.Idle() && Matches(l, managed, o) && l.unresolved == unresolved
    requires host.at == OnObserved(host.c, l, now)
    modifies host, managed
    ensures host.Valid() && host.at.pc == Done(r)
  {
    if !unresolved || (!o.present && managed.deleted) {
      r := Act(host, managed, o, now, l);
      return;
    }
    if !o.present && PendingDuring(managed.View(), now, host.c.recoveryGrace) {
      r := Report(host, managed, After(host.c.reobserve));
      return;
    }
    ghost var next := host.at;
    var over, later := Settle(host, managed, o, now, next);
    if over.Some? {
      return over.value;
    }
    r := Act(host, managed, o, later, next.(mg := managed.View()));
  }

  /** Persist that an unresolved create is resolved: adopted with a success stamp, or given up. */
  method Settle(host: Host, managed: ManagedObject, o: Observation, now: Time, ghost l: Local)
    returns (over: Option<Outcome>, later: Time)
    requires host.Idle() && host.at == l && Matches(l, managed, o)
    requires l.pc == if o.present then Adopting(Truncated(now)) else Clearing
    modifies host, managed
    ensures host.Valid()
    ensures over.Some? ==> host.at.pc == Done(over.value)
    ensures over.None? ==> host.Idle() && host.at == OnHandshake(host.c, l.(mg := managed.View()), later)
  {
    var a;
    if o.present {
      managed.SetExternalCreateSucceeded(now);
      a, later := host.Perform(StampAll(managed.annotations));
      if !a.Merged? {
        return Some(Errored), later;
      }
      managed.Load(a.o);
    } else {
      managed.RemoveAnnotations([CreatePending]);
      assert (set k | k in [CreatePending]) == {CreatePending};
      a, later := host.Perform(Write(managed.View()));
      if !a.Wrote? {
        return Some(if a.Conflict? then Requeue else Errored), later;
      }
      managed.version := a.version;
    }
    return None, later;
  }

  /** Gate and make Connect; when the pass goes on it waits for its Observe slot. */
  method ConnectExternal(host: Host, managed: ManagedObject) returns (over: Option<Outcome>)
    requires host.Idle() && host.at.mg == managed.View() && host.at.pc == Gating(AtConnect)
    modifies host
    ensures host.Valid()
    ensures over.Some? ==> host.at.pc == Done(over.value)
    ensures over.None? ==> host.Idle() && host.at == At(old(host.at), Gating(AtObserve))
  {
    var lease, deferral, _ := host.Gate(AtConnect);
    if deferral.Some? {
      var r := Deferral(host, deferral.value);
      return Some(r);
    }
    var a, _ := host.Invoke(AtConnect, lease);
    if a.Panic? {
      return Some(Panicked);
    }
    host.Release(lease);
    if !a.Ok? {
      var r := WriteError(host, managed, a);
      return Some(r);
    }
    return None;
  }

  method ObserveExternal(host: Host, managed: ManagedObject, unresolved: bool) returns (r: Outcome)
    requires host.Idle() && host.at.mg == managed.View() && host.at.pc == Gating(AtObserve)
    requires host.at.unresolved == unresolved
    modifies host, managed
    ensures host.Valid() && host.at.pc == Done(r)
  {
    var lease, deferral, _ := host.Gate(AtObserve);
    if deferral.Some? {
      r := Deferral(host, deferral.value);
      return;
    }
    r := CallObserve(host, managed, unresolved, lease, host.at);
  }

  method CallObserve(host: Host, managed: ManagedObject, unresolved: bool, lease: nat, ghost looking: Local)
    returns (r: Outcome)
    requires host.Leased(lease) && host.at == looking && looking.mg == managed.View() && looking.pc == Observing
    requires looking.unresolved == unresolved
    modifies host, managed
    ensures host.Valid() && host.at.pc == Done(r)
  {
    var a, now := host.Invoke(AtObserve, lease);
    if a.Panic? {
      return Panicked;
    }
    host.Release(lease);
    if !a.Observed? {
      r := WriteError(host, managed, a);
      return;
    }
    var o := Observation(a.present, a.upToDate, a.lateInitialized);
    r := Resolve(host, managed, o, unresolved, now,
                 looking.(present := o.present, upToDate := o.upToDate, lateInitialized := o.lateInitialized));
  }

  /** The body of Reconcile. */
  method Body(host: Host, managed: ManagedObject) returns (r: Outcome)
    requires host.Idle() && host.at == START
    modifies host, managed
    ensures host.Valid() && host.at.pc == Done(r)
  {
    var a, _ := host.Perform(Get);
    if !a.Got? {
      return if a.NotFound? then Missing else Errored;
    }
    managed.Load(a.o);
    if IsPaused(managed.View()) {
      r := Report(host, managed, OnHold);
      return;
    }
    if managed.deleted && !ShouldDelete(managed.View()) {
      r := Finalize(host, managed, START.(mg := managed.View()));
      return;
    }
    var unresolved := CreateIncomplete(managed.View());
    var over := ConnectExternal(host, managed);
    if over.Some? {
      return over.value;
    }
    r := ObserveExternal(host, managed, unresolved);
  }

  /** Reconcile. Whatever the oracle and the clock: the pass is a run of the step machine that ends with
      the outcome returned, every gated call ran under a lease of its own, and no lease is out when it
      returns, even by a panic. */
  method Reconcile(host: Host, managed: ManagedObject) returns (r: Outcome)
    requires host.Idle() && host.at == START
    modifies host, managed
    ensures PassRun(host.c, START, host.turns)
    ensures PassEnd(host.c, START, host.turns).pc == Done(r)
    ensures host.held == {}
    ensures |host.calls| == CallCount(host.c, START, host.turns)
    ensures forall i, j :: 0 <= i < j < |host.calls| ==> host.calls[i] != host.calls[j]
  {
    r := Body(host, managed);
    host.Unwind();
  }
}
