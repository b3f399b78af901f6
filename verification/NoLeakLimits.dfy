/** Runs that leave a resource behind without its object, and hence what the absence of leaks rests on. */
module NoLeakLimits {
  import opened Clock
  import opened Meta
  import opened ReconcilePass
  import opened Handshake
  import opened HandshakeSafety
  import opened HandshakeLimits
  import opened NoLeak

  /** No run under an unchanged deleting policy leaves a resource without its object. */
  ghost predicate LeakFree(e: Env) {
    forall w, acts :: Initial(w) && ShouldDelete(w.obj) && Run(e, w, acts) && Respectful(e, w, acts) ==>
                        NoneOpen(e, End(e, w, acts)) || Held(End(e, w, acts))
  }

  /** The object of w was deleted, in the store only so far. */
  function Deleted(w: World): World {
    var o := w.obj.(deleted := true, version := w.obj.version + 1);
    w.(obj := o, foreign := o.version)
  }

  lemma Deletes(e: Env, w: World)
    requires !w.gone
    ensures Reaches(e, w, Deleted(w))
  {
    One(e, w, ForeignWrite(Deleted(w).obj));
  }

  /** A deleted object whose finalizer is the only one left, under the default policies. */
  predicate LastFinalizer(o: Object) {
    && o.deleted
    && o.finalizers == [FINALIZER]
    && Paused !in o.annotations
    && ManagementPolicy !in o.annotations
    && DeletionPolicy !in o.annotations
  }

  /** A pass about to take the finalizer off, at t; a create of w may have landed just after its look. */
  function LettingGo(w: World, t: Time, land: bool): World
    requires land ==> |w.attempts| == 1 && w.attempts[0].InFlight?
  {
    With(w, Resting(w.obj, Unfinalizing).(observedAt := w.now)).(now := t, attempts := LandedJustAfter(w, land))
  }

  /** A pass over a deleted object that sees nothing, and finds no check to hold it at t, turns to the
      finalizer. */
  lemma TurnsToFinalizer(e: Env, w: World, t: Time, land: bool)
    requires w.pass.None? && !w.gone && LastFinalizer(w.obj) && Unseeable(e, w) && (land ==> MayLand(e, w))
    requires w.now <= t <= w.now + e.observeBound && !SucceededDuring(w.obj, t, e.c.creationGrace)
    requires CreateIncomplete(w.obj) ==> !PendingDuring(w.obj, t, e.patience)
    ensures Reaches(e, w, LettingGo(w, t, land))
  {
    var v := With(w, Resting(w.obj, Observing));
    var seen := With(w, Resting(w.obj, Observing).(observedAt := w.now, phase := Replied(Observed(false, false, false))))
                .(attempts := LandedJustAfter(w, land));
    ToObserving(e, w);
    LookAndLand(e, w, land);
    Onwards(e, w, v, seen);
    Two(e, seen, Tick(t), Continue);
    Onwards(e, w, seen, LettingGo(w, t, land));
  }

  /** The pass let the object go, and it vanished from the store. */
  function Gone(w: World): World {
    w.(obj := WithoutFinalizer(w.obj).(version := w.obj.version + 1), gone := true, pass := None)
  }

  lemma LetsGo(e: Env, w: World)
    requires w.pass.Some? && w.pass.value.phase.Ready? && w.pass.value.l.pc.Unfinalizing?
    requires !w.gone && w.pass.value.l.mg == w.obj && LastFinalizer(w.obj)
    ensures Reaches(e, w, Gone(w))
  {
    var a := Reply(Wrote(w.obj.version + 1), true);
    assert Next(w.pass.value.l) == Write(WithoutFinalizer(w.obj));
    assert WithoutFinalizer(w.obj).finalizers == [];
    Two(e, w, a, Stop);
    var v := Apply(e, Apply(e, w, a), Stop);
    One(e, v, Vanish);
    Onwards(e, w, v, Gone(w));
  }

  /** Deleting the object of w leaks its resource, if the pass after that looks at once, and comes to the
      finalizer at t with an attempt still open. */
  lemma DeletedLeaks(e: Env, start: World, w: World, t: Time, land: bool)
    requires Initial(start) && ShouldDelete(start.obj) && Reaches(e, start, w)
    requires w.pass.None? && !w.gone && LastFinalizer(Deleted(w).obj)
    requires Unseeable(e, w) && (land ==> MayLand(e, w))
    requires w.now <= t <= w.now + e.observeBound && !SucceededDuring(w.obj, t, e.c.creationGrace)
    requires CreateIncomplete(w.obj) ==> !PendingDuring(w.obj, t, e.patience)
    requires exists i :: 0 <= i < |w.attempts| && Open(e, t, LandedJustAfter(w, land)[i])
    ensures !LeakFree(e)
  {
    var d := Deleted(w);
    var l := LettingGo(d, t, land);
    Deletes(e, w);
    TurnsToFinalizer(e, d, t, land);
    LetsGo(e, l);
    Onwards(e, start, w, d);
    Onwards(e, start, d, l);
    Onwards(e, start, l, Gone(l));
    LeakRefutes(e, start, Gone(l));
  }

  lemma LeakRefutes(e: Env, w: World, g: World)
    requires Initial(w) && ShouldDelete(w.obj) && Reaches(e, w, g) && !NoneOpen(e, g) && g.gone
    ensures !LeakFree(e)
  {
    var acts :| Run(e, w, acts) && Respectful(e, w, acts) && End(e, w, acts) == g;
  }

  /** A create crashed in the middle, its object was deleted, and the next pass sees no resource yet: it lets
      the object go, however fast the API shows what landed. */
  lemma TooYoungLeaks(e: Env)
    requires e.createBound > 0 && !Outlasts(e, e.patience)
    ensures !LeakFree(e)
  {
    var c, t := CrashedLate(e), LateLook(e) + e.observeBound;
    CrashesLate(e);
    CrashedLateShape(e);
    assert Open(e, t, LandedJustAfter(c, e.visibility == 0)[0]);
    DeletedLeaks(e, NewWorld(LATE_START), c, t, e.visibility == 0);
  }

  /** The failure stamp of a create that may still land leaves nothing to wait for. */
  lemma LandedErrorLeaks(e: Env)
    requires e.createBound > 0 && !e.exactErrors
    ensures !LeakFree(e)
  {
    var s := Stamped(SECOND, InFlight(SECOND), CreateFailed);
    FirstFails(e, SECOND);
    assert Pending(s.obj) == 1 && Succeeded(s.obj) == 0 && Failed(s.obj) == 1;
    assert Open(e, SECOND, LandedJustAfter(s, false)[0]);
    DeletedLeaks(e, NewWorld(SECOND), s, SECOND, false);
  }

  /** So does a failure stamp that hides a later create's marker of the same second. */
  lemma SameSecondLeaks(e: Env)
    requires e.createBound > 0 && e.exactErrors && !e.laterSecond
    ensures !LeakFree(e)
  {
    var c := CrashedAgain(SECOND);
    SecondCrashes(e, SECOND);
    assert Pending(c.obj) == 1 && Succeeded(c.obj) == 0 && Failed(c.obj) == 1;
    assert Open(e, SECOND, LandedJustAfter(c, false)[1]);
    DeletedLeaks(e, NewWorld(SECOND), c, SECOND, false);
  }

  /** And a creation period that ends before a resource is sure to have shown. */
  lemma CreationTooShortLeaks(e: Env)
    requires e.visibility > 0 && e.createBound > 0
    requires SECOND + e.observeBound + e.visibility - 1 > e.c.creationGrace
    ensures !LeakFree(e)
  {
    var s := Stamped(LATE_START, Live(LATE_START, LATE_START), CreateSucceeded);
    var look := LATE_START + e.visibility - 1;
    var c := s.(now := look);
    FirstSucceeds(e, LATE_START);
    One(e, s, Tick(look));
    Onwards(e, NewWorld(LATE_START), s, c);
    assert Pending(c.obj) == 1 && Succeeded(c.obj) == 1 && Failed(c.obj) == 0;
    assert Open(e, look + e.observeBound, LandedJustAfter(c, false)[0]);
    DeletedLeaks(e, NewWorld(LATE_START), c, look + e.observeBound, false);
  }

  /** And a recovery period that ends before the create is sure to have shown: the marker is cleared, the object
      deleted, and the next pass lets it go. */
  lemma ClearedTooSoonLeaks(e: Env)
    requires e.createBound > 0 && !RecoveryShows(e)
    ensures !LeakFree(e)
  {
    var c, start := CrashedLate(e), NewWorld(LATE_START);
    CrashesLate(e);
    CrashedLateShape(e);
    ToObserving(e, c);
    LookUnresolved(e, c, c.now, false);
    var o := WithoutPending(c.obj).(version := c.obj.version + 1);
    var g := With(c, Resting(c.obj, Observing).(l := Resting(c.obj, Gating(AtCreate)).l.(mg := o), observedAt := c.now))
             .(obj := o);
    Onwards(e, start, c, With(c, Resting(c.obj, Observing)));
    Onwards(e, start, With(c, Resting(c.obj, Observing)), g);
    var s := g.(pass := None);
    One(e, g, Stop);
    Onwards(e, start, g, s);
    assert Succeeded(o) == 0 && !CreateIncomplete(o);
    assert Open(e, c.now, LandedJustAfter(s, false)[0]);
    DeletedLeaks(e, start, s, c.now, false);
  }

  /** A marker is cleared only once its create can land no more, and has shown by then. */
  predicate RecoveryShows(e: Env) {
    SECOND + e.createBound + Max(e.visibility, 1) - 2 <= e.c.recoveryGrace
  }

  /** Without any time to land in, there is nothing to leak. */
  lemma {:induction false} NothingToLeak(e: Env, w: World, acts: seq<Action>)
    requires e.createBound == 0 && MarkedInPast(w) && w.attempts == [] && Run(e, w, acts)
    ensures End(e, w, acts).attempts == []
    decreases |acts|
  {
    if acts != [] {
      StepMarkedInPast(e, w, acts[0]);
      assert !acts[0].Issue?;
      NothingToLeak(e, Apply(e, w, acts[0]), acts[1..]);
    }
  }

  /** What the absence of leaks needs under every setting. Patience is the age the code waits for before it
      creates again, but not before it lets go. */
  predicate Patient(e: Env) {
    e.laterSecond && e.exactErrors && CreationCovered(e) && Outlasts(e, e.patience)
  }

  /** Main result. Nothing leaks only where markers and errors can be trusted, the creation period outlasts the
      API's lag, a marker is not cleared before its create has shown, and a deleted object is let go only once
      an unresolved marker is as old as all that. */
  lemma LeakFreeNeedsPatience(e: Env)
    ensures LeakFree(e) ==> e.createBound == 0 || (Patient(e) && RecoveryShows(e))
  {
    if e.createBound > 0 {
      if !e.exactErrors {
        LandedErrorLeaks(e);
      } else if !e.laterSecond {
        SameSecondLeaks(e);
      } else if !CreationCovered(e) {
        CreationTooShortLeaks(e);
      } else if !Outlasts(e, e.patience) {
        TooYoungLeaks(e);
      } else if !RecoveryShows(e) {
        ClearedTooSoonLeaks(e);
      }
    }
  }

  /** Main result. With a recovery period that rules out duplicates this is exact. */
  lemma LeakFreeExactlyWhenPatient(e: Env)
    requires Outlasts(e, e.c.recoveryGrace)
    ensures LeakFree(e) <==> e.createBound == 0 || Patient(e)
  {
    LeakFreeNeedsPatience(e);
    if e.createBound == 0 {
      NoTimeNoLeak(e);
    } else if Patient(e) {
      forall w, acts | Initial(w) && ShouldDelete(w.obj) && Run(e, w, acts) && Respectful(e, w, acts)
        ensures NoneOpen(e, End(e, w, acts)) || Held(End(e, w, acts))
      {
        NothingLeaks(e, w, acts);
      }
    }
  }

  lemma NoTimeNoLeak(e: Env)
    requires e.createBound == 0
    ensures LeakFree(e)
  {
    forall w, acts | Initial(w) && ShouldDelete(w.obj) && Run(e, w, acts) && Respectful(e, w, acts)
      ensures NoneOpen(e, End(e, w, acts))
    {
      NothingToLeak(e, w, acts);
    }
  }

  /** The code itself, which looks at no age there, leaks under every API and every setting. */
  lemma AsWrittenLeaks(e: Env)
    requires e.createBound > 0 && e.patience <= 0
    ensures !LeakFree(e)
  {
    TooYoungLeaks(e);
  }

  /** The check the branch skips would do: the recovery period, asked of deleted objects as well. */
  lemma TheSkippedCheckWouldDo(e: Env)
    requires e.patience == e.c.recoveryGrace && Safe(e)
    ensures LeakFree(e)
  {
    SafeExactlyWhenCovered(e);
    if e.createBound == 0 {
      NoTimeNoLeak(e);
    } else {
      LeakFreeExactlyWhenPatient(e);
    }
  }
}
