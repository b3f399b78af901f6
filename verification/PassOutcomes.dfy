/** What a pass calls, what it stores and how it returns, decided by the answers it got. */
module PassOutcomes {
  import opened Clock
  import opened Meta
  import opened ReconcilePass
  import opened PassEffects

  // ---- what a run did ----

  /** What a run did: whether it called a create, an update or a delete, stamped a create's outcome on the
      annotations, and stored the object with its create given up, with the finalizer added, with a create
      marker, as Observe filled it in, and without its finalizer. */
  datatype Deeds = Deeds(
    creates: bool,
    updates: bool,
    deletes: bool,
    stamps: bool,
    givesUp: bool,
    adds: bool,
    marks: bool,
    saves: bool,
    takesOff: bool)

  const NOTHING := Deeds(false, false, false, false, false, false, false, false, false)

  function DeedOf(l: Local): Deeds
    requires !l.pc.Done?
  {
    match Next(l)
    case Call(site) => NOTHING.(creates := site == AtCreate, updates := site == AtUpdate, deletes := site == AtDelete)
    case StampAll(_) => NOTHING.(stamps := true)
    case Write(_) => NOTHING.(givesUp := l.pc.Clearing?, adds := l.pc.Finalizing?, marks := l.pc.Marking?,
                              saves := l.pc.LateInitializing?, takesOff := l.pc.Unfinalizing?)
    case _ => NOTHING
  }

  /** What a pass stamps, and that it stamps the second in which it acts: a granted create as pending, an answered one
      as succeeded or failed, and an unresolved one whose resource is there as succeeded. */
  lemma StampsAreNamed(c: Config, l: Local, a: Answer, now: Time)
    requires !l.pc.Done? && Fits(Next(l), a) && !a.Panic?
    ensures var l' := Resume(c, l, a, now);
            && (l.pc == Gating(AtCreate) && a.Granted? ==>
                  l'.pc.Marking? && Next(l') == Write(Stamping(l.mg, CreatePending, now)))
            && (l.pc.Creating? ==>
                  && !l'.pc.Done?
                  && Next(l') == StampAll(Stamping(l.mg, if a.Ok? then CreateSucceeded else CreateFailed, now).annotations))
            && (l.pc.Observing? && a.Observed? && l.unresolved && a.present ==>
                  && !l'.pc.Done?
                  && Next(l') == StampAll(Stamping(l.mg, CreateSucceeded, now).annotations))
  {
  }

  function Stamping(o: Object, k: Key, now: Time): Object {
    o.(annotations := o.annotations[k := Stamp(now / 1_000_000_000)])
  }

  function Both(a: Deeds, b: Deeds): Deeds {
    Deeds(a.creates || b.creates, a.updates || b.updates, a.deletes || b.deletes, a.stamps || b.stamps,
          a.givesUp || b.givesUp, a.adds || b.adds, a.marks || b.marks, a.saves || b.saves, a.takesOff || b.takesOff)
  }

  /** Each kind of write stores just the change it is named after. */
  lemma WritesAreNamed(l: Local)
    requires !l.pc.Done? && Next(l).Write?
    ensures var o := Next(l).o;
            && (l.pc.Clearing? ==> o.annotations == l.mg.annotations - {CreatePending} && o.finalizers == l.mg.finalizers)
            && (l.pc.Finalizing? && !HasFinalizer(l.mg) ==>
                  o.annotations == l.mg.annotations && o.finalizers == l.mg.finalizers + [FINALIZER])
            && (l.pc.Marking? ==>
                  o.annotations == l.mg.annotations[CreatePending := Stamp(l.pc.stamp)] && o.finalizers == l.mg.finalizers)
            && (l.pc.Unfinalizing? ==>
                  o.annotations == l.mg.annotations && o.finalizers == Swept(l.mg.finalizers, FINALIZER))
            && (l.pc.LateInitializing? ==> o == l.mg)
            && o.version == l.mg.version && o.deleted == l.mg.deleted
  {
  }

  function Did(c: Config, l: Local, turns: seq<Turn>): Deeds
    requires PassRun(c, l, turns)
    decreases |turns|
  {
    if turns == [] then NOTHING
    else Both(DeedOf(l), Did(c, Resume(c, l, turns[0].a, turns[0].now), turns[1..]))
  }

  /** Neither an error nor a deferral nor a panic. */
  predicate Good(a: Answer) {
    a.Got? || a.Wrote? || a.Merged? || a.Granted? || a.Observed? || a.Ok?
  }

  predicate AllGood(turns: seq<Turn>) {
    turns == [] || (Good(turns[0].a) && AllGood(turns[1..]))
  }

  /** A run that returned, with nothing but good answers. */
  predicate Smooth(c: Config, l: Local, turns: seq<Turn>) {
    && PassRun(c, l, turns)
    && PassEnd(c, l, turns).pc.Done?
    && AllGood(turns)
  }

  predicate Ends(c: Config, l: Local, turns: seq<Turn>, d: Deeds, out: Outcome)
    requires PassRun(c, l, turns)
  {
    Did(c, l, turns) == d && PassEnd(c, l, turns).pc == Done(out)
  }

  // ---- the rest of a smooth run, from the end backwards ----

  /** A smooth run goes on smoothly. */
  lemma Onwards(c: Config, l: Local, turns: seq<Turn>) returns (l': Local)
    requires Smooth(c, l, turns) && !l.pc.Done?
    ensures turns != [] && Good(turns[0].a) && Fits(Next(l), turns[0].a)
    ensures l' == Resume(c, l, turns[0].a, turns[0].now) && Smooth(c, l', turns[1..])
    ensures Did(c, l, turns) == Both(DeedOf(l), Did(c, l', turns[1..]))
    ensures PassEnd(c, l, turns) == PassEnd(c, l', turns[1..])
  {
    l' := Resume(c, l, turns[0].a, turns[0].now);
  }

  lemma Over(c: Config, l: Local, turns: seq<Turn>)
    requires Smooth(c, l, turns) && l.pc.Done?
    ensures Ends(c, l, turns, NOTHING, l.pc.out)
  {
    assert turns == [];
  }

  lemma AfterReport(c: Config, l: Local, turns: seq<Turn>)
    requires Smooth(c, l, turns) && l.pc.Reporting?
    ensures Ends(c, l, turns, NOTHING, l.pc.out)
  {
    var l' := Onwards(c, l, turns);
    Over(c, l', turns[1..]);
  }

  lemma AfterUpdating(c: Config, l: Local, turns: seq<Turn>)
    requires Smooth(c, l, turns) && l.pc.Updating?
    ensures Ends(c, l, turns, NOTHING.(updates := true), After(c.poll))
  {
    var l' := Onwards(c, l, turns);
    AfterReport(c, l', turns[1..]);
  }

  lemma AfterUpdateGate(c: Config, l: Local, turns: seq<Turn>)
    requires Smooth(c, l, turns) && l.pc == Gating(AtUpdate)
    ensures Ends(c, l, turns, NOTHING.(updates := true), After(c.poll))
  {
    var l' := Onwards(c, l, turns);
    AfterUpdating(c, l', turns[1..]);
  }

  lemma AfterDeleting(c: Config, l: Local, turns: seq<Turn>)
    requires Smooth(c, l, turns) && l.pc.Deleting?
    ensures Ends(c, l, turns, NOTHING.(deletes := true), Requeue)
  {
    var l' := Onwards(c, l, turns);
    AfterReport(c, l', turns[1..]);
  }

  lemma AfterDeleteGate(c: Config, l: Local, turns: seq<Turn>)
    requires Smooth(c, l, turns) && l.pc == Gating(AtDelete)
    ensures Ends(c, l, turns, NOTHING.(deletes := true), Requeue)
  {
    var l' := Onwards(c, l, turns);
    AfterDeleting(c, l', turns[1..]);
  }

  lemma AfterSuccess(c: Config, l: Local, turns: seq<Turn>)
    requires Smooth(c, l, turns) && l.pc.StampingSuccess?
    ensures Ends(c, l, turns, NOTHING.(stamps := true), Requeue)
  {
    var l' := Onwards(c, l, turns);
    AfterReport(c, l', turns[1..]);
  }

  lemma AfterCreate(c: Config, l: Local, turns: seq<Turn>)
    requires Smooth(c, l, turns) && l.pc.Creating?
    ensures Ends(c, l, turns, NOTHING.(creates := true, stamps := true), Requeue)
  {
    var l' := Onwards(c, l, turns);
    AfterSuccess(c, l', turns[1..]);
  }

  lemma AfterMarking(c: Config, l: Local, turns: seq<Turn>)
    requires Smooth(c, l, turns) && l.pc.Marking?
    ensures Ends(c, l, turns, NOTHING.(creates := true, marks := true, stamps := true), Requeue)
  {
    var l' := Onwards(c, l, turns);
    AfterCreate(c, l', turns[1..]);
  }

  lemma AfterCreateGate(c: Config, l: Local, turns: seq<Turn>)
    requires Smooth(c, l, turns) && l.pc == Gating(AtCreate)
    ensures Ends(c, l, turns, NOTHING.(creates := true, marks := true, stamps := true), Requeue)
  {
    var l' := Onwards(c, l, turns);
    AfterMarking(c, l', turns[1..]);
  }

  /** Whether a resource that was seen like this is updated. */
  predicate Drifted(o: Object, see: Answer)
    requires see.Observed?
  {
    !see.upToDate && ShouldUpdate(o)
  }

  /** The pass holds o and remembers what Observe answered. */
  predicate Holds(l: Local, o: Object, see: Answer) {
    l.mg == o && see == Observed(l.present, l.upToDate, l.lateInitialized)
  }

  lemma AfterLateInit(c: Config, l: Local, turns: seq<Turn>, l0: Local, see: Answer)
    requires Smooth(c, l, turns) && l == OnLateInitialized(c, l0) && Holds(l0, l0.mg, see)
    ensures Ends(c, l, turns, NOTHING.(updates := Drifted(l0.mg, see)), After(c.poll))
  {
    if Drifted(l0.mg, see) {
      AfterUpdateGate(c, l, turns);
    } else {
      AfterReport(c, l, turns);
    }
  }

  lemma AfterSaving(c: Config, l: Local, turns: seq<Turn>, see: Answer)
    requires Smooth(c, l, turns) && l.pc.LateInitializing? && Holds(l, l.mg, see)
    ensures Ends(c, l, turns, NOTHING.(saves := true, updates := Drifted(l.mg, see)), After(c.poll))
  {
    var l' := Onwards(c, l, turns);
    AfterLateInit(c, l', turns[1..], l.(mg := l.mg.(version := turns[0].a.version)), see);
  }

  /** What a live object with its finalizer on gets. */
  function LiveDeeds(o: Object, see: Answer): Deeds
    requires see.Observed?
  {
    var create := !see.present && ShouldCreate(o);
    NOTHING.(creates := create, marks := create, stamps := create, updates := !create && Drifted(o, see),
             saves := !create && see.lateInitialized)
  }

  function LiveOut(c: Config, o: Object, see: Answer): Outcome
    requires see.Observed?
  {
    if !see.present && ShouldCreate(o) then Requeue else After(c.poll)
  }

  lemma AfterFinalizer(c: Config, l: Local, turns: seq<Turn>, l0: Local, see: Answer)
    requires Smooth(c, l, turns) && l == OnFinalizer(c, l0) && Holds(l0, l0.mg, see)
    ensures Ends(c, l, turns, LiveDeeds(l0.mg, see), LiveOut(c, l0.mg, see))
  {
    if !see.present && ShouldCreate(l0.mg) {
      AfterCreateGate(c, l, turns);
    } else if see.lateInitialized {
      AfterSaving(c, l, turns, see);
    } else {
      AfterLateInit(c, l, turns, l0, see);
    }
  }

  lemma AfterAddingFinalizer(c: Config, l: Local, turns: seq<Turn>, see: Answer)
    requires Smooth(c, l, turns) && l.pc.Finalizing? && Holds(l, l.mg, see)
    ensures Ends(c, l, turns, LiveDeeds(l.mg, see).(adds := true), LiveOut(c, l.mg, see))
  {
    var l1 := Onwards(c, l, turns);
    var o := WithFinalizer(l.mg).(version := turns[0].a.version);
    AfterFinalizer(c, l1, turns[1..], l.(mg := o), see);
  }

  /** Whether letting o go stores it without its finalizer. */
  predicate TakesOff(o: Object) {
    HasFinalizer(o) && !RemovalPanics(o)
  }

  function LetGoOut(o: Object): Outcome {
    if RemovalPanics(o) then Panicked else LetGo
  }

  lemma AfterLettingGo(c: Config, l: Local, turns: seq<Turn>, l0: Local)
    requires Smooth(c, l, turns) && l == RemoveFinalizer(l0)
    ensures Ends(c, l, turns, NOTHING.(takesOff := TakesOff(l0.mg)), LetGoOut(l0.mg))
  {
    if TakesOff(l0.mg) {
      var l1 := Onwards(c, l, turns);
      Over(c, l1, turns[1..]);
    } else {
      PanicsWithFinalizer(l0.mg);
      Over(c, l, turns);
    }
  }

  lemma PanicsWithFinalizer(o: Object)
    ensures RemovalPanics(o) ==> HasFinalizer(o)
  {
  }

  // ---- once no create handshake is in the way ----

  /** An absent answer the pass does not act on at t: its policy only observes, or a create succeeded lately. */
  predicate Unconfirmed(c: Config, o: Object, see: Answer, t: Time)
    requires see.Observed?
  {
    !see.present && (ShouldOnlyObserve(o) || SucceededDuring(o, t, c.creationGrace))
  }

  predicate WantsCreate(c: Config, o: Object, see: Answer, t: Time)
    requires see.Observed?
  {
    !see.present && !o.deleted && ShouldCreate(o) && !SucceededDuring(o, t, c.creationGrace)
  }

  predicate WantsUpdate(o: Object, see: Answer)
    requires see.Observed?
  {
    see.present && !see.upToDate && !o.deleted && ShouldUpdate(o)
  }

  predicate WantsDelete(o: Object, see: Answer)
    requires see.Observed?
  {
    see.present && o.deleted && ShouldDelete(o)
  }

  /** What a pass does that decides at t from o and from what Observe answered. */
  function DecidedDeeds(c: Config, o: Object, see: Answer, t: Time): Deeds
    requires see.Observed?
  {
    var create := WantsCreate(c, o, see, t);
    var acts := !Unconfirmed(c, o, see, t);
    NOTHING.(
    creates := create, marks := create, stamps := create,
    updates := WantsUpdate(o, see),
    deletes := WantsDelete(o, see),
    adds := acts && !o.deleted && !HasFinalizer(o),
    saves := acts && !o.deleted && !create && see.lateInitialized,
    takesOff := acts && o.deleted && !WantsDelete(o, see) && TakesOff(o))
  }

  function DecidedOut(c: Config, o: Object, see: Answer, t: Time): Outcome
    requires see.Observed?
  {
    if !see.present && ShouldOnlyObserve(o) then Errored
    else if Unconfirmed(c, o, see, t) || WantsCreate(c, o, see, t) || WantsDelete(o, see) then Requeue
    else if o.deleted then LetGoOut(o)
    else After(c.poll)
  }

  /** A policy that forbids creating forbids updating, and one that only observes forbids both. */
  lemma PoliciesNest(o: Object)
    ensures ShouldUpdate(o) <==> ShouldCreate(o)
    ensures ShouldOnlyObserve(o) ==> !ShouldCreate(o) && !ShouldDelete(o)
  {
    assert "observe"[|"observe"| - 1] == 'e';
    assert |"observe"| != |"default"| || "observe"[0] != "default"[0];
    assert |"observe"| != |"observe-create-update"| && |"observe"| != |"observe-delete"|;
  }

  lemma AfterHandshake(c: Config, l: Local, turns: seq<Turn>, l0: Local, see: Answer, t: Time)
    requires Smooth(c, l, turns) && l == OnHandshake(c, l0, t) && Holds(l0, l0.mg, see)
    ensures Ends(c, l, turns, DecidedDeeds(c, l0.mg, see, t), DecidedOut(c, l0.mg, see, t))
  {
    var o := l0.mg;
    PoliciesNest(o);
    if Unconfirmed(c, o, see, t) {
      if ShouldOnlyObserve(o) {
        AfterReport(c, l, turns);
      } else {
        Over(c, l, turns);
      }
    } else if WantsDelete(o, see) {
      AfterDeleteGate(c, l, turns);
    } else if o.deleted {
      AfterLettingGo(c, l, turns, l0);
    } else if HasFinalizer(o) {
      AfterFinalizer(c, l, turns, l0, see);
    } else {
      AfterAddingFinalizer(c, l, turns, see);
    }
  }

  // ---- from the answer of Observe ----

  /** The answers a smooth pass got up to the end of its create handshake: the object read, Observe's answer and
      when it came, and the answer after that. */
  predicate LooksAt(turns: seq<Turn>, o: Object, see: Answer, t: Time) {
    |turns| > 4 && turns[0].a == Got(o) && turns[4].a == see && turns[4].now == t && see.Observed?
  }

  /** The pass waits, because an unresolved create may still show. */
  predicate Waits(c: Config, o: Object, see: Answer, t: Time)
    requires see.Observed?
  {
    CreateIncomplete(o) && !see.present && !o.deleted && PendingDuring(o, t, c.recoveryGrace)
  }

  predicate Adopts(o: Object, see: Answer)
    requires see.Observed?
  {
    CreateIncomplete(o) && see.present
  }

  predicate GivesUp(c: Config, o: Object, see: Answer, t: Time)
    requires see.Observed?
  {
    CreateIncomplete(o) && !see.present && !o.deleted && !PendingDuring(o, t, c.recoveryGrace)
  }

  /** The object the pass decides from, its create handshake resolved, when the next turn answered so. */
  function Settled(c: Config, o: Object, see: Answer, t: Time, next: Answer): Object
    requires see.Observed?
  {
    if Adopts(o, see) && next.Merged? then next.o
    else if GivesUp(c, o, see, t) && next.Wrote? then WithoutPending(o).(version := next.version)
    else o
  }

  /** Giving up a create leaves what the pass decides from. */
  lemma GivingUpDecidesAlike(c: Config, o: Object, v: nat, see: Answer, t: Time)
    requires see.Observed?
    ensures var p := WithoutPending(o).(version := v);
            && DecidedDeeds(c, p, see, t) == DecidedDeeds(c, o, see, t)
            && DecidedOut(c, p, see, t) == DecidedOut(c, o, see, t)
  {
  }

  lemma AfterAdopting(c: Config, l: Local, turns: seq<Turn>, see: Answer)
    requires Smooth(c, l, turns) && l.pc.Adopting? && Holds(l, l.mg, see)
    ensures turns != [] && turns[0].a.Merged?
    ensures var o, t := turns[0].a.o, turns[0].now;
            Ends(c, l, turns, DecidedDeeds(c, o, see, t).(stamps := true), DecidedOut(c, o, see, t))
  {
    var l' := Onwards(c, l, turns);
    AfterHandshake(c, l', turns[1..], l.(mg := turns[0].a.o), see, turns[0].now);
  }

  lemma AfterGivingUp(c: Config, l: Local, turns: seq<Turn>, see: Answer)
    requires Smooth(c, l, turns) && l.pc.Clearing? && Holds(l, l.mg, see)
    ensures turns != []
    ensures var t := turns[0].now;
            Ends(c, l, turns, DecidedDeeds(c, l.mg, see, t).(givesUp := true), DecidedOut(c, l.mg, see, t))
  {
    var l' := Onwards(c, l, turns);
    var v := turns[0].a.version;
    AfterHandshake(c, l', turns[1..], l.(mg := WithoutPending(l.mg).(version := v)), see, turns[0].now);
    GivingUpDecidesAlike(c, l.mg, v, see, turns[0].now);
  }

  /** What a smooth pass does and returns, from the object read, what Observe answered at t, and the turn after
      it. */
  predicate EndsAsDecided(c: Config, l: Local, turns: seq<Turn>, o: Object, see: Answer, t: Time, next: seq<Turn>)
    requires PassRun(c, l, turns) && see.Observed?
  {
    if Waits(c, o, see, t) then Ends(c, l, turns, NOTHING, After(c.reobserve))
    else if Adopts(o, see) then
      && next != [] && next[0].a.Merged?
      && var o', t' := next[0].a.o, next[0].now;
         Ends(c, l, turns, DecidedDeeds(c, o', see, t').(stamps := true), DecidedOut(c, o', see, t'))
    else if GivesUp(c, o, see, t) then
      && next != []
      && var t' := next[0].now;
         Ends(c, l, turns, DecidedDeeds(c, o, see, t').(givesUp := true), DecidedOut(c, o, see, t'))
    else Ends(c, l, turns, DecidedDeeds(c, o, see, t), DecidedOut(c, o, see, t))
  }

  /** Once Observe answered. */
  lemma AfterAnswer(c: Config, l: Local, turns: seq<Turn>, l0: Local, see: Answer, t: Time)
    requires see.Observed? && Holds(l0, l0.mg, see) && l0.unresolved == CreateIncomplete(l0.mg)
    requires Smooth(c, l, turns) && l == OnObserved(c, l0, t)
    ensures EndsAsDecided(c, l, turns, l0.mg, see, t, turns)
  {
    if Waits(c, l0.mg, see, t) {
      AfterReport(c, l, turns);
    } else if Adopts(l0.mg, see) {
      AfterAdopting(c, l, turns, see);
    } else if GivesUp(c, l0.mg, see, t) {
      AfterGivingUp(c, l, turns, see);
    } else {
      AfterHandshake(c, l, turns, l0, see, t);
    }
  }

  lemma NothingMore(d: Deeds)
    ensures Both(NOTHING, d) == d
  {
  }

  /** An effect that is no deed of its own changes nothing about how the pass ends. */
  lemma Quietly(c: Config, l: Local, turns: seq<Turn>, l': Local, d: Deeds, out: Outcome)
    requires PassRun(c, l, turns) && turns != [] && !l.pc.Done? && l' == Resume(c, l, turns[0].a, turns[0].now)
    requires DeedOf(l) == NOTHING && Ends(c, l', turns[1..], d, out)
    ensures Ends(c, l, turns, d, out)
  {
    NothingMore(d);
  }

  lemma QuietlyDecided(c: Config, l: Local, turns: seq<Turn>, l': Local, o: Object, see: Answer, t: Time, next: seq<Turn>)
    requires PassRun(c, l, turns) && turns != [] && !l.pc.Done? && l' == Resume(c, l, turns[0].a, turns[0].now)
    requires DeedOf(l) == NOTHING && see.Observed? && EndsAsDecided(c, l', turns[1..], o, see, t, next)
    ensures EndsAsDecided(c, l, turns, o, see, t, next)
  {
    forall d, out | Ends(c, l', turns[1..], d, out) ensures Ends(c, l, turns, d, out) {
      Quietly(c, l, turns, l', d, out);
    }
  }

  lemma AfterLook(c: Config, l: Local, turns: seq<Turn>)
    requires Smooth(c, l, turns) && l.pc.Observing? && l.unresolved == CreateIncomplete(l.mg)
    ensures turns != [] && turns[0].a.Observed?
    ensures EndsAsDecided(c, l, turns, l.mg, turns[0].a, turns[0].now, turns[1..])
  {
    var l' := Onwards(c, l, turns);
    var see := turns[0].a;
    var l0 := l.(present := see.present, upToDate := see.upToDate, lateInitialized := see.lateInitialized);
    AfterAnswer(c, l', turns[1..], l0, see, turns[0].now);
    QuietlyDecided(c, l, turns, l', l.mg, see, turns[0].now, turns[1..]);
  }

  /** The way to the look: two gates and the connection. */
  lemma AfterSteps(c: Config, l: Local, turns: seq<Turn>, steps: nat)
    requires Smooth(c, l, turns) && l.unresolved == CreateIncomplete(l.mg)
    requires match l.pc
             case Gating(site) => (site == AtConnect && steps == 3) || (site == AtObserve && steps == 1)
             case Connecting => steps == 2
             case Observing => steps == 0
             case _ => false
    ensures |turns| > steps && turns[steps].a.Observed?
    ensures EndsAsDecided(c, l, turns, l.mg, turns[steps].a, turns[steps].now, turns[steps + 1..])
    decreases steps
  {
    if steps == 0 {
      AfterLook(c, l, turns);
    } else {
      var l' := Onwards(c, l, turns);
      AfterSteps(c, l', turns[1..], steps - 1);
      assert turns[1..][steps - 1] == turns[steps] && turns[1..][steps..] == turns[steps + 1..];
      QuietlyDecided(c, l, turns, l', l.mg, turns[steps].a, turns[steps].now, turns[steps + 1..]);
    }
  }

  /** Main result. What a pass that meets no error, deferral, conflict or panic calls, stores and returns: decided by
      the object read, what Observe answered and when, and the answer that settled an unresolved create. */
  lemma SmoothPassDoesAsDecided(c: Config, turns: seq<Turn>)
    requires Smooth(c, START, turns)
    ensures turns != [] && turns[0].a.Got?
    ensures var o := turns[0].a.o;
            if IsPaused(o) then Ends(c, START, turns, NOTHING, OnHold)
            else if o.deleted && !ShouldDelete(o) then
              Ends(c, START, turns, NOTHING.(takesOff := TakesOff(o)), LetGoOut(o))
            else
              && |turns| > 4 && turns[4].a.Observed?
              && EndsAsDecided(c, START, turns, o, turns[4].a, turns[4].now, turns[5..])
  {
    var l' := Onwards(c, START, turns);
    var o, rest := turns[0].a.o, turns[1..];
    if IsPaused(o) {
      AfterReport(c, l', rest);
      Quietly(c, START, turns, l', NOTHING, OnHold);
    } else if o.deleted && !ShouldDelete(o) {
      AfterLettingGo(c, l', rest, START.(mg := o));
      Quietly(c, START, turns, l', NOTHING.(takesOff := TakesOff(o)), LetGoOut(o));
    } else {
      AfterSteps(c, l', rest, 3);
      assert rest[3] == turns[4] && rest[4..] == turns[5..];
      QuietlyDecided(c, START, turns, l', o, turns[4].a, turns[4].now, turns[5..]);
    }
  }

  /** The deeds are the calls made. */
  lemma {:induction false} DeedsAreCalls(c: Config, l: Local, turns: seq<Turn>)
    requires PassRun(c, l, turns)
    ensures Did(c, l, turns).creates <==> Call(AtCreate) in Performed(c, l, turns)
    ensures Did(c, l, turns).updates <==> Call(AtUpdate) in Performed(c, l, turns)
    ensures Did(c, l, turns).deletes <==> Call(AtDelete) in Performed(c, l, turns)
    decreases |turns|
  {
    if turns != [] {
      DeedsAreCalls(c, Resume(c, l, turns[0].a, turns[0].now), turns[1..]);
    }
  }

  /** Main result. In a smooth pass that looks: Create is called exactly when Observe said absent for a live object
      under a creating policy, past both grace checks; Update exactly when present and not up to date, for a live
      object under an updating policy; Delete exactly when present, for a deleted one under a deleting policy. An
      adopted create is decided from the object its stamp was merged into. */
  lemma CallsExactly(c: Config, turns: seq<Turn>, o: Object)
    requires Smooth(c, START, turns) && turns != [] && turns[0].a == Got(o)
    requires !IsPaused(o) && (o.deleted ==> ShouldDelete(o))
    ensures |turns| > 4 && turns[4].a.Observed?
    ensures Adopts(o, turns[4].a) ==> |turns| > 5 && turns[5].a.Merged?
    ensures GivesUp(c, o, turns[4].a, turns[4].now) ==> |turns| > 5
    ensures var see, t := turns[4].a, turns[4].now;
            var settled := if Adopts(o, see) then turns[5].a.o else o;
            var later := if GivesUp(c, o, see, t) then turns[5].now else t;
            var xs := Performed(c, START, turns);
            && (Call(AtCreate) in xs <==>
                  && !see.present && !o.deleted && ShouldCreate(o)
                  && !(CreateIncomplete(o) && PendingDuring(o, t, c.recoveryGrace))
                  && !SucceededDuring(o, later, c.creationGrace))
            && (Call(AtUpdate) in xs <==> see.present && !see.upToDate && !settled.deleted && ShouldUpdate(settled))
            && (Call(AtDelete) in xs <==> see.present && settled.deleted && ShouldDelete(settled))
  {
    SmoothPassDoesAsDecided(c, turns);
    DeedsAreCalls(c, START, turns);
    assert |turns| > 5 ==> turns[5..][0] == turns[5];
  }

  // ---- a bad answer ----

  /** How a pass returns once x was answered a, its first bad answer; deferred says whether the write of a
      deferral went through. */
  function BadOut(l: Local, a: Answer, deferred: bool): Outcome
    requires !l.pc.Done?
  {
    match Next(l)
    case Get => if a.NotFound? then Missing else Errored
    case Gate(_) => if a.Deferred? && deferred then After(a.after) else Errored
    case Call(site) =>
      if a.Panic? then Panicked
      else if a.Conflict? && site != AtUpdate && site != AtDelete then Requeue
      else Errored
    case Write(_) =>
      if a.Conflict? then Requeue
      else if a.NotFound? && l.pc.Unfinalizing? then LetGo
      else Errored
    case _ => Errored
  }

  /** Program counters a pass reaches only through a bad answer. */
  predicate Spoiled(pc: Pc) {
    pc.Deferring? || pc.StampingFailure?
  }

  lemma AfterError(c: Config, l: Local, turns: seq<Turn>)
    requires PassRun(c, l, turns) && PassEnd(c, l, turns).pc.Done? && l.pc == Reporting(Errored)
    ensures Ends(c, l, turns, NOTHING, Errored)
  {
    NowOver(c, Resume(c, l, turns[0].a, turns[0].now), turns[1..]);
  }

  lemma NowOver(c: Config, l: Local, turns: seq<Turn>)
    requires PassRun(c, l, turns) && l.pc.Done?
    ensures turns == [] && Ends(c, l, turns, NOTHING, l.pc.out)
  {
  }

  lemma AfterDeferral(c: Config, l: Local, turns: seq<Turn>)
    requires PassRun(c, l, turns) && PassEnd(c, l, turns).pc.Done? && l.pc.Deferring?
    ensures turns != []
    ensures Ends(c, l, turns, NOTHING, if turns[|turns| - 1].a.Ok? then After(l.pc.after) else Errored)
  {
    NowOver(c, Resume(c, l, turns[0].a, turns[0].now), turns[1..]);
  }

  lemma AfterFailure(c: Config, l: Local, turns: seq<Turn>)
    requires PassRun(c, l, turns) && PassEnd(c, l, turns).pc.Done? && l.pc.StampingFailure?
    ensures Ends(c, l, turns, NOTHING.(stamps := true), if l.pc.conflict then Requeue else Errored)
  {
    var l' := Resume(c, l, turns[0].a, turns[0].now);
    if l.pc.conflict {
      NowOver(c, l', turns[1..]);
    } else {
      AfterError(c, l', turns[1..]);
    }
  }

  /** Where a bad answer leads, and how the pass ends from there. */
  predicate SpoiledTo(l: Local, a: Answer, l': Local)
    requires !l.pc.Done?
  {
    match l'.pc
    case Done(out) => out == BadOut(l, a, false) && !(l.pc.Creating? && !a.Panic?) && !l.pc.Gating?
    case Reporting(out) => out == Errored == BadOut(l, a, false) && !l.pc.Creating? && !l.pc.Gating?
    case Deferring(d) => l.pc.Gating? && a == Deferred(d)
    case StampingFailure(_, conflict) => l.pc.Creating? && !a.Panic? && conflict == a.Conflict?
    case _ => false
  }

  lemma WriteSpoils(c: Config, l: Local, a: Answer, now: Time)
    requires !l.pc.Done? && Next(l).Write? && Fits(Next(l), a) && !Good(a)
    ensures SpoiledTo(l, a, Resume(c, l, a, now))
  {
    var pc := Resume(c, l, a, now).pc;
    assert pc == if a.Conflict? then Done(Requeue)
                 else if l.pc.Clearing? then Done(Errored)
                 else if l.pc.Unfinalizing? && a.NotFound? then Done(LetGo)
                 else Reporting(Errored);
  }

  lemma CallSpoils(c: Config, l: Local, a: Answer, now: Time)
    requires !l.pc.Done? && Next(l).Call? && Fits(Next(l), a) && !Good(a)
    ensures SpoiledTo(l, a, Resume(c, l, a, now))
  {
  }

  lemma OtherSpoils(c: Config, l: Local, a: Answer, now: Time)
    requires !l.pc.Done? && !Spoiled(l.pc) && !Next(l).Call? && !Next(l).Write? && Fits(Next(l), a) && !Good(a)
    ensures SpoiledTo(l, a, Resume(c, l, a, now))
  {
  }

  /** A bad answer ends the pass: only a failed create is still stamped. */
  lemma BadAnswerEnds(c: Config, l: Local, turns: seq<Turn>)
    requires PassRun(c, l, turns) && PassEnd(c, l, turns).pc.Done? && turns != [] && !l.pc.Done? && !Spoiled(l.pc)
    requires !Good(turns[0].a)
    ensures var failed := l.pc.Creating? && !turns[0].a.Panic?;
            Ends(c, l, turns, Both(DeedOf(l), NOTHING.(stamps := failed)),
                 BadOut(l, turns[0].a, turns[|turns| - 1].a.Ok?))
  {
    var a, rest := turns[0].a, turns[1..];
    var l' := Resume(c, l, a, turns[0].now);
    match Next(l) {
      case Write(_) => WriteSpoils(c, l, a, turns[0].now);
      case Call(_) => CallSpoils(c, l, a, turns[0].now);
      case _ => OtherSpoils(c, l, a, turns[0].now);
    }
    assert SpoiledTo(l, a, l');
    match l'.pc
    case Done(_) => NowOver(c, l', rest);
    case Reporting(_) => AfterError(c, l', rest);
    case Deferring(_) => AfterDeferral(c, l', rest);
    case _ => AfterFailure(c, l', rest);
  }

  // ---- the first bad answer of a run ----

  /** Splitting a run in two. */
  lemma {:induction false} SplitRun(c: Config, l: Local, turns: seq<Turn>, i: nat)
    requires PassRun(c, l, turns) && i <= |turns|
    ensures PassRun(c, l, turns[..i]) && PassRun(c, PassEnd(c, l, turns[..i]), turns[i..])
    ensures PassEnd(c, l, turns) == PassEnd(c, PassEnd(c, l, turns[..i]), turns[i..])
    ensures Did(c, l, turns) == Both(Did(c, l, turns[..i]), Did(c, PassEnd(c, l, turns[..i]), turns[i..]))
    decreases i
  {
    if i == 0 {
      assert turns[..0] == [] && turns[0..] == turns;
      NothingMore(Did(c, l, turns));
    } else {
      var l' := Resume(c, l, turns[0].a, turns[0].now);
      SplitRun(c, l', turns[1..], i - 1);
      SplitSeq(turns, i);
      var front := turns[..i];
      assert PassRun(c, l, front);
      BothInTurn(DeedOf(l), Did(c, l', front[1..]), Did(c, PassEnd(c, l, front), turns[i..]));
    }
  }

  lemma SplitSeq<T>(s: seq<T>, i: nat)
    requires 0 < i <= |s|
    ensures s[..i] != [] && s[..i][0] == s[0] && s[..i][1..] == s[1..][..i - 1] && s[i..] == s[1..][i - 1..]
  {
  }

  lemma BothInTurn(a: Deeds, b: Deeds, d: Deeds)
    ensures Both(a, Both(b, d)) == Both(Both(a, b), d)
  {
  }

  lemma HandshakeUnspoiled(c: Config, l: Local, now: Time)
    ensures !Spoiled(OnHandshake(c, l, now).pc)
  {
  }

  lemma FinalizerUnspoiled(c: Config, l: Local)
    ensures !Spoiled(OnFinalizer(c, l).pc) && !Spoiled(OnLateInitialized(c, l).pc)
  {
  }

  lemma ObservedUnspoiled(c: Config, l: Local, a: Answer, now: Time)
    requires (l.pc.Observing? || l.pc.Adopting? || l.pc.Clearing?) && Fits(Next(l), a) && Good(a)
    ensures !Spoiled(Resume(c, l, a, now).pc)
  {
    match a
    case Observed(p, u, i) => HandshakeUnspoiled(c, l.(present := p, upToDate := u, lateInitialized := i), now);
    case Merged(o) => HandshakeUnspoiled(c, l.(mg := o), now);
    case Wrote(v) => HandshakeUnspoiled(c, l.(mg := WithoutPending(l.mg).(version := v)), now);
    case _ =>
  }

  lemma StoredUnspoiled(c: Config, l: Local, a: Answer, now: Time)
    requires (l.pc.Finalizing? || l.pc.LateInitializing?) && Fits(Next(l), a) && Good(a)
    ensures !Spoiled(Resume(c, l, a, now).pc)
  {
    FinalizerUnspoiled(c, l.(mg := WithFinalizer(l.mg).(version := a.version)));
    FinalizerUnspoiled(c, l.(mg := l.mg.(version := a.version)));
  }

  lemma GoodStaysUnspoiled(c: Config, l: Local, a: Answer, now: Time)
    requires !l.pc.Done? && !Spoiled(l.pc) && Fits(Next(l), a) && Good(a)
    ensures !Spoiled(Resume(c, l, a, now).pc)
  {
    match l.pc
    case Observing => ObservedUnspoiled(c, l, a, now);
    case Adopting(_) => ObservedUnspoiled(c, l, a, now);
    case Clearing => ObservedUnspoiled(c, l, a, now);
    case Finalizing => StoredUnspoiled(c, l, a, now);
    case LateInitializing => StoredUnspoiled(c, l, a, now);
    case Gating(site) => assert a.Granted? && Resume(c, l, a, now) == OnGranted(l, site, now);
    case _ =>
  }

  lemma {:induction false} UnspoiledUpTo(c: Config, l: Local, turns: seq<Turn>)
    requires PassRun(c, l, turns) && AllGood(turns) && !Spoiled(l.pc)
    ensures !Spoiled(PassEnd(c, l, turns).pc)
    decreases |turns|
  {
    if turns != [] {
      GoodStaysUnspoiled(c, l, turns[0].a, turns[0].now);
      UnspoiledUpTo(c, Resume(c, l, turns[0].a, turns[0].now), turns[1..]);
    }
  }

  lemma GoesOn(c: Config, l: Local, turns: seq<Turn>)
    requires PassRun(c, l, turns) && turns != []
    ensures !l.pc.Done? && Fits(Next(l), turns[0].a)
  {
  }

  /** Main result. The first bad answer of a pass decides how it returns, and after it nothing is done any more but
      the stamp of a failed create: the pass did what it did before, the deed answered badly, and that stamp. */
  lemma FirstBadAnswerDecides(c: Config, turns: seq<Turn>, i: nat)
    requires PassRun(c, START, turns) && PassEnd(c, START, turns).pc.Done?
    requires i < |turns| && AllGood(turns[..i]) && !Good(turns[i].a)
    ensures PassRun(c, START, turns[..i]) && !PassEnd(c, START, turns[..i]).pc.Done?
    ensures var l := PassEnd(c, START, turns[..i]);
            var failed := l.pc.Creating? && !turns[i].a.Panic?;
            Ends(c, START, turns, Both(Did(c, START, turns[..i]), Both(DeedOf(l), NOTHING.(stamps := failed))),
                 BadOut(l, turns[i].a, turns[|turns| - 1].a.Ok?))
  {
    SplitRun(c, START, turns, i);
    var l := PassEnd(c, START, turns[..i]);
    UnspoiledUpTo(c, START, turns[..i]);
    assert turns[i..][0] == turns[i] && turns[i..][|turns| - i - 1] == turns[|turns| - 1];
    GoesOn(c, l, turns[i..]);
    BadAnswerEnds(c, l, turns[i..]);
  }
}
