/** No resource is left behind: while a create may still produce a resource, or its resource exists,
    an object under an unchanged deleting policy stays in the store with its finalizer. */
module NoLeak {
  import opened Clock
  import opened Meta
  import opened ReconcilePass
  import opened Handshake
  import opened HandshakeSafety

  /** The object is still there, and cannot go away unseen. */
  predicate Held(w: World) {
    !w.gone && HasFinalizer(w.obj)
  }

  predicate HeldInv(e: Env, w: World) {
    && ShouldDelete(w.obj)
    && (NoneOpen(e, w) || Held(w))
  }

  /** Program counters whose copy, with its policies, may still be written or merged. */
  predicate HasCopy(r: Running) {
    || UsesCopy(r.l.pc)
    || (r.l.pc.Fetching? && r.phase.Replied? && r.phase.a.Got?)
    || r.l.pc.Creating? || r.l.pc.StampingFailure? || r.l.pc.StampingSuccess?
  }

  predicate HoldingPass(e: Env, w: World, r: Running) {
    && (HasCopy(r) ==> SamePolicy(Copy(r).annotations, w.obj.annotations) && ShouldDelete(Copy(r)))
    && match r.l.pc
       case Clearing => !r.l.mg.deleted
       case Unfinalizing => Current(w, Copy(r)) ==> NoneOpen(e, w)
       case Gating(site) => site == AtCreate ==> HasFinalizer(r.l.mg)
       case Marking(_) => HasFinalizer(r.l.mg) && (r.phase.Replied? && r.phase.a.Wrote? ==> Held(w))
       case Creating => Held(w)
       case _ => true
  }

  predicate NoLeakInv(e: Env, w: World) {
    && Inv(e, w)
    && HeldInv(e, w)
    && (w.pass.Some? ==> HoldingPass(e, w, w.pass.value))
  }

  lemma PolicyDecides(o: Object, p: Object)
    requires SamePolicy(o.annotations, p.annotations)
    ensures ShouldDelete(o) == ShouldDelete(p)
  {
  }

  lemma MergeKeepsPolicy(a: Annotations, m: Annotations)
    requires SamePolicy(a, m)
    ensures SamePolicy(a + m, a)
  {
  }

  lemma ForeignWriteHolds(e: Env, w: World, o: Object)
    requires NoLeakInv(e, w) && Allowed(e, w, ForeignWrite(o)) && Respects(w, ForeignWrite(o))
    ensures HeldInv(e, Apply(e, w, ForeignWrite(o)))
    ensures w.pass.Some? ==> HoldingPass(e, Apply(e, w, ForeignWrite(o)), w.pass.value)
  {
    PolicyDecides(o, w.obj);
    var w' := Apply(e, w, ForeignWrite(o));
    assert NoneOpen(e, w) ==> NoneOpen(e, w');
  }

  /** Time, the external API and crashes only close attempts or leave them as they are. */
  lemma EnvironmentHolds(e: Env, w: World, act: Action)
    requires NoLeakInv(e, w) && Allowed(e, w, act)
    requires act.Tick? || act.Vanish? || act.Land? || act.Lose? || act.Remove? || act.Stop? || act.Start?
    ensures HeldInv(e, Apply(e, w, act))
    ensures Apply(e, w, act).pass.Some? ==> HoldingPass(e, Apply(e, w, act), Apply(e, w, act).pass.value)
  {
    var w' := Apply(e, w, act);
    if NoneOpen(e, w) {
      forall i | 0 <= i < |w'.attempts| ensures !Open(e, w'.now, w'.attempts[i]) {
        assert !Open(e, w.now, w.attempts[i]);
      }
    }
  }

  lemma WriteHolds(e: Env, w: World, a: Answer)
    requires NoLeakInv(e, w) && Allowed(e, w, Reply(a, true)) && Next(w.pass.value.l).Write?
    ensures var w' := Apply(e, w, Reply(a, true)); HeldInv(e, w') && HoldingPass(e, w', w'.pass.value)
  {
    var r := w.pass.value;
    var w' := Apply(e, w, Reply(a, true));
    assert Copy(r) == r.l.mg == w.obj;
    assert SamePolicy(w'.obj.annotations, w.obj.annotations);
    PolicyDecides(w'.obj, w.obj);
    assert NoneOpen(e, w) ==> NoneOpen(e, w');
    assert !r.l.pc.Unfinalizing? && HasFinalizer(w.obj) ==> HasFinalizer(w'.obj);
  }

  lemma StampHolds(e: Env, w: World, a: Answer)
    requires NoLeakInv(e, w) && Allowed(e, w, Reply(a, true)) && Next(w.pass.value.l).StampAll?
    ensures var w' := Apply(e, w, Reply(a, true)); HeldInv(e, w') && HoldingPass(e, w', w'.pass.value)
  {
    var r := w.pass.value;
    var w' := Apply(e, w, Reply(a, true));
    assert Copy(r) == r.l.mg;
    MergeKeepsPolicy(w.obj.annotations, Next(r.l).a);
    PolicyDecides(w'.obj, w.obj);
    assert NoneOpen(e, w) ==> NoneOpen(e, w');
  }

  /** Status writes change nothing but the version. */
  lemma StatusHolds(e: Env, w: World, a: Answer)
    requires NoLeakInv(e, w) && Allowed(e, w, Reply(a, true))
    requires Next(w.pass.value.l).WriteStatus? || Next(w.pass.value.l).Defer?
    ensures var w' := Apply(e, w, Reply(a, true)); HeldInv(e, w') && HoldingPass(e, w', w'.pass.value)
  {
    var w' := Apply(e, w, Reply(a, true));
    assert w'.obj == w.obj.(version := w.obj.version + 1);
    assert NoneOpen(e, w) ==> NoneOpen(e, w');
  }

  lemma CallHolds(e: Env, w: World, a: Answer)
    requires NoLeakInv(e, w) && Allowed(e, w, Reply(a, false)) && Next(w.pass.value.l).Call?
    ensures var w' := Apply(e, w, Reply(a, false)); HeldInv(e, w') && HoldingPass(e, w', w'.pass.value)
  {
    var r := w.pass.value;
    var w' := Apply(e, w, Reply(a, false));
    if NoneOpen(e, w) {
      forall i | 0 <= i < |w'.attempts| ensures !Open(e, w'.now, w'.attempts[i]) {
        assert !Open(e, w.now, w.attempts[i]);
      }
    }
  }

  lemma QuietHolds(e: Env, w: World, a: Answer)
    requires NoLeakInv(e, w) && Allowed(e, w, Reply(a, false)) && Respects(w, Reply(a, false))
    requires !Next(w.pass.value.l).Call?
    ensures var w' := Apply(e, w, Reply(a, false)); HeldInv(e, w') && HoldingPass(e, w', w'.pass.value)
  {
    var w' := Apply(e, w, Reply(a, false));
    assert w' == w.(pass := w'.pass);
    if a.Got? {
      PolicyDecides(a.o, w.obj);
    }
    assert NoneOpen(e, w) ==> NoneOpen(e, w');
  }

  // ---- the pass acting on an answer ----

  /** What acting on an answer does to a pass under a deleting policy. */
  predicate HoldsOnward(r: Running, l: Local)
    requires r.phase.Replied?
  {
    && (HasCopy(r.(l := l, phase := Ready)) ==> HasCopy(r) && l.mg == Copy(r))
    && (l.pc.Unfinalizing? ==>
          || PastChecks(l)
          || (r.l.pc.Observing? && r.phase.a.Observed? && !r.phase.a.present && r.l.unresolved && r.l.mg.deleted))
    && (l.pc.Clearing? ==> !l.mg.deleted)
    && (l.pc == Gating(AtCreate) ==> HasFinalizer(l.mg))
    && (l.pc.Marking? ==> r.l.pc == Gating(AtCreate))
    && (l.pc.Creating? ==> r.l.pc.Marking? && r.phase.a.Wrote?)
  }

  lemma HandshakeHolds(c: Config, l: Local, now: Time)
    requires ShouldDelete(l.mg)
    ensures var l' := OnHandshake(c, l, now);
            && (l'.pc.Unfinalizing? ==> l.mg.deleted && !l.present)
            && (l'.pc == Gating(AtCreate) ==> HasFinalizer(l.mg))
            && !l'.pc.Clearing? && !l'.pc.Marking? && !l'.pc.Creating? && !l'.pc.Observing?
            && !l'.pc.StampingFailure? && !l'.pc.StampingSuccess?
  {
  }

  lemma ObservingHolds(e: Env, now: Time, r: Running)
    requires Resumable(r) && r.l.pc.Observing? && ShouldDelete(r.l.mg)
    ensures HoldsOnward(r, Resume(e.c, r.l, r.phase.a, now))
  {
    if r.phase.a.Observed? {
      var l := r.l.(present := r.phase.a.present, upToDate := r.phase.a.upToDate,
                    lateInitialized := r.phase.a.lateInitialized);
      HandshakeHolds(e.c, l, now);
      HandshakeShape(e.c, l, now);
    } else {
      var pc := Resume(e.c, r.l, r.phase.a, now).pc;
      assert pc.Done? || pc.Reporting?;
    }
  }

  lemma WrittenHolds(e: Env, now: Time, r: Running)
    requires Resumable(r) && ShouldDelete(Copy(r))
    requires match r.l.pc
             case Adopting(_) => r.l.present
             case Clearing => !r.l.mg.deleted
             case _ => false
    ensures HoldsOnward(r, Resume(e.c, r.l, r.phase.a, now))
  {
    if r.phase.a.Merged? || r.phase.a.Wrote? {
      HandshakeHolds(e.c, r.l.(mg := Copy(r)), now);
      HandshakeShape(e.c, r.l.(mg := Copy(r)), now);
    }
  }

  lemma LateInitializedHolds(e: Env, now: Time, r: Running)
    requires Resumable(r) && r.l.pc.LateInitializing?
    ensures HoldsOnward(r, Resume(e.c, r.l, r.phase.a, now))
  {
  }

  lemma FinalizedHolds(e: Env, now: Time, r: Running)
    requires Resumable(r) && r.l.pc.Finalizing?
    ensures HoldsOnward(r, Resume(e.c, r.l, r.phase.a, now))
  {
    var l := Resume(e.c, r.l, r.phase.a, now);
    if r.phase.a.Wrote? {
      FinalizerShape(e.c, r.l.(mg := Copy(r)));
      assert l == OnFinalizer(e.c, r.l.(mg := Copy(r))) && HasFinalizer(l.mg);
    } else {
      assert l.pc.Done? || l.pc.Reporting?;
    }
  }

  lemma FetchedHolds(e: Env, now: Time, r: Running)
    requires Resumable(r) && r.l.pc.Fetching? && (r.phase.a.Got? ==> ShouldDelete(r.phase.a.o))
    ensures HoldsOnward(r, Resume(e.c, r.l, r.phase.a, now))
  {
  }

  lemma GatedHolds(e: Env, now: Time, r: Running, site: Site)
    requires Resumable(r) && r.l.pc == Gating(site)
    ensures HoldsOnward(r, Resume(e.c, r.l, r.phase.a, now))
  {
    if r.phase.a.Granted? {
      assert Resume(e.c, r.l, r.phase.a, now) == OnGranted(r.l, site, now);
    } else {
      assert Resume(e.c, r.l, r.phase.a, now) == At(r.l, Deferring(r.phase.a.after));
    }
  }

  lemma LetGoHolds(e: Env, now: Time, r: Running)
    requires Resumable(r) && r.l.pc.Unfinalizing?
    ensures HoldsOnward(r, Resume(e.c, r.l, r.phase.a, now))
  {
    var pc := Resume(e.c, r.l, r.phase.a, now).pc;
    assert pc.Done? || pc.Reporting?;
  }

  lemma CreatedHolds(e: Env, now: Time, r: Running)
    requires Resumable(r) && r.l.pc.Creating?
    ensures HoldsOnward(r, Resume(e.c, r.l, r.phase.a, now))
  {
  }

  lemma MarkedHolds(e: Env, now: Time, r: Running)
    requires Resumable(r) && r.l.pc.Marking?
    ensures HoldsOnward(r, Resume(e.c, r.l, r.phase.a, now))
  {
  }

  lemma FailedHolds(e: Env, now: Time, r: Running)
    requires Resumable(r) && r.l.pc.StampingFailure?
    ensures HoldsOnward(r, Resume(e.c, r.l, r.phase.a, now))
  {
    var pc := Resume(e.c, r.l, r.phase.a, now).pc;
    assert pc.Done? || pc.Reporting?;
  }

  lemma StampedHolds(e: Env, now: Time, r: Running)
    requires Resumable(r) && r.l.pc.StampingSuccess?
    ensures HoldsOnward(r, Resume(e.c, r.l, r.phase.a, now))
  {
    var pc := Resume(e.c, r.l, r.phase.a, now).pc;
    assert pc.Done? || pc.Reporting?;
  }

  lemma OtherwiseHolds(e: Env, now: Time, r: Running)
    requires Resumable(r)
    requires match r.l.pc
             case Reporting(_) => true
             case Deferring(_) => true
             case Connecting => true
             case Deleting => true
             case Updating => true
             case _ => false
    ensures HoldsOnward(r, Resume(e.c, r.l, r.phase.a, now))
  {
  }

  lemma ResumeHolds(e: Env, now: Time, r: Running)
    requires Resumable(r)
    requires HasCopy(r) ==> ShouldDelete(Copy(r))
    requires r.l.pc.Adopting? ==> r.l.present
    requires r.l.pc.Clearing? ==> !r.l.mg.deleted
    ensures HoldsOnward(r, Resume(e.c, r.l, r.phase.a, now))
  {
    match r.l.pc
    case Observing => ObservingHolds(e, now, r);
    case Adopting(_) => WrittenHolds(e, now, r);
    case Clearing => WrittenHolds(e, now, r);
    case Finalizing => FinalizedHolds(e, now, r);
    case LateInitializing => LateInitializedHolds(e, now, r);
    case Fetching => FetchedHolds(e, now, r);
    case Gating(site) => GatedHolds(e, now, r, site);
    case Marking(_) => MarkedHolds(e, now, r);
    case Unfinalizing => LetGoHolds(e, now, r);
    case Creating => CreatedHolds(e, now, r);
    case StampingFailure(_, _) => FailedHolds(e, now, r);
    case StampingSuccess(_) => StampedHolds(e, now, r);
    case _ => OtherwiseHolds(e, now, r);
  }

  /** A deleted object is let go only when nothing is open: an unresolved marker was old enough. */
  lemma LetGoProven(e: Env, w: World, r: Running, l: Local)
    requires Covered(e) && Outlasts(e, e.patience) && AttemptsInv(e, w) && PassInv(e, w, r) && Resumable(r)
    requires InPace(e, w.now, r, l) && l.pc.Unfinalizing? && Current(w, r.l.mg)
    requires r.l.pc.Observing? && r.phase.a.Observed? && !r.phase.a.present && r.l.unresolved
    ensures NoneOpen(e, w)
  {
    assert ObservedInv(e, w, r, false);
    AbsenceProven(e, w, r.observedAt, e.patience);
  }

  lemma OnwardHolds(e: Env, w: World, r: Running, l: Local, r': Running)
    requires HoldingPass(e, w, r) && Resumable(r) && HoldsOnward(r, l)
    requires r' == r.(l := l, phase := Ready, markedAt := r'.markedAt)
    requires PassInv(e, w, r')
    requires l.pc.Unfinalizing? && !PastChecks(l) && Current(w, l.mg) ==> NoneOpen(e, w)
    ensures HoldingPass(e, w, r')
  {
  }

  lemma ContinueHolds(e: Env, w: World)
    requires Covered(e) && Outlasts(e, e.patience)
    requires NoLeakInv(e, w) && Allowed(e, w, Continue) && Inv(e, Apply(e, w, Continue))
    ensures var w' := Apply(e, w, Continue); HeldInv(e, w') && HoldingPass(e, w', w'.pass.value)
  {
    var r := w.pass.value;
    ResumeHolds(e, w.now, r);
    var l := Resume(e.c, r.l, r.phase.a, w.now);
    var w' := Apply(e, w, Continue);
    PassOnly(e, w, w', w'.pass.value);
    if l.pc.Unfinalizing? && !PastChecks(l) && Current(w, l.mg) {
      LetGoProven(e, w, r, l);
    }
    OnwardHolds(e, w, r, l, w'.pass.value);
  }

  lemma PassOnly(e: Env, w: World, w': World, r: Running)
    requires w' == w.(pass := w'.pass)
    ensures HeldInv(e, w) == HeldInv(e, w')
    ensures PassInv(e, w', r) == PassInv(e, w, r)
    ensures HoldingPass(e, w, r) == HoldingPass(e, w', r)
  {
  }

  lemma IssueHolds(e: Env, w: World)
    requires NoLeakInv(e, w) && Allowed(e, w, Issue)
    ensures var w' := Apply(e, w, Issue); HeldInv(e, w') && HoldingPass(e, w', w'.pass.value)
  {
  }

  // ---- whole runs ----

  lemma ReplyHolds(e: Env, w: World, a: Answer, applied: bool)
    requires NoLeakInv(e, w) && Allowed(e, w, Reply(a, applied)) && Respects(w, Reply(a, applied))
    ensures var w' := Apply(e, w, Reply(a, applied)); HeldInv(e, w') && HoldingPass(e, w', w'.pass.value)
  {
    if applied {
      match Next(w.pass.value.l)
      case Write(_) => WriteHolds(e, w, a);
      case StampAll(_) => StampHolds(e, w, a);
      case _ => StatusHolds(e, w, a);
    } else if Next(w.pass.value.l).Call? {
      CallHolds(e, w, a);
    } else {
      QuietHolds(e, w, a);
    }
  }

  lemma StepHolds(e: Env, w: World, act: Action)
    requires e.laterSecond && e.exactErrors && Covered(e) && Outlasts(e, e.patience)
    requires NoLeakInv(e, w) && Allowed(e, w, act) && Respects(w, act)
    ensures NoLeakInv(e, Apply(e, w, act))
  {
    StepKeeps(e, w, act);
    match act
    case ForeignWrite(o) => ForeignWriteHolds(e, w, o);
    case Issue => IssueHolds(e, w);
    case Continue => ContinueHolds(e, w);
    case Reply(a, applied) => ReplyHolds(e, w, a, applied);
    case _ => EnvironmentHolds(e, w, act);
  }

  lemma {:induction false} RunHolds(e: Env, w: World, acts: seq<Action>)
    requires e.laterSecond && e.exactErrors && Covered(e) && Outlasts(e, e.patience)
    requires NoLeakInv(e, w) && Run(e, w, acts) && Respectful(e, w, acts)
    ensures NoLeakInv(e, End(e, w, acts))
    decreases |acts|
  {
    if acts != [] {
      StepHolds(e, w, acts[0]);
      RunHolds(e, Apply(e, w, acts[0]), acts[1..]);
    }
  }

  /** Main result. Under an unchanged deleting policy, whenever a resource exists or may still land, the
      object is stored and carries the finalizer. */
  lemma NothingLeaks(e: Env, w: World, acts: seq<Action>)
    requires e.laterSecond && e.exactErrors && Covered(e) && Outlasts(e, e.patience)
    requires Initial(w) && ShouldDelete(w.obj) && Run(e, w, acts) && Respectful(e, w, acts)
    ensures NoneOpen(e, End(e, w, acts)) || Held(End(e, w, acts))
  {
    RunHolds(e, w, acts);
  }

  /** A pass takes the finalizer off only when nothing is open. */
  lemma FinalizerComesOffLast(e: Env, w: World, acts: seq<Action>, a: Answer)
    requires e.laterSecond && e.exactErrors && Covered(e) && Outlasts(e, e.patience)
    requires Initial(w) && ShouldDelete(w.obj) && Run(e, w, acts) && Respectful(e, w, acts)
    requires var w' := End(e, w, acts);
             && w'.pass.Some?
             && w'.pass.value.l.pc.Unfinalizing?
             && Allowed(e, w', Reply(a, true))
    ensures NoneOpen(e, End(e, w, acts))
  {
    RunHolds(e, w, acts);
    NothingOpenToUnfinalize(e, End(e, w, acts), a);
  }

  lemma NothingOpenToUnfinalize(e: Env, w: World, a: Answer)
    requires NoLeakInv(e, w) && w.pass.Some? && w.pass.value.l.pc.Unfinalizing? && Allowed(e, w, Reply(a, true))
    ensures NoneOpen(e, w)
  {
    var r := w.pass.value;
    assert Copy(r) == r.l.mg;
    assert Current(w, r.l.mg);
  }
}
