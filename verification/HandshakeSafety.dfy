/** The create handshake never issues an external Create while an earlier one's resource exists or
    may still land, whatever crashes, lost answers and concurrent writes a run contains. */
module HandshakeSafety {
  import opened Clock
  import opened Meta
  import opened ReconcilePass
  import opened Handshake

  /** The grace periods outlast the API's lag: the recovery period counts from the marker, the creation
      period from the success stamp, and truncating either stamp loses up to a second. An API that shows
      a resource as soon as it landed needs no creation period. */
  predicate Covered(e: Env) {
    Outlasts(e, e.c.recoveryGrace) && CreationCovered(e)
  }

  predicate CreationCovered(e: Env) {
    e.visibility > 0 ==> SECOND + e.observeBound + e.visibility - 1 <= e.c.creationGrace
  }

  /** A marker that old has no create left that could land, nor a resource that an absence check missed. */
  predicate Outlasts(e: Env, age: Duration) {
    SECOND + e.createBound + e.observeBound + Max(e.visibility, 1) - 2 <= age
  }

  /** The stored markers still tell about an attempt: its pending stamp is unresolved, or a success
      stamp is no older than its resource. */
  predicate Marked(w: World, a: Attempt) {
    || w.gone
    || (a.InFlight? && CreateIncomplete(w.obj) && Pending(w.obj) == Truncated(a.markedAt))
    || (a.Live? && CreateIncomplete(w.obj) && Pending(w.obj) == Truncated(a.markedAt))
    || (a.Live? && Succeeded(w.obj) >= Truncated(a.at))
  }

  predicate LastOnly(e: Env, w: World) {
    forall i :: 0 <= i < |w.attempts| - 1 ==> !Open(e, w.now, w.attempts[i])
  }

  predicate Dated(e: Env, now: Time, a: Attempt) {
    match a
    case InFlight(markedAt) => SECOND <= markedAt
    case Live(markedAt, at) => SECOND <= markedAt && SECOND <= at <= now && at < markedAt + e.createBound
    case Dead => true
  }

  predicate AttemptsInv(e: Env, w: World) {
    && w.now >= SECOND
    && LastOnly(e, w)
    && (forall i :: 0 <= i < |w.attempts| ==> Dated(e, w.now, w.attempts[i]))
    && (forall i :: 0 <= i < |w.attempts| && Open(e, w.now, w.attempts[i]) ==> Marked(w, w.attempts[i]))
  }

  function Last(w: World): Attempt
    requires |w.attempts| > 0
  {
    w.attempts[|w.attempts| - 1]
  }

  /** Every resource there is may still have been invisible at the instant looked. */
  predicate Unseen(e: Env, w: World, looked: Time) {
    forall i :: 0 <= i < |w.attempts| && w.attempts[i].Live? ==> looked < w.attempts[i].at + Max(e.visibility, 1)
  }

  /** The newest attempt is not in flight, and any resource of it landed by the second stamp. */
  predicate LandedBy(w: World, stamp: nat) {
    && |w.attempts| > 0
    && !Last(w).InFlight?
    && (Last(w).Live? ==> Truncated(Last(w).at) <= stamp)
  }

  /** Program counters that decide on, or still use, the copy of the object. */
  predicate UsesCopy(pc: Pc) {
    match pc
    case Gating(_) => true
    case Connecting => true
    case Observing => true
    case Adopting(_) => true
    case Clearing => true
    case Deleting => true
    case Unfinalizing => true
    case Finalizing => true
    case Marking(_) => true
    case LateInitializing => true
    case Updating => true
    case _ => false
  }

  /** Program counters on the way to a create. */
  predicate Deciding(l: Local) {
    match l.pc
    case Gating(site) => site == AtConnect || site == AtObserve || site == AtCreate
    case Connecting => true
    case Observing => true
    case Clearing => true
    case Finalizing => !l.present
    case Marking(_) => true
    case _ => false
  }

  /** The copy of the object the pass holds once it acts on the answer it has. */
  function Copy(r: Running): Object {
    if r.phase.Replied? && !r.l.pc.Done? then
      match r.phase.a
      case Got(o) => o
      case Merged(o) => o
      case Wrote(v) => if Next(r.l).Write? then Next(r.l).o.(version := v) else r.l.mg
      case _ => r.l.mg
    else r.l.mg
  }

  /** A copy is the stored object whenever their versions agree. */
  predicate CopyInv(w: World, o: Object) {
    && o.version <= w.obj.version
    && (Current(w, o) ==> o == w.obj)
  }

  /** Program counters a pass reaches only after it concluded that no create can be open. */
  predicate PastChecks(l: Local) {
    match l.pc
    case Clearing => true
    case Finalizing => !l.present
    case Gating(site) => site == AtCreate
    case Marking(_) => true
    case Unfinalizing => !l.present && !l.unresolved && ShouldDelete(l.mg)
    case _ => false
  }

  predicate Uncreated(l: Local) {
    || (l.pc.Gating? && (l.pc.site == AtConnect || l.pc.site == AtObserve))
    || l.pc.Connecting?
    || l.pc.Observing?
  }

  /** The pending marker of this pass is stored, unresolved. */
  predicate MarkerStored(w: World, markedAt: Time) {
    w.gone || (CreateIncomplete(w.obj) && Pending(w.obj) == Truncated(markedAt))
  }

  predicate ObservedInv(e: Env, w: World, r: Running, present: bool) {
    if present then |w.attempts| > 0 && !Last(w).InFlight?
    else Unseen(e, w, r.observedAt) && (Transparent(e, w, r) ==> NoneOpen(e, w))
  }

  /** The API shows a resource as soon as it landed, and the pass holds the stored, resolved object. */
  predicate Transparent(e: Env, w: World, r: Running) {
    e.visibility == 0 && Current(w, r.l.mg) && !CreateIncomplete(w.obj)
  }

  predicate CreatingInv(e: Env, w: World, r: Running) {
    && SECOND <= r.markedAt
    && MarkerStored(w, r.markedAt)
    && match r.phase
       case Ready => NoneOpen(e, w)
       case Issued => |w.attempts| > 0
       case Replied(a) =>
         && |w.attempts| > 0
         && (a.Ok? ==> !Last(w).InFlight?)
         && (a.Failure? || a.Conflict? ==> NoneOpen(e, w))
  }

  predicate MarkingInv(e: Env, w: World, r: Running) {
    && r.l.pc.Marking?
    && r.l.pc.stamp == Truncated(r.markedAt) > Latest(r.l.mg)
    && SECOND <= r.markedAt
    && (r.phase.Replied? && r.phase.a.Wrote? ==> NoneOpen(e, w) && MarkerStored(w, r.markedAt))
  }

  /** What is true at each program counter. */
  predicate PcInv(e: Env, w: World, r: Running) {
    match r.l.pc
    case Observing =>
      r.phase.Replied? && r.phase.a.Observed? ==> ObservedInv(e, w, r, r.phase.a.present)
    case Adopting(stamp) => r.l.present && LandedBy(w, stamp)
    case Marking(_) => MarkingInv(e, w, r)
    case Creating => CreatingInv(e, w, r)
    case StampingFailure(_, _) => NoneOpen(e, w)
    case StampingSuccess(stamp) => LandedBy(w, stamp)
    case _ => true
  }

  predicate PassInv(e: Env, w: World, r: Running) {
    && r.observedAt <= w.now
    && (r.phase.Replied? && !r.l.pc.Done? ==> Fits(Next(r.l), r.phase.a))
    && (UsesCopy(r.l.pc) || (r.l.pc.Fetching? && r.phase.Replied? && r.phase.a.Got?) ==> CopyInv(w, Copy(r)))
    && (Uncreated(r.l) ==> r.l.unresolved == CreateIncomplete(r.l.mg))
    && (PastChecks(r.l) && Current(w, Copy(r)) ==> NoneOpen(e, w))
    && PcInv(e, w, r)
  }

  predicate Inv(e: Env, w: World) {
    && AttemptsInv(e, w)
    && (w.pass.Some? ==> PassInv(e, w, w.pass.value))
  }

  // ---- the environment's actions ----

  lemma TickKeeps(e: Env, w: World, to: Time)
    requires Inv(e, w) && w.now <= to
    ensures Inv(e, Apply(e, w, Tick(to)))
  {
    var w' := Apply(e, w, Tick(to));
    forall i | 0 <= i < |w.attempts| && Open(e, w'.now, w'.attempts[i])
      ensures Open(e, w.now, w.attempts[i]) && Marked(w', w'.attempts[i])
    {
      assert Open(e, w.now, w.attempts[i]);
      assert Marked(w, w.attempts[i]);
    }
    forall i | 0 <= i < |w.attempts| ensures Dated(e, w'.now, w'.attempts[i]) {
      assert Dated(e, w.now, w.attempts[i]);
    }
  }

  lemma ForeignWriteKeeps(e: Env, w: World, o: Object)
    requires Inv(e, w) && Allowed(e, w, ForeignWrite(o))
    ensures Inv(e, Apply(e, w, ForeignWrite(o)))
  {
    var w' := Apply(e, w, ForeignWrite(o));
    assert CreateIncomplete(w'.obj) == CreateIncomplete(w.obj);
    forall i | 0 <= i < |w.attempts| && Open(e, w.now, w'.attempts[i])
      ensures Marked(w', w'.attempts[i])
    {
      assert Marked(w, w.attempts[i]);
    }
  }

  lemma VanishKeeps(e: Env, w: World)
    requires Inv(e, w) && Allowed(e, w, Vanish)
    ensures Inv(e, Apply(e, w, Vanish))
  {
  }

  /** Only the newest attempt can still land, and its marker stays unresolved. */
  lemma LandKeeps(e: Env, w: World, i: nat)
    requires Inv(e, w) && Allowed(e, w, Land(i))
    ensures Inv(e, Apply(e, w, Land(i)))
  {
    var w' := Apply(e, w, Land(i));
    assert Open(e, w.now, w.attempts[i]);
    assert i == |w.attempts| - 1;
    assert Dated(e, w.now, w.attempts[i]) && Marked(w, w.attempts[i]);
    forall j | 0 <= j < |w'.attempts|
      ensures Dated(e, w'.now, w'.attempts[j])
      ensures Open(e, w'.now, w'.attempts[j]) ==> Open(e, w.now, w.attempts[j]) && Marked(w', w'.attempts[j])
    {
      assert Dated(e, w.now, w.attempts[j]);
    }
  }

  lemma CloseKeeps(e: Env, w: World, i: nat, act: Action)
    requires Inv(e, w) && Allowed(e, w, act) && (act == Lose(i) || act == Remove(i))
    ensures Inv(e, Apply(e, w, act))
  {
    var w' := Apply(e, w, act);
    forall j | 0 <= j < |w'.attempts|
      ensures Dated(e, w'.now, w'.attempts[j])
      ensures Open(e, w'.now, w'.attempts[j]) ==> Open(e, w.now, w.attempts[j]) && Marked(w', w'.attempts[j])
    {
      assert Dated(e, w.now, w.attempts[j]);
    }
    assert NoneOpen(e, w) ==> NoneOpen(e, w');
  }

  // ---- the pass's own actions ----

  lemma IssueKeeps(e: Env, w: World)
    requires Inv(e, w) && Allowed(e, w, Issue)
    ensures NoneOpen(e, w)
    ensures Inv(e, Apply(e, w, Issue))
  {
    var r := w.pass.value;
    assert CreatingInv(e, w, r);
    var w' := Apply(e, w, Issue);
    forall i | 0 <= i < |w'.attempts|
      ensures Dated(e, w'.now, w'.attempts[i])
      ensures Open(e, w'.now, w'.attempts[i]) ==> i == |w.attempts| && Marked(w', w'.attempts[i])
    {
      if i < |w.attempts| {
        assert Dated(e, w.now, w.attempts[i]) && !Open(e, w.now, w.attempts[i]);
      }
    }
  }

  /** An answer that leaves the store and the attempts alone. */
  lemma QuietReplyKeeps(e: Env, w: World, a: Answer, applied: bool)
    requires Inv(e, w) && Allowed(e, w, Reply(a, applied))
    requires Next(w.pass.value.l).Get? || Next(w.pass.value.l).Gate?
             || (Next(w.pass.value.l).Call? && !w.pass.value.l.pc.Creating?)
             || (!applied && !Next(w.pass.value.l).Call?)
    ensures Inv(e, Apply(e, w, Reply(a, applied)))
  {
    var r := w.pass.value;
    var w' := Apply(e, w, Reply(a, applied));
    assert w'.(pass := w.pass) == w;
    if r.l.pc.Observing? && a.Observed? {
      ObservedReplyKeeps(e, w, a);
    } else {
      assert PassInv(e, w, w'.pass.value);
    }
    PassChangeKeeps(e, w, w');
  }

  lemma ObservedReplyKeeps(e: Env, w: World, a: Answer)
    requires Inv(e, w) && Allowed(e, w, Reply(a, false)) && w.pass.value.l.pc.Observing? && a.Observed?
    ensures PassInv(e, w, Apply(e, w, Reply(a, false)).pass.value)
  {
    if a.present {
      var i :| 0 <= i < |w.attempts| && w.attempts[i].Live?;
      assert Open(e, w.now, w.attempts[i]);
    }
    assert ObservedInv(e, w, Apply(e, w, Reply(a, false)).pass.value, a.present);
  }

  lemma CreateReplyKeeps(e: Env, w: World, a: Answer, applied: bool)
    requires e.exactErrors && Inv(e, w) && Allowed(e, w, Reply(a, applied)) && w.pass.value.l.pc.Creating?
    ensures Inv(e, Apply(e, w, Reply(a, applied)))
  {
    var r := w.pass.value;
    var w' := Apply(e, w, Reply(a, applied));
    assert CreatingInv(e, w, r);
    forall i | 0 <= i < |w'.attempts|
      ensures Dated(e, w'.now, w'.attempts[i])
      ensures Open(e, w'.now, w'.attempts[i]) ==> w'.attempts[i] == w.attempts[i] && Marked(w', w'.attempts[i])
      ensures i < |w.attempts| - 1 || a.Failure? || a.Conflict? ==> !Open(e, w'.now, w'.attempts[i])
    {
      assert Dated(e, w.now, w.attempts[i]);
      assert i < |w.attempts| - 1 ==> !Open(e, w.now, w.attempts[i]);
      assert Open(e, w.now, w.attempts[i]) ==> Marked(w, w.attempts[i]);
    }
    assert CreatingInv(e, w', w'.pass.value);
  }

  /** Writing an object with the stored markers, or any object while nothing is open. */
  lemma StoreKeepsAttempts(e: Env, w: World, w': World)
    requires AttemptsInv(e, w)
    requires w' == w.(obj := w'.obj, pass := w'.pass)
    requires SameMarkers(w.obj, w'.obj) || NoneOpen(e, w)
    ensures AttemptsInv(e, w')
  {
    forall i | 0 <= i < |w.attempts| && Open(e, w.now, w.attempts[i])
      ensures Marked(w', w'.attempts[i])
    {
      assert Marked(w, w.attempts[i]);
    }
  }

  lemma WriteReplyKeeps(e: Env, w: World, a: Answer)
    requires Inv(e, w) && Allowed(e, w, Reply(a, true)) && Next(w.pass.value.l).Write?
    ensures Inv(e, Apply(e, w, Reply(a, true)))
  {
    var r := w.pass.value;
    var w' := Apply(e, w, Reply(a, true));
    assert Copy(r) == r.l.mg == w.obj;
    StoreKeepsAttempts(e, w, w');
    assert w'.now == w.now && w'.attempts == w.attempts;
    assert PastChecks(r.l) ==> NoneOpen(e, w');
    if r.l.pc.Marking? {
      assert MarkingInv(e, w, r);
      assert Latest(w'.obj) == Latest(w.obj);
      assert MarkingInv(e, w', w'.pass.value);
    }
  }

  lemma StatusReplyKeeps(e: Env, w: World, a: Answer)
    requires Inv(e, w) && Allowed(e, w, Reply(a, true))
    requires Next(w.pass.value.l).WriteStatus? || Next(w.pass.value.l).Defer?
    ensures Inv(e, Apply(e, w, Reply(a, true)))
  {
    StoreKeepsAttempts(e, w, Apply(e, w, Reply(a, true)));
  }

  lemma StampReplyKeeps(e: Env, w: World, a: Answer)
    requires Inv(e, w) && Allowed(e, w, Reply(a, true)) && Next(w.pass.value.l).StampAll?
    ensures Inv(e, Apply(e, w, Reply(a, true)))
  {
    var r := w.pass.value;
    var w' := Apply(e, w, Reply(a, true));
    if r.l.pc.StampingFailure? {
      assert NoneOpen(e, w');
      StoreKeepsAttempts(e, w, w');
    } else {
      var stamp := r.l.pc.stamp;
      assert LandedBy(w, stamp) && Succeeded(w'.obj) == stamp;
      forall i | 0 <= i < |w.attempts| && Open(e, w.now, w.attempts[i])
        ensures Marked(w', w'.attempts[i])
      {
        assert i == |w.attempts| - 1;
      }
    }
  }

  lemma ReplyKeeps(e: Env, w: World, a: Answer, applied: bool)
    requires e.exactErrors && Inv(e, w) && Allowed(e, w, Reply(a, applied))
    ensures Inv(e, Apply(e, w, Reply(a, applied)))
  {
    var r := w.pass.value;
    if r.l.pc.Creating? {
      CreateReplyKeeps(e, w, a, applied);
    } else if !applied || Next(r.l).Call? || Next(r.l).Gate? || Next(r.l).Get? {
      QuietReplyKeeps(e, w, a, applied);
    } else {
      match Next(r.l)
      case Write(_) => WriteReplyKeeps(e, w, a);
      case StampAll(_) => StampReplyKeeps(e, w, a);
      case _ => StatusReplyKeeps(e, w, a);
    }
  }

  // ---- the pass acting on an answer ----

  /** A long enough grace period, such as the recovery one, has run out on an unresolved marker: its create
      can no longer land, and a resource of it was sure to show when Observe looked. */
  lemma RecoveryElapsed(e: Env, w: World, looked: Time, a: Attempt, grace: Duration)
    requires Outlasts(e, grace) && !w.gone
    requires CreateIncomplete(w.obj) && !PendingDuring(w.obj, w.now, grace)
    requires w.now <= looked + e.observeBound
    requires Dated(e, w.now, a) && Marked(w, a)
    ensures a.InFlight? ==> !Open(e, w.now, a)
    ensures a.Live? ==> a.at + Max(e.visibility, 1) <= looked
  {
    assert w.now - Pending(w.obj) * SECOND >= grace;
  }

  /** The creation grace period has run out on a resolved handshake: a resource was sure to show. */
  lemma CreationElapsed(e: Env, w: World, looked: Time, a: Attempt)
    requires Covered(e) && !w.gone
    requires !CreateIncomplete(w.obj) && !SucceededDuring(w.obj, w.now, e.c.creationGrace)
    requires w.now <= looked + e.observeBound && e.visibility > 0
    requires a.Live? && Dated(e, w.now, a) && Marked(w, a)
    ensures a.at + Max(e.visibility, 1) <= looked
  {
    assert Truncated(a.at) >= 1;
    assert w.now - Succeeded(w.obj) * SECOND >= e.c.creationGrace;
  }

  /** The pass's absence checks, on the stored object. */
  predicate ChecksElapsed(e: Env, w: World, grace: Duration) {
    if CreateIncomplete(w.obj) then !PendingDuring(w.obj, w.now, grace)
    else !SucceededDuring(w.obj, w.now, e.c.creationGrace)
  }

  /** An absent answer that gets past the checks proves that nothing is open. */
  lemma AbsenceProven(e: Env, w: World, looked: Time, grace: Duration)
    requires Covered(e) && Outlasts(e, grace) && AttemptsInv(e, w) && Unseen(e, w, looked)
    requires !w.gone && w.now <= looked + e.observeBound && ChecksElapsed(e, w, grace)
    requires e.visibility == 0 && !CreateIncomplete(w.obj) ==> NoneOpen(e, w)
    ensures NoneOpen(e, w)
  {
    forall i | 0 <= i < |w.attempts| ensures !Open(e, w.now, w.attempts[i]) {
      var a := w.attempts[i];
      if Open(e, w.now, a) {
        assert Marked(w, a) && Dated(e, w.now, a);
        if CreateIncomplete(w.obj) {
          RecoveryElapsed(e, w, looked, a, grace);
        } else if e.visibility > 0 {
          CreationElapsed(e, w, looked, a);
        }
      }
    }
  }

  /** What acting on an answer does to a pass, whatever the world: only an absent answer of Observe
      that gets past the checks opens the way to create. */
  predicate Onward(e: Env, now: Time, r: Running, l: Local)
    requires r.phase.Replied?
  {
    && (UsesCopy(l.pc) ==> l.mg == Copy(r) && (UsesCopy(r.l.pc) || (r.l.pc.Fetching? && r.phase.a.Got?)))
    && (Uncreated(l) ==> l.unresolved == CreateIncomplete(l.mg))
    && !l.pc.Fetching?
    && (Deciding(l) ==> Deciding(r.l) || r.l.pc.Fetching?)
    && (l.pc.Marking? ==> l.pc.stamp == Truncated(now))
    && (l.pc.Adopting? ==> r.l.pc.Observing? && r.phase.a.Observed? && l.present && r.phase.a.present
                           && l.pc.stamp == Truncated(now))
    && (l.pc.Creating? ==> r.l.pc.Marking? && r.phase.a.Wrote?)
    && (l.pc.StampingSuccess? ==> r.l.pc.Creating? && r.phase.a.Ok? && l.pc.stamp == Truncated(now))
    && (l.pc.StampingFailure? ==> r.l.pc.Creating? && (r.phase.a.Failure? || r.phase.a.Conflict?))
    && (PastChecks(l) ==>
          || PastChecks(r.l)
          || (&& r.l.pc.Observing? && r.phase.a.Observed? && !r.phase.a.present
              && (if CreateIncomplete(l.mg) then !PendingDuring(l.mg, now, e.c.recoveryGrace)
                  else !SucceededDuring(l.mg, now, e.c.creationGrace))))
  }

  predicate Resumable(r: Running) {
    !r.l.pc.Done? && r.phase.Replied? && Fits(Next(r.l), r.phase.a)
  }

  /** Past the handshake a pass keeps its copy and does not turn back. */
  lemma HandshakeShape(c: Config, l: Local, now: Time)
    ensures var l' := OnHandshake(c, l, now);
            && l'.mg == l.mg && l'.present == l.present && l'.unresolved == l.unresolved
            && (l'.pc.Reporting? || l'.pc.Done? || l'.pc.Unfinalizing? || l'.pc.Finalizing? || l'.pc.LateInitializing?
                || l'.pc == Gating(AtDelete) || l'.pc == Gating(AtCreate) || l'.pc == Gating(AtUpdate))
            && (l'.pc == Gating(AtCreate) ==> !l.present)
            && (l'.pc.Unfinalizing? ==> l.mg.deleted)
            && (PastChecks(l') ==> !SucceededDuring(l.mg, now, c.creationGrace))
  {
  }

  lemma ObservedOnward(e: Env, now: Time, r: Running)
    requires Resumable(r) && r.l.pc.Observing? && r.phase.a.Observed?
    requires r.l.unresolved == CreateIncomplete(r.l.mg)
    ensures Onward(e, now, r, Resume(e.c, r.l, r.phase.a, now))
  {
    HandshakeShape(e.c, r.l.(present := r.phase.a.present, upToDate := r.phase.a.upToDate,
                             lateInitialized := r.phase.a.lateInitialized), now);
  }

  lemma ObservingOnward(e: Env, now: Time, r: Running)
    requires Resumable(r) && r.l.pc.Observing?
    requires r.l.unresolved == CreateIncomplete(r.l.mg)
    ensures Onward(e, now, r, Resume(e.c, r.l, r.phase.a, now))
  {
    if r.phase.a.Observed? {
      ObservedOnward(e, now, r);
    }
  }

  lemma AdoptedOnward(e: Env, now: Time, r: Running)
    requires Resumable(r) && r.l.pc.Adopting? && r.l.present
    ensures Onward(e, now, r, Resume(e.c, r.l, r.phase.a, now))
  {
    if r.phase.a.Merged? {
      HandshakeShape(e.c, r.l.(mg := Copy(r)), now);
    }
  }

  lemma ClearedOnward(e: Env, now: Time, r: Running)
    requires Resumable(r) && r.l.pc.Clearing?
    ensures Onward(e, now, r, Resume(e.c, r.l, r.phase.a, now))
  {
    if r.phase.a.Wrote? {
      HandshakeShape(e.c, r.l.(mg := Copy(r)), now);
    }
  }

  lemma ResumeOnward(e: Env, now: Time, r: Running)
    requires Resumable(r)
    requires Uncreated(r.l) ==> r.l.unresolved == CreateIncomplete(r.l.mg)
    requires r.l.pc.Adopting? ==> r.l.present
    ensures Onward(e, now, r, Resume(e.c, r.l, r.phase.a, now))
  {
    match r.l.pc
    case Observing => ObservingOnward(e, now, r);
    case Adopting(_) => AdoptedOnward(e, now, r);
    case Clearing => ClearedOnward(e, now, r);
    case Fetching => FetchedOnward(e, now, r);
    case Gating(site) => GatedOnward(e, now, r, site);
    case Finalizing => FinalizedOnward(e, now, r);
    case Marking(_) => MarkedOnward(e, now, r);
    case Creating => CreatedOnward(e, now, r);
    case Unfinalizing => LetGoOnward(e, now, r);
    case LateInitializing => LateInitializedOnward(e, now, r);
    case StampingFailure(_, _) => StampedOnward(e, now, r);
    case StampingSuccess(_) => StampedOnward(e, now, r);
    case _ => OtherwiseOnward(e, now, r);
  }

  lemma FetchedOnward(e: Env, now: Time, r: Running)
    requires Resumable(r) && r.l.pc.Fetching?
    ensures Onward(e, now, r, Resume(e.c, r.l, r.phase.a, now))
  {
  }

  lemma GatedOnward(e: Env, now: Time, r: Running, site: Site)
    requires Resumable(r) && r.l.pc == Gating(site)
    requires Uncreated(r.l) ==> r.l.unresolved == CreateIncomplete(r.l.mg)
    ensures Onward(e, now, r, Resume(e.c, r.l, r.phase.a, now))
  {
    if r.phase.a.Granted? {
      assert Resume(e.c, r.l, r.phase.a, now) == OnGranted(r.l, site, now);
    } else {
      assert Resume(e.c, r.l, r.phase.a, now) == At(r.l, Deferring(r.phase.a.after));
    }
  }

  lemma FinalizedOnward(e: Env, now: Time, r: Running)
    requires Resumable(r) && r.l.pc.Finalizing?
    ensures Onward(e, now, r, Resume(e.c, r.l, r.phase.a, now))
  {
    var l := Resume(e.c, r.l, r.phase.a, now);
    if r.phase.a.Wrote? {
      FinalizerShape(e.c, r.l.(mg := Copy(r)));
      assert l == OnFinalizer(e.c, r.l.(mg := Copy(r)));
    } else {
      assert l.pc.Done? || l.pc.Reporting?;
    }
  }

  lemma FinalizerShape(c: Config, l: Local)
    ensures var l' := OnFinalizer(c, l);
            && l'.mg == l.mg && l'.present == l.present && l'.unresolved == l.unresolved
            && (l'.pc.Reporting? || l'.pc.LateInitializing? || l'.pc == Gating(AtCreate) || l'.pc == Gating(AtUpdate))
            && (l'.pc == Gating(AtCreate) ==> !l.present)
  {
  }

  lemma MarkedOnward(e: Env, now: Time, r: Running)
    requires Resumable(r) && r.l.pc.Marking?
    ensures Onward(e, now, r, Resume(e.c, r.l, r.phase.a, now))
  {
  }

  lemma CreatedOnward(e: Env, now: Time, r: Running)
    requires Resumable(r) && r.l.pc.Creating?
    ensures Onward(e, now, r, Resume(e.c, r.l, r.phase.a, now))
  {
  }

  lemma LateInitializedOnward(e: Env, now: Time, r: Running)
    requires Resumable(r) && r.l.pc.LateInitializing?
    ensures Onward(e, now, r, Resume(e.c, r.l, r.phase.a, now))
  {
    if r.phase.a.Wrote? {
      assert Resume(e.c, r.l, r.phase.a, now) == OnLateInitialized(e.c, r.l.(mg := Copy(r)));
    }
  }

  lemma LetGoOnward(e: Env, now: Time, r: Running)
    requires Resumable(r) && r.l.pc.Unfinalizing?
    ensures Onward(e, now, r, Resume(e.c, r.l, r.phase.a, now))
  {
    var pc := Resume(e.c, r.l, r.phase.a, now).pc;
    assert pc.Done? || pc.Reporting?;
  }

  lemma StampedOnward(e: Env, now: Time, r: Running)
    requires Resumable(r) && (r.l.pc.StampingFailure? || r.l.pc.StampingSuccess?)
    ensures Onward(e, now, r, Resume(e.c, r.l, r.phase.a, now))
  {
  }

  lemma OtherwiseOnward(e: Env, now: Time, r: Running)
    requires Resumable(r)
    requires match r.l.pc
             case Reporting(_) => true
             case Deferring(_) => true
             case Connecting => true
             case Deleting => true
             case Updating => true
             case _ => false
    requires Uncreated(r.l) ==> r.l.unresolved == CreateIncomplete(r.l.mg)
    ensures Onward(e, now, r, Resume(e.c, r.l, r.phase.a, now))
  {
    var pc := Resume(e.c, r.l, r.phase.a, now).pc;
    assert pc.Done? || pc.Reporting? || (r.l.pc.Connecting? && pc == Gating(AtObserve));
  }

  lemma TruncatedMonotone(t: Time, u: Time)
    requires t <= u
    ensures Truncated(t) <= Truncated(u)
  {
  }

  lemma LandedByNow(e: Env, w: World)
    requires AttemptsInv(e, w) && |w.attempts| > 0 && !Last(w).InFlight?
    ensures LandedBy(w, Truncated(w.now))
  {
    assert Dated(e, w.now, Last(w));
    if Last(w).Live? {
      TruncatedMonotone(Last(w).at, w.now);
    }
  }

  /** A pass that goes onward in pace keeps the invariant. */
  lemma OnwardKeeps(e: Env, w: World, r: Running, l: Local, r': Running)
    requires e.laterSecond && e.exactErrors && Covered(e) && AttemptsInv(e, w) && PassInv(e, w, r) && Resumable(r)
    requires Onward(e, w.now, r, l) && InPace(e, w.now, r, l)
    requires r' == r.(l := l, phase := Ready, markedAt := if l.pc.Marking? then w.now else r.markedAt)
    ensures PassInv(e, w, r')
  {
    if r.l.pc.Observing? && r.phase.a.Observed? {
      assert ObservedInv(e, w, r, r.phase.a.present);
    }
    if PastChecks(l) && Current(w, l.mg) {
      assert l.mg == w.obj;
      if !PastChecks(r.l) {
        AbsenceProven(e, w, r.observedAt, e.c.recoveryGrace);
      }
      assert NoneOpen(e, w);
    }
    if l.pc.Adopting? || l.pc.StampingSuccess? {
      LandedByNow(e, w);
    }
  }

  lemma ContinueKeeps(e: Env, w: World)
    requires e.laterSecond && e.exactErrors && Covered(e) && Inv(e, w) && Allowed(e, w, Continue)
    ensures Inv(e, Apply(e, w, Continue))
  {
    var r := w.pass.value;
    ResumeOnward(e, w.now, r);
    var l := Resume(e.c, r.l, r.phase.a, w.now);
    var w' := Apply(e, w, Continue);
    OnwardKeeps(e, w, r, l, w'.pass.value);
    PassChangeKeeps(e, w, w');
  }

  /** The invariant of a pass reads nothing of the world's pass but itself. */
  lemma PassChangeKeeps(e: Env, w: World, w': World)
    requires AttemptsInv(e, w) && w' == w.(pass := w'.pass)
    requires w'.pass.Some? ==> PassInv(e, w, w'.pass.value)
    ensures Inv(e, w')
  {
  }

  // ---- whole runs ----

  lemma StepKeeps(e: Env, w: World, act: Action)
    requires e.laterSecond && e.exactErrors && Covered(e) && Inv(e, w) && Allowed(e, w, act)
    ensures Inv(e, Apply(e, w, act))
  {
    match act
    case Tick(to) => TickKeeps(e, w, to);
    case ForeignWrite(o) => ForeignWriteKeeps(e, w, o);
    case Vanish => VanishKeeps(e, w);
    case Land(i) => LandKeeps(e, w, i);
    case Lose(i) => CloseKeeps(e, w, i, act);
    case Remove(i) => CloseKeeps(e, w, i, act);
    case Start => StartKeeps(e, w);
    case Stop => PassChangeKeeps(e, w, Apply(e, w, Stop));
    case Issue => IssueKeeps(e, w);
    case Reply(a, applied) => ReplyKeeps(e, w, a, applied);
    case Continue => ContinueKeeps(e, w);
  }

  lemma StartKeeps(e: Env, w: World)
    requires Inv(e, w) && Allowed(e, w, Start)
    ensures Inv(e, Apply(e, w, Start))
  {
  }

  lemma {:induction false} RunKeeps(e: Env, w: World, acts: seq<Action>)
    requires e.laterSecond && e.exactErrors && Covered(e) && Inv(e, w) && Run(e, w, acts)
    ensures Inv(e, End(e, w, acts))
    decreases |acts|
  {
    if acts != [] {
      StepKeeps(e, w, acts[0]);
      RunKeeps(e, Apply(e, w, acts[0]), acts[1..]);
    }
  }

  /** Main result. Whenever a run comes to issue an external Create, no resource of an earlier one
      exists and none can still land. */
  lemma NoDuplicateCreate(e: Env, w: World, acts: seq<Action>)
    requires e.laterSecond && e.exactErrors && Covered(e) && Initial(w) && Run(e, w, acts)
    requires Allowed(e, End(e, w, acts), Issue)
    ensures NoneOpen(e, End(e, w, acts))
  {
    RunKeeps(e, w, acts);
    IssueKeeps(e, End(e, w, acts));
  }

  /** Hence there is never more than one resource the runtime created. */
  lemma AtMostOneResource(e: Env, w: World, acts: seq<Action>, i: nat, j: nat)
    requires e.laterSecond && e.exactErrors && Covered(e) && Initial(w) && Run(e, w, acts)
    requires i < |End(e, w, acts).attempts| && End(e, w, acts).attempts[i].Live?
    requires j < |End(e, w, acts).attempts| && End(e, w, acts).attempts[j].Live?
    ensures i == j
  {
    RunKeeps(e, w, acts);
    var w' := End(e, w, acts);
    assert Open(e, w'.now, w'.attempts[i]) && Open(e, w'.now, w'.attempts[j]);
  }
}
