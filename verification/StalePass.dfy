/** A pass that decided from a stale read never creates: every write on the way to external Create is
    guarded by the version the pass holds. */
module StalePass {
  import opened Clock
  import opened Meta
  import opened ReconcilePass
  import opened Handshake
  import opened HandshakeSafety

  predicate HoldsCopy(r: Running) {
    Deciding(r.l) || (r.l.pc.Fetching? && r.phase.Replied? && r.phase.a.Got?)
  }

  predicate FreshPass(w: World, r: Running) {
    && (r.phase.Replied? && !r.l.pc.Done? ==> Fits(Next(r.l), r.phase.a))
    && (Uncreated(r.l) ==> r.l.unresolved == CreateIncomplete(r.l.mg))
    && (r.l.pc.Adopting? ==> r.l.present)
    && (HoldsCopy(r) ==> CopyInv(w, Copy(r)) && (Current(w, Copy(r)) ==> w.foreign <= r.readVersion))
    && (r.l.pc.Creating? || (r.l.pc.Marking? && r.phase.Replied? && r.phase.a.Wrote?) ==>
          r.markedOver <= r.readVersion)
  }

  predicate Fresh(w: World) {
    && w.foreign <= w.obj.version
    && (w.pass.Some? ==> FreshPass(w, w.pass.value))
  }

  lemma ReplyKeepsFresh(e: Env, w: World, a: Answer, applied: bool)
    requires Fresh(w) && Allowed(e, w, Reply(a, applied))
    ensures Fresh(Apply(e, w, Reply(a, applied)))
  {
    var r := w.pass.value;
    var w' := Apply(e, w, Reply(a, applied));
    var r' := w'.pass.value;
    assert w'.foreign == w.foreign && w.obj.version <= w'.obj.version;
    if HoldsCopy(r') {
      if r.l.pc.Fetching? {
        assert w' == w.(pass := w'.pass);
      } else if a.Wrote? {
        assert Current(w, r.l.mg) && Copy(r) == r.l.mg;
      } else {
        assert Copy(r') == r.l.mg == Copy(r);
      }
    }
  }

  lemma ContinueKeepsFresh(e: Env, w: World)
    requires Fresh(w) && Allowed(e, w, Continue)
    ensures Fresh(Apply(e, w, Continue))
  {
    var r := w.pass.value;
    ResumeOnward(e, w.now, r);
    var l := Resume(e.c, r.l, r.phase.a, w.now);
    OnwardKeepsFresh(e, w, r, l, Apply(e, w, Continue).pass.value);
  }

  lemma OnwardKeepsFresh(e: Env, w: World, r: Running, l: Local, r': Running)
    requires FreshPass(w, r) && Resumable(r) && Onward(e, w.now, r, l)
    requires r' == r.(l := l, phase := Ready, markedAt := r'.markedAt)
    ensures FreshPass(w, r')
  {
  }

  lemma StepKeepsFresh(e: Env, w: World, act: Action)
    requires Fresh(w) && Allowed(e, w, act)
    ensures Fresh(Apply(e, w, act))
  {
    match act
    case Reply(a, applied) => ReplyKeepsFresh(e, w, a, applied);
    case Continue => ContinueKeepsFresh(e, w);
    case _ =>
  }

  lemma {:induction false} RunKeepsFresh(e: Env, w: World, acts: seq<Action>)
    requires Fresh(w) && Run(e, w, acts)
    ensures Fresh(End(e, w, acts))
    decreases |acts|
  {
    if acts != [] {
      StepKeepsFresh(e, w, acts[0]);
      RunKeepsFresh(e, Apply(e, w, acts[0]), acts[1..]);
    }
  }

  /** Main result. When a pass comes to issue external Create, every version newer than the one its Get
      returned had, up to the stored marker, been written by this pass. */
  lemma StalePassesNeverCreate(e: Env, w: World, acts: seq<Action>)
    requires Initial(w) && Run(e, w, acts)
    requires Allowed(e, End(e, w, acts), Issue)
    ensures End(e, w, acts).pass.value.markedOver <= End(e, w, acts).pass.value.readVersion
  {
    RunKeepsFresh(e, w, acts);
  }

  /** And the markers, policy and finalizers it decided from were the stored ones when it stored its
      marker. */
  lemma MarkerGoesOverTheObjectDecidedFrom(e: Env, w: World, acts: seq<Action>, v: nat)
    requires Initial(w) && Run(e, w, acts)
    requires var w' := End(e, w, acts);
             w'.pass.Some? && w'.pass.value.l.pc.Marking? && Allowed(e, w', Reply(Wrote(v), true))
    ensures var w' := End(e, w, acts);
            w'.pass.value.l.mg == w'.obj && w'.foreign <= w'.pass.value.readVersion
  {
    RunKeepsFresh(e, w, acts);
    var w' := End(e, w, acts);
    assert Copy(w'.pass.value) == w'.pass.value.l.mg;
  }
}
