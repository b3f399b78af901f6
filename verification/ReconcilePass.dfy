/** One reconcile pass as a step machine (pkg/reconciler/reconciler.go, Reconcile). Each program
    counter is waiting on exactly one effect; Resume is what the pass does with the answer, up to
    the next effect. A crash can then fall between any two effects. */
module ReconcilePass {
  import opened Clock
  import opened Meta

  /** Reconciler options that steer a pass. */
  datatype Config = Config(
    poll: Duration,
    reobserve: Duration,
    recoveryGrace: Duration,
    creationGrace: Duration)

  /** The five gated calls. */
  datatype Site = AtConnect | AtObserve | AtDelete | AtCreate | AtUpdate

  datatype Effect =
    | Get
    | Write(o: Object)
    | WriteStatus(o: Object)
    | StampAll(a: Annotations)
    | Gate(site: Site)
    | Defer(after: int)
    | Call(site: Site)

  datatype Answer =
    | Got(o: Object)
    | Wrote(version: nat)
    | Merged(o: Object)
    | Granted
    | Deferred(after: int)
    | Observed(present: bool, upToDate: bool, lateInitialized: bool)
    | Ok
    | NotFound
    | Conflict
    | Failure
    | Panic

  /** How Reconcile returns: with an error, a rate-limited requeue or a requeue after a delay; with
      none of these, because the object is missing, paused or let go; or not at all, when a panic of
      the provider, or of taking the finalizer off, passes through. */
  datatype Outcome = Errored | Requeue | After(d: int) | Missing | OnHold | LetGo | Panicked

  datatype Pc =
    | Fetching
    | Reporting(out: Outcome)
    | Gating(site: Site)
    | Deferring(after: int)
    | Connecting
    | Observing
    | Adopting(stamp: nat)
    | Clearing
    | Deleting
    | Unfinalizing
    | Finalizing
    | Marking(stamp: nat)
    | Creating
    | StampingFailure(stamp: nat, conflict: bool)
    | StampingSuccess(stamp: nat)
    | LateInitializing
    | Updating
    | Done(out: Outcome)

  /** The variables of a pass: its copy of the object, whether it read an unresolved create
      handshake, and what Observe answered. */
  datatype Local = Local(
    pc: Pc,
    mg: Object,
    unresolved: bool,
    present: bool,
    upToDate: bool,
    lateInitialized: bool)

  const NO_OBJECT := Object(0, map[], [], false)

  const START := Local(Fetching, NO_OBJECT, false, false, false, false)

  /** The effect a pass is waiting on. */
  function Next(l: Local): Effect
    requires !l.pc.Done?
  {
    match l.pc
    case Fetching => Get
    case Reporting(_) => WriteStatus(l.mg)
    case Gating(site) => Gate(site)
    case Deferring(after) => Defer(after)
    case Connecting => Call(AtConnect)
    case Observing => Call(AtObserve)
    case Adopting(stamp) => StampAll(WithStamp(l.mg, CreateSucceeded, stamp).annotations)
    case Clearing => Write(WithoutPending(l.mg))
    case Deleting => Call(AtDelete)
    case Unfinalizing => Write(WithoutFinalizer(l.mg))
    case Finalizing => Write(WithFinalizer(l.mg))
    case Marking(stamp) => Write(WithStamp(l.mg, CreatePending, stamp))
    case Creating => Call(AtCreate)
    case StampingFailure(stamp, _) => StampAll(WithStamp(l.mg, CreateFailed, stamp).annotations)
    case StampingSuccess(stamp) => StampAll(WithStamp(l.mg, CreateSucceeded, stamp).annotations)
    case LateInitializing => Write(l.mg)
    case Updating => Call(AtUpdate)
  }

  /** Whether a is an answer e can get. */
  predicate Fits(e: Effect, a: Answer) {
    match e
    case Get => a.Got? || a.NotFound? || a.Failure?
    case Write(_) => a.Wrote? || a.NotFound? || a.Conflict? || a.Failure?
    case WriteStatus(_) => a.Wrote? || a.NotFound? || a.Conflict? || a.Failure?
    case StampAll(_) => a.Merged? || a.Failure?
    case Gate(_) => a.Granted? || a.Deferred?
    case Defer(_) => a.Ok? || a.Failure?
    case Call(AtObserve) => a.Observed? || a.Conflict? || a.Failure? || a.Panic?
    case Call(_) => a.Ok? || a.Conflict? || a.Failure? || a.Panic?
  }

  function At(l: Local, pc: Pc): Local { l.(pc := pc) }

  /** After Get returned o. */
  function OnObject(o: Object): Local {
    var l := START.(mg := o);
    if IsPaused(o) then At(l, Reporting(OnHold))
    else if o.deleted && !ShouldDelete(o) then RemoveFinalizer(l)
    else At(l, Gating(AtConnect)).(unresolved := CreateIncomplete(o))
  }

  /** APIFinalizer.RemoveFinalizer writes only when the finalizer is there, and panics before that on a
      list that has it last and once more. */
  function RemoveFinalizer(l: Local): Local {
    if !HasFinalizer(l.mg) then At(l, Done(LetGo))
    else if RemovalPanics(l.mg) then At(l, Done(Panicked))
    else At(l, Unfinalizing)
  }

  /** After Observe answered: resolve an unresolved create handshake. */
  function OnObserved(c: Config, l: Local, now: Time): Local {
    if !l.unresolved then OnHandshake(c, l, now)
    else if l.present then At(l, Adopting(Truncated(now)))
    else if l.mg.deleted then OnHandshake(c, l, now)
    else if PendingDuring(l.mg, now, c.recoveryGrace) then At(l, Reporting(After(c.reobserve)))
    else At(l, Clearing)
  }

  /** Once no handshake is in the way. */
  function OnHandshake(c: Config, l: Local, now: Time): Local {
    if !l.present && ShouldOnlyObserve(l.mg) then At(l, Reporting(Errored))
    else if !l.present && SucceededDuring(l.mg, now, c.creationGrace) then At(l, Done(Requeue))
    else if l.mg.deleted then
      if l.present && ShouldDelete(l.mg) then At(l, Gating(AtDelete)) else RemoveFinalizer(l)
    else if HasFinalizer(l.mg) then OnFinalizer(c, l)
    else At(l, Finalizing)
  }

  /** Once the object carries the finalizer. */
  function OnFinalizer(c: Config, l: Local): Local {
    if !l.present && ShouldCreate(l.mg) then At(l, Gating(AtCreate))
    else if l.lateInitialized then At(l, LateInitializing)
    else OnLateInitialized(c, l)
  }

  function OnLateInitialized(c: Config, l: Local): Local {
    if l.upToDate || !ShouldUpdate(l.mg) then At(l, Reporting(After(c.poll)))
    else At(l, Gating(AtUpdate))
  }

  /** Once a gate let the call through. The create marker is stamped before its write. */
  function OnGranted(l: Local, site: Site, now: Time): Local {
    match site
    case AtConnect => At(l, Connecting)
    case AtObserve => At(l, Observing)
    case AtDelete => At(l, Deleting)
    case AtCreate => At(l, Marking(Truncated(now)))
    case AtUpdate => At(l, Updating)
  }

  /** After a write of the object failed: a conflict requeues, anything else is reported. */
  function OnWriteError(l: Local, a: Answer): Local {
    if a.Conflict? then At(l, Done(Requeue)) else At(l, Reporting(Errored))
  }

  /** What a pass does with an answer, reading the clock as now. */
  function Resume(c: Config, l: Local, a: Answer, now: Time): Local
    requires !l.pc.Done? && Fits(Next(l), a)
  {
    if a.Panic? then At(l, Done(Panicked)) else
    match l.pc
    case Fetching =>
      if a.Got? then OnObject(a.o)
      else At(l, Done(if a.NotFound? then Missing else Errored))
    case Reporting(out) => At(l, Done(if a.Wrote? then out else Errored))
    case Gating(site) =>
      if a.Granted? then OnGranted(l, site, now) else At(l, Deferring(a.after))
    case Deferring(after) => At(l, Done(if a.Ok? then After(after) else Errored))
    case Connecting => if a.Ok? then At(l, Gating(AtObserve)) else OnWriteError(l, a)
    case Observing =>
      if a.Observed? then
        OnObserved(c, l.(present := a.present, upToDate := a.upToDate,
                         lateInitialized := a.lateInitialized), now)
      else OnWriteError(l, a)
    case Adopting(_) =>
      if a.Merged? then OnHandshake(c, l.(mg := a.o), now) else At(l, Done(Errored))
    case Clearing =>
      if a.Wrote? then OnHandshake(c, l.(mg := WithoutPending(l.mg).(version := a.version)), now)
      else At(l, Done(if a.Conflict? then Requeue else Errored))
    case Deleting => At(l, Reporting(if a.Ok? then Requeue else Errored))
    case Unfinalizing =>
      if a.Wrote? || a.NotFound? then At(l, Done(LetGo)) else OnWriteError(l.(mg := WithoutFinalizer(l.mg)), a)
    case Finalizing =>
      if a.Wrote? then OnFinalizer(c, l.(mg := WithFinalizer(l.mg).(version := a.version)))
      else OnWriteError(l.(mg := WithFinalizer(l.mg)), a)
    case Marking(stamp) =>
      if a.Wrote? then
        At(l, Creating).(mg := WithStamp(l.mg, CreatePending, stamp).(version := a.version))
      else OnWriteError(l.(mg := WithStamp(l.mg, CreatePending, stamp)), a)
    case Creating =>
      if a.Ok? then At(l, StampingSuccess(Truncated(now)))
      else At(l, StampingFailure(Truncated(now), a.Conflict?))
    case StampingFailure(stamp, conflict) =>
      At(l, if conflict then Done(Requeue) else Reporting(Errored))
      .(mg := if a.Merged? then a.o else WithStamp(l.mg, CreateFailed, stamp))
    case StampingSuccess(stamp) =>
      At(l, Reporting(if a.Merged? then Requeue else Errored))
      .(mg := if a.Merged? then a.o else WithStamp(l.mg, CreateSucceeded, stamp))
    case LateInitializing =>
      if a.Wrote? then OnLateInitialized(c, l.(mg := l.mg.(version := a.version)))
      else OnWriteError(l, a)
    case Updating => At(l, Reporting(if a.Ok? then After(c.poll) else Errored))
  }
}
