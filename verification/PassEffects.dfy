/** What one pass may do from Get to return, whatever it is answered. */
module PassEffects {
  import opened Clock
  import opened Meta
  import opened ReconcilePass

  /** One answered effect, and the clock when the pass acted on the answer. */
  datatype Turn = Turn(a: Answer, now: Time)

  predicate PassRun(c: Config, l: Local, turns: seq<Turn>)
    decreases |turns|
  {
    turns == []
    || (&& !l.pc.Done?
        && Fits(Next(l), turns[0].a)
        && PassRun(c, Resume(c, l, turns[0].a, turns[0].now), turns[1..]))
  }

  function PassEnd(c: Config, l: Local, turns: seq<Turn>): Local
    requires PassRun(c, l, turns)
    decreases |turns|
  {
    if turns == [] then l else PassEnd(c, Resume(c, l, turns[0].a, turns[0].now), turns[1..])
  }

  /** The effects a run of the pass performed, in order. */
  function Performed(c: Config, l: Local, turns: seq<Turn>): seq<Effect>
    requires PassRun(c, l, turns)
    decreases |turns|
  {
    if turns == [] then []
    else [Next(l)] + Performed(c, Resume(c, l, turns[0].a, turns[0].now), turns[1..])
  }

  /** What a history of effects and answers amounts to: how many creates, updates and deletes were
      called, what Observe answered, whether a pending marker was written, and the first and the
      last answer. */
  datatype History = History(
    changes: nat,
    seen: Option<Answer>,
    marked: bool,
    first: Option<Answer>,
    last: Option<Answer>)

  /** Observe answered, and said whether a resource was present. */
  predicate Saw(h: History, present: bool) {
    h.seen.Some? && h.seen.value.Observed? && h.seen.value.present == present
  }

  /** The pass remembers what Observe answered. */
  predicate Recalls(l: Local, h: History) {
    h.seen == Some(Observed(l.present, l.upToDate, l.lateInitialized))
  }

  const NO_HISTORY := History(0, None, false, None, None)

  predicate Changes(x: Effect) {
    x == Call(AtCreate) || x == Call(AtUpdate) || x == Call(AtDelete)
  }

  /** Whether x writes a pending marker the object the pass holds does not have. */
  predicate WritesMarker(x: Effect, o: Object) {
    x.Write? && Pending(x.o) != 0 && Pending(x.o) != Pending(o)
  }

  function Record(h: History, l: Local, a: Answer): History
    requires !l.pc.Done?
  {
    History(if Changes(Next(l)) then h.changes + 1 else h.changes,
            if a.Observed? then Some(a) else h.seen,
            h.marked || l.pc.Marking? || WritesMarker(Next(l), l.mg),
            if h.first.None? then Some(a) else h.first,
            Some(a))
  }

  function Summary(c: Config, l: Local, turns: seq<Turn>, h: History): History
    requires PassRun(c, l, turns)
    decreases |turns|
  {
    if turns == [] then h
    else Summary(c, Resume(c, l, turns[0].a, turns[0].now), turns[1..], Record(h, l, turns[0].a))
  }

  /** Program counters before Observe answered. */
  predicate Before(pc: Pc) {
    match pc
    case Fetching => true
    case Gating(site) => site == AtConnect || site == AtObserve
    case Connecting => true
    case Observing => true
    case _ => false
  }

  /** Program counters after the one change a pass may make, or on its way out. */
  predicate Past(pc: Pc) {
    match pc
    case Reporting(_) => true
    case Deferring(_) => true
    case StampingFailure(_, _) => true
    case StampingSuccess(_) => true
    case Done(_) => true
    case _ => false
  }

  predicate Warranted(l: Local) {
    match l.pc
    case Gating(site) =>
      && (site == AtCreate ==> CreateWarranted(l))
      && (site == AtUpdate ==> UpdateWarranted(l))
      && (site == AtDelete ==> DeleteWarranted(l))
    case Marking(_) => CreateWarranted(l)
    case Creating => CreateWarranted(l)
    case Updating => UpdateWarranted(l)
    case Deleting => DeleteWarranted(l)
    case LateInitializing => (l.present || !ShouldCreate(l.mg)) && !l.mg.deleted
    case Finalizing => !l.mg.deleted
    case Adopting(_) => l.present
    case Unfinalizing => l.mg.deleted && (!ShouldDelete(l.mg) || !l.present)
    case Reporting(out) => !out.LetGo?
    case _ => true
  }

  predicate CreateWarranted(l: Local) {
    !l.present && !l.mg.deleted && ShouldCreate(l.mg) && HasFinalizer(l.mg)
  }

  predicate UpdateWarranted(l: Local) {
    l.present && !l.upToDate && !l.mg.deleted && ShouldUpdate(l.mg)
  }

  predicate DeleteWarranted(l: Local) {
    l.present && l.mg.deleted && ShouldDelete(l.mg)
  }

  predicate Consistent(l: Local, h: History) {
    && Warranted(l)
    && (if Before(l.pc) then h.seen == None && !l.present
        else if Past(l.pc) then true
        else Recalls(l, h) || (l.pc.Unfinalizing? && !l.present && !ShouldDelete(l.mg)))
    && (if Past(l.pc) && !l.pc.Deferring? then h.changes <= 1 else h.changes == 0)
    && (h.marked ==> l.pc.Creating? || (Past(l.pc) && !l.pc.Deferring?))
  }

  lemma HandshakeConsistent(c: Config, l: Local, now: Time, h: History)
    requires Recalls(l, h) && h.changes == 0 && !h.marked
    ensures Consistent(OnHandshake(c, l, now), h)
  {
    LetGoConsistent(l, h);
    if HasFinalizer(l.mg) && !l.mg.deleted {
      FinalizerConsistent(c, l, h);
    }
  }

  lemma LetGoConsistent(l: Local, h: History)
    requires Recalls(l, h) && h.changes == 0 && !h.marked
    ensures l.mg.deleted && (!ShouldDelete(l.mg) || !l.present) ==> Consistent(RemoveFinalizer(l), h)
  {
  }

  lemma FinalizerConsistent(c: Config, l: Local, h: History)
    requires Recalls(l, h) && h.changes == 0 && !h.marked && HasFinalizer(l.mg) && !l.mg.deleted
    ensures Consistent(OnFinalizer(c, l), h)
  {
  }

  lemma WithoutMarkerWrites(o: Object)
    ensures !WritesMarker(Write(WithoutPending(o)), o)
    ensures !WritesMarker(Write(WithoutFinalizer(o)), o)
    ensures !WritesMarker(Write(WithFinalizer(o)), o)
    ensures !WritesMarker(Write(o), o)
  {
  }

  lemma ObservedConsistent(c: Config, l: Local, a: Answer, now: Time, h: History)
    requires l.pc.Observing? && Fits(Next(l), a) && Consistent(l, h)
    ensures Consistent(Resume(c, l, a, now), Record(h, l, a))
  {
    if a.Observed? {
      var l1 := l.(present := a.present, upToDate := a.upToDate, lateInitialized := a.lateInitialized);
      HandshakeConsistent(c, l1, now, Record(h, l, a));
    }
  }

  lemma WrittenConsistent(c: Config, l: Local, a: Answer, now: Time, h: History)
    requires l.pc.Adopting? || l.pc.Clearing?
    requires Fits(Next(l), a) && Consistent(l, h)
    ensures Consistent(Resume(c, l, a, now), Record(h, l, a))
  {
    WithoutMarkerWrites(l.mg);
    var h' := Record(h, l, a);
    match l.pc
    case Adopting(_) => if a.Merged? { HandshakeConsistent(c, l.(mg := a.o), now, h'); }
    case Clearing =>
      if a.Wrote? { HandshakeConsistent(c, l.(mg := WithoutPending(l.mg).(version := a.version)), now, h'); }
  }

  lemma FinalizedConsistent(c: Config, l: Local, a: Answer, now: Time, h: History)
    requires l.pc.Finalizing? && Fits(Next(l), a) && Consistent(l, h)
    ensures Consistent(Resume(c, l, a, now), Record(h, l, a))
  {
    WithoutMarkerWrites(l.mg);
    if a.Wrote? {
      FinalizerConsistent(c, l.(mg := WithFinalizer(l.mg).(version := a.version)), Record(h, l, a));
    }
  }

  lemma SavedConsistent(c: Config, l: Local, a: Answer, now: Time, h: History)
    requires l.pc.LateInitializing? && Fits(Next(l), a) && Consistent(l, h)
    ensures Consistent(Resume(c, l, a, now), Record(h, l, a))
  {
    WithoutMarkerWrites(l.mg);
  }

  lemma UnfinalizedConsistent(c: Config, l: Local, a: Answer, now: Time, h: History)
    requires l.pc.Unfinalizing? && Fits(Next(l), a) && Consistent(l, h)
    ensures Consistent(Resume(c, l, a, now), Record(h, l, a))
  {
    WithoutMarkerWrites(l.mg);
  }

  lemma CalledConsistent(c: Config, l: Local, a: Answer, now: Time, h: History)
    requires !l.pc.Done? && Next(l).Call? && !l.pc.Observing?
    requires Fits(Next(l), a) && Consistent(l, h)
    ensures Consistent(Resume(c, l, a, now), Record(h, l, a))
  {
  }

  lemma GatedConsistent(c: Config, l: Local, a: Answer, now: Time, h: History)
    requires l.pc.Gating? && Fits(Next(l), a) && Consistent(l, h)
    ensures Consistent(Resume(c, l, a, now), Record(h, l, a))
  {
  }

  lemma MarkedConsistent(c: Config, l: Local, a: Answer, now: Time, h: History)
    requires (l.pc.Fetching? || l.pc.Marking?) && Fits(Next(l), a) && Consistent(l, h)
    ensures Consistent(Resume(c, l, a, now), Record(h, l, a))
  {
  }

  lemma OtherwiseConsistent(c: Config, l: Local, a: Answer, now: Time, h: History)
    requires Past(l.pc) && !l.pc.Done? && Fits(Next(l), a) && Consistent(l, h)
    ensures Consistent(Resume(c, l, a, now), Record(h, l, a))
  {
  }

  lemma StepConsistent(c: Config, l: Local, a: Answer, now: Time, h: History)
    requires !l.pc.Done? && Fits(Next(l), a) && Consistent(l, h)
    ensures Consistent(Resume(c, l, a, now), Record(h, l, a))
  {
    match l.pc
    case Observing => ObservedConsistent(c, l, a, now, h);
    case Gating(_) => GatedConsistent(c, l, a, now, h);
    case Adopting(_) => WrittenConsistent(c, l, a, now, h);
    case Clearing => WrittenConsistent(c, l, a, now, h);
    case Finalizing => FinalizedConsistent(c, l, a, now, h);
    case LateInitializing => SavedConsistent(c, l, a, now, h);
    case Unfinalizing => UnfinalizedConsistent(c, l, a, now, h);
    case Fetching => MarkedConsistent(c, l, a, now, h);
    case Marking(_) => MarkedConsistent(c, l, a, now, h);
    case Connecting => CalledConsistent(c, l, a, now, h);
    case Deleting => CalledConsistent(c, l, a, now, h);
    case Creating => CalledConsistent(c, l, a, now, h);
    case Updating => CalledConsistent(c, l, a, now, h);
    case _ => OtherwiseConsistent(c, l, a, now, h);
  }

  lemma {:induction false} RunConsistent(c: Config, l: Local, turns: seq<Turn>, h: History)
    requires PassRun(c, l, turns) && Consistent(l, h)
    ensures Consistent(PassEnd(c, l, turns), Summary(c, l, turns, h))
    decreases |turns|
  {
    if turns != [] {
      StepConsistent(c, l, turns[0].a, turns[0].now, h);
      RunConsistent(c, Resume(c, l, turns[0].a, turns[0].now), turns[1..], Record(h, l, turns[0].a));
    }
  }

  function Whole(c: Config, turns: seq<Turn>): History
    requires PassRun(c, START, turns)
  {
    Summary(c, START, turns, NO_HISTORY)
  }

  /** Main result. Over any run a pass calls at most one of Create, Update and Delete. */
  lemma AtMostOneChange(c: Config, turns: seq<Turn>)
    requires PassRun(c, START, turns)
    ensures Whole(c, turns).changes <= 1
  {
    RunConsistent(c, START, turns, NO_HISTORY);
  }

  /** It calls Create only for a live object after Observe said absent, under a creating policy, with the
      finalizer on; Update only for a live one after Observe said present and not up to date, under an updating
      policy; Delete only for a deleted one after Observe said present, under a deleting policy. */
  lemma ChangesAreWarranted(c: Config, turns: seq<Turn>)
    requires PassRun(c, START, turns) && !PassEnd(c, START, turns).pc.Done?
    requires Changes(Next(PassEnd(c, START, turns)))
    ensures var l := PassEnd(c, START, turns);
            var h := Whole(c, turns);
            && h.changes == 0
            && match Next(l).site
               case AtCreate => Saw(h, false) && !l.mg.deleted && ShouldCreate(l.mg) && HasFinalizer(l.mg)
               case AtUpdate => Saw(h, true) && !h.seen.value.upToDate && !l.mg.deleted && ShouldUpdate(l.mg)
               case _ => Saw(h, true) && ShouldDelete(l.mg) && l.mg.deleted
  {
    RunConsistent(c, START, turns, NO_HISTORY);
  }

  /** A pass the governor defers has not written a pending marker. */
  lemma DeferralLeavesNoMarker(c: Config, turns: seq<Turn>)
    requires PassRun(c, START, turns) && PassEnd(c, START, turns).pc.Deferring?
    ensures !Whole(c, turns).marked && Whole(c, turns).changes == 0
  {
    RunConsistent(c, START, turns, NO_HISTORY);
  }

  // ---- letting the object go ----

  /** The pass starts to take the finalizer off, or finds it off already. */
  predicate LetsGo(l: Local) {
    l.pc.Unfinalizing? || l.pc == Done(LetGo)
  }

  lemma HandshakeLetsGo(c: Config, l: Local, now: Time)
    ensures var l' := OnHandshake(c, l, now);
            LetsGo(l') ==> l'.mg == l.mg && l.mg.deleted && (!ShouldDelete(l.mg) || !l.present)
                           && (!l.present ==> !SucceededDuring(l.mg, now, c.creationGrace))
  {
  }

  /** The object let go at this turn is deleted, and either need not delete anything, or the pass saw nothing
      and the creation grace period is over. */
  predicate RightToGo(c: Config, l': Local, h: History, now: Time) {
    && l'.mg.deleted
    && (ShouldDelete(l'.mg) ==> Saw(h, false) && !SucceededDuring(l'.mg, now, c.creationGrace))
  }

  lemma FetchedLetsGo(c: Config, l: Local, a: Answer, now: Time, h: History)
    requires l.pc.Fetching? && Fits(Next(l), a) && LetsGo(Resume(c, l, a, now))
    ensures RightToGo(c, Resume(c, l, a, now), h, now)
  {
  }

  lemma ObservedLetsGo(c: Config, l: Local, a: Answer, now: Time, h: History)
    requires l.pc.Observing? && Fits(Next(l), a) && LetsGo(Resume(c, l, a, now))
    ensures RightToGo(c, Resume(c, l, a, now), Record(h, l, a), now)
  {
    if a.Observed? {
      var l1 := l.(present := a.present, upToDate := a.upToDate, lateInitialized := a.lateInitialized);
      HandshakeLetsGo(c, l1, now);
      assert Resume(c, l, a, now) == OnObserved(c, l1, now);
    }
  }

  lemma WrittenLetsGo(c: Config, l: Local, a: Answer, now: Time, h: History)
    requires (l.pc.Adopting? || l.pc.Clearing?) && Recalls(l, h)
    requires Fits(Next(l), a) && LetsGo(Resume(c, l, a, now))
    ensures RightToGo(c, Resume(c, l, a, now), Record(h, l, a), now)
  {
    if a.Merged? {
      HandshakeLetsGo(c, l.(mg := a.o), now);
    } else if a.Wrote? {
      HandshakeLetsGo(c, l.(mg := WithoutPending(l.mg).(version := a.version)), now);
    }
  }

  lemma OthersLetNothingGo(c: Config, l: Local, a: Answer, now: Time)
    requires !l.pc.Done? && Fits(Next(l), a)
    requires !l.pc.Fetching? && !l.pc.Observing? && !l.pc.Adopting? && !l.pc.Clearing? && !l.pc.Unfinalizing?
    requires l.pc.Reporting? ==> !l.pc.out.LetGo?
    ensures !LetsGo(Resume(c, l, a, now))
  {
  }

  lemma AnswerLetsGo(c: Config, l: Local, a: Answer, now: Time, h: History)
    requires !l.pc.Done? && !l.pc.Unfinalizing? && Consistent(l, h)
    requires Fits(Next(l), a) && LetsGo(Resume(c, l, a, now))
    ensures RightToGo(c, Resume(c, l, a, now), Record(h, l, a), now)
  {
    match l.pc
    case Fetching => FetchedLetsGo(c, l, a, now, h);
    case Observing => ObservedLetsGo(c, l, a, now, h);
    case Adopting(_) => WrittenLetsGo(c, l, a, now, h);
    case Clearing => WrittenLetsGo(c, l, a, now, h);
    case _ => OthersLetNothingGo(c, l, a, now);
  }

  /** Main result. A pass lets its object go only when the object is deleted, and either need not delete
      anything, or Observe said absent and the creation grace period is over at that very turn. */
  lemma LetsGoOutsideTheGrace(c: Config, turns: seq<Turn>, t: Turn, l: Local)
    requires PassRun(c, START, turns) && l == PassEnd(c, START, turns) && !l.pc.Done? && !l.pc.Unfinalizing?
    requires Fits(Next(l), t.a) && LetsGo(Resume(c, l, t.a, t.now))
    ensures RightToGo(c, Resume(c, l, t.a, t.now), Record(Whole(c, turns), l, t.a), t.now)
  {
    RunConsistent(c, START, turns, NO_HISTORY);
    AnswerLetsGo(c, l, t.a, t.now, Whole(c, turns));
  }

  // ---- no pass is silently dropped ----

  /** Every delay the governor names is positive. */
  predicate DelaysPositive(turns: seq<Turn>) {
    forall i :: 0 <= i < |turns| && turns[i].a.Deferred? ==> turns[i].a.after > 0
  }

  /** A result that brings the object back, or a reason why it need not come back. */
  predicate Excused(l: Local, h: History, out: Outcome) {
    match out
    case Errored => true
    case Requeue => true
    case After(d) => d > 0
    case Missing => h.first == Some(NotFound)
    case OnHold => h.first.Some? && h.first.value.Got? && IsPaused(h.first.value.o)
    case LetGo =>
      && l.mg.deleted
      && (!ShouldDelete(l.mg) || Saw(h, false))
      && (!HasFinalizer(l.mg) || h.last == Some(NotFound) || (h.last.Some? && h.last.value.Wrote?))
    case Panicked =>
      || h.last == Some(Panic)
      || (RemovalPanics(l.mg) && l.mg.deleted && (!ShouldDelete(l.mg) || Saw(h, false)))
  }

  predicate Explained(l: Local, h: History) {
    match l.pc
    case Fetching => h.first == None
    case Deferring(d) => d > 0
    case Reporting(out) => !out.Missing? && !out.LetGo? && !out.Panicked? && Excused(l, h, out)
    case Done(out) => Excused(l, h, out)
    case _ => true
  }

  lemma HandshakeExplained(c: Config, l: Local, now: Time, h: History)
    requires c.poll > 0 && Recalls(l, h)
    ensures Explained(OnHandshake(c, l, now), h)
  {
    LetGoExplained(l, h);
    FinalizerExplained(c, l, h);
  }

  lemma LetGoExplained(l: Local, h: History)
    requires Recalls(l, h)
    ensures l.mg.deleted && (!ShouldDelete(l.mg) || !l.present) ==> Explained(RemoveFinalizer(l), h)
  {
  }

  lemma FinalizerExplained(c: Config, l: Local, h: History)
    requires c.poll > 0
    ensures Explained(OnFinalizer(c, l), h)
  {
  }

  predicate Positive(c: Config) {
    c.poll > 0 && c.reobserve > 0
  }

  lemma ObservedExplained(c: Config, l: Local, a: Answer, now: Time, h: History)
    requires Positive(c) && l.pc.Observing? && Fits(Next(l), a) && Consistent(l, h)
    ensures Explained(Resume(c, l, a, now), Record(h, l, a))
  {
    if a.Observed? {
      var l1 := l.(present := a.present, upToDate := a.upToDate, lateInitialized := a.lateInitialized);
      HandshakeExplained(c, l1, now, Record(h, l, a));
    }
  }

  lemma WrittenExplained(c: Config, l: Local, a: Answer, now: Time, h: History)
    requires Positive(c) && (l.pc.Adopting? || l.pc.Clearing?)
    requires Fits(Next(l), a) && Consistent(l, h)
    ensures Explained(Resume(c, l, a, now), Record(h, l, a))
  {
    if a.Merged? {
      HandshakeExplained(c, l.(mg := a.o), now, Record(h, l, a));
    } else if a.Wrote? {
      HandshakeExplained(c, l.(mg := WithoutPending(l.mg).(version := a.version)), now, Record(h, l, a));
    }
  }

  lemma FetchedExplained(c: Config, l: Local, a: Answer, now: Time, h: History)
    requires l.pc.Fetching? && Fits(Next(l), a) && Consistent(l, h) && Explained(l, h)
    ensures Explained(Resume(c, l, a, now), Record(h, l, a))
  {
  }

  lemma GatedExplained(c: Config, l: Local, a: Answer, now: Time, h: History)
    requires l.pc.Gating? && Fits(Next(l), a) && (a.Deferred? ==> a.after > 0)
    ensures Explained(Resume(c, l, a, now), Record(h, l, a))
  {
  }

  lemma CalledExplained(c: Config, l: Local, a: Answer, now: Time, h: History)
    requires Positive(c) && !l.pc.Done? && Next(l).Call? && !l.pc.Observing?
    requires Fits(Next(l), a)
    ensures Explained(Resume(c, l, a, now), Record(h, l, a))
  {
  }

  lemma SavedExplained(c: Config, l: Local, a: Answer, now: Time, h: History)
    requires Positive(c) && (l.pc.Finalizing? || l.pc.LateInitializing? || l.pc.Unfinalizing?)
    requires Fits(Next(l), a) && Consistent(l, h) && h.first.Some?
    ensures Explained(Resume(c, l, a, now), Record(h, l, a))
  {
  }

  lemma MarkedExplained(c: Config, l: Local, a: Answer, now: Time, h: History)
    requires l.pc.Marking? || l.pc.StampingFailure? || l.pc.StampingSuccess?
    requires Fits(Next(l), a) && h.first.Some?
    ensures Explained(Resume(c, l, a, now), Record(h, l, a))
  {
  }

  lemma EndedExplained(c: Config, l: Local, a: Answer, now: Time, h: History)
    requires l.pc.Reporting? || l.pc.Deferring?
    requires Fits(Next(l), a) && Explained(l, h) && h.first.Some?
    ensures Explained(Resume(c, l, a, now), Record(h, l, a))
  {
  }

  lemma StepExplained(c: Config, l: Local, a: Answer, now: Time, h: History)
    requires Positive(c) && !l.pc.Done? && Fits(Next(l), a) && Consistent(l, h) && Explained(l, h)
    requires !l.pc.Fetching? ==> h.first.Some?
    requires a.Deferred? ==> a.after > 0
    ensures Explained(Resume(c, l, a, now), Record(h, l, a))
  {
    match l.pc
    case Fetching => FetchedExplained(c, l, a, now, h);
    case Observing => ObservedExplained(c, l, a, now, h);
    case Gating(_) => GatedExplained(c, l, a, now, h);
    case Adopting(_) => WrittenExplained(c, l, a, now, h);
    case Clearing => WrittenExplained(c, l, a, now, h);
    case Finalizing => SavedExplained(c, l, a, now, h);
    case LateInitializing => SavedExplained(c, l, a, now, h);
    case Unfinalizing => SavedExplained(c, l, a, now, h);
    case Marking(_) => MarkedExplained(c, l, a, now, h);
    case StampingFailure(_, _) => MarkedExplained(c, l, a, now, h);
    case StampingSuccess(_) => MarkedExplained(c, l, a, now, h);
    case Reporting(_) => EndedExplained(c, l, a, now, h);
    case Deferring(_) => EndedExplained(c, l, a, now, h);
    case _ => CalledExplained(c, l, a, now, h);
  }

  lemma {:induction false} RunExplained(c: Config, l: Local, turns: seq<Turn>, h: History)
    requires Positive(c) && DelaysPositive(turns)
    requires PassRun(c, l, turns) && Consistent(l, h) && Explained(l, h)
    requires !l.pc.Fetching? ==> h.first.Some?
    ensures Explained(PassEnd(c, l, turns), Summary(c, l, turns, h))
    decreases |turns|
  {
    if turns != [] {
      StepConsistent(c, l, turns[0].a, turns[0].now, h);
      StepExplained(c, l, turns[0].a, turns[0].now, h);
      RunExplained(c, Resume(c, l, turns[0].a, turns[0].now), turns[1..], Record(h, l, turns[0].a));
    }
  }

  /** Main result. Every pass that returns errs, requeues or comes back after a positive delay, unless
      its object was not found, was paused, or was deleted and lost the finalizer with nothing left to
      delete. */
  lemma NeverSilentlyDropped(c: Config, turns: seq<Turn>)
    requires Positive(c) && DelaysPositive(turns)
    requires PassRun(c, START, turns) && PassEnd(c, START, turns).pc.Done?
    ensures var l := PassEnd(c, START, turns); Excused(l, Whole(c, turns), l.pc.out)
  {
    RunExplained(c, START, turns, NO_HISTORY);
  }

  // ---- policies ----

  datatype Permits = Permits(create: bool, update: bool, delete: bool)

  function Allows(o: Object): Permits {
    Permits(ShouldCreate(o), ShouldUpdate(o), ShouldDelete(o))
  }

  /** The four management policies permit exactly the calls they name; the deletion policy speaks only
      under the default one, and an unknown policy permits nothing. */
  lemma PoliciesPermitExactly(o: Object)
    ensures Management(o) == (if TextAt(o.annotations, ManagementPolicy) == "" then "default"
                              else TextAt(o.annotations, ManagementPolicy))
    ensures Deletion(o) == (if TextAt(o.annotations, DeletionPolicy) == "" then "delete"
                            else TextAt(o.annotations, DeletionPolicy))
    ensures IsPaused(o) <==> Paused in o.annotations && o.annotations[Paused] == Text("true")
    ensures Management(o) == "default" ==> Allows(o) == Permits(true, true, Deletion(o) == "delete")
    ensures Management(o) == "observe-create-update" ==> Allows(o) == Permits(true, true, false)
    ensures Management(o) == "observe-delete" ==> Allows(o) == Permits(false, false, true)
    ensures Management(o) == "observe" ==> Allows(o) == Permits(false, false, false) && ShouldOnlyObserve(o)
    ensures Management(o) !in ["default", "observe-create-update", "observe-delete", "observe"] ==>
              Allows(o) == Permits(false, false, false) && !ShouldOnlyObserve(o)
  {
    assert "default"[0] != "observe"[0];
    assert |"observe-create-update"| != |"observe-delete"|;
  }
}
