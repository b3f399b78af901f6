/** A pass whose gated calls go through a governor. */
module GovernedPass {
  import opened Clock
  import opened GovernorState
  import opened GovernorRuns
  import opened GovernorDelays
  import opened ReconcilePass
  import opened PassEffects

  /** A gated call's question to the governor: what happened to the governor before, and the call. */
  datatype Question = Question(ops: seq<Op>, keys: seq<string>, now: Time, draw: Option<nat>)

  function StateAt(s: Setup, q: Question): System {
    GovernorRuns.After(s, Begin(s), q.ops)
  }

  function AnswerTo(s: Setup, q: Question): Option<GovernorState.Deferral> {
    GovernorRuns.Answer(s, StateAt(s, q), q.keys, q.now, q.draw)
  }

  /** Every deferral of the pass is the governor's answer to the question asked then. */
  predicate Governed(s: Setup, turns: seq<Turn>, asked: seq<Question>) {
    && |asked| == |turns|
    && forall i :: 0 <= i < |turns| && turns[i].a.Deferred? ==>
         var d := AnswerTo(s, asked[i]);
         d.Some? && turns[i].a.after == d.value.requeueAfter
  }

  /** What a question finds before it is asked: the call awaits the startup ramp, and no time left on it. */
  predicate FindsNoTime(s: Setup, q: Question) {
    var y := StateAt(s, q);
    AwaitsRamp(s, y, q.keys, q.now) && RampLeft(s, y.g, y.g.local.capacity) <= 0
  }

  /** A pass does nothing more once it was deferred: it returns the delay, or an error. */
  lemma {:induction false} DeferralDecides(c: Config, l: Local, turns: seq<Turn>, i: nat)
    requires PassRun(c, l, turns) && PassEnd(c, l, turns).pc.Done? && i < |turns| && turns[i].a.Deferred?
    ensures i == |turns| - 2
    ensures PassEnd(c, l, turns).pc.out in {Outcome.After(turns[i].a.after), Errored}
    decreases |turns|
  {
    var l' := Resume(c, l, turns[0].a, turns[0].now);
    if i > 0 {
      DeferralDecides(c, l', turns[1..], i - 1);
    } else {
      DeferredIsLast(c, l', turns[1..], turns[0].a.after);
    }
  }

  lemma DeferredIsLast(c: Config, l: Local, turns: seq<Turn>, after: int)
    requires l.pc == Deferring(after) && PassRun(c, l, turns) && PassEnd(c, l, turns).pc.Done?
    ensures |turns| == 1 && PassEnd(c, l, turns).pc.out in {Outcome.After(after), Errored}
  {
    var l' := Resume(c, l, turns[0].a, turns[0].now);
    assert PassRun(c, l', turns[1..]) && l'.pc.Done?;
    assert turns[1..] == [];
  }

  /** The pass returned the delay of a question that found no time left. */
  predicate Lost(s: Setup, turns: seq<Turn>, asked: seq<Question>, out: Outcome)
    requires |asked| == |turns|
  {
    exists i :: 0 <= i < |turns| && turns[i].a.Deferred? && FindsNoTime(s, asked[i]) && out == Outcome.After(turns[i].a.after)
  }

  lemma PositiveExactly(s: Setup, turns: seq<Turn>, asked: seq<Question>, i: nat)
    requires Sensible(s) && Governed(s, turns, asked) && i < |turns| && turns[i].a.Deferred?
    ensures turns[i].a.after > 0 <==> !FindsNoTime(s, asked[i])
  {
    DelayPositiveExactly(s, StateAt(s, asked[i]), asked[i].keys, asked[i].now, asked[i].draw);
  }

  /** Main result, end to end. A pass whose deferrals are a governor's answers errs, requeues or comes back
      after a positive delay, or has one of the three excuses, if and only if it did not return the delay of
      a call that awaited the startup ramp with no time left on it. */
  lemma GovernedPassNeverDropped(s: Setup, c: Config, turns: seq<Turn>, asked: seq<Question>)
    requires Sensible(s) && Positive(c) && Governed(s, turns, asked)
    requires PassRun(c, START, turns) && PassEnd(c, START, turns).pc.Done?
    ensures var l := PassEnd(c, START, turns);
            Excused(l, Whole(c, turns), l.pc.out) <==> !Lost(s, turns, asked, l.pc.out)
  {
    var out := PassEnd(c, START, turns).pc.out;
    if i :| 0 <= i < |turns| && turns[i].a.Deferred? && turns[i].a.after <= 0 {
      DeferralDecides(c, START, turns, i);
      PositiveExactly(s, turns, asked, i);
      forall j | 0 <= j < |turns| && turns[j].a.Deferred? ensures j == i {
        DeferralDecides(c, START, turns, j);
      }
    } else {
      NeverSilentlyDropped(c, turns);
      forall i | 0 <= i < |turns| && turns[i].a.Deferred? ensures !FindsNoTime(s, asked[i]) {
        PositiveExactly(s, turns, asked, i);
      }
    }
  }

  /** Ordinary settings never lose a pass: saturation off, or a ramp whose whole time fits a duration, once
      a sample was taken or more than one worker shares the governor. */
  lemma OrdinarySettingsKeepTime(s: Setup, q: Question)
    requires Sensible(s) && ClockStarted(q.ops)
    requires var g := StateAt(s, q).g;
             || s.saturation.None?
             || (ExactRampLeft(s, g) <= MAX_DURATION && (g.memory.lastStep != 0 || Ceiling(s, g) > 1))
    ensures !FindsNoTime(s, q)
  {
    LostOnlyTwoWays(s, q.ops);
    BeginSound(s);
    AlwaysSound(s, Begin(s), q.ops);
  }
}
