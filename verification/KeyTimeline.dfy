/** The timeline of one key: cuts by signals, the server's hold, and additive recovery
    (pkg/ratelimit/governor.go). */
module KeyTimeline {
  import opened Arithmetic
  import opened Clock
  import opened Signals

  /** A key's capacity, the server's deadline, and when capacity was last cut and last raised. */
  datatype Line = Line(capacity: int, holdUntil: Time, lastReduce: Time, lastRaise: Time)

  const CAPACITY_FLOOR := 1

  /** The clean interval counts from the later of the last cut and the end of the hold. */
  function CleanSince(l: Line): Time {
    if l.holdUntil > l.lastReduce then l.holdUntil else l.lastReduce
  }

  /** maybeRaiseLocked. */
  function Raised(l: Line, ceiling: int, recovery: int, now: Time): Line {
    if l.capacity >= ceiling || now < l.holdUntil then l
    else if Sub(now, CleanSince(l)) < recovery || Sub(now, l.lastRaise) < recovery then l
    else l.(capacity := l.capacity + 1, lastRaise := now)
  }

  /** A signal of kind, as Observe folds it in. */
  function Signalled(l: Line, s: Signal, now: Time): Line {
    match Classify(s, now)
    case Nothing => l
    case Throttled =>
      l.(capacity := CAPACITY_FLOOR, lastReduce := now,
         holdUntil := if Deadline(s, now) > l.holdUntil then Deadline(s, now) else l.holdUntil)
    case Advisory => l.(capacity := Max(CAPACITY_FLOOR, l.capacity / 2), lastReduce := now)
  }

  /** Registration lifts a capacity that stands at the old ceiling. */
  function Lifted(l: Line, was: int, ceiling: int): Line {
    if l.capacity == was then l.(capacity := ceiling) else l
  }

  // ---- recovery between registrations ----

  function Touches(l: Line, ceiling: int, recovery: int, at: seq<Time>): Line
    decreases |at|
  {
    if at == [] then l else Touches(Raised(l, ceiling, recovery, at[0]), ceiling, recovery, at[1..])
  }

  predicate Ordered(t: Time, at: seq<Time>)
    decreases |at|
  {
    at == [] || (t <= at[0] && Ordered(at[0], at[1..]))
  }

  function LastTime(t: Time, at: seq<Time>): Time
    decreases |at|
  {
    if at == [] then t else LastTime(at[0], at[1..])
  }

  /** Capacity above c was earned one raise at a time, recovery apart, since base. */
  predicate Earned(l: Line, c: int, base: int, recovery: int, now: Time) {
    && l.lastRaise <= now
    && CleanSince(l) == base
    && c <= l.capacity
    && (l.capacity == c || (base <= l.lastRaise && (l.capacity - c) * recovery <= l.lastRaise - base))
  }

  lemma RaisedEarned(l: Line, ceiling: int, recovery: int, at: Time, c: int, base: int, now: Time)
    requires 0 < recovery <= MAX_DURATION && now <= at && Earned(l, c, base, recovery, now)
    ensures Earned(Raised(l, ceiling, recovery, at), c, base, recovery, at)
  {
    OneMore(l.capacity - c, recovery);
  }

  lemma {:induction false} TouchesEarned(
    l: Line, ceiling: int, recovery: int, at: seq<Time>, c: int, base: int, now: Time)
    requires 0 < recovery <= MAX_DURATION
    requires Earned(l, c, base, recovery, now) && Ordered(now, at)
    ensures Earned(Touches(l, ceiling, recovery, at), c, base, recovery, LastTime(now, at))
    decreases |at|
  {
    if at != [] {
      RaisedEarned(l, ceiling, recovery, at[0], c, base, now);
      TouchesEarned(Raised(l, ceiling, recovery, at[0]), ceiling, recovery, at[1..], c, base, at[0]);
    }
  }

  lemma EarnedBound(l: Line, c: int, base: int, recovery: int, now: Time)
    requires 0 < recovery && Earned(l, c, base, recovery, now)
    ensures l.capacity <= c + Max(0, (now - base) / recovery)
  {
    if l.capacity > c {
      var q := (now - base) / recovery;
      if l.capacity - c > q {
        assert (q + 1) * recovery > now - base;
        MoreIsMore(q + 1, l.capacity - c, recovery);
      }
    }
  }

  /** Main result. After a cut to capacity c with base the later of the cut and the end of the hold, and
      until the next registration or cut, capacity at time t is at most
      c + max(0, floor((t - base) / RecoveryInterval)), however often the key is touched. */
  lemma RecoveryBound(l: Line, ceiling: int, recovery: int, at: seq<Time>)
    requires 0 < recovery <= MAX_DURATION
    requires l.lastRaise <= l.lastReduce && Ordered(l.lastReduce, at)
    ensures var t := LastTime(l.lastReduce, at);
            Touches(l, ceiling, recovery, at).capacity <=
            l.capacity + Max(0, (t - CleanSince(l)) / recovery)
  {
    TouchesEarned(l, ceiling, recovery, at, l.capacity, CleanSince(l), l.lastReduce);
    EarnedBound(Touches(l, ceiling, recovery, at), l.capacity, CleanSince(l), recovery, LastTime(l.lastReduce, at));
  }

  /** Every touch comes at least recovery after the one before, the first after t. */
  predicate Spaced(t: Time, at: seq<Time>, recovery: int)
    decreases |at|
  {
    at == [] || (t + recovery <= at[0] && Spaced(at[0], at[1..], recovery))
  }

  lemma {:induction false} SpacedTouchesClimb(l: Line, ceiling: int, recovery: int, at: seq<Time>, t: Time)
    requires 0 < recovery <= MAX_DURATION
    requires l.lastRaise <= t && CleanSince(l) <= t && l.capacity <= ceiling
    requires Spaced(t, at, recovery)
    ensures Touches(l, ceiling, recovery, at).capacity == Min(ceiling, l.capacity + |at|)
    decreases |at|
  {
    if at != [] {
      SpacedTouchesClimb(Raised(l, ceiling, recovery, at[0]), ceiling, recovery, at[1..], at[0]);
    }
  }

  /** Main result. n touches spaced RecoveryInterval apart after the base bring a cut key to exactly
      min(ceiling, c + n). */
  lemma RecoveryExact(l: Line, ceiling: int, recovery: int, at: seq<Time>)
    requires 0 < recovery <= MAX_DURATION
    requires l.lastRaise <= l.lastReduce && l.capacity <= ceiling
    requires Spaced(CleanSince(l), at, recovery)
    ensures Touches(l, ceiling, recovery, at).capacity == Min(ceiling, l.capacity + |at|)
  {
    SpacedTouchesClimb(l, ceiling, recovery, at, CleanSince(l));
  }
}
