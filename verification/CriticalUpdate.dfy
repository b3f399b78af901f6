/** UpdateCriticalAnnotations: re-read, merge, write back, and try again on API errors, while other
    writers go on (pkg/reconciler/api.go). */
module CriticalUpdate {
  import opened Clock
  import opened Meta
  import opened ManagedObjects
  import opened Handshake

  /** What a read returns: an error, or the object age versions ago (caches may be stale). */
  datatype Read = Missed(api: bool) | Saw(age: nat)

  /** What the API server says to a write of the current version. A refusal may hide a write that went
      through. */
  datatype Verdict = Accepted | Refused(api: bool, hidden: bool)

  /** One try: foreign writes, the read, more foreign writes, the write. */
  datatype Round = Round(before: seq<Object>, read: Read, between: seq<Object>, verdict: Verdict)

  /** How a try, or the whole update, ends. */
  datatype Ending = Done | ApiError | OtherError

  /** Every stored version, oldest first, and which of them the updater wrote. */
  datatype Trace = Trace(history: seq<Object>, own: set<nat>, ending: Ending, o: Object)

  predicate Versions(h: seq<Object>) {
    |h| > 0 && forall i, j :: 0 <= i < j < |h| ==> h[i].version < h[j].version
  }

  function Last(h: seq<Object>): Object
    requires |h| > 0
  {
    h[|h| - 1]
  }

  function Interfered(h: seq<Object>, os: seq<Object>): (r: seq<Object>)
    requires Versions(h)
    ensures Versions(r) && h <= r
    decreases |os|
  {
    if os == [] then h
    else Interfered(h + [os[0].(version := Last(h).version + 1)], os[1..])
  }

  /** The version a read age versions ago returns. */
  function ReadAt(h: seq<Object>, age: nat): Object
    requires |h| > 0
  {
    h[Max(0, |h| - 1 - age)]
  }

  /** A write of m, guarded by its version. */
  function Written(h: seq<Object>, m: Object, v: Verdict): (t: Trace)
    requires Versions(h)
    ensures Versions(t.history) && h <= t.history
  {
    var stored := m.(version := m.version + 1);
    if m.version != Last(h).version then Trace(h, {}, ApiError, m)
    else
      match v
      case Accepted => Trace(h + [stored], {|h|}, Done, stored)
      case Refused(api, hidden) =>
        Trace(if hidden then h + [stored] else h, if hidden then {|h|} else {}, if api then ApiError else OtherError, m)
  }

  function Annotated(o: Object, a: Annotations): Object {
    o.(annotations := o.annotations + a)
  }

  function Attempted(h: seq<Object>, a: Annotations, r: Round, o: Object): (t: Trace)
    requires Versions(h)
    ensures Versions(t.history) && h <= t.history
  {
    var h1 := Interfered(h, r.before);
    match r.read
    case Missed(api) => Trace(h1, {}, if api then ApiError else OtherError, o)
    case Saw(age) => Written(Interfered(h1, r.between), Annotated(ReadAt(h1, age), a), r.verdict)
  }

  /** Tries until one is stored, one fails with something other than an API error, or none is left. */
  function Updated(h: seq<Object>, a: Annotations, rounds: seq<Round>, o: Object): (t: Trace)
    requires Versions(h) && |rounds| > 0
    ensures Versions(t.history) && h <= t.history
    decreases |rounds|
  {
    var t := Attempted(h, a, rounds[0], o);
    if t.ending.ApiError? && |rounds| > 1 then
      var u := Updated(t.history, a, rounds[1..], t.o);
      u.(own := t.own + u.own)
    else t
  }

  /** The API server's copy of one object, and the other writers. */
  class Store {
    var history: seq<Object>

    ghost predicate Valid()
      reads this
    {
      Versions(history)
    }

    constructor (o: Object)
      ensures Valid() && history == [o]
    {
      history := [o];
    }

    method Interfere(os: seq<Object>)
      requires Valid()
      modifies this
      ensures Valid() && history == Interfered(old(history), os)
    {
      var i := 0;
      while i < |os|
        invariant 0 <= i <= |os| && Valid()
        invariant Interfered(history, os[i..]) == Interfered(old(history), os)
      {
        assert os[i..][1..] == os[i + 1..];
        history := history + [os[i].(version := history[|history| - 1].version + 1)];
        i := i + 1;
      }
    }

    /** Update goes through only on the current version. */
    method Update(o: ManagedObject, verdict: Verdict) returns (e: Ending)
      requires Valid()
      modifies this, o`version
      ensures Valid()
      ensures var t := Written(old(history), old(o.View()), verdict);
              history == t.history && e == t.ending && o.View() == t.o
    {
      var current := history[|history| - 1].version;
      if o.version != current {
        return ApiError;
      }
      if verdict.Accepted? || verdict.hidden {
        history := history + [o.View().(version := o.version + 1)];
      }
      if verdict.Accepted? {
        o.version := o.version + 1;
        return Done;
      }
      return if verdict.api then ApiError else OtherError;
    }
  }

  /** The function a retry runs. */
  method Attempt(store: Store, o: ManagedObject, a: Annotations, r: Round) returns (e: Ending)
    requires store.Valid()
    modifies store, o
    ensures store.Valid()
    ensures var t := Attempted(old(store.history), a, r, old(o.View()));
            store.history == t.history && e == t.ending && o.View() == t.o
  {
    store.Interfere(r.before);
    if r.read.Missed? {
      return if r.read.api then ApiError else OtherError;
    }
    o.Load(ReadAt(store.history, r.read.age));
    o.AddAnnotations(a);
    store.Interfere(r.between);
    e := store.Update(o, r.verdict);
  }

  /** UpdateCriticalAnnotations, with one round of surroundings for each try the retry policy allows. */
  method UpdateCriticalAnnotations(store: Store, o: ManagedObject, rounds: seq<Round>) returns (e: Ending)
    requires store.Valid() && |rounds| > 0
    modifies store, o
    ensures store.Valid()
    ensures var t := Updated(old(store.history), old(o.annotations), rounds, old(o.View()));
            store.history == t.history && e == t.ending && o.View() == t.o
  {
    var a := o.annotations;
    ghost var h0, o0 := store.history, o.View();
    var i := 1;
    e := Attempt(store, o, a, rounds[0]);
    while e.ApiError? && i < |rounds|
      invariant 1 <= i <= |rounds| && store.Valid()
      invariant if e.ApiError? && i < |rounds| then
                  SameEnd(Updated(store.history, a, rounds[i..], o.View()), Updated(h0, a, rounds, o0))
                else SameEnd(Trace(store.history, {}, e, o.View()), Updated(h0, a, rounds, o0))
    {
      assert rounds[i..][1..] == rounds[i + 1..];
      e := Attempt(store, o, a, rounds[i]);
      i := i + 1;
    }
  }

  /** Alike up to the record of who wrote what. */
  predicate SameEnd(t: Trace, u: Trace) {
    t.history == u.history && t.ending == u.ending && t.o == u.o
  }

  // ---- which tries are made ----

  lemma {:induction false} InterferedGrows(h: seq<Object>, os: seq<Object>)
    requires Versions(h)
    ensures |Interfered(h, os)| == |h| + |os|
    decreases |os|
  {
    if os != [] {
      InterferedGrows(h + [os[0].(version := Last(h).version + 1)], os[1..]);
    }
  }

  /** The read was not of the version that is current at the write. */
  predicate Stale(h: seq<Object>, r: Round)
    requires r.read.Saw?
  {
    r.between != [] || (r.read.age > 0 && |h| + |r.before| > 1)
  }

  /** Main result. How a try ends: a failed read by its error; a stale one as an API error, a conflict; a current one as
      the API server says. The read object with the annotations merged in is stored exactly when it was current, and
      accepted or hidden behind an error. */
  lemma TryExactly(h: seq<Object>, a: Annotations, r: Round, o: Object)
    requires Versions(h)
    ensures var t := Attempted(h, a, r, o);
            var refused := if r.verdict.Refused? && !r.verdict.api then OtherError else ApiError;
            && t.ending == (if r.read.Missed? then if r.read.api then ApiError else OtherError
                            else if Stale(h, r) then ApiError
                            else if r.verdict.Accepted? then Done
                            else refused)
            && (t.own != {} <==> r.read.Saw? && !Stale(h, r) && (r.verdict.Accepted? || r.verdict.hidden))
            && |t.history| == |h| + |r.before| + (if r.read.Saw? then |r.between| else 0) + (if t.own != {} then 1 else 0)
  {
    InterferedGrows(h, r.before);
    var h1 := Interfered(h, r.before);
    InterferedGrows(h1, r.between);
    if r.read.Saw? {
      var h2 := Interfered(h1, r.between);
      var i := Max(0, |h1| - 1 - r.read.age);
      assert h1[i] == h2[i];
    }
  }

  /** A trace that goes on with another. */
  function Then(t: Trace, u: Trace): Trace {
    u.(own := t.own + u.own)
  }

  lemma OneTry(h: seq<Object>, a: Annotations, r: Round, o: Object)
    requires Versions(h)
    ensures Updated(h, a, [r], o) == Attempted(h, a, r, o)
  {
  }

  /** Main result. More allowed tries are made exactly after an API error: they then go on from what the first ones
      left, and otherwise make no difference. */
  lemma {:induction false} MoreTries(h: seq<Object>, a: Annotations, first: seq<Round>, more: seq<Round>, o: Object)
    requires Versions(h) && first != [] && more != []
    ensures var t := Updated(h, a, first, o);
            Updated(h, a, first + more, o) ==
            if t.ending.ApiError? then Then(t, Updated(t.history, a, more, t.o)) else t
    decreases |first|
  {
    var all := first + more;
    assert all[0] == first[0] && all[1..] == first[1..] + more;
    var t := Attempted(h, a, first[0], o);
    if |first| == 1 {
      assert first[1..] + more == more;
    } else if t.ending.ApiError? {
      MoreTries(t.history, a, first[1..], more, t.o);
    }
  }

  // ---- what a run of it does to the object ----

  /** Everything the updater wrote in h, from version from on, is the version right before it with a merged
      in: nothing another writer did is lost. */
  predicate OwnWritesMerge(h: seq<Object>, own: set<nat>, a: Annotations, from: nat) {
    forall i :: i in own ==> from <= i && MergesAt(h, i, a)
  }

  predicate MergesAt(h: seq<Object>, i: nat, a: Annotations) {
    0 < i < |h| && h[i] == Merge(h[i - 1], a)
  }

  /** A guarded write goes through only over the version that was read. */
  lemma ReadTheCurrent(h1: seq<Object>, h2: seq<Object>, age: nat)
    requires Versions(h1) && Versions(h2) && h1 <= h2
    requires ReadAt(h1, age).version == Last(h2).version
    ensures ReadAt(h1, age) == Last(h2)
  {
    assert h1[Max(0, |h1| - 1 - age)] == h2[Max(0, |h1| - 1 - age)];
  }

  /** What a trace that starts from h keeps. */
  predicate Merging(h: seq<Object>, t: Trace, a: Annotations) {
    && OwnWritesMerge(t.history, t.own, a, |h|)
    && (t.ending.Done? ==> |t.history| > 0 && |t.history| - 1 in t.own && t.o == Last(t.history))
  }

  lemma WrittenMerges(h: seq<Object>, h2: seq<Object>, o: Object, a: Annotations, v: Verdict)
    requires Versions(h2) && 0 < |h| <= |h2|
    requires o.version == Last(h2).version ==> o == Last(h2)
    ensures Merging(h, Written(h2, Annotated(o, a), v), a)
  {
  }

  lemma AttemptMerges(h: seq<Object>, a: Annotations, r: Round, o: Object)
    requires Versions(h)
    ensures Merging(h, Attempted(h, a, r, o), a)
  {
    if r.read.Saw? {
      var h1 := Interfered(h, r.before);
      var h2 := Interfered(h1, r.between);
      var m := ReadAt(h1, r.read.age);
      if m.version == Last(h2).version {
        ReadTheCurrent(h1, h2, r.read.age);
      }
      WrittenMerges(h, h2, m, a, r.verdict);
    }
  }

  lemma RetryMerges(h: seq<Object>, t: Trace, u: Trace, a: Annotations)
    requires h <= t.history <= u.history
    requires Merging(h, t, a) && Merging(t.history, u, a)
    ensures Merging(h, u.(own := t.own + u.own), a)
  {
    forall i | i in t.own ensures MergesAt(u.history, i, a) {
      assert MergesAt(t.history, i, a);
    }
  }

  /** Every version the update stores, in whichever try, reported or not, merges a into the version
      before it. */
  lemma {:induction false} UpdateMerges(h: seq<Object>, a: Annotations, rounds: seq<Round>, o: Object)
    requires Versions(h) && |rounds| > 0
    ensures Merging(h, Updated(h, a, rounds, o), a)
    decreases |rounds|
  {
    var t := Attempted(h, a, rounds[0], o);
    AttemptMerges(h, a, rounds[0], o);
    if t.ending.ApiError? && |rounds| > 1 {
      var u := Updated(t.history, a, rounds[1..], t.o);
      UpdateMerges(t.history, a, rounds[1..], t.o);
      RetryMerges(h, t, u, a);
    }
  }

  /** Main result. When the update succeeds, the version it stored is the very version before it with the
      annotations merged in, however stale its reads were and whatever was written meanwhile. */
  lemma SuccessMergesTheLatest(h: seq<Object>, a: Annotations, rounds: seq<Round>, o: Object, t: Trace)
    requires Versions(h) && |rounds| > 0
    requires t == Updated(h, a, rounds, o) && t.ending.Done?
    ensures |t.history| > |h| && t.o == Last(t.history) == Merge(t.history[|t.history| - 2], a)
  {
    UpdateMerges(h, a, rounds, o);
    DoneIsLast(h, t, a);
  }

  lemma DoneIsLast(h: seq<Object>, t: Trace, a: Annotations)
    requires 0 < |h| && Merging(h, t, a) && t.ending.Done?
    ensures |t.history| > |h| && t.o == Last(t.history) == Merge(t.history[|t.history| - 2], a)
  {
    assert MergesAt(t.history, |t.history| - 1, a);
  }

  function ValueAt(o: Object, k: Key): Option<Value> {
    if k in o.annotations then Some(o.annotations[k]) else None
  }

  /** The other writers leave annotation k alone. */
  predicate OthersLeave(h: seq<Object>, own: set<nat>, k: Key, from: nat) {
    forall i :: from <= i < |h| && i !in own ==> KeepsAt(h, i, k)
  }

  predicate KeepsAt(h: seq<Object>, i: nat, k: Key) {
    0 < i < |h| && ValueAt(h[i], k) == ValueAt(h[i - 1], k)
  }

  /** From one own write on, or from the start when a does not name k, k's value is settled. */
  lemma {:induction false} Settled(h: seq<Object>, own: set<nat>, a: Annotations, k: Key, from: nat, i: nat, n: nat)
    requires OwnWritesMerge(h, own, a, from) && OthersLeave(h, own, k, from)
    requires 0 < from <= i + 1 && i <= n < |h|
    requires k in a ==> ValueAt(h[i], k) == Some(a[k])
    ensures ValueAt(h[n], k) == if k in a then Some(a[k]) else ValueAt(h[i], k)
    decreases n
  {
    if i < n {
      Settled(h, own, a, k, from, i, n - 1);
      assert n in own ==> MergesAt(h, n, a);
    }
  }

  /** A trace whose own writes merge a in leaves an annotation that a does not name as it was. */
  lemma MergesKeep(t: Trace, h: seq<Object>, a: Annotations, k: Key)
    requires 0 < |h| && h <= t.history && OwnWritesMerge(t.history, t.own, a, |h|)
    requires OthersLeave(t.history, t.own, k, |h|) && k !in a
    ensures ValueAt(Last(t.history), k) == ValueAt(Last(h), k)
    ensures StampAt(Last(t.history).annotations, k) == StampAt(Last(h).annotations, k)
  {
    Settled(t.history, t.own, a, k, |h|, |h| - 1, |t.history| - 1);
    assert t.history[|h| - 1] == Last(h);
  }

  lemma MergesStay(t: Trace, h: seq<Object>, a: Annotations, k: Key)
    requires 0 < |h| && h <= t.history && OwnWritesMerge(t.history, t.own, a, |h|)
    requires OthersLeave(t.history, t.own, k, |h|) && k in a && t.own != {}
    ensures ValueAt(Last(t.history), k) == Some(a[k])
  {
    var i :| i in t.own;
    assert MergesAt(t.history, i, a);
    Settled(t.history, t.own, a, k, |h|, i, |t.history| - 1);
  }

  /** Main result. The update cannot delete: an annotation it does not carry, such as a pending marker
      taken off the object in memory, is exactly what it was before the update. */
  lemma CannotClear(h: seq<Object>, a: Annotations, rounds: seq<Round>, o: Object, k: Key)
    requires Versions(h) && |rounds| > 0 && k !in a
    requires OthersLeave(Updated(h, a, rounds, o).history, Updated(h, a, rounds, o).own, k, |h|)
    ensures var last := Last(Updated(h, a, rounds, o).history);
            ValueAt(last, k) == ValueAt(Last(h), k) && StampAt(last.annotations, k) == StampAt(Last(h).annotations, k)
  {
    UpdateMerges(h, a, rounds, o);
    MergesKeep(Updated(h, a, rounds, o), h, a, k);
  }

  /** Main result. Once any try was stored, even one whose success was never reported, the annotations
      stay stored through all the tries that follow. */
  lemma OnceStoredStays(h: seq<Object>, a: Annotations, rounds: seq<Round>, o: Object, k: Key)
    requires Versions(h) && |rounds| > 0 && k in a
    requires var t := Updated(h, a, rounds, o);
             t.own != {} && OthersLeave(t.history, t.own, k, |h|)
    ensures ValueAt(Last(Updated(h, a, rounds, o).history), k) == Some(a[k])
  {
    UpdateMerges(h, a, rounds, o);
    MergesStay(Updated(h, a, rounds, o), h, a, k);
  }
}
