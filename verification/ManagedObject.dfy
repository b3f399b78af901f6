/** The metadata helpers that change an object in place (pkg/meta/meta.go). */
module ManagedObjects {
  import opened Clock
  import opened Meta

  predicate AtMostOnce(s: seq<string>, f: string) {
    forall i, j :: 0 <= i < j < |s| && s[i] == f ==> s[j] != f
  }

  /** f occurs more than once. */
  predicate Twice(s: seq<string>, f: string) {
    exists i, j :: 0 <= i < j < |s| && s[i] == f && s[j] == f
  }

  /** No two entries in a row are f. */
  predicate NeverInARow(s: seq<string>, f: string) {
    forall i :: 0 < i < |s| && s[i - 1] == f ==> s[i] != f
  }

  lemma PanicsExactly(s: seq<string>, f: string)
    ensures TwiceAndLast(s, f) <==> Twice(s, f) && EndsWith(s, f)
  {
    if s != [] {
      assert forall i :: 0 <= i < |s| - 1 ==> s[..|s| - 1][i] == s[i];
    }
  }

  /** What append(b[:i], b[i+1:kept]...) leaves in the backing array. */
  function CutOut(b: seq<string>, i: nat, kept: int): (c: seq<string>)
    requires i < kept <= |b|
    ensures |c| == |b|
  {
    seq(|b|, j requires 0 <= j < |b| => if i <= j < kept - 1 then b[j + 1] else b[j])
  }

  /** What the sweep comes to from entry i on, with kept entries left: whether it panics, and the list. */
  function SweptFrom(f: string, b: seq<string>, i: nat, kept: int): (bool, seq<string>)
    requires i <= |b| && 0 <= kept <= |b|
    decreases |b| - i
  {
    if i == |b| then (false, b[..kept])
    else if b[i] != f then SweptFrom(f, b, i + 1, kept)
    else if i + 1 > kept then (true, b)
    else SweptFrom(f, CutOut(b, i, kept), i + 1, kept - 1)
  }

  /** The loop of RemoveFinalizer ranges over the list as it was and shrinks it in place: taking out an entry
      moves the ones after it down, and the last one stays behind past the new end. Slicing from there
      panics. */
  method Sweep(s: seq<string>, f: string) returns (panicked: bool, rest: seq<string>)
    ensures panicked <==> Twice(s, f) && EndsWith(s, f)
    ensures !panicked ==> rest == Swept(s, f)
  {
    UncutLeaves(f, s, 0);
    var backing, kept := s, |s|;
    for i := 0 to |s|
      invariant |backing| == |s| && 0 <= kept <= |s|
      invariant SweptFrom(f, backing, i, kept) == SweptFrom(f, s, 0, |s|)
    {
      if backing[i] == f {
        if i + 1 > kept {
          return true, backing;
        }
        backing, kept := CutOut(backing, i, kept), kept - 1;
      }
    }
    return false, backing[..kept];
  }

  /** Once something was taken out, the last entry stands behind the kept ones as well. */
  ghost predicate Stale(b: seq<string>, i: nat, kept: nat) {
    && kept < |b| && i <= |b|
    && (forall j :: kept <= j < |b| ==> b[j] == b[|b| - 1])
    && (i < kept ==> b[kept - 1] == b[|b| - 1])
  }

  lemma CutStaysStale(b: seq<string>, i: nat, kept: nat)
    requires Stale(b, i, kept) && i < kept
    ensures Stale(CutOut(b, i, kept), i + 1, kept - 1)
    ensures CutOut(b, i, kept)[|b| - 1] == b[|b| - 1]
  {
  }

  /** A stale entry that is f panics. */
  lemma {:induction false} StalePanics(f: string, b: seq<string>, i: nat, kept: nat)
    requires Stale(b, i, kept) && i < |b| && b[|b| - 1] == f
    ensures SweptFrom(f, b, i, kept).0
    decreases |b| - i
  {
    if b[i] != f {
      StalePanics(f, b, i + 1, kept);
    } else if i + 1 <= kept {
      CutStaysStale(b, i, kept);
      StalePanics(f, CutOut(b, i, kept), i + 1, kept - 1);
    }
  }

  /** What the kept entries come to, the first i being settled. */
  function Settled(f: string, b: seq<string>, i: nat, kept: nat): seq<string>
    requires kept <= |b|
  {
    if i <= kept then b[..i] + Swept(b[i..kept], f) else b[..kept]
  }

  lemma PassSettles(f: string, b: seq<string>, i: nat, kept: nat)
    requires kept <= |b| && i < |b| && b[i] != f
    ensures Settled(f, b, i + 1, kept) == Settled(f, b, i, kept)
  {
    if i < kept {
      assert b[i..kept][1..] == b[i + 1..kept] && b[..i + 1] == b[..i] + [b[i]];
      Regroup(b[..i], b[i], Swept(b[i + 1..kept], f));
    } else if i == kept {
      assert b[i..kept] == [] && b[..i] + [] == b[..kept];
    }
  }

  lemma CutSettles(f: string, b: seq<string>, i: nat, kept: nat)
    requires i + 1 < kept <= |b| && b[i] == f
    ensures Settled(f, CutOut(b, i, kept), i + 1, kept - 1) == Settled(f, b, i, kept)
  {
    var c := CutOut(b, i, kept);
    assert c[..i + 1] == b[..i] + [b[i + 1]] && c[i + 1..kept - 1] == b[i + 2..kept];
    assert b[i..kept][2..] == b[i + 2..kept] && b[i..kept][1] == b[i + 1];
    Regroup(b[..i], b[i + 1], Swept(b[i + 2..kept], f));
  }

  lemma Regroup(a: seq<string>, x: string, b: seq<string>)
    ensures (a + [x]) + b == a + ([x] + b)
  {
  }

  /** Otherwise the sweep goes through, and skips the entry after each that it takes out. */
  lemma {:induction false} StaleSettles(f: string, b: seq<string>, i: nat, kept: nat)
    requires Stale(b, i, kept) && b[|b| - 1] != f
    ensures SweptFrom(f, b, i, kept) == (false, Settled(f, b, i, kept))
    decreases |b| - i
  {
    if i == |b| {
    } else if b[i] != f {
      StaleSettles(f, b, i + 1, kept);
      PassSettles(f, b, i, kept);
    } else {
      EndIsFar(f, b, i, kept);
      CutStaysStale(b, i, kept);
      StaleSettles(f, CutOut(b, i, kept), i + 1, kept - 1);
      CutSettles(f, b, i, kept);
    }
  }

  lemma EndIsFar(f: string, b: seq<string>, i: nat, kept: nat)
    requires Stale(b, i, kept) && i < |b| && b[i] == f != b[|b| - 1]
    ensures i + 1 < kept
  {
  }

  /** Up to the first entry that is f nothing is taken out. */
  lemma {:induction false} UncutLeaves(f: string, b: seq<string>, i: nat)
    requires i <= |b| && f !in b[..i]
    ensures SweptFrom(f, b, i, |b|).0 <==> Twice(b, f) && EndsWith(b, f)
    ensures !SweptFrom(f, b, i, |b|).0 ==> SweptFrom(f, b, i, |b|).1 == Settled(f, b, i, |b|)
    ensures Settled(f, b, 0, |b|) == Swept(b, f)
    decreases |b| - i
  {
    assert b[..0] == [] && b[0..] == b && b[..|b|] == b;
    if i == |b| {
      assert b[|b|..|b|] == [];
    } else if b[i] != f {
      assert b[..i + 1] == b[..i] + [b[i]];
      UncutLeaves(f, b, i + 1);
      PassSettles(f, b, i, |b|);
    } else {
      FirstAgain(f, b, i);
      FirstCutLeaves(f, b, i);
    }
  }

  lemma FirstAgain(f: string, b: seq<string>, i: nat)
    requires i < |b| && f !in b[..i] && b[i] == f
    ensures Twice(b, f) && EndsWith(b, f) <==> i < |b| - 1 && b[|b| - 1] == f
  {
    assert forall j :: 0 <= j < i ==> b[j] == b[..i][j];
  }

  lemma FirstCutIsStale(f: string, b: seq<string>, i: nat)
    requires i < |b| - 1
    ensures Stale(CutOut(b, i, |b|), i + 1, |b| - 1) && CutOut(b, i, |b|)[|b| - 1] == b[|b| - 1]
  {
  }

  lemma OnlyLastLeaves(f: string, b: seq<string>)
    requires b != [] && b[|b| - 1] == f
    ensures SweptFrom(f, b, |b| - 1, |b|) == (false, Settled(f, b, |b| - 1, |b|))
  {
    var last := |b| - 1;
    assert CutOut(b, last, |b|)[..last] == b[..last] && b[last..|b|] == [f] && b[..last] + [] == b[..last];
  }

  lemma AfterFirstCut(f: string, b: seq<string>, i: nat)
    requires i < |b| - 1
    ensures var (panicked, rest) := SweptFrom(f, CutOut(b, i, |b|), i + 1, |b| - 1);
            && (panicked <==> b[|b| - 1] == f)
            && (!panicked ==> rest == Settled(f, CutOut(b, i, |b|), i + 1, |b| - 1))
  {
    var c := CutOut(b, i, |b|);
    FirstCutIsStale(f, b, i);
    if b[|b| - 1] == f {
      StalePanics(f, c, i + 1, |b| - 1);
    } else {
      StaleSettles(f, c, i + 1, |b| - 1);
    }
  }

  lemma FirstCutLeaves(f: string, b: seq<string>, i: nat)
    requires i < |b| && b[i] == f
    ensures var (panicked, rest) := SweptFrom(f, b, i, |b|);
            && (panicked <==> i < |b| - 1 && b[|b| - 1] == f)
            && (!panicked ==> rest == Settled(f, b, i, |b|))
  {
    if i == |b| - 1 {
      OnlyLastLeaves(f, b);
    } else {
      AfterFirstCut(f, b, i);
      CutSettles(f, b, i, |b|);
    }
  }

  class ManagedObject {
    var version: nat
    var annotations: Annotations
    var finalizers: seq<string>
    var deleted: bool

    constructor ()
      ensures View() == Object(0, map[], [], false)
    {
      version, annotations, finalizers, deleted := 0, map[], [], false;
    }

    function View(): Object
      reads this
    {
      Object(version, annotations, finalizers, deleted)
    }

    /** What deserializing the API server's reply does. */
    method Load(o: Object)
      modifies this
      ensures View() == o
    {
      version, annotations, finalizers, deleted := o.version, o.annotations, o.finalizers, o.deleted;
    }

    method FinalizerExists(finalizer: string) returns (found: bool)
      ensures found == (finalizer in finalizers)
    {
      for i := 0 to |finalizers|
        invariant finalizer !in finalizers[..i]
      {
        if finalizers[i] == finalizer {
          return true;
        }
      }
      return false;
    }

    method AddFinalizer(finalizer: string)
      modifies this`finalizers
      ensures finalizers == if finalizer in old(finalizers) then old(finalizers) else old(finalizers) + [finalizer]
    {
      for i := 0 to |finalizers|
        invariant finalizers == old(finalizers) && finalizer !in finalizers[..i]
      {
        if finalizers[i] == finalizer {
          return;
        }
      }
      finalizers := finalizers + [finalizer];
    }

    method RemoveFinalizer(finalizer: string) returns (panicked: bool)
      modifies this`finalizers
      ensures panicked <==> TwiceAndLast(old(finalizers), finalizer)
      ensures !panicked ==> finalizers == Swept(old(finalizers), finalizer)
    {
      PanicsExactly(finalizers, finalizer);
      panicked, finalizers := Sweep(finalizers, finalizer);
    }

    method AddAnnotations(m: Annotations)
      modifies this`annotations
      ensures annotations == old(annotations) + m
    {
      var rest := m.Keys;
      while rest != {}
        invariant rest <= m.Keys
        invariant annotations == old(annotations) + map k | k in m && k !in rest :: m[k]
      {
        var k :| k in rest;
        annotations := annotations[k := m[k]];
        rest := rest - {k};
      }
    }

    method RemoveAnnotations(keys: seq<Key>)
      modifies this`annotations
      ensures annotations == old(annotations) - set k | k in keys
    {
      for i := 0 to |keys|
        invariant annotations == old(annotations) - set k | k in keys[..i]
      {
        assert keys[..i + 1] == keys[..i] + [keys[i]];
        annotations := annotations - {keys[i]};
      }
      assert keys[..|keys|] == keys;
    }

    method SetExternalCreatePending(t: Time)
      modifies this`annotations
      ensures View() == WithStamp(old(View()), CreatePending, Truncated(t))
    {
      AddAnnotations(map[CreatePending := Stamp(Truncated(t))]);
    }

    method SetExternalCreateSucceeded(t: Time)
      modifies this`annotations
      ensures View() == WithStamp(old(View()), CreateSucceeded, Truncated(t))
    {
      AddAnnotations(map[CreateSucceeded := Stamp(Truncated(t))]);
    }

    method SetExternalCreateFailed(t: Time)
      modifies this`annotations
      ensures View() == WithStamp(old(View()), CreateFailed, Truncated(t))
    {
      AddAnnotations(map[CreateFailed := Stamp(Truncated(t))]);
    }
  }

  /** What taking a finalizer off should leave. */
  function Without(s: seq<string>, f: string): seq<string> {
    if s == [] then []
    else if s[0] == f then Without(s[1..], f)
    else [s[0]] + Without(s[1..], f)
  }

  lemma {:induction false} WithoutAbsent(s: seq<string>, f: string)
    requires f !in s
    ensures Without(s, f) == s
  {
    if s != [] {
      WithoutAbsent(s[1..], f);
    }
  }

  lemma {:induction false} WithoutLength(s: seq<string>, f: string)
    ensures |Without(s, f)| <= |s|
    ensures f !in Without(s, f)
  {
    if s != [] {
      WithoutLength(s[1..], f);
    }
  }

  /** The sweep leaves just the other entries exactly when the finalizer never stands twice in a row. */
  lemma {:induction false} SweptExactly(s: seq<string>, f: string)
    ensures Swept(s, f) == Without(s, f) <==> NeverInARow(s, f)
    decreases |s|
  {
    if s == [] {
    } else if s[0] != f {
      SweptExactly(s[1..], f);
      assert forall i :: 0 <= i < |s[1..]| ==> s[1..][i] == s[i + 1];
      assert NeverInARow(s, f) <==> NeverInARow(s[1..], f) by {
        if NeverInARow(s[1..], f) {
          forall i | 0 < i < |s| && s[i - 1] == f ensures s[i] != f {
            assert s[1..][i - 2] == f;
          }
        }
      }
      assert ([s[0]] + Swept(s[1..], f))[1..] == Swept(s[1..], f);
      assert ([s[0]] + Without(s[1..], f))[1..] == Without(s[1..], f);
    } else if |s| == 1 {
      assert s[1..] == [];
    } else if s[1] == f {
      WithoutLength(s, f);
      assert Swept(s, f)[0] == f;
      assert !NeverInARow(s, f);
    } else {
      SkipsOne(s, f);
    }
  }

  lemma SkipsOne(s: seq<string>, f: string)
    requires |s| >= 2 && s[0] == f && s[1] != f
    ensures Swept(s, f) == Without(s, f) <==> NeverInARow(s, f)
    decreases |s|, 0
  {
    SweptExactly(s[2..], f);
    assert s[1..][1..] == s[2..];
    assert Without(s, f) == [s[1]] + Without(s[2..], f);
    assert forall i :: 0 <= i < |s[2..]| ==> s[2..][i] == s[i + 2];
    assert NeverInARow(s, f) <==> NeverInARow(s[2..], f) by {
      if NeverInARow(s[2..], f) {
        forall i | 0 < i < |s| && s[i - 1] == f ensures s[i] != f {
          if i > 2 {
            assert s[2..][i - 3] == f;
          }
        }
      }
    }
    assert ([s[1]] + Swept(s[2..], f))[1..] == Swept(s[2..], f);
    assert ([s[1]] + Without(s[2..], f))[1..] == Without(s[2..], f);
  }

  /** Main result. Taking a finalizer out neither panics nor leaves any of it behind exactly when the list holds
      it at most once, or never twice in a row nor at its end. */
  lemma RemovesExactly(s: seq<string>, f: string)
    ensures !TwiceAndLast(s, f) && Swept(s, f) == Without(s, f) <==>
            !Twice(s, f) || (NeverInARow(s, f) && !EndsWith(s, f))
  {
    SweptExactly(s, f);
    PanicsExactly(s, f);
  }

  /** A finalizer that is there at most once is taken out cleanly. */
  lemma OnceIsClean(s: seq<string>, f: string)
    requires AtMostOnce(s, f)
    ensures !TwiceAndLast(s, f) && Swept(s, f) == Without(s, f)
  {
    RemovesExactly(s, f);
  }

  /** Taking out the only occurrence leaves everything around it. */
  lemma {:induction false} OnlyAt(s: seq<string>, f: string, i: nat)
    requires i < |s| && s[i] == f && AtMostOnce(s, f)
    ensures f !in s[..i] && Without(s, f) == s[..i] + s[i + 1..]
  {
    if i == 0 {
      WithoutAbsent(s[1..], f);
    } else {
      OnlyAt(s[1..], f, i - 1);
      assert s[1..][..i - 1] == s[1..i] && s[..i] == [s[0]] + s[1..i];
    }
  }

  /** Removing a finalizer undoes adding it, and a list that held it at most once still does. */
  lemma {:induction false} RemoveUndoesAdd(s: seq<string>, f: string)
    requires f !in s
    ensures !TwiceAndLast(s + [f], f) && Swept(s + [f], f) == s && AtMostOnce(s + [f], f)
  {
    OnceIsClean(s + [f], f);
    OnlyAt(s + [f], f, |s|);
  }

  /** Removing a finalizer takes out exactly its occurrences and keeps the order of the rest. */
  lemma {:induction false} WithoutKeepsOthers(s: seq<string>, f: string, g: string)
    ensures multiset(Without(s, f))[g] == if g == f then 0 else multiset(s)[g]
  {
    if s != [] {
      WithoutKeepsOthers(s[1..], f, g);
      assert s == [s[0]] + s[1..];
    }
  }

  /** A stamp of t is older than one of u exactly when t falls in an earlier second; so a handshake
      whose pending and terminal stamps share a second reads as resolved. */
  lemma IncompleteExactlyInLaterSecond(o: Object, pending: Time, terminal: Time, k: Key)
    requires (k == CreateSucceeded || k == CreateFailed) && SECOND <= terminal <= pending
    requires Latest(o) <= Truncated(terminal)
    ensures var p := WithStamp(WithStamp(o, k, Truncated(terminal)), CreatePending, Truncated(pending));
            CreateIncomplete(p) <==> Truncated(terminal) < Truncated(pending)
  {
    var p := WithStamp(WithStamp(o, k, Truncated(terminal)), CreatePending, Truncated(pending));
    assert Latest(p) == Truncated(terminal);
  }
}
