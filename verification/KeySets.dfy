/** The keys of a call, sorted, without empty or repeated ones (pkg/ratelimit/governor.go,
    normalizeKeys). */
module KeySets {

  /** Go's order on strings, character by character. */
  predicate Less(a: string, b: string) {
    b != [] && (a == [] || a[0] < b[0] || (a[0] == b[0] && Less(a[1..], b[1..])))
  }

  predicate Ascending(s: seq<string>) {
    forall i, j :: 0 <= i < j < |s| ==> Less(s[i], s[j])
  }

  function Insert(k: string, s: seq<string>): seq<string> {
    if s == [] then [k]
    else if k == s[0] then s
    else if Less(k, s[0]) then [k] + s
    else [s[0]] + Insert(k, s[1..])
  }

  function Normalize(keys: seq<string>): seq<string> {
    if keys == [] then []
    else if keys[0] == "" then Normalize(keys[1..])
    else Insert(keys[0], Normalize(keys[1..]))
  }

  function SetOf(ks: seq<string>): set<string> {
    set k | k in ks
  }

  /** The scopes a list of keys names. */
  function Named(keys: seq<string>): set<string> {
    set k | k in keys && k != ""
  }

  lemma {:induction false} LessIrreflexive(a: string)
    ensures !Less(a, a)
  {
    if a != [] {
      LessIrreflexive(a[1..]);
    }
  }

  lemma {:induction false} LessTransitive(a: string, b: string, c: string)
    requires Less(a, b) && Less(b, c)
    ensures Less(a, c)
  {
    if a != [] && a[0] == b[0] && b[0] == c[0] {
      LessTransitive(a[1..], b[1..], c[1..]);
    }
  }

  lemma {:induction false} LessTotal(a: string, b: string)
    ensures Less(a, b) || a == b || Less(b, a)
  {
    if a != [] && b != [] && a[0] == b[0] {
      LessTotal(a[1..], b[1..]);
      assert a == [a[0]] + a[1..] && b == [b[0]] + b[1..];
    }
  }

  lemma {:induction false} InsertAscending(k: string, s: seq<string>)
    requires Ascending(s)
    ensures Ascending(Insert(k, s))
    ensures forall x :: x in Insert(k, s) <==> x == k || x in s
  {
    if s == [] || k == s[0] {
    } else if Less(k, s[0]) {
      forall j | 0 <= j < |s| ensures Less(k, s[j]) {
        if j > 0 { LessTransitive(k, s[0], s[j]); }
      }
    } else {
      LessTotal(k, s[0]);
      InsertAscending(k, s[1..]);
      var t := Insert(k, s[1..]);
      forall j | 0 <= j < |t| ensures Less(s[0], t[j]) {
        assert t[j] in t;
        if t[j] != k {
          var i :| 0 <= i < |s[1..]| && s[1..][i] == t[j];
          assert s[i + 1] == t[j];
        }
      }
    }
  }

  /** Normalizing keeps exactly the scopes named, each once, in order. */
  lemma {:induction false} NormalizeKeepsNames(keys: seq<string>)
    ensures Ascending(Normalize(keys))
    ensures forall k :: k in Normalize(keys) <==> k in Named(keys)
  {
    if keys != [] {
      NormalizeKeepsNames(keys[1..]);
      var r := Normalize(keys[1..]);
      if keys[0] != "" {
        InsertAscending(keys[0], r);
      }
      assert keys == [keys[0]] + keys[1..];
      assert Named(keys) == Named(keys[1..]) + (if keys[0] == "" then {} else {keys[0]});
    }
  }

  lemma SomethingIn(s: seq<string>)
    ensures s != [] ==> exists x :: x in s
  {
    if s != [] {
      assert s[0] in s;
    }
  }

  lemma FirstIsLeast(s: seq<string>, x: string)
    requires Ascending(s) && x in s
    ensures x == s[0] || Less(s[0], x)
  {
    var i :| 0 <= i < |s| && s[i] == x;
  }

  lemma {:induction false} AscendingUnique(s: seq<string>, t: seq<string>)
    requires Ascending(s) && Ascending(t)
    requires forall x :: x in s <==> x in t
    ensures s == t
  {
    if s == [] || t == [] {
      SomethingIn(s);
      SomethingIn(t);
    } else {
      var first, other := s[0], t[0];
      FirstIsLeast(s, other);
      FirstIsLeast(t, first);
      LessIrreflexive(first);
      if first != other {
        LessTransitive(first, other, first);
      }
      forall x ensures x in s[1..] <==> x in t[1..] {
        if x in s[1..] || x in t[1..] {
          assert x in s && x in t;
          LessIrreflexive(s[0]);
          assert x != s[0];
        }
      }
      AscendingUnique(s[1..], t[1..]);
    }
  }

  /** Order, repetition and empty keys make no difference. */
  lemma NormalizeDependsOnNames(a: seq<string>, b: seq<string>)
    requires Named(a) == Named(b)
    ensures Normalize(a) == Normalize(b)
  {
    NormalizeKeepsNames(a);
    NormalizeKeepsNames(b);
    AscendingUnique(Normalize(a), Normalize(b));
  }

  lemma AscendingDistinct(s: seq<string>)
    requires Ascending(s)
    ensures forall i, j :: 0 <= i < j < |s| ==> s[i] != s[j]
  {
    forall i, j | 0 <= i < j < |s| ensures s[i] != s[j] {
      LessIrreflexive(s[i]);
    }
  }

  lemma OneName(k: string)
    requires k != ""
    ensures Normalize([k]) == [k] && Named([k]) == {k}
  {
    assert [k][1..] == [];
  }
}
