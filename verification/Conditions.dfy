/** The condition list of an object's status (apis/common/v1/condition.go). */
module Conditions {
  import opened Clock
  import KeySets

  datatype Status = True | False | Unknown

  /** What a message says. The deferral messages are told apart by what they name. */
  datatype Message =
    | Plain(text: string)
    | RateLimited(key: string, nextAttempt: nat)
    | ControllerSaturated(cause: string, capacity: int)
    | RampingUp(capacity: int)
    | LocallyBlocked(cause: string, capacity: int)
    | Recovering(capacity: int)
    | AtConcurrencyLimit(key: string, capacity: int)

  datatype Condition = Condition(kind: string, status: Status, transition: Time, reason: string, message: Message)

  /** Condition.Equal: everything but the transition time. */
  predicate Same(c: Condition, d: Condition) {
    c.kind == d.kind && c.status == d.status && c.reason == d.reason && c.message == d.message
  }

  /** Two conditions are the same exactly when nothing but their times tells them apart. */
  lemma SameUpToTime(c: Condition, d: Condition)
    ensures Same(c, d) <==> c.(transition := d.transition) == d
  {
  }

  predicate HasKind(cs: seq<Condition>, kind: string) {
    exists i :: 0 <= i < |cs| && cs[i].kind == kind
  }

  /** At most one condition of each kind. */
  predicate OnePerKind(cs: seq<Condition>) {
    forall i, j :: 0 <= i < j < |cs| ==> cs[i].kind != cs[j].kind
  }

  /** The first condition of a kind, or an unknown one. */
  function Get(cs: seq<Condition>, kind: string): Condition {
    if cs == [] then Condition(kind, Unknown, 0, "", Plain(""))
    else if cs[0].kind == kind then cs[0]
    else Get(cs[1..], kind)
  }

  /** Every entry of x's kind that differs from x, replaced by it. */
  function Replaced(cs: seq<Condition>, x: Condition): (r: seq<Condition>)
    ensures |r| == |cs|
    ensures forall i :: 0 <= i < |cs| ==> r[i] == if cs[i].kind == x.kind && !Same(cs[i], x) then x else cs[i]
  {
    seq(|cs|, i requires 0 <= i < |cs| => if cs[i].kind == x.kind && !Same(cs[i], x) then x else cs[i])
  }

  function SetOne(cs: seq<Condition>, x: Condition): seq<Condition> {
    if HasKind(cs, x.kind) then Replaced(cs, x) else Replaced(cs, x) + [x]
  }

  /** c is set left to right. */
  function SetAll(cs: seq<Condition>, c: seq<Condition>): seq<Condition> {
    if c == [] then cs else SetOne(SetAll(cs, c[..|c| - 1]), c[|c| - 1])
  }

  function Kinds(cs: seq<Condition>): seq<string> {
    seq(|cs|, i requires 0 <= i < |cs| => cs[i].kind)
  }

  function InsertByKind(x: Condition, s: seq<Condition>): seq<Condition> {
    if s == [] || !KeySets.Less(s[0].kind, x.kind) then [x] + s
    else [s[0]] + InsertByKind(x, s[1..])
  }

  function SortedByKind(cs: seq<Condition>): seq<Condition> {
    if cs == [] then [] else InsertByKind(cs[0], SortedByKind(cs[1..]))
  }

  predicate SameLists(a: seq<Condition>, b: seq<Condition>) {
    |a| == |b| && forall i :: 0 <= i < |a| ==> Same(a[i], b[i])
  }

  class ConditionedStatus {
    var conditions: seq<Condition>

    constructor (c: seq<Condition>)
      ensures conditions == SetAll([], c)
    {
      conditions := [];
      new;
      SetConditions(c);
    }

    method GetCondition(kind: string) returns (c: Condition)
      ensures c == Get(conditions, kind)
    {
      var i := 0;
      while i < |conditions|
        invariant 0 <= i <= |conditions| && Get(conditions, kind) == Get(conditions[i..], kind)
      {
        if conditions[i].kind == kind {
          return conditions[i];
        }
        i := i + 1;
      }
      return Condition(kind, Unknown, 0, "", Plain(""));
    }

    method SetConditions(c: seq<Condition>)
      modifies this
      ensures conditions == SetAll(old(conditions), c)
    {
      ghost var start := conditions;
      var j := 0;
      while j < |c|
        invariant 0 <= j <= |c| && conditions == SetAll(start, c[..j])
      {
        assert c[..j + 1][..j] == c[..j];
        ghost var before := conditions;
        var found := false;
        var i := 0;
        while i < |conditions|
          invariant 0 <= i <= |conditions| == |before|
          invariant forall k :: 0 <= k < i ==> conditions[k] == Replaced(before, c[j])[k]
          invariant forall k :: i <= k < |before| ==> conditions[k] == before[k]
          invariant found <==> exists k :: 0 <= k < i && before[k].kind == c[j].kind
        {
          if conditions[i].kind == c[j].kind {
            if !Same(conditions[i], c[j]) {
              conditions := conditions[i := c[j]];
            }
            found := true;
          }
          i := i + 1;
        }
        assert conditions == Replaced(before, c[j]);
        if !found {
          conditions := conditions + [c[j]];
        }
        assert conditions == SetOne(before, c[j]);
        j := j + 1;
      }
      assert c[..|c|] == c;
    }

    /** ConditionedStatus.Equal: sort copies of both lists by kind and compare entry by entry. */
    static method Equal(s: ConditionedStatus?, other: ConditionedStatus?) returns (same: bool)
      ensures same <==>
                if s == null || other == null then s == null && other == null
                else SameLists(SortedByKind(s.conditions), SortedByKind(other.conditions))
    {
      if s == null || other == null {
        return s == null && other == null;
      }
      SortingKeepsEntries(s.conditions);
      SortingKeepsEntries(other.conditions);
      if |other.conditions| != |s.conditions| {
        return false;
      }
      var sc := SortedByKind(s.conditions);
      var oc := SortedByKind(other.conditions);
      var i := 0;
      while i < |sc|
        invariant 0 <= i <= |sc| && forall k :: 0 <= k < i ==> Same(sc[k], oc[k])
      {
        if !Same(sc[i], oc[i]) {
          return false;
        }
        i := i + 1;
      }
      return true;
    }
  }

  // ---- a list that acts as a map ----

  lemma {:induction false} GetReplaced(cs: seq<Condition>, x: Condition, kind: string)
    ensures Get(Replaced(cs, x), kind) ==
            if kind == x.kind && HasKind(cs, kind) && !Same(Get(cs, kind), x) then x else Get(cs, kind)
  {
    if cs != [] {
      GetReplaced(cs[1..], x, kind);
      assert Replaced(cs, x)[1..] == Replaced(cs[1..], x);
      if cs[0].kind != kind && HasKind(cs, kind) {
        var i :| 0 <= i < |cs| && cs[i].kind == kind;
        assert cs[1..][i - 1].kind == kind;
      }
      if HasKind(cs[1..], kind) {
        var i :| 0 <= i < |cs[1..]| && cs[1..][i].kind == kind;
        assert cs[i + 1].kind == kind;
      }
    }
  }

  lemma {:induction false} GetAppended(cs: seq<Condition>, x: Condition, kind: string)
    ensures Get(cs + [x], kind) == if x.kind == kind && !HasKind(cs, kind) then x else Get(cs, kind)
  {
    if cs == [] {
      assert Get([x][1..], kind) == Get([], kind);
    } else {
      GetAppended(cs[1..], x, kind);
      assert (cs + [x])[1..] == cs[1..] + [x];
      if HasKind(cs[1..], kind) {
        var i :| 0 <= i < |cs[1..]| && cs[1..][i].kind == kind;
        assert cs[i + 1].kind == kind;
      }
      if cs[0].kind != kind && HasKind(cs, kind) {
        var i :| 0 <= i < |cs| && cs[i].kind == kind;
        assert cs[1..][i - 1].kind == kind;
      }
    }
  }

  lemma KindsReplaced(cs: seq<Condition>, x: Condition, kind: string)
    ensures HasKind(Replaced(cs, x), kind) <==> HasKind(cs, kind)
  {
    var r := Replaced(cs, x);
    assert forall i :: 0 <= i < |cs| ==> r[i].kind == cs[i].kind;
  }

  /** Setting one condition reads back that condition, but an equal one keeps its transition time; every
      other kind reads as before. */
  lemma SetThenGet(cs: seq<Condition>, x: Condition, kind: string)
    ensures Get(SetOne(cs, x), kind) ==
            if kind != x.kind then Get(cs, kind)
            else if HasKind(cs, kind) && Same(Get(cs, kind), x) then Get(cs, kind)
            else x
  {
    GetReplaced(cs, x, kind);
    GetAppended(Replaced(cs, x), x, kind);
    KindsReplaced(cs, x, kind);
  }

  lemma SetHasKind(cs: seq<Condition>, x: Condition, kind: string)
    ensures HasKind(SetOne(cs, x), kind) <==> kind == x.kind || HasKind(cs, kind)
  {
    KindsReplaced(cs, x, kind);
    var r := Replaced(cs, x);
    if !HasKind(cs, x.kind) {
      assert (r + [x])[|r|] == x;
      if HasKind(r, kind) {
        var i :| 0 <= i < |r| && r[i].kind == kind;
        assert (r + [x])[i].kind == kind;
      }
    }
  }

  /** The last condition of a kind in c. */
  function LastOf(c: seq<Condition>, kind: string): Option<Condition> {
    if c == [] then None
    else if c[|c| - 1].kind == kind then Some(c[|c| - 1])
    else LastOf(c[..|c| - 1], kind)
  }

  /** Main result. After SetConditions a kind reads as the last condition of that kind that was set; a kind
      that was not set is untouched, its transition time included. */
  lemma {:induction false} LastSetWins(cs: seq<Condition>, c: seq<Condition>, kind: string)
    ensures match LastOf(c, kind)
            case None => Get(SetAll(cs, c), kind) == Get(cs, kind)
            case Some(x) => Same(Get(SetAll(cs, c), kind), x) && HasKind(SetAll(cs, c), kind)
    ensures HasKind(SetAll(cs, c), kind) <==> HasKind(cs, kind) || LastOf(c, kind).Some?
  {
    if c != [] {
      var front := c[..|c| - 1];
      LastSetWins(cs, front, kind);
      SetThenGet(SetAll(cs, front), c[|c| - 1], kind);
      SetHasKind(SetAll(cs, front), c[|c| - 1], kind);
    }
  }

  /** Main result. SetConditions keeps at most one condition of each kind. */
  lemma {:induction false} OneOfEachStays(cs: seq<Condition>, c: seq<Condition>)
    requires OnePerKind(cs)
    ensures OnePerKind(SetAll(cs, c))
  {
    if c != [] {
      OneOfEachStays(cs, c[..|c| - 1]);
      var s := SetAll(cs, c[..|c| - 1]);
      var x := c[|c| - 1];
      assert forall i :: 0 <= i < |s| ==> Replaced(s, x)[i].kind == s[i].kind;
    }
  }

  /** Setting conditions that are all there already, up to their times, changes nothing: the old
      transition times stay. */
  lemma {:induction false} EqualConditionsChangeNothing(cs: seq<Condition>, c: seq<Condition>)
    requires OnePerKind(cs)
    requires forall j :: 0 <= j < |c| ==> HasKind(cs, c[j].kind) && Same(Get(cs, c[j].kind), c[j])
    ensures SetAll(cs, c) == cs
  {
    if c != [] {
      EqualConditionsChangeNothing(cs, c[..|c| - 1]);
      SetChangesExactly(cs, c[|c| - 1]);
    }
  }

  /** Setting x leaves a list with one entry per kind exactly as it was if and only if it says the same
      as the entry it would replace. */
  lemma SetChangesExactly(cs: seq<Condition>, x: Condition)
    requires OnePerKind(cs)
    ensures SetOne(cs, x) == cs <==> HasKind(cs, x.kind) && Same(Get(cs, x.kind), x)
  {
    if HasKind(cs, x.kind) {
      var i :| 0 <= i < |cs| && cs[i].kind == x.kind;
      GetOf(cs, i);
      assert Replaced(cs, x)[i] == if Same(cs[i], x) then cs[i] else x;
      if Same(cs[i], x) {
        assert Replaced(cs, x) == cs;
      }
    }
  }

  lemma {:induction false} GetOf(cs: seq<Condition>, i: nat)
    requires OnePerKind(cs) && i < |cs|
    ensures Get(cs, cs[i].kind) == cs[i]
  {
    if i > 0 {
      GetOf(cs[1..], i - 1);
      assert cs[0].kind != cs[i].kind;
    }
  }

  // ---- equality as maps ----

  lemma {:induction false} InsertKeepsEntries(x: Condition, s: seq<Condition>)
    ensures |InsertByKind(x, s)| == |s| + 1
    ensures forall y :: y in InsertByKind(x, s) <==> y == x || y in s
    ensures KeySets.Ascending(Kinds(s)) && !(x.kind in Kinds(s)) ==> KeySets.Ascending(Kinds(InsertByKind(x, s)))
  {
    if s == [] {
    } else if !KeySets.Less(s[0].kind, x.kind) {
      if KeySets.Ascending(Kinds(s)) && !(x.kind in Kinds(s)) {
        FrontAscends(x, s);
      }
    } else {
      InsertKeepsEntries(x, s[1..]);
      var t := InsertByKind(x, s[1..]);
      if KeySets.Ascending(Kinds(s)) && !(x.kind in Kinds(s)) {
        TailAscends(x, s, t);
      }
    }
  }

  lemma FrontAscends(x: Condition, s: seq<Condition>)
    requires s != [] && KeySets.Ascending(Kinds(s)) && x.kind !in Kinds(s)
    requires !KeySets.Less(s[0].kind, x.kind)
    ensures KeySets.Ascending(Kinds([x] + s))
  {
    var k := Kinds(s);
    assert k[0] in k;
    KeySets.LessTotal(x.kind, k[0]);
    forall j | 0 <= j < |k| ensures KeySets.Less(x.kind, k[j]) {
      if j > 0 {
        KeySets.LessTransitive(x.kind, k[0], k[j]);
      }
    }
    assert Kinds([x] + s) == [x.kind] + k;
  }

  lemma TailAscends(x: Condition, s: seq<Condition>, t: seq<Condition>)
    requires s != [] && KeySets.Ascending(Kinds(s)) && x.kind !in Kinds(s)
    requires KeySets.Less(s[0].kind, x.kind)
    requires forall y :: y in t <==> y == x || y in s[1..]
    requires KeySets.Ascending(Kinds(s[1..])) && x.kind !in Kinds(s[1..]) ==> KeySets.Ascending(Kinds(t))
    ensures KeySets.Ascending(Kinds([s[0]] + t))
  {
    assert Kinds(s)[1..] == Kinds(s[1..]);
    assert forall i :: 0 <= i < |s[1..]| ==> Kinds(s[1..])[i] == Kinds(s)[i + 1];
    forall j | 0 <= j < |t| ensures KeySets.Less(s[0].kind, t[j].kind) {
      assert t[j] in t;
      if t[j] != x {
        var i :| 0 <= i < |s[1..]| && s[1..][i] == t[j];
        assert Kinds(s)[i + 1] == t[j].kind && KeySets.Less(Kinds(s)[0], Kinds(s)[i + 1]);
      }
    }
    assert Kinds([s[0]] + t) == [s[0].kind] + Kinds(t);
  }

  lemma {:induction false} SortingKeepsEntries(cs: seq<Condition>)
    ensures |SortedByKind(cs)| == |cs|
    ensures forall y :: y in SortedByKind(cs) <==> y in cs
    ensures OnePerKind(cs) ==> KeySets.Ascending(Kinds(SortedByKind(cs)))
  {
    if cs != [] {
      SortingKeepsEntries(cs[1..]);
      var s := SortedByKind(cs[1..]);
      InsertKeepsEntries(cs[0], s);
      assert cs == [cs[0]] + cs[1..];
      if OnePerKind(cs) {
        forall j | 0 <= j < |s| ensures s[j].kind != cs[0].kind {
          assert s[j] in s;
          var i :| 0 <= i < |cs[1..]| && cs[1..][i] == s[j];
          assert cs[i + 1] == s[j];
        }
      }
    }
  }

  /** The two lists read alike: the same kinds, each with the same status, reason and message. */
  ghost predicate SameMap(a: seq<Condition>, b: seq<Condition>) {
    forall kind :: (HasKind(a, kind) <==> HasKind(b, kind)) && Same(Get(a, kind), Get(b, kind))
  }

  lemma {:induction false} MissingReadsUnknown(cs: seq<Condition>, kind: string)
    requires !HasKind(cs, kind)
    ensures Get(cs, kind) == Condition(kind, Unknown, 0, "", Plain(""))
  {
    if cs != [] {
      assert forall i :: 0 <= i < |cs[1..]| ==> cs[1..][i] == cs[i + 1];
      assert cs[0].kind != kind;
      MissingReadsUnknown(cs[1..], kind);
    }
  }

  /** An entry of the sorted list is what its kind reads. */
  lemma SortedEntryReads(cs: seq<Condition>, i: nat)
    requires OnePerKind(cs) && i < |SortedByKind(cs)|
    ensures HasKind(cs, SortedByKind(cs)[i].kind)
    ensures Get(cs, SortedByKind(cs)[i].kind) == SortedByKind(cs)[i]
  {
    SortingKeepsEntries(cs);
    var x := SortedByKind(cs)[i];
    assert x in SortedByKind(cs);
    var j :| 0 <= j < |cs| && cs[j] == x;
    GetOf(cs, j);
  }

  lemma SortedKindsAreTheKinds(cs: seq<Condition>, kind: string)
    requires OnePerKind(cs)
    ensures kind in Kinds(SortedByKind(cs)) <==> HasKind(cs, kind)
  {
    SortingKeepsEntries(cs);
    var s := SortedByKind(cs);
    if kind in Kinds(s) {
      var i :| 0 <= i < |s| && Kinds(s)[i] == kind;
      SortedEntryReads(cs, i);
    }
    if HasKind(cs, kind) {
      var j :| 0 <= j < |cs| && cs[j].kind == kind;
      assert cs[j] in s;
      var i :| 0 <= i < |s| && s[i] == cs[j];
      assert Kinds(s)[i] == kind;
    }
  }

  lemma SameListsReadAlike(a: seq<Condition>, b: seq<Condition>)
    requires OnePerKind(a) && OnePerKind(b) && SameLists(SortedByKind(a), SortedByKind(b))
    ensures SameMap(a, b)
  {
    var s, t := SortedByKind(a), SortedByKind(b);
    assert Kinds(s) == Kinds(t);
    forall kind ensures (HasKind(a, kind) <==> HasKind(b, kind)) && Same(Get(a, kind), Get(b, kind)) {
      SortedKindsAreTheKinds(a, kind);
      SortedKindsAreTheKinds(b, kind);
      if HasKind(a, kind) {
        var i :| 0 <= i < |s| && Kinds(s)[i] == kind;
        SortedEntryReads(a, i);
        SortedEntryReads(b, i);
      } else {
        MissingReadsUnknown(a, kind);
        MissingReadsUnknown(b, kind);
      }
    }
  }

  lemma AlikeListsAreSame(a: seq<Condition>, b: seq<Condition>)
    requires OnePerKind(a) && OnePerKind(b) && SameMap(a, b)
    ensures SameLists(SortedByKind(a), SortedByKind(b))
  {
    var s, t := SortedByKind(a), SortedByKind(b);
    SortingKeepsEntries(a);
    SortingKeepsEntries(b);
    forall kind ensures kind in Kinds(s) <==> kind in Kinds(t) {
      SortedKindsAreTheKinds(a, kind);
      SortedKindsAreTheKinds(b, kind);
    }
    KeySets.AscendingUnique(Kinds(s), Kinds(t));
    assert |s| == |Kinds(s)| == |t|;
    forall i | 0 <= i < |s| ensures Same(s[i], t[i]) {
      assert Kinds(s)[i] == Kinds(t)[i];
      SortedEntryReads(a, i);
      SortedEntryReads(b, i);
    }
  }

  /** Main result. On lists with one entry per kind Equal is equality of the maps they stand for: the order
      of the entries and their transition times make no difference. */
  lemma EqualExactlyAsMaps(a: seq<Condition>, b: seq<Condition>)
    requires OnePerKind(a) && OnePerKind(b)
    ensures SameLists(SortedByKind(a), SortedByKind(b)) <==> SameMap(a, b)
  {
    if SameMap(a, b) {
      AlikeListsAreSame(a, b);
    } else if SameLists(SortedByKind(a), SortedByKind(b)) {
      SameListsReadAlike(a, b);
    }
  }
}
