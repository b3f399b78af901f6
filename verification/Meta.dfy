/** Object metadata: create markers, policies and finalizers (pkg/meta/meta.go). */
module Meta {
  import opened Clock

  /** Annotation keys the runtime reads, and every other one. */
  datatype Key =
    | ExternalName
    | CreatePending
    | CreateSucceeded
    | CreateFailed
    | Paused
    | ManagementPolicy
    | DeletionPolicy
    | Other(name: string)

  /** An annotation value: an RFC 3339 time, by the second it denotes, or any other text. */
  datatype Value = Stamp(second: nat) | Text(text: string)

  type Annotations = map<Key, Value>

  datatype Object = Object(
    version: nat,
    annotations: Annotations,
    finalizers: seq<string>,
    deleted: bool)

  const FINALIZER := "finalizer.managedresource.krateo.io"

  /** The time an annotation holds; the zero time when it is missing or is not a time. */
  function StampAt(a: Annotations, k: Key): nat {
    if k in a && a[k].Stamp? then a[k].second else 0
  }

  function TextAt(a: Annotations, k: Key): string {
    if k in a && a[k].Text? then a[k].text else ""
  }

  function Pending(o: Object): nat { StampAt(o.annotations, CreatePending) }

  function Succeeded(o: Object): nat { StampAt(o.annotations, CreateSucceeded) }

  function Failed(o: Object): nat { StampAt(o.annotations, CreateFailed) }

  /** The newest terminal marker. */
  function Latest(o: Object): nat {
    if Failed(o) > Succeeded(o) then Failed(o) else Succeeded(o)
  }

  predicate CreateIncomplete(o: Object) {
    Pending(o) != 0 && Pending(o) > Latest(o)
  }

  predicate SucceededDuring(o: Object, now: Time, d: int) {
    Succeeded(o) != 0 && Sub(now, Succeeded(o) * SECOND) < d
  }

  predicate PendingDuring(o: Object, now: Time, d: int) {
    Pending(o) != 0 && Sub(now, Pending(o) * SECOND) < d
  }

  predicate IsPaused(o: Object) {
    TextAt(o.annotations, Paused) == "true"
  }

  const POLICY_DEFAULT := "default"
  const POLICY_OBSERVE_CREATE_UPDATE := "observe-create-update"
  const POLICY_OBSERVE_DELETE := "observe-delete"
  const POLICY_OBSERVE := "observe"
  const DELETION_DELETE := "delete"

  function Management(o: Object): string {
    var p := TextAt(o.annotations, ManagementPolicy);
    if p == "" then POLICY_DEFAULT else p
  }

  function Deletion(o: Object): string {
    var p := TextAt(o.annotations, DeletionPolicy);
    if p == "" then DELETION_DELETE else p
  }

  predicate ShouldCreate(o: Object) {
    Management(o) == POLICY_DEFAULT || Management(o) == POLICY_OBSERVE_CREATE_UPDATE
  }

  predicate ShouldUpdate(o: Object) {
    Management(o) == POLICY_DEFAULT || Management(o) == POLICY_OBSERVE_CREATE_UPDATE
  }

  predicate ShouldDelete(o: Object) {
    || (Deletion(o) == DELETION_DELETE && Management(o) == POLICY_DEFAULT)
    || Management(o) == POLICY_OBSERVE_DELETE
  }

  predicate ShouldOnlyObserve(o: Object) {
    Management(o) == POLICY_OBSERVE
  }

  function WithStamp(o: Object, k: Key, second: nat): Object {
    o.(annotations := o.annotations[k := Stamp(second)])
  }

  function WithoutPending(o: Object): Object {
    o.(annotations := o.annotations - {CreatePending})
  }

  predicate HasFinalizer(o: Object) {
    FINALIZER in o.finalizers
  }

  function WithFinalizer(o: Object): Object {
    if HasFinalizer(o) then o else o.(finalizers := o.finalizers + [FINALIZER])
  }

  predicate EndsWith(s: seq<string>, f: string) {
    s != [] && s[|s| - 1] == f
  }

  /** f is the last entry, and an earlier one as well. */
  predicate TwiceAndLast(s: seq<string>, f: string) {
    EndsWith(s, f) && f in s[..|s| - 1]
  }

  /** What a sweep leaves that never looks at the entry after one it takes out. */
  function Swept(s: seq<string>, f: string): seq<string> {
    if s == [] then []
    else if s[0] != f then [s[0]] + Swept(s[1..], f)
    else if |s| == 1 then []
    else [s[1]] + Swept(s[2..], f)
  }

  /** What taking the finalizer off leaves, when it does not panic. */
  function WithoutFinalizer(o: Object): Object {
    o.(finalizers := Swept(o.finalizers, FINALIZER))
  }

  predicate RemovalPanics(o: Object) {
    TwiceAndLast(o.finalizers, FINALIZER)
  }
}
