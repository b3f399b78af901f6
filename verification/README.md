# Verified model of the provider runtime

This project models two state machines of the provider runtime, and the layer that joins them, and
proves what they keep over whole runs.

**The reconcile pass and its create handshake.** `ReconcilePass` is one pass as a step machine: each
program counter waits for one effect (a read, a version-guarded write, a gated call), and `Resume` is
what the pass does with the answer. `Handshake` puts such passes into a world: a versioned store with
other writers and stale reads, an external API whose creates land late and show later, crashes between
any two effects, answers that hide a write that went through, and a clock. `Reconciler` is the same
pass written as the source writes it, statement by statement over an object changed in place, with early
returns, leases and deferred releases; every path through it is proved to be a run of the step machine,
so everything proved of all runs holds of it. `PassOutcomes` says, from the answers alone, what every pass
calls, stores and returns.

**The rate-limit governor.** `GovernorState` gives each mutex section as a function of the state,
`GovernorRuns.Step` strings them into runs with a record of the outstanding leases, and
`Governors.Governor` is the object whose methods update fields and loop over keys; each method is proved
to do exactly the corresponding step. `KeyTimeline` and `Saturation` hold the two recovery laws, which
`GovernorPace` lifts to runs; `GovernorEffects` states each operation in numbers; `GovernorDelays` says when a deferral's delay is positive, `RampEnd` when a
call deferred on the startup ramp is back before the ramp ends, `HttpSignal` holds the header rules.

**The join.** `Gatekeeping` models when a call is gated and what a deferral writes, `Conditions` the
condition list, `GovernedPass` a pass whose deferrals come from a governor, `CriticalUpdate` the
annotation retry loop, `Backoff` the work queue's limiter.

Times are whole nanoseconds since the zero time; durations saturate, and their products wrap, as in Go.
Clock readings, random draws, API answers and provider answers are parameters or an arbitrary oracle.
Operations that need ordered clock readings say so (`GovernorPace.InOrder`): `Observe` reads the clock
before it takes the lock, so the order is an assumption about lock order.

## Findings

- The create handshake is safe exactly when a pending marker falls in a later second than the newest
  terminal one, a Create that answers with an error has landed nothing and never will, and both grace
  periods outlast the API's lag (`HandshakeLimits.SafeExactlyWhenCovered`). The bounds are exact to the
  nanosecond: with visibility lag V, a create landing before its marker is C old and absence checks within
  O of the look, the recovery period must be at least 1s + C + O + max(V, 1ns) - 2ns, and the creation
  period at least 1s + O + V - 1ns; for V = 0 no creation period is needed at all.
  - Two creates started in one second can duplicate the resource whatever the grace periods are
    (`HandshakeLimits.SameSecondUnsafe`), because a failure stamp of that second hides the second pending
    stamp.
  - So can one create whose error did not mean that nothing landed, such as a client timeout
    (`HandshakeLimits.LandedErrorUnsafe`): the failure stamp resolves the marker, and the next absent
    observation creates again without any grace period.
- An object deleted in the middle of a create loses its finalizer as soon as Observe misses the resource.
  The pass does not ask there how old the pending marker is, as it does before it creates again, so the code
  leaks under every setting and every API whose creates take any time, even one that shows a resource as
  soon as it landed
  (`NoLeakLimits.AsWrittenLeaks`). With grace periods that rule out duplicates nothing leaks exactly when the
  marker of a deleted object let go is at least 1s + C + O + max(V, 1ns) - 2ns old
  (`NoLeakLimits.LeakFreeExactlyWhenPatient`), and the recovery period, asked for there as well, would do
  (`NoLeakLimits.TheSkippedCheckWouldDo`).
- A deferral on the startup ramp has no positive delay, and a `RequeueAfter` of zero or less is no requeue
  at all, exactly when the time left on the ramp is not positive as a duration
  (`GovernorDelays.DelayPositiveExactly`). In reachable states there are two ways to get there
  (`GovernorDelays.LostOnlyTwoWays`): a ceiling of 1 with no sample taken yet
  (`GovernorDelays.ZeroDelayIsReachable`), and more than 292 years of steps left, which a duration cannot
  hold, such as 999 steps of 2600 hours (`GovernorDelays.NegativeDelayIsReachable`). A pass is dropped
  exactly when it returns such a delay (`GovernedPass.GovernedPassNeverDropped`).
- A throttled deferral wakes too early exactly when one of its scopes was held more than 292 years ahead,
  because the delay saturates (`GovernorLaws.WakesSoundly`). A 429 with an X-RateLimit-Reset in the year 5138
  is such a deadline, and a call that comes back when told to is throttled again
  (`HttpSignal.WakesTooEarly`).
- The comment on `deferReconcile` says that a throttled deferral with a new deadline has a new message.
  Messages keep whole seconds (`Gatekeeping.DeadlinesReadAlikeExactly`), so of two refusals whose deadlines
  fall in one second the second is neither written nor announced (`Gatekeeping.LaterDeadlineUnannounced`).
- The comment on `Deferral.RequeueAfter` says an object deferred on the ramp is back before the ramp
  ends. The delay is at most what the ramp still needs in whole steps counted from the call
  (`GovernorDelays.RampingDelayBound`), but the step under way has already begun, so the ramp can be over
  first (`RampEnd.RampMayEndFirst`). The object is sure to be back first exactly when the longest delay is
  positive and ends before the earliest instant at which clean samples can complete the ramp
  (`RampEnd.BackFirstExactly`, `RampEnd.SureToBeBackFirst`), and where the time left fits a duration that
  comes down to RecoveryInterval ending before it (`RampEnd.OnlyAShorterRecovery`). How far apart samples
  come is a parameter of these results (`RampEnd.Ticker`): SamplePeriod for a ticker that keeps its period,
  0 to assume nothing.
- `RemoveFinalizer` ranges over a list it shrinks. It panics exactly on a list that has the finalizer more
  than once and last, and otherwise leaves one behind exactly when it stands twice in a row
  (`ManagedObjects.RemovesExactly`). The pass then panics before it stores anything, with no lease out.
- The backoff test against the largest duration is strict and compares with 2^63, so a base that is a
  power of two nanoseconds reaches exactly 2^63 and what comes out depends on the platform
  (`Backoff.CappedExactly`). A maximum above half the largest duration wraps when doubled, and then no
  streak gets past its first delay (`Backoff.StreakSurvivesExactly`).

## Model

| member | source | states |
|---|---|---|
| `HandshakeSafety.NoDuplicateCreate` | pkg/reconciler/reconciler.go:861-1272 | over every run, with crashes, hidden store writes and late landings, Create is issued only while no earlier resource exists and none can still land, given covering grace periods, later-second markers and create errors that land nothing |
| `HandshakeSafety.AtMostOneResource` | pkg/reconciler/reconciler.go:1169-1272 | two live resources of one object in any reachable world are the same one, under the same three hypotheses |
| `HandshakeLimits.SafeExactlyWhenCovered` | pkg/reconciler/reconciler.go:998-1075 | for every API and every setting, all runs from all new objects are free of duplicates if and only if no create can land at all, or the grace bounds, the later-second condition and exact create errors hold together |
| `HandshakeLimits.RecoveryTooShort` | pkg/reconciler/reconciler.go:998-1051 | a recovery period one nanosecond under the bound, which differs for an API without visibility lag, admits a run to a second resource |
| `HandshakeLimits.CreationTooShort` | pkg/reconciler/reconciler.go:1071-1075 | with a visibility lag, a creation period one nanosecond under the bound admits a run to a second resource |
| `HandshakeLimits.SameSecondUnsafe` | pkg/meta/meta.go:212-270 | markers of one second admit a run to a second resource under any grace periods and any visibility |
| `HandshakeLimits.LandedErrorUnsafe` | pkg/reconciler/reconciler.go:1224-1253 | a Create that may land although it answered with an error admits a run to a second resource under any grace periods |
| `HandshakeSafety.RecoveryElapsed` | pkg/meta/meta.go:283-297 | given covering grace periods, once the recovery period is over on an unresolved marker, its create cannot land any more and a resource of it was visible when Observe looked |
| `HandshakeSafety.CreationElapsed` | pkg/meta/meta.go:272-281 | given covering grace periods and a visibility lag, once the creation period is over on a resolved handshake, a resource was visible when Observe looked |
| `HandshakeSafety.AbsenceProven` | pkg/reconciler/reconciler.go:998-1075 | given covering grace periods, an absent answer that gets past the checks on the stored object means that no attempt is open |
| `HandshakeSafety.IssueKeeps` | pkg/reconciler/reconciler.go:1200-1203 | in a world that satisfies the invariant a create is issued only with nothing open, and the invariant survives it |
| `HandshakeSafety.ReplyKeeps` | pkg/reconciler/reconciler.go:786-1380 | given exact create errors, every answer to every effect, errors that hide a store write included, keeps the invariant |
| `HandshakeSafety.ContinueKeeps` | pkg/reconciler/reconciler.go:786-1380 | under the three hypotheses, whatever the pass decides from an answer keeps the invariant |
| `HandshakeSafety.ResumeOnward` | pkg/reconciler/reconciler.go:861-1075 | only an absent answer past the grace checks opens the way to a create, and the pass keeps the copy it read |
| `HandshakeSafety.LandKeeps` | pkg/reconciler/reconciler.go:851-864 | only the newest create can land late, and its marker is then still unresolved |
| `HandshakeSafety.StampReplyKeeps` | pkg/reconciler/reconciler.go:1224-1273 | given exact create errors, stamping success or failure resolves a marker only when what it says about the resource is true |
| `HandshakeSafety.StepKeeps` | pkg/reconciler/reconciler.go:743-1381 | under the three hypotheses, every action of the world keeps the handshake invariant |
| `StalePass.StalePassesNeverCreate` | pkg/reconciler/reconciler.go:787-1198 | when a pass comes to Create, no version between its read and its stored marker was written by anyone else |
| `StalePass.MarkerGoesOverTheObjectDecidedFrom` | pkg/reconciler/reconciler.go:1179-1198 | the object a create marker is written over is the one the pass decided from |
| `NoLeak.NothingLeaks` | pkg/reconciler/reconciler.go:821-1149 | in every run under an unchanged deleting policy, an open create or a live resource implies a stored object with the finalizer, given covering grace periods, later-second markers, create errors that land nothing, and let-goes only past an unresolved marker as old as the recovery bound |
| `NoLeak.FinalizerComesOffLast` | pkg/resource/api.go:48-55 | a finalizer write goes through only when no create is open and no resource is left, under the same four hypotheses |
| `NoLeakLimits.LeakFreeExactlyWhenPatient` | pkg/reconciler/reconciler.go:992-996 | with a recovery period over its bound, nothing leaks if and only if no create can land, or markers fall in later seconds, create errors are exact, the creation period is over its bound, and an unresolved marker is as old as the recovery bound when its deleted object is let go |
| `NoLeakLimits.LeakFreeNeedsPatience` | pkg/reconciler/reconciler.go:974-1149 | under every setting, the absence of leaks needs all of these and a recovery period that outlasts landing and showing |
| `NoLeakLimits.TooYoungLeaks` | pkg/reconciler/reconciler.go:992-996 | a let-go one nanosecond under that age admits a run that loses the object while its resource lands or exists, for every visibility and with no other hypothesis |
| `NoLeakLimits.AsWrittenLeaks` | pkg/reconciler/reconciler.go:992-996 | the branch as written, which asks for no age, leaks whatever the API and the settings are |
| `NoLeakLimits.TheSkippedCheckWouldDo` | pkg/reconciler/reconciler.go:992-1000 | the recovery check that the branch skips for deleted objects, asked of them as well, makes every duplicate-free setting leak-free |
| `NoLeakLimits.ClearedTooSoonLeaks` | pkg/reconciler/reconciler.go:1005-1051 | a marker cleared before its create has shown admits a run to a leak once the object is deleted |
| `NoLeakLimits.CreationTooShortLeaks` | pkg/reconciler/reconciler.go:1071-1149 | a creation period one nanosecond under its bound admits a run to a leak |
| `NoLeakLimits.LandedErrorLeaks` | pkg/reconciler/reconciler.go:1224-1253 | a create error that does not mean nothing landed admits a run to a leak |
| `NoLeakLimits.SameSecondLeaks` | pkg/meta/meta.go:212-270 | markers of one second admit a run to a leak |
| `PassEffects.AtMostOneChange` | pkg/reconciler/reconciler.go:1082-1350 | over any answers a pass calls at most one of Create, Update and Delete |
| `PassEffects.ChangesAreWarranted` | pkg/reconciler/reconciler.go:1057-1350 | in every run: Create only for a live object after Observe said absent, under a creating policy and with the finalizer on; Update only for a live one after it said present and not up to date, under an updating policy; Delete only for a deleted one after it said present, under a deleting policy; each before any other change |
| `PassEffects.LetsGoOutsideTheGrace` | pkg/reconciler/reconciler.go:1057-1149 | at the turn that decides to take the finalizer off or finds it gone the object is deleted, and either its policies ask for no deletion, or the pass saw no resource and the creation grace period is over by its stamp |
| `PassEffects.DeferralLeavesNoMarker` | pkg/reconciler/reconciler.go:1169-1177 | a pass that ends deferred wrote no pending marker and made no change |
| `PassEffects.NeverSilentlyDropped` | pkg/reconciler/reconciler.go:789-1380 | with positive intervals and delays every returning pass errs, requeues or comes back after a positive delay, except when the object was missing, paused, or deleted and let go with nothing left to delete; a panic is the provider's last answer, or that of taking off a finalizer that stands last and once more |
| `PassEffects.PoliciesPermitExactly` | pkg/meta/meta.go:326-378 | which calls each of the four management policies permits, and that an unknown one permits none |
| `PassOutcomes.CallsExactly` | pkg/reconciler/reconciler.go:974-1350 | in every pass that meets no error, deferral, conflict or panic: Create is called if and only if Observe said absent for a live object under a creating policy, past both grace checks; Update if and only if present and not up to date, live, under an updating policy; Delete if and only if present, deleted, under a deleting policy |
| `PassOutcomes.SmoothPassDoesAsDecided` | pkg/reconciler/reconciler.go:786-1380 | for every such pass, from the object read, what Observe answered and when, and the answer that settled an unresolved create: which calls it makes, whether it stamps, gives up a create, adds the finalizer, marks, saves what Observe filled in or takes the finalizer off, and what it returns |
| `PassOutcomes.FirstBadAnswerDecides` | pkg/reconciler/reconciler.go:789-1380 | the first error, deferral, conflict or panic of a pass decides how it returns: which conflicts requeue and which are reported, what a deferral, a missing object and a vanished one return; after it nothing is done but the stamp of a failed create |
| `PassOutcomes.WritesAreNamed` | pkg/reconciler/reconciler.go:1179-1300 | each kind of write stores just the one change it is named after, guarded by the version held |
| `PassOutcomes.StampsAreNamed` | pkg/reconciler/reconciler.go:980-1285 | a granted create is stamped pending, an answered one succeeded or failed, an unresolved one with its resource there succeeded, each with the second in which the pass acts |
| `GovernedPass.GovernedPassNeverDropped` | pkg/reconciler/ratelimit.go:138-216 | a pass whose deferrals are a governor's answers errs, requeues, comes back after a positive delay or has one of the three excuses, if and only if it did not return the delay of a call that awaited the startup ramp with no time left on it |
| `GovernedPass.DeferralDecides` | pkg/reconciler/ratelimit.go:187-216 | nothing but the deferral's own write follows a deferral, and the pass then returns its delay or an error |
| `GovernedPass.OrdinarySettingsKeepTime` | pkg/ratelimit/governor.go:440-453 | no pass is dropped with saturation off, or with a ramp whose whole time fits a duration once a sample was taken or the ceiling is above 1 |
| `Reconciler.Reconcile` | pkg/reconciler/reconciler.go:743-1381 | for every oracle and clock the call is a run of the step machine that ends with the outcome returned; no lease is out afterwards, not even after a panic of the provider or of the finalizer removal; each gated call ran under a lease of its own |
| `Reconciler.Body` | pkg/reconciler/reconciler.go:786-864 | every early return of the body leaves the step machine done with that outcome |
| `Reconciler.ConnectExternal` | pkg/reconciler/reconciler.go:879-905 | Connect runs under its own lease, released before the pass goes on to wait for its Observe slot |
| `Reconciler.ObserveExternal` | pkg/reconciler/reconciler.go:914-958 | the observation is made under its own lease and ends in a run of the machine |
| `Reconciler.Resolve` | pkg/reconciler/reconciler.go:974-1053 | adopting, waiting, giving up and falling through follow the machine |
| `Reconciler.Settle` | pkg/reconciler/reconciler.go:984-1051 | the success stamp or the cleared marker is persisted before anything is created; a failed write ends the pass |
| `Reconciler.Act` | pkg/reconciler/reconciler.go:1055-1149 | the absence checks and the deletion paths follow the machine |
| `Reconciler.Hold` | pkg/reconciler/reconciler.go:1151-1167 | the finalizer is stored before any create |
| `Reconciler.CreateExternal` | pkg/reconciler/reconciler.go:1169-1203 | the slot is asked for before the marker is written, and a deferral ends the pass without one |
| `Reconciler.MarkAndCreate` | pkg/reconciler/reconciler.go:1179-1203 | the marker is stored over the version read while the slot is held, and only a stored marker leads to the call |
| `Reconciler.StampOutcome` | pkg/reconciler/reconciler.go:1204-1285 | every create outcome is stamped, conflicts included |
| `Reconciler.Converge` | pkg/reconciler/reconciler.go:1169-1342 | create, late initialization, poll and update follow the machine |
| `Reconciler.DeleteExternal` | pkg/reconciler/reconciler.go:1082-1122 | a delete ends in a requeue or an error, its lease given back |
| `Reconciler.UpdateExternal` | pkg/reconciler/reconciler.go:1344-1380 | an update ends in the poll delay or an error, its lease given back |
| `Reconciler.Finalize` | pkg/resource/api.go:48-55 | the object is written only when the finalizer was there, its removal may panic before the write, and a vanished object counts as let go |
| `Reconciler.Deferral` | pkg/reconciler/ratelimit.go:187-216 | a deferred pass returns the deferral's delay, or an error when its write failed |
| `Reconciler.Host.Gate` | pkg/reconciler/reconciler.go:879-883 | a slot is asked for only while none is held, and a granted one is at once backed by a deferred release |
| `Reconciler.Host.Unwind` | pkg/reconciler/reconciler.go:883-924 | the deferred releases leave no lease out |
| `ManagedObjects.ManagedObject.AddFinalizer` | pkg/meta/meta.go:93-102 | appends a missing finalizer and leaves a present one alone |
| `ManagedObjects.ManagedObject.RemoveFinalizer` | pkg/meta/meta.go:104-113 | for any list: panics if and only if the finalizer stands more than once and last, and otherwise leaves what the specification of the shrinking loop leaves |
| `ManagedObjects.Sweep` | pkg/meta/meta.go:104-113 | the in-place loop over the old length, with the entries moved down and the stale last one, does just that |
| `ManagedObjects.RemovesExactly` | pkg/meta/meta.go:104-113 | the finalizer comes off cleanly, every other one kept, if and only if it stands at most once, or is neither last nor ever twice in a row |
| `ManagedObjects.SweptExactly` | pkg/meta/meta.go:104-113 | the sweep leaves just the other entries if and only if the finalizer never stands twice in a row |
| `ManagedObjects.ManagedObject.FinalizerExists` | pkg/meta/meta.go:115-124 | membership |
| `ManagedObjects.ManagedObject.AddAnnotations` | pkg/meta/meta.go:151-162 | merges, the given values winning |
| `ManagedObjects.ManagedObject.RemoveAnnotations` | pkg/meta/meta.go:164-174 | drops exactly the named keys |
| `ManagedObjects.ManagedObject.SetExternalCreatePending` | pkg/meta/meta.go:210-214 | only the pending stamp changes, to the whole second of the time given |
| `ManagedObjects.ManagedObject.SetExternalCreateSucceeded` | pkg/meta/meta.go:227-231 | only the success stamp changes |
| `ManagedObjects.ManagedObject.SetExternalCreateFailed` | pkg/meta/meta.go:244-248 | only the failure stamp changes |
| `ManagedObjects.RemoveUndoesAdd` | pkg/meta/meta.go:93-113 | removing a finalizer just added does not panic and gives back the list, in order |
| `ManagedObjects.WithoutKeepsOthers` | pkg/meta/meta.go:104-113 | every other finalizer keeps its place and number |
| `ManagedObjects.IncompleteExactlyInLaterSecond` | pkg/meta/meta.go:250-270 | a fresh pending marker reads as unresolved if and only if its second is later than that of every terminal one |
| `CriticalUpdate.UpdateCriticalAnnotations` | pkg/reconciler/api.go:41-52 | the retry loop against a store with interfering writers, stale reads and hidden writes leaves the store, the object and the error of the try-by-try specification |
| `CriticalUpdate.Store.Update` | pkg/reconciler/api.go:43-50 | goes through only on the current version; a refusal may hide a stored write |
| `CriticalUpdate.SuccessMergesTheLatest` | pkg/reconciler/api.go:41-52 | a successful update stored the very version before it with the annotations merged in, so no concurrent change is lost |
| `CriticalUpdate.UpdateMerges` | pkg/reconciler/api.go:43-50 | every version the updater ever stored, reported or not, is its predecessor with the annotations merged in |
| `CriticalUpdate.CannotClear` | pkg/reconciler/api.go:41-52 | an annotation the update does not carry, such as a pending marker removed in memory, is what it was before |
| `CriticalUpdate.TryExactly` | pkg/reconciler/api.go:43-50 | how each try ends, and that it stores something if and only if its read was current and the write accepted or hidden; a stale read is a conflict, which is an API error |
| `CriticalUpdate.MoreTries` | pkg/reconciler/api.go:41-52 | more allowed tries are made exactly after an API error, going on from what the first ones left |
| `CriticalUpdate.OnceStoredStays` | pkg/reconciler/api.go:36-52 | once any try was stored the annotations stay stored through the tries that follow |
| `GovernorRuns.LeasesConserved` | pkg/ratelimit/governor.go:413-510 | in every reachable state each key's in-flight count is the number of outstanding leases on it, the local count is the number of leases, neither exceeds the ceiling, and every capacity lies in [1, ceiling] |
| `GovernorRuns.AllOrNothing` | pkg/ratelimit/governor.go:459-510 | a call is granted if and only if none of its scopes is held or full and a local slot is free; then it takes one slot in each, else none, and its keys are touched either way |
| `GovernorRuns.ReleaseGuardsNeverFire` | pkg/ratelimit/governor.go:427-434 | every slot a release gives back was counted, so the `> 0` guards never matter |
| `GovernorRuns.DoubleReleaseIsNothing` | pkg/ratelimit/governor.go:422-436 | releasing a lease again changes nothing |
| `GovernorRuns.StepSound` | pkg/ratelimit/governor.go:327-610 | every operation keeps the counts, bounds and ramp facts |
| `GovernorLaws.CallDependsOnNames` | pkg/ratelimit/governor.go:439-445 | order, repetition and empty keys change neither the answer nor the state |
| `GovernorEffects.SignalExactly` | pkg/ratelimit/governor.go:522-549 | in numbers: a refusal takes its key to 1 and holds it until the latest of the old hold, now + RetryAfter and ResetAt; a signal that slows takes c to max(1, c / 2) and leaves the hold; both restart the clean interval; every other signal changes nothing, and none another key, a lease or the local capacity |
| `GovernorEffects.RunHalvesKey` | pkg/ratelimit/governor.go:535-541 | in any run that neither raises nor refuses a key, n signals that slow it turn capacity c into exactly max(1, floor(c / 2^n)) |
| `GovernorEffects.TouchExactly` | pkg/ratelimit/governor.go:367-383 | in numbers: when a touch raises a key by one, and that it changes nothing else |
| `GovernorEffects.AskingExactly` | pkg/ratelimit/governor.go:551-562 | asking for a capacity touches a known key alone and makes none known |
| `GovernorEffects.RegisterExactly` | pkg/ratelimit/governor.go:327-343 | in numbers: a registration takes to the new ceiling exactly the keys, and without saturation the local capacity, that stood at the old one; every cut key keeps its capacity, and every key its hold, times and slots |
| `GovernorEffects.CeilingCountsRegistrations` | pkg/ratelimit/governor.go:312-365 | after any run an unknown key stands at workers times max(1, registrations) |
| `GovernorEffects.RefusedExactly` | pkg/ratelimit/governor.go:463-503 | over every state, what a call that no hold stops is told: the first full key with its capacity, else the full local capacity with its one of three reasons, its cause and its key, else a grant; with the delay drawn up to RecoveryInterval, or up to what the ramp needs |
| `GovernorEffects.ThrottledTold` | pkg/ratelimit/governor.go:470-480 | a throttled call is told no capacity and no cause, and the first in order of the latest holds |
| `GovernorEffects.JitterExactly` | pkg/ratelimit/governor.go:292-311 | every drawn delay lies in [min(1s, hi), hi], every instant of that range is drawn, and a failed draw gives hi |
| `GovernorEffects.SettingsExactly` | pkg/ratelimit/governor.go:246-290 | which settings are accepted, and that RecoveryInterval defaults to 30 seconds |
| `KeySets.NormalizeKeepsNames` | pkg/ratelimit/governor.go:439-445 | normalizing keeps exactly the scopes named, strictly ascending |
| `KeySets.NormalizeDependsOnNames` | pkg/ratelimit/governor.go:439-445 | two lists that name the same scopes normalize alike |
| `GovernorLaws.ThrottledExactlyWhenHeld` | pkg/ratelimit/governor.go:467-480 | a call is throttled if and only if one of its scopes is held, whatever is full; the deadline is the latest hold and the delay the time left to it |
| `GovernorLaws.DeadlineIsABarrier` | pkg/ratelimit/governor.go:522-543 | after a refusal with deadline d no call naming the key is granted before d in any continuation |
| `GovernorLaws.HoldsNeverShrink` | pkg/ratelimit/governor.go:536-539 | no operation moves any key's hold earlier |
| `GovernorLaws.WakesSoundly` | pkg/ratelimit/governor.go:474-480 | a throttled call that returns when told, with no new signal for its scopes, is throttled again if and only if before the call one of its scopes was held further ahead than the largest duration |
| `GovernorLaws.FarHoldThrottlesAgain` | pkg/ratelimit/governor.go:474-480 | every call for a key held further away than the largest duration is throttled again when it comes back as told |
| `GovernorLaws.ProgressAtTheFloor` | pkg/ratelimit/governor.go:463-510 | with nothing in flight every call without a held scope is granted, whatever cuts, samples and registrations came before |
| `GovernorLaws.HealthyEndpointsNeverWait` | pkg/ratelimit/governor.go:316-365 | with saturation off, a call whose scopes nobody signalled is granted whenever fewer than ceiling leases are out, across registrations |
| `GovernorLaws.KeysDoNotInterfere` | pkg/ratelimit/governor.go:327-365 | a key's timeline after any run is that after the operations naming it, the registrations and the snapshots alone |
| `GovernorLaws.DeferredCallsStillAdvance` | pkg/ratelimit/governor.go:470-480 | a call advances the recovery of every scope it names even when another scope defers it, and moves no other key |
| `GovernorPace.RunRecoveryBound` | pkg/ratelimit/governor.go:367-383 | in any run, after a cut to c, with no other signal for the key and registrations only while it stands under the ceiling of the moment, capacity by time t is at most c + max(0, floor((t - base) / RecoveryInterval)) |
| `GovernorPace.RunRecoveryExact` | pkg/ratelimit/governor.go:367-383 | in any run, after a cut to c, n touches a RecoveryInterval apart with no registration or signal for the key between bring it to exactly min(ceiling, c + n) |
| `KeyTimeline.RecoveryBound` | pkg/ratelimit/governor.go:367-383 | the same bound for any touches of one timeline, however often |
| `KeyTimeline.RecoveryExact` | pkg/ratelimit/governor.go:367-383 | n touches a RecoveryInterval apart after the base reach exactly min(ceiling, c + n) |
| `GovernorPace.OnlySamplesMoveLocal` | pkg/ratelimit/governor.go:595-610 | with saturation on, the local capacity after any run is what the sampler makes of the run's samples alone |
| `GovernorPace.RunRampBound` | pkg/ratelimit/saturation.go:245-273 | in any run without a cut, local capacity by time t is at most 1 + floor((t - first sample) / StartupRampInterval) |
| `GovernorPace.RunLocalRecoveryBound` | pkg/ratelimit/saturation.go:245-273 | in any run, after a saturated sample that left c, local capacity by time t is at most c + floor((t - that sample) / RecoveryInterval), whatever comes between |
| `GovernorPace.RunLocalRecoveryExact` | pkg/ratelimit/saturation.go:262-269 | in any run, after a saturated sample that left c, n clean samples a RecoveryInterval apart with no registration between bring local capacity to exactly min(ceiling, c + n) |
| `GovernorPace.RunRampExact` | pkg/ratelimit/saturation.go:245-273 | in any run, after the first sample, n more clean ones a StartupRampInterval apart with no registration between bring local capacity to exactly min(ceiling, 1 + n) |
| `GovernorPace.RunHalves` | pkg/ratelimit/saturation.go:256-259 | a run whose k samples are all soft-saturated turns local capacity c into exactly max(1, floor(c / 2^k)), whatever calls, signals and registrations come between |
| `GovernorPace.NeverQuietAfterACut` | pkg/ratelimit/governor.go:486-502 | once a saturated sample was taken no deferral in any continuation is a ramping one |
| `GovernorDelays.JitterCovers` | pkg/ratelimit/governor.go:292-311 | a drawn delay stays in its range and reaches all of it |
| `GovernorDelays.QuietExactly` | pkg/ratelimit/governor.go:459-503 | a call is deferred quietly if and only if it awaits the ramp; every other delay is positive |
| `GovernorDelays.DelayPositiveExactly` | pkg/ratelimit/governor.go:447-503 | in any state a call is deferred without a positive delay if and only if, before it, its scopes have room, the local capacity is full and not saturated, the started sampler is on its ramp, and the time left, wrapped to a duration, is not positive |
| `GovernorDelays.RampLeftExactly` | pkg/ratelimit/governor.go:440-453 | the time left is exact while it fits a duration, and not positive exactly when the exact one is a multiple of 2^64 or has its 64th bit set |
| `GovernorDelays.LostOnlyTwoWays` | pkg/ratelimit/governor.go:440-453 | in every reachable state on the ramp, no time is left only under a ceiling of 1 before the first sample, where that is sure, or with a time left that no duration holds |
| `GovernorDelays.ZeroDelayIsReachable` | pkg/ratelimit/governor.go:447-503 | the two operations that lead to a delay of zero |
| `GovernorDelays.NegativeDelayIsReachable` | pkg/ratelimit/governor.go:447-503 | a run of a thousand workers with accepted settings and a clean sample taken that leads to a negative delay |
| `GovernorDelays.RampingDelayBound` | pkg/ratelimit/governor.go:447-498 | in every reachable state a ramping deferral's delay is at most the whole steps the ramp still needs, and at most RecoveryInterval |
| `RampEnd.RampLastsExactly` | pkg/ratelimit/saturation.go:229-273 | for any ticker the samples keep to, the ramp is still on at an instant in every continuation without a registration or a cut if and only if that is before the next possible step and the steps after it |
| `RampEnd.BackFirstExactly` | pkg/ratelimit/governor.go:83-86 | for any such ticker, in every reachable state, a call deferred on the ramp is back before the ramp ends, in all such continuations, if and only if its delay is positive and ends before that earliest end |
| `RampEnd.SureToBeBackFirst` | pkg/ratelimit/governor.go:83-86 | the same before the call and over every draw: if and only if the longest delay is positive and ends before the earliest end |
| `RampEnd.OnlyAShorterRecovery` | pkg/ratelimit/governor.go:440-453 | for a ticker whose least distance is at most SamplePeriod, counted from the last sample of the run, and with a time left that fits a duration, a call is sure to be back first if and only if RecoveryInterval from now ends before the earliest end |
| `RampEnd.RampMayEndFirst` | pkg/ratelimit/governor.go:83-86 | a run whose ramp is over before the delay of a call it deferred |
| `Saturation.DefaultsAreUsable` | pkg/ratelimit/saturation.go:122-150 | accepted settings are in range and are left alone when checked again, and settings in range are accepted |
| `Saturation.DefaultsExactly` | pkg/ratelimit/saturation.go:122-150 | the default of each setting left at zero, and that exactly the settings then in range are accepted |
| `Saturation.SampleExactly` | pkg/ratelimit/saturation.go:245-287 | one sample in percentages: a working set at the hard ratio takes capacity to 1, one at the soft ratio or CPU pressure above the threshold halves it, and both are named; a clean one raises by 1 exactly when an interval has passed under the ceiling, RecoveryInterval after a cut and StartupRampInterval before one |
| `Saturation.ClimbExact` | pkg/ratelimit/saturation.go:262-269 | n clean samples an interval apart bring capacity from c to exactly min(ceiling, c + n), on the ramp and after a cut |
| `Saturation.RampBound` | pkg/ratelimit/saturation.go:245-273 | until a sample cuts it the local capacity is at most 1 + floor((t - first sample) / StartupRampInterval) |
| `Saturation.RecoveryBound` | pkg/ratelimit/saturation.go:245-273 | after a saturated sample that left c, capacity is at most c + floor((t - that sample) / RecoveryInterval), whatever samples follow |
| `Saturation.HalvesPerSaturatedSample` | pkg/ratelimit/saturation.go:256-259 | k soft-saturated samples in a row turn c into exactly max(1, floor(c / 2^k)) |
| `Saturation.CutStays` | pkg/ratelimit/saturation.go:198-200 | a cut is never forgotten, and no ramp starts after it |
| `Saturation.Sampler.Step` | pkg/ratelimit/saturation.go:229-273 | the in-place step gives the local state and the memory of its specification |
| `Governors.Governor.Create` | pkg/ratelimit/governor.go:246-290 | refuses exactly the settings out of range, and otherwise starts at the initial state of the runs |
| `Governors.Governor.AcquireAll` | pkg/ratelimit/governor.go:401-437 | the whole new state and the deferral are those of the run step; a slot comes back exactly when there is no deferral |
| `Governors.Governor.Acquire` | pkg/ratelimit/governor.go:459-510 | every check comes before the first slot is taken, so a refusal leaves the touched state |
| `Governors.Governor.AcquireTouched` | pkg/ratelimit/governor.go:481-507 | once no hold stops the call: the first full key, else the full local capacity, else one slot in each key and a local one |
| `Governors.Governor.TouchAll` | pkg/ratelimit/governor.go:467-480 | one loop raises each key and finds the first of the latest holds |
| `Governors.Governor.FindFull` | pkg/ratelimit/governor.go:481-485 | the first full key, with early return |
| `Governors.Governor.TakeSlots` | pkg/ratelimit/governor.go:505-507 | one more in flight in each key and nowhere else |
| `Governors.Governor.DeferLocally` | pkg/ratelimit/governor.go:486-502 | which of the four local reasons applies, with its delay, the ramp product wrapped to a duration, and its cause |
| `Governors.Governor.MaybeRaise` | pkg/ratelimit/governor.go:367-383 | one raise at most, after a clean interval |
| `Governors.Slot.Release` | pkg/ratelimit/governor.go:422-436 | gives its slots back once; a later call changes nothing |
| `Governors.Governor.GiveSlotsBack` | pkg/ratelimit/governor.go:427-431 | one less in flight in each known key that had any |
| `Governors.Governor.Observe` | pkg/ratelimit/governor.go:522-549 | folds a signal into its own key, and leaves everything else alone |
| `Governors.Governor.RegisterReconciler` | pkg/ratelimit/governor.go:327-343 | lifts exactly the keys, and without saturation the local capacity, that stood at the old ceiling |
| `Governors.Governor.Capacity` | pkg/ratelimit/governor.go:551-562 | the capacity after a touch, the ceiling for an unknown key, which stays unknown |
| `Governors.Governor.Snapshot` | pkg/ratelimit/governor.go:641-662 | touches every key and lists each once, in order, with its capacity and time to reset |
| `Governors.Governor.Sample` | pkg/ratelimit/governor.go:595-610 | publishes the sampler's next state and changes no key |
| `Governors.Governor.Start` | pkg/ratelimit/governor.go:569-580 | the sampler counts as started exactly when saturation is on |
| `Governors.ListingShowsAll` | pkg/ratelimit/governor.go:641-662 | the listing names every key once, in ascending order, with its capacity and the time left on its hold |
| `HttpSignal.RetryAfterBlocks` | pkg/ratelimit/httpsignal/httpsignal.go:146-232 | end to end: after a 429, 403 or 503 with a Retry-After of up to a hundred years, no call naming the key is granted for that many seconds, in any continuation |
| `HttpSignal.RetryDateBlocks` | pkg/ratelimit/httpsignal/httpsignal.go:196-214 | the same up to a Retry-After date |
| `HttpSignal.WakesTooEarly` | pkg/ratelimit/httpsignal/httpsignal.go:249-261 | end to end: after a 429 whose X-RateLimit-Reset is the latest one the parser takes, received more than 292 years before it, a call that comes back as told is throttled again |
| `HttpSignal.LatestResetRefuses` | pkg/ratelimit/httpsignal/httpsignal.go:249-261 | that header is parsed as a refusal until its instant in the year 5138 |
| `HttpSignal.RefusalKeepsDeadlines` | pkg/ratelimit/httpsignal/httpsignal.go:150-186 | a refusal is always reported as one, with a deadline no earlier than either header names |
| `HttpSignal.RefusalDeadlineExactly` | pkg/ratelimit/httpsignal/httpsignal.go:150-186 | the deadline of a refusal is exactly the later of now plus what Retry-After asks, when it asks for any time, and the reset |
| `HttpSignal.SignalOfExactly` | pkg/ratelimit/httpsignal/httpsignal.go:146-186 | the whole signal of a response, field by field, and when there is one to report, from its status and headers |
| `HttpSignal.RemainingExactly` | pkg/ratelimit/httpsignal/httpsignal.go:150-186 | what is left is what is stated, or else the limit less what was used, never below zero, and unknown without either |
| `HttpSignal.ReadExactly` | pkg/ratelimit/httpsignal/httpsignal.go:216-261 | which header values are readable, and as what at the ends of their range |
| `HttpSignal.AdvisoryExactly` | pkg/ratelimit/httpsignal/httpsignal.go:137-186 | which responses slow a key down without a refusal, both directions, across header rules and classification |
| `HttpSignal.NothingLostUnreported` | pkg/ratelimit/httpsignal/httpsignal.go:183-186 | a response that is not reported would not have changed the governor |
| `HttpSignal.DelayNeverShort` | pkg/ratelimit/httpsignal/httpsignal.go:216-232 | a delay is rounded up by less than a nanosecond, and covers what was asked if and only if that is at most a hundred years |
| `HttpSignal.CountNeverHigh` | pkg/ratelimit/httpsignal/httpsignal.go:234-247 | a count is rounded down and bounded |
| `HttpSignal.ResetWithinANanosecond` | pkg/ratelimit/httpsignal/httpsignal.go:249-261 | a reset instant is rounded down by less than a nanosecond |
| `Gatekeeping.Gatekeeper.Gate` | pkg/reconciler/ratelimit.go:131-161 | a call goes through ungated exactly without a governor, or with no scope named and saturation off; otherwise it is the governor's answer; a key error names no scope |
| `Gatekeeping.OnTheLogExactly` | pkg/reconciler/ratelimit.go:144-154 | an object is remembered exactly while its keyer failed and has not answered since |
| `Gatekeeping.LoggedOncePerStreak` | pkg/reconciler/ratelimit.go:125-154 | an error is logged if and only if the keyer answered since each earlier failure: once per streak |
| `Gatekeeping.DeferReconcile` | pkg/reconciler/ratelimit.go:187-216 | the conditions it leaves, whether it writes, whether an event is due and what it returns |
| `Gatekeeping.OnlySyncedMoves` | pkg/reconciler/ratelimit.go:163-186 | every condition but Synced keeps even its transition time; on the ramp Synced does too, without an event |
| `Gatekeeping.DeferralEndsExactly` | pkg/reconciler/ratelimit.go:187-216 | a deferred pass writes its status if and only if the object is not what was read, errs if and only if that write is refused, else returns the delay; what Synced then says; and when an event is due |
| `Gatekeeping.MessageExactly` | pkg/ratelimit/governor.go:98-129 | what the message of each kind of deferral names |
| `Gatekeeping.QuietRepeats` | pkg/reconciler/ratelimit.go:170-178 | over any streak of deferrals, with refused writes in between, status writes are the messages not already stored and events the first of them and new server deadlines; repeats and the ramp are silent |
| `Gatekeeping.DeadlinesReadAlikeExactly` | pkg/ratelimit/governor.go:131-139 | two throttled deferrals of a key read the same if and only if their deadlines round up to the same second |
| `Gatekeeping.LaterDeadlineUnannounced` | pkg/reconciler/ratelimit.go:170-178 | two refusals of a key with deadlines in one second: both calls are deferred, each to its deadline, but the second deferral writes nothing and records no event |
| `Gatekeeping.NextAttemptNeverEarly` | pkg/ratelimit/governor.go:131-139 | the attempt a message names is never before the deadline and less than a second after |
| `Conditions.ConditionedStatus.SetConditions` | apis/common/v1/condition.go:130-153 | the nested loops over the list give the left-to-right specification |
| `Conditions.ConditionedStatus.GetCondition` | apis/common/v1/condition.go:118-128 | the first condition of a kind, or an unknown one |
| `Conditions.ConditionedStatus.Equal` | apis/common/v1/condition.go:155-183 | decides equality of the lists sorted by kind, null included |
| `Conditions.LastSetWins` | apis/common/v1/condition.go:130-153 | a kind reads as the last condition of it that was set, and as before, transition time included, when none was |
| `Conditions.SetThenGet` | apis/common/v1/condition.go:134-151 | an equal condition keeps the old transition time, any other is taken over whole |
| `Conditions.SameUpToTime` | apis/common/v1/condition.go:78-89 | two conditions compare equal if and only if nothing but their transition times differs |
| `Conditions.OneOfEachStays` | apis/common/v1/condition.go:59-62 | at most one condition of each kind, kept by every call |
| `Conditions.SetChangesExactly` | apis/common/v1/condition.go:130-133 | a list with one entry per kind is unchanged if and only if it already said the same |
| `Conditions.EqualConditionsChangeNothing` | apis/common/v1/condition.go:130-133 | setting conditions that are all there, times aside, is no change at all |
| `Conditions.EqualExactlyAsMaps` | apis/common/v1/condition.go:155-183 | on lists with one entry per kind the comparison is equality of the maps they stand for, order and times aside |
| `Backoff.RateLimiter.When` | pkg/workqueue/workqueue.go:34-65 | the new failures and the delay, for a new, a counting and an idle item |
| `Backoff.RateLimiter.Forget` | pkg/workqueue/workqueue.go:74-82 | drops an item only once it is idle, and does nothing for a missing one |
| `Backoff.BusyCounts` | pkg/workqueue/workqueue.go:34-82 | over any run that leaves an item busy, its count, which is what NumRequeues reports, grows by exactly its Whens |
| `Backoff.IdleExactly` | pkg/workqueue/workqueue.go:34-82 | in any run that leaves an item busy it counts as idle if and only if its last When was more than twice the maximum ago |
| `Backoff.CappedExactly` | pkg/workqueue/workqueue.go:53-64 | every delay is base and then min(max, base * 2^(n-1)), if and only if base is no power of two or an overflow gives at least max |
| `Backoff.NeverSooner` | pkg/workqueue/workqueue.go:53-64 | the delays of a streak do not decrease |
| `Backoff.StreakFollowsTheClosedForm` | pkg/workqueue/workqueue.go:34-65 | in any run the n-th When of an unbroken streak returns the n-th delay, whatever happens to other items or is forgotten too early |
| `Backoff.IdleUntilForgotten` | pkg/workqueue/workqueue.go:44-82 | once idle, every When in any continuation returns 0 and counts nothing until Forget, and then the item restarts at base |
| `Backoff.StreakSurvivesExactly` | pkg/workqueue/workqueue.go:44-46 | an item asked about again at once is still in its streak if and only if twice the maximum fits a duration |

## Left out

- Kubernetes client, cache, manager and work queue internals: a versioned store whose guarded write needs
  the current version, and at most one pass per object at a time.
- External names and other annotations a provider sets during Observe or Create: the pass carries its own
  copy of the object through those calls unchanged.
- Truthfulness of Observe when it reports a resource: a present answer is taken to be right; only absent
  answers may be wrong, within the lag.
- Writers other than the runtime that touch the create markers: assumed not to.
- Store writes still under way when a pass is cut off: an effect has taken hold or not by the time of the
  crash.
- In `Handshake` the critical annotation update is one atomic merge; its retries, and several hidden
  writes of one call, are in `CriticalUpdate` only.
- Sharing of the annotation map between the object and the captured copy in the retry loop: the copy is a
  value.
- NoLeakLimits.LeakFreeExactlyWhenPatient: for recovery periods that rule out duplicates; under shorter ones
  `LeakFreeNeedsPatience` gives what is necessary, and a duplicate that hides another is not followed up.
- GovernorPace.RunRecoveryBound: while registrations find the key under the ceiling, because one that finds it
  there lifts it, even a key cut to an old ceiling of 1; and with clock readings in lock order.
- GovernorPace.RunRecoveryExact: between registrations only.
- Conditions.ConditionedStatus.Equal: with several entries of one kind the source's unstable sort leaves
  their order open; the model keeps the list order, and the map reading is proved without duplicates.
- Wording of messages and causes: messages are told apart by what they name, and a cause's words are an
  arbitrary function of the cause.
- Rounding of binary floating point: percentages, header numbers and the backoff product are exact.
- Wrap-around of the ceiling, of the in-flight counts and of the number of reconcilers: unbounded integers,
  as each counts running workers.
- Header text, cgroup files, PSI text and path discovery: samples and header fields arrive parsed.
- The sampler's ticker: when samples come is up to the run; results that depend on it take the least time
  between two as a parameter.
- The random source: a draw is any number, or none when the read fails.
- Poll interval hooks: the poll interval is whatever the hook returns, one value per pass machine.
- Logging, metrics, event texts, contexts, timeouts, Disconnect, labels, error wrapping and the Ready
  contract check: no state of interest.
- Conditions inside the pass machine: a status write is an effect there; what it says about deferrals is in
  `Gatekeeping`.
- The quiet re-queue counting of the controller, the rate limiter of reconcilers, the ready assessment and
  the condition helpers of pkg/resource: counting and one-branch members.
