# Verified model of the TL controller

ExoMonad's TL controller (`tl_loop`) drives a plan of agent work from durable state: every decision is a
guarded step over a checkpoint that has to survive crashes and repeated deliveries. This project models the
parts of it whose correctness is decided by code, and proves what they keep over every input, every run or
every interleaving.

| part | files | what is modelled |
|---|---|---|
| dependency DAG | `Graphs`, `PlanDependencies` | walks and cycles; the iterative depth-first cycle search with its frame stack |
| scheduler | `Slices`, `Schedule`, `ScheduleProperties`, `ScheduleLaws`, `ScheduleWrites`, `Parking`, `DispatchRuns`, `DispatchSafety`, `DispatchHazards`, `DispatchProgress`, `DeadEnds` | readiness, suspension, restoration, abandonment, withholding and parking; whole dispatch runs, their safety, progress and dead ends |
| post-merge machine | `PostMerge`, `PostMergeRuns`, `PostMergeHistory`, `PostMergeReplay`, `PostMergeReturns`, `PostMergeAcceptance`, `PostMergeSources` | 14 events over cumulative evidence, with the one backward (rebuild) edge; which event takes effect when, and where each piece of evidence comes from |
| repository lane | `Lanes`, `LaneAcceptance` | serialized ownership of one repository and parent branch |
| recursive scope | `Children`, `Scope`, `ScopeBarriers`, `ScopeRuns`, `ScopeTheorems`, `ScopeReplay`, `ScopeLateCopies`, `ScopeAcceptance`, `ScopeCompletions`, `ScopeProjections` | planning, running, barriers, completion, finalization, with the post-merge machine inside |
| crash-safe effects | `Escalation`, `EscalationTitles`, `EscalationRetries`, `Journal`, `RecoveryCommand` | one issue per escalation under crashes; the effect journal; one recovery command through it |
| ledger delivery | `LedgerDelivery`, `LedgerQueue`, `SegmentCache`, `SegmentReads` | tailer, bounded queue, persisted cursor and restarts; the segment cache and its index |
| recovery probing | `RecoveryPolicy` | the policy table, probe decisions and signals, with time as a real number |

Code that the program writes as loops and in-place updates is written that way here (`Visit`, `Ready`,
`SuspendDependents`, `RunDocument`, `EffectJournal`, `LedgerQueue`, `LedgerReader`), each method proved
against a specification function or predicate; the theorems are about those specifications, and what each of
them writes, accepts or answers is stated once more in the records' own fields (`ScheduleLaws`, `ScheduleWrites`,
`PostMergeAcceptance`, `PostMergeSources`, `LaneAcceptance`, `ScopeAcceptance`, `SegmentReads`). Frozen values
and reducers are datatypes and functions. Exceptions are values: `Result` carries the refusal, and where
the program can fail either in a guard or in a constructor the two have different names, so that "the
constructor never refuses" is a statement.

## What the code does not do

Some properties one would expect are false of the code. Each has a lemma with the failing input or the
exact condition:

- A recovering slice can merge: neither the merge reducer nor the slice transition looks at the recovery. Then
  the end of its recovery returns merged dependents to pending under slices already built on them
  (`DispatchHazards.LateRecoveryBreaksSafety`, a run from a fresh acyclic plan). A run keeps the dependency order
  and the ownership of paths at every point exactly when each of its steps is harmless, a condition on the table
  before the step (`DispatchSafety.RunsAreDispatchSafeIff`): dispatching, starting a recovery and withholding always
  are. Asking in addition that suspension marks stay sound gives a simpler sufficient condition, sparing
  (`DispatchRuns.StepKeepsSafeIff`, `DispatchSafety.SparingIsHarmless`); runs that never take a merged slice back
  meet it (`DispatchRuns.RunsAreSafe`).
- Suspension and parking hold back the same dependents exactly when no refused dispatch waits for the blocker
  or for a suspended slice: only parking reaches through `DISPATCH_FAILED`
  (`Parking.ClosuresAgreeIffNoneRefused`, `Parking.RefusedDispatchDivides`).
- Restoring after suspending gives the slices back exactly when no dependent was suspended before and no
  other slice carried the mark (`ScheduleProperties.RestoreUndoesSuspend`).
- The never-merges walk passes through merged slices, so withholding can block a slice behind a ready one: on a
  hand-edited table (`DeadEnds.WithholdCanBlockBehindAReadySlice`), and on a safe table after the failure of a
  merged slice is observed, which the reducer accepts
  (`DeadEnds.FailureOfAMergedSliceBlocksBehindAReadyOne`). On any table it does so exactly when the ready slice
  rests on a merged dead end (`DeadEnds.WithheldBehindReadyIff`); on a safe table of an acyclic plan it never does
  (`DeadEnds.WithheldPrerequisiteNeverRuns`).
- The changelog commit after a rebuild may reuse the failed intent: exactly when the mark of an applied rebuild
  was already set (`PostMergeHistory.RebuildMayReuseItsIntentIff`), or when another intent was announced in
  between for the new generation (`PostMergeHistory.AnnouncedIntentMayReturnIff`). A second rebuild therefore
  accepts the intent of the first, and even a late copy of its commit
  (`PostMergeHistory.SecondRebuildReusesItsIntent`).
- Late copies of three kinds of post-merge event can change something, in every run exactly when a rebuild has
  brought the child back to where the copy fits (`PostMergeReplay.LateCopyChangesIff`): an announced intent that was
  replaced in its generation (`PostMergeReturns.LateIntentReplacesTheNewer`), a commit under the intent on record, and
  a push that shares nothing with the push declared failed last. Copies of the other eleven kinds, and all copies in
  a run without a rebuild on record, change nothing (`PostMergeReplay.LateCopyIsIdle`).
- A completion may push under the identity of an older failed push, exactly when the newest rebuild declared a push
  of another intent and another journal failed (`PostMergeReturns.FailedPushMayCompleteIff`,
  `PostMergeReturns.FirstFailedPushCompletes`).
- Issue-close attempts are not bounded by failures (`PostMergeHistory.RetriesOutnumberFailures`, a run from a
  fresh child). They stay within failures plus one exactly as long as every accepted retry answers a failure that
  no earlier retry answered (`PostMergeHistory.AttemptsBoundedThroughoutIff`).
- The index of finished invocations goes stale when a read fails after caching an earlier segment and
  nothing changes afterwards (`SegmentCache.FailedReadLosesAMatch`), and it keeps the matches of a segment that
  vanishes between listing and stat (`SegmentCache.GoneSegmentKeepsItsMatch`). `SegmentCache.IndexIsRightIff` is the
  exact condition for one read, `SegmentCache.IndexIsRightWithoutFailures` for runs in which no read fails.
- A newer signal in the resume-intended phase restarts the wait without using a round
  (`RecoveryPolicy.AcceptedSignalUsesARoundIff`), and scheduling a probe leaves the phase table exactly from
  the revalidating and resume-intended phases (`RecoveryPolicy.ScheduledProbeKeepsTheTableIff`).
- A ledger event numbered zero is never delivered, because the replay is strictly above a cursor that
  starts at zero (`LedgerDelivery.RestartDeliversTheRest`).

## Model

| member | source | states |
|---|---|---|
| Graphs.CoveredIsAcyclic | tl_loop/plan_dependencies.py:127-137 | once every declaring node lies in a closed set into which no cycle reaches, the whole declared relation is acyclic |
| Graphs.MinimalNode | tl_loop/plan_dependencies.py:13-20 | in an acyclic relation every non-empty set of nodes has one that depends on nothing in the set |
| PlanDependencies.DeclaredTargets | tl_loop/plan_dependencies.py:71-83 | accepts exactly arrays of distinct non-blank names and keeps their order; each error names the first element that is no new name |
| PlanDependencies.RequireSameScope | tl_loop/plan_dependencies.py:86-124 | passes exactly when every declarer is a leaf and every target is another leaf; each error names an offending declaration and says what its target is instead |
| PlanDependencies.PopFrame | tl_loop/plan_dependencies.py:150-155 | finishing an exhausted frame keeps the stack invariant, and the finished nodes stay closed and cycle-free |
| PlanDependencies.PushFrame | tl_loop/plan_dependencies.py:156-165 | descending into a new target keeps the stack invariant and finishes nothing |
| PlanDependencies.CloseTrail | tl_loop/plan_dependencies.py:158-162 | an edge from the end of the trail back onto it closes a genuine cycle of declared edges |
| PlanDependencies.Visit | tl_loop/plan_dependencies.py:140-165 | terminates; either everything reached is settled, closed and cycle-free, or the reported trail is a cycle |
| PlanDependencies.RequireAcyclic | tl_loop/plan_dependencies.py:127-137 | returns normally if and only if the declared relation is acyclic, and otherwise returns a genuine cycle |
| PlanDependencies.ValidateLeafDependencies | tl_loop/plan_dependencies.py:45-68 | succeeds if and only if every declaration is well formed, stays in scope and the relation is acyclic; the value is the normalized edges; a malformed declaration is blamed before the scope, and the scope before a cycle |
| Slices.DependentsAreLeast | tl_loop/loop/schedule.py:97-151 | the slices reachable along chains of non-terminal dependents are exactly the least set closed under waiting |
| Slices.NotOwnDependent | tl_loop/loop/schedule.py:126-149 | on an acyclic graph a slice is never among its own dependents |
| Schedule.SelectGreedily | tl_loop/loop/schedule.py:66-78 | the selection loop takes each candidate that collides with nothing live or taken, up to capacity |
| Schedule.Ready | tl_loop/loop/schedule.py:48-86 | the answer, the deadlock report and the negative-width error of readiness, on every table; what they mean is ReadyByStatus, FirstComeFirstServed, RecoveringFreesAPlace and DeadlockReports below |
| Schedule.ExpandLevel | tl_loop/loop/schedule.py:131-149 | one level suspends exactly the unseen candidates that wait for the frontier |
| Schedule.SuspendDependents | tl_loop/loop/schedule.py:97-151 | the level-by-level search suspends exactly the transitive dependents through non-terminal slices; both input errors |
| Schedule.RestoreDependents | tl_loop/loop/schedule.py:154-176 | restores exactly the slices suspended by this blocker and generation, and only once the blocker stopped recovering |
| Schedule.PropagateAbandonment | tl_loop/loop/schedule.py:179-199 | every slice suspended by this blocker and generation ends blocked, on that blocker and without the mark; every other slice is unchanged |
| Schedule.WithholdUnsatisfiable | tl_loop/loop/schedule.py:202-231 | blocks every pending slice with an edge that can never be met, on the first such edge |
| ScheduleProperties.SuspendTwice | tl_loop/loop/schedule.py:104-116 | reapplying the same signal changes nothing |
| ScheduleProperties.RestoreUndoesSuspend | tl_loop/loop/schedule.py:97-176 | recovery after suspension gives the original slices back if and only if nothing was marked before |
| ScheduleProperties.NeverMergesIff | tl_loop/loop/schedule.py:283-298 | the path-set recursion terminates and is true exactly when a dependency walk reaches an absent, failed or blocked slice or a cycle |
| ScheduleProperties.UnsatisfiableIff | tl_loop/loop/schedule.py:262-280 | the reported edges are exactly the unmerged prerequisites from which a dead end can be walked to |
| ScheduleProperties.DeadEndsDoNotSpread | tl_loop/loop/schedule.py:218-231 | blocking the withheld slices creates no new dead end |
| ScheduleProperties.WithholdTwice | tl_loop/loop/schedule.py:202-231 | one withholding pass is a fixpoint |
| ScheduleProperties.WithheldNeverDeadlocks | tl_loop/loop/schedule.py:79-86 | after a withholding pass readiness never reports a deadlock, at any width |
| ScheduleProperties.ReadyFacts | tl_loop/loop/schedule.py:48-86 | selected slices are pending with every dependency merged, collide neither with live slices nor each other, fit the width next to the live slices that are not recovering, and nothing further could be taken |
| ScheduleProperties.DeadlockMeans | tl_loop/loop/schedule.py:79-85 | a deadlock is reported exactly when the width allows a spawn, nothing is live or ready, and some pending slice is behind a dead end |
| ScheduleLaws.RecoveringFreesAPlace | tl_loop/loop/schedule.py:59-65 | a live slice that starts to recover gives back its place: readiness at a width then answers, the deadlock report included, as readiness of the old table at one more |
| ScheduleLaws.ReadyByStatus | tl_loop/loop/schedule.py:55-78 | in the statuses themselves: a negative width is refused; who is selected is pending behind merged dependencies, on paths apart from every spawned, reviewed or repaired slice, within the width that those of them leave that are not recovering |
| ScheduleLaws.FirstComeFirstServed | tl_loop/loop/schedule.py:66-78 | each eligible slice in turn is taken exactly when a place is left and its paths are apart from those of live slices and of the ones taken before it |
| ScheduleLaws.EligibleInOrder | tl_loop/loop/schedule.py:61-63 | the eligible slices keep the order of the plan |
| ScheduleLaws.DeadlockReports | tl_loop/loop/schedule.py:79-85 | a deadlock lists exactly the pending slices with an unmerged dependency that can never merge, and under each of them all its unmerged dependencies |
| ScheduleWrites.SuspensionHoldsBack | tl_loop/loop/schedule.py:97-151 | exactly the dependents become pending, with their blocker, its generation and the status they first had; a mark of the same recovery keeps the earlier status |
| ScheduleWrites.RestorationGivesBack | tl_loop/loop/schedule.py:154-176 | once the blocker is no longer recovering, exactly the marked slices get their first status back and lose the mark; until then nothing changes |
| ScheduleWrites.AbandonmentBlocksTheMarked | tl_loop/loop/schedule.py:179-199 | on any table the slices carrying the mark end blocked on the blocker without it, other fields kept, and no other slice changes |
| ScheduleWrites.AbandonmentBlocksTheSuspended | tl_loop/loop/schedule.py:97-199 | suspending and then abandoning blocks every dependent on the blocker, and leaves all others alone if and only if none of them carried the mark before |
| ScheduleWrites.AbandonedRunsEndBlocked | tl_loop/loop/schedule.py:179-199 | in a run, a slice still suspended when its blocker is abandoned ends blocked on it, and the blocker failed |
| ScheduleWrites.WithholdingBlamesTheFirst | tl_loop/loop/schedule.py:202-231 | a pending slice with an unmerged dependency that can never merge is blocked on the first such one and loses its mark; every other slice is unchanged |
| ScheduleWrites.DirectDependentsByStatus | tl_loop/loop/schedule.py:126-149 | suspension reaches a direct dependent exactly outside merged, failed, parked, blocked and refused; parking reaches the refused ones too |
| ScheduleWrites.ParkingWrites | tl_loop/loop/escalate.py:286-314 | the parked slice gets status and issue and loses its blocker, its dependents are blocked on it with that issue and without a mark, nothing else changes |
| Parking.RunDocument.BlockPass | tl_loop/loop/escalate.py:295-313 | one pass edits the document to the blocked set found so far, and reports no change only when that set is closed |
| Parking.RunDocument.Park | tl_loop/loop/escalate.py:279-326 | the repeated passes block exactly the transitive dependents, list each once, prune the waiting list, and fail the controller phase when nothing waits |
| Parking.ClosuresAgreeIffNoneRefused | tl_loop/loop/escalate.py:33-40 | on an acyclic graph suspension and parking reach the same slices if and only if no refused dispatch waits for the blocker or for a suspended slice |
| Parking.RefusedDispatchDivides | tl_loop/loop/escalate.py:293-314 | a table on which parking blocks a refused dispatch that suspension leaves alone |
| Parking.SuspendAndParkAgreeIff | tl_loop/loop/escalate.py:293-314 | on an acyclic graph the breadth-first search and the fixpoint loop hold back the same slices, under that exact condition |
| DispatchSafety.StepKeepsDispatchIff | tl_loop/loop/schedule.py:48-231 | on a table with the dependency order and path ownership in place, and no assumption on marks, a step keeps both if and only if it is harmless: observed statuses, ended recoveries, abandonments and parkings have the exact condition, dispatching, starting a recovery and withholding have none |
| DispatchSafety.RunsAreDispatchSafeIff | tl_loop/loop/shadow.py:460-573 | a run keeps both at every point if and only if each of its steps is harmless where it is taken |
| DispatchSafety.HarmlessIsWeaker | tl_loop/loop/schedule.py:97-151 | recovering a merged slice under a live dependent is harmless although it is not sparing |
| DispatchRuns.StepKeepsSafeIff | tl_loop/loop/schedule.py:97-199 | with sound suspension marks as a third conjunct of the invariant, a step keeps all three if and only if it is sparing: nothing started is built on what it takes back, and a recovery marks a started slice only if that slice already carries the mark |
| DispatchRuns.RunsAreSafeIff | tl_loop/loop/shadow.py:460-573 | a run keeps that invariant, sound marks included, at every point if and only if each of its steps is sparing where it is taken |
| DispatchRuns.RunsAreSafe | tl_loop/loop/schedule.py:48-231 | over every run from a fresh plan that never takes a merged slice back, live and merged slices have all dependencies merged and live slices own disjoint paths |
| DispatchRuns.SuspensionLastsUntil | tl_loop/loop/schedule.py:154-199 | along a run a suspended slice keeps its mark until its own blocker recovers or is abandoned in that recovery, another recovery takes it over, or it is parked or withheld |
| DispatchHazards.LateRecoveryBreaksSafety | tl_loop/loop/shadow.py:534-546 | a run from a fresh acyclic plan in which a recovering slice merges and the end of its recovery leaves a live slice on an unmerged dependency |
| DispatchRuns.SpawnRespectsWidth | tl_loop/loop/schedule.py:55-78 | a spawn never lifts the number of spawned, reviewed or repaired slices that are not recovering above the larger of its old value and the width |
| DispatchRuns.OnlySpawnAndRecoveryAddActive | tl_loop/loop/schedule.py:89-94 | no other step adds a slice of that kind, except the blocker whose own recovery completes and a slice observed to go live |
| DispatchProgress.ReadyMakesProgress | tl_loop/loop/schedule.py:48-86 | with acyclic edges inside the plan and everything pending or merged, readiness of width one or more is never empty while something is pending |
| DispatchProgress.DrainsWholePlan | tl_loop/loop/schedule.py:48-86 | repeating ready, spawn and merge merges every slice within as many rounds as slices are pending, and the rounds are a run of spawn and merge steps |
| DispatchProgress.ValidatedPlanDrains | tl_loop/plan_dependencies.py:13-20 | whatever validation accepts is dispatched to completion by a run of the scheduler |
| DeadEnds.DeadEndsAreNeverStarted | tl_loop/loop/schedule.py:283-298 | on a safe table of an acyclic plan, a slice that can never merge was never dispatched |
| DeadEnds.ReadyDeadEndIff | tl_loop/loop/schedule.py:283-298 | on any table a ready slice is a dead end if and only if one of its merged dependencies is one |
| DeadEnds.WithheldBehindReadyIff | tl_loop/loop/schedule.py:262-298 | on any table withholding blames a ready prerequisite if and only if that prerequisite rests on a merged dead end |
| DeadEnds.WithholdCanBlockBehindAReadySlice | tl_loop/loop/schedule.py:283-298 | a table on which withholding blocks a slice whose only prerequisite is ready |
| DeadEnds.FailureOfAMergedSliceBlocksBehindAReadyOne | tl_loop/loop/shadow.py:538-545 | from a safe table of an acyclic plan, observing the failure of a merged slice makes withholding block a slice whose only prerequisite is ready |
| DeadEnds.WithheldPrerequisiteNeverRuns | tl_loop/loop/schedule.py:202-231 | on safe tables of an acyclic plan the blamed prerequisite is neither started nor ready |
| PostMergeRuns.StepKeeps | tl_loop/fsm/post_merge_transition.py:31-65 | every accepted event satisfies the new phase's evidence without the constructor refusing, drops no key, rewrites no identity, follows the phase table, and goes back only by a rebuild to a newer generation |
| PostMergeRuns.NoRunIsRefusedByTheConstructor | tl_loop/fsm/post_merge.py:160-210 | after any events from a fresh child, no event trips the state constructor |
| PostMergeRuns.RunsOnlyAdd | tl_loop/fsm/post_merge_steps.py:412-417 | along every run no key is dropped, no identity rewritten, and (generation, phase rank) never decreases lexicographically |
| PostMergeRuns.RedeliveryIsSafe | tl_loop/fsm/post_merge_steps.py:430-450 | an accepted event delivered again is absorbed, or refused for retry authorizations and rebuilds, in every state |
| PostMergeRuns.DuplicateDelivery | tl_loop/fsm/post_merge_transition.py:31-65 | an immediate second copy of any delivery anywhere in a run does not change where the run ends |
| PostMergeReplay.LateCopyChangesIff | tl_loop/fsm/post_merge_transition.py:31-65 | in every run, rebuilds included, a copy of an accepted event delivered at any later point changes something if and only if it is an intent announcement, a commit or a push and the child is back where it fits |
| PostMergeReplay.LateCopyIsIdle | tl_loop/fsm/post_merge_transition.py:31-65 | while the run has no rebuild on record, a late copy of any accepted event changes nothing |
| PostMergeReturns.LateIntentReplacesTheNewer | tl_loop/fsm/post_merge_steps.py:334-359 | a run with one rebuild before a changelog announcement and none after it, in which a late copy of that announcement replaces the newer intent |
| PostMergeSources.LinkedCompletion | tl_loop/fsm/post_merge_recovery.py:49-122 | in every run a linked completion stems from accepted events: one reported the bound issue closed, by journal or by its observed status, and the receipt of one proved the push of exactly the changelog and bookkeeping commit; no identity is shared with the most recent failed push |
| PostMergeSources.EvidenceWasSaid | tl_loop/fsm/post_merge_steps.py:59-453 | in every run whatever the evidence holds was said, field by field, by an accepted event of that run: merges, closes, failures, retries, judgments, commits, pushes, receipts and rebuilds |
| PostMergeSources.AlreadyClosedWasSeen | tl_loop/fsm/post_merge_steps.py:231-251 | a child recorded as already closed was observed so: an accepted event of the run saw that very issue, under its intent, with a status that lowers to closed |
| PostMergeSources.ClosedWasJournaled | tl_loop/fsm/post_merge_steps.py:209-228 | a child recorded as closed was confirmed for that issue and intent under the recorded journal |
| PostMergeSources.ObservationIsAdoptedIff | tl_loop/fsm/post_merge_steps.py:231-251 | at a pending close an observation is adopted if and only if it names the bound issue and intent and its status lowers to closed |
| PostMergeAcceptance.TakesEffectIff | tl_loop/fsm/post_merge_transition.py:31-65 | in every run an event changes the state if and only if it comes in its phase, lacks nothing and answers what is on record; the one other case is another intent for the generation of a rebuild |
| PostMergeAcceptance.AbsorbedIff | tl_loop/fsm/post_merge_steps.py:425-453 | in every run an event is accepted without changing anything if and only if it repeats what is on record of it, key by key, in the phase it led to |
| PostMergeRuns.UnlinkedCompletion | tl_loop/fsm/post_merge_steps.py:169-206 | an unlinked completion has a recorded changelog decision and never had an issue bound |
| PostMergeHistory.CompletionIsFreshAfterTheNewestRebuild | tl_loop/fsm/post_merge_recovery.py:13-86 | a linked completion pushed under an intent and a journal that both differ from those the newest accepted rebuild of the run declared failed |
| PostMergeReturns.FailedPushMayCompleteIff | tl_loop/fsm/post_merge_recovery.py:49-122 | a push that any rebuild of the run declared failed may be announced again and complete the child if and only if the newest rebuild declared failed a push of another intent and another journal |
| PostMergeReturns.FirstFailedPushCompletes | tl_loop/fsm/post_merge_recovery.py:107-122 | a run from a fresh child that completes under the first failed push, after a second one failed |
| PostMergeRuns.OnlyTwoEventsComplete | tl_loop/fsm/post_merge_transition.py:31-65 | only a push receipt or an unlinked outcome completes a child |
| PostMergeRuns.CompleteIsFinal | tl_loop/fsm/post_merge_transition.py:33-38 | a completed child answers a replay with itself and refuses everything else |
| PostMergeHistory.CommitAcceptedIff | tl_loop/fsm/post_merge_steps.py:362-386 | during a rebuild a commit names the intent on record exactly when a rebuild was already applied, and another one otherwise |
| PostMergeHistory.RebuildMayReuseItsIntentIff | tl_loop/fsm/post_merge_recovery.py:13-46 | right after an accepted rebuild, committing under the failed intent is accepted if and only if the applied mark was already set before the rebuild |
| PostMergeHistory.AnnouncedIntentMayReturnIff | tl_loop/fsm/post_merge_steps.py:334-386 | announcing another intent and then the failed one again makes the commit acceptable if and only if the mark was set or the other intent is a different one under the new generation |
| PostMergeHistory.SecondRebuildReusesItsIntent | tl_loop/fsm/post_merge_recovery.py:13-46 | a run from a fresh child whose second rebuild accepts a commit under the first rebuild's intent, a late copy of that commit included |
| PostMergeRuns.CloseBooksHold | tl_loop/fsm/post_merge_steps.py:254-313 | along every run the recorded close failures are exactly generations one to the newest, and every retry answers one of them for the bound issue |
| PostMergeHistory.AttemptsStayBoundedIff | tl_loop/fsm/post_merge_steps.py:290-313 | within the bound, an accepted event keeps attempts at failures plus one if and only if it is no retry of a failure already answered |
| PostMergeHistory.AttemptsBoundedThroughoutIff | tl_loop/fsm/post_merge_steps.py:290-313 | along a run attempts stay within failures plus one if and only if every accepted retry answers an unanswered failure |
| PostMergeHistory.RetriesOutnumberFailures | tl_loop/fsm/post_merge_steps.py:290-313 | a run from a fresh child in which one failure is answered twice and attempts exceed failures plus one |
| Lanes.StepContract | tl_loop/fsm/lane_transition.py:24-56 | every event keeps ownership and epoch consistent, changes the epoch only by a reservation, and leaves IDLE only under a newer epoch |
| Lanes.ReservationEpochsIncrease | tl_loop/fsm/lane_transition.py:82-102 | epochs of accepted reservations strictly increase along every run |
| Lanes.ReceiptEpochsIncrease | tl_loop/fsm/lane_transition.py:160-190 | epochs of accepted receipts strictly increase, so no receipt releases a lane twice |
| Lanes.ReleasesAreReserved | tl_loop/fsm/lane_transition.py:82-190 | from the default lane each release uses up a reservation of its own, with one more outstanding while the lane is owned |
| Lanes.ReleaseAnswersTheNewestReservation | tl_loop/fsm/lane_transition.py:160-190 | an accepted receipt names the child and epoch of the newest reservation |
| Lanes.ReleaseConfirmsTheNewestBookkeeping | tl_loop/fsm/lane_transition.py:128-190 | an accepted receipt proves the push intent, journal, base and commit of the newest accepted bookkeeping event |
| Lanes.ProofIsTheNewestRelease | tl_loop/fsm/lane_transition.py:174-190 | the lane remembers the proof of its newest accepted release through everything that follows |
| Lanes.OwnerIsStable | tl_loop/fsm/lane_transition.py:24-208 | between a reservation and the next IDLE the owner never changes, through RECOVERY and PARKED too |
| Lanes.OneOwnerAtATime | tl_loop/fsm/lane_transition.py:82-90 | between reservations of different children the lane was idle |
| Lanes.RedeliveryIsSafe | tl_loop/fsm/lane_transition.py:24-208 | an accepted lane event delivered again is absorbed or refused |
| Lanes.ReceiptBindsBothMachines | tl_loop/fsm/post_merge_recovery.py:49-86 | a receipt accepted by a child's completion and by the lane binds both to one child, epoch, push and commit |
| LaneAcceptance.AcceptedIff | tl_loop/fsm/lane_transition.py:24-56 | in every run an event is accepted exactly where its phase, its texts, the owner it names and what the lane has bound allow it |
| LaneAcceptance.PhaseAfter | tl_loop/fsm/lane_transition.py:24-208 | an accepted event leads to one phase of its own wherever it was taken up, and a refused one changes nothing |
| LaneAcceptance.ReleaseAcceptedIff | tl_loop/fsm/lane_transition.py:160-190 | a receipt frees a bookkeeping lane if and only if it proves, for child and epoch of the newest reservation, the push of the newest bookkeeping event, on this repository and branch |
| LaneAcceptance.FreedIff | tl_loop/fsm/lane_transition.py:65-208 | an owned lane becomes free exactly by an abandonment with its texts, an accepted receipt, or the notice that the child of the newest reservation needs no bookkeeping while it integrates or keeps its books |
| LaneAcceptance.FreedLaneReservesIff | tl_loop/fsm/lane_transition.py:82-102 | a lane just freed takes any child under any newer epoch, and no other |
| LaneAcceptance.RecoveryResolvesIff | tl_loop/fsm/lane_transition.py:105-118 | a recovering lane goes on integrating exactly for its owner and the head integrated under its reservation |
| Children.SortIsOrdered | tl_loop/fsm/scope_validation.py:11-17 | normalizing a group permutes it into child-identity order |
| Children.LeqIsLexicographic | tl_loop/fsm/scope_validation.py:11-17 | identities are ordered as strings: a prefix first, otherwise by the first character that differs |
| Children.SortIsStable | tl_loop/fsm/scope_validation.py:11-17 | records that share an identity keep their order when a group is normalized |
| Scope.MakePlanning | tl_loop/fsm/scope.py:52-68 | the planning constructor's loop accepts exactly well-formed declarations and normalizes them |
| Scope.FillPost | tl_loop/fsm/scope.py:117-125 | the constructor's loop adds a default state for each record that lacks one and changes no other |
| ScopeRuns.ConstructorAccepts | tl_loop/fsm/scope.py:86-155 | the running constructor accepts every run that is the plan seen through its completed children, and changes nothing in it |
| ScopeRuns.RemoveActiveKeeps | tl_loop/fsm/scope_runtime.py:127-208 | completing an active child yields the plan seen through one more completed child, whichever branch builds it, and books exactly that child |
| ScopeRuns.PostMergeKeeps | tl_loop/fsm/scope_runtime.py:100-124 | a post-merge event is refused by a guard, keeps the same children done, or completes the active child it names |
| ScopeRuns.ReleaseKeeps | tl_loop/fsm/scope_runtime.py:23-63 | releasing a plan starts with nothing done, and a plan without children is merged at once |
| ScopeTheorems.LoadedPlansAreValid | tl_loop/fsm/scope.py:52-68 | a plan the constructor accepts is ordered, unique and holds exactly the declared children |
| ScopeTheorems.TransitionKeeps | tl_loop/fsm/orchestration.py:106-197 | every accepted scope event keeps the invariant, completes at most the one active child it names, and enters finalization only from the all-merged phase; which events are accepted is ScopeAcceptance.AcceptedIff |
| ScopeTheorems.RunsKeepTheInvariant | tl_loop/fsm/scope.py:46-260 | after any events the phase carries the plan's identity, and no event trips any of the seven phase constructors a transition calls |
| ScopeTheorems.ChildrenArePartitioned | tl_loop/fsm/scope.py:86-118 | each declared child is pending or completed, never both, and the counts add up |
| ScopeTheorems.PendingStagesAreContiguous | tl_loop/fsm/scope.py:88-101 | pending stages are contiguous from the current order to the last; order zero means every stage is finished |
| ScopeTheorems.StagesCompleteInOrder | tl_loop/fsm/scope_runtime.py:216-223 | no child of a stage completes while an earlier stage has unfinished children |
| ScopeTheorems.AllMergedAfterOneCompletionPerChild | tl_loop/fsm/scope_runtime.py:192-213 | the all-merged phase comes after exactly one completion per declared child and confirms exactly those children |
| ScopeTheorems.MergedChildrenAreProven | tl_loop/fsm/scope.py:166-181 | every confirmed worker and leaf has its result, every confirmed sub-TL a finished machine bound to it with one fresh pushed commit when linked; the event that reported its issue closed is ScopeProjections.MergedSubTLIsProven |
| ScopeProjections.ChildRunsItsMachine | tl_loop/fsm/scope_runtime.py:100-124 | in every run of a scope the books of a pull-request child are those of its own machine after exactly the steps the scope accepted for it, from a fresh start; only a leaf's result may settle them instead, so the results on runs of one machine hold inside a scope |
| ScopeProjections.MergedSubTLIsProven | tl_loop/fsm/scope.py:166-181 | a confirmed sub-TL finished its machine under its own identity, and when linked an accepted event of the scope's run reported its bound issue closed and it pushed one fresh commit |
| ScopeAcceptance.AcceptedIff | tl_loop/fsm/orchestration.py:106-197 | in every run the next scope event is accepted if and only if the plan, the children done and their machines call for it, for every event kind and phase |
| ScopeAcceptance.ActiveIff | tl_loop/fsm/scope_runtime.py:216-223 | a child is active exactly when it is not done and stands in the parallel block or behind finished stages only |
| ScopeAcceptance.ReleaseIff | tl_loop/fsm/scope_runtime.py:23-63 | a plan is released exactly by the announcement that names its first stage, or its parallel block under order zero, child by child |
| ScopeAcceptance.TerminalIff | tl_loop/fsm/orchestration.py:218-230 | a child-terminal report is accepted exactly for an active child that ended in success or completed, and for a worker with a result digest |
| ScopeCompletions.TerminalCompletes | tl_loop/fsm/orchestration.py:218-230 | an accepted report completes a worker under its digest, and leaves the run as it is for the other kinds |
| ScopeCompletions.CompletionHasItsEvent | tl_loop/fsm/scope_runtime.py:66-124 | in every run a child that is done was completed by an accepted event of its own: a worker by a result or a successful report with a digest, a leaf by a result or its machine, a sub-TL by its machine |
| ScopeCompletions.ResultsAreFiled | tl_loop/fsm/scope_runtime.py:66-97 | a worker's and a leaf's digest are filed under keys of their own, and no other key changes |
| ScopeCompletions.BindingsLast | tl_loop/fsm/scope_runtime.py:43-63 | in every running scope each declared child is bound to its own dispatch intent and lane, and to no other |
| ScopeCompletions.FilingWasSaid | tl_loop/fsm/orchestration.py:114-197 | in every run the role, the proof, the reason or the cause a finishing or stopped phase carries was said, word for word, by the event that led to it |
| ScopeAcceptance.PlanIsLoadedIff | tl_loop/fsm/scope.py:52-68 | a plan is well formed exactly with a named scope, workers and leaves in parallel, sub-TLs in non-empty stages one to k, and no identity twice |
| ScopeAcceptance.CompletedRecordsAreProven | tl_loop/fsm/scope.py:86-148 | whatever run the constructor accepts, each completed record has the proof of its kind: a worker its result, a leaf its result or a finished machine, a sub-TL a finished machine or its own evidence that none is required |
| ScopeTheorems.WorkerResultIsFiled | tl_loop/fsm/scope_runtime.py:66-80 | a worker's digest is filed under that worker and no other child's books change |
| ScopeTheorems.LeafResultIsFiled | tl_loop/fsm/scope_runtime.py:83-97 | a leaf's digest is filed under that leaf, which then needs no post-merge sequence |
| ScopeTheorems.SomeChildIsActive | tl_loop/fsm/scope_runtime.py:216-223 | a running scope always has an active child |
| ScopeTheorems.ResultIsAcceptedIff | tl_loop/fsm/scope_runtime.py:66-97 | a result is accepted exactly from an active child of its kind with a digest |
| ScopeTheorems.FinishedThroughAllMerged | tl_loop/fsm/orchestration.py:178-197 | finalization, done and filed phases are reached only through the all-merged phase, with the role's proof complete |
| ScopeReplay.CompletionReplay | tl_loop/fsm/scope_runtime.py:105-112 | the event that completed a child, delivered again at any later point of the run, leaves the scope unchanged: absorbed while running when it is a post-merge event, refused otherwise |
| ScopeLateCopies.LateCopyChangesScopeIff | tl_loop/fsm/scope_runtime.py:100-124 | any post-merge event accepted by a running scope and delivered again at any later point changes the scope if and only if the scope still runs and the child's own state is back where the event fits |
| ScopeReplay.RunningSpares | tl_loop/fsm/scope_runtime.py:66-208 | no accepted event of a running scope touches the books of a child that is done |
| ScopeReplay.RedeliveryIsSafe | tl_loop/fsm/orchestration.py:106-197 | an accepted scope event delivered again is absorbed or refused by a guard, for every event kind |
| Escalation.StepKeepsSound | tl_loop/loop/escalate.py:1014-1188 | every action, crash and lost answer keeps locks, intents, issues and returns consistent |
| Escalation.AtMostOneIssuePerTitle | tl_loop/loop/escalate.py:1014-1188 | over every interleaving with crashes one escalation title never has two remote issues |
| Escalation.ReturnsAgree | tl_loop/loop/escalate.py:885-931 | two successful returns for one identity give the same issue, whatever publication each call had |
| Escalation.CallSucceedsIff | tl_loop/loop/escalate.py:1078-1140 | an uninterrupted call succeeds exactly when no intent exists, or the publication is the recorded one, or no issue is recorded or listed; which publication is recorded is EscalationRetries |
| EscalationRetries.RetryGetsTheReturnedIssue | tl_loop/loop/escalate.py:1078-1100 | once a call returned an issue, an uninterrupted call for the same escalation and publication returns that issue at any later point of any run, and creates none |
| EscalationRetries.RetryGetsTheOrphanedIssue | tl_loop/loop/escalate.py:1117-1140 | an issue created but not recorded, by a crash or a lost answer, is what an uninterrupted call for the same escalation and publication reconciles to and returns at any later point, creating none |
| EscalationTitles.TitlesAreDistinct | tl_loop/loop/escalate.py:563-582 | among any runs whose tokens differ, the title written from slice, cause, attempt and run token determines all four |
| EscalationTitles.TitleReads | tl_loop/loop/escalate.py:563-582 | the title word for word |
| EscalationTitles.DecimalStandsFor | tl_loop/loop/escalate.py:568-570 | the attempt is written in decimal digits that stand for it |
| EscalationTitles.TokensExist | tl_loop/loop/escalate.py:723-775 | any runs, as many as sixteen hexadecimal digits can number, can have tokens that differ |
| EscalationTitles.OneIssuePerEscalation | tl_loop/loop/escalate.py:978-1011 | with those titles, one issue per escalation over every interleaving with crashes |
| Journal.LookupIsTheOnlyEntry | tl_loop/loop/journal.py:122-144 | with unique keys the first match is the only entry under its key |
| Journal.UpsertIsLocal | tl_loop/loop/journal.py:343-351 | an upsert merges the old entry under the new one, keeping its result and error, and leaves every other key alone |
| Journal.ResolveIsLocal | tl_loop/loop/journal.py:314-322 | a resolution updates one key's entry, and nothing else, in place; a field given as null is cleared, a field left out stays |
| Journal.UpsertKeepsTheOutcome | tl_loop/loop/journal.py:343-351 | recording an effect again overwrites operation and target, the status only when one is given, and never the result or the error; a recovery entry stays one |
| Journal.ResolutionWrites | tl_loop/loop/journal.py:314-322 | a resolution sets exactly the fields it names, to nothing where it names them with null |
| Journal.KeysStayUnique | tl_loop/loop/journal.py:314-351 | after any writes the keys are unique |
| Journal.EffectJournal.EntryByKey | tl_loop/loop/journal.py:133-144 | finds the first entry of a non-empty key |
| Journal.EffectJournal.ProbeKey | tl_loop/loop/journal.py:154-171 | absent, observed or malformed, exactly as the entry's status and result allow |
| Journal.EffectJournal.Upsert | tl_loop/loop/journal.py:343-351 | rewrites the first entry under the key in place, or appends |
| Journal.EffectJournal.ResolveByKey | tl_loop/loop/journal.py:314-322 | updates the first entry under the key in place, and refuses an unrecorded key |
| RecoveryCommand.AppliedAtMostOnce | tl_loop/loop/recovery_control.py:104-144 | over every run with crashes and retries one command's effect is applied at most once |
| RecoveryCommand.ReturnsTheOneApplication | tl_loop/loop/recovery_control.py:116-144 | every normal return yields the result of that one application |
| RecoveryCommand.RetryIsAnsweredIff | tl_loop/loop/recovery_control.py:116-126 | a retry is answered exactly from a confirmed entry, goes on to validation exactly without an entry, and never after an application |
| RecoveryCommand.Execute | tl_loop/loop/recovery_control.py:104-144 | answer and journal of one execution in every branch |
| RecoveryCommand.ExecutionIsARun | tl_loop/loop/recovery_control.py:104-144 | every execution, answered, unresolved, refused, inspecting, successful or raising with or without the effect applied, is a run of the protocol with the journal and answer of the code |
| RecoveryCommand.FailureIsNeverRetried | tl_loop/loop/recovery_control.py:116-142 | after an execution that raised, every later execution of the command is refused as unresolved and changes nothing |
| RecoveryCommand.AnswerIff | tl_loop/loop/recovery_control.py:116-144 | which execution is answered from the journal, unresolved, refused, an observation, failed or a success, in all cases and both directions |
| RecoveryCommand.ExecutionFiles | tl_loop/loop/recovery_control.py:134-144 | an execution leaves an entry exactly when it tried the effect: confirmed with the outcome, or unknown with the reason |
| RecoveryCommand.SecondExecutionAnswersTheFirst | tl_loop/loop/recovery_control.py:116-122 | an execution after a successful one returns the same result and changes nothing, whatever validation and effect would say now |
| RecoveryCommand.EntriesSay | tl_loop/loop/recovery_control.py:116-144 | over every run with crashes a command's entry is intended while the effect is tried and after a crash in it, confirmed with a result, or unknown with a reason |
| LedgerDelivery.StepKeepsSound | tl_loop/events/queue.py:159-182 | every append, poll, put, get, handle, acknowledge and restart keeps the delivery invariant and never lowers the persisted cursor |
| LedgerDelivery.DeliveryIsInOrder | tl_loop/events/queue.py:159-218 | one process delivers a prefix of the events above its start cursor, in order, without gap or duplicate |
| LedgerDelivery.CursorOnlyCoversHandled | tl_loop/events/reader.py:320-342 | the persisted cursor never goes back, and every event at or below it was handled |
| LedgerDelivery.RestartDeliversTheRest | tl_loop/events/queue.py:159-182 | after a restart exactly the events above the persisted cursor are delivered, and then exactly the positively numbered events are handled |
| LedgerDelivery.PutsMoveAPrefix | tl_loop/events/queue.py:169-174 | several puts in a row move a prefix of the batch into the queue and the cursor to its last event |
| LedgerQueue.StuckIff | tl_loop/events/queue.py:184-210 | the tailer gives up exactly when one unterminated tail stayed the same for the whole timeout |
| LedgerQueue.LedgerQueue.ReadFrom | tl_loop/events/reader.py:202-257 | the projection loop returns every row above the cursor, in order |
| LedgerQueue.LedgerQueue.Offer | tl_loop/events/queue.py:169-174 | the put loop moves as much of the batch as fits and advances the cursor to the last event put |
| LedgerQueue.LedgerQueue.Get | tl_loop/events/queue.py:108-120 | the oldest event first; a stopped tailer is reported only on an empty queue |
| LedgerQueue.LedgerQueue.CheckActiveTail | tl_loop/events/queue.py:184-210 | remembers a new tail with its time, and stops the tailer on a stuck one |
| SegmentCache.ParseMeans | tl_loop/events/reader.py:400-435 | a successful parse yields exactly the committed records, each under its line number, in order |
| SegmentCache.FirstStopDecides | tl_loop/events/reader.py:405-430 | the first line a parse cannot take decides how it ends: an unterminated one of the newest segment is the tail, with its number and length and whatever its content, a malformed one is the error |
| SegmentCache.TailBecomesARow | tl_loop/events/reader.py:408-419 | once its writer ends it, the tail of one read is the last row of the next, under the same line number |
| SegmentCache.TerminatedParse | tl_loop/events/reader.py:410-419 | a segment that ends in a newline parses the same whether or not it was the newest |
| SegmentCache.LedgerReader.ReadSegment | tl_loop/events/reader.py:400-435 | the line loop skips blanks, stops at the newest segment's unterminated record, and refuses a malformed line by number |
| SegmentCache.LedgerReader.ReadRows | tl_loop/events/reader.py:344-398 | the answer, the cache and the index of one read, also when it fails half-way |
| SegmentCache.CachedReadIsScratch | tl_loop/events/reader.py:344-398 | a cached read answers as parsing every segment from scratch, errors included |
| SegmentCache.EveryReadIsScratch | tl_loop/events/reader.py:344-435 | the same after any sequence of reads over a changing directory, failed reads included |
| SegmentReads.EveryReadMeans | tl_loop/events/reader.py:344-435 | over every run of reads, a successful answer holds exactly the committed records of the segments still there, by segment and line, and its tail is the unterminated line the newest segment stops at |
| SegmentReads.EveryReadFailsOnTheFirst | tl_loop/events/reader.py:351-365 | a read fails exactly on the first segment it cannot get past, with that segment's error |
| SegmentCache.IndexIsRightIff | tl_loop/events/reader.py:350-397 | after a successful read the index matches the rows exactly when that read changed something and what vanished under it had no matches cached, or nothing changed and the index was right for the segments still there |
| SegmentCache.IndexIsRightWithoutFailures | tl_loop/events/reader.py:350-397 | while no read fails the index is in step with the cache, and right after a read exactly when what vanished under that read had no matches cached |
| SegmentCache.FailedReadLosesAMatch | tl_loop/events/reader.py:344-398 | a failed read followed by a deletion leaves a finished invocation out of the index |
| SegmentCache.GoneSegmentKeepsItsMatch | tl_loop/events/reader.py:350-397 | a segment that vanishes between listing and stat keeps its match in the index although the rows have none |
| RecoveryPolicy.ProbesAreBounded | tl_loop/loop/recovery_policy.py:195-246 | between two recovery transitions at most ceil(wait / backoff) probes are scheduled on a clock that does not run back |
| RecoveryPolicy.ProbeLimitIsCeiling | tl_loop/loop/recovery_policy.py:119-151 | the limits 60, 15 and 6 are those ceilings for the policy table |
| RecoveryPolicy.BoundIsReached | tl_loop/loop/recovery_policy.py:225-246 | polling at every backoff schedules exactly that many probes |
| RecoveryPolicy.ApplyTwiceIsOnce | tl_loop/loop/recovery_policy.py:249-271 | applying one probe result twice is applying it once, whatever the times |
| RecoveryPolicy.SignalCountsIff | tl_loop/loop/recovery_policy.py:173-192 | a probe result is taken up exactly when it is healthy, typed and newer, and for a base probe attributed to the base and observed on the recorded base |
| RecoveryPolicy.DecisionIs | tl_loop/loop/recovery_policy.py:195-222 | the bounded decision by cause, rounds and clock: gate, exhaustion after three rounds or half an hour, resume, wait, probe with the next probe after 30, 120 or 300 seconds |
| RecoveryPolicy.ProbeIsRecorded | tl_loop/loop/recovery_policy.py:225-246 | a scheduled probe is on record with its time, its kind by cause and the time of the next one |
| RecoveryPolicy.SignalIsRecorded | tl_loop/loop/recovery_policy.py:249-271 | an accepted signal leaves its base, revision and number, keeps the attribution, and names the next action by cause |
| RecoveryPolicy.TransitionAllowedIff | tl_loop/fsm/recovery.py:126-212 | a recovery changes its phase exactly along fifteen edges, on a clock that is not negative |
| RecoveryPolicy.ResumingWasIntended | tl_loop/fsm/recovery.py:126-154 | along every run a recovery is resuming only since a move out of a resume intention |
| RecoveryPolicy.AcceptedSignalUsesARoundIff | tl_loop/fsm/recovery.py:185-212 | an accepted signal uses a round exactly when the recovery is not yet where the signal leads: resume-intended under an automatic policy, the human gate under the others |
| RecoveryPolicy.ScheduledProbeKeepsTheTableIff | tl_loop/loop/recovery_policy.py:225-246 | scheduling respects the phase table exactly outside the revalidating and resume-intended phases |
| RecoveryPolicy.AcceptedSignalsIncrease | tl_loop/loop/recovery_policy.py:168-192 | accepted signal sequence numbers strictly increase along every run |
| RecoveryPolicy.ResumptionsAreBounded | tl_loop/loop/recovery_policy.py:195-271 | however polls, signals and moves interleave, the policy lets a recovery resume in at most the rounds left of three, and never behind a gate |

## Left out

- Transport, Git, tmux, file locks, JSON and the command line: durable files are values written whole, and a process that holds a file lock is a process inside its critical section.
- `tl_loop/state/*`, `driver.py` and `reconcile.py`: slices carry only the fields the modelled operations read or write; park causes, audits and gates are not recorded.
- Path patterns: whether one glob matches another is an uninterpreted parameter; overlap is equality or a match either way.
- Dispatch has one step from pending to spawned; a recovery completes by clearing the recovery and restoring the dependents in one step.
- Slice tables are keyed by the slices' own identities; the refusal of mismatched or repeated identities (`tl_loop/loop/schedule.py:234-242`) is not modelled.
- Dictionary iteration order is an explicit sequence that lists each key once.
- Blank text is recognised for the ASCII white space characters, and case folding for ASCII letters.
- Post-merge evidence is a record with one field per key instead of a string dictionary, so integers are integers; undecodable counters do not arise.
- Scope records keep identity, kind, dispatch intent, lane and the aggregate flag; manifest fields and free-form record evidence are not modelled, and the ten observation events that only check that a child is active are one event.
- ScopeRuns.ConstructorAccepts: covers the runs a plan can reach; a hand-written completed map whose keys differ from its records is refused without distinguishing the error.
- Escalation.AtMostOneIssuePerTitle: assumes a successful listing is complete, and a create request takes effect before its caller's lock is released.
- EscalationTitles.TitlesAreDistinct: assumes the random run tokens of different runs differ, for the finitely many runs considered.
- Escalation.StepKeepsSound: issues that others file under the title of an escalation are not steps, so a hand-made duplicate of an escalation issue is outside these results.
- Escalation.ReturnsAgree: the listing matches titles exactly, where the code first strips white space at both ends; an escalation title has none there, so the difference is in foreign titles only.
- Escalation.CallSucceedsIff: pre-digest intent files, operator bindings and the store-less path are not part of the protocol.
- RecoveryCommand.AppliedAtMostOnce: executions run one at a time; the code takes no lock, so two overlapping executions of one command are outside this result.
- RecoveryCommand.Execute: identity, authorization and next-action checks are one parameter, and so is the applied effect.
- Journal.EffectJournal.Upsert: entries are records of the fields the journal interprets; keys stand for the hashes of their inputs, which are taken to be injective.
- LedgerDelivery.DeliveryIsInOrder: ledger numbers increase as rows are appended, and all rows are mapped, in scope and not superseded; learning of descendant agents, run filtering and findings are left out.
- LedgerQueue.LedgerQueue.Offer: the wait for room between consumer steps is the interleaving of the delivery steps, not a blocking call.
- SegmentCache.EveryReadIsScratch: equal signatures mean equal bytes and a segment ends in a newline before a newer one appears; a file that disappears between its stat and its opening reads as an empty segment under its signature, so it must not come back under that signature.
- RecoveryPolicy.AcceptedSignalsIncrease: transitions keep the evidence of the recovery; a caller that replaces the evidence could forget the last sequence number.
- Time is real, and rounding of floating-point clocks is not modelled.
- The ordered integration table, dispatch classification, the work clock, stall detection, replay sources, harness switching and event projections: each is a table lookup or a mapping of one record to another, with no state that spans operations.
