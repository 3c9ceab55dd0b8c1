# Sophia orchestrator: verified model

A Dafny model of the parts of the orchestrator that carry guarantees over every run:

- **Apply scheduler** (`ApplyRun`, `ApplyInvariants`, `ApplySafety`, `ApplyLiveness`, `ApplySaturation`,
  `ApplyBoard`, `ApplyExecute`, `ApplyBreaker`, `ApplyCancelled`, `ApplyAbandoned`, `ApplyLostSlots`,
  `ApplyFleet`, `ApplyFleetSaturation`): one Execute as an interleaved machine of group and task goroutines
  over one-slot completion channels, the group semaphore, the spawn governor's counter, the quota breaker and
  cancellation, and several Executes over one governor.
  `Coordinator`, `Dag`, `SpawnGovernor`, `QuotaBreaker`, `TaskRetry` and `BuildGate` hold the same operations
  as the objects and loops the code has; the last two are shown to do what the machine's goroutines do.
- **Skill statuses** (`TransitionPath`, `SkillStatus`, `Reeval`): breadth-first search over any guard
  map, the six statuses, and the audited apply and revert of a re-evaluation.
- **Phases and changes** (`PhaseDomain`, `PhaseTable`, `PhaseLifecycle`, `PhaseRecords`, `PhaseRevival`,
  `PhaseStanding`, `PhaseProgress`, `PhaseFaults`, `PhaseSteps`, `PhaseService`): the two aggregates, the
  phases table with its upsert key, the life of one change as a machine with resumes, aborts, rejections,
  crashes and recovery, what each call stores and what happens to its records, and the service as objects
  that refine the machine.
- **Outbox** (`Relay`, `RelayProtocol`): backoff and one tick, and several relays interleaved with crashes.
- **Smaller refinements**: `RateGuard`, `SkillMatcher` with `SkillOrder`, `Traceparent`.

`Sums`, `Graphs` and `Options` are shared helpers. `dafny verify dfyconfig.toml` checks everything.

## How it is modelled

- Concurrency is a step relation; a goroutine that blocks or polls has no enabled action. Times are
  integers, identifiers are numbers or positions, and confidences and metrics are reals.
- A dispatch, a governance decision, a build, a delivery and a clock reading are parameters or
  nondeterministic choices, so a theorem holds for every answer they could give.
- A database statement or transaction is one atomic step on a table.
- `PhaseLifecycle` works on one phase of a change at a time, which is what the advisory lock and the
  running-phase check are for. Between saving an accepted phase and advancing the change the code does
  not enforce it. A Reject there is one that has passed the check of the approval gate.

## Where the code and its documentation differ

The model follows the code.

- A failed or interrupted group is said to be retried on resume; `Group.Start` refuses it, so it fails
  again (`ApplyExecute.ResumedGroupFailsAgain`).
- A quota stop is said to leave the task claimable; after an earlier ordinary failure the stored row
  stays failed (`TaskRetry.ClaimableIff`, with the failing input in `TaskRetry.QuotaAfterFailure`).
- An interrupted phase is said to be resumable; the second start reuses the row's id under a new attempt
  number and the insert fails (`PhaseTable.SaveUnderNextNumber`, `PhaseRevival.InterruptedNotResumed`). It
  stays interrupted for ever unless an earlier attempt can be started until it lands on it
  (`PhaseRevival.InterruptedForeverIff`; such a case is `PhaseFaults.InterruptedApplyCanBeRevived`).
- Each attempt is said to keep its own record; starting an attempt that is no longer the latest overwrites
  the next one's (`PhaseRecords.HistoryStepIff`). A change can then stand at a phase without an accepted
  attempt, or be completed without a done verify (`PhaseProgress.StandingCanFail`,
  `PhaseProgress.VerifiedCanFail`); exactly when is `PhaseRecords.StandingThroughoutIff`,
  `PhaseStanding.StandingForeverIff` and `PhaseRecords.VerifiedForeverIff`.
- An abort is said to be terminal; a phase already in flight writes its older copy of the change back
  (`PhaseLifecycle.AbortIsFinalIff`).
- Claims are said never to overlap between relays; the row locks end with the statement
  (`RelayProtocol.SameRowPostedTwice`). Even without faults a row is received at most once only with at
  most one relay (`RelayProtocol.AtMostOnceIff`).
- Releasing a spawn slot is said to be idempotent; a second release frees a slot that somebody else holds
  (`SpawnGovernor.SpuriousReleaseHarmlessIff`).
- The first retry of a delivery is said to wait ten seconds; the count is raised before the backoff is
  computed, so it waits twenty (`Relay.WaitsAsDocumentedIff`).
- `RevertLast` is said to reverse the most recent re-evaluation; after one that changed nothing it
  reverses an older run (`Reeval.RevertLastAfterApply`).
- Trace ids are said to be lower case on input and request ids to be hashed with SHA-256; `Parse` accepts
  both cases, and request ids are folded with exclusive or (`Traceparent.ParseIffHeader`,
  `Traceparent.NormaliseRequestID`).
- A below-threshold done envelope is said not to advance the change; it becomes done with concerns, which
  does advance it, except for an apply executor's (`PhaseLifecycle.DoneEnvelopeAcceptedIff`).
- A group dropped at the semaphore by a cancelled context leaves no result and counts as not failed, so
  DONE means that every group was delivered only where the caller cannot cancel
  (`ApplyCancelled.DoneMeansDeliveredIff`). A task that is cancelled while it is queued stores no outcome, so
  a group none of whose tasks has begun can be completed and signal success
  (`ApplyAbandoned.AbandonedGroupSucceeds`).
- Saturation is said to be transient because slots free as tasks release them; releases run on the context of
  the Execute, which the breaker cancels too, so a finished run has given all slots back only under the
  condition of `ApplyLostSlots.SlotsReturnedIff`.

## Model

| member | source | states |
|---|---|---|
| `ApplyInvariants.ReachableInv` | internal/application/apply/run.go:490-597 | every reachable interleaving of group and task goroutines satisfies the run invariant: local states, counters, tokens and waits are consistent |
| `ApplySafety.TokenConservation` | internal/application/apply/dag.go:46-92 | in every reachable state the one token of a signalled group is in its channel or in exactly one waiter's hand, never both, never changed, and carries the group's only signal; an unsignalled group has no token anywhere |
| `ApplySafety.WaitIsSound` | internal/application/apply/run.go:515-540 | a group past its wait has seen every dependency succeed, or runs degraded after the first dependency in its list that failed, all earlier ones having succeeded |
| `ApplySafety.SlotAccounting` | internal/adapters/outbound/pg/spawn_governor_state.go:30-70 | the stored counter equals outside holders plus team-leads plus dispatching implements plus releases lost to cancellation, never passes the maximum; the group semaphore counts its holders and never passes its capacity |
| `ApplySafety.SlotsReturned` | internal/application/apply/run.go:550-590 | when every goroutine has returned the semaphore is free and the slot counter is back at its start value, up to releases lost on a cancelled context |
| `ApplyLostSlots.SlotsReturnedIff` | internal/application/apply/run.go:490-597 | every finished run of a runnable board leaves the counter where it was iff all groups were completed before, or the caller cannot cancel and fewer tasks are pending than the breaker threshold |
| `ApplyLostSlots.TooFewToTrip` | internal/application/apply/run.go:194-212 | with fewer pending tasks than the threshold no run trips the breaker |
| `ApplyLostSlots.Trips` | internal/application/apply/teamlead.go:381-400 | with as many, a run of quota errors trips it while a team-lead holds its slot |
| `ApplyLostSlots.TwoSlotsCanBeLost` | internal/application/apply/teamlead.go:308-313 | on every runnable board, cancelling while a task is dispatched can cost two slots, the release of the task and that of its team-lead |
| `ApplySafety.ImplementCap` | internal/application/apply/teamlead.go:122-145 | no group ever has more implements under way than MaxParallelImplementsPerGroup |
| `ApplySafety.FaultsSeen` | internal/application/apply/run.go:515-566 | what makes a run disturbed, read from the states: a wait given up, a refused team-lead slot, a refused claim or task slot, and nothing a dispatch answers |
| `ApplySafety.FinishedOnce` | internal/application/apply/run.go:497-590 | in a finished run every group signalled exactly once and its channel still shows that signal; without faults or cancellation it entered its team-lead exactly once iff it was not completed beforehand, whatever its dependencies did |
| `ApplyLiveness.NoDeadlock` | internal/application/apply/run.go:497-590 | with an acyclic board and room in the governor for the outside holders, all the team-leads there can be and one implement, some action other than a timeout or refusal is enabled in every reachable unfinished state |
| `ApplyLiveness.RunsAreBounded` | internal/application/apply/run.go:490-597 | every run, faults and cancellation included, has at most Measure(Init) steps, and each step lowers the measure |
| `ApplyLiveness.MaximalRunsFinish` | internal/application/apply/run.go:490-597 | a run that no ordinary action extends has finished every group, each having signalled once |
| `ApplyLiveness.FullMeansImplement` | internal/application/apply/teamlead.go:292-313 | when the governor is full and has that room, an implement holds a slot |
| `ApplySaturation.RoomIsNecessary` | internal/application/apply/teamlead.go:292-313 | for every size and all limits without that room, a governor filled from outside included, an acyclic board of that size and a reachable state in which every slot is held by an outsider or a team-lead and nothing ordinary can move |
| `ApplySaturation.RoomIsExact` | internal/application/apply/teamlead.go:292-313 | no acyclic board of n groups ever gets stuck iff outside slots plus min(group cap, n) is below the maximum |
| `ApplyFleet.FleetAccounting` | internal/application/discipline/spawn_governor.go:84-87 | over every interleaving of several Executes the shared counter equals outside holders plus lost releases plus all team-leads plus all dispatching implements, and never passes the maximum |
| `ApplyFleet.FleetNoDeadlock` | internal/application/apply/teamlead.go:292-313 | while the governor has room for those outside, the lost releases, the team-leads all Executes can have together and one implement, some Execute can move in every reachable state until all have finished |
| `ApplyFleetSaturation.FleetRoomIsNecessary` | internal/application/apply/teamlead.go:292-313 | without that room, for any number of Executes and all sizes and limits, boards and a reachable state in which their team-leads hold every slot and no Execute can move |
| `ApplyFleetSaturation.FleetRoomIsExact` | internal/application/apply/teamlead.go:292-313 | while no release is lost, Executes of acyclic boards of given sizes never starve each other iff outside slots plus the sum of min(group cap, groups) is below the maximum |
| `ApplyBoard.AcceptedBoardNeverStuck` | internal/application/apply/run.go:892-973 | a run of any list with distinct names in which no groups name each other in a circle, which is what buildBoard accepts, is never stuck |
| `ApplyBoard.WaitsForNamed` | internal/application/apply/run.go:918-935 | on a run of the board a group waits for exactly the groups its entry names |
| `ApplyBoard.StartsAfterNamed` | internal/application/apply/run.go:515-540 | a group that is past its wait and not degraded has seen every group its entry names succeed |
| `ApplyBoard.AcceptedDepsHaveChannels` | internal/application/apply/run.go:905-935 | every dependency of an accepted list has a channel |
| `ApplyExecute.Finalize` | internal/application/apply/run.go:601-624 | totals of tasks, finished tasks and failed groups; BLOCKED iff some group reported failure |
| `ApplyExecute.DoneIsSound` | internal/application/apply/run.go:305-422 | DONE with no outside cancellation: every task of every group is Done, every build gate passed or was skipped, the reported total is the number of tasks, and all slots are returned |
| `ApplyExecute.DoneIsExact` | internal/application/apply/run.go:601-624 | on a fresh board without faults, DONE exactly when the breaker stayed closed and every group was delivered; when it stays closed is ApplyBreaker.TrippedIff |
| `ApplyExecute.TotalsCountDelivered` | internal/application/apply/run.go:601-624 | there the reported totals are the tasks of the delivered groups and the number of the others |
| `ApplyBreaker.StepBreaker` | internal/application/apply/teamlead.go:340-405 | whichever goroutine moves, a dispatch seen to end in success resets the streak, one seen to end the task with no attempt counted lengthens it, and nothing else touches the breaker |
| `ApplyBreaker.TrippedIff` | internal/application/apply/run.go:178-218 | in every interleaving the breaker is tripped iff what the run has shown so far holds threshold quota stops with no success between them |
| `ApplyBreaker.DoneIffDelivered` | internal/application/apply/run.go:305-422 | on a fresh board without faults and outside cancellation, DONE iff the run shows no such burst and every group was delivered |
| `ApplyBreaker.QuietRunIsDoneIff` | internal/application/apply/run.go:305-422 | there a run in which no task stops on quota is DONE iff every group was delivered |
| `ApplyExecute.ResumedGroupFailsAgain` | internal/domain/apply/group.go:112-120 | a group stored as running or failed is refused by Start, leaves its tasks untouched and forces BLOCKED |
| `ApplyCancelled.CancelledRunReportsDone` | internal/application/apply/run.go:551-556 | on every acyclic board with known dependencies that the caller can cancel, a run exists that finishes every group, reports DONE, and leaves every group exactly as delivered as it was stored |
| `ApplyCancelled.DoneMeansDeliveredIff` | internal/application/apply/run.go:490-624 | on every such consistent board with something left to deliver, DONE means delivered in every run iff the caller cannot cancel |
| `ApplyAbandoned.AbandonedGroupSucceeds` | internal/application/apply/teamlead.go:128-156 | on every runnable board that the caller can cancel, any pending group can end completed with success signalled and none of its tasks begun, and with a slot lost besides |
| `ApplyAbandoned.CanFinish` | internal/application/apply/run.go:490-597 | from every reachable state of a runnable board, cancelled or not, the run goes on until every group has finished, and a team-lead that is back keeps its outcome |
| `ApplyAbandoned.RefusedClaimFailsGroup` | internal/application/apply/teamlead.go:279-286 | a claim that somebody else won leaves the task as it was stored and fails its group |
| `SpawnGovernor.CounterIsExact` | internal/adapters/outbound/pg/spawn_governor_state.go:30-70 | over any sequence of acquires by newcomers and releases by holders, the counter is the number of holders and at most the maximum |
| `SpawnGovernor.SpuriousReleaseHarmlessIff` | internal/adapters/outbound/pg/spawn_governor_state.go:61-70 | after a release by a non-holder the limit holds on every proper continuation iff no slot was held |
| `SpawnGovernor.GovernorRepo.TryAcquire` | internal/adapters/outbound/pg/spawn_governor_state.go:30-58 | one Acquire of the counter with its holders, reporting whether the count moved |
| `SpawnGovernor.GovernorRepo.Release` | internal/adapters/outbound/pg/spawn_governor_state.go:62-70 | one Release of the counter with its holders, whatever the maximum |
| `SpawnGovernor.AcquirePolling` | internal/application/discipline/spawn_governor.go:129-153 | on the shared counter, whatever others do between polls: ends at the first poll that finds a slot, meets the deadline or is interrupted, with the matching verdict; a free slot wins over the deadline; only a granted Acquire changes the counter, by one for the caller |
| `SpawnGovernor.PollsMeetExactCounter` | internal/application/discipline/spawn_governor.go:129-165 | while nobody releases what it does not hold, every poll meets a counter equal to the number of holders, and a grant there keeps it so, at most the maximum |
| `SpawnGovernor.AcquireWithSaturationRetries` | internal/application/apply/teamlead.go:67-88 | the first answer other than saturated within nine tries, unless the context ends in a pause |
| `Coordinator.DAGCoordinator.constructor` | internal/application/apply/dag.go:35-44 | one empty channel per group |
| `Coordinator.DAGCoordinator.Signal` | internal/application/apply/dag.go:46-58 | a non-blocking send, dropped for unknown groups and full channels |
| `Coordinator.FirstSignalStands` | internal/application/apply/dag.go:46-58 | the first signal of a group stands against any later one and touches no other group |
| `Coordinator.SendIsSignal` | internal/application/apply/dag.go:46-58 | the send of the interleaved machine is this Signal |
| `Coordinator.DAGCoordinator.Wait` | internal/application/apply/dag.go:63-92 | every token is put back; nil iff every dependency signalled success; otherwise the verdict of the first dependency that is unknown, silent or failed |
| `Dag.Validator.Visit` | internal/domain/apply/group.go:196-216 | the recursive visit keeps done ids closed under dependencies and the visiting ids on one path; refusal means a cycle |
| `Dag.Validator.VisitDeps` | internal/domain/apply/group.go:205-212 | after the loop every known dependency of the id is done |
| `Dag.Validator.VisitAll` | internal/domain/apply/group.go:217-224 | all groups done in dependency order, or a cycle exists |
| `Dag.ValidateDAG` | internal/domain/apply/group.go:188-224 | succeeds iff the graph restricted to known ids is acyclic, self-loops included |
| `Dag.BuildBoard` | internal/application/apply/run.go:892-973 | validating after every group accepts exactly the lists with valid tasks in which no groups name each other in a circle, returns the whole board with every group waiting for exactly those it names, and each rejection names a real defect |
| `Dag.CheckTasks` | internal/domain/apply/task.go:26-45 | rejects exactly lists with an empty description or files pattern, with the matching error |
| `Dag.NameIds` | internal/application/apply/run.go:905-917 | the map from group names to ids, last one winning |
| `Dag.ResolveDeps` | internal/application/apply/run.go:918-935 | the result has one id for each known name of the list, in list order, and nothing for the unknown ones |
| `Dag.EdgeIffNamed` | internal/application/apply/run.go:918-935 | with distinct names and ids one group of the board waits for another iff its list names it |
| `Dag.CyclesByName` | internal/application/apply/run.go:905-964 | the board is acyclic iff the list is by names |
| `Dag.DependenciesKnown` | internal/application/apply/run.go:918-935 | every dependency of a board is the id of one of its groups |
| `Dag.PositionsAcyclic` | internal/application/apply/run.go:490-500 | naming groups by position instead of id creates no cycle |
| `QuotaBreaker.BreakerRefinesTrace` | internal/application/apply/run.go:178-218 | tripped iff some segment of the whole trace holds threshold quota outcomes with no success between; until then the streak counts the quotas since the last success |
| `QuotaBreaker.TrippedStays` | internal/application/apply/run.go:194-212 | tripping is permanent |
| `QuotaBreaker.SnapshotAfterTrip` | internal/application/apply/run.go:214-230 | after the trip the reported streak is the threshold iff no success followed |
| `QuotaBreaker.CircuitBreaker.RecordQuotaOutcome` | internal/application/apply/run.go:194-212 | returns true on exactly the call that makes the trace hot; cancel has run as often as a call returned true, at most once |
| `QuotaBreaker.CircuitBreaker.RecordSuccess` | internal/application/apply/run.go:214-221 | extends the trace by a success and never trips |
| `TaskRetry.Task.Release` | internal/domain/apply/task.go:123-131 | releases exactly a claimed or running task |
| `TaskRetry.Task.RecordAttempt` | internal/domain/apply/task.go:158-170 | counts the attempt; the third failure blocks and escalates |
| `TaskRetry.DispatchClaimed` | internal/application/apply/teamlead.go:256-431 | for every answer of context, governor, dispatcher and fallback and any recorded attempts: success iff the first attempt that is not an ordinary failure wins, Blocked iff the rest of the budget fails, at most three primary and one fallback dispatch, one release per acquire, and the exact task in memory and row in storage |
| `TaskRetry.ClaimableIff` | internal/application/apply/teamlead.go:357-388 | the stored row is pending again iff the very first attempt met a quota stop |
| `TaskRetry.BlockedIff` | internal/domain/apply/task.go:158-170 | the task is Blocked iff every try left was an ordinary failure |
| `TaskRetry.DecidedIsWalk` | internal/application/apply/teamlead.go:256-431 | whatever the world decides, the interleaved machine's task goroutine has a walk to the same outcome and task |
| `TaskRetry.QuotaAfterFailure` | internal/application/apply/teamlead.go:357-388 | the failing input: a failure and then a quota error leave the row failed with one attempt, and the next Execute cannot claim it |
| `TaskRetry.RunImplementWithRetry` | internal/application/apply/teamlead.go:256-431 | done tasks are left alone, unclaimable ones fail untouched, a pending one ends exactly as the answers of the world decide, with its row pending iff attempt 0 met a quota stop; true only with status Done; in all cases the machine's goroutine can go from its queue to the same outcome and task |
| `BuildGate.Group.SkipBuild` | internal/domain/apply/group.go:142-150 | skips exactly a pending gate |
| `BuildGate.Group.RecordBuildAttempt` | internal/domain/apply/group.go:159-178 | counts the build; passed on success, failed and exhausted from the third failure on |
| `BuildGate.RunGroupBuildFeedbackLoop` | internal/application/apply/build_feedback.go:130-224 | terminates; opens iff nothing was found and nothing decided, or some build within the budget exits 0; one repair after every failed build but the last; even a spent budget gets one build; the machine's group goroutine can walk from detecting to the same decision |
| `BuildGate.RunTeamLead` | internal/application/apply/teamlead.go:102-233 | a group that is not pending is refused untouched; otherwise outcome and stored group are those of the machine's group goroutine joining on the same tasks: failed iff a task failed or the gate stayed shut, else completed with the gate passed or skipped |
| `BuildGate.Aggregate` | internal/application/apply/teamlead.go:147-156 | counts the tasks that returned true and finds whether one returned false; abandoned tasks stored nothing |
| `TransitionPath.FindPath` | internal/application/skill/transition_path.go:21-49 | true iff the target is reachable by legal hops in any finite guard graph; the path is legal, ends at the target, and no legal path is shorter |
| `TransitionPath.Expand` | internal/application/skill/transition_path.go:35-46 | the inner loop discovers every target of the current status in order and stops at the goal, one layer further |
| `TransitionPath.OrderedTargets` | internal/application/skill/transition_path.go:65-77 | exactly the legal direct targets |
| `TransitionPath.TargetsKeepOrder` | internal/application/skill/transition_path.go:65-77 | in the order given |
| `TransitionPath.Reconstruct` | internal/application/skill/transition_path.go:81-91 | the prev chain ends, and reversed it is a legal path of exactly the search distance |
| `TransitionPath.ReversePath` | internal/application/skill/transition_path.go:86-90 | the in-place swap loop reverses the array |
| `TransitionPath.NoneShorter` | internal/application/skill/transition_path.go:17-21 | breadth first: no legal path to an undiscovered status is as short as the expanded layers |
| `SkillStatus.ReachableStatuses` | internal/application/skill/service.go:25-32 | in the six-status guard a chain leads from u to v iff they are equal or neither is archived |
| `SkillStatus.HopsAreExactly` | internal/application/skill/service.go:25-32 | the eight legal hops pair by pair |
| `SkillStatus.RouteIsOnlyShortest` | internal/application/skill/transition_path.go:17-60 | between any two statuses one way is shortest and it alone: forward along the lifecycle if the target lies ahead, else through blocked and candidate; so the search order cannot matter |
| `SkillStatus.OrderIsComplete` | internal/application/skill/transition_path.go:51-60 | the visitation order lists every target of the guard |
| `Reeval.GatesInAttempts` | internal/application/skill/reeval.go:153-173 | promotion on at most one attempt, demotion on two or more, nothing else, and never a transition the guard refuses |
| `Reeval.Reevaluator.PatchStatus` | internal/application/skill/service.go:88-111 | writes exactly the hops of the guard, which SkillStatus.HopsAreExactly lists, reports missing skills and forbidden hops, and keeps the log of writes explaining the statuses: each a legal hop from where its skill was, each starting where the one before ended, the last one leading to now |
| `Reeval.WritesFollowLifecycle` | internal/application/skill/service.go:88-111 | in every such log a write to active starts at validated, one to validated at candidate, one to candidate at blocked, one to deprecated at active, and none touches an archived skill |
| `Reeval.ActiveWasValidated` | internal/application/skill/service.go:88-111 | a skill that became active was written from candidate to validated and later from validated to active, whatever applies and reverts were made |
| `Reeval.ArchiveIsClosed` | internal/application/skill/service.go:88-111 | no history of writes puts a skill into the archive or takes it out |
| `Reeval.Reevaluator.Walk` | internal/application/skill/reeval.go:437-448 | on a legal chain no hop is refused, the skill ends at its last status, and the log grows by exactly the hops |
| `Reeval.Reevaluator.Apply` | internal/application/skill/reeval.go:209-263 | unconfirmed changes nothing; confirmed applies every proposal with one guarded write per change and, iff something changed, appends the exact change log |
| `Reeval.Reevaluator.MoveBack` | internal/application/skill/reeval.go:337-375 | moves the skill from its live status to the prior one iff a legal chain exists, by the guarded writes of the one shortest way, and otherwise writes nothing |
| `Reeval.Reevaluator.RevertItem` | internal/application/skill/reeval.go:337-405 | the same, with one rollback count iff it moved and emission is on |
| `Reeval.Reevaluator.RevertRun` | internal/application/skill/reeval.go:312-430 | restores every item from where the skill is now, through guarded writes only, appends the exact change log of the revert, counts a rollback only the first time; a missing skill stops it before the trail is written |
| `Reeval.Reevaluator.RevertLast` | internal/application/skill/reeval.go:279-285 | reverts the newest run of the trail, or reports an empty trail |
| `Reeval.RevertUndoesLog` | internal/application/skill/reeval.go:312-430 | reverting any change log from the store it led to restores every status, with one rollback exactly for the skills that had changed |
| `Reeval.RevertUndoesApply` | internal/application/skill/reeval.go:209-285 | apply then RevertLast restores every status |
| `Reeval.RevertLastTwice` | internal/application/skill/reeval.go:279-285 | the second RevertLast undoes the first |
| `Reeval.RevertSameRunTwice` | internal/application/skill/reeval.go:299-345 | a second revert of the same run changes no status and no counter |
| `Reeval.ApplyTwice` | internal/application/skill/reeval.go:209-263 | a second apply on unchanged usage changes nothing and leaves no run |
| `Reeval.RevertLastAfterApply` | internal/application/skill/reeval.go:244-285 | RevertLast after an apply restores the statuses iff the apply changed something or the run before it leaves nothing to undo |
| `Reeval.RevertLastReachesOlderRun` | internal/application/skill/reeval.go:251-285 | a concrete store where a no-op apply followed by RevertLast takes back an older promotion |
| `PhaseDomain.NextIsSuccessor` | internal/domain/phase/type.go:46-69 | NextValid is the canonical successor and nothing else |
| `PhaseDomain.CanonicalOrder` | internal/domain/phase/type.go:46-69 | the nine phases by name, each with its only successor |
| `PhaseDomain.ThresholdValues` | internal/domain/phase/type.go:74-85 | the thresholds as numbers: 0.5, 0.7, 0.8 and 0.9, and none for init |
| `PhaseDomain.Phase.Start` | internal/domain/phase/phase.go:107-118 | refused iff terminal or out of budget; else running with one more attempt, never above the budget |
| `PhaseDomain.Phase.Complete` | internal/domain/phase/phase.go:125-153 | refused unless running, matching and not a done below threshold; else the envelope's status, so done implies confidence at the threshold |
| `PhaseDomain.Phase.Restart` | internal/domain/phase/phase.go:177-194 | restarts exactly a blocked phase with budget left |
| `PhaseDomain.Change.AdvancePhase` | internal/domain/change/change.go:103-114 | moves to the successor of an active change and nothing else |
| `PhaseTable.SaveNewRow` | internal/adapters/outbound/pg/phase_repo.go:104-135 | saving the attempt after the latest inserts under a fresh key, touches no other row and keeps the numbering gap-free |
| `PhaseTable.SaveOverRow` | internal/adapters/outbound/pg/phase_repo.go:104-135 | saving under a key that a row has rewrites that row, which keeps its id, and no other |
| `PhaseTable.SaveUnderNextNumber` | internal/adapters/outbound/pg/phase_repo.go:104-135 | re-saving an attempt under the next number with its old id is refused iff it is the latest; otherwise it overwrites the record of the following attempt |
| `PhaseTable.Latest` | internal/adapters/outbound/pg/phase_repo.go:147-153 | the highest attempt number stored for the type |
| `PhaseTable.PhaseRepo.FindAllRunning` | internal/adapters/outbound/pg/phase_repo.go:160-182 | exactly the running rows, in table order |
| `PhaseTable.PhaseRepo.MarkStuckInterrupted` | internal/application/recovery/service.go:65-112 | row by row saves end with every running row interrupted and every other row untouched, and report how many |
| `PhaseLifecycle.ReachableInv` | internal/application/phase/service.go:290-470 | every reachable state of a change, over every sequence of runs, checks, envelopes, resumes, rejections, aborts, crashes and recoveries, satisfies the lifecycle invariant: table, pointer, completion and work in progress agree |
| `PhaseLifecycle.PointerMovesOneStep` | internal/application/phase/service.go:1375-1403 | each step of any run leaves CurrentPhase or moves it to its canonical successor |
| `PhaseLifecycle.CompletedOnce` | internal/application/phase/service.go:1375-1443 | completed iff the pointer is at archive iff exactly one phase.archived event exists |
| `PhaseLifecycle.AdvanceIsEarned` | internal/application/phase/service.go:1375-1443 | a step that moves the pointer finds an accepted attempt of the phase it moves to, and the one that completes finds the latest verify done with confidence at least 0.9 |
| `PhaseLifecycle.DoneEnvelopeAcceptedIff` | internal/application/discipline/validator.go:20-43 | a done envelope is accepted iff it is not an apply executor's below its threshold without concerns, and is stored done iff at the threshold without concerns |
| `PhaseLifecycle.FinishStores` | internal/application/phase/service.go:640-742 | the table after any envelope, for every status, confidence and critic verdict: done, done with concerns, needs context or blocked under its exact condition, confidence the envelope's or 0 on a failure, no other row touched |
| `PhaseRecords.StandingStepIff` | internal/application/phase/service.go:724-742 | one step keeps an accepted attempt for every phase up to the pointer iff it does not overwrite the only one of a phase that was passed |
| `PhaseRecords.StandingThroughoutIff` | internal/application/phase/service.go:969-1023 | exactly the runs in which no step does that keep it all along |
| `PhaseProgress.StandingCanFail` | internal/application/phase/service.go:969-1023 | in every configuration and for every phase a reachable case where a resumed needs-context attempt takes the only accepted record away |
| `PhaseRecords.VerifiedStepIff` | internal/application/phase/service.go:1123-1183 | a completed change stays verified over a step iff the step does not start the attempt before its latest verify once more |
| `PhaseRecords.VerifiedForeverIff` | internal/application/phase/service.go:969-1023 | a completed change stays verified on every continuation iff no needs-context attempt with budget left stands right before the latest verify |
| `PhaseProgress.VerifiedCanFail` | internal/application/phase/service.go:969-1023 | a reachable completed change whose latest verify is no longer done |
| `PhaseLifecycle.AttemptHistory` | internal/application/phase/service.go:303-351 | attempts of each type are exactly 1 to the latest, one row each, within their own budget; done means at threshold; no checked phase is accepted beyond its third attempt |
| `PhaseLifecycle.RunAddsNextAttempt` | internal/application/phase/service.go:303-351 | an accepted Run adds one running row numbered one past the latest, under a key no row had |
| `PhaseSteps.RunAcceptedIff` | internal/application/phase/service.go:290-378 | a Run is accepted iff nothing is in progress, no phase is running or interrupted, the phase is the current one of the change or the next, and its attempts are below the budget, by default three; it then adds the next attempt and works on it |
| `PhaseSteps.ResumeStores` | internal/application/phase/service.go:969-1023 | what Resume stores and schedules for a row in every status |
| `PhaseSteps.RejectStores` | internal/application/phase/service.go:1062-1118 | what Reject stores for a row in every status |
| `PhaseSteps.FailStoresAll` | internal/application/phase/service.go:1123-1183 | what a failure of the work in progress stores, for a running and for a resumed attempt |
| `PhaseRecords.HistoryIsKept` | internal/adapters/outbound/pg/phase_repo.go:104-135 | over a run that starts no older attempt once more, every row keeps id, key and budget, and a row that is not running is never changed again |
| `PhaseRecords.HistoryStepIff` | internal/adapters/outbound/pg/phase_repo.go:104-135 | one step keeps all records iff it does not start an older attempt once more, or the following attempt has the same budget and is running or already has the status and confidence that are written over it |
| `PhaseRecords.OverwriteStep` | internal/application/phase/service.go:1123-1183 | such a step replaces the record of the following attempt by a running or blocked one and nothing else |
| `PhaseRevival.RecordForeverIff` | internal/adapters/outbound/pg/phase_repo.go:104-135 | the record of any attempt that is neither running nor blocked is kept on every continuation iff the table holds no earlier attempt that can be started until it lands on it |
| `PhaseRevival.InterruptedForeverIff` | internal/application/phase/service.go:969-1023 | an interrupted phase stays interrupted on every continuation under exactly that condition |
| `PhaseRevival.RunRefusedIff` | internal/application/phase/service.go:290-351 | with nothing in progress every Run is refused iff some phase is running or interrupted |
| `PhaseRevival.RunRefusedForeverIff` | internal/application/phase/service.go:290-351 | where an interrupted phase is the only one running or interrupted, every Run is refused on every continuation under exactly the same condition |
| `PhaseRevival.Revive` | internal/application/phase/service.go:969-1023 | with such an attempt, a continuation that ends with the row blocked, nothing in progress and no other row brought back to life |
| `PhaseStanding.StandingForeverIff` | internal/application/phase/service.go:724-742 | a completed change keeps an accepted attempt for every phase on every continuation iff every phase has one that no earlier attempt can be started onto |
| `PhaseRevival.InterruptedNotResumed` | internal/application/phase/service.go:984-993 | resuming an interrupted phase that is the latest of its type changes nothing, because its second start cannot be saved |
| `PhaseLifecycle.AbortIsFinalIff` | internal/application/change/service.go:109-125 | an aborted change stays aborted on every continuation iff no phase scheduled before the abort can still pass its check and move the pointer |
| `PhaseProgress.PhaseCanBeDone` | internal/application/phase/service.go:290-742 | whenever the next phase meets its conditions, Run, check, a done envelope and the advance lead to it: one new row, done, latest of its type, pointer moved, completed for archive |
| `PhaseProgress.CanReach` | internal/application/phase/service.go:290-742 | in every configuration there is a run that has done the first n phases at their first attempt and nothing beyond |
| `PhaseProgress.CanComplete` | internal/application/phase/service.go:1375-1443 | a new change can be carried to completion with its one phase.archived event |
| `PhaseFaults.PauseThenResume` | internal/application/phase/service.go:409-443 | a pause for approval followed by Resume goes on with the same row and a fresh copy of the change |
| `PhaseFaults.PauseThenReject` | internal/application/phase/service.go:1062-1118 | rejecting a paused phase stores exactly that row blocked and leaves nothing in progress |
| `PhaseFaults.CrashStopsTheChangeIff` | internal/application/recovery/service.go:65-112 | after a crash in mid-phase and boot recovery exactly that row is interrupted, and every Run is refused on every continuation iff no earlier attempt can be started until it lands on it |
| `PhaseFaults.CrashOfFirstAttempt` | internal/application/recovery/service.go:65-112 | after a crash of the first attempt of a phase every Run is refused for ever |
| `PhaseFaults.InterruptedApplyCanBeRevived` | internal/application/phase/service.go:993-1010 | a reachable state with apply attempt 1 blocked and attempt 2 interrupted, and a continuation after which a Run is accepted |
| `PhaseFaults.CrashBeforeAdvance` | internal/application/phase/service.go:724-742 | a crash between saving an accepted phase and advancing loses only the advance, and the phase can be run again |
| `PhaseLifecycle.IronLawGate` | internal/application/discipline/ironlaw_checker.go:56-106 | apart from init with its service and apply with its executor, a phase goes on iff it is within its first three attempts, an archive has a latest verify done at 0.9, and an apply has tasks done at 0.8; otherwise it fails |
| `PhaseService.Service.Run` | internal/application/phase/service.go:290-378 | on the stored change, the table and the Phase and Change objects it does exactly the Run step of the lifecycle |
| `PhaseService.Service.Check` | internal/application/discipline/ironlaw_checker.go:56-106 | exactly the Check step, a refusal failing the phase |
| `PhaseService.Service.Finish` | internal/application/phase/service.go:640-742 | exactly the Finish step for any envelope, whose table is PhaseLifecycle.FinishStores |
| `PhaseService.Service.Fail` | internal/application/phase/service.go:1123-1183 | exactly the Fail step |
| `PhaseService.Service.Advance` | internal/application/phase/service.go:1375-1443 | exactly the Advance step, through AdvancePhase and MarkCompleted on the copy of the change |
| `PhaseService.Service.Resume` | internal/application/phase/service.go:969-1023 | exactly the Resume step for rows in every status |
| `PhaseService.Service.Reject` | internal/application/phase/service.go:1062-1118 | exactly the Reject step for rows in every status |
| `PhaseService.Service.Abort` | internal/application/change/service.go:109-125 | exactly the Abort step |
| `PhaseService.Service.Recover` | internal/application/recovery/service.go:65-112 | exactly the Recover step, with nothing in progress |
| `Relay.BackoffIsCappedDoubling` | internal/application/outbox/relay.go:32-49 | for every integer the delay is min(10 s doubled max(n,0) times, 5 min) |
| `Relay.BackoffMonotone` | internal/application/outbox/relay.go:32-49 | monotone, between ten seconds and five minutes |
| `Relay.ShiftFits` | internal/application/outbox/relay.go:40-45 | no evaluated shift leaves the int64 range |
| `Relay.OutboxRepo.ClaimDue` | internal/adapters/outbound/pg/outbox_repo.go:93-120 | distinct due rows, earliest first with nothing earlier left out, exactly min(limit, due) of them |
| `Relay.OutboxRepo.MarkDelivered` | internal/adapters/outbound/pg/outbox_repo.go:123-130 | sets the status of one row |
| `Relay.OutboxRepo.Reschedule` | internal/adapters/outbound/pg/outbox_repo.go:134-141 | sets attempts and next attempt of one row and leaves its status |
| `Relay.Tick` | internal/application/outbox/relay.go:135-185 | whatever the deliveries answer, due rows drop by exactly min(limit, due), fifty by default; claimed rows are marked or rescheduled with one more attempt, others untouched |
| `Relay.FailuresInARow` | internal/application/outbox/relay.go:155-164 | k failures in a row raise the stored count by k, and the next attempt is min(10 s doubled once per count, 5 min) after the last |
| `Relay.FailuresCount` | internal/application/outbox/relay.go:135-170 | the same over k ticks that claim the row and fail to deliver it |
| `Relay.AttemptedNotDue` | internal/application/outbox/relay.go:155-163 | a failed delivery moves the next attempt ten seconds to five minutes past now |
| `Relay.WaitsAsDocumentedIff` | internal/application/outbox/relay.go:32-49 | a failed delivery waits the delay documented for its count iff the count is negative or at least five; the first retry waits twenty seconds |
| `Relay.TicksDrain` | internal/application/outbox/relay.go:135-185 | n ticks leave max(due - n * limit, 0) due rows |
| `RelayProtocol.ReachableInv` | internal/application/outbox/relay.go:135-185 | over all interleavings and crashes, held claims and receipts match their rows and a good answer was received |
| `RelayProtocol.WrittenIsAttempted` | internal/application/outbox/relay.go:155-180 | a row that nobody else wrote since its claim becomes what one attempt makes of it |
| `RelayProtocol.TickRefines` | internal/application/outbox/relay.go:135-185 | a relay left alone for a tick does to the table what Tick does, for every claim of ClaimDue and all answers |
| `RelayProtocol.NewRowFailures` | internal/application/outbox/relay.go:155-164 | a new row counts its failures from one and waits 20, 40, 80, 160 and then 300 seconds |
| `RelayProtocol.DeliveredWasReceived` | internal/application/outbox/relay.go:152-180 | a row marked delivered was received at least once with the payload enqueued |
| `RelayProtocol.NothingIsLost` | internal/adapters/outbound/pg/outbox_repo.go:123-141 | no run removes a row, changes a payload or undoes delivered, even with a late Reschedule |
| `RelayProtocol.TicksDeliver` | internal/application/outbox/relay.go:135-185 | with any batch limit, ticks of one relay whose claims are the earliest due rows up to the limit deliver every row due at the time, however many stand in line, and change no other row |
| `RelayProtocol.AlwaysDeliverable` | internal/adapters/outbound/pg/outbox_repo.go:93-141 | from every reachable state, wherever relays crashed and whatever they hold, any row can still be delivered by any one relay without a further fault, with claims as ClaimDue makes them |
| `RelayProtocol.SameRowPostedTwice` | internal/adapters/outbound/pg/outbox_repo.go:86-120 | claims overlap: whenever a row is due and two relays rest, the earliest due row, first in both claims, is posted by both in a run without faults |
| `RelayProtocol.SameRowFailedTwice` | internal/adapters/outbound/pg/outbox_repo.go:131-141 | when both posts of such overlapping claims fail, the row counts one failure |
| `RelayProtocol.AtMostOnce` | internal/application/outbox/relay.go:135-185 | with one relay over any number of ticks and no crash, lost write or lost answer each row is received at most once |
| `RelayProtocol.EachFaultRepeats` | internal/application/outbox/relay.go:131-180 | with one relay, a single crash before the write, lost write or lost answer is enough for any due row, claimed alone, to be received twice |
| `RelayProtocol.AtMostOnceIff` | internal/application/outbox/relay.go:135-185 | with n relays, any limit and claims as ClaimDue makes them, every faultless run receives each row at most once iff n is at most one |
| `RateGuard.MemoryRateGuard.constructor` | internal/application/bootstrap/rateguard.go:50-57 | no entries and no calls |
| `RateGuard.MemoryRateGuard.Allow` | internal/application/bootstrap/rateguard.go:61-89 | allows iff the project's trimmed list is below the limit, extends the project's trace by this call and its answer, leaves every other project alone, and keeps every list and every past answer as the whole trace determines them |
| `RateGuard.TraceWithinLimit` | internal/application/bootstrap/rateguard.go:61-89 | whatever sequence of calls was made for a project in order of time, no closed interval of window length holds more than limit of those it allowed |
| `RateGuard.WindowEntry.Trim` | internal/application/bootstrap/rateguard.go:74-81 | compacting in place over the buffer being read keeps exactly the calls at or after the cutoff, in order |
| `RateGuard.WindowEntry.Append` | internal/application/bootstrap/rateguard.go:87-88 | appends in place or into a larger buffer |
| `RateGuard.KeptIsWindow` | internal/application/bootstrap/rateguard.go:74-81 | for times in order the trimmed list is the full history of allowed calls cut to the window |
| `RateGuard.DecidedByHistory` | internal/application/bootstrap/rateguard.go:83-88 | for times in order every call is decided as the full history decides it |
| `RateGuard.LimitHolds` | internal/application/bootstrap/rateguard.go:61-89 | for times in order no closed interval of window length holds more than limit allowed calls |
| `RateGuard.NeverTooStrict` | internal/application/bootstrap/rateguard.go:61-89 | for any times in any order the guard errs only by allowing |
| `RateGuard.DecidedRightIff` | internal/application/bootstrap/rateguard.go:61-65 | the next call is decided as the calls let through demand, after every ordered past, iff the clock does not step back or the limit is at most one |
| `SkillMatcher.AppliesWhenMatches` | internal/adapters/outbound/pg/skill_matcher.go:182-223 | feature type listed, no touched path excluded, some touched path wanted, unconstrained dimensions passing |
| `SkillMatcher.AnyGlobMatch` | internal/adapters/outbound/pg/skill_matcher.go:340-348 | some pattern matches |
| `SkillMatcher.AnyFrameworkMatches` | internal/adapters/outbound/pg/skill_matcher.go:277-322 | some declared framework is detected and passes the version gate, which only two readable majors in the wrong order fail |
| `SkillMatcher.AnyLanguagePresent` | internal/adapters/outbound/pg/skill_matcher.go:327-336 | some declared language is detected, ignoring case |
| `SkillMatcher.StructuralMatches` | internal/adapters/outbound/pg/skill_matcher.go:243-266 | no structural data passes; otherwise frameworks and languages must match where declared |
| `SkillMatcher.Judge` | internal/adapters/outbound/pg/skill_matcher.go:72-131 | passes iff all six gates pass; otherwise the reason of the first failing gate |
| `SkillMatcher.EligibleIff` | internal/adapters/outbound/pg/skill_matcher.go:61-137 | the six gates in words: active, asked phase, scope, feature, paths, framework and language, risk, each only where query and skill both say something |
| `SkillMatcher.ReasonsInOrder` | internal/adapters/outbound/pg/skill_matcher.go:72-131 | each reason is given iff its check fails and all checks before it pass |
| `SkillOrder.SkillsForContext` | internal/adapters/outbound/pg/skill_matcher.go:61-137 | every stored skill is matched or skipped; matched ones come sorted and are exactly the eligible ones, skipped ones in repository order with their first failing gate |
| `SkillOrder.SortSkills` | internal/adapters/outbound/pg/skill_matcher.go:356-390 | a sorted permutation |
| `SkillOrder.SortedReads` | internal/adapters/outbound/pg/skill_matcher.go:356-390 | in a sorted list low, medium, high and critical risk follow in this order; within a risk the latest validated come first and the never validated last, then the most used first and the unused last, then by id |
| `SkillOrder.StringLessIff` | internal/adapters/outbound/pg/skill_matcher.go:388-389 | ids compare by their first difference, a proper prefix first |
| `SkillOrder.LessTotal` | internal/adapters/outbound/pg/skill_matcher.go:356-390 | the comparator is irreflexive, asymmetric and total on distinct ids |
| `SkillOrder.LessTransitive` | internal/adapters/outbound/pg/skill_matcher.go:356-390 | the comparator is transitive |
| `SkillOrder.SortedUnique` | internal/adapters/outbound/pg/skill_matcher.go:356-390 | a set of skills has one sorted listing |
| `SkillOrder.OrderIndependent` | internal/adapters/outbound/pg/skill_matcher.go:61-137 | the matched list does not depend on the order skills are read in |
| `Traceparent.ParsePrint` | internal/domain/trace/trace.go:66-110 | every well-formed trace is read back from its own header |
| `Traceparent.ParsedIsWellFormed` | internal/domain/trace/trace.go:66-110 | whatever Parse accepts is well formed and survives printing |
| `Traceparent.ParseIffHeader` | internal/domain/trace/trace.go:66-100 | Parse accepts exactly four dash-separated fields with version 00, non-zero hex ids of 32 and 16 digits and two hex flag digits, and lowers the ids |
| `Traceparent.PrintParseIff` | internal/domain/trace/trace.go:66-110 | printing restores the header iff its ids are lower case and its flags are 00 or 01 |
| `Traceparent.OneReading` | internal/domain/trace/trace.go:66-100 | a header has one reading |
| `Traceparent.SampledIff` | internal/domain/trace/trace.go:90-100 | sampled iff the last flag digit is odd |
| `Traceparent.NormaliseRequestID` | internal/domain/trace/trace.go:151-171 | the in-place fold computes the exclusive or per position modulo 16, patched when all zero; 32 hex digits are used as they are |
| `Traceparent.NormalisedIsValid` | internal/domain/trace/trace.go:151-171 | any request id becomes 32 lower-case hex digits, not all zero |
| `Traceparent.EncodeReadsBack` | internal/domain/trace/trace.go:151-171 | hex encoding read back pair by pair gives the bytes |
| `Traceparent.FoldShort` | internal/domain/trace/trace.go:163-166 | an id of up to sixteen bytes folds to itself, padded with zeros |
| `Traceparent.FoldAppend` | internal/domain/trace/trace.go:163-166 | one more byte changes exactly one place of the fold, by exclusive or, sixteen places in turn |
| `Traceparent.FoldedIdReadsBack` | internal/domain/trace/trace.go:163-171 | an id that is not 32 usable hex digits becomes its fold in hex, or 1 if the fold is zero |
| `Traceparent.StrippedFields` | internal/domain/trace/trace.go:152-155 | stripping the dashes leaves the fields between them one after the other |
| `Traceparent.HexIdKept` | internal/domain/trace/trace.go:151-158 | a 32-digit hex id, dashed or not, in either case, is kept digit for digit |
| `Traceparent.FromRequestIDRoundTrips` | internal/domain/trace/trace.go:136-147 | the new trace is sampled and its span id reads back as the random bytes; its header is read back unchanged iff those are not all zero |

## Left out

- HTTP handlers, clients, middleware, metrics, tracing spans, event publishing and audit log writes.
- SQL text, transactions beyond atomicity, JSON encoding, and errors of the storage itself other than a
  crash, a lost write or a lost release where a theorem names them.
- Prompts, model dispatch, memory engine, worktrees, stderr truncation and the critic's text.
- Wall-clock timers: polling interval, stagger and jitter of the spawn governor, and dependency timeouts
  beyond the fact that they may fire.
- Group lists with repeated names, which share an id in the code.
- Two phases of one change in flight at once.
- Storage faults in the middle of a re-evaluation revert, after which a retry counts rollbacks again.
- Rounding of stored confidences to two decimals; it cannot lower a value below a threshold.
- SkillOrder.SortSkills: sorts a value instead of a slice in place, because the sorting algorithm is the
  standard library's.
- SkillMatcher.AppliesWhenMatches: glob matching is a parameter, as are equality up to case, lower case and
  version parsing in the structural gate, because they belong to libraries.
- RateGuard.DecidedRightIff: is stated for windows that are not negative, because a negative window counts
  nothing.
- New and WithNewSpan of a trace, the list and search operations of the services, seed data and wiring.
