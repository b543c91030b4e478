# Verification of the fleet's dispatch protocol, readiness supervision and map merging

This project models four parts of the multi-robot fleet software and proves what they keep over every run.

**Mission scheduler.** A priority queue of missions, a table of leases on robots, a table of active missions and one
dispatch slot, guarded by a generation counter and a timeout. Submissions, cancellations, fleet snapshots, timer
ticks and the answers of the assign service arrive in any order; answers may be late, stale, or never come.
`SchedulerNode` gives each callback as a function on the node's fields, `MissionScheduler` is the class that updates
the fields in place and is proved to do exactly that, and `SchedulerSystem` builds runs from these steps, together
with the unanswered requests and a ledger of what became of every id. `SchedulerCallbacks` and `SchedulerDispatch` say
what each step does in terms of the node's fields, the snapshot's lines and the parameters alone. The remaining
`Scheduler*` modules prove the invariant of all runs and, from it, conservation, that retries ask for what was asked
for, bounded retries, exactness of the slot, the choice of mission and robot, the conditions under which an active
mission can be overwritten, and that every outcome has a cause in the history.

**Readiness supervisor.** Per robot a phase machine; each poll fans out to six lifecycle nodes whose callbacks share
counters; a watchdog abandons polls by generation; STARTUP and RESET are rate limited; readiness is published without
repetition. `SupervisorRobot` and `ReadinessSupervisor` are the functions and the class, `SupervisorRuns` the runs of
one robot with all answers in flight, `SupervisorFleet` the runs of all robots; `SupervisorCallbacks` says exactly when
commands are sent and polls are started or abandoned.

**Fleet manager.** Heartbeats, offline episodes and the automatic e-stop latch (`FleetTracking`, `FleetManager`).
`FleetToScheduler` and `SupervisorToScheduler` join these nodes to the scheduler and prove claims that span both.

**Map merging.** Nested loops write source cells into a flat array through a rigid transform and floor division.
`MergeGeometry` proves that no cell falls outside the grid that is computed from the corners, `MergeMap` that the
array holds the pointwise maximum, `OfflineMerge` does the same for the older offline merge, `MergeMeaning`
says what both results hold in terms of the cells of the sources, and `MergeAgreement` relates the two.

Clock readings are exact reals and never run backwards between callbacks; each callback reads the clock once. Each
callback is one atomic step, as the nodes run under a single-threaded executor. The order in which the scheduler
walks its hash table of active missions is an arbitrary input of the step.

Where code and documentation disagree, the model follows the code:

- The project README (line 159) says that a cancellation removes a mission that is still queued; a queued mission
  whose dispatch is outstanding is reported as cancelled and can become active all the same. `CancelledMissionRuns`
  gives such a run, and `CancelIsFinalIff` says exactly when a cancellation is final.
- The comments at the head of the offline merge say that free space is shown as -1; the code shows 0 where a 0 lands
  and no 100 does (`ObstaclesWin`, `FreeSpaceShowsFree`).
- The comment on the supervisor's phases says that one phase at a time describes a robot; losing inputs leaves polls
  and commands in flight that the phase no longer shows (`OrderlyIff`), and any number of STARTUPs
  can then be outstanding at once (`StartupsPileUp`).
- The scheduler never looks at its active missions when it selects a robot, so that "no mission is lost" holds under
  conditions only. `AssumptionsDecide` gives the exact ones: acceptances must be prompt, snapshots must not contradict
  themselves, they must show a robot that is being dispatched to as idle, and the leases must be long enough, which the
  defaults are not (`DefaultsOverwrite`). In particular a robot in ERROR is selected on purpose, but the next snapshot
  that still shows ERROR ends its lease; if that comes before the acceptance, a mission can be lost under any
  parameters (`ErrorDuringDispatchOverwrites`).

To verify everything: `dafny verify dfyconfig.toml`.

## Model

| member | source | states |
|---|---|---|
| MissionScheduler.MissionSchedulerNode.constructor | src/scheduler/src/mission_scheduler_node.cpp:73-273 | the node starts with empty tables, a free slot, and one published (empty) queue message |
| MissionScheduler.MissionSchedulerNode.SystemReadyCallback | src/scheduler/src/mission_scheduler_node.cpp:275-284 | the readiness flag follows the message, nothing else changes |
| MissionScheduler.MissionSchedulerNode.FleetStateCallback | src/scheduler/src/mission_scheduler_node.cpp:286-296 | leases are settled first, then active missions, on the snapshot just stored: exactly the step that every run theorem is about |
| MissionScheduler.MissionSchedulerNode.UpdateRobotReservations | src/scheduler/src/mission_scheduler_node.cpp:298-335 | the loop ends exactly the leases whose robot has a line that is not IDLE, or has held the lease longer than the timeout; a robot listed several times loses it at the first such line |
| MissionScheduler.MissionSchedulerNode.ReconcileActiveMissions | src/scheduler/src/mission_scheduler_node.cpp:345-482 | completed and failed missions leave the table, busy robots are confirmed, failed missions are queued again in walk order, and the queue is published only if something failed |
| MissionScheduler.MissionSchedulerNode.JudgeActiveMissions | src/scheduler/src/mission_scheduler_node.cpp:359-421 | the walk over the hash table marks exactly the busy robots and lists exactly the completed and the failed ones, whatever its order |
| MissionScheduler.MissionSchedulerNode.RequeueFailed | src/scheduler/src/mission_scheduler_node.cpp:430-477 | each failed mission gets a fresh id and one more attempt, or is dropped once the attempt limit is reached |
| MissionScheduler.MissionSchedulerNode.CreateMissionId | src/scheduler/src/mission_scheduler_node.cpp:484-491 | the counter goes up by one and is the id |
| MissionScheduler.MissionSchedulerNode.EnqueueMission | src/scheduler/src/mission_scheduler_node.cpp:493-517 | push_back with the next counter and sequence number, then the stable sort |
| MissionScheduler.MissionSchedulerNode.SortQueue | src/scheduler/src/mission_scheduler_node.cpp:519-534 | the queue becomes its stable sort: in the order of the comparator, the same missions, ties in the order they had |
| MissionScheduler.MissionSchedulerNode.EnqueueRecurringPatrol | src/scheduler/src/mission_scheduler_node.cpp:536-553 | a patrol of the configured priority joins the queue and the queue is published |
| MissionScheduler.MissionSchedulerNode.HandleQueueMission | src/scheduler/src/mission_scheduler_node.cpp:555-590 | a supported type is queued and answered with its id text; any other type changes nothing and gets no id |
| MissionScheduler.MissionSchedulerNode.HandleCancelMission | src/scheduler/src/mission_scheduler_node.cpp:592-649 | the first pending mission with that id text leaves the queue, and the reply says whether there was one |
| MissionScheduler.MissionSchedulerNode.HandleDispatchPatrol | src/scheduler/src/mission_scheduler_node.cpp:651-670 | a patrol of priority 0 joins the queue and its id is returned |
| MissionScheduler.MissionSchedulerNode.SelectRobot | src/scheduler/src/mission_scheduler_node.cpp:672-742 | collecting candidates and taking max_element gives the robot named by the selection rule, or none without a snapshot |
| MissionScheduler.MissionSchedulerNode.CollectCandidates | src/scheduler/src/mission_scheduler_node.cpp:684-722 | the candidates are exactly the eligible lines of the snapshot, in its order |
| MissionScheduler.MaxElement | src/scheduler/src/mission_scheduler_node.cpp:728-739 | the first candidate that no other one exceeds in battery |
| MissionScheduler.MissionSchedulerNode.GetNextMission | src/scheduler/src/mission_scheduler_node.cpp:744-754 | the front of the queue, which in an ordered queue goes before every other mission; none if the queue is empty |
| MissionScheduler.MissionSchedulerNode.RemoveMission | src/scheduler/src/mission_scheduler_node.cpp:756-772 | every queued mission with that id is erased, the others keep their order |
| MissionScheduler.MissionSchedulerNode.ReserveRobot | src/scheduler/src/mission_scheduler_node.cpp:774-781 | the robot joins the reserved set with a lease that starts now |
| MissionScheduler.MissionSchedulerNode.ReleaseRobotReservation | src/scheduler/src/mission_scheduler_node.cpp:783-790 | the robot leaves both the reserved set and the lease table |
| MissionScheduler.MissionSchedulerNode.SetActiveMission | src/scheduler/src/mission_scheduler_node.cpp:792-802 | the robot gets the mission, unconfirmed and dispatched now, replacing any mission it had |
| MissionScheduler.MissionSchedulerNode.ProcessQueue | src/scheduler/src/mission_scheduler_node.cpp:804-883 | the timer: nothing unless ready; nothing while a dispatch is outstanding and not timed out; otherwise reclaim, then dispatch |
| MissionScheduler.MissionSchedulerNode.DispatchNextMission | src/scheduler/src/mission_scheduler_node.cpp:855-911 | the first pending mission goes to the selected robot under a fresh generation, and the slot and the lease are taken |
| MissionScheduler.MissionSchedulerNode.HandleAssignResponse | src/scheduler/src/mission_scheduler_node.cpp:911-982 | a stale response changes nothing; acceptance activates and dequeues; refusal or exception releases the lease; the queue is published and the slot freed |
| MissionScheduler.MissionSchedulerNode.PublishQueueState | src/scheduler/src/mission_scheduler_node.cpp:985-1021 | the message lists count, ids, types and priorities of the queue in order |
| SchedulerCallbacks.SubmissionMeans | src/scheduler/src/mission_scheduler_node.cpp:493-590 | a supported type adds exactly one mission, as requested, with the next id and sequence number and no failed attempt, and is published once; any other type changes nothing |
| SchedulerCallbacks.CancellationMeans | src/scheduler/src/mission_scheduler_node.cpp:592-649 | a cancellation takes exactly the first mission with that id text out of the queue, or changes nothing if there is none |
| SchedulerCallbacks.MessageMeans | src/scheduler/src/mission_scheduler_node.cpp:985-1021 | a published message shows, position by position, the id text, type and priority of the queued missions |
| SchedulerCallbacks.FirstEntryIsFirst | src/scheduler/src/mission_scheduler_node.cpp:359-376 | the line that decides about a mission is the first one about its robot |
| SchedulerCallbacks.LeaseIsKeptIff | src/scheduler/src/mission_scheduler_node.cpp:298-335 | a snapshot keeps a lease, unchanged, if and only if all lines about its robot say IDLE and, if there are any, the lease is not older than the timeout; it starts none |
| SchedulerCallbacks.MissionStaysActiveIff | src/scheduler/src/mission_scheduler_node.cpp:359-421 | a mission stays active if and only if the first line about its robot, if any, neither fails nor completes it; all that can change about it then is that a line other than IDLE confirms it |
| SchedulerCallbacks.RequeueMeans | src/scheduler/src/mission_scheduler_node.cpp:430-477 | a failed mission with a try left goes back into the queue as exactly one mission, with the next id, its own type, priority, target and target flag, and one attempt more; one without is not queued |
| SchedulerCallbacks.RetriesAreQueued | src/scheduler/src/mission_scheduler_node.cpp:345-482 | a snapshot takes nothing off the queue and adds, for every active mission that fails in it with a try left, a fresh one that asks for the same, and nothing else |
| SchedulerCallbacks.SnapshotPublishesIff | src/scheduler/src/mission_scheduler_node.cpp:345-482 | a snapshot publishes the queue, once, if and only if some mission fails in it |
| SchedulerRequests.RequestsAreKept | src/scheduler/src/mission_scheduler_node.cpp:430-517 | over every run: whatever is pending, requested of a robot or active has the type, priority, target and target flag of the event that submitted it, however often it was dispatched, failed and queued again |
| MissionIds.IdTextIsInjective | src/scheduler/src/mission_scheduler_node.cpp:484-491 | different counter values give different id texts, so looking a mission up by text is looking it up by counter value |
| MissionIds.IdTextReadsBack | src/scheduler/src/mission_scheduler_node.cpp:484-491 | an id text is the fixed prefix followed by decimal digits without leading zeros, and the digits read back as the counter |
| MissionQueue.StableSortSorts | src/scheduler/src/mission_scheduler_node.cpp:519-534 | the sort yields a sorted rearrangement of any queue |
| MissionQueue.StableSortIsStable | src/scheduler/src/mission_scheduler_node.cpp:519-534 | missions that the comparator cannot tell apart keep their order |
| MissionQueue.OrderedIsUnique | src/scheduler/src/mission_scheduler_node.cpp:519-534 | only one arrangement of strictly ordered missions is sorted |
| MissionQueue.PushThenSort | src/scheduler/src/mission_scheduler_node.cpp:502-516 | push_back of a newest mission and sorting is ordered insertion: behind all of its own or higher priority, nothing else moves, and no correct sort could give another queue |
| SchedulerInvariant.StepKeepsInv | src/scheduler/src/mission_scheduler_node.cpp:286-982 | every callback keeps queue order, agreement of tables and ledger, the attempt chains, and the one-live-request rule of the slot |
| SchedulerInvariant.InvariantHolds | src/scheduler/src/mission_scheduler_node.cpp:286-982 | that invariant holds after every run, with answers late, lost or stale |
| SchedulerConservation.MissionIsInOnePlace | src/scheduler/src/mission_scheduler_node.cpp:756-982 | an id is never pending twice, never both pending and active, never active on two robots |
| SchedulerConservation.NothingVanishes | src/scheduler/src/mission_scheduler_node.cpp:345-517 | the ids 1..mission_counter_ are exactly partitioned: queue length + active robots + cancelled + done + dropped + re-queued + overwritten add up to the counter |
| SchedulerConservation.StatusMoves | src/scheduler/src/mission_scheduler_node.cpp:345-982 | one callback moves an id along its legal career only, never changes its attempt count, and adds fresh pending ids only |
| SchedulerConservation.SnapshotMoves | src/scheduler/src/mission_scheduler_node.cpp:359-477 | a snapshot changes exactly the active ids that it judges: completed, dropped, or re-queued under a fresh id |
| SchedulerConservation.OnlyLiveRequestsRevive | src/scheduler/src/mission_scheduler_node.cpp:943-956 | a cancelled mission stops being cancelled only by an acceptance of the request that was live when that mission was cancelled |
| SchedulerCancellation.RevivesIff | src/scheduler/src/mission_scheduler_node.cpp:943-956 | one callback makes a cancelled mission active if and only if it accepts the live request for it; any other leaves it cancelled |
| SchedulerCancellation.StaysCancelledIff | src/scheduler/src/mission_scheduler_node.cpp:592-649 | a cancelled mission stays cancelled in every future if and only if no live request carries it |
| SchedulerCancellation.CancelIsFinalIff | src/scheduler/src/mission_scheduler_node.cpp:592-649 | what a caller can know beforehand: cancelling a pending mission by its id cancels it, and finally so if and only if no live request carries it at that moment |
| SchedulerCancellation.CancelledMissionRuns | src/scheduler/src/mission_scheduler_node.cpp:943-956 | under every configuration a run in which a cancelled mission becomes active on a robot |
| SchedulerConservation.CancelledWhileLive | src/scheduler/src/mission_scheduler_node.cpp:592-649 | the mission of a live request that is found cancelled was itself cancelled, by an event that is returned, while that request was live |
| SchedulerRetries.OneLiveInstance | src/scheduler/src/mission_scheduler_node.cpp:430-477 | a submission has at most one pending or active instance, and every attempt count stays below max(1, limit), so the 32-bit counter never wraps |
| SchedulerRetries.OneFate | src/scheduler/src/mission_scheduler_node.cpp:430-477 | among all ids ever issued for a submission exactly one was not queued again |
| SchedulerRetries.ActivationsAreBounded | src/scheduler/src/mission_scheduler_node.cpp:911-956 | in any run a submission becomes active at most max(1, limit) times |
| SchedulerProgress.PotentialFalls | src/scheduler/src/mission_scheduler_node.cpp:430-477 | without a new submission the tries left in the whole system never grow, and every completion, failure or overwriting uses some up for good |
| SchedulerProgress.SubmissionRaises | src/scheduler/src/mission_scheduler_node.cpp:493-517 | a submission adds at most max(1, limit) tries, and ends nothing |
| SchedulerProgress.RetriesRunOut | src/scheduler/src/mission_scheduler_node.cpp:430-477 | over any run, steps in which a mission ends plus tries left never exceed max(1, limit) per submission |
| SchedulerDispatch.SlotIsExact | src/scheduler/src/mission_scheduler_node.cpp:878-927 | the slot is taken exactly while one unanswered request carries the current generation; generations are distinct; any other answer changes no field |
| SchedulerDispatch.TimeoutIff | src/scheduler/src/mission_scheduler_node.cpp:810-849 | a tick of a ready system during a dispatch changes anything if and only if now - dispatch_started_at_ >= dispatch_timeout |
| SchedulerDispatch.TickMeans | src/scheduler/src/mission_scheduler_node.cpp:804-911 | a request takes the slot and a lease from now on, carries the front of the queue and the next generation; giving up a dispatch uses up one generation and ends its robot's lease, unless the robot's id is empty; all other fields and leases stay |
| SchedulerDispatch.RefusalMeans | src/scheduler/src/mission_scheduler_node.cpp:958-982 | a refusal of or an exception from a live request takes its robot out of both lease tables, frees the slot and publishes once; queue, active missions and other leases stay |
| SchedulerDispatch.AcceptanceMeans | src/scheduler/src/mission_scheduler_node.cpp:914-956 | the acceptance of a live request makes its robot run the requested mission, unconfirmed and dispatched now, takes that id and no other off the queue, keeps all leases, frees the slot and publishes once |
| SchedulerDispatch.StaleAnswerMeans | src/scheduler/src/mission_scheduler_node.cpp:911-927 | the answer to a request of another generation changes nothing |
| SchedulerDispatch.TimeoutFreesSlot | src/scheduler/src/mission_scheduler_node.cpp:810-849 | a ready tick at or past the timeout makes the old request stale; its robot is reserved afterwards if and only if it is dispatched to anew in that tick, or its id is the empty text and it was reserved |
| SchedulerDispatch.NamelessRobotStaysReserved | src/scheduler/src/mission_scheduler_node.cpp:838-849 | that exception is real: a run in which a robot with the empty id stays reserved past the timeout |
| SchedulerDispatch.DispatchIsBest | src/scheduler/src/mission_scheduler_node.cpp:673-753 | every dispatch pairs the mission of highest priority, the oldest of these, with the first robot of maximal battery among those that the latest snapshot shows online, not confirmed offline, localised, IDLE or in ERROR, charged and unreserved |
| SchedulerDispatch.DispatchHappensIff | src/scheduler/src/mission_scheduler_node.cpp:804-861 | the timer sends a request if and only if system and service are ready, no dispatch is outstanding for less than dispatch_timeout, a mission is pending and the latest snapshot shows such a robot |
| SchedulerDispatch.PublishedIsCurrent | src/scheduler/src/mission_scheduler_node.cpp:985-1021 | after every callback the last published message describes the queue as it is, on all paths that change it |
| SchedulerDispatch.SnapshotsTellQueuesApart | src/scheduler/src/mission_scheduler_node.cpp:985-1021 | equal messages mean equal ids, types and priorities in the same order |
| SchedulerOverwrite.NothingIsOverwritten | src/scheduler/src/mission_scheduler_node.cpp:298-421 | if snapshots never contradict themselves about a robot's state, show a robot that is being dispatched to as idle, and acceptances come within the delay, then leases that outlive that delay and the start timeout after it mean that no active mission is ever overwritten, and every robot with a mission is guarded |
| SchedulerOverwrite.NothingIsAccepted | src/scheduler/src/mission_scheduler_node.cpp:298-421 | with a negative allowed delay no acceptance is prompt, so no mission ever becomes active |
| SchedulerOverwrite.CheckingActiveRobotsSuffices | src/scheduler/src/mission_scheduler_node.cpp:673-742 | without any assumption on timing: runs in which the timer picks only robots without an active mission never overwrite one |
| SchedulerOverwriteTrace.AssumptionsDecide | src/scheduler/src/mission_scheduler_node.cpp:298-421 | the exact condition, for every configuration and every choice of assumptions: no mission is lost if and only if acceptances are prompt and either none can be, or snapshots do not contradict themselves, show the dispatched robot as idle, and the leases suffice; so each assumption is needed |
| SchedulerOverwriteTrace.ShortLeasesOverwrite | src/scheduler/src/mission_scheduler_node.cpp:298-335 | under every configuration whose leases are shorter there is a run in the best of surroundings that loses a mission |
| SchedulerOverwriteTrace.ErrorDuringDispatchOverwrites | src/scheduler/src/mission_scheduler_node.cpp:687-702 | dispatching to a robot in ERROR can lose a mission under any parameters: the next snapshot that shows ERROR ends the lease before the acceptance |
| SchedulerOverwriteTrace.AnyStateDuringDispatchOverwrites | src/scheduler/src/mission_scheduler_node.cpp:298-335 | no state but IDLE can be allowed during a dispatch: with a start timeout that is not negative, a snapshot that shows the dispatched robot in any other state lets a mission be lost |
| SchedulerOverwriteTrace.ContradictionOverwrites | src/scheduler/src/mission_scheduler_node.cpp:298-421 | under every configuration, a snapshot with two different lines about one robot lets a mission be lost |
| SchedulerOverwriteTrace.LateAcceptanceOverwrites | src/scheduler/src/mission_scheduler_node.cpp:914-956 | under every configuration, an acceptance that comes late enough lets a mission be lost |
| SchedulerOverwriteTrace.LeasesDecide | src/scheduler/src/mission_scheduler_node.cpp:91-104 | under all three assumptions the parameters decide: no mission is lost if and only if reservation_timeout is at least the allowed delay and at least mission_start_timeout plus that delay (or no acceptance can be prompt at all) |
| SchedulerOverwriteTrace.DefaultsOverwrite | src/scheduler/src/mission_scheduler_node.cpp:91-104 | the default parameters (10 s lease, 15 s start timeout) lose a mission in nine events, even if acceptances arrive at once |
| SchedulerHistory.ActiveOrigin | src/scheduler/src/mission_scheduler_node.cpp:792-802 | an active mission was accepted earlier on that robot; it is confirmed exactly by a later snapshot that showed the robot at work |
| SchedulerHistory.CompletionIsJustified | src/scheduler/src/mission_scheduler_node.cpp:359-412 | a mission is completed only after acceptance, then a snapshot with its robot at work, then a snapshot with it IDLE while still active |
| SchedulerHistory.FailureIsJustified | src/scheduler/src/mission_scheduler_node.cpp:378-420 | a mission fails only for ERROR, for confirmed offline, or for IDLE past the start timeout with no snapshot in between that showed it at work |
| FleetManager.FleetManagerNode.constructor | src/fleet/src/fleet_manager_node.cpp:102-175 | one fresh record and one e-stop publisher per listed robot |
| FleetManager.FleetManagerNode.ConfigureRobotMonitoring | src/fleet/src/fleet_manager_node.cpp:205-239 | the loop adds one fresh record per listed robot, duplicates included once |
| FleetManager.FleetManagerNode.ConfigureSafety | src/fleet/src/fleet_manager_node.cpp:318-330 | the loop gives exactly the listed robots an e-stop publisher |
| FleetManager.FleetManagerNode.HeartbeatCallback | src/fleet/src/fleet_manager_node.cpp:383-423 | a known robot gets the new readings and time; an unknown one changes nothing |
| FleetManager.FleetManagerNode.TickRobot | src/fleet/src/fleet_manager_node.cpp:696-778 | the branches on online, offline_since, grace period and auto e-stop update one record and produce its line as specified |
| FleetManager.FleetManagerNode.PublishFleetState | src/fleet/src/fleet_manager_node.cpp:684-782 | the loop ticks every listed robot once, lists them in order, and e-stops each at most once, even if the list has duplicates |
| FleetManager.FleetManagerNode.PublishEstop | src/fleet/src/fleet_manager_node.cpp:978-991 | one message on the robot's e-stop topic, and none for a robot without a publisher |
| FleetManager.FleetManagerNode.HandleEstopReleaseAll | src/fleet/src/fleet_manager_node.cpp:1011-1036 | every listed robot gets a release message and its latch is cleared |
| FleetTracking.OfflineSinceIsAnchor | src/fleet/src/fleet_manager_node.cpp:742-750 | offline_since is where the current unbroken run of offline ticks began, and unset outside one |
| FleetTracking.ConfirmedOfflineIff | src/fleet/src/fleet_manager_node.cpp:729-758 | online exactly if a heartbeat is recent; confirmed offline exactly if the run of offline ticks has lasted the grace period |
| FleetTracking.LineShowsLastBeat | src/fleet/src/fleet_manager_node.cpp:383-423 | at every tick the line of a robot shows its own id and the state, battery and localisation of its last heartbeat, and the initial readings before any |
| FleetManager.MessageOfARun | src/fleet/src/fleet_manager_node.cpp:684-782 | in every run a tick publishes one line for each position of the robot list, in that order, and each is the line that this robot's own history calls for |
| FleetTracking.ConfirmedOfflineMeansSilence | src/fleet/src/fleet_manager_node.cpp:742-758 | a robot reported confirmed offline was offline at every tick of a span of at least the grace period |
| FleetTracking.LatchIsExact | src/fleet/src/fleet_manager_node.cpp:760-775 | the latch is set exactly if some automatic e-stop has not been cleared since by an online tick or a release |
| FleetTracking.EstopsAreSeparated | src/fleet/src/fleet_manager_node.cpp:760-775 | between two automatic e-stops of a robot there is an online tick or a manual release |
| FleetTracking.EstopIff | src/fleet/src/fleet_manager_node.cpp:760-775 | a tick stops a robot if and only if automatic e-stops are on, its current run of offline ticks has lasted for the e-stop period, and no earlier e-stop is still in force |
| FleetManager.StoppedInARun | src/fleet/src/fleet_manager_node.cpp:684-782 | in every run a tick stops exactly the listed robots whose own history calls for it |
| FleetTracking.TickTwice | src/fleet/src/fleet_manager_node.cpp:696-778 | ticking a robot that is listed twice a second time changes and reports nothing new |
| FleetManager.StoppedAre | src/fleet/src/fleet_manager_node.cpp:760-775 | a tick stops exactly the listed robots whose e-stop is due, each once |
| FleetManager.RecordsFollowHistories | src/fleet/src/fleet_manager_node.cpp:383-782 | in every run of the fleet a robot's record depends on that robot's own history only |
| FleetManager.ListsOnceIffDistinct | src/fleet/src/fleet_manager_node.cpp:684-782 | a snapshot lists each robot at most once if and only if the robot list has no duplicates |
| FleetToScheduler.OfflineLineMeansSilence | src/fleet/src/fleet_manager_node.cpp:729-758 | the first line about a robot in a published snapshot, if confirmed offline, means silence over the grace period |
| FleetToScheduler.FailureEndToEnd | src/scheduler/src/mission_scheduler_node.cpp:378-420 | across both nodes: a mission fails only for ERROR, for never having been seen at work past the start timeout, or for a robot silent at every fleet tick of the grace period |
| FleetToScheduler.FedSnapshotsAgree | src/fleet/src/fleet_manager_node.cpp:684-782 | whatever its robot list, duplicates included, the fleet manager never publishes a snapshot that contradicts itself: one of the three assumptions is always met |
| FleetToScheduler.FedSnapshotsListOnce | src/fleet/src/fleet_manager_node.cpp:684-782 | a fleet list without duplicates gives snapshots with one line per robot |
| ReadinessSupervisor.PollTally.Count | src/bringup/src/system_readiness_supervisor.cpp:426-476 | one answer updates the four shared counters; a failed query clears both flags |
| ReadinessSupervisor.SystemReadinessSupervisor.constructor | src/bringup/src/system_readiness_supervisor.cpp:73-129 | every robot starts waiting for inputs, and `false` has been published |
| ReadinessSupervisor.SystemReadinessSupervisor.MapCallback | src/bringup/src/system_readiness_supervisor.cpp:231-274 | a map counts only with positive width, height and resolution; unknown robots change nothing |
| ReadinessSupervisor.SystemReadinessSupervisor.PollLifecycleStates | src/bringup/src/system_readiness_supervisor.cpp:314-401 | nothing for an unknown robot, and no poll unless all six services are ready; otherwise a new generation, the polling phase and fresh counters |
| ReadinessSupervisor.SystemReadinessSupervisor.HandleGetStateResponse | src/bringup/src/system_readiness_supervisor.cpp:403-486 | an answer of another generation changes neither robot nor counters; the last one finishes the poll |
| ReadinessSupervisor.SystemReadinessSupervisor.FinishedPoll | src/bringup/src/system_readiness_supervisor.cpp:488-539 | the outcome decides between confirming, STARTUP, RESET and nothing; an unknown robot is ignored |
| ReadinessSupervisor.SystemReadinessSupervisor.RequestNav2Startup | src/bringup/src/system_readiness_supervisor.cpp:541-634 | STARTUP is sent unless the robot is unknown, the last one is too recent or the service is missing |
| ReadinessSupervisor.SystemReadinessSupervisor.RequestNav2Reset | src/bringup/src/system_readiness_supervisor.cpp:636-725 | the same for RESET with its own period |
| ReadinessSupervisor.SystemReadinessSupervisor.CommandCallback | src/bringup/src/system_readiness_supervisor.cpp:606-633 | a returned command sets the phase to idle, whatever the phase was |
| ReadinessSupervisor.SystemReadinessSupervisor.CheckRobot | src/bringup/src/system_readiness_supervisor.cpp:744-819 | one visit: inputs, watchdog, phase, poll, and whether the robot is ready |
| ReadinessSupervisor.SystemReadinessSupervisor.CheckRobots | src/bringup/src/system_readiness_supervisor.cpp:742-820 | the loop over the robot list is the fold of the visits, duplicates included |
| ReadinessSupervisor.SystemReadinessSupervisor.CheckReadiness | src/bringup/src/system_readiness_supervisor.cpp:727-839 | at a clock that is not positive only `false` is offered; otherwise the value of all visits |
| ReadinessSupervisor.SystemReadinessSupervisor.PublishReady | src/bringup/src/system_readiness_supervisor.cpp:841-866 | a message goes out only if it differs from the last one |
| SupervisorInvariant.InvariantHolds | src/bringup/src/system_readiness_supervisor.cpp:314-725 | counters match the answers counted, the log of finished polls and the log of commands stay exact, over every run |
| SupervisorInvariant.CountingMatches | src/bringup/src/system_readiness_supervisor.cpp:426-476 | counting one more answer keeps the four counters equal to the conjunctions over the answers |
| SupervisorGuarantees.FinishHeardEveryNode | src/bringup/src/system_readiness_supervisor.cpp:403-486 | a poll finishes with an answer of each of the six nodes, each given to that poll while it was the current one |
| SupervisorGuarantees.PollsFinishOnce | src/bringup/src/system_readiness_supervisor.cpp:403-486 | no generation finishes twice, and generations finish in order |
| SupervisorGuarantees.CountersAreConjunctions | src/bringup/src/system_readiness_supervisor.cpp:347-476 | the shared counters of any poll, finished or not, are conjunctions over its own answers |
| SupervisorGuarantees.ConfirmedIff | src/bringup/src/system_readiness_supervisor.cpp:488-539 | confirmed_active if and only if a poll has finished and all six nodes were active in the last one |
| SupervisorGuarantees.OnlyAnswersConfirm | src/bringup/src/system_readiness_supervisor.cpp:334-345 | only the last missing answer of the current poll can change confirmed_active: neither a timeout nor a missing service does |
| SupervisorGuarantees.PollingMissesAnAnswer | src/bringup/src/system_readiness_supervisor.cpp:347-401 | in every run a robot that is polling has an answer of its current poll missing |
| SupervisorGuarantees.CommandsAreCalledFor | src/bringup/src/system_readiness_supervisor.cpp:501-539 | STARTUP only after a finished poll with all six unconfigured, RESET only after one with mixed states and no failed query |
| SupervisorGuarantees.CommandsAreSpaced | src/bringup/src/system_readiness_supervisor.cpp:551-579 | two STARTUPs, and likewise two RESETs, are at least their retry period apart over the whole run |
| SupervisorCallbacks.FinishSendsIff | src/bringup/src/system_readiness_supervisor.cpp:488-684 | a finished poll sends RESET if and only if no query failed, the nodes are neither all active nor all unconfigured, the service is ready and no RESET was sent within the retry period; STARTUP likewise if all are unconfigured |
| SupervisorCallbacks.FinishLeaves | src/bringup/src/system_readiness_supervisor.cpp:488-684 | it leaves the robot waiting for that command, with its time noted, or idle; confirmed if and only if no query failed and all nodes were active; nothing else changes |
| SupervisorCallbacks.CommandsAreSentIff | src/bringup/src/system_readiness_supervisor.cpp:403-725 | over every run: a callback finishes a poll if and only if it is the last missing answer to the current one, and sends RESET, STARTUP or nothing exactly as the six answers, the service and the retry period say |
| SupervisorCallbacks.CommandEnds | src/bringup/src/system_readiness_supervisor.cpp:593-634 | the end of a command leaves the robot idle, whatever it was waiting for, and changes nothing else about it |
| SupervisorCallbacks.WatchdogIff | src/bringup/src/system_readiness_supervisor.cpp:795-810 | a check abandons the poll of a robot with map, TF and lifecycle service if and only if it has lasted longer than poll_timeout |
| SupervisorCallbacks.CheckMeans | src/bringup/src/system_readiness_supervisor.cpp:765-820 | what a check does to every field: a poll starts if and only if the inputs and all state services are there and the robot was waiting for inputs, idle, or polling for too long |
| SupervisorCallbacks.NoPollLastsForever | src/bringup/src/system_readiness_supervisor.cpp:765-820 | a check that finds inputs and state services leaves the robot waiting for a command or in a poll no older than the timeout |
| SupervisorGuarantees.OrderlyIff | src/bringup/src/system_readiness_supervisor.cpp:765-820 | from a state in which the phase tells what is in flight, a step keeps that if and only if it is not a check that loses inputs while polling or awaiting a command |
| SupervisorGuarantees.OrderlyWhileInputsStay | src/bringup/src/system_readiness_supervisor.cpp:765-820 | from any such state on, as long as no check loses inputs in that way: a command is outstanding exactly in the pending phases, an open current poll exactly while polling, never two at once |
| SupervisorGuarantees.AlwaysOrderlyIff | src/bringup/src/system_readiness_supervisor.cpp:765-820 | over whole runs: the phase tells what is in flight in every state of the run if and only if no check of it loses inputs while polling or awaiting a command |
| SupervisorGuarantees.PollPutsInOrderIff | src/bringup/src/system_readiness_supervisor.cpp:790-820 | recovery: a check that starts a poll puts the phase back in order if and only if no command is outstanding |
| SupervisorGuarantees.OrderlyFromBoot | src/bringup/src/system_readiness_supervisor.cpp:765-820 | the same from the start of a run |
| SupervisorTrace.SixRepliesFinish | src/bringup/src/system_readiness_supervisor.cpp:403-539 | six equal answers to a fresh poll always finish it, with the outcome they report |
| SupervisorTrace.StartupsPileUp | src/bringup/src/system_readiness_supervisor.cpp:770-785 | without that condition there is no bound at all: whatever the retry period, for every n a run with n STARTUP commands outstanding at once |
| SupervisorTrace.LostInputsAllowTwoStartups | src/bringup/src/system_readiness_supervisor.cpp:770-785 | already two at once leave the phase out of step with what is in flight |
| ReadyStream.PublishedShrinks | src/bringup/src/system_readiness_supervisor.cpp:841-866 | the messages alternate and are the offered values with every run of equal values shrunk to one |
| ReadyStream.ShrinkingIsUnique | src/bringup/src/system_readiness_supervisor.cpp:841-866 | no other alternating stream is such a shrinking |
| SupervisorFleet.ValueIff | src/bringup/src/system_readiness_supervisor.cpp:742-820 | the value of a check does not depend on the order of the visits: every visit finds inputs ready and the robot confirmed |
| SupervisorFleet.EachRobotByItself | src/bringup/src/system_readiness_supervisor.cpp:742-820 | with distinct ids a check treats each robot by itself |
| SupervisorFleet.SystemsFollowRobots | src/bringup/src/system_readiness_supervisor.cpp:742-820 | in the runs of the whole supervisor a check changes the robots' fields exactly as the node's own check does |
| SupervisorFleet.SystemsOpenPolls | src/bringup/src/system_readiness_supervisor.cpp:347-401 | and after it each robot has the polls it had, untouched, and fresh ones under exactly the numbers that the node's check reports as started |
| SupervisorFleet.StartedPollsAreNew | src/bringup/src/system_readiness_supervisor.cpp:347-401 | in any run a poll number that a check starts has never been used before |
| SupervisorFleet.ReadyMeans | src/bringup/src/system_readiness_supervisor.cpp:727-820 | in any run, a check offers `true` if and only if the clock is positive and every robot has its inputs and had all six nodes active in its last finished poll |
| SupervisorFleet.StreamOfARun | src/bringup/src/system_readiness_supervisor.cpp:129-129 | the messages of a run start with `false`, alternate, and end with the value offered last |
| SupervisorToScheduler.ReadyIff | src/scheduler/src/mission_scheduler_node.cpp:275-284 | the scheduler believes the system ready exactly if the last readiness message said so |
| SupervisorToScheduler.DispatchNeedsReadyFleet | src/scheduler/src/mission_scheduler_node.cpp:804-808 | across both nodes: a mission is sent only after a check that found every robot of the fleet ready |
| MergeGeometry.DistancesAreKept | src/merge_map/merge_map/merge_map.py:24-47 | the planar transform is a rigid motion |
| MergeGeometry.PlaceIsRigid | src/merge_map/merge_map/merge_map.py:50-76 | origin pose and frame transform together act as one rigid motion |
| MergeMeaning.PlaceIs | src/merge_map/merge_map/merge_map.py:24-76 | both coordinates written out: through the origin pose first, through the frame transform second |
| MergeMeaning.CentreIsMidpoint | src/merge_map/merge_map/merge_map.py:388-403 | the sampled point of a cell is the midpoint between the placed opposite corners of that cell |
| MergeMeaning.CanvasIsTight | src/merge_map/merge_map/merge_map.py:295-335 | the merged grid is the smallest that covers all sources: finest resolution, least corner coordinates as origin, and the fewest cells, at least one, that reach the greatest ones |
| MergeGeometry.BetweenInX | src/merge_map/merge_map/merge_map.py:229-268 | a point strictly inside a grid lies strictly between two of its transformed corners in x |
| MergeGeometry.BetweenInY | src/merge_map/merge_map/merge_map.py:229-268 | and in y |
| MergeGeometry.EveryCentreFallsInside | src/merge_map/merge_map/merge_map.py:311-335 | for any positive resolutions and any placements, every cell centre falls into the merged grid, so the bounds check never drops a cell |
| MergeMap.SourcesAreCovered | src/merge_map/merge_map/merge_map.py:413-431 | all sources of a merge are covered by the merged grid |
| MergeMap.MergingIsMax | src/merge_map/merge_map/merge_map.py:271-288 | the merge policy is the maximum, with unknown below everything |
| MergeMap.MergeCell | src/merge_map/merge_map/merge_map.py:374-443 | the innermost loop body adds exactly the mark of its source cell to the array |
| MergeMap.MergeSource | src/merge_map/merge_map/merge_map.py:368-443 | the two loops over a source add all of its marks in place |
| MergeMap.MergeSources | src/merge_map/merge_map/merge_map.py:358-443 | the outer loop adds the marks of all sources to an array of unknowns |
| MergeMap.CollectCorners | src/merge_map/merge_map/merge_map.py:295-306 | the corners of all sources, in order |
| MergeMap.BuildMergedMap | src/merge_map/merge_map/merge_map.py:290-446 | no result exactly without maps or with a resolution that is not positive; otherwise each cell holds the greatest known value landing in it, and -1 exactly if none lands |
| MergeMeaning.MergedCellMeans | src/merge_map/merge_map/merge_map.py:358-446 | the merge policy with nothing hidden: the cell (u, v) of the result holds the greatest of the known values of the source cells whose corners have their midpoint in it, and -1 if there are none |
| MergeMarks.MarksAre | src/merge_map/merge_map/merge_map.py:358-443 | the marks collected row by row are exactly the landings of the cells whose values count |
| MergeMarks.PaintedIsMerged | src/merge_map/merge_map/merge_map.py:358-443 | painting them gives every cell the greatest value that lands in it |
| MergeMap.MergeIsUnique | src/merge_map/merge_map/merge_map.py:358-446 | the policy determines the data |
| MergeMap.CanvasOfSame | src/merge_map/merge_map/merge_map.py:311-335 | origin, resolution and size depend on the set of sources only |
| MergeMap.OrderDoesNotMatter | src/merge_map/merge_map/merge_map.py:297-446 | sources that are equal as sets give the same origin, size, resolution and data: permuting or repeating (map, transform) pairs changes nothing |
| MergeMapNode.CompleteIff | src/merge_map/merge_map/merge_map.py:448-472 | either every robot contributes its map and transform, or none does |
| MergeMapNode.MergeMapNode.constructor | src/merge_map/merge_map/merge_map.py:114-116 | no map is known at first |
| MergeMapNode.MergeMapNode.MapCallback | src/merge_map/merge_map/merge_map.py:144-175 | a map without frame or of the wrong size changes nothing; otherwise it is stored, and a merge of the latest maps is published if and only if it is complete and possible |
| MergeMapNode.MergeMapNode.TryMergeAndPublish | src/merge_map/merge_map/merge_map.py:448-482 | nothing is published while a map or a transform is missing |
| OfflineMerge.EveryCornerFallsInside | src/merge_map/merge_map/offline_merge_map.py:19-39 | no index that the offline merge computes is out of range |
| OfflineMerge.MergeCell | src/merge_map/merge_map/offline_merge_map.py:35-47 | the update rules (100 overrides, 0 and -1 only replace -1, other values are ignored) add the mark of the cell |
| OfflineMerge.MergeGrid | src/merge_map/merge_map/offline_merge_map.py:34-47 | the two loops over a grid add all of its marks in place |
| OfflineMerge.FilledGrid | src/merge_map/merge_map/offline_merge_map.py:30-47 | the outer loop adds the marks of all grids |
| OfflineMerge.MergeMaps | src/merge_map/merge_map/offline_merge_map.py:12-49 | each merged cell holds the greatest of the 0s and 100s landing in it, and -1 if none lands |
| OfflineMerge.ObstaclesWin | src/merge_map/merge_map/offline_merge_map.py:41-47 | 100 if any 100 lands, else 0 if any 0 lands, else -1 |
| MergeMeaning.OfflineCellMeans | src/merge_map/merge_map/offline_merge_map.py:30-49 | the cell (u, v) of the result is 100 if the lower left corner of a cell of 100 lies in it, else 0 if that of a cell of 0 does, else -1 |
| MergeMeaning.OfflineCanvasIsTight | src/merge_map/merge_map/offline_merge_map.py:14-29 | finest resolution, leftmost and lowest origins, and the fewest cells that reach the rightmost and highest ends |
| OfflineMerge.FreeSpaceShowsFree | src/merge_map/merge_map/offline_merge_map.py:44-47 | a single free cell shows as 0, not as -1 as the comment at the head of the file has it |
| MergeAgreement.SameCanvas | src/merge_map/merge_map/offline_merge_map.py:19-29 | on grids that are not turned both merges compute the same origin, resolution and size, whatever the resolutions |
| MergeAgreement.SameTargets | src/merge_map/merge_map/offline_merge_map.py:37-39 | on one lattice, sampling corners and sampling centres reach the same merged cell |
| MergeAgreement.TargetsMeetIff | src/merge_map/merge_map/merge_map.py:388-436 | two source cells share a merged cell if and only if they share a place of the lattice |
| MergeAgreement.MergesAgreeOnInputsIff | src/merge_map/merge_map/offline_merge_map.py:19-49 | on one lattice, told by the grids before merging: the two merges agree on origin, resolution and size, and on the data if and only if every known value other than 0 and 100 is below 100 and lies at the same place as a 100 |
| MergeAgreement.MergesAgreeIff | src/merge_map/merge_map/offline_merge_map.py:19-49 | the same told by the result: they agree if and only if the TF-aware merge shows nothing but -1, 0 and 100 |
| MergeAgreement.ValuesInBetweenDiffer | src/merge_map/merge_map/offline_merge_map.py:41-47 | the condition is needed: a single cell of value 50 shows as 50 in one merge and not in the other |
| MergeAgreement.PlainGridsMergeAlike | src/merge_map/merge_map/offline_merge_map.py:19-49 | grids that hold only -1, 0 and 100 are merged alike |

## Left out

- ROS plumbing (parameters, topics, quality of service, service creation, logging, launch and configuration files):
  whether a service is ready and whether TF finds a transform are inputs of the steps.
- Reply texts and log-only state of the services; the cancel and queue replies keep what they decide.
- The SQLite mission store, incident reporting, manual patrol dispatch and the forwarding bodies of the fleet manager.
- The patrol manager, the heartbeat node, the safety gate and the pose-jump watchdog: the robot states they produce are
  arbitrary inputs of snapshots.
- The fields of a fleet-state line that the scheduler never reads (current mission, last heartbeat).
- Floating-point rounding and trigonometry: coordinates, batteries and times are exact reals, and a heading is a pair
  of cosine and sine whose squares add up to one. Map stamps and frame names are not modelled, nor is a frame's full
  three-dimensional pose: a goal pose is the planar payload that the scheduler carries along.
- Mutexes and threads; wrap-around of the id, sequence, generation and poll counters. The 32-bit attempt counter is
  proved not to wrap.
- The algorithm inside `std::stable_sort`: it is an insertion sort here, and any stable sort gives the same queue
  (`PushThenSort`).
- The names of the lifecycle nodes, which are the numbers 0 to 5, and the response payload of STARTUP and RESET,
  which the code only logs.
- Behaviour of the offline merge on inputs on which it raises an error (no maps, a resolution that is not positive,
  data shorter than the grid). Longer data are accepted, as in the code, and their surplus is never read.
- SchedulerOverwrite.NothingIsOverwritten: conditional on the surroundings and on sufficient leases, because the
  unconditional claim is false of the code; that every condition is necessary is `AssumptionsDecide`.
- MergeAgreement.MergesAgreeOnInputsIff: speaks of grids that are not turned, of one resolution and on one lattice,
  because the offline merge ignores orientation and frames.
