/**
 The mission scheduler as the node runs it: one method per callback and helper, updating the fields in place.
 Each method is proved to have exactly the effect that `SchedulerNode` gives for it.
 */
module MissionScheduler {
  import opened Common
  import opened Counting
  import opened MissionQueue
  import opened FleetState
  import opened MissionIds
  import opened SchedulerNode

  datatype CandidateRobot = CandidateRobot(robotId: string, battery: real)

  /** The reply of the queue service; a refused request gets no id. */
  datatype QueueReply = QueueReply(accepted: bool, missionId: string)

  datatype CancelReply = EmptyId | NotPending | Removed

  /** Walking the active missions after the leases are settled. */
  function Reconciled(cfg: Config, n: Node, now: Time, walk: seq<string>): Node {
    var failed := Failures(cfg, n.active, n.latest, now, walk);
    var n1 := RequeueAll(cfg, n.(active := Survivors(cfg, n.active, n.latest, now)), failed);
    if failed == [] then n1 else Publish(n1)
  }

  lemma {:induction false} FailuresAppend(
    cfg: Config, active: map<string, ActiveMission>, robots: seq<RobotState>, now: Time, walk: seq<string>, i: nat)
    requires i < |walk|
    ensures Failures(cfg, active, robots, now, walk[..i + 1])
      == Failures(cfg, active, robots, now, walk[..i])
         + (if walk[i] in active && Judge(cfg, robots, walk[i], active[walk[i]], now) == Failed
            then [active[walk[i]]] else [])
  {
    hide Judge;
    if i == 0 {
      assert walk[..1] == [walk[0]];
    } else {
      assert walk[1..][..i] == walk[..i + 1][1..] && walk[1..][..i - 1] == walk[..i][1..];
      FailuresAppend(cfg, active, robots, now, walk[1..], i - 1);
    }
  }

  lemma RequeueNext(cfg: Config, n: Node, missions: seq<ActiveMission>, k: nat)
    requires k < |missions|
    ensures RequeueAll(cfg, n, missions[k..]) == RequeueAll(cfg, Requeue(cfg, n, missions[k]), missions[k + 1..])
  {
    hide Requeue;
    assert missions[k..][0] == missions[k] && missions[k..][1..] == missions[k + 1..];
  }

  lemma RequeueNone(cfg: Config, n: Node)
    ensures RequeueAll(cfg, n, []) == n
  {
  }

  /** Two positions cannot both hold the first eligible robot of maximal battery. */
  lemma BestIsUnique(cfg: Config, robots: seq<RobotState>, reserved: set<string>, i: nat, j: nat)
    requires IsBest(cfg, robots, reserved, i) && IsBest(cfg, robots, reserved, j)
    ensures i == j
  {
  }

  /** `active` with the robots in `seen` that report being at work marked as confirmed. */
  ghost function Marked(
    cfg: Config, active: map<string, ActiveMission>, robots: seq<RobotState>, now: Time, seen: set<string>)
    : map<string, ActiveMission>
  {
    map id | id in active ::
      if id in seen && Judge(cfg, robots, id, active[id], now) == Busy
      then active[id].(confirmed := true) else active[id]
  }

  function Robots(failed: seq<(string, ActiveMission)>): seq<string> {
    seq(|failed|, k requires 0 <= k < |failed| => failed[k].0)
  }

  function Missions(failed: seq<(string, ActiveMission)>): seq<ActiveMission> {
    seq(|failed|, k requires 0 <= k < |failed| => failed[k].1)
  }

  /** `failed` pairs the failed missions of the walk, in order, with their robots. */
  ghost predicate ListsFailures(
    cfg: Config, active: map<string, ActiveMission>, robots: seq<RobotState>, now: Time, walk: seq<string>,
    failed: seq<(string, ActiveMission)>)
  {
    && Missions(failed) == Failures(cfg, active, robots, now, walk)
    && forall id :: id in Robots(failed) <==>
         id in walk && id in active && Judge(cfg, robots, id, active[id], now) == Failed
  }

  ghost predicate ListsCompletions(
    cfg: Config, active: map<string, ActiveMission>, robots: seq<RobotState>, now: Time, walk: seq<string>,
    completed: seq<string>)
  {
    forall id :: id in completed <==>
      id in walk && id in active && Judge(cfg, robots, id, active[id], now) == Completed
  }

  lemma JudgeNone(cfg: Config, active: map<string, ActiveMission>, robots: seq<RobotState>, now: Time)
    ensures Marked(cfg, active, robots, now, Elements([])) == active
    ensures ListsFailures(cfg, active, robots, now, [], []) && ListsCompletions(cfg, active, robots, now, [], [])
  {
  }

  lemma WalkIsAll(walk: seq<string>, ids: set<string>)
    requires Enumerates(walk, ids)
    ensures Elements(walk) == ids
  {
  }

  lemma CompletionOneMore(
    cfg: Config, active: map<string, ActiveMission>, robots: seq<RobotState>, now: Time, walk: seq<string>, i: nat,
    completed: seq<string>)
    requires i < |walk| && walk[i] in active
    requires ListsCompletions(cfg, active, robots, now, walk[..i], completed)
    ensures ListsCompletions(
      cfg, active, robots, now, walk[..i + 1],
      if Judge(cfg, robots, walk[i], active[walk[i]], now) == Completed then completed + [walk[i]] else completed)
  {
    hide Judge;
    assert walk[..i + 1] == walk[..i] + [walk[i]];
  }

  lemma ListOneMore(
    cfg: Config, active: map<string, ActiveMission>, robots: seq<RobotState>, now: Time, walk: seq<string>, i: nat,
    failed: seq<(string, ActiveMission)>)
    requires i < |walk| && walk[i] in active
    requires ListsFailures(cfg, active, robots, now, walk[..i], failed)
    ensures ListsFailures(
      cfg, active, robots, now, walk[..i + 1],
      if Judge(cfg, robots, walk[i], active[walk[i]], now) == Failed
      then failed + [(walk[i], active[walk[i]])] else failed)
  {
    var pair := (walk[i], active[walk[i]]);
    FailuresAppend(cfg, active, robots, now, walk, i);
    assert walk[..i + 1] == walk[..i] + [walk[i]];
    assert Missions(failed + [pair]) == Missions(failed) + [pair.1];
    assert Robots(failed + [pair]) == Robots(failed) + [pair.0];
    hide Failures, Judge, Missions, Robots;
  }

  lemma MarkOneMore(
    cfg: Config, active: map<string, ActiveMission>, robots: seq<RobotState>, now: Time, walk: seq<string>, i: nat)
    requires i < |walk| && walk[i] in active && walk[i] !in walk[..i]
    ensures
      var before := Marked(cfg, active, robots, now, Elements(walk[..i]));
      && walk[i] in before && before[walk[i]] == active[walk[i]]
      && Marked(cfg, active, robots, now, Elements(walk[..i + 1])) ==
           if Judge(cfg, robots, walk[i], active[walk[i]], now) == Busy
           then before[walk[i] := active[walk[i]].(confirmed := true)] else before
  {
    hide Judge;
    assert walk[..i + 1] == walk[..i] + [walk[i]];
  }

  lemma SurvivorsAreLeft(
    cfg: Config, active: map<string, ActiveMission>, robots: seq<RobotState>, now: Time, walk: seq<string>,
    completed: seq<string>, failed: seq<(string, ActiveMission)>)
    requires Enumerates(walk, active.Keys)
    requires ListsCompletions(cfg, active, robots, now, walk, completed)
    requires ListsFailures(cfg, active, robots, now, walk, failed)
    ensures Marked(cfg, active, robots, now, active.Keys) - Elements(completed) - Elements(Robots(failed))
      == Survivors(cfg, active, robots, now)
  {
    hide Judge, Robots, Missions, Failures;
  }

  /** Looking at one more line of the snapshot ends at most the lease of that line's robot. */
  lemma KeptOneMore(cfg: Config, leases: map<string, Time>, robots: seq<RobotState>, i: nat, now: Time)
    requires i < |robots|
    ensures
      var before := KeptLeases(cfg, leases, robots[..i], now);
      var ends := robots[i].state != STATE_IDLE
        || (robots[i].robotId in before && now - before[robots[i].robotId] > cfg.reservationTimeout);
      KeptLeases(cfg, leases, robots[..i + 1], now) == if ends then before - {robots[i].robotId} else before
  {
    var before, after := KeptLeases(cfg, leases, robots[..i], now), KeptLeases(cfg, leases, robots[..i + 1], now);
    forall id | id in leases
      ensures id in after <==>
        id in before
        && (id == robots[i].robotId ==>
              robots[i].state == STATE_IDLE && now - leases[id] <= cfg.reservationTimeout)
    {
      assert robots[..i + 1][i] == robots[i];
      assert forall k :: 0 <= k < i ==> robots[..i + 1][k] == robots[..i][k];
    }
  }

  /** `best` is the robot that the selection rule names, if it names one. */
  predicate IsChoice(cfg: Config, n: Node, best: Option<CandidateRobot>) {
    if !n.receivedFleetState then best == None
    else match SelectRobot(cfg, n.latest, n.reserved)
      case None => best == None
      case Some(i) => best == Some(CandidateRobot(n.latest[i].robotId, n.latest[i].battery))
  }

  lemma DispatchedTo(cfg: Config, n: Node, now: Time, best: Option<CandidateRobot>)
    requires n.queue != [] && IsChoice(cfg, n, best)
    ensures Dispatched(cfg, n, now) ==
      if best.None? then (n, None)
      else
        var n2 := Send(n, best.value.robotId, now);
        (n2, Some(Dispatch(n2.generation, best.value.robotId, n.queue[0])))
  {
    hide IsBest, Eligible;
  }

  /** `std::max_element` by battery: the first of the candidates with the most charge. */
  method MaxElement(candidates: seq<CandidateRobot>) returns (b: nat)
    requires candidates != []
    ensures b < |candidates|
    ensures forall k :: 0 <= k < |candidates| ==> candidates[k].battery <= candidates[b].battery
    ensures forall k :: 0 <= k < b ==> candidates[k].battery < candidates[b].battery
  {
    b := 0;
    var c := 1;
    while c < |candidates|
      invariant b < c <= |candidates|
      invariant forall k :: 0 <= k < c ==> candidates[k].battery <= candidates[b].battery
      invariant forall k :: 0 <= k < b ==> candidates[k].battery < candidates[b].battery
    {
      if candidates[b].battery < candidates[c].battery {
        b := c;
      }
      c := c + 1;
    }
  }

  class MissionSchedulerNode {
    const cfg: Config

    var systemReady: bool
    var latestFleetState: seq<RobotState>
    var receivedFleetState: bool
    var missionQueue: seq<Mission>
    var nextSequence: nat
    var missionCounter: nat
    var activeMissions: map<string, ActiveMission>
    var reservedRobots: set<string>
    var reservationTimes: map<string, Time>
    var dispatchInProgress: bool
    var dispatchStartedAt: Time
    var dispatchRobotId: string
    var dispatchGeneration: nat
    var published: seq<QueueState>

    /** The fields as one value. */
    ghost function View(): Node
      reads this
    {
      Node(
        systemReady, latestFleetState, receivedFleetState, missionQueue, nextSequence, missionCounter,
        activeMissions, reservedRobots, reservationTimes, dispatchInProgress, dispatchStartedAt,
        dispatchRobotId, dispatchGeneration, published)
    }

    constructor (cfg: Config)
      ensures this.cfg == cfg && View() == STARTED
    {
      this.cfg := cfg;
      systemReady, receivedFleetState := false, false;
      latestFleetState, missionQueue := [], [];
      nextSequence, missionCounter, dispatchGeneration := 0, 0, 0;
      activeMissions, reservedRobots, reservationTimes := map[], {}, map[];
      dispatchInProgress, dispatchStartedAt, dispatchRobotId := false, 0.0, "";
      published := [];
      new;
      PublishQueueState();
    }

    method SystemReadyCallback(ready: bool)
      modifies this
      ensures View() == old(View()).(systemReady := ready)
    {
      systemReady := ready;
    }

    /* Fleet snapshots. */

    method FleetStateCallback(robots: seq<RobotState>, now: Time, walk: seq<string>)
      requires Enumerates(walk, activeMissions.Keys)
      modifies this
      ensures View() == Snapshotted(cfg, old(View()), robots, now, walk)
    {
      latestFleetState := robots;
      receivedFleetState := true;
      UpdateRobotReservations(now);
      ReconcileActiveMissions(now, walk);
    }

    method UpdateRobotReservations(now: Time)
      modifies this`reservedRobots, this`reservationTimes
      ensures View() == UpdateReservations(cfg, old(View()), latestFleetState, now)
    {
      ghost var before := reservationTimes;
      var i := 0;
      assert reservationTimes == KeptLeases(cfg, before, latestFleetState[..0], now);
      while i < |latestFleetState|
        invariant i <= |latestFleetState|
        invariant reservationTimes == KeptLeases(cfg, before, latestFleetState[..i], now)
        invariant reservedRobots == old(reservedRobots) - (before.Keys - reservationTimes.Keys)
      {
        var robot := latestFleetState[i];
        if robot.robotId in reservationTimes {
          if robot.state != STATE_IDLE {
            reservedRobots := reservedRobots - {robot.robotId};
            reservationTimes := reservationTimes - {robot.robotId};
          } else if now - reservationTimes[robot.robotId] > cfg.reservationTimeout {
            reservedRobots := reservedRobots - {robot.robotId};
            reservationTimes := reservationTimes - {robot.robotId};
          }
        }
        KeptOneMore(cfg, before, latestFleetState, i, now);
        i := i + 1;
      }
      assert latestFleetState[..i] == latestFleetState;
    }

    method ReconcileActiveMissions(now: Time, walk: seq<string>)
      requires Enumerates(walk, activeMissions.Keys)
      modifies this
      ensures View() == Reconciled(cfg, old(View()), now, walk)
    {
      if activeMissions == map[] {
        return;
      }
      var completed, failed := JudgeActiveMissions(now, walk);
      EraseAll(completed);
      EraseAll(Robots(failed));
      SurvivorsAreLeft(cfg, old(activeMissions), latestFleetState, now, walk, completed, failed);
      hide Survivors, Judge, Marked, Failures, RequeueAll;
      RequeueFailed(failed);
      if failed != [] {
        PublishQueueState();
      }
    }

    method RequeueFailed(failed: seq<(string, ActiveMission)>)
      modifies this`missionQueue, this`nextSequence, this`missionCounter
      ensures View() == RequeueAll(cfg, old(View()), Missions(failed))
    {
      hide RequeueAll, Enqueue, AttemptLimit;
      ghost var missions := Missions(failed);
      var k := 0;
      assert missions[k..] == missions;
      while k < |failed|
        invariant k <= |failed|
        invariant RequeueAll(cfg, View(), missions[k..]) == RequeueAll(cfg, old(View()), missions)
      {
        RequeueNext(cfg, View(), missions, k);
        var mission := failed[k].1;
        var nextAttemptCount := mission.attempts + 1;
        if nextAttemptCount < AttemptLimit(cfg) {
          var newMissionId := EnqueueMission(
            mission.kind, mission.priority, mission.target, mission.hasTarget, nextAttemptCount);
        }
        k := k + 1;
      }
      RequeueNone(cfg, View());
      assert missions[k..] == [];
    }

    /** The walk over the active missions: marks the confirmed ones, and lists completed and failed ones. */
    method JudgeActiveMissions(now: Time, walk: seq<string>)
      returns (completed: seq<string>, failed: seq<(string, ActiveMission)>)
      requires Enumerates(walk, activeMissions.Keys)
      modifies this`activeMissions
      ensures activeMissions == Marked(cfg, old(activeMissions), latestFleetState, now, old(activeMissions).Keys)
      ensures ListsCompletions(cfg, old(activeMissions), latestFleetState, now, walk, completed)
      ensures ListsFailures(cfg, old(activeMissions), latestFleetState, now, walk, failed)
    {
      hide Marked, ListsFailures, ListsCompletions, FirstEntry, Elements;
      completed, failed := [], [];
      ghost var before := activeMissions;
      var i := 0;
      JudgeNone(cfg, before, latestFleetState, now);
      assert walk[..0] == [];
      while i < |walk|
        invariant i <= |walk|
        invariant activeMissions == Marked(cfg, before, latestFleetState, now, Elements(walk[..i]))
        invariant ListsCompletions(cfg, before, latestFleetState, now, walk[..i], completed)
        invariant ListsFailures(cfg, before, latestFleetState, now, walk[..i], failed)
      {
        var robotId := walk[i];
        assert robotId in walk && robotId !in walk[..i] && robotId in before;
        MarkOneMore(cfg, before, latestFleetState, now, walk, i);
        ListOneMore(cfg, before, latestFleetState, now, walk, i, failed);
        CompletionOneMore(cfg, before, latestFleetState, now, walk, i, completed);
        ghost var verdict := Judge(cfg, latestFleetState, robotId, before[robotId], now);
        var active := activeMissions[robotId];
        var entry := FirstEntry(latestFleetState, robotId);
        assert entry.None? ==> verdict == Unlisted;
        if entry.Some? {
          var robotFailed := entry.value.confirmedOffline || entry.value.state == STATE_ERROR;
          if robotFailed {
            failed := failed + [(robotId, active)];
          } else if entry.value.state != STATE_IDLE {
            activeMissions := activeMissions[robotId := active.(confirmed := true)];
          } else if active.confirmed {
            completed := completed + [robotId];
          } else if now - active.dispatchedAt > cfg.missionStartTimeout {
            failed := failed + [(robotId, active)];
          }
        }
        hide Judge;
        i := i + 1;
      }
      assert walk[..i] == walk;
      WalkIsAll(walk, before.Keys);
    }

    method EraseAll(robotIds: seq<string>)
      modifies this`activeMissions
      ensures activeMissions == old(activeMissions) - Elements(robotIds)
    {
      var i := 0;
      while i < |robotIds|
        invariant i <= |robotIds|
        invariant activeMissions == old(activeMissions) - Elements(robotIds[..i])
      {
        activeMissions := activeMissions - {robotIds[i]};
        assert robotIds[..i + 1] == robotIds[..i] + [robotIds[i]];
        i := i + 1;
      }
      assert robotIds[..i] == robotIds;
    }

    /* The queue. */

    method CreateMissionId() returns (id: nat)
      modifies this`missionCounter
      ensures missionCounter == old(missionCounter) + 1 && id == missionCounter
    {
      missionCounter := missionCounter + 1;
      id := missionCounter;
    }

    method EnqueueMission(kind: string, priority: int, target: Pose, hasTarget: bool, attemptCount: nat)
      returns (missionId: string)
      modifies this`missionQueue, this`nextSequence, this`missionCounter
      ensures View() == Enqueue(old(View()), kind, priority, target, hasTarget, attemptCount)
      ensures missionId == IdText(missionCounter)
    {
      hide StableSort, IdText;
      var id := CreateMissionId();
      missionQueue := missionQueue + [Mission(id, kind, priority, nextSequence, target, hasTarget, attemptCount)];
      nextSequence := nextSequence + 1;
      SortQueue();
      missionId := IdText(id);
    }

    method SortQueue()
      modifies this`missionQueue
      ensures missionQueue == StableSort(old(missionQueue))
      ensures Sorted(missionQueue) && multiset(missionQueue) == multiset(old(missionQueue))
      ensures forall m :: Ties(missionQueue, m) == Ties(old(missionQueue), m)
    {
      StableSortSorts(missionQueue);
      forall m ensures Ties(StableSort(missionQueue), m) == Ties(missionQueue, m) {
        StableSortIsStable(missionQueue, m);
      }
      missionQueue := StableSort(missionQueue);
    }

    method EnqueueRecurringPatrol()
      modifies this
      ensures View() == Submitted(old(View()), "patrol", cfg.recurringPriority, NO_TARGET, false)
    {
      var missionId := EnqueueMission("patrol", cfg.recurringPriority, NO_TARGET, false, 0);
      PublishQueueState();
    }

    method HandleQueueMission(kind: string, priority: int, target: Pose, hasTarget: bool) returns (reply: QueueReply)
      modifies this
      ensures View() == Submitted(old(View()), kind, priority, target, hasTarget)
      ensures reply ==
        if kind in SUPPORTED_KINDS then QueueReply(true, IdText(old(missionCounter) + 1)) else QueueReply(false, "")
    {
      if kind !in SUPPORTED_KINDS {
        return QueueReply(false, "");
      }
      var missionId := EnqueueMission(kind, priority, target, hasTarget, 0);
      PublishQueueState();
      reply := QueueReply(true, missionId);
    }

    method HandleCancelMission(missionId: string) returns (reply: CancelReply)
      modifies this
      ensures View() == Cancelled(old(View()), missionId)
      ensures reply == Removed <==>
        exists i :: 0 <= i < |old(missionQueue)| && IdText(old(missionQueue)[i].id) == missionId
      ensures reply == EmptyId <==> missionId == ""
    {
      if missionId == "" {
        return EmptyId;
      }
      var i := 0;
      while i < |missionQueue| && IdText(missionQueue[i].id) != missionId
        invariant i <= |missionQueue|
        invariant forall j :: 0 <= j < i ==> IdText(missionQueue[j].id) != missionId
      {
        i := i + 1;
      }
      if i == |missionQueue| {
        return NotPending;
      }
      missionQueue := missionQueue[..i] + missionQueue[i + 1..];
      PublishQueueState();
      reply := Removed;
    }

    method HandleDispatchPatrol() returns (missionId: string)
      modifies this
      ensures View() == Submitted(old(View()), "patrol", 0, NO_TARGET, false)
      ensures missionId == IdText(old(missionCounter) + 1)
    {
      missionId := EnqueueMission("patrol", 0, NO_TARGET, false, 0);
      PublishQueueState();
    }

    method GetNextMission() returns (mission: Option<Mission>)
      ensures mission == if missionQueue == [] then None else Some(missionQueue[0])
      ensures mission.Some? && Ordered(missionQueue) ==>
        forall i :: 0 < i < |missionQueue| ==> Before(mission.value, missionQueue[i])
    {
      mission := if missionQueue == [] then None else Some(missionQueue[0]);
    }

    method RemoveMission(id: nat)
      modifies this`missionQueue
      ensures missionQueue == Without(old(missionQueue), id)
    {
      var kept: seq<Mission>, i := [], 0;
      while i < |missionQueue|
        invariant i <= |missionQueue|
        invariant kept + Without(missionQueue[i..], id) == Without(missionQueue, id)
      {
        assert missionQueue[i..][0] == missionQueue[i] && missionQueue[i..][1..] == missionQueue[i + 1..];
        if missionQueue[i].id != id {
          kept := kept + [missionQueue[i]];
        }
        i := i + 1;
      }
      missionQueue := kept;
    }

    method PublishQueueState()
      modifies this`published
      ensures View() == Publish(old(View()))
    {
      var ids: seq<string>, kinds: seq<string>, priorities: seq<int> := [], [], [];
      var i := 0;
      while i < |missionQueue|
        invariant i <= |missionQueue| && |ids| == |kinds| == |priorities| == i
        invariant forall j :: 0 <= j < i ==>
          ids[j] == IdText(missionQueue[j].id) && kinds[j] == missionQueue[j].kind
          && priorities[j] == missionQueue[j].priority
      {
        ids := ids + [IdText(missionQueue[i].id)];
        kinds := kinds + [missionQueue[i].kind];
        priorities := priorities + [missionQueue[i].priority];
        i := i + 1;
      }
      published := published + [QueueState(|missionQueue|, ids, kinds, priorities)];
      assert QueueState(|missionQueue|, ids, kinds, priorities) == Snapshot(missionQueue);
    }

    /* Dispatch. */

    /** Collects the eligible robots, then takes the first of maximal battery. */
    method SelectRobot() returns (best: Option<CandidateRobot>)
      ensures IsChoice(cfg, View(), best)
    {
      if !receivedFleetState {
        return None;
      }
      var candidates, at := CollectCandidates();
      hide Eligible;
      if candidates == [] {
        return None;
      }
      var b := MaxElement(candidates);
      assert IsBest(cfg, latestFleetState, reservedRobots, at[b]);
      BestIsUnique(
        cfg, latestFleetState, reservedRobots, at[b],
        SchedulerNode.SelectRobot(cfg, latestFleetState, reservedRobots).value);
      best := Some(candidates[b]);
    }

    /** The eligible robots in the order of the snapshot; `at` holds their positions in it. */
    method CollectCandidates() returns (candidates: seq<CandidateRobot>, ghost at: seq<nat>)
      ensures |at| == |candidates|
      ensures forall k :: 0 <= k < |at| ==>
        && at[k] < |latestFleetState| && Eligible(cfg, latestFleetState[at[k]], reservedRobots)
        && candidates[k] == CandidateRobot(latestFleetState[at[k]].robotId, latestFleetState[at[k]].battery)
      ensures forall k, l :: 0 <= k < l < |at| ==> at[k] < at[l]
      ensures forall j :: 0 <= j < |latestFleetState| && Eligible(cfg, latestFleetState[j], reservedRobots) ==> j in at
    {
      hide Eligible;
      var robots := latestFleetState;
      candidates, at := [], [];
      var i := 0;
      while i < |robots|
        invariant i <= |robots| && |at| == |candidates|
        invariant forall k :: 0 <= k < |at| ==>
          && at[k] < i && Eligible(cfg, robots[at[k]], reservedRobots)
          && candidates[k] == CandidateRobot(robots[at[k]].robotId, robots[at[k]].battery)
        invariant forall k, l :: 0 <= k < l < |at| ==> at[k] < at[l]
        invariant forall j :: 0 <= j < i && Eligible(cfg, robots[j], reservedRobots) ==> j in at
      {
        if Eligible(cfg, robots[i], reservedRobots) {
          candidates := candidates + [CandidateRobot(robots[i].robotId, robots[i].battery)];
          at := at + [i];
        }
        i := i + 1;
      }
    }

    method ReserveRobot(robotId: string, now: Time)
      modifies this`reservedRobots, this`reservationTimes
      ensures View() == old(View()).(reserved := old(reservedRobots) + {robotId},
                                     reservedAt := old(reservationTimes)[robotId := now])
    {
      reservedRobots := reservedRobots + {robotId};
      reservationTimes := reservationTimes[robotId := now];
    }

    method ReleaseRobotReservation(robotId: string)
      modifies this`reservedRobots, this`reservationTimes
      ensures View() == Release(old(View()), robotId)
    {
      reservedRobots := reservedRobots - {robotId};
      reservationTimes := reservationTimes - {robotId};
    }

    /** Whatever the caller put there, the mission starts out unconfirmed and dispatched now. */
    method SetActiveMission(robotId: string, mission: ActiveMission, now: Time)
      modifies this`activeMissions
      ensures activeMissions ==
        old(activeMissions)[robotId := mission.(confirmed := false, dispatchedAt := now)]
    {
      activeMissions := activeMissions[robotId := mission.(confirmed := false, dispatchedAt := now)];
    }

    /** The dispatch timer; returns the request that it sends. */
    method ProcessQueue(now: Time, serviceReady: bool) returns (sent: Option<Dispatch>)
      modifies this
      ensures (View(), sent) == Ticked(cfg, old(View()), now, serviceReady)
    {
      sent := None;
      if !systemReady {
        return;
      }
      var timedOutRobotId := "";
      if dispatchInProgress {
        if now - dispatchStartedAt < cfg.dispatchTimeout {
          return;
        }
        dispatchGeneration := dispatchGeneration + 1;
        dispatchInProgress := false;
        timedOutRobotId := dispatchRobotId;
        dispatchRobotId := "";
      }
      if timedOutRobotId != "" {
        ReleaseRobotReservation(timedOutRobotId);
      }
      assert View() == if old(dispatchInProgress) then Reclaim(old(View())) else old(View());
      hide Reclaim, Dispatched;
      if !serviceReady {
        return;
      }
      sent := DispatchNextMission(now);
    }

    method DispatchNextMission(now: Time) returns (sent: Option<Dispatch>)
      modifies this
      ensures (View(), sent) == Dispatched(cfg, old(View()), now)
    {
      sent := None;
      var mission := GetNextMission();
      if mission.None? {
        return;
      }
      var robot := SelectRobot();
      DispatchedTo(cfg, View(), now, robot);
      hide *;
      if robot.None? {
        return;
      }
      TakeSlot(robot.value.robotId, now);
      sent := Some(Dispatch(dispatchGeneration, robot.value.robotId, mission.value));
    }

    method TakeSlot(robotId: string, now: Time)
      modifies this
      ensures View() == Send(old(View()), robotId, now)
      ensures dispatchGeneration == old(dispatchGeneration) + 1
    {
      dispatchInProgress := true;
      dispatchStartedAt := now;
      dispatchRobotId := robotId;
      dispatchGeneration := dispatchGeneration + 1;
      ReserveRobot(robotId, now);
    }

    /** The response callback of a request, with what it captured when the request was sent. */
    method HandleAssignResponse(dispatch: Dispatch, reply: Reply, now: Time)
      modifies this
      ensures View() == Answered(old(View()), dispatch, reply, now)
    {
      if dispatch.generation != dispatchGeneration {
        return;
      }
      var mission := dispatch.mission;
      match reply {
        case Accepted =>
          RemoveMission(mission.id);
          var newActiveMission := ActiveMission(
            mission.id, mission.kind, mission.priority, mission.target, mission.hasTarget,
            false, 0.0, mission.attempts);
          SetActiveMission(dispatch.robotId, newActiveMission, now);
        case Rejected =>
          ReleaseRobotReservation(dispatch.robotId);
        case Threw =>
          ReleaseRobotReservation(dispatch.robotId);
      }
      PublishQueueState();
      dispatchInProgress := false;
    }
  }
}
