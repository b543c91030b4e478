/**
 What one callback of the mission scheduler does to the node's fields: every callback is a function from
 the fields and its inputs to the fields afterwards. The class `MissionScheduler` is proved to do exactly
 this; the runs in `SchedulerSystem` are made of these steps.
 */
module SchedulerNode {
  import opened Common
  import opened MissionQueue
  import opened FleetState
  import opened MissionIds

  datatype Config = Config(
    minimumBattery: real,
    reservationTimeout: Time,
    dispatchTimeout: Time,
    missionStartTimeout: Time,
    maxMissionAttempts: int,
    recurringPriority: int)

  /** The parameter defaults. */
  const DEFAULTS: Config := Config(20.0, 10.0, 15.0, 15.0, 3, 50)

  datatype ActiveMission = ActiveMission(
    id: nat, kind: string, priority: int, target: Pose, hasTarget: bool,
    confirmed: bool, dispatchedAt: Time, attempts: nat)

  /** An AssignMission request in flight: what the response callback captured. */
  datatype Dispatch = Dispatch(generation: nat, robotId: string, mission: Mission)

  datatype Reply = Accepted | Rejected | Threw

  /** The queue-state message: count, ids, types and priorities in queue order. */
  datatype QueueState = QueueState(count: nat, ids: seq<string>, kinds: seq<string>, priorities: seq<int>)

  /** The node's fields; `published` collects what it sent on the queue-state topic, oldest first. */
  datatype Node = Node(
    systemReady: bool,
    latest: seq<RobotState>,
    receivedFleetState: bool,
    queue: seq<Mission>,
    nextSequence: nat,
    missionCounter: nat,
    active: map<string, ActiveMission>,
    reserved: set<string>,
    reservedAt: map<string, Time>,
    dispatchInProgress: bool,
    dispatchStartedAt: Time,
    dispatchRobot: string,
    generation: nat,
    published: seq<QueueState>)

  const SUPPORTED_KINDS: seq<string> := ["patrol", "go_to", "return_home", "charge", "inspect"]
  const NO_TARGET: Pose := Pose("", 0.0, 0.0, 0.0)

  /** `static_cast<uint32_t>(max_mission_attempts_)`. */
  function AttemptLimit(cfg: Config): (limit: nat)
    ensures limit < 0x1_0000_0000
    ensures (limit - cfg.maxMissionAttempts) % 0x1_0000_0000 == 0
    ensures 0 <= cfg.maxMissionAttempts < 0x1_0000_0000 ==> limit == cfg.maxMissionAttempts
  {
    cfg.maxMissionAttempts % 0x1_0000_0000
  }

  /* The queue. */

  function Snapshot(q: seq<Mission>): QueueState {
    QueueState(
      |q|,
      seq(|q|, i requires 0 <= i < |q| => IdText(q[i].id)),
      seq(|q|, i requires 0 <= i < |q| => q[i].kind),
      seq(|q|, i requires 0 <= i < |q| => q[i].priority))
  }

  function Publish(n: Node): Node {
    n.(published := n.published + [Snapshot(n.queue)])
  }

  function Enqueue(n: Node, kind: string, priority: int, target: Pose, hasTarget: bool, attempts: nat): Node {
    var m := Mission(n.missionCounter + 1, kind, priority, n.nextSequence, target, hasTarget, attempts);
    n.(queue := StableSort(n.queue + [m]), nextSequence := n.nextSequence + 1, missionCounter := n.missionCounter + 1)
  }

  /** The position of the first mission whose id reads `text`. */
  function FindMission(q: seq<Mission>, text: string): (r: Option<nat>)
    ensures r.None? <==> forall i :: 0 <= i < |q| ==> IdText(q[i].id) != text
    ensures r.Some? ==> r.value < |q| && IdText(q[r.value].id) == text
    ensures r.Some? ==> forall i :: 0 <= i < r.value ==> IdText(q[i].id) != text
  {
    if q == [] then None
    else if IdText(q[0].id) == text then Some(0)
    else match FindMission(q[1..], text)
      case None => None
      case Some(i) => Some(i + 1)
  }

  function Without(q: seq<Mission>, id: nat): seq<Mission> {
    if q == [] then []
    else (if q[0].id == id then [] else [q[0]]) + Without(q[1..], id)
  }

  function Submitted(n: Node, kind: string, priority: int, target: Pose, hasTarget: bool): Node {
    if kind in SUPPORTED_KINDS then Publish(Enqueue(n, kind, priority, target, hasTarget, 0)) else n
  }

  function Cancelled(n: Node, text: string): Node {
    match FindMission(n.queue, text)
    case None => n
    case Some(i) => Publish(n.(queue := n.queue[..i] + n.queue[i + 1..]))
  }

  /* A fleet snapshot: leases first, then the active missions. */

  /** Nothing in the snapshot ends the lease that robot `id` has held since `since`. */
  predicate KeepsLease(cfg: Config, robots: seq<RobotState>, id: string, since: Time, now: Time) {
    forall i :: 0 <= i < |robots| && robots[i].robotId == id ==>
      robots[i].state == STATE_IDLE && now - since <= cfg.reservationTimeout
  }

  function KeptLeases(cfg: Config, reservedAt: map<string, Time>, robots: seq<RobotState>, now: Time)
    : map<string, Time>
  {
    map id | id in reservedAt && KeepsLease(cfg, robots, id, reservedAt[id], now) :: reservedAt[id]
  }

  function UpdateReservations(cfg: Config, n: Node, robots: seq<RobotState>, now: Time): Node {
    var kept := KeptLeases(cfg, n.reservedAt, robots, now);
    n.(reserved := n.reserved - (n.reservedAt.Keys - kept.Keys), reservedAt := kept)
  }

  datatype Verdict = Unlisted | Failed | Busy | Completed | Waiting

  /** What the snapshot says about an active mission of robot `id`. */
  function Judge(cfg: Config, robots: seq<RobotState>, id: string, a: ActiveMission, now: Time): Verdict {
    match FirstEntry(robots, id)
    case None => Unlisted
    case Some(entry) =>
      if entry.confirmedOffline || entry.state == STATE_ERROR then Failed
      else if entry.state != STATE_IDLE then Busy
      else if a.confirmed then Completed
      else if now - a.dispatchedAt > cfg.missionStartTimeout then Failed
      else Waiting
  }

  function Survivors(cfg: Config, active: map<string, ActiveMission>, robots: seq<RobotState>, now: Time)
    : map<string, ActiveMission>
  {
    map id | id in active && Judge(cfg, robots, id, active[id], now) !in {Failed, Completed} ::
      if Judge(cfg, robots, id, active[id], now) == Busy then active[id].(confirmed := true) else active[id]
  }

  /** The failed missions, in the order in which the hash table `active` is walked. */
  function Failures(
    cfg: Config, active: map<string, ActiveMission>, robots: seq<RobotState>, now: Time, walk: seq<string>)
    : seq<ActiveMission>
  {
    if walk == [] then []
    else
      (if walk[0] in active && Judge(cfg, robots, walk[0], active[walk[0]], now) == Failed
       then [active[walk[0]]] else [])
      + Failures(cfg, active, robots, now, walk[1..])
  }

  predicate Retries(cfg: Config, a: ActiveMission) {
    a.attempts + 1 < AttemptLimit(cfg)
  }

  function Requeue(cfg: Config, n: Node, a: ActiveMission): Node {
    if Retries(cfg, a)
    then Enqueue(n, a.kind, a.priority, a.target, a.hasTarget, a.attempts + 1)
    else n
  }

  function RequeueAll(cfg: Config, n: Node, failed: seq<ActiveMission>): Node
    decreases |failed|
  {
    if failed == [] then n else RequeueAll(cfg, Requeue(cfg, n, failed[0]), failed[1..])
  }

  /** The fields once leases and active missions are settled, before any failed mission is queued again. */
  function Settled(cfg: Config, n: Node, robots: seq<RobotState>, now: Time): Node {
    var n1 := UpdateReservations(cfg, n.(latest := robots, receivedFleetState := true), robots, now);
    n1.(active := Survivors(cfg, n.active, robots, now))
  }

  function Snapshotted(cfg: Config, n: Node, robots: seq<RobotState>, now: Time, walk: seq<string>): Node {
    var failed := Failures(cfg, n.active, robots, now, walk);
    var n1 := RequeueAll(cfg, Settled(cfg, n, robots, now), failed);
    if failed == [] then n1 else Publish(n1)
  }

  /* Dispatch. */

  predicate Eligible(cfg: Config, robot: RobotState, reserved: set<string>) {
    && robot.online
    && !robot.confirmedOffline
    && robot.localizationOk
    && (robot.state == STATE_IDLE || robot.state == STATE_ERROR)
    && robot.battery >= cfg.minimumBattery
    && robot.robotId !in reserved
  }

  /** Position `i` holds the first eligible robot of maximal battery. */
  predicate IsBest(cfg: Config, robots: seq<RobotState>, reserved: set<string>, i: nat) {
    && i < |robots|
    && Eligible(cfg, robots[i], reserved)
    && (forall j :: 0 <= j < |robots| && Eligible(cfg, robots[j], reserved) ==>
          robots[j].battery <= robots[i].battery)
    && (forall j :: 0 <= j < i && Eligible(cfg, robots[j], reserved) ==>
          robots[j].battery < robots[i].battery)
  }

  function SelectRobot(cfg: Config, robots: seq<RobotState>, reserved: set<string>): (r: Option<nat>)
    ensures r.None? <==> forall j :: 0 <= j < |robots| ==> !Eligible(cfg, robots[j], reserved)
    ensures r.Some? ==> IsBest(cfg, robots, reserved, r.value)
  {
    if robots == [] then None
    else
      var k := |robots| - 1;
      var best := SelectRobot(cfg, robots[..k], reserved);
      if Eligible(cfg, robots[k], reserved) && (best.None? || robots[best.value].battery < robots[k].battery)
      then Some(k)
      else best
  }

  function Release(n: Node, robotId: string): Node {
    n.(reserved := n.reserved - {robotId}, reservedAt := n.reservedAt - {robotId})
  }

  predicate TimedOut(cfg: Config, n: Node, now: Time) {
    n.dispatchInProgress && now - n.dispatchStartedAt >= cfg.dispatchTimeout
  }

  /** Give up on the outstanding dispatch. The robot's lease goes too, unless the robot's id is the empty text. */
  function Reclaim(n: Node): Node {
    var n1 := n.(generation := n.generation + 1, dispatchInProgress := false, dispatchRobot := "");
    if n.dispatchRobot != "" then Release(n1, n.dispatchRobot) else n1
  }

  function Send(n: Node, robotId: string, now: Time): Node {
    n.(dispatchInProgress := true, dispatchStartedAt := now, dispatchRobot := robotId,
       generation := n.generation + 1, reserved := n.reserved + {robotId},
       reservedAt := n.reservedAt[robotId := now])
  }

  /** The first pending mission goes to the best robot, if there are both. */
  function Dispatched(cfg: Config, n: Node, now: Time): (Node, Option<Dispatch>) {
    if n.queue == [] || !n.receivedFleetState then (n, None)
    else match SelectRobot(cfg, n.latest, n.reserved)
      case None => (n, None)
      case Some(i) =>
        var n2 := Send(n, n.latest[i].robotId, now);
        (n2, Some(Dispatch(n2.generation, n.latest[i].robotId, n.queue[0])))
  }

  /** One firing of the dispatch timer, with the request it sends if any. */
  function Ticked(cfg: Config, n: Node, now: Time, serviceReady: bool): (Node, Option<Dispatch>) {
    if !n.systemReady || (n.dispatchInProgress && !TimedOut(cfg, n, now)) then (n, None)
    else
      var n1 := if n.dispatchInProgress then Reclaim(n) else n;
      if serviceReady then Dispatched(cfg, n1, now) else (n1, None)
  }

  function Activated(m: Mission, now: Time): ActiveMission {
    ActiveMission(m.id, m.kind, m.priority, m.target, m.hasTarget, false, now, m.attempts)
  }

  /** The response to request `d` arrives. */
  function Answered(n: Node, d: Dispatch, reply: Reply, now: Time): Node {
    if d.generation != n.generation then n
    else
      var n1 :=
        if reply == Accepted
        then n.(queue := Without(n.queue, d.mission.id), active := n.active[d.robotId := Activated(d.mission, now)])
        else Release(n, d.robotId);
      Publish(n1).(dispatchInProgress := false)
  }

  const STARTED: Node :=
    Publish(Node(false, [], false, [], 0, 0, map[], {}, map[], false, 0.0, "", 0, []))
}
