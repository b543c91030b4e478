/** The `/fleet/state` message that the fleet manager publishes and the scheduler reads. */
module FleetState {
  import opened Common

  const STATE_UNKNOWN: nat := 0
  const STATE_IDLE: nat := 1
  const STATE_ERROR: nat := 6

  /** One robot's line in a fleet snapshot. `state` is any of the heartbeat's state codes. */
  datatype RobotState = RobotState(
    robotId: string, online: bool, confirmedOffline: bool,
    state: nat, battery: real, localizationOk: bool)

  /** The first line about `robotId`, as `find_if` returns it. */
  function FirstEntry(robots: seq<RobotState>, robotId: string): (r: Option<RobotState>)
    ensures r.None? <==> forall i :: 0 <= i < |robots| ==> robots[i].robotId != robotId
    ensures r.Some? ==> r.value in robots && r.value.robotId == robotId
  {
    if robots == [] then None
    else if robots[0].robotId == robotId then Some(robots[0])
    else FirstEntry(robots[1..], robotId)
  }

  /** The snapshot has at most one line for each robot. */
  predicate ListsRobotsOnce(robots: seq<RobotState>) {
    forall i, j :: 0 <= i < j < |robots| ==> robots[i].robotId != robots[j].robotId
  }

  /** All lines about one robot show the same state. */
  predicate StatesAgree(robots: seq<RobotState>) {
    forall i, j :: 0 <= i < |robots| && 0 <= j < |robots| && robots[i].robotId == robots[j].robotId ==>
      robots[i].state == robots[j].state
  }

  /** Then the first line speaks for every other one. */
  lemma FirstStateIsAny(robots: seq<RobotState>, i: nat)
    requires StatesAgree(robots) && i < |robots|
    ensures FirstEntry(robots, robots[i].robotId).Some?
    ensures FirstEntry(robots, robots[i].robotId).value.state == robots[i].state
  {
    var entry := FirstEntry(robots, robots[i].robotId).value;
    var j :| 0 <= j < |robots| && robots[j] == entry;
  }
}
