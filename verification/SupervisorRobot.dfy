/** What one callback of the readiness supervisor does to one robot's fields. */
module SupervisorRobot {
  import opened Common

  datatype Phase = WaitingForInputs | Idle | Polling | StartupPending | ResetPending

  datatype Config = Config(startupRetry: Time, resetRetry: Time, pollTimeout: Time)

  datatype Robot = Robot(
    phase: Phase,
    mapReceived: bool, tfAvailable: bool, lifecycleAvailable: bool,
    confirmedActive: bool,
    lastStartup: Time, lastReset: Time,
    pollStartedAt: Time, pollGeneration: nat)

  const NEW_ROBOT: Robot := Robot(WaitingForInputs, false, false, false, false, 0.0, 0.0, 0.0, 0)

  /** The Nav2 nodes that a poll asks: controller, smoother, planner, behavior, navigator, waypoint follower. */
  const NODE_COUNT: nat := 6

  /** How a GetState request ends. */
  datatype Answer = IsActive | IsUnconfigured | IsOther | QueryFailed

  /** The counters that the six callbacks of one poll share. */
  datatype Tally = Tally(remaining: nat, allActive: bool, allUnconfigured: bool, queryFailed: bool)

  const FRESH_TALLY: Tally := Tally(NODE_COUNT, true, true, false)

  datatype Command = Startup | Reset

  function Counted(t: Tally, a: Answer): Tally {
    Tally(
      if t.remaining > 0 then t.remaining - 1 else 0,
      t.allActive && a == IsActive,
      t.allUnconfigured && a == IsUnconfigured,
      t.queryFailed || a == QueryFailed)
  }

  /** `last == 0` means that the command has never been sent. */
  predicate RetryDue(last: Time, retry: Time, now: Time) {
    last > 0.0 ==> now - last >= retry
  }

  function RequestStartup(cfg: Config, r: Robot, now: Time, serviceReady: bool): (Robot, Option<Command>) {
    if RetryDue(r.lastStartup, cfg.startupRetry, now) && serviceReady
    then (r.(phase := StartupPending, lastStartup := now), Some(Startup))
    else (r.(phase := Idle), None)
  }

  function RequestReset(cfg: Config, r: Robot, now: Time, serviceReady: bool): (Robot, Option<Command>) {
    if RetryDue(r.lastReset, cfg.resetRetry, now) && serviceReady
    then (r.(phase := ResetPending, lastReset := now), Some(Reset))
    else (r.(phase := Idle), None)
  }

  function FinishPoll(cfg: Config, r: Robot, t: Tally, now: Time, serviceReady: bool): (Robot, Option<Command>) {
    if t.queryFailed then (r.(confirmedActive := false, phase := Idle), None)
    else if t.allActive then (r.(confirmedActive := true, phase := Idle), None)
    else if t.allUnconfigured then RequestStartup(cfg, r.(confirmedActive := false), now, serviceReady)
    else RequestReset(cfg, r.(confirmedActive := false), now, serviceReady)
  }

  /** A GetState response of the poll with number `generation`: the robot, the poll's tally, the command sent. */
  function Answered(
    cfg: Config, r: Robot, t: Tally, generation: nat, a: Answer, now: Time, serviceReady: bool)
    : (Robot, Tally, Option<Command>)
  {
    if r.pollGeneration != generation then (r, t, None)
    else
      var t2 := Counted(t, a);
      if t2.remaining != 0 then (r, t2, None)
      else
        var (r2, sent) := FinishPoll(cfg, r, t2, now, serviceReady);
        (r2, t2, sent)
  }

  function CommandReturned(r: Robot): Robot {
    r.(phase := Idle)
  }

  /** What a readiness check observes about a robot: TF, lifecycle service, and all six state services. */
  datatype Inputs = Inputs(tf: bool, lifecycle: bool, stateServices: bool)

  predicate InputsReady(r: Robot, i: Inputs) {
    r.mapReceived && i.tf && i.lifecycle
  }

  predicate PollTimedOut(cfg: Config, r: Robot, now: Time) {
    r.phase == Polling && now - r.pollStartedAt > cfg.pollTimeout
  }

  /** Starts a poll unless a state service is missing; says whether it did. */
  function PollStarted(r: Robot, now: Time, stateServices: bool): (Robot, bool) {
    if stateServices
    then (r.(phase := Polling, pollStartedAt := now, pollGeneration := r.pollGeneration + 1), true)
    else (r, false)
  }

  /** One robot's share of a readiness check at a positive clock. */
  function Checked(cfg: Config, r: Robot, i: Inputs, now: Time): (Robot, bool) {
    var r1 := r.(tfAvailable := i.tf, lifecycleAvailable := i.lifecycle);
    if !InputsReady(r, i) then (r1.(phase := WaitingForInputs), false)
    else
      var r2 :=
        if PollTimedOut(cfg, r1, now) then r1.(pollGeneration := r1.pollGeneration + 1, phase := Idle) else r1;
      var r3 := if r2.phase == WaitingForInputs then r2.(phase := Idle) else r2;
      if r3.phase == Idle then PollStarted(r3, now, i.stateServices) else (r3, false)
  }
}
