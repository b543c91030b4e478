/**
 The converse of `NothingIsOverwritten`: leases that are too short, and each assumption about the surroundings that is
 dropped, allow a run that overwrites a mission. Two patrols are queued for one robot; the first is accepted, but the
 scheduler takes the robot for free while that mission is still active, and the second goes to the same robot.
 */
module SchedulerOverwriteTrace {
  import opened Common
  import opened MissionQueue
  import opened FleetState
  import opened SchedulerNode
  import opened SchedulerSystem
  import opened SchedulerInvariant
  import opened SchedulerConservation
  import opened SchedulerOverwrite

  const NAME: string := "robot1"
  const FIRST: Mission := Mission(1, "patrol", 0, 0, NO_TARGET, false, 0)
  const SECOND: Mission := Mission(2, "patrol", 0, 1, NO_TARGET, false, 0)

  /** The robot, idle and with just enough battery. */
  function IdleRobot(cfg: Config): RobotState {
    RobotState(NAME, true, false, STATE_IDLE, cfg.minimumBattery, true)
  }

  /** The robot, reporting some state. */
  function RobotIn(cfg: Config, state: nat): RobotState {
    IdleRobot(cfg).(state := state)
  }

  /** A run in timely surroundings. */
  ghost predicate IsTrace(cfg: Config, es: seq<Event>, a: Assumptions, delay: Time) {
    IsRun(cfg, es) && IsTimelyRun(cfg, es, a, delay)
  }

  lemma ExtendTrace(cfg: Config, es: seq<Event>, a: Assumptions, delay: Time, e: Event)
    requires IsTrace(cfg, es, a, delay) && Enabled(Run(cfg, es), e) && Timely(Run(cfg, es), e, a, delay)
    ensures IsTrace(cfg, es + [e], a, delay) && Run(cfg, es + [e]) == Step(cfg, Run(cfg, es), e)
  {
    assert (es + [e])[..|es|] == es;
  }

  /** Without reservations, the selection rule names the robot. */
  predicate Picks(cfg: Config, robots: seq<RobotState>) {
    var pick := SelectRobot(cfg, robots, {});
    pick.Some? && robots[pick.value].robotId == NAME
  }

  lemma IdleIsPicked(cfg: Config)
    ensures Picks(cfg, [IdleRobot(cfg)])
  {
  }

  /** A free slot: the timer sends the first pending mission to the robot. */
  lemma DispatchStep(cfg: Config, s: System, at: Time)
    requires s.node.systemReady && !s.node.dispatchInProgress && s.node.queue != []
    requires Picks(cfg, s.node.latest) && s.node.receivedFleetState && s.node.reserved == {}
    ensures
      var s2 := Step(cfg, s, Event(at, Timer(true)));
      && s2.node == Send(s.node, NAME, at) && s2.now == at
      && s2.outstanding == s.outstanding + {Dispatch(s.node.generation + 1, NAME, s.node.queue[0])}
  {
    hide LedgerAfter, SelectRobot;
  }

  lemma FirstSnapshotStep(cfg: Config, s: System)
    requires s.node.active == map[] && s.node.reservedAt == map[] && s.node.reserved == {}
    ensures
      var s2 := Step(cfg, s, Event(0.0, FleetSnapshot([IdleRobot(cfg)], [])));
      && s2.node == s.node.(latest := [IdleRobot(cfg)], receivedFleetState := true)
      && s2.outstanding == s.outstanding && s2.now == 0.0
  {
    hide LedgerAfter;
  }

  lemma LeaseIsDropped(cfg: Config, at: Time)
    requires at > cfg.reservationTimeout
    ensures KeptLeases(cfg, map[NAME := 0.0], [IdleRobot(cfg)], at) == map[]
  {
    assert [IdleRobot(cfg)][0].robotId == NAME;
  }

  /** The lease lapses while the first patrol is still given time to start. */
  lemma LapseStep(cfg: Config, s: System, accepted: Time, at: Time)
    requires s.node.active == map[NAME := Activated(FIRST, accepted)]
    requires s.node.reservedAt == map[NAME := 0.0] && s.node.reserved == {NAME}
    requires at > cfg.reservationTimeout && at - accepted <= cfg.missionStartTimeout
    ensures
      var s2 := Step(cfg, s, Event(at, FleetSnapshot([IdleRobot(cfg)], [NAME])));
      && s2.node == s.node.(latest := [IdleRobot(cfg)], receivedFleetState := true, reserved := {}, reservedAt := map[])
      && s2.outstanding == s.outstanding && s2.now == at
  {
    hide LedgerAfter, Snapshot;
    assert Judge(cfg, [IdleRobot(cfg)], NAME, Activated(FIRST, accepted), at) == Waiting;
    assert Failures(cfg, s.node.active, [IdleRobot(cfg)], at, [NAME]) == [];
    LeaseIsDropped(cfg, at);
    assert Survivors(cfg, s.node.active, [IdleRobot(cfg)], at) == s.node.active;
  }

  /** A snapshot ends the lease while the first patrol's acceptance is still awaited. */
  lemma EarlyEndStep(cfg: Config, s: System, robots: seq<RobotState>, at: Time)
    requires s.node.active == map[]
    requires s.node.reservedAt == map[NAME := 0.0] && s.node.reserved == {NAME}
    requires KeptLeases(cfg, map[NAME := 0.0], robots, at) == map[]
    ensures
      var s2 := Step(cfg, s, Event(at, FleetSnapshot(robots, [])));
      && s2.node == s.node.(latest := robots, receivedFleetState := true, reserved := {}, reservedAt := map[])
      && s2.outstanding == s.outstanding && s2.now == at
  {
    hide LedgerAfter, Snapshot, KeptLeases, Survivors, Failures;
    NothingIsJudged(cfg, robots, at);
    assert s.node.reservedAt.Keys == {NAME};
    var n1 := Settled(cfg, s.node, robots, at);
    assert n1 == s.node.(latest := robots, receivedFleetState := true, reserved := {}, reservedAt := map[]);
    assert Snapshotted(cfg, s.node, robots, at, []) == n1;
  }

  lemma NothingIsJudged(cfg: Config, robots: seq<RobotState>, at: Time)
    ensures Survivors(cfg, map[], robots, at) == map[] && Failures(cfg, map[], robots, at, []) == []
  {
  }

  lemma PatrolStep(cfg: Config, s: System, q: seq<Mission>, m: Mission)
    requires s.node.queue == q && Ordered(q) && forall i :: 0 <= i < |q| ==> q[i].sequence < m.sequence
    requires m == Mission(s.node.missionCounter + 1, "patrol", 0, s.node.nextSequence, NO_TARGET, false, 0)
    ensures
      var s2 := Step(cfg, s, Event(0.0, PatrolRequest));
      && s2.node == s.node.(queue := Insert(q, m), nextSequence := s.node.nextSequence + 1,
                            missionCounter := s.node.missionCounter + 1, published := s2.node.published)
      && s2.outstanding == s.outstanding && s2.now == 0.0
  {
    hide StableSort, Insert, LedgerAfter, Snapshot, Ordered;
    PushThenSort(q, m);
    assert OutstandingAfter(cfg, s, Event(0.0, PatrolRequest)) == s.outstanding;
  }

  lemma TwoPatrols(cfg: Config, a: Assumptions, delay: Time) returns (es: seq<Event>)
    ensures |es| == 3 && IsTrace(cfg, es, a, delay)
    ensures
      var s := Run(cfg, es);
      && s.now == 0.0 && s.outstanding == {}
      && s.node == STARTED.(systemReady := true, queue := [FIRST, SECOND], nextSequence := 2, missionCounter := 2,
                            published := s.node.published)
  {
    ExtendTrace(cfg, [], a, delay, Event(0.0, SystemReady(true)));
    es := [] + [Event(0.0, SystemReady(true))];
    assert Run(cfg, es).node == STARTED.(systemReady := true);
    hide Run, IsTrace, Step, Snapshot;
    PatrolStep(cfg, Run(cfg, es), [], FIRST);
    ExtendTrace(cfg, es, a, delay, Event(0.0, PatrolRequest));
    es := es + [Event(0.0, PatrolRequest)];
    assert Run(cfg, es).node.queue == [FIRST];
    PatrolStep(cfg, Run(cfg, es), [FIRST], SECOND);
    ExtendTrace(cfg, es, a, delay, Event(0.0, PatrolRequest));
    es := es + [Event(0.0, PatrolRequest)];
    assert Insert([FIRST], SECOND) == [FIRST, SECOND];
  }

  /** The first patrol is with the robot, unanswered. */
  predicate AwaitsAnswer(s: System) {
    && s.now == 0.0 && s.outstanding == {Dispatch(1, NAME, FIRST)}
    && s.node.systemReady && s.node.queue == [FIRST, SECOND] && s.node.active == map[]
    && s.node.dispatchInProgress && s.node.dispatchRobot == NAME
    && s.node.generation == 1 && s.node.dispatchStartedAt == 0.0
    && s.node.reserved == {NAME} && s.node.reservedAt == map[NAME := 0.0]
  }

  lemma FirstIsDispatched(cfg: Config, a: Assumptions, delay: Time) returns (es: seq<Event>)
    ensures |es| == 5 && IsTrace(cfg, es, a, delay) && AwaitsAnswer(Run(cfg, es))
  {
    es := TwoPatrols(cfg, a, delay);
    hide Run, IsTrace, Step, Snapshot;
    FirstSnapshotStep(cfg, Run(cfg, es));
    ExtendTrace(cfg, es, a, delay, Event(0.0, FleetSnapshot([IdleRobot(cfg)], [])));
    es := es + [Event(0.0, FleetSnapshot([IdleRobot(cfg)], []))];
    IdleIsPicked(cfg);
    DispatchStep(cfg, Run(cfg, es), 0.0);
    ExtendTrace(cfg, es, a, delay, Event(0.0, Timer(true)));
    es := es + [Event(0.0, Timer(true))];
  }

  lemma FirstIsRemoved()
    ensures Without([FIRST, SECOND], 1) == [SECOND]
  {
    assert [SECOND][1..] == [] && Without([SECOND], 1) == [SECOND];
    assert [FIRST, SECOND][1..] == [SECOND];
  }

  /** The acceptance makes the first patrol active and frees the slot. */
  lemma AcceptStep(cfg: Config, s: System, at: Time)
    requires s.outstanding == {Dispatch(1, NAME, FIRST)} && s.node.generation == 1 && s.node.active == map[]
    requires s.node.queue == [FIRST, SECOND]
    ensures
      var s2 := Step(cfg, s, Event(at, Answer(Dispatch(1, NAME, FIRST), Accepted)));
      && s2.now == at && s2.outstanding == {}
      && s2.node == s.node.(queue := [SECOND], active := map[NAME := Activated(FIRST, at)],
                            dispatchInProgress := false, published := s2.node.published)
  {
    FirstIsRemoved();
    hide LedgerAfter, Snapshot, Without;
  }

  lemma PromptAnswer(s: System, d: Dispatch, at: Time, a: Assumptions, delay: Time)
    requires d in s.outstanding && s.now <= at && (a.prompt ==> at <= s.node.dispatchStartedAt + delay)
    ensures Enabled(s, Event(at, Answer(d, Accepted))) && Timely(s, Event(at, Answer(d, Accepted)), a, delay)
  {
  }

  lemma TimelySnapshot(
    s: System, robots: seq<RobotState>, at: Time, walk: seq<string>, a: Assumptions, delay: Time)
    requires s.now <= at && Enumerates(walk, s.node.active.Keys)
    requires (a.statesAgree ==> StatesAgree(robots)) && (a.shownIdle ==> ShowsDispatchedIdle(s.node, robots))
    ensures
      var e := Event(at, FleetSnapshot(robots, walk));
      Enabled(s, e) && Timely(s, e, a, delay)
  {
  }

  /** The first patrol is active on the robot, which the scheduler takes for free. */
  predicate LooksFree(cfg: Config, s: System, at: Time) {
    && s.now == at && s.outstanding == {}
    && s.node.systemReady && s.node.queue == [SECOND] && s.node.active.Keys == {NAME}
    && !s.node.dispatchInProgress && s.node.generation == 1
    && Picks(cfg, s.node.latest) && s.node.receivedFleetState && s.node.reserved == {}
  }

  /** The first patrol is accepted at time `at`. */
  lemma Accepts(cfg: Config, a: Assumptions, delay: Time, es: seq<Event>, at: Time) returns (es2: seq<Event>)
    requires IsTrace(cfg, es, a, delay) && Run(cfg, es).now <= at && (a.prompt ==> at <= delay)
    requires
      var s := Run(cfg, es);
      && s.outstanding == {Dispatch(1, NAME, FIRST)} && s.node.generation == 1 && s.node.active == map[]
      && s.node.queue == [FIRST, SECOND] && s.node.dispatchStartedAt == 0.0
    ensures |es2| == |es| + 1 && es < es2 && IsTrace(cfg, es2, a, delay)
    ensures
      var s, s2 := Run(cfg, es), Run(cfg, es2);
      && s2.now == at && s2.outstanding == {}
      && s2.node == s.node.(queue := [SECOND], active := map[NAME := Activated(FIRST, at)],
                            dispatchInProgress := false, published := s2.node.published)
  {
    hide Run, IsTrace, Step, Enabled, Timely;
    var d := Dispatch(1, NAME, FIRST);
    PromptAnswer(Run(cfg, es), d, at, a, delay);
    AcceptStep(cfg, Run(cfg, es), at);
    ExtendTrace(cfg, es, a, delay, Event(at, Answer(d, Accepted)));
    es2 := es + [Event(at, Answer(d, Accepted))];
  }

  /** The lease does not outlast a start timeout that begins with the acceptance. */
  lemma LateLapse(cfg: Config, a: Assumptions, delay: Time) returns (es: seq<Event>, at: Time)
    requires 0.0 <= delay && 0.0 <= cfg.missionStartTimeout
    requires cfg.reservationTimeout < cfg.missionStartTimeout + delay
    ensures |es| == 7 && IsTrace(cfg, es, a, delay) && LooksFree(cfg, Run(cfg, es), at)
  {
    at := cfg.missionStartTimeout + delay;
    es := FirstIsDispatched(cfg, a, delay);
    hide Run, IsTrace, Step, Enabled, Timely, Picks;
    es := Accepts(cfg, a, delay, es, delay);
    TimelySnapshot(Run(cfg, es), [IdleRobot(cfg)], at, [NAME], a, delay);
    LapseStep(cfg, Run(cfg, es), delay, at);
    ExtendTrace(cfg, es, a, delay, Event(at, FleetSnapshot([IdleRobot(cfg)], [NAME])));
    es := es + [Event(at, FleetSnapshot([IdleRobot(cfg)], [NAME]))];
    IdleIsPicked(cfg);
  }

  /** A snapshot that ends the lease before the acceptance arrives leaves the robot unprotected. */
  lemma EndsEarly(cfg: Config, a: Assumptions, delay: Time, robots: seq<RobotState>, at: Time) returns (es: seq<Event>)
    requires 0.0 <= at && (a.prompt ==> at <= delay)
    requires KeptLeases(cfg, map[NAME := 0.0], robots, at) == map[] && StatesAgree(robots)
    requires a.shownIdle ==> forall i :: 0 <= i < |robots| ==> robots[i].state == STATE_IDLE
    ensures |es| == 7 && IsTrace(cfg, es, a, delay) && es[5] == Event(at, FleetSnapshot(robots, []))
    ensures
      var s := Run(cfg, es);
      && s.now == at && s.outstanding == {}
      && s.node.systemReady && s.node.queue == [SECOND] && s.node.active == map[NAME := Activated(FIRST, at)]
      && !s.node.dispatchInProgress && s.node.generation == 1
      && s.node.latest == robots && s.node.receivedFleetState && s.node.reserved == {} && s.node.reservedAt == map[]
  {
    es := FirstIsDispatched(cfg, a, delay);
    hide Run, IsTrace, Step, Enabled, Timely, KeptLeases, StatesAgree;
    TimelySnapshot(Run(cfg, es), robots, at, [], a, delay);
    EarlyEndStep(cfg, Run(cfg, es), robots, at);
    ExtendTrace(cfg, es, a, delay, Event(at, FleetSnapshot(robots, [])));
    es := es + [Event(at, FleetSnapshot(robots, []))];
    es := Accepts(cfg, a, delay, es, at);
  }

  /** The lease does not even outlast the wait for the acceptance. */
  lemma EarlyLapse(cfg: Config, a: Assumptions, delay: Time, at: Time) returns (es: seq<Event>)
    requires 0.0 <= at && cfg.reservationTimeout < at && (a.prompt ==> at <= delay)
    ensures |es| == 7 && IsTrace(cfg, es, a, delay) && LooksFree(cfg, Run(cfg, es), at)
  {
    LeaseIsDropped(cfg, at);
    IdleIsPicked(cfg);
    es := EndsEarly(cfg, a, delay, [IdleRobot(cfg)], at);
  }

  lemma TimerIsTimely(s: System, at: Time, a: Assumptions, delay: Time)
    requires s.now <= at
    ensures Enabled(s, Event(at, Timer(true))) && Timely(s, Event(at, Timer(true)), a, delay)
  {
  }

  /** The run respects the assumptions, and loses a mission. */
  ghost predicate LosesMission(cfg: Config, es: seq<Event>, a: Assumptions, delay: Time) {
    IsRun(cfg, es) && IsTimelyRun(cfg, es, a, delay) && Ids(Run(cfg, es).ledger, OVERWRITTEN) != {}
  }

  /** The second patrol is sent to the robot that is running the first, and is accepted at once. */
  lemma SecondOverwrites(cfg: Config, a: Assumptions, delay: Time, es: seq<Event>, at: Time) returns (es2: seq<Event>)
    requires (a.prompt ==> 0.0 <= delay) && IsTrace(cfg, es, a, delay) && LooksFree(cfg, Run(cfg, es), at)
    ensures |es2| == |es| + 2 && es < es2 && LosesMission(cfg, es2, a, delay)
  {
    hide Run, IsRun, IsTimelyRun, Step, Enabled, Timely, Inv, Ids, Picks;
    var d := Dispatch(2, NAME, SECOND);
    TimerIsTimely(Run(cfg, es), at, a, delay);
    DispatchStep(cfg, Run(cfg, es), at);
    ExtendTrace(cfg, es, a, delay, Event(at, Timer(true)));
    es2 := es + [Event(at, Timer(true))];
    var s := Run(cfg, es2);
    InvariantHolds(cfg, es2);
    AcceptOverwritesIff(cfg, s, d, at);
    PromptAnswer(s, d, at, a, delay);
    ExtendTrace(cfg, es2, a, delay, Event(at, Answer(d, Accepted)));
    es2 := es2 + [Event(at, Answer(d, Accepted))];
    NoneOverwritten(Run(cfg, es2).ledger);
  }

  /** Leases that do not cover the waiting times let a mission be lost, under any other parameters. */
  lemma ShortLeasesOverwrite(cfg: Config, a: Assumptions, delay: Time) returns (es: seq<Event>)
    requires 0.0 <= delay && !LeaseCovers(cfg, delay)
    ensures |es| == 9 && LosesMission(cfg, es, a, delay)
  {
    hide IsTrace, LooksFree, LosesMission;
    if cfg.reservationTimeout < delay {
      es := EarlyLapse(cfg, a, delay, delay);
      es := SecondOverwrites(cfg, a, delay, es, delay);
    } else {
      var at;
      es, at := LateLapse(cfg, a, delay);
      es := SecondOverwrites(cfg, a, delay, es, at);
    }
  }

  /* Each assumption is needed, under every configuration. */

  /** If acceptances may be late, the lease can lapse before one. */
  lemma LateAcceptanceOverwrites(cfg: Config, a: Assumptions, delay: Time) returns (es: seq<Event>)
    requires !a.prompt
    ensures |es| == 9 && LosesMission(cfg, es, a, delay)
  {
    hide IsTrace, LooksFree, LosesMission;
    var at := if cfg.reservationTimeout < 0.0 then 0.0 else cfg.reservationTimeout + 1.0;
    es := EarlyLapse(cfg, a, delay, at);
    es := SecondOverwrites(cfg, a, delay, es, at);
  }

  lemma FailedIsPicked(cfg: Config)
    ensures Picks(cfg, [RobotIn(cfg, STATE_ERROR)])
    ensures KeptLeases(cfg, map[NAME := 0.0], [RobotIn(cfg, STATE_ERROR)], 0.0) == map[]
  {
    assert [RobotIn(cfg, STATE_ERROR)][0].robotId == NAME;
  }

  /**
   A robot in ERROR counts as available, but the next snapshot that still shows ERROR ends the lease it was given: if
   that happens before the acceptance, the mission is unprotected, whatever the parameters.
   */
  lemma ErrorDuringDispatchOverwrites(cfg: Config, a: Assumptions, delay: Time) returns (es: seq<Event>)
    requires !a.shownIdle && (a.prompt ==> 0.0 <= delay)
    ensures |es| == 9 && LosesMission(cfg, es, a, delay)
  {
    hide IsTrace, LosesMission, Picks, KeptLeases;
    FailedIsPicked(cfg);
    es := EndsEarly(cfg, a, delay, [RobotIn(cfg, STATE_ERROR)], 0.0);
    es := SecondOverwrites(cfg, a, delay, es, 0.0);
  }

  lemma OtherStatesEndLeases(cfg: Config, state: nat)
    requires state != STATE_IDLE
    ensures KeptLeases(cfg, map[NAME := 0.0], [RobotIn(cfg, state)], 0.0) == map[]
  {
    assert [RobotIn(cfg, state)][0].robotId == NAME;
  }

  /** A mission that has just been accepted survives a snapshot that shows its robot as idle. */
  lemma WaitStep(cfg: Config, s: System)
    requires s.node.active == map[NAME := Activated(FIRST, 0.0)] && 0.0 <= cfg.missionStartTimeout
    requires s.node.reservedAt == map[] && s.node.reserved == {}
    ensures
      var s2 := Step(cfg, s, Event(0.0, FleetSnapshot([IdleRobot(cfg)], [NAME])));
      && s2.node == s.node.(latest := [IdleRobot(cfg)], receivedFleetState := true)
      && s2.outstanding == s.outstanding && s2.now == 0.0
  {
    hide LedgerAfter, Snapshot;
    assert Judge(cfg, [IdleRobot(cfg)], NAME, Activated(FIRST, 0.0), 0.0) == Waiting;
    assert Failures(cfg, s.node.active, [IdleRobot(cfg)], 0.0, [NAME]) == [];
    assert Survivors(cfg, s.node.active, [IdleRobot(cfg)], 0.0) == s.node.active;
  }

  /** No other state can be allowed instead, if a mission has any time to start at all. */
  lemma AnyStateDuringDispatchOverwrites(cfg: Config, a: Assumptions, delay: Time, state: nat) returns (es: seq<Event>)
    requires !a.shownIdle && (a.prompt ==> 0.0 <= delay)
    requires state != STATE_IDLE && 0.0 <= cfg.missionStartTimeout
    ensures |es| == 10 && LosesMission(cfg, es, a, delay)
    ensures es[5].what.FleetSnapshot? && es[5].what.robots == [RobotIn(cfg, state)]
  {
    hide Run, IsTrace, Step, Enabled, Timely, LosesMission, Picks, KeptLeases;
    OtherStatesEndLeases(cfg, state);
    es := EndsEarly(cfg, a, delay, [RobotIn(cfg, state)], 0.0);
    TimelySnapshot(Run(cfg, es), [IdleRobot(cfg)], 0.0, [NAME], a, delay);
    WaitStep(cfg, Run(cfg, es));
    ExtendTrace(cfg, es, a, delay, Event(0.0, FleetSnapshot([IdleRobot(cfg)], [NAME])));
    es := es + [Event(0.0, FleetSnapshot([IdleRobot(cfg)], [NAME]))];
    IdleIsPicked(cfg);
    es := SecondOverwrites(cfg, a, delay, es, 0.0);
  }

  lemma SecondLineIsPicked(cfg: Config)
    ensures Picks(cfg, [RobotIn(cfg, STATE_UNKNOWN), IdleRobot(cfg)])
    ensures KeptLeases(cfg, map[NAME := 0.0], [RobotIn(cfg, STATE_UNKNOWN), IdleRobot(cfg)], 0.0) == map[]
  {
    var robots := [RobotIn(cfg, STATE_UNKNOWN), IdleRobot(cfg)];
    assert robots[0].robotId == NAME;
    assert robots[..1] == [RobotIn(cfg, STATE_UNKNOWN)] && robots[..1][..0] == [];
    assert SelectRobot(cfg, robots[..1], {}) == None;
    assert SelectRobot(cfg, robots, {}) == Some(1);
  }

  /** A snapshot with one line that shows the robot at work and one that shows it idle. */
  lemma ContradictionStep(cfg: Config, s: System)
    requires s.node.active == map[NAME := Activated(FIRST, 0.0)]
    requires s.node.reservedAt == map[NAME := 0.0] && s.node.reserved == {NAME}
    ensures
      var robots := [RobotIn(cfg, STATE_UNKNOWN), IdleRobot(cfg)];
      var s2 := Step(cfg, s, Event(0.0, FleetSnapshot(robots, [NAME])));
      && s2.node == s.node.(latest := robots, receivedFleetState := true, reserved := {}, reservedAt := map[],
                            active := map[NAME := Activated(FIRST, 0.0).(confirmed := true)])
      && s2.outstanding == s.outstanding && s2.now == 0.0
  {
    hide LedgerAfter, Snapshot;
    var robots := [RobotIn(cfg, STATE_UNKNOWN), IdleRobot(cfg)];
    assert Judge(cfg, robots, NAME, Activated(FIRST, 0.0), 0.0) == Busy;
    assert Failures(cfg, s.node.active, robots, 0.0, [NAME]) == [];
    SecondLineIsPicked(cfg);
    assert Survivors(cfg, s.node.active, robots, 0.0) == map[NAME := Activated(FIRST, 0.0).(confirmed := true)];
  }

  /** One line of a snapshot confirms the mission and ends the lease, and another line offers the robot. */
  lemma ContradictionOverwrites(cfg: Config, a: Assumptions, delay: Time) returns (es: seq<Event>)
    requires !a.statesAgree && (a.prompt ==> 0.0 <= delay)
    ensures |es| == 9 && LosesMission(cfg, es, a, delay)
  {
    es := FirstIsDispatched(cfg, a, delay);
    hide Run, IsTrace, Step, Enabled, Timely, Picks, LosesMission;
    var robots := [RobotIn(cfg, STATE_UNKNOWN), IdleRobot(cfg)];
    es := Accepts(cfg, a, delay, es, 0.0);
    TimelySnapshot(Run(cfg, es), robots, 0.0, [NAME], a, delay);
    ContradictionStep(cfg, Run(cfg, es));
    ExtendTrace(cfg, es, a, delay, Event(0.0, FleetSnapshot(robots, [NAME])));
    es := es + [Event(0.0, FleetSnapshot(robots, [NAME]))];
    SecondLineIsPicked(cfg);
    es := SecondOverwrites(cfg, a, delay, es, 0.0);
  }

  /* The exact condition. */

  /** No run that respects the assumptions overwrites a mission. */
  ghost predicate NeverOverwrites(cfg: Config, a: Assumptions, delay: Time) {
    forall es :: IsRun(cfg, es) && IsTimelyRun(cfg, es, a, delay) ==> Ids(Run(cfg, es).ledger, OVERWRITTEN) == {}
  }

  lemma LosingIsOverwriting(cfg: Config, es: seq<Event>, a: Assumptions, delay: Time)
    requires LosesMission(cfg, es, a, delay)
    ensures !NeverOverwrites(cfg, a, delay)
  {
  }

  /**
   What it takes, configuration by configuration, that no mission is lost: acceptances must be prompt, snapshots must
   not contradict themselves and must show a robot that is being dispatched to as idle, and the lease must outlive the
   longest wait for an acceptance, and that wait followed by the start timeout. Each of these is needed. (With a
   negative `delay` no acceptance is prompt, and nothing ever runs.)
   */
  lemma AssumptionsDecide(cfg: Config, a: Assumptions, delay: Time)
    ensures NeverOverwrites(cfg, a, delay) <==>
            a.prompt && (delay < 0.0 || (a.statesAgree && a.shownIdle && LeaseCovers(cfg, delay)))
  {
    hide Run, IsRun, IsTimelyRun, Ids, LeaseCovers, LosesMission;
    if !a.prompt {
      var es := LateAcceptanceOverwrites(cfg, a, delay);
      LosingIsOverwriting(cfg, es, a, delay);
    } else if delay < 0.0 {
      forall es | IsRun(cfg, es) && IsTimelyRun(cfg, es, a, delay)
        ensures Ids(Run(cfg, es).ledger, OVERWRITTEN) == {}
      {
        NothingIsAccepted(cfg, es, a, delay);
      }
    } else {
      PromptSurroundings(cfg, a, delay);
    }
  }

  lemma PromptSurroundings(cfg: Config, a: Assumptions, delay: Time)
    requires a.prompt && 0.0 <= delay
    ensures NeverOverwrites(cfg, a, delay) <==> a.statesAgree && a.shownIdle && LeaseCovers(cfg, delay)
  {
    hide Run, IsRun, IsTimelyRun, Ids, LeaseCovers, LosesMission;
    if !a.statesAgree {
      var es := ContradictionOverwrites(cfg, a, delay);
      LosingIsOverwriting(cfg, es, a, delay);
    } else if !a.shownIdle {
      var es := ErrorDuringDispatchOverwrites(cfg, a, delay);
      LosingIsOverwriting(cfg, es, a, delay);
    } else if !LeaseCovers(cfg, delay) {
      var es := ShortLeasesOverwrite(cfg, a, delay);
      LosingIsOverwriting(cfg, es, a, delay);
    } else {
      assert a == ALL;
      forall es | IsRun(cfg, es) && IsTimelyRun(cfg, es, a, delay)
        ensures Ids(Run(cfg, es).ledger, OVERWRITTEN) == {}
      {
        NothingIsOverwritten(cfg, es, delay);
      }
    }
  }

  /** Under all three assumptions it is the parameters that decide. */
  lemma LeasesDecide(cfg: Config, delay: Time)
    ensures NeverOverwrites(cfg, ALL, delay) <==> delay < 0.0 || LeaseCovers(cfg, delay)
  {
    hide NeverOverwrites, LeaseCovers;
    AssumptionsDecide(cfg, ALL, delay);
  }

  /** The parameter defaults lose missions even if every acceptance arrives at once. */
  lemma DefaultsOverwrite() returns (es: seq<Event>)
    ensures !LeaseCovers(DEFAULTS, 0.0)
    ensures |es| == 9 && IsRun(DEFAULTS, es) && IsTimelyRun(DEFAULTS, es, ALL, 0.0)
    ensures Ids(Run(DEFAULTS, es).ledger, OVERWRITTEN) != {}
  {
    hide Run, IsRun, IsTimelyRun, Ids;
    es := ShortLeasesOverwrite(DEFAULTS, ALL, 0.0);
  }
}
