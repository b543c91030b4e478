/** All robots of the supervisor together: a check visits them in turn and offers one value for publication. */
module SupervisorFleet {
  import opened Common
  import opened SupervisorRobot
  import opened SupervisorRuns
  import opened SupervisorInvariant
  import opened SupervisorGuarantees
  import opened ReadyStream

  /** The robots after a check has visited `ids`, and whether it found all of them ready. */
  function Visited(cfg: Config, robots: map<string, Robot>, ids: seq<string>, observed: seq<Inputs>, now: Time)
    : (map<string, Robot>, bool)
    requires |ids| == |observed|
  {
    if ids == [] then (robots, true)
    else
      var k := |ids| - 1;
      var (before, ready) := Visited(cfg, robots, ids[..k], observed[..k], now);
      if ids[k] !in before then (before, false)
      else
        var r := Checked(cfg, before[ids[k]], observed[k], now).0;
        (before[ids[k] := r], ready && InputsReady(before[ids[k]], observed[k]) && r.confirmedActive)
  }

  /** The polls that the visits start, by robot and number. */
  function PollsStarted(cfg: Config, robots: map<string, Robot>, ids: seq<string>, observed: seq<Inputs>, now: Time)
    : seq<(string, nat)>
    requires |ids| == |observed|
  {
    if ids == [] then []
    else
      var k := |ids| - 1;
      var before := Visited(cfg, robots, ids[..k], observed[..k], now).0;
      var started := PollsStarted(cfg, robots, ids[..k], observed[..k], now);
      if ids[k] !in before then started
      else
        var (r, polled) := Checked(cfg, before[ids[k]], observed[k], now);
        if polled then started + [(ids[k], r.pollGeneration)] else started
  }

  lemma VisitNone(cfg: Config, robots: map<string, Robot>, now: Time)
    ensures Visited(cfg, robots, [], [], now) == (robots, true) && PollsStarted(cfg, robots, [], [], now) == []
  {
  }

  /** One more visit, seen from the front. */
  lemma VisitOneMore(
    cfg: Config, robots: map<string, Robot>, ids: seq<string>, observed: seq<Inputs>, now: Time, k: nat)
    requires |ids| == |observed| && k < |ids|
    ensures
      var (before, ready) := Visited(cfg, robots, ids[..k], observed[..k], now);
      var started := PollsStarted(cfg, robots, ids[..k], observed[..k], now);
      var (after, ready2) := Visited(cfg, robots, ids[..k + 1], observed[..k + 1], now);
      var started2 := PollsStarted(cfg, robots, ids[..k + 1], observed[..k + 1], now);
      if ids[k] !in before then after == before && !ready2 && started2 == started
      else
        var (r, polled) := Checked(cfg, before[ids[k]], observed[k], now);
        && after == before[ids[k] := r]
        && ready2 == (ready && InputsReady(before[ids[k]], observed[k]) && r.confirmedActive)
        && started2 == if polled then started + [(ids[k], r.pollGeneration)] else started
  {
    hide Checked, InputsReady;
    assert ids[..k + 1][..k] == ids[..k] && observed[..k + 1][..k] == observed[..k];
  }

  /** A visit leaves alone what the readiness of a robot depends on. */
  lemma {:induction false} VisitedFrame(
    cfg: Config, robots: map<string, Robot>, ids: seq<string>, observed: seq<Inputs>, now: Time, id: string)
    requires |ids| == |observed|
    ensures
      var after := Visited(cfg, robots, ids, observed, now).0;
      && (id in after <==> id in robots)
      && (id in robots ==>
            && after[id].mapReceived == robots[id].mapReceived
            && after[id].confirmedActive == robots[id].confirmedActive
            && (id !in ids ==> after[id] == robots[id]))
  {
    if ids != [] {
      var k := |ids| - 1;
      VisitedFrame(cfg, robots, ids[..k], observed[..k], now, id);
      var before := Visited(cfg, robots, ids[..k], observed[..k], now).0;
      if ids[k] in before {
        CheckedShape(cfg, before[ids[k]], observed[k], now);
        CheckedKeepsMap(cfg, before[ids[k]], observed[k], now);
      }
      hide Checked;
    }
  }

  lemma CheckedKeepsMap(cfg: Config, r: Robot, i: Inputs, now: Time)
    ensures Checked(cfg, r, i, now).0.mapReceived == r.mapReceived
  {
  }

  predicate RobotReady(robots: map<string, Robot>, id: string, i: Inputs) {
    && id in robots && robots[id].mapReceived && i.tf && i.lifecycle
    && robots[id].confirmedActive
  }

  /** The order of the visits does not matter: the value says that each visit would have found its robot ready. */
  lemma {:induction false} ValueIff(
    cfg: Config, robots: map<string, Robot>, ids: seq<string>, observed: seq<Inputs>, now: Time)
    requires |ids| == |observed|
    ensures Visited(cfg, robots, ids, observed, now).1 <==>
            forall k :: 0 <= k < |ids| ==> RobotReady(robots, ids[k], observed[k])
  {
    if ids != [] {
      var k := |ids| - 1;
      var pre, seen := ids[..k], observed[..k];
      ValueIff(cfg, robots, pre, seen, now);
      VisitedFrame(cfg, robots, pre, seen, now, ids[k]);
      VisitedFrame(cfg, robots, ids, observed, now, ids[k]);
      hide Checked;
      assert (forall j :: 0 <= j < |ids| ==> RobotReady(robots, ids[j], observed[j])) <==>
             RobotReady(robots, ids[k], observed[k])
             && forall j :: 0 <= j < |pre| ==> RobotReady(robots, pre[j], seen[j]);
    }
  }

  /** With distinct ids, a check treats each robot by itself. */
  lemma {:induction false} EachRobotByItself(
    cfg: Config, robots: map<string, Robot>, ids: seq<string>, observed: seq<Inputs>, now: Time, k: nat)
    requires |ids| == |observed| && Distinct(ids) && k < |ids| && ids[k] in robots
    ensures ids[k] in Visited(cfg, robots, ids, observed, now).0
    ensures Visited(cfg, robots, ids, observed, now).0[ids[k]] == Checked(cfg, robots[ids[k]], observed[k], now).0
  {
    var n := |ids| - 1;
    hide Checked;
    VisitedFrame(cfg, robots, ids[..n], observed[..n], now, ids[k]);
    if k < n {
      EachRobotByItself(cfg, robots, ids[..n], observed[..n], now, k);
    }
  }

  /* Runs of the whole supervisor. */

  datatype FleetEvent =
    | Tick(at: Time, observed: seq<Inputs>)
    | One(id: string, event: Event)

  /** Each robot with its polls, commands and logs; and the values offered for publication. */
  datatype Fleet = Fleet(systems: map<string, System>, values: seq<bool>, now: Time)

  function RobotsOf(systems: map<string, System>): map<string, Robot> {
    map id | id in systems :: systems[id].robot
  }

  function VisitedSystems(
    cfg: Config, systems: map<string, System>, ids: seq<string>, observed: seq<Inputs>, now: Time)
    : map<string, System>
    requires |ids| == |observed|
  {
    if ids == [] then systems
    else
      var k := |ids| - 1;
      var before := VisitedSystems(cfg, systems, ids[..k], observed[..k], now);
      if ids[k] in before then before[ids[k] := AfterCheck(cfg, before[ids[k]], now, observed[k])] else before
  }

  function Boot(ids: seq<string>): Fleet {
    Fleet(map id | id in ids :: BOOT, [false], 0.0)
  }

  predicate FleetEnabled(ids: seq<string>, f: Fleet, e: FleetEvent) {
    match e
    case Tick(at, observed) => f.now <= at && |observed| == |ids|
    case One(id, event) =>
      f.now <= event.at && id in f.systems && !event.what.Check? && Enabled(f.systems[id], event)
  }

  function FleetStep(cfg: Config, ids: seq<string>, f: Fleet, e: FleetEvent): Fleet
    requires FleetEnabled(ids, f, e)
  {
    match e
    case Tick(at, observed) =>
      if at <= 0.0 then Fleet(f.systems, f.values + [false], at)
      else
        Fleet(VisitedSystems(cfg, f.systems, ids, observed, at),
              f.values + [Visited(cfg, RobotsOf(f.systems), ids, observed, at).1], at)
    case One(id, event) => Fleet(f.systems[id := Step(cfg, f.systems[id], event)], f.values, event.at)
  }

  function FleetRun(cfg: Config, ids: seq<string>, es: seq<FleetEvent>): Option<Fleet> {
    if es == [] then Some(Boot(ids))
    else match FleetRun(cfg, ids, es[..|es| - 1])
      case None => None
      case Some(f) =>
        if FleetEnabled(ids, f, es[|es| - 1]) then Some(FleetStep(cfg, ids, f, es[|es| - 1])) else None
  }

  /** At a positive clock the robots' fields change as a visit says, whatever polls and logs are kept beside them. */
  lemma {:induction false} SystemsFollowRobots(
    cfg: Config, systems: map<string, System>, ids: seq<string>, observed: seq<Inputs>, now: Time)
    requires |ids| == |observed| && now > 0.0
    ensures RobotsOf(VisitedSystems(cfg, systems, ids, observed, now)) ==
            Visited(cfg, RobotsOf(systems), ids, observed, now).0
  {
    if ids != [] {
      var k := |ids| - 1;
      SystemsFollowRobots(cfg, systems, ids[..k], observed[..k], now);
      hide Checked;
    }
  }

  /**
   The polls of a robot after a check are those it had, and fresh ones under exactly the numbers that the check says
   it has started; these are numbers that no poll of the robot has had before.
   */
  lemma {:induction false} SystemsOpenPolls(
    cfg: Config, systems: map<string, System>, ids: seq<string>, observed: seq<Inputs>, now: Time, id: string, g: nat)
    requires |ids| == |observed| && now > 0.0
    ensures
      var after := VisitedSystems(cfg, systems, ids, observed, now);
      var started := (id, g) in PollsStarted(cfg, RobotsOf(systems), ids, observed, now);
      && (id in after <==> id in systems)
      && (id in systems ==>
            && (g in after[id].polls <==> g in systems[id].polls || started)
            && (started ==> after[id].polls[g] == NEW_POLL && systems[id].robot.pollGeneration < g)
            && (g in systems[id].polls && !started ==> after[id].polls[g] == systems[id].polls[g])
            && systems[id].robot.pollGeneration <= after[id].robot.pollGeneration)
      && (started ==> id in systems)
  {
    if ids != [] {
      var k := |ids| - 1;
      SystemsOpenPolls(cfg, systems, ids[..k], observed[..k], now, id, g);
      SystemsFollowRobots(cfg, systems, ids[..k], observed[..k], now);
      var before := VisitedSystems(cfg, systems, ids[..k], observed[..k], now);
      if ids[k] in before {
        CheckedShape(cfg, before[ids[k]].robot, observed[k], now);
        assert RobotsOf(before)[ids[k]] == before[ids[k]].robot;
      }
      hide Checked;
    }
  }

  /** In a run, then, each poll that a check starts is a new one. */
  lemma StartedPollsAreNew(cfg: Config, ids: seq<string>, es: seq<FleetEvent>, e: FleetEvent, id: string, g: nat)
    requires FleetRun(cfg, ids, es).Some? && FleetEnabled(ids, FleetRun(cfg, ids, es).value, e)
    requires e.Tick? && e.at > 0.0
    requires (id, g) in PollsStarted(cfg, RobotsOf(FleetRun(cfg, ids, es).value.systems), ids, e.observed, e.at)
    ensures
      var before := FleetRun(cfg, ids, es).value.systems;
      var after := FleetStep(cfg, ids, FleetRun(cfg, ids, es).value, e).systems;
      && id in before && g !in before[id].polls
      && id in after && g in after[id].polls && after[id].polls[g] == NEW_POLL
  {
    var f := FleetRun(cfg, ids, es).value;
    FleetReached(cfg, ids, es);
    hide FleetRun, VisitedSystems, Visited, PollsStarted, Run;
    SystemsOpenPolls(cfg, f.systems, ids, e.observed, e.at, id, g);
    var own :| Run(cfg, own) == Some(f.systems[id]);
    InvariantHolds(cfg, own);
  }

  /** What is known of a robot in a run of the whole supervisor: it is in a state that a run of its own reaches. */
  ghost predicate Reached(cfg: Config, systems: map<string, System>, now: Time) {
    forall id :: id in systems ==> systems[id].now <= now && exists es :: Run(cfg, es) == Some(systems[id])
  }

  lemma StepReached(cfg: Config, s: System, e: Event)
    requires (exists es :: Run(cfg, es) == Some(s)) && Enabled(s, e)
    ensures exists es :: Run(cfg, es) == Some(Step(cfg, s, e))
  {
    var es :| Run(cfg, es) == Some(s);
    hide Step, Enabled;
    assert (es + [e])[..|es + [e]| - 1] == es;
    assert Run(cfg, es + [e]) == Some(Step(cfg, s, e));
  }

  lemma {:induction false} VisitsReached(
    cfg: Config, systems: map<string, System>, ids: seq<string>, observed: seq<Inputs>, now: Time)
    requires |ids| == |observed| && Reached(cfg, systems, now)
    ensures Reached(cfg, VisitedSystems(cfg, systems, ids, observed, now), now)
    ensures VisitedSystems(cfg, systems, ids, observed, now).Keys == systems.Keys
  {
    if ids != [] {
      var k := |ids| - 1;
      VisitsReached(cfg, systems, ids[..k], observed[..k], now);
      var before := VisitedSystems(cfg, systems, ids[..k], observed[..k], now);
      hide Run, Checked;
      if ids[k] in before {
        StepReached(cfg, before[ids[k]], Event(now, Check(observed[k])));
      }
    }
  }

  lemma {:induction false} FleetReached(cfg: Config, ids: seq<string>, es: seq<FleetEvent>)
    requires FleetRun(cfg, ids, es).Some?
    ensures
      var f := FleetRun(cfg, ids, es).value;
      && Reached(cfg, f.systems, f.now)
      && (forall id :: id in f.systems <==> id in ids)
      && f.values != [] && f.values[0] == false
  {
    if es == [] {
      assert Run(cfg, []) == Some(BOOT);
    } else {
      var pre, e := es[..|es| - 1], es[|es| - 1];
      FleetReached(cfg, ids, pre);
      var f := FleetRun(cfg, ids, pre).value;
      hide Run, Visited, VisitedSystems;
      match e {
        case Tick(at, observed) =>
          if at > 0.0 {
            VisitsReached(cfg, f.systems, ids, observed, at);
          }
        case One(id, event) =>
          StepReached(cfg, f.systems[id], event);
      }
    }
  }

  /** A robot is ready: its inputs are there, and in the last poll that finished all six nodes were active. */
  predicate TrulyReady(s: System, i: Inputs) {
    && s.robot.mapReceived && i.tf && i.lifecycle
    && s.finished != [] && EveryNodeIsActive(s.finished[|s.finished| - 1])
  }

  /** The value that a check offers for publication, in any run: the clock is positive and every robot truly ready. */
  lemma ReadyMeans(cfg: Config, ids: seq<string>, es: seq<FleetEvent>, e: FleetEvent)
    requires FleetRun(cfg, ids, es).Some? && FleetEnabled(ids, FleetRun(cfg, ids, es).value, e) && e.Tick?
    ensures
      var f := FleetRun(cfg, ids, es).value;
      && FleetStep(cfg, ids, f, e).values ==
           f.values + [e.at > 0.0 && forall k :: 0 <= k < |ids| ==>
                         ids[k] in f.systems && TrulyReady(f.systems[ids[k]], e.observed[k])]
  {
    hide FleetRun, Run, Visited, VisitedSystems, EveryNodeIsActive;
    var f := FleetRun(cfg, ids, es).value;
    FleetReached(cfg, ids, es);
    ValueIff(cfg, RobotsOf(f.systems), ids, e.observed, e.at);
    forall k | 0 <= k < |ids|
      ensures RobotReady(RobotsOf(f.systems), ids[k], e.observed[k]) <==>
              ids[k] in f.systems && TrulyReady(f.systems[ids[k]], e.observed[k])
    {
      if ids[k] in f.systems {
        var own :| Run(cfg, own) == Some(f.systems[ids[k]]);
        ConfirmedIff(cfg, own);
      }
    }
  }

  /**
   The messages of a run start with `false`, alternate, and end with the value offered last: with `ReadyMeans`,
   /system/ready always shows whether the last check found every robot truly ready.
   */
  lemma StreamOfARun(cfg: Config, ids: seq<string>, es: seq<FleetEvent>)
    requires FleetRun(cfg, ids, es).Some?
    ensures
      var values := FleetRun(cfg, ids, es).value.values;
      var out := Published(values);
      && out != [] && out[0] == false && Alternates(out) && out[|out| - 1] == values[|values| - 1]
  {
    FleetReached(cfg, ids, es);
    hide FleetRun, Reached, Published;
    var values := FleetRun(cfg, ids, es).value.values;
    FirstIsPublished(values);
    var at := PublishedShrinks(values);
  }
}
