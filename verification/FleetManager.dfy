/** The fleet manager's records, the fleet state it publishes from them, and its e-stop messages. */
module FleetManager {
  import opened Common
  import opened FleetState
  import opened FleetTracking

  type Records = map<string, RobotRecord>

  /** The records after one tick: every listed robot is ticked once, however often it is listed. */
  function TickedRecords(cfg: FleetConfig, robotIds: seq<string>, records: Records, now: Time): Records {
    map id | id in records :: if id in robotIds then TickRecord(cfg, records[id], now) else records[id]
  }

  /** The published lines, in the order of the robot list. */
  function Message(cfg: FleetConfig, robotIds: seq<string>, records: Records, now: Time): seq<RobotState> {
    if robotIds == [] then []
    else
      var k := |robotIds| - 1;
      Message(cfg, robotIds[..k], records, now)
      + if robotIds[k] in records then [Line(cfg, records[robotIds[k]], now)] else []
  }

  /** The robots that the tick stops: each at most once. */
  function Stopped(cfg: FleetConfig, robotIds: seq<string>, records: Records, now: Time): seq<string> {
    if robotIds == [] then []
    else
      var k := |robotIds| - 1;
      Stopped(cfg, robotIds[..k], records, now)
      + if robotIds[k] in records && robotIds[k] !in robotIds[..k] && Estops(cfg, records[robotIds[k]], now)
        then [robotIds[k]] else []
  }

  lemma {:induction false} StoppedAre(cfg: FleetConfig, robotIds: seq<string>, records: Records, now: Time)
    ensures Distinct(Stopped(cfg, robotIds, records, now))
    ensures forall id :: id in Stopped(cfg, robotIds, records, now) <==>
      id in robotIds && id in records && Estops(cfg, records[id], now)
  {
    if robotIds != [] {
      StoppedAre(cfg, robotIds[..|robotIds| - 1], records, now);
    }
  }

  function Released(robotIds: seq<string>, records: Records): Records {
    map id | id in records :: if id in robotIds then records[id].(autoEstopped := false) else records[id]
  }

  /** A message sent on a robot's e-stop topic. */
  datatype Estop = Estop(robotId: string, active: bool)

  function EstopMessages(robotIds: seq<string>, active: bool): seq<Estop> {
    seq(|robotIds|, i requires 0 <= i < |robotIds| => Estop(robotIds[i], active))
  }

  lemma NoRobot(cfg: FleetConfig, before: Records, now: Time)
    ensures TickedRecords(cfg, [], before, now) == before && Message(cfg, [], before, now) == []
    ensures EstopMessages(Stopped(cfg, [], before, now), true) == []
  {
  }

  /** Ticking the next robot of the list in place is what the next longer prefix asks for. */
  lemma OneMoreRobot(cfg: FleetConfig, robotIds: seq<string>, before: Records, now: Time, i: nat)
    requires i < |robotIds|
    ensures
      var id, cur := robotIds[i], TickedRecords(cfg, robotIds[..i], before, now);
      && TickedRecords(cfg, robotIds[..i + 1], before, now) ==
           (if id in cur then cur[id := TickRecord(cfg, cur[id], now)] else cur)
      && Message(cfg, robotIds[..i + 1], before, now) ==
           Message(cfg, robotIds[..i], before, now) + (if id in cur then [Line(cfg, cur[id], now)] else [])
      && EstopMessages(Stopped(cfg, robotIds[..i + 1], before, now), true) ==
           EstopMessages(Stopped(cfg, robotIds[..i], before, now), true)
           + (if id in cur && Estops(cfg, cur[id], now) then [Estop(id, true)] else [])
  {
    assert robotIds[..i + 1] == robotIds[..i] + [robotIds[i]] && robotIds[..i + 1][..i] == robotIds[..i];
    if robotIds[i] in before {
      TickTwice(cfg, before[robotIds[i]], now);
    }
    hide TickRecord, Line, Estops;
  }

  class FleetManagerNode {
    const cfg: FleetConfig
    const robotIds: seq<string>
    var records: Records
    /** The robots that have an e-stop publisher. */
    var estopPublishers: set<string>
    var estopMessages: seq<Estop>

    /** Every listed robot has its publisher. */
    ghost predicate Valid()
      reads this
    {
      forall id :: id in estopPublishers <==> id in robotIds
    }

    constructor (cfg: FleetConfig, robotIds: seq<string>)
      ensures Valid() && this.cfg == cfg && this.robotIds == robotIds && estopMessages == []
      ensures records == map id | id in robotIds :: NewRecord(id)
    {
      this.cfg := cfg;
      this.robotIds := robotIds;
      records := map[];
      estopPublishers, estopMessages := {}, [];
      new;
      ConfigureRobotMonitoring();
      ConfigureSafety();
    }

    method ConfigureRobotMonitoring()
      requires records == map[]
      modifies this`records
      ensures records == map id | id in robotIds :: NewRecord(id)
    {
      var i := 0;
      while i < |robotIds|
        invariant i <= |robotIds|
        invariant records == map id | id in robotIds[..i] :: NewRecord(id)
      {
        if robotIds[i] !in records {
          records := records[robotIds[i] := NewRecord(robotIds[i])];
        }
        assert robotIds[..i + 1] == robotIds[..i] + [robotIds[i]];
        i := i + 1;
      }
      assert robotIds[..i] == robotIds;
    }

    method HeartbeatCallback(robotId: string, heartbeat: Heartbeat, now: Time)
      modifies this`records
      ensures robotId !in old(records) ==> records == old(records)
      ensures robotId in old(records) ==>
        records == old(records)[robotId := Beaten(old(records)[robotId], heartbeat, now)]
    {
      if robotId !in records {
        return;
      }
      records := records[robotId := records[robotId].(
        receivedHeartbeat := true, state := heartbeat.state, battery := heartbeat.battery,
        localizationOk := heartbeat.localizationOk, lastHeartbeat := now)];
    }

    method ConfigureSafety()
      requires estopPublishers == {}
      modifies this`estopPublishers
      ensures Valid()
    {
      var i := 0;
      while i < |robotIds|
        invariant i <= |robotIds|
        invariant forall id :: id in estopPublishers <==> id in robotIds[..i]
      {
        estopPublishers := estopPublishers + {robotIds[i]};
        assert robotIds[..i + 1] == robotIds[..i] + [robotIds[i]];
        i := i + 1;
      }
      assert robotIds[..i] == robotIds;
    }

    /** A robot without a publisher gets no message. */
    method PublishEstop(robotId: string, active: bool)
      modifies this`estopMessages
      ensures robotId in estopPublishers ==> estopMessages == old(estopMessages) + [Estop(robotId, active)]
      ensures robotId !in estopPublishers ==> estopMessages == old(estopMessages)
    {
      if robotId !in estopPublishers {
        return;
      }
      estopMessages := estopMessages + [Estop(robotId, active)];
    }

    /** Updates one robot's record in place and returns its line. */
    method TickRobot(robotId: string, now: Time) returns (line: RobotState)
      requires robotId in records
      modifies this`records, this`estopMessages
      ensures records == old(records)[robotId := TickRecord(cfg, old(records)[robotId], now)]
      ensures line == Line(cfg, old(records)[robotId], now)
      ensures estopMessages == old(estopMessages) +
        if Estops(cfg, old(records)[robotId], now) && robotId in estopPublishers then [Estop(robotId, true)] else []
    {
      var record := records[robotId];
      var online := record.receivedHeartbeat && now - record.lastHeartbeat <= cfg.heartbeatTimeout;
      if online {
        record := record.(offlineSince := 0.0, autoEstopped := false);
      } else if record.offlineSince <= 0.0 {
        record := record.(offlineSince := now);
      }
      var offlineSeconds := if online then 0.0 else now - record.offlineSince;
      var confirmedOffline := !online && offlineSeconds >= cfg.offlineGrace;
      if !online && cfg.autoEstopAfter > 0.0 && offlineSeconds >= cfg.autoEstopAfter && !record.autoEstopped {
        record := record.(autoEstopped := true);
        PublishEstop(robotId, true);
      }
      records := records[robotId := record];
      line := RobotState(
        record.robotId, online, confirmedOffline, record.state, record.battery, record.localizationOk);
    }

    /** Walks the robot list, ticking each robot and collecting its line. */
    method PublishFleetState(now: Time) returns (message: seq<RobotState>)
      requires Valid()
      modifies this`records, this`estopMessages
      ensures records == TickedRecords(cfg, robotIds, old(records), now)
      ensures message == Message(cfg, robotIds, old(records), now)
      ensures estopMessages == old(estopMessages) + EstopMessages(Stopped(cfg, robotIds, old(records), now), true)
    {
      message := [];
      ghost var before := records;
      ghost var stops := [];
      var i := 0;
      hide TickRecord, Line, Estops, TickedRecords, Message, Stopped, EstopMessages;
      NoRobot(cfg, before, now);
      assert robotIds[..0] == [];
      while i < |robotIds|
        invariant i <= |robotIds|
        invariant records == TickedRecords(cfg, robotIds[..i], before, now)
        invariant message == Message(cfg, robotIds[..i], before, now)
        invariant stops == EstopMessages(Stopped(cfg, robotIds[..i], before, now), true)
        invariant estopMessages == old(estopMessages) + stops
      {
        OneMoreRobot(cfg, robotIds, before, now, i);
        if robotIds[i] in records {
          stops := stops + if Estops(cfg, records[robotIds[i]], now) then [Estop(robotIds[i], true)] else [];
          var line := TickRobot(robotIds[i], now);
          message := message + [line];
        }
        i := i + 1;
      }
      assert robotIds[..i] == robotIds;
    }

    method HandleEstopReleaseAll()
      requires Valid()
      modifies this`records, this`estopMessages
      ensures records == Released(robotIds, old(records))
      ensures estopMessages == old(estopMessages) + EstopMessages(robotIds, false)
    {
      ghost var before := records;
      var i := 0;
      assert records == Released(robotIds[..0], before);
      while i < |robotIds|
        invariant i <= |robotIds|
        invariant records == Released(robotIds[..i], before)
        invariant estopMessages == old(estopMessages) + EstopMessages(robotIds[..i], false)
      {
        PublishEstop(robotIds[i], false);
        if robotIds[i] in records {
          records := records[robotIds[i] := records[robotIds[i]].(autoEstopped := false)];
        }
        assert robotIds[..i + 1] == robotIds[..i] + [robotIds[i]];
        i := i + 1;
      }
      assert robotIds[..i] == robotIds;
    }
  }

  /* Runs of the whole fleet, and the history they give each robot. */

  datatype FleetEvent =
    | HeartbeatFrom(robotId: string, heartbeat: Heartbeat, at: Time)
    | PublishTick(at: Time)
    | ReleaseAll

  function RecordsAfter(cfg: FleetConfig, robotIds: seq<string>, records: Records, e: FleetEvent): Records {
    match e
    case HeartbeatFrom(id, h, at) => if id in records then records[id := Beaten(records[id], h, at)] else records
    case PublishTick(at) => TickedRecords(cfg, robotIds, records, at)
    case ReleaseAll => Released(robotIds, records)
  }

  function FleetRun(cfg: FleetConfig, robotIds: seq<string>, fs: seq<FleetEvent>): Records {
    if fs == [] then map id | id in robotIds :: NewRecord(id)
    else RecordsAfter(cfg, robotIds, FleetRun(cfg, robotIds, fs[..|fs| - 1]), fs[|fs| - 1])
  }

  /** What a fleet event is for robot `id`; a heartbeat of another robot is nothing. */
  function EventOf(id: string, e: FleetEvent): seq<RobotEvent> {
    match e
    case HeartbeatFrom(other, h, at) => if other == id then [Beat(h, at)] else []
    case PublishTick(at) => [Tick(at)]
    case ReleaseAll => [Release]
  }

  function History(id: string, fs: seq<FleetEvent>): seq<RobotEvent> {
    if fs == [] then [] else History(id, fs[..|fs| - 1]) + EventOf(id, fs[|fs| - 1])
  }

  lemma RecordsTrackRobots(cfg: FleetConfig, robotIds: seq<string>, fs: seq<FleetEvent>)
    ensures forall id :: id in FleetRun(cfg, robotIds, fs) <==> id in robotIds
  {
    hide TickRecord, Beaten;
  }

  lemma HistoryStep(cfg: FleetConfig, id: string, h: seq<RobotEvent>, e: FleetEvent)
    ensures RecordOf(cfg, id, h + EventOf(id, e)) ==
      if EventOf(id, e) == [] then RecordOf(cfg, id, h)
      else RecordAfter(cfg, RecordOf(cfg, id, h), EventOf(id, e)[0])
  {
    if EventOf(id, e) != [] {
      assert (h + EventOf(id, e))[..|h|] == h;
    } else {
      assert h + EventOf(id, e) == h;
    }
  }

  /** In every run of the fleet, a robot's record depends on that robot's own history only. */
  lemma {:induction false} RecordsFollowHistories(
    cfg: FleetConfig, robotIds: seq<string>, fs: seq<FleetEvent>, id: string)
    requires id in robotIds
    ensures id in FleetRun(cfg, robotIds, fs)
    ensures FleetRun(cfg, robotIds, fs)[id] == RecordOf(cfg, id, History(id, fs))
  {
    hide TickRecord, Beaten, RecordOf;
    if fs == [] {
      NoHistory(cfg, id);
    } else {
      var pre, e := fs[..|fs| - 1], fs[|fs| - 1];
      RecordsFollowHistories(cfg, robotIds, pre, id);
      HistoryStep(cfg, id, History(id, pre), e);
      RecordStep(cfg, robotIds, FleetRun(cfg, robotIds, pre), e, id);
      hide RecordsAfter, RecordAfter, EventOf;
    }
  }

  lemma NoHistory(cfg: FleetConfig, id: string)
    ensures RecordOf(cfg, id, []) == NewRecord(id)
  {
  }

  /** An event of the fleet does to a robot's record what its own part of the event does. */
  lemma RecordStep(cfg: FleetConfig, robotIds: seq<string>, records: Records, e: FleetEvent, id: string)
    requires id in robotIds && id in records
    ensures id in RecordsAfter(cfg, robotIds, records, e)
    ensures RecordsAfter(cfg, robotIds, records, e)[id] ==
      if EventOf(id, e) == [] then records[id] else RecordAfter(cfg, records[id], EventOf(id, e)[0])
  {
    hide TickRecord, Beaten;
  }

  lemma {:induction false} MessageLines(cfg: FleetConfig, robotIds: seq<string>, records: Records, now: Time)
    requires forall id :: id in robotIds ==> id in records
    ensures |Message(cfg, robotIds, records, now)| == |robotIds|
    ensures forall i :: 0 <= i < |robotIds| ==>
      Message(cfg, robotIds, records, now)[i] == Line(cfg, records[robotIds[i]], now)
  {
    if robotIds != [] {
      MessageLines(cfg, robotIds[..|robotIds| - 1], records, now);
    }
  }

  /** In every run, a tick publishes each robot at most once if and only if the robot list has no duplicates. */
  lemma ListsOnceIffDistinct(cfg: FleetConfig, robotIds: seq<string>, fs: seq<FleetEvent>, now: Time)
    ensures ListsRobotsOnce(Message(cfg, robotIds, FleetRun(cfg, robotIds, fs), now)) <==> Distinct(robotIds)
  {
    var records := FleetRun(cfg, robotIds, fs);
    var message := Message(cfg, robotIds, records, now);
    RecordsTrackRobots(cfg, robotIds, fs);
    MessageLines(cfg, robotIds, records, now);
    forall i | 0 <= i < |robotIds| ensures message[i].robotId == robotIds[i] {
      RecordsFollowHistories(cfg, robotIds, fs, robotIds[i]);
      BeatsAreRecorded(cfg, robotIds[i], History(robotIds[i], fs));
    }
    hide Message, FleetRun;
  }

  /**
   In every run, a tick publishes one line for every position of the robot list, in that order, and each is the line
   that the robot's own history, ended by the tick, calls for.
   */
  lemma MessageOfARun(cfg: FleetConfig, robotIds: seq<string>, fs: seq<FleetEvent>, now: Time)
    ensures
      var message := Message(cfg, robotIds, FleetRun(cfg, robotIds, fs), now);
      && |message| == |robotIds|
      && forall i :: 0 <= i < |robotIds| ==>
           message[i] == LastLine(cfg, robotIds[i], History(robotIds[i], fs) + [Tick(now)])
  {
    hide Message, FleetRun, Line, RecordOf;
    var records := FleetRun(cfg, robotIds, fs);
    RecordsTrackRobots(cfg, robotIds, fs);
    MessageLines(cfg, robotIds, records, now);
    forall i | 0 <= i < |robotIds|
      ensures Line(cfg, records[robotIds[i]], now)
              == LastLine(cfg, robotIds[i], History(robotIds[i], fs) + [Tick(now)])
    {
      var h := History(robotIds[i], fs);
      RecordsFollowHistories(cfg, robotIds, fs, robotIds[i]);
      assert (h + [Tick(now)])[..|h|] == h;
    }
  }

  /** In every run, a tick stops exactly the listed robots whose own history, ended by the tick, calls for it. */
  lemma StoppedInARun(cfg: FleetConfig, robotIds: seq<string>, fs: seq<FleetEvent>, now: Time, id: string)
    ensures
      id in Stopped(cfg, robotIds, FleetRun(cfg, robotIds, fs), now) <==>
        id in robotIds && EstopAt(cfg, id, History(id, fs) + [Tick(now)], |History(id, fs)|)
  {
    hide Stopped, FleetRun, Estops, RecordOf;
    var h := History(id, fs);
    StoppedAre(cfg, robotIds, FleetRun(cfg, robotIds, fs), now);
    RecordsTrackRobots(cfg, robotIds, fs);
    assert (h + [Tick(now)])[..|h|] == h;
    if id in robotIds {
      RecordsFollowHistories(cfg, robotIds, fs, id);
    }
  }
}
