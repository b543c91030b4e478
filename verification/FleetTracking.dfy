/**
 How the fleet manager tracks one robot: heartbeats, the ticks of the publish timer, offline episodes and the
 automatic e-stop latch. Histories are lists of what happened to that robot's record.
 */
module FleetTracking {
  import opened Common
  import opened FleetState

  datatype FleetConfig = FleetConfig(heartbeatTimeout: Time, offlineGrace: Time, autoEstopAfter: Time)

  /** One robot's record. `offlineSince` is 0 while the robot is online. */
  datatype RobotRecord = RobotRecord(
    robotId: string, receivedHeartbeat: bool, state: nat, battery: real, localizationOk: bool,
    lastHeartbeat: Time, offlineSince: Time, autoEstopped: bool)

  /** The part of a heartbeat that is recorded. */
  datatype Heartbeat = Heartbeat(state: nat, battery: real, localizationOk: bool)

  function NewRecord(robotId: string): RobotRecord {
    RobotRecord(robotId, false, STATE_UNKNOWN, 0.0, true, 0.0, 0.0, false)
  }

  function Beaten(r: RobotRecord, h: Heartbeat, now: Time): RobotRecord {
    r.(receivedHeartbeat := true, state := h.state, battery := h.battery,
       localizationOk := h.localizationOk, lastHeartbeat := now)
  }

  /* One tick of the publish timer. */

  predicate IsOnline(cfg: FleetConfig, r: RobotRecord, now: Time) {
    r.receivedHeartbeat && now - r.lastHeartbeat <= cfg.heartbeatTimeout
  }

  function SinceAfter(cfg: FleetConfig, r: RobotRecord, now: Time): Time {
    if IsOnline(cfg, r, now) then 0.0 else if r.offlineSince <= 0.0 then now else r.offlineSince
  }

  function OfflineSeconds(cfg: FleetConfig, r: RobotRecord, now: Time): Time {
    if IsOnline(cfg, r, now) then 0.0 else now - SinceAfter(cfg, r, now)
  }

  predicate Estops(cfg: FleetConfig, r: RobotRecord, now: Time) {
    && !IsOnline(cfg, r, now)
    && cfg.autoEstopAfter > 0.0
    && OfflineSeconds(cfg, r, now) >= cfg.autoEstopAfter
    && !r.autoEstopped
  }

  function TickRecord(cfg: FleetConfig, r: RobotRecord, now: Time): RobotRecord {
    r.(offlineSince := SinceAfter(cfg, r, now),
       autoEstopped := !IsOnline(cfg, r, now) && (r.autoEstopped || Estops(cfg, r, now)))
  }

  /** The robot's line in the published fleet state. */
  function Line(cfg: FleetConfig, r: RobotRecord, now: Time): RobotState {
    RobotState(
      r.robotId, IsOnline(cfg, r, now),
      !IsOnline(cfg, r, now) && OfflineSeconds(cfg, r, now) >= cfg.offlineGrace,
      r.state, r.battery, r.localizationOk)
  }

  /** A robot listed twice is ticked twice at the same time: the second tick changes and reports nothing new. */
  lemma TickTwice(cfg: FleetConfig, r: RobotRecord, now: Time)
    ensures
      var r2 := TickRecord(cfg, r, now);
      && TickRecord(cfg, r2, now) == r2
      && Line(cfg, r2, now) == Line(cfg, r, now)
      && !Estops(cfg, r2, now)
  {
  }

  /* Histories. */

  datatype RobotEvent =
    | Beat(heartbeat: Heartbeat, at: Time)
    | Tick(at: Time)
    | Release

  function RecordAfter(cfg: FleetConfig, r: RobotRecord, e: RobotEvent): RobotRecord {
    match e
    case Beat(h, at) => Beaten(r, h, at)
    case Tick(at) => TickRecord(cfg, r, at)
    case Release => r.(autoEstopped := false)
  }

  function RecordOf(cfg: FleetConfig, robotId: string, es: seq<RobotEvent>): RobotRecord {
    if es == [] then NewRecord(robotId)
    else RecordAfter(cfg, RecordOf(cfg, robotId, es[..|es| - 1]), es[|es| - 1])
  }

  /** When the last heartbeat of the history arrived. */
  function LastBeat(es: seq<RobotEvent>): Option<Time> {
    if es == [] then None
    else if es[|es| - 1].Beat? then Some(es[|es| - 1].at)
    else LastBeat(es[..|es| - 1])
  }

  /** Event `k` is a tick that found no heartbeat within the timeout. */
  predicate OfflineTick(cfg: FleetConfig, es: seq<RobotEvent>, k: nat)
    requires k < |es|
  {
    && es[k].Tick?
    && match LastBeat(es[..k])
       case None => true
       case Some(at) => es[k].at - at > cfg.heartbeatTimeout
  }

  predicate OnlineTick(cfg: FleetConfig, es: seq<RobotEvent>, k: nat)
    requires k < |es|
  {
    es[k].Tick? && !OfflineTick(cfg, es, k)
  }

  /** The times of the ticks in the unbroken run of offline ticks that the history ends with. */
  function OfflineRun(cfg: FleetConfig, es: seq<RobotEvent>): seq<Time> {
    if es == [] then []
    else
      var pre, e := es[..|es| - 1], es[|es| - 1];
      if !e.Tick? then OfflineRun(cfg, pre)
      else if OfflineTick(cfg, es, |es| - 1) then OfflineRun(cfg, pre) + [e.at]
      else []
  }

  /** The first positive time of a run, or the latest time if the clock has not started. */
  function Anchor(run: seq<Time>): Time
    requires run != []
  {
    if |run| == 1 || Anchor(run[..|run| - 1]) <= 0.0 then run[|run| - 1] else Anchor(run[..|run| - 1])
  }

  lemma {:induction false} PositiveAnchor(run: seq<Time>)
    requires run != [] && run[0] > 0.0
    ensures Anchor(run) == run[0]
  {
    if |run| > 1 {
      PositiveAnchor(run[..|run| - 1]);
    }
  }

  lemma {:induction false} BeatsAreRecorded(cfg: FleetConfig, robotId: string, es: seq<RobotEvent>)
    ensures
      var r := RecordOf(cfg, robotId, es);
      && r.robotId == robotId
      && (r.receivedHeartbeat <==> LastBeat(es).Some?)
      && (LastBeat(es).Some? ==> r.lastHeartbeat == LastBeat(es).value)
  {
    if es != [] {
      BeatsAreRecorded(cfg, robotId, es[..|es| - 1]);
    }
  }

  lemma TickFindsOffline(cfg: FleetConfig, robotId: string, es: seq<RobotEvent>, k: nat)
    requires k < |es| && es[k].Tick?
    ensures OfflineTick(cfg, es, k) <==> !IsOnline(cfg, RecordOf(cfg, robotId, es[..k]), es[k].at)
  {
    BeatsAreRecorded(cfg, robotId, es[..k]);
  }

  lemma AnchorOneMore(run: seq<Time>, at: Time)
    ensures Anchor(run + [at]) == if run == [] || Anchor(run) <= 0.0 then at else Anchor(run)
  {
    assert (run + [at])[..|run|] == run;
  }

  /** `offlineSince` always tells where the current offline episode began, and is 0 outside one. */
  lemma {:induction false} OfflineSinceIsAnchor(cfg: FleetConfig, robotId: string, es: seq<RobotEvent>)
    ensures
      var run := OfflineRun(cfg, es);
      RecordOf(cfg, robotId, es).offlineSince == if run == [] then 0.0 else Anchor(run)
  {
    if es != [] {
      var pre, e := es[..|es| - 1], es[|es| - 1];
      OfflineSinceIsAnchor(cfg, robotId, pre);
      if e.Tick? {
        TickFindsOffline(cfg, robotId, es, |pre|);
        AnchorOneMore(OfflineRun(cfg, pre), e.at);
      }
      hide OfflineTick, IsOnline, Anchor;
    }
  }

  /** The line published by the last event, a tick. */
  function LastLine(cfg: FleetConfig, robotId: string, es: seq<RobotEvent>): RobotState
    requires es != [] && es[|es| - 1].Tick?
  {
    Line(cfg, RecordOf(cfg, robotId, es[..|es| - 1]), es[|es| - 1].at)
  }

  /**
   At every tick: the robot is reported online exactly if a heartbeat is recent enough, and confirmed offline
   exactly if the current run of offline ticks has lasted at least the grace period.
   */
  lemma ConfirmedOfflineIff(cfg: FleetConfig, robotId: string, es: seq<RobotEvent>)
    requires es != [] && es[|es| - 1].Tick?
    ensures
      var run, now := OfflineRun(cfg, es), es[|es| - 1].at;
      && (LastLine(cfg, robotId, es).online <==> run == [])
      && (LastLine(cfg, robotId, es).confirmedOffline <==> run != [] && now - Anchor(run) >= cfg.offlineGrace)
      && (run != [] && run[0] > 0.0 ==> Anchor(run) == run[0])
  {
    var k := |es| - 1;
    TickFindsOffline(cfg, robotId, es, k);
    OfflineSinceIsAnchor(cfg, robotId, es);
    var run := OfflineRun(cfg, es);
    if run != [] && run[0] > 0.0 {
      PositiveAnchor(run);
    }
  }

  /** What the last heartbeat of the history reported; before any, that the state is unknown. */
  function LastReading(es: seq<RobotEvent>): Heartbeat {
    if es == [] then Heartbeat(0, 0.0, true)
    else if es[|es| - 1].Beat? then es[|es| - 1].heartbeat
    else LastReading(es[..|es| - 1])
  }

  lemma {:induction false} ReadingsAreRecorded(cfg: FleetConfig, robotId: string, es: seq<RobotEvent>)
    ensures
      var r := RecordOf(cfg, robotId, es);
      Heartbeat(r.state, r.battery, r.localizationOk) == LastReading(es)
  {
    if es != [] {
      ReadingsAreRecorded(cfg, robotId, es[..|es| - 1]);
    }
  }

  /** Every line shows the robot's own id and the state, battery and localisation of its last heartbeat. */
  lemma LineShowsLastBeat(cfg: FleetConfig, robotId: string, es: seq<RobotEvent>)
    requires es != [] && es[|es| - 1].Tick?
    ensures
      var line := LastLine(cfg, robotId, es);
      && line.robotId == robotId
      && line.state == LastReading(es).state && line.battery == LastReading(es).battery
      && line.localizationOk == LastReading(es).localizationOk
  {
    BeatsAreRecorded(cfg, robotId, es[..|es| - 1]);
    ReadingsAreRecorded(cfg, robotId, es[..|es| - 1]);
  }

  /* What confirmed offline means for the ticks. */

  /** All ticks from event `i` to event `k` are offline ticks. */
  predicate SilentSpan(cfg: FleetConfig, es: seq<RobotEvent>, i: nat, k: nat)
    requires i <= k < |es|
  {
    && es[i].Tick?
    && forall j :: i <= j <= k && es[j].Tick? ==> OfflineTick(cfg, es, j)
  }

  lemma {:induction false} AnchorIsATick(cfg: FleetConfig, es: seq<RobotEvent>) returns (i: nat)
    requires OfflineRun(cfg, es) != []
    ensures i < |es| && SilentSpan(cfg, es, i, |es| - 1) && es[i].at == Anchor(OfflineRun(cfg, es))
  {
    var k := |es| - 1;
    var pre, run := es[..k], OfflineRun(cfg, es);
    assert forall j :: 0 <= j < k && es[j].Tick? ==> (OfflineTick(cfg, es, j) <==> OfflineTick(cfg, pre, j)) by {
      assert forall j :: 0 <= j < k ==> pre[..j] == es[..j];
    }
    if es[k].Tick? {
      assert run[..|run| - 1] == OfflineRun(cfg, pre);
      if |run| == 1 || Anchor(run[..|run| - 1]) <= 0.0 {
        i := k;
      } else {
        i := AnchorIsATick(cfg, pre);
      }
    } else {
      i := AnchorIsATick(cfg, pre);
    }
  }

  /** A robot reported confirmed offline was offline at every tick of a span of at least the grace period. */
  lemma ConfirmedOfflineMeansSilence(cfg: FleetConfig, robotId: string, es: seq<RobotEvent>) returns (i: nat)
    requires es != [] && es[|es| - 1].Tick? && LastLine(cfg, robotId, es).confirmedOffline
    ensures i < |es| && SilentSpan(cfg, es, i, |es| - 1)
    ensures es[|es| - 1].at - es[i].at >= cfg.offlineGrace
  {
    ConfirmedOfflineIff(cfg, robotId, es);
    i := AnchorIsATick(cfg, es);
  }

  /* The automatic e-stop. */

  predicate EstopAt(cfg: FleetConfig, robotId: string, es: seq<RobotEvent>, k: nat)
    requires k < |es|
  {
    es[k].Tick? && Estops(cfg, RecordOf(cfg, robotId, es[..k]), es[k].at)
  }

  /** Event `k` ends the latch: an operator's release, or a tick that finds the robot online. */
  predicate Clears(cfg: FleetConfig, es: seq<RobotEvent>, k: nat)
    requires k < |es|
  {
    es[k].Release? || OnlineTick(cfg, es, k)
  }

  /** The automatic e-stop of event `i` has not been cleared since. */
  predicate Latched(cfg: FleetConfig, robotId: string, es: seq<RobotEvent>, i: nat)
    requires i < |es|
  {
    EstopAt(cfg, robotId, es, i) && forall j :: i < j < |es| ==> !Clears(cfg, es, j)
  }

  lemma LatchedOneMore(cfg: FleetConfig, robotId: string, es: seq<RobotEvent>, i: nat)
    requires i < |es| - 1
    ensures Latched(cfg, robotId, es, i) <==>
      Latched(cfg, robotId, es[..|es| - 1], i) && !Clears(cfg, es, |es| - 1)
  {
    var pre := es[..|es| - 1];
    forall j | 0 <= j < |pre| ensures pre[..j] == es[..j] && pre[j] == es[j] {
    }
    assert forall j :: 0 <= j < |pre| ==> (Clears(cfg, es, j) <==> Clears(cfg, pre, j));
  }

  /** The latch is set exactly if some automatic e-stop has not been cleared since. */
  lemma {:induction false} LatchIsExact(cfg: FleetConfig, robotId: string, es: seq<RobotEvent>)
    ensures RecordOf(cfg, robotId, es).autoEstopped <==> exists i :: 0 <= i < |es| && Latched(cfg, robotId, es, i)
  {
    if es != [] {
      var k := |es| - 1;
      var pre := es[..k];
      LatchIsExact(cfg, robotId, pre);
      if es[k].Tick? {
        TickFindsOffline(cfg, robotId, es, k);
      }
      assert Latched(cfg, robotId, es, k) <==> EstopAt(cfg, robotId, es, k);
      hide OfflineTick, IsOnline, Latched;
      forall i | 0 <= i < k ensures Latched(cfg, robotId, es, i) <==>
        Latched(cfg, robotId, pre, i) && !Clears(cfg, es, k)
      {
        LatchedOneMore(cfg, robotId, es, i);
      }
    }
  }

  /** Between two automatic e-stops of one robot there is an online tick or an operator's release. */
  lemma EstopsAreSeparated(cfg: FleetConfig, robotId: string, es: seq<RobotEvent>, i: nat, j: nat)
    requires i < j < |es| && EstopAt(cfg, robotId, es, i) && EstopAt(cfg, robotId, es, j)
    ensures exists k :: i < k < j && Clears(cfg, es, k)
  {
    var pre := es[..j];
    LatchIsExact(cfg, robotId, pre);
    assert pre[..i] == es[..i];
    assert !Latched(cfg, robotId, pre, i) && EstopAt(cfg, robotId, pre, i);
    var k :| i < k < |pre| && Clears(cfg, pre, k);
    assert pre[..k] == es[..k];
    assert Clears(cfg, es, k);
  }

  /**
   A tick stops the robot if and only if automatic e-stops are on, the current run of offline ticks has lasted for the
   e-stop period, and no earlier e-stop is still in force.
   */
  lemma EstopIff(cfg: FleetConfig, robotId: string, es: seq<RobotEvent>)
    requires es != [] && es[|es| - 1].Tick?
    ensures
      var k, run := |es| - 1, OfflineRun(cfg, es);
      EstopAt(cfg, robotId, es, k) <==>
        && run != [] && cfg.autoEstopAfter > 0.0 && es[k].at - Anchor(run) >= cfg.autoEstopAfter
        && forall i: nat :: i < k ==> !Latched(cfg, robotId, es[..k], i)
  {
    var k := |es| - 1;
    TickFindsOffline(cfg, robotId, es, k);
    OfflineSinceIsAnchor(cfg, robotId, es);
    LatchIsExact(cfg, robotId, es[..k]);
    hide OfflineTick, Latched, Anchor, LastBeat;
  }
}
