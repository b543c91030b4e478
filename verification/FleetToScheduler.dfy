/** The fleet manager and the scheduler together: a mission that fails for an offline robot failed for a silent one. */
module FleetToScheduler {
  import opened Common
  import opened FleetState
  import opened FleetTracking
  import opened FleetManager
  import opened SchedulerNode
  import opened SchedulerSystem
  import opened SchedulerHistory

  /** The message of the fleet's tick `j`. */
  function TickMessage(fcfg: FleetConfig, robotIds: seq<string>, fs: seq<FleetEvent>, j: nat): seq<RobotState>
    requires j < |fs| && fs[j].PublishTick?
  {
    Message(fcfg, robotIds, FleetRun(fcfg, robotIds, fs[..j]), fs[j].at)
  }

  /** Every snapshot that the scheduler saw was published by some tick of the fleet manager. */
  ghost predicate FedBy(fcfg: FleetConfig, robotIds: seq<string>, fs: seq<FleetEvent>, es: seq<Event>) {
    forall k :: 0 <= k < |es| && es[k].what.FleetSnapshot? ==>
      exists j :: 0 <= j < |fs| && fs[j].PublishTick? && es[k].what.robots == TickMessage(fcfg, robotIds, fs, j)
  }

  /** The robot was offline at every fleet tick of a span, ending with tick `j`, of at least the grace period. */
  ghost predicate SilentUpTo(fcfg: FleetConfig, fs: seq<FleetEvent>, j: nat, r: string) {
    && j < |fs|
    && var h := History(r, fs[..j + 1]);
       exists i :: 0 <= i < |h| && SilentSpan(fcfg, h, i, |h| - 1) && h[|h| - 1].Tick?
                   && h[|h| - 1].at == fs[j].at && fs[j].at - h[i].at >= fcfg.offlineGrace
  }

  lemma {:induction false} FirstLine(
    fcfg: FleetConfig, robotIds: seq<string>, records: Records, now: Time, r: string)
    requires FirstEntry(Message(fcfg, robotIds, records, now), r).Some?
    requires forall id :: id in robotIds ==> id in records && records[id].robotId == id
    ensures r in robotIds
    ensures FirstEntry(Message(fcfg, robotIds, records, now), r).value == Line(fcfg, records[r], now)
  {
    MessageLines(fcfg, robotIds, records, now);
    var message := Message(fcfg, robotIds, records, now);
    var entry := FirstEntry(message, r).value;
    var i :| 0 <= i < |message| && message[i] == entry;
    assert message[i] == Line(fcfg, records[robotIds[i]], now);
  }

  lemma OfflineLineMeansSilence(fcfg: FleetConfig, robotIds: seq<string>, fs: seq<FleetEvent>, j: nat, r: string)
    requires j < |fs| && fs[j].PublishTick?
    requires FirstEntry(TickMessage(fcfg, robotIds, fs, j), r).Some?
    requires FirstEntry(TickMessage(fcfg, robotIds, fs, j), r).value.confirmedOffline
    ensures SilentUpTo(fcfg, fs, j, r)
  {
    hide FleetRun, RecordOf, Message, FirstEntry, Line, SilentSpan;
    var pre, now := fs[..j], fs[j].at;
    var records := FleetRun(fcfg, robotIds, pre);
    RecordsTrackRobots(fcfg, robotIds, pre);
    forall id | id in robotIds ensures records[id].robotId == id {
      RecordsFollowHistories(fcfg, robotIds, pre, id);
      BeatsAreRecorded(fcfg, id, History(id, pre));
    }
    FirstLine(fcfg, robotIds, records, now, r);
    RecordsFollowHistories(fcfg, robotIds, pre, r);
    var h := History(r, fs[..j + 1]);
    assert fs[..j + 1][..j] == pre;
    assert h == History(r, pre) + [Tick(now)];
    assert h[..|h| - 1] == History(r, pre);
    var i := ConfirmedOfflineMeansSilence(fcfg, r, h);
  }

  /**
   End to end: a mission fails only because its robot reported ERROR, or stayed idle past the start timeout
   without ever being seen at work, or was silent at every tick of the fleet manager for the grace period.
   */
  lemma FailureEndToEnd(
    cfg: Config, es: seq<Event>, fcfg: FleetConfig, robotIds: seq<string>, fs: seq<FleetEvent>, id: nat)
    returns (r: string, accepted: nat, verdict: nat)
    requires IsRun(cfg, es) && FedBy(fcfg, robotIds, fs, es)
    requires id in Run(cfg, es).ledger
    requires Run(cfg, es).ledger[id].status.Dropped? || Run(cfg, es).ledger[id].status.Requeued?
    ensures accepted < verdict < |es| && AcceptedAt(cfg, es, accepted, r, id)
    ensures es[verdict].what.FleetSnapshot? && FirstEntry(es[verdict].what.robots, r).Some?
    ensures
      || FirstEntry(es[verdict].what.robots, r).value.state == STATE_ERROR
      || (ShowsIdle(es[verdict], r) && NeverSeenWorking(es, accepted, verdict, r)
          && es[verdict].at - es[accepted].at > cfg.missionStartTimeout)
      || (exists j :: 0 <= j < |fs| && fs[j].PublishTick?
                      && es[verdict].what.robots == TickMessage(fcfg, robotIds, fs, j) && SilentUpTo(fcfg, fs, j, r))
  {
    r, accepted, verdict := FailureIsJustified(cfg, es, id);
    hide Run, IsRun, AcceptedAt, SilentUpTo, TickMessage;
    if FirstEntry(es[verdict].what.robots, r).value.confirmedOffline {
      var j :| 0 <= j < |fs| && fs[j].PublishTick? && es[verdict].what.robots == TickMessage(fcfg, robotIds, fs, j);
      OfflineLineMeansSilence(fcfg, robotIds, fs, j, r);
    }
  }

  /** Whatever the robot list, a published snapshot never contradicts itself: an assumption of timely runs is met. */
  lemma FedSnapshotsAgree(
    fcfg: FleetConfig, robotIds: seq<string>, fs: seq<FleetEvent>, es: seq<Event>, k: nat)
    requires FedBy(fcfg, robotIds, fs, es) && k < |es| && es[k].what.FleetSnapshot?
    ensures StatesAgree(es[k].what.robots)
  {
    var j :| 0 <= j < |fs| && fs[j].PublishTick? && es[k].what.robots == TickMessage(fcfg, robotIds, fs, j);
    var records := FleetRun(fcfg, robotIds, fs[..j]);
    RecordsTrackRobots(fcfg, robotIds, fs[..j]);
    MessageLines(fcfg, robotIds, records, fs[j].at);
    forall i | 0 <= i < |robotIds| ensures es[k].what.robots[i].robotId == robotIds[i] {
      RecordsFollowHistories(fcfg, robotIds, fs[..j], robotIds[i]);
      BeatsAreRecorded(fcfg, robotIds[i], History(robotIds[i], fs[..j]));
    }
    hide FleetRun, Message;
  }

  /** A fleet without duplicate robots lists each robot once in every snapshot that the scheduler sees. */
  lemma FedSnapshotsListOnce(
    fcfg: FleetConfig, robotIds: seq<string>, fs: seq<FleetEvent>, es: seq<Event>, k: nat)
    requires FedBy(fcfg, robotIds, fs, es) && Distinct(robotIds)
    requires k < |es| && es[k].what.FleetSnapshot?
    ensures ListsRobotsOnce(es[k].what.robots)
  {
    var j :| 0 <= j < |fs| && fs[j].PublishTick? && es[k].what.robots == TickMessage(fcfg, robotIds, fs, j);
    ListsOnceIffDistinct(fcfg, robotIds, fs[..j], fs[j].at);
  }
}
