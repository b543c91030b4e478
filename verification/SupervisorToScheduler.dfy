/** The supervisor and the scheduler together: nothing is dispatched before every robot has been seen ready. */
module SupervisorToScheduler {
  import opened Common
  import opened ReadyStream
  import opened SupervisorFleet
  import N = SchedulerNode
  import S = SchedulerSystem
  import SchedulerInvariant

  /** Event `k` is the last readiness message that the scheduler got in the run `es`. */
  predicate LastReadiness(es: seq<S.Event>, k: nat) {
    && k < |es| && es[k].what.SystemReady?
    && forall j :: k < j < |es| ==> !es[j].what.SystemReady?
  }

  lemma ReadyIsHeard(cfg: N.Config, n: N.Node, e: S.Event)
    ensures S.NodeAfter(cfg, n, e).systemReady == if e.what.SystemReady? then e.what.ready else n.systemReady
  {
    hide N.Ticked, N.Snapshotted, N.Answered;
    match e.what {
      case FleetSnapshot(robots, walk) => SchedulerInvariant.SnapshotShape(cfg, n, robots, e.at, walk);
      case Timer(serviceReady) => SchedulerInvariant.TickShape(cfg, n, e.at, serviceReady);
      case Answer(d, reply) => AnsweredShape(n, d, reply, e.at);
      case SystemReady(_) =>
      case _ => SchedulerInvariant.QueueEventShape(cfg, n, e);
    }
  }

  lemma AnsweredShape(n: N.Node, d: N.Dispatch, reply: N.Reply, now: Time)
    ensures N.Answered(n, d, reply, now).systemReady == n.systemReady
  {
    hide N.Without, N.Snapshot;
  }

  /** The scheduler believes the system ready exactly if the last readiness message said so. */
  lemma {:induction false} ReadyIff(cfg: N.Config, es: seq<S.Event>)
    requires S.IsRun(cfg, es)
    ensures S.Run(cfg, es).node.systemReady <==> exists k: nat :: LastReadiness(es, k) && es[k].what.ready
  {
    hide S.Step, S.Enabled;
    S.LastStep(cfg, es);
    if es != [] {
      var pre, e := es[..|es| - 1], es[|es| - 1];
      ReadyIff(cfg, pre);
      ReadyIsHeard(cfg, S.Run(cfg, pre).node, e);
      S.NodeOfStep(cfg, S.Run(cfg, pre), e);
      hide S.Run, S.IsRun, S.NodeAfter;
      forall k: nat ensures LastReadiness(es, k) <==>
        if e.what.SystemReady? then k == |pre| else LastReadiness(pre, k)
      {
        LastOneMore(es, k);
      }
      hide LastReadiness;
      if e.what.SystemReady? {
        assert LastReadiness(es, |pre|);
      }
    }
  }

  lemma LastOneMore(es: seq<S.Event>, k: nat)
    requires es != []
    ensures LastReadiness(es, k) <==>
      if es[|es| - 1].what.SystemReady? then k == |es| - 1 else LastReadiness(es[..|es| - 1], k)
  {
    var pre := es[..|es| - 1];
    assert forall j :: 0 <= j < |pre| ==> pre[j] == es[j];
    if k < |pre| {
      assert LastReadiness(es, k) ==> !es[|es| - 1].what.SystemReady?;
    }
  }

  /** Event `j` of the supervisor's run is a check that sends `true` on /system/ready. */
  ghost predicate SendsReady(scfg: SupervisorRobot.Config, ids: seq<string>, fs: seq<FleetEvent>, j: nat) {
    && j < |fs| && fs[j].Tick?
    && FleetRun(scfg, ids, fs[..j]).Some? && FleetEnabled(ids, FleetRun(scfg, ids, fs[..j]).value, fs[j])
    && var before := FleetRun(scfg, ids, fs[..j]).value;
       var after := FleetStep(scfg, ids, before, fs[j]);
       Published(after.values) == Published(before.values) + [true]
  }

  /** Every `true` that the scheduler heard had been sent by some check of the supervisor. */
  ghost predicate ReadinessFrom(
    scfg: SupervisorRobot.Config, ids: seq<string>, fs: seq<FleetEvent>, es: seq<S.Event>)
  {
    forall k :: 0 <= k < |es| && es[k].what.SystemReady? && es[k].what.ready ==>
      exists j: nat :: SendsReady(scfg, ids, fs, j) && fs[j].at <= es[k].at
  }

  /** The check of event `j` found every robot ready, after a poll in which all of its nodes were active. */
  ghost predicate AllReadyAt(scfg: SupervisorRobot.Config, ids: seq<string>, fs: seq<FleetEvent>, j: nat) {
    && j < |fs| && fs[j].Tick? && |fs[j].observed| == |ids| && FleetRun(scfg, ids, fs[..j]).Some?
    && fs[j].at > 0.0
    && forall k :: 0 <= k < |ids| ==>
         var systems := FleetRun(scfg, ids, fs[..j]).value.systems;
         ids[k] in systems && TrulyReady(systems[ids[k]], fs[j].observed[k])
  }

  lemma ReadyIsSentWhenReady(scfg: SupervisorRobot.Config, ids: seq<string>, fs: seq<FleetEvent>, j: nat)
    requires SendsReady(scfg, ids, fs, j)
    ensures AllReadyAt(scfg, ids, fs, j) && j < |fs| && fs[j].Tick?
  {
    hide FleetRun, FleetStep, TrulyReady;
    ReadyMeans(scfg, ids, fs[..j], fs[j]);
    var before := FleetRun(scfg, ids, fs[..j]).value;
    var after := FleetStep(scfg, ids, before, fs[j]);
    FirstIsPublished(after.values);
    assert after.values[|after.values| - 1] == true;
  }

  /**
   Whenever the scheduler sends a mission to a robot, the last readiness message it heard was `true`, and no
   later than that some check of the supervisor had found every robot of the fleet ready.
   */
  lemma DispatchNeedsReadyFleet(
    cfg: N.Config, es: seq<S.Event>, e: S.Event,
    scfg: SupervisorRobot.Config, ids: seq<string>, fs: seq<FleetEvent>)
    returns (k: nat, j: nat)
    requires S.IsRun(cfg, es) && e.what.Timer? && ReadinessFrom(scfg, ids, fs, es)
    requires N.Ticked(cfg, S.Run(cfg, es).node, e.at, e.what.serviceReady).1.Some?
    ensures LastReadiness(es, k) && es[k].what.ready
    ensures AllReadyAt(scfg, ids, fs, j) && j < |fs| && fs[j].Tick? && fs[j].at <= es[k].at
  {
    hide S.Run, S.IsRun, AllReadyAt, FleetRun, FleetStep, Published, N.Dispatched;
    ReadyIff(cfg, es);
    k :| LastReadiness(es, k) && es[k].what.ready;
    j :| SendsReady(scfg, ids, fs, j) && fs[j].at <= es[k].at;
    ReadyIsSentWhenReady(scfg, ids, fs, j);
  }
}
