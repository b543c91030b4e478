/** The dispatch slot, the choice of mission and robot, and the published queue. */
module SchedulerDispatch {
  import opened Common
  import opened MissionQueue
  import opened FleetState
  import opened MissionIds
  import opened SchedulerNode
  import opened SchedulerSystem
  import opened SchedulerInvariant

  /* The slot. */

  /**
   The slot is taken exactly while one unanswered request carries the current generation; every other
   unanswered request is stale, and its answer, whatever it says and whenever it comes, changes nothing.
   */
  lemma SlotIsExact(cfg: Config, es: seq<Event>)
    requires IsRun(cfg, es)
    ensures
      var s := Run(cfg, es);
      && (s.node.dispatchInProgress <==> exists d :: IsLive(s, d))
      && (forall d, e :: d in s.outstanding && e in s.outstanding && d.generation == e.generation ==> d == e)
      && (forall d :: IsLive(s, d) ==> s.node.dispatchRobot == d.robotId)
      && (forall d, reply, at :: d in s.outstanding && !IsLive(s, d) ==> Answered(s.node, d, reply, at) == s.node)
  {
    InvariantHolds(cfg, es);
  }

  /** A tick during a dispatch changes anything if and only if the dispatch has lasted for the dispatch timeout. */
  lemma TimeoutIff(cfg: Config, n: Node, now: Time, serviceReady: bool)
    requires n.systemReady && n.dispatchInProgress
    ensures Ticked(cfg, n, now, serviceReady).0 != n <==> now - n.dispatchStartedAt >= cfg.dispatchTimeout
    ensures Ticked(cfg, n, now, serviceReady).1.Some? ==> now - n.dispatchStartedAt >= cfg.dispatchTimeout
  {
    hide Eligible, IsBest;
  }

  /**
   A timer tick of a ready system at or past the dispatch timeout takes the slot from the request that held
   it: that request is stale from then on, and its robot is unreserved or has just been reserved anew.
   The robot's lease is dropped only if the robot's id is not the empty text.
   */
  lemma TimeoutFreesSlot(cfg: Config, n: Node, now: Time, serviceReady: bool)
    requires n.systemReady && n.dispatchInProgress && now - n.dispatchStartedAt >= cfg.dispatchTimeout
    requires n.reserved == n.reservedAt.Keys
    ensures
      var n2 := Ticked(cfg, n, now, serviceReady).0;
      && n2.generation > n.generation
      && (n2.dispatchInProgress ==> n2.dispatchStartedAt == now)
      && (n.dispatchRobot != "" && n.dispatchRobot in n2.reserved ==>
            n2.dispatchInProgress && n2.dispatchRobot == n.dispatchRobot && n2.reservedAt[n.dispatchRobot] == now)
      && (n.dispatchRobot in n2.reserved <==>
            || (n.dispatchRobot == "" && n.dispatchRobot in n.reserved)
            || (n2.dispatchInProgress && n2.dispatchRobot == n.dispatchRobot))
      && (n2.dispatchInProgress ==> serviceReady)
  {
  }

  const NAMELESS: RobotState := RobotState("", true, false, STATE_IDLE, 50.0, true)

  lemma ExtendRun(cfg: Config, es: seq<Event>, e: Event)
    requires IsRun(cfg, es) && Enabled(Run(cfg, es), e)
    ensures IsRun(cfg, es + [e]) && Run(cfg, es + [e]) == Step(cfg, Run(cfg, es), e)
  {
    assert (es + [e])[..|es|] == es;
    hide Step, Enabled;
  }

  lemma BootIsRun(cfg: Config)
    ensures IsRun(cfg, []) && Run(cfg, []) == BOOT
  {
  }

  lemma PatrolIsQueued(cfg: Config, s: System, at: Time)
    ensures
      var s2 := Step(cfg, s, Event(at, PatrolRequest));
      && s2.node.queue != [] && s2.now == at && s2.outstanding == s.outstanding
      && s2.node == s.node.(queue := s2.node.queue, nextSequence := s2.node.nextSequence,
                            missionCounter := s2.node.missionCounter, published := s2.node.published)
  {
    hide StableSort, Snapshot, LedgerAfter;
  }

  lemma NamelessIsSeen(s: System, at: Time)
    requires s.node.active == map[] && s.node.reservedAt == map[]
    ensures
      var s2 := Step(DEFAULTS, s, Event(at, FleetSnapshot([NAMELESS], [])));
      && s2.now == at && s2.outstanding == s.outstanding
      && s2.node == s.node.(latest := [NAMELESS], receivedFleetState := true)
  {
    hide LedgerAfter;
  }

  lemma NamelessIsPicked(s: System, at: Time)
    requires s.node.systemReady && !s.node.dispatchInProgress && s.node.queue != []
    requires s.node.latest == [NAMELESS] && s.node.receivedFleetState && s.node.reserved == {}
    ensures Step(DEFAULTS, s, Event(at, Timer(true))).node == Send(s.node, "", at)
    ensures Step(DEFAULTS, s, Event(at, Timer(true))).now == at
  {
    hide LedgerAfter;
    assert SelectRobot(DEFAULTS, s.node.latest, s.node.reserved) == Some(0);
  }

  lemma NamelessDispatch() returns (es: seq<Event>)
    ensures IsRun(DEFAULTS, es)
    ensures
      var s := Run(DEFAULTS, es);
      && s.now == 0.0 && s.node.systemReady && s.node.dispatchInProgress
      && s.node.dispatchRobot == "" && s.node.dispatchStartedAt == 0.0 && "" in s.node.reserved
  {
    hide Run, IsRun, Step, Snapshot, LedgerAfter;
    es := [];
    BootIsRun(DEFAULTS);
    ReadyStep(DEFAULTS, BOOT, 0.0);
    ExtendRun(DEFAULTS, es, Event(0.0, SystemReady(true)));
    es := es + [Event(0.0, SystemReady(true))];
    PatrolIsQueued(DEFAULTS, Run(DEFAULTS, es), 0.0);
    ExtendRun(DEFAULTS, es, Event(0.0, PatrolRequest));
    es := es + [Event(0.0, PatrolRequest)];
    NamelessIsSeen(Run(DEFAULTS, es), 0.0);
    ExtendRun(DEFAULTS, es, Event(0.0, FleetSnapshot([NAMELESS], [])));
    es := es + [Event(0.0, FleetSnapshot([NAMELESS], []))];
    NamelessIsPicked(Run(DEFAULTS, es), 0.0);
    ExtendRun(DEFAULTS, es, Event(0.0, Timer(true)));
    es := es + [Event(0.0, Timer(true))];
  }

  lemma ReadyStep(cfg: Config, s: System, at: Time)
    ensures
      var s2 := Step(cfg, s, Event(at, SystemReady(true)));
      s2.node == s.node.(systemReady := true) && s2.now == at
  {
  }

  /** The exception is real: a robot that reports under the empty id stays reserved past the timeout. */
  lemma NamelessRobotStaysReserved() returns (es: seq<Event>, t: Event)
    ensures IsRun(DEFAULTS, es + [t]) && t.what.Timer?
    ensures
      var n := Run(DEFAULTS, es).node;
      && n.systemReady && n.dispatchInProgress && t.at - n.dispatchStartedAt >= DEFAULTS.dispatchTimeout
      && n.dispatchRobot == "" && n.dispatchRobot in Run(DEFAULTS, es + [t]).node.reserved
  {
    es := NamelessDispatch();
    t := Event(15.0, Timer(false));
    ExtendRun(DEFAULTS, es, t);
    hide Run, IsRun, LedgerAfter;
  }

  /* The choice. */

  /** The leases in force when the timer picks a robot. */
  function LeasesAtDispatch(n: Node): set<string> {
    if n.dispatchInProgress then Reclaim(n).reserved else n.reserved
  }

  /** The line offers a robot: online, localised, idle or failed, with enough charge. */
  predicate Offers(cfg: Config, line: RobotState) {
    && line.online && !line.confirmedOffline && line.localizationOk
    && (line.state == STATE_IDLE || line.state == STATE_ERROR)
    && line.battery >= cfg.minimumBattery
  }

  /** The robot of the outstanding dispatch, unless its id is the empty text. */
  predicate IsGivenUp(n: Node, r: string) {
    n.dispatchInProgress && r == n.dispatchRobot && r != ""
  }

  /** The robot holds no lease when the timer picks: none at all, or only that of the dispatch being given up. */
  predicate IsUnreserved(n: Node, r: string) {
    r !in n.reserved || IsGivenUp(n, r)
  }

  /** Line `i` of the latest snapshot offers a robot that may be sent a mission. */
  predicate IsFree(cfg: Config, n: Node, i: nat)
    requires i < |n.latest|
  {
    Offers(cfg, n.latest[i]) && IsUnreserved(n, n.latest[i].robotId)
  }

  lemma FreeIsEligible(cfg: Config, n: Node)
    ensures forall i: nat :: i < |n.latest| ==>
      (IsFree(cfg, n, i) <==> Eligible(cfg, n.latest[i], LeasesAtDispatch(n)))
  {
  }

  /**
   Every dispatch pairs the pending mission of highest priority, the oldest of these, with the first robot of
   maximal battery among the free ones in the latest snapshot.
   */
  lemma DispatchIsBest(cfg: Config, es: seq<Event>, e: Event)
    requires IsRun(cfg, es) && Enabled(Run(cfg, es), e) && e.what.Timer?
    requires Ticked(cfg, Run(cfg, es).node, e.at, e.what.serviceReady).1.Some?
    ensures
      var n := Run(cfg, es).node;
      var d := Ticked(cfg, n, e.at, e.what.serviceReady).1.value;
      && d.mission in n.queue
      && (forall m :: m in n.queue && m != d.mission ==>
            m.priority < d.mission.priority
            || (m.priority == d.mission.priority && d.mission.sequence < m.sequence))
      && (exists i: nat ::
            && i < |n.latest| && n.latest[i].robotId == d.robotId && IsFree(cfg, n, i)
            && (forall j: nat :: j < |n.latest| && IsFree(cfg, n, j) ==> n.latest[j].battery <= n.latest[i].battery)
            && (forall j: nat :: j < i && IsFree(cfg, n, j) ==> n.latest[j].battery < n.latest[i].battery))
  {
    hide Run, IsRun;
    InvariantHolds(cfg, es);
    var n := Run(cfg, es).node;
    var d := Ticked(cfg, n, e.at, e.what.serviceReady).1.value;
    BestIsFree(cfg, n, e.at, e.what.serviceReady);
    forall m | m in n.queue && m != d.mission ensures Before(d.mission, m) {
      var k :| 0 <= k < |n.queue| && n.queue[k] == m;
      assert Before(n.queue[0], n.queue[k]);
    }
  }

  lemma BestIsFree(cfg: Config, n: Node, now: Time, serviceReady: bool)
    requires Ticked(cfg, n, now, serviceReady).1.Some?
    ensures exists i: nat ::
      && i < |n.latest| && n.latest[i].robotId == Ticked(cfg, n, now, serviceReady).1.value.robotId
      && IsFree(cfg, n, i)
      && (forall j: nat :: j < |n.latest| && IsFree(cfg, n, j) ==> n.latest[j].battery <= n.latest[i].battery)
      && (forall j: nat :: j < i && IsFree(cfg, n, j) ==> n.latest[j].battery < n.latest[i].battery)
  {
    var i := SelectRobot(cfg, n.latest, LeasesAtDispatch(n)).value;
    FreeIsEligible(cfg, n);
    hide IsFree, Eligible;
  }

  /**
   A tick sends a request if and only if the system and the service are ready, no dispatch is outstanding that has not
   reached the timeout, a mission is pending, and the latest snapshot offers a free robot.
   */
  lemma DispatchHappensIff(cfg: Config, n: Node, now: Time, serviceReady: bool)
    ensures Ticked(cfg, n, now, serviceReady).1.Some? <==>
      && n.systemReady && serviceReady
      && (n.dispatchInProgress ==> now - n.dispatchStartedAt >= cfg.dispatchTimeout)
      && n.queue != [] && n.receivedFleetState
      && exists i: nat :: i < |n.latest| && IsFree(cfg, n, i)
  {
    var pick := SelectRobot(cfg, n.latest, LeasesAtDispatch(n));
    FreeIsEligible(cfg, n);
    hide IsFree, Eligible;
    if pick.Some? {
      assert Eligible(cfg, n.latest[pick.value], LeasesAtDispatch(n));
    }
  }

  /**
   What a tick does to the slot and the leases. A request takes the slot and a lease from now on and carries the next
   generation; giving up a dispatch uses up a generation of its own. Nothing else changes.
   */
  lemma TickMeans(cfg: Config, n: Node, now: Time, serviceReady: bool)
    ensures
      var (n2, sent) := Ticked(cfg, n, now, serviceReady);
      && n2 == n.(dispatchInProgress := n2.dispatchInProgress, dispatchStartedAt := n2.dispatchStartedAt,
                  dispatchRobot := n2.dispatchRobot, generation := n2.generation,
                  reserved := n2.reserved, reservedAt := n2.reservedAt)
      && match sent
         case Some(d) =>
           && n.queue != [] && d.mission == n.queue[0]
           && d.generation == n2.generation == n.generation + (if n.dispatchInProgress then 2 else 1)
           && n2.dispatchInProgress && n2.dispatchStartedAt == now && n2.dispatchRobot == d.robotId
           && (forall r :: r in n2.reserved <==> r == d.robotId || (r in n.reserved && !IsGivenUp(n, r)))
           && (forall r :: r in n2.reservedAt <==> r == d.robotId || (r in n.reservedAt && !IsGivenUp(n, r)))
           && (forall r :: r in n2.reservedAt ==>
                 n2.reservedAt[r] == if r == d.robotId then now else n.reservedAt[r])
         case None =>
           if n.systemReady && n.dispatchInProgress && now - n.dispatchStartedAt >= cfg.dispatchTimeout
           then
             && n2.generation == n.generation + 1 && !n2.dispatchInProgress
             && (forall r :: r in n2.reserved <==> r in n.reserved && !IsGivenUp(n, r))
             && (forall r :: r in n2.reservedAt <==> r in n.reservedAt && !IsGivenUp(n, r))
             && (forall r :: r in n2.reservedAt ==> n2.reservedAt[r] == n.reservedAt[r])
           else n2 == n
  {
    hide Eligible, IsBest;
  }

  /**
   Any answer other than an acceptance of a live request frees its robot and the slot and touches neither the queue
   nor the active missions.
   */
  lemma RefusalMeans(n: Node, d: Dispatch, reply: Reply, now: Time)
    requires d.generation == n.generation && reply != Accepted
    ensures
      var n2 := Answered(n, d, reply, now);
      && n2 == n.(dispatchInProgress := false, reserved := n2.reserved, reservedAt := n2.reservedAt,
                  published := n2.published)
      && d.robotId !in n2.reserved && d.robotId !in n2.reservedAt
      && (forall r :: r != d.robotId ==> (r in n2.reserved <==> r in n.reserved))
      && (forall r :: r != d.robotId ==> (r in n2.reservedAt <==> r in n.reservedAt))
      && (forall r :: r in n2.reservedAt ==> n2.reservedAt[r] == n.reservedAt[r])
      && |n2.published| == |n.published| + 1
  {
    hide Snapshot;
  }

  /**
   The acceptance of a live request makes its robot run exactly the requested mission, as requested and not yet seen
   at work, takes that id and no other off the queue, keeps every lease and frees the slot.
   */
  lemma AcceptanceMeans(n: Node, d: Dispatch, now: Time)
    requires d.generation == n.generation
    ensures
      var n2, m := Answered(n, d, Accepted, now), d.mission;
      && n2 == n.(dispatchInProgress := false, queue := n2.queue, active := n2.active, published := n2.published)
      && (forall r :: r in n2.active <==> r in n.active || r == d.robotId)
      && (forall r :: r in n.active && r != d.robotId ==> n2.active[r] == n.active[r])
      && n2.active[d.robotId]
           == ActiveMission(m.id, m.kind, m.priority, m.target, m.hasTarget, false, now, m.attempts)
      && (forall x :: multiset(n2.queue)[x] == if x.id == m.id then 0 else multiset(n.queue)[x])
      && |n2.published| == |n.published| + 1
  {
    hide Snapshot;
    WithoutKeepsOthers(n.queue, d.mission.id);
  }

  lemma {:induction false} WithoutKeepsOthers(q: seq<Mission>, id: nat)
    ensures forall x :: multiset(Without(q, id))[x] == if x.id == id then 0 else multiset(q)[x]
  {
    if q != [] {
      WithoutKeepsOthers(q[1..], id);
      assert q == [q[0]] + q[1..];
    }
  }

  /** The answer to a stale request changes nothing. */
  lemma StaleAnswerMeans(n: Node, d: Dispatch, reply: Reply, now: Time)
    requires d.generation != n.generation
    ensures Answered(n, d, reply, now) == n
  {
  }

  /* The published queue. */

  /** The last message on the queue-state topic describes the queue as it is. */
  ghost predicate IsCurrent(n: Node) {
    n.published != [] && n.published[|n.published| - 1] == Snapshot(n.queue)
  }

  lemma SnapshotKeepsCurrent(cfg: Config, n: Node, robots: seq<RobotState>, now: Time, walk: seq<string>)
    requires IsCurrent(n)
    ensures
      var n2 := Snapshotted(cfg, n, robots, now, walk);
      IsCurrent(n2) && n.published <= n2.published
  {
    RequeueAllShape(cfg, Settled(cfg, n, robots, now), Failures(cfg, n.active, robots, now, walk));
    hide Failures, Survivors, KeptLeases, Snapshot;
  }

  lemma PublishingIsCurrent(n: Node)
    ensures IsCurrent(Publish(n)) && n.published <= Publish(n).published
  {
  }

  lemma AnswerKeepsCurrent(n: Node, d: Dispatch, reply: Reply, now: Time)
    requires IsCurrent(n)
    ensures IsCurrent(Answered(n, d, reply, now)) && n.published <= Answered(n, d, reply, now).published
  {
    hide Snapshot, Without;
  }

  lemma SubmittedIsCurrent(n: Node, kind: string, priority: int, target: Pose, hasTarget: bool)
    requires IsCurrent(n)
    ensures
      var n2 := Submitted(n, kind, priority, target, hasTarget);
      IsCurrent(n2) && n.published <= n2.published
  {
    hide StableSort, Snapshot;
    PublishingIsCurrent(Enqueue(n, kind, priority, target, hasTarget, 0));
  }

  lemma CancelledIsCurrent(n: Node, text: string)
    requires IsCurrent(n)
    ensures IsCurrent(Cancelled(n, text)) && n.published <= Cancelled(n, text).published
  {
    hide FindMission, Snapshot;
  }

  lemma StepKeepsCurrent(cfg: Config, n: Node, e: Event)
    requires IsCurrent(n)
    ensures IsCurrent(NodeAfter(cfg, n, e)) && n.published <= NodeAfter(cfg, n, e).published
  {
    hide Ticked, Snapshotted, Answered, Snapshot, Submitted, Cancelled;
    match e.what {
      case FleetSnapshot(robots, walk) => SnapshotKeepsCurrent(cfg, n, robots, e.at, walk);
      case Timer(serviceReady) => TickShape(cfg, n, e.at, serviceReady);
      case Answer(d, reply) => AnswerKeepsCurrent(n, d, reply, e.at);
      case SystemReady(_) =>
      case Submit(kind, priority, target, hasTarget) => SubmittedIsCurrent(n, kind, priority, target, hasTarget);
      case RecurringPatrol => SubmittedIsCurrent(n, "patrol", cfg.recurringPriority, NO_TARGET, false);
      case PatrolRequest => SubmittedIsCurrent(n, "patrol", 0, NO_TARGET, false);
      case Cancel(text) => CancelledIsCurrent(n, text);
    }
  }

  /**
   After every callback of every run the last published message equals the current queue, and two queues that
   publish the same message have the same ids, types and priorities in the same order.
   */
  lemma {:induction false} PublishedIsCurrent(cfg: Config, es: seq<Event>)
    ensures IsCurrent(Run(cfg, es).node)
  {
    if es != [] {
      PublishedIsCurrent(cfg, es[..|es| - 1]);
      StepKeepsCurrent(cfg, Run(cfg, es[..|es| - 1]).node, es[|es| - 1]);
    }
  }

  lemma SnapshotsTellQueuesApart(q: seq<Mission>, r: seq<Mission>)
    requires Snapshot(q) == Snapshot(r)
    ensures |q| == |r|
    ensures forall i :: 0 <= i < |q| ==> q[i].id == r[i].id && q[i].kind == r[i].kind && q[i].priority == r[i].priority
  {
    forall i | 0 <= i < |q|
      ensures q[i].id == r[i].id && q[i].kind == r[i].kind && q[i].priority == r[i].priority
    {
      assert Snapshot(q).ids[i] == IdText(q[i].id) && Snapshot(r).ids[i] == IdText(r[i].id);
      assert Snapshot(q).kinds[i] == q[i].kind && Snapshot(r).kinds[i] == r[i].kind;
      assert Snapshot(q).priorities[i] == q[i].priority && Snapshot(r).priorities[i] == r[i].priority;
      IdTextIsInjective(q[i].id, r[i].id);
    }
  }
}
