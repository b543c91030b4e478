/** When an accepted dispatch can overwrite a robot's active mission, and when it cannot. */
module SchedulerOverwrite {
  import opened Common
  import opened FleetState
  import opened SchedulerNode
  import opened SchedulerSystem
  import opened SchedulerInvariant
  import opened SchedulerConservation
  import opened SchedulerDispatch

  /* A run in which nothing is lost. */

  /** Which of three things are assumed of the surroundings. */
  datatype Assumptions = Assumptions(statesAgree: bool, shownIdle: bool, prompt: bool)

  const ALL: Assumptions := Assumptions(true, true, true)

  /** A snapshot that arrives during a dispatch shows the dispatched robot as idle, or omits it. */
  predicate ShowsDispatchedIdle(n: Node, robots: seq<RobotState>) {
    n.dispatchInProgress ==>
      forall i :: 0 <= i < |robots| && robots[i].robotId == n.dispatchRobot ==> robots[i].state == STATE_IDLE
  }

  /**
   What the surroundings respect in one step, as far as it is assumed: a snapshot never contradicts itself about a
   robot's state, it shows the robot of an outstanding dispatch as idle, and acceptances arrive within `delay`.
   */
  ghost predicate Timely(s: System, e: Event, a: Assumptions, delay: Time) {
    && (a.statesAgree && e.what.FleetSnapshot? ==> StatesAgree(e.what.robots))
    && (a.shownIdle && e.what.FleetSnapshot? ==> ShowsDispatchedIdle(s.node, e.what.robots))
    && (a.prompt && e.what.Answer? && IsLive(s, e.what.dispatch) && e.what.reply == Accepted ==>
          e.at <= s.node.dispatchStartedAt + delay)
  }

  ghost predicate IsTimelyRun(cfg: Config, es: seq<Event>, a: Assumptions, delay: Time) {
    es == []
    || (IsTimelyRun(cfg, es[..|es| - 1], a, delay) && Timely(Run(cfg, es[..|es| - 1]), es[|es| - 1], a, delay))
  }

  /** Leases outlive the wait for an acceptance, and that wait followed by the time a mission has to start. */
  predicate LeaseCovers(cfg: Config, delay: Time) {
    cfg.reservationTimeout >= delay && cfg.reservationTimeout >= cfg.missionStartTimeout + delay
  }

  /** A robot with a mission cannot be picked: it is reserved, or it has started and reports neither IDLE nor ERROR. */
  ghost predicate Guarded(n: Node, r: string, delay: Time)
    requires r in n.active
  {
    if n.active[r].confirmed
    then forall i :: 0 <= i < |n.latest| && n.latest[i].robotId == r ==>
           n.latest[i].state != STATE_IDLE && n.latest[i].state != STATE_ERROR
    else r in n.reservedAt && n.active[r].dispatchedAt <= n.reservedAt[r] + delay
  }

  /** The robot of the outstanding dispatch has no mission, and holds its lease while an acceptance can still come. */
  predicate SlotSafe(n: Node, now: Time, delay: Time) {
    n.dispatchInProgress ==>
      && n.dispatchRobot !in n.active
      && n.dispatchStartedAt <= now
      && ((n.dispatchRobot in n.reservedAt && n.reservedAt[n.dispatchRobot] == n.dispatchStartedAt)
          || now > n.dispatchStartedAt + delay)
  }

  ghost predicate Safe(s: System, delay: Time) {
    && SlotSafe(s.node, s.now, delay)
    && (forall r :: r in s.node.active ==> Guarded(s.node, r, delay))
    && (forall id :: id in s.ledger ==> s.ledger[id].status != Overwritten)
  }

  lemma AnswerOverwritesOnlyActive(cfg: Config, s: System, e: Event, id: nat)
    requires Inv(cfg, s) && Enabled(s, e) && e.what.Answer?
    requires s.node.dispatchInProgress ==> s.node.dispatchRobot !in s.node.active
    requires id in s.ledger && s.ledger[id].status != Overwritten
    ensures id in Step(cfg, s, e).ledger && Step(cfg, s, e).ledger[id].status != Overwritten
  {
    assert e.what.dispatch.generation == s.node.generation ==> IsLive(s, e.what.dispatch);
    hide Lineage, QueueTable, ActiveTable;
  }

  lemma SnapshotNeverOverwrites(cfg: Config, s: System, e: Event, id: nat)
    requires Inv(cfg, s) && Enabled(s, e) && e.what.FleetSnapshot?
    requires id in s.ledger && s.ledger[id].status != Overwritten
    ensures id in Step(cfg, s, e).ledger && Step(cfg, s, e).ledger[id].status != Overwritten
  {
    hide Settle, Settled, ReplaceAll, Failures, Judge, NodeAfter, OutstandingAfter, Tables, Lineage, Slots, Retries;
    SnapshotMoves(cfg, s.node, s.ledger, e.what.robots, e.at, e.what.walk, id);
  }

  lemma OthersNeverOverwrite(cfg: Config, s: System, e: Event, id: nat)
    requires !e.what.FleetSnapshot? && !e.what.Answer? && id in s.ledger && s.ledger[id].status != Overwritten
    ensures id in Step(cfg, s, e).ledger ==> Step(cfg, s, e).ledger[id].status != Overwritten
  {
    hide NodeAfter, OutstandingAfter, FindMission;
  }

  /** Only the acceptance of a dispatch to a robot with a mission overwrites anything. */
  lemma OnlyAcceptOverwrites(cfg: Config, s: System, e: Event)
    requires Inv(cfg, s) && Enabled(s, e)
    requires s.node.dispatchInProgress ==> s.node.dispatchRobot !in s.node.active
    requires forall id :: id in s.ledger ==> s.ledger[id].status != Overwritten
    ensures forall id :: id in Step(cfg, s, e).ledger ==> Step(cfg, s, e).ledger[id].status != Overwritten
  {
    hide *;
    var l2 := Step(cfg, s, e).ledger;
    forall id | id in l2 ensures l2[id].status != Overwritten {
      StatusMoves(cfg, s, e, id);
      if id in s.ledger {
        if e.what.FleetSnapshot? {
          SnapshotNeverOverwrites(cfg, s, e, id);
        } else if e.what.Answer? {
          AnswerOverwritesOnlyActive(cfg, s, e, id);
        } else {
          OthersNeverOverwrite(cfg, s, e, id);
        }
      }
    }
  }

  /** A guarded robot that is not the one whose dispatch timed out is never eligible. */
  lemma GuardedIsNotEligible(cfg: Config, n: Node, r: string, delay: Time, i: nat)
    requires r in n.active && Guarded(n, r, delay) && n.reserved == n.reservedAt.Keys
    requires n.dispatchInProgress ==> r != n.dispatchRobot
    requires i < |n.latest| && n.latest[i].robotId == r
    ensures !Eligible(cfg, n.latest[i], LeasesAtDispatch(n))
  {
  }

  /** The timer ends no lease but that of the request it gives up, and starts none but that of the one it sends. */
  lemma TickLeases(cfg: Config, n: Node, now: Time, serviceReady: bool, r: string)
    requires r in n.reservedAt && (n.dispatchInProgress ==> r != n.dispatchRobot)
    ensures
      var (n2, sent) := Ticked(cfg, n, now, serviceReady);
      (sent.Some? ==> r != sent.value.robotId) ==> r in n2.reservedAt && n2.reservedAt[r] == n.reservedAt[r]
  {
    hide Eligible, IsBest;
  }

  lemma TickSlot(cfg: Config, n: Node, now: Time, serviceReady: bool)
    ensures
      var (n2, sent) := Ticked(cfg, n, now, serviceReady);
      n2.dispatchInProgress ==>
        n2 == n
        || (&& sent.Some? && n2.dispatchRobot == sent.value.robotId && n2.dispatchStartedAt == now
            && n2.dispatchRobot in n2.reservedAt && n2.reservedAt[n2.dispatchRobot] == now)
  {
    hide Eligible, IsBest;
  }

  /** The robot picked by the timer has no mission. */
  lemma PickedIsFree(cfg: Config, n: Node, now: Time, serviceReady: bool, delay: Time)
    requires n.reserved == n.reservedAt.Keys && forall r :: r in n.active ==> Guarded(n, r, delay)
    requires n.dispatchInProgress ==> n.dispatchRobot !in n.active
    ensures
      var sent := Ticked(cfg, n, now, serviceReady).1;
      sent.Some? ==> sent.value.robotId !in n.active
  {
    var sent := Ticked(cfg, n, now, serviceReady).1;
    if sent.Some? {
      var i := SelectRobot(cfg, n.latest, LeasesAtDispatch(n)).value;
      assert n.latest[i].robotId == sent.value.robotId;
      hide Ticked, Guarded, Eligible;
      if sent.value.robotId in n.active {
        GuardedIsNotEligible(cfg, n, sent.value.robotId, delay, i);
        assert false;
      }
    }
  }

  lemma TimerKeepsGuards(cfg: Config, n: Node, now: Time, serviceReady: bool, delay: Time, r: string)
    requires r in n.active && Guarded(n, r, delay)
    requires n.dispatchInProgress ==> n.dispatchRobot !in n.active
    requires
      var sent := Ticked(cfg, n, now, serviceReady).1;
      sent.Some? ==> sent.value.robotId !in n.active
    ensures
      var n2 := Ticked(cfg, n, now, serviceReady).0;
      r in n2.active && Guarded(n2, r, delay)
  {
    hide Ticked;
    TickShape(cfg, n, now, serviceReady);
    if !n.active[r].confirmed {
      TickLeases(cfg, n, now, serviceReady, r);
    }
  }

  lemma TimerStep(cfg: Config, s: System, e: Event)
    requires e.what.Timer?
    ensures Step(cfg, s, e).node == Ticked(cfg, s.node, e.at, e.what.serviceReady).0
    ensures Step(cfg, s, e).ledger == s.ledger && Step(cfg, s, e).now == e.at
  {
  }

  lemma TimerKeepsSafe(cfg: Config, s: System, e: Event, delay: Time)
    requires Inv(cfg, s) && Safe(s, delay) && Enabled(s, e) && e.what.Timer?
    ensures Safe(Step(cfg, s, e), delay)
  {
    hide Inv, Ticked, Guarded, Step;
    var n, n2 := s.node, Step(cfg, s, e).node;
    TimerStep(cfg, s, e);
    KeysAgree(cfg, s);
    PickedIsFree(cfg, n, e.at, e.what.serviceReady, delay);
    TickShape(cfg, n, e.at, e.what.serviceReady);
    TickSlot(cfg, n, e.at, e.what.serviceReady);
    forall r | r in n2.active ensures Guarded(n2, r, delay) {
      TimerKeepsGuards(cfg, n, e.at, e.what.serviceReady, delay, r);
    }
  }

  lemma KeysAgree(cfg: Config, s: System)
    requires Inv(cfg, s)
    ensures s.node.reserved == s.node.reservedAt.Keys
  {
  }

  lemma SnapshotKeepsGuards(
    cfg: Config, n: Node, robots: seq<RobotState>, now: Time, walk: seq<string>, r: string, delay: Time)
    requires LeaseCovers(cfg, delay) && StatesAgree(robots)
    requires r in n.active && Guarded(n, r, delay)
    requires r in Survivors(cfg, n.active, robots, now)
    ensures Guarded(Settled(cfg, n, robots, now), r, delay)
  {
    var a := n.active[r];
    var verdict := Judge(cfg, robots, r, a, now);
    forall i | 0 <= i < |robots| && robots[i].robotId == r
      ensures FirstEntry(robots, r).Some? && FirstEntry(robots, r).value.state == robots[i].state
    {
      FirstStateIsAny(robots, i);
    }
    hide FirstEntry, StatesAgree;
    if verdict == Waiting {
      assert now - n.reservedAt[r] <= cfg.reservationTimeout;
    }
  }

  lemma SnapshotKeepsSlotSafe(cfg: Config, s: System, e: Event, delay: Time)
    requires LeaseCovers(cfg, delay) && Safe(s, delay) && Enabled(s, e) && Timely(s, e, ALL, delay)
    requires e.what.FleetSnapshot? && s.node.dispatchInProgress
    ensures
      var n, kept := s.node, KeptLeases(cfg, s.node.reservedAt, e.what.robots, e.at);
      (n.dispatchRobot in kept && kept[n.dispatchRobot] == n.dispatchStartedAt) || e.at > n.dispatchStartedAt + delay
  {
    var n := s.node;
    if e.at <= n.dispatchStartedAt + delay {
      assert KeepsLease(cfg, e.what.robots, n.dispatchRobot, n.dispatchStartedAt, e.at);
    }
  }

  lemma SnapshotKeepsSafe(cfg: Config, s: System, e: Event, delay: Time)
    requires LeaseCovers(cfg, delay)
    requires Inv(cfg, s) && Safe(s, delay) && Enabled(s, e) && Timely(s, e, ALL, delay) && e.what.FleetSnapshot?
    ensures Safe(Step(cfg, s, e), delay)
  {
    hide Inv, Settle, ReplaceAll, RequeueAll, Failures, Judge, KeptLeases, Snapshotted;
    var robots, walk, n, s2 := e.what.robots, e.what.walk, s.node, Step(cfg, s, e);
    var n1 := Settled(cfg, n, robots, e.at);
    SnapshotShape(cfg, n, robots, e.at, walk);
    if n.dispatchInProgress {
      SnapshotKeepsSlotSafe(cfg, s, e, delay);
    }
    OnlyAcceptOverwrites(cfg, s, e);
    forall r | r in n1.active ensures Guarded(s2.node, r, delay) {
      SnapshotKeepsGuards(cfg, n, robots, e.at, walk, r, delay);
    }
  }

  /** The accepted dispatch takes a robot that has no mission. */
  lemma AcceptKeepsSafe(cfg: Config, s: System, e: Event, delay: Time)
    requires Inv(cfg, s) && Safe(s, delay) && Enabled(s, e) && Timely(s, e, ALL, delay)
    requires e.what.Answer? && IsLive(s, e.what.dispatch) && e.what.reply == Accepted
    ensures Safe(Step(cfg, s, e), delay)
    ensures e.what.dispatch.robotId !in s.node.active
  {
    var d, n2 := e.what.dispatch, Step(cfg, s, e).node;
    assert s.node.dispatchInProgress && s.node.dispatchRobot == d.robotId;
    assert s.node.reservedAt[d.robotId] == s.node.dispatchStartedAt;
    hide Inv;
    forall r | r in n2.active ensures Guarded(n2, r, delay) {
      if r != d.robotId {
        assert Guarded(s.node, r, delay);
      }
    }
  }

  lemma RefusalKeepsSafe(cfg: Config, s: System, e: Event, delay: Time)
    requires Inv(cfg, s) && Safe(s, delay) && Enabled(s, e)
    requires e.what.Answer? && !(IsLive(s, e.what.dispatch) && e.what.reply == Accepted)
    ensures Safe(Step(cfg, s, e), delay)
  {
    var d, n2 := e.what.dispatch, Step(cfg, s, e).node;
    if d.generation == s.node.generation {
      assert IsLive(s, d);
    }
    hide Inv;
    forall r | r in n2.active ensures Guarded(n2, r, delay) {
      assert Guarded(s.node, r, delay);
    }
  }

  lemma OthersKeepSafe(cfg: Config, s: System, e: Event, delay: Time)
    requires Inv(cfg, s) && Safe(s, delay) && Enabled(s, e)
    requires !e.what.FleetSnapshot? && !e.what.Timer? && !e.what.Answer?
    ensures Safe(Step(cfg, s, e), delay)
  {
    var n2 := Step(cfg, s, e).node;
    OnlyAcceptOverwrites(cfg, s, e);
    QueueEventShape(cfg, s.node, e);
    hide Inv, NodeAfter, LedgerAfter;
    forall r | r in n2.active ensures Guarded(n2, r, delay) {
      assert Guarded(s.node, r, delay);
    }
  }

  lemma StepKeepsSafe(cfg: Config, s: System, e: Event, delay: Time)
    requires LeaseCovers(cfg, delay)
    requires Inv(cfg, s) && Safe(s, delay) && Enabled(s, e) && Timely(s, e, ALL, delay)
    ensures Safe(Step(cfg, s, e), delay)
  {
    hide *;
    if e.what.FleetSnapshot? {
      SnapshotKeepsSafe(cfg, s, e, delay);
    } else if e.what.Timer? {
      TimerKeepsSafe(cfg, s, e, delay);
    } else if !e.what.Answer? {
      OthersKeepSafe(cfg, s, e, delay);
    } else if IsLive(s, e.what.dispatch) && e.what.reply == Accepted {
      AcceptKeepsSafe(cfg, s, e, delay);
    } else {
      RefusalKeepsSafe(cfg, s, e, delay);
    }
  }

  /**
   In every timely run whose leases outlive the start timeout, no mission is ever overwritten, and every robot
   with an active mission is guarded against a second one.
   */
  lemma {:induction false} NothingIsOverwritten(cfg: Config, es: seq<Event>, delay: Time)
    requires IsRun(cfg, es) && IsTimelyRun(cfg, es, ALL, delay) && LeaseCovers(cfg, delay)
    ensures Safe(Run(cfg, es), delay)
    ensures Ids(Run(cfg, es).ledger, OVERWRITTEN) == {}
  {
    if es != [] {
      var pre := es[..|es| - 1];
      NothingIsOverwritten(cfg, pre, delay);
      InvariantHolds(cfg, pre);
      StepKeepsSafe(cfg, Run(cfg, pre), es[|es| - 1], delay);
    }
    hide Step;
  }

  /* Surroundings in which no acceptance can be timely. */

  /** No mission has ever become active. */
  ghost predicate Unaccepted(s: System) {
    && s.node.active == map[]
    && (s.node.dispatchInProgress ==> s.node.dispatchStartedAt <= s.now)
    && (forall id :: id in s.ledger ==> s.ledger[id].status != Overwritten)
  }

  lemma AnswerIsUnaccepted(cfg: Config, s: System, e: Event, a: Assumptions, delay: Time)
    requires Slots(s) && Unaccepted(s) && Enabled(s, e) && e.what.Answer?
    requires Timely(s, e, a, delay) && a.prompt && delay < 0.0
    ensures
      var n2 := Step(cfg, s, e).node;
      n2.active == map[] && (n2.dispatchInProgress ==> n2.dispatchStartedAt <= e.at)
  {
    var d := e.what.dispatch;
    assert d.generation == s.node.generation ==> IsLive(s, d) && s.node.dispatchInProgress;
    hide LedgerAfter, OutstandingAfter, Without, Snapshot;
  }

  lemma StepIsUnaccepted(cfg: Config, s: System, e: Event, a: Assumptions, delay: Time)
    requires Inv(cfg, s) && Unaccepted(s) && Enabled(s, e) && Timely(s, e, a, delay) && a.prompt && delay < 0.0
    ensures Unaccepted(Step(cfg, s, e))
  {
    hide Step, Tables, Lineage, Slots, Timely;
    OnlyAcceptOverwrites(cfg, s, e);
    NodeOfStep(cfg, s, e);
    if e.what.FleetSnapshot? {
      hide Snapshotted, KeptLeases;
      SnapshotShape(cfg, s.node, e.what.robots, e.at, e.what.walk);
    } else if e.what.Timer? {
      hide Ticked;
      TickShape(cfg, s.node, e.at, e.what.serviceReady);
      TickSlot(cfg, s.node, e.at, e.what.serviceReady);
    } else if e.what.Answer? {
      AnswerIsUnaccepted(cfg, s, e, a, delay);
    } else {
      hide NodeAfter;
      QueueEventShape(cfg, s.node, e);
    }
  }

  /** If even an immediate acceptance comes too late, nothing ever becomes active, so nothing is overwritten. */
  lemma {:induction false} NothingIsAccepted(cfg: Config, es: seq<Event>, a: Assumptions, delay: Time)
    requires IsRun(cfg, es) && IsTimelyRun(cfg, es, a, delay) && a.prompt && delay < 0.0
    ensures Unaccepted(Run(cfg, es)) && Ids(Run(cfg, es).ledger, OVERWRITTEN) == {}
  {
    if es != [] {
      var pre := es[..|es| - 1];
      NothingIsAccepted(cfg, pre, a, delay);
      InvariantHolds(cfg, pre);
      hide Inv, Step, Ids;
      StepIsUnaccepted(cfg, Run(cfg, pre), es[|es| - 1], a, delay);
    }
    NoneOverwritten(Run(cfg, es).ledger);
  }

  /* Exactly when an acceptance overwrites. */

  /** An acceptance of the live request overwrites a mission if and only if its robot has one at that moment. */
  lemma AcceptOverwritesIff(cfg: Config, s: System, d: Dispatch, at: Time)
    requires Inv(cfg, s) && IsLive(s, d)
    ensures
      var s2 := Step(cfg, s, Event(at, Answer(d, Accepted)));
      d.robotId in s.node.active <==>
        exists id :: && id in s.ledger && id in s2.ledger
                     && s.ledger[id].status != Overwritten && s2.ledger[id].status == Overwritten
  {
    var s2 := Step(cfg, s, Event(at, Answer(d, Accepted)));
    hide Lineage, QueueTable;
    if d.robotId in s.node.active {
      var id := s.node.active[d.robotId].id;
      assert s.ledger[id].status == Active(d.robotId) && s2.ledger[id].status == Overwritten;
    }
  }

  /** The timer never picks a robot that still has an active mission. */
  ghost predicate PicksFreeRobots(cfg: Config, es: seq<Event>) {
    es == []
    || (&& PicksFreeRobots(cfg, es[..|es| - 1])
        && var n, e := Run(cfg, es[..|es| - 1]).node, es[|es| - 1];
           e.what.Timer? ==>
             var sent := Ticked(cfg, n, e.at, e.what.serviceReady).1;
             sent.Some? ==> sent.value.robotId !in n.active)
  }

  lemma SlotRobotStaysFree(cfg: Config, s: System, e: Event)
    requires Inv(cfg, s) && Enabled(s, e)
    requires s.node.dispatchInProgress ==> s.node.dispatchRobot !in s.node.active
    requires e.what.Timer? ==>
      var sent := Ticked(cfg, s.node, e.at, e.what.serviceReady).1;
      sent.Some? ==> sent.value.robotId !in s.node.active
    requires Ids(s.ledger, OVERWRITTEN) == {}
    ensures
      var n2 := Step(cfg, s, e).node;
      n2.dispatchInProgress ==> n2.dispatchRobot !in n2.active
    ensures Ids(Step(cfg, s, e).ledger, OVERWRITTEN) == {}
  {
    hide Step, Inv, Ids;
    NoneOverwritten(s.ledger);
    OnlyAcceptOverwrites(cfg, s, e);
    NoneOverwritten(Step(cfg, s, e).ledger);
    if e.what.FleetSnapshot? {
      SnapshotLeavesSlotFree(cfg, s, e);
    } else if e.what.Timer? {
      TimerStep(cfg, s, e);
      hide Ticked;
      TickShape(cfg, s.node, e.at, e.what.serviceReady);
    } else if e.what.Answer? {
      AnswerFreesSlot(cfg, s, e);
    } else {
      NodeOfStep(cfg, s, e);
      hide NodeAfter;
      QueueEventShape(cfg, s.node, e);
    }
  }

  lemma NoneOverwritten(l: Ledger)
    ensures Ids(l, OVERWRITTEN) == {} <==> forall id :: id in l ==> l[id].status != Overwritten
  {
    assert forall id :: id in Ids(l, OVERWRITTEN) <==> id in l && l[id].status == Overwritten;
  }

  /** A snapshot leaves the slot alone and adds no active mission. */
  lemma SnapshotLeavesSlotFree(cfg: Config, s: System, e: Event)
    requires e.what.FleetSnapshot? && (s.node.dispatchInProgress ==> s.node.dispatchRobot !in s.node.active)
    ensures
      var n2 := Step(cfg, s, e).node;
      n2.dispatchInProgress ==> n2.dispatchRobot !in n2.active
  {
    hide LedgerAfter, OutstandingAfter, Snapshotted, KeptLeases, Judge;
    SnapshotShape(cfg, s.node, e.what.robots, e.at, e.what.walk);
  }

  /** An answer that adds an active mission also frees the slot. */
  lemma AnswerFreesSlot(cfg: Config, s: System, e: Event)
    requires e.what.Answer?
    ensures
      var n2 := Step(cfg, s, e).node;
      n2.dispatchInProgress ==> n2 == s.node
  {
  }

  /**
   With no assumption on clocks, leases or snapshots: if the timer always picks a robot without an active
   mission, nothing is ever overwritten. That check on `active_missions_` is what `select_robot` lacks.
   */
  lemma {:induction false} CheckingActiveRobotsSuffices(cfg: Config, es: seq<Event>)
    requires IsRun(cfg, es) && PicksFreeRobots(cfg, es)
    ensures Ids(Run(cfg, es).ledger, OVERWRITTEN) == {}
    ensures Run(cfg, es).node.dispatchInProgress ==> Run(cfg, es).node.dispatchRobot !in Run(cfg, es).node.active
  {
    if es != [] {
      var pre := es[..|es| - 1];
      CheckingActiveRobotsSuffices(cfg, pre);
      InvariantHolds(cfg, pre);
      SlotRobotStaysFree(cfg, Run(cfg, pre), es[|es| - 1]);
    }
  }
}
