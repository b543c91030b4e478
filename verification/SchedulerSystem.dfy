/**
 Whole runs of the scheduler: the node, the AssignMission requests still unanswered, and a ledger that
 records what became of every mission id ever issued. The ledger is bookkeeping beside the program; it
 never influences a step.
 */
module SchedulerSystem {
  import opened Common
  import opened MissionQueue
  import opened FleetState
  import opened SchedulerNode

  /** What has become of an id. `Requeued(as)` names the fresh id that replaced a failed one. */
  datatype Status =
    | Pending
    | Active(robotId: string)
    | CancelledByUser
    | Done
    | Dropped
    | Requeued(replacement: nat)
    | Overwritten

  /** `origin` is the id first issued for the submission; `attempts` the failures before this id. */
  datatype Record = Record(origin: nat, attempts: nat, status: Status)

  type Ledger = map<nat, Record>

  datatype What =
    | SystemReady(ready: bool)
    | Submit(kind: string, priority: int, target: Pose, hasTarget: bool)
    | RecurringPatrol
    | PatrolRequest
    | Cancel(text: string)
    | FleetSnapshot(robots: seq<RobotState>, walk: seq<string>)
    | Timer(serviceReady: bool)
    | Answer(dispatch: Dispatch, reply: Reply)

  /** A callback that the executor runs, and the clock reading during it. */
  datatype Event = Event(at: Time, what: What)

  datatype System = System(node: Node, outstanding: set<Dispatch>, ledger: Ledger, now: Time)

  const BOOT: System := System(STARTED, {}, map[], 0.0)

  /* Bookkeeping. */

  function SetStatus(l: Ledger, id: nat, status: Status): Ledger {
    if id in l then l[id := l[id].(status := status)] else l
  }

  function Issue(l: Ledger, n: Node): Ledger {
    l[n.missionCounter + 1 := Record(n.missionCounter + 1, 0, Pending)]
  }

  /** What a snapshot decides about the missions its robots were running. */
  function Settle(cfg: Config, l: Ledger, n: Node, robots: seq<RobotState>, now: Time): Ledger {
    map id | id in l ::
      match l[id].status
      case Active(r) =>
        if r in n.active && n.active[r].id == id then
          match Judge(cfg, robots, r, n.active[r], now)
          case Completed => l[id].(status := Done)
          case Failed => l[id].(status := Dropped)
          case _ => l[id]
        else l[id]
      case _ => l[id]
  }

  function Replace(cfg: Config, l: Ledger, n: Node, a: ActiveMission): Ledger {
    if Retries(cfg, a) && a.id in l
    then SetStatus(l, a.id, Requeued(n.missionCounter + 1))
           [n.missionCounter + 1 := Record(l[a.id].origin, l[a.id].attempts + 1, Pending)]
    else l
  }

  function ReplaceAll(cfg: Config, l: Ledger, n: Node, failed: seq<ActiveMission>): Ledger
    decreases |failed|
  {
    if failed == [] then l
    else ReplaceAll(cfg, Replace(cfg, l, n, failed[0]), Requeue(cfg, n, failed[0]), failed[1..])
  }

  function Accept(l: Ledger, n: Node, d: Dispatch): Ledger {
    var l1 := if d.robotId in n.active then SetStatus(l, n.active[d.robotId].id, Overwritten) else l;
    SetStatus(l1, d.mission.id, Active(d.robotId))
  }

  /* Steps and runs. */

  function NodeAfter(cfg: Config, n: Node, e: Event): Node {
    match e.what
    case SystemReady(ready) => n.(systemReady := ready)
    case Submit(kind, priority, target, hasTarget) => Submitted(n, kind, priority, target, hasTarget)
    case RecurringPatrol => Submitted(n, "patrol", cfg.recurringPriority, NO_TARGET, false)
    case PatrolRequest => Submitted(n, "patrol", 0, NO_TARGET, false)
    case Cancel(text) => Cancelled(n, text)
    case FleetSnapshot(robots, walk) => Snapshotted(cfg, n, robots, e.at, walk)
    case Timer(serviceReady) => Ticked(cfg, n, e.at, serviceReady).0
    case Answer(d, reply) => Answered(n, d, reply, e.at)
  }

  function LedgerAfter(cfg: Config, l: Ledger, n: Node, e: Event): Ledger {
    match e.what
    case SystemReady(_) => l
    case Submit(kind, _, _, _) => if kind in SUPPORTED_KINDS then Issue(l, n) else l
    case RecurringPatrol => Issue(l, n)
    case PatrolRequest => Issue(l, n)
    case Cancel(text) =>
      (match FindMission(n.queue, text)
       case None => l
       case Some(i) => SetStatus(l, n.queue[i].id, CancelledByUser))
    case FleetSnapshot(robots, walk) =>
      ReplaceAll(cfg, Settle(cfg, l, n, robots, e.at), Settled(cfg, n, robots, e.at),
                 Failures(cfg, n.active, robots, e.at, walk))
    case Timer(_) => l
    case Answer(d, reply) =>
      if d.generation == n.generation && reply == Accepted then Accept(l, n, d) else l
  }

  function OutstandingAfter(cfg: Config, s: System, e: Event): set<Dispatch> {
    match e.what
    case Timer(serviceReady) =>
      (match Ticked(cfg, s.node, e.at, serviceReady).1
       case None => s.outstanding
       case Some(d) => s.outstanding + {d})
    case Answer(d, _) => s.outstanding - {d}
    case _ => s.outstanding
  }

  function Step(cfg: Config, s: System, e: Event): System {
    System(
      NodeAfter(cfg, s.node, e), OutstandingAfter(cfg, s, e), LedgerAfter(cfg, s.ledger, s.node, e), e.at)
  }

  lemma NodeOfStep(cfg: Config, s: System, e: Event)
    ensures Step(cfg, s, e).node == NodeAfter(cfg, s.node, e) && Step(cfg, s, e).now == e.at
  {
    hide NodeAfter, LedgerAfter, OutstandingAfter;
  }

  /** An event can happen next: clocks do not run backwards, answers belong to unanswered requests. */
  ghost predicate Enabled(s: System, e: Event) {
    && s.now <= e.at
    && (e.what.FleetSnapshot? ==> Enumerates(e.what.walk, s.node.active.Keys))
    && (e.what.Answer? ==> e.what.dispatch in s.outstanding)
  }

  function Run(cfg: Config, es: seq<Event>): System {
    if es == [] then BOOT else Step(cfg, Run(cfg, es[..|es| - 1]), es[|es| - 1])
  }

  /** Every event was enabled when it happened. */
  ghost predicate IsRun(cfg: Config, es: seq<Event>) {
    es == [] || (IsRun(cfg, es[..|es| - 1]) && Enabled(Run(cfg, es[..|es| - 1]), es[|es| - 1]))
  }

  lemma LastStep(cfg: Config, es: seq<Event>)
    requires IsRun(cfg, es)
    ensures es == [] ==> Run(cfg, es) == BOOT
    ensures es != [] ==>
      var pre, e := es[..|es| - 1], es[|es| - 1];
      IsRun(cfg, pre) && Enabled(Run(cfg, pre), e) && Run(cfg, es) == Step(cfg, Run(cfg, pre), e)
  {
  }

  /** The live request: the one whose answer the node would act on. */
  predicate IsLive(s: System, d: Dispatch) {
    d in s.outstanding && d.generation == s.node.generation
  }
}
