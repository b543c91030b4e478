/** A mission is carried out as it was asked for, however often it fails and is queued again. */
module SchedulerRequests {
  import opened Common
  import opened MissionQueue
  import opened FleetState
  import opened SchedulerNode
  import opened SchedulerSystem
  import opened SchedulerInvariant
  import opened SchedulerConservation
  import opened SchedulerCallbacks

  /** What the sender of a mission asks for. */
  datatype Request = Request(kind: string, priority: int, target: Pose, hasTarget: bool)

  /** What a callback asks for, if it submits a mission of a supported kind. */
  function Asked(cfg: Config, what: What): Option<Request> {
    match what
    case Submit(kind, priority, target, hasTarget) =>
      if kind == "patrol" || kind == "go_to" || kind == "return_home" || kind == "charge" || kind == "inspect"
      then Some(Request(kind, priority, target, hasTarget)) else None
    case RecurringPatrol => Some(Request("patrol", cfg.recurringPriority, Pose("", 0.0, 0.0, 0.0), false))
    case PatrolRequest => Some(Request("patrol", 0, Pose("", 0.0, 0.0, 0.0), false))
    case _ => None
  }

  /** Callback `k` submitted `request`, and the submission got the id `origin`. */
  ghost predicate SubmittedAt(cfg: Config, es: seq<Event>, k: nat, origin: nat, request: Request) {
    && k < |es|
    && Asked(cfg, es[k].what) == Some(request)
    && Run(cfg, es[..k]).node.missionCounter + 1 == origin
  }

  /** Some callback of the run submitted `request` under the id that `id` goes back to. */
  ghost predicate GoesBackTo(cfg: Config, es: seq<Event>, id: nat, request: Request) {
    id in Run(cfg, es).ledger && exists k :: SubmittedAt(cfg, es, k, Run(cfg, es).ledger[id].origin, request)
  }

  /* What was asked for under every id that a submission got. */

  type Book = map<nat, Request>

  function BookAfter(cfg: Config, b: Book, s: System, e: Event): Book {
    match Asked(cfg, e.what)
    case None => b
    case Some(request) => b[s.node.missionCounter + 1 := request]
  }

  function BookOf(cfg: Config, es: seq<Event>): Book {
    if es == [] then map[]
    else BookAfter(cfg, BookOf(cfg, es[..|es| - 1]), Run(cfg, es[..|es| - 1]), es[|es| - 1])
  }

  lemma {:induction false} BookIsHistory(cfg: Config, es: seq<Event>, origin: nat) returns (k: nat)
    requires origin in BookOf(cfg, es)
    ensures SubmittedAt(cfg, es, k, origin, BookOf(cfg, es)[origin])
  {
    hide Asked, Run;
    var pre := es[..|es| - 1];
    if Asked(cfg, es[|es| - 1].what).Some? && Run(cfg, pre).node.missionCounter + 1 == origin {
      k := |pre|;
    } else {
      k := BookIsHistory(cfg, pre, origin);
      assert pre[..k] == es[..k];
    }
  }

  /* The invariant. */

  /** The book has `request` for the submission that `id` belongs to. */
  predicate Carries(l: Ledger, b: Book, id: nat, request: Request) {
    id in l && l[id].origin in b && b[l[id].origin] == request
  }

  predicate QueueCarries(q: seq<Mission>, l: Ledger, b: Book) {
    forall m :: m in q ==> Carries(l, b, m.id, Request(m.kind, m.priority, m.target, m.hasTarget))
  }

  predicate RobotCarries(a: ActiveMission, l: Ledger, b: Book) {
    Carries(l, b, a.id, Request(a.kind, a.priority, a.target, a.hasTarget))
  }

  ghost predicate AllCarry(s: System, b: Book) {
    && QueueCarries(s.node.queue, s.ledger, b)
    && (forall r :: r in s.node.active ==> RobotCarries(s.node.active[r], s.ledger, b))
    && (forall d :: d in s.outstanding ==> QueueCarries([d.mission], s.ledger, b))
    && (forall origin :: origin in b ==> origin <= s.node.missionCounter)
  }

  /** Records keep their submission, and the book its pages. */
  ghost predicate Keeps(l: Ledger, b: Book, l2: Ledger, b2: Book) {
    && (forall id :: id in l ==> id in l2 && SameTry(l[id], l2[id]))
    && (forall origin :: origin in b ==> origin in b2 && b2[origin] == b[origin])
  }

  lemma KeepsQueue(q: seq<Mission>, l: Ledger, b: Book, l2: Ledger, b2: Book)
    requires Keeps(l, b, l2, b2) && QueueCarries(q, l, b)
    ensures QueueCarries(q, l2, b2)
  {
  }

  /** A step that adds nothing to the three tables but what `Carries` already holds of. */
  lemma TablesCarry(s: System, b: Book, s2: System, b2: Book)
    requires AllCarry(s, b) && Keeps(s.ledger, b, s2.ledger, b2)
    requires QueueCarries(s2.node.queue, s2.ledger, b2)
    requires forall r :: r in s2.node.active ==>
      || RobotCarries(s2.node.active[r], s2.ledger, b2)
      || (r in s.node.active && s2.node.active[r] == s.node.active[r].(confirmed := s2.node.active[r].confirmed))
    requires forall d :: d in s2.outstanding ==> d in s.outstanding || d.mission in s.node.queue
    requires forall origin :: origin in b2 ==> origin <= s2.node.missionCounter
    ensures AllCarry(s2, b2)
  {
    forall d | d in s2.outstanding ensures QueueCarries([d.mission], s2.ledger, b2) {
      if d in s.outstanding {
        KeepsQueue([d.mission], s.ledger, b, s2.ledger, b2);
      } else {
        KeepsQueue(s.node.queue, s.ledger, b, s2.ledger, b2);
      }
    }
  }

  lemma StepKeeps(cfg: Config, s: System, b: Book, e: Event)
    requires Inv(cfg, s) && Enabled(s, e) && AllCarry(s, b)
    ensures Keeps(s.ledger, b, Step(cfg, s, e).ledger, BookAfter(cfg, b, s, e))
  {
    hide Step, Inv, Enabled, Asked, MayBecome;
    forall id | id in s.ledger
      ensures id in Step(cfg, s, e).ledger && SameTry(s.ledger[id], Step(cfg, s, e).ledger[id])
    {
      StatusMoves(cfg, s, e, id);
    }
  }

  /* Submissions and cancellations. */

  lemma SubmissionOf(cfg: Config, s: System, e: Event)
    requires e.what.Submit? || e.what.RecurringPatrol? || e.what.PatrolRequest?
    ensures
      var n, s2, asked := s.node, Step(cfg, s, e), Asked(cfg, e.what);
      && s2.outstanding == s.outstanding && s2.node.active == n.active
      && match asked
         case None => s2.node == n && s2.ledger == s.ledger
         case Some(request) =>
           && multiset(s2.node.queue) == multiset(n.queue) + multiset{
                Mission(n.missionCounter + 1, request.kind, request.priority, n.nextSequence, request.target,
                        request.hasTarget, 0)}
           && s2.node.missionCounter == n.missionCounter + 1
           && s2.ledger == s.ledger[n.missionCounter + 1 := Record(n.missionCounter + 1, 0, Pending)]
  {
    hide Submitted, QueueTable;
    QueueEventShape(cfg, s.node, e);
    var n := s.node;
    match e.what {
      case Submit(kind, priority, target, hasTarget) => SubmissionMeans(n, kind, priority, target, hasTarget);
      case RecurringPatrol => SubmissionMeans(n, "patrol", cfg.recurringPriority, NO_TARGET, false);
      case PatrolRequest => SubmissionMeans(n, "patrol", 0, NO_TARGET, false);
    }
  }

  lemma SubmissionCarries(cfg: Config, s: System, b: Book, e: Event)
    requires Inv(cfg, s) && Enabled(s, e) && AllCarry(s, b)
    requires e.what.Submit? || e.what.RecurringPatrol? || e.what.PatrolRequest?
    ensures AllCarry(Step(cfg, s, e), BookAfter(cfg, b, s, e))
  {
    hide Step, Inv, Enabled, Asked;
    var s2, b2 := Step(cfg, s, e), BookAfter(cfg, b, s, e);
    StepKeeps(cfg, s, b, e);
    SubmissionOf(cfg, s, e);
    KeepsQueue(s.node.queue, s.ledger, b, s2.ledger, b2);
    hide Keeps, RobotCarries;
    forall m | m in s2.node.queue ensures m in s.node.queue || QueueCarries([m], s2.ledger, b2) {
      assert m in multiset(s2.node.queue);
      assert m in multiset(s.node.queue) ==> m in s.node.queue;
    }
    TablesCarry(s, b, s2, b2);
  }

  lemma CancellationCarries(cfg: Config, s: System, b: Book, e: Event)
    requires Inv(cfg, s) && Enabled(s, e) && AllCarry(s, b) && e.what.Cancel?
    ensures AllCarry(Step(cfg, s, e), BookAfter(cfg, b, s, e))
  {
    hide Inv, Enabled, Cancelled, LedgerAfter;
    var s2, b2 := Step(cfg, s, e), BookAfter(cfg, b, s, e);
    StepKeeps(cfg, s, b, e);
    CancellationMeans(s.node, e.what.text);
    KeepsQueue(s.node.queue, s.ledger, b, s2.ledger, b2);
    hide Step, Keeps, RobotCarries;
    TablesCarry(s, b, s2, b2);
  }

  /* Dispatches and answers. */

  lemma TimerCarries(cfg: Config, s: System, b: Book, e: Event)
    requires Inv(cfg, s) && Enabled(s, e) && AllCarry(s, b) && e.what.Timer?
    ensures AllCarry(Step(cfg, s, e), BookAfter(cfg, b, s, e))
  {
    hide Inv, Enabled, Ticked;
    var s2, b2 := Step(cfg, s, e), BookAfter(cfg, b, s, e);
    StepKeeps(cfg, s, b, e);
    TickShape(cfg, s.node, e.at, e.what.serviceReady);
    KeepsQueue(s.node.queue, s.ledger, b, s2.ledger, b2);
    hide Keeps, RobotCarries;
    TablesCarry(s, b, s2, b2);
  }

  lemma AnswerCarries(cfg: Config, s: System, b: Book, e: Event)
    requires Inv(cfg, s) && Enabled(s, e) && AllCarry(s, b) && e.what.Answer?
    ensures AllCarry(Step(cfg, s, e), BookAfter(cfg, b, s, e))
  {
    hide Inv, Step, Enabled, Keeps, Carries, RobotCarries;
    var s2, d := Step(cfg, s, e), e.what.dispatch;
    StepKeeps(cfg, s, b, e);
    AnswerShape(cfg, s, e);
    KeepsQueue(s.node.queue, s.ledger, b, s2.ledger, b);
    KeepsQueue([d.mission], s.ledger, b, s2.ledger, b);
    assert d.mission in [d.mission];
    RunsTheMission(s2.ledger, b, d.mission, e.at);
    TablesCarry(s, b, s2, b);
  }

  lemma AnswerShape(cfg: Config, s: System, e: Event)
    requires Enabled(s, e) && e.what.Answer?
    ensures
      var s2, d := Step(cfg, s, e), e.what.dispatch;
      && d in s.outstanding && s2.outstanding == s.outstanding - {d}
      && (forall m :: m in s2.node.queue ==> m in s.node.queue)
      && (s2.node.active == s.node.active || s2.node.active == s.node.active[d.robotId := Activated(d.mission, e.at)])
      && s2.node.missionCounter == s.node.missionCounter
  {
    hide LedgerAfter, Answered, Enumerates;
    AnsweredShape(s.node, e.what.dispatch, e.what.reply, e.at);
  }

  lemma AnsweredShape(n: Node, d: Dispatch, reply: Reply, now: Time)
    ensures
      var n2 := Answered(n, d, reply, now);
      && (forall m :: m in n2.queue ==> m in n.queue)
      && (n2.active == n.active || n2.active == n.active[d.robotId := Activated(d.mission, now)])
      && n2.missionCounter == n.missionCounter
  {
    hide Snapshot, Without;
    WithoutIsSubset(n.queue, d.mission.id);
  }

  lemma RunsTheMission(l: Ledger, b: Book, m: Mission, now: Time)
    requires QueueCarries([m], l, b)
    ensures RobotCarries(Activated(m, now), l, b)
  {
    assert m in [m];
  }

  lemma {:induction false} WithoutIsSubset(q: seq<Mission>, id: nat)
    ensures forall m :: m in Without(q, id) ==> m in q
  {
    if q != [] {
      WithoutIsSubset(q[1..], id);
    }
  }

  /* Fleet snapshots. */

  lemma {:induction false} RetriesCarry(cfg: Config, n: Node, l: Ledger, b: Book, failed: seq<ActiveMission>)
    requires Issued(n, l) && AwaitRequeue(failed, l) && QueueCarries(n.queue, l, b)
    requires forall i :: 0 <= i < |failed| ==> RobotCarries(failed[i], l, b)
    ensures QueueCarries(RequeueAll(cfg, n, failed).queue, ReplaceAll(cfg, l, n, failed), b)
    decreases |failed|
  {
    if failed != [] {
      var a, rest := failed[0], failed[1..];
      var n1, l1 := Requeue(cfg, n, a), Replace(cfg, l, n, a);
      ReplaceOne(cfg, l, n, failed);
      hide Issued, AwaitRequeue, Requeue, Replace, AttemptLimit;
      forall i | 0 <= i < |rest| ensures RobotCarries(rest[i], l1, b) {
        assert RobotCarries(failed[i + 1], l, b);
      }
      RetryCarries(cfg, n, l, b, a);
      hide RobotCarries, QueueCarries;
      RetriesCarry(cfg, n1, l1, b, rest);
    }
  }

  lemma RetryCarries(cfg: Config, n: Node, l: Ledger, b: Book, a: ActiveMission)
    requires Issued(n, l) && QueueCarries(n.queue, l, b) && RobotCarries(a, l, b)
    ensures QueueCarries(Requeue(cfg, n, a).queue, Replace(cfg, l, n, a), b)
  {
    RequeueMeans(cfg, n, a);
    hide Requeue, AttemptLimit;
    var q2, l2 := Requeue(cfg, n, a).queue, Replace(cfg, l, n, a);
    forall m | m in q2 ensures Carries(l2, b, m.id, Request(m.kind, m.priority, m.target, m.hasTarget)) {
      assert m in multiset(q2);
      assert m in multiset(n.queue) ==> m in n.queue;
    }
  }

  lemma SettleKeepsTries(cfg: Config, n: Node, l: Ledger, b: Book, robots: seq<RobotState>, now: Time)
    ensures Keeps(l, b, Settle(cfg, l, n, robots, now), b)
  {
    hide Judge;
  }

  lemma SettledIsIssued(cfg: Config, n: Node, l: Ledger, robots: seq<RobotState>, now: Time)
    requires Issued(n, l)
    ensures Issued(Settled(cfg, n, robots, now), Settle(cfg, l, n, robots, now))
    ensures Settled(cfg, n, robots, now).queue == n.queue
  {
    hide Judge, Survivors, KeptLeases;
  }

  lemma SnapshotCarriesQueue(cfg: Config, s: System, b: Book, e: Event)
    requires Inv(cfg, s) && Enabled(s, e) && AllCarry(s, b) && e.what.FleetSnapshot?
    ensures QueueCarries(Step(cfg, s, e).node.queue, Step(cfg, s, e).ledger, b)
  {
    var robots, walk, n, l := e.what.robots, e.what.walk, s.node, s.ledger;
    var n1, l1 := Settled(cfg, n, robots, e.at), Settle(cfg, l, n, robots, e.at);
    var failed := Failures(cfg, n.active, robots, e.at, walk);
    FailuresAreDistinct(cfg, n, l, robots, e.at, walk);
    SettledIsIssued(cfg, n, l, robots, e.at);
    SettleKeepsTries(cfg, n, l, b, robots, e.at);
    KeepsQueue(n.queue, l, b, l1, b);
    forall i | 0 <= i < |failed| ensures RobotCarries(failed[i], l1, b) {
      var r := FailuresAreListed(cfg, n, robots, e.at, walk, i);
    }
    hide Inv, Issued, AwaitRequeue, RobotCarries, QueueCarries, Settle, Settled, Failures;
    RetriesCarry(cfg, n1, l1, b, failed);
    SnapshotQueue(cfg, n, robots, e.at, walk);
    hide Snapshotted, ReplaceAll, RequeueAll;
  }

  lemma SnapshotCarries(cfg: Config, s: System, b: Book, e: Event)
    requires Inv(cfg, s) && Enabled(s, e) && AllCarry(s, b) && e.what.FleetSnapshot?
    ensures AllCarry(Step(cfg, s, e), BookAfter(cfg, b, s, e))
  {
    hide Inv, Snapshotted, LedgerAfter, QueueCarries, RobotCarries;
    var s2 := Step(cfg, s, e);
    StepKeeps(cfg, s, b, e);
    SnapshotCarriesQueue(cfg, s, b, e);
    forall r | r in s2.node.active
      ensures r in s.node.active && s2.node.active[r] == s.node.active[r].(confirmed := s2.node.active[r].confirmed)
    {
      MissionStaysActiveIff(cfg, s.node, e.what.robots, e.at, e.what.walk, r);
    }
    SnapshotCounter(cfg, s.node, e.what.robots, e.at, e.what.walk);
    hide Keeps;
    TablesCarry(s, b, s2, b);
  }

  lemma {:induction false} RequeueAllCounter(cfg: Config, n: Node, failed: seq<ActiveMission>)
    ensures RequeueAll(cfg, n, failed).missionCounter >= n.missionCounter
    decreases |failed|
  {
    if failed != [] {
      RequeueAllCounter(cfg, Requeue(cfg, n, failed[0]), failed[1..]);
    }
  }

  lemma SnapshotCounter(cfg: Config, n: Node, robots: seq<RobotState>, now: Time, walk: seq<string>)
    ensures Snapshotted(cfg, n, robots, now, walk).missionCounter >= n.missionCounter
  {
    RequeueAllCounter(cfg, Settled(cfg, n, robots, now), Failures(cfg, n.active, robots, now, walk));
    hide RequeueAll, Failures, Survivors, KeptLeases, Snapshot;
  }

  /* Runs. */

  lemma StepCarries(cfg: Config, s: System, b: Book, e: Event)
    requires Inv(cfg, s) && Enabled(s, e) && AllCarry(s, b)
    ensures AllCarry(Step(cfg, s, e), BookAfter(cfg, b, s, e))
  {
    hide *;
    match e.what {
      case SystemReady(_) => ReadyCarries(cfg, s, b, e);
      case Submit(_, _, _, _) => SubmissionCarries(cfg, s, b, e);
      case RecurringPatrol => SubmissionCarries(cfg, s, b, e);
      case PatrolRequest => SubmissionCarries(cfg, s, b, e);
      case Cancel(_) => CancellationCarries(cfg, s, b, e);
      case FleetSnapshot(_, _) => SnapshotCarries(cfg, s, b, e);
      case Timer(_) => TimerCarries(cfg, s, b, e);
      case Answer(_, _) => AnswerCarries(cfg, s, b, e);
    }
  }

  lemma ReadyCarries(cfg: Config, s: System, b: Book, e: Event)
    requires AllCarry(s, b) && e.what.SystemReady?
    ensures AllCarry(Step(cfg, s, e), BookAfter(cfg, b, s, e))
  {
    hide QueueCarries, RobotCarries;
  }

  lemma {:induction false} RunCarries(cfg: Config, es: seq<Event>)
    requires IsRun(cfg, es)
    ensures AllCarry(Run(cfg, es), BookOf(cfg, es))
  {
    LastStep(cfg, es);
    if es != [] {
      var pre := es[..|es| - 1];
      RunCarries(cfg, pre);
      InvariantHolds(cfg, pre);
      hide AllCarry, Inv, Step, BookAfter, Run, IsRun, Enabled;
      StepCarries(cfg, Run(cfg, pre), BookOf(cfg, pre), es[|es| - 1]);
    } else {
      hide IsRun;
    }
  }

  lemma CarriesIsHistory(cfg: Config, es: seq<Event>, id: nat, request: Request)
    requires Carries(Run(cfg, es).ledger, BookOf(cfg, es), id, request)
    ensures GoesBackTo(cfg, es, id, request)
  {
    hide Run, BookOf, SubmittedAt;
    var k := BookIsHistory(cfg, es, Run(cfg, es).ledger[id].origin);
  }

  /**
   Whatever is pending, requested of a robot or active asks for exactly what was submitted under the id it goes back
   to: kind, priority and target survive queueing, dispatching, every failure and every retry.
   */
  lemma RequestsAreKept(cfg: Config, es: seq<Event>)
    requires IsRun(cfg, es)
    ensures
      var s := Run(cfg, es);
      && (forall m :: m in s.node.queue ==>
            GoesBackTo(cfg, es, m.id, Request(m.kind, m.priority, m.target, m.hasTarget)))
      && (forall r :: r in s.node.active ==>
            var a := s.node.active[r];
            GoesBackTo(cfg, es, a.id, Request(a.kind, a.priority, a.target, a.hasTarget)))
      && (forall d :: d in s.outstanding ==>
            var m := d.mission;
            GoesBackTo(cfg, es, m.id, Request(m.kind, m.priority, m.target, m.hasTarget)))
  {
    RunCarries(cfg, es);
    hide Run, IsRun, BookOf, GoesBackTo, Carries;
    var s := Run(cfg, es);
    forall m | m in s.node.queue
      ensures GoesBackTo(cfg, es, m.id, Request(m.kind, m.priority, m.target, m.hasTarget))
    {
      CarriesIsHistory(cfg, es, m.id, Request(m.kind, m.priority, m.target, m.hasTarget));
    }
    forall r | r in s.node.active
      ensures
        var a := s.node.active[r];
        GoesBackTo(cfg, es, a.id, Request(a.kind, a.priority, a.target, a.hasTarget))
    {
      var a := s.node.active[r];
      CarriesIsHistory(cfg, es, a.id, Request(a.kind, a.priority, a.target, a.hasTarget));
    }
    forall d | d in s.outstanding
      ensures
        var m := d.mission;
        GoesBackTo(cfg, es, m.id, Request(m.kind, m.priority, m.target, m.hasTarget))
    {
      var m := d.mission;
      assert m in [m];
      CarriesIsHistory(cfg, es, m.id, Request(m.kind, m.priority, m.target, m.hasTarget));
    }
  }
}
