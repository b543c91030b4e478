/**
 The invariant that every callback of the scheduler keeps: the tables and the ledger agree, one submission
 has one live instance, and at most one unanswered request carries the current generation.
 */
module SchedulerInvariant {
  import opened Common
  import opened MissionQueue
  import opened FleetState
  import opened SchedulerNode
  import opened SchedulerSystem

  ghost predicate Queued(q: seq<Mission>, id: nat) {
    exists m :: m in q && m.id == id
  }

  /** The ids issued so far are 1, 2, …, missionCounter. */
  ghost predicate Issued(n: Node, l: Ledger) {
    forall id :: id in l <==> 1 <= id <= n.missionCounter
  }

  ghost predicate QueueTable(n: Node, l: Ledger) {
    && Ordered(n.queue)
    && (forall m :: m in n.queue ==>
          m.sequence < n.nextSequence && m.id in l && l[m.id].status == Pending && l[m.id].attempts == m.attempts)
    && (forall a, b :: a in n.queue && b in n.queue && a.id == b.id ==> a == b)
    && (forall id :: id in l && l[id].status == Pending ==> Queued(n.queue, id))
  }

  ghost predicate ActiveTable(n: Node, l: Ledger) {
    && (forall r :: r in n.active ==>
          var id := n.active[r].id;
          id in l && l[id].status == Active(r) && l[id].attempts == n.active[r].attempts)
    && (forall id :: id in l && l[id].status.Active? ==>
          l[id].status.robotId in n.active && n.active[l[id].status.robotId].id == id)
  }

  ghost predicate Tables(n: Node, l: Ledger) {
    Issued(n, l) && QueueTable(n, l) && ActiveTable(n, l)
  }

  /** How often one submission may be tried. */
  function AttemptBound(cfg: Config): nat {
    Max(1, AttemptLimit(cfg))
  }

  /** One id: how many attempts precede it, and which id replaced it. */
  ghost predicate Linked(cfg: Config, l: Ledger, id: nat)
    requires id in l
  {
    && l[id].attempts < AttemptBound(cfg)
    && l[id].origin in l && l[id].origin <= id
    && (l[id].attempts == 0 <==> l[id].origin == id)
    && (l[id].status.Requeued? ==>
          var next := l[id].status.replacement;
          next in l && next > id && l[next].origin == l[id].origin && l[next].attempts == l[id].attempts + 1)
  }

  /** Two ids of one submission: different attempts, and only the last one is not `Requeued`. */
  ghost predicate Chained(l: Ledger, a: nat, b: nat)
    requires a in l && b in l
  {
    l[a].origin == l[b].origin ==>
      && (l[a].attempts == l[b].attempts ==> a == b)
      && (!l[a].status.Requeued? ==> l[b].attempts <= l[a].attempts)
  }

  /** The ids issued for one submission form a chain of attempts. */
  ghost predicate Lineage(cfg: Config, l: Ledger) {
    && (forall id {:trigger Linked(cfg, l, id)} :: id in l ==> Linked(cfg, l, id))
    && (forall a, b {:trigger Chained(l, a, b)} :: a in l && b in l ==> Chained(l, a, b))
  }

  /** The dispatch slot and the unanswered requests. */
  ghost predicate Slots(s: System) {
    && (forall d :: d in s.outstanding ==> d.generation <= s.node.generation)
    && (forall d, e :: d in s.outstanding && e in s.outstanding && d.generation == e.generation ==> d == e)
    && (s.node.dispatchInProgress <==> exists d :: IsLive(s, d))
    && (forall d :: IsLive(s, d) ==> s.node.dispatchRobot == d.robotId && Dispatchable(s, d.mission))
  }

  /** The mission of the live request is still pending, or was cancelled while the request was live. */
  ghost predicate Dispatchable(s: System, m: Mission) {
    && m.id in s.ledger
    && s.ledger[m.id].attempts == m.attempts
    && ((m in s.node.queue && s.ledger[m.id].status == Pending) || s.ledger[m.id].status == CancelledByUser)
  }

  ghost predicate Inv(cfg: Config, s: System) {
    && Tables(s.node, s.ledger)
    && Lineage(cfg, s.ledger)
    && Slots(s)
    && s.node.reserved == s.node.reservedAt.Keys
  }

  /** A step that leaves requests and slot alone keeps `Slots` if it keeps missions dispatchable. */
  lemma SlotsFrame(s: System, s2: System)
    requires Slots(s) && s2.outstanding == s.outstanding
    requires s2.node.generation == s.node.generation
    requires s2.node.dispatchInProgress == s.node.dispatchInProgress
    requires s2.node.dispatchRobot == s.node.dispatchRobot
    requires forall m :: Dispatchable(s, m) ==> Dispatchable(s2, m)
    ensures Slots(s2)
  {
    hide Dispatchable;
    assert forall d :: IsLive(s2, d) <==> IsLive(s, d);
  }

  /* The shape of a step: which fields it can touch. */

  /** Submissions, cancellations and readiness messages leave robots, leases and slot alone. */
  lemma QueueEventShape(cfg: Config, n: Node, e: Event)
    requires !e.what.FleetSnapshot? && !e.what.Timer? && !e.what.Answer?
    ensures
      var n2 := NodeAfter(cfg, n, e);
      n2 == n.(systemReady := n2.systemReady, queue := n2.queue, nextSequence := n2.nextSequence,
               missionCounter := n2.missionCounter, published := n2.published)
  {
    hide FindMission, StableSort, Snapshot, Publish, Enqueue, Submitted, Cancelled;
    match e.what {
      case SystemReady(_) =>
      case Submit(kind, priority, target, hasTarget) => SubmittedShape(n, kind, priority, target, hasTarget);
      case RecurringPatrol => SubmittedShape(n, "patrol", cfg.recurringPriority, NO_TARGET, false);
      case PatrolRequest => SubmittedShape(n, "patrol", 0, NO_TARGET, false);
      case Cancel(text) => CancelledShape(n, text);
    }
  }

  lemma SubmittedShape(n: Node, kind: string, priority: int, target: Pose, hasTarget: bool)
    ensures
      var n2 := Submitted(n, kind, priority, target, hasTarget);
      n2 == n.(queue := n2.queue, nextSequence := n2.nextSequence,
               missionCounter := n2.missionCounter, published := n2.published)
  {
    hide StableSort, Snapshot;
  }

  lemma CancelledShape(n: Node, text: string)
    ensures
      var n2 := Cancelled(n, text);
      n2 == n.(queue := n2.queue, published := n2.published)
  {
    hide FindMission, Snapshot;
  }

  lemma {:induction false} RequeueAllShape(cfg: Config, n: Node, failed: seq<ActiveMission>)
    ensures
      var n2 := RequeueAll(cfg, n, failed);
      n2 == n.(queue := n2.queue, nextSequence := n2.nextSequence, missionCounter := n2.missionCounter)
    decreases |failed|
  {
    if failed != [] {
      RequeueAllShape(cfg, Requeue(cfg, n, failed[0]), failed[1..]);
    }
  }

  /** After a snapshot's verdicts, queueing failed missions again touches the queue and its message only. */
  lemma SnapshotShape(cfg: Config, n: Node, robots: seq<RobotState>, now: Time, walk: seq<string>)
    ensures
      var n2 := Snapshotted(cfg, n, robots, now, walk);
      n2 == Settled(cfg, n, robots, now).(
              queue := n2.queue, nextSequence := n2.nextSequence,
              missionCounter := n2.missionCounter, published := n2.published)
  {
    RequeueAllShape(cfg, Settled(cfg, n, robots, now), Failures(cfg, n.active, robots, now, walk));
    hide RequeueAll, Failures, Settled, Snapshot;
  }

  /* Queue operations. */

  lemma InsertMembers(q: seq<Mission>, m: Mission)
    ensures forall x :: x in Insert(q, m) <==> x in q || x == m
  {
    InsertPermutes(q, m);
    forall x ensures x in Insert(q, m) <==> x in q || x == m {
      assert x in Insert(q, m) <==> x in multiset(Insert(q, m));
      assert x in q <==> x in multiset(q);
    }
  }

  lemma EnqueueMembers(n: Node, l: Ledger, kind: string, priority: int, target: Pose, hasTarget: bool, attempts: nat)
    requires QueueTable(n, l)
    ensures
      var m := Mission(n.missionCounter + 1, kind, priority, n.nextSequence, target, hasTarget, attempts);
      var q := Enqueue(n, kind, priority, target, hasTarget, attempts).queue;
      Ordered(q) && forall x :: x in q <==> x in n.queue || x == m
  {
    hide StableSort, Insert, Ordered, Queued;
    var m := Mission(n.missionCounter + 1, kind, priority, n.nextSequence, target, hasTarget, attempts);
    forall i | 0 <= i < |n.queue| ensures n.queue[i].sequence < m.sequence {
      assert n.queue[i] in n.queue;
    }
    hide QueueTable;
    PushThenSort(n.queue, m);
    InsertMembers(n.queue, m);
  }

  lemma {:induction false} WithoutKeepsOrder(q: seq<Mission>, id: nat)
    requires Ordered(q)
    ensures Ordered(Without(q, id))
    ensures forall m :: m in Without(q, id) <==> m in q && m.id != id
  {
    if q != [] {
      var rest := Without(q[1..], id);
      forall i, j | 0 <= i < j < |q[1..]| ensures Before(q[1..][i], q[1..][j]) {
        assert Before(q[i + 1], q[j + 1]);
      }
      WithoutKeepsOrder(q[1..], id);
      forall m | m in rest ensures Before(q[0], m) {
        assert m in q[1..];
        var k :| 0 <= k < |q[1..]| && q[1..][k] == m;
        assert Before(q[0], q[k + 1]);
      }
      assert forall i :: 0 <= i < |rest| ==> rest[i] in rest;
    }
  }

  /** `l2` extends `l` by the next id; old records at most turn from dropped into requeued. */
  ghost predicate Extends(l: Ledger, l2: Ledger, next: nat) {
    && l2.Keys == l.Keys + {next}
    && (forall id :: id in l ==>
          l2[id] == l[id]
          || (l[id].status == Dropped && l2[id].status.Requeued? && l2[id].attempts == l[id].attempts))
  }

  lemma ExtendsKeepsActive(n: Node, l: Ledger, l2: Ledger, next: nat)
    requires ActiveTable(n, l) && Extends(l, l2, next) && next !in l
    requires l2[next].status == Pending
    ensures ActiveTable(n, l2)
  {
  }

  lemma EnqueueKeepsQueue(n: Node, n2: Node, l: Ledger, l2: Ledger, m: Mission)
    requires Issued(n, l) && QueueTable(n, l) && Extends(l, l2, m.id)
    requires m.id == n.missionCounter + 1 && m.sequence == n.nextSequence && n2.nextSequence > n.nextSequence
    requires l2[m.id].status == Pending && l2[m.id].attempts == m.attempts
    requires Ordered(n2.queue) && forall x :: x in n2.queue <==> x in n.queue || x == m
    ensures QueueTable(n2, l2)
  {
    hide Ordered;
    assert m in n2.queue;
    forall id | id in l2 && l2[id].status == Pending ensures Queued(n2.queue, id) {
      if id != m.id {
        assert id in l && Queued(n.queue, id);
      }
    }
  }

  lemma EnqueueKeepsTables(
    n: Node, l: Ledger, l2: Ledger,
    kind: string, priority: int, target: Pose, hasTarget: bool, attempts: nat)
    requires Tables(n, l) && Extends(l, l2, n.missionCounter + 1)
    requires l2[n.missionCounter + 1].status == Pending && l2[n.missionCounter + 1].attempts == attempts
    ensures Tables(Enqueue(n, kind, priority, target, hasTarget, attempts), l2)
    ensures forall m :: m in n.queue ==> m in Enqueue(n, kind, priority, target, hasTarget, attempts).queue
  {
    var m := Mission(n.missionCounter + 1, kind, priority, n.nextSequence, target, hasTarget, attempts);
    EnqueueMembers(n, l, kind, priority, target, hasTarget, attempts);
    ExtendsKeepsActive(n, l, l2, m.id);
    hide StableSort, Ordered, QueueTable;
    EnqueueKeepsQueue(n, Enqueue(n, kind, priority, target, hasTarget, attempts), l, l2, m);
    hide Extends;
  }

  lemma FreshLineage(cfg: Config, l: Ledger, n: Node)
    requires Issued(n, l) && Lineage(cfg, l)
    ensures Lineage(cfg, Issue(l, n))
  {
    var l2, next := Issue(l, n), n.missionCounter + 1;
    assert next !in l;
    forall id | id in l2 ensures Linked(cfg, l2, id) {
      if id in l {
        assert Linked(cfg, l, id);
      }
    }
    forall a, b | a in l2 && b in l2 ensures Chained(l2, a, b) {
      if a in l {
        assert Linked(cfg, l, a);
      }
      if b in l {
        assert Linked(cfg, l, b);
      }
      if a in l && b in l {
        assert Chained(l, a, b);
      }
    }
  }

  lemma IssueKeepsInv(
    cfg: Config, s: System, s2: System, kind: string, priority: int, target: Pose, hasTarget: bool)
    requires Inv(cfg, s)
    requires s2.node == Publish(Enqueue(s.node, kind, priority, target, hasTarget, 0))
    requires s2.ledger == Issue(s.ledger, s.node) && s2.outstanding == s.outstanding
    ensures Inv(cfg, s2)
  {
    var n2 := Enqueue(s.node, kind, priority, target, hasTarget, 0);
    FreshLineage(cfg, s.ledger, s.node);
    EnqueueKeepsTables(s.node, s.ledger, s2.ledger, kind, priority, target, hasTarget, 0);
    hide Lineage, ActiveTable, QueueTable, StableSort;
    assert s.node.missionCounter + 1 !in s.ledger;
    SlotsFrame(s, s2);
    TablesFrame(n2, s2.node, s2.ledger);
  }

  lemma TablesFrame(n: Node, n2: Node, l: Ledger)
    requires Tables(n, l)
    requires n2.queue == n.queue && n2.nextSequence == n.nextSequence
    requires n2.missionCounter == n.missionCounter && n2.active == n.active
    ensures Tables(n2, l)
  {
  }

  lemma SubmitKeepsInv(cfg: Config, s: System, e: Event)
    requires Inv(cfg, s) && (e.what.Submit? || e.what.RecurringPatrol? || e.what.PatrolRequest?)
    ensures Inv(cfg, Step(cfg, s, e))
  {
    var s2 := Step(cfg, s, e);
    hide Tables, Lineage, Slots, Enqueue, Issue, Publish;
    match e.what {
      case Submit(kind, priority, target, hasTarget) =>
        if kind in SUPPORTED_KINDS {
          IssueKeepsInv(cfg, s, s2, kind, priority, target, hasTarget);
        } else {
          QuietKeepsInv(cfg, s, s2);
        }
      case RecurringPatrol =>
        IssueKeepsInv(cfg, s, s2, "patrol", cfg.recurringPriority, NO_TARGET, false);
      case PatrolRequest =>
        IssueKeepsInv(cfg, s, s2, "patrol", 0, NO_TARGET, false);
    }
  }

  /** A step that changes nothing the invariant speaks about. */
  lemma QuietKeepsInv(cfg: Config, s: System, s2: System)
    requires Inv(cfg, s)
    requires s2.ledger == s.ledger && s2.outstanding == s.outstanding
    requires s2.node == s.node.(systemReady := s2.node.systemReady)
    ensures Inv(cfg, s2)
  {
    TablesFrame(s.node, s2.node, s2.ledger);
    hide Tables, Lineage;
    SlotsFrame(s, s2);
  }

  /** `l2` differs from `l` in statuses only, and not in which ids are `Requeued`. */
  ghost predicate SameChains(l: Ledger, l2: Ledger) {
    && l2.Keys == l.Keys
    && forall id :: id in l ==>
         && l2[id].origin == l[id].origin && l2[id].attempts == l[id].attempts
         && (l2[id].status == l[id].status || (!l2[id].status.Requeued? && !l[id].status.Requeued?))
  }

  lemma SameChainsKeepLineage(cfg: Config, l: Ledger, l2: Ledger)
    requires Lineage(cfg, l) && SameChains(l, l2)
    ensures Lineage(cfg, l2)
  {
    forall id | id in l2 ensures Linked(cfg, l2, id) {
      assert Linked(cfg, l, id);
    }
    forall a, b | a in l2 && b in l2 ensures Chained(l2, a, b) {
      assert Chained(l, a, b);
    }
  }

  lemma RemoveKeepsOrder(q: seq<Mission>, i: nat)
    requires Ordered(q) && i < |q|
    ensures Ordered(q[..i] + q[i + 1..])
    ensures forall m :: m in q[..i] + q[i + 1..] <==> m in q && m != q[i]
  {
    var q2 := q[..i] + q[i + 1..];
    forall j, k | 0 <= j < k < |q2| ensures Before(q2[j], q2[k]) {
      assert q2[j] == q[if j < i then j else j + 1] && q2[k] == q[if k < i then k else k + 1];
    }
    forall m | m in q && m != q[i] ensures m in q2 {
      var j :| 0 <= j < |q| && q[j] == m;
      assert q2[if j < i then j else j - 1] == m;
    }
    forall m | m in q2 ensures m in q && m != q[i] {
      var j :| 0 <= j < |q2| && q2[j] == m;
      var k := if j < i then j else j + 1;
      assert q[k] == m;
      assert k < i ==> Before(q[k], q[i]);
      assert k > i ==> Before(q[i], q[k]);
    }
  }

  lemma CancelKeepsTables(n: Node, l: Ledger, i: nat)
    requires Tables(n, l) && i < |n.queue|
    ensures Tables(n.(queue := n.queue[..i] + n.queue[i + 1..]), SetStatus(l, n.queue[i].id, CancelledByUser))
  {
    var l2, q2 := SetStatus(l, n.queue[i].id, CancelledByUser), n.queue[..i] + n.queue[i + 1..];
    RemoveKeepsOrder(n.queue, i);
    assert n.queue[i] in n.queue;
    forall id | id in l2 && l2[id].status == Pending ensures Queued(q2, id) {
      assert Queued(n.queue, id);
    }
  }

  lemma CancelKeepsSlots(s: System, s2: System, i: nat)
    requires Slots(s) && i < |s.node.queue|
    requires s2.node.queue == s.node.queue[..i] + s.node.queue[i + 1..] && Ordered(s.node.queue)
    requires s2.node.generation == s.node.generation
    requires s2.node.dispatchInProgress == s.node.dispatchInProgress
    requires s2.node.dispatchRobot == s.node.dispatchRobot
    requires s2.ledger == SetStatus(s.ledger, s.node.queue[i].id, CancelledByUser)
    requires s2.outstanding == s.outstanding
    ensures Slots(s2)
  {
    RemoveKeepsOrder(s.node.queue, i);
    hide Ordered;
    SlotsFrame(s, s2);
  }

  lemma RemovalKeepsInv(cfg: Config, s: System, s2: System, i: nat)
    requires Inv(cfg, s) && i < |s.node.queue|
    requires s2.node == Publish(s.node.(queue := s.node.queue[..i] + s.node.queue[i + 1..]))
    requires s2.ledger == SetStatus(s.ledger, s.node.queue[i].id, CancelledByUser)
    requires s2.outstanding == s.outstanding
    ensures Inv(cfg, s2)
  {
    CancelKeepsTables(s.node, s.ledger, i);
    CancelKeepsSlots(s, s2, i);
    hide QueueTable, ActiveTable, Ordered, Slots;
    SameChainsKeepLineage(cfg, s.ledger, s2.ledger);
    TablesFrame(s.node.(queue := s2.node.queue), s2.node, s2.ledger);
  }

  lemma CancelKeepsInv(cfg: Config, s: System, e: Event)
    requires Inv(cfg, s) && e.what.Cancel?
    ensures Inv(cfg, Step(cfg, s, e))
  {
    hide Inv, SetStatus, Publish;
    match FindMission(s.node.queue, e.what.text) {
      case None => QuietKeepsInv(cfg, s, Step(cfg, s, e));
      case Some(i) => RemovalKeepsInv(cfg, s, Step(cfg, s, e), i);
    }
  }

  /* Answers. */

  lemma RefusalKeepsInv(cfg: Config, s: System, e: Event)
    requires Inv(cfg, s) && Enabled(s, e) && e.what.Answer?
    requires e.what.dispatch.generation != s.node.generation || e.what.reply != Accepted
    ensures Inv(cfg, Step(cfg, s, e))
  {
    var s2, d := Step(cfg, s, e), e.what.dispatch;
    if d.generation == s.node.generation {
      assert IsLive(s, d);
      assert forall x :: !IsLive(s2, x);
    } else {
      assert forall x :: IsLive(s2, x) <==> IsLive(s, x);
    }
  }

  lemma AcceptKeepsLineage(cfg: Config, n: Node, l: Ledger, d: Dispatch)
    requires Tables(n, l) && Lineage(cfg, l)
    requires d.mission.id in l && l[d.mission.id].status in {Pending, CancelledByUser}
    ensures Lineage(cfg, Accept(l, n, d))
  {
    SameChainsKeepLineage(cfg, l, Accept(l, n, d));
  }

  lemma AcceptKeepsQueue(n: Node, l: Ledger, d: Dispatch)
    requires Tables(n, l) && d.mission.id in l
    ensures QueueTable(n.(queue := Without(n.queue, d.mission.id)), Accept(l, n, d))
  {
    var l2 := Accept(l, n, d);
    var q2 := Without(n.queue, d.mission.id);
    WithoutKeepsOrder(n.queue, d.mission.id);
    hide Without;
    forall id | id in l2 && l2[id].status == Pending ensures Queued(q2, id) {
      assert Queued(n.queue, id);
    }
  }

  lemma AcceptKeepsActive(n: Node, l: Ledger, d: Dispatch, now: Time)
    requires ActiveTable(n, l) && d.mission.id in l
    requires l[d.mission.id].status in {Pending, CancelledByUser} && l[d.mission.id].attempts == d.mission.attempts
    ensures ActiveTable(n.(active := n.active[d.robotId := Activated(d.mission, now)]), Accept(l, n, d))
  {
    assert d.robotId in n.active ==> n.active[d.robotId].id != d.mission.id;
  }

  lemma AcceptKeepsInv(cfg: Config, s: System, e: Event)
    requires Inv(cfg, s) && Enabled(s, e) && e.what.Answer?
    requires e.what.dispatch.generation == s.node.generation && e.what.reply == Accepted
    ensures Inv(cfg, Step(cfg, s, e))
  {
    var s2, d := Step(cfg, s, e), e.what.dispatch;
    assert IsLive(s, d);
    AcceptKeepsLineage(cfg, s.node, s.ledger, d);
    AcceptKeepsQueue(s.node, s.ledger, d);
    AcceptKeepsActive(s.node, s.ledger, d, e.at);
    assert forall x :: !IsLive(s2, x);
  }

  /* The dispatch timer. */

  /** The timer touches the slot and the leases only, and it sends the first pending mission. */
  lemma TickShape(cfg: Config, n: Node, now: Time, serviceReady: bool)
    ensures
      var (n2, sent) := Ticked(cfg, n, now, serviceReady);
      && n2 == n.(dispatchInProgress := n2.dispatchInProgress, dispatchStartedAt := n2.dispatchStartedAt,
                  dispatchRobot := n2.dispatchRobot, generation := n2.generation,
                  reserved := n2.reserved, reservedAt := n2.reservedAt)
      && (n.reserved == n.reservedAt.Keys ==> n2.reserved == n2.reservedAt.Keys)
      && match sent
         case None => n2 == n || (n2.generation == n.generation + 1 && !n2.dispatchInProgress)
         case Some(d) =>
           && n.queue != [] && d.mission == n.queue[0]
           && n2.dispatchInProgress && n2.dispatchRobot == d.robotId
           && n2.generation == d.generation > n.generation
  {
  }

  lemma TimerKeepsInv(cfg: Config, s: System, e: Event)
    requires Inv(cfg, s) && Enabled(s, e) && e.what.Timer?
    ensures Inv(cfg, Step(cfg, s, e))
  {
    hide Ticked, Lineage, ActiveTable, Ordered, Issued;
    var s2 := Step(cfg, s, e);
    var sent := Ticked(cfg, s.node, e.at, e.what.serviceReady).1;
    TickShape(cfg, s.node, e.at, e.what.serviceReady);
    TablesFrame(s.node, s2.node, s.ledger);
    if sent.Some? {
      assert sent.value.mission in s.node.queue;
      assert IsLive(s2, sent.value);
      assert forall d :: IsLive(s2, d) ==> d == sent.value;
    } else if s2.node == s.node {
      SlotsFrame(s, s2);
    } else {
      assert forall d :: !IsLive(s2, d);
    }
  }

  /* Fleet snapshots. */

  lemma SettleKeepsActive(cfg: Config, n: Node, l: Ledger, robots: seq<RobotState>, now: Time)
    requires ActiveTable(n, l)
    ensures ActiveTable(n.(active := Survivors(cfg, n.active, robots, now)), Settle(cfg, l, n, robots, now))
  {
    hide Judge;
    var l2, active := Settle(cfg, l, n, robots, now), Survivors(cfg, n.active, robots, now);
    forall r | r in active
      ensures active[r].id in l2 && l2[active[r].id] == l[n.active[r].id] && active[r].id == n.active[r].id
    {
      assert l[n.active[r].id].status == Active(r);
    }
  }

  lemma ActiveTableFrame(n: Node, n2: Node, l: Ledger)
    requires ActiveTable(n, l) && n2.active == n.active
    ensures ActiveTable(n2, l)
  {
  }

  lemma SettleLeavesOthers(cfg: Config, l: Ledger, n: Node, robots: seq<RobotState>, now: Time)
    ensures
      var l2 := Settle(cfg, l, n, robots, now);
      && l2.Keys == l.Keys
      && (forall id :: id in l && !l[id].status.Active? ==> l2[id] == l[id])
      && (forall id :: id in l && l2[id].status == Pending ==> l[id].status == Pending)
  {
    hide Judge;
  }

  lemma SettleKeepsTables(cfg: Config, n: Node, l: Ledger, robots: seq<RobotState>, now: Time)
    requires Tables(n, l)
    ensures Tables(Settled(cfg, n, robots, now), Settle(cfg, l, n, robots, now))
  {
    hide Judge, Survivors, KeptLeases, Ordered, ActiveTable, Settle;
    var n2, l2 := Settled(cfg, n, robots, now), Settle(cfg, l, n, robots, now);
    SettleKeepsActive(cfg, n, l, robots, now);
    ActiveTableFrame(n.(active := Survivors(cfg, n.active, robots, now)), n2, l2);
    SettleLeavesOthers(cfg, l, n, robots, now);
    forall id | id in l2 && l2[id].status == Pending ensures Queued(n2.queue, id) {
      assert Queued(n.queue, id);
    }
  }

  lemma SettleKeepsLineage(cfg: Config, n: Node, l: Ledger, robots: seq<RobotState>, now: Time)
    requires Lineage(cfg, l)
    ensures Lineage(cfg, Settle(cfg, l, n, robots, now))
  {
    SameChainsKeepLineage(cfg, l, Settle(cfg, l, n, robots, now));
  }

  lemma ReplaceKeepsLinks(cfg: Config, n: Node, l: Ledger, a: ActiveMission)
    requires Issued(n, l) && Lineage(cfg, l) && Retries(cfg, a)
    requires a.id in l && l[a.id].status == Dropped && l[a.id].attempts == a.attempts
    ensures forall id {:trigger Linked(cfg, Replace(cfg, l, n, a), id)} ::
      id in Replace(cfg, l, n, a) ==> Linked(cfg, Replace(cfg, l, n, a), id)
  {
    var l2, next := Replace(cfg, l, n, a), n.missionCounter + 1;
    assert next !in l && Linked(cfg, l, a.id);
    forall id | id in l2 ensures Linked(cfg, l2, id) {
      if id in l {
        assert Linked(cfg, l, id);
      }
    }
  }

  /** Missions that failed and were taken off their robots, each once, not yet queued again. */
  ghost predicate AwaitRequeue(failed: seq<ActiveMission>, l: Ledger) {
    && (forall i :: 0 <= i < |failed| ==>
          failed[i].id in l && l[failed[i].id].status == Dropped && l[failed[i].id].attempts == failed[i].attempts)
    && (forall i, j :: 0 <= i < j < |failed| ==> failed[i].id != failed[j].id)
  }

  lemma {:induction false} FailuresAreListed(
    cfg: Config, n: Node, robots: seq<RobotState>, now: Time, walk: seq<string>, k: nat)
    returns (r: string)
    requires k < |Failures(cfg, n.active, robots, now, walk)|
    ensures r in walk && r in n.active && n.active[r] == Failures(cfg, n.active, robots, now, walk)[k]
    ensures Judge(cfg, robots, r, n.active[r], now) == Failed
  {
    var rest := Failures(cfg, n.active, robots, now, walk[1..]);
    var head := |Failures(cfg, n.active, robots, now, walk)| - |rest|;
    if k < head {
      r := walk[0];
    } else {
      r := FailuresAreListed(cfg, n, robots, now, walk[1..], k - head);
    }
  }

  lemma {:induction false} FailuresAreDistinct(
    cfg: Config, n: Node, l: Ledger, robots: seq<RobotState>, now: Time, walk: seq<string>)
    requires ActiveTable(n, l) && Distinct(walk)
    ensures AwaitRequeue(Failures(cfg, n.active, robots, now, walk), Settle(cfg, l, n, robots, now))
  {
    if walk != [] {
      var failed := Failures(cfg, n.active, robots, now, walk);
      var rest := Failures(cfg, n.active, robots, now, walk[1..]);
      assert Distinct(walk[1..]) by {
        forall i, j | 0 <= i < j < |walk[1..]| ensures walk[1..][i] != walk[1..][j] {
          assert walk[i + 1] != walk[j + 1];
        }
      }
      FailuresAreDistinct(cfg, n, l, robots, now, walk[1..]);
      if |failed| != |rest| {
        assert failed == [n.active[walk[0]]] + rest;
        forall j | 0 <= j < |rest| ensures rest[j].id != failed[0].id {
          var r := FailuresAreListed(cfg, n, robots, now, walk[1..], j);
          assert r != walk[0] by {
            var i :| 0 <= i < |walk[1..]| && walk[1..][i] == r;
            assert walk[0] != walk[i + 1];
          }
        }
      } else {
        assert failed == rest;
      }
    }
  }

  lemma ReplaceKeepsLineage(cfg: Config, n: Node, l: Ledger, a: ActiveMission)
    requires Issued(n, l) && Lineage(cfg, l) && Retries(cfg, a)
    requires a.id in l && l[a.id].status == Dropped && l[a.id].attempts == a.attempts
    ensures Lineage(cfg, Replace(cfg, l, n, a))
  {
    var l2, next := Replace(cfg, l, n, a), n.missionCounter + 1;
    ReplaceKeepsLinks(cfg, n, l, a);
    assert next !in l && l2[next].origin == l[a.id].origin && l2[next].attempts == a.attempts + 1;
    hide Linked;
    forall x, y | x in l2 && y in l2 ensures Chained(l2, x, y) {
      if x in l && y in l {
        assert Chained(l, x, y);
      } else if x in l {
        assert Chained(l, a.id, x) && Chained(l, x, a.id);
      } else if y in l {
        assert Chained(l, a.id, y);
      }
    }
  }

  /** What queueing failed missions again leaves alone. */
  ghost predicate RequeueFrame(n: Node, l: Ledger, n2: Node, l2: Ledger) {
    && n2 == n.(queue := n2.queue, nextSequence := n2.nextSequence, missionCounter := n2.missionCounter)
    && (forall m :: m in n.queue ==> m in n2.queue)
    && (forall id :: id in l ==> id in l2 && (l[id].status != Dropped ==> l2[id] == l[id]))
  }

  lemma ReplaceExtends(cfg: Config, n: Node, l: Ledger, a: ActiveMission)
    requires Issued(n, l) && Retries(cfg, a)
    requires a.id in l && l[a.id].status == Dropped && l[a.id].attempts == a.attempts
    ensures
      var l2 := Replace(cfg, l, n, a);
      && Extends(l, l2, n.missionCounter + 1)
      && l2[n.missionCounter + 1].status == Pending && l2[n.missionCounter + 1].attempts == a.attempts + 1
      && forall id :: id in l && id != a.id ==> l2[id] == l[id]
  {
  }

  lemma ReplaceKeepsTables(cfg: Config, n: Node, l: Ledger, a: ActiveMission)
    requires Tables(n, l) && Lineage(cfg, l)
    requires a.id in l && l[a.id].status == Dropped && l[a.id].attempts == a.attempts
    ensures Tables(Requeue(cfg, n, a), Replace(cfg, l, n, a)) && Lineage(cfg, Replace(cfg, l, n, a))
    ensures RequeueFrame(n, l, Requeue(cfg, n, a), Replace(cfg, l, n, a))
    ensures forall id :: id in l && id != a.id ==> Replace(cfg, l, n, a)[id] == l[id]
  {
    hide Lineage, ActiveTable, QueueTable, StableSort, Extends, Replace;
    if Retries(cfg, a) {
      ReplaceExtends(cfg, n, l, a);
      EnqueueKeepsTables(n, l, Replace(cfg, l, n, a), a.kind, a.priority, a.target, a.hasTarget, a.attempts + 1);
      ReplaceKeepsLineage(cfg, n, l, a);
      ReplaceFrame(cfg, n, l, a);
    } else {
      ReplaceNothing(cfg, n, l, a);
    }
  }

  lemma ReplaceNothing(cfg: Config, n: Node, l: Ledger, a: ActiveMission)
    requires !Retries(cfg, a)
    ensures Replace(cfg, l, n, a) == l && Requeue(cfg, n, a) == n
  {
  }

  lemma ReplaceFrame(cfg: Config, n: Node, l: Ledger, a: ActiveMission)
    requires Issued(n, l) && QueueTable(n, l) && Retries(cfg, a)
    requires a.id in l && l[a.id].status == Dropped
    ensures RequeueFrame(n, l, Requeue(cfg, n, a), Replace(cfg, l, n, a))
  {
    hide StableSort, QueueTable, Ordered;
    EnqueueMembers(n, l, a.kind, a.priority, a.target, a.hasTarget, a.attempts + 1);
    assert n.missionCounter + 1 !in l;
  }

  lemma AwaitTheRest(failed: seq<ActiveMission>, l: Ledger, l1: Ledger)
    requires AwaitRequeue(failed, l) && failed != []
    requires forall id :: id in l ==> id in l1 && (id != failed[0].id ==> l1[id] == l[id])
    ensures AwaitRequeue(failed[1..], l1)
  {
    assert forall i :: 0 <= i < |failed[1..]| ==> failed[1..][i] == failed[i + 1];
  }

  lemma RequeueFramesChain(n: Node, l: Ledger, n1: Node, l1: Ledger, n2: Node, l2: Ledger)
    requires RequeueFrame(n, l, n1, l1) && RequeueFrame(n1, l1, n2, l2)
    ensures RequeueFrame(n, l, n2, l2)
  {
  }

  lemma {:induction false} ReplaceAllKeepsTables(cfg: Config, n: Node, l: Ledger, failed: seq<ActiveMission>)
    requires Tables(n, l) && Lineage(cfg, l) && AwaitRequeue(failed, l)
    ensures Tables(RequeueAll(cfg, n, failed), ReplaceAll(cfg, l, n, failed))
    ensures Lineage(cfg, ReplaceAll(cfg, l, n, failed))
    ensures RequeueFrame(n, l, RequeueAll(cfg, n, failed), ReplaceAll(cfg, l, n, failed))
    decreases |failed|
  {
    if failed != [] {
      var a := failed[0];
      var n1, l1 := Requeue(cfg, n, a), Replace(cfg, l, n, a);
      ReplaceKeepsTables(cfg, n, l, a);
      assert forall id :: id in l ==> id in l1;
      hide Tables, Lineage, Requeue, Replace, RequeueFrame;
      AwaitTheRest(failed, l, l1);
      hide AwaitRequeue;
      ReplaceAllKeepsTables(cfg, n1, l1, failed[1..]);
      RequeueFramesChain(
        n, l, n1, l1, RequeueAll(cfg, n1, failed[1..]), ReplaceAll(cfg, l1, n1, failed[1..]));
    }
  }

  /** What a snapshot leaves alone: the slot, pending missions, and every record of an id that was not active. */
  ghost predicate SnapshotFrame(n: Node, l: Ledger, n2: Node, l2: Ledger) {
    && n2.generation == n.generation
    && n2.dispatchInProgress == n.dispatchInProgress
    && n2.dispatchRobot == n.dispatchRobot
    && (n.reserved == n.reservedAt.Keys ==> n2.reserved == n2.reservedAt.Keys)
    && (forall m :: m in n.queue ==> m in n2.queue)
    && (forall id :: id in l && (l[id].status == Pending || l[id].status == CancelledByUser) ==>
          id in l2 && l2[id] == l[id])
  }

  lemma SettleFrame(cfg: Config, n: Node, l: Ledger, robots: seq<RobotState>, now: Time)
    ensures SnapshotFrame(n, l, Settled(cfg, n, robots, now), Settle(cfg, l, n, robots, now))
  {
    hide Judge, Survivors;
  }

  lemma SnapshotKeepsTables(cfg: Config, n: Node, l: Ledger, robots: seq<RobotState>, now: Time, walk: seq<string>)
    requires Tables(n, l) && Lineage(cfg, l) && Distinct(walk)
    ensures
      var n1, l1 := Settled(cfg, n, robots, now), Settle(cfg, l, n, robots, now);
      var n2 := Snapshotted(cfg, n, robots, now, walk);
      var l2 := ReplaceAll(cfg, l1, n1, Failures(cfg, n.active, robots, now, walk));
      Tables(n2, l2) && Lineage(cfg, l2) && SnapshotFrame(n, l, n2, l2)
  {
    hide Lineage, RequeueAll, ReplaceAll, Failures, Settle, Settled, AwaitRequeue;
    var n1, l1 := Settled(cfg, n, robots, now), Settle(cfg, l, n, robots, now);
    var failed := Failures(cfg, n.active, robots, now, walk);
    SettleKeepsTables(cfg, n, l, robots, now);
    SettleKeepsLineage(cfg, n, l, robots, now);
    SettleFrame(cfg, n, l, robots, now);
    FailuresAreDistinct(cfg, n, l, robots, now, walk);
    ReplaceAllKeepsTables(cfg, n1, l1, failed);
    hide Tables;
    TablesFrame(RequeueAll(cfg, n1, failed), Snapshotted(cfg, n, robots, now, walk), ReplaceAll(cfg, l1, n1, failed));
  }

  lemma SnapshotKeepsInv(cfg: Config, s: System, e: Event)
    requires Inv(cfg, s) && Enabled(s, e) && e.what.FleetSnapshot?
    ensures Inv(cfg, Step(cfg, s, e))
  {
    SnapshotKeepsTables(cfg, s.node, s.ledger, e.what.robots, e.at, e.what.walk);
    hide Lineage, Tables, ReplaceAll, Failures, Settle, Settled, Snapshotted;
    SlotsFrame(s, Step(cfg, s, e));
  }

  /* Every run. */

  lemma ReadyKeepsInv(cfg: Config, s: System, e: Event)
    requires Inv(cfg, s) && e.what.SystemReady?
    ensures Inv(cfg, Step(cfg, s, e))
  {
    QuietKeepsInv(cfg, s, Step(cfg, s, e));
  }

  lemma StepKeepsInv(cfg: Config, s: System, e: Event)
    requires Inv(cfg, s) && Enabled(s, e)
    ensures Inv(cfg, Step(cfg, s, e))
  {
    hide *;
    match e.what {
      case SystemReady(_) => ReadyKeepsInv(cfg, s, e);
      case Submit(_, _, _, _) => SubmitKeepsInv(cfg, s, e);
      case RecurringPatrol => SubmitKeepsInv(cfg, s, e);
      case PatrolRequest => SubmitKeepsInv(cfg, s, e);
      case Cancel(_) => CancelKeepsInv(cfg, s, e);
      case FleetSnapshot(_, _) => SnapshotKeepsInv(cfg, s, e);
      case Timer(_) => TimerKeepsInv(cfg, s, e);
      case Answer(d, reply) =>
        if d.generation == s.node.generation && reply == Accepted {
          AcceptKeepsInv(cfg, s, e);
        } else {
          RefusalKeepsInv(cfg, s, e);
        }
    }
  }

  /** The invariant holds after every run, however late, lost or stale the answers are. */
  lemma {:induction false} InvariantHolds(cfg: Config, es: seq<Event>)
    requires IsRun(cfg, es)
    ensures Inv(cfg, Run(cfg, es))
  {
    if es != [] {
      InvariantHolds(cfg, es[..|es| - 1]);
      StepKeepsInv(cfg, Run(cfg, es[..|es| - 1]), es[|es| - 1]);
    }
  }
}
