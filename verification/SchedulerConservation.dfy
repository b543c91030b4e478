/** No mission is duplicated and no mission vanishes: what becomes of every id, over every run. */
module SchedulerConservation {
  import opened Common
  import opened Counting
  import opened MissionQueue
  import opened FleetState
  import opened SchedulerNode
  import opened SchedulerSystem
  import opened SchedulerInvariant

  /* One place for every mission. */

  /**
   Despite timeouts, redispatch of the same id and late answers: an id is never pending twice, never both
   pending and active, and never active on two robots.
   */
  lemma MissionIsInOnePlace(cfg: Config, es: seq<Event>)
    requires IsRun(cfg, es)
    ensures
      var n := Run(cfg, es).node;
      && (forall i, j :: 0 <= i < j < |n.queue| ==> n.queue[i].id != n.queue[j].id)
      && (forall i, r :: 0 <= i < |n.queue| && r in n.active ==> n.queue[i].id != n.active[r].id)
      && (forall r1, r2 :: r1 in n.active && r2 in n.active && n.active[r1].id == n.active[r2].id ==> r1 == r2)
  {
    InvariantHolds(cfg, es);
    var s := Run(cfg, es);
    hide Run, IsRun, Lineage, Slots;
    var n, l := s.node, s.ledger;
    forall i, j | 0 <= i < j < |n.queue| ensures n.queue[i].id != n.queue[j].id {
      assert n.queue[i] in n.queue && n.queue[j] in n.queue;
      assert Before(n.queue[i], n.queue[j]);
    }
    forall i, r | 0 <= i < |n.queue| && r in n.active ensures n.queue[i].id != n.active[r].id {
      assert n.queue[i] in n.queue;
    }
  }

  /** The legal careers of an id; nothing leaves `Done`, `Dropped`, `Requeued` or `Overwritten`. */
  predicate MayBecome(a: Status, b: Status) {
    || a == b
    || (a.Pending? && (b.Active? || b.CancelledByUser?))
    || (a.CancelledByUser? && b.Active?)
    || (a.Active? && (b.Done? || b.Dropped? || b.Requeued? || b.Overwritten?))
  }

  predicate SameTry(a: Record, b: Record) {
    a.origin == b.origin && a.attempts == b.attempts
  }

  /** What queueing the first failed mission again does to the ledger, and what is left for the others. */
  lemma ReplaceOne(cfg: Config, l: Ledger, n: Node, failed: seq<ActiveMission>)
    requires Issued(n, l) && AwaitRequeue(failed, l) && failed != []
    ensures
      var a, n1, l1 := failed[0], Requeue(cfg, n, failed[0]), Replace(cfg, l, n, failed[0]);
      && Issued(n1, l1) && AwaitRequeue(failed[1..], l1) && n1.missionCounter >= n.missionCounter
      && (forall id :: id in l ==> id in l1 && SameTry(l[id], l1[id]) && (id != a.id ==> l1[id] == l[id]))
      && (forall id :: id in l1 && id !in l ==> id > n.missionCounter && l1[id].status == Pending)
      && l1[a.id].status == if Retries(cfg, a) then Requeued(n.missionCounter + 1) else Dropped
    ensures forall i :: 0 <= i < |failed[1..]| ==> failed[1..][i] == failed[i + 1]
    ensures forall i :: 0 < i < |failed| ==> failed[i].id in l && failed[i].id != failed[0].id
  {
    hide StableSort, AttemptLimit;
    AwaitTheRest(failed, l, Replace(cfg, l, n, failed[0]));
  }

  /** The statuses of the failed missions afterwards. */
  predicate ReplacedAs(cfg: Config, n: Node, a: ActiveMission, l2: Ledger) {
    && a.id in l2
    && if Retries(cfg, a)
       then l2[a.id].status.Requeued? && l2[a.id].status.replacement > n.missionCounter
       else l2[a.id].status == Dropped
  }

  lemma {:induction false} ReplaceAllRecords(cfg: Config, l: Ledger, n: Node, failed: seq<ActiveMission>)
    requires Issued(n, l) && AwaitRequeue(failed, l)
    ensures
      var l2 := ReplaceAll(cfg, l, n, failed);
      && (forall id :: id in l && (forall i :: 0 <= i < |failed| ==> failed[i].id != id) ==>
            id in l2 && l2[id] == l[id])
      && (forall i :: 0 <= i < |failed| ==> ReplacedAs(cfg, n, failed[i], l2))
    decreases |failed|
  {
    if failed != [] {
      hide StableSort, Requeue, Replace, AwaitRequeue, Retries, Issued;
      var a, rest := failed[0], failed[1..];
      var n1, l1 := Requeue(cfg, n, a), Replace(cfg, l, n, a);
      ReplaceOne(cfg, l, n, failed);
      ReplaceAllRecords(cfg, l1, n1, rest);
      var l2 := ReplaceAll(cfg, l, n, failed);
      assert l2[a.id] == l1[a.id];
      forall i | 0 < i < |failed| ensures ReplacedAs(cfg, n, failed[i], l2) {
        assert ReplacedAs(cfg, n1, rest[i - 1], l2);
      }
    }
  }

  lemma {:induction false} ReplaceAllFresh(cfg: Config, l: Ledger, n: Node, failed: seq<ActiveMission>)
    requires Issued(n, l) && AwaitRequeue(failed, l)
    ensures
      var l2 := ReplaceAll(cfg, l, n, failed);
      forall id :: id in l2 && id !in l ==> id > n.missionCounter && l2[id].status == Pending
    decreases |failed|
  {
    if failed != [] {
      hide StableSort, Requeue, Replace, AwaitRequeue, Retries, Issued;
      var rest, n1, l1 := failed[1..], Requeue(cfg, n, failed[0]), Replace(cfg, l, n, failed[0]);
      ReplaceOne(cfg, l, n, failed);
      ReplaceAllFresh(cfg, l1, n1, rest);
      ReplaceAllRecords(cfg, l1, n1, rest);
      hide ReplacedAs;
      forall id | id in l1 && id !in l ensures ReplaceAll(cfg, l, n, failed)[id] == l1[id] {
        assert forall i :: 0 <= i < |rest| ==> rest[i].id != id;
      }
    }
  }

  lemma {:induction false} ReplaceAllSameTries(cfg: Config, l: Ledger, n: Node, failed: seq<ActiveMission>)
    requires Issued(n, l) && AwaitRequeue(failed, l)
    ensures
      var l2 := ReplaceAll(cfg, l, n, failed);
      forall id :: id in l ==> id in l2 && SameTry(l[id], l2[id])
    decreases |failed|
  {
    if failed != [] {
      hide StableSort, Requeue, Replace, AwaitRequeue, Retries, Issued;
      var n1, l1 := Requeue(cfg, n, failed[0]), Replace(cfg, l, n, failed[0]);
      ReplaceOne(cfg, l, n, failed);
      ReplaceAllSameTries(cfg, l1, n1, failed[1..]);
    }
  }

  /** How a snapshot changes the status of an id that was issued before it. */
  predicate SnapshotMove(cfg: Config, n: Node, robots: seq<RobotState>, now: Time, before: Status, after: Status) {
    if !before.Active? || before.robotId !in n.active then after == before
    else match Judge(cfg, robots, before.robotId, n.active[before.robotId], now)
      case Completed => after == Done
      case Failed =>
        if Retries(cfg, n.active[before.robotId])
        then after.Requeued? && after.replacement > n.missionCounter
        else after == Dropped
      case _ => after == before
  }

  lemma SnapshotMoves(cfg: Config, n: Node, l: Ledger, robots: seq<RobotState>, now: Time, walk: seq<string>, id: nat)
    requires Tables(n, l) && Enumerates(walk, n.active.Keys) && id in l
    ensures
      var l2 := ReplaceAll(
        cfg, Settle(cfg, l, n, robots, now), Settled(cfg, n, robots, now),
        Failures(cfg, n.active, robots, now, walk));
      && id in l2 && SameTry(l[id], l2[id])
      && SnapshotMove(cfg, n, robots, now, l[id].status, l2[id].status)
  {
    var n1, l1 := Settled(cfg, n, robots, now), Settle(cfg, l, n, robots, now);
    var failed := Failures(cfg, n.active, robots, now, walk);
    FailuresAreDistinct(cfg, n, l, robots, now, walk);
    ReplaceAllRecords(cfg, l1, n1, failed);
    ReplaceAllSameTries(cfg, l1, n1, failed);
    var before := l[id].status;
    hide ReplaceAll, QueueTable, Survivors, KeptLeases, Judge;
    if before.Active? && Judge(cfg, robots, before.robotId, n.active[before.robotId], now) == Failed {
      var i := FailureIsListed(cfg, n, robots, now, walk, before.robotId);
      assert failed[i].id == id;
    } else {
      forall i | 0 <= i < |failed| ensures failed[i].id != id {
        var r := FailuresAreListed(cfg, n, robots, now, walk, i);
        assert l[failed[i].id].status == Active(r);
      }
    }
  }

  lemma SnapshotFresh(cfg: Config, s: System, e: Event)
    requires Inv(cfg, s) && Enabled(s, e) && e.what.FleetSnapshot?
    ensures
      var l2 := Step(cfg, s, e).ledger;
      forall id :: id in l2 && id !in s.ledger ==> id > s.node.missionCounter && l2[id].status == Pending
  {
    var robots, walk, n := e.what.robots, e.what.walk, s.node;
    FailuresAreDistinct(cfg, n, s.ledger, robots, e.at, walk);
    ReplaceAllFresh(
      cfg, Settle(cfg, s.ledger, n, robots, e.at), Settled(cfg, n, robots, e.at),
      Failures(cfg, n.active, robots, e.at, walk));
  }

  lemma {:induction false} FailureIsListed(
    cfg: Config, n: Node, robots: seq<RobotState>, now: Time, walk: seq<string>, r: string) returns (i: nat)
    requires r in walk && r in n.active && Judge(cfg, robots, r, n.active[r], now) == Failed
    ensures i < |Failures(cfg, n.active, robots, now, walk)|
    ensures Failures(cfg, n.active, robots, now, walk)[i] == n.active[r]
  {
    if walk[0] == r {
      i := 0;
    } else {
      var k := FailureIsListed(cfg, n, robots, now, walk[1..], r);
      i := |Failures(cfg, n.active, robots, now, walk)| - |Failures(cfg, n.active, robots, now, walk[1..])| + k;
    }
  }

  lemma AnswerMoves(cfg: Config, s: System, e: Event, id: nat)
    requires Inv(cfg, s) && Enabled(s, e) && e.what.Answer? && id in s.ledger
    ensures
      var l2 := Step(cfg, s, e).ledger;
      && l2.Keys == s.ledger.Keys
      && SameTry(s.ledger[id], l2[id])
      && MayBecome(s.ledger[id].status, l2[id].status)
  {
    hide Lineage, QueueTable;
    if e.what.dispatch.generation == s.node.generation {
      assert IsLive(s, e.what.dispatch);
    }
  }

  lemma CancelMoves(cfg: Config, s: System, e: Event, id: nat)
    requires Inv(cfg, s) && e.what.Cancel? && id in s.ledger
    ensures
      var l2 := Step(cfg, s, e).ledger;
      && l2.Keys == s.ledger.Keys
      && SameTry(s.ledger[id], l2[id])
      && MayBecome(s.ledger[id].status, l2[id].status)
  {
    hide Lineage, ActiveTable, Slots;
    assert forall m :: m in s.node.queue ==> m.id in s.ledger && s.ledger[m.id].status == Pending;
  }

  /** One callback moves an id along its legal career only, and only a fresh id is ever added. */
  lemma StatusMoves(cfg: Config, s: System, e: Event, id: nat)
    requires Inv(cfg, s) && Enabled(s, e)
    ensures id in s.ledger ==>
      && id in Step(cfg, s, e).ledger
      && SameTry(s.ledger[id], Step(cfg, s, e).ledger[id])
      && MayBecome(s.ledger[id].status, Step(cfg, s, e).ledger[id].status)
    ensures id in Step(cfg, s, e).ledger && id !in s.ledger ==>
      id > s.node.missionCounter && Step(cfg, s, e).ledger[id].status == Pending
  {
    hide *;
    if e.what.FleetSnapshot? {
      SnapshotFresh(cfg, s, e);
      if id in s.ledger {
        SnapshotStepMoves(cfg, s, e, id);
      }
    } else if e.what.Cancel? {
      KeysStay(cfg, s, e, id);
      if id in s.ledger {
        CancelMoves(cfg, s, e, id);
      }
    } else if e.what.Answer? {
      KeysStay(cfg, s, e, id);
      if id in s.ledger {
        AnswerMoves(cfg, s, e, id);
      }
    } else {
      SubmissionMoves(cfg, s, e, id);
    }
  }

  lemma SnapshotStepMoves(cfg: Config, s: System, e: Event, id: nat)
    requires Inv(cfg, s) && Enabled(s, e) && e.what.FleetSnapshot? && id in s.ledger
    ensures
      && id in Step(cfg, s, e).ledger
      && SameTry(s.ledger[id], Step(cfg, s, e).ledger[id])
      && MayBecome(s.ledger[id].status, Step(cfg, s, e).ledger[id].status)
  {
    SnapshotMoves(cfg, s.node, s.ledger, e.what.robots, e.at, e.what.walk, id);
    hide Inv, Settle, Settled, ReplaceAll, Failures, Judge, NodeAfter, OutstandingAfter;
  }

  lemma KeysStay(cfg: Config, s: System, e: Event, id: nat)
    requires e.what.Cancel? || e.what.Answer?
    ensures id in Step(cfg, s, e).ledger <==> id in s.ledger
  {
    hide FindMission, NodeAfter, OutstandingAfter;
  }

  lemma SubmissionMoves(cfg: Config, s: System, e: Event, id: nat)
    requires Inv(cfg, s) && !e.what.FleetSnapshot? && !e.what.Cancel? && !e.what.Answer?
    ensures id in s.ledger ==> id in Step(cfg, s, e).ledger && Step(cfg, s, e).ledger[id] == s.ledger[id]
    ensures id in s.ledger ==>
      SameTry(s.ledger[id], Step(cfg, s, e).ledger[id])
      && MayBecome(s.ledger[id].status, Step(cfg, s, e).ledger[id].status)
    ensures id in Step(cfg, s, e).ledger && id !in s.ledger ==>
      id > s.node.missionCounter && Step(cfg, s, e).ledger[id].status == Pending
  {
    hide QueueTable, ActiveTable, Lineage, Slots, NodeAfter, OutstandingAfter;
    assert s.node.missionCounter + 1 !in s.ledger;
  }

  /* Conservation. */

  datatype Kind = PENDING | ACTIVE | CANCELLED | DONE | DROPPED | REQUEUED | OVERWRITTEN

  function KindOf(s: Status): Kind {
    match s
    case Pending => PENDING
    case Active(_) => ACTIVE
    case CancelledByUser => CANCELLED
    case Done => DONE
    case Dropped => DROPPED
    case Requeued(_) => REQUEUED
    case Overwritten => OVERWRITTEN
  }

  /** The ids whose status is of kind `k`. */
  function Ids(l: Ledger, k: Kind): set<nat> {
    set id | id in l && KindOf(l[id].status) == k
  }

  lemma PendingIdsMatchQueue(n: Node, l: Ledger)
    requires Issued(n, l) && QueueTable(n, l)
    ensures |Ids(l, PENDING)| == |n.queue|
  {
    var ids := seq(|n.queue|, i requires 0 <= i < |n.queue| => n.queue[i].id);
    forall i, j | 0 <= i < j < |ids| ensures ids[i] != ids[j] {
      assert n.queue[i] in n.queue && n.queue[j] in n.queue;
      assert Before(n.queue[i], n.queue[j]);
    }
    DistinctSize(ids);
    forall id ensures id in Elements(ids) <==> id in Ids(l, PENDING) {
      if id in Ids(l, PENDING) {
        assert Queued(n.queue, id);
        var m :| m in n.queue && m.id == id;
        var i :| 0 <= i < |n.queue| && n.queue[i] == m;
        assert ids[i] == id;
      }
      if id in ids {
        var i :| 0 <= i < |ids| && ids[i] == id;
        assert n.queue[i] in n.queue;
      }
    }
    assert Elements(ids) == Ids(l, PENDING);
  }

  lemma ActiveIdsMatchTable(n: Node, l: Ledger)
    requires ActiveTable(n, l)
    ensures |Ids(l, ACTIVE)| == |n.active|
  {
    var ids := map r | r in n.active :: n.active[r].id;
    assert ids.Keys == n.active.Keys;
    forall a, b | a in ids && b in ids && ids[a] == ids[b] ensures a == b {
      assert l[n.active[a].id].status == Active(a) && l[n.active[b].id].status == Active(b);
    }
    InjectiveSize(ids);
    forall id ensures id in ids.Values <==> id in Ids(l, ACTIVE) {
      if id in Ids(l, ACTIVE) {
        assert ids[l[id].status.robotId] == id;
      }
    }
    assert ids.Values == Ids(l, ACTIVE);
  }

  lemma StatusesPartition(l: Ledger)
    ensures
      |l.Keys| ==
        |Ids(l, PENDING)| + |Ids(l, ACTIVE)| + |Ids(l, CANCELLED)| + |Ids(l, DONE)|
        + |Ids(l, DROPPED)| + |Ids(l, REQUEUED)| + |Ids(l, OVERWRITTEN)|
  {
    PartitionSize(
      l.Keys, Ids(l, PENDING), Ids(l, ACTIVE), Ids(l, CANCELLED), Ids(l, DONE),
      Ids(l, DROPPED), Ids(l, REQUEUED), Ids(l, OVERWRITTEN));
  }

  /**
   Conservation: the ids 1, …, missionCounter are exactly those in the ledger, and each is pending (one queue
   position each), active (one robot each), cancelled, done, dropped, re-queued or overwritten.
   */
  lemma NothingVanishes(cfg: Config, es: seq<Event>)
    requires IsRun(cfg, es)
    ensures
      var n, l := Run(cfg, es).node, Run(cfg, es).ledger;
      && (forall id :: id in l <==> 1 <= id <= n.missionCounter)
      && n.missionCounter ==
           |n.queue| + |n.active| + |Ids(l, CANCELLED)| + |Ids(l, DONE)|
           + |Ids(l, DROPPED)| + |Ids(l, REQUEUED)| + |Ids(l, OVERWRITTEN)|
  {
    InvariantHolds(cfg, es);
    var n, l := Run(cfg, es).node, Run(cfg, es).ledger;
    hide Run, IsRun, Lineage, Slots;
    PendingIdsMatchQueue(n, l);
    ActiveIdsMatchTable(n, l);
    StatusesPartition(l);
    assert l.Keys == Upto(n.missionCounter);
    UptoSize(n.missionCounter);
  }

  /* Cancelled missions that run all the same. */

  /** Event `k` cancelled the pending mission `id`. */
  ghost predicate CancelledAt(cfg: Config, es: seq<Event>, k: nat, id: nat) {
    && k < |es|
    && id in Run(cfg, es[..k]).ledger && Run(cfg, es[..k]).ledger[id].status == Pending
    && id in Run(cfg, es[..k + 1]).ledger && Run(cfg, es[..k + 1]).ledger[id].status == CancelledByUser
  }

  /** The cancellation that hit the mission of the live request `d` came while `d` was already live. */
  lemma {:induction false} CancelledWhileLive(cfg: Config, es: seq<Event>, d: Dispatch) returns (k: nat)
    requires IsRun(cfg, es) && IsLive(Run(cfg, es), d)
    requires d.mission.id in Run(cfg, es).ledger
    requires Run(cfg, es).ledger[d.mission.id].status == CancelledByUser
    ensures k < |es| && es[k].what.Cancel?
    ensures IsLive(Run(cfg, es[..k]), d)
    ensures CancelledAt(cfg, es, k, d.mission.id)
  {
    hide IsLive, Step, Enabled, Inv;
    LedgerIsLater(cfg, es, d.mission.id);
    var pre, e := es[..|es| - 1], es[|es| - 1];
    var s := Run(cfg, pre);
    InvariantHolds(cfg, pre);
    LiveBefore(cfg, s, e, d);
    if s.ledger[d.mission.id].status == CancelledByUser {
      k := CancelledWhileLive(cfg, pre, d);
      assert pre[..k] == es[..k] && pre[..k + 1] == es[..k + 1];
    } else {
      k := |pre|;
      assert es[..k] == pre && es[..k + 1] == es;
    }
  }

  lemma LedgerIsLater(cfg: Config, es: seq<Event>, id: nat)
    requires id in Run(cfg, es).ledger
    ensures es != []
  {
  }

  lemma LiveBefore(cfg: Config, s: System, e: Event, d: Dispatch)
    requires Inv(cfg, s) && Enabled(s, e) && IsLive(Step(cfg, s, e), d)
    requires d.mission.id in Step(cfg, s, e).ledger
    requires Step(cfg, s, e).ledger[d.mission.id].status == CancelledByUser
    ensures IsLive(s, d) && d.mission.id in s.ledger
    ensures s.ledger[d.mission.id].status == CancelledByUser
      || (s.ledger[d.mission.id].status == Pending && e.what.Cancel?)
  {
    hide *;
    StatusMoves(cfg, s, e, d.mission.id);
    if e.what.Timer? {
      LiveBeforeTimer(cfg, s, e, d);
    } else if e.what.FleetSnapshot? {
      LiveBeforeSnapshot(cfg, s, e, d);
    } else {
      LiveBeforeOther(cfg, s, e, d);
    }
  }

  lemma LiveBeforeTimer(cfg: Config, s: System, e: Event, d: Dispatch)
    requires Inv(cfg, s) && e.what.Timer? && IsLive(Step(cfg, s, e), d)
    requires d.mission.id in Step(cfg, s, e).ledger
    requires Step(cfg, s, e).ledger[d.mission.id].status == CancelledByUser
    ensures IsLive(s, d) && d.mission.id in s.ledger && s.ledger[d.mission.id].status == CancelledByUser
  {
    hide Ticked, Lineage, ActiveTable, Ordered;
    TickShape(cfg, s.node, e.at, e.what.serviceReady);
    assert s.node.queue != [] ==> s.node.queue[0] in s.node.queue;
  }

  lemma LiveBeforeSnapshot(cfg: Config, s: System, e: Event, d: Dispatch)
    requires Inv(cfg, s) && Enabled(s, e) && e.what.FleetSnapshot? && IsLive(Step(cfg, s, e), d)
    requires d.mission.id in Step(cfg, s, e).ledger
    requires Step(cfg, s, e).ledger[d.mission.id].status == CancelledByUser
    ensures IsLive(s, d) && d.mission.id in s.ledger && s.ledger[d.mission.id].status == CancelledByUser
  {
    hide Settle, Settled, ReplaceAll, Failures, Snapshotted, Judge, Retries, Tables, Lineage;
    SnapshotKeepsTables(cfg, s.node, s.ledger, e.what.robots, e.at, e.what.walk);
    hide Slots;
    if d.mission.id in s.ledger {
      SnapshotMoves(cfg, s.node, s.ledger, e.what.robots, e.at, e.what.walk, d.mission.id);
    } else {
      SnapshotFresh(cfg, s, e);
    }
  }

  lemma LiveBeforeOther(cfg: Config, s: System, e: Event, d: Dispatch)
    requires Inv(cfg, s) && Enabled(s, e) && !e.what.Timer? && !e.what.FleetSnapshot? && IsLive(Step(cfg, s, e), d)
    requires d.mission.id in Step(cfg, s, e).ledger
    requires Step(cfg, s, e).ledger[d.mission.id].status == CancelledByUser
    ensures IsLive(s, d) && d.mission.id in s.ledger
    ensures s.ledger[d.mission.id].status == CancelledByUser
      || (s.ledger[d.mission.id].status == Pending && e.what.Cancel?)
  {
    hide Lineage, ActiveTable, QueueTable, StableSort, FindMission, Snapshot, Without;
  }

  /** A cancelled mission becomes active only through the request that was live when it was cancelled. */
  lemma OnlyLiveRequestsRevive(cfg: Config, es: seq<Event>, e: Event, id: nat) returns (k: nat)
    requires IsRun(cfg, es) && Enabled(Run(cfg, es), e)
    requires id in Run(cfg, es).ledger && Run(cfg, es).ledger[id].status == CancelledByUser
    requires id in Step(cfg, Run(cfg, es), e).ledger
    requires Step(cfg, Run(cfg, es), e).ledger[id].status != CancelledByUser
    ensures e.what.Answer? && e.what.reply == Accepted && e.what.dispatch.mission.id == id
    ensures k < |es| && es[k].what.Cancel?
    ensures CancelledAt(cfg, es, k, id)
    ensures IsLive(Run(cfg, es[..k]), e.what.dispatch)
  {
    var s := Run(cfg, es);
    InvariantHolds(cfg, es);
    OnlyAcceptRevives(cfg, s, e, id);
    k := CancelledWhileLive(cfg, es, e.what.dispatch);
  }

  lemma OnlyAcceptRevives(cfg: Config, s: System, e: Event, id: nat)
    requires Inv(cfg, s) && Enabled(s, e)
    requires id in s.ledger && s.ledger[id].status == CancelledByUser
    requires id in Step(cfg, s, e).ledger && Step(cfg, s, e).ledger[id].status != CancelledByUser
    ensures e.what.Answer? && e.what.reply == Accepted
    ensures e.what.dispatch.mission.id == id && IsLive(s, e.what.dispatch)
  {
    hide Lineage;
    if e.what.FleetSnapshot? {
      SnapshotMoves(cfg, s.node, s.ledger, e.what.robots, e.at, e.what.walk, id);
      hide Settle, Settled, ReplaceAll, Failures;
    }
  }
}
