/** Retries run out: a potential that every failure and every completion lowers. */
module SchedulerProgress {
  import opened Common
  import opened MissionQueue
  import opened FleetState
  import opened SchedulerNode
  import opened SchedulerSystem
  import opened SchedulerInvariant
  import opened SchedulerConservation

  /** The ids that a live request can still make active. */
  ghost function Revivable(s: System): set<nat> {
    set d | d in s.outstanding && IsLive(s, d) :: d.mission.id
  }

  /** The tries that `id` has left; `extra` holds ids that count although they are not pending or active. */
  function Weight(cfg: Config, l: Ledger, extra: set<nat>, id: nat): nat {
    if id in l && (l[id].status.Pending? || l[id].status.Active? || id in extra)
    then Max(0, AttemptBound(cfg) - l[id].attempts) else 0
  }

  function Total(cfg: Config, l: Ledger, extra: set<nat>, k: nat): nat {
    if k == 0 then 0 else Total(cfg, l, extra, k - 1) + Weight(cfg, l, extra, k)
  }

  /** The tries left in the whole system. */
  ghost function Potential(cfg: Config, s: System): nat {
    Total(cfg, s.ledger, Revivable(s), s.node.missionCounter)
  }

  /** If no weight grows and the one at `j` falls by `drop`, the total falls by at least `drop`. */
  lemma {:induction false} TotalFalls(
    cfg: Config, l: Ledger, x: set<nat>, l2: Ledger, x2: set<nat>, k: nat, j: nat, drop: nat)
    requires 1 <= j <= k
    requires forall id :: 1 <= id <= k ==> Weight(cfg, l2, x2, id) <= Weight(cfg, l, x, id)
    requires Weight(cfg, l2, x2, j) + drop <= Weight(cfg, l, x, j)
    ensures Total(cfg, l2, x2, k) + drop <= Total(cfg, l, x, k)
  {
    if k > j {
      TotalFalls(cfg, l, x, l2, x2, k - 1, j, drop);
    } else if k > 1 {
      assert Weight(cfg, l2, x2, 1) <= Weight(cfg, l, x, 1);
      TotalFalls(cfg, l, x, l2, x2, k - 1, 1, 0);
    } else {
      assert Total(cfg, l, x, 0) == Total(cfg, l2, x2, 0);
    }
  }

  lemma TotalNoRise(cfg: Config, l: Ledger, x: set<nat>, l2: Ledger, x2: set<nat>, k: nat)
    requires forall id :: 1 <= id <= k ==> Weight(cfg, l2, x2, id) <= Weight(cfg, l, x, id)
    ensures Total(cfg, l2, x2, k) <= Total(cfg, l, x, k)
  {
    if k > 0 {
      TotalFalls(cfg, l, x, l2, x2, k, 1, 0);
    }
  }

  function FailedIds(failed: seq<ActiveMission>): set<nat> {
    set a | a in failed :: a.id
  }

  lemma HeadIsGone(failed: seq<ActiveMission>, l: Ledger)
    requires AwaitRequeue(failed, l) && failed != []
    ensures failed[0].id !in FailedIds(failed[1..])
  {
    forall b | b in failed[1..] ensures b.id != failed[0].id {
      var i :| 0 <= i < |failed[1..]| && failed[1..][i] == b;
      assert failed[i + 1] == b;
    }
  }

  lemma ReplaceLowersTotal(
    cfg: Config, l: Ledger, n: Node, x: set<nat>, failed: seq<ActiveMission>)
    requires Tables(n, l) && Lineage(cfg, l) && AwaitRequeue(failed, l) && failed != []
    requires forall id :: id in x ==> id in l && l[id].status != Dropped
    ensures
      var n1, l1 := Requeue(cfg, n, failed[0]), Replace(cfg, l, n, failed[0]);
      Total(cfg, l1, x + FailedIds(failed[1..]), n1.missionCounter)
        < Total(cfg, l, x + FailedIds(failed), n.missionCounter)
  {
    hide Tables, Lineage, StableSort, Linked, AttemptBound;
    var a := failed[0];
    var n1, l1 := Requeue(cfg, n, a), Replace(cfg, l, n, a);
    var x0, x1 := x + FailedIds(failed), x + FailedIds(failed[1..]);
    HeadIsIssued(cfg, l, n, a.id);
    HeadIsGone(failed, l);
    assert a in failed && x1 <= x0;
    hide AwaitRequeue;
    WeightMoves(cfg, l, n, x0, x1, a);
    hide Requeue, Replace, Weight, FailedIds, Retries;
    TotalFalls(cfg, l, x0, l1, x1, n.missionCounter, a.id, AttemptBound(cfg) - a.attempts);
  }

  /** Queueing a failed mission again moves its tries to the fresh id, all but one. */
  lemma WeightMoves(cfg: Config, l: Ledger, n: Node, x0: set<nat>, x1: set<nat>, a: ActiveMission)
    requires a.id in l && 1 <= a.id <= n.missionCounter && n.missionCounter + 1 !in l
    requires l[a.id].status == Dropped && l[a.id].attempts == a.attempts < AttemptBound(cfg)
    requires x1 <= x0 && a.id in x0 && a.id !in x1
    ensures
      var n1, l1, left := Requeue(cfg, n, a), Replace(cfg, l, n, a), AttemptBound(cfg) - a.attempts;
      && (forall id :: 1 <= id <= n.missionCounter ==> Weight(cfg, l1, x1, id) <= Weight(cfg, l, x0, id))
      && Weight(cfg, l1, x1, a.id) + left <= Weight(cfg, l, x0, a.id)
      && (n1.missionCounter == n.missionCounter
          || (n1.missionCounter == n.missionCounter + 1 && Weight(cfg, l1, x1, n1.missionCounter) < left))
  {
    hide StableSort, AttemptBound;
  }

  lemma HeadIsIssued(cfg: Config, l: Ledger, n: Node, id: nat)
    requires Tables(n, l) && Lineage(cfg, l) && id in l
    ensures 1 <= id <= n.missionCounter && n.missionCounter + 1 !in l && l[id].attempts < AttemptBound(cfg)
  {
    assert Linked(cfg, l, id);
  }

  lemma {:induction false} ReplaceAllLowersTotal(
    cfg: Config, l: Ledger, n: Node, x: set<nat>, failed: seq<ActiveMission>)
    requires Tables(n, l) && Lineage(cfg, l) && AwaitRequeue(failed, l)
    requires forall id :: id in x ==> id in l && l[id].status != Dropped
    ensures
      var n2, l2 := RequeueAll(cfg, n, failed), ReplaceAll(cfg, l, n, failed);
      Total(cfg, l2, x, n2.missionCounter) + |failed| <= Total(cfg, l, x + FailedIds(failed), n.missionCounter)
    decreases |failed|
  {
    if failed == [] {
      assert x + FailedIds(failed) == x;
    } else {
      var n1, l1 := Requeue(cfg, n, failed[0]), Replace(cfg, l, n, failed[0]);
      ReplaceLowersTotal(cfg, l, n, x, failed);
      ReplaceKeepsTables(cfg, n, l, failed[0]);
      assert RequeueFrame(n, l, n1, l1);
      AwaitTheRest(failed, l, l1);
      hide Tables, Lineage, AwaitRequeue, Requeue, Replace;
      ReplaceAllLowersTotal(cfg, l1, n1, x, failed[1..]);
    }
  }

  lemma RevivableStatus(cfg: Config, s: System)
    requires Inv(cfg, s)
    ensures forall id :: id in Revivable(s) ==>
      id in s.ledger && (s.ledger[id].status == Pending || s.ledger[id].status == CancelledByUser)
  {
  }

  /** A mission stops being active in this step: it completes, fails or is overwritten. */
  ghost predicate Ends(s: System, s2: System) {
    exists id :: id in s.ledger && id in s2.ledger && s.ledger[id].status.Active? && !s2.ledger[id].status.Active?
  }

  predicate IsSubmission(e: Event) {
    (e.what.Submit? && e.what.kind in SUPPORTED_KINDS) || e.what.RecurringPatrol? || e.what.PatrolRequest?
  }

  lemma FailuresWereActive(cfg: Config, s: System, robots: seq<RobotState>, now: Time, walk: seq<string>)
    requires Inv(cfg, s) && Enumerates(walk, s.node.active.Keys)
    ensures forall id :: id in FailedIds(Failures(cfg, s.node.active, robots, now, walk)) ==>
      && id in s.ledger && s.ledger[id].status.Active?
      && Settle(cfg, s.ledger, s.node, robots, now)[id].status == Dropped
  {
    var failed := Failures(cfg, s.node.active, robots, now, walk);
    FailuresAreDistinct(cfg, s.node, s.ledger, robots, now, walk);
    forall a | a in failed ensures a.id in s.ledger && s.ledger[a.id].status.Active? {
      var i :| 0 <= i < |failed| && failed[i] == a;
      var r := FailuresAreListed(cfg, s.node, robots, now, walk, i);
    }
    hide Inv, Failures, Settle;
  }

  lemma SettleOnlyEnds(cfg: Config, l: Ledger, n: Node, robots: seq<RobotState>, now: Time)
    ensures
      var l1 := Settle(cfg, l, n, robots, now);
      l1.Keys == l.Keys && forall id :: id in l ==>
        l1[id] == l[id]
        || (l[id].status.Active? && (l1[id] == l[id].(status := Done) || l1[id] == l[id].(status := Dropped)))
  {
    hide Judge;
  }

  lemma TriesAreLeft(cfg: Config, s: System)
    requires Inv(cfg, s)
    ensures forall id :: id in s.ledger ==> s.ledger[id].attempts < AttemptBound(cfg)
  {
    forall id | id in s.ledger ensures s.ledger[id].attempts < AttemptBound(cfg) {
      assert Linked(cfg, s.ledger, id);
    }
  }

  lemma SettleLowersTotal(cfg: Config, s: System, robots: seq<RobotState>, now: Time, walk: seq<string>)
    requires Inv(cfg, s) && Enumerates(walk, s.node.active.Keys)
    ensures
      var l1 := Settle(cfg, s.ledger, s.node, robots, now);
      var failed := Failures(cfg, s.node.active, robots, now, walk);
      var x := Revivable(s);
      && (forall id :: 1 <= id <= s.node.missionCounter ==>
            Weight(cfg, l1, x + FailedIds(failed), id) <= Weight(cfg, s.ledger, x, id))
      && (forall id :: id in s.ledger && s.ledger[id].status.Active? && l1[id].status == Done ==>
            Weight(cfg, l1, x + FailedIds(failed), id) + 1 <= Weight(cfg, s.ledger, x, id))
  {
    hide Inv, Failures, Settle, Enumerates, FailedIds, Revivable, AttemptBound;
    RevivableStatus(cfg, s);
    FailuresWereActive(cfg, s, robots, now, walk);
    SettleOnlyEnds(cfg, s.ledger, s.node, robots, now);
    TriesAreLeft(cfg, s);
  }

  lemma RequeueLowersTotal(cfg: Config, s: System, e: Event)
    requires Inv(cfg, s) && Enabled(s, e) && e.what.FleetSnapshot?
    ensures
      var failed := Failures(cfg, s.node.active, e.what.robots, e.at, e.what.walk);
      var l1 := Settle(cfg, s.ledger, s.node, e.what.robots, e.at);
      Potential(cfg, Step(cfg, s, e)) + |failed|
        <= Total(cfg, l1, Revivable(s) + FailedIds(failed), s.node.missionCounter)
  {
    var robots, walk, n := e.what.robots, e.what.walk, s.node;
    var n1, l1 := Settled(cfg, n, robots, e.at), Settle(cfg, s.ledger, n, robots, e.at);
    var failed := Failures(cfg, n.active, robots, e.at, walk);
    SettleKeepsTables(cfg, n, s.ledger, robots, e.at);
    SettleKeepsLineage(cfg, n, s.ledger, robots, e.at);
    FailuresAreDistinct(cfg, n, s.ledger, robots, e.at, walk);
    RevivableStatus(cfg, s);
    SettleFrame(cfg, n, s.ledger, robots, e.at);
    ReplaceAllLowersTotal(cfg, l1, n1, Revivable(s), failed);
    SnapshotKeepsTables(cfg, n, s.ledger, robots, e.at, walk);
    hide Inv, Tables, Lineage, Settle, AwaitRequeue, RequeueAll, ReplaceAll, Failures, Total;
    assert forall d :: IsLive(Step(cfg, s, e), d) <==> IsLive(s, d);
    assert Revivable(Step(cfg, s, e)) == Revivable(s);
  }

  lemma EndingLowersTotal(cfg: Config, s: System, e: Event, id: nat)
    requires Inv(cfg, s) && Enabled(s, e) && e.what.FleetSnapshot?
    requires id in s.ledger && s.ledger[id].status.Active?
    requires Judge(
      cfg, e.what.robots, s.ledger[id].status.robotId, s.node.active[s.ledger[id].status.robotId], e.at)
      in {Completed, Failed}
    ensures
      var failed := Failures(cfg, s.node.active, e.what.robots, e.at, e.what.walk);
      var l1 := Settle(cfg, s.ledger, s.node, e.what.robots, e.at);
      failed != []
      || Total(cfg, l1, Revivable(s) + FailedIds(failed), s.node.missionCounter) + 1
           <= Total(cfg, s.ledger, Revivable(s), s.node.missionCounter)
  {
    var failed := Failures(cfg, s.node.active, e.what.robots, e.at, e.what.walk);
    var l1 := Settle(cfg, s.ledger, s.node, e.what.robots, e.at);
    SettleLowersTotal(cfg, s, e.what.robots, e.at, e.what.walk);
    EndingIsCounted(cfg, s, e.what.robots, e.at, e.what.walk, id);
    hide *;
    if failed == [] {
      TotalFalls(
        cfg, s.ledger, Revivable(s), l1, Revivable(s) + FailedIds(failed), s.node.missionCounter, id, 1);
    }
  }

  lemma SnapshotLowersPotential(cfg: Config, s: System, e: Event)
    requires Inv(cfg, s) && Enabled(s, e) && e.what.FleetSnapshot?
    ensures Potential(cfg, Step(cfg, s, e)) <= Potential(cfg, s)
    ensures Ends(s, Step(cfg, s, e)) ==> Potential(cfg, Step(cfg, s, e)) < Potential(cfg, s)
  {
    var robots, walk, n := e.what.robots, e.what.walk, s.node;
    var failed := Failures(cfg, n.active, robots, e.at, walk);
    var s2 := Step(cfg, s, e);
    SettleLowersTotal(cfg, s, robots, e.at, walk);
    RequeueLowersTotal(cfg, s, e);
    TotalNoRise(
      cfg, s.ledger, Revivable(s), Settle(cfg, s.ledger, n, robots, e.at), Revivable(s) + FailedIds(failed),
      n.missionCounter);
    if Ends(s, s2) {
      var id :| id in s.ledger && id in s2.ledger && s.ledger[id].status.Active? && !s2.ledger[id].status.Active?;
      EndingIsJudged(cfg, s, e, id);
      EndingLowersTotal(cfg, s, e, id);
    }
    hide Inv, Step, Settle, Failures, Total, Ends, FailedIds, Revivable, Judge, Weight;
  }

  lemma EndingIsJudged(cfg: Config, s: System, e: Event, id: nat)
    requires Inv(cfg, s) && Enabled(s, e) && e.what.FleetSnapshot?
    requires id in s.ledger && s.ledger[id].status.Active?
    requires id in Step(cfg, s, e).ledger && !Step(cfg, s, e).ledger[id].status.Active?
    ensures s.ledger[id].status.robotId in s.node.active
    ensures Judge(
      cfg, e.what.robots, s.ledger[id].status.robotId, s.node.active[s.ledger[id].status.robotId], e.at)
      in {Completed, Failed}
  {
    SnapshotMoves(cfg, s.node, s.ledger, e.what.robots, e.at, e.what.walk, id);
    hide Settle, Settled, ReplaceAll, Failures, Judge;
  }

  lemma EndingIsCounted(
    cfg: Config, s: System, robots: seq<RobotState>, now: Time, walk: seq<string>, id: nat)
    requires Inv(cfg, s) && Enumerates(walk, s.node.active.Keys)
    requires id in s.ledger && s.ledger[id].status.Active?
    requires Judge(cfg, robots, s.ledger[id].status.robotId, s.node.active[s.ledger[id].status.robotId], now)
      in {Completed, Failed}
    ensures 1 <= id <= s.node.missionCounter
    ensures Failures(cfg, s.node.active, robots, now, walk) != []
      || Settle(cfg, s.ledger, s.node, robots, now)[id].status == Done
  {
    var r := s.ledger[id].status.robotId;
    if Judge(cfg, robots, r, s.node.active[r], now) == Failed {
      var i := FailureIsListed(cfg, s.node, robots, now, walk, r);
    }
  }

  lemma StaleAnswerLowersPotential(cfg: Config, s: System, e: Event)
    requires e.what.Answer? && e.what.dispatch.generation != s.node.generation
    ensures Potential(cfg, Step(cfg, s, e)) == Potential(cfg, s) && !Ends(s, Step(cfg, s, e))
  {
    var s2 := Step(cfg, s, e);
    assert forall y :: IsLive(s2, y) <==> IsLive(s, y);
    assert Revivable(s2) == Revivable(s);
    hide Total;
  }

  /** Once the live request is answered, nothing can be revived; its mission counts as active if it was accepted. */
  lemma LiveAnswer(cfg: Config, s: System, e: Event)
    requires Inv(cfg, s) && Enabled(s, e) && e.what.Answer? && IsLive(s, e.what.dispatch)
    ensures
      var s2 := Step(cfg, s, e);
      && Revivable(s2) == {} && e.what.dispatch.mission.id in Revivable(s)
      && s2.node.missionCounter == s.node.missionCounter && s2.ledger.Keys == s.ledger.Keys
      && forall id :: id in s.ledger ==>
           && 1 <= id <= s.node.missionCounter && s.ledger[id].attempts < AttemptBound(cfg)
           && s2.ledger[id].attempts == s.ledger[id].attempts
           && (s2.ledger[id].status == s.ledger[id].status || s2.ledger[id].status == Overwritten
               || (id == e.what.dispatch.mission.id && s2.ledger[id].status.Active?))
  {
    var s2, d := Step(cfg, s, e), e.what.dispatch;
    assert d.mission.id in Revivable(s);
    assert forall y :: !IsLive(s2, y);
    assert Revivable(s2) == {};
    forall id | id in s.ledger ensures 1 <= id <= s.node.missionCounter && s.ledger[id].attempts < AttemptBound(cfg) {
      assert Linked(cfg, s.ledger, id);
    }
    hide Lineage, QueueTable, ActiveTable, AttemptBound, Without;
  }

  lemma AnswerLowersPotential(cfg: Config, s: System, e: Event)
    requires Inv(cfg, s) && Enabled(s, e) && e.what.Answer?
    ensures Potential(cfg, Step(cfg, s, e)) <= Potential(cfg, s)
    ensures Ends(s, Step(cfg, s, e)) ==> Potential(cfg, Step(cfg, s, e)) < Potential(cfg, s)
  {
    hide Inv, Step, Revivable, Total, AttemptBound;
    if e.what.dispatch.generation != s.node.generation {
      StaleAnswerLowersPotential(cfg, s, e);
    } else {
      LiveAnswer(cfg, s, e);
      var s2, c := Step(cfg, s, e), s.node.missionCounter;
      TotalNoRise(cfg, s.ledger, Revivable(s), s2.ledger, Revivable(s2), c);
      if Ends(s, s2) {
        var id :| id in s.ledger && id in s2.ledger && s.ledger[id].status.Active? && !s2.ledger[id].status.Active?;
        TotalFalls(cfg, s.ledger, Revivable(s), s2.ledger, Revivable(s2), c, id, 1);
      }
    }
  }

  /** A step that leaves statuses alone but for pending missions being cancelled, and revives no further id. */
  lemma QuietLowersPotential(cfg: Config, s: System, s2: System)
    requires s2.node.missionCounter == s.node.missionCounter && s2.ledger.Keys == s.ledger.Keys
    requires forall id :: id in s.ledger ==>
      s2.ledger[id] == s.ledger[id]
      || (s.ledger[id].status == Pending && s2.ledger[id] == s.ledger[id].(status := CancelledByUser))
    requires forall id :: id in Revivable(s2) ==>
      id in Revivable(s) || (id in s.ledger && s.ledger[id].status == Pending)
    ensures Potential(cfg, s2) <= Potential(cfg, s) && !Ends(s, s2)
  {
    TotalNoRise(cfg, s.ledger, Revivable(s), s2.ledger, Revivable(s2), s.node.missionCounter);
  }

  lemma TimerLowersPotential(cfg: Config, s: System, e: Event)
    requires Inv(cfg, s) && Enabled(s, e) && e.what.Timer?
    ensures Potential(cfg, Step(cfg, s, e)) <= Potential(cfg, s) && !Ends(s, Step(cfg, s, e))
  {
    TickShape(cfg, s.node, e.at, e.what.serviceReady);
    assert s.node.queue != [] ==> s.node.queue[0] in s.node.queue;
    hide Ticked, Lineage, ActiveTable, Potential, Ends;
    QuietLowersPotential(cfg, s, Step(cfg, s, e));
  }

  /** A cancellation turns at most one pending id into a cancelled one. */
  lemma CancelEffect(cfg: Config, s: System, e: Event)
    requires Inv(cfg, s) && e.what.Cancel?
    ensures
      var l2 := Step(cfg, s, e).ledger;
      l2.Keys == s.ledger.Keys && forall id :: id in s.ledger ==>
        l2[id] == s.ledger[id]
        || (s.ledger[id].status == Pending && l2[id] == s.ledger[id].(status := CancelledByUser))
  {
    hide FindMission, NodeAfter, OutstandingAfter, Lineage, ActiveTable, Slots, Ordered;
    assert forall m :: m in s.node.queue ==> m.id in s.ledger && s.ledger[m.id].status == Pending;
  }

  lemma CancelLowersPotential(cfg: Config, s: System, e: Event)
    requires Inv(cfg, s) && e.what.Cancel?
    ensures Potential(cfg, Step(cfg, s, e)) <= Potential(cfg, s) && !Ends(s, Step(cfg, s, e))
  {
    hide Inv, Potential, Ends, Cancelled, LedgerAfter;
    var s2 := Step(cfg, s, e);
    CancelEffect(cfg, s, e);
    CancelledShape(s.node, e.what.text);
    assert forall d :: IsLive(s2, d) <==> IsLive(s, d);
    assert Revivable(s2) == Revivable(s);
    QuietLowersPotential(cfg, s, s2);
  }

  lemma IdleLowersPotential(cfg: Config, s: System, e: Event)
    requires e.what.SystemReady? || (e.what.Submit? && !IsSubmission(e))
    ensures Potential(cfg, Step(cfg, s, e)) <= Potential(cfg, s) && !Ends(s, Step(cfg, s, e))
  {
    assert forall d :: IsLive(Step(cfg, s, e), d) <==> IsLive(s, d);
    QuietLowersPotential(cfg, s, Step(cfg, s, e));
  }

  /** Without a new submission the tries left never grow, and a mission that ends uses one up for good. */
  lemma PotentialFalls(cfg: Config, s: System, e: Event)
    requires Inv(cfg, s) && Enabled(s, e) && !IsSubmission(e)
    ensures Potential(cfg, Step(cfg, s, e)) <= Potential(cfg, s)
    ensures Ends(s, Step(cfg, s, e)) ==> Potential(cfg, Step(cfg, s, e)) < Potential(cfg, s)
  {
    hide Inv, Potential, Ends, Revivable;
    match e.what {
      case FleetSnapshot(_, _) => SnapshotLowersPotential(cfg, s, e);
      case Answer(_, _) => AnswerLowersPotential(cfg, s, e);
      case Timer(_) => TimerLowersPotential(cfg, s, e);
      case Cancel(_) => CancelLowersPotential(cfg, s, e);
      case SystemReady(_) => IdleLowersPotential(cfg, s, e);
      case Submit(_, _, _, _) => IdleLowersPotential(cfg, s, e);
      case RecurringPatrol =>
      case PatrolRequest =>
    }
  }

  /** A submission adds at most max(1, limit) tries, and nothing ends in that step. */
  lemma SubmissionRaises(cfg: Config, s: System, e: Event)
    requires Inv(cfg, s) && IsSubmission(e)
    ensures Potential(cfg, Step(cfg, s, e)) <= Potential(cfg, s) + AttemptBound(cfg)
    ensures !Ends(s, Step(cfg, s, e))
  {
    hide StableSort, Snapshot, Lineage, QueueTable, ActiveTable, Slots, AttemptBound;
    var s2 := Step(cfg, s, e);
    assert forall d :: IsLive(s2, d) <==> IsLive(s, d);
    assert Revivable(s2) == Revivable(s);
    assert s.node.missionCounter + 1 !in s.ledger;
    TotalNoRise(cfg, s.ledger, Revivable(s), s2.ledger, Revivable(s), s.node.missionCounter);
  }

  ghost function Endings(cfg: Config, es: seq<Event>): nat {
    if es == [] then 0
    else
      Endings(cfg, es[..|es| - 1])
      + if Ends(Run(cfg, es[..|es| - 1]), Run(cfg, es)) then 1 else 0
  }

  function Submissions(es: seq<Event>): nat {
    if es == [] then 0
    else Submissions(es[..|es| - 1]) + if IsSubmission(es[|es| - 1]) then 1 else 0
  }

  /** Over any run: steps in which a mission ends, plus tries left, never exceed max(1, limit) per submission. */
  lemma {:induction false} RetriesRunOut(cfg: Config, es: seq<Event>)
    requires IsRun(cfg, es)
    ensures Endings(cfg, es) + Potential(cfg, Run(cfg, es)) <= AttemptBound(cfg) * Submissions(es)
  {
    if es != [] {
      var pre, e := es[..|es| - 1], es[|es| - 1];
      LastStep(cfg, es);
      hide Inv, Potential, Ends, IsSubmission, Step, AttemptBound, Run, IsRun;
      RetriesRunOut(cfg, pre);
      InvariantHolds(cfg, pre);
      assert AttemptBound(cfg) * (Submissions(pre) + 1) == AttemptBound(cfg) * Submissions(pre) + AttemptBound(cfg);
      if IsSubmission(e) {
        SubmissionRaises(cfg, Run(cfg, pre), e);
      } else {
        PotentialFalls(cfg, Run(cfg, pre), e);
      }
    }
  }
}
