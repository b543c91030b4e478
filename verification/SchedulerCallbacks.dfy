/** What the scheduler's callbacks do, told by the node's fields, the snapshot's lines and the parameters alone. */
module SchedulerCallbacks {
  import opened Common
  import opened MissionQueue
  import opened FleetState
  import opened MissionIds
  import opened SchedulerNode
  import opened SchedulerInvariant
  import opened SchedulerConservation

  /* Submissions and cancellations. */

  /**
   A request of one of the five kinds puts exactly one mission on the queue, as requested, with the next id, the next
   sequence number and no failed attempt; a request of any other kind changes nothing.
   */
  lemma SubmissionMeans(n: Node, kind: string, priority: int, target: Pose, hasTarget: bool)
    ensures
      var n2 := Submitted(n, kind, priority, target, hasTarget);
      if kind == "patrol" || kind == "go_to" || kind == "return_home" || kind == "charge" || kind == "inspect"
      then
        && multiset(n2.queue) == multiset(n.queue) + multiset{
             Mission(n.missionCounter + 1, kind, priority, n.nextSequence, target, hasTarget, 0)}
        && n2.missionCounter == n.missionCounter + 1 && n2.nextSequence == n.nextSequence + 1
        && |n2.published| == |n.published| + 1
      else n2 == n
  {
    hide *;
    EnqueueAddsOne(n, kind, priority, target, hasTarget, 0);
    SubmittedQueue(n, kind, priority, target, hasTarget);
  }

  lemma SubmittedQueue(n: Node, kind: string, priority: int, target: Pose, hasTarget: bool)
    ensures
      var n1, n2 := Enqueue(n, kind, priority, target, hasTarget, 0), Submitted(n, kind, priority, target, hasTarget);
      if kind == "patrol" || kind == "go_to" || kind == "return_home" || kind == "charge" || kind == "inspect"
      then
        && n2.queue == n1.queue && n2.missionCounter == n1.missionCounter && n2.nextSequence == n1.nextSequence
        && |n2.published| == |n1.published| + 1
      else n2 == n
  {
    hide Enqueue, Snapshot;
  }

  lemma EnqueueAddsOne(n: Node, kind: string, priority: int, target: Pose, hasTarget: bool, attempts: nat)
    ensures
      var n2 := Enqueue(n, kind, priority, target, hasTarget, attempts);
      && multiset(n2.queue) == multiset(n.queue) + multiset{
           Mission(n.missionCounter + 1, kind, priority, n.nextSequence, target, hasTarget, attempts)}
      && n2 == n.(queue := n2.queue, missionCounter := n.missionCounter + 1, nextSequence := n.nextSequence + 1)
  {
    hide StableSort, Sorted;
    StableSortSorts(
      n.queue + [Mission(n.missionCounter + 1, kind, priority, n.nextSequence, target, hasTarget, attempts)]);
  }

  /** A cancellation takes exactly one mission off the queue, the first one with that id text, if there is one. */
  lemma CancellationMeans(n: Node, text: string)
    ensures
      var n2 := Cancelled(n, text);
      if forall i :: 0 <= i < |n.queue| ==> IdText(n.queue[i].id) != text then n2 == n
      else
        && n2 == n.(queue := n2.queue, published := n2.published) && |n2.published| == |n.published| + 1
        && exists i :: 0 <= i < |n.queue| && IdText(n.queue[i].id) == text
                       && (forall j :: 0 <= j < i ==> IdText(n.queue[j].id) != text)
                       && n2.queue == n.queue[..i] + n.queue[i + 1..]
  {
    hide *;
    CancelledQueue(n, text);
    if i :| 0 <= i < |n.queue| && IdText(n.queue[i].id) == text {
      assert FindMission(n.queue, text).Some?;
    }
  }

  lemma CancelledQueue(n: Node, text: string)
    ensures
      var n2 := Cancelled(n, text);
      match FindMission(n.queue, text)
      case None => n2 == n
      case Some(i) =>
        && n2 == n.(queue := n.queue[..i] + n.queue[i + 1..], published := n2.published)
        && |n2.published| == |n.published| + 1
  {
    hide FindMission, Snapshot, IdText;
  }

  /* The published queue. */

  /** The last message lists the queue as it is, entry by entry. */
  lemma MessageMeans(n: Node)
    ensures
      var q, n2 := n.queue, Publish(n);
      var message := n2.published[|n2.published| - 1];
      && n2 == n.(published := n.published + [message])
      && message.count == |message.ids| == |message.kinds| == |message.priorities| == |q|
      && forall i :: 0 <= i < |q| ==>
           && message.ids[i] == IdText(q[i].id) && message.kinds[i] == q[i].kind
           && message.priorities[i] == q[i].priority
  {
    hide IdText;
  }

  /* Fleet snapshots. */

  /** The line that `find_if` returns is the first one about the robot. */
  lemma {:induction false} FirstEntryIsFirst(robots: seq<RobotState>, r: string) returns (i: nat)
    requires exists k :: 0 <= k < |robots| && robots[k].robotId == r
    ensures i < |robots| && robots[i].robotId == r && FirstEntry(robots, r) == Some(robots[i])
    ensures forall j :: 0 <= j < i ==> robots[j].robotId != r
  {
    if robots[0].robotId == r {
      i := 0;
    } else {
      var k :| 0 <= k < |robots| && robots[k].robotId == r;
      assert robots[1..][k - 1] == robots[k];
      i := FirstEntryIsFirst(robots[1..], r);
      i := i + 1;
    }
  }

  /**
   A snapshot keeps a lease, unchanged, if and only if every line about its robot says IDLE and none comes later than
   the lease lasts; it starts no lease.
   */
  lemma LeaseIsKeptIff(cfg: Config, n: Node, robots: seq<RobotState>, now: Time, walk: seq<string>, r: string)
    requires n.reserved == n.reservedAt.Keys
    ensures
      var n2 := Snapshotted(cfg, n, robots, now, walk);
      && (r in n2.reservedAt <==>
            && r in n.reservedAt
            && (forall i :: 0 <= i < |robots| && robots[i].robotId == r ==> robots[i].state == STATE_IDLE)
            && ((exists i :: 0 <= i < |robots| && robots[i].robotId == r) ==>
                  now - n.reservedAt[r] <= cfg.reservationTimeout))
      && (r in n2.reservedAt ==> n2.reservedAt[r] == n.reservedAt[r])
      && (r in n2.reserved <==> r in n2.reservedAt)
      && n2.latest == robots && n2.receivedFleetState
  {
    SnapshotShape(cfg, n, robots, now, walk);
    hide Snapshotted, Survivors;
  }

  /** The robot's line ends the mission: it failed, or was never seen to start, or has completed it. */
  predicate LineEnds(cfg: Config, line: RobotState, a: ActiveMission, now: Time) {
    LineFails(cfg, line, a, now) || LineCompletes(line, a)
  }

  /** Confirmed offline, in error, or idle for longer than the start timeout without ever having been seen at work. */
  predicate LineFails(cfg: Config, line: RobotState, a: ActiveMission, now: Time) {
    || line.confirmedOffline
    || line.state == STATE_ERROR
    || (line.state == STATE_IDLE && !a.confirmed && now - a.dispatchedAt > cfg.missionStartTimeout)
  }

  /** Idle again after having been seen at work. */
  predicate LineCompletes(line: RobotState, a: ActiveMission) {
    !line.confirmedOffline && line.state == STATE_IDLE && a.confirmed
  }

  /**
   A snapshot leaves a mission active if and only if it has no line about the robot or the first one does not end the
   mission; then nothing about the mission changes, but that a line other than IDLE confirms it.
   */
  lemma MissionStaysActiveIff(cfg: Config, n: Node, robots: seq<RobotState>, now: Time, walk: seq<string>, r: string)
    ensures
      var n2, line := Snapshotted(cfg, n, robots, now, walk), FirstEntry(robots, r);
      && (r in n2.active <==> r in n.active && (line.None? || !LineEnds(cfg, line.value, n.active[r], now)))
      && (r in n2.active ==>
            n2.active[r] == n.active[r].(
              confirmed := n.active[r].confirmed || (line.Some? && line.value.state != STATE_IDLE)))
  {
    SnapshotShape(cfg, n, robots, now, walk);
    hide Snapshotted, KeptLeases, FirstEntry;
  }

  /** The mission of robot `r` fails in this snapshot and has a try left. */
  predicate IsRetried(cfg: Config, n: Node, robots: seq<RobotState>, now: Time, r: string) {
    && r in n.active && FirstEntry(robots, r).Some?
    && LineFails(cfg, FirstEntry(robots, r).value, n.active[r], now)
    && n.active[r].attempts + 1 < AttemptLimit(cfg)
  }

  /** A fresh mission that asks for what the failed one asked for, with one more failed attempt. */
  predicate Repeats(m: Mission, a: ActiveMission, counter: nat) {
    && m.id > counter
    && m.kind == a.kind && m.priority == a.priority && m.target == a.target && m.hasTarget == a.hasTarget
    && m.attempts == a.attempts + 1
  }

  /** Queueing a failed mission again puts exactly one mission on the queue, with the failed one's whole request. */
  lemma RequeueMeans(cfg: Config, n: Node, a: ActiveMission)
    ensures
      var n2 := Requeue(cfg, n, a);
      if a.attempts + 1 < AttemptLimit(cfg)
      then
        && multiset(n2.queue) == multiset(n.queue) + multiset{
             Mission(n.missionCounter + 1, a.kind, a.priority, n.nextSequence, a.target, a.hasTarget, a.attempts + 1)}
        && n2.missionCounter == n.missionCounter + 1 && n2.nextSequence == n.nextSequence + 1
      else n2 == n
  {
    hide Enqueue;
    EnqueueAddsOne(n, a.kind, a.priority, a.target, a.hasTarget, a.attempts + 1);
  }

  lemma RequeueMembers(cfg: Config, n: Node, a: ActiveMission)
    ensures
      var n2 := Requeue(cfg, n, a);
      && n2.missionCounter >= n.missionCounter
      && (forall m :: m in n.queue ==> m in n2.queue)
      && (forall m :: m in n2.queue ==>
            m in n.queue || (a.attempts + 1 < AttemptLimit(cfg) && Repeats(m, a, n.missionCounter)))
      && (a.attempts + 1 < AttemptLimit(cfg) ==> exists m :: m in n2.queue && Repeats(m, a, n.missionCounter))
  {
    RequeueMeans(cfg, n, a);
    var n2 := Requeue(cfg, n, a);
    hide Requeue;
    var m := Mission(n.missionCounter + 1, a.kind, a.priority, n.nextSequence, a.target, a.hasTarget, a.attempts + 1);
    assert forall x :: x in n2.queue <==> x in multiset(n2.queue);
    assert forall x :: x in n.queue <==> x in multiset(n.queue);
    if a.attempts + 1 < AttemptLimit(cfg) {
      assert m in multiset(n2.queue) && Repeats(m, a, n.missionCounter);
    }
  }

  lemma {:induction false} RequeueAllMembers(cfg: Config, n: Node, failed: seq<ActiveMission>)
    ensures
      var n2 := RequeueAll(cfg, n, failed);
      && (forall m :: m in n.queue ==> m in n2.queue)
      && (forall m :: m in n2.queue ==>
            m in n.queue
            || exists a :: a in failed && a.attempts + 1 < AttemptLimit(cfg) && Repeats(m, a, n.missionCounter))
      && (forall a :: a in failed && a.attempts + 1 < AttemptLimit(cfg) ==>
            exists m :: m in n2.queue && Repeats(m, a, n.missionCounter))
    decreases |failed|
  {
    if failed != [] {
      var n1 := Requeue(cfg, n, failed[0]);
      RequeueMembers(cfg, n, failed[0]);
      RequeueAllMembers(cfg, n1, failed[1..]);
      hide Requeue, AttemptLimit;
      assert failed == [failed[0]] + failed[1..];
      var n2 := RequeueAll(cfg, n, failed);
      forall a | a in failed && a.attempts + 1 < AttemptLimit(cfg)
        ensures exists m :: m in n2.queue && Repeats(m, a, n.missionCounter)
      {
        if a == failed[0] {
          var m :| m in n1.queue && Repeats(m, a, n.missionCounter);
          assert m in n2.queue;
        } else {
          var m :| m in n2.queue && Repeats(m, a, n1.missionCounter);
          assert Repeats(m, a, n.missionCounter);
        }
      }
    }
  }

  lemma FailsIff(cfg: Config, robots: seq<RobotState>, r: string, a: ActiveMission, now: Time)
    ensures Judge(cfg, robots, r, a, now) == Failed <==>
            FirstEntry(robots, r).Some? && LineFails(cfg, FirstEntry(robots, r).value, a, now)
  {
    hide FirstEntry;
  }

  lemma RetriedAreListed(cfg: Config, n: Node, robots: seq<RobotState>, now: Time, walk: seq<string>, r: string)
    requires Enumerates(walk, n.active.Keys) && IsRetried(cfg, n, robots, now, r)
    ensures n.active[r] in Failures(cfg, n.active, robots, now, walk)
  {
    FailsIff(cfg, robots, r, n.active[r], now);
    var i := FailureIsListed(cfg, n, robots, now, walk, r);
  }

  lemma ListedAreRetried(
    cfg: Config, n: Node, robots: seq<RobotState>, now: Time, walk: seq<string>, a: ActiveMission) returns (r: string)
    requires a in Failures(cfg, n.active, robots, now, walk) && a.attempts + 1 < AttemptLimit(cfg)
    ensures r in n.active && IsRetried(cfg, n, robots, now, r) && n.active[r] == a
  {
    var failed := Failures(cfg, n.active, robots, now, walk);
    var k :| 0 <= k < |failed| && failed[k] == a;
    r := FailuresAreListed(cfg, n, robots, now, walk, k);
    FailsIff(cfg, robots, r, a, now);
  }

  lemma SnapshotQueue(cfg: Config, n: Node, robots: seq<RobotState>, now: Time, walk: seq<string>)
    ensures Snapshotted(cfg, n, robots, now, walk).queue ==
            RequeueAll(cfg, Settled(cfg, n, robots, now), Failures(cfg, n.active, robots, now, walk)).queue
    ensures Settled(cfg, n, robots, now).queue == n.queue
    ensures Settled(cfg, n, robots, now).missionCounter == n.missionCounter
  {
    hide RequeueAll, Failures, Survivors, KeptLeases, Snapshot;
  }

  /**
   A snapshot takes nothing off the queue; it adds, for every active mission that fails in it with a try left, a fresh
   one that repeats it, and nothing else.
   */
  lemma RetriesAreQueued(cfg: Config, n: Node, robots: seq<RobotState>, now: Time, walk: seq<string>)
    requires Enumerates(walk, n.active.Keys)
    ensures
      var n2 := Snapshotted(cfg, n, robots, now, walk);
      && (forall m :: m in n.queue ==> m in n2.queue)
      && (forall m :: m in n2.queue ==>
            m in n.queue
            || exists r ::
                 r in n.active && IsRetried(cfg, n, robots, now, r) && Repeats(m, n.active[r], n.missionCounter))
      && (forall r :: r in n.active && IsRetried(cfg, n, robots, now, r) ==>
            exists m :: m in n2.queue && Repeats(m, n.active[r], n.missionCounter))
  {
    var n2, failed := Snapshotted(cfg, n, robots, now, walk), Failures(cfg, n.active, robots, now, walk);
    SnapshotQueue(cfg, n, robots, now, walk);
    RequeueAllMembers(cfg, Settled(cfg, n, robots, now), failed);
    hide *;
    forall m | m in n2.queue && m !in n.queue
      ensures exists r ::
        r in n.active && IsRetried(cfg, n, robots, now, r) && Repeats(m, n.active[r], n.missionCounter)
    {
      var a :| a in failed && a.attempts + 1 < AttemptLimit(cfg) && Repeats(m, a, n.missionCounter);
      var r := ListedAreRetried(cfg, n, robots, now, walk, a);
    }
    forall r | IsRetried(cfg, n, robots, now, r)
      ensures r in n.active && exists m :: m in n2.queue && Repeats(m, n.active[r], n.missionCounter)
    {
      RetriedHasTry(cfg, n, robots, now, r);
      RetriedAreListed(cfg, n, robots, now, walk, r);
    }
  }

  lemma RetriedHasTry(cfg: Config, n: Node, robots: seq<RobotState>, now: Time, r: string)
    requires IsRetried(cfg, n, robots, now, r)
    ensures r in n.active && n.active[r].attempts + 1 < AttemptLimit(cfg)
  {
  }

  /** A snapshot publishes the queue, once, if and only if some mission fails in it. */
  lemma SnapshotPublishesIff(cfg: Config, n: Node, robots: seq<RobotState>, now: Time, walk: seq<string>)
    requires Enumerates(walk, n.active.Keys)
    ensures
      var n2 := Snapshotted(cfg, n, robots, now, walk);
      |n2.published| == |n.published| +
        if exists r :: r in n.active && FirstEntry(robots, r).Some?
                       && LineFails(cfg, FirstEntry(robots, r).value, n.active[r], now)
        then 1 else 0
  {
    var failed := Failures(cfg, n.active, robots, now, walk);
    RequeueAllShape(cfg, Settled(cfg, n, robots, now), failed);
    if failed != [] {
      var r := FailuresAreListed(cfg, n, robots, now, walk, 0);
      FailsIff(cfg, robots, r, n.active[r], now);
    }
    if r :| r in n.active && FirstEntry(robots, r).Some?
            && LineFails(cfg, FirstEntry(robots, r).value, n.active[r], now) {
      FailsIff(cfg, robots, r, n.active[r], now);
      var i := FailureIsListed(cfg, n, robots, now, walk, r);
    }
    hide RequeueAll, Failures, Survivors, KeptLeases, Snapshot, FirstEntry, LineFails, Judge;
  }
}
