/** Every outcome of a mission is justified by what happened earlier in the run. */
module SchedulerHistory {
  import opened FleetState
  import opened SchedulerNode
  import opened SchedulerSystem
  import opened SchedulerInvariant
  import opened SchedulerConservation

  /** Step `k` of the run is the acceptance that made mission `id` active on robot `r`. */
  ghost predicate AcceptedAt(cfg: Config, es: seq<Event>, k: nat, r: string, id: nat) {
    && k < |es|
    && es[k].what.Answer? && es[k].what.reply == Accepted
    && es[k].what.dispatch.robotId == r && es[k].what.dispatch.mission.id == id
    && IsLive(Run(cfg, es[..k]), es[k].what.dispatch)
  }

  /** The snapshot of step `k` shows `r` online or not yet given up, and neither idle nor failed: it is at work. */
  predicate ShowsBusy(e: Event, r: string) {
    && e.what.FleetSnapshot?
    && FirstEntry(e.what.robots, r).Some?
    && var entry := FirstEntry(e.what.robots, r).value;
       !entry.confirmedOffline && entry.state != STATE_ERROR && entry.state != STATE_IDLE
  }

  predicate ShowsIdle(e: Event, r: string) {
    && e.what.FleetSnapshot?
    && FirstEntry(e.what.robots, r).Some?
    && !FirstEntry(e.what.robots, r).value.confirmedOffline
    && FirstEntry(e.what.robots, r).value.state == STATE_IDLE
  }

  predicate ShowsFailed(e: Event, r: string) {
    && e.what.FleetSnapshot?
    && FirstEntry(e.what.robots, r).Some?
    && (FirstEntry(e.what.robots, r).value.confirmedOffline || FirstEntry(e.what.robots, r).value.state == STATE_ERROR)
  }

  /** Between steps `from` and `to` no snapshot showed `r` as anything but idle. */
  predicate NeverSeenWorking(es: seq<Event>, from: nat, to: nat, r: string) {
    forall k :: from < k < to && k < |es| && es[k].what.FleetSnapshot? ==>
      FirstEntry(es[k].what.robots, r).None? || ShowsIdle(es[k], r)
  }

  /** The step accepted a mission for `r`, which is active from then on. */
  predicate JustAccepted(s: System, e: Event, s2: System, r: string)
    requires r in s2.node.active
  {
    && e.what.Answer? && e.what.reply == Accepted && IsLive(s, e.what.dispatch)
    && e.what.dispatch.robotId == r && s2.node.active[r] == Activated(e.what.dispatch.mission, e.at)
  }

  /** How an active mission of `r` looks after one more step, or that it has just been accepted. */
  predicate ActiveStep(s: System, e: Event, s2: System, r: string)
    requires r in s2.node.active
  {
    var a2 := s2.node.active[r];
    || JustAccepted(s, e, s2, r)
    || (r in s.node.active && a2 == s.node.active[r]
        && (e.what.FleetSnapshot? ==>
              FirstEntry(e.what.robots, r).None? || ShowsIdle(e, r) || (a2.confirmed && ShowsBusy(e, r))))
    || (r in s.node.active && a2 == s.node.active[r].(confirmed := true) && ShowsBusy(e, r))
  }

  lemma ActiveStepHolds(cfg: Config, s: System, e: Event, r: string)
    requires Enabled(s, e) && r in Step(cfg, s, e).node.active
    ensures ActiveStep(s, e, Step(cfg, s, e), r)
  {
    if e.what.FleetSnapshot? {
      SnapshotShape(cfg, s.node, e.what.robots, e.at, e.what.walk);
      hide Snapshotted, KeptLeases;
    } else if e.what.Timer? {
      TickShape(cfg, s.node, e.at, e.what.serviceReady);
      hide Ticked;
    } else if !e.what.Answer? {
      QueueEventShape(cfg, s.node, e);
      hide NodeAfter;
    }
  }

  /** Where the active mission of a robot comes from, and how it came to be confirmed if it is. */
  lemma {:induction false} ActiveOrigin(cfg: Config, es: seq<Event>, r: string) returns (a: nat, b: nat)
    requires IsRun(cfg, es) && r in Run(cfg, es).node.active
    ensures
      var m := Run(cfg, es).node.active[r];
      && AcceptedAt(cfg, es, a, r, m.id) && es[a].at == m.dispatchedAt
      && if m.confirmed then a < b < |es| && ShowsBusy(es[b], r) else NeverSeenWorking(es, a, |es|, r)
  {
    hide *;
    LastStep(cfg, es);
    ActiveIsLater(cfg, es, r);
    var pre, e := es[..|es| - 1], es[|es| - 1];
    assert es == pre + [e];
    var s, s2 := Run(cfg, pre), Run(cfg, es);
    ActiveStepHolds(cfg, s, e, r);
    if JustAccepted(s, e, s2, r) {
      a, b := |pre|, 0;
      assert es[..a] == pre;
      AcceptedNow(cfg, es, r);
    } else {
      ActiveBefore(s, e, s2, r);
      a, b := ActiveOrigin(cfg, pre, r);
      AcceptedStays(cfg, pre, e, a, r, s2.node.active[r].id);
      if s2.node.active[r].confirmed && !s.node.active[r].confirmed {
        b := |pre|;
      }
      if !s2.node.active[r].confirmed {
        StillNotSeen(pre, e, a, r);
      }
    }
  }

  lemma ActiveIsLater(cfg: Config, es: seq<Event>, r: string)
    requires r in Run(cfg, es).node.active
    ensures es != []
  {
  }

  lemma AcceptedNow(cfg: Config, es: seq<Event>, r: string)
    requires es != [] && r in Run(cfg, es).node.active
    requires JustAccepted(Run(cfg, es[..|es| - 1]), es[|es| - 1], Run(cfg, es), r)
    ensures
      var m := Run(cfg, es).node.active[r];
      && AcceptedAt(cfg, es, |es| - 1, r, m.id) && es[|es| - 1].at == m.dispatchedAt && !m.confirmed
      && NeverSeenWorking(es, |es| - 1, |es|, r)
  {
    hide Run, IsLive;
  }

  lemma ActiveBefore(s: System, e: Event, s2: System, r: string)
    requires r in s2.node.active && ActiveStep(s, e, s2, r) && !JustAccepted(s, e, s2, r)
    ensures r in s.node.active && s2.node.active[r] == s.node.active[r].(confirmed := s2.node.active[r].confirmed)
    ensures s.node.active[r].confirmed ==> s2.node.active[r].confirmed
    ensures s2.node.active[r].confirmed && !s.node.active[r].confirmed ==> ShowsBusy(e, r)
    ensures !s2.node.active[r].confirmed && e.what.FleetSnapshot? ==>
      FirstEntry(e.what.robots, r).None? || ShowsIdle(e, r)
  {
    hide ShowsBusy, ShowsIdle, IsLive;
  }

  lemma StillNotSeen(es: seq<Event>, e: Event, from: nat, r: string)
    requires NeverSeenWorking(es, from, |es|, r)
    requires e.what.FleetSnapshot? ==> FirstEntry(e.what.robots, r).None? || ShowsIdle(e, r)
    ensures NeverSeenWorking(es + [e], from, |es + [e]|, r)
  {
    hide ShowsIdle, FirstEntry;
  }

  /** A mission leaves `Active` for `Done`, `Dropped` or `Requeued` only on a snapshot's verdict. */
  lemma VerdictBehindEnding(cfg: Config, s: System, e: Event, id: nat)
    requires Inv(cfg, s) && Enabled(s, e) && id in Step(cfg, s, e).ledger
    requires
      var after := Step(cfg, s, e).ledger[id].status;
      after.Done? || after.Dropped? || after.Requeued?
    requires id in s.ledger ==> s.ledger[id].status != Step(cfg, s, e).ledger[id].status
    ensures id in s.ledger && s.ledger[id].status.Active? && e.what.FleetSnapshot?
    ensures
      var r := s.ledger[id].status.robotId;
      && r in s.node.active && s.node.active[r].id == id
      && Judge(cfg, e.what.robots, r, s.node.active[r], e.at)
           == if Step(cfg, s, e).ledger[id].status == Done then Completed else Failed
  {
    StatusMoves(cfg, s, e, id);
    if e.what.FleetSnapshot? {
      VerdictOfSnapshot(cfg, s, e, id);
      hide Inv, Step, Judge, Enabled;
    } else {
      EndingNeedsSnapshot(cfg, s, e, id);
      hide Inv, Step;
    }
  }

  lemma VerdictOfSnapshot(cfg: Config, s: System, e: Event, id: nat)
    requires Inv(cfg, s) && Enabled(s, e) && e.what.FleetSnapshot?
    requires id in s.ledger && s.ledger[id].status.Active? && id in Step(cfg, s, e).ledger
    requires s.ledger[id].status != Step(cfg, s, e).ledger[id].status
    ensures
      var r := s.ledger[id].status.robotId;
      && r in s.node.active && s.node.active[r].id == id
      && Judge(cfg, e.what.robots, r, s.node.active[r], e.at)
           == if Step(cfg, s, e).ledger[id].status == Done then Completed else Failed
  {
    hide Settle, Settled, ReplaceAll, Failures, Judge, Lineage, QueueTable, Slots, NodeAfter, OutstandingAfter, Retries;
    SnapshotMoves(cfg, s.node, s.ledger, e.what.robots, e.at, e.what.walk, id);
  }

  lemma EndingNeedsSnapshot(cfg: Config, s: System, e: Event, id: nat)
    requires !e.what.FleetSnapshot? && id in s.ledger && id in Step(cfg, s, e).ledger
    ensures
      var before, after := s.ledger[id].status, Step(cfg, s, e).ledger[id].status;
      after == before || after.Active? || after.Overwritten? || after.Pending? || after.CancelledByUser?
  {
    hide FindMission;
  }

  /**
   A completed mission was accepted, then a snapshot showed its robot at work, then a snapshot showed the
   robot idle while the mission was still active on it; that last snapshot completed it.
   */
  lemma {:induction false} CompletionIsJustified(cfg: Config, es: seq<Event>, id: nat)
    returns (r: string, accepted: nat, busy: nat, idle: nat)
    requires IsRun(cfg, es) && id in Run(cfg, es).ledger && Run(cfg, es).ledger[id].status == Done
    ensures accepted < busy < idle < |es|
    ensures AcceptedAt(cfg, es, accepted, r, id) && ShowsBusy(es[busy], r) && ShowsIdle(es[idle], r)
    ensures id in Run(cfg, es[..idle]).ledger && Run(cfg, es[..idle]).ledger[id].status == Active(r)
  {
    hide *;
    LastStep(cfg, es);
    DoneIsLater(cfg, es, id);
    var pre, e := es[..|es| - 1], es[|es| - 1];
    assert es == pre + [e];
    var s := Run(cfg, pre);
    InvariantHolds(cfg, pre);
    if id in s.ledger && s.ledger[id].status == Done {
      r, accepted, busy, idle := CompletionIsJustified(cfg, pre, id);
      assert pre[..idle] == es[..idle];
    } else {
      VerdictBehindEnding(cfg, s, e, id);
      r := s.ledger[id].status.robotId;
      CompletedVerdict(cfg, e, r, s.node.active[r]);
      accepted, busy := ActiveOrigin(cfg, pre, r);
      idle := |pre|;
      assert es[..idle] == pre;
    }
    AcceptedStays(cfg, pre, e, accepted, r, id);
  }

  lemma DoneIsLater(cfg: Config, es: seq<Event>, id: nat)
    requires id in Run(cfg, es).ledger
    ensures es != []
  {
  }

  lemma CompletedVerdict(cfg: Config, e: Event, r: string, a: ActiveMission)
    requires e.what.FleetSnapshot? && Judge(cfg, e.what.robots, r, a, e.at) == Completed
    ensures ShowsIdle(e, r) && a.confirmed
  {
  }

  lemma AcceptedStays(cfg: Config, es: seq<Event>, e: Event, k: nat, r: string, id: nat)
    requires AcceptedAt(cfg, es, k, r, id)
    ensures AcceptedAt(cfg, es + [e], k, r, id) && k < |es|
  {
    assert (es + [e])[..k] == es[..k];
    hide Run, IsLive;
  }

  /** Step `verdict` failed mission `id` on robot `r`, which had accepted it at step `accepted`, for cause. */
  ghost predicate FailedForCause(cfg: Config, es: seq<Event>, r: string, accepted: nat, verdict: nat, id: nat) {
    && accepted < verdict < |es|
    && AcceptedAt(cfg, es, accepted, r, id)
    && id in Run(cfg, es[..verdict]).ledger && Run(cfg, es[..verdict]).ledger[id].status == Active(r)
    && (ShowsFailed(es[verdict], r)
        || (&& ShowsIdle(es[verdict], r)
            && NeverSeenWorking(es, accepted, verdict, r)
            && es[verdict].at - es[accepted].at > cfg.missionStartTimeout))
  }

  lemma CauseStays(cfg: Config, es: seq<Event>, e: Event, r: string, accepted: nat, verdict: nat, id: nat)
    requires FailedForCause(cfg, es, r, accepted, verdict, id)
    ensures FailedForCause(cfg, es + [e], r, accepted, verdict, id)
  {
    var es2 := es + [e];
    assert es2[..verdict] == es[..verdict] && es2[..accepted] == es[..accepted];
    hide Run;
  }

  lemma FreshFailure(cfg: Config, es: seq<Event>, e: Event, r: string, id: nat) returns (accepted: nat)
    requires IsRun(cfg, es) && e.what.FleetSnapshot?
    requires id in Run(cfg, es).ledger && Run(cfg, es).ledger[id].status == Active(r)
    requires r in Run(cfg, es).node.active && Run(cfg, es).node.active[r].id == id
    requires Judge(cfg, e.what.robots, r, Run(cfg, es).node.active[r], e.at) == Failed
    ensures FailedForCause(cfg, es + [e], r, accepted, |es|, id)
  {
    var es2, busy := es + [e], 0;
    accepted, busy := ActiveOrigin(cfg, es, r);
    hide Run, IsRun;
    assert es2[..|es|] == es && es2[..accepted] == es[..accepted];
  }

  /**
   A failed mission was accepted, and the snapshot that failed it showed its robot in error or confirmed
   offline, or showed it idle after more than the start timeout in which no snapshot had shown it at work.
   */
  lemma {:induction false} FailureIsJustified(cfg: Config, es: seq<Event>, id: nat)
    returns (r: string, accepted: nat, verdict: nat)
    requires IsRun(cfg, es) && id in Run(cfg, es).ledger
    requires Run(cfg, es).ledger[id].status.Dropped? || Run(cfg, es).ledger[id].status.Requeued?
    ensures FailedForCause(cfg, es, r, accepted, verdict, id)
  {
    hide *;
    LastStep(cfg, es);
    DoneIsLater(cfg, es, id);
    var pre, e := es[..|es| - 1], es[|es| - 1];
    assert es == pre + [e];
    var s := Run(cfg, pre);
    InvariantHolds(cfg, pre);
    if id in s.ledger && s.ledger[id].status == Run(cfg, es).ledger[id].status {
      r, accepted, verdict := FailureIsJustified(cfg, pre, id);
      CauseStays(cfg, pre, e, r, accepted, verdict, id);
    } else {
      VerdictBehindEnding(cfg, s, e, id);
      r := s.ledger[id].status.robotId;
      accepted := FreshFailure(cfg, pre, e, r, id);
      verdict := |pre|;
    }
  }
}
