/** Exactly when a cancelled mission is run all the same. */
module SchedulerCancellation {
  import opened MissionIds
  import opened MissionQueue
  import opened SchedulerNode
  import opened SchedulerSystem
  import opened SchedulerInvariant
  import opened SchedulerConservation
  import opened SchedulerDispatch
  import SchedulerOverwrite
  import Trace = SchedulerOverwriteTrace

  predicate IsCancelled(s: System, id: nat) {
    id in s.ledger && s.ledger[id].status == CancelledByUser
  }

  /** The request whose answer the node would act on carries mission `id`. */
  ghost predicate Carried(s: System, id: nat) {
    exists d :: IsLive(s, d) && d.mission.id == id
  }

  /** The event accepts a live request for mission `id`. */
  predicate AcceptsLive(s: System, e: Event, id: nat) {
    && e.what.Answer? && e.what.reply == Accepted
    && IsLive(s, e.what.dispatch) && e.what.dispatch.mission.id == id
  }

  lemma AcceptRevives(cfg: Config, s: System, e: Event, id: nat)
    requires AcceptsLive(s, e, id) && id in s.ledger
    ensures id in Step(cfg, s, e).ledger && Step(cfg, s, e).ledger[id].status == Active(e.what.dispatch.robotId)
    ensures e.what.dispatch.robotId in Step(cfg, s, e).node.active
    ensures Step(cfg, s, e).node.active[e.what.dispatch.robotId].id == id
  {
  }

  /** One callback makes a cancelled mission active if and only if it accepts the live request for it. */
  lemma RevivesIff(cfg: Config, s: System, e: Event, id: nat)
    requires Inv(cfg, s) && Enabled(s, e) && IsCancelled(s, id)
    ensures id in Step(cfg, s, e).ledger
    ensures Step(cfg, s, e).ledger[id].status.Active? <==> AcceptsLive(s, e, id)
    ensures !AcceptsLive(s, e, id) ==> IsCancelled(Step(cfg, s, e), id)
  {
    hide Inv, Enabled, Step, IsLive;
    StatusMoves(cfg, s, e, id);
    if AcceptsLive(s, e, id) {
      AcceptRevives(cfg, s, e, id);
    } else if Step(cfg, s, e).ledger[id].status != CancelledByUser {
      OnlyAcceptRevives(cfg, s, e, id);
    }
  }

  lemma UncarriedStays(cfg: Config, s: System, e: Event, id: nat)
    requires Inv(cfg, s) && Enabled(s, e) && IsCancelled(s, id) && !Carried(s, id)
    ensures IsCancelled(Step(cfg, s, e), id) && !Carried(Step(cfg, s, e), id)
  {
    hide Inv, Enabled, Step, IsLive;
    RevivesIff(cfg, s, e, id);
    assert AcceptsLive(s, e, id) ==> Carried(s, id);
    if Carried(Step(cfg, s, e), id) {
      CarriedBefore(cfg, s, e, id);
      assert false;
    }
  }

  lemma CarriedBefore(cfg: Config, s: System, e: Event, id: nat)
    requires Inv(cfg, s) && Enabled(s, e) && IsCancelled(Step(cfg, s, e), id) && Carried(Step(cfg, s, e), id)
    ensures Carried(s, id)
  {
    hide Inv, Enabled, Step, IsLive;
    var d :| IsLive(Step(cfg, s, e), d) && d.mission.id == id;
    LiveBefore(cfg, s, e, d);
  }

  /** The mission stays cancelled, whatever happens after the events `es`. */
  ghost predicate StaysCancelled(cfg: Config, es: seq<Event>, id: nat) {
    forall es2 :: IsRun(cfg, es + es2) ==> IsCancelled(Run(cfg, es + es2), id)
  }

  lemma {:induction false} UncarriedNeverRuns(cfg: Config, es: seq<Event>, es2: seq<Event>, id: nat)
    requires IsRun(cfg, es + es2) && IsCancelled(Run(cfg, es), id) && !Carried(Run(cfg, es), id)
    ensures IsCancelled(Run(cfg, es + es2), id) && !Carried(Run(cfg, es + es2), id)
  {
    hide *;
    if es2 == [] {
      assert es + es2 == es;
    } else {
      var pre := es2[..|es2| - 1];
      var all := es + es2;
      assert all[..|all| - 1] == es + pre;
      LastStep(cfg, all);
      UncarriedNeverRuns(cfg, es, pre, id);
      InvariantHolds(cfg, es + pre);
      UncarriedStays(cfg, Run(cfg, es + pre), all[|all| - 1], id);
    }
  }

  lemma CarriedCanRun(cfg: Config, es: seq<Event>, id: nat) returns (e: Event)
    requires IsRun(cfg, es) && IsCancelled(Run(cfg, es), id) && Carried(Run(cfg, es), id)
    ensures IsRun(cfg, es + [e]) && !IsCancelled(Run(cfg, es + [e]), id)
  {
    var s := Run(cfg, es);
    var d :| IsLive(s, d) && d.mission.id == id;
    e := Event(s.now, Answer(d, Accepted));
    assert AcceptsLive(s, e, id) && Enabled(s, e);
    assert (es + [e])[..|es|] == es;
    hide Step;
    AcceptRevives(cfg, s, e, id);
  }

  /** A cancelled mission stays cancelled in all futures if and only if no live request carries it. */
  lemma StaysCancelledIff(cfg: Config, es: seq<Event>, id: nat)
    requires IsRun(cfg, es) && IsCancelled(Run(cfg, es), id)
    ensures StaysCancelled(cfg, es, id) <==> !Carried(Run(cfg, es), id)
  {
    hide Run, IsRun, IsCancelled, Carried;
    if Carried(Run(cfg, es), id) {
      var e := CarriedCanRun(cfg, es, id);
    } else {
      forall es2 | IsRun(cfg, es + es2) ensures IsCancelled(Run(cfg, es + es2), id) {
        UncarriedNeverRuns(cfg, es, es2, id);
      }
    }
  }

  /** A cancellation by id text cancels exactly the pending mission with that id, and leaves the requests alone. */
  lemma CancelStep(cfg: Config, s: System, c: Event, id: nat)
    requires Inv(cfg, s) && c.what == Cancel(IdText(id))
    requires id in s.ledger && s.ledger[id].status == Pending
    ensures IsCancelled(Step(cfg, s, c), id)
    ensures Carried(Step(cfg, s, c), id) <==> Carried(s, id)
  {
    hide Lineage, ActiveTable, Slots, Ordered, IdText, Snapshot;
    assert Queued(s.node.queue, id);
    var m :| m in s.node.queue && m.id == id;
    var k :| 0 <= k < |s.node.queue| && s.node.queue[k] == m;
    var i := FindMission(s.node.queue, c.what.text).value;
    IdTextIsInjective(s.node.queue[i].id, id);
    assert forall d :: IsLive(Step(cfg, s, c), d) <==> IsLive(s, d);
  }

  /**
   What a caller can know when cancelling a pending mission: the cancellation is final if and only if no live
   request carries the mission at that moment.
   */
  lemma CancelIsFinalIff(cfg: Config, es: seq<Event>, c: Event, id: nat)
    requires IsRun(cfg, es + [c]) && c.what == Cancel(IdText(id))
    requires id in Run(cfg, es).ledger && Run(cfg, es).ledger[id].status == Pending
    ensures IsCancelled(Run(cfg, es + [c]), id)
    ensures StaysCancelled(cfg, es + [c], id) <==> !Carried(Run(cfg, es), id)
  {
    hide *;
    var all := es + [c];
    assert all[..|all| - 1] == es;
    LastStep(cfg, all);
    InvariantHolds(cfg, es);
    CancelStep(cfg, Run(cfg, es), c, id);
    StaysCancelledIff(cfg, all, id);
  }

  lemma PatrolIsAway(cfg: Config) returns (es: seq<Event>)
    ensures IsRun(cfg, es)
    ensures
      var s := Run(cfg, es);
      && s.now == 0.0 && 1 in s.ledger && s.ledger[1].status == Pending
      && IsLive(s, Dispatch(1, Trace.NAME, Trace.FIRST))
  {
    es := Trace.FirstIsDispatched(cfg, SchedulerOverwrite.ALL, 0.0);
    InvariantHolds(cfg, es);
    hide Run, IsRun;
    var q := Run(cfg, es).node.queue;
    assert q[0] in q;
  }

  /** Under every configuration there is a run in which a cancelled mission becomes active. */
  lemma CancelledMissionRuns(cfg: Config) returns (es: seq<Event>, k: nat)
    ensures IsRun(cfg, es) && CancelledAt(cfg, es, k, 1) && es[k].what == Cancel(IdText(1))
    ensures 1 in Run(cfg, es).ledger && Run(cfg, es).ledger[1].status == Active(Trace.NAME)
    ensures Trace.NAME in Run(cfg, es).node.active && Run(cfg, es).node.active[Trace.NAME].id == 1
  {
    hide Run, IsRun, Step, Inv, IdText;
    var d := Dispatch(1, Trace.NAME, Trace.FIRST);
    var cancel, accept := Event(0.0, Cancel(IdText(1))), Event(0.0, Answer(d, Accepted));
    var before := PatrolIsAway(cfg);
    InvariantHolds(cfg, before);
    ExtendRun(cfg, before, cancel);
    CancelStep(cfg, Run(cfg, before), cancel, 1);
    CancelLeavesRequests(cfg, Run(cfg, before), cancel, d);
    var between := before + [cancel];
    ExtendRun(cfg, between, accept);
    AcceptRevives(cfg, Run(cfg, between), accept, 1);
    es, k := between + [accept], |before|;
    assert es[..k] == before && es[..k + 1] == between;
  }

  lemma CancelLeavesRequests(cfg: Config, s: System, c: Event, d: Dispatch)
    requires c.what.Cancel? && IsLive(s, d)
    ensures IsLive(Step(cfg, s, c), d) && Step(cfg, s, c).now == c.at
  {
    hide FindMission, Snapshot, LedgerAfter;
  }
}
