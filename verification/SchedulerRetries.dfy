/** How often the scheduler tries one submission, and why its retries come to an end. */
module SchedulerRetries {
  import opened Counting
  import opened SchedulerNode
  import opened SchedulerSystem
  import opened SchedulerInvariant
  import opened SchedulerConservation

  /* One instance at a time, and few of them. */

  predicate IsAlive(r: Record) {
    r.status.Pending? || r.status.Active?
  }

  /**
   A submission has at most one pending or active instance; every instance, in whichever table, has failed
   fewer than max(1, limit) times before, so that the 32-bit attempt counter never wraps.
   */
  lemma OneLiveInstance(cfg: Config, es: seq<Event>)
    requires IsRun(cfg, es)
    ensures
      var n, l := Run(cfg, es).node, Run(cfg, es).ledger;
      && (forall a, b :: a in l && b in l && l[a].origin == l[b].origin && IsAlive(l[a]) && IsAlive(l[b]) ==> a == b)
      && (forall m :: m in n.queue ==> m.attempts < AttemptBound(cfg))
      && (forall r :: r in n.active ==> n.active[r].attempts < AttemptBound(cfg))
    ensures AttemptBound(cfg) < 0x1_0000_0000
  {
    InvariantHolds(cfg, es);
    var n, l := Run(cfg, es).node, Run(cfg, es).ledger;
    hide Run, IsRun, Slots;
    forall a, b | a in l && b in l && l[a].origin == l[b].origin && IsAlive(l[a]) && IsAlive(l[b]) ensures a == b {
      assert Chained(l, a, b) && Chained(l, b, a);
    }
    forall m | m in n.queue ensures m.attempts < AttemptBound(cfg) {
      assert Linked(cfg, l, m.id);
    }
    forall r | r in n.active ensures n.active[r].attempts < AttemptBound(cfg) {
      assert Linked(cfg, l, n.active[r].id);
    }
  }

  /** The last instance of the submission that `id` belongs to. */
  ghost function LastInstance(cfg: Config, l: Ledger, id: nat): (last: nat)
    requires Lineage(cfg, l) && id in l
    ensures last in l && l[last].origin == l[id].origin && !l[last].status.Requeued?
    decreases AttemptBound(cfg) - l[id].attempts
  {
    assert Linked(cfg, l, id);
    if !l[id].status.Requeued? then id
    else
      assert Linked(cfg, l, l[id].status.replacement);
      LastInstance(cfg, l, l[id].status.replacement)
  }

  /** Every submission has exactly one instance that was not queued again: its fate is never ambiguous. */
  lemma OneFate(cfg: Config, es: seq<Event>, id: nat)
    requires IsRun(cfg, es) && id in Run(cfg, es).ledger
    ensures
      var l := Run(cfg, es).ledger;
      exists last :: && last in l && l[last].origin == l[id].origin && !l[last].status.Requeued?
                     && forall b :: b in l && l[b].origin == l[id].origin && b != last ==> l[b].status.Requeued?
  {
    InvariantHolds(cfg, es);
    var l := Run(cfg, es).ledger;
    var last := LastInstance(cfg, l, id);
    forall b | b in l && l[b].origin == l[id].origin && b != last ensures l[b].status.Requeued? {
      assert Chained(l, last, b) && Chained(l, b, last);
    }
  }

  /* How many times a submission becomes active. */

  predicate Activates(s: System, e: Event, origin: nat) {
    && e.what.Answer? && e.what.reply == Accepted && e.what.dispatch.generation == s.node.generation
    && e.what.dispatch.mission.id in s.ledger
    && s.ledger[e.what.dispatch.mission.id].origin == origin
  }

  function Activations(cfg: Config, es: seq<Event>, origin: nat): nat {
    if es == [] then 0
    else
      Activations(cfg, es[..|es| - 1], origin)
      + if Activates(Run(cfg, es[..|es| - 1]), es[|es| - 1], origin) then 1 else 0
  }

  /** The instances of a submission that have been active. */
  function Tried(l: Ledger, origin: nat): set<nat> {
    set id | id in l && l[id].origin == origin && !l[id].status.Pending? && !l[id].status.CancelledByUser?
  }

  lemma TriedPointwise(cfg: Config, s: System, e: Event, origin: nat, id: nat)
    requires Inv(cfg, s) && Enabled(s, e)
    ensures id in Tried(Step(cfg, s, e).ledger, origin) <==>
      id in Tried(s.ledger, origin) || (Activates(s, e, origin) && id == e.what.dispatch.mission.id)
  {
    StatusMoves(cfg, s, e, id);
    if e.what.Answer? {
      AnswerTries(cfg, s, e);
    } else if id in s.ledger && !s.ledger[id].status.Active? {
      OnlyAnswersActivate(cfg, s, e, id);
    }
    hide Inv, Step;
  }

  lemma TriedGrows(cfg: Config, s: System, e: Event, origin: nat)
    requires Inv(cfg, s) && Enabled(s, e)
    ensures
      var before, after := Tried(s.ledger, origin), Tried(Step(cfg, s, e).ledger, origin);
      if Activates(s, e, origin)
      then e.what.dispatch.mission.id !in before && after == before + {e.what.dispatch.mission.id}
      else after == before
  {
    if e.what.Answer? {
      AnswerTries(cfg, s, e);
    }
    hide Inv, Step, Enabled;
    forall id ensures id in Tried(Step(cfg, s, e).ledger, origin) <==>
      id in Tried(s.ledger, origin) || (Activates(s, e, origin) && id == e.what.dispatch.mission.id)
    {
      TriedPointwise(cfg, s, e, origin, id);
    }
  }

  lemma AnswerTries(cfg: Config, s: System, e: Event)
    requires Inv(cfg, s) && Enabled(s, e) && e.what.Answer?
    ensures
      var d, l2 := e.what.dispatch, Step(cfg, s, e).ledger;
      if d.generation == s.node.generation && e.what.reply == Accepted
      then
        && d.mission.id in s.ledger && s.ledger[d.mission.id].status in {Pending, CancelledByUser}
        && l2.Keys == s.ledger.Keys && l2[d.mission.id].status.Active?
        && forall id :: id in l2 && id != d.mission.id ==>
             l2[id] == s.ledger[id] || (s.ledger[id].status.Active? && l2[id].status == Overwritten)
      else l2 == s.ledger
  {
    if e.what.dispatch.generation == s.node.generation {
      assert IsLive(s, e.what.dispatch);
    }
    hide Lineage, QueueTable;
  }

  lemma OnlyAnswersActivate(cfg: Config, s: System, e: Event, id: nat)
    requires Inv(cfg, s) && Enabled(s, e) && !e.what.Answer?
    requires id in s.ledger && !s.ledger[id].status.Active? && id in Step(cfg, s, e).ledger
    ensures !Step(cfg, s, e).ledger[id].status.Active?
  {
    if e.what.FleetSnapshot? {
      SnapshotMoves(cfg, s.node, s.ledger, e.what.robots, e.at, e.what.walk, id);
      hide Inv, Settle, Settled, ReplaceAll, Failures;
    }
  }

  lemma {:induction false} ActivationsAreTries(cfg: Config, es: seq<Event>, origin: nat)
    requires IsRun(cfg, es)
    ensures Activations(cfg, es, origin) == |Tried(Run(cfg, es).ledger, origin)|
  {
    if es != [] {
      var pre := es[..|es| - 1];
      ActivationsAreTries(cfg, pre, origin);
      InvariantHolds(cfg, pre);
      TriedGrows(cfg, Run(cfg, pre), es[|es| - 1], origin);
    } else {
      assert Tried(BOOT.ledger, origin) == {};
    }
  }

  /** A submission becomes active at most max(1, limit) times in any run. */
  lemma ActivationsAreBounded(cfg: Config, es: seq<Event>, origin: nat)
    requires IsRun(cfg, es)
    ensures Activations(cfg, es, origin) <= AttemptBound(cfg)
  {
    ActivationsAreTries(cfg, es, origin);
    InvariantHolds(cfg, es);
    var l := Run(cfg, es).ledger;
    var tries := map id | id in Tried(l, origin) :: l[id].attempts;
    assert tries.Keys == Tried(l, origin);
    forall a, b | a in tries && b in tries && tries[a] == tries[b] ensures a == b {
      assert Chained(l, a, b);
    }
    InjectiveSize(tries);
    forall k | k in tries.Values ensures k in Below(AttemptBound(cfg)) {
      var id :| id in tries && tries[id] == k;
      assert Linked(cfg, l, id);
    }
    SubsetSize(tries.Values, Below(AttemptBound(cfg)));
    BelowSize(AttemptBound(cfg));
  }
}
