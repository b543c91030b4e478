/** The supervisor node: its callbacks, updating the robots' fields and the polls' shared counters in place. */
module ReadinessSupervisor {
  import opened Common
  import opened SupervisorRobot
  import opened SupervisorFleet
  import opened ReadyStream

  /** The counters that the callbacks of one poll share. */
  class PollTally {
    var remaining: nat
    var allActive: bool
    var allUnconfigured: bool
    var queryFailed: bool

    ghost function View(): Tally
      reads this
    {
      Tally(remaining, allActive, allUnconfigured, queryFailed)
    }

    constructor ()
      ensures View() == FRESH_TALLY
    {
      remaining := NODE_COUNT;
      allActive, allUnconfigured, queryFailed := true, true, false;
    }

    method Count(a: Answer)
      modifies this
      ensures View() == Counted(old(View()), a)
    {
      if a == QueryFailed {
        allActive, allUnconfigured, queryFailed := false, false, true;
      } else {
        if a != IsActive {
          allActive := false;
        }
        if a != IsUnconfigured {
          allUnconfigured := false;
        }
      }
      if remaining > 0 {
        remaining := remaining - 1;
      }
    }
  }

  /** What a visit observes: TF, the lifecycle manager's service, and the state service of each node. */
  datatype Observed = Observed(tf: bool, lifecycle: bool, services: seq<bool>)

  function InputsOf(o: Observed): (i: Inputs)
    ensures i.tf == o.tf && i.lifecycle == o.lifecycle
    ensures i.stateServices <==> forall k :: 0 <= k < |o.services| ==> o.services[k]
  {
    Inputs(o.tf, o.lifecycle, false !in o.services)
  }

  function AllInputs(os: seq<Observed>): (inputs: seq<Inputs>)
    ensures |inputs| == |os| && forall k :: 0 <= k < |os| ==> inputs[k] == InputsOf(os[k])
  {
    seq(|os|, k requires 0 <= k < |os| => InputsOf(os[k]))
  }

  /** The six requests of a poll: the robot, the poll's number, and the counters that their callbacks share. */
  datatype Poll = Poll(id: string, generation: nat, tally: PollTally)

  function Numbers(polls: seq<Poll>): (numbers: seq<(string, nat)>)
    ensures |numbers| == |polls|
  {
    seq(|polls|, k requires 0 <= k < |polls| => (polls[k].id, polls[k].generation))
  }

  class SystemReadinessSupervisor {
    const cfg: Config
    const robotIds: seq<string>
    var robots: map<string, Robot>
    var hasPublishedReady: bool
    var lastPublishedReady: bool
    /** The messages sent on /system/ready. */
    var sent: seq<bool>
    /** The values offered to `PublishReady` so far. */
    ghost var values: seq<bool>

    ghost predicate Valid()
      reads this
    {
      && sent == Published(values)
      && (hasPublishedReady <==> sent != [])
      && (hasPublishedReady ==> lastPublishedReady == sent[|sent| - 1])
    }

    constructor (cfg: Config, robotIds: seq<string>)
      ensures Valid() && this.cfg == cfg && this.robotIds == robotIds
      ensures robots == map id | id in robotIds :: NEW_ROBOT
      ensures values == [false] && sent == [false]
    {
      this.cfg, this.robotIds := cfg, robotIds;
      robots := map id | id in robotIds :: NEW_ROBOT;
      hasPublishedReady, lastPublishedReady := false, false;
      sent, values := [], [];
      new;
      PublishReady(false);
    }

    method PublishReady(ready: bool)
      requires Valid()
      modifies `hasPublishedReady, `lastPublishedReady, `sent, `values
      ensures Valid() && values == old(values) + [ready] && sent == Offered(old(sent), ready)
    {
      values := values + [ready];
      assert values[..|values| - 1] == old(values);
      if hasPublishedReady && lastPublishedReady == ready {
        return;
      }
      sent := sent + [ready];
      hasPublishedReady := true;
      lastPublishedReady := ready;
    }

    method MapCallback(id: string, width: nat, height: nat, resolution: real)
      modifies `robots
      ensures id !in old(robots) ==> robots == old(robots)
      ensures id in old(robots) ==>
                robots == old(robots)[id := old(robots)[id].(
                            mapReceived := width > 0 && height > 0 && resolution > 0.0)]
    {
      if id !in robots {
        return;
      }
      robots := robots[id := robots[id].(mapReceived := width > 0 && height > 0 && resolution > 0.0)];
    }

    /** Asks every node for its state, unless a state service is missing. The answers will share `tally`. */
    method PollLifecycleStates(id: string, now: Time, services: seq<bool>) returns (tally: PollTally?, generation: nat)
      modifies `robots
      ensures id !in old(robots) ==> robots == old(robots) && tally == null
      ensures id in old(robots) ==>
                && robots == old(robots)[id := PollStarted(old(robots)[id], now, false !in services).0]
                && (tally != null <==> PollStarted(old(robots)[id], now, false !in services).1)
                && (tally != null ==> generation == robots[id].pollGeneration)
      ensures tally != null ==> fresh(tally) && tally.View() == FRESH_TALLY
    {
      if id !in robots {
        return null, 0;
      }
      var i := 0;
      while i < |services|
        invariant 0 <= i <= |services| && false !in services[..i]
        invariant robots == old(robots)
      {
        if !services[i] {
          assert services[i] in services;
          return null, 0;
        }
        i := i + 1;
      }
      assert services[..i] == services;
      generation := robots[id].pollGeneration + 1;
      robots := robots[id := robots[id].(phase := Polling, pollStartedAt := now, pollGeneration := generation)];
      tally := new PollTally();
    }

    /** A node's answer to poll `generation`, whose callbacks share `tally`. */
    method HandleGetStateResponse(
      id: string, tally: PollTally, generation: nat, a: Answer, now: Time, serviceReady: bool)
      returns (command: Option<Command>)
      modifies `robots, tally
      ensures id !in old(robots) ==>
                robots == old(robots) && tally.View() == old(tally.View()) && command == None
      ensures id in old(robots) ==>
                var (r, t, c) :=
                  Answered(cfg, old(robots)[id], old(tally.View()), generation, a, now, serviceReady);
                robots == old(robots)[id := r] && tally.View() == t && command == c
    {
      if id !in robots || robots[id].pollGeneration != generation {
        return None;
      }
      tally.Count(a);
      if tally.remaining != 0 {
        return None;
      }
      command := FinishedPoll(id, tally, now, serviceReady);
    }

    method FinishedPoll(id: string, tally: PollTally, now: Time, serviceReady: bool) returns (command: Option<Command>)
      modifies `robots
      ensures id !in old(robots) ==> robots == old(robots) && command == None
      ensures id in old(robots) ==>
                var (r, c) := FinishPoll(cfg, old(robots)[id], tally.View(), now, serviceReady);
                robots == old(robots)[id := r] && command == c
    {
      if id !in robots {
        return None;
      }
      if tally.queryFailed {
        robots := robots[id := robots[id].(confirmedActive := false, phase := Idle)];
        return None;
      }
      if tally.allActive {
        robots := robots[id := robots[id].(confirmedActive := true, phase := Idle)];
        return None;
      }
      robots := robots[id := robots[id].(confirmedActive := false)];
      if tally.allUnconfigured {
        command := RequestNav2Startup(id, now, serviceReady);
      } else {
        command := RequestNav2Reset(id, now, serviceReady);
      }
    }

    method RequestNav2Startup(id: string, now: Time, serviceReady: bool) returns (command: Option<Command>)
      modifies `robots
      ensures id !in old(robots) ==> robots == old(robots) && command == None
      ensures id in old(robots) ==>
                var (r, c) := RequestStartup(cfg, old(robots)[id], now, serviceReady);
                robots == old(robots)[id := r] && command == c
    {
      if id !in robots {
        return None;
      }
      var last := robots[id].lastStartup;
      var elapsed := if last > 0.0 then now - last else cfg.startupRetry;
      if elapsed < cfg.startupRetry || !serviceReady {
        robots := robots[id := robots[id].(phase := Idle)];
        return None;
      }
      robots := robots[id := robots[id].(phase := StartupPending, lastStartup := now)];
      return Some(Startup);
    }

    method RequestNav2Reset(id: string, now: Time, serviceReady: bool) returns (command: Option<Command>)
      modifies `robots
      ensures id !in old(robots) ==> robots == old(robots) && command == None
      ensures id in old(robots) ==>
                var (r, c) := RequestReset(cfg, old(robots)[id], now, serviceReady);
                robots == old(robots)[id := r] && command == c
    {
      if id !in robots {
        return None;
      }
      var last := robots[id].lastReset;
      var elapsed := if last > 0.0 then now - last else cfg.resetRetry;
      if elapsed < cfg.resetRetry || !serviceReady {
        robots := robots[id := robots[id].(phase := Idle)];
        return None;
      }
      robots := robots[id := robots[id].(phase := ResetPending, lastReset := now)];
      return Some(Reset);
    }

    /** A STARTUP or RESET request has ended, whatever its outcome. */
    method CommandCallback(id: string)
      modifies `robots
      ensures id !in old(robots) ==> robots == old(robots)
      ensures id in old(robots) ==> robots == old(robots)[id := CommandReturned(old(robots)[id])]
    {
      if id !in robots {
        return;
      }
      robots := robots[id := robots[id].(phase := Idle)];
    }

    /** One visit of a check: updates the robot and says whether it is ready. */
    method CheckRobot(id: string, now: Time, o: Observed) returns (ready: bool, poll: Option<Poll>)
      modifies `robots
      ensures id !in old(robots) ==> robots == old(robots) && !ready && poll == None
      ensures id in old(robots) ==>
                var (r, polled) := Checked(cfg, old(robots)[id], InputsOf(o), now);
                && robots == old(robots)[id := r]
                && (ready <==> InputsReady(old(robots)[id], InputsOf(o)) && r.confirmedActive)
                && (poll.Some? <==> polled)
                && (polled ==> poll.value.id == id && poll.value.generation == r.pollGeneration)
      ensures poll.Some? ==> fresh(poll.value.tally) && poll.value.tally.View() == FRESH_TALLY
    {
      poll := None;
      if id !in robots {
        return false, None;
      }
      robots := robots[id := robots[id].(tfAvailable := o.tf, lifecycleAvailable := o.lifecycle)];
      var r := robots[id];
      if !(r.mapReceived && r.tfAvailable && r.lifecycleAvailable) {
        robots := robots[id := r.(phase := WaitingForInputs)];
        return false, None;
      }
      if r.phase == Polling && now - r.pollStartedAt > cfg.pollTimeout {
        r := r.(pollGeneration := r.pollGeneration + 1, phase := Idle);
      }
      if r.phase == WaitingForInputs {
        r := r.(phase := Idle);
      }
      robots := robots[id := r];
      if r.phase == Idle {
        var tally, generation := PollLifecycleStates(id, now, o.services);
        if tally != null {
          poll := Some(Poll(id, generation, tally));
        }
      }
      ready := robots[id].confirmedActive;
    }

    /** All visits of a check, in the order of the ids: `observed[k]` is what the k-th visit finds. */
    method CheckRobots(now: Time, observed: seq<Observed>) returns (allReady: bool, polls: seq<Poll>)
      requires |observed| == |robotIds|
      modifies `robots
      ensures (robots, allReady) == Visited(cfg, old(robots), robotIds, AllInputs(observed), now)
      ensures Numbers(polls) == PollsStarted(cfg, old(robots), robotIds, AllInputs(observed), now)
      ensures forall k :: 0 <= k < |polls| ==> fresh(polls[k].tally) && polls[k].tally.View() == FRESH_TALLY
    {
      hide Visited, PollsStarted, Checked, InputsReady, InputsOf, FRESH_TALLY;
      allReady, polls := true, [];
      ghost var inputs := AllInputs(observed);
      var k := 0;
      VisitNone(cfg, robots, now);
      while k < |robotIds|
        invariant 0 <= k <= |robotIds|
        invariant (robots, allReady) == Visited(cfg, old(robots), robotIds[..k], inputs[..k], now)
        invariant Numbers(polls) == PollsStarted(cfg, old(robots), robotIds[..k], inputs[..k], now)
        invariant forall i :: 0 <= i < |polls| ==> fresh(polls[i].tally) && polls[i].tally.View() == FRESH_TALLY
      {
        VisitOneMore(cfg, old(robots), robotIds, inputs, now, k);
        var ready, poll := CheckRobot(robotIds[k], now, observed[k]);
        if poll.Some? {
          polls := polls + [poll.value];
        }
        if !ready {
          allReady := false;
        }
        k := k + 1;
      }
      assert robotIds[..k] == robotIds && inputs[..k] == inputs;
    }

    /** The readiness timer. Returns the polls started. */
    method CheckReadiness(now: Time, observed: seq<Observed>) returns (polls: seq<Poll>)
      requires Valid() && |observed| == |robotIds|
      modifies `robots, `hasPublishedReady, `lastPublishedReady, `sent, `values
      ensures Valid()
      ensures now <= 0.0 ==> robots == old(robots) && values == old(values) + [false] && polls == []
      ensures now > 0.0 ==>
                var (after, ready) := Visited(cfg, old(robots), robotIds, AllInputs(observed), now);
                && robots == after && values == old(values) + [ready]
                && Numbers(polls) == PollsStarted(cfg, old(robots), robotIds, AllInputs(observed), now)
      ensures forall k :: 0 <= k < |polls| ==> fresh(polls[k].tally) && polls[k].tally.View() == FRESH_TALLY
    {
      hide Visited, PollsStarted;
      if now <= 0.0 {
        PublishReady(false);
        return [];
      }
      var allReady;
      allReady, polls := CheckRobots(now, observed);
      PublishReady(allReady);
    }
  }
}
