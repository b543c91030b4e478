/** Six answers always finish a poll; and a run in which two STARTUP commands of a robot are outstanding at once. */
module SupervisorTrace {
  import opened Common
  import opened Counting
  import opened SupervisorRobot
  import opened SupervisorRuns
  import opened SupervisorInvariant
  import opened SupervisorGuarantees

  lemma Extend(cfg: Config, es: seq<Event>, e: Event)
    requires Run(cfg, es).Some? && Enabled(Run(cfg, es).value, e)
    ensures Run(cfg, es + [e]) == Some(Step(cfg, Run(cfg, es).value, e))
  {
    assert (es + [e])[..|es + [e]| - 1] == es;
  }

  lemma NodesAre(n: nat)
    ensures n in Nodes() <==> n < NODE_COUNT
  {
  }

  /** The first `n` nodes of poll `g` give the same answer. */
  function Replies(g: nat, a: Answer, at: Time, n: nat): (es: seq<Event>)
    ensures |es| == n
  {
    if n == 0 then [] else Replies(g, a, at, n - 1) + [Event(at, GetState(g, n - 1, a, true))]
  }

  /** `n` of the answers to a fresh poll, all the same, have been counted. */
  predicate Heard(s: System, s2: System, g: nat, a: Answer, at: Time, n: nat) {
    && n <= NODE_COUNT && g in s2.polls
    && s2.now == (if n == 0 then s.now else at)
    && s2.robot == s.robot && s2.startups == s.startups && s2.resets == s.resets
    && s2.polls[g].unanswered == Nodes() - Below(n)
    && s2.polls[g].tally ==
         Tally(NODE_COUNT - n, n > 0 ==> a == IsActive, n > 0 ==> a == IsUnconfigured, n > 0 && a == QueryFailed)
  }


  lemma OneReply(cfg: Config, s: System, s2: System, g: nat, a: Answer, at: Time, n: nat)
    requires 0 < n < NODE_COUNT && Heard(s, s2, g, a, at, n - 1)
    requires g == s.robot.pollGeneration && s.now <= at
    ensures
      var e := Event(at, GetState(g, n - 1, a, true));
      Enabled(s2, e) && Heard(s, Step(cfg, s2, e), g, a, at, n)
  {
    hide Nodes, FinishPoll;
    NodesAre(n - 1);
    CountedAnswerShape(cfg, s2, at, g, n - 1, a, true);
  }

  lemma {:induction false} RepliesAreCounted(cfg: Config, es: seq<Event>, g: nat, a: Answer, at: Time, n: nat)
    requires Run(cfg, es).Some? && n < NODE_COUNT
    requires Heard(Run(cfg, es).value, Run(cfg, es).value, g, a, at, 0)
    requires g == Run(cfg, es).value.robot.pollGeneration && Run(cfg, es).value.now <= at
    ensures Run(cfg, es + Replies(g, a, at, n)).Some?
    ensures Heard(Run(cfg, es).value, Run(cfg, es + Replies(g, a, at, n)).value, g, a, at, n)
  {
    hide Run, Heard, Step, Enabled;
    if n == 0 {
      assert es + Replies(g, a, at, n) == es;
    } else {
      RepliesAreCounted(cfg, es, g, a, at, n - 1);
      var mid := es + Replies(g, a, at, n - 1);
      var e := Event(at, GetState(g, n - 1, a, true));
      OneReply(cfg, Run(cfg, es).value, Run(cfg, mid).value, g, a, at, n);
      Extend(cfg, mid, e);
      assert mid + [e] == es + Replies(g, a, at, n);
    }
  }

  /** Six equal answers to the poll just started finish it at once, with the outcome they all report. */
  lemma SixRepliesFinish(cfg: Config, es: seq<Event>, g: nat, a: Answer, at: Time)
    requires Run(cfg, es).Some? && Heard(Run(cfg, es).value, Run(cfg, es).value, g, a, at, 0)
    requires g == Run(cfg, es).value.robot.pollGeneration && Run(cfg, es).value.now <= at
    ensures Run(cfg, es + Replies(g, a, at, NODE_COUNT)).Some?
    ensures
      var s := Run(cfg, es).value;
      var s2 := Run(cfg, es + Replies(g, a, at, NODE_COUNT)).value;
      var t := Tally(0, a == IsActive, a == IsUnconfigured, a == QueryFailed);
      var (r, sent) := FinishPoll(cfg, s.robot, t, at, true);
      && s2.robot == r && s2.now == at
      && s2.startups == (if sent == Some(Startup) then s.startups + 1 else s.startups)
      && s2.resets == (if sent == Some(Reset) then s.resets + 1 else s.resets)
  {
    var n := NODE_COUNT - 1;
    RepliesAreCounted(cfg, es, g, a, at, n);
    var mid := es + Replies(g, a, at, n);
    var s2 := Run(cfg, mid).value;
    var e := Event(at, GetState(g, n, a, true));
    hide Run, FinishPoll;
    assert Enabled(s2, e);
    Extend(cfg, mid, e);
    assert mid + [e] == es + Replies(g, a, at, NODE_COUNT);
    LastAnswerShape(cfg, s2, at, g, n, a, true);
  }

  /** A check that finds all inputs of a waiting robot ready starts a poll. */
  lemma CheckPolls(cfg: Config, es: seq<Event>, at: Time)
    requires Run(cfg, es).Some?
    requires
      var s := Run(cfg, es).value;
      s.now <= at && at > 0.0 && s.robot.mapReceived && s.robot.phase == WaitingForInputs
    ensures
      var s, e := Run(cfg, es).value, Event(at, Check(Inputs(true, true, true)));
      var out := Run(cfg, es + [e]);
      && out.Some? && Heard(out.value, out.value, out.value.robot.pollGeneration, IsUnconfigured, at, 0)
      && out.value.robot == s.robot.(phase := Polling, tfAvailable := true, lifecycleAvailable := true,
                                     pollStartedAt := at, pollGeneration := s.robot.pollGeneration + 1)
      && out.value.startups == s.startups && out.value.now == at
  {
    Extend(cfg, es, Event(at, Check(Inputs(true, true, true))));
    hide Run, Nodes;
    assert Nodes() - Below(0) == Nodes();
  }

  /** `n` STARTUP commands are outstanding, the last one sent just now. */
  predicate Launched(s: System, n: nat) {
    && s.startups == n && s.robot.phase == StartupPending && s.robot.mapReceived
    && s.robot.lastStartup == s.now > 0.0
  }

  lemma Launch(cfg: Config) returns (es: seq<Event>)
    ensures Run(cfg, es).Some? && Launched(Run(cfg, es).value, 1)
  {
    es := [];
    assert Run(cfg, es) == Some(BOOT);
    Extend(cfg, es, Event(1.0, MapMessage(true)));
    es := es + [Event(1.0, MapMessage(true))];
    CheckPolls(cfg, es, 1.0);
    es := es + [Event(1.0, Check(Inputs(true, true, true)))];
    hide Run, Nodes;
    var g := Run(cfg, es).value.robot.pollGeneration;
    SixRepliesFinish(cfg, es, g, IsUnconfigured, 1.0);
    es := es + Replies(g, IsUnconfigured, 1.0, NODE_COUNT);
  }

  /** Inputs that are lost and come back let one more STARTUP go out while the others are outstanding. */
  lemma LaunchAgain(cfg: Config, es: seq<Event>, n: nat) returns (es2: seq<Event>)
    requires Run(cfg, es).Some? && Launched(Run(cfg, es).value, n)
    ensures Run(cfg, es2).Some? && Launched(Run(cfg, es2).value, n + 1)
  {
    hide Run, Nodes;
    var now := Run(cfg, es).value.now;
    var lost := Event(now, Check(Inputs(false, true, true)));
    Extend(cfg, es, lost);
    es2 := es + [lost];
    var later := now + if cfg.startupRetry > 0.0 then cfg.startupRetry else 0.0;
    CheckPolls(cfg, es2, later);
    es2 := es2 + [Event(later, Check(Inputs(true, true, true)))];
    var g := Run(cfg, es2).value.robot.pollGeneration;
    SixRepliesFinish(cfg, es2, g, IsUnconfigured, later);
    es2 := es2 + Replies(g, IsUnconfigured, later, NODE_COUNT);
  }

  /**
   Whatever the retry period, there is no bound on the STARTUP commands that can be outstanding at once: inputs
   lost while one is outstanding let the robot be polled and sent another before any has returned.
   */
  lemma {:induction false} StartupsPileUp(cfg: Config, n: nat) returns (es: seq<Event>)
    ensures Run(cfg, es).Some? && Run(cfg, es).value.startups == n
    ensures n > 0 ==> Launched(Run(cfg, es).value, n)
    ensures n > 1 ==> !Orderly(Run(cfg, es).value)
  {
    if n == 0 {
      es := [];
    } else if n == 1 {
      es := Launch(cfg);
    } else {
      es := StartupsPileUp(cfg, n - 1);
      es := LaunchAgain(cfg, es, n - 1);
    }
  }

  /** Already two at once put the phase out of step with what is in flight. */
  lemma LostInputsAllowTwoStartups(cfg: Config) returns (es: seq<Event>)
    ensures Run(cfg, es).Some? && Run(cfg, es).value.startups == 2 && !Orderly(Run(cfg, es).value)
  {
    es := StartupsPileUp(cfg, 2);
  }
}
