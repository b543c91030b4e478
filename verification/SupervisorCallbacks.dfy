/** What the supervisor's callbacks do, told by the robot's fields, the answers and the parameters alone. */
module SupervisorCallbacks {
  import opened Common
  import opened SupervisorRobot
  import opened SupervisorRuns
  import opened SupervisorInvariant
  import opened SupervisorGuarantees

  /* Finished polls. */

  /** The command was never sent before, or at least a retry period ago. */
  predicate MaySend(last: Time, retry: Time, now: Time, serviceReady: bool) {
    serviceReady && (last > 0.0 ==> now - last >= retry)
  }

  /**
   A finished poll sends RESET if and only if no query failed, the nodes were neither all active nor all unconfigured,
   the service is ready and no RESET was sent within the retry period; STARTUP likewise if all were unconfigured.
   */
  lemma FinishSendsIff(cfg: Config, r: Robot, t: Tally, now: Time, serviceReady: bool)
    ensures
      var sent := FinishPoll(cfg, r, t, now, serviceReady).1;
      && (sent == Some(Reset) <==>
            && !t.queryFailed && !t.allActive && !t.allUnconfigured
            && serviceReady && (r.lastReset > 0.0 ==> now - r.lastReset >= cfg.resetRetry))
      && (sent == Some(Startup) <==>
            && !t.queryFailed && !t.allActive && t.allUnconfigured
            && serviceReady && (r.lastStartup > 0.0 ==> now - r.lastStartup >= cfg.startupRetry))
  {
  }

  /**
   It leaves the robot waiting for that command, whose time it notes, or idle; confirmed if and only if no query
   failed and all nodes were active; and nothing else changes.
   */
  lemma FinishLeaves(cfg: Config, r: Robot, t: Tally, now: Time, serviceReady: bool)
    ensures
      var (r2, sent) := FinishPoll(cfg, r, t, now, serviceReady);
      && r2 == r.(confirmedActive := r2.confirmedActive, phase := r2.phase,
                  lastStartup := r2.lastStartup, lastReset := r2.lastReset)
      && (r2.confirmedActive <==> !t.queryFailed && t.allActive)
      && (r2.phase == StartupPending <==> sent == Some(Startup))
      && (r2.phase == ResetPending <==> sent == Some(Reset))
      && (r2.phase == Idle <==> sent == None)
      && r2.lastStartup == (if sent == Some(Startup) then now else r.lastStartup)
      && r2.lastReset == (if sent == Some(Reset) then now else r.lastReset)
  {
  }

  /** The last missing answer to the current poll. */
  predicate IsLastAnswer(s: System, e: Event) {
    && e.what.GetState? && e.what.generation == s.robot.pollGeneration
    && s.robot.pollGeneration in s.polls && s.polls[s.robot.pollGeneration].unanswered == {e.what.node}
  }

  /** The answers of the current poll, with that last one. */
  function AllAnswers(s: System, e: Event): map<nat, Answer>
    requires IsLastAnswer(s, e)
  {
    s.polls[s.robot.pollGeneration].counted[e.what.node := e.what.answer]
  }

  predicate SendsReset(cfg: Config, s: System, e: Event) {
    && IsLastAnswer(s, e)
    && !SomeFailed(AllAnswers(s, e))
    && !AllAre(AllAnswers(s, e), IsActive) && !AllAre(AllAnswers(s, e), IsUnconfigured)
    && MaySend(s.robot.lastReset, cfg.resetRetry, e.at, e.what.serviceReady)
  }

  predicate SendsStartup(cfg: Config, s: System, e: Event) {
    && IsLastAnswer(s, e)
    && AllAre(AllAnswers(s, e), IsUnconfigured)
    && MaySend(s.robot.lastStartup, cfg.startupRetry, e.at, e.what.serviceReady)
  }

  lemma UnconfiguredIsNotActive(answers: map<nat, Answer>, node: nat)
    requires node in answers && AllAre(answers, IsUnconfigured)
    ensures !SomeFailed(answers) && !AllAre(answers, IsActive)
  {
  }

  lemma TallyOfAnswers(t: Tally, answers: map<nat, Answer>)
    requires TallyMatches(t, answers)
    ensures t.allActive == AllAre(answers, IsActive) && t.allUnconfigured == AllAre(answers, IsUnconfigured)
    ensures t.queryFailed == SomeFailed(answers)
  {
    hide AllAre, SomeFailed;
  }

  lemma LastAnswerTally(s: System, e: Event)
    requires Polls(s) && Enabled(s, e) && IsLastAnswer(s, e)
    ensures
      var p2 := OneMore(s.polls[s.robot.pollGeneration], e.what.node, e.what.answer);
      p2.counted == AllAnswers(s, e) && TallyMatches(p2.tally, p2.counted) && p2.tally.remaining == 0
  {
    hide TallyMatches, Nodes;
    OneMoreOk(s.polls[s.robot.pollGeneration], e.what.node, e.what.answer);
  }

  /**
   In every run, a callback finishes a poll if and only if it is the last missing answer to the current one, and it
   sends a command if and only if the six answers and the retry period call for it: RESET, STARTUP or none.
   */
  lemma CommandsAreSentIff(cfg: Config, es: seq<Event>, e: Event)
    requires Run(cfg, es).Some? && Enabled(Run(cfg, es).value, e)
    ensures
      var s, s2 := Run(cfg, es).value, Step(cfg, Run(cfg, es).value, e);
      && s2.finished == s.finished
           + (if IsLastAnswer(s, e) then [Finish(s.robot.pollGeneration, AllAnswers(s, e))] else [])
      && s2.sent == s.sent
           + (if SendsReset(cfg, s, e) then [Sent(Reset, e.at, |s.finished|)]
              else if SendsStartup(cfg, s, e) then [Sent(Startup, e.at, |s.finished|)]
              else [])
  {
    var s := Run(cfg, es).value;
    InvariantHolds(cfg, es);
    PollsHold(cfg, s);
    hide *;
    if IsLastAnswer(s, e) {
      LastAnswerSends(cfg, s, e);
    } else {
      OthersSendNothing(cfg, s, e);
    }
  }

  lemma LastAnswerSends(cfg: Config, s: System, e: Event)
    requires Polls(s) && Enabled(s, e) && IsLastAnswer(s, e)
    ensures
      var s2 := Step(cfg, s, e);
      && s2.finished == s.finished + [Finish(s.robot.pollGeneration, AllAnswers(s, e))]
      && s2.sent == s.sent
           + (if SendsReset(cfg, s, e) then [Sent(Reset, e.at, |s.finished|)]
              else if SendsStartup(cfg, s, e) then [Sent(Startup, e.at, |s.finished|)]
              else [])
  {
    hide *;
    var sent := LastAnswerLogs(cfg, s, e);
    assert sent.Some? ==> sent.value == Reset || sent.value == Startup;
  }

  /** The answers and the retry period decide what the finished poll sends. */
  lemma LastAnswerLogs(cfg: Config, s: System, e: Event) returns (sent: Option<Command>)
    requires Polls(s) && Enabled(s, e) && IsLastAnswer(s, e)
    ensures
      var s2 := Step(cfg, s, e);
      && s2.finished == s.finished + [Finish(s.robot.pollGeneration, AllAnswers(s, e))]
      && s2.sent == s.sent + (if sent.Some? then [Sent(sent.value, e.at, |s.finished|)] else [])
    ensures sent == Some(Reset) <==> SendsReset(cfg, s, e)
    ensures sent == Some(Startup) <==> SendsStartup(cfg, s, e)
  {
    hide Polls, Step, OneMore, FinishPoll, AllAre, SomeFailed, TallyMatches, AfterAnswer;
    var g, node, a := e.what.generation, e.what.node, e.what.answer;
    var p2 := OneMore(s.polls[g], node, a);
    LastAnswerTally(s, e);
    sent := FinishPoll(cfg, s.robot, p2.tally, e.at, e.what.serviceReady).1;
    LastAnswerShape(cfg, s, e.at, g, node, a, e.what.serviceReady);
    AnswerStep(cfg, s, e);
    TallyOfAnswers(p2.tally, p2.counted);
    FinishSendsIff(cfg, s.robot, p2.tally, e.at, e.what.serviceReady);
    if AllAre(p2.counted, IsUnconfigured) {
      UnconfiguredIsNotActive(p2.counted, node);
    }
  }

  lemma AnswerStep(cfg: Config, s: System, e: Event)
    requires Enabled(s, e) && e.what.GetState?
    ensures e.what.generation in s.polls
    ensures
      Step(cfg, s, e)
        == AfterAnswer(cfg, s, e.at, e.what.generation, e.what.node, e.what.answer, e.what.serviceReady)
  {
    hide AfterAnswer;
  }

  lemma OthersSendNothing(cfg: Config, s: System, e: Event)
    requires Polls(s) && Enabled(s, e) && !IsLastAnswer(s, e)
    ensures Step(cfg, s, e).finished == s.finished && Step(cfg, s, e).sent == s.sent
    ensures !SendsReset(cfg, s, e) && !SendsStartup(cfg, s, e)
  {
    hide Polls, FinishPoll, Checked, AllAnswers;
    if e.what.GetState? && e.what.generation == s.robot.pollGeneration {
      var g, node, a := e.what.generation, e.what.node, e.what.answer;
      if OneMore(s.polls[g], node, a).tally.remaining == 0 {
        LastMissing(s, node, a);
      }
    }
  }

  /** A command that ends leaves the robot idle, whatever it was waiting for, and changes nothing else about it. */
  lemma CommandEnds(cfg: Config, s: System, e: Event)
    requires Enabled(s, e) && e.what.CommandReturns?
    ensures
      var s2 := Step(cfg, s, e);
      && s2.robot == s.robot.(phase := Idle)
      && s2.startups + s2.resets + 1 == s.startups + s.resets
      && (s2.resets < s.resets <==> e.what.command == Reset)
  {
  }

  /* Checks. */

  /** A check abandons the poll of a robot with all inputs if and only if it has lasted longer than the timeout. */
  lemma WatchdogIff(cfg: Config, r: Robot, i: Inputs, now: Time)
    requires r.phase == Polling && r.mapReceived && i.tf && i.lifecycle
    ensures Checked(cfg, r, i, now).0.pollGeneration > r.pollGeneration <==> now - r.pollStartedAt > cfg.pollTimeout
  {
  }

  /** The robot's poll has lasted longer than the timeout. */
  predicate Expired(cfg: Config, r: Robot, now: Time) {
    r.phase == Polling && now - r.pollStartedAt > cfg.pollTimeout
  }

  /**
   A check starts a poll if and only if the robot has a map, TF, the lifecycle service and all state services, and
   is waiting for inputs, idle, or polling for too long. An abandoned poll uses up a number of its own.
   */
  lemma CheckMeans(cfg: Config, r: Robot, i: Inputs, now: Time)
    ensures
      var (r2, polled) := Checked(cfg, r, i, now);
      var ready := r.mapReceived && i.tf && i.lifecycle;
      && r2 == r.(tfAvailable := i.tf, lifecycleAvailable := i.lifecycle, phase := r2.phase,
                  pollStartedAt := r2.pollStartedAt, pollGeneration := r2.pollGeneration)
      && (polled <==>
            && ready && i.stateServices
            && (r.phase == WaitingForInputs || r.phase == Idle
                || (r.phase == Polling && now - r.pollStartedAt > cfg.pollTimeout)))
      && r2.pollGeneration == r.pollGeneration + (if ready && Expired(cfg, r, now) then 1 else 0)
                              + (if polled then 1 else 0)
      && r2.pollStartedAt == (if polled then now else r.pollStartedAt)
      && (!ready ==> r2.phase == WaitingForInputs)
      && (polled ==> r2.phase == Polling)
      && (ready && !polled ==>
            r2.phase == if r.phase == WaitingForInputs || Expired(cfg, r, now) then Idle else r.phase)
  {
  }

  /**
   No robot is stuck: in every run, a check that finds the inputs and state services of a robot leaves it waiting for
   a command, or polling since at most the poll timeout, or since just now.
   */
  lemma NoPollLastsForever(cfg: Config, s: System, e: Event)
    requires Enabled(s, e) && e.what.Check? && e.at > 0.0
    requires s.robot.mapReceived && e.what.inputs == Inputs(true, true, true)
    ensures
      var r := Step(cfg, s, e).robot;
      || r.phase == StartupPending || r.phase == ResetPending
      || (r.phase == Polling && (e.at - r.pollStartedAt <= cfg.pollTimeout || r.pollStartedAt == e.at))
  {
    CheckMeans(cfg, s.robot, e.what.inputs, e.at);
    hide Checked;
  }
}
