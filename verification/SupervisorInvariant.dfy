/** What every callback of the supervisor keeps, and what follows for polls, commands and phases. */
module SupervisorInvariant {
  import opened Common
  import opened Counting
  import opened SupervisorRobot
  import opened SupervisorRuns

  predicate AllAre(answers: map<nat, Answer>, a: Answer) {
    forall n :: n in answers ==> answers[n] == a
  }

  predicate SomeFailed(answers: map<nat, Answer>) {
    exists n :: n in answers && answers[n] == QueryFailed
  }

  /** The shared counters say exactly what the answers counted so far say. */
  predicate TallyMatches(t: Tally, counted: map<nat, Answer>) {
    && t.remaining + |counted| == NODE_COUNT
    && (t.allActive <==> AllAre(counted, IsActive))
    && (t.allUnconfigured <==> AllAre(counted, IsUnconfigured))
    && (t.queryFailed <==> SomeFailed(counted))
  }

  predicate PollOk(p: Poll) {
    && p.counted.Keys <= Nodes() && p.unanswered <= Nodes() && p.counted.Keys !! p.unanswered
    && TallyMatches(p.tally, p.counted)
  }

  /** A poll is in flight: the current one, with an answer missing. */
  predicate PollOpen(s: System) {
    s.robot.pollGeneration in s.polls && s.polls[s.robot.pollGeneration].unanswered != {}
  }

  predicate Polls(s: System) {
    && (forall g :: g in s.polls ==> 1 <= g <= s.robot.pollGeneration && PollOk(s.polls[g]))
    && (s.robot.pollGeneration in s.polls ==>
          s.polls[s.robot.pollGeneration].counted.Keys + s.polls[s.robot.pollGeneration].unanswered == Nodes())
    && (s.robot.phase == Polling ==> PollOpen(s))
    && (s.polls != map[] ==> s.now > 0.0)
  }

  /** A finished poll is one of the polls, and all of its nodes have answered it. */
  predicate FinishOk(s: System, f: Finish) {
    && f.generation in s.polls && f.generation <= s.robot.pollGeneration
    && f.answers == s.polls[f.generation].counted && f.answers.Keys == Nodes()
  }

  predicate FinishedPolls(s: System) {
    forall i :: 0 <= i < |s.finished| ==> FinishOk(s, s.finished[i])
  }

  predicate FinishedOnce(s: System) {
    forall i, j :: 0 <= i < j < |s.finished| ==> s.finished[i].generation < s.finished[j].generation
  }

  /** The current poll has no answer missing exactly when it is the last one that finished. */
  predicate FinishedCurrent(s: System) {
    (s.robot.pollGeneration in s.polls && !PollOpen(s)) <==>
      (s.finished != [] && s.finished[|s.finished| - 1].generation == s.robot.pollGeneration)
  }

  predicate ConfirmedByLast(s: System) {
    s.robot.confirmedActive <==>
      s.finished != [] && AllAre(s.finished[|s.finished| - 1].answers, IsActive)
  }

  predicate FinishLog(s: System) {
    FinishedPolls(s) && FinishedOnce(s) && FinishedCurrent(s) && ConfirmedByLast(s)
  }

  /** The answers of a finished poll call for a command: STARTUP if all are unconfigured, RESET if they are mixed. */
  predicate CallsFor(answers: map<nat, Answer>, c: Command) {
    match c
    case Startup => AllAre(answers, IsUnconfigured)
    case Reset => !SomeFailed(answers) && !AllAre(answers, IsActive) && !AllAre(answers, IsUnconfigured)
  }

  function LastAttempt(r: Robot, c: Command): Time {
    match c
    case Startup => r.lastStartup
    case Reset => r.lastReset
  }

  function RetryPeriod(cfg: Config, c: Command): Time {
    match c
    case Startup => cfg.startupRetry
    case Reset => cfg.resetRetry
  }

  /** A command was called for by a finished poll, and its attempt time is remembered. */
  predicate SentOk(s: System, c: Sent) {
    && c.cause < |s.finished| && CallsFor(s.finished[c.cause].answers, c.command)
    && 0.0 < c.at <= s.now && c.at <= LastAttempt(s.robot, c.command)
  }

  predicate SentPolls(s: System) {
    forall k :: 0 <= k < |s.sent| ==> SentOk(s, s.sent[k])
  }

  predicate Spaced(cfg: Config, first: Sent, second: Sent) {
    first.command == second.command ==> second.at - first.at >= RetryPeriod(cfg, first.command)
  }

  predicate SentSpaced(cfg: Config, s: System) {
    forall i, j :: 0 <= i < j < |s.sent| ==> Spaced(cfg, s.sent[i], s.sent[j])
  }

  predicate CommandLog(cfg: Config, s: System) {
    SentPolls(s) && SentSpaced(cfg, s)
  }

  predicate Inv(cfg: Config, s: System) {
    Polls(s) && FinishLog(s) && CommandLog(cfg, s)
  }

  /** A check keeps what polls concluded, moves the generation on only by abandoning or starting a poll. */
  lemma CheckedShape(cfg: Config, r: Robot, i: Inputs, now: Time)
    ensures
      var (r2, polled) := Checked(cfg, r, i, now);
      && r2.confirmedActive == r.confirmedActive
      && r2.lastStartup == r.lastStartup && r2.lastReset == r.lastReset
      && if polled then r2.phase == Polling && r2.pollGeneration > r.pollGeneration
         else if r2.pollGeneration == r.pollGeneration
         then r2.phase == r.phase || r2.phase == WaitingForInputs || r2.phase == Idle
         else r2.pollGeneration > r.pollGeneration && r2.phase == Idle
  {
  }

  const NEW_POLL: Poll := Poll(FRESH_TALLY, map[], Nodes())

  lemma NewPollOk()
    ensures PollOk(NEW_POLL) && NEW_POLL.unanswered != {}
    ensures NEW_POLL.counted.Keys + NEW_POLL.unanswered == Nodes()
  {
    assert 0 in NEW_POLL.unanswered;
    assert AllAre(map[], IsActive) && AllAre(map[], IsUnconfigured) && !SomeFailed(map[]);
  }

  lemma CheckKeepsPolls(cfg: Config, s: System, at: Time, i: Inputs)
    requires Polls(s) && s.now <= at
    ensures Polls(AfterCheck(cfg, s, at, i))
  {
    hide Checked, PollOk, Nodes;
    CheckedShape(cfg, s.robot, i, at);
    NewPollOk();
    var s2 := AfterCheck(cfg, s, at, i);
    forall g | g in s2.polls ensures 1 <= g <= s2.robot.pollGeneration && PollOk(s2.polls[g]) {
      assert g in s.polls ==> PollOk(s.polls[g]);
    }
  }

  lemma CheckKeepsFinishes(cfg: Config, s: System, at: Time, i: Inputs)
    requires Polls(s) && FinishLog(s)
    ensures FinishLog(AfterCheck(cfg, s, at, i))
  {
    hide Checked, PollOk, AllAre, Nodes;
    CheckedShape(cfg, s.robot, i, at);
    NewPollOk();
    var s2 := AfterCheck(cfg, s, at, i);
    forall k | 0 <= k < |s2.finished| ensures FinishOk(s2, s2.finished[k]) {
      assert FinishOk(s, s.finished[k]);
    }
  }

  lemma CheckKeepsCommands(cfg: Config, s: System, at: Time, i: Inputs)
    requires CommandLog(cfg, s) && s.now <= at
    ensures CommandLog(cfg, AfterCheck(cfg, s, at, i))
  {
    hide Checked, CallsFor, Nodes;
    CheckedShape(cfg, s.robot, i, at);
    var s2 := AfterCheck(cfg, s, at, i);
    forall k | 0 <= k < |s2.sent| ensures SentOk(s2, s2.sent[k]) {
      assert SentOk(s, s.sent[k]);
    }
  }

  lemma CheckKeepsInv(cfg: Config, s: System, at: Time, i: Inputs)
    requires Inv(cfg, s) && s.now <= at
    ensures Inv(cfg, AfterCheck(cfg, s, at, i))
  {
    CheckKeepsPolls(cfg, s, at, i);
    CheckKeepsFinishes(cfg, s, at, i);
    CheckKeepsCommands(cfg, s, at, i);
    hide Polls, FinishLog, CommandLog, AfterCheck;
  }

  lemma CountingMatches(t: Tally, counted: map<nat, Answer>, node: nat, a: Answer)
    requires TallyMatches(t, counted) && node !in counted
    requires t.remaining > 0
    ensures TallyMatches(Counted(t, a), counted[node := a])
  {
    var more := counted[node := a];
    assert more.Keys == counted.Keys + {node};
    assert more[node] == a;
    assert forall n :: n in counted ==> more[n] == counted[n];
    if SomeFailed(counted) {
      var n :| n in counted && counted[n] == QueryFailed;
      assert more[n] == QueryFailed;
    }
  }

  /** The tally runs out exactly when the last node of the poll has answered. */
  lemma RemainingIsUnanswered(p: Poll)
    requires PollOk(p) && p.counted.Keys + p.unanswered == Nodes()
    ensures p.tally.remaining == |p.unanswered|
  {
    assert |p.counted| == |p.counted.Keys|;
    DisjointSize(p.counted.Keys, p.unanswered);
    BelowSize(NODE_COUNT);
  }

  /* What an answer does. */

  /** The poll after one more counted answer. */
  function OneMore(p: Poll, node: nat, a: Answer): Poll {
    Poll(Counted(p.tally, a), p.counted[node := a], p.unanswered - {node})
  }

  lemma OneMoreOk(p: Poll, node: nat, a: Answer)
    requires PollOk(p) && p.counted.Keys + p.unanswered == Nodes() && node in p.unanswered
    ensures
      var p2 := OneMore(p, node, a);
      && PollOk(p2) && p2.counted.Keys + p2.unanswered == Nodes()
      && (p2.tally.remaining == 0 <==> p2.unanswered == {})
      && (p2.unanswered == {} ==> p2.counted.Keys == Nodes())
  {
    hide Nodes, TallyMatches, Counted;
    var p2 := OneMore(p, node, a);
    RemainingIsUnanswered(p);
    assert p2.counted.Keys == p.counted.Keys + {node};
    assert p2.counted.Keys + p2.unanswered == Nodes();
    CountingMatches(p.tally, p.counted, node, a);
    RemainingIsUnanswered(p2);
  }

  /** Finishing a poll never leaves the robot polling, and sends only what the answers call for. */
  lemma FinishShape(cfg: Config, r: Robot, t: Tally, answers: map<nat, Answer>, now: Time, serviceReady: bool)
    requires TallyMatches(t, answers)
    ensures
      var (r2, sent) := FinishPoll(cfg, r, t, now, serviceReady);
      && r2.pollGeneration == r.pollGeneration
      && (r2.confirmedActive <==> !SomeFailed(answers) && AllAre(answers, IsActive))
      && match sent
         case None => r2.phase == Idle && r2.lastStartup == r.lastStartup && r2.lastReset == r.lastReset
         case Some(c) =>
           && CallsFor(answers, c)
           && r2.phase == (if c == Startup then StartupPending else ResetPending)
           && RetryDue(LastAttempt(r, c), RetryPeriod(cfg, c), now)
           && r2.lastStartup == (if c == Startup then now else r.lastStartup)
           && r2.lastReset == (if c == Reset then now else r.lastReset)
  {
    hide AllAre, SomeFailed;
  }

  lemma NothingFailsIfAllActive(answers: map<nat, Answer>)
    requires AllAre(answers, IsActive)
    ensures !SomeFailed(answers)
  {
  }

  /** An answer of an abandoned poll is only taken off the list of unanswered requests. */
  lemma StaleAnswerShape(cfg: Config, s: System, at: Time, g: nat, node: nat, a: Answer, serviceReady: bool)
    requires g in s.polls && g != s.robot.pollGeneration
    ensures AfterAnswer(cfg, s, at, g, node, a, serviceReady) ==
      s.(polls := s.polls[g := s.polls[g].(unanswered := s.polls[g].unanswered - {node})], now := at)
  {
  }

  /** An answer of the current poll that is not the last one is only counted. */
  lemma CountedAnswerShape(cfg: Config, s: System, at: Time, g: nat, node: nat, a: Answer, serviceReady: bool)
    requires g in s.polls && g == s.robot.pollGeneration && OneMore(s.polls[g], node, a).tally.remaining != 0
    ensures AfterAnswer(cfg, s, at, g, node, a, serviceReady) ==
      s.(polls := s.polls[g := OneMore(s.polls[g], node, a)], now := at)
  {
  }

  /** The last answer of the current poll is counted and finishes the poll. */
  lemma LastAnswerShape(cfg: Config, s: System, at: Time, g: nat, node: nat, a: Answer, serviceReady: bool)
    requires g in s.polls && g == s.robot.pollGeneration && OneMore(s.polls[g], node, a).tally.remaining == 0
    ensures
      var s2 := AfterAnswer(cfg, s, at, g, node, a, serviceReady);
      var p2 := OneMore(s.polls[g], node, a);
      var (r2, sent) := FinishPoll(cfg, s.robot, p2.tally, at, serviceReady);
      && s2 == s.(robot := r2, polls := s.polls[g := p2], now := at,
                  finished := s.finished + [Finish(g, p2.counted)], sent := s2.sent,
                  startups := s2.startups, resets := s2.resets)
      && s2.startups == (if sent == Some(Startup) then s.startups + 1 else s.startups)
      && s2.resets == (if sent == Some(Reset) then s.resets + 1 else s.resets)
      && s2.sent == if sent.Some? then s.sent + [Sent(sent.value, at, |s.finished|)] else s.sent
  {
    hide FinishPoll;
  }

  lemma FewerUnansweredOk(p: Poll, u: set<nat>)
    requires PollOk(p) && u <= p.unanswered
    ensures PollOk(p.(unanswered := u))
  {
    hide TallyMatches, Nodes;
  }

  /** The command log speaks of the finished polls, the commands and the robot's attempt times only. */
  lemma CommandLogFrame(cfg: Config, s: System, s2: System)
    requires CommandLog(cfg, s)
    requires s2.robot == s.robot && s2.finished == s.finished && s2.sent == s.sent && s.now <= s2.now
    ensures CommandLog(cfg, s2)
  {
    hide CallsFor, LastAttempt, Spaced;
    forall k | 0 <= k < |s2.sent| ensures SentOk(s2, s2.sent[k]) {
      assert SentOk(s, s.sent[k]);
    }
  }

  lemma StaleAnswerKeepsPolls(s: System, s2: System, g: nat, u: set<nat>)
    requires Polls(s) && g in s.polls && g != s.robot.pollGeneration && u <= s.polls[g].unanswered
    requires s2 == s.(polls := s.polls[g := s.polls[g].(unanswered := u)], now := s2.now) && s.now <= s2.now
    ensures Polls(s2)
  {
    FewerUnansweredOk(s.polls[g], u);
    hide PollOk, Nodes;
    forall h | h in s2.polls ensures 1 <= h <= s2.robot.pollGeneration && PollOk(s2.polls[h]) {
      assert h in s.polls;
    }
  }

  lemma StaleAnswerKeepsFinishes(s: System, s2: System, g: nat, u: set<nat>)
    requires FinishLog(s) && g in s.polls && g != s.robot.pollGeneration
    requires s2 == s.(polls := s.polls[g := s.polls[g].(unanswered := u)], now := s2.now)
    ensures FinishLog(s2)
  {
    hide AllAre, Nodes;
    forall i | 0 <= i < |s2.finished| ensures FinishOk(s2, s2.finished[i]) {
      assert FinishOk(s, s.finished[i]);
    }
  }

  lemma StaleAnswerKeepsInv(cfg: Config, s: System, at: Time, g: nat, node: nat, a: Answer, serviceReady: bool)
    requires Inv(cfg, s) && s.now <= at && g in s.polls && node in s.polls[g].unanswered
    requires g != s.robot.pollGeneration
    ensures Inv(cfg, AfterAnswer(cfg, s, at, g, node, a, serviceReady))
  {
    var s2 := AfterAnswer(cfg, s, at, g, node, a, serviceReady);
    StaleAnswerShape(cfg, s, at, g, node, a, serviceReady);
    hide AfterAnswer, Polls, FinishLog, CommandLog;
    StaleAnswerKeepsPolls(s, s2, g, s.polls[g].unanswered - {node});
    StaleAnswerKeepsFinishes(s, s2, g, s.polls[g].unanswered - {node});
    CommandLogFrame(cfg, s, s2);
  }

  /** The poll `p` is still open, and `p2` is it with more answers counted. */
  predicate Advances(p: Poll, p2: Poll) {
    p.unanswered != {} && PollOk(p2) && p2.counted.Keys + p2.unanswered == Nodes()
  }

  lemma CountedAnswerKeepsPolls(s: System, s2: System, g: nat, p2: Poll)
    requires Polls(s) && g in s.polls && Advances(s.polls[g], p2)
    requires s2.polls == s.polls[g := p2] && s.now <= s2.now
    requires g == s.robot.pollGeneration == s2.robot.pollGeneration
    requires s2.robot.phase == Polling ==> p2.unanswered != {}
    ensures Polls(s2)
  {
    hide PollOk, Nodes;
    forall h | h in s2.polls ensures 1 <= h <= s2.robot.pollGeneration && PollOk(s2.polls[h]) {
      assert h in s.polls;
    }
  }

  /** An open poll has no entry in the log of finished polls. */
  lemma OpenIsUnfinished(s: System, i: nat)
    requires FinishLog(s) && PollOpen(s) && i < |s.finished|
    ensures s.finished[i].generation < s.robot.pollGeneration
  {
    hide AllAre, Nodes;
    assert FinishOk(s, s.finished[i]);
    assert FinishOk(s, s.finished[|s.finished| - 1]);
  }

  /** Counting an answer in the open poll leaves the polls that finished before as they are. */
  lemma CountedAnswerKeepsFinished(s: System, s2: System, g: nat, p2: Poll, i: nat)
    requires FinishLog(s) && PollOpen(s) && i < |s.finished|
    requires s2.polls == s.polls[g := p2] && g == s.robot.pollGeneration == s2.robot.pollGeneration
    ensures FinishOk(s2, s.finished[i]) && s.finished[i].generation < g
  {
    OpenIsUnfinished(s, i);
    hide FinishedOnce, FinishedCurrent, ConfirmedByLast, Nodes, PollOpen;
    assert FinishOk(s, s.finished[i]);
  }

  lemma CountedAnswerKeepsFinishes(s: System, s2: System, g: nat, p2: Poll)
    requires FinishLog(s) && g in s.polls && g == s.robot.pollGeneration && s.polls[g].unanswered != {}
    requires s2 == s.(polls := s.polls[g := p2], now := s2.now) && p2.unanswered != {}
    ensures FinishLog(s2)
  {
    hide AllAre, FinishOk;
    forall i | 0 <= i < |s2.finished| ensures FinishOk(s2, s2.finished[i]) {
      CountedAnswerKeepsFinished(s, s2, g, p2, i);
    }
    if s.finished != [] {
      OpenIsUnfinished(s, |s.finished| - 1);
    }
  }

  lemma CountedAnswerKeepsInv(cfg: Config, s: System, at: Time, g: nat, node: nat, a: Answer, serviceReady: bool)
    requires Inv(cfg, s) && s.now <= at && g in s.polls && node in s.polls[g].unanswered
    requires g == s.robot.pollGeneration && OneMore(s.polls[g], node, a).tally.remaining != 0
    ensures Inv(cfg, AfterAnswer(cfg, s, at, g, node, a, serviceReady))
  {
    var s2 := AfterAnswer(cfg, s, at, g, node, a, serviceReady);
    var p2 := OneMore(s.polls[g], node, a);
    CurrentPoll(cfg, s, node);
    CountedAnswerShape(cfg, s, at, g, node, a, serviceReady);
    OneMoreOk(s.polls[g], node, a);
    hide AfterAnswer, PollOk, OneMore, Nodes, Polls, FinishLog, CommandLog;
    CountedAnswerKeepsPolls(s, s2, g, p2);
    CountedAnswerKeepsFinishes(s, s2, g, p2);
    CommandLogFrame(cfg, s, s2);
  }

  lemma CurrentPoll(cfg: Config, s: System, node: nat)
    requires Inv(cfg, s) && s.robot.pollGeneration in s.polls
    ensures
      var p := s.polls[s.robot.pollGeneration];
      PollOk(p) && p.counted.Keys + p.unanswered == Nodes()
  {
    hide PollOk, Nodes, FinishLog, CommandLog;
  }

  /** What the last answer does to the system, told by the finished poll and the command it calls for. */
  predicate Finishes(cfg: Config, s: System, s2: System, p2: Poll, sent: Option<Command>) {
    var g := s.robot.pollGeneration;
    && g in s.polls && Advances(s.polls[g], p2) && p2.unanswered == {}
    && s2.polls == s.polls[g := p2] && s.now <= s2.now
    && s2.finished == s.finished + [Finish(g, p2.counted)]
    && s2.robot.pollGeneration == g && s2.robot.phase != Polling
    && (s2.robot.confirmedActive <==> AllAre(p2.counted, IsActive))
    && match sent
       case None =>
         && s2.sent == s.sent
         && s2.robot.lastStartup == s.robot.lastStartup && s2.robot.lastReset == s.robot.lastReset
       case Some(c) =>
         && s2.sent == s.sent + [Sent(c, s2.now, |s.finished|)] && CallsFor(p2.counted, c)
         && RetryDue(LastAttempt(s.robot, c), RetryPeriod(cfg, c), s2.now)
         && s2.robot.lastStartup == (if c == Startup then s2.now else s.robot.lastStartup)
         && s2.robot.lastReset == (if c == Reset then s2.now else s.robot.lastReset)
  }

  /** The last answer of a poll finishes it, as its answers demand. */
  lemma LastAnswerFinishes(cfg: Config, s: System, at: Time, g: nat, node: nat, a: Answer, serviceReady: bool)
    returns (sent: Option<Command>)
    requires g in s.polls && g == s.robot.pollGeneration && OneMore(s.polls[g], node, a).tally.remaining == 0
    requires Advances(s.polls[g], OneMore(s.polls[g], node, a)) && OneMore(s.polls[g], node, a).unanswered == {}
    requires s.now <= at
    ensures Finishes(cfg, s, AfterAnswer(cfg, s, at, g, node, a, serviceReady), OneMore(s.polls[g], node, a), sent)
  {
    hide AfterAnswer, PollOk, OneMore, FinishPoll, AllAre, SomeFailed, CallsFor, Nodes, TallyMatches,
      RetryDue, LastAttempt, RetryPeriod;
    var p2 := OneMore(s.polls[g], node, a);
    sent := FinishPoll(cfg, s.robot, p2.tally, at, serviceReady).1;
    LastAnswerShape(cfg, s, at, g, node, a, serviceReady);
    TallyOf(p2);
    FinishShape(cfg, s.robot, p2.tally, p2.counted, at, serviceReady);
    if AllAre(p2.counted, IsActive) {
      NothingFailsIfAllActive(p2.counted);
    }
  }

  lemma TallyOf(p: Poll)
    requires PollOk(p)
    ensures TallyMatches(p.tally, p.counted)
  {
  }

  lemma FinishingKeepsFinishes(cfg: Config, s: System, s2: System, p2: Poll, sent: Option<Command>)
    requires FinishLog(s) && Finishes(cfg, s, s2, p2, sent) && p2.counted.Keys == Nodes()
    ensures FinishLog(s2)
  {
    hide AllAre, PollOk, Nodes, CallsFor, RetryDue;
    var g := s.robot.pollGeneration;
    forall i | 0 <= i < |s2.finished|
      ensures FinishOk(s2, s2.finished[i]) && (i < |s.finished| ==> s2.finished[i].generation < g)
    {
      if i < |s.finished| {
        CountedAnswerKeepsFinished(s, s2, g, p2, i);
      }
    }
  }

  lemma FinishingKeepsCommands(cfg: Config, s: System, s2: System, p2: Poll, sent: Option<Command>)
    requires CommandLog(cfg, s) && Finishes(cfg, s, s2, p2, sent) && s2.now > 0.0
    ensures CommandLog(cfg, s2)
  {
    hide PollOk, Nodes, CallsFor, AllAre;
    forall k | 0 <= k < |s2.sent|
      ensures SentOk(s2, s2.sent[k])
      ensures k < |s.sent| ==>
        forall c :: sent == Some(c) ==> Spaced(cfg, s.sent[k], Sent(c, s2.now, |s.finished|))
    {
      if k < |s.sent| {
        assert SentOk(s, s.sent[k]);
      }
    }
  }

  lemma LastAnswerKeepsInv(cfg: Config, s: System, at: Time, g: nat, node: nat, a: Answer, serviceReady: bool)
    requires Inv(cfg, s) && s.now <= at && g in s.polls && node in s.polls[g].unanswered
    requires g == s.robot.pollGeneration && OneMore(s.polls[g], node, a).tally.remaining == 0
    ensures Inv(cfg, AfterAnswer(cfg, s, at, g, node, a, serviceReady))
  {
    var s2 := AfterAnswer(cfg, s, at, g, node, a, serviceReady);
    var p2 := OneMore(s.polls[g], node, a);
    CurrentPoll(cfg, s, node);
    OneMoreOk(s.polls[g], node, a);
    assert s.now > 0.0;
    var sent := LastAnswerFinishes(cfg, s, at, g, node, a, serviceReady);
    hide AfterAnswer, OneMore, PollOk, AllAre, CallsFor, RetryDue, Nodes, Polls, FinishLog, CommandLog;
    assert p2.counted.Keys == Nodes();
    CountedAnswerKeepsPolls(s, s2, g, p2);
    FinishingKeepsFinishes(cfg, s, s2, p2, sent);
    FinishingKeepsCommands(cfg, s, s2, p2, sent);
  }

  lemma AnswerKeepsInv(cfg: Config, s: System, at: Time, g: nat, node: nat, a: Answer, serviceReady: bool)
    requires Inv(cfg, s) && s.now <= at && g in s.polls && node in s.polls[g].unanswered
    ensures Inv(cfg, AfterAnswer(cfg, s, at, g, node, a, serviceReady))
  {
    hide Polls, FinishLog, CommandLog, AfterAnswer;
    if g != s.robot.pollGeneration {
      StaleAnswerKeepsInv(cfg, s, at, g, node, a, serviceReady);
    } else if OneMore(s.polls[g], node, a).tally.remaining != 0 {
      CountedAnswerKeepsInv(cfg, s, at, g, node, a, serviceReady);
    } else {
      LastAnswerKeepsInv(cfg, s, at, g, node, a, serviceReady);
    }
  }

  /** A step that changes neither polls nor logs, and does not start polling. */
  lemma PhaseKeepsInv(cfg: Config, s: System, s2: System)
    requires Inv(cfg, s) && s.now <= s2.now
    requires s2 == s.(robot := s2.robot, now := s2.now, startups := s2.startups, resets := s2.resets)
    requires s2.robot == s.robot.(phase := s2.robot.phase, mapReceived := s2.robot.mapReceived)
    requires s2.robot.phase == Polling ==> s.robot.phase == Polling
    ensures Inv(cfg, s2)
  {
    hide PollOk, AllAre, CallsFor, Nodes;
  }

  lemma StepKeepsInv(cfg: Config, s: System, e: Event)
    requires Inv(cfg, s) && Enabled(s, e)
    ensures Inv(cfg, Step(cfg, s, e))
  {
    hide Inv;
    match e.what {
      case Check(i) => CheckKeepsInv(cfg, s, e.at, i);
      case GetState(g, node, a, serviceReady) => AnswerKeepsInv(cfg, s, e.at, g, node, a, serviceReady);
      case MapMessage(_) => PhaseKeepsInv(cfg, s, Step(cfg, s, e));
      case CommandReturns(_) => PhaseKeepsInv(cfg, s, Step(cfg, s, e));
    }
  }

  lemma {:induction false} InvariantHolds(cfg: Config, es: seq<Event>)
    requires Run(cfg, es).Some?
    ensures Inv(cfg, Run(cfg, es).value)
  {
    if es != [] {
      var pre := es[..|es| - 1];
      InvariantHolds(cfg, pre);
      StepKeepsInv(cfg, Run(cfg, pre).value, es[|es| - 1]);
    }
  }
}
