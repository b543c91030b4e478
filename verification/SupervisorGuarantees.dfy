/** What every run of the readiness supervisor guarantees for a robot. */
module SupervisorGuarantees {
  import opened Common
  import opened SupervisorRobot
  import opened SupervisorRuns
  import opened SupervisorInvariant

  lemma LastStep(cfg: Config, es: seq<Event>)
    requires es != [] && Run(cfg, es).Some?
    ensures Run(cfg, es[..|es| - 1]).Some?
    ensures Enabled(Run(cfg, es[..|es| - 1]).value, es[|es| - 1])
    ensures Run(cfg, es).value == Step(cfg, Run(cfg, es[..|es| - 1]).value, es[|es| - 1])
  {
    hide Step, Enabled;
  }

  /* Polls. */

  /** The k-th event is the answer `a` of node `n` to poll `g`, and `g` was the current poll when it came. */
  predicate HeardAt(cfg: Config, es: seq<Event>, k: nat, g: nat, n: nat, a: Answer) {
    && k < |es| && es[k].what.GetState?
    && es[k].what.generation == g && es[k].what.node == n && es[k].what.answer == a
    && Run(cfg, es[..k]).Some? && Run(cfg, es[..k]).value.robot.pollGeneration == g
  }

  /** Counting never replaces an answer: what is counted after a step was counted before, or has just been heard. */
  lemma CountedGrows(cfg: Config, s: System, e: Event, g: nat, n: nat)
    requires Polls(s) && Enabled(s, e)
    requires g in Step(cfg, s, e).polls && n in Step(cfg, s, e).polls[g].counted
    ensures
      var a := Step(cfg, s, e).polls[g].counted[n];
      || (g in s.polls && n in s.polls[g].counted && s.polls[g].counted[n] == a)
      || (e.what.GetState? && e.what.generation == g && e.what.node == n && e.what.answer == a
          && s.robot.pollGeneration == g)
  {
    hide Checked, TallyMatches, Nodes, FinishPoll;
    match e.what {
      case Check(i) => CheckedShape(cfg, s.robot, i, e.at);
      case GetState(h, node, a, serviceReady) =>
        assert PollOk(s.polls[h]);
      case _ =>
    }
  }

  lemma {:induction false} CountedIsHeard(cfg: Config, es: seq<Event>, g: nat, n: nat) returns (k: nat)
    requires Run(cfg, es).Some? && g in Run(cfg, es).value.polls && n in Run(cfg, es).value.polls[g].counted
    ensures HeardAt(cfg, es, k, g, n, Run(cfg, es).value.polls[g].counted[n])
  {
    hide *;
    SomePollIsLater(cfg, es, g);
    var pre, e := es[..|es| - 1], es[|es| - 1];
    assert es == pre + [e];
    LastStep(cfg, es);
    InvariantHolds(cfg, pre);
    var s := Run(cfg, pre).value;
    PollsHold(cfg, s);
    CountedGrows(cfg, s, e, g, n);
    if g in s.polls && n in s.polls[g].counted && s.polls[g].counted[n] == Step(cfg, s, e).polls[g].counted[n] {
      k := CountedIsHeard(cfg, pre, g, n);
      HeardStays(cfg, pre, e, k, g, n, s.polls[g].counted[n]);
    } else {
      k := |pre|;
      HeardNow(cfg, pre, e, g, n, Step(cfg, s, e).polls[g].counted[n]);
    }
  }

  lemma SomePollIsLater(cfg: Config, es: seq<Event>, g: nat)
    requires Run(cfg, es).Some? && g in Run(cfg, es).value.polls
    ensures es != []
  {
  }

  lemma PollsHold(cfg: Config, s: System)
    requires Inv(cfg, s)
    ensures Polls(s)
  {
    hide Polls, FinishLog, CommandLog;
  }

  lemma HeardStays(cfg: Config, es: seq<Event>, e: Event, k: nat, g: nat, n: nat, a: Answer)
    requires HeardAt(cfg, es, k, g, n, a)
    ensures HeardAt(cfg, es + [e], k, g, n, a)
  {
    assert (es + [e])[..k] == es[..k];
    hide Run;
  }

  lemma HeardNow(cfg: Config, es: seq<Event>, e: Event, g: nat, n: nat, a: Answer)
    requires Run(cfg, es).Some? && Run(cfg, es).value.robot.pollGeneration == g
    requires e.what.GetState? && e.what.generation == g && e.what.node == n && e.what.answer == a
    ensures HeardAt(cfg, es + [e], |es|, g, n, a)
  {
    assert (es + [e])[..|es|] == es;
    hide Run;
  }

  /**
   A poll finishes with one answer from each of the six nodes, each an answer to that very poll that arrived while
   it was the current one.
   */
  lemma FinishHeardEveryNode(cfg: Config, es: seq<Event>, i: nat, n: nat) returns (k: nat)
    requires Run(cfg, es).Some? && i < |Run(cfg, es).value.finished| && n < 6
    ensures
      var f := Run(cfg, es).value.finished[i];
      n in f.answers && HeardAt(cfg, es, k, f.generation, n, f.answers[n])
  {
    var s := Run(cfg, es).value;
    InvariantHolds(cfg, es);
    hide Run, Polls, CommandLog, HeardAt;
    assert FinishOk(s, s.finished[i]);
    assert n in Nodes();
    k := CountedIsHeard(cfg, es, s.finished[i].generation, n);
  }

  /** No poll finishes twice, and later polls finish later. */
  lemma PollsFinishOnce(cfg: Config, es: seq<Event>, i: nat, j: nat)
    requires Run(cfg, es).Some? && i < j < |Run(cfg, es).value.finished|
    ensures Run(cfg, es).value.finished[i].generation < Run(cfg, es).value.finished[j].generation
  {
    InvariantHolds(cfg, es);
  }

  /** The shared counters of a poll are the conjunctions over the answers counted in it, and no others. */
  lemma CountersAreConjunctions(cfg: Config, es: seq<Event>, g: nat)
    requires Run(cfg, es).Some? && g in Run(cfg, es).value.polls
    ensures TallyMatches(Run(cfg, es).value.polls[g].tally, Run(cfg, es).value.polls[g].counted)
  {
    var s := Run(cfg, es).value;
    InvariantHolds(cfg, es);
    hide Run, FinishLog, CommandLog, Nodes, TallyMatches;
    assert PollOk(s.polls[g]);
  }

  predicate EveryNodeIsActive(f: Finish) {
    forall n {:trigger n in f.answers} :: 0 <= n < 6 ==> n in f.answers && f.answers[n] == IsActive
  }

  /** `confirmed_active` says that a poll has finished and that all six nodes were active in the last one. */
  lemma ConfirmedIff(cfg: Config, es: seq<Event>)
    requires Run(cfg, es).Some?
    ensures
      var s := Run(cfg, es).value;
      s.robot.confirmedActive <==>
        s.finished != [] && EveryNodeIsActive(s.finished[|s.finished| - 1])
  {
    hide Run, Polls, CommandLog, EveryNodeIsActive, AllAre, FinishOk, Nodes;
    var s := Run(cfg, es).value;
    InvariantHolds(cfg, es);
    if s.finished != [] {
      var f := s.finished[|s.finished| - 1];
      assert FinishOk(s, f);
      AllNodesActive(s, f);
    }
  }

  lemma AllNodesActive(s: System, f: Finish)
    requires FinishOk(s, f)
    ensures AllAre(f.answers, IsActive) <==> EveryNodeIsActive(f)
  {
    assert forall n :: n in f.answers <==> n in Nodes();
  }

  /** Only an answer to the current poll can change `confirmed_active`: not a timeout, nor a missing service. */
  lemma OnlyAnswersConfirm(cfg: Config, s: System, e: Event)
    requires Polls(s) && Enabled(s, e)
    requires Step(cfg, s, e).robot.confirmedActive != s.robot.confirmedActive
    ensures e.what.GetState? && e.what.generation == s.robot.pollGeneration
    ensures s.polls[e.what.generation].unanswered == {e.what.node}
  {
    hide Polls, FinishPoll, Nodes;
    match e.what {
      case Check(i) => CheckedShape(cfg, s.robot, i, e.at);
      case GetState(g, node, a, serviceReady) =>
        if OneMore(s.polls[g], node, a).tally.remaining == 0 && g == s.robot.pollGeneration {
          LastMissing(s, node, a);
        }
      case _ =>
    }
  }

  lemma LastMissing(s: System, node: nat, a: Answer)
    requires Polls(s) && s.robot.pollGeneration in s.polls && node in s.polls[s.robot.pollGeneration].unanswered
    requires OneMore(s.polls[s.robot.pollGeneration], node, a).tally.remaining == 0
    ensures s.polls[s.robot.pollGeneration].unanswered == {node}
  {
    hide Nodes, TallyMatches;
    OneMoreOk(s.polls[s.robot.pollGeneration], node, a);
  }

  /** While a robot is polling, an answer of its current poll is missing. */
  lemma PollingMissesAnAnswer(cfg: Config, es: seq<Event>) returns (n: nat)
    requires Run(cfg, es).Some? && Run(cfg, es).value.robot.phase == Polling
    ensures
      var s := Run(cfg, es).value;
      && s.robot.pollGeneration in s.polls && n < 6
      && n in s.polls[s.robot.pollGeneration].unanswered && n !in s.polls[s.robot.pollGeneration].counted
  {
    var s := Run(cfg, es).value;
    InvariantHolds(cfg, es);
    hide Run, FinishLog, CommandLog, TallyMatches;
    n :| n in s.polls[s.robot.pollGeneration].unanswered;
    assert PollOk(s.polls[s.robot.pollGeneration]);
    assert n in Nodes();
  }

  /* Commands. */

  /**
   STARTUP follows only a finished poll in which all six nodes were unconfigured, and RESET only one with no failed
   query in which the nodes were neither all active nor all unconfigured.
   */
  lemma CommandsAreCalledFor(cfg: Config, es: seq<Event>, k: nat)
    requires Run(cfg, es).Some? && k < |Run(cfg, es).value.sent|
    ensures
      var s := Run(cfg, es).value;
      s.sent[k].cause < |s.finished| && CallsFor(s.finished[s.sent[k].cause].answers, s.sent[k].command)
  {
    var s := Run(cfg, es).value;
    InvariantHolds(cfg, es);
    hide Run, Polls, FinishLog;
    assert SentOk(s, s.sent[k]);
  }

  /** Two commands of a kind are at least their retry period apart. */
  lemma CommandsAreSpaced(cfg: Config, es: seq<Event>, i: nat, j: nat)
    requires Run(cfg, es).Some? && i < j < |Run(cfg, es).value.sent|
    requires Run(cfg, es).value.sent[i].command == Run(cfg, es).value.sent[j].command
    ensures
      var s := Run(cfg, es).value;
      s.sent[j].at - s.sent[i].at >= RetryPeriod(cfg, s.sent[i].command)
  {
    var s := Run(cfg, es).value;
    InvariantHolds(cfg, es);
    hide Run, Polls, FinishLog, SentPolls;
    assert Spaced(cfg, s.sent[i], s.sent[j]);
  }

  /* Phases. */

  /** The phase tells what is in flight: one command, or the current poll, or nothing. */
  predicate Orderly(s: System) {
    && s.startups == (if s.robot.phase == StartupPending then 1 else 0)
    && s.resets == (if s.robot.phase == ResetPending then 1 else 0)
    && (s.robot.phase == Polling <==> PollOpen(s))
  }

  /** A check finds inputs missing while the robot waits for a poll or a command. */
  predicate LosesInputs(s: System, e: Event) {
    && e.what.Check? && e.at > 0.0 && !(s.robot.mapReceived && e.what.inputs.tf && e.what.inputs.lifecycle)
    && (s.robot.phase == Polling || s.robot.phase == StartupPending || s.robot.phase == ResetPending)
  }

  lemma CheckOrderlyIff(cfg: Config, s: System, e: Event)
    requires Polls(s) && Enabled(s, e) && Orderly(s) && e.what.Check?
    ensures Orderly(Step(cfg, s, e)) <==> !LosesInputs(s, e)
  {
    hide PollOk, Nodes, TallyMatches;
    NewPollOk();
    var s2 := Step(cfg, s, e);
    assert s2.robot.pollGeneration != s.robot.pollGeneration && s2.robot.phase != Polling ==>
      s2.robot.pollGeneration !in s.polls;
  }

  lemma AnswerIsOrderly(cfg: Config, s: System, e: Event)
    requires Polls(s) && Enabled(s, e) && Orderly(s) && e.what.GetState?
    ensures Orderly(Step(cfg, s, e))
  {
    hide PollOk, Nodes, TallyMatches, FinishPoll;
    var g, node, a := e.what.generation, e.what.node, e.what.answer;
    if g == s.robot.pollGeneration {
      OneMoreOk(s.polls[g], node, a);
      if OneMore(s.polls[g], node, a).tally.remaining == 0 {
        LastAnswerShape(cfg, s, e.at, g, node, a, e.what.serviceReady);
        OneMoreTally(s.polls[g], node, a);
        FinishShape(cfg, s.robot, OneMore(s.polls[g], node, a).tally, OneMore(s.polls[g], node, a).counted, e.at,
                    e.what.serviceReady);
        hide AfterAnswer, OneMore, CallsFor, AllAre, SomeFailed, RetryDue;
      }
    }
  }

  lemma OneMoreTally(p: Poll, node: nat, a: Answer)
    requires PollOk(OneMore(p, node, a))
    ensures TallyMatches(OneMore(p, node, a).tally, OneMore(p, node, a).counted)
  {
    hide TallyMatches;
  }

  /** A step keeps the phase in order unless a check loses the inputs; then it never does. */
  lemma OrderlyIff(cfg: Config, s: System, e: Event)
    requires Polls(s) && Enabled(s, e) && Orderly(s)
    ensures Orderly(Step(cfg, s, e)) <==> !LosesInputs(s, e)
  {
    hide Polls, Nodes;
    match e.what {
      case Check(_) => CheckOrderlyIff(cfg, s, e);
      case GetState(_, _, _, _) => AnswerIsOrderly(cfg, s, e);
      case _ =>
    }
  }

  /** A check that starts a poll puts the phase in order if and only if no command is outstanding. */
  lemma PollPutsInOrderIff(cfg: Config, s: System, e: Event)
    requires Polls(s) && Enabled(s, e) && e.what.Check? && e.at > 0.0
    requires Checked(cfg, s.robot, e.what.inputs, e.at).1
    ensures Orderly(Step(cfg, s, e)) <==> s.startups == 0 && s.resets == 0
  {
    hide Checked, PollOk, Nodes, TallyMatches;
    CheckedShape(cfg, s.robot, e.what.inputs, e.at);
    NewPollOk();
  }

  /** No check of the run, from the k-th event on, finds inputs missing at a positive clock. */
  predicate InputsStay(cfg: Config, es: seq<Event>, k: nat) {
    forall j :: k <= j < |es| && Run(cfg, es[..j]).Some? ==>
      !LosesInputs(Run(cfg, es[..j]).value, es[j])
  }

  /**
   Once the phase is in order it stays so for as long as no poll or command is interrupted by lost inputs: a command
   is outstanding exactly in the two pending phases, an unfinished current poll exists exactly while polling, and
   there is never more than one of these.
   */
  lemma {:induction false} OrderlyWhileInputsStay(cfg: Config, es: seq<Event>, k: nat)
    requires Run(cfg, es).Some? && k <= |es| && Run(cfg, es[..k]).Some? && Orderly(Run(cfg, es[..k]).value)
    requires InputsStay(cfg, es, k)
    ensures Orderly(Run(cfg, es).value)
  {
    if k == |es| {
      assert es[..k] == es;
    } else {
      var pre := es[..|es| - 1];
      LastStep(cfg, es);
      InvariantHolds(cfg, pre);
      hide Run, Step, Enabled, Orderly, LosesInputs;
      assert pre[..k] == es[..k];
      forall j | k <= j < |pre| && Run(cfg, pre[..j]).Some? ensures !LosesInputs(Run(cfg, pre[..j]).value, pre[j]) {
        assert pre[..j] == es[..j];
      }
      OrderlyWhileInputsStay(cfg, pre, k);
      OrderlyIff(cfg, Run(cfg, pre).value, es[|es| - 1]);
    }
  }

  /** A run is in order from the start if it never loses inputs during a poll or a command. */
  lemma OrderlyFromBoot(cfg: Config, es: seq<Event>)
    requires Run(cfg, es).Some? && InputsStay(cfg, es, 0)
    ensures Orderly(Run(cfg, es).value)
  {
    assert es[..0] == [];
    assert Run(cfg, es[..0]) == Some(BOOT);
    OrderlyWhileInputsStay(cfg, es, 0);
  }

  /** The phase is in order throughout the run, from its first state to its last. */
  predicate AlwaysOrderly(cfg: Config, es: seq<Event>) {
    forall k :: 0 <= k <= |es| && Run(cfg, es[..k]).Some? ==> Orderly(Run(cfg, es[..k]).value)
  }

  lemma {:induction false} PrefixRuns(cfg: Config, es: seq<Event>, k: nat)
    requires Run(cfg, es).Some? && k <= |es|
    ensures Run(cfg, es[..k]).Some?
  {
    if k == |es| {
      assert es[..k] == es;
    } else {
      PrefixRuns(cfg, es[..|es| - 1], k);
      assert es[..|es| - 1][..k] == es[..k];
    }
  }

  lemma StepOfPrefix(cfg: Config, es: seq<Event>, j: nat)
    requires Run(cfg, es).Some? && j < |es|
    ensures Run(cfg, es[..j]).Some? && Run(cfg, es[..j + 1]).Some?
    ensures Enabled(Run(cfg, es[..j]).value, es[j])
    ensures Run(cfg, es[..j + 1]).value == Step(cfg, Run(cfg, es[..j]).value, es[j])
  {
    hide Run, Step, Enabled;
    PrefixRuns(cfg, es, j + 1);
    LastStep(cfg, es[..j + 1]);
    assert es[..j + 1][..j] == es[..j];
  }

  /** A run is in order throughout if and only if no check of it loses inputs during a poll or a command. */
  lemma AlwaysOrderlyIff(cfg: Config, es: seq<Event>)
    requires Run(cfg, es).Some?
    ensures AlwaysOrderly(cfg, es) <==> InputsStay(cfg, es, 0)
  {
    hide Run, Step, Enabled, Orderly, LosesInputs, Inv, Polls;
    if AlwaysOrderly(cfg, es) {
      forall j | 0 <= j < |es| && Run(cfg, es[..j]).Some? ensures !LosesInputs(Run(cfg, es[..j]).value, es[j]) {
        StepOfPrefix(cfg, es, j);
        InvariantHolds(cfg, es[..j]);
        PollsHold(cfg, Run(cfg, es[..j]).value);
        OrderlyIff(cfg, Run(cfg, es[..j]).value, es[j]);
      }
    }
    if InputsStay(cfg, es, 0) {
      forall k | 0 <= k <= |es| && Run(cfg, es[..k]).Some? ensures Orderly(Run(cfg, es[..k]).value) {
        assert forall j :: 0 <= j < k ==> es[..k][..j] == es[..j] && es[..k][j] == es[j];
        OrderlyFromBoot(cfg, es[..k]);
      }
    }
  }
}
