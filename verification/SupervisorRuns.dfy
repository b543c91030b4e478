/**
 Whole runs of the supervisor for one robot: the polls it started with the answers that each has had, the
 lifecycle commands still unanswered, and a log of finished polls and commands sent.
 */
module SupervisorRuns {
  import opened Common
  import opened Counting
  import opened SupervisorRobot

  /** A poll: its shared tally, the answers counted in it, and the nodes whose request is unanswered. */
  datatype Poll = Poll(tally: Tally, counted: map<nat, Answer>, unanswered: set<nat>)

  /** A finished poll and the answer of every node. */
  datatype Finish = Finish(generation: nat, answers: map<nat, Answer>)

  /** A command, when it was sent, and the position in the log of the poll that called for it. */
  datatype Sent = Sent(command: Command, at: Time, cause: nat)

  datatype System = System(
    robot: Robot, polls: map<nat, Poll>, startups: nat, resets: nat,
    finished: seq<Finish>, sent: seq<Sent>, now: Time)

  const BOOT: System := System(NEW_ROBOT, map[], 0, 0, [], [], 0.0)

  datatype What =
    | MapMessage(valid: bool)
    | Check(inputs: Inputs)
    | GetState(generation: nat, node: nat, answer: Answer, serviceReady: bool)
    | CommandReturns(command: Command)

  datatype Event = Event(at: Time, what: What)

  function Nodes(): set<nat> {
    Below(NODE_COUNT)
  }

  predicate Enabled(s: System, e: Event) {
    && s.now <= e.at
    && match e.what
       case GetState(g, node, _, _) => g in s.polls && node in s.polls[g].unanswered
       case CommandReturns(Startup) => s.startups > 0
       case CommandReturns(Reset) => s.resets > 0
       case _ => true
  }

  function AfterCheck(cfg: Config, s: System, at: Time, i: Inputs): System {
    if at <= 0.0 then s.(now := at)
    else
      var (r, polled) := Checked(cfg, s.robot, i, at);
      s.(robot := r, now := at,
         polls := if polled then s.polls[r.pollGeneration := Poll(FRESH_TALLY, map[], Nodes())] else s.polls)
  }

  function AfterAnswer(cfg: Config, s: System, at: Time, g: nat, node: nat, a: Answer, serviceReady: bool): System
    requires g in s.polls
  {
    var p := s.polls[g];
    var (r, t, sent) := Answered(cfg, s.robot, p.tally, g, a, at, serviceReady);
    var current := s.robot.pollGeneration == g;
    var counted := if current then p.counted[node := a] else p.counted;
    var finished :=
      if current && t.remaining == 0 then s.finished + [Finish(g, counted)] else s.finished;
    s.(robot := r, now := at,
       polls := s.polls[g := Poll(t, counted, p.unanswered - {node})],
       finished := finished,
       sent := if sent.Some? then s.sent + [Sent(sent.value, at, |finished| - 1)] else s.sent,
       startups := if sent == Some(Startup) then s.startups + 1 else s.startups,
       resets := if sent == Some(Reset) then s.resets + 1 else s.resets)
  }

  function Step(cfg: Config, s: System, e: Event): System
    requires Enabled(s, e)
  {
    match e.what
    case MapMessage(valid) => s.(robot := s.robot.(mapReceived := valid), now := e.at)
    case Check(i) => AfterCheck(cfg, s, e.at, i)
    case GetState(g, node, a, serviceReady) => AfterAnswer(cfg, s, e.at, g, node, a, serviceReady)
    case CommandReturns(Startup) => s.(robot := CommandReturned(s.robot), startups := s.startups - 1, now := e.at)
    case CommandReturns(Reset) => s.(robot := CommandReturned(s.robot), resets := s.resets - 1, now := e.at)
  }

  /** The state after a list of events, if each was enabled when it happened. */
  function Run(cfg: Config, es: seq<Event>): Option<System> {
    if es == [] then Some(BOOT)
    else match Run(cfg, es[..|es| - 1])
      case None => None
      case Some(s) => if Enabled(s, es[|es| - 1]) then Some(Step(cfg, s, es[|es| - 1])) else None
  }
}
