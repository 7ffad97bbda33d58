/** The main graph: its nodes, conditional edges, the environment's contract, and runs from a new state. */
module MainGraph {
  import opened Contracts
  import opened RunState
  import opened GoalNumbering
  import opened ReviewAgenda
  import opened Planning
  import opened Progress
  import opened Execution

  const RECURSION_LIMIT := 500

  datatype MainNode =
    | ProfileData | DecomposeObjective | Plan | ReuseNode | InspectNode | RecallNode | LimitNode
    | ExecutionNode | ApplyNode | Assess | Expand | Finalize | End | Crashed

  /** What the environment supplies to one node; each node reads the part it needs. */
  datatype Answer = Answer(
    profile: Profile,
    decomposed: seq<RawGoal>,
    planner: PlannerAnswer,
    execution: seq<ExecAnswer>,
    clock: Clock,
    repairIds: seq<TaskId>,
    expand: ExpandAnswer)

  /** A position in a run, with how many evidence-reuse and data-limited events its log holds. */
  datatype Config = Config(node: MainNode, s: State, reused: nat, limited: nat)

  // ---------------------------------------------------------------- routes

  function RouteAfterPlan(s: State): MainNode {
    if s.terminal.Stopped() || s.intent.None? then Assess
    else
      match s.intent.value.mode
      case ReuseEvidence => ReuseNode
      case InspectData => InspectNode
      case LookupEvidence => RecallNode
      case MarkDataLimited => LimitNode
      case Compute => ExecutionNode
  }

  function RouteAfterAssess(s: State): MainNode {
    if s.terminal.Stopped() then Finalize
    else if HasLiveTask(s.know.agenda) then Plan
    else if AllGoalsClosed(s.know.goals) then Expand
    else Plan
  }

  function RouteAfterExpand(s: State): MainNode {
    if s.terminal.Stopped() then Finalize else Plan
  }

  // ---------------------------------------------------------------- nodes without a module of their own

  function DecomposeNode(s: State, raw: seq<RawGoal>): Outcome {
    if s.know.goals != [] then Next(s)
    else if s.profile.None? then Raised
    else Next(s.(know := s.know.(goals := ParseGoals(raw, 0))))
  }

  // ---------------------------------------------------------------- steps

  /** The planner closes everything only when something was open, and proposes well-formed intents whose
      question is not blank. */
  ghost predicate PlannerOk(s: State, a: PlannerAnswer) {
    a.Proposal? ==>
      && (a.verdict.finished ==> a.intent.None? && exists g :: g in s.know.goals && g.IsOpen())
      && (a.intent.Some? ==> ValidIntent(a.intent.value) && !Blank(a.intent.value.question))
  }

  /** The environment's contract at one node. */
  ghost predicate StepOk(c: Config, a: Answer) {
    && c.node != End && c.node != Crashed
    && (c.node == Plan ==> PlannerOk(c.s, a.planner))
    && (c.node == ExecutionNode ==>
          ExecRunOk(ExecStart(c.s), a.execution) && !ExecRun(ExecStart(c.s), a.execution).At?)
    && (c.node == Assess ==> |a.repairIds| == |MissingPairs(c.s.know)| && FreshIds(a.repairIds, c.s.know.agenda))
  }

  ghost function Goto(c: Config, o: Outcome, route: State -> MainNode): Config {
    match o
    case Raised => c.(node := Crashed)
    case Next(s) => c.(node := route(s), s := s)
  }

  ghost function MainStep(c: Config, a: Answer): Config
    requires StepOk(c, a)
  {
    match c.node
    case ProfileData => c.(node := DecomposeObjective, s := c.s.(profile := Some(a.profile)))
    case DecomposeObjective => Goto(c, DecomposeNode(c.s, a.decomposed), _ => Plan)
    case Plan => Goto(c, PlanIntent(c.s, a.planner), RouteAfterPlan)
    case ReuseNode =>
      var d := Goto(c, ReuseEvidenceNode(c.s), _ => Assess);
      if d.node == Crashed then d else d.(reused := c.reused + 1)
    case InspectNode => Goto(c, InspectDataNode(c.s), _ => Assess)
    case RecallNode => Goto(c, LookupEvidenceNode(c.s), _ => Assess)
    case LimitNode =>
      var d := Goto(c, MarkDataLimitedNode(c.s), _ => Assess);
      if d.node == Crashed then d else d.(limited := c.limited + 1)
    case ExecutionNode =>
      (match ExecRun(ExecStart(c.s), a.execution)
       case Exported(delta) => c.(node := ApplyNode, s := c.s.(delta := Some(delta)))
       case _ => c.(node := Crashed))
    case ApplyNode => c.(node := Assess, s := ApplyDelta(c.s))
    case Assess => Goto(c, AssessProgress(c.s, a.clock, a.repairIds), RouteAfterAssess)
    case Expand => Goto(c, ExpandGoals(c.s, a.expand), RouteAfterExpand)
    case Finalize => c.(node := End)
    case _ => c
  }

  // ---------------------------------------------------------------- runs

  function Start(dataset: int, maxIterations: nat): Config {
    Config(ProfileData, NewState(dataset, maxIterations), 0, 0)
  }

  ghost predicate RunOk(c: Config, answers: seq<Answer>)
    decreases |answers|
  {
    answers != [] ==> StepOk(c, answers[0]) && RunOk(MainStep(c, answers[0]), answers[1..])
  }

  /** The configuration a run reaches; one node runs per answer. */
  ghost function Run(c: Config, answers: seq<Answer>): Config
    requires RunOk(c, answers)
    decreases |answers|
  {
    if answers == [] then c else Run(MainStep(c, answers[0]), answers[1..])
  }

  /** Reachable from a new run with a positive iteration budget. */
  ghost predicate Reaches(dataset: int, maxIterations: nat, answers: seq<Answer>, c: Config) {
    maxIterations > 0 && RunOk(Start(dataset, maxIterations), answers)
      && Run(Start(dataset, maxIterations), answers) == c
  }
}
