/** Every run of the main graph ends, within a bound that its iteration budget fixes. */
module RunTermination {
  import opened Contracts
  import opened RunState
  import opened Planning
  import opened Progress
  import opened Execution
  import opened ExecutionProofs
  import opened MainGraph
  import opened MainInvariant
  import opened RunHistory

  // ---------------------------------------------------------------- the measure

  ghost predicate HasOpen(goals: seq<SubGoal>) {
    exists g :: g in goals && g.IsOpen()
  }

  /** Rounds without an intent that are still allowed in a row. */
  function RoundsLeft(streak: Streak): nat {
    if streak.key != {NoIntentCode} then STUCK_THRESHOLD - 1
    else if streak.count >= STUCK_THRESHOLD then 0
    else if streak.count == 0 then STUCK_THRESHOLD - 1
    else STUCK_THRESHOLD - 1 - streak.count
  }

  function PlanBound(iterations: int, rounds: int, expansions: int, open: int): int {
    12 * (iterations - 1) + 2 * rounds + 3 * expansions + 2 * open + 5
  }

  function AssessBound(iterations: int, rounds: int, expansions: int, open: int): int {
    if iterations <= 0 then 2 else 1 + PlanBound(iterations, rounds, expansions, open)
  }

  ghost function Open(s: State): int {
    if HasOpen(s.know.goals) then 1 else 0
  }

  /** An upper bound on the nodes still to run: iterations weigh most, then expansions, planning rounds
      without an intent, and whether any goal is open. */
  ghost function StepsLeft(c: Config): int {
    var s := c.s;
    var i, e := s.maxIterations - s.iteration, MAX_GOAL_EXPANSIONS - s.goalExpansions;
    var r, o := RoundsLeft(s.cycle.streak), Open(s);
    match c.node
    case ProfileData => 12 * s.maxIterations + 20
    case DecomposeObjective => 12 * s.maxIterations + 19
    case Plan => PlanBound(i, r, e, o)
    case ReuseNode => 1 + AssessBound(i, r, e, o)
    case InspectNode => 1 + AssessBound(i, r, e, o)
    case RecallNode => 1 + AssessBound(i, r, e, o)
    case LimitNode => 1 + AssessBound(i, r, e, o)
    case ExecutionNode => 2 + AssessBound(i, STUCK_THRESHOLD - 1, e, o)
    case ApplyNode => 1 + AssessBound(i, STUCK_THRESHOLD - 1, e, o)
    case Assess => if s.terminal.Stopped() then 2 else AssessBound(i, r, e, o)
    case Expand => PlanBound(i, r, e, o)
    case Finalize => 1
    case End => 0
    case Crashed => 0
  }

  // ---------------------------------------------------------------- it decreases

  lemma OpenShrinks(a: seq<SubGoal>, b: seq<SubGoal>)
    requires GoalsEvolve(a, b) && |a| == |b|
    ensures HasOpen(b) ==> HasOpen(a)
  {
    if g :| g in b && g.IsOpen() {
      var i :| 0 <= i < |b| && b[i] == g;
      assert GoalEvolves(a[i], b[i]) && a[i] in a;
    }
  }

  /** One more round without an intent uses up an allowed round, or stops the run. */
  lemma StalledDecreases(s: State, goals: seq<SubGoal>, planned: bool)
    ensures var t := Stalled(s, goals, planned);
      t.terminal.Stopped() || t.terminal == s.terminal
    ensures var t := Stalled(s, goals, planned);
      !t.terminal.Stopped() ==> RoundsLeft(t.cycle.streak) < RoundsLeft(s.cycle.streak)
  {
    assert CodeSet([NoIntentCode]) == {NoIntentCode};
  }

  ghost predicate Budgets(s: State) {
    s.iteration <= s.maxIterations && s.goalExpansions <= MAX_GOAL_EXPANSIONS
  }

  lemma NoIntentDecreases(s: State, a: PlannerAnswer)
    requires Budgets(s) && s.iteration < s.maxIterations && !s.terminal.Stopped() && PlannerOk(s, a) && a.Proposal?
    ensures var t := NoIntent(s, ApplyVerdict(s, a.verdict), a);
      || t.terminal.Stopped()
      || 2 * RoundsLeft(t.cycle.streak) + 2 * Open(t) + 2 <= 2 * RoundsLeft(s.cycle.streak) + 2 * Open(s)
  {
    var goals := ApplyVerdict(s, a.verdict);
    VerdictEvolves(s, a.verdict);
    OpenShrinks(s.know.goals, goals);
    StalledDecreases(s, goals, true);
    StalledDecreases(s, goals, false);
  }

  /** A planning round ends the run, uses up an allowed round or the last open goals, or starts an iteration. */
  ghost predicate RoundSpent(s: State, t: State) {
    && t.maxIterations == s.maxIterations && t.goalExpansions == s.goalExpansions
    && (|| t.terminal.Stopped()
        || (&& t.intent.None? && t.iteration == s.iteration
            && 2 * RoundsLeft(t.cycle.streak) + 2 * Open(t) + 2 <= 2 * RoundsLeft(s.cycle.streak) + 2 * Open(s))
        || (&& t.intent.Some? && t.iteration == s.iteration + 1
            && Open(t) <= Open(s) && t.cycle == FRESH_CYCLE))
  }

  lemma StalledSpends(s: State, goals: seq<SubGoal>)
    requires HasOpen(goals) ==> HasOpen(s.know.goals)
    ensures RoundSpent(s, Stalled(s, goals, true))
  {
    StalledDecreases(s, goals, true);
  }

  lemma NoIntentSpends(s: State, a: PlannerAnswer)
    requires Budgets(s) && s.iteration < s.maxIterations && !s.terminal.Stopped() && PlannerOk(s, a) && a.Proposal?
    ensures RoundSpent(s, NoIntent(s, ApplyVerdict(s, a.verdict), a))
  {
    NoIntentDecreases(s, a);
  }

  lemma PlanSpends(s: State, a: PlannerAnswer)
    requires PlanIntent(s, a).Next? && PlannerOk(s, a) && Budgets(s) && s.iteration < s.maxIterations
    requires !s.terminal.Stopped() && s.intent.None?
    ensures RoundSpent(s, PlanIntent(s, a).state)
  {
    if a.Proposal? {
      var goals := ApplyVerdict(s, a.verdict);
      VerdictEvolves(s, a.verdict);
      OpenShrinks(s.know.goals, goals);
      if a.intent.None? {
        NoIntentSpends(s, a);
      } else {
        StalledSpends(s, goals);
        assert RoundSpent(s, Accepted(s, goals, a.intent.value));
      }
    }
  }

  lemma PlanDecreases(c: Config, a: Answer)
    requires c.node == Plan && StepOk(c, a) && Budgets(c.s) && c.s.iteration < c.s.maxIterations
    requires !c.s.terminal.Stopped() && c.s.intent.None?
    ensures StepsLeft(MainStep(c, a)) < StepsLeft(c)
  {
    var o := PlanIntent(c.s, a.planner);
    assert MainStep(c, a) == Goto(c, o, RouteAfterPlan);
    if o.Next? {
      PlanSpends(c.s, a.planner);
      SpentDecreases(c, o.state);
    }
  }

  lemma SpentDecreases(c: Config, t: State)
    requires c.node == Plan && Budgets(c.s) && c.s.iteration < c.s.maxIterations && RoundSpent(c.s, t)
    ensures StepsLeft(c.(node := RouteAfterPlan(t), s := t)) < StepsLeft(c)
  {
  }

  lemma ActionDecreases(c: Config, a: Answer)
    requires c.node == ReuseNode || c.node == InspectNode || c.node == RecallNode || c.node == LimitNode
    requires StepOk(c, a) && Budgets(c.s)
    ensures StepsLeft(MainStep(c, a)) < StepsLeft(c)
  {
    StepGoals(c, a);
    OpenShrinks(c.s.know.goals, MainStep(c, a).s.know.goals);
  }

  lemma AttemptKeepsGoals(p: State, t: State)
    requires ExecReady(p) && AttemptEnded(p, t)
    ensures |t.know.goals| == |p.know.goals|
  {
    if review, record, ids :| CommittedWith(p, t, review, record, ids) {
    } else if stage, issues :| RejectedWith(p, t, stage, issues) {
    } else {
      assert StoppedFrom(p, t);
    }
  }

  lemma ApplyKeepsOpen(s: State)
    requires Delivered(s)
    ensures Open(ApplyDelta(s)) <= Open(s)
  {
    var t := ApplyYields(s);
    ApplyEvolves(s);
    AttemptKeepsGoals(s.(delta := None), t);
    OpenShrinks(s.know.goals, t.know.goals);
  }

  lemma AssessedLess(c: Config, t: State)
    requires c.node == ApplyNode && Budgets(c.s)
    requires t.maxIterations == c.s.maxIterations && t.iteration == c.s.iteration
      && t.goalExpansions == c.s.goalExpansions
    requires Open(t) <= Open(c.s)
    ensures StepsLeft(c.(node := Assess, s := t)) < StepsLeft(c)
  {
  }

  lemma ApplyDecreases(c: Config)
    requires c.node == ApplyNode && Budgets(c.s) && Delivered(c.s)
    ensures StepsLeft(c.(node := Assess, s := ApplyDelta(c.s))) < StepsLeft(c)
  {
    ApplyKeepsOpen(c.s);
    ApplyLeaves(c.s);
    AssessedLess(c, ApplyDelta(c.s));
  }

  lemma AssessDecreases(c: Config, a: Answer)
    requires c.node == Assess && StepOk(c, a) && Budgets(c.s)
    ensures StepsLeft(MainStep(c, a)) < StepsLeft(c)
  {
  }

  lemma ExpandSpends(s: State, a: ExpandAnswer)
    requires ExpandGoals(s, a).Next?
    ensures var t := ExpandGoals(s, a).state;
      && t.maxIterations == s.maxIterations && t.iteration == s.iteration && t.cycle == s.cycle
      && (t.terminal.Stopped() || t.goalExpansions == s.goalExpansions + 1)
  {
  }

  lemma ExpandDecreases(c: Config, a: Answer)
    requires c.node == Expand && StepOk(c, a) && Budgets(c.s) && c.s.iteration < c.s.maxIterations
    ensures StepsLeft(MainStep(c, a)) < StepsLeft(c)
  {
    var o := ExpandGoals(c.s, a.expand);
    assert MainStep(c, a) == Goto(c, o, RouteAfterExpand);
    if o.Next? {
      ExpandSpends(c.s, a.expand);
    }
  }

  lemma StepDecreases(c: Config, a: Answer)
    requires MainInv(c) && StepOk(c, a)
    ensures 0 <= StepsLeft(MainStep(c, a)) < StepsLeft(c)
  {
    StepKeeps(c, a);
    BoundIsNatural(MainStep(c, a));
    match c.node
    case Plan => PlanDecreases(c, a);
    case ReuseNode => ActionDecreases(c, a);
    case InspectNode => ActionDecreases(c, a);
    case RecallNode => ActionDecreases(c, a);
    case LimitNode => ActionDecreases(c, a);
    case ApplyNode => ApplyDecreases(c);
    case Assess => AssessDecreases(c, a);
    case Expand => ExpandDecreases(c, a);
    case _ =>
  }

  lemma BoundIsNatural(c: Config)
    requires MainInv(c)
    ensures 0 <= StepsLeft(c)
  {
  }

  lemma {:induction false} RunDecreases(c: Config, answers: seq<Answer>)
    requires MainInv(c) && RunOk(c, answers)
    ensures |answers| + StepsLeft(Run(c, answers)) <= StepsLeft(c)
    ensures 0 <= StepsLeft(Run(c, answers))
    decreases |answers|
  {
    BoundIsNatural(c);
    if answers != [] {
      StepDecreases(c, answers[0]);
      StepKeeps(c, answers[0]);
      RunDecreases(MainStep(c, answers[0]), answers[1..]);
    }
  }

  // ---------------------------------------------------------------- the theorems

  lemma StartIsGood(dataset: int, maxIterations: nat)
    requires maxIterations > 0
    ensures MainInv(Start(dataset, maxIterations))
  {
  }

  /** No clock is needed to end a run: it executes at most 12 nodes per iteration and 20 more, and never
      starts more iterations than its budget. */
  lemma RunsTerminate(dataset: int, maxIterations: nat, answers: seq<Answer>, c: Config)
    requires Reaches(dataset, maxIterations, answers, c)
    ensures |answers| <= 12 * maxIterations + 20
    ensures c.s.maxIterations == maxIterations && c.s.iteration <= maxIterations
  {
    StartIsGood(dataset, maxIterations);
    RunDecreases(Start(dataset, maxIterations), answers);
    RunKeeps(Start(dataset, maxIterations), answers);
    RunEvolves(Start(dataset, maxIterations), answers);
  }

  /** Under the default budget of 25 iterations, and up to 40, a run never meets the recursion limit. */
  lemma RecursionLimitUnreached(dataset: int, maxIterations: nat, answers: seq<Answer>, c: Config)
    requires Reaches(dataset, maxIterations, answers, c) && maxIterations <= 40
    ensures |answers| <= RECURSION_LIMIT
    ensures maxIterations <= 25 ==> |answers| <= 320
  {
    RunsTerminate(dataset, maxIterations, answers, c);
  }

  /** Why the planner may declare everything closed only when something was open: over an empty goal list that
      declaration would bring the run back to the same planning round, for as long as the clock allows. */
  lemma EmptyGoalsWouldLoop(s: State, a: PlannerAnswer, clock: Clock)
    requires Base(s) && Idle(s) && s.iteration < s.maxIterations && !s.plannerError
    requires s.know.goals == [] && !HasLiveTask(s.know.agenda) && MissingPairs(s.know) == [] && !clock.expired
    requires a.Proposal? && a.intent.None? && a.verdict.finished
    ensures PlanIntent(s, a) == Next(s) && RouteAfterPlan(s) == Assess
    ensures AssessProgress(s, clock, []) == Next(s) && RouteAfterAssess(s) == Plan
  {
    BaseIsLoadable(s);
    assert ApplyVerdict(s, a.verdict) == [];
  }

  // ---------------------------------------------------------------- a run never has to stop early

  function Supply(base: TaskId, n: nat): (ids: seq<TaskId>)
    ensures |ids| == n && forall i :: 0 <= i < n ==> ids[i] == base + i
  {
    seq(n, i => base + i)
  }

  lemma {:induction false} IdsBelow(tasks: seq<AgendaTask>) returns (base: TaskId)
    ensures forall t :: t in tasks ==> t.taskId < base
  {
    if tasks == [] {
      base := 0;
    } else {
      var last := tasks[|tasks| - 1];
      base := IdsBelow(tasks[..|tasks| - 1]);
      base := if base <= last.taskId then last.taskId + 1 else base;
      assert tasks == tasks[..|tasks| - 1] + [last];
    }
  }

  /** Without a code generator an attempt ends after four nodes. */
  lemma AttemptCanEnd(p: State) returns (answers: seq<ExecAnswer>)
    requires ExecReady(p)
    ensures ExecRunOk(ExecStart(p), answers) && !ExecRun(ExecStart(p), answers).At?
  {
    var a := ExecAnswer(None, NoCodegen, [], [], Refused, NoCritic, 0, []);
    answers := [a, a, a, a];
    ReadyIsLoadable(p);
    var c1 := ExecStep(ExecStart(p), a);
    var c2 := ExecStep(c1, a);
    var c3 := ExecStep(c2, a);
    var c4 := ExecStep(c3, a);
    assert c1 == At(LookupNode, p, EntryLengths(p)) && c2.At? && c2.node == GenerateNode;
    assert c3.At? && c3.node == ExportNode && Grown(c3.s, c3.entry);
    assert answers[1..] == [a, a, a] && [a, a, a][1..] == [a, a] && [a, a][1..] == [a] && [a][1..] == [];
    assert ExecRunOk(c4, []) && ExecRun(c4, []) == c4;
    assert ExecRunOk(c3, [a]) && ExecRun(c3, [a]) == c4;
    assert ExecRunOk(c2, [a, a]) && ExecRun(c2, [a, a]) == c4;
    assert ExecRunOk(c1, [a, a, a]) && ExecRun(c1, [a, a, a]) == c4;
  }

  /** Until a run has ended, some answer of the environment always takes it further. */
  lemma RunCanContinue(c: Config) returns (a: Answer)
    requires MainInv(c) && c.node != End && c.node != Crashed
    ensures StepOk(c, a) && a.planner == NoPlanner
  {
    var execution: seq<ExecAnswer> := [];
    if c.node == ExecutionNode {
      execution := AttemptCanEnd(c.s);
    }
    var base := IdsBelow(c.s.know.agenda);
    a := Answer(Profile(0, {}), [], NoPlanner, execution, Clock(false, false), Supply(base, |MissingPairs(c.s.know)|),
      NoExpander);
  }

  /** The run has raised, or is about to: evidence is being reused for an intent without a goal. */
  predicate Doomed(c: Config) {
    c.node == Crashed || (c.node == ReuseNode && c.s.intent.Some? && c.s.intent.value.goalId.None?)
  }

  /** Only a planner's intent leads to evidence reuse. */
  lemma NoPlannerNoReuse(c: Config, a: Answer)
    requires StepOk(c, a) && a.planner == NoPlanner
    ensures MainStep(c, a).node != ReuseNode
  {
  }

  lemma StaysSafe(c: Config, a: Answer)
    requires MainInv(c) && StepOk(c, a) && a.planner == NoPlanner
    ensures Doomed(MainStep(c, a)) <==> Doomed(c)
  {
    StepKeeps(c, a);
    NoPlannerNoReuse(c, a);
  }

  /** Every run can be completed within the bound; it ends properly unless it already reuses evidence for an
      intent without a goal. */
  lemma RunCanEnd(c: Config) returns (answers: seq<Answer>)
    requires MainInv(c)
    ensures RunOk(c, answers) && |answers| <= StepsLeft(c)
    ensures Run(c, answers).node == if Doomed(c) then Crashed else End
    decreases StepsLeft(c)
  {
    BoundIsNatural(c);
    if c.node == End || c.node == Crashed {
      answers := [];
    } else {
      var a := RunCanContinue(c);
      StepDecreases(c, a);
      StepKeeps(c, a);
      StaysSafe(c, a);
      var rest := RunCanEnd(MainStep(c, a));
      answers := [a] + rest;
      assert answers[1..] == rest;
    }
  }

  // ---------------------------------------------------------------- whole runs accumulate

  lemma {:induction false} RunEvolves(c: Config, answers: seq<Answer>)
    requires MainInv(c) && RunOk(c, answers)
    ensures Evolves(c.s, Run(c, answers).s)
    decreases |answers|
  {
    if answers == [] {
      SameAgenda(c.s.know.agenda);
    } else {
      StepKeeps(c, answers[0]);
      StepEvolves(c, answers[0]);
      var d := MainStep(c, answers[0]);
      RunEvolves(d, answers[1..]);
      EvolvesTransitive(c.s, d.s, Run(c, answers).s);
    }
  }

  lemma {:induction false} RunAccounts(c: Config, answers: seq<Answer>)
    requires MainInv(c) && RunOk(c, answers)
    ensures Accounted(Run(c, answers)) - Accounted(c) == Run(c, answers).s.iteration - c.s.iteration
    decreases |answers|
  {
    if answers != [] {
      StepKeeps(c, answers[0]);
      StepAccounts(c, answers[0]);
      RunAccounts(MainStep(c, answers[0]), answers[1..]);
    }
  }
}
