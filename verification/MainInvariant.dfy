/** The invariant of the main graph, node by node, and its preservation by every step. */
module MainInvariant {
  import opened Contracts
  import opened RunState
  import opened GoalNumbering
  import opened IntentPolicy
  import opened ReviewAgenda
  import opened KnowledgeInvariant
  import opened Planning
  import opened Progress
  import opened Execution
  import opened ExecutionProofs
  import opened AgendaSteps
  import opened MainGraph

  // ---------------------------------------------------------------- what holds at a node

  ghost predicate Base(s: State) {
    && KnowledgeOk(s.know)
    && s.profile.Some?
    && 0 < s.maxIterations && s.iteration <= s.maxIterations
    && s.goalExpansions <= MAX_GOAL_EXPANSIONS
  }

  ghost predicate Idle(s: State) {
    && s.terminal == Terminal(Running, None)
    && s.intent.None? && s.delta.None?
    && NothingInProgress(s.know.agenda)
  }

  /** An accepted intent whose action has not run yet. */
  ghost predicate Active(s: State, mode: Mode) {
    && s.terminal == Terminal(Running, None)
    && s.intent.Some? && s.delta.None? && s.cycle == FRESH_CYCLE
    && var intent := s.intent.value;
       && intent.mode == mode && ValidIntent(intent) && !Blank(intent.question)
       && KnownReferences(s.know, intent)
       && DedupeKey(intent) !in s.know.coverage.testedKeys
       && RepeatedActionError(s, intent).None?
       && (intent.goalId.Some? ==> intent.goalId.value in OpenGoalIds(s.know.goals))
       && (if mode == Compute then ActiveTask(s.know.agenda, intent)
           else NothingInProgress(s.know.agenda) && TaskError(s.know.agenda, intent).None?)
       && (mode == ReuseEvidence ==> Reusable(s, intent))
       && (mode == InspectData ==> s.profile.Some? && ToSet(intent.candidates) <= s.profile.value.columns)
  }

  /** Only the task of the stored intent may be in progress. */
  ghost predicate Owned(s: State) {
    forall t :: t in s.know.agenda && t.status == InProgress ==>
      s.intent.Some? && Selected(t, s.intent.value) && t.selected == Some(s.intent.value.intentId)
  }

  /** How the state stands after a planning round or an action: ready for another round, or stopped. */
  ghost predicate Settled(s: State) {
    && s.delta.None?
    && (|| Idle(s)
        || (&& s.terminal.Stopped() && StopSound(s) && Owned(s)
            && (s.intent.Some? ==> s.terminal.stopCode == Some(ServiceUnavailable))))
  }

  ghost predicate NoUnresolved(k: Knowledge) {
    forall a, b :: !UnresolvedPair(k.relations, {a, b})
  }

  /** Nothing is left to do: no live task, no open goal, no unresolved contradiction. */
  ghost predicate Finished(k: Knowledge) {
    !HasLiveTask(k.agenda) && AllGoalsClosed(k.goals) && NoUnresolved(k)
  }

  /** What each stop code says about the run. */
  ghost predicate StopSound(s: State) {
    s.terminal.stopCode.Some? &&
    match s.terminal.stopCode.value
    case GoalSatisfied =>
      && s.terminal.status == Done && Finished(s.know)
      && (forall g :: g in s.know.goals ==> g.status == Converged)
      && (forall t :: t in s.know.agenda ==> t.status == Completed)
    case DataLimitedStop =>
      && s.terminal.status == Done && Finished(s.know)
      && ((exists g :: g in s.know.goals && g.status == Abandoned)
        || (exists t :: t in s.know.agenda && t.status == DataLimited))
    case ExpansionLimitReached =>
      s.terminal.status == Done && Finished(s.know) && s.goalExpansions == MAX_GOAL_EXPANSIONS
    case MaxIterationsReached => s.terminal.status == Done && s.iteration == s.maxIterations
    case PlannerStuck =>
      && s.terminal.status == Failed && s.intent.None?
      && s.cycle.streak.key == {NoIntentCode} && s.cycle.streak.count >= STUCK_THRESHOLD
      && LoopIssue(s.cycle.streak.key, s.cycle.streak.count, s.iteration, None) in s.know.issues
    case BudgetExhausted => s.terminal.status == Done
    case ServiceUnavailable => true
  }

  /** The child graph has handed back its delta, and the parent state is still the one it started from. */
  ghost predicate Delivered(s: State) {
    var p := s.(delta := None);
    s.intent.Some? && ExecReady(p) && exists t :: DeliveredFrom(p, s, t)
  }

  ghost predicate DeliveredFrom(p: State, s: State, t: State) {
    AttemptEnded(p, t) && Grown(t, EntryLengths(p)) && s.delta == Some(ExportDelta(t, EntryLengths(p)))
  }

  ghost predicate MainInv(c: Config) {
    var s := c.s;
    match c.node
    case ProfileData => s.maxIterations > 0 && s == NewState(s.dataset, s.maxIterations)
    case DecomposeObjective => Base(s) && Idle(s) && s.iteration < s.maxIterations && s.know == EMPTY_KNOWLEDGE
    case Plan => Base(s) && Idle(s) && s.iteration < s.maxIterations
    case ReuseNode => Base(s) && Active(s, ReuseEvidence)
    case InspectNode => Base(s) && Active(s, InspectData)
    case RecallNode => Base(s) && Active(s, LookupEvidence)
    case LimitNode => Base(s) && Active(s, MarkDataLimited)
    case ExecutionNode => Base(s) && Active(s, Compute)
    case ApplyNode => Base(s) && Delivered(s)
    case Assess => Base(s) && Settled(s)
    case Expand =>
      Base(s) && Idle(s) && s.iteration < s.maxIterations && s.goalExpansions < MAX_GOAL_EXPANSIONS && Finished(s.know)
    case Finalize => Base(s) && Settled(s) && s.terminal.Stopped()
    case End => Base(s) && Settled(s) && s.terminal.Stopped()
    case Crashed => Base(s) && Active(s, ReuseEvidence) && s.intent.value.goalId.None?
  }

  // ---------------------------------------------------------------- loading

  lemma BaseIsLoadable(s: State)
    requires Base(s) && (s.intent.Some? ==> ValidIntent(s.intent.value))
    ensures Loadable(s)
  {
  }

  // ---------------------------------------------------------------- planning

  /** The references of an accepted intent are known, and its goal is still open after the verdict. */
  lemma AcceptedReferences(s: State, intent: Intent, v: GoalVerdict)
    requires s.profile.Some?
      && ReferenceError(intent, s.profile.value, s.know.goals, EvidenceIds(s.know.evidence)).None?
    requires !(intent.goalId.Some? && VerdictNoted(s.know.goals, v)
      && intent.goalId.value in ClosedGoalIds(ApplyVerdict(s, v)))
    ensures forall p :: p in intent.parents || p in intent.reuse ==> p in EvidenceIds(s.know.evidence)
    ensures ToSet(intent.candidates) <= s.profile.value.columns
    ensures intent.goalId.Some? ==> intent.goalId.value in OpenGoalIds(ApplyVerdict(s, v))
  {
    forall p | p in intent.parents || p in intent.reuse ensures p in EvidenceIds(s.know.evidence) {
      assert p in ToSet(intent.parents) + ToSet(intent.reuse);
    }
    forall c | c in ToSet(intent.candidates) ensures c in s.profile.value.columns {
      assert c in ToSet(intent.candidates) + ToSet(intent.required) + ToSet(intent.excluded);
    }
    if intent.goalId.Some? {
      var g :| g in s.know.goals && g.IsOpen() && g.goalId == intent.goalId.value;
      var i :| 0 <= i < |s.know.goals| && s.know.goals[i] == g;
      var h := ApplyVerdict(s, v)[i];
      assert h in ApplyVerdict(s, v) && h.goalId == g.goalId;
      assert !h.IsOpen() ==> Names(v, g) && h.goalId in ClosedGoalIds(ApplyVerdict(s, v));
    }
  }

  lemma OpenGoalsAreGoals(goals: seq<SubGoal>)
    ensures OpenGoalIds(goals) <= GoalIds(goals)
  {
  }

  lemma AcceptedReuse(s: State, intent: Intent)
    requires ReuseError(s, intent).None? && forall p :: p in intent.reuse ==> p in EvidenceIds(s.know.evidence)
    ensures Reusable(s, intent)
  {
  }

  lemma AcceptedIsActive(s: State, intent: Intent, v: GoalVerdict)
    requires Base(s) && Idle(s) && ValidIntent(intent) && !Blank(intent.question)
    requires RejectedIntent(s, s.profile.value, intent, ApplyVerdict(s, v), VerdictNoted(s.know.goals, v)).None?
    ensures Active(Accepted(s, ApplyVerdict(s, v), intent), intent.mode)
  {
    var t := Accepted(s, ApplyVerdict(s, v), intent);
    AcceptedReferences(s, intent, v);
    OpenGoalsAreGoals(t.know.goals);
    SelectActivates(s.know.agenda, intent);
    if intent.mode == ReuseEvidence {
      AcceptedReuse(s, intent);
      forall id | id in intent.reuse ensures !IsStale(t, id) {
        assert !IsStale(s, id);
      }
    }
  }

  lemma AcceptedKeepsKnowledge(s: State, intent: Intent, v: GoalVerdict)
    requires KnowledgeOk(s.know) && NothingInProgress(s.know.agenda) && TaskError(s.know.agenda, intent).None?
    ensures KnowledgeOk(Accepted(s, ApplyVerdict(s, v), intent).know)
    ensures AgendaEvolves(s.know.agenda, Accepted(s, ApplyVerdict(s, v), intent).know.agenda)
  {
    VerdictKeepsKnowledge(s, v);
    var k := s.know.(goals := ApplyVerdict(s, v));
    SelectKeepsKnowledge(k, intent);
    assert Accepted(s, ApplyVerdict(s, v), intent).know == k.(agenda := SelectTask(k.agenda, intent));
  }

  lemma NoIntentSettles(s: State, a: PlannerAnswer)
    requires Base(s) && Idle(s) && a.Proposal?
    ensures var t := NoIntent(s, ApplyVerdict(s, a.verdict), a); Base(t) && Settled(t) && t.intent.None?
  {
    var goals := ApplyVerdict(s, a.verdict);
    VerdictKeepsKnowledge(s, a.verdict);
    StalledSettles(s, goals, true);
    StalledSettles(s, goals, false);
  }

  lemma StalledSettles(s: State, goals: seq<SubGoal>, planned: bool)
    requires Base(s) && Idle(s) && KnowledgeOk(s.know.(goals := goals))
    ensures var t := Stalled(s, goals, planned); Base(t) && Settled(t) && t.intent.None?
  {
    var t := Stalled(s, goals, planned);
    SameParts(s.know.(goals := goals), t.know);
  }

  /** How a planning round may leave the state. */
  ghost predicate AfterPlan(t: State) {
    Base(t) && if t.intent.None? then Settled(t) else Active(t, t.intent.value.mode)
  }

  lemma AcceptedKeeps(s: State, intent: Intent, v: GoalVerdict)
    requires Base(s) && Idle(s) && s.iteration < s.maxIterations && ValidIntent(intent) && !Blank(intent.question)
    requires RejectedIntent(s, s.profile.value, intent, ApplyVerdict(s, v), VerdictNoted(s.know.goals, v)).None?
    ensures AfterPlan(Accepted(s, ApplyVerdict(s, v), intent))
  {
    AcceptedIsActive(s, intent, v);
    AcceptedKeepsKnowledge(s, intent, v);
  }

  lemma ProposalKeeps(s: State, a: PlannerAnswer)
    requires Base(s) && Idle(s) && s.iteration < s.maxIterations && a.Proposal?
    requires a.intent.Some? ==> ValidIntent(a.intent.value) && !Blank(a.intent.value.question)
    ensures PlanIntent(s, a).Next? && AfterPlan(PlanIntent(s, a).state)
  {
    BaseIsLoadable(s);
    var v := a.verdict;
    var goals := ApplyVerdict(s, v);
    if a.intent.None? {
      NoIntentSettles(s, a);
    } else if RejectedIntent(s, s.profile.value, a.intent.value, goals, VerdictNoted(s.know.goals, v)).Some? {
      VerdictKeepsKnowledge(s, v);
      StalledSettles(s, goals, true);
    } else {
      AcceptedKeeps(s, a.intent.value, v);
    }
  }

  lemma PlanKeeps(c: Config, a: Answer)
    requires MainInv(c) && c.node == Plan && StepOk(c, a)
    ensures MainInv(MainStep(c, a)) && MainStep(c, a).node != Crashed
  {
    BaseIsLoadable(c.s);
    if a.planner.Proposal? {
      ProposalKeeps(c.s, a.planner);
    }
  }

  // ---------------------------------------------------------------- actions without code

  lemma ReuseKeeps(c: Config, a: Answer)
    requires MainInv(c) && c.node == ReuseNode && StepOk(c, a)
    ensures MainInv(MainStep(c, a))
    ensures MainStep(c, a).node == Crashed <==> c.s.intent.value.goalId.None?
  {
    BaseIsLoadable(c.s);
    var intent := c.s.intent.value;
    if intent.goalId.Some? {
      ReuseKeepsKnowledge(c.s.know, intent.goalId.value, intent.reuse);
    }
  }

  lemma ReadOnlyKeeps(c: Config, a: Answer)
    requires MainInv(c) && (c.node == InspectNode || c.node == RecallNode) && StepOk(c, a)
    ensures MainInv(MainStep(c, a)) && MainStep(c, a).node == Assess
  {
    BaseIsLoadable(c.s);
  }

  lemma LimitKeeps(c: Config, a: Answer)
    requires MainInv(c) && c.node == LimitNode && StepOk(c, a)
    ensures MainInv(MainStep(c, a)) && MainStep(c, a).node == Assess
  {
    BaseIsLoadable(c.s);
    AcceptedLimitApplies(c.s.know.agenda, c.s.intent.value);
    LimitKeepsKnowledge(c.s.know, c.s.intent.value);
  }

  // ---------------------------------------------------------------- running code

  lemma ExecutionKeeps(c: Config, a: Answer)
    requires MainInv(c) && c.node == ExecutionNode && StepOk(c, a)
    ensures MainInv(MainStep(c, a)) && MainStep(c, a).node == ApplyNode
  {
    var p := c.s;
    ExecRunKeeps(p, ExecStart(p), a.execution);
    var delta := ExecRun(ExecStart(p), a.execution).delta;
    var t :| AttemptEnded(p, t) && Grown(t, EntryLengths(p)) && delta == ExportDelta(t, EntryLengths(p));
    var s := p.(delta := Some(delta));
    assert s.(delta := None) == p;
    assert DeliveredFrom(p, s, t);
  }

  /** An attempt that ended leaves good knowledge, and either stopped the run or freed its task. */
  lemma AttemptSettles(p: State, t: State)
    requires Base(p) && ExecReady(p) && AttemptEnded(p, t)
    ensures Base(t) && Settled(t)
  {
    if review, record, ids :| CommittedWith(p, t, review, record, ids) {
      CommitKeepsKnowledge(p.know, p.intent.value, review, record, ids);
    } else if stage, issues :| RejectedWith(p, t, stage, issues) {
      RejectKeepsKnowledge(p.know, p.intent.value, stage, issues);
    } else {
      assert StoppedFrom(p, t);
    }
  }

  /** Applying the delta yields the very state in which the child graph ended. */
  lemma ApplyYields(s: State) returns (t: State)
    requires Delivered(s)
    ensures t == ApplyDelta(s) && AttemptEnded(s.(delta := None), t)
  {
    var p := s.(delta := None);
    t :| DeliveredFrom(p, s, t);
    DeltaIsInline(p, t);
    assert p.(delta := Some(ExportDelta(t, EntryLengths(p)))) == s;
  }

  lemma ApplyKeeps(c: Config, a: Answer)
    requires MainInv(c) && c.node == ApplyNode && StepOk(c, a)
    ensures MainInv(MainStep(c, a)) && MainStep(c, a).node == Assess
  {
    var t := ApplyYields(c.s);
    AttemptSettles(c.s.(delta := None), t);
  }

  // ---------------------------------------------------------------- assessing and expanding

  /** Without a live task, an empty repair list means that no contradiction is open. */
  lemma NothingMissing(k: Knowledge)
    requires !HasLiveTask(k.agenda) && MissingPairs(k) == []
    ensures NoUnresolved(k)
  {
    forall a, b ensures !UnresolvedPair(k.relations, {a, b}) {
      if UnresolvedPair(k.relations, {a, b}) {
        MissingPairIsListed(k, a, b);
        assert false;
      }
    }
  }

  lemma RepairKeeps(s: State, ids: seq<TaskId>)
    requires Base(s) && Idle(s) && !HasLiveTask(s.know.agenda)
    requires |ids| == |MissingPairs(s.know)| && FreshIds(ids, s.know.agenda)
    ensures var created := RepairTasks(s.know.evidence, MissingPairs(s.know), ids);
      var t := s.(know := s.know.(agenda := s.know.agenda + created));
      Base(t) && Idle(t) && (MissingPairs(s.know) != [] ==> HasLiveTask(t.know.agenda))
  {
    var created := RepairTasks(s.know.evidence, MissingPairs(s.know), ids);
    RepairTasksOk(s.know, ids);
    RepairKeepsKnowledge(s.know, created, ids);
    if created != [] {
      assert created[0] in s.know.agenda + created && created[0].Live();
    }
  }

  /** The assessment of a running state: a sound stop, another planning round, or an expansion with nothing left. */
  ghost predicate Assessed(t: State) {
    if t.terminal.Stopped() then Settled(t)
    else
      && Idle(t) && t.iteration < t.maxIterations
      && (!HasLiveTask(t.know.agenda) && AllGoalsClosed(t.know.goals) ==>
        Finished(t.know) && t.goalExpansions < MAX_GOAL_EXPANSIONS)
  }

  /** No time, or no rounds, left. */
  lemma AssessOutOfBudget(s: State, clock: Clock, ids: seq<TaskId>)
    requires Base(s) && Idle(s) && |ids| == |MissingPairs(s.know)|
    requires clock.expired || s.iteration >= s.maxIterations
    ensures var o := AssessProgress(s, clock, ids); o.Next? && Base(o.state) && Assessed(o.state)
  {
  }

  /** Work is waiting, or is created from the relation graph. */
  lemma AssessWaiting(s: State, clock: Clock, ids: seq<TaskId>)
    requires Base(s) && Idle(s) && |ids| == |MissingPairs(s.know)| && FreshIds(ids, s.know.agenda)
    requires !clock.expired && s.iteration < s.maxIterations
    requires HasLiveTask(s.know.agenda) || MissingPairs(s.know) != []
    ensures var o := AssessProgress(s, clock, ids); o.Next? && Base(o.state) && Assessed(o.state)
  {
    BaseIsLoadable(s);
    if !HasLiveTask(s.know.agenda) {
      RepairKeeps(s, ids);
    }
  }

  lemma AssessIdle(s: State, clock: Clock, ids: seq<TaskId>)
    requires Base(s) && Idle(s) && |ids| == |MissingPairs(s.know)|
    requires !clock.expired && s.iteration < s.maxIterations
    requires !HasLiveTask(s.know.agenda) && MissingPairs(s.know) == []
    ensures var o := AssessProgress(s, clock, ids); o.Next? && Base(o.state) && Assessed(o.state)
  {
    BaseIsLoadable(s);
    NothingMissing(s.know);
    assert AllGoalsClosed(s.know.goals) ==> Finished(s.know);
  }

  lemma AssessRunning(s: State, clock: Clock, ids: seq<TaskId>)
    requires Base(s) && Idle(s) && |ids| == |MissingPairs(s.know)| && FreshIds(ids, s.know.agenda)
    ensures var o := AssessProgress(s, clock, ids); o.Next? && Base(o.state) && Assessed(o.state)
  {
    if clock.expired || s.iteration >= s.maxIterations {
      AssessOutOfBudget(s, clock, ids);
    } else if HasLiveTask(s.know.agenda) || MissingPairs(s.know) != [] {
      AssessWaiting(s, clock, ids);
    } else {
      AssessIdle(s, clock, ids);
    }
  }

  lemma AssessKeeps(c: Config, a: Answer)
    requires MainInv(c) && c.node == Assess && StepOk(c, a)
    ensures MainInv(MainStep(c, a)) && MainStep(c, a).node != Crashed
  {
    if !c.s.terminal.Stopped() {
      AssessRunning(c.s, a.clock, a.repairIds);
    }
  }

  lemma ExpandedGoals(k: Knowledge, more: seq<SubGoal>)
    requires KnowledgeOk(k)
    ensures KnowledgeOk(k.(goals := k.goals + more))
  {
    SameGoalIds(k.goals, k.goals + more);
    GoalsGrow(k, k.goals + more);
  }

  lemma TerminalIsSound(s: State)
    requires Base(s) && Idle(s) && Finished(s.know)
    ensures Settled(TerminalAfterExpansion(s)) && TerminalAfterExpansion(s).terminal.Stopped()
  {
    forall g | g in s.know.goals && g.status != Abandoned ensures g.status == Converged {
      assert !g.IsOpen();
    }
    forall t | t in s.know.agenda && t.status != DataLimited ensures t.status == Completed {
      assert !t.Live();
    }
  }

  lemma ExpandKeeps(c: Config, a: Answer)
    requires MainInv(c) && c.node == Expand && StepOk(c, a)
    ensures MainInv(MainStep(c, a)) && MainStep(c, a).node != Crashed
  {
    var s := c.s;
    BaseIsLoadable(s);
    if a.expand.Expansion? {
      var proposed := ParseGoals(a.expand.raw, |s.know.goals|);
      if proposed == [] {
        TerminalIsSound(s);
      } else {
        var remaining := s.maxIterations - s.iteration;
        ExpandedGoals(s.know, if |proposed| > remaining then proposed[..remaining] else proposed);
      }
    }
  }

  lemma EmptyKnowledgeOk(goals: seq<SubGoal>)
    ensures KnowledgeOk(EMPTY_KNOWLEDGE.(goals := goals))
  {
  }

  lemma OpeningKeeps(c: Config, a: Answer)
    requires MainInv(c) && (c.node == ProfileData || c.node == DecomposeObjective) && StepOk(c, a)
    ensures MainInv(MainStep(c, a)) && MainStep(c, a).node != Crashed
  {
    EmptyKnowledgeOk([]);
    EmptyKnowledgeOk(ParseGoals(a.decomposed, 0));
  }

  /** Every step keeps the invariant, and only evidence reuse without a goal ever raises. */
  lemma StepKeeps(c: Config, a: Answer)
    requires MainInv(c) && StepOk(c, a)
    ensures MainInv(MainStep(c, a))
    ensures MainStep(c, a).node == Crashed <==> c.node == ReuseNode && c.s.intent.value.goalId.None?
  {
    match c.node
    case ProfileData => OpeningKeeps(c, a);
    case DecomposeObjective => OpeningKeeps(c, a);
    case Plan => PlanKeeps(c, a);
    case ReuseNode => ReuseKeeps(c, a);
    case InspectNode => ReadOnlyKeeps(c, a);
    case RecallNode => ReadOnlyKeeps(c, a);
    case LimitNode => LimitKeeps(c, a);
    case ExecutionNode => ExecutionKeeps(c, a);
    case ApplyNode => ApplyKeeps(c, a);
    case Assess => AssessKeeps(c, a);
    case Expand => ExpandKeeps(c, a);
    case _ =>
  }

  /** Every reachable configuration satisfies the invariant of its node. */
  lemma {:induction false} RunKeeps(c: Config, answers: seq<Answer>)
    requires MainInv(c) && RunOk(c, answers)
    ensures MainInv(Run(c, answers))
    decreases |answers|
  {
    if answers != [] {
      StepKeeps(c, answers[0]);
      RunKeeps(MainStep(c, answers[0]), answers[1..]);
    }
  }
}
