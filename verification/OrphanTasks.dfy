/** A live task whose goal is closed can never be worked on again: how such tasks arise, why they stay, and
    what they keep a run from concluding. */
module OrphanTasks {
  import opened Contracts
  import opened RunState
  import opened GoalNumbering
  import opened IntentPolicy
  import opened ReviewAgenda
  import opened KnowledgeInvariant
  import opened Planning
  import opened Progress
  import opened ExecutionProofs
  import opened AgendaSteps
  import opened MainGraph
  import opened MainInvariant
  import opened RunHistory
  import opened RunTermination
  import opened RunTheorems

  /** The task at `i` waits, and no goal carrying its goal's number is open. */
  ghost predicate Orphan(s: State, i: nat) {
    && i < |s.know.agenda| && s.know.agenda[i].status == Pending
    && s.know.agenda[i].goalId.Some? && s.know.agenda[i].goalId.value !in OpenGoalIds(s.know.goals)
  }

  /** The only way out: a contradiction task completed because another record resolved its pair. */
  ghost predicate ResolvedByAnother(s: State, i: nat) {
    && i < |s.know.agenda| && s.know.agenda[i].kind == ResolveContradiction && s.know.agenda[i].status == Completed
    && ResolvedPair(s.know.relations, ToSet(s.know.agenda[i].sources))
  }

  // ---------------------------------------------------------------- goal numbers that come back

  /** No goal appended after those of `a` carries the number `g`. */
  ghost predicate NotReused(a: seq<SubGoal>, b: seq<SubGoal>, g: GoalId) {
    forall j :: |a| <= j < |b| ==> b[j].goalId != g
  }

  /** A closed number stays closed unless a new goal takes it. */
  lemma ClosedStays(a: seq<SubGoal>, b: seq<SubGoal>, g: GoalId)
    requires GoalsEvolve(a, b) && NotReused(a, b, g) && g in OpenGoalIds(b)
    ensures g in OpenGoalIds(a)
  {
    var y :| y in b && y.IsOpen() && y.goalId == g;
    var j :| 0 <= j < |b| && b[j] == y;
    assert GoalEvolves(a[j], b[j]) && a[j] in a;
  }

  /** A number is not taken over two stretches exactly when it is not taken in either. */
  lemma NotReusedSplits(a: seq<SubGoal>, b: seq<SubGoal>, c: seq<SubGoal>, g: GoalId)
    requires GoalsEvolve(a, b) && GoalsEvolve(b, c)
    ensures NotReused(a, c, g) <==> NotReused(a, b, g) && NotReused(b, c, g)
  {
    forall j | 0 <= j < |b| ensures b[j].goalId == c[j].goalId {
      assert GoalEvolves(b[j], c[j]);
    }
  }

  /** If all goals at the end have different numbers, none took a number in use before. */
  lemma DistinctIsNotReused(a: seq<SubGoal>, b: seq<SubGoal>, g: GoalId)
    requires GoalsEvolve(a, b) && DistinctGoals(b) && g in GoalIds(a)
    ensures NotReused(a, b, g)
  {
    var x :| x in a && x.goalId == g;
    var i :| 0 <= i < |a| && a[i] == x;
    assert GoalEvolves(a[i], b[i]);
  }

  ghost predicate DistinctGoals(goals: seq<SubGoal>) {
    forall i, j :: 0 <= i < j < |goals| ==> goals[i].goalId != goals[j].goalId
  }

  // ---------------------------------------------------------------- a task of a closed goal stays as it is

  /** No accepted intent works on a task whose goal is closed. */
  lemma NeverSelected(s: State, intent: Intent, i: nat)
    requires DistinctIds(s.know.agenda) && TaskError(s.know.agenda, intent).None? && Orphan(s, i)
    requires intent.goalId.Some? ==> intent.goalId.value in OpenGoalIds(s.know.goals)
    ensures !Selected(s.know.agenda[i], intent)
  {
    if Selected(s.know.agenda[i], intent) {
      SelectedIsLive(s.know.agenda, intent, i);
      assert false;
    }
  }

  lemma PlanLeavesOrphan(s: State, a: PlannerAnswer, i: nat)
    requires DistinctIds(s.know.agenda) && PlanIntent(s, a).Next? && Orphan(s, i)
    ensures |PlanIntent(s, a).state.know.agenda| == |s.know.agenda|
    ensures PlanIntent(s, a).state.know.agenda[i] == s.know.agenda[i]
  {
    if a.Proposal? && a.intent.Some? {
      var goals, intent := ApplyVerdict(s, a.verdict), a.intent.value;
      if RejectedIntent(s, s.profile.value, intent, goals, VerdictNoted(s.know.goals, a.verdict)).None? {
        NeverSelected(s, intent, i);
      }
    }
  }

  lemma LimitLeavesOrphan(s: State, i: nat)
    requires KnowledgeOk(s.know) && Active(s, MarkDataLimited) && Orphan(s, i) && MarkDataLimitedNode(s).Next?
    ensures MarkDataLimitedNode(s).state.know.agenda[i] == s.know.agenda[i]
  {
    NeverSelected(s, s.intent.value, i);
  }

  lemma CommitLeavesOrphan(p: State, t: State, review: CriticReview, record: EvidenceRecord, ids: seq<TaskId>, i: nat)
    requires ExecReady(p) && CommittedWith(p, t, review, record, ids) && Orphan(p, i)
    ensures i < |t.know.agenda| && (t.know.agenda[i] == p.know.agenda[i] || ResolvedByAnother(t, i))
  {
    var k, intent := p.know, p.intent.value;
    CommitKeepsKnowledge(k, intent, review, record, ids);
    var judged := Judged(k.evidence, k.agenda, intent, review, record);
    var cs := Candidates(intent, review, record, ids);
    forall m | 0 <= m < |cs| && cs[m].Some? ensures cs[m].value.status == Pending {
      CandidateIsTask(intent, review, record, ids, m);
    }
    AddTasksContents(judged, cs, |cs|);
    assert t.know.agenda[i] == judged[i];
    assert k.agenda[i] in k.agenda && !Selected(k.agenda[i], intent);
    assert t.know.agenda[i] in t.know.agenda;
  }

  lemma AttemptLeavesOrphan(p: State, t: State, i: nat)
    requires ExecReady(p) && AttemptEnded(p, t) && Orphan(p, i)
    ensures i < |t.know.agenda| && (t.know.agenda[i] == p.know.agenda[i] || ResolvedByAnother(t, i))
  {
    if review, record, ids :| CommittedWith(p, t, review, record, ids) {
      CommitLeavesOrphan(p, t, review, record, ids, i);
    } else if stage, issues :| RejectedWith(p, t, stage, issues) {
      assert p.know.agenda[i].status == Pending;
    } else {
      assert StoppedFrom(p, t);
    }
  }

  lemma AssessLeavesTasks(s: State, clock: Clock, ids: seq<TaskId>, i: nat)
    requires |ids| == |MissingPairs(s.know)| && AssessProgress(s, clock, ids).Next? && i < |s.know.agenda|
    ensures i < |AssessProgress(s, clock, ids).state.know.agenda|
    ensures AssessProgress(s, clock, ids).state.know.agenda[i] == s.know.agenda[i]
  {
  }

  lemma StepLeavesOrphan(c: Config, a: Answer, i: nat)
    requires MainInv(c) && KnowledgeOk(c.s.know) && StepOk(c, a) && Orphan(c.s, i)
    ensures var t := MainStep(c, a).s;
      i < |t.know.agenda| && (t.know.agenda[i] == c.s.know.agenda[i] || ResolvedByAnother(t, i))
  {
    if c.node == Plan {
      if PlanIntent(c.s, a.planner).Next? {
        PlanLeavesOrphan(c.s, a.planner, i);
      }
    } else if c.node == LimitNode {
      if MarkDataLimitedNode(c.s).Next? {
        LimitLeavesOrphan(c.s, i);
      }
    } else if c.node == ApplyNode {
      var t := ApplyYields(c.s);
      AttemptLeavesOrphan(c.s.(delta := None), t, i);
    } else if c.node == Assess {
      if AssessProgress(c.s, a.clock, a.repairIds).Next? {
        AssessLeavesTasks(c.s, a.clock, a.repairIds, i);
      }
    }
  }

  // ---------------------------------------------------------------- the trap

  /** Goals are appended only by decomposition and expansion, which append open ones and leave every task. */
  ghost predicate AppendsOpen(s: State, t: State) {
    (forall j :: |s.know.goals| <= j < |t.know.goals| ==> t.know.goals[j].IsOpen())
    && (|s.know.goals| < |t.know.goals| ==> t.know.agenda == s.know.agenda)
  }

  lemma ExpandAppends(s: State, a: ExpandAnswer)
    requires ExpandGoals(s, a).Next?
    ensures AppendsOpen(s, ExpandGoals(s, a).state)
  {
    if a.Expansion? {
      NewGoalsAreOpen(a.raw, |s.know.goals|);
    }
  }

  lemma DecomposeAppends(s: State, raw: seq<RawGoal>)
    requires DecomposeNode(s, raw).Next?
    ensures AppendsOpen(s, DecomposeNode(s, raw).state)
  {
    NewGoalsAreOpen(raw, 0);
  }

  lemma PlanCountsGoals(s: State, a: PlannerAnswer)
    requires PlanIntent(s, a).Next?
    ensures |PlanIntent(s, a).state.know.goals| == |s.know.goals|
  {
  }

  lemma OtherCountsGoals(c: Config, a: Answer)
    requires StepOk(c, a)
    requires c.node != DecomposeObjective && c.node != Expand && c.node != Plan && c.node != ApplyNode
    ensures |MainStep(c, a).s.know.goals| == |c.s.know.goals|
  {
  }

  lemma StepAppends(c: Config, a: Answer)
    requires MainInv(c) && StepOk(c, a)
    ensures AppendsOpen(c.s, MainStep(c, a).s)
  {
    if c.node == DecomposeObjective {
      if DecomposeNode(c.s, a.decomposed).Next? {
        DecomposeAppends(c.s, a.decomposed);
      }
    } else if c.node == Expand {
      if ExpandGoals(c.s, a.expand).Next? {
        ExpandAppends(c.s, a.expand);
      }
    } else if c.node == Plan {
      if PlanIntent(c.s, a.planner).Next? {
        PlanCountsGoals(c.s, a.planner);
      }
    } else if c.node == ApplyNode {
      var t := ApplyYields(c.s);
      AttemptKeepsGoals(c.s.(delta := None), t);
    } else {
      OtherCountsGoals(c, a);
    }
  }

  /** The task still waits for its closed goal, or its contradiction has been resolved elsewhere. */
  ghost predicate Trapped(s: State, i: nat) {
    Orphan(s, i) || ResolvedByAnother(s, i)
  }

  lemma ReuseFrees(s: State, t: State, i: nat)
    requires Orphan(s, i) && AppendsOpen(s, t)
    requires !NotReused(s.know.goals, t.know.goals, s.know.agenda[i].goalId.value)
    ensures !Trapped(t, i)
  {
    var j :| |s.know.goals| <= j < |t.know.goals| && t.know.goals[j].goalId == s.know.agenda[i].goalId.value;
    assert t.know.goals[j] in t.know.goals && t.know.goals[j].IsOpen();
  }

  /** One step keeps an orphan trapped exactly when it appends no goal carrying the number of the task's goal. */
  lemma StepTrapsIff(c: Config, a: Answer, i: nat)
    requires MainInv(c) && StepOk(c, a) && Orphan(c.s, i)
    ensures Trapped(MainStep(c, a).s, i)
      <==> NotReused(c.s.know.goals, MainStep(c, a).s.know.goals, c.s.know.agenda[i].goalId.value)
  {
    var t, g := MainStep(c, a).s, c.s.know.agenda[i].goalId.value;
    if NotReused(c.s.know.goals, t.know.goals, g) {
      InvariantIsBase(c);
      StepLeavesOrphan(c, a, i);
      StepEvolves(c, a);
      if g in OpenGoalIds(t.know.goals) {
        ClosedStays(c.s.know.goals, t.know.goals, g);
        assert false;
      }
    } else {
      StepAppends(c, a);
      ReuseFrees(c.s, t, i);
    }
  }

  lemma StepKeepsResolved(c: Config, a: Answer, i: nat)
    requires MainInv(c) && StepOk(c, a) && ResolvedByAnother(c.s, i)
    ensures ResolvedByAnother(MainStep(c, a).s, i)
  {
    StepEvolves(c, a);
    var k, n := c.s.know, MainStep(c, a).s.know;
    assert TaskEvolves(k.agenda[i], n.agenda[i]);
    assert forall r :: r in k.relations ==> r in n.relations;
    ResolvedPairPersists(k.relations, n.relations, ToSet(k.agenda[i].sources));
  }

  lemma StepKeepsTrap(c: Config, a: Answer, i: nat)
    requires MainInv(c) && StepOk(c, a) && Trapped(c.s, i) && c.s.know.agenda[i].goalId.Some?
    requires NotReused(c.s.know.goals, MainStep(c, a).s.know.goals, c.s.know.agenda[i].goalId.value)
    ensures Trapped(MainStep(c, a).s, i)
  {
    if Orphan(c.s, i) {
      StepTrapsIff(c, a, i);
    } else {
      StepKeepsResolved(c, a, i);
    }
  }

  /** A step leaves the numbers of earlier goals, and of tasks' goals, as they are. */
  lemma StepKeepsNumber(c: Config, a: Answer, rest: seq<Answer>, i: nat)
    requires MainInv(c) && StepOk(c, a) && RunOk(MainStep(c, a), rest)
    requires i < |c.s.know.agenda| && c.s.know.agenda[i].goalId.Some?
    ensures var d, e, g := MainStep(c, a).s, Run(MainStep(c, a), rest).s, c.s.know.agenda[i].goalId.value;
      && i < |d.know.agenda| && d.know.agenda[i].goalId == Some(g)
      && (NotReused(c.s.know.goals, e.know.goals, g)
          <==> NotReused(c.s.know.goals, d.know.goals, g) && NotReused(d.know.goals, e.know.goals, g))
  {
    var d := MainStep(c, a);
    StepEvolves(c, a);
    StepKeeps(c, a);
    RunEvolves(d, rest);
    assert TaskEvolves(c.s.know.agenda[i], d.s.know.agenda[i]);
    NotReusedSplits(c.s.know.goals, d.s.know.goals, Run(d, rest).s.know.goals, c.s.know.agenda[i].goalId.value);
  }

  /** Trapped at every configuration of a run. */
  ghost predicate TrappedThroughout(c: Config, answers: seq<Answer>, i: nat)
    requires RunOk(c, answers)
    decreases |answers|
  {
    Trapped(c.s, i) && (answers != [] ==> TrappedThroughout(MainStep(c, answers[0]), answers[1..], i))
  }

  lemma {:induction false} RunKeepsTrap(c: Config, answers: seq<Answer>, i: nat)
    requires MainInv(c) && RunOk(c, answers) && Trapped(c.s, i) && c.s.know.agenda[i].goalId.Some?
    requires NotReused(c.s.know.goals, Run(c, answers).s.know.goals, c.s.know.agenda[i].goalId.value)
    ensures TrappedThroughout(c, answers, i) && Trapped(Run(c, answers).s, i)
    decreases |answers|
  {
    if answers != [] {
      StepKeepsNumber(c, answers[0], answers[1..], i);
      StepKeepsTrap(c, answers[0], i);
      StepKeeps(c, answers[0]);
      RunKeepsTrap(MainStep(c, answers[0]), answers[1..], i);
    }
  }

  lemma {:induction false} ResolvedLasts(c: Config, answers: seq<Answer>, i: nat)
    requires MainInv(c) && RunOk(c, answers) && ResolvedByAnother(c.s, i)
    ensures ResolvedByAnother(Run(c, answers).s, i)
    decreases |answers|
  {
    if answers != [] {
      StepKeepsResolved(c, answers[0], i);
      StepKeeps(c, answers[0]);
      ResolvedLasts(MainStep(c, answers[0]), answers[1..], i);
    }
  }

  lemma {:induction false} TrapNeedsNumber(c: Config, answers: seq<Answer>, i: nat)
    requires MainInv(c) && RunOk(c, answers) && Orphan(c.s, i) && TrappedThroughout(c, answers, i)
    requires !ResolvedByAnother(Run(c, answers).s, i)
    ensures NotReused(c.s.know.goals, Run(c, answers).s.know.goals, c.s.know.agenda[i].goalId.value)
    decreases |answers|
  {
    if answers != [] {
      var d := MainStep(c, answers[0]);
      StepKeeps(c, answers[0]);
      StepTrapsIff(c, answers[0], i);
      if ResolvedByAnother(d.s, i) {
        ResolvedLasts(d, answers[1..], i);
        assert false;
      }
      StepKeepsNumber(c, answers[0], answers[1..], i);
      TrapNeedsNumber(d, answers[1..], i);
    }
  }

  /** A waiting task whose goal has closed waits for the rest of the run, unless another record resolves its
      contradiction, as long as no later goal takes the number of its goal; and while it waits the run can end
      neither satisfied, nor data limited, nor at the expansion limit. */
  lemma OrphanTrap(dataset: int, maxIterations: nat, xs: seq<Answer>, ys: seq<Answer>, c: Config, i: nat)
    requires Reaches(dataset, maxIterations, xs, c) && Orphan(c.s, i) && RunOk(c, ys)
    requires NotReused(c.s.know.goals, Run(c, ys).s.know.goals, c.s.know.agenda[i].goalId.value)
    ensures Orphan(Run(c, ys).s, i) || ResolvedByAnother(Run(c, ys).s, i)
    ensures Orphan(Run(c, ys).s, i) ==>
      Run(c, ys).s.terminal.stopCode !in {Some(GoalSatisfied), Some(DataLimitedStop), Some(ExpansionLimitReached)}
  {
    ReachesInvariant(dataset, maxIterations, xs, c);
    RunKeepsTrap(c, ys, i);
    RunKeeps(c, ys);
    if Orphan(Run(c, ys).s, i) {
      OrphanForbids(Run(c, ys), i);
    }
  }

  /** The same for every run that ends with all goal numbers different. */
  lemma OrphanTrapOfDistinctGoals(dataset: int, maxIterations: nat, xs: seq<Answer>, ys: seq<Answer>, c: Config, i: nat)
    requires Reaches(dataset, maxIterations, xs, c) && Orphan(c.s, i) && RunOk(c, ys)
    requires DistinctGoals(Run(c, ys).s.know.goals)
    ensures Orphan(Run(c, ys).s, i) || ResolvedByAnother(Run(c, ys).s, i)
    ensures Orphan(Run(c, ys).s, i) ==>
      Run(c, ys).s.terminal.stopCode !in {Some(GoalSatisfied), Some(DataLimitedStop), Some(ExpansionLimitReached)}
  {
    ReachesInvariant(dataset, maxIterations, xs, c);
    InvariantIsBase(c);
    RunEvolves(c, ys);
    var t := c.s.know.agenda[i];
    assert t in c.s.know.agenda && TaskRefs(t, EvidenceIds(c.s.know.evidence), GoalIds(c.s.know.goals));
    DistinctIsNotReused(c.s.know.goals, Run(c, ys).s.know.goals, t.goalId.value);
    OrphanTrap(dataset, maxIterations, xs, ys, c, i);
  }

  /** The condition is exact for every run at whose end no other record has resolved the task: the task is
      trapped all the way exactly when no goal appended on the way carries the number of its goal. */
  lemma TrappedIffNotReused(dataset: int, maxIterations: nat, xs: seq<Answer>, ys: seq<Answer>, c: Config, i: nat)
    requires Reaches(dataset, maxIterations, xs, c) && Orphan(c.s, i) && RunOk(c, ys)
    requires !ResolvedByAnother(Run(c, ys).s, i)
    ensures TrappedThroughout(c, ys, i)
      <==> NotReused(c.s.know.goals, Run(c, ys).s.know.goals, c.s.know.agenda[i].goalId.value)
  {
    ReachesInvariant(dataset, maxIterations, xs, c);
    if TrappedThroughout(c, ys, i) {
      TrapNeedsNumber(c, ys, i);
    } else if NotReused(c.s.know.goals, Run(c, ys).s.know.goals, c.s.know.agenda[i].goalId.value) {
      RunKeepsTrap(c, ys, i);
      assert false;
    }
  }

  lemma OrphanForbids(c: Config, i: nat)
    requires MainInv(c) && Orphan(c.s, i)
    ensures c.s.terminal.stopCode !in {Some(GoalSatisfied), Some(DataLimitedStop), Some(ExpansionLimitReached)}
  {
    assert c.s.know.agenda[i] in c.s.know.agenda && c.s.know.agenda[i].Live();
  }

  // ---------------------------------------------------------------- how orphans arise

  /** The guard of the branch that abandons a goal: the verdict gives it up, does not also call it converged,
      and it was attempted. Live tasks are not asked about. */
  predicate Abandons(s: State, v: GoalVerdict, g: GoalId) {
    g in v.abandoned && g !in v.converged && (HasCurrentEvidence(s, g) || WasRejected(s, g))
  }

  /** While a task of an open goal is live, a verdict closes that goal exactly by abandoning it. */
  lemma VerdictClosesIff(s: State, v: GoalVerdict, g: GoalId)
    requires g in OpenGoalIds(s.know.goals) && HasLiveTaskFor(s.know.agenda, g)
    ensures g !in OpenGoalIds(ApplyVerdict(s, v)) <==> Abandons(s, v, g)
  {
    var b := ApplyVerdict(s, v);
    if Abandons(s, v, g) {
      forall h | h in b && h.goalId == g ensures !h.IsOpen() {
        var j :| 0 <= j < |b| && b[j] == h;
        assert h == JudgeGoal(s, v, s.know.goals[j]);
      }
    } else {
      var goal :| goal in s.know.goals && goal.IsOpen() && goal.goalId == g;
      var j :| 0 <= j < |s.know.goals| && s.know.goals[j] == goal;
      assert b[j] == JudgeGoal(s, v, goal);
      assert b[j] in b && b[j].IsOpen() && b[j].goalId == g;
    }
  }

  /** An accepted intent never works on a task whose goal the same answer closes. */
  lemma ClosedIsUnselected(s: State, intent: Intent, v: GoalVerdict, i: nat)
    requires s.profile.Some? && DistinctIds(s.know.agenda)
    requires RejectedIntent(s, s.profile.value, intent, ApplyVerdict(s, v), VerdictNoted(s.know.goals, v)).None?
    requires i < |s.know.agenda| && s.know.agenda[i].goalId.Some?
    requires s.know.agenda[i].goalId.value !in OpenGoalIds(ApplyVerdict(s, v))
    ensures !Selected(s.know.agenda[i], intent)
  {
    AcceptedReferences(s, intent, v);
    if Selected(s.know.agenda[i], intent) {
      SelectedIsLive(s.know.agenda, intent, i);
      assert false;
    }
  }

  /** What a planning round does to one task that waits. */
  lemma PlanTask(s: State, a: PlannerAnswer, i: nat)
    requires DistinctIds(s.know.agenda) && PlanIntent(s, a).Next?
    requires i < |s.know.agenda| && s.know.agenda[i].status == Pending && s.know.agenda[i].goalId.Some?
    ensures var k, t := PlanIntent(s, a).state.know, s.know.agenda[i];
      && i < |k.agenda| && k.agenda[i].goalId == t.goalId
      && (t.goalId.value !in OpenGoalIds(k.goals) && a.Proposal? ==> k.agenda[i] == t)
  {
    if a.Proposal? && a.intent.Some? {
      var v, intent := a.verdict, a.intent.value;
      var accepted := RejectedIntent(s, s.profile.value, intent, ApplyVerdict(s, v),
        VerdictNoted(s.know.goals, v)).None?;
      if accepted && s.know.agenda[i].goalId.value !in OpenGoalIds(ApplyVerdict(s, v)) {
        ClosedIsUnselected(s, intent, v, i);
      }
    }
  }

  lemma PlanGoalsAre(s: State, a: PlannerAnswer)
    requires PlanIntent(s, a).Next?
    ensures PlanIntent(s, a).state.know.goals == if a.Proposal? then ApplyVerdict(s, a.verdict) else s.know.goals
  {
  }

  /** How a planning round orphans a waiting task of an open goal: exactly when its verdict abandons the goal
      after an attempt, with or without an intent beside it. Convergence never does, because it is refused
      while the task waits. */
  lemma OrphansIffAbandons(s: State, a: PlannerAnswer, i: nat)
    requires DistinctIds(s.know.agenda) && PlanIntent(s, a).Next?
    requires i < |s.know.agenda| && s.know.agenda[i].status == Pending && s.know.agenda[i].goalId.Some?
    requires s.know.agenda[i].goalId.value in OpenGoalIds(s.know.goals)
    ensures Orphan(PlanIntent(s, a).state, i) <==> a.Proposal? && Abandons(s, a.verdict, s.know.agenda[i].goalId.value)
  {
    var g := s.know.agenda[i].goalId.value;
    PlanGoalsAre(s, a);
    PlanTask(s, a, i);
    if a.Proposal? {
      assert s.know.agenda[i] in s.know.agenda && HasLiveTaskFor(s.know.agenda, g);
      VerdictClosesIff(s, a.verdict, g);
    }
  }
}
