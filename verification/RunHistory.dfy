/** What a run accumulates: nothing recorded is ever lost, and every iteration is accounted for. */
module RunHistory {
  import opened Contracts
  import opened RunState
  import opened IntentPolicy
  import opened ReviewEvidence
  import opened KnowledgeInvariant
  import opened Planning
  import opened Progress
  import opened Execution
  import opened ExecutionProofs
  import opened AgendaSteps
  import opened MainGraph
  import opened MainInvariant

  // ---------------------------------------------------------------- how state evolves

  /** A goal keeps its number and question; once closed its verdict is final. */
  predicate GoalEvolves(g: SubGoal, h: SubGoal) {
    h.goalId == g.goalId && h.question == g.question && (!g.IsOpen() ==> h.status == g.status)
  }

  ghost predicate GoalsEvolve(a: seq<SubGoal>, b: seq<SubGoal>) {
    |a| <= |b| && forall i :: 0 <= i < |a| ==> GoalEvolves(a[i], b[i])
  }

  ghost predicate Recorded(k: Knowledge, n: Knowledge) {
    && k.evidence <= n.evidence && k.relations <= n.relations && k.rejected <= n.rejected && k.issues <= n.issues
    && k.coverage.testedKeys <= n.coverage.testedKeys
  }

  ghost predicate KnowledgeEvolves(k: Knowledge, n: Knowledge) {
    Recorded(k, n) && AgendaEvolves(k.agenda, n.agenda) && GoalsEvolve(k.goals, n.goals)
  }

  /** Append-only lists grow at the end, tasks and goals only evolve, counters never go back. */
  ghost predicate Evolves(s: State, t: State) {
    && KnowledgeEvolves(s.know, t.know)
    && s.inspections <= t.inspections && s.lookups <= t.lookups
    && s.iteration <= t.iteration && s.goalExpansions <= t.goalExpansions
    && t.maxIterations == s.maxIterations && t.dataset == s.dataset
    && (s.profile.Some? ==> t.profile == s.profile)
  }

  lemma GoalsEvolveTransitive(a: seq<SubGoal>, b: seq<SubGoal>, c: seq<SubGoal>)
    requires GoalsEvolve(a, b) && GoalsEvolve(b, c)
    ensures GoalsEvolve(a, c)
  {
    forall i | 0 <= i < |a| ensures GoalEvolves(a[i], c[i]) {
      assert GoalEvolves(a[i], b[i]) && GoalEvolves(b[i], c[i]);
    }
  }

  lemma EvolvesTransitive(s: State, t: State, u: State)
    requires Evolves(s, t) && Evolves(t, u)
    ensures Evolves(s, u)
  {
    AgendaEvolvesTransitive(s.know.agenda, t.know.agenda, u.know.agenda);
    GoalsEvolveTransitive(s.know.goals, t.know.goals, u.know.goals);
  }

  lemma SameAgenda(a: seq<AgendaTask>)
    ensures AgendaEvolves(a, a)
  {
  }

  // ---------------------------------------------------------------- accounting

  /** Iterations spent on recorded outcomes, plus the one whose intent is still stored. */
  function Accounted(c: Config): nat {
    |c.s.know.evidence| + |c.s.know.rejected| + |c.s.inspections| + |c.s.lookups| + c.reused + c.limited
    + (if c.s.intent.Some? then 1 else 0)
  }

  // ---------------------------------------------------------------- one step, apart from applying a delta

  lemma VerdictEvolves(s: State, v: GoalVerdict)
    ensures GoalsEvolve(s.know.goals, ApplyVerdict(s, v)) && GoalsEvolve(s.know.goals, s.know.goals)
  {
  }

  lemma StepGoals(c: Config, a: Answer)
    requires StepOk(c, a) && c.node != ApplyNode
    ensures GoalsEvolve(c.s.know.goals, MainStep(c, a).s.know.goals)
  {
    var goals := c.s.know.goals;
    if c.node == Plan && a.planner.Proposal? {
      VerdictEvolves(c.s, a.planner.verdict);
    }
  }

  /** The lists that only grow, and the counters. */
  ghost predicate LogsGrow(s: State, t: State) {
    && Recorded(s.know, t.know)
    && s.inspections <= t.inspections && s.lookups <= t.lookups
    && s.iteration <= t.iteration && s.goalExpansions <= t.goalExpansions
    && t.maxIterations == s.maxIterations && t.dataset == s.dataset
  }

  lemma PlanLogs(s: State, a: PlannerAnswer)
    requires PlanIntent(s, a).Next?
    ensures LogsGrow(s, PlanIntent(s, a).state) && PlanIntent(s, a).state.profile == s.profile
  {
    if a.Proposal? {
      var goals := ApplyVerdict(s, a.verdict);
      if a.intent.None? {
        NoIntentLogs(s, goals, a);
      } else {
        StalledLogs(s, goals, true);
        AcceptedLogs(s, goals, a.intent.value);
      }
    }
  }

  lemma StalledLogs(s: State, goals: seq<SubGoal>, planned: bool)
    ensures LogsGrow(s, Stalled(s, goals, planned)) && Stalled(s, goals, planned).profile == s.profile
  {
  }

  lemma AcceptedLogs(s: State, goals: seq<SubGoal>, intent: Intent)
    ensures LogsGrow(s, Accepted(s, goals, intent)) && Accepted(s, goals, intent).profile == s.profile
  {
  }

  lemma NoIntentLogs(s: State, goals: seq<SubGoal>, a: PlannerAnswer)
    requires a.Proposal?
    ensures LogsGrow(s, NoIntent(s, goals, a)) && NoIntent(s, goals, a).profile == s.profile
  {
    StalledLogs(s, goals, true);
    StalledLogs(s, goals, false);
  }

  lemma AssessLogs(s: State, clock: Clock, ids: seq<TaskId>)
    requires |ids| == |MissingPairs(s.know)| && AssessProgress(s, clock, ids).Next?
    ensures LogsGrow(s, AssessProgress(s, clock, ids).state) && AssessProgress(s, clock, ids).state.profile == s.profile
  {
  }

  lemma StepLogs(c: Config, a: Answer)
    requires StepOk(c, a) && c.node != ApplyNode
    ensures LogsGrow(c.s, MainStep(c, a).s)
    ensures c.node != ProfileData ==> MainStep(c, a).s.profile == c.s.profile
  {
    if c.node == Plan {
      if PlanIntent(c.s, a.planner).Next? {
        PlanLogs(c.s, a.planner);
      }
    } else if c.node == Assess {
      if AssessProgress(c.s, a.clock, a.repairIds).Next? {
        AssessLogs(c.s, a.clock, a.repairIds);
      }
    } else if c.node == Expand {
      if ExpandGoals(c.s, a.expand).Next? {
        ExpandLogs(c.s, a.expand);
      }
    } else if c.node == InspectNode || c.node == RecallNode || c.node == ReuseNode || c.node == LimitNode {
      ActionLogs(c, a);
    } else {
      OtherLogs(c, a);
    }
  }

  lemma ExpandLogs(s: State, a: ExpandAnswer)
    requires ExpandGoals(s, a).Next?
    ensures LogsGrow(s, ExpandGoals(s, a).state) && ExpandGoals(s, a).state.profile == s.profile
  {
  }

  lemma ActionLogs(c: Config, a: Answer)
    requires StepOk(c, a)
    requires c.node == InspectNode || c.node == RecallNode || c.node == ReuseNode || c.node == LimitNode
    ensures LogsGrow(c.s, MainStep(c, a).s) && MainStep(c, a).s.profile == c.s.profile
  {
  }

  lemma OtherLogs(c: Config, a: Answer)
    requires StepOk(c, a) && c.node != ApplyNode && c.node != Plan && c.node != Assess && c.node != Expand
    requires c.node != InspectNode && c.node != RecallNode && c.node != ReuseNode && c.node != LimitNode
    ensures LogsGrow(c.s, MainStep(c, a).s)
    ensures c.node != ProfileData ==> MainStep(c, a).s.profile == c.s.profile
  {
  }

  lemma PlanAgenda(c: Config, a: Answer)
    requires MainInv(c) && c.node == Plan && StepOk(c, a)
    ensures AgendaEvolves(c.s.know.agenda, MainStep(c, a).s.know.agenda)
  {
    var s := c.s;
    SameAgenda(s.know.agenda);
    if a.planner.Proposal? && a.planner.intent.Some? {
      var v, intent := a.planner.verdict, a.planner.intent.value;
      if RejectedIntent(s, s.profile.value, intent, ApplyVerdict(s, v), VerdictNoted(s.know.goals, v)).None? {
        AcceptedKeepsKnowledge(s, intent, v);
      }
    }
  }

  lemma StepAgenda(c: Config, a: Answer)
    requires MainInv(c) && StepOk(c, a) && c.node != ApplyNode
    ensures AgendaEvolves(c.s.know.agenda, MainStep(c, a).s.know.agenda)
  {
    SameAgenda(c.s.know.agenda);
    match c.node
    case Plan => PlanAgenda(c, a);
    case LimitNode => LimitKeepsKnowledge(c.s.know, c.s.intent.value);
    case _ =>
  }

  // ---------------------------------------------------------------- applying a delta

  lemma CommitEvolves(p: State, t: State, review: CriticReview, record: EvidenceRecord, ids: seq<TaskId>)
    requires KnowledgeOk(p.know) && CommittedWith(p, t, review, record, ids)
    ensures KnowledgeEvolves(p.know, t.know)
  {
    CommitKeepsKnowledge(p.know, p.intent.value, review, record, ids);
    RelationsAfterCommitContents(p.know, p.intent.value, review, record);
    assert GoalsEvolve(p.know.goals, t.know.goals);
  }

  lemma RejectEvolves(p: State, t: State, stage: Stage, issues: seq<LoopIssue>)
    requires ExecReady(p) && RejectedWith(p, t, stage, issues)
    ensures KnowledgeEvolves(p.know, t.know)
  {
    RejectKeepsKnowledge(p.know, p.intent.value, stage, issues);
    assert GoalsEvolve(p.know.goals, t.know.goals);
  }

  lemma AttemptEvolves(p: State, t: State)
    requires ExecReady(p) && AttemptEnded(p, t)
    ensures KnowledgeEvolves(p.know, t.know)
  {
    if review, record, ids :| CommittedWith(p, t, review, record, ids) {
      CommitEvolves(p, t, review, record, ids);
    } else if stage, issues :| RejectedWith(p, t, stage, issues) {
      RejectEvolves(p, t, stage, issues);
    } else {
      assert StoppedFrom(p, t);
      SameAgenda(p.know.agenda);
      assert GoalsEvolve(p.know.goals, t.know.goals);
    }
  }

  /** What applying a delta leaves alone. */
  lemma ApplyLeaves(s: State)
    ensures var t := ApplyDelta(s);
      && t.inspections == s.inspections && t.lookups == s.lookups
      && t.iteration == s.iteration && t.goalExpansions == s.goalExpansions
      && t.maxIterations == s.maxIterations && t.dataset == s.dataset && t.profile == s.profile
  {
  }

  lemma ApplyEvolves(s: State)
    requires Delivered(s)
    ensures Evolves(s, ApplyDelta(s))
  {
    var t := ApplyYields(s);
    AttemptEvolves(s.(delta := None), t);
    ApplyLeaves(s);
  }

  /** No step loses or rewrites anything recorded. */
  lemma StepEvolves(c: Config, a: Answer)
    requires MainInv(c) && StepOk(c, a)
    ensures Evolves(c.s, MainStep(c, a).s)
  {
    if c.node == ApplyNode {
      ApplyEvolves(c.s);
    } else {
      StepGoals(c, a);
      StepLogs(c, a);
      StepAgenda(c, a);
    }
  }

  // ---------------------------------------------------------------- accounting for one step

  lemma ApplyAccounts(s: State)
    requires Delivered(s)
    ensures var t := ApplyDelta(s);
      |t.know.evidence| + |t.know.rejected| + (if t.intent.Some? then 1 else 0)
      == |s.know.evidence| + |s.know.rejected| + 1
  {
    var t := ApplyYields(s);
    var p := s.(delta := None);
    if review, record, ids :| CommittedWith(p, t, review, record, ids) {
      assert |t.know.evidence| == |p.know.evidence| + 1;
    } else if stage, issues :| RejectedWith(p, t, stage, issues) {
      assert |t.know.rejected| == |p.know.rejected| + 1;
    } else {
      assert StoppedFrom(p, t);
    }
  }

  /** Nothing is recorded, and an iteration starts exactly when an intent is left. */
  ghost predicate Starts(s: State, t: State) {
    && t.know.evidence == s.know.evidence && t.know.rejected == s.know.rejected
    && t.inspections == s.inspections && t.lookups == s.lookups
    && t.iteration == s.iteration + (if t.intent.Some? then 1 else 0)
  }

  lemma StalledStarts(s: State, goals: seq<SubGoal>, planned: bool)
    ensures Starts(s, Stalled(s, goals, planned))
  {
  }

  lemma NoIntentStarts(s: State, goals: seq<SubGoal>, a: PlannerAnswer)
    requires a.Proposal?
    ensures Starts(s, NoIntent(s, goals, a))
  {
    StalledStarts(s, goals, true);
    StalledStarts(s, goals, false);
  }

  lemma AcceptedStarts(s: State, goals: seq<SubGoal>, intent: Intent)
    ensures Starts(s, Accepted(s, goals, intent))
  {
  }

  lemma PlanStarts(s: State, a: PlannerAnswer)
    requires PlanIntent(s, a).Next? && s.intent.None?
    ensures Starts(s, PlanIntent(s, a).state)
  {
    if a.Proposal? {
      var goals := ApplyVerdict(s, a.verdict);
      if a.intent.None? {
        NoIntentStarts(s, goals, a);
      } else {
        StalledStarts(s, goals, true);
        AcceptedStarts(s, goals, a.intent.value);
      }
    }
  }

  lemma PlanAccounts(c: Config, a: Answer)
    requires c.node == Plan && StepOk(c, a) && c.s.intent.None?
    ensures Accounted(MainStep(c, a)) - Accounted(c) == MainStep(c, a).s.iteration - c.s.iteration
  {
    if PlanIntent(c.s, a.planner).Next? {
      PlanStarts(c.s, a.planner);
    }
  }

  lemma OtherAccounts(c: Config, a: Answer)
    requires c.node != Plan && c.node != ApplyNode && StepOk(c, a)
    ensures Accounted(MainStep(c, a)) == Accounted(c) && MainStep(c, a).s.iteration == c.s.iteration
  {
  }

  /** Every step spends exactly as many iterations as it accounts for. */
  lemma StepAccounts(c: Config, a: Answer)
    requires MainInv(c) && StepOk(c, a)
    ensures Accounted(MainStep(c, a)) - Accounted(c) == MainStep(c, a).s.iteration - c.s.iteration
  {
    if c.node == Plan {
      PlanAccounts(c, a);
    } else if c.node == ApplyNode {
      ApplyAccounts(c.s);
      ApplyLeaves(c.s);
    } else {
      OtherAccounts(c, a);
    }
  }
}
