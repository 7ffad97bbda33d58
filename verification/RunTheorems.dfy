/** What holds of every reachable configuration and of whole runs of the main graph. */
module RunTheorems {
  import opened Contracts
  import opened RunState
  import opened GoalNumbering
  import opened ReviewEvidence
  import opened ReviewAgenda
  import opened KnowledgeInvariant
  import opened Planning
  import opened Progress
  import opened ExecutionProofs
  import opened AgendaSteps
  import opened MainGraph
  import opened MainInvariant
  import opened RunHistory
  import opened RunTermination

  lemma ReachesInvariant(dataset: int, maxIterations: nat, answers: seq<Answer>, c: Config)
    requires Reaches(dataset, maxIterations, answers, c)
    ensures MainInv(c)
  {
    StartIsGood(dataset, maxIterations);
    RunKeeps(Start(dataset, maxIterations), answers);
  }

  lemma InvariantIsBase(c: Config)
    requires MainInv(c)
    ensures KnowledgeOk(c.s.know)
    ensures c.node != ProfileData ==> Base(c.s)
  {
    EmptyKnowledgeOk([]);
  }

  lemma ReachesKnowledge(dataset: int, maxIterations: nat, answers: seq<Answer>, c: Config)
    requires Reaches(dataset, maxIterations, answers, c)
    ensures KnowledgeOk(c.s.know)
  {
    ReachesInvariant(dataset, maxIterations, answers, c);
    InvariantIsBase(c);
  }

  // ---------------------------------------------------------------- agenda and relation graph

  /** A task that still stands for a contradiction: not completed, over exactly the two records. */
  predicate StandsFor(t: AgendaTask, pair: set<EvidenceId>) {
    t.kind == ResolveContradiction && t.status != Completed && ToSet(t.sources) == pair
  }

  lemma UnresolvedHasTask(k: Knowledge, pair: set<EvidenceId>)
    requires KnowledgeOk(k) && UnresolvedPair(k.relations, pair)
    ensures exists t :: t in k.agenda && StandsFor(t, pair)
  {
    var r :| r in k.relations && r.kind == Contradicts && {r.source, r.target} == pair;
    assert HasConflictTask(k.agenda, {r.source, r.target});
    var t :| t in k.agenda && t.kind == ResolveContradiction && ToSet(t.sources) == pair;
    assert StandsFor(t, pair);
  }

  /** In every reachable state each unresolved contradiction has a task that is not completed, over exactly
      its two records; and a completed contradiction task means its pair is resolved. */
  lemma AgendaCoversContradictions(dataset: int, maxIterations: nat, answers: seq<Answer>, c: Config)
    requires Reaches(dataset, maxIterations, answers, c)
    ensures forall a, b :: UnresolvedPair(c.s.know.relations, {a, b}) ==>
      exists t :: t in c.s.know.agenda && StandsFor(t, {a, b})
    ensures forall t :: t in c.s.know.agenda && t.kind == ResolveContradiction && t.status == Completed
              ==> ResolvedPair(c.s.know.relations, ToSet(t.sources))
  {
    ReachesKnowledge(dataset, maxIterations, answers, c);
    forall a, b | UnresolvedPair(c.s.know.relations, {a, b})
      ensures exists t :: t in c.s.know.agenda && StandsFor(t, {a, b})
    {
      UnresolvedHasTask(c.s.know, {a, b});
    }
  }

  /** A contradiction task was given up although its pair is still unresolved. */
  ghost predicate GivenUp(k: Knowledge, t: AgendaTask) {
    t in k.agenda && t.kind == ResolveContradiction && t.status == DataLimited
      && UnresolvedPair(k.relations, ToSet(t.sources))
  }

  lemma MissingWasGivenUp(k: Knowledge)
    requires KnowledgeOk(k) && !HasLiveTask(k.agenda) && MissingPairs(k) != []
    ensures exists t :: GivenUp(k, t)
  {
    MissingPairsMeaning(k);
    var p := MissingPairs(k)[0];
    assert p in MissingPairs(k);
    UnresolvedHasTask(k, PairSet(p));
    var t :| t in k.agenda && StandsFor(t, PairSet(p));
    assert !t.Live();
    assert GivenUp(k, t);
  }

  lemma GivenUpIsMissing(k: Knowledge, t: AgendaTask)
    requires GivenUp(k, t) && !HasLiveTask(k.agenda)
    ensures MissingPairs(k) != []
  {
    var r :| r in k.relations && r.kind == Contradicts && {r.source, r.target} == ToSet(t.sources);
    assert !CoveredLive(k.agenda, {r.source, r.target});
    MissingPairIsListed(k, r.source, r.target);
  }

  /** The repair step fires exactly when some contradiction task was closed as data limited while its pair
      is still unresolved: otherwise the commits have kept agenda and graph together. */
  lemma RepairFiresIff(dataset: int, maxIterations: nat, answers: seq<Answer>, c: Config)
    requires Reaches(dataset, maxIterations, answers, c) && !HasLiveTask(c.s.know.agenda)
    ensures MissingPairs(c.s.know) != [] <==> exists t :: GivenUp(c.s.know, t)
  {
    ReachesKnowledge(dataset, maxIterations, answers, c);
    if MissingPairs(c.s.know) != [] {
      MissingWasGivenUp(c.s.know);
    }
    if t :| GivenUp(c.s.know, t) {
      GivenUpIsMissing(c.s.know, t);
    }
  }

  // ---------------------------------------------------------------- audit, provenance, accounting

  /** Every reachable state passes every reference check of the auditor. */
  lemma ReachableAuditsClean(dataset: int, maxIterations: nat, answers: seq<Answer>, c: Config)
    requires Reaches(dataset, maxIterations, answers, c)
    ensures AuditClean(c.s.know)
  {
    ReachesKnowledge(dataset, maxIterations, answers, c);
  }

  /** Every number in every stored summary is a number of the record's own result. */
  lemma EvidenceIsStatedByItsResult(dataset: int, maxIterations: nat, answers: seq<Answer>, c: Config,
                                    e: EvidenceRecord)
    requires Reaches(dataset, maxIterations, answers, c) && e in c.s.know.evidence
    ensures FromResult(e)
  {
    ReachesKnowledge(dataset, maxIterations, answers, c);
  }

  /** Iterations are conserved: at every node they equal the recorded outcomes plus the pending intent; each
      record has its own analysis signature, and column usage counts exactly the columns of the evidence. */
  lemma IterationsAreAccountedFor(dataset: int, maxIterations: nat, answers: seq<Answer>, c: Config)
    requires Reaches(dataset, maxIterations, answers, c)
    ensures c.s.iteration == Accounted(c)
    ensures c.node == Assess && c.s.intent.Some? ==> c.s.terminal.stopCode == Some(ServiceUnavailable)
    ensures CoverageOk(c.s.know.coverage, c.s.know.evidence)
  {
    StartIsGood(dataset, maxIterations);
    RunAccounts(Start(dataset, maxIterations), answers);
    ReachesInvariant(dataset, maxIterations, answers, c);
    InvariantIsBase(c);
  }

  // ---------------------------------------------------------------- agenda lifecycle

  lemma {:induction false} RunSplits(c: Config, xs: seq<Answer>, ys: seq<Answer>)
    requires RunOk(c, xs + ys)
    ensures RunOk(c, xs) && RunOk(Run(c, xs), ys) && Run(c, xs + ys) == Run(Run(c, xs), ys)
    decreases |xs|
  {
    if xs == [] {
      assert xs + ys == ys;
    } else {
      assert (xs + ys)[0] == xs[0] && (xs + ys)[1..] == xs[1..] + ys;
      RunSplits(MainStep(c, xs[0]), xs[1..], ys);
    }
  }

  lemma InvariantOwns(c: Config)
    requires MainInv(c)
    ensures Owned(c.s)
  {
    if c.node == ApplyNode {
      assert ActiveTask(c.s.know.agenda, c.s.intent.value);
    }
  }

  ghost predicate AtMostOneInProgress(agenda: seq<AgendaTask>) {
    forall i, j :: 0 <= i < j < |agenda| ==> agenda[i].status != InProgress || agenda[j].status != InProgress
  }

  lemma OwnedIsSingle(s: State)
    requires Owned(s) && DistinctIds(s.know.agenda)
    ensures AtMostOneInProgress(s.know.agenda)
  {
    var agenda := s.know.agenda;
    forall i, j | 0 <= i < j < |agenda| ensures agenda[i].status != InProgress || agenda[j].status != InProgress {
      assert agenda[i] in agenda && agenda[j] in agenda;
    }
  }

  /** What the validators make of a task: a question, a priority, sources for its kind, and what its status calls
      for. */
  ghost predicate WellKept(t: AgendaTask, evidence: seq<EvidenceRecord>) {
    && t.question != "" && 0 <= t.priority <= 100 && t.sources != []
    && (forall x :: x in t.sources ==> exists e :: e in evidence && e.evidenceId == x)
    && (t.kind == ResolveContradiction ==> exists x, y :: x in t.sources && y in t.sources && x != y)
    && (t.status == InProgress ==> t.selected.Some?)
    && (t.status == Completed ==> exists e :: e in evidence && t.completion == Some(e.evidenceId))
    && (t.status == DataLimited ==> t.attempts >= 1 && !AllSpace(t.reason))
  }

  lemma KnownTaskIsWellKept(k: Knowledge, t: AgendaTask)
    requires KnowledgeOk(k) && t in k.agenda
    ensures WellKept(t, k.evidence)
  {
    assert ValidTask(t) && TaskRefs(t, EvidenceIds(k.evidence), GoalIds(k.goals));
    BlankIff(t.reason);
    forall x | x in t.sources ensures exists e :: e in k.evidence && e.evidenceId == x {
      assert x in EvidenceIds(k.evidence);
    }
  }

  /** Tasks in every reachable state: each satisfies its validators, no two waiting tasks clash, and at most
      one is in progress, and that one for the stored intent. */
  lemma AgendaIsWellKept(dataset: int, maxIterations: nat, answers: seq<Answer>, c: Config)
    requires Reaches(dataset, maxIterations, answers, c)
    ensures AgendaOk(c.s.know.agenda) && Owned(c.s) && AtMostOneInProgress(c.s.know.agenda)
    ensures forall t :: t in c.s.know.agenda ==> WellKept(t, c.s.know.evidence)
  {
    ReachesInvariant(dataset, maxIterations, answers, c);
    InvariantIsBase(c);
    InvariantOwns(c);
    OwnedIsSingle(c.s);
    forall t | t in c.s.know.agenda ensures WellKept(t, c.s.know.evidence) {
      KnownTaskIsWellKept(c.s.know, t);
    }
  }

  /** Across any stretch of a run nothing recorded is lost: logs only grow, no task is lost or reordered,
      attempts never drop, completed is final, and data limited can only become completed. */
  lemma NothingIsLost(dataset: int, maxIterations: nat, xs: seq<Answer>, ys: seq<Answer>)
    requires maxIterations > 0 && RunOk(Start(dataset, maxIterations), xs + ys)
    ensures RunOk(Start(dataset, maxIterations), xs)
    ensures Evolves(Run(Start(dataset, maxIterations), xs).s, Run(Start(dataset, maxIterations), xs + ys).s)
  {
    var c := Start(dataset, maxIterations);
    StartIsGood(dataset, maxIterations);
    RunSplits(c, xs, ys);
    RunKeeps(c, xs);
    RunEvolves(Run(c, xs), ys);
  }

  // ---------------------------------------------------------------- stop codes

  /** A stopped run means what its code says, and a run that is not stopped has no code. */
  lemma StopCodesAreSound(dataset: int, maxIterations: nat, answers: seq<Answer>, c: Config)
    requires Reaches(dataset, maxIterations, answers, c)
    ensures c.s.terminal.Stopped() ==> StopSound(c.s)
    ensures !c.s.terminal.Stopped() ==> c.s.terminal.stopCode.None?
    ensures c.node == Finalize || c.node == End ==> c.s.terminal.Stopped()
  {
    ReachesInvariant(dataset, maxIterations, answers, c);
  }

  /** A step that closes the goal at `i` as converged: the planner named it, current evidence answers it, and
      no task of the goal is live. */
  ghost predicate Converges(c: Config, a: Answer, i: nat) {
    && c.node == Plan && i < |c.s.know.goals| && c.s.know.goals[i].IsOpen()
    && a.planner.Proposal? && c.s.know.goals[i].goalId in a.planner.verdict.converged
    && HasCurrentEvidence(c.s, c.s.know.goals[i].goalId)
    && !HasLiveTaskFor(c.s.know.agenda, c.s.know.goals[i].goalId)
  }

  ghost predicate ConvergedDuring(c: Config, answers: seq<Answer>, i: nat)
    requires RunOk(c, answers)
    decreases |answers|
  {
    answers != [] && (Converges(c, answers[0], i) || ConvergedDuring(MainStep(c, answers[0]), answers[1..], i))
  }

  predicate IsConverged(goals: seq<SubGoal>, i: nat) {
    i < |goals| && goals[i].status == Converged
  }

  lemma LinkKeepsStatuses(goals: seq<SubGoal>, goalId: Option<GoalId>, id: EvidenceId, i: nat)
    ensures IsConverged(LinkEvidence(goals, goalId, id), i) <==> IsConverged(goals, i)
  {
  }

  lemma AttemptKeepsStatuses(p: State, t: State, i: nat)
    requires AttemptEnded(p, t)
    ensures IsConverged(t.know.goals, i) <==> IsConverged(p.know.goals, i)
  {
    if review, record, ids :| CommittedWith(p, t, review, record, ids) {
      LinkKeepsStatuses(p.know.goals, p.intent.value.goalId, record.evidenceId, i);
      assert t.know.goals == LinkEvidence(p.know.goals, p.intent.value.goalId, record.evidenceId);
    } else if stage, issues :| RejectedWith(p, t, stage, issues) {
    } else {
      assert StoppedFrom(p, t);
    }
  }

  lemma NewGoalsAreOpen(raw: seq<RawGoal>, start: nat)
    ensures forall i :: 0 <= i < |ParseGoals(raw, start)| ==> ParseGoals(raw, start)[i].status == Open
  {
    NumberedShape(raw, start, |raw|);
  }

  lemma PlanGoals(s: State, a: PlannerAnswer)
    requires PlanIntent(s, a).Next?
    ensures var goals := PlanIntent(s, a).state.know.goals;
      goals == s.know.goals || (a.Proposal? && goals == ApplyVerdict(s, a.verdict))
  {
  }

  lemma PlanConverges(c: Config, a: Answer, i: nat)
    requires c.node == Plan && StepOk(c, a)
    requires IsConverged(MainStep(c, a).s.know.goals, i) && !IsConverged(c.s.know.goals, i)
    ensures Converges(c, a, i)
  {
    if PlanIntent(c.s, a.planner).Next? {
      PlanGoals(c.s, a.planner);
    }
  }

  lemma ExpandKeepsStatuses(s: State, a: ExpandAnswer, i: nat)
    requires ExpandGoals(s, a).Next?
    ensures IsConverged(ExpandGoals(s, a).state.know.goals, i) ==> IsConverged(s.know.goals, i)
  {
    if a.Expansion? {
      NewGoalsAreOpen(a.raw, |s.know.goals|);
    }
  }

  lemma DecomposeKeepsStatuses(s: State, raw: seq<RawGoal>, i: nat)
    requires DecomposeNode(s, raw).Next?
    ensures IsConverged(DecomposeNode(s, raw).state.know.goals, i) ==> IsConverged(s.know.goals, i)
  {
    NewGoalsAreOpen(raw, 0);
  }

  lemma OtherKeepsStatuses(c: Config, a: Answer, i: nat)
    requires c.node != Plan && c.node != ApplyNode && StepOk(c, a)
    ensures IsConverged(MainStep(c, a).s.know.goals, i) ==> IsConverged(c.s.know.goals, i)
  {
    if c.node == DecomposeObjective {
      if DecomposeNode(c.s, a.decomposed).Next? {
        DecomposeKeepsStatuses(c.s, a.decomposed, i);
      }
    } else if c.node == Expand {
      if ExpandGoals(c.s, a.expand).Next? {
        ExpandKeepsStatuses(c.s, a.expand, i);
      }
    }
  }

  lemma StepConverges(c: Config, a: Answer, i: nat)
    requires MainInv(c) && StepOk(c, a)
    requires IsConverged(MainStep(c, a).s.know.goals, i) && !IsConverged(c.s.know.goals, i)
    ensures Converges(c, a, i)
  {
    if c.node == Plan {
      PlanConverges(c, a, i);
    } else if c.node == ApplyNode {
      var t := ApplyYields(c.s);
      AttemptKeepsStatuses(c.s.(delta := None), t, i);
      assert false;
    } else {
      OtherKeepsStatuses(c, a, i);
      assert false;
    }
  }

  lemma {:induction false} RunConverges(c: Config, answers: seq<Answer>, i: nat)
    requires MainInv(c) && RunOk(c, answers)
    requires IsConverged(Run(c, answers).s.know.goals, i) && !IsConverged(c.s.know.goals, i)
    ensures ConvergedDuring(c, answers, i)
    decreases |answers|
  {
    var d := MainStep(c, answers[0]);
    StepKeeps(c, answers[0]);
    if IsConverged(d.s.know.goals, i) {
      StepConverges(c, answers[0], i);
    } else {
      RunConverges(d, answers[1..], i);
    }
  }

  /** A satisfied run: there is a goal, every goal converged at a step where current evidence answered it and
      none of its tasks was live, every task is completed, and no contradiction is open. */
  lemma GoalSatisfiedMeans(dataset: int, maxIterations: nat, answers: seq<Answer>, c: Config)
    requires Reaches(dataset, maxIterations, answers, c) && c.s.terminal.stopCode == Some(GoalSatisfied)
    ensures c.s.know.goals != [] && NoUnresolved(c.s.know)
    ensures forall t :: t in c.s.know.agenda ==> t.status == Completed
    ensures forall i :: 0 <= i < |c.s.know.goals| ==>
      IsConverged(c.s.know.goals, i) && ConvergedDuring(Start(dataset, maxIterations), answers, i)
  {
    StopCodesAreSound(dataset, maxIterations, answers, c);
    StartIsGood(dataset, maxIterations);
    forall i | 0 <= i < |c.s.know.goals|
      ensures IsConverged(c.s.know.goals, i) && ConvergedDuring(Start(dataset, maxIterations), answers, i)
    {
      assert c.s.know.goals[i] in c.s.know.goals;
      RunConverges(Start(dataset, maxIterations), answers, i);
    }
  }

  // ---------------------------------------------------------------- the one assertion that can fail

  /** From a reachable state, a step raises exactly when it reuses evidence for an intent without a goal. */
  lemma RaisesIff(dataset: int, maxIterations: nat, answers: seq<Answer>, c: Config, a: Answer)
    requires Reaches(dataset, maxIterations, answers, c) && StepOk(c, a)
    ensures MainStep(c, a).node == Crashed <==>
      c.node == ReuseNode && c.s.intent.Some? && c.s.intent.value.goalId.None?
  {
    ReachesInvariant(dataset, maxIterations, answers, c);
    StepKeeps(c, a);
  }
}
