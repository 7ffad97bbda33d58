/** The agenda changes outside a commit (selecting, releasing, limiting and repairing tasks) keep the
    knowledge invariant. */
module AgendaSteps {
  import opened Contracts
  import opened RunState
  import opened IntentPolicy
  import opened ReviewEvidence
  import opened ReviewAgenda
  import opened KnowledgeInvariant
  import opened Planning
  import opened Progress
  import opened Execution

  // ---------------------------------------------------------------- goals

  /** A planner verdict closes goals but never loses one. */
  lemma VerdictKeepsKnowledge(s: State, v: GoalVerdict)
    requires KnowledgeOk(s.know)
    ensures KnowledgeOk(s.know.(goals := ApplyVerdict(s, v)))
  {
    SameGoalIds(s.know.goals, ApplyVerdict(s, v));
    GoalsGrow(s.know, ApplyVerdict(s, v));
  }

  lemma ReuseKeepsKnowledge(k: Knowledge, goalId: GoalId, ids: seq<EvidenceId>)
    requires KnowledgeOk(k)
    ensures KnowledgeOk(k.(goals := LinkReused(k.goals, goalId, ids)))
  {
    SameGoalIds(k.goals, LinkReused(k.goals, goalId, ids));
    GoalsGrow(k, LinkReused(k.goals, goalId, ids));
  }

  // ---------------------------------------------------------------- selecting

  /** The task an accepted intent names is the only one carrying its id, and it is live. */
  lemma SelectedIsLive(agenda: seq<AgendaTask>, intent: Intent, i: nat)
    requires DistinctIds(agenda) && TaskError(agenda, intent).None?
    requires i < |agenda| && Selected(agenda[i], intent)
    ensures agenda[i].Live() && LiveTask(agenda, agenda[i].taskId) == Some(agenda[i])
    ensures AgendaIntentError(agenda[i], intent).None?
  {
    var live := LiveTask(agenda, intent.taskId.value);
    var j :| 0 <= j < |agenda| && agenda[j] == live.value;
    assert i == j;
  }

  lemma SelectKeepsKnowledge(k: Knowledge, intent: Intent)
    requires KnowledgeOk(k) && NothingInProgress(k.agenda) && TaskError(k.agenda, intent).None?
    ensures KnowledgeOk(k.(agenda := SelectTask(k.agenda, intent)))
    ensures AgendaEvolves(k.agenda, SelectTask(k.agenda, intent))
  {
    var b := SelectTask(k.agenda, intent);
    forall i | 0 <= i < |b|
      ensures TaskEvolves(k.agenda[i], b[i]) && ValidTask(b[i])
      ensures b[i].completion == k.agenda[i].completion
        && (b[i].status == Completed ==> k.agenda[i].status == Completed)
    {
      assert k.agenda[i] in k.agenda && ValidTask(k.agenda[i]);
      if Selected(k.agenda[i], intent) {
        SelectedIsLive(k.agenda, intent, i);
      }
    }
    EvolvedAgendaKeeps(k, b);
  }

  /** After selection exactly the selected task is in progress, owned by its intent. */
  lemma SelectActivates(agenda: seq<AgendaTask>, intent: Intent)
    requires NothingInProgress(agenda)
    ensures intent.mode == Compute ==> ActiveTask(SelectTask(agenda, intent), intent)
    ensures intent.mode != Compute ==> NothingInProgress(SelectTask(agenda, intent))
  {
    var b := SelectTask(agenda, intent);
    forall i | 0 <= i < |b|
      ensures intent.mode == Compute ==> (b[i].status == InProgress <==> Selected(b[i], intent))
      ensures b[i].status == InProgress ==> b[i].selected == Some(intent.intentId) && intent.mode == Compute
    {
      assert agenda[i] in agenda;
    }
  }

  // ---------------------------------------------------------------- releasing

  lemma ReleaseKeepsKnowledge(k: Knowledge, intent: Intent)
    requires KnowledgeOk(k) && ActiveTask(k.agenda, intent)
    ensures KnowledgeOk(k.(agenda := ReleaseTask(k.agenda, intent)))
    ensures AgendaEvolves(k.agenda, ReleaseTask(k.agenda, intent)) && NothingInProgress(ReleaseTask(k.agenda, intent))
  {
    var b := ReleaseTask(k.agenda, intent);
    forall i | 0 <= i < |b|
      ensures TaskEvolves(k.agenda[i], b[i]) && ValidTask(b[i]) && b[i].status != InProgress
      ensures b[i].completion == k.agenda[i].completion
        && (b[i].status == Completed ==> k.agenda[i].status == Completed)
    {
      assert k.agenda[i] in k.agenda && ValidTask(k.agenda[i]);
    }
    EvolvedAgendaKeeps(k, b);
  }

  lemma SameParts(k: Knowledge, n: Knowledge)
    requires KnowledgeOk(k) && n == k.(rejected := n.rejected, issues := n.issues)
    ensures KnowledgeOk(n)
  {
    assert AuditClean(n) <==> AuditClean(k);
  }

  /** A rejection records the attempt and hands its task back. */
  lemma RejectKeepsKnowledge(k: Knowledge, intent: Intent, stage: Stage, issues: seq<LoopIssue>)
    requires KnowledgeOk(k) && ActiveTask(k.agenda, intent)
    ensures var n := RejectKnowledge(k, intent, stage, issues);
      KnowledgeOk(n) && AgendaEvolves(k.agenda, n.agenda) && NothingInProgress(n.agenda)
  {
    ReleaseKeepsKnowledge(k, intent);
    SameParts(k.(agenda := ReleaseTask(k.agenda, intent)), RejectKnowledge(k, intent, stage, issues));
  }

  // ---------------------------------------------------------------- limiting

  lemma LimitReasonIsGiven(intent: Intent)
    requires !Blank(intent.question)
    ensures !Blank(LimitReason(intent))
  {
    if Strip(intent.rationale) != "" {
      StripIsNotBlank(intent.rationale);
    }
  }

  lemma LimitKeepsKnowledge(k: Knowledge, intent: Intent)
    requires KnowledgeOk(k) && NothingInProgress(k.agenda) && TaskError(k.agenda, intent).None?
    requires intent.mode == MarkDataLimited && !Blank(intent.question)
    ensures KnowledgeOk(k.(agenda := LimitTask(k.agenda, intent)))
    ensures AgendaEvolves(k.agenda, LimitTask(k.agenda, intent)) && NothingInProgress(LimitTask(k.agenda, intent))
  {
    var b := LimitTask(k.agenda, intent);
    LimitReasonIsGiven(intent);
    forall i | 0 <= i < |b|
      ensures TaskEvolves(k.agenda[i], b[i]) && ValidTask(b[i]) && b[i].status != InProgress
      ensures b[i].completion == k.agenda[i].completion
        && (b[i].status == Completed ==> k.agenda[i].status == Completed)
    {
      assert k.agenda[i] in k.agenda && ValidTask(k.agenda[i]);
      if Selected(k.agenda[i], intent) {
        SelectedIsLive(k.agenda, intent, i);
      }
    }
    EvolvedAgendaKeeps(k, b);
  }

  lemma AcceptedLimitApplies(agenda: seq<AgendaTask>, intent: Intent)
    requires DistinctIds(agenda) && TaskError(agenda, intent).None? && intent.mode == MarkDataLimited
      && intent.taskId.Some?
    ensures Limitable(agenda, intent)
  {
    forall t | t in agenda && Some(t.taskId) == intent.taskId ensures t.attempts >= 1 {
      var i :| 0 <= i < |agenda| && agenda[i] == t;
      SelectedIsLive(agenda, intent, i);
    }
  }

  // ---------------------------------------------------------------- repairing

  lemma {:induction false} UncoveredMeaning(agenda: seq<AgendaTask>, pairs: seq<(EvidenceId, EvidenceId)>)
    requires DistinctPairs(pairs)
    ensures DistinctPairs(Uncovered(agenda, pairs))
    ensures forall p :: p in Uncovered(agenda, pairs) <==> p in pairs && !CoveredLive(agenda, PairSet(p))
  {
    if pairs != [] {
      var front := pairs[..|pairs| - 1];
      UncoveredMeaning(agenda, front);
      assert pairs == front + [pairs[|pairs| - 1]];
    }
  }

  /** The pairs a repair adds tasks for: the unresolved ones without a live task, each once. */
  lemma MissingPairsMeaning(k: Knowledge)
    ensures DistinctPairs(MissingPairs(k))
    ensures forall p :: p in MissingPairs(k) ==>
      UnresolvedPair(k.relations, PairSet(p)) && !CoveredLive(k.agenda, PairSet(p))
  {
    UnresolvedContradictionsMeaning(k.relations);
    UncoveredMeaning(k.agenda, UnresolvedContradictions(k.relations));
  }

  lemma MissingPairIsListed(k: Knowledge, a: EvidenceId, b: EvidenceId)
    requires UnresolvedPair(k.relations, {a, b}) && !CoveredLive(k.agenda, {a, b})
    ensures SortedPair(a, b) in MissingPairs(k)
  {
    UnresolvedAmongSound(k.relations, |k.relations|);
    UnresolvedPairIsListed(k.relations, a, b);
    UncoveredMeaning(k.agenda, UnresolvedContradictions(k.relations));
    assert PairSet(SortedPair(a, b)) == {a, b};
  }

  lemma RepairGoalIsKnown(k: Knowledge, pair: (EvidenceId, EvidenceId))
    requires AuditClean(k)
    ensures RepairGoal(k.evidence, pair).Some? ==> RepairGoal(k.evidence, pair).value in GoalIds(k.goals)
  {
    RecordOfIsKnown(k.evidence, pair.0);
    RecordOfIsKnown(k.evidence, pair.1);
    forall r | r in k.evidence ensures EvidenceRefs(r, EvidenceIds(k.evidence), GoalIds(k.goals)) {
    }
  }

  /** One repair task stands for an unresolved pair of known records. */
  lemma RepairTaskOk(k: Knowledge, pair: (EvidenceId, EvidenceId), id: TaskId)
    requires KnowledgeOk(k) && UnresolvedPair(k.relations, PairSet(pair))
    ensures var t := RepairTask(k.evidence, pair, id);
      && ValidTask(t) && ToSet(t.sources) == PairSet(pair) && t.status == Pending && t.taskId == id
      && TaskRefs(t, EvidenceIds(k.evidence), GoalIds(k.goals))
      && Contradicted(k.relations, ToSet(t.sources))
  {
    var t := RepairTask(k.evidence, pair, id);
    PairToSet(pair.0, pair.1);
    var r :| r in k.relations && r.kind == Contradicts && {r.source, r.target} == PairSet(pair);
    assert ValidRelation(r) && RelationRefs(r, EvidenceIds(k.evidence));
    assert r.source in PairSet(pair) && r.target in PairSet(pair);
    assert pair.0 in {r.source, r.target} && pair.1 in {r.source, r.target};
    assert t.sources[0] != t.sources[1];
    RepairGoalIsKnown(k, pair);
  }

  ghost predicate RepairedOk(k: Knowledge, created: seq<AgendaTask>, ids: seq<TaskId>) {
    && |created| == |ids|
    && (forall i :: 0 <= i < |created| ==>
      && ValidTask(created[i]) && created[i].kind == ResolveContradiction && created[i].status == Pending
      && created[i].taskId == ids[i]
      && TaskRefs(created[i], EvidenceIds(k.evidence), GoalIds(k.goals))
      && Contradicted(k.relations, ToSet(created[i].sources)))
    && (forall i, j :: 0 <= i < j < |created| ==> ToSet(created[i].sources) != ToSet(created[j].sources))
  }

  lemma PairSetInjective(p: (EvidenceId, EvidenceId), q: (EvidenceId, EvidenceId))
    requires p.0 <= p.1 && q.0 <= q.1 && PairSet(p) == PairSet(q)
    ensures p == q
  {
    SamePair(p.0, p.1, q.0, q.1);
  }

  lemma RepairTasksOk(k: Knowledge, ids: seq<TaskId>)
    requires KnowledgeOk(k) && |ids| == |MissingPairs(k)|
    ensures RepairedOk(k, RepairTasks(k.evidence, MissingPairs(k), ids), ids)
  {
    var missing := MissingPairs(k);
    var created := RepairTasks(k.evidence, missing, ids);
    MissingPairsMeaning(k);
    forall i | 0 <= i < |created|
      ensures && ValidTask(created[i]) && created[i].kind == ResolveContradiction && created[i].status == Pending
        && created[i].taskId == ids[i]
              && TaskRefs(created[i], EvidenceIds(k.evidence), GoalIds(k.goals))
              && Contradicted(k.relations, ToSet(created[i].sources))
    {
      RepairTaskOk(k, missing[i], ids[i]);
    }
    forall i, j | 0 <= i < j < |created| ensures ToSet(created[i].sources) != ToSet(created[j].sources) {
      PairToSet(missing[i].0, missing[i].1);
      PairToSet(missing[j].0, missing[j].1);
      if PairSet(missing[i]) == PairSet(missing[j]) {
        PairSetInjective(missing[i], missing[j]);
      }
    }
  }

  lemma RepairedAgendaOk(k: Knowledge, created: seq<AgendaTask>, ids: seq<TaskId>)
    requires AgendaOk(k.agenda) && RepairedOk(k, created, ids) && FreshIds(ids, k.agenda) && !HasLiveTask(k.agenda)
    ensures AgendaOk(k.agenda + created)
  {
    var b := k.agenda + created;
    forall i, j | 0 <= i < j < |b| ensures b[i].taskId != b[j].taskId && !Clash(b[i], b[j]) {
      if j < |k.agenda| {
        assert b[i] == k.agenda[i] && b[j] == k.agenda[j];
      } else if i < |k.agenda| {
        assert b[i] in k.agenda && !b[i].Live();
      } else {
        assert b[i] == created[i - |k.agenda|] && b[j] == created[j - |k.agenda|];
      }
    }
  }

  /** Repairing the agenda from the relation graph keeps the knowledge invariant; old tasks stay as they are. */
  lemma RepairKeepsKnowledge(k: Knowledge, created: seq<AgendaTask>, ids: seq<TaskId>)
    requires KnowledgeOk(k) && RepairedOk(k, created, ids) && FreshIds(ids, k.agenda) && !HasLiveTask(k.agenda)
    ensures KnowledgeOk(k.(agenda := k.agenda + created))
    ensures AgendaEvolves(k.agenda, k.agenda + created) && NothingInProgress(k.agenda + created)
  {
    var b := k.agenda + created;
    RepairedAgendaOk(k, created, ids);
    forall r | r in k.relations && r.kind == Contradicts ensures HasConflictTask(b, {r.source, r.target}) {
      var t :| t in k.agenda && t.kind == ResolveContradiction && ToSet(t.sources) == {r.source, r.target};
      assert t in b;
    }
    forall t | t in b
      ensures t.status != InProgress && TaskRefs(t, EvidenceIds(k.evidence), GoalIds(k.goals))
      ensures t.kind == ResolveContradiction ==> Contradicted(k.relations, ToSet(t.sources))
      ensures t.kind == ResolveContradiction && t.status == Completed ==> ResolvedPair(k.relations, ToSet(t.sources))
    {
      if t in k.agenda {
        assert !t.Live();
      } else {
        assert t in created;
      }
    }
    forall i | 0 <= i < |k.agenda| ensures TaskEvolves(k.agenda[i], b[i]) {
      assert b[i] == k.agenda[i];
    }
  }
}
