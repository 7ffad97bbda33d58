/** The run audit's reference checks: an independent reader of the stored lists, and why it finds nothing. */
module Audit {
  import opened Contracts
  import opened RunState
  import opened KnowledgeInvariant
  import opened MainGraph
  import opened RunTheorems

  datatype AuditIssue =
    | EventLine(line: int)
    | MissingParent(evidence: EvidenceId, parent: EvidenceId)
    | EvidenceGoal(evidence: EvidenceId, goal: GoalId)
    | RelationSource(relation: EvidenceRelation)
    | RelationTarget(relation: EvidenceRelation)
    | TaskSource(task: TaskId, source: EvidenceId)
    | TaskGoal(task: TaskId, goal: GoalId)
    | TaskCompletion(task: TaskId, evidence: EvidenceId)

  // ---------------------------------------------------------------- what each issue says

  predicate EvidenceIssue(e: EvidenceRecord, ids: set<EvidenceId>, goals: set<GoalId>, i: AuditIssue) {
    match i
    case MissingParent(id, parent) => id == e.evidenceId && parent in e.parents && parent !in ids
    case EvidenceGoal(id, goal) => id == e.evidenceId && e.goalId == Some(goal) && goal !in goals
    case _ => false
  }

  predicate RelationIssue(r: EvidenceRelation, ids: set<EvidenceId>, i: AuditIssue) {
    match i
    case RelationSource(s) => s == r && r.source !in ids
    case RelationTarget(s) => s == r && r.target !in ids
    case _ => false
  }

  predicate TaskIssue(t: AgendaTask, ids: set<EvidenceId>, goals: set<GoalId>, i: AuditIssue) {
    match i
    case TaskSource(id, source) => id == t.taskId && source in t.sources && source !in ids
    case TaskGoal(id, goal) => id == t.taskId && t.goalId == Some(goal) && goal !in goals
    case TaskCompletion(id, e) => id == t.taskId && t.completion == Some(e) && e !in ids
    case _ => false
  }

  /** A broken reference somewhere in the stored knowledge. */
  ghost predicate Broken(k: Knowledge, i: AuditIssue) {
    var ids, goals := EvidenceIds(k.evidence), GoalIds(k.goals);
    || (exists e :: e in k.evidence && EvidenceIssue(e, ids, goals, i))
    || (exists r :: r in k.relations && RelationIssue(r, ids, i))
    || (exists t :: t in k.agenda && TaskIssue(t, ids, goals, i))
  }

  lemma EvidenceRefsIff(e: EvidenceRecord, ids: set<EvidenceId>, goals: set<GoalId>)
    ensures EvidenceRefs(e, ids, goals) <==> !exists i :: EvidenceIssue(e, ids, goals, i)
  {
    if p :| p in e.parents && p !in ids {
      assert EvidenceIssue(e, ids, goals, MissingParent(e.evidenceId, p));
    } else if e.goalId.Some? && e.goalId.value !in goals {
      assert EvidenceIssue(e, ids, goals, EvidenceGoal(e.evidenceId, e.goalId.value));
    }
  }

  lemma RelationRefsIff(r: EvidenceRelation, ids: set<EvidenceId>)
    ensures RelationRefs(r, ids) <==> !exists i :: RelationIssue(r, ids, i)
  {
    if r.source !in ids {
      assert RelationIssue(r, ids, RelationSource(r));
    } else if r.target !in ids {
      assert RelationIssue(r, ids, RelationTarget(r));
    }
  }

  lemma TaskRefsIff(t: AgendaTask, ids: set<EvidenceId>, goals: set<GoalId>)
    ensures TaskRefs(t, ids, goals) <==> !exists i :: TaskIssue(t, ids, goals, i)
  {
    if s :| s in t.sources && s !in ids {
      assert TaskIssue(t, ids, goals, TaskSource(t.taskId, s));
    } else if t.goalId.Some? && t.goalId.value !in goals {
      assert TaskIssue(t, ids, goals, TaskGoal(t.taskId, t.goalId.value));
    } else if t.completion.Some? && t.completion.value !in ids {
      assert TaskIssue(t, ids, goals, TaskCompletion(t.taskId, t.completion.value));
    }
  }

  /** Clean means that no reference is broken. */
  lemma CleanIff(k: Knowledge)
    ensures AuditClean(k) <==> !exists i :: Broken(k, i)
  {
    var ids, goals := EvidenceIds(k.evidence), GoalIds(k.goals);
    forall e ensures EvidenceRefs(e, ids, goals) <==> !exists i :: EvidenceIssue(e, ids, goals, i) {
      EvidenceRefsIff(e, ids, goals);
    }
    forall r ensures RelationRefs(r, ids) <==> !exists i :: RelationIssue(r, ids, i) {
      RelationRefsIff(r, ids);
    }
    forall t ensures TaskRefs(t, ids, goals) <==> !exists i :: TaskIssue(t, ids, goals, i) {
      TaskRefsIff(t, ids, goals);
    }
    if e :| e in k.evidence && !EvidenceRefs(e, ids, goals) {
      var i :| EvidenceIssue(e, ids, goals, i);
      assert Broken(k, i);
    } else if r :| r in k.relations && !RelationRefs(r, ids) {
      var i :| RelationIssue(r, ids, i);
      assert Broken(k, i);
    } else if t :| t in k.agenda && !TaskRefs(t, ids, goals) {
      var i :| TaskIssue(t, ids, goals, i);
      assert Broken(k, i);
    }
  }

  // ---------------------------------------------------------------- the loops

  method AuditRecord(e: EvidenceRecord, ids: set<EvidenceId>, goals: set<GoalId>) returns (issues: seq<AuditIssue>)
    ensures forall i :: i in issues <==> EvidenceIssue(e, ids, goals, i)
  {
    issues := [];
    for k := 0 to |e.parents|
      invariant forall i :: i in issues <==>
        i.MissingParent? && i.evidence == e.evidenceId && i.parent in e.parents[..k] && i.parent !in ids
    {
      assert e.parents[..k + 1] == e.parents[..k] + [e.parents[k]];
      if e.parents[k] !in ids {
        issues := issues + [MissingParent(e.evidenceId, e.parents[k])];
      }
    }
    assert e.parents[..|e.parents|] == e.parents;
    if e.goalId.Some? && e.goalId.value !in goals {
      issues := issues + [EvidenceGoal(e.evidenceId, e.goalId.value)];
    }
  }

  method AuditTask(t: AgendaTask, ids: set<EvidenceId>, goals: set<GoalId>) returns (issues: seq<AuditIssue>)
    ensures forall i :: i in issues <==> TaskIssue(t, ids, goals, i)
  {
    issues := [];
    for k := 0 to |t.sources|
      invariant forall i :: i in issues <==>
        i.TaskSource? && i.task == t.taskId && i.source in t.sources[..k] && i.source !in ids
    {
      assert t.sources[..k + 1] == t.sources[..k] + [t.sources[k]];
      if t.sources[k] !in ids {
        issues := issues + [TaskSource(t.taskId, t.sources[k])];
      }
    }
    assert t.sources[..|t.sources|] == t.sources;
    if t.goalId.Some? && t.goalId.value !in goals {
      issues := issues + [TaskGoal(t.taskId, t.goalId.value)];
    }
    if t.completion.Some? && t.completion.value !in ids {
      issues := issues + [TaskCompletion(t.taskId, t.completion.value)];
    }
  }

  method AuditEvidence(evidence: seq<EvidenceRecord>, ids: set<EvidenceId>, goals: set<GoalId>)
    returns (issues: seq<AuditIssue>)
    ensures forall i :: i in issues <==> exists e :: e in evidence && EvidenceIssue(e, ids, goals, i)
  {
    issues := [];
    for k := 0 to |evidence|
      invariant forall i :: i in issues <==> exists e :: e in evidence[..k] && EvidenceIssue(e, ids, goals, i)
    {
      assert evidence[..k + 1] == evidence[..k] + [evidence[k]];
      var found := AuditRecord(evidence[k], ids, goals);
      issues := issues + found;
    }
    assert evidence[..|evidence|] == evidence;
  }

  method AuditRelations(relations: seq<EvidenceRelation>, ids: set<EvidenceId>) returns (issues: seq<AuditIssue>)
    ensures forall i :: i in issues <==> exists r :: r in relations && RelationIssue(r, ids, i)
  {
    issues := [];
    for k := 0 to |relations|
      invariant forall i :: i in issues <==> exists r :: r in relations[..k] && RelationIssue(r, ids, i)
    {
      var r := relations[k];
      assert relations[..k + 1] == relations[..k] + [r];
      var found: seq<AuditIssue> := [];
      if r.source !in ids {
        found := found + [RelationSource(r)];
      }
      if r.target !in ids {
        found := found + [RelationTarget(r)];
      }
      assert forall i :: i in found <==> RelationIssue(r, ids, i);
      issues := issues + found;
    }
    assert relations[..|relations|] == relations;
  }

  method AuditAgenda(agenda: seq<AgendaTask>, ids: set<EvidenceId>, goals: set<GoalId>)
    returns (issues: seq<AuditIssue>)
    ensures forall i :: i in issues <==> exists t :: t in agenda && TaskIssue(t, ids, goals, i)
  {
    issues := [];
    for k := 0 to |agenda|
      invariant forall i :: i in issues <==> exists t :: t in agenda[..k] && TaskIssue(t, ids, goals, i)
    {
      assert agenda[..k + 1] == agenda[..k] + [agenda[k]];
      var found := AuditTask(agenda[k], ids, goals);
      issues := issues + found;
    }
    assert agenda[..|agenda|] == agenda;
  }

  /** The reference checks of `build_run_audit`: the event log's issues, then exactly the broken references. */
  method BuildRunAudit(k: Knowledge, parsed: seq<AuditIssue>) returns (issues: seq<AuditIssue>, ok: bool)
    ensures parsed <= issues
    ensures forall i :: i in issues <==> i in parsed || Broken(k, i)
    ensures ok <==> parsed == [] && AuditClean(k)
  {
    var ids, goals := EvidenceIds(k.evidence), GoalIds(k.goals);
    var inEvidence := AuditEvidence(k.evidence, ids, goals);
    var inRelations := AuditRelations(k.relations, ids);
    var inAgenda := AuditAgenda(k.agenda, ids, goals);
    issues := parsed + inEvidence + inRelations + inAgenda;
    ok := issues == [];
    CleanIff(k);
    if !ok {
      assert issues[0] in issues;
    }
  }

  /** The writers and the auditor agree: in no reachable state does any check report a broken reference. */
  lemma NoReachableIssue(dataset: int, maxIterations: nat, answers: seq<Answer>, c: Config, i: AuditIssue)
    requires Reaches(dataset, maxIterations, answers, c)
    ensures !Broken(c.s.know, i)
  {
    ReachableAuditsClean(dataset, maxIterations, answers, c);
    CleanIff(c.s.know);
  }
}
