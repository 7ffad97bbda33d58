/** The joint invariant of the accumulated knowledge, and the operations that grow it.

    Agenda, relation graph, coverage and audit references are maintained by different parts of the
    program; each operation below is shown to keep all of them at once. */
module KnowledgeInvariant {
  import opened Contracts
  import opened RunState
  import opened Numeric
  import opened ReviewEvidence
  import opened ReviewAgenda

  // ---------------------------------------------------------------- task lifecycle

  /** How one stored task may change: identity and sources are fixed, attempts never drop, completed is
      final, and a data-limited task can only become completed. */
  predicate TaskEvolves(t: AgendaTask, u: AgendaTask) {
    && u == t.(status := u.status, selected := u.selected, attempts := u.attempts, completion := u.completion,
      reason := u.reason)
    && t.attempts <= u.attempts
    && (t.status == Completed ==> u == t)
    && (t.status == DataLimited ==> u.status == DataLimited || u.status == Completed)
  }

  /** Tasks are never lost or reordered. */
  ghost predicate AgendaEvolves(a: seq<AgendaTask>, b: seq<AgendaTask>) {
    |a| <= |b| && forall i :: 0 <= i < |a| ==> TaskEvolves(a[i], b[i])
  }

  lemma AgendaEvolvesTransitive(a: seq<AgendaTask>, b: seq<AgendaTask>, c: seq<AgendaTask>)
    requires AgendaEvolves(a, b) && AgendaEvolves(b, c)
    ensures AgendaEvolves(a, c)
  {
    forall i | 0 <= i < |a| ensures TaskEvolves(a[i], c[i]) {
      assert TaskEvolves(a[i], b[i]) && TaskEvolves(b[i], c[i]);
    }
  }

  // ---------------------------------------------------------------- the invariant, part by part

  /** Two tasks that deduplication must keep apart: waiting questions of one kind with one key, or two
      live contradiction tasks over the same records. */
  predicate Clash(u: AgendaTask, t: AgendaTask) {
    && u.kind == t.kind && SameKey(u, t)
    && (if t.kind == ResolveContradiction then u.Live() && t.Live() else u.status != Completed && t.status != Completed)
  }

  ghost predicate NoClash(agenda: seq<AgendaTask>) {
    forall i, j :: 0 <= i < j < |agenda| ==> !Clash(agenda[i], agenda[j])
  }

  ghost predicate AgendaOk(agenda: seq<AgendaTask>) {
    (forall t :: t in agenda ==> ValidTask(t)) && DistinctIds(agenda) && NoClash(agenda)
  }

  ghost predicate DistinctEvidence(evidence: seq<EvidenceRecord>) {
    forall i, j :: 0 <= i < j < |evidence| ==> evidence[i].evidenceId != evidence[j].evidenceId
  }

  /** Every contradiction has a task over exactly its pair, every such task stands for a contradiction,
      and completing it means the pair is resolved in the graph. */
  ghost predicate Covers(agenda: seq<AgendaTask>, relations: seq<EvidenceRelation>) {
    && (forall r :: r in relations && r.kind == Contradicts ==> HasConflictTask(agenda, {r.source, r.target}))
    && (forall t :: t in agenda && t.kind == ResolveContradiction ==> Contradicted(relations, ToSet(t.sources)))
    && (forall t :: t in agenda && t.kind == ResolveContradiction && t.status == Completed ==>
      ResolvedPair(relations, ToSet(t.sources)))
  }

  ghost predicate HasConflictTask(agenda: seq<AgendaTask>, pair: set<EvidenceId>) {
    exists t :: t in agenda && t.kind == ResolveContradiction && ToSet(t.sources) == pair
  }

  // The reference checks of the run audit.

  predicate EvidenceRefs(e: EvidenceRecord, ids: set<EvidenceId>, goals: set<GoalId>) {
    (forall p | p in e.parents :: p in ids) && (e.goalId.Some? ==> e.goalId.value in goals)
  }

  predicate RelationRefs(r: EvidenceRelation, ids: set<EvidenceId>) {
    r.source in ids && r.target in ids
  }

  predicate TaskRefs(t: AgendaTask, ids: set<EvidenceId>, goals: set<GoalId>) {
    && (forall s | s in t.sources :: s in ids)
    && (t.goalId.Some? ==> t.goalId.value in goals)
    && (t.completion.Some? ==> t.completion.value in ids)
  }

  predicate AuditClean(k: Knowledge) {
    var ids, goals := EvidenceIds(k.evidence), GoalIds(k.goals);
    && (forall e | e in k.evidence :: EvidenceRefs(e, ids, goals))
    && (forall r | r in k.relations :: RelationRefs(r, ids))
    && (forall t | t in k.agenda :: TaskRefs(t, ids, goals))
  }

  function TotalUses(evidence: seq<EvidenceRecord>, c: Column): nat {
    if evidence == [] then 0
    else TotalUses(evidence[..|evidence| - 1], c) + Count(evidence[|evidence| - 1].columnsUsed, c)
  }

  /** Column usage counts the evidence, and there is one analysis signature per record, none repeated. */
  ghost predicate CoverageOk(coverage: Coverage, evidence: seq<EvidenceRecord>) {
    && (forall c :: Usage(coverage.columnUsage, c) == TotalUses(evidence, c))
    && |coverage.testedKeys| == |evidence|
    && (forall i, j :: 0 <= i < j < |coverage.testedKeys| ==> coverage.testedKeys[i] != coverage.testedKeys[j])
  }

  /** Every record's summary is stated by its own result, which holds no NaN or infinity. */
  predicate FromResult(e: EvidenceRecord) {
    AllFinite(e.result) && Bound(e.effects, e.uncertainty, e.uncertaintyPaths, e.result)
  }

  ghost predicate KnowledgeOk(k: Knowledge) {
    && AgendaOk(k.agenda)
    && DistinctEvidence(k.evidence)
    && (forall r :: r in k.relations ==> ValidRelation(r))
    && AuditClean(k)
    && Covers(k.agenda, k.relations)
    && CoverageOk(k.coverage, k.evidence)
    && (forall e :: e in k.evidence ==> FromResult(e))
  }

  // ---------------------------------------------------------------- changing tasks in place

  /** Evolving every task, keeping each valid, keeps the agenda well formed. */
  lemma EvolvedAgendaOk(a: seq<AgendaTask>, b: seq<AgendaTask>)
    requires AgendaOk(a) && |a| == |b| && AgendaEvolves(a, b)
    requires forall i :: 0 <= i < |b| ==> ValidTask(b[i])
    ensures AgendaOk(b)
  {
    forall i, j | 0 <= i < j < |b| ensures b[i].taskId != b[j].taskId && !Clash(b[i], b[j]) {
      assert TaskEvolves(a[i], b[i]) && TaskEvolves(a[j], b[j]);
      assert !Clash(a[i], a[j]);
    }
  }

  /** Tasks changed in place: nothing newly completed, completions and validity kept. */
  ghost predicate ChangedInPlace(a: seq<AgendaTask>, b: seq<AgendaTask>) {
    && |b| == |a| && AgendaEvolves(a, b)
    && (forall i :: 0 <= i < |b| ==> ValidTask(b[i]) && b[i].completion == a[i].completion)
    && (forall i :: 0 <= i < |b| && b[i].status == Completed ==> a[i].status == Completed)
  }

  lemma ChangedTask(a: seq<AgendaTask>, b: seq<AgendaTask>, u: AgendaTask) returns (t: AgendaTask)
    requires ChangedInPlace(a, b) && u in b
    ensures t in a && u.kind == t.kind && u.sources == t.sources && u.goalId == t.goalId && u.completion == t.completion
    ensures u.status == Completed ==> t.status == Completed
  {
    var i :| 0 <= i < |b| && b[i] == u;
    t := a[i];
    assert TaskEvolves(a[i], b[i]);
  }

  lemma ChangedRefs(a: seq<AgendaTask>, b: seq<AgendaTask>, ids: set<EvidenceId>, goals: set<GoalId>)
    requires ChangedInPlace(a, b) && forall t :: t in a ==> TaskRefs(t, ids, goals)
    ensures forall u :: u in b ==> TaskRefs(u, ids, goals)
  {
    forall u | u in b ensures TaskRefs(u, ids, goals) {
      var t := ChangedTask(a, b, u);
    }
  }

  lemma ChangedCovers(a: seq<AgendaTask>, b: seq<AgendaTask>, relations: seq<EvidenceRelation>)
    requires ChangedInPlace(a, b) && Covers(a, relations)
    ensures Covers(b, relations)
  {
    forall u | u in b && u.kind == ResolveContradiction
      ensures Contradicted(relations, ToSet(u.sources))
      ensures u.status == Completed ==> ResolvedPair(relations, ToSet(u.sources))
    {
      var t := ChangedTask(a, b, u);
    }
    forall r | r in relations && r.kind == Contradicts ensures HasConflictTask(b, {r.source, r.target}) {
      assert HasConflictTask(a, {r.source, r.target});
      var t :| t in a && t.kind == ResolveContradiction && ToSet(t.sources) == {r.source, r.target};
      var i :| 0 <= i < |a| && a[i] == t;
      assert TaskEvolves(a[i], b[i]) && b[i] in b;
    }
  }

  /** Changing tasks in place, within their lifecycle, keeps the whole invariant. */
  lemma EvolvedAgendaKeeps(k: Knowledge, b: seq<AgendaTask>)
    requires KnowledgeOk(k) && ChangedInPlace(k.agenda, b)
    ensures KnowledgeOk(k.(agenda := b))
  {
    EvolvedAgendaOk(k.agenda, b);
    ChangedRefs(k.agenda, b, EvidenceIds(k.evidence), GoalIds(k.goals));
    ChangedCovers(k.agenda, b, k.relations);
  }

  // ---------------------------------------------------------------- changing goals

  /** Goals may be annotated, closed and appended freely, as long as no goal id disappears. */
  lemma GoalsGrow(k: Knowledge, goals: seq<SubGoal>)
    requires KnowledgeOk(k) && GoalIds(k.goals) <= GoalIds(goals)
    ensures KnowledgeOk(k.(goals := goals))
  {
    var ids := EvidenceIds(k.evidence);
    forall e | e in k.evidence ensures EvidenceRefs(e, ids, GoalIds(goals)) {
      assert EvidenceRefs(e, ids, GoalIds(k.goals));
    }
    forall t | t in k.agenda ensures TaskRefs(t, ids, GoalIds(goals)) {
      assert TaskRefs(t, ids, GoalIds(k.goals));
    }
  }

  lemma SameGoalIds(a: seq<SubGoal>, b: seq<SubGoal>)
    requires |a| <= |b| && forall i :: 0 <= i < |a| ==> a[i].goalId == b[i].goalId
    ensures GoalIds(a) <= GoalIds(b)
  {
    forall g | g in GoalIds(a) ensures g in GoalIds(b) {
      var x :| x in a && x.goalId == g;
      var i :| 0 <= i < |a| && a[i] == x;
      assert b[i] in b;
    }
  }

  // ---------------------------------------------------------------- committing a record

  function RecordedCoverage(coverage: Coverage, columns: seq<Column>, key: Signature): Coverage {
    Coverage(AddUses(coverage.columnUsage, columns), coverage.testedKeys + [key])
  }

  function Commit(k: Knowledge, intent: Intent, review: CriticReview, record: EvidenceRecord,
                  ids: seq<TaskId>): Knowledge
    requires CandidateCount(review) == |ids|
  {
    k.(goals := LinkEvidence(k.goals, intent.goalId, record.evidenceId),
       agenda := AgendaAfterCommit(k, intent, review, record, ids),
       evidence := k.evidence + [record],
       relations := RelationsAfterCommit(k, intent, review, record),
       coverage := RecordedCoverage(k.coverage, record.columnsUsed, DedupeKey(intent)))
  }

  /** The task of an active computation is the one in progress, and nothing else is. */
  ghost predicate ActiveTask(agenda: seq<AgendaTask>, intent: Intent) {
    forall t :: t in agenda ==>
      && (t.status == InProgress <==> Selected(t, intent))
      && (t.status == InProgress ==> t.selected == Some(intent.intentId))
  }

  ghost predicate NothingInProgress(agenda: seq<AgendaTask>) {
    forall t :: t in agenda ==> t.status != InProgress
  }

  ghost predicate KnownReferences(k: Knowledge, intent: Intent) {
    && (forall p :: p in intent.parents ==> p in EvidenceIds(k.evidence))
    && (intent.goalId.Some? ==> intent.goalId.value in GoalIds(k.goals))
  }

  ghost predicate ReviewRefers(review: CriticReview, ids: set<EvidenceId>) {
    forall x ::
      x in review.contradicts || x in review.revalidates || x in review.supersedes || x in review.reconciles ==>
        x in ids
  }

  /** What holds of a review and its new record when they reach the commit. */
  ghost predicate CommitReady(k: Knowledge, intent: Intent, review: CriticReview, record: EvidenceRecord,
                              ids: seq<TaskId>)
  {
    && |ids| == CandidateCount(review) && FreshIds(ids, k.agenda)
    && record.evidenceId !in EvidenceIds(k.evidence)
    && record.parents == intent.parents && record.goalId == intent.goalId
    && KnownReferences(k, intent)
    && ReviewRefers(review, EvidenceIds(k.evidence))
    && DedupeKey(intent) !in k.coverage.testedKeys
    && ActiveTask(k.agenda, intent)
    && FromResult(record)
  }

  /** What judging one task achieves. */
  predicate JudgedOk(evidence: seq<EvidenceRecord>, t: AgendaTask, u: AgendaTask, intent: Intent, review: CriticReview,
                     record: EvidenceRecord)
  {
    && TaskEvolves(t, u) && ValidTask(u) && u.status != InProgress
    && (u.completion == t.completion || u.completion == Some(record.evidenceId))
    && (u.status == Completed && t.status != Completed ==> ShouldComplete(evidence, t, intent, review, record))
  }

  lemma JudgeEvolves(evidence: seq<EvidenceRecord>, t: AgendaTask, intent: Intent, review: CriticReview,
                     record: EvidenceRecord)
    requires ValidTask(t) && (t.status == InProgress <==> Selected(t, intent))
    ensures JudgedOk(evidence, t, Judge(evidence, t, intent, review, record), intent, review, record)
  {
  }

  /** What a created task looks like. */
  ghost predicate CreatedOk(t: AgendaTask, intent: Intent, review: CriticReview, record: EvidenceRecord) {
    && ValidTask(t) && t.status == Pending && t.goalId == intent.goalId && t.completion.None?
    && (t.kind != ResolveContradiction ==> t.sources == [record.evidenceId])
    && (t.kind == ResolveContradiction ==> exists x :: IsConflictWith(t, review, record, x))
  }

  predicate IsConflictWith(t: AgendaTask, review: CriticReview, record: EvidenceRecord, x: EvidenceId) {
    x in review.contradicts && x != record.evidenceId && t.sources == [record.evidenceId, x]
  }

  lemma PairToSet(a: EvidenceId, b: EvidenceId)
    ensures ToSet([a, b]) == {a, b}
  {
  }

  lemma CandidateIsTask(intent: Intent, review: CriticReview, record: EvidenceRecord, ids: seq<TaskId>, m: nat)
    requires CandidateCount(review) == |ids| && m < |ids|
    requires Candidates(intent, review, record, ids)[m].Some?
    ensures CreatedOk(Candidates(intent, review, record, ids)[m].value, intent, review, record)
    ensures Candidates(intent, review, record, ids)[m].value.taskId == ids[m]
  {
    var a, b := |review.openQuestions|, |review.revalidationRequired|;
    var t := Candidates(intent, review, record, ids)[m].value;
    if m >= a + b {
      assert t.sources[0] != t.sources[1];
      assert IsConflictWith(t, review, record, review.contradicts[m - a - b]);
    }
  }

  lemma ConflictIsCandidate(intent: Intent, review: CriticReview, record: EvidenceRecord, ids: seq<TaskId>,
                            x: EvidenceId)
    returns (m: nat)
    requires CandidateCount(review) == |ids| && x in review.contradicts && x != record.evidenceId
    ensures m < |ids| && var c := Candidates(intent, review, record, ids)[m];
      c.Some? && c.value.kind == ResolveContradiction && c.value.sources == [record.evidenceId, x]
  {
    var i :| 0 <= i < |review.contradicts| && review.contradicts[i] == x;
    m := |review.openQuestions| + |review.revalidationRequired| + i;
  }

  /** The agenda after a commit: every old task judged in place, then created tasks, with a task waiting
      for every contradiction the review declares. */
  ghost predicate AgendaGrown(k: Knowledge, b: seq<AgendaTask>, intent: Intent, review: CriticReview,
                              record: EvidenceRecord)
  {
    && |k.agenda| <= |b|
    && (forall i :: 0 <= i < |k.agenda| ==> JudgedOk(k.evidence, k.agenda[i], b[i], intent, review, record))
    && (forall i :: |k.agenda| <= i < |b| ==> CreatedOk(b[i], intent, review, record))
    && (forall x :: x in review.contradicts && x != record.evidenceId ==> HasConflictTask(b, {record.evidenceId, x}))
  }

  lemma JudgedPart(k: Knowledge, intent: Intent, review: CriticReview, record: EvidenceRecord)
    requires AgendaOk(k.agenda) && ActiveTask(k.agenda, intent)
    ensures var judged := Judged(k.evidence, k.agenda, intent, review, record);
      && AgendaOk(judged)
      && forall i :: 0 <= i < |judged| ==> JudgedOk(k.evidence, k.agenda[i], judged[i], intent, review, record)
  {
    var judged := Judged(k.evidence, k.agenda, intent, review, record);
    forall i | 0 <= i < |judged| ensures JudgedOk(k.evidence, k.agenda[i], judged[i], intent, review, record) {
      assert k.agenda[i] in k.agenda;
      JudgeEvolves(k.evidence, k.agenda[i], intent, review, record);
    }
    EvolvedAgendaOk(k.agenda, judged);
  }

  lemma CommitGrowsAgenda(k: Knowledge, intent: Intent, review: CriticReview, record: EvidenceRecord, ids: seq<TaskId>)
    requires AgendaOk(k.agenda) && ActiveTask(k.agenda, intent) && |ids| == CandidateCount(review)
    ensures AgendaGrown(k, AgendaAfterCommit(k, intent, review, record, ids), intent, review, record)
  {
    var judged := Judged(k.evidence, k.agenda, intent, review, record);
    var cs := Candidates(intent, review, record, ids);
    var b := AddTasks(judged, cs, |cs|);
    JudgedPart(k, intent, review, record);
    forall m | 0 <= m < |cs| && cs[m].Some? ensures CreatedOk(cs[m].value, intent, review, record) {
      CandidateIsTask(intent, review, record, ids, m);
    }
    AddTasksContents(judged, cs, |cs|);
    forall i | |judged| <= i < |b| ensures CreatedOk(b[i], intent, review, record) {
      assert Some(b[i]) in cs[..|cs|];
    }
    forall x | x in review.contradicts && x != record.evidenceId ensures HasConflictTask(b, {record.evidenceId, x}) {
      var m := ConflictIsCandidate(intent, review, record, ids, x);
      assert Blocked(b, cs[m].value);
      var u :| u in b && Matches(u, cs[m].value);
      PairToSet(record.evidenceId, x);
    }
  }

  lemma CommitSeparatesTasks(k: Knowledge, intent: Intent, review: CriticReview, record: EvidenceRecord,
                             ids: seq<TaskId>)
    requires AgendaOk(k.agenda) && ActiveTask(k.agenda, intent) && |ids| == CandidateCount(review)
      && FreshIds(ids, k.agenda)
    ensures DistinctIds(AgendaAfterCommit(k, intent, review, record, ids))
    ensures NoClash(AgendaAfterCommit(k, intent, review, record, ids))
  {
    var judged := Judged(k.evidence, k.agenda, intent, review, record);
    var cs := Candidates(intent, review, record, ids);
    var b := AddTasks(judged, cs, |cs|);
    JudgedPart(k, intent, review, record);
    forall m | 0 <= m < |cs| && cs[m].Some? ensures cs[m].value.status == Pending && cs[m].value.taskId == ids[m] {
      CandidateIsTask(intent, review, record, ids, m);
    }
    assert FreshIds(ids, judged) by {
      forall i, t | 0 <= i < |ids| && t in judged ensures t.taskId != ids[i] {
        var j :| 0 <= j < |judged| && judged[j] == t;
        assert k.agenda[j] in k.agenda && JudgedOk(k.evidence, k.agenda[j], judged[j], intent, review, record);
      }
    }
    AddTasksDistinct(judged, cs, ids, |cs|);
    AddTasksContents(judged, cs, |cs|);
    forall i, j | 0 <= i < j < |b| ensures !Clash(b[i], b[j]) {
      if j < |judged| {
        assert b[i] == judged[i] && b[j] == judged[j];
      } else {
        assert !Matches(b[i], b[j]);
      }
    }
  }

  /** The commit evolves every stored task and leaves none in progress. */
  lemma CommitAgenda(k: Knowledge, b: seq<AgendaTask>, intent: Intent, review: CriticReview, record: EvidenceRecord)
    requires AgendaGrown(k, b, intent, review, record)
    ensures AgendaEvolves(k.agenda, b) && NothingInProgress(b) && forall t :: t in b ==> ValidTask(t)
  {
    forall i | 0 <= i < |b| ensures b[i].status != InProgress && ValidTask(b[i]) {
      if i < |k.agenda| {
        assert JudgedOk(k.evidence, k.agenda[i], b[i], intent, review, record);
      } else {
        assert CreatedOk(b[i], intent, review, record);
      }
    }
  }

  lemma CommitTaskRefs(k: Knowledge, b: seq<AgendaTask>, intent: Intent, review: CriticReview, record: EvidenceRecord,
                       goals: set<GoalId>)
    requires AuditClean(k) && AgendaGrown(k, b, intent, review, record)
    requires ReviewRefers(review, EvidenceIds(k.evidence)) && KnownReferences(k, intent) && GoalIds(k.goals) <= goals
    ensures forall t :: t in b ==> TaskRefs(t, EvidenceIds(k.evidence) + {record.evidenceId}, goals)
  {
    var before := EvidenceIds(k.evidence);
    forall i | 0 <= i < |b| ensures TaskRefs(b[i], before + {record.evidenceId}, goals) {
      if i < |k.agenda| {
        assert k.agenda[i] in k.agenda && TaskRefs(k.agenda[i], before, GoalIds(k.goals));
        assert JudgedOk(k.evidence, k.agenda[i], b[i], intent, review, record);
      } else {
        assert CreatedOk(b[i], intent, review, record);
      }
    }
  }

  lemma EvidenceIdsGrow(evidence: seq<EvidenceRecord>, record: EvidenceRecord)
    ensures EvidenceIds(evidence + [record]) == EvidenceIds(evidence) + {record.evidenceId}
  {
    var after := evidence + [record];
    assert record in after;
    forall x | x in EvidenceIds(evidence) ensures x in EvidenceIds(after) {
      var y :| y in evidence && y.evidenceId == x;
      assert y in after;
    }
  }

  lemma CommitAudit(k: Knowledge, intent: Intent, review: CriticReview, record: EvidenceRecord, ids: seq<TaskId>)
    requires KnowledgeOk(k) && CommitReady(k, intent, review, record, ids)
    requires AgendaGrown(k, AgendaAfterCommit(k, intent, review, record, ids), intent, review, record)
    ensures AuditClean(Commit(k, intent, review, record, ids))
  {
    var n := Commit(k, intent, review, record, ids);
    var before, goals := EvidenceIds(k.evidence), GoalIds(n.goals);
    EvidenceIdsGrow(k.evidence, record);
    SameGoalIds(k.goals, n.goals);
    var after := EvidenceIds(n.evidence);
    forall x | x in n.evidence ensures EvidenceRefs(x, after, goals) {
      if x in k.evidence {
        assert EvidenceRefs(x, before, GoalIds(k.goals));
      } else {
        assert x == record;
      }
    }
    RelationsAfterCommitContents(k, intent, review, record);
    forall r | r in n.relations ensures RelationRefs(r, after) {
      if r in k.relations {
        assert RelationRefs(r, before);
      }
    }
    CommitTaskRefs(k, n.agenda, intent, review, record, goals);
  }

  lemma CompletionResolves(k: Knowledge, intent: Intent, review: CriticReview, record: EvidenceRecord, t: AgendaTask)
    requires ValidTask(t) && t.kind == ResolveContradiction && ResolvesSources(t, review)
    requires record.evidenceId !in t.sources
    ensures ResolvedPair(RelationsAfterCommit(k, intent, review, record), ToSet(t.sources))
  {
    var relations, e := RelationsAfterCommit(k, intent, review, record), record.evidenceId;
    RelationsAfterCommitContents(k, intent, review, record);
    if x :| x in t.sources && x in review.supersedes {
      assert Relation(e, x, Supersedes) in relations;
      assert Superseded(relations, x);
      assert x in ToSet(t.sources);
    } else {
      forall x | x in ToSet(t.sources) ensures Relation(e, x, Reconciles) in relations {
        assert x in review.reconciles;
      }
      assert t.sources[0] in ToSet(t.sources);
      assert Relation(e, t.sources[0], Reconciles) in relations;
      assert ReconciledBy(relations, e, ToSet(t.sources));
    }
  }

  lemma CommitJudgedCovers(k: Knowledge, intent: Intent, review: CriticReview, record: EvidenceRecord, t: AgendaTask,
                           u: AgendaTask)
    requires KnowledgeOk(k) && record.evidenceId !in EvidenceIds(k.evidence)
    requires t in k.agenda && t.kind == ResolveContradiction && JudgedOk(k.evidence, t, u, intent, review, record)
    ensures Contradicted(RelationsAfterCommit(k, intent, review, record), ToSet(u.sources))
    ensures u.status == Completed ==> ResolvedPair(RelationsAfterCommit(k, intent, review, record), ToSet(u.sources))
  {
    var relations := RelationsAfterCommit(k, intent, review, record);
    RelationsAfterCommitContents(k, intent, review, record);
    assert Contradicted(k.relations, ToSet(t.sources));
    var r :| r in k.relations && r.kind == Contradicts && {r.source, r.target} == ToSet(t.sources);
    assert r in relations;
    if t.status == Completed {
      ResolvedPairPersists(k.relations, relations, ToSet(t.sources));
    } else if u.status == Completed {
      assert TaskRefs(t, EvidenceIds(k.evidence), GoalIds(k.goals));
      CompletionResolves(k, intent, review, record, t);
    }
  }

  lemma CommitKeepsConflictTasks(k: Knowledge, b: seq<AgendaTask>, intent: Intent, review: CriticReview,
                                 record: EvidenceRecord)
    requires Covers(k.agenda, k.relations) && AgendaGrown(k, b, intent, review, record)
    ensures forall r :: r in RelationsAfterCommit(k, intent, review, record) && r.kind == Contradicts
              ==> HasConflictTask(b, {r.source, r.target})
  {
    RelationsAfterCommitContents(k, intent, review, record);
    forall r | r in RelationsAfterCommit(k, intent, review, record) && r.kind == Contradicts
      ensures HasConflictTask(b, {r.source, r.target})
    {
      if r in k.relations {
        assert HasConflictTask(k.agenda, {r.source, r.target});
        var t :| t in k.agenda && t.kind == ResolveContradiction && ToSet(t.sources) == {r.source, r.target};
        var i :| 0 <= i < |k.agenda| && k.agenda[i] == t;
        assert JudgedOk(k.evidence, k.agenda[i], b[i], intent, review, record) && b[i] in b;
      }
    }
  }

  /** Both writers of a commit agree: the agenda still covers the contradictions of the relation graph. */
  lemma CommitCovers(k: Knowledge, b: seq<AgendaTask>, intent: Intent, review: CriticReview, record: EvidenceRecord)
    requires KnowledgeOk(k) && record.evidenceId !in EvidenceIds(k.evidence)
      && AgendaGrown(k, b, intent, review, record)
    ensures Covers(b, RelationsAfterCommit(k, intent, review, record))
  {
    var relations := RelationsAfterCommit(k, intent, review, record);
    CommitKeepsConflictTasks(k, b, intent, review, record);
    forall t | t in b && t.kind == ResolveContradiction
      ensures Contradicted(relations, ToSet(t.sources))
      ensures t.status == Completed ==> ResolvedPair(relations, ToSet(t.sources))
    {
      var i :| 0 <= i < |b| && b[i] == t;
      if i < |k.agenda| {
        assert JudgedOk(k.evidence, k.agenda[i], b[i], intent, review, record);
        CommitJudgedCovers(k, intent, review, record, k.agenda[i], t);
      } else {
        assert CreatedOk(b[i], intent, review, record);
        var x :| IsConflictWith(t, review, record, x);
        PairToSet(record.evidenceId, x);
        RelationsAfterCommitContents(k, intent, review, record);
        assert Relation(record.evidenceId, x, Contradicts) in relations;
      }
    }
  }

  lemma CommitCoverage(k: Knowledge, record: EvidenceRecord, key: Signature)
    requires CoverageOk(k.coverage, k.evidence) && key !in k.coverage.testedKeys
    ensures CoverageOk(RecordedCoverage(k.coverage, record.columnsUsed, key), k.evidence + [record])
  {
    var after := k.evidence + [record];
    assert after[..|after| - 1] == k.evidence;
    forall c {
      UsesAreCounted(k.coverage.columnUsage, record.columnsUsed, c);
    }
  }

  /** Committing an accepted review keeps every part of the knowledge invariant. */
  lemma CommitKeepsKnowledge(k: Knowledge, intent: Intent, review: CriticReview, record: EvidenceRecord,
                             ids: seq<TaskId>)
    requires KnowledgeOk(k) && CommitReady(k, intent, review, record, ids)
    ensures var n := Commit(k, intent, review, record, ids);
      KnowledgeOk(n) && AgendaEvolves(k.agenda, n.agenda) && NothingInProgress(n.agenda)
  {
    var n := Commit(k, intent, review, record, ids);
    CommitGrowsAgenda(k, intent, review, record, ids);
    CommitSeparatesTasks(k, intent, review, record, ids);
    CommitAgenda(k, n.agenda, intent, review, record);
    CommitAudit(k, intent, review, record, ids);
    CommitCovers(k, n.agenda, intent, review, record);
    CommitCoverage(k, record, DedupeKey(intent));
    RelationsAfterCommitContents(k, intent, review, record);
    forall i, j | 0 <= i < j < |n.evidence| ensures n.evidence[i].evidenceId != n.evidence[j].evidenceId {
      if j == |k.evidence| {
        assert n.evidence[i] in k.evidence;
      }
    }
  }
}
