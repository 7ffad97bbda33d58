/** What an accepted evidence record does to the agenda: existing tasks are judged, then the review's
    questions, revalidation requests and contradictions become tasks, each at most once. */
module ReviewAgenda {
  import opened Contracts
  import opened RunState
  import opened ReviewEvidence

  // ---------------------------------------------------------------- judging existing tasks

  predicate Selected(t: AgendaTask, intent: Intent) {
    intent.taskId == Some(t.taskId)
  }

  /** One source superseded, or every source reconciled, by this review. */
  predicate ResolvesSources(t: AgendaTask, review: CriticReview) {
    || (exists x | x in t.sources :: x in review.supersedes)
    || (forall x | x in t.sources :: x in review.reconciles)
  }

  predicate RevalidatesSources(t: AgendaTask, review: CriticReview) {
    forall x | x in t.sources :: x in review.revalidates
  }

  predicate ShouldComplete(evidence: seq<EvidenceRecord>, t: AgendaTask, intent: Intent, review: CriticReview,
                           record: EvidenceRecord)
  {
    match t.kind
    case FollowUp => Selected(t, intent)
    case ResolveContradiction => ResolvesSources(t, review)
    case Revalidate =>
      Selected(t, intent) && RevalidatesSources(t, review) && ConditionsChanged(evidence, t.sources, record)
  }

  const UNRESOLVED_REASON := "accepted evidence did not resolve contradiction"
  const UNCHANGED_REASON := "critic marked revalidation, but method/protocol/data/transform conditions did not change"
  const NOT_REVALIDATED_REASON := "accepted evidence did not explicitly revalidate source evidence"

  function Judge(evidence: seq<EvidenceRecord>, t: AgendaTask, intent: Intent, review: CriticReview,
                 record: EvidenceRecord): AgendaTask
  {
    if ShouldComplete(evidence, t, intent, review, record) && t.status != Completed then
      t.(status := Completed, selected := Some(intent.intentId),
         completion := Some(record.evidenceId), reason := Strip(review.claim))
    else if Selected(t, intent) && t.kind != FollowUp then
      t.(status := Pending, selected := None,
         reason := if t.kind == ResolveContradiction then UNRESOLVED_REASON
                   else if RevalidatesSources(t, review) then UNCHANGED_REASON
                   else NOT_REVALIDATED_REASON)
    else t
  }

  function Judged(evidence: seq<EvidenceRecord>, agenda: seq<AgendaTask>, intent: Intent, review: CriticReview,
                  record: EvidenceRecord): (r: seq<AgendaTask>)
    ensures |r| == |agenda|
  {
    seq(|agenda|, i requires 0 <= i < |agenda| => Judge(evidence, agenda[i], intent, review, record))
  }

  // ---------------------------------------------------------------- creating tasks

  const CONFLICT_QUESTION := "resolve the contradiction between the two cited records"

  /** The key that deduplicates tasks of one kind. */
  predicate SameKey(u: AgendaTask, t: AgendaTask) {
    if t.kind == ResolveContradiction then ToSet(u.sources) == ToSet(t.sources)
    else u.goalId == t.goalId && Normalized(u.question) == Normalized(t.question)
  }

  predicate Matches(u: AgendaTask, t: AgendaTask) {
    u.status != Completed && u.kind == t.kind && SameKey(u, t)
  }

  predicate Blocked(tasks: seq<AgendaTask>, t: AgendaTask) {
    exists u | u in tasks :: Matches(u, t)
  }

  predicate Requested(review: CriticReview, key: string) {
    exists q | q in review.revalidationRequired :: !Blank(q) && Normalized(q) == key
  }

  function NewTask(kind: TaskKind, goalId: Option<GoalId>, question: string, priority: int, sources: seq<EvidenceId>,
                   id: TaskId): AgendaTask
  {
    AgendaTask(id, kind, goalId, question, priority, sources, Pending, None, 0, None, "")
  }

  function FollowUpCandidate(intent: Intent, review: CriticReview, record: EvidenceRecord, q: string,
                             id: TaskId): Option<AgendaTask>
  {
    if Blank(q) || Requested(review, Normalized(Strip(q))) then None
    else Some(NewTask(FollowUp, intent.goalId, Strip(q), 70, [record.evidenceId], id))
  }

  function RevalidateCandidate(intent: Intent, record: EvidenceRecord, q: string, id: TaskId): Option<AgendaTask> {
    if Blank(q) then None
    else Some(NewTask(Revalidate, intent.goalId, Strip(q), 80, [record.evidenceId], id))
  }

  function ConflictCandidate(intent: Intent, record: EvidenceRecord, target: EvidenceId, id: TaskId): Option<AgendaTask>
  {
    if target == record.evidenceId then None
    else Some(NewTask(ResolveContradiction, intent.goalId, CONFLICT_QUESTION, 90, [record.evidenceId, target], id))
  }

  function CandidateCount(review: CriticReview): nat {
    |review.openQuestions| + |review.revalidationRequired| + |review.contradicts|
  }

  /** One optional task per question, request and contradiction, in that order, drawing fresh ids. */
  function Candidates(intent: Intent, review: CriticReview, record: EvidenceRecord,
                      ids: seq<TaskId>): (r: seq<Option<AgendaTask>>)
    requires CandidateCount(review) == |ids|
    ensures |r| == CandidateCount(review)
  {
    var a, b, c := |review.openQuestions|, |review.revalidationRequired|, |review.contradicts|;
    seq(a + b + c, i requires 0 <= i < a + b + c =>
      if i < a then FollowUpCandidate(intent, review, record, review.openQuestions[i], ids[i])
      else if i < a + b then RevalidateCandidate(intent, record, review.revalidationRequired[i - a], ids[i])
      else ConflictCandidate(intent, record, review.contradicts[i - a - b], ids[i]))
  }

  /** The tasks after the first `n` candidates: a candidate whose key is already waiting is dropped. */
  function AddTasks(base: seq<AgendaTask>, candidates: seq<Option<AgendaTask>>, n: nat): seq<AgendaTask>
    requires n <= |candidates|
  {
    if n == 0 then base
    else
      var grown := AddTasks(base, candidates, n - 1);
      var c := candidates[n - 1];
      if c.None? || Blocked(grown, c.value) then grown else grown + [c.value]
  }

  function AgendaAfterCommit(k: Knowledge, intent: Intent, review: CriticReview, record: EvidenceRecord,
                             ids: seq<TaskId>): seq<AgendaTask>
    requires CandidateCount(review) == |ids|
  {
    var judged := Judged(k.evidence, k.agenda, intent, review, record);
    AddTasks(judged, Candidates(intent, review, record, ids), CandidateCount(review))
  }

  // ---------------------------------------------------------------- facts about creation

  /** Creation appends; what it appends are candidates that nothing before them matches. */
  lemma {:induction false} AddTasksAppends(base: seq<AgendaTask>, candidates: seq<Option<AgendaTask>>, n: nat)
    requires n <= |candidates|
    ensures base <= AddTasks(base, candidates, n)
    ensures forall i :: |base| <= i < |AddTasks(base, candidates, n)| ==>
      Some(AddTasks(base, candidates, n)[i]) in candidates[..n]
    ensures forall i, j :: 0 <= i < j && |base| <= j < |AddTasks(base, candidates, n)|
              ==> !Matches(AddTasks(base, candidates, n)[i], AddTasks(base, candidates, n)[j])
  {
    if n > 0 {
      AddTasksAppends(base, candidates, n - 1);
      assert candidates[..n] == candidates[..n - 1] + [candidates[n - 1]];
    }
  }

  lemma BlockedStays(tasks: seq<AgendaTask>, more: seq<AgendaTask>, t: AgendaTask)
    requires Blocked(tasks, t) && tasks <= more
    ensures Blocked(more, t)
  {
    var u :| u in tasks && Matches(u, t);
    assert u in more;
  }

  /** Every candidate ends up matched by some waiting task. */
  lemma {:induction false} AddTasksCover(base: seq<AgendaTask>, candidates: seq<Option<AgendaTask>>, n: nat, m: nat)
    requires m < n <= |candidates| && candidates[m].Some? && candidates[m].value.status == Pending
    ensures Blocked(AddTasks(base, candidates, n), candidates[m].value)
  {
    var grown, after, t := AddTasks(base, candidates, n - 1), AddTasks(base, candidates, n), candidates[m].value;
    assert grown <= after;
    if m < n - 1 {
      AddTasksCover(base, candidates, n - 1, m);
      BlockedStays(grown, after, t);
    } else if Blocked(grown, t) {
      BlockedStays(grown, after, t);
    } else {
      assert t in after && Matches(t, t);
    }
  }

  /** Both facts together. */
  lemma AddTasksContents(base: seq<AgendaTask>, candidates: seq<Option<AgendaTask>>, n: nat)
    requires n <= |candidates|
    requires forall c :: c in candidates && c.Some? ==> c.value.status == Pending
    ensures base <= AddTasks(base, candidates, n)
    ensures forall i :: |base| <= i < |AddTasks(base, candidates, n)| ==>
      Some(AddTasks(base, candidates, n)[i]) in candidates[..n]
    ensures forall i, j :: 0 <= i < j && |base| <= j < |AddTasks(base, candidates, n)|
              ==> !Matches(AddTasks(base, candidates, n)[i], AddTasks(base, candidates, n)[j])
    ensures forall m :: 0 <= m < n && candidates[m].Some? ==>
      Blocked(AddTasks(base, candidates, n), candidates[m].value)
  {
    AddTasksAppends(base, candidates, n);
    forall m | 0 <= m < n && candidates[m].Some? ensures Blocked(AddTasks(base, candidates, n), candidates[m].value) {
      assert candidates[m] in candidates;
      AddTasksCover(base, candidates, n, m);
    }
  }

  ghost predicate DistinctIds(tasks: seq<AgendaTask>) {
    forall i, j :: 0 <= i < j < |tasks| ==> tasks[i].taskId != tasks[j].taskId
  }

  /** `ids` are new: pairwise distinct and unused by any task. */
  ghost predicate FreshIds(ids: seq<TaskId>, tasks: seq<AgendaTask>) {
    && (forall i, j :: 0 <= i < j < |ids| ==> ids[i] != ids[j])
    && (forall i, t :: 0 <= i < |ids| && t in tasks ==> t.taskId != ids[i])
  }

  lemma {:induction false} AddTasksDistinct(base: seq<AgendaTask>, candidates: seq<Option<AgendaTask>>,
                                            ids: seq<TaskId>, n: nat)
    requires n <= |candidates| <= |ids|
    requires forall m :: 0 <= m < |candidates| && candidates[m].Some? ==> candidates[m].value.taskId == ids[m]
    requires DistinctIds(base) && FreshIds(ids, base)
    ensures DistinctIds(AddTasks(base, candidates, n))
    ensures forall t :: t in AddTasks(base, candidates, n) ==> t in base || t.taskId in ids[..n]
  {
    if n > 0 {
      AddTasksDistinct(base, candidates, ids, n - 1);
      assert ids[..n] == ids[..n - 1] + [ids[n - 1]];
      var grown := AddTasks(base, candidates, n - 1);
      forall i | 0 <= i < |grown| ensures grown[i].taskId != ids[n - 1] {
        assert grown[i] in grown;
      }
    }
  }

  // ---------------------------------------------------------------- what judging does, on fields

  /** A waiting task that the commit completes, by kind. */
  ghost predicate NewlyDone(evidence: seq<EvidenceRecord>, t: AgendaTask, intent: Intent, review: CriticReview,
                            record: EvidenceRecord)
  {
    t.status != Completed &&
    match t.kind
    case FollowUp => intent.taskId == Some(t.taskId)
    case ResolveContradiction =>
      || (exists x :: x in t.sources && x in review.supersedes)
      || (forall x :: x in t.sources ==> x in review.reconciles)
    case Revalidate =>
      && intent.taskId == Some(t.taskId)
      && (forall x :: x in t.sources ==> x in review.revalidates)
      && ChangedFrom(evidence, t.sources, record)
  }

  /** How one stored task stands after the commit: completed by the new record, handed back with the reason, or
      as it was. */
  ghost predicate JudgedTask(evidence: seq<EvidenceRecord>, t: AgendaTask, u: AgendaTask, intent: Intent,
                             review: CriticReview, record: EvidenceRecord)
  {
    if NewlyDone(evidence, t, intent, review, record) then
      u == t.(status := Completed, selected := Some(intent.intentId), completion := Some(record.evidenceId),
              reason := Strip(review.claim))
    else if intent.taskId == Some(t.taskId) && t.kind == ResolveContradiction then
      u == t.(status := Pending, selected := None, reason := UNRESOLVED_REASON)
    else if intent.taskId == Some(t.taskId) && t.kind == Revalidate then
      u == t.(status := Pending, selected := None,
              reason := if forall x :: x in t.sources ==> x in review.revalidates then UNCHANGED_REASON
                        else NOT_REVALIDATED_REASON)
    else u == t
  }

  lemma ShouldCompleteIff(evidence: seq<EvidenceRecord>, t: AgendaTask, intent: Intent, review: CriticReview,
                          record: EvidenceRecord)
    ensures ShouldComplete(evidence, t, intent, review, record) && t.status != Completed
      <==> NewlyDone(evidence, t, intent, review, record)
  {
    ConditionsChangedIff(evidence, t.sources, record);
  }

  lemma JudgeIsJudged(evidence: seq<EvidenceRecord>, t: AgendaTask, intent: Intent, review: CriticReview,
                      record: EvidenceRecord)
    ensures JudgedTask(evidence, t, Judge(evidence, t, intent, review, record), intent, review, record)
  {
    ShouldCompleteIff(evidence, t, intent, review, record);
  }

  ghost predicate TasksJudged(k: Knowledge, judged: seq<AgendaTask>, intent: Intent, review: CriticReview,
                              record: EvidenceRecord)
  {
    |k.agenda| <= |judged| &&
    forall i :: 0 <= i < |k.agenda| ==> JudgedTask(k.evidence, k.agenda[i], judged[i], intent, review, record)
  }

  /** The selected task is completed by this commit. */
  ghost predicate SelectedDone(k: Knowledge, intent: Intent, review: CriticReview, record: EvidenceRecord) {
    exists t :: (t in k.agenda && intent.taskId == Some(t.taskId) && NewlyDone(k.evidence, t, intent, review, record))
  }

  lemma SelectedDoneIff(k: Knowledge, intent: Intent, review: CriticReview, record: EvidenceRecord)
    ensures CompletesSelected(k, k.agenda, intent, review, record) <==> SelectedDone(k, intent, review, record)
  {
    forall t | t in k.agenda
      ensures Completes(k, t, intent, review, record) <==>
        intent.taskId == Some(t.taskId) && NewlyDone(k.evidence, t, intent, review, record)
    {
      ShouldCompleteIff(k.evidence, t, intent, review, record);
    }
  }

  // ---------------------------------------------------------------- what creation does, on fields

  /** The words of two questions agree up to case. */
  predicate SameQuestion(a: string, b: string) {
    JoinLower(Words(a)) == JoinLower(Words(b))
  }

  lemma SameQuestionIff(a: string, b: string)
    ensures Normalized(a) == Normalized(b) <==> SameQuestion(a, b)
    ensures SameQuestion(Strip(a), a)
  {
    NormalizedJoinsWords(a);
    NormalizedJoinsWords(b);
    NormalizedJoinsWords(Strip(a));
    NormalizedOfStrip(a);
  }

  /** The review also asks for this question as a revalidation. */
  ghost predicate AlsoRevalidates(review: CriticReview, q: string) {
    exists r :: r in review.revalidationRequired && !AllSpace(r) && SameQuestion(r, q)
  }

  /** An open question that becomes a follow-up unless one like it waits. */
  ghost predicate Asks(review: CriticReview, q: string) {
    q in review.openQuestions && !AllSpace(q) && !AlsoRevalidates(review, q)
  }

  ghost predicate Demands(review: CriticReview, q: string) {
    q in review.revalidationRequired && !AllSpace(q)
  }

  predicate Disputes(review: CriticReview, record: EvidenceRecord, x: EvidenceId) {
    x in review.contradicts && x != record.evidenceId
  }

  predicate Unstarted(t: AgendaTask, intent: Intent) {
    && t.status == Pending && t.selected.None? && t.attempts == 0 && t.completion.None? && t.reason == ""
    && t.goalId == intent.goalId
  }

  /** A task the commit creates: from an open question, a revalidation request or a contradiction. */
  ghost predicate CreatedTask(t: AgendaTask, intent: Intent, review: CriticReview, record: EvidenceRecord) {
    Unstarted(t, intent) &&
    match t.kind
    case FollowUp =>
      t.priority == 70 && t.sources == [record.evidenceId] && exists q :: Asks(review, q) && t.question == Strip(q)
    case Revalidate =>
      t.priority == 80 && t.sources == [record.evidenceId] && exists q :: Demands(review, q) && t.question == Strip(q)
    case ResolveContradiction =>
      t.priority == 90 && exists x :: Disputes(review, record, x) && t.sources == [record.evidenceId, x]
  }

  /** A task of the kind waits for the question under the intent's goal. */
  ghost predicate QuestionWaits(tasks: seq<AgendaTask>, kind: TaskKind, goalId: Option<GoalId>, q: string) {
    exists u :: (u in tasks && u.status != Completed && u.kind == kind && u.goalId == goalId
                 && SameQuestion(u.question, q))
  }

  ghost predicate PairWaits(tasks: seq<AgendaTask>, a: EvidenceId, b: EvidenceId) {
    exists u :: (u in tasks && u.status != Completed && u.kind == ResolveContradiction && ToSet(u.sources) == {a, b})
  }

  /** Another task of its kind already waits for the same question and goal, or the same records. */
  predicate Repeats(u: AgendaTask, t: AgendaTask) {
    && u.status != Completed && u.kind == t.kind
    && (if t.kind == ResolveContradiction then ToSet(u.sources) == ToSet(t.sources)
        else u.goalId == t.goalId && SameQuestion(u.question, t.question))
  }

  /** The new tasks are wanted by the review and repeat nothing before them, and whatever the review wants waits. */
  ghost predicate TasksCreated(n: nat, tasks: seq<AgendaTask>, intent: Intent, review: CriticReview,
                               record: EvidenceRecord)
  {
    && n <= |tasks|
    && (forall i :: n <= i < |tasks| ==> CreatedTask(tasks[i], intent, review, record))
    && (forall i, j :: 0 <= i < j && n <= j < |tasks| ==> !Repeats(tasks[i], tasks[j]))
    && (forall q :: Asks(review, q) ==> QuestionWaits(tasks, FollowUp, intent.goalId, q))
    && (forall q :: Demands(review, q) ==> QuestionWaits(tasks, Revalidate, intent.goalId, q))
    && (forall x :: Disputes(review, record, x) ==> PairWaits(tasks, record.evidenceId, x))
  }

  lemma RepeatsIff(u: AgendaTask, t: AgendaTask)
    ensures Matches(u, t) <==> Repeats(u, t)
  {
    SameQuestionIff(u.question, t.question);
  }

  lemma RequestedIff(review: CriticReview, q: string)
    ensures Requested(review, Normalized(Strip(q))) <==> AlsoRevalidates(review, q)
  {
    NormalizedOfStrip(q);
    forall r | r in review.revalidationRequired
      ensures !Blank(r) && Normalized(r) == Normalized(Strip(q)) <==> !AllSpace(r) && SameQuestion(r, q)
    {
      BlankIff(r);
      SameQuestionIff(r, q);
    }
  }

  lemma CandidateIsWanted(intent: Intent, review: CriticReview, record: EvidenceRecord, ids: seq<TaskId>, m: nat)
    requires CandidateCount(review) == |ids| && m < |ids| && Candidates(intent, review, record, ids)[m].Some?
    ensures CreatedTask(Candidates(intent, review, record, ids)[m].value, intent, review, record)
  {
    var a, b := |review.openQuestions|, |review.revalidationRequired|;
    if m < a {
      BlankIff(review.openQuestions[m]);
      RequestedIff(review, review.openQuestions[m]);
      assert Asks(review, review.openQuestions[m]);
    } else if m < a + b {
      BlankIff(review.revalidationRequired[m - a]);
      assert Demands(review, review.revalidationRequired[m - a]);
    } else {
      assert Disputes(review, record, review.contradicts[m - a - b]);
    }
  }

  lemma AskedIsCandidate(intent: Intent, review: CriticReview, record: EvidenceRecord, ids: seq<TaskId>, q: string)
    returns (m: nat)
    requires CandidateCount(review) == |ids| && Asks(review, q)
    ensures m < |ids| && Candidates(intent, review, record, ids)[m]
      == Some(NewTask(FollowUp, intent.goalId, Strip(q), 70, [record.evidenceId], ids[m]))
  {
    m :| 0 <= m < |review.openQuestions| && review.openQuestions[m] == q;
    BlankIff(q);
    RequestedIff(review, q);
  }

  lemma DemandedIsCandidate(intent: Intent, review: CriticReview, record: EvidenceRecord, ids: seq<TaskId>, q: string)
    returns (m: nat)
    requires CandidateCount(review) == |ids| && Demands(review, q)
    ensures m < |ids| && Candidates(intent, review, record, ids)[m]
      == Some(NewTask(Revalidate, intent.goalId, Strip(q), 80, [record.evidenceId], ids[m]))
  {
    var i :| 0 <= i < |review.revalidationRequired| && review.revalidationRequired[i] == q;
    m := |review.openQuestions| + i;
    BlankIff(q);
  }

  lemma DisputedIsCandidate(intent: Intent, review: CriticReview, record: EvidenceRecord, ids: seq<TaskId>,
                            x: EvidenceId)
    returns (m: nat)
    requires CandidateCount(review) == |ids| && Disputes(review, record, x)
    ensures m < |ids| && Candidates(intent, review, record, ids)[m]
      == Some(NewTask(ResolveContradiction, intent.goalId, CONFLICT_QUESTION, 90, [record.evidenceId, x], ids[m]))
  {
    var i :| 0 <= i < |review.contradicts| && review.contradicts[i] == x;
    m := |review.openQuestions| + |review.revalidationRequired| + i;
  }

  lemma BlockedQuestionWaits(tasks: seq<AgendaTask>, t: AgendaTask, q: string)
    requires Blocked(tasks, t) && t.kind != ResolveContradiction && t.question == Strip(q)
    ensures QuestionWaits(tasks, t.kind, t.goalId, q)
  {
    var u :| u in tasks && Matches(u, t);
    SameQuestionIff(u.question, t.question);
    SameQuestionIff(q, q);
  }

  lemma BlockedPairWaits(tasks: seq<AgendaTask>, t: AgendaTask, a: EvidenceId, b: EvidenceId)
    requires Blocked(tasks, t) && t.kind == ResolveContradiction && t.sources == [a, b]
    ensures PairWaits(tasks, a, b)
  {
    var u :| u in tasks && Matches(u, t);
    assert ToSet(t.sources) == {a, b};
  }

  /** Creation on fields, from what is known of candidates. */
  lemma CreationMeaning(base: seq<AgendaTask>, intent: Intent, review: CriticReview, record: EvidenceRecord,
                        ids: seq<TaskId>)
    requires CandidateCount(review) == |ids|
    ensures base <= AddTasks(base, Candidates(intent, review, record, ids), |ids|)
    ensures TasksCreated(|base|, AddTasks(base, Candidates(intent, review, record, ids), |ids|), intent, review, record)
  {
    var cs := Candidates(intent, review, record, ids);
    var tasks := AddTasks(base, cs, |ids|);
    forall m | 0 <= m < |cs| && cs[m].Some? ensures CreatedTask(cs[m].value, intent, review, record) {
      CandidateIsWanted(intent, review, record, ids, m);
    }
    AddTasksContents(base, cs, |ids|);
    forall i | |base| <= i < |tasks| ensures CreatedTask(tasks[i], intent, review, record) {
      assert Some(tasks[i]) in cs[..|ids|];
    }
    forall i, j | 0 <= i < j && |base| <= j < |tasks| ensures !Repeats(tasks[i], tasks[j]) {
      RepeatsIff(tasks[i], tasks[j]);
    }
    WantedWaits(tasks, intent, review, record, ids);
  }

  lemma WantedWaits(tasks: seq<AgendaTask>, intent: Intent, review: CriticReview, record: EvidenceRecord,
                    ids: seq<TaskId>)
    requires CandidateCount(review) == |ids|
    requires var cs := Candidates(intent, review, record, ids);
      forall m :: 0 <= m < |ids| && cs[m].Some? ==> Blocked(tasks, cs[m].value)
    ensures forall q :: Asks(review, q) ==> QuestionWaits(tasks, FollowUp, intent.goalId, q)
    ensures forall q :: Demands(review, q) ==> QuestionWaits(tasks, Revalidate, intent.goalId, q)
    ensures forall x :: Disputes(review, record, x) ==> PairWaits(tasks, record.evidenceId, x)
  {
    var cs := Candidates(intent, review, record, ids);
    forall q | Asks(review, q) ensures QuestionWaits(tasks, FollowUp, intent.goalId, q) {
      var m := AskedIsCandidate(intent, review, record, ids, q);
      BlockedQuestionWaits(tasks, cs[m].value, q);
    }
    forall q | Demands(review, q) ensures QuestionWaits(tasks, Revalidate, intent.goalId, q) {
      var m := DemandedIsCandidate(intent, review, record, ids, q);
      BlockedQuestionWaits(tasks, cs[m].value, q);
    }
    forall x | Disputes(review, record, x) ensures PairWaits(tasks, record.evidenceId, x) {
      var m := DisputedIsCandidate(intent, review, record, ids, x);
      BlockedPairWaits(tasks, cs[m].value, record.evidenceId, x);
    }
  }

  /** What a commit does to the agenda: every stored task is judged by its kind, and the review's questions,
      requests and contradictions end up waiting, each once. */
  lemma AgendaAfterCommitMeaning(k: Knowledge, intent: Intent, review: CriticReview, record: EvidenceRecord,
                                 ids: seq<TaskId>)
    requires CandidateCount(review) == |ids|
    ensures TasksJudged(k, AgendaAfterCommit(k, intent, review, record, ids), intent, review, record)
    ensures TasksCreated(|k.agenda|, AgendaAfterCommit(k, intent, review, record, ids), intent, review, record)
  {
    var judged := Judged(k.evidence, k.agenda, intent, review, record);
    forall i | 0 <= i < |judged| ensures JudgedTask(k.evidence, k.agenda[i], judged[i], intent, review, record) {
      JudgeIsJudged(k.evidence, k.agenda[i], intent, review, record);
    }
    CreationMeaning(judged, intent, review, record, ids);
  }

  // ---------------------------------------------------------------- the loop

  function FollowUpKeys(tasks: seq<AgendaTask>, kind: TaskKind): set<(Option<GoalId>, string)> {
    set t | t in tasks && t.status != Completed && t.kind == kind :: (t.goalId, Normalized(t.question))
  }

  function ConflictKeys(tasks: seq<AgendaTask>): set<set<EvidenceId>> {
    set t | t in tasks && t.status != Completed && t.kind == ResolveContradiction :: ToSet(t.sources)
  }

  lemma QuestionKeysBlock(tasks: seq<AgendaTask>, t: AgendaTask)
    requires t.kind != ResolveContradiction
    ensures (t.goalId, Normalized(t.question)) in FollowUpKeys(tasks, t.kind) <==> Blocked(tasks, t)
  {
  }

  lemma ConflictKeysBlock(tasks: seq<AgendaTask>, t: AgendaTask)
    requires t.kind == ResolveContradiction
    ensures ToSet(t.sources) in ConflictKeys(tasks) <==> Blocked(tasks, t)
  {
  }

  lemma KeysGrow(tasks: seq<AgendaTask>, t: AgendaTask)
    requires t.status == Pending
    ensures t.kind != ResolveContradiction ==>
      FollowUpKeys(tasks + [t], t.kind) == FollowUpKeys(tasks, t.kind) + {(t.goalId, Normalized(t.question))}
    ensures t.kind == ResolveContradiction ==> ConflictKeys(tasks + [t]) == ConflictKeys(tasks) + {ToSet(t.sources)}
  {
  }

  ghost predicate CompletesSelected(k: Knowledge, tasks: seq<AgendaTask>, intent: Intent, review: CriticReview,
                                    record: EvidenceRecord)
  {
    exists t :: t in tasks && Completes(k, t, intent, review, record)
  }

  predicate Completes(k: Knowledge, t: AgendaTask, intent: Intent, review: CriticReview, record: EvidenceRecord) {
    Selected(t, intent) && t.status != Completed && ShouldComplete(k.evidence, t, intent, review, record)
  }

  lemma CompletesSelectedGrows(k: Knowledge, tasks: seq<AgendaTask>, t: AgendaTask, intent: Intent,
                               review: CriticReview, record: EvidenceRecord)
    ensures CompletesSelected(k, tasks + [t], intent, review, record)
      <==> CompletesSelected(k, tasks, intent, review, record) || Completes(k, t, intent, review, record)
  {
    if u :| u in tasks && Completes(k, u, intent, review, record) {
      assert u in tasks + [t];
    }
    if Completes(k, t, intent, review, record) {
      assert t in tasks + [t];
    }
  }

  /** One task of the first pass, and whether this review completes it as the selected task. */
  method JudgeTask(k: Knowledge, task: AgendaTask, intent: Intent, review: CriticReview, record: EvidenceRecord)
    returns (item: AgendaTask, completed: bool)
    ensures item == Judge(k.evidence, task, intent, review, record)
    ensures completed == Completes(k, task, intent, review, record)
    ensures completed ==> Some(item.taskId) == intent.taskId
  {
    item, completed := task, false;
    var selected := Selected(item, intent);
    var should := ShouldComplete(k.evidence, item, intent, review, record);
    if should && item.status != Completed {
      item := item.(status := Completed, selected := Some(intent.intentId),
                    completion := Some(record.evidenceId), reason := Strip(review.claim));
      completed := selected;
    } else if selected && item.kind != FollowUp {
      var reason := if item.kind == ResolveContradiction then UNRESOLVED_REASON
                    else if RevalidatesSources(item, review) then UNCHANGED_REASON
                    else NOT_REVALIDATED_REASON;
      item := item.(status := Pending, selected := None, reason := reason);
    }
  }

  /** The first pass of `agenda_after_commit`, with the id of the selected task it completed. */
  method JudgeAgenda(k: Knowledge, intent: Intent, review: CriticReview, record: EvidenceRecord)
    returns (updated: seq<AgendaTask>, completedId: Option<TaskId>)
    ensures updated == Judged(k.evidence, k.agenda, intent, review, record)
    ensures |updated| == |k.agenda| && TasksJudged(k, updated, intent, review, record)
    ensures completedId == if SelectedDone(k, intent, review, record) then intent.taskId else None
  {
    updated, completedId := [], None;
    for i := 0 to |k.agenda|
      invariant |updated| == i
      invariant forall j :: 0 <= j < i ==> updated[j] == Judge(k.evidence, k.agenda[j], intent, review, record)
      invariant completedId.Some? <==> CompletesSelected(k, k.agenda[..i], intent, review, record)
      invariant completedId.Some? ==> completedId == intent.taskId
    {
      assert k.agenda[..i + 1] == k.agenda[..i] + [k.agenda[i]];
      CompletesSelectedGrows(k, k.agenda[..i], k.agenda[i], intent, review, record);
      var item, completed := JudgeTask(k, k.agenda[i], intent, review, record);
      if completed {
        completedId := Some(item.taskId);
      }
      updated := updated + [item];
    }
    assert k.agenda[..|k.agenda|] == k.agenda;
    forall i | 0 <= i < |updated| ensures JudgedTask(k.evidence, k.agenda[i], updated[i], intent, review, record) {
      JudgeIsJudged(k.evidence, k.agenda[i], intent, review, record);
    }
    SelectedDoneIff(k, intent, review, record);
  }

  /** The follow-up pass; `cs` lists the candidates of all three passes. */
  method AddFollowUps(judged: seq<AgendaTask>, ghost cs: seq<Option<AgendaTask>>, intent: Intent, review: CriticReview,
                      record: EvidenceRecord, ids: seq<TaskId>)
    returns (created: seq<AgendaTask>)
    requires |review.openQuestions| <= |cs| <= |ids|
    requires FollowUpPass(cs, intent, review, record, ids)
    ensures judged + created == AddTasks(judged, cs, |review.openQuestions|)
  {
    created := [];
    var waiting := FollowUpKeys(judged, FollowUp);
    for i := 0 to |review.openQuestions|
      invariant judged + created == AddTasks(judged, cs, i)
      invariant waiting == FollowUpKeys(judged + created, FollowUp)
    {
      ghost var updated := judged + created;
      var question := Strip(review.openQuestions[i]);
      var key := (intent.goalId, Normalized(question));
      assert FollowsUpAt(cs, i, intent, review, record, review.openQuestions[i], ids);
      if question != "" && !Requested(review, Normalized(question)) {
        var task := NewTask(FollowUp, intent.goalId, question, 70, [record.evidenceId], ids[i]);
        assert cs[i] == Some(task);
        QuestionKeysBlock(updated, task);
        if key !in waiting {
          KeysGrow(updated, task);
          assert judged + (created + [task]) == updated + [task];
          created, waiting := created + [task], waiting + {key};
        }
      }
    }
  }

  /** The revalidation pass. */
  method AddRevalidations(ghost judged: seq<AgendaTask>, current: seq<AgendaTask>, ghost cs: seq<Option<AgendaTask>>,
                          a: nat,
                          intent: Intent, review: CriticReview, record: EvidenceRecord, ids: seq<TaskId>)
    returns (created: seq<AgendaTask>)
    requires a + |review.revalidationRequired| <= |cs| <= |ids|
    requires RevalidatePass(cs, a, intent, review, record, ids)
    requires current == AddTasks(judged, cs, a)
    ensures current + created == AddTasks(judged, cs, a + |review.revalidationRequired|)
  {
    created := [];
    var waiting := FollowUpKeys(current, Revalidate);
    for i := 0 to |review.revalidationRequired|
      invariant current + created == AddTasks(judged, cs, a + i)
      invariant waiting == FollowUpKeys(current + created, Revalidate)
    {
      ghost var updated := current + created;
      var question := Strip(review.revalidationRequired[i]);
      var key := (intent.goalId, Normalized(question));
      if question != "" {
        var task := NewTask(Revalidate, intent.goalId, question, 80, [record.evidenceId], ids[a + i]);
        assert RevalidatesAt(cs, a + i, intent, record, review.revalidationRequired[i], ids);
        assert cs[a + i] == Some(task);
        QuestionKeysBlock(updated, task);
        if key !in waiting {
          KeysGrow(updated, task);
          assert current + (created + [task]) == updated + [task];
          created, waiting := created + [task], waiting + {key};
        }
      }
    }
  }

  /** The contradiction pass. */
  method AddConflicts(ghost judged: seq<AgendaTask>, current: seq<AgendaTask>, ghost cs: seq<Option<AgendaTask>>,
                      ab: nat,
                      intent: Intent, review: CriticReview, record: EvidenceRecord, ids: seq<TaskId>)
    returns (created: seq<AgendaTask>)
    requires ab + |review.contradicts| <= |cs| <= |ids|
    requires ConflictPass(cs, ab, intent, review, record, ids)
    requires current == AddTasks(judged, cs, ab)
    ensures current + created == AddTasks(judged, cs, ab + |review.contradicts|)
  {
    created := [];
    var waiting := ConflictKeys(current);
    for i := 0 to |review.contradicts|
      invariant current + created == AddTasks(judged, cs, ab + i)
      invariant waiting == ConflictKeys(current + created)
    {
      ghost var updated := current + created;
      var target := review.contradicts[i];
      if target != record.evidenceId {
        var task := NewTask(ResolveContradiction, intent.goalId, CONFLICT_QUESTION, 90, [record.evidenceId, target],
          ids[ab + i]);
        assert cs[ab + i] == Some(task);
        ConflictKeysBlock(updated, task);
        if ToSet(task.sources) !in waiting {
          KeysGrow(updated, task);
          assert current + (created + [task]) == updated + [task];
          created, waiting := created + [task], waiting + {ToSet(task.sources)};
        }
      }
    }
  }

  ghost predicate FollowUpPass(cs: seq<Option<AgendaTask>>, intent: Intent, review: CriticReview,
                               record: EvidenceRecord, ids: seq<TaskId>)
    requires |review.openQuestions| <= |cs| <= |ids|
  {
    forall i :: 0 <= i < |review.openQuestions| ==>
      FollowsUpAt(cs, i, intent, review, record, review.openQuestions[i], ids)
  }

  predicate FollowsUpAt(cs: seq<Option<AgendaTask>>, m: nat, intent: Intent, review: CriticReview,
                        record: EvidenceRecord, q: string, ids: seq<TaskId>)
    requires m < |cs| <= |ids|
  {
    cs[m] == FollowUpCandidate(intent, review, record, q, ids[m])
  }

  ghost predicate RevalidatePass(cs: seq<Option<AgendaTask>>, a: nat, intent: Intent, review: CriticReview,
                                 record: EvidenceRecord, ids: seq<TaskId>)
    requires a + |review.revalidationRequired| <= |cs| <= |ids|
  {
    forall i :: 0 <= i < |review.revalidationRequired| ==>
      RevalidatesAt(cs, a + i, intent, record, review.revalidationRequired[i], ids)
  }

  predicate RevalidatesAt(cs: seq<Option<AgendaTask>>, m: nat, intent: Intent, record: EvidenceRecord, q: string,
                          ids: seq<TaskId>)
    requires m < |cs| <= |ids|
  {
    cs[m] == RevalidateCandidate(intent, record, q, ids[m])
  }

  predicate DisputesAt(cs: seq<Option<AgendaTask>>, m: nat, intent: Intent, record: EvidenceRecord, x: EvidenceId,
                       ids: seq<TaskId>)
    requires m < |cs| <= |ids|
  {
    cs[m] == ConflictCandidate(intent, record, x, ids[m])
  }

  ghost predicate ConflictPass(cs: seq<Option<AgendaTask>>, ab: nat, intent: Intent, review: CriticReview,
                               record: EvidenceRecord, ids: seq<TaskId>)
    requires ab + |review.contradicts| <= |cs| <= |ids|
  {
    forall i :: 0 <= i < |review.contradicts| ==>
      DisputesAt(cs, ab + i, intent, record, review.contradicts[i], ids)
  }

  lemma FollowUpsComeFirst(intent: Intent, review: CriticReview, record: EvidenceRecord, ids: seq<TaskId>)
    requires CandidateCount(review) == |ids|
    ensures FollowUpPass(Candidates(intent, review, record, ids), intent, review, record, ids)
  {
  }

  lemma RevalidationAt(intent: Intent, review: CriticReview, record: EvidenceRecord, ids: seq<TaskId>, i: nat)
    requires CandidateCount(review) == |ids| && i < |review.revalidationRequired|
    ensures RevalidatesAt(Candidates(intent, review, record, ids), |review.openQuestions| + i, intent, record,
                          review.revalidationRequired[i], ids)
  {
    var m := |review.openQuestions| + i;
    assert m - |review.openQuestions| == i;
  }

  lemma ConflictAt(intent: Intent, review: CriticReview, record: EvidenceRecord, ids: seq<TaskId>, i: nat)
    requires CandidateCount(review) == |ids| && i < |review.contradicts|
    ensures DisputesAt(Candidates(intent, review, record, ids),
                       |review.openQuestions| + |review.revalidationRequired| + i, intent, record,
                       review.contradicts[i], ids)
  {
    var m := |review.openQuestions| + |review.revalidationRequired| + i;
    assert m - |review.openQuestions| - |review.revalidationRequired| == i;
  }

  lemma RevalidationsComeNext(intent: Intent, review: CriticReview, record: EvidenceRecord, ids: seq<TaskId>)
    requires CandidateCount(review) == |ids|
    ensures RevalidatePass(Candidates(intent, review, record, ids), |review.openQuestions|, intent, review, record, ids)
  {
    forall i: nat | i < |review.revalidationRequired|
      ensures RevalidatesAt(Candidates(intent, review, record, ids), |review.openQuestions| + i, intent, record,
                            review.revalidationRequired[i], ids)
    {
      RevalidationAt(intent, review, record, ids, i);
    }
  }

  lemma ConflictsComeLast(intent: Intent, review: CriticReview, record: EvidenceRecord, ids: seq<TaskId>)
    requires CandidateCount(review) == |ids|
    ensures var ab := |review.openQuestions| + |review.revalidationRequired|;
      ConflictPass(Candidates(intent, review, record, ids), ab, intent, review, record, ids)
  {
    forall i: nat | i < |review.contradicts|
      ensures DisputesAt(Candidates(intent, review, record, ids),
                         |review.openQuestions| + |review.revalidationRequired| + i, intent, record,
                         review.contradicts[i], ids)
    {
      ConflictAt(intent, review, record, ids, i);
    }
  }

  lemma Regroup(a: seq<AgendaTask>, b: seq<AgendaTask>, c: seq<AgendaTask>, d: seq<AgendaTask>)
    ensures ((a + b) + c) + d == a + ((b + c) + d)
  {
  }

  /** The three creation passes, each continuing where the previous one stopped. */
  method CreateTasks(judged: seq<AgendaTask>, ghost cs: seq<Option<AgendaTask>>, intent: Intent, review: CriticReview,
                     record: EvidenceRecord, ids: seq<TaskId>)
    returns (created: seq<AgendaTask>)
    requires CandidateCount(review) == |ids| == |cs|
    requires FollowUpPass(cs, intent, review, record, ids)
    requires RevalidatePass(cs, |review.openQuestions|, intent, review, record, ids)
    requires ConflictPass(cs, |review.openQuestions| + |review.revalidationRequired|, intent, review, record, ids)
    ensures judged + created == AddTasks(judged, cs, CandidateCount(review))
  {
    var a := |review.openQuestions|;
    var followUps := AddFollowUps(judged, cs, intent, review, record, ids);
    var first := judged + followUps;
    var revalidations := AddRevalidations(judged, first, cs, a, intent, review, record, ids);
    var second := first + revalidations;
    var conflicts := AddConflicts(judged, second, cs, a + |review.revalidationRequired|, intent, review, record, ids);
    created := followUps + revalidations + conflicts;
    Regroup(judged, followUps, revalidations, conflicts);
  }

  /** `agenda_after_commit`: one judging pass and three creation passes over growing key sets. */
  method RunAgendaAfterCommit(k: Knowledge, intent: Intent, review: CriticReview, record: EvidenceRecord,
                              ids: seq<TaskId>)
    returns (updated: seq<AgendaTask>, created: seq<AgendaTask>, completedId: Option<TaskId>)
    requires CandidateCount(review) == |ids|
    ensures updated == AgendaAfterCommit(k, intent, review, record, ids)
    ensures |updated| == |k.agenda| + |created| && updated[|k.agenda|..] == created
    ensures TasksJudged(k, updated, intent, review, record)
    ensures TasksCreated(|k.agenda|, updated, intent, review, record)
    ensures completedId == if SelectedDone(k, intent, review, record) then intent.taskId else None
  {
    AgendaAfterCommitMeaning(k, intent, review, record, ids);
    var judged;
    judged, completedId := JudgeAgenda(k, intent, review, record);
    FollowUpsComeFirst(intent, review, record, ids);
    RevalidationsComeNext(intent, review, record, ids);
    ConflictsComeLast(intent, review, record, ids);
    created := CreateTasks(judged, Candidates(intent, review, record, ids), intent, review, record, ids);
    updated := judged + created;
  }
}
