/** Which intents a planning round accepts, and what every round leaves behind, stated on the fields of the
    intent, the agenda, the records and the planner's answer. */
module IntentAcceptance {
  import opened Contracts
  import opened RunState
  import opened IntentPolicy
  import opened ReviewAgenda
  import opened Planning
  import opened MainGraph
  import opened MainInvariant

  // ---------------------------------------------------------------- working on a task

  predicate PurposeFits(kind: TaskKind, purpose: Purpose) {
    match kind
    case FollowUp => purpose == Deepen || purpose == Challenge || purpose == ResolveConflict
    case ResolveContradiction => purpose == ResolveConflict
    case Revalidate => purpose == Challenge
  }

  /** The intent may work on this task: it waits, the purpose fits its kind, code is run for it or an attempt was
      made before it is given up, its goal is kept and its sources are parents. */
  ghost predicate Serves(t: AgendaTask, intent: Intent) {
    && (t.status == Pending || t.status == InProgress)
    && PurposeFits(t.kind, intent.purpose)
    && (intent.mode == Compute || (intent.mode == MarkDataLimited && t.attempts >= 1))
    && (t.goalId.Some? ==> intent.goalId == t.goalId)
    && (forall x :: x in t.sources ==> x in intent.parents)
  }

  lemma AgendaErrorIff(t: AgendaTask, intent: Intent)
    ensures AgendaIntentError(t, intent).None? && t.Live() <==> Serves(t, intent)
  {
    IdsWithin(t.sources, ToSet(intent.parents));
  }

  ghost predicate ServesNamed(agenda: seq<AgendaTask>, intent: Intent) {
    exists t :: t in agenda && intent.taskId == Some(t.taskId) && Serves(t, intent)
  }

  /** An intent that names a task passes its check exactly when the task of that number may be worked on so. */
  lemma TaskAcceptedIff(agenda: seq<AgendaTask>, intent: Intent)
    requires DistinctIds(agenda) && intent.taskId.Some?
    ensures TaskError(agenda, intent).None? <==> ServesNamed(agenda, intent)
  {
    var live := LiveTask(agenda, intent.taskId.value);
    if live.Some? {
      AgendaErrorIff(live.value, intent);
    }
    if t :| t in agenda && intent.taskId == Some(t.taskId) && Serves(t, intent) {
      assert live.Some?;
      var i :| 0 <= i < |agenda| && agenda[i] == t;
      var j :| 0 <= j < |agenda| && agenda[j] == live.value;
      assert i == j;
    }
  }

  // ---------------------------------------------------------------- the whole policy

  /** Every column exists, every record named is known, and a named goal is open. */
  ghost predicate RefersToKnown(s: State, profile: Profile, intent: Intent) {
    && (forall c :: c in intent.candidates || c in intent.required || c in intent.excluded ==> c in profile.columns)
    && (forall x :: x in intent.parents || x in intent.reuse ==> HasRecord(s.know.evidence, x))
    && (intent.goalId.Some? ==>
          exists g :: g in s.know.goals && g.goalId == intent.goalId.value && g.status == Open)
  }

  ghost predicate HasRecord(evidence: seq<EvidenceRecord>, x: EvidenceId) {
    exists e :: e in evidence && e.evidenceId == x
  }

  ghost predicate SameSet<T(!new)>(s: set<T>, xs: seq<T>) {
    forall x :: x in s <==> x in xs
  }

  /** An inspection of new columns, or a lookup under new conditions. */
  ghost predicate NewAction(s: State, intent: Intent) {
    && (intent.mode == InspectData ==> forall cs :: cs in s.inspections ==> !SameSet(cs, intent.candidates))
    && (intent.mode == LookupEvidence ==> forall l :: l in s.lookups ==>
          !(l.goalId == intent.goalId && SameSet(l.columns, intent.candidates) && SameSet(l.parents, intent.parents)))
  }

  /** Nothing reused has been superseded or comes from another dataset or schema. */
  ghost predicate ReusesInForce(s: State, profile: Profile, intent: Intent) {
    forall id :: id in intent.reuse ==>
      && (forall r :: r in s.know.relations && r.kind == Supersedes ==> r.target != id)
      && (forall e :: e in s.know.evidence && e.evidenceId == id ==>
            e.lineage.schema == profile.schema && e.lineage.datasetSha == s.dataset)
  }

  ghost predicate GoalStays(intent: Intent, updated: seq<SubGoal>, judged: bool) {
    judged && intent.goalId.Some? ==>
      forall g :: g in updated && g.goalId == intent.goalId.value ==> g.status == Open
  }

  /** Everything the policy asks of an intent, for every mode. */
  ghost predicate Acceptable(s: State, profile: Profile, intent: Intent, updated: seq<SubGoal>, judged: bool) {
    && RefersToKnown(s, profile, intent)
    && (intent.taskId.Some? ==> ServesNamed(s.know.agenda, intent))
    && NewAction(s, intent)
    && GoalStays(intent, updated, judged)
    && (intent.mode == ReuseEvidence ==> ReusesInForce(s, profile, intent))
    && DedupeKey(intent) !in s.know.coverage.testedKeys
  }

  lemma ColumnsIff(intent: Intent, columns: set<Column>)
    ensures ColumnsKnown(intent, columns) <==>
      forall c :: c in intent.candidates || c in intent.required || c in intent.excluded ==> c in columns
  {
    UnionWithin(ToSet(intent.candidates), ToSet(intent.required), columns);
    UnionWithin(ToSet(intent.candidates) + ToSet(intent.required), ToSet(intent.excluded), columns);
    SubsetIff(intent.candidates, columns);
    SubsetIff(intent.required, columns);
    SubsetIff(intent.excluded, columns);
  }

  lemma RecordsIff(intent: Intent, evidence: seq<EvidenceRecord>)
    ensures ToSet(intent.parents) + ToSet(intent.reuse) <= EvidenceIds(evidence) <==>
      forall x :: x in intent.parents || x in intent.reuse ==> HasRecord(evidence, x)
  {
    var ids := EvidenceIds(evidence);
    UnionWithin(ToSet(intent.parents), ToSet(intent.reuse), ids);
    IdsWithin(intent.parents, ids);
    IdsWithin(intent.reuse, ids);
    forall x ensures x in ids <==> HasRecord(evidence, x) {
    }
  }

  lemma ReferencesIff(s: State, profile: Profile, intent: Intent)
    ensures ReferenceError(intent, profile, s.know.goals, EvidenceIds(s.know.evidence)).None?
      <==> RefersToKnown(s, profile, intent)
  {
    ColumnsIff(intent, profile.columns);
    RecordsIff(intent, s.know.evidence);
  }

  lemma UnionWithin<T(!new)>(a: set<T>, b: set<T>, s: set<T>)
    ensures a + b <= s <==> a <= s && b <= s
  {
    if a + b <= s {
      forall x | x in a || x in b ensures x in s {
        assert x in a + b;
      }
    }
  }

  lemma SameSetIff<T(!new)>(s: set<T>, xs: seq<T>)
    ensures s == ToSet(xs) <==> SameSet(s, xs)
  {
  }

  lemma NewActionIff(s: State, intent: Intent)
    ensures RepeatedActionError(s, intent).None? <==> NewAction(s, intent)
  {
    forall cs | cs in s.inspections ensures cs == ToSet(intent.candidates) <==> SameSet(cs, intent.candidates) {
      SameSetIff(cs, intent.candidates);
    }
    forall l | l in s.lookups
      ensures l == LookupKeyOf(intent) <==>
        l.goalId == intent.goalId && SameSet(l.columns, intent.candidates) && SameSet(l.parents, intent.parents)
    {
      SameSetIff(l.columns, intent.candidates);
      SameSetIff(l.parents, intent.parents);
    }
  }

  lemma ReuseIff(s: State, profile: Profile, intent: Intent)
    requires s.profile == Some(profile)
    ensures ReuseError(s, intent).None? <==> ReusesInForce(s, profile, intent)
  {
  }

  /** An intent of any mode is accepted exactly when everything the policy asks holds of it. */
  lemma AcceptedIff(s: State, profile: Profile, intent: Intent, updated: seq<SubGoal>, judged: bool)
    requires s.profile == Some(profile) && DistinctIds(s.know.agenda)
    ensures RejectedIntent(s, profile, intent, updated, judged).None?
      <==> Acceptable(s, profile, intent, updated, judged)
  {
    ReferencesIff(s, profile, intent);
    NewActionIff(s, intent);
    if intent.taskId.Some? {
      TaskAcceptedIff(s.know.agenda, intent);
    }
    ReuseIff(s, profile, intent);
    assert GoalStays(intent, updated, judged) <==>
      !(intent.goalId.Some? && judged && intent.goalId.value in ClosedGoalIds(updated));
  }

  // ---------------------------------------------------------------- what a verdict closes

  /** A record of this dataset and schema that nothing supersedes. */
  ghost predicate InForce(s: State, e: EvidenceRecord) {
    && e in s.know.evidence
    && e.lineage.datasetSha == s.dataset && (s.profile.Some? ==> e.lineage.schema == s.profile.value.schema)
    && (forall r :: r in s.know.relations && r.kind == Supersedes ==> r.target != e.evidenceId)
  }

  ghost predicate Answered(s: State, g: GoalId) {
    exists e :: InForce(s, e) && e.goalId == Some(g)
  }

  ghost predicate Attempted(s: State, g: GoalId) {
    Answered(s, g) || exists r :: r in s.know.rejected && r.goalId == Some(g)
  }

  ghost predicate WorkedOn(s: State, g: GoalId) {
    exists t :: t in s.know.agenda && (t.status == Pending || t.status == InProgress) && t.goalId == Some(g)
  }

  /** How one goal stands after a verdict. */
  ghost predicate JudgedGoal(s: State, v: GoalVerdict, g: SubGoal, h: SubGoal) {
    && h == g.(status := h.status)
    && (h.status == Converged <==>
          || g.status == Converged
          || (&& g.status == Open && g.goalId in v.converged && Answered(s, g.goalId) && !WorkedOn(s, g.goalId)))
    && (h.status == Abandoned <==>
          || g.status == Abandoned
          || (&& g.status == Open && g.goalId !in v.converged && g.goalId in v.abandoned && Attempted(s, g.goalId)))
  }

  lemma InForceIff(s: State, e: EvidenceRecord)
    ensures IsCurrent(s, e) <==> InForce(s, e)
  {
  }

  lemma JudgedGoalIff(s: State, v: GoalVerdict, g: SubGoal)
    ensures JudgedGoal(s, v, g, JudgeGoal(s, v, g))
  {
    forall e ensures IsCurrent(s, e) <==> InForce(s, e) {
      InForceIff(s, e);
    }
    assert HasCurrentEvidence(s, g.goalId) <==> Answered(s, g.goalId);
    assert WasRejected(s, g.goalId) <==> exists r :: r in s.know.rejected && r.goalId == Some(g.goalId);
    assert HasLiveTaskFor(s.know.agenda, g.goalId) <==> WorkedOn(s, g.goalId);
  }

  ghost predicate GoalsJudged(s: State, v: GoalVerdict, goals: seq<SubGoal>) {
    |goals| == |s.know.goals| && forall i :: 0 <= i < |goals| ==> JudgedGoal(s, v, s.know.goals[i], goals[i])
  }

  /** A verdict converges an open goal exactly when it names the goal, a record in force answers it and no task of
      it waits, and abandons it exactly when it names only that, after an attempt. */
  lemma VerdictMeaning(s: State, v: GoalVerdict)
    ensures GoalsJudged(s, v, ApplyVerdict(s, v))
  {
    forall i | 0 <= i < |s.know.goals| ensures JudgedGoal(s, v, s.know.goals[i], ApplyVerdict(s, v)[i]) {
      JudgedGoalIff(s, v, s.know.goals[i]);
    }
  }

  // ---------------------------------------------------------------- the outcome of a round

  ghost predicate NamesOpenGoal(s: State, v: GoalVerdict) {
    exists g :: g in s.know.goals && g.status == Open && (g.goalId in v.converged || g.goalId in v.abandoned)
  }

  /** The planner proposed an intent that the policy accepts. */
  ghost predicate Proposes(s: State, a: PlannerAnswer, goals: seq<SubGoal>) {
    && a.Proposal? && a.intent.Some? && s.profile.Some?
    && Acceptable(s, s.profile.value, a.intent.value, goals, NamesOpenGoal(s, a.verdict))
  }

  /** The planner declares the work finished, and every goal is closed. */
  ghost predicate Declares(a: PlannerAnswer, goals: seq<SubGoal>) {
    a.Proposal? && a.intent.None? && a.verdict.finished && forall g :: g in goals ==> g.status != Open
  }

  ghost predicate Waits(s: State) {
    exists t :: t in s.know.agenda && (t.status == Pending || t.status == InProgress)
  }

  ghost predicate Unreachable(a: PlannerAnswer, goals: seq<SubGoal>) {
    || a.NoPlanner?
    || (a.intent.None? && !Declares(a, goals) && a.failed
        && (a.kind == Some(ProviderUnavailable) || a.kind == Some(Configuration)))
  }

  ghost predicate TaskChosen(t: AgendaTask, u: AgendaTask, intent: Intent) {
    if intent.mode == Compute && intent.taskId == Some(t.taskId)
    then u == t.(status := InProgress, selected := Some(intent.intentId), attempts := t.attempts + 1)
    else u == t
  }

  ghost predicate AgendaChosen(agenda: seq<AgendaTask>, chosen: seq<AgendaTask>, intent: Intent) {
    |chosen| == |agenda| && forall i :: 0 <= i < |agenda| ==> TaskChosen(agenda[i], chosen[i], intent)
  }

  /** The round of an accepted intent: one iteration more, transient fields reset, its task taken up. */
  ghost predicate TakesUp(s: State, t: State, intent: Intent) {
    && t == s.(know := s.know.(goals := t.know.goals, agenda := t.know.agenda), intent := Some(intent),
               iteration := s.iteration + 1, plannerError := false, cycle := FRESH_CYCLE)
    && AgendaChosen(s.know.agenda, t.know.agenda, intent)
  }

  /** A round without an intent: the count of such rounds in a row goes up, and at five the run gives up. */
  ghost predicate Stalls(s: State, t: State) {
    var count := if s.cycle.streak.key == {NoIntentCode} then s.cycle.streak.count + 1 else 1;
    && t.cycle == s.cycle.(streak := Streak({NoIntentCode}, count))
    && t == s.(know := t.know, intent := None, plannerError := t.plannerError, cycle := t.cycle, terminal := t.terminal)
    && t.know == s.know.(goals := t.know.goals, issues := t.know.issues)
    && (if count >= 5
        then t.terminal == Terminal(Failed, Some(PlannerStuck))
          && t.know.issues == s.know.issues + [LoopIssue({NoIntentCode}, count, s.iteration, None)]
        else t.terminal == s.terminal && t.know.issues == s.know.issues)
  }

  /** The planner could not be asked, or failed for good. */
  ghost predicate Outage(s: State, a: PlannerAnswer, t: State) {
    && t.terminal == Terminal(Failed, Some(ServiceUnavailable))
    && (if a.NoPlanner? then t == s.(terminal := t.terminal)
        else t == s.(know := s.know.(goals := t.know.goals), intent := None, terminal := t.terminal,
                     cycle := s.cycle.(serviceFailure := Some(ServiceFailure(PlannerRole, a.kind)))))
  }

  ghost predicate Closes(s: State, t: State) {
    t == s.(know := s.know.(goals := t.know.goals), intent := None, plannerError := false)
  }

  /** What a planning round does, by what the planner answered; `goals` are the goals after its verdict. */
  ghost predicate Planned(s: State, a: PlannerAnswer, goals: seq<SubGoal>, t: State) {
    && (a.Proposal? ==> t.know.goals == goals)
    && (Proposes(s, a, goals) ==> TakesUp(s, t, a.intent.value))
    && (Declares(a, goals) && !Waits(s) ==> Closes(s, t))
    && (Unreachable(a, goals) ==> Outage(s, a, t))
    && (!Proposes(s, a, goals) && !(Declares(a, goals) && !Waits(s)) && !Unreachable(a, goals) ==>
          Stalls(s, t) && (t.plannerError <==> a.intent.Some? || Declares(a, goals) || a.failed))
  }

  lemma StallsBy(s: State, goals: seq<SubGoal>, planned: bool)
    ensures Stalls(s, Stalled(s, goals, planned)) && Stalled(s, goals, planned).know.goals == goals
    ensures Stalled(s, goals, planned).plannerError == planned
  {
    assert CodeSet([NoIntentCode]) == {NoIntentCode};
  }

  lemma TakesUpBy(s: State, goals: seq<SubGoal>, intent: Intent)
    ensures TakesUp(s, Accepted(s, goals, intent), intent) && Accepted(s, goals, intent).know.goals == goals
  {
    forall i | 0 <= i < |s.know.agenda|
      ensures TaskChosen(s.know.agenda[i], SelectTask(s.know.agenda, intent)[i], intent)
    {
    }
  }

  lemma NoIntentBy(s: State, a: PlannerAnswer, goals: seq<SubGoal>)
    requires a.Proposal? && a.intent.None?
    ensures Planned(s, a, goals, NoIntent(s, goals, a))
  {
    StallsBy(s, goals, true);
    StallsBy(s, goals, false);
    assert Waits(s) <==> HasLiveTask(s.know.agenda);
    assert Declares(a, goals) <==> a.verdict.finished && AllClosed(goals);
  }

  /** Every planning round takes up the proposed intent exactly when the policy accepts it, ends the round
      exactly when the planner declares the work finished with every goal closed and nothing waiting, stops the
      run as unavailable exactly on an outage, and otherwise stalls. */
  lemma RoundOutcome(s: State, a: PlannerAnswer)
    requires s.profile.Some? && Loadable(s) && DistinctIds(s.know.agenda)
    ensures PlanIntent(s, a).Next?
    ensures a.Proposal? ==> GoalsJudged(s, a.verdict, PlanIntent(s, a).state.know.goals)
    ensures Planned(s, a, PlanIntent(s, a).state.know.goals, PlanIntent(s, a).state)
  {
    if a.Proposal? {
      var goals := ApplyVerdict(s, a.verdict);
      VerdictMeaning(s, a.verdict);
      if a.intent.None? {
        NoIntentBy(s, a, goals);
      } else {
        var intent := a.intent.value;
        var judged := VerdictNoted(s.know.goals, a.verdict);
        assert judged <==> NamesOpenGoal(s, a.verdict);
        AcceptedIff(s, s.profile.value, intent, goals, judged);
        StallsBy(s, goals, true);
        TakesUpBy(s, goals, intent);
      }
    }
  }

  /** In a run: the next node carries out the mode of the intent that was taken up, and no other round leaves
      an intent behind. */
  lemma RoundInRun(c: Config, a: Answer)
    requires MainInv(c) && c.node == Plan && StepOk(c, a)
    ensures var d := MainStep(c, a);
      && Planned(c.s, a.planner, d.s.know.goals, d.s)
      && (a.planner.Proposal? ==> GoalsJudged(c.s, a.planner.verdict, d.s.know.goals))
      && (d.s.intent.Some? <==> Proposes(c.s, a.planner, d.s.know.goals))
      && (d.node == ExecutionNode <==> d.s.intent.Some? && d.s.intent.value.mode == Compute)
      && (d.node == ReuseNode <==> d.s.intent.Some? && d.s.intent.value.mode == ReuseEvidence)
      && (d.node == InspectNode <==> d.s.intent.Some? && d.s.intent.value.mode == InspectData)
      && (d.node == RecallNode <==> d.s.intent.Some? && d.s.intent.value.mode == LookupEvidence)
      && (d.node == LimitNode <==> d.s.intent.Some? && d.s.intent.value.mode == MarkDataLimited)
      && (d.node == Assess <==> d.s.intent.None?)
  {
    BaseIsLoadable(c.s);
    RoundOutcome(c.s, a.planner);
  }

  // ---------------------------------------------------------------- the actions that run no code

  /** The named task is closed with the rationale, or the question where the rationale is blank. */
  ghost predicate Closed(t: AgendaTask, u: AgendaTask, intent: Intent) {
    if intent.taskId == Some(t.taskId)
    then u == t.(status := DataLimited, selected := None,
                 reason := if AllSpace(intent.rationale) then intent.question else Strip(intent.rationale))
    else u == t
  }

  lemma LimitCloses(agenda: seq<AgendaTask>, intent: Intent, i: nat)
    requires i < |agenda|
    ensures Closed(agenda[i], LimitTask(agenda, intent)[i], intent)
  {
    BlankIff(intent.rationale);
  }

  /** Inspecting and looking up only leave their key in the history; giving a task up closes that task alone. */
  lemma ActionEffects(c: Config, a: Answer)
    requires MainInv(c) && StepOk(c, a) && c.node in {InspectNode, RecallNode, LimitNode}
    ensures var s, t, intent := c.s, MainStep(c, a).s, c.s.intent.value;
      && MainStep(c, a).node == Assess && t.intent.None?
      && (c.node == InspectNode ==>
            exists cs :: SameSet(cs, intent.candidates)
              && t == s.(inspections := s.inspections + [cs], intent := None))
      && (c.node == RecallNode ==>
            exists l: LookupKey :: l.goalId == intent.goalId && SameSet(l.columns, intent.candidates)
              && SameSet(l.parents, intent.parents) && t == s.(lookups := s.lookups + [l], intent := None))
      && (c.node == LimitNode ==>
            && t == s.(know := s.know.(agenda := t.know.agenda), intent := None)
            && |t.know.agenda| == |s.know.agenda|
            && forall i :: 0 <= i < |s.know.agenda| ==> Closed(s.know.agenda[i], t.know.agenda[i], intent))
  {
    var s, intent := c.s, c.s.intent.value;
    if c.node == LimitNode {
      LimitKeeps(c, a);
      forall i | 0 <= i < |s.know.agenda|
        ensures Closed(s.know.agenda[i], LimitTask(s.know.agenda, intent)[i], intent)
      {
        LimitCloses(s.know.agenda, intent, i);
      }
    } else {
      ReadOnlyKeeps(c, a);
      SameSetIff(ToSet(intent.candidates), intent.candidates);
      SameSetIff(ToSet(intent.parents), intent.parents);
    }
  }
}
