/** When an assessed run stops, is repaired or goes on, and what an expansion does, stated on the fields of the
    state, the relation graph and the clock. */
module Assessment {
  import opened Contracts
  import opened RunState
  import opened GoalNumbering
  import opened ReviewEvidence
  import opened KnowledgeInvariant
  import opened Planning
  import opened Progress
  import opened AgendaSteps
  import opened MainGraph
  import opened MainInvariant

  // ---------------------------------------------------------------- what an assessment looks at

  ghost predicate WorkWaits(k: Knowledge) {
    exists t :: t in k.agenda && (t.status == Pending || t.status == InProgress)
  }

  ghost predicate PairOpen(k: Knowledge) {
    exists a, b :: UnresolvedPair(k.relations, {a, b})
  }

  ghost predicate GoalsClosed(k: Knowledge) {
    k.goals != [] && forall g :: g in k.goals ==> g.status != Open
  }

  /** Every task is completed or data limited, every goal closed, every contradiction resolved. */
  ghost predicate NothingLeft(k: Knowledge) {
    && (forall t :: t in k.agenda ==> t.status == Completed || t.status == DataLimited)
    && !PairOpen(k) && GoalsClosed(k)
  }

  /** Time and rounds are left. */
  predicate MayContinue(s: State, clock: Clock) {
    !clock.expired && s.iteration < s.maxIterations
  }

  ghost predicate StopsWith(s: State, t: State, code: StopCode) {
    t == s.(terminal := Terminal(Done, Some(code)))
  }

  // ---------------------------------------------------------------- repair, on fields

  /** The goal of the first record, or of the second if the first has none. */
  ghost predicate TakesGoal(k: Knowledge, t: AgendaTask, a: EvidenceId, b: EvidenceId) {
    exists x, y :: x in k.evidence && y in k.evidence && x.evidenceId == a && y.evidenceId == b
      && t.goalId == if x.goalId.Some? then x.goalId else y.goalId
  }

  ghost predicate RepairsPair(k: Knowledge, t: AgendaTask, a: EvidenceId, b: EvidenceId) {
    && a < b && UnresolvedPair(k.relations, {a, b}) && TakesGoal(k, t, a, b)
    && t.kind == ResolveContradiction && t.sources == [a, b] && t.priority == 100
    && t.status == Pending && t.selected.None? && t.attempts == 0 && t.completion.None? && t.reason == ""
  }

  ghost predicate RepairsSome(k: Knowledge, t: AgendaTask) {
    exists a, b :: RepairsPair(k, t, a, b)
  }

  /** The agenda keeps its tasks and gains exactly one task for every unresolved pair. */
  ghost predicate Repaired(k: Knowledge, agenda: seq<AgendaTask>) {
    && k.agenda <= agenda
    && (forall i :: |k.agenda| <= i < |agenda| ==> RepairsSome(k, agenda[i]))
    && (forall i, j :: |k.agenda| <= i < j < |agenda| ==> ToSet(agenda[i].sources) != ToSet(agenda[j].sources))
    && (forall a, b :: UnresolvedPair(k.relations, {a, b}) ==> RepairedPair(k, agenda, {a, b}))
  }

  ghost predicate RepairedPair(k: Knowledge, agenda: seq<AgendaTask>, pair: set<EvidenceId>) {
    exists i :: |k.agenda| <= i < |agenda| && ToSet(agenda[i].sources) == pair
  }

  lemma {:induction false} RecordOfListed(evidence: seq<EvidenceRecord>, e: EvidenceRecord)
    requires DistinctEvidence(evidence) && e in evidence
    ensures RecordOf(evidence, e.evidenceId) == Some(e)
  {
    var last := |evidence| - 1;
    if evidence[last].evidenceId != e.evidenceId {
      assert e in evidence[..last];
      RecordOfListed(evidence[..last], e);
    } else {
      var i :| 0 <= i < |evidence| && evidence[i] == e;
    }
  }

  lemma UnresolvedIsKnown(k: Knowledge, a: EvidenceId, b: EvidenceId)
    requires KnowledgeOk(k) && UnresolvedPair(k.relations, {a, b})
    ensures a != b && a in EvidenceIds(k.evidence) && b in EvidenceIds(k.evidence)
  {
    var r :| r in k.relations && r.kind == Contradicts && {r.source, r.target} == {a, b};
    assert ValidRelation(r) && RelationRefs(r, EvidenceIds(k.evidence));
    assert a in {r.source, r.target} && b in {r.source, r.target} && r.source in {a, b} && r.target in {a, b};
  }

  lemma RepairTaskRepairs(k: Knowledge, p: (EvidenceId, EvidenceId), id: TaskId)
    requires KnowledgeOk(k) && p.0 <= p.1 && UnresolvedPair(k.relations, {p.0, p.1})
    ensures RepairsPair(k, RepairTask(k.evidence, p, id), p.0, p.1)
  {
    UnresolvedIsKnown(k, p.0, p.1);
    var x :| x in k.evidence && x.evidenceId == p.0;
    var y :| y in k.evidence && y.evidenceId == p.1;
    RecordOfListed(k.evidence, x);
    RecordOfListed(k.evidence, y);
    assert TakesGoal(k, RepairTask(k.evidence, p, id), p.0, p.1);
  }

  ghost predicate RepairsEach(k: Knowledge, missing: seq<(EvidenceId, EvidenceId)>, created: seq<AgendaTask>) {
    && |created| == |missing|
    && (forall i :: 0 <= i < |created| ==> RepairsPair(k, created[i], missing[i].0, missing[i].1))
    && (forall i, j :: 0 <= i < j < |created| ==> ToSet(created[i].sources) != ToSet(created[j].sources))
  }

  lemma RepairTasksMeaning(k: Knowledge, ids: seq<TaskId>)
    requires KnowledgeOk(k) && |ids| == |MissingPairs(k)|
    ensures RepairsEach(k, MissingPairs(k), RepairTasks(k.evidence, MissingPairs(k), ids))
  {
    var missing := MissingPairs(k);
    MissingPairsMeaning(k);
    RepairTasksOk(k, ids);
    forall i | 0 <= i < |missing| ensures RepairsPair(k, RepairTask(k.evidence, missing[i], ids[i]), missing[i].0,
      missing[i].1)
    {
      assert missing[i] in missing && UnresolvedPair(k.relations, PairSet(missing[i]));
      assert PairSet(missing[i]) == {missing[i].0, missing[i].1};
      RepairTaskRepairs(k, missing[i], ids[i]);
    }
  }

  lemma AppendedCovers(k: Knowledge, missing: seq<(EvidenceId, EvidenceId)>, created: seq<AgendaTask>,
                       a: EvidenceId, b: EvidenceId)
    requires |created| == |missing| && SortedPair(a, b) in missing
    requires forall i :: 0 <= i < |created| ==> created[i].sources == [missing[i].0, missing[i].1]
    ensures RepairedPair(k, k.agenda + created, {a, b})
  {
    var i :| 0 <= i < |missing| && missing[i] == SortedPair(a, b);
    PairToSet(missing[i].0, missing[i].1);
    assert (k.agenda + created)[|k.agenda| + i] == created[i];
  }

  lemma AppendedRepairs(k: Knowledge, missing: seq<(EvidenceId, EvidenceId)>, created: seq<AgendaTask>)
    requires RepairsEach(k, missing, created)
    requires forall a, b :: UnresolvedPair(k.relations, {a, b}) ==> SortedPair(a, b) in missing
    ensures Repaired(k, k.agenda + created)
  {
    var agenda, n := k.agenda + created, |k.agenda|;
    forall i | n <= i < |agenda| ensures RepairsSome(k, agenda[i]) {
      assert RepairsPair(k, created[i - n], missing[i - n].0, missing[i - n].1);
    }
    assert forall i :: 0 <= i < |created| ==> created[i].sources == [missing[i].0, missing[i].1];
    forall a, b | UnresolvedPair(k.relations, {a, b}) ensures RepairedPair(k, agenda, {a, b}) {
      AppendedCovers(k, missing, created, a, b);
    }
  }

  /** What the repair appends when no task is live. */
  lemma RepairMeaning(k: Knowledge, ids: seq<TaskId>)
    requires KnowledgeOk(k) && !HasLiveTask(k.agenda) && |ids| == |MissingPairs(k)|
    ensures Repaired(k, k.agenda + RepairTasks(k.evidence, MissingPairs(k), ids))
  {
    RepairTasksMeaning(k, ids);
    forall a, b | UnresolvedPair(k.relations, {a, b}) ensures SortedPair(a, b) in MissingPairs(k) {
      MissingPairIsListed(k, a, b);
    }
    AppendedRepairs(k, MissingPairs(k), RepairTasks(k.evidence, MissingPairs(k), ids));
  }

  lemma MissingIffOpen(k: Knowledge)
    requires !HasLiveTask(k.agenda)
    ensures MissingPairs(k) == [] <==> !PairOpen(k)
  {
    if a, b :| UnresolvedPair(k.relations, {a, b}) {
      MissingPairIsListed(k, a, b);
    }
    if MissingPairs(k) != [] {
      MissingPairsMeaning(k);
      var p := MissingPairs(k)[0];
      assert p in MissingPairs(k) && UnresolvedPair(k.relations, PairSet(p));
      assert PairSet(p) == {p.0, p.1};
    }
  }

  // ---------------------------------------------------------------- the outcome of an assessment

  /** Everything an assessment may do to a running state, by what it finds. */
  ghost predicate AssessedTo(s: State, clock: Clock, t: State) {
    && (clock.expired ==> StopsWith(s, t, BudgetExhausted))
    && (!clock.expired && s.iteration >= s.maxIterations ==> StopsWith(s, t, MaxIterationsReached))
    && (MayContinue(s, clock) ==>
      && (WorkWaits(s.know) ==> t == s)
      && (!WorkWaits(s.know) && PairOpen(s.know) ==> RepairedState(s, t))
      && (!WorkWaits(s.know) && !PairOpen(s.know) ==>
        && (!GoalsClosed(s.know) ==> t == s)
        && (GoalsClosed(s.know) && clock.short ==> StopsWith(s, t, BudgetExhausted))
        && (GoalsClosed(s.know) && !clock.short && s.goalExpansions >= 5 ==> StopsWith(s, t, ExpansionLimitReached))
        && (GoalsClosed(s.know) && !clock.short && s.goalExpansions < 5 ==> t == s)))
  }

  lemma WaitsIffLive(k: Knowledge)
    ensures WorkWaits(k) <==> HasLiveTask(k.agenda)
    ensures GoalsClosed(k) <==> AllGoalsClosed(k.goals)
    ensures NothingLeft(k) <==> !WorkWaits(k) && !PairOpen(k) && GoalsClosed(k)
  {
    assert forall t: AgendaTask :: t.Live() <==> !(t.status == Completed || t.status == DataLimited);
  }

  /** The state with a repaired agenda. */
  ghost predicate RepairedState(s: State, t: State) {
    t == s.(know := s.know.(agenda := t.know.agenda)) && Repaired(s.know, t.know.agenda)
  }

  lemma AssessRepairs(s: State, clock: Clock, ids: seq<TaskId>)
    requires Loadable(s) && s.terminal.status == Running && MayContinue(s, clock)
    requires !HasLiveTask(s.know.agenda) && |ids| == |MissingPairs(s.know)| && MissingPairs(s.know) != []
    ensures AssessProgress(s, clock, ids) == Next(s.(know := s.know.(agenda :=
      s.know.agenda + RepairTasks(s.know.evidence, MissingPairs(s.know), ids))))
  {
  }

  lemma AssessDecides(s: State, clock: Clock, ids: seq<TaskId>)
    requires KnowledgeOk(s.know) && Loadable(s) && s.terminal.status == Running && |ids| == |MissingPairs(s.know)|
    ensures AssessProgress(s, clock, ids).Next?
    ensures AssessedTo(s, clock, AssessProgress(s, clock, ids).state)
  {
    WaitsIffLive(s.know);
    if MayContinue(s, clock) && !HasLiveTask(s.know.agenda) {
      MissingIffOpen(s.know);
      if PairOpen(s.know) {
        AssessRepairs(s, clock, ids);
        RepairMeaning(s.know, ids);
      }
    }
  }

  lemma StopsBy(s: State, clock: Clock, t: State)
    requires s.terminal == Terminal(Running, None) && AssessedTo(s, clock, t)
    requires NothingLeft(s.know) <==> !WorkWaits(s.know) && !PairOpen(s.know) && GoalsClosed(s.know)
    ensures t.terminal.stopCode == Some(BudgetExhausted) <==>
      clock.expired || (MayContinue(s, clock) && NothingLeft(s.know) && clock.short)
    ensures t.terminal.stopCode == Some(MaxIterationsReached) <==> !clock.expired && s.iteration >= s.maxIterations
    ensures t.terminal.stopCode == Some(ExpansionLimitReached) <==>
      MayContinue(s, clock) && NothingLeft(s.know) && !clock.short && s.goalExpansions >= 5
    ensures t.terminal.stopCode.None? ||
      t.terminal.stopCode.value in {BudgetExhausted, MaxIterationsReached, ExpansionLimitReached}
  {
  }

  /** The three stop codes of an assessment, each exactly under its own condition; no other code occurs, and
      while work is waiting and time and rounds are left the run goes on unchanged. */
  lemma AssessStopsIff(s: State, clock: Clock, ids: seq<TaskId>)
    requires Base(s) && Idle(s) && |ids| == |MissingPairs(s.know)|
    ensures AssessProgress(s, clock, ids).Next?
    ensures var code := AssessProgress(s, clock, ids).state.terminal.stopCode;
      && (code == Some(BudgetExhausted) <==>
            clock.expired || (MayContinue(s, clock) && NothingLeft(s.know) && clock.short))
      && (code == Some(MaxIterationsReached) <==> !clock.expired && s.iteration >= s.maxIterations)
      && (code == Some(ExpansionLimitReached) <==>
            MayContinue(s, clock) && NothingLeft(s.know) && !clock.short && s.goalExpansions >= 5)
      && (code.None? || code.value in {BudgetExhausted, MaxIterationsReached, ExpansionLimitReached})
    ensures MayContinue(s, clock) && WorkWaits(s.know) ==> AssessProgress(s, clock, ids).state == s
  {
    BaseIsLoadable(s);
    AssessDecides(s, clock, ids);
    WaitsIffLive(s.know);
    StopsBy(s, clock, AssessProgress(s, clock, ids).state);
  }

  // ---------------------------------------------------------------- where the run goes next

  /** After an assessment a stopped run is finalized; a running one expands its goals exactly when nothing is
      left to do, and plans otherwise. */
  lemma AssessRoutes(c: Config, a: Answer)
    requires MainInv(c) && c.node == Assess && StepOk(c, a)
    ensures c.s.terminal.status != Running ==> MainStep(c, a) == c.(node := Finalize)
    ensures c.s.terminal.status == Running ==>
      var d := MainStep(c, a);
      && AssessedTo(c.s, a.clock, d.s)
      && (d.node == Finalize <==> d.s.terminal.status != Running)
      && (d.node == Expand <==>
            MayContinue(c.s, a.clock) && NothingLeft(c.s.know) && !a.clock.short && c.s.goalExpansions < 5)
      && (d.node == Plan || d.node == Expand || d.node == Finalize)
  {
    if c.s.terminal.status == Running {
      BaseIsLoadable(c.s);
      AssessDecides(c.s, a.clock, a.repairIds);
      RoutedBy(c.s, a.clock, MainStep(c, a).s);
    }
  }

  lemma RoutedBy(s: State, clock: Clock, t: State)
    requires s.terminal == Terminal(Running, None) && AssessedTo(s, clock, t)
    ensures RouteAfterAssess(t) == Finalize <==> t.terminal.status != Running
    ensures RouteAfterAssess(t) == Expand <==>
      MayContinue(s, clock) && NothingLeft(s.know) && !clock.short && s.goalExpansions < 5
    ensures RouteAfterAssess(t) in {Plan, Expand, Finalize}
  {
    WaitsIffLive(s.know);
    if MayContinue(s, clock) && !WorkWaits(s.know) && PairOpen(s.know) {
      RepairedIsLive(s.know, t.know.agenda);
    }
  }

  lemma RepairedIsLive(k: Knowledge, agenda: seq<AgendaTask>)
    requires Repaired(k, agenda) && PairOpen(k)
    ensures HasLiveTask(agenda)
  {
    var a, b :| UnresolvedPair(k.relations, {a, b});
    assert RepairedPair(k, agenda, {a, b});
    var i :| |k.agenda| <= i < |agenda| && ToSet(agenda[i].sources) == {a, b};
    assert RepairsSome(k, agenda[i]);
    assert agenda[i] in agenda && agenda[i].Live();
  }

  // ---------------------------------------------------------------- expansion

  ghost predicate SomethingGaveOut(k: Knowledge) {
    || (exists g :: g in k.goals && g.status == Abandoned)
    || (exists t :: t in k.agenda && t.status == DataLimited)
  }

  /** The entries of a response that become goals, at most one per remaining round. */
  ghost predicate ExpandedBy(s: State, raw: seq<RawGoal>, t: State) {
    var proposed, room := ParseGoals(raw, |s.know.goals|), s.maxIterations - s.iteration;
    && t == s.(know := s.know.(goals := t.know.goals), goalExpansions := s.goalExpansions + 1)
    && s.know.goals <= t.know.goals
    && t.know.goals[|s.know.goals|..] <= proposed
    && |t.know.goals| - |s.know.goals| == if |proposed| <= room then |proposed| else room
  }

  /** A run opens with the goals of the response, the first time it plans. */
  lemma OpeningGoals(c: Config, a: Answer)
    requires MainInv(c) && c.node == DecomposeObjective && StepOk(c, a)
    ensures var t := MainStep(c, a).s;
      && MainStep(c, a).node == Plan && t == c.s.(know := EMPTY_KNOWLEDGE.(goals := t.know.goals))
      && (forall g :: g in t.know.goals <==> exists i: nat :: ProposedAt(a.decomposed, 0, i, g))
  {
    forall g
      ensures g in ParseGoals(a.decomposed, 0) <==> exists i: nat :: ProposedAt(a.decomposed, 0, i, g)
    {
      ParsedGoalsIff(a.decomposed, 0, g);
    }
  }

  ghost predicate NothingProposed(raw: seq<RawGoal>) {
    forall i :: 0 <= i < |raw| ==> raw[i].Malformed? || AllSpace(raw[i].question)
  }

  /** With nothing left to do, an expansion stops the run as satisfied or data limited exactly when the planner
      answered and proposed nothing, as unavailable exactly when it could not answer, and otherwise the run goes
      on with the proposed goals that the remaining rounds allow. */
  lemma ExpandOutcomes(c: Config, a: Answer)
    requires MainInv(c) && c.node == Expand && StepOk(c, a)
    ensures MainStep(c, a).s.terminal.stopCode == Some(GoalSatisfied) <==>
      a.expand.Expansion? && NothingProposed(a.expand.raw) && a.expand.kind.None? && !SomethingGaveOut(c.s.know)
    ensures MainStep(c, a).s.terminal.stopCode == Some(DataLimitedStop) <==>
      a.expand.Expansion? && NothingProposed(a.expand.raw) && a.expand.kind.None? && SomethingGaveOut(c.s.know)
    ensures MainStep(c, a).s.terminal.stopCode == Some(ServiceUnavailable) <==>
      a.expand.NoExpander? || (NothingProposed(a.expand.raw) && a.expand.kind.Some?)
    ensures MainStep(c, a).node == Plan <==> a.expand.Expansion? && !NothingProposed(a.expand.raw)
    ensures MainStep(c, a).node == Plan ==> ExpandedBy(c.s, a.expand.raw, MainStep(c, a).s)
    ensures MainStep(c, a).node == Plan || MainStep(c, a).node == Finalize
    ensures MainStep(c, a).node == Finalize ==>
      MainStep(c, a).s == c.s.(terminal := MainStep(c, a).s.terminal) && MainStep(c, a).s.terminal.status == Done
  {
    var s := c.s;
    BaseIsLoadable(s);
    if a.expand.Expansion? {
      var proposed := ParseGoals(a.expand.raw, |s.know.goals|);
      ProposedIff(a.expand.raw, |s.know.goals|);
      var room := s.maxIterations - s.iteration;
      var kept := if |proposed| > room then proposed[..room] else proposed;
      assert (s.know.goals + kept)[|s.know.goals|..] == kept;
    }
  }

  lemma ProposedIff(raw: seq<RawGoal>, start: nat)
    ensures ParseGoals(raw, start) == [] <==> NothingProposed(raw)
  {
    if ParseGoals(raw, start) != [] {
      ParsedGoalsIff(raw, start, ParseGoals(raw, start)[0]);
    }
    if i :| 0 <= i < |raw| && raw[i].Item? && !AllSpace(raw[i].question) {
      var g := SubGoal(start + i + 1, Strip(raw[i].question), Open, []);
      ParsedGoalsIff(raw, start, g);
      assert ProposedAt(raw, start, i, g);
    }
  }
}
