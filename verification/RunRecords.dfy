/** What the remaining records of a run say: the evidence linked to each goal, and the read-only actions taken. */
module RunRecords {
  import opened Contracts
  import opened RunState
  import opened GoalNumbering
  import opened IntentPolicy
  import opened ReviewEvidence
  import opened KnowledgeInvariant
  import opened Planning
  import opened Progress
  import opened ExecutionProofs
  import opened MainGraph
  import opened MainInvariant
  import opened RunTermination
  import opened RunTheorems

  ghost predicate NoRepeats<T>(xs: seq<T>) {
    forall i, j :: 0 <= i < j < |xs| ==> xs[i] != xs[j]
  }

  lemma AppendNew<T>(xs: seq<T>, x: T)
    requires NoRepeats(xs) && x !in xs
    ensures NoRepeats(xs + [x])
  {
  }

  // ---------------------------------------------------------------- goal links

  /** A goal lists known records, none twice. */
  ghost predicate GoalOk(g: SubGoal, ids: set<EvidenceId>) {
    NoRepeats(g.evidenceIds) && forall id :: id in g.evidenceIds ==> id in ids
  }

  predicate Lists(g: SubGoal, goalId: GoalId, id: EvidenceId) {
    g.goalId == goalId && id in g.evidenceIds
  }

  /** A record found for a goal is listed by a goal of that number. */
  ghost predicate Linked(goals: seq<SubGoal>, e: EvidenceRecord) {
    e.goalId.Some? ==> exists g :: g in goals && Lists(g, e.goalId.value, e.evidenceId)
  }

  ghost predicate LinksOk(goals: seq<SubGoal>, evidence: seq<EvidenceRecord>) {
    && (forall g :: g in goals ==> GoalOk(g, EvidenceIds(evidence)))
    && (forall e :: e in evidence ==> Linked(goals, e))
  }

  /** Goals keep their numbers and lists, possibly followed by new goals without evidence. */
  ghost predicate ListsKept(a: seq<SubGoal>, b: seq<SubGoal>) {
    && |a| <= |b|
    && (forall i :: 0 <= i < |a| ==> b[i].goalId == a[i].goalId && b[i].evidenceIds == a[i].evidenceIds)
    && (forall i :: |a| <= i < |b| ==> b[i].evidenceIds == [])
  }

  lemma KeptLinks(a: seq<SubGoal>, b: seq<SubGoal>, evidence: seq<EvidenceRecord>)
    requires LinksOk(a, evidence) && ListsKept(a, b)
    ensures LinksOk(b, evidence)
  {
    forall g | g in b ensures GoalOk(g, EvidenceIds(evidence)) {
      var i :| 0 <= i < |b| && b[i] == g;
      if i < |a| {
        assert GoalOk(a[i], EvidenceIds(evidence));
      }
    }
    forall e | e in evidence ensures Linked(b, e) {
      assert Linked(a, e);
      if e.goalId.Some? {
        var g :| g in a && Lists(g, e.goalId.value, e.evidenceId);
        var i :| 0 <= i < |a| && a[i] == g;
        assert b[i] in b && Lists(b[i], e.goalId.value, e.evidenceId);
      }
    }
  }

  lemma {:induction false} UniqueContents(ids: seq<EvidenceId>)
    ensures NoRepeats(Unique(ids))
    ensures forall x :: x in Unique(ids) <==> x in ids
  {
    if ids != [] {
      UniqueContents(ids[..|ids| - 1]);
      assert ids == ids[..|ids| - 1] + [ids[|ids| - 1]];
    }
  }

  lemma {:induction false} UniqueFixed(ids: seq<EvidenceId>)
    requires NoRepeats(ids)
    ensures Unique(ids) == ids
  {
    if ids != [] {
      var front, last := ids[..|ids| - 1], ids[|ids| - 1];
      UniqueFixed(front);
      assert last !in front by {
        assert forall k :: 0 <= k < |front| ==> ids[k] != ids[|ids| - 1];
      }
      assert ids == front + [last];
    }
  }

  lemma {:induction false} UniqueExtends(ids: seq<EvidenceId>, more: seq<EvidenceId>)
    requires NoRepeats(ids)
    ensures ids <= Unique(ids + more)
  {
    if more == [] {
      assert ids + more == ids;
      UniqueFixed(ids);
    } else {
      UniqueExtends(ids, more[..|more| - 1]);
      assert (ids + more)[..|ids + more| - 1] == ids + more[..|more| - 1];
    }
  }

  /** One goal's list after a reuse: the old list, then the reused records it did not hold yet. */
  ghost predicate ListExtended(before: seq<EvidenceId>, ids: seq<EvidenceId>, now: seq<EvidenceId>) {
    before <= now && forall x :: x in now <==> x in before || x in ids
  }

  lemma UniqueListExtended(list: seq<EvidenceId>, ids: seq<EvidenceId>)
    requires NoRepeats(list)
    ensures ListExtended(list, ids, Unique(list + ids)) && NoRepeats(Unique(list + ids))
  {
    UniqueContents(list + ids);
    UniqueExtends(list, ids);
  }

  /** Linking reused records lists each once under the goal, drops none, and leaves every other goal alone. */
  lemma ReuseLinks(goals: seq<SubGoal>, evidence: seq<EvidenceRecord>, goalId: GoalId, ids: seq<EvidenceId>)
    requires LinksOk(goals, evidence) && forall id :: id in ids ==> id in EvidenceIds(evidence)
    ensures LinksOk(LinkReused(goals, goalId, ids), evidence)
    ensures forall i :: 0 <= i < |goals| && goals[i].goalId == goalId ==>
      var g := LinkReused(goals, goalId, ids)[i];
      g == goals[i].(evidenceIds := g.evidenceIds) && ListExtended(goals[i].evidenceIds, ids, g.evidenceIds)
    ensures forall i :: 0 <= i < |goals| && goals[i].goalId != goalId ==> LinkReused(goals, goalId, ids)[i] == goals[i]
  {
    var b := LinkReused(goals, goalId, ids);
    forall i | 0 <= i < |goals|
      ensures GoalOk(b[i], EvidenceIds(evidence))
      ensures goals[i].goalId == goalId ==> ListExtended(goals[i].evidenceIds, ids, b[i].evidenceIds)
      ensures forall id :: id in goals[i].evidenceIds ==> id in b[i].evidenceIds
    {
      assert goals[i] in goals && GoalOk(goals[i], EvidenceIds(evidence));
      UniqueListExtended(goals[i].evidenceIds, ids);
    }
    forall e | e in evidence ensures Linked(b, e) {
      assert Linked(goals, e);
      if e.goalId.Some? {
        var g :| g in goals && Lists(g, e.goalId.value, e.evidenceId);
        var i :| 0 <= i < |goals| && goals[i] == g;
        assert b[i] in b && Lists(b[i], e.goalId.value, e.evidenceId);
      }
    }
  }

  lemma CommitGoalOk(g: SubGoal, ids: set<EvidenceId>, id: EvidenceId)
    requires GoalOk(g, ids) && id !in ids
    ensures GoalOk(g, ids + {id}) && GoalOk(g.(evidenceIds := g.evidenceIds + [id]), ids + {id})
  {
    AppendNew(g.evidenceIds, id);
  }

  /** A commit lists its record under its goal, and under no other. */
  lemma CommitLinks(goals: seq<SubGoal>, evidence: seq<EvidenceRecord>, record: EvidenceRecord)
    requires LinksOk(goals, evidence) && record.evidenceId !in EvidenceIds(evidence)
    requires record.goalId.Some? ==> record.goalId.value in GoalIds(goals)
    ensures LinksOk(LinkEvidence(goals, record.goalId, record.evidenceId), evidence + [record])
    ensures forall i :: 0 <= i < |goals| && Some(goals[i].goalId) == record.goalId ==>
      LinkEvidence(goals, record.goalId, record.evidenceId)[i]
        == goals[i].(evidenceIds := goals[i].evidenceIds + [record.evidenceId])
    ensures forall i :: 0 <= i < |goals| && Some(goals[i].goalId) != record.goalId ==>
      LinkEvidence(goals, record.goalId, record.evidenceId)[i] == goals[i]
  {
    var b := LinkEvidence(goals, record.goalId, record.evidenceId);
    EvidenceIdsGrow(evidence, record);
    forall g | g in b ensures GoalOk(g, EvidenceIds(evidence + [record])) {
      var i :| 0 <= i < |b| && b[i] == g;
      assert GoalOk(goals[i], EvidenceIds(evidence));
      CommitGoalOk(goals[i], EvidenceIds(evidence), record.evidenceId);
    }
    forall e | e in evidence + [record] ensures Linked(b, e) {
      if e.goalId.Some? {
        var g: SubGoal;
        if e in evidence {
          assert Linked(goals, e);
          g :| g in goals && Lists(g, e.goalId.value, e.evidenceId);
        } else {
          g :| g in goals && g.goalId == e.goalId.value;
        }
        var i :| 0 <= i < |goals| && goals[i] == g;
        assert b[i] in b && Lists(b[i], e.goalId.value, e.evidenceId);
      }
    }
  }

  lemma AttemptLinks(p: State, t: State)
    requires ExecReady(p) && AttemptEnded(p, t) && LinksOk(p.know.goals, p.know.evidence)
    ensures LinksOk(t.know.goals, t.know.evidence)
  {
    if review, record, ids :| CommittedWith(p, t, review, record, ids) {
      CommitLinks(p.know.goals, p.know.evidence, record);
    } else if stage, issues :| RejectedWith(p, t, stage, issues) {
    } else {
      assert StoppedFrom(p, t);
    }
  }

  lemma FreshGoalsListNothing(raw: seq<RawGoal>, start: nat, n: nat)
    requires n <= |raw|
    ensures forall i :: 0 <= i < |Numbered(raw, start, n)| ==> Numbered(raw, start, n)[i].evidenceIds == []
  {
  }

  lemma ExpandKeepsLists(s: State, a: ExpandAnswer)
    requires ExpandGoals(s, a).Next?
    ensures ListsKept(s.know.goals, ExpandGoals(s, a).state.know.goals)
    ensures ExpandGoals(s, a).state.know.evidence == s.know.evidence
  {
    if a.Expansion? {
      FreshGoalsListNothing(a.raw, |s.know.goals|, |a.raw|);
    }
  }

  lemma PlanKeepsLists(s: State, a: PlannerAnswer)
    requires PlanIntent(s, a).Next?
    ensures ListsKept(s.know.goals, PlanIntent(s, a).state.know.goals)
    ensures PlanIntent(s, a).state.know.evidence == s.know.evidence
  {
    PlanGoals(s, a);
    if a.Proposal? {
      assert ListsKept(s.know.goals, ApplyVerdict(s, a.verdict));
    }
  }

  lemma ReuseNodeLinks(s: State)
    requires LinksOk(s.know.goals, s.know.evidence) && ReuseEvidenceNode(s).Next?
    ensures LinksOk(ReuseEvidenceNode(s).state.know.goals, ReuseEvidenceNode(s).state.know.evidence)
  {
    ReuseLinks(s.know.goals, s.know.evidence, s.intent.value.goalId.value, s.intent.value.reuse);
  }

  /** Nodes that touch neither goals nor evidence. */
  predicate LeavesLinks(node: MainNode) {
    node != Plan && node != ReuseNode && node != ApplyNode && node != Expand && node != DecomposeObjective
  }

  lemma OtherLinks(c: Config, a: Answer)
    requires StepOk(c, a) && LeavesLinks(c.node)
    ensures MainStep(c, a).s.know.goals == c.s.know.goals && MainStep(c, a).s.know.evidence == c.s.know.evidence
  {
  }

  lemma StepLinks(c: Config, a: Answer)
    requires MainInv(c) && StepOk(c, a) && LinksOk(c.s.know.goals, c.s.know.evidence)
    ensures LinksOk(MainStep(c, a).s.know.goals, MainStep(c, a).s.know.evidence)
  {
    var s := c.s;
    if c.node == Plan {
      if PlanIntent(s, a.planner).Next? {
        PlanKeepsLists(s, a.planner);
        KeptLinks(s.know.goals, PlanIntent(s, a.planner).state.know.goals, s.know.evidence);
      }
    } else if c.node == ReuseNode {
      if ReuseEvidenceNode(s).Next? {
        ReuseNodeLinks(s);
      }
    } else if c.node == ApplyNode {
      var t := ApplyYields(s);
      AttemptLinks(s.(delta := None), t);
    } else if c.node == Expand {
      if ExpandGoals(s, a.expand).Next? {
        ExpandKeepsLists(s, a.expand);
        KeptLinks(s.know.goals, ExpandGoals(s, a.expand).state.know.goals, s.know.evidence);
      }
    } else if c.node == DecomposeObjective {
      FreshGoalsListNothing(a.decomposed, 0, |a.decomposed|);
    } else {
      OtherLinks(c, a);
    }
  }

  lemma {:induction false} RunLinks(c: Config, answers: seq<Answer>)
    requires MainInv(c) && RunOk(c, answers) && LinksOk(c.s.know.goals, c.s.know.evidence)
    ensures LinksOk(Run(c, answers).s.know.goals, Run(c, answers).s.know.evidence)
    decreases |answers|
  {
    if answers != [] {
      StepLinks(c, answers[0]);
      StepKeeps(c, answers[0]);
      RunLinks(MainStep(c, answers[0]), answers[1..]);
    }
  }

  /** In every reachable state each goal lists known records, none twice, and every record found for a goal is
      listed there. */
  lemma GoalsListTheirEvidence(dataset: int, maxIterations: nat, answers: seq<Answer>, c: Config)
    requires Reaches(dataset, maxIterations, answers, c)
    ensures LinksOk(c.s.know.goals, c.s.know.evidence)
  {
    StartIsGood(dataset, maxIterations);
    RunLinks(Start(dataset, maxIterations), answers);
  }

  // ---------------------------------------------------------------- read-only actions

  ghost predicate ActionsOk(s: State) {
    NoRepeats(s.inspections) && NoRepeats(s.lookups)
  }

  lemma OtherActions(c: Config, a: Answer)
    requires StepOk(c, a) && c.node != InspectNode && c.node != RecallNode && c.node != Plan
    ensures MainStep(c, a).s.inspections == c.s.inspections && MainStep(c, a).s.lookups == c.s.lookups
  {
  }

  lemma PlanActions(s: State, a: PlannerAnswer)
    requires PlanIntent(s, a).Next?
    ensures PlanIntent(s, a).state.inspections == s.inspections && PlanIntent(s, a).state.lookups == s.lookups
  {
  }

  lemma StepActions(c: Config, a: Answer)
    requires MainInv(c) && StepOk(c, a) && ActionsOk(c.s)
    ensures ActionsOk(MainStep(c, a).s)
  {
    if c.node == InspectNode {
      AppendNew(c.s.inspections, ToSet(c.s.intent.value.candidates));
    } else if c.node == RecallNode {
      AppendNew(c.s.lookups, LookupKeyOf(c.s.intent.value));
    } else if c.node == Plan {
      if PlanIntent(c.s, a.planner).Next? {
        PlanActions(c.s, a.planner);
      }
    } else {
      OtherActions(c, a);
    }
  }

  lemma {:induction false} RunActions(c: Config, answers: seq<Answer>)
    requires MainInv(c) && RunOk(c, answers) && ActionsOk(c.s)
    ensures ActionsOk(Run(c, answers).s)
    decreases |answers|
  {
    if answers != [] {
      StepActions(c, answers[0]);
      StepKeeps(c, answers[0]);
      RunActions(MainStep(c, answers[0]), answers[1..]);
    }
  }

  /** No run inspects the same set of columns twice, or repeats an evidence lookup. */
  lemma ActionsNeverRepeat(dataset: int, maxIterations: nat, answers: seq<Answer>, c: Config)
    requires Reaches(dataset, maxIterations, answers, c)
    ensures NoRepeats(c.s.inspections) && NoRepeats(c.s.lookups)
  {
    StartIsGood(dataset, maxIterations);
    RunActions(Start(dataset, maxIterations), answers);
  }
}
