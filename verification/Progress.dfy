/** Deciding whether a run continues: budget, live tasks, agenda repair, goal closure and expansion. */
module Progress {
  import opened Contracts
  import opened RunState
  import opened GoalNumbering
  import opened ReviewEvidence
  import opened ReviewAgenda
  import opened Planning

  const MAX_GOAL_EXPANSIONS := 5

  /** What the clock says at one assessment: no time left, or less than an expansion needs. */
  datatype Clock = Clock(expired: bool, short: bool)

  // ---------------------------------------------------------------- agenda repair

  predicate CoveredLive(agenda: seq<AgendaTask>, pair: set<EvidenceId>) {
    exists t | t in agenda :: t.kind == ResolveContradiction && t.Live() && ToSet(t.sources) == pair
  }

  function Uncovered(agenda: seq<AgendaTask>, pairs: seq<(EvidenceId, EvidenceId)>): seq<(EvidenceId, EvidenceId)> {
    if pairs == [] then []
    else
      var front, last := Uncovered(agenda, pairs[..|pairs| - 1]), pairs[|pairs| - 1];
      if CoveredLive(agenda, PairSet(last)) then front else front + [last]
  }

  ghost function MissingPairs(k: Knowledge): seq<(EvidenceId, EvidenceId)> {
    Uncovered(k.agenda, UnresolvedContradictions(k.relations))
  }

  function GoalOf(evidence: seq<EvidenceRecord>, id: EvidenceId): Option<GoalId> {
    var r := RecordOf(evidence, id);
    if r.Some? then r.value.goalId else None
  }

  /** Both sides' goal if they share it, otherwise whichever side has one, left first. */
  function RepairGoal(evidence: seq<EvidenceRecord>, pair: (EvidenceId, EvidenceId)): Option<GoalId> {
    var left, right := GoalOf(evidence, pair.0), GoalOf(evidence, pair.1);
    if left == right || left.Some? then left else right
  }

  function RepairTask(evidence: seq<EvidenceRecord>, pair: (EvidenceId, EvidenceId), id: TaskId): AgendaTask {
    NewTask(ResolveContradiction, RepairGoal(evidence, pair), CONFLICT_QUESTION, 100, [pair.0, pair.1], id)
  }

  function RepairTasks(evidence: seq<EvidenceRecord>, pairs: seq<(EvidenceId, EvidenceId)>,
                       ids: seq<TaskId>): (r: seq<AgendaTask>)
    requires |ids| == |pairs|
    ensures |r| == |pairs|
  {
    seq(|pairs|, i requires 0 <= i < |pairs| => RepairTask(evidence, pairs[i], ids[i]))
  }

  /** `repair_contradiction_agenda`; fresh ids come from a supply that suffices for the missing pairs. */
  method RepairContradictionAgenda(k: Knowledge, ids: seq<TaskId>) returns (repaired: Option<seq<AgendaTask>>)
    requires |ids| >= |MissingPairs(k)|
    ensures repaired.None? <==> MissingPairs(k) == []
    ensures repaired.Some? ==>
      repaired.value == k.agenda + RepairTasks(k.evidence, MissingPairs(k), ids[..|MissingPairs(k)|])
  {
    var unresolved := ListUnresolvedContradictions(k.relations);
    var covered := set t | t in k.agenda && t.kind == ResolveContradiction && t.Live() :: ToSet(t.sources);
    var missing: seq<(EvidenceId, EvidenceId)> := [];
    for n := 0 to |unresolved|
      invariant missing == Uncovered(k.agenda, unresolved[..n])
    {
      assert unresolved[..n + 1][..n] == unresolved[..n];
      assert PairSet(unresolved[n]) in covered <==> CoveredLive(k.agenda, PairSet(unresolved[n]));
      if PairSet(unresolved[n]) !in covered {
        missing := missing + [unresolved[n]];
      }
    }
    assert unresolved[..|unresolved|] == unresolved;
    if missing == [] {
      return None;
    }
    var created: seq<AgendaTask> := [];
    for n := 0 to |missing|
      invariant |created| == n
      invariant forall i :: 0 <= i < n ==> created[i] == RepairTask(k.evidence, missing[i], ids[i])
    {
      created := created + [RepairTask(k.evidence, missing[n], ids[n])];
    }
    assert created == RepairTasks(k.evidence, missing, ids[..|missing|]);
    return Some(k.agenda + created);
  }

  // ---------------------------------------------------------------- assess_progress

  ghost function AssessProgress(s: State, clock: Clock, ids: seq<TaskId>): Outcome
    requires |ids| == |MissingPairs(s.know)|
  {
    if s.terminal.Stopped() then Next(s)
    else if clock.expired then Next(Stop(s, Done, BudgetExhausted))
    else if s.iteration >= s.maxIterations then Next(Stop(s, Done, MaxIterationsReached))
    else if !Loadable(s) then Raised
    else if HasLiveTask(s.know.agenda) then Next(s)
    else if MissingPairs(s.know) != [] then
      Next(s.(know := s.know.(agenda := s.know.agenda + RepairTasks(s.know.evidence, MissingPairs(s.know), ids))))
    else if AllGoalsClosed(s.know.goals) then
      if clock.short then Next(Stop(s, Done, BudgetExhausted))
      else if s.goalExpansions >= MAX_GOAL_EXPANSIONS then Next(Stop(s, Done, ExpansionLimitReached))
      else Next(s)
    else Next(s)
  }

  // ---------------------------------------------------------------- expand_goals

  datatype ExpandAnswer = NoExpander | Expansion(raw: seq<RawGoal>, kind: Option<FailureKind>)

  /** `terminal_after_expansion`. */
  function TerminalAfterExpansion(s: State): State {
    if (exists g | g in s.know.goals :: g.status == Abandoned)
      || (exists t | t in s.know.agenda :: t.status == DataLimited)
    then Stop(s, Done, DataLimitedStop)
    else Stop(s, Done, GoalSatisfied)
  }

  function ExpandGoals(s: State, a: ExpandAnswer): Outcome {
    if !Loadable(s) then Raised
    else if a.NoExpander? then Next(Stop(s, Done, ServiceUnavailable))
    else if s.profile.None? then Raised
    else
      var proposed := ParseGoals(a.raw, |s.know.goals|);
      var remaining := if s.iteration < s.maxIterations then s.maxIterations - s.iteration else 0;
      if proposed == [] then
        if a.kind.Some? then Next(Stop(s, Done, ServiceUnavailable)) else Next(TerminalAfterExpansion(s))
      else if remaining == 0 then Next(Stop(s, Done, MaxIterationsReached))
      else
        var kept := if |proposed| > remaining then proposed[..remaining] else proposed;
        Next(s.(know := s.know.(goals := s.know.goals + kept), goalExpansions := s.goalExpansions + 1))
  }
}
