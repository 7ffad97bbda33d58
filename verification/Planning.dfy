/** Planning nodes: the planner's verdict on goals, the choice of the next intent, and the two actions that
    answer it without running code (linking existing evidence, closing a task as data limited). */
module Planning {
  import opened Contracts
  import opened RunState
  import opened IntentPolicy

  /** A node either returns an update or raises. */
  datatype Outcome = Next(state: State) | Raised

  const STUCK_THRESHOLD := 5

  datatype GoalVerdict = GoalVerdict(converged: set<GoalId>, abandoned: set<GoalId>, finished: bool)

  datatype PlannerAnswer =
    | NoPlanner
    | Proposal(intent: Option<Intent>, verdict: GoalVerdict, failed: bool, kind: Option<FailureKind>)

  /** Reading the state back validates every stored task, relation and intent. */
  predicate Loadable(s: State) {
    && (forall t | t in s.know.agenda :: ValidTask(t))
    && (forall r | r in s.know.relations :: ValidRelation(r))
    && (s.intent.Some? ==> ValidIntent(s.intent.value))
  }

  function Stop(s: State, status: RunStatus, code: StopCode): State {
    s.(terminal := Terminal(status, Some(code)))
  }

  // ---------------------------------------------------------------- error streaks

  function CodeSet(errors: seq<ErrorCode>): set<ErrorCode> {
    set c | c in errors
  }

  /** `bump_error_streak`: the count continues only while the same set of codes repeats. */
  function BumpStreak(streak: Streak, errors: seq<ErrorCode>): Streak {
    var key := CodeSet(errors);
    if key == {} then NO_STREAK
    else Streak(key, if streak.key == key then streak.count + 1 else 1)
  }

  // ---------------------------------------------------------------- goals

  predicate HasCurrentEvidence(s: State, goal: GoalId) {
    exists e | e in s.know.evidence :: e.goalId == Some(goal) && IsCurrent(s, e)
  }

  predicate WasRejected(s: State, goal: GoalId) {
    exists r | r in s.know.rejected :: r.goalId == Some(goal)
  }

  predicate HasLiveTaskFor(agenda: seq<AgendaTask>, goal: GoalId) {
    exists t | t in agenda :: t.Live() && t.goalId == Some(goal)
  }

  /** One goal under a verdict: convergence needs current evidence and no live task, abandonment an attempt. */
  function JudgeGoal(s: State, v: GoalVerdict, g: SubGoal): SubGoal {
    if !g.IsOpen() then g
    else if g.goalId in v.converged then
      if !HasLiveTaskFor(s.know.agenda, g.goalId) && HasCurrentEvidence(s, g.goalId) then g.(status := Converged) else g
    else if g.goalId in v.abandoned
      && (HasCurrentEvidence(s, g.goalId) || WasRejected(s, g.goalId)) then g.(status := Abandoned)
    else g
  }

  function ApplyVerdict(s: State, v: GoalVerdict): (r: seq<SubGoal>)
    ensures |r| == |s.know.goals|
  {
    seq(|s.know.goals|, i requires 0 <= i < |s.know.goals| => JudgeGoal(s, v, s.know.goals[i]))
  }

  predicate Names(v: GoalVerdict, g: SubGoal) {
    g.IsOpen() && (g.goalId in v.converged || g.goalId in v.abandoned)
  }

  /** The verdict is recorded as a change whenever it names an open goal, even if it is refused. */
  predicate VerdictNoted(goals: seq<SubGoal>, v: GoalVerdict) {
    exists g | g in goals :: Names(v, g)
  }

  function Tally(m: map<GoalId, nat>, g: GoalId): nat {
    if g in m then m[g] else 0
  }

  method CountEvidence(s: State) returns (supported: map<GoalId, nat>)
    ensures forall g :: Tally(supported, g) > 0 <==> HasCurrentEvidence(s, g)
  {
    supported := map[];
    for k := 0 to |s.know.evidence|
      invariant forall g :: Tally(supported, g) > 0 <==>
        exists e :: e in s.know.evidence[..k] && e.goalId == Some(g) && IsCurrent(s, e)
    {
      var e := s.know.evidence[k];
      assert s.know.evidence[..k + 1] == s.know.evidence[..k] + [e];
      if IsCurrent(s, e) && e.goalId.Some? {
        supported := supported[e.goalId.value := Tally(supported, e.goalId.value) + 1];
      }
    }
    assert s.know.evidence[..|s.know.evidence|] == s.know.evidence;
  }

  method CountAttempts(s: State, supported: map<GoalId, nat>) returns (attempted: map<GoalId, nat>)
    ensures forall g :: Tally(attempted, g) > 0 <==> Tally(supported, g) > 0 || WasRejected(s, g)
  {
    attempted := supported;
    for k := 0 to |s.know.rejected|
      invariant forall g :: Tally(attempted, g) > 0 <==>
        Tally(supported, g) > 0 || exists r :: r in s.know.rejected[..k] && r.goalId == Some(g)
    {
      var r := s.know.rejected[k];
      assert s.know.rejected[..k + 1] == s.know.rejected[..k] + [r];
      if r.goalId.Some? {
        attempted := attempted[r.goalId.value := Tally(attempted, r.goalId.value) + 1];
      }
    }
    assert s.know.rejected[..|s.know.rejected|] == s.know.rejected;
  }

  /** `apply_goal_verdict`, over the evidence and attempt counts and the goals that live tasks block. */
  method ApplyGoalVerdict(s: State, v: GoalVerdict, supported: map<GoalId, nat>, attempted: map<GoalId, nat>,
                          blocked: set<GoalId>)
    returns (updated: seq<SubGoal>, noted: bool)
    requires forall g :: Tally(supported, g) > 0 <==> HasCurrentEvidence(s, g)
    requires forall g :: Tally(attempted, g) > 0 <==> HasCurrentEvidence(s, g) || WasRejected(s, g)
    requires forall g :: g in blocked <==> HasLiveTaskFor(s.know.agenda, g)
    ensures updated == ApplyVerdict(s, v)
    ensures noted == VerdictNoted(s.know.goals, v)
  {
    updated, noted := [], false;
    for k := 0 to |s.know.goals|
      invariant |updated| == k
      invariant forall i :: 0 <= i < k ==> updated[i] == JudgeGoal(s, v, s.know.goals[i])
      invariant noted == VerdictNoted(s.know.goals[..k], v)
    {
      var goal := s.know.goals[k];
      assert VerdictNoted(s.know.goals[..k + 1], v) <==> VerdictNoted(s.know.goals[..k], v) || Names(v, goal) by {
        assert s.know.goals[..k + 1] == s.know.goals[..k] + [goal];
        assert goal in s.know.goals[..k + 1];
      }
      if goal.IsOpen() && goal.goalId in v.converged {
        noted := true;
        if goal.goalId !in blocked && Tally(supported, goal.goalId) > 0 {
          goal := goal.(status := Converged);
        }
      } else if goal.IsOpen() && goal.goalId in v.abandoned {
        noted := true;
        if Tally(attempted, goal.goalId) > 0 {
          goal := goal.(status := Abandoned);
        }
      }
      updated := updated + [goal];
    }
    assert s.know.goals[..|s.know.goals|] == s.know.goals;
  }

  /** `goal_progress`. */
  method GoalProgress(s: State, v: GoalVerdict) returns (updated: seq<SubGoal>, noted: bool)
    ensures updated == ApplyVerdict(s, v)
    ensures noted == VerdictNoted(s.know.goals, v)
  {
    var supported := CountEvidence(s);
    var attempted := CountAttempts(s, supported);
    var blocked := set t | t in s.know.agenda && t.Live() && t.goalId.Some? :: t.goalId.value;
    updated, noted := ApplyGoalVerdict(s, v, supported, attempted, blocked);
  }

  // ---------------------------------------------------------------- plan_intent

  /** `stalled`: one more round without an intent, and the end of the run at the threshold. */
  function Stalled(s: State, goals: seq<SubGoal>, planned: bool): State {
    var streak := BumpStreak(s.cycle.streak, [NoIntentCode]);
    var t := s.(know := s.know.(goals := goals), intent := None, plannerError := planned,
      cycle := s.cycle.(streak := streak));
    if streak.count < STUCK_THRESHOLD then t
    else
      Stop(t.(know := t.know.(issues := t.know.issues + [LoopIssue(streak.key, streak.count, s.iteration, None)])),
           Failed, PlannerStuck)
  }

  predicate AllClosed(goals: seq<SubGoal>) {
    forall g | g in goals :: !g.IsOpen()
  }

  /** `no_intent`, with the service failure `plan_intent` records on a planner outage. */
  function NoIntent(s: State, goals: seq<SubGoal>, a: PlannerAnswer): State
    requires a.Proposal?
  {
    if a.verdict.finished && AllClosed(goals) then
      if HasLiveTask(s.know.agenda) then Stalled(s, goals, true)
      else s.(know := s.know.(goals := goals), intent := None, plannerError := false)
    else if !a.failed then Stalled(s, goals, false)
    else if StopsRun(a.kind) then
      Stop(s.(know := s.know.(goals := goals), intent := None,
              cycle := s.cycle.(serviceFailure := Some(ServiceFailure(PlannerRole, a.kind)))),
           Failed, ServiceUnavailable)
    else Stalled(s, goals, true)
  }

  function SelectOne(t: AgendaTask, intent: Intent): AgendaTask {
    if Some(t.taskId) == intent.taskId
    then t.(status := InProgress, selected := Some(intent.intentId), attempts := t.attempts + 1)
    else t
  }

  function SelectTask(agenda: seq<AgendaTask>, intent: Intent): (r: seq<AgendaTask>)
    ensures |r| == |agenda|
  {
    if intent.taskId.Some? && intent.mode == Compute
    then seq(|agenda|, i requires 0 <= i < |agenda| => SelectOne(agenda[i], intent))
    else agenda
  }

  /** The agenda loop of `plan_intent`. */
  method SelectAgendaTask(agenda: seq<AgendaTask>, intent: Intent) returns (r: seq<AgendaTask>)
    ensures r == SelectTask(agenda, intent)
  {
    if intent.taskId.None? || intent.mode != Compute {
      return agenda;
    }
    r := [];
    for k := 0 to |agenda|
      invariant |r| == k
      invariant forall i :: 0 <= i < k ==> r[i] == SelectOne(agenda[i], intent)
    {
      var item := agenda[k];
      if item.taskId == intent.taskId.value {
        item := item.(status := InProgress, selected := Some(intent.intentId), attempts := item.attempts + 1);
      }
      r := r + [item];
    }
  }

  /** The state of a new cycle: transient fields reset, goals judged, task selected, iteration advanced. */
  function Accepted(s: State, goals: seq<SubGoal>, intent: Intent): State {
    s.(cycle := FRESH_CYCLE,
       plannerError := false,
       know := s.know.(goals := goals, agenda := SelectTask(s.know.agenda, intent)),
       intent := Some(intent),
       iteration := s.iteration + 1)
  }

  function PlanIntent(s: State, a: PlannerAnswer): Outcome {
    if s.profile.None? || !Loadable(s) then Raised
    else if a.NoPlanner? then Next(Stop(s, Failed, ServiceUnavailable))
    else
      var goals := ApplyVerdict(s, a.verdict);
      if a.intent.None? then Next(NoIntent(s, goals, a))
      else
        var error := RejectedIntent(s, s.profile.value, a.intent.value, goals, VerdictNoted(s.know.goals, a.verdict));
        if error.Some? then Next(Stalled(s, goals, true))
        else Next(Accepted(s, goals, a.intent.value))
  }

  // ---------------------------------------------------------------- reuse_evidence

  /** First occurrences, in order. */
  function Unique(ids: seq<EvidenceId>): seq<EvidenceId> {
    if ids == [] then []
    else
      var front, last := Unique(ids[..|ids| - 1]), ids[|ids| - 1];
      if last in front then front else front + [last]
  }

  function LinkReused(goals: seq<SubGoal>, goalId: GoalId, ids: seq<EvidenceId>): (r: seq<SubGoal>)
    ensures |r| == |goals|
  {
    seq(|goals|, i requires 0 <= i < |goals| =>
      if goals[i].goalId == goalId then goals[i].(evidenceIds := Unique(goals[i].evidenceIds + ids)) else goals[i])
  }

  predicate Reusable(s: State, intent: Intent) {
    forall id | id in intent.reuse :: id in EvidenceIds(s.know.evidence) && !IsStale(s, id)
  }

  function ReuseEvidenceNode(s: State): Outcome {
    if !Loadable(s) || s.intent.None? || s.intent.value.mode != ReuseEvidence || s.intent.value.goalId.None?
       || !Reusable(s, s.intent.value)
    then Raised
    else
      Next(s.(know := s.know.(goals := LinkReused(s.know.goals, s.intent.value.goalId.value, s.intent.value.reuse)),
              intent := None))
  }

  /** The goal loop of `reuse_evidence`. */
  method LinkReusedEvidence(goals: seq<SubGoal>, goalId: GoalId, ids: seq<EvidenceId>) returns (r: seq<SubGoal>)
    ensures r == LinkReused(goals, goalId, ids)
  {
    r := [];
    for k := 0 to |goals|
      invariant |r| == k
      invariant forall i :: 0 <= i < k ==> r[i] == LinkReused(goals, goalId, ids)[i]
    {
      var goal := goals[k];
      if goal.goalId == goalId {
        goal := goal.(evidenceIds := Unique(goal.evidenceIds + ids));
      }
      r := r + [goal];
    }
  }

  // ---------------------------------------------------------------- mark_data_limited

  function LimitReason(intent: Intent): string {
    if Strip(intent.rationale) != "" then Strip(intent.rationale) else intent.question
  }

  function LimitOne(t: AgendaTask, intent: Intent): AgendaTask {
    if Some(t.taskId) == intent.taskId then t.(status := DataLimited, selected := None, reason := LimitReason(intent))
      else t
  }

  function LimitTask(agenda: seq<AgendaTask>, intent: Intent): (r: seq<AgendaTask>)
    ensures |r| == |agenda|
  {
    seq(|agenda|, i requires 0 <= i < |agenda| => LimitOne(agenda[i], intent))
  }

  predicate Limitable(agenda: seq<AgendaTask>, intent: Intent) {
    && (exists t | t in agenda :: Some(t.taskId) == intent.taskId)
    && (forall t | t in agenda :: Some(t.taskId) == intent.taskId ==> t.attempts >= 1)
  }

  /** The loop of `mark_data_limited`; `None` where the source raises. */
  method LimitAgendaTask(agenda: seq<AgendaTask>, intent: Intent) returns (r: Option<seq<AgendaTask>>)
    ensures r == if Limitable(agenda, intent) then Some(LimitTask(agenda, intent)) else None
  {
    var updated: seq<AgendaTask> := [];
    var resolved := false;
    for k := 0 to |agenda|
      invariant |updated| == k
      invariant forall i :: 0 <= i < k ==> updated[i] == LimitOne(agenda[i], intent)
      invariant resolved <==> exists t :: t in agenda[..k] && Some(t.taskId) == intent.taskId
      invariant forall t :: t in agenda[..k] && Some(t.taskId) == intent.taskId ==> t.attempts >= 1
    {
      var item := agenda[k];
      assert agenda[..k + 1] == agenda[..k] + [item];
      if Some(item.taskId) == intent.taskId {
        if item.attempts < 1 {
          assert item in agenda;
          return None;
        }
        item := item.(status := DataLimited, selected := None, reason := LimitReason(intent));
        resolved := true;
      }
      updated := updated + [item];
    }
    assert agenda[..|agenda|] == agenda;
    if !resolved {
      return None;
    }
    assert updated == LimitTask(agenda, intent);
    return Some(updated);
  }

  function MarkDataLimitedNode(s: State): Outcome {
    if !Loadable(s) || s.intent.None? || s.intent.value.mode != MarkDataLimited
      || !Limitable(s.know.agenda, s.intent.value)
    then Raised
    else Next(s.(know := s.know.(agenda := LimitTask(s.know.agenda, s.intent.value)), intent := None))
  }

  // ---------------------------------------------------------------- read-only actions

  /** `inspect_data`: every inspected column is read from the data frame. */
  function InspectDataNode(s: State): Outcome {
    if !Loadable(s) || s.intent.None? || s.intent.value.mode != InspectData || s.profile.None?
       || !(ToSet(s.intent.value.candidates) <= s.profile.value.columns)
    then Raised
    else Next(s.(inspections := s.inspections + [ToSet(s.intent.value.candidates)], intent := None))
  }

  function LookupEvidenceNode(s: State): Outcome {
    if !Loadable(s) || s.intent.None? || s.intent.value.mode != LookupEvidence then Raised
    else Next(s.(lookups := s.lookups + [LookupKeyOf(s.intent.value)], intent := None))
  }
}
