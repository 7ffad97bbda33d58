/** The checks a proposed research intent must pass before it becomes the active intent. */
module IntentPolicy {
  import opened Contracts
  import opened RunState

  datatype PolicyError =
    | UnknownColumn | UnknownEvidence | GoalNotOpen
    | TaskNotLive
    | WrongPurpose | WrongMode | NeverAttempted | OtherGoal | MissingSources
    | RepeatedInspection | RepeatedLookup
    | ClosedGoal
    | SupersededReuse | StaleReuse
    | DuplicateAnalysis

  // ---------------------------------------------------------------- references

  function OpenGoalIds(goals: seq<SubGoal>): set<GoalId> {
    set g | g in goals && g.IsOpen() :: g.goalId
  }

  function ClosedGoalIds(goals: seq<SubGoal>): set<GoalId> {
    set g | g in goals && !g.IsOpen() :: g.goalId
  }

  predicate ColumnsKnown(intent: Intent, columns: set<Column>) {
    ToSet(intent.candidates) + ToSet(intent.required) + ToSet(intent.excluded) <= columns
  }

  /** `validate_intent_references`; `None` where the source does not raise. */
  function ReferenceError(intent: Intent, profile: Profile, goals: seq<SubGoal>,
                          ids: set<EvidenceId>): Option<PolicyError>
  {
    if !ColumnsKnown(intent, profile.columns) then Some(UnknownColumn)
    else if !(ToSet(intent.parents) + ToSet(intent.reuse) <= ids) then Some(UnknownEvidence)
    else if intent.goalId.Some? && intent.goalId.value !in OpenGoalIds(goals) then Some(GoalNotOpen)
    else None
  }

  // ---------------------------------------------------------------- agenda contract

  /** `agenda_intent_error`. */
  function AgendaIntentError(task: AgendaTask, intent: Intent): Option<PolicyError> {
    if task.kind == ResolveContradiction && intent.purpose != ResolveConflict then Some(WrongPurpose)
    else if task.kind == FollowUp && intent.purpose == Explore then Some(WrongPurpose)
    else if task.kind == Revalidate && intent.purpose != Challenge then Some(WrongPurpose)
    else if intent.mode != Compute && intent.mode != MarkDataLimited then Some(WrongMode)
    else if intent.mode == MarkDataLimited && task.attempts < 1 then Some(NeverAttempted)
    else if task.goalId.Some? && intent.goalId != task.goalId then Some(OtherGoal)
    else if !(ToSet(task.sources) <= ToSet(intent.parents)) then Some(MissingSources)
    else None
  }

  /** The pending dictionary of `rejected_intent`: the last live task carrying the id. */
  function LiveTask(agenda: seq<AgendaTask>, id: TaskId): (r: Option<AgendaTask>)
    ensures r.Some? ==> r.value in agenda && r.value.Live() && r.value.taskId == id
    ensures r.None? ==> forall t :: t in agenda && t.Live() ==> t.taskId != id
  {
    if agenda == [] then None
    else
      var last := agenda[|agenda| - 1];
      if last.Live() && last.taskId == id then Some(last) else LiveTask(agenda[..|agenda| - 1], id)
  }

  function TaskError(agenda: seq<AgendaTask>, intent: Intent): Option<PolicyError> {
    if intent.taskId.None? then None
    else
      match LiveTask(agenda, intent.taskId.value)
      case None => Some(TaskNotLive)
      case Some(task) => AgendaIntentError(task, intent)
  }

  // ---------------------------------------------------------------- repetition and reuse

  function LookupKeyOf(intent: Intent): LookupKey {
    LookupKey(intent.goalId, ToSet(intent.candidates), ToSet(intent.parents))
  }

  /** `repeated_action_error`. */
  function RepeatedActionError(s: State, intent: Intent): Option<PolicyError> {
    if intent.mode == InspectData && ToSet(intent.candidates) in s.inspections then Some(RepeatedInspection)
    else if intent.mode == LookupEvidence && LookupKeyOf(intent) in s.lookups then Some(RepeatedLookup)
    else None
  }

  predicate IsStale(s: State, id: EvidenceId) {
    exists e | e in s.know.evidence :: e.evidenceId == id && DataApplicability(s, e) != ExactSnapshot
  }

  function ReuseError(s: State, intent: Intent): Option<PolicyError> {
    if exists id | id in intent.reuse :: Superseded(s.know.relations, id) then Some(SupersededReuse)
    else if exists id | id in intent.reuse :: IsStale(s, id) then Some(StaleReuse)
    else None
  }

  /** The loop of `reuse_evidence_error` over a dictionary by id; with distinct ids it finds staleness exactly. */
  method ReuseEvidenceError(s: State, intent: Intent) returns (error: Option<PolicyError>, stale: set<EvidenceId>)
    ensures error == ReuseError(s, intent)
    ensures error != Some(SupersededReuse) ==> forall id :: id in stale <==> id in intent.reuse && IsStale(s, id)
  {
    stale := {};
    if exists id | id in intent.reuse :: Superseded(s.know.relations, id) {
      return Some(SupersededReuse), stale;
    }
    for k := 0 to |intent.reuse|
      invariant forall id :: id in stale <==> id in intent.reuse[..k] && IsStale(s, id)
    {
      var id := intent.reuse[k];
      assert intent.reuse[..k + 1] == intent.reuse[..k] + [id];
      if IsStale(s, id) {
        stale := stale + {id};
      }
    }
    assert intent.reuse[..|intent.reuse|] == intent.reuse;
    if id :| id in stale {
      return Some(StaleReuse), stale;
    }
    return None, stale;
  }

  // ---------------------------------------------------------------- the whole policy

  /** `rejected_intent`: the first check that fails, in the source's order. `goals` are the goals the planner
      saw, `updated` those after its verdict, and `judged` says the verdict named an open goal. */
  function RejectedIntent(s: State, profile: Profile, intent: Intent, updated: seq<SubGoal>,
                          judged: bool): Option<PolicyError>
  {
    var references := ReferenceError(intent, profile, s.know.goals, EvidenceIds(s.know.evidence));
    var task := TaskError(s.know.agenda, intent);
    var repeated := RepeatedActionError(s, intent);
    if references.Some? then references
    else if task.Some? then task
    else if repeated.Some? then repeated
    else if intent.goalId.Some? && judged && intent.goalId.value in ClosedGoalIds(updated) then Some(ClosedGoal)
    else if intent.mode == ReuseEvidence && ReuseError(s, intent).Some? then ReuseError(s, intent)
    else if DedupeKey(intent) in s.know.coverage.testedKeys then Some(DuplicateAnalysis)
    else None
  }
}
