/** The execution subgraph: program lookup, generation, validation, sandbox run, critique and the commit or
    rejection of one attempt, with the routes between them and the delta handed back to the main graph. */
module Execution {
  import opened Contracts
  import opened RunState
  import opened Numeric
  import opened ReviewAgenda
  import opened KnowledgeInvariant
  import opened Planning

  const MAX_STATIC_REPAIRS := 5
  const MAX_RUNTIME_REPAIRS := 1

  // ---------------------------------------------------------------- what the services answer

  datatype CodegenAnswer = NoCodegen | CodegenFailure(kind: Option<FailureKind>)
    | Generated(program: int, manifest: Manifest)
  datatype SandboxAnswer = Refused | RuntimeFailure | Produced(result: Json, figures: seq<int>)
  datatype CriticAnswer = NoCritic | CriticFailure(kind: Option<FailureKind>) | ReviewGiven(review: CriticReview)

  /** Everything the environment may answer during one node; each node reads the part it needs. */
  datatype ExecAnswer = ExecAnswer(
    cached: Option<(int, Manifest)>,
    codegen: CodegenAnswer,
    blocking: seq<ErrorCode>,
    warnings: seq<ErrorCode>,
    sandbox: SandboxAnswer,
    critic: CriticAnswer,
    evidenceId: EvidenceId,
    taskIds: seq<TaskId>)

  predicate IsStatic(c: ErrorCode) { c.StaticCode? }
  predicate IsResult(c: ErrorCode) { c.ResultCode? }

  // ---------------------------------------------------------------- nodes

  function LookupProgram(s: State, a: ExecAnswer): Outcome {
    if !Loadable(s) || s.intent.None? || s.profile.None? then Raised
    else if a.cached.None? then Next(s.(cycle := s.cycle.(program := None, manifest := None)))
    else
      Next(s.(cycle := s.cycle.(program := Some(a.cached.value.0), manifest := Some(a.cached.value.1), errors := [])))
  }

  function GenerateCode(s: State, a: ExecAnswer): Outcome {
    if !Loadable(s) || s.intent.None? || s.profile.None? then Raised
    else
      var dropped := s.cycle.(program := None, manifest := None, candidate := None);
      match a.codegen
      case NoCodegen => Next(Stop(s.(cycle := dropped), Failed, ServiceUnavailable))
      case CodegenFailure(kind) =>
        if StopsRun(kind) then
          var failure := ServiceFailure(CodegenRole, kind);
          Next(Stop(s.(cycle := dropped.(serviceFailure := Some(failure))), Failed, ServiceUnavailable))
        else
          Next(s.(cycle := dropped.(errors := [CodegenFailed],
                                    streak := BumpStreak(s.cycle.streak, [CodegenFailed]),
                                    staticRepairs := s.cycle.staticRepairs + 1)))
      case Generated(program, manifest) =>
        Next(s.(cycle := s.cycle.(program := Some(program), manifest := Some(manifest), errors := [], warnings := [])))
  }

  function ValidateCode(s: State, a: ExecAnswer): Outcome {
    if !Loadable(s) || s.intent.None? || s.profile.None? || s.cycle.program.None? || s.cycle.manifest.None? then Raised
    else if a.blocking == [] then Next(s.(cycle := s.cycle.(errors := [], warnings := a.warnings)))
    else
      Next(s.(cycle := s.cycle.(errors := a.blocking, warnings := a.warnings,
                                streak := BumpStreak(s.cycle.streak, a.blocking),
                                staticRepairs := s.cycle.staticRepairs + 1)))
  }

  function Execute(s: State, a: ExecAnswer): Outcome {
    if s.cycle.program.None? then Raised
    else
      match a.sandbox
      case Refused =>
        Next(s.(cycle := s.cycle.(candidate := None, errors := [ExecutionRefused],
                                  streak := BumpStreak(s.cycle.streak, [ExecutionRefused]))))
      case RuntimeFailure =>
        Next(s.(cycle := s.cycle.(candidate := None, errors := [RuntimeError],
                                  streak := BumpStreak(s.cycle.streak, [RuntimeError]),
                                  runtimeRepairs := s.cycle.runtimeRepairs + 1)))
      case Produced(result, figures) =>
        Next(s.(cycle := s.cycle.(candidate := Some(result), figures := figures, errors := [])))
  }

  function ValidateResult(s: State, a: ExecAnswer): Outcome {
    if !Loadable(s) || s.intent.None? || s.cycle.candidate.None? || s.cycle.program.None? || s.cycle.manifest.None?
    then Raised
    else if a.blocking == [] then Next(s.(cycle := s.cycle.(errors := [], warnings := s.cycle.warnings + a.warnings)))
    else
      Next(s.(cycle := s.cycle.(errors := a.blocking, warnings := s.cycle.warnings + a.warnings,
                                streak := BumpStreak(s.cycle.streak, a.blocking),
                                runtimeRepairs := s.cycle.runtimeRepairs + 1)))
  }

  /** `validate_critic_references`. */
  predicate CriticReferences(review: CriticReview, manifest: Manifest, ids: set<EvidenceId>) {
    && (ToSet(review.contradicts) + ToSet(review.revalidates)
        + ToSet(review.supersedes) + ToSet(review.reconciles)) <= ids
    && forall e | e in review.effects :: e.column in manifest.selectedColumns
  }

  /** The review as stored: bound to the candidate, or a placeholder when it breaks the contract. */
  function StoreReview(review: CriticReview, manifest: Manifest, ids: set<EvidenceId>, candidate: Json): StoredReview {
    if ValidReview(review) && CriticReferences(review, manifest, ids) && Bind(review, candidate).Some?
    then Reviewed(Bind(review, candidate).value)
    else Unreviewed
  }

  function Critique(s: State, a: ExecAnswer): Outcome {
    if a.critic.NoCritic? then
      Next(Stop(s.(cycle := s.cycle.(review := Some(Unreviewed))), Failed, ServiceUnavailable))
    else if !Loadable(s) || s.intent.None? || s.cycle.candidate.None? || s.cycle.program.None? || s.cycle.manifest.None?
    then Raised
    else
      match a.critic
      case CriticFailure(kind) =>
        var failure := ServiceFailure(CriticRole, kind);
        var t := s.(cycle := s.cycle.(review := Some(Unreviewed), serviceFailure := Some(failure)));
        Next(if StopsRun(kind) then Stop(t, Failed, ServiceUnavailable) else t)
      case ReviewGiven(review) =>
        Next(s.(cycle := s.cycle.(review :=
          Some(StoreReview(review, s.cycle.manifest.value, EvidenceIds(s.know.evidence), s.cycle.candidate.value)))))
  }

  /** `build_evidence`. */
  function BuildEvidence(s: State, intent: Intent, review: CriticReview, id: EvidenceId): EvidenceRecord
    requires s.cycle.candidate.Some? && s.cycle.program.Some? && s.cycle.manifest.Some? && s.profile.Some?
  {
    var m := s.cycle.manifest.value;
    EvidenceRecord(id, intent.intentId, intent.question, Strip(review.claim),
                   s.cycle.candidate.value, s.cycle.program.value, s.cycle.figures,
                   m.methodName, m.protocol, Lineage(s.dataset, s.profile.value.schema, m.transform),
                   m.selectedColumns, review.effects, review.uncertainty, review.uncertaintyPaths,
                   review.openQuestions, review.contradicts, intent.purpose, intent.goalId, intent.parents)
  }

  /** The checks `commit_evidence` repeats before it writes anything. */
  predicate Committable(s: State) {
    && Loadable(s) && s.intent.Some? && s.profile.Some?
    && s.cycle.candidate.Some? && s.cycle.program.Some? && s.cycle.manifest.Some?
    && s.cycle.review.Some? && s.cycle.review.value.Reviewed?
    && var review := s.cycle.review.value.review;
       && ValidReview(review) && review.verdict == Accept
       && CriticReferences(review, s.cycle.manifest.value, EvidenceIds(s.know.evidence))
       && Bind(review, s.cycle.candidate.value).Some?
  }

  function CommitEvidence(s: State, a: ExecAnswer): Outcome {
    if !Committable(s) then Raised
    else
      var intent := s.intent.value;
      var review := Bind(s.cycle.review.value.review, s.cycle.candidate.value).value;
      if |a.taskIds| != CandidateCount(review) then Raised
      else
        var record := BuildEvidence(s, intent, review, a.evidenceId);
        Next(s.(know := Commit(s.know, intent, review, record, a.taskIds), intent := None))
  }

  predicate IsStuck(s: State) {
    s.cycle.streak.count >= STUCK_THRESHOLD
  }

  function ReleaseOne(t: AgendaTask, intent: Intent): AgendaTask {
    if Some(t.taskId) == intent.taskId && t.status == InProgress then t.(status := Pending, selected := None) else t
  }

  function ReleaseTask(agenda: seq<AgendaTask>, intent: Intent): (r: seq<AgendaTask>)
    ensures |r| == |agenda|
  {
    seq(|agenda|, i requires 0 <= i < |agenda| => ReleaseOne(agenda[i], intent))
  }

  /** The loop of `reject_attempt`, with its `released` flag. */
  method ReleaseAgendaTask(agenda: seq<AgendaTask>, intent: Intent) returns (r: seq<AgendaTask>, released: bool)
    ensures r == ReleaseTask(agenda, intent)
    ensures released <==> r != agenda
  {
    r, released := [], false;
    for k := 0 to |agenda|
      invariant |r| == k
      invariant forall i :: 0 <= i < k ==> r[i] == ReleaseOne(agenda[i], intent)
      invariant released <==> exists i :: 0 <= i < k && r[i] != agenda[i]
    {
      var item := agenda[k];
      if Some(item.taskId) == intent.taskId && item.status == InProgress {
        item := item.(status := Pending, selected := None);
        released := true;
      }
      r := r + [item];
    }
  }

  function RejectStage(c: Cycle): Stage {
    if c.review.Some? then CriticStage else if c.candidate.Some? then ResultStage else CodeStage
  }

  function StuckIssues(s: State): seq<LoopIssue> {
    if IsStuck(s) then
      [LoopIssue(s.cycle.streak.key, s.cycle.streak.count, s.iteration,
                 if s.intent.Some? then Some(s.intent.value.intentId) else None)]
    else []
  }

  function RejectKnowledge(k: Knowledge, intent: Intent, stage: Stage, issues: seq<LoopIssue>): Knowledge {
    k.(agenda := ReleaseTask(k.agenda, intent),
       rejected := k.rejected
         + [RejectedAttempt(intent.intentId, DedupeKey(intent), stage, intent.goalId, intent.question)],
       issues := k.issues + issues)
  }

  function RejectAttempt(s: State): Outcome {
    if !Loadable(s) then Raised
    else
      var k := if s.intent.None? then s.know.(issues := s.know.issues + StuckIssues(s))
               else RejectKnowledge(s.know, s.intent.value, RejectStage(s.cycle), StuckIssues(s));
      Next(s.(know := k,
              cycle := if IsStuck(s) then s.cycle.(streak := NO_STREAK) else s.cycle,
              intent := None))
  }

  // ---------------------------------------------------------------- routes

  datatype ExecNode =
    | EntryNode | LookupNode | GenerateNode | ValidateCodeNode | ExecuteNode
    | ValidateResultNode | CritiqueNode | CommitNode | RejectNode | ExportNode

  function RouteAfterLookup(s: State): ExecNode {
    if s.cycle.program.Some? then ValidateCodeNode else GenerateNode
  }

  function RouteAfterGenerate(s: State): ExecNode {
    if s.terminal.Stopped() then ExportNode
    else if s.cycle.program.Some? && s.cycle.errors == [] then ValidateCodeNode
    else if IsStuck(s) || s.cycle.staticRepairs >= MAX_STATIC_REPAIRS then RejectNode
    else GenerateNode
  }

  function RouteAfterValidateCode(s: State): ExecNode {
    if s.cycle.errors == [] then ExecuteNode
    else if IsStuck(s) || s.cycle.staticRepairs >= MAX_STATIC_REPAIRS then RejectNode
    else GenerateNode
  }

  function RouteAfterExecute(s: State): ExecNode {
    if s.cycle.candidate.Some? then ValidateResultNode
    else if ExecutionRefused in s.cycle.errors then RejectNode
    else if s.cycle.runtimeRepairs <= MAX_RUNTIME_REPAIRS then GenerateNode
    else RejectNode
  }

  function RouteAfterValidateResult(s: State): ExecNode {
    if s.cycle.errors == [] then CritiqueNode
    else if s.cycle.runtimeRepairs <= MAX_RUNTIME_REPAIRS then GenerateNode
    else RejectNode
  }

  function RouteAfterCritique(s: State): ExecNode {
    if s.terminal.Stopped() then ExportNode
    else if s.cycle.review.Some? && s.cycle.review.value.Reviewed?
            && s.cycle.review.value.review.verdict == Accept && !Blank(s.cycle.review.value.review.claim)
    then CommitNode
    else RejectNode
  }

  // ---------------------------------------------------------------- delta

  datatype Lengths = Lengths(evidence: nat, relations: nat, rejected: nat, issues: nat)

  /** `capture_execution_entry`. */
  function EntryLengths(s: State): Lengths {
    Lengths(|s.know.evidence|, |s.know.relations|, |s.know.rejected|, |s.know.issues|)
  }

  predicate Grown(s: State, entry: Lengths) {
    && entry.evidence <= |s.know.evidence| && entry.relations <= |s.know.relations|
    && entry.rejected <= |s.know.rejected| && entry.issues <= |s.know.issues|
  }

  function Suffix<T>(xs: seq<T>, n: nat): Option<seq<T>>
    requires n <= |xs|
  {
    if xs[n..] == [] then None else Some(xs[n..])
  }

  /** `export_execution_delta`: every result field as it stands, and the appended suffixes that are not empty. */
  function ExportDelta(s: State, entry: Lengths): Delta
    requires Grown(s, entry)
  {
    Delta(s.cycle.program, s.cycle.manifest, s.cycle.candidate, s.cycle.figures, s.cycle.errors, s.cycle.warnings,
          s.cycle.staticRepairs, s.cycle.runtimeRepairs, s.cycle.streak, s.cycle.review,
          s.terminal.status, s.terminal.stopCode, s.cycle.serviceFailure, s.intent,
          s.know.agenda, s.know.goals, s.know.coverage,
          Suffix(s.know.evidence, entry.evidence), Suffix(s.know.relations, entry.relations),
          Suffix(s.know.rejected, entry.rejected), Suffix(s.know.issues, entry.issues))
  }

  function Appended<T>(xs: seq<T>, more: Option<seq<T>>): seq<T> {
    match more case None => xs case Some(ys) => xs + ys
  }

  /** `apply_execution_delta` under the graph's reducers: result fields overwrite, the four lists append. */
  function ApplyDelta(s: State): State {
    if s.delta.None? then s
    else
      var d := s.delta.value;
      s.(cycle := Cycle(d.program, d.manifest, d.candidate, d.figures, d.errors, d.warnings, d.staticRepairs,
                        d.runtimeRepairs, d.streak, d.review, d.serviceFailure),
         terminal := Terminal(d.status, d.stopCode),
         intent := d.intent,
         know := Knowledge(d.goals, d.agenda, Appended(s.know.evidence, d.evidence),
           Appended(s.know.relations, d.relations),
                           Appended(s.know.rejected, d.rejected), Appended(s.know.issues, d.issues), d.coverage),
         delta := None)
  }

  // ---------------------------------------------------------------- one step, and runs

  datatype ExecConfig = At(node: ExecNode, s: State, entry: Lengths) | Exported(delta: Delta) | Broken

  function Routed(o: Outcome, route: State -> ExecNode, entry: Lengths): ExecConfig {
    match o
    case Raised => Broken
    case Next(s) => At(route(s), s, entry)
  }

  function ExecStep(c: ExecConfig, a: ExecAnswer): ExecConfig {
    match c
    case Exported(_) => c
    case Broken => c
    case At(node, s, entry) =>
      match node
      case EntryNode => At(LookupNode, s, EntryLengths(s))
      case LookupNode => Routed(LookupProgram(s, a), RouteAfterLookup, entry)
      case GenerateNode => Routed(GenerateCode(s, a), RouteAfterGenerate, entry)
      case ValidateCodeNode => Routed(ValidateCode(s, a), RouteAfterValidateCode, entry)
      case ExecuteNode => Routed(Execute(s, a), RouteAfterExecute, entry)
      case ValidateResultNode => Routed(ValidateResult(s, a), RouteAfterValidateResult, entry)
      case CritiqueNode => Routed(Critique(s, a), RouteAfterCritique, entry)
      case CommitNode => Routed(CommitEvidence(s, a), _ => ExportNode, entry)
      case RejectNode => Routed(RejectAttempt(s), _ => ExportNode, entry)
      case ExportNode => if Grown(s, entry) then Exported(ExportDelta(s, entry)) else Broken
  }

  function ExecStart(p: State): ExecConfig {
    At(EntryNode, p, Lengths(0, 0, 0, 0))
  }

  function ExecRun(c: ExecConfig, answers: seq<ExecAnswer>): ExecConfig
    decreases |answers|
  {
    if answers == [] then c else ExecRun(ExecStep(c, answers[0]), answers[1..])
  }

  /** What the environment guarantees: lint codes are lint codes, result checks report result codes and never
      pass a non-finite number, and uuids are new. */
  ghost predicate ExecAnswerOk(c: ExecConfig, a: ExecAnswer) {
    c.At? ==>
      && (c.node == ValidateCodeNode ==> forall x :: x in a.blocking ==> IsStatic(x))
      && (c.node == ValidateResultNode ==>
            && (forall x :: x in a.blocking ==> IsResult(x))
            && (c.s.cycle.candidate.Some? && !AllFinite(c.s.cycle.candidate.value) ==> a.blocking != []))
      && (c.node == CommitNode ==>
            && a.evidenceId !in EvidenceIds(c.s.know.evidence)
            && FreshIds(a.taskIds, c.s.know.agenda)
            && (Committable(c.s) ==> |a.taskIds| == CandidateCount(c.s.cycle.review.value.review)))
  }

  ghost predicate ExecRunOk(c: ExecConfig, answers: seq<ExecAnswer>)
    decreases |answers|
  {
    answers != [] ==> c.At? && ExecAnswerOk(c, answers[0]) && ExecRunOk(ExecStep(c, answers[0]), answers[1..])
  }
}
