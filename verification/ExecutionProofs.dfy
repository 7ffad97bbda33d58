/** Theorems about the execution subgraph: its invariant, termination and repair limits, the pedigree of every
    commit, and the agreement of the exported delta with running the nodes inline. */
module ExecutionProofs {
  import opened Contracts
  import opened RunState
  import opened Numeric
  import opened ReviewEvidence
  import opened KnowledgeInvariant
  import opened Planning
  import opened Execution

  // ---------------------------------------------------------------- entry condition and invariant

  /** A state about to run code for its active intent. */
  ghost predicate ExecReady(p: State) {
    && KnowledgeOk(p.know)
    && p.profile.Some? && p.intent.Some? && ValidIntent(p.intent.value)
    && KnownReferences(p.know, p.intent.value)
    && DedupeKey(p.intent.value) !in p.know.coverage.testedKeys
    && ActiveTask(p.know.agenda, p.intent.value)
    && p.terminal == Terminal(Running, None)
    && p.cycle == FRESH_CYCLE
    && p.delta.None?
  }

  ghost predicate StaticKey(key: set<ErrorCode>) {
    forall c :: c in key ==> c == CodegenFailed || IsStatic(c)
  }

  /** A streak of static errors never outruns the static repairs of the same cycle. */
  ghost predicate StreakBounded(c: Cycle) {
    StaticKey(c.streak.key) ==> c.streak.count <= c.staticRepairs
  }

  predicate HasProgram(c: Cycle) {
    c.program.Some? && c.manifest.Some?
  }

  predicate HasFiniteCandidate(c: Cycle) {
    c.candidate.Some? && AllFinite(c.candidate.value)
  }

  /** A stored review that the commit will accept for this candidate. */
  ghost predicate AcceptedReview(k: Knowledge, c: Cycle) {
    && HasProgram(c) && HasFiniteCandidate(c)
    && c.review.Some? && c.review.value.Reviewed?
    && var r := c.review.value.review;
       && ValidReview(r) && r.verdict == Accept
       && CriticReferences(r, c.manifest.value, EvidenceIds(k.evidence))
       && Bind(r, c.candidate.value) == Some(r)
  }

  ghost predicate CycleOk(p: State, node: ExecNode, c: Cycle) {
    && StreakBounded(c)
    && (c.program.Some? ==> c.manifest.Some?)
    && match node
       case EntryNode => c == FRESH_CYCLE
       case LookupNode => c == FRESH_CYCLE
       case GenerateNode => c.staticRepairs <= 4 && c.runtimeRepairs <= 1
       case ValidateCodeNode => HasProgram(c) && c.staticRepairs <= 4 && c.runtimeRepairs <= 1
       case ExecuteNode => HasProgram(c) && c.errors == [] && c.staticRepairs <= 4 && c.runtimeRepairs <= 1
       case ValidateResultNode =>
         HasProgram(c) && c.candidate.Some? && c.errors == [] && c.staticRepairs <= 4 && c.runtimeRepairs <= 1
       case CritiqueNode => HasProgram(c) && HasFiniteCandidate(c) && c.errors == []
       case CommitNode => AcceptedReview(p.know, c) && c.errors == []
       case RejectNode => true
       case ExportNode => true
  }

  /** How an attempt can end: with the service gone, with one committed record, or with one rejection. */
  ghost predicate StoppedFrom(p: State, s: State) {
    s == p.(cycle := s.cycle, terminal := Terminal(Failed, Some(ServiceUnavailable)))
  }

  ghost predicate CommittedFrom(p: State, s: State) {
    exists review, record, ids :: CommittedWith(p, s, review, record, ids)
  }

  ghost predicate CommittedWith(p: State, s: State, review: CriticReview, record: EvidenceRecord, ids: seq<TaskId>) {
    && p.intent.Some? && p.profile.Some?
    && CommitReady(p.know, p.intent.value, review, record, ids)
    && record.lineage.datasetSha == p.dataset && record.lineage.schema == p.profile.value.schema
    && s == p.(cycle := s.cycle, know := Commit(p.know, p.intent.value, review, record, ids), intent := None)
  }

  ghost predicate RejectedFrom(p: State, s: State) {
    exists stage, issues :: RejectedWith(p, s, stage, issues)
  }

  ghost predicate RejectedWith(p: State, s: State, stage: Stage, issues: seq<LoopIssue>) {
    p.intent.Some? && s == p.(cycle := s.cycle, know := RejectKnowledge(p.know, p.intent.value, stage, issues),
      intent := None)
  }

  ghost predicate AttemptEnded(p: State, s: State) {
    StoppedFrom(p, s) || CommittedFrom(p, s) || RejectedFrom(p, s)
  }

  /** Before an attempt ends only the cycle has changed; everything else is still the entry state. */
  ghost predicate ExecInv(p: State, c: ExecConfig) {
    match c
    case Broken => false
    case At(node, s, entry) =>
      && (if node == ExportNode then AttemptEnded(p, s) else s == p.(cycle := s.cycle) && CycleOk(p, node, s.cycle))
      && (node != EntryNode ==> entry == EntryLengths(p))
    case Exported(delta) =>
      exists s :: AttemptEnded(p, s) && Grown(s, EntryLengths(p)) && delta == ExportDelta(s, EntryLengths(p))
  }

  // ---------------------------------------------------------------- one step

  lemma ReadyIsLoadable(p: State)
    requires ExecReady(p)
    ensures Loadable(p)
  {
  }

  lemma BumpBounded(c: Cycle, errors: seq<ErrorCode>)
    requires StreakBounded(c) && errors != []
    requires forall x :: x in errors ==> x == CodegenFailed || IsStatic(x)
    ensures StreakBounded(c.(streak := BumpStreak(c.streak, errors), staticRepairs := c.staticRepairs + 1))
    ensures StaticKey(BumpStreak(c.streak, errors).key)
  {
    assert errors[0] in CodeSet(errors);
  }

  lemma BumpOther(c: Cycle, errors: seq<ErrorCode>)
    requires StreakBounded(c) && errors != []
    requires forall x :: x in errors ==> x != CodegenFailed && !IsStatic(x)
    ensures !StaticKey(BumpStreak(c.streak, errors).key)
  {
    assert errors[0] in CodeSet(errors);
  }

  /** At the static routes the streak test adds nothing: a stuck cycle has already used its static repairs. */
  lemma StuckImpliesStaticLimit(s: State)
    requires StreakBounded(s.cycle) && StaticKey(s.cycle.streak.key) && IsStuck(s)
    ensures s.cycle.staticRepairs >= MAX_STATIC_REPAIRS
  {
  }

  lemma StaticFailureRoutes(s: State)
    requires StreakBounded(s.cycle) && StaticKey(s.cycle.streak.key) && s.cycle.errors != [] && !s.terminal.Stopped()
    ensures RouteAfterValidateCode(s)
      == if s.cycle.staticRepairs >= MAX_STATIC_REPAIRS then RejectNode else GenerateNode
    ensures s.cycle.program.None? ==> RouteAfterGenerate(s) == RouteAfterValidateCode(s)
  {
    if IsStuck(s) {
      StuckImpliesStaticLimit(s);
    }
  }

  lemma GenerateKeeps(p: State, s: State, entry: Lengths, a: ExecAnswer)
    requires ExecReady(p) && ExecInv(p, At(GenerateNode, s, entry))
    ensures ExecInv(p, ExecStep(At(GenerateNode, s, entry), a))
  {
    ReadyIsLoadable(p);
    if a.codegen.CodegenFailure? && !StopsRun(a.codegen.kind) {
      BumpBounded(s.cycle.(program := None, manifest := None, candidate := None), [CodegenFailed]);
      StaticFailureRoutes(GenerateCode(s, a).state);
    }
  }

  lemma ValidateCodeKeeps(p: State, s: State, entry: Lengths, a: ExecAnswer)
    requires ExecReady(p) && ExecInv(p, At(ValidateCodeNode, s, entry))
      && ExecAnswerOk(At(ValidateCodeNode, s, entry), a)
    ensures ExecInv(p, ExecStep(At(ValidateCodeNode, s, entry), a))
  {
    ReadyIsLoadable(p);
    if a.blocking != [] {
      BumpBounded(s.cycle, a.blocking);
      StaticFailureRoutes(ValidateCode(s, a).state);
    }
  }

  lemma ExecuteKeeps(p: State, s: State, entry: Lengths, a: ExecAnswer)
    requires ExecReady(p) && ExecInv(p, At(ExecuteNode, s, entry))
    ensures ExecInv(p, ExecStep(At(ExecuteNode, s, entry), a))
  {
    match a.sandbox
    case Refused => BumpOther(s.cycle, [ExecutionRefused]);
    case RuntimeFailure => BumpOther(s.cycle, [RuntimeError]);
    case Produced(_, _) =>
  }

  lemma ValidateResultKeeps(p: State, s: State, entry: Lengths, a: ExecAnswer)
    requires ExecReady(p) && ExecInv(p, At(ValidateResultNode, s, entry))
      && ExecAnswerOk(At(ValidateResultNode, s, entry), a)
    ensures ExecInv(p, ExecStep(At(ValidateResultNode, s, entry), a))
  {
    ReadyIsLoadable(p);
    if a.blocking != [] {
      BumpOther(s.cycle, a.blocking);
    }
  }

  /** A stored review still satisfies, against the same result, everything the commit will check. */
  lemma StoredReviewHolds(review: CriticReview, manifest: Manifest, ids: set<EvidenceId>, result: Json)
    requires StoreReview(review, manifest, ids, result).Reviewed?
    ensures var r := StoreReview(review, manifest, ids, result).review;
      ValidReview(r) && CriticReferences(r, manifest, ids) && Bind(r, result) == Some(r)
  {
    BindMeaning(review, result);
    BindIdempotent(review, result);
  }

  lemma CritiqueKeeps(p: State, s: State, entry: Lengths, a: ExecAnswer)
    requires ExecReady(p) && ExecInv(p, At(CritiqueNode, s, entry))
    ensures ExecInv(p, ExecStep(At(CritiqueNode, s, entry), a))
  {
    ReadyIsLoadable(p);
    if a.critic.ReviewGiven? {
      var review, manifest, result := a.critic.review, s.cycle.manifest.value, s.cycle.candidate.value;
      if StoreReview(review, manifest, EvidenceIds(s.know.evidence), result).Reviewed? {
        StoredReviewHolds(review, manifest, EvidenceIds(s.know.evidence), result);
      }
    }
  }

  lemma ReferencesRefer(review: CriticReview, manifest: Manifest, ids: set<EvidenceId>)
    requires CriticReferences(review, manifest, ids)
    ensures ReviewRefers(review, ids)
  {
    forall x | x in review.contradicts || x in review.revalidates || x in review.supersedes || x in review.reconciles
      ensures x in ids
    {
      assert x in ToSet(review.contradicts) + ToSet(review.revalidates)
        + ToSet(review.supersedes) + ToSet(review.reconciles);
    }
  }

  /** The checks repeated at the commit succeed, so it raises nothing and writes one bound record. */
  lemma CommitKeeps(p: State, s: State, entry: Lengths, a: ExecAnswer)
    requires ExecReady(p) && ExecInv(p, At(CommitNode, s, entry)) && ExecAnswerOk(At(CommitNode, s, entry), a)
    ensures ExecStep(At(CommitNode, s, entry), a).At? && CommittedFrom(p, ExecStep(At(CommitNode, s, entry), a).s)
    ensures ExecInv(p, ExecStep(At(CommitNode, s, entry), a))
  {
    ReadyIsLoadable(p);
    var review, result := s.cycle.review.value.review, s.cycle.candidate.value;
    var record := BuildEvidence(s, p.intent.value, review, a.evidenceId);
    BindIdempotent(review, result);
    ReferencesRefer(review, s.cycle.manifest.value, EvidenceIds(p.know.evidence));
    assert FromResult(record);
    assert CommittedWith(p, CommitEvidence(s, a).state, review, record, a.taskIds);
  }

  lemma RejectKeeps(p: State, s: State, entry: Lengths)
    requires ExecReady(p) && ExecInv(p, At(RejectNode, s, entry))
    ensures forall a :: ExecInv(p, ExecStep(At(RejectNode, s, entry), a))
  {
    ReadyIsLoadable(p);
    assert RejectedWith(p, RejectAttempt(s).state, RejectStage(s.cycle), StuckIssues(s));
  }

  /** The append-only lists of an ended attempt extend those of its entry. */
  lemma EndedGrows(p: State, s: State)
    requires AttemptEnded(p, s)
    ensures p.know.evidence <= s.know.evidence && p.know.relations <= s.know.relations
    ensures p.know.rejected <= s.know.rejected && p.know.issues <= s.know.issues
    ensures Grown(s, EntryLengths(p))
  {
    if review, record, ids :| CommittedWith(p, s, review, record, ids) {
      RelationsAfterCommitContents(p.know, p.intent.value, review, record);
    }
  }

  lemma ExecStepKeeps(p: State, c: ExecConfig, a: ExecAnswer)
    requires ExecReady(p) && ExecInv(p, c) && c.At? && ExecAnswerOk(c, a)
    ensures ExecInv(p, ExecStep(c, a))
  {
    match c.node
    case EntryNode =>
    case LookupNode => ReadyIsLoadable(p);
    case GenerateNode => GenerateKeeps(p, c.s, c.entry, a);
    case ValidateCodeNode => ValidateCodeKeeps(p, c.s, c.entry, a);
    case ExecuteNode => ExecuteKeeps(p, c.s, c.entry, a);
    case ValidateResultNode => ValidateResultKeeps(p, c.s, c.entry, a);
    case CritiqueNode => CritiqueKeeps(p, c.s, c.entry, a);
    case CommitNode => CommitKeeps(p, c.s, c.entry, a);
    case RejectNode => RejectKeeps(p, c.s, c.entry);
    case ExportNode => EndedGrows(p, c.s);
  }

  /** Whatever the services answer, no node of the subgraph raises and the invariant holds throughout. */
  lemma {:induction false} ExecRunKeeps(p: State, c: ExecConfig, answers: seq<ExecAnswer>)
    requires ExecReady(p) && ExecInv(p, c) && ExecRunOk(c, answers)
    ensures ExecInv(p, ExecRun(c, answers))
    decreases |answers|
  {
    if answers != [] {
      ExecStepKeeps(p, c, answers[0]);
      ExecRunKeeps(p, ExecStep(c, answers[0]), answers[1..]);
    }
  }

  // ---------------------------------------------------------------- termination and repair limits

  /** Sandbox runs still possible from a node. */
  function RunsLeft(node: ExecNode, c: Cycle): int {
    match node
    case EntryNode => 2
    case LookupNode => 2
    case GenerateNode => 2 - c.runtimeRepairs
    case ValidateCodeNode => 2 - c.runtimeRepairs
    case ExecuteNode => 2 - c.runtimeRepairs
    case ValidateResultNode => 1 - c.runtimeRepairs
    case _ => 0
  }

  /** Code generations still possible from a node. */
  function GenerationsLeft(node: ExecNode, c: Cycle): int {
    match node
    case EntryNode => 6
    case LookupNode => 6
    case GenerateNode => 6 - c.staticRepairs - c.runtimeRepairs
    case ValidateCodeNode => 5 - c.staticRepairs - c.runtimeRepairs
    case ExecuteNode => 5 - c.staticRepairs - c.runtimeRepairs
    case ValidateResultNode => 5 - c.staticRepairs - c.runtimeRepairs
    case _ => 0
  }

  function CritiquesLeft(node: ExecNode): int {
    if node == CommitNode || node == RejectNode || node == ExportNode then 0 else 1
  }

  /** An upper bound on the nodes still to run. */
  function StepsLeft(c: ExecConfig): int {
    if !c.At? then 0
    else
      var g, r := GenerationsLeft(c.node, c.s.cycle), RunsLeft(c.node, c.s.cycle);
      match c.node
      case EntryNode => 21
      case LookupNode => 20
      case GenerateNode => 2 * g + 2 * r + 3
      case ValidateCodeNode => 2 * g + 2 * r + 4
      case ExecuteNode => 2 * g + 2 * r + 3
      case ValidateResultNode => 2 * g + 2 * r + 4
      case CritiqueNode => 3
      case CommitNode => 2
      case RejectNode => 2
      case ExportNode => 1
  }

  predicate IsAt(c: ExecConfig, node: ExecNode) {
    c.At? && c.node == node
  }

  function Left(c: ExecConfig, node: ExecNode): int {
    if !c.At? then 0
    else if node == GenerateNode then GenerationsLeft(c.node, c.s.cycle)
    else if node == ExecuteNode then RunsLeft(c.node, c.s.cycle)
    else CritiquesLeft(c.node)
  }

  predicate Limited(node: ExecNode) {
    node == GenerateNode || node == ExecuteNode || node == CritiqueNode
  }

  /** Repair counters while another attempt is still possible. */
  predicate WithinLimits(c: ExecConfig) {
    c.At? ==>
      match c.node
      case EntryNode => c.s.cycle.staticRepairs == 0 && c.s.cycle.runtimeRepairs == 0
      case LookupNode => c.s.cycle.staticRepairs == 0 && c.s.cycle.runtimeRepairs == 0
      case GenerateNode => c.s.cycle.staticRepairs <= 4 && c.s.cycle.runtimeRepairs <= 1
      case ValidateCodeNode => c.s.cycle.staticRepairs <= 4 && c.s.cycle.runtimeRepairs <= 1
      case ExecuteNode => c.s.cycle.staticRepairs <= 4 && c.s.cycle.runtimeRepairs <= 1
      case ValidateResultNode => c.s.cycle.staticRepairs <= 4 && c.s.cycle.runtimeRepairs <= 1
      case _ => true
  }

  lemma StepStaysWithin(c: ExecConfig, a: ExecAnswer)
    requires c.At? && WithinLimits(c)
    ensures WithinLimits(ExecStep(c, a)) && StepsLeft(ExecStep(c, a)) < StepsLeft(c)
  {
  }

  lemma StepUsesGenerations(c: ExecConfig, a: ExecAnswer)
    requires c.At? && WithinLimits(c)
    ensures 0 <= Left(ExecStep(c, a), GenerateNode) <= Left(c, GenerateNode) - (if IsAt(c, GenerateNode) then 1 else 0)
  {
  }

  lemma StepUsesRuns(c: ExecConfig, a: ExecAnswer)
    requires c.At? && WithinLimits(c)
    ensures 0 <= Left(ExecStep(c, a), ExecuteNode) <= Left(c, ExecuteNode) - (if IsAt(c, ExecuteNode) then 1 else 0)
  {
  }

  lemma StepUsesCritiques(c: ExecConfig, a: ExecAnswer)
    requires c.At? && WithinLimits(c)
    ensures 0 <= Left(ExecStep(c, a), CritiqueNode) <= Left(c, CritiqueNode) - (if IsAt(c, CritiqueNode) then 1 else 0)
  {
  }

  lemma StepUsesBudget(c: ExecConfig, a: ExecAnswer, node: ExecNode)
    requires c.At? && WithinLimits(c) && Limited(node)
    ensures 0 <= Left(ExecStep(c, a), node) <= Left(c, node) - (if IsAt(c, node) then 1 else 0)
  {
    match node
    case GenerateNode => StepUsesGenerations(c, a);
    case ExecuteNode => StepUsesRuns(c, a);
    case _ => StepUsesCritiques(c, a);
  }

  /** How often a node runs in the course of the given answers. */
  function Visits(c: ExecConfig, answers: seq<ExecAnswer>, node: ExecNode): nat
    decreases |answers|
  {
    if answers == [] then 0
    else (if IsAt(c, node) then 1 else 0) + Visits(ExecStep(c, answers[0]), answers[1..], node)
  }

  lemma {:induction false} RunUsesBudget(c: ExecConfig, answers: seq<ExecAnswer>, node: ExecNode)
    requires WithinLimits(c) && ExecRunOk(c, answers) && Limited(node) && 0 <= Left(c, node)
    ensures WithinLimits(ExecRun(c, answers))
    ensures |answers| + StepsLeft(ExecRun(c, answers)) <= StepsLeft(c)
    ensures 0 <= Left(ExecRun(c, answers), node)
    ensures Visits(c, answers, node) + Left(ExecRun(c, answers), node) <= Left(c, node)
    decreases |answers|
  {
    if answers != [] {
      StepStaysWithin(c, answers[0]);
      StepUsesBudget(c, answers[0], node);
      RunUsesBudget(ExecStep(c, answers[0]), answers[1..], node);
    }
  }

  lemma StepsLeftNonNegative(c: ExecConfig)
    requires WithinLimits(c)
    ensures 0 <= StepsLeft(c) && (c.At? ==> 1 <= StepsLeft(c))
  {
  }

  lemma LimitsFrom(c: ExecConfig, answers: seq<ExecAnswer>)
    requires WithinLimits(c) && ExecRunOk(c, answers)
    requires 0 <= Left(c, GenerateNode) && 0 <= Left(c, ExecuteNode) && 0 <= Left(c, CritiqueNode)
    ensures |answers| <= StepsLeft(c)
    ensures Visits(c, answers, GenerateNode) <= Left(c, GenerateNode)
    ensures Visits(c, answers, ExecuteNode) <= Left(c, ExecuteNode)
    ensures Visits(c, answers, CritiqueNode) <= Left(c, CritiqueNode)
  {
    RunUsesBudget(c, answers, GenerateNode);
    RunUsesBudget(c, answers, ExecuteNode);
    RunUsesBudget(c, answers, CritiqueNode);
    StepsLeftNonNegative(ExecRun(c, answers));
  }

  lemma EntryBudget(c: ExecConfig)
    requires IsAt(c, EntryNode) && c.s.cycle.staticRepairs == 0 && c.s.cycle.runtimeRepairs == 0
    ensures WithinLimits(c) && StepsLeft(c) == 21
    ensures Left(c, GenerateNode) == 6 && Left(c, ExecuteNode) == 2 && Left(c, CritiqueNode) == 1
  {
  }

  /** One intent runs at most 21 subgraph nodes: at most 6 code generations, 2 sandbox runs and 1 critique. */
  lemma ExecutionLimits(c: ExecConfig, answers: seq<ExecAnswer>)
    requires IsAt(c, EntryNode) && c.s.cycle == FRESH_CYCLE && ExecRunOk(c, answers)
    ensures |answers| <= 21
    ensures Visits(c, answers, GenerateNode) <= 6
    ensures Visits(c, answers, ExecuteNode) <= 2
    ensures Visits(c, answers, CritiqueNode) <= 1
  {
    EntryBudget(c);
    LimitsFrom(c, answers);
  }

  lemma RunExhausts(c: ExecConfig, answers: seq<ExecAnswer>)
    requires WithinLimits(c) && ExecRunOk(c, answers) && |answers| >= StepsLeft(c) && 0 <= Left(c, CritiqueNode)
    ensures !ExecRun(c, answers).At?
  {
    RunUsesBudget(c, answers, CritiqueNode);
    StepsLeftNonNegative(ExecRun(c, answers));
  }

  lemma NeverBroken(p: State, c: ExecConfig)
    requires ExecInv(p, c) && !c.At?
    ensures c.Exported?
  {
  }

  lemma EndsFrom(p: State, c: ExecConfig, answers: seq<ExecAnswer>)
    requires ExecReady(p) && ExecInv(p, c) && WithinLimits(c) && 0 <= Left(c, CritiqueNode)
    requires ExecRunOk(c, answers) && |answers| >= StepsLeft(c)
    ensures ExecRun(c, answers).Exported?
  {
    RunExhausts(c, answers);
    ExecRunKeeps(p, c, answers);
    NeverBroken(p, ExecRun(c, answers));
  }

  /** After 21 answers nothing is left to run, and an attempt started ready has exported its delta. */
  lemma ExecutionEnds(p: State, c: ExecConfig, answers: seq<ExecAnswer>)
    requires ExecReady(p) && IsAt(c, EntryNode) && c.s == p && ExecRunOk(c, answers) && |answers| == 21
    ensures ExecRun(c, answers).Exported?
  {
    EntryBudget(c);
    EndsFrom(p, c, answers);
  }

  // ---------------------------------------------------------------- delta

  lemma SuffixRestores<T>(xs: seq<T>, ys: seq<T>)
    requires xs <= ys
    ensures Appended(xs, Suffix(ys, |xs|)) == ys
  {
  }

  /** Applying the exported delta to the entry state yields exactly the state the nodes reached inline: every
      result field arrives, each appended item once; applying again changes nothing. */
  lemma DeltaIsInline(p: State, s: State)
    requires ExecReady(p) && AttemptEnded(p, s) && Grown(s, EntryLengths(p))
    ensures ApplyDelta(p.(delta := Some(ExportDelta(s, EntryLengths(p))))) == s
    ensures ApplyDelta(s) == s
  {
    EndedGrows(p, s);
    SuffixRestores(p.know.evidence, s.know.evidence);
    SuffixRestores(p.know.relations, s.know.relations);
    SuffixRestores(p.know.rejected, s.know.rejected);
    SuffixRestores(p.know.issues, s.know.issues);
  }

  // ---------------------------------------------------------------- the pedigree of a commit

  /** The configurations of a run: the start and one per answer. */
  function ExecTrace(c: ExecConfig, answers: seq<ExecAnswer>): (t: seq<ExecConfig>)
    ensures |t| == |answers| + 1 && t[0] == c
    ensures forall i :: 0 <= i < |answers| ==> t[i + 1] == ExecStep(t[i], answers[i])
    decreases |answers|
  {
    if answers == [] then [c] else [c] + ExecTrace(ExecStep(c, answers[0]), answers[1..])
  }

  /** The program and its manifest were generated, or found, by the node that led to the check. */
  predicate Supplied(c: ExecConfig, a: ExecAnswer, program: int, manifest: Manifest) {
    || (IsAt(c, GenerateNode) && a.codegen == Generated(program, manifest))
    || (IsAt(c, LookupNode) && a.cached == Some((program, manifest)))
  }

  /** The five nodes behind a record: its program was supplied and had no blocking static issue, its result came
      from running that program and had no blocking result issue, and an accepting review was bound to it. */
  ghost predicate Pedigree(t: seq<ExecConfig>, answers: seq<ExecAnswer>, i: nat)
    requires 5 <= i < |t| && |t| == |answers| + 1
  {
    && IsAt(t[i], CommitNode) && IsAt(t[i - 1], CritiqueNode) && IsAt(t[i - 2], ValidateResultNode)
    && IsAt(t[i - 3], ExecuteNode) && IsAt(t[i - 4], ValidateCodeNode)
    && var c := t[i].s.cycle;
       && c.program.Some? && c.manifest.Some?
       && Supplied(t[i - 5], answers[i - 5], c.program.value, c.manifest.value)
       && t[i - 4].s.cycle.program == c.program && answers[i - 4].blocking == []
       && t[i - 3].s.cycle.program == c.program && answers[i - 3].sandbox.Produced?
       && c.candidate == Some(answers[i - 3].sandbox.result) && c.figures == answers[i - 3].sandbox.figures
       && answers[i - 2].blocking == []
       && answers[i - 1].critic.ReviewGiven? && answers[i - 1].critic.review.verdict == Accept
       && c.review.Some? && c.review.value.Reviewed?
       && Bind(answers[i - 1].critic.review, c.candidate.value) == Some(c.review.value.review)
  }

  /** The only way into each of the last nodes. */
  lemma Predecessors(c: ExecConfig, a: ExecAnswer)
    requires c.At? && ExecStep(c, a).At?
    ensures ExecStep(c, a).node == CommitNode ==> c.node == CritiqueNode
    ensures ExecStep(c, a).node == CritiqueNode ==> c.node == ValidateResultNode
    ensures ExecStep(c, a).node == ValidateResultNode ==> c.node == ExecuteNode
    ensures ExecStep(c, a).node == ExecuteNode ==> c.node == ValidateCodeNode
    ensures ExecStep(c, a).node == ValidateCodeNode ==> c.node == GenerateNode || c.node == LookupNode
    ensures ExecStep(c, a).node != EntryNode
  {
  }

  lemma PathToCommit(c: ExecConfig, answers: seq<ExecAnswer>, i: nat)
    requires IsAt(c, EntryNode) && ExecRunOk(c, answers) && i <= |answers|
    requires IsAt(ExecTrace(c, answers)[i], CommitNode)
    ensures var t := ExecTrace(c, answers);
      && i >= 5 && IsAt(t[i - 1], CritiqueNode) && IsAt(t[i - 2], ValidateResultNode)
      && IsAt(t[i - 3], ExecuteNode) && IsAt(t[i - 4], ValidateCodeNode)
      && (IsAt(t[i - 5], GenerateNode) || IsAt(t[i - 5], LookupNode))
  {
    var t := ExecTrace(c, answers);
    TraceAt(c, answers, i - 1);
    Predecessors(t[i - 1], answers[i - 1]);
    TraceAt(c, answers, i - 2);
    Predecessors(t[i - 2], answers[i - 2]);
    TraceAt(c, answers, i - 3);
    Predecessors(t[i - 3], answers[i - 3]);
    TraceAt(c, answers, i - 4);
    Predecessors(t[i - 4], answers[i - 4]);
    TraceAt(c, answers, i - 5);
    Predecessors(t[i - 5], answers[i - 5]);
  }

  lemma {:induction false} TraceAt(c: ExecConfig, answers: seq<ExecAnswer>, i: nat)
    requires ExecRunOk(c, answers) && i < |answers|
    ensures ExecTrace(c, answers)[i].At?
    decreases i
  {
    if i > 0 {
      TraceAt(ExecStep(c, answers[0]), answers[1..], i - 1);
    }
  }

  lemma ReviewedSteps(c: ExecConfig, a: ExecAnswer)
    requires IsAt(c, CritiqueNode) && IsAt(ExecStep(c, a), CommitNode)
    ensures a.critic.ReviewGiven? && a.critic.review.verdict == Accept
    ensures var d := ExecStep(c, a).s.cycle;
      && d == c.s.cycle.(review := d.review) && d.candidate.Some?
      && d.review.Some? && d.review.value.Reviewed?
      && Bind(a.critic.review, d.candidate.value) == Some(d.review.value.review)
  {
    if a.critic.ReviewGiven? {
      BindMeaning(a.critic.review, c.s.cycle.candidate.value);
    }
  }

  lemma CheckedSteps(c: ExecConfig, a: ExecAnswer)
    requires IsAt(c, ValidateResultNode) && IsAt(ExecStep(c, a), CritiqueNode)
    ensures a.blocking == []
    ensures var d := ExecStep(c, a).s.cycle;
      && d.program == c.s.cycle.program && d.candidate == c.s.cycle.candidate
      && d.manifest == c.s.cycle.manifest && d.figures == c.s.cycle.figures
  {
  }

  lemma RanSteps(c: ExecConfig, a: ExecAnswer)
    requires IsAt(c, ExecuteNode) && IsAt(ExecStep(c, a), ValidateResultNode)
    ensures a.sandbox.Produced?
    ensures var d := ExecStep(c, a).s.cycle;
      && d.program == c.s.cycle.program && d.candidate == Some(a.sandbox.result)
      && d.manifest == c.s.cycle.manifest && d.figures == a.sandbox.figures
  {
  }

  lemma SuppliedSteps(c: ExecConfig, a: ExecAnswer)
    requires c.At? && (c.node == GenerateNode || c.node == LookupNode) && IsAt(ExecStep(c, a), ValidateCodeNode)
    ensures var d := ExecStep(c, a).s.cycle;
      d.program.Some? && d.manifest.Some? && Supplied(c, a, d.program.value, d.manifest.value)
  {
  }

  lemma LintedSteps(c: ExecConfig, a: ExecAnswer)
    requires IsAt(c, ValidateCodeNode) && IsAt(ExecStep(c, a), ExecuteNode)
    ensures a.blocking == []
    ensures ExecStep(c, a).s.cycle.program == c.s.cycle.program && c.s.cycle.program.Some?
    ensures ExecStep(c, a).s.cycle.manifest == c.s.cycle.manifest
  {
  }

  /** No critic answer overrides a deterministic failure: in any run of the subgraph, a commit is always the
      last of six consecutive nodes that supplied, validated, ran, checked and reviewed the same program and result. */
  lemma CommitPedigree(c: ExecConfig, answers: seq<ExecAnswer>, i: nat)
    requires IsAt(c, EntryNode) && ExecRunOk(c, answers) && i <= |answers|
    requires IsAt(ExecTrace(c, answers)[i], CommitNode)
    ensures i >= 5 && Pedigree(ExecTrace(c, answers), answers, i)
  {
    var t := ExecTrace(c, answers);
    PathToCommit(c, answers, i);
    SuppliedSteps(t[i - 5], answers[i - 5]);
    LintedSteps(t[i - 4], answers[i - 4]);
    RanSteps(t[i - 3], answers[i - 3]);
    CheckedSteps(t[i - 2], answers[i - 2]);
    ReviewedSteps(t[i - 1], answers[i - 1]);
  }

  /** Only the commit node touches the evidence. */
  lemma OnlyCommitAppends(c: ExecConfig, a: ExecAnswer)
    requires c.At? && c.node != CommitNode && ExecStep(c, a).At?
    ensures ExecStep(c, a).s.know.evidence == c.s.know.evidence
  {
  }

  /** The record of an attempt: what was asked, what was run, what came out and what the critic said of it. */
  ghost predicate RecordOfAttempt(e: EvidenceRecord, s: State, id: EvidenceId) {
    && s.intent.Some? && s.profile.Some? && s.cycle.manifest.Some? && s.cycle.review.Some?
    && s.cycle.review.value.Reviewed?
    && var intent, m, review := s.intent.value, s.cycle.manifest.value, s.cycle.review.value.review;
       && e.evidenceId == id && e.intentId == intent.intentId && e.question == intent.question
       && e.purpose == intent.purpose && e.goalId == intent.goalId && e.parents == intent.parents
       && s.cycle.candidate == Some(e.result) && s.cycle.program == Some(e.program) && e.figures == s.cycle.figures
       && e.methodName == m.methodName && e.protocol == m.protocol && e.columnsUsed == m.selectedColumns
       && e.lineage == Lineage(s.dataset, s.profile.value.schema, m.transform)
       && e.claim == Strip(review.claim) && !AllSpace(review.claim)
       && e.effects == review.effects && (forall x :: x in e.effects ==> x.column in e.columnsUsed)
       && e.uncertaintyPaths == review.uncertaintyPaths && e.uncertainty.Keys == e.uncertaintyPaths.Keys
       && (forall k :: k in e.uncertainty ==> IsNode(e.result, e.uncertaintyPaths[k], e.uncertainty[k]))
       && e.openQuestions == review.openQuestions && e.contradicts == review.contradicts
  }

  lemma CommitAppends(c: ExecConfig, a: ExecAnswer) returns (e: EvidenceRecord)
    requires IsAt(c, CommitNode) && ExecStep(c, a).At?
    ensures ExecStep(c, a).s.know.evidence == c.s.know.evidence + [e] && RecordOfAttempt(e, c.s, a.evidenceId)
    ensures ExecStep(c, a).node == ExportNode
  {
    var review, result := c.s.cycle.review.value.review, c.s.cycle.candidate.value;
    BindMeaning(review, result);
    BlankIff(review.claim);
    var bound := Bind(review, result).value;
    e := BuildEvidence(c.s, c.s.intent.value, bound, a.evidenceId);
    forall k | k in e.uncertainty ensures IsNode(e.result, e.uncertaintyPaths[k], e.uncertainty[k]) {
      assert ReadsFrom(review, bound, result, k);
    }
  }

  lemma ExportIsLast(c: ExecConfig, a: ExecAnswer)
    requires IsAt(c, ExportNode)
    ensures !ExecStep(c, a).At?
  {
  }

  /** Evidence gained during an attempt was written by a commit of that attempt, one step before. */
  lemma {:induction false} GainWasCommitted(c: ExecConfig, answers: seq<ExecAnswer>, j: nat)
    requires c.At? && ExecRunOk(c, answers) && j <= |answers| && ExecTrace(c, answers)[j].At?
    requires ExecTrace(c, answers)[j].s.know.evidence != c.s.know.evidence
    ensures j > 0 && IsAt(ExecTrace(c, answers)[j - 1], CommitNode)
    ensures ExecTrace(c, answers)[j - 1].s.know.evidence == c.s.know.evidence
    decreases j
  {
    var d := ExecStep(c, answers[0]);
    if j == 1 {
      if c.node != CommitNode {
        OnlyCommitAppends(c, answers[0]);
      }
    } else {
      TraceAt(c, answers, 1);
      assert ExecTrace(c, answers)[1] == d;
      if c.node == CommitNode {
        var e := CommitAppends(c, answers[0]);
        ExportIsLast(d, answers[1]);
        assert ExecTrace(c, answers)[2] == ExecStep(d, answers[1]);
        TraceStays(c, answers, 2, j);
      } else {
        OnlyCommitAppends(c, answers[0]);
        GainWasCommitted(d, answers[1..], j - 1);
      }
    }
  }

  lemma {:induction false} TraceStays(c: ExecConfig, answers: seq<ExecAnswer>, i: nat, j: nat)
    requires i <= j <= |answers| && !ExecTrace(c, answers)[i].At?
    ensures !ExecTrace(c, answers)[j].At?
    decreases j
  {
    if i < j {
      TraceStays(c, answers, i, j - 1);
    }
  }

  /** Evidence enters a run only with a pedigree: whatever an attempt adds is one record, stating the program
      and result that five consecutive nodes supplied, validated, ran, checked and accepted. */
  lemma EvidenceHasPedigree(c: ExecConfig, answers: seq<ExecAnswer>, j: nat) returns (e: EvidenceRecord)
    requires IsAt(c, EntryNode) && ExecRunOk(c, answers) && j <= |answers| && ExecTrace(c, answers)[j].At?
    requires ExecTrace(c, answers)[j].s.know.evidence != c.s.know.evidence
    ensures j >= 6 && Pedigree(ExecTrace(c, answers), answers, j - 1)
    ensures ExecTrace(c, answers)[j].s.know.evidence == c.s.know.evidence + [e]
    ensures RecordOfAttempt(e, ExecTrace(c, answers)[j - 1].s, answers[j - 1].evidenceId)
  {
    GainWasCommitted(c, answers, j);
    CommitPedigree(c, answers, j - 1);
    e := CommitAppends(ExecTrace(c, answers)[j - 1], answers[j - 1]);
  }

  // ---------------------------------------------------------------- the streak test at the static routes

  lemma {:induction false} TraceKeeps(p: State, c: ExecConfig, answers: seq<ExecAnswer>, i: nat)
    requires ExecReady(p) && ExecInv(p, c) && ExecRunOk(c, answers) && i <= |answers|
    ensures ExecInv(p, ExecTrace(c, answers)[i])
    ensures i < |answers| ==> ExecTrace(c, answers)[i].At? && ExecAnswerOk(ExecTrace(c, answers)[i], answers[i])
    decreases i
  {
    if i > 0 {
      ExecStepKeeps(p, c, answers[0]);
      TraceKeeps(p, ExecStep(c, answers[0]), answers[1..], i - 1);
    }
  }

  lemma {:induction false} TraceEnds(c: ExecConfig, answers: seq<ExecAnswer>)
    requires ExecRunOk(c, answers)
    ensures ExecTrace(c, answers)[|answers|] == ExecRun(c, answers)
    decreases |answers|
  {
    if answers != [] {
      TraceEnds(ExecStep(c, answers[0]), answers[1..]);
    }
  }

  lemma OnlyExportExports(c: ExecConfig, a: ExecAnswer)
    requires c.At? && ExecStep(c, a).Exported?
    ensures c.node == ExportNode && Grown(c.s, c.entry) && ExecStep(c, a).delta == ExportDelta(c.s, c.entry)
  {
  }

  lemma ExportsState(p: State, c: ExecConfig)
    requires ExecInv(p, c) && IsAt(c, ExportNode)
    ensures AttemptEnded(p, c.s) && c.entry == EntryLengths(p)
  {
  }

  /** For every run of the subgraph that hands back a delta, applying the delta to the entry state yields the
      state its last node reached, as if the nodes had run inline. */
  lemma DeltaOfRunIsInline(p: State, c: ExecConfig, answers: seq<ExecAnswer>)
    requires ExecReady(p) && c.At? && ExecInv(p, c) && ExecRunOk(c, answers) && ExecRun(c, answers).Exported?
    ensures answers != [] && ExecTrace(c, answers)[|answers| - 1].At?
    ensures ApplyDelta(p.(delta := Some(ExecRun(c, answers).delta))) == ExecTrace(c, answers)[|answers| - 1].s
  {
    TraceEnds(c, answers);
    var last := |answers| - 1;
    TraceKeeps(p, c, answers, last);
    var d := ExecTrace(c, answers)[last];
    OnlyExportExports(d, answers[last]);
    ExportsState(p, d);
    DeltaIsInline(p, d.s);
  }

  lemma StaticFailure(p: State, c: ExecConfig, a: ExecAnswer)
    requires ExecReady(p) && ExecInv(p, c) && (IsAt(c, GenerateNode) || IsAt(c, ValidateCodeNode)) && ExecAnswerOk(c, a)
    requires ExecStep(c, a).At? && ExecStep(c, a).s.cycle.errors != [] && !ExecStep(c, a).s.terminal.Stopped()
    requires IsAt(c, GenerateNode) ==> a.codegen.CodegenFailure?
    ensures var s := ExecStep(c, a).s; StreakBounded(s.cycle) && StaticKey(s.cycle.streak.key)
  {
    ReadyIsLoadable(p);
    if IsAt(c, GenerateNode) {
      BumpBounded(c.s.cycle.(program := None, manifest := None, candidate := None), [CodegenFailed]);
    } else if a.blocking != [] {
      BumpBounded(c.s.cycle, a.blocking);
    }
  }

  /** A step that fails a generation or a static check. */
  predicate FailsStatically(c: ExecConfig, a: ExecAnswer, d: ExecConfig) {
    && (IsAt(c, GenerateNode) || IsAt(c, ValidateCodeNode))
    && (IsAt(c, GenerateNode) ==> a.codegen.CodegenFailure?)
    && d.At? && d.s.cycle.errors != [] && !d.s.terminal.Stopped()
  }

  lemma StaticStepRoutes(p: State, c: ExecConfig, a: ExecAnswer)
    requires ExecReady(p) && ExecInv(p, c) && ExecAnswerOk(c, a) && FailsStatically(c, a, ExecStep(c, a))
    ensures var d := ExecStep(c, a);
      d.node == if d.s.cycle.staticRepairs >= MAX_STATIC_REPAIRS then RejectNode else GenerateNode
  {
    ReadyIsLoadable(p);
    StaticFailure(p, c, a);
    StaticFailureRoutes(ExecStep(c, a).s);
  }

  /** In every run of the subgraph, after a failed generation or static check the next node depends on the
      static repair count alone: the stuck test never decides anything. */
  lemma StreakTestIsRedundant(p: State, c: ExecConfig, answers: seq<ExecAnswer>, i: nat)
    requires ExecReady(p) && ExecInv(p, c) && ExecRunOk(c, answers) && i < |answers|
    requires FailsStatically(ExecTrace(c, answers)[i], answers[i], ExecTrace(c, answers)[i + 1])
    ensures var d := ExecTrace(c, answers)[i + 1];
      d.At? && d.node == if d.s.cycle.staticRepairs >= MAX_STATIC_REPAIRS then RejectNode else GenerateNode
  {
    TraceKeeps(p, c, answers, i);
    StaticStepRoutes(p, ExecTrace(c, answers)[i], answers[i]);
  }

  /** A ready state at its entry satisfies the invariant, so the above holds of every attempt. */
  lemma EntrySatisfies(p: State)
    requires ExecReady(p)
    ensures ExecInv(p, ExecStart(p)) && IsAt(ExecStart(p), EntryNode)
  {
  }
}
