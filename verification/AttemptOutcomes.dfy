/** How one attempt proceeds and what it leaves behind: every decision of the execution subgraph as a condition on
    the service's answer and the failures so far, and the effects of a commit and of a rejection on fields. */
module AttemptOutcomes {
  import opened Contracts
  import opened RunState
  import opened Numeric
  import opened ReviewEvidence
  import opened ReviewAgenda
  import opened KnowledgeInvariant
  import opened Planning
  import opened Execution
  import opened ExecutionProofs
  import opened MainGraph
  import opened MainInvariant

  // ---------------------------------------------------------------- failures

  predicate OutageKind(kind: Option<FailureKind>) {
    kind == Some(ProviderUnavailable) || kind == Some(Configuration)
  }

  /** A generation that failed, or code that a static check refused. */
  predicate FailsStatic(node: ExecNode, a: ExecAnswer) {
    || (node == GenerateNode && a.codegen.CodegenFailure? && !OutageKind(a.codegen.kind))
    || (node == ValidateCodeNode && a.blocking != [])
  }

  /** Code that raised, or a result that a check refused. */
  predicate FailsRunning(node: ExecNode, a: ExecAnswer) {
    || (node == ExecuteNode && a.sandbox.RuntimeFailure?)
    || (node == ValidateResultNode && a.blocking != [])
  }

  /** How many of the answers were failures of the one kind, and of the other. */
  function StaticFailures(c: ExecConfig, answers: seq<ExecAnswer>): nat
    decreases |answers|
  {
    if answers == [] then 0
    else
      (if c.At? && FailsStatic(c.node, answers[0]) then 1 else 0)
      + StaticFailures(ExecStep(c, answers[0]), answers[1..])
  }

  function RunningFailures(c: ExecConfig, answers: seq<ExecAnswer>): nat
    decreases |answers|
  {
    if answers == [] then 0
    else
      (if c.At? && FailsRunning(c.node, answers[0]) then 1 else 0)
      + RunningFailures(ExecStep(c, answers[0]), answers[1..])
  }

  ghost predicate Counts(c: ExecConfig, a: ExecAnswer, d: ExecConfig) {
    && c.At? && d.At?
    && d.s.cycle.staticRepairs == c.s.cycle.staticRepairs + (if FailsStatic(c.node, a) then 1 else 0)
    && d.s.cycle.runtimeRepairs == c.s.cycle.runtimeRepairs + (if FailsRunning(c.node, a) then 1 else 0)
  }

  lemma EarlyCounts(c: ExecConfig, a: ExecAnswer)
    requires c.At? && c.node in {EntryNode, LookupNode, GenerateNode, ValidateCodeNode} && ExecStep(c, a).At?
    ensures Counts(c, a, ExecStep(c, a))
  {
  }

  lemma LateCounts(c: ExecConfig, a: ExecAnswer)
    requires c.At? && c.node !in {EntryNode, LookupNode, GenerateNode, ValidateCodeNode} && ExecStep(c, a).At?
    ensures Counts(c, a, ExecStep(c, a))
  {
  }

  lemma StepCounts(c: ExecConfig, a: ExecAnswer)
    requires c.At? && ExecStep(c, a).At?
    ensures Counts(c, a, ExecStep(c, a))
  {
    if c.node in {EntryNode, LookupNode, GenerateNode, ValidateCodeNode} {
      EarlyCounts(c, a);
    } else {
      LateCounts(c, a);
    }
  }

  /** The repair counters of a cycle are the failures its services have reported. */
  lemma {:induction false} CountersCount(c: ExecConfig, answers: seq<ExecAnswer>)
    requires c.At? && ExecRunOk(c, answers) && ExecRun(c, answers).At?
    ensures ExecRun(c, answers).s.cycle.staticRepairs == c.s.cycle.staticRepairs + StaticFailures(c, answers)
    ensures ExecRun(c, answers).s.cycle.runtimeRepairs == c.s.cycle.runtimeRepairs + RunningFailures(c, answers)
    decreases |answers|
  {
    if answers != [] {
      StepCounts(c, answers[0]);
      CountersCount(ExecStep(c, answers[0]), answers[1..]);
    }
  }

  // ---------------------------------------------------------------- decisions

  predicate Cites(review: CriticReview, x: EvidenceId) {
    x in review.contradicts || x in review.revalidates || x in review.supersedes || x in review.reconciles
  }

  /** A review the commit may use: it accepts with a claim, cites known records, summarises selected columns, and
      everything it summarises is stated by the result. */
  ghost predicate Usable(k: Knowledge, c: Cycle, review: CriticReview) {
    && c.manifest.Some? && c.candidate.Some?
    && review.verdict == Accept && !AllSpace(review.claim)
    && (forall x :: Cites(review, x) ==> exists e :: e in k.evidence && e.evidenceId == x)
    && (forall e :: e in review.effects ==> e.column in c.manifest.value.selectedColumns)
    && Stated(review, c.candidate.value)
  }

  /** Where the attempt goes from a node, given the counts of earlier failures. */
  ghost function Decision(k: Knowledge, node: ExecNode, c: Cycle, a: ExecAnswer, failed: nat, crashed: nat): ExecNode {
    match node
    case EntryNode => LookupNode
    case LookupNode => if a.cached.Some? then ValidateCodeNode else GenerateNode
    case GenerateNode =>
      if a.codegen.Generated? then ValidateCodeNode
      else if a.codegen.NoCodegen? || OutageKind(a.codegen.kind) then ExportNode
      else if failed + 1 < 5 then GenerateNode else RejectNode
    case ValidateCodeNode =>
      if a.blocking == [] then ExecuteNode else if failed + 1 < 5 then GenerateNode else RejectNode
    case ExecuteNode =>
      if a.sandbox.Produced? then ValidateResultNode
      else if a.sandbox.RuntimeFailure? && crashed == 0 then GenerateNode else RejectNode
    case ValidateResultNode =>
      if a.blocking == [] then CritiqueNode else if crashed == 0 then GenerateNode else RejectNode
    case CritiqueNode =>
      if a.critic.NoCritic? || (a.critic.CriticFailure? && OutageKind(a.critic.kind)) then ExportNode
      else if a.critic.ReviewGiven? && Usable(k, c, a.critic.review) then CommitNode else RejectNode
    case CommitNode => ExportNode
    case RejectNode => ExportNode
    case ExportNode => ExportNode
  }

  lemma CitesKnownIff(review: CriticReview, manifest: Manifest, evidence: seq<EvidenceRecord>)
    ensures CriticReferences(review, manifest, EvidenceIds(evidence)) <==>
      && (forall x :: Cites(review, x) ==> exists e :: e in evidence && e.evidenceId == x)
      && (forall e :: e in review.effects ==> e.column in manifest.selectedColumns)
  {
    var cited := ToSet(review.contradicts) + ToSet(review.revalidates) + ToSet(review.supersedes)
      + ToSet(review.reconciles);
    CitedWithin(review, cited, EvidenceIds(evidence));
    forall x ensures x in EvidenceIds(evidence) <==> exists e :: e in evidence && e.evidenceId == x {
    }
  }

  lemma CitedWithin(review: CriticReview, cited: set<EvidenceId>, ids: set<EvidenceId>)
    requires cited == ToSet(review.contradicts) + ToSet(review.revalidates) + ToSet(review.supersedes)
      + ToSet(review.reconciles)
    ensures cited <= ids <==> forall x :: Cites(review, x) ==> x in ids
  {
    if cited <= ids {
      forall x | Cites(review, x) ensures x in ids {
        assert x in cited;
      }
    }
    if forall x :: Cites(review, x) ==> x in ids {
      forall x: EvidenceId | x in cited ensures x in ids {
        assert Cites(review, x);
      }
    }
  }

  /** What is stored of a review is acceptable exactly when the review is usable. */
  lemma UsableIff(s: State, review: CriticReview)
    requires s.cycle.manifest.Some? && s.cycle.candidate.Some?
    ensures var stored := StoreReview(review, s.cycle.manifest.value, EvidenceIds(s.know.evidence),
                                      s.cycle.candidate.value);
      Usable(s.know, s.cycle, review) <==>
        stored.Reviewed? && stored.review.verdict == Accept && !Blank(stored.review.claim)
  {
    CitesKnownIff(review, s.cycle.manifest.value, s.know.evidence);
    BindMeaning(review, s.cycle.candidate.value);
    BlankIff(review.claim);
    if Stated(review, s.cycle.candidate.value) {
      forall i | 0 <= i < |review.effects|
        ensures review.effects[i].sourcePath.Some? ==> review.effects[i].sourcePath.value != []
      {
        assert review.effects[i] in review.effects;
      }
    }
  }

  lemma CritiqueDecides(p: State, c: ExecConfig, a: ExecAnswer)
    requires ExecReady(p) && ExecInv(p, c) && IsAt(c, CritiqueNode)
    ensures ExecStep(c, a).At?
    ensures ExecStep(c, a).node == Decision(c.s.know, c.node, c.s.cycle, a, 0, 0)
  {
    ReadyIsLoadable(p);
    if a.critic.ReviewGiven? {
      UsableIff(c.s, a.critic.review);
    }
  }

  lemma StaticDecides(p: State, c: ExecConfig, a: ExecAnswer)
    requires ExecReady(p) && ExecInv(p, c) && (IsAt(c, GenerateNode) || IsAt(c, ValidateCodeNode))
      && ExecAnswerOk(c, a)
    ensures ExecStep(c, a).At?
    ensures ExecStep(c, a).node
      == Decision(c.s.know, c.node, c.s.cycle, a, c.s.cycle.staticRepairs, c.s.cycle.runtimeRepairs)
  {
    ReadyIsLoadable(p);
    if FailsStatic(c.node, a) {
      StaticStepRoutes(p, c, a);
      StepCounts(c, a);
    }
  }

  lemma RunningDecides(p: State, c: ExecConfig, a: ExecAnswer)
    requires ExecReady(p) && ExecInv(p, c) && (IsAt(c, ExecuteNode) || IsAt(c, ValidateResultNode))
    ensures ExecStep(c, a).At?
    ensures ExecStep(c, a).node
      == Decision(c.s.know, c.node, c.s.cycle, a, c.s.cycle.staticRepairs, c.s.cycle.runtimeRepairs)
  {
    ReadyIsLoadable(p);
  }

  /** Where any node leads. */
  lemma StepDecides(p: State, c: ExecConfig, a: ExecAnswer)
    requires ExecReady(p) && ExecInv(p, c) && c.At? && ExecAnswerOk(c, a) && c.node != ExportNode
    ensures ExecStep(c, a).At?
    ensures ExecStep(c, a).node
      == Decision(c.s.know, c.node, c.s.cycle, a, c.s.cycle.staticRepairs, c.s.cycle.runtimeRepairs)
  {
    match c.node
    case GenerateNode => StaticDecides(p, c, a);
    case ValidateCodeNode => StaticDecides(p, c, a);
    case ExecuteNode => RunningDecides(p, c, a);
    case ValidateResultNode => RunningDecides(p, c, a);
    case CritiqueNode => CritiqueDecides(p, c, a);
    case CommitNode => CommitKeeps(p, c.s, c.entry, a);
    case _ => ReadyIsLoadable(p);
  }

  lemma {:induction false} TraceIsRun(c: ExecConfig, answers: seq<ExecAnswer>, i: nat)
    requires ExecRunOk(c, answers) && i <= |answers|
    ensures ExecRunOk(c, answers[..i]) && ExecTrace(c, answers)[i] == ExecRun(c, answers[..i])
    decreases i
  {
    if i > 0 {
      TraceIsRun(ExecStep(c, answers[0]), answers[1..], i - 1);
      assert answers[..i][1..] == answers[1..][..i - 1];
    }
  }

  lemma AttemptDecidesFrom(p: State, start: ExecConfig, answers: seq<ExecAnswer>, i: nat)
    requires ExecReady(p) && ExecInv(p, start) && IsAt(start, EntryNode) && ExecRunOk(start, answers) && i < |answers|
    requires !IsAt(ExecTrace(start, answers)[i], ExportNode)
    ensures var c, d := ExecTrace(start, answers)[i], ExecTrace(start, answers)[i + 1];
      && c.At? && d.At?
      && d.node == Decision(c.s.know, c.node, c.s.cycle, answers[i],
                            StaticFailures(start, answers[..i]), RunningFailures(start, answers[..i]))
  {
    TraceKeeps(p, start, answers, i);
    TraceIsRun(start, answers, i);
    CountersCount(start, answers[..i]);
    StepDecides(p, ExecTrace(start, answers)[i], answers[i]);
  }

  /** The service that failed for good, or is not there at all. */
  ghost predicate OutageAt(node: ExecNode, a: ExecAnswer, failure: Option<ServiceFailure>) {
    || (node == GenerateNode && a.codegen.NoCodegen? && failure.None?)
    || (node == GenerateNode && a.codegen.CodegenFailure? && OutageKind(a.codegen.kind)
        && failure == Some(ServiceFailure(CodegenRole, a.codegen.kind)))
    || (node == CritiqueNode && a.critic.NoCritic? && failure.None?)
    || (node == CritiqueNode && a.critic.CriticFailure? && OutageKind(a.critic.kind)
        && failure == Some(ServiceFailure(CriticRole, a.critic.kind)))
  }

  /** Until a failed critique, the cycle has no service failure on record. */
  predicate NoFailureYet(c: ExecConfig) {
    c.At? && c.node != RejectNode && c.node != ExportNode ==> c.s.cycle.serviceFailure.None?
  }

  lemma StepNoFailure(c: ExecConfig, a: ExecAnswer)
    requires NoFailureYet(c) && c.At? && ExecStep(c, a).At?
    ensures NoFailureYet(ExecStep(c, a))
  {
  }

  lemma {:induction false} RunNoFailure(c: ExecConfig, answers: seq<ExecAnswer>)
    requires NoFailureYet(c) && ExecRunOk(c, answers) && ExecRun(c, answers).At?
    ensures NoFailureYet(ExecRun(c, answers))
    decreases |answers|
  {
    if answers != [] {
      StepNoFailure(c, answers[0]);
      RunNoFailure(ExecStep(c, answers[0]), answers[1..]);
    }
  }

  /** What an outage does to a state, and nothing else stops the run. */
  ghost predicate StopsOnOutage(c: ExecConfig, a: ExecAnswer, t: State) {
    && c.At?
    && (t.terminal.status != Running <==> exists f :: OutageAt(c.node, a, f))
    && (t.terminal.status != Running ==>
          && t == c.s.(cycle := t.cycle, terminal := Terminal(Failed, Some(ServiceUnavailable)))
          && OutageAt(c.node, a, t.cycle.serviceFailure))
  }

  lemma StepStops(p: State, c: ExecConfig, a: ExecAnswer)
    requires ExecReady(p) && ExecInv(p, c) && c.At? && c.node != ExportNode && ExecAnswerOk(c, a) && NoFailureYet(c)
    ensures ExecStep(c, a).At? && StopsOnOutage(c, a, ExecStep(c, a).s)
  {
    StepDecides(p, c, a);
    if c.node == GenerateNode {
      GenerateStops(p, c, a);
    } else if c.node == CritiqueNode {
      CritiqueStops(p, c, a);
    } else {
      OthersGoOn(p, c, a);
    }
  }

  /** An attempt stops the run exactly on an outage of its generator or critic, as unavailable, and records which
      service failed and how. */
  lemma AttemptStops(p: State, start: ExecConfig, answers: seq<ExecAnswer>, i: nat)
    requires ExecReady(p) && ExecInv(p, start) && IsAt(start, EntryNode) && ExecRunOk(start, answers) && i < |answers|
    requires !IsAt(ExecTrace(start, answers)[i], ExportNode)
    ensures var c, d := ExecTrace(start, answers)[i], ExecTrace(start, answers)[i + 1];
      c.At? && d.At? && StopsOnOutage(c, answers[i], d.s)
  {
    TraceKeeps(p, start, answers, i);
    TraceIsRun(start, answers, i);
    RunNoFailure(start, answers[..i]);
    StepStops(p, ExecTrace(start, answers)[i], answers[i]);
  }

  lemma GenerateStops(p: State, c: ExecConfig, a: ExecAnswer)
    requires ExecReady(p) && ExecInv(p, c) && IsAt(c, GenerateNode) && c.s.cycle.serviceFailure.None?
    requires ExecStep(c, a).At?
    ensures StopsOnOutage(c, a, ExecStep(c, a).s)
  {
    if a.codegen.CodegenFailure? && OutageKind(a.codegen.kind) {
      assert OutageAt(c.node, a, Some(ServiceFailure(CodegenRole, a.codegen.kind)));
    } else if a.codegen.NoCodegen? {
      assert OutageAt(c.node, a, None);
    }
  }

  lemma CritiqueStops(p: State, c: ExecConfig, a: ExecAnswer)
    requires ExecReady(p) && ExecInv(p, c) && IsAt(c, CritiqueNode) && c.s.cycle.serviceFailure.None?
    requires ExecStep(c, a).At?
    ensures StopsOnOutage(c, a, ExecStep(c, a).s)
  {
    if a.critic.CriticFailure? && OutageKind(a.critic.kind) {
      assert OutageAt(c.node, a, Some(ServiceFailure(CriticRole, a.critic.kind)));
    } else if a.critic.NoCritic? {
      assert OutageAt(c.node, a, None);
    }
  }

  lemma OthersGoOn(p: State, c: ExecConfig, a: ExecAnswer)
    requires ExecReady(p) && ExecInv(p, c) && c.At? && c.node !in {GenerateNode, CritiqueNode, ExportNode}
    requires ExecStep(c, a).At?
    ensures ExecStep(c, a).s.terminal.status == Running
  {
  }

  // ---------------------------------------------------------------- repeated failures

  /** The error codes a node reports with its answer, if any. */
  function Reported(node: ExecNode, a: ExecAnswer): set<ErrorCode> {
    match node
    case GenerateNode => if a.codegen.CodegenFailure? && !OutageKind(a.codegen.kind) then {CodegenFailed} else {}
    case ValidateCodeNode => set x | x in a.blocking
    case ExecuteNode =>
      if a.sandbox.Refused? then {ExecutionRefused} else if a.sandbox.RuntimeFailure? then {RuntimeError} else {}
    case ValidateResultNode => set x | x in a.blocking
    case _ => {}
  }

  /** What the nodes of an attempt have reported, in order. */
  function Reports(c: ExecConfig, answers: seq<ExecAnswer>): seq<set<ErrorCode>>
    decreases |answers|
  {
    if answers == [] then []
    else
      (if c.At? && Reported(c.node, answers[0]) != {} then [Reported(c.node, answers[0])] else [])
      + Reports(ExecStep(c, answers[0]), answers[1..])
  }

  /** How often the last report has been made in a row. */
  function InARow(reports: seq<set<ErrorCode>>): nat {
    if reports == [] then 0
    else
      var n := |reports|;
      1 + if n > 1 && reports[n - 2] == reports[n - 1] then InARow(reports[..n - 1]) else 0
  }

  ghost predicate StreakOf(reports: seq<set<ErrorCode>>, streak: Streak) {
    && {} !in reports
    && streak == if reports == [] then NO_STREAK else Streak(reports[|reports| - 1], InARow(reports))
  }

  lemma BumpContinues(reports: seq<set<ErrorCode>>, streak: Streak, errors: seq<ErrorCode>)
    requires StreakOf(reports, streak) && errors != []
    ensures StreakOf(reports + [CodeSet(errors)], BumpStreak(streak, errors))
  {
    var key := CodeSet(errors);
    assert errors[0] in key;
    assert (reports + [key])[..|reports|] == reports;
    if reports != [] {
      assert (reports + [key])[|reports| - 1] == reports[|reports| - 1] && reports[|reports| - 1] in reports;
    }
  }

  lemma StepReports(c: ExecConfig, a: ExecAnswer, reports: seq<set<ErrorCode>>)
    requires c.At? && c.node != RejectNode && ExecStep(c, a).At? && StreakOf(reports, c.s.cycle.streak)
    ensures var more := if Reported(c.node, a) != {} then [Reported(c.node, a)] else [];
      StreakOf(reports + more, ExecStep(c, a).s.cycle.streak)
  {
    assert reports + [] == reports;
    match c.node
    case GenerateNode =>
      assert CodeSet([CodegenFailed]) == {CodegenFailed};
      BumpContinues(reports, c.s.cycle.streak, [CodegenFailed]);
    case ValidateCodeNode =>
      BlockingReports(c, a, reports);
    case ExecuteNode =>
      assert CodeSet([ExecutionRefused]) == {ExecutionRefused} && CodeSet([RuntimeError]) == {RuntimeError};
      BumpContinues(reports, c.s.cycle.streak, [ExecutionRefused]);
      BumpContinues(reports, c.s.cycle.streak, [RuntimeError]);
    case ValidateResultNode =>
      BlockingReports(c, a, reports);
    case _ =>
  }

  lemma BlockingReports(c: ExecConfig, a: ExecAnswer, reports: seq<set<ErrorCode>>)
    requires c.At? && StreakOf(reports, c.s.cycle.streak)
    ensures a.blocking != [] ==> StreakOf(reports + [set x | x in a.blocking], BumpStreak(c.s.cycle.streak, a.blocking))
    ensures (set x | x in a.blocking) == {} <==> a.blocking == []
  {
    assert CodeSet(a.blocking) == set x | x in a.blocking;
    if a.blocking != [] {
      assert a.blocking[0] in CodeSet(a.blocking);
      BumpContinues(reports, c.s.cycle.streak, a.blocking);
    }
  }

  lemma NotYetRejected(c: ExecConfig, answers: seq<ExecAnswer>)
    requires c.At? && ExecRunOk(c, answers) && answers != []
    requires ExecRun(c, answers).At? && ExecRun(c, answers).node != ExportNode
    ensures c.node != RejectNode && ExecStep(c, answers[0]).At?
  {
    var d, rest := ExecStep(c, answers[0]), answers[1..];
    if rest != [] {
      ExportIsLastHere(d, rest);
    }
  }

  lemma ExportIsLastHere(d: ExecConfig, rest: seq<ExecAnswer>)
    requires ExecRunOk(d, rest) && rest != []
    ensures d.At? && (d.node == ExportNode ==> !ExecRun(d, rest).At?)
  {
    if d.node == ExportNode {
      ExportIsLast(d, rest[0]);
      assert ExecRunOk(ExecStep(d, rest[0]), rest[1..]);
      assert rest[1..] == [];
      assert ExecRun(d, rest) == ExecRun(ExecStep(d, rest[0]), []);
    }
  }

  lemma Regrouped<T>(a: seq<T>, b: seq<T>, c: seq<T>)
    ensures (a + b) + c == a + (b + c)
  {
  }

  /** Up to the rejection, the streak counts how often the last report was made in a row. */
  lemma {:induction false} StreakCounts(c: ExecConfig, answers: seq<ExecAnswer>, reports: seq<set<ErrorCode>>)
    requires c.At? && ExecRunOk(c, answers) && ExecRun(c, answers).At? && ExecRun(c, answers).node != ExportNode
    requires StreakOf(reports, c.s.cycle.streak)
    ensures StreakOf(reports + Reports(c, answers), ExecRun(c, answers).s.cycle.streak)
    decreases |answers|
  {
    if answers == [] {
      assert reports + [] == reports;
    } else {
      var d := ExecStep(c, answers[0]);
      var more := if Reported(c.node, answers[0]) != {} then [Reported(c.node, answers[0])] else [];
      NotYetRejected(c, answers);
      StepReports(c, answers[0], reports);
      StreakCounts(d, answers[1..], reports + more);
      Regrouped(reports, more, Reports(d, answers[1..]));
    }
  }

  // ---------------------------------------------------------------- what the nodes hand on

  /** The program in use: the one found, then the one generated last, none after a failed generation. */
  function ProgramAfter(node: ExecNode, a: ExecAnswer, before: Option<(int, Manifest)>): Option<(int, Manifest)> {
    if node == LookupNode then a.cached
    else if node == GenerateNode then
      if a.codegen.Generated? then Some((a.codegen.program, a.codegen.manifest)) else None
    else before
  }

  /** The result in use: the one produced last, none after a failed run or generation. */
  function ResultAfter(node: ExecNode, a: ExecAnswer, before: Option<Json>): Option<Json> {
    if node == ExecuteNode then if a.sandbox.Produced? then Some(a.sandbox.result) else None
    else if node == GenerateNode && !a.codegen.Generated? then None
    else before
  }

  predicate Uses(c: Cycle, program: Option<(int, Manifest)>) {
    match program
    case None => c.program.None? && c.manifest.None?
    case Some((program, manifest)) => c.program == Some(program) && c.manifest == Some(manifest)
  }

  /** The program and the result in use after the answers of an attempt, from what they were. */
  function ProgramInUse(c: ExecConfig, answers: seq<ExecAnswer>, before: Option<(int, Manifest)>)
    : Option<(int, Manifest)>
    decreases |answers|
  {
    if answers == [] || !c.At? then before
    else ProgramInUse(ExecStep(c, answers[0]), answers[1..], ProgramAfter(c.node, answers[0], before))
  }

  function ResultInUse(c: ExecConfig, answers: seq<ExecAnswer>, before: Option<Json>): Option<Json>
    decreases |answers|
  {
    if answers == [] || !c.At? then before
    else ResultInUse(ExecStep(c, answers[0]), answers[1..], ResultAfter(c.node, answers[0], before))
  }

  lemma StepUses(c: ExecConfig, a: ExecAnswer, program: Option<(int, Manifest)>)
    requires c.At? && ExecStep(c, a).At? && Uses(c.s.cycle, program)
    ensures Uses(ExecStep(c, a).s.cycle, ProgramAfter(c.node, a, program))
  {
  }

  lemma StepResults(c: ExecConfig, a: ExecAnswer)
    requires c.At? && ExecStep(c, a).At?
    ensures ExecStep(c, a).s.cycle.candidate == ResultAfter(c.node, a, c.s.cycle.candidate)
    ensures c.node != CritiqueNode ==> ExecStep(c, a).s.cycle.review == c.s.cycle.review
    ensures c.node == CritiqueNode ==> ExecStep(c, a).s.cycle.review.Some?
  {
  }

  /** At every node of an attempt the cycle holds the program and the result in use. */
  lemma {:induction false} CycleHolds(c: ExecConfig, answers: seq<ExecAnswer>, program: Option<(int, Manifest)>)
    requires c.At? && ExecRunOk(c, answers) && ExecRun(c, answers).At? && Uses(c.s.cycle, program)
    ensures Uses(ExecRun(c, answers).s.cycle, ProgramInUse(c, answers, program))
    ensures ExecRun(c, answers).s.cycle.candidate == ResultInUse(c, answers, c.s.cycle.candidate)
    decreases |answers|
  {
    if answers != [] {
      StepUses(c, answers[0], program);
      StepResults(c, answers[0]);
      CycleHolds(ExecStep(c, answers[0]), answers[1..], ProgramAfter(c.node, answers[0], program));
    }
  }

  // ---------------------------------------------------------------- rejection

  ghost predicate Released(t: AgendaTask, u: AgendaTask, intent: Intent) {
    if intent.taskId == Some(t.taskId) && t.status == InProgress then u == t.(status := Pending, selected := None)
    else u == t
  }

  /** The critic refused it, or its result did, or no result was reached. */
  predicate FailedAt(c: Cycle, stage: Stage) {
    match stage
    case CriticStage => c.review.Some?
    case ResultStage => c.review.None? && c.candidate.Some?
    case CodeStage => c.review.None? && c.candidate.None?
  }

  /** The attempt is recorded with its stage, its task handed back, and an issue raised exactly if the last report
      was made five times in a row. */
  ghost predicate RejectedOutcome(s: State, t: State, reports: seq<set<ErrorCode>>) {
    && s.intent.Some?
    && t == s.(know := t.know, cycle := s.cycle.(streak := t.cycle.streak), intent := None)
    && t.know == s.know.(agenda := t.know.agenda, rejected := t.know.rejected, issues := t.know.issues)
    && |t.know.agenda| == |s.know.agenda|
    && (forall i :: 0 <= i < |s.know.agenda| ==> Released(s.know.agenda[i], t.know.agenda[i], s.intent.value))
    && (exists stage :: FailedAt(s.cycle, stage) && t.know.rejected == s.know.rejected
          + [RejectedAttempt(s.intent.value.intentId, DedupeKey(s.intent.value), stage, s.intent.value.goalId,
                             s.intent.value.question)])
    && (if InARow(reports) >= 5
        then t.know.issues == s.know.issues
               + [LoopIssue(reports[|reports| - 1], InARow(reports), s.iteration, Some(s.intent.value.intentId))]
             && t.cycle.streak == NO_STREAK
        else t.know.issues == s.know.issues && t.cycle.streak == s.cycle.streak)
  }

  lemma RejectionMeaning(s: State, reports: seq<set<ErrorCode>>)
    requires Loadable(s) && s.intent.Some? && StreakOf(reports, s.cycle.streak)
    ensures RejectAttempt(s).Next? && RejectedOutcome(s, RejectAttempt(s).state, reports)
  {
    assert FailedAt(s.cycle, RejectStage(s.cycle));
    var agenda := ReleaseTask(s.know.agenda, s.intent.value);
    forall i | 0 <= i < |s.know.agenda| ensures Released(s.know.agenda[i], agenda[i], s.intent.value) {
    }
    assert s.know.issues + [] == s.know.issues;
  }

  /** Every rejection of an attempt. */
  lemma AttemptRejects(p: State, start: ExecConfig, answers: seq<ExecAnswer>, i: nat)
    requires ExecReady(p) && ExecInv(p, start) && IsAt(start, EntryNode) && ExecRunOk(start, answers) && i < |answers|
    requires IsAt(ExecTrace(start, answers)[i], RejectNode)
    ensures var c, d := ExecTrace(start, answers)[i], ExecTrace(start, answers)[i + 1];
      d.At? && d.node == ExportNode && RejectedOutcome(c.s, d.s, Reports(start, answers[..i]))
  {
    ReadyIsLoadable(p);
    TraceKeeps(p, start, answers, i);
    TraceIsRun(start, answers, i);
    StreakCounts(start, answers[..i], []);
    assert [] + Reports(start, answers[..i]) == Reports(start, answers[..i]);
    RejectionMeaning(ExecTrace(start, answers)[i].s, Reports(start, answers[..i]));
  }

  // ---------------------------------------------------------------- commit

  /** The record is listed by its goal. */
  ghost predicate GoalsLinked(goals: seq<SubGoal>, linked: seq<SubGoal>, goalId: Option<GoalId>, id: EvidenceId) {
    && |linked| == |goals|
    && forall i :: 0 <= i < |goals| ==>
         linked[i] == if goalId == Some(goals[i].goalId) then goals[i].(evidenceIds := goals[i].evidenceIds + [id])
                      else goals[i]
  }

  /** A relation from the new record that the intent or the review names. */
  ghost predicate Named(k: Knowledge, intent: Intent, review: CriticReview, e: EvidenceRecord, r: EvidenceRelation) {
    && r.source == e.evidenceId && r.target != e.evidenceId
    && match r.kind
       case DerivedFrom => r.target in intent.parents
       case Contradicts => r.target in review.contradicts
       case Revalidates => r.target in review.revalidates && !Withdrawn(k, intent.taskId, e, r.target)
       case Supersedes => r.target in review.supersedes
       case Reconciles => r.target in review.reconciles
  }

  /** What one commit does to everything that is known. */
  ghost predicate Committed(k: Knowledge, n: Knowledge, intent: Intent, review: CriticReview, e: EvidenceRecord) {
    && n.evidence == k.evidence + [e] && n.rejected == k.rejected && n.issues == k.issues
    && GoalsLinked(k.goals, n.goals, intent.goalId, e.evidenceId)
    && TasksJudged(k, n.agenda, intent, review, e) && TasksCreated(|k.agenda|, n.agenda, intent, review, e)
    && k.relations <= n.relations
    && (forall r :: r in n.relations <==> r in k.relations || Named(k, intent, review, e, r))
    && n.coverage.testedKeys == k.coverage.testedKeys + [DedupeKey(intent)]
    && (forall c :: Usage(n.coverage.columnUsage, c) == Usage(k.coverage.columnUsage, c) + Count(e.columnsUsed, c))
  }

  lemma CommitMeaning(k: Knowledge, intent: Intent, review: CriticReview, e: EvidenceRecord, ids: seq<TaskId>)
    requires CandidateCount(review) == |ids|
    ensures Committed(k, Commit(k, intent, review, e, ids), intent, review, e)
  {
    AgendaAfterCommitMeaning(k, intent, review, e, ids);
    RelationsAfterCommitContents(k, intent, review, e);
    forall c { UsesAreCounted(k.coverage.columnUsage, e.columnsUsed, c); }
  }

  lemma CommitWrites(s: State, a: ExecAnswer, entry: Lengths) returns (e: EvidenceRecord)
    requires ExecStep(At(CommitNode, s, entry), a).At?
    requires s.cycle.review.Some? && s.cycle.review.value.Reviewed? && s.cycle.candidate.Some?
    requires Bind(s.cycle.review.value.review, s.cycle.candidate.value) == Some(s.cycle.review.value.review)
    ensures s.intent.Some? && RecordOfAttempt(e, s, a.evidenceId)
    ensures var d := ExecStep(At(CommitNode, s, entry), a);
      && d.node == ExportNode && |a.taskIds| == CandidateCount(s.cycle.review.value.review)
      && d.s == s.(know := Commit(s.know, s.intent.value, s.cycle.review.value.review, e, a.taskIds), intent := None)
  {
    e := CommitAppends(At(CommitNode, s, entry), a);
    var f := BuildEvidence(s, s.intent.value, s.cycle.review.value.review, a.evidenceId);
    assert (s.know.evidence + [e])[|s.know.evidence|] == (s.know.evidence + [f])[|s.know.evidence|];
  }

  /** Every commit of an attempt writes the record of that attempt and updates goals, agenda, relations and
      coverage by it; nothing else changes. */
  lemma AttemptCommits(p: State, c: ExecConfig, a: ExecAnswer) returns (e: EvidenceRecord)
    requires ExecReady(p) && ExecInv(p, c) && IsAt(c, CommitNode) && ExecAnswerOk(c, a)
    ensures var d := ExecStep(c, a);
      && d.At? && d.node == ExportNode
      && RecordOfAttempt(e, c.s, a.evidenceId)
      && d.s == c.s.(know := d.s.know, intent := None)
      && Committed(c.s.know, d.s.know, c.s.intent.value, c.s.cycle.review.value.review, e)
  {
    CommitKeeps(p, c.s, c.entry, a);
    e := CommitWrites(c.s, a, c.entry);
    CommitMeaning(c.s.know, c.s.intent.value, c.s.cycle.review.value.review, e, a.taskIds);
  }

  // ---------------------------------------------------------------- a whole attempt in a run

  /** How an attempt of the run ended: its record committed, itself rejected, or the run stopped by an outage. */
  ghost predicate EndsBy(p: State, c: ExecConfig, a: ExecAnswer, reports: seq<set<ErrorCode>>, t: State) {
    c.At? && c.s == p.(cycle := c.s.cycle) &&
    match c.node
    case CommitNode => EndsByCommit(c.s, a, t)
    case RejectNode => RejectedOutcome(c.s, t, reports)
    case _ => t.terminal.status == Failed && StopsOnOutage(c, a, t)
  }

  ghost predicate EndsByCommit(s: State, a: ExecAnswer, t: State) {
    && s.intent.Some? && s.cycle.review.Some? && s.cycle.review.value.Reviewed?
    && t == s.(know := t.know, intent := None)
    && exists e :: RecordOfAttempt(e, s, a.evidenceId)
         && Committed(s.know, t.know, s.intent.value, s.cycle.review.value.review, e)
  }

  lemma ExportIsReached(c: ExecConfig, a: ExecAnswer)
    requires c.At? && IsAt(ExecStep(c, a), ExportNode)
    ensures c.node in {GenerateNode, CritiqueNode, CommitNode, RejectNode}
  {
  }

  lemma StoppedAtExport(c: ExecConfig, a: ExecAnswer)
    requires (IsAt(c, GenerateNode) || IsAt(c, CritiqueNode)) && IsAt(ExecStep(c, a), ExportNode)
    ensures ExecStep(c, a).s.terminal.status != Running
  {
  }

  lemma AttemptEndsBy(p: State, start: ExecConfig, answers: seq<ExecAnswer>, i: nat)
    requires ExecReady(p) && ExecInv(p, start) && IsAt(start, EntryNode) && ExecRunOk(start, answers) && i < |answers|
    requires IsAt(ExecTrace(start, answers)[i + 1], ExportNode) && !IsAt(ExecTrace(start, answers)[i], ExportNode)
    ensures EndsBy(p, ExecTrace(start, answers)[i], answers[i], Reports(start, answers[..i]),
                   ExecTrace(start, answers)[i + 1].s)
  {
    var c := ExecTrace(start, answers)[i];
    TraceKeeps(p, start, answers, i);
    ExportIsReached(c, answers[i]);
    if c.node == CommitNode {
      var e := AttemptCommits(p, c, answers[i]);
    } else if c.node == RejectNode {
      AttemptRejects(p, start, answers, i);
    } else {
      StoppedAtExport(c, answers[i]);
      AttemptStops(p, start, answers, i);
    }
  }

  lemma OutOfEntry(p: State, start: ExecConfig, answers: seq<ExecAnswer>)
    requires ExecReady(p) && ExecInv(p, start) && IsAt(start, EntryNode) && ExecRunOk(start, answers)
    requires ExecRun(start, answers).Exported?
    ensures |answers| >= 2
    ensures var n := |answers|;
      IsAt(ExecTrace(start, answers)[n - 1], ExportNode) && !IsAt(ExecTrace(start, answers)[n - 2], ExportNode)
  {
    var n := |answers|;
    TraceEnds(start, answers);
    TraceKeeps(p, start, answers, n - 1);
    OnlyExportExports(ExecTrace(start, answers)[n - 1], answers[n - 1]);
    TraceKeeps(p, start, answers, n - 2);
    if IsAt(ExecTrace(start, answers)[n - 2], ExportNode) {
      ExportIsLast(ExecTrace(start, answers)[n - 2], answers[n - 2]);
    }
  }

  /** Whatever the services answer, running code for an intent of the run leaves the state, once the delta is
      applied, as the last node of the attempt left it: with one record of that attempt committed, with the attempt
      rejected, or stopped by an outage. */
  lemma AttemptInRun(c: Config, a: Answer, b: Answer)
    requires MainInv(c) && c.node == ExecutionNode && StepOk(c, a)
    ensures StepOk(MainStep(c, a), b) && MainStep(MainStep(c, a), b).node == Assess
    ensures var n, start := |a.execution|, ExecStart(c.s);
      && n >= 2
      && EndsBy(c.s, ExecTrace(start, a.execution)[n - 2], a.execution[n - 2], Reports(start, a.execution[..n - 2]),
                MainStep(MainStep(c, a), b).s)
  {
    EntrySatisfies(c.s);
    ExecutionKeeps(c, a);
    AttemptEndsInRun(c.s, ExecStart(c.s), a.execution);
  }

  lemma AttemptEndsInRun(p: State, start: ExecConfig, answers: seq<ExecAnswer>)
    requires ExecReady(p) && ExecInv(p, start) && IsAt(start, EntryNode) && ExecRunOk(start, answers)
    requires ExecRun(start, answers).Exported?
    ensures var n := |answers|;
      && n >= 2
      && EndsBy(p, ExecTrace(start, answers)[n - 2], answers[n - 2], Reports(start, answers[..n - 2]),
                ApplyDelta(p.(delta := Some(ExecRun(start, answers).delta))))
  {
    OutOfEntry(p, start, answers);
    DeltaOfRunIsInline(p, start, answers);
    AttemptEndsBy(p, start, answers, |answers| - 2);
  }

  /** In every attempt of a run, each decision depends on the service's answer and on how many failures of its kind
      came before it: code is generated again after fewer than five static failures and after the first failed
      run, and a commit follows exactly a usable accepting review. */
  lemma AttemptDecides(c: Config, a: Answer, i: nat)
    requires MainInv(c) && c.node == ExecutionNode && StepOk(c, a) && i < |a.execution|
    requires !IsAt(ExecTrace(ExecStart(c.s), a.execution)[i], ExportNode)
    ensures var start := ExecStart(c.s);
      var d, e := ExecTrace(start, a.execution)[i], ExecTrace(start, a.execution)[i + 1];
      && d.At? && e.At?
      && e.node == Decision(d.s.know, d.node, d.s.cycle, a.execution[i],
                            StaticFailures(start, a.execution[..i]), RunningFailures(start, a.execution[..i]))
  {
    EntrySatisfies(c.s);
    AttemptDecidesFrom(c.s, ExecStart(c.s), a.execution, i);
  }
}
