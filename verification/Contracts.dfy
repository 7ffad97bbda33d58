/** The value contracts of an analysis run: sub-goals, agenda tasks, evidence, relations,
    research intents and critic reviews, with the validators each contract carries.

    Identifiers drawn from uuid4 are opaque integers; hashes are injective, so a hash is
    represented by the value it digests. */
module Contracts {

  datatype Option<+T> = None | Some(value: T)

  type EvidenceId = int
  type TaskId = int
  type IntentId = int
  type GoalId = int
  type Column = string

  // ---------------------------------------------------------------- text

  predicate IsSpace(c: char) {
    c == ' ' || c == '\t' || c == '\n' || c == '\r'
  }

  function LStrip(s: string): string {
    if s != "" && IsSpace(s[0]) then LStrip(s[1..]) else s
  }

  function RStrip(s: string): string {
    if s != "" && IsSpace(s[|s| - 1]) then RStrip(s[..|s| - 1]) else s
  }

  function Strip(s: string): string {
    RStrip(LStrip(s))
  }

  predicate Blank(s: string) {
    Strip(s) == ""
  }

  function Lower(c: char): char {
    if 'A' <= c <= 'Z' then ((c as int) + 32) as char else c
  }

  /** Whitespace runs become one blank and letters fold to lower case, after stripping. */
  function Fold(s: string): string {
    if s == "" then ""
    else if IsSpace(s[0]) then (if |s| > 1 && IsSpace(s[1]) then "" else " ") + Fold(s[1..])
    else [Lower(s[0])] + Fold(s[1..])
  }

  function Normalized(s: string): string {
    Fold(Strip(s))
  }

  lemma LStripShape(s: string)
    ensures LStrip(s) == "" || !IsSpace(LStrip(s)[0])
  {
  }

  lemma RStripKeepsHead(s: string)
    requires s != "" && !IsSpace(s[0])
    ensures RStrip(s) != "" && RStrip(s)[0] == s[0] && !IsSpace(RStrip(s)[|RStrip(s)| - 1])
  {
  }

  /** What stripping leaves is never blank itself, so a reason taken from `strip() or ...` passes
      the validator that strips it again. */
  lemma StripIsNotBlank(s: string)
    requires Strip(s) != ""
    ensures !Blank(Strip(s))
  {
    LStripShape(s);
    if LStrip(s) != "" {
      RStripKeepsHead(LStrip(s));
      var t := Strip(s);
      assert LStrip(t) == t;
      RStripKeepsHead(t);
    }
  }

  ghost predicate AllSpace(s: string) {
    forall i :: 0 <= i < |s| ==> IsSpace(s[i])
  }

  /** `t` is the text between the surrounding whitespace of `s`. */
  ghost predicate Trims(s: string, a: nat, b: nat, t: string) {
    && a <= b <= |s| && t == s[a..b] && AllSpace(s[..a]) && AllSpace(s[b..])
    && (t != "" ==> !IsSpace(t[0]) && !IsSpace(t[|t| - 1]))
  }

  lemma {:induction false} LStripTrims(s: string) returns (a: nat)
    ensures a <= |s| && LStrip(s) == s[a..] && AllSpace(s[..a]) && (a < |s| ==> !IsSpace(s[a]))
  {
    if s != "" && IsSpace(s[0]) {
      var k := LStripTrims(s[1..]);
      a := k + 1;
      assert s[..a] == [s[0]] + s[1..][..k] && s[1..][k..] == s[a..];
    } else {
      a := 0;
    }
  }

  lemma {:induction false} RStripTrims(s: string) returns (b: nat)
    ensures b <= |s| && RStrip(s) == s[..b] && AllSpace(s[b..]) && (b > 0 ==> !IsSpace(s[b - 1]))
  {
    if s != "" && IsSpace(s[|s| - 1]) {
      b := RStripTrims(s[..|s| - 1]);
      assert s[b..] == s[..|s| - 1][b..] + [s[|s| - 1]] && s[..|s| - 1][..b] == s[..b];
    } else {
      b := |s|;
    }
  }

  /** Stripping removes exactly the surrounding whitespace. */
  lemma StripTrims(s: string) returns (a: nat, b: nat)
    ensures Trims(s, a, b, Strip(s))
  {
    a := LStripTrims(s);
    var k := RStripTrims(s[a..]);
    b := a + k;
    assert s[a..][..k] == s[a..b] && s[a..][k..] == s[b..];
  }

  /** A text is blank exactly when it holds nothing but whitespace. */
  lemma BlankIff(s: string)
    ensures Blank(s) <==> AllSpace(s)
  {
    var a, b := StripTrims(s);
    if Blank(s) {
      assert s == s[..a] + s[a..b] + s[b..];
    } else {
      assert !IsSpace(s[a..b][0]) && s[a..b][0] == s[a];
    }
  }

  /** The words of a text, as splitting on whitespace runs yields them. */
  function Words(s: string): seq<string> {
    if s == "" then []
    else if IsSpace(s[0]) then Words(s[1..])
    else if |s| == 1 || IsSpace(s[1]) then [[s[0]]] + Words(s[1..])
    else
      var rest := Words(s[1..]);
      if rest == [] then [] else [[s[0]] + rest[0]] + rest[1..]
  }

  function LowerAll(s: string): string {
    if s == "" then "" else [Lower(s[0])] + LowerAll(s[1..])
  }

  function JoinLower(words: seq<string>): string {
    if words == [] then ""
    else LowerAll(words[0]) + (if |words| == 1 then "" else " " + JoinLower(words[1..]))
  }

  lemma {:induction false} WordsStart(s: string)
    requires s != "" && !IsSpace(s[0])
    ensures Words(s) != [] && Words(s)[0] != ""
  {
    if |s| > 1 && !IsSpace(s[1]) {
      WordsStart(s[1..]);
    }
  }

  /** The first letter of a word joins what follows it. */
  lemma WordGrows(s: string)
    requires |s| > 1 && !IsSpace(s[0]) && !IsSpace(s[1])
    ensures JoinLower(Words(s)) == [Lower(s[0])] + JoinLower(Words(s[1..]))
  {
    WordsStart(s[1..]);
    var rest := Words(s[1..]);
    var word := [s[0]] + rest[0];
    assert word[1..] == rest[0];
    assert Words(s)[1..] == rest[1..];
  }

  lemma WordEnds(s: string)
    requires s != "" && !IsSpace(s[0]) && (|s| == 1 || IsSpace(s[1]))
    ensures JoinLower(Words(s)) == [Lower(s[0])] + if Words(s[1..]) == [] then "" else " " + JoinLower(Words(s[1..]))
  {
    var rest := Words(s[1..]);
    assert Words(s) == [[s[0]]] + rest;
    assert Words(s)[1..] == rest;
    assert LowerAll([s[0]]) == [Lower(s[0])] + LowerAll("");
  }

  lemma {:induction false} FoldJoins(s: string)
    requires s != "" ==> !IsSpace(s[|s| - 1])
    ensures s == "" || !IsSpace(s[0]) ==> Fold(s) == JoinLower(Words(s))
    ensures s != "" && IsSpace(s[0]) ==> Fold(s) == " " + JoinLower(Words(s)) && Words(s) != []
  {
    if s != "" {
      FoldJoins(s[1..]);
      if IsSpace(s[0]) {
        if !IsSpace(s[1]) {
          WordsStart(s[1..]);
        }
      } else if |s| > 1 && !IsSpace(s[1]) {
        WordGrows(s);
      } else {
        WordEnds(s);
      }
    }
  }

  lemma {:induction false} WordsOfSpace(x: string, s: string)
    requires AllSpace(x)
    ensures Words(x + s) == Words(s)
  {
    if x == "" {
      assert x + s == s;
    } else {
      assert (x + s)[1..] == x[1..] + s && (x + s)[0] == x[0];
      WordsOfSpace(x[1..], s);
    }
  }

  lemma {:induction false} WordsBeforeSpace(s: string, y: string)
    requires AllSpace(y)
    ensures Words(s + y) == Words(s)
  {
    if s == "" {
      assert s + y == y + "";
      WordsOfSpace(y, "");
    } else {
      assert (s + y)[1..] == s[1..] + y && (s + y)[0] == s[0];
      WordsBeforeSpace(s[1..], y);
      if |s| == 1 && y != "" {
        assert (s + y)[1] == y[0];
      } else if |s| > 1 {
        assert (s + y)[1] == s[1];
      } else {
        assert s + y == s;
      }
    }
  }

  lemma WordsWithin(x: string, t: string, y: string)
    requires AllSpace(x) && AllSpace(y)
    ensures Words((x + t) + y) == Words(t)
  {
    WordsOfSpace(x, t);
    WordsBeforeSpace(x + t, y);
  }

  lemma WordsOfStrip(s: string)
    ensures Words(Strip(s)) == Words(s)
  {
    var a, b := StripTrims(s);
    WordsWithin(s[..a], s[a..b], s[b..]);
    assert s == (s[..a] + s[a..b]) + s[b..];
  }

  lemma StripEdges(s: string)
    ensures Strip(s) != "" ==> !IsSpace(Strip(s)[0]) && !IsSpace(Strip(s)[|Strip(s)| - 1])
  {
    var a, b := StripTrims(s);
  }

  /** The key of a question is its words in lower case, joined by single blanks. */
  lemma NormalizedJoinsWords(s: string)
    ensures Normalized(s) == JoinLower(Words(s))
  {
    StripEdges(s);
    FoldJoins(Strip(s));
    WordsOfStrip(s);
  }

  /** Stripping a question first does not change its key. */
  lemma NormalizedOfStrip(s: string)
    ensures Normalized(Strip(s)) == Normalized(s)
  {
    WordsOfStrip(s);
    NormalizedJoinsWords(s);
    NormalizedJoinsWords(Strip(s));
  }

  // ---------------------------------------------------------------- goals

  datatype GoalStatus = Open | Converged | Abandoned

  datatype SubGoal = SubGoal(goalId: GoalId, question: string, status: GoalStatus, evidenceIds: seq<EvidenceId>) {
    predicate IsOpen() { status == Open }
  }

  // ---------------------------------------------------------------- agenda

  datatype TaskKind = FollowUp | ResolveContradiction | Revalidate
  datatype TaskStatus = Pending | InProgress | Completed | DataLimited

  datatype AgendaTask = AgendaTask(
    taskId: TaskId,
    kind: TaskKind,
    goalId: Option<GoalId>,
    question: string,
    priority: int,
    sources: seq<EvidenceId>,
    status: TaskStatus,
    selected: Option<IntentId>,
    attempts: int,
    completion: Option<EvidenceId>,
    reason: string)
  {
    predicate Live() { status == Pending || status == InProgress }
  }

  function ToSet<T>(s: seq<T>): (r: set<T>)
  {
    set x | x in s
  }

  lemma SubsetIff<T(!new)>(xs: seq<T>, s: set<T>)
    ensures ToSet(xs) <= s <==> forall x :: x in xs ==> x in s
  {
    if ToSet(xs) <= s {
      forall x | x in xs ensures x in s {
        assert x in ToSet(xs);
      }
    }
  }

  lemma IdsWithin(xs: seq<EvidenceId>, s: set<EvidenceId>)
    ensures ToSet(xs) <= s <==> forall x :: x in xs ==> x in s
  {
    if ToSet(xs) <= s {
      forall x | x in xs ensures x in s {
        assert x in ToSet(xs);
      }
    }
    if forall x :: x in xs ==> x in s {
      forall x: EvidenceId | x in ToSet(xs) ensures x in s {
      }
    }
  }

  /** The validators of an agenda task (`_task_is_consistent` and the field constraints). */
  predicate ValidTask(t: AgendaTask) {
    && t.question != ""
    && 0 <= t.priority <= 100
    && 0 <= t.attempts
    && (t.kind != ResolveContradiction ==> t.sources != [])
    && (t.kind == ResolveContradiction ==> exists i, j | 0 <= i < j < |t.sources| :: t.sources[i] != t.sources[j])
    && (t.status == InProgress ==> t.selected.Some?)
    && (t.status == Completed ==> t.completion.Some?)
    && (t.status == DataLimited ==> t.attempts >= 1 && !Blank(t.reason))
  }

  // ---------------------------------------------------------------- relations

  datatype RelationKind = DerivedFrom | Contradicts | Revalidates | Supersedes | Reconciles

  datatype EvidenceRelation = Relation(source: EvidenceId, target: EvidenceId, kind: RelationKind)

  predicate ValidRelation(r: EvidenceRelation) {
    r.source != r.target
  }

  // ---------------------------------------------------------------- results and reviews

  datatype Float = Finite(r: real) | NaN | PosInf | NegInf

  datatype Json =
    | Null
    | Bool(b: bool)
    | Int(i: int)
    | Flt(f: Float)
    | Str(s: string)
    | List(items: seq<Json>)
    | Obj(fields: map<string, Json>)

  datatype PathPart = Key(key: string) | Index(index: int)
  type ResultPath = seq<PathPart>

  datatype Effect = Effect(
    column: Column, metric: string, value: real, directional: bool,
    unit: Option<string>, sourcePath: Option<ResultPath>)

  datatype Verdict = Accept | Reject

  datatype CriticReview = CriticReview(
    verdict: Verdict,
    claim: string,
    openQuestions: seq<string>,
    contradicts: seq<EvidenceId>,
    revalidates: seq<EvidenceId>,
    revalidationRequired: seq<string>,
    supersedes: seq<EvidenceId>,
    reconciles: seq<EvidenceId>,
    effects: seq<Effect>,
    uncertainty: map<string, Json>,
    uncertaintyPaths: map<string, ResultPath>)

  predicate ValidReview(r: CriticReview) {
    && (r.verdict == Accept ==> !Blank(r.claim))
    && forall i | 0 <= i < |r.effects| :: r.effects[i].sourcePath.Some? ==> r.effects[i].sourcePath.value != []
  }

  // ---------------------------------------------------------------- evidence

  datatype Lineage = Lineage(datasetSha: int, schema: int, transform: int)

  /** A result artifact is identified with the JSON tree it stores. */
  datatype EvidenceRecord = EvidenceRecord(
    evidenceId: EvidenceId,
    intentId: IntentId,
    question: string,
    claim: string,
    result: Json,
    program: int,
    figures: seq<int>,
    methodName: string,
    protocol: int,
    lineage: Lineage,
    columnsUsed: seq<Column>,
    effects: seq<Effect>,
    uncertainty: map<string, Json>,
    uncertaintyPaths: map<string, ResultPath>,
    openQuestions: seq<string>,
    contradicts: seq<EvidenceId>,
    purpose: Purpose,
    goalId: Option<GoalId>,
    parents: seq<EvidenceId>)

  /** The part of a generated analysis that is kept beside its code. */
  datatype Manifest = Manifest(methodName: string, protocol: int, selectedColumns: seq<Column>, transform: int)

  // ---------------------------------------------------------------- intents

  datatype Purpose = Explore | Deepen | Challenge | ResolveConflict

  datatype Mode = Compute | ReuseEvidence | InspectData | LookupEvidence | MarkDataLimited

  /** `brief` stands for the free-form success criterion, desired evidence and constraints. */
  datatype Intent = Intent(
    intentId: IntentId,
    question: string,
    hypothesis: string,
    rationale: string,
    goalId: Option<GoalId>,
    purpose: Purpose,
    parents: seq<EvidenceId>,
    taskId: Option<TaskId>,
    mode: Mode,
    reuse: seq<EvidenceId>,
    brief: string,
    candidates: seq<Column>,
    required: seq<Column>,
    excluded: seq<Column>)

  /** The three after-validators of a research intent and its field constraints. */
  predicate ValidIntent(i: Intent) {
    && i.question != "" && i.hypothesis != ""
    && (i.purpose != Explore ==> i.parents != [])
    && (if i.mode == ReuseEvidence
        then i.reuse != [] && i.taskId.None? && forall e | e in i.reuse :: e in i.parents
        else i.reuse == [])
    && (i.mode == InspectData ==> i.taskId.None? && i.candidates != [])
    && (i.mode == LookupEvidence ==> i.taskId.None? && (i.goalId.Some? || i.candidates != [] || i.parents != []))
    && (i.mode == MarkDataLimited ==> i.taskId.Some?)
    && (forall c | c in i.required :: c in i.candidates && c !in i.excluded)
  }

  /** The digest of an intent: every field but its id, with the column and evidence lists read as sets.
      `reuse_signature` drops the goal as well. */
  datatype Signature = Signature(
    goalId: Option<Option<GoalId>>,
    question: string, hypothesis: string, rationale: string,
    purpose: Purpose, taskId: Option<TaskId>, mode: Mode, brief: string,
    parents: set<EvidenceId>, reuse: set<EvidenceId>,
    candidates: set<Column>, required: set<Column>, excluded: set<Column>)

  function AnalysisSignature(i: Intent, includeGoal: bool): Signature {
    Signature(if includeGoal then Some(i.goalId) else None,
              i.question, i.hypothesis, i.rationale, i.purpose, i.taskId, i.mode, i.brief,
              ToSet(i.parents), ToSet(i.reuse), ToSet(i.candidates), ToSet(i.required), ToSet(i.excluded))
  }

  function DedupeKey(i: Intent): Signature {
    AnalysisSignature(i, true)
  }

  ghost predicate SameMembers<T(!new)>(a: seq<T>, b: seq<T>) {
    forall x :: x in a <==> x in b
  }

  /** Everything two intents ask for is the same, lists of columns and records read as sets. */
  ghost predicate SameAnalysis(i: Intent, j: Intent) {
    && i.question == j.question && i.hypothesis == j.hypothesis && i.rationale == j.rationale
    && i.purpose == j.purpose && i.taskId == j.taskId && i.mode == j.mode && i.brief == j.brief
    && SameMembers(i.parents, j.parents) && SameMembers(i.reuse, j.reuse) && SameMembers(i.candidates, j.candidates)
    && SameMembers(i.required, j.required) && SameMembers(i.excluded, j.excluded)
  }

  lemma SameMembersIff<T(!new)>(a: seq<T>, b: seq<T>)
    ensures ToSet(a) == ToSet(b) <==> SameMembers(a, b)
  {
    if ToSet(a) == ToSet(b) {
      forall x ensures x in a <==> x in b {
        assert x in a <==> x in ToSet(a);
        assert x in b <==> x in ToSet(b);
      }
    }
  }

  lemma SignatureIff(i: Intent, j: Intent, includeGoal: bool)
    ensures AnalysisSignature(i, includeGoal) == AnalysisSignature(j, includeGoal)
      <==> SameAnalysis(i, j) && (includeGoal ==> i.goalId == j.goalId)
  {
    SameMembersIff(i.parents, j.parents);
    SameMembersIff(i.reuse, j.reuse);
    SameMembersIff(i.candidates, j.candidates);
    SameMembersIff(i.required, j.required);
    SameMembersIff(i.excluded, j.excluded);
  }

  /** Two intents share a deduplication key exactly when they ask for the same analysis of the same goal; the
      ids of the intents do not matter. */
  lemma DedupeKeyIff(i: Intent, j: Intent)
    ensures DedupeKey(i) == DedupeKey(j) <==> SameAnalysis(i, j) && i.goalId == j.goalId
  {
    SignatureIff(i, j, true);
  }

  // ---------------------------------------------------------------- coverage and rejections

  datatype Coverage = Coverage(columnUsage: map<Column, nat>, testedKeys: seq<Signature>)

  function Usage(m: map<Column, nat>, c: Column): nat {
    if c in m then m[c] else 0
  }

  /** Occurrences of `c` in a list of columns. */
  function Count(columns: seq<Column>, c: Column): nat {
    if columns == [] then 0
    else Count(columns[..|columns| - 1], c) + (if columns[|columns| - 1] == c then 1 else 0)
  }

  function AddUses(usage: map<Column, nat>, columns: seq<Column>): map<Column, nat> {
    if columns == [] then usage
    else
      var rest := AddUses(usage, columns[..|columns| - 1]);
      var c := columns[|columns| - 1];
      rest[c := Usage(rest, c) + 1]
  }

  /** Every column gains exactly its multiplicity in the recorded list. */
  lemma {:induction false} UsesAreCounted(usage: map<Column, nat>, columns: seq<Column>, c: Column)
    ensures Usage(AddUses(usage, columns), c) == Usage(usage, c) + Count(columns, c)
  {
    if columns != [] {
      UsesAreCounted(usage, columns[..|columns| - 1], c);
    }
  }

  /** `AnalysisCoverage.with_record`: one use more per listed column, repetitions included. */
  method WithRecord(coverage: Coverage, columns: seq<Column>) returns (r: Coverage)
    ensures r == coverage.(columnUsage := AddUses(coverage.columnUsage, columns))
    ensures forall c :: Usage(r.columnUsage, c) == Usage(coverage.columnUsage, c) + Count(columns, c)
  {
    var usage := coverage.columnUsage;
    for k := 0 to |columns|
      invariant usage == AddUses(coverage.columnUsage, columns[..k])
    {
      assert columns[..k + 1][..k] == columns[..k];
      usage := usage[columns[k] := Usage(usage, columns[k]) + 1];
    }
    assert columns[..|columns|] == columns;
    r := coverage.(columnUsage := usage);
    forall c { UsesAreCounted(coverage.columnUsage, columns, c); }
  }

  datatype Stage = CriticStage | ResultStage | CodeStage

  datatype RejectedAttempt = RejectedAttempt(intentId: IntentId, key: Signature, stage: Stage, goalId: Option<GoalId>,
    question: string)

  // ---------------------------------------------------------------- run lifecycle

  datatype RunStatus = Running | Done | Failed

  datatype StopCode =
    | GoalSatisfied | BudgetExhausted | MaxIterationsReached | DataLimitedStop
    | ExpansionLimitReached | ServiceUnavailable | PlannerStuck

  datatype FailureKind = ProviderUnavailable | Configuration | ContractViolation | ResponseInvalid

  /** `service_failure_action(kind) == "stop_run"`. */
  predicate StopsRun(kind: Option<FailureKind>) {
    kind == Some(ProviderUnavailable) || kind == Some(Configuration)
  }

  /** Error codes by the stage that reports them; the code sets of different stages are disjoint. */
  datatype ErrorCode = NoIntentCode | CodegenFailed | StaticCode(n: int) | ExecutionRefused | RuntimeError
    | ResultCode(n: int)

  datatype Streak = Streak(key: set<ErrorCode>, count: nat)

  const NO_STREAK := Streak({}, 0)

  datatype LoopIssue = LoopIssue(key: set<ErrorCode>, count: nat, iteration: int, intentId: Option<IntentId>)
}
