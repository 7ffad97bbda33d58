/** The adoption gate of the final report: only a draft that passes the deterministic checks and a semantic
    review of exactly the evidence it cites is adopted; everything else falls back to a summary. */
module Reporting {
  import opened Contracts
  import opened RunState
  import opened Numeric
  import opened ReviewEvidence
  import opened KnowledgeInvariant
  import opened ReportSections
  import opened ReportValidation
  import opened MainGraph
  import opened RunTheorems

  // ---------------------------------------------------------------- semantic review

  datatype Category = EvidenceSupport | CausalScope | MetricContext | Uncertainty | Recommendations | CompletionStatus

  const CATEGORIES := {EvidenceSupport, CausalScope, MetricContext, Uncertainty, Recommendations, CompletionStatus}

  datatype Finding = Finding(category: Category, quote: string, reason: string, revision: string,
    evidence: seq<EvidenceId>)

  datatype SemanticReview = SemanticReview(
    verdict: Verdict, categories: seq<Category>, reviewed: seq<EvidenceId>, findings: seq<Finding>)

  datatype Report = Report(text: string, lines: seq<Line>)

  predicate StartsAt(part: string, text: string, i: nat) {
    i + |part| <= |text| && text[i..i + |part|] == part
  }

  predicate Occurs(part: string, text: string) {
    exists i: nat | 0 <= i <= |text| :: StartsAt(part, text, i)
  }

  /** The review contract: six categories, each once, and findings exactly when it rejects. */
  predicate WellFormed(r: SemanticReview) {
    && |r.categories| == 6 && ToSet(r.categories) == CATEGORIES
    && (r.verdict == Accept <==> r.findings == [])
    && forall f | f in r.findings :: f.quote != "" && f.reason != "" && f.revision != ""
  }

  predicate FindingOk(f: Finding, text: string, ids: set<EvidenceId>) {
    && !Blank(f.quote) && Occurs(f.quote, text)
    && !Blank(f.reason) && !Blank(f.revision)
    && ToSet(f.evidence) <= ids
  }

  predicate ReviewOk(r: SemanticReview, text: string, ids: set<EvidenceId>) {
    && WellFormed(r)
    && |r.reviewed| == |ids| && ToSet(r.reviewed) == ids
    && forall f | f in r.findings :: FindingOk(f, text, ids)
  }

  /** `validate_semantic_review`; false where the source raises. */
  method ValidateSemanticReview(r: SemanticReview, text: string, ids: set<EvidenceId>) returns (ok: bool)
    ensures ok == ReviewOk(r, text, ids)
    ensures ok <==> ReviewStands(r, text, ids)
  {
    ReviewCoversEachOnce(r, text, ids);
    if !WellFormed(r) || |r.reviewed| != |ids| || ToSet(r.reviewed) != ids {
      return false;
    }
    for k := 0 to |r.findings|
      invariant forall i :: 0 <= i < k ==> FindingOk(r.findings[i], text, ids)
    {
      if !FindingOk(r.findings[k], text, ids) {
        assert r.findings[k] in r.findings;
        return false;
      }
    }
    return true;
  }

  lemma {:induction false} SetNoLarger<T>(s: seq<T>)
    ensures |ToSet(s)| <= |s|
    ensures |ToSet(s)| == |s| ==> forall i, j :: 0 <= i < j < |s| ==> s[i] != s[j]
  {
    if s != [] {
      var front, last := s[..|s| - 1], s[|s| - 1];
      SetNoLarger(front);
      assert ToSet(s) == ToSet(front) + {last};
      if last in front {
        assert ToSet(s) == ToSet(front);
      }
    }
  }

  lemma {:induction false} NoRepeatsFill<T>(s: seq<T>)
    requires forall i, j :: 0 <= i < j < |s| ==> s[i] != s[j]
    ensures |ToSet(s)| == |s|
  {
    if s != [] {
      var front, last := s[..|s| - 1], s[|s| - 1];
      NoRepeatsFill(front);
      assert ToSet(s) == ToSet(front) + {last};
      assert last !in front by {
        assert forall k :: 0 <= k < |front| ==> front[k] == s[k] && s[k] != s[|s| - 1];
      }
    }
  }

  /** Every member of the set exactly once. */
  ghost predicate EachOnce<T(!new)>(s: seq<T>, all: set<T>) {
    (forall x :: x in s <==> x in all) && forall i, j :: 0 <= i < j < |s| ==> s[i] != s[j]
  }

  lemma EachOnceIff<T(!new)>(s: seq<T>, all: set<T>)
    ensures |s| == |all| && ToSet(s) == all <==> EachOnce(s, all)
  {
    SetNoLarger(s);
    assert forall x :: x in s <==> x in ToSet(s);
    if EachOnce(s, all) {
      NoRepeatsFill(s);
      assert ToSet(s) == all;
    }
  }

  ghost predicate StandsIn(part: string, text: string) {
    exists i, j :: 0 <= i <= j <= |text| && text[i..j] == part
  }

  lemma OccursIff(part: string, text: string)
    ensures Occurs(part, text) <==> StandsIn(part, text)
  {
    if Occurs(part, text) {
      var i: nat :| i <= |text| && StartsAt(part, text, i);
      var j := i + |part|;
      assert text[i..j] == part;
    }
    if i, j :| 0 <= i <= j <= |text| && text[i..j] == part {
      assert j == i + |part|;
      assert StartsAt(part, text, i);
    }
  }

  /** The quote stands in the text, and quote, reason and revision say something about cited records only. */
  ghost predicate FindingStands(f: Finding, text: string, ids: set<EvidenceId>) {
    && !AllSpace(f.quote) && !AllSpace(f.reason) && !AllSpace(f.revision)
    && StandsIn(f.quote, text)
    && (forall x :: x in f.evidence ==> x in ids)
  }

  /** Each category and each cited record is reviewed exactly once, and the review rejects exactly if it finds
      something, all of it in the text. */
  ghost predicate ReviewStands(r: SemanticReview, text: string, ids: set<EvidenceId>) {
    && (forall c: Category :: c in r.categories)
    && (forall i, j :: 0 <= i < j < |r.categories| ==> r.categories[i] != r.categories[j])
    && EachOnce(r.reviewed, ids)
    && (r.verdict == Reject <==> r.findings != [])
    && (forall f :: f in r.findings ==> FindingStands(f, text, ids))
  }

  lemma FindingIff(f: Finding, text: string, ids: set<EvidenceId>)
    ensures FindingOk(f, text, ids) <==> FindingStands(f, text, ids)
  {
    BlankIff(f.quote);
    BlankIff(f.reason);
    BlankIff(f.revision);
    OccursIff(f.quote, text);
    IdsWithin(f.evidence, ids);
  }

  lemma AllCategories(categories: seq<Category>)
    ensures |CATEGORIES| == 6
    ensures EachOnce(categories, CATEGORIES) <==>
      && (forall c: Category :: c in categories)
      && (forall i, j :: 0 <= i < j < |categories| ==> categories[i] != categories[j])
  {
    forall c: Category ensures c in CATEGORIES {
      match c
      case EvidenceSupport =>
      case CausalScope =>
      case MetricContext =>
      case Uncertainty =>
      case Recommendations =>
      case CompletionStatus =>
    }
  }

  /** The counting checks amount to covering each cited record, and each category, exactly once. */
  lemma ReviewCoversEachOnce(r: SemanticReview, text: string, ids: set<EvidenceId>)
    ensures ReviewOk(r, text, ids) <==> ReviewStands(r, text, ids)
  {
    AllCategories(r.categories);
    EachOnceIff(r.categories, CATEGORIES);
    EachOnceIff(r.reviewed, ids);
    forall f ensures FindingOk(f, text, ids) <==> FindingStands(f, text, ids) {
      FindingIff(f, text, ids);
    }
    forall f | FindingStands(f, text, ids) ensures f.quote != "" && f.reason != "" && f.revision != "" {
    }
  }

  // ---------------------------------------------------------------- what a report is checked against

  /** `current_evidence`: the records still in force for this snapshot, in order. */
  function CurrentAmong(s: State, n: nat): seq<EvidenceRecord>
    requires n <= |s.know.evidence|
  {
    if n == 0 then []
    else
      var e := s.know.evidence[n - 1];
      var current := !Superseded(s.know.relations, e.evidenceId) && DataApplicability(s, e) == ExactSnapshot;
      CurrentAmong(s, n - 1) + (if current then [e] else [])
  }

  function CurrentEvidence(s: State): seq<EvidenceRecord> {
    CurrentAmong(s, |s.know.evidence|)
  }

  lemma {:induction false} CurrentAmongMeaning(s: State, n: nat)
    requires n <= |s.know.evidence|
    ensures forall e :: e in CurrentAmong(s, n) <==> e in s.know.evidence[..n] && IsCurrent(s, e)
  {
    if n > 0 {
      CurrentAmongMeaning(s, n - 1);
      assert s.know.evidence[..n] == s.know.evidence[..n - 1] + [s.know.evidence[n - 1]];
    }
  }

  function IncompleteGoals(goals: seq<SubGoal>): seq<GoalId> {
    if goals == [] then []
    else
      var last := goals[|goals| - 1];
      IncompleteGoals(goals[..|goals| - 1]) + (if last.status != Converged then [last.goalId] else [])
  }

  function PendingTasks(agenda: seq<AgendaTask>): seq<TaskId> {
    if agenda == [] then []
    else
      var last := agenda[|agenda| - 1];
      PendingTasks(agenda[..|agenda| - 1]) + (if last.Live() then [last.taskId] else [])
  }

  /** The numbers of one readable result; a result that cannot be read offers none. */
  ghost predicate SupportOf(e: EvidenceRecord, readable: set<EvidenceId>, numbers: seq<Float>) {
    forall x :: Finite(x) in numbers <==> e.evidenceId in readable && IsLeaf(e.result, x)
  }

  ghost predicate SupportFor(current: seq<EvidenceRecord>, readable: set<EvidenceId>,
                             support: map<EvidenceId, seq<Float>>)
  {
    && support.Keys == EvidenceIds(current)
    && forall id :: id in support ==>
      RecordOf(current, id).Some? && SupportOf(RecordOf(current, id).value, readable, support[id])
  }

  /** The context a draft of this run is checked in; `readable` are the records whose artifact can be read. */
  ghost predicate ContextFor(s: State, readable: set<EvidenceId>, ctx: Context) {
    && ctx.evidence == s.know.evidence && ctx.relations == s.know.relations
    && ctx.allowed == Some(EvidenceIds(CurrentEvidence(s)))
    && ctx.support.Some? && SupportFor(CurrentEvidence(s), readable, ctx.support.value)
    && ctx.stopCode == s.terminal.stopCode
    && ctx.incomplete == IncompleteGoals(s.know.goals)
    && ctx.pending == PendingTasks(s.know.agenda)
    && ctx.unresolved == UnresolvedContradictions(s.know.relations)
  }

  method NumericSupport(current: seq<EvidenceRecord>, readable: set<EvidenceId>)
    returns (support: map<EvidenceId, seq<Float>>)
    ensures SupportFor(current, readable, support)
  {
    support := map[];
    for k := 0 to |current|
      invariant SupportFor(current[..k], readable, support)
    {
      var e := current[k];
      assert current[..k + 1] == current[..k] + [e] && current[..k + 1][..k] == current[..k];
      var numbers: seq<Float> := [];
      if e.evidenceId in readable {
        numbers := CollectNumericValues(e.result);
      }
      assert SupportOf(e, readable, numbers);
      EvidenceIdsGrow(current[..k], e);
      support := support[e.evidenceId := numbers];
    }
    assert current[..|current|] == current;
  }

  predicate CriticUnavailable(s: State) {
    && s.terminal.stopCode == Some(ServiceUnavailable)
    && s.cycle.serviceFailure.Some? && s.cycle.serviceFailure.value.role == CriticRole
    && StopsRun(s.cycle.serviceFailure.value.kind)
  }

  predicate CanGenerate(s: State, critic: bool) {
    critic && s.terminal.stopCode != Some(BudgetExhausted) && !CriticUnavailable(s)
  }

  function CitedIds(lines: seq<Line>): set<EvidenceId> {
    ToSet(AllCitations(lines, |lines|))
  }

  /** `review_report`: passed only when every cited result was read and a valid review accepts. */
  predicate Reviewed(report: Report, readable: set<EvidenceId>, reviewService: bool, answer: Option<SemanticReview>) {
    && CitedIds(report.lines) <= readable
    && reviewService && answer.Some?
    && ReviewOk(answer.value, report.text, CitedIds(report.lines)) && answer.value.verdict == Accept
  }

  /** The results read for the report are those of current records. */
  function ReadResults(s: State, readable: set<EvidenceId>): set<EvidenceId> {
    EvidenceIds(CurrentEvidence(s)) * readable
  }

  ghost predicate Discloses(lines: seq<Line>, id: EvidenceId) {
    exists n: nat :: LimitLine(lines, n) && id in lines[n].citations
  }

  lemma CurrentIds(s: State, id: EvidenceId)
    ensures id in EvidenceIds(CurrentEvidence(s)) <==>
      exists e :: e in s.know.evidence && e.evidenceId == id && IsCurrent(s, e)
  {
    CurrentAmongMeaning(s, |s.know.evidence|);
    assert s.know.evidence[..|s.know.evidence|] == s.know.evidence;
  }

  lemma {:induction false} IncompleteGoalsIff(goals: seq<SubGoal>, id: GoalId)
    ensures id in IncompleteGoals(goals) <==> exists g :: g in goals && g.status != Converged && g.goalId == id
  {
    if goals != [] {
      IncompleteGoalsIff(goals[..|goals| - 1], id);
      assert goals == goals[..|goals| - 1] + [goals[|goals| - 1]];
    }
  }

  lemma {:induction false} PendingTasksIff(agenda: seq<AgendaTask>, id: TaskId)
    ensures id in PendingTasks(agenda) <==>
      exists t :: t in agenda && (t.status == Pending || t.status == InProgress) && t.taskId == id
  {
    if agenda != [] {
      PendingTasksIff(agenda[..|agenda| - 1], id);
      assert agenda == agenda[..|agenda| - 1] + [agenda[|agenda| - 1]];
    }
  }

  // ---------------------------------------------------------------- acceptance, on the run and the text

  /** The record with this id is of this dataset and schema, and nothing supersedes it. */
  ghost predicate Current(s: State, e: EvidenceRecord) {
    && e in s.know.evidence
    && e.lineage.datasetSha == s.dataset && (s.profile.Some? ==> e.lineage.schema == s.profile.value.schema)
    && (forall r :: r in s.know.relations && r.kind == Supersedes ==> r.target != e.evidenceId)
  }

  ghost predicate CurrentId(s: State, id: EvidenceId) {
    exists e :: Current(s, e) && e.evidenceId == id
  }

  /** The token is stated by a number of the readable result of a current record cited on the line. */
  ghost predicate Backed(s: State, readable: set<EvidenceId>, line: Line, t: Token) {
    exists e, x :: Backs(s, readable, line, e, x) && States(t, x)
  }

  ghost predicate Backs(s: State, readable: set<EvidenceId>, line: Line, e: EvidenceRecord, x: real) {
    Current(s, e) && e.evidenceId in line.citations && e.evidenceId in readable && IsLeaf(e.result, x)
  }

  ghost predicate StandsOn(lines: seq<Line>, n: nat) {
    Content(lines, n, Conclusions) || Content(lines, n, GoalEvidence)
  }

  /** Citations: only of current records, some if there is any, and on every content line. */
  ghost predicate CitesWell(s: State, lines: seq<Line>) {
    && (forall n, id :: 0 <= n < |lines| && id in lines[n].citations ==> CurrentId(s, id))
    && ((exists id :: CurrentId(s, id)) ==> exists n :: 0 <= n < |lines| && lines[n].citations != [])
    && (forall n: nat :: StandsOn(lines, n) ==> lines[n].citations != [])
  }

  ghost predicate LimitsDisclosed(s: State, lines: seq<Line>) {
    && (forall g :: g in s.know.goals && g.status != Converged ==>
          exists n: nat :: LimitLine(lines, n) && g.goalId in lines[n].goals)
    && (forall t :: t in s.know.agenda && (t.status == Pending || t.status == InProgress) ==>
          exists n: nat :: LimitLine(lines, n) && t.taskId in lines[n].tasks)
    && (forall a, b :: PairDisclosed(s, lines, a, b))
  }

  ghost predicate PairDisclosed(s: State, lines: seq<Line>, a: EvidenceId, b: EvidenceId) {
    UnresolvedPair(s.know.relations, {a, b}) ==> Discloses(lines, a) && Discloses(lines, b)
  }

  ghost predicate Written(lines: seq<Line>, sec: Section) {
    exists n: nat :: Belongs(lines, n, sec) && !lines[n].blank
  }

  /** Everything the deterministic checks ask of a draft. */
  ghost predicate Presentable(s: State, readable: set<EvidenceId>, lines: seq<Line>) {
    && (forall sec: Section :: Written(lines, sec))
    && CitesWell(s, lines)
    && (forall n: nat, t :: StandsOn(lines, n) && t in lines[n].numbers ==> Backed(s, readable, lines[n], t))
    && (s.terminal.stopCode.Some? ==> SingleStop(lines, |lines|, s.terminal.stopCode))
    && LimitsDisclosed(s, lines)
  }

  lemma CurrentIff(s: State, e: EvidenceRecord)
    ensures IsCurrent(s, e) <==> Current(s, e)
  {
  }

  lemma AllowedIff(s: State, id: EvidenceId)
    ensures id in EvidenceIds(CurrentEvidence(s)) <==> CurrentId(s, id)
  {
    CurrentIds(s, id);
    forall e ensures IsCurrent(s, e) <==> Current(s, e) {
      CurrentIff(s, e);
    }
  }

  /** With distinct ids, the numbers a cited record offers are the leaves of its readable result. */
  lemma OffersIff(s: State, readable: set<EvidenceId>, ctx: Context, e: EvidenceRecord, x: real)
    requires ContextFor(s, readable, ctx) && DistinctEvidence(s.know.evidence) && Current(s, e)
    ensures Offers(ctx, e.evidenceId, x) <==> e.evidenceId in readable && IsLeaf(e.result, x)
  {
    AllowedIff(s, e.evidenceId);
    var current := CurrentEvidence(s);
    CurrentAmongMeaning(s, |s.know.evidence|);
    RecordOfIsKnown(current, e.evidenceId);
    var f := RecordOf(current, e.evidenceId).value;
    var i :| 0 <= i < |s.know.evidence| && s.know.evidence[i] == e;
    var j :| 0 <= j < |s.know.evidence| && s.know.evidence[j] == f;
    assert i == j;
    assert SupportOf(f, readable, ctx.support.value[e.evidenceId]);
  }

  lemma SupportedIff(s: State, readable: set<EvidenceId>, ctx: Context, line: Line, t: Token)
    requires ContextFor(s, readable, ctx) && DistinctEvidence(s.know.evidence)
    ensures Supported(ctx, line, t) <==> Backed(s, readable, line, t)
  {
    if Supported(ctx, line, t) {
      var id, x :| id in line.citations && id in Known(ctx) && Citable(ctx, id) && Offers(ctx, id, x) && States(t, x);
      AllowedIff(s, id);
      var e :| Current(s, e) && e.evidenceId == id;
      OffersIff(s, readable, ctx, e, x);
      assert Backs(s, readable, line, e, x);
    }
    if e, x :| Backs(s, readable, line, e, x) && States(t, x) {
      AllowedIff(s, e.evidenceId);
      OffersIff(s, readable, ctx, e, x);
    }
  }

  lemma CitedCurrentIff(s: State, readable: set<EvidenceId>, ctx: Context, lines: seq<Line>, id: EvidenceId)
    requires ContextFor(s, readable, ctx)
    ensures Citable(ctx, id) <==> CurrentId(s, id)
    ensures (Cited(lines, id) ==> CurrentId(s, id)) <==>
      && !Faulty(lines, ctx, UnknownCitation(id)) && !Faulty(lines, ctx, SupersededCitation(id))
      && !Faulty(lines, ctx, InapplicableCitation(id))
    ensures Cited(lines, id) <==> exists n :: 0 <= n < |lines| && id in lines[n].citations
  {
    AllowedIff(s, id);
    AllCitationsIff(lines, |lines|, id);
  }

  lemma SomeCitationIff(s: State, readable: set<EvidenceId>, ctx: Context, lines: seq<Line>)
    requires ContextFor(s, readable, ctx)
    ensures ((exists id :: CurrentId(s, id)) ==> exists n :: 0 <= n < |lines| && lines[n].citations != [])
      <==> !Faulty(lines, ctx, NoCitation)
  {
    forall id ensures Citable(ctx, id) <==> CurrentId(s, id) {
      CitedCurrentIff(s, readable, ctx, lines, id);
    }
    if AllCitations(lines, |lines|) != [] {
      AllCitationsIff(lines, |lines|, AllCitations(lines, |lines|)[0]);
    }
    if n :| 0 <= n < |lines| && lines[n].citations != [] {
      AllCitationsIff(lines, |lines|, lines[n].citations[0]);
    }
  }

  ghost predicate NoBadCitation(lines: seq<Line>, ctx: Context, id: EvidenceId) {
    && !Faulty(lines, ctx, UnknownCitation(id)) && !Faulty(lines, ctx, SupersededCitation(id))
    && !Faulty(lines, ctx, InapplicableCitation(id))
  }

  lemma BadCitationsIff(s: State, readable: set<EvidenceId>, ctx: Context, lines: seq<Line>)
    requires ContextFor(s, readable, ctx)
    ensures (forall n, id :: 0 <= n < |lines| && id in lines[n].citations ==> CurrentId(s, id)) <==>
      forall id :: NoBadCitation(lines, ctx, id)
  {
    forall id
      ensures (Cited(lines, id) ==> CurrentId(s, id)) <==> NoBadCitation(lines, ctx, id)
      ensures Cited(lines, id) <==> exists n :: 0 <= n < |lines| && id in lines[n].citations
    {
      CitedCurrentIff(s, readable, ctx, lines, id);
    }
  }

  lemma UncitedIff(ctx: Context, lines: seq<Line>)
    ensures (forall n: nat :: StandsOn(lines, n) ==> lines[n].citations != []) <==>
      forall sec, n :: !Faulty(lines, ctx, Uncited(sec, n))
  {
    if forall sec, n :: !Faulty(lines, ctx, Uncited(sec, n)) {
      forall n: nat | StandsOn(lines, n) ensures lines[n].citations != [] {
        assert !Faulty(lines, ctx, Uncited(Conclusions, n)) && !Faulty(lines, ctx, Uncited(GoalEvidence, n));
      }
    }
    if forall n: nat :: StandsOn(lines, n) ==> lines[n].citations != [] {
      forall sec, n ensures !Faulty(lines, ctx, Uncited(sec, n)) {
        assert Content(lines, n, sec) ==> StandsOn(lines, n);
      }
    }
  }

  ghost predicate NoCitationFault(lines: seq<Line>, ctx: Context) {
    && (forall id :: NoBadCitation(lines, ctx, id))
    && !Faulty(lines, ctx, NoCitation)
    && (forall sec, n :: !Faulty(lines, ctx, Uncited(sec, n)))
  }

  lemma CitesWellIff(s: State, readable: set<EvidenceId>, ctx: Context, lines: seq<Line>)
    requires ContextFor(s, readable, ctx)
    ensures CitesWell(s, lines) <==> NoCitationFault(lines, ctx)
  {
    BadCitationsIff(s, readable, ctx, lines);
    SomeCitationIff(s, readable, ctx, lines);
    UncitedIff(ctx, lines);
  }

  ghost predicate NoLimitFault(lines: seq<Line>, ctx: Context) {
    && (forall g :: !Faulty(lines, ctx, HiddenGoal(g))) && (forall t :: !Faulty(lines, ctx, HiddenTask(t)))
    && (forall a, b :: !Faulty(lines, ctx, HiddenConflict(a, b)))
  }

  lemma LimitsIff(s: State, readable: set<EvidenceId>, ctx: Context, lines: seq<Line>)
    requires ContextFor(s, readable, ctx)
    ensures LimitsDisclosed(s, lines) <==> NoLimitFault(lines, ctx)
  {
    HiddenGoalsIff(s, readable, ctx, lines);
    HiddenTasksIff(s, readable, ctx, lines);
    HiddenConflictsIff(s, readable, ctx, lines);
  }

  lemma HiddenGoalsIff(s: State, readable: set<EvidenceId>, ctx: Context, lines: seq<Line>)
    requires ContextFor(s, readable, ctx)
    ensures (forall g :: !Faulty(lines, ctx, HiddenGoal(g))) <==>
      forall g :: g in s.know.goals && g.status != Converged ==>
        exists n: nat :: LimitLine(lines, n) && g.goalId in lines[n].goals
  {
    forall id
      ensures id in ctx.incomplete <==> exists g :: g in s.know.goals && g.status != Converged && g.goalId == id
    {
      IncompleteGoalsIff(s.know.goals, id);
    }
    if forall g :: !Faulty(lines, ctx, HiddenGoal(g)) {
      forall g | g in s.know.goals && g.status != Converged
        ensures exists n: nat :: LimitLine(lines, n) && g.goalId in lines[n].goals
      {
        assert !Faulty(lines, ctx, HiddenGoal(g.goalId));
      }
    }
  }

  lemma HiddenTasksIff(s: State, readable: set<EvidenceId>, ctx: Context, lines: seq<Line>)
    requires ContextFor(s, readable, ctx)
    ensures (forall t :: !Faulty(lines, ctx, HiddenTask(t))) <==>
      forall t :: t in s.know.agenda && (t.status == Pending || t.status == InProgress) ==>
        exists n: nat :: LimitLine(lines, n) && t.taskId in lines[n].tasks
  {
    forall id
      ensures id in ctx.pending <==>
        exists t :: t in s.know.agenda && (t.status == Pending || t.status == InProgress) && t.taskId == id
    {
      PendingTasksIff(s.know.agenda, id);
    }
    if forall t :: !Faulty(lines, ctx, HiddenTask(t)) {
      forall t | t in s.know.agenda && (t.status == Pending || t.status == InProgress)
        ensures exists n: nat :: LimitLine(lines, n) && t.taskId in lines[n].tasks
      {
        assert !Faulty(lines, ctx, HiddenTask(t.taskId));
      }
    }
  }

  lemma DisclosedPair(s: State, readable: set<EvidenceId>, ctx: Context, lines: seq<Line>, a: EvidenceId,
                      b: EvidenceId)
    requires ContextFor(s, readable, ctx) && UnresolvedPair(s.know.relations, {a, b})
    requires forall x, y :: !Faulty(lines, ctx, HiddenConflict(x, y))
    ensures Discloses(lines, a) && Discloses(lines, b)
  {
    UnresolvedPairIsListed(s.know.relations, a, b);
    var p := SortedPair(a, b);
    assert (p.0, p.1) in ctx.unresolved;
    assert !Faulty(lines, ctx, HiddenConflict(p.0, p.1));
  }

  lemma ListedPairIsOpen(s: State, readable: set<EvidenceId>, ctx: Context, a: EvidenceId, b: EvidenceId)
    requires ContextFor(s, readable, ctx) && (a, b) in ctx.unresolved
    ensures UnresolvedPair(s.know.relations, {a, b})
  {
    UnresolvedAmongSound(s.know.relations, |s.know.relations|);
    assert PairSet((a, b)) == {a, b};
  }

  lemma PairIsNotHidden(s: State, readable: set<EvidenceId>, ctx: Context, lines: seq<Line>, a: EvidenceId,
                        b: EvidenceId)
    requires ContextFor(s, readable, ctx) && PairDisclosed(s, lines, a, b)
    ensures !Faulty(lines, ctx, HiddenConflict(a, b))
  {
    if (a, b) in ctx.unresolved {
      ListedPairIsOpen(s, readable, ctx, a, b);
    }
  }

  lemma HiddenConflictsIff(s: State, readable: set<EvidenceId>, ctx: Context, lines: seq<Line>)
    requires ContextFor(s, readable, ctx)
    ensures (forall a, b :: !Faulty(lines, ctx, HiddenConflict(a, b))) <==> forall a, b :: PairDisclosed(s, lines, a, b)
  {
    if forall a, b :: !Faulty(lines, ctx, HiddenConflict(a, b)) {
      forall a, b ensures PairDisclosed(s, lines, a, b) {
        if UnresolvedPair(s.know.relations, {a, b}) {
          DisclosedPair(s, readable, ctx, lines, a, b);
        }
      }
    }
    if forall a, b :: PairDisclosed(s, lines, a, b) {
      forall a, b ensures !Faulty(lines, ctx, HiddenConflict(a, b)) {
        PairIsNotHidden(s, readable, ctx, lines, a, b);
      }
    }
  }

  lemma NumbersIff(s: State, readable: set<EvidenceId>, ctx: Context, lines: seq<Line>)
    requires ContextFor(s, readable, ctx) && DistinctEvidence(s.know.evidence)
    requires forall n: nat :: StandsOn(lines, n) ==> lines[n].citations != []
    ensures (forall n, t :: !Faulty(lines, ctx, Unsupported(n, t))) <==>
      forall n: nat, t :: StandsOn(lines, n) && t in lines[n].numbers ==> Backed(s, readable, lines[n], t)
  {
    forall n: nat, t | n < |lines| ensures Supported(ctx, lines[n], t) <==> Backed(s, readable, lines[n], t) {
      SupportedIff(s, readable, ctx, lines[n], t);
    }
    if forall n, t :: !Faulty(lines, ctx, Unsupported(n, t)) {
      forall n: nat, t | StandsOn(lines, n) && t in lines[n].numbers ensures Backed(s, readable, lines[n], t) {
        assert !Faulty(lines, ctx, Unsupported(n, t));
      }
    }
  }

  lemma SectionsIff(ctx: Context, lines: seq<Line>)
    ensures (forall sec :: !Faulty(lines, ctx, EmptySection(sec))) <==> forall sec: Section :: Written(lines, sec)
  {
    forall sec ensures Faulty(lines, ctx, EmptySection(sec)) <==> !Written(lines, sec) {
    }
  }

  lemma RefusalsIff(s: State, readable: set<EvidenceId>, ctx: Context, lines: seq<Line>)
    requires ContextFor(s, readable, ctx)
    ensures (forall f :: !Refuses(lines, ctx, f)) <==>
      && (forall sec :: !Faulty(lines, ctx, EmptySection(sec)))
      && NoCitationFault(lines, ctx)
      && (forall n, t :: !Faulty(lines, ctx, Unsupported(n, t)))
      && !Faulty(lines, ctx, WrongStopMarker)
      && NoLimitFault(lines, ctx)
  {
    forall f ensures Refuses(lines, ctx, f) <==> Faulty(lines, ctx, f) {
    }
    FaultKinds(ctx, lines);
  }

  lemma FaultKinds(ctx: Context, lines: seq<Line>)
    ensures (forall f :: !Faulty(lines, ctx, f)) <==>
      && (forall sec :: !Faulty(lines, ctx, EmptySection(sec)))
      && NoCitationFault(lines, ctx)
      && (forall n, t :: !Faulty(lines, ctx, Unsupported(n, t)))
      && !Faulty(lines, ctx, WrongStopMarker)
      && NoLimitFault(lines, ctx)
  {
    if && (forall sec :: !Faulty(lines, ctx, EmptySection(sec)))
       && NoCitationFault(lines, ctx)
       && (forall n, t :: !Faulty(lines, ctx, Unsupported(n, t)))
       && !Faulty(lines, ctx, WrongStopMarker)
       && NoLimitFault(lines, ctx)
    {
      forall f ensures !Faulty(lines, ctx, f) {
        FaultKind(ctx, lines, f);
      }
    }
  }

  lemma FaultKind(ctx: Context, lines: seq<Line>, f: Fault)
    requires NoCitationFault(lines, ctx) && NoLimitFault(lines, ctx) && !Faulty(lines, ctx, WrongStopMarker)
    requires forall sec :: !Faulty(lines, ctx, EmptySection(sec))
    requires forall n, t :: !Faulty(lines, ctx, Unsupported(n, t))
    ensures !Faulty(lines, ctx, f)
  {
    match f
    case UnknownCitation(id) => assert NoBadCitation(lines, ctx, id);
    case SupersededCitation(id) => assert NoBadCitation(lines, ctx, id);
    case InapplicableCitation(id) => assert NoBadCitation(lines, ctx, id);
    case _ =>
  }

  /** For a run whose records have distinct ids, the deterministic checks refuse nothing exactly when the draft is
      presentable. */
  lemma PresentableIff(s: State, readable: set<EvidenceId>, ctx: Context, lines: seq<Line>)
    requires ContextFor(s, readable, ctx) && DistinctEvidence(s.know.evidence)
    ensures (forall f :: !Refuses(lines, ctx, f)) <==> Presentable(s, readable, lines)
  {
    RefusalsIff(s, readable, ctx, lines);
    SectionsIff(ctx, lines);
    CitesWellIff(s, readable, ctx, lines);
    LimitsIff(s, readable, ctx, lines);
    SingleStopIff(lines, |lines|, s.terminal.stopCode);
    if CitesWell(s, lines) {
      NumbersIff(s, readable, ctx, lines);
    }
  }

  /** A critic is there, time was left, and it is not the critic's own outage that stopped the run. */
  ghost predicate MayDraft(s: State, critic: bool) {
    && critic && s.terminal.stopCode != Some(BudgetExhausted)
    && !(&& s.terminal.stopCode == Some(ServiceUnavailable)
         && (|| s.cycle.serviceFailure == Some(ServiceFailure(CriticRole, Some(ProviderUnavailable)))
             || s.cycle.serviceFailure == Some(ServiceFailure(CriticRole, Some(Configuration)))))
  }

  lemma CitedIdsIff(lines: seq<Line>, id: EvidenceId)
    ensures id in CitedIds(lines) <==> exists n :: 0 <= n < |lines| && id in lines[n].citations
  {
    AllCitationsIff(lines, |lines|, id);
  }

  ghost predicate AllRead(lines: seq<Line>, readable: set<EvidenceId>) {
    forall n, id :: 0 <= n < |lines| && id in lines[n].citations ==> id in readable
  }

  lemma AllReadIff(s: State, readable: set<EvidenceId>, lines: seq<Line>)
    requires CitesWell(s, lines)
    ensures CitedIds(lines) <= ReadResults(s, readable) <==> AllRead(lines, readable)
  {
    forall id
      ensures id in CitedIds(lines) <==> exists n :: 0 <= n < |lines| && id in lines[n].citations
      ensures id in EvidenceIds(CurrentEvidence(s)) <==> CurrentId(s, id)
    {
      CitedIdsIff(lines, id);
      AllowedIff(s, id);
    }
    if CitedIds(lines) <= ReadResults(s, readable) {
      forall n, id | 0 <= n < |lines| && id in lines[n].citations ensures id in readable {
        assert id in CitedIds(lines);
      }
    }
    if AllRead(lines, readable) {
      forall id | id in CitedIds(lines) ensures id in ReadResults(s, readable) {
        var n :| 0 <= n < |lines| && id in lines[n].citations;
        assert CurrentId(s, id);
      }
    }
  }

  /** The whole gate: what an adopted draft satisfies, and nothing more is asked. */
  ghost predicate Adoptable(s: State, readable: set<EvidenceId>, critic: bool, draft: Option<Report>,
                            reviewService: bool, answer: Option<SemanticReview>)
  {
    && MayDraft(s, critic) && draft.Some? && draft.value.text != ""
    && Presentable(s, readable, draft.value.lines) && AllRead(draft.value.lines, readable)
    && reviewService && answer.Some? && answer.value.verdict == Accept
    && ReviewStands(answer.value, draft.value.text, CitedIds(draft.value.lines))
  }

  lemma AdoptableIff(s: State, readable: set<EvidenceId>, ctx: Context, critic: bool, draft: Option<Report>,
                     reviewService: bool, answer: Option<SemanticReview>)
    requires ContextFor(s, readable, ctx) && DistinctEvidence(s.know.evidence)
    ensures Adoptable(s, readable, critic, draft, reviewService, answer) <==>
      && CanGenerate(s, critic) && draft.Some? && draft.value.text != ""
      && (forall f :: !Refuses(draft.value.lines, ctx, f))
      && Reviewed(draft.value, ReadResults(s, readable), reviewService, answer)
  {
    if draft.Some? {
      PresentableIff(s, readable, ctx, draft.value.lines);
      if Presentable(s, readable, draft.value.lines) {
        AllReadIff(s, readable, draft.value.lines);
      }
      if answer.Some? {
        ReviewCoversEachOnce(answer.value, draft.value.text, CitedIds(draft.value.lines));
      }
    }
  }

  /** `write_report`: the adopted draft, or `None` for the structured fallback. */
  method WriteReport(s: State, readable: set<EvidenceId>, critic: bool, draft: Option<Report>, reviewService: bool,
                     answer: Option<SemanticReview>)
    returns (adopted: Option<Report>, ghost ctx: Context)
    ensures ContextFor(s, readable, ctx)
    ensures adopted.Some? ==> adopted == draft
    ensures adopted.Some? <==>
      && CanGenerate(s, critic) && draft.Some? && draft.value.text != ""
      && (forall f :: !Refuses(draft.value.lines, ctx, f))
      && Reviewed(draft.value, ReadResults(s, readable), reviewService, answer)
    ensures DistinctEvidence(s.know.evidence) ==>
      (adopted.Some? <==> Adoptable(s, readable, critic, draft, reviewService, answer))
  {
    var current := CurrentEvidence(s);
    var support := NumericSupport(current, readable);
    var unresolved := ListUnresolvedContradictions(s.know.relations);
    var context := Context(s.know.evidence, s.know.relations, Some(EvidenceIds(current)), Some(support),
      s.terminal.stopCode,
                           IncompleteGoals(s.know.goals), PendingTasks(s.know.agenda), unresolved);
    ctx := context;
    if DistinctEvidence(s.know.evidence) {
      AdoptableIff(s, readable, ctx, critic, draft, reviewService, answer);
    }
    if !CanGenerate(s, critic) || draft.None? || draft.value.text == "" {
      return None, ctx;
    }
    var report := draft.value;
    var passed, _, _ := ValidateReport(report.lines, context);
    if !passed {
      return None, ctx;
    }
    var cited := CitedIds(report.lines);
    if !(cited <= ReadResults(s, readable)) || !reviewService || answer.None? {
      return None, ctx;
    }
    var valid := ValidateSemanticReview(answer.value, report.text, cited);
    if !valid || answer.value.verdict != Accept {
      return None, ctx;
    }
    return Some(report), ctx;
  }

  // ---------------------------------------------------------------- what adoption guarantees

  /** For a finished run the gate adopts exactly the adoptable drafts, and those carry one stop marker, naming its
      stop code. */
  lemma AdoptedReportIsSound(dataset: int, maxIterations: nat, answers: seq<Answer>, c: Config,
                             readable: set<EvidenceId>, critic: bool, draft: Option<Report>, reviewService: bool,
                             answer: Option<SemanticReview>, ctx: Context)
    requires Reaches(dataset, maxIterations, answers, c) && c.node == Finalize && ContextFor(c.s, readable, ctx)
    ensures Adoptable(c.s, readable, critic, draft, reviewService, answer) <==>
      && CanGenerate(c.s, critic) && draft.Some? && draft.value.text != ""
      && (forall f :: !Refuses(draft.value.lines, ctx, f))
      && Reviewed(draft.value, ReadResults(c.s, readable), reviewService, answer)
    ensures Adoptable(c.s, readable, critic, draft, reviewService, answer) ==>
      SingleStop(draft.value.lines, |draft.value.lines|, c.s.terminal.stopCode)
  {
    StopCodesAreSound(dataset, maxIterations, answers, c);
    ReachesKnowledge(dataset, maxIterations, answers, c);
    AdoptableIff(c.s, readable, ctx, critic, draft, reviewService, answer);
  }
}
