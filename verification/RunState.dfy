/** The checkpointed state of a run and the read-only questions asked of it.

    The flat state record is grouped by who changes it: knowledge accumulates, cycle fields belong to
    one research intent, control fields steer the loop, and the terminal group is written together. */
module RunState {
  import opened Contracts

  datatype Profile = Profile(schema: int, columns: set<Column>)

  datatype Knowledge = Knowledge(
    goals: seq<SubGoal>,
    agenda: seq<AgendaTask>,
    evidence: seq<EvidenceRecord>,
    relations: seq<EvidenceRelation>,
    rejected: seq<RejectedAttempt>,
    issues: seq<LoopIssue>,
    coverage: Coverage)

  /** The raw review a cycle stores: a placeholder, or a review bound to its result. */
  datatype StoredReview = Unreviewed | Reviewed(review: CriticReview)

  datatype ServiceRole = PlannerRole | CodegenRole | CriticRole
  datatype ServiceFailure = ServiceFailure(role: ServiceRole, kind: Option<FailureKind>)

  datatype Cycle = Cycle(
    program: Option<int>,
    manifest: Option<Manifest>,
    candidate: Option<Json>,
    figures: seq<int>,
    errors: seq<ErrorCode>,
    warnings: seq<ErrorCode>,
    staticRepairs: nat,
    runtimeRepairs: nat,
    streak: Streak,
    review: Option<StoredReview>,
    serviceFailure: Option<ServiceFailure>)

  datatype Terminal = Terminal(status: RunStatus, stopCode: Option<StopCode>) {
    predicate Stopped() { status != Running }
  }

  datatype LookupKey = LookupKey(goalId: Option<GoalId>, columns: set<Column>, parents: set<EvidenceId>)

  datatype State = State(
    dataset: int,
    profile: Option<Profile>,
    know: Knowledge,
    intent: Option<Intent>,
    plannerError: bool,
    cycle: Cycle,
    inspections: seq<set<Column>>,
    lookups: seq<LookupKey>,
    delta: Option<Delta>,
    iteration: nat,
    maxIterations: nat,
    goalExpansions: nat,
    terminal: Terminal)

  /** What an execution subgraph hands back: every result field, and the suffixes it appended. */
  datatype Delta = Delta(
    program: Option<int>,
    manifest: Option<Manifest>,
    candidate: Option<Json>,
    figures: seq<int>,
    errors: seq<ErrorCode>,
    warnings: seq<ErrorCode>,
    staticRepairs: nat,
    runtimeRepairs: nat,
    streak: Streak,
    review: Option<StoredReview>,
    status: RunStatus,
    stopCode: Option<StopCode>,
    serviceFailure: Option<ServiceFailure>,
    intent: Option<Intent>,
    agenda: seq<AgendaTask>,
    goals: seq<SubGoal>,
    coverage: Coverage,
    evidence: Option<seq<EvidenceRecord>>,
    relations: Option<seq<EvidenceRelation>>,
    rejected: Option<seq<RejectedAttempt>>,
    issues: Option<seq<LoopIssue>>)

  const FRESH_CYCLE := Cycle(None, None, None, [], [], [], 0, 0, NO_STREAK, None, None)

  const EMPTY_KNOWLEDGE := Knowledge([], [], [], [], [], [], Coverage(map[], []))

  /** `new_state`; the source refuses a non-positive iteration budget. */
  function NewState(dataset: int, maxIterations: nat): State {
    State(dataset, None, EMPTY_KNOWLEDGE, None, false, FRESH_CYCLE, [], [], None, 0, maxIterations, 0,
          Terminal(Running, None))
  }

  // ---------------------------------------------------------------- evidence

  function EvidenceIds(evidence: seq<EvidenceRecord>): set<EvidenceId> {
    set e | e in evidence :: e.evidenceId
  }

  function GoalIds(goals: seq<SubGoal>): set<GoalId> {
    set g | g in goals :: g.goalId
  }

  predicate Superseded(relations: seq<EvidenceRelation>, e: EvidenceId) {
    exists r | r in relations :: r.kind == Supersedes && r.target == e
  }

  datatype Applicability = ExactSnapshot | RevalidationRequired | IncompatibleSchema | UnknownApplicability

  /** `evidence_data_applicability`; the dataset reference is always present in a run. */
  function DataApplicability(s: State, e: EvidenceRecord): Applicability {
    if s.profile.Some? && e.lineage.schema != s.profile.value.schema then IncompatibleSchema
    else if e.lineage.datasetSha == s.dataset then ExactSnapshot
    else if s.profile.Some? then RevalidationRequired
    else UnknownApplicability
  }

  predicate IsCurrent(s: State, e: EvidenceRecord) {
    && e in s.know.evidence
    && !Superseded(s.know.relations, e.evidenceId)
    && DataApplicability(s, e) == ExactSnapshot
  }

  // ---------------------------------------------------------------- goals and agenda

  predicate AllGoalsClosed(goals: seq<SubGoal>) {
    goals != [] && forall g | g in goals :: !g.IsOpen()
  }

  predicate HasLiveTask(agenda: seq<AgendaTask>) {
    exists t | t in agenda :: t.Live()
  }

  // ---------------------------------------------------------------- contradictions

  /** A pair of evidence ids is resolved once one side is superseded, or one record reconciles both. */
  ghost predicate ResolvedPair(relations: seq<EvidenceRelation>, pair: set<EvidenceId>) {
    || (exists x :: x in pair && Superseded(relations, x))
    || (exists s :: ReconciledBy(relations, s, pair))
  }

  ghost predicate ReconciledBy(relations: seq<EvidenceRelation>, s: EvidenceId, pair: set<EvidenceId>) {
    && (exists r :: r in relations && r.kind == Reconciles && r.source == s)
    && forall x :: x in pair ==> Relation(s, x, Reconciles) in relations
  }

  ghost predicate Contradicted(relations: seq<EvidenceRelation>, pair: set<EvidenceId>) {
    exists r :: r in relations && r.kind == Contradicts && {r.source, r.target} == pair
  }

  ghost predicate UnresolvedPair(relations: seq<EvidenceRelation>, pair: set<EvidenceId>) {
    Contradicted(relations, pair) && !ResolvedPair(relations, pair)
  }

  function SortedPair(a: EvidenceId, b: EvidenceId): (EvidenceId, EvidenceId) {
    if a <= b then (a, b) else (b, a)
  }

  function PairSet(p: (EvidenceId, EvidenceId)): set<EvidenceId> {
    {p.0, p.1}
  }

  /** Unresolved pairs in the order their first contradiction was recorded, among the first `n` relations. */
  ghost function UnresolvedAmong(relations: seq<EvidenceRelation>, n: nat): seq<(EvidenceId, EvidenceId)>
    requires n <= |relations|
  {
    if n == 0 then []
    else
      var found := UnresolvedAmong(relations, n - 1);
      var r := relations[n - 1];
      var pair := SortedPair(r.source, r.target);
      if r.kind == Contradicts && !ResolvedPair(relations, {r.source, r.target}) && pair !in found
      then found + [pair]
      else found
  }

  ghost function UnresolvedContradictions(relations: seq<EvidenceRelation>): seq<(EvidenceId, EvidenceId)> {
    UnresolvedAmong(relations, |relations|)
  }

  ghost predicate DistinctPairs(ps: seq<(EvidenceId, EvidenceId)>) {
    && (forall i :: 0 <= i < |ps| ==> ps[i].0 <= ps[i].1)
    && (forall i, j :: 0 <= i < j < |ps| ==> ps[i] != ps[j])
  }

  lemma {:induction false} UnresolvedAmongSound(relations: seq<EvidenceRelation>, n: nat)
    requires n <= |relations|
    ensures DistinctPairs(UnresolvedAmong(relations, n))
    ensures forall p :: p in UnresolvedAmong(relations, n) ==> UnresolvedPair(relations, PairSet(p))
  {
    if n > 0 {
      UnresolvedAmongSound(relations, n - 1);
      var r := relations[n - 1];
      var pair := SortedPair(r.source, r.target);
      assert PairSet(pair) == {r.source, r.target};
      assert r in relations;
    }
  }

  lemma {:induction false} UnresolvedAmongComplete(relations: seq<EvidenceRelation>, n: nat, i: nat)
    requires i < n <= |relations| && relations[i].kind == Contradicts
    requires !ResolvedPair(relations, {relations[i].source, relations[i].target})
    ensures SortedPair(relations[i].source, relations[i].target) in UnresolvedAmong(relations, n)
  {
    if i < n - 1 {
      UnresolvedAmongComplete(relations, n - 1, i);
    }
  }

  /** The listing is exactly the unresolved pairs, each once. */
  lemma UnresolvedContradictionsMeaning(relations: seq<EvidenceRelation>)
    ensures DistinctPairs(UnresolvedContradictions(relations))
    ensures forall p :: p in UnresolvedContradictions(relations) ==> UnresolvedPair(relations, PairSet(p))
    ensures forall a, b :: UnresolvedPair(relations, {a, b}) ==> SortedPair(a, b) in UnresolvedContradictions(relations)
  {
    UnresolvedAmongSound(relations, |relations|);
    forall a, b | UnresolvedPair(relations, {a, b})
      ensures SortedPair(a, b) in UnresolvedContradictions(relations)
    {
      UnresolvedPairIsListed(relations, a, b);
    }
  }

  lemma SamePair(a: EvidenceId, b: EvidenceId, c: EvidenceId, d: EvidenceId)
    requires {a, b} == {c, d}
    ensures SortedPair(a, b) == SortedPair(c, d)
  {
    assert a in {c, d} && b in {c, d} && c in {a, b} && d in {a, b};
  }

  lemma UnresolvedPairIsListed(relations: seq<EvidenceRelation>, a: EvidenceId, b: EvidenceId)
    requires UnresolvedPair(relations, {a, b})
    ensures SortedPair(a, b) in UnresolvedContradictions(relations)
  {
    var r :| r in relations && r.kind == Contradicts && {r.source, r.target} == {a, b};
    SamePair(r.source, r.target, a, b);
    var i :| 0 <= i < |relations| && relations[i] == r;
    UnresolvedAmongComplete(relations, |relations|, i);
  }

  /** `unresolved_contradictions`: index the superseded ids and the reconciled targets of every source,
      then scan the contradictions once. */
  method ListUnresolvedContradictions(relations: seq<EvidenceRelation>)
    returns (unresolved: seq<(EvidenceId, EvidenceId)>)
    ensures unresolved == UnresolvedContradictions(relations)
  {
    var superseded: set<EvidenceId> := {};
    var reconciles: map<EvidenceId, set<EvidenceId>> := map[];
    for k := 0 to |relations|
      invariant forall x :: x in superseded <==>
        exists r :: r in relations[..k] && r.kind == Supersedes && r.target == x
      invariant forall s :: s in reconciles <==>
        exists r :: r in relations[..k] && r.kind == Reconciles && r.source == s
      invariant forall s, x :: s in reconciles ==>
        (x in reconciles[s] <==> Relation(s, x, Reconciles) in relations[..k])
    {
      var r := relations[k];
      assert relations[..k + 1] == relations[..k] + [r];
      if r.kind == Supersedes {
        superseded := superseded + {r.target};
      }
      if r.kind == Reconciles {
        var targets := if r.source in reconciles then reconciles[r.source] else {};
        reconciles := reconciles[r.source := targets + {r.target}];
        assert r == Relation(r.source, r.target, Reconciles);
      }
    }
    assert relations[..|relations|] == relations;
    unresolved := [];
    for k := 0 to |relations|
      invariant unresolved == UnresolvedAmong(relations, k)
    {
      var r := relations[k];
      if r.kind == Contradicts {
        var pair := {r.source, r.target};
        var reconciled := exists s | s in reconciles :: pair <= reconciles[s];
        assert reconciled <==> exists s :: ReconciledBy(relations, s, pair) by {
          if reconciled {
            var s :| s in reconciles && pair <= reconciles[s];
            assert ReconciledBy(relations, s, pair);
          }
          if s :| ReconciledBy(relations, s, pair) {
            assert s in reconciles && pair <= reconciles[s];
          }
        }
        assert (pair * superseded != {}) <==> exists x :: x in pair && Superseded(relations, x) by {
          if x :| x in pair && Superseded(relations, x) {
            assert x in pair * superseded;
          }
        }
        if pair * superseded == {} && !reconciled && SortedPair(r.source, r.target) !in unresolved {
          unresolved := unresolved + [SortedPair(r.source, r.target)];
        }
      }
    }
  }

  /** Relations only accumulate, so a resolved pair stays resolved. */
  lemma ResolvedPairPersists(relations: seq<EvidenceRelation>, more: seq<EvidenceRelation>, pair: set<EvidenceId>)
    requires ResolvedPair(relations, pair)
    requires forall r :: r in relations ==> r in more
    ensures ResolvedPair(more, pair)
  {
    if s :| ReconciledBy(relations, s, pair) {
      assert ReconciledBy(more, s, pair);
    } else {
      var x :| x in pair && Superseded(relations, x);
      var r :| r in relations && r.kind == Supersedes && r.target == x;
      assert r in more;
      assert Superseded(more, x);
    }
  }
}
