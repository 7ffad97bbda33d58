/** The one assertion a run can trip: evidence reuse for an intent that names no goal is accepted by the
    policy and then refused by the node that carries it out. */
module GoallessReuse {
  import opened Contracts
  import opened RunState
  import opened Numeric
  import opened GoalNumbering
  import opened IntentPolicy
  import opened ReviewEvidence
  import opened ReviewAgenda
  import opened KnowledgeInvariant
  import opened Planning
  import opened Progress
  import opened Execution
  import opened MainGraph
  import opened MainInvariant

  /** Everything the policy asks of a reuse intent without a goal. */
  ghost predicate Admissible(s: State, intent: Intent) {
    && s.profile.Some? && ColumnsKnown(intent, s.profile.value.columns)
    && (forall p :: p in intent.parents ==> p in EvidenceIds(s.know.evidence))
    && (forall id :: id in intent.reuse ==> !Superseded(s.know.relations, id) && !IsStale(s, id))
    && DedupeKey(intent) !in s.know.coverage.testedKeys
  }

  lemma ParentsCoverReuse(intent: Intent, known: set<EvidenceId>)
    requires forall e :: e in intent.reuse ==> e in intent.parents
    ensures ToSet(intent.parents) + ToSet(intent.reuse) <= known <==> forall p :: p in intent.parents ==> p in known
  {
    if ToSet(intent.parents) + ToSet(intent.reuse) <= known {
      forall p | p in intent.parents ensures p in known {
        assert p in ToSet(intent.parents) + ToSet(intent.reuse);
      }
    }
    if forall p :: p in intent.parents ==> p in known {
      forall x | x in ToSet(intent.parents) + ToSet(intent.reuse) ensures x in known {
        assert x in intent.parents || x in intent.reuse;
      }
    }
  }

  /** The policy never looks at the missing goal: such an intent is accepted exactly when it is admissible. */
  lemma GoallessAcceptedIff(s: State, intent: Intent, goals: seq<SubGoal>, judged: bool)
    requires s.profile.Some? && ValidIntent(intent) && intent.mode == ReuseEvidence && intent.goalId.None?
    ensures RejectedIntent(s, s.profile.value, intent, goals, judged).None? <==> Admissible(s, intent)
  {
    ParentsCoverReuse(intent, EvidenceIds(s.know.evidence));
    assert ReuseError(s, intent).None?
      <==> (forall id :: id in intent.reuse ==> !Superseded(s.know.relations, id) && !IsStale(s, id));
  }

  /** Once accepted, the next node raises. */
  lemma GoallessReuseRaises(c: Config, a: Answer, b: Answer)
    requires MainInv(c) && c.node == Plan && StepOk(c, a)
    requires a.planner.Proposal? && a.planner.intent.Some?
    requires a.planner.intent.value.mode == ReuseEvidence && a.planner.intent.value.goalId.None?
    requires Admissible(c.s, a.planner.intent.value)
    ensures MainStep(c, a).node == ReuseNode
    ensures StepOk(MainStep(c, a), b) && MainStep(MainStep(c, a), b).node == Crashed
  {
    var s, v := c.s, a.planner.verdict;
    BaseIsLoadable(s);
    GoallessAcceptedIff(s, a.planner.intent.value, ApplyVerdict(s, v), VerdictNoted(s.know.goals, v));
    StepKeeps(c, a);
    StepKeeps(MainStep(c, a), b);
  }

  // ---------------------------------------------------------------- a run that reaches it

  const PROFILE := Profile(1, {"x"})
  const COMPUTE_INTENT := Intent(1, "q", "h", "", Some(1), Explore, [], None, Compute, [], "", [], [], [])
  const REUSE_INTENT := Intent(2, "r", "h", "", None, Explore, [10], None, ReuseEvidence, [10], "", [], [], [])
  const VERDICT := GoalVerdict({}, {}, false)
  const REVIEW := CriticReview(Accept, "c", [], [], [], [], [], [], [], map[], map[])
  const MANIFEST := Manifest("m", 0, [], 0)
  const EXEC_ANSWER := ExecAnswer(None, Generated(7, MANIFEST), [], [], Produced(Null, []), ReviewGiven(REVIEW), 10, [])

  function Repeated(n: nat): (r: seq<ExecAnswer>)
    ensures |r| == n
  {
    if n == 0 then [] else [EXEC_ANSWER] + Repeated(n - 1)
  }

  function AnswerWith(intent: Intent): Answer {
    Answer(PROFILE, [Item("q")], Proposal(Some(intent), VERDICT, false, None), Repeated(9), Clock(false, false), [],
      NoExpander)
  }

  const GOAL := SubGoal(1, "q", Open, [])
  const PLANNED := NewState(1, 2).(profile := Some(PROFILE), know := EMPTY_KNOWLEDGE.(goals := [GOAL]))
  const RUNNING := PLANNED.(intent := Some(COMPUTE_INTENT), iteration := 1)
  const RECORD := EvidenceRecord(10, 1, "q", "c", Null, 7, [], "m", 0, Lineage(1, 1, 0),
                                 [], [], map[], map[], [], [], Explore, Some(1), [])
  const COMMITTED_KNOWLEDGE := Knowledge([GOAL.(evidenceIds := [10])], [], [RECORD], [], [], [],
                                         Coverage(map[], [DedupeKey(COMPUTE_INTENT)]))
  const COMMITTED_CYCLE := FRESH_CYCLE.(program := Some(7), manifest := Some(MANIFEST), candidate := Some(Null),
                                        review := Some(Reviewed(REVIEW)))
  const COMMITTED := RUNNING.(intent := None, know := COMMITTED_KNOWLEDGE, cycle := COMMITTED_CYCLE)

  lemma OneLetter()
    ensures Strip("q") == "q" && Strip("c") == "c" && Strip("r") == "r"
    ensures !Blank("q") && !Blank("c") && !Blank("r")
  {
    assert LStrip("q") == "q" && RStrip("q") == "q";
    assert LStrip("c") == "c" && RStrip("c") == "c";
    assert LStrip("r") == "r" && RStrip("r") == "r";
  }

  lemma OpeningSteps()
    ensures var a := AnswerWith(COMPUTE_INTENT);
      && StepOk(Start(1, 2), a)
      && StepOk(MainStep(Start(1, 2), a), a)
      && MainStep(MainStep(Start(1, 2), a), a) == Config(Plan, PLANNED, 0, 0)
  {
    OneLetter();
    var raw := [Item("q")];
    assert Numbered(raw, 0, 1) == Numbered(raw, 0, 0) + [GOAL];
    assert ParseGoals(raw, 0) == [GOAL];
  }

  lemma PlanStep()
    ensures var a := AnswerWith(COMPUTE_INTENT);
      StepOk(Config(Plan, PLANNED, 0, 0), a)
        && MainStep(Config(Plan, PLANNED, 0, 0), a) == Config(ExecutionNode, RUNNING, 0, 0)
  {
    OneLetter();
    var goals := ApplyVerdict(PLANNED, VERDICT);
    assert goals == [GOAL];
    assert GOAL in PLANNED.know.goals;
    assert 1 in OpenGoalIds(PLANNED.know.goals);
    assert ReferenceError(COMPUTE_INTENT, PROFILE, PLANNED.know.goals, EvidenceIds([])).None?;
    assert RejectedIntent(PLANNED, PROFILE, COMPUTE_INTENT, goals, VerdictNoted(PLANNED.know.goals, VERDICT)).None?;
  }

  lemma CommitStep()
    ensures Bind(REVIEW, Null) == Some(REVIEW)
    ensures Commit(PLANNED.know, COMPUTE_INTENT, REVIEW, RECORD, []) == COMMITTED_KNOWLEDGE
  {
    assert ReadEffects([], Null) == [] && ReadUncertainty(map[], Null) == map[];
    var k := PLANNED.know;
    assert RelationTargets(k, COMPUTE_INTENT, REVIEW, RECORD) == [];
    assert RelationsAfterCommit(k, COMPUTE_INTENT, REVIEW, RECORD) == [];
    assert LinkEvidence(k.goals, Some(1), 10)[0] == GOAL.(evidenceIds := [10]);
    assert LinkEvidence(k.goals, Some(1), 10) == [GOAL.(evidenceIds := [10])];
    assert Candidates(COMPUTE_INTENT, REVIEW, RECORD, []) == [];
    assert AgendaAfterCommit(k, COMPUTE_INTENT, REVIEW, RECORD, []) == [];
  }

  // The nine nodes of the first attempt.

  function Cycled(cycle: Cycle): State {
    RUNNING.(cycle := cycle)
  }

  const GENERATED := FRESH_CYCLE.(program := Some(7), manifest := Some(MANIFEST))
  const PRODUCED := GENERATED.(candidate := Some(Null))
  const ENTRY := Lengths(0, 0, 0, 0)

  ghost predicate Leads(c: ExecConfig, n: nat) {
    ExecRunOk(c, Repeated(n)) && ExecRun(c, Repeated(n)) == Exported(ExportDelta(COMMITTED, ENTRY))
  }

  lemma Back(c: ExecConfig, d: ExecConfig, n: nat)
    requires c.At? && ExecAnswerOk(c, EXEC_ANSWER) && ExecStep(c, EXEC_ANSWER) == d && Leads(d, n)
    ensures Leads(c, n + 1)
  {
    assert Repeated(n + 1)[0] == EXEC_ANSWER && Repeated(n + 1)[1..] == Repeated(n);
  }

  const REVIEWED := PRODUCED.(review := Some(Reviewed(REVIEW)))

  lemma ReviewIsStored()
    ensures StoreReview(REVIEW, MANIFEST, EvidenceIds([]), Null) == Reviewed(REVIEW)
  {
    OneLetter();
    CommitStep();
  }

  lemma CritiqueStep()
    ensures ExecStep(At(CritiqueNode, Cycled(PRODUCED), ENTRY), EXEC_ANSWER) == At(CommitNode, Cycled(REVIEWED), ENTRY)
  {
    OneLetter();
    ReviewIsStored();
  }

  lemma ReviewedIsCommittable()
    ensures Committable(Cycled(REVIEWED))
    ensures BuildEvidence(Cycled(REVIEWED), COMPUTE_INTENT, REVIEW, 10) == RECORD
  {
    OneLetter();
    CommitStep();
  }

  lemma CommitNodeStep()
    ensures Committable(Cycled(REVIEWED))
    ensures ExecAnswerOk(At(CommitNode, Cycled(REVIEWED), ENTRY), EXEC_ANSWER)
    ensures ExecStep(At(CommitNode, Cycled(REVIEWED), ENTRY), EXEC_ANSWER) == At(ExportNode, COMMITTED, ENTRY)
  {
    CommitStep();
    ReviewedIsCommittable();
    assert CommitEvidence(Cycled(REVIEWED), EXEC_ANSWER) == Next(COMMITTED);
  }

  lemma ExportStep()
    ensures ExecStep(At(ExportNode, COMMITTED, ENTRY), EXEC_ANSWER) == Exported(ExportDelta(COMMITTED, ENTRY))
  {
  }

  lemma LastSteps()
    ensures Leads(At(CritiqueNode, Cycled(PRODUCED), ENTRY), 3)
  {
    CritiqueStep();
    CommitNodeStep();
    ExportStep();
    var done := Exported(ExportDelta(COMMITTED, ENTRY));
    assert Leads(done, 0);
    Back(At(ExportNode, COMMITTED, ENTRY), done, 0);
    Back(At(CommitNode, Cycled(REVIEWED), ENTRY), At(ExportNode, COMMITTED, ENTRY), 1);
    Back(At(CritiqueNode, Cycled(PRODUCED), ENTRY), At(CommitNode, Cycled(REVIEWED), ENTRY), 2);
  }

  lemma CheckSteps()
    ensures ExecStep(At(ValidateResultNode, Cycled(PRODUCED), ENTRY), EXEC_ANSWER)
      == At(CritiqueNode, Cycled(PRODUCED), ENTRY)
    ensures ExecStep(At(ExecuteNode, Cycled(GENERATED), ENTRY), EXEC_ANSWER)
      == At(ValidateResultNode, Cycled(PRODUCED), ENTRY)
    ensures ExecStep(At(ValidateCodeNode, Cycled(GENERATED), ENTRY), EXEC_ANSWER)
      == At(ExecuteNode, Cycled(GENERATED), ENTRY)
  {
  }

  lemma GenerateSteps()
    ensures ExecStep(At(GenerateNode, RUNNING, ENTRY), EXEC_ANSWER) == At(ValidateCodeNode, Cycled(GENERATED), ENTRY)
    ensures ExecStep(At(LookupNode, RUNNING, ENTRY), EXEC_ANSWER) == At(GenerateNode, RUNNING, ENTRY)
    ensures ExecStep(ExecStart(RUNNING), EXEC_ANSWER) == At(LookupNode, RUNNING, ENTRY)
  {
  }

  lemma MiddleSteps()
    ensures Leads(At(ValidateCodeNode, Cycled(GENERATED), ENTRY), 6)
  {
    LastSteps();
    CheckSteps();
    Back(At(ValidateResultNode, Cycled(PRODUCED), ENTRY), At(CritiqueNode, Cycled(PRODUCED), ENTRY), 3);
    Back(At(ExecuteNode, Cycled(GENERATED), ENTRY), At(ValidateResultNode, Cycled(PRODUCED), ENTRY), 4);
    Back(At(ValidateCodeNode, Cycled(GENERATED), ENTRY), At(ExecuteNode, Cycled(GENERATED), ENTRY), 5);
  }

  lemma FirstSteps()
    ensures Leads(ExecStart(RUNNING), 9)
  {
    MiddleSteps();
    GenerateSteps();
    Back(At(GenerateNode, RUNNING, ENTRY), At(ValidateCodeNode, Cycled(GENERATED), ENTRY), 6);
    Back(At(LookupNode, RUNNING, ENTRY), At(GenerateNode, RUNNING, ENTRY), 7);
    Back(ExecStart(RUNNING), At(LookupNode, RUNNING, ENTRY), 8);
  }

  const DELIVERED := RUNNING.(delta := Some(ExportDelta(COMMITTED, ENTRY)))

  lemma Delivers(c: Config, a: Answer, delta: Delta)
    requires c.node == ExecutionNode && ExecRunOk(ExecStart(c.s), a.execution)
    requires ExecRun(ExecStart(c.s), a.execution) == Exported(delta)
    ensures StepOk(c, a) && MainStep(c, a) == c.(node := ApplyNode, s := c.s.(delta := Some(delta)))
  {
  }

  lemma ExecutionSteps()
    ensures var a, c := AnswerWith(COMPUTE_INTENT), Config(ExecutionNode, RUNNING, 0, 0);
      StepOk(c, a) && MainStep(c, a) == Config(ApplyNode, DELIVERED, 0, 0)
  {
    FirstSteps();
    Delivers(Config(ExecutionNode, RUNNING, 0, 0), AnswerWith(COMPUTE_INTENT), ExportDelta(COMMITTED, ENTRY));
  }

  lemma ApplyStep()
    ensures var a, c := AnswerWith(COMPUTE_INTENT), Config(ApplyNode, DELIVERED, 0, 0);
      StepOk(c, a) && MainStep(c, a) == Config(Assess, COMMITTED, 0, 0)
  {
    assert ApplyDelta(DELIVERED) == COMMITTED;
  }

  lemma AssessStep()
    ensures var a, c := AnswerWith(COMPUTE_INTENT), Config(Assess, COMMITTED, 0, 0);
      StepOk(c, a) && MainStep(c, a) == Config(Plan, COMMITTED, 0, 0)
  {
    assert UnresolvedContradictions([]) == [];
    assert MissingPairs(COMMITTED.know) == [];
    assert COMMITTED.know.goals[0] in COMMITTED.know.goals;
  }

  lemma ReuseIsAdmissible()
    ensures Admissible(COMMITTED, REUSE_INTENT) && ValidIntent(REUSE_INTENT) && !Blank(REUSE_INTENT.question)
  {
    OneLetter();
    assert RECORD in COMMITTED.know.evidence;
    assert 10 in EvidenceIds(COMMITTED.know.evidence);
    assert DedupeKey(REUSE_INTENT).mode != DedupeKey(COMPUTE_INTENT).mode;
  }

  lemma ReuseStep()
    requires MainInv(Config(Plan, COMMITTED, 0, 0))
    ensures var a, c := AnswerWith(REUSE_INTENT), Config(Plan, COMMITTED, 0, 0);
      && StepOk(c, a) && StepOk(MainStep(c, a), a) && MainStep(MainStep(c, a), a).node == Crashed
  {
    ReuseIsAdmissible();
    GoallessReuseRaises(Config(Plan, COMMITTED, 0, 0), AnswerWith(REUSE_INTENT), AnswerWith(REUSE_INTENT));
  }

  // The whole run.

  lemma {:induction false} StepThen(c: Config, a: Answer, rest: seq<Answer>)
    requires StepOk(c, a) && RunOk(MainStep(c, a), rest)
    ensures RunOk(c, [a] + rest) && Run(c, [a] + rest) == Run(MainStep(c, a), rest)
  {
    assert ([a] + rest)[1..] == rest;
  }

  lemma SecondRound()
    ensures var a, b := AnswerWith(COMPUTE_INTENT), AnswerWith(REUSE_INTENT);
      exists c: Config :: c.node == Crashed && Tail(Config(Assess, COMMITTED, 0, 0), [a, b, b], c)
  {
    var a, b := AnswerWith(COMPUTE_INTENT), AnswerWith(REUSE_INTENT);
    AssessStep();
    PlanAgainIsGood(a);
    ReuseStep();
    var c5 := Config(Plan, COMMITTED, 0, 0);
    var c6 := MainStep(c5, b);
    StepThen(c6, b, []);
    StepThen(c5, b, [b]);
    StepThen(Config(Assess, COMMITTED, 0, 0), a, [b, b]);
    assert [b] + [] == [b] && [b] + [b] == [b, b] && [a] + [b, b] == [a, b, b];
    assert Tail(Config(Assess, COMMITTED, 0, 0), [a, b, b], MainStep(c6, b));
  }

  ghost predicate Tail(c: Config, answers: seq<Answer>, d: Config) {
    RunOk(c, answers) && Run(c, answers) == d
  }

  lemma TailGrows(c: Config, a: Answer, rest: seq<Answer>, d: Config)
    requires StepOk(c, a) && Tail(MainStep(c, a), rest, d)
    ensures Tail(c, [a] + rest, d)
  {
    StepThen(c, a, rest);
  }

  lemma FirstRound(a: Answer, rest: seq<Answer>, d: Config)
    requires a == AnswerWith(COMPUTE_INTENT) && Tail(Config(Assess, COMMITTED, 0, 0), rest, d)
    ensures Tail(Config(Plan, PLANNED, 0, 0), [a] + ([a] + ([a] + rest)), d)
  {
    ApplyStep();
    TailGrows(Config(ApplyNode, DELIVERED, 0, 0), a, rest, d);
    ExecutionSteps();
    TailGrows(Config(ExecutionNode, RUNNING, 0, 0), a, [a] + rest, d);
    PlanStep();
    TailGrows(Config(Plan, PLANNED, 0, 0), a, [a] + ([a] + rest), d);
  }

  lemma Opening(a: Answer, rest: seq<Answer>, d: Config)
    requires a == AnswerWith(COMPUTE_INTENT) && Tail(Config(Plan, PLANNED, 0, 0), rest, d)
    ensures Tail(Start(1, 2), [a] + ([a] + rest), d)
  {
    OpeningSteps();
    TailGrows(MainStep(Start(1, 2), a), a, rest, d);
    TailGrows(Start(1, 2), a, [a] + rest, d);
  }

  /** One committed analysis, then a reuse of its record without a goal: a run of eight nodes that raises. */
  lemma GoallessReuseIsReachable()
    ensures exists answers, c :: Reaches(1, 2, answers, c) && c.node == Crashed
  {
    var a := AnswerWith(COMPUTE_INTENT);
    SecondRound();
    var rest := [a, AnswerWith(REUSE_INTENT), AnswerWith(REUSE_INTENT)];
    var d: Config :| d.node == Crashed && Tail(Config(Assess, COMMITTED, 0, 0), rest, d);
    FirstRound(a, rest, d);
    Opening(a, [a] + ([a] + ([a] + rest)), d);
    assert Reaches(1, 2, [a] + ([a] + ([a] + ([a] + ([a] + rest)))), d);
  }

  lemma PlanAgainIsGood(a: Answer)
    requires a == AnswerWith(COMPUTE_INTENT)
    ensures MainInv(Config(Plan, COMMITTED, 0, 0))
  {
    var c0 := Start(1, 2);
    OpeningSteps();
    StepKeeps(c0, a);
    StepKeeps(MainStep(c0, a), a);
    PlanStep();
    StepKeeps(Config(Plan, PLANNED, 0, 0), a);
    ExecutionSteps();
    StepKeeps(Config(ExecutionNode, RUNNING, 0, 0), a);
    ApplyStep();
    StepKeeps(Config(ApplyNode, DELIVERED, 0, 0), a);
    AssessStep();
    StepKeeps(Config(Assess, COMMITTED, 0, 0), a);
  }
}
