/** Where the evidence of a run comes from: every stored record was earned by one attempt of that run. */
module RunPedigree {
  import opened Contracts
  import opened RunState
  import opened Planning
  import opened Execution
  import opened ExecutionProofs
  import opened MainGraph
  import opened MainInvariant
  import opened RunTermination

  /** During the attempt run by this step, node `j - 1` committed `e`, after four nodes that validated its
      program, ran it, checked its result and accepted it. */
  ghost predicate EarnsAt(c: Config, a: Answer, e: EvidenceRecord, j: nat) {
    && c.node == ExecutionNode && StepOk(c, a)
    && 6 <= j <= |a.execution|
    && var t := ExecTrace(ExecStart(c.s), a.execution);
       && t[j].At? && t[j].s.know.evidence == c.s.know.evidence + [e]
       && Pedigree(t, a.execution, j - 1) && RecordOfAttempt(e, t[j - 1].s, a.execution[j - 1].evidenceId)
  }

  ghost predicate Earns(c: Config, a: Answer, e: EvidenceRecord) {
    exists j :: EarnsAt(c, a, e, j)
  }

  ghost predicate EarnedDuring(c: Config, answers: seq<Answer>, e: EvidenceRecord)
    requires RunOk(c, answers)
    decreases |answers|
  {
    answers != [] && (Earns(c, answers[0], e) || EarnedDuring(MainStep(c, answers[0]), answers[1..], e))
  }

  /** The record is stored, or delivered and about to be. */
  ghost predicate Holds(c: Config, e: EvidenceRecord) {
    e in c.s.know.evidence || (c.node == ApplyNode && e in ApplyDelta(c.s).know.evidence)
  }

  /** An attempt that gained a record committed it. */
  lemma AttemptEarns(p: State, c: ExecConfig, answers: seq<ExecAnswer>, e: EvidenceRecord) returns (j: nat)
    requires ExecReady(p) && c == ExecStart(p) && ExecInv(p, c) && IsAt(c, EntryNode)
    requires ExecRunOk(c, answers) && ExecRun(c, answers).Exported?
    requires e !in p.know.evidence
    requires e in ApplyDelta(p.(delta := Some(ExecRun(c, answers).delta))).know.evidence
    ensures 6 <= j <= |answers| && ExecTrace(c, answers)[j].At?
    ensures ExecTrace(c, answers)[j].s.know.evidence == p.know.evidence + [e]
    ensures Pedigree(ExecTrace(c, answers), answers, j - 1)
    ensures RecordOfAttempt(e, ExecTrace(c, answers)[j - 1].s, answers[j - 1].evidenceId)
  {
    DeltaOfRunIsInline(p, c, answers);
    j := |answers| - 1;
    var f := EvidenceHasPedigree(c, answers, j);
  }

  lemma ExecutionEarns(c: Config, a: Answer, e: EvidenceRecord)
    requires MainInv(c) && c.node == ExecutionNode && StepOk(c, a)
    requires Holds(MainStep(c, a), e) && !Holds(c, e)
    ensures Earns(c, a, e)
  {
    var p := c.s;
    EntrySatisfies(p);
    ExecRunKeeps(p, ExecStart(p), a.execution);
    var j := AttemptEarns(p, ExecStart(p), a.execution, e);
    assert EarnsAt(c, a, e, j);
  }

  lemma PlanKeepsEvidence(s: State, a: PlannerAnswer)
    requires PlanIntent(s, a).Next?
    ensures PlanIntent(s, a).state.know.evidence == s.know.evidence
  {
  }

  lemma OtherKeepsEvidence(c: Config, a: Answer)
    requires StepOk(c, a) && c.node != ExecutionNode && c.node != ApplyNode && c.node != Plan
    ensures MainStep(c, a).s.know.evidence == c.s.know.evidence && MainStep(c, a).node != ApplyNode
  {
  }

  lemma StepEarns(c: Config, a: Answer, e: EvidenceRecord)
    requires MainInv(c) && StepOk(c, a) && Holds(MainStep(c, a), e) && !Holds(c, e)
    ensures Earns(c, a, e)
  {
    if c.node == ExecutionNode {
      ExecutionEarns(c, a, e);
    } else if c.node == Plan {
      if PlanIntent(c.s, a.planner).Next? {
        PlanKeepsEvidence(c.s, a.planner);
      }
      assert false;
    } else if c.node != ApplyNode {
      OtherKeepsEvidence(c, a);
      assert false;
    }
  }

  lemma {:induction false} RunEarns(c: Config, answers: seq<Answer>, e: EvidenceRecord)
    requires MainInv(c) && RunOk(c, answers) && Holds(Run(c, answers), e) && !Holds(c, e)
    ensures EarnedDuring(c, answers, e)
    decreases |answers|
  {
    var d := MainStep(c, answers[0]);
    StepKeeps(c, answers[0]);
    if Holds(d, e) {
      StepEarns(c, answers[0], e);
    } else {
      RunEarns(d, answers[1..], e);
    }
  }

  /** In every reachable state each record has the validating, running, checking and accepting steps of one
      attempt of the same run behind it; no other node adds evidence. */
  lemma EveryRecordWasEarned(dataset: int, maxIterations: nat, answers: seq<Answer>, c: Config, e: EvidenceRecord)
    requires Reaches(dataset, maxIterations, answers, c) && e in c.s.know.evidence
    ensures EarnedDuring(Start(dataset, maxIterations), answers, e)
  {
    StartIsGood(dataset, maxIterations);
    RunEarns(Start(dataset, maxIterations), answers, e);
  }
}
