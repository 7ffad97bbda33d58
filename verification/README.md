# Verification model of the analysis loop

The repository runs a data analysis as a checkpointed state machine. A planner proposes research
intents; code for an intent is generated, validated, run and reviewed in an execution subgraph; accepted
results become evidence, with relations between records, an agenda of follow-up tasks, sub-goals and
coverage kept beside them; an assessment after every round decides whether to go on, to expand the goals
or to stop. This project models that machine in Dafny and proves what holds over every run of it. Three
further parts of the repository are modelled on their own: the exactly-once worker protocol, the shared
memory document, and the gate that adopts a final report.

## How the model is laid out

| file | content |
|---|---|
| `Contracts.dfy`, `RunState.dfy` | values with their validators; the run state and the questions asked of it |
| `Numeric.dfy` | binding a critic's summary to the JSON result it was read from |
| `ReviewEvidence.dfy`, `ReviewAgenda.dfy` | what an accepted review does to relations, goals and agenda |
| `IntentPolicy.dfy`, `Planning.dfy`, `GoalNumbering.dfy`, `Progress.dfy` | planning, goal numbering, assessment and expansion |
| `Execution.dfy`, `ExecutionProofs.dfy` | the execution subgraph: nodes, routes, delta; its theorems |
| `KnowledgeInvariant.dfy`, `AgendaSteps.dfy` | the joint invariant of agenda, relations, evidence, coverage and references |
| `MainGraph.dfy`, `MainInvariant.dfy`, `RunHistory.dfy`, `RunTermination.dfy`, `RunTheorems.dfy`, `RunRecords.dfy`, `RunPedigree.dfy` | the main graph, its invariant, and the theorems over whole runs |
| `Assessment.dfy`, `IntentAcceptance.dfy`, `AttemptOutcomes.dfy` | what each decision of a run depends on and what it does, stated on fields: assessing and expanding, planning, attempts |
| `OrphanTasks.dfy`, `GoallessReuse.dfy` | two behaviours a maintainer should know about |
| `Audit.dfy` | the run audit as an independent reader |
| `Worker.dfy`, `Memory.dfy` | interleaved protocols: execution store and client, shared document |
| `ReportSections.dfy`, `ReportValidation.dfy`, `Reporting.dfy` | the report checks and the adoption gate |

A node is a function from a state and an answer of the environment to a new state, or to `Raised` where
the source raises; a run is a fold over a list of answers, so a statement about every run is a statement
about every list of answers. Planner, code generator, sandbox, critic and clock answer anything that
`StepOk` (`MainGraph.dfy`) and `ExecAnswerOk` (`Execution.dfy`) allow:

- the planner declares everything finished only when some goal was open, and proposes intents that satisfy
  their own validators and whose question is not blank (`src/analysis_loop_v3/llm/planner_service.py:262-290`);
  `RunTermination.EmptyGoalsWouldLoop` shows why the first half is needed;
- lint issues and result issues come from disjoint code sets, and a result holding NaN or an infinity never
  passes its checks (`src/analysis_loop_v3/validation/result_checks.py:34-53`);
- uuids are new; hashes are injective, so a digest is represented by what it digests.

Loops of the source are methods with invariants, each proved equal to a specification function or to a
declarative condition; the functions are what the theorems speak about. What a function decides is stated once
more on the fields it looks at, as an if-and-only-if that does not mention the function. `Reaches` means: reached from a new
state by some list of allowed answers.

Two promises do not hold as the source states or implies them, and are proved with their exact condition:
a run raises exactly when evidence is reused for an intent without a goal (`RunTheorems.RaisesIff`, reached
by the concrete run of `GoallessReuse.GoallessReuseIsReachable`), and the exactly-once
promise of the worker holds for an execution id exactly under policies that neither reclaim its directory as
stale nor sweep it (`Worker.ExactlyOnceIffRetained`); what is removed for other ids does not matter
(`Worker.ExactlyOnce`), and a single removal of either kind is always enough to allow a second run
(`Worker.OneRemovalSuffices`). Goal numbers can collide
because numbering counts skipped entries while expansion restarts from the number of goals;
`GoalNumbering.ExpansionFreshIff` and `GoalNumbering.CountBoundsNumbersIff` say exactly when they do not.

## Model

| member | source | states |
|---|---|---|
| RunTermination.RunsTerminate | src/analysis_loop_v3/orchestration/graph.py:69-81 | every run, without using the clock, executes at most 12·max_iterations + 20 nodes and never starts more iterations than its budget |
| RunTermination.RecursionLimitUnreached | src/analysis_loop_v3/orchestration/graph.py:26 | at the default 25 iterations a run takes at most 320 nodes, and up to 40 iterations it stays within the recursion limit of 500 |
| RunTermination.StepDecreases | src/analysis_loop_v3/orchestration/nodes/planner_decision.py:72-249 | every node strictly decreases a measure built from remaining iterations, expansions, planning rounds without an intent and open goals |
| RunTermination.EmptyGoalsWouldLoop | src/analysis_loop_v3/orchestration/nodes/planner_decision.py:83-99 | a planner that declares an empty goal list finished would bring the run back to an identical planning round |
| RunTermination.RunCanEnd | src/analysis_loop_v3/orchestration/graph.py:69-81 | from every reachable configuration some allowed answers complete the run within its bound, at the end unless it already reuses evidence for an intent without a goal, so the bounds are not about stuck runs |
| RunTheorems.StopCodesAreSound | src/analysis_loop_v3/orchestration/nodes/progress.py:40-103 | a stopped run satisfies what its stop code says: satisfied, data limited and expansion limit mean no live task, all goals closed and no unresolved contradiction; iteration limit means the budget is used |
| RunTheorems.GoalSatisfiedMeans | src/analysis_loop_v3/orchestration/nodes/progress.py:277-303 | a satisfied run has a goal, every task completed, no unresolved contradiction, and every goal converged at a planning step where current evidence answered it and none of its tasks was live |
| RunTheorems.RunConverges | src/analysis_loop_v3/orchestration/nodes/planner_decision.py:252-311 | in any stretch of a run, a goal that ends converged was closed by one planning step that met the convergence conditions |
| RunTheorems.AgendaCoversContradictions | src/analysis_loop_v3/orchestration/nodes/review_agenda.py:30-166 | in every reachable state each unresolved contradiction has a task, not completed, over exactly its two records, and a completed contradiction task means its pair is resolved |
| RunTheorems.RepairFiresIff | src/analysis_loop_v3/orchestration/nodes/progress.py:237-274 | with no live task, the repair finds a missing pair exactly when a contradiction task was closed as data limited while its pair is unresolved |
| RunTheorems.ReachableAuditsClean | src/analysis_loop_v3/audit.py:135-163 | every reachable state passes the auditor's reference conditions |
| RunTheorems.EvidenceIsStatedByItsResult | src/analysis_loop_v3/orchestration/nodes/review.py:153-172 | every stored record's effects and uncertainty are stated by its own finite result |
| RunTheorems.IterationsAreAccountedFor | src/analysis_loop_v3/orchestration/nodes/planning.py:286-294 | at every node the iteration count equals evidence, rejections, inspections, lookups, reuses and data-limited markings plus the pending intent; at an assessment an intent is pending only after a service outage; signatures are distinct and one per record; column usage counts the evidence |
| RunTheorems.AgendaIsWellKept | src/analysis_loop_v3/contract_models/evidence.py:143-176 | in every reachable state each task has a question, known sources fit for its kind and what its status calls for, ids are distinct, no two waiting tasks clash, and at most one task is in progress, for the stored intent |
| RunTheorems.NothingIsLost | src/analysis_loop_v3/state.py:26-28 | over any stretch of a run the append-only lists grow at the end, no task is lost or reordered, attempts never drop, completed is final, data limited can only become completed, closed goals keep their verdict |
| RunTheorems.RaisesIff | src/analysis_loop_v3/orchestration/nodes/planning.py:302-304 | from a reachable state a step raises if and only if it reuses evidence for an intent without a goal |
| GoallessReuse.GoallessAcceptedIff | src/analysis_loop_v3/orchestration/nodes/planner_decision.py:130-210 | the policy accepts a reuse intent without a goal exactly on conditions that never mention the goal |
| GoallessReuse.GoallessReuseRaises | src/analysis_loop_v3/orchestration/nodes/planning.py:297-304 | once such an intent is accepted the next node raises |
| GoallessReuse.GoallessReuseIsReachable | src/analysis_loop_v3/orchestration/nodes/planning.py:297-304 | a concrete run of one committed analysis and one goalless reuse reaches the failing assertion |
| OrphanTasks.OrphanTrap | src/analysis_loop_v3/orchestration/nodes/intent_policy.py:44-48 | as long as no later goal takes the number of its goal, a waiting task whose goal is closed waits for the rest of the run unless another record resolves its contradiction, and the run cannot stop satisfied, data limited or at the expansion limit |
| OrphanTasks.OrphanTrapOfDistinctGoals | src/analysis_loop_v3/validation/references.py:41-43 | the same for every run that ends with all goal numbers different |
| OrphanTasks.StepTrapsIff | src/analysis_loop_v3/orchestration/nodes/progress.py:230-234 | one step keeps such a task trapped exactly when it appends no goal carrying the number of the task's goal |
| OrphanTasks.TrappedIffNotReused | src/analysis_loop_v3/llm/planner_service.py:170 | over a whole stretch of a run at whose end no other record has resolved the task, it was trapped all the way exactly when no goal appended on the way carries the number of its goal |
| OrphanTasks.OrphansIffAbandons | src/analysis_loop_v3/orchestration/nodes/planner_decision.py:252-311 | a planning round orphans a waiting task of an open goal exactly when its verdict abandons the goal, does not also call it converged, and the goal was attempted, with or without an intent beside the verdict |
| OrphanTasks.VerdictClosesIff | src/analysis_loop_v3/orchestration/nodes/planner_decision.py:276-307 | while a task of an open goal is live, a verdict closes the goal exactly by abandoning it |
| MainInvariant.StepKeeps | src/analysis_loop_v3/orchestration/graph.py:39-82 | every node preserves the invariant of the main graph |
| MainInvariant.RunKeeps | src/analysis_loop_v3/orchestration/graph.py:39-82 | every configuration a run reaches satisfies the invariant of its node |
| Assessment.AssessStopsIff | src/analysis_loop_v3/orchestration/nodes/progress.py:35-103 | an assessment stops for the budget exactly if the time is up, or if nothing is left to do while rounds remain and the time is short; for the iteration limit exactly if the rounds are used in time; for the expansion limit exactly if nothing is left after five expansions; with time and rounds left and a task waiting the state stays as it is |
| Assessment.AssessRoutes | src/analysis_loop_v3/orchestration/routes.py:118-127 | after an assessment the run is finalized exactly if it stopped, expands its goals exactly if nothing is left to do and an expansion is allowed, and plans otherwise; what the assessment did to the state is stated by what it found |
| Assessment.RepairMeaning | src/analysis_loop_v3/orchestration/nodes/progress.py:237-274 | without live tasks the repair appends exactly one pending task of priority 100 per unresolved pair, over its two records in order, for the goal of the first that has one |
| Assessment.ExpandOutcomes | src/analysis_loop_v3/orchestration/nodes/progress.py:106-234 | an expansion ends satisfied, data limited or unavailable exactly under the stated answers, and otherwise appends the proposed goals that the remaining rounds allow and counts one expansion |
| Assessment.OpeningGoals | src/analysis_loop_v3/orchestration/nodes/planning.py:90-121 | a run opens with exactly the goals that the response to its objective proposes |
| IntentAcceptance.TaskAcceptedIff | src/analysis_loop_v3/orchestration/nodes/intent_policy.py:14-55 | an intent that names a task passes the agenda check exactly if the task waits, the purpose fits its kind, code is run or an attempt was made before it is given up, its goal is kept and its sources are parents |
| IntentAcceptance.AcceptedIff | src/analysis_loop_v3/orchestration/nodes/planner_decision.py:130-210 | an intent of any mode is accepted exactly if its columns and records exist, its goal is open and stays so, its task may be worked on so, its action is new, what it reuses is in force, and its analysis was not tested before |
| IntentAcceptance.VerdictMeaning | src/analysis_loop_v3/orchestration/nodes/planner_decision.py:252-311 | a verdict converges an open goal exactly if it names it, a record in force answers it and no task of it waits; it abandons an open goal exactly if it names only that and an attempt was made; nothing else changes |
| IntentAcceptance.RoundOutcome | src/analysis_loop_v3/orchestration/nodes/planner_decision.py:72-249 | a planning round takes up the intent exactly if it is accepted, ends exactly if the work is declared finished with every goal closed and nothing waiting, stops as unavailable exactly on an outage, and otherwise stalls, giving up at the fifth round in a row |
| IntentAcceptance.RoundInRun | src/analysis_loop_v3/orchestration/routes.py:29-52 | in a run the next node carries out the mode of the intent that was taken up, and no other round leaves an intent behind |
| IntentAcceptance.ActionEffects | src/analysis_loop_v3/orchestration/nodes/planning.py:339-376 | inspecting and looking up only append their key to the history; giving a task up closes that task alone, with the rationale or else the question as its reason |
| MainInvariant.ApplyYields | src/analysis_loop_v3/orchestration/graph.py:34-36 | applying the delivered delta yields the state in which the child graph ended |
| MainInvariant.AcceptedReferences | src/analysis_loop_v3/validation/references.py:14-43 | the records and columns an accepted intent names exist, and its goal is still open after the same answer's verdict |
| MainInvariant.NothingMissing | src/analysis_loop_v3/orchestration/nodes/progress.py:65-76 | without live tasks an empty repair list means no contradiction is unresolved |
| RunHistory.StepEvolves | src/analysis_loop_v3/state.py:26-101 | no single step loses or rewrites anything recorded |
| RunHistory.StepAccounts | src/analysis_loop_v3/orchestration/nodes/review.py:304-316 | every step spends exactly the iterations it accounts for |
| RunRecords.GoalsListTheirEvidence | src/analysis_loop_v3/orchestration/nodes/review_evidence.py:92-104 | in every reachable state each goal lists known records, none twice, and every record found for a goal is listed there |
| RunRecords.CommitLinks | src/analysis_loop_v3/orchestration/nodes/review_evidence.py:92-104 | a commit appends its new record to the lists of its goal, keeps every other goal as it was, and keeps the links sound |
| RunRecords.ReuseLinks | src/analysis_loop_v3/orchestration/nodes/planning.py:316-321 | linking reused records extends the goal's list by exactly those it lacked, drops and repeats none, and keeps every other goal as it was |
| RunRecords.ActionsNeverRepeat | src/analysis_loop_v3/orchestration/nodes/intent_policy.py:58-99 | no run inspects the same set of columns twice or repeats an evidence lookup |
| AttemptOutcomes.AttemptDecides | src/analysis_loop_v3/orchestration/routes.py:55-115 | in every attempt of a run each node is decided by the answer and the failures before it: code is generated again after fewer than five static failures and after the first failed run, and a commit follows exactly a usable accepting review |
| AttemptOutcomes.AttemptInRun | src/analysis_loop_v3/orchestration/graph.py:34-36 | once its delta is applied, an attempt of a run has either committed one record of its own, been rejected, or stopped the run on an outage, with the stated effect on every field |
| AttemptOutcomes.CountersCount | src/analysis_loop_v3/orchestration/nodes/program.py:50-110 | the repair counters of a cycle are the numbers of static and of running failures that its services reported |
| AttemptOutcomes.CycleHolds | src/analysis_loop_v3/orchestration/nodes/program.py:20-141 | at every node of an attempt the cycle holds the program found or generated last and the result produced last, and none where a later generation or run failed |
| AttemptOutcomes.StreakCounts | src/analysis_loop_v3/orchestration/nodes/_shared.py:34-49 | up to a rejection the error streak counts how often the last set of error codes was reported in a row |
| AttemptOutcomes.AttemptStops | src/analysis_loop_v3/orchestration/routes.py:61-70 | an attempt stops the run exactly on an outage of its generator or critic, as unavailable, and records which service failed and how |
| AttemptOutcomes.AttemptRejects | src/analysis_loop_v3/orchestration/nodes/review.py:269-354 | a rejection appends one record with its stage, hands the task back, and raises an issue exactly if the last set of error codes was reported five times in a row |
| AttemptOutcomes.AttemptCommits | src/analysis_loop_v3/orchestration/nodes/review.py:131-266 | a commit writes the record of its attempt field by field and changes goals, agenda, relations and coverage only as that record and its review say |
| AttemptOutcomes.CommitMeaning | src/analysis_loop_v3/orchestration/nodes/review.py:163-220 | what one commit does to goals, agenda, relations and coverage, each on its fields |
| KnowledgeInvariant.CommitKeepsKnowledge | src/analysis_loop_v3/orchestration/nodes/review.py:163-220 | committing a record keeps validity and deduplication of tasks, references, the cover of contradictions, coverage counts and provenance all at once, evolves every task and leaves none in progress |
| KnowledgeInvariant.CommitCovers | src/analysis_loop_v3/orchestration/nodes/review.py:193-204 | the agenda and the relations written by one commit still agree on every contradiction |
| KnowledgeInvariant.CompletionResolves | src/analysis_loop_v3/orchestration/nodes/review_agenda.py:30-37 | whenever a contradiction task completes, the relations of the same commit resolve its pair |
| KnowledgeInvariant.CommitSeparatesTasks | src/analysis_loop_v3/orchestration/nodes/review_agenda.py:92-166 | after a commit no two waiting tasks of one kind share a deduplication key and no two live contradiction tasks a source set |
| KnowledgeInvariant.CommitAudit | src/analysis_loop_v3/orchestration/nodes/review_evidence.py:28-69 | a commit introduces no broken reference |
| KnowledgeInvariant.CommitCoverage | src/analysis_loop_v3/orchestration/nodes/review.py:183-191 | usage counts and distinct signatures survive the recording of a new record |
| KnowledgeInvariant.EvolvedAgendaKeeps | src/analysis_loop_v3/orchestration/nodes/planning.py:260-273 | changing tasks in place within the lifecycle keeps the knowledge invariant |
| AgendaSteps.SelectKeepsKnowledge | src/analysis_loop_v3/orchestration/nodes/planning.py:260-273 | selecting the task of an accepted intent keeps the invariant and only evolves tasks |
| AgendaSteps.RejectKeepsKnowledge | src/analysis_loop_v3/orchestration/nodes/review.py:269-324 | a rejection keeps the invariant and leaves no task in progress |
| AgendaSteps.LimitKeepsKnowledge | src/analysis_loop_v3/orchestration/nodes/planning.py:339-376 | closing a task as data limited keeps every validator, although the copy skips them |
| AgendaSteps.MissingPairsMeaning | src/analysis_loop_v3/orchestration/nodes/progress.py:245-253 | the repair list holds unresolved pairs without a live task, each once |
| AgendaSteps.RepairKeepsKnowledge | src/analysis_loop_v3/orchestration/nodes/progress.py:255-274 | repairing the agenda from the relation graph keeps the invariant |
| ReviewAgenda.RunAgendaAfterCommit | src/analysis_loop_v3/orchestration/nodes/review_agenda.py:10-168 | the judging loop and three creation loops over growing key sets judge every stored task by its kind, create only tasks the review wants, none twice, and leave everything it wants waiting; the completed id is the selected task's exactly if this commit completes it |
| ReviewAgenda.AddTasksContents | src/analysis_loop_v3/orchestration/nodes/review_agenda.py:113-166 | creation only appends; nothing it appends repeats a waiting key; every requested task ends up waiting |
| ReviewAgenda.JudgeAgenda | src/analysis_loop_v3/orchestration/nodes/review_agenda.py:32-87 | a waiting task is completed exactly if it is a selected follow-up, a contradiction task with a superseded or with only reconciled sources, or a selected revalidation of records that were all revalidated under changed conditions; a selected task that is not completed is handed back with its reason; every other task is unchanged |
| ReviewAgenda.AgendaAfterCommitMeaning | src/analysis_loop_v3/orchestration/nodes/review_agenda.py:30-166 | the specified agenda judges every stored task and creates tasks as the two rows above say, for every agenda, intent and review |
| Contracts.NormalizedJoinsWords | src/analysis_loop_v3/orchestration/nodes/review_agenda.py:89-90 | the deduplication key of a question is its words in lower case joined by single blanks |
| Contracts.DedupeKeyIff | src/analysis_loop_v3/contract_models/planning.py:147-180 | two intents share a deduplication key exactly if they ask for the same analysis of the same goal, lists read as sets and ids ignored |
| ReviewEvidence.CreateRelations | src/analysis_loop_v3/orchestration/nodes/review_evidence.py:134-191 | the loop with its known-key set creates the specified relations |
| ReviewEvidence.RelationsAfterCommitContents | src/analysis_loop_v3/orchestration/nodes/review_evidence.py:134-191 | a commit keeps every relation and adds exactly those the intent and the review name, from the new record, never to itself, leaving out the revalidations that a selected task withdraws |
| ReviewEvidence.AllowedRevalidatesIff | src/analysis_loop_v3/orchestration/nodes/review_evidence.py:151-166 | a revalidation named by the review is recorded exactly if it is not a source of a selected revalidation task whose conditions did not change |
| ReviewEvidence.ConditionsChangedIff | src/analysis_loop_v3/orchestration/nodes/review_evidence.py:107-131 | conditions changed exactly if the record some source stands for differs in method, protocol, dataset or transform |
| ReviewEvidence.RevalidationChangedConditions | src/analysis_loop_v3/orchestration/nodes/review_evidence.py:107-131 | the computed set holds exactly the conditions some source differs in |
| RunState.ListUnresolvedContradictions | src/analysis_loop_v3/state.py:297-322 | the indexed scan computes the listing of unresolved pairs |
| RunState.UnresolvedContradictionsMeaning | src/analysis_loop_v3/state.py:297-322 | the listing is exactly the unresolved contradiction pairs, each once |
| RunState.ResolvedPairPersists | src/analysis_loop_v3/state.py:297-322 | since relations only accumulate, a resolved pair stays resolved |
| Contracts.WithRecord | src/analysis_loop_v3/contract_models/evidence.py:227-233 | every column gains exactly its multiplicity in the recorded list |
| Contracts.StripIsNotBlank | src/analysis_loop_v3/orchestration/nodes/planning.py:358 | a stripped non-empty reason passes the validator that strips it again |
| IntentPolicy.ReuseEvidenceError | src/analysis_loop_v3/orchestration/nodes/intent_policy.py:102-132 | the loop finds exactly the stale records among those to be reused |
| IntentPolicy.LiveTask | src/analysis_loop_v3/orchestration/nodes/planner_decision.py:156-159 | the lookup finds a live task with the id if there is one |
| Planning.GoalProgress | src/analysis_loop_v3/orchestration/nodes/planner_decision.py:41-69 | counting evidence and attempts per goal decides every goal as the verdict rule says, and notes whether an open goal was named |
| Planning.ApplyGoalVerdict | src/analysis_loop_v3/orchestration/nodes/planner_decision.py:252-311 | the loop over goals with its counts and blocked set applies the verdict rule |
| Planning.SelectAgendaTask | src/analysis_loop_v3/orchestration/nodes/planning.py:260-273 | the loop selects the named task and changes no other |
| Planning.LimitAgendaTask | src/analysis_loop_v3/orchestration/nodes/planning.py:348-365 | the loop closes the task, or raises exactly when the task is missing or was never attempted |
| Planning.LinkReusedEvidence | src/analysis_loop_v3/orchestration/nodes/planning.py:316-321 | the loop links the reused records to the goal, each once |
| GoalNumbering.ExtractGoals | src/analysis_loop_v3/llm/service_common.py:131-152 | the loop keeps and numbers the entries of a response as specified |
| GoalNumbering.ParsedGoalsIff | src/analysis_loop_v3/llm/service_common.py:131-152 | the goals of a response are exactly its entries that hold more than whitespace, stripped, open, numbered by position and in order |
| GoalNumbering.ExpansionFreshIff | src/analysis_loop_v3/llm/planner_service.py:170 | an expansion can never repeat a goal number exactly when no number exceeds the number of goals |
| GoalNumbering.CountBoundsNumbersIff | src/analysis_loop_v3/llm/service_common.py:138-146 | a response numbers its goals within their count exactly when no skipped entry stands before a kept one |
| Progress.RepairContradictionAgenda | src/analysis_loop_v3/orchestration/nodes/progress.py:237-274 | the repair returns nothing exactly when no pair is missing, and otherwise appends one task per missing pair |
| Execution.ReleaseAgendaTask | src/analysis_loop_v3/orchestration/nodes/review.py:279-293 | the loop hands back the selected task, and its flag says whether anything changed |
| ExecutionProofs.ExecutionLimits | src/analysis_loop_v3/orchestration/routes.py:55-115 | one intent runs at most 21 subgraph nodes, 6 code generations, 2 sandbox executions and 1 critique |
| ExecutionProofs.ExecutionEnds | src/analysis_loop_v3/orchestration/execution_graph.py:73-115 | after 21 answers an attempt has exported its delta |
| ExecutionProofs.ExecRunKeeps | src/analysis_loop_v3/orchestration/execution_graph.py:73-115 | whatever the services answer, no node of the subgraph raises and only the cycle changes before the attempt ends |
| ExecutionProofs.CommitKeeps | src/analysis_loop_v3/orchestration/nodes/review.py:141-161 | the assertions, reference check and binding repeated at commit always succeed |
| ExecutionProofs.StreakTestIsRedundant | src/analysis_loop_v3/orchestration/routes.py:61-80 | in every subgraph run the node after a failed generation or static check depends on the static repair count alone |
| ExecutionProofs.CommitPedigree | src/analysis_loop_v3/orchestration/execution_graph.py:104-114 | a commit is always preceded by supplying, validating, running, checking and accepting the same program and result in five consecutive nodes |
| ExecutionProofs.EvidenceHasPedigree | src/analysis_loop_v3/orchestration/nodes/review.py:131-166 | whatever evidence an attempt adds is exactly one record, and its fields are the intent, program, figures, result and review of the five nodes before its commit |
| RunPedigree.EveryRecordWasEarned | src/analysis_loop_v3/orchestration/execution_graph.py:104-114 | every record in a reachable state was committed by an attempt of the same run, whose five preceding nodes supplied, validated, ran, checked and accepted its program and result; no other node adds evidence |
| ExecutionProofs.DeltaIsInline | src/analysis_loop_v3/orchestration/execution_graph.py:44-60 | exporting and applying the delta equals running the nodes inline, each appended item once; applying again changes nothing |
| ExecutionProofs.DeltaOfRunIsInline | src/analysis_loop_v3/orchestration/graph.py:34-36 | for every subgraph run that hands back a delta, applying it to the entry state yields the state its last node reached |
| Numeric.BindReviewToResult | src/analysis_loop_v3/validation/numeric.py:50-80 | the two binding loops succeed exactly if the object at each effect path states the five effect fields and every uncertainty equals, read as numbers and structure, the finite value at its path; they return that value and change nothing else |
| Numeric.BindMeaning | src/analysis_loop_v3/validation/numeric.py:50-80 | the specified binding succeeds exactly on such summaries, keeps the effects and returns the values that stand at the uncertainty paths |
| Numeric.BindIdempotent | src/analysis_loop_v3/validation/numeric.py:50-80 | a bound review binds again to the same result unchanged |
| Numeric.ResolveResultPath | src/analysis_loop_v3/validation/numeric.py:12-25 | the walk along a path yields the value the path denotes |
| Numeric.DenotesIff | src/analysis_loop_v3/validation/numeric.py:12-25 | a path denotes exactly the value reached by its keys and indices, one existing child after the other |
| Numeric.SameValueIff | src/analysis_loop_v3/validation/numeric.py:28-47 | two values compare as equal exactly if both are finite throughout and read the same with whole numbers and fractions as one kind of number |
| Numeric.LeafIff | src/analysis_loop_v3/orchestration/nodes/reporting.py:280-293 | the numeric leaves are exactly the whole numbers and finite fractions that stand at some path |
| Numeric.SameValueSymmetric | src/analysis_loop_v3/validation/numeric.py:28-47 | value comparison is symmetric |
| Numeric.SameValueTransitive | src/analysis_loop_v3/validation/numeric.py:28-47 | value comparison is transitive |
| Numeric.SameValueReflexiveIffFinite | src/analysis_loop_v3/validation/numeric.py:28-47 | a value equals itself exactly when it holds no NaN or infinity |
| Numeric.BoundEffectIsLeaf | src/analysis_loop_v3/orchestration/nodes/reporting.py:280-293 | a bound effect's value is a numeric leaf of the result |
| Audit.BuildRunAudit | src/analysis_loop_v3/audit.py:111-163 | the loops report exactly the broken references, and the audit is clean exactly when none is broken |
| Audit.NoReachableIssue | src/analysis_loop_v3/audit.py:135-163 | in no reachable state does any reference check report an issue |
| Worker.ExactlyOnce | src/analysis_loop_v3/worker/app.py:126-160 | under any interleaving of any requests, wherever handlers stop and whatever is removed for other ids, the code of an execution id runs at most once while its own directory stays |
| Worker.ExactlyOnceIffRetained | src/analysis_loop_v3/worker/store.py:53-65 | for every id, with stale reclaim and sweeping as separate switches: the promise holds of all runs exactly when its directory may be neither reclaimed nor swept |
| Worker.OneRemovalSuffices | src/analysis_loop_v3/worker/store.py:134-148 | whenever the directory of an id is there, removing it once, by a sweep or as stale, leaves a continuation without further removal in which its code runs twice |
| Worker.RecordsLast | src/analysis_loop_v3/worker/store.py:72-102 | while the directory of an id stays, every read after a claim answers something, and an ended record never changes or reverts, whatever happens to other ids |
| Worker.EndedRecordRan | src/analysis_loop_v3/worker/app.py:136-160 | an ended record is the outcome of a run of its id |
| Worker.AcceptedResultIsStored | src/analysis_loop_v3/execution/remote_sandbox.py:43-104 | through retries, lost and delayed responses, a result the client accepts is the stored outcome of the one run of its id |
| Worker.AcceptedIff | src/analysis_loop_v3/execution/remote_sandbox.py:68-174 | the client accepts a result exactly when the first payload that answered, or the first ended one polled after it, succeeded with that result and readable figures |
| Worker.StartExecution | src/analysis_loop_v3/execution/remote_sandbox.py:120-151 | the bounded retry loop returns the first payload among alternating posts and lookups |
| Worker.AwaitFinish | src/analysis_loop_v3/execution/remote_sandbox.py:153-174 | the polling loop returns the first ended payload, the last running one at the deadline, or the lost-record failure |
| Worker.RunRemotely | src/analysis_loop_v3/execution/remote_sandbox.py:43-66 | the retry and polling loops accept a result exactly when the payload that settles the exchange succeeded with that result and readable figures, and are unsuccessful exactly when none did |
| Worker.ExecutionStore.Claim | src/analysis_loop_v3/worker/store.py:47-70 | undisturbed, a claim succeeds exactly if the directory is absent, has had no status for more than 7200 seconds, or holds a record running for more than 7200 seconds, and leaves it running since now; an ended record is never claimed |
| Worker.ExecutionStore.Read | src/analysis_loop_v3/worker/store.py:72-95 | a read is absent exactly when the directory is |
| Worker.ExecutionStore.Sweep | src/analysis_loop_v3/worker/store.py:134-148 | a sweep removes exactly the directories older than the cutoff and counts them |
| Worker.CreateExecution | src/analysis_loop_v3/worker/app.py:126-160 | undisturbed, the code runs exactly in those cases and its outcome is what stays; an ended record is answered as it is and nothing runs or changes |
| Worker.JudgeRemovesIff | src/analysis_loop_v3/worker/store.py:104-119 | in any interleaving a handler goes on to remove a directory exactly if it is overdue when judged; an ended record is never judged stale |
| Worker.RecordsAreDated | src/analysis_loop_v3/worker/store.py:47-102 | in any interleaving a claimed record says since when it runs, a finished one holds the outcome, and both are dated by their writing |
| Worker.SoloReclaims | src/analysis_loop_v3/worker/store.py:47-70 | left alone, a handler that finds an overdue directory replaces it by its own |
| Worker.SoloAnswers | src/analysis_loop_v3/worker/app.py:136-141 | left alone, a handler that finds any other directory answers from its record and runs nothing |
| Worker.SoloFinishes | src/analysis_loop_v3/worker/app.py:142-160 | left alone, a handler that claimed the directory runs the code once, stores its outcome and replies with it unless the run raised |
| Memory.NoLostUpdates | src/analysis_loop_v3/llm/memory.py:135-164 | for any interleaving of processes, dead or alive, replacements form one chain, each carries out the request of a different writer over exactly the content it expected, a confirmed write is among them, a refused one is not and has met other content than it expected, reads return versions of the chain, and the seed is written at most once |
| Memory.RequestsStandThroughout | src/analysis_loop_v3/llm/memory.py:145-164 | over any stretch of any interleaving a process still asks for the same content over the same expected content, so what the log carries out is what its caller first asked |
| Memory.AnalysisMemory.Write | src/analysis_loop_v3/llm/memory.py:145-164 | a write replaces the document exactly if it still is what the caller read |
| Memory.AnalysisMemory.Snapshot | src/analysis_loop_v3/llm/memory.py:135-143 | a snapshot returns the document, seeding it if it is absent |
| ReportSections.SectionLines | src/analysis_loop_v3/report_validation.py:88-109 | the fence-aware scanner lists for each section exactly the lines its declarative definition assigns to it, in order |
| ReportValidation.ValidateReport | src/analysis_loop_v3/report_validation.py:112-231 | the errors are exactly the faults that refuse a report, the warnings exactly the unsupported numbers of a lenient check |
| ReportValidation.UnsupportedTokens | src/analysis_loop_v3/report_validation.py:162-191 | a numeric token is reported exactly when no number of a usable record cited on its line supports it |
| ReportValidation.CollectNumericValues | src/analysis_loop_v3/orchestration/nodes/reporting.py:280-293 | the finite numbers collected are exactly the numeric leaves of the result |
| ReportValidation.CloseIff | src/analysis_loop_v3/report_validation.py:80-84 | closeness is symmetric, also under a change of sign, never across zero, and for positive numbers a shortfall of at most a millionth of the larger |
| ReportValidation.PercentStatesBoth | src/analysis_loop_v3/report_validation.py:72-85 | a percentage states its number and a hundredth of it, a token that is not finite nothing |
| Reporting.WriteReport | src/analysis_loop_v3/orchestration/nodes/reporting.py:60-165 | for records with distinct ids a draft is adopted exactly if it may be drafted, is presentable, cites only results that were read, and a review that stands accepts it |
| Reporting.AdoptedReportIsSound | src/analysis_loop_v3/orchestration/nodes/reporting.py:60-165 | for every finished run the gate adopts exactly the adoptable drafts, and each of them carries one stop marker naming the stop code |
| Reporting.PresentableIff | src/analysis_loop_v3/report_validation.py:112-231 | the checks refuse nothing exactly if all four sections are written, only current records are cited and some if there are any, every content line cites and grounds each number in a readable result cited on it, one marker names the stop code, and all open goals, waiting tasks and unresolved pairs are disclosed |
| Reporting.ValidateSemanticReview | src/analysis_loop_v3/report_validation.py:28-45 | a review is valid exactly if it covers each category and each cited record once, rejects exactly if it finds something, and every finding quotes the text, says why and what to change, and refers to cited records |
| Reporting.ReviewCoversEachOnce | src/analysis_loop_v3/contract_models/reporting.py:47-60 | the counting checks amount to covering each cited record and each category exactly once |

## Left out

- LLM clients, prompts and provider configuration: foreign services; only the contracts listed above remain of them.
- LangGraph and its checkpointer: edges, append reducers and overwrite semantics are modelled, resume positions are not.
- API routes, authentication, registry, command line and event logging: plumbing without a hard property. Two counters in `MainGraph.Config` stand for the reuse and data-limited events.
- Sandbox process limits, import restriction and lint internals: validation stages return an arbitrary issue list from their own code set.
- Profiling, inspection statistics and the ranking of lookup results: a profile is a schema and a set of columns; inspecting known columns always succeeds.
- Artifact bytes and digests: an artifact is identified with its content; reads inside the graph nodes succeed, and only the report reads artifacts that may be unreadable.
- Free text that nothing decides on (rationales, closing notes, relation ids, reasons, messages) is dropped, and the question text of a contradiction task is a constant.
- Case folding covers ASCII letters only, and whitespace is blank, tab, newline and carriage return.
- The planner's context selection and the inspection and lookup summaries it reads: they influence only the planner's answer.
- `AllowedRevalidates` keeps the listed order where the source iterates over a set; no theorem depends on that order.
- Task ids of a commit and of a repair are supplied by the environment as new ids, in the number the source would draw.
- ExecutionStore: file operations are atomic and do not fail; the id pattern check is not part of the model; the interleaved protocol is modelled on values beside the class.
- ExactlyOnce: holds while the directory of the id is neither reclaimed as stale nor swept; ExactlyOnceIffRetained and OneRemovalSuffices show that this cannot be relaxed.
- NoLostUpdates: text is taken to read back as it was written; the source's text mode translates newlines, so a document holding a carriage return reads back changed and the revision its writer was given matches no later comparison.
- Regular expressions for citations, markers, numbers and headings: a line is represented by the tokens found in it, and markers do not span lines.
- Floating-point rounding: report numbers and results are compared as real numbers.
