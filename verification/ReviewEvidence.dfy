/** Relations, goal links and revalidation conditions that an accepted review adds to the evidence graph. */
module ReviewEvidence {
  import opened Contracts
  import opened RunState

  // ---------------------------------------------------------------- revalidation conditions

  datatype Condition = MethodCondition | ProtocolCondition | DatasetCondition | TransformCondition

  predicate Differs(source: EvidenceRecord, record: EvidenceRecord, c: Condition) {
    match c
    case MethodCondition => source.methodName != record.methodName
    case ProtocolCondition => source.protocol != record.protocol
    case DatasetCondition => source.lineage.datasetSha != record.lineage.datasetSha
    case TransformCondition => source.lineage.transform != record.lineage.transform
  }

  /** The record an id stands for: the last one carrying it, as a dictionary by id keeps it. */
  function RecordOf(evidence: seq<EvidenceRecord>, id: EvidenceId): Option<EvidenceRecord> {
    if evidence == [] then None
    else if evidence[|evidence| - 1].evidenceId == id then Some(evidence[|evidence| - 1])
    else RecordOf(evidence[..|evidence| - 1], id)
  }

  lemma {:induction false} RecordOfIsKnown(evidence: seq<EvidenceRecord>, id: EvidenceId)
    ensures RecordOf(evidence, id).Some? ==>
      RecordOf(evidence, id).value in evidence && RecordOf(evidence, id).value.evidenceId == id
  {
    if evidence != [] {
      RecordOfIsKnown(evidence[..|evidence| - 1], id);
    }
  }

  predicate SourceDiffers(evidence: seq<EvidenceRecord>, id: EvidenceId, record: EvidenceRecord, c: Condition) {
    var source := RecordOf(evidence, id);
    source.Some? && Differs(source.value, record, c)
  }

  /** Some listed source was produced under a different method, protocol, dataset or transform. */
  predicate ConditionsChanged(evidence: seq<EvidenceRecord>, sources: seq<EvidenceId>, record: EvidenceRecord) {
    exists id | id in sources ::
      || SourceDiffers(evidence, id, record, MethodCondition)
      || SourceDiffers(evidence, id, record, ProtocolCondition)
      || SourceDiffers(evidence, id, record, DatasetCondition)
      || SourceDiffers(evidence, id, record, TransformCondition)
  }

  /** The record a listed id stands for was produced under another method, protocol, dataset or transform. */
  ghost predicate ChangedFrom(evidence: seq<EvidenceRecord>, sources: seq<EvidenceId>, record: EvidenceRecord) {
    exists i :: (0 <= i < |evidence| && IsLatest(evidence, i) && evidence[i].evidenceId in sources
                 && UnderOther(evidence[i], record))
  }

  /** No later record carries the same id. */
  ghost predicate IsLatest(evidence: seq<EvidenceRecord>, i: nat)
    requires i < |evidence|
  {
    forall j :: i < j < |evidence| ==> evidence[j].evidenceId != evidence[i].evidenceId
  }

  predicate UnderOther(e: EvidenceRecord, record: EvidenceRecord) {
    || e.methodName != record.methodName || e.protocol != record.protocol
    || e.lineage.datasetSha != record.lineage.datasetSha || e.lineage.transform != record.lineage.transform
  }

  lemma {:induction false} RecordOfLatest(evidence: seq<EvidenceRecord>, id: EvidenceId) returns (i: nat)
    ensures RecordOf(evidence, id).Some? ==>
      && i < |evidence| && evidence[i] == RecordOf(evidence, id).value
      && evidence[i].evidenceId == id && IsLatest(evidence, i)
    ensures RecordOf(evidence, id).None? ==> forall e :: e in evidence ==> e.evidenceId != id
  {
    i := 0;
    if evidence != [] {
      var last := |evidence| - 1;
      if evidence[last].evidenceId == id {
        i := last;
      } else {
        i := RecordOfLatest(evidence[..last], id);
        assert evidence == evidence[..last] + [evidence[last]];
      }
    }
  }

  lemma LatestIsRecordOf(evidence: seq<EvidenceRecord>, i: nat)
    requires i < |evidence| && IsLatest(evidence, i)
    ensures RecordOf(evidence, evidence[i].evidenceId) == Some(evidence[i])
  {
    var k := RecordOfLatest(evidence, evidence[i].evidenceId);
    assert evidence[i] in evidence;
  }

  lemma ConditionsChangedIff(evidence: seq<EvidenceRecord>, sources: seq<EvidenceId>, record: EvidenceRecord)
    ensures ConditionsChanged(evidence, sources, record) <==> ChangedFrom(evidence, sources, record)
  {
    if ConditionsChanged(evidence, sources, record) {
      var id :| id in sources && (|| SourceDiffers(evidence, id, record, MethodCondition)
                                  || SourceDiffers(evidence, id, record, ProtocolCondition)
                                  || SourceDiffers(evidence, id, record, DatasetCondition)
                                  || SourceDiffers(evidence, id, record, TransformCondition));
      var i := RecordOfLatest(evidence, id);
    }
    if i :| (0 <= i < |evidence| && IsLatest(evidence, i) && evidence[i].evidenceId in sources
             && UnderOther(evidence[i], record))
    {
      LatestIsRecordOf(evidence, i);
    }
  }

  /** `revalidation_changed_conditions`: the set of conditions some source differs in. */
  method RevalidationChangedConditions(evidence: seq<EvidenceRecord>, sources: seq<EvidenceId>, record: EvidenceRecord)
    returns (changed: set<Condition>)
    ensures forall c :: c in changed <==> exists id :: id in sources && SourceDiffers(evidence, id, record, c)
    ensures changed != {} <==> ChangedFrom(evidence, sources, record)
  {
    changed := {};
    for k := 0 to |sources|
      invariant forall c :: c in changed <==> exists id :: id in sources[..k] && SourceDiffers(evidence, id, record, c)
    {
      assert sources[..k + 1] == sources[..k] + [sources[k]];
      ghost var before := changed;
      var source := RecordOf(evidence, sources[k]);
      if source.Some? {
        if source.value.methodName != record.methodName { changed := changed + {MethodCondition}; }
        if source.value.protocol != record.protocol { changed := changed + {ProtocolCondition}; }
        if source.value.lineage.datasetSha != record.lineage.datasetSha { changed := changed + {DatasetCondition}; }
        if source.value.lineage.transform != record.lineage.transform { changed := changed + {TransformCondition}; }
      }
      forall c: Condition
        ensures c in changed <==> exists id :: id in sources[..k + 1] && SourceDiffers(evidence, id, record, c)
      {
        assert c in changed <==> c in before || SourceDiffers(evidence, sources[k], record, c);
        assert sources[k] in sources[..k + 1];
      }
    }
    assert sources[..|sources|] == sources;
    assert ConditionsChanged(evidence, sources, record) ==> changed != {} by {
      if ConditionsChanged(evidence, sources, record) {
        var id :| id in sources && (|| SourceDiffers(evidence, id, record, MethodCondition)
                                    || SourceDiffers(evidence, id, record, ProtocolCondition)
                                    || SourceDiffers(evidence, id, record, DatasetCondition)
                                    || SourceDiffers(evidence, id, record, TransformCondition));
        var c := if SourceDiffers(evidence, id, record, MethodCondition) then MethodCondition
                 else if SourceDiffers(evidence, id, record, ProtocolCondition) then ProtocolCondition
                 else if SourceDiffers(evidence, id, record, DatasetCondition) then DatasetCondition
                 else TransformCondition;
        assert c in changed;
      }
    }
    if c :| c in changed {
      assert ConditionsChanged(evidence, sources, record);
    }
    ConditionsChangedIff(evidence, sources, record);
  }

  // ---------------------------------------------------------------- goal links

  /** `goals_with_evidence`: append the record to every goal that carries the id. */
  function LinkEvidence(goals: seq<SubGoal>, goalId: Option<GoalId>, id: EvidenceId): (r: seq<SubGoal>)
    ensures |r| == |goals|
  {
    seq(|goals|, i requires 0 <= i < |goals| =>
      if Some(goals[i].goalId) == goalId then goals[i].(evidenceIds := goals[i].evidenceIds + [id]) else goals[i])
  }

  // ---------------------------------------------------------------- relations

  datatype Target = Target(kind: RelationKind, id: EvidenceId)

  function Targets(kind: RelationKind, ids: seq<EvidenceId>): (r: seq<Target>)
    ensures |r| == |ids|
    ensures forall t :: t in r <==> t.kind == kind && t.id in ids
  {
    if ids == [] then [] else [Target(kind, ids[0])] + Targets(kind, ids[1..])
  }

  function Without(ids: seq<EvidenceId>, removed: seq<EvidenceId>): (r: seq<EvidenceId>)
    ensures forall x :: x in r <==> x in ids && x !in removed
  {
    if ids == [] then []
    else (if ids[0] in removed then [] else [ids[0]]) + Without(ids[1..], removed)
  }

  function TaskById(agenda: seq<AgendaTask>, id: Option<TaskId>): Option<AgendaTask> {
    if id.None? || agenda == [] then None
    else if agenda[0].taskId == id.value then Some(agenda[0])
    else TaskById(agenda[1..], id)
  }

  /** The revalidations a review may record: a selected revalidation task whose conditions did not change
      withdraws its own sources. */
  function AllowedRevalidates(k: Knowledge, intent: Intent, review: CriticReview,
                              record: EvidenceRecord): seq<EvidenceId>
  {
    var task := TaskById(k.agenda, intent.taskId);
    if task.Some? && task.value.kind == Revalidate && !ConditionsChanged(k.evidence, task.value.sources, record)
    then Without(review.revalidates, task.value.sources)
    else review.revalidates
  }

  /** The first task carrying the number is a revalidation of `x`, and nothing changed since its sources. */
  ghost predicate Withdrawn(k: Knowledge, taskId: Option<TaskId>, record: EvidenceRecord, x: EvidenceId) {
    exists i :: (0 <= i < |k.agenda| && IsFirst(k.agenda, i) && taskId == Some(k.agenda[i].taskId)
                 && k.agenda[i].kind == Revalidate && x in k.agenda[i].sources
                 && !ChangedFrom(k.evidence, k.agenda[i].sources, record))
  }

  ghost predicate IsFirst(agenda: seq<AgendaTask>, i: nat)
    requires i < |agenda|
  {
    forall j :: 0 <= j < i ==> agenda[j].taskId != agenda[i].taskId
  }

  lemma {:induction false} TaskByIdIsFirst(agenda: seq<AgendaTask>, id: Option<TaskId>) returns (i: nat)
    ensures TaskById(agenda, id).Some? ==>
      && i < |agenda| && agenda[i] == TaskById(agenda, id).value
      && id == Some(agenda[i].taskId) && IsFirst(agenda, i)
    ensures TaskById(agenda, id).None? ==> forall t :: t in agenda ==> id != Some(t.taskId)
  {
    i := 0;
    if agenda != [] && id.Some? && agenda[0].taskId != id.value {
      var k := TaskByIdIsFirst(agenda[1..], id);
      i := k + 1;
      assert agenda == [agenda[0]] + agenda[1..];
    }
  }

  /** A review's revalidations are recorded, except those a selected task withdraws. */
  lemma AllowedRevalidatesIff(k: Knowledge, intent: Intent, review: CriticReview, record: EvidenceRecord,
                              x: EvidenceId)
    ensures x in AllowedRevalidates(k, intent, review, record)
      <==> x in review.revalidates && !Withdrawn(k, intent.taskId, record, x)
  {
    var i := TaskByIdIsFirst(k.agenda, intent.taskId);
    var task := TaskById(k.agenda, intent.taskId);
    if task.Some? {
      ConditionsChangedIff(k.evidence, task.value.sources, record);
    }
    if j :| (0 <= j < |k.agenda| && IsFirst(k.agenda, j) && intent.taskId == Some(k.agenda[j].taskId)
             && k.agenda[j].kind == Revalidate && x in k.agenda[j].sources
             && !ChangedFrom(k.evidence, k.agenda[j].sources, record))
    {
      assert k.agenda[j] in k.agenda && i == j;
    }
  }

  function RelationTargets(k: Knowledge, intent: Intent, review: CriticReview, record: EvidenceRecord): seq<Target> {
    Targets(DerivedFrom, intent.parents) + Targets(Contradicts, review.contradicts)
    + Targets(Revalidates, AllowedRevalidates(k, intent, review, record))
    + Targets(Supersedes, review.supersedes) + Targets(Reconciles, review.reconciles)
  }

  /** The relations after the first `n` targets: a self relation or one already present is skipped. */
  function AddRelations(base: seq<EvidenceRelation>, e: EvidenceId, targets: seq<Target>, n: nat): seq<EvidenceRelation>
    requires n <= |targets|
  {
    if n == 0 then base
    else
      var grown := AddRelations(base, e, targets, n - 1);
      var t := targets[n - 1];
      if t.id == e || Relation(e, t.id, t.kind) in grown then grown else grown + [Relation(e, t.id, t.kind)]
  }

  function RelationsAfterCommit(k: Knowledge, intent: Intent, review: CriticReview,
                                record: EvidenceRecord): seq<EvidenceRelation>
  {
    var targets := RelationTargets(k, intent, review, record);
    AddRelations(k.relations, record.evidenceId, targets, |targets|)
  }

  lemma {:induction false} AddRelationsContents(base: seq<EvidenceRelation>, e: EvidenceId, targets: seq<Target>,
                                                n: nat)
    requires n <= |targets|
    ensures base <= AddRelations(base, e, targets, n)
    ensures forall r :: r in AddRelations(base, e, targets, n) <==>
      r in base || (r.source == e && r.target != e && Target(r.kind, r.target) in targets[..n])
  {
    if n > 0 {
      AddRelationsContents(base, e, targets, n - 1);
      assert targets[..n] == targets[..n - 1] + [targets[n - 1]];
      var t := targets[n - 1];
      assert Relation(e, t.id, t.kind).source == e;
    }
  }

  /** A commit keeps every relation and adds exactly those the intent and the review name, from the new record. */
  lemma RelationsAfterCommitContents(k: Knowledge, intent: Intent, review: CriticReview, record: EvidenceRecord)
    ensures k.relations <= RelationsAfterCommit(k, intent, review, record)
    ensures forall r :: r in RelationsAfterCommit(k, intent, review, record) <==>
      || r in k.relations
      || (&& r.source == record.evidenceId && r.target != record.evidenceId
          && match r.kind
             case DerivedFrom => r.target in intent.parents
             case Contradicts => r.target in review.contradicts
             case Revalidates => r.target in review.revalidates && !Withdrawn(k, intent.taskId, record, r.target)
             case Supersedes => r.target in review.supersedes
             case Reconciles => r.target in review.reconciles)
  {
    var targets := RelationTargets(k, intent, review, record);
    AddRelationsContents(k.relations, record.evidenceId, targets, |targets|);
    assert targets[..|targets|] == targets;
    forall x { AllowedRevalidatesIff(k, intent, review, record, x); }
  }

  /** The targets named by the intent and the review, with the revalidations that may be recorded. */
  method CollectTargets(k: Knowledge, intent: Intent, review: CriticReview, record: EvidenceRecord)
    returns (candidates: seq<Target>)
    ensures candidates == RelationTargets(k, intent, review, record)
  {
    candidates := Targets(DerivedFrom, intent.parents) + Targets(Contradicts, review.contradicts);
    var allowed := review.revalidates;
    var task := TaskById(k.agenda, intent.taskId);
    if task.Some? && task.value.kind == Revalidate {
      ConditionsChangedIff(k.evidence, task.value.sources, record);
      var changed := RevalidationChangedConditions(k.evidence, task.value.sources, record);
      if changed == {} {
        allowed := Without(allowed, task.value.sources);
      }
    }
    candidates := candidates + Targets(Revalidates, allowed)
      + Targets(Supersedes, review.supersedes) + Targets(Reconciles, review.reconciles);
  }

  /** `relations_after_commit`: the loop keeps the set of known keys and the list of created relations. */
  method CreateRelations(k: Knowledge, intent: Intent, review: CriticReview, record: EvidenceRecord)
    returns (created: seq<EvidenceRelation>)
    ensures k.relations + created == RelationsAfterCommit(k, intent, review, record)
  {
    var existing := set r | r in k.relations;
    var candidates := CollectTargets(k, intent, review, record);
    created := AddNewRelations(k.relations, record.evidenceId, candidates, existing);
  }

  method AddNewRelations(base: seq<EvidenceRelation>, e: EvidenceId, candidates: seq<Target>,
                         known: set<EvidenceRelation>)
    returns (created: seq<EvidenceRelation>)
    requires forall r :: r in known <==> r in base
    ensures base + created == AddRelations(base, e, candidates, |candidates|)
  {
    var existing := known;
    created := [];
    for n := 0 to |candidates|
      invariant base + created == AddRelations(base, e, candidates, n)
      invariant forall r :: r in existing <==> r in base + created
    {
      var t := candidates[n];
      var key := Relation(e, t.id, t.kind);
      if t.id == e || key in existing {
        continue;
      }
      assert base + (created + [key]) == (base + created) + [key];
      created := created + [key];
      existing := existing + {key};
    }
  }
}
