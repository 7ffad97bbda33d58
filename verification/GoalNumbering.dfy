/** How sub-goals extracted from a model response are numbered. */
module GoalNumbering {
  import opened Contracts
  import opened RunState

  /** One entry of a response: not an object, or an object with a question (possibly blank). */
  datatype RawGoal = Malformed | Item(question: string)

  predicate Kept(g: RawGoal) {
    g.Item? && !Blank(g.question)
  }

  function GoalAt(raw: seq<RawGoal>, start: nat, i: nat): SubGoal
    requires i < |raw| && Kept(raw[i])
  {
    SubGoal(start + i + 1, Strip(raw[i].question), Open, [])
  }

  /** The goals kept among the first `n` entries; the number counts skipped entries too. */
  function Numbered(raw: seq<RawGoal>, start: nat, n: nat): seq<SubGoal>
    requires n <= |raw|
  {
    if n == 0 then []
    else Numbered(raw, start, n - 1) + (if Kept(raw[n - 1]) then [GoalAt(raw, start, n - 1)] else [])
  }

  function ParseGoals(raw: seq<RawGoal>, start: nat): seq<SubGoal> {
    Numbered(raw, start, |raw|)
  }

  /** `parse_goals`. */
  method ExtractGoals(raw: seq<RawGoal>, start: nat) returns (goals: seq<SubGoal>)
    ensures goals == ParseGoals(raw, start)
  {
    goals := [];
    for offset := 0 to |raw|
      invariant goals == Numbered(raw, start, offset)
    {
      if raw[offset].Malformed? {
        continue;
      }
      var question := Strip(raw[offset].question);
      if question == "" {
        continue;
      }
      goals := goals + [SubGoal(start + offset + 1, question, Open, [])];
    }
  }

  lemma {:induction false} NumberedShape(raw: seq<RawGoal>, start: nat, n: nat)
    requires n <= |raw|
    ensures var goals := Numbered(raw, start, n);
      && |goals| <= n
      && (forall g :: g in goals ==> g.IsOpen() && start < g.goalId <= start + n)
      && (forall i, j :: 0 <= i < j < |goals| ==> goals[i].goalId < goals[j].goalId)
  {
    if n > 0 {
      NumberedShape(raw, start, n - 1);
    }
  }

  ghost predicate ProposedAt(raw: seq<RawGoal>, start: nat, i: nat, g: SubGoal) {
    && i < |raw| && raw[i].Item? && !AllSpace(raw[i].question)
    && g == SubGoal(start + i + 1, Strip(raw[i].question), Open, [])
  }

  lemma {:induction false} NumberedIff(raw: seq<RawGoal>, start: nat, n: nat, g: SubGoal)
    requires n <= |raw|
    ensures g in Numbered(raw, start, n) <==> exists i: nat :: i < n && ProposedAt(raw, start, i, g)
  {
    if n > 0 {
      NumberedIff(raw, start, n - 1, g);
      if raw[n - 1].Item? {
        BlankIff(raw[n - 1].question);
      }
      if g in Numbered(raw, start, n) && g !in Numbered(raw, start, n - 1) {
        assert ProposedAt(raw, start, n - 1, g);
      }
    }
  }

  /** The goals of a response are its entries with more than whitespace in them, stripped, open, numbered by
      their position, in order. */
  lemma ParsedGoalsIff(raw: seq<RawGoal>, start: nat, g: SubGoal)
    ensures g in ParseGoals(raw, start) <==> exists i: nat :: ProposedAt(raw, start, i, g)
    ensures forall i, j :: 0 <= i < j < |ParseGoals(raw, start)| ==>
      ParseGoals(raw, start)[i].goalId < ParseGoals(raw, start)[j].goalId
  {
    NumberedIff(raw, start, |raw|, g);
    NumberedShape(raw, start, |raw|);
  }

  // ---------------------------------------------------------------- when numbers collide

  /** No skipped entry stands before a kept one. */
  ghost predicate NoGap(raw: seq<RawGoal>) {
    forall i, j :: 0 <= i < j < |raw| && Kept(raw[j]) ==> Kept(raw[i])
  }

  lemma {:induction false} NoGapNumbersConsecutively(raw: seq<RawGoal>, start: nat, n: nat)
    requires n <= |raw| && NoGap(raw)
    ensures var goals := Numbered(raw, start, n);
      && (forall i :: 0 <= i < |goals| ==> goals[i].goalId == start + i + 1)
      && (n > 0 && Kept(raw[n - 1]) ==> |goals| == n)
  {
    if n > 0 {
      NoGapNumbersConsecutively(raw, start, n - 1);
    }
  }

  lemma ParsedConsecutively(raw: seq<RawGoal>, start: nat, goals: seq<SubGoal>)
    requires NoGap(raw) && goals == ParseGoals(raw, start)
    ensures forall i :: 0 <= i < |goals| ==> goals[i].goalId == start + i + 1
  {
    NoGapNumbersConsecutively(raw, start, |raw|);
  }

  function Padding(n: nat): (r: seq<RawGoal>)
    ensures |r| == n && forall i :: 0 <= i < n ==> r[i] == Malformed
  {
    seq(n, _ => Malformed)
  }

  /** An expansion can never repeat an existing number exactly when no existing number exceeds the number
      of goals, because numbering restarts from that count. */
  lemma ExpansionFreshIff(goals: seq<SubGoal>)
    ensures (forall raw :: GoalIds(ParseGoals(raw, |goals|)) !! GoalIds(goals))
      <==> forall g :: g in goals ==> g.goalId <= |goals|
  {
    if forall g :: g in goals ==> g.goalId <= |goals| {
      forall raw ensures GoalIds(ParseGoals(raw, |goals|)) !! GoalIds(goals) {
        NumberedShape(raw, |goals|, |raw|);
      }
    } else {
      var g :| g in goals && g.goalId > |goals|;
      var raw := Padding(g.goalId - |goals| - 1) + [Item("x")];
      var n := |raw| - 1;
      assert Kept(raw[n]);
      var made := GoalAt(raw, |goals|, n);
      assert made in ParseGoals(raw, |goals|) && made.goalId == g.goalId;
      assert g.goalId in GoalIds(ParseGoals(raw, |goals|)) && g.goalId in GoalIds(goals);
    }
  }

  /** A response numbers its goals within their count exactly when it has no gap. */
  lemma CountBoundsNumbersIff(raw: seq<RawGoal>)
    ensures (forall g :: g in ParseGoals(raw, 0) ==> g.goalId <= |ParseGoals(raw, 0)|) <==> NoGap(raw)
  {
    var goals := ParseGoals(raw, 0);
    if NoGap(raw) {
      ParsedConsecutively(raw, 0, goals);
    } else {
      var i, j :| 0 <= i < j < |raw| && Kept(raw[j]) && !Kept(raw[i]);
      var g := GapOverflows(raw, i, j, |raw|);
      assert g in goals;
    }
  }

  lemma {:induction false} SkippedShortens(raw: seq<RawGoal>, i: nat, n: nat)
    requires i < n <= |raw| && !Kept(raw[i])
    ensures |Numbered(raw, 0, n)| < n
  {
    if i < n - 1 {
      SkippedShortens(raw, i, n - 1);
    } else {
      NumberedShape(raw, 0, n - 1);
    }
  }

  /** After a gap, the last goal kept so far carries a number above their count. */
  lemma {:induction false} GapOverflows(raw: seq<RawGoal>, i: nat, j: nat, n: nat) returns (g: SubGoal)
    requires i < j < n <= |raw| && Kept(raw[j]) && !Kept(raw[i])
    ensures g in Numbered(raw, 0, n) && g.goalId > |Numbered(raw, 0, n)|
  {
    if Kept(raw[n - 1]) {
      g := GoalAt(raw, 0, n - 1);
      SkippedShortens(raw, i, n);
    } else {
      g := GapOverflows(raw, i, j, n - 1);
    }
  }
}
