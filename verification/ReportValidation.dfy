/** The deterministic checks of a final report: structure, citations, numbers and open work. */
module ReportValidation {
  import opened Contracts
  import opened RunState
  import opened Numeric
  import opened ReviewEvidence
  import opened ReportSections

  // ---------------------------------------------------------------- numbers

  function Abs(x: real): real {
    if x < 0.0 then -x else x
  }

  /** `math.isclose` with relative tolerance 1e-6 and no absolute tolerance. */
  predicate Close(a: real, b: real) {
    || Abs(a - b) <= 0.000001 * Abs(a)
    || Abs(a - b) <= 0.000001 * Abs(b)
  }

  /** A finite token states `x` directly or, with a percent sign, a hundredth of itself. */
  predicate States(t: Token, x: real) {
    t.value.Some? && (Close(t.value.value, x) || (t.percent && Close(t.value.value / 100.0, x)))
  }

  /** Closeness is symmetric, also under a change of sign, never across zero, and for positive numbers means that
      the smaller one falls short of the larger by at most a millionth of it. */
  lemma CloseIff(a: real, b: real)
    ensures Close(a, b) <==> Close(b, a)
    ensures Close(-a, -b) <==> Close(a, b)
    ensures 0.0 < a <= b ==> (Close(a, b) <==> a >= 0.999999 * b)
    ensures a < 0.0 <= b || a <= 0.0 < b ==> !Close(a, b)
    ensures a == b ==> Close(a, b)
  {
  }

  /** A percentage states its number and a hundredth of it; a token that is not finite states nothing. */
  lemma PercentStatesBoth(v: real, x: real, percent: bool)
    ensures States(Token(Some(v), false), x) <==> Close(v, x)
    ensures States(Token(Some(v), true), x) <==> Close(v, x) || Close(v, 100.0 * x)
    ensures !States(Token(None, percent), x)
  {
    var d := v / 100.0;
    assert v == 100.0 * d;
    assert Abs(v - 100.0 * x) == 100.0 * Abs(d - x);
    assert Abs(100.0 * x) == 100.0 * Abs(x) && Abs(v) == 100.0 * Abs(d);
  }

  /** `_number_supported`. */
  predicate NumberSupported(t: Token, allowed: seq<Float>) {
    exists f | f in allowed :: f.Finite? && States(t, f.r)
  }

  /** `_collect_numeric_values`: the finite numbers collected are exactly the numeric leaves of the tree. */
  method CollectNumericValues(j: Json) returns (numbers: seq<Float>)
    ensures forall x :: Finite(x) in numbers <==> IsLeaf(j, x)
    decreases j, 1
  {
    match j
    case Int(i) => numbers := [Finite(i as real)];
    case Flt(f) => numbers := [f];
    case List(items) => numbers := CollectItems(j, items);
    case Obj(fields) => numbers := CollectFields(j, fields);
    case Null => numbers := [];
    case Bool(_) => numbers := [];
    case Str(_) => numbers := [];
  }

  method CollectItems(j: Json, items: seq<Json>) returns (numbers: seq<Float>)
    requires j == List(items)
    ensures forall x :: Finite(x) in numbers <==> exists k :: 0 <= k < |items| && IsLeaf(items[k], x)
    decreases j, 0
  {
    numbers := [];
    for n := 0 to |items|
      invariant forall x :: Finite(x) in numbers <==> exists k :: 0 <= k < n && IsLeaf(items[k], x)
    {
      var sub := CollectNumericValues(items[n]);
      numbers := numbers + sub;
    }
  }

  method CollectFields(j: Json, fields: map<string, Json>) returns (numbers: seq<Float>)
    requires j == Obj(fields)
    ensures forall x :: Finite(x) in numbers <==> exists k :: k in fields && IsLeaf(fields[k], x)
    decreases j, 0
  {
    numbers := [];
    var pending := fields.Keys;
    while pending != {}
      invariant pending <= fields.Keys
      invariant forall x :: Finite(x) in numbers <==> exists k :: k in fields && k !in pending && IsLeaf(fields[k], x)
      decreases |pending|
    {
      var key :| key in pending;
      var sub := CollectNumericValues(fields[key]);
      ghost var before := numbers;
      numbers := numbers + sub;
      forall x ensures Finite(x) in numbers <==>
        exists k :: k in fields && k !in pending - {key} && IsLeaf(fields[k], x) {
        assert Finite(x) in numbers <==> Finite(x) in before || IsLeaf(fields[key], x);
      }
      pending := pending - {key};
    }
  }

  // ---------------------------------------------------------------- what is checked

  /** The run a report is checked against. `support` holds the numbers read from result artifacts; without it
      the summaries of the evidence are used and unsupported numbers only warn. */
  datatype Context = Context(
    evidence: seq<EvidenceRecord>,
    relations: seq<EvidenceRelation>,
    allowed: Option<set<EvidenceId>>,
    support: Option<map<EvidenceId, seq<Float>>>,
    stopCode: Option<StopCode>,
    incomplete: seq<GoalId>,
    pending: seq<TaskId>,
    unresolved: seq<(EvidenceId, EvidenceId)>)

  function Known(ctx: Context): set<EvidenceId> {
    EvidenceIds(ctx.evidence)
  }

  predicate IsSuperseded(ctx: Context, id: EvidenceId) {
    Superseded(ctx.relations, id)
  }

  predicate Citable(ctx: Context, id: EvidenceId) {
    if ctx.allowed.Some? then id in ctx.allowed.value else id in Known(ctx) && !IsSuperseded(ctx, id)
  }

  /** Numbers a cited record puts at the disposal of the line that cites it. */
  predicate Offers(ctx: Context, id: EvidenceId, x: real) {
    match ctx.support
    case Some(numbers) => id in numbers && Finite(x) in numbers[id]
    case None =>
      var record := RecordOf(ctx.evidence, id);
      record.Some? && (|| (exists e | e in record.value.effects :: e.value == x)
                       || (exists k | k in record.value.uncertainty :: IsLeaf(record.value.uncertainty[k], x)))
  }

  ghost predicate Supported(ctx: Context, line: Line, t: Token) {
    exists id, x :: id in line.citations && id in Known(ctx) && Citable(ctx, id) && Offers(ctx, id, x) && States(t, x)
  }

  datatype Fault =
    | EmptySection(section: Section)
    | NoCitation
    | UnknownCitation(id: EvidenceId)
    | SupersededCitation(id: EvidenceId)
    | InapplicableCitation(id: EvidenceId)
    | Uncited(section: Section, line: nat)
    | Unsupported(line: nat, token: Token)
    | WrongStopMarker
    | HiddenGoal(goal: GoalId)
    | HiddenTask(task: TaskId)
    | HiddenConflict(left: EvidenceId, right: EvidenceId)

  function AllCitations(lines: seq<Line>, n: nat): seq<EvidenceId>
    requires n <= |lines|
  {
    if n == 0 then [] else AllCitations(lines, n - 1) + lines[n - 1].citations
  }

  function AllStops(lines: seq<Line>, n: nat): seq<Option<StopCode>>
    requires n <= |lines|
  {
    if n == 0 then [] else AllStops(lines, n - 1) + lines[n - 1].stops
  }

  lemma {:induction false} AllCitationsIff(lines: seq<Line>, n: nat, id: EvidenceId)
    requires n <= |lines|
    ensures id in AllCitations(lines, n) <==> exists k :: 0 <= k < n && id in lines[k].citations
  {
    if n > 0 {
      AllCitationsIff(lines, n - 1, id);
    }
  }

  lemma {:induction false} NoStops(lines: seq<Line>, n: nat)
    requires n <= |lines|
    ensures AllStops(lines, n) == [] <==> forall k :: 0 <= k < n ==> lines[k].stops == []
  {
    if n > 0 {
      NoStops(lines, n - 1);
    }
  }

  /** One line has one stop marker, and no other line has any. */
  ghost predicate SingleStop(lines: seq<Line>, n: nat, x: Option<StopCode>) {
    n <= |lines| &&
    exists k :: 0 <= k < n && lines[k].stops == [x] && forall j :: 0 <= j < n && j != k ==> lines[j].stops == []
  }

  lemma {:induction false} SingleStopIff(lines: seq<Line>, n: nat, x: Option<StopCode>)
    requires n <= |lines|
    ensures AllStops(lines, n) == [x] <==> SingleStop(lines, n, x)
  {
    if n > 0 {
      SingleStopIff(lines, n - 1, x);
      NoStops(lines, n - 1);
      var before, last := AllStops(lines, n - 1), lines[n - 1].stops;
      if AllStops(lines, n) == [x] {
        assert before == [] || last == [] by {
          assert |before| + |last| == 1;
        }
        assert before == [] ==> last == [x];
      }
      if SingleStop(lines, n, x) {
        var k :| 0 <= k < n && lines[k].stops == [x] && forall j :: 0 <= j < n && j != k ==> lines[j].stops == [];
        if k == n - 1 {
          assert before == [];
        } else {
          assert last == [] && SingleStop(lines, n - 1, x);
        }
      }
    }
  }

  predicate Cited(lines: seq<Line>, id: EvidenceId) {
    id in AllCitations(lines, |lines|)
  }

  /** A content line of a section that must cite. */
  ghost predicate Content(lines: seq<Line>, n: nat, s: Section) {
    (s == Conclusions || s == GoalEvidence) && Belongs(lines, n, s) && !lines[n].blank && !lines[n].rule
  }

  ghost predicate LimitLine(lines: seq<Line>, n: nat) {
    Belongs(lines, n, Limits)
  }

  /** What each fault says of the report. */
  ghost predicate Faulty(lines: seq<Line>, ctx: Context, f: Fault) {
    match f
    case EmptySection(s) => forall n: nat :: Belongs(lines, n, s) ==> lines[n].blank
    case NoCitation => (exists id :: Citable(ctx, id)) && AllCitations(lines, |lines|) == []
    case UnknownCitation(id) => Cited(lines, id) && id !in Known(ctx)
    case SupersededCitation(id) => Cited(lines, id) && id in Known(ctx) && IsSuperseded(ctx, id)
    case InapplicableCitation(id) => Cited(lines, id) && id in Known(ctx) && !IsSuperseded(ctx, id) && !Citable(ctx, id)
    case Uncited(s, n) => Content(lines, n, s) && lines[n].citations == []
    case Unsupported(n, t) =>
      (Content(lines, n, Conclusions) || Content(lines, n, GoalEvidence))
      && lines[n].citations != [] && t in lines[n].numbers && !Supported(ctx, lines[n], t)
    case WrongStopMarker => ctx.stopCode.Some? && AllStops(lines, |lines|) != [ctx.stopCode]
    case HiddenGoal(g) => g in ctx.incomplete && forall n: nat :: LimitLine(lines, n) ==> g !in lines[n].goals
    case HiddenTask(t) => t in ctx.pending && forall n: nat :: LimitLine(lines, n) ==> t !in lines[n].tasks
    case HiddenConflict(a, b) =>
      (a, b) in ctx.unresolved
      && ((forall n: nat :: LimitLine(lines, n) ==> a !in lines[n].citations)
          || (forall n: nat :: LimitLine(lines, n) ==> b !in lines[n].citations))
  }

  /** Faults that refuse the report; a number without support only warns when no artifact was read. */
  ghost predicate Refuses(lines: seq<Line>, ctx: Context, f: Fault) {
    Faulty(lines, ctx, f) && (f.Unsupported? ==> ctx.support.Some?)
  }

  // ---------------------------------------------------------------- the checks as loops

  method CheckSections(lines: seq<Line>, ctx: Context, sections: map<Section, seq<nat>>) returns (faults: seq<Fault>)
    requires forall s :: s in sections && Lists(lines, |lines|, s, sections[s])
    ensures forall f :: f in faults <==> f.EmptySection? && Faulty(lines, ctx, f)
  {
    faults := [];
    var required := [StatusSection, Conclusions, GoalEvidence, Limits];
    for k := 0 to 4
      invariant forall f :: f in faults <==> f.EmptySection? && f.section in required[..k] && Faulty(lines, ctx, f)
    {
      var s := required[k];
      assert required[..k + 1] == required[..k] + [s];
      var written := exists n | n in sections[s] :: !lines[n].blank;
      assert written <==> !Faulty(lines, ctx, EmptySection(s));
      if !written {
        faults := faults + [EmptySection(s)];
      }
    }
    forall s: Section ensures s in required[..4] {
      match s
      case StatusSection => assert required[..4][0] == s;
      case Conclusions => assert required[..4][1] == s;
      case GoalEvidence => assert required[..4][2] == s;
      case Limits => assert required[..4][3] == s;
    }
  }

  lemma Member<T>(s: set<T>) returns (x: T)
    requires s != {}
    ensures x in s
  {
    x :| x in s;
  }

  method CheckCitations(lines: seq<Line>, ctx: Context) returns (faults: seq<Fault>)
    ensures forall f :: f in faults <==>
      (f.NoCitation? || f.UnknownCitation? || f.SupersededCitation? || f.InapplicableCitation?) && Faulty(lines, ctx, f)
  {
    var all := AllCitations(lines, |lines|);
    var allowed := if ctx.allowed.Some? then ctx.allowed.value
                   else set id | id in Known(ctx) && !IsSuperseded(ctx, id);
    assert forall id :: id in allowed <==> Citable(ctx, id);
    faults := [];
    if allowed != {} && all == [] {
      faults := [NoCitation];
    }
    if allowed != {} {
      var id := Member(allowed);
      assert Citable(ctx, id);
    }
    for k := 0 to |all|
      invariant NoCitation in faults <==> Faulty(lines, ctx, NoCitation)
      invariant forall f :: f in faults && f != NoCitation <==>
        (f.UnknownCitation? || f.SupersededCitation? || f.InapplicableCitation?) && f.id in all[..k]
          && Faulty(lines, ctx, f)
    {
      var id := all[k];
      assert all[..k + 1] == all[..k] + [id];
      assert Cited(lines, id);
      if id in all[..k] {
        continue;
      }
      if id !in Known(ctx) {
        faults := faults + [UnknownCitation(id)];
      } else if IsSuperseded(ctx, id) {
        faults := faults + [SupersededCitation(id)];
      } else if id !in allowed {
        faults := faults + [InapplicableCitation(id)];
      }
    }
    assert all[..|all|] == all;
  }

  /** `_evidence_numbers`: the effects of a record and the numeric leaves of its uncertainty summary. */
  method EvidenceNumbers(record: EvidenceRecord) returns (numbers: seq<Float>)
    ensures forall x :: Finite(x) in numbers <==>
      (exists e :: e in record.effects && e.value == x)
        || (exists k :: k in record.uncertainty && IsLeaf(record.uncertainty[k], x))
  {
    numbers := [];
    for n := 0 to |record.effects|
      invariant forall x :: Finite(x) in numbers <==> exists e :: e in record.effects[..n] && e.value == x
    {
      assert record.effects[..n + 1] == record.effects[..n] + [record.effects[n]];
      numbers := numbers + [Finite(record.effects[n].value)];
    }
    assert record.effects[..|record.effects|] == record.effects;
    var rest := CollectFields(Obj(record.uncertainty), record.uncertainty);
    numbers := numbers + rest;
  }

  method OfferedNumbers(ctx: Context, id: EvidenceId) returns (numbers: seq<Float>)
    ensures forall x :: Finite(x) in numbers <==> Offers(ctx, id, x)
  {
    match ctx.support
    case Some(read) =>
      numbers := if id in read then read[id] else [];
    case None =>
      var record := RecordOf(ctx.evidence, id);
      if record.None? {
        return [];
      }
      numbers := EvidenceNumbers(record.value);
  }

  predicate OffersOnLine(ctx: Context, id: EvidenceId, x: real) {
    id in Known(ctx) && Citable(ctx, id) && Offers(ctx, id, x)
  }

  method LineNumbers(ctx: Context, citations: seq<EvidenceId>) returns (numbers: seq<Float>)
    ensures forall x :: Finite(x) in numbers <==> exists id :: id in citations && OffersOnLine(ctx, id, x)
  {
    numbers := [];
    for n := 0 to |citations|
      invariant forall x :: Finite(x) in numbers <==> exists id :: id in citations[..n] && OffersOnLine(ctx, id, x)
    {
      var id := citations[n];
      assert citations[..n + 1] == citations[..n] + [id];
      if id !in Known(ctx) || !Citable(ctx, id) {
        continue;
      }
      var offered := OfferedNumbers(ctx, id);
      ghost var before := numbers;
      numbers := numbers + offered;
      forall x ensures Finite(x) in numbers <==> exists i :: i in citations[..n + 1] && OffersOnLine(ctx, i, x) {
        assert Finite(x) in numbers <==> Finite(x) in before || OffersOnLine(ctx, id, x);
      }
    }
    assert citations[..|citations|] == citations;
  }

  /** The numeric tokens of one cited line that no number of its cited records supports. */
  method UnsupportedTokens(ctx: Context, line: Line) returns (tokens: seq<Token>)
    ensures forall t :: t in tokens <==> t in line.numbers && !Supported(ctx, line, t)
  {
    var allowed := LineNumbers(ctx, line.citations);
    tokens := [];
    for n := 0 to |line.numbers|
      invariant forall t :: t in tokens <==> t in line.numbers[..n] && !Supported(ctx, line, t)
    {
      var t := line.numbers[n];
      assert line.numbers[..n + 1] == line.numbers[..n] + [t];
      assert NumberSupported(t, allowed) <==> Supported(ctx, line, t) by {
        if f :| f in allowed && f.Finite? && States(t, f.r) {
          assert Finite(f.r) in allowed;
          var id :| id in line.citations && OffersOnLine(ctx, id, f.r);
          assert Supported(ctx, line, t);
        }
        if id, x :| id in line.citations && id in Known(ctx) && Citable(ctx, id) && Offers(ctx, id, x) && States(t, x) {
          assert OffersOnLine(ctx, id, x) && Finite(x) in allowed;
        }
      }
      if !NumberSupported(t, allowed) {
        tokens := tokens + [t];
      }
    }
    assert line.numbers[..|line.numbers|] == line.numbers;
  }

  /** The line loop over one cited section. */
  method CheckSection(lines: seq<Line>, ctx: Context, s: Section, listed: seq<nat>)
    returns (uncited: seq<Fault>, unsupported: seq<Fault>)
    requires s == Conclusions || s == GoalEvidence
    requires Lists(lines, |lines|, s, listed)
    ensures forall f :: f in uncited <==> f.Uncited? && f.section == s && Faulty(lines, ctx, f)
    ensures forall f :: f in unsupported <==> f.Unsupported? && UnsupportedIn(lines, ctx, s, f.line, f.token)
  {
    uncited, unsupported := [], [];
    for k := 0 to |listed|
      invariant forall f :: f in uncited <==>
        f.Uncited? && f.section == s && f.line in listed[..k] && Faulty(lines, ctx, f)
      invariant forall f :: f in unsupported <==>
        f.Unsupported? && f.line in listed[..k] && UnsupportedIn(lines, ctx, s, f.line, f.token)
    {
      var n := listed[k];
      assert listed[..k + 1] == listed[..k] + [n];
      assert n in listed;
      assert Content(lines, n, s) <==> !lines[n].blank && !lines[n].rule;
      if lines[n].blank || lines[n].rule {
        continue;
      }
      if lines[n].citations == [] {
        uncited := uncited + [Uncited(s, n)];
        continue;
      }
      var tokens := UnsupportedTokens(ctx, lines[n]);
      var found := TokenFaults(n, tokens);
      unsupported := unsupported + found;
    }
    assert listed[..|listed|] == listed;
  }

  ghost predicate UnsupportedIn(lines: seq<Line>, ctx: Context, s: Section, n: nat, t: Token) {
    Content(lines, n, s) && lines[n].citations != [] && t in lines[n].numbers && !Supported(ctx, lines[n], t)
  }

  method TokenFaults(n: nat, tokens: seq<Token>) returns (faults: seq<Fault>)
    ensures forall f :: f in faults <==> f.Unsupported? && f.line == n && f.token in tokens
  {
    faults := [];
    for k := 0 to |tokens|
      invariant forall f :: f in faults <==> f.Unsupported? && f.line == n && f.token in tokens[..k]
    {
      assert tokens[..k + 1] == tokens[..k] + [tokens[k]];
      faults := faults + [Unsupported(n, tokens[k])];
    }
    assert tokens[..|tokens|] == tokens;
  }

  /** The markers and citations found on limit lines. */
  method LimitMarkers(lines: seq<Line>, listed: seq<nat>)
    returns (goals: set<GoalId>, tasks: set<TaskId>, citations: set<EvidenceId>)
    requires Lists(lines, |lines|, Limits, listed)
    ensures forall g :: g in goals <==> exists n: nat :: LimitLine(lines, n) && g in lines[n].goals
    ensures forall t :: t in tasks <==> exists n: nat :: LimitLine(lines, n) && t in lines[n].tasks
    ensures forall e :: e in citations <==> exists n: nat :: LimitLine(lines, n) && e in lines[n].citations
  {
    goals, tasks, citations := {}, {}, {};
    for k := 0 to |listed|
      invariant forall g :: g in goals <==>
        exists n: nat :: n in listed[..k] && LimitLine(lines, n) && g in lines[n].goals
      invariant forall t :: t in tasks <==>
        exists n: nat :: n in listed[..k] && LimitLine(lines, n) && t in lines[n].tasks
      invariant forall e :: e in citations <==>
        exists n: nat :: n in listed[..k] && LimitLine(lines, n) && e in lines[n].citations
    {
      var n := listed[k];
      assert listed[..k + 1] == listed[..k] + [n];
      assert n in listed && LimitLine(lines, n);
      goals := goals + ToSet(lines[n].goals);
      tasks := tasks + ToSet(lines[n].tasks);
      citations := citations + ToSet(lines[n].citations);
    }
    assert listed[..|listed|] == listed;
  }

  method CheckLimits(lines: seq<Line>, ctx: Context, listed: seq<nat>) returns (faults: seq<Fault>)
    requires Lists(lines, |lines|, Limits, listed)
    ensures forall f :: f in faults <==> (f.HiddenGoal? || f.HiddenTask? || f.HiddenConflict?) && Faulty(lines, ctx, f)
  {
    var goals, tasks, citations := LimitMarkers(lines, listed);
    var hidden: seq<Fault> := [];
    for k := 0 to |ctx.incomplete|
      invariant forall f :: f in hidden <==> f.HiddenGoal? && f.goal in ctx.incomplete[..k] && Faulty(lines, ctx, f)
    {
      var g := ctx.incomplete[k];
      assert ctx.incomplete[..k + 1] == ctx.incomplete[..k] + [g];
      if g !in goals {
        hidden := hidden + [HiddenGoal(g)];
      }
    }
    assert ctx.incomplete[..|ctx.incomplete|] == ctx.incomplete;
    faults := hidden;
    hidden := [];
    for k := 0 to |ctx.pending|
      invariant forall f :: f in hidden <==> f.HiddenTask? && f.task in ctx.pending[..k] && Faulty(lines, ctx, f)
    {
      var t := ctx.pending[k];
      assert ctx.pending[..k + 1] == ctx.pending[..k] + [t];
      if t !in tasks {
        hidden := hidden + [HiddenTask(t)];
      }
    }
    assert ctx.pending[..|ctx.pending|] == ctx.pending;
    faults := faults + hidden;
    var conflicts := CheckConflicts(lines, ctx, citations);
    faults := faults + conflicts;
  }

  method CheckConflicts(lines: seq<Line>, ctx: Context, citations: set<EvidenceId>) returns (faults: seq<Fault>)
    requires forall e :: e in citations <==> exists n: nat :: LimitLine(lines, n) && e in lines[n].citations
    ensures forall f :: f in faults <==> f.HiddenConflict? && Faulty(lines, ctx, f)
  {
    faults := [];
    for k := 0 to |ctx.unresolved|
      invariant forall f :: f in faults <==>
        f.HiddenConflict? && (f.left, f.right) in ctx.unresolved[..k] && Faulty(lines, ctx, f)
    {
      var pair := ctx.unresolved[k];
      assert ctx.unresolved[..k + 1] == ctx.unresolved[..k] + [pair];
      if !({pair.0, pair.1} <= citations) {
        faults := faults + [HiddenConflict(pair.0, pair.1)];
      }
    }
    assert ctx.unresolved[..|ctx.unresolved|] == ctx.unresolved;
  }

  // ---------------------------------------------------------------- validate_report

  /** `validate_report`: the errors are exactly the faults that refuse a report, the warnings exactly the
      unsupported numbers of a report checked without artifacts. */
  method ValidateReport(lines: seq<Line>, ctx: Context) returns (passed: bool, errors: seq<Fault>, warnings: seq<Fault>)
    ensures forall f :: f in errors <==> Refuses(lines, ctx, f)
    ensures forall f :: f in warnings <==> Faulty(lines, ctx, f) && !Refuses(lines, ctx, f)
    ensures passed <==> forall f :: !Refuses(lines, ctx, f)
  {
    var sections := SectionLines(lines);
    var structure := CheckSections(lines, ctx, sections);
    var citations := CheckCitations(lines, ctx);
    var uncitedA, unsupportedA := CheckSection(lines, ctx, Conclusions, sections[Conclusions]);
    var uncitedB, unsupportedB := CheckSection(lines, ctx, GoalEvidence, sections[GoalEvidence]);
    var stop := if ctx.stopCode.Some? && AllStops(lines, |lines|) != [ctx.stopCode] then [WrongStopMarker] else [];
    var limits := CheckLimits(lines, ctx, sections[Limits]);
    var certain := structure + citations + uncitedA + uncitedB + stop + limits;
    var numbers := unsupportedA + unsupportedB;
    assert forall f: Fault :: f in numbers <==> f.Unsupported? && Faulty(lines, ctx, f);
    forall f: Fault ensures f in certain <==> !f.Unsupported? && Faulty(lines, ctx, f) {
      assert f.Uncited? ==> (Faulty(lines, ctx, f) ==> f.section == Conclusions || f.section == GoalEvidence);
    }
    errors := if ctx.support.Some? then certain + numbers else certain;
    warnings := if ctx.support.Some? then [] else numbers;
    passed := errors == [];
    if !passed {
      assert Refuses(lines, ctx, errors[0]);
    }
  }
}
