/** Numeric provenance: a critic's summary is accepted only where each of its items equals the value
    that its path denotes in the JSON result, and is then rebuilt from that result. */
module Numeric {
  import opened Contracts

  // ---------------------------------------------------------------- paths

  /** The child a path part selects: a string is a key of an object, an integer an index of a list. */
  function Child(j: Json, part: PathPart): Option<Json> {
    match (j, part)
    case (Obj(fields), Key(k)) => if k in fields then Some(fields[k]) else None
    case (List(items), Index(i)) => if 0 <= i < |items| then Some(items[i]) else None
    case _ => None
  }

  /** The value a path denotes, read from the root. */
  function Denotes(j: Json, path: ResultPath): Option<Json>
    decreases |path|
  {
    if path == [] then Some(j)
    else
      match Child(j, path[0])
      case Some(child) => Denotes(child, path[1..])
      case None => None
  }

  /** `v` stands at `path` below `j`: every part is a key of the object or an index of the list before it. */
  ghost predicate IsNode(j: Json, path: ResultPath, v: Json)
    decreases |path|
  {
    if path == [] then v == j
    else
      var front, last := path[..|path| - 1], path[|path| - 1];
      exists u :: IsNode(j, front, u) && HasChild(u, last, v)
  }

  predicate HasChild(u: Json, part: PathPart, v: Json) {
    || (part.Key? && u.Obj? && part.key in u.fields && u.fields[part.key] == v)
    || (part.Index? && u.List? && 0 <= part.index < |u.items| && u.items[part.index] == v)
  }

  lemma {:induction false} DenotesSteps(j: Json, path: ResultPath)
    requires path != []
    ensures var front := Denotes(j, path[..|path| - 1]);
      Denotes(j, path) == if front.Some? then Child(front.value, path[|path| - 1]) else None
    decreases |path|
  {
    if |path| > 1 && Child(j, path[0]).Some? {
      var rest := path[1..];
      DenotesSteps(Child(j, path[0]).value, rest);
      assert path[..|path| - 1][1..] == rest[..|rest| - 1] && rest[|rest| - 1] == path[|path| - 1];
    } else if |path| == 1 {
      assert path[1..] == [] && path[..0] == [];
    }
  }

  /** A path denotes exactly the value that stands at it. */
  lemma {:induction false} DenotesIff(j: Json, path: ResultPath, v: Json)
    ensures Denotes(j, path) == Some(v) <==> IsNode(j, path, v)
    decreases |path|
  {
    if path != [] {
      var front, last := path[..|path| - 1], path[|path| - 1];
      DenotesSteps(j, path);
      if Denotes(j, path) == Some(v) {
        DenotesIff(j, front, Denotes(j, front).value);
        assert HasChild(Denotes(j, front).value, last, v);
      }
      if IsNode(j, path, v) {
        var u :| IsNode(j, front, u) && HasChild(u, last, v);
        DenotesIff(j, front, u);
      }
    }
  }

  /** An absent or empty path denotes nothing. */
  function Resolve(result: Json, path: Option<ResultPath>): Option<Json> {
    if path.None? || path.value == [] then None else Denotes(result, path.value)
  }

  method ResolveResultPath(result: Json, path: Option<ResultPath>) returns (r: Option<Json>)
    ensures r == Resolve(result, path)
  {
    if path.None? || path.value == [] {
      return None;
    }
    var parts := path.value;
    var current := result;
    for k := 0 to |parts|
      invariant Denotes(result, parts) == Denotes(current, parts[k..])
    {
      match Child(current, parts[k])
      case Some(child) =>
        assert parts[k..][1..] == parts[k + 1..];
        current := child;
      case None =>
        return None;
    }
    return Some(current);
  }

  // ---------------------------------------------------------------- comparison

  function Number(j: Json): Option<real> {
    match j
    case Int(i) => Some(i as real)
    case Flt(Finite(r)) => Some(r)
    case _ => None
  }

  predicate IsNumeric(j: Json) {
    j.Int? || j.Flt?
  }

  predicate AllFinite(j: Json) {
    match j
    case Flt(f) => f.Finite?
    case List(items) => forall k | 0 <= k < |items| :: AllFinite(items[k])
    case Obj(fields) => forall k | k in fields :: AllFinite(fields[k])
    case _ => true
  }

  /** `_same_value`: numbers compare by value, everything else by type and structure. */
  predicate SameValue(claimed: Json, source: Json)
    decreases source
  {
    if IsNumeric(source) then
      IsNumeric(claimed) && Number(source).Some? && Number(claimed).Some? && Number(claimed) == Number(source)
    else
      match (claimed, source)
      case (Obj(cs), Obj(ss)) => cs.Keys == ss.Keys && forall k | k in ss :: SameValue(cs[k], ss[k])
      case (List(cs), List(ss)) => |cs| == |ss| && forall k | 0 <= k < |ss| :: SameValue(cs[k], ss[k])
      case (Bool(a), Bool(b)) => a == b
      case (Str(a), Str(b)) => a == b
      case (Null, Null) => true
      case _ => false
  }

  lemma {:induction false} SameValueSymmetric(a: Json, b: Json)
    requires SameValue(a, b)
    ensures SameValue(b, a)
    decreases b
  {
    match (a, b)
    case (Obj(xs), Obj(ys)) =>
      forall k | k in xs ensures SameValue(ys[k], xs[k]) { SameValueSymmetric(xs[k], ys[k]); }
    case (List(xs), List(ys)) =>
      forall k | 0 <= k < |xs| ensures SameValue(ys[k], xs[k]) { SameValueSymmetric(xs[k], ys[k]); }
    case _ =>
  }

  lemma {:induction false} SameValueTransitive(a: Json, b: Json, c: Json)
    requires SameValue(a, b) && SameValue(b, c)
    ensures SameValue(a, c)
    decreases c
  {
    match (a, b, c)
    case (Obj(xs), Obj(ys), Obj(zs)) =>
      forall k | k in zs ensures SameValue(xs[k], zs[k]) { SameValueTransitive(xs[k], ys[k], zs[k]); }
    case (List(xs), List(ys), List(zs)) =>
      forall k | 0 <= k < |zs| ensures SameValue(xs[k], zs[k]) { SameValueTransitive(xs[k], ys[k], zs[k]); }
    case _ =>
  }

  /** A value equals itself exactly when no NaN or infinity occurs in it. */
  lemma {:induction false} SameValueReflexiveIffFinite(a: Json)
    ensures SameValue(a, a) <==> AllFinite(a)
  {
    match a
    case Obj(xs) => forall k | k in xs { SameValueReflexiveIffFinite(xs[k]); }
    case List(xs) => forall k | 0 <= k < |xs| { SameValueReflexiveIffFinite(xs[k]); }
    case _ =>
  }

  lemma SameValueIsFinite(a: Json, b: Json)
    requires SameValue(a, b)
    ensures AllFinite(b) && SameValue(b, b)
  {
    SameValueSymmetric(a, b);
    SameValueTransitive(b, a, b);
    SameValueReflexiveIffFinite(b);
  }

  /** A value with its numbers read as reals, whole numbers and fractions alike. */
  datatype Canonical =
    | NumberOf(r: real) | NotFinite | Nothing | Truth(b: bool) | Text(s: string)
    | Items(items: seq<Canonical>) | Fields(fields: map<string, Canonical>)

  function Canon(j: Json): Canonical {
    match j
    case Null => Nothing
    case Bool(b) => Truth(b)
    case Int(i) => NumberOf(i as real)
    case Flt(Finite(r)) => NumberOf(r)
    case Flt(_) => NotFinite
    case Str(s) => Text(s)
    case List(items) => Items(seq(|items|, k requires 0 <= k < |items| => Canon(items[k])))
    case Obj(fields) => Fields(map k | k in fields :: Canon(fields[k]))
  }

  /** Two values compare as equal exactly when both are finite throughout and read the same. */
  lemma {:induction false} SameValueIff(a: Json, b: Json)
    ensures SameValue(a, b) <==> AllFinite(a) && AllFinite(b) && Canon(a) == Canon(b)
    decreases b
  {
    match (a, b)
    case (List(xs), List(ys)) =>
      if |xs| == |ys| {
        forall k | 0 <= k < |ys|
          ensures SameValue(xs[k], ys[k]) <==> AllFinite(xs[k]) && AllFinite(ys[k]) && Canon(xs[k]) == Canon(ys[k])
        {
          SameValueIff(xs[k], ys[k]);
        }
        ItemsEqual(xs, ys);
      } else {
        assert |Canon(a).items| == |xs| && |Canon(b).items| == |ys|;
      }
    case (Obj(xs), Obj(ys)) =>
      if xs.Keys == ys.Keys {
        forall k | k in ys
          ensures SameValue(xs[k], ys[k]) <==> AllFinite(xs[k]) && AllFinite(ys[k]) && Canon(xs[k]) == Canon(ys[k])
        {
          SameValueIff(xs[k], ys[k]);
        }
        FieldsEqual(xs, ys);
      } else {
        assert Canon(a).fields.Keys == xs.Keys && Canon(b).fields.Keys == ys.Keys;
      }
    case _ =>
  }

  lemma ItemsEqual(xs: seq<Json>, ys: seq<Json>)
    requires |xs| == |ys|
    ensures Canon(List(xs)) == Canon(List(ys)) <==> forall k :: 0 <= k < |ys| ==> Canon(xs[k]) == Canon(ys[k])
  {
    var cx, cy := Canon(List(xs)).items, Canon(List(ys)).items;
    if cx == cy {
      forall k | 0 <= k < |ys| ensures Canon(xs[k]) == Canon(ys[k]) {
        assert cx[k] == cy[k];
      }
    }
  }

  lemma FieldsEqual(xs: map<string, Json>, ys: map<string, Json>)
    requires xs.Keys == ys.Keys
    ensures Canon(Obj(xs)) == Canon(Obj(ys)) <==> forall k :: k in ys ==> Canon(xs[k]) == Canon(ys[k])
  {
    var cx, cy := Canon(Obj(xs)).fields, Canon(Obj(ys)).fields;
    if cx == cy {
      forall k | k in ys ensures Canon(xs[k]) == Canon(ys[k]) {
        assert cx[k] == cy[k];
      }
    }
  }

  // ---------------------------------------------------------------- binding

  function UnitJson(unit: Option<string>): Json {
    match unit case Some(u) => Str(u) case None => Null
  }

  function GetOrNull(fields: map<string, Json>, key: string): Json {
    if key in fields then fields[key] else Null
  }

  /** The effect object at the effect's path states the same five fields. */
  predicate EffectStated(e: Effect, fields: map<string, Json>) {
    && "column" in fields && SameValue(Str(e.column), fields["column"])
    && "metric" in fields && SameValue(Str(e.metric), fields["metric"])
    && "value" in fields && SameValue(Flt(Finite(e.value)), fields["value"])
    && "directional" in fields && SameValue(Bool(e.directional), fields["directional"])
    && SameValue(UnitJson(e.unit), GetOrNull(fields, "unit"))
  }

  predicate EffectBound(e: Effect, result: Json) {
    var source := Resolve(result, e.sourcePath);
    source.Some? && source.value.Obj? && EffectStated(e, source.value.fields)
  }

  predicate UncertaintyBound(claims: map<string, Json>, paths: map<string, ResultPath>, result: Json) {
    && claims.Keys == paths.Keys
    && forall k | k in claims ::
         var source := Resolve(result, Some(paths[k]));
         source.Some? && SameValue(claims[k], source.value)
  }

  /** What it means for a summary to be taken from a result. */
  predicate Bound(effects: seq<Effect>, claims: map<string, Json>, paths: map<string, ResultPath>, result: Json) {
    && (forall e | e in effects :: EffectBound(e, result))
    && UncertaintyBound(claims, paths, result)
  }

  /** An effect estimate rebuilt from the fields of a source object. */
  function ReadEffect(fields: map<string, Json>, path: Option<ResultPath>): Effect
    requires "column" in fields && fields["column"].Str?
    requires "metric" in fields && fields["metric"].Str?
    requires "value" in fields && Number(fields["value"]).Some?
    requires "directional" in fields && fields["directional"].Bool?
  {
    Effect(fields["column"].s, fields["metric"].s, Number(fields["value"]).value, fields["directional"].b,
           if "unit" in fields && fields["unit"].Str? then Some(fields["unit"].s) else None, path)
  }

  function ReadBack(e: Effect, result: Json): Effect
    requires EffectBound(e, result)
  {
    ReadEffect(Resolve(result, e.sourcePath).value.fields, e.sourcePath)
  }

  function ReadEffects(effects: seq<Effect>, result: Json): seq<Effect>
    requires forall e :: e in effects ==> EffectBound(e, result)
  {
    seq(|effects|, i requires 0 <= i < |effects| => assert effects[i] in effects; ReadBack(effects[i], result))
  }

  function ReadUncertainty(paths: map<string, ResultPath>, result: Json): map<string, Json>
    requires forall k | k in paths :: Resolve(result, Some(paths[k])).Some?
  {
    map k | k in paths :: Resolve(result, Some(paths[k])).value
  }

  function Bind(review: CriticReview, result: Json): Option<CriticReview> {
    if Bound(review.effects, review.uncertainty, review.uncertaintyPaths, result) then
      Some(review.(effects := ReadEffects(review.effects, result),
                   uncertainty := ReadUncertainty(review.uncertaintyPaths, result)))
    else None
  }

  /** The effect loop of `bind_review_to_result`; `None` where the source raises. */
  method BindEffects(claimed: seq<Effect>, result: Json) returns (effects: Option<seq<Effect>>)
    ensures effects.Some? <==> forall e :: e in claimed ==> EffectBound(e, result)
    ensures effects.Some? ==> effects.value == ReadEffects(claimed, result)
  {
    var bound: seq<Effect> := [];
    for k := 0 to |claimed|
      invariant |bound| == k
      invariant forall i :: 0 <= i < k ==> EffectBound(claimed[i], result) && bound[i] == ReadBack(claimed[i], result)
    {
      var effect := claimed[k];
      var source := ResolveResultPath(result, effect.sourcePath);
      if source.None? || !source.value.Obj? || !EffectStated(effect, source.value.fields) {
        assert effect in claimed && !EffectBound(effect, result);
        return None;
      }
      bound := bound + [ReadBack(effect, result)];
    }
    return Some(bound);
  }

  /** The uncertainty loop of `bind_review_to_result`. */
  method BindUncertainty(claimed: map<string, Json>, paths: map<string, ResultPath>, result: Json)
    returns (uncertainty: Option<map<string, Json>>)
    ensures uncertainty.Some? <==> UncertaintyBound(claimed, paths, result)
    ensures uncertainty.Some? ==> uncertainty.value == ReadUncertainty(paths, result)
  {
    if claimed.Keys != paths.Keys {
      return None;
    }
    var pending := claimed.Keys;
    var bound: map<string, Json> := map[];
    while pending != {}
      invariant pending <= claimed.Keys
      invariant bound.Keys == claimed.Keys - pending
      invariant forall k :: k in bound ==>
        var source := Resolve(result, Some(paths[k]));
        source.Some? && SameValue(claimed[k], source.value) && bound[k] == source.value
    {
      var k :| k in pending;
      var source := ResolveResultPath(result, Some(paths[k]));
      if source.None? || !SameValue(claimed[k], source.value) {
        return None;
      }
      bound := bound[k := source.value];
      pending := pending - {k};
    }
    assert bound == ReadUncertainty(paths, result);
    return Some(bound);
  }

  /** `bind_review_to_result`. */
  method BindReviewToResult(review: CriticReview, result: Json) returns (r: Option<CriticReview>)
    ensures r == Bind(review, result)
    ensures r.Some? <==> Stated(review, result)
    ensures r.Some? ==>
      && r.value == review.(uncertainty := r.value.uncertainty)
      && r.value.uncertainty.Keys == review.uncertainty.Keys
      && (forall k :: k in review.uncertainty ==> ReadsFrom(review, r.value, result, k))
  {
    BindMeaning(review, result);
    var effects := BindEffects(review.effects, result);
    if effects.None? {
      return None;
    }
    var uncertainty := BindUncertainty(review.uncertainty, review.uncertaintyPaths, result);
    if uncertainty.None? {
      return None;
    }
    return Some(review.(effects := effects.value, uncertainty := uncertainty.value));
  }

  /** The object states the claimed effect: text, truth and number fields alike, a whole number for a whole value
      included; no unit may be claimed where none or null is given. */
  predicate StatesEffect(fields: map<string, Json>, e: Effect) {
    && "column" in fields && fields["column"] == Str(e.column)
    && "metric" in fields && fields["metric"] == Str(e.metric)
    && "value" in fields
    && (fields["value"] == Flt(Finite(e.value)) || (fields["value"].Int? && fields["value"].i as real == e.value))
    && "directional" in fields && fields["directional"] == Bool(e.directional)
    && (if e.unit.Some? then "unit" in fields && fields["unit"] == Str(e.unit.value)
        else "unit" in fields ==> fields["unit"] == Null)
  }

  ghost predicate EffectFound(e: Effect, result: Json) {
    && e.sourcePath.Some? && e.sourcePath.value != []
    && exists fields :: IsNode(result, e.sourcePath.value, Obj(fields)) && StatesEffect(fields, e)
  }

  /** The claim and the value at the path are finite throughout and read the same. */
  ghost predicate ValueFound(claim: Json, path: ResultPath, result: Json) {
    && path != [] && AllFinite(claim)
    && exists v :: IsNode(result, path, v) && AllFinite(v) && Canon(claim) == Canon(v)
  }

  ghost predicate Stated(review: CriticReview, result: Json) {
    && (forall e :: e in review.effects ==> EffectFound(e, result))
    && review.uncertainty.Keys == review.uncertaintyPaths.Keys
    && (forall k :: k in review.uncertainty ==>
          ValueFound(review.uncertainty[k], review.uncertaintyPaths[k], result))
  }

  lemma EffectStatedIff(e: Effect, fields: map<string, Json>)
    ensures EffectStated(e, fields) <==> StatesEffect(fields, e)
  {
  }

  lemma EffectFoundIff(e: Effect, result: Json)
    ensures EffectBound(e, result) <==> EffectFound(e, result)
  {
    if EffectBound(e, result) {
      var fields := Resolve(result, e.sourcePath).value.fields;
      DenotesIff(result, e.sourcePath.value, Obj(fields));
      EffectStatedIff(e, fields);
    }
    if EffectFound(e, result) {
      var fields :| IsNode(result, e.sourcePath.value, Obj(fields)) && StatesEffect(fields, e);
      DenotesIff(result, e.sourcePath.value, Obj(fields));
      EffectStatedIff(e, fields);
    }
  }

  lemma ValueFoundIff(claim: Json, path: ResultPath, result: Json)
    ensures ValueFound(claim, path, result)
      <==> Resolve(result, Some(path)).Some? && SameValue(claim, Resolve(result, Some(path)).value)
  {
    if Resolve(result, Some(path)).Some? {
      var v := Resolve(result, Some(path)).value;
      DenotesIff(result, path, v);
      SameValueIff(claim, v);
    }
    if ValueFound(claim, path, result) {
      var v :| IsNode(result, path, v) && AllFinite(v) && Canon(claim) == Canon(v);
      DenotesIff(result, path, v);
      SameValueIff(claim, v);
    }
  }

  lemma BoundIff(review: CriticReview, result: Json)
    ensures Bound(review.effects, review.uncertainty, review.uncertaintyPaths, result) <==> Stated(review, result)
  {
    forall e | e in review.effects ensures EffectBound(e, result) <==> EffectFound(e, result) {
      EffectFoundIff(e, result);
    }
    if review.uncertainty.Keys == review.uncertaintyPaths.Keys {
      forall k | k in review.uncertainty
        ensures ValueFound(review.uncertainty[k], review.uncertaintyPaths[k], result) <==>
          (var source := Resolve(result, Some(review.uncertaintyPaths[k]));
           source.Some? && SameValue(review.uncertainty[k], source.value))
      {
        ValueFoundIff(review.uncertainty[k], review.uncertaintyPaths[k], result);
      }
    }
  }

  /** Binding succeeds exactly on summaries stated by the result; it keeps the effects, replaces every
      uncertainty value by the one in the result, and touches nothing else. */
  lemma BindMeaning(review: CriticReview, result: Json)
    ensures Bind(review, result).Some? <==> Stated(review, result)
    ensures Bind(review, result).Some? ==>
      var r := Bind(review, result).value;
      && r == review.(uncertainty := r.uncertainty)
      && r.uncertainty.Keys == review.uncertainty.Keys == review.uncertaintyPaths.Keys
      && (forall k :: k in review.uncertainty ==> ReadsFrom(review, r, result, k))
  {
    BoundIff(review, result);
    if Bind(review, result).Some? {
      EffectsReadBack(review.effects, result);
      forall k | k in review.uncertainty ensures ReadsFrom(review, Bind(review, result).value, result, k) {
        ValueReadBack(review, result, k);
      }
    }
  }

  ghost predicate ReadsFrom(claimed: CriticReview, bound: CriticReview, result: Json, k: string) {
    && k in claimed.uncertainty && k in claimed.uncertaintyPaths && k in bound.uncertainty
    && IsNode(result, claimed.uncertaintyPaths[k], bound.uncertainty[k])
    && Canon(bound.uncertainty[k]) == Canon(claimed.uncertainty[k]) && AllFinite(bound.uncertainty[k])
  }

  lemma EffectsReadBack(effects: seq<Effect>, result: Json)
    requires forall e :: e in effects ==> EffectBound(e, result)
    ensures ReadEffects(effects, result) == effects
  {
    var read := ReadEffects(effects, result);
    forall i | 0 <= i < |effects| ensures read[i] == effects[i] {
      var e := effects[i];
      assert e in effects && EffectBound(e, result);
      assert EffectStated(e, Resolve(result, e.sourcePath).value.fields);
    }
  }

  lemma ValueReadBack(review: CriticReview, result: Json, k: string)
    requires Bind(review, result).Some? && k in review.uncertainty
    ensures ReadsFrom(review, Bind(review, result).value, result, k)
  {
    var v := Bind(review, result).value.uncertainty[k];
    DenotesIff(result, review.uncertaintyPaths[k], v);
    SameValueIff(review.uncertainty[k], v);
  }

  /** A bound review binds again to the same result, unchanged: the check repeated at commit cannot fail. */
  lemma BindIdempotent(review: CriticReview, result: Json)
    requires Bind(review, result).Some?
    ensures Bind(Bind(review, result).value, result) == Bind(review, result)
    ensures var r := Bind(review, result).value; Bound(r.effects, r.uncertainty, r.uncertaintyPaths, result)
  {
    BindMeaning(review, result);
    var r := Bind(review, result).value;
    forall k | k in r.uncertainty
      ensures SameValue(r.uncertainty[k], Resolve(result, Some(r.uncertaintyPaths[k])).value)
    {
      SameValueIsFinite(review.uncertainty[k], r.uncertainty[k]);
    }
    assert UncertaintyBound(r.uncertainty, r.uncertaintyPaths, result);
    BindMeaning(r, result);
    var again := Bind(r, result).value;
    assert again.uncertainty == r.uncertainty;
  }

  // ---------------------------------------------------------------- numeric leaves

  /** The finite numbers at the leaves of a result; booleans are not numbers. */
  predicate IsLeaf(j: Json, x: real)
  {
    match j
    case Int(i) => x == i as real
    case Flt(f) => f == Finite(x)
    case List(items) => exists k | 0 <= k < |items| :: IsLeaf(items[k], x)
    case Obj(fields) => exists k | k in fields :: IsLeaf(fields[k], x)
    case _ => false
  }

  /** Binding a claimed number to a result makes it one of the result's leaves. */
  lemma {:induction false} DenotedLeaf(j: Json, path: ResultPath, x: real)
    requires Denotes(j, path).Some? && IsLeaf(Denotes(j, path).value, x)
    ensures IsLeaf(j, x)
    decreases |path|
  {
    if path != [] {
      DenotedLeaf(Child(j, path[0]).value, path[1..], x);
    }
  }

  lemma {:induction false} LeafHasPath(j: Json, x: real) returns (path: ResultPath, v: Json)
    requires IsLeaf(j, x)
    ensures Denotes(j, path) == Some(v) && ReadsAs(v, x)
  {
    match j
    case List(items) =>
      var k :| 0 <= k < |items| && IsLeaf(items[k], x);
      var rest;
      rest, v := LeafHasPath(items[k], x);
      path := [Index(k)] + rest;
      assert path[1..] == rest;
    case Obj(fields) =>
      var k :| k in fields && IsLeaf(fields[k], x);
      var rest;
      rest, v := LeafHasPath(fields[k], x);
      path := [Key(k)] + rest;
      assert path[1..] == rest;
    case _ =>
      path, v := [], j;
  }

  predicate ReadsAs(v: Json, x: real) {
    v == Flt(Finite(x)) || (v.Int? && v.i as real == x)
  }

  /** The numeric leaves are the whole numbers and finite fractions at some path; truth values are not. */
  lemma LeafIff(j: Json, x: real)
    ensures IsLeaf(j, x) <==> exists path, v :: IsNode(j, path, v) && ReadsAs(v, x)
  {
    if IsLeaf(j, x) {
      var path, v := LeafHasPath(j, x);
      DenotesIff(j, path, v);
    }
    if path, v :| IsNode(j, path, v) && ReadsAs(v, x) {
      DenotesIff(j, path, v);
      DenotedLeaf(j, path, x);
    }
  }

  lemma BoundEffectIsLeaf(e: Effect, result: Json)
    requires EffectBound(e, result)
    ensures IsLeaf(result, e.value)
  {
    var path := e.sourcePath.value;
    var fields := Denotes(result, path).value.fields;
    assert Number(fields["value"]) == Some(e.value);
    assert IsLeaf(fields["value"], e.value);
    DenotedLeaf(result, path, e.value);
  }
}
