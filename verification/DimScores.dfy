/**
 The eight dimension scores of a model answer (inference/parsers.py, inference/schemas.py): the schema path
 and the manual path, and the report of missing and unreadable dimensions.
 */
module DimScores {
  import opened Options

  const DIM_KEYS: seq<string> := [
    "focus_sharpness", "exposure_control", "noise_cleanliness", "composition_framing",
    "light_color_character", "moment_peak", "atmosphere_impact", "deliverable_subject"]

  /** An IEEE value; json.loads accepts NaN and the infinities. */
  datatype Float = Finite(x: real) | NaN | Infinite(positive: bool)

  /** A parsed JSON value; HugeInt is an integer that `float` refuses with OverflowError. */
  datatype Raw = Null | Bool(b: bool) | Num(f: Float) | HugeInt | Text(s: string) | List | Dict(d: map<string, Raw>)

  datatype Conversion = Value(f: Float) | Unreadable | Overflow

  /** `float(raw)`, for any reading `parse` of number texts. */
  function ToFloat(parse: string -> Option<Float>, raw: Raw): Conversion {
    match raw
    case Bool(b) => Value(Finite(if b then 1.0 else 0.0))
    case Num(f) => Value(f)
    case HugeInt => Overflow
    case Text(s) => if s != "" && parse(s).Some? then Value(parse(s).value) else Unreadable
    case _ => Unreadable
  }

  predicate Less(a: Float, b: Float) {
    match (a, b)
    case (NaN, _) => false
    case (_, NaN) => false
    case (Infinite(p), Infinite(q)) => !p && q
    case (Infinite(p), _) => !p
    case (_, Infinite(q)) => q
    case (Finite(x), Finite(y)) => x < y
  }

  /** Python keeps the first argument unless a later one compares strictly smaller (greater). */
  function PyMin(a: Float, b: Float): Float { if Less(b, a) then b else a }

  function PyMax(a: Float, b: Float): Float { if Less(a, b) then b else a }

  function Clamp(f: Float): Float { PyMax(Finite(0.0), PyMin(Finite(10.0), f)) }

  lemma ClampRange(f: Float)
    ensures Clamp(f).Finite? && 0.0 <= Clamp(f).x <= 10.0
    ensures f.Finite? && 0.0 <= f.x <= 10.0 ==> Clamp(f) == f
    ensures f.NaN? ==> Clamp(f) == Finite(10.0)
  {}

  function NestedOf(data: map<string, Raw>): map<string, Raw> {
    if "dimensions" in data && data["dimensions"].Dict? then data["dimensions"].d else map[]
  }

  /** The value a dimension is read from: the top level wins over the nested object; Null when absent. */
  function RawDim(data: map<string, Raw>, key: string): Raw {
    if key in data then data[key] else if key in NestedOf(data) then NestedOf(data)[key] else Null
  }

  predicate IsMissing(raw: Raw) { raw == Null || raw == Text("") }

  // ----- The report -----

  /** The keys that satisfy `p`, in order. */
  function Keep(keys: seq<string>, p: string -> bool): seq<string> {
    if keys == [] then []
    else
      var n := |keys| - 1;
      Keep(keys[..n], p) + if p(keys[n]) then [keys[n]] else []
  }

  lemma {:induction false} KeepSelects(keys: seq<string>, p: string -> bool)
    ensures forall k :: k in Keep(keys, p) <==> k in keys && p(k)
    ensures |Keep(keys, p)| <= |keys|
    ensures |Keep(keys, p)| == |keys| <==> forall k | k in keys :: p(k)
  {
    if keys != [] {
      var n := |keys| - 1;
      KeepSelects(keys[..n], p);
      assert keys == keys[..n] + [keys[n]];
    }
  }

  function Missing(data: map<string, Raw>): string -> bool {
    k => IsMissing(RawDim(data, k))
  }

  function Given(data: map<string, Raw>): string -> bool {
    k => !IsMissing(RawDim(data, k))
  }

  /** The key is given but its value cannot be read as a number. */
  function Coerced(parse: string -> Option<Float>, data: map<string, Raw>): string -> bool {
    k => !IsMissing(RawDim(data, k)) && ToFloat(parse, RawDim(data, k)).Unreadable?
  }

  predicate OverflowAmong(parse: string -> Option<Float>, data: map<string, Raw>, keys: seq<string>) {
    exists k | k in keys :: ToFloat(parse, RawDim(data, k)).Overflow?
  }

  predicate HasOverflow(parse: string -> Option<Float>, data: map<string, Raw>) { OverflowAmong(parse, data, DIM_KEYS) }

  datatype Inspection = Overflowed | Inspected(present: seq<string>, missing: seq<string>, coerced: seq<string>)

  /** The three lists of the keys, in the order of the keys; an integer too large for a float escapes instead. */
  predicate ReportOn(parse: string -> Option<Float>, data: map<string, Raw>, keys: seq<string>, r: Inspection) {
    match r
    case Overflowed => OverflowAmong(parse, data, keys)
    case Inspected(present, missing, coerced) =>
      && !OverflowAmong(parse, data, keys)
      && present == Keep(keys, Given(data))
      && missing == Keep(keys, Missing(data))
      && coerced == Keep(keys, Coerced(parse, data))
  }

  predicate IsReport(parse: string -> Option<Float>, data: map<string, Raw>, r: Inspection) {
    ReportOn(parse, data, DIM_KEYS, r)
  }

  /** `inspect_raw_dims`: without an object all keys are missing. */
  method InspectRawDims(parse: string -> Option<Float>, raw: Raw) returns (r: Inspection)
    ensures raw.Dict? ==> IsReport(parse, raw.d, r)
    ensures !raw.Dict? ==> r == Inspected([], DIM_KEYS, [])
  {
    if !raw.Dict? {
      return Inspected([], DIM_KEYS, []);
    }
    r := InspectKeys(parse, raw.d, DIM_KEYS);
  }

  /** The loop over the keys. */
  method InspectKeys(parse: string -> Option<Float>, data: map<string, Raw>, keys: seq<string>) returns (r: Inspection)
    ensures ReportOn(parse, data, keys, r)
  {
    var present, missing, coerced := [], [], [];
    for n := 0 to |keys|
      invariant ReportOn(parse, data, keys[..n], Inspected(present, missing, coerced))
    {
      var key := keys[n];
      ReportGrows(parse, data, keys, n);
      var raw := RawDim(data, key);
      if IsMissing(raw) {
        missing := missing + [key];
        continue;
      }
      present := present + [key];
      var c := ToFloat(parse, raw);
      if c.Overflow? {
        return Overflowed;
      }
      if c.Unreadable? {
        coerced := coerced + [key];
      }
    }
    assert keys[..|keys|] == keys;
    r := Inspected(present, missing, coerced);
  }

  lemma ReportGrows(parse: string -> Option<Float>, data: map<string, Raw>, keys: seq<string>, n: nat)
    requires n < |keys|
    ensures forall p: string -> bool ::
              Keep(keys[..n + 1], p) == Keep(keys[..n], p) + if p(keys[n]) then [keys[n]] else []
    ensures OverflowAmong(parse, data, keys[..n + 1])
            <==> OverflowAmong(parse, data, keys[..n]) || ToFloat(parse, RawDim(data, keys[n])).Overflow?
    ensures OverflowAmong(parse, data, keys[..n + 1]) ==> OverflowAmong(parse, data, keys)
  {
    assert keys[..n + 1] == keys[..n] + [keys[n]];
    assert keys[..n + 1][..n] == keys[..n];
    assert forall k | k in keys[..n + 1] :: k in keys;
  }

  // ----- The two extractors -----

  datatype Dims = Raises | Scores(m: map<string, Float>)

  /** `_coerce_dim`; None when `float` overflows. */
  function CoerceDim(parse: string -> Option<Float>, raw: Raw): Option<Float> {
    match ToFloat(parse, raw)
    case Value(f) => Some(Clamp(f))
    case Unreadable => Some(Finite(5.0))
    case Overflow => None
  }

  /** `_accept_nested_dimensions`: copies nested keys up where the top level has none; all else stays. */
  method AcceptNested(data: map<string, Raw>) returns (merged: map<string, Raw>)
    ensures IsMerged(data, DIM_KEYS, merged)
  {
    merged := data;
    if "dimensions" !in data || !data["dimensions"].Dict? {
      return;
    }
    merged := CopyUp(data, data["dimensions"].d, DIM_KEYS);
  }

  /** Each of the keys has the value it is read from, if any; every other key is as in `data`. */
  predicate IsMerged(data: map<string, Raw>, keys: seq<string>, merged: map<string, Raw>) {
    && (forall k | k in merged.Keys + data.Keys + NestedOf(data).Keys :: k in keys ==> TakenFor(data, k, merged))
    && (forall k | k in merged.Keys + data.Keys :: k !in keys ==>
          (k in merged <==> k in data) && (k in data ==> merged[k] == data[k]))
  }

  predicate TakenFor(data: map<string, Raw>, key: string, merged: map<string, Raw>) {
    && (key in merged <==> key in data || key in NestedOf(data))
    && (key in merged ==> merged[key] == RawDim(data, key))
  }

  method CopyUp(data: map<string, Raw>, nested: map<string, Raw>, keys: seq<string>) returns (merged: map<string, Raw>)
    requires nested == NestedOf(data)
    ensures IsMerged(data, keys, merged)
  {
    merged := data;
    for n := 0 to |keys|
      invariant IsMerged(data, keys[..n], merged)
    {
      var key := keys[n];
      assert keys[..n + 1] == keys[..n] + [key];
      if key !in merged && key in nested {
        merged := merged[key := nested[key]];
      }
    }
    assert keys[..|keys|] == keys;
  }

  /** A field keeps its default 5.0 when its key is absent, else it is coerced. */
  method SchemaDims(parse: string -> Option<Float>, data: map<string, Raw>) returns (r: Dims)
    ensures r == DimsOf(parse, data)
  {
    var merged := AcceptNested(data);
    r := CoerceKeys(parse, data, merged, DIM_KEYS);
  }

  method CoerceKeys(parse: string -> Option<Float>, ghost data: map<string, Raw>, merged: map<string, Raw>,
                    keys: seq<string>)
    returns (r: Dims)
    requires IsMerged(data, keys, merged)
    ensures r == DimsOver(parse, data, keys)
  {
    forall k | k in keys
      ensures if k in merged then CoerceDim(parse, merged[k]) == ScoreOrNone(parse, data, k)
              else ScoreOrNone(parse, data, k) == Some(Finite(5.0))
    {
      assert k in merged || k in data || k in NestedOf(data) ==> TakenFor(data, k, merged);
    }
    if exists k | k in keys :: k in merged && CoerceDim(parse, merged[k]).None? {
      return Raises;
    }
    r := Scores(map k | k in keys :: if k in merged then CoerceDim(parse, merged[k]).value else Finite(5.0));
  }

  /** The manual loop of `parse_dimensional_response`; an overflow leaves through its outer handler. */
  method ManualDims(parse: string -> Option<Float>, data: map<string, Raw>) returns (r: Dims)
    ensures r == DimsOf(parse, data)
  {
    r := ScoreKeys(parse, data, DIM_KEYS);
  }

  lemma OneMoreScore(parse: string -> Option<Float>, data: map<string, Raw>, keys: seq<string>, key: string)
    requires DimsOver(parse, data, keys).Scores? && !ToFloat(parse, RawDim(data, key)).Overflow?
    ensures DimsOver(parse, data, keys + [key])
            == Scores(DimsOver(parse, data, keys).m[key := ScoreOf(parse, data, key)])
  {
    assert (map k | k in keys + [key] :: ScoreOf(parse, data, k))
        == (map k | k in keys :: ScoreOf(parse, data, k))[key := ScoreOf(parse, data, key)];
  }

  method ScoreKeys(parse: string -> Option<Float>, data: map<string, Raw>, keys: seq<string>) returns (r: Dims)
    ensures r == DimsOver(parse, data, keys)
  {
    var nested := NestedOf(data);
    var dims: map<string, Float> := map[];
    for n := 0 to |keys|
      invariant DimsOver(parse, data, keys[..n]) == Scores(dims)
    {
      var key := keys[n];
      assert keys[..n + 1] == keys[..n] + [key];
      var raw := if key in data then data[key] else if key in nested then nested[key] else Num(Finite(5.0));
      var c := ToFloat(parse, raw);
      if c.Overflow? {
        assert key in keys;
        return Raises;
      }
      OneMoreScore(parse, data, keys[..n], key);
      dims := dims[key := if c.Value? then PyMax(Finite(0.0), PyMin(Finite(10.0), c.f)) else Finite(5.0)];
    }
    assert keys[..|keys|] == keys;
    r := Scores(dims);
  }

  /** The one score of a dimension: the clamped number the model gave, or the neutral 5.0. */
  function ScoreOf(parse: string -> Option<Float>, data: map<string, Raw>, key: string): Float {
    match ToFloat(parse, RawDim(data, key))
    case Value(f) => Clamp(f)
    case _ => Finite(5.0)
  }

  function ScoreOrNone(parse: string -> Option<Float>, data: map<string, Raw>, key: string): Option<Float> {
    if ToFloat(parse, RawDim(data, key)).Overflow? then None else Some(ScoreOf(parse, data, key))
  }

  function DimsOver(parse: string -> Option<Float>, data: map<string, Raw>, keys: seq<string>): Dims {
    if OverflowAmong(parse, data, keys) then Raises else Scores(map k | k in keys :: ScoreOf(parse, data, k))
  }

  function DimsOf(parse: string -> Option<Float>, data: map<string, Raw>): Dims { DimsOver(parse, data, DIM_KEYS) }

  // ----- What the two extractors and the report say together -----

  /** The score is in [0, 10]; it is the model's own number, clamped, exactly when its key is in neither list. */
  ghost predicate Follows(parse: string -> Option<Float>, data: map<string, Raw>, missing: seq<string>,
                          coerced: seq<string>, key: string, score: Float)
  {
    && score.Finite? && 0.0 <= score.x <= 10.0
    && (key in missing <==> IsMissing(RawDim(data, key)))
    && (key !in missing && key !in coerced <==> ToFloat(parse, RawDim(data, key)).Value?)
    && score == if key in missing || key in coerced then Finite(5.0) else Clamp(ToFloat(parse, RawDim(data, key)).f)
  }

  lemma ScoreFollows(parse: string -> Option<Float>, data: map<string, Raw>, keys: seq<string>,
                     missing: seq<string>, coerced: seq<string>, key: string)
    requires key in keys && DimsOver(parse, data, keys).Scores? && !ToFloat(parse, RawDim(data, key)).Overflow?
    requires key in missing <==> Missing(data)(key)
    requires key in coerced <==> Coerced(parse, data)(key)
    ensures key in DimsOver(parse, data, keys).m
    ensures Follows(parse, data, missing, coerced, key, DimsOver(parse, data, keys).m[key])
  {
    if ToFloat(parse, RawDim(data, key)).Value? {
      ClampRange(ToFloat(parse, RawDim(data, key)).f);
    }
  }

  lemma ScoresFollow(parse: string -> Option<Float>, data: map<string, Raw>, keys: seq<string>, report: Inspection)
    requires report.Inspected? && ReportOn(parse, data, keys, report)
    ensures DimsOver(parse, data, keys).Scores? && DimsOver(parse, data, keys).m.Keys == set k | k in keys
    ensures forall k | k in keys ::
              Follows(parse, data, report.missing, report.coerced, k, DimsOver(parse, data, keys).m[k])
  {
    KeepSelects(keys, Missing(data));
    KeepSelects(keys, Coerced(parse, data));
    forall k | k in keys
      ensures Follows(parse, data, report.missing, report.coerced, k, DimsOver(parse, data, keys).m[k])
    {
      assert !ToFloat(parse, RawDim(data, k)).Overflow?;
      ScoreFollows(parse, data, keys, report.missing, report.coerced, k);
    }
  }

  /** Every score of an answer follows the report on it. */
  lemma ScoresFollowReport(parse: string -> Option<Float>, data: map<string, Raw>, report: Inspection)
    requires report.Inspected? && IsReport(parse, data, report)
    ensures DimsOf(parse, data).Scores? && DimsOf(parse, data).m.Keys == set k | k in DIM_KEYS
    ensures forall k | k in DIM_KEYS ::
              Follows(parse, data, report.missing, report.coerced, k, DimsOf(parse, data).m[k])
  {
    ScoresFollow(parse, data, DIM_KEYS, report);
  }

  // ----- parse_dimensional_response -----

  datatype Status = StatusOk | StatusManual | StatusRegex

  /** What the function returns: an escaping OverflowError, the empty dict, or a stamped scorecard. */
  datatype Parsed =
    | OverflowEscapes
    | Failed
    | Stamped(dimensions: map<string, Float>, status: Status, missing: seq<string>, coerced: seq<string>)

  function RegexAnswer(recovered: Option<map<string, Float>>): Parsed {
    match recovered
    case Some(dims) => Stamped(dims, StatusRegex, [], [])
    case None => Failed
  }

  predicate ExplicitError(isSentinel: string -> bool, data: map<string, Raw>) {
    "error" in data && data["error"].Text? && isSentinel(data["error"].s)
  }

  /** Some dimension was given and no explicit error was reported: the answer's own numbers are used. */
  ghost predicate ScoresItself(isSentinel: string -> bool, doc: Option<Raw>) {
    && doc.Some? && doc.value.Dict? && !ExplicitError(isSentinel, doc.value.d)
    && exists k | k in DIM_KEYS :: !IsMissing(RawDim(doc.value.d, k))
  }

  /**
   `doc` is what json.loads yields (None when it fails), `recovered` what the regex recovery finds in the text,
   `restValidates` whether the fields besides the dimensions pass the schema.
   */
  method ParseDimensionalResponse(parse: string -> Option<Float>, isSentinel: string -> bool, doc: Option<Raw>,
                                  recovered: Option<map<string, Float>>, restValidates: bool) returns (r: Parsed)
    ensures r.OverflowEscapes? <==>
              doc.Some? && doc.value.Dict? && !ExplicitError(isSentinel, doc.value.d) && HasOverflow(parse, doc.value.d)
    ensures r.Stamped? && r.status != StatusRegex <==> ScoresItself(isSentinel, doc) && !HasOverflow(parse, doc.value.d)
    ensures r.Stamped? && r.status != StatusRegex ==>
              && (r.status == StatusOk <==> restValidates)
              && IsReport(parse, doc.value.d, Inspected(Keep(DIM_KEYS, Given(doc.value.d)), r.missing, r.coerced))
              && r.dimensions.Keys == (set k | k in DIM_KEYS)
              && (forall k | k in DIM_KEYS :: Follows(parse, doc.value.d, r.missing, r.coerced, k, r.dimensions[k]))
              && exists k :: k in DIM_KEYS && k !in r.missing
    ensures r.Failed? || (r.Stamped? && r.status == StatusRegex) ==>
              r == if doc.Some? && doc.value.Dict? && ExplicitError(isSentinel, doc.value.d) then Failed
                   else RegexAnswer(recovered)
  {
    if doc.None? || !doc.value.Dict? {
      return RegexAnswer(recovered);
    }
    var data := doc.value.d;
    if ExplicitError(isSentinel, data) {
      return Failed;
    }
    var report := InspectRawDims(parse, doc.value);
    if report.Overflowed? {
      return OverflowEscapes;
    }
    KeepSelects(DIM_KEYS, Missing(data));
    if |report.missing| == |DIM_KEYS| {
      assert forall k | k in DIM_KEYS :: Missing(data)(k);
      return RegexAnswer(recovered);
    }
    ScoresFollowReport(parse, data, report);
    ghost var given :| given in DIM_KEYS && !Missing(data)(given);
    var schema := SchemaDims(parse, data);
    if restValidates {
      r := Stamped(schema.m, StatusOk, report.missing, report.coerced);
    } else {
      var manual := ManualDims(parse, data);
      r := Stamped(manual.m, StatusManual, report.missing, report.coerced);
    }
  }

  // ----- An answer that escapes -----

  /** An integer too large for a float in any of the eight places makes the whole parse raise. */
  lemma HugeIntegerEscapes(parse: string -> Option<Float>, isSentinel: string -> bool)
    ensures var data := map["focus_sharpness" := HugeInt];
            && !ExplicitError(isSentinel, data) && HasOverflow(parse, data)
            && DimsOf(parse, data) == Raises
            && forall r :: IsReport(parse, data, r) <==> r == Overflowed
  {
    var data := map["focus_sharpness" := HugeInt];
    assert DIM_KEYS[0] == "focus_sharpness" && DIM_KEYS[0] in DIM_KEYS;
    assert ToFloat(parse, RawDim(data, "focus_sharpness")).Overflow?;
    assert "error" !in data by {
      assert "error"[0] != "focus_sharpness"[0];
    }
  }
}
