/**
 * How the report service judges one lab marker: the functional-range
 * documents filed under the marker's name, the score that picks the one
 * that best fits the user, and the low / high / normal / unknown verdict
 * with its normalised deviation and recommended supplements.
 */
module MarkerEvaluation {
  import opened Wrappers
  import Text

  /** What a range document recommends for one direction (`RangeCondition`). */
  datatype Condition = Condition(supplements: Option<seq<string>>)

  /** A functional-range document as stored; every field may be missing. */
  datatype RangeDoc = RangeDoc(
    marker: Option<string>,
    gender: Option<string>,
    menstruationStatus: Option<string>,
    functionalLow: Option<real>,
    functionalHigh: Option<real>,
    measurementUnits: Option<string>,
    ifLow: Option<Condition>,
    ifHigh: Option<Condition>)

  /** A supplement as the report lists it. */
  datatype Supplement = Supplement(
    id: string,
    name: Option<string>,
    dosage: Option<string>,
    productLink: Option<string>,
    description: Option<string>)

  /**
   * What one evaluation depends on besides the marker: the range documents
   * in stored order, the supplement catalogue by id, and the user's gender
   * at birth and menstruation status as the service derives them.
   */
  datatype Context = Context(
    docs: seq<RangeDoc>,
    catalogue: map<string, Supplement>,
    genderAtBirth: string,
    menstruation: string)

  /** `str(x or "").lower()`. */
  function LowerOrEmpty(s: Option<string>): string
  {
    Text.Lower(s.GetOr(""))
  }

  // ---- the range index ----

  /** A document with a truthy `marker`, the only kind the index files. */
  predicate Indexed(d: RangeDoc)
  {
    d.marker.Some? && d.marker.value != ""
  }

  /** `ranges_by_marker[name]`: the filed documents with exactly that name, in stored order. */
  function ByName(docs: seq<RangeDoc>, name: string): seq<RangeDoc>
  {
    if docs == [] then []
    else
      var d := docs[|docs| - 1];
      ByName(docs[..|docs| - 1], name) + (if Indexed(d) && d.marker.value == name then [d] else [])
  }

  /** `ranges_by_norm[key]`: the filed documents whose normalised name is `key`, in stored order. */
  function ByKey(docs: seq<RangeDoc>, key: string): seq<RangeDoc>
  {
    if docs == [] then []
    else
      var d := docs[|docs| - 1];
      ByKey(docs[..|docs| - 1], key) + (if Indexed(d) && Text.LowerAlnum(d.marker.value) == key then [d] else [])
  }

  /** A bucket of a `defaultdict(list)`: empty when the key was never filed. */
  function Bucket(index: map<string, seq<RangeDoc>>, key: string): seq<RangeDoc>
  {
    if key in index then index[key] else []
  }

  /** Exactly the documents a bucket holds. */
  lemma {:induction false} ByNameMembers(docs: seq<RangeDoc>, name: string)
    ensures forall d :: d in ByName(docs, name) <==> d in docs && Indexed(d) && d.marker.value == name
  {
    if docs != [] {
      ByNameMembers(docs[..|docs| - 1], name);
      assert docs == docs[..|docs| - 1] + [docs[|docs| - 1]];
    }
  }

  lemma {:induction false} ByKeyMembers(docs: seq<RangeDoc>, key: string)
    ensures forall d :: d in ByKey(docs, key) <==> d in docs && Indexed(d) && Text.LowerAlnum(d.marker.value) == key
  {
    if docs != [] {
      ByKeyMembers(docs[..|docs| - 1], key);
      assert docs == docs[..|docs| - 1] + [docs[|docs| - 1]];
    }
  }

  /** Filing document `i` under its name extends the name buckets of `docs[..i]` to those of `docs[..i + 1]`. */
  lemma FiledByName(before: map<string, seq<RangeDoc>>, after: map<string, seq<RangeDoc>>, docs: seq<RangeDoc>, i: nat)
    requires i < |docs|
    requires forall n :: Bucket(before, n) == ByName(docs[..i], n)
    requires after == if Indexed(docs[i]) then before[docs[i].marker.value := Bucket(before, docs[i].marker.value) + [docs[i]]] else before
    ensures forall n :: Bucket(after, n) == ByName(docs[..i + 1], n)
  {
    assert docs[..i + 1][..i] == docs[..i];
  }

  lemma FiledByKey(before: map<string, seq<RangeDoc>>, after: map<string, seq<RangeDoc>>, docs: seq<RangeDoc>, i: nat)
    requires i < |docs|
    requires forall k :: Bucket(before, k) == ByKey(docs[..i], k)
    requires after == if Indexed(docs[i])
                      then before[Text.LowerAlnum(docs[i].marker.value) := Bucket(before, Text.LowerAlnum(docs[i].marker.value)) + [docs[i]]]
                      else before
    ensures forall k :: Bucket(after, k) == ByKey(docs[..i + 1], k)
  {
    assert docs[..i + 1][..i] == docs[..i];
  }

  /**
   * The loading loop: every document with a truthy name is appended to the
   * bucket of its name and to the bucket of its normalised name.
   */
  method IndexRanges(docs: seq<RangeDoc>) returns (byName: map<string, seq<RangeDoc>>, byKey: map<string, seq<RangeDoc>>)
    ensures forall name :: Bucket(byName, name) == ByName(docs, name)
    ensures forall key :: Bucket(byKey, key) == ByKey(docs, key)
  {
    byName := map[];
    byKey := map[];
    for i := 0 to |docs|
      invariant forall name :: Bucket(byName, name) == ByName(docs[..i], name)
      invariant forall key :: Bucket(byKey, key) == ByKey(docs[..i], key)
    {
      var d := docs[i];
      ghost var (names, keys) := (byName, byKey);
      if Indexed(d) {
        var name := d.marker.value;
        var key := Text.LowerAlnum(name);
        byName := byName[name := Bucket(byName, name) + [d]];
        byKey := byKey[key := Bucket(byKey, key) + [d]];
      }
      FiledByName(names, byName, docs, i);
      FiledByKey(keys, byKey, docs, i);
    }
    assert docs[..|docs|] == docs;
  }

  // ---- choosing the range document ----

  /** `candidates`: the exact-name bucket, or the normalised-name bucket when that is empty. */
  function Candidates(docs: seq<RangeDoc>, marker: string): seq<RangeDoc>
  {
    var exact := ByName(docs, marker);
    if exact != [] then exact else ByKey(docs, Text.LowerAlnum(marker))
  }

  predicate GenderMatches(d: RangeDoc, genderAtBirth: string)
  {
    var g := LowerOrEmpty(d.gender);
    g != "" && genderAtBirth != "" && g == Text.Lower(genderAtBirth)
  }

  predicate MenstruationMatches(d: RangeDoc, menstruation: string)
  {
    var m := LowerOrEmpty(d.menstruationStatus);
    m != "" && menstruation != "" && m == Text.Lower(menstruation)
  }

  predicate HasUnits(d: RangeDoc)
  {
    d.measurementUnits.Some? && d.measurementUnits.value != ""
  }

  /** The inner `score`: 4 for the gender, 2 for the menstruation status, 1 for stated units. */
  function Score(d: RangeDoc, genderAtBirth: string, menstruation: string): nat
  {
    (if GenderMatches(d, genderAtBirth) then 4 else 0)
    + (if MenstruationMatches(d, menstruation) then 2 else 0)
    + (if HasUnits(d) then 1 else 0)
  }

  /**
   * The weights rank the criteria strictly: a gender match beats any
   * combination of the others, and between equal genders a menstruation
   * match beats stated units.
   */
  lemma ScoreRanksCriteria(a: RangeDoc, b: RangeDoc, genderAtBirth: string, menstruation: string)
    ensures GenderMatches(a, genderAtBirth) && !GenderMatches(b, genderAtBirth) ==>
              Score(a, genderAtBirth, menstruation) > Score(b, genderAtBirth, menstruation)
    ensures GenderMatches(a, genderAtBirth) == GenderMatches(b, genderAtBirth)
            && MenstruationMatches(a, menstruation) && !MenstruationMatches(b, menstruation) ==>
              Score(a, genderAtBirth, menstruation) > Score(b, genderAtBirth, menstruation)
    ensures Score(a, genderAtBirth, menstruation) == Score(b, genderAtBirth, menstruation) <==>
              GenderMatches(a, genderAtBirth) == GenderMatches(b, genderAtBirth)
              && MenstruationMatches(a, menstruation) == MenstruationMatches(b, menstruation)
              && HasUnits(a) == HasUnits(b)
  {
  }

  /**
   * Python's `max(s, key=key)`: the index of the first element whose key
   * is maximal.
   */
  function FirstMax<T>(s: seq<T>, key: T -> real): (i: nat)
    requires |s| > 0
    ensures i < |s|
    ensures forall j :: 0 <= j < |s| ==> key(s[j]) <= key(s[i])
    ensures forall j :: 0 <= j < i ==> key(s[j]) < key(s[i])
  {
    if |s| == 1 then 0
    else
      var b := FirstMax(s[..|s| - 1], key);
      if key(s[|s| - 1]) > key(s[b]) then |s| - 1 else b
  }

  function ScoreKey(genderAtBirth: string, menstruation: string): RangeDoc -> real
  {
    d => Score(d, genderAtBirth, menstruation) as real
  }

  /** `find_best_range_doc`. */
  function BestRangeDoc(ctx: Context, marker: string): Option<RangeDoc>
  {
    var c := Candidates(ctx.docs, marker);
    if c == [] then None else Some(c[FirstMax(c, ScoreKey(ctx.genderAtBirth, ctx.menstruation))])
  }

  /**
   * The chosen document: none exactly when no document is filed under the
   * name or its normalised form; an exact-name document whenever one
   * exists; otherwise one whose normalised name matches; always one of the
   * highest score, and the first of those.
   */
  lemma BestRangeDocChoice(ctx: Context, marker: string)
    ensures var best := BestRangeDoc(ctx, marker);
            && (best.None? <==> ByName(ctx.docs, marker) == [] && ByKey(ctx.docs, Text.LowerAlnum(marker)) == [])
            && (best.Some? ==> best.value in ctx.docs && Indexed(best.value))
            && (best.Some? && ByName(ctx.docs, marker) != [] ==> best.value.marker == Some(marker))
            && (best.Some? && ByName(ctx.docs, marker) == [] ==>
                  Text.LowerAlnum(best.value.marker.value) == Text.LowerAlnum(marker))
  {
    ByNameMembers(ctx.docs, marker);
    ByKeyMembers(ctx.docs, Text.LowerAlnum(marker));
  }

  lemma BestRangeDocScore(ctx: Context, marker: string)
    requires Candidates(ctx.docs, marker) != []
    ensures var c := Candidates(ctx.docs, marker);
            exists i :: 0 <= i < |c| && BestRangeDoc(ctx, marker) == Some(c[i])
              && (forall j :: 0 <= j < |c| ==> Score(c[j], ctx.genderAtBirth, ctx.menstruation) <= Score(c[i], ctx.genderAtBirth, ctx.menstruation))
              && (forall j :: 0 <= j < i ==> Score(c[j], ctx.genderAtBirth, ctx.menstruation) < Score(c[i], ctx.genderAtBirth, ctx.menstruation))
  {
    var c := Candidates(ctx.docs, marker);
    var key := ScoreKey(ctx.genderAtBirth, ctx.menstruation);
    var i := FirstMax(c, key);
    forall j | 0 <= j < |c|
      ensures Score(c[j], ctx.genderAtBirth, ctx.menstruation) <= Score(c[i], ctx.genderAtBirth, ctx.menstruation)
    {
      assert key(c[j]) <= key(c[i]);
    }
    forall j | 0 <= j < i
      ensures Score(c[j], ctx.genderAtBirth, ctx.menstruation) < Score(c[i], ctx.genderAtBirth, ctx.menstruation)
    {
      assert key(c[j]) < key(c[i]);
    }
  }

  // ---- the verdict ----

  /** `compute_deviation`: how far outside the range, in range widths (a zero width counts as 1). */
  function Deviation(value: real, low: real, high: real): (r: real)
    ensures low <= high ==> r >= 0.0 && (r == 0.0 <==> low <= value <= high)
    ensures low > high ==> r < 0.0
  {
    var width := if high - low == 0.0 then 1.0 else high - low;
    if value < low then (low - value) / width
    else if value > high then (value - high) / width
    else 0.0
  }

  /** For a proper range the deviation is the distance to the nearer bound over the width. */
  lemma DeviationDistance(value: real, low: real, high: real)
    requires low < high
    ensures value < low ==> Deviation(value, low, high) * (high - low) == low - value
    ensures value > high ==> Deviation(value, low, high) * (high - low) == value - high
  {
  }

  datatype Reason = NoRangeDoc | UnitMismatch(expected: string) | NoRange

  datatype Status = Low | High | Normal | Unknown(reason: Reason)

  /** `status in ("low", "high")`. */
  predicate OutOfRange(s: Status)
  {
    s.Low? || s.High?
  }

  datatype Bounds = Bounds(low: real, high: real)

  /** The dictionary `evaluate_marker` returns; `bounds` is set only with a verdict. */
  datatype Evaluation = Evaluation(
    marker: string,
    value: real,
    unit: string,
    status: Status,
    bounds: Option<Bounds>,
    deviation: real,
    supplements: seq<Supplement>)

  /** Both units are stated and differ once stripped and lower-cased. */
  predicate UnitsDiffer(docUnit: Option<string>, unit: string)
  {
    docUnit.Some? && docUnit.value != "" && unit != ""
    && Text.Lower(Text.Strip(unit)) != Text.Lower(Text.Strip(docUnit.value))
  }

  /** `fetch_supplements`: the catalogue entries of the non-empty ids, in order, unknown ids skipped. */
  function FetchSupplements(catalogue: map<string, Supplement>, ids: seq<string>): seq<Supplement>
  {
    if ids == [] then []
    else
      var id := ids[|ids| - 1];
      FetchSupplements(catalogue, ids[..|ids| - 1]) + (if id != "" && id in catalogue then [catalogue[id]] else [])
  }

  /** Every known id contributes its supplement, and nothing else is listed. */
  lemma {:induction false} FetchSupplementsMembers(catalogue: map<string, Supplement>, ids: seq<string>)
    ensures |FetchSupplements(catalogue, ids)| <= |ids|
    ensures forall id :: id in ids && id != "" && id in catalogue ==> catalogue[id] in FetchSupplements(catalogue, ids)
    ensures forall s :: s in FetchSupplements(catalogue, ids) ==> exists id :: id in ids && id in catalogue && catalogue[id] == s
  {
    if ids != [] {
      FetchSupplementsMembers(catalogue, ids[..|ids| - 1]);
      assert ids == ids[..|ids| - 1] + [ids[|ids| - 1]];
    }
  }

  /** `supp_field.get("supplements")` when the field is present, else no ids. */
  function SupplementIds(c: Option<Condition>): seq<string>
  {
    if c.Some? && c.value.supplements.Some? then c.value.supplements.value else []
  }

  /** `evaluate_marker`. */
  function Evaluate(ctx: Context, marker: string, value: real, unit: string): (e: Evaluation)
    ensures e.marker == marker && e.value == value && e.unit == unit
  {
    match BestRangeDoc(ctx, marker)
    case None => Evaluation(marker, value, unit, Unknown(NoRangeDoc), None, 0.0, [])
    case Some(doc) =>
      if UnitsDiffer(doc.measurementUnits, unit) then
        Evaluation(marker, value, unit, Unknown(UnitMismatch(doc.measurementUnits.value)), None, 0.0, [])
      else if doc.functionalLow.None? || doc.functionalHigh.None? then
        Evaluation(marker, value, unit, Unknown(NoRange), None, 0.0, [])
      else
        var low := doc.functionalLow.value;
        var high := doc.functionalHigh.value;
        var status := if value < low then Low else if value > high then High else Normal;
        var advice := if status == Low then doc.ifLow else doc.ifHigh;
        Evaluation(marker, value, unit, status, Some(Bounds(low, high)), Deviation(value, low, high),
                   FetchSupplements(ctx.catalogue, SupplementIds(advice)))
  }

  /**
   * The verdict: unknown for no document, for stated units that differ and
   * for a missing bound, in that order; otherwise low below the range, high
   * above it, normal inside; a verdict carries the document's bounds and
   * deviation, and a low verdict its `ifLow` supplements while every other
   * verdict gets the `ifHigh` ones.
   */
  lemma EvaluateVerdict(ctx: Context, marker: string, value: real, unit: string)
    ensures var e := Evaluate(ctx, marker, value, unit);
            var best := BestRangeDoc(ctx, marker);
            && (best.None? ==> e.status == Unknown(NoRangeDoc))
            && (best.Some? && UnitsDiffer(best.value.measurementUnits, unit) ==>
                  e.status == Unknown(UnitMismatch(best.value.measurementUnits.value)))
            && (best.Some? && !UnitsDiffer(best.value.measurementUnits, unit)
                && (best.value.functionalLow.None? || best.value.functionalHigh.None?) ==>
                  e.status == Unknown(NoRange))
            && (e.status.Unknown? ==> e.bounds.None? && e.supplements == [])
            && (!e.status.Unknown? <==>
                  best.Some? && !UnitsDiffer(best.value.measurementUnits, unit)
                  && best.value.functionalLow.Some? && best.value.functionalHigh.Some?)
            && (!e.status.Unknown? ==>
                  var low := best.value.functionalLow.value;
                  var high := best.value.functionalHigh.value;
                  && e.bounds == Some(Bounds(low, high))
                  && (e.status == Low <==> value < low)
                  && (e.status == High <==> low <= value && value > high)
                  && (e.status == Normal <==> low <= value <= high)
                  && e.deviation == Deviation(value, low, high)
                  && e.supplements == FetchSupplements(ctx.catalogue,
                       SupplementIds(if e.status == Low then best.value.ifLow else best.value.ifHigh)))
  {
  }

  /** With a proper range, a marker is out of range exactly when its deviation is positive. */
  lemma OutOfRangeIffDeviates(ctx: Context, marker: string, value: real, unit: string)
    requires var e := Evaluate(ctx, marker, value, unit); e.bounds.Some? && e.bounds.value.low <= e.bounds.value.high
    ensures var e := Evaluate(ctx, marker, value, unit); OutOfRange(e.status) <==> e.deviation > 0.0
  {
  }
}
