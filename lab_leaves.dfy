/**
 * The leaf coercion the report screen applies to every panel before it
 * sends the payload: each `{value, unit}` leaf gets a numeric value and a
 * string unit, nested objects are coerced recursively and every other
 * value is copied as it is.
 */
module LabLeaves {
  import opened Wrappers
  import opened JsValues
  import Text

  /** An object with both a "value" and a "unit" property. */
  predicate IsLeaf(j: Json)
  {
    j.Obj? && "value" in j.fields && "unit" in j.fields
  }

  /** `parseFloat(v)` for a string or a number (through its decimal spelling). */
  function ParseFloat(v: Json): Option<real>
  {
    match v
    case Num(n) => Some(n)
    case Numeral(n) => Some(n)
    case Str(s) => Text.ParseDecimal(s)
    case _ => None
  }

  /**
   * The number a leaf's value becomes: `parseFloat(v)` when `v` is a string
   * or number, is not "", is not nullish and `Number(v)` is not `NaN`; 0 otherwise.
   */
  function LeafNumber(v: Json): (r: real)
    ensures v.Num? || v.Numeral? ==> r == ToNumber(v).value
    ensures v.Str? && Text.ParseDecimal(v.s).Some? ==> r == Text.ParseDecimal(v.s).value
    ensures v.Str? && Text.ParseDecimal(v.s).None? ==> r == 0.0
    ensures !(IsString(v) || v.Num?) ==> r == 0.0
  {
    if (IsString(v) || v.Num?) && v != Str("") && !IsNullish(v) && ToNumber(v).Some?
    then ParseFloat(v).GetOr(0.0)
    else 0.0
  }

  /** `typeof u === "string" ? u : ""`. */
  function LeafUnit(u: Json): (r: Json)
    ensures IsString(r)
    ensures IsString(u) ==> r == u
  {
    if IsString(u) then u else Str("")
  }

  /** A coerced leaf: exactly a numeric value and a string unit. */
  predicate IsNumericLeaf(j: Json)
  {
    j.Obj? && j.fields.Keys == {"value", "unit"} && j.fields["value"].Num? && IsString(j.fields["unit"])
  }

  function CoerceLeaf(j: Json): (r: Json)
    requires IsLeaf(j)
    ensures IsNumericLeaf(r)
  {
    Obj(map["value" := Num(LeafNumber(j.fields["value"])), "unit" := LeafUnit(j.fields["unit"])])
  }

  /** `normalizeLabReport(report)`: a falsy report gives `{}`. */
  function NormalizeLabReport(report: Json): (r: Json)
    decreases report, 0
  {
    if !Truthy(report) then Obj(map[])
    else if report.Obj? then Obj(map k | k in report.fields :: NormalizeEntry(report.fields[k]))
    else Obj(map[])
  }

  /** What `normalizeLabReport` stores for one property of its input. */
  function NormalizeEntry(v: Json): Json
    decreases v, 1
  {
    if IsLeaf(v) then CoerceLeaf(v)
    else if v.Obj? then NormalizeLabReport(v)
    else v
  }

  /**
   * The loop `normalizeLabReport` runs: it fills a fresh object one
   * property at a time, recursing into nested objects.
   */
  method CoerceReport(report: Json) returns (r: Json)
    ensures r == NormalizeLabReport(report)
    decreases report, 0
  {
    if !Truthy(report) || !report.Obj? {
      return Obj(map[]);
    }
    var m := report.fields;
    var normalized: map<string, Json> := map[];
    var todo := m.Keys;
    while todo != {}
      invariant todo <= m.Keys
      invariant normalized == map k | k in m.Keys - todo :: NormalizeEntry(m[k])
      decreases todo
    {
      var k :| k in todo;
      var v := m[k];
      var entry: Json;
      if IsLeaf(v) {
        entry := CoerceLeaf(v);
      } else if v.Obj? {
        entry := CoerceReport(v);
      } else {
        entry := v;
      }
      normalized := normalized[k := entry];
      todo := todo - {k};
    }
    r := Obj(normalized);
  }

  /** The coerced report is an object; an object report keeps exactly its keys. */
  lemma NormalizeLabReportShape(report: Json)
    ensures NormalizeLabReport(report).Obj?
    ensures report.Obj? ==> NormalizeLabReport(report).fields.Keys == report.fields.Keys
    ensures !report.Obj? ==> NormalizeLabReport(report) == Obj(map[])
  {
  }

  /** A coerced leaf coerces to itself. */
  lemma CoerceLeafIdempotent(j: Json)
    requires IsLeaf(j)
    ensures IsLeaf(CoerceLeaf(j)) && CoerceLeaf(CoerceLeaf(j)) == CoerceLeaf(j)
  {
    var r := CoerceLeaf(j);
    assert LeafNumber(r.fields["value"]) == r.fields["value"].n;
    assert LeafUnit(r.fields["unit"]) == r.fields["unit"];
    assert map["value" := r.fields["value"], "unit" := r.fields["unit"]] == r.fields;
  }

  /** Coercing a coerced report changes nothing. */
  lemma {:induction false} NormalizeLabReportIdempotent(report: Json)
    ensures NormalizeLabReport(NormalizeLabReport(report)) == NormalizeLabReport(report)
    decreases report, 0
  {
    if Truthy(report) && report.Obj? {
      var m := report.fields;
      var n := NormalizeLabReport(report).fields;
      forall k | k in m
        ensures NormalizeEntry(n[k]) == n[k]
      {
        NormalizeEntryIdempotent(m[k]);
      }
      assert NormalizeLabReport(NormalizeLabReport(report)).fields == n;
    }
  }

  lemma {:induction false} NormalizeEntryIdempotent(v: Json)
    ensures NormalizeEntry(NormalizeEntry(v)) == NormalizeEntry(v)
    decreases v, 1
  {
    if IsLeaf(v) {
      CoerceLeafIdempotent(v);
    } else if v.Obj? {
      NormalizeLabReportShape(v);
      NormalizeLabReportIdempotent(v);
      assert !IsLeaf(NormalizeLabReport(v));
    }
  }

  /** Every leaf below an object, at any depth, is a numeric leaf. */
  ghost predicate LeavesNumeric(j: Json)
    decreases j
  {
    j.Obj? ==> forall k :: k in j.fields ==>
      (IsLeaf(j.fields[k]) ==> IsNumericLeaf(j.fields[k]))
      && (j.fields[k].Obj? && !IsLeaf(j.fields[k]) ==> LeavesNumeric(j.fields[k]))
  }

  /** After coercion every leaf of the report is a number with a string unit. */
  lemma {:induction false} NormalizeLabReportLeavesNumeric(report: Json)
    ensures LeavesNumeric(NormalizeLabReport(report))
    decreases report, 0
  {
    var r := NormalizeLabReport(report);
    if Truthy(report) && report.Obj? {
      forall k | k in r.fields
        ensures IsLeaf(r.fields[k]) ==> IsNumericLeaf(r.fields[k])
        ensures r.fields[k].Obj? && !IsLeaf(r.fields[k]) ==> LeavesNumeric(r.fields[k])
      {
        var v := report.fields[k];
        assert r.fields[k] == NormalizeEntry(v);
        if IsLeaf(v) {
          assert IsNumericLeaf(CoerceLeaf(v));
        } else if v.Obj? {
          NormalizeLabReportShape(v);
          NormalizeLabReportLeavesNumeric(v);
        }
      }
    }
  }
}
