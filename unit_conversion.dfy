/**
 * The unit conversion the report screen applies, in place, to the coerced
 * panels before sending them: each rule names one analyte of one panel and
 * fires only when that analyte's unit is exactly the rule's source unit.
 */
module UnitConversion {
  import opened JsValues

  /** What a firing rule does to the value; the unit is always set to the target. */
  datatype Conversion =
    | Relabel                              // only the unit changes
    | KeepValue                            // `x.value = x.value`, then the unit
    | Scale(factor: real)                  // `x.value * factor`
    | Shrink(divisor: real)                // `x.value / divisor`
    | ScaleShift(factor: real, offset: real)  // `x.value * factor + offset`

  datatype UnitRule =
    | Convert(panel: string, analyte: string, from: string, to: string, how: Conversion)
      /** A white-cell differential given as an absolute count becomes a percentage of WBC. */
    | AbsoluteToPercent(marker: string)

  const CbcPanel := "CBC_with_Differential"
  /** The differential's source unit, spelled with the micro sign U+00B5. */
  const AbsoluteCount := "Absolute (x10\U{B3}/\U{B5}L)"

  function PanelOf(rule: UnitRule): string
  {
    if rule.Convert? then rule.panel else CbcPanel
  }

  function AnalyteOf(rule: UnitRule): string
  {
    if rule.Convert? then rule.analyte else rule.marker
  }

  /** The rules of one panel's `if (payload.lab_reports?.<panel>)` block. */
  datatype RuleBlock = RuleBlock(panel: string, rules: seq<UnitRule>)

  const RuleBlocks: seq<RuleBlock> := [
    RuleBlock(CbcPanel, CbcRules),
    RuleBlock("CMP_14", CmpRules),
    RuleBlock("Magnesium", MagnesiumRules),
    RuleBlock("Iron_Panel", IronRules),
    RuleBlock("HbA1c", HbA1cRules),
    RuleBlock("Lipid_Panel", LipidRules),
    RuleBlock("Thyroid_Profile_II", ThyroidRules),
    RuleBlock("Vitamin_D_25_Hydroxy", VitaminDRules)]

  function Flatten(blocks: seq<RuleBlock>): seq<UnitRule>
  {
    if blocks == [] then [] else Flatten(blocks[..|blocks| - 1]) + blocks[|blocks| - 1].rules
  }

  /** The rules in the order the screen applies them. */
  const UnitRules: seq<UnitRule> := Flatten(RuleBlocks)

  const CbcRules: seq<UnitRule> := [
    Convert(CbcPanel, "WBC", "x10\U{2079}/L", "x10\U{B3}/\U{B5}L", KeepValue),
    Convert(CbcPanel, "RBC", "x10\U{B9}\U{B2}/L", "x10\U{2076}/\U{B5}L", KeepValue),
    Convert(CbcPanel, "Hemoglobin", "g/L", "g/dL", Shrink(10.0)),
    Convert(CbcPanel, "Hematocrit", "fraction (0\U{2013}1)", "%", Scale(100.0)),
    Convert(CbcPanel, "MCHC", "g/L", "g/dL", Shrink(10.0)),
    Convert(CbcPanel, "RDW", "ratio", "%", Scale(100.0)),
    Convert(CbcPanel, "Platelets", "x10\U{2079}/L", "x10\U{B3}/\U{B5}L", KeepValue),
    AbsoluteToPercent("Neutrophils"),
    AbsoluteToPercent("Lymphocytes"),
    AbsoluteToPercent("Monocytes"),
    AbsoluteToPercent("Eosinophils"),
    AbsoluteToPercent("Basophils")]

  const CmpRules: seq<UnitRule> := [
    Convert("CMP_14", "Glucose", "mmol/L", "mg/dL", Scale(18.0)),
    Convert("CMP_14", "Calcium", "mmol/L", "mg/dL", Scale(4.006)),
    Convert("CMP_14", "Sodium", "mEq/L", "mmol/L", Relabel),
    Convert("CMP_14", "Potassium", "mEq/L", "mmol/L", Relabel),
    Convert("CMP_14", "Chloride", "mEq/L", "mmol/L", Relabel),
    Convert("CMP_14", "CO2", "mEq/L", "mmol/L", Relabel),
    Convert("CMP_14", "BUN", "mmol/L", "mg/dL", KeepValue),
    Convert("CMP_14", "Creatinine", "\U{B5}mol/L", "mg/dL", Shrink(88.4)),
    Convert("CMP_14", "Total_Bilirubin", "\U{B5}mol/L", "mg/dL", Shrink(17.104))]

  const MagnesiumRules: seq<UnitRule> := [
    Convert("Magnesium", "Magnesium", "mmol/L", "mg/dL", Scale(2.43))]

  const IronRules: seq<UnitRule> := [
    Convert("Iron_Panel", "Iron", "\U{B5}mol/L", "\U{B5}g/dL", Scale(5.585)),
    Convert("Iron_Panel", "TIBC", "\U{B5}mol/L", "\U{B5}g/dL", Scale(5.585)),
    Convert("Iron_Panel", "Ferritin", "\U{B5}g/L", "ng/mL", Relabel),
    Convert("Iron_Panel", "Transferrin_Saturation", "ratio", "%", Scale(100.0))]

  const HbA1cRules: seq<UnitRule> := [
    Convert("HbA1c", "Hemoglobin_A1c", "mmol/mol (IFCC)", "% (NGSP)", ScaleShift(0.09148, 2.15))]

  const LipidRules: seq<UnitRule> := [
    Convert("Lipid_Panel", "Total_Cholesterol", "mmol/L", "mg/dL", Scale(38.67)),
    Convert("Lipid_Panel", "HDL", "mmol/L", "mg/dL", Scale(38.67)),
    Convert("Lipid_Panel", "LDL", "mmol/L", "mg/dL", Scale(38.67)),
    Convert("Lipid_Panel", "Triglycerides", "mmol/L", "mg/dL", Scale(88.57))]

  const ThyroidRules: seq<UnitRule> := [
    Convert("Thyroid_Profile_II", "TSH", "mIU/L", "\U{B5}IU/mL", Relabel),
    Convert("Thyroid_Profile_II", "Free_T4", "pmol/L", "ng/dL", Shrink(12.87)),
    Convert("Thyroid_Profile_II", "Free_T3", "pmol/L", "pg/mL", Shrink(1.536)),
    Convert("Thyroid_Profile_II", "T4", "nmol/L", "\U{B5}g/dL", Shrink(12.87)),
    Convert("Thyroid_Profile_II", "T3", "nmol/L", "ng/dL", Shrink(0.0154)),
    Convert("Thyroid_Profile_II", "Reverse_T3", "pg/mL", "ng/dL", Shrink(10.0)),
    Convert("Thyroid_Profile_II", "Anti_TPO", "IU/L", "IU/mL", Shrink(1000.0))]

  const VitaminDRules: seq<UnitRule> := [
    Convert("Vitamin_D_25_Hydroxy", "25_Hydroxy_Vitamin_D", "nmol/L", "ng/mL", Shrink(2.5))]

  // ---- one rule ----

  /** The panels of the payload, by backend panel name. */
  type Reports = map<string, Json>

  /** `lab_reports?.[panel]?.[analyte]`. */
  function EntryAt(r: Reports, panel: string, analyte: string): Json
  {
    Get(if panel in r then r[panel] else Undefined, analyte)
  }

  /** The WBC value the differential rule divides by. */
  function WbcValue(r: Reports): Json
  {
    Get(EntryAt(r, CbcPanel, "WBC"), "value")
  }

  /** Whether a rule fires on an entry, given the WBC value. */
  predicate Fires(rule: UnitRule, entry: Json, wbc: Json)
  {
    match rule
    case Convert(_, _, from, _, _) => Get(entry, "unit") == Str(from)
    case AbsoluteToPercent(_) => Get(entry, "unit") == Str(AbsoluteCount) && Truthy(wbc)
  }

  /** JavaScript `a + c` for a number-or-NaN value and a constant. */
  function PlusConstant(a: Json, c: real): (r: Json)
    ensures r.Num? <==> a.Num?
  {
    if a.Num? then Num(a.n + c) else NotANumber
  }

  /** The new value a conversion computes. */
  function ConvertedValue(how: Conversion, v: Json): Json
  {
    match how
    case Relabel => v
    case KeepValue => v
    case Scale(k) => Times(v, k)
    case Shrink(k) => Divide(v, Num(k))
    case ScaleShift(k, c) => PlusConstant(Times(v, k), c)
  }

  /** The entry a firing rule leaves behind. */
  function Converted(rule: UnitRule, entry: Json, wbc: Json): (r: Json)
    requires entry.Obj?
    ensures r.Obj?
  {
    var e := entry.fields;
    var v := Get(entry, "value");
    match rule
    case Convert(_, _, _, to, how) =>
      if how.Relabel? then Obj(e["unit" := Str(to)])
      else Obj(e["value" := ConvertedValue(how, v)]["unit" := Str(to)])
    case AbsoluteToPercent(_) =>
      Obj(e["value" := Times(Divide(v, wbc), 100.0)]["unit" := Str("%")])
  }

  /** What the rule leaves at its own analyte. */
  function Outcome(rule: UnitRule, entry: Json, wbc: Json): Json
  {
    if Fires(rule, entry, wbc) then Converted(rule, entry, wbc) else entry
  }

  /** Applies one rule: only the rule's own analyte of its own panel can change. */
  function ApplyRule(r: Reports, rule: UnitRule): (r': Reports)
    ensures r'.Keys == r.Keys
    ensures EntryAt(r', PanelOf(rule), AnalyteOf(rule)) ==
            Outcome(rule, EntryAt(r, PanelOf(rule), AnalyteOf(rule)), WbcValue(r))
    ensures forall p, a :: (p, a) != (PanelOf(rule), AnalyteOf(rule)) ==> EntryAt(r', p, a) == EntryAt(r, p, a)
  {
    var p, a := PanelOf(rule), AnalyteOf(rule);
    var entry := EntryAt(r, p, a);
    if Fires(rule, entry, WbcValue(r)) then
      assert entry.Obj?;
      r[p := Obj(r[p].fields[a := Converted(rule, entry, WbcValue(r))])]
    else r
  }

  /** The rules applied in order. */
  function ApplyRules(r: Reports, rules: seq<UnitRule>): Reports
  {
    if rules == [] then r else ApplyRule(ApplyRules(r, rules[..|rules| - 1]), rules[|rules| - 1])
  }

  // ---- the table's shape ----

  function Targets(rules: seq<UnitRule>): (t: seq<(string, string)>)
    ensures |t| == |rules|
    ensures forall i :: 0 <= i < |rules| ==> t[i] == (PanelOf(rules[i]), AnalyteOf(rules[i]))
  {
    if rules == [] then [] else Targets(rules[..|rules| - 1]) + [(PanelOf(rules[|rules| - 1]), AnalyteOf(rules[|rules| - 1]))]
  }

  /**
   * What makes the rules independent and the pass idempotent: no two rules
   * share an analyte, no rule's target unit is its own source unit, and the
   * WBC value the differential reads is never changed.
   */
  predicate WellFormed(rules: seq<UnitRule>)
  {
    (forall i, j :: 0 <= i < j < |rules| ==> Targets(rules)[i] != Targets(rules)[j])
    && (forall rule :: rule in rules && rule.Convert? ==> rule.from != rule.to)
    && (forall rule :: rule in rules && rule.AbsoluteToPercent? ==> rule.marker != "WBC")
    && (forall rule :: rule in rules && rule.Convert? && rule.panel == CbcPanel && rule.analyte == "WBC" ==>
          rule.how.Relabel? || rule.how.KeepValue?)
  }

  lemma WellFormedPrefix(rules: seq<UnitRule>, n: nat)
    requires WellFormed(rules) && n <= |rules|
    ensures WellFormed(rules[..n])
  {
    assert forall i :: 0 <= i < n ==> Targets(rules[..n])[i] == Targets(rules)[i];
    assert forall rule :: rule in rules[..n] ==> rule in rules;
  }

  /** No rule changes the WBC value. */
  lemma ApplyRuleKeepsWbcValue(r: Reports, rule: UnitRule)
    requires rule.AbsoluteToPercent? ==> rule.marker != "WBC"
    requires rule.Convert? && rule.panel == CbcPanel && rule.analyte == "WBC" ==> rule.how.Relabel? || rule.how.KeepValue?
    ensures WbcValue(ApplyRule(r, rule)) == WbcValue(r)
  {
  }

  /**
   * Each rule acts on the original panels as if it ran alone: its analyte
   * ends as the rule's outcome on the original entry and WBC value, every
   * analyte no rule names is untouched, and the WBC value is kept.
   */
  lemma {:induction false} RulesActIndependently(r: Reports, rules: seq<UnitRule>)
    requires WellFormed(rules)
    ensures ApplyRules(r, rules).Keys == r.Keys
    ensures WbcValue(ApplyRules(r, rules)) == WbcValue(r)
    ensures forall i :: 0 <= i < |rules| ==>
              EntryAt(ApplyRules(r, rules), PanelOf(rules[i]), AnalyteOf(rules[i])) ==
              Outcome(rules[i], EntryAt(r, PanelOf(rules[i]), AnalyteOf(rules[i])), WbcValue(r))
    ensures forall p, a :: (p, a) !in Targets(rules) ==> EntryAt(ApplyRules(r, rules), p, a) == EntryAt(r, p, a)
  {
    if rules != [] {
      var n := |rules| - 1;
      WellFormedPrefix(rules, n);
      RulesActIndependently(r, rules[..n]);
      RulesActIndependentlyStep(r, rules);
    }
  }

  /** The inductive step: the last rule, on panels the earlier rules have converted independently. */
  lemma RulesActIndependentlyStep(r: Reports, rules: seq<UnitRule>)
    requires WellFormed(rules) && rules != []
    requires var init, s := rules[..|rules| - 1], ApplyRules(r, rules[..|rules| - 1]);
             && s.Keys == r.Keys && WbcValue(s) == WbcValue(r)
             && (forall i :: 0 <= i < |init| ==>
                   EntryAt(s, PanelOf(init[i]), AnalyteOf(init[i])) ==
                   Outcome(init[i], EntryAt(r, PanelOf(init[i]), AnalyteOf(init[i])), WbcValue(r)))
             && (forall p, a :: (p, a) !in Targets(init) ==> EntryAt(s, p, a) == EntryAt(r, p, a))
    ensures ApplyRules(r, rules).Keys == r.Keys
    ensures WbcValue(ApplyRules(r, rules)) == WbcValue(r)
    ensures forall i :: 0 <= i < |rules| ==>
              EntryAt(ApplyRules(r, rules), PanelOf(rules[i]), AnalyteOf(rules[i])) ==
              Outcome(rules[i], EntryAt(r, PanelOf(rules[i]), AnalyteOf(rules[i])), WbcValue(r))
    ensures forall p, a :: (p, a) !in Targets(rules) ==> EntryAt(ApplyRules(r, rules), p, a) == EntryAt(r, p, a)
  {
    var n := |rules| - 1;
    var init, last := rules[..n], rules[n];
    var s := ApplyRules(r, init);
    var t := ApplyRule(s, last);
    var lastTarget := (PanelOf(last), AnalyteOf(last));
    assert ApplyRules(r, rules) == t;
    assert last in rules;
    ApplyRuleKeepsWbcValue(s, last);
    assert Targets(rules) == Targets(init) + [lastTarget];
    assert lastTarget !in Targets(init) by {
      forall i | 0 <= i < n ensures Targets(init)[i] != lastTarget {
        assert Targets(init)[i] == Targets(rules)[i];
      }
    }
    assert EntryAt(s, lastTarget.0, lastTarget.1) == EntryAt(r, lastTarget.0, lastTarget.1);
    forall i | 0 <= i < n
      ensures EntryAt(t, PanelOf(rules[i]), AnalyteOf(rules[i])) ==
              Outcome(rules[i], EntryAt(r, PanelOf(rules[i]), AnalyteOf(rules[i])), WbcValue(r))
    {
      assert rules[i] == init[i];
      assert Targets(rules)[i] != Targets(rules)[n];
    }
    forall p, a | (p, a) !in Targets(rules)
      ensures EntryAt(t, p, a) == EntryAt(r, p, a)
    {
      assert (p, a) != lastTarget && (p, a) !in Targets(init);
    }
  }

  // ---- the pass and its properties ----

  /** A rule that fired does not fire again on its own outcome. */
  lemma OutcomeSettles(rule: UnitRule, entry: Json, wbc: Json)
    requires rule.Convert? ==> rule.from != rule.to
    ensures Fires(rule, entry, wbc) ==> !Fires(rule, Outcome(rule, entry, wbc), wbc)
    ensures !Fires(rule, entry, wbc) ==> Outcome(rule, entry, wbc) == entry
  {
    if Fires(rule, entry, wbc) {
      var out := Converted(rule, entry, wbc);
      if rule.AbsoluteToPercent? {
        assert Get(out, "unit") == Str("%");
        assert "%" != AbsoluteCount;
      }
    }
  }

  /** Rules that do not fire leave the panels as they are. */
  lemma {:induction false} SilentRulesChangeNothing(s: Reports, rules: seq<UnitRule>)
    requires forall rule :: rule in rules ==> !Fires(rule, EntryAt(s, PanelOf(rule), AnalyteOf(rule)), WbcValue(s))
    ensures ApplyRules(s, rules) == s
  {
    if rules != [] {
      var n := |rules| - 1;
      assert forall rule :: rule in rules[..n] ==> rule in rules;
      SilentRulesChangeNothing(s, rules[..n]);
      assert rules[n] in rules;
    }
  }

  /** Converting converted panels changes nothing. */
  lemma {:induction false} ApplyRulesIdempotent(r: Reports, rules: seq<UnitRule>)
    requires WellFormed(rules)
    ensures ApplyRules(ApplyRules(r, rules), rules) == ApplyRules(r, rules)
  {
    var s := ApplyRules(r, rules);
    RulesActIndependently(r, rules);
    forall rule | rule in rules
      ensures !Fires(rule, EntryAt(s, PanelOf(rule), AnalyteOf(rule)), WbcValue(s))
    {
      var i :| 0 <= i < |rules| && rules[i] == rule;
      OutcomeSettles(rule, EntryAt(r, PanelOf(rule), AnalyteOf(rule)), WbcValue(r));
    }
    SilentRulesChangeNothing(s, rules);
  }

  // ---- the table is well formed ----

  function Analytes(rules: seq<UnitRule>): (t: seq<string>)
    ensures |t| == |rules|
    ensures forall i :: 0 <= i < |rules| ==> t[i] == AnalyteOf(rules[i])
  {
    if rules == [] then [] else Analytes(rules[..|rules| - 1]) + [AnalyteOf(rules[|rules| - 1])]
  }

  predicate PanelsIn(rules: seq<UnitRule>, panels: set<string>)
  {
    forall rule :: rule in rules ==> PanelOf(rule) in panels
  }

  /** The rule conditions other than distinct targets. */
  predicate RulesSound(rules: seq<UnitRule>)
  {
    (forall rule :: rule in rules && rule.Convert? ==> rule.from != rule.to)
    && (forall rule :: rule in rules && rule.AbsoluteToPercent? ==> rule.marker != "WBC")
    && (forall rule :: rule in rules && rule.Convert? && rule.panel == CbcPanel && rule.analyte == "WBC" ==>
          rule.how.Relabel? || rule.how.KeepValue?)
  }

  /** The conditions of `RulesSound` for one rule. */
  predicate RuleSound(rule: UnitRule)
  {
    (rule.Convert? ==> rule.from != rule.to)
    && (rule.AbsoluteToPercent? ==> rule.marker != "WBC")
    && (rule.Convert? && rule.panel == CbcPanel && rule.analyte == "WBC" ==> rule.how.Relabel? || rule.how.KeepValue?)
  }

  lemma RulesSoundByIndex(rules: seq<UnitRule>)
    requires forall i :: 0 <= i < |rules| ==> RuleSound(rules[i])
    ensures RulesSound(rules)
  {
    assert forall rule :: rule in rules ==> RuleSound(rule);
  }

  /** A block whose rules, position by position, are on `panel` and name `names`. */
  lemma ShapeByIndex(rules: seq<UnitRule>, panel: string, names: seq<string>)
    requires |rules| == |names|
    requires forall i :: 0 <= i < |rules| ==> PanelOf(rules[i]) == panel && AnalyteOf(rules[i]) == names[i]
    ensures Analytes(rules) == names && PanelsIn(rules, {panel})
  {
  }

  predicate DistinctNames(names: seq<string>)
  {
    forall i, j :: 0 <= i < j < |names| ==> names[i] != names[j]
  }

  /** A block of rules on one panel is well formed when its analytes are distinct. */
  lemma BlockWellFormed(rules: seq<UnitRule>, panel: string, names: seq<string>)
    requires PanelsIn(rules, {panel}) && RulesSound(rules)
    requires Analytes(rules) == names && DistinctNames(names)
    ensures WellFormed(rules)
  {
    forall i, j | 0 <= i < j < |rules| ensures Targets(rules)[i] != Targets(rules)[j] {
      assert rules[i] in rules && rules[j] in rules;
      assert Analytes(rules)[i] != Analytes(rules)[j];
    }
  }

  /** Appending a well-formed block on a panel not used before keeps the table well formed. */
  lemma AppendBlock(a: seq<UnitRule>, panels: set<string>, b: seq<UnitRule>, panel: string)
    requires WellFormed(a) && PanelsIn(a, panels) && panel !in panels
    requires WellFormed(b) && PanelsIn(b, {panel})
    ensures WellFormed(a + b) && PanelsIn(a + b, panels + {panel})
  {
    var t := Targets(a + b);
    forall i, j | 0 <= i < j < |a + b| ensures t[i] != t[j] {
      if j < |a| {
        assert (a + b)[i] == a[i] && (a + b)[j] == a[j];
        assert Targets(a)[i] != Targets(a)[j];
      } else if i >= |a| {
        assert (a + b)[i] == b[i - |a|] && (a + b)[j] == b[j - |a|];
        assert Targets(b)[i - |a|] != Targets(b)[j - |a|];
      } else {
        assert (a + b)[i] == a[i] && a[i] in a;
        assert (a + b)[j] == b[j - |a|] && b[j - |a|] in b;
      }
    }
    assert forall rule :: rule in a + b ==> rule in a || rule in b;
  }

  const CbcAnalytes := ["WBC", "RBC", "Hemoglobin", "Hematocrit", "MCHC", "RDW", "Platelets", "Neutrophils", "Lymphocytes", "Monocytes", "Eosinophils", "Basophils"]

  lemma CbcRulesShape()
    ensures Analytes(CbcRules) == CbcAnalytes && PanelsIn(CbcRules, {CbcPanel})
  {
    assert forall i :: 0 <= i < |CbcRules| ==> PanelOf(CbcRules[i]) == CbcPanel && AnalyteOf(CbcRules[i]) == CbcAnalytes[i];
    ShapeByIndex(CbcRules, CbcPanel, CbcAnalytes);
  }

  lemma CbcRulesSound() ensures RulesSound(CbcRules)
  {
    assert forall i :: 0 <= i < |CbcRules| ==> RuleSound(CbcRules[i]);
    RulesSoundByIndex(CbcRules);
  }

  lemma CbcAnalytesDistinct() ensures DistinctNames(CbcAnalytes) { }

  lemma CbcRulesWellFormed() ensures WellFormed(CbcRules) && PanelsIn(CbcRules, {CbcPanel})
  {
    CbcRulesShape();
    CbcRulesSound();
    CbcAnalytesDistinct();
    BlockWellFormed(CbcRules, CbcPanel, CbcAnalytes);
  }

  const CmpAnalytes := ["Glucose", "Calcium", "Sodium", "Potassium", "Chloride", "CO2", "BUN", "Creatinine", "Total_Bilirubin"]

  lemma CmpRulesShape()
    ensures Analytes(CmpRules) == CmpAnalytes && PanelsIn(CmpRules, {"CMP_14"})
  {
    assert forall i :: 0 <= i < |CmpRules| ==> PanelOf(CmpRules[i]) == "CMP_14" && AnalyteOf(CmpRules[i]) == CmpAnalytes[i];
    ShapeByIndex(CmpRules, "CMP_14", CmpAnalytes);
  }

  lemma CmpRulesSound() ensures RulesSound(CmpRules)
  {
    assert forall i :: 0 <= i < |CmpRules| ==> RuleSound(CmpRules[i]);
    RulesSoundByIndex(CmpRules);
  }

  lemma CmpAnalytesDistinct() ensures DistinctNames(CmpAnalytes) { }

  lemma CmpRulesWellFormed() ensures WellFormed(CmpRules) && PanelsIn(CmpRules, {"CMP_14"})
  {
    CmpRulesShape();
    CmpRulesSound();
    CmpAnalytesDistinct();
    BlockWellFormed(CmpRules, "CMP_14", CmpAnalytes);
  }

  const IronAnalytes := ["Iron", "TIBC", "Ferritin", "Transferrin_Saturation"]

  lemma IronRulesShape()
    ensures Analytes(IronRules) == IronAnalytes && PanelsIn(IronRules, {"Iron_Panel"})
  {
    assert forall i :: 0 <= i < |IronRules| ==> PanelOf(IronRules[i]) == "Iron_Panel" && AnalyteOf(IronRules[i]) == IronAnalytes[i];
    ShapeByIndex(IronRules, "Iron_Panel", IronAnalytes);
  }

  lemma IronRulesSound() ensures RulesSound(IronRules)
  {
    assert forall i :: 0 <= i < |IronRules| ==> RuleSound(IronRules[i]);
    RulesSoundByIndex(IronRules);
  }

  lemma IronAnalytesDistinct() ensures DistinctNames(IronAnalytes) { }

  lemma IronRulesWellFormed() ensures WellFormed(IronRules) && PanelsIn(IronRules, {"Iron_Panel"})
  {
    IronRulesShape();
    IronRulesSound();
    IronAnalytesDistinct();
    BlockWellFormed(IronRules, "Iron_Panel", IronAnalytes);
  }

  const LipidAnalytes := ["Total_Cholesterol", "HDL", "LDL", "Triglycerides"]

  lemma LipidRulesShape()
    ensures Analytes(LipidRules) == LipidAnalytes && PanelsIn(LipidRules, {"Lipid_Panel"})
  {
    assert forall i :: 0 <= i < |LipidRules| ==> PanelOf(LipidRules[i]) == "Lipid_Panel" && AnalyteOf(LipidRules[i]) == LipidAnalytes[i];
    ShapeByIndex(LipidRules, "Lipid_Panel", LipidAnalytes);
  }

  lemma LipidRulesSound() ensures RulesSound(LipidRules)
  {
    assert forall i :: 0 <= i < |LipidRules| ==> RuleSound(LipidRules[i]);
    RulesSoundByIndex(LipidRules);
  }

  lemma LipidAnalytesDistinct() ensures DistinctNames(LipidAnalytes) { }

  lemma LipidRulesWellFormed() ensures WellFormed(LipidRules) && PanelsIn(LipidRules, {"Lipid_Panel"})
  {
    LipidRulesShape();
    LipidRulesSound();
    LipidAnalytesDistinct();
    BlockWellFormed(LipidRules, "Lipid_Panel", LipidAnalytes);
  }

  const ThyroidAnalytes := ["TSH", "Free_T4", "Free_T3", "T4", "T3", "Reverse_T3", "Anti_TPO"]

  lemma ThyroidRulesShape()
    ensures Analytes(ThyroidRules) == ThyroidAnalytes && PanelsIn(ThyroidRules, {"Thyroid_Profile_II"})
  {
    assert forall i :: 0 <= i < |ThyroidRules| ==> PanelOf(ThyroidRules[i]) == "Thyroid_Profile_II" && AnalyteOf(ThyroidRules[i]) == ThyroidAnalytes[i];
    ShapeByIndex(ThyroidRules, "Thyroid_Profile_II", ThyroidAnalytes);
  }

  lemma ThyroidRulesSound() ensures RulesSound(ThyroidRules)
  {
    assert forall i :: 0 <= i < |ThyroidRules| ==> RuleSound(ThyroidRules[i]);
    RulesSoundByIndex(ThyroidRules);
  }

  lemma ThyroidAnalytesDistinct() ensures DistinctNames(ThyroidAnalytes) { }

  lemma ThyroidRulesWellFormed() ensures WellFormed(ThyroidRules) && PanelsIn(ThyroidRules, {"Thyroid_Profile_II"})
  {
    ThyroidRulesShape();
    ThyroidRulesSound();
    ThyroidAnalytesDistinct();
    BlockWellFormed(ThyroidRules, "Thyroid_Profile_II", ThyroidAnalytes);
  }

  lemma SingleRulesWellFormed()
    ensures WellFormed(MagnesiumRules) && PanelsIn(MagnesiumRules, {"Magnesium"})
    ensures WellFormed(HbA1cRules) && PanelsIn(HbA1cRules, {"HbA1c"})
    ensures WellFormed(VitaminDRules) && PanelsIn(VitaminDRules, {"Vitamin_D_25_Hydroxy"})
  {
  }

  function BlockPanels(blocks: seq<RuleBlock>): (t: seq<string>)
    ensures |t| == |blocks|
    ensures forall i :: 0 <= i < |blocks| ==> t[i] == blocks[i].panel
  {
    if blocks == [] then [] else BlockPanels(blocks[..|blocks| - 1]) + [blocks[|blocks| - 1].panel]
  }

  function PanelSet(blocks: seq<RuleBlock>): set<string>
  {
    if blocks == [] then {} else PanelSet(blocks[..|blocks| - 1]) + {blocks[|blocks| - 1].panel}
  }

  lemma {:induction false} PanelSetMembers(blocks: seq<RuleBlock>, panel: string)
    requires panel in PanelSet(blocks)
    ensures exists i :: 0 <= i < |blocks| && BlockPanels(blocks)[i] == panel
  {
    var n := |blocks| - 1;
    if panel != blocks[n].panel {
      PanelSetMembers(blocks[..n], panel);
      var i :| 0 <= i < n && BlockPanels(blocks[..n])[i] == panel;
      assert BlockPanels(blocks)[i] == panel;
    } else {
      assert BlockPanels(blocks)[n] == panel;
    }
  }

  /** Blocks on distinct panels, each well formed, flatten to a well-formed table. */
  lemma {:induction false} FlattenWellFormed(blocks: seq<RuleBlock>)
    requires forall k :: 0 <= k < |blocks| ==> WellFormed(blocks[k].rules) && PanelsIn(blocks[k].rules, {blocks[k].panel})
    requires DistinctNames(BlockPanels(blocks))
    ensures WellFormed(Flatten(blocks)) && PanelsIn(Flatten(blocks), PanelSet(blocks))
  {
    if blocks != [] {
      var n := |blocks| - 1;
      var init, last := blocks[..n], blocks[n];
      assert forall k :: 0 <= k < n ==> init[k] == blocks[k];
      assert forall i :: 0 <= i < n ==> BlockPanels(init)[i] == BlockPanels(blocks)[i];
      FlattenWellFormed(init);
      if last.panel in PanelSet(init) {
        PanelSetMembers(init, last.panel);
        assert false;
      }
      AppendBlock(Flatten(init), PanelSet(init), last.rules, last.panel);
    }
  }

  lemma BlockPanelsDistinct()
    ensures DistinctNames(BlockPanels(RuleBlocks))
  {
    var names := [CbcPanel, "CMP_14", "Magnesium", "Iron_Panel", "HbA1c", "Lipid_Panel",
                  "Thyroid_Profile_II", "Vitamin_D_25_Hydroxy"];
    assert BlockPanels(RuleBlocks) == names;
    assert forall i :: 0 <= i < 8 ==> |names[i]| == [21, 6, 9, 10, 5, 11, 18, 20][i];
  }

  lemma UnitRulesByBlock()
    ensures UnitRules == CbcRules + CmpRules + MagnesiumRules + IronRules + HbA1cRules + LipidRules
                         + ThyroidRules + VitaminDRules
  {
    var b := RuleBlocks;
    assert b[..1][..0] == b[..0];
    assert Flatten(b[..1]) == CbcRules;
    assert b[..2][..1] == b[..1];
    assert Flatten(b[..2]) == CbcRules + CmpRules;
    assert b[..3][..2] == b[..2];
    assert Flatten(b[..3]) == CbcRules + CmpRules + MagnesiumRules;
    assert b[..4][..3] == b[..3];
    assert Flatten(b[..4]) == CbcRules + CmpRules + MagnesiumRules + IronRules;
    assert b[..5][..4] == b[..4];
    assert Flatten(b[..5]) == CbcRules + CmpRules + MagnesiumRules + IronRules + HbA1cRules;
    assert b[..6][..5] == b[..5];
    assert Flatten(b[..6]) == CbcRules + CmpRules + MagnesiumRules + IronRules + HbA1cRules + LipidRules;
    assert b[..7][..6] == b[..6];
    assert Flatten(b[..7]) == CbcRules + CmpRules + MagnesiumRules + IronRules + HbA1cRules + LipidRules + ThyroidRules;
    assert b[..8][..7] == b[..7];
    assert Flatten(b[..8]) == CbcRules + CmpRules + MagnesiumRules + IronRules + HbA1cRules + LipidRules + ThyroidRules + VitaminDRules;
    assert b[..8] == b;
  }

  /** The screen's rules satisfy the conditions of the independence and idempotence lemmas. */
  lemma UnitRulesWellFormed()
    ensures WellFormed(UnitRules)
  {
    UnitRulesByBlock();
    CbcRulesWellFormed();
    CmpRulesWellFormed();
    IronRulesWellFormed();
    LipidRulesWellFormed();
    ThyroidRulesWellFormed();
    SingleRulesWellFormed();
    EightBlocksWellFormed(CbcRules, CmpRules, MagnesiumRules, IronRules, HbA1cRules, LipidRules, ThyroidRules, VitaminDRules);
  }

  /** Eight well-formed blocks on the eight distinct panels, in the screen's order, form a well-formed table. */
  lemma EightBlocksWellFormed(cbc: seq<UnitRule>, cmp: seq<UnitRule>, mg: seq<UnitRule>, iron: seq<UnitRule>,
                              a1c: seq<UnitRule>, lipid: seq<UnitRule>, thyroid: seq<UnitRule>, d: seq<UnitRule>)
    requires WellFormed(cbc) && PanelsIn(cbc, {CbcPanel})
    requires WellFormed(cmp) && PanelsIn(cmp, {"CMP_14"})
    requires WellFormed(mg) && PanelsIn(mg, {"Magnesium"})
    requires WellFormed(iron) && PanelsIn(iron, {"Iron_Panel"})
    requires WellFormed(a1c) && PanelsIn(a1c, {"HbA1c"})
    requires WellFormed(lipid) && PanelsIn(lipid, {"Lipid_Panel"})
    requires WellFormed(thyroid) && PanelsIn(thyroid, {"Thyroid_Profile_II"})
    requires WellFormed(d) && PanelsIn(d, {"Vitamin_D_25_Hydroxy"})
    ensures WellFormed(cbc + cmp + mg + iron + a1c + lipid + thyroid + d)
  {
    var p1 := {CbcPanel} + {"CMP_14"};
    AppendBlock(cbc, {CbcPanel}, cmp, "CMP_14");
    var p2 := p1 + {"Magnesium"};
    AppendBlock(cbc + cmp, p1, mg, "Magnesium");
    var p3 := p2 + {"Iron_Panel"};
    AppendBlock(cbc + cmp + mg, p2, iron, "Iron_Panel");
    var p4 := p3 + {"HbA1c"};
    AppendBlock(cbc + cmp + mg + iron, p3, a1c, "HbA1c");
    var p5 := p4 + {"Lipid_Panel"};
    AppendBlock(cbc + cmp + mg + iron + a1c, p4, lipid, "Lipid_Panel");
    var p6 := p5 + {"Thyroid_Profile_II"};
    AppendBlock(cbc + cmp + mg + iron + a1c + lipid, p5, thyroid, "Thyroid_Profile_II");
    AppendBlock(cbc + cmp + mg + iron + a1c + lipid + thyroid, p6, d, "Vitamin_D_25_Hydroxy");
  }


}

/** The payload object `normalizeLabUnits` converts in place, and what that conversion guarantees. */
module LabUnits {
  import opened JsValues
  import opened UnitConversion

  /** The payload with its panels converted; a payload without an object `lab_reports` is left alone. */
  function ConvertUnits(p: map<string, Json>): map<string, Json>
  {
    if "lab_reports" in p && p["lab_reports"].Obj?
    then p["lab_reports" := Obj(ApplyRules(p["lab_reports"].fields, UnitRules))]
    else p
  }

  /** The payload object the report screen builds and then converts. */
  class LabPayload {
    var fields: map<string, Json>

    constructor (payload: map<string, Json>)
      ensures fields == payload
    {
      fields := payload;
    }

    /** `normalizeLabUnits(payload)`: the rules run one after another on the payload's own panels. */
    method NormalizeLabUnits()
      modifies this
      ensures fields == ConvertUnits(old(fields))
    {
      if "lab_reports" in fields && fields["lab_reports"].Obj? {
        ApplyInOrder(UnitRules);
      }
    }

    /** The rules run one after another on the object `lab_reports`. */
    method ApplyInOrder(rules: seq<UnitRule>)
      requires "lab_reports" in fields && fields["lab_reports"].Obj?
      modifies this
      ensures fields == old(fields)["lab_reports" := Obj(ApplyRules(old(fields)["lab_reports"].fields, rules))]
    {
      ghost var start := fields["lab_reports"].fields;
      for i := 0 to |rules|
        invariant fields == old(fields)["lab_reports" := Obj(ApplyRules(start, rules[..i]))]
      {
        assert rules[..i + 1][..i] == rules[..i];
        fields := fields["lab_reports" := Obj(ApplyRule(fields["lab_reports"].fields, rules[i]))];
      }
      assert rules[..|rules|] == rules;
    }
  }

  /** Running the conversion on its own output changes nothing. */
  lemma ConvertUnitsIdempotent(p: map<string, Json>)
    ensures ConvertUnits(ConvertUnits(p)) == ConvertUnits(p)
  {
    if "lab_reports" in p && p["lab_reports"].Obj? {
      var r := p["lab_reports"].fields;
      UnitRulesIdempotent(r);
      assert ConvertUnits(p) == p["lab_reports" := Obj(ApplyRules(r, UnitRules))];
    }
  }

  /** The screen's table, applied to converted panels, changes nothing. */
  lemma UnitRulesIdempotent(r: Reports)
    ensures ApplyRules(ApplyRules(r, UnitRules), UnitRules) == ApplyRules(r, UnitRules)
  {
    UnitRulesWellFormed();
    ApplyRulesIdempotent(r, UnitRules);
  }


  /** Every rule on the CBC panel is one of the CBC block's. */
  lemma CbcTargets()
    ensures forall rule :: rule in UnitRules && PanelOf(rule) == CbcPanel ==> AnalyteOf(rule) in CbcAnalytes
  {
    forall rule | rule in UnitRules && PanelOf(rule) == CbcPanel
      ensures AnalyteOf(rule) in CbcAnalytes
    {
      OnlyCbcRulesOnCbc(rule);
      CbcRulesShape();
      var i :| 0 <= i < |CbcRules| && CbcRules[i] == rule;
      assert Analytes(CbcRules)[i] == AnalyteOf(rule);
    }
  }

  lemma OnlyCbcRulesOnCbc(rule: UnitRule)
    requires rule in UnitRules && PanelOf(rule) == CbcPanel
    ensures rule in CbcRules
  {
    UnitRulesByBlock();
    var rest := CmpRules + MagnesiumRules + IronRules + HbA1cRules + LipidRules + ThyroidRules + VitaminDRules;
    OtherBlocksOffCbc();
    assert rule in CbcRules || rule in rest;
  }

  /** The rules after the CBC block are on other panels. */
  lemma OtherBlocksOffCbc()
    ensures forall rule :: rule in CmpRules + MagnesiumRules + IronRules + HbA1cRules + LipidRules + ThyroidRules + VitaminDRules
              ==> PanelOf(rule) != CbcPanel
  {
    var others := {"CMP_14", "Magnesium", "Iron_Panel", "HbA1c", "Lipid_Panel", "Thyroid_Profile_II", "Vitamin_D_25_Hydroxy"};
    OtherBlocksPanels(others);
    assert CbcPanel !in others;
  }

  lemma OtherBlocksPanels(others: set<string>)
    requires others == {"CMP_14", "Magnesium", "Iron_Panel", "HbA1c", "Lipid_Panel", "Thyroid_Profile_II", "Vitamin_D_25_Hydroxy"}
    ensures PanelsIn(CmpRules + MagnesiumRules + IronRules + HbA1cRules + LipidRules + ThyroidRules + VitaminDRules, others)
  {
    CmpRulesShape();
    IronRulesShape();
    LipidRulesShape();
    ThyroidRulesShape();
    SingleRulesWellFormed();
    PanelsInConcat(CmpRules, {"CMP_14"}, MagnesiumRules, {"Magnesium"}, others);
    var a := CmpRules + MagnesiumRules;
    PanelsInConcat(a, others, IronRules, {"Iron_Panel"}, others);
    var b := a + IronRules;
    PanelsInConcat(b, others, HbA1cRules, {"HbA1c"}, others);
    var c := b + HbA1cRules;
    PanelsInConcat(c, others, LipidRules, {"Lipid_Panel"}, others);
    var d := c + LipidRules;
    PanelsInConcat(d, others, ThyroidRules, {"Thyroid_Profile_II"}, others);
    var e := d + ThyroidRules;
    PanelsInConcat(e, others, VitaminDRules, {"Vitamin_D_25_Hydroxy"}, others);
  }

  /** Two blocks whose panels lie in one set give a table whose panels lie in it. */
  lemma PanelsInConcat(a: seq<UnitRule>, pa: set<string>, b: seq<UnitRule>, pb: set<string>, panels: set<string>)
    requires PanelsIn(a, pa) && PanelsIn(b, pb) && pa <= panels && pb <= panels
    ensures PanelsIn(a + b, panels)
  {
  }

  /** Rule `i` of the table leaves its analyte as the rule's outcome on the original panels. */
  lemma RuleOutcomeAt(r: Reports, i: nat, rule: UnitRule)
    requires i < |UnitRules| && UnitRules[i] == rule
    ensures EntryAt(ApplyRules(r, UnitRules), PanelOf(rule), AnalyteOf(rule)) ==
            Outcome(rule, EntryAt(r, PanelOf(rule), AnalyteOf(rule)), WbcValue(r))
  {
    UnitRulesWellFormed();
    RuleOutcomeIn(r, UnitRules, i, rule);
  }

  lemma RuleOutcomeIn(r: Reports, rules: seq<UnitRule>, i: nat, rule: UnitRule)
    requires WellFormed(rules) && i < |rules| && rules[i] == rule
    ensures EntryAt(ApplyRules(r, rules), PanelOf(rule), AnalyteOf(rule)) ==
            Outcome(rule, EntryAt(r, PanelOf(rule), AnalyteOf(rule)), WbcValue(r))
  {
    RulesActIndependently(r, rules);
  }

  /** An analyte that no rule of a well-formed table names is left as it was. */
  lemma UnnamedAnalyteUntouched(r: Reports, rules: seq<UnitRule>, panel: string, analyte: string)
    requires WellFormed(rules)
    requires forall rule :: rule in rules && PanelOf(rule) == panel ==> AnalyteOf(rule) != analyte
    ensures EntryAt(ApplyRules(r, rules), panel, analyte) == EntryAt(r, panel, analyte)
  {
    RulesActIndependently(r, rules);
    forall i | 0 <= i < |rules| ensures Targets(rules)[i] != (panel, analyte) {
      assert rules[i] in rules;
    }
  }

  /**
   * The CBC entries the first CBC screen files under "Hemoglobin (HGB)"
   * and "Hematocrit (HCT)" are never converted, whatever their unit: the
   * rules name "Hemoglobin" and "Hematocrit".
   */
  lemma DisplayLabelledEntriesUntouched(r: Reports)
    ensures EntryAt(ApplyRules(r, UnitRules), CbcPanel, "Hemoglobin (HGB)") == EntryAt(r, CbcPanel, "Hemoglobin (HGB)")
    ensures EntryAt(ApplyRules(r, UnitRules), CbcPanel, "Hematocrit (HCT)") == EntryAt(r, CbcPanel, "Hematocrit (HCT)")
  {
    UnitRulesWellFormed();
    CbcTargets();
    DisplayLabelsNotAnalytes();
    UnnamedAnalyteUntouched(r, UnitRules, CbcPanel, "Hemoglobin (HGB)");
    UnnamedAnalyteUntouched(r, UnitRules, CbcPanel, "Hematocrit (HCT)");
  }

  lemma DisplayLabelsNotAnalytes()
    ensures "Hemoglobin (HGB)" !in CbcAnalytes && "Hematocrit (HCT)" !in CbcAnalytes
  {
    forall j | 0 <= j < |CbcAnalytes|
      ensures CbcAnalytes[j] != "Hemoglobin (HGB)" && CbcAnalytes[j] != "Hematocrit (HCT)"
    {
      assert |CbcAnalytes[j]| <= 11 < |"Hemoglobin (HGB)"|;
    }
  }

  /** The differential unit as the CBC screens spell it, with the Greek mu U+03BC. */
  const AbsoluteCountGreekMu := "Absolute (x10\U{B3}/\U{3BC}L)"

  /** The table position of each differential marker's rule. */
  function DifferentialRuleIndex(marker: string): (i: nat)
    requires marker in DifferentialMarkers
    ensures i < |UnitRules| && UnitRules[i] == AbsoluteToPercent(marker)
  {
    UnitRulesByBlock();
    if marker == "Neutrophils" then 7
    else if marker == "Lymphocytes" then 8
    else if marker == "Monocytes" then 9
    else if marker == "Eosinophils" then 10
    else 11
  }

  const DifferentialMarkers := ["Neutrophils", "Lymphocytes", "Monocytes", "Eosinophils", "Basophils"]

  /**
   * A differential entered on the CBC screens, whose unit is spelled with
   * the Greek mu, is never converted to a percentage.
   */
  lemma GreekMuDifferentialUntouched(r: Reports, marker: string)
    requires marker in DifferentialMarkers
    requires Get(EntryAt(r, CbcPanel, marker), "unit") == Str(AbsoluteCountGreekMu)
    ensures EntryAt(ApplyRules(r, UnitRules), CbcPanel, marker) == EntryAt(r, CbcPanel, marker)
  {
    RuleOutcomeAt(r, DifferentialRuleIndex(marker), AbsoluteToPercent(marker));
    GreekMuDoesNotFire(EntryAt(r, CbcPanel, marker), marker, WbcValue(r));
  }

  lemma GreekMuDoesNotFire(entry: Json, marker: string, wbc: Json)
    requires Get(entry, "unit") == Str(AbsoluteCountGreekMu)
    ensures Outcome(AbsoluteToPercent(marker), entry, wbc) == entry
  {
    assert AbsoluteCountGreekMu[15] != AbsoluteCount[15];
  }

  const GlucoseRule := Convert("CMP_14", "Glucose", "mmol/L", "mg/dL", Scale(18.0))
  const HbA1cRule := Convert("HbA1c", "Hemoglobin_A1c", "mmol/mol (IFCC)", "% (NGSP)", ScaleShift(0.09148, 2.15))

  /** Where the glucose and HbA1c rules sit in the table. */
  lemma ExampleRulesAt()
    ensures |UnitRules| == 39 && UnitRules[12] == GlucoseRule && UnitRules[26] == HbA1cRule
  {
    UnitRulesByBlock();
  }

  /** A glucose of 5.5 mmol/L is sent as 99 mg/dL. */
  lemma GlucoseExample(r: Reports)
    requires EntryAt(r, "CMP_14", "Glucose") == Obj(map["value" := Num(5.5), "unit" := Str("mmol/L")])
    ensures EntryAt(ApplyRules(r, UnitRules), "CMP_14", "Glucose") == Obj(map["value" := Num(99.0), "unit" := Str("mg/dL")])
  {
    ExampleRulesAt();
    RuleOutcomeAt(r, 12, GlucoseRule);
    GlucoseOutcome(EntryAt(r, "CMP_14", "Glucose"), WbcValue(r));
  }

  lemma GlucoseOutcome(entry: Json, wbc: Json)
    requires entry == Obj(map["value" := Num(5.5), "unit" := Str("mmol/L")])
    ensures Outcome(GlucoseRule, entry, wbc) == Obj(map["value" := Num(99.0), "unit" := Str("mg/dL")])
  {
    var e := map["value" := Num(5.5), "unit" := Str("mmol/L")];
    assert Times(Num(5.5), 18.0) == Num(99.0);
    assert e["value" := Num(99.0)]["unit" := Str("mg/dL")] == map["value" := Num(99.0), "unit" := Str("mg/dL")];
  }

  /** An HbA1c of 50 mmol/mol (IFCC) is sent as 6.724 % (NGSP). */
  lemma HbA1cExample(r: Reports)
    requires EntryAt(r, "HbA1c", "Hemoglobin_A1c") == Obj(map["value" := Num(50.0), "unit" := Str("mmol/mol (IFCC)")])
    ensures EntryAt(ApplyRules(r, UnitRules), "HbA1c", "Hemoglobin_A1c") ==
            Obj(map["value" := Num(6.724), "unit" := Str("% (NGSP)")])
  {
    ExampleRulesAt();
    RuleOutcomeAt(r, 26, HbA1cRule);
    HbA1cOutcome(EntryAt(r, "HbA1c", "Hemoglobin_A1c"), WbcValue(r));
  }

  lemma HbA1cOutcome(entry: Json, wbc: Json)
    requires entry == Obj(map["value" := Num(50.0), "unit" := Str("mmol/mol (IFCC)")])
    ensures Outcome(HbA1cRule, entry, wbc) == Obj(map["value" := Num(6.724), "unit" := Str("% (NGSP)")])
  {
  }

  /** An absolute neutrophil count of 4.8 with a WBC of 8 is sent as 60 %. */
  lemma DifferentialExample(r: Reports)
    requires Get(EntryAt(r, CbcPanel, "WBC"), "value") == Num(8.0)
    requires EntryAt(r, CbcPanel, "Neutrophils") == Obj(map["value" := Num(4.8), "unit" := Str(AbsoluteCount)])
    ensures EntryAt(ApplyRules(r, UnitRules), CbcPanel, "Neutrophils") == Obj(map["value" := Num(60.0), "unit" := Str("%")])
  {
    RuleOutcomeAt(r, DifferentialRuleIndex("Neutrophils"), AbsoluteToPercent("Neutrophils"));
    DifferentialOutcome(EntryAt(r, CbcPanel, "Neutrophils"), WbcValue(r));
  }

  lemma DifferentialOutcome(entry: Json, wbc: Json)
    requires wbc == Num(8.0)
    requires entry == Obj(map["value" := Num(4.8), "unit" := Str(AbsoluteCount)])
    ensures Outcome(AbsoluteToPercent("Neutrophils"), entry, wbc) == Obj(map["value" := Num(60.0), "unit" := Str("%")])
  {
  }

  /** With no truthy WBC value the differential stays absolute. */
  lemma DifferentialNeedsWbc(r: Reports, marker: string)
    requires marker in DifferentialMarkers
    requires !Truthy(Get(EntryAt(r, CbcPanel, "WBC"), "value"))
    ensures EntryAt(ApplyRules(r, UnitRules), CbcPanel, marker) == EntryAt(r, CbcPanel, marker)
  {
    RuleOutcomeAt(r, DifferentialRuleIndex(marker), AbsoluteToPercent(marker));
  }
}
