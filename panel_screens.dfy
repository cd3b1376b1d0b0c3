/**
 * The manual-entry screens of the lab panels. Each screen seeds its form
 * from the record (OCR output or an earlier visit), lets the user edit
 * values and units, and on submit writes the panel back, merging into or
 * replacing what the record held, before it navigates on.
 */
module PanelScreens {
  import opened Wrappers
  import opened JsValues
  import opened Intake

  /** One input row: the form state is keyed by `title` (the row label), the record entry by `key`. */
  datatype FieldSpec = FieldSpec(title: string, key: string, unitOptions: seq<string>)

  /** The value a field starts with when the record holds none. */
  datatype ValueDefault =
    | EmptyIfMissing          // `v != null ? String(v) : ""`
    | ZeroIfMissingOrEmpty    // `v != null && v !== "" ? String(v) : "0"`

  datatype WriteMode = MergeInto | Replace

  /** Where submit navigates: a fixed screen, or the sequencer after a report key. */
  datatype NextRoute = Fixed(route: string) | AfterReport(reportKey: string)

  datatype FormSpec = FormSpec(fields: seq<FieldSpec>, slot: Slot, defaults: ValueDefault,
                               mode: WriteMode, next: NextRoute)

  function Labels(fields: seq<FieldSpec>): set<string> { set f | f in fields :: f.title }
  function Keys(fields: seq<FieldSpec>): set<string> { set f | f in fields :: f.key }

  /** Every row offers a unit, and rows have distinct labels and distinct keys. */
  predicate ValidSpec(spec: FormSpec)
  {
    (forall i :: 0 <= i < |spec.fields| ==> |spec.fields[i].unitOptions| > 0 && spec.fields[i].unitOptions[0] != "")
    && (forall i, j :: 0 <= i < j < |spec.fields| ==> spec.fields[i].title != spec.fields[j].title)
    && (forall i, j :: 0 <= i < j < |spec.fields| ==> spec.fields[i].key != spec.fields[j].key)
  }

  // ---- the screens ----

  const Cbc2Form := FormSpec([
    FieldSpec("MCHC", "MCHC", ["g/dL", "g/L"]),
    FieldSpec("RDW", "RDW", ["%", "ratio"]),
    FieldSpec("Platelets", "Platelets", ["x10\U{B3}/\U{3BC}L", "x10\U{2079}/L"]),
    FieldSpec("Neutrophils", "Neutrophils", ["%", "Absolute (x10\U{B3}/\U{3BC}L)"]),
    FieldSpec("Lymphocytes", "Lymphocytes", ["%", "Absolute (x10\U{B3}/\U{3BC}L)"])],
    CbcSlot, EmptyIfMissing, MergeInto, Fixed("/upload/cbc3"))

  const Cbc3Form := FormSpec([
    FieldSpec("Monocytes", "Monocytes", ["%", "Absolute (x10\U{B3}/\U{3BC}L)"]),
    FieldSpec("Eosinophils", "Eosinophils", ["%", "Absolute (x10\U{B3}/\U{3BC}L)"]),
    FieldSpec("Basophils", "Basophils", ["%", "Absolute (x10\U{B3}/\U{3BC}L)"])],
    CbcSlot, ZeroIfMissingOrEmpty, MergeInto, Fixed("/upload/cmb141"))

  const CmpFirstForm := FormSpec([
    FieldSpec("Glucose", "Glucose", ["mg/dL", "mg/L"]),
    FieldSpec("Calcium", "Calcium", ["g/dL", "mmol/L"]),
    FieldSpec("Sodium", "Sodium", ["mmol/L", "mEq/L"]),
    FieldSpec("Potassium", "Potassium", ["mmol/L", "mEq/L"]),
    FieldSpec("Chloride", "Chloride", ["mmol/L", "mEq/L"])],
    CmbSlot, ZeroIfMissingOrEmpty, MergeInto, Fixed("/upload/cmb142"))

  const CmpThirdForm := FormSpec([
    FieldSpec("AST", "AST_SGOT", ["U/L"]),
    FieldSpec("ALT", "ALT_SGPT", ["U/L"]),
    FieldSpec("ALP", "Alkaline_Phosphatase", ["U/L"]),
    FieldSpec("BilirubinTotal", "Total_Bilirubin", ["mg/dL", "\U{B5}mol/L"]),
    FieldSpec("BilirubinDirect", "Direct_Bilirubin", ["mg/dL", "\U{B5}mol/L"])],
    CmbSlot, ZeroIfMissingOrEmpty, MergeInto, AfterReport("cmp"))

  const LipidForm := FormSpec([
    FieldSpec("TotalCholesterol", "Total_Cholesterol", ["mg/dL", "mmol/L"]),
    FieldSpec("HDL", "HDL", ["mg/dL", "mmol/L"]),
    FieldSpec("LDL", "LDL", ["mg/dL", "mmol/L"]),
    FieldSpec("Triglycerides", "Triglycerides", ["mg/dL", "mmol/L"])],
    LipidSlot, ZeroIfMissingOrEmpty, Replace, AfterReport("lipidPanel"))

  const IronForm := FormSpec([
    FieldSpec("Ferritin", "Ferritin", ["ng/mL", "\U{B5}g/L"]),
    FieldSpec("Iron", "Iron", ["U/L"]),
    FieldSpec("TIBC", "TIBC", ["\U{B5}g/dL", "\U{B5}mol/L"])],
    IronSlot, ZeroIfMissingOrEmpty, Replace, AfterReport("ironPanel"))

  const HemoglobinForm := FormSpec([
    FieldSpec("HemoglobinA1c", "Hemoglobin_A1c", ["% (NGSP)", "mmol/mol (IFCC)"])],
    HemoglobinSlot, ZeroIfMissingOrEmpty, Replace, AfterReport("hba1c"))

  const ThyroidFirstForm := FormSpec([
    FieldSpec("TSH", "TSH", ["\U{B5}IU/mL", "mIU/L"]),
    FieldSpec("Free_T3", "Free_T3", ["pg/mL", "pmol/L"]),
    FieldSpec("Free_T4", "Free_T4", ["ng/dL", "pmol/L"]),
    FieldSpec("Reverse_T3", "Reverse_T3", ["ng/dL", "pmol/L"]),
    FieldSpec("T3", "T3", ["ng/dL", "nmol/L"])],
    ThyroidSlot, ZeroIfMissingOrEmpty, Replace, Fixed("/upload/thyroid2"))

  const ThyroidSecondForm := FormSpec([
    FieldSpec("T4", "T4", ["\U{B5}g/dL", "nmol/L"]),
    FieldSpec("AntiTPO", "Anti_TPO", ["IU/L"])],
    ThyroidSlot, ZeroIfMissingOrEmpty, MergeInto, AfterReport("thyroid"))

  const VitaminDForm := FormSpec([
    FieldSpec("VitaminD", "25_Hydroxy_Vitamin_D", ["ng/mL", "nmol/L"])],
    VitaminDSlot, ZeroIfMissingOrEmpty, Replace, AfterReport("vitaminD"))

  const MagnesiumForm := FormSpec([
    FieldSpec("Magnesium", "Magnesium", ["mg/dL", "mmol/L"])],
    MagnesiumSlot, ZeroIfMissingOrEmpty, Replace, AfterReport("magnesium"))

  // ---- seeding the form ----

  /** `panel[key]?.[prop]`. */
  function Stored(panel: Panel, key: string, prop: string): Json
  {
    if key in panel then Get(panel[key], prop) else Undefined
  }

  /** The text a field starts with, from the stored value. */
  function InitialValue(defaults: ValueDefault, stored: Json): (r: Json)
    ensures IsString(r)
    ensures defaults == ZeroIfMissingOrEmpty ==> r != Str("")
    ensures !IsNullish(stored) && stored != Str("") ==> r == ToText(stored)
    ensures ToNumber(stored).Some? && !IsNullish(stored) && stored != Str("") && IsString(stored) ==> r == stored
  {
    match defaults
    case EmptyIfMissing => if IsNullish(stored) then Str("") else ToText(stored)
    case ZeroIfMissingOrEmpty => if IsNullish(stored) || stored == Str("") then Str("0") else ToText(stored)
  }

  /** The unit a field starts with: the stored one when it is a non-empty string, else the first option. */
  function InitialUnit(field: FieldSpec, stored: Json): (r: Json)
    requires |field.unitOptions| > 0
    ensures IsString(r)
    ensures field.unitOptions[0] != "" ==> r != Str("")
    ensures r == stored || r == Str(field.unitOptions[0])
  {
    if IsString(stored) && stored != Str("") then stored else Str(field.unitOptions[0])
  }

  /** The `reduce` that seeds `formData`, one field after another. */
  function InitialValues(fields: seq<FieldSpec>, defaults: ValueDefault, panel: Panel): map<string, Json>
  {
    if fields == [] then map[]
    else
      var f := fields[|fields| - 1];
      InitialValues(fields[..|fields| - 1], defaults, panel)[f.title := InitialValue(defaults, Stored(panel, f.key, "value"))]
  }

  /** The `reduce` that seeds `units`. */
  function InitialUnits(fields: seq<FieldSpec>, panel: Panel): map<string, Json>
    requires forall f :: f in fields ==> |f.unitOptions| > 0
  {
    if fields == [] then map[]
    else
      var f := fields[|fields| - 1];
      InitialUnits(fields[..|fields| - 1], panel)[f.title := InitialUnit(f, Stored(panel, f.key, "unit"))]
  }

  /** The seeded form has exactly one entry per row label. */
  lemma {:induction false} InitialFormKeys(fields: seq<FieldSpec>, defaults: ValueDefault, panel: Panel)
    requires forall f :: f in fields ==> |f.unitOptions| > 0
    ensures InitialValues(fields, defaults, panel).Keys == Labels(fields)
    ensures InitialUnits(fields, panel).Keys == Labels(fields)
  {
    if fields != [] {
      var init := fields[..|fields| - 1];
      var f := fields[|fields| - 1];
      assert forall g :: g in init ==> g in fields;
      InitialFormKeys(init, defaults, panel);
      LabelsSnoc(fields);
      assert InitialValues(fields, defaults, panel).Keys == InitialValues(init, defaults, panel).Keys + {f.title};
      assert InitialUnits(fields, panel).Keys == InitialUnits(init, panel).Keys + {f.title};
    }
  }

  /** Row `i` starts from its own stored entry, because no later row shares its label. */
  lemma {:induction false} InitialFormAt(fields: seq<FieldSpec>, defaults: ValueDefault, panel: Panel, i: nat)
    requires forall f :: f in fields ==> |f.unitOptions| > 0
    requires forall j, k :: 0 <= j < k < |fields| ==> fields[j].title != fields[k].title
    requires i < |fields|
    ensures fields[i].title in InitialValues(fields, defaults, panel)
    ensures InitialValues(fields, defaults, panel)[fields[i].title] ==
            InitialValue(defaults, Stored(panel, fields[i].key, "value"))
    ensures fields[i].title in InitialUnits(fields, panel)
    ensures InitialUnits(fields, panel)[fields[i].title] == InitialUnit(fields[i], Stored(panel, fields[i].key, "unit"))
  {
    var n := |fields| - 1;
    var init := fields[..n];
    assert forall f :: f in init ==> f in fields;
    if i < n {
      InitialFormAt(init, defaults, panel, i);
      assert init[i] == fields[i];
      assert fields[i].title != fields[n].title;
    }
  }

  // ---- submitting ----

  /** `formData[label]`, `undefined` when absent. */
  function Field(m: map<string, Json>, title: string): Json
  {
    if title in m then m[title] else Undefined
  }

  /** The `{ value, unit }` entry a row is written as. */
  function Entry(value: Json, unit: Json): Json
  {
    Obj(map["value" := value, "unit" := unit])
  }

  /** The entries the submit writes: one per field, under its key. */
  function Written(fields: seq<FieldSpec>, values: map<string, Json>, units: map<string, Json>): map<string, Json>
  {
    if fields == [] then map[]
    else
      var f := fields[|fields| - 1];
      Written(fields[..|fields| - 1], values, units)[f.key := Entry(Field(values, f.title), Field(units, f.title))]
  }

  lemma {:induction false} WrittenKeys(fields: seq<FieldSpec>, values: map<string, Json>, units: map<string, Json>)
    ensures Written(fields, values, units).Keys == Keys(fields)
  {
    if fields != [] {
      var init := fields[..|fields| - 1];
      WrittenKeys(init, values, units);
      assert fields == init + [fields[|fields| - 1]];
      assert Keys(fields) == Keys(init) + {fields[|fields| - 1].key};
    }
  }

  /** Row `i` is written under its key from its own label's state. */
  lemma {:induction false} WrittenAt(fields: seq<FieldSpec>, values: map<string, Json>, units: map<string, Json>, i: nat)
    requires forall j, k :: 0 <= j < k < |fields| ==> fields[j].key != fields[k].key
    requires i < |fields|
    ensures fields[i].key in Written(fields, values, units)
    ensures Written(fields, values, units)[fields[i].key] == Entry(Field(values, fields[i].title), Field(units, fields[i].title))
  {
    var n := |fields| - 1;
    var init := fields[..n];
    if i < n {
      WrittenAt(init, values, units, i);
      assert init[i] == fields[i];
      assert fields[i].key != fields[n].key;
    }
  }

  /** Every row is written under its key from its own label's state. */
  lemma WrittenEvery(fields: seq<FieldSpec>, values: map<string, Json>, units: map<string, Json>)
    requires forall j, k :: 0 <= j < k < |fields| ==> fields[j].key != fields[k].key
    ensures forall f :: f in fields ==>
              f.key in Written(fields, values, units)
              && Written(fields, values, units)[f.key] == Entry(Field(values, f.title), Field(units, f.title))
  {
    forall f | f in fields
      ensures f.key in Written(fields, values, units)
      ensures Written(fields, values, units)[f.key] == Entry(Field(values, f.title), Field(units, f.title))
    {
      var i :| 0 <= i < |fields| && fields[i] == f;
      WrittenAt(fields, values, units, i);
    }
  }

  /** The panel a submit stores: `{...(prev || {}), ...written}` or just `written`. */
  function SubmittedPanel(spec: FormSpec, prev: Option<Panel>, values: map<string, Json>, units: map<string, Json>): Panel
  {
    var written := Written(spec.fields, values, units);
    match spec.mode
    case MergeInto => prev.GetOr(map[]) + written
    case Replace => written
  }

  /**
   * Submit writes every row under its key; a merging screen keeps every
   * other analyte of the stored panel, a replacing screen drops them.
   */
  lemma SubmittedPanelContents(spec: FormSpec, prev: Option<Panel>, values: map<string, Json>, units: map<string, Json>)
    requires ValidSpec(spec)
    ensures forall f :: f in spec.fields ==>
              f.key in SubmittedPanel(spec, prev, values, units)
              && SubmittedPanel(spec, prev, values, units)[f.key] == Entry(Field(values, f.title), Field(units, f.title))
    ensures spec.mode == Replace ==> SubmittedPanel(spec, prev, values, units).Keys == Keys(spec.fields)
    ensures spec.mode == MergeInto ==>
              SubmittedPanel(spec, prev, values, units).Keys == prev.GetOr(map[]).Keys + Keys(spec.fields)
              && forall k :: k in prev.GetOr(map[]) && k !in Keys(spec.fields) ==>
                   SubmittedPanel(spec, prev, values, units)[k] == prev.GetOr(map[])[k]
  {
    SubmittedRows(spec, prev, values, units);
    SubmittedOthers(spec, prev, values, units);
  }

  lemma SubmittedRows(spec: FormSpec, prev: Option<Panel>, values: map<string, Json>, units: map<string, Json>)
    requires ValidSpec(spec)
    ensures forall f :: f in spec.fields ==>
              f.key in SubmittedPanel(spec, prev, values, units)
              && SubmittedPanel(spec, prev, values, units)[f.key] == Entry(Field(values, f.title), Field(units, f.title))
  {
    var written := Written(spec.fields, values, units);
    WrittenEvery(spec.fields, values, units);
    if spec.mode == MergeInto {
      assert SubmittedPanel(spec, prev, values, units) == prev.GetOr(map[]) + written;
      MergeKeeps(prev.GetOr(map[]), written);
    } else {
      assert SubmittedPanel(spec, prev, values, units) == written;
    }
  }

  lemma SubmittedOthers(spec: FormSpec, prev: Option<Panel>, values: map<string, Json>, units: map<string, Json>)
    ensures spec.mode == Replace ==> SubmittedPanel(spec, prev, values, units).Keys == Keys(spec.fields)
    ensures spec.mode == MergeInto ==>
              SubmittedPanel(spec, prev, values, units).Keys == prev.GetOr(map[]).Keys + Keys(spec.fields)
              && forall k :: k in prev.GetOr(map[]) && k !in Keys(spec.fields) ==>
                   SubmittedPanel(spec, prev, values, units)[k] == prev.GetOr(map[])[k]
  {
    var written := Written(spec.fields, values, units);
    WrittenKeys(spec.fields, values, units);
    if spec.mode == MergeInto {
      assert SubmittedPanel(spec, prev, values, units) == prev.GetOr(map[]) + written;
      MergeKeeps(prev.GetOr(map[]), written);
    } else {
      assert SubmittedPanel(spec, prev, values, units) == written;
    }
  }

  /** `{...prev, ...written}`: the written entries win, and the others stay. */
  lemma MergeKeeps(prev: Panel, written: Panel)
    ensures (prev + written).Keys == prev.Keys + written.Keys
    ensures forall k :: k in written ==> (prev + written)[k] == written[k]
    ensures forall k :: k in prev && k !in written ==> (prev + written)[k] == prev[k]
  {
  }

  /** A stored row that a screen could have written: `{value, unit}` with non-empty strings. */
  predicate IsFilledRow(entry: Json)
  {
    entry.Obj? && entry.fields.Keys == {"value", "unit"}
    && IsString(entry.fields["value"]) && entry.fields["value"] != Str("")
    && IsString(entry.fields["unit"]) && entry.fields["unit"] != Str("")
  }

  /** Re-seeding a filled row and writing it back gives the row itself. */
  lemma UntouchedRowRestored(spec: FormSpec, panel: Panel, i: nat)
    requires ValidSpec(spec) && i < |spec.fields|
    requires spec.fields[i].key in panel && IsFilledRow(panel[spec.fields[i].key])
    ensures Entry(Field(InitialValues(spec.fields, spec.defaults, panel), spec.fields[i].title),
                  Field(InitialUnits(spec.fields, panel), spec.fields[i].title)) == panel[spec.fields[i].key]
  {
    var f := spec.fields[i];
    var m := panel[f.key].fields;
    InitialFormAt(spec.fields, spec.defaults, panel, i);
    assert Stored(panel, f.key, "value") == m["value"];
    assert Stored(panel, f.key, "unit") == m["unit"];
    assert map["value" := m["value"], "unit" := m["unit"]] == m;
  }

  /**
   * Opening a screen on a panel whose rows it could have written and
   * submitting without edits stores the same rows again.
   */
  lemma UntouchedResubmitRestores(spec: FormSpec, panel: Panel)
    requires ValidSpec(spec)
    requires forall f :: f in spec.fields ==> f.key in panel && IsFilledRow(panel[f.key])
    ensures forall f :: f in spec.fields ==>
              f.key in SubmittedPanel(spec, Some(panel), InitialValues(spec.fields, spec.defaults, panel),
                                      InitialUnits(spec.fields, panel))
              && SubmittedPanel(spec, Some(panel), InitialValues(spec.fields, spec.defaults, panel),
                                InitialUnits(spec.fields, panel))[f.key] == panel[f.key]
  {
    var values, units := InitialValues(spec.fields, spec.defaults, panel), InitialUnits(spec.fields, panel);
    SubmittedPanelContents(spec, Some(panel), values, units);
    forall f | f in spec.fields
      ensures SubmittedPanel(spec, Some(panel), values, units)[f.key] == panel[f.key]
    {
      var i :| 0 <= i < |spec.fields| && spec.fields[i] == f;
      UntouchedRowRestored(spec, panel, i);
    }
  }

  /** The route submit navigates to; the sequencer reads the selection the screen opened with. */
  function RouteAfter(next: NextRoute, selected: Option<seq<string>>): string
  {
    match next
    case Fixed(route) => route
    case AfterReport(key) => NextReportPage(selected, key)
  }

  /** One panel screen's own form state. */
  class PanelScreen {
    const spec: FormSpec
    var values: map<string, Json>
    var units: map<string, Json>

    /** Seeds the form from the record, field by field. */
    constructor (form: FormSpec, store: IntakeStore)
      requires ValidSpec(form)
      ensures spec == form
      ensures values == InitialValues(form.fields, form.defaults, PanelAt(store.intake, form.slot).GetOr(map[]))
      ensures units == InitialUnits(form.fields, PanelAt(store.intake, form.slot).GetOr(map[]))
    {
      spec := form;
      var panel := PanelAt(store.intake, form.slot).GetOr(map[]);
      var v: map<string, Json> := map[];
      var u: map<string, Json> := map[];
      for i := 0 to |form.fields|
        invariant v == InitialValues(form.fields[..i], form.defaults, panel)
        invariant u == InitialUnits(form.fields[..i], panel)
      {
        var f := form.fields[i];
        assert form.fields[..i + 1][..i] == form.fields[..i];
        v := v[f.title := InitialValue(form.defaults, Stored(panel, f.key, "value"))];
        u := u[f.title := InitialUnit(f, Stored(panel, f.key, "unit"))];
      }
      assert form.fields[..|form.fields|] == form.fields;
      values := v;
      units := u;
    }

    /** `handleChange`: `{ ...formData, [field]: value }`. */
    method HandleChange(field: string, value: string)
      modifies this
      ensures values == old(values)[field := Str(value)] && units == old(units)
    {
      values := values[field := Str(value)];
    }

    /** `handleUnitChange`: `{ ...units, [field]: unit }`. */
    method HandleUnitChange(field: string, unit: string)
      modifies this
      ensures units == old(units)[field := Str(unit)] && values == old(values)
    {
      units := units[field := Str(unit)];
    }

    /** Writes the panel into the record and answers the next route. */
    method HandleSubmit(store: IntakeStore) returns (route: string)
      modifies store
      ensures store.intake == WithPanel(old(store.intake), spec.slot,
                                        Some(SubmittedPanel(spec, PanelAt(old(store.intake), spec.slot), values, units)))
      ensures route == RouteAfter(spec.next, old(store.intake).selectedReports)
    {
      var selected := store.intake.selectedReports;
      store.SetPanel(spec.slot, Some(SubmittedPanel(spec, PanelAt(store.intake, spec.slot), values, units)));
      route := RouteAfter(spec.next, selected);
    }
  }

  // ---- the first CBC screen ----

  /** CBC1's rows; its state is keyed by label and written as is. */
  const Cbc1Fields := [
    FieldSpec("MCHC", "MCHC", ["g/dL"]),
    FieldSpec("RDW", "RDW", ["%"]),
    FieldSpec("Platelets", "Platelets", ["x10\U{B3}/\U{3BC}L"]),
    FieldSpec("Neutrophils", "Neutrophils", ["%"]),
    FieldSpec("Lymphocytes", "Lymphocytes", ["%"]),
    FieldSpec("WBC", "WBC", ["x10\U{B3}/\U{B5}L", "x10\U{B3}/L"]),
    FieldSpec("Hemoglobin (HGB)", "Hemoglobin (HGB)", ["g/dL", "g/L"]),
    FieldSpec("Hematocrit (HCT)", "Hematocrit (HCT)", ["%", "fraction (0\U{2013}1)"]),
    FieldSpec("MCV", "MCV", ["fL"]),
    FieldSpec("MCH", "MCH", ["pg"])]

  /** CBC1's seed for one row: `value != null ? String(value) : "0"`, `unit != null ? unit : first option`. */
  function Cbc1Entry(field: FieldSpec, stored: Json): (r: Json)
    requires |field.unitOptions| > 0
    ensures r.Obj? && r.fields.Keys == {"value", "unit"}
    ensures IsString(r.fields["value"]) && !IsNullish(r.fields["unit"])
    ensures IsNullish(Get(stored, "unit")) ==> r.fields["unit"] == Str(field.unitOptions[0])
  {
    var value := Get(stored, "value");
    var unit := Get(stored, "unit");
    Entry(if IsNullish(value) then Str("0") else ToText(value),
          if IsNullish(unit) then Str(field.unitOptions[0]) else unit)
  }

  function Cbc1Initial(fields: seq<FieldSpec>, panel: Panel): map<string, Json>
    requires forall f :: f in fields ==> |f.unitOptions| > 0
  {
    if fields == [] then map[]
    else
      var f := fields[|fields| - 1];
      var stored := if f.title in panel then panel[f.title] else Undefined;
      Cbc1Initial(fields[..|fields| - 1], panel)[f.title := Cbc1Entry(f, stored)]
  }

  lemma {:induction false} Cbc1InitialKeys(fields: seq<FieldSpec>, panel: Panel)
    requires forall f :: f in fields ==> |f.unitOptions| > 0
    ensures Cbc1Initial(fields, panel).Keys == Labels(fields)
  {
    if fields != [] {
      var init := fields[..|fields| - 1];
      Cbc1InitialKeys(init, panel);
      LabelsSnoc(fields);
    }
  }

  lemma LabelsSnoc(fields: seq<FieldSpec>)
    requires fields != []
    ensures Labels(fields) == Labels(fields[..|fields| - 1]) + {fields[|fields| - 1].title}
  {
    assert fields == fields[..|fields| - 1] + [fields[|fields| - 1]];
  }

  /** `{ ...prev[field], [prop]: v }`. */
  function WithProp(entry: Json, prop: string, v: Json): (r: Json)
    ensures r.Obj? && prop in r.fields && r.fields[prop] == v
    ensures entry.Obj? ==> r.fields == entry.fields[prop := v]
  {
    Obj((if entry.Obj? then entry.fields else map[])[prop := v])
  }

  lemma Cbc1FieldsOfferUnits()
    ensures forall f :: f in Cbc1Fields ==> |f.unitOptions| > 0
  {
    assert forall i :: 0 <= i < |Cbc1Fields| ==> |Cbc1Fields[i].unitOptions| > 0;
  }

  /** The `reduce` that seeds CBC1's rows, assigning one row after another into the accumulator. */
  method SeedCbcRows(fields: seq<FieldSpec>, panel: Panel) returns (acc: map<string, Json>)
    requires forall f :: f in fields ==> |f.unitOptions| > 0
    ensures acc == Cbc1Initial(fields, panel)
  {
    acc := map[];
    for i := 0 to |fields|
      invariant acc == Cbc1Initial(fields[..i], panel)
    {
      var f := fields[i];
      assert fields[..i + 1][..i] == fields[..i];
      var stored := if f.title in panel then panel[f.title] else Undefined;
      acc := acc[f.title := Cbc1Entry(f, stored)];
    }
    assert fields[..|fields|] == fields;
  }

  /** CBC1.tsx: one map of `{value, unit}` rows, keyed by label. */
  class CbcFirstScreen {
    var rows: map<string, Json>

    constructor (store: IntakeStore)
      ensures rows == Cbc1Initial(Cbc1Fields, PanelAt(store.intake, CbcSlot).GetOr(map[]))
    {
      Cbc1FieldsOfferUnits();
      var seeded := SeedCbcRows(Cbc1Fields, PanelAt(store.intake, CbcSlot).GetOr(map[]));
      rows := seeded;
    }

    method HandleChange(field: string, value: string)
      modifies this
      ensures rows == old(rows)[field := WithProp(if field in old(rows) then old(rows)[field] else Undefined, "value", Str(value))]
    {
      rows := rows[field := WithProp(if field in rows then rows[field] else Undefined, "value", Str(value))];
    }

    method HandleUnitChange(field: string, unit: string)
      modifies this
      ensures rows == old(rows)[field := WithProp(if field in old(rows) then old(rows)[field] else Undefined, "unit", Str(unit))]
    {
      rows := rows[field := WithProp(if field in rows then rows[field] else Undefined, "unit", Str(unit))];
    }

    /** Replaces the whole CBC panel with the rows and opens the second CBC screen. */
    method HandleSubmit(store: IntakeStore) returns (route: string)
      modifies store
      ensures store.intake == old(store.intake).(cbc := Some(rows))
      ensures route == "/upload/cbc2"
    {
      store.SetPanel(CbcSlot, Some(rows));
      route := "/upload/cbc2";
    }
  }

  // ---- what the screens add up to ----

  /** Every screen's rows have distinct labels and keys and offer a unit. */
  lemma FormsAreValid()
    ensures ValidSpec(Cbc2Form)
    ensures ValidSpec(Cbc3Form)
    ensures ValidSpec(CmpFirstForm)
    ensures ValidSpec(CmpThirdForm)
    ensures ValidSpec(LipidForm)
    ensures ValidSpec(IronForm)
    ensures ValidSpec(HemoglobinForm)
    ensures ValidSpec(ThyroidFirstForm)
    ensures ValidSpec(ThyroidSecondForm)
    ensures ValidSpec(VitaminDForm)
    ensures ValidSpec(MagnesiumForm)
  {
    Cbc2FormIsValid();
    Cbc3FormIsValid();
    CmpFirstFormIsValid();
    CmpThirdFormIsValid();
    LipidFormIsValid();
    IronFormIsValid();
    HemoglobinFormIsValid();
    ThyroidFirstFormIsValid();
    ThyroidSecondFormIsValid();
    VitaminDFormIsValid();
    MagnesiumFormIsValid();
  }

  lemma Cbc2FormIsValid() ensures ValidSpec(Cbc2Form) { WellFormedIsValid(Cbc2Form); }
  lemma Cbc3FormIsValid() ensures ValidSpec(Cbc3Form) { WellFormedIsValid(Cbc3Form); }
  lemma CmpFirstFormIsValid() ensures ValidSpec(CmpFirstForm) { WellFormedIsValid(CmpFirstForm); }
  lemma CmpThirdFormIsValid() ensures ValidSpec(CmpThirdForm) { WellFormedIsValid(CmpThirdForm); }
  lemma LipidFormIsValid() ensures ValidSpec(LipidForm) { WellFormedIsValid(LipidForm); }
  lemma IronFormIsValid() ensures ValidSpec(IronForm) { WellFormedIsValid(IronForm); }
  lemma HemoglobinFormIsValid() ensures ValidSpec(HemoglobinForm) { WellFormedIsValid(HemoglobinForm); }
  lemma ThyroidFirstFormIsValid() ensures ValidSpec(ThyroidFirstForm) { WellFormedIsValid(ThyroidFirstForm); }
  lemma ThyroidSecondFormIsValid() ensures ValidSpec(ThyroidSecondForm) { WellFormedIsValid(ThyroidSecondForm); }
  lemma VitaminDFormIsValid() ensures ValidSpec(VitaminDForm) { WellFormedIsValid(VitaminDForm); }
  lemma MagnesiumFormIsValid() ensures ValidSpec(MagnesiumForm) { WellFormedIsValid(MagnesiumForm); }

  /** `ValidSpec` checked row by row, a form the verifier evaluates on a screen's constant rows. */
  predicate WellFormedRows(fields: seq<FieldSpec>)
  {
    fields == []
    || (|fields[0].unitOptions| > 0 && fields[0].unitOptions[0] != ""
        && TitleAbsent(fields[0].title, fields[1..]) && KeyAbsent(fields[0].key, fields[1..])
        && WellFormedRows(fields[1..]))
  }

  predicate TitleAbsent(t: string, fields: seq<FieldSpec>)
  {
    fields == [] || (fields[0].title != t && TitleAbsent(t, fields[1..]))
  }

  predicate KeyAbsent(k: string, fields: seq<FieldSpec>)
  {
    fields == [] || (fields[0].key != k && KeyAbsent(k, fields[1..]))
  }

  lemma {:induction false} TitleAbsentSound(t: string, fields: seq<FieldSpec>)
    requires TitleAbsent(t, fields)
    ensures forall j :: 0 <= j < |fields| ==> fields[j].title != t
  {
    if fields != [] {
      TitleAbsentSound(t, fields[1..]);
      forall j | 1 <= j < |fields| ensures fields[j].title != t {
        assert fields[1..][j - 1] == fields[j];
      }
    }
  }

  lemma {:induction false} KeyAbsentSound(k: string, fields: seq<FieldSpec>)
    requires KeyAbsent(k, fields)
    ensures forall j :: 0 <= j < |fields| ==> fields[j].key != k
  {
    if fields != [] {
      KeyAbsentSound(k, fields[1..]);
      forall j | 1 <= j < |fields| ensures fields[j].key != k {
        assert fields[1..][j - 1] == fields[j];
      }
    }
  }

  lemma {:induction false} WellFormedRowsSound(fields: seq<FieldSpec>)
    requires WellFormedRows(fields)
    ensures forall i :: 0 <= i < |fields| ==> |fields[i].unitOptions| > 0 && fields[i].unitOptions[0] != ""
    ensures forall i, j :: 0 <= i < j < |fields| ==> fields[i].title != fields[j].title
    ensures forall i, j :: 0 <= i < j < |fields| ==> fields[i].key != fields[j].key
  {
    if fields != [] {
      var rest := fields[1..];
      WellFormedRowsSound(rest);
      TitleAbsentSound(fields[0].title, rest);
      KeyAbsentSound(fields[0].key, rest);
      forall i | 1 <= i < |fields| ensures fields[i] == rest[i - 1] {
      }
    }
  }

  lemma WellFormedIsValid(spec: FormSpec)
    requires WellFormedRows(spec.fields)
    ensures ValidSpec(spec)
  {
    WellFormedRowsSound(spec.fields);
  }

  lemma Cbc1Labels()
    ensures Labels(Cbc1Fields) == {"MCHC", "RDW", "Platelets", "Neutrophils", "Lymphocytes", "WBC",
                                   "Hemoglobin (HGB)", "Hematocrit (HCT)", "MCV", "MCH"}
  {
    assert Cbc1Fields == [Cbc1Fields[0], Cbc1Fields[1], Cbc1Fields[2], Cbc1Fields[3], Cbc1Fields[4],
                          Cbc1Fields[5], Cbc1Fields[6], Cbc1Fields[7], Cbc1Fields[8], Cbc1Fields[9]];
  }

  lemma Cbc2Keys()
    ensures Keys(Cbc2Form.fields) == {"MCHC", "RDW", "Platelets", "Neutrophils", "Lymphocytes"}
  {
    var fs := Cbc2Form.fields;
    assert fs == [fs[0], fs[1], fs[2], fs[3], fs[4]];
  }

  lemma Cbc3Keys()
    ensures Keys(Cbc3Form.fields) == {"Monocytes", "Eosinophils", "Basophils"}
  {
    var fs := Cbc3Form.fields;
    assert fs == [fs[0], fs[1], fs[2]];
  }

  /** The key set a submit leaves, whatever the rows hold. */
  lemma SubmittedKeys(spec: FormSpec, prev: Option<Panel>, values: map<string, Json>, units: map<string, Json>)
    ensures SubmittedPanel(spec, prev, values, units).Keys ==
            (if spec.mode == Replace then Keys(spec.fields) else prev.GetOr(map[]).Keys + Keys(spec.fields))
  {
    WrittenKeys(spec.fields, values, units);
  }

  /**
   * After the three CBC screens the CBC panel holds exactly their rows,
   * whatever the OCR reply had put there, because CBC1 replaces the panel:
   * RBC and the plain "Hemoglobin" and "Hematocrit" keys never reach the
   * report, while hemoglobin travels under its display label.
   */
  lemma CbcScreensFixThePanelKeys(panel: Panel, v2: map<string, Json>, u2: map<string, Json>,
                                  v3: map<string, Json>, u3: map<string, Json>)
    ensures SubmittedPanel(Cbc3Form, Some(SubmittedPanel(Cbc2Form, Some(Cbc1Initial(Cbc1Fields, panel)), v2, u2)), v3, u3).Keys
            == CbcScreenKeys
  {
    Cbc1FieldsOfferUnits();
    var rows1 := Cbc1Initial(Cbc1Fields, panel);
    Cbc1InitialKeys(Cbc1Fields, panel);
    var rows2 := SubmittedPanel(Cbc2Form, Some(rows1), v2, u2);
    SubmittedKeys(Cbc2Form, Some(rows1), v2, u2);
    assert rows2.Keys == Labels(Cbc1Fields) + Keys(Cbc2Form.fields);
    SubmittedKeys(Cbc3Form, Some(rows2), v3, u3);
    CbcRowKeys();
  }

  /** The keys the three CBC screens write. */
  lemma CbcRowKeys()
    ensures Labels(Cbc1Fields) + Keys(Cbc2Form.fields) + Keys(Cbc3Form.fields) == CbcScreenKeys
  {
    Cbc1Labels();
    Cbc2Keys();
    Cbc3Keys();
  }

  const CbcScreenKeys := {"MCHC", "RDW", "Platelets", "Neutrophils", "Lymphocytes", "WBC", "Hemoglobin (HGB)",
                          "Hematocrit (HCT)", "MCV", "MCH", "Monocytes", "Eosinophils", "Basophils"}

  /** No RBC among them, and hemoglobin and hematocrit only under their display labels. */
  lemma CbcScreenKeysOmitOcrNames()
    ensures "RBC" !in CbcScreenKeys && "Hemoglobin" !in CbcScreenKeys && "Hematocrit" !in CbcScreenKeys
    ensures "Hemoglobin (HGB)" in CbcScreenKeys && "Hematocrit (HCT)" in CbcScreenKeys
  {
  }

  lemma ThyroidFirstKeys()
    ensures Keys(ThyroidFirstForm.fields) == {"TSH", "Free_T3", "Free_T4", "Reverse_T3", "T3"}
  {
    var fs := ThyroidFirstForm.fields;
    assert fs == [fs[0], fs[1], fs[2], fs[3], fs[4]];
  }

  lemma ThyroidSecondKeys()
    ensures Keys(ThyroidSecondForm.fields) == {"T4", "Anti_TPO"}
  {
    var fs := ThyroidSecondForm.fields;
    assert fs == [fs[0], fs[1]];
  }

  /** The two thyroid screens together leave exactly the seven thyroid analytes. */
  lemma ThyroidScreensFixThePanelKeys(prev: Option<Panel>, v1: map<string, Json>, u1: map<string, Json>,
                                      v2: map<string, Json>, u2: map<string, Json>)
    ensures SubmittedPanel(ThyroidSecondForm, Some(SubmittedPanel(ThyroidFirstForm, prev, v1, u1)), v2, u2).Keys ==
            {"TSH", "Free_T3", "Free_T4", "Reverse_T3", "T3", "T4", "Anti_TPO"}
  {
    ThyroidFirstKeys();
    ThyroidSecondKeys();
    SubmittedKeys(ThyroidFirstForm, prev, v1, u1);
    SubmittedKeys(ThyroidSecondForm, Some(SubmittedPanel(ThyroidFirstForm, prev, v1, u1)), v2, u2);
  }
}
