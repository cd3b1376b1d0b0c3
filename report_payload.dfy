/**
 * The payload the report screen assembles from the intake record, the
 * defaults it fills in, and the full preparation it performs before the
 * payload is posted to the report service.
 */
module ReportPayload {
  import opened Wrappers
  import opened JsValues
  import opened Intake
  import opened Navigation
  import opened LabLeaves
  import opened LabUnits
  import UnitConversion
  import UploadScreen

  function OptionalBool(b: Option<bool>): Json
  {
    match b
    case None => Undefined
    case Some(x) => Bool(x)
  }

  function OptionalText(s: Option<string>): Json
  {
    match s
    case None => Undefined
    case Some(x) => Str(x)
  }

  function OptionalPanel(p: Option<Panel>): Json
  {
    match p
    case None => Undefined
    case Some(m) => Obj(m)
  }

  /** The backend panel names, each holding the record's panel of that slot. */
  function SentPanels(d: IntakeData): map<string, Json>
  {
    map["CBC_with_Differential" := OptionalPanel(d.cbc),
        "CMP_14" := OptionalPanel(d.cmb),
        "Lipid_Panel" := OptionalPanel(d.lipid),
        "Thyroid_Profile_II" := OptionalPanel(d.thyroid),
        "Vitamin_D_25_Hydroxy" := OptionalPanel(d.vitaminD),
        "Iron_Panel" := OptionalPanel(d.iron),
        "Magnesium" := OptionalPanel(d.magnesium),
        "HbA1c" := OptionalPanel(d.hemoglobin)]
  }

  /**
   * The payload literal: both consents are sent as given, the gender is
   * sent under both gender keys, and the upload option is "manual".
   */
  function BuildPayload(d: IntakeData, userId: Json): map<string, Json>
  {
    map["user_id" := userId,
        "age_over_18" := Bool(true),
        "bloodwork_within_6_months" := Bool(true),
        "gender" := OptionalText(d.gender),
        "gender_at_birth" := OptionalText(d.gender),
        "pregnant_or_nursing" := OptionalBool(d.pregnantOrNursing),
        "menstruation_status" := OptionalText(d.menstruationStatus),
        "bowel_movements" := OptionalText(d.bowelMovement),
        "lab_upload_option" := Str("manual"),
        "lab_reports" := Obj(SentPanels(d))]
  }

  /** `payload[key]`, `undefined` when absent. */
  function Field(p: map<string, Json>, key: string): Json
  {
    if key in p then p[key] else Undefined
  }

  /** `Object.fromEntries(Object.entries(reports ?? {}).map(([k, v]) => [k, normalizeLabReport(v)]))`. */
  function NormalizeReports(reports: Json): map<string, Json>
  {
    if reports.Obj? then map k | k in reports.fields :: NormalizeLabReport(reports.fields[k]) else map[]
  }

  /** The flag and text keys `normalizePayload` defaults. */
  const FlagKeys := {"age_over_18", "bloodwork_within_6_months", "pregnant_or_nursing"}
  const TextKeys := {"gender", "gender_at_birth", "menstruation_status", "bowel_movements", "lab_upload_option"}
  const DefaultedKeys := FlagKeys + TextKeys + {"lab_reports"}

  /** One key of `normalizePayload`'s result. */
  function NormalizedField(p: map<string, Json>, k: string): Json
  {
    if k in FlagKeys then OrElse(Field(p, k), Bool(false))
    else if k in TextKeys then OrElse(Field(p, k), Str(""))
    else if k == "lab_reports" then Obj(NormalizeReports(Field(p, k)))
    else Field(p, k)
  }

  /**
   * `normalizePayload`: the payload spread, then the defaulted keys written
   * over it (nullish flags become false, nullish texts "", every panel coerced).
   */
  function NormalizePayload(p: map<string, Json>): map<string, Json>
  {
    map k | k in p.Keys + DefaultedKeys :: NormalizedField(p, k)
  }

  /**
   * Only nullish flags and texts are replaced, by false and "" respectively;
   * every other key of the payload is kept, and the panels are coerced one by one.
   */
  lemma NormalizePayloadDefaults(p: map<string, Json>)
    ensures NormalizePayload(p).Keys == p.Keys + DefaultedKeys
    ensures forall k :: k in FlagKeys ==> NormalizePayload(p)[k] == (if IsNullish(Field(p, k)) then Bool(false) else p[k])
    ensures forall k :: k in TextKeys ==> NormalizePayload(p)[k] == (if IsNullish(Field(p, k)) then Str("") else p[k])
    ensures forall k :: k in p && k !in DefaultedKeys ==> NormalizePayload(p)[k] == p[k]
    ensures NormalizePayload(p)["lab_reports"].Obj?
    ensures Field(p, "lab_reports").Obj? ==>
              NormalizePayload(p)["lab_reports"].fields.Keys == Field(p, "lab_reports").fields.Keys
  {
  }

  /** The flags and texts come out as booleans-or-set values and strings-or-set values: never nullish. */
  lemma NormalizePayloadNeverNullish(p: map<string, Json>)
    ensures forall k :: k in DefaultedKeys ==> !IsNullish(NormalizePayload(p)[k])
  {
  }

  /** Defaulting twice is defaulting once. */
  lemma {:induction false} NormalizePayloadIdempotent(p: map<string, Json>)
    ensures NormalizePayload(NormalizePayload(p)) == NormalizePayload(p)
  {
    var q := NormalizePayload(p);
    assert q["lab_reports"] == Obj(NormalizeReports(Field(p, "lab_reports")));
    NormalizeReportsIdempotent(Field(p, "lab_reports"));
    forall k | k in q.Keys
      ensures NormalizedField(q, k) == q[k]
    {
    }
  }

  /** Coercing coerced panels changes nothing. */
  lemma NormalizeReportsIdempotent(reports: Json)
    ensures NormalizeReports(Obj(NormalizeReports(reports))) == NormalizeReports(reports)
  {
    var once := NormalizeReports(reports);
    forall k | k in once
      ensures NormalizeLabReport(once[k]) == once[k]
    {
      NormalizeLabReportIdempotent(reports.fields[k]);
    }
  }

  /** Everything the screen does to the record before posting it. */
  function PreparedPayload(d: IntakeData, userId: Json): map<string, Json>
  {
    ConvertUnits(NormalizePayload(BuildPayload(d, userId)))
  }

  /**
   * `handleGenerateReport`: builds, defaults and converts the payload. The
   * POST is left to the caller, who passes the HTTP status of the reply when
   * `fetchBlob` and `response.blob()` do not throw, and `None` when either
   * does. `fetchBlob` never looks at the status, so any reply, an error
   * status included, is downloaded and navigates with the success toast.
   */
  method GenerateReport(store: IntakeStore, userId: Json, replyStatus: Option<int>) returns (payload: map<string, Json>, nav: Option<Nav>)
    ensures payload == PreparedPayload(store.intake, userId)
    ensures replyStatus.Some? ==> nav == Some(Nav("/reports", SuccessToast))
    ensures replyStatus.None? ==> nav == None
  {
    var lab := new LabPayload(NormalizePayload(BuildPayload(store.intake, userId)));
    lab.NormalizeLabUnits();
    payload := lab.fields;
    match replyStatus
    case Some(_) => nav := Some(Nav("/reports", SuccessToast));
    case None => nav := None;
  }

  /** The panel the payload carries for one slot: the record's panel, coerced. */
  function SentPanel(d: IntakeData, slot: Slot): Json
  {
    NormalizeLabReport(OptionalPanel(PanelAt(d, slot)))
  }

  /** The normalised payload of the record, before conversion. */
  lemma NormalizedPayloadContents(d: IntakeData, userId: Json)
    ensures var p := NormalizePayload(BuildPayload(d, userId));
            && p.Keys == BuildPayload(d, userId).Keys
            && p["user_id"] == userId
            && p["age_over_18"] == Bool(true) && p["bloodwork_within_6_months"] == Bool(true)
            && p["gender"] == Str(d.gender.GetOr("")) && p["gender_at_birth"] == p["gender"]
            && p["pregnant_or_nursing"] == Bool(d.pregnantOrNursing.GetOr(false))
            && p["menstruation_status"] == Str(d.menstruationStatus.GetOr(""))
            && p["bowel_movements"] == Str(d.bowelMovement.GetOr(""))
            && p["lab_upload_option"] == Str("manual")
            && p["lab_reports"] == Obj(NormalizeReports(Obj(SentPanels(d))))
  {
    BuildPayloadShape(d, userId);
    NormalizeBuilt(BuildPayload(d, userId), d, userId);
  }

  /** What the payload literal holds, key by key. */
  predicate LiteralShape(b: map<string, Json>, d: IntakeData, userId: Json)
  {
    && b.Keys == DefaultedKeys + {"user_id"}
    && Field(b, "user_id") == userId
    && Field(b, "age_over_18") == Bool(true) && Field(b, "bloodwork_within_6_months") == Bool(true)
    && Field(b, "gender") == OptionalText(d.gender) && Field(b, "gender_at_birth") == OptionalText(d.gender)
    && Field(b, "pregnant_or_nursing") == OptionalBool(d.pregnantOrNursing)
    && Field(b, "menstruation_status") == OptionalText(d.menstruationStatus)
    && Field(b, "bowel_movements") == OptionalText(d.bowelMovement)
    && Field(b, "lab_upload_option") == Str("manual")
    && Field(b, "lab_reports") == Obj(SentPanels(d))
  }

  /** `normalizePayload` on any payload holding what the payload literal holds. */
  lemma NormalizeBuilt(b: map<string, Json>, d: IntakeData, userId: Json)
    requires LiteralShape(b, d, userId)
    ensures var p := NormalizePayload(b);
            && p.Keys == b.Keys
            && p["user_id"] == userId
            && p["age_over_18"] == Bool(true) && p["bloodwork_within_6_months"] == Bool(true)
            && p["gender"] == Str(d.gender.GetOr("")) && p["gender_at_birth"] == p["gender"]
            && p["pregnant_or_nursing"] == Bool(d.pregnantOrNursing.GetOr(false))
            && p["menstruation_status"] == Str(d.menstruationStatus.GetOr(""))
            && p["bowel_movements"] == Str(d.bowelMovement.GetOr(""))
            && p["lab_upload_option"] == Str("manual")
            && p["lab_reports"] == Obj(NormalizeReports(Obj(SentPanels(d))))
  {
    NormalizeBuiltFlags(b, d, userId);
    NormalizeBuiltTexts(b, d, userId);
    NormalizeBuiltReports(b, d, userId);
  }

  lemma NormalizeBuiltFlags(b: map<string, Json>, d: IntakeData, userId: Json)
    requires LiteralShape(b, d, userId)
    ensures var p := NormalizePayload(b);
            && p.Keys == b.Keys
            && p["user_id"] == userId
            && p["age_over_18"] == Bool(true) && p["bloodwork_within_6_months"] == Bool(true)
            && p["pregnant_or_nursing"] == Bool(d.pregnantOrNursing.GetOr(false))
  {
    KeyClasses();
    var p := NormalizePayload(b);
    assert p.Keys == b.Keys + DefaultedKeys == b.Keys;
    NormalizedAt(b, "user_id");
    NormalizedAt(b, "age_over_18");
    NormalizedAt(b, "bloodwork_within_6_months");
    NormalizedAt(b, "pregnant_or_nursing");
    FlagDefault(d.pregnantOrNursing);
  }

  lemma NormalizeBuiltReports(b: map<string, Json>, d: IntakeData, userId: Json)
    requires LiteralShape(b, d, userId)
    ensures "lab_reports" in NormalizePayload(b)
    ensures NormalizePayload(b)["lab_reports"] == Obj(NormalizeReports(Obj(SentPanels(d))))
  {
    NormalizedReportsOf(b, SentPanels(d));
  }

  lemma NormalizedReportsOf(b: map<string, Json>, reports: map<string, Json>)
    requires "lab_reports" in b && b["lab_reports"] == Obj(reports)
    ensures "lab_reports" in NormalizePayload(b)
    ensures NormalizePayload(b)["lab_reports"] == Obj(NormalizeReports(Obj(reports)))
  {
    NormalizedAt(b, "lab_reports");
  }

  lemma NormalizeBuiltTexts(b: map<string, Json>, d: IntakeData, userId: Json)
    requires LiteralShape(b, d, userId)
    ensures var p := NormalizePayload(b);
            && p.Keys == b.Keys
            && p["gender"] == Str(d.gender.GetOr("")) && p["gender_at_birth"] == p["gender"]
            && p["menstruation_status"] == Str(d.menstruationStatus.GetOr(""))
            && p["bowel_movements"] == Str(d.bowelMovement.GetOr(""))
            && p["lab_upload_option"] == Str("manual")
  {
    KeyClasses();
    var p := NormalizePayload(b);
    assert p.Keys == b.Keys + DefaultedKeys == b.Keys;
    NormalizedAt(b, "gender");
    NormalizedAt(b, "gender_at_birth");
    NormalizedAt(b, "menstruation_status");
    NormalizedAt(b, "bowel_movements");
    NormalizedAt(b, "lab_upload_option");
    TextDefault(d.gender);
    TextDefault(d.menstruationStatus);
    TextDefault(d.bowelMovement);
  }

  lemma NormalizedAt(b: map<string, Json>, k: string)
    ensures k in b ==> NormalizePayload(b)[k] == NormalizedField(b, k)
  {
  }

  /** Which defaulting each key of the payload literal gets. */
  lemma KeyClasses()
    ensures "user_id" !in DefaultedKeys
    ensures "age_over_18" in FlagKeys && "bloodwork_within_6_months" in FlagKeys && "pregnant_or_nursing" in FlagKeys
    ensures "gender" !in FlagKeys && "gender" in TextKeys
    ensures "gender_at_birth" !in FlagKeys && "gender_at_birth" in TextKeys
    ensures "menstruation_status" !in FlagKeys && "menstruation_status" in TextKeys
    ensures "bowel_movements" !in FlagKeys && "bowel_movements" in TextKeys
    ensures "lab_upload_option" !in FlagKeys && "lab_upload_option" in TextKeys
    ensures "lab_reports" !in FlagKeys && "lab_reports" !in TextKeys && "user_id" != "lab_reports"
  {
  }

  /** The keys of the payload literal and what each holds. */
  lemma BuildPayloadShape(d: IntakeData, userId: Json)
    ensures LiteralShape(BuildPayload(d, userId), d, userId)
  {
    BuildPayloadKeys(d, userId);
  }

  lemma BuildPayloadKeys(d: IntakeData, userId: Json)
    ensures BuildPayload(d, userId).Keys == DefaultedKeys + {"user_id"}
  {
    assert DefaultedKeys + {"user_id"} ==
      {"user_id", "age_over_18", "bloodwork_within_6_months", "gender", "gender_at_birth", "pregnant_or_nursing",
       "menstruation_status", "bowel_movements", "lab_upload_option", "lab_reports"};
  }

  lemma TextDefault(s: Option<string>)
    ensures OrElse(OptionalText(s), Str("")) == Str(s.GetOr(""))
  {
  }

  lemma FlagDefault(b: Option<bool>)
    ensures OrElse(OptionalBool(b), Bool(false)) == Bool(b.GetOr(false))
  {
  }

  /**
   * What is sent: both consents true, the chosen gender (or "") under both
   * gender keys whatever gender at birth was recorded, "manual" as the
   * upload option, and each slot's panel under its backend name, coerced
   * and then converted; nothing else.
   */
  lemma PreparedPayloadContents(d: IntakeData, userId: Json)
    ensures var p := PreparedPayload(d, userId);
            && p.Keys == DefaultedKeys + {"user_id"}
            && p["user_id"] == userId
            && p["age_over_18"] == Bool(true) && p["bloodwork_within_6_months"] == Bool(true)
            && p["gender"] == Str(d.gender.GetOr("")) && p["gender_at_birth"] == p["gender"]
            && p["pregnant_or_nursing"] == Bool(d.pregnantOrNursing.GetOr(false))
            && p["menstruation_status"] == Str(d.menstruationStatus.GetOr(""))
            && p["bowel_movements"] == Str(d.bowelMovement.GetOr(""))
            && p["lab_upload_option"] == Str("manual")
            && p["lab_reports"] == Obj(UnitConversion.ApplyRules(
                 NormalizeReports(Obj(SentPanels(d))), UnitConversion.UnitRules))
  {
    NormalizedPayloadContents(d, userId);
    BuildPayloadShape(d, userId);
    var p := NormalizePayload(BuildPayload(d, userId));
    ConvertedShape(p);
    KeyClasses();
  }

  /** The conversion rewrites the object `lab_reports` and no other key. */
  lemma ConvertedShape(p: map<string, Json>)
    requires "lab_reports" in p && p["lab_reports"].Obj?
    ensures ConvertUnits(p).Keys == p.Keys
    ensures forall k :: k in p && k != "lab_reports" ==> ConvertUnits(p)[k] == p[k]
    ensures ConvertUnits(p)["lab_reports"] == Obj(UnitConversion.ApplyRules(p["lab_reports"].fields, UnitConversion.UnitRules))
  {
  }

  /** Each slot's panel is sent under the name the OCR reply uses for it. */
  lemma SentPanelNames(d: IntakeData)
    ensures forall slot :: UploadScreen.BackendPanelName(slot) in SentPanels(d)
              && SentPanels(d)[UploadScreen.BackendPanelName(slot)] == OptionalPanel(PanelAt(d, slot))
    ensures |SentPanels(d).Keys| == 8
  {
    forall slot
      ensures UploadScreen.BackendPanelName(slot) in SentPanels(d)
      ensures SentPanels(d)[UploadScreen.BackendPanelName(slot)] == OptionalPanel(PanelAt(d, slot))
    {
      SentPanelAt(d, slot);
    }
    SentPanelCount(d);
  }

  lemma SentPanelAt(d: IntakeData, slot: Slot)
    ensures UploadScreen.BackendPanelName(slot) in SentPanels(d)
    ensures SentPanels(d)[UploadScreen.BackendPanelName(slot)] == OptionalPanel(PanelAt(d, slot))
  {
    match slot
    case CbcSlot =>
    case CmbSlot =>
    case HemoglobinSlot =>
    case IronSlot =>
    case LipidSlot =>
    case MagnesiumSlot =>
    case ThyroidSlot =>
    case VitaminDSlot =>
  }

  lemma SentPanelCount(d: IntakeData)
    ensures |SentPanels(d).Keys| == 8
  {
    var m0 := map["CBC_with_Differential" := OptionalPanel(d.cbc)];
    var m1 := m0["CMP_14" := OptionalPanel(d.cmb)];
    assert |m1| == 2;
    var m2 := m1["Lipid_Panel" := OptionalPanel(d.lipid)];
    assert |m2| == 3;
    var m3 := m2["Thyroid_Profile_II" := OptionalPanel(d.thyroid)];
    assert |m3| == 4;
    var m4 := m3["Vitamin_D_25_Hydroxy" := OptionalPanel(d.vitaminD)];
    assert |m4| == 5;
    var m5 := m4["Iron_Panel" := OptionalPanel(d.iron)];
    assert |m5| == 6;
    var m6 := m5["Magnesium" := OptionalPanel(d.magnesium)];
    assert |m6| == 7;
    var m7 := m6["HbA1c" := OptionalPanel(d.hemoglobin)];
    assert |m7| == 8;
    assert SentPanels(d) == m7;
  }

  /** Posting the same record again sends the same converted payload: the preparation is stable. */
  lemma PreparationIsStable(d: IntakeData, userId: Json)
    ensures ConvertUnits(PreparedPayload(d, userId)) == PreparedPayload(d, userId)
  {
    ConvertUnitsIdempotent(NormalizePayload(BuildPayload(d, userId)));
  }
}
