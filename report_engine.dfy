/**
 * The report service's decision engine: from the posted lab panels it
 * builds the "always address" sections, selects the first priority group
 * with an out-of-range marker, and lists every other out-of-range marker
 * once.
 */
module ReportEngine {
  import opened Wrappers
  import Text
  import opened MarkerEvaluation
  import opened Dicts

  /** `Marker` of the request: one analyte's value and unit. */
  datatype Measurement = Measurement(value: real, unit: string)

  /** A JSON object in its key order: the panel's analytes, the request's panels. */
  type Panel = seq<(string, Measurement)>
  type LabReports = seq<(string, Panel)>

  /** `ReportRequest`. */
  datatype ReportRequest = ReportRequest(
    userId: string,
    ageOver18: bool,
    bloodworkWithin6Months: bool,
    gender: string,
    genderAtBirth: string,
    pregnantOrNursing: bool,
    menstruationStatus: string,
    bowelMovements: string,
    labUploadOption: string,
    labReports: LabReports)

  /** The evaluation context of one request: `gender_at_birth or gender`, `menstruation_status or "None"`. */
  function UserContext(docs: seq<RangeDoc>, catalogue: map<string, Supplement>, req: ReportRequest): (ctx: Context)
    ensures ctx.docs == docs && ctx.catalogue == catalogue
    ensures ctx.genderAtBirth == "" <==> req.genderAtBirth == "" && req.gender == ""
    ensures ctx.menstruation != ""
  {
    Context(docs, catalogue,
            if req.genderAtBirth != "" then req.genderAtBirth else req.gender,
            if req.menstruationStatus != "" then req.menstruationStatus else "None")
  }

  /** `lab_reports.get(name, {}) or {}`. */
  function PanelOf(reports: LabReports, name: string): Panel
  {
    Lookup(reports, name).GetOr([])
  }

  function EvaluateIn(ctx: Context, name: string, m: Measurement): Evaluation
  {
    Evaluate(ctx, name, m.value, m.unit)
  }

  // ---- always address ----

  datatype SectionKind =
    | BowelSupport
    | RbcMarkers
    | PlateletSupport
    | CholesterolPattern
    | VitaminDSupport
    | VitaminDNotProvided

  /** A section's result: an evaluated marker, or a plain reading of the cholesterol pattern. */
  datatype Finding =
    | Evaluated(e: Evaluation)
    | Measured(marker: string, value: real, unit: string)

  function FindingMarker(f: Finding): string
  {
    match f
    case Evaluated(e) => e.marker
    case Measured(m, _, _) => m
  }

  /** A section; its message is fixed by its kind. */
  datatype Section = Section(kind: SectionKind, results: seq<Finding>)

  const BowelAnswers: seq<string> := ["No", "Sometimes", "no", "sometimes"]
  const RbcMarkerNames: seq<string> := ["RBC", "Hemoglobin", "Hematocrit", "MCV", "MCH", "MCHC", "RDW"]
  const CbcPanel := "CBC_with_Differential"
  const VitaminDAnalyte := "25_Hydroxy_Vitamin_D"

  function AsFindings(es: seq<Evaluation>): (r: seq<Finding>)
    ensures |r| == |es|
    ensures forall i :: 0 <= i < |es| ==> r[i] == Evaluated(es[i])
  {
    if es == [] then [] else [Evaluated(es[0])] + AsFindings(es[1..])
  }

  /** `rbc_out` after the first `|names|` red-cell markers: the present ones out of range, in order. */
  function RbcOut(ctx: Context, cbc: Panel, names: seq<string>): seq<Evaluation>
  {
    if names == [] then []
    else
      var m := names[|names| - 1];
      RbcOut(ctx, cbc, names[..|names| - 1])
      + (match Lookup(cbc, m)
         case Some(x) => if OutOfRange(EvaluateIn(ctx, m, x).status) then [EvaluateIn(ctx, m, x)] else []
         case None => [])
  }

  /** Only listed markers with an out-of-range verdict, and every present listed marker that has one. */
  lemma {:induction false} RbcOutMembers(ctx: Context, cbc: Panel, names: seq<string>)
    ensures forall e :: e in RbcOut(ctx, cbc, names) ==> OutOfRange(e.status) && e.marker in names
    ensures forall m :: m in names && Has(cbc, m) && OutOfRange(EvaluateIn(ctx, m, Lookup(cbc, m).value).status) ==>
              EvaluateIn(ctx, m, Lookup(cbc, m).value) in RbcOut(ctx, cbc, names)
  {
    if names != [] {
      var prefix := names[..|names| - 1];
      RbcOutMembers(ctx, cbc, prefix);
      assert names == prefix + [names[|names| - 1]];
    }
  }

  function RbcSection(ctx: Context, out: seq<Evaluation>): seq<Section>
  {
    if out == [] then [] else [Section(RbcMarkers, AsFindings(out))]
  }

  function PlateletSection(ctx: Context, cbc: Panel): seq<Section>
  {
    match Lookup(cbc, "Platelets")
    case None => []
    case Some(x) =>
      var e := EvaluateIn(ctx, "Platelets", x);
      if OutOfRange(e.status) then [Section(PlateletSupport, [Evaluated(e)])] else []
  }

  /**
   * Total cholesterol within 1.6 to 2.4 times the triglycerides (or no
   * triglycerides), and triglycerides within 1.6 to 2.4 times HDL (or no HDL).
   */
  predicate PatternBalanced(tc: real, tg: real, hdl: real)
  {
    (tg != 0.0 ==> 1.6 * tg <= tc <= 2.4 * tg) && (hdl != 0.0 ==> 1.6 * hdl <= tg <= 2.4 * hdl)
  }

  function CholesterolSection(lipid: Panel): seq<Section>
  {
    if lipid == [] then []
    else
      match (Lookup(lipid, "Total_Cholesterol"), Lookup(lipid, "Triglycerides"), Lookup(lipid, "HDL"))
      case (Some(tc), Some(tg), Some(hdl)) =>
        if PatternBalanced(tc.value, tg.value, hdl.value) then []
        else [Section(CholesterolPattern, [Measured("Total_Cholesterol", tc.value, tc.unit),
                                           Measured("Triglycerides", tg.value, tg.unit),
                                           Measured("HDL", hdl.value, hdl.unit)])]
      case _ => []
  }

  function VitaminDSection(ctx: Context, vit: Panel): seq<Section>
  {
    match Lookup(vit, VitaminDAnalyte)
    case None => [Section(VitaminDNotProvided, [])]
    case Some(x) =>
      var e := EvaluateIn(ctx, VitaminDAnalyte, x);
      if OutOfRange(e.status) then [Section(VitaminDSupport, [Evaluated(e)])] else []
  }

  function BowelSection(bowel: string): seq<Section>
  {
    if bowel in BowelAnswers then [Section(BowelSupport, [])] else []
  }

  /** The always-address sections in the service's order. */
  function AlwaysAddress(ctx: Context, req: ReportRequest): seq<Section>
  {
    AlwaysAddressWith(ctx, req, RbcOut(ctx, PanelOf(req.labReports, CbcPanel), RbcMarkerNames))
  }

  /** The always-address sections, given the red-cell markers found out of range. */
  function AlwaysAddressWith(ctx: Context, req: ReportRequest, rbcOut: seq<Evaluation>): seq<Section>
  {
    var cbc := PanelOf(req.labReports, CbcPanel);
    BowelSection(req.bowelMovements)
    + RbcSection(ctx, rbcOut)
    + PlateletSection(ctx, cbc)
    + CholesterolSection(PanelOf(req.labReports, "Lipid_Panel"))
    + VitaminDSection(ctx, PanelOf(req.labReports, "Vitamin_D_25_Hydroxy"))
  }

  /** The kinds of section present. */
  function Kinds(sections: seq<Section>): set<SectionKind>
  {
    set i | 0 <= i < |sections| :: sections[i].kind
  }

  lemma KindsAppend(a: seq<Section>, b: seq<Section>)
    ensures Kinds(a + b) == Kinds(a) + Kinds(b)
  {
    forall k | k in Kinds(a + b) ensures k in Kinds(a) + Kinds(b) {
      var i :| 0 <= i < |a + b| && (a + b)[i].kind == k;
      if i >= |a| {
        assert b[i - |a|].kind == k;
      }
    }
    forall k | k in Kinds(a) ensures k in Kinds(a + b) {
      var i :| 0 <= i < |a| && a[i].kind == k;
      assert (a + b)[i].kind == k;
    }
    forall k | k in Kinds(b) ensures k in Kinds(a + b) {
      var i :| 0 <= i < |b| && b[i].kind == k;
      assert (a + b)[|a| + i].kind == k;
    }
  }

  lemma KindsOfFive(b: seq<Section>, r: seq<Section>, p: seq<Section>, c: seq<Section>, v: seq<Section>)
    ensures Kinds(b + r + p + c + v) == Kinds(b) + Kinds(r) + Kinds(p) + Kinds(c) + Kinds(v)
  {
    KindsAppend(b, r);
    KindsAppend(b + r, p);
    KindsAppend(b + r + p, c);
    KindsAppend(b + r + p + c, v);
  }

  /** The kinds of five concatenated parts, each of which holds at most the kinds shown. */
  lemma KindsOfParts(b: seq<Section>, r: seq<Section>, p: seq<Section>, c: seq<Section>, v: seq<Section>,
                bowel: bool, rbc: bool, platelets: bool, pattern: bool, missingD: bool, lowD: bool)
    requires Kinds(b) == if bowel then {BowelSupport} else {}
    requires Kinds(r) == if rbc then {RbcMarkers} else {}
    requires Kinds(p) == if platelets then {PlateletSupport} else {}
    requires Kinds(c) == if pattern then {CholesterolPattern} else {}
    requires Kinds(v) == if missingD then {VitaminDNotProvided} else if lowD then {VitaminDSupport} else {}
    ensures var kinds := Kinds(b + r + p + c + v);
            && (BowelSupport in kinds <==> bowel)
            && (RbcMarkers in kinds <==> rbc)
            && (PlateletSupport in kinds <==> platelets)
            && (CholesterolPattern in kinds <==> pattern)
            && (VitaminDNotProvided in kinds <==> missingD)
            && (VitaminDSupport in kinds <==> !missingD && lowD)
  {
    KindsOfFive(b, r, p, c, v);
    KindsOfUnion(Kinds(b), Kinds(r), Kinds(p), Kinds(c), Kinds(v), bowel, rbc, platelets, pattern, missingD, lowD);
  }

  lemma KindsOfUnion(kb: set<SectionKind>, kr: set<SectionKind>, kp: set<SectionKind>, kc: set<SectionKind>, kv: set<SectionKind>,
                bowel: bool, rbc: bool, platelets: bool, pattern: bool, missingD: bool, lowD: bool)
    requires kb == if bowel then {BowelSupport} else {}
    requires kr == if rbc then {RbcMarkers} else {}
    requires kp == if platelets then {PlateletSupport} else {}
    requires kc == if pattern then {CholesterolPattern} else {}
    requires kv == if missingD then {VitaminDNotProvided} else if lowD then {VitaminDSupport} else {}
    ensures var kinds := kb + kr + kp + kc + kv;
            && (BowelSupport in kinds <==> bowel)
            && (RbcMarkers in kinds <==> rbc)
            && (PlateletSupport in kinds <==> platelets)
            && (CholesterolPattern in kinds <==> pattern)
            && (VitaminDNotProvided in kinds <==> missingD)
            && (VitaminDSupport in kinds <==> !missingD && lowD)
  {
  }
  lemma KindsOfOne(s: Section)
    ensures Kinds([s]) == {s.kind}
  {
    assert [s][0].kind == s.kind;
  }

  lemma BowelKinds(bowel: string)
    ensures Kinds(BowelSection(bowel)) == if bowel in BowelAnswers then {BowelSupport} else {}
  {
    if bowel in BowelAnswers { KindsOfOne(Section(BowelSupport, [])); }
  }

  lemma RbcKinds(ctx: Context, out: seq<Evaluation>)
    ensures Kinds(RbcSection(ctx, out)) == if out != [] then {RbcMarkers} else {}
  {
    if out != [] { KindsOfOne(Section(RbcMarkers, AsFindings(out))); }
  }

  lemma PlateletKinds(ctx: Context, cbc: Panel)
    ensures Kinds(PlateletSection(ctx, cbc)) ==
              if Has(cbc, "Platelets") && OutOfRange(EvaluateIn(ctx, "Platelets", Lookup(cbc, "Platelets").value).status)
              then {PlateletSupport} else {}
  {
    var s := PlateletSection(ctx, cbc);
    if s != [] { KindsOfOne(s[0]); assert s == [s[0]]; }
  }

  lemma CholesterolKinds(lipid: Panel)
    ensures Kinds(CholesterolSection(lipid)) ==
              if Has(lipid, "Total_Cholesterol") && Has(lipid, "Triglycerides") && Has(lipid, "HDL")
                 && !PatternBalanced(Lookup(lipid, "Total_Cholesterol").value.value,
                                     Lookup(lipid, "Triglycerides").value.value,
                                     Lookup(lipid, "HDL").value.value)
              then {CholesterolPattern} else {}
  {
    var s := CholesterolSection(lipid);
    if s != [] { KindsOfOne(s[0]); assert s == [s[0]]; }
  }

  lemma VitaminDKinds(ctx: Context, vit: Panel)
    ensures Kinds(VitaminDSection(ctx, vit)) ==
              if !Has(vit, VitaminDAnalyte) then {VitaminDNotProvided}
              else if OutOfRange(EvaluateIn(ctx, VitaminDAnalyte, Lookup(vit, VitaminDAnalyte).value).status) then {VitaminDSupport}
              else {}
  {
    var s := VitaminDSection(ctx, vit);
    if s != [] { KindsOfOne(s[0]); assert s == [s[0]]; }
  }

  /**
   * When each kind of section appears: bowel support for the four answers,
   * the red-cell section when a red-cell marker is out of range, platelets
   * when they are, the cholesterol pattern for a complete lipid panel out
   * of balance, and "not provided" exactly when there is no Vitamin D level,
   * so that the two Vitamin D sections never appear together.
   */
  lemma AlwaysAddressWithSections(ctx: Context, req: ReportRequest, rbcOut: seq<Evaluation>)
    ensures var kinds := Kinds(AlwaysAddressWith(ctx, req, rbcOut));
            var lipid := PanelOf(req.labReports, "Lipid_Panel");
            var vit := PanelOf(req.labReports, "Vitamin_D_25_Hydroxy");
            var cbc := PanelOf(req.labReports, CbcPanel);
            && (BowelSupport in kinds <==> req.bowelMovements in BowelAnswers)
            && (RbcMarkers in kinds <==> rbcOut != [])
            && (PlateletSupport in kinds <==>
                  Has(cbc, "Platelets") && OutOfRange(EvaluateIn(ctx, "Platelets", Lookup(cbc, "Platelets").value).status))
            && (CholesterolPattern in kinds <==>
                  Has(lipid, "Total_Cholesterol") && Has(lipid, "Triglycerides") && Has(lipid, "HDL")
                  && !PatternBalanced(Lookup(lipid, "Total_Cholesterol").value.value,
                                      Lookup(lipid, "Triglycerides").value.value,
                                      Lookup(lipid, "HDL").value.value))
            && (VitaminDNotProvided in kinds <==> !Has(vit, VitaminDAnalyte))
            && (VitaminDSupport in kinds <==>
                  Has(vit, VitaminDAnalyte) && OutOfRange(EvaluateIn(ctx, VitaminDAnalyte, Lookup(vit, VitaminDAnalyte).value).status))
  {
    var cbc := PanelOf(req.labReports, CbcPanel);
    var lipid := PanelOf(req.labReports, "Lipid_Panel");
    var vit := PanelOf(req.labReports, "Vitamin_D_25_Hydroxy");
    var b := BowelSection(req.bowelMovements);
    var r := RbcSection(ctx, rbcOut);
    var p := PlateletSection(ctx, cbc);
    var c := CholesterolSection(lipid);
    var v := VitaminDSection(ctx, vit);
    BowelKinds(req.bowelMovements);
    RbcKinds(ctx, rbcOut);
    PlateletKinds(ctx, cbc);
    CholesterolKinds(lipid);
    VitaminDKinds(ctx, vit);
    KindsOfParts(b, r, p, c, v, req.bowelMovements in BowelAnswers, rbcOut != [],
            Has(cbc, "Platelets") && OutOfRange(EvaluateIn(ctx, "Platelets", Lookup(cbc, "Platelets").value).status),
            Has(lipid, "Total_Cholesterol") && Has(lipid, "Triglycerides") && Has(lipid, "HDL")
                  && !PatternBalanced(Lookup(lipid, "Total_Cholesterol").value.value,
                                      Lookup(lipid, "Triglycerides").value.value,
                                      Lookup(lipid, "HDL").value.value),
            !Has(vit, VitaminDAnalyte),
            Has(vit, VitaminDAnalyte) && OutOfRange(EvaluateIn(ctx, VitaminDAnalyte, Lookup(vit, VitaminDAnalyte).value).status));
    assert AlwaysAddressWith(ctx, req, rbcOut) == b + r + p + c + v;
  }

  /** `AlwaysAddressWithSections` for the red-cell markers the service checks. */
  lemma AlwaysAddressSections(ctx: Context, req: ReportRequest)
    ensures var kinds := Kinds(AlwaysAddress(ctx, req));
            var vit := PanelOf(req.labReports, "Vitamin_D_25_Hydroxy");
            var cbc := PanelOf(req.labReports, CbcPanel);
            && (BowelSupport in kinds <==> req.bowelMovements in BowelAnswers)
            && (RbcMarkers in kinds <==> RbcOut(ctx, cbc, RbcMarkerNames) != [])
            && (VitaminDNotProvided in kinds <==> !Has(vit, VitaminDAnalyte))
            && (VitaminDSupport in kinds ==> VitaminDNotProvided !in kinds)
  {
    AlwaysAddressWithSections(ctx, req, RbcOut(ctx, PanelOf(req.labReports, CbcPanel), RbcMarkerNames));
  }

  /** `always_markers`: the marker of every result of every section. */
  function SectionMarkers(sections: seq<Section>): set<string>
  {
    set i, j | 0 <= i < |sections| && 0 <= j < |sections[i].results| :: FindingMarker(sections[i].results[j])
  }

  // ---- the priority engine ----

  datatype Group = Group(title: string, markers: seq<string>)

  const TopTitle := "Top Priority"
  const PriorityGroups: seq<Group> := [
    Group(TopTitle, ["Neutrophils", "Lymphocytes", "Monocytes", "Eosinophils", "Basophils", "Globulin", "Total_Protein", "Total Protein"]),
    Group("2nd Priority", ["Sodium", "Potassium", "Magnesium"]),
    Group("3rd Priority", ["Glucose", "Ferritin", "Iron", "TIBC"]),
    Group("4th Priority", ["AST_SGOT", "ALT_SGPT", "AST", "ALT", "BUN", "Creatinine"]),
    Group("5th Priority", ["TSH", "Free_T3", "Free_T4", "Reverse_T3", "T3", "T4", "Anti_TPO"])]

  const DifferentialNames: seq<string> := ["Neutrophils", "Lymphocytes", "Monocytes", "Eosinophils", "Basophils"]

  /** The keys of `user_messages_map`; a message is identified by its key. */
  const MessageKeys: set<string> := {
    "Neutrophils", "Lymphocytes", "Monocytes", "Eosinophils", "Basophils", "Globulin", "Total_Protein", "Total Protein",
    "Sodium", "Potassium", "Magnesium", "Glucose", "Ferritin", "Iron", "TIBC",
    "AST", "AST_SGOT", "ALT", "ALT_SGPT", "BUN_low", "BUN_high", "Creatinine_low", "Creatinine_high",
    "TSH", "Free_T3", "Free_T4", "Reverse_T3", "T3", "T4", "Anti_TPO"}

  /** `user_messages_map.get(key)`. */
  function MessageFor(key: string): Option<string>
  {
    if key in MessageKeys then Some(key) else None
  }

  /** The message key of a result outside the top group: BUN and Creatinine by direction. */
  function StatusKey(marker: string, status: Status): string
  {
    if marker == "BUN" then (if status == Low then "BUN_low" else "BUN_high")
    else if marker == "Creatinine" then (if status == Low then "Creatinine_low" else "Creatinine_high")
    else marker
  }

  /** `possible_keys`: the spellings tried for a marker. */
  function Variants(marker: string): set<string>
  {
    {marker, Text.ReplaceChar(marker, ' ', '_'), Text.ReplaceChar(marker, '_', ' '),
     Text.RemoveChar(marker, ' '), Text.RemoveChar(marker, '_')}
  }

  /** A name without spaces or underscores has one spelling. */
  lemma PlainNameHasOneSpelling(marker: string)
    requires ' ' !in marker && '_' !in marker
    ensures Variants(marker) == {marker}
  {
  }

  /**
   * The order in which Python iterates a set of strings, which the language
   * leaves unspecified; `Covers` says it lists every element.
   */
  type KeyOrder = set<string> -> seq<string>

  ghost predicate Covers(order: KeyOrder)
  {
    forall s: set<string>, k :: k in s ==> k in order(s)
  }

  /** The first spelling, in iteration order, that the panel has. */
  function FirstPresent(panel: Panel, variants: set<string>, listing: seq<string>): (r: Option<string>)
    ensures r.Some? ==> r.value in variants && r.value in listing && Has(panel, r.value)
    ensures r.None? ==> forall k :: k in listing && k in variants ==> !Has(panel, k)
  {
    if listing == [] then None
    else if listing[0] in variants && Has(panel, listing[0]) then Some(listing[0])
    else FirstPresent(panel, variants, listing[1..])
  }

  /** What one marker contributes to `found` for one panel: its out-of-range evaluation, if any. */
  function MarkerFinding(ctx: Context, panel: Panel, marker: string, order: KeyOrder): Option<Evaluation>
  {
    var vs := Variants(marker);
    match FirstPresent(panel, vs, order(vs))
    case None => None
    case Some(k) =>
      var e := EvaluateIn(ctx, marker, Lookup(panel, k).value);
      if OutOfRange(e.status) then Some(e) else None
  }

  function PanelFindings(ctx: Context, panel: Panel, markers: seq<string>, order: KeyOrder): seq<Evaluation>
  {
    if markers == [] then []
    else
      PanelFindings(ctx, panel, markers[..|markers| - 1], order)
      + (match MarkerFinding(ctx, panel, markers[|markers| - 1], order) case Some(e) => [e] case None => [])
  }

  /** `collect_out_of_range_for_list`: panels in request order, markers in list order. */
  function CollectOutOfRange(ctx: Context, reports: LabReports, markers: seq<string>, order: KeyOrder): seq<Evaluation>
  {
    if reports == [] then []
    else
      CollectOutOfRange(ctx, reports[..|reports| - 1], markers, order)
      + PanelFindings(ctx, reports[|reports| - 1].1, markers, order)
  }

  /** Every collected result is out of range and carries one of the listed names. */
  lemma {:induction false} PanelFindingsFlagged(ctx: Context, panel: Panel, markers: seq<string>, order: KeyOrder)
    ensures forall e :: e in PanelFindings(ctx, panel, markers, order) ==> OutOfRange(e.status) && e.marker in markers
  {
    if markers != [] {
      PanelFindingsFlagged(ctx, panel, markers[..|markers| - 1], order);
    }
  }

  lemma {:induction false} CollectOutOfRangeFlagged(ctx: Context, reports: LabReports, markers: seq<string>, order: KeyOrder)
    ensures forall e :: e in CollectOutOfRange(ctx, reports, markers, order) ==> OutOfRange(e.status) && e.marker in markers
  {
    if reports != [] {
      CollectOutOfRangeFlagged(ctx, reports[..|reports| - 1], markers, order);
      PanelFindingsFlagged(ctx, reports[|reports| - 1].1, markers, order);
    }
  }

  /** All spellings of the marker the panel has carry the same reading. */
  predicate OneReading(panel: Panel, marker: string)
  {
    forall k1, k2 :: k1 in Variants(marker) && k2 in Variants(marker) && Has(panel, k1) && Has(panel, k2) ==>
      Lookup(panel, k1) == Lookup(panel, k2)
  }

  lemma FirstPresentSomeWhenCovered(panel: Panel, vs: set<string>, listing: seq<string>, k: string)
    requires k in vs && k in listing && Has(panel, k)
    ensures FirstPresent(panel, vs, listing).Some?
  {
  }

  /**
   * The unspecified set order matters only when a panel holds two
   * spellings of a marker with different readings: otherwise any two
   * complete orders give the same result.
   */
  lemma MarkerFindingOrderFree(ctx: Context, panel: Panel, marker: string, o1: KeyOrder, o2: KeyOrder)
    requires Covers(o1) && Covers(o2)
    requires OneReading(panel, marker)
    ensures MarkerFinding(ctx, panel, marker, o1) == MarkerFinding(ctx, panel, marker, o2)
  {
    var vs := Variants(marker);
    var f1 := FirstPresent(panel, vs, o1(vs));
    var f2 := FirstPresent(panel, vs, o2(vs));
    if f1.Some? {
      assert f1.value in o2(vs);
      FirstPresentSomeWhenCovered(panel, vs, o2(vs), f1.value);
    }
    if f2.Some? {
      assert f2.value in o1(vs);
      FirstPresentSomeWhenCovered(panel, vs, o1(vs), f2.value);
    }
  }

  lemma {:induction false} PanelFindingsOrderFree(ctx: Context, panel: Panel, markers: seq<string>, o1: KeyOrder, o2: KeyOrder)
    requires Covers(o1) && Covers(o2)
    requires forall m :: m in markers ==> OneReading(panel, m)
    ensures PanelFindings(ctx, panel, markers, o1) == PanelFindings(ctx, panel, markers, o2)
  {
    if markers != [] {
      PanelFindingsOrderFree(ctx, panel, markers[..|markers| - 1], o1, o2);
      MarkerFindingOrderFree(ctx, panel, markers[|markers| - 1], o1, o2);
    }
  }

  lemma {:induction false} CollectOutOfRangeOrderFree(ctx: Context, reports: LabReports, markers: seq<string>, o1: KeyOrder, o2: KeyOrder)
    requires Covers(o1) && Covers(o2)
    requires forall p, m :: p in reports && m in markers ==> OneReading(p.1, m)
    ensures CollectOutOfRange(ctx, reports, markers, o1) == CollectOutOfRange(ctx, reports, markers, o2)
  {
    if reports != [] {
      CollectOutOfRangeOrderFree(ctx, reports[..|reports| - 1], markers, o1, o2);
      assert reports[|reports| - 1] in reports;
      PanelFindingsOrderFree(ctx, reports[|reports| - 1].1, markers, o1, o2);
    }
  }

  lemma PanelFindingsStep(ctx: Context, panel: Panel, markers: seq<string>, order: KeyOrder, j: nat)
    requires j < |markers|
    ensures PanelFindings(ctx, panel, markers[..j + 1], order)
            == PanelFindings(ctx, panel, markers[..j], order)
               + (match MarkerFinding(ctx, panel, markers[j], order) case Some(e) => [e] case None => [])
  {
    assert markers[..j + 1][..j] == markers[..j];
  }

  lemma CollectStep(ctx: Context, reports: LabReports, markers: seq<string>, order: KeyOrder, p: nat)
    requires p < |reports|
    ensures CollectOutOfRange(ctx, reports[..p + 1], markers, order)
            == CollectOutOfRange(ctx, reports[..p], markers, order) + PanelFindings(ctx, reports[p].1, markers, order)
  {
    assert reports[..p + 1][..p] == reports[..p];
  }

  /** The scanning loops of `collect_out_of_range_for_list`: panels in turn, each scanned for the markers. */
  method CollectOutOfRangeForList(ctx: Context, reports: LabReports, markers: seq<string>, order: KeyOrder)
    returns (found: seq<Evaluation>)
    ensures found == CollectOutOfRange(ctx, reports, markers, order)
  {
    found := [];
    for p := 0 to |reports|
      invariant found == CollectOutOfRange(ctx, reports[..p], markers, order)
    {
      CollectStep(ctx, reports, markers, order, p);
      var hits := ScanPanel(ctx, reports[p].1, markers, order);
      found := found + hits;
    }
    assert reports[..|reports|] == reports;
  }

  /** The inner loop: the out-of-range results of one panel, markers in list order. */
  method ScanPanel(ctx: Context, panel: Panel, markers: seq<string>, order: KeyOrder) returns (hits: seq<Evaluation>)
    ensures hits == PanelFindings(ctx, panel, markers, order)
  {
    hits := [];
    for j := 0 to |markers|
      invariant hits == PanelFindings(ctx, panel, markers[..j], order)
    {
      PanelFindingsStep(ctx, panel, markers, order, j);
      var marker := markers[j];
      var variants := Variants(marker);
      var key := FirstPresent(panel, variants, order(variants));
      if key.Some? {
        var reading := Lookup(panel, key.value).value;
        var res := Evaluate(ctx, marker, reading.value, reading.unit);
        if OutOfRange(res.status) {
          hits := hits + [res];
        }
      }
    }
    assert markers[..|markers|] == markers;
  }

  /** A priority result: the chosen differential alone, or a result with its `user_message`. */
  datatype Flagged =
    | Plain(e: Evaluation)
    | WithMessage(e: Evaluation, messageKey: Option<string>)

  datatype FocusMessage = MarkerMessage(key: Option<string>) | GroupMessage(text: string)

  /** `selected_priority`. */
  datatype Focus = Focus(title: string, results: seq<Flagged>, message: FocusMessage)

  function Differentials(found: seq<Evaluation>): (r: seq<Evaluation>)
    ensures forall e :: e in r <==> e in found && e.marker in DifferentialNames
  {
    if found == [] then []
    else Differentials(found[..|found| - 1])
         + (if found[|found| - 1].marker in DifferentialNames then [found[|found| - 1]] else [])
  }

  function DeviationKey(): Evaluation -> real
  {
    (e: Evaluation) => e.deviation
  }

  function WithMessages(found: seq<Evaluation>, byStatus: bool): (r: seq<Flagged>)
    ensures |r| == |found|
    ensures forall i :: 0 <= i < |found| ==>
              r[i] == WithMessage(found[i], MessageFor(if byStatus then StatusKey(found[i].marker, found[i].status) else found[i].marker))
  {
    if found == [] then []
    else
      [WithMessage(found[0], MessageFor(if byStatus then StatusKey(found[0].marker, found[0].status) else found[0].marker))]
      + WithMessages(found[1..], byStatus)
  }

  /** The focus a group yields from its out-of-range results. */
  function FocusOf(title: string, found: seq<Evaluation>): Focus
  {
    if title == TopTitle then
      var diffs := Differentials(found);
      if diffs != [] then
        var chosen := diffs[FirstMax(diffs, DeviationKey())];
        Focus(title, [Plain(chosen)], MarkerMessage(MessageFor(chosen.marker)))
      else Focus(title, WithMessages(found, false), GroupMessage("Top priority markers need attention."))
    else Focus(title, WithMessages(found, true), GroupMessage(title + " markers need attention."))
  }

  /** The group loop: the first group with an out-of-range result decides. */
  function SelectPriority(ctx: Context, reports: LabReports, order: KeyOrder, groups: seq<Group>): Option<Focus>
  {
    if groups == [] then None
    else
      var found := CollectOutOfRange(ctx, reports, groups[0].markers, order);
      if found != [] then Some(FocusOf(groups[0].title, found))
      else SelectPriority(ctx, reports, order, groups[1..])
  }

  /**
   * The selected group is the first whose scan finds anything, and there is
   * none exactly when every group's scan is empty.
   */
  lemma SelectPriorityFirstNonEmpty(ctx: Context, reports: LabReports, order: KeyOrder, groups: seq<Group>)
    ensures var sel := SelectPriority(ctx, reports, order, groups);
            && (sel.None? <==> forall g :: 0 <= g < |groups| ==> CollectOutOfRange(ctx, reports, groups[g].markers, order) == [])
            && (sel.Some? ==>
                  exists g :: (0 <= g < |groups|
                    && CollectOutOfRange(ctx, reports, groups[g].markers, order) != []
                    && sel.value == FocusOf(groups[g].title, CollectOutOfRange(ctx, reports, groups[g].markers, order))
                    && forall h :: 0 <= h < g ==> CollectOutOfRange(ctx, reports, groups[h].markers, order) == []))
  {
    var scans := Scans(ctx, reports, order, groups);
    SelectPriorityByScans(ctx, reports, order, groups);
    var first := FirstNonEmpty(scans);
    if first.Some? {
      var g := first.value;
      assert scans[g] == CollectOutOfRange(ctx, reports, groups[g].markers, order);
      assert forall h :: 0 <= h < g ==> CollectOutOfRange(ctx, reports, groups[h].markers, order) == [] by {
        forall h | 0 <= h < g ensures CollectOutOfRange(ctx, reports, groups[h].markers, order) == [] {
          assert scans[h] == [];
        }
      }
    } else {
      forall g | 0 <= g < |groups| ensures CollectOutOfRange(ctx, reports, groups[g].markers, order) == [] {
        assert scans[g] == [];
      }
    }
  }

  /** What each group's scan finds, in group order. */
  function Scans(ctx: Context, reports: LabReports, order: KeyOrder, groups: seq<Group>): (r: seq<seq<Evaluation>>)
    ensures |r| == |groups| && forall g :: 0 <= g < |groups| ==> r[g] == CollectOutOfRange(ctx, reports, groups[g].markers, order)
  {
    seq(|groups|, g requires 0 <= g < |groups| => CollectOutOfRange(ctx, reports, groups[g].markers, order))
  }

  /** The position of the first non-empty list. */
  function FirstNonEmpty<T>(xs: seq<seq<T>>): (r: Option<nat>)
    ensures r.Some? ==> r.value < |xs| && xs[r.value] != [] && forall h :: 0 <= h < r.value ==> xs[h] == []
    ensures r.None? ==> forall h :: 0 <= h < |xs| ==> xs[h] == []
  {
    if xs == [] then None
    else if xs[0] != [] then Some(0)
    else match FirstNonEmpty(xs[1..])
      case None => None
      case Some(g) => Some(g + 1)
  }

  /** The group loop picks the group at the first non-empty scan. */
  lemma {:induction false} SelectPriorityByScans(ctx: Context, reports: LabReports, order: KeyOrder, groups: seq<Group>)
    ensures SelectPriority(ctx, reports, order, groups) ==
            match FirstNonEmpty(Scans(ctx, reports, order, groups))
            case None => None
            case Some(g) => Some(FocusOf(groups[g].title, Scans(ctx, reports, order, groups)[g]))
  {
    if groups != [] {
      var scans := Scans(ctx, reports, order, groups);
      var rest := Scans(ctx, reports, order, groups[1..]);
      SelectPriorityByScans(ctx, reports, order, groups[1..]);
      assert scans[1..] == rest by {
        forall g | 0 <= g < |rest| ensures scans[1..][g] == rest[g] {
          assert groups[1..][g] == groups[g + 1];
        }
      }
      match FirstNonEmpty(rest)
      case None =>
      case Some(g) =>
        assert groups[1..][g] == groups[g + 1];
    }
  }

  /**
   * In the top group, out-of-range differentials crowd out everything else:
   * the focus is the single differential of largest deviation, the first
   * of them on a tie, with that marker's message.
   */
  lemma TopPriorityKeepsOneDifferential(found: seq<Evaluation>)
    requires Differentials(found) != []
    ensures var f := FocusOf(TopTitle, found);
            && |f.results| == 1 && f.results[0].Plain?
            && var chosen := f.results[0].e;
            && chosen in found && chosen.marker in DifferentialNames
            && f.message == MarkerMessage(MessageFor(chosen.marker))
            && (forall e :: e in found && e.marker in DifferentialNames ==> e.deviation <= chosen.deviation)
  {
    var diffs := Differentials(found);
    var i := FirstMax(diffs, DeviationKey());
    forall e | e in found && e.marker in DifferentialNames
      ensures e.deviation <= diffs[i].deviation
    {
      var j :| 0 <= j < |diffs| && diffs[j] == e;
      assert DeviationKey()(diffs[j]) <= DeviationKey()(diffs[i]);
    }
  }

  /** Every marker of every group has a message, with BUN and Creatinine told apart by direction. */
  lemma GroupMessagesDefined(status: Status)
    ensures forall g, m :: g in PriorityGroups && m in g.markers ==> MessageFor(StatusKey(m, status)).Some?
    ensures MessageFor(StatusKey("BUN", Low)) == Some("BUN_low") && MessageFor(StatusKey("BUN", High)) == Some("BUN_high")
    ensures MessageFor(StatusKey("Creatinine", Low)) == Some("Creatinine_low")
    ensures MessageFor(StatusKey("Creatinine", High)) == Some("Creatinine_high")
  {
    forall g, m | g in PriorityGroups && m in g.markers
      ensures MessageFor(StatusKey(m, status)).Some?
    {
      var i :| 0 <= i < |PriorityGroups| && PriorityGroups[i] == g;
      GroupsKeyed(i);
      KeyedSound(g.markers);
      var j :| 0 <= j < |g.markers| && g.markers[j] == m;
      assert m == "BUN" || m == "Creatinine" || m in MessageKeys;
    }
  }

  /** Each marker is BUN, Creatinine or a message key itself. */
  predicate Keyed(ms: seq<string>)
  {
    ms == [] || ((ms[0] == "BUN" || ms[0] == "Creatinine" || ms[0] in MessageKeys) && Keyed(ms[1..]))
  }

  lemma {:induction false} KeyedSound(ms: seq<string>)
    requires Keyed(ms)
    ensures forall j :: 0 <= j < |ms| ==> ms[j] == "BUN" || ms[j] == "Creatinine" || ms[j] in MessageKeys
  {
    if ms != [] {
      KeyedSound(ms[1..]);
      forall j | 1 <= j < |ms| ensures ms[j] == ms[1..][j - 1] {
      }
    }
  }

  lemma GroupsKeyed(i: int)
    requires 0 <= i < |PriorityGroups|
    ensures Keyed(PriorityGroups[i].markers)
  {
    if i == 0 { TopGroupKeyed(); }
    else if i == 1 { assert Keyed(PriorityGroups[1].markers); }
    else if i == 2 { assert Keyed(PriorityGroups[2].markers); }
    else if i == 3 { Group3Keyed(); }
    else { Group4Keyed(); }
  }

  lemma TopGroupKeyed() ensures Keyed(PriorityGroups[0].markers) {}
  lemma Group3Keyed() ensures Keyed(PriorityGroups[3].markers) {}
  lemma Group4Keyed() ensures Keyed(PriorityGroups[4].markers) {}

  /** The markers of the selected focus: `priority_markers_included`. */
  function FocusMarkers(focus: Option<Focus>): set<string>
  {
    if focus.None? then {} else set i | 0 <= i < |focus.value.results| :: focus.value.results[i].e.marker
  }

  // ---- other markers out of range ----

  /** An entry of `other_out_of_range`. */
  datatype Other = Other(marker: string, value: real, unit: string, status: Status)

  /** `(marker_key, data)` for every analyte of every panel, in request order. */
  function Items(reports: LabReports): seq<(string, Measurement)>
  {
    if reports == [] then [] else Items(reports[..|reports| - 1]) + reports[|reports| - 1].1
  }

  /** `evaluate_marker(marker_key, value, unit)` for every analyte, in scan order. */
  function EvaluateAll(ctx: Context, items: seq<(string, Measurement)>): (r: seq<Evaluation>)
    ensures |r| == |items|
    ensures forall i :: 0 <= i < |items| ==> r[i] == EvaluateIn(ctx, items[i].0, items[i].1)
  {
    if items == [] then [] else EvaluateAll(ctx, items[..|items| - 1]) + [EvaluateIn(ctx, items[|items| - 1].0, items[|items| - 1].1)]
  }

  function OtherMarkers(others: seq<Other>): (r: seq<string>)
    ensures |r| == |others|
    ensures forall i :: 0 <= i < |others| ==> r[i] == others[i].marker
  {
    if others == [] then [] else OtherMarkers(others[..|others| - 1]) + [others[|others| - 1].marker]
  }

  /** An evaluation the other list takes: out of range and not already reported. */
  predicate Qualifies(e: Evaluation, excluded: set<string>)
  {
    OutOfRange(e.status) && e.marker !in excluded
  }

  function OtherOf(e: Evaluation): Other
  {
    Other(e.marker, e.value, e.unit, e.status)
  }

  /** The list after a scan with these evaluations: each qualifying marker once, at its first occurrence. */
  function OtherList(evals: seq<Evaluation>, excluded: set<string>): seq<Other>
  {
    if evals == [] then []
    else
      var acc := OtherList(evals[..|evals| - 1], excluded);
      var e := evals[|evals| - 1];
      if Qualifies(e, excluded) && e.marker !in OtherMarkers(acc) then acc + [OtherOf(e)] else acc
  }

  /** The other list names no marker twice, and none already reported. */
  lemma {:induction false} OtherListDistinct(evals: seq<Evaluation>, excluded: set<string>)
    ensures var os := OtherList(evals, excluded);
            && (forall i, j :: 0 <= i < j < |os| ==> os[i].marker != os[j].marker)
            && (forall o :: o in os ==> o.marker !in excluded && OutOfRange(o.status))
  {
    if evals != [] {
      var acc := OtherList(evals[..|evals| - 1], excluded);
      OtherListDistinct(evals[..|evals| - 1], excluded);
      var e := evals[|evals| - 1];
      var os := OtherList(evals, excluded);
      if os != acc {
        assert os == acc + [OtherOf(e)];
        assert Qualifies(e, excluded) && e.marker !in OtherMarkers(acc);
        forall i, j | 0 <= i < j < |os| ensures os[i].marker != os[j].marker {
          assert os[i] == acc[i];
          if j == |acc| {
            assert OtherMarkers(acc)[i] == acc[i].marker;
            assert acc[i].marker in OtherMarkers(acc);
            assert os[j].marker == e.marker;
          } else {
            assert os[j] == acc[j];
          }
        }
      }
    }
  }

  /** Every qualifying evaluation's marker is listed. */
  lemma {:induction false} OtherListComplete(evals: seq<Evaluation>, excluded: set<string>)
    ensures forall i :: 0 <= i < |evals| && Qualifies(evals[i], excluded) ==> evals[i].marker in OtherMarkers(OtherList(evals, excluded))
  {
    if evals != [] {
      var prefix := evals[..|evals| - 1];
      OtherListComplete(prefix, excluded);
      var acc := OtherList(prefix, excluded);
      var os := OtherList(evals, excluded);
      forall i | 0 <= i < |evals| && Qualifies(evals[i], excluded)
        ensures evals[i].marker in OtherMarkers(os)
      {
        if i < |evals| - 1 {
          assert evals[i] == prefix[i];
          var k :| 0 <= k < |acc| && OtherMarkers(acc)[k] == evals[i].marker;
          assert OtherMarkers(os)[k] == evals[i].marker;
        } else if evals[i].marker !in OtherMarkers(acc) {
          assert OtherMarkers(os)[|os| - 1] == evals[i].marker;
        }
      }
    }
  }

  /** Each entry is the reading of the first qualifying evaluation with its marker. */
  lemma {:induction false} OtherListFirstOccurrence(evals: seq<Evaluation>, excluded: set<string>)
    ensures forall o :: o in OtherList(evals, excluded) ==> exists i :: FirstQualifying(evals, excluded, o, i)
  {
    if evals != [] {
      var prefix := evals[..|evals| - 1];
      OtherListFirstOccurrence(prefix, excluded);
      var acc := OtherList(prefix, excluded);
      forall o | o in OtherList(evals, excluded) ensures exists i :: FirstQualifying(evals, excluded, o, i) {
        if o in acc {
          var i :| FirstQualifying(prefix, excluded, o, i);
          FirstQualifyingInPrefix(evals, excluded, o, i);
        } else {
          OtherListNewEntry(evals, excluded, o);
          assert FirstQualifying(evals, excluded, o, |evals| - 1);
        }
      }
    }
  }

  /** `evals[i]` is the first qualifying evaluation of `o`'s marker, and `o` is made from it. */
  predicate FirstQualifying(evals: seq<Evaluation>, excluded: set<string>, o: Other, i: int)
  {
    0 <= i < |evals| && Qualifies(evals[i], excluded) && o == OtherOf(evals[i])
    && forall j :: 0 <= j < i && evals[j].marker == o.marker ==> !Qualifies(evals[j], excluded)
  }

  lemma FirstQualifyingInPrefix(evals: seq<Evaluation>, excluded: set<string>, o: Other, i: int)
    requires evals != [] && FirstQualifying(evals[..|evals| - 1], excluded, o, i)
    ensures FirstQualifying(evals, excluded, o, i)
  {
    var prefix := evals[..|evals| - 1];
    assert forall j :: 0 <= j <= i ==> evals[j] == prefix[j];
  }

  /** An entry the last evaluation adds is that evaluation, and no earlier one for its marker qualified. */
  lemma OtherListNewEntry(evals: seq<Evaluation>, excluded: set<string>, o: Other)
    requires evals != []
    requires o in OtherList(evals, excluded) && o !in OtherList(evals[..|evals| - 1], excluded)
    ensures Qualifies(evals[|evals| - 1], excluded) && o == OtherOf(evals[|evals| - 1])
    ensures forall j :: 0 <= j < |evals| - 1 && evals[j].marker == o.marker ==> !Qualifies(evals[j], excluded)
  {
    var last := |evals| - 1;
    var prefix := evals[..last];
    var acc := OtherList(prefix, excluded);
    var e := evals[last];
    OtherListComplete(prefix, excluded);
    assert Qualifies(e, excluded) && e.marker !in OtherMarkers(acc);
    forall j | 0 <= j < last && evals[j].marker == o.marker
      ensures !Qualifies(evals[j], excluded)
    {
      assert evals[j] == prefix[j];
      assert prefix[j].marker !in OtherMarkers(acc);
    }
  }

  lemma ItemsStep(reports: LabReports, p: nat)
    requires p < |reports|
    ensures Items(reports[..p + 1]) == Items(reports[..p]) + reports[p].1
  {
    assert reports[..p + 1][..p] == reports[..p];
  }

  lemma EvaluateAllStep(ctx: Context, items: seq<(string, Measurement)>, panel: Panel, j: nat)
    requires j < |panel|
    ensures EvaluateAll(ctx, items + panel[..j + 1]) == EvaluateAll(ctx, items + panel[..j]) + [EvaluateIn(ctx, panel[j].0, panel[j].1)]
  {
    assert (items + panel[..j + 1])[..|items + panel[..j + 1]| - 1] == items + panel[..j];
  }

  lemma OtherListStep(evals: seq<Evaluation>, e: Evaluation, excluded: set<string>)
    ensures OtherList(evals + [e], excluded) ==
              var acc := OtherList(evals, excluded);
              if Qualifies(e, excluded) && e.marker !in OtherMarkers(acc) then acc + [OtherOf(e)] else acc
  {
    assert (evals + [e])[..|evals|] == evals;
  }

  /** The final scan over every panel's analytes. */
  method OtherOutOfRange(ctx: Context, reports: LabReports, excluded: set<string>) returns (other: seq<Other>)
    ensures other == OtherList(EvaluateAll(ctx, Items(reports)), excluded)
  {
    other := [];
    for p := 0 to |reports|
      invariant other == OtherList(EvaluateAll(ctx, Items(reports[..p])), excluded)
    {
      ItemsStep(reports, p);
      var panel := reports[p].1;
      ghost var done := Items(reports[..p]);
      assert done + panel[..0] == done;
      for j := 0 to |panel|
        invariant other == OtherList(EvaluateAll(ctx, done + panel[..j]), excluded)
      {
        var (markerKey, data) := panel[j];
        var res := Evaluate(ctx, markerKey, data.value, data.unit);
        EvaluateAllStep(ctx, done, panel, j);
        OtherListStep(EvaluateAll(ctx, done + panel[..j]), res, excluded);
        if OutOfRange(res.status) && markerKey !in excluded {
          if markerKey !in OtherMarkers(other) {
            other := other + [Other(res.marker, res.value, res.unit, res.status)];
          }
        }
      }
      assert panel[..|panel|] == panel;
    }
    assert reports[..|reports|] == reports;
  }

  // ---- the report ----

  /** The structured report; its fixed notes are left out. */
  datatype Report = Report(
    userId: string,
    alwaysAddress: seq<Section>,
    priorityFocus: Option<Focus>,
    otherOutOfRange: seq<Other>)

  /** `generate_medical_report` on the given range documents and supplement catalogue. */
  function MedicalReport(docs: seq<RangeDoc>, catalogue: map<string, Supplement>, req: ReportRequest, order: KeyOrder): Report
  {
    MedicalReportWith(docs, catalogue, req, order, PriorityGroups)
  }

  /** The report for a given table of priority groups. */
  function MedicalReportWith(docs: seq<RangeDoc>, catalogue: map<string, Supplement>, req: ReportRequest, order: KeyOrder,
                             groups: seq<Group>): Report
  {
    var ctx := UserContext(docs, catalogue, req);
    var always := AlwaysAddress(ctx, req);
    var focus := SelectPriority(ctx, req.labReports, order, groups);
    Report(req.userId, always, focus,
           OtherList(EvaluateAll(ctx, Items(req.labReports)), SectionMarkers(always) + FocusMarkers(focus)))
  }

  /** The red-cell loop: `rbc_out`. */
  method RbcMarkersOutOfRange(ctx: Context, cbc: Panel) returns (rbcOut: seq<Evaluation>)
    ensures rbcOut == RbcOut(ctx, cbc, RbcMarkerNames)
  {
    rbcOut := [];
    for i := 0 to |RbcMarkerNames|
      invariant rbcOut == RbcOut(ctx, cbc, RbcMarkerNames[..i])
    {
      assert RbcMarkerNames[..i + 1][..i] == RbcMarkerNames[..i];
      var m := RbcMarkerNames[i];
      var entry := Lookup(cbc, m);
      if entry.Some? {
        var res := Evaluate(ctx, m, entry.value.value, entry.value.unit);
        if OutOfRange(res.status) {
          rbcOut := rbcOut + [res];
        }
      }
    }
    assert RbcMarkerNames[..|RbcMarkerNames|] == RbcMarkerNames;
  }

  lemma SelectPriorityStep(ctx: Context, reports: LabReports, order: KeyOrder, groups: seq<Group>, g: nat)
    requires g < |groups|
    ensures SelectPriority(ctx, reports, order, groups[g..]) ==
              var found := CollectOutOfRange(ctx, reports, groups[g].markers, order);
              if found != [] then Some(FocusOf(groups[g].title, found)) else SelectPriority(ctx, reports, order, groups[g + 1..])
  {
    assert groups[g..][1..] == groups[g + 1..];
  }

  /** The priority loop: groups in order, stopping at the first with findings. */
  method SelectPriorityGroup(ctx: Context, reports: LabReports, order: KeyOrder, groups: seq<Group>) returns (selected: Option<Focus>)
    ensures selected == SelectPriority(ctx, reports, order, groups)
  {
    selected := None;
    var g := 0;
    while g < |groups| && selected.None?
      invariant 0 <= g <= |groups|
      invariant selected.None? ==> SelectPriority(ctx, reports, order, groups) == SelectPriority(ctx, reports, order, groups[g..])
      invariant selected.Some? ==> selected == SelectPriority(ctx, reports, order, groups)
    {
      SelectPriorityStep(ctx, reports, order, groups, g);
      var group := groups[g];
      var groupOut := CollectOutOfRangeForList(ctx, reports, group.markers, order);
      if groupOut != [] {
        selected := Some(FocusOf(group.title, groupOut));
      }
      g := g + 1;
    }
    if selected.None? {
      assert groups[g..] == [];
    }
  }

  /**
   * The service's passes in order: the always-address sections, the
   * priority loop, and the scan for the remaining out-of-range markers.
   */
  method GenerateMedicalReport(docs: seq<RangeDoc>, catalogue: map<string, Supplement>, req: ReportRequest, order: KeyOrder)
    returns (report: Report)
    ensures report == MedicalReport(docs, catalogue, req, order)
  {
    var ctx := UserContext(docs, catalogue, req);
    var cbc := PanelOf(req.labReports, CbcPanel);
    var always := BowelSection(req.bowelMovements);
    var rbcOut := RbcMarkersOutOfRange(ctx, cbc);
    always := always + RbcSection(ctx, rbcOut) + PlateletSection(ctx, cbc);
    always := always + CholesterolSection(PanelOf(req.labReports, "Lipid_Panel"));
    always := always + VitaminDSection(ctx, PanelOf(req.labReports, "Vitamin_D_25_Hydroxy"));
    var selected := SelectPriorityGroup(ctx, req.labReports, order, PriorityGroups);
    var other := OtherOutOfRange(ctx, req.labReports, SectionMarkers(always) + FocusMarkers(selected));
    report := Report(req.userId, always, selected, other);
  }

  /**
   * The other list of a scan repeats no marker, skips every shown marker
   * and holds every other analyte whose verdict is out of range.
   */
  lemma OtherOutOfRangeProperties(ctx: Context, reports: LabReports, shown: set<string>)
    ensures var os := OtherList(EvaluateAll(ctx, Items(reports)), shown);
            var items := Items(reports);
            && (forall i, j :: 0 <= i < j < |os| ==> os[i].marker != os[j].marker)
            && (forall o :: o in os ==> o.marker !in shown && OutOfRange(o.status))
            && (forall i :: (0 <= i < |items| && items[i].0 !in shown
                  && OutOfRange(EvaluateIn(ctx, items[i].0, items[i].1).status)) ==> items[i].0 in OtherMarkers(os))
  {
    var evals := EvaluateAll(ctx, Items(reports));
    OtherListDistinct(evals, shown);
    OtherListComplete(evals, shown);
    forall i | 0 <= i < |evals| ensures evals[i].marker == Items(reports)[i].0 {
    }
  }

  /** `OtherOutOfRangeProperties` for a report whose other list skips its own shown markers. */
  lemma ReportOtherList(ctx: Context, reports: LabReports, r: Report)
    requires r.otherOutOfRange == OtherList(EvaluateAll(ctx, Items(reports)), SectionMarkers(r.alwaysAddress) + FocusMarkers(r.priorityFocus))
    ensures var shown := SectionMarkers(r.alwaysAddress) + FocusMarkers(r.priorityFocus);
            var items := Items(reports);
            && (forall i, j :: 0 <= i < j < |r.otherOutOfRange| ==> r.otherOutOfRange[i].marker != r.otherOutOfRange[j].marker)
            && (forall o :: o in r.otherOutOfRange ==> o.marker !in shown && OutOfRange(o.status))
            && (forall i :: (0 <= i < |items| && items[i].0 !in shown
                  && OutOfRange(EvaluateIn(ctx, items[i].0, items[i].1).status)) ==> items[i].0 in OtherMarkers(r.otherOutOfRange))
  {
    OtherOutOfRangeProperties(ctx, reports, SectionMarkers(r.alwaysAddress) + FocusMarkers(r.priorityFocus));
  }

  /**
   * The report's other list, for any table of groups: it repeats no marker,
   * skips every marker already shown in a section or the focus, and holds
   * every other out-of-range analyte.
   */
  lemma MedicalReportOtherList(docs: seq<RangeDoc>, catalogue: map<string, Supplement>, req: ReportRequest, order: KeyOrder,
                               groups: seq<Group>)
    ensures var r := MedicalReportWith(docs, catalogue, req, order, groups);
            var ctx := UserContext(docs, catalogue, req);
            var shown := SectionMarkers(r.alwaysAddress) + FocusMarkers(r.priorityFocus);
            var items := Items(req.labReports);
            && (forall i, j :: 0 <= i < j < |r.otherOutOfRange| ==> r.otherOutOfRange[i].marker != r.otherOutOfRange[j].marker)
            && (forall o :: o in r.otherOutOfRange ==> o.marker !in shown && OutOfRange(o.status))
            && (forall i :: (0 <= i < |items| && items[i].0 !in shown
                  && OutOfRange(EvaluateIn(ctx, items[i].0, items[i].1).status)) ==> items[i].0 in OtherMarkers(r.otherOutOfRange))
  {
    var r := MedicalReportWith(docs, catalogue, req, order, groups);
    ReportOtherList(UserContext(docs, catalogue, req), req.labReports, r);
  }

  /** The report has no focus exactly when no group of the table has findings. */
  lemma MedicalReportFocus(docs: seq<RangeDoc>, catalogue: map<string, Supplement>, req: ReportRequest, order: KeyOrder,
                           groups: seq<Group>)
    ensures var r := MedicalReportWith(docs, catalogue, req, order, groups);
            var ctx := UserContext(docs, catalogue, req);
            r.priorityFocus.None? <==>
              forall g :: 0 <= g < |groups| ==> CollectOutOfRange(ctx, req.labReports, groups[g].markers, order) == []
  {
    SelectPriorityFirstNonEmpty(UserContext(docs, catalogue, req), req.labReports, order, groups);
  }
}
