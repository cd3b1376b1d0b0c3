/** The canonical lab panels the OCR extraction fills, each with its markers in order. */
module LabConstants {
  import opened Dicts

  const CbcMarkers: seq<string> :=
    ["WBC", "RBC", "Hemoglobin", "Hematocrit", "MCV", "MCH", "MCHC", "RDW",
     "Platelets", "Neutrophils", "Lymphocytes", "Monocytes", "Eosinophils", "Basophils"]
  const CmpMarkers: seq<string> :=
    ["Glucose", "Calcium", "Sodium", "Potassium", "Chloride", "CO2", "BUN", "Creatinine",
     "Total_Protein", "Albumin", "Globulin", "Total_Bilirubin", "Alkaline_Phosphatase", "AST_SGOT", "ALT_SGPT"]
  const LipidMarkers: seq<string> := ["Total_Cholesterol", "Triglycerides", "HDL", "LDL"]
  const ThyroidMarkers: seq<string> := ["TSH", "Free_T4", "Free_T3", "Reverse_T3", "T3", "T4", "Anti_TPO"]
  const IronMarkers: seq<string> := ["Iron", "TIBC", "Ferritin"]

  /** `CANONICAL_PANELS`, in its key order. */
  const CanonicalPanels: seq<(string, seq<string>)> := [
    ("CBC_with_Differential", CbcMarkers),
    ("CMP_14", CmpMarkers),
    ("Lipid_Panel", LipidMarkers),
    ("Thyroid_Profile_II", ThyroidMarkers),
    ("Vitamin_D_25_Hydroxy", ["25_Hydroxy_Vitamin_D"]),
    ("Iron_Panel", IronMarkers),
    ("Magnesium", ["Magnesium"]),
    ("HbA1c", ["Hemoglobin_A1c"])
  ]

  /** `ALL_CANONICAL_MARKERS`: every marker of every panel. */
  function AllMarkers(panels: seq<(string, seq<string>)>): (r: set<string>)
    ensures forall i, j :: 0 <= i < |panels| && 0 <= j < |panels[i].1| ==> panels[i].1[j] in r
    ensures forall m :: m in r ==> exists i :: 0 <= i < |panels| && m in panels[i].1
  {
    set i, j | 0 <= i < |panels| && 0 <= j < |panels[i].1| :: panels[i].1[j]
  }

  const AllCanonicalMarkers: set<string> := AllMarkers(CanonicalPanels)

  /** No marker twice within one list. */
  predicate UniqueMarkers(panels: seq<(string, seq<string>)>)
  {
    forall i :: 0 <= i < |panels| ==> Unique(panels[i].1)
  }

  predicate Unique(ms: seq<string>)
  {
    forall j, k :: 0 <= j < k < |ms| ==> ms[j] != ms[k]
  }

  /** The eight panels, and the lists the report engine and the frontend rely on. */
  lemma CanonicalPanelsTable()
    ensures KeysOf(CanonicalPanels) ==
              ["CBC_with_Differential", "CMP_14", "Lipid_Panel", "Thyroid_Profile_II",
               "Vitamin_D_25_Hydroxy", "Iron_Panel", "Magnesium", "HbA1c"]
    ensures |CbcMarkers| == 14 && |CmpMarkers| == 15
    ensures "Total_Protein" in CmpMarkers && "Albumin" in CmpMarkers
    ensures "Globulin" in CmpMarkers && "Direct_Bilirubin" !in CmpMarkers
    ensures IronMarkers == ["Iron", "TIBC", "Ferritin"]
  {
    CanonicalPanelNames();
    CmpMarkersContents();
  }

  lemma CanonicalPanelNames()
    ensures KeysOf(CanonicalPanels) ==
              ["CBC_with_Differential", "CMP_14", "Lipid_Panel", "Thyroid_Profile_II",
               "Vitamin_D_25_Hydroxy", "Iron_Panel", "Magnesium", "HbA1c"]
  {
    var keys := KeysOf(CanonicalPanels);
    assert |keys| == 8;
    assert forall i :: 0 <= i < 8 ==> keys[i] == CanonicalPanels[i].0;
  }

  lemma CmpMarkersContents()
    ensures "Total_Protein" in CmpMarkers && "Albumin" in CmpMarkers
    ensures "Globulin" in CmpMarkers && "Direct_Bilirubin" !in CmpMarkers
  {
    assert CmpMarkers[8] == "Total_Protein" && CmpMarkers[9] == "Albumin" && CmpMarkers[10] == "Globulin";
    forall j | 0 <= j < |CmpMarkers| ensures CmpMarkers[j] != "Direct_Bilirubin" {
      assert CmpMarkers[j][0] != 'D' || |CmpMarkers[j]| != |"Direct_Bilirubin"|;
    }
  }

  lemma CbcMarkersUnique() ensures Unique(CbcMarkers) {}
  lemma CmpMarkersUnique() ensures Unique(CmpMarkers) {}
  lemma ThyroidMarkersUnique() ensures Unique(ThyroidMarkers) {}

  /** The table is a dictionary of duplicate-free lists. */
  lemma CanonicalPanelsWellFormed()
    ensures UniqueKeys(CanonicalPanels)
    ensures UniqueMarkers(CanonicalPanels)
  {
    CbcMarkersUnique();
    CmpMarkersUnique();
    ThyroidMarkersUnique();
  }
}
