/**
 * The upload screen: sends the chosen files to the OCR endpoint and copies
 * the panels it extracts into the record, or starts manual entry from an
 * empty record.
 */
module UploadScreen {
  import opened Wrappers
  import opened JsValues
  import opened Intake
  import opened Navigation

  /**
   * What the OCR request gives back: a thrown error (network failure or a
   * non-success status), or a body whose `lab_reports` maps each backend
   * panel name to its analytes (`None` when the body has none).
   */
  datatype OcrReply = OcrError | OcrBody(labReports: Option<map<string, Panel>>)

  /** The record field each backend panel is copied into. */
  function BackendPanelName(slot: Slot): string
  {
    match slot
    case CbcSlot => "CBC_with_Differential"
    case CmbSlot => "CMP_14"
    case LipidSlot => "Lipid_Panel"
    case ThyroidSlot => "Thyroid_Profile_II"
    case VitaminDSlot => "Vitamin_D_25_Hydroxy"
    case IronSlot => "Iron_Panel"
    case MagnesiumSlot => "Magnesium"
    case HemoglobinSlot => "HbA1c"
  }

  /** `labReports[name]`, `undefined` when the reply lacks that panel. */
  function Lookup(labReports: map<string, Panel>, name: string): Option<Panel>
  {
    if name in labReports then Some(labReports[name]) else None
  }

  /** The record after the OCR reply is copied in: all eight panel fields are overwritten. */
  function WithOcrPanels(d: IntakeData, labReports: map<string, Panel>): (r: IntakeData)
    ensures forall slot :: PanelAt(r, slot) == Lookup(labReports, BackendPanelName(slot))
    ensures r.(cbc := d.cbc, cmb := d.cmb, hemoglobin := d.hemoglobin, iron := d.iron,
               lipid := d.lipid, magnesium := d.magnesium, thyroid := d.thyroid,
               vitaminD := d.vitaminD) == d
  {
    d.(cbc := Lookup(labReports, "CBC_with_Differential"),
       cmb := Lookup(labReports, "CMP_14"),
       lipid := Lookup(labReports, "Lipid_Panel"),
       thyroid := Lookup(labReports, "Thyroid_Profile_II"),
       vitaminD := Lookup(labReports, "Vitamin_D_25_Hydroxy"),
       iron := Lookup(labReports, "Iron_Panel"),
       magnesium := Lookup(labReports, "Magnesium"),
       hemoglobin := Lookup(labReports, "HbA1c"))
  }

  /** A reply holding all eight backend panels fills every panel field of the record. */
  lemma FullReplyFillsEveryPanel(d: IntakeData, labReports: map<string, Panel>, slot: Slot)
    requires forall s: Slot :: BackendPanelName(s) in labReports
    ensures PanelAt(WithOcrPanels(d, labReports), slot) == Some(labReports[BackendPanelName(slot)])
  {
  }

  /** After manual entry is chosen, every panel screen hands over to report generation. */
  lemma ManualEntrySkipsSequencer(currentKey: string)
    ensures NextReportPage(EmptyIntake.selectedReports, currentKey) == GenerateReportRoute
  {
  }

  /** UploadReports.tsx: the chosen files and the request-in-flight flag. */
  class UploadReports {
    var fileCount: nat
    var loading: bool

    constructor ()
      ensures fileCount == 0 && !loading
    {
      fileCount := 0;
      loading := false;
    }

    /** Next is disabled without files and while a request is in flight. */
    function NextDisabled(): (disabled: bool)
      reads this
      ensures !disabled <==> fileCount > 0 && !loading
    {
      fileCount == 0 || loading
    }

    /** `handleFileChange`: the size of the chosen file list, or `None` when the event carries none. */
    method HandleFileChange(files: Option<nat>)
      modifies this
      ensures fileCount == (if files.Some? then files.value else old(fileCount)) && loading == old(loading)
    {
      if files.Some? {
        fileCount := files.value;
      }
    }

    /**
     * `handleSubmit`, with the OCR reply as a parameter. Without files
     * nothing happens. A reply overwrites the eight panel fields and opens
     * the first CBC screen with a success toast; an error only stops the
     * spinner, and the record and the screen stay as they were.
     */
    method HandleSubmit(store: IntakeStore, reply: OcrReply) returns (nav: Option<Nav>)
      modifies this, store
      ensures old(fileCount) == 0 ==> nav.None? && store.intake == old(store.intake) && loading == old(loading)
      ensures old(fileCount) > 0 ==> !loading
      ensures old(fileCount) > 0 && reply.OcrError? ==> nav.None? && store.intake == old(store.intake)
      ensures old(fileCount) > 0 && reply.OcrBody? ==>
                nav == Some(Nav("/upload/cbc1", SuccessToast))
                && store.intake == WithOcrPanels(old(store.intake), reply.labReports.GetOr(map[]))
      ensures fileCount == old(fileCount)
    {
      if fileCount == 0 {
        return None;
      }
      loading := true;
      match reply {
        case OcrError =>
          nav := None;
        case OcrBody(labReports) =>
          var panels := labReports.GetOr(map[]);
          store.intake := WithOcrPanels(store.intake, panels);
          nav := Some(Nav("/upload/cbc1", SuccessToast));
      }
      loading := false;
    }

    /** `OnManualEntry`: clears the whole record, including the report selection. */
    method OnManualEntry(store: IntakeStore) returns (nav: Nav)
      modifies store
      ensures store.intake == EmptyIntake
      ensures nav == Nav("/upload/cbc1", NoToast)
    {
      store.ResetIntake();
      nav := Nav("/upload/cbc1", NoToast);
    }
  }
}
