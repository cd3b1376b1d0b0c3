/**
 * The intake record the upload wizard collects, the store every screen
 * updates, and the sequencer that decides which lab-panel screen follows
 * the current one.
 */
module Intake {
  import opened Wrappers
  import opened JsValues

  /** One lab panel as the screens keep it: analyte name to `{value, unit}` entry. */
  type Panel = map<string, Json>

  /** The wizard's record; every field is optional, `None` meaning never set. */
  datatype IntakeData = IntakeData(
    disclaimerAccepted: Option<bool>,
    isAdult: Option<bool>,
    hasBloodwork: Option<bool>,
    gender: Option<string>,
    genderAtBirth: Option<string>,
    pregnantOrNursing: Option<bool>,
    menstruationStatus: Option<string>,
    bowelMovement: Option<string>,
    manualValues: Option<map<string, Json>>,
    selectedReports: Option<seq<string>>,
    cbc: Option<Panel>,
    cmb: Option<Panel>,
    hemoglobin: Option<Panel>,
    iron: Option<Panel>,
    lipid: Option<Panel>,
    magnesium: Option<Panel>,
    thyroid: Option<Panel>,
    vitaminD: Option<Panel>)

  /** The record `{}` the wizard starts from and returns to on reset. */
  const EmptyIntake := IntakeData(None, None, None, None, None, None, None, None, None,
                                  None, None, None, None, None, None, None, None, None)

  /** The eight panel fields of the record. */
  datatype Slot = CbcSlot | CmbSlot | HemoglobinSlot | IronSlot | LipidSlot | MagnesiumSlot | ThyroidSlot | VitaminDSlot

  function PanelAt(d: IntakeData, slot: Slot): Option<Panel>
  {
    match slot
    case CbcSlot => d.cbc
    case CmbSlot => d.cmb
    case HemoglobinSlot => d.hemoglobin
    case IronSlot => d.iron
    case LipidSlot => d.lipid
    case MagnesiumSlot => d.magnesium
    case ThyroidSlot => d.thyroid
    case VitaminDSlot => d.vitaminD
  }

  /** `{...d, [slot]: p}`: sets one panel field and keeps every other field. */
  function WithPanel(d: IntakeData, slot: Slot, p: Option<Panel>): (r: IntakeData)
    ensures PanelAt(r, slot) == p
    ensures forall other :: other != slot ==> PanelAt(r, other) == PanelAt(d, other)
    ensures r.(cbc := d.cbc, cmb := d.cmb, hemoglobin := d.hemoglobin, iron := d.iron,
               lipid := d.lipid, magnesium := d.magnesium, thyroid := d.thyroid,
               vitaminD := d.vitaminD) == d
  {
    match slot
    case CbcSlot => d.(cbc := p)
    case CmbSlot => d.(cmb := p)
    case HemoglobinSlot => d.(hemoglobin := p)
    case IronSlot => d.(iron := p)
    case LipidSlot => d.(lipid := p)
    case MagnesiumSlot => d.(magnesium := p)
    case ThyroidSlot => d.(thyroid := p)
    case VitaminDSlot => d.(vitaminD := p)
  }

  // ---- the report sequencer ----

  /** `reports.indexOf(key)`: the first position of `key`, or -1. */
  function IndexOf(reports: seq<string>, key: string): (i: int)
    ensures -1 <= i < |reports|
    ensures i == -1 <==> key !in reports
    ensures 0 <= i ==> reports[i] == key && key !in reports[..i]
  {
    if reports == [] then -1
    else if reports[0] == key then 0
    else
      var j := IndexOf(reports[1..], key);
      if j == -1 then -1 else (assert reports[..j + 1] == [reports[0]] + reports[1..][..j]; j + 1)
  }

  /** The entry screen of each selectable report, by its key on the report selection screen. */
  function ReportScreen(key: string): Option<string>
  {
    if key == "cbc" then Some("/upload/cbc1")
    else if key == "cmp" then Some("/upload/cmb141")
    else if key == "ironPanel" then Some("/upload/iron")
    else if key == "hba1c" then Some("/upload/hemoglobin")
    else if key == "lipidPanel" then Some("/upload/lipid")
    else if key == "magnesium" then Some("/upload/magnesium")
    else if key == "thyroid" then Some("/upload/thyroid1")
    else if key == "vitaminD" then Some("/upload/vitaminD")
    else None
  }

  const GenerateReportRoute := "/upload/generate-report"
  const DashboardRoute := "/dashboard"

  /** The routes the sequencer can answer with; it never answers `null`. */
  ghost predicate IsSequencerRoute(route: string)
  {
    route == GenerateReportRoute || route == DashboardRoute || exists key :: ReportScreen(key) == Some(route)
  }

  /**
   * `getNextReportPage(currentKey)`: the screen of the report chosen after
   * `currentKey`, the report-generation screen when `currentKey` is the last
   * chosen report or was never chosen, and the dashboard for an unknown key.
   */
  function NextReportPage(selected: Option<seq<string>>, currentKey: string): (route: string)
    ensures IsSequencerRoute(route)
  {
    var reports := selected.GetOr([]);
    var index := IndexOf(reports, currentKey);
    if index == -1 || index == |reports| - 1 then GenerateReportRoute
    else ReportScreen(reports[index + 1]).GetOr(DashboardRoute)
  }

  /** The sequencer's three outcomes, as the first occurrence of the key decides them. */
  lemma NextReportPageCases(reports: seq<string>, currentKey: string)
    ensures currentKey !in reports ==> NextReportPage(Some(reports), currentKey) == GenerateReportRoute
    ensures currentKey in reports && reports[|reports| - 1] == currentKey && currentKey !in reports[..|reports| - 1]
            ==> NextReportPage(Some(reports), currentKey) == GenerateReportRoute
    ensures forall i :: (0 <= i < |reports| - 1 && reports[i] == currentKey && currentKey !in reports[..i]
              ==> NextReportPage(Some(reports), currentKey) == ReportScreen(reports[i + 1]).GetOr(DashboardRoute))
  {
    forall i | 0 <= i < |reports| - 1 && reports[i] == currentKey && currentKey !in reports[..i]
      ensures IndexOf(reports, currentKey) == i
    {
      FirstOccurrence(reports, currentKey, i);
    }
    if currentKey in reports && reports[|reports| - 1] == currentKey && currentKey !in reports[..|reports| - 1] {
      FirstOccurrence(reports, currentKey, |reports| - 1);
    }
  }

  lemma FirstOccurrence(reports: seq<string>, key: string, i: nat)
    requires i < |reports| && reports[i] == key && key !in reports[..i]
    ensures IndexOf(reports, key) == i
  {
  }

  /** Every element of `s` differs from every other. */
  predicate Distinct(s: seq<string>)
  {
    forall i, j :: 0 <= i < j < |s| ==> s[i] != s[j]
  }

  /**
   * Walking a selection of distinct reports by the sequencer visits their
   * screens in the order they were chosen and ends at report generation.
   */
  lemma {:induction false} SequencerFollowsSelection(reports: seq<string>, i: nat)
    requires Distinct(reports) && i < |reports|
    ensures NextReportPage(Some(reports), reports[i]) ==
            if i == |reports| - 1 then GenerateReportRoute
            else ReportScreen(reports[i + 1]).GetOr(DashboardRoute)
  {
    assert reports[i] !in reports[..i] by {
      forall j | 0 <= j < i ensures reports[..i][j] != reports[i] {}
    }
    FirstOccurrence(reports, reports[i], i);
  }

  /** Without a selection every panel screen hands over to report generation. */
  lemma NoSelectionGoesToReport(currentKey: string)
    ensures NextReportPage(None, currentKey) == GenerateReportRoute
  {
  }

  /** The React context that holds the record for every screen of the wizard. */
  class IntakeStore {
    var intake: IntakeData

    constructor ()
      ensures intake == EmptyIntake
    {
      intake := EmptyIntake;
    }

    /** `resetIntake`: back to the empty record. */
    method ResetIntake()
      modifies this
      ensures intake == EmptyIntake
    {
      intake := EmptyIntake;
    }

    /** `getNextReportPage`, over the record's current selection. */
    function GetNextReportPage(currentKey: string): (route: string)
      reads this
      ensures IsSequencerRoute(route)
      ensures intake.selectedReports.None? ==> route == GenerateReportRoute
    {
      NextReportPage(intake.selectedReports, currentKey)
    }

    method SetSelectedReports(reports: seq<string>)
      modifies this
      ensures intake == old(intake).(selectedReports := Some(reports))
    {
      intake := intake.(selectedReports := Some(reports));
    }

    method SetGender(value: string)
      modifies this
      ensures intake == old(intake).(gender := Some(value))
    {
      intake := intake.(gender := Some(value));
    }

    method SetPregnantOrNursing(value: bool)
      modifies this
      ensures intake == old(intake).(pregnantOrNursing := Some(value))
    {
      intake := intake.(pregnantOrNursing := Some(value));
    }

    method SetMenstruationStatus(value: string)
      modifies this
      ensures intake == old(intake).(menstruationStatus := Some(value))
    {
      intake := intake.(menstruationStatus := Some(value));
    }

    method SetBowelMovement(value: string)
      modifies this
      ensures intake == old(intake).(bowelMovement := Some(value))
    {
      intake := intake.(bowelMovement := Some(value));
    }

    /** Writes one panel field; the panel screens replace or merge through this. */
    method SetPanel(slot: Slot, panel: Option<Panel>)
      modifies this
      ensures intake == WithPanel(old(intake), slot, panel)
    {
      intake := WithPanel(intake, slot, panel);
    }
  }
}
