# Root-cause lab decoder, modelled in Dafny

The lab decoder takes a user through an intake wizard. The wizard asks about
gender, pregnancy, menstruation and bowel movements, then which blood panels
to analyse. The panels come from an OCR upload of lab report PDFs or images,
or from manual entry screen by screen. The frontend normalises the collected
record and converts units to the conventional ones. It then asks the backend
for a report: the backend compares every marker with its functional range,
groups the findings by body system, chooses a priority focus and writes the
PDF. Beside this sit the OCR extraction endpoint, the signed `state` of the
Google sign-in, and the admin page that pages through the supplements.

The project has one Dafny module per source file of that core, plus shared
modules (`Wrappers`, `Text`, `Dicts`, `JsValues`, `Navigation`):

- `Intake`, `DemographicScreens`, `ReportsScreen`, `UploadScreen`: the
  intake context and the wizard screens. Each screen's state is a class
  whose methods are the event handlers.
- `PanelScreens`: the twelve manual-entry panel screens.
- `LabLeaves`, `ReportPayload`, `UnitConversion`, `LabUnits`: the payload
  normaliser and the unit conversion of `GenerateReport.tsx`.
- `MarkerEvaluation`, `ReportEngine`, `ReportText`: the report service.
- `LabConstants`, `OcrService`, `OcrRouter`: the OCR constants, the alias
  dictionary and text scanning, and the extraction endpoint.
- `GoogleState`: base64url, the signed state and the redirect check.
- `SupplementsAdmin`: the supplements admin page.

Where the source loops or changes state, the model does too, with a method
proved against a function that specifies it. Everything else is functions.
Lemmas state what the code promises about them.

## Model

| member | source | states |
|---|---|---|
| Intake.WithPanel | frontend/src/components/IntakeContext.tsx:14-21 | writing one panel field of the record sets that field and leaves every other field as it was |
| Intake.IndexOf | frontend/src/components/IntakeContext.tsx:42 | the result is -1 exactly when the key is absent; otherwise it is a position holding the key, with no earlier occurrence |
| Intake.NextReportPage | frontend/src/components/IntakeContext.tsx:40-59 | the sequencer always answers a route (never null): report generation, the dashboard, or one of the eight report screens |
| Intake.NextReportPageCases | frontend/src/components/IntakeContext.tsx:41-58 | a key that is absent, or is last, routes to report generation; otherwise the report after the key's first occurrence picks the route from the fixed table, and the dashboard is the fallback |
| Intake.SequencerFollowsSelection | frontend/src/components/IntakeContext.tsx:42-56 | with distinct selected reports, each report's screen hands over to the screen of the next report, and the last hands over to report generation |
| Intake.NoSelectionGoesToReport | frontend/src/components/IntakeContext.tsx:41-43 | a record with no selection sends every screen to report generation |
| Intake.IntakeStore.constructor | frontend/src/components/IntakeContext.tsx:36 | the context starts with the empty record |
| Intake.IntakeStore.ResetIntake | frontend/src/components/IntakeContext.tsx:38 | resetting replaces the whole record with the empty record |
| Intake.IntakeStore.GetNextReportPage | frontend/src/components/IntakeContext.tsx:40-59 | it only reads the record, answers a sequencer route, and answers report generation when nothing is selected |
| Intake.IntakeStore.SetSelectedReports | frontend/src/components/IntakeContext.tsx:26 | only the selection changes |
| Intake.IntakeStore.SetGender | frontend/src/components/IntakeContext.tsx:26 | only `gender` changes |
| Intake.IntakeStore.SetPregnantOrNursing | frontend/src/components/IntakeContext.tsx:26 | only `pregnantOrNursing` changes |
| Intake.IntakeStore.SetMenstruationStatus | frontend/src/components/IntakeContext.tsx:26 | only `menstruationStatus` changes |
| Intake.IntakeStore.SetBowelMovement | frontend/src/components/IntakeContext.tsx:26 | only `bowelMovement` changes |
| Intake.IntakeStore.SetPanel | frontend/src/components/IntakeContext.tsx:26 | only one panel field changes |
| DemographicScreens.OfferedChoiceAdvances | frontend/src/pages/Upload/Gender.tsx:11-21 | every option a screen offers moves the wizard strictly closer to report selection |
| DemographicScreens.WizardReachesReports | frontend/src/pages/Upload/Gender.tsx:11-21 | any run of offered answers takes at most four submits, each answer using up at least one of the submits left |
| DemographicScreens.OnlyReportsOffersNothing | frontend/src/pages/Upload/Gender.tsx:11-21 | report selection is the only screen of the wizard that offers no answer, so a run can stop only there |
| DemographicScreens.PregnancyPathOnlyForFemale | frontend/src/pages/Upload/Gender.tsx:13-20 | only "female" leads to the pregnancy question, and only an answer other than "yes" leads on to menstruation |
| DemographicScreens.SubmitGender | frontend/src/pages/Upload/Gender.tsx:11-21 | "transgender" and "preferNotToSay" go to gender at birth and write nothing; "female" writes `gender` and goes to pregnancy status; anything else writes `gender` and goes to bowel movements |
| DemographicScreens.SubmitGenderAtBirth | frontend/src/pages/Upload/GenderAtBirth.tsx:11-15 | the answer is written to `gender`, not to `genderAtBirth`, and the next screen is bowel movements |
| DemographicScreens.SubmitPregnancyStatus | frontend/src/pages/Upload/PregnancyStatus.tsx:10-27 | stores whether the answer is "yes"; "yes" goes to bowel movements with a warning toast, anything else to menstruation status |
| DemographicScreens.SubmitMenstruationStatus | frontend/src/pages/Upload/MenstruationStatus.tsx:11-18 | stores the answer and goes to bowel movements |
| DemographicScreens.SubmitBowelMovements | frontend/src/pages/Upload/BowelMovements.tsx:10-14 | stores the answer and goes to report selection |
| ReportsScreen.RequiredKeys | frontend/src/pages/Upload/Reports.tsx:36 | a key is preselected exactly when the table marks it required |
| ReportsScreen.InitialSelection | frontend/src/pages/Upload/Reports.tsx:11-37 | the screen starts with exactly CBC and CMP selected, in that order |
| ReportsScreen.Without | frontend/src/pages/Upload/Reports.tsx:42 | filtering out a key keeps exactly the other elements, and changes nothing when the key is absent |
| ReportsScreen.Toggle | frontend/src/pages/Upload/Reports.tsx:39-44 | a required report is never toggled; an optional one is removed when selected and appended at the end when not |
| ReportsScreen.ToggleKeepsSelectionWellFormed | frontend/src/pages/Upload/Reports.tsx:35-44 | toggling keeps CBC and CMP first and every report listed at most once |
| ReportsScreen.ToggleTwiceRestores | frontend/src/pages/Upload/Reports.tsx:41-43 | two clicks on an unselected optional report restore the selection |
| ReportsScreen.WithoutConcat | frontend/src/pages/Upload/Reports.tsx:42 | filtering acts on each part of a list separately, so the kept keys stay in their click order |
| ReportsScreen.WithoutRemovesAt | frontend/src/pages/Upload/Reports.tsx:42 | removing a key that occurs once at position i gives the list before i followed by the list after i |
| ReportsScreen.ToggleRemovesInPlace | frontend/src/pages/Upload/Reports.tsx:39-43 | unticking a selected optional report in a duplicate-free selection deletes exactly its position and keeps the others in click order |
| ReportsScreen.WithoutKeepsOrder | frontend/src/pages/Upload/Reports.tsx:42 | filtering keeps a duplicate-free list duplicate-free and keeps its head when the head is not the key |
| ReportsScreen.ReportSelection.constructor | frontend/src/pages/Upload/Reports.tsx:35-37 | the state starts as the required keys |
| ReportsScreen.ReportSelection.HandleCheckboxChange | frontend/src/pages/Upload/Reports.tsx:39-44 | the new selection is the toggle of the old one |
| ReportsScreen.ReportSelection.HandleSubmit | frontend/src/pages/Upload/Reports.tsx:46-50 | the selection is stored in the record and the next screen is the upload screen |
| UploadScreen.WithOcrPanels | frontend/src/pages/Upload/UploadReports.tsx:42-53 | all eight panel fields are overwritten from the reply's backend panels (a panel the reply lacks becomes undefined), and every other field is kept |
| UploadScreen.FullReplyFillsEveryPanel | frontend/src/pages/Upload/UploadReports.tsx:43-53 | a reply with all eight backend panels fills every panel field |
| UploadScreen.ManualEntrySkipsSequencer | frontend/src/pages/Upload/UploadReports.tsx:68-71 | after manual entry wipes the record, every panel screen hands over to report generation, because the selection is gone |
| UploadScreen.UploadReports.constructor | frontend/src/pages/Upload/UploadReports.tsx:12-13 | no files and no request in flight |
| UploadScreen.UploadReports.NextDisabled | frontend/src/pages/Upload/UploadReports.tsx:177 | submitting is possible exactly when files are chosen and no request is in flight |
| UploadScreen.UploadReports.HandleFileChange | frontend/src/pages/Upload/UploadReports.tsx:27-31 | a new file list replaces the chosen files; an event without a file list keeps them |
| UploadScreen.UploadReports.HandleSubmit | frontend/src/pages/Upload/UploadReports.tsx:33-66 | without files nothing happens; an error leaves the record as it was; a reply overlays the OCR panels and opens the first CBC screen with a success toast; the spinner always stops |
| UploadScreen.UploadReports.OnManualEntry | frontend/src/pages/Upload/UploadReports.tsx:68-71 | the whole record, selection included, is reset, and the first CBC screen opens |
| PanelScreens.InitialValue | frontend/src/pages/Upload/CBC2.tsx:29-33 | the seeded value is always a string; it is the stored value as text when one is stored, never empty on the screens that default to "0" |
| PanelScreens.InitialUnit | frontend/src/pages/Upload/CBC2.tsx:45-50 | the seeded unit is the stored unit when it is a non-empty string, else the row's first option, so never empty |
| PanelScreens.InitialFormKeys | frontend/src/pages/Upload/CBC2.tsx:20-51 | the seeded form has exactly one value and one unit per row label |
| PanelScreens.InitialFormAt | frontend/src/pages/Upload/CBC2.tsx:29-33 | each row is seeded from its own stored entry |
| PanelScreens.WrittenKeys | frontend/src/pages/Upload/CBC2.tsx:66-73 | a submit writes exactly one entry per row key |
| PanelScreens.WrittenAt | frontend/src/pages/Upload/CBC2.tsx:68-72 | each row is written under its key as the `{value, unit}` of its label's state |
| PanelScreens.SubmittedPanelContents | frontend/src/pages/Upload/CBC2.tsx:64-74 | every row is written under its key; a merging screen keeps every other analyte of the stored panel, and a replacing screen keeps none |
| PanelScreens.UntouchedRowRestored | frontend/src/pages/Upload/CBC2.tsx:29-72 | re-seeding a row the screen could have written and writing it back gives that row |
| PanelScreens.UntouchedResubmitRestores | frontend/src/pages/Upload/CBC3.tsx:29-76 | opening a screen on rows it could have written and submitting without edits stores the same rows |
| PanelScreens.PanelScreen.constructor | frontend/src/pages/Upload/CBC2.tsx:20-51 | the loop seeds values and units exactly as the reduce over the rows does |
| PanelScreens.PanelScreen.HandleChange | frontend/src/pages/Upload/CBC2.tsx:53-55 | one value changes; the units stay |
| PanelScreens.PanelScreen.HandleUnitChange | frontend/src/pages/Upload/CBC2.tsx:57-59 | one unit changes; the values stay |
| PanelScreens.PanelScreen.HandleSubmit | frontend/src/pages/Upload/Lipid.tsx:72-91 | the panel written back is the submitted panel, and the route is the screen's fixed successor or the sequencer's answer for its report key |
| PanelScreens.Cbc1Entry | frontend/src/pages/Upload/CBC1.tsx:37-44 | a seeded CBC1 row is a `{value, unit}` object with a string value; a missing unit becomes the first option |
| PanelScreens.Cbc1InitialKeys | frontend/src/pages/Upload/CBC1.tsx:36-46 | CBC1's state has exactly one row per label |
| PanelScreens.WithProp | frontend/src/pages/Upload/CBC1.tsx:52 | the row gains the property and keeps the others |
| PanelScreens.CbcFirstScreen.constructor | frontend/src/pages/Upload/CBC1.tsx:26-47 | the loop seeds the rows exactly as the reduce does |
| PanelScreens.CbcFirstScreen.HandleChange | frontend/src/pages/Upload/CBC1.tsx:49-54 | only the edited row's value changes |
| PanelScreens.CbcFirstScreen.HandleUnitChange | frontend/src/pages/Upload/CBC1.tsx:56-61 | only the edited row's unit changes |
| PanelScreens.CbcFirstScreen.HandleSubmit | frontend/src/pages/Upload/CBC1.tsx:63-71 | the CBC panel is replaced by the rows, and the next screen is CBC2 |
| PanelScreens.FormsAreValid | frontend/src/pages/Upload/CBC2.tsx:11-17 | every screen offers a unit on each row, and no screen repeats a label or a key |
| PanelScreens.SubmittedKeys | frontend/src/pages/Upload/Lipid.tsx:74-88 | the panel left by a submit has the rows' keys, plus the stored panel's keys when the screen merges |
| PanelScreens.CbcScreensFixThePanelKeys | frontend/src/pages/Upload/CBC1.tsx:63-71 | after the three CBC screens the panel holds exactly their thirteen keys, whatever OCR had stored, because CBC1 replaces the panel |
| PanelScreens.CbcScreenKeysOmitOcrNames | frontend/src/pages/Upload/CBC1.tsx:19-21 | those keys contain no RBC, and hemoglobin and hematocrit appear only under their display labels |
| PanelScreens.ThyroidScreensFixThePanelKeys | frontend/src/pages/Upload/Thyroid2.tsx:52-61 | after the two thyroid screens the panel holds exactly the seven thyroid analytes |
| LabLeaves.LeafNumber | frontend/src/pages/Upload/GenerateReport.tsx:49-58 | a leaf's value becomes the number it spells, or 0 when it is not a string or number, or does not parse |
| LabLeaves.LeafUnit | frontend/src/pages/Upload/GenerateReport.tsx:61 | the unit is kept when it is a string and becomes "" otherwise |
| LabLeaves.CoerceLeaf | frontend/src/pages/Upload/GenerateReport.tsx:48-62 | a coerced leaf has exactly a numeric value and a string unit |
| LabLeaves.CoerceReport | frontend/src/pages/Upload/GenerateReport.tsx:44-70 | the loop over the report's entries builds the same object as the recursive definition |
| LabLeaves.NormalizeLabReportShape | frontend/src/pages/Upload/GenerateReport.tsx:44-70 | the result is always an object; an object report keeps exactly its keys; anything else gives `{}` |
| LabLeaves.CoerceLeafIdempotent | frontend/src/pages/Upload/GenerateReport.tsx:48-62 | coercing a coerced leaf changes nothing |
| LabLeaves.NormalizeLabReportIdempotent | frontend/src/pages/Upload/GenerateReport.tsx:44-70 | normalising a normalised report changes nothing |
| LabLeaves.NormalizeEntryIdempotent | frontend/src/pages/Upload/GenerateReport.tsx:59-66 | the same holds for each entry |
| LabLeaves.NormalizeLabReportLeavesNumeric | frontend/src/pages/Upload/GenerateReport.tsx:44-70 | after normalising, every leaf at any depth is a number with a string unit |
| ReportPayload.NormalizePayloadDefaults | frontend/src/pages/Upload/GenerateReport.tsx:24-42 | only nullish flags and texts are replaced, by false and "" respectively; every other key is kept, and the panels object keeps its panel names with each panel coerced |
| ReportPayload.NormalizePayloadNeverNullish | frontend/src/pages/Upload/GenerateReport.tsx:27-40 | no defaulted key comes out nullish |
| ReportPayload.NormalizePayloadIdempotent | frontend/src/pages/Upload/GenerateReport.tsx:24-42 | normalising a normalised payload changes nothing |
| ReportPayload.GenerateReport | frontend/src/pages/Upload/GenerateReport.tsx:298-345 | the payload sent is the record built, normalised and converted; the screen navigates to the report list with a success toast whenever the POST gets any HTTP reply whose body reads as a blob, an error status included, and stays put when the request or the body read throws |
| ReportPayload.NormalizedPayloadContents | frontend/src/pages/Upload/GenerateReport.tsx:301-323 | before conversion the payload holds the user id, both consents true, the chosen gender (or "") under both gender keys, the other answers or their defaults, "manual", and each panel coerced |
| ReportPayload.PreparedPayloadContents | frontend/src/pages/Upload/GenerateReport.tsx:301-324 | what is sent is that payload with the unit rules applied to its panels, and nothing else |
| ReportPayload.SentPanelNames | frontend/src/pages/Upload/GenerateReport.tsx:312-321 | each of the eight record panels is sent under the backend name the OCR reply uses for it |
| ReportPayload.PreparationIsStable | frontend/src/pages/Upload/GenerateReport.tsx:323-324 | converting the prepared payload once more changes nothing |
| UnitConversion.PlusConstant | frontend/src/pages/Upload/GenerateReport.tsx:215 | adding a constant gives a number exactly when the value is a number, and NaN otherwise |
| UnitConversion.Converted | frontend/src/pages/Upload/GenerateReport.tsx:78-131 | a firing rule leaves an object behind |
| UnitConversion.ApplyRule | frontend/src/pages/Upload/GenerateReport.tsx:78-131 | one rule keeps the panel names, leaves its own analyte as the rule's outcome, and changes no other analyte of any panel |
| UnitConversion.ApplyRuleKeepsWbcValue | frontend/src/pages/Upload/GenerateReport.tsx:78-81 | no rule changes the WBC value the differential divides by |
| UnitConversion.RulesActIndependently | frontend/src/pages/Upload/GenerateReport.tsx:72-296 | for a table without shared analytes, each rule's analyte ends as that rule's outcome on the original panels, and every analyte no rule names is untouched |
| UnitConversion.OutcomeSettles | frontend/src/pages/Upload/GenerateReport.tsx:78-131 | a rule that fired does not fire again on its own outcome |
| UnitConversion.SilentRulesChangeNothing | frontend/src/pages/Upload/GenerateReport.tsx:72-296 | rules that do not fire leave the panels as they are |
| UnitConversion.ApplyRulesIdempotent | frontend/src/pages/Upload/GenerateReport.tsx:72-296 | converting converted panels changes nothing |
| UnitConversion.BlockWellFormed | frontend/src/pages/Upload/GenerateReport.tsx:74-134 | rules of one panel with distinct analytes form a well-formed block |
| UnitConversion.AppendBlock | frontend/src/pages/Upload/GenerateReport.tsx:136-176 | adding a well-formed block on a new panel keeps the table well formed |
| UnitConversion.CbcRulesShape | frontend/src/pages/Upload/GenerateReport.tsx:74-134 | the CBC block names WBC, RBC, hemoglobin, hematocrit, MCHC, RDW, platelets and the five differentials, in source order |
| UnitConversion.CmpRulesShape | frontend/src/pages/Upload/GenerateReport.tsx:136-176 | the CMP block names glucose, calcium, the four electrolytes, BUN, creatinine and total bilirubin, in source order |
| UnitConversion.IronRulesShape | frontend/src/pages/Upload/GenerateReport.tsx:185-209 | the iron block names iron, TIBC, ferritin and transferrin saturation |
| UnitConversion.LipidRulesShape | frontend/src/pages/Upload/GenerateReport.tsx:221-238 | the lipid block names total cholesterol, HDL, LDL and triglycerides |
| UnitConversion.ThyroidRulesShape | frontend/src/pages/Upload/GenerateReport.tsx:240-283 | the thyroid block names its seven analytes, in source order |
| UnitConversion.SingleRulesWellFormed | frontend/src/pages/Upload/GenerateReport.tsx:178-219 | the magnesium, HbA1c and vitamin D blocks are well formed |
| UnitConversion.FlattenWellFormed | frontend/src/pages/Upload/GenerateReport.tsx:72-296 | blocks on distinct panels, each well formed, give a well-formed table |
| UnitConversion.EightBlocksWellFormed | frontend/src/pages/Upload/GenerateReport.tsx:72-296 | eight well-formed blocks on the screen's eight distinct panels, concatenated in the screen's order, form a well-formed table |
| UnitConversion.UnitRulesWellFormed | frontend/src/pages/Upload/GenerateReport.tsx:72-296 | the screen's table has no two rules on one analyte, no rule whose target is its source unit, and no change to WBC |
| LabUnits.LabPayload.constructor | frontend/src/pages/Upload/GenerateReport.tsx:72 | the object holds the payload |
| LabUnits.LabPayload.NormalizeLabUnits | frontend/src/pages/Upload/GenerateReport.tsx:72-296 | the in-place passes leave the payload with its panels converted by the table of rules in source order, and leave a payload without panels alone |
| LabUnits.ConvertUnitsIdempotent | frontend/src/pages/Upload/GenerateReport.tsx:72-296 | converting twice is converting once |
| UnitConversion.UnitRulesByBlock | frontend/src/pages/Upload/GenerateReport.tsx:72-296 | the table is the eight panel blocks in source order |
| LabUnits.CbcTargets | frontend/src/pages/Upload/GenerateReport.tsx:74-134 | every CBC rule names one of the CBC block's analytes |
| LabUnits.RuleOutcomeAt | frontend/src/pages/Upload/GenerateReport.tsx:72-296 | each rule's analyte ends as that rule's outcome on the panels as sent |
| LabUnits.UnnamedAnalyteUntouched | frontend/src/pages/Upload/GenerateReport.tsx:72-296 | an analyte no rule names is sent as it was |
| LabUnits.DisplayLabelledEntriesUntouched | frontend/src/pages/Upload/GenerateReport.tsx:90-99 | the CBC entries keyed "Hemoglobin (HGB)" and "Hematocrit (HCT)" are never converted, whatever their unit |
| LabUnits.DifferentialRuleIndex | frontend/src/pages/Upload/GenerateReport.tsx:119-133 | each differential marker has its own rule in the table |
| LabUnits.GreekMuDifferentialUntouched | frontend/src/pages/Upload/GenerateReport.tsx:128 | a differential whose unit is spelled with the Greek mu, as the CBC screens offer it, is never converted |
| LabUnits.GlucoseExample | frontend/src/pages/Upload/GenerateReport.tsx:140-143 | a glucose of 5.5 mmol/L is sent as 99 mg/dL |
| LabUnits.HbA1cExample | frontend/src/pages/Upload/GenerateReport.tsx:212-218 | an HbA1c of 50 mmol/mol (IFCC) is sent as 6.724 % (NGSP) |
| LabUnits.DifferentialExample | frontend/src/pages/Upload/GenerateReport.tsx:120-131 | 4.8 absolute neutrophils with a WBC of 8 are sent as 60 % |
| LabUnits.DifferentialNeedsWbc | frontend/src/pages/Upload/GenerateReport.tsx:128 | with no truthy WBC value the differential stays absolute |
| JsValues.Get | frontend/src/pages/Upload/CBC2.tsx:31 | optional property access gives undefined on a non-object or a missing key |
| JsValues.OrElse | frontend/src/pages/Upload/GenerateReport.tsx:27 | `??` replaces exactly null and undefined |
| JsValues.FromNumber | frontend/src/pages/Upload/GenerateReport.tsx:129 | a computed number is stored as a number, or NaN when there is none, and reads back as the same number |
| JsValues.ToText | frontend/src/pages/Upload/CBC2.tsx:31 | `String(x)` is a string, keeps a string as it is, and is empty only for the empty string |
| JsValues.NumeralRoundTrip | frontend/src/pages/Upload/CBC2.tsx:31 | `Number(String(n))` is `n` |
| JsValues.Times | frontend/src/pages/Upload/GenerateReport.tsx:141 | a product is a number exactly when the value reads as a number |
| JsValues.Divide | frontend/src/pages/Upload/GenerateReport.tsx:129 | a quotient is a number exactly when both operands read as numbers and the divisor is not zero |
| MarkerEvaluation.ByNameMembers | backend/app/services/report_service.py:244-247 | the exact-name bucket holds exactly the stored documents with a non-empty marker name equal to the name |
| MarkerEvaluation.ByKeyMembers | backend/app/services/report_service.py:244-249 | the normalised-name bucket holds exactly the stored documents with a non-empty name whose lower-cased alphanumerics equal the key |
| MarkerEvaluation.FiledByName | backend/app/services/report_service.py:245-247 | filing one more document under its name turns the buckets of the first i documents into those of the first i+1; a nameless document changes nothing |
| MarkerEvaluation.FiledByKey | backend/app/services/report_service.py:245-249 | the same step for the buckets keyed by the normalised name |
| MarkerEvaluation.IndexRanges | backend/app/services/report_service.py:240-249 | after the loading loop, every name bucket and every normalised-name bucket (empty when never filed) holds the matching documents in stored order |
| MarkerEvaluation.ScoreRanksCriteria | backend/app/services/report_service.py:275-287 | the score ranks criteria strictly: a gender match beats any combination of the others; with equal gender matches a menstruation match beats stated units; equal scores mean equal answers to all three criteria |
| MarkerEvaluation.FirstMax | backend/app/services/report_service.py:289 | Python's max with a key picks an index whose key is at least every other key, and no earlier element has that key |
| MarkerEvaluation.BestRangeDocChoice | backend/app/services/report_service.py:266-272 | no document exactly when neither the exact-name nor the normalised-name bucket has one; the chosen document is a stored document with a name; it carries the exact name whenever such a document exists, otherwise its normalised name matches |
| MarkerEvaluation.BestRangeDocScore | backend/app/services/report_service.py:274-290 | the chosen document is a candidate of highest score, and the first candidate with that score |
| MarkerEvaluation.Deviation | backend/app/services/report_service.py:311-324 | for a range with low <= high the deviation is non-negative and zero exactly when the value lies inside; an inverted range gives a negative deviation |
| MarkerEvaluation.DeviationDistance | backend/app/services/report_service.py:311-322 | for a proper range, the deviation times the width is the distance from the value to the bound it crosses |
| MarkerEvaluation.FetchSupplementsMembers | backend/app/services/report_service.py:292-309 | at most one supplement per id; every non-empty id found in the catalogue contributes its supplement; every listed supplement is the catalogue entry of a given id |
| MarkerEvaluation.Evaluate | backend/app/services/report_service.py:326-388 | the evaluation echoes the marker, the value and the unit it was asked about |
| MarkerEvaluation.EvaluateVerdict | backend/app/services/report_service.py:340-388 | the status is unknown with no document, then with stated units that differ once stripped and lower-cased, then with a missing bound, and unknown carries no bounds or supplements; otherwise it is low below the range, high above it and normal inside it, with the document's bounds and deviation; a low verdict takes the ifLow supplements and every other verdict the ifHigh ones |
| MarkerEvaluation.OutOfRangeIffDeviates | backend/app/services/report_service.py:367-374 | with a proper range, a marker is low or high exactly when its deviation is positive |
| ReportEngine.UserContext | backend/app/services/report_service.py:230-232 | the context keeps the stored documents and the catalogue; the gender is empty only when both the gender at birth and the gender are empty; the menstruation status is never empty, because it falls back to "None" |
| ReportEngine.AsFindings | backend/app/services/report_service.py:412-417 | each red-cell evaluation becomes, in order, one result of the section |
| ReportEngine.RbcOutMembers | backend/app/services/report_service.py:402-411 | every result of the red-cell scan is out of range and is one of the listed markers; every listed marker that the CBC panel holds and that has an out-of-range verdict is among them |
| ReportEngine.RbcMarkersOutOfRange | backend/app/services/report_service.py:402-411 | the red-cell loop collects the present red-cell markers with an out-of-range verdict, in list order |
| ReportEngine.BowelKinds | backend/app/services/report_service.py:395-399 | the bowel-support section appears exactly for the answers No, Sometimes, no and sometimes |
| ReportEngine.RbcKinds | backend/app/services/report_service.py:412-417 | the red-cell section appears exactly when some red-cell marker is out of range |
| ReportEngine.PlateletKinds | backend/app/services/report_service.py:420-429 | the platelet section appears exactly when the CBC panel holds Platelets with an out-of-range verdict |
| ReportEngine.CholesterolKinds | backend/app/services/report_service.py:432-459 | the cholesterol-pattern section appears exactly when the lipid panel holds total cholesterol, triglycerides and HDL and one of the two ratios falls outside 1.6 to 2.4 (a zero divisor passes) |
| ReportEngine.VitaminDKinds | backend/app/services/report_service.py:462-478 | with no Vitamin D level the "not provided" section appears; with a level, the Vitamin D section appears exactly when it is out of range |
| ReportEngine.AlwaysAddressWithSections | backend/app/services/report_service.py:394-478 | for any red-cell findings, each kind of always-address section appears exactly under its own condition, and the two Vitamin D sections exclude each other |
| ReportEngine.AlwaysAddressSections | backend/app/services/report_service.py:394-478 | on the service's red-cell scan: bowel support for the four answers, the red-cell section exactly when the scan finds something, "not provided" exactly without a level, and never both Vitamin D sections |
| ReportEngine.PlainNameHasOneSpelling | backend/app/services/report_service.py:540 | a marker without spaces or underscores has itself as its only spelling |
| ReportEngine.FirstPresent | backend/app/services/report_service.py:541-548 | the key found is a spelling of the marker that the panel holds; no key is found only when the panel holds no listed spelling |
| ReportEngine.PanelFindingsFlagged | backend/app/services/report_service.py:538-548 | every result collected from one panel is out of range and names a listed marker |
| ReportEngine.CollectOutOfRangeFlagged | backend/app/services/report_service.py:535-549 | every result collected over all panels is out of range and names a listed marker |
| ReportEngine.MarkerFindingOrderFree | backend/app/services/report_service.py:540-548 | the unspecified set order changes nothing for a marker whose spellings in the panel all carry the same reading |
| ReportEngine.PanelFindingsOrderFree | backend/app/services/report_service.py:538-548 | under that condition, one panel's findings are the same for any complete iteration order |
| ReportEngine.CollectOutOfRangeOrderFree | backend/app/services/report_service.py:535-549 | under that condition for every panel, the collected list is the same for any complete iteration order |
| ReportEngine.CollectOutOfRangeForList | backend/app/services/report_service.py:535-549 | the nested scanning loops return the collected list: panels in request order, then markers in list order |
| ReportEngine.ScanPanel | backend/app/services/report_service.py:538-548 | the inner loop over one panel returns the out-of-range evaluations of the listed markers found in it, in list order |
| ReportEngine.Differentials | backend/app/services/report_service.py:579 | the differential subset holds exactly the results whose marker is one of the five differentials |
| ReportEngine.WithMessages | backend/app/services/report_service.py:596-617 | every result of the group keeps its place and gets its marker's message; outside the top group, BUN and Creatinine get the message for their direction |
| ReportEngine.SelectPriorityFirstNonEmpty | backend/app/services/report_service.py:567-619 | the focus is taken from the first group whose scan finds something, every earlier group found nothing, and there is no focus exactly when every group found nothing |
| ReportEngine.SelectPriorityGroup | backend/app/services/report_service.py:567-619 | the priority loop stops at the first group with findings and returns that group's focus, or none |
| ReportEngine.TopPriorityKeepsOneDifferential | backend/app/services/report_service.py:577-591 | when differentials are out of range, the top focus is the one differential with the largest deviation, with that marker's message |
| ReportEngine.GroupMessagesDefined | backend/app/services/report_service.py:485-532 | every marker of every priority group has a message; BUN and Creatinine each have one message for low and one for high |
| ReportEngine.EvaluateAll | backend/app/services/report_service.py:628-633 | every analyte of every panel is evaluated under its own key, in scan order |
| ReportEngine.OtherListDistinct | backend/app/services/report_service.py:634-645 | the other list names no marker twice; every entry is out of range and is not already shown |
| ReportEngine.OtherListComplete | backend/app/services/report_service.py:628-645 | every out-of-range evaluation whose marker is not already shown is in the other list |
| ReportEngine.OtherListFirstOccurrence | backend/app/services/report_service.py:637-645 | each entry repeats the reading of the first qualifying evaluation of its marker |
| ReportEngine.OtherOutOfRange | backend/app/services/report_service.py:628-645 | the final scan over the panels builds the other list of all analyte evaluations |
| ReportEngine.OtherOutOfRangeProperties | backend/app/services/report_service.py:621-645 | the other list of a scan repeats no marker, skips every shown marker, and holds every other analyte with an out-of-range verdict |
| ReportEngine.ReportOtherList | backend/app/services/report_service.py:621-645 | the same three properties, for a report whose other list excludes its own sections and focus |
| ReportEngine.GenerateMedicalReport | backend/app/services/report_service.py:228-658 | the service's passes build the always-address sections, the priority focus and the other list, as the report function defines them |
| ReportEngine.MedicalReportOtherList | backend/app/services/report_service.py:621-652 | for any table of groups, the report's other list repeats no marker, leaves out everything shown in a section or the focus, and holds every other out-of-range analyte |
| ReportEngine.MedicalReportFocus | backend/app/services/report_service.py:567-652 | the report has no priority focus exactly when no group's scan finds anything |
| ReportText.Plain | backend/app/services/report_service.py:12-17 | the stand-in of a character is never one of the five typographic characters, and any other character is kept |
| ReportText.CleanText | backend/app/services/report_service.py:8-18 | a missing text gives the empty string; otherwise the text keeps its length and each character is replaced by its stand-in |
| ReportText.CleanTextIsPlain | backend/app/services/report_service.py:8-18 | no curly quote and no en dash is left in a cleaned text |
| ReportText.CleanTextKeepsPlainText | backend/app/services/report_service.py:8-18 | a text without those characters is printed as it is |
| ReportText.CleanTextIdempotent | backend/app/services/report_service.py:8-18 | cleaning a cleaned text changes nothing |
| ReportText.SectionSupplements | backend/app/services/report_service.py:98-101 | a section contributes, result by result, each evaluated marker's supplements; the cholesterol readings contribute none |
| ReportText.FocusSupplements | backend/app/services/report_service.py:136-138 | the focus contributes, result by result, each result's supplements |
| ReportText.RecommendedDistinct | backend/app/services/report_service.py:97-104 | no two printed supplements share a name, dosage and product link |
| ReportText.RecommendedCovers | backend/app/services/report_service.py:97-104 | the printed supplements have exactly the keys of the block's supplements |
| ReportText.RecommendedFirstOccurrence | backend/app/services/report_service.py:97-104 | each printed supplement is the first of the block with its key |
| ReportText.RecommendedFor | backend/app/services/report_service.py:134-148 | the writer's loop with its seen set prints the block's supplements without repeated keys, in order of first occurrence |
| LabConstants.AllMarkers | backend/app/utils/constants.py:46 | the set holds every marker of every panel, and only those |
| LabConstants.CanonicalPanelsTable | backend/app/utils/constants.py:29-44 | the table has the eight panels in order; the CBC lists 14 markers and the CMP 15, Total_Protein, Albumin and Globulin among them but not Direct_Bilirubin; the iron panel is Iron, TIBC, Ferritin |
| LabConstants.CanonicalPanelsWellFormed | backend/app/utils/constants.py:29-44 | no panel name repeats, and within each panel no marker repeats |
| Text.Lower | backend/app/services/ocr_service.py:23 | lower-casing keeps the length and lowers each character on its own |
| Text.LowerIdempotent | backend/app/services/ocr_service.py:23 | lower-casing twice is lower-casing once |
| Text.LowerAlnum | backend/app/services/report_service.py:251-254 | the normalised name is no longer than the name and holds only lower-case letters and digits |
| Text.LowerAlnumIdempotent | backend/app/services/report_service.py:251-254 | normalising a normalised name changes nothing |
| Text.StripLeft | backend/app/services/ocr_service.py:53 | stripping on the left removes exactly the leading white space |
| Text.StripRight | backend/app/services/ocr_service.py:53 | stripping on the right removes exactly the trailing white space |
| Text.FindFrom | backend/app/services/ocr_service.py:69-74 | the position found is the first at or after the start where the pattern occurs; none is found only when it does not occur there |
| Text.ReplaceChar | backend/app/services/report_service.py:540 | replacing a character keeps the length and changes exactly the positions holding it; the text is unchanged when the character is absent |
| Text.RemoveChar | backend/app/services/report_service.py:540 | removing a character leaves no occurrence of it and adds no other character; the text is unchanged when the character is absent |
| Dicts.Lookup | backend/app/auth/ocr_router.py:67 | nothing is found only when no pair has the key |
| Dicts.LookupFound | backend/app/auth/ocr_router.py:67 | a found value is paired with the key in the dictionary |
| Dicts.PutSpec | backend/app/services/ocr_service.py:48-50 | assignment gives the key the new value; a present key keeps its place, a new key goes last, and no other key changes |
| Dicts.PutKeepsUniqueKeys | backend/app/services/ocr_service.py:48-50 | assignment keeps a dictionary free of repeated keys |
| Dicts.FromPairs | backend/app/services/ocr_service.py:124 | a dictionary built from pairs has no repeated key |
| Dicts.FromPairsOfUniqueKeys | backend/app/services/ocr_service.py:124 | pairs with distinct keys give a dictionary of exactly those pairs, in order |
| Dicts.PutNewKey | backend/app/services/ocr_service.py:122-124 | assigning a new key appends its pair |
| Dicts.LookupAt | backend/app/auth/ocr_router.py:65-68 | in a dictionary, the key at a position looks up the value at that position |
| Dicts.PutAt | backend/app/auth/ocr_router.py:68 | assigning to a key that is present replaces its pair where it stands |
| OcrService.Normalize | backend/app/services/ocr_service.py:19-23 | a missing or empty name normalises to the empty string; every character of the result is a lower-case letter or a digit |
| OcrService.NormalizeIdempotent | backend/app/services/ocr_service.py:19-23 | normalising a normalised name changes nothing |
| OcrService.PutNamesLookup | backend/app/services/ocr_service.py:48-50 | after an entry's names are written, each of their normalised forms maps to the official name, and every other key keeps its value |
| OcrService.PutNamesKeepsUniqueKeys | backend/app/services/ocr_service.py:48-50 | writing an entry's names keeps the alias map free of repeated keys |
| OcrService.CleanUnitsSound | backend/app/services/ocr_service.py:53 | the cleaned unit list holds only non-empty stripped units, and every unit that is not blank once stripped |
| OcrService.AliasesAfterUniqueKeys | backend/app/services/ocr_service.py:41-53 | the alias map never holds a key twice |
| OcrService.AliasesAfterLookup | backend/app/services/ocr_service.py:41-53 | a key is in the alias map exactly when an entry with an official name writes it, and it maps to the official name of the last entry that does |
| OcrService.UnitsAfterLookup | backend/app/services/ocr_service.py:41-53 | an official name has a unit list exactly when an entry with that name exists, and the list is the cleaned units of the last such entry |
| OcrService.LoadAliasesMapAndUnits | backend/app/services/ocr_service.py:26-61 | for a readable file, the loader returns the alias map and unit lists of its entries; for a missing or unreadable file, both are empty |
| OcrService.WriteNames | backend/app/services/ocr_service.py:48-50 | the inner loop writes each of the entry's names, normalised, with the official name as value |
| OcrService.NormalizeUnit | backend/app/services/ocr_service.py:104-105 | a normalised unit holds only lower-case letters, digits, the percent sign, the micro sign and Greek mu |
| OcrService.FirstMatchingUnit | backend/app/services/ocr_service.py:109-111 | the index found is the first allowed unit with the given normalised form; none is found only when no allowed unit has it |
| OcrService.UnitVerdictCases | backend/app/services/ocr_service.py:93-118 | without allowed units the found unit passes unchanged; a found unit becomes the first allowed unit with its normalised form, or nothing; a missing unit is filled in only when exactly one unit is allowed |
| OcrService.ValidateOrFillUnit | backend/app/services/ocr_service.py:93-118 | the loop with its early returns gives the verdict that the unit function defines |
| OcrService.EmptyPanelShape | backend/app/services/ocr_service.py:124 | distinct markers give a panel of exactly those markers, in order, none with a reading |
| OcrService.EmptyLabReportsShape | backend/app/services/ocr_service.py:121-125 | distinct panel names give one blank panel per entry, in order |
| OcrService.SkeletonShape | backend/app/services/ocr_service.py:121-125 | a table of distinct panels with distinct markers gives its panels and markers in order, each without a value or a unit |
| OcrService.CanonicalSkeleton | backend/app/services/ocr_service.py:121-125 | the skeleton holds exactly the panels and markers of the canonical table, each without a reading |
| OcrService.BuildEmptyLabReports | backend/app/services/ocr_service.py:121-125 | the loop builds the skeleton of the canonical table |
| OcrService.NumberEndIsNumeral | backend/app/utils/constants.py:48 | a match that the numeric pattern finds at a position is non-empty and is a numeral |
| OcrService.NumberEndIsLongest | backend/app/utils/constants.py:48 | every numeral that starts at a position ends no later than the match found there, so the match succeeds and is the longest |
| OcrService.FirstNumber | backend/app/services/ocr_service.py:78 | the search finds the leftmost start where the numeric pattern matches, with the end of that match; nothing is found only when the pattern matches nowhere |
| OcrService.NumeralParses | backend/app/services/ocr_service.py:82-85 | every numeral converts to a number, so the ValueError branch is never taken |
| OcrService.UnitIn | backend/app/services/ocr_service.py:87-88 | a unit found is non-empty and made of unit characters; none is found only when the text has no unit character |
| OcrService.Window | backend/app/services/ocr_service.py:74-76 | the snippet after the keyword is at most 100 characters long |
| OcrService.NoMatchNoNumeral | backend/app/utils/constants.py:48 | where the numeric pattern fails, no numeral starts |
| OcrService.FirstNumberIsLeftmostLongest | backend/app/services/ocr_service.py:78 | the search result is the leftmost numeral of the snippet, taken as long as it goes |
| OcrService.ReadSnippetSpec | backend/app/services/ocr_service.py:78-90 | a snippet without a numeral gives neither value nor unit; otherwise the value of its leftmost, longest numeral and the first unit text after it; a unit never comes without a value |
| OcrService.FindValueUnitNearSpec | backend/app/services/ocr_service.py:67-90 | nothing is read when the keyword does not occur, ignoring case; otherwise the snippet is read that follows the first occurrence, up to 100 characters |
| OcrRouter.LastSegment | backend/app/auth/ocr_router.py:38 | the last segment is a suffix of the name with no point in it |
| OcrRouter.LastSegmentOfExtension | backend/app/auth/ocr_router.py:37-38 | a name ending in a point and an extension has that extension as its last segment |
| OcrRouter.MimeTypeCases | backend/app/auth/ocr_router.py:34-40 | a .pdf name gives application/pdf; a .png, .jpg, .jpeg or .webp name gives image/ and its extension; any other name is refused with a 400 |
| OcrRouter.PageText | backend/app/auth/ocr_router.py:50 | a truthy text field is the page's text; otherwise the markdown field is, and a missing markdown gives the empty string; a value that is not a string fails |
| OcrRouter.PagesTextJoined | backend/app/auth/ocr_router.py:48-51 | the pages give a text exactly when each of them does, and it is their texts in order, each after a line break |
| OcrRouter.FileResults | backend/app/auth/ocr_router.py:30-53 | each file, in order, gives its own text or status code |
| OcrRouter.CollectOk | backend/app/auth/ocr_router.py:30-53 | the files give a full text exactly when none fails |
| OcrRouter.CollectFirstError | backend/app/auth/ocr_router.py:30-53 | a failure is the status code of the first file that fails |
| OcrRouter.CollectPrefixError | backend/app/auth/ocr_router.py:30-53 | once a file fails, later files do not change the outcome |
| OcrRouter.FirstMatch | backend/app/auth/ocr_router.py:56-59 | the index found is the first alias of the test that occurs in the text; none is found only when no alias of it occurs |
| OcrRouter.FoundLookup | backend/app/auth/ocr_router.py:56-62 | a test has a reading exactly when one of its aliases occurs in the text, and the reading is taken at the first such alias |
| OcrRouter.FindReadings | backend/app/auth/ocr_router.py:56-62 | the alias loop, with its skip for tests already read, builds those readings |
| OcrRouter.FilledPanel | backend/app/auth/ocr_router.py:65-68 | a filled panel lists each marker in order with its reading, or a blank one |
| OcrRouter.FillEmptyPanel | backend/app/auth/ocr_router.py:66-68 | filling the blank panel of distinct markers gives each marker its reading, in order |
| OcrRouter.LayoutShape | backend/app/auth/ocr_router.py:64-68 | over the blank skeleton of a well-formed table, the lab reports hold exactly the table's panels and markers in order, each with its reading or a blank one |
| OcrRouter.ExtractSpec | backend/app/auth/ocr_router.py:20-78 | no file is a 400; otherwise the first file that fails decides the error code, and there is an error exactly when some file fails; a success lays out every canonical panel from the first matching aliases and counts the files, the aliases and the text's length |
| OcrRouter.ReadFiles | backend/app/auth/ocr_router.py:30-53 | the loop over the files and their pages returns the full text, or the code of the first failure |
| OcrRouter.ReadFile | backend/app/auth/ocr_router.py:31-51 | one file gives 400 for a name that is neither a PDF nor a PNG, JPG, JPEG or WEBP image, 502 when its OCR call fails, and otherwise its pages' text |
| OcrRouter.ReadPages | backend/app/auth/ocr_router.py:48-51 | the loop over one file's pages returns their joined text |
| OcrRouter.LayOut | backend/app/auth/ocr_router.py:64-68 | the layout loop assigns each marker of each canonical panel its reading inside its panel |
| OcrRouter.ExtractLabReport | backend/app/auth/ocr_router.py:20-78 | the endpoint returns what the extraction function defines |
| GoogleState.Value | backend/app/auth/google_routes.py:24-26 | a character of the URL-safe alphabet has a 6-bit value whose character it is |
| GoogleState.ValueOfChar | backend/app/auth/google_routes.py:21-26 | the value of the character for a 6-bit value is that value |
| GoogleState.EncodeData | backend/app/auth/google_routes.py:21-22 | the encoded characters all belong to the URL-safe alphabet |
| GoogleState.EncodeTriple | backend/app/auth/google_routes.py:21-22 | three bytes give four characters of the alphabet |
| GoogleState.StripPadding | backend/app/auth/google_routes.py:22 | stripping removes exactly the trailing "=" characters |
| GoogleState.StripPaddingAppended | backend/app/auth/google_routes.py:22 | stripping padding from a text that ends in no "=" gives that text back |
| GoogleState.B64uEncodeIsUnpadded | backend/app/auth/google_routes.py:21-22 | the encoded text holds alphabet characters and no "="; the standard encoding is that text plus two, one or no "=" as the length modulo 3 is 1, 2 or 0 |
| GoogleState.Padding | backend/app/auth/google_routes.py:25 | the padding is at most three "=" and brings the length to a multiple of four |
| GoogleState.DecodeEncodedQuad | backend/app/auth/google_routes.py:24-26 | the four 6-bit values of three bytes decode to those bytes |
| GoogleState.DecodeTriple | backend/app/auth/google_routes.py:24-26 | decoding four characters that encode three bytes gives those bytes, then decodes the rest |
| GoogleState.DecodeEncodeSingle | backend/app/auth/google_routes.py:24-26 | one encoded byte, two characters, decodes to that byte |
| GoogleState.DecodeEncodePair | backend/app/auth/google_routes.py:24-26 | two encoded bytes, three characters, decode to those bytes |
| GoogleState.DecodeEncodeData | backend/app/auth/google_routes.py:21-26 | decoding the encoded characters of any bytes gives those bytes |
| GoogleState.B64uRoundTrip | backend/app/auth/google_routes.py:21-26 | decoding with the padding put back undoes encoding with the padding stripped, for any bytes |
| GoogleState.MadeStateSplits | backend/app/auth/google_routes.py:28-36 | a state made here splits at its first point into the encoded payload and the encoded MAC of that payload |
| GoogleState.StateRoundTrip | backend/app/auth/google_routes.py:28-47 | a state made here passes the check, giving the parsed payload, exactly while it is at most the maximum age old; older states are refused |
| GoogleState.CallbackStateWindow | backend/app/auth/google_routes.py:38-46 | with the default maximum age that the callback uses (600 seconds), a state made here is accepted exactly while it is at most that old |
| GoogleState.VerifyStateSound | backend/app/auth/google_routes.py:38-49 | whatever passes has a point, a signature equal to the encoded MAC of the text before its first point, a body that decodes and parses to the result, and an issue time no more than the maximum age ago; a state without a point fails |
| GoogleState.SafeFrontendRedirectCases | backend/app/auth/google_routes.py:51-68 | the target is always the frontend's dashboard, a path joined to the frontend address, or an address with the frontend's scheme and host; a missing or empty next goes to the dashboard; a path and a same-origin address are always kept |
| SupplementsAdmin.TotalPages | frontend/src/pages/Admin/Suppliments.tsx:38 | the page count is the least number of five-item pages that hold every supplement; it is zero only for an empty list |
| SupplementsAdmin.SliceIndex | frontend/src/pages/Admin/Suppliments.tsx:39-42 | a slice bound lands within the list, and a non-negative bound is clamped to the length |
| SupplementsAdmin.PageItemsWindow | frontend/src/pages/Admin/Suppliments.tsx:39-42 | a page shows the supplements from (page-1)*5 up to page*5 or the end, at most five, and something exactly when the page is within the page count |
| SupplementsAdmin.AllPages | frontend/src/pages/Admin/Suppliments.tsx:38-42 | there is one page of shown items for each page of the count |
| SupplementsAdmin.PagesPrefix | frontend/src/pages/Admin/Suppliments.tsx:38-42 | the first k pages together show exactly the first 5k supplements, or all of them |
| SupplementsAdmin.PagesPartition | frontend/src/pages/Admin/Suppliments.tsx:38-42 | the pages together show every supplement once, in order |
| SupplementsAdmin.OrEmpty | frontend/src/pages/Admin/Suppliments.tsx:59-62 | a truthy field is kept, and any other becomes the empty string |
| SupplementsAdmin.FormOf | frontend/src/pages/Admin/Suppliments.tsx:58-63 | the edit form takes each of the four fields of the supplement, or the empty string |
| SupplementsAdmin.FormOfFallsBack | frontend/src/pages/Admin/Suppliments.tsx:58-63 | a missing or falsy name gives an empty name; a value that is not an object gives the empty form; no form field is ever undefined |
| SupplementsAdmin.WithField | frontend/src/pages/Admin/Suppliments.tsx:44-48 | typing into a field changes that field to the typed text and leaves the other three |
| SupplementsAdmin.SubmitRequest | frontend/src/pages/Admin/Suppliments.tsx:76-86 | the form is sent as an update of the edited id exactly when that id is truthy, and as an addition otherwise; the body is the form |
| SupplementsAdmin.TableBodyOf | frontend/src/pages/Admin/Suppliments.tsx:331-349 | the table shows the loading row while loading, the empty row when the page shows nothing, and otherwise the page's supplements |
| SupplementsAdmin.SupplementsPage.constructor | frontend/src/pages/Admin/Suppliments.tsx:9-19 | the page starts loading, with no supplements, the form hidden and empty, nothing being edited, on page 1 |
| SupplementsAdmin.SupplementsPage.ShownIsFull | frontend/src/pages/Admin/Suppliments.tsx:38-42 | under the page invariant, the current page shows at most five supplements, something exactly when there are supplements, and the window of the current page |
| SupplementsAdmin.SupplementsPage.Fetch | frontend/src/pages/Admin/Suppliments.tsx:25-35 | a reply replaces the supplements and returns to page 1; a failed fetch keeps both; loading ends either way, and the form is untouched |
| SupplementsAdmin.SupplementsPage.Change | frontend/src/pages/Admin/Suppliments.tsx:44-48 | typing changes only the named form field |
| SupplementsAdmin.SupplementsPage.AddClick | frontend/src/pages/Admin/Suppliments.tsx:50-54 | from the Add button, drawn only while the form is hidden, adding clears the edited id and the form and shows the form |
| SupplementsAdmin.SupplementsPage.EditClick | frontend/src/pages/Admin/Suppliments.tsx:56-65 | from a row of the table, drawn only while the form is hidden, editing records the supplement's id, fills the form from it and shows the form |
| SupplementsAdmin.SupplementsPage.Cancel | frontend/src/pages/Admin/Suppliments.tsx:67-71 | cancelling hides the form, clears the edited id and empties the form |
| SupplementsAdmin.SupplementsPage.Submit | frontend/src/pages/Admin/Suppliments.tsx:73-92 | submitting sends an update or an addition of the form; on success the form is cancelled, on failure the page is unchanged |
| SupplementsAdmin.SupplementsPage.Delete | frontend/src/pages/Admin/Suppliments.tsx:94-96 | from a row of the table, deleting sends the removal of the given id and changes nothing on the page |
| SupplementsAdmin.SupplementsPage.PreviousClick | frontend/src/pages/Admin/Suppliments.tsx:432-438 | Previous moves back one page when the controls are shown (form hidden, more than one page) and the page is not the first; otherwise nothing changes |
| SupplementsAdmin.SupplementsPage.NextClick | frontend/src/pages/Admin/Suppliments.tsx:442-448 | Next moves on one page when the controls are shown (form hidden, more than one page) and the page is not the last; otherwise nothing changes |
| SupplementsAdmin.NavigationGuards | frontend/src/pages/Admin/Suppliments.tsx:135-448 | with the page invariant, Next is live exactly when the form is hidden and a later page exists, and Previous exactly when the form is hidden, there are several pages and the page is at least 2 |
| PanelScreens.Cbc1Labels | frontend/src/pages/Upload/CBC1.tsx:14-23 | CBC1's rows are labelled WBC, Hemoglobin (HGB), Hematocrit (HCT), MCV, MCH, MCHC, RDW, Platelets, Neutrophils and Lymphocytes |
| PanelScreens.Cbc2Keys | frontend/src/pages/Upload/CBC2.tsx:12-16 | CBC2 writes the keys MCHC, RDW, Platelets, Neutrophils and Lymphocytes |
| PanelScreens.Cbc3Keys | frontend/src/pages/Upload/CBC3.tsx:11-13 | CBC3 writes the keys Monocytes, Eosinophils and Basophils |
| PanelScreens.CbcRowKeys | frontend/src/pages/Upload/CBC1.tsx:14-23 | together the three CBC screens write the thirteen keys of the CBC screens |
| PanelScreens.ThyroidFirstKeys | frontend/src/pages/Upload/Thyroid1.tsx:7-11 | the first thyroid screen writes TSH, Free_T3, Free_T4, Reverse_T3 and T3 |
| PanelScreens.ThyroidSecondKeys | frontend/src/pages/Upload/Thyroid2.tsx:7-8 | the second thyroid screen writes T4 and Anti_TPO |
| UnitConversion.BlockPanelsDistinct | frontend/src/pages/Upload/GenerateReport.tsx:72-296 | the conversion touches eight panels, each in one block: CBC, CMP, Magnesium, Iron, HbA1c, Lipid, Thyroid and Vitamin D |

## Behaviour worth knowing

- A conversion rule fires only when the analyte's unit equals the rule's source unit exactly (`frontend/src/pages/Upload/GenerateReport.tsx:78-296`). Any other unit passes through unchanged, so the sent payload can still hold units other than the conventional ones.
- CBC1, Lipid, Iron, Hemoglobin, Thyroid1, VitaminD and Magnesium write a fresh object for their panel, which replaces what was stored (for example `frontend/src/pages/Upload/Lipid.tsx:74-80`). CBC2, CBC3, the CMP screens and Thyroid2 spread the stored panel first and so merge into it (`frontend/src/pages/Upload/CBC2.tsx:64-72`).
- Report generation counts any HTTP reply as success (`frontend/src/pages/Upload/GenerateReport.tsx:325-341`). `fetchBlob` returns the response without checking `response.ok` (`frontend/src/api/HttpService.ts:122-134`), unlike `request` and `postFormData`. So a 401 or 500 reply's body is saved as `Lab_Report.pdf` and the success toast is shown.
- When the alias loader's `try` fails, it returns the two maps as they stand, filled with whatever was stored before the failure (`backend/app/services/ocr_service.py:59-61`).

## Left out

- CMB142.tsx is not part of this model. Its submit is a merge into the CMP panel that the model does not constrain. The CMP part-1 screen only routes to it.
- Network and storage are not modelled: the HTTP services, the Mongo collections, the OCR HTTP calls, `google_login` and `google_callback`, the report-download blob, toasts and logging. The range documents, the supplement catalogue and the OCR replies are parameters instead. A failed call is an `Option` or `Result`.
- PDF layout is not modelled. Only `clean_text` and the supplement de-duplication of the writer are kept.
- Message texts are identified by their keys or section kinds, not their wording. The report's fixed notes are omitted.
- Numbers are reals. IEEE-754 rounding, Infinity and signed zero are not modelled, and NaN is a single value. A division by zero gives that NaN value.
- `Number()`, `parseFloat()` and Python `float()` all follow one decimal grammar: optional sign, digits, optional fraction. Whitespace, exponents, hex and the words inf and nan are not handled.
- Lower-casing, `re.IGNORECASE` and `\d` cover ASCII only.
- The "bad_values" branch of `evaluate_marker` cannot arise. The request's values are typed floats and the range bounds are typed reals in the model, so a bound that `float()` refuses is not represented.
- `fetch_supplements` is a lookup in a catalogue map. Each `find_one` is one lookup there.
- The iteration order of the `possible_keys` set is a parameter (`KeyOrder`). Lemmas show it matters only when a panel holds two spellings of one marker with different readings.
- `load_aliases_map_and_units` models the file as missing, unreadable or parsed. An exception in the middle of the loop, which returns the maps filled so far, is not represented, because the entries are typed.
- `ALIASES_MAP` and `CANONICAL_UNITS` are parameters of the router and the unit check. They are not recomputed at import time.
- The OCR reply's `pages` is a list of page objects. A reply whose `pages` is not a list, and an exception inside the page loop, both count as a failed call (502). An upload without a file name is not modelled; in the code it raises outside the `try`.
- GoogleState.B64uDecode: characters outside the URL-safe alphabet are rejected. Python's decoder skips them, and also accepts `+` and `/`. An `=` inside the text ends Python's decoding early, after the group it completes; the model rejects such text. The round trip is unaffected because encoding emits only alphabet characters.
- `json.dumps`/`json.loads`, HMAC-SHA256, the clock, `secrets.token_urlsafe`, `urlparse` and `urljoin` are function parameters. The constant-time property of `compare_digest` is not modelled.
- SupplementsAdmin.SupplementsPage.Submit and SupplementsAdmin.SupplementsPage.Delete return the request they send. The refetch that follows a successful request is a separate `Fetch` call, and the ordering of the async calls is not modelled.
- The supplement `id` is a JSON value. The request paths built from it are not modelled.
- The payload's JSON arrays are not modelled, because no array occurs in a lab panel.
- JsValues.Json: a string that spells a number has two representations, `Numeral(n)` and `Str(...)` with the same characters. Dafny's `==` tells them apart where JavaScript's `===` would not. The model does not capture strict equality between the two.
- LabLeaves.NormalizeLabReport: a truthy panel that is not an object becomes `{}`. In JavaScript, `Object.entries` of a non-empty string yields one entry per character index. Stored panels are always objects or absent, so this case is not represented.
- ReportEngine.Panel, ReportEngine.LabReports: these association lists may hold a key twice, which a Python dict cannot. The lemmas about them do not assume `Dicts.UniqueKeys`, and nothing models a request carrying duplicate keys. The same holds for the alias list that `OcrRouter.Extract` reads in place of `ALIASES_MAP`.
- React state batching and effect ordering are not modelled. Each handler is one atomic update of its screen's state.
