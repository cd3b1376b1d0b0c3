/**
 * The five single-choice screens of the upload wizard: gender, gender at
 * birth, pregnancy status, menstruation status and bowel movements. Each
 * submit writes at most one record field and navigates.
 */
module DemographicScreens {
  import opened Wrappers
  import opened Intake
  import opened Navigation

  datatype Screen = GenderScreen | GenderAtBirthScreen | PregnancyStatusScreen
                  | MenstruationStatusScreen | BowelMovementsScreen | ReportsToAnalyzeScreen

  function RouteOf(s: Screen): string
  {
    match s
    case GenderScreen => "/upload/gender"
    case GenderAtBirthScreen => "/upload/gender-at-birth"
    case PregnancyStatusScreen => "/upload/pregnancy-status"
    case MenstruationStatusScreen => "/upload/menstruation-status"
    case BowelMovementsScreen => "/upload/bowel-movements"
    case ReportsToAnalyzeScreen => "/upload/reports-to-analyze"
  }

  /**
   * The option values each screen's select offers. The empty "Select"
   * placeholder is not among them: Next stays disabled until one is chosen.
   */
  function Options(s: Screen): set<string>
  {
    match s
    case GenderScreen => {"female", "male", "transgender", "preferNotToSay"}
    case GenderAtBirthScreen => {"female", "male"}
    case PregnancyStatusScreen => {"yes", "no"}
    case MenstruationStatusScreen => {"yes", "no"}
    case BowelMovementsScreen => {"yes", "no", "sometimes"}
    case ReportsToAnalyzeScreen => {}
  }

  /** The screen a submit with `value` navigates to. */
  function NextScreen(s: Screen, value: string): Screen
  {
    match s
    case GenderScreen =>
      if value == "transgender" || value == "preferNotToSay" then GenderAtBirthScreen
      else if value == "female" then PregnancyStatusScreen
      else BowelMovementsScreen
    case GenderAtBirthScreen => BowelMovementsScreen
    case PregnancyStatusScreen =>
      if value == "yes" then BowelMovementsScreen else MenstruationStatusScreen
    case MenstruationStatusScreen => BowelMovementsScreen
    case BowelMovementsScreen => ReportsToAnalyzeScreen
    case ReportsToAnalyzeScreen => ReportsToAnalyzeScreen
  }

  /** The screen reached by submitting `choices` one after another, starting at `s`. */
  function Walk(s: Screen, choices: seq<string>): Screen
    decreases |choices|
  {
    if choices == [] then s else Walk(NextScreen(s, choices[0]), choices[1..])
  }

  /** Each choice in `choices` is offered by the screen it is made on. */
  predicate Offered(s: Screen, choices: seq<string>)
    decreases |choices|
  {
    choices == [] || (choices[0] in Options(s) && Offered(NextScreen(s, choices[0]), choices[1..]))
  }

  /** How many submits separate `s` from report selection on the longest path. */
  function StepsLeft(s: Screen): nat
  {
    match s
    case GenderScreen => 4
    case PregnancyStatusScreen => 3
    case GenderAtBirthScreen => 2
    case MenstruationStatusScreen => 2
    case BowelMovementsScreen => 1
    case ReportsToAnalyzeScreen => 0
  }

  /** Every offered choice moves the wizard strictly closer to report selection. */
  lemma OfferedChoiceAdvances(s: Screen, value: string)
    requires value in Options(s)
    ensures StepsLeft(NextScreen(s, value)) < StepsLeft(s)
  {
  }

  /** Report selection is the only screen that offers no answer. */
  lemma OnlyReportsOffersNothing(s: Screen)
    ensures Options(s) == {} <==> s == ReportsToAnalyzeScreen
  {
  }

  /**
   * Whatever the user picks, the demographic screens take at most four
   * submits, and each answer uses up at least one of them. With
   * OnlyReportsOffersNothing, every sequence of offered answers can be
   * continued until the wizard arrives at report selection.
   */
  lemma {:induction false} WizardReachesReports(s: Screen, choices: seq<string>)
    requires Offered(s, choices)
    ensures |choices| + StepsLeft(Walk(s, choices)) <= StepsLeft(s)
    decreases |choices|
  {
    if choices != [] {
      OfferedChoiceAdvances(s, choices[0]);
      WizardReachesReports(NextScreen(s, choices[0]), choices[1..]);
    }
  }

  /** Only "female" leads to the pregnancy question, and only a non-pregnant answer to menstruation. */
  lemma PregnancyPathOnlyForFemale(value: string, answer: string)
    ensures NextScreen(GenderScreen, value) == PregnancyStatusScreen <==> value == "female"
    ensures NextScreen(PregnancyStatusScreen, answer) == MenstruationStatusScreen <==> answer != "yes"
  {
  }

  // Each screen's submit button stays disabled until an answer is chosen, so no handler sees "".

  /** Gender.tsx: a self-description asks for gender at birth and writes nothing yet. */
  method SubmitGender(store: IntakeStore, value: string) returns (nav: Nav)
    requires value != ""
    modifies store
    ensures store.intake == if value == "transgender" || value == "preferNotToSay" then old(store.intake)
                            else old(store.intake).(gender := Some(value))
    ensures nav == Nav(RouteOf(NextScreen(GenderScreen, value)), NoToast)
  {
    if value == "transgender" || value == "preferNotToSay" {
      nav := Nav("/upload/gender-at-birth", NoToast);
    } else if value == "female" {
      store.SetGender(value);
      nav := Nav("/upload/pregnancy-status", NoToast);
    } else {
      store.SetGender(value);
      nav := Nav("/upload/bowel-movements", NoToast);
    }
  }

  /** GenderAtBirth.tsx: the answer is written to `gender`; `genderAtBirth` stays as it was. */
  method SubmitGenderAtBirth(store: IntakeStore, value: string) returns (nav: Nav)
    requires value != ""
    modifies store
    ensures store.intake == old(store.intake).(gender := Some(value))
    ensures store.intake.genderAtBirth == old(store.intake.genderAtBirth)
    ensures nav == Nav(RouteOf(NextScreen(GenderAtBirthScreen, value)), NoToast)
  {
    store.SetGender(value);
    nav := Nav("/upload/bowel-movements", NoToast);
  }

  /** PregnancyStatus.tsx: records whether the answer is "yes"; a "yes" skips menstruation with a warning. */
  method SubmitPregnancyStatus(store: IntakeStore, value: string) returns (nav: Nav)
    requires value != ""
    modifies store
    ensures store.intake == old(store.intake).(pregnantOrNursing := Some(value == "yes"))
    ensures nav == Nav(RouteOf(NextScreen(PregnancyStatusScreen, value)),
                       if value == "yes" then WarningToast else NoToast)
  {
    store.SetPregnantOrNursing(value == "yes");
    if value == "yes" {
      nav := Nav("/upload/bowel-movements", WarningToast);
    } else {
      nav := Nav("/upload/menstruation-status", NoToast);
    }
  }

  /** MenstruationStatus.tsx. */
  method SubmitMenstruationStatus(store: IntakeStore, value: string) returns (nav: Nav)
    requires value != ""
    modifies store
    ensures store.intake == old(store.intake).(menstruationStatus := Some(value))
    ensures nav == Nav(RouteOf(NextScreen(MenstruationStatusScreen, value)), NoToast)
  {
    store.SetMenstruationStatus(value);
    nav := Nav("/upload/bowel-movements", NoToast);
  }

  /** BowelMovements.tsx. */
  method SubmitBowelMovements(store: IntakeStore, value: string) returns (nav: Nav)
    requires value != ""
    modifies store
    ensures store.intake == old(store.intake).(bowelMovement := Some(value))
    ensures nav == Nav(RouteOf(NextScreen(BowelMovementsScreen, value)), NoToast)
  {
    store.SetBowelMovement(value);
    nav := Nav("/upload/reports-to-analyze", NoToast);
  }
}
