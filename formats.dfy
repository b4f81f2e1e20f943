/**
 * The catalog of session-note formats: ten formats, each with an id, a
 * display name, a description and its ordered section headings.
 */
module Formats {
  import opened JsString

  /** One entry of the catalog; `name` is the display label. */
  datatype NoteFormat = NoteFormat(id: string, name: string, description: string, sections: seq<string>)

  // ---------------------------------------------------------------------
  // Headings share a plain alphabet: capital letters, `/`, `&` and single
  // spaces between words. The parsers rely on this shape.
  // ---------------------------------------------------------------------

  predicate PlainChar(c: char) {
    ('A' <= c <= 'Z') || c == '/' || c == '&' || c == ' '
  }

  /** Non-empty, plain characters only, no space at either end and no two spaces in a row. */
  predicate Plain(h: string) {
    |h| > 0 && h[0] != ' ' && h[|h| - 1] != ' '
    && (forall i | 0 <= i < |h| :: PlainChar(h[i]))
    && (forall i | 0 <= i < |h| - 1 :: !(h[i] == ' ' && h[i + 1] == ' '))
  }

  predicate Distinct(hs: seq<string>) {
    forall i, j | 0 <= i < j < |hs| :: hs[i] != hs[j]
  }

  /** A heading list the parsers can work with: non-empty, plain, pairwise distinct. */
  predicate WellFormed(hs: seq<string>) {
    |hs| > 0 && Distinct(hs) && forall i | 0 <= i < |hs| :: Plain(hs[i])
  }

  lemma WellFormedNonEmpty(hs: seq<string>)
    requires WellFormed(hs)
    ensures forall k | 0 <= k < |hs| :: |hs[k]| > 0
  {
    forall k | 0 <= k < |hs| ensures |hs[k]| > 0 {
      assert Plain(hs[k]);
    }
  }

  /** A plain heading has neither a colon nor any whitespace other than the single spaces between words. */
  lemma PlainHasNoColonOrBreak(h: string)
    requires Plain(h)
    ensures ':' !in h
    ensures forall i | 0 <= i < |h| :: IsSpace(h[i]) ==> h[i] == ' '
    ensures !IsSpace(h[0]) && !IsSpace(h[|h| - 1])
  {
  }

  // ---------------------------------------------------------------------
  // Headings
  // ---------------------------------------------------------------------
  const GOALS_FOCUS_OF_SESSION := "GOALS/FOCUS OF SESSION"
  const INTERVENTIONS_AND_STRUCTURED_ACTIVITIES := "INTERVENTIONS AND STRUCTURED ACTIVITIES"
  const RESPONSE_TO_INTERVENTIONS := "RESPONSE TO INTERVENTIONS"
  const PLAN_AND_NEXT_STEPS := "PLAN AND NEXT STEPS"
  const DESCRIPTION_OF_SESSION := "DESCRIPTION OF SESSION"
  const ASSESSMENT_OF_PROGRESS := "ASSESSMENT OF PROGRESS"
  const PLAN_FOR_TREATMENT := "PLAN FOR TREATMENT"
  const BEHAVIOR_OBSERVED := "BEHAVIOR OBSERVED"
  const INTERVENTIONS_USED := "INTERVENTIONS USED"
  const PLAN_FOR_NEXT_SESSION := "PLAN FOR NEXT SESSION"
  const SUBJECTIVE_INFORMATION := "SUBJECTIVE INFORMATION"
  const OBJECTIVE_OBSERVATIONS := "OBJECTIVE OBSERVATIONS"
  const PLAN_AND_RECOMMENDATIONS := "PLAN AND RECOMMENDATIONS"
  const PROBLEM_ADDRESSED := "PROBLEM ADDRESSED"
  const RESPONSE_TO_TREATMENT := "RESPONSE TO TREATMENT"
  const PLAN_FOR_CONTINUATION := "PLAN FOR CONTINUATION"
  const REASON_FOR_SESSION := "REASON FOR SESSION"
  const INTERVENTIONS_APPLIED := "INTERVENTIONS APPLIED"
  const FEEDBACK_AND_RESPONSE := "FEEDBACK AND RESPONSE"
  const THERAPY_GOALS_PROGRESS := "THERAPY GOALS PROGRESS"
  const CLIENT_PRESENTATION := "CLIENT PRESENTATION"
  const ASSESSMENT_OF_NEEDS := "ASSESSMENT OF NEEDS"
  const RESPONSE_TO_SESSION := "RESPONSE TO SESSION"
  const EVALUATION_OF_PROGRESS := "EVALUATION OF PROGRESS"
  const SUMMARY_OF_SESSION := "SUMMARY OF SESSION"
  const TREATMENT_PROVIDED := "TREATMENT PROVIDED"
  const OBSERVATIONS_MADE := "OBSERVATIONS MADE"
  const PLAN_MOVING_FORWARD := "PLAN MOVING FORWARD"
  const MOTIVATION_AND_ENGAGEMENT := "MOTIVATION AND ENGAGEMENT"
  const ISSUES_ADDRESSED := "ISSUES ADDRESSED"
  const NEXT_STEPS_IDENTIFIED := "NEXT STEPS IDENTIFIED"
  const THERAPEUTIC_TOOLS_USED := "THERAPEUTIC TOOLS USED"
  const FOCUS_OF_SESSION := "FOCUS OF SESSION"
  const OUTCOME_DESIRED := "OUTCOME DESIRED"
  const RESPONSE_OBSERVED := "RESPONSE OBSERVED"
  const TACTICS_FOR_PROGRESS := "TACTICS FOR PROGRESS"

  lemma PlainGoalsFocusOfSession() ensures Plain(GOALS_FOCUS_OF_SESSION) {}
  lemma PlainInterventionsAndStructuredActivities() ensures Plain(INTERVENTIONS_AND_STRUCTURED_ACTIVITIES) {}
  lemma PlainResponseToInterventions() ensures Plain(RESPONSE_TO_INTERVENTIONS) {}
  lemma PlainPlanAndNextSteps() ensures Plain(PLAN_AND_NEXT_STEPS) {}
  lemma PlainDescriptionOfSession() ensures Plain(DESCRIPTION_OF_SESSION) {}
  lemma PlainAssessmentOfProgress() ensures Plain(ASSESSMENT_OF_PROGRESS) {}
  lemma PlainPlanForTreatment() ensures Plain(PLAN_FOR_TREATMENT) {}
  lemma PlainBehaviorObserved() ensures Plain(BEHAVIOR_OBSERVED) {}
  lemma PlainInterventionsUsed() ensures Plain(INTERVENTIONS_USED) {}
  lemma PlainPlanForNextSession() ensures Plain(PLAN_FOR_NEXT_SESSION) {}
  lemma PlainSubjectiveInformation() ensures Plain(SUBJECTIVE_INFORMATION) {}
  lemma PlainObjectiveObservations() ensures Plain(OBJECTIVE_OBSERVATIONS) {}
  lemma PlainPlanAndRecommendations() ensures Plain(PLAN_AND_RECOMMENDATIONS) {}
  lemma PlainProblemAddressed() ensures Plain(PROBLEM_ADDRESSED) {}
  lemma PlainResponseToTreatment() ensures Plain(RESPONSE_TO_TREATMENT) {}
  lemma PlainPlanForContinuation() ensures Plain(PLAN_FOR_CONTINUATION) {}
  lemma PlainReasonForSession() ensures Plain(REASON_FOR_SESSION) {}
  lemma PlainInterventionsApplied() ensures Plain(INTERVENTIONS_APPLIED) {}
  lemma PlainFeedbackAndResponse() ensures Plain(FEEDBACK_AND_RESPONSE) {}
  lemma PlainTherapyGoalsProgress() ensures Plain(THERAPY_GOALS_PROGRESS) {}
  lemma PlainClientPresentation() ensures Plain(CLIENT_PRESENTATION) {}
  lemma PlainAssessmentOfNeeds() ensures Plain(ASSESSMENT_OF_NEEDS) {}
  lemma PlainResponseToSession() ensures Plain(RESPONSE_TO_SESSION) {}
  lemma PlainEvaluationOfProgress() ensures Plain(EVALUATION_OF_PROGRESS) {}
  lemma PlainSummaryOfSession() ensures Plain(SUMMARY_OF_SESSION) {}
  lemma PlainTreatmentProvided() ensures Plain(TREATMENT_PROVIDED) {}
  lemma PlainObservationsMade() ensures Plain(OBSERVATIONS_MADE) {}
  lemma PlainPlanMovingForward() ensures Plain(PLAN_MOVING_FORWARD) {}
  lemma PlainMotivationAndEngagement() ensures Plain(MOTIVATION_AND_ENGAGEMENT) {}
  lemma PlainIssuesAddressed() ensures Plain(ISSUES_ADDRESSED) {}
  lemma PlainNextStepsIdentified() ensures Plain(NEXT_STEPS_IDENTIFIED) {}
  lemma PlainTherapeuticToolsUsed() ensures Plain(THERAPEUTIC_TOOLS_USED) {}
  lemma PlainFocusOfSession() ensures Plain(FOCUS_OF_SESSION) {}
  lemma PlainOutcomeDesired() ensures Plain(OUTCOME_DESIRED) {}
  lemma PlainResponseObserved() ensures Plain(RESPONSE_OBSERVED) {}
  lemma PlainTacticsForProgress() ensures Plain(TACTICS_FOR_PROGRESS) {}

  // ---------------------------------------------------------------------
  // The catalog
  // ---------------------------------------------------------------------

  const GIRP := NoteFormat("girp", "GIRP",
    "Goals, Intervention, Response, Plan - Standard format focusing on session goals and outcomes",
    [GOALS_FOCUS_OF_SESSION, INTERVENTIONS_AND_STRUCTURED_ACTIVITIES, RESPONSE_TO_INTERVENTIONS, PLAN_AND_NEXT_STEPS])

  const DAP := NoteFormat("dap", "DAP",
    "Description, Assessment, Plan - Concise format for describing session content and outcomes",
    [DESCRIPTION_OF_SESSION, ASSESSMENT_OF_PROGRESS, PLAN_FOR_TREATMENT])

  const BIRP := NoteFormat("birp", "BIRP",
    "Behavior, Intervention, Response, Plan - Focuses on observed behaviors and interventions",
    [BEHAVIOR_OBSERVED, INTERVENTIONS_USED, RESPONSE_TO_INTERVENTIONS, PLAN_FOR_NEXT_SESSION])

  const SOAP := NoteFormat("soap", "SOAP",
    "Subjective, Objective, Assessment, Plan - Medical-style format for comprehensive documentation",
    [SUBJECTIVE_INFORMATION, OBJECTIVE_OBSERVATIONS, ASSESSMENT_OF_PROGRESS, PLAN_AND_RECOMMENDATIONS])

  const PIRP := NoteFormat("pirp", "PIRP",
    "Problem, Intervention, Response, Plan - Problem-focused approach to session documentation",
    [PROBLEM_ADDRESSED, INTERVENTIONS_USED, RESPONSE_TO_TREATMENT, PLAN_FOR_CONTINUATION])

  const RIFT := NoteFormat("rift", "RIFT",
    "Reason, Intervention, Feedback, Therapy goals - Goal-oriented session documentation",
    [REASON_FOR_SESSION, INTERVENTIONS_APPLIED, FEEDBACK_AND_RESPONSE, THERAPY_GOALS_PROGRESS])

  const CARE := NoteFormat("care", "CARE",
    "Client, Assessment, Response, Evaluation - Client-centered progress documentation",
    [CLIENT_PRESENTATION, ASSESSMENT_OF_NEEDS, RESPONSE_TO_SESSION, EVALUATION_OF_PROGRESS])

  const STOP := NoteFormat("stop", "STOP",
    "Summary, Treatment, Observation, Plan - Structured approach to session documentation",
    [SUMMARY_OF_SESSION, TREATMENT_PROVIDED, OBSERVATIONS_MADE, PLAN_MOVING_FORWARD])

  const MINT := NoteFormat("mint", "MINT",
    "Motivation, Issues, Next steps, Therapeutic tools - Focus on motivation and tools",
    [MOTIVATION_AND_ENGAGEMENT, ISSUES_ADDRESSED, NEXT_STEPS_IDENTIFIED, THERAPEUTIC_TOOLS_USED])

  const FORT := NoteFormat("fort", "FORT",
    "Focus, Outcome, Response, Tactics - Outcome-focused session documentation",
    [FOCUS_OF_SESSION, OUTCOME_DESIRED, RESPONSE_OBSERVED, TACTICS_FOR_PROGRESS])

  /** `NOTE_FORMATS`, keyed by format id. */
  const NOTE_FORMATS: map<string, NoteFormat> := map[
    "girp" := GIRP,
    "dap" := DAP,
    "birp" := BIRP,
    "soap" := SOAP,
    "pirp" := PIRP,
    "rift" := RIFT,
    "care" := CARE,
    "stop" := STOP,
    "mint" := MINT,
    "fort" := FORT
  ]

  const FORMAT_IDS: seq<string> := ["girp", "dap", "birp", "soap", "pirp", "rift", "care", "stop", "mint", "fort"]

  /** A format id the catalog knows. */
  predicate Known(fmt: string) {
    fmt in NOTE_FORMATS
  }

  /** The headings of a known format. */
  function SectionsOf(fmt: string): (hs: seq<string>)
    requires Known(fmt)
    ensures WellFormed(hs)
  {
    CatalogWellFormed();
    NOTE_FORMATS[fmt].sections
  }

  /** Exactly the ten ids. */
  lemma CatalogKeys()
    ensures NOTE_FORMATS.Keys == set k | k in FORMAT_IDS
  {
  }

  /** Every entry carries its own key as id. */
  lemma CatalogIds()
    ensures forall k | k in NOTE_FORMATS :: NOTE_FORMATS[k].id == k
  {
  }

  /** DAP has three headings, every other format four. */
  lemma CatalogSizes()
    ensures forall k | k in NOTE_FORMATS :: |NOTE_FORMATS[k].sections| == if k == "dap" then 3 else 4
  {
  }

  lemma GirpWellFormed() ensures WellFormed(GIRP.sections) {
    PlainGoalsFocusOfSession(); PlainInterventionsAndStructuredActivities(); PlainResponseToInterventions(); PlainPlanAndNextSteps();
  }

  lemma DapWellFormed() ensures WellFormed(DAP.sections) {
    PlainDescriptionOfSession(); PlainAssessmentOfProgress(); PlainPlanForTreatment();
  }

  lemma BirpWellFormed() ensures WellFormed(BIRP.sections) {
    PlainBehaviorObserved(); PlainInterventionsUsed(); PlainResponseToInterventions(); PlainPlanForNextSession();
  }

  lemma SoapWellFormed() ensures WellFormed(SOAP.sections) {
    PlainSubjectiveInformation(); PlainObjectiveObservations(); PlainAssessmentOfProgress(); PlainPlanAndRecommendations();
  }

  lemma PirpWellFormed() ensures WellFormed(PIRP.sections) {
    PlainProblemAddressed(); PlainInterventionsUsed(); PlainResponseToTreatment(); PlainPlanForContinuation();
  }

  lemma RiftWellFormed() ensures WellFormed(RIFT.sections) {
    PlainReasonForSession(); PlainInterventionsApplied(); PlainFeedbackAndResponse(); PlainTherapyGoalsProgress();
  }

  lemma CareWellFormed() ensures WellFormed(CARE.sections) {
    PlainClientPresentation(); PlainAssessmentOfNeeds(); PlainResponseToSession(); PlainEvaluationOfProgress();
  }

  lemma StopWellFormed() ensures WellFormed(STOP.sections) {
    PlainSummaryOfSession(); PlainTreatmentProvided(); PlainObservationsMade(); PlainPlanMovingForward();
  }

  lemma MintWellFormed() ensures WellFormed(MINT.sections) {
    PlainMotivationAndEngagement(); PlainIssuesAddressed(); PlainNextStepsIdentified(); PlainTherapeuticToolsUsed();
  }

  lemma FortWellFormed() ensures WellFormed(FORT.sections) {
    PlainFocusOfSession(); PlainOutcomeDesired(); PlainResponseObserved(); PlainTacticsForProgress();
  }

  /** Every format's headings are plain and pairwise distinct, so none holds a colon or a line break. */
  lemma CatalogWellFormed()
    ensures forall k | k in NOTE_FORMATS :: WellFormed(NOTE_FORMATS[k].sections)
  {
    GirpWellFormed();
    DapWellFormed();
    BirpWellFormed();
    SoapWellFormed();
    PirpWellFormed();
    RiftWellFormed();
    CareWellFormed();
    StopWellFormed();
    MintWellFormed();
    FortWellFormed();
  }

  /** Formats share headings: girp and birp both ask for RESPONSE TO INTERVENTIONS, dap and soap for ASSESSMENT OF PROGRESS. */
  lemma SharedHeadings()
    ensures NOTE_FORMATS["girp"].sections[2] == NOTE_FORMATS["birp"].sections[2] == "RESPONSE TO INTERVENTIONS"
    ensures NOTE_FORMATS["dap"].sections[1] == NOTE_FORMATS["soap"].sections[2] == "ASSESSMENT OF PROGRESS"
    ensures NOTE_FORMATS["birp"].sections[1] == NOTE_FORMATS["pirp"].sections[1] == "INTERVENTIONS USED"
  {
  }
}
