/**
 * Shared constants of the response processor: the heading list of a session
 * format with its fallback, the nine assessment headings, the sentence band,
 * and the sentence-ending pattern.
 */
module Constants {
  import opened JsString
  import opened Formats

  /** The headings of `fmt`, or GIRP's when the catalog does not know `fmt`. */
  function GetSessionSections(fmt: string): (hs: seq<string>)
    ensures Known(fmt) ==> hs == NOTE_FORMATS[fmt].sections
    ensures !Known(fmt) ==> hs == GIRP.sections
    ensures WellFormed(hs)
  {
    CatalogWellFormed();
    GirpWellFormed();
    if Known(fmt) then NOTE_FORMATS[fmt].sections else GIRP.sections
  }

  const CLIENT_INFORMATION := "CLIENT INFORMATION"
  const PRESENTING_PROBLEM := "PRESENTING PROBLEM"
  const MENTAL_STATUS_AND_CLINICAL_OBSERVATIONS := "MENTAL STATUS & CLINICAL OBSERVATIONS"
  const ASSESSMENT_RESULTS := "ASSESSMENT RESULTS"
  const CLINICAL_HISTORY := "CLINICAL HISTORY"
  const RISK_ASSESSMENT := "RISK ASSESSMENT"
  const CLINICAL_IMPRESSION := "CLINICAL IMPRESSION"
  const STRENGTHS_AND_CHALLENGES := "STRENGTHS AND CHALLENGES"
  const TREATMENT_RECOMMENDATIONS := "TREATMENT RECOMMENDATIONS"

  const ASSESSMENT_SECTIONS: seq<string> := [
    CLIENT_INFORMATION, PRESENTING_PROBLEM, MENTAL_STATUS_AND_CLINICAL_OBSERVATIONS,
    ASSESSMENT_RESULTS, CLINICAL_HISTORY, RISK_ASSESSMENT, CLINICAL_IMPRESSION,
    STRENGTHS_AND_CHALLENGES, TREATMENT_RECOMMENDATIONS]

  lemma PlainClientInformation() ensures Plain(CLIENT_INFORMATION) {}
  lemma PlainPresentingProblem() ensures Plain(PRESENTING_PROBLEM) {}
  lemma PlainMentalStatus() ensures Plain(MENTAL_STATUS_AND_CLINICAL_OBSERVATIONS) {}
  lemma PlainAssessmentResults() ensures Plain(ASSESSMENT_RESULTS) {}
  lemma PlainClinicalHistory() ensures Plain(CLINICAL_HISTORY) {}
  lemma PlainRiskAssessment() ensures Plain(RISK_ASSESSMENT) {}
  lemma PlainClinicalImpression() ensures Plain(CLINICAL_IMPRESSION) {}
  lemma PlainStrengths() ensures Plain(STRENGTHS_AND_CHALLENGES) {}
  lemma PlainTreatmentRecommendations() ensures Plain(TREATMENT_RECOMMENDATIONS) {}

  /** Nine plain, pairwise distinct assessment headings. */
  lemma AssessmentSectionsWellFormed()
    ensures |ASSESSMENT_SECTIONS| == 9
    ensures WellFormed(ASSESSMENT_SECTIONS)
  {
    PlainClientInformation(); PlainPresentingProblem(); PlainMentalStatus();
    PlainAssessmentResults(); PlainClinicalHistory(); PlainRiskAssessment();
    PlainClinicalImpression(); PlainStrengths(); PlainTreatmentRecommendations();
  }

  /** The headings a note of the given kind is parsed and validated against. */
  function HeadingsFor(isAssessment: bool, fmt: string): (hs: seq<string>)
    requires isAssessment || Known(fmt)
    ensures WellFormed(hs)
  {
    AssessmentSectionsWellFormed();
    if isAssessment then ASSESSMENT_SECTIONS else SectionsOf(fmt)
  }

  const MAX_SENTENCES_PER_SECTION := 10
  const MIN_SENTENCES_PER_SECTION := 5

  lemma SentenceBand()
    ensures 0 < MIN_SENTENCES_PER_SECTION <= MAX_SENTENCES_PER_SECTION
  {
  }

  predicate IsSentencePunct(c: char) {
    c == '.' || c == '!' || c == '?'
  }

  /** Length of the run of `.`, `!` and `?` at the start of `s`. */
  function PunctRun(s: string): (n: nat)
    ensures n <= |s|
    ensures forall i | 0 <= i < n :: IsSentencePunct(s[i])
    ensures n < |s| ==> !IsSentencePunct(s[n])
  {
    if s != [] && IsSentencePunct(s[0]) then 1 + PunctRun(s[1..]) else 0
  }

  /**
   * `SENTENCE_ENDINGS`, `/[.!?]+(?=\s+|$)/`, matches at `q` exactly when the
   * whole punctuation run starting there is followed by whitespace or the end
   * of the text: a shorter run is followed by punctuation, which the
   * lookahead refuses. The match is that whole run.
   */
  predicate SentenceEndAt(s: string, q: nat)
    requires q <= |s|
  {
    var n := PunctRun(s[q..]);
    n > 0 && (q + n == |s| || IsSpace(s[q + n]))
  }
}
