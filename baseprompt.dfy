/**
 * The assessment note template (`assessmentNoteFormat`): a preamble
 * sentence, then for each assessment heading the heading with a colon on
 * its own line and a bracketed writing instruction, blocks separated by a
 * blank line. The other prompt templates are long literals the model takes
 * as parameters.
 */
module BasePrompt {
  import opened JsString
  import opened Formats
  import opened Constants

  const ASSESSMENT_PREAMBLE := "Please provide a detailed report in the format below. Each section must contain 5-10 complete sentences. Ensure responses are thorough and avoid overly brief or incomplete statements."

  /** The template's headings, in the order the template lists them, each with its instruction. */
  const ASSESSMENT_TEMPLATE_SECTIONS: seq<(string, string)> := [
    ("CLIENT INFORMATION",
     "[Write 5-10 sentences about the client\'s basic demographics and the referral source.]"),
    ("PRESENTING PROBLEM",
     "[Write 5-10 sentences detailing the client\U{2019}s primary concerns and symptoms.]"),
    ("MENTAL STATUS & CLINICAL OBSERVATIONS",
     "[Write 5-10 sentences describing the client\U{2019}s behavior, appearance, mood, and mental status findings.]"),
    ("ASSESSMENT RESULTS",
     "[Write 5-10 sentences summarizing relevant assessment scores, clinical measures, or findings.]"),
    ("CLINICAL HISTORY",
     "[Write 5-10 sentences summarizing the client\U{2019}s mental health, medical, and treatment history.]"),
    ("RISK ASSESSMENT",
     "[Write 5-10 sentences discussing safety concerns and protective factors relevant to the client.]"),
    ("CLINICAL IMPRESSION",
     "[Write 5-10 sentences explaining diagnostic considerations and clinical reasoning.]"),
    ("STRENGTHS AND CHALLENGES",
     "[Write 5-10 sentences outlining the client\U{2019}s strengths and areas of difficulty.]"),
    ("TREATMENT RECOMMENDATIONS",
     "[Write 5-10 sentences detailing a specific treatment plan and recommendations.]")
  ]

  /** One block of the template: `HEADING:` and its instruction on the next line. */
  function TemplateBlock(heading: string, instruction: string): string {
    heading + ":\n" + instruction
  }

  function TemplateBlocks(ps: seq<(string, string)>): (bs: seq<string>)
    ensures |bs| == |ps|
    ensures forall k | 0 <= k < |ps| :: bs[k] == TemplateBlock(ps[k].0, ps[k].1)
  {
    if ps == [] then [] else [TemplateBlock(ps[0].0, ps[0].1)] + TemplateBlocks(ps[1..])
  }

  /** `assessmentNoteFormat`. */
  function AssessmentNoteFormat(): string {
    "\n" + ASSESSMENT_PREAMBLE + "\n\n" + Join(TemplateBlocks(ASSESSMENT_TEMPLATE_SECTIONS), "\n\n") + "\n"
  }

  /** The template asks for exactly the assessment headings, in the same order. */
  lemma AssessmentTemplateMatchesHeadings()
    ensures |ASSESSMENT_TEMPLATE_SECTIONS| == |ASSESSMENT_SECTIONS|
    ensures forall k | 0 <= k < |ASSESSMENT_SECTIONS| :: ASSESSMENT_TEMPLATE_SECTIONS[k].0 == ASSESSMENT_SECTIONS[k]
  {
  }
}
