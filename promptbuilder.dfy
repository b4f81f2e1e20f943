/**
 * The prompt builder: the text sent to the generator for a note, put
 * together from the selected items, the therapy-specific fragments, the
 * guided answers, the custom instructions and a closing block of formatting
 * rules built from the note format's template. The catalogs, the question
 * lists and the two base templates are configuration data and are
 * parameters here.
 */
module PromptBuilder {
  import opened JsString
  import opened Types
  import opened Formats
  import opened FormatPrompts
  import opened BasePrompt
  import opened Lists
  import opened CatalogLabels

  /**
   * The static data `buildPrompt` reads: the catalogs, the therapy prompts,
   * the question lists, the templates, and the fixed wording of the closing
   * formatting block. In the application `assessmentNoteFormat` is
   * `AssessmentNoteFormat()` and `rules` is `FORMAT_RULES`.
   */
  datatype PromptTables = PromptTables(
    catalog: Catalog,
    therapyPrompts: map<string, string>,
    guidedQuestions: seq<GuidedQuestion>,
    assessmentQuestions: seq<GuidedQuestion>,
    basePromptTemplate: string,
    assessmentPromptTemplate: string,
    assessmentNoteFormat: string,
    rules: FormatRules)

  /** The arguments of `buildPrompt`; `None` stands for an argument left undefined. */
  datatype PromptRequest = PromptRequest(
    selectedTherapies: seq<string>,
    noteType: NoteType,
    noteFormat: string,
    customInstructions: Option<string>,
    guidedResponses: Option<Entries>,
    formData: Option<NoteFormData>)

  // ---------------------------------------------------------------------
  // buildSelectedItemsContent
  // ---------------------------------------------------------------------

  const THERAPY_HEADER := "Therapy Approaches Used:\n"
  const CONCERN_HEADER := "Client Concerns:\n"
  const OBSERVATION_HEADER := "Clinical Observations:\n"
  const RESPONSE_HEADER := "Client Responses:\n"
  const PLAN_HEADER := "Treatment Plans:\n"

  /** The block of one category: its header and a `- label` line per id; none for an empty selection. */
  function CategoryBlock(header: string, labels: seq<string>): (b: Option<string>)
    requires header != ""
    ensures b.Some? <==> labels != []
    ensures b.Some? ==> b.value != ""
  {
    if labels == [] then None else Some(header + Join(Prefixed("- ", labels), "\n"))
  }

  /** The five candidate blocks, in the fixed category order. */
  function CategoryBlocks(cat: Catalog, form: NoteFormData): (bs: seq<Option<string>>)
    ensures |bs| == 5
  {
    [CategoryBlock(THERAPY_HEADER, LabelsOf(cat.therapyCategories, form.selectedTherapies)),
     CategoryBlock(CONCERN_HEADER, LabelsOf([cat.concerns], form.selectedConcerns)),
     CategoryBlock(OBSERVATION_HEADER, LabelsOf(cat.observationCategories, form.selectedObservations)),
     CategoryBlock(RESPONSE_HEADER, LabelsOf(cat.responseCategories, form.selectedResponses)),
     CategoryBlock(PLAN_HEADER, LabelsOf(cat.planCategories, form.selectedPlans))]
  }

  /** The selections of the form, in the order of the category blocks. */
  function SelectionsOf(form: NoteFormData): (ss: seq<seq<string>>)
    ensures |ss| == 5
  {
    [form.selectedTherapies, form.selectedConcerns, form.selectedObservations,
     form.selectedResponses, form.selectedPlans]
  }

  /** `buildSelectedItemsContent`: the blocks of the non-empty selections, separated by blank lines. */
  function SelectedItemsContentSpec(cat: Catalog, form: NoteFormData): string {
    Join(FilterMap(CategoryBlocks(cat, form)), "\n\n")
  }

  /** `buildSelectedItemsContent`, pushing one block per non-empty selection. */
  method BuildSelectedItemsContent(cat: Catalog, form: NoteFormData) returns (content: string)
    ensures content == SelectedItemsContentSpec(cat, form)
  {
    var sections: seq<string> := [];
    ghost var s0 := sections;
    if |form.selectedTherapies| > 0 {
      sections := sections + [THERAPY_HEADER + Join(Prefixed("- ", LabelsOf(cat.therapyCategories, form.selectedTherapies)), "\n")];
    }
    PushStep(s0, THERAPY_HEADER, LabelsOf(cat.therapyCategories, form.selectedTherapies), sections);
    ghost var s1 := sections;
    if |form.selectedConcerns| > 0 {
      sections := sections + [CONCERN_HEADER + Join(Prefixed("- ", LabelsOf([cat.concerns], form.selectedConcerns)), "\n")];
    }
    PushStep(s1, CONCERN_HEADER, LabelsOf([cat.concerns], form.selectedConcerns), sections);
    ghost var s2 := sections;
    if |form.selectedObservations| > 0 {
      sections := sections + [OBSERVATION_HEADER + Join(Prefixed("- ", LabelsOf(cat.observationCategories, form.selectedObservations)), "\n")];
    }
    PushStep(s2, OBSERVATION_HEADER, LabelsOf(cat.observationCategories, form.selectedObservations), sections);
    ghost var s3 := sections;
    if |form.selectedResponses| > 0 {
      sections := sections + [RESPONSE_HEADER + Join(Prefixed("- ", LabelsOf(cat.responseCategories, form.selectedResponses)), "\n")];
    }
    PushStep(s3, RESPONSE_HEADER, LabelsOf(cat.responseCategories, form.selectedResponses), sections);
    ghost var s4 := sections;
    if |form.selectedPlans| > 0 {
      sections := sections + [PLAN_HEADER + Join(Prefixed("- ", LabelsOf(cat.planCategories, form.selectedPlans)), "\n")];
    }
    PushStep(s4, PLAN_HEADER, LabelsOf(cat.planCategories, form.selectedPlans), sections);
    ghost var b0, b1, b2, b3, b4 := Opt(CategoryBlock(THERAPY_HEADER, LabelsOf(cat.therapyCategories, form.selectedTherapies))),
      Opt(CategoryBlock(CONCERN_HEADER, LabelsOf([cat.concerns], form.selectedConcerns))),
      Opt(CategoryBlock(OBSERVATION_HEADER, LabelsOf(cat.observationCategories, form.selectedObservations))),
      Opt(CategoryBlock(RESPONSE_HEADER, LabelsOf(cat.responseCategories, form.selectedResponses))),
      Opt(CategoryBlock(PLAN_HEADER, LabelsOf(cat.planCategories, form.selectedPlans)));
    CategoryBlocksFiltered(cat, form);
    Assoc5(b0, b1, b2, b3, b4);
    content := if |sections| > 0 then Join(sections, "\n\n") else "";
    JoinOrEmpty(sections, "\n\n");
  }

  /** One `if (…length > 0) sections.push(…)`: the category's block, when present, is appended. */
  lemma PushStep(before: seq<string>, header: string, labels: seq<string>, after: seq<string>)
    requires header != ""
    requires labels != [] ==> after == before + [header + Join(Prefixed("- ", labels), "\n")]
    requires labels == [] ==> after == before
    ensures after == before + Opt(CategoryBlock(header, labels))
  {
    if labels == [] {
      assert before + [] == before;
    }
  }

  /** The pushed blocks are the present ones among the five candidates, in order. */
  lemma CategoryBlocksFiltered(cat: Catalog, form: NoteFormData)
    ensures FilterMap(CategoryBlocks(cat, form)) ==
      Opt(CategoryBlock(THERAPY_HEADER, LabelsOf(cat.therapyCategories, form.selectedTherapies)))
      + (Opt(CategoryBlock(CONCERN_HEADER, LabelsOf([cat.concerns], form.selectedConcerns)))
      + (Opt(CategoryBlock(OBSERVATION_HEADER, LabelsOf(cat.observationCategories, form.selectedObservations)))
      + (Opt(CategoryBlock(RESPONSE_HEADER, LabelsOf(cat.responseCategories, form.selectedResponses)))
      + Opt(CategoryBlock(PLAN_HEADER, LabelsOf(cat.planCategories, form.selectedPlans))))))
  {
    FilterMap5(CategoryBlocks(cat, form));
  }

  lemma JoinOrEmpty(xs: seq<string>, sep: string)
    ensures (if |xs| > 0 then Join(xs, sep) else "") == Join(xs, sep)
  {
  }

  lemma Assoc5<T>(a: seq<T>, b: seq<T>, c: seq<T>, d: seq<T>, e: seq<T>)
    ensures [] + a + b + c + d + e == a + (b + (c + (d + e)))
  {
  }

  /** A block is present exactly for a non-empty selection, and a present block is not empty. */
  lemma BlocksPresent(cat: Catalog, form: NoteFormData)
    ensures var bs := CategoryBlocks(cat, form);
      forall k | 0 <= k < 5 :: (bs[k].Some? <==> SelectionsOf(form)[k] != []) && (bs[k].Some? ==> bs[k].value != "")
  {
    var bs := CategoryBlocks(cat, form);
    var ss := SelectionsOf(form);
    assert bs[0].Some? <==> ss[0] != [];
    assert bs[1].Some? <==> ss[1] != [];
    assert bs[2].Some? <==> ss[2] != [];
    assert bs[3].Some? <==> ss[3] != [];
    assert bs[4].Some? <==> ss[4] != [];
  }

  /** Filtering a five-entry list, entry by entry. */
  lemma FilterMap5<T>(xs: seq<Option<T>>)
    requires |xs| == 5
    ensures FilterMap(xs) == Opt(xs[0]) + (Opt(xs[1]) + (Opt(xs[2]) + (Opt(xs[3]) + Opt(xs[4]))))
  {
    var t1, t2, t3, t4 := xs[1..], xs[2..], xs[3..], xs[4..];
    assert xs == [xs[0]] + t1 && t1 == [xs[1]] + t2 && t2 == [xs[2]] + t3 && t3 == [xs[3]] + t4 && t4 == [xs[4]] + [];
    FilterMapOpt(xs[4], []);
    FilterMapOpt(xs[3], t4);
    FilterMapOpt(xs[2], t3);
    FilterMapOpt(xs[1], t2);
    FilterMapOpt(xs[0], t1);
    assert Opt(xs[4]) + [] == Opt(xs[4]);
  }

  lemma FilterMapOpt<T>(x: Option<T>, xs: seq<Option<T>>)
    ensures FilterMap([x] + xs) == Opt(x) + FilterMap(xs)
  {
    FilterMapCons(x, xs);
    if x.None? {
      assert Opt(x) + FilterMap(xs) == FilterMap(xs);
    }
  }

  /** The value of a present entry as a one-element list, nothing for an absent one. */
  function Opt<T>(x: Option<T>): seq<T> {
    if x.Some? then [x.value] else []
  }

  /**
   * The blocks come in the fixed category order, one exactly for each
   * non-empty selection: block `j` is the block of the `j`-th non-empty
   * category.
   */
  lemma SelectedItemsBlocks(cat: Catalog, form: NoteFormData)
    ensures var bs := CategoryBlocks(cat, form); var ks := Picked(bs);
      Increasing(ks)
      && (forall k | 0 <= k < 5 :: k in ks <==> SelectionsOf(form)[k] != [])
      && |FilterMap(bs)| == |ks|
      && (forall j | 0 <= j < |ks| :: bs[ks[j]] == Some(FilterMap(bs)[j]))
  {
    var bs := CategoryBlocks(cat, form);
    BlocksPresent(cat, form);
    PickedIncreasing(bs);
    PickedComplete(bs);
    FilterMapPicked(bs);
  }

  /** There is no selected-items text exactly when nothing is selected. */
  lemma SelectedItemsContentEmpty(cat: Catalog, form: NoteFormData)
    ensures SelectedItemsContentSpec(cat, form) == "" <==>
      forall k | 0 <= k < 5 :: SelectionsOf(form)[k] == []
  {
    BlocksPresent(cat, form);
    JoinPresentEmpty(CategoryBlocks(cat, form), "\n\n");
  }

  // ---------------------------------------------------------------------
  // Therapy-specific requirements
  // ---------------------------------------------------------------------

  /** `THERAPY_PROMPTS[typeId]` kept by `filter(Boolean)`: the prompt of the id, when it has a non-empty one. */
  function TherapyPrompt(prompts: map<string, string>, id: string): Option<string> {
    if id in prompts && prompts[id] != "" then Some(prompts[id]) else None
  }

  function TherapyPrompts(prompts: map<string, string>, ids: seq<string>): (r: seq<Option<string>>)
    ensures |r| == |ids|
    ensures forall k | 0 <= k < |ids| :: r[k] == TherapyPrompt(prompts, ids[k])
  {
    if ids == [] then [] else [TherapyPrompt(prompts, ids[0])] + TherapyPrompts(prompts, ids[1..])
  }

  /** `therapyInstructions`: the prompts of the selected therapies that have one, separated by blank lines. */
  function TherapyInstructions(prompts: map<string, string>, ids: seq<string>): string {
    Join(FilterMap(TherapyPrompts(prompts, ids)), "\n\n")
  }

  /** There are therapy instructions exactly when some selected therapy has a non-empty prompt. */
  lemma TherapyInstructionsEmpty(prompts: map<string, string>, ids: seq<string>)
    ensures TherapyInstructions(prompts, ids) == "" <==>
      forall k | 0 <= k < |ids| :: !(ids[k] in prompts && prompts[ids[k]] != "")
  {
    JoinPresentEmpty(TherapyPrompts(prompts, ids), "\n\n");
  }

  // ---------------------------------------------------------------------
  // Guided answers
  // ---------------------------------------------------------------------

  /** `questions.find(q => q.id === id)`, as the position of the first question with the id. */
  function QuestionIndex(qs: seq<GuidedQuestion>, id: string): (r: Option<nat>)
    ensures r.Some? ==> r.value < |qs| && qs[r.value].id == id
    ensures r.Some? ==> forall j | 0 <= j < r.value :: qs[j].id != id
    ensures r.None? <==> forall j | 0 <= j < |qs| :: qs[j].id != id
  {
    if qs == [] then None
    else if qs[0].id == id then Some(0)
    else match QuestionIndex(qs[1..], id)
      case None => None
      case Some(k) => Some(k + 1)
  }

  /** What one answer adds: `\n<category>:\n<trimmed answer>\n` when it is non-blank and its question exists. */
  function GuidedPiece(qs: seq<GuidedQuestion>, entry: (string, string)): string {
    var answer := Trim(entry.1);
    if answer == "" then ""
    else match QuestionIndex(qs, entry.0)
      case None => ""
      case Some(k) => "\n" + qs[k].category + ":\n" + answer + "\n"
  }

  /** The piece of each answer, in enumeration order. */
  function GuidedPieces(qs: seq<GuidedQuestion>, es: Entries): (r: seq<string>)
    ensures |r| == |es|
    ensures forall k | 0 <= k < |es| :: r[k] == GuidedPiece(qs, es[k])
  {
    if es == [] then [] else [GuidedPiece(qs, es[0])] + GuidedPieces(qs, es[1..])
  }

  /** `guidedContent` after the answers `es`, taken in enumeration order. */
  function GuidedText(qs: seq<GuidedQuestion>, es: Entries): string {
    Concat(GuidedPieces(qs, es))
  }

  /** The `forEach` over the answers, appending each one's piece. */
  method CollectGuided(qs: seq<GuidedQuestion>, es: Entries) returns (guidedContent: string)
    ensures guidedContent == GuidedText(qs, es)
  {
    guidedContent := "";
    var i := 0;
    while i < |es|
      invariant 0 <= i <= |es|
      invariant guidedContent == GuidedText(qs, es[..i])
    {
      var (id, response) := es[i];
      GuidedTextSnoc(qs, es, i);
      ghost var piece := GuidedPiece(qs, es[i]);
      assert es[i] == (id, response);
      GuidedPieceCases(qs, id, response);
      if Trim(response) != "" {
        var question := QuestionIndex(qs, id);
        if question.Some? {
          assert piece == "\n" + qs[question.value].category + ":\n" + Trim(response) + "\n";
          guidedContent := guidedContent + ("\n" + qs[question.value].category + ":\n" + Trim(response) + "\n");
        } else {
          assert piece == "";
          AppendEmpty(guidedContent);
        }
      } else {
        assert piece == "";
        AppendEmpty(guidedContent);
      }
      assert guidedContent == GuidedText(qs, es[..i]) + piece;
      assert guidedContent == GuidedText(qs, es[..i + 1]);
      i := i + 1;
    }
    assert es[..i] == es;
  }

  lemma GuidedPieceCases(qs: seq<GuidedQuestion>, id: string, response: string)
    ensures Trim(response) == "" ==> GuidedPiece(qs, (id, response)) == ""
    ensures Trim(response) != "" && QuestionIndex(qs, id).None? ==> GuidedPiece(qs, (id, response)) == ""
    ensures Trim(response) != "" && QuestionIndex(qs, id).Some? ==>
      GuidedPiece(qs, (id, response)) == "\n" + qs[QuestionIndex(qs, id).value].category + ":\n" + Trim(response) + "\n"
  {
  }

  lemma AppendEmpty(x: string)
    ensures x + "" == x
  {
  }

  lemma PrependEmpty(x: string)
    ensures "" + x == x
  {
  }

  lemma GuidedTextSnoc(qs: seq<GuidedQuestion>, es: Entries, i: nat)
    requires i < |es|
    ensures GuidedText(qs, es[..i + 1]) == GuidedText(qs, es[..i]) + GuidedPiece(qs, es[i])
  {
    var ps, ps' := GuidedPieces(qs, es[..i]), GuidedPieces(qs, es[..i + 1]);
    assert ps' == ps + [GuidedPiece(qs, es[i])];
    ConcatSnoc(ps, GuidedPiece(qs, es[i]));
  }

  /** An answer counts when it is non-blank and answers a listed question. */
  predicate Counts(qs: seq<GuidedQuestion>, entry: (string, string)) {
    Trim(entry.1) != "" && QuestionIndex(qs, entry.0).Some?
  }

  /** The guided text is empty exactly when no answer counts. */
  lemma GuidedTextEmpty(qs: seq<GuidedQuestion>, es: Entries)
    ensures GuidedText(qs, es) == "" <==> forall k | 0 <= k < |es| :: !Counts(qs, es[k])
  {
    var ps := GuidedPieces(qs, es);
    ConcatEmpty(ps);
    forall k | 0 <= k < |es| ensures ps[k] == "" <==> !Counts(qs, es[k]) {
      GuidedPieceEmpty(qs, es[k]);
    }
  }

  lemma GuidedPieceEmpty(qs: seq<GuidedQuestion>, entry: (string, string))
    ensures GuidedPiece(qs, entry) == "" <==> !Counts(qs, entry)
  {
  }

  /** Every counted answer contributes the category of the first question with its id and its trimmed text. */
  lemma GuidedPieceShape(qs: seq<GuidedQuestion>, entry: (string, string))
    requires Counts(qs, entry)
    ensures var k := QuestionIndex(qs, entry.0).value;
      GuidedPiece(qs, entry) == "\n" + qs[k].category + ":\n" + Trim(entry.1) + "\n"
  {
  }

  // ---------------------------------------------------------------------
  // The closing formatting block
  // ---------------------------------------------------------------------

  /** `formatSections`: the template's blank-line separated pieces, trimmed, the empty ones dropped. */
  function FormatPieces(template: string): seq<string> {
    NonEmpty(TrimAll(Split(template, "\n\n")))
  }

  /** `formatSections[k]` in a template literal: the piece, or `undefined` past the end. */
  function PieceOrUndefined(xs: seq<string>, k: nat): string {
    if k < |xs| then xs[k] else "undefined"
  }

  /** The fixed wording of the formatting block, around the format name, the header list and the two examples. */
  datatype FormatRules = FormatRules(
    intro: string, headers: string, body: string, exampleFirst: string, exampleSecond: string)

  const FORMAT_RULES := FormatRules(
    "\nCRITICAL FORMATTING REQUIREMENTS - YOU MUST FOLLOW THESE EXACTLY:\n\n1. Structure:\n   - This note MUST follow the ",
    " format\n   - Use ONLY these exact section headers:\n",
    "\n   - Each section MUST start with the exact heading followed by a colon\n   - Each section MUST be separated by exactly two blank lines\n   - Do not add any additional headers or sections\n   - Do not modify or rephrase the headers\n   - Never include headers within section content\n   - Never nest sections within other sections\n\n2. Content:\n   - Each section MUST contain 5-10 complete sentences\n   - Each section MUST be self-contained (no content overlap between sections)\n   - Use professional clinical language and terminology\n   - Always use \"TH\" for therapist and \"CL\" for client\n   - Focus on observable behaviors and clinical observations\n   - Each sentence must be complete, clear, and clinically relevant\n   - Content must be appropriate for the specific section heading\n   - Never repeat content between sections\n\n3. Example Format:\n",
    "\nFive to ten complete, clinically relevant sentences specific to this section.\n\n\n",
    "\nDifferent set of five to ten complete sentences specific to this section.")

  /** The block appended last: the rules, naming the format and listing the template's pieces indented. */
  function FormattingBlock(rules: FormatRules, template: string, noteFormat: string): string {
    var pieces := FormatPieces(template);
    rules.intro + ToUpper(noteFormat) + rules.headers + Join(Prefixed("   ", pieces), "\n")
    + rules.body + PieceOrUndefined(pieces, 0) + rules.exampleFirst + PieceOrUndefined(pieces, 1) + rules.exampleSecond
  }

  /**
   * For a note format the listed pieces are exactly its headings, each with
   * its colon, so the worked example names the first two headings.
   */
  lemma FormatPiecesOfHeadings(hs: seq<string>)
    requires WellFormed(hs)
    ensures FormatPieces(FormatSections(hs)) == Labels(hs)
  {
    SplitFormatSections(hs);
    var ls := Labels(hs);
    forall k | 0 <= k < |ls| ensures ls[k] != "" && !IsSpace(ls[k][0]) && !IsSpace(ls[k][|ls[k]| - 1]) {
      assert Plain(hs[k]);
      assert ls[k][0] == hs[k][0] && PlainChar(hs[k][0]) && hs[k][0] != ' ';
    }
    TrimNonEmptyNoop(ls);
  }

  // ---------------------------------------------------------------------
  // buildPrompt
  // ---------------------------------------------------------------------

  const ASSESSMENT_GUIDED_PREFIX := "Please generate a clinical assessment based on the following information:"
  const SESSION_GUIDED_PREFIX := "Please generate clinical notes based on the following structured information:"

  /** `formatTemplate`: the assessment template, or the session format's prompt, which fails for an unknown format. */
  function FormatTemplate(tables: PromptTables, noteType: NoteType, noteFormat: string): Result<string> {
    if noteType == Assessment then Success(tables.assessmentNoteFormat) else GetNoteFormatPrompt(noteFormat)
  }

  /** The guided answers' text, when guided responses are given. */
  function GuidedOf(tables: PromptTables, req: PromptRequest): string {
    var questions := if req.noteType == Assessment then tables.assessmentQuestions else tables.guidedQuestions;
    if req.guidedResponses.Some? then GuidedText(questions, req.guidedResponses.value) else ""
  }

  /** The selected-items text, when form data is given. */
  function SelectedOf(tables: PromptTables, req: PromptRequest): string {
    if req.formData.Some? then SelectedItemsContentSpec(tables.catalog, req.formData.value) else ""
  }

  /** The therapy instructions, for a session note with selected therapies. */
  function TherapyOf(tables: PromptTables, req: PromptRequest): string {
    if req.noteType == Session && |req.selectedTherapies| > 0
    then TherapyInstructions(tables.therapyPrompts, req.selectedTherapies) else ""
  }

  /** The trimmed custom instructions, when given. */
  function CustomOf(req: PromptRequest): string {
    if req.customInstructions.Some? then Trim(req.customInstructions.value) else ""
  }

  /** The base template of the note type, which `finalPrompt` starts as. */
  function BaseOf(tables: PromptTables, req: PromptRequest): string {
    if req.noteType == Assessment then tables.assessmentPromptTemplate else tables.basePromptTemplate
  }

  /** The guided part: the note type's prefix sentence, the answers and a line break, when any answer counts. */
  function GuidedPart(tables: PromptTables, req: PromptRequest): string {
    var guided := GuidedOf(tables, req);
    var prefix := if req.noteType == Assessment then ASSESSMENT_GUIDED_PREFIX else SESSION_GUIDED_PREFIX;
    if guided != "" then prefix + "\n" + guided + "\n" else ""
  }

  /** The selected-items part, followed by a blank line, when any item is selected. */
  function SelectedPart(tables: PromptTables, req: PromptRequest): string {
    var sel := SelectedOf(tables, req);
    if sel != "" then "Selected Note Items:\n\n" + sel + "\n\n" else ""
  }

  /** The therapy requirements, after a blank line, when there are any. */
  function TherapyPart(tables: PromptTables, req: PromptRequest): string {
    var therapy := TherapyOf(tables, req);
    if therapy != "" then "\n\nTherapy-Specific Requirements:\n" + therapy else ""
  }

  /** The custom requirements, after a blank line, when the trimmed instructions are non-empty. */
  function CustomPart(req: PromptRequest): string {
    var custom := CustomOf(req);
    if custom != "" then "\n\nAdditional Custom Requirements:\n" + custom else ""
  }

  /**
   * The prompt for a known template is, in this order: the guided part, the
   * selected items, the base template of the note type, the therapy
   * requirements, the custom requirements, and last the formatting block.
   */
  function AssemblePrompt(tables: PromptTables, req: PromptRequest, template: string): string {
    GuidedPart(tables, req) + SelectedPart(tables, req) + BaseOf(tables, req) + TherapyPart(tables, req)
    + CustomPart(req) + FormattingBlock(tables.rules, template, req.noteFormat)
  }

  /** `buildPrompt`: fails, as the template lookup throws, for a session note of unknown format. */
  function BuildPromptSpec(tables: PromptTables, req: PromptRequest): Result<string> {
    match FormatTemplate(tables, req.noteType, req.noteFormat)
    case Failure(e) => Failure(e)
    case Success(template) => Success(AssemblePrompt(tables, req, template))
  }

  /** `buildPrompt`: the template lookup, which fails for an unknown session format, then the assembly. */
  method BuildPrompt(tables: PromptTables, req: PromptRequest) returns (r: Result<string>)
    ensures r == BuildPromptSpec(tables, req)
  {
    var formatTemplate := FormatTemplate(tables, req.noteType, req.noteFormat);
    if formatTemplate.Failure? {
      return Failure(formatTemplate.error);
    }
    var finalPrompt := Assemble(tables, req, formatTemplate.value);
    return Success(finalPrompt);
  }

  /** The body of `buildPrompt` after the template lookup, reassigning the prompt part by part. */
  method Assemble(tables: PromptTables, req: PromptRequest, formatTemplate: string) returns (finalPrompt: string)
    ensures finalPrompt == AssemblePrompt(tables, req, formatTemplate)
  {
    finalPrompt := if req.noteType == Assessment then tables.assessmentPromptTemplate else tables.basePromptTemplate;
    finalPrompt := AddSelectedItems(tables, req, finalPrompt);
    finalPrompt := AddTherapyRequirements(tables, req, finalPrompt);
    finalPrompt := AddGuidedResponses(tables, req, finalPrompt);
    finalPrompt := AddCustomInstructions(req, finalPrompt);
    ghost var g, s, b, t, c := GuidedPart(tables, req), SelectedPart(tables, req), BaseOf(tables, req),
                              TherapyPart(tables, req), CustomPart(req);
    ghost var f := FormattingBlock(tables.rules, formatTemplate, req.noteFormat);
    finalPrompt := finalPrompt + FormattingBlock(tables.rules, formatTemplate, req.noteFormat);
    Assoc6(g, s, b, t, c, f);
  }

  /** "Add selected items if available": the block goes in front. */
  method AddSelectedItems(tables: PromptTables, req: PromptRequest, prompt: string) returns (finalPrompt: string)
    ensures finalPrompt == SelectedPart(tables, req) + prompt
  {
    finalPrompt := prompt;
    if req.formData.Some? {
      var selectedItemsContent := BuildSelectedItemsContent(tables.catalog, req.formData.value);
      if selectedItemsContent != "" {
        finalPrompt := "Selected Note Items:\n\n" + selectedItemsContent + "\n\n" + finalPrompt;
      } else {
        PrependEmpty(finalPrompt);
      }
    } else {
      PrependEmpty(finalPrompt);
    }
  }

  /** "Add therapy-specific instructions for selected therapies": they go at the end. */
  method AddTherapyRequirements(tables: PromptTables, req: PromptRequest, prompt: string) returns (finalPrompt: string)
    ensures finalPrompt == prompt + TherapyPart(tables, req)
  {
    finalPrompt := prompt;
    if req.noteType == Session && |req.selectedTherapies| > 0 {
      var therapyInstructions := TherapyInstructions(tables.therapyPrompts, req.selectedTherapies);
      if therapyInstructions != "" {
        finalPrompt := finalPrompt + ("\n\nTherapy-Specific Requirements:\n" + therapyInstructions);
      } else {
        AppendEmpty(finalPrompt);
      }
    } else {
      AppendEmpty(finalPrompt);
    }
  }

  /** "Add guided responses if provided": the prefix sentence and the answers go in front. */
  method AddGuidedResponses(tables: PromptTables, req: PromptRequest, prompt: string) returns (finalPrompt: string)
    ensures finalPrompt == GuidedPart(tables, req) + prompt
  {
    finalPrompt := prompt;
    var questions := if req.noteType == Assessment then tables.assessmentQuestions else tables.guidedQuestions;
    if req.guidedResponses.Some? {
      var guidedContent := CollectGuided(questions, req.guidedResponses.value);
      if guidedContent != "" {
        var prefix := if req.noteType == Assessment then ASSESSMENT_GUIDED_PREFIX else SESSION_GUIDED_PREFIX;
        finalPrompt := prefix + "\n" + guidedContent + "\n" + finalPrompt;
      } else {
        PrependEmpty(finalPrompt);
      }
    } else {
      PrependEmpty(finalPrompt);
    }
  }

  /** "Add custom instructions if provided": the trimmed instructions go at the end. */
  method AddCustomInstructions(req: PromptRequest, prompt: string) returns (finalPrompt: string)
    ensures finalPrompt == prompt + CustomPart(req)
  {
    finalPrompt := prompt;
    if req.customInstructions.Some? && Trim(req.customInstructions.value) != "" {
      finalPrompt := finalPrompt + ("\n\nAdditional Custom Requirements:\n" + Trim(req.customInstructions.value));
    } else {
      AppendEmpty(finalPrompt);
    }
  }

  lemma Assoc6(g: string, s: string, b: string, t: string, c: string, f: string)
    ensures g + (s + b + t) + c + f == g + s + b + t + c + f
  {
  }

  /** A session note of unknown format fails with the format prompt's message; an assessment never fails. */
  lemma BuildPromptOutcome(tables: PromptTables, req: PromptRequest)
    ensures req.noteType == Session && !Known(req.noteFormat) ==>
      BuildPromptSpec(tables, req) == Failure("Invalid note format: " + req.noteFormat)
    ensures req.noteType == Session && Known(req.noteFormat) ==> BuildPromptSpec(tables, req).Success?
    ensures req.noteType == Assessment ==>
      BuildPromptSpec(tables, req) == Success(AssemblePrompt(tables, req, tables.assessmentNoteFormat))
  {
  }

  /** Only a session note gets therapy requirements, and only from therapies with a prompt. */
  lemma TherapyPartOnlyForSessions(tables: PromptTables, req: PromptRequest)
    ensures TherapyPart(tables, req) != "" <==>
      req.noteType == Session
      && exists k | 0 <= k < |req.selectedTherapies| ::
           req.selectedTherapies[k] in tables.therapyPrompts && tables.therapyPrompts[req.selectedTherapies[k]] != ""
  {
    TherapyInstructionsEmpty(tables.therapyPrompts, req.selectedTherapies);
  }

  /** A known session format's prompt ends with a formatting block listing its headings, first two as the example. */
  lemma FormattingBlockOfFormat(rules: FormatRules, hs: seq<string>, noteFormat: string)
    requires WellFormed(hs) && |hs| >= 2
    ensures FormattingBlock(rules, FormatSections(hs), noteFormat) ==
      rules.intro + ToUpper(noteFormat) + rules.headers + Join(Prefixed("   ", Labels(hs)), "\n")
      + rules.body + (hs[0] + ":") + rules.exampleFirst + (hs[1] + ":") + rules.exampleSecond
  {
    FormatPiecesOfHeadings(hs);
  }
}
