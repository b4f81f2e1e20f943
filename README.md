# Clinical note generator: a verified model of its core

The application turns a clinician's session notes into a structured
clinical note. The clinician either types free text or, in guided mode
(always on for assessments), answers a list of questions, and picks
therapies, concerns, observations, client responses and plans from
catalogs. A prompt is assembled from these choices. A generation service
returns text, which is cleaned, split into the headings of the chosen note
format (GIRP, DAP, BIRP, SOAP, PIRP, RIFT, CARE, STOP, MINT, FORT, or the
nine assessment headings), and stored as sections. Each section can be
regenerated on its own; every regeneration appends a version, and the
section card lets the clinician pick which version it shows.

The model is written in Dafny, one module per source file:

| module | models |
|---|---|
| `JsString`, `Lists`, `Patterns` | the JavaScript string built-ins the code relies on (`trim` and `\s`, ASCII case mapping, `split`/`join`, `parseInt`) and the global regex replacements shared by several files, written as scanners |
| `Types` | the records of `src/types/index.ts` |
| `Formats`, `Constants`, `FormatPrompts` | the format catalog, the assessment headings, the sentence band and pattern, and the format prompt |
| `ContentCleaner` | `cleanContent` of `src/utils/contentCleaner.ts` |
| `Sections` | the section parser of `src/utils/sections.ts` |
| `Formatter`, `Validators`, `Processor` | the response formatter, the advisory validator and `processResponse` |
| `CatalogLabels`, `BasePrompt`, `PromptBuilder` | the label lookups, the assessment template and the prompt builder |
| `SelectedItemsView`, `NoteSectionView` | the selected-items summary and the section card's picker, guard and display |
| `TextInsertion` | `insertTextAtCursor`, as a `TextArea` class whose value and selection the method updates in place |
| `NoteInput` | the note form, as a `NoteForm` class whose fields are the component's state and whose methods are its handlers |
| `NoteApp` | the note state of `App.tsx`, as a `NoteStore` class holding the current note and format |

Code that computes a value is modelled as functions and lemmas. Loops that
push into an array or reassign a variable (`parseSections`,
`findSectionContent`, `cleanContent` of the parser, `formatResponse`,
`validateResponseFormat`, the label lookups, `buildSelectedItemsContent`,
`buildPrompt`) are methods with loop invariants. Each is proved equal to a
specification function, and the properties are proved about that
function. State held by a component or an object is a class whose methods
state the whole new state.

The regular expressions are modelled as the scanners they amount to. Two
points follow the code rather than what its comments suggest:

- `parseSections` calls `cleanContent` without the note format
  (`src/utils/sections.ts:87`). The heading canonicalisation therefore
  always uses the GIRP headings, whatever the format of the note.
- A section ends only at a heading label preceded by a line break
  (`src/utils/sections.ts:48-52`). An empty section directly followed by
  the next heading therefore takes the next section's text, with only the
  stray labels removed (`src/utils/sections.ts:66-71`).

Every function that indexes the format catalog directly requires the
format to be known, or the note to be an assessment. `getSessionSections`
and `getNoteFormatPrompt` handle unknown ids and are modelled with their
fallback and their error. Where the code throws, the model returns a
`Result` failure carrying the thrown message.

The central invariant is `NoteApp.SectionsValid`: section ids are pairwise
distinct, and in every section the version ids equal the version
positions. It is established by parsing and kept by every update. Under it,
the card's lookup by position (`src/components/NoteSection.tsx:60`) and the
store's version ids agree.

## Model

| member | source | states |
|---|---|---|
| ContentCleaner.SplitAvoids | src/utils/contentCleaner.ts:3 | no piece of a split at a one-character separator contains that character |
| ContentCleaner.TrimmedLine | src/utils/contentCleaner.ts:4-5 | a trimmed line without a line break is either empty or a clean line |
| ContentCleaner.KeptLinesShape | src/utils/contentCleaner.ts:2-5 | every kept line is non-empty, trimmed and free of line breaks |
| ContentCleaner.CleanContentLines | src/utils/contentCleaner.ts:2-6 | splitting a non-empty output at line breaks gives back exactly the kept lines |
| ContentCleaner.CleanContentNoBlankLines | src/utils/contentCleaner.ts:2-6 | no output line is empty and every output line is already trimmed |
| ContentCleaner.CleanContentOrder | src/utils/contentCleaner.ts:2-6 | output line j is the j-th non-blank input line, trimmed; the picked positions increase and are exactly the non-blank lines |
| ContentCleaner.CleanContentEmpty | src/utils/contentCleaner.ts:2-6 | the output is empty exactly when every input line is blank |
| ContentCleaner.CleanContentIdempotent | src/utils/contentCleaner.ts:1-7 | cleaning an already cleaned text changes nothing |
| FormatPrompts.Labels | src/utils/noteFormats/prompts.ts:5 | one label per heading, each the heading followed by a colon |
| FormatPrompts.SplitFormatSections | src/utils/noteFormats/prompts.ts:4-6 | for a well-formed heading list, splitting the prompt at blank lines gives the labels back |
| FormatPrompts.GetNoteFormatPromptSpec | src/utils/noteFormats/prompts.ts:8-14 | a known format succeeds with its labelled headings, one per blank-line-separated piece; an unknown id fails with "Invalid note format: " and the id |
| FormatPrompts.GetNoteFormatPromptNonEmpty | src/utils/noteFormats/prompts.ts:8-14 | the prompt of a known format is non-empty and starts with its first heading and a colon |
| Constants.GetSessionSections | src/utils/responseProcessor/constants.ts:4-6 | a known format gives its own headings, any other id the GIRP headings; either list is well formed |
| Constants.AssessmentSectionsWellFormed | src/utils/responseProcessor/constants.ts:8-18 | the nine assessment headings are plain and pairwise distinct |
| Constants.HeadingsFor | src/utils/responseProcessor/formatter.ts:26 | the heading list of an assessment or of a known session format is well formed |
| Constants.SentenceBand | src/utils/responseProcessor/constants.ts:25-26 | the minimum of five sentences is positive and at most the maximum of ten |
| Constants.PunctRun | src/utils/responseProcessor/constants.ts:28 | the length of the maximal run of '.', '!' and '?' at the start of a text |
| Processor.ProcessResponse | src/utils/responseProcessor/index.ts:5-21 | the result is the formatted text whatever validation finds; validation logs something exactly when that text is empty, and then only the empty-response error |
| TextInsertion.TextArea.constructor | src/utils/textInsertion.ts:1-4 | a text area with a valid selection and the given value |
| TextInsertion.InsertTextAtCursor | src/utils/textInsertion.ts:1-33 | without a text area nothing happens and the result is undefined; otherwise the value becomes the text before the selection, the marked snippet on its own line and the text after, the cursor collapses to just after the snippet, and the new value is returned |
| TextInsertion.PrefixSpec | src/utils/textInsertion.ts:13 | a line break goes in front exactly when the cursor is past the start and not just after a line break |
| TextInsertion.SuffixSpec | src/utils/textInsertion.ts:16 | a line break goes behind exactly when the text after the selection does not start with one |
| TextInsertion.InsertedKeepsEnds | src/utils/textInsertion.ts:9-24 | the text before the selection and the text after it survive unchanged, the latter starting at the new cursor; the length changes by the snippet minus the selection |
| TextInsertion.InsertedIntoEmpty | src/utils/textInsertion.ts:7-26 | inserting into an empty text gives the marked snippet and a line break, with the cursor at the end |
| TextInsertion.InsertedOnOwnLine | src/utils/textInsertion.ts:12-20 | "[+] " and the snippet stand on a line of their own: at the start or after a line break, and followed by one |
| Formatter.StandardizeLineBreaksShape | src/utils/responseProcessor/formatter.ts:5-13 | the result has no carriage return, no run of three line breaks, and no whitespace at either end; it is empty exactly when the normalised input is all whitespace |
| Formatter.StandardizeNoCR | src/utils/responseProcessor/formatter.ts:6-8 | no carriage return survives |
| Formatter.CollapseEnds | src/utils/responseProcessor/formatter.ts:12 | collapsing line-break runs keeps a trimmed text trimmed and non-empty |
| Formatter.FormatSection | src/utils/responseProcessor/formatter.ts:15-22 | the result has no brackets and only characters of the section |
| Formatter.FormatSectionNoop | src/utils/responseProcessor/formatter.ts:15-22 | a trimmed section without brackets comes back unchanged |
| Formatter.FormatSectionBrackets | src/utils/responseProcessor/formatter.ts:21 | a placeholder "[ word ]" loses its brackets and the spaces inside them |
| Formatter.FirstHeading | src/utils/responseProcessor/formatter.ts:31-36 | a position found by the scan is one where the heading and its colon match case-insensitively |
| Formatter.FirstHeadingLeftmost | src/utils/responseProcessor/formatter.ts:31-36 | the position found is the leftmost match, and none is found only when the heading and its colon occur nowhere |
| Formatter.FirstBoundary | src/utils/responseProcessor/formatter.ts:32 | the lazy group stops at a position where any heading with its colon, or the end of the text, follows |
| Formatter.FirstBoundaryLeftmost | src/utils/responseProcessor/formatter.ts:32 | no such position lies between the start of the body and where the group stops, so the group is as short as possible |
| Formatter.HeadingBody | src/utils/responseProcessor/formatter.ts:31-36 | the heading's body is found exactly when the heading occurs |
| Formatter.HeadingBodyShape | src/utils/responseProcessor/formatter.ts:31-38 | the body is the text from after the first occurrence's colon up to where the lookahead first holds |
| Formatter.HeadingWritten | src/utils/responseProcessor/formatter.ts:36-37 | a heading followed by a colon anywhere in the text is found |
| Formatter.BlockListAt | src/utils/responseProcessor/formatter.ts:30-42 | entry k of the block list is the block of heading k |
| Formatter.FormatResponse | src/utils/responseProcessor/formatter.ts:24-46 | the method computes the specification: blocks of the found headings, in heading order, joined by blank lines |
| Formatter.FormatBlocks | src/utils/responseProcessor/formatter.ts:27-42 | the loop collects the blocks of exactly the found headings, in order |
| Formatter.FormatBlock | src/utils/responseProcessor/formatter.ts:36-41 | one turn of the loop yields the heading's block or nothing |
| Formatter.BlockShape | src/utils/responseProcessor/formatter.ts:36-40 | a block exists exactly when the heading occurs; it starts with the heading, a colon and a blank line, and its body is trimmed and bracket-free |
| Formatter.BlocksInOrder | src/utils/responseProcessor/formatter.ts:30-45 | block j comes from the j-th found heading, found headings are in increasing heading order, and a heading contributes exactly when it occurs |
| Formatter.FormatResponseEmpty | src/utils/responseProcessor/formatter.ts:24-46 | the formatted response is empty exactly when no heading occurs in the standardised text |
| Formatter.BlocksNonEmpty | src/utils/responseProcessor/formatter.ts:40 | no block is empty |
| Formatter.NoBlocks | src/utils/responseProcessor/formatter.ts:36-45 | there are no blocks exactly when no heading occurs |
| Validators.FirstSentenceEnd | src/utils/responseProcessor/constants.ts:28 | the first position, from a start, where the sentence-ending pattern matches, or none |
| Validators.SplitSentences | src/utils/responseProcessor/validators.ts:18 | splitting at sentence endings yields at least one piece |
| Validators.CountSentencesBlank | src/utils/responseProcessor/validators.ts:17 | a blank text has no sentences |
| Validators.FirstSentenceEndAfter | src/utils/responseProcessor/validators.ts:18 | in a punctuation-free text followed by a period and then whitespace or the end, the first sentence end is that period, a run of one |
| Validators.SplitSentencesOf | src/utils/responseProcessor/validators.ts:18 | a text made of n punctuation-free sentences, each closed by ". ", splits into n non-empty pieces |
| Validators.CountSentencesOf | src/utils/responseProcessor/validators.ts:16-19 | such a text counts exactly n sentences |
| Validators.CountSentencesNoPunct | src/utils/responseProcessor/validators.ts:16-19 | a non-blank text without sentence punctuation counts as one sentence |
| Validators.SanitizedMatch | src/utils/responseProcessor/validators.ts:21-27 | the sanitised heading pattern, when it matches at the start of a text, consumes at most that text |
| Validators.SanitizedMatchItself | src/utils/responseProcessor/validators.ts:21-27 | a heading with single spaces matches itself, consuming exactly its own length |
| Validators.FirstLabel | src/utils/responseProcessor/validators.ts:29-34 | the first position where the sanitised heading and its colon match case-insensitively, or none |
| Validators.FirstStop | src/utils/responseProcessor/validators.ts:31 | the first position where any sanitised heading with its colon, or the end of the text, follows |
| Validators.FindSectionContent | src/utils/responseProcessor/validators.ts:29-36 | content is found exactly when the heading's label occurs somewhere |
| Validators.FindWrittenHeading | src/utils/responseProcessor/validators.ts:29-36 | a plain heading written out with its colon is always found |
| Validators.HipaaNoDigits | src/utils/responseProcessor/validators.ts:38-48 | a text without digits and without '@' raises no identifier concern |
| Validators.HipaaSsn | src/utils/responseProcessor/validators.ts:41 | a social security number standing between word boundaries is flagged |
| Validators.SectionErrorListAt | src/utils/responseProcessor/validators.ts:67-79 | entry k of the section error list is the error of heading k |
| Validators.ValidateResponseFormat | src/utils/responseProcessor/validators.ts:50-103 | the method computes the specification for the heading list of the note's kind |
| Validators.CheckSections | src/utils/responseProcessor/validators.ts:66-79 | the loop collects the errors of exactly the failing headings, in heading order |
| Validators.CheckSection | src/utils/responseProcessor/validators.ts:68-78 | one turn of the loop yields the heading's error or nothing |
| Validators.ValidateValidity | src/utils/responseProcessor/validators.ts:55-57 | an empty response is invalid with the single error "Invalid or empty response"; every other response is valid |
| Validators.ValidateErrors | src/utils/responseProcessor/validators.ts:66-102 | for a non-empty response the errors are the section errors in heading order followed by the reference, identifier and structure warnings |
| Validators.SectionErrorsInOrder | src/utils/responseProcessor/validators.ts:67-79 | error j belongs to the j-th failing heading, failing headings are in increasing order, and a heading reports exactly when it fails |
| Validators.SectionErrorBand | src/utils/responseProcessor/validators.ts:68-78 | a heading reports nothing exactly when its content is found, non-empty, and has between five and ten sentences |
| Validators.WarnSpec | src/utils/responseProcessor/validators.ts:81-97 | each of the three warnings appears exactly when its condition holds |
| Validators.FewLinesSpec | src/utils/responseProcessor/validators.ts:94-97 | the structure warning is due exactly when the normalised text has fewer lines than there are headings |
| Validators.SplitLines | src/utils/responseProcessor/validators.ts:94 | splitting at line breaks gives one more piece than there are line breaks |
| Formats.SectionsOf | src/utils/noteFormats/formats.ts:3-113 | the heading list of a known format is well formed: plain headings, pairwise distinct |
| Formats.CatalogKeys | src/utils/noteFormats/formats.ts:3-113 | the catalog holds exactly the ten format ids girp, dap, birp, soap, pirp, rift, care, stop, mint and fort |
| Formats.CatalogIds | src/utils/noteFormats/formats.ts:3-113 | every entry's id is its key |
| Formats.CatalogSizes | src/utils/noteFormats/formats.ts:3-113 | DAP has three headings, every other format four |
| Formats.GirpWellFormed | src/utils/noteFormats/formats.ts:8-13 | the GIRP headings are plain and distinct |
| Formats.DapWellFormed | src/utils/noteFormats/formats.ts:19-23 | the DAP headings are plain and distinct |
| Formats.BirpWellFormed | src/utils/noteFormats/formats.ts:29-34 | the BIRP headings are plain and distinct |
| Formats.SoapWellFormed | src/utils/noteFormats/formats.ts:40-45 | the SOAP headings are plain and distinct |
| Formats.PirpWellFormed | src/utils/noteFormats/formats.ts:51-56 | the PIRP headings are plain and distinct |
| Formats.RiftWellFormed | src/utils/noteFormats/formats.ts:62-67 | the RIFT headings are plain and distinct |
| Formats.CareWellFormed | src/utils/noteFormats/formats.ts:73-78 | the CARE headings are plain and distinct |
| Formats.StopWellFormed | src/utils/noteFormats/formats.ts:84-89 | the STOP headings are plain and distinct |
| Formats.MintWellFormed | src/utils/noteFormats/formats.ts:95-100 | the MINT headings are plain and distinct |
| Formats.FortWellFormed | src/utils/noteFormats/formats.ts:106-111 | the FORT headings are plain and distinct |
| Formats.CatalogWellFormed | src/utils/noteFormats/formats.ts:3-113 | every format's heading list is well formed |
| Formats.SharedHeadings | src/utils/noteFormats/formats.ts:11-54 | some headings are shared between formats, so section ids are not unique across formats |
| Formats.PlainHasNoColonOrBreak | src/utils/noteFormats/formats.ts:8-111 | a plain heading has no colon, no whitespace other than spaces, and no whitespace at either end |
| Sections.EscapeRegExp | src/utils/sections.ts:22-24 | escaping never shortens the text |
| Sections.EscapeRegExpMatchesItself | src/utils/sections.ts:22-24 | the escaped text, read as a pattern, matches exactly the original text |
| Sections.EscapePlainHeading | src/utils/sections.ts:22-24 | a heading of plain characters needs no escaping |
| Sections.AfterHeading | src/utils/sections.ts:15-16 | the text after a matched heading and its optional colon is shorter than the text |
| Sections.CleanContent | src/utils/sections.ts:6-20 | the method computes the specification: trimmed, newline runs collapsed, and every heading of the list rewritten as "HEADING:" and a line break |
| Sections.CanonicalizeHeadings | src/utils/sections.ts:14-17 | the loop applies the heading rewrite once per heading, in list order |
| Sections.CleanedTextShape | src/utils/sections.ts:8-11 | the trimmed text has no whitespace at either end and no run of three line breaks |
| Sections.CanonicalizeWrittenHeading | src/utils/sections.ts:15-16 | a heading with its colon and any whitespace after it becomes the heading, a colon and exactly one line break |
| Sections.CanonicalizeWithoutHeading | src/utils/sections.ts:15-16 | a text in which the heading does not occur is left unchanged |
| Sections.BlankRun | src/utils/sections.ts:32 | the length of the run of spaces and tabs at the start of a text |
| Sections.HeadingLineEnd | src/utils/sections.ts:31-35 | where a heading line matched at a line start ends, always past that start |
| Sections.FirstHeadingLine | src/utils/sections.ts:31-37 | a position found by the scan is one where the heading line matches |
| Sections.FirstHeadingLineLeftmost | src/utils/sections.ts:31-37 | the position found is the first match, and none is found only when the heading line matches nowhere |
| Sections.FirstBoundary | src/utils/sections.ts:48-52 | a position found by the scan is one where a line break, optional whitespace and any heading's label follow |
| Sections.FirstBoundaryLeftmost | src/utils/sections.ts:48-52 | the position found is the first such position, and none is found only when there is none |
| Sections.SectionBounds | src/utils/sections.ts:35-56 | the section's start and end lie within the text, start before end |
| Sections.SectionBoundsFound | src/utils/sections.ts:35-37 | the section is delimited exactly when its heading line occurs |
| Sections.SectionBoundsSpec | src/utils/sections.ts:39-56 | the section starts after the first heading line and ends at the first following boundary, or at the end of the text |
| Sections.LastBreakBefore | src/utils/sections.ts:63 | the last line terminator inside a whitespace run, if any |
| Sections.SpaceBeforeLineEnd | src/utils/sections.ts:63 | the part of a leading whitespace run that ends a line, if the run reaches one |
| Sections.TrimLines | src/utils/sections.ts:63 | trimming every line keeps only characters of the text |
| Sections.TrimLinesTrimmed | src/utils/sections.ts:63 | after trimming every line, no line has whitespace at either end |
| Sections.TrimLinesNoop | src/utils/sections.ts:63 | a text whose lines are already trimmed is left unchanged |
| Sections.TrimLinesIdempotent | src/utils/sections.ts:63 | trimming every line twice is trimming once |
| Sections.TrimTrimmedTail | src/utils/sections.ts:69 | trimming a text whose lines are trimmed keeps them trimmed |
| Sections.TrimmedNoDoubleNewline | src/utils/sections.ts:63-76 | such a text has no empty line in its interior |
| Sections.StripBreakLabels | src/utils/sections.ts:68-69 | removing other headings' labels keeps only characters of the text |
| Sections.StripLabel | src/utils/sections.ts:68-69 | removing a heading's label, also at the very start, keeps only characters of the text |
| Sections.StripOthersChars | src/utils/sections.ts:66-71 | removing every other heading keeps only characters of the text |
| Sections.StripStepTrimmed | src/utils/sections.ts:68-69 | removing one heading's labels and trimming keeps every line trimmed |
| Sections.StripOthersTrimmed | src/utils/sections.ts:66-71 | removing every other heading keeps every line trimmed |
| Sections.StripBreakLabelsAbsent | src/utils/sections.ts:68-69 | a text without the label is left unchanged |
| Sections.StripLeadingLabel | src/utils/sections.ts:68 | a label at the start of the text, after optional whitespace, is removed |
| Sections.FindSectionContent | src/utils/sections.ts:26-79 | the method computes the specification of the section's text |
| Sections.StripOtherHeadings | src/utils/sections.ts:66-71 | the loop removes every other heading's labels, one heading at a time, in list order |
| Sections.FindSectionContentShape | src/utils/sections.ts:26-79 | found text is non-empty, bracket-free and has trimmed lines, and is found only when the heading line occurs |
| Sections.FindSectionContentAbsent | src/utils/sections.ts:37 | without a heading line there is no text |
| Sections.DashSingleSpaces | src/utils/sections.ts:109 | on a text with single spaces, replacing whitespace runs by dashes replaces each space by a dash and keeps the length |
| Sections.SectionIdPlain | src/utils/sections.ts:109 | a plain heading's id is the heading in lower case with spaces as dashes |
| Sections.SectionIdInjective | src/utils/sections.ts:109 | distinct plain headings get distinct ids |
| Sections.Lookups | src/utils/sections.ts:95-96 | one lookup per heading |
| Sections.LookupsAt | src/utils/sections.ts:95-96 | lookup k is the text found for heading k |
| Sections.ParseSections | src/utils/sections.ts:81-121 | the method computes the specification; the text is cleaned with the default format's headings and parsed with the note's |
| Sections.ParseCleaned | src/utils/sections.ts:88-120 | the loop collects a section for each heading with text, in heading order |
| Sections.ParseHeading | src/utils/sections.ts:96-115 | one turn of the loop gives the heading's section, or nothing when no text is found |
| Sections.Position | src/utils/sections.ts:95 | the first index of a heading in the list |
| Sections.CollectSectionsFrom | src/utils/sections.ts:95-116 | every section comes from a heading whose text was found, and is made from that heading and text |
| Sections.CollectSectionsComplete | src/utils/sections.ts:99-115 | every heading whose text was found gets a section |
| Sections.CollectSectionsOrder | src/utils/sections.ts:95-116 | sections appear in the order of their headings in the list |
| Sections.ParsedHeadings | src/utils/sections.ts:81-121 | there are at most as many sections as headings, and a heading has a section exactly when its text is found |
| Sections.ParsedOrder | src/utils/sections.ts:95-116 | sections follow heading order and have pairwise distinct ids |
| Sections.ParsedSections | src/utils/sections.ts:99-114 | each section has the heading's id, one version numbered 0 with the found text and the clock reading, current version 0, not processing, no error; the text is non-empty, bracket-free and has trimmed lines |
| CatalogLabels.FindIndex | src/utils/prompts/promptBuilder.ts:16 | the index of the first option with the id, or none exactly when no option has it |
| CatalogLabels.LookupLabel | src/utils/prompts/promptBuilder.ts:14-20 | the loop over the categories returns what the category search specifies |
| CatalogLabels.CategoryLabelSpec | src/utils/prompts/promptBuilder.ts:14-20 | an unlisted id is shown as itself; a listed one as the name of its first option in the first category that has it |
| CatalogLabels.CategoryLabelUnlisted | src/components/SelectedItems.tsx:36-42 | an id no category lists falls through to the id itself |
| CatalogLabels.CategoryLabelFound | src/components/SelectedItems.tsx:36-42 | a listed id returns the name of the first option with it, in the first category holding one |
| CatalogLabels.ConcernIsOneCategory | src/utils/prompts/promptBuilder.ts:22-25 | the concern lookup is the category search over a single category |
| CatalogLabels.ConcernLabelSpec | src/components/SelectedItems.tsx:31-34 | the first concern with the id gives its label; without one, the id is shown |
| CatalogLabels.LabelsOf | src/utils/prompts/promptBuilder.ts:62 | one label per id, in order, each looked up in the categories |
| CatalogLabels.Prefixed | src/utils/prompts/promptBuilder.ts:62 | each string with the prefix in front, in order |
| SelectedItemsView.SelectedItemsCount | src/components/SelectedItems.tsx:60-66 | one line per selected id, over all five selections |
| SelectedItemsView.SelectedItemsAt | src/components/SelectedItems.tsx:60-66 | therapies, concerns, observations, responses and plans come in that order, each line its prefix and the id's label |
| SelectedItemsView.SelectedItemsUnknown | src/components/SelectedItems.tsx:23-66 | an id no catalog entry has is shown as itself after its prefix |
| SelectedItemsView.SelectedTextEmpty | src/components/SelectedItems.tsx:68 | the summary is empty exactly when nothing is selected |
| NoteSectionView.VersionChoice | src/components/NoteSection.tsx:23-28 | a version is reported only when the value reads as a number that indexes an existing version, and then it is that number |
| NoteSectionView.VersionChoiceOfOption | src/components/NoteSection.tsx:23-36 | while version ids are positions, choosing the option of the version at position i reports i |
| NoteSectionView.VersionChoiceRejects | src/components/NoteSection.tsx:24-28 | a value that reads as no listed position is rejected; with a single version only 0 can get through |
| NoteSectionView.OptionLabel | src/components/NoteSection.tsx:34 | the first option is labelled "Original"; option i > 0 is "Version " followed by i written in decimal |
| NoteSectionView.OptionLabels | src/components/NoteSection.tsx:32-36 | one option label per version, in order |
| NoteSectionView.OptionLabelsDistinct | src/components/NoteSection.tsx:32-36 | no two options carry the same label |
| NoteSectionView.Displayed | src/components/NoteSection.tsx:56-62 | a non-empty error is shown instead of content; otherwise the version at the current position, or nothing when there is none |
| NoteSectionView.DisplayedById | src/components/NoteSection.tsx:60 | while ids are positions, the shown text is the version whose id is the current version |
| BasePrompt.TemplateBlocks | src/utils/prompts/basePrompt.ts:233-262 | one block per heading of the assessment template, each the heading, a colon, a line break and its instruction |
| BasePrompt.AssessmentTemplateMatchesHeadings | src/utils/prompts/basePrompt.ts:233-262 | the assessment template lists exactly the nine assessment headings, in their order |
| PromptBuilder.CategoryBlock | src/utils/prompts/promptBuilder.ts:60-83 | a category contributes a non-empty block exactly when something is selected in it |
| PromptBuilder.CategoryBlocks | src/utils/prompts/promptBuilder.ts:58-83 | there are five candidate blocks, one per category |
| PromptBuilder.SelectionsOf | src/utils/prompts/promptBuilder.ts:51-57 | the five selections of the form, in prompt order |
| PromptBuilder.BuildSelectedItemsContent | src/utils/prompts/promptBuilder.ts:51-86 | the method computes the specification: the present blocks joined by blank lines |
| PromptBuilder.PushStep | src/utils/prompts/promptBuilder.ts:60-83 | each guarded push adds the category's block, or nothing when it is empty |
| PromptBuilder.CategoryBlocksFiltered | src/utils/prompts/promptBuilder.ts:58-85 | the present blocks are the therapy, concern, observation, response and plan blocks, in that order |
| PromptBuilder.BlocksPresent | src/utils/prompts/promptBuilder.ts:60-83 | block k is present, and non-empty, exactly when selection k is non-empty |
| PromptBuilder.SelectedItemsBlocks | src/utils/prompts/promptBuilder.ts:58-85 | present block j is the j-th non-empty category, in increasing category order |
| PromptBuilder.SelectedItemsContentEmpty | src/utils/prompts/promptBuilder.ts:85 | the selected-items content is empty exactly when all five selections are empty |
| PromptBuilder.TherapyPrompts | src/utils/prompts/promptBuilder.ts:113-114 | one lookup per selected therapy, in order |
| PromptBuilder.TherapyInstructionsEmpty | src/utils/prompts/promptBuilder.ts:113-118 | the therapy instructions are empty exactly when no selected therapy has a non-empty prompt |
| PromptBuilder.QuestionIndex | src/utils/prompts/promptBuilder.ts:128 | the first question with the id, or none exactly when no question has it |
| PromptBuilder.GuidedPieces | src/utils/prompts/promptBuilder.ts:126-133 | one piece per answer, in enumeration order |
| PromptBuilder.CollectGuided | src/utils/prompts/promptBuilder.ts:124-133 | the loop accumulates the pieces of all answers, in order |
| PromptBuilder.GuidedPieceCases | src/utils/prompts/promptBuilder.ts:127-131 | a blank answer or an unknown question adds nothing; otherwise a line break, the question's category, a colon, a line break, the trimmed answer and a line break |
| PromptBuilder.GuidedTextSnoc | src/utils/prompts/promptBuilder.ts:126-133 | each turn appends exactly the current answer's piece |
| PromptBuilder.GuidedTextEmpty | src/utils/prompts/promptBuilder.ts:135 | the guided content is empty exactly when no answer is non-blank with a known question |
| PromptBuilder.GuidedPieceEmpty | src/utils/prompts/promptBuilder.ts:127-131 | a piece is empty exactly when its answer does not count |
| PromptBuilder.GuidedPieceShape | src/utils/prompts/promptBuilder.ts:130 | a counting answer adds its category header and its trimmed text |
| PromptBuilder.FormatPiecesOfHeadings | src/utils/prompts/promptBuilder.ts:149 | splitting a format prompt at blank lines, trimming and dropping empty pieces gives back the labelled headings |
| PromptBuilder.BuildPrompt | src/utils/prompts/promptBuilder.ts:88-188 | the method computes the specification: guided part, selected part, base template, therapy part, custom part and formatting block, in that order, or the format error |
| PromptBuilder.Assemble | src/utils/prompts/promptBuilder.ts:96-187 | the assembly steps produce the parts in their prompt order |
| PromptBuilder.AddSelectedItems | src/utils/prompts/promptBuilder.ts:104-109 | the selected items, when there are any, go in front of the prompt |
| PromptBuilder.AddTherapyRequirements | src/utils/prompts/promptBuilder.ts:112-121 | therapy requirements, when present, are appended |
| PromptBuilder.AddGuidedResponses | src/utils/prompts/promptBuilder.ts:124-141 | guided content, when present, goes in front behind the kind's prefix |
| PromptBuilder.AddCustomInstructions | src/utils/prompts/promptBuilder.ts:144-146 | non-blank custom instructions are appended, trimmed |
| PromptBuilder.BuildPromptOutcome | src/utils/prompts/promptBuilder.ts:97-100 | a session with an unknown format fails with "Invalid note format: " and the id; a session with a known format succeeds; an assessment always succeeds with the assessment template |
| PromptBuilder.TherapyPartOnlyForSessions | src/utils/prompts/promptBuilder.ts:112-121 | therapy requirements appear exactly for a session with a selected therapy that has a non-empty prompt |
| PromptBuilder.FormattingBlockOfFormat | src/utils/prompts/promptBuilder.ts:149-185 | for a well-formed format the block names the format in upper case, lists every labelled heading indented, and uses the first two headings in the example |
| NoteInput.AddId | src/components/NoteInput.tsx:132-136 | the id is in the result, which holds exactly the old ids and the id, keeps the old list as its prefix, grows by at most one, and stays duplicate-free |
| NoteInput.NoDupCons | src/components/NoteInput.tsx:134 | a list with a head is duplicate-free exactly when the head is not in the tail and the tail is duplicate-free |
| NoteInput.Without | src/components/NoteInput.tsx:139 | the result counts every id as the list does except the removed id, which it does not hold; without that id the list is unchanged |
| NoteInput.WithoutMembers | src/components/NoteInput.tsx:139 | an id is kept exactly when it was in the list and is not the removed id |
| NoteInput.WithoutNoDup | src/components/NoteInput.tsx:139 | filtering a duplicate-free list leaves it duplicate-free |
| NoteInput.WithoutAppend | src/components/NoteInput.tsx:139 | filtering a concatenation filters each part |
| NoteInput.Toggle | src/components/NoteInput.tsx:142-172 | toggling keeps a list duplicate-free |
| NoteInput.ToggleMembers | src/components/NoteInput.tsx:142-172 | after a toggle the id is selected exactly when it was not before; every other id keeps its membership; an absent id is appended at the end |
| NoteInput.ToggleTwiceAbsent | src/components/NoteInput.tsx:142-172 | toggling an unselected id twice restores the list |
| NoteInput.NoDupCount | src/components/NoteInput.tsx:142-172 | in a duplicate-free list a selected id occurs exactly once |
| NoteInput.ToggleTwicePresent | src/components/NoteInput.tsx:142-172 | toggling a selected id twice moves it to the end: the same selection as a multiset, in another order |
| NoteInput.CollapsedClosed | src/components/NoteInput.tsx:37-44 | the initial panel map and the map a note-type change installs (115-121) have no panel open |
| NoteInput.Expand | src/components/NoteInput.tsx:190-209 | the panel map gains the section's key, and at most one panel stays open |
| NoteInput.ExpandSpec | src/components/NoteInput.tsx:190-209 | the section gets the requested state; expanding leaves it the only open panel; collapsing leaves every other panel as it was and opens nothing |
| NoteInput.KeyIndex | src/components/NoteInput.tsx:174-179 | the position of the first entry with the key, or none when no entry has it |
| NoteInput.SetEntry | src/components/NoteInput.tsx:174-179 | an existing key keeps its place and the length; a new key is appended after the old entries; the keys at old positions are unchanged |
| NoteInput.SetEntrySpec | src/components/NoteInput.tsx:174-179 | looking the key up gives the new value, every other key gives what it gave before, the key set gains the key, and keys stay unique |
| NoteInput.SetEntryOther | src/components/NoteInput.tsx:174-179 | writing one answer leaves the lookup of every other question unchanged |
| NoteInput.AnyAnswered | src/components/NoteInput.tsx:63 | true exactly when some guided answer is not blank once trimmed |
| NoteInput.SubmitDisabledSpec | src/components/NoteInput.tsx:61-66 | a guided form can be submitted exactly when some answer is not blank, a free-text form exactly when its text is not blank and not over the limit; the button (472) is disabled during processing and otherwise exactly when submission is impossible |
| NoteInput.TrimEmptyIff | src/components/NoteInput.tsx:63-64 | a text trims to empty exactly when all of it is whitespace |
| NoteInput.CustomOut | src/components/NoteInput.tsx:78 | custom instructions are left out exactly when blank, and otherwise passed on trimmed and non-empty |
| NoteInput.NoteForm.constructor | src/components/NoteInput.tsx:31-50 | an empty free-text session form in GIRP format with no selection, no answers and every panel collapsed |
| NoteInput.NoteForm.FormData | src/components/NoteInput.tsx:67-79 | the guided answers are passed exactly in guided mode, and the custom instructions as the trimmed text or nothing |
| NoteInput.NoteForm.Submit | src/components/NoteInput.tsx:61-81 | the form data is handed on exactly when the submit predicate holds, and is then the form's current data |
| NoteInput.NoteForm.Clear | src/components/NoteInput.tsx:83-103 | every field is reset to its initial value except the note type, which is kept |
| NoteInput.NoteForm.NoteTypeChange | src/components/NoteInput.tsx:105-130 | the type is set, guided mode is on exactly for assessments (also the effect at 55-59), text, selections, answers and custom instructions are cleared, the five panels are collapsed and the format is kept |
| NoteInput.NoteForm.AddTherapy | src/components/NoteInput.tsx:132-136 | the therapies become AddId of the old list and nothing else changes |
| NoteInput.NoteForm.RemoveTherapy | src/components/NoteInput.tsx:138-140 | the therapies become the old list without the id and nothing else changes |
| NoteInput.NoteForm.TogglePlan | src/components/NoteInput.tsx:142-148 | the plans are toggled at the id and nothing else changes |
| NoteInput.NoteForm.ToggleResponse | src/components/NoteInput.tsx:150-156 | the responses are toggled at the id and nothing else changes |
| NoteInput.NoteForm.ToggleConcern | src/components/NoteInput.tsx:158-164 | the concerns are toggled at the id and nothing else changes |
| NoteInput.NoteForm.ToggleObservation | src/components/NoteInput.tsx:166-172 | the observations are toggled at the id and nothing else changes |
| NoteInput.NoteForm.GuidedResponseChange | src/components/NoteInput.tsx:174-179 | the answer to the question is set as SetEntry describes and nothing else changes |
| NoteInput.NoteForm.SectionExpand | src/components/NoteInput.tsx:190-209 | the panel map becomes Expand of the old map and nothing else changes |
| NoteInput.NoteForm.InsertText | src/components/NoteInput.tsx:181-188 | when the text area shows the content: outside guided mode and with a text area, the content becomes the old content with the snippet inserted at the text area's selection, the text area still shows it, and the cursor collapses to just after the snippet; otherwise the content and the text area are unchanged; no other field changes |
| NoteInput.NoteForm.Render | src/components/NoteInput.tsx:440-442 | afterwards the text area shows the content; a value that already matches is left alone with its selection, and a replaced value puts the cursor at its end |
| NoteInput.NoteForm.ContentChange | src/components/NoteInput.tsx:443-446 | the typed value becomes both the content and the text area's value, with the given selection, and no other field changes |
| NoteInput.ClearThenInsert | src/components/NoteInput.tsx:181-188 | after clearing and re-rendering, an insertion into a form with a text area yields exactly the marked snippet followed by a line break, shown in the text area with the cursor at its end |
| NoteApp.Values | src/App.tsx:31-33 | the answers of a record, one per entry, in enumeration order |
| NoteApp.GuidedAnswersOrder | src/App.tsx:30-35 | piece j of the guided content is the j-th non-blank answer, trimmed; the picked positions increase and are exactly the non-blank answers |
| NoteApp.GuidedContentEmpty | src/App.tsx:30-35 | the guided content is empty exactly when every answer is blank |
| NoteApp.SubmittedContentNonEmpty | src/App.tsx:30-35 | a note created from a form that src/components/NoteInput.tsx:61-66 lets through never has empty content |
| NoteApp.NewNote | src/App.tsx:37-44 | the new note holds the content as text and original, has no sections and no error, and is processing |
| NoteApp.ProcessNoteSelectedItems | src/App.tsx:49-66 | the selected-items part of the note prompt lists only the chosen therapies, under the therapy header, and is empty without them: concerns, observations and responses are passed empty |
| NoteApp.ProcessOutcome | src/App.tsx:46-83 | building the prompt fails for a session note of unknown format, with "Invalid note format: " and the format; otherwise the outcome is the generation service's reply |
| NoteApp.ProcessedSectionsValid | src/App.tsx:70-82 | the sections stored after a successful generation have pairwise distinct ids, and every section's version ids are its version positions |
| NoteApp.ProcessReply | src/App.tsx:46-83 | the prompt is built and a successful reply parsed with the note's type and format; the result is ProcessedSections, and its sections are valid |
| NoteApp.ParsedValid | src/utils/sections.ts:95-116 | the sections parsed against a well-formed heading list have distinct ids and one version with id 0 each |
| NoteApp.ParsedSectionsValid | src/App.tsx:72 | parsing a reply for an assessment or a known format yields valid sections |
| NoteApp.FindSection | src/App.tsx:89-90 | the position of the first section with the id, or none when no section has it |
| NoteApp.UpdateMatching | src/App.tsx:96-100 | every section with the id is replaced by its update and every other section is kept, in place |
| NoteApp.MaxId | src/App.tsx:136 | the largest version id: no version exceeds it and some version has it |
| NoteApp.NextVersionId | src/App.tsx:136 | the new version id exceeds every existing id, and is 0 for a section without versions |
| NoteApp.NextVersionIdIsPosition | src/App.tsx:136 | while ids are positions, the new id is the number of versions, so ids stay positions |
| NoteApp.UpdateKeepsValid | src/App.tsx:96-100 | an update that keeps a section's id and versions keeps the sections valid |
| NoteApp.AppendedVersionSpec | src/App.tsx:129-156 | every matching section gets the trimmed reply as a new last version whose id is its old version count, shows it, and is no longer processing or in error; other sections are unchanged and the sections stay valid |
| NoteApp.AppendedVersionFresh | src/App.tsx:134-149 | the found section keeps its old versions as a prefix and gains one version, with an id above every old id, which it then shows |
| NoteApp.SettledValid | src/App.tsx:129-173 | whether the regeneration succeeded or failed, the sections stay valid |
| NoteApp.FailedKeepsVersions | src/App.tsx:157-173 | a failed regeneration keeps every section's versions and shown version, records the message on the matching sections and ends their processing, and changes no other section |
| NoteApp.RegenerationPrompt | src/App.tsx:109-121 | the section prompt exists exactly for a known format and embeds the upper-cased format, the format's heading template and the heading; an unknown format fails with "Invalid note format: " and the format |
| NoteApp.RegenerationOutcome | src/App.tsx:109-127 | for a known format the outcome is the service's reply; for an unknown one the prompt's failure |
| NoteApp.RegenerationAsWrittenNeverAppends | src/App.tsx:109 | as written, every regeneration ends in the "getNoteFormatPrompt is not defined" error on the matching sections and no section gains a version |
| NoteApp.RegenerationAppends | src/App.tsx:109-156 | with the template function in scope, a successful reply for a known format appends the trimmed reply as the next version of the matching sections |
| NoteApp.NoteStore.constructor | src/App.tsx:14-17 | no note, and the format is GIRP |
| NoteApp.NoteStore.ClearNote | src/App.tsx:19-21 | the note is dropped and the format kept |
| NoteApp.NoteStore.StartProcessing | src/App.tsx:27-44 | the format is recorded and the new note, processing, holds the content built from the form |
| NoteApp.NoteStore.FinishProcessing | src/App.tsx:46-83 | without a note nothing changes; otherwise the note takes the parsed sections on success, or the error and no sections on failure, and stops processing |
| NoteApp.NoteStore.StartRegeneration | src/App.tsx:86-102 | without a note, without original content or without the section nothing changes; otherwise the matching sections are marked processing with no error and the section's heading is returned |
| NoteApp.NoteStore.CompleteRegeneration | src/App.tsx:104-174 | the note's sections become the sections settled with the regeneration outcome under the stored format, and nothing else changes |
| NoteApp.NoteStore.CompleteRegenerationAsWritten | src/App.tsx:104-174 | as written: the sections are settled with the not-defined error, whatever the reply |
| NoteApp.NoteStore.VersionChange | src/App.tsx:177-189 | the matching sections show the chosen version and nothing else changes |
| NoteApp.GuardedVersionChange | src/components/NoteSection.tsx:23-28 | a version the picker's guard lets through, applied by src/App.tsx:177-189, is in range and is the version with that id |
| NoteApp.MarkedSpec | src/App.tsx:92-102 | starting a regeneration marks exactly the matching sections processing with no error, which disables their regenerate button (src/components/NoteSection.tsx:41), leaves the other sections unchanged and keeps the sections valid |
| NoteApp.RegeneratedShowsPicker | src/App.tsx:142-155 | after a successful regeneration the section is no longer disabled and shows the new trimmed text; a section that had a version now shows the version picker (src/components/NoteSection.tsx:13-20) |

## Left out

- JSX rendering, styling and the purely presentational components (`HowItWorks`, `NoteHeader`, `ToggleButton`, `SectionButton`, `Tooltip`, `InsertButton`, `ProcessedNote`, `NoteFormatSelector`, `ClientConcerns`, `ClientObservations`, `ClientResponse`, `PlanNextSteps`): they hold no logic beyond what the modelled modules state.
- `useDarkMode`: local storage, media queries and DOM classes, outside the note logic.
- `processNoteWithAPI`, the HTTP call to the generation service (`src/services/api.ts` is not part of this model): its outcome, a text or an error message, is a parameter of `FinishProcessing` and `CompleteRegeneration`.
- The `async`/`await` sequencing of `processNote` and `handleRegenerateSection`: each handler is split into the synchronous step before the await and the step once the reply settles (`StartProcessing`/`FinishProcessing`, `StartRegeneration`/`CompleteRegeneration`). Interleavings of several pending requests are not modelled.
- `console.log`, `console.warn` and `console.error` calls, which have no effect on results.
- `Date.now()`, used for note ids and version timestamps: the id and the clock value are parameters.
- The static catalogs (concerns, observations, responses, plans, therapy categories and therapy prompts, guided and assessment question lists) are parameters (`Catalog`, `PromptTables`), not literal tables.
- The session and guided base templates and the formatting rules of `buildPrompt` are long literals and are parameters. `assessmentNoteFormat` is modelled by its structure, a preamble and one instruction block per heading, which is what is compared with the assessment headings.
- `getCharacterCountInfo`: whether the text is over the limit is the `overLimit` parameter of the submit predicate.
- The `change` event (`new Event('change', { bubbles: true })`) that `insertTextAtCursor` dispatches on the text area (`src/utils/textInsertion.ts:28-30`): event dispatch is outside the model. `NoteInput.NoteForm.InsertText` sets the form's content to the inserted value directly, and `NoteInput.NoteForm.ContentChange` models the text area's `onChange` handler.
- React's render and commit of the controlled text area (`value={content}`, `src/components/NoteInput.tsx:442`) is the explicit method `NoteInput.NoteForm.Render`, called after a handler that replaces the content. Its cursor placement follows the HTML rule for setting a text control's value: the cursor goes to the end of the new value.
- Strings are sequences of characters (Unicode scalar values). JavaScript's `length`, `substring`, `selectionStart` and `selectionEnd` count UTF-16 code units. A character outside the Basic Multilingual Plane is one character here and two code units there. So, positions and the cursor numbers in `TextInsertion`, `JsString` and `NoteInput.NoteForm` differ from the DOM's for text with such characters. For a selection whose ends do not split a surrogate pair, the resulting strings are the same.
- The plain setters wired directly to inputs other than the text area (`setNoteFormat`, `setIsGuided`, `setCustomInstructions`, `setShowHowItWorks`): each replaces one field with the given value.
- The effect at `src/components/NoteInput.tsx:55-59`, which turns guided mode on for assessments: its result is part of `NoteInput.NoteForm.NoteTypeChange`, the only place the note type changes.
- Record enumeration order: guided answers are a list of entries in insertion order. JavaScript enumerates integer-like keys first; the question ids are not integer-like.
- Case mapping covers ASCII letters only. All headings and patterns are ASCII, and without the `u` flag JavaScript never folds a non-ASCII character onto an ASCII one.
- The second lookup of the section inside the regeneration's `try` (`src/App.tsx:105-106`) reads the same note as the guard at 89-90, so it cannot fail; `StartRegeneration` returns the heading it finds.
- `NoteApp.NoteStore.CompleteRegeneration`: it is the corrected behaviour. As written, `src/App.tsx:109` throws, as recorded under Findings and modelled by `CompleteRegenerationAsWritten`.

## Findings

| source | as written | input that shows it | evidently intended | confidence | as-written member | corrected member |
|---|---|---|---|---|---|---|
| src/App.tsx:109 | `getNoteFormatPrompt` is called, but `App.tsx` never imports it (imports at lines 1-11), so the call throws a `ReferenceError` and the `catch` at 157-174 stores "getNoteFormatPrompt is not defined" on the section | regenerating any section of any processed note | import the function from `src/utils/noteFormats/prompts.ts`, so that a successful reply is appended as the section's next version | not executed | NoteApp.RegenerationAsWrittenNeverAppends | NoteApp.RegenerationAppends |
