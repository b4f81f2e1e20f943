/**
 * The shapes the application passes around: notes, their sections and the
 * versions of a section, the submitted form, guided questions, and the
 * outcome of an operation that may throw.
 */
module Types {
  import opened JsString

  /** The value of an expression that either returns or throws an `Error` with a message. */
  datatype Result<+T> = Success(value: T) | Failure(error: string)

  datatype NoteType = Session | Assessment

  /** One generated text of a section; `id` is the version number shown in the picker. */
  datatype SectionVersion = SectionVersion(id: int, content: string, timestamp: int)

  datatype NoteSection = NoteSection(
    id: string,
    heading: string,
    versions: seq<SectionVersion>,
    currentVersion: int,
    isProcessing: bool,
    error: Option<string>)

  datatype Note = Note(
    id: string,
    content: string,
    originalContent: Option<string>,
    isProcessing: bool,
    error: Option<string>,
    additionalInstructions: Option<string>,
    sections: seq<NoteSection>)

  /**
   * A JavaScript object used as a string-keyed record, as its entries in
   * enumeration order (insertion order; see README for integer-like keys).
   */
  type Entries = seq<(string, string)>

  datatype NoteFormData = NoteFormData(
    content: string,
    selectedTherapies: seq<string>,
    selectedConcerns: seq<string>,
    selectedObservations: seq<string>,
    selectedResponses: seq<string>,
    selectedPlans: seq<string>,
    noteType: NoteType,
    noteFormat: string,
    isGuided: bool,
    guidedResponses: Option<Entries>,
    customInstructions: Option<string>)

  datatype GuidedQuestion = GuidedQuestion(id: string, text: string, category: string)
}
