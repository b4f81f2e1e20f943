/**
 * The application's note state: creating a note from the submitted form,
 * storing the parsed sections or the error once generation settles,
 * regenerating one section as a new version, and choosing the version a
 * section shows. The generation service is not modelled: its outcome, a
 * processed text or an error message, is a parameter, as is the clock.
 */
module NoteApp {
  import opened JsString
  import opened Types
  import opened Lists
  import opened Formats
  import opened FormatPrompts
  import opened CatalogLabels
  import opened PromptBuilder
  import opened Sections
  import opened Constants
  import opened NoteSectionView
  import NoteInput

  // ---------------------------------------------------------------------
  // Creating a note
  // ---------------------------------------------------------------------

  /** The answers of a record, in enumeration order. */
  function Values(es: Entries): (vs: seq<string>)
    ensures |vs| == |es|
    ensures forall i | 0 <= i < |es| :: vs[i] == es[i].1
  {
    seq(|es|, i requires 0 <= i < |es| => es[i].1)
  }

  /** The non-blank answers, trimmed, in order. */
  function GuidedAnswers(es: Entries): seq<string> {
    NonEmpty(TrimAll(Values(es)))
  }

  /** The note content: with guided answers, the non-blank ones trimmed and separated by blank lines; otherwise the text typed in. */
  function NoteContent(form: NoteFormData): string {
    match form.guidedResponses
    case Some(es) => Join(GuidedAnswers(es), "\n\n")
    case None => form.content
  }

  /**
   * The guided content lists the non-blank answers, trimmed, in their
   * order: piece `j` is the answer at the `j`-th non-blank position.
   */
  lemma GuidedAnswersOrder(es: Entries)
    ensures var ks := Picked(Present(TrimAll(Values(es))));
      Increasing(ks)
      && |GuidedAnswers(es)| == |ks|
      && (forall j | 0 <= j < |ks| :: GuidedAnswers(es)[j] == Trim(es[ks[j]].1))
      && (forall k | 0 <= k < |es| :: k in ks <==> !AllSpace(es[k].1))
  {
    var ts := TrimAll(Values(es));
    NonEmptyOrder(ts);
    assert forall k | 0 <= k < |es| :: ts[k] == "" <==> AllSpace(es[k].1);
  }

  /** The guided content is empty exactly when every answer is blank. */
  lemma GuidedContentEmpty(es: Entries)
    ensures Join(GuidedAnswers(es), "\n\n") == "" <==> forall k | 0 <= k < |es| :: AllSpace(es[k].1)
  {
    var ts := TrimAll(Values(es));
    NonEmptyEmpty(ts);
    JoinEmpty(GuidedAnswers(es), "\n\n");
    assert forall k | 0 <= k < |es| :: ts[k] == "" <==> AllSpace(es[k].1);
  }

  /**
   * A form the note form lets through always gives a note with content, so
   * the note's original content passes the guard of a regeneration.
   */
  lemma SubmittedContentNonEmpty(form: NoteFormData, guidedResponses: Entries, overLimit: bool)
    requires NoteInput.CanSubmit(form.isGuided, guidedResponses, form.content, overLimit)
    requires form.guidedResponses == (if form.isGuided then Some(guidedResponses) else None)
    ensures NoteContent(form) != ""
  {
    if form.isGuided {
      GuidedContentEmpty(guidedResponses);
      var k :| 0 <= k < |guidedResponses| && Trim(guidedResponses[k].1) != "";
      assert !AllSpace(guidedResponses[k].1);
    }
  }

  /** The note shown while the first generation runs. */
  function NewNote(id: string, content: string): (n: Note)
    ensures n.content == content && n.originalContent == Some(content)
    ensures n.sections == [] && n.isProcessing && n.error.None?
  {
    Note(id, content, Some(content), true, None, None, [])
  }

  /** The prompt request `processNote` makes: the form's data, with every selection but the therapies left empty. */
  function ProcessNoteRequest(form: NoteFormData): PromptRequest {
    PromptRequest(form.selectedTherapies, form.noteType, form.noteFormat, form.customInstructions,
      form.guidedResponses,
      Some(NoteFormData(form.content, form.selectedTherapies, [], [], [], [], form.noteType, form.noteFormat,
        form.guidedResponses.Some?, form.guidedResponses, None)))
  }

  /** Only the therapies reach the selected-items block of the prompt `processNote` builds. */
  lemma ProcessNoteSelectedItems(tables: PromptTables, form: NoteFormData)
    ensures SelectedOf(tables, ProcessNoteRequest(form)) ==
      if form.selectedTherapies == [] then ""
      else THERAPY_HEADER + Join(Prefixed("- ", LabelsOf(tables.catalog.therapyCategories, form.selectedTherapies)), "\n")
  {
    var data := ProcessNoteRequest(form).formData.value;
    var bs := CategoryBlocks(tables.catalog, data);
    FilterMap5(bs);
    assert Opt(bs[1]) == [] && Opt(bs[2]) == [] && Opt(bs[3]) == [] && Opt(bs[4]) == [];
    if form.selectedTherapies != [] {
      assert FilterMap(bs) == [bs[0].value];
    } else {
      assert FilterMap(bs) == [];
    }
  }

  /** What the first generation settles with: the prompt's error when it cannot be built, the service's reply otherwise. */
  function ProcessOutcome(tables: PromptTables, form: NoteFormData, reply: Result<string>): (r: Result<string>)
    ensures r.Success? ==> form.noteType == Assessment || Known(form.noteFormat)
    ensures form.noteType == Session && !Known(form.noteFormat) ==> r == Failure("Invalid note format: " + form.noteFormat)
    ensures (form.noteType == Assessment || Known(form.noteFormat)) ==> r == reply
  {
    BuildPromptOutcome(tables, ProcessNoteRequest(form));
    match BuildPromptSpec(tables, ProcessNoteRequest(form))
    case Failure(e) => Failure(e)
    case Success(_) => reply
  }

  /** What the first generation yields: the sections parsed from the reply, or the error of the prompt or of the service. */
  function ProcessedSections(tables: PromptTables, form: NoteFormData, reply: Result<string>, now: int): Result<seq<NoteSection>> {
    match ProcessOutcome(tables, form, reply)
    case Success(text) => Success(ParseSectionsSpec(text, form.noteType == Assessment, form.noteFormat, now))
    case Failure(message) => Failure(message)
  }

  /** Sections that come out of a generation satisfy the invariant. */
  lemma ProcessedSectionsValid(tables: PromptTables, form: NoteFormData, reply: Result<string>, now: int)
    ensures var r := ProcessedSections(tables, form, reply, now);
      r.Success? ==> SectionsValid(r.value)
  {
    if ProcessOutcome(tables, form, reply).Success? {
      ParsedSectionsValid(ProcessOutcome(tables, form, reply).value, form.noteType == Assessment, form.noteFormat, now);
    }
  }

  /**
   * The awaited part of `processNote`: the prompt is built, and unless that
   * throws the service's reply is taken and a text parsed into sections.
   */
  method ProcessReply(tables: PromptTables, form: NoteFormData, reply: Result<string>, now: int)
    returns (r: Result<seq<NoteSection>>)
    ensures r == ProcessedSections(tables, form, reply, now)
    ensures r.Success? ==> SectionsValid(r.value)
  {
    var prompt := BuildPrompt(tables, ProcessNoteRequest(form));
    var outcome := if prompt.Failure? then Failure(prompt.error) else reply;
    assert outcome == ProcessOutcome(tables, form, reply);
    ProcessedSectionsValid(tables, form, reply, now);
    match outcome
    case Success(text) =>
      var sections := ParseSections(text, form.noteType == Assessment, form.noteFormat, now);
      r := Success(sections);
    case Failure(message) =>
      r := Failure(message);
  }

  /** The note once the first generation settles: the parsed sections, or the error with no sections; processing ends. */
  function Processed(n: Note, r: Result<seq<NoteSection>>): Note {
    match r
    case Success(sections) => n.(sections := sections, isProcessing := false)
    case Failure(message) => n.(error := Some(message), isProcessing := false, sections := [])
  }

  // ---------------------------------------------------------------------
  // Sections and their versions
  // ---------------------------------------------------------------------

  /** No two sections share an id. */
  predicate UniqueSectionIds(ss: seq<NoteSection>) {
    forall i, j | 0 <= i < j < |ss| :: ss[i].id != ss[j].id
  }

  /** The store's invariant on the sections of a note: distinct ids, version ids equal to positions. */
  predicate SectionsValid(ss: seq<NoteSection>) {
    UniqueSectionIds(ss) && forall i | 0 <= i < |ss| :: IdsArePositions(ss[i].versions)
  }

  /** Sections parsed from a cleaned text under a well-formed heading list satisfy the invariant. */
  lemma ParsedValid(cleaned: string, hs: seq<string>, now: int)
    requires WellFormed(hs)
    ensures SectionsValid(Parsed(cleaned, hs, now))
  {
    var r := Parsed(cleaned, hs, now);
    ParsedOrder(cleaned, hs, now);
    forall j | 0 <= j < |r| ensures IdsArePositions(r[j].versions) {
      ParsedSections(cleaned, hs, now, j);
    }
  }

  /** Parsed sections satisfy the invariant: distinct ids, and a single version numbered 0 each. */
  lemma ParsedSectionsValid(content: string, isAssessment: bool, noteFormat: string, now: int)
    requires isAssessment || Known(noteFormat)
    ensures SectionsValid(ParseSectionsSpec(content, isAssessment, noteFormat, now))
  {
    assert Known("girp");
    ParsedValid(CleanContentSpec(content, HeadingsFor(isAssessment, "girp")), HeadingsFor(isAssessment, noteFormat), now);
  }

  /** The first section with an id, as `find` returns it. */
  function FindSection(ss: seq<NoteSection>, sectionId: string): (r: Option<nat>)
    ensures r.Some? ==> r.value < |ss| && ss[r.value].id == sectionId && forall j | 0 <= j < r.value :: ss[j].id != sectionId
    ensures r.None? ==> forall j | 0 <= j < |ss| :: ss[j].id != sectionId
  {
    if ss == [] then None
    else if ss[0].id == sectionId then Some(0)
    else
      match FindSection(ss[1..], sectionId)
      case None => None
      case Some(i) => Some(i + 1)
  }

  /** `map` over the sections, applying the update to those with the id. */
  function UpdateMatching(ss: seq<NoteSection>, sectionId: string, f: NoteSection -> NoteSection): (r: seq<NoteSection>)
    ensures |r| == |ss|
    ensures forall i | 0 <= i < |ss| :: r[i] == if ss[i].id == sectionId then f(ss[i]) else ss[i]
  {
    seq(|ss|, i requires 0 <= i < |ss| => if ss[i].id == sectionId then f(ss[i]) else ss[i])
  }

  /** The largest version id, as `Math.max` over the ids. */
  function MaxId(vs: seq<SectionVersion>): (m: int)
    requires |vs| > 0
    ensures forall i | 0 <= i < |vs| :: vs[i].id <= m
    ensures exists i | 0 <= i < |vs| :: vs[i].id == m
  {
    if |vs| == 1 then vs[0].id
    else
      var m := MaxId(vs[1..]);
      assert forall i | 1 <= i < |vs| :: vs[i] == vs[1..][i - 1];
      if vs[0].id >= m then vs[0].id else m
  }

  /** The id of the next version: one more than the largest, or 0 for a section without versions. */
  function NextVersionId(vs: seq<SectionVersion>): (n: int)
    ensures forall i | 0 <= i < |vs| :: vs[i].id < n
    ensures vs == [] ==> n == 0
  {
    if |vs| > 0 then MaxId(vs) + 1 else 0
  }

  /** While ids are positions, the next id is the number of versions: the new version's position. */
  lemma NextVersionIdIsPosition(vs: seq<SectionVersion>)
    requires IdsArePositions(vs)
    ensures NextVersionId(vs) == |vs|
  {
    if |vs| > 0 {
      assert vs[|vs| - 1].id == |vs| - 1;
    }
  }

  /** A section being regenerated: processing, no error. */
  function Marked(s: NoteSection): NoteSection {
    s.(isProcessing := true, error := None)
  }

  /** A section whose regeneration failed: the error stored, processing cleared. */
  function Failed(s: NoteSection, message: string): NoteSection {
    s.(error := Some(message), isProcessing := false)
  }

  /** A section with a new version appended and selected, processing and error cleared. */
  function WithVersion(s: NoteSection, v: SectionVersion): NoteSection {
    s.(versions := s.versions + [v], currentVersion := v.id, isProcessing := false, error := None)
  }

  /** A section showing another version. */
  function Selected(s: NoteSection, versionId: int): NoteSection {
    s.(currentVersion := versionId)
  }

  /**
   * Starting a regeneration touches only the target: it is processing, with
   * no error, so its regenerate button is disabled; every other section is
   * kept, and so is the invariant.
   */
  lemma MarkedSpec(ss: seq<NoteSection>, sectionId: string)
    requires SectionsValid(ss)
    ensures var r := UpdateMatching(ss, sectionId, Marked);
      |r| == |ss| && SectionsValid(r)
      && (forall i | 0 <= i < |ss| && ss[i].id != sectionId :: r[i] == ss[i])
      && (forall i | 0 <= i < |ss| && ss[i].id == sectionId ::
            r[i] == ss[i].(isProcessing := true, error := None) && RegenerateDisabled(r[i]))
  {
    UpdateKeepsValid(ss, sectionId, Marked);
  }

  /** The success updater of a regeneration: the version numbered after the first matching section's versions, trimmed and stamped. */
  function AppendedVersion(ss: seq<NoteSection>, sectionId: string, text: string, now: int): seq<NoteSection> {
    match FindSection(ss, sectionId)
    case None => ss
    case Some(k) =>
      var v := SectionVersion(NextVersionId(ss[k].versions), Trim(text), now);
      UpdateMatching(ss, sectionId, (s: NoteSection) => WithVersion(s, v))
  }

  /** Updates that keep a section's id and versions keep the invariant. */
  lemma UpdateKeepsValid(ss: seq<NoteSection>, sectionId: string, f: NoteSection -> NoteSection)
    requires SectionsValid(ss)
    requires forall s :: f(s).id == s.id && f(s).versions == s.versions
    ensures SectionsValid(UpdateMatching(ss, sectionId, f))
  {
    var r := UpdateMatching(ss, sectionId, f);
    assert forall i | 0 <= i < |ss| :: r[i].id == ss[i].id && r[i].versions == ss[i].versions;
  }

  /**
   * A successful regeneration of a valid note appends to the section a
   * version numbered with its position and its trimmed text, selects it,
   * clears processing and error, keeps the invariant and leaves every other
   * section as it was.
   */
  lemma AppendedVersionSpec(ss: seq<NoteSection>, sectionId: string, text: string, now: int)
    requires SectionsValid(ss)
    ensures var r := AppendedVersion(ss, sectionId, text, now);
      |r| == |ss| && SectionsValid(r)
      && (forall i | 0 <= i < |ss| && ss[i].id != sectionId :: r[i] == ss[i])
      && (forall i | 0 <= i < |ss| && ss[i].id == sectionId ::
            r[i] == ss[i].(versions := ss[i].versions + [SectionVersion(|ss[i].versions|, Trim(text), now)],
                           currentVersion := |ss[i].versions|, isProcessing := false, error := None))
  {
    var r := AppendedVersion(ss, sectionId, text, now);
    match FindSection(ss, sectionId)
    case None =>
    case Some(k) =>
      NextVersionIdIsPosition(ss[k].versions);
      var v := SectionVersion(|ss[k].versions|, Trim(text), now);
      assert forall i | 0 <= i < |ss| && ss[i].id == sectionId :: i == k;
      forall i | 0 <= i < |ss| ensures IdsArePositions(r[i].versions) {
        if i == k {
          assert r[k].versions == ss[k].versions + [v];
        }
      }
      assert forall i | 0 <= i < |ss| :: r[i].id == ss[i].id;
  }

  /** The new version's id is larger than every id of the section, whatever the ids were. */
  lemma AppendedVersionFresh(ss: seq<NoteSection>, sectionId: string, text: string, now: int)
    ensures var r := AppendedVersion(ss, sectionId, text, now);
      FindSection(ss, sectionId).Some? ==>
        var k := FindSection(ss, sectionId).value;
        |r[k].versions| == |ss[k].versions| + 1
        && r[k].versions[..|ss[k].versions|] == ss[k].versions
        && (forall i | 0 <= i < |ss[k].versions| :: ss[k].versions[i].id < r[k].currentVersion)
        && r[k].versions[|ss[k].versions|].id == r[k].currentVersion
        && r[k].versions[|ss[k].versions|].content == Trim(text)
  {
  }

  /**
   * After a successful regeneration the regenerate button is enabled again
   * and the card shows the new text; a section that had a version has two
   * now, so its version picker is shown.
   */
  lemma RegeneratedShowsPicker(ss: seq<NoteSection>, sectionId: string, text: string, now: int)
    requires SectionsValid(ss)
    ensures var r := AppendedVersion(ss, sectionId, text, now);
      (forall i | 0 <= i < |ss| && ss[i].id == sectionId ::
        !RegenerateDisabled(r[i]) && Displayed(r[i]) == ContentText(Trim(text)))
      && (forall i | 0 <= i < |ss| && ss[i].id == sectionId && ss[i].versions != [] :: PickerShown(r[i]))
  {
    AppendedVersionSpec(ss, sectionId, text, now);
  }

  /** What a settled regeneration does to the sections: the new version on success, the error on failure. */
  function Settled(ss: seq<NoteSection>, sectionId: string, outcome: Result<string>, now: int): seq<NoteSection> {
    match outcome
    case Success(text) => AppendedVersion(ss, sectionId, text, now)
    case Failure(message) => UpdateMatching(ss, sectionId, (s: NoteSection) => Failed(s, message))
  }

  /** Settling a regeneration keeps the invariant. */
  lemma SettledValid(ss: seq<NoteSection>, sectionId: string, outcome: Result<string>, now: int)
    requires SectionsValid(ss)
    ensures SectionsValid(Settled(ss, sectionId, outcome, now))
  {
    match outcome
    case Success(text) => AppendedVersionSpec(ss, sectionId, text, now);
    case Failure(message) => FailedKeepsVersions(ss, sectionId, message, now);
  }

  /** A failed regeneration leaves versions and the current version alone and keeps the invariant. */
  lemma FailedKeepsVersions(ss: seq<NoteSection>, sectionId: string, message: string, now: int)
    ensures var r := Settled(ss, sectionId, Failure(message), now);
      |r| == |ss|
      && (forall i | 0 <= i < |ss| :: r[i].versions == ss[i].versions && r[i].currentVersion == ss[i].currentVersion)
      && (forall i | 0 <= i < |ss| && ss[i].id == sectionId :: r[i].error == Some(message) && !r[i].isProcessing)
      && (forall i | 0 <= i < |ss| && ss[i].id != sectionId :: r[i] == ss[i])
      && (SectionsValid(ss) ==> SectionsValid(r))
  {
    if SectionsValid(ss) {
      UpdateKeepsValid(ss, sectionId, (s: NoteSection) => Failed(s, message));
    }
  }

  // ---------------------------------------------------------------------
  // The regeneration prompt
  // ---------------------------------------------------------------------

  const REGEN_INTRO := "\nPlease regenerate the following section of the clinical documentation.\nThe documentation uses the "
  const REGEN_HEADERS := " format with these exact section headers:\n\n"
  const REGEN_SECTION := "\n\nRegenerate ONLY the content for this section:\n"
  const REGEN_CLOSING := "\n\nReturn ONLY the content without the section header. Maintain professional clinical language and ensure 5-10 complete sentences."

  /** The message of the `ReferenceError` the call of the unimported `getNoteFormatPrompt` raises. */
  const NOT_DEFINED_MESSAGE := "getNoteFormatPrompt is not defined"

  /** The prompt of a regeneration, as the code intends it: the format's heading list, then the heading to regenerate. */
  function RegenerationPrompt(format: string, heading: string): (r: Result<string>)
    ensures r.Success? <==> Known(format)
    ensures !Known(format) ==> r == Failure("Invalid note format: " + format)
    ensures r.Success? ==>
      r.value == REGEN_INTRO + ToUpper(format) + REGEN_HEADERS + GetNoteFormatPrompt(format).value
                 + REGEN_SECTION + heading + REGEN_CLOSING
  {
    match GetNoteFormatPrompt(format)
    case Failure(e) => Failure(e)
    case Success(template) =>
      Success(REGEN_INTRO + ToUpper(format) + REGEN_HEADERS + template + REGEN_SECTION + heading + REGEN_CLOSING)
  }

  /** What a regeneration settles with, as intended: the prompt's error, or the service's reply. */
  function RegenerationOutcome(format: string, heading: string, reply: Result<string>): (r: Result<string>)
    ensures Known(format) ==> r == reply
    ensures !Known(format) ==> r == Failure("Invalid note format: " + format)
  {
    match RegenerationPrompt(format, heading)
    case Failure(e) => Failure(e)
    case Success(_) => reply
  }

  /** What a regeneration settles with as written: the call throws before the service is asked. */
  function RegenerationOutcomeAsWritten(format: string, heading: string, reply: Result<string>): Result<string> {
    Failure(NOT_DEFINED_MESSAGE)
  }

  /** As written, no regeneration ever adds a version: every section keeps its versions, whatever the service replies. */
  lemma RegenerationAsWrittenNeverAppends(ss: seq<NoteSection>, sectionId: string, format: string, heading: string,
                                          reply: Result<string>, now: int)
    ensures var r := Settled(ss, sectionId, RegenerationOutcomeAsWritten(format, heading, reply), now);
      |r| == |ss|
      && (forall i | 0 <= i < |ss| :: r[i].versions == ss[i].versions)
      && (forall i | 0 <= i < |ss| && ss[i].id == sectionId :: r[i].error == Some(NOT_DEFINED_MESSAGE))
  {
    FailedKeepsVersions(ss, sectionId, NOT_DEFINED_MESSAGE, now);
  }

  /** As intended, a known format and a successful reply add exactly one version to the section. */
  lemma RegenerationAppends(ss: seq<NoteSection>, sectionId: string, format: string, heading: string,
                            text: string, now: int)
    requires SectionsValid(ss) && Known(format)
    ensures var r := Settled(ss, sectionId, RegenerationOutcome(format, heading, Success(text)), now);
      |r| == |ss|
      && (forall i | 0 <= i < |ss| && ss[i].id == sectionId ::
            r[i].versions == ss[i].versions + [SectionVersion(|ss[i].versions|, Trim(text), now)])
  {
    AppendedVersionSpec(ss, sectionId, text, now);
  }

  // ---------------------------------------------------------------------
  // The store
  // ---------------------------------------------------------------------

  /** The invariant of the stored note: when there is one, its sections keep `SectionsValid`. */
  predicate NoteValid(note: Option<Note>) {
    note.Some? ==> SectionsValid(note.value.sections)
  }

  /** The note slot and the format last used, as the application component keeps them. */
  class NoteStore {
    var note: Option<Note>
    var currentFormat: string

    predicate Valid()
      reads this
    {
      NoteValid(note)
    }

    constructor ()
      ensures Valid() && note == None && currentFormat == "girp"
    {
      note := None;
      currentFormat := "girp";
    }

    /** `clearNote`. */
    method ClearNote()
      modifies this
      ensures Valid() && note == None && currentFormat == old(currentFormat)
    {
      note := None;
    }

    /** The first half of `processNote`: the format remembered, the new note stored; returns the note's content. */
    method StartProcessing(form: NoteFormData, noteId: string) returns (content: string)
      modifies this
      ensures Valid()
      ensures content == NoteContent(form)
      ensures currentFormat == form.noteFormat && note == Some(NewNote(noteId, content))
    {
      currentFormat := form.noteFormat;
      content := NoteContent(form);
      note := Some(NewNote(noteId, content));
    }

    /**
     * The second half of `processNote`: the prompt is built, and unless that
     * throws, the service's reply is taken; a text is parsed into the
     * note's sections, an error is stored with the sections emptied; either
     * way processing ends. A cleared note stays cleared.
     */
    method FinishProcessing(tables: PromptTables, form: NoteFormData, reply: Result<string>, now: int)
      requires Valid()
      modifies this
      ensures Valid() && currentFormat == old(currentFormat)
      ensures old(note).None? ==> note == None
      ensures old(note).Some? ==> note == Some(Processed(old(note).value, ProcessedSections(tables, form, reply, now)))
    {
      var r := ProcessReply(tables, form, reply, now);
      if note.Some? {
        note := Some(Processed(note.value, r));
      }
    }

    /**
     * The start of `handleRegenerateSection`: with an original content and
     * a section of that id, the section is marked as processing with its
     * error cleared, and its heading is returned for the prompt; otherwise
     * nothing changes.
     */
    method StartRegeneration(sectionId: string) returns (heading: Option<string>)
      requires Valid()
      modifies this
      ensures Valid() && currentFormat == old(currentFormat)
      ensures var n := old(note);
        if n.Some? && n.value.originalContent.Some? && n.value.originalContent.value != ""
           && FindSection(n.value.sections, sectionId).Some?
        then heading == Some(n.value.sections[FindSection(n.value.sections, sectionId).value].heading)
             && note == Some(n.value.(sections := UpdateMatching(n.value.sections, sectionId, Marked)))
        else heading == None && note == n
    {
      if note.None? || note.value.originalContent.None? || note.value.originalContent.value == "" {
        return None;
      }
      var found := FindSection(note.value.sections, sectionId);
      if found.None? {
        return None;
      }
      heading := Some(note.value.sections[found.value].heading);
      UpdateKeepsValid(note.value.sections, sectionId, Marked);
      note := Some(note.value.(sections := UpdateMatching(note.value.sections, sectionId, Marked)));
    }

    /**
     * The rest of `handleRegenerateSection` as intended: the prompt is built
     * for the remembered format, and unless that throws the service's reply
     * is taken; the section then gets the new version or the error.
     */
    method CompleteRegeneration(sectionId: string, heading: string, reply: Result<string>, now: int)
      requires Valid()
      modifies this
      ensures Valid() && currentFormat == old(currentFormat)
      ensures old(note).None? ==> note == None
      ensures old(note).Some? ==>
        note == Some(old(note).value.(sections :=
          Settled(old(note).value.sections, sectionId, RegenerationOutcome(currentFormat, heading, reply), now)))
    {
      var prompt := RegenerationPrompt(currentFormat, heading);
      var outcome := if prompt.Failure? then Failure(prompt.error) else reply;
      if note.Some? {
        var ss := note.value.sections;
        SettledValid(ss, sectionId, outcome, now);
        note := Some(note.value.(sections := Settled(ss, sectionId, outcome, now)));
      }
    }

    /** The rest of `handleRegenerateSection` as written: the unimported call throws, and the section gets that error. */
    method CompleteRegenerationAsWritten(sectionId: string, heading: string, reply: Result<string>, now: int)
      requires Valid()
      modifies this
      ensures Valid() && currentFormat == old(currentFormat)
      ensures old(note).None? ==> note == None
      ensures old(note).Some? ==>
        note == Some(old(note).value.(sections :=
          Settled(old(note).value.sections, sectionId, RegenerationOutcomeAsWritten(currentFormat, heading, reply), now)))
    {
      if note.Some? {
        var ss := note.value.sections;
        FailedKeepsVersions(ss, sectionId, NOT_DEFINED_MESSAGE, now);
        note := Some(note.value.(sections := Settled(ss, sectionId, Failure(NOT_DEFINED_MESSAGE), now)));
      }
    }

    /** `handleVersionChange`: the section of that id shows the given version; no bounds check. */
    method VersionChange(sectionId: string, versionId: int)
      requires Valid()
      modifies this
      ensures Valid() && currentFormat == old(currentFormat)
      ensures old(note).None? ==> note == None
      ensures old(note).Some? ==>
        note == Some(old(note).value.(sections :=
          UpdateMatching(old(note).value.sections, sectionId, (s: NoteSection) => Selected(s, versionId))))
    {
      if note.Some? {
        UpdateKeepsValid(note.value.sections, sectionId, (s: NoteSection) => Selected(s, versionId));
        note := Some(note.value.(sections := UpdateMatching(note.value.sections, sectionId, (s: NoteSection) => Selected(s, versionId))));
      }
    }
  }

  /**
   * The picker's guard keeps the shown version in range: a version change
   * with what the guard reports leaves the section showing an existing
   * version, which is the one with that id.
   */
  lemma GuardedVersionChange(ss: seq<NoteSection>, sectionId: string, value: string, k: nat)
    requires SectionsValid(ss) && k < |ss| && ss[k].id == sectionId
    requires VersionChoice(ss[k].versions, value).Some?
    ensures var v := VersionChoice(ss[k].versions, value).value;
      var r := UpdateMatching(ss, sectionId, (s: NoteSection) => Selected(s, v));
      0 <= r[k].currentVersion < |r[k].versions| && r[k].versions[r[k].currentVersion].id == v
  {
  }
}
