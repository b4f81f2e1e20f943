/**
 * The format prompt: the headings of a note format, each followed by a
 * colon, separated by blank lines; an unknown format id is an error.
 */
module FormatPrompts {
  import opened JsString
  import opened Types
  import opened Formats

  /** Each heading with its colon. */
  function Labels(hs: seq<string>): (ls: seq<string>)
    ensures |ls| == |hs|
    ensures forall k | 0 <= k < |hs| :: ls[k] == hs[k] + ":"
  {
    if hs == [] then [] else [hs[0] + ":"] + Labels(hs[1..])
  }

  /** `formatSections`. */
  function FormatSections(hs: seq<string>): string {
    Join(Labels(hs), "\n\n")
  }

  /** `getNoteFormatPrompt`. */
  function GetNoteFormatPrompt(fmt: string): Result<string> {
    if Known(fmt) then Success(FormatSections(NOTE_FORMATS[fmt].sections))
    else Failure("Invalid note format: " + fmt)
  }

  /** A heading list without line breaks comes back from the prompt by splitting at blank lines. */
  lemma {:induction false} SplitFormatSections(hs: seq<string>)
    requires WellFormed(hs)
    ensures Split(FormatSections(hs), "\n\n") == Labels(hs)
  {
    var ls := Labels(hs);
    forall k | 0 <= k < |ls| ensures SepFree(ls[k], "\n\n") {
      PlainHasNoColonOrBreak(hs[k]);
      assert Avoids(ls[k], "\n\n") by {
        forall i | 0 <= i < |ls[k]| ensures ls[k][i] !in "\n\n" {
          if i < |hs[k]| {
            assert ls[k][i] == hs[k][i];
            assert !IsSpace(hs[k][i]) || hs[k][i] == ' ';
          }
        }
      }
      AvoidsSepFree(ls[k], "\n\n");
    }
    SplitJoin(ls, "\n\n");
  }

  /** The prompt of a known format lists its headings; an unknown id fails with the source's message. */
  lemma GetNoteFormatPromptSpec(fmt: string)
    ensures Known(fmt) ==>
              GetNoteFormatPrompt(fmt).Success?
              && Split(GetNoteFormatPrompt(fmt).value, "\n\n") == Labels(NOTE_FORMATS[fmt].sections)
    ensures !Known(fmt) ==> GetNoteFormatPrompt(fmt) == Failure("Invalid note format: " + fmt)
  {
    if Known(fmt) {
      CatalogWellFormed();
      SplitFormatSections(NOTE_FORMATS[fmt].sections);
    }
  }

  /** Every known format gives a non-empty prompt that begins with its first heading. */
  lemma {:induction false} GetNoteFormatPromptNonEmpty(fmt: string)
    requires Known(fmt)
    ensures GetNoteFormatPrompt(fmt).Success?
    ensures |GetNoteFormatPrompt(fmt).value| > |NOTE_FORMATS[fmt].sections[0]|
    ensures GetNoteFormatPrompt(fmt).value[..|NOTE_FORMATS[fmt].sections[0]| + 1] == NOTE_FORMATS[fmt].sections[0] + ":"
  {
    CatalogWellFormed();
    var hs := NOTE_FORMATS[fmt].sections;
    var ls := Labels(hs);
    if |ls| == 1 {
      assert Join(ls, "\n\n") == ls[0];
    } else {
      assert Join(ls, "\n\n") == ls[0] + "\n\n" + Join(ls[1..], "\n\n");
    }
  }
}
