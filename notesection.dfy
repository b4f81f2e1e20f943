/**
 * The section card of a processed note: the version picker, shown once a
 * section has been regenerated, the guard on the version it reports, the
 * labels of its options, and the text the card shows.
 */
module NoteSectionView {
  import opened JsString
  import opened Types

  /** Version ids are the positions of the versions: the invariant the store keeps. */
  predicate IdsArePositions(versions: seq<SectionVersion>) {
    forall i | 0 <= i < |versions| :: versions[i].id == i
  }

  /** The picker is rendered only for a section with more than one version. */
  predicate PickerShown(section: NoteSection) {
    |section.versions| > 1
  }

  /** The regenerate button and the picker are disabled while the section is being regenerated. */
  predicate RegenerateDisabled(section: NoteSection) {
    section.isProcessing
  }

  /**
   * The `onChange` guard of the picker: the chosen option's value, read
   * with `parseInt`, is reported only when it is a number that indexes an
   * existing version.
   */
  function VersionChoice(versions: seq<SectionVersion>, value: string): (r: Option<int>)
    ensures r.Some? ==> 0 <= r.value < |versions| && ParseInt(value) == Some(r.value)
    ensures r.None? ==> ParseInt(value).None? || !(0 <= ParseInt(value).value < |versions|)
  {
    match ParseInt(value)
    case None => None
    case Some(v) => if 0 <= v < |versions| then Some(v) else None
  }

  /**
   * An option's value is its version's id. While ids are positions, the
   * option of the version at position `i` reports `i`: the guard lets every
   * option through, and what it reports is the position it was listed at.
   */
  lemma VersionChoiceOfOption(versions: seq<SectionVersion>, i: nat)
    requires IdsArePositions(versions) && i < |versions|
    ensures VersionChoice(versions, NatToString(versions[i].id)) == Some(i)
  {
    ParseIntNatToString(i);
  }

  /** Nothing that is not a listed position gets through the guard. */
  lemma VersionChoiceRejects(versions: seq<SectionVersion>, value: string)
    ensures (forall i | 0 <= i < |versions| :: ParseInt(value) != Some(i)) ==> VersionChoice(versions, value).None?
    ensures |versions| <= 1 && VersionChoice(versions, value).Some? ==> VersionChoice(versions, value) == Some(0)
  {
  }

  /** The label of the option listed at a position. */
  function OptionLabel(index: nat): (caption: string)
    ensures index == 0 <==> caption == "Original"
    ensures index > 0 ==> |caption| > 8 && caption[..8] == "Version " && ParseInt(caption[8..]) == Some(index)
  {
    if index == 0 then "Original"
    else
      var caption := "Version " + NatToString(index);
      assert caption[8..] == NatToString(index);
      ParseIntNatToString(index);
      caption
  }

  /** The picker's option labels, one per version, in order. */
  function OptionLabels(versions: seq<SectionVersion>): (labels: seq<string>)
    ensures |labels| == |versions|
    ensures forall i | 0 <= i < |versions| :: labels[i] == OptionLabel(i)
  {
    seq(|versions|, i requires 0 <= i < |versions| => OptionLabel(i))
  }

  /** No two options carry the same label. */
  lemma OptionLabelsDistinct(versions: seq<SectionVersion>)
    ensures forall i, j | 0 <= i < j < |versions| :: OptionLabels(versions)[i] != OptionLabels(versions)[j]
  {
    var labels := OptionLabels(versions);
    forall i, j | 0 <= i < j < |versions| ensures labels[i] != labels[j] {
      assert labels[i] == OptionLabel(i) && labels[j] == OptionLabel(j);
    }
  }

  /** What the card shows: the error text, or the text of a version. */
  datatype Shown = ErrorText(message: string) | ContentText(text: string)

  /**
   * The body of the card: a non-empty error replaces the content; otherwise
   * the version at position `currentVersion` (not the one with that id), or
   * nothing when there is no version at that position.
   */
  function Displayed(section: NoteSection): (r: Shown)
    ensures r.ErrorText? <==> section.error.Some? && section.error.value != ""
    ensures r.ErrorText? ==> r.message == section.error.value
    ensures r.ContentText? && 0 <= section.currentVersion < |section.versions| ==>
      r.text == section.versions[section.currentVersion].content
    ensures r.ContentText? && !(0 <= section.currentVersion < |section.versions|) ==> r.text == ""
  {
    if section.error.Some? && section.error.value != "" then ErrorText(section.error.value)
    else if 0 <= section.currentVersion < |section.versions| then ContentText(section.versions[section.currentVersion].content)
    else ContentText("")
  }

  /**
   * While ids are positions, the shown text is the version whose id is the
   * current version, so looking it up by position is looking it up by id.
   */
  lemma DisplayedById(section: NoteSection, i: nat)
    requires IdsArePositions(section.versions) && i < |section.versions|
    requires section.versions[i].id == section.currentVersion
    requires section.error.None?
    ensures Displayed(section) == ContentText(section.versions[i].content)
  {
  }
}
