/**
 * The note form: its selections, the accordion of option panels, the guided
 * answers, and the handlers that update them; the pure updaters the
 * handlers pass to their setters; the submit predicate and the form data it
 * hands on.
 */
module NoteInput {
  import opened JsString
  import opened Types
  import opened TextInsertion

  /** No id occurs twice. */
  predicate NoDup(xs: seq<string>) {
    forall i, j | 0 <= i < j < |xs| :: xs[i] != xs[j]
  }

  /** `prev.includes(id) ? prev : [...prev, id]`: the add-therapy updater. */
  function AddId(xs: seq<string>, id: string): (r: seq<string>)
    ensures id in r
    ensures forall x :: x in r <==> x in xs || x == id
    ensures |xs| <= |r| <= |xs| + 1 && r[..|xs|] == xs
    ensures NoDup(xs) ==> NoDup(r)
  {
    if id in xs then xs else xs + [id]
  }

  /** A list with a head: no duplicate exactly when the head is not in the tail and the tail has none. */
  lemma NoDupCons(x: string, t: seq<string>)
    ensures NoDup([x] + t) <==> x !in t && NoDup(t)
  {
    var xs := [x] + t;
    if x !in t && NoDup(t) {
      forall i, j | 0 <= i < j < |xs| ensures xs[i] != xs[j] {
        if i > 0 {
          assert xs[i] == t[i - 1] && xs[j] == t[j - 1];
        } else {
          assert xs[j] == t[j - 1];
        }
      }
    }
    if x in t {
      var j :| 0 <= j < |t| && t[j] == x;
      assert xs[0] == xs[j + 1];
    }
    if NoDup(xs) {
      forall i, j | 0 <= i < j < |t| ensures t[i] != t[j] {
        assert t[i] == xs[i + 1] && t[j] == xs[j + 1];
      }
    }
  }

  /** `prev.filter(x => x !== id)`: every occurrence of the id dropped. */
  function Without(xs: seq<string>, id: string): (r: seq<string>)
    ensures |r| <= |xs|
    ensures multiset(r) == multiset(xs)[id := 0]
    ensures id !in xs ==> r == xs
  {
    if xs == [] then []
    else
      assert xs == [xs[0]] + xs[1..];
      if xs[0] == id then Without(xs[1..], id)
      else [xs[0]] + Without(xs[1..], id)
  }

  /** After the filter, exactly the other ids remain. */
  lemma WithoutMembers(xs: seq<string>, id: string)
    ensures forall x :: x in Without(xs, id) <==> x in xs && x != id
  {
    forall x ensures x in Without(xs, id) <==> x in xs && x != id {
      assert x in Without(xs, id) <==> x in multiset(Without(xs, id));
      assert x in xs <==> x in multiset(xs);
    }
  }

  /** The filter keeps a list free of duplicates. */
  lemma {:induction false} WithoutNoDup(xs: seq<string>, id: string)
    requires NoDup(xs)
    ensures NoDup(Without(xs, id))
    decreases |xs|
  {
    if xs != [] {
      var t := xs[1..];
      assert xs == [xs[0]] + t;
      NoDupCons(xs[0], t);
      WithoutNoDup(t, id);
      if xs[0] != id {
        WithoutMembers(t, id);
        NoDupCons(xs[0], Without(t, id));
      }
    }
  }

  /** The filter works piece by piece, so the remaining ids keep their order. */
  lemma {:induction false} WithoutAppend(a: seq<string>, b: seq<string>, id: string)
    ensures Without(a + b, id) == Without(a, id) + Without(b, id)
    decreases |a|
  {
    if a == [] {
      assert a + b == b;
    } else {
      assert (a + b)[0] == a[0] && (a + b)[1..] == a[1..] + b;
      WithoutAppend(a[1..], b, id);
    }
  }

  /** The toggle updater of plans, responses, concerns and observations. */
  function Toggle(xs: seq<string>, id: string): (r: seq<string>)
    ensures NoDup(xs) ==> NoDup(r)
  {
    if id in xs then
      (if NoDup(xs) then WithoutNoDup(xs, id); Without(xs, id) else Without(xs, id))
    else xs + [id]
  }

  /** A toggle flips the membership of its id and leaves every other id as it was. */
  lemma ToggleMembers(xs: seq<string>, id: string)
    ensures id in Toggle(xs, id) <==> id !in xs
    ensures forall x | x != id :: x in Toggle(xs, id) <==> x in xs
    ensures id !in xs ==> Toggle(xs, id) == xs + [id]
  {
    WithoutMembers(xs, id);
  }

  /** Toggling an absent id twice gives the list back unchanged. */
  lemma ToggleTwiceAbsent(xs: seq<string>, id: string)
    requires id !in xs
    ensures Toggle(Toggle(xs, id), id) == xs
  {
    assert id in xs + [id];
    WithoutAppend(xs, [id], id);
    assert Without([id], id) == [];
  }

  /** A duplicate-free list holds each of its ids once. */
  lemma {:induction false} NoDupCount(xs: seq<string>, id: string)
    requires NoDup(xs) && id in xs
    ensures multiset(xs)[id] == 1
    decreases |xs|
  {
    var t := xs[1..];
    assert xs == [xs[0]] + t;
    NoDupCons(xs[0], t);
    if xs[0] == id {
      assert multiset(t)[id] == 0;
    } else {
      NoDupCount(t, id);
    }
  }

  /** Toggling a present id of a duplicate-free list twice moves it to the end and keeps the same ids. */
  lemma ToggleTwicePresent(xs: seq<string>, id: string)
    requires id in xs && NoDup(xs)
    ensures Toggle(Toggle(xs, id), id) == Without(xs, id) + [id]
    ensures multiset(Toggle(Toggle(xs, id), id)) == multiset(xs)
  {
    var w := Without(xs, id);
    assert Toggle(xs, id) == w;
    WithoutMembers(xs, id);
    assert id !in w;
    ToggleMembers(w, id);
    NoDupCount(xs, id);
    assert multiset(w + [id]) == multiset(w) + multiset{id};
    PutBack(multiset(xs), id);
  }

  /** Dropping the one copy of an id from a bag and adding it back gives the bag. */
  lemma PutBack(m: multiset<string>, id: string)
    requires m[id] == 1
    ensures m[id := 0] + multiset{id} == m
  {
    assert forall x :: (m[id := 0] + multiset{id})[x] == m[x];
  }

  /** The panel keys of the accordion. */
  const FORMAT_PANEL := "format"
  const THERAPY_PANEL := "therapy"
  const CONCERNS_PANEL := "concerns"
  const OBSERVATIONS_PANEL := "observations"
  const RESPONSE_PANEL := "response"
  const PLANS_PANEL := "plans"

  /** The collapsed accordion the form starts with and clear restores: all six panels. */
  const ALL_COLLAPSED: map<string, bool> := map[
    FORMAT_PANEL := false, THERAPY_PANEL := false, CONCERNS_PANEL := false,
    OBSERVATIONS_PANEL := false, RESPONSE_PANEL := false, PLANS_PANEL := false]

  /** The collapsed accordion a note-type change sets: five panels, without the format one. */
  const TYPE_CHANGE_COLLAPSED: map<string, bool> := map[
    THERAPY_PANEL := false, CONCERNS_PANEL := false,
    OBSERVATIONS_PANEL := false, RESPONSE_PANEL := false, PLANS_PANEL := false]

  /** At most one panel is open. */
  predicate AtMostOneOpen(m: map<string, bool>) {
    forall a, b | a in m && b in m && m[a] && m[b] :: a == b
  }

  /** Every panel of the two collapsed accordions is closed. */
  lemma CollapsedClosed()
    ensures AtMostOneOpen(ALL_COLLAPSED) && AtMostOneOpen(TYPE_CHANGE_COLLAPSED)
  {
    assert forall k | k in ALL_COLLAPSED :: !ALL_COLLAPSED[k];
    assert forall k | k in TYPE_CHANGE_COLLAPSED :: !TYPE_CHANGE_COLLAPSED[k];
  }

  /**
   * The updater of `handleSectionExpand`: expanding sets every existing key
   * false and the panel true; collapsing sets only the panel false.
   */
  function Expand(prev: map<string, bool>, sectionId: string, expanded: bool): (r: map<string, bool>)
    ensures r.Keys == prev.Keys + {sectionId}
    ensures AtMostOneOpen(prev) ==> AtMostOneOpen(r)
  {
    if expanded then (map k | k in prev :: false)[sectionId := true]
    else prev[sectionId := false]
  }

  /** Expanding leaves the panel the only open one; collapsing changes nothing but the panel. */
  lemma ExpandSpec(prev: map<string, bool>, sectionId: string, expanded: bool)
    ensures Expand(prev, sectionId, expanded)[sectionId] == expanded
    ensures expanded ==> forall k | k in Expand(prev, sectionId, expanded) :: Expand(prev, sectionId, expanded)[k] <==> k == sectionId
    ensures !expanded ==> forall k | k in prev && k != sectionId :: Expand(prev, sectionId, expanded)[k] == prev[k]
    ensures !expanded ==> forall k | k in Expand(prev, sectionId, expanded) :: Expand(prev, sectionId, expanded)[k] ==> prev[k]
  {
  }

  /** A record: no key twice. */
  predicate UniqueKeys(es: Entries) {
    forall i, j | 0 <= i < j < |es| :: es[i].0 != es[j].0
  }

  /** Where a key stands in a record, if it has the key. */
  function KeyIndex(es: Entries, key: string): (r: Option<nat>)
    ensures r.Some? ==> r.value < |es| && es[r.value].0 == key && forall j | 0 <= j < r.value :: es[j].0 != key
    ensures r.None? ==> forall j | 0 <= j < |es| :: es[j].0 != key
  {
    if es == [] then None
    else if es[0].0 == key then Some(0)
    else
      match KeyIndex(es[1..], key)
      case None => None
      case Some(i) => Some(i + 1)
  }

  /** The value a record holds under a key (`undefined` when it has none). */
  function Lookup(es: Entries, key: string): Option<string> {
    match KeyIndex(es, key)
    case None => None
    case Some(i) => Some(es[i].1)
  }

  /** `{ ...prev, [id]: value }`: an existing key keeps its place, a new one is added last. */
  function SetEntry(es: Entries, key: string, value: string): (r: Entries)
    ensures key in KeysOf(es) ==> |r| == |es|
    ensures key !in KeysOf(es) ==> |r| == |es| + 1 && r[..|es|] == es && r[|es|] == (key, value)
    ensures forall j | 0 <= j < |es| :: r[j].0 == es[j].0
  {
    match KeyIndex(es, key)
    case None => es + [(key, value)]
    case Some(i) => es[i := (key, value)]
  }

  /** The keys of a record, in enumeration order. */
  function KeysOf(es: Entries): (ks: set<string>)
  {
    set i | 0 <= i < |es| :: es[i].0
  }

  /** After the update the key holds the new value and every other key its old one; keys stay unique. */
  lemma SetEntrySpec(es: Entries, key: string, value: string)
    ensures Lookup(SetEntry(es, key, value), key) == Some(value)
    ensures forall k | k != key :: Lookup(SetEntry(es, key, value), k) == Lookup(es, k)
    ensures KeysOf(SetEntry(es, key, value)) == KeysOf(es) + {key}
    ensures UniqueKeys(es) ==> UniqueKeys(SetEntry(es, key, value))
  {
    var r := SetEntry(es, key, value);
    forall k | k != key ensures Lookup(r, k) == Lookup(es, k) {
      SetEntryOther(es, key, value, k);
    }
    assert r[|r| - 1] == (key, value) || r[KeyIndex(es, key).value] == (key, value);
  }

  /** An update leaves the value under any other key alone. */
  lemma SetEntryOther(es: Entries, key: string, value: string, k: string)
    requires k != key
    ensures Lookup(SetEntry(es, key, value), k) == Lookup(es, k)
  {
    var r := SetEntry(es, key, value);
    match KeyIndex(es, k)
    case None =>
    case Some(i) => assert r[i] == es[i];
  }

  /** `Object.values(guidedResponses).some(r => r.trim())`. */
  function AnyAnswered(es: Entries): (r: bool)
    ensures r <==> exists i | 0 <= i < |es| :: Trim(es[i].1) != ""
  {
    if es == [] then false
    else
      assert forall i | 1 <= i < |es| :: es[i] == es[1..][i - 1];
      Trim(es[0].1) != "" || AnyAnswered(es[1..])
  }

  /** The submit predicate: a guided form with some non-blank answer, or an unguided one with non-blank content within the limit. */
  predicate CanSubmit(isGuided: bool, guidedResponses: Entries, content: string, overLimit: bool) {
    (isGuided && AnyAnswered(guidedResponses)) || (!isGuided && Trim(content) != "" && !overLimit)
  }

  /** When the submit button is disabled. */
  predicate SubmitDisabled(isProcessing: bool, isGuided: bool, guidedResponses: Entries, content: string, overLimit: bool) {
    isProcessing || (if isGuided then !AnyAnswered(guidedResponses) else Trim(content) == "" || overLimit)
  }

  /** Outside processing the button is disabled exactly when submitting would do nothing; while processing it is always disabled. */
  lemma SubmitDisabledSpec(isProcessing: bool, isGuided: bool, guidedResponses: Entries, content: string, overLimit: bool)
    ensures !isProcessing ==> (SubmitDisabled(isProcessing, isGuided, guidedResponses, content, overLimit) <==> !CanSubmit(isGuided, guidedResponses, content, overLimit))
    ensures isProcessing ==> SubmitDisabled(isProcessing, isGuided, guidedResponses, content, overLimit)
    ensures CanSubmit(isGuided, guidedResponses, content, overLimit) <==>
      (isGuided && exists i | 0 <= i < |guidedResponses| :: Trim(guidedResponses[i].1) != "")
      || (!isGuided && !AllSpace(content) && !overLimit)
  {
    TrimEmptyIff(content);
  }

  lemma TrimEmptyIff(s: string)
    ensures Trim(s) == "" <==> AllSpace(s)
  {
  }

  /** `customInstructions.trim() || undefined`. */
  function CustomOut(customInstructions: string): (r: Option<string>)
    ensures r.None? <==> AllSpace(customInstructions)
    ensures r.Some? ==> r.value == Trim(customInstructions) && r.value != "" && Trim(r.value) == r.value
  {
    TrimIdempotent(customInstructions);
    if Trim(customInstructions) == "" then None else Some(Trim(customInstructions))
  }

  /** The component state of the note form. */
  class NoteForm {
    var content: string
    var selectedTherapies: seq<string>
    var selectedConcerns: seq<string>
    var selectedObservations: seq<string>
    var selectedResponses: seq<string>
    var selectedPlans: seq<string>
    var expandedSections: map<string, bool>
    var noteFormat: string
    var noteType: NoteType
    var isGuided: bool
    var guidedResponses: Entries
    var customInstructions: string
    /** The text area the quick-add buttons insert into, when it is mounted. */
    const textarea: TextArea?

    /** No selection holds an id twice, every answer has its own key, at most one panel is open. */
    predicate Valid()
      reads this
    {
      NoDup(selectedTherapies) && NoDup(selectedConcerns) && NoDup(selectedObservations)
      && NoDup(selectedResponses) && NoDup(selectedPlans)
      && UniqueKeys(guidedResponses) && AtMostOneOpen(expandedSections)
    }

    /** The controlled text area shows the content (`value={content}`), with a selection inside it. */
    predicate Synced()
      reads this, textarea
    {
      textarea != null ==> textarea.Valid() && textarea.value == content
    }

    /**
     * React's commit of `value={content}`: the box is given the content when
     * it shows something else, and then, as for any change of a text
     * control's value, the cursor goes to the end of the new value.
     */
    method Render()
      requires textarea != null ==> textarea.Valid()
      modifies textarea
      ensures Synced()
      ensures textarea != null && old(textarea.value) == content ==> unchanged(textarea)
      ensures textarea != null && old(textarea.value) != content ==>
        textarea.selectionStart == textarea.selectionEnd == |content|
    {
      if textarea != null && textarea.value != content {
        textarea.value := content;
        textarea.selectionStart := |content|;
        textarea.selectionEnd := |content|;
      }
    }

    /** The initial state. */
    constructor (textarea: TextArea?)
      ensures Valid()
      ensures content == "" && selectedTherapies == [] && selectedConcerns == [] && selectedObservations == []
      ensures selectedResponses == [] && selectedPlans == [] && expandedSections == ALL_COLLAPSED
      ensures noteFormat == "girp" && noteType == Session && !isGuided && guidedResponses == []
      ensures customInstructions == "" && this.textarea == textarea
    {
      content := "";
      selectedTherapies := [];
      selectedConcerns := [];
      selectedObservations := [];
      selectedResponses := [];
      selectedPlans := [];
      expandedSections := ALL_COLLAPSED;
      noteFormat := "girp";
      noteType := Session;
      isGuided := false;
      guidedResponses := [];
      customInstructions := "";
      this.textarea := textarea;
      CollapsedClosed();
    }

    /** The form data `handleSubmit` hands on. */
    function FormData(): (d: NoteFormData)
      reads this
      ensures d.guidedResponses.Some? <==> isGuided
      ensures d.customInstructions == CustomOut(customInstructions)
    {
      NoteFormData(content, selectedTherapies, selectedConcerns, selectedObservations,
        selectedResponses, selectedPlans, noteType, noteFormat, isGuided,
        if isGuided then Some(guidedResponses) else None, CustomOut(customInstructions))
    }

    /** `handleSubmit`: the data is handed on exactly when the submit predicate holds; the form itself is unchanged. */
    method Submit(overLimit: bool) returns (submitted: Option<NoteFormData>)
      ensures submitted.Some? <==> CanSubmit(isGuided, guidedResponses, content, overLimit)
      ensures submitted.Some? ==> submitted.value == FormData()
    {
      var hasValidGuidedResponses := isGuided && AnyAnswered(guidedResponses);
      var hasValidContent := !isGuided && Trim(content) != "" && !overLimit;
      if hasValidGuidedResponses || hasValidContent {
        submitted := Some(FormData());
      } else {
        submitted := None;
      }
    }

    /** `handleClear`: everything emptied, guided off, format back to GIRP, all six panels collapsed; the note type stays. */
    method Clear()
      modifies this
      ensures Valid()
      ensures content == "" && selectedTherapies == [] && selectedConcerns == [] && selectedObservations == []
      ensures selectedResponses == [] && selectedPlans == [] && expandedSections == ALL_COLLAPSED
      ensures noteFormat == "girp" && noteType == old(noteType) && !isGuided && guidedResponses == []
      ensures customInstructions == ""
    {
      content := "";
      selectedTherapies := [];
      isGuided := false;
      guidedResponses := [];
      customInstructions := "";
      selectedConcerns := [];
      selectedObservations := [];
      selectedResponses := [];
      selectedPlans := [];
      expandedSections := ALL_COLLAPSED;
      noteFormat := "girp";
      CollapsedClosed();
    }

    /**
     * `handleNoteTypeChange`, followed by the effect that turns guided mode on
     * for assessments: everything emptied, five panels collapsed (the format
     * key is dropped), guided exactly for assessments; the format stays.
     */
    method NoteTypeChange(t: NoteType)
      modifies this
      ensures Valid()
      ensures noteType == t && isGuided == (t == Assessment)
      ensures content == "" && selectedTherapies == [] && selectedConcerns == [] && selectedObservations == []
      ensures selectedResponses == [] && selectedPlans == [] && expandedSections == TYPE_CHANGE_COLLAPSED
      ensures guidedResponses == [] && customInstructions == ""
      ensures noteFormat == old(noteFormat)
    {
      noteType := t;
      content := "";
      selectedTherapies := [];
      guidedResponses := [];
      customInstructions := "";
      selectedConcerns := [];
      selectedObservations := [];
      selectedResponses := [];
      selectedPlans := [];
      expandedSections := TYPE_CHANGE_COLLAPSED;
      // The handler sets guided mode to the type being an assessment; the
      // effect that follows sets it for assessments again, to the same value.
      isGuided := t == Assessment;
      CollapsedClosed();
    }

    method AddTherapy(typeId: string)
      requires Valid()
      modifies this
      ensures Valid()
      ensures selectedTherapies == AddId(old(selectedTherapies), typeId)
      ensures content == old(content) && selectedConcerns == old(selectedConcerns)
      ensures selectedObservations == old(selectedObservations) && selectedResponses == old(selectedResponses)
      ensures selectedPlans == old(selectedPlans) && expandedSections == old(expandedSections)
      ensures noteFormat == old(noteFormat) && noteType == old(noteType) && isGuided == old(isGuided)
      ensures guidedResponses == old(guidedResponses) && customInstructions == old(customInstructions)
    {
      selectedTherapies := AddId(selectedTherapies, typeId);
    }

    method RemoveTherapy(typeId: string)
      requires Valid()
      modifies this
      ensures Valid()
      ensures selectedTherapies == Without(old(selectedTherapies), typeId)
      ensures content == old(content) && selectedConcerns == old(selectedConcerns)
      ensures selectedObservations == old(selectedObservations) && selectedResponses == old(selectedResponses)
      ensures selectedPlans == old(selectedPlans) && expandedSections == old(expandedSections)
      ensures noteFormat == old(noteFormat) && noteType == old(noteType) && isGuided == old(isGuided)
      ensures guidedResponses == old(guidedResponses) && customInstructions == old(customInstructions)
    {
      WithoutNoDup(selectedTherapies, typeId);
      selectedTherapies := Without(selectedTherapies, typeId);
    }

    method TogglePlan(planId: string)
      requires Valid()
      modifies this
      ensures Valid()
      ensures selectedPlans == Toggle(old(selectedPlans), planId)
      ensures content == old(content) && selectedTherapies == old(selectedTherapies)
      ensures selectedConcerns == old(selectedConcerns) && selectedObservations == old(selectedObservations)
      ensures selectedResponses == old(selectedResponses) && expandedSections == old(expandedSections)
      ensures noteFormat == old(noteFormat) && noteType == old(noteType) && isGuided == old(isGuided)
      ensures guidedResponses == old(guidedResponses) && customInstructions == old(customInstructions)
    {
      selectedPlans := Toggle(selectedPlans, planId);
    }

    method ToggleResponse(responseId: string)
      requires Valid()
      modifies this
      ensures Valid()
      ensures selectedResponses == Toggle(old(selectedResponses), responseId)
      ensures content == old(content) && selectedTherapies == old(selectedTherapies)
      ensures selectedConcerns == old(selectedConcerns) && selectedObservations == old(selectedObservations)
      ensures selectedPlans == old(selectedPlans) && expandedSections == old(expandedSections)
      ensures noteFormat == old(noteFormat) && noteType == old(noteType) && isGuided == old(isGuided)
      ensures guidedResponses == old(guidedResponses) && customInstructions == old(customInstructions)
    {
      selectedResponses := Toggle(selectedResponses, responseId);
    }

    method ToggleConcern(concernId: string)
      requires Valid()
      modifies this
      ensures Valid()
      ensures selectedConcerns == Toggle(old(selectedConcerns), concernId)
      ensures content == old(content) && selectedTherapies == old(selectedTherapies)
      ensures selectedObservations == old(selectedObservations) && selectedResponses == old(selectedResponses)
      ensures selectedPlans == old(selectedPlans) && expandedSections == old(expandedSections)
      ensures noteFormat == old(noteFormat) && noteType == old(noteType) && isGuided == old(isGuided)
      ensures guidedResponses == old(guidedResponses) && customInstructions == old(customInstructions)
    {
      selectedConcerns := Toggle(selectedConcerns, concernId);
    }

    method ToggleObservation(observationId: string)
      requires Valid()
      modifies this
      ensures Valid()
      ensures selectedObservations == Toggle(old(selectedObservations), observationId)
      ensures content == old(content) && selectedTherapies == old(selectedTherapies)
      ensures selectedConcerns == old(selectedConcerns) && selectedResponses == old(selectedResponses)
      ensures selectedPlans == old(selectedPlans) && expandedSections == old(expandedSections)
      ensures noteFormat == old(noteFormat) && noteType == old(noteType) && isGuided == old(isGuided)
      ensures guidedResponses == old(guidedResponses) && customInstructions == old(customInstructions)
    {
      selectedObservations := Toggle(selectedObservations, observationId);
    }

    method GuidedResponseChange(id: string, value: string)
      requires Valid()
      modifies this
      ensures Valid()
      ensures guidedResponses == SetEntry(old(guidedResponses), id, value)
      ensures content == old(content) && selectedTherapies == old(selectedTherapies)
      ensures selectedConcerns == old(selectedConcerns) && selectedObservations == old(selectedObservations)
      ensures selectedResponses == old(selectedResponses) && selectedPlans == old(selectedPlans)
      ensures expandedSections == old(expandedSections) && noteFormat == old(noteFormat)
      ensures noteType == old(noteType) && isGuided == old(isGuided)
      ensures customInstructions == old(customInstructions)
    {
      SetEntrySpec(guidedResponses, id, value);
      guidedResponses := SetEntry(guidedResponses, id, value);
    }

    method SectionExpand(sectionId: string, expanded: bool)
      requires Valid()
      modifies this
      ensures Valid()
      ensures expandedSections == Expand(old(expandedSections), sectionId, expanded)
      ensures content == old(content) && selectedTherapies == old(selectedTherapies)
      ensures selectedConcerns == old(selectedConcerns) && selectedObservations == old(selectedObservations)
      ensures selectedResponses == old(selectedResponses) && selectedPlans == old(selectedPlans)
      ensures noteFormat == old(noteFormat) && noteType == old(noteType) && isGuided == old(isGuided)
      ensures guidedResponses == old(guidedResponses) && customInstructions == old(customInstructions)
    {
      expandedSections := Expand(expandedSections, sectionId, expanded);
    }

    /**
     * The text area's `onChange`: the user's edit leaves `value` in the box,
     * with the cursor or selection where the edit put it, and the handler
     * copies it into the content.
     */
    method ContentChange(value: string, selectionStart: nat, selectionEnd: nat)
      requires selectionStart <= selectionEnd <= |value|
      modifies this, textarea
      ensures Synced() && content == value
      ensures textarea != null ==> textarea.selectionStart == selectionStart && textarea.selectionEnd == selectionEnd
      ensures selectedTherapies == old(selectedTherapies) && selectedConcerns == old(selectedConcerns)
      ensures selectedObservations == old(selectedObservations) && selectedResponses == old(selectedResponses)
      ensures selectedPlans == old(selectedPlans) && expandedSections == old(expandedSections)
      ensures noteFormat == old(noteFormat) && noteType == old(noteType) && isGuided == old(isGuided)
      ensures guidedResponses == old(guidedResponses) && customInstructions == old(customInstructions)
    {
      if textarea != null {
        textarea.value := value;
        textarea.selectionStart := selectionStart;
        textarea.selectionEnd := selectionEnd;
      }
      content := value;
    }

    /**
     * `handleInsertText`: outside guided mode, with the text area mounted, the
     * snippet goes in at its cursor and the content becomes the new value;
     * otherwise nothing changes.
     */
    method InsertText(text: string)
      requires Synced()
      modifies this, textarea
      ensures Synced()
      ensures !old(isGuided) && textarea != null ==>
        content == Inserted(old(content), old(textarea.selectionStart), old(textarea.selectionEnd), text)
        && textarea.selectionStart == textarea.selectionEnd
        && textarea.selectionEnd == NewPosition(old(content), old(textarea.selectionStart), old(textarea.selectionEnd), text)
      ensures old(isGuided) || textarea == null ==> content == old(content) && (textarea != null ==> unchanged(textarea))
      ensures selectedTherapies == old(selectedTherapies) && selectedConcerns == old(selectedConcerns)
      ensures selectedObservations == old(selectedObservations) && selectedResponses == old(selectedResponses)
      ensures selectedPlans == old(selectedPlans) && expandedSections == old(expandedSections)
      ensures noteFormat == old(noteFormat) && noteType == old(noteType) && isGuided == old(isGuided)
      ensures guidedResponses == old(guidedResponses) && customInstructions == old(customInstructions)
    {
      if !isGuided && textarea != null {
        var newValue := InsertTextAtCursor(textarea, text);
        if newValue.Some? {
          content := newValue.value;
        }
      }
    }
  }

  /**
   * Clearing the form, letting the box show the cleared content and then
   * inserting a snippet leaves exactly the marked snippet on a line of its
   * own, with the cursor after it.
   */
  method ClearThenInsert(form: NoteForm, text: string)
    requires form.Synced()
    modifies form, form.textarea
    ensures form.textarea != null ==>
      form.content == MARK + text + "\n" && form.Synced()
      && form.textarea.selectionStart == form.textarea.selectionEnd == |MARK + text + "\n"|
  {
    form.Clear();
    form.Render();
    form.InsertText(text);
    InsertedIntoEmpty(text);
  }
}
