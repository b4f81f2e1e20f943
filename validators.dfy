/**
 * The advisory validator of a generated response: one warning per heading
 * whose section is missing or has a sentence count outside the band, plus
 * warnings for absent therapist/client references, identifier-like text
 * and too few lines. Only empty content is reported as invalid.
 */
module Validators {
  import opened JsString
  import opened Formats
  import opened Constants
  import opened Lists

  // ---------------------------------------------------------------------
  // countSentences
  // ---------------------------------------------------------------------

  /** The first position at or after `from` where `SENTENCE_ENDINGS` matches. */
  function FirstSentenceEnd(s: string, from: nat): (r: Option<nat>)
    requires from <= |s|
    ensures r.Some? ==> from <= r.value < |s| && SentenceEndAt(s, r.value)
    ensures r.Some? ==> forall q | from <= q < r.value :: !SentenceEndAt(s, q)
    ensures r.None? ==> forall q | from <= q <= |s| :: !SentenceEndAt(s, q)
    decreases |s| - from
  {
    if from == |s| then
      assert s[from..] == [];
      None
    else if SentenceEndAt(s, from) then Some(from)
    else FirstSentenceEnd(s, from + 1)
  }

  /**
   * `split(SENTENCE_ENDINGS)`: the pieces between the matches, scanning from
   * the left and resuming right after each match. The pattern has no
   * capture groups, so only the pieces are returned.
   */
  function SplitSentences(s: string): (r: seq<string>)
    ensures |r| > 0
    decreases |s|
  {
    match FirstSentenceEnd(s, 0)
    case None => [s]
    case Some(q) => [s[..q]] + SplitSentences(s[q + PunctRun(s[q..])..])
  }

  /** `countSentences`. */
  function CountSentences(text: string): nat {
    var t := Trim(text);
    if t == "" then 0 else |NonEmpty(SplitSentences(t))|
  }

  /** Blank text has no sentences. */
  lemma CountSentencesBlank(text: string)
    requires AllSpace(text)
    ensures CountSentences(text) == 0
  {
  }

  predicate PunctFree(x: string) {
    forall i | 0 <= i < |x| :: !IsSentencePunct(x[i])
  }

  /** Sentences written out with a full stop each, separated by one space. */
  function Sentences(xs: seq<string>): string
    requires |xs| > 0
  {
    if |xs| == 1 then xs[0] + "." else xs[0] + ". " + Sentences(xs[1..])
  }

  /** In `u + "." + v`, with no punctuation in `u` and `v` empty or starting with whitespace, the first sentence end is that full stop. */
  lemma {:induction false} FirstSentenceEndAfter(u: string, v: string)
    requires PunctFree(u) && (v == "" || IsSpace(v[0]))
    ensures FirstSentenceEnd(u + "." + v, 0) == Some(|u|)
    ensures PunctRun((u + "." + v)[|u|..]) == 1
  {
    var s := u + "." + v;
    assert s[|u|..] == "." + v;
    assert PunctRun(s[|u|..]) == 1 by {
      assert ("." + v)[1..] == v;
      assert v == "" || !IsSentencePunct(v[0]);
    }
    assert SentenceEndAt(s, |u|) by {
      assert |u| + 1 == |s| || s[|u| + 1] == v[0];
    }
    forall q | 0 <= q < |u| ensures !SentenceEndAt(s, q) {
      assert s[q..][0] == u[q];
      assert PunctRun(s[q..]) == 0;
    }
    var r := FirstSentenceEnd(s, 0);
    assert r.Some?;
  }

  lemma {:induction false} SplitSentencesOf(w: string, xs: seq<string>)
    requires |xs| > 0 && PunctFree(w)
    requires forall k | 0 <= k < |xs| :: xs[k] != "" && PunctFree(xs[k])
    ensures |NonEmpty(SplitSentences(w + Sentences(xs)))| == |xs|
    decreases |xs|
  {
    var u := w + xs[0];
    PunctFreeConcat(w, xs[0]);
    if |xs| == 1 {
      assert w + Sentences(xs) == u + "." + "";
      SplitAfterFirst(u, "");
      assert SplitSentences("") == [""];
      NonEmptyCons(u, [""]);
      assert NonEmpty([""]) == [];
    } else {
      var rest := Sentences(xs[1..]);
      assert w + Sentences(xs) == u + "." + (" " + rest);
      SplitAfterFirst(u, " " + rest);
      SentencesTail(xs);
      SplitSentencesOf(" ", xs[1..]);
      NonEmptyCons(u, SplitSentences(" " + rest));
    }
  }

  lemma PunctFreeConcat(w: string, x: string)
    requires PunctFree(w) && PunctFree(x)
    ensures PunctFree(w + x)
  {
    var u := w + x;
    forall i | 0 <= i < |u| ensures !IsSentencePunct(u[i]) {
      if i >= |w| { assert u[i] == x[i - |w|]; }
    }
  }

  /** The sentences after the first meet the same demands, and the space that separates them has no punctuation. */
  lemma SentencesTail(xs: seq<string>)
    requires |xs| > 1
    requires forall k | 0 <= k < |xs| :: xs[k] != "" && PunctFree(xs[k])
    ensures PunctFree(" ")
    ensures forall k | 0 <= k < |xs[1..]| :: xs[1..][k] != "" && PunctFree(xs[1..][k])
  {
    assert forall k | 0 <= k < |xs[1..]| :: xs[1..][k] == xs[k + 1];
  }

  /** The first piece of the split is the text before the first full stop. */
  lemma SplitAfterFirst(u: string, v: string)
    requires PunctFree(u) && (v == "" || IsSpace(v[0]))
    ensures SplitSentences(u + "." + v) == [u] + SplitSentences(v)
  {
    var s := u + "." + v;
    FirstSentenceEndAfter(u, v);
    assert s[|u| + 1..] == v;
    assert s[..|u|] == u;
  }

  /** A text of `n` punctuation-free sentences, each closed by a full stop, counts `n` sentences. */
  lemma {:induction false} CountSentencesOf(xs: seq<string>)
    requires |xs| > 0
    requires forall k | 0 <= k < |xs| :: xs[k] != "" && PunctFree(xs[k])
    requires !IsSpace(xs[0][0])
    ensures CountSentences(Sentences(xs)) == |xs|
  {
    var s := Sentences(xs);
    assert s[0] == xs[0][0];
    assert s[|s| - 1] == '.' by { SentencesEnd(xs); }
    TrimNoop(s);
    SplitSentencesOf("", xs);
    assert "" + s == s;
  }

  lemma {:induction false} SentencesEnd(xs: seq<string>)
    requires |xs| > 0
    ensures |Sentences(xs)| > 0 && Sentences(xs)[|Sentences(xs)| - 1] == '.'
  {
    if |xs| > 1 {
      SentencesEnd(xs[1..]);
    }
  }

  /** Non-blank text without sentence punctuation is one sentence. */
  lemma {:induction false} CountSentencesNoPunct(text: string)
    requires !AllSpace(text) && PunctFree(text)
    ensures CountSentences(text) == 1
  {
    var t := Trim(text);
    assert PunctFree(t) by {
      forall i | 0 <= i < |t| ensures !IsSentencePunct(t[i]) {
        assert t[i] == text[SpaceRun(text) + i];
      }
    }
    assert FirstSentenceEnd(t, 0).None? by {
      forall q | 0 <= q < |t| ensures !SentenceEndAt(t, q) {
        assert t[q..][0] == t[q];
      }
      assert t[|t|..] == [];
    }
  }

  // ---------------------------------------------------------------------
  // sanitizeSection and findSectionContent
  // ---------------------------------------------------------------------

  /**
   * The pattern `sanitizeSection(p)` matched at the start of `s`, with the
   * `i` flag. In the sanitized pattern a run of whitespace of `p` stands for
   * `\s+`, a `/` or `-` for `[/-]?`, and any other character, escaped, for
   * itself. The alternatives are tried in backtracking order (the longest
   * whitespace run first, an optional `/` or `-` taken before it is
   * skipped), and the result is how much of `s` the first way of matching
   * all of `p` consumes.
   */
  function SanitizedMatch(p: string, s: string): (r: Option<nat>)
    ensures r.Some? ==> r.value <= |s|
    decreases |p|, |s| + 1
  {
    if p == [] then Some(0)
    else if IsSpace(p[0]) then SpaceMatch(p[SpaceRun(p)..], s, SpaceRun(s))
    else if p[0] == '/' || p[0] == '-' then
      var taken := if s != [] && (s[0] == '/' || s[0] == '-') then SanitizedMatch(p[1..], s[1..]) else None;
      if taken.Some? then Some(taken.value + 1) else SanitizedMatch(p[1..], s)
    else if s != [] && SameCase(s[0], p[0]) then
      match SanitizedMatch(p[1..], s[1..])
      case None => None
      case Some(m) => Some(m + 1)
    else None
  }

  /** `\s+` followed by the pattern `p`, trying whitespace runs of length `k`, `k - 1`, …, 1. */
  function SpaceMatch(p: string, s: string, k: nat): (r: Option<nat>)
    requires k <= SpaceRun(s)
    ensures r.Some? ==> r.value <= |s|
    decreases |p| + 1, k
  {
    if k == 0 then None
    else
      match SanitizedMatch(p, s[k..])
      case Some(m) => Some(k + m)
      case None => SpaceMatch(p, s, k - 1)
  }

  /** The characters a heading is written with, as the sanitized pattern sees them: single spaces between non-whitespace. */
  predicate SingleSpaced(p: string) {
    (forall i | 0 <= i < |p| :: p[i] == ' ' || !IsSpace(p[i]))
    && (forall i | 0 <= i < |p| - 1 :: !(p[i] == ' ' && p[i + 1] == ' '))
    && (|p| > 0 ==> p[|p| - 1] != ' ')
  }

  /** A heading matches its own text. */
  lemma {:induction false} SanitizedMatchItself(p: string, rest: string)
    requires SingleSpaced(p)
    ensures SanitizedMatch(p, p + rest) == Some(|p|)
  {
    if p != [] {
      var s := p + rest;
      assert s[1..] == p[1..] + rest;
      assert SingleSpaced(p[1..]) by {
        forall i | 0 <= i < |p[1..]| - 1 ensures !(p[1..][i] == ' ' && p[1..][i + 1] == ' ') {
          assert p[1..][i] == p[i + 1] && p[1..][i + 1] == p[i + 2];
        }
      }
      SanitizedMatchItself(p[1..], rest);
      if IsSpace(p[0]) {
        assert |p| > 1 && !IsSpace(p[1]);
        assert SpaceRun(p) == 1 by { assert SpaceRun(p) == 1 + SpaceRun(p[1..]); }
        assert SpaceRun(s) == 1 by { assert SpaceRun(s) == 1 + SpaceRun(s[1..]) && s[1..][0] == p[1]; }
        assert p[1..] == p[SpaceRun(p)..];
      }
    }
  }

  /** The pattern of heading `h` with its colon matches at `q`. */
  predicate LabelAt(s: string, h: string, q: nat) {
    q <= |s| && SanitizedMatch(h + ":", s[q..]).Some?
  }

  /** The leftmost position at or after `from` where the pattern of heading `h` with its colon matches. */
  function FirstLabel(s: string, h: string, from: nat): (r: Option<nat>)
    requires from <= |s|
    ensures r.Some? ==> from <= r.value <= |s| && LabelAt(s, h, r.value)
    ensures r.Some? ==> forall q | from <= q < r.value :: !LabelAt(s, h, q)
    ensures r.None? ==> forall q | from <= q <= |s| :: !LabelAt(s, h, q)
    decreases |s| - from
  {
    if LabelAt(s, h, from) then Some(from)
    else if from == |s| then None
    else FirstLabel(s, h, from + 1)
  }

  /** The lookahead `(?=H1:|H2:|…|$)` holds at `q`. */
  predicate StopAt(s: string, hs: seq<string>, q: nat)
    requires q <= |s|
  {
    q == |s| || exists k | 0 <= k < |hs| :: LabelAt(s, hs[k], q)
  }

  /** Where the lazy `([^]*?)` stops: the first position from `from` on where the lookahead holds. */
  function FirstStop(s: string, hs: seq<string>, from: nat): (q: nat)
    requires from <= |s|
    ensures from <= q <= |s| && StopAt(s, hs, q)
    ensures forall q' | from <= q' < q :: !StopAt(s, hs, q')
    decreases |s| - from
  {
    if StopAt(s, hs, from) then from else FirstStop(s, hs, from + 1)
  }

  /**
   * The validator's `findSectionContent`: the first place where the
   * heading's pattern and a colon match, anywhere in the text, and the
   * trimmed text from there up to the next heading pattern with a colon or
   * the end. `None` stands for `null`.
   */
  function FindSectionContent(s: string, h: string, hs: seq<string>): (r: Option<string>)
    ensures r.Some? <==> exists q | 0 <= q <= |s| :: LabelAt(s, h, q)
  {
    match FirstLabel(s, h, 0)
    case None => None
    case Some(p) =>
      var a := p + SanitizedMatch(h + ":", s[p..]).value;
      Some(Trim(s[a..FirstStop(s, hs, a)]))
  }

  /** A heading written out with its colon anywhere in the text is found. */
  lemma {:induction false} FindWrittenHeading(s: string, h: string, hs: seq<string>, q: nat)
    requires Plain(h) && q <= |s| && q + |h| + 1 <= |s| && s[q..q + |h| + 1] == h + ":"
    ensures FindSectionContent(s, h, hs).Some?
  {
    PlainHasNoColonOrBreak(h);
    var p := h + ":";
    assert SingleSpaced(p) by {
      forall i | 0 <= i < |p| ensures p[i] == ' ' || !IsSpace(p[i]) {
        if i < |h| { assert p[i] == h[i] && PlainChar(h[i]); }
      }
      forall i | 0 <= i < |p| - 1 ensures !(p[i] == ' ' && p[i + 1] == ' ') {
        if i + 1 < |h| { assert p[i] == h[i] && p[i + 1] == h[i + 1]; }
      }
    }
    assert s[q..] == p + s[q + |p|..];
    SanitizedMatchItself(p, s[q + |p|..]);
    assert LabelAt(s, h, q);
  }

  // ---------------------------------------------------------------------
  // validateHIPAACompliance
  // ---------------------------------------------------------------------

  predicate IsWordChar(c: char) {
    'a' <= c <= 'z' || 'A' <= c <= 'Z' || IsDigit(c) || c == '_'
  }

  /** `\b` at `q`. */
  predicate WordBoundary(s: string, q: nat)
    requires q <= |s|
  {
    (q > 0 && IsWordChar(s[q - 1])) != (q < |s| && IsWordChar(s[q]))
  }

  predicate DigitsIn(s: string, i: nat, j: nat)
    requires i <= j <= |s|
  {
    forall k | i <= k < j :: IsDigit(s[k])
  }

  predicate SpacesIn(s: string, i: nat, j: nat)
    requires i <= j <= |s|
  {
    forall k | i <= k < j :: IsSpace(s[k])
  }

  /** `\b\d{3}-\d{2}-\d{4}\b` matches at `p`. */
  predicate SsnAt(s: string, p: nat) {
    p + 11 <= |s| && WordBoundary(s, p) && DigitsIn(s, p, p + 3) && s[p + 3] == '-'
    && DigitsIn(s, p + 4, p + 6) && s[p + 6] == '-' && DigitsIn(s, p + 7, p + 11) && WordBoundary(s, p + 11)
  }

  /** `\b\d{10}\b` matches at `p`. */
  predicate PhoneAt(s: string, p: nat) {
    p + 10 <= |s| && WordBoundary(s, p) && DigitsIn(s, p, p + 10) && WordBoundary(s, p + 10)
  }

  predicate EmailLocalChar(c: char) {
    IsWordChar(c) || c == '.' || c == '%' || c == '+' || c == '-'
  }

  predicate EmailDomainChar(c: char) {
    'a' <= c <= 'z' || 'A' <= c <= 'Z' || IsDigit(c) || c == '.' || c == '-'
  }

  predicate IsLetter(c: char) {
    'a' <= c <= 'z' || 'A' <= c <= 'Z'
  }

  /**
   * `\b[A-Za-z0-9._%+-]+@[A-Za-z0-9.-]+\.[A-Za-z]{2,}\b` matches from `p`
   * to `e` with the `@` at `a` and the final `.` at `d`.
   */
  predicate EmailAt(s: string, p: nat, a: nat, d: nat, e: nat) {
    p < a && a + 1 < d && d + 3 <= e <= |s|
    && WordBoundary(s, p) && (forall k | p <= k < a :: EmailLocalChar(s[k])) && s[a] == '@'
    && (forall k | a + 1 <= k < d :: EmailDomainChar(s[k])) && s[d] == '.'
    && (forall k | d + 1 <= k < e :: IsLetter(s[k])) && WordBoundary(s, e)
  }

  const MONTHS: seq<string> := ["January", "February", "March", "April", "May", "June", "July",
                                "August", "September", "October", "November", "December"]

  /**
   * `\b(January|…|December)\s+\d{1,2},\s+\d{4}\b` matches at `p` with month
   * `m`, the day digits in [i, j), the comma at `j` and the year at [k, k + 4).
   */
  predicate DateAt(s: string, p: nat, m: nat, i: nat, j: nat, k: nat) {
    m < |MONTHS| && p + |MONTHS[m]| < i < j <= i + 2 && j + 1 < k && k + 4 <= |s|
    && WordBoundary(s, p) && s[p..p + |MONTHS[m]|] == MONTHS[m]
    && SpacesIn(s, p + |MONTHS[m]|, i) && DigitsIn(s, i, j) && s[j] == ','
    && SpacesIn(s, j + 1, k) && DigitsIn(s, k, k + 4) && WordBoundary(s, k + 4)
  }

  /** `validateHIPAACompliance`: none of the four identifier patterns matches anywhere. */
  predicate HipaaCompliant(s: string) {
    !(exists p | 0 <= p <= |s| :: SsnAt(s, p))
    && !(exists p | 0 <= p <= |s| :: PhoneAt(s, p))
    && !(exists p, a, d, e | 0 <= p <= a <= d <= e <= |s| :: EmailAt(s, p, a, d, e))
    && !(exists p, m, i, j, k | 0 <= p <= i <= j <= k <= |s| && m < 12 :: DateAt(s, p, m, i, j, k))
  }

  /** Text with no digit and no `@` raises no identifier concern. */
  lemma {:induction false} HipaaNoDigits(s: string)
    requires forall i | 0 <= i < |s| :: !IsDigit(s[i]) && s[i] != '@'
    ensures HipaaCompliant(s)
  {
    forall p | 0 <= p <= |s| ensures !SsnAt(s, p) && !PhoneAt(s, p) {
      if p < |s| { assert !IsDigit(s[p]); }
    }
    forall p, a, d, e | 0 <= p <= a <= d <= e <= |s| ensures !EmailAt(s, p, a, d, e) {
      if a < |s| { assert s[a] != '@'; }
    }
    forall p, m, i, j, k | 0 <= p <= i <= j <= k <= |s| && m < 12 ensures !DateAt(s, p, m, i, j, k) {
      if k < |s| { assert !IsDigit(s[k]); }
    }
  }

  /** A social security number standing alone is a concern. */
  lemma HipaaSsn(u: string, v: string)
    requires (u == "" || !IsWordChar(u[|u| - 1])) && (v == "" || !IsWordChar(v[0]))
    ensures !HipaaCompliant(u + "123-45-6789" + v)
  {
    var s := u + "123-45-6789" + v;
    SsnAtJoin(u, "123-45-6789", v);
    assert SsnAt(s, |u|);
  }

  /** Three, two and four digits separated by dashes, between non-word characters, match. */
  lemma {:induction false} SsnAtJoin(u: string, n: string, v: string)
    requires |n| == 11 && n[3] == '-' && n[6] == '-'
    requires forall k | 0 <= k < 11 && k != 3 && k != 6 :: IsDigit(n[k])
    requires (u == "" || !IsWordChar(u[|u| - 1])) && (v == "" || !IsWordChar(v[0]))
    ensures SsnAt(u + n + v, |u|)
  {
    var s := u + n + v;
    var p := |u|;
    forall k | 0 <= k < 11 ensures s[p + k] == n[k] { }
    assert p + 11 == |s| || s[p + 11] == v[0];
    assert p == 0 || s[p - 1] == u[|u| - 1];
  }

  // ---------------------------------------------------------------------
  // validateResponseFormat
  // ---------------------------------------------------------------------

  datatype ValidationResult = ValidationResult(isValid: bool, errors: seq<string>)

  /** `includes`. */
  predicate Includes(s: string, t: string) {
    exists i | 0 <= i <= |s| :: OccursAt(s, t, i)
  }

  const EMPTY_RESPONSE := "Invalid or empty response"
  const MISSING_REFERENCES := "Missing required therapist (TH) or client (CL) references"
  const HIPAA_CONCERNS := "Potential HIPAA compliance concerns detected"
  const STRUCTURE_MISMATCH := "Response format does not match expected structure"

  function MissingMessage(h: string): string {
    "Missing or empty section: " + h
  }

  function FewerMessage(h: string, n: nat): string {
    "Section \"" + h + "\" has fewer than " + NatToString(MIN_SENTENCES_PER_SECTION) + " sentences (found " + NatToString(n) + ")"
  }

  function MoreMessage(h: string, n: nat): string {
    "Section \"" + h + "\" has more than " + NatToString(MAX_SENTENCES_PER_SECTION) + " sentences (found " + NatToString(n) + ")"
  }

  /** The error one heading contributes, if any. */
  function SectionError(norm: string, h: string, hs: seq<string>): Option<string> {
    match FindSectionContent(norm, h, hs)
    case None => Some(MissingMessage(h))
    case Some(c) =>
      if c == "" then Some(MissingMessage(h))
      else
        var n := CountSentences(c);
        if n < MIN_SENTENCES_PER_SECTION then Some(FewerMessage(h, n))
        else if n > MAX_SENTENCES_PER_SECTION then Some(MoreMessage(h, n))
        else None
  }

  /** The error of each heading of `todo`, in order. */
  function SectionErrorList(norm: string, hs: seq<string>, todo: seq<string>): (r: seq<Option<string>>)
    ensures |r| == |todo|
  {
    if todo == [] then [] else [SectionError(norm, todo[0], hs)] + SectionErrorList(norm, hs, todo[1..])
  }

  lemma {:induction false} SectionErrorListAt(norm: string, hs: seq<string>, todo: seq<string>)
    ensures forall k | 0 <= k < |todo| :: SectionErrorList(norm, hs, todo)[k] == SectionError(norm, todo[k], hs)
  {
    if todo != [] {
      SectionErrorListAt(norm, hs, todo[1..]);
      var r := SectionErrorList(norm, hs, todo);
      assert r == [SectionError(norm, todo[0], hs)] + SectionErrorList(norm, hs, todo[1..]);
      forall k | 0 < k < |todo| ensures r[k] == SectionError(norm, todo[k], hs) {
        assert todo[1..][k - 1] == todo[k];
      }
    }
  }

  /** The three warnings that follow the per-heading errors, each present when its check fails. */
  function Warn(lacksRefs: bool, identifiers: bool, fewLines: bool): seq<string> {
    (if lacksRefs then [MISSING_REFERENCES] else [])
    + (if identifiers then [HIPAA_CONCERNS] else [])
    + (if fewLines then [STRUCTURE_MISMATCH] else [])
  }

  /** The content the checks look at: line breaks normalised, trimmed. */
  function Normalized(content: string): string {
    Trim(NormalizeNewlines(content))
  }

  /** `errs` with `msg` pushed when `cond` holds. */
  function PushIf(errs: seq<string>, cond: bool, msg: string): seq<string> {
    if cond then errs + [msg] else errs
  }

  /** The three checks after the per-heading ones, pushing onto `errs`. */
  function WithWarnings(errs: seq<string>, lacksRefs: bool, identifiers: bool, fewLines: bool): seq<string> {
    PushIf(PushIf(PushIf(errs, lacksRefs, MISSING_REFERENCES), identifiers, HIPAA_CONCERNS), fewLines, STRUCTURE_MISMATCH)
  }

  /** The therapist/client check of a session note fails. */
  predicate LacksReferences(content: string, isAssessment: bool) {
    !isAssessment && (!Includes(content, "TH") || !Includes(content, "CL"))
  }

  /** The normalised content has fewer lines than there are headings. */
  predicate FewLines(norm: string, hs: seq<string>) {
    |Split(norm, "\n")| < |hs|
  }

  /** The errors collected for non-empty content, checked against the headings `hs`. */
  function CollectErrors(content: string, isAssessment: bool, hs: seq<string>): seq<string> {
    var norm := Normalized(content);
    WithWarnings(FilterMap(SectionErrorList(norm, hs, hs)),
                 LacksReferences(content, isAssessment), !HipaaCompliant(content), FewLines(norm, hs))
  }

  /** `validateResponseFormat` against the headings `hs` of the note's kind. */
  function ValidateResponseFormatSpec(content: string, isAssessment: bool, hs: seq<string>): ValidationResult {
    if content == "" then ValidationResult(false, [EMPTY_RESPONSE])
    else ValidationResult(true, CollectErrors(content, isAssessment, hs))
  }

  /** `validateResponseFormat`. */
  method ValidateResponseFormat(content: string, isAssessment: bool, fmt: string) returns (v: ValidationResult)
    requires isAssessment || Known(fmt)
    ensures v == ValidateResponseFormatSpec(content, isAssessment, HeadingsFor(isAssessment, fmt))
  {
    var hs := HeadingsFor(isAssessment, fmt);
    if content == "" {
      return ValidationResult(false, [EMPTY_RESPONSE]);
    }
    var norm := Trim(NormalizeNewlines(content));
    var errors := CheckSections(norm, hs);
    assert norm == Normalized(content);
    if !isAssessment {
      if !Includes(content, "TH") || !Includes(content, "CL") {
        errors := errors + [MISSING_REFERENCES];
      }
    }
    if !HipaaCompliant(content) {
      errors := errors + [HIPAA_CONCERNS];
    }
    if |Split(norm, "\n")| < |hs| {
      errors := errors + [STRUCTURE_MISMATCH];
    }
    assert FewLines(norm, hs) <==> |Split(norm, "\n")| < |hs|;
    v := ValidationResult(true, errors);
  }

  /** The `forEach` over the headings, pushing each heading's error. */
  method CheckSections(norm: string, hs: seq<string>) returns (errors: seq<string>)
    ensures errors == FilterMap(SectionErrorList(norm, hs, hs))
  {
    errors := [];
    var i := 0;
    while i < |hs|
      invariant 0 <= i <= |hs|
      invariant errors + FilterMap(SectionErrorList(norm, hs, hs[i..])) == FilterMap(SectionErrorList(norm, hs, hs))
    {
      var e := CheckSection(norm, hs[i], hs);
      ErrorStep(norm, hs, i, errors, e);
      if e.Some? {
        errors := errors + [e.value];
      }
      i := i + 1;
    }
    assert hs[i..] == [];
  }

  /** The body of the `forEach`: the error heading `h` pushes, if any. */
  method CheckSection(norm: string, h: string, hs: seq<string>) returns (e: Option<string>)
    ensures e == SectionError(norm, h, hs)
  {
    var sectionContent := FindSectionContent(norm, h, hs);
    if sectionContent.None? || sectionContent.value == "" {
      return Some(MissingMessage(h));
    }
    var sentenceCount := CountSentences(sectionContent.value);
    if sentenceCount < MIN_SENTENCES_PER_SECTION {
      e := Some(FewerMessage(h, sentenceCount));
    } else if sentenceCount > MAX_SENTENCES_PER_SECTION {
      e := Some(MoreMessage(h, sentenceCount));
    } else {
      e := None;
    }
  }

  lemma ErrorStep(norm: string, hs: seq<string>, i: nat, done: seq<string>, e: Option<string>)
    requires i < |hs| && e == SectionError(norm, hs[i], hs)
    ensures e.Some? ==> done + FilterMap(SectionErrorList(norm, hs, hs[i..]))
                        == (done + [e.value]) + FilterMap(SectionErrorList(norm, hs, hs[i + 1..]))
    ensures e.None? ==> done + FilterMap(SectionErrorList(norm, hs, hs[i..]))
                        == done + FilterMap(SectionErrorList(norm, hs, hs[i + 1..]))
  {
    var t := hs[i..];
    assert t[0] == hs[i] && t[1..] == hs[i + 1..];
    var rest := SectionErrorList(norm, hs, hs[i + 1..]);
    assert SectionErrorList(norm, hs, t) == [e] + rest;
    FilterMapCons(e, rest);
    if e.Some? {
      assert done + ([e.value] + FilterMap(rest)) == (done + [e.value]) + FilterMap(rest);
    }
  }

  /** Empty content is the only invalid content, and it gets exactly one error. */
  lemma ValidateValidity(content: string, isAssessment: bool, hs: seq<string>)
    ensures content == "" ==> ValidateResponseFormatSpec(content, isAssessment, hs) == ValidationResult(false, [EMPTY_RESPONSE])
    ensures !ValidateResponseFormatSpec(content, isAssessment, hs).isValid <==> content == ""
  {
  }

  /** Pushing the three warnings one after the other appends them in order. */
  lemma WithWarningsAppend(errs: seq<string>, lacksRefs: bool, identifiers: bool, fewLines: bool)
    ensures WithWarnings(errs, lacksRefs, identifiers, fewLines) == errs + Warn(lacksRefs, identifiers, fewLines)
  {
    var w1 := if lacksRefs then [MISSING_REFERENCES] else [];
    var w2 := if identifiers then [HIPAA_CONCERNS] else [];
    var w3 := if fewLines then [STRUCTURE_MISMATCH] else [];
    assert PushIf(errs, lacksRefs, MISSING_REFERENCES) == errs + w1;
    assert PushIf(errs + w1, identifiers, HIPAA_CONCERNS) == errs + w1 + w2;
    assert PushIf(errs + w1 + w2, fewLines, STRUCTURE_MISMATCH) == errs + w1 + w2 + w3;
    assert errs + w1 + w2 + w3 == errs + (w1 + w2 + w3);
  }

  /** The errors of non-empty content: the per-heading errors, then the three warnings. */
  lemma ValidateErrors(content: string, isAssessment: bool, hs: seq<string>)
    requires content != ""
    ensures ValidateResponseFormatSpec(content, isAssessment, hs).errors
            == FilterMap(SectionErrorList(Normalized(content), hs, hs))
               + Warn(LacksReferences(content, isAssessment), !HipaaCompliant(content), FewLines(Normalized(content), hs))
  {
    var norm := Normalized(content);
    WithWarningsAppend(FilterMap(SectionErrorList(norm, hs, hs)),
                       LacksReferences(content, isAssessment), !HipaaCompliant(content), FewLines(norm, hs));
  }

  /**
   * The per-heading errors come in heading order, at most one per heading,
   * and exactly for the headings that have an error: error `j` is that of
   * the `j`-th heading with one.
   */
  lemma SectionErrorsInOrder(norm: string, hs: seq<string>)
    ensures var xs := SectionErrorList(norm, hs, hs);
      var errs := FilterMap(xs);
      |errs| <= |hs|
      && Increasing(Picked(xs)) && |Picked(xs)| == |errs|
      && (forall j | 0 <= j < |errs| :: Picked(xs)[j] < |hs| && SectionError(norm, hs[Picked(xs)[j]], hs) == Some(errs[j]))
      && (forall k | 0 <= k < |hs| :: SectionError(norm, hs[k], hs).Some? <==> k in Picked(xs))
  {
    var xs := SectionErrorList(norm, hs, hs);
    FilterMapPicked(xs);
    PickedComplete(xs);
    PickedIncreasing(xs);
    SectionErrorListAt(norm, hs, hs);
  }

  /** A heading raises no error exactly when its section is found, non-empty, and has 5 to 10 sentences. */
  lemma SectionErrorBand(norm: string, h: string, hs: seq<string>)
    ensures SectionError(norm, h, hs).None? <==>
              FindSectionContent(norm, h, hs).Some? && FindSectionContent(norm, h, hs).value != ""
              && MIN_SENTENCES_PER_SECTION <= CountSentences(FindSectionContent(norm, h, hs).value) <= MAX_SENTENCES_PER_SECTION
  {
  }

  /** Each of the three warnings is in the list exactly when its check fails. */
  lemma WarnSpec(lacksRefs: bool, identifiers: bool, fewLines: bool)
    ensures var w := Warn(lacksRefs, identifiers, fewLines);
      (MISSING_REFERENCES in w <==> lacksRefs)
      && (HIPAA_CONCERNS in w <==> identifiers)
      && (STRUCTURE_MISMATCH in w <==> fewLines)
  {
    assert |MISSING_REFERENCES| == 57 && |HIPAA_CONCERNS| == 44 && |STRUCTURE_MISMATCH| == 49;
  }

  /** The structure check fails exactly when the normalised content has fewer than `|hs| - 1` newlines. */
  lemma FewLinesSpec(norm: string, hs: seq<string>)
    ensures FewLines(norm, hs) <==> NewlineCount(norm) + 1 < |hs|
  {
    SplitLines(norm);
  }

  function NewlineCount(s: string): nat {
    if s == [] then 0 else (if s[0] == '\n' then 1 else 0) + NewlineCount(s[1..])
  }

  lemma {:induction false} NewlineCountAppend(a: string, b: string)
    ensures NewlineCount(a + b) == NewlineCount(a) + NewlineCount(b)
  {
    if a != [] {
      assert (a + b)[1..] == a[1..] + b;
      NewlineCountAppend(a[1..], b);
    } else {
      assert a + b == b;
    }
  }

  lemma {:induction false} NewlineCountNone(a: string)
    requires forall i | 0 <= i < |a| :: a[i] != '\n'
    ensures NewlineCount(a) == 0
  {
    if a != [] {
      NewlineCountNone(a[1..]);
    }
  }

  /** `split('\n')` gives one line more than there are newlines. */
  lemma {:induction false} SplitLines(s: string)
    ensures |Split(s, "\n")| == NewlineCount(s) + 1
    decreases |s|
  {
    match IndexOf(s, "\n")
    case None =>
      assert forall i | 0 <= i < |s| :: s[i] != '\n' by {
        forall i | 0 <= i < |s| ensures s[i] != '\n' {
          assert !OccursAt(s, "\n", i);
          assert s[i..i + 1] == [s[i]];
        }
      }
      NewlineCountNone(s);
    case Some(i) =>
      assert s[i..i + 1] == "\n";
      assert forall q | 0 <= q < i :: s[q] != '\n' by {
        forall q | 0 <= q < i ensures s[q] != '\n' {
          assert !OccursAt(s, "\n", q);
          assert s[q..q + 1] == [s[q]];
        }
      }
      assert s == s[..i] + ("\n" + s[i + 1..]);
      NewlineCountAppend(s[..i], "\n" + s[i + 1..]);
      NewlineCountNone(s[..i]);
      assert ("\n" + s[i + 1..])[1..] == s[i + 1..];
      SplitLines(s[i + 1..]);
  }
}
