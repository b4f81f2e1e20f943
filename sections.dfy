/**
 * The section parser: it cleans the generated text, then for each heading
 * of the note's format looks for a line holding `HEADING:` alone, takes
 * the text up to the next such line, cleans that text, and turns every
 * non-empty result into a section with a single version 0.
 *
 * Each regular expression is an explicit scanner. The case-insensitive
 * ones fold ASCII letters only; without the `u` flag JavaScript never maps a
 * non-ASCII character onto an ASCII one, so for the ASCII headings this is
 * exact. The heading patterns are read for headings that start with a
 * non-space character (every catalog heading does): then a greedy `\s*`
 * in front of a heading can only succeed by taking the whole whitespace run.
 */
module Sections {
  import opened JsString
  import opened Types
  import opened Formats
  import opened Constants
  import opened Patterns

  // ---------------------------------------------------------------------
  // escapeRegExp
  // ---------------------------------------------------------------------

  predicate IsRegExpSpecial(c: char) {
    c in ".*+?^${}()|[]\\"
  }

  /** `escapeRegExp`: a backslash in front of every character special in a pattern. */
  function EscapeRegExp(s: string): (r: string)
    ensures |r| >= |s|
  {
    if s == [] then []
    else (if IsRegExpSpecial(s[0]) then ['\\', s[0]] else [s[0]]) + EscapeRegExp(s[1..])
  }

  /** The text a pattern made only of literal characters and escaped characters matches. */
  function PatternText(p: string): string {
    if p == [] then []
    else if p[0] == '\\' && |p| >= 2 then [p[1]] + PatternText(p[2..])
    else [p[0]] + PatternText(p[1..])
  }

  /** The escaped pattern matches exactly the original text. */
  lemma {:induction false} EscapeRegExpMatchesItself(s: string)
    ensures PatternText(EscapeRegExp(s)) == s
  {
    if s != [] {
      EscapeRegExpMatchesItself(s[1..]);
      var e := EscapeRegExp(s[1..]);
      if IsRegExpSpecial(s[0]) {
        assert EscapeRegExp(s) == ['\\', s[0]] + e;
        assert (['\\', s[0]] + e)[2..] == e;
      } else {
        assert EscapeRegExp(s) == [s[0]] + e;
        assert s[0] != '\\';
        assert ([s[0]] + e)[1..] == e;
      }
    }
  }

  /** A plain heading needs no escaping, so its pattern is the heading itself. */
  lemma {:induction false} EscapePlainHeading(h: string)
    requires forall i | 0 <= i < |h| :: PlainChar(h[i])
    ensures EscapeRegExp(h) == h
  {
    if h != [] {
      assert PlainChar(h[0]);
      EscapePlainHeading(h[1..]);
    }
  }

  // ---------------------------------------------------------------------
  // The shape of cleaned text
  // ---------------------------------------------------------------------

  /** No whitespace at either end. */
  predicate NoEdgeSpace(o: string) {
    o == [] || (!IsSpace(o[0]) && !IsSpace(o[|o| - 1]))
  }

  /** No whitespace at the end. */
  predicate EndsClean(o: string) {
    o == [] || !IsSpace(o[|o| - 1])
  }

  /** Every line terminator has a non-space character on each side that it has. */
  predicate BreaksFramed(o: string) {
    (forall i | 0 <= i < |o| - 1 :: IsLineTerminator(o[i]) ==> !IsSpace(o[i + 1]))
    && (forall i | 1 <= i < |o| :: IsLineTerminator(o[i]) ==> !IsSpace(o[i - 1]))
  }

  /** A text that may still begin with whitespace, but whose lines are otherwise trimmed. */
  predicate TrimmedTail(o: string) {
    EndsClean(o) && BreaksFramed(o)
  }

  /** Every line is trimmed and none is blank. */
  predicate TrimmedLines(o: string) {
    NoEdgeSpace(o) && BreaksFramed(o)
  }

  // ---------------------------------------------------------------------
  // cleanContent
  // ---------------------------------------------------------------------

  /**
   * `replace(new RegExp(escapeRegExp(h) + ':?\\s*', 'gi'), h + ':\n')`: every
   * occurrence of the heading, in any letter case, with an optional colon and
   * all whitespace after it, becomes the heading, a colon and one newline.
   */
  function CanonicalizeHeading(s: string, h: string): (r: string)
    requires |h| > 0
    decreases |s|
  {
    if s == [] then []
    else if CIPrefix(h, s) then
      var u := AfterHeading(s, h);
      h + ":\n" + CanonicalizeHeading(u[SpaceRun(u)..], h)
    else [s[0]] + CanonicalizeHeading(s[1..], h)
  }

  /** What follows a heading occurrence and its optional colon. */
  function AfterHeading(s: string, h: string): (u: string)
    requires |h| > 0 && CIPrefix(h, s)
    ensures |u| < |s|
  {
    var t := s[|h|..];
    if t != [] && t[0] == ':' then t[1..] else t
  }

  /** The replacement applied once per heading, in list order. */
  function CanonicalizeAll(s: string, hs: seq<string>): string
    requires forall k | 0 <= k < |hs| :: |hs[k]| > 0
    decreases |hs|
  {
    if hs == [] then s else CanonicalizeAll(CanonicalizeHeading(s, hs[0]), hs[1..])
  }

  /** Edge whitespace removed, runs of three or more newlines shortened to two, trimmed. */
  function CleanedText(content: string): string {
    Trim(CollapseNewlines(ReplaceEdgeSpace(content), 3))
  }

  /** `cleanContent(content, isAssessment, noteFormat)` over the heading list it selects. */
  function CleanContentSpec(content: string, hs: seq<string>): string
    requires forall k | 0 <= k < |hs| :: |hs[k]| > 0
  {
    CanonicalizeAll(CleanedText(content), hs)
  }

  /** `cleanContent`. */
  method CleanContent(content: string, isAssessment: bool, noteFormat: string) returns (r: string)
    requires isAssessment || Known(noteFormat)
    ensures r == CleanContentSpec(content, HeadingsFor(isAssessment, noteFormat))
  {
    var hs := HeadingsFor(isAssessment, noteFormat);
    WellFormedNonEmpty(hs);
    var text := Trim(CollapseNewlines(ReplaceEdgeSpace(content), 3));
    assert text == CleanedText(content);
    r := CanonicalizeHeadings(text, hs);
  }

  /** The replacement loop of `cleanContent`. */
  method CanonicalizeHeadings(text: string, hs: seq<string>) returns (r: string)
    requires forall k | 0 <= k < |hs| :: |hs[k]| > 0
    ensures r == CanonicalizeAll(text, hs)
  {
    r := text;
    var i := 0;
    while i < |hs|
      invariant 0 <= i <= |hs|
      invariant CanonicalizeAll(r, hs[i..]) == CanonicalizeAll(text, hs)
    {
      assert hs[i..] == [hs[i]] + hs[i + 1..];
      r := CanonicalizeHeading(r, hs[i]);
      i := i + 1;
    }
    assert hs[i..] == [];
  }

  /** The edge and newline clean-up leaves no whitespace at either end and no three newlines in a row. */
  lemma CleanedTextShape(content: string)
    ensures NoEdgeSpace(CleanedText(content))
    ensures NoTripleNewline(CleanedText(content))
  {
    var a := ReplaceEdgeSpace(content);
    ReplaceEdgeSpaceIsTrim(content);
    var b := CollapseNewlines(a, 3);
    CollapseNoTriple(a);
    if a != [] {
      CollapseKeepsFirst(a);
      CollapseKeepsLast(a);
    }
    TrimNoop(b);
  }

  /** A heading written with a colon and any whitespace comes out as the heading, a colon and one newline. */
  lemma {:induction false} CanonicalizeWrittenHeading(h: string, w: string, rest: string)
    requires |h| > 0 && AllSpace(w) && (rest == [] || !IsSpace(rest[0]))
    ensures CanonicalizeHeading(h + ":" + w + rest, h) == h + ":\n" + CanonicalizeHeading(rest, h)
  {
    var s := h + ":" + w + rest;
    assert s == h + (":" + w + rest);
    CIPrefixSelf(h, ":" + w + rest);
    assert s[|h|..] == ":" + w + rest;
    var u := AfterHeading(s, h);
    assert u == w + rest;
    SpaceRunOf(w, rest);
    assert u[SpaceRun(u)..] == rest;
    assert s != [];
    assert CanonicalizeHeading(s, h) == h + ":\n" + CanonicalizeHeading(u[SpaceRun(u)..], h);
  }

  /** Text in which the heading occurs nowhere is left as it is. */
  lemma {:induction false} CanonicalizeWithoutHeading(s: string, h: string)
    requires |h| > 0 && forall i | 0 <= i < |s| :: !CIPrefix(h, s[i..])
    ensures CanonicalizeHeading(s, h) == s
  {
    if s != [] {
      assert !CIPrefix(h, s[0..]);
      assert s[0..] == s;
      forall i | 0 <= i < |s[1..]| ensures !CIPrefix(h, s[1..][i..]) {
        assert s[1..][i..] == s[i + 1..];
      }
      CanonicalizeWithoutHeading(s[1..], h);
    }
  }

  // ---------------------------------------------------------------------
  // Locating a section: findSectionContent, first half
  // ---------------------------------------------------------------------

  /** Length of the run of spaces and tabs at the start of `s`: `[ \t]*`. */
  function BlankRun(s: string): (n: nat)
    ensures n <= |s|
    ensures forall i | 0 <= i < n :: s[i] == ' ' || s[i] == '\t'
    ensures n < |s| ==> s[n] != ' ' && s[n] != '\t'
  {
    if s != [] && (s[0] == ' ' || s[0] == '\t') then 1 + BlankRun(s[1..]) else 0
  }

  /** Position `q` starts a line: `^` under the `m` flag. */
  predicate LineStart(s: string, q: nat)
    requires q <= |s|
  {
    q == 0 || IsLineTerminator(s[q - 1])
  }

  /**
   * The heading line `^\s*HEADING:[ \t]*\n` (flags `i`, `m`) tried at `q`:
   * a line start, whitespace, the heading in any case, a colon, spaces or
   * tabs, a newline. The result is where the match ends.
   */
  function HeadingLineEnd(s: string, h: string, q: nat): (r: Option<nat>)
    requires q <= |s|
    ensures r.Some? ==> q < r.value <= |s|
  {
    if !LineStart(s, q) then None
    else
      var p := q + SpaceRun(s[q..]);
      if !CIPrefix(h + ":", s[p..]) then None
      else
        var e := p + |h| + 1;
        var k := e + BlankRun(s[e..]);
        if k < |s| && s[k] == '\n' then Some(k + 1) else None
  }

  /** `match` of the heading pattern: the leftmost position where it matches. */
  function FirstHeadingLine(s: string, h: string, from: nat): (r: Option<nat>)
    requires from <= |s|
    ensures r.Some? ==> from <= r.value <= |s| && HeadingLineEnd(s, h, r.value).Some?
    decreases |s| - from
  {
    if HeadingLineEnd(s, h, from).Some? then Some(from)
    else if from == |s| then None
    else FirstHeadingLine(s, h, from + 1)
  }

  /** No heading line starts in front of the one found, and none at all when nothing is found. */
  lemma {:induction false} FirstHeadingLineLeftmost(s: string, h: string, from: nat)
    requires from <= |s|
    ensures var r := FirstHeadingLine(s, h, from);
      (r.Some? ==> forall q | from <= q < r.value :: HeadingLineEnd(s, h, q).None?)
      && (r.None? ==> forall q | from <= q <= |s| :: HeadingLineEnd(s, h, q).None?)
    decreases |s| - from
  {
    if HeadingLineEnd(s, h, from).None? && from < |s| {
      FirstHeadingLineLeftmost(s, h, from + 1);
      var r := FirstHeadingLine(s, h, from + 1);
      assert FirstHeadingLine(s, h, from) == r;
      var end := if r.Some? then r.value else |s| + 1;
      forall q | from <= q < end ensures HeadingLineEnd(s, h, q).None? {
        if q != from {
          assert from + 1 <= q;
        }
      }
    }
  }

  /** `\s*(?:\n|$)` under the `m` flag: the whitespace that follows reaches a line end or the end of the text. */
  predicate ReachesLineEnd(t: string) {
    SpaceRun(t) == |t| || exists j | 0 <= j < SpaceRun(t) :: IsLineTerminator(t[j])
  }

  /** One of the headings, with its colon, at `p`, followed by nothing but whitespace up to a line end. */
  predicate LabelLineAt(r: string, hs: seq<string>, p: nat)
    requires p <= |r|
  {
    exists k | 0 <= k < |hs| :: CIPrefix(hs[k] + ":", r[p..]) && ReachesLineEnd(r[p + |hs[k]| + 1..])
  }

  /** The end pattern `\n\s*(H1:|H2:|…)\s*(?:\n|$)` (flags `i`, `m`) matches at `q`. */
  predicate BoundaryAt(r: string, hs: seq<string>, q: nat)
    requires q <= |r|
  {
    q < |r| && r[q] == '\n' && LabelLineAt(r, hs, q + 1 + SpaceRun(r[q + 1..]))
  }

  /** `match` of the end pattern: its leftmost position. */
  function FirstBoundary(r: string, hs: seq<string>, from: nat): (b: Option<nat>)
    requires from <= |r|
    ensures b.Some? ==> from <= b.value < |r| && BoundaryAt(r, hs, b.value)
    decreases |r| - from
  {
    if BoundaryAt(r, hs, from) then Some(from)
    else if from == |r| then None
    else FirstBoundary(r, hs, from + 1)
  }

  /** No boundary lies in front of the one found, and none at all when nothing is found. */
  lemma {:induction false} FirstBoundaryLeftmost(r: string, hs: seq<string>, from: nat)
    requires from <= |r|
    ensures var b := FirstBoundary(r, hs, from);
      (b.Some? ==> forall q | from <= q < b.value :: !BoundaryAt(r, hs, q))
      && (b.None? ==> forall q | from <= q <= |r| :: !BoundaryAt(r, hs, q))
    decreases |r| - from
  {
    if !BoundaryAt(r, hs, from) && from < |r| {
      FirstBoundaryLeftmost(r, hs, from + 1);
      var b := FirstBoundary(r, hs, from + 1);
      assert FirstBoundary(r, hs, from) == b;
      var end := if b.Some? then b.value else |r| + 1;
      forall q | from <= q < end ensures !BoundaryAt(r, hs, q) {
        if q != from {
          assert from + 1 <= q;
        }
      }
    }
  }

  /**
   * Where the body of heading `h` lies in `s`: from the end of the first
   * heading line to the first later boundary, or to the end of the text.
   */
  function SectionBounds(s: string, h: string, hs: seq<string>): (r: Option<(nat, nat)>)
    ensures r.Some? ==> r.value.0 <= r.value.1 <= |s|
  {
    match FirstHeadingLine(s, h, 0)
    case None => None
    case Some(q) =>
      var start := HeadingLineEnd(s, h, q).value;
      match FirstBoundary(s[start..], hs, 0)
      case None => Some((start, |s|))
      case Some(b) => Some((start, start + b))
  }

  /** There are bounds exactly when some line holds the heading line. */
  lemma SectionBoundsFound(s: string, h: string, hs: seq<string>)
    ensures SectionBounds(s, h, hs).Some? <==> exists q | 0 <= q <= |s| :: HeadingLineEnd(s, h, q).Some?
  {
    FirstHeadingLineLeftmost(s, h, 0);
  }

  /**
   * The body begins right after the first heading line and ends at the first
   * boundary after it, or at the end of the text when there is none.
   */
  lemma SectionBoundsSpec(s: string, h: string, hs: seq<string>)
    requires SectionBounds(s, h, hs).Some?
    ensures var (a, b) := SectionBounds(s, h, hs).value;
      (exists q | 0 <= q <= |s| :: HeadingLineEnd(s, h, q) == Some(a)
         && forall q' | 0 <= q' < q :: HeadingLineEnd(s, h, q').None?)
      && (forall q | 0 <= q < b - a :: !BoundaryAt(s[a..], hs, q))
      && (b == |s| || BoundaryAt(s[a..], hs, b - a))
  {
    FirstHeadingLineLeftmost(s, h, 0);
    var q := FirstHeadingLine(s, h, 0).value;
    var a := HeadingLineEnd(s, h, q).value;
    assert HeadingLineEnd(s, h, q) == Some(a);
    FirstBoundaryLeftmost(s[a..], hs, 0);
  }

  // ---------------------------------------------------------------------
  // Per-line trim: replace(/^\s+|\s+$/gm, '')
  // ---------------------------------------------------------------------

  /** The last line terminator at an index in [1, m), if any. */
  function LastBreakBefore(t: string, m: nat): (r: Option<nat>)
    requires m <= |t|
    ensures r.None? ==> forall j | 1 <= j < m :: !IsLineTerminator(t[j])
    ensures r.Some? ==> 1 <= r.value < m && IsLineTerminator(t[r.value])
  {
    if m <= 1 then None
    else if IsLineTerminator(t[m - 1]) then Some(m - 1)
    else LastBreakBefore(t, m - 1)
  }

  /**
   * `\s+$` under the `m` flag at the start of `t`: the greedy run backs off
   * to the longest prefix that ends at the end of the text or right in front
   * of a line terminator.
   */
  function SpaceBeforeLineEnd(t: string): (r: Option<nat>)
    ensures r.Some? ==> 0 < r.value <= SpaceRun(t)
    ensures r.None? <==>
              (SpaceRun(t) == 0 || (SpaceRun(t) < |t| && forall j | 1 <= j < SpaceRun(t) :: !IsLineTerminator(t[j])))
  {
    var m := SpaceRun(t);
    if m == 0 then None else if m == |t| then Some(m) else LastBreakBefore(t, m)
  }

  /**
   * The per-line trim. `lineStart` says whether the position scanned is the
   * start of a line of the original text, which is what `^` looks at.
   */
  function TrimLines(s: string, lineStart: bool): (r: string)
    ensures CharsFrom(r, s)
    decreases |s|
  {
    if s == [] then []
    else if lineStart && IsSpace(s[0]) then
      var n := SpaceRun(s);
      var r := TrimLines(s[n..], IsLineTerminator(s[n - 1]));
      assert CharsFrom(r, s) by { SuffixChars(r, s, n); }
      r
    else
      match SpaceBeforeLineEnd(s)
      case Some(n) =>
        var r := TrimLines(s[n..], IsLineTerminator(s[n - 1]));
        assert CharsFrom(r, s) by { SuffixChars(r, s, n); }
        r
      case None =>
        var r := TrimLines(s[1..], IsLineTerminator(s[0]));
        assert CharsFrom(r, s) by { SuffixChars(r, s, 1); }
        [s[0]] + r
  }

  /** A text starting with a non-space character keeps it; the next position is not a line start. */
  lemma TrimLinesNonSpaceHead(t: string, lineStart: bool)
    requires t != [] && !IsSpace(t[0])
    ensures TrimLines(t, lineStart) == [t[0]] + TrimLines(t[1..], false)
  {
    assert SpaceRun(t) == 0;
  }

  /** At a line start the first character kept is the first non-space one. */
  lemma {:induction false} TrimLinesLineStartHead(t: string)
    requires SpaceRun(t) < |t|
    ensures TrimLines(t, true) != [] && TrimLines(t, true)[0] == t[SpaceRun(t)]
  {
    var n := SpaceRun(t);
    if n == 0 {
      TrimLinesNonSpaceHead(t, true);
    } else {
      assert IsSpace(t[0]) by { assert t[..n][0] == t[0]; }
      assert t[n..][0] == t[n];
      TrimLinesNonSpaceHead(t[n..], IsLineTerminator(t[n - 1]));
    }
  }

  /**
   * Inside a line, whitespace with no line terminator in it and a non-space
   * character after it: the first character kept is the first one, which is
   * no line terminator.
   */
  lemma TrimLinesInsideHead(t: string)
    requires SpaceRun(t) < |t|
    requires forall j | 0 <= j < SpaceRun(t) :: !IsLineTerminator(t[j])
    ensures TrimLines(t, false) != [] && !IsLineTerminator(TrimLines(t, false)[0])
  {
    if SpaceRun(t) == 0 {
      TrimLinesNonSpaceHead(t, false);
    } else {
      assert SpaceBeforeLineEnd(t).None?;
      assert TrimLines(t, false) == [t[0]] + TrimLines(t[1..], IsLineTerminator(t[0]));
    }
  }

  /** A character put in front of a text whose lines are trimmed, where the neighbours allow it. */
  lemma ConsTrimmedTail(c: char, r: string)
    requires TrimmedTail(r)
    requires r == [] ==> !IsSpace(c)
    requires IsLineTerminator(c) ==> r != [] && !IsSpace(r[0])
    requires r != [] && IsLineTerminator(r[0]) ==> !IsSpace(c)
    ensures TrimmedTail([c] + r)
  {
    var o := [c] + r;
    forall i | 0 <= i < |o| - 1 && IsLineTerminator(o[i]) ensures !IsSpace(o[i + 1]) {
      if i > 0 { assert o[i] == r[i - 1] && o[i + 1] == r[i]; }
    }
    forall i | 1 <= i < |o| && IsLineTerminator(o[i]) ensures !IsSpace(o[i - 1]) {
      if i > 1 { assert o[i] == r[i - 1] && o[i - 1] == r[i - 2]; }
    }
  }

  /** The per-line trim leaves no whitespace at the end and frames every line terminator. */
  lemma {:induction false} TrimLinesTail(s: string, lineStart: bool)
    ensures TrimmedTail(TrimLines(s, lineStart))
    decreases |s|
  {
    if s == [] {
    } else if lineStart && IsSpace(s[0]) {
      var n := SpaceRun(s);
      TrimLinesLead(s, lineStart);
      TrimLinesTail(s[n..], IsLineTerminator(s[n - 1]));
    } else if SpaceBeforeLineEnd(s).Some? {
      var n := SpaceBeforeLineEnd(s).value;
      TrimLinesGap(s, lineStart, n);
      TrimLinesTail(s[n..], IsLineTerminator(s[n - 1]));
    } else {
      TrimLinesTail(s[1..], IsLineTerminator(s[0]));
      TrimLinesKept(s, lineStart);
    }
  }

  /** The cases where a run of whitespace is dropped: at a line start, */
  lemma TrimLinesLead(s: string, lineStart: bool)
    requires s != [] && lineStart && IsSpace(s[0])
    ensures 0 < SpaceRun(s) <= |s|
    ensures TrimLines(s, lineStart) == TrimLines(s[SpaceRun(s)..], IsLineTerminator(s[SpaceRun(s) - 1]))
  {
  }

  /** and before a line end. */
  lemma TrimLinesGap(s: string, lineStart: bool, n: nat)
    requires s != [] && !(lineStart && IsSpace(s[0])) && SpaceBeforeLineEnd(s) == Some(n)
    ensures 0 < n <= |s| && TrimLines(s, lineStart) == TrimLines(s[n..], IsLineTerminator(s[n - 1]))
  {
  }

  /** The case where the first character is kept. */
  lemma TrimLinesKept(s: string, lineStart: bool)
    requires s != [] && !(lineStart && IsSpace(s[0])) && SpaceBeforeLineEnd(s).None?
    requires TrimmedTail(TrimLines(s[1..], IsLineTerminator(s[0])))
    ensures TrimmedTail(TrimLines(s, lineStart))
  {
    var c := s[0];
    var r := TrimLines(s[1..], IsLineTerminator(c));
    assert TrimLines(s, lineStart) == [c] + r;
    if IsSpace(c) {
      KeptSpaceNext(s);
    }
    ConsTrimmedTail(c, r);
  }

  /** A kept whitespace character is followed by a kept character that is no line terminator, and no space after a line break. */
  lemma KeptSpaceNext(s: string)
    requires s != [] && IsSpace(s[0]) && SpaceBeforeLineEnd(s).None?
    ensures var r := TrimLines(s[1..], IsLineTerminator(s[0]));
      r != [] && !IsLineTerminator(r[0]) && (IsLineTerminator(s[0]) ==> !IsSpace(r[0]))
  {
    var t := s[1..];
    var m := SpaceRun(s);
    assert 0 < m < |s|;
    assert SpaceRun(t) == m - 1 by { assert t[..m - 1] == s[1..m]; }
    assert t[m - 1] == s[m];
    if IsLineTerminator(s[0]) {
      TrimLinesLineStartHead(t);
    } else {
      forall j | 0 <= j < SpaceRun(t) ensures !IsLineTerminator(t[j]) {
        assert t[j] == s[j + 1];
      }
      TrimLinesInsideHead(t);
    }
  }

  /** The per-line trim started at a line start: every line trimmed and no blank line left. */
  lemma TrimLinesTrimmed(s: string)
    ensures TrimmedLines(TrimLines(s, true))
  {
    TrimLinesTail(s, true);
    if SpaceRun(s) < |s| {
      TrimLinesLineStartHead(s);
    } else if s != [] {
      assert IsSpace(s[0]) by { assert s[..SpaceRun(s)][0] == s[0]; }
      assert s[SpaceRun(s)..] == [];
    }
  }

  /** A text whose lines are already trimmed is left as it is. */
  lemma {:induction false} TrimLinesNoop(o: string, lineStart: bool)
    requires TrimmedTail(o)
    requires lineStart && o != [] ==> !IsSpace(o[0])
    ensures TrimLines(o, lineStart) == o
    decreases |o|
  {
    if o != [] {
      TrimmedTailSuffix(o, 1);
      assert o == [o[0]] + o[1..];
      if !IsSpace(o[0]) {
        TrimLinesNonSpaceHead(o, lineStart);
        TrimLinesNoop(o[1..], false);
      } else {
        TrimLinesSpaceHead(o, lineStart);
        assert o[1..] != [] ==> o[1..][0] == o[1];
        TrimLinesNoop(o[1..], IsLineTerminator(o[0]));
      }
    }
  }

  /** A space inside a trimmed line is kept, and a line break is never followed by a space. */
  lemma TrimLinesSpaceHead(o: string, lineStart: bool)
    requires TrimmedTail(o) && o != [] && IsSpace(o[0]) && !lineStart
    ensures TrimLines(o, lineStart) == [o[0]] + TrimLines(o[1..], IsLineTerminator(o[0]))
    ensures IsLineTerminator(o[0]) && |o| > 1 ==> !IsSpace(o[1])
  {
    var m := SpaceRun(o);
    assert m < |o|;
    forall j | 1 <= j < m ensures !IsLineTerminator(o[j]) {
      assert o[..m][j - 1] == o[j - 1];
    }
    assert SpaceBeforeLineEnd(o).None?;
  }

  /** The per-line trim is idempotent. */
  lemma TrimLinesIdempotent(s: string)
    ensures TrimLines(TrimLines(s, true), true) == TrimLines(s, true)
  {
    TrimLinesTrimmed(s);
    TrimLinesNoop(TrimLines(s, true), true);
  }

  /** Dropping a prefix keeps the lines trimmed. */
  lemma TrimmedTailSuffix(o: string, k: nat)
    requires k <= |o| && TrimmedTail(o)
    ensures TrimmedTail(o[k..])
  {
    var t := o[k..];
    forall i | 0 <= i < |t| - 1 && IsLineTerminator(t[i]) ensures !IsSpace(t[i + 1]) {
      assert t[i] == o[k + i] && t[i + 1] == o[k + i + 1];
    }
    forall i | 1 <= i < |t| && IsLineTerminator(t[i]) ensures !IsSpace(t[i - 1]) {
      assert t[i] == o[k + i] && t[i - 1] == o[k + i - 1];
    }
  }

  /** Trimming a text whose lines are trimmed gives a text whose lines are trimmed and which starts clean. */
  lemma TrimTrimmedTail(o: string)
    requires TrimmedTail(o)
    ensures TrimmedLines(Trim(o))
  {
    var a := SpaceRun(o);
    var r := Trim(o);
    if r != [] {
      assert a + |r| == |o|;
      assert r == o[a..];
      TrimmedTailSuffix(o, a);
    }
  }

  /** Text whose lines are trimmed has no blank lines, so no two newlines in a row. */
  lemma TrimmedNoDoubleNewline(o: string)
    requires TrimmedTail(o)
    ensures NoDoubleNewline(o)
  {
  }

  // ---------------------------------------------------------------------
  // Label strip: replace(new RegExp('(?:^|\\n)\\s*' + X + ':', 'gi'), '')
  // ---------------------------------------------------------------------

  /** The label `X:`, in any case, at `p`. */
  predicate LabelAt(s: string, x: string, p: nat)
    requires p <= |s|
  {
    CIPrefix(x + ":", s[p..])
  }

  lemma LabelAtTail(s: string, x: string, p: nat)
    requires s != [] && p < |s|
    ensures LabelAt(s, x, p + 1) == LabelAt(s[1..], x, p)
  {
    assert s[p + 1..] == s[1..][p..];
  }

  /** A line break at `i`, then whitespace, then the label `X:`. */
  predicate BreakLabelAt(s: string, x: string, i: nat)
    requires i < |s|
  {
    s[i] == '\n' && LabelAt(s, x, i + 1 + SpaceRun(s[i + 1..]))
  }

  /** The `\n` alternative, tried at every position. */
  function StripBreakLabels(s: string, x: string): (r: string)
    ensures CharsFrom(r, s)
    decreases |s|
  {
    if s == [] then []
    else if BreakLabelAt(s, x, 0) then
      var k := 1 + SpaceRun(s[1..]) + |x| + 1;
      var r := StripBreakLabels(s[k..], x);
      assert CharsFrom(r, s) by { SuffixChars(r, s, k); }
      r
    else
      var r := StripBreakLabels(s[1..], x);
      assert CharsFrom(r, s) by { SuffixChars(r, s, 1); }
      [s[0]] + r
  }

  /**
   * The whole replacement: at position 0 the `^` alternative takes leading
   * whitespace and the label; the scan then carries on after it, where only
   * the `\n` alternative can match.
   */
  function StripLabel(s: string, x: string): (r: string)
    ensures CharsFrom(r, s)
  {
    var n := SpaceRun(s);
    if LabelAt(s, x, n) then
      var r := StripBreakLabels(s[n + |x| + 1..], x);
      assert CharsFrom(r, s) by { SuffixChars(r, s, n + |x| + 1); }
      r
    else StripBreakLabels(s, x)
  }

  /** The strip loop of findSectionContent: every heading other than `h`, in list order, each time trimmed. */
  function StripOthers(c: string, h: string, hs: seq<string>): string
    decreases |hs|
  {
    if hs == [] then c else StripOthers(StripStep(c, h, hs[0]), h, hs[1..])
  }

  /** One turn of the strip loop: the label of another heading removed, then a trim. */
  function StripStep(c: string, h: string, x: string): string {
    if x != h then Trim(StripLabel(c, x)) else c
  }

  /** Stripping labels only removes characters. */
  lemma {:induction false} StripOthersChars(c: string, h: string, hs: seq<string>)
    ensures CharsFrom(StripOthers(c, h, hs), c)
    decreases |hs|
  {
    if hs == [] {
      assert forall i | 0 <= i < |c| :: c[i] in c;
    } else {
      var c' := StripStep(c, h, hs[0]);
      StripOthersChars(c', h, hs[1..]);
      if hs[0] != h {
        TrimCharsFrom(StripLabel(c, hs[0]));
        CharsFromTrans(c', StripLabel(c, hs[0]), c);
      } else {
        assert forall i | 0 <= i < |c| :: c[i] in c;
      }
      CharsFromTrans(StripOthers(c', h, hs[1..]), c', c);
    }
  }

  /** A label ends with its colon. */
  lemma LabelEndsWithColon(s: string, x: string, p: nat)
    requires p <= |s| && LabelAt(s, x, p)
    ensures s[p + |x|] == ':'
  {
    assert SameCase(s[p..][|x|], (x + ":")[|x|]);
  }

  /**
   * Cutting a piece that ends in a non-space character out of a text with
   * trimmed lines, right after another non-space character, keeps its lines
   * trimmed.
   */
  lemma CutKeepsTrimmedTail(a: string, b: string, g: string)
    requires TrimmedTail(a + b + g)
    requires a != [] && !IsSpace(a[|a| - 1]) && b != [] && !IsSpace(b[|b| - 1])
    ensures TrimmedTail(a + g)
  {
    var o := a + b + g;
    var o' := a + g;
    assert g != [] ==> o'[|o'| - 1] == o[|o| - 1];
    forall i | 0 <= i < |o'| - 1 && IsLineTerminator(o'[i]) ensures !IsSpace(o'[i + 1]) {
      if i < |a| - 1 {
        assert o'[i] == o[i] && o'[i + 1] == o[i + 1];
      } else if i >= |a| {
        assert o'[i] == o[i + |b|] && o'[i + 1] == o[i + 1 + |b|];
      }
    }
    forall i | 1 <= i < |o'| && IsLineTerminator(o'[i]) ensures !IsSpace(o'[i - 1]) {
      if i < |a| {
        assert o'[i] == o[i] && o'[i - 1] == o[i - 1];
      } else if i > |a| {
        assert o'[i] == o[i + |b|] && o'[i - 1] == o[i - 1 + |b|];
      }
    }
  }

  /** Removing labels after a non-empty prefix keeps the lines of the whole trimmed. */
  lemma {:induction false} StripBreakLabelsTrimmedTail(p: string, s: string, x: string)
    requires p != [] && TrimmedTail(p + s)
    ensures TrimmedTail(p + StripBreakLabels(s, x))
    decreases |s|
  {
    if s != [] {
      if BreakLabelAt(s, x, 0) {
        var k := 1 + SpaceRun(s[1..]) + |x| + 1;
        CutLabelTrimmedTail(p, s, x);
        StripBreakLabelsTrimmedTail(p, s[k..], x);
        CutLabelStep(s, x);
      } else {
        KeepCharTrimmedTail(p, s, x);
        StripBreakLabelsTrimmedTail(p + [s[0]], s[1..], x);
      }
    }
  }

  lemma {:induction false} CutLabelTrimmedTail(p: string, s: string, x: string)
    requires p != [] && TrimmedTail(p + s) && s != [] && s[0] == '\n'
    requires LabelAt(s, x, 1 + SpaceRun(s[1..]))
    ensures TrimmedTail(p + s[1 + SpaceRun(s[1..]) + |x| + 1..])
  {
    var n := 1 + SpaceRun(s[1..]);
    var k := n + |x| + 1;
    LabelEndsWithColon(s, x, n);
    var b := s[..k];
    var g := s[k..];
    assert b[k - 1] == ':';
    assert s == b + g;
    assert p + s == p + b + g;
    assert (p + s)[|p|] == '\n';
    assert !IsSpace(p[|p| - 1]) by {
      assert (p + s)[|p| - 1] == p[|p| - 1];
    }
    CutKeepsTrimmedTail(p, b, g);
    assert s[1 + SpaceRun(s[1..]) + |x| + 1..] == g;
  }

  lemma CutLabelStep(s: string, x: string)
    requires s != [] && BreakLabelAt(s, x, 0)
    ensures StripBreakLabels(s, x) == StripBreakLabels(s[1 + SpaceRun(s[1..]) + |x| + 1..], x)
  {
  }

  lemma KeepCharStep(s: string, x: string)
    requires s != [] && !BreakLabelAt(s, x, 0)
    ensures StripBreakLabels(s, x) == [s[0]] + StripBreakLabels(s[1..], x)
  {
  }

  lemma {:induction false} KeepCharTrimmedTail(p: string, s: string, x: string)
    requires s != [] && !BreakLabelAt(s, x, 0)
    ensures (p + [s[0]]) + s[1..] == p + s
    ensures p + StripBreakLabels(s, x) == (p + [s[0]]) + StripBreakLabels(s[1..], x)
  {
    var t := StripBreakLabels(s[1..], x);
    KeepCharStep(s, x);
    assert p + ([s[0]] + t) == (p + [s[0]]) + t;
    assert s == [s[0]] + s[1..];
  }

  /** Removing one heading's labels from a text with trimmed lines, then trimming, keeps it so. */
  lemma StripStepTrimmed(c: string, h: string, x: string)
    requires TrimmedLines(c)
    ensures TrimmedLines(StripStep(c, h, x))
  {
    if x != h {
      var n := SpaceRun(c);
      if LabelAt(c, x, n) {
        assert n == 0;
        var k := |x| + 1;
        LabelEndsWithColon(c, x, 0);
        TrimmedTailSuffix(c, k - 1);
        assert c[k - 1..] == [':'] + c[k..];
        StripBreakLabelsTrimmedTail([':'], c[k..], x);
        TrimmedTailSuffix([':'] + StripBreakLabels(c[k..], x), 1);
        assert ([':'] + StripBreakLabels(c[k..], x))[1..] == StripLabel(c, x);
      } else if c != [] {
        assert c == [c[0]] + c[1..];
        StripBreakLabelsTrimmedTail([c[0]], c[1..], x);
        assert StripLabel(c, x) == [c[0]] + StripBreakLabels(c[1..], x);
      }
      TrimTrimmedTail(StripLabel(c, x));
    }
  }

  /** The strip loop keeps every line trimmed. */
  lemma {:induction false} StripOthersTrimmed(c: string, h: string, hs: seq<string>)
    requires TrimmedLines(c)
    ensures TrimmedLines(StripOthers(c, h, hs))
    decreases |hs|
  {
    if hs != [] {
      StripStepTrimmed(c, h, hs[0]);
      StripOthersTrimmed(StripStep(c, h, hs[0]), h, hs[1..]);
    }
  }

  /** Text in which no label of `x` follows a line break, nor the leading whitespace, is left as it is. */
  lemma {:induction false} StripBreakLabelsAbsent(s: string, x: string)
    requires forall i | 0 <= i < |s| :: !BreakLabelAt(s, x, i)
    ensures StripBreakLabels(s, x) == s
    decreases |s|
  {
    if s != [] {
      assert !BreakLabelAt(s, x, 0);
      var t := s[1..];
      forall i | 0 <= i < |t| ensures !BreakLabelAt(t, x, i) {
        BreakLabelAtTail(s, x, i);
      }
      StripBreakLabelsAbsent(t, x);
      KeepCharStep(s, x);
      assert s == [s[0]] + t;
    }
  }

  lemma BreakLabelAtTail(s: string, x: string, i: nat)
    requires i + 1 < |s|
    ensures BreakLabelAt(s, x, i + 1) == BreakLabelAt(s[1..], x, i)
  {
    var t := s[1..];
    assert s[i + 2..] == t[i + 1..];
    LabelAtTail(s, x, i + 1 + SpaceRun(t[i + 1..]));
  }

  /** A label at the very start goes, together with the whitespace before it. */
  lemma {:induction false} StripLeadingLabel(w: string, x: string, rest: string)
    requires AllSpace(w) && (x == [] || !IsSpace(x[0]))
    ensures StripLabel(w + x + ":" + rest, x) == StripBreakLabels(rest, x)
  {
    var s := w + x + ":" + rest;
    assert s == w + (x + ":" + rest);
    if x == [] {
      assert x + ":" + rest == ":" + rest;
    }
    SpaceRunOf(w, x + ":" + rest);
    assert s[|w|..] == (x + ":") + rest;
    CIPrefixSelf(x + ":", rest);
    assert s[|w| + |x| + 1..] == rest;
  }

  /** `findSectionContent`, second half: the cleaning applied to a body. */
  function CleanSectionText(body: string, h: string, hs: seq<string>): string {
    var c := TrimLines(StripBrackets(Trim(body)), true);
    Trim(CollapseNewlines(StripOthers(c, h, hs), 3))
  }

  /** `findSectionContent(content, heading, sections)`; `None` stands for `null`. */
  function FindSectionContentSpec(content: string, h: string, hs: seq<string>): Option<string> {
    var s := NormalizeNewlines(content);
    match SectionBounds(s, h, hs)
    case None => None
    case Some((a, b)) =>
      var t := CleanSectionText(s[a..b], h, hs);
      if t == "" then None else Some(t)
  }

  /** `findSectionContent`. */
  method FindSectionContent(content: string, h: string, hs: seq<string>) returns (r: Option<string>)
    ensures r == FindSectionContentSpec(content, h, hs)
  {
    var s := NormalizeNewlines(content);
    var bounds := SectionBounds(s, h, hs);
    if bounds.None? {
      return None;
    }
    var body := s[bounds.value.0..bounds.value.1];
    var c := TrimLines(StripBrackets(Trim(body)), true);
    c := StripOtherHeadings(c, h, hs);
    c := Trim(CollapseNewlines(c, 3));
    SpecOfBounds(content, h, hs, bounds.value.0, bounds.value.1);
    if c == "" {
      r := None;
    } else {
      r := Some(c);
    }
  }

  lemma SpecOfBounds(content: string, h: string, hs: seq<string>, a: nat, b: nat)
    requires SectionBounds(NormalizeNewlines(content), h, hs) == Some((a, b))
    ensures a <= b <= |NormalizeNewlines(content)|
    ensures FindSectionContentSpec(content, h, hs) ==
      var t := CleanSectionText(NormalizeNewlines(content)[a..b], h, hs); if t == "" then None else Some(t)
  {
  }

  /** The strip loop of `findSectionContent`. */
  method StripOtherHeadings(c0: string, h: string, hs: seq<string>) returns (c: string)
    ensures c == StripOthers(c0, h, hs)
  {
    c := c0;
    var i := 0;
    while i < |hs|
      invariant 0 <= i <= |hs|
      invariant StripOthers(c, h, hs[i..]) == StripOthers(c0, h, hs)
    {
      StripOthersUnfold(c, h, hs, i);
      ghost var next := StripStep(c, h, hs[i]);
      if hs[i] != h {
        c := Trim(StripLabel(c, hs[i]));
      }
      assert c == next;
      i := i + 1;
    }
    assert hs[i..] == [];
  }

  lemma StripOthersUnfold(c: string, h: string, hs: seq<string>, i: nat)
    requires i < |hs|
    ensures StripOthers(c, h, hs[i..]) == StripOthers(StripStep(c, h, hs[i]), h, hs[i + 1..])
  {
    assert hs[i..][0] == hs[i] && hs[i..][1..] == hs[i + 1..];
  }

  /** What a found section looks like: non-empty, without brackets, every line trimmed and none blank. */
  lemma FindSectionContentShape(content: string, h: string, hs: seq<string>)
    requires FindSectionContentSpec(content, h, hs).Some?
    ensures var t := FindSectionContentSpec(content, h, hs).value;
      t != "" && NoBrackets(t) && TrimmedLines(t)
    ensures exists q | 0 <= q <= |NormalizeNewlines(content)| :: HeadingLineEnd(NormalizeNewlines(content), h, q).Some?
  {
    var s := NormalizeNewlines(content);
    SectionBoundsFound(s, h, hs);
    var (a, b) := SectionBounds(s, h, hs).value;
    CleanSectionTextShape(s[a..b], h, hs);
  }

  /** The cleaning leaves no bracket and trims every line. */
  lemma CleanSectionTextShape(body: string, h: string, hs: seq<string>)
    ensures NoBrackets(CleanSectionText(body, h, hs)) && TrimmedLines(CleanSectionText(body, h, hs))
  {
    var sb := StripBrackets(Trim(body));
    var c := TrimLines(sb, true);
    TrimLinesTrimmed(sb);
    CharsFromNoBrackets(c, sb);
    var d := StripOthers(c, h, hs);
    StripOthersTrimmed(c, h, hs);
    StripOthersChars(c, h, hs);
    CharsFromNoBrackets(d, c);
    TrimmedNoDoubleNewline(d);
    CollapseNoop(d, 3);
    TrimNoop(d);
  }

  /** Without a heading line for `h` there is no section. */
  lemma FindSectionContentAbsent(content: string, h: string, hs: seq<string>)
    requires forall q | 0 <= q <= |NormalizeNewlines(content)| :: HeadingLineEnd(NormalizeNewlines(content), h, q).None?
    ensures FindSectionContentSpec(content, h, hs).None?
  {
    SectionBoundsFound(NormalizeNewlines(content), h, hs);
  }

  // ---------------------------------------------------------------------
  // parseSections
  // ---------------------------------------------------------------------

  /** `replace(/\s+/g, '-')`: every whitespace run becomes one dash. */
  function DashSpaceRuns(s: string): string
    decreases |s|
  {
    if s == [] then []
    else if IsSpace(s[0]) then "-" + DashSpaceRuns(s[SpaceRun(s)..])
    else [s[0]] + DashSpaceRuns(s[1..])
  }

  /** The id of the section of heading `h`. */
  function SectionId(h: string): string {
    DashSpaceRuns(ToLower(h))
  }

  /** With single spaces only, each space becomes a dash and nothing else changes. */
  lemma {:induction false} DashSingleSpaces(s: string)
    requires forall i | 0 <= i < |s| :: IsSpace(s[i]) ==> s[i] == ' '
    requires forall i | 0 <= i < |s| - 1 :: !(s[i] == ' ' && s[i + 1] == ' ')
    ensures |DashSpaceRuns(s)| == |s|
    ensures forall i | 0 <= i < |s| :: DashSpaceRuns(s)[i] == if s[i] == ' ' then '-' else s[i]
    decreases |s|
  {
    if s != [] {
      if IsSpace(s[0]) {
        assert SpaceRun(s) == 1 by {
          if |s| > 1 { assert s[1] != ' '; assert !IsSpace(s[1]); }
        }
      }
      DashSingleSpaces(s[1..]);
    }
  }

  /** A plain heading's id is the heading in lower case with its spaces turned into dashes. */
  lemma SectionIdPlain(h: string)
    requires Plain(h)
    ensures |SectionId(h)| == |h|
    ensures forall i | 0 <= i < |h| :: SectionId(h)[i] == if h[i] == ' ' then '-' else LowerChar(h[i])
  {
    var l := ToLower(h);
    forall i | 0 <= i < |l| ensures IsSpace(l[i]) ==> l[i] == ' ' {
      assert PlainChar(h[i]);
    }
    forall i | 0 <= i < |l| - 1 ensures !(l[i] == ' ' && l[i + 1] == ' ') {
      assert PlainChar(h[i]) && PlainChar(h[i + 1]);
    }
    DashSingleSpaces(l);
    forall i | 0 <= i < |h| ensures (l[i] == ' ') == (h[i] == ' ') {
      assert PlainChar(h[i]);
    }
  }

  /** Different plain headings get different ids. */
  lemma SectionIdInjective(h1: string, h2: string)
    requires Plain(h1) && Plain(h2) && SectionId(h1) == SectionId(h2)
    ensures h1 == h2
  {
    SectionIdPlain(h1);
    SectionIdPlain(h2);
    forall i | 0 <= i < |h1| ensures h1[i] == h2[i] {
      assert PlainChar(h1[i]) && PlainChar(h2[i]);
      assert SectionId(h1)[i] == SectionId(h2)[i];
    }
  }

  /** The section made for a heading and its text: one version, number 0, shown, not being regenerated. */
  function SectionOf(h: string, text: string, now: int): NoteSection {
    NoteSection(SectionId(h), h, [SectionVersion(0, CollapseNewlines(text, 2), now)], 0, false, None)
  }

  /** What the loop of `parseSections` adds for heading `h` and the text found for it. */
  function SectionsFor(h: string, found: Option<string>, now: int): seq<NoteSection> {
    match found
    case None => []
    case Some(t) => [SectionOf(h, t, now)]
  }

  /** The loop of `parseSections` over headings and the text found for each. */
  function CollectSections(todo: seq<string>, found: seq<Option<string>>, now: int): seq<NoteSection>
    requires |found| == |todo|
  {
    if todo == [] then [] else SectionsFor(todo[0], found[0], now) + CollectSections(todo[1..], found[1..], now)
  }

  /** The text found for each heading of `todo`. */
  function Lookups(cleaned: string, hs: seq<string>, todo: seq<string>): (r: seq<Option<string>>)
    ensures |r| == |todo|
  {
    if todo == [] then [] else [FindSectionContentSpec(cleaned, todo[0], hs)] + Lookups(cleaned, hs, todo[1..])
  }

  lemma {:induction false} LookupsAt(cleaned: string, hs: seq<string>, todo: seq<string>, k: nat)
    requires k < |todo|
    ensures Lookups(cleaned, hs, todo)[k] == FindSectionContentSpec(cleaned, todo[k], hs)
  {
    if k > 0 {
      LookupsAt(cleaned, hs, todo[1..], k - 1);
    }
  }

  /** `parseSections`: the text is cleaned with the session or assessment default headings. */
  function ParseSectionsSpec(content: string, isAssessment: bool, noteFormat: string, now: int): seq<NoteSection>
    requires isAssessment || Known(noteFormat)
  {
    assert Known("girp");
    var hs := HeadingsFor(isAssessment, noteFormat);
    var cleaned := CleanContentSpec(content, HeadingsFor(isAssessment, "girp"));
    Parsed(cleaned, hs, now)
  }

  /** `parseSections`; `now` is the clock reading taken for the new versions. */
  method ParseSections(content: string, isAssessment: bool, noteFormat: string, now: int)
    returns (result: seq<NoteSection>)
    requires isAssessment || Known(noteFormat)
    ensures result == ParseSectionsSpec(content, isAssessment, noteFormat, now)
  {
    var hs := HeadingsFor(isAssessment, noteFormat);
    assert Known("girp");
    var cleaned := CleanContent(content, isAssessment, "girp");
    result := ParseCleaned(cleaned, hs, now);
  }

  /** The section loop of `parseSections`. */
  method ParseCleaned(cleaned: string, hs: seq<string>, now: int) returns (result: seq<NoteSection>)
    ensures result == CollectSections(hs, Lookups(cleaned, hs, hs), now)
  {
    result := [];
    var i := 0;
    assert hs[0..] == hs;
    while i < |hs|
      invariant i <= |hs|
      invariant result + Remaining(cleaned, hs, i, now) == CollectSections(hs, Lookups(cleaned, hs, hs), now)
    {
      var piece := ParseHeading(cleaned, hs[i], hs, now);
      RemainingStep(cleaned, hs, i, now, result, piece);
      result := result + piece;
      i := i + 1;
    }
  }

  /** The sections the loop still adds from heading `i` on. */
  function Remaining(cleaned: string, hs: seq<string>, i: nat, now: int): seq<NoteSection>
    requires i <= |hs|
  {
    CollectSections(hs[i..], Lookups(cleaned, hs, hs[i..]), now)
  }

  lemma RemainingStep(cleaned: string, hs: seq<string>, i: nat, now: int, done: seq<NoteSection>, piece: seq<NoteSection>)
    requires i < |hs|
    requires piece == SectionsFor(hs[i], FindSectionContentSpec(cleaned, hs[i], hs), now)
    ensures done + Remaining(cleaned, hs, i, now) == (done + piece) + Remaining(cleaned, hs, i + 1, now)
  {
    assert hs[i..][1..] == hs[i + 1..];
  }

  /** One turn of the loop of `parseSections`: the section of heading `h`, when its text is found. */
  method ParseHeading(cleaned: string, h: string, hs: seq<string>, now: int) returns (piece: seq<NoteSection>)
    ensures piece == SectionsFor(h, FindSectionContentSpec(cleaned, h, hs), now)
  {
    var sectionContent := FindSectionContent(cleaned, h, hs);
    if sectionContent.Some? {
      var formatted := CollapseNewlines(sectionContent.value, 2);
      piece := [NoteSection(SectionId(h), h, [SectionVersion(0, formatted, now)], 0, false, None)];
    } else {
      piece := [];
    }
  }

  /** The first index of `h` in `hs`. */
  function Position(hs: seq<string>, h: string): (k: nat)
    requires h in hs
    ensures k < |hs| && hs[k] == h && forall j | 0 <= j < k :: hs[j] != h
  {
    if hs[0] == h then 0 else 1 + Position(hs[1..], h)
  }

  /** In a list without repetitions the position of `todo[k]` is `k`. */
  lemma PositionDistinct(todo: seq<string>, k: nat)
    requires Distinct(todo) && k < |todo|
    ensures Position(todo, todo[k]) == k
  {
  }

  /** Positions in the rest of a list without repetitions are one less. */
  lemma PositionTail(todo: seq<string>, h: string)
    requires Distinct(todo) && |todo| > 0 && h in todo[1..]
    ensures h in todo && h != todo[0] && Position(todo, h) == 1 + Position(todo[1..], h)
  {
    var k := Position(todo[1..], h);
    assert todo[k + 1] == h;
  }

  /**
   * Every section comes from a heading of the list whose text was found,
   * and is made from that heading and its text.
   */
  lemma {:induction false} CollectSectionsFrom(todo: seq<string>, found: seq<Option<string>>, now: int)
    requires |found| == |todo| && Distinct(todo)
    ensures var r := CollectSections(todo, found, now);
      |r| <= |todo|
      && forall j | 0 <= j < |r| :: FromList(r[j], todo, found, now)
    decreases |todo|
  {
    if todo != [] {
      var rest := CollectSections(todo[1..], found[1..], now);
      assert Distinct(todo[1..]);
      CollectSectionsFrom(todo[1..], found[1..], now);
      var r := CollectSections(todo, found, now);
      var d := if found[0].Some? then 1 else 0;
      assert r == SectionsFor(todo[0], found[0], now) + rest;
      forall j | 0 <= j < |r| ensures FromList(r[j], todo, found, now) {
        if j < d {
          assert r[j] == SectionOf(todo[0], found[0].value, now);
        } else {
          assert r[j] == rest[j - d];
          LiftSection(todo, found, now, rest[j - d]);
        }
      }
    }
  }

  /** Section `s` is made from a heading of `todo` and the text found for it. */
  predicate FromList(s: NoteSection, todo: seq<string>, found: seq<Option<string>>, now: int)
    requires |found| == |todo|
  {
    s.heading in todo && found[Position(todo, s.heading)].Some?
    && s == SectionOf(s.heading, found[Position(todo, s.heading)].value, now)
  }

  lemma LiftSection(todo: seq<string>, found: seq<Option<string>>, now: int, s: NoteSection)
    requires |found| == |todo| && Distinct(todo) && todo != []
    requires FromList(s, todo[1..], found[1..], now)
    ensures FromList(s, todo, found, now)
  {
    PositionTail(todo, s.heading);
  }

  /** Every heading whose text was found gets a section. */
  lemma {:induction false} CollectSectionsComplete(todo: seq<string>, found: seq<Option<string>>, now: int, k: nat)
    requires |found| == |todo| && k < |todo| && found[k].Some?
    ensures exists j | 0 <= j < |CollectSections(todo, found, now)| :: CollectSections(todo, found, now)[j].heading == todo[k]
    decreases |todo|
  {
    var rest := CollectSections(todo[1..], found[1..], now);
    var r := CollectSections(todo, found, now);
    if k == 0 {
      assert r == [SectionOf(todo[0], found[0].value, now)] + rest;
      assert 0 < |r| && r[0].heading == todo[k];
    } else {
      CollectSectionsComplete(todo[1..], found[1..], now, k - 1);
      var j :| 0 <= j < |rest| && rest[j].heading == todo[1..][k - 1];
      assert r == SectionsFor(todo[0], found[0], now) + rest;
      assert r[|r| - |rest| + j] == rest[j];
    }
  }

  /** Sections come in the order of their headings in the list. */
  lemma {:induction false} CollectSectionsOrder(todo: seq<string>, found: seq<Option<string>>, now: int)
    requires |found| == |todo| && Distinct(todo)
    ensures var r := CollectSections(todo, found, now);
      forall j1, j2 | 0 <= j1 < j2 < |r| && r[j1].heading in todo && r[j2].heading in todo ::
        Position(todo, r[j1].heading) < Position(todo, r[j2].heading)
    decreases |todo|
  {
    if todo != [] {
      var rest := CollectSections(todo[1..], found[1..], now);
      assert Distinct(todo[1..]);
      CollectSectionsOrder(todo[1..], found[1..], now);
      CollectSectionsFrom(todo[1..], found[1..], now);
      if found[0].Some? {
        CollectSectionsOrderHead(todo, found, now, rest, CollectSections(todo, found, now));
      } else {
        assert CollectSections(todo, found, now) == rest;
        forall h | h in todo[1..] ensures h in todo && h != todo[0] && Position(todo, h) == 1 + Position(todo[1..], h) {
          PositionTail(todo, h);
        }
      }
    }
  }

  lemma {:induction false} CollectSectionsOrderHead(todo: seq<string>, found: seq<Option<string>>, now: int,
                                                    rest: seq<NoteSection>, r: seq<NoteSection>)
    requires |found| == |todo| && Distinct(todo) && todo != [] && found[0].Some?
    requires rest == CollectSections(todo[1..], found[1..], now) && r == CollectSections(todo, found, now)
    requires forall j | 0 <= j < |rest| :: rest[j].heading in todo[1..]
    requires forall j1, j2 | 0 <= j1 < j2 < |rest| && rest[j1].heading in todo[1..] && rest[j2].heading in todo[1..] ::
               Position(todo[1..], rest[j1].heading) < Position(todo[1..], rest[j2].heading)
    ensures forall j1, j2 | 0 <= j1 < j2 < |r| && r[j1].heading in todo && r[j2].heading in todo ::
              Position(todo, r[j1].heading) < Position(todo, r[j2].heading)
  {
    assert r == [SectionOf(todo[0], found[0].value, now)] + rest;
    assert r[0].heading == todo[0];
    assert Position(todo, todo[0]) == 0;
    forall h | h in todo[1..] ensures h in todo && h != todo[0] && Position(todo, h) == 1 + Position(todo[1..], h) {
      PositionTail(todo, h);
    }
    forall j1, j2 | 0 <= j1 < j2 < |r| && r[j1].heading in todo && r[j2].heading in todo
      ensures Position(todo, r[j1].heading) < Position(todo, r[j2].heading)
    {
      assert r[j2] == rest[j2 - 1];
      assert rest[j2 - 1].heading in todo[1..];
      if j1 > 0 {
        assert r[j1] == rest[j1 - 1];
        assert rest[j1 - 1].heading in todo[1..];
      }
    }
  }

  /** The sections `parseSections` builds from cleaned text for a heading list. */
  function Parsed(cleaned: string, hs: seq<string>, now: int): seq<NoteSection> {
    CollectSections(hs, Lookups(cleaned, hs, hs), now)
  }

  /**
   * `parseSections` has a section for exactly the headings of the list
   * whose text is found, at most one per heading.
   */
  lemma ParsedHeadings(cleaned: string, hs: seq<string>, now: int)
    requires WellFormed(hs)
    ensures |Parsed(cleaned, hs, now)| <= |hs|
    ensures forall h :: (exists j | 0 <= j < |Parsed(cleaned, hs, now)| :: Parsed(cleaned, hs, now)[j].heading == h) <==>
                        h in hs && FindSectionContentSpec(cleaned, h, hs).Some?
  {
    var found := Lookups(cleaned, hs, hs);
    var r := Parsed(cleaned, hs, now);
    CollectSectionsFrom(hs, found, now);
    forall h | h in hs ensures found[Position(hs, h)] == FindSectionContentSpec(cleaned, h, hs) {
      LookupsAt(cleaned, hs, hs, Position(hs, h));
    }
    forall h | h in hs && found[Position(hs, h)].Some? ensures exists j | 0 <= j < |r| :: r[j].heading == h {
      CollectSectionsComplete(hs, found, now, Position(hs, h));
    }
  }

  /** Sections come in the order of their headings in the list, and no two share an id. */
  lemma ParsedOrder(cleaned: string, hs: seq<string>, now: int)
    requires WellFormed(hs)
    ensures forall j | 0 <= j < |Parsed(cleaned, hs, now)| :: Parsed(cleaned, hs, now)[j].heading in hs
    ensures var r := Parsed(cleaned, hs, now);
      forall j1, j2 | 0 <= j1 < j2 < |r| :: Position(hs, r[j1].heading) < Position(hs, r[j2].heading)
    ensures var r := Parsed(cleaned, hs, now);
      forall j1, j2 | 0 <= j1 < j2 < |r| :: r[j1].id != r[j2].id
  {
    var found := Lookups(cleaned, hs, hs);
    var r := Parsed(cleaned, hs, now);
    CollectSectionsFrom(hs, found, now);
    CollectSectionsOrder(hs, found, now);
    forall j1, j2 | 0 <= j1 < j2 < |r| ensures r[j1].id != r[j2].id {
      assert Plain(r[j1].heading) && Plain(r[j2].heading);
      if r[j1].id == r[j2].id {
        SectionIdInjective(r[j1].heading, r[j2].heading);
      }
    }
  }

  /**
   * Each section has its heading's id and a single version 0 holding the
   * text found for its heading, made of trimmed non-blank lines without
   * brackets, and is neither processing nor in error.
   */
  lemma ParsedSections(cleaned: string, hs: seq<string>, now: int, j: nat)
    requires WellFormed(hs) && j < |Parsed(cleaned, hs, now)|
    ensures var r := Parsed(cleaned, hs, now)[j];
      r.heading in hs && FindSectionContentSpec(cleaned, r.heading, hs).Some?
      && r.id == SectionId(r.heading)
      && r.versions == [SectionVersion(0, FindSectionContentSpec(cleaned, r.heading, hs).value, now)]
      && r.currentVersion == 0 && !r.isProcessing && r.error.None?
    ensures var t := Parsed(cleaned, hs, now)[j].versions[0].content;
      t != "" && NoBrackets(t) && TrimmedLines(t)
  {
    var found := Lookups(cleaned, hs, hs);
    var r := Parsed(cleaned, hs, now);
    CollectSectionsFrom(hs, found, now);
    var h := r[j].heading;
    LookupsAt(cleaned, hs, hs, Position(hs, h));
    var t := FindSectionContentSpec(cleaned, h, hs).value;
    FindSectionContentShape(cleaned, h, hs);
    TrimmedNoDoubleNewline(t);
    CollapseNoop(t, 2);
  }
}
