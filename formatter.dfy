/**
 * The response formatter: it standardises line breaks, then rebuilds one
 * `HEADING:\n\nbody` block for each heading of the note's kind found in the
 * text, in heading order, and joins the blocks with blank lines.
 */
module Formatter {
  import opened JsString
  import opened Formats
  import opened Constants
  import opened Patterns
  import opened Lists

  // ---------------------------------------------------------------------
  // standardizeLineBreaks and formatSection
  // ---------------------------------------------------------------------

  /** `standardizeLineBreaks`: `\r\n` and `\r` become `\n`, then trim, then runs of three or more `\n` become two. */
  function StandardizeLineBreaks(content: string): string {
    CollapseNewlines(Trim(NormalizeNewlines(content)), 3)
  }

  /** The standardised text has no `\r`, no three newlines in a row, and no whitespace at either end. */
  lemma StandardizeLineBreaksShape(content: string)
    ensures var r := StandardizeLineBreaks(content);
      '\r' !in r
      && NoTripleNewline(r)
      && (r == "" || (!IsSpace(r[0]) && !IsSpace(r[|r| - 1])))
      && (r == "" <==> AllSpace(NormalizeNewlines(content)))
  {
    var t := Trim(NormalizeNewlines(content));
    StandardizeNoCR(content);
    CollapseNoTriple(t);
    CollapseEnds(t);
  }

  lemma StandardizeNoCR(content: string)
    ensures '\r' !in StandardizeLineBreaks(content)
  {
    var n := NormalizeNewlines(content);
    var t := Trim(n);
    var r := CollapseNewlines(t, 3);
    TrimCharsFrom(n);
    forall i | 0 <= i < |r| ensures r[i] != '\r' {
      assert r[i] in t;
      var j :| 0 <= j < |t| && t[j] == r[i];
      assert t[j] in n;
    }
  }

  /** Collapsing newlines keeps ends that are not whitespace, and empties only the empty string. */
  lemma CollapseEnds(t: string)
    requires t == "" || (!IsSpace(t[0]) && !IsSpace(t[|t| - 1]))
    ensures var r := CollapseNewlines(t, 3);
      (r == "" <==> t == "") && (r == "" || (!IsSpace(r[0]) && !IsSpace(r[|r| - 1])))
  {
    if t != "" {
      assert IsSpace('\n');
      CollapseKeepsFirst(t);
      CollapseKeepsLast(t);
    }
  }

  /**
   * `formatSection`: `replace(/^\s+|\s+$/g, '')`, `trim`, then
   * `replace(/\[\s*|\s*\]/g, '')`.
   */
  function FormatSection(section: string): (r: string)
    ensures NoBrackets(r)
    ensures CharsFrom(r, section)
  {
    var cleaned := Trim(ReplaceEdgeSpace(section));
    ReplaceEdgeSpaceIsTrim(section);
    TrimIdempotent(section);
    TrimCharsFrom(section);
    var r := StripBrackets(cleaned);
    assert CharsFrom(r, section) by {
      forall i | 0 <= i < |r| ensures r[i] in section {
        assert r[i] in cleaned;
      }
    }
    r
  }

  /** Text without brackets and without whitespace at its ends comes out unchanged. */
  lemma FormatSectionNoop(section: string)
    requires NoBrackets(section)
    requires section == "" || (!IsSpace(section[0]) && !IsSpace(section[|section| - 1]))
    ensures FormatSection(section) == section
  {
    ReplaceEdgeSpaceIsTrim(section);
    TrimNoop(section);
    StripBracketsNoop(section);
  }

  /**
   * The whitespace around the text goes, and so does each bracket with the
   * whitespace inside it: `  [ word ]rest` becomes `wordrest`.
   */
  lemma FormatSectionBrackets(w1: string, a: string, w2: string, w3: string, b: string)
    requires AllSpace(w1) && AllSpace(w2) && AllSpace(w3)
    requires a != "" && NoBrackets(a) && forall i | 0 <= i < |a| :: !IsSpace(a[i])
    requires b != "" && !IsSpace(b[|b| - 1]) && NoBrackets(b)
    ensures FormatSection(w1 + "[" + w2 + a + w3 + "]" + b) == a + b
  {
    var y := w3 + "]" + b;
    var x := a + y;
    var s0 := "[" + w2 + x;
    assert w1 + "[" + w2 + a + w3 + "]" + b == w1 + s0;
    assert StripBrackets(s0) == a + b by {
      StripOpenBracket(w2, x);
      StripKeepsPlain(a, y);
      StripCloseBracket(w3, b);
      StripBracketsNoop(b);
    }
    assert Trim(ReplaceEdgeSpace(w1 + s0)) == s0 by {
      assert s0[|s0| - 1] == b[|b| - 1];
      ReplaceEdgeSpaceIsTrim(w1 + s0);
      TrimEdges(w1, s0);
      TrimNoop(s0);
    }
  }

  /** Bracket-free text with no whitespace is copied through by the bracket strip. */
  lemma {:induction false} StripKeepsPlain(a: string, t: string)
    requires NoBrackets(a) && forall i | 0 <= i < |a| :: !IsSpace(a[i])
    ensures StripBrackets(a + t) == a + StripBrackets(t)
    decreases |a|
  {
    if a != "" {
      var c := a[0];
      var a' := a[1..];
      assert a + t == [c] + (a' + t);
      StripKeepsPlainChar(c, a' + t);
      assert NoBrackets(a') by {
        forall i | 0 <= i < |a'| ensures a'[i] != '[' && a'[i] != ']' { assert a'[i] == a[i + 1]; }
      }
      assert forall i | 0 <= i < |a'| :: !IsSpace(a'[i]) by {
        forall i | 0 <= i < |a'| ensures !IsSpace(a'[i]) { assert a'[i] == a[i + 1]; }
      }
      StripKeepsPlain(a', t);
      assert a == [c] + a';
      ConsAssoc(c, a', StripBrackets(t));
      assert StripBrackets(a + t) == [c] + StripBrackets(a' + t);
    } else {
      assert a + t == t && a + StripBrackets(t) == StripBrackets(t);
    }
  }

  lemma ConsAssoc(c: char, a: string, x: string)
    ensures [c] + (a + x) == ([c] + a) + x
  {
  }

  lemma TrimEdges(w: string, t: string)
    requires AllSpace(w) && t != "" && !IsSpace(t[0]) && !IsSpace(t[|t| - 1])
    ensures Trim(w + t) == t
  {
    SpaceRunOf(w, t);
    var r := Trim(w + t);
    assert (w + t)[|w|..] == t;
    assert |r| == |t|;
    assert forall k | 0 <= k < |r| :: r[k] == t[k];
  }

  // ---------------------------------------------------------------------
  // Heading matching: `HEADING:([^]*?)(?=H1:|H2:|…|$)` with the `i` flag
  // ---------------------------------------------------------------------

  /**
   * The escaped heading and its colon match at `q`. Escaping makes the
   * pattern match the heading literally, and the `i` flag makes the match
   * ignore letter case.
   */
  predicate HeadingAt(s: string, h: string, q: nat) {
    q <= |s| && CIPrefix(h + ":", s[q..])
  }

  /** A position at or after `from` where heading `h` and its colon match, scanning left to right. */
  function FirstHeading(s: string, h: string, from: nat): (r: Option<nat>)
    requires from <= |s|
    ensures r.Some? ==> from <= r.value <= |s| && HeadingAt(s, h, r.value)
    decreases |s| - from
  {
    if HeadingAt(s, h, from) then Some(from)
    else if from == |s| then None
    else FirstHeading(s, h, from + 1)
  }

  /** The position `FirstHeading` finds is the leftmost match, and none is found only when there is none. */
  lemma {:induction false} FirstHeadingLeftmost(s: string, h: string, from: nat)
    requires from <= |s|
    ensures var r := FirstHeading(s, h, from);
      (r.Some? ==> forall q | from <= q < r.value :: !HeadingAt(s, h, q))
      && (r.None? ==> forall q | from <= q <= |s| :: !HeadingAt(s, h, q))
    decreases |s| - from
  {
    if !HeadingAt(s, h, from) && from < |s| {
      FirstHeadingLeftmost(s, h, from + 1);
      var r := FirstHeading(s, h, from + 1);
      assert FirstHeading(s, h, from) == r;
      var end := if r.Some? then r.value else |s| + 1;
      forall q | from <= q < end ensures !HeadingAt(s, h, q) {
        if q != from {
          assert from + 1 <= q;
        }
      }
    }
  }

  /** The lookahead `(?=H1:|H2:|…|$)` holds at `q`. */
  predicate BoundaryAt(s: string, hs: seq<string>, q: nat)
    requires q <= |s|
  {
    q == |s| || exists k | 0 <= k < |hs| :: HeadingAt(s, hs[k], q)
  }

  /** Where the lazy `([^]*?)` stops: a position from `from` on where the lookahead holds, scanning left to right. */
  function FirstBoundary(s: string, hs: seq<string>, from: nat): (q: nat)
    requires from <= |s|
    ensures from <= q <= |s| && BoundaryAt(s, hs, q)
    decreases |s| - from
  {
    if BoundaryAt(s, hs, from) then from else FirstBoundary(s, hs, from + 1)
  }

  /** The lazy group stops at the first position where the lookahead holds. */
  lemma {:induction false} FirstBoundaryLeftmost(s: string, hs: seq<string>, from: nat)
    requires from <= |s|
    ensures forall q | from <= q < FirstBoundary(s, hs, from) :: !BoundaryAt(s, hs, q)
    decreases |s| - from
  {
    if !BoundaryAt(s, hs, from) {
      FirstBoundaryLeftmost(s, hs, from + 1);
      var b := FirstBoundary(s, hs, from + 1);
      assert FirstBoundary(s, hs, from) == b;
      forall q | from <= q < b ensures !BoundaryAt(s, hs, q) {
        if q != from {
          assert from + 1 <= q;
        }
      }
    }
  }

  /**
   * `match(sectionRegex)[1]`: the text after the first occurrence of the
   * heading and its colon, up to the next heading with a colon or the
   * end. `None` stands for no match.
   */
  function HeadingBody(s: string, h: string, hs: seq<string>): (r: Option<string>)
    ensures r.Some? <==> exists q | 0 <= q <= |s| :: HeadingAt(s, h, q)
  {
    match FirstHeading(s, h, 0)
    case None =>
      FirstHeadingLeftmost(s, h, 0);
      None
    case Some(p) =>
      HeadingFits(s, h, p);
      var a := p + |h| + 1;
      Some(s[a..FirstBoundary(s, hs, a)])
  }

  /**
   * The body starts right after the first match of the heading and stops
   * where the lookahead first holds after it (`FirstBoundaryLeftmost`).
   */
  lemma HeadingBodyShape(s: string, h: string, hs: seq<string>, p: nat)
    requires p <= |s| && HeadingAt(s, h, p) && forall q | 0 <= q < p :: !HeadingAt(s, h, q)
    ensures p + |h| + 1 <= |s|
    ensures HeadingBody(s, h, hs) == Some(s[p + |h| + 1..FirstBoundary(s, hs, p + |h| + 1)])
  {
    FirstHeadingIs(s, h, p);
    HeadingFits(s, h, p);
    HeadingBodyAt(s, h, hs, p);
  }

  lemma HeadingBodyAt(s: string, h: string, hs: seq<string>, p: nat)
    requires FirstHeading(s, h, 0) == Some(p) && p + |h| + 1 <= |s|
    ensures HeadingBody(s, h, hs) == Some(s[p + |h| + 1..FirstBoundary(s, hs, p + |h| + 1)])
  {
    match FirstHeading(s, h, 0)
    case Some(p') =>
      assert p' == p;
  }

  /** A match with no match before it is what the scan finds. */
  lemma FirstHeadingIs(s: string, h: string, p: nat)
    requires p <= |s| && HeadingAt(s, h, p) && forall q | 0 <= q < p :: !HeadingAt(s, h, q)
    ensures FirstHeading(s, h, 0) == Some(p)
  {
    FirstHeadingLeftmost(s, h, 0);
  }

  lemma HeadingFits(s: string, h: string, p: nat)
    requires HeadingAt(s, h, p)
    ensures p + |h| + 1 <= |s|
  {
    assert |h + ":"| <= |s[p..]|;
  }

  /** A heading written out with its colon, in any letter case, is found. */
  lemma HeadingWritten(s: string, h: string, hs: seq<string>, q: nat, rest: string)
    requires q <= |s| && s[q..] == h + ":" + rest
    ensures HeadingBody(s, h, hs).Some?
  {
    CIPrefixSelf(h + ":", rest);
    assert HeadingAt(s, h, q);
  }

  // ---------------------------------------------------------------------
  // formatResponse
  // ---------------------------------------------------------------------

  /** The block heading `h` contributes: the heading, `:`, a blank line and the cleaned body. */
  function Block(s: string, h: string, hs: seq<string>): Option<string> {
    match HeadingBody(s, h, hs)
    case None => None
    case Some(body) => Some(h + ":\n\n" + Trim(FormatSection(body)))
  }

  /** The block of each heading of `todo`, in order. */
  function BlockList(s: string, hs: seq<string>, todo: seq<string>): (r: seq<Option<string>>)
    ensures |r| == |todo|
  {
    if todo == [] then [] else [Block(s, todo[0], hs)] + BlockList(s, hs, todo[1..])
  }

  lemma {:induction false} BlockListAt(s: string, hs: seq<string>, todo: seq<string>)
    ensures forall k | 0 <= k < |todo| :: BlockList(s, hs, todo)[k] == Block(s, todo[k], hs)
  {
    if todo != [] {
      BlockListAt(s, hs, todo[1..]);
      var r := BlockList(s, hs, todo);
      assert r == [Block(s, todo[0], hs)] + BlockList(s, hs, todo[1..]);
      forall k | 0 < k < |todo| ensures r[k] == Block(s, todo[k], hs) {
        assert todo[1..][k - 1] == todo[k];
      }
    }
  }

  /** `formatResponse` against the headings `hs` of the note's kind. */
  function FormatResponseSpec(content: string, hs: seq<string>): string {
    Join(FilterMap(BlockList(StandardizeLineBreaks(content), hs, hs)), "\n\n\n")
  }

  /** `formatResponse`: assessments use the assessment headings, session notes those of their format. */
  method FormatResponse(content: string, isAssessment: bool, fmt: string) returns (r: string)
    requires isAssessment || Known(fmt)
    ensures r == FormatResponseSpec(content, HeadingsFor(isAssessment, fmt))
  {
    var formattedContent := CollapseNewlines(Trim(NormalizeNewlines(content)), 3);
    var hs := HeadingsFor(isAssessment, fmt);
    var result := FormatBlocks(formattedContent, hs);
    r := Join(result, "\n\n\n");
  }

  /** The `forEach` over the headings, pushing a block for each one found. */
  method FormatBlocks(s: string, hs: seq<string>) returns (result: seq<string>)
    ensures result == FilterMap(BlockList(s, hs, hs))
  {
    result := [];
    var i := 0;
    while i < |hs|
      invariant 0 <= i <= |hs|
      invariant result + FilterMap(BlockList(s, hs, hs[i..])) == FilterMap(BlockList(s, hs, hs))
    {
      var b := FormatBlock(s, hs[i], hs);
      BlockStep(s, hs, i, result, b);
      if b.Some? {
        result := result + [b.value];
      }
      i := i + 1;
    }
    assert hs[i..] == [];
  }

  /** The body of the `forEach`: the block heading `h` pushes, if any. */
  method FormatBlock(s: string, h: string, hs: seq<string>) returns (b: Option<string>)
    ensures b == Block(s, h, hs)
  {
    var m := HeadingBody(s, h, hs);
    if m.Some? {
      var sectionContent := FormatSection(m.value);
      b := Some(h + ":\n\n" + Trim(sectionContent));
    } else {
      b := None;
    }
  }

  lemma BlockStep(s: string, hs: seq<string>, i: nat, done: seq<string>, b: Option<string>)
    requires i < |hs| && b == Block(s, hs[i], hs)
    ensures b.Some? ==> done + FilterMap(BlockList(s, hs, hs[i..]))
                        == (done + [b.value]) + FilterMap(BlockList(s, hs, hs[i + 1..]))
    ensures b.None? ==> done + FilterMap(BlockList(s, hs, hs[i..]))
                        == done + FilterMap(BlockList(s, hs, hs[i + 1..]))
  {
    var t := hs[i..];
    assert t[0] == hs[i] && t[1..] == hs[i + 1..];
    var rest := BlockList(s, hs, hs[i + 1..]);
    assert BlockList(s, hs, t) == [b] + rest;
    FilterMapCons(b, rest);
    if b.Some? {
      assert done + ([b.value] + FilterMap(rest)) == (done + [b.value]) + FilterMap(rest);
    }
  }

  // ---------------------------------------------------------------------
  // Properties
  // ---------------------------------------------------------------------

  /**
   * A block, emitted even when the body is empty, is the canonical heading,
   * `:`, a blank line, then a body that is trimmed and has no brackets.
   */
  lemma BlockShape(s: string, h: string, hs: seq<string>)
    ensures Block(s, h, hs).Some? <==> exists q | 0 <= q <= |s| :: HeadingAt(s, h, q)
    ensures Block(s, h, hs).Some? ==>
      var b := Block(s, h, hs).value;
      var body := b[|h| + 3..];
      |b| >= |h| + 3 && b[..|h| + 3] == h + ":\n\n"
      && NoBrackets(body) && Trim(body) == body
  {
    if Block(s, h, hs).Some? {
      var fs := FormatSection(HeadingBody(s, h, hs).value);
      var body := Trim(fs);
      var b := h + ":\n\n" + body;
      assert b[..|h| + 3] == h + ":\n\n" && b[|h| + 3..] == body;
      TrimCharsFrom(fs);
      assert NoBrackets(body) by {
        forall i | 0 <= i < |body| ensures body[i] != '[' && body[i] != ']' {
          assert body[i] in fs;
        }
      }
      TrimIdempotent(fs);
    }
  }

  /**
   * The blocks come in heading order, at most one per heading, and exactly
   * for the headings found: block `j` is that of the `j`-th heading found.
   */
  lemma BlocksInOrder(s: string, hs: seq<string>)
    ensures var xs := BlockList(s, hs, hs);
      var blocks := FilterMap(xs);
      |blocks| <= |hs|
      && Increasing(Picked(xs)) && |Picked(xs)| == |blocks|
      && (forall j | 0 <= j < |blocks| :: Picked(xs)[j] < |hs| && Block(s, hs[Picked(xs)[j]], hs) == Some(blocks[j]))
      && (forall k | 0 <= k < |hs| :: Block(s, hs[k], hs).Some? <==> k in Picked(xs))
  {
    var xs := BlockList(s, hs, hs);
    FilterMapPicked(xs);
    PickedComplete(xs);
    PickedIncreasing(xs);
    BlockListAt(s, hs, hs);
  }

  /** The formatted response is empty exactly when no heading of the note's kind occurs in the standardised text. */
  lemma FormatResponseEmpty(content: string, hs: seq<string>)
    ensures var s := StandardizeLineBreaks(content);
      FormatResponseSpec(content, hs) == "" <==> forall k | 0 <= k < |hs| :: !(exists q | 0 <= q <= |s| :: HeadingAt(s, hs[k], q))
  {
    var s := StandardizeLineBreaks(content);
    var blocks := FilterMap(BlockList(s, hs, hs));
    BlocksNonEmpty(s, hs);
    JoinEmpty(blocks, "\n\n\n");
    NoBlocks(s, hs);
  }

  lemma BlocksNonEmpty(s: string, hs: seq<string>)
    ensures forall j | 0 <= j < |FilterMap(BlockList(s, hs, hs))| :: FilterMap(BlockList(s, hs, hs))[j] != ""
  {
    var xs := BlockList(s, hs, hs);
    var blocks := FilterMap(xs);
    BlocksInOrder(s, hs);
    forall j | 0 <= j < |blocks| ensures blocks[j] != "" {
      assert Block(s, hs[Picked(xs)[j]], hs) == Some(blocks[j]);
    }
  }

  /** No block is pushed exactly when no heading occurs. */
  lemma NoBlocks(s: string, hs: seq<string>)
    ensures FilterMap(BlockList(s, hs, hs)) == [] <==> forall k | 0 <= k < |hs| :: !(exists q | 0 <= q <= |s| :: HeadingAt(s, hs[k], q))
  {
    var xs := BlockList(s, hs, hs);
    FilterMapEmpty(xs);
    BlockListAt(s, hs, hs);
    forall k | 0 <= k < |hs| ensures xs[k].None? <==> !(exists q | 0 <= q <= |s| :: HeadingAt(s, hs[k], q)) {
      BlockShape(s, hs[k], hs);
    }
  }
}
