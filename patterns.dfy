/**
 * Two global regular-expression replacements that both the section parser
 * and the response formatter apply, written out as scanners: a global
 * replace tries the pattern at each position from left to right, and after
 * a match carries on right after it.
 */
module Patterns {
  import opened JsString

  /** `\s+$` without the `m` flag, tried at every position: drops the whitespace tail. */
  function DropSpaceTail(s: string): (r: string)
    ensures r == s[..|s| - TrailingSpaceRun(s)]
  {
    if s == [] then []
    else if AllSpace(s) then
      assert TrailingSpaceRun(s) == |s| by { AllSpaceTrailing(s); }
      []
    else
      var r := [s[0]] + DropSpaceTail(s[1..]);
      assert TrailingSpaceRun(s) == TrailingSpaceRun(s[1..]) by { TrailingTail(s); }
      ConsPrefix(s, |s| - TrailingSpaceRun(s));
      r
  }

  lemma ConsPrefix(s: string, n: nat)
    requires 1 <= n <= |s|
    ensures [s[0]] + s[1..][..n - 1] == s[..n]
  {
    assert forall i | 0 <= i < n :: ([s[0]] + s[1..][..n - 1])[i] == s[i];
  }

  lemma {:induction false} AllSpaceTrailing(s: string)
    requires AllSpace(s)
    ensures TrailingSpaceRun(s) == |s|
  {
    if s != [] {
      assert AllSpace(s[..|s| - 1]);
      AllSpaceTrailing(s[..|s| - 1]);
    }
  }

  lemma {:induction false} TrailingTail(s: string)
    requires s != [] && !AllSpace(s)
    ensures TrailingSpaceRun(s) == TrailingSpaceRun(s[1..])
    decreases |s|
  {
    if IsSpace(s[|s| - 1]) {
      var t := s[..|s| - 1];
      assert t[1..] == s[1..][..|s[1..]| - 1];
      if t != [] && !AllSpace(t) {
        TrailingTail(t);
      } else {
        assert AllSpace(s) by {
          forall i | 0 <= i < |s| ensures IsSpace(s[i]) {
            if i < |s| - 1 { assert s[i] == t[i]; }
          }
        }
      }
    }
  }

  /**
   * `replace(/^\s+|\s+$/g, '')`: at position 0 the first alternative takes the
   * leading whitespace; elsewhere the second one takes a whitespace tail.
   */
  function ReplaceEdgeSpace(s: string): string {
    DropSpaceTail(s[SpaceRun(s)..])
  }

  /** The edge-whitespace replacement is `trim`. */
  lemma ReplaceEdgeSpaceIsTrim(s: string)
    ensures ReplaceEdgeSpace(s) == Trim(s)
  {
  }

  /**
   * `replace(/\[\s*|\s*\]/g, '')`: a `[` with the whitespace after it, or a
   * `]` with the whitespace before it, disappears. The second alternative
   * matches at `q` exactly when the whitespace run from `q` ends at a `]`,
   * since a shorter run is followed by whitespace, not `]`.
   */
  function StripBrackets(s: string): (r: string)
    ensures NoBrackets(r)
    ensures CharsFrom(r, s)
    decreases |s|
  {
    if s == [] then []
    else if s[0] == '[' then
      var t := StripBrackets(s[1 + SpaceRun(s[1..])..]);
      assert CharsFrom(t, s) by { SuffixChars(t, s, 1 + SpaceRun(s[1..])); }
      t
    else if SpaceRun(s) < |s| && s[SpaceRun(s)] == ']' then
      var t := StripBrackets(s[SpaceRun(s) + 1..]);
      assert CharsFrom(t, s) by { SuffixChars(t, s, SpaceRun(s) + 1); }
      t
    else
      var t := StripBrackets(s[1..]);
      assert CharsFrom(t, s) by { SuffixChars(t, s, 1); }
      assert s[0] != ']' by { assert SpaceRun(s) == 0 || IsSpace(s[0]); }
      [s[0]] + t
  }

  lemma SuffixChars(t: string, s: string, k: nat)
    requires k <= |s| && CharsFrom(t, s[k..])
    ensures CharsFrom(t, s)
  {
    forall i | 0 <= i < |t| ensures t[i] in s {
      var j :| 0 <= j < |s[k..]| && s[k..][j] == t[i];
      assert s[k + j] == t[i];
    }
  }

  /** Text without brackets passes through unchanged. */
  lemma {:induction false} StripBracketsNoop(s: string)
    requires NoBrackets(s)
    ensures StripBrackets(s) == s
  {
    if s != [] {
      var t := s[1..];
      assert s[0] != '[' && (SpaceRun(s) < |s| ==> s[SpaceRun(s)] != ']');
      assert NoBrackets(t) by {
        forall i | 0 <= i < |t| ensures t[i] != '[' && t[i] != ']' {
          assert t[i] == s[i + 1];
        }
      }
      StripBracketsNoop(t);
      KeepPlainHead(s);
      assert s == [s[0]] + t;
    }
  }

  /** A first character that starts no bracket is kept. */
  lemma KeepPlainHead(s: string)
    requires s != [] && s[0] != '[' && (SpaceRun(s) < |s| ==> s[SpaceRun(s)] != ']')
    ensures StripBrackets(s) == [s[0]] + StripBrackets(s[1..])
  {
  }

  /** An opening bracket goes together with the whitespace after it. */
  lemma StripOpenBracket(w: string, t: string)
    requires AllSpace(w) && (t == [] || !IsSpace(t[0]))
    ensures StripBrackets("[" + w + t) == StripBrackets(t)
  {
    var s := "[" + w + t;
    assert s[1..] == w + t;
    SpaceRunOf(w, t);
    assert s[1 + |w|..] == t;
  }

  /** A closing bracket goes together with the whitespace before it. */
  lemma StripCloseBracket(w: string, t: string)
    requires AllSpace(w)
    ensures StripBrackets(w + "]" + t) == StripBrackets(t)
  {
    var s := w + "]" + t;
    assert s == w + ("]" + t);
    SpaceRunOf(w, "]" + t);
    assert s[|w| + 1..] == t;
  }

  /** Every other non-space character is kept. */
  lemma StripKeepsPlainChar(c: char, t: string)
    requires c != '[' && c != ']' && !IsSpace(c)
    ensures StripBrackets([c] + t) == [c] + StripBrackets(t)
  {
    assert ([c] + t)[1..] == t;
  }

  lemma {:induction false} SpaceRunOf(w: string, t: string)
    requires AllSpace(w) && (t == [] || !IsSpace(t[0]))
    ensures SpaceRun(w + t) == |w|
  {
    if w != [] {
      assert (w + t)[1..] == w[1..] + t;
      SpaceRunOf(w[1..], t);
    } else {
      assert w + t == t;
    }
  }
}
