/**
 * The JavaScript string built-ins the application relies on, over `seq<char>`:
 * the `\s` character class and `trim`, ASCII case mapping, `split`/`join`
 * with a string separator, newline normalisation, decimal rendering and
 * `parseInt`.
 */
module JsString {

  datatype Option<+T> = None | Some(value: T)

  // ---------------------------------------------------------------------
  // Character classes
  // ---------------------------------------------------------------------

  /** ECMAScript LineTerminator: what `^` and `$` under the `m` flag look at. */
  predicate IsLineTerminator(c: char) {
    c == '\n' || c == '\r' || c == '\U{2028}' || c == '\U{2029}'
  }

  /** ECMAScript WhiteSpace and LineTerminator: the class `\s`, and what `trim` removes. */
  predicate IsSpace(c: char) {
    IsLineTerminator(c) || c == '\t' || c == '\U{000B}' || c == '\U{000C}' || c == ' '
    || c == '\U{00A0}' || c == '\U{1680}' || ('\U{2000}' <= c <= '\U{200A}')
    || c == '\U{202F}' || c == '\U{205F}' || c == '\U{3000}' || c == '\U{FEFF}'
  }

  predicate AllSpace(s: string) {
    forall i | 0 <= i < |s| :: IsSpace(s[i])
  }

  /** `\d` without the `u` flag. */
  predicate IsDigit(c: char) {
    '0' <= c <= '9'
  }

  /** Every character of `r` occurs in `s`. */
  predicate CharsFrom(r: string, s: string) {
    forall i | 0 <= i < |r| :: r[i] in s
  }

  /** Neither `[` nor `]` occurs in `s`. */
  predicate NoBrackets(s: string) {
    forall i | 0 <= i < |s| :: s[i] != '[' && s[i] != ']'
  }

  lemma CharsFromNoBrackets(r: string, s: string)
    requires CharsFrom(r, s) && NoBrackets(s)
    ensures NoBrackets(r)
  {
    forall i | 0 <= i < |r| ensures r[i] != '[' && r[i] != ']' {
      var j :| 0 <= j < |s| && s[j] == r[i];
    }
  }

  lemma CharsFromTrans(r: string, s: string, t: string)
    requires CharsFrom(r, s) && CharsFrom(s, t)
    ensures CharsFrom(r, t)
  {
    forall i | 0 <= i < |r| ensures r[i] in t {
      var j :| 0 <= j < |s| && s[j] == r[i];
    }
  }

  // ---------------------------------------------------------------------
  // Whitespace runs and trim
  // ---------------------------------------------------------------------

  /** Length of the longest whitespace prefix (what a greedy `\s*` consumes). */
  function SpaceRun(s: string): (n: nat)
    ensures n <= |s|
    ensures AllSpace(s[..n])
    ensures n < |s| ==> !IsSpace(s[n])
  {
    if s != [] && IsSpace(s[0]) then 1 + SpaceRun(s[1..]) else 0
  }

  /** Length of the longest whitespace suffix. */
  function TrailingSpaceRun(s: string): (n: nat)
    ensures n <= |s|
    ensures AllSpace(s[|s| - n..])
    ensures n < |s| ==> !IsSpace(s[|s| - n - 1])
  {
    if s != [] && IsSpace(s[|s| - 1]) then 1 + TrailingSpaceRun(s[..|s| - 1]) else 0
  }

  /** `String.prototype.trim`. */
  function Trim(s: string): (r: string)
    ensures r == "" || (!IsSpace(r[0]) && !IsSpace(r[|r| - 1]))
    ensures r == "" <==> AllSpace(s)
    ensures SpaceRun(s) + |r| <= |s|
    ensures forall k | 0 <= k < |r| :: r[k] == s[SpaceRun(s) + k]
    ensures AllSpace(s[SpaceRun(s) + |r|..])
  {
    var t := s[SpaceRun(s)..];
    var r := t[..|t| - TrailingSpaceRun(t)];
    TrimEnds(s, t, r);
    TrimEmpty(s, t, r);
    TrimTail(s, t, r);
    r
  }

  lemma TrimEnds(s: string, t: string, r: string)
    requires t == s[SpaceRun(s)..] && r == t[..|t| - TrailingSpaceRun(t)]
    ensures r == "" || (!IsSpace(r[0]) && !IsSpace(r[|r| - 1]))
    ensures forall k | 0 <= k < |r| :: r[k] == s[SpaceRun(s) + k]
  {
  }

  lemma TrimTail(s: string, t: string, r: string)
    requires t == s[SpaceRun(s)..] && r == t[..|t| - TrailingSpaceRun(t)]
    ensures SpaceRun(s) + |r| <= |s|
    ensures AllSpace(s[SpaceRun(s) + |r|..])
  {
    var n, m := SpaceRun(s), TrailingSpaceRun(t);
    assert |r| == |t| - m;
    assert t[|r|..] == s[n + |r|..];
  }

  lemma TrimEmpty(s: string, t: string, r: string)
    requires t == s[SpaceRun(s)..] && r == t[..|t| - TrailingSpaceRun(t)]
    ensures r == "" <==> AllSpace(s)
  {
    var n := SpaceRun(s);
    if AllSpace(s) {
      AllSpaceRun(s);
      assert t == [];
    }
    if r == "" {
      var m := TrailingSpaceRun(t);
      assert m == |t|;
      assert t[|t| - m..] == t;
      assert AllSpace(s[..n]);
      forall i | 0 <= i < |s| ensures IsSpace(s[i]) {
        if i < n {
          assert s[..n][i] == s[i];
        }
      }
    }
  }

  lemma AllSpaceRun(s: string)
    requires AllSpace(s)
    ensures SpaceRun(s) == |s|
  {
  }

  lemma TrimCharsFrom(s: string)
    ensures CharsFrom(Trim(s), s)
  {
    var r := Trim(s);
    forall k | 0 <= k < |r| ensures r[k] in s {
      assert r[k] == s[SpaceRun(s) + k];
    }
  }

  /** A string whose ends are not whitespace is its own trim. */
  lemma TrimNoop(s: string)
    requires s == "" || (!IsSpace(s[0]) && !IsSpace(s[|s| - 1]))
    ensures Trim(s) == s
  {
    if s != "" {
      assert SpaceRun(s) == 0;
      var r := Trim(s);
      assert AllSpace(s[|r|..]);
    }
  }

  lemma TrimIdempotent(s: string)
    ensures Trim(Trim(s)) == Trim(s)
  {
    TrimNoop(Trim(s));
  }

  // ---------------------------------------------------------------------
  // ASCII case mapping. The `i` flag of a non-unicode RegExp canonicalises
  // with toUpperCase but never maps a non-ASCII character to an ASCII one,
  // so for ASCII patterns folding ASCII letters is exact.
  // ---------------------------------------------------------------------

  function UpperChar(c: char): (u: char)
    ensures 'a' <= c <= 'z' ==> 'A' <= u <= 'Z'
    ensures !('a' <= c <= 'z') ==> u == c
  {
    if 'a' <= c <= 'z' then (c as int - 32) as char else c
  }

  function LowerChar(c: char): (l: char)
    ensures 'A' <= c <= 'Z' ==> 'a' <= l <= 'z'
    ensures !('A' <= c <= 'Z') ==> l == c
  {
    if 'A' <= c <= 'Z' then (c as int + 32) as char else c
  }

  /** `toUpperCase` on ASCII text. */
  function ToUpper(s: string): (r: string)
    ensures |r| == |s|
    ensures forall i | 0 <= i < |s| :: r[i] == UpperChar(s[i])
  {
    if s == [] then [] else [UpperChar(s[0])] + ToUpper(s[1..])
  }

  /** `toLowerCase` on ASCII letters. */
  function ToLower(s: string): (r: string)
    ensures |r| == |s|
    ensures forall i | 0 <= i < |s| :: r[i] == LowerChar(s[i])
  {
    if s == [] then [] else [LowerChar(s[0])] + ToLower(s[1..])
  }

  /** Characters equal up to ASCII letter case. */
  predicate SameCase(a: char, b: char) {
    UpperChar(a) == UpperChar(b)
  }

  /** `s` begins with `pat`, ignoring ASCII letter case. */
  predicate CIPrefix(pat: string, s: string) {
    |pat| <= |s| && forall k {:trigger SameCase(s[k], pat[k])} | 0 <= k < |pat| :: SameCase(s[k], pat[k])
  }

  lemma CIPrefixSelf(pat: string, rest: string)
    ensures CIPrefix(pat, pat + rest)
  {
    assert forall k | 0 <= k < |pat| :: (pat + rest)[k] == pat[k];
  }

  // ---------------------------------------------------------------------
  // join and split
  // ---------------------------------------------------------------------

  /** `Array.prototype.join(sep)`. */
  function Join(xs: seq<string>, sep: string): string {
    if |xs| == 0 then "" else if |xs| == 1 then xs[0] else xs[0] + sep + Join(xs[1..], sep)
  }

  predicate OccursAt(s: string, sep: string, i: nat) {
    i + |sep| <= |s| && s[i..i + |sep|] == sep
  }

  /** `indexOf(sep)`: the first occurrence of `sep`, if any. */
  function IndexOf(s: string, sep: string): (r: Option<nat>)
    requires |sep| > 0
    ensures r.Some? ==> OccursAt(s, sep, r.value) && forall i | 0 <= i < r.value :: !OccursAt(s, sep, i)
    ensures r.None? ==> forall i | 0 <= i <= |s| :: !OccursAt(s, sep, i)
  {
    if |s| < |sep| then None
    else if s[..|sep|] == sep then Some(0)
    else
      assert forall i | 1 <= i <= |s| :: OccursAt(s, sep, i) == OccursAt(s[1..], sep, i - 1) by {
        forall i | 1 <= i <= |s| ensures OccursAt(s, sep, i) == OccursAt(s[1..], sep, i - 1) {
          OccursShift(s, sep, i);
        }
      }
      match IndexOf(s[1..], sep)
      case None => None
      case Some(j) => Some(j + 1)
  }

  lemma OccursShift(s: string, sep: string, i: nat)
    requires 1 <= i <= |s|
    ensures OccursAt(s, sep, i) == OccursAt(s[1..], sep, i - 1)
  {
    if i + |sep| <= |s| {
      assert s[1..][i - 1..i - 1 + |sep|] == s[i..i + |sep|];
    }
  }

  /** `String.prototype.split(sep)` for a non-empty string separator. */
  function Split(s: string, sep: string): (r: seq<string>)
    requires |sep| > 0
    ensures |r| > 0
    decreases |s|
  {
    match IndexOf(s, sep)
    case None => [s]
    case Some(i) => [s[..i]] + Split(s[i + |sep|..], sep)
  }

  /** No character of `x` is a character of `sep`. */
  predicate Avoids(x: string, sep: string) {
    forall i | 0 <= i < |x| :: x[i] !in sep
  }

  /** No occurrence of `sep` starts inside `x`, even one running on into a following `sep`. */
  predicate SepFree(x: string, sep: string) {
    forall i | 0 <= i < |x| :: !OccursAt(x + sep, sep, i)
  }

  lemma AvoidsSepFree(x: string, sep: string)
    requires |sep| > 0 && Avoids(x, sep)
    ensures SepFree(x, sep)
  {
    forall i | 0 <= i < |x| ensures !OccursAt(x + sep, sep, i) {
      assert (x + sep)[i] == x[i] && x[i] !in sep;
    }
  }

  /** For the separator `\n\n`: no two newlines in a row and no newline at the end. */
  lemma SepFreeDoubleNewline(x: string)
    requires NoDoubleNewline(x) && (x == [] || x[|x| - 1] != '\n')
    ensures SepFree(x, "\n\n")
  {
    forall i | 0 <= i < |x| ensures !OccursAt(x + "\n\n", "\n\n", i) {
      var y := x + "\n\n";
      if i + 1 < |x| {
        assert y[i] == x[i] && y[i + 1] == x[i + 1];
        assert !(y[i] == '\n' && y[i + 1] == '\n');
      } else {
        assert y[i] == x[|x| - 1];
      }
    }
  }

  lemma IndexOfAfterPiece(x: string, sep: string, rest: string)
    requires |sep| > 0 && SepFree(x, sep)
    ensures IndexOf(x + sep + rest, sep) == Some(|x|)
  {
    var s := x + sep + rest;
    assert s[|x|..|x| + |sep|] == sep;
    forall i | 0 <= i < |x| ensures !OccursAt(s, sep, i) {
      assert !OccursAt(x + sep, sep, i);
      assert s[..|x| + |sep|] == x + sep;
      assert s[i..i + |sep|] == (x + sep)[i..i + |sep|];
    }
    assert OccursAt(s, sep, |x|);
  }

  lemma IndexOfNone(x: string, sep: string)
    requires |sep| > 0 && SepFree(x, sep)
    ensures IndexOf(x, sep) == None
  {
    forall i | 0 <= i <= |x| ensures !OccursAt(x, sep, i) {
      if i < |x| {
        assert !OccursAt(x + sep, sep, i);
        if i + |sep| <= |x| {
          assert x[i..i + |sep|] == (x + sep)[i..i + |sep|];
        }
      }
    }
  }

  /** Splitting the join of separator-free pieces gives the pieces back. */
  lemma {:induction false} SplitJoin(xs: seq<string>, sep: string)
    requires |sep| > 0 && |xs| > 0
    requires forall k | 0 <= k < |xs| :: SepFree(xs[k], sep)
    ensures Split(Join(xs, sep), sep) == xs
  {
    if |xs| == 1 {
      IndexOfNone(xs[0], sep);
    } else {
      var t := xs[1..];
      assert forall k | 0 <= k < |t| :: SepFree(t[k], sep) by {
        forall k | 0 <= k < |t| ensures SepFree(t[k], sep) {
          assert t[k] == xs[k + 1];
        }
      }
      SplitJoin(t, sep);
      SplitStep(xs[0], sep, Join(t, sep));
      assert xs == [xs[0]] + t;
    }
  }

  /** Splitting at the first separator, which ends the separator-free first piece. */
  lemma SplitStep(x: string, sep: string, rest: string)
    requires |sep| > 0 && SepFree(x, sep)
    ensures Split(x + sep + rest, sep) == [x] + Split(rest, sep)
  {
    IndexOfAfterPiece(x, sep, rest);
    var s := x + sep + rest;
    assert s[..|x|] == x;
    assert s[|x| + |sep|..] == rest;
  }

  /** Joining non-empty strings gives the empty string only for the empty list. */
  lemma {:induction false} JoinEmpty(xs: seq<string>, sep: string)
    requires forall j | 0 <= j < |xs| :: xs[j] != ""
    ensures Join(xs, sep) == "" <==> xs == []
  {
    if |xs| > 1 {
      assert |Join(xs, sep)| >= |xs[0]|;
    }
  }

  lemma JoinAvoids(xs: seq<string>, sep: string, d: string)
    requires Avoids(sep, d)
    requires forall k | 0 <= k < |xs| :: Avoids(xs[k], d)
    ensures Avoids(Join(xs, sep), d)
  {
    if |xs| > 1 {
      JoinAvoids(xs[1..], sep, d);
      var r := Join(xs[1..], sep);
      assert Join(xs, sep) == xs[0] + sep + r;
      forall i | 0 <= i < |xs[0] + sep + r| ensures (xs[0] + sep + r)[i] !in d {
        if i < |xs[0]| {
        } else if i < |xs[0]| + |sep| {
          assert (xs[0] + sep + r)[i] == sep[i - |xs[0]|];
        } else {
          assert (xs[0] + sep + r)[i] == r[i - |xs[0]| - |sep|];
        }
      }
    }
  }

  // ---------------------------------------------------------------------
  // Newline normalisation
  // ---------------------------------------------------------------------

  /** `replace(/\r\n/g, '\n')`. */
  function ReplaceCRLF(s: string): (r: string)
    ensures CharsFrom(r, s)
    decreases |s|
  {
    if |s| >= 2 && s[0] == '\r' && s[1] == '\n' then
      var t := ReplaceCRLF(s[2..]);
      assert forall i | 0 <= i < |t| :: t[i] in s by {
        forall i | 0 <= i < |t| ensures t[i] in s { assert t[i] in s[2..]; }
      }
      "\n" + t
    else if s == [] then []
    else
      var t := ReplaceCRLF(s[1..]);
      assert forall i | 0 <= i < |t| :: t[i] in s by {
        forall i | 0 <= i < |t| ensures t[i] in s { assert t[i] in s[1..]; }
      }
      [s[0]] + t
  }

  /** `replace(/\r/g, '\n')`. */
  function ReplaceCR(s: string): (r: string)
    ensures |r| == |s|
    ensures forall i | 0 <= i < |s| :: r[i] == if s[i] == '\r' then '\n' else s[i]
  {
    if s == [] then [] else [if s[0] == '\r' then '\n' else s[0]] + ReplaceCR(s[1..])
  }

  /** `replace(/\r\n/g, '\n').replace(/\r/g, '\n')`. */
  function NormalizeNewlines(s: string): (r: string)
    ensures '\r' !in r
    ensures forall i | 0 <= i < |r| :: r[i] == '\n' || r[i] in s
  {
    var t := ReplaceCRLF(s);
    var r := ReplaceCR(t);
    assert forall i | 0 <= i < |r| :: r[i] == '\n' || r[i] in t;
    r
  }

  /** Length of the longest run of `\n` at the start of `s`. */
  function NewlineRun(s: string): (n: nat)
    ensures n <= |s|
    ensures forall i | 0 <= i < n :: s[i] == '\n'
    ensures n < |s| ==> s[n] != '\n'
  {
    if s != [] && s[0] == '\n' then 1 + NewlineRun(s[1..]) else 0
  }

  /** `replace(/\n{min,}/g, '\n\n')` for `min` of 2 or 3. */
  function CollapseNewlines(s: string, min: nat): (r: string)
    requires min >= 2
    ensures CharsFrom(r, s)
    decreases |s|
  {
    if s == [] then []
    else if NewlineRun(s) >= min then
      var t := CollapseNewlines(s[NewlineRun(s)..], min);
      assert forall i | 0 <= i < |t| :: t[i] in s by {
        forall i | 0 <= i < |t| ensures t[i] in s { assert t[i] in s[NewlineRun(s)..]; }
      }
      assert s[0] == '\n';
      "\n\n" + t
    else
      var t := CollapseNewlines(s[1..], min);
      assert forall i | 0 <= i < |t| :: t[i] in s by {
        forall i | 0 <= i < |t| ensures t[i] in s { assert t[i] in s[1..]; }
      }
      [s[0]] + t
  }

  predicate NoDoubleNewline(s: string) {
    forall i | 0 <= i < |s| - 1 :: !(s[i] == '\n' && s[i + 1] == '\n')
  }

  predicate NoTripleNewline(s: string) {
    forall i | 0 <= i < |s| - 2 :: !(s[i] == '\n' && s[i + 1] == '\n' && s[i + 2] == '\n')
  }

  /** Without two adjacent newlines there is nothing to collapse. */
  lemma {:induction false} CollapseNoop(s: string, min: nat)
    requires min >= 2 && NoDoubleNewline(s)
    ensures CollapseNewlines(s, min) == s
  {
    if s != [] {
      assert NewlineRun(s) <= 1;
      CollapseNoop(s[1..], min);
    }
  }

  /** The collapsed text starts with at most two newlines, exactly as many as `s` when `s` has fewer than three. */
  lemma {:induction false} CollapseLeading(s: string)
    ensures NewlineRun(CollapseNewlines(s, 3)) == if NewlineRun(s) >= 3 then 2 else NewlineRun(s)
    decreases |s|
  {
    var r := CollapseNewlines(s, 3);
    if s == [] {
    } else if NewlineRun(s) >= 3 {
      var t := s[NewlineRun(s)..];
      assert t == [] || t[0] != '\n';
      if t != [] {
        assert CollapseNewlines(t, 3) == [t[0]] + CollapseNewlines(t[1..], 3);
      }
      assert r == "\n\n" + CollapseNewlines(t, 3);
      assert NewlineRun(r) == 2 by {
        assert NewlineRun(r) == 1 + NewlineRun(r[1..]);
        assert r[1..] == "\n" + CollapseNewlines(t, 3);
        assert NewlineRun(r[1..]) == 1 + NewlineRun(r[2..]);
        assert r[2..] == CollapseNewlines(t, 3);
      }
    } else {
      CollapseLeading(s[1..]);
      assert r == [s[0]] + CollapseNewlines(s[1..], 3);
      if s[0] == '\n' {
        assert NewlineRun(s) == 1 + NewlineRun(s[1..]);
        assert NewlineRun(r) == 1 + NewlineRun(r[1..]);
        assert r[1..] == CollapseNewlines(s[1..], 3);
      }
    }
  }

  /** After collapsing, no three newlines are adjacent. */
  lemma {:induction false} CollapseNoTriple(s: string)
    ensures NoTripleNewline(CollapseNewlines(s, 3))
    decreases |s|
  {
    if s != [] {
      if NewlineRun(s) >= 3 {
        var t := s[NewlineRun(s)..];
        CollapseNoTriple(t);
        CollapseLeading(t);
        assert NewlineRun(t) == 0;
        NoTripleAfterTwo(CollapseNewlines(t, 3));
      } else {
        var t := s[1..];
        CollapseNoTriple(t);
        CollapseLeading(t);
        assert s[0] == '\n' ==> NewlineRun(s) == 1 + NewlineRun(t);
        NoTripleCons(s[0], CollapseNewlines(t, 3));
      }
    }
  }

  lemma NoTripleAfterTwo(r: string)
    requires NoTripleNewline(r) && NewlineRun(r) == 0
    ensures NoTripleNewline("\n\n" + r)
  {
    var x := "\n\n" + r;
    forall i | 0 <= i < |x| - 2 ensures !(x[i] == '\n' && x[i + 1] == '\n' && x[i + 2] == '\n') {
      if i >= 2 {
        assert x[i] == r[i - 2] && x[i + 1] == r[i - 1] && x[i + 2] == r[i];
      } else {
        assert x[2] == r[0];
      }
    }
  }

  lemma NoTripleCons(c: char, r: string)
    requires NoTripleNewline(r) && (c == '\n' ==> NewlineRun(r) <= 1)
    ensures NoTripleNewline([c] + r)
  {
    var x := [c] + r;
    forall i | 0 <= i < |x| - 2 ensures !(x[i] == '\n' && x[i + 1] == '\n' && x[i + 2] == '\n') {
      if i >= 1 {
        assert x[i] == r[i - 1] && x[i + 1] == r[i] && x[i + 2] == r[i + 1];
      }
    }
  }

  lemma {:induction false} NewlineRunAtLeast(s: string, n: nat)
    requires n <= |s| && forall j | 0 <= j < n :: s[j] == '\n'
    ensures NewlineRun(s) >= n
  {
    if n > 0 {
      NewlineRunAtLeast(s[1..], n - 1);
    }
  }

  /** Collapsing keeps a last character that is not a newline. */
  lemma {:induction false} CollapseKeepsLast(s: string)
    requires s != [] && s[|s| - 1] != '\n'
    ensures CollapseNewlines(s, 3) != [] && CollapseNewlines(s, 3)[|CollapseNewlines(s, 3)| - 1] == s[|s| - 1]
    decreases |s|
  {
    if NewlineRun(s) >= 3 {
      var t := s[NewlineRun(s)..];
      CollapseKeepsLast(t);
    } else if |s| > 1 {
      CollapseKeepsLast(s[1..]);
    }
  }

  /** Collapsing keeps a first character that is not a newline. */
  lemma CollapseKeepsFirst(s: string)
    requires s != [] && s[0] != '\n'
    ensures CollapseNewlines(s, 3) != [] && CollapseNewlines(s, 3)[0] == s[0]
  {
  }

  // ---------------------------------------------------------------------
  // Numbers as text
  // ---------------------------------------------------------------------

  function DigitChar(d: nat): (c: char)
    requires d < 10
    ensures IsDigit(c) && c as int - '0' as int == d
  {
    ('0' as int + d) as char
  }

  /** `String(n)` for a non-negative integer. */
  function NatToString(n: nat): (r: string)
    ensures |r| > 0
    ensures forall i | 0 <= i < |r| :: IsDigit(r[i])
    ensures r[0] == '0' ==> n == 0 && r == "0"
  {
    if n < 10 then [DigitChar(n)] else NatToString(n / 10) + [DigitChar(n % 10)]
  }

  /** Length of the longest prefix of `s` made of decimal digits. */
  function DigitRun(s: string): (n: nat)
    ensures n <= |s|
    ensures forall i | 0 <= i < n :: IsDigit(s[i])
    ensures n < |s| ==> !IsDigit(s[n])
  {
    if s != [] && IsDigit(s[0]) then 1 + DigitRun(s[1..]) else 0
  }

  /** The value of a string of decimal digits. */
  function DigitsValue(ds: string): nat
    requires forall i | 0 <= i < |ds| :: IsDigit(ds[i])
  {
    if ds == [] then 0
    else
      assert IsDigit(ds[|ds| - 1]);
      10 * DigitsValue(ds[..|ds| - 1]) + (ds[|ds| - 1] as int - '0' as int)
  }

  predicate IsHexDigit(c: char) {
    IsDigit(c) || 'a' <= c <= 'f' || 'A' <= c <= 'F'
  }

  function HexDigitValue(c: char): nat
    requires IsHexDigit(c)
  {
    if IsDigit(c) then c as int - '0' as int
    else if 'a' <= c <= 'f' then c as int - 'a' as int + 10
    else c as int - 'A' as int + 10
  }

  function HexRun(s: string): (n: nat)
    ensures n <= |s|
    ensures forall i | 0 <= i < n :: IsHexDigit(s[i])
  {
    if s != [] && IsHexDigit(s[0]) then 1 + HexRun(s[1..]) else 0
  }

  function HexValue(ds: string): nat
    requires forall i | 0 <= i < |ds| :: IsHexDigit(ds[i])
  {
    if ds == [] then 0 else 16 * HexValue(ds[..|ds| - 1]) + HexDigitValue(ds[|ds| - 1])
  }

  /**
   * `parseInt(s)` without a radix: leading whitespace, an optional sign, a
   * `0x`/`0X` prefix selecting radix 16, then the longest run of digits;
   * `None` stands for `NaN`. `-0` is identified with `0`.
   */
  function ParseInt(s: string): (r: Option<int>)
    ensures r.Some? ==> exists i | 0 <= i < |s| :: IsHexDigit(s[i])
  {
    var t := s[SpaceRun(s)..];
    var neg := t != [] && t[0] == '-';
    var u := if t != [] && (t[0] == '-' || t[0] == '+') then t[1..] else t;
    var sign := if neg then -1 else 1;
    if |u| >= 2 && u[0] == '0' && (u[1] == 'x' || u[1] == 'X') then
      var h := u[2..][..HexRun(u[2..])];
      if h == [] then None
      else
        assert IsHexDigit(s[|s| - |u| + 2]) by { assert u[2] == h[0]; assert s[|s| - |u|..] == u; }
        Some(sign * HexValue(h))
    else
      var d := u[..DigitRun(u)];
      if d == [] then None
      else
        assert IsHexDigit(s[|s| - |u|]) by { assert u[0] == d[0]; assert s[|s| - |u|..] == u; }
        Some(sign * DigitsValue(d))
  }

  lemma {:induction false} DigitsValueOfNat(n: nat)
    ensures DigitsValue(NatToString(n)) == n
  {
    var r := NatToString(n);
    if n >= 10 {
      DigitsValueOfNat(n / 10);
      assert r[..|r| - 1] == NatToString(n / 10);
    }
  }

  lemma {:induction false} DigitRunAll(s: string)
    requires forall i | 0 <= i < |s| :: IsDigit(s[i])
    ensures DigitRun(s) == |s|
  {
    if s != [] {
      DigitRunAll(s[1..]);
    }
  }

  /** `parseInt` reads back what `String` wrote. */
  lemma ParseIntNatToString(n: nat)
    ensures ParseInt(NatToString(n)) == Some(n)
  {
    var s := NatToString(n);
    assert IsDigit(s[0]);
    assert SpaceRun(s) == 0;
    assert s[SpaceRun(s)..] == s;
    assert !(|s| >= 2 && s[0] == '0');
    DigitRunAll(s);
    assert s[..DigitRun(s)] == s;
    DigitsValueOfNat(n);
  }
}
