/**
 * Inserting a marked snippet at the cursor of a text area: the selection is
 * replaced by `[+] ` and the snippet, put on a line of its own, and the
 * cursor moves to just after it.
 */
module TextInsertion {
  import opened JsString

  /** The state of a text area the insertion reads and writes. */
  class TextArea {
    var value: string
    var selectionStart: nat
    var selectionEnd: nat

    /** The selection lies within the value and does not run backwards. */
    predicate Valid()
      reads this
    {
      selectionStart <= selectionEnd <= |value|
    }

    constructor (value: string, selectionStart: nat, selectionEnd: nat)
      requires selectionStart <= selectionEnd <= |value|
      ensures Valid()
      ensures this.value == value && this.selectionStart == selectionStart && this.selectionEnd == selectionEnd
    {
      this.value := value;
      this.selectionStart := selectionStart;
      this.selectionEnd := selectionEnd;
    }
  }

  const MARK := "[+] "

  /** A line break in front, unless the cursor is at the very start or right after a line break. */
  function Prefix(before: string, start: nat): string {
    if start > 0 && !(before != [] && before[|before| - 1] == '\n') then "\n" else ""
  }

  /** A line break behind, unless the text after the selection already starts with one. */
  function Suffix(after: string): string {
    if !(after != [] && after[0] == '\n') then "\n" else ""
  }

  /** The new value: the text before the selection, the marked snippet on its own line, the text after it. */
  function Inserted(value: string, start: nat, end: nat, text: string): string
    requires start <= end <= |value|
  {
    var before, after := value[..start], value[end..];
    before + Prefix(before, start) + (MARK + text) + Suffix(after) + after
  }

  /** Where the cursor goes: just after the inserted snippet and its line break. */
  function NewPosition(value: string, start: nat, end: nat, text: string): nat
    requires start <= end <= |value|
  {
    start + |Prefix(value[..start], start)| + |MARK + text| + |Suffix(value[end..])|
  }

  /** `insertTextAtCursor`; `None` stands for the `undefined` returned without a text area. */
  method InsertTextAtCursor(textarea: TextArea?, text: string) returns (r: Option<string>)
    requires textarea != null ==> textarea.Valid()
    modifies textarea
    ensures textarea == null ==> r == None
    ensures textarea != null ==>
      textarea.Valid()
      && textarea.value == Inserted(old(textarea.value), old(textarea.selectionStart), old(textarea.selectionEnd), text)
      && textarea.selectionStart == textarea.selectionEnd
      && textarea.selectionEnd == NewPosition(old(textarea.value), old(textarea.selectionStart), old(textarea.selectionEnd), text)
      && r == Some(textarea.value)
  {
    if textarea == null {
      return None;
    }
    var startPos := textarea.selectionStart;
    var endPos := textarea.selectionEnd;
    var textBefore := textarea.value[..startPos];
    var textAfter := textarea.value[endPos..];
    var prefix := if startPos > 0 && !(textBefore != [] && textBefore[|textBefore| - 1] == '\n') then "\n" else "";
    var suffix := if !(textAfter != [] && textAfter[0] == '\n') then "\n" else "";
    var markedText := MARK + text;
    var newText := textBefore + prefix + markedText + suffix + textAfter;
    textarea.value := newText;
    var newPosition := startPos + |prefix| + |markedText| + |suffix|;
    textarea.selectionStart := newPosition;
    textarea.selectionEnd := newPosition;
    return Some(newText);
  }

  /** A line break is put in front exactly when the cursor is past the start and not right after a line break. */
  lemma PrefixSpec(value: string, start: nat)
    requires start <= |value|
    ensures Prefix(value[..start], start) == "\n" <==> start > 0 && value[start - 1] != '\n'
    ensures Prefix(value[..start], start) == "" <==> !(start > 0 && value[start - 1] != '\n')
  {
  }

  /** A line break is put behind exactly when the text after the selection does not start with one. */
  lemma SuffixSpec(value: string, end: nat)
    requires end <= |value|
    ensures Suffix(value[end..]) == "\n" <==> end == |value| || value[end] != '\n'
    ensures Suffix(value[end..]) == "" <==> end < |value| && value[end] == '\n'
  {
  }

  /** Into an empty box the snippet goes behind its mark, closed by a line break, and the cursor ends up after it. */
  lemma InsertedIntoEmpty(text: string)
    ensures Inserted("", 0, 0, text) == MARK + text + "\n"
    ensures NewPosition("", 0, 0, text) == |MARK + text + "\n"|
  {
    assert Prefix("", 0) == "" && Suffix("") == "\n";
    assert Inserted("", 0, 0, text) == "" + "" + (MARK + text) + "\n" + "";
  }

  /**
   * The new value keeps the text before the selection as its first `start`
   * characters and the text after the selection as its tail, which starts
   * at the new cursor position; the selection itself is gone.
   */
  lemma InsertedKeepsEnds(value: string, start: nat, end: nat, text: string)
    requires start <= end <= |value|
    ensures var r := Inserted(value, start, end, text); var p := NewPosition(value, start, end, text);
      p <= |r| && r[..start] == value[..start] && r[p..] == value[end..]
      && |r| == |value| - (end - start) + (p - start)
  {
    var before, after := value[..start], value[end..];
    var mid := Prefix(before, start) + (MARK + text) + Suffix(after);
    assert Inserted(value, start, end, text) == before + mid + after;
  }

  /**
   * The snippet, behind its mark, stands on a line of its own: it starts the
   * value or follows a line break, and a line break follows it.
   */
  lemma InsertedOnOwnLine(value: string, start: nat, end: nat, text: string)
    requires start <= end <= |value|
    ensures var r := Inserted(value, start, end, text);
      var q := start + |Prefix(value[..start], start)|;
      q + |MARK + text| < |r|
      && (q == 0 || r[q - 1] == '\n')
      && r[q..q + |MARK + text|] == MARK + text
      && r[q + |MARK + text|] == '\n'
  {
    var before, after := value[..start], value[end..];
    var pre, m, suf := Prefix(before, start), MARK + text, Suffix(after);
    var r := Inserted(value, start, end, text);
    assert r == (before + pre) + m + (suf + after);
    var q := start + |pre|;
    assert (before + pre)[..q] == before + pre;
    if q > 0 {
      if pre == "" {
        assert r[q - 1] == before[start - 1];
      } else {
        assert r[q - 1] == pre[0];
      }
    }
    assert r[q..q + |m|] == m;
    if suf == "" {
      assert r[q + |m|] == after[0];
    } else {
      assert r[q + |m|] == suf[0];
    }
  }
}
