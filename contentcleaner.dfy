/**
 * The content cleaner: the text split into lines, each line trimmed, the
 * empty ones dropped, the rest joined by line breaks again.
 */
module ContentCleaner {
  import opened JsString
  import opened Lists

  /** The input lines, trimmed, the blank ones dropped: the lines the cleaner keeps. */
  function KeptLines(content: string): seq<string> {
    NonEmpty(TrimAll(Split(content, "\n")))
  }

  /** `cleanContent` of contentCleaner.ts. */
  function CleanContent(content: string): string {
    Join(KeptLines(content), "\n")
  }

  /** No piece of a split at a one-character separator holds that character. */
  lemma {:induction false} SplitAvoids(s: string, c: char)
    ensures forall k | 0 <= k < |Split(s, [c])| :: Avoids(Split(s, [c])[k], [c])
    decreases |s|
  {
    match IndexOf(s, [c])
    case None =>
      forall i | 0 <= i < |s| ensures s[i] !in [c] {
        assert !OccursAt(s, [c], i);
        assert s[i..i + 1] == [s[i]];
      }
    case Some(i) =>
      var rest := s[i + 1..];
      SplitAvoids(rest, c);
      var head := s[..i];
      forall j | 0 <= j < |head| ensures head[j] !in [c] {
        assert !OccursAt(s, [c], j);
        assert s[j..j + 1] == [s[j]];
      }
      var ps := Split(rest, [c]);
      assert Split(s, [c]) == [head] + ps;
      forall k | 0 <= k < |Split(s, [c])| ensures Avoids(Split(s, [c])[k], [c]) {
        if k > 0 {
          assert Split(s, [c])[k] == ps[k - 1];
        }
      }
  }

  /** A line as the cleaner leaves it: non-empty, trimmed, without a line break. */
  predicate CleanLine(x: string) {
    x != "" && Trim(x) == x && Avoids(x, "\n")
  }

  /** A trimmed line without a line break is clean unless it is empty. */
  lemma TrimmedLine(line: string)
    requires Avoids(line, "\n")
    ensures Trim(line) == "" || CleanLine(Trim(line))
  {
    var r := Trim(line);
    TrimIdempotent(line);
    TrimCharsFrom(line);
    forall i | 0 <= i < |r| ensures r[i] !in "\n" {
      assert r[i] in line;
    }
  }

  /** Every kept line is a trimmed, non-empty input line, so it has no line break and no edge whitespace. */
  lemma KeptLinesShape(content: string)
    ensures forall j | 0 <= j < |KeptLines(content)| :: CleanLine(KeptLines(content)[j])
  {
    var ls := Split(content, "\n");
    SplitAvoids(content, '\n');
    var ts := TrimAll(ls);
    forall k | 0 <= k < |ts| ensures ts[k] == "" || CleanLine(ts[k]) {
      TrimmedLine(ls[k]);
    }
    NonEmptyOrder(ts);
    var out := KeptLines(content);
    var ks := Picked(Present(ts));
    forall j | 0 <= j < |out| ensures CleanLine(out[j]) {
      assert out[j] == ts[ks[j]];
    }
  }

  /** Splitting the output at line breaks gives the kept lines back, whenever the output is not empty. */
  lemma CleanContentLines(content: string)
    ensures CleanContent(content) != "" ==> Split(CleanContent(content), "\n") == KeptLines(content)
  {
    var out := KeptLines(content);
    if out != [] {
      KeptLinesShape(content);
      forall j | 0 <= j < |out| ensures SepFree(out[j], "\n") {
        AvoidsSepFree(out[j], "\n");
      }
      SplitJoin(out, "\n");
    }
  }

  /** The output has no empty line and every line is trimmed. */
  lemma CleanContentNoBlankLines(content: string)
    ensures var out := CleanContent(content);
      out != "" ==>
        forall j | 0 <= j < |Split(out, "\n")| ::
          Split(out, "\n")[j] != "" && Trim(Split(out, "\n")[j]) == Split(out, "\n")[j]
  {
    CleanContentLines(content);
    KeptLinesShape(content);
  }

  /**
   * The kept lines are the non-blank input lines, trimmed, in their order:
   * line `j` of the output comes from the `j`-th non-blank input line.
   */
  lemma CleanContentOrder(content: string)
    ensures var ls := Split(content, "\n"); var ks := Picked(Present(TrimAll(ls)));
      Increasing(ks)
      && |KeptLines(content)| == |ks|
      && (forall j | 0 <= j < |ks| :: KeptLines(content)[j] == Trim(ls[ks[j]]))
      && (forall k | 0 <= k < |ls| :: k in ks <==> !AllSpace(ls[k]))
  {
    var ls := Split(content, "\n");
    NonEmptyOrder(TrimAll(ls));
  }

  /** The output is empty exactly when every input line is blank. */
  lemma CleanContentEmpty(content: string)
    ensures CleanContent(content) == "" <==> forall k | 0 <= k < |Split(content, "\n")| :: AllSpace(Split(content, "\n")[k])
  {
    var ls := Split(content, "\n");
    var ts := TrimAll(ls);
    assert KeptLines(content) == NonEmpty(ts);
    assert CleanContent(content) == Join(KeptLines(content), "\n");
    NonEmptyEmpty(ts);
    JoinEmpty(KeptLines(content), "\n");
    assert forall k | 0 <= k < |ls| :: ts[k] == "" <==> AllSpace(ls[k]);
  }

  /** Cleaning twice is cleaning once. */
  lemma CleanContentIdempotent(content: string)
    ensures CleanContent(CleanContent(content)) == CleanContent(content)
  {
    var out := CleanContent(content);
    var kept := KeptLines(content);
    if out == "" {
      assert Split(out, "\n") == [""] by {
        assert IndexOf(out, "\n") == None;
      }
      assert TrimAll([""]) == [""] by {
        TrimNoop("");
      }
      assert NonEmpty([""]) == [];
    } else {
      CleanContentLines(content);
      KeptLinesShape(content);
      forall j | 0 <= j < |kept| ensures kept[j] != "" && !IsSpace(kept[j][0]) && !IsSpace(kept[j][|kept[j]| - 1]) {
        assert Trim(kept[j]) == kept[j];
      }
      TrimNonEmptyNoop(kept);
    }
  }
}
