/**
 * Sequence helpers shared by the loops that push one entry per item of a
 * list when a condition holds: the pushed entries, and where in the list
 * each of them came from.
 */
module Lists {
  import opened JsString

  /** The values of the `Some` entries, in order: what a loop pushing only the present entries produces. */
  function FilterMap<T>(xs: seq<Option<T>>): (r: seq<T>)
    ensures |r| <= |xs|
  {
    if xs == [] then [] else (if xs[0].Some? then [xs[0].value] else []) + FilterMap(xs[1..])
  }

  function Shift(ks: seq<nat>): (r: seq<nat>)
    ensures |r| == |ks|
    ensures forall j | 0 <= j < |ks| :: r[j] == ks[j] + 1
  {
    if ks == [] then [] else [ks[0] + 1] + Shift(ks[1..])
  }

  /** The indices of the `Some` entries, in increasing order. */
  function Picked<T>(xs: seq<Option<T>>): (ks: seq<nat>)
    ensures |ks| == |FilterMap(xs)|
    ensures forall j | 0 <= j < |ks| :: ks[j] < |xs|
  {
    if xs == [] then [] else (if xs[0].Some? then [0] else []) + Shift(Picked(xs[1..]))
  }

  predicate Increasing(ks: seq<nat>) {
    forall j1, j2 | 0 <= j1 < j2 < |ks| :: ks[j1] < ks[j2]
  }

  /** The picked indices increase, so the pushed entries keep the order of the list. */
  lemma {:induction false} PickedIncreasing<T>(xs: seq<Option<T>>)
    ensures Increasing(Picked(xs))
  {
    if xs != [] {
      var p := Picked(xs[1..]);
      PickedIncreasing(xs[1..]);
      var st := Shift(p);
      assert Increasing(st) by {
        forall j1, j2 | 0 <= j1 < j2 < |st| ensures st[j1] < st[j2] {
          assert p[j1] < p[j2];
        }
      }
      if xs[0].Some? {
        var ks := [0] + st;
        assert Picked(xs) == ks;
        forall j1, j2 | 0 <= j1 < j2 < |ks| ensures ks[j1] < ks[j2] {
          assert ks[j2] == st[j2 - 1];
          if j1 > 0 {
            assert ks[j1] == st[j1 - 1];
          }
        }
      } else {
        assert Picked(xs) == [] + st == st;
      }
    }
  }

  lemma ShiftIn(ks: seq<nat>, k: nat)
    ensures k in Shift(ks) <==> k > 0 && k - 1 in ks
  {
    var st := Shift(ks);
    if k in st {
      var j :| 0 <= j < |st| && st[j] == k;
      assert ks[j] == k - 1;
    }
    if k > 0 && k - 1 in ks {
      var j :| 0 <= j < |ks| && ks[j] == k - 1;
      assert st[j] == k;
    }
  }

  /**
   * The output of a filtering loop lists, in order, one value for each
   * present entry: entry `j` of the output is the value at the `j`-th
   * present index.
   */
  lemma FilterMapPicked<T>(xs: seq<Option<T>>)
    ensures forall j | 0 <= j < |Picked(xs)| :: xs[Picked(xs)[j]] == Some(FilterMap(xs)[j])
  {
    forall j | 0 <= j < |Picked(xs)| ensures xs[Picked(xs)[j]] == Some(FilterMap(xs)[j]) {
      PickedValue(xs, j);
    }
  }

  lemma {:induction false} PickedValue<T>(xs: seq<Option<T>>, j: nat)
    requires j < |Picked(xs)|
    ensures xs[Picked(xs)[j]] == Some(FilterMap(xs)[j])
    decreases |xs|
  {
    var t := xs[1..];
    var st := Shift(Picked(t));
    if xs[0].Some? {
      assert Picked(xs) == [0] + st;
      assert FilterMap(xs) == [xs[0].value] + FilterMap(t);
      if j > 0 {
        PickedValue(t, j - 1);
        var i := Picked(t)[j - 1];
        assert Picked(xs)[j] == st[j - 1] == i + 1;
        assert xs[i + 1] == t[i];
      }
    } else {
      assert Picked(xs) == [] + st;
      assert FilterMap(xs) == [] + FilterMap(t);
      PickedValue(t, j);
      var i := Picked(t)[j];
      assert Picked(xs)[j] == st[j] == i + 1;
      assert xs[i + 1] == t[i];
    }
  }

  /** Every present entry is picked, and only those. */
  lemma PickedComplete<T>(xs: seq<Option<T>>)
    ensures forall k | 0 <= k < |xs| :: xs[k].Some? <==> k in Picked(xs)
  {
    forall k | 0 <= k < |xs| ensures xs[k].Some? <==> k in Picked(xs) {
      PickedAt(xs, k);
    }
  }

  lemma {:induction false} PickedAt<T>(xs: seq<Option<T>>, k: nat)
    requires k < |xs|
    ensures xs[k].Some? <==> k in Picked(xs)
  {
    var t := xs[1..];
    var st := Shift(Picked(t));
    assert Picked(xs) == (if xs[0].Some? then [0] else []) + st;
    assert k in Picked(xs) <==> (k == 0 && xs[0].Some?) || k in st;
    ShiftIn(Picked(t), k);
    if k > 0 {
      PickedAt(t, k - 1);
      assert xs[k] == t[k - 1];
    }
  }

  /** Nothing is pushed exactly when no entry is present. */
  lemma FilterMapEmpty<T>(xs: seq<Option<T>>)
    ensures FilterMap(xs) == [] <==> forall k | 0 <= k < |xs| :: xs[k].None?
  {
    FilterMapPicked(xs);
    PickedComplete(xs);
    if FilterMap(xs) != [] {
      assert xs[Picked(xs)[0]].Some?;
    }
  }

  /** Pushing the entries one at a time: the step a filtering loop takes. */
  lemma FilterMapCons<T>(x: Option<T>, xs: seq<Option<T>>)
    ensures x.None? ==> FilterMap([x] + xs) == FilterMap(xs)
    ensures x.Some? ==> FilterMap([x] + xs) == [x.value] + FilterMap(xs)
  {
    assert ([x] + xs)[1..] == xs;
    if x.None? {
      assert [] + FilterMap(xs) == FilterMap(xs);
    }
  }

  /** `filter(Boolean)` on strings: the non-empty ones. */
  function NonEmpty(xs: seq<string>): (r: seq<string>)
    ensures |r| <= |xs|
    ensures forall j | 0 <= j < |r| :: r[j] != ""
  {
    if xs == [] then [] else (if xs[0] != "" then [xs[0]] else []) + NonEmpty(xs[1..])
  }
  /** A non-empty head is kept in front of what is kept of the rest. */
  lemma NonEmptyCons(x: string, xs: seq<string>)
    requires x != ""
    ensures NonEmpty([x] + xs) == [x] + NonEmpty(xs)
  {
    assert ([x] + xs)[1..] == xs;
  }

  /** Nothing is dropped from a list of non-empty strings. */
  lemma {:induction false} NonEmptyNoop(xs: seq<string>)
    requires forall k | 0 <= k < |xs| :: xs[k] != ""
    ensures NonEmpty(xs) == xs
  {
    if xs != [] {
      var t := xs[1..];
      assert forall k | 0 <= k < |t| :: t[k] == xs[k + 1];
      NonEmptyNoop(t);
      assert xs == [xs[0]] + t;
    }
  }

  /**
   * Joining the present entries gives the empty string exactly when no entry
   * is present, as long as every present entry is non-empty.
   */
  lemma JoinPresentEmpty(xs: seq<Option<string>>, sep: string)
    requires forall k | 0 <= k < |xs| :: xs[k].Some? ==> xs[k].value != ""
    ensures Join(FilterMap(xs), sep) == "" <==> forall k | 0 <= k < |xs| :: xs[k].None?
  {
    FilterMapEmpty(xs);
    var vs := FilterMap(xs);
    FilterMapPicked(xs);
    forall j | 0 <= j < |vs| ensures vs[j] != "" {
      assert xs[Picked(xs)[j]] == Some(vs[j]);
    }
    JoinEmpty(vs, sep);
  }

  /** The strings one after the other: what a loop appending to an accumulator builds. */
  function Concat(xs: seq<string>): string {
    if xs == [] then "" else Concat(xs[..|xs| - 1]) + xs[|xs| - 1]
  }

  lemma ConcatSnoc(xs: seq<string>, x: string)
    ensures Concat(xs + [x]) == Concat(xs) + x
  {
    assert (xs + [x])[..|xs|] == xs;
  }

  /** The concatenation is empty exactly when every string is. */
  lemma {:induction false} ConcatEmpty(xs: seq<string>)
    ensures Concat(xs) == "" <==> forall k | 0 <= k < |xs| :: xs[k] == ""
  {
    if xs != [] {
      var init := xs[..|xs| - 1];
      ConcatEmpty(init);
      assert forall k | 0 <= k < |init| :: init[k] == xs[k];
    }
  }
  /** `map(s => s.trim())`. */
  function TrimAll(xs: seq<string>): (r: seq<string>)
    ensures |r| == |xs|
    ensures forall k | 0 <= k < |xs| :: r[k] == Trim(xs[k])
  {
    if xs == [] then [] else [Trim(xs[0])] + TrimAll(xs[1..])
  }

  /** Trimming and dropping empty pieces leaves a list of trimmed non-empty strings unchanged. */
  lemma TrimNonEmptyNoop(xs: seq<string>)
    requires forall k | 0 <= k < |xs| :: xs[k] != "" && !IsSpace(xs[k][0]) && !IsSpace(xs[k][|xs[k]| - 1])
    ensures NonEmpty(TrimAll(xs)) == xs
  {
    var ts := TrimAll(xs);
    forall k | 0 <= k < |xs| ensures ts[k] == xs[k] {
      TrimNoop(xs[k]);
    }
    assert ts == xs;
    NonEmptyNoop(xs);
  }

  /** Each string as an entry that is present exactly when the string is non-empty. */
  function Present(xs: seq<string>): (r: seq<Option<string>>)
    ensures |r| == |xs|
    ensures forall k | 0 <= k < |xs| :: r[k] == (if xs[k] != "" then Some(xs[k]) else None)
  {
    if xs == [] then [] else [if xs[0] != "" then Some(xs[0]) else None] + Present(xs[1..])
  }

  /** Dropping the empty strings is filtering their entries out. */
  lemma {:induction false} NonEmptyPresent(xs: seq<string>)
    ensures NonEmpty(xs) == FilterMap(Present(xs))
  {
    if xs != [] {
      var t := xs[1..];
      NonEmptyPresent(t);
      var x := if xs[0] != "" then Some(xs[0]) else None;
      assert Present(xs) == [x] + Present(t);
      FilterMapCons(x, Present(t));
      if xs[0] == "" {
        assert NonEmpty(xs) == [] + NonEmpty(t) == NonEmpty(t);
      }
    }
  }

  /**
   * `filter(Boolean)` keeps the non-empty strings in their order: entry `j`
   * of the result is the string at the `j`-th non-empty position.
   */
  lemma NonEmptyOrder(xs: seq<string>)
    ensures var ks := Picked(Present(xs));
      Increasing(ks)
      && |NonEmpty(xs)| == |ks|
      && (forall j | 0 <= j < |ks| :: NonEmpty(xs)[j] == xs[ks[j]])
      && (forall k | 0 <= k < |xs| :: k in ks <==> xs[k] != "")
  {
    var ps := Present(xs);
    NonEmptyPresent(xs);
    PickedIncreasing(ps);
    PickedComplete(ps);
    FilterMapPicked(ps);
  }

  /** Nothing is left exactly when every string is empty. */
  lemma NonEmptyEmpty(xs: seq<string>)
    ensures NonEmpty(xs) == [] <==> forall k | 0 <= k < |xs| :: xs[k] == ""
  {
    NonEmptyPresent(xs);
    FilterMapEmpty(Present(xs));
  }

}
