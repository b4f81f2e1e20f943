/**
 * The label lookups shared by the prompt builder and the selected-items
 * summary: an id is looked up in a static catalog of options, grouped in
 * categories, and shown as its label, or as the id itself when no option
 * has it. The catalogs themselves are configuration data and are
 * parameters here.
 */
module CatalogLabels {
  import opened JsString

  /** An option of a catalog: its id and the label or name shown for it. */
  datatype Item = Item(id: string, name: string)

  /** The static catalogs the lookups search. */
  datatype Catalog = Catalog(
    therapyCategories: seq<seq<Item>>,
    concerns: seq<Item>,
    observationCategories: seq<seq<Item>>,
    responseCategories: seq<seq<Item>>,
    planCategories: seq<seq<Item>>)

  /** `findIndex(o => o.id === id)`: the first option with the id. */
  function FindIndex(items: seq<Item>, id: string): (r: Option<nat>)
    ensures r.Some? ==> r.value < |items| && items[r.value].id == id
    ensures r.Some? ==> forall j | 0 <= j < r.value :: items[j].id != id
    ensures r.None? <==> forall j | 0 <= j < |items| :: items[j].id != id
  {
    if items == [] then None
    else if items[0].id == id then Some(0)
    else match FindIndex(items[1..], id)
      case None => None
      case Some(k) => Some(k + 1)
  }

  /** `getConcernLabel`: the label of the first concern with the id, or the id. */
  function ConcernLabel(items: seq<Item>, id: string): string {
    match FindIndex(items, id)
    case Some(k) => items[k].name
    case None => id
  }

  /**
   * The search of `getTherapyName`, `getObservationLabel`, `getResponseLabel`
   * and `getPlanLabel`: the categories in order, the first option with the
   * id in the first category that has one, or the id.
   */
  function CategoryLabel(cats: seq<seq<Item>>, id: string): string
  {
    if cats == [] then id
    else match FindIndex(cats[0], id)
      case Some(k) => cats[0][k].name
      case None => CategoryLabel(cats[1..], id)
  }

  /** The `for … of` loop over the categories, returning at the first category that has the id. */
  method LookupLabel(cats: seq<seq<Item>>, id: string) returns (shown: string)
    ensures shown == CategoryLabel(cats, id)
  {
    var i := 0;
    while i < |cats|
      invariant 0 <= i <= |cats|
      invariant CategoryLabel(cats[i..], id) == CategoryLabel(cats, id)
    {
      var option := FindIndex(cats[i], id);
      assert cats[i..][0] == cats[i] && cats[i..][1..] == cats[i + 1..];
      if option.Some? {
        return cats[i][option.value].name;
      }
      i := i + 1;
    }
    return id;
  }

  /** Some category has an option with the id. */
  predicate Listed(cats: seq<seq<Item>>, id: string) {
    exists c, k | 0 <= c < |cats| && 0 <= k < |cats[c]| :: cats[c][k].id == id
  }

  /**
   * An id no option has is shown as itself; otherwise it is shown as the
   * label of the first option with the id in the first category holding one.
   */
  lemma CategoryLabelSpec(cats: seq<seq<Item>>, id: string)
    ensures !Listed(cats, id) ==> CategoryLabel(cats, id) == id
    ensures Listed(cats, id) ==>
      exists c, k | 0 <= c < |cats| && 0 <= k < |cats[c]| ::
        cats[c][k].id == id && CategoryLabel(cats, id) == cats[c][k].name
        && (forall c' | 0 <= c' < c :: FindIndex(cats[c'], id).None?)
        && (forall j | 0 <= j < k :: cats[c][j].id != id)
  {
    if Listed(cats, id) {
      var c, k := CategoryLabelFound(cats, id);
    } else {
      CategoryLabelUnlisted(cats, id);
    }
  }

  lemma {:induction false} CategoryLabelUnlisted(cats: seq<seq<Item>>, id: string)
    requires !Listed(cats, id)
    ensures CategoryLabel(cats, id) == id
  {
    if cats != [] {
      var t := cats[1..];
      assert FindIndex(cats[0], id).None? by {
        forall j | 0 <= j < |cats[0]| ensures cats[0][j].id != id {
          assert !(cats[0][j].id == id);
        }
      }
      assert !Listed(t, id) by {
        forall c, k | 0 <= c < |t| && 0 <= k < |t[c]| ensures t[c][k].id != id {
          assert t[c] == cats[c + 1];
        }
      }
      CategoryLabelUnlisted(t, id);
    }
  }

  /** The category and position of the option whose label is shown. */
  lemma {:induction false} CategoryLabelFound(cats: seq<seq<Item>>, id: string) returns (c: nat, k: nat)
    requires Listed(cats, id)
    ensures c < |cats| && k < |cats[c]| && cats[c][k].id == id
    ensures CategoryLabel(cats, id) == cats[c][k].name
    ensures forall c' | 0 <= c' < c :: FindIndex(cats[c'], id).None?
    ensures forall j | 0 <= j < k :: cats[c][j].id != id
  {
    match FindIndex(cats[0], id)
    case Some(k0) =>
      c, k := 0, k0;
    case None =>
      var t := cats[1..];
      var c0: nat, k0: nat :| 0 <= c0 < |cats| && 0 <= k0 < |cats[c0]| && cats[c0][k0].id == id;
      assert c0 != 0;
      assert t[c0 - 1] == cats[c0];
      assert t[c0 - 1][k0].id == id;
      var c1, k1 := CategoryLabelFound(t, id);
      assert cats[c1 + 1] == t[c1];
      c, k := c1 + 1, k1;
      forall c' | 0 <= c' < c ensures FindIndex(cats[c'], id).None? {
        if c' > 0 { assert cats[c'] == t[c' - 1]; }
      }
  }

  /** A single list of options, as `getConcernLabel` searches, is the one-category case of the category search. */
  lemma ConcernIsOneCategory(items: seq<Item>, id: string)
    ensures ConcernLabel(items, id) == CategoryLabel([items], id)
  {
    assert [items][1..] == [];
  }

  /** `getConcernLabel` shows the first concern's label, or the id when no concern has it. */
  lemma ConcernLabelSpec(items: seq<Item>, id: string)
    ensures (forall j | 0 <= j < |items| :: items[j].id != id) ==> ConcernLabel(items, id) == id
    ensures (exists j | 0 <= j < |items| :: items[j].id == id) ==>
      exists j | 0 <= j < |items| :: items[j].id == id && ConcernLabel(items, id) == items[j].name
        && forall i | 0 <= i < j :: items[i].id != id
  {
    if FindIndex(items, id).Some? {
      var k := FindIndex(items, id).value;
      assert items[k].id == id;
    }
  }

  /** The label of each id, in order. */
  function LabelsOf(cats: seq<seq<Item>>, ids: seq<string>): (r: seq<string>)
    ensures |r| == |ids|
    ensures forall k | 0 <= k < |ids| :: r[k] == CategoryLabel(cats, ids[k])
  {
    if ids == [] then [] else [CategoryLabel(cats, ids[0])] + LabelsOf(cats, ids[1..])
  }

  /** Each string with the prefix in front, in order. */
  function Prefixed(prefix: string, xs: seq<string>): (r: seq<string>)
    ensures |r| == |xs|
    ensures forall k | 0 <= k < |xs| :: r[k] == prefix + xs[k]
  {
    if xs == [] then [] else [prefix + xs[0]] + Prefixed(prefix, xs[1..])
  }
}
