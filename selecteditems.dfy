/**
 * The selected-items summary of the note form: one line per selected id,
 * therapies first, then concerns, observations, responses and plans, each
 * line a fixed category prefix and the id's catalog label, the lines joined
 * by line breaks.
 */
module SelectedItemsView {
  import opened JsString
  import opened CatalogLabels

  const THERAPY_PREFIX := "Therapy Approach used: "
  const CONCERN_PREFIX := "Concern: "
  const OBSERVATION_PREFIX := "Observation: "
  const RESPONSE_PREFIX := "Response: "
  const PLAN_PREFIX := "Plan: "

  /** The five selections, as the component receives them. */
  datatype Selections = Selections(
    therapies: seq<string>,
    concerns: seq<string>,
    observations: seq<string>,
    responses: seq<string>,
    plans: seq<string>)

  function TherapyLines(cat: Catalog, sel: Selections): seq<string> {
    Prefixed(THERAPY_PREFIX, LabelsOf(cat.therapyCategories, sel.therapies))
  }

  function ConcernLines(cat: Catalog, sel: Selections): seq<string> {
    Prefixed(CONCERN_PREFIX, LabelsOf([cat.concerns], sel.concerns))
  }

  function ObservationLines(cat: Catalog, sel: Selections): seq<string> {
    Prefixed(OBSERVATION_PREFIX, LabelsOf(cat.observationCategories, sel.observations))
  }

  function ResponseLines(cat: Catalog, sel: Selections): seq<string> {
    Prefixed(RESPONSE_PREFIX, LabelsOf(cat.responseCategories, sel.responses))
  }

  function PlanLines(cat: Catalog, sel: Selections): seq<string> {
    Prefixed(PLAN_PREFIX, LabelsOf(cat.planCategories, sel.plans))
  }

  /** `selectedItems`: the five mapped selections spread one after the other. */
  function SelectedItems(cat: Catalog, sel: Selections): seq<string> {
    TherapyLines(cat, sel) + ConcernLines(cat, sel) + ObservationLines(cat, sel)
    + ResponseLines(cat, sel) + PlanLines(cat, sel)
  }

  /** `selectedText`. */
  function SelectedText(cat: Catalog, sel: Selections): string {
    Join(SelectedItems(cat, sel), "\n")
  }

  /** Starting offsets of the five groups of lines. */
  function ConcernStart(sel: Selections): nat { |sel.therapies| }
  function ObservationStart(sel: Selections): nat { ConcernStart(sel) + |sel.concerns| }
  function ResponseStart(sel: Selections): nat { ObservationStart(sel) + |sel.observations| }
  function PlanStart(sel: Selections): nat { ResponseStart(sel) + |sel.responses| }

  /** There is one line per selected id. */
  lemma SelectedItemsCount(cat: Catalog, sel: Selections)
    ensures |SelectedItems(cat, sel)| ==
      |sel.therapies| + |sel.concerns| + |sel.observations| + |sel.responses| + |sel.plans|
  {
  }

  /**
   * The lines come group by group in the fixed order, each group in
   * selection order, each line its group's prefix and its id's label.
   */
  lemma SelectedItemsAt(cat: Catalog, sel: Selections)
    ensures var items := SelectedItems(cat, sel);
      |items| == PlanStart(sel) + |sel.plans|
      && (forall k | 0 <= k < |sel.therapies| ::
            items[k] == THERAPY_PREFIX + CategoryLabel(cat.therapyCategories, sel.therapies[k]))
      && (forall k | 0 <= k < |sel.concerns| ::
            items[ConcernStart(sel) + k] == CONCERN_PREFIX + ConcernLabel(cat.concerns, sel.concerns[k]))
      && (forall k | 0 <= k < |sel.observations| ::
            items[ObservationStart(sel) + k] == OBSERVATION_PREFIX + CategoryLabel(cat.observationCategories, sel.observations[k]))
      && (forall k | 0 <= k < |sel.responses| ::
            items[ResponseStart(sel) + k] == RESPONSE_PREFIX + CategoryLabel(cat.responseCategories, sel.responses[k]))
      && (forall k | 0 <= k < |sel.plans| ::
            items[PlanStart(sel) + k] == PLAN_PREFIX + CategoryLabel(cat.planCategories, sel.plans[k]))
  {
    var t, c, o, r, p := TherapyLines(cat, sel), ConcernLines(cat, sel), ObservationLines(cat, sel),
                         ResponseLines(cat, sel), PlanLines(cat, sel);
    Concat5(t, c, o, r, p);
    forall k | 0 <= k < |sel.concerns|
      ensures c[k] == CONCERN_PREFIX + ConcernLabel(cat.concerns, sel.concerns[k])
    {
      ConcernIsOneCategory(cat.concerns, sel.concerns[k]);
    }
  }

  lemma NonEmptyLines5(t: seq<string>, c: seq<string>, o: seq<string>, r: seq<string>, p: seq<string>)
    requires forall k | 0 <= k < |t| :: t[k] != ""
    requires forall k | 0 <= k < |c| :: c[k] != ""
    requires forall k | 0 <= k < |o| :: o[k] != ""
    requires forall k | 0 <= k < |r| :: r[k] != ""
    requires forall k | 0 <= k < |p| :: p[k] != ""
    ensures forall k | 0 <= k < |t + c + o + r + p| :: (t + c + o + r + p)[k] != ""
  {
  }

  /** Where each of five spread lists lands in the spread. */
  lemma Concat5<T>(t: seq<T>, c: seq<T>, o: seq<T>, r: seq<T>, p: seq<T>)
    ensures var xs := t + c + o + r + p;
      |xs| == |t| + |c| + |o| + |r| + |p|
      && (forall k | 0 <= k < |t| :: xs[k] == t[k])
      && (forall k | 0 <= k < |c| :: xs[|t| + k] == c[k])
      && (forall k | 0 <= k < |o| :: xs[|t| + |c| + k] == o[k])
      && (forall k | 0 <= k < |r| :: xs[|t| + |c| + |o| + k] == r[k])
      && (forall k | 0 <= k < |p| :: xs[|t| + |c| + |o| + |r| + k] == p[k])
  {
  }

  /** An id no catalog entry has is shown as the id itself, behind its prefix. */
  lemma SelectedItemsUnknown(cat: Catalog, sel: Selections)
    ensures forall k | 0 <= k < |sel.therapies| && !Listed(cat.therapyCategories, sel.therapies[k]) ::
      SelectedItems(cat, sel)[k] == THERAPY_PREFIX + sel.therapies[k]
    ensures forall k | 0 <= k < |sel.concerns| && (forall j | 0 <= j < |cat.concerns| :: cat.concerns[j].id != sel.concerns[k]) ::
      SelectedItems(cat, sel)[ConcernStart(sel) + k] == CONCERN_PREFIX + sel.concerns[k]
    ensures forall k | 0 <= k < |sel.observations| && !Listed(cat.observationCategories, sel.observations[k]) ::
      SelectedItems(cat, sel)[ObservationStart(sel) + k] == OBSERVATION_PREFIX + sel.observations[k]
    ensures forall k | 0 <= k < |sel.responses| && !Listed(cat.responseCategories, sel.responses[k]) ::
      SelectedItems(cat, sel)[ResponseStart(sel) + k] == RESPONSE_PREFIX + sel.responses[k]
    ensures forall k | 0 <= k < |sel.plans| && !Listed(cat.planCategories, sel.plans[k]) ::
      SelectedItems(cat, sel)[PlanStart(sel) + k] == PLAN_PREFIX + sel.plans[k]
  {
    SelectedItemsAt(cat, sel);
    forall k | 0 <= k < |sel.therapies| && !Listed(cat.therapyCategories, sel.therapies[k])
      ensures CategoryLabel(cat.therapyCategories, sel.therapies[k]) == sel.therapies[k]
    {
      CategoryLabelUnlisted(cat.therapyCategories, sel.therapies[k]);
    }
    forall k | 0 <= k < |sel.concerns| && (forall j | 0 <= j < |cat.concerns| :: cat.concerns[j].id != sel.concerns[k])
      ensures ConcernLabel(cat.concerns, sel.concerns[k]) == sel.concerns[k]
    {
    }
    forall k | 0 <= k < |sel.observations| && !Listed(cat.observationCategories, sel.observations[k])
      ensures CategoryLabel(cat.observationCategories, sel.observations[k]) == sel.observations[k]
    {
      CategoryLabelUnlisted(cat.observationCategories, sel.observations[k]);
    }
    forall k | 0 <= k < |sel.responses| && !Listed(cat.responseCategories, sel.responses[k])
      ensures CategoryLabel(cat.responseCategories, sel.responses[k]) == sel.responses[k]
    {
      CategoryLabelUnlisted(cat.responseCategories, sel.responses[k]);
    }
    forall k | 0 <= k < |sel.plans| && !Listed(cat.planCategories, sel.plans[k])
      ensures CategoryLabel(cat.planCategories, sel.plans[k]) == sel.plans[k]
    {
      CategoryLabelUnlisted(cat.planCategories, sel.plans[k]);
    }
  }

  /** The summary is empty exactly when nothing is selected. */
  lemma SelectedTextEmpty(cat: Catalog, sel: Selections)
    ensures SelectedText(cat, sel) == "" <==>
      sel.therapies == [] && sel.concerns == [] && sel.observations == []
      && sel.responses == [] && sel.plans == []
  {
    var items := SelectedItems(cat, sel);
    var t, c, o, r, p := TherapyLines(cat, sel), ConcernLines(cat, sel), ObservationLines(cat, sel),
                         ResponseLines(cat, sel), PlanLines(cat, sel);
    NonEmptyLines5(t, c, o, r, p);
    JoinEmpty(items, "\n");
  }
}
