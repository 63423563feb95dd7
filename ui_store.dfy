/** The persisted UI store (stores/uiStore.ts): the inventory and material screens'
    filter state and the paper calculator's inputs, each a slice that a setter
    merges a partial record into and a reset puts back to its default. */
module UiStore {
  import opened Js
  import opened WorkerQuery
  import opened InventoryFilter

  /** `grainDirection`. */
  datatype Grain = Free | Long | Short

  /** `PaperCalculationState`. */
  datatype PaperInputs = PaperInputs(
    qty: string,
    width: string,
    length: string,
    gsm: string,
    paperType: string,
    manufacturer: string,
    trimMargin: string,
    wastePercentage: string,
    grainDirection: Grain,
    allowCombine: bool)

  /** `Partial<PaperCalculationState>`. */
  datatype PaperPatch = PaperPatch(
    qty: Option<string>,
    width: Option<string>,
    length: Option<string>,
    gsm: Option<string>,
    paperType: Option<string>,
    manufacturer: Option<string>,
    trimMargin: Option<string>,
    wastePercentage: Option<string>,
    grainDirection: Option<Grain>,
    allowCombine: Option<bool>)

  /** `DEFAULT_INVENTORY_STATE`. */
  const DefaultView := FilterState("", "all", false, false, false, RangeFilters("", "", "", ""))

  /** `DEFAULT_PAPER_CALCULATION_STATE`. */
  const DefaultPaper := PaperInputs("", "", "", "", "", "", "2", "0.25", Free, true)

  const NoViewPatch := InitialState(None, None, None, None, None, None)
  const NoPaperPatch := PaperPatch(None, None, None, None, None, None, None, None, None, None)

  /** The default view is the filter hook's own starting state. */
  lemma DefaultViewIsInitialFilters()
    ensures DefaultView == InitialFilters(None)
  {
  }

  function Pick<T>(given: Option<T>, current: T): (r: T)
    ensures given.Some? ==> r == given.value
    ensures given.None? ==> r == current
  {
    if given.Some? then given.value else current
  }

  /** `{ ...view, ...patch }`. */
  function MergeView(view: FilterState, patch: InitialState): (r: FilterState)
  {
    FilterState(
      Pick(patch.searchTerm, view.searchTerm),
      Pick(patch.searchColumn, view.searchColumn),
      Pick(patch.showOddLots, view.showOddLots),
      Pick(patch.showPendingOut, view.showPendingOut),
      Pick(patch.showAdvancedFilters, view.showAdvancedFilters),
      Pick(patch.rangeFilters, view.rangeFilters))
  }

  /** `{ ...inputs, ...patch }`. */
  function MergePaper(inputs: PaperInputs, patch: PaperPatch): (r: PaperInputs)
  {
    PaperInputs(
      Pick(patch.qty, inputs.qty),
      Pick(patch.width, inputs.width),
      Pick(patch.length, inputs.length),
      Pick(patch.gsm, inputs.gsm),
      Pick(patch.paperType, inputs.paperType),
      Pick(patch.manufacturer, inputs.manufacturer),
      Pick(patch.trimMargin, inputs.trimMargin),
      Pick(patch.wastePercentage, inputs.wastePercentage),
      Pick(patch.grainDirection, inputs.grainDirection),
      Pick(patch.allowCombine, inputs.allowCombine))
  }

  /** The patch that sets every field of a view. */
  function WholeView(v: FilterState): InitialState
  {
    InitialState(Some(v.searchTerm), Some(v.searchColumn), Some(v.showOddLots),
                 Some(v.showPendingOut), Some(v.showAdvancedFilters), Some(v.rangeFilters))
  }

  /** One field of `{ ...a, ...b }`: `b`'s when it supplies one. */
  function Later<T>(a: Option<T>, b: Option<T>): Option<T>
  {
    if b.Some? then b else a
  }

  /** `{ ...a, ...b }` of two patches: `b`'s fields win. */
  function ThenView(a: InitialState, b: InitialState): InitialState
  {
    InitialState(
      Later(a.searchTerm, b.searchTerm),
      Later(a.searchColumn, b.searchColumn),
      Later(a.showOddLots, b.showOddLots),
      Later(a.showPendingOut, b.showPendingOut),
      Later(a.showAdvancedFilters, b.showAdvancedFilters),
      Later(a.rangeFilters, b.rangeFilters))
  }

  /** A merge changes exactly the supplied fields: an empty patch changes
      nothing, a full patch replaces the whole view, merging again is harmless,
      and two merges are one merge of the combined patch. */
  lemma MergeViewLaws(view: FilterState, whole: FilterState, p: InitialState, q: InitialState)
    ensures MergeView(view, NoViewPatch) == view
    ensures MergeView(view, WholeView(whole)) == whole
    ensures MergeView(MergeView(view, p), p) == MergeView(view, p)
    ensures MergeView(MergeView(view, p), q) == MergeView(view, ThenView(p, q))
  {
    PickThen(p.searchTerm, q.searchTerm, view.searchTerm);
    PickThen(p.searchColumn, q.searchColumn, view.searchColumn);
    PickThen(p.showOddLots, q.showOddLots, view.showOddLots);
    PickThen(p.showPendingOut, q.showPendingOut, view.showPendingOut);
    PickThen(p.showAdvancedFilters, q.showAdvancedFilters, view.showAdvancedFilters);
    PickThen(p.rangeFilters, q.rangeFilters, view.rangeFilters);
  }

  /** A field set by two spreads in a row is the later one's, when it supplies one. */
  lemma PickThen<T>(a: Option<T>, b: Option<T>, current: T)
    ensures Pick(b, Pick(a, current)) == Pick(Later(a, b), current)
    ensures Pick(a, Pick(a, current)) == Pick(a, current)
  {
  }

  /** The same laws for the paper calculator's inputs. */
  lemma MergePaperLaws(inputs: PaperInputs, p: PaperPatch)
    ensures MergePaper(inputs, NoPaperPatch) == inputs
    ensures MergePaper(MergePaper(inputs, p), p) == MergePaper(inputs, p)
  {
  }

  /** The store: three slices, each written only by its own setter and reset. */
  class UiStoreState {
    var inventoryView: FilterState
    var materialView: FilterState
    var paperCalculation: PaperInputs

    /** The first state, before anything persisted is restored. */
    constructor()
      ensures inventoryView == DefaultView && materialView == DefaultView
      ensures paperCalculation == DefaultPaper
    {
      inventoryView := DefaultView;
      materialView := DefaultView;
      paperCalculation := DefaultPaper;
    }

    /** `setInventoryViewState`. */
    method SetInventoryView(patch: InitialState)
      modifies this
      ensures inventoryView == MergeView(old(inventoryView), patch)
      ensures materialView == old(materialView) && paperCalculation == old(paperCalculation)
    {
      inventoryView := MergeView(inventoryView, patch);
    }

    /** `resetInventoryState`. */
    method ResetInventoryView()
      modifies this
      ensures inventoryView == DefaultView
      ensures materialView == old(materialView) && paperCalculation == old(paperCalculation)
    {
      inventoryView := DefaultView;
    }

    /** `setMaterialViewState`. */
    method SetMaterialView(patch: InitialState)
      modifies this
      ensures materialView == MergeView(old(materialView), patch)
      ensures inventoryView == old(inventoryView) && paperCalculation == old(paperCalculation)
    {
      materialView := MergeView(materialView, patch);
    }

    /** `resetMaterialState`. */
    method ResetMaterialView()
      modifies this
      ensures materialView == DefaultView
      ensures inventoryView == old(inventoryView) && paperCalculation == old(paperCalculation)
    {
      materialView := DefaultView;
    }

    /** `setPaperCalculationState`. */
    method SetPaperCalculation(patch: PaperPatch)
      modifies this
      ensures paperCalculation == MergePaper(old(paperCalculation), patch)
      ensures inventoryView == old(inventoryView) && materialView == old(materialView)
    {
      paperCalculation := MergePaper(paperCalculation, patch);
    }

    /** `resetPaperCalculationState`. */
    method ResetPaperCalculation()
      modifies this
      ensures paperCalculation == DefaultPaper
      ensures inventoryView == old(inventoryView) && materialView == old(materialView)
    {
      paperCalculation := DefaultPaper;
    }
  }

  /** Typing a search on the inventory screen and then resetting it leaves the
      material screen's filters as they were and the inventory's at the default. */
  method SearchThenReset(term: string) returns (inventory: FilterState, material: FilterState)
    ensures inventory == DefaultView && material == DefaultView
  {
    var store := new UiStoreState();
    store.SetInventoryView(NoViewPatch.(searchTerm := Some(term)));
    store.SetMaterialView(NoViewPatch);
    store.ResetInventoryView();
    inventory, material := store.inventoryView, store.materialView;
  }
}
