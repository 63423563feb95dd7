/** The filter and sort state of the inventory screen (hooks/useInventoryFilter.ts)
    and the messages it posts to the query worker. React's effects are explicit:
    every state change that re-renders posts the current query descriptor, and
    the search debounce is a timer event. */
module InventoryFilter {
  import opened Js
  import opened InventoryTypes
  import opened WorkerQuery
  import Seqs

  /** `FilterState`. */
  datatype FilterState = FilterState(
    searchTerm: string,
    searchColumn: string,
    showOddLots: bool,
    showPendingOut: bool,
    showAdvancedFilters: bool,
    rangeFilters: RangeFilters)

  /** The `Partial<FilterState>` the hook may be started with. */
  datatype InitialState = InitialState(
    searchTerm: Option<string>,
    searchColumn: Option<string>,
    showOddLots: Option<bool>,
    showPendingOut: Option<bool>,
    showAdvancedFilters: Option<bool>,
    rangeFilters: Option<RangeFilters>)

  const NoRanges := RangeFilters("", "", "", "")

  /** `given || fallback` for text. */
  function TextOr(given: Option<string>, fallback: string): (r: string)
    ensures given.Some? && given.value != "" ==> r == given.value
    ensures (given.None? || given.value == "") ==> r == fallback
  {
    if given.Some? && given.value != "" then given.value else fallback
  }

  function FlagOr(given: Option<bool>): (r: bool)
    ensures r <==> given == Some(true)
  {
    given.Some? && given.value
  }

  /** The first filter state: the given values, with an empty term, column "all",
      toggles off and empty bounds where none (or a falsy one) is given. */
  function InitialFilters(init: Option<InitialState>): (f: FilterState)
    ensures init.None? ==>
      f == FilterState("", "all", false, false, false, NoRanges)
    ensures init.Some? ==>
      f.searchTerm == TextOr(init.value.searchTerm, "")
      && f.searchColumn == TextOr(init.value.searchColumn, "all")
      && (f.showOddLots <==> init.value.showOddLots == Some(true))
      && (f.showPendingOut <==> init.value.showPendingOut == Some(true))
      && (f.showAdvancedFilters <==> init.value.showAdvancedFilters == Some(true))
      && f.rangeFilters == (if init.value.rangeFilters.Some? then init.value.rangeFilters.value else NoRanges)
  {
    if init.None? then FilterState("", "all", false, false, false, NoRanges)
    else
      var i := init.value;
      FilterState(TextOr(i.searchTerm, ""), TextOr(i.searchColumn, "all"),
                  FlagOr(i.showOddLots), FlagOr(i.showPendingOut), FlagOr(i.showAdvancedFilters),
                  if i.rangeFilters.Some? then i.rangeFilters.value else NoRanges)
  }

  // ---------------------------------------------------------------- updates

  /** `updateFilter(key, value)`: one field and its new value. */
  datatype FilterUpdate =
    | SetSearchTerm(term: string)
    | SetSearchColumn(column: string)
    | SetShowOddLots(oddLots: bool)
    | SetShowPendingOut(pendingOut: bool)
    | SetShowAdvancedFilters(advanced: bool)
    | SetRangeFilters(ranges: RangeFilters)

  function Apply(f: FilterState, u: FilterUpdate): (r: FilterState)
    ensures Named(r, u) == u
  {
    match u
    case SetSearchTerm(t) => f.(searchTerm := t)
    case SetSearchColumn(c) => f.(searchColumn := c)
    case SetShowOddLots(b) => f.(showOddLots := b)
    case SetShowPendingOut(b) => f.(showPendingOut := b)
    case SetShowAdvancedFilters(b) => f.(showAdvancedFilters := b)
    case SetRangeFilters(r) => f.(rangeFilters := r)
  }

  /** The field an update names, read from a filter state. */
  function Named(f: FilterState, u: FilterUpdate): FilterUpdate
  {
    match u
    case SetSearchTerm(_) => SetSearchTerm(f.searchTerm)
    case SetSearchColumn(_) => SetSearchColumn(f.searchColumn)
    case SetShowOddLots(_) => SetShowOddLots(f.showOddLots)
    case SetShowPendingOut(_) => SetShowPendingOut(f.showPendingOut)
    case SetShowAdvancedFilters(_) => SetShowAdvancedFilters(f.showAdvancedFilters)
    case SetRangeFilters(_) => SetRangeFilters(f.rangeFilters)
  }

  /** An update sets its field to its value and changes nothing else: applied to
      the result, the old value of that field gives back the original state. */
  lemma UpdateChangesOnlyItsField(f: FilterState, u: FilterUpdate)
    ensures Named(Apply(f, u), u) == u
    ensures Apply(Apply(f, u), Named(f, u)) == f
  {
  }

  /** The four range bounds. */
  datatype RangeField = WidthMin | WidthMax | LengthMin | LengthMax

  function Bound(r: RangeFilters, field: RangeField): string
  {
    match field
    case WidthMin => r.widthMin
    case WidthMax => r.widthMax
    case LengthMin => r.lengthMin
    case LengthMax => r.lengthMax
  }

  function SetBound(r: RangeFilters, field: RangeField, value: string): (s: RangeFilters)
    ensures Bound(s, field) == value
    ensures forall g :: g != field ==> Bound(s, g) == Bound(r, g)
  {
    match field
    case WidthMin => r.(widthMin := value)
    case WidthMax => r.(widthMax := value)
    case LengthMin => r.(lengthMin := value)
    case LengthMax => r.(lengthMax := value)
  }

  /** A bound may be typed when it is empty or `Number(value)` is a number. */
  predicate AcceptedBound(lib: Lib, value: string)
  {
    value == "" || lib.numberOf(value).Fin?
  }

  /** `handleSort`'s next sort: the same key ascending turns descending, anything
      else sorts the key ascending. */
  function NextSort(prev: SortConfig, key: string): (s: SortConfig)
    ensures s.key == Some(key)
    ensures s.direction == Desc <==> prev.key == Some(key) && prev.direction == Asc
  {
    if prev.key == Some(key) && prev.direction == Asc then SortConfig(Some(key), Desc)
    else SortConfig(Some(key), Asc)
  }

  /** Clicking the same header again flips between ascending and descending;
      a new header starts ascending. */
  lemma SortCycles(prev: SortConfig, key: string)
    ensures NextSort(NextSort(NextSort(prev, key), key), key) == NextSort(prev, key)
    ensures prev.key != Some(key) ==> NextSort(prev, key) == SortConfig(Some(key), Asc)
    ensures NextSort(NextSort(prev, key), key).direction != NextSort(prev, key).direction
  {
  }

  // ---------------------------------------------------------------- messages

  /** A column of the table, with the fields the export keeps and its widths. */
  datatype ColumnConfig = ColumnConfig(header: string, accessor: string, width: Option<int>,
                                       minWidth: Option<int>, isNumeric: bool)

  function Simplify(c: ColumnConfig): Column
  {
    Column(c.header, c.accessor, c.isNumeric)
  }

  /** The columns posted for export: each column's header, accessor and numeric
      flag, in order. */
  function ExportColumns(columns: seq<ColumnConfig>): (r: seq<Column>)
    ensures |r| == |columns|
    ensures forall i :: 0 <= i < |r| ==>
              r[i].header == columns[i].header && r[i].accessor == columns[i].accessor
              && r[i].isNumeric == columns[i].isNumeric
  {
    Seqs.Map(columns, Simplify)
  }

  /** A message posted to the query worker. */
  datatype WorkerMessage =
    | SetData(inventory: seq<Item>)
    | FilterSort(filterConfig: FilterConfig, sortConfig: SortConfig)
    | ExportCsv(columns: seq<Column>, fileName: string)

  // ---------------------------------------------------------------- the hook

  class InventoryFilterState {
    var filters: FilterState
    var debouncedSearchTerm: string
    var sortConfig: SortConfig
    var displayInventory: seq<Item>
    var totalWeight: real
    /** The messages posted to the worker, oldest first. */
    var posted: seq<WorkerMessage>

    /** The query the screen currently asks for: the debounced term with the live
        column, ranges, odd-lot flag and sort. */
    function Descriptor(): (m: WorkerMessage)
      reads this
      ensures m.FilterSort? && m.filterConfig.searchTerm == debouncedSearchTerm
      ensures m.filterConfig.searchColumn == filters.searchColumn
      ensures m.filterConfig.rangeFilters == Some(filters.rangeFilters)
      ensures m.filterConfig.showOddLots == filters.showOddLots && m.sortConfig == sortConfig
    {
      FilterSort(FilterConfig(debouncedSearchTerm, filters.searchColumn,
                              Some(filters.rangeFilters), filters.showOddLots), sortConfig)
    }

    /** Mounting the hook: the mount effects send a non-empty inventory with the
        first query, and then the first query again. */
    constructor(init: Option<InitialState>, inventory: seq<Item>)
      ensures filters == InitialFilters(init)
      ensures debouncedSearchTerm == filters.searchTerm
      ensures sortConfig == SortConfig(None, Asc)
      ensures displayInventory == [] && totalWeight == 0.0
      ensures posted == (if |inventory| > 0 then [SetData(inventory), Descriptor()] else []) + [Descriptor()]
    {
      filters := InitialFilters(init);
      debouncedSearchTerm := InitialFilters(init).searchTerm;
      sortConfig := SortConfig(None, Asc);
      displayInventory := [];
      totalWeight := 0.0;
      new;
      posted := (if |inventory| > 0 then [SetData(inventory), Descriptor()] else []) + [Descriptor()];
    }

    /** A new inventory: a non-empty one is sent, then the current query. */
    method OnInventory(inventory: seq<Item>)
      modifies this
      ensures |inventory| > 0 ==> posted == old(posted) + [SetData(inventory), Descriptor()]
      ensures |inventory| == 0 ==> posted == old(posted)
      ensures filters == old(filters) && debouncedSearchTerm == old(debouncedSearchTerm)
      ensures sortConfig == old(sortConfig) && displayInventory == old(displayInventory)
      ensures totalWeight == old(totalWeight)
    {
      if |inventory| > 0 {
        posted := posted + [SetData(inventory), Descriptor()];
      }
    }

    /** The debounce timer fires: the live term becomes the queried term. Setting
        the state to the term it already holds re-renders nothing, so the query
        is posted only when the term changed. */
    method OnDebounceTimer()
      modifies this
      ensures debouncedSearchTerm == filters.searchTerm
      ensures old(filters.searchTerm) != old(debouncedSearchTerm) ==>
        posted == old(posted) + [Descriptor()]
      ensures old(filters.searchTerm) == old(debouncedSearchTerm) ==> posted == old(posted)
      ensures filters == old(filters) && sortConfig == old(sortConfig)
      ensures displayInventory == old(displayInventory) && totalWeight == old(totalWeight)
    {
      if filters.searchTerm != debouncedSearchTerm {
        debouncedSearchTerm := filters.searchTerm;
        posted := posted + [Descriptor()];
      }
    }

    /** `handleSort`: ignored while odd lots are shown (they are sorted by weight). */
    method HandleSort(key: string)
      modifies this
      ensures old(filters.showOddLots) ==> sortConfig == old(sortConfig) && posted == old(posted)
      ensures !old(filters.showOddLots) ==>
        sortConfig == NextSort(old(sortConfig), key) && posted == old(posted) + [Descriptor()]
      ensures filters == old(filters) && debouncedSearchTerm == old(debouncedSearchTerm)
      ensures displayInventory == old(displayInventory) && totalWeight == old(totalWeight)
    {
      if filters.showOddLots {
        return;
      }
      var direction := Asc;
      if sortConfig.key == Some(key) && sortConfig.direction == Asc {
        direction := Desc;
      }
      sortConfig := SortConfig(Some(key), direction);
      posted := posted + [Descriptor()];
    }

    /** `updateFilter`. */
    method UpdateFilter(u: FilterUpdate)
      modifies this
      ensures filters == Apply(old(filters), u)
      ensures posted == old(posted) + [Descriptor()]
      ensures debouncedSearchTerm == old(debouncedSearchTerm) && sortConfig == old(sortConfig)
      ensures displayInventory == old(displayInventory) && totalWeight == old(totalWeight)
    {
      filters := Apply(filters, u);
      posted := posted + [Descriptor()];
    }

    /** `updateRangeFilter`: a non-empty value that is not a number is refused;
        otherwise only the named bound changes. */
    method UpdateRangeFilter(lib: Lib, field: RangeField, value: string)
      modifies this
      ensures !AcceptedBound(lib, value) ==> filters == old(filters) && posted == old(posted)
      ensures AcceptedBound(lib, value) ==>
        filters == old(filters).(rangeFilters := SetBound(old(filters).rangeFilters, field, value))
        && posted == old(posted) + [Descriptor()]
      ensures debouncedSearchTerm == old(debouncedSearchTerm) && sortConfig == old(sortConfig)
      ensures displayInventory == old(displayInventory) && totalWeight == old(totalWeight)
    {
      if value != "" && lib.numberOf(value).NaN? {
        return;
      }
      filters := filters.(rangeFilters := SetBound(filters.rangeFilters, field, value));
      posted := posted + [Descriptor()];
    }

    /** `clearRangeFilters`. */
    method ClearRangeFilters()
      modifies this
      ensures filters == old(filters).(rangeFilters := NoRanges)
      ensures posted == old(posted) + [Descriptor()]
      ensures debouncedSearchTerm == old(debouncedSearchTerm) && sortConfig == old(sortConfig)
      ensures displayInventory == old(displayInventory) && totalWeight == old(totalWeight)
    {
      filters := filters.(rangeFilters := NoRanges);
      posted := posted + [Descriptor()];
    }

    /** `exportAndDownloadCSV`: the reduced columns and the file name go out. */
    method ExportAndDownloadCsv(columns: seq<ColumnConfig>, fileNamePrefix: string)
      modifies this
      ensures posted == old(posted) + [ExportCsv(ExportColumns(columns), fileNamePrefix)]
      ensures filters == old(filters) && debouncedSearchTerm == old(debouncedSearchTerm)
      ensures sortConfig == old(sortConfig)
      ensures displayInventory == old(displayInventory) && totalWeight == old(totalWeight)
    {
      var simpleColumns := ExportColumns(columns);
      posted := posted + [ExportCsv(simpleColumns, fileNamePrefix)];
    }

    /** A `FILTER_RESULT` reply: its rows (none when they could not be decoded) and
        its total weight are shown. */
    method OnFilterResult(result: Option<seq<Item>>, weight: real)
      modifies this
      ensures displayInventory == (if result.Some? then result.value else [])
      ensures totalWeight == weight
      ensures filters == old(filters) && debouncedSearchTerm == old(debouncedSearchTerm)
      ensures sortConfig == old(sortConfig) && posted == old(posted)
    {
      displayInventory := if result.Some? then result.value else [];
      totalWeight := weight;
    }
  }

  /** Typing a term queries with the old term until the debounce fires, and with
      the new term afterwards. */
  method TypingIsDebounced(term: string) returns (before: WorkerMessage, after: WorkerMessage)
    ensures before.FilterSort? && before.filterConfig.searchTerm == ""
    ensures after.FilterSort? && after.filterConfig.searchTerm == term
  {
    var hook := new InventoryFilterState(None, []);
    hook.UpdateFilter(SetSearchTerm(term));
    before := hook.posted[|hook.posted| - 1];
    hook.OnDebounceTimer();
    after := hook.posted[|hook.posted| - 1];
  }

  /** Typing a character and deleting it before the debounce fires: the timer
      finds the term it already queried and posts nothing. */
  method RetypedTermPostsNothing() returns (before: nat, after: nat)
    ensures after == before
  {
    var hook := new InventoryFilterState(None, []);
    hook.UpdateFilter(SetSearchTerm("a"));
    hook.UpdateFilter(SetSearchTerm(""));
    before := |hook.posted|;
    hook.OnDebounceTimer();
    after := |hook.posted|;
  }
}
