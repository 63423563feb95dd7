/** The query side of the inventory worker (workers/inventory.worker.ts, the body of
    `WORKER_CODE`): filtering the replica by ranges and accent-insensitive search
    terms, sorting it, totalling its weight, rendering it as CSV, and the two pieces
    of state `cachedInventory` and `lastFilteredResult` that the messages update. */
module WorkerQuery {
  import opened Js
  import opened Text
  import opened InventoryTypes
  import Seqs
  import InventoryWorker

  // ---------------------------------------------------------------- messages

  /** Width and length bounds as typed into the toolbar; "" means no bound. */
  datatype RangeFilters = RangeFilters(widthMin: string, widthMax: string, lengthMin: string, lengthMax: string)

  /** The `filterConfig` of a FILTER_SORT message. */
  datatype FilterConfig = FilterConfig(
    searchTerm: string,
    searchColumn: string,
    rangeFilters: Option<RangeFilters>,
    showOddLots: bool)

  datatype Direction = Asc | Desc

  /** The `sortConfig` of a FILTER_SORT message; `key` is `null` when no column is chosen. */
  datatype SortConfig = SortConfig(key: Option<string>, direction: Direction)

  /** `filterConfig || {}`: a missing configuration filters and sorts nothing. */
  function ConfigOf(filterConfig: Option<FilterConfig>): FilterConfig
  {
    if filterConfig.Some? then filterConfig.value else FilterConfig("", "", None, false)
  }

  // ---------------------------------------------------------------- search

  /** `removeVietnameseTones`: the empty string stays empty, anything else is folded. */
  function RemoveTones(lib: Lib, s: string): string
  {
    if s == "" then "" else lib.fold(s)
  }

  /** `normalize(val)`: lower-cased, trimmed and accent-folded text of any value. */
  function Normalize(lib: Lib, v: Value): string
  {
    RemoveTones(lib, Trim(lib.lower(ToString(lib, v))))
  }

  function NonEmpty(t: string): bool
  {
    t != ""
  }

  /** The search terms: the normalised search text split at ';', each piece trimmed,
      empty pieces dropped. */
  function SearchTerms(lib: Lib, term: string): seq<string>
  {
    Seqs.Filter(Seqs.Map(Split(Normalize(lib, Str(term)), ';'), Trim), NonEmpty)
  }

  /** Every search term is non-empty, already trimmed and free of ';'. */
  lemma SearchTermsShape(lib: Lib, term: string, t: string)
    requires t in SearchTerms(lib, term)
    ensures t != "" && Trim(t) == t && ';' !in t
  {
    var pieces := Split(Normalize(lib, Str(term)), ';');
    var trimmed := Seqs.Map(pieces, Trim);
    assert t in trimmed;
    var i :| 0 <= i < |trimmed| && trimmed[i] == t;
    assert t == Trim(pieces[i]);
    TrimTrim(pieces[i]);
    SplitPieces(Normalize(lib, Str(term)), ';');
    if ';' in t {
      TrimChars(pieces[i], ';');
    }
  }

  /** Every term occurs in the normalised text of some property of the record. */
  predicate MatchesAll(lib: Lib, terms: seq<string>, item: Item)
  {
    forall t :: t in terms ==> exists v :: v in FieldValues(item) && Contains(Normalize(lib, v), t)
  }

  /** Every term occurs in the normalised text of the chosen property. */
  predicate MatchesColumn(lib: Lib, terms: seq<string>, column: string, item: Item)
  {
    forall t :: t in terms ==> Contains(Normalize(lib, Field(item, column)), t)
  }

  /** A match in a named property that the record has is a match in some property.
      (An absent `transactionType` reads "undefined" in its own column but is not
      among `Object.values`.) */
  lemma ColumnMatchIsMatch(lib: Lib, terms: seq<string>, column: string, item: Item)
    requires column in FieldNames && Field(item, column) != Undefined
    requires MatchesColumn(lib, terms, column, item)
    ensures MatchesAll(lib, terms, item)
  {
    FieldByName(item, column);
  }

  // ---------------------------------------------------------------- filter

  /** `x < Number(bound)`: false when the bound is not a number. */
  predicate Below(x: real, bound: Num)
  {
    bound.Fin? && x < bound.val
  }

  /** `x > Number(bound)`: false when the bound is not a number. */
  predicate Above(x: real, bound: Num)
  {
    bound.Fin? && x > bound.val
  }

  /** The record satisfies every bound that is given; a width or length that is not a
      number counts as 0. */
  predicate InRange(lib: Lib, rf: RangeFilters, item: Item)
  {
    var width := OrZero(item.width);
    var length := OrZero(item.length);
    !(rf.widthMin != "" && Below(width, lib.numberOf(rf.widthMin)))
    && !(rf.widthMax != "" && Above(width, lib.numberOf(rf.widthMax)))
    && !(rf.lengthMin != "" && Below(length, lib.numberOf(rf.lengthMin)))
    && !(rf.lengthMax != "" && Above(length, lib.numberOf(rf.lengthMax)))
  }

  /** The predicate `dataToProcess.filter` keeps records by. */
  predicate Passes(lib: Lib, cfg: FilterConfig, item: Item)
  {
    (cfg.rangeFilters.Some? ==> InRange(lib, cfg.rangeFilters.value, item))
    && (cfg.searchTerm == ""
        || var terms := SearchTerms(lib, cfg.searchTerm);
           terms == []
           || (if cfg.searchColumn == "all" then MatchesAll(lib, terms, item)
               else MatchesColumn(lib, terms, cfg.searchColumn, item)))
  }

  function PassFilter(lib: Lib, cfg: FilterConfig): Item -> bool
  {
    item => Passes(lib, cfg, item)
  }

  function Filtered(lib: Lib, data: seq<Item>, cfg: FilterConfig): seq<Item>
  {
    Seqs.Filter(data, PassFilter(lib, cfg))
  }

  /** The filter keeps the order of the data, and keeps a record exactly when the
      record passes the range and search tests. */
  lemma FilteredMembers(lib: Lib, data: seq<Item>, cfg: FilterConfig, item: Item)
    ensures Seqs.IsSubseq(Filtered(lib, data, cfg), data)
    ensures item in Filtered(lib, data, cfg) <==> item in data && Passes(lib, cfg, item)
  {
    Seqs.FilterIsSubseq(data, PassFilter(lib, cfg));
    if item in data && Passes(lib, cfg, item) {
      var i :| 0 <= i < |data| && data[i] == item;
      assert PassFilter(lib, cfg)(data[i]);
    }
  }

  /** With no search text and no ranges, nothing is filtered out. */
  lemma NoFilterKeepsAll(lib: Lib, data: seq<Item>, cfg: FilterConfig)
    requires cfg.searchTerm == "" && cfg.rangeFilters.None?
    ensures Filtered(lib, data, cfg) == data
  {
    Seqs.FilterAll(data, PassFilter(lib, cfg));
  }

  // ---------------------------------------------------------------- sort

  function DirFactor(d: Direction): real
  {
    if d == Asc then 1.0 else -1.0
  }

  const DateKeys: seq<string> := ["importDate", "productionDate", "lastUpdated"]

  /** `Number(item.weight) || 0`. */
  function Weight(item: Item): real
  {
    OrZero(item.weight)
  }

  /** The odd-lot order: lighter first. */
  function WeightOrder(): (Item, Item) -> int
  {
    (a, b) => Sign(Weight(a) - Weight(b))
  }

  /** `item[key]` as a function of the record. */
  function FieldOf(key: string): Item -> Value
  {
    item => Field(item, key)
  }

  /** The parsed time value of a date property. */
  function Timestamp(item: Item, key: string): Num
  {
    InventoryWorker.ParseDateToTimestamp(Field(item, key))
  }

  function TimestampOf(key: string): Item -> Num
  {
    item => Timestamp(item, key)
  }

  /** `(ts(a) - ts(b)) * f`; a NaN result counts as 0. */
  function ScaledOrder(ts: Item -> Num, f: real): (Item, Item) -> int
  {
    (a, b) =>
      var d := Sub(ts(a), ts(b));
      if d.Fin? then Sign(d.val * f) else 0
  }

  function ScaledRank(ts: Item -> Num, f: real): Item -> real
  {
    item => f * OrZero(ts(item))
  }

  /** The order of a date column: `(a.value - b.value) * dir` on parsed time values. */
  function DateOrder(key: string, dir: Direction): (Item, Item) -> int
  {
    ScaledOrder(TimestampOf(key), DirFactor(dir))
  }

  /** A value whose text is not blank after trimming. */
  predicate NonBlank(lib: Lib, v: Value)
  {
    Trim(ToString(lib, v)) != ""
  }

  /** The comparator of any other column: equal values tie, `null`/`undefined` go
      last, two numeric non-blank values compare as numbers, and anything else
      compares as lower-cased text under the locale collation. */
  function CompareValues(lib: Lib, dir: Direction, x: Value, y: Value): int
  {
    if StrictEquals(x, y) then 0
    else if IsNullish(x) then 1
    else if IsNullish(y) then -1
    else
      var nx, ny := ToNumber(lib, x), ToNumber(lib, y);
      if nx.Fin? && ny.Fin? && NonBlank(lib, x) && NonBlank(lib, y) then
        Sign((nx.val - ny.val) * DirFactor(dir))
      else
        lib.localeCompare(lib.lower(ToString(lib, x)), lib.lower(ToString(lib, y))) * (if dir == Asc then 1 else -1)
  }

  function ValueOrder(lib: Lib, get: Item -> Value, dir: Direction): (Item, Item) -> int
  {
    (a, b) => CompareValues(lib, dir, get(a), get(b))
  }

  function KeyOrder(lib: Lib, key: string, dir: Direction): (Item, Item) -> int
  {
    ValueOrder(lib, FieldOf(key), dir)
  }

  /** `sortConfig && sortConfig.key`. */
  predicate HasKey(sortConfig: Option<SortConfig>)
  {
    sortConfig.Some? && sortConfig.value.key.Some? && sortConfig.value.key.value != ""
  }

  /** The sort step: by weight for odd lots, else by the chosen key, else unchanged. */
  function SortItems(lib: Lib, items: seq<Item>, cfg: FilterConfig, sortConfig: Option<SortConfig>): (r: seq<Item>)
    ensures multiset(r) == multiset(items)
  {
    if cfg.showOddLots then Seqs.Sort(items, WeightOrder())
    else if HasKey(sortConfig) then
      var key, dir := sortConfig.value.key.value, sortConfig.value.direction;
      if key in DateKeys then Seqs.Sort(items, DateOrder(key, dir))
      else Seqs.Sort(items, KeyOrder(lib, key, dir))
    else items
  }

  /** Without odd lots and without a key the filtered order is kept. */
  lemma UnsortedKeepsOrder(lib: Lib, items: seq<Item>, cfg: FilterConfig, sortConfig: Option<SortConfig>)
    requires !cfg.showOddLots && !HasKey(sortConfig)
    ensures SortItems(lib, items, cfg, sortConfig) == items
  {
  }

  /** Odd lots come out lightest first, whatever the sort configuration. */
  lemma OddLotsByWeight(lib: Lib, items: seq<Item>, cfg: FilterConfig, sortConfig: Option<SortConfig>)
    requires cfg.showOddLots
    ensures Seqs.RankSorted(SortItems(lib, items, cfg, sortConfig), Weight)
  {
    assert Seqs.RespectsRank(items, WeightOrder(), Weight);
    Seqs.SortRank(items, WeightOrder(), Weight);
  }

  function DateRank(key: string, dir: Direction): Item -> real
  {
    ScaledRank(TimestampOf(key), DirFactor(dir))
  }

  /** A date column sorts by parsed time value, in the chosen direction, provided
      every time value parses to a number. */
  lemma DatesByTime(lib: Lib, items: seq<Item>, cfg: FilterConfig, sortConfig: Option<SortConfig>)
    requires !cfg.showOddLots && HasKey(sortConfig) && sortConfig.value.key.value in DateKeys
    requires forall item :: item in items ==> Timestamp(item, sortConfig.value.key.value).Fin?
    ensures Seqs.RankSorted(SortItems(lib, items, cfg, sortConfig),
                            DateRank(sortConfig.value.key.value, sortConfig.value.direction))
  {
    var key, dir := sortConfig.value.key.value, sortConfig.value.direction;
    ScaledOrderRespects(items, TimestampOf(key), DirFactor(dir));
    Seqs.SortRank(items, DateOrder(key, dir), DateRank(key, dir));
  }

  /** Scaling a difference by the direction factor orders by the scaled values. */
  lemma ScaledSign(x: real, y: real, f: real)
    requires f == 1.0 || f == -1.0
    ensures f * x < f * y ==> Sign((x - y) * f) < 0
    ensures f * x > f * y ==> Sign((x - y) * f) > 0
  {
    if f == 1.0 {
      assert (x - y) * f == x - y;
    } else {
      assert (x - y) * f == y - x;
    }
  }

  lemma ScaledOrderRespects(items: seq<Item>, ts: Item -> Num, f: real)
    requires f == 1.0 || f == -1.0
    requires forall item :: item in items ==> ts(item).Fin?
    ensures Seqs.RespectsRank(items, ScaledOrder(ts, f), ScaledRank(ts, f))
  {
    var cmp, rank := ScaledOrder(ts, f), ScaledRank(ts, f);
    forall a, b | a in items && b in items
      ensures (rank(a) < rank(b) ==> cmp(a, b) < 0) && (rank(a) > rank(b) ==> cmp(a, b) > 0)
    {
      ScaledSign(ts(a).val, ts(b).val, f);
    }
  }

  function NullRankOf(get: Item -> Value): Item -> real
  {
    item => if IsNullish(get(item)) then 1.0 else 0.0
  }

  function NullRank(key: string): Item -> real
  {
    NullRankOf(FieldOf(key))
  }

  /** Under any other key, records whose value is `null` or `undefined` come after
      all others, in both directions. */
  lemma NullsLast(lib: Lib, items: seq<Item>, cfg: FilterConfig, sortConfig: Option<SortConfig>)
    requires !cfg.showOddLots && HasKey(sortConfig) && sortConfig.value.key.value !in DateKeys
    ensures Seqs.RankSorted(SortItems(lib, items, cfg, sortConfig), NullRank(sortConfig.value.key.value))
  {
    var key, dir := sortConfig.value.key.value, sortConfig.value.direction;
    NullOrderRespects(lib, items, FieldOf(key), dir);
    Seqs.SortRank(items, KeyOrder(lib, key, dir), NullRank(key));
  }

  lemma NullOrderRespects(lib: Lib, items: seq<Item>, get: Item -> Value, dir: Direction)
    ensures Seqs.RespectsRank(items, ValueOrder(lib, get, dir), NullRankOf(get))
  {
  }

  function NumberRankOf(lib: Lib, get: Item -> Value, f: real): Item -> real
  {
    item => f * OrZero(ToNumber(lib, get(item)))
  }

  function NumberRank(lib: Lib, key: string, dir: Direction): Item -> real
  {
    NumberRankOf(lib, FieldOf(key), DirFactor(dir))
  }

  /** Under any other key whose values are all non-blank numbers, the sort is numeric,
      in the chosen direction. */
  lemma NumbersByValue(lib: Lib, items: seq<Item>, cfg: FilterConfig, sortConfig: Option<SortConfig>)
    requires !cfg.showOddLots && HasKey(sortConfig) && sortConfig.value.key.value !in DateKeys
    requires forall item :: item in items ==>
      var v := Field(item, sortConfig.value.key.value);
      !IsNullish(v) && ToNumber(lib, v).Fin? && NonBlank(lib, v)
    ensures Seqs.RankSorted(SortItems(lib, items, cfg, sortConfig),
                            NumberRank(lib, sortConfig.value.key.value, sortConfig.value.direction))
  {
    var key, dir := sortConfig.value.key.value, sortConfig.value.direction;
    NumberOrderRespects(lib, items, FieldOf(key), dir);
    Seqs.SortRank(items, KeyOrder(lib, key, dir), NumberRank(lib, key, dir));
  }

  lemma NumberOrderRespects(lib: Lib, items: seq<Item>, get: Item -> Value, dir: Direction)
    requires forall item :: item in items ==>
      !IsNullish(get(item)) && ToNumber(lib, get(item)).Fin? && NonBlank(lib, get(item))
    ensures Seqs.RespectsRank(items, ValueOrder(lib, get, dir), NumberRankOf(lib, get, DirFactor(dir)))
  {
    var cmp, rank := ValueOrder(lib, get, dir), NumberRankOf(lib, get, DirFactor(dir));
    forall a, b | a in items && b in items
      ensures (rank(a) < rank(b) ==> cmp(a, b) < 0) && (rank(a) > rank(b) ==> cmp(a, b) > 0)
    {
      NumericOrder(lib, dir, get(a), get(b));
    }
  }

  /** Two present, numeric, non-blank values are ordered by their scaled numbers. */
  lemma NumericOrder(lib: Lib, dir: Direction, x: Value, y: Value)
    requires !IsNullish(x) && ToNumber(lib, x).Fin? && NonBlank(lib, x)
    requires !IsNullish(y) && ToNumber(lib, y).Fin? && NonBlank(lib, y)
    ensures var f, nx, ny := DirFactor(dir), OrZero(ToNumber(lib, x)), OrZero(ToNumber(lib, y));
      (f * nx < f * ny ==> CompareValues(lib, dir, x, y) < 0)
      && (f * nx > f * ny ==> CompareValues(lib, dir, x, y) > 0)
  {
    NumericCompare(lib, dir, x, y);
    ScaledSign(ToNumber(lib, x).val, ToNumber(lib, y).val, DirFactor(dir));
  }

  /** Two present, numeric, non-blank values compare by their numbers. */
  lemma NumericCompare(lib: Lib, dir: Direction, x: Value, y: Value)
    requires !IsNullish(x) && ToNumber(lib, x).Fin? && NonBlank(lib, x)
    requires !IsNullish(y) && ToNumber(lib, y).Fin? && NonBlank(lib, y)
    ensures CompareValues(lib, dir, x, y) == Sign((ToNumber(lib, x).val - ToNumber(lib, y).val) * DirFactor(dir))
  {
    var nx, ny := ToNumber(lib, x), ToNumber(lib, y);
    if StrictEquals(x, y) {
      assert x == y;
      assert (nx.val - ny.val) * DirFactor(dir) == 0.0;
    } else {
      assert nx.Fin? && ny.Fin? && NonBlank(lib, x) && NonBlank(lib, y);
    }
  }

  // ---------------------------------------------------------------- query

  /** The FILTER_SORT result for the data at hand: nothing for no data, otherwise the
      filtered records, sorted. */
  function Query(lib: Lib, data: seq<Item>, filterConfig: Option<FilterConfig>, sortConfig: Option<SortConfig>): (r: seq<Item>)
    ensures multiset(r) == multiset(Filtered(lib, data, ConfigOf(filterConfig)))
  {
    if |data| == 0 then []
    else SortItems(lib, Filtered(lib, data, ConfigOf(filterConfig)), ConfigOf(filterConfig), sortConfig)
  }

  /** `totalWeight`: the summed weights, in tonnes. */
  function TotalWeight(items: seq<Item>): real
  {
    Seqs.Sum(items, Weight) / 1000.0
  }

  /** The result holds exactly the records of the data that pass the filter, each as
      often as the filter keeps it. */
  lemma QueryMembers(lib: Lib, data: seq<Item>, filterConfig: Option<FilterConfig>, sortConfig: Option<SortConfig>, item: Item)
    ensures multiset(Query(lib, data, filterConfig, sortConfig)) == multiset(Filtered(lib, data, ConfigOf(filterConfig)))
    ensures item in Query(lib, data, filterConfig, sortConfig) <==> item in data && Passes(lib, ConfigOf(filterConfig), item)
  {
    var cfg := ConfigOf(filterConfig);
    FilteredMembers(lib, data, cfg, item);
    var r := Query(lib, data, filterConfig, sortConfig);
    assert item in r <==> item in multiset(r);
  }

  /** The total does not depend on the order: it is the weight of what the filter
      keeps; and it is never negative when no weight is. */
  lemma TotalOfQuery(lib: Lib, data: seq<Item>, filterConfig: Option<FilterConfig>, sortConfig: Option<SortConfig>)
    ensures TotalWeight(Query(lib, data, filterConfig, sortConfig)) == TotalWeight(Filtered(lib, data, ConfigOf(filterConfig)))
    ensures (forall item :: item in data ==> Weight(item) >= 0.0) ==> TotalWeight(Query(lib, data, filterConfig, sortConfig)) >= 0.0
  {
    var filtered := Filtered(lib, data, ConfigOf(filterConfig));
    var r := Query(lib, data, filterConfig, sortConfig);
    if |data| == 0 {
      assert filtered == [];
    }
    Seqs.SumPermutation(r, filtered, Weight);
    if forall item :: item in data ==> Weight(item) >= 0.0 {
      forall i | 0 <= i < |filtered| ensures Weight(filtered[i]) >= 0.0 {
        assert filtered[i] in filtered;
      }
      Seqs.SumNonNegative(filtered, Weight);
    }
  }

  // ---------------------------------------------------------------- CSV

  /** A column of the export: its header, the property it reads, and whether the
      value is formatted as a number. */
  datatype Column = Column(header: string, accessor: string, isNumeric: bool)

  predicate IsBreak(c: char)
  {
    c == '\n' || c == '\r'
  }

  /** The text after a run of line breaks. */
  function SkipBreaks(s: string): (r: string)
    ensures |r| <= |s| && r == s[|s| - |r|..]
    ensures r == [] || !IsBreak(r[0])
  {
    if |s| > 0 && IsBreak(s[0]) then SkipBreaks(s[1..]) else s
  }

  /** `s.replace(/[\n\r]+/g, ' ')`: every run of line breaks becomes one space. */
  function CollapseBreaks(s: string): (r: string)
    ensures '\n' !in r && '\r' !in r
    decreases |s|
  {
    if |s| == 0 then ""
    else if IsBreak(s[0]) then " " + CollapseBreaks(SkipBreaks(s[1..]))
    else [s[0]] + CollapseBreaks(s[1..])
  }

  /** Text without line breaks is left alone. */
  lemma {:induction false} CollapseNoBreaks(s: string)
    requires '\n' !in s && '\r' !in s
    ensures CollapseBreaks(s) == s
    decreases |s|
  {
    if |s| > 0 {
      assert s[0] in s;
      assert s == [s[0]] + s[1..];
      CollapseNoBreaks(s[1..]);
    }
  }

  /** Collapsing adds no character other than the space. */
  lemma {:induction false} CollapseChars(s: string, c: char)
    requires c != ' ' && c !in s
    ensures c !in CollapseBreaks(s)
    decreases |s|
  {
    if |s| > 0 {
      if IsBreak(s[0]) {
        var rest := SkipBreaks(s[1..]);
        assert forall i :: 0 <= i < |rest| ==> rest[i] == s[|s| - |rest| + i];
        CollapseChars(rest, c);
      } else {
        CollapseChars(s[1..], c);
      }
    }
  }

  /** A run of line breaks is skipped up to the first character after it. */
  lemma {:induction false} SkipRun(run: string, rest: string)
    requires forall i :: 0 <= i < |run| ==> IsBreak(run[i])
    requires rest == [] || !IsBreak(rest[0])
    ensures SkipBreaks(run + rest) == rest
    decreases |run|
  {
    if |run| > 0 {
      assert (run + rest)[1..] == run[1..] + rest;
      SkipRun(run[1..], rest);
    }
  }

  lemma CollapseRunHead(run: string, b: string)
    requires '\n' !in b && '\r' !in b
    requires |run| > 0 && forall i :: 0 <= i < |run| ==> IsBreak(run[i])
    ensures CollapseBreaks(run + b) == " " + b
  {
    var s, tail := run + b, run[1..];
    assert IsBreak(s[0]) by {
      assert s[0] == run[0];
    }
    assert s[1..] == tail + b;
    assert forall i :: 0 <= i < |tail| ==> IsBreak(tail[i]) by {
      forall i | 0 <= i < |tail| ensures IsBreak(tail[i]) {
        assert tail[i] == run[i + 1];
      }
    }
    assert b == [] || !IsBreak(b[0]) by {
      if b != [] {
        assert b[0] in b;
      }
    }
    SkipRun(tail, b);
    CollapseNoBreaks(b);
    assert CollapseBreaks(s) == " " + CollapseBreaks(SkipBreaks(s[1..]));
  }

  /** A run of line breaks between two break-free texts becomes a single space. */
  lemma {:induction false} CollapseRun(a: string, run: string, b: string)
    requires '\n' !in a && '\r' !in a && '\n' !in b && '\r' !in b
    requires |run| > 0 && forall i :: 0 <= i < |run| ==> IsBreak(run[i])
    ensures CollapseBreaks(a + run + b) == a + " " + b
    decreases |a|
  {
    if |a| == 0 {
      assert a + run + b == run + b;
      CollapseRunHead(run, b);
    } else {
      assert a[0] in a;
      assert (a + run + b)[1..] == a[1..] + run + b;
      CollapseRun(a[1..], run, b);
      assert a + " " + b == [a[0]] + (a[1..] + " " + b);
    }
  }

  /** `item[col.accessor]`, formatted as a number when the column is numeric and the
      value is present and reads as a number. */
  function CellValue(lib: Lib, item: Item, col: Column): Value
  {
    var v := Field(item, col.accessor);
    if col.isNumeric && !IsNullish(v) && v != Str("") then
      var n := ToNumber(lib, v);
      if n.Fin? then Str(lib.formatNumber(n.val)) else v
    else v
  }

  /** The text of one cell: in a string every ';' becomes ',' and every run of line
      breaks one space; `null` and `undefined` become empty. */
  function CellText(lib: Lib, item: Item, col: Column): string
  {
    var v := CellValue(lib, item, col);
    if v.Str? then CollapseBreaks(ReplaceChar(v.s, ';', ","))
    else if IsNullish(v) then ""
    else ToString(lib, v)
  }

  /** The host prints numbers without ';' and without line breaks. */
  ghost predicate PlainNumbers(lib: Lib)
  {
    forall r :: ';' !in lib.numberText(r) && '\n' !in lib.numberText(r) && '\r' !in lib.numberText(r)
  }

  /** A cell never holds the field separator or a line break. */
  lemma CellTextClean(lib: Lib, item: Item, col: Column)
    requires PlainNumbers(lib)
    ensures ';' !in CellText(lib, item, col) && '\n' !in CellText(lib, item, col) && '\r' !in CellText(lib, item, col)
  {
    var v := CellValue(lib, item, col);
    if v.Str? {
      CollapseChars(ReplaceChar(v.s, ';', ","), ';');
    }
  }

  /** A text value without separators or breaks in a plain column is exported as is,
      and a missing value as an empty cell. */
  lemma CellTextPlain(lib: Lib, item: Item, col: Column)
    requires !col.isNumeric
    ensures var v := Field(item, col.accessor);
      (v.Str? && ';' !in v.s && '\n' !in v.s && '\r' !in v.s ==> CellText(lib, item, col) == v.s)
      && (IsNullish(v) ==> CellText(lib, item, col) == "")
  {
    var v := Field(item, col.accessor);
    if v.Str? && ';' !in v.s && '\n' !in v.s && '\r' !in v.s {
      CollapseNoBreaks(v.s);
    }
  }

  function CellsOf(lib: Lib, item: Item, columns: seq<Column>): seq<string>
  {
    Seqs.Map(columns, col => CellText(lib, item, col))
  }

  function RowLine(lib: Lib, columns: seq<Column>): Item -> string
  {
    item => Join(CellsOf(lib, item, columns), ";")
  }

  function Header(col: Column): string
  {
    col.header
  }

  function HeaderLine(columns: seq<Column>): string
  {
    Join(Seqs.Map(columns, Header), ";")
  }

  /** The byte-order mark U+FEFF. */
  const Bom: char := '\U{FEFF}'

  /** `generateCSV`: a byte-order mark, the header line, a line break, and one line
      per record. */
  function GenerateCsv(lib: Lib, data: seq<Item>, columns: seq<Column>): (r: string)
    ensures |r| >= |HeaderLine(columns)| + 2 && r[0] == Bom
    ensures r[1..|HeaderLine(columns)| + 2] == HeaderLine(columns) + "\n"
  {
    [Bom] + (HeaderLine(columns) + "\n" + Join(Seqs.Map(data, RowLine(lib, columns)), "\n"))
  }

  /** Each record line splits at ';' back into its cells. */
  lemma RowSplits(lib: Lib, item: Item, columns: seq<Column>)
    requires PlainNumbers(lib) && |columns| > 0
    ensures Split(RowLine(lib, columns)(item), ';') == CellsOf(lib, item, columns)
    ensures '\n' !in RowLine(lib, columns)(item)
  {
    var cells := CellsOf(lib, item, columns);
    forall i | 0 <= i < |cells| ensures ';' !in cells[i] && '\n' !in cells[i] {
      CellTextClean(lib, item, columns[i]);
    }
    SplitJoin(cells, ';');
    JoinLacks(cells, ';', '\n');
  }

  /** The export reads back line by line: after the byte-order mark, the lines are
      the header line and then one line per record, in order. */
  lemma CsvLines(lib: Lib, data: seq<Item>, columns: seq<Column>)
    requires PlainNumbers(lib) && |data| > 0 && |columns| > 0
    requires forall col :: col in columns ==> '\n' !in col.header
    ensures GenerateCsv(lib, data, columns)[0] == Bom
    ensures Split(GenerateCsv(lib, data, columns)[1..], '\n')
         == [HeaderLine(columns)] + Seqs.Map(data, RowLine(lib, columns))
  {
    var headers := Seqs.Map(columns, Header);
    var rows := Seqs.Map(data, RowLine(lib, columns));
    var csv := GenerateCsv(lib, data, columns);
    var h, j := HeaderLine(columns), Join(rows, "\n");
    var body := h + ['\n'] + j;
    assert csv == [Bom] + body;
    assert csv[1..] == body;
    forall i | 0 <= i < |headers| ensures '\n' !in headers[i] {
      assert columns[i] in columns;
    }
    JoinLacks(headers, ';', '\n');
    SplitNoSep(HeaderLine(columns), '\n');
    forall i | 0 <= i < |rows| ensures '\n' !in rows[i] {
      RowSplits(lib, data[i], columns);
    }
    SplitJoin(rows, '\n');
    SplitAppend(HeaderLine(columns), Join(rows, "\n"), '\n');
  }

  // ---------------------------------------------------------------- worker state

  /** The worker's state between messages. */
  class QueryWorker {
    var cachedInventory: seq<Item>
    var lastFilteredResult: seq<Item>

    constructor()
      ensures cachedInventory == [] && lastFilteredResult == []
    {
      cachedInventory := [];
      lastFilteredResult := [];
    }

    /** SET_DATA: a snapshot, when given, becomes both the cache and the last result. */
    method SetData(inventory: Option<seq<Item>>)
      modifies this
      ensures inventory.Some? ==> cachedInventory == inventory.value && lastFilteredResult == inventory.value
      ensures inventory.None? ==> cachedInventory == old(cachedInventory) && lastFilteredResult == old(lastFilteredResult)
    {
      if inventory.Some? {
        cachedInventory := inventory.value;
        lastFilteredResult := inventory.value;
      }
    }

    /** FILTER_SORT: queries the given snapshot, or the cache when none is given, and
        remembers the result for export. */
    method FilterSort(lib: Lib, inventory: Option<seq<Item>>, filterConfig: Option<FilterConfig>, sortConfig: Option<SortConfig>)
      returns (result: seq<Item>, totalWeight: real)
      modifies this
      ensures var data := if inventory.Some? then inventory.value else old(cachedInventory);
        result == Query(lib, data, filterConfig, sortConfig)
      ensures totalWeight == TotalWeight(result)
      ensures lastFilteredResult == result && cachedInventory == old(cachedInventory)
    {
      var data := if inventory.Some? then inventory.value else cachedInventory;
      if |data| == 0 {
        lastFilteredResult := [];
        return [], 0.0;
      }
      var cfg := ConfigOf(filterConfig);
      var filtered := Filtered(lib, data, cfg);
      result := SortItems(lib, filtered, cfg, sortConfig);
      lastFilteredResult := result;
      totalWeight := TotalWeight(result);
    }

    /** EXPORT_CSV: the last result rendered as CSV; the state is left as it is. */
    method ExportCsv(lib: Lib, columns: seq<Column>) returns (csv: string)
      ensures csv == GenerateCsv(lib, lastFilteredResult, columns)
    {
      csv := GenerateCsv(lib, lastFilteredResult, columns);
    }
  }
}
