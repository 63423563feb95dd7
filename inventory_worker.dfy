/** The pure part of the inventory worker (workers/inventory.worker.ts): turning sheet
    rows into records, merging a delta into the local replica keyed by sku, and
    reading `DD/MM/YYYY[ HH:MM:SS]` text as a time value. */
module InventoryWorker {
  import opened Js
  import opened Text
  import opened Calendar
  import opened InventoryTypes
  import Seqs
  import Formatting

  // ---------------------------------------------------------------- sheet rows

  /** `COL`: the sheet column that holds each property of a record. */
  const ColSku := 0
  const ColPurpose := 1
  const ColPacketCode := 2
  const ColPaperType := 3
  const ColGsm := 4
  const ColSupplier := 5
  const ColManufacturer := 6
  const ColImportDate := 7
  const ColProductionDate := 8
  const ColLength := 9
  const ColWidth := 10
  const ColWeight := 11
  const ColQuantity := 12
  const ColOrderCustomer := 13
  const ColMaterialCode := 14
  const ColLocation := 15
  const ColPendingOut := 16
  const ColImporter := 17
  const ColLastUpdated := 18
  const ColTransactionType := 19

  /** A row of the sheet: an array of cells, or some other value. */
  datatype Row = Cells(cells: seq<Value>) | NotArray(v: Value)

  /** What the sheet service hands over: an array of rows, or some other value. */
  datatype Raw = Table(rows: seq<Row>) | NotTable(v: Value)

  /** A `null` or `undefined` row: reading a cell of it throws a `TypeError`. */
  predicate Nullish(row: Row)
  {
    row == NotArray(Null) || row == NotArray(Undefined)
  }

  /** `row[i]` of a row that is not nullish: the i-th cell of an array, the i-th
      character of a string, and `undefined` past the end or on a number or boolean. */
  function Cell(row: Row, i: nat): (v: Value)
    ensures row.Cells? ==> v == if i < |row.cells| then row.cells[i] else Undefined
    ensures row.NotArray? && row.v.Str? ==> v == if i < |row.v.s| then Str([row.v.s[i]]) else Undefined
    ensures row.NotArray? && !row.v.Str? ==> v == Undefined
  {
    match row
    case Cells(cells) => if i < |cells| then cells[i] else Undefined
    case NotArray(Str(s)) => if i < |s| then Str([s[i]]) else Undefined
    case NotArray(_) => Undefined
  }

  /** `new Date(val)` read through the local-time getters; `None` for an invalid date. */
  type DateOf = Value -> Option<LocalDateTime>

  /** `formatDate(val)`: '' for a falsy value, the value's own text for an invalid
      date, `DD/MM/YYYY` otherwise. */
  function FormatDate(lib: Lib, dateOf: DateOf, v: Value): string
  {
    if !Truthy(v) then ""
    else
      match dateOf(v)
      case None => ToString(lib, v)
      case Some(t) => Formatting.DateText(t.date)
  }

  /** `formatDateTime(val)`: as `formatDate`, with ` HH:MM:SS` after a valid date. */
  function FormatDateTime(lib: Lib, dateOf: DateOf, v: Value): string
  {
    if !Truthy(v) then ""
    else
      match dateOf(v)
      case None => ToString(lib, v)
      case Some(t) => Formatting.FormatDateTime(t)
  }

  /** `String(v || "")`. */
  function TextOrEmpty(lib: Lib, v: Value): (s: string)
    ensures !Truthy(v) ==> s == ""
    ensures Truthy(v) ==> s == ToString(lib, v)
  {
    if Truthy(v) then ToString(lib, v) else ""
  }

  /** The record `transformData` makes of one row. */
  function RowToItem(lib: Lib, dateOf: DateOf, row: Row): Item
  {
    Item(
      sku := ToString(lib, Cell(row, ColSku)),
      purpose := ToString(lib, Cell(row, ColPurpose)),
      packetCode := ToString(lib, Cell(row, ColPacketCode)),
      paperType := ToString(lib, Cell(row, ColPaperType)),
      gsm := TextOrEmpty(lib, Cell(row, ColGsm)),
      supplier := ToString(lib, Cell(row, ColSupplier)),
      manufacturer := ToString(lib, Cell(row, ColManufacturer)),
      importDate := FormatDate(lib, dateOf, Cell(row, ColImportDate)),
      productionDate := FormatDate(lib, dateOf, Cell(row, ColProductionDate)),
      length := ToNumber(lib, Cell(row, ColLength)),
      width := ToNumber(lib, Cell(row, ColWidth)),
      weight := ToNumber(lib, Cell(row, ColWeight)),
      quantity := ToNumber(lib, Cell(row, ColQuantity)),
      orderCustomer := ToString(lib, Cell(row, ColOrderCustomer)),
      materialCode := ToString(lib, Cell(row, ColMaterialCode)),
      location := ToString(lib, Cell(row, ColLocation)),
      pendingOut := TextOrEmpty(lib, Cell(row, ColPendingOut)),
      importer := ToString(lib, Cell(row, ColImporter)),
      lastUpdated := FormatDateTime(lib, dateOf, Cell(row, ColLastUpdated)),
      transactionType := Cell(row, ColTransactionType))
  }

  /** The result of `transformData`: records, the input handed back as it was, or
      the `TypeError` thrown by reading a cell of a nullish row (its engine-worded
      message is not modelled). */
  datatype Transformed = Records(items: seq<Item>) | Unchanged(raw: Raw) | Threw

  /** `transformData(rawData)` converts a non-empty array whose first row is an array,
      one record per row; any other input is returned unchanged. */
  predicate Converts(raw: Raw)
  {
    raw.Table? && |raw.rows| > 0 && raw.rows[0].Cells?
  }

  /** `transformData(rawData)`: a converted array becomes one record per row, unless
      one of its rows is `null` or `undefined`, which makes `row[COL.SKU]` throw;
      anything else is returned unchanged. */
  function TransformData(lib: Lib, dateOf: DateOf, raw: Raw): (r: Transformed)
    ensures r.Records? <==> Converts(raw) && forall i :: 0 <= i < |raw.rows| ==> !Nullish(raw.rows[i])
    ensures r.Threw? <==> Converts(raw) && exists i :: 0 <= i < |raw.rows| && Nullish(raw.rows[i])
    ensures r.Unchanged? <==> !Converts(raw)
    ensures r.Unchanged? ==> r.raw == raw
    ensures r.Records? ==> |r.items| == |raw.rows|
  {
    if !Converts(raw) then Unchanged(raw)
    else if exists i :: 0 <= i < |raw.rows| && Nullish(raw.rows[i]) then Threw
    else Records(seq(|raw.rows|, i requires 0 <= i < |raw.rows| => RowToItem(lib, dateOf, raw.rows[i])))
  }

  /** The i-th record reads every property from its fixed column of the i-th row:
      text as the cell's text, numbers as its number; `gsm` and `pendingOut` are ''
      for a falsy cell; the dates are '' for a falsy cell, the cell's own text when
      it is no date, and the formatted date otherwise. */
  lemma TransformRow(lib: Lib, dateOf: DateOf, raw: Raw, i: nat)
    requires TransformData(lib, dateOf, raw).Records? && i < |raw.rows|
    ensures var item, row := TransformData(lib, dateOf, raw).items[i], raw.rows[i];
            && item.sku == ToString(lib, Cell(row, 0))
            && item.purpose == ToString(lib, Cell(row, 1))
            && item.packetCode == ToString(lib, Cell(row, 2))
            && item.paperType == ToString(lib, Cell(row, 3))
            && (item.gsm == "" <== !Truthy(Cell(row, 4)))
            && (Truthy(Cell(row, 4)) ==> item.gsm == ToString(lib, Cell(row, 4)))
            && item.supplier == ToString(lib, Cell(row, 5))
            && item.manufacturer == ToString(lib, Cell(row, 6))
            && item.length == ToNumber(lib, Cell(row, 9))
            && item.width == ToNumber(lib, Cell(row, 10))
            && item.weight == ToNumber(lib, Cell(row, 11))
            && item.quantity == ToNumber(lib, Cell(row, 12))
            && item.orderCustomer == ToString(lib, Cell(row, 13))
            && item.materialCode == ToString(lib, Cell(row, 14))
            && item.location == ToString(lib, Cell(row, 15))
            && (item.pendingOut == "" <== !Truthy(Cell(row, 16)))
            && (Truthy(Cell(row, 16)) ==> item.pendingOut == ToString(lib, Cell(row, 16)))
            && item.importer == ToString(lib, Cell(row, 17))
            && item.transactionType == Cell(row, 19)
  {
  }

  /** The date columns of the i-th record: '' for a falsy cell, the cell's own
      text when it reads as no date, `DD/MM/YYYY` (with ` HH:MM:SS` for the last
      update) when it does. */
  lemma TransformRowDates(lib: Lib, dateOf: DateOf, raw: Raw, i: nat)
    requires TransformData(lib, dateOf, raw).Records? && i < |raw.rows|
    ensures var item, row := TransformData(lib, dateOf, raw).items[i], raw.rows[i];
            && (!Truthy(Cell(row, 7)) ==> item.importDate == "")
            && (Truthy(Cell(row, 7)) && dateOf(Cell(row, 7)).None? ==>
                  item.importDate == ToString(lib, Cell(row, 7)))
            && (Truthy(Cell(row, 7)) && dateOf(Cell(row, 7)).Some? ==>
                  item.importDate == Formatting.DateText(dateOf(Cell(row, 7)).value.date))
            && (!Truthy(Cell(row, 8)) ==> item.productionDate == "")
            && (Truthy(Cell(row, 8)) && dateOf(Cell(row, 8)).None? ==>
                  item.productionDate == ToString(lib, Cell(row, 8)))
            && (Truthy(Cell(row, 8)) && dateOf(Cell(row, 8)).Some? ==>
                  item.productionDate == Formatting.DateText(dateOf(Cell(row, 8)).value.date))
            && (!Truthy(Cell(row, 18)) ==> item.lastUpdated == "")
            && (Truthy(Cell(row, 18)) && dateOf(Cell(row, 18)).None? ==>
                  item.lastUpdated == ToString(lib, Cell(row, 18)))
            && (Truthy(Cell(row, 18)) && dateOf(Cell(row, 18)).Some? ==>
                  item.lastUpdated == Formatting.FormatDateTime(dateOf(Cell(row, 18)).value))
  {
  }

  /** An empty array and `null` come back as they were. */
  lemma TransformEmptyOrNull(lib: Lib, dateOf: DateOf)
    ensures TransformData(lib, dateOf, Table([])) == Unchanged(Table([]))
    ensures TransformData(lib, dateOf, NotTable(Null)) == Unchanged(NotTable(Null))
  {
  }

  // ---------------------------------------------------------------- merging a delta

  /** A JavaScript `Map` from sku to record: the keys in insertion order, and the
      record stored under each. */
  datatype SkuMap = SkuMap(keys: seq<string>, vals: map<string, Item>)

  /** The keys are distinct and are exactly the entries, and every record is stored
      under its own non-empty sku. */
  ghost predicate ValidMap(m: SkuMap)
  {
    && Seqs.NoDuplicates(m.keys)
    && (forall k :: k in m.vals <==> k in m.keys)
    && (forall k :: k in m.vals ==> k != "" && m.vals[k].sku == k)
  }

  const EmptyMap: SkuMap := SkuMap([], map[])

  /** `map.get(k)`. */
  function Lookup(m: SkuMap, k: string): Option<Item>
  {
    if k in m.vals then Some(m.vals[k]) else None
  }

  /** `map.set(v.sku, v)`: a new key goes last, a key already present keeps its place. */
  function Put(m: SkuMap, v: Item): (r: SkuMap)
    requires ValidMap(m) && v.sku != ""
    ensures ValidMap(r)
    ensures Lookup(r, v.sku) == Some(v)
    ensures forall k :: k != v.sku ==> Lookup(r, k) == Lookup(m, k)
    ensures r.keys == if v.sku in m.keys then m.keys else m.keys + [v.sku]
  {
    SkuMap(if v.sku in m.vals then m.keys else m.keys + [v.sku], m.vals[v.sku := v])
  }

  /** `Array.from(map.values())`. */
  function Values(m: SkuMap): (r: seq<Item>)
    requires ValidMap(m)
    ensures |r| == |m.keys|
    ensures forall i :: 0 <= i < |r| ==> r[i] == m.vals[m.keys[i]] && r[i].sku == m.keys[i]
  {
    seq(|m.keys|, i requires 0 <= i < |m.keys| => m.vals[m.keys[i]])
  }

  /** One pass of `for (item of s) if (item && item.sku) itemMap.set(item.sku, item)`. */
  function PutAll(m: SkuMap, s: seq<Item>): (r: SkuMap)
    requires ValidMap(m)
    ensures ValidMap(r)
    decreases |s|
  {
    if |s| == 0 then m
    else
      var p := PutAll(m, s[..|s| - 1]);
      var item := s[|s| - 1];
      if item.sku != "" then Put(p, item) else p
  }

  /** What `mergeInventory(currentData, newItems)` returns. */
  function Merge(current: seq<Item>, delta: seq<Item>): seq<Item>
  {
    Values(PutAll(PutAll(EmptyMap, current), delta))
  }

  /** `mergeInventory`: fill a map from the snapshot, then from the delta, and list
      its values. */
  method MergeInventory(current: seq<Item>, delta: seq<Item>) returns (r: seq<Item>)
    ensures r == Merge(current, delta)
  {
    var itemMap := EmptyMap;
    for i := 0 to |current|
      invariant ValidMap(itemMap) && itemMap == PutAll(EmptyMap, current[..i])
    {
      var item := current[i];
      assert current[..i + 1][..i] == current[..i];
      if item.sku != "" {
        itemMap := Put(itemMap, item);
      }
    }
    assert current[..|current|] == current;
    var snapshot := itemMap;
    for i := 0 to |delta|
      invariant ValidMap(itemMap) && itemMap == PutAll(snapshot, delta[..i])
    {
      var item := delta[i];
      assert delta[..i + 1][..i] == delta[..i];
      if item.sku != "" {
        itemMap := Put(itemMap, item);
      }
    }
    assert delta[..|delta|] == delta;
    r := Values(itemMap);
  }

  /** The last record of `s` whose sku is `k`. */
  function LastWith(s: seq<Item>, k: string): (r: Option<Item>)
    ensures r.Some? ==> r.value in s && r.value.sku == k
    ensures r.None? <==> forall i :: 0 <= i < |s| ==> s[i].sku != k
    decreases |s|
  {
    if |s| == 0 then None
    else if s[|s| - 1].sku == k then Some(s[|s| - 1])
    else LastWith(s[..|s| - 1], k)
  }

  /** `result.find(i => i.sku === k)`: the first record whose sku is `k`. */
  function Find(s: seq<Item>, k: string): (r: Option<Item>)
    ensures r.Some? ==> r.value in s && r.value.sku == k
    ensures r.None? <==> forall i :: 0 <= i < |s| ==> s[i].sku != k
    decreases |s|
  {
    if |s| == 0 then None
    else if s[0].sku == k then Some(s[0])
    else Find(s[1..], k)
  }

  /** The non-empty skus of `s` that are not in `known`, each once, in order of first
      appearance. */
  function NewSkus(known: seq<string>, s: seq<Item>): seq<string>
    decreases |s|
  {
    if |s| == 0 then []
    else
      var p := NewSkus(known, s[..|s| - 1]);
      var k := s[|s| - 1].sku;
      if k == "" || k in known || k in p then p else p + [k]
  }

  /** The skus of a list of records, in order. */
  function Skus(s: seq<Item>): (r: seq<string>)
    ensures |r| == |s| && forall i :: 0 <= i < |s| ==> r[i] == s[i].sku
  {
    seq(|s|, i requires 0 <= i < |s| => s[i].sku)
  }

  /** The skus `NewSkus` collects: distinct, non-empty, not already known, and each
      the sku of some record of `s`. */
  lemma {:induction false} NewSkusMembers(known: seq<string>, s: seq<Item>)
    ensures Seqs.NoDuplicates(NewSkus(known, s))
    ensures forall k :: k in NewSkus(known, s) <==> k != "" && k !in known && k in Skus(s)
    decreases |s|
  {
    if |s| > 0 {
      var init := s[..|s| - 1];
      NewSkusMembers(known, init);
      assert Skus(s) == Skus(init) + [s[|s| - 1].sku];
    }
  }

  /** Filling a map from `s` appends the new skus of `s` to its keys. */
  lemma {:induction false} PutAllKeys(m: SkuMap, s: seq<Item>)
    requires ValidMap(m)
    ensures PutAll(m, s).keys == m.keys + NewSkus(m.keys, s)
    decreases |s|
  {
    if |s| > 0 {
      var init := s[..|s| - 1];
      PutAllKeys(m, init);
      var k := s[|s| - 1].sku;
      var p := PutAll(m, init);
      assert k in p.keys <==> k in m.keys || k in NewSkus(m.keys, init);
    }
  }

  /** After filling a map from `s`, every sku found in `s` holds the last record of
      `s` with that sku, and every other key holds what it held before. */
  lemma {:induction false} PutAllLookup(m: SkuMap, s: seq<Item>, k: string)
    requires ValidMap(m) && k != ""
    ensures Lookup(PutAll(m, s), k) == if LastWith(s, k).Some? then LastWith(s, k) else Lookup(m, k)
    decreases |s|
  {
    if |s| > 0 {
      PutAllLookup(m, s[..|s| - 1], k);
    }
  }

  /** The empty sku is never a key. */
  lemma PutAllNoEmpty(m: SkuMap, s: seq<Item>)
    requires ValidMap(m)
    ensures Lookup(PutAll(m, s), "") == None
  {
  }

  /** Looking a sku up in the listed values finds what the map holds for it. */
  lemma FindValues(m: SkuMap, k: string)
    requires ValidMap(m)
    ensures Find(Values(m), k) == Lookup(m, k)
  {
    var r := Values(m);
    if k in m.vals {
      var j :| 0 <= j < |m.keys| && m.keys[j] == k;
      FindFirst(r, k, j);
    } else {
      assert forall i :: 0 <= i < |r| ==> r[i].sku != k;
    }
  }

  /** `find` returns the record at the first index holding the sku. */
  lemma {:induction false} FindFirst(s: seq<Item>, k: string, j: nat)
    requires j < |s| && s[j].sku == k
    requires forall i :: 0 <= i < j ==> s[i].sku != k
    ensures Find(s, k) == Some(s[j])
    decreases j
  {
    if j > 0 {
      FindFirst(s[1..], k, j - 1);
    }
  }

  /** Merging keeps one record per non-empty sku: the last delta record for a sku the
      delta holds, else the last snapshot record; an empty sku is dropped. */
  lemma MergeFind(current: seq<Item>, delta: seq<Item>, k: string)
    ensures Find(Merge(current, delta), k)
            == if k == "" then None
               else if LastWith(delta, k).Some? then LastWith(delta, k)
               else LastWith(current, k)
  {
    var base := PutAll(EmptyMap, current);
    var m := PutAll(base, delta);
    FindValues(m, k);
    if k == "" {
      PutAllNoEmpty(base, delta);
    } else {
      PutAllLookup(base, delta, k);
      PutAllLookup(EmptyMap, current, k);
    }
  }

  /** The merged skus are distinct: the snapshot's in their first-appearance order,
      then the delta's new ones in theirs. */
  lemma MergeOrder(current: seq<Item>, delta: seq<Item>)
    ensures var first := NewSkus([], current);
            Skus(Merge(current, delta)) == first + NewSkus(first, delta)
    ensures Seqs.NoDuplicates(Skus(Merge(current, delta)))
  {
    var base := PutAll(EmptyMap, current);
    PutAllKeys(EmptyMap, current);
    PutAllKeys(base, delta);
    assert base.keys == NewSkus([], current);
    var m := PutAll(base, delta);
    assert Skus(Merge(current, delta)) == m.keys;
  }

  /** A sku is in the merge exactly when it is non-empty and some record of the
      snapshot or the delta carries it. */
  lemma MergeSkus(current: seq<Item>, delta: seq<Item>, k: string)
    ensures k in Skus(Merge(current, delta)) <==> k != "" && (k in Skus(current) || k in Skus(delta))
  {
    MergeOrder(current, delta);
    var first := NewSkus([], current);
    NewSkusMembers([], current);
    NewSkusMembers(first, delta);
  }

  /** A record with only a sku and a quantity, as the merge examples use. */
  function Stub(sku: string, quantity: real): Item
  {
    Item(sku, "", "", "", "", "", "", "", "", NaN, NaN, NaN, Fin(quantity),
         "", "", "", "", "", "", Undefined)
  }

  /** Updating A in [A, B] keeps two records, A with the new quantity, B as it was. */
  lemma MergeUpdateExample()
    ensures var r := Merge([Stub("A", 10.0), Stub("B", 5.0)], [Stub("A", 20.0)]);
            |r| == 2 && Find(r, "A") == Some(Stub("A", 20.0)) && Find(r, "B") == Some(Stub("B", 5.0))
  {
    var a, b, a2 := Stub("A", 10.0), Stub("B", 5.0), Stub("A", 20.0);
    var c, d := [a, b], [a2];
    assert NewSkus([], c) == ["A", "B"] by {
      assert c[..1] == [a] && [a][..0] == [];
      assert NewSkus([], [a]) == ["A"];
    }
    assert NewSkus(["A", "B"], d) == [] by {
      assert d[..0] == [];
    }
    MergeOrder(c, d);
    MergeFind(c, d, "A");
    MergeFind(c, d, "B");
  }

  /** Inserting C into [A] gives two records, C among them. */
  lemma MergeInsertExample()
    ensures var r := Merge([Stub("A", 10.0)], [Stub("C", 15.0)]);
            |r| == 2 && Find(r, "C") == Some(Stub("C", 15.0))
  {
    var a, c2 := Stub("A", 10.0), Stub("C", 15.0);
    var c, d := [a], [c2];
    assert NewSkus([], c) == ["A"] by {
      assert c[..0] == [];
    }
    assert NewSkus(["A"], d) == ["C"] by {
      assert d[..0] == [];
    }
    MergeOrder(c, d);
    assert |Skus(Merge(c, d))| == 2;
    assert LastWith(d, "C") == Some(c2);
    MergeFind(c, d, "C");
  }

  // ---------------------------------------------------------------- date-time text

  /** A piece of the time after the date: a missing or empty piece reads 0. */
  function TimeField(time: seq<string>, i: nat): Option<int>
  {
    if i < |time| && time[i] != "" then ParseInt(time[i]) else Some(0)
  }

  /** `parseDateToTimestamp(val)`: -1 unless `val` is a non-empty string whose date
      part has three '/'-separated fields; otherwise the local time value of
      `DD/MM/YYYY[ HH[:MM[:SS]]]`, missing time fields reading 0. */
  function ParseDateToTimestamp(v: Value): Num
  {
    if !Truthy(v) || !v.Str? then Fin(-1.0)
    else ParseDateParts(Split(Trim(v.s), ' '))
  }

  /** The reading of the space-separated pieces of the trimmed text. */
  function ParseDateParts(parts: seq<string>): Num
    requires |parts| >= 1
  {
    var dateParts := Split(parts[0], '/');
    if |dateParts| != 3 then Fin(-1.0)
    else FieldsToTime(dateParts, TimePieces(parts))
  }

  /** The ':'-separated pieces of the time, none when there is no time part. */
  function TimePieces(parts: seq<string>): seq<string>
  {
    if |parts| > 1 && parts[1] != "" then Split(parts[1], ':') else []
  }

  /** `new Date(year, month - 1, day, hour, minute, second).getTime()`. */
  function FieldsToTime(dateParts: seq<string>, time: seq<string>): Num
    requires |dateParts| == 3
  {
    NewDate(ParseInt(dateParts[2]), Formatting.MinusOne(ParseInt(dateParts[1])),
            ParseInt(dateParts[0]), TimeField(time, 0), TimeField(time, 1), TimeField(time, 2))
  }

  /** A value that is not a non-empty string, and a date part without exactly three
      fields, give -1. */
  lemma ParseDateRejects(v: Value)
    ensures !(v.Str? && v.s != "") ==> ParseDateToTimestamp(v) == Fin(-1.0)
    ensures v.Str? && v.s != "" && |Split(Split(Trim(v.s), ' ')[0], '/')| != 3 ==>
            ParseDateToTimestamp(v) == Fin(-1.0)
  {
  }

  /** Text without a time part reads as midnight. */
  lemma ParseDateMidnight(text: string, dd: string, mm: string, yy: string)
    requires text != "" && ' ' !in Trim(text)
    requires Split(Trim(text), '/') == [dd, mm, yy]
    ensures ParseDateToTimestamp(Str(text))
            == NewDate(ParseInt(yy), Formatting.MinusOne(ParseInt(mm)), ParseInt(dd), Some(0), Some(0), Some(0))
  {
    var t := Trim(text);
    assert Split(t, ' ') == [t] by { SplitNoSep(t, ' '); }
    DatePartOnly(t, dd, mm, yy);
  }

  lemma DatePartOnly(t: string, dd: string, mm: string, yy: string)
    requires Split(t, '/') == [dd, mm, yy]
    ensures ParseDateParts([t])
            == NewDate(ParseInt(yy), Formatting.MinusOne(ParseInt(mm)), ParseInt(dd), Some(0), Some(0), Some(0))
  {
    assert TimePieces([t]) == [];
    assert ParseDateParts([t]) == FieldsToTime([dd, mm, yy], []);
  }

  /** A date and a time of three non-empty fields each are read field by field. */
  lemma ParseDateOfFields(text: string, a: string, b: string,
                          dd: string, mm: string, yy: string, h: string, mi: string, s: string)
    requires text != "" && Split(Trim(text), ' ') == [a, b]
    requires Split(a, '/') == [dd, mm, yy] && Split(b, ':') == [h, mi, s]
    requires h != "" && mi != "" && s != ""
    ensures ParseDateToTimestamp(Str(text))
            == NewDate(ParseInt(yy), Formatting.MinusOne(ParseInt(mm)), ParseInt(dd), ParseInt(h), ParseInt(mi), ParseInt(s))
  {
    var parts := [a, b];
    var time := [h, mi, s];
    assert ParseDateToTimestamp(Str(text)) == ParseDateParts(parts);
    assert TimePieces(parts) == time by {
      assert b != "" by { assert |Split(b, ':')| > 1; }
    }
    assert ParseDateParts(parts) == FieldsToTime([dd, mm, yy], time);
    assert TimeField(time, 0) == ParseInt(h) && TimeField(time, 1) == ParseInt(mi) && TimeField(time, 2) == ParseInt(s);
  }

  /** The worker reads back the `DD/MM/YYYY HH:MM:SS` text it writes as the time value
      of the same local date-time (years 100 to 200000). */
  lemma ParseFormattedDateTime(t: DateTime)
    requires ValidDateTime(t) && 100 <= t.date.year <= 200000
    ensures ParseDateToTimestamp(Str(Formatting.FormatDateTime(t)))
            == Fin(LocalTime(t.date.year, t.date.month, t.date.day, t.hour, t.minute, t.second) as real)
  {
    var dd, mm, yy := Pad2(t.date.day), Pad2(t.date.month + 1), Formatting.YearText(t.date.year);
    var h, mi, s := Pad2(t.hour), Pad2(t.minute), Pad2(t.second);
    var text, a, b := Formatting.FormatDateTime(t), Formatting.DateText(t.date), Formatting.TimeText(t);
    assert Split(a, '/') == [dd, mm, yy] by { Formatting.DateTextFields(t.date); }
    assert Split(b, ':') == [h, mi, s] by { Formatting.TimeTextFields(t); }
    assert text != "" && Split(Trim(text), ' ') == [a, b] by { Formatting.FormatDateTimeParts(t); }
    ParseDateOfFields(text, a, b, dd, mm, yy, h, mi, s);
    Formatting.NewDateOfPaddedFields(t);
  }

  /** Text without a '/' has no three date fields and reads -1; so does 'invalid'. */
  lemma ParseDateNoSlash(text: string)
    requires '/' !in text
    ensures ParseDateToTimestamp(Str(text)) == Fin(-1.0)
  {
    if text != "" {
      var parts := Split(Trim(text), ' ');
      assert '/' !in parts[0] by {
        SplitChars(Trim(text), ' ');
        if '/' in parts[0] {
          TrimChars(text, '/');
        }
      }
      SplitNoSep(parts[0], '/');
    }
  }
}
