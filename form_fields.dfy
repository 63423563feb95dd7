/** The option lists of the inventory edit form (hooks/useInventoryFormFields.ts),
    built from the reference metadata. A cell the row does not have is `undefined`,
    which is `None` here. */
module FormFields {
  import opened Js
  import opened ReferenceManagement
  import Seqs

  /** `SearchableOption`. */
  datatype SelectOption = SelectOption(value: Option<string>, text: Option<string>, code: Option<string>)

  /** `row[1]`, `undefined` on a shorter row. */
  function SecondCell(row: Row): Option<string>
  {
    if |row| > 1 then Some(row[1]) else None
  }

  /** The option of `transform` for one row. */
  function PlainOption(row: Row, hasCode: bool): SelectOption
  {
    SelectOption(FirstCell(row), FirstCell(row), Some(if hasCode then Cell(row, 1) else ""))
  }

  /** `transform`: one option per row, in order, named by the first cell. */
  function Transform(data: Option<seq<Row>>, hasCode: bool): (r: seq<SelectOption>)
    ensures data.None? ==> r == []
    ensures data.Some? ==> |r| == |data.value|
    ensures data.Some? ==> forall i :: 0 <= i < |r| ==>
      r[i].value == r[i].text == FirstCell(data.value[i])
      && r[i].code == Some(if hasCode then Cell(data.value[i], 1) else "")
  {
    match data
    case None => []
    case Some(rows) => Seqs.Map(rows, (row: Row) => PlainOption(row, hasCode))
  }

  /** The option of `transformNCC` for one supplier row. */
  function SupplierOption(row: Row): SelectOption
  {
    SelectOption(SecondCell(row), SecondCell(row), FirstCell(row))
  }

  /** `transformNCC`: one option per supplier, in order, named by its full name
      (the second cell) with the supplier code (the first cell) beside it. */
  function TransformSupplier(data: Option<seq<Row>>): (r: seq<SelectOption>)
    ensures data.None? ==> r == []
    ensures data.Some? ==> |r| == |data.value|
    ensures data.Some? ==> forall i :: 0 <= i < |r| ==>
      r[i].value == r[i].text == SecondCell(data.value[i]) && r[i].code == FirstCell(data.value[i])
  {
    match data
    case None => []
    case Some(rows) => Seqs.Map(rows, SupplierOption)
  }

  /** The two cells of a row swapped. */
  function Swapped(row: Row): Row
    requires |row| >= 2
  {
    [row[1], row[0]] + row[2..]
  }

  /** For suppliers whose rows have both cells, `transformNCC` is `transform` with
      codes on the rows with code and name swapped. */
  lemma {:induction false} SupplierIsSwappedTransform(rows: seq<Row>)
    requires forall i :: 0 <= i < |rows| ==> |rows[i]| >= 2
    ensures TransformSupplier(Some(rows))
      == Transform(Some(Seqs.Map(rows, (row: Row) => if |row| >= 2 then Swapped(row) else row)), true)
  {
    var swapped := Seqs.Map(rows, (row: Row) => if |row| >= 2 then Swapped(row) else row);
    var a := TransformSupplier(Some(rows));
    var b := Transform(Some(swapped), true);
    assert |a| == |b|;
    forall i | 0 <= i < |a|
      ensures a[i] == b[i]
    {
      assert swapped[i] == Swapped(rows[i]);
    }
  }

  /** `options`. */
  datatype FormOptions = FormOptions(
    purpose: seq<SelectOption>,
    packet: seq<SelectOption>,
    paper: seq<SelectOption>,
    supplier: seq<SelectOption>,
    manufacturer: seq<SelectOption>)

  /** `metaData?.[category]`. */
  function ListOf(metaData: Option<map<Category, seq<Row>>>, c: Category): (r: Option<seq<Row>>)
    ensures r.Some? <==> metaData.Some? && c in metaData.value
  {
    if metaData.Some? && c in metaData.value then Some(metaData.value[c]) else None
  }

  /** The form's option lists: purposes, packets and paper types with codes,
      suppliers by name, manufacturers without codes. */
  function Options(metaData: Option<map<Category, seq<Row>>>): (r: FormOptions)
    ensures metaData.None? ==> r == FormOptions([], [], [], [], [])
    ensures r.purpose == Transform(ListOf(metaData, LoaiNhap), true)
    ensures r.packet == Transform(ListOf(metaData, KienGiay), true)
    ensures r.paper == Transform(ListOf(metaData, LoaiGiay), true)
    ensures r.supplier == TransformSupplier(ListOf(metaData, Ncc))
    ensures r.manufacturer == Transform(ListOf(metaData, Nsx), false)
  {
    FormOptions(
      Transform(ListOf(metaData, LoaiNhap), true),
      Transform(ListOf(metaData, KienGiay), true),
      Transform(ListOf(metaData, LoaiGiay), true),
      TransformSupplier(ListOf(metaData, Ncc)),
      Transform(ListOf(metaData, Nsx), false))
  }

  /** Manufacturer options never carry a code. */
  lemma ManufacturersHaveNoCode(metaData: Option<map<Category, seq<Row>>>)
    ensures forall o :: o in Options(metaData).manufacturer ==> o.code == Some("")
  {
    var r := Options(metaData).manufacturer;
    forall o | o in r
      ensures o.code == Some("")
    {
      var i :| 0 <= i < |r| && r[i] == o;
    }
  }
}
