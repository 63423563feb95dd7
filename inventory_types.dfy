/** The inventory record (types/inventory.ts): one roll or packet of paper in stock. */
module InventoryTypes {
  import opened Js

  /** An inventory record as `transformData` computes it. Text fields are strings,
      measures are numbers, and the optional `transactionType` is whatever value the
      row carried (`Undefined` when it had none).

      Every record the app holds has been through the worker's `JSON.stringify` and
      the main thread's `JSON.parse`: a NaN measure comes back as `null`, and an
      `undefined` `transactionType` is no property at all. The fields keep the
      computed values; `Field` and `FieldValues` read them as JSON gives them back.
      Code that reads a measure as `Number(x) || 0` gets 0 from both NaN and `null`. */
  datatype Item = Item(
    sku: string,
    purpose: string,
    packetCode: string,
    paperType: string,
    gsm: string,
    supplier: string,
    manufacturer: string,
    importDate: string,
    productionDate: string,
    length: Num,
    width: Num,
    weight: Num,
    quantity: Num,
    orderCustomer: string,
    materialCode: string,
    location: string,
    pendingOut: string,
    importer: string,
    lastUpdated: string,
    transactionType: Value)

  /** The property names of a record, in declaration order. */
  const FieldNames: seq<string> := [
    "sku", "purpose", "packetCode", "paperType", "gsm", "supplier", "manufacturer",
    "importDate", "productionDate", "length", "width", "weight", "quantity",
    "orderCustomer", "materialCode", "location", "pendingOut", "importer",
    "lastUpdated", "transactionType"]

  /** A property value after `JSON.parse(JSON.stringify(v))`: NaN becomes `null`;
      every other value a record can hold comes back as it was. */
  function Json(v: Value): (r: Value)
    ensures r != Number(NaN)
    ensures v != Number(NaN) ==> r == v
  {
    if v == Number(NaN) then Null else v
  }

  /** `Object.values(item)` of a held record: the property values in declaration
      order, measures through JSON, and no value for an absent `transactionType`. */
  function FieldValues(item: Item): (vs: seq<Value>)
    ensures |vs| == if item.transactionType == Undefined then |FieldNames| - 1 else |FieldNames|
    ensures Undefined !in vs && Number(NaN) !in vs
  {
    [Str(item.sku), Str(item.purpose), Str(item.packetCode), Str(item.paperType),
     Str(item.gsm), Str(item.supplier), Str(item.manufacturer), Str(item.importDate),
     Str(item.productionDate), Json(Number(item.length)), Json(Number(item.width)),
     Json(Number(item.weight)), Json(Number(item.quantity)), Str(item.orderCustomer),
     Str(item.materialCode), Str(item.location), Str(item.pendingOut),
     Str(item.importer), Str(item.lastUpdated)]
    + (if item.transactionType == Undefined then [] else [Json(item.transactionType)])
  }

  /** `item[key]` of a held record: the value of the named property as JSON gives it
      back, `undefined` for an absent `transactionType` and for any other name. */
  function Field(item: Item, key: string): (v: Value)
    ensures v != Number(NaN)
  {
    if key == "sku" then Str(item.sku)
    else if key == "purpose" then Str(item.purpose)
    else if key == "packetCode" then Str(item.packetCode)
    else if key == "paperType" then Str(item.paperType)
    else if key == "gsm" then Str(item.gsm)
    else if key == "supplier" then Str(item.supplier)
    else if key == "manufacturer" then Str(item.manufacturer)
    else if key == "importDate" then Str(item.importDate)
    else if key == "productionDate" then Str(item.productionDate)
    else if key == "length" then Json(Number(item.length))
    else if key == "width" then Json(Number(item.width))
    else if key == "weight" then Json(Number(item.weight))
    else if key == "quantity" then Json(Number(item.quantity))
    else if key == "orderCustomer" then Str(item.orderCustomer)
    else if key == "materialCode" then Str(item.materialCode)
    else if key == "location" then Str(item.location)
    else if key == "pendingOut" then Str(item.pendingOut)
    else if key == "importer" then Str(item.importer)
    else if key == "lastUpdated" then Str(item.lastUpdated)
    else if key == "transactionType" then Json(item.transactionType)
    else Undefined
  }

  /** Looking a property up by name reads one of the listed values unless it reads
      `undefined`, which only an absent `transactionType` and an unknown name do. */
  lemma FieldByName(item: Item, key: string)
    ensures key in FieldNames && Field(item, key) != Undefined ==> Field(item, key) in FieldValues(item)
    ensures key in FieldNames && Field(item, key) == Undefined ==>
              key == "transactionType" && item.transactionType == Undefined
    ensures key !in FieldNames ==> Field(item, key) == Undefined
  {
  }

  /** A measure that is NaN when computed is read back as `null`, the value the
      worker sorts last, exports as '' and searches as "null". */
  lemma NaNMeasureReadsNull(item: Item)
    ensures item.width == NaN ==> Field(item, "width") == Null && Null in FieldValues(item)
    ensures item.length == NaN ==> Field(item, "length") == Null
    ensures item.weight == NaN ==> Field(item, "weight") == Null
    ensures item.quantity == NaN ==> Field(item, "quantity") == Null
  {
    if item.width == NaN {
      assert FieldValues(item)[10] == Null;
    }
  }
}
