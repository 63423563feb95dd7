/** The paper calculation screen's own helpers
    (components/Modules/PaperCalculation/PaperCalculationManager.tsx): the input
    masks of the quantity and decimal fields, the manufacturer choices, and the
    save of a pending note for the rolls of a result. */
module PaperCalculationManager {
  import opened Js
  import opened Text
  import Seqs
  import opened InventoryTypes
  import opened Formatting
  import opened Calendar
  import opened PaperCalculator
  import opened InventoryActions

  // ---------------------------------------------------------------- input masks

  /** `handleIntegerChange`: keep the digits, then put a '.' before every group of
      three digits counted from the right; nothing typed gives ''. */
  function IntegerMask(val: string): string
  {
    var raw := KeepChars(val, IsDigit);
    if raw != "" then GroupThousands(raw) else ""
  }

  /** The mask groups exactly the digits typed: its text is their grouping in
      threes from the right, it holds only digits and '.', and deleting the '.'s
      gives the digits back in order. */
  lemma IntegerMaskLaws(val: string)
    ensures var digits := KeepChars(val, IsDigit);
      IntegerMask(val) == Grouped(digits)
      && (forall c :: c in IntegerMask(val) ==> IsDigit(c) || c == '.')
      && RemoveChar(IntegerMask(val), '.') == digits
      && (digits == "" <==> IntegerMask(val) == "")
  {
    var digits := KeepChars(val, IsDigit);
    assert AllDigits(digits);
    GroupThousandsDigits(digits);
    GroupedChars(digits);
    DigitsLackChar(digits, '.');
    UngroupGrouped(digits);
  }

  /** `handleDecimalChange`: '.' becomes ',', only digits and ',' stay, and only
      the first ',' survives. */
  function DecimalMask(val: string): string
  {
    KeepFirstComma(KeepChars(ReplaceChar(val, '.', ","), IsDigitOrComma))
  }

  /** No two ','s. */
  predicate OneCommaAtMost(s: string)
  {
    forall i, j :: 0 <= i < j < |s| && s[i] == ',' ==> s[j] != ','
  }

  /** The text up to and with the first ',', then the rest without its ','s. */
  function FirstCommaOnly(v: string): (r: string)
    ensures OneCommaAtMost(r)
    ensures ',' in r <==> ',' in v
    ensures ',' !in v ==> r == v
    ensures forall c :: c in r ==> c in v
  {
    var k := IndexOf(v, ',');
    if k == -1 then v
    else
      CommaSplice(v, k);
      v[..k] + "," + RemoveChar(v[k + 1..], ',')
  }

  /** The first ',' of `v` at `k`, followed by the rest of `v` without its ','s,
      holds one ',' and only characters of `v`. */
  lemma CommaSplice(v: string, k: int)
    requires 0 <= k < |v| && v[k] == ',' && forall j :: 0 <= j < k ==> v[j] != ','
    ensures var r := v[..k] + "," + RemoveChar(v[k + 1..], ',');
      OneCommaAtMost(r) && ',' in r && forall c :: c in r ==> c in v
  {
    var tail := RemoveChar(v[k + 1..], ',');
    RemoveCharChars(v[k + 1..], ',');
    var r := v[..k] + "," + tail;
    assert forall i :: 0 <= i < k ==> r[i] == v[i];
    assert forall i :: k < i < |r| ==> r[i] == tail[i - k - 1];
    assert r[k] == ',';
    forall c | c in r ensures c in v {
      var i :| 0 <= i < |r| && r[i] == c;
      if k < i {
        assert tail[i - k - 1] in tail;
      }
    }
  }

  /** `join('')` of the pieces `split` cuts at `sep` deletes every `sep`. */
  lemma {:induction false} JoinSplitDeletes(s: string, sep: char)
    ensures Join(Split(s, sep), "") == RemoveChar(s, sep)
    decreases |s|
  {
    if |s| > 0 {
      var rest := Split(s[1..], sep);
      JoinSplitDeletes(s[1..], sep);
      if s[0] == sep {
        calc {
          Join(Split(s, sep), "");
          Join([""] + rest, "");
          { JoinCons([""] + rest); assert ([""] + rest)[1..] == rest; }
          "" + Join(rest, "");
          RemoveChar(s, sep);
        }
      } else {
        var parts := [[s[0]] + rest[0]] + rest[1..];
        calc {
          Join(Split(s, sep), "");
          Join(parts, "");
          { JoinCons(parts); assert parts[1..] == rest[1..]; }
          [s[0]] + rest[0] + Join(rest[1..], "");
          [s[0]] + (rest[0] + Join(rest[1..], ""));
          { JoinCons(rest); }
          [s[0]] + RemoveChar(s[1..], sep);
          RemoveChar(s, sep);
        }
      }
    }
  }

  /** Joining with "" puts the first piece before the join of the others. */
  lemma JoinCons(parts: seq<string>)
    requires |parts| > 0
    ensures Join(parts, "") == parts[0] + Join(parts[1..], "")
  {
    if |parts| == 1 {
      assert parts[0] + "" == parts[0];
    } else {
      assert parts[0] + "" + Join(parts[1..], "") == parts[0] + Join(parts[1..], "");
    }
  }

  /** Step 3 of the decimal mask keeps the first ',' and deletes the later ones. */
  lemma KeepFirstCommaIsFirstCommaOnly(v: string)
    ensures KeepFirstComma(v) == FirstCommaOnly(v)
  {
    if ',' in v {
      var k := IndexOf(v, ',');
      var head, tail := v[..k], v[k + 1..];
      assert v == head + [','] + tail;
      SplitAppend(head, tail, ',');
      SplitNoSep(head, ',');
      var pieces := Split(tail, ',');
      assert Split(v, ',') == [head] + pieces;
      JoinSplitDeletes(tail, ',');
      if |pieces| == 1 {
        JoinSplit(tail, ',');
        SplitPieces(tail, ',');
        assert RemoveChar(tail, ',') == tail;
      } else {
        assert (Split(v, ','))[1..] == pieces;
      }
    } else {
      SplitNoSep(v, ',');
    }
  }

  /** The decimal mask holds only digits and ',', at most one ',', and no '.'; its
      text is the cleaned input up to its first ',' followed by the rest without
      ','s. */
  lemma DecimalMaskLaws(val: string)
    ensures var cleaned := KeepChars(ReplaceChar(val, '.', ","), IsDigitOrComma);
      var r := DecimalMask(val);
      r == FirstCommaOnly(cleaned)
      && (forall c :: c in r ==> IsDigitOrComma(c))
      && OneCommaAtMost(r)
      && (',' in r <==> ',' in cleaned)
  {
    var cleaned := KeepChars(ReplaceChar(val, '.', ","), IsDigitOrComma);
    KeepFirstCommaIsFirstCommaOnly(cleaned);
    forall c | c in cleaned ensures IsDigitOrComma(c) {
      var j :| 0 <= j < |cleaned| && cleaned[j] == c;
    }
  }

  // ---------------------------------------------------------------- manufacturers

  /** An option of a select: its value and the text shown. */
  datatype Choice = Choice(value: string, caption: string)

  /** The first choice, which clears the manufacturer filter. */
  const AnyManufacturer := Choice("", "Tất cả")

  /** `String.prototype < `: character by character, a proper prefix first. This is
      the host's code-unit order for characters of the Basic Multilingual Plane. */
  function CompareCodeUnits(a: string, b: string): int
  {
    if a == [] && b == [] then 0
    else if a == [] then -1
    else if b == [] then 1
    else if a[0] < b[0] then -1
    else if a[0] > b[0] then 1
    else CompareCodeUnits(a[1..], b[1..])
  }

  /** The comparison is a strict order: it is 0 only on equal strings and swapping
      the sides swaps its sign. */
  lemma {:induction false} CompareCodeUnitsOrder(a: string, b: string)
    ensures CompareCodeUnits(a, b) == 0 <==> a == b
    ensures CompareCodeUnits(a, b) > 0 <==> CompareCodeUnits(b, a) < 0
    decreases |a|
  {
    if a != [] && b != [] && a[0] == b[0] {
      CompareCodeUnitsOrder(a[1..], b[1..]);
      assert a == [a[0]] + a[1..] && b == [b[0]] + b[1..];
    }
  }

  /** The item is of the selected type (every item when none is selected) and
      names a manufacturer. */
  predicate OffersManufacturer(lib: Lib, item: Item, targetType: string)
  {
    (targetType == "" || Contains(Normalize(lib, item.paperType), targetType))
    && item.manufacturer != ""
  }

  function ManufacturerOf(item: Item): string
  {
    item.manufacturer
  }

  function Offerer(lib: Lib, paperType: string): Item -> bool
  {
    var targetType := Normalize(lib, paperType);
    (item: Item) => OffersManufacturer(lib, item, targetType)
  }

  function AsChoice(m: string): Choice
  {
    Choice(m, m)
  }

  /** The distinct manufacturers on offer, in code-unit order. */
  function SortedManufacturers(lib: Lib, inventory: seq<Item>, paperType: string): seq<string>
  {
    Seqs.Sort(Seqs.Distinct(Seqs.Collect(inventory, Offerer(lib, paperType), ManufacturerOf)),
              CompareCodeUnits)
  }

  /** `availableManufacturers`: the clearing choice, then every distinct
      manufacturer on offer, in code-unit order. */
  function ManufacturerChoices(lib: Lib, inventory: seq<Item>, paperType: string): seq<Choice>
  {
    [AnyManufacturer] + Seqs.Map(SortedManufacturers(lib, inventory, paperType), AsChoice)
  }

  /** Sorting distinct names in code-unit order makes them strictly ascend. */
  lemma SortDistinctAscends(unique: seq<string>, sorted: seq<string>)
    requires Seqs.NoDuplicates(unique) && sorted == Seqs.Sort(unique, CompareCodeUnits)
    ensures forall i, j :: 0 <= i < j < |sorted| ==> CompareCodeUnits(sorted[i], sorted[j]) < 0
  {
    forall a, b | a in unique && b in unique && CompareCodeUnits(a, b) > 0
      ensures CompareCodeUnits(b, a) < 0
    {
      CompareCodeUnitsOrder(a, b);
    }
    Seqs.SortAdjacent(unique, CompareCodeUnits);
    assert Seqs.UniqueBy(unique, Same);
    Seqs.UniqueByPermutation(sorted, unique, Same);
    SortedStrictly(sorted);
  }

  /** The choices built from a list of names: the clearing one, then one per name
      in order, each showing its own value. */
  lemma ChoicesOf(sorted: seq<string>, r: seq<Choice>)
    requires r == [AnyManufacturer] + Seqs.Map(sorted, AsChoice)
    ensures |r| == |sorted| + 1 && r[0] == AnyManufacturer
    ensures forall j :: 1 <= j < |r| ==> r[j].caption == r[j].value == sorted[j - 1]
  {
  }

  /** Names that strictly ascend give choices whose values strictly ascend. */
  lemma ChoicesAscend(sorted: seq<string>, r: seq<Choice>)
    requires r == [AnyManufacturer] + Seqs.Map(sorted, AsChoice)
    requires forall i, j :: 0 <= i < j < |sorted| ==> CompareCodeUnits(sorted[i], sorted[j]) < 0
    ensures forall i, j :: 1 <= i < j < |r| ==> CompareCodeUnits(r[i].value, r[j].value) < 0
  {
    ChoicesOf(sorted, r);
    forall i, j | 1 <= i < j < |r|
      ensures CompareCodeUnits(r[i].value, r[j].value) < 0
    {
      assert CompareCodeUnits(sorted[i - 1], sorted[j - 1]) < 0;
    }
  }

  /** The choices start with the clearing one; every other choice shows its own
      value, and those values strictly ascend in code-unit order, so none repeats. */
  lemma ManufacturerChoicesOrder(lib: Lib, inventory: seq<Item>, paperType: string)
    ensures var r := ManufacturerChoices(lib, inventory, paperType);
      r[0] == AnyManufacturer
      && (forall j :: 1 <= j < |r| ==> r[j].caption == r[j].value)
      && (forall i, j :: 1 <= i < j < |r| ==> CompareCodeUnits(r[i].value, r[j].value) < 0)
  {
    var unique := Seqs.Distinct(Seqs.Collect(inventory, Offerer(lib, paperType), ManufacturerOf));
    var sorted := SortedManufacturers(lib, inventory, paperType);
    var r := ManufacturerChoices(lib, inventory, paperType);
    SortDistinctAscends(unique, sorted);
    ChoicesOf(sorted, r);
    ChoicesAscend(sorted, r);
  }

  /** A name has a choice exactly when it is one of the names sorted. */
  lemma ChoiceNames(sorted: seq<string>, r: seq<Choice>, m: string)
    requires r == [AnyManufacturer] + Seqs.Map(sorted, AsChoice)
    ensures (exists j :: 1 <= j < |r| && r[j].value == m) <==> m in sorted
  {
    ChoicesOf(sorted, r);
    if m in sorted {
      var j :| 0 <= j < |sorted| && sorted[j] == m;
      assert r[j + 1].value == m;
    }
  }

  /** A manufacturer has a choice exactly when it is not empty and some item of
      the selected type (any item when no type is selected) names it. */
  lemma ManufacturerChoicesMembers(lib: Lib, inventory: seq<Item>, paperType: string, m: string)
    ensures var r := ManufacturerChoices(lib, inventory, paperType);
      var targetType := Normalize(lib, paperType);
      (exists j :: 1 <= j < |r| && r[j].value == m) <==>
        (m != "" && exists i :: 0 <= i < |inventory| && inventory[i].manufacturer == m
                                && (targetType == "" || Contains(Normalize(lib, inventory[i].paperType), targetType)))
  {
    var targetType := Normalize(lib, paperType);
    var offers := Offerer(lib, paperType);
    var unique := Seqs.Distinct(Seqs.Collect(inventory, offers, ManufacturerOf));
    var sorted := SortedManufacturers(lib, inventory, paperType);
    ChoiceNames(sorted, ManufacturerChoices(lib, inventory, paperType), m);
    assert m in sorted <==> m in unique by {
      assert m in sorted <==> m in multiset(sorted);
    }
    Seqs.CollectMembers(inventory, offers, ManufacturerOf, m);
    forall i | 0 <= i < |inventory|
      ensures (offers(inventory[i]) && ManufacturerOf(inventory[i]) == m) <==>
              (m != "" && inventory[i].manufacturer == m
               && (targetType == "" || Contains(Normalize(lib, inventory[i].paperType), targetType)))
    {
    }
  }

  /** Neighbours in order and no two alike make every pair ascend. */
  lemma {:induction false} SortedStrictly(s: seq<string>)
    requires Seqs.AdjacentSorted(s, CompareCodeUnits)
    requires forall i, j :: 0 <= i < j < |s| ==> Same(s[i]) != Same(s[j])
    ensures forall i, j :: 0 <= i < j < |s| ==> CompareCodeUnits(s[i], s[j]) < 0
    decreases |s|
  {
    if |s| > 1 {
      var t := s[1..];
      SortedStrictly(t);
      forall j | 1 <= j < |s| ensures CompareCodeUnits(s[0], s[j]) < 0 {
        CompareCodeUnitsOrder(s[0], s[1]);
        if j > 1 {
          assert CompareCodeUnits(t[0], t[j - 1]) < 0;
          CompareTransitive(s[0], s[1], s[j]);
        }
      }
    }
  }

  /** Code-unit order is transitive. */
  lemma {:induction false} CompareTransitive(a: string, b: string, c: string)
    requires CompareCodeUnits(a, b) <= 0 && CompareCodeUnits(b, c) < 0
    ensures CompareCodeUnits(a, c) < 0
    decreases |a|
  {
    if a != [] && b != [] && c != [] && a[0] == b[0] && b[0] == c[0] {
      CompareTransitive(a[1..], b[1..], c[1..]);
    }
  }

  /** The `forEach` that fills the `Set` of manufacturers, the sort and the
      mapping to choices. */
  method AvailableManufacturers(lib: Lib, inventory: seq<Item>, paperType: string)
    returns (choices: seq<Choice>)
    ensures choices == ManufacturerChoices(lib, inventory, paperType)
  {
    ghost var offers := Offerer(lib, paperType);
    var targetType := if paperType != "" then Trim(lib.lower(paperType)) else "";
    var uniqueMfg: seq<string> := [];
    var i := 0;
    while i < |inventory|
      invariant 0 <= i <= |inventory|
      invariant uniqueMfg == Seqs.Distinct(Seqs.Collect(inventory[..i], offers, ManufacturerOf))
    {
      var item := inventory[i];
      Seqs.DistinctCollectStep(inventory, i, offers, ManufacturerOf);
      if targetType == "" || Contains(Normalize(lib, item.paperType), targetType) {
        if item.manufacturer != "" {
          if item.manufacturer !in uniqueMfg {
            uniqueMfg := uniqueMfg + [item.manufacturer];
          }
        }
      }
      i := i + 1;
    }
    assert inventory[..i] == inventory;
    var computed := Seqs.Map(Seqs.Sort(uniqueMfg, CompareCodeUnits), AsChoice);
    choices := [AnyManufacturer] + computed;
  }

  // ---------------------------------------------------------------- bulk pending note

  /** The edit dialog opened from a result card for the rolls it selected. */
  class PendingDialog {
    var targetSkus: seq<string>
    var isEditModalOpen: bool
    var templateItem: Option<Item>

    constructor()
      ensures targetSkus == [] && !isEditModalOpen && templateItem == None
    {
      targetSkus, isEditModalOpen, templateItem := [], false, None;
    }

    /** `handleSaveBulkPending`: with rolls selected, the note is saved on all of
        them through `handleSaveItem` and the dialog is cleared; without, nothing
        happens. */
    method SaveBulkPending(actions: InventoryActionsState, user: Option<string>, now: DateTime,
                           at: int, newId: nat -> string, updated: Item)
      requires ValidDateTime(now)
      modifies this, actions
      ensures |old(targetSkus)| > 0 ==>
        targetSkus == [] && !isEditModalOpen && templateItem == None
        && actions.cache == Some(BulkCache(old(actions.cache), old(targetSkus),
                                           SavedNote(updated, user, now)))
        && actions.queued == old(actions.queued)
             + BulkCommands(actions.cache.value, old(targetSkus), SavedNote(updated, user, now), newId, at, 0)
        && actions.notices == old(actions.notices) + [BulkSaved(|old(targetSkus)|)]
      ensures |old(targetSkus)| == 0 ==> unchanged(this) && unchanged(actions)
    {
      if |targetSkus| > 0 {
        actions.SaveItem(user, now, at, newId, updated, Some(targetSkus));
        isEditModalOpen := false;
        targetSkus := [];
        templateItem := None;
      }
    }
  }
}
