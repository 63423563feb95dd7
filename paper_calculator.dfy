/** The paper calculator screen's logic (hooks/usePaperCalculator.ts): the gsm
    search text, the stock that matches the form, the stock lengths and gsm values
    on offer, and the calculation handler, which groups the matching rolls by size,
    evaluates every cutting orientation the grain direction allows and keeps the
    five best options. */
module PaperCalculator {
  import opened Js
  import opened Text
  import Seqs
  import opened InventoryTypes
  import opened Formatting
  import opened UiStore
  import opened PaperCalculation

  // ---------------------------------------------------------------- gsm search

  /** `String.prototype.toLowerCase`, which leaves the empty string empty. */
  function Lower(lib: Lib, s: string): (r: string)
    ensures s == "" ==> r == ""
  {
    if s == "" then "" else lib.lower(s)
  }

  /** A separator of the gsm pattern `/[\/_ ]/`. */
  predicate IsGsmSeparator(c: char)
  {
    c == '/' || c == '_' || c == ' '
  }

  /** The first piece of `s.split(/[\/_ ]/)`: everything before the first separator. */
  function FirstPiece(s: string): (r: string)
    ensures |r| <= |s| && forall i :: 0 <= i < |r| ==> r[i] == s[i]
    ensures forall i :: 0 <= i < |r| ==> !IsGsmSeparator(r[i])
    ensures |r| < |s| ==> IsGsmSeparator(s[|r|])
  {
    if |s| == 0 || IsGsmSeparator(s[0]) then ""
    else
      var rest := FirstPiece(s[1..]);
      assert s == [s[0]] + s[1..];
      [s[0]] + rest
  }

  /** The gsm text the search uses: with a '/', the trimmed text after the first
      '/', cut at the next separator, when that piece is not empty; the whole
      entry otherwise. */
  function GsmKey(gsm: string): (r: string)
    ensures '/' !in gsm ==> r == gsm
  {
    var k := IndexOf(gsm, '/');
    if k == -1 then gsm else KeyAfter(gsm, k)
  }

  /** The gsm key when the first '/' is at `k`. */
  function KeyAfter(gsm: string, k: int): string
    requires 0 <= k < |gsm|
  {
    var piece := FirstPiece(Trim(gsm[k + 1..]));
    if |piece| > 0 then piece else gsm
  }

  /** `gsmNumeric`: the gsm key read as a Vietnamese number. */
  function GsmNumeric(lib: Lib, gsm: string): real
  {
    ParseVNToNumber(lib, Str(GsmKey(gsm)))
  }

  /** `gsmSearchString`: the gsm key trimmed and lower-cased. */
  function GsmSearch(lib: Lib, gsm: string): (r: string)
    ensures Trim(GsmKey(gsm)) == "" ==> r == ""
  {
    Lower(lib, Trim(GsmKey(gsm)))
  }

  /** Trimming a string takes a slice of it with only white space around it. */
  lemma TrimSlice(s: string) returns (a: nat)
    ensures a + |Trim(s)| <= |s| && Trim(s) == s[a..a + |Trim(s)|]
    ensures forall j :: 0 <= j < a ==> IsSpace(s[j])
    ensures forall j :: a + |Trim(s)| <= j < |s| ==> IsSpace(s[j])
  {
    var t := TrimStart(s);
    a := |s| - |t|;
    TrimEndSlice(s, t, a);
  }

  /** The end trimmed off the rest of `s` after `a` is white space of `s`. */
  lemma TrimEndSlice(s: string, t: string, a: nat)
    requires a <= |s| && t == s[a..]
    ensures |TrimEnd(t)| <= |t| && TrimEnd(t) == s[a..a + |TrimEnd(t)|]
    ensures forall j :: a + |TrimEnd(t)| <= j < |s| ==> IsSpace(s[j])
  {
    var m := |TrimEnd(t)|;
    forall j | a + m <= j < |s| ensures IsSpace(s[j]) {
      assert s[j] == t[j - a];
    }
  }

  /** A piece `r` of `s` found at `i`: only white space before it, and a separator
      or only white space after it. */
  ghost predicate PieceAt(s: string, r: string, i: int)
  {
    OccursAt(s, r, i)
    && (forall j :: 0 <= j < i ==> IsSpace(s[j]))
    && (i + |r| == |s| || IsGsmSeparator(s[i + |r|]) || forall j :: i + |r| <= j < |s| ==> IsSpace(s[j]))
  }

  /** The first piece of the trimmed text is a piece of the text. */
  lemma PieceOfTrim(tail: string) returns (a: nat)
    ensures PieceAt(tail, FirstPiece(Trim(tail)), a)
  {
    var t := Trim(tail);
    a := TrimSlice(tail);
    PieceOfSlice(tail, t, FirstPiece(t), a);
  }

  /** A prefix of a slice `t` of `tail` that has only white space around it, when
      it ends at a separator or at the end of `t`, is a piece of `tail`. */
  lemma PieceOfSlice(tail: string, t: string, piece: string, a: nat)
    requires a + |t| <= |tail| && t == tail[a..a + |t|]
    requires forall j :: 0 <= j < a ==> IsSpace(tail[j])
    requires forall j :: a + |t| <= j < |tail| ==> IsSpace(tail[j])
    requires |piece| <= |t| && forall i :: 0 <= i < |piece| ==> piece[i] == t[i]
    requires |piece| < |t| ==> IsGsmSeparator(t[|piece|])
    ensures PieceAt(tail, piece, a)
  {
    assert tail[a..a + |piece|] == piece by {
      assert forall i :: 0 <= i < |piece| ==> tail[a + i] == t[i];
    }
    if |piece| < |t| {
      assert tail[a + |piece|] == t[|piece|];
    }
  }

  /** A piece of the text after index `k` is a piece of the whole after `k`. */
  lemma PieceShift(gsm: string, k: nat, r: string, a: nat)
    requires k < |gsm| && PieceAt(gsm[k + 1..], r, a)
    ensures OccursAt(gsm, r, k + 1 + a)
    ensures forall j :: k < j < k + 1 + a ==> IsSpace(gsm[j])
    ensures var i := k + 1 + a;
      i + |r| == |gsm| || IsGsmSeparator(gsm[i + |r|]) || forall j :: i + |r| <= j < |gsm| ==> IsSpace(gsm[j])
  {
    var tail := gsm[k + 1..];
    assert forall j :: k < j < |gsm| ==> gsm[j] == tail[j - k - 1];
    assert gsm[k + 1 + a..k + 1 + a + |r|] == tail[a..a + |r|];
  }

  /** `r` occurs at `i`, past the '/' at `k` with only white space in between,
      and ends at a separator, at trailing white space or at the end. */
  ghost predicate KeyPieceAt(gsm: string, k: int, r: string, i: int)
  {
    0 <= k < i && OccursAt(gsm, r, i)
    && (forall j :: k < j < i ==> IsSpace(gsm[j]))
    && (i + |r| == |gsm| || IsGsmSeparator(gsm[i + |r|])
        || forall j :: i + |r| <= j < |gsm| ==> IsSpace(gsm[j]))
  }

  /** After a '/' at `k`, the key is the entry itself, or a non-empty piece
      without separators that follows the '/' with only white space in between,
      and that ends at a separator or at trailing white space. */
  lemma KeyAfterPiece(gsm: string, k: int)
    requires 0 <= k < |gsm|
    ensures var r := KeyAfter(gsm, k);
      r == gsm ||
      (|r| > 0 && (forall j :: 0 <= j < |r| ==> !IsGsmSeparator(r[j]))
       && exists i :: KeyPieceAt(gsm, k, r, i))
  {
    var tail := gsm[k + 1..];
    var piece := FirstPiece(Trim(tail));
    if |piece| > 0 {
      var a := PieceOfTrim(tail);
      PieceShift(gsm, k, piece, a);
      assert KeyPieceAt(gsm, k, piece, k + 1 + a);
    }
  }

  /** With a '/' in the entry, the key is found after the first one. */
  lemma GsmKeyAfterSlash(gsm: string)
    requires '/' in gsm
    ensures 0 <= IndexOf(gsm, '/') < |gsm| && GsmKey(gsm) == KeyAfter(gsm, IndexOf(gsm, '/'))
    ensures gsm[IndexOf(gsm, '/')] == '/' && forall j :: 0 <= j < IndexOf(gsm, '/') ==> gsm[j] != '/'
  {
  }

  // ---------------------------------------------------------------- matching stock

  /** `normalize`: lower-cased and trimmed, '' for ''. */
  function Normalize(lib: Lib, s: string): (r: string)
    ensures s == "" ==> r == ""
  {
    if s == "" then "" else Trim(lib.lower(s))
  }

  /** The filter of `matchingItems` for the normalised type, gsm search text and
      manufacturer (an empty manufacturer selects all). */
  predicate Matches(lib: Lib, item: Item, targetType: string, gsmSearch: string, targetMfg: string)
  {
    Trim(item.pendingOut) == ""
    && Contains(Normalize(lib, item.paperType), targetType)
    && Contains(Normalize(lib, item.gsm), gsmSearch)
    && (targetMfg != "" ==> Contains(Normalize(lib, item.manufacturer), targetMfg))
    && OrZero(item.weight) > 0.0
    && (OrZero(item.width) > 0.0 || OrZero(item.length) > 0.0)
  }

  /** `matchingItems`: nothing without a paper type or gsm search text; otherwise
      the stock not waiting to go out, of the chosen type, gsm and manufacturer,
      with a weight and a size. */
  function MatchingItems(lib: Lib, inventory: seq<Item>, paperType: string, gsmSearch: string,
                         manufacturer: string): (r: seq<Item>)
    ensures paperType == "" || gsmSearch == "" ==> r == []
    ensures forall x :: x in r ==>
      x in inventory && Matches(lib, x, Normalize(lib, paperType), gsmSearch, Normalize(lib, manufacturer))
    ensures paperType != "" && gsmSearch != "" ==>
      forall i :: 0 <= i < |inventory|
        && Matches(lib, inventory[i], Normalize(lib, paperType), gsmSearch, Normalize(lib, manufacturer))
        ==> inventory[i] in r
  {
    if paperType == "" || gsmSearch == "" then []
    else
      var targetType, targetMfg := Normalize(lib, paperType), Normalize(lib, manufacturer);
      Seqs.Filter(inventory, (item: Item) => Matches(lib, item, targetType, gsmSearch, targetMfg))
  }

  /** Every matching item is a roll with a weight, a size, and no pending issue. */
  lemma MatchingRollsUsable(lib: Lib, inventory: seq<Item>, paperType: string, gsmSearch: string,
                            manufacturer: string, x: Item)
    requires x in MatchingItems(lib, inventory, paperType, gsmSearch, manufacturer)
    ensures paperType != "" && gsmSearch != ""
    ensures Trim(x.pendingOut) == "" && OrZero(x.weight) > 0.0
    ensures OrZero(x.width) > 0.0 || OrZero(x.length) > 0.0
  {
  }

  /** The matching items keep the inventory's order. */
  lemma MatchingKeepsOrder(lib: Lib, inventory: seq<Item>, paperType: string, gsmSearch: string,
                           manufacturer: string)
    ensures Seqs.IsSubseq(MatchingItems(lib, inventory, paperType, gsmSearch, manufacturer), inventory)
  {
    if paperType != "" && gsmSearch != "" {
      var targetType, targetMfg := Normalize(lib, paperType), Normalize(lib, manufacturer);
      Seqs.FilterIsSubseq(inventory, (item: Item) => Matches(lib, item, targetType, gsmSearch, targetMfg));
    }
  }

  // ---------------------------------------------------------------- stock sizes

  /** `Number(i.length) || 0`. */
  function LengthOf(item: Item): real
  {
    OrZero(item.length)
  }

  function Ascending(a: real, b: real): int
  {
    Sign(a - b)
  }

  function Identity(x: real): real { x }

  predicate Positive(x: real) { x > 0.0 }

  /** `foundStockSizes`: the distinct positive lengths, sorted by `a - b`. */
  function StockSizes(matching: seq<Item>): seq<real>
  {
    Seqs.Sort(Seqs.Filter(Seqs.Distinct(Seqs.Map(matching, LengthOf)), Positive), Ascending)
  }

  /** The stock sizes are exactly the positive lengths of the matching items, in
      strictly ascending order. */
  lemma StockSizesAscending(matching: seq<Item>)
    ensures var r := StockSizes(matching);
      (forall i, j :: 0 <= i < j < |r| ==> r[i] < r[j])
      && (forall x :: x in r <==> x > 0.0 && exists item :: item in matching && LengthOf(item) == x)
  {
    var lengths := Seqs.Map(matching, LengthOf);
    var d := Seqs.Distinct(lengths);
    var f := Seqs.Filter(d, Positive);
    var r := Seqs.Sort(f, Ascending);
    Seqs.FilterNoDuplicates(d, Positive);
    assert Seqs.UniqueBy(f, Identity);
    Seqs.UniqueByPermutation(r, f, Identity);
    Seqs.SortRank(f, Ascending, Identity);
    forall i, j | 0 <= i < j < |r| ensures r[i] < r[j] {
      assert Identity(r[i]) <= Identity(r[j]) && Identity(r[i]) != Identity(r[j]);
    }
    forall x ensures x in r <==> x > 0.0 && exists item :: item in matching && LengthOf(item) == x {
      assert x in r <==> x in multiset(f);
      if x > 0.0 && exists item :: item in matching && LengthOf(item) == x {
        var item :| item in matching && LengthOf(item) == x;
        var i :| 0 <= i < |matching| && matching[i] == item;
        assert lengths[i] == x;
        assert x in d;
        var m :| 0 <= m < |d| && d[m] == x;
      }
      if x in f {
        assert x in lengths;
        var i :| 0 <= i < |lengths| && lengths[i] == x;
        assert matching[i] in matching;
      }
    }
  }

  // ---------------------------------------------------------------- gsm options

  /** `a.replace(',', '.')`: the first ',' only. */
  function FirstCommaToDot(s: string): string
  {
    var k := IndexOf(s, ',');
    if k == -1 then s else s[..k] + "." + s[k + 1..]
  }

  /** The numeric reading of a gsm option in the ordering of `availableGsms`. */
  function GsmValue(lib: Lib, g: string): Num
  {
    lib.parseFloat(FirstCommaToDot(g))
  }

  /** A comparator that orders by `value` when both sides have one, and by
      `fallback` otherwise. */
  function NumericFirst<T>(value: T -> Num, fallback: (T, T) -> int): (T, T) -> int
  {
    (a: T, b: T) =>
      if value(a).Fin? && value(b).Fin? then Sign(value(a).val - value(b).val) else fallback(a, b)
  }

  /** The comparator of `availableGsms`: numeric when both parse, otherwise
      `localeCompare`. */
  function GsmOrder(lib: Lib): (string, string) -> int
  {
    NumericFirst((g: string) => GsmValue(lib, g), lib.localeCompare)
  }

  /** Whether an item's gsm is offered for the lower-cased, trimmed type and
      manufacturer: the item's type and manufacturer are only lower-cased. */
  predicate OffersGsm(lib: Lib, item: Item, normalizedType: string, targetMfg: string)
  {
    Contains(Lower(lib, item.paperType), normalizedType)
    && (targetMfg != "" ==> Contains(Lower(lib, item.manufacturer), targetMfg))
    && Trim(item.gsm) != ""
  }

  /** `Trim(item.gsm)`. */
  function GsmOf(item: Item): string
  {
    Trim(item.gsm)
  }

  /** The trimmed gsm of every item that `offers` one, in inventory order. */
  function GsmCandidates(items: seq<Item>, offers: Item -> bool): seq<string>
  {
    Seqs.Collect(items, offers, GsmOf)
  }

  function OptionType(lib: Lib, paperType: string): string
  {
    Trim(Lower(lib, paperType))
  }

  function OptionManufacturer(lib: Lib, manufacturer: string): string
  {
    if manufacturer != "" then Trim(Lower(lib, manufacturer)) else ""
  }

  /** The items `availableGsms` takes a gsm value from, for the chosen type and
      manufacturer. */
  function Offering(lib: Lib, paperType: string, manufacturer: string): Item -> bool
  {
    var normalizedType, targetMfg := OptionType(lib, paperType), OptionManufacturer(lib, manufacturer);
    (item: Item) => OffersGsm(lib, item, normalizedType, targetMfg)
  }

  /** `availableGsms`: nothing without a paper type, otherwise the distinct offered
      gsm values, sorted. */
  function GsmOptions(lib: Lib, inventory: seq<Item>, paperType: string, manufacturer: string)
    : seq<string>
  {
    if paperType == "" then []
    else
      var unique := Seqs.Distinct(GsmCandidates(inventory, Offering(lib, paperType, manufacturer)));
      Seqs.Sort(unique, GsmOrder(lib))
  }

  function Same(s: string): string { s }

  /** The gsm options are distinct, non-blank, and exactly the trimmed gsm values
      of the items whose lower-cased type contains the chosen type and, when one is
      chosen, whose manufacturer contains the chosen manufacturer. */
  lemma GsmOptionsContents(lib: Lib, inventory: seq<Item>, paperType: string, manufacturer: string,
                           g: string)
    ensures var r := GsmOptions(lib, inventory, paperType, manufacturer);
      Seqs.NoDuplicates(r)
      && (paperType == "" ==> r == [])
      && (g in r <==>
            (paperType != "" &&
             exists i :: 0 <= i < |inventory| && Offering(lib, paperType, manufacturer)(inventory[i])
                         && GsmOf(inventory[i]) == g))
      && (g in r ==> Trim(g) == g && g != "")
  {
    if paperType != "" {
      var offers := Offering(lib, paperType, manufacturer);
      var c := GsmCandidates(inventory, offers);
      var unique := Seqs.Distinct(c);
      var r := Seqs.Sort(unique, GsmOrder(lib));
      assert Seqs.UniqueBy(unique, Same);
      Seqs.UniqueByPermutation(r, unique, Same);
      assert forall i, j :: 0 <= i < j < |r| ==> Same(r[i]) != Same(r[j]);
      assert g in r <==> g in multiset(unique);
      Seqs.CollectMembers(inventory, offers, GsmOf, g);
      if g in c {
        var i :| 0 <= i < |inventory| && offers(inventory[i]) && GsmOf(inventory[i]) == g;
        TrimTrim(inventory[i].gsm);
      }
    }
  }

  /** When every offered gsm value reads as a number, the options ascend by value. */
  lemma GsmOptionsNumeric(lib: Lib, inventory: seq<Item>, paperType: string, manufacturer: string)
    requires forall g :: g in GsmOptions(lib, inventory, paperType, manufacturer) ==> GsmValue(lib, g).Fin?
    ensures Seqs.RankSorted(GsmOptions(lib, inventory, paperType, manufacturer),
                            (g: string) => OrZero(GsmValue(lib, g)))
  {
    if paperType != "" {
      var unique := Seqs.Distinct(GsmCandidates(inventory, Offering(lib, paperType, manufacturer)));
      var r := Seqs.Sort(unique, GsmOrder(lib));
      var rank := (g: string) => OrZero(GsmValue(lib, g));
      forall g | g in unique ensures GsmValue(lib, g).Fin? {
        assert g in multiset(r);
      }
      NumericFirstRespectsRank(unique, (g: string) => GsmValue(lib, g), lib.localeCompare);
      Seqs.SortRank(unique, GsmOrder(lib), rank);
    }
  }

  /** On values that all have a number, the comparator orders by it. */
  lemma NumericFirstRespectsRank<T>(s: seq<T>, value: T -> Num, fallback: (T, T) -> int)
    requires forall x :: x in s ==> value(x).Fin?
    ensures Seqs.RespectsRank(s, NumericFirst(value, fallback), (x: T) => OrZero(value(x)))
  {
    var rank := (x: T) => OrZero(value(x));
    forall a, b | a in s && b in s
      ensures (rank(a) < rank(b) ==> NumericFirst(value, fallback)(a, b) < 0)
           && (rank(a) > rank(b) ==> NumericFirst(value, fallback)(a, b) > 0)
    {
      assert NumericFirst(value, fallback)(a, b) == Sign(value(a).val - value(b).val);
    }
  }

  /** The test the `forEach` of `availableGsms` puts each item to. */
  method ItemOffersGsm(lib: Lib, item: Item, normalizedType: string, targetMfg: string)
    returns (adds: bool)
    ensures adds == OffersGsm(lib, item, normalizedType, targetMfg)
  {
    var itemType := if item.paperType != "" then lib.lower(item.paperType) else "";
    var isMfgMatch := true;
    if targetMfg != "" {
      var itemMfg := if item.manufacturer != "" then lib.lower(item.manufacturer) else "";
      isMfgMatch := Contains(itemMfg, targetMfg);
    }
    adds := Contains(itemType, normalizedType) && isMfgMatch && item.gsm != "" && Trim(item.gsm) != "";
    assert item.gsm == "" ==> Trim(item.gsm) == "";
  }

  /** The `forEach` that fills the `Set` of gsm values, and the sort. */
  method AvailableGsms(lib: Lib, inventory: seq<Item>, paperType: string, manufacturer: string)
    returns (options: seq<string>)
    ensures options == GsmOptions(lib, inventory, paperType, manufacturer)
  {
    if paperType == "" {
      return [];
    }
    ghost var offers := Offering(lib, paperType, manufacturer);
    var normalizedType := Trim(Lower(lib, paperType));
    var targetMfg := if manufacturer != "" then Trim(Lower(lib, manufacturer)) else "";
    var uniqueGsms: seq<string> := [];
    var i := 0;
    while i < |inventory|
      invariant 0 <= i <= |inventory|
      invariant uniqueGsms == Seqs.Distinct(GsmCandidates(inventory[..i], offers))
    {
      var item := inventory[i];
      Seqs.DistinctCollectStep(inventory, i, offers, GsmOf);
      var adds := ItemOffersGsm(lib, item, normalizedType, targetMfg);
      if adds {
        var g := Trim(item.gsm);
        if g !in uniqueGsms {
          uniqueGsms := uniqueGsms + [g];
        }
      }
      i := i + 1;
    }
    assert inventory[..i] == inventory;
    options := Seqs.Sort(uniqueGsms, GsmOrder(lib));
  }

  // ---------------------------------------------------------------- grouping by size

  /** The size a roll is grouped under: the key `${w}_${l}`, with `w` and `l` the
      width and length or 0. */
  datatype Size = Size(width: real, length: real)

  /** One entry of `groupedInventory`. */
  datatype SizeGroup = SizeGroup(width: real, length: real, totalWeight: real, items: seq<Roll>,
                                 count: nat, gsm: string)

  function SizeOf(item: Item): Size
  {
    Size(OrZero(item.width), OrZero(item.length))
  }

  /** `{ sku: item.sku, weight: item.weight || 0 }`. */
  function RollOf(item: Item): Roll
  {
    Roll(item.sku, OrZero(item.weight))
  }

  function GsmField(item: Item): string { item.gsm }

  function HasSize(size: Size): Item -> bool
  {
    (item: Item) => SizeOf(item) == size
  }

  function Always(item: Item): bool { true }

  /** The sizes of the groups: every size met, in order of first appearance. */
  function Sizes(items: seq<Item>): seq<Size>
  {
    Seqs.Distinct(Seqs.Collect(items, Always, SizeOf))
  }

  /** The rolls of one size, in order. */
  function Members(items: seq<Item>, size: Size): seq<Roll>
  {
    Seqs.Collect(items, HasSize(size), RollOf)
  }

  /** The group of one size: its rolls, their number and total weight, and the
      gsm text of the first of them. */
  function GroupFor(items: seq<Item>, size: Size): SizeGroup
  {
    var members := Members(items, size);
    var gsms := Seqs.Collect(items, HasSize(size), GsmField);
    SizeGroup(size.width, size.length, Seqs.Sum(members, Weight), members, |members|,
              if |gsms| > 0 then gsms[0] else "")
  }

  /** `Object.values(groupedInventory)`: one group per size, in order of first
      appearance. */
  function Groups(items: seq<Item>): seq<SizeGroup>
  {
    Seqs.Map(Sizes(items), (size: Size) => GroupFor(items, size))
  }

  /** A size not met yet has an empty group. */
  lemma GroupForAbsent(items: seq<Item>, size: Size)
    requires size !in Sizes(items)
    ensures GroupFor(items, size) == SizeGroup(size.width, size.length, 0.0, [], 0, "")
  {
    Seqs.CollectMembers(items, Always, SizeOf, size);
    forall i | 0 <= i < |items| ensures !HasSize(size)(items[i]) {
      assert Always(items[i]);
    }
    CollectNone(items, HasSize(size), RollOf);
    CollectNone(items, HasSize(size), GsmField);
  }

  /** Nothing passes, nothing is collected. */
  lemma {:induction false} CollectNone<U>(items: seq<Item>, p: Item -> bool, f: Item -> U)
    requires forall i :: 0 <= i < |items| ==> !p(items[i])
    ensures Seqs.Collect(items, p, f) == []
    decreases |items|
  {
    if |items| > 0 {
      var init := items[..|items| - 1];
      assert forall i :: 0 <= i < |init| ==> init[i] == items[i];
      CollectNone(init, p, f);
    }
  }

  /** The group of `size` after one more item: the item joins it when it has
      that size, and the group is left alone otherwise. */
  lemma GroupForStep(items: seq<Item>, i: int, size: Size)
    requires 0 <= i < |items|
    ensures var g, x := GroupFor(items[..i], size), items[i];
      GroupFor(items[..i + 1], size)
        == if SizeOf(x) == size
           then SizeGroup(g.width, g.length, g.totalWeight + OrZero(x.weight), g.items + [RollOf(x)],
                          g.count + 1, if g.count == 0 then x.gsm else g.gsm)
           else g
  {
    var p := HasSize(size);
    Seqs.CollectStep(items, i, p, RollOf);
    Seqs.CollectStep(items, i, p, GsmField);
    var members := Members(items[..i], size);
    var gsms := Seqs.Collect(items[..i], p, GsmField);
    CollectSameLength(items[..i], p, RollOf, GsmField);
    if p(items[i]) {
      assert (members + [RollOf(items[i])])[..|members|] == members;
      if |gsms| > 0 {
        assert (gsms + [items[i].gsm])[0] == gsms[0];
      }
    } else {
      assert members + [] == members;
      assert gsms + [] == gsms;
    }
  }

  /** Collecting two things from the same elements collects as many of each. */
  lemma {:induction false} CollectSameLength<U, V>(items: seq<Item>, p: Item -> bool, f: Item -> U,
                                                   h: Item -> V)
    ensures |Seqs.Collect(items, p, f)| == |Seqs.Collect(items, p, h)|
    decreases |items|
  {
    if |items| > 0 {
      CollectSameLength(items[..|items| - 1], p, f, h);
    }
  }

  /** One step of the `forEach`: create the entry of a new size, then add the item
      to the entry of its size. */
  function AddToGroups(grouped: map<Size, SizeGroup>, item: Item): (r: map<Size, SizeGroup>)
    ensures r.Keys == grouped.Keys + {SizeOf(item)}
  {
    var key := SizeOf(item);
    var created := if key !in grouped then grouped[key := SizeGroup(key.width, key.length, 0.0, [], 0, item.gsm)]
                   else grouped;
    var entry := created[key];
    created[key := SizeGroup(entry.width, entry.length, entry.totalWeight + OrZero(item.weight),
                             entry.items + [RollOf(item)], entry.count + 1, entry.gsm)]
  }

  /** The key order after one step lists the distinct sizes of the first `i + 1` items. */
  lemma GroupedOrderStep(matching: seq<Item>, i: int, grouped: map<Size, SizeGroup>, order: seq<Size>)
    requires 0 <= i < |matching| && order == Sizes(matching[..i])
    requires forall size :: size in grouped <==> size in order
    ensures (if SizeOf(matching[i]) in grouped then order else order + [SizeOf(matching[i])])
            == Sizes(matching[..i + 1])
  {
    Seqs.DistinctCollectStep(matching, i, Always, SizeOf);
  }

  /** After one step the map is keyed by exactly the sizes in the key order. */
  lemma GroupedKeysStep(grouped: map<Size, SizeGroup>, order: seq<Size>, item: Item)
    requires forall size :: size in grouped <==> size in order
    ensures var next := AddToGroups(grouped, item);
      var order' := if SizeOf(item) in grouped then order else order + [SizeOf(item)];
      forall size :: size in next <==> size in order'
  {
    var key := SizeOf(item);
    var order' := if key in grouped then order else order + [key];
    assert forall size :: size in order' <==> size in order || size == key;
  }

  /** Each entry after the step is the group of its size among the first `i + 1`
      items. */
  lemma GroupedValuesStep(matching: seq<Item>, i: int, grouped: map<Size, SizeGroup>)
    requires 0 <= i < |matching|
    requires forall size :: size in grouped <==> size in Sizes(matching[..i])
    requires forall size :: size in grouped ==> grouped[size] == GroupFor(matching[..i], size)
    ensures var next := AddToGroups(grouped, matching[i]);
      forall size :: size in next ==> next[size] == GroupFor(matching[..i + 1], size)
  {
    var key := SizeOf(matching[i]);
    var next := AddToGroups(grouped, matching[i]);
    forall size | size in next ensures next[size] == GroupFor(matching[..i + 1], size) {
      if size == key {
        KeyGroupStep(matching, i, grouped);
      } else {
        assert next[size] == grouped[size];
        GroupForStep(matching, i, size);
      }
    }
  }

  /** The group the item joins. */
  lemma KeyGroupStep(matching: seq<Item>, i: int, grouped: map<Size, SizeGroup>)
    requires 0 <= i < |matching|
    requires var key := SizeOf(matching[i]);
      (key in grouped ==> grouped[key] == GroupFor(matching[..i], key) && key in Sizes(matching[..i]))
      && (key !in grouped ==> key !in Sizes(matching[..i]))
    ensures AddToGroups(grouped, matching[i])[SizeOf(matching[i])] == GroupFor(matching[..i + 1], SizeOf(matching[i]))
  {
    var key := SizeOf(matching[i]);
    GroupForStep(matching, i, key);
    if key in grouped {
      GroupForPresent(matching[..i], key);
    } else {
      GroupForAbsent(matching[..i], key);
    }
  }

  /** A size met already has a group with at least one roll. */
  lemma GroupForPresent(items: seq<Item>, size: Size)
    requires size in Sizes(items)
    ensures GroupFor(items, size).count > 0
  {
    Seqs.CollectMembers(items, Always, SizeOf, size);
    var i :| 0 <= i < |items| && Always(items[i]) && SizeOf(items[i]) == size;
    Seqs.CollectMembers(items, HasSize(size), RollOf, RollOf(items[i]));
  }

  /** The body of the `forEach` that fills `groupedInventory`, for one item. */
  method AddItem(grouped: map<Size, SizeGroup>, order: seq<Size>, item: Item)
    returns (grouped': map<Size, SizeGroup>, order': seq<Size>)
    ensures grouped' == AddToGroups(grouped, item)
    ensures order' == if SizeOf(item) in grouped then order else order + [SizeOf(item)]
  {
    var w := OrZero(item.width);
    var l := OrZero(item.length);
    var key := Size(w, l);
    var weight := OrZero(item.weight);
    grouped', order' := grouped, order;
    if key !in grouped' {
      grouped' := grouped'[key := SizeGroup(w, l, 0.0, [], 0, item.gsm)];
      order' := order' + [key];
    }
    var entry := grouped'[key];
    grouped' := grouped'[key := SizeGroup(entry.width, entry.length, entry.totalWeight + weight,
                                          entry.items + [RollOf(item)], entry.count + 1, entry.gsm)];
  }

  /** The `forEach` that fills `groupedInventory`, then `Object.values`. */
  method GroupInventory(matching: seq<Item>) returns (groups: seq<SizeGroup>)
    ensures groups == Groups(matching)
  {
    var grouped: map<Size, SizeGroup> := map[];
    var order: seq<Size> := [];
    var i := 0;
    while i < |matching|
      invariant 0 <= i <= |matching|
      // `groupedInventory` and its key order hold the groups of the first `i` items
      invariant order == Sizes(matching[..i])
      invariant forall size :: size in grouped <==> size in order
      invariant forall size :: size in grouped ==> grouped[size] == GroupFor(matching[..i], size)
    {
      var grouped', order' := AddItem(grouped, order, matching[i]);
      GroupedOrderStep(matching, i, grouped, order);
      GroupedKeysStep(grouped, order, matching[i]);
      GroupedValuesStep(matching, i, grouped);
      grouped, order := grouped', order';
      i := i + 1;
    }
    assert matching[..i] == matching;
    groups := seq(|order|, j requires 0 <= j < |order| => grouped[order[j]]);
  }

  /** The size a group is keyed by. */
  function KeyOf(g: SizeGroup): Size
  {
    Size(g.width, g.length)
  }

  /** The groups partition the matching rolls by size: no two groups share a size,
      and every roll lies in the group of its size. */
  lemma GroupsPartition(items: seq<Item>, i: int)
    requires 0 <= i < |items|
    ensures var gs := Groups(items);
      (forall j, k :: 0 <= j < k < |gs| ==> KeyOf(gs[j]) != KeyOf(gs[k]))
      && exists j :: 0 <= j < |gs| && KeyOf(gs[j]) == SizeOf(items[i]) && RollOf(items[i]) in gs[j].items
  {
    var sizes := Sizes(items);
    var gs := Groups(items);
    assert forall j :: 0 <= j < |gs| ==> KeyOf(gs[j]) == sizes[j];
    var size := SizeOf(items[i]);
    Seqs.CollectMembers(items, Always, SizeOf, size);
    var j :| 0 <= j < |sizes| && sizes[j] == size;
    Seqs.CollectMembers(items, HasSize(size), RollOf, RollOf(items[i]));
    assert gs[j] == GroupFor(items, size);
  }

  /** Every group holds at least one roll, counts its rolls and weighs their
      total. */
  lemma GroupTotals(items: seq<Item>, j: int)
    requires 0 <= j < |Groups(items)|
    ensures var g := Groups(items)[j];
      g.count == |g.items| > 0 && g.totalWeight == Seqs.Sum(g.items, Weight)
  {
    var size := Sizes(items)[j];
    assert Groups(items)[j] == GroupFor(items, size);
    GroupForPresent(items, size);
  }

  /** A group holds exactly the rolls of the matching items of its size. */
  lemma GroupMembers(items: seq<Item>, j: int, r: Roll)
    requires 0 <= j < |Groups(items)|
    ensures var g := Groups(items)[j];
      r in g.items <==> exists i :: 0 <= i < |items| && SizeOf(items[i]) == KeyOf(g) && RollOf(items[i]) == r
  {
    var size := Sizes(items)[j];
    assert Groups(items)[j] == GroupFor(items, size);
    Seqs.CollectMembers(items, HasSize(size), RollOf, r);
  }
}
