/** One cutting scenario of the paper calculator (utils/paperCalculationLogic.ts):
    how many strips one stock dimension yields, how much paper the order needs,
    which rolls of a stock group supply it, and how the option is scored. Numbers
    are exact reals. The caller's `resultsArr` is a sequence handed in and handed
    back with at most one result appended. */
module PaperCalculation {
  import opened Js
  import Seqs
  import Text

  /** A roll of the group: `{ sku, weight }`, the weight in kg. */
  datatype Roll = Roll(sku: string, weight: real)

  /** The rolls of one stock size. */
  datatype Group = Group(items: seq<Roll>, count: int, totalWeight: real)

  /** Which stock dimension the strips are cut across. */
  datatype DimensionSource = Width | Length

  datatype Status = Optimal | Good | Acceptable | Warning

  /** `CalculationResult`. */
  datatype CalculationResult = CalculationResult(
    rollSkuDisplay: string,
    selectedRolls: seq<Roll>,
    rollCount: int,
    rollTotalWeight: real,
    rollsNeeded: nat,
    rollsNeededWeight: real,
    stockDimensionUsed: real,
    dimensionSource: DimensionSource,
    isRotated: bool,
    cutsPerWidth: int,
    trimWasteCm: real,
    trimWastePercent: real,
    trimWasteKg: real,
    usedWeight: real,
    leftoverWeight: real,
    requiredLengthM: real,
    score: real,
    status: Status)

  /** Rolls lighter than this are odd rolls. */
  const OddRollLimit: real := 300.0

  /** How many of the lightest odd rolls are always taken. */
  const MandatoryCount: nat := 2

  /** Selected weight within this of the demand counts as enough. */
  const Tolerance: real := 0.5

  /** `currentWeight < usedKg - 0.5`: the rolls taken fall short of the weight used. */
  predicate FallsShort(selection: seq<Roll>, used: real)
  {
    Seqs.Sum(selection, Weight) < used - Tolerance
  }

  function Weight(r: Roll): real { r.weight }

  function Sku(r: Roll): string { r.sku }

  // ---------------------------------------------------------------- cutting

  /** `Math.floor(stockDim / cutDimAcross)`: the most strips that fit, at least one
      when one fits. */
  function Cuts(stockDim: real, cutDim: real): (r: int)
    requires 0.0 < cutDim <= stockDim
    ensures r >= 1
  {
    FloorFits(stockDim, cutDim);
    (stockDim / cutDim).Floor
  }

  /** `cuts` strips fit across the stock, and one more does not. */
  lemma CutsFit(stockDim: real, cutDim: real)
    requires 0.0 < cutDim <= stockDim
    ensures var r := Cuts(stockDim, cutDim);
      r as real * cutDim <= stockDim < (r + 1) as real * cutDim
  {
    FloorFits(stockDim, cutDim);
  }

  lemma FloorFits(stockDim: real, cutDim: real)
    requires 0.0 < cutDim <= stockDim
    ensures var f := (stockDim / cutDim).Floor;
      f >= 1 && f as real * cutDim <= stockDim < (f + 1) as real * cutDim
  {
    FloorBelow(stockDim, cutDim);
    FloorAbove(stockDim, cutDim);
    var x := stockDim / cutDim;
    assert x * cutDim == stockDim;
    if x < 1.0 {
      MulLt(x, 1.0, cutDim);
    }
  }

  lemma FloorBelow(stockDim: real, cutDim: real)
    requires 0.0 < cutDim
    ensures (stockDim / cutDim).Floor as real * cutDim <= stockDim
  {
    var x := stockDim / cutDim;
    var lo := x.Floor as real;
    assert lo <= x;
    MulLe(lo, x, cutDim);
    assert x * cutDim == stockDim;
  }

  lemma FloorAbove(stockDim: real, cutDim: real)
    requires 0.0 < cutDim
    ensures stockDim < ((stockDim / cutDim).Floor + 1) as real * cutDim
  {
    var x := stockDim / cutDim;
    var hi := (x.Floor + 1) as real;
    assert x < hi;
    MulLt(x, hi, cutDim);
    assert x * cutDim == stockDim;
  }

  lemma MulLe(a: real, b: real, c: real)
    requires a <= b && c > 0.0
    ensures a * c <= b * c
  {
  }

  lemma MulLt(a: real, b: real, c: real)
    requires a < b && c > 0.0
    ensures a * c < b * c
  {
  }

  /** The margin left over across the stock: never negative, and less than one
      more strip. */
  function TrimWaste(stockDim: real, cutDim: real): (r: real)
    requires 0.0 < cutDim <= stockDim
    ensures 0.0 <= r < cutDim
  {
    CutsFit(stockDim, cutDim);
    stockDim - Cuts(stockDim, cutDim) as real * cutDim
  }

  /** `Math.ceil(totalQty / cuts)`: just enough rows for the sheets ordered. */
  function RowsNeeded(totalQty: real, cuts: int): int
    requires cuts >= 1
  {
    Ceil(totalQty / cuts as real)
  }

  /** The rows needed hold the quantity ordered, and one row fewer does not. */
  lemma RowsCover(totalQty: real, cuts: int)
    requires cuts >= 1
    ensures var r := RowsNeeded(totalQty, cuts);
      r as real * cuts as real >= totalQty && (r - 1) as real * cuts as real < totalQty
  {
    CeilCovers(totalQty, cuts as real);
    CeilTight(totalQty, cuts as real);
  }

  lemma CeilCovers(q: real, n: real)
    requires n > 0.0
    ensures Ceil(q / n) as real * n >= q
  {
    var x := q / n;
    var c := Ceil(x) as real;
    assert x <= c;
    MulLe(x, c, n);
    assert x * n == q;
  }

  lemma CeilTight(q: real, n: real)
    requires n > 0.0
    ensures (Ceil(q / n) - 1) as real * n < q
  {
    var x := q / n;
    var c := (Ceil(x) - 1) as real;
    assert c < x;
    MulLt(c, x, n);
    assert x * n == q;
  }

  /** `usedKg`: the paper needed, in kg, for a length in metres of stock
      `stockDim` cm across, at `gsm` grams per square metre. */
  function UsedWeight(requiredLength: real, stockDim: real, gsm: real): real
  {
    requiredLength * (stockDim / 100.0) * (gsm / 1000.0)
  }

  /** `totalRequiredLengthM`: the rows needed times the cut length in metres,
      with the waste percentage added. */
  function RequiredLength(stockDim: real, cutAcross: real, cutAlong: real, totalQty: real,
                          wastePct: real): real
    requires 0.0 < cutAcross <= stockDim
  {
    var rows := RowsNeeded(totalQty, Cuts(stockDim, cutAcross));
    rows as real * (cutAlong / 100.0) * (1.0 + wastePct / 100.0)
  }

  // ---------------------------------------------------------------- roll selection

  predicate IsOdd(r: Roll) { r.weight < OddRollLimit }

  /** `(a, b) => a.weight - b.weight`. */
  function ByWeight(a: Roll, b: Roll): int { Sign(a.weight - b.weight) }

  /** `[...rolls].sort(ByWeight)`: the same rolls, lightest first. */
  function SortByWeight(rolls: seq<Roll>): (r: seq<Roll>)
    ensures multiset(r) == multiset(rolls)
    ensures Seqs.RankSorted(r, Weight)
  {
    Seqs.SortRank(rolls, ByWeight, Weight);
    Seqs.Sort(rolls, ByWeight)
  }

  /** `oddRolls.slice(0, 2)`: the first two odd rolls of the sorted list, or all
      of them when there are fewer. */
  function Mandatory(sorted: seq<Roll>): (r: seq<Roll>)
    ensures |r| <= MandatoryCount && |r| <= |Seqs.Filter(sorted, IsOdd)|
    ensures r == Seqs.Filter(sorted, IsOdd)[..|r|]
    ensures |r| == MandatoryCount || |r| == |Seqs.Filter(sorted, IsOdd)|
  {
    var odd := Seqs.Filter(sorted, IsOdd);
    if |odd| <= MandatoryCount then odd else odd[..MandatoryCount]
  }

  /** `r => !selectedSkus.has(r.sku)`. */
  function NotChosen(chosen: seq<Roll>): Roll -> bool
  {
    (r: Roll) => r.sku !in Seqs.Map(chosen, Sku)
  }

  /** `remainingPool`: the sorted rolls whose sku is not already chosen. */
  function Pool(sorted: seq<Roll>, chosen: seq<Roll>): seq<Roll>
  {
    Seqs.Filter(sorted, NotChosen(chosen))
  }

  /** The filling loop as a function: take rolls from the front of `rest` until
      the chosen weight reaches `target` or the rolls run out. */
  function Fill(chosen: seq<Roll>, rest: seq<Roll>, target: real): seq<Roll>
    decreases |rest|
  {
    if |rest| == 0 || Seqs.Sum(chosen, Weight) >= target then chosen
    else Fill(chosen + [rest[0]], rest[1..], target)
  }

  /** Filling extends the chosen rolls by a prefix of the pool; it stops early
      only once the weight is enough, and never takes a roll it did not need. */
  lemma {:induction false} FillStops(chosen: seq<Roll>, rest: seq<Roll>, target: real)
    ensures var r := Fill(chosen, rest, target);
      |chosen| <= |r| <= |chosen| + |rest| && r == chosen + rest[..|r| - |chosen|]
    ensures var r := Fill(chosen, rest, target);
      |r| < |chosen| + |rest| ==> Seqs.Sum(r, Weight) >= target
    ensures var r := Fill(chosen, rest, target);
      |r| > |chosen| ==> Seqs.Sum(r[..|r| - 1], Weight) < target
    decreases |rest|
  {
    if |rest| > 0 && Seqs.Sum(chosen, Weight) < target {
      var next := chosen + [rest[0]];
      FillStops(next, rest[1..], target);
      var r := Fill(next, rest[1..], target);
      assert Fill(chosen, rest, target) == r;
      assert r == next + rest[1..][..|r| - |next|];
      assert rest[..|r| - |chosen|] == [rest[0]] + rest[1..][..|r| - |next|];
      if |r| == |next| {
        assert r[..|r| - 1] == chosen;
      }
    }
  }

  /** The rolls a scenario takes before the final sort. */
  function Selection(items: seq<Roll>, target: real): seq<Roll>
  {
    var sorted := SortByWeight(items);
    var mandatory := Mandatory(sorted);
    Fill(mandatory, Pool(sorted, mandatory), target)
  }

  /** The mandatory rolls are the lightest odd rolls of the group: no other odd
      roll weighs less than any of them. */
  lemma MandatoryLightest(items: seq<Roll>, m: Roll, x: Roll)
    requires m in Mandatory(SortByWeight(items))
    requires x in items && IsOdd(x) && x !in Mandatory(SortByWeight(items))
    ensures m.weight <= x.weight
  {
    var sorted := SortByWeight(items);
    var odd := Seqs.Filter(sorted, IsOdd);
    var mandatory := Mandatory(sorted);
    Seqs.FilterRankSorted(sorted, IsOdd, Weight);
    assert x in multiset(sorted);
    var k :| 0 <= k < |sorted| && sorted[k] == x;
    assert IsOdd(sorted[k]);
    PrefixLightest(odd, |mandatory|, m, x);
  }

  /** In a list sorted by weight, what a prefix holds weighs no more than what
      lies outside it. */
  lemma PrefixLightest(rolls: seq<Roll>, n: nat, m: Roll, x: Roll)
    requires n <= |rolls| && Seqs.RankSorted(rolls, Weight)
    requires m in rolls[..n] && x in rolls && x !in rolls[..n]
    ensures m.weight <= x.weight
  {
    var j :| 0 <= j < |rolls| && rolls[j] == x;
    var i :| 0 <= i < n && rolls[..n][i] == m;
    assert rolls[i] == m;
    assert j >= n;
    assert Weight(rolls[i]) <= Weight(rolls[j]);
  }

  /** With distinct skus in the group, no roll is picked twice. */
  lemma SelectionUnique(items: seq<Roll>, target: real)
    requires Seqs.UniqueBy(items, Sku)
    ensures Seqs.UniqueBy(Selection(items, target), Sku)
  {
    var sorted := SortByWeight(items);
    var mandatory := Mandatory(sorted);
    var pool := Pool(sorted, mandatory);
    Seqs.UniqueByPermutation(sorted, items, Sku);
    assert Seqs.UniqueBy(mandatory, Sku) by {
      Seqs.FilterUniqueBy(sorted, IsOdd, Sku);
    }
    FillStops(mandatory, pool, target);
    var taken := pool[..|Selection(items, target)| - |mandatory|];
    assert Seqs.UniqueBy(taken, Sku) by {
      Seqs.FilterUniqueBy(sorted, NotChosen(mandatory), Sku);
    }
    forall y, z | y in mandatory && z in taken ensures y.sku != z.sku {
      PoolApart(sorted, mandatory, y, z);
    }
    UniqueByAppend(mandatory, taken);
  }

  /** No roll of the pool shares a sku with a chosen roll. */
  lemma PoolApart(sorted: seq<Roll>, chosen: seq<Roll>, y: Roll, z: Roll)
    requires y in chosen && z in Pool(sorted, chosen)
    ensures y.sku != z.sku
  {
    assert NotChosen(chosen)(z);
    var i :| 0 <= i < |chosen| && chosen[i] == y;
    assert Seqs.Map(chosen, Sku)[i] == y.sku;
  }

  lemma UniqueByAppend(a: seq<Roll>, b: seq<Roll>)
    requires Seqs.UniqueBy(a, Sku) && Seqs.UniqueBy(b, Sku)
    requires forall y, z :: y in a && z in b ==> y.sku != z.sku
    ensures Seqs.UniqueBy(a + b, Sku)
  {
    var c := a + b;
    forall i, j | 0 <= i < j < |c| ensures c[i].sku != c[j].sku {
      if j < |a| {
        assert c[i] == a[i] && c[j] == a[j];
      } else if i >= |a| {
        assert c[i] == b[i - |a|] && c[j] == b[j - |a|];
      } else {
        assert c[i] == a[i] && c[j] == b[j - |a|];
      }
    }
  }

  /** The filling loop: starting from the mandatory rolls, add pool rolls in order
      until the weight reaches the target. */
  method FillSelection(mandatory: seq<Roll>, pool: seq<Roll>, target: real)
    returns (selection: seq<Roll>, weight: real)
    ensures selection == Fill(mandatory, pool, target)
    ensures weight == Seqs.Sum(selection, Weight)
  {
    selection := mandatory;
    weight := Seqs.Sum(mandatory, Weight);
    var i := 0;
    while i < |pool|
      invariant 0 <= i <= |pool|
      invariant weight == Seqs.Sum(selection, Weight)
      invariant Fill(selection, pool[i..], target) == Fill(mandatory, pool, target)
    {
      if weight >= target {
        break;
      }
      assert pool[i..][1..] == pool[i + 1..];
      assert (selection + [pool[i]])[..|selection|] == selection;
      selection := selection + [pool[i]];
      weight := weight + pool[i].weight;
      i := i + 1;
    }
  }

  // ---------------------------------------------------------------- rating

  /** The status, decided in order: a shortage warns; otherwise little trim and
      little leftover is optimal; much of either is acceptable; the rest is good. */
  function StatusOf(shortage: bool, trimPct: real, leftover: real): (r: Status)
    ensures r == Warning <==> shortage
    ensures r == Optimal <==> !shortage && trimPct < 2.0 && leftover < 50.0
    ensures r == Acceptable <==>
      !shortage && !(trimPct < 2.0 && leftover < 50.0) && (trimPct > 10.0 || leftover > 200.0)
  {
    if shortage then Warning
    else if trimPct < 2.0 && leftover < 50.0 then Optimal
    else if trimPct > 10.0 || leftover > 200.0 then Acceptable
    else Good
  }

  /** The score: 2000, less 10000 for a shortage, 2 per kg left over and 50 per
      percent of trim, plus 50 per roll used and 500 for a leftover in [0, 50). */
  function Score(shortage: bool, leftover: real, trimPct: real, rolls: nat): real
  {
    2000.0 - (if shortage then 10000.0 else 0.0) - leftover * 2.0 - trimPct * 50.0
      + rolls as real * 50.0 + (if 0.0 <= leftover < 50.0 then 500.0 else 0.0)
  }

  /** All else equal, a scenario with a shortage scores below one without. */
  lemma ShortageScoresLower(leftover: real, trimPct: real, rolls: nat)
    ensures Score(true, leftover, trimPct, rolls) < Score(false, leftover, trimPct, rolls)
  {
  }

  // ---------------------------------------------------------------- the scenario

  /** Lines A to C: sort the group, take the mandatory rolls, then fill from the
      rest. */
  method SelectRolls(items: seq<Roll>, target: real) returns (selection: seq<Roll>, weight: real)
    ensures selection == Selection(items, target)
    ensures weight == Seqs.Sum(selection, Weight)
  {
    var sorted := SortByWeight(items);
    var mandatory := Mandatory(sorted);
    selection, weight := FillSelection(mandatory, Pool(sorted, mandatory), target);
  }

  /** `(trimWaste / stockDim) * 100`: the trim as a percentage of the stock width. */
  function TrimPercent(trimWaste: real, stockDim: real): real
    requires stockDim != 0.0
  {
    trimWaste / stockDim * 100.0
  }

  /** `usedKg * (trimWaste / stockDim)`: the paper the trim takes, in kg. */
  function TrimKg(used: real, trimWaste: real, stockDim: real): real
    requires stockDim != 0.0
  {
    used * (trimWaste / stockDim)
  }

  /** What the appended result says about a scenario whose selection is
      `selection`, for the demand `used` and the cut of `cuts` strips leaving
      `trimWaste` across. */
  ghost predicate Describes(r: CalculationResult, group: Group, stockDim: real,
                            dimSource: DimensionSource, rotated: bool, cuts: int, trimWaste: real,
                            requiredLength: real, used: real, selection: seq<Roll>, shortage: bool)
    requires stockDim != 0.0
  {
    r.selectedRolls == SortByWeight(selection)
    && r.rollsNeeded == |r.selectedRolls|
    && r.rollsNeededWeight == Seqs.Sum(r.selectedRolls, Weight)
    && r.usedWeight == used
    && r.leftoverWeight == r.rollsNeededWeight - used
    && r.cutsPerWidth == cuts
    && r.trimWasteCm == trimWaste
    && r.trimWastePercent == TrimPercent(trimWaste, stockDim)
    && r.trimWasteKg == TrimKg(used, trimWaste, stockDim)
    && r.requiredLengthM == requiredLength
    && r.status == StatusOf(shortage, r.trimWastePercent, r.leftoverWeight)
    && r.score == Score(shortage, r.leftoverWeight, r.trimWastePercent, r.rollsNeeded)
    && r.rollSkuDisplay == Text.Join(Seqs.Map(r.selectedRolls, Sku), ", ")
    && r.rollCount == group.count && r.rollTotalWeight == group.totalWeight
    && r.stockDimensionUsed == stockDim && r.dimensionSource == dimSource
    && r.isRotated == rotated
  }

  /** The scoring steps: start at 2000, take 10000 off for a shortage, 2 per kg
      left over and 50 per percent of trim, add 50 per roll and 500 for a
      leftover in [0, 50). */
  method ScoreScenario(isShortage: bool, leftover: real, trimWastePct: real, rolls: nat)
    returns (score: real)
    ensures score == Score(isShortage, leftover, trimWastePct, rolls)
  {
    score := 2000.0;
    if isShortage {
      score := score - 10000.0;
    }
    score := score - leftover * 2.0;
    score := score - trimWastePct * 50.0;
    score := score + rolls as real * 50.0;
    if leftover < 50.0 && leftover >= 0.0 {
      score := score + 500.0;
    }
  }

  /** The status steps: good unless a shortage warns, or an earlier test fires. */
  method RateStatus(isShortage: bool, trimWastePct: real, leftover: real) returns (status: Status)
    ensures status == StatusOf(isShortage, trimWastePct, leftover)
  {
    status := Good;
    if isShortage {
      status := Warning;
    } else if trimWastePct < 2.0 && leftover < 50.0 {
      status := Optimal;
    } else if trimWastePct > 10.0 || leftover > 200.0 {
      status := Acceptable;
    }
  }

  /** Lines D on: sort the selection for display, score it, rate it and build the
      result. */
  method Rate(group: Group, stockDim: real, dimSource: DimensionSource, rotated: bool, cuts: int,
              trimWaste: real, requiredLength: real, usedKg: real, selection: seq<Roll>,
              currentWeight: real)
    returns (r: CalculationResult)
    requires stockDim > 0.0
    requires currentWeight == Seqs.Sum(selection, Weight)
    ensures Describes(r, group, stockDim, dimSource, rotated, cuts, trimWaste, requiredLength,
                      usedKg, selection, FallsShort(selection, usedKg))
  {
    var isShortage := currentWeight < usedKg - Tolerance;
    var trimWastePct := TrimPercent(trimWaste, stockDim);
    var trimWasteKg := TrimKg(usedKg, trimWaste, stockDim);
    var finalSelected := SortByWeight(selection);
    Seqs.SumPermutation(finalSelected, selection, Weight);
    var rollsNeededCount := |finalSelected|;
    var leftover := currentWeight - usedKg;

    var score := ScoreScenario(isShortage, leftover, trimWastePct, rollsNeededCount);
    var status := RateStatus(isShortage, trimWastePct, leftover);

    var skuDisplay := Text.Join(Seqs.Map(finalSelected, Sku), ", ");
    r := CalculationResult(
      skuDisplay, finalSelected, group.count, group.totalWeight, rollsNeededCount, currentWeight,
      stockDim, dimSource, rotated, cuts, trimWaste, trimWastePct, trimWasteKg, usedKg, leftover,
      requiredLength, score, status);
  }

  /** `calculateScenario`. Nothing is appended when the strip does not fit across
      the stock, or on a shortage when batches may not be combined; otherwise one
      result describing the sorted selection is appended. */
  method CalculateScenario(group: Group, stockDim: real, dimSource: DimensionSource,
                           cutAcross: real, cutAlong: real, totalQty: real, gsm: real,
                           rotated: bool, resultsArr: seq<CalculationResult>,
                           allowCombine: bool, wastePct: real)
    returns (results: seq<CalculationResult>)
    requires 0.0 < cutAcross && 0.0 < stockDim
    ensures |resultsArr| <= |results| <= |resultsArr| + 1
    ensures results[..|resultsArr|] == resultsArr
    ensures stockDim < cutAcross ==> results == resultsArr
    ensures stockDim >= cutAcross ==>
      var length := RequiredLength(stockDim, cutAcross, cutAlong, totalQty, wastePct);
      var used := UsedWeight(length, stockDim, gsm);
      var selection := Selection(group.items, used - Tolerance);
      var shortage := FallsShort(selection, used);
      (|results| == |resultsArr| <==> shortage && !allowCombine)
      && (|results| > |resultsArr| ==>
            Describes(results[|resultsArr|], group, stockDim, dimSource, rotated,
                      Cuts(stockDim, cutAcross), TrimWaste(stockDim, cutAcross),
                      length, used, selection, shortage))
  {
    results := resultsArr;
    // The source's second guard, `cuts === 0`, cannot fire once the strip fits.
    if cutAcross <= stockDim {
      var added := FittingScenario(group, stockDim, dimSource, cutAcross, cutAlong, totalQty, gsm,
                                   rotated, allowCombine, wastePct);
      results := results + added;
      assert |added| == 1 ==> results[|resultsArr|] == added[0];
    }
  }

  /** `calculateScenario` once the strip fits across: the result it pushes, if any. */
  method FittingScenario(group: Group, stockDim: real, dimSource: DimensionSource,
                         cutAcross: real, cutAlong: real, totalQty: real, gsm: real,
                         rotated: bool, allowCombine: bool, wastePct: real)
    returns (added: seq<CalculationResult>)
    requires 0.0 < cutAcross <= stockDim
    ensures |added| <= 1
    ensures
      var length := RequiredLength(stockDim, cutAcross, cutAlong, totalQty, wastePct);
      var used := UsedWeight(length, stockDim, gsm);
      var selection := Selection(group.items, used - Tolerance);
      var shortage := FallsShort(selection, used);
      (|added| == 0 <==> shortage && !allowCombine)
      && (|added| == 1 ==>
            Describes(added[0], group, stockDim, dimSource, rotated,
                      Cuts(stockDim, cutAcross), TrimWaste(stockDim, cutAcross),
                      length, used, selection, shortage))
  {
    var cuts := Cuts(stockDim, cutAcross);
    var trimWaste := TrimWaste(stockDim, cutAcross);
    var totalRequiredLength := RequiredLength(stockDim, cutAcross, cutAlong, totalQty, wastePct);
    var usedKg := UsedWeight(totalRequiredLength, stockDim, gsm);

    var selection, currentWeight := SelectRolls(group.items, usedKg - Tolerance);

    var isShortage := currentWeight < usedKg - Tolerance;
    added := [];
    if allowCombine || !isShortage {
      var r := Rate(group, stockDim, dimSource, rotated, cuts, trimWaste, totalRequiredLength, usedKg,
                    selection, currentWeight);
      added := [r];
      assert added[0] == r;
    }
    assert isShortage == FallsShort(selection, usedKg);
  }
}
