/** The roll table of a result card (components/Modules/PaperCalculation/ResultCard.tsx,
    the `rollRows` memo): the demand of the scenario is taken from the selected
    rolls in order, each roll giving as much as is still needed, up to its
    weight. */
module ResultCard {
  import opened PaperCalculation
  import Seqs

  /** What one table row shows. */
  datatype RollRow = RollRow(sku: string, weight: real, used: real, remainingStock: real, isPartial: bool)

  /** Demand at or below this is treated as met. */
  const Negligible: real := 0.01

  /** A roll is partly used when more than this was taken and more than this is left. */
  const PartialMargin: real := 0.1

  /** `usedAmount`: nothing once the demand is met, otherwise the demand capped at
      the roll's weight. */
  function Take(remaining: real, weight: real): real
  {
    if remaining > Negligible then (if remaining >= weight then weight else remaining) else 0.0
  }

  /** `Math.max(0, remaining - used)`. */
  function After(remaining: real, used: real): (r: real)
    ensures r >= 0.0
    ensures used <= remaining ==> r == remaining - used
  {
    if remaining - used > 0.0 then remaining - used else 0.0
  }

  /** The row of one roll while `remaining` is still wanted. */
  function Row(roll: Roll, remaining: real): (r: RollRow)
    ensures r.sku == roll.sku && r.weight == roll.weight
    ensures r.remainingStock == roll.weight - r.used
    ensures r.isPartial <==> r.remainingStock > PartialMargin && r.used > PartialMargin
    ensures roll.weight >= 0.0 ==> 0.0 <= r.used <= roll.weight && r.remainingStock >= 0.0
    ensures remaining <= Negligible ==> r.used == 0.0
    ensures remaining > Negligible && roll.weight >= 0.0 ==> r.used <= remaining
  {
    var used := Take(remaining, roll.weight);
    var stock := roll.weight - used;
    RollRow(roll.sku, roll.weight, used, stock, stock > PartialMargin && used > PartialMargin)
  }

  /** The walk over the rolls: one row per roll, in order. */
  function Rows(rolls: seq<Roll>, remaining: real): (r: seq<RollRow>)
    ensures |r| == |rolls|
    ensures forall i :: 0 <= i < |r| ==> r[i].sku == rolls[i].sku && r[i].weight == rolls[i].weight
    ensures forall i :: 0 <= i < |r| && rolls[i].weight >= 0.0 ==>
      0.0 <= r[i].used <= rolls[i].weight && r[i].remainingStock >= 0.0
  {
    if |rolls| == 0 then []
    else
      var row := Row(rolls[0], remaining);
      [row] + Rows(rolls[1..], After(remaining, row.used))
  }

  /** The demand still unmet after the walk. */
  function Left(rolls: seq<Roll>, remaining: real): real
  {
    if |rolls| == 0 then remaining
    else Left(rolls[1..], After(remaining, Take(remaining, rolls[0].weight)))
  }

  function Used(r: RollRow): real { r.used }

  predicate NonNegativeWeights(rolls: seq<Roll>)
  {
    forall i :: 0 <= i < |rolls| ==> rolls[i].weight >= 0.0
  }

  /** With rolls of non-negative weight, the demand never grows and never goes
      negative, and what the rows take plus what is left is the demand started
      with: the rows never take more than was wanted. */
  lemma {:induction false} DemandConserved(rolls: seq<Roll>, remaining: real)
    requires remaining >= 0.0 && NonNegativeWeights(rolls)
    ensures 0.0 <= Left(rolls, remaining) <= remaining
    ensures Seqs.Sum(Rows(rolls, remaining), Used) + Left(rolls, remaining) == remaining
    decreases |rolls|
  {
    if |rolls| > 0 {
      var row := Row(rolls[0], remaining);
      var next := After(remaining, row.used);
      var rest := Rows(rolls[1..], next);
      DemandConserved(rolls[1..], next);
      Seqs.SumAppend([row], rest, Used);
      assert [row][..0] == [];
      assert Rows(rolls, remaining) == [row] + rest;
    }
  }

  /** The demand left is at most the negligible amount, or what the rolls' total
      weight falls short of the demand. */
  lemma {:induction false} LeftBound(rolls: seq<Roll>, remaining: real)
    requires remaining >= 0.0 && NonNegativeWeights(rolls)
    ensures Left(rolls, remaining) <= Negligible
      || Left(rolls, remaining) <= remaining - Seqs.Sum(rolls, Weight)
    decreases |rolls|
  {
    if |rolls| > 0 {
      var used := Take(remaining, rolls[0].weight);
      var next := After(remaining, used);
      LeftBound(rolls[1..], next);
      Seqs.SumAppend([rolls[0]], rolls[1..], Weight);
      assert [rolls[0]][..0] == [];
      assert rolls == [rolls[0]] + rolls[1..];
      Seqs.SumNonNegative(rolls[1..], Weight);
      if remaining <= Negligible {
        LeftUnchanged(rolls[1..], next);
      }
    }
  }

  /** Once the demand is negligible, nothing more is taken. */
  lemma {:induction false} LeftUnchanged(rolls: seq<Roll>, remaining: real)
    requires 0.0 <= remaining <= Negligible
    ensures Left(rolls, remaining) == remaining
    decreases |rolls|
  {
    if |rolls| > 0 {
      LeftUnchanged(rolls[1..], remaining);
    }
  }

  /** When the selected rolls weigh at least the demand, the rows take all of it
      but for the negligible amount. */
  lemma RowsCoverDemand(rolls: seq<Roll>, remaining: real)
    requires remaining >= 0.0 && NonNegativeWeights(rolls)
    requires Seqs.Sum(rolls, Weight) >= remaining
    ensures remaining - Negligible <= Seqs.Sum(Rows(rolls, remaining), Used) <= remaining
  {
    DemandConserved(rolls, remaining);
    LeftBound(rolls, remaining);
  }

  /** The walk from roll `i` on is that roll's row, then the walk from the next. */
  lemma RowsStep(rolls: seq<Roll>, i: int, remaining: real)
    requires 0 <= i < |rolls|
    ensures Rows(rolls[i..], remaining)
      == [Row(rolls[i], remaining)] + Rows(rolls[i + 1..], After(remaining, Row(rolls[i], remaining).used))
  {
    assert rolls[i..][1..] == rolls[i + 1..];
  }

  /** One step of the `rollRows` walk: the row of a roll, and the demand left. */
  method RowOf(roll: Roll, remainingDemand: real) returns (row: RollRow, demandLeft: real)
    ensures row == Row(roll, remainingDemand) && demandLeft == After(remainingDemand, row.used)
  {
    var rollWeight := roll.weight;
    var usedAmount := 0.0;
    if remainingDemand > Negligible {
      usedAmount := if remainingDemand >= rollWeight then rollWeight else remainingDemand;
    }
    demandLeft := if remainingDemand - usedAmount > 0.0 then remainingDemand - usedAmount else 0.0;
    var remainingStock := rollWeight - usedAmount;
    var isPartial := remainingStock > PartialMargin && usedAmount > PartialMargin;
    row := RollRow(roll.sku, rollWeight, usedAmount, remainingStock, isPartial);
    assert usedAmount == Take(remainingDemand, rollWeight);
  }

  /** The `rollRows` memo: walk the selected rolls with a running demand. */
  method RollRows(res: CalculationResult) returns (rows: seq<RollRow>)
    ensures rows == Rows(res.selectedRolls, res.usedWeight)
  {
    var rolls := res.selectedRolls;
    var remainingDemand := res.usedWeight;
    rows := [];
    var i := 0;
    while i < |rolls|
      invariant 0 <= i <= |rolls|
      invariant rows + Rows(rolls[i..], remainingDemand) == Rows(rolls, res.usedWeight)
    {
      var before := remainingDemand;
      var row;
      row, remainingDemand := RowOf(rolls[i], remainingDemand);
      RowsStep(rolls, i, before);
      Seqs.Regroup(rows, row, Rows(rolls[i + 1..], remainingDemand));
      rows := rows + [row];
      i := i + 1;
    }
  }
}
