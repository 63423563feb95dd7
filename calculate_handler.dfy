/** The calculation handler of the paper calculator (hooks/usePaperCalculator.ts,
    `handleCalculate`): input checks, the theoretical weights, the scenarios each
    size group is evaluated in, the ranking of the options found and the state the
    screen shows. */
module CalculateHandler {
  import opened Js
  import Seqs
  import opened InventoryTypes
  import opened Formatting
  import opened UiStore
  import opened PaperCalculation
  import opened PaperCalculator

  // ---------------------------------------------------------------- scenarios

  /** The figures every scenario of one calculation shares: the sheet with its trim
      margin added, the sheet count, the gsm, the waste percentage, the grain
      direction and whether rolls may be combined. */
  datatype Run = Run(wReal: real, lReal: real, qty: real, gsm: real, wastePct: real,
                     grain: Grain, allowCombine: bool)

  /** The arguments of one `calculateScenario` call. */
  datatype Call = Call(group: SizeGroup, stockDim: real, source: DimensionSource,
                       cutAcross: real, cutAlong: real, rotated: bool)

  /** A size group as `calculateScenario` reads it. */
  function ToGroup(g: SizeGroup): Group
  {
    Group(g.items, g.count, g.totalWeight)
  }

  /** `dimensionsToCheck`: the group's width, then its length, each when positive. */
  function Dimensions(g: SizeGroup): seq<(real, DimensionSource)>
  {
    (if g.width > 0.0 then [(g.width, Width)] else [])
    + (if g.length > 0.0 then [(g.length, Length)] else [])
  }

  /** Scenario A (the sheet's width across the stock) when the grain is FREE or
      LONG, then scenario B (rotated: the sheet's length across) when it is FREE or
      SHORT. */
  function Orientations(g: SizeGroup, dim: (real, DimensionSource), run: Run): seq<Call>
  {
    (if run.grain == Free || run.grain == Long
     then [Call(g, dim.0, dim.1, run.wReal, run.lReal, false)] else [])
    + (if run.grain == Free || run.grain == Short
       then [Call(g, dim.0, dim.1, run.lReal, run.wReal, true)] else [])
  }

  /** The calls made for the first dimensions of a group, in order. */
  function DimensionCalls(g: SizeGroup, dims: seq<(real, DimensionSource)>, run: Run): seq<Call>
    decreases |dims|
  {
    if |dims| == 0 then []
    else DimensionCalls(g, dims[..|dims| - 1], run) + Orientations(g, dims[|dims| - 1], run)
  }

  /** The calls made for the groups, in order. */
  function Calls(groups: seq<SizeGroup>, run: Run): seq<Call>
    decreases |groups|
  {
    if |groups| == 0 then []
    else
      var g := groups[|groups| - 1];
      Calls(groups[..|groups| - 1], run) + DimensionCalls(g, Dimensions(g), run)
  }

  /** The call cuts in the orientation its `rotated` flag names, and the grain
      direction allows that orientation. */
  predicate Oriented(c: Call, run: Run)
  {
    if c.rotated then run.grain != Long && c.cutAcross == run.lReal && c.cutAlong == run.wReal
    else run.grain != Short && c.cutAcross == run.wReal && c.cutAlong == run.lReal
  }

  /** The call measures its group's positive width, or its positive length. */
  predicate OnStockSide(c: Call)
  {
    c.stockDim > 0.0
    && ((c.source == Width && c.stockDim == c.group.width)
        || (c.source == Length && c.stockDim == c.group.length))
  }

  lemma OrientationsMembers(g: SizeGroup, dim: (real, DimensionSource), run: Run, c: Call)
    ensures c in Orientations(g, dim, run) <==>
      (c.group == g && (c.stockDim, c.source) == dim && Oriented(c, run))
  {
  }

  lemma {:induction false} DimensionCallsMembers(g: SizeGroup, dims: seq<(real, DimensionSource)>,
                                                 run: Run, c: Call)
    ensures c in DimensionCalls(g, dims, run) <==>
      (c.group == g && (c.stockDim, c.source) in dims && Oriented(c, run))
    decreases |dims|
  {
    if |dims| > 0 {
      var init := dims[..|dims| - 1];
      DimensionCallsMembers(g, init, run, c);
      OrientationsMembers(g, dims[|dims| - 1], run, c);
      assert dims == init + [dims[|dims| - 1]];
    }
  }

  /** Every group is evaluated at each positive side and in each orientation the
      grain direction allows, and in nothing else: FREE both orientations, LONG
      only the unrotated one, SHORT only the rotated one. */
  lemma {:induction false} CallsCover(groups: seq<SizeGroup>, run: Run, c: Call)
    ensures c in Calls(groups, run) <==>
      (c.group in groups && OnStockSide(c) && Oriented(c, run))
    decreases |groups|
  {
    if |groups| > 0 {
      var init := groups[..|groups| - 1];
      var g := groups[|groups| - 1];
      CallsCover(init, run, c);
      DimensionCallsMembers(g, Dimensions(g), run, c);
      assert groups == init + [g];
    }
  }

  // ---------------------------------------------------------------- accounting

  /** The rows the call needs, in metres with the waste added, when a strip fits. */
  function CallLength(c: Call, run: Run): real
    requires 0.0 < c.cutAcross <= c.stockDim
  {
    RequiredLength(c.stockDim, c.cutAcross, c.cutAlong, run.qty, run.wastePct)
  }

  /** The kilograms the call needs. */
  function CallUsed(c: Call, run: Run): real
    requires 0.0 < c.cutAcross <= c.stockDim
  {
    UsedWeight(CallLength(c, run), c.stockDim, run.gsm)
  }

  /** The rolls the call takes. */
  function CallSelection(c: Call, run: Run): seq<Roll>
    requires 0.0 < c.cutAcross <= c.stockDim
  {
    Selection(c.group.items, CallUsed(c, run) - Tolerance)
  }

  /** The rolls taken fall short of the demand. */
  predicate CallShort(c: Call, run: Run)
    requires 0.0 < c.cutAcross <= c.stockDim
  {
    FallsShort(CallSelection(c, run), CallUsed(c, run))
  }

  /** The call adds an option: a strip fits across, and either the rolls cover the
      demand or combining is allowed. */
  predicate Kept(c: Call, run: Run)
  {
    0.0 < c.cutAcross <= c.stockDim && (CallShort(c, run) ==> run.allowCombine)
  }

  /** `r` is the option `calculateScenario` builds for the call. */
  ghost predicate Yields(c: Call, run: Run, r: CalculationResult)
  {
    0.0 < c.cutAcross <= c.stockDim
    && Describes(r, ToGroup(c.group), c.stockDim, c.source, c.rotated,
                 Cuts(c.stockDim, c.cutAcross), TrimWaste(c.stockDim, c.cutAcross),
                 CallLength(c, run), CallUsed(c, run), CallSelection(c, run), CallShort(c, run))
  }

  /** The calls that add an option, in order. */
  function KeptCalls(calls: seq<Call>, run: Run): seq<Call>
  {
    Seqs.Filter(calls, (c: Call) => Kept(c, run))
  }

  /** `after` is `before` followed by one option per kept call, in call order, each
      the option that call builds. */
  ghost predicate Extends(before: seq<CalculationResult>, after: seq<CalculationResult>,
                          calls: seq<Call>, run: Run)
  {
    var kept := KeptCalls(calls, run);
    |after| == |before| + |kept|
    && after[..|before|] == before
    && var added := after[|before|..];
       forall k {:trigger Yields(kept[k], run, added[k])} ::
         0 <= k < |kept| ==> Yields(kept[k], run, added[k])
  }

  /** Options added by two runs of calls are those of the calls one after the other. */
  lemma ExtendsChain(a: seq<CalculationResult>, b: seq<CalculationResult>, c: seq<CalculationResult>,
                     first: seq<Call>, second: seq<Call>, run: Run)
    requires Extends(a, b, first, run) && Extends(b, c, second, run)
    ensures Extends(a, c, first + second, run)
  {
    Seqs.FilterAppend(first, second, (x: Call) => Kept(x, run));
    var k1 := KeptCalls(first, run);
    var k2 := KeptCalls(second, run);
    var builds := (x: Call, r: CalculationResult) => Yields(x, run, r);
    AsGrowth(a, b, first, run);
    AsGrowth(b, c, second, run);
    Seqs.GrowsByChain(a, b, c, k1, k2, builds);
    AsGrowth(a, c, first + second, run);
  }

  /** `Extends` is growth by the kept calls, each related to the option it builds. */
  lemma AsGrowth(before: seq<CalculationResult>, after: seq<CalculationResult>, calls: seq<Call>, run: Run)
    ensures Extends(before, after, calls, run) <==>
      Seqs.GrowsBy(before, after, KeptCalls(calls, run), (x: Call, r: CalculationResult) => Yields(x, run, r))
  {
  }

  /** `calculateScenario` for one call: it adds the call's option exactly when the
      call keeps one. */
  method EvaluateCall(c: Call, run: Run, options: seq<CalculationResult>)
    returns (options': seq<CalculationResult>)
    requires 0.0 < c.cutAcross && 0.0 < c.stockDim
    ensures Extends(options, options', [c], run)
  {
    options' := CalculateScenario(ToGroup(c.group), c.stockDim, c.source, c.cutAcross, c.cutAlong,
                                  run.qty, run.gsm, c.rotated, options, run.allowCombine, run.wastePct);
    if Kept(c, run) {
      assert KeptCalls([c], run) == [c];
      assert |options'| == |options| + 1;
      assert Yields(c, run, options'[|options|]);
    } else {
      assert KeptCalls([c], run) == [];
      assert !(0.0 < c.cutAcross <= c.stockDim) || (CallShort(c, run) && !run.allowCombine);
    }
  }

  /** The body of `dimensionsToCheck.forEach`: scenario A, then scenario B. */
  method EvaluateDimension(g: SizeGroup, dim: (real, DimensionSource), run: Run,
                           options: seq<CalculationResult>)
    returns (options': seq<CalculationResult>)
    requires 0.0 < dim.0 && 0.0 < run.wReal && 0.0 < run.lReal
    ensures Extends(options, options', Orientations(g, dim, run), run)
  {
    var a: seq<Call> := [];
    options' := options;
    if run.grain == Free || run.grain == Long {
      var c := Call(g, dim.0, dim.1, run.wReal, run.lReal, false);
      var next := EvaluateCall(c, run, options');
      ExtendsChain(options, options', next, a, [c], run);
      options', a := next, a + [c];
    }
    if run.grain == Free || run.grain == Short {
      var c := Call(g, dim.0, dim.1, run.lReal, run.wReal, true);
      var next := EvaluateCall(c, run, options');
      ExtendsChain(options, options', next, a, [c], run);
      options', a := next, a + [c];
    }
  }

  /** `dimensionsToCheck.forEach` for one size group: each positive side in turn. */
  method EvaluateSides(g: SizeGroup, run: Run, options: seq<CalculationResult>)
    returns (options': seq<CalculationResult>)
    requires 0.0 < run.wReal && 0.0 < run.lReal
    ensures Extends(options, options', DimensionCalls(g, Dimensions(g), run), run)
  {
    var dims := Dimensions(g);
    options' := options;
    var j := 0;
    while j < |dims|
      invariant 0 <= j <= |dims|
      invariant Extends(options, options', DimensionCalls(g, dims[..j], run), run)
    {
      var next := EvaluateDimension(g, dims[j], run, options');
      ExtendsChain(options, options', next, DimensionCalls(g, dims[..j], run),
                   Orientations(g, dims[j], run), run);
      assert dims[..j + 1][..j] == dims[..j];
      options' := next;
      j := j + 1;
    }
    assert dims[..j] == dims;
  }

  /** `groups.forEach`, with `dimensionsToCheck.forEach` inside: every call of
      `Calls` in turn. */
  method EvaluateGroups(groups: seq<SizeGroup>, run: Run) returns (options: seq<CalculationResult>)
    requires 0.0 < run.wReal && 0.0 < run.lReal
    ensures Extends([], options, Calls(groups, run), run)
  {
    options := [];
    var i := 0;
    while i < |groups|
      invariant 0 <= i <= |groups|
      invariant Extends([], options, Calls(groups[..i], run), run)
    {
      var g := groups[i];
      var next := EvaluateSides(g, run, options);
      ExtendsChain([], options, next, Calls(groups[..i], run), DimensionCalls(g, Dimensions(g), run), run);
      assert groups[..i + 1][..i] == groups[..i];
      options := next;
      i := i + 1;
    }
    assert groups[..i] == groups;
  }

  // ---------------------------------------------------------------- ranking

  /** The comparator of `rankedResults`: options that leave stock over (leftover
      >= 0) first; then less trim waste when the percentages differ by more than
      0.5; then the higher score. */
  function RankOrder(a: CalculationResult, b: CalculationResult): int
  {
    if a.leftoverWeight >= 0.0 && b.leftoverWeight < 0.0 then -1
    else if a.leftoverWeight < 0.0 && b.leftoverWeight >= 0.0 then 1
    else
      var diffWaste := a.trimWastePercent - b.trimWastePercent;
      if diffWaste > 0.5 || diffWaste < -0.5 then Sign(diffWaste)
      else Sign(b.score - a.score)
  }

  /** 0 for an option that covers the demand, 1 for one that falls short. */
  function ShortRank(r: CalculationResult): real
  {
    if r.leftoverWeight >= 0.0 then 0.0 else 1.0
  }

  /** How many ranked options the screen keeps. */
  const TopCount: nat := 5

  /** `rankedResults.slice(0, 5)`. */
  function Top(options: seq<CalculationResult>): seq<CalculationResult>
  {
    var ranked := Seqs.Sort(options, RankOrder);
    ranked[..if |ranked| < TopCount then |ranked| else TopCount]
  }

  /** The kept options are the first five of the ranking (all of them when fewer),
      each one of the options found, and no option that leaves stock over comes
      after one that falls short; so when any option covers the demand, the first
      one shown does. */
  lemma TopRanked(options: seq<CalculationResult>)
    ensures var top := Top(options);
      |top| == (if |options| < TopCount then |options| else TopCount)
      && (forall r :: r in top ==> r in options)
      && (forall i, j :: 0 <= i < j < |top| && top[j].leftoverWeight >= 0.0 ==> top[i].leftoverWeight >= 0.0)
      && ((exists r :: r in options && r.leftoverWeight >= 0.0) ==> top[0].leftoverWeight >= 0.0)
  {
    var ranked := Seqs.Sort(options, RankOrder);
    ShortFirst(options, ranked);
    TopOfRanked(options, ranked, Top(options));
  }

  /** The ranking puts every covering option before every short one. */
  lemma ShortFirst(options: seq<CalculationResult>, ranked: seq<CalculationResult>)
    requires ranked == Seqs.Sort(options, RankOrder)
    ensures multiset(ranked) == multiset(options)
    ensures forall i, j :: 0 <= i < j < |ranked| ==> ShortRank(ranked[i]) <= ShortRank(ranked[j])
  {
    forall a, b | a in options && b in options
      ensures (ShortRank(a) < ShortRank(b) ==> RankOrder(a, b) < 0)
           && (ShortRank(a) > ShortRank(b) ==> RankOrder(a, b) > 0)
    {
    }
    Seqs.SortRank(options, RankOrder, ShortRank);
  }

  /** A prefix of a permutation of the options with covering ones first keeps
      only options, and a covering one first when there is one. */
  lemma TopOfRanked(options: seq<CalculationResult>, ranked: seq<CalculationResult>,
                    top: seq<CalculationResult>)
    requires multiset(ranked) == multiset(options)
    requires forall i, j :: 0 <= i < j < |ranked| ==> ShortRank(ranked[i]) <= ShortRank(ranked[j])
    requires top == ranked[..if |ranked| < TopCount then |ranked| else TopCount]
    ensures |top| == (if |options| < TopCount then |options| else TopCount)
    ensures forall r :: r in top ==> r in options
    ensures forall i, j :: 0 <= i < j < |top| && top[j].leftoverWeight >= 0.0 ==> top[i].leftoverWeight >= 0.0
    ensures (exists r :: r in options && r.leftoverWeight >= 0.0) ==> top[0].leftoverWeight >= 0.0
  {
    assert |ranked| == |options| by {
      assert |multiset(ranked)| == |multiset(options)|;
    }
    forall r | r in top ensures r in options {
      assert r in multiset(ranked);
    }
    forall i, j | 0 <= i < j < |top| && top[j].leftoverWeight >= 0.0
      ensures top[i].leftoverWeight >= 0.0
    {
      assert ShortRank(ranked[i]) <= ShortRank(ranked[j]);
    }
    if exists r :: r in options && r.leftoverWeight >= 0.0 {
      var r :| r in options && r.leftoverWeight >= 0.0;
      assert r in multiset(ranked);
      var j :| 0 <= j < |ranked| && ranked[j] == r;
      assert ShortRank(ranked[0]) <= ShortRank(ranked[j]);
    }
  }

  // ---------------------------------------------------------------- weights

  /** The paper the order needs: `net` for the sheets as ordered, `gross` with the
      trim margin added to both sides, `trim` the difference (never negative) and
      `waste` the waste percentage of the gross weight, all in kg. */
  datatype Weights = Weights(net: real, gross: real, trim: real, waste: real)

  /** The weights for `q` sheets of `w` x `l` cm with a trim margin of `trimMm` mm,
      at `gsm` g/m2 and `wastePct` percent waste. */
  function OrderWeights(q: real, w: real, l: real, trimMm: real, wastePct: real, gsm: real): (r: Weights)
    ensures r.trim >= 0.0
    ensures wastePct == 0.0 ==> r.waste == 0.0
  {
    var trimCm := trimMm / 10.0;
    var net := q * (w / 100.0) * (l / 100.0) * (gsm / 1000.0);
    var gross := q * ((w + trimCm) / 100.0) * ((l + trimCm) / 100.0) * (gsm / 1000.0);
    Weights(net, gross, if gross - net > 0.0 then gross - net else 0.0, gross * (wastePct / 100.0))
  }

  /** For a valid order the net weight is positive; the trim weight is never
      negative, is nothing without a margin and is exactly the extra gross weight
      with a margin that is not negative; no waste is added at 0 percent. */
  lemma OrderWeightsLaws(q: real, w: real, l: real, trimMm: real, wastePct: real, gsm: real)
    requires q > 0.0 && w > 0.0 && l > 0.0 && gsm > 0.0
    ensures var r := OrderWeights(q, w, l, trimMm, wastePct, gsm);
      r.net > 0.0 && r.trim >= 0.0
      && (trimMm == 0.0 ==> r.gross == r.net && r.trim == 0.0)
      && (trimMm >= 0.0 ==> r.trim == r.gross - r.net)
      && (wastePct == 0.0 ==> r.waste == 0.0)
  {
    var t := trimMm / 10.0;
    var k := q * (gsm / 1000.0) / 10000.0;
    assert k > 0.0;
    var r := OrderWeights(q, w, l, trimMm, wastePct, gsm);
    assert r.net == k * (w * l);
    assert r.gross == k * ((w + t) * (l + t));
    if trimMm >= 0.0 {
      assert (w + t) * (l + t) == w * l + t * (w + l + t);
      assert t * (w + l + t) >= 0.0;
    }
  }

  // ---------------------------------------------------------------- the handler

  /** The toasts the handler raises. */
  datatype Notice = MissingFields | InvalidParameters | NoMatchingPaper | NoFittingOption
                  | Found(count: nat)

  /** A calculation `setTimeout` has scheduled: the form and the inventory as the
      handler saw them. */
  datatype Job = Job(inputs: PaperInputs, inventory: seq<Item>)

  /** One of quantity, width, length, gsm and paper type is left empty. */
  predicate MissingField(inputs: PaperInputs)
  {
    inputs.qty == "" || inputs.width == "" || inputs.length == "" || inputs.gsm == ""
    || inputs.paperType == ""
  }

  /** The parsed form: sheets, sheet width and length in cm, trim margin in mm,
      waste percentage and the gsm. */
  datatype Figures = Figures(q: real, w: real, l: real, trimMm: real, wastePct: real, gsm: real)

  function Parse(lib: Lib, inputs: PaperInputs): Figures
  {
    Figures(ParseVNToNumber(lib, Str(inputs.qty)), ParseVNToNumber(lib, Str(inputs.width)),
            ParseVNToNumber(lib, Str(inputs.length)), ParseVNToNumber(lib, Str(inputs.trimMargin)),
            ParseVNToNumber(lib, Str(inputs.wastePercentage)), GsmNumeric(lib, inputs.gsm))
  }

  /** The check before any weight is computed. */
  predicate ValidFigures(f: Figures)
  {
    f.q > 0.0 && f.w > 0.0 && f.l > 0.0 && f.gsm > 0.0
  }

  /** `W_real`, `L_real` and the other figures every scenario shares. */
  function RunOf(f: Figures, inputs: PaperInputs): Run
  {
    Run(f.w + f.trimMm / 10.0, f.l + f.trimMm / 10.0, f.q, f.gsm, f.wastePct,
        inputs.grainDirection, inputs.allowCombine)
  }

  /** `matchingItems` for the job's form. */
  function JobMatches(lib: Lib, job: Job): seq<Item>
  {
    MatchingItems(lib, job.inventory, job.inputs.paperType, GsmSearch(lib, job.inputs.gsm),
                  job.inputs.manufacturer)
  }

  /** The trim margin leaves both sides of a valid sheet positive. */
  predicate CutsPositive(lib: Lib, job: Job)
  {
    var f := Parse(lib, job.inputs);
    ValidFigures(f) ==> RunOf(f, job.inputs).wReal > 0.0 && RunOf(f, job.inputs).lReal > 0.0
  }

  /** The calculator's own state: the options shown, the theoretical and extra
      weights, the busy flag, the toasts raised so far and the calculations
      waiting on their timer. */
  class CalculatorScreen {
    var results: seq<CalculationResult>
    var theoreticalWeight: real
    var extraTrim: real
    var extraWaste: real
    var isCalculating: bool
    var notices: seq<Notice>
    var pending: seq<Job>
    /** Every option the last full calculation found, before the ranking. */
    ghost var options: seq<CalculationResult>

    constructor()
      ensures results == [] && theoreticalWeight == 0.0 && extraTrim == 0.0 && extraWaste == 0.0
      ensures !isCalculating && notices == [] && pending == [] && options == []
    {
      results, theoreticalWeight, extraTrim, extraWaste := [], 0.0, 0.0, 0.0;
      isCalculating, notices, pending := false, [], [];
      options := [];
    }

    /** `handleCalculate`: with a required field empty, a warning and nothing else;
        otherwise the screen turns busy and the calculation is scheduled. */
    method HandleCalculate(inputs: PaperInputs, inventory: seq<Item>)
      modifies this
      ensures results == old(results) && theoreticalWeight == old(theoreticalWeight)
      ensures extraTrim == old(extraTrim) && extraWaste == old(extraWaste) && options == old(options)
      ensures MissingField(inputs) ==>
        notices == old(notices) + [MissingFields] && pending == old(pending)
        && isCalculating == old(isCalculating)
      ensures !MissingField(inputs) ==>
        notices == old(notices) && pending == old(pending) + [Job(inputs, inventory)] && isCalculating
    {
      if inputs.qty == "" || inputs.width == "" || inputs.length == "" || inputs.gsm == ""
         || inputs.paperType == "" {
        notices := notices + [MissingFields];
        return;
      }
      isCalculating := true;
      pending := pending + [Job(inputs, inventory)];
    }

    /** The timer callback of the oldest scheduled calculation: the form is
        parsed, the stock matched, and the outcome settled. */
    method RunCalculation(lib: Lib)
      requires |pending| > 0 && CutsPositive(lib, pending[0])
      modifies this
      ensures pending == old(pending)[1..] && !isCalculating
      ensures var job := old(pending)[0];
        Settled(Parse(lib, job.inputs), job.inputs, JobMatches(lib, job), old(results),
                old(theoreticalWeight), old(extraTrim), old(extraWaste), old(notices), old(options))
    {
      var job := pending[0];
      pending := pending[1..];
      var f := ParseForm(lib, job.inputs);
      var matching := JobMatches(lib, job);
      Settle(f, job.inputs, matching);
    }

    /** What a calculation leaves on the screen. Invalid figures: an error and
        nothing else. Otherwise the weights are set; then no matching stock is an
        error; no option found clears the results; and otherwise the five best
        options are shown. */
    ghost predicate Settled(f: Figures, inputs: PaperInputs, matching: seq<Item>,
                            results0: seq<CalculationResult>, net0: real, trim0: real, waste0: real,
                            notices0: seq<Notice>, options0: seq<CalculationResult>)
      reads this
    {
      if !ValidFigures(f) then
        notices == notices0 + [InvalidParameters] && results == results0
        && theoreticalWeight == net0 && extraTrim == trim0 && extraWaste == waste0
        && options == options0
      else
        var weights := OrderWeights(f.q, f.w, f.l, f.trimMm, f.wastePct, f.gsm);
        var run := RunOf(f, inputs);
        theoreticalWeight == weights.net && extraTrim == weights.trim && extraWaste == weights.waste
        && if |matching| == 0 then
             notices == notices0 + [NoMatchingPaper] && results == results0 && options == options0
           else
             Extends([], options, Calls(Groups(matching), run), run)
             && if |options| == 0 then results == [] && notices == notices0 + [NoFittingOption]
                else results == Top(options) && notices == notices0 + [Found(|options|)]
    }

    /** The body of the timer callback once the form is parsed and the stock
        matched. The screen is never left busy. */
    method Settle(f: Figures, inputs: PaperInputs, matching: seq<Item>)
      requires ValidFigures(f) ==> RunOf(f, inputs).wReal > 0.0 && RunOf(f, inputs).lReal > 0.0
      modifies this
      ensures pending == old(pending) && !isCalculating
      ensures !ValidFigures(f) ==>
        notices == old(notices) + [InvalidParameters] && results == old(results)
        && theoreticalWeight == old(theoreticalWeight) && extraTrim == old(extraTrim)
        && extraWaste == old(extraWaste) && options == old(options)
      ensures ValidFigures(f) ==>
        var weights := OrderWeights(f.q, f.w, f.l, f.trimMm, f.wastePct, f.gsm);
        theoreticalWeight == weights.net && extraTrim == weights.trim && extraWaste == weights.waste
      ensures ValidFigures(f) && |matching| == 0 ==>
        notices == old(notices) + [NoMatchingPaper] && results == old(results) && options == old(options)
      ensures ValidFigures(f) && |matching| > 0 ==>
        Extends([], options, Calls(Groups(matching), RunOf(f, inputs)), RunOf(f, inputs))
      ensures ValidFigures(f) && |matching| > 0 && |options| == 0 ==>
        results == [] && notices == old(notices) + [NoFittingOption]
      ensures ValidFigures(f) && |matching| > 0 && |options| > 0 ==>
        results == Top(options) && notices == old(notices) + [Found(|options|)]
    {
      var run := ShareFigures(f, inputs);
      if f.q <= 0.0 || f.w <= 0.0 || f.l <= 0.0 || f.gsm <= 0.0 {
        notices := notices + [InvalidParameters];
        isCalculating := false;
        return;
      }
      var weights := Weigh(f);
      theoreticalWeight := weights.net;
      extraTrim, extraWaste := weights.trim, weights.waste;

      if |matching| == 0 {
        notices := notices + [NoMatchingPaper];
        isCalculating := false;
        return;
      }
      var found := FindOptions(matching, run);
      ShowOptions(found);
    }

    /** The rest of the callback once the options are found: the five best are
        shown, or the results are cleared with a warning when there is none. */
    method ShowOptions(found: seq<CalculationResult>)
      modifies this
      ensures pending == old(pending) && !isCalculating && options == found
      ensures theoreticalWeight == old(theoreticalWeight)
      ensures extraTrim == old(extraTrim) && extraWaste == old(extraWaste)
      ensures |found| == 0 ==> results == [] && notices == old(notices) + [NoFittingOption]
      ensures |found| > 0 ==> results == Top(found) && notices == old(notices) + [Found(|found|)]
    {
      var outcome := Outcome(found);
      results, notices, options, isCalculating := outcome.0, notices + [outcome.1], found, false;
    }
  }

  /** Every scenario of every size group of the matching stock, evaluated in order. */
  method FindOptions(matching: seq<Item>, run: Run) returns (found: seq<CalculationResult>)
    requires 0.0 < run.wReal && 0.0 < run.lReal
    ensures Extends([], found, Calls(Groups(matching), run), run)
  {
    var groups := GroupInventory(matching);
    found := EvaluateGroups(groups, run);
  }

  /** The results shown and the notice given for the options found. */
  function Outcome(found: seq<CalculationResult>): (seq<CalculationResult>, Notice)
  {
    if |found| == 0 then ([], NoFittingOption) else (Top(found), Found(|found|))
  }

  /** The five `parseVNToNumber` calls and the gsm the form names. */
  method ParseForm(lib: Lib, inputs: PaperInputs) returns (f: Figures)
    ensures f == Parse(lib, inputs)
  {
    var q := ParseVNToNumber(lib, Str(inputs.qty));
    var w := ParseVNToNumber(lib, Str(inputs.width));
    var l := ParseVNToNumber(lib, Str(inputs.length));
    var trimMm := ParseVNToNumber(lib, Str(inputs.trimMargin));
    var wastePct := ParseVNToNumber(lib, Str(inputs.wastePercentage));
    f := Figures(q, w, l, trimMm, wastePct, GsmNumeric(lib, inputs.gsm));
  }

  /** `Trim_cm`, `W_real` and `L_real`, with the figures every scenario shares. */
  method ShareFigures(f: Figures, inputs: PaperInputs) returns (run: Run)
    ensures run == RunOf(f, inputs)
  {
    var trimCm := f.trimMm / 10.0;
    var wReal := f.w + trimCm;
    var lReal := f.l + trimCm;
    run := Run(wReal, lReal, f.q, f.gsm, f.wastePct, inputs.grainDirection, inputs.allowCombine);
  }

  /** The net, gross, trim and waste weights of the order. */
  method Weigh(f: Figures) returns (weights: Weights)
    ensures weights == OrderWeights(f.q, f.w, f.l, f.trimMm, f.wastePct, f.gsm)
  {
    var trimCm := f.trimMm / 10.0;
    var wReal := f.w + trimCm;
    var lReal := f.l + trimCm;
    var netKg := f.q * (f.w / 100.0) * (f.l / 100.0) * (f.gsm / 1000.0);
    var grossKg := f.q * (wReal / 100.0) * (lReal / 100.0) * (f.gsm / 1000.0);
    var trimKg := if grossKg - netKg > 0.0 then grossKg - netKg else 0.0;
    var wasteKg := grossKg * (f.wastePct / 100.0);
    weights := Weights(netKg, grossKg, trimKg, wasteKg);
  }
}
