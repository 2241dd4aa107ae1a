/** From the strategies' z-scores to the ranked composite scores. */
module Scorer {
  import opened Vectors
  import opened Series
  import opened Sorting
  import opened Orthogonalizer
  import opened Ranking

  /** A strategy's z-scores: the stocks it scored, with their values. */
  datatype StrategyZ = StrategyZ(name: Name, z: map<Code, real>)

  datatype Weight = Weight(name: Name, w: real)

  /** strategies and weights are ordered dictionaries; order is the requested orthogonalisation order. */
  datatype Input = Input(strategies: seq<StrategyZ>, weights: seq<Weight>, order: seq<Name>, single: bool) {
    ghost predicate Valid() {
      Distinct(Names(strategies)) && Distinct(WeightNames(weights)) && Distinct(order)
    }
  }

  /** The absorption ratio, the square root, and the normal distribution function. */
  datatype Config = Config(ratio: real, sqrt: real -> real, phi: real -> real)

  datatype RawPart = RawPart(name: Name, zRaw: real, weight: real, contribution: real)
  datatype ResidualPart = ResidualPart(name: Name, zOrthogonal: real, weight: real, contribution: real)
  datatype Observation = Observation(name: Name, z: real)

  datatype Score = Score(code: Code, compositeZ: real, pctInMarket: real, compositeScore: real,
                         raw: seq<RawPart>, residual: seq<ResidualPart>, zAll: seq<Observation>)

  // ---------------------------------------------------------------- dictionaries

  function Names(strategies: seq<StrategyZ>): (r: seq<Name>)
    ensures |r| == |strategies| && forall i :: 0 <= i < |r| ==> r[i] == strategies[i].name
  {
    seq(|strategies|, i requires 0 <= i < |strategies| => strategies[i].name)
  }

  function WeightNames(weights: seq<Weight>): (r: seq<Name>)
    ensures |r| == |weights| && forall i :: 0 <= i < |r| ==> r[i] == weights[i].name
  {
    seq(|weights|, i requires 0 <= i < |weights| => weights[i].name)
  }

  /** weights.get(s, 0.0) */
  function WeightOf(weights: seq<Weight>, s: Name): real {
    if weights == [] then 0.0
    else if weights[0].name == s then weights[0].w
    else WeightOf(weights[1..], s)
  }

  // ---------------------------------------------------------------- the z-matrix

  function AllCodes(strategies: seq<StrategyZ>): set<Code> {
    if strategies == [] then {} else strategies[0].z.Keys + AllCodes(strategies[1..])
  }

  /** z.reindex(index) */
  function Reindex(z: map<Code, real>, index: seq<Code>): (r: Column)
    ensures |r| == |index|
    ensures forall i :: 0 <= i < |r| ==> r[i] == if index[i] in z then Num(z[index[i]]) else NaN
  {
    seq(|index|, i requires 0 <= i < |index| => if index[i] in z then Num(z[index[i]]) else NaN)
  }

  function Columns(strategies: seq<StrategyZ>, index: seq<Code>): (r: map<Name, Column>)
    ensures forall s :: s in r ==> |r[s]| == |index|
  {
    if strategies == [] then map[]
    else Columns(strategies[1..], index)[strategies[0].name := Reindex(strategies[0].z, index)]
  }

  function Matrix(strategies: seq<StrategyZ>): (r: Frame)
    ensures r.Valid()
  {
    var index := Ascending(AllCodes(strategies));
    Frame(index, Columns(strategies, index))
  }

  // ---------------------------------------------------------------- which strategies take part, in which order

  function Weighted(input: Input): seq<Name> {
    Filter(Names(input.strategies), (s: Name) => WeightOf(input.weights, s) > 0.0)
  }

  function HeavierFirst(weights: seq<Weight>): (Name, Name) -> bool {
    (a, b) => WeightOf(weights, a) >= WeightOf(weights, b)
  }

  function EffectiveOrder(weighted: seq<Name>, order: seq<Name>, weights: seq<Weight>): seq<Name> {
    var kept := Filter(order, (s: Name) => s in weighted);
    kept + Sort(Filter(weighted, (s: Name) => s !in kept), HeavierFirst(weights))
  }

  ghost function NormalisedColumns(input: Input, cfg: Config): (r: map<Name, Column>)
  {
    var matrix := Matrix(input.strategies);
    var weighted := Weighted(input);
    if input.single || |weighted| <= 1 then
      map s | s in weighted && s in matrix.cols :: matrix.cols[s]
    else
      var out := NormalisedFrame(matrix, EffectiveOrder(weighted, input.order, input.weights), cfg.ratio, cfg.sqrt);
      (if out.Ok? then out.value.cols else map[])
  }

  // ---------------------------------------------------------------- Step 5

  function TotalWeight(weights: seq<Weight>): real {
    if weights == [] then 0.0 else TotalWeight(weights[..|weights| - 1]) + weights[|weights| - 1].w
  }

  /** The weights that count: positive, and of a strategy that scored; scaled to sum to one. */
  function RawWeights(input: Input): seq<Weight> {
    Filter(input.weights, (x: Weight) => x.name in Names(input.strategies) && x.w > 0.0)
  }

  function Scaled(weights: seq<Weight>, total: real): (r: seq<Weight>)
    requires total != 0.0
    ensures |r| == |weights|
    ensures forall i :: 0 <= i < |r| ==> r[i] == Weight(weights[i].name, weights[i].w / total)
  {
    seq(|weights|, i requires 0 <= i < |weights| => Weight(weights[i].name, weights[i].w / total))
  }

  ghost predicate Fits(cols: map<Name, Column>, ws: seq<Weight>, n: nat) {
    forall k :: 0 <= k < |ws| ==> ws[k].name in cols && |cols[ws[k].name]| == n
  }

  /** sum over the weights of w * column, missing cells counting as zero. */
  ghost function WeightedSum(cols: map<Name, Column>, ws: seq<Weight>, n: nat): (r: Vec)
    requires Fits(cols, ws, n)
    ensures |r| == n
  {
    if ws == [] then Constant(n, 0.0)
    else AddScaled(WeightedSum(cols, ws[..|ws| - 1], n), ws[|ws| - 1].w, Filled(cols[ws[|ws| - 1].name]))
  }

  function SquareWeight(ws: seq<Weight>): real {
    if ws == [] then 0.0
    else SquareWeight(ws[..|ws| - 1]) + Times(ws[|ws| - 1].w, ws[|ws| - 1].w)
  }

  /** The weights whose strategy has a normalised column. */
  function Used(cols: map<Name, Column>, ws: seq<Weight>): seq<Weight> {
    Filter(ws, (x: Weight) => x.name in cols)
  }

  /** Rows in which some weighted strategy is present. */
  function AnyPresent(cols: map<Name, Column>, ws: seq<Weight>, n: nat): (mask: seq<bool>)
    requires Fits(cols, ws, n)
    ensures |mask| == n
    ensures forall i :: 0 <= i < n ==> (mask[i] <==> exists k :: 0 <= k < |ws| && cols[ws[k].name][i].Num?)
  {
    seq(n, i requires 0 <= i < n => exists k :: 0 <= k < |ws| && cols[ws[k].name][i].Num?)
  }

  function RawPartOf(x: Weight, z: Cell): seq<RawPart> {
    if z.Num? then [RawPart(x.name, z.v, x.w, Times(z.v, x.w))] else []
  }

  function RawParts(cols: map<Name, Column>, ws: seq<Weight>, i: nat): seq<RawPart>
    requires forall k :: 0 <= k < |ws| ==> ws[k].name in cols && i < |cols[ws[k].name]|
  {
    if ws == [] then []
    else RawParts(cols, ws[..|ws| - 1], i) + RawPartOf(ws[|ws| - 1], cols[ws[|ws| - 1].name][i])
  }

  function ResidualPartOf(x: Weight, z: real, root: real): ResidualPart
    requires root != 0.0
  {
    ResidualPart(x.name, z, x.w, Over(Times(z, x.w), root))
  }

  function ResidualParts(cols: map<Name, Column>, ws: seq<Weight>, i: nat, root: real): (r: seq<ResidualPart>)
    requires root != 0.0
    requires forall k :: 0 <= k < |ws| ==> ws[k].name in cols && i < |cols[ws[k].name]|
  {
    if ws == [] then []
    else
      ResidualParts(cols, ws[..|ws| - 1], i, root)
      + [ResidualPartOf(ws[|ws| - 1], FillZero(cols[ws[|ws| - 1].name][i]), root)]
  }

  /** All observed z-scores of a stock, whatever the strategies' weights. */
  function Observations(strategies: seq<StrategyZ>, code: Code): seq<Observation> {
    if strategies == [] then []
    else if code in strategies[0].z then
      [Observation(strategies[0].name, strategies[0].z[code])] + Observations(strategies[1..], code)
    else Observations(strategies[1..], code)
  }

  // ---------------------------------------------------------------- the score table

  ghost predicate Aligned(cols: map<Name, Column>, n: nat) {
    forall s :: s in cols ==> |cols[s]| == n
  }

  /** The columns restricted to the rows a mask keeps. */
  function KeepRows(mask: seq<bool>, cols: map<Name, Column>): (r: map<Name, Column>)
    requires Aligned(cols, |mask|)
    ensures r.Keys == cols.Keys && Aligned(r, Count(mask))
    ensures forall s :: s in cols ==> r[s] == Keep(mask, cols[s])
  {
    map s | s in cols :: Keep(mask, cols[s])
  }

  /** One score per row; the rank is taken over all rows. */
  function Table(codes: seq<Code>, zs: Vec, rawCols: map<Name, Column>, ws: seq<Weight>, normal: map<Name, Column>,
                 root: real, strategies: seq<StrategyZ>, phi: real -> real): (r: seq<Score>)
    requires |zs| == |codes| && root != 0.0 && Fits(rawCols, ws, |codes|) && Fits(normal, ws, |codes|)
    ensures |r| == |codes|
  {
    var pct := PctRank(zs);
    seq(|codes|, j requires 0 <= j < |codes| =>
      Score(codes[j], zs[j], pct[j], phi(zs[j]) * 100.0, RawParts(rawCols, ws, j), ResidualParts(normal, ws, j, root),
            Observations(strategies, codes[j])))
  }

  // ---------------------------------------------------------------- well-formedness

  lemma {:induction false} ColumnNames(strategies: seq<StrategyZ>, index: seq<Code>)
    ensures forall s :: s in Columns(strategies, index) <==> s in Names(strategies)
  {
    if strategies != [] {
      ColumnNames(strategies[1..], index);
      assert Names(strategies) == [strategies[0].name] + Names(strategies[1..]);
    }
  }

  lemma {:induction false} ColumnOf(strategies: seq<StrategyZ>, index: seq<Code>, i: nat)
    requires Distinct(Names(strategies)) && i < |strategies|
    ensures strategies[i].name in Columns(strategies, index)
    ensures Columns(strategies, index)[strategies[i].name] == Reindex(strategies[i].z, index)
  {
    assert Names(strategies)[i] == strategies[i].name;
    if i > 0 {
      assert Names(strategies)[0] != Names(strategies)[i];
      assert Names(strategies[1..]) == Names(strategies)[1..];
      ColumnOf(strategies[1..], index, i - 1);
    }
  }

  lemma WeightedIs(input: Input)
    requires input.Valid()
    ensures Distinct(Weighted(input))
    ensures forall s :: s in Weighted(input) <==> s in Names(input.strategies) && WeightOf(input.weights, s) > 0.0
    ensures Covers(Matrix(input.strategies), Weighted(input))
  {
    var p := (s: Name) => WeightOf(input.weights, s) > 0.0;
    DistinctFilter(Names(input.strategies), p);
    FilterMembers(Names(input.strategies), p);
    ColumnNames(input.strategies, Matrix(input.strategies).index);
  }

  /** The completed order lists the weighted strategies, each once. */
  lemma EffectiveOrderIs(weighted: seq<Name>, order: seq<Name>, weights: seq<Weight>)
    requires Distinct(weighted) && Distinct(order)
    ensures Distinct(EffectiveOrder(weighted, order, weights))
    ensures forall s :: s in EffectiveOrder(weighted, order, weights) <==> s in weighted
  {
    var kept := Filter(order, (s: Name) => s in weighted);
    FilterMembers(order, (s: Name) => s in weighted);
    DistinctFilter(order, (s: Name) => s in weighted);
    var rest := Filter(weighted, (s: Name) => s !in kept);
    FilterMembers(weighted, (s: Name) => s !in kept);
    DistinctFilter(weighted, (s: Name) => s !in kept);
    DistinctSort(rest, HeavierFirst(weights));
  }

  /** The requested strategies that carry weight, as many as they are, come first in the order requested. */
  function Requested(weighted: seq<Name>, order: seq<Name>): seq<Name> {
    Filter(order, (s: Name) => s in weighted)
  }

  lemma {:induction false} SortEqualWeights(s: seq<Name>, weights: seq<Weight>, w: real)
    requires forall i :: 0 <= i < |s| ==> WeightOf(weights, s[i]) == w
    ensures Sort(s, HeavierFirst(weights)) == s
  {
    if s != [] {
      SortEqualWeights(s[1..], weights, w);
    }
  }

  /** In the completed order every weighted strategy comes exactly once: first the requested ones in the order
      requested, then the others by descending weight, those of equal weight in the order in which they scored. */
  lemma EffectiveOrderArranges(weighted: seq<Name>, order: seq<Name>, weights: seq<Weight>, w: real)
    requires Distinct(weighted) && Distinct(order)
    ensures var all, k := EffectiveOrder(weighted, order, weights), |Requested(weighted, order)|;
      && Distinct(all) && (forall s :: s in all <==> s in weighted)
      && k <= |all| && all[..k] == Requested(weighted, order)
      && (forall i, j :: k <= i < j < |all| ==> WeightOf(weights, all[i]) >= WeightOf(weights, all[j]))
      && Filter(all[k..], (s: Name) => WeightOf(weights, s) == w) ==
         Filter(weighted, (s: Name) => s !in order && WeightOf(weights, s) == w)
  {
    EffectiveOrderIs(weighted, order, weights);
    var kept := Requested(weighted, order);
    var rest := Filter(weighted, (s: Name) => s !in kept);
    var le, same := HeavierFirst(weights), (s: Name) => WeightOf(weights, s) == w;
    var all, k := EffectiveOrder(weighted, order, weights), |kept|;
    assert all[k..] == Sort(rest, le);
    SortSorted(rest, le);
    forall i, j | k <= i < j < |all|
      ensures WeightOf(weights, all[i]) >= WeightOf(weights, all[j])
    {
      assert le(Sort(rest, le)[i - k], Sort(rest, le)[j - k]);
    }
    FilterSort(rest, le, same);
    SortEqualWeights(Filter(rest, same), weights, w);
    FilterMembers(order, (s: Name) => s in weighted);
    assert forall i :: 0 <= i < |weighted| ==> weighted[i] in weighted;
    FilterTwice(weighted, (s: Name) => s !in kept, same, (s: Name) => s !in order && WeightOf(weights, s) == w);
  }

  lemma NormalisedAligned(input: Input, cfg: Config)
    requires input.Valid()
    ensures Aligned(NormalisedColumns(input, cfg), |Matrix(input.strategies).index|)
    ensures forall s :: s in NormalisedColumns(input, cfg) <==> s in Weighted(input)
  {
    var matrix, weighted := Matrix(input.strategies), Weighted(input);
    WeightedIs(input);
    EffectiveOrderIs(weighted, input.order, input.weights);
  }

  lemma {:induction false} WeightOfEntry(weights: seq<Weight>, i: nat)
    requires Distinct(WeightNames(weights)) && i < |weights|
    ensures WeightOf(weights, weights[i].name) == weights[i].w
  {
    assert WeightNames(weights)[i] == weights[i].name;
    if i > 0 {
      assert WeightNames(weights)[0] != WeightNames(weights)[i];
      assert WeightNames(weights[1..]) == WeightNames(weights)[1..];
      WeightOfEntry(weights[1..], i - 1);
    }
  }

  /** The weights that count name weighted strategies, positively. */
  lemma RawWeightsAre(input: Input)
    requires input.Valid()
    ensures forall x :: x in RawWeights(input) ==>
      x.w > 0.0 && x.name in Weighted(input) && x.w == WeightOf(input.weights, x.name)
  {
    WeightedIs(input);
    var p := (x: Weight) => x.name in Names(input.strategies) && x.w > 0.0;
    FilterMembers(input.weights, p);
    forall x | x in RawWeights(input)
      ensures x.w > 0.0 && x.name in Weighted(input) && x.w == WeightOf(input.weights, x.name)
    {
      var i :| 0 <= i < |input.weights| && input.weights[i] == x;
      WeightOfEntry(input.weights, i);
    }
  }

  lemma {:induction false} SquareWeightNonNegative(ws: seq<Weight>)
    ensures SquareWeight(ws) >= 0.0
    ensures (exists k :: 0 <= k < |ws| && ws[k].w > 0.0) ==> SquareWeight(ws) > 0.0
  {
    if ws != [] {
      var w := ws[|ws| - 1].w;
      SquareWeightNonNegative(ws[..|ws| - 1]);
      assert w * w >= 0.0;
      if w > 0.0 {
        Positive(w, w);
      }
    }
  }

  // ---------------------------------------------------------------- the whole aggregation

  /** The weights in force; none when nothing is weighted. */
  ghost function Weights(input: Input): seq<Weight> {
    var raw := RawWeights(input);
    var total := TotalWeight(raw);
    if total <= 0.0 then [] else Scaled(raw, total)
  }

  lemma ScaledPositive(raw: seq<Weight>, total: real)
    requires total > 0.0 && forall k :: 0 <= k < |raw| ==> raw[k].w > 0.0
    ensures forall k :: 0 <= k < |raw| ==> Scaled(raw, total)[k].w > 0.0
  {
    forall k | 0 <= k < |raw|
      ensures raw[k].w / total > 0.0
    {
      OverTimes(raw[k].w, total);
      TimesMonotone(0.0, Over(raw[k].w, total), total);
    }
  }

  lemma WeightsPositive(input: Input)
    requires input.Valid()
    ensures forall k :: 0 <= k < |Weights(input)| ==> Weights(input)[k].w > 0.0
  {
    var raw := RawWeights(input);
    RawWeightsAre(input);
    assert forall k :: 0 <= k < |raw| ==> raw[k] in raw;
    if TotalWeight(raw) > 0.0 {
      ScaledPositive(raw, TotalWeight(raw));
    }
  }

  lemma WeightsAreWeighted(input: Input)
    requires input.Valid()
    ensures forall k :: 0 <= k < |Weights(input)| ==> Weights(input)[k].name in Weighted(input)
  {
    var raw := RawWeights(input);
    RawWeightsAre(input);
    assert forall k :: 0 <= k < |raw| ==> raw[k] in raw;
  }

  lemma MatrixFits(input: Input)
    requires input.Valid()
    ensures Fits(Matrix(input.strategies).cols, Weights(input), |Matrix(input.strategies).index|)
  {
    WeightsAreWeighted(input);
    WeightedIs(input);
  }

  lemma WeightsFit(input: Input, cfg: Config)
    requires input.Valid()
    ensures Fits(NormalisedColumns(input, cfg), Weights(input), |Matrix(input.strategies).index|)
    ensures Used(NormalisedColumns(input, cfg), Weights(input)) == Weights(input)
  {
    WeightsAreWeighted(input);
    NormalisedAligned(input, cfg);
    FilterAll(Weights(input), (x: Weight) => x.name in NormalisedColumns(input, cfg));
  }

  /** composite_z over all rows of the matrix. */
  ghost function CompositeZ(input: Input, cfg: Config): (r: Vec)
    requires input.Valid() && IsRoot(cfg.sqrt) && SquareWeight(Weights(input)) > 0.0
    ensures |r| == |Matrix(input.strategies).index|
  {
    WeightsFit(input, cfg);
    RootPositive(cfg.sqrt, SquareWeight(Weights(input)));
    Standardise(WeightedSum(NormalisedColumns(input, cfg), Weights(input), |Matrix(input.strategies).index|),
                0.0, cfg.sqrt(SquareWeight(Weights(input))))
  }

  lemma RootPositive(sqrt: real -> real, x: real)
    requires IsRoot(sqrt) && x > 0.0
    ensures sqrt(x) > 0.0
  {
    assert sqrt(x) * sqrt(x) == x;
  }

  /** The rows in which some weighted strategy is present. */
  ghost function Seen(input: Input): (mask: seq<bool>)
    requires input.Valid()
    ensures |mask| == |Matrix(input.strategies).index|
  {
    MatrixFits(input);
    AnyPresent(Matrix(input.strategies).cols, Weights(input), |Matrix(input.strategies).index|)
  }

  ghost function Aggregate(input: Input, cfg: Config): seq<Score>
    requires input.Valid() && IsRoot(cfg.sqrt)
  {
    var ws := Weights(input);
    if input.strategies == [] || SquareWeight(ws) <= 0.0 then []
    else
      MatrixFits(input);
      WeightsFit(input, cfg);
      RootPositive(cfg.sqrt, SquareWeight(ws));
      NormalisedAligned(input, cfg);
      var matrix, mask := Matrix(input.strategies), Seen(input);
      Table(Keep(mask, matrix.index), Keep(mask, CompositeZ(input, cfg)), KeepRows(mask, matrix.cols), ws,
            KeepRows(mask, NormalisedColumns(input, cfg)), cfg.sqrt(SquareWeight(ws)), input.strategies, cfg.phi)
  }
}
