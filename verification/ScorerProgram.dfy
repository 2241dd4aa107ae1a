/** The scoring program itself: the accumulating loops, proved to compute the aggregation. */
module ScorerProgram {
  import opened Vectors
  import opened Series
  import opened Orthogonalizer
  import opened Ranking
  import opened Scorer

  lemma NothingWeighted(input: Input)
    requires input.Valid() && Weighted(input) == []
    ensures Weights(input) == []
  {
    var raw := RawWeights(input);
    assert |raw| > 0 ==> raw[0] in raw;
    RawWeightsAre(input);
  }

  method NormaliseStrategies(input: Input, cfg: Config, matrix: Frame) returns (normal: map<Name, Column>)
    requires input.Valid() && matrix == Matrix(input.strategies)
    ensures normal == NormalisedColumns(input, cfg)
  {
    var weighted := Weighted(input);
    WeightedIs(input);
    if input.single || |weighted| <= 1 {
      normal := map s | s in weighted && s in matrix.cols :: matrix.cols[s];
    } else {
      var order := EffectiveOrder(weighted, input.order, input.weights);
      EffectiveOrderIs(weighted, input.order, input.weights);
      var out := Compute(matrix, order, cfg.ratio, cfg.sqrt);
      normal := out.value.cols;
    }
  }

  method SumWeights(raw: seq<Weight>) returns (total: real)
    ensures total == TotalWeight(raw)
  {
    total := 0.0;
    for k := 0 to |raw|
      invariant total == TotalWeight(raw[..k])
    {
      assert raw[..k + 1][..k] == raw[..k];
      total := total + raw[k].w;
    }
    assert raw[..|raw|] == raw;
  }

  method Accumulate(normal: map<Name, Column>, ws: seq<Weight>, n: nat) returns (weightedZ: Vec, squares: real)
    requires Fits(normal, ws, n)
    ensures weightedZ == WeightedSum(normal, ws, n) && squares == SquareWeight(ws)
  {
    weightedZ, squares := Constant(n, 0.0), 0.0;
    for k := 0 to |ws|
      invariant weightedZ == WeightedSum(normal, ws[..k], n)
      invariant squares == SquareWeight(ws[..k])
    {
      assert ws[..k + 1][..k] == ws[..k];
      if ws[k].name in normal {
        weightedZ := AddScaled(weightedZ, ws[k].w, Filled(normal[ws[k].name]));
        squares := squares + Times(ws[k].w, ws[k].w);
      }
    }
    assert ws[..|ws|] == ws;
  }

  method Breakdowns(rawCols: map<Name, Column>, normal: map<Name, Column>, ws: seq<Weight>, n: nat, i: nat, root: real)
    returns (raw: seq<RawPart>, residual: seq<ResidualPart>)
    requires Fits(rawCols, ws, n) && Fits(normal, ws, n) && i < n && root != 0.0
    ensures raw == RawParts(rawCols, ws, i) && residual == ResidualParts(normal, ws, i, root)
  {
    raw, residual := [], [];
    for k := 0 to |ws|
      invariant raw == RawParts(rawCols, ws[..k], i)
      invariant residual == ResidualParts(normal, ws[..k], i, root)
    {
      assert ws[..k + 1][..k] == ws[..k];
      raw := raw + RawPartOf(ws[k], rawCols[ws[k].name][i]);
      if ws[k].name in normal {
        residual := residual + [ResidualPartOf(ws[k], FillZero(normal[ws[k].name][i]), root)];
      }
    }
    assert ws[..|ws|] == ws;
  }

  method AggregateScores(input: Input, cfg: Config) returns (results: seq<Score>)
    requires input.Valid() && IsRoot(cfg.sqrt)
    ensures results == Aggregate(input, cfg)
  {
    results := [];
    if input.strategies == [] {
      return;
    }
    var matrix := Matrix(input.strategies);
    if Weighted(input) == [] {
      NothingWeighted(input);
      return;
    }
    var normal := NormaliseStrategies(input, cfg, matrix);
    var raw := RawWeights(input);
    var total := SumWeights(raw);
    if total <= 0.0 {
      return;
    }
    var ws := Scaled(raw, total);
    MatrixFits(input);
    WeightsFit(input, cfg);
    var weightedZ, squares := Accumulate(normal, ws, |matrix.index|);
    if squares <= 0.0 {
      return;
    }
    var root := cfg.sqrt(squares);
    RootPositive(cfg.sqrt, squares);
    var compositeZ := Standardise(weightedZ, 0.0, root);
    var mask := AnyPresent(matrix.cols, ws, |matrix.index|);
    NormalisedAligned(input, cfg);
    results := ScoreRows(Keep(mask, matrix.index), Keep(mask, compositeZ), KeepRows(mask, matrix.cols), ws,
                         KeepRows(mask, normal), root, input.strategies, cfg.phi);
  }

  method ScoreRows(codes: seq<Code>, zs: Vec, rawCols: map<Name, Column>, ws: seq<Weight>, normal: map<Name, Column>,
                   root: real, strategies: seq<StrategyZ>, phi: real -> real) returns (results: seq<Score>)
    requires |zs| == |codes| && root != 0.0 && Fits(rawCols, ws, |codes|) && Fits(normal, ws, |codes|)
    ensures results == Table(codes, zs, rawCols, ws, normal, root, strategies, phi)
  {
    var pct := PctRank(zs);
    ghost var table := Table(codes, zs, rawCols, ws, normal, root, strategies, phi);
    results := [];
    for j := 0 to |codes|
      invariant results == table[..j]
    {
      var rawParts, residualParts := Breakdowns(rawCols, normal, ws, |codes|, j, root);
      results := results + [Score(codes[j], zs[j], pct[j], phi(zs[j]) * 100.0, rawParts, residualParts,
                                  Observations(strategies, codes[j]))];
    }
  }
}
