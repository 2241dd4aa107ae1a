/** The re-standardisation of each strategy's scores, and what it gives for the composite when coverage is common. */
module StandardisedInput {
  import opened Vectors
  import opened Statistics
  import opened Series
  import opened Sorting
  import opened Orthogonalizer
  import opened Scorer
  import opened CompositeVariance

  /** The values of a dictionary in code order. */
  function Values(z: map<Code, real>): (u: Vec) {
    Present(Reindex(z, Ascending(z.Keys)))
  }

  function Clip(x: real): real {
    if x < -3.5 then -3.5 else if x > 3.5 then 3.5 else x
  }

  /** (z - mean) / std, unless there is no spread, then clipped to 3.5 deviations. */
  function Restandardised(raw: map<Code, real>, sqrt: real -> real): map<Code, real> {
    var u := Values(raw);
    var sd := Std(Numbers(u), 1, sqrt);
    if sd.Num? && sd.v > TINY && |u| > 0 then map c | c in raw :: Clip(ZCell(raw[c], Mean(u), sd.v))
    else map c | c in raw :: Clip(raw[c])
  }

  /** The scores sum to zero and have sample variance one. */
  ghost predicate UnitScores(z: map<Code, real>) {
    |Values(z)| >= 2 && Sum(Values(z)) == 0.0 && Variance(Values(z), 1) == 1.0
  }

  /** The values of a dictionary appear in the same order in any longer ascending index. */
  lemma {:induction false} PresentReindex(z: map<Code, real>, index: seq<Code>)
    ensures Present(Reindex(z, index)) == Present(Reindex(z, Filter(index, (c: Code) => c in z)))
  {
    var p := (c: Code) => c in z;
    if index != [] {
      PresentReindex(z, index[1..]);
      assert Reindex(z, index)[1..] == Reindex(z, index[1..]);
      if p(index[0]) {
        assert Reindex(z, Filter(index, p))[1..] == Reindex(z, Filter(index[1..], p));
      } else {
        assert Filter(index, p) == Filter(index[1..], p);
      }
    }
  }

  /** Scores above every code of a larger index are still the dictionary's values. */
  lemma ValuesInIndex(z: map<Code, real>, index: seq<Code>)
    requires Increasing(index) && forall c :: c in z ==> c in index
    ensures Present(Reindex(z, index)) == Values(z)
  {
    var p := (c: Code) => c in z;
    PresentReindex(z, index);
    FilterMembers(index, p);
    FilterIncreasing(index, p);
    AscendingIs(z.Keys);
    IncreasingUnique(Filter(index, p), Ascending(z.Keys));
  }

  lemma ScoredDictionary(raw: map<Code, real>, z: map<Code, real>, m: real, sd: real)
    requires sd != 0.0 && z.Keys == raw.Keys && forall c :: c in raw ==> z[c] == ZCell(raw[c], m, sd)
    ensures Values(z) == Standardise(Values(raw), m, sd)
  {
    var index := Ascending(raw.Keys);
    AscendingIs(raw.Keys);
    forall i | 0 <= i < |index|
      ensures Reindex(z, index)[i] == Scores(Reindex(raw, index), m, sd)[i]
    {
      assert index[i] in index;
    }
    assert Reindex(z, index) == Scores(Reindex(raw, index), m, sd);
    PresentScores(Reindex(raw, index), m, sd);
  }

  lemma NotClipped(raw: map<Code, real>, sqrt: real -> real)
    requires |Values(raw)| >= 2
    requires var sd := sqrt(Variance(Values(raw), 1));
      sd > TINY && forall c :: c in raw ==> -3.5 <= ZCell(raw[c], Mean(Values(raw)), sd) <= 3.5
    ensures var z, sd := Restandardised(raw, sqrt), sqrt(Variance(Values(raw), 1));
      z.Keys == raw.Keys && forall c :: c in raw ==> z[c] == ZCell(raw[c], Mean(Values(raw)), sd)
  {
    PresentNumbers(Values(raw));
  }

  /** The standard scores of a dictionary with spread are unit scores. */
  lemma ScoredIsUnit(raw: map<Code, real>, z: map<Code, real>, sd: real, sqrt: real -> real)
    requires IsRoot(sqrt) && |Values(raw)| >= 2 && sd == sqrt(Variance(Values(raw), 1)) > 0.0
    requires z.Keys == raw.Keys && forall c :: c in raw ==> z[c] == ZCell(raw[c], Mean(Values(raw)), sd)
    ensures UnitScores(z)
  {
    var u := Values(raw);
    ScoredDictionary(raw, z, Mean(u), sd);
    RootOfVariance(u, sqrt);
    StandardScore(u, sd);
  }

  /** Re-standardising scores that have some spread, and none of which is clipped, gives unit scores. */
  lemma RestandardisedUnit(raw: map<Code, real>, sqrt: real -> real)
    requires IsRoot(sqrt) && |Values(raw)| >= 2
    requires var sd := sqrt(Variance(Values(raw), 1));
      sd > TINY && forall c :: c in raw ==> -3.5 <= ZCell(raw[c], Mean(Values(raw)), sd) <= 3.5
    ensures UnitScores(Restandardised(raw, sqrt))
  {
    NotClipped(raw, sqrt);
    ScoredIsUnit(raw, Restandardised(raw, sqrt), sqrt(Variance(Values(raw), 1)), sqrt);
  }

  /** x, moved into the interval from -3.5 to 3.5. */
  ghost predicate IsClipped(x: real, y: real) {
    && -3.5 <= y <= 3.5
    && (-3.5 <= x <= 3.5 ==> y == x) && (x < -3.5 ==> y == -3.5) && (x > 3.5 ==> y == 3.5)
  }

  /** Every score of the re-standardised dictionary: the deviation from the mean in deviations, clipped at 3.5; without
      at least two values and some spread, the clipped score itself. */
  lemma RestandardisedIs(raw: map<Code, real>, sqrt: real -> real, c: Code)
    requires c in raw
    ensures Restandardised(raw, sqrt).Keys == raw.Keys
    ensures var u, z := Values(raw), Restandardised(raw, sqrt)[c];
      if |u| >= 2 && sqrt(Variance(u, 1)) > 0.000000000001
      then IsClipped(ZCell(raw[c], Mean(u), sqrt(Variance(u, 1))), z)
      else IsClipped(raw[c], z)
  {
    PresentNumbers(Values(raw));
  }

  // ---------------------------------------------------------------- common coverage

  /** All weighted strategies score the same stocks, with unit scores; shadow strategies may score any others. */
  ghost predicate CommonCoverage(input: Input, covered: set<Code>) {
    forall i :: 0 <= i < |input.strategies| && input.strategies[i].name in Weighted(input) ==>
      (input.strategies[i].z.Keys == covered && UnitScores(input.strategies[i].z))
  }

  lemma ColumnValues(input: Input, i: nat)
    requires input.Valid() && i < |input.strategies|
    ensures input.strategies[i].name in Matrix(input.strategies).cols
    ensures Matrix(input.strategies).cols[input.strategies[i].name] ==
      Reindex(input.strategies[i].z, Matrix(input.strategies).index)
    ensures Present(Reindex(input.strategies[i].z, Matrix(input.strategies).index)) == Values(input.strategies[i].z)
  {
    var index := Matrix(input.strategies).index;
    ColumnOf(input.strategies, index, i);
    AscendingIs(AllCodes(input.strategies));
    ShadowStrategies.AllCodesIs(input.strategies);
    forall c | c in input.strategies[i].z
      ensures c in index
    {
      assert c in AllCodes(input.strategies);
    }
    ValuesInIndex(input.strategies[i].z, index);
  }

  lemma WeightedColumn(input: Input, covered: set<Code>, s: Name)
    requires input.Valid() && CommonCoverage(input, covered) && s in Weighted(input)
    ensures s in Matrix(input.strategies).cols
    ensures var m := Matrix(input.strategies);
      && (forall j :: 0 <= j < |m.index| ==> (m.cols[s][j].Num? <==> m.index[j] in covered))
      && |Present(m.cols[s])| >= 2 && Sum(Present(m.cols[s])) == 0.0 && Variance(Present(m.cols[s]), 1) == 1.0
  {
    assert s in Names(input.strategies) by { WeightedIs(input); }
    var i :| 0 <= i < |input.strategies| && Names(input.strategies)[i] == s;
    ColumnValues(input, i);
  }

  /** The rows covered in common are exactly the full rows. */
  lemma FullIsCovered(input: Input, covered: set<Code>)
    requires input.Valid() && CommonCoverage(input, covered) && Weighted(input) != []
    ensures Covers(Matrix(input.strategies), Order(input))
    ensures forall j :: 0 <= j < |Full(input)| ==> (Full(input)[j] <==> Matrix(input.strategies).index[j] in covered)
  {
    OrderIs(input);
    forall s | s in Order(input)
      ensures forall j :: 0 <= j < |Full(input)| ==>
        (Matrix(input.strategies).cols[s][j].Num? <==> Matrix(input.strategies).index[j] in covered)
    {
      WeightedColumn(input, covered, s);
    }
    assert Order(input)[0] in Order(input);
  }

  lemma {:induction false} CountAtLeast(mask: seq<bool>, x: Column)
    requires |mask| == |x| && forall i :: 0 <= i < |x| && x[i].Num? ==> mask[i]
    ensures |Present(x)| <= Count(mask)
  {
    if x != [] {
      CountAtLeast(mask[1..], x[1..]);
    }
  }

  /** End to end: when every weighted strategy scores the same stocks with (unclipped) standardised scores, the
      composite over those stocks has mean 0 and sample variance the share of squared weight that survives; nothing is
      assumed about residuals, shadow strategies or other stocks. */
  lemma CommonCoverageUnitVariance(input: Input, cfg: Config, covered: set<Code>)
    requires input.Valid() && IsRoot(cfg.sqrt) && cfg.ratio >= COLLINEAR_RATIO
    requires !input.single && |Weighted(input)| >= 2 && CommonCoverage(input, covered)
    ensures Multi(input) && Ready(input, cfg)
    ensures Sum(FullComposite(input, cfg)) == 0.0
    ensures Variance(FullComposite(input, cfg), 1) == Over(SurvivingSquares(input, cfg), SquareWeight(Weights(input)))
    ensures Variance(FullComposite(input, cfg), 1) <= 1.0
    ensures Variance(FullComposite(input, cfg), 1) == 1.0 <==>
      forall s :: s in Weighted(input) ==> Survives(input, cfg, s)
  {
    CoveredIsMulti(input, covered);
    CoveredIsCentred(input, cfg, covered);
    SpreadInputIsLive(input, cfg);
    CompositeMeanZero(input, cfg);
    CompositeUnitVariance(input, cfg);
  }

  /** Any weighted strategy's scores fill the full rows. */
  lemma CoveredFillsRows(input: Input, covered: set<Code>, s: Name)
    requires input.Valid() && CommonCoverage(input, covered) && s in Weighted(input)
    ensures Covers(Matrix(input.strategies), Order(input)) && Count(Full(input)) >= 2
  {
    FullIsCovered(input, covered);
    WeightedColumn(input, covered, s);
    CountAtLeast(Full(input), Matrix(input.strategies).cols[s]);
  }

  lemma CoveredIsMulti(input: Input, covered: set<Code>)
    requires input.Valid() && !input.single && |Weighted(input)| >= 2 && CommonCoverage(input, covered)
    ensures Multi(input)
  {
    CoveredFillsRows(input, covered, Weighted(input)[0]);
  }

  lemma CoveredColumnCentred(input: Input, cfg: Config, covered: set<Code>, s: Name)
    requires Multi(input) && IsRoot(cfg.sqrt) && CommonCoverage(input, covered) && s in Weighted(input)
    requires forall j :: 0 <= j < |Full(input)| ==> (Full(input)[j] <==> Matrix(input.strategies).index[j] in covered)
    ensures s in Matrix(input.strategies).cols
    ensures Total(Keep(Full(input), Matrix(input.strategies).cols[s])) == 0.0
    ensures OriginalStd(Matrix(input.strategies).cols[s], cfg.sqrt) == 1.0
  {
    WeightedColumn(input, covered, s);
    PresentKeep(Full(input), Matrix(input.strategies).cols[s]);
    RootOfOne(cfg.sqrt);
  }

  lemma CoveredIsCentred(input: Input, cfg: Config, covered: set<Code>)
    requires Multi(input) && IsRoot(cfg.sqrt) && CommonCoverage(input, covered)
    ensures CentredInput(input)
    ensures forall s :: s in Order(input) ==> OriginalStd(Matrix(input.strategies).cols[s], cfg.sqrt) >= 0.00001
  {
    OrderIs(input);
    FullIsCovered(input, covered);
    forall s | s in Order(input)
      ensures Total(Keep(Full(input), Matrix(input.strategies).cols[s])) == 0.0
      ensures OriginalStd(Matrix(input.strategies).cols[s], cfg.sqrt) >= 0.00001
    {
      CoveredColumnCentred(input, cfg, covered, s);
    }
  }

  lemma RootOfOne(sqrt: real -> real)
    requires IsRoot(sqrt)
    ensures sqrt(1.0) == 1.0
  {
    assert sqrt(1.0) * sqrt(1.0) == 1.0;
    RootUnique(sqrt(1.0), 1.0);
  }
}
