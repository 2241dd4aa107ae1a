/** One small day on which the strategies cover different stocks: where the composite misses its intended variance, and
    where a stock is scored zero although a strategy scored it. */
module SampleDay {
  import opened Vectors
  import opened Statistics
  import opened Series
  import opened Sorting
  import opened Orthogonalizer
  import opened Scorer
  import opened CompositeVariance
  import PartialCoverage
  import ScoreTheorems
  import StandardisedInput
  import opened TwoStrategies

  const A := Strategy(1)
  const B := Strategy(2)

  /** Both are standardised: they sum to zero and have sample variance one. A does not score stock 3, B not stock 4. */
  const ZA: map<Code, real> := map[1 := 0.0, 2 := 1.0, 4 := -1.0]
  const ZB: map<Code, real> := map[1 := 1.0, 2 := 0.0, 3 := -1.0]

  const DAY := Input([StrategyZ(A, ZA), StrategyZ(B, ZB)], [Weight(A, 0.5), Weight(B, 0.5)], [A, B], false)

  lemma DayWeights()
    ensures WeightOf(DAY.weights, A) == 0.5 && WeightOf(DAY.weights, B) == 0.5
    ensures Names(DAY.strategies) == [A, B] && DAY.Valid()
  {
    assert DAY.weights[1..] == [Weight(B, 0.5)];
    assert WeightOf([Weight(B, 0.5)], B) == 0.5;
    assert WeightNames(DAY.weights) == [A, B];
  }

  lemma DayWeighted()
    ensures DAY.Valid() && Weighted(DAY) == [A, B] && Order(DAY) == [A, B]
  {
    DayWeights();
    FilterAll([A, B], (s: Name) => WeightOf(DAY.weights, s) > 0.0);
    FilterAll([A, B], (s: Name) => s in [A, B]);
    FilterNone([A, B], (s: Name) => s !in [A, B]);
  }

  lemma DayCodes()
    ensures AllCodes(DAY.strategies) == {1, 2, 3, 4}
  {
    var st := DAY.strategies;
    assert st[1..] == [StrategyZ(B, ZB)] && st[1..][1..] == [];
    assert AllCodes(st[1..]) == ZB.Keys + AllCodes(st[1..][1..]);
  }

  lemma FourAscend(s: set<int>, l: seq<int>)
    requires s == {1, 2, 3, 4} && l == [1, 2, 3, 4]
    ensures Ascending(s) == l
  {
    AscendingIs(s);
    assert l[0] == 1 && l[1] == 2 && l[2] == 3 && l[3] == 4;
    forall x: int
      ensures x in Ascending(s) <==> x in l
    {
      assert x in s <==> x == 1 || x == 2 || x == 3 || x == 4;
    }
    IncreasingUnique(Ascending(s), l);
  }

  lemma DayIndex()
    ensures Matrix(DAY.strategies).index == [1, 2, 3, 4]
  {
    DayCodes();
    FourAscend(AllCodes(DAY.strategies), [1, 2, 3, 4]);
  }

  lemma DayColumns()
    ensures var cols := Matrix(DAY.strategies).cols;
      && A in cols && B in cols
      && cols[A] == [Num(0.0), Num(1.0), NaN, Num(-1.0)] && cols[B] == [Num(1.0), Num(0.0), Num(-1.0), NaN]
  {
    DayWeights();
    DayIndex();
    ColumnOf(DAY.strategies, [1, 2, 3, 4], 0);
    ColumnOf(DAY.strategies, [1, 2, 3, 4], 1);
  }

  lemma DayFull()
    ensures Covers(Matrix(DAY.strategies), Order(DAY)) && Full(DAY) == [true, true, false, false] &&
      Count(Full(DAY)) == 2
  {
    DayWeighted();
    DayIndex();
    DayColumns();
    var full := Full(DAY);
    assert A in Order(DAY) && B in Order(DAY);
    forall i | 0 <= i < 4
      ensures full[i] <==> i < 2
    {
      assert Matrix(DAY.strategies).cols[A][i].Num? && Matrix(DAY.strategies).cols[B][i].Num? <==> i < 2;
    }
    CountOfFour(full);
  }

  lemma CountOfFour(mask: seq<bool>)
    requires mask == [true, true, false, false]
    ensures Count(mask) == 2
  {
    assert mask[1..][1..][1..][1..] == [];
    assert Count(mask[1..][1..][1..]) == 0 && Count(mask[1..][1..]) == 0 && Count(mask[1..]) == 1;
  }

  lemma DayMulti()
    ensures Multi(DAY)
  {
    DayWeighted();
    DayFull();
  }

  // ---------------------------------------------------------------- the scores over the common stocks

  lemma KeepOfFour<T>(mask: seq<bool>, x: seq<T>)
    requires mask == [true, true, false, false] && |x| == 4
    ensures Keep(mask, x) == [x[0], x[1]]
  {
    assert mask[1..][1..][1..][1..] == [];
    assert Keep(mask[1..][1..][1..], x[1..][1..][1..]) == [];
    assert Keep(mask[1..][1..], x[1..][1..]) == [];
    assert Keep(mask[1..], x[1..]) == [x[1]];
  }

  lemma DayFullScores()
    ensures Multi(DAY) && A in Order(DAY) && B in Order(DAY) && Order(DAY) == [A, B]
    ensures FullScores(DAY, A) == [0.0, 1.0] && FullScores(DAY, B) == [1.0, 0.0]
  {
    DayMulti();
    DayWeighted();
    DayFull();
    DayColumns();
    var cols := Matrix(DAY.strategies).cols;
    KeepOfFour(Full(DAY), cols[A]);
    KeepOfFour(Full(DAY), cols[B]);
    assert Filled([Num(0.0), Num(1.0)]) == [0.0, 1.0];
    assert Filled([Num(1.0), Num(0.0)]) == [1.0, 0.0];
  }

  lemma VarianceOfTwo(u: Vec)
    requires u == [0.0, 1.0] || u == [1.0, 0.0]
    ensures Variance(u, 0) == 0.25 && Variance(u, 1) == 0.5 && Sum(u) == 1.0 && Norm2(u) == 1.0
  {
    assert u[1..] == [u[1]] && [u[1]][1..] == [];
    assert Sum([u[1]]) == u[1] && Dot([u[1]], [u[1]]) == Times(u[1], u[1]);
    DeviationIs(u);
  }

  lemma DotOfThree(u: Vec, v: Vec)
    requires |u| == |v| == 3
    ensures Dot(u, v) == Times(u[0], v[0]) + Times(u[1], v[1]) + Times(u[2], v[2])
  {
    assert u[1..][1..] == [u[2]] && v[1..][1..] == [v[2]];
    assert Dot([u[2]], [v[2]]) == Times(u[2], v[2]) + Dot([], []);
    assert Dot(u[1..], v[1..]) == Times(u[1], v[1]) + Dot(u[1..][1..], v[1..][1..]);
  }

  lemma VarianceOfThree(u: Vec, m: real)
    requires |u| == 3 && u[0] + u[1] + u[2] == 3.0 * m
    ensures Mean(u) == m
    ensures Variance(u, 1) == (Times(u[0], u[0]) + Times(u[1], u[1]) + Times(u[2], u[2]) - Times(m, 3.0 * m)) / 2.0
  {
    assert u[1..][1..] == [u[2]];
    assert Sum([u[2]]) == u[2] + Sum([]);
    assert Sum(u[1..]) == u[1] + Sum(u[1..][1..]);
    assert Sum(u) == 3.0 * m;
    DotOfThree(u, u);
    DeviationIs(u);
  }

  lemma RootAtLeast(v: real, c: real, sqrt: real -> real)
    requires IsRoot(sqrt) && c >= 0.0 && v >= Times(c, c)
    ensures sqrt(v) >= c
  {
    assert c * c >= 0.0;
    var r := sqrt(v);
    assert r >= 0.0 && Times(r, r) == v;
    if r < c {
      TimesMonotone(r, c, c);
      if r > 0.0 {
        TimesMonotone(r, c, r);
      }
    }
  }

  lemma DayOriginals(sqrt: real -> real)
    requires IsRoot(sqrt)
    ensures var cols := Matrix(DAY.strategies).cols;
      && A in cols && B in cols && OriginalStd(cols[A], sqrt) == 1.0 && OriginalStd(cols[B], sqrt) == 1.0
  {
    DayColumns();
    var cols := Matrix(DAY.strategies).cols;
    ThreePresent(cols[A]);
    ThreePresent(cols[B]);
    VarianceOfThree(Present(cols[A]), 0.0);
    VarianceOfThree(Present(cols[B]), 0.0);
    StandardisedInput.RootOfOne(sqrt);
  }

  lemma ThreePresent(x: Column)
    requires x == [Num(0.0), Num(1.0), NaN, Num(-1.0)] || x == [Num(1.0), Num(0.0), Num(-1.0), NaN]
    ensures Present(x) == [x[0].v, x[1].v, -1.0]
  {
    var t := x[1..][1..];
    assert t[1..][1..] == [];
    assert Present(t[1..]) == if t[1].Num? then [t[1].v] else [];
    assert Present(t) == [-1.0];
    assert Present(x[1..]) == [x[1].v, -1.0];
  }

  // ---------------------------------------------------------------- nobody is dropped

  /** The deviations that matter are between a half and one. */
  lemma DayRoots(u: Vec, sqrt: real -> real)
    requires IsRoot(sqrt) && (u == [0.0, 1.0] || u == [1.0, 0.0])
    ensures sqrt(Variance(u, 0)) >= TINY && sqrt(Variance(u, 1)) >= TINY && sqrt(Variance(u, 1)) >= 0.3
  {
    VarianceOfTwo(u);
    RootAtLeast(0.25, 0.5, sqrt);
    RootAtLeast(0.5, 0.5, sqrt);
  }

  lemma NothingProjected(a: Vec, b: Vec)
    requires a == [0.0, 1.0] && b == [1.0, 0.0]
    ensures Projection.Out(b, a) == b && Dot(a, b) == 0.0
  {
    assert a[1..] == [1.0] && b[1..] == [0.0] && [1.0][1..] == [] && [0.0][1..] == [];
    assert Dot([0.0], [1.0]) == 0.0 && Dot([1.0], [0.0]) == 0.0;
    assert Dot(b, a) == 0.0;
    VarianceOfTwo(a);
    assert Projection.Coef(b, a) == 0.0;
  }

  /** Neither column loses anything: they are orthogonal, and both keep their spread. */
  lemma DaySpreads(cfg: Config)
    requires IsRoot(cfg.sqrt) && cfg.ratio == COLLINEAR_RATIO
    ensures Multi(DAY) && Order(DAY) == [A, B] && A in Order(DAY) && B in Order(DAY)
    ensures SpreadOf(DAY, cfg, A) == 1.0 && HasSpread(FullScores(DAY, A), 1.0, cfg)
    ensures SpreadOf(DAY, cfg, B) == 1.0 && HasSpread(Projection.Out(FullScores(DAY, B), FullScores(DAY, A)), 1.0, cfg)
  {
    DayFullScores();
    DayOriginals(cfg.sqrt);
    DayRoots([0.0, 1.0], cfg.sqrt);
    DayRoots([1.0, 0.0], cfg.sqrt);
    NothingProjected([0.0, 1.0], [1.0, 0.0]);
  }

  lemma DayIsKept(cfg: Config)
    requires IsRoot(cfg.sqrt) && cfg.ratio == COLLINEAR_RATIO
    ensures Multi(DAY) && Survives(DAY, cfg, A) && Survives(DAY, cfg, B)
  {
    DaySpreads(cfg);
    SurvivesIff(DAY, cfg, 0);
    SurvivesIff(DAY, cfg, 1);
    FirstReduced(DAY, cfg);
    SecondIsProjected(DAY, cfg);
  }

  // ---------------------------------------------------------------- what the day shows

  lemma DayIsStandardised()
    ensures StandardisedInput.UnitScores(ZA) && StandardisedInput.UnitScores(ZB)
  {
    DayWeights();
    DayColumns();
    StandardisedInput.ColumnValues(DAY, 0);
    StandardisedInput.ColumnValues(DAY, 1);
    var cols := Matrix(DAY.strategies).cols;
    ThreePresent(cols[A]);
    ThreePresent(cols[B]);
    VarianceOfThree(Present(cols[A]), 0.0);
    VarianceOfThree(Present(cols[B]), 0.0);
    MeanTimesCount(Present(cols[A]));
    MeanTimesCount(Present(cols[B]));
  }

  /** None of the cases in which the composite has the intended variance. */
  lemma DayIsNoException()
    ensures Multi(DAY) && A in Order(DAY) && B in Order(DAY)
    ensures var a, b := FullScores(DAY, A), FullScores(DAY, B);
      Sum(a) != 0.0 && Times(Norm2(a), Sum(b)) != Times(Dot(a, b), Sum(a))
  {
    DayFullScores();
    VarianceOfTwo([0.0, 1.0]);
    VarianceOfTwo([1.0, 0.0]);
    NothingProjected([0.0, 1.0], [1.0, 0.0]);
  }

  lemma DayVarianceMisses(cfg: Config)
    requires IsRoot(cfg.sqrt) && cfg.ratio == COLLINEAR_RATIO
    ensures Ready(DAY, cfg)
    ensures Variance(FullComposite(DAY, cfg), 1) != Over(SurvivingSquares(DAY, cfg), SquareWeight(Weights(DAY)))
  {
    DayWeighted();
    DayOriginals(cfg.sqrt);
    DaySpreads(cfg);
    DayIsNoException();
    ScoresDecideVariance(DAY, cfg);
  }

  /** Standardised scores, nobody dropped, and still the variance of the composite over the common stocks is not the
      share of squared weight that survives: the strategies do not cover the same stocks. */
  lemma DayMissesUnitVariance(cfg: Config)
    requires IsRoot(cfg.sqrt) && cfg.ratio == COLLINEAR_RATIO
    ensures StandardisedInput.UnitScores(ZA) && StandardisedInput.UnitScores(ZB)
    ensures Ready(DAY, cfg) && Survives(DAY, cfg, A) && Survives(DAY, cfg, B)
    ensures Variance(FullComposite(DAY, cfg), 1) != Over(SurvivingSquares(DAY, cfg), SquareWeight(Weights(DAY)))
  {
    DayIsStandardised();
    DayVarianceMisses(cfg);
    DayIsKept(cfg);
  }

  lemma DayListsThree(cfg: Config) returns (j: nat)
    requires IsRoot(cfg.sqrt)
    ensures DAY.Valid() && j < |Aggregate(DAY, cfg)| && Aggregate(DAY, cfg)[j].code == 3
  {
    DayWeighted();
    var a := 1;
    assert DAY.strategies[a].name in Weighted(DAY) && 3 in DAY.strategies[a].z;
    j := ScoreTheorems.CoveredIsListed(DAY, cfg, 3);
  }

  lemma DayLacksThree()
    ensures Multi(DAY) && DAY.strategies[0].name in Weighted(DAY) && 3 !in DAY.strategies[0].z
  {
    DayMulti();
    DayWeighted();
  }

  lemma DayRowThree()
    ensures Multi(DAY) && Matrix(DAY.strategies).index == [1, 2, 3, 4] && !Full(DAY)[2]
    ensures B in Weighted(DAY) && PartialCoverage.CellAt(Matrix(DAY.strategies).cols, B, 2) == Num(-1.0)
  {
    DayIndex();
    DayColumns();
    DayFull();
    DayMulti();
    DayWeighted();
  }

  /** B, which is not dropped, scores stock 3 at -1, one deviation below its mean, and the row of stock 3 does not count
      it. */
  lemma DayIgnoresScore(cfg: Config)
    requires IsRoot(cfg.sqrt) && cfg.ratio == COLLINEAR_RATIO
    ensures Multi(DAY) && Matrix(DAY.strategies).index == [1, 2, 3, 4]
    ensures Survives(DAY, cfg, B) && !PartialCoverage.CountsWhatItHas(DAY, cfg, 2)
  {
    DayRowThree();
    DayIsKept(cfg);
    PartialCoverage.CountsWhatItHasIff(DAY, cfg, 2);
  }

  /** The table lists stock 3 with composite zero. */
  lemma DayScoresZero(cfg: Config) returns (j: nat)
    requires IsRoot(cfg.sqrt) && cfg.ratio == COLLINEAR_RATIO
    ensures ZB[3] == -1.0 && Multi(DAY) && Survives(DAY, cfg, B) && j < |Aggregate(DAY, cfg)|
    ensures Aggregate(DAY, cfg)[j].code == 3 && Aggregate(DAY, cfg)[j].compositeZ == 0.0
  {
    j := DayListsThree(cfg);
    DayLacksThree();
    DayIsKept(cfg);
    PartialCoverage.UncoveredScoresZero(DAY, cfg, j, 0);
  }
}
