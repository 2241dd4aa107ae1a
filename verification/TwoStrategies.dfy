/** The variance of the composite of two strategies, in terms of their scores alone. */
module TwoStrategies {
  import opened Vectors
  import opened Statistics
  import opened Series
  import opened Sorting
  import opened Orthogonalizer
  import opened Scorer
  import opened CompositeVariance

  // ---------------------------------------------------------------- two weights

  /** Distinct names that are all one of two are at most two. */
  lemma AtMostTwo(o: seq<Name>, x: Name, y: Name)
    requires Distinct(o) && forall k :: 0 <= k < |o| ==> o[k] == x || o[k] == y
    ensures |o| <= 2
  {
    var padded := o + [x, x, x];
    var firsts := (padded[0], padded[1], padded[2]);
  }

  /** Distinct names that are exactly two are these two, in one order or the other. */
  lemma TwoNames(o: seq<Name>, x: Name, y: Name)
    requires Distinct(o) && x != y && x in o && y in o && forall k :: 0 <= k < |o| ==> o[k] == x || o[k] == y
    ensures |o| == 2 && ((o[0] == x && o[1] == y) || (o[0] == y && o[1] == x))
  {
    AtMostTwo(o, x, y);
  }

  lemma TwoOrdered(input: Input)
    requires input.Valid() && |Weighted(input)| == 2
    ensures var o, d := Order(input), Weighted(input);
      |o| == 2 && o[0] != o[1] && d[0] != d[1] && ((o[0] == d[0] && o[1] == d[1]) || (o[0] == d[1] && o[1] == d[0]))
  {
    OrderIs(input);
    WeightedIs(input);
    var o, d := Order(input), Weighted(input);
    assert d[0] in d && d[1] in d;
    forall k | 0 <= k < |o|
      ensures o[k] == d[0] || o[k] == d[1]
    {
      assert o[k] in d;
    }
    TwoNames(o, d[0], d[1]);
  }

  /** Two weighted strategies have two weights in force. */
  lemma TwoWeights(input: Input)
    requires input.Valid() && |Weighted(input)| == 2
    ensures var ws, o := Weights(input), Order(input);
      && |o| == 2 && o[0] != o[1] && |ws| == 2 && ws[0].w > 0.0 && ws[1].w > 0.0
      && ((ws[0].name == o[0] && ws[1].name == o[1]) || (ws[0].name == o[1] && ws[1].name == o[0]))
  {
    TwoOrdered(input);
    WeightsOrdered(input);
    WeightsPositive(input);
    var ws, o, d := Weights(input), Order(input), Weighted(input);
    ShadowStrategies.WeightsCover(input, d[0]);
    ShadowStrategies.WeightsCover(input, d[1]);
    NamesOfTwo(ws, d);
  }

  lemma NamesOfTwo(ws: seq<Weight>, d: seq<Name>)
    requires |d| == 2 && d[0] != d[1]
    requires forall k :: 0 <= k < |ws| ==> ws[k].name in d
    requires forall j, k :: 0 <= j < k < |ws| ==> ws[j].name != ws[k].name
    requires (exists k :: 0 <= k < |ws| && ws[k].name == d[0]) && (exists k :: 0 <= k < |ws| && ws[k].name == d[1])
    ensures |ws| == 2 && ((ws[0].name == d[0] && ws[1].name == d[1]) || (ws[0].name == d[1] && ws[1].name == d[0]))
  {
    var names := WeightNames(ws);
    var j :| 0 <= j < |ws| && ws[j].name == d[0];
    var k :| 0 <= k < |ws| && ws[k].name == d[1];
    assert names[j] in names && names[k] in names;
    TwoNames(names, d[0], d[1]);
  }

  lemma CrossOfTwo(a: seq<real>)
    requires |a| == 2
    ensures CrossTerms(a) == 0.0 <==> a[0] == 0.0 || a[1] == 0.0
  {
    assert a[..1] == [a[0]] && [a[0]][..0] == [];
    assert Added([a[0]]) == a[0] && CrossTerms([a[0]]) == CrossTerms([]) + 2.0 * Times(a[0], Added([]));
    ZeroTimes(a[1], a[0]);
  }

  lemma ZeroTimes(x: real, y: real)
    ensures Times(x, y) == 0.0 <==> x == 0.0 || y == 0.0
  {
  }

  /** With two weights the cross term vanishes exactly when one of the strategies has no drift. */
  lemma CrossIsDrift(input: Input, cfg: Config)
    requires Multi(input) && |Weighted(input)| == 2
    ensures |Order(input)| == 2
    ensures CrossTerms(WeightedDrifts(input, cfg)) == 0.0 <==>
      Drift(input, cfg, Order(input)[0]) == 0.0 || Drift(input, cfg, Order(input)[1]) == 0.0
  {
    TwoWeights(input);
    var ws, g := Weights(input), Drifts(input, cfg);
    CrossOfTwo(WeightedDrifts(input, cfg));
    ZeroTimes(ws[0].w, g[0]);
    ZeroTimes(ws[1].w, g[1]);
  }

  // ---------------------------------------------------------------- the two residuals

  /** The scores of a strategy over the full rows. */
  ghost function FullScores(input: Input, s: Name): (u: Vec)
    requires Multi(input) && s in Order(input)
    ensures |u| == Count(Full(input))
  {
    Filled(Keep(Full(input), Matrix(input.strategies).cols[s]))
  }

  /** A strategy has no drift exactly when it was dropped or its residual sums to zero. */
  lemma NoDriftIff(input: Input, cfg: Config, s: Name)
    requires Multi(input) && s in Order(input)
    ensures Drift(input, cfg, s) == 0.0 <==> !Survives(input, cfg, s) || Sum(Filled(Residual(input, cfg, s))) == 0.0
  {
    OrderIs(input);
    KeptNormal(input, cfg, s);
    var u := Filled(Residual(input, cfg, s));
    if Survives(input, cfg, s) {
      var sd := cfg.sqrt(Variance(u, 1));
      OverTimes(Mean(u), sd);
      MeanTimesCount(u);
      ZeroTimes(Drift(input, cfg, s), sd);
      ZeroTimes(|u| as real, Mean(u));
    }
  }

  /** A strategy's normalised column, from its residual. */
  lemma NormalIs(input: Input, cfg: Config, s: Name)
    requires Multi(input) && s in Order(input)
    ensures s in Weighted(input) && s in Matrix(input.strategies).cols && s in NormalisedColumns(input, cfg)
    ensures NormalisedColumns(input, cfg)[s] ==
      NormalisedColumn(Scatter(Full(input), Residual(input, cfg, s)),
          OriginalStd(Matrix(input.strategies).cols[s], cfg.sqrt), cfg.ratio, cfg.sqrt)
  {
    OrderIs(input);
    NormalisedAligned(input, cfg);
  }

  lemma DroppedHasNoColumn(input: Input, cfg: Config, s: Name)
    requires Multi(input) && s in Order(input) && Residual(input, cfg, s) == Missing(Count(Full(input)))
    ensures !Survives(input, cfg, s)
  {
    NormalIs(input, cfg, s);
    MissingStaysMissing(Full(input), Residual(input, cfg, s), OriginalStd(Matrix(input.strategies).cols[s], cfg.sqrt),
        cfg);
  }

  lemma MissingStaysMissing(full: seq<bool>, r: Column, original: real, cfg: Config)
    requires |r| == Count(full) && AllMissing(r)
    ensures AllMissing(NormalisedColumn(Scatter(full, r), original, cfg.ratio, cfg.sqrt))
  {
    KeepScatter(full, r);
    PresentOfMissing(r);
  }

  /** The spread of a column of scores over the common stocks passes both tests, given the spread of all its strategy's
      scores. */
  ghost predicate HasSpread(u: Vec, original: real, cfg: Config) {
    && |u| >= 2
    && cfg.sqrt(Variance(u, 0)) >= TINY && cfg.sqrt(Variance(u, 1)) >= TINY
    && (original > TINY ==> cfg.sqrt(Variance(u, 1)) / original >= cfg.ratio)
  }

  /** The deviation of all scores of a strategy. */
  ghost function SpreadOf(input: Input, cfg: Config, s: Name): real
    requires Multi(input) && s in Order(input)
  {
    OriginalStd(Matrix(input.strategies).cols[s], cfg.sqrt)
  }

  lemma PresentIsKeptIff(full: seq<bool>, r: Column, original: real, cfg: Config)
    requires |r| == Count(full) >= 2 && AllPresent(r)
    requires cfg.sqrt(Variance(Filled(r), 0)) >= TINY
    ensures !AllMissing(NormalisedColumn(Scatter(full, r), original, cfg.ratio, cfg.sqrt)) <==>
      HasSpread(Filled(r), original, cfg)
  {
    var x := Scatter(full, r);
    KeepScatter(full, r);
    PresentOfPresent(r);
    assert Present(x) == Filled(r);
    var i := Compaction.Nth(full, 0);
    Compaction.KeepNth(full, x, 0);
    assert x[i].Num?;
    if HasSpread(Filled(r), original, cfg) {
      assert NormalisedColumn(x, original, cfg.ratio, cfg.sqrt)[i].Num?;
    }
  }

  /** The i-th column after projection; the pass decides by its spread. */
  ghost function ReducedAt(input: Input, cfg: Config, i: nat): (p: Column)
    requires Multi(input) && i < |Order(input)|
    ensures |p| == Count(Full(input))
  {
    BlockFull(input);
    OrthogonalizerTheorems.Reduced(Block(Matrix(input.strategies), Order(input)), Count(Full(input)), cfg.sqrt, i)
  }

  lemma ResidualOf(input: Input, cfg: Config, i: nat)
    requires Multi(input) && i < |Order(input)|
    ensures var s, p := Order(input)[i], ReducedAt(input, cfg, i);
      && s in Order(input) && AllPresent(p)
      && Residual(input, cfg, s) == if cfg.sqrt(Variance(Filled(p), 0)) < TINY then Missing(|p|) else p
  {
    var order := Order(input);
    BlockFull(input);
    OrderIs(input);
    assert IndexOf(order, order[i]) == i;
    OrthogonalizerTheorems.ResidualShape(Block(Matrix(input.strategies), order), Count(Full(input)), cfg.sqrt, i);
  }

  /** A strategy survives exactly when its reduced column has spread, and then that column is its residual. */
  lemma SurvivesIff(input: Input, cfg: Config, i: nat)
    requires Multi(input) && i < |Order(input)|
    ensures var s, u := Order(input)[i], Filled(ReducedAt(input, cfg, i));
      && s in Order(input)
      && (Survives(input, cfg, s) <==> HasSpread(u, SpreadOf(input, cfg, s), cfg))
      && (Survives(input, cfg, s) ==> Filled(Residual(input, cfg, s)) == u)
  {
    var s, p := Order(input)[i], ReducedAt(input, cfg, i);
    ResidualOf(input, cfg, i);
    if cfg.sqrt(Variance(Filled(p), 0)) < TINY {
      DroppedHasNoColumn(input, cfg, s);
    } else {
      NormalIs(input, cfg, s);
      PresentIsKeptIff(Full(input), p, SpreadOf(input, cfg, s), cfg);
    }
  }

  /** The first strategy is never projected. */
  lemma FirstReduced(input: Input, cfg: Config)
    requires Multi(input) && |Order(input)| == 2
    ensures Order(input)[0] in Order(input) && Filled(ReducedAt(input, cfg, 0)) == FullScores(input, Order(input)[0])
  {
    BlockFull(input);
    OrthogonalizerTheorems.ResidualShape(Block(Matrix(input.strategies), Order(input)), Count(Full(input)), cfg.sqrt,
        0);
  }

  /** After a first residual that is its own column, the second is projected on that column. */
  lemma SecondReduced(block: seq<Column>, n: nat, sqrt: real -> real)
    requires OrthogonalizerTheorems.FullBlock(block, n) && |block| == 2
    requires Filled(Residuals(block, n, sqrt)[0]) == Filled(block[0])
    ensures Filled(OrthogonalizerTheorems.Reduced(block, n, sqrt, 1)) ==
      Projection.Out(Filled(block[1]), Filled(block[0]))
  {
    OrthogonalizerTheorems.ReducedIs(block, n, sqrt, 1);
    var first := Residuals(block, n, sqrt)[..1];
    var vs, u := OrthogonalizerTheorems.Vecs(first), Filled(block[1]);
    assert first == [Residuals(block, n, sqrt)[0]];
    assert vs == [Filled(block[0])];
    assert vs[..0] == [];
    assert Projection.OutAll(u, vs) == Projection.Out(Projection.OutAll(u, vs[..0]), vs[0]);
    assert Filled(Numbers(Projection.OutAll(u, vs))) == Projection.OutAll(u, vs);
  }

  /** After a first strategy that survives, the second is projected on its scores. */
  lemma SecondIsProjected(input: Input, cfg: Config)
    requires Multi(input) && |Order(input)| == 2 && Order(input)[0] in Order(input) &&
      Survives(input, cfg, Order(input)[0])
    ensures Order(input)[1] in Order(input)
    ensures Filled(ReducedAt(input, cfg, 1)) ==
      Projection.Out(FullScores(input, Order(input)[1]), FullScores(input, Order(input)[0]))
  {
    var order, block := Order(input), Block(Matrix(input.strategies), Order(input));
    BlockFull(input);
    OrderIs(input);
    SurvivesIff(input, cfg, 0);
    FirstReduced(input, cfg);
    assert IndexOf(order, order[0]) == 0;
    SecondReduced(block, Count(Full(input)), cfg.sqrt);
  }

  lemma ProjectedSum(b: Vec, a: Vec)
    requires |a| == |b| && Projection.Live(a)
    ensures Sum(Projection.Out(b, a)) == 0.0 <==> Times(Norm2(a), Sum(b)) == Times(Dot(a, b), Sum(a))
  {
    var c, q := Projection.Coef(b, a), Norm2(a);
    SumAddScaled(b, -c, a);
    DotSymmetric(a, b);
    OverTimes(Dot(b, a), q);
    Cleared(Sum(b), c, Sum(a), q, Dot(b, a));
  }

  lemma Cleared(x: real, c: real, y: real, q: real, d: real)
    requires q > 0.0 && Times(c, q) == d
    ensures x + Times(-c, y) == 0.0 <==> Times(q, x) == Times(d, y)
  {
    assert q * (c * y) == d * y;
    if x + Times(-c, y) == 0.0 {
      assert x == c * y;
    }
    if Times(q, x) == Times(d, y) {
      assert x * q == (c * y) * q;
      Cancel(x, Times(c, y), q);
    }
  }

  /** For two weighted strategies, of which one comes first in the order: the composite has the intended variance
      exactly when one of them was dropped, or over the common stocks the first one's scores a sum to zero, or the
      second one's scores b satisfy |a|^2 * sum b == (a . b) * sum a. */
  lemma TwoStrategyVarianceIff(input: Input, cfg: Config)
    requires Multi(input) && IsRoot(cfg.sqrt) && AllLive(input, cfg) && |Weighted(input)| == 2
    ensures Ready(input, cfg) && |Order(input)| == 2 && Order(input)[0] in Order(input) &&
      Order(input)[1] in Order(input)
    ensures var s, t := Order(input)[0], Order(input)[1];
      var a, b := FullScores(input, s), FullScores(input, t);
      Variance(FullComposite(input, cfg), 1) == Over(SurvivingSquares(input, cfg), SquareWeight(Weights(input))) <==>
        || !Survives(input, cfg, s) || !Survives(input, cfg, t)
        || Sum(a) == 0.0 || Times(Norm2(a), Sum(b)) == Times(Dot(a, b), Sum(a))
  {
    VarianceFormulaHoldsIff(input, cfg);
    CrossIsDrift(input, cfg);
    var s, t := Order(input)[0], Order(input)[1];
    assert s in Order(input) && t in Order(input);
    NoDriftIff(input, cfg, s);
    NoDriftIff(input, cfg, t);
    if Survives(input, cfg, s) && Survives(input, cfg, t) {
      SurvivesIff(input, cfg, 0);
      SurvivesIff(input, cfg, 1);
      FirstReduced(input, cfg);
      SecondIsProjected(input, cfg);
      ProjectedSum(FullScores(input, t), FullScores(input, s));
    }
  }

  /** The same in terms of the scores alone, when neither strategy's scores are nearly constant: with the first
      strategy's scores a and the second one's b over the common stocks, the composite has the intended variance exactly
      when a, or b with a projected out, has too little spread to be kept, or a sums to zero,
      or |a|^2 * sum b == (a . b) * sum a. */
  lemma ScoresDecideVariance(input: Input, cfg: Config)
    requires Multi(input) && IsRoot(cfg.sqrt) && cfg.ratio >= COLLINEAR_RATIO && |Weighted(input)| == 2
    requires forall s :: s in Order(input) ==> OriginalStd(Matrix(input.strategies).cols[s], cfg.sqrt) >= 0.00001
    ensures Ready(input, cfg) && |Order(input)| == 2 && Order(input)[0] in Order(input) &&
      Order(input)[1] in Order(input)
    ensures var s, t := Order(input)[0], Order(input)[1];
      var a, b := FullScores(input, s), FullScores(input, t);
      Variance(FullComposite(input, cfg), 1) == Over(SurvivingSquares(input, cfg), SquareWeight(Weights(input))) <==>
        || !HasSpread(a, SpreadOf(input, cfg, s), cfg)
        || !HasSpread(Projection.Out(b, a), SpreadOf(input, cfg, t), cfg)
        || Sum(a) == 0.0 || Times(Norm2(a), Sum(b)) == Times(Dot(a, b), Sum(a))
  {
    SpreadInputIsLive(input, cfg);
    TwoStrategyVarianceIff(input, cfg);
    SurvivesIff(input, cfg, 0);
    SurvivesIff(input, cfg, 1);
    FirstReduced(input, cfg);
    if Survives(input, cfg, Order(input)[0]) {
      SecondIsProjected(input, cfg);
    }
  }
}
