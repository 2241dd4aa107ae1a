/** Mean and variance of the composite score over the stocks that every weighted strategy covers. */
module CompositeVariance {
  import opened Vectors
  import opened Statistics
  import opened Series
  import opened Sorting
  import opened Orthogonalizer
  import OrthogonalizerTheorems
  import opened Scorer
  import opened Compaction
  import ShadowStrategies

  // ---------------------------------------------------------------- combinations of vectors

  ghost function Combination(ws: seq<real>, vs: seq<Vec>, n: nat): (r: Vec)
    requires |ws| == |vs| && Projection.Sized(vs, n)
    ensures |r| == n
  {
    if ws == [] then Constant(n, 0.0)
    else AddScaled(Combination(ws[..|ws| - 1], vs[..|vs| - 1], n), ws[|ws| - 1], vs[|vs| - 1])
  }

  /** sum over all pairs j < k of 2 * a_j * a_k */
  ghost function CrossTerms(a: seq<real>): real {
    if a == [] then 0.0 else CrossTerms(a[..|a| - 1]) + 2.0 * Times(a[|a| - 1], Added(a[..|a| - 1]))
  }

  /** sum from the left */
  ghost function Added(a: seq<real>): real {
    if a == [] then 0.0 else Added(a[..|a| - 1]) + a[|a| - 1]
  }

  ghost function Squares(ws: seq<real>, alive: seq<bool>): real
    requires |ws| == |alive|
  {
    if ws == [] then 0.0
    else Squares(ws[..|ws| - 1], alive[..|ws| - 1]) + if alive[|ws| - 1] then Times(ws[|ws| - 1], ws[|ws| - 1]) else 0.0
  }

  ghost function Products(ws: seq<real>, gs: seq<real>): (r: seq<real>)
    requires |ws| == |gs|
    ensures |r| == |ws| && forall i :: 0 <= i < |ws| ==> r[i] == Times(ws[i], gs[i])
  {
    seq(|ws|, i requires 0 <= i < |ws| => Times(ws[i], gs[i]))
  }

  /** Vectors with squared norm q (or dead: zero), and inner products -n * g_j * g_k. */
  ghost predicate Gram(vs: seq<Vec>, alive: seq<bool>, gs: seq<real>, n: nat, q: real) {
    && |alive| == |gs| == |vs| && Projection.Sized(vs, n)
    && (forall k :: 0 <= k < |vs| ==> Norm2(vs[k]) == if alive[k] then q else 0.0)
    && forall j, k :: 0 <= j < k < |vs| ==> Dot(vs[j], vs[k]) == -Times(n as real, Times(gs[j], gs[k]))
  }

  lemma {:induction false} CombinationDot(ws: seq<real>, vs: seq<Vec>, gs: seq<real>, n: nat, v: Vec, g: real)
    requires |ws| == |vs| == |gs| && Projection.Sized(vs, n) && |v| == n
    requires forall j :: 0 <= j < |vs| ==> Dot(vs[j], v) == -Times(n as real, Times(gs[j], g))
    ensures Dot(Combination(ws, vs, n), v) == -Times(n as real, Times(g, Added(Products(ws, gs))))
  {
    if ws == [] {
      DotSymmetric(v, Constant(n, 0.0));
      DotConstant(v, 0.0);
    } else {
      var k := |ws| - 1;
      CombinationDot(ws[..k], vs[..k], gs[..k], n, v, g);
      assert Products(ws, gs)[..k] == Products(ws[..k], gs[..k]);
      DotAddScaled(Combination(ws[..k], vs[..k], n), ws[k], vs[k], v);
      CrossStep(n as real, ws[k], gs[k], g, Added(Products(ws[..k], gs[..k])));
    }
  }

  /** (n - 1) * squares - n * cross */
  function Spread(n: nat, squares: real, cross: real): real {
    Times((n - 1) as real, squares) - Times(n as real, cross)
  }

  /** (n - 1) * square * the sample variance of n numbers */
  function ScaledVariance(z: Vec, square: real): real
    requires |z| >= 2
  {
    Times(Times(Variance(z, 1), square), (|z| - 1) as real)
  }

  lemma CrossStep(n: real, w: real, h: real, g: real, a: real)
    ensures -Times(n, Times(g, a)) + Times(w, -Times(n, Times(h, g))) == -Times(n, Times(g, a + Times(w, h)))
  {
    Distribute(g, a, Times(w, h));
    Distribute(n, Times(g, a), Times(g, Times(w, h)));
    assert w * (n * (h * g)) == n * (g * (w * h));
  }

  lemma GramPrefix(vs: seq<Vec>, alive: seq<bool>, gs: seq<real>, n: nat, q: real, k: nat)
    requires Gram(vs, alive, gs, n, q) && k <= |vs|
    ensures Gram(vs[..k], alive[..k], gs[..k], n, q)
  {
  }

  /** What one vector more does to the norm, given the sums before it. */
  ghost predicate Grown(norm: real, w: real, n: real, q: real, g: real, s: real, live: bool, squares: real, cross: real)
  {
    norm == Times(q, squares + if live then Times(w, w) else 0.0) - Times(n, cross + 2.0 * Times(Times(w, g), s))
  }

  /** One vector more. */
  lemma NormGrows(c: Vec, w: real, v: Vec, n: real, q: real, g: real, s: real, live: bool, squares: real, cross: real)
    requires |c| == |v|
    requires Norm2(c) == Times(q, squares) - Times(n, cross)
    requires Dot(c, v) == -Times(n, Times(g, s)) && Norm2(v) == if live then q else 0.0
    ensures Grown(Norm2(AddScaled(c, w, v)), w, n, q, g, s, live, squares, cross)
  {
    Norm2AddScaled(c, w, v);
    NormStep(n, q, w, g, s, live, squares, cross);
  }

  lemma CrossTermsLast(ws: seq<real>, gs: seq<real>)
    requires |ws| == |gs| > 0
    ensures var k := |ws| - 1;
      CrossTerms(Products(ws, gs)) ==
        CrossTerms(Products(ws[..k], gs[..k])) + 2.0 * Times(Times(ws[k], gs[k]), Added(Products(ws[..k], gs[..k])))
  {
    var k := |ws| - 1;
    assert Products(ws, gs)[..k] == Products(ws[..k], gs[..k]);
  }

  lemma CombinationLast(ws: seq<real>, vs: seq<Vec>, alive: seq<bool>, n: nat)
    requires |ws| == |vs| == |alive| > 0 && Projection.Sized(vs, n)
    ensures var k := |ws| - 1;
      && Projection.Sized(vs[..k], n) && |vs[k]| == n
      && Combination(ws, vs, n) == AddScaled(Combination(ws[..k], vs[..k], n), ws[k], vs[k])
      && Squares(ws, alive) == Squares(ws[..k], alive[..k]) + if alive[k] then Times(ws[k], ws[k]) else 0.0
  {
  }

  /** The norm of the combination, from the sums of squares and cross terms. */
  ghost predicate NormIs(ws: seq<real>, vs: seq<Vec>, alive: seq<bool>, gs: seq<real>, n: nat, q: real)
    requires |ws| == |vs| == |alive| == |gs| && Projection.Sized(vs, n)
  {
    Norm2(Combination(ws, vs, n)) == Times(q, Squares(ws, alive)) - Times(n as real, CrossTerms(Products(ws, gs)))
  }

  /** The last of such vectors against a combination of the ones before. */
  lemma LastDot(ws: seq<real>, vs: seq<Vec>, alive: seq<bool>, gs: seq<real>, n: nat, q: real)
    requires |ws| == |vs| > 0 && Gram(vs, alive, gs, n, q)
    ensures var k := |ws| - 1;
      && Projection.Sized(vs[..k], n) && |vs[k]| == n && Norm2(vs[k]) == (if alive[k] then q else 0.0)
      && Dot(Combination(ws[..k], vs[..k], n), vs[k]) ==
         -Times(n as real, Times(gs[k], Added(Products(ws[..k], gs[..k]))))
  {
    var k := |ws| - 1;
    CombinationDot(ws[..k], vs[..k], gs[..k], n, vs[k], gs[k]);
  }

  /** The combination of all but the last, with the last one added. */
  lemma NormWithLast(ws: seq<real>, vs: seq<Vec>, alive: seq<bool>, gs: seq<real>, n: nat, q: real)
    requires |ws| == |vs| > 0 && Gram(vs, alive, gs, n, q)
    requires var k := |ws| - 1; Projection.Sized(vs[..k], n) && NormIs(ws[..k], vs[..k], alive[..k], gs[..k], n, q)
    ensures var k := |ws| - 1;
      && |vs[k]| == n
      && Grown(Norm2(AddScaled(Combination(ws[..k], vs[..k], n), ws[k], vs[k])), ws[k], n as real, q, gs[k],
               Added(Products(ws[..k], gs[..k])), alive[k], Squares(ws[..k], alive[..k]),
               CrossTerms(Products(ws[..k], gs[..k])))
  {
    var k := |ws| - 1;
    var init, coefs := ws[..k], Products(ws[..k], gs[..k]);
    var c, squares, cross := Combination(init, vs[..k], n), Squares(init, alive[..k]), CrossTerms(coefs);
    LastDot(ws, vs, alive, gs, n, q);
    NormGrows(c, ws[k], vs[k], n as real, q, gs[k], Added(coefs), alive[k], squares, cross);
  }

  /** From all vectors but the last to all of them. */
  lemma CombinationNormStep(ws: seq<real>, vs: seq<Vec>, alive: seq<bool>, gs: seq<real>, n: nat, q: real)
    requires |ws| == |vs| > 0 && Gram(vs, alive, gs, n, q)
    requires var k := |ws| - 1; Projection.Sized(vs[..k], n) && NormIs(ws[..k], vs[..k], alive[..k], gs[..k], n, q)
    ensures NormIs(ws, vs, alive, gs, n, q)
  {
    NormWithLast(ws, vs, alive, gs, n, q);
    CrossTermsLast(ws, gs);
    CombinationLast(ws, vs, alive, n);
  }

  /** The squared norm of a combination of such vectors. */
  lemma {:induction false} CombinationNorm(ws: seq<real>, vs: seq<Vec>, alive: seq<bool>, gs: seq<real>, n: nat,
      q: real)
    requires |ws| == |vs| && Gram(vs, alive, gs, n, q)
    ensures Norm2(Combination(ws, vs, n)) ==
      Times(q, Squares(ws, alive)) - Times(n as real, CrossTerms(Products(ws, gs)))
  {
    if ws == [] {
      DotConstant(Constant(n, 0.0), 0.0);
    } else {
      var k := |ws| - 1;
      GramPrefix(vs, alive, gs, n, q, k);
      CombinationNorm(ws[..k], vs[..k], alive[..k], gs[..k], n, q);
      CombinationNormStep(ws, vs, alive, gs, n, q);
    }
  }

  lemma CombinationSpread(ws: seq<real>, vs: seq<Vec>, alive: seq<bool>, gs: seq<real>, n: nat)
    requires |ws| == |vs| && Gram(vs, alive, gs, n, (n - 1) as real)
    ensures Norm2(Combination(ws, vs, n)) == Spread(n, Squares(ws, alive), CrossTerms(Products(ws, gs)))
  {
    CombinationNorm(ws, vs, alive, gs, n, (n - 1) as real);
  }

  lemma NormStep(n: real, q: real, w: real, g: real, s: real, live: bool, squares: real, cross: real)
    ensures Times(q, squares) - Times(n, cross) + 2.0 * Times(w, -Times(n, Times(g, s)))
         + Times(w, Times(w, if live then q else 0.0))
         == Times(q, squares + if live then Times(w, w) else 0.0) - Times(n, cross + 2.0 * Times(Times(w, g), s))
  {
    assert w * (n * (g * s)) == n * ((w * g) * s);
    assert w * (w * q) == q * (w * w);
    Distribute(q, squares, Times(w, w));
    Distribute(n, cross, 2.0 * Times(Times(w, g), s));
    assert n * (2.0 * ((w * g) * s)) == 2.0 * (n * ((w * g) * s));
  }

  // ---------------------------------------------------------------- the composite on full rows

  ghost function Order(input: Input): seq<Name> {
    EffectiveOrder(Weighted(input), input.order, input.weights)
  }

  /** Several weighted strategies take part, and at least two stocks have all of their scores. */
  ghost predicate Multi(input: Input) {
    && input.Valid() && !input.single && |Weighted(input)| >= 2
    && Covers(Matrix(input.strategies), Order(input))
    && Count(Full(input)) >= 2
  }

  ghost function Full(input: Input): (mask: seq<bool>)
    requires Covers(Matrix(input.strategies), Order(input))
    ensures |mask| == |Matrix(input.strategies).index|
  {
    FullRows(Matrix(input.strategies), Order(input))
  }

  /** The residual column of a strategy over the full rows. */
  ghost function Residual(input: Input, cfg: Config, s: Name): (r: Column)
    requires Multi(input) && s in Order(input)
    ensures |r| == Count(Full(input))
  {
    ResidualOf(Matrix(input.strategies), Order(input), s, cfg.sqrt)
  }

  /** The strategy still has a normalised column; otherwise it was dropped as collinear. */
  ghost predicate Survives(input: Input, cfg: Config, s: Name) {
    s in NormalisedColumns(input, cfg) && !AllMissing(NormalisedColumns(input, cfg)[s])
  }

  lemma OrderIs(input: Input)
    requires input.Valid()
    ensures Distinct(Order(input)) && forall s :: s in Order(input) <==> s in Weighted(input)
    ensures Covers(Matrix(input.strategies), Order(input))
    ensures Order(input) == [] <==> Weighted(input) == []
  {
    WeightedIs(input);
    EffectiveOrderIs(Weighted(input), input.order, input.weights);
    assert Weighted(input) != [] ==> Weighted(input)[0] in Order(input);
    assert Order(input) != [] ==> Order(input)[0] in Weighted(input);
  }

  /** The block the pass works on has every cell present. */
  lemma BlockFull(input: Input)
    requires Multi(input)
    ensures OrthogonalizerTheorems.FullBlock(Block(Matrix(input.strategies), Order(input)), Count(Full(input)))
  {
    var m, order, full := Matrix(input.strategies), Order(input), Full(input);
    forall i, j | 0 <= i < |order| && 0 <= j < Count(full)
      ensures Block(m, order)[i][j].Num?
    {
      assert order[i] in order;
      KeepNth(full, m.cols[order[i]], j);
    }
  }

  lemma ResidualsClean(input: Input, cfg: Config, s: Name)
    requires Multi(input) && s in Order(input)
    ensures OrthogonalizerTheorems.Clean(Residual(input, cfg, s))
  {
    BlockFull(input);
    OrthogonalizerTheorems.ResidualFamily(Block(Matrix(input.strategies), Order(input)), Count(Full(input)), cfg.sqrt);
  }

  lemma KeepZeros(mask: seq<bool>, x: Column)
    requires |x| == |mask| && AllMissing(x)
    ensures Keep(mask, Filled(x)) == Constant(Count(mask), 0.0)
  {
    forall j | 0 <= j < Count(mask)
      ensures Keep(mask, Filled(x))[j] == 0.0
    {
      KeepNth(mask, Filled(x), j);
    }
  }

  /** A normalised column is missing, or on the full rows the standard score of the residual; elsewhere it is
      missing. */
  lemma ScoredColumn(full: seq<bool>, r: Column, original: real, ratio: real, sqrt: real -> real)
    requires |r| == Count(full) >= 2 && OrthogonalizerTheorems.Clean(r)
    ensures var u, col := Filled(r), NormalisedColumn(Scatter(full, r), original, ratio, sqrt);
      && (forall i :: 0 <= i < |full| && !full[i] ==> col[i] == NaN)
      && (if AllMissing(col) then Keep(full, Filled(col)) == Constant(|r|, 0.0)
          else (&& AllPresent(r) && sqrt(Variance(u, 1)) >= TINY
                && Keep(full, Filled(col)) == Standardise(u, Mean(u), sqrt(Variance(u, 1)))))
  {
    var x, u := Scatter(full, r), Filled(r);
    var col := NormalisedColumn(x, original, ratio, sqrt);
    KeepScatter(full, r);
    forall i | 0 <= i < |full| && !full[i]
      ensures col[i] == NaN
    {
      ScatterOutside(full, r, i);
    }
    if AllMissing(col) {
      KeepZeros(full, col);
    } else {
      if AllMissing(r) {
        PresentOfMissing(r);
      }
      PresentOfPresent(r);
      assert Present(x) == u;
      var sd := sqrt(Variance(u, 1));
      KeepScores(full, x, Mean(u), sd);
      KeepFilled(full, col);
      assert Filled(Scores(r, Mean(u), sd)) == Standardise(u, Mean(u), sd);
    }
  }

  /** What one strategy contributes to the full rows: the standard score of its residual, or nothing. */
  lemma KeptNormal(input: Input, cfg: Config, s: Name)
    requires Multi(input) && s in Weighted(input)
    ensures s in Order(input) && s in NormalisedColumns(input, cfg) &&
      |NormalisedColumns(input, cfg)[s]| == |Full(input)|
    ensures var u, v := Filled(Residual(input, cfg, s)), Keep(Full(input), Filled(NormalisedColumns(input, cfg)[s]));
      if Survives(input, cfg, s) then
        cfg.sqrt(Variance(u, 1)) > 0.0 && v == Standardise(u, Mean(u), cfg.sqrt(Variance(u, 1)))
      else v == Constant(Count(Full(input)), 0.0)
    ensures forall i :: 0 <= i < |Full(input)| && !Full(input)[i] ==> NormalisedColumns(input, cfg)[s][i] == NaN
  {
    OrderIs(input);
    ResidualsClean(input, cfg, s);
    NormalisedAligned(input, cfg);
    ScoredColumn(Full(input), Residual(input, cfg, s), OriginalStd(Matrix(input.strategies).cols[s], cfg.sqrt),
        cfg.ratio, cfg.sqrt);
  }

  // ---------------------------------------------------------------- the Gram matrix of the contributions

  /** Every surviving residual is large enough for later columns to have been projected on it. */
  ghost predicate AllLive(input: Input, cfg: Config)
    requires Multi(input)
  {
    forall s :: s in Order(input) && Survives(input, cfg, s) ==> Projection.Live(Filled(Residual(input, cfg, s)))
  }

  /** Mean over deviation of a surviving residual: how far it is from being centred. */
  ghost function Drift(input: Input, cfg: Config, s: Name): real {
    if Multi(input) && s in Order(input) then
      var u := Filled(Residual(input, cfg, s));
      DriftOf(u, Survives(input, cfg, s), cfg.sqrt(Variance(u, 1)))
    else 0.0
  }

  ghost function Part(input: Input, cfg: Config, s: Name): (v: Vec)
    requires Multi(input) && s in NormalisedColumns(input, cfg) && |NormalisedColumns(input, cfg)[s]| == |Full(input)|
    ensures |v| == Count(Full(input))
  {
    Keep(Full(input), Filled(NormalisedColumns(input, cfg)[s]))
  }

  /** A contribution is the standard score (by mean and s) of a residual, or zero. */
  ghost predicate Contribution(u: Vec, v: Vec, alive: bool, s: real) {
    |u| == |v| >= 2 && if alive then s > 0.0 && v == Standardise(u, Mean(u), s) else v == Constant(|u|, 0.0)
  }

  lemma ContributionNorm(u: Vec, v: Vec, alive: bool, s: real)
    requires Contribution(u, v, alive, s) && Times(s, s) == Variance(u, 1)
    ensures Norm2(v) == if alive then (|u| - 1) as real else 0.0
    ensures Sum(v) == 0.0
  {
    if alive {
      StandardScore(u, s);
    } else {
      DotConstant(Constant(|u|, 0.0), 0.0);
      SumConstant(|u|, 0.0);
    }
  }

  ghost function DriftOf(u: Vec, alive: bool, s: real): real
    requires |u| >= 2
  {
    if alive && s != 0.0 then Over(Mean(u), s) else 0.0
  }

  lemma ContributionDot(u: Vec, x: Vec, a: bool, s: real, v: Vec, y: Vec, b: bool, t: real)
    requires Contribution(u, x, a, s) && Contribution(v, y, b, t) && |u| == |v|
    requires a && b ==> Dot(u, v) == 0.0
    ensures Dot(x, y) == -Times(|u| as real, Times(DriftOf(u, a, s), DriftOf(v, b, t)))
  {
    if a && b {
      ContributionDotAlive(u, s, v, t);
    } else {
      NoContribution(u, x, a, y, b);
      ZeroProduct(|u| as real, DriftOf(u, a, s));
      ZeroProduct(|u| as real, DriftOf(v, b, t));
    }
  }

  lemma ZeroProduct(n: real, g: real)
    ensures Times(n, Times(0.0, g)) == 0.0 && Times(n, Times(g, 0.0)) == 0.0
  {
  }

  lemma ContributionDotAlive(u: Vec, s: real, v: Vec, t: real)
    requires |u| == |v| >= 2 && s > 0.0 && t > 0.0 && Dot(u, v) == 0.0
    ensures Dot(Standardise(u, Mean(u), s), Standardise(v, Mean(v), t))
         == -Times(|u| as real, Times(Over(Mean(u), s), Over(Mean(v), t)))
  {
    StandardScoreDot(u, s, v, t);
    CrossDivide(Dot(Standardise(u, Mean(u), s), Standardise(v, Mean(v), t)), |u| as real, Mean(u), Mean(v), s, t);
  }

  lemma NoContribution(u: Vec, x: Vec, a: bool, y: Vec, b: bool)
    requires |u| == |x| == |y| && (!a || !b)
    requires (!a ==> x == Constant(|u|, 0.0)) && (!b ==> y == Constant(|u|, 0.0))
    ensures Dot(x, y) == 0.0
  {
    if !b {
      DotConstant(x, 0.0);
    } else {
      DotSymmetric(x, y);
      DotConstant(y, 0.0);
    }
  }

  lemma ContributionAt(input: Input, cfg: Config, s: Name)
    requires Multi(input) && s in Weighted(input)
    ensures s in Order(input) && s in NormalisedColumns(input, cfg) &&
      |NormalisedColumns(input, cfg)[s]| == |Full(input)|
    ensures var u := Filled(Residual(input, cfg, s));
      Contribution(u, Part(input, cfg, s), Survives(input, cfg, s), cfg.sqrt(Variance(u, 1)))
  {
    KeptNormal(input, cfg, s);
  }

  lemma PartNorm(input: Input, cfg: Config, s: Name)
    requires Multi(input) && IsRoot(cfg.sqrt) && s in Weighted(input)
    ensures s in Order(input) && s in NormalisedColumns(input, cfg) &&
      |NormalisedColumns(input, cfg)[s]| == |Full(input)|
    ensures Norm2(Part(input, cfg, s)) == if Survives(input, cfg, s) then (Count(Full(input)) - 1) as real else 0.0
    ensures Sum(Part(input, cfg, s)) == 0.0
  {
    ContributionAt(input, cfg, s);
    var u := Filled(Residual(input, cfg, s));
    RootOfVariance(u, cfg.sqrt);
    ContributionNorm(u, Part(input, cfg, s), Survives(input, cfg, s), cfg.sqrt(Variance(u, 1)));
  }

  lemma RootOfVariance(u: Vec, sqrt: real -> real)
    requires |u| >= 2 && IsRoot(sqrt)
    ensures Times(sqrt(Variance(u, 1)), sqrt(Variance(u, 1))) == Variance(u, 1)
  {
    VarianceNonNegative(u, 1);
  }

  lemma FamilyPair(vs: seq<Vec>, n: nat, i: nat, j: nat)
    requires Projection.OrthogonalFamily(vs, n) && i < |vs| && j < |vs| && i != j
    requires Projection.Live(vs[i]) && Projection.Live(vs[j])
    ensures Dot(vs[i], vs[j]) == 0.0
  {
    DotSymmetric(vs[i], vs[j]);
  }

  lemma ResidualPairOrthogonal(input: Input, cfg: Config, s: Name, t: Name)
    requires Multi(input) && s in Order(input) && t in Order(input) && s != t
    requires Projection.Live(Filled(Residual(input, cfg, s))) && Projection.Live(Filled(Residual(input, cfg, t)))
    ensures Dot(Filled(Residual(input, cfg, s)), Filled(Residual(input, cfg, t))) == 0.0
  {
    BlockFull(input);
    var block, n := Block(Matrix(input.strategies), Order(input)), Count(Full(input));
    OrthogonalizerTheorems.ResidualFamily(block, n, cfg.sqrt);
    FamilyPair(OrthogonalizerTheorems.Vecs(Residuals(block, n, cfg.sqrt)), n, IndexOf(Order(input), s),
        IndexOf(Order(input), t));
  }

  lemma PartsCross(input: Input, cfg: Config, s: Name, t: Name)
    requires Multi(input) && s in Weighted(input) && t in Weighted(input) && s != t
    requires AllLive(input, cfg)
    ensures s in Order(input) && s in NormalisedColumns(input, cfg) &&
      |NormalisedColumns(input, cfg)[s]| == |Full(input)|
    ensures t in Order(input) && t in NormalisedColumns(input, cfg) &&
      |NormalisedColumns(input, cfg)[t]| == |Full(input)|
    ensures Dot(Part(input, cfg, s), Part(input, cfg, t))
         == -Times(Count(Full(input)) as real, Times(Drift(input, cfg, s), Drift(input, cfg, t)))
  {
    ContributionAt(input, cfg, s);
    ContributionAt(input, cfg, t);
    if Survives(input, cfg, s) && Survives(input, cfg, t) {
      ResidualPairOrthogonal(input, cfg, s, t);
    }
    var u, v := Filled(Residual(input, cfg, s)), Filled(Residual(input, cfg, t));
    ContributionDot(u, Part(input, cfg, s), Survives(input, cfg, s), cfg.sqrt(Variance(u, 1)),
                    v, Part(input, cfg, t), Survives(input, cfg, t), cfg.sqrt(Variance(v, 1)));
  }

  lemma CrossDivide(d: real, n: real, m: real, k: real, s: real, t: real)
    requires s > 0.0 && t > 0.0 && Times(Times(d, s), t) == 0.0 - Times(n, Times(m, k))
    ensures d == -Times(n, Times(Over(m, s), Over(k, t)))
  {
    var g, h := Over(m, s), Over(k, t);
    OverTimes(m, s);
    OverTimes(k, t);
    assert g * s * (h * t) == m * k;
    assert n * (g * h) * s * t == n * (g * s * (h * t));
    Cancel(Times(d, s), Times(-Times(n, Times(g, h)), s), t);
    Cancel(d, -Times(n, Times(g, h)), s);
  }

  // ---------------------------------------------------------------- the composite itself

  ghost function Reals(ws: seq<Weight>): (r: seq<real>)
    ensures |r| == |ws| && forall k :: 0 <= k < |ws| ==> r[k] == ws[k].w
  {
    seq(|ws|, k requires 0 <= k < |ws| => ws[k].w)
  }

  /** The kept rows of the weighted columns, zero where missing. */
  ghost function KeptParts(cols: map<Name, Column>, ws: seq<Weight>, mask: seq<bool>): (r: seq<Vec>)
    requires Fits(cols, ws, |mask|)
    ensures |r| == |ws| && Projection.Sized(r, Count(mask))
    ensures forall k :: 0 <= k < |ws| ==> r[k] == Keep(mask, Filled(cols[ws[k].name]))
  {
    seq(|ws|, k requires 0 <= k < |ws| => Keep(mask, Filled(cols[ws[k].name])))
  }

  lemma {:induction false} KeepWeightedSum(cols: map<Name, Column>, ws: seq<Weight>, mask: seq<bool>)
    requires Fits(cols, ws, |mask|)
    ensures Keep(mask, WeightedSum(cols, ws, |mask|)) == Combination(Reals(ws), KeptParts(cols, ws, mask), Count(mask))
  {
    if ws == [] {
      forall j | 0 <= j < Count(mask)
        ensures Keep(mask, Constant(|mask|, 0.0))[j] == 0.0
      {
        KeepNth(mask, Constant(|mask|, 0.0), j);
      }
    } else {
      var k := |ws| - 1;
      KeepWeightedSum(cols, ws[..k], mask);
      KeepAddScaled(mask, WeightedSum(cols, ws[..k], |mask|), ws[k].w, Filled(cols[ws[k].name]));
      assert Reals(ws)[..k] == Reals(ws[..k]);
      assert KeptParts(cols, ws, mask)[..k] == KeptParts(cols, ws[..k], mask);
    }
  }

  lemma {:induction false} CombinationSum(ws: seq<real>, vs: seq<Vec>, n: nat)
    requires |ws| == |vs| && Projection.Sized(vs, n)
    requires forall k :: 0 <= k < |vs| ==> Sum(vs[k]) == 0.0
    ensures Sum(Combination(ws, vs, n)) == 0.0
  {
    if ws == [] {
      SumConstant(n, 0.0);
    } else {
      var k := |ws| - 1;
      CombinationSum(ws[..k], vs[..k], n);
      SumAddScaled(Combination(ws[..k], vs[..k], n), ws[k], vs[k]);
    }
  }

  /** Dividing a centred vector by a root divides its variance by the square. */
  lemma DividedVariance(c: Vec, root: real, square: real)
    requires |c| >= 2 && Sum(c) == 0.0 && root > 0.0 && Times(root, root) == square
    ensures Sum(Standardise(c, 0.0, root)) == 0.0
    ensures ScaledVariance(Standardise(c, 0.0, root), square) == Norm2(c)
  {
    var z, k := Standardise(c, 0.0, root), (|c| - 1) as real;
    assert Sum(z) == 0.0 by {
      SumStandardise(c, 0.0, root);
      Cancel(Sum(z), 0.0, root);
    }
    Centred(z);
    assert Times(Variance(z, 1), k) == Norm2(z) by { OverTimes(Norm2(z), k); }
    assert Times(Dot(z, z), root) == Dot(c, z) by { DotStandardise(c, 0.0, root, z); }
    assert Times(Dot(c, z), root) == Norm2(c) by {
      DotStandardise(c, 0.0, root, c);
      DotSymmetric(c, z);
    }
    Regroup(Variance(z, 1), k, Norm2(z), Dot(c, z), root, square, Norm2(c));
  }

  lemma Regroup(v: real, k: real, zz: real, cz: real, r: real, s: real, cc: real)
    requires Times(v, k) == zz && Times(zz, r) == cz && Times(cz, r) == cc && Times(r, r) == s
    ensures Times(Times(v, s), k) == cc
  {
    assert v * s * k == v * k * r * r;
  }

  lemma MultiWeights(input: Input)
    requires Multi(input)
    ensures Weights(input) != [] && SquareWeight(Weights(input)) > 0.0
  {
    ShadowStrategies.WeightsCover(input, Weighted(input)[0]);
    WeightsPositive(input);
    SquareWeightNonNegative(Weights(input));
    assert Weights(input)[0].w > 0.0;
  }

  ghost predicate Ready(input: Input, cfg: Config) {
    Multi(input) && IsRoot(cfg.sqrt) && SquareWeight(Weights(input)) > 0.0
  }

  /** The composite scores of the stocks that every weighted strategy covers. */
  ghost function FullComposite(input: Input, cfg: Config): (z: Vec)
    requires Ready(input, cfg)
    ensures |z| == Count(Full(input))
  {
    Keep(Full(input), CompositeZ(input, cfg))
  }

  lemma FullCompositeIs(input: Input, cfg: Config)
    requires Ready(input, cfg)
    ensures Fits(NormalisedColumns(input, cfg), Weights(input), |Full(input)|)
    ensures cfg.sqrt(SquareWeight(Weights(input))) > 0.0
    ensures FullComposite(input, cfg)
         == Standardise(Combination(Reals(Weights(input)),
             KeptParts(NormalisedColumns(input, cfg), Weights(input), Full(input)), Count(Full(input))),
                        0.0, cfg.sqrt(SquareWeight(Weights(input))))
  {
    WeightsFit(input, cfg);
    RootPositive(cfg.sqrt, SquareWeight(Weights(input)));
    var normal, ws, full := NormalisedColumns(input, cfg), Weights(input), Full(input);
    KeepWeightedSum(normal, ws, full);
    KeepStandardise(full, WeightedSum(normal, ws, |full|), 0.0, cfg.sqrt(SquareWeight(ws)));
  }

  // ---------------------------------------------------------------- main results

  ghost function AliveFlags(input: Input, cfg: Config): (r: seq<bool>)
    ensures |r| == |Weights(input)|
    ensures forall k :: 0 <= k < |r| ==> r[k] == Survives(input, cfg, Weights(input)[k].name)
  {
    seq(|Weights(input)|, k requires 0 <= k < |Weights(input)| => Survives(input, cfg, Weights(input)[k].name))
  }

  ghost function Drifts(input: Input, cfg: Config): (r: seq<real>)
    ensures |r| == |Weights(input)|
    ensures forall k :: 0 <= k < |r| ==> r[k] == Drift(input, cfg, Weights(input)[k].name)
  {
    seq(|Weights(input)|, k requires 0 <= k < |Weights(input)| => Drift(input, cfg, Weights(input)[k].name))
  }

  /** The weights of the surviving strategies, squared and summed. */
  ghost function SurvivingSquares(input: Input, cfg: Config): real {
    Squares(Reals(Weights(input)), AliveFlags(input, cfg))
  }

  lemma WeightsOrdered(input: Input)
    requires input.Valid()
    ensures forall k :: 0 <= k < |Weights(input)| ==>
      Weights(input)[k].name in Weighted(input) && Weights(input)[k].name in Order(input)
    ensures forall j, k :: 0 <= j < k < |Weights(input)| ==> Weights(input)[j].name != Weights(input)[k].name
  {
    WeightsAreWeighted(input);
    OrderIs(input);
    var p := (x: Weight) => x.name in Names(input.strategies) && x.w > 0.0;
    ShadowStrategies.WeightNamesFilter(input.weights, p);
    var raw := RawWeights(input);
    forall j, k | 0 <= j < k < |raw|
      ensures raw[j].name != raw[k].name
    {
      assert WeightNames(raw)[j] != WeightNames(raw)[k];
    }
  }

  ghost function AllParts(input: Input, cfg: Config): (r: seq<Vec>)
    requires Ready(input, cfg) && Fits(NormalisedColumns(input, cfg), Weights(input), |Full(input)|)
    ensures |r| == |Weights(input)| && Projection.Sized(r, Count(Full(input)))
    ensures forall k :: 0 <= k < |r| ==> r[k] == Part(input, cfg, Weights(input)[k].name)
  {
    KeptParts(NormalisedColumns(input, cfg), Weights(input), Full(input))
  }

  lemma GramNorms(input: Input, cfg: Config, k: nat)
    requires Ready(input, cfg) && Fits(NormalisedColumns(input, cfg), Weights(input), |Full(input)|) &&
      k < |Weights(input)|
    ensures Norm2(AllParts(input, cfg)[k]) ==
      if AliveFlags(input, cfg)[k] then (Count(Full(input)) - 1) as real else 0.0
    ensures Sum(AllParts(input, cfg)[k]) == 0.0
  {
    WeightsOrdered(input);
    PartNorm(input, cfg, Weights(input)[k].name);
  }

  lemma GramCross(input: Input, cfg: Config, j: nat, k: nat)
    requires Ready(input, cfg) && AllLive(input, cfg) && j < k < |Weights(input)|
    requires Fits(NormalisedColumns(input, cfg), Weights(input), |Full(input)|)
    ensures Dot(AllParts(input, cfg)[j], AllParts(input, cfg)[k])
         == -Times(Count(Full(input)) as real, Times(Drifts(input, cfg)[j], Drifts(input, cfg)[k]))
  {
    WeightsOrdered(input);
    PartsCross(input, cfg, Weights(input)[j].name, Weights(input)[k].name);
  }

  /** The weighted drifts of the surviving strategies. */
  ghost function WeightedDrifts(input: Input, cfg: Config): seq<real> {
    Products(Reals(Weights(input)), Drifts(input, cfg))
  }

  lemma GramNormsAll(input: Input, cfg: Config)
    requires Ready(input, cfg) && Fits(NormalisedColumns(input, cfg), Weights(input), |Full(input)|)
    ensures forall k :: 0 <= k < |Weights(input)| ==>
      (Norm2(AllParts(input, cfg)[k]) == if AliveFlags(input, cfg)[k] then (Count(Full(input)) - 1) as real else 0.0)
  {
    forall k | 0 <= k < |Weights(input)|
      ensures Norm2(AllParts(input, cfg)[k]) ==
        if AliveFlags(input, cfg)[k] then (Count(Full(input)) - 1) as real else 0.0
    {
      GramNorms(input, cfg, k);
    }
  }

  lemma PartsGram(input: Input, cfg: Config)
    requires Ready(input, cfg) && AllLive(input, cfg)
    requires Fits(NormalisedColumns(input, cfg), Weights(input), |Full(input)|)
    ensures Gram(AllParts(input, cfg), AliveFlags(input, cfg), Drifts(input, cfg), Count(Full(input)),
        (Count(Full(input)) - 1) as real)
  {
    GramNormsAll(input, cfg);
    var vs, gs, n := AllParts(input, cfg), Drifts(input, cfg), Count(Full(input));
    forall j, k | 0 <= j < k < |vs|
      ensures Dot(vs[j], vs[k]) == -Times(n as real, Times(gs[j], gs[k]))
    {
      GramCross(input, cfg, j, k);
    }
  }

  /** The weighted sum over the full rows, before the final division. */
  ghost function Blend(input: Input, cfg: Config): (c: Vec)
    requires Ready(input, cfg) && Fits(NormalisedColumns(input, cfg), Weights(input), |Full(input)|)
    ensures |c| == Count(Full(input))
  {
    Combination(Reals(Weights(input)), AllParts(input, cfg), Count(Full(input)))
  }

  lemma BlendSum(input: Input, cfg: Config)
    requires Ready(input, cfg) && Fits(NormalisedColumns(input, cfg), Weights(input), |Full(input)|)
    ensures Sum(Blend(input, cfg)) == 0.0
  {
    forall k | 0 <= k < |Weights(input)|
      ensures Sum(AllParts(input, cfg)[k]) == 0.0
    {
      GramNorms(input, cfg, k);
    }
    CombinationSum(Reals(Weights(input)), AllParts(input, cfg), Count(Full(input)));
  }

  lemma BlendNorm(input: Input, cfg: Config)
    requires Ready(input, cfg) && AllLive(input, cfg)
    requires Fits(NormalisedColumns(input, cfg), Weights(input), |Full(input)|)
    ensures Norm2(Blend(input, cfg)) ==
      Spread(Count(Full(input)), SurvivingSquares(input, cfg), CrossTerms(WeightedDrifts(input, cfg)))
  {
    PartsGram(input, cfg);
    CombinationSpread(Reals(Weights(input)), AllParts(input, cfg), AliveFlags(input, cfg), Drifts(input, cfg),
        Count(Full(input)));
  }

  lemma FullCompositeIsBlend(input: Input, cfg: Config)
    requires Ready(input, cfg)
    ensures Fits(NormalisedColumns(input, cfg), Weights(input), |Full(input)|)
    ensures cfg.sqrt(SquareWeight(Weights(input))) > 0.0
    ensures FullComposite(input, cfg) == Standardise(Blend(input, cfg), 0.0, cfg.sqrt(SquareWeight(Weights(input))))
  {
    FullCompositeIs(input, cfg);
  }

  /** The composite has mean zero over the stocks that every weighted strategy covers, whatever the inputs. */
  lemma CompositeMeanZero(input: Input, cfg: Config)
    requires Multi(input) && IsRoot(cfg.sqrt)
    ensures Ready(input, cfg) && Sum(FullComposite(input, cfg)) == 0.0
  {
    MultiWeights(input);
    FullCompositeIsBlend(input, cfg);
    BlendSum(input, cfg);
    DividedSum(Blend(input, cfg), cfg.sqrt(SquareWeight(Weights(input))));
  }

  lemma DividedSum(c: Vec, root: real)
    requires Sum(c) == 0.0 && root > 0.0
    ensures Sum(Standardise(c, 0.0, root)) == 0.0
  {
    SumStandardise(c, 0.0, root);
    Cancel(Sum(Standardise(c, 0.0, root)), 0.0, root);
  }

  /** The sample variance v of the composite over the n covered stocks satisfies (n - 1) * v * sum of all squared
      weights  =  (n - 1) * sum of surviving squared weights  -  n * cross terms of the drifts. */
  lemma CompositeVarianceIs(input: Input, cfg: Config)
    requires Multi(input) && IsRoot(cfg.sqrt) && AllLive(input, cfg)
    ensures Ready(input, cfg)
    ensures ScaledVariance(FullComposite(input, cfg), SquareWeight(Weights(input)))
         == Spread(Count(Full(input)), SurvivingSquares(input, cfg), CrossTerms(WeightedDrifts(input, cfg)))
  {
    MultiWeights(input);
    FullCompositeIsBlend(input, cfg);
    BlendSum(input, cfg);
    BlendNorm(input, cfg);
    DividedVariance(Blend(input, cfg), cfg.sqrt(SquareWeight(Weights(input))), SquareWeight(Weights(input)));
  }

  lemma SolveVariance(v: real, w: real, k: real, s: real, n: real, c: real)
    requires w > 0.0 && k > 0.0 && n > 0.0 && Times(Times(v, w), k) == Times(k, s) - Times(n, c)
    ensures v == Over(s, w) <==> c == 0.0
  {
    OverTimes(s, w);
    Associate(k, s, 1.0);
    if v == Over(s, w) {
      assert Times(n, c) == 0.0;
      Associate(n, c, 1.0);
      Cancel(c, 0.0, n);
    }
    if c == 0.0 {
      Cancel(Times(v, w), s, k);
      Cancel(v, Over(s, w), w);
    }
  }

  lemma SolveSpread(z: Vec, w: real, s: real, c: real)
    requires |z| >= 2 && w > 0.0 && ScaledVariance(z, w) == Spread(|z|, s, c)
    ensures Variance(z, 1) == Over(s, w) <==> c == 0.0
  {
    SolveVariance(Variance(z, 1), w, (|z| - 1) as real, s, |z| as real, c);
  }

  /** The composite has the intended variance, the share of squared weight that survives, exactly when the cross
      terms of the drifts vanish. */
  lemma VarianceFormulaHoldsIff(input: Input, cfg: Config)
    requires Multi(input) && IsRoot(cfg.sqrt) && AllLive(input, cfg)
    ensures Ready(input, cfg)
    ensures Variance(FullComposite(input, cfg), 1) == Over(SurvivingSquares(input, cfg), SquareWeight(Weights(input)))
       <==> CrossTerms(WeightedDrifts(input, cfg)) == 0.0
  {
    CompositeVarianceIs(input, cfg);
    SolveSpread(FullComposite(input, cfg), SquareWeight(Weights(input)), SurvivingSquares(input, cfg),
        CrossTerms(WeightedDrifts(input, cfg)));
  }

  lemma {:induction false} NoDriftNoCross(a: seq<real>)
    requires forall k :: 0 <= k < |a| ==> a[k] == 0.0
    ensures CrossTerms(a) == 0.0
  {
    if a != [] {
      NoDriftNoCross(a[..|a| - 1]);
    }
  }

  lemma {:induction false} SurvivorsBound(ws: seq<Weight>, alive: seq<bool>)
    requires |alive| == |ws| && forall k :: 0 <= k < |ws| ==> ws[k].w > 0.0
    ensures Squares(Reals(ws), alive) <= SquareWeight(ws)
    ensures Squares(Reals(ws), alive) == SquareWeight(ws) <==> forall k :: 0 <= k < |ws| ==> alive[k]
  {
    if ws != [] {
      var k := |ws| - 1;
      SurvivorsBound(ws[..k], alive[..k]);
      assert Reals(ws)[..k] == Reals(ws[..k]);
      Positive(ws[k].w, ws[k].w);
    }
  }

  /** Every weighted column sums to zero over the full rows. */
  ghost predicate CentredInput(input: Input)
    requires Multi(input)
  {
    forall s :: s in Order(input) ==> Total(Keep(Full(input), Matrix(input.strategies).cols[s])) == 0.0
  }

  lemma CentredNoDrift(input: Input, cfg: Config, s: Name)
    requires Multi(input) && CentredInput(input) && s in Order(input)
    ensures Drift(input, cfg, s) == 0.0
  {
    var block, n := Block(Matrix(input.strategies), Order(input)), Count(Full(input));
    BlockFull(input);
    forall i | 0 <= i < |block|
      ensures Total(block[i]) == 0.0
    {
      assert Order(input)[i] in Order(input);
    }
    OrthogonalizerTheorems.ResidualsCentred(block, n, cfg.sqrt);
    var vs := OrthogonalizerTheorems.Vecs(Residuals(block, n, cfg.sqrt));
    assert vs[IndexOf(Order(input), s)] == Filled(Residual(input, cfg, s));
    Centred(Filled(Residual(input, cfg, s)));
  }

  /** Centred columns leave no cross term. */
  lemma CentredNoCross(input: Input, cfg: Config)
    requires Multi(input) && CentredInput(input)
    ensures CrossTerms(WeightedDrifts(input, cfg)) == 0.0
  {
    var a := WeightedDrifts(input, cfg);
    forall k | 0 <= k < |a|
      ensures a[k] == 0.0
    {
      CentredWeightedDrift(input, cfg, k);
    }
    NoDriftNoCross(a);
  }

  lemma TimesZero(w: real)
    ensures Times(w, 0.0) == 0.0
  {
  }

  lemma CentredWeightedDrift(input: Input, cfg: Config, k: nat)
    requires Multi(input) && CentredInput(input) && k < |Weights(input)|
    ensures WeightedDrifts(input, cfg)[k] == 0.0
  {
    WeightsOrdered(input);
    CentredNoDrift(input, cfg, Weights(input)[k].name);
    assert Drifts(input, cfg)[k] == 0.0;
    TimesZero(Reals(Weights(input))[k]);
  }

  /** With centred columns the composite over the covered stocks has sample variance exactly the share of squared
      weight that survives: at most 1, and 1 exactly when no strategy was dropped as collinear. */
  lemma CompositeUnitVariance(input: Input, cfg: Config)
    requires Multi(input) && IsRoot(cfg.sqrt) && AllLive(input, cfg) && CentredInput(input)
    ensures Ready(input, cfg)
    ensures Variance(FullComposite(input, cfg), 1) == Over(SurvivingSquares(input, cfg), SquareWeight(Weights(input)))
    ensures Variance(FullComposite(input, cfg), 1) <= 1.0
    ensures Variance(FullComposite(input, cfg), 1) == 1.0 <==>
      forall s :: s in Weighted(input) ==> Survives(input, cfg, s)
  {
    CentredNoCross(input, cfg);
    VarianceFormulaHoldsIff(input, cfg);
    WeightsPositive(input);
    SurvivorsBound(Weights(input), AliveFlags(input, cfg));
    ShareBound(SurvivingSquares(input, cfg), SquareWeight(Weights(input)));
    AllWeightedSurvive(input, cfg);
  }

  lemma AllWeightedSurvive(input: Input, cfg: Config)
    requires input.Valid()
    ensures (forall k :: 0 <= k < |Weights(input)| ==> AliveFlags(input, cfg)[k])
       <==> forall s :: s in Weighted(input) ==> Survives(input, cfg, s)
  {
    WeightsAreWeighted(input);
    if forall k :: 0 <= k < |Weights(input)| ==> AliveFlags(input, cfg)[k] {
      forall s | s in Weighted(input)
        ensures Survives(input, cfg, s)
      {
        ShadowStrategies.WeightsCover(input, s);
        var k :| 0 <= k < |Weights(input)| && Weights(input)[k].name == s;
        assert AliveFlags(input, cfg)[k];
      }
    }
  }

  lemma ShareBound(a: real, b: real)
    requires b > 0.0 && a <= b
    ensures Over(a, b) <= 1.0 && (Over(a, b) == 1.0 <==> a == b)
  {
    OverTimes(a, b);
    TimesMonotone(Over(a, b), 1.0, b);
    TimesMonotone(1.0, Over(a, b), b);
  }

  // ---------------------------------------------------------------- when residuals are large enough

  lemma SurvivorSpread(full: seq<bool>, r: Column, original: real, ratio: real, sqrt: real -> real)
    requires |r| == Count(full) >= 2 && AllPresent(r) && original > TINY
    requires !AllMissing(NormalisedColumn(Scatter(full, r), original, ratio, sqrt))
    ensures sqrt(Variance(Filled(r), 1)) / original >= ratio
  {
    KeepScatter(full, r);
    PresentOfPresent(r);
    assert Filled(r) == Present(r);
  }

  lemma LargeNorm(u: Vec, sd: real, original: real, ratio: real)
    requires |u| >= 2 && Times(sd, sd) == Variance(u, 1) && original >= 0.00001 && ratio >= 0.3 &&
      sd / original >= ratio
    ensures Norm2(u) >= Projection.TINY
  {
    assert sd >= 0.000003 by {
      OverTimes(sd, original);
      TimesMonotone(0.3, Over(sd, original), original);
    }
    var v, k := Variance(u, 1), (|u| - 1) as real;
    assert v >= 0.000000000009 by {
      TimesMonotone(0.000003, sd, 0.000003);
      TimesMonotone(0.000003, sd, sd);
      Associate(0.000003, sd, 1.0);
    }
    assert Deviation(u) >= v by {
      OverTimes(Deviation(u), k);
      if k > 1.0 {
        TimesMonotone(1.0, k, v);
        Associate(k, v, 1.0);
      }
    }
    DeviationBelowNorm(u);
  }

  lemma DeviationBelowNorm(u: Vec)
    requires |u| >= 1
    ensures Deviation(u) <= Norm2(u)
  {
    DeviationIs(u);
    MeanTimesCount(u);
    var m, n := Mean(u), |u| as real;
    assert m * m >= 0.0;
    assert n * (m * m) >= 0.0;
    assert m * (n * m) == n * (m * m);
  }

  /** A surviving residual of a column that is not nearly constant is large enough. */
  lemma SurvivorIsLive(input: Input, cfg: Config, s: Name)
    requires Multi(input) && IsRoot(cfg.sqrt) && cfg.ratio >= COLLINEAR_RATIO && s in Order(input) &&
      Survives(input, cfg, s)
    requires OriginalStd(Matrix(input.strategies).cols[s], cfg.sqrt) >= 0.00001
    ensures Projection.Live(Filled(Residual(input, cfg, s)))
  {
    OrderIs(input);
    ResidualsClean(input, cfg, s);
    NormalisedAligned(input, cfg);
    LargeEnough(Full(input), Residual(input, cfg, s), OriginalStd(Matrix(input.strategies).cols[s], cfg.sqrt), cfg);
  }

  lemma LargeEnough(full: seq<bool>, r: Column, original: real, cfg: Config)
    requires IsRoot(cfg.sqrt) && cfg.ratio >= COLLINEAR_RATIO && original >= 0.00001
    requires |r| == Count(full) >= 2 && OrthogonalizerTheorems.Clean(r)
    requires !AllMissing(NormalisedColumn(Scatter(full, r), original, cfg.ratio, cfg.sqrt))
    ensures Projection.Live(Filled(r))
  {
    ScoredColumn(full, r, original, cfg.ratio, cfg.sqrt);
    SurvivorSpread(full, r, original, cfg.ratio, cfg.sqrt);
    RootOfVariance(Filled(r), cfg.sqrt);
    LargeNorm(Filled(r), cfg.sqrt(Variance(Filled(r), 1)), original, cfg.ratio);
  }

  /** When no weighted column is nearly constant, every surviving residual is large enough, so the variance results
      need no condition on residuals. */
  lemma SpreadInputIsLive(input: Input, cfg: Config)
    requires Multi(input) && IsRoot(cfg.sqrt) && cfg.ratio >= COLLINEAR_RATIO
    requires forall s :: s in Order(input) ==> OriginalStd(Matrix(input.strategies).cols[s], cfg.sqrt) >= 0.00001
    ensures AllLive(input, cfg)
  {
    forall s | s in Order(input) && Survives(input, cfg, s)
      ensures Projection.Live(Filled(Residual(input, cfg, s)))
    {
      SurvivorIsLive(input, cfg, s);
    }
  }

  // ---------------------------------------------------------------- rows that are not fully covered

  lemma {:induction false} WeightedSumOfMissing(cols: map<Name, Column>, ws: seq<Weight>, n: nat, i: nat)
    requires Fits(cols, ws, n) && i < n
    requires forall k :: 0 <= k < |ws| ==> cols[ws[k].name][i].NaN?
    ensures WeightedSum(cols, ws, n)[i] == 0.0
  {
    if ws != [] {
      WeightedSumOfMissing(cols, ws[..|ws| - 1], n, i);
    }
  }

  /** A stock that lacks one weighted strategy gets composite score exactly zero, however strong its other scores. */
  lemma PartlyCoveredScoresZero(input: Input, cfg: Config, i: nat)
    requires Multi(input) && IsRoot(cfg.sqrt) && i < |Full(input)| && !Full(input)[i]
    ensures Ready(input, cfg) && CompositeZ(input, cfg)[i] == 0.0
  {
    MultiWeights(input);
    WeightsFit(input, cfg);
    WeightsOrdered(input);
    var ws := Weights(input);
    forall k | 0 <= k < |ws|
      ensures NormalisedColumns(input, cfg)[ws[k].name][i].NaN?
    {
      KeptNormal(input, cfg, ws[k].name);
    }
    WeightedSumOfMissing(NormalisedColumns(input, cfg), ws, |Full(input)|, i);
    RootPositive(cfg.sqrt, SquareWeight(ws));
  }
}
