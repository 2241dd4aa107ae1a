/** What one day's score table guarantees, whatever the strategies and weights. */
module ScoreTheorems {
  import opened Vectors
  import opened Series
  import opened Sorting
  import opened Orthogonalizer
  import opened Ranking
  import opened Scorer
  import opened Compaction
  import opened ShadowStrategies

  // ---------------------------------------------------------------- the residual breakdown

  /** The contributions listed in a residual breakdown, added up. */
  function Contributions(parts: seq<ResidualPart>): real {
    if parts == [] then 0.0 else Contributions(parts[..|parts| - 1]) + parts[|parts| - 1].contribution
  }

  lemma ContributionsSnoc(parts: seq<ResidualPart>, part: ResidualPart)
    ensures Contributions(parts + [part]) == Contributions(parts) + part.contribution
  {
    assert (parts + [part])[..|parts|] == parts;
  }

  lemma OverSum(x: real, w: real, z: real, root: real)
    requires root != 0.0
    ensures Over(Plus(x, w, z), root) == Over(x, root) + Over(Times(z, w), root)
  {
  }

  lemma {:induction false} ContributionsAre(cols: map<Name, Column>, ws: seq<Weight>, n: nat, i: nat, root: real)
    requires Fits(cols, ws, n) && i < n && root != 0.0
    ensures Contributions(ResidualParts(cols, ws, i, root)) == Over(WeightedSum(cols, ws, n)[i], root)
  {
    if ws != [] {
      var init, last := ws[..|ws| - 1], ws[|ws| - 1];
      ContributionsAre(cols, init, n, i, root);
      var z := FillZero(cols[last.name][i]);
      ContributionsSnoc(ResidualParts(cols, init, i, root), ResidualPartOf(last, z, root));
      OverSum(WeightedSum(cols, init, n)[i], last.w, z, root);
    }
  }

  // ---------------------------------------------------------------- the rows of the table

  ghost predicate HasTable(input: Input) {
    input.Valid() && input.strategies != [] && SquareWeight(Weights(input)) > 0.0
  }

  lemma TableOf(input: Input, cfg: Config, j: nat)
    requires input.Valid() && IsRoot(cfg.sqrt) && j < |Aggregate(input, cfg)|
    ensures HasTable(input) && j < Count(Seen(input)) == |Aggregate(input, cfg)|
    ensures var mask, score := Seen(input), Aggregate(input, cfg)[j];
      && score.code == Keep(mask, Matrix(input.strategies).index)[j]
      && score.compositeZ == Keep(mask, CompositeZ(input, cfg))[j]
      && score.pctInMarket == PctRank(Keep(mask, CompositeZ(input, cfg)))[j]
      && score.compositeScore == cfg.phi(score.compositeZ) * 100.0
  {
  }

  lemma OverCell(u: Vec, root: real, i: nat)
    requires root != 0.0 && i < |u|
    ensures Standardise(u, 0.0, root)[i] == Over(u[i], root)
  {
    assert Standardise(u, 0.0, root)[i] == ZCell(u[i], 0.0, root);
  }

  /** The composite of the j-th listed stock is the weighted sum of its row over the root of the squared weights. */
  lemma CompositeOf(input: Input, cfg: Config, j: nat)
    requires HasTable(input) && IsRoot(cfg.sqrt) && j < Count(Seen(input))
    ensures Aligned(NormalisedColumns(input, cfg), |Seen(input)|) && cfg.sqrt(SquareWeight(Weights(input))) > 0.0
    ensures Fits(NormalisedColumns(input, cfg), Weights(input), |Seen(input)|)
    ensures Keep(Seen(input), CompositeZ(input, cfg))[j] ==
      Over(Keep(Seen(input), WeightedSum(NormalisedColumns(input, cfg), Weights(input), |Seen(input)|))[j],
           cfg.sqrt(SquareWeight(Weights(input))))
  {
    NormalisedAligned(input, cfg);
    WeightsFit(input, cfg);
    RootPositive(cfg.sqrt, SquareWeight(Weights(input)));
    var sums := WeightedSum(NormalisedColumns(input, cfg), Weights(input), |Seen(input)|);
    KeepNth(Seen(input), CompositeZ(input, cfg), j);
    KeepNth(Seen(input), sums, j);
    OverCell(sums, cfg.sqrt(SquareWeight(Weights(input))), Nth(Seen(input), j));
  }

  /** The weighted sums of the listed rows are those of the kept rows. */
  lemma KeptSums(input: Input, cfg: Config)
    requires HasTable(input)
    ensures Aligned(NormalisedColumns(input, cfg), |Seen(input)|)
    ensures Fits(NormalisedColumns(input, cfg), Weights(input), |Seen(input)|)
    ensures Fits(KeepRows(Seen(input), NormalisedColumns(input, cfg)), Weights(input), Count(Seen(input)))
    ensures Keep(Seen(input), WeightedSum(NormalisedColumns(input, cfg), Weights(input), |Seen(input)|)) ==
      WeightedSum(KeepRows(Seen(input), NormalisedColumns(input, cfg)), Weights(input), Count(Seen(input)))
  {
    NormalisedAligned(input, cfg);
    WeightsFit(input, cfg);
    var normal := NormalisedColumns(input, cfg);
    WeightedSumCompacted(normal, KeepRows(Seen(input), normal), Weights(input), Seen(input));
  }

  /** The parts of the residual breakdown add up to the composite score of the stock. */
  lemma BreakdownAddsUp(input: Input, cfg: Config, j: nat)
    requires input.Valid() && IsRoot(cfg.sqrt) && j < |Aggregate(input, cfg)|
    ensures Contributions(Aggregate(input, cfg)[j].residual) == Aggregate(input, cfg)[j].compositeZ
  {
    TableOf(input, cfg, j);
    CompositeOf(input, cfg, j);
    KeptSums(input, cfg);
    ResidualsOf(input, cfg, j);
    ContributionsAre(KeepRows(Seen(input), NormalisedColumns(input, cfg)), Weights(input), Count(Seen(input)), j,
                     cfg.sqrt(SquareWeight(Weights(input))));
  }

  lemma ResidualsOf(input: Input, cfg: Config, j: nat)
    requires HasTable(input) && IsRoot(cfg.sqrt) && j < |Aggregate(input, cfg)|
    ensures Aligned(NormalisedColumns(input, cfg), |Seen(input)|) && cfg.sqrt(SquareWeight(Weights(input))) > 0.0
    ensures Fits(KeepRows(Seen(input), NormalisedColumns(input, cfg)), Weights(input), Count(Seen(input)))
    ensures Aggregate(input, cfg)[j].residual ==
      ResidualParts(KeepRows(Seen(input), NormalisedColumns(input, cfg)), Weights(input), j,
          cfg.sqrt(SquareWeight(Weights(input))))
  {
    NormalisedAligned(input, cfg);
    WeightsFit(input, cfg);
    RootPositive(cfg.sqrt, SquareWeight(Weights(input)));
  }

  /** In the table a stock ranks strictly better exactly when its composite is larger, and equal composites share a
      rank. */
  lemma RankedByComposite(input: Input, cfg: Config, i: nat, j: nat)
    requires input.Valid() && IsRoot(cfg.sqrt) && i < |Aggregate(input, cfg)| && j < |Aggregate(input, cfg)|
    ensures var a, b := Aggregate(input, cfg)[i], Aggregate(input, cfg)[j];
      && (a.pctInMarket < b.pctInMarket <==> a.compositeZ > b.compositeZ)
      && (a.pctInMarket == b.pctInMarket <==> a.compositeZ == b.compositeZ)
      && Over(1.0, |Aggregate(input, cfg)| as real) <= a.pctInMarket <= 1.0
      && (a.compositeZ == b.compositeZ ==> a.compositeScore == b.compositeScore)
  {
    TableOf(input, cfg, i);
    TableOf(input, cfg, j);
    var zs := Keep(Seen(input), CompositeZ(input, cfg));
    RankReversesOrder(zs, i, j);
    RankRange(zs, i);
  }

  /** Stocks are listed once, in the order of their codes. */
  lemma CodesAscend(input: Input, cfg: Config, i: nat, j: nat)
    requires input.Valid() && IsRoot(cfg.sqrt) && i < j < |Aggregate(input, cfg)|
    ensures Aggregate(input, cfg)[i].code < Aggregate(input, cfg)[j].code
  {
    TableOf(input, cfg, i);
    TableOf(input, cfg, j);
    var mask, index := Seen(input), Matrix(input.strategies).index;
    KeepNth(mask, index, i);
    KeepNth(mask, index, j);
    NthIncreases(mask, i, j);
    AscendingIs(AllCodes(input.strategies));
  }

  /** The stock is scored by some strategy with positive weight. */
  ghost predicate Covered(input: Input, c: Code) {
    exists a :: 0 <= a < |input.strategies| && input.strategies[a].name in Weighted(input) && c in input.strategies[a].z
  }

  /** The table lists exactly the stocks that some weighted strategy scored; a stock only shadow strategies scored is
      not in it. */
  lemma TableListsCovered(input: Input, cfg: Config, c: Code)
    requires input.Valid() && IsRoot(cfg.sqrt)
    ensures (exists j :: 0 <= j < |Aggregate(input, cfg)| && Aggregate(input, cfg)[j].code == c) <==> Covered(input, c)
  {
    if j :| 0 <= j < |Aggregate(input, cfg)| && Aggregate(input, cfg)[j].code == c {
      ListedIsCovered(input, cfg, j);
    }
    if Covered(input, c) {
      var j := CoveredIsListed(input, cfg, c);
      assert Aggregate(input, cfg)[j].code == c;
    }
  }

  lemma SeenIsCovered(input: Input, i: nat)
    requires input.Valid() && i < |Seen(input)| && Seen(input)[i]
    ensures |Seen(input)| == |Matrix(input.strategies).index| && Covered(input, Matrix(input.strategies).index[i])
  {
    var m := Matrix(input.strategies);
    SeenIs(input, i);
    var s :| s in Weighted(input) && s in m.cols && m.cols[s][i].Num?;
    WeightedIs(input);
    var a :| 0 <= a < |input.strategies| && Names(input.strategies)[a] == s;
    ColumnOf(input.strategies, m.index, a);
    assert m.index[i] in input.strategies[a].z;
  }

  lemma ListedIsCovered(input: Input, cfg: Config, j: nat)
    requires input.Valid() && IsRoot(cfg.sqrt) && j < |Aggregate(input, cfg)|
    ensures Covered(input, Aggregate(input, cfg)[j].code)
  {
    TableOf(input, cfg, j);
    KeepNth(Seen(input), Matrix(input.strategies).index, j);
    SeenIsCovered(input, Nth(Seen(input), j));
  }

  lemma CoveredIsListed(input: Input, cfg: Config, c: Code) returns (j: nat)
    requires input.Valid() && IsRoot(cfg.sqrt) && Covered(input, c)
    ensures j < |Aggregate(input, cfg)| && Aggregate(input, cfg)[j].code == c
  {
    var a :| 0 <= a < |input.strategies| && input.strategies[a].name in Weighted(input) && c in input.strategies[a].z;
    var m, mask := Matrix(input.strategies), Seen(input);
    WeightsHaveSquares(input, input.strategies[a].name);
    var i := CodeHasRow(input, a, c);
    SeenIs(input, i);
    NthOnto(mask, i);
    j :| 0 <= j < Count(mask) && Nth(mask, j) == i;
    KeepNth(mask, m.index, j);
    assert |Aggregate(input, cfg)| == Count(mask);
    TableOf(input, cfg, j);
  }

  lemma WeightsHaveSquares(input: Input, s: Name)
    requires input.Valid() && s in Weighted(input)
    ensures HasTable(input)
  {
    WeightedIs(input);
    WeightsCover(input, s);
    WeightsPositive(input);
    SquareWeightNonNegative(Weights(input));
  }

  // ---------------------------------------------------------------- the raw breakdown

  /** The part of one weighted strategy, when it scored the row. */
  ghost predicate PartAt(cols: map<Name, Column>, ws: seq<Weight>, i: nat, part: RawPart, k: int) {
    && 0 <= k < |ws| && ws[k].name in cols && i < |cols[ws[k].name]| && cols[ws[k].name][i].Num?
    && part == RawPart(ws[k].name, cols[ws[k].name][i].v, ws[k].w, Times(cols[ws[k].name][i].v, ws[k].w))
  }

  lemma {:induction false} RawPartsMembers(cols: map<Name, Column>, ws: seq<Weight>, n: nat, i: nat, part: RawPart)
    requires Fits(cols, ws, n) && i < n
    ensures part in RawParts(cols, ws, i) <==> exists k :: PartAt(cols, ws, i, part, k)
  {
    if ws != [] {
      var m := |ws| - 1;
      RawPartsMembers(cols, ws[..m], n, i, part);
      if part in RawParts(cols, ws[..m], i) {
        var k :| PartAt(cols, ws[..m], i, part, k);
        assert PartAt(cols, ws, i, part, k);
      } else if part in RawParts(cols, ws, i) {
        assert PartAt(cols, ws, i, part, m);
      }
      if k :| PartAt(cols, ws, i, part, k) {
        if k < m {
          assert PartAt(cols, ws[..m], i, part, k);
        }
      }
    }
  }

  /** Strategy a, with the weight at k, scored stock c, and this is its part. */
  ghost predicate PartOf(input: Input, c: Code, part: RawPart, a: int, k: int) {
    && 0 <= a < |input.strategies| && 0 <= k < |Weights(input)|
    && Weights(input)[k].name == input.strategies[a].name && c in input.strategies[a].z
    && part == RawPart(input.strategies[a].name, input.strategies[a].z[c], Weights(input)[k].w,
                       Times(input.strategies[a].z[c], Weights(input)[k].w))
  }

  lemma RawOf(input: Input, cfg: Config, j: nat)
    requires input.Valid() && IsRoot(cfg.sqrt) && j < |Aggregate(input, cfg)|
    ensures Aligned(Matrix(input.strategies).cols, |Seen(input)|) && j < Count(Seen(input))
    ensures Fits(KeepRows(Seen(input), Matrix(input.strategies).cols), Weights(input), Count(Seen(input)))
    ensures Aggregate(input, cfg)[j].raw ==
      RawParts(KeepRows(Seen(input), Matrix(input.strategies).cols), Weights(input), j)
  {
    MatrixFits(input);
  }

  /** The cell of a weighted strategy in row j of the table is its score of that row's stock, if it has one. */
  lemma CellOf(input: Input, cfg: Config, j: nat, a: nat)
    requires input.Valid() && IsRoot(cfg.sqrt) && j < |Aggregate(input, cfg)| && a < |input.strategies|
    ensures Aligned(Matrix(input.strategies).cols, |Seen(input)|) && j < Count(Seen(input))
    ensures input.strategies[a].name in Matrix(input.strategies).cols
    ensures var c, z := Aggregate(input, cfg)[j].code, input.strategies[a].z;
      KeepRows(Seen(input), Matrix(input.strategies).cols)[input.strategies[a].name][j] ==
        if c in z then Num(z[c]) else NaN
  {
    RawOf(input, cfg, j);
    TableOf(input, cfg, j);
    var m, mask := Matrix(input.strategies), Seen(input);
    ColumnOf(input.strategies, m.index, a);
    KeepNth(mask, m.index, j);
    KeepNth(mask, m.cols[input.strategies[a].name], j);
  }

  /** The raw breakdown of a stock lists exactly the weighted strategies that scored it, each with its own score, its
      weight in force, and their product. */
  lemma RawBreakdownIs(input: Input, cfg: Config, j: nat, part: RawPart)
    requires input.Valid() && IsRoot(cfg.sqrt) && j < |Aggregate(input, cfg)|
    ensures part in Aggregate(input, cfg)[j].raw <==>
      exists a, k :: PartOf(input, Aggregate(input, cfg)[j].code, part, a, k)
  {
    RawOf(input, cfg, j);
    var c, ws := Aggregate(input, cfg)[j].code, Weights(input);
    var kept := KeepRows(Seen(input), Matrix(input.strategies).cols);
    RawPartsMembers(kept, ws, Count(Seen(input)), j, part);
    if k :| PartAt(kept, ws, j, part, k) {
      var a := StrategyOf(input, k);
      CellOf(input, cfg, j, a);
      assert PartOf(input, c, part, a, k);
    }
    if a, k :| PartOf(input, c, part, a, k) {
      CellOf(input, cfg, j, a);
      assert PartAt(kept, ws, j, part, k);
    }
  }

  lemma StrategyOf(input: Input, k: nat) returns (a: nat)
    requires input.Valid() && k < |Weights(input)|
    ensures a < |input.strategies| && input.strategies[a].name == Weights(input)[k].name
  {
    WeightsAreWeighted(input);
    WeightedIs(input);
    a :| 0 <= a < |input.strategies| && Names(input.strategies)[a] == Weights(input)[k].name;
  }

  // ---------------------------------------------------------------- the weights in force

  lemma {:induction false} ScaledTotal(ws: seq<Weight>, total: real)
    requires total != 0.0
    ensures TotalWeight(Scaled(ws, total)) == Over(TotalWeight(ws), total)
  {
    if ws != [] {
      var init, last := ws[..|ws| - 1], ws[|ws| - 1];
      ScaledTotal(init, total);
      assert Scaled(ws, total)[..|ws| - 1] == Scaled(init, total);
      QuotientSum(TotalWeight(init), last.w, total);
    }
  }

  lemma QuotientSum(x: real, y: real, total: real)
    requires total != 0.0
    ensures Over(x + y, total) == Over(x, total) + y / total
  {
  }

  lemma ItselfOver(x: real)
    requires x != 0.0
    ensures Over(x, x) == 1.0
  {
  }

  /** The weights in force add up to one. */
  lemma WeightsSumToOne(input: Input)
    requires Weights(input) != []
    ensures TotalWeight(Weights(input)) == 1.0
  {
    var total := TotalWeight(RawWeights(input));
    ScaledTotal(RawWeights(input), total);
    ItselfOver(total);
  }
}
