/** What becomes of a stock that some weighted strategies score and others do not. */
module PartialCoverage {
  import opened Vectors
  import opened Series
  import opened Orthogonalizer
  import opened Scorer
  import ScoreTheorems
  import opened Compaction
  import opened CompositeVariance

  /** Row i of the composite counts, of the strategies that were not dropped, exactly those that scored the
      row's stock. */
  ghost predicate CountsWhatItHas(input: Input, cfg: Config, i: nat)
    requires input.Valid() && i < |Matrix(input.strategies).index|
  {
    forall s :: s in Weighted(input) && Survives(input, cfg, s) ==>
      (CellAt(NormalisedColumns(input, cfg), s, i).Num? <==> CellAt(Matrix(input.strategies).cols, s, i).Num?)
  }

  /** The cell of a column, missing where the table has none. */
  function CellAt(cols: map<Name, Column>, s: Name, i: nat): Cell {
    if s in cols && i < |cols[s]| then cols[s][i] else NaN
  }

  /** Present residuals give present cells exactly on the full rows. */
  lemma ScatteredCells(full: seq<bool>, r: Column, original: real, ratio: real, sqrt: real -> real, i: nat)
    requires |r| == Count(full) >= 2 && OrthogonalizerTheorems.Clean(r) && i < |full|
    ensures var col := NormalisedColumn(Scatter(full, r), original, ratio, sqrt);
      !AllMissing(col) ==> (col[i].Num? <==> full[i])
  {
    var x := Scatter(full, r);
    ScoredColumn(full, r, original, ratio, sqrt);
    if full[i] {
      NthOnto(full, i);
      var j :| 0 <= j < Count(full) && Nth(full, j) == i;
      KeepScatter(full, r);
      KeepNth(full, x, j);
    }
  }

  /** With several weighted strategies and two full rows, a surviving column is present exactly on the full rows. */
  lemma SurvivorOnFullRows(input: Input, cfg: Config, s: Name, i: nat)
    requires Multi(input) && s in Weighted(input) && Survives(input, cfg, s) && i < |Full(input)|
    ensures CellAt(NormalisedColumns(input, cfg), s, i).Num? <==> Full(input)[i]
  {
    OrderIs(input);
    ResidualsClean(input, cfg, s);
    NormalisedAligned(input, cfg);
    ScatteredCells(Full(input), Residual(input, cfg, s), OriginalStd(Matrix(input.strategies).cols[s], cfg.sqrt),
        cfg.ratio, cfg.sqrt, i);
  }

  lemma StandardisedCells(x: Column, original: real, ratio: real, sqrt: real -> real, i: nat)
    requires i < |x|
    ensures var col := NormalisedColumn(x, original, ratio, sqrt); !AllMissing(col) ==> (col[i].Num? <==> x[i].Num?)
  {
  }

  /** Otherwise nothing is projected, and a surviving column is present where its strategy's scores are. */
  lemma SurvivorOnOwnRows(input: Input, cfg: Config, s: Name, i: nat)
    requires input.Valid() && !Multi(input) && s in Weighted(input) && Survives(input, cfg, s) &&
      i < |Matrix(input.strategies).index|
    ensures CellAt(NormalisedColumns(input, cfg), s, i).Num? <==> CellAt(Matrix(input.strategies).cols, s, i).Num?
  {
    OrderIs(input);
    NormalisedAligned(input, cfg);
    var m := Matrix(input.strategies);
    if !input.single && |Weighted(input)| > 1 {
      StandardisedCells(m.cols[s], OriginalStd(m.cols[s], cfg.sqrt), cfg.ratio, cfg.sqrt, i);
    }
  }

  lemma FullRowCells(input: Input, s: Name, i: nat)
    requires Multi(input) && s in Weighted(input) && i < |Full(input)| && Full(input)[i]
    ensures CellAt(Matrix(input.strategies).cols, s, i).Num?
  {
    OrderIs(input);
  }

  /** In which rows a surviving column has a value, in either case. */
  lemma SurvivorCells(input: Input, cfg: Config, s: Name, i: nat)
    requires input.Valid() && s in Weighted(input) && Survives(input, cfg, s) && i < |Matrix(input.strategies).index|
    ensures !Multi(input) ==>
      (CellAt(NormalisedColumns(input, cfg), s, i).Num? <==> CellAt(Matrix(input.strategies).cols, s, i).Num?)
    ensures Multi(input) ==> (CellAt(NormalisedColumns(input, cfg), s, i).Num? <==> Full(input)[i])
    ensures Multi(input) && Full(input)[i] ==> CellAt(Matrix(input.strategies).cols, s, i).Num?
  {
    if Multi(input) {
      SurvivorOnFullRows(input, cfg, s, i);
      if Full(input)[i] {
        FullRowCells(input, s, i);
      }
    } else {
      SurvivorOnOwnRows(input, cfg, s, i);
    }
  }

  /** For every input and every row: a stock is scored on exactly the surviving strategies it has, unless several
      strategies are orthogonalised over two or more common stocks, it is not one of those, and some surviving strategy
      scored it. */
  lemma CountsWhatItHasIff(input: Input, cfg: Config, i: nat)
    requires input.Valid() && i < |Matrix(input.strategies).index|
    ensures CountsWhatItHas(input, cfg, i) <==>
      || !Multi(input)
      || Full(input)[i]
      || forall s :: s in Weighted(input) && Survives(input, cfg, s) ==>
         CellAt(Matrix(input.strategies).cols, s, i).NaN?
  {
    forall s | s in Weighted(input) && Survives(input, cfg, s)
      ensures !Multi(input) ==>
        (CellAt(NormalisedColumns(input, cfg), s, i).Num? <==> CellAt(Matrix(input.strategies).cols, s, i).Num?)
      ensures Multi(input) ==> (CellAt(NormalisedColumns(input, cfg), s, i).Num? <==> Full(input)[i])
      ensures Multi(input) && Full(input)[i] ==> CellAt(Matrix(input.strategies).cols, s, i).Num?
    {
      SurvivorCells(input, cfg, s, i);
    }
  }

  /** The row of a stock that weighted strategy a did not score is not full. */
  lemma RowNotFull(input: Input, i: nat, a: nat)
    requires Multi(input) && i < |Full(input)| && a < |input.strategies| && input.strategies[a].name in Weighted(input)
    requires Matrix(input.strategies).index[i] !in input.strategies[a].z
    ensures !Full(input)[i]
  {
    OrderIs(input);
    ColumnOf(input.strategies, Matrix(input.strategies).index, a);
  }

  /** In the table of such a day every stock that some weighted strategy did not score has composite zero. */
  lemma UncoveredScoresZero(input: Input, cfg: Config, j: nat, a: nat)
    requires Multi(input) && IsRoot(cfg.sqrt) && j < |Aggregate(input, cfg)|
    requires a < |input.strategies| && input.strategies[a].name in Weighted(input) &&
      Aggregate(input, cfg)[j].code !in input.strategies[a].z
    ensures Aggregate(input, cfg)[j].compositeZ == 0.0
  {
    ScoreTheorems.TableOf(input, cfg, j);
    var mask := Seen(input);
    var i := Nth(mask, j);
    KeepNth(mask, Matrix(input.strategies).index, j);
    KeepNth(mask, CompositeZ(input, cfg), j);
    RowNotFull(input, i, a);
    PartlyCoveredScoresZero(input, cfg, i);
  }
}
