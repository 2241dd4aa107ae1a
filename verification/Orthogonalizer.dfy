/** The Gram-Schmidt pass and the re-standardisation that turn strategy z-columns into uncorrelated unit columns. */
module Orthogonalizer {
  import opened Statistics
  import opened Series
  import opened Outcomes
  import opened Sorting
  import Projection

  /** Stock codes are only ordered and strategy names only compared, so numbers stand for both. */
  type Code = int
  datatype Name = Strategy(id: nat)

  /** A table: one column of cells per strategy, all parallel to the row index. The suffixes the program appends
      to column names are injective and are left off. */
  datatype Frame = Frame(index: seq<Code>, cols: map<Name, Column>) {
    ghost predicate Valid() {
      forall s :: s in cols ==> |cols[s]| == |index|
    }
  }

  const TINY: real := Projection.TINY

  /** A residual whose deviation is below this share of the original one is taken as absorbed. */
  const COLLINEAR_RATIO: real := 0.3

  predicate Covers(matrix: Frame, order: seq<Name>) {
    forall s :: s in order ==> s in matrix.cols
  }

  // ---------------------------------------------------------------- Step 4a: residuals of a block of full rows

  ghost predicate Parallel(cols: seq<Column>, n: nat) {
    forall i :: 0 <= i < |cols| ==> |cols[i]| == n
  }

  /** u less its projection on v, unless v is numerically zero. */
  function ProjectOut(u: Column, v: Column): (r: Column)
    requires |u| == |v|
    ensures |r| == |u|
  {
    var denom := Total(Product(v, v));
    if denom < TINY then u
    else LessMultiple(u, Total(Product(u, v)) / denom, v)
  }

  /** u after all the earlier residuals have been projected out in turn. */
  ghost function ProjectAll(u: Column, done: seq<Column>): (r: Column)
    requires Parallel(done, |u|)
    ensures |r| == |u|
  {
    if done == [] then u
    else ProjectOut(ProjectAll(u, done[..|done| - 1]), done[|done| - 1])
  }

  /** A residual without spread is written as a missing column. */
  function Retain(u: Column, sqrt: real -> real): (r: Column)
    ensures |r| == |u|
  {
    var sd := Std(u, 0, sqrt);
    if sd.Num? && sd.v < TINY then Missing(|u|) else u
  }

  /** The residual columns of a block, in processing order. */
  ghost function Residuals(cols: seq<Column>, n: nat, sqrt: real -> real): (r: seq<Column>)
    requires Parallel(cols, n)
    ensures |r| == |cols| && Parallel(r, n)
  {
    if cols == [] then []
    else
      var done := Residuals(cols[..|cols| - 1], n, sqrt);
      done + [Retain(ProjectAll(cols[|cols| - 1], done), sqrt)]
  }

  // ---------------------------------------------------------------- Step 4a on a table

  predicate FullRow(matrix: Frame, order: seq<Name>, i: nat)
    requires matrix.Valid() && Covers(matrix, order) && i < |matrix.index|
  {
    forall s :: s in order ==> matrix.cols[s][i].Num?
  }

  /** The rows in which every ordered strategy is present. */
  function FullRows(matrix: Frame, order: seq<Name>): (mask: seq<bool>)
    requires matrix.Valid() && Covers(matrix, order)
    ensures |mask| == |matrix.index|
    ensures forall i :: 0 <= i < |mask| ==> (mask[i] <==> FullRow(matrix, order, i))
  {
    seq(|matrix.index|, i requires 0 <= i < |matrix.index| => FullRow(matrix, order, i))
  }

  function Block(matrix: Frame, order: seq<Name>): (r: seq<Column>)
    requires matrix.Valid() && Covers(matrix, order)
    ensures |r| == |order|
    ensures forall i :: 0 <= i < |order| ==>
      order[i] in order && r[i] == Keep(FullRows(matrix, order), matrix.cols[order[i]])
  {
    seq(|order|, i requires 0 <= i < |order| =>
      assert order[i] in order; Keep(FullRows(matrix, order), matrix.cols[order[i]]))
  }

  ghost function IndexOf(order: seq<Name>, s: Name): (k: nat)
    requires s in order
    ensures k < |order| && order[k] == s
  {
    var k :| 0 <= k < |order| && order[k] == s;
    k
  }

  ghost function ResidualOf(matrix: Frame, order: seq<Name>, s: Name, sqrt: real -> real): (r: Column)
    requires matrix.Valid() && Covers(matrix, order) && s in order
    ensures |r| == Count(FullRows(matrix, order))
  {
    Residuals(Block(matrix, order), Count(FullRows(matrix, order)), sqrt)[IndexOf(order, s)]
  }

  /** With fewer than two full rows nothing is projected; otherwise rows that are not full become missing. */
  ghost function OrthogonalFrame(matrix: Frame, order: seq<Name>, sqrt: real -> real): (r: Outcome<Frame>)
    requires matrix.Valid()
    ensures r.Ok? ==> r.value.Valid()
  {
    if !Covers(matrix, order) then Raised(ValueError)
    else if Count(FullRows(matrix, order)) < 2 then Ok(Frame(matrix.index, map s | s in order :: matrix.cols[s]))
    else Ok(Frame(matrix.index, map s | s in order ::
      Scatter(FullRows(matrix, order), ResidualOf(matrix, order, s, sqrt))))
  }

  // ---------------------------------------------------------------- Step 4b

  /** One column re-standardised; a column without spread or without two values becomes missing. */
  function Renormalised(x: Column, sqrt: real -> real): (r: Column)
    ensures |r| == |x|
  {
    var sd := if Present(x) == [] then Num(0.0) else Std(x, 1, sqrt);
    if sd.NaN? || sd.v < TINY || Present(x) == [] then Missing(|x|)
    else Scores(x, Mean(Present(x)), sd.v)
  }

  function OriginalStd(x: Column, sqrt: real -> real): real {
    var sd := Std(x, 1, sqrt);
    if sd.Num? then sd.v else 0.0
  }

  /** The residual has shrunk so far, relative to its source column, that its strategy counts as absorbed. */
  predicate Absorbed(x: Column, original: real, ratio: real, sqrt: real -> real) {
    var sd := Std(x, 1, sqrt);
    sd.Num? && original > TINY && sd.v / original < ratio
  }

  function NormalisedColumn(x: Column, original: real, ratio: real, sqrt: real -> real): (r: Column)
    ensures |r| == |x|
  {
    var sd := if Present(x) == [] then Num(0.0) else Std(x, 1, sqrt);
    if sd.NaN? || sd.v < TINY || Present(x) == [] then Missing(|x|)
    else if original > TINY && sd.v / original < ratio then Missing(|x|)
    else Scores(x, Mean(Present(x)), sd.v)
  }

  ghost function NormalisedFrame(matrix: Frame, order: seq<Name>, ratio: real, sqrt: real -> real): (r: Outcome<Frame>)
    requires matrix.Valid()
    ensures r.Ok? ==> r.value.Valid()
  {
    var orthogonal :- OrthogonalFrame(matrix, order, sqrt);
    Ok(Frame(matrix.index, map s | s in order ::
      NormalisedColumn(orthogonal.cols[s], OriginalStd(matrix.cols[s], sqrt), ratio, sqrt)))
  }

  // ---------------------------------------------------------------- the program

  lemma {:induction false} ResidualsPrefix(cols: seq<Column>, n: nat, sqrt: real -> real, i: nat)
    requires Parallel(cols, n) && i <= |cols|
    ensures Residuals(cols, n, sqrt)[..i] == Residuals(cols[..i], n, sqrt)
  {
    if i < |cols| {
      ResidualsPrefix(cols[..|cols| - 1], n, sqrt, i);
      assert cols[..|cols| - 1][..i] == cols[..i];
    } else {
      assert cols[..i] == cols;
    }
  }

  /** The inner loop: walk the order, skip strategies without a residual yet, project the others out of u. */
  method ProjectLoop(u0: Column, order: seq<Name>, residuals: map<Name, Column>, ghost done: seq<Column>)
    returns (u: Column)
    requires Distinct(order) && Parallel(done, |u0|) && Holds(residuals, order, done)
    ensures u == ProjectAll(u0, done)
  {
    u := u0;
    for j := 0 to |order|
      invariant |u| == |u0|
      invariant u == ProjectAll(u0, done[..if j < |done| then j else |done|])
    {
      if order[j] in residuals {
        var v := residuals[order[j]];
        assert done[..j + 1][..j] == done[..j];
        var denom := Total(Product(v, v));
        if denom >= TINY {
          var coef := Total(Product(u, v)) / denom;
          u := LessMultiple(u, coef, v);
        }
      }
    }
    assert done[..|done|] == done;
  }

  /** The residuals dictionary holds exactly the columns done so far. */
  ghost predicate Holds(residuals: map<Name, Column>, order: seq<Name>, done: seq<Column>) {
    && |done| <= |order|
    && (forall k :: 0 <= k < |order| ==> (order[k] in residuals <==> k < |done|))
    && forall k :: 0 <= k < |done| ==> residuals[order[k]] == done[k]
  }

  lemma HoldsNext(residuals: map<Name, Column>, order: seq<Name>, done: seq<Column>, col: Column)
    requires Distinct(order) && Holds(residuals, order, done) && |done| < |order|
    ensures Holds(residuals[order[|done|] := col], order, done + [col])
  {
  }

  /** The outer loop of the Gram-Schmidt pass over the block of full rows. */
  method ResidualLoop(valid: seq<Column>, order: seq<Name>, n: nat, sqrt: real -> real)
    returns (residuals: map<Name, Column>)
    requires Distinct(order) && |valid| == |order| && Parallel(valid, n)
    ensures forall k :: 0 <= k < |order| ==>
      order[k] in residuals && residuals[order[k]] == Residuals(valid, n, sqrt)[k]
  {
    ghost var all := Residuals(valid, n, sqrt);
    residuals := map[];
    for i := 0 to |order|
      invariant Holds(residuals, order, all[..i])
    {
      ResidualStep(valid, n, sqrt, i);
      var u := ProjectLoop(valid[i], order, residuals, all[..i]);
      HoldsNext(residuals, order, all[..i], Retain(u, sqrt));
      assert all[..i + 1] == all[..i] + [all[i]];
      residuals := residuals[order[i] := Retain(u, sqrt)];
    }
  }

  lemma ResidualStep(cols: seq<Column>, n: nat, sqrt: real -> real, i: nat)
    requires Parallel(cols, n) && i < |cols|
    ensures Parallel(Residuals(cols, n, sqrt)[..i], n)
    ensures Residuals(cols, n, sqrt)[i] == Retain(ProjectAll(cols[i], Residuals(cols, n, sqrt)[..i]), sqrt)
  {
    ResidualsPrefix(cols, n, sqrt, i);
    ResidualsPrefix(cols, n, sqrt, i + 1);
    assert cols[..i + 1][..i] == cols[..i];
    assert Residuals(cols, n, sqrt)[i] == Residuals(cols, n, sqrt)[..i + 1][i];
  }

  method GramSchmidt(matrix: Frame, order: seq<Name>, sqrt: real -> real) returns (out: Outcome<Frame>)
    requires matrix.Valid() && Distinct(order)
    ensures out == OrthogonalFrame(matrix, order, sqrt)
  {
    if !Covers(matrix, order) {
      return Raised(ValueError);
    }
    var mask := FullRows(matrix, order);
    if Count(mask) < 2 {
      return Ok(Frame(matrix.index, map s | s in order :: matrix.cols[s]));
    }
    var residuals := ResidualLoop(Block(matrix, order), order, Count(mask), sqrt);
    ResidualsByName(matrix, order, residuals, sqrt);
    var reindexed := map s | s in order :: Scatter(mask, residuals[s]);
    Reindexed(matrix, order, reindexed, sqrt);
    out := Ok(Frame(matrix.index, reindexed));
  }

  lemma ResidualsByName(matrix: Frame, order: seq<Name>, residuals: map<Name, Column>, sqrt: real -> real)
    requires matrix.Valid() && Covers(matrix, order)
    requires forall k :: 0 <= k < |order| ==>
      (order[k] in residuals &&
       residuals[order[k]] == Residuals(Block(matrix, order), Count(FullRows(matrix, order)), sqrt)[k])
    ensures forall s :: s in order ==> s in residuals && residuals[s] == ResidualOf(matrix, order, s, sqrt)
  {
    forall s | s in order
      ensures s in residuals && residuals[s] == ResidualOf(matrix, order, s, sqrt)
    {
      var k := IndexOf(order, s);
      assert order[k] in residuals;
    }
  }

  lemma Reindexed(matrix: Frame, order: seq<Name>, cols: map<Name, Column>, sqrt: real -> real)
    requires matrix.Valid() && Covers(matrix, order) && Count(FullRows(matrix, order)) >= 2
    requires cols.Keys == set s | s in order
    requires forall s :: s in order ==> cols[s] == Scatter(FullRows(matrix, order), ResidualOf(matrix, order, s, sqrt))
    ensures OrthogonalFrame(matrix, order, sqrt) == Ok(Frame(matrix.index, cols))
  {
    assert cols == map s | s in order :: Scatter(FullRows(matrix, order), ResidualOf(matrix, order, s, sqrt));
  }

  method Compute(matrix: Frame, order: seq<Name>, ratio: real, sqrt: real -> real) returns (out: Outcome<Frame>)
    requires matrix.Valid() && Distinct(order)
    ensures out == NormalisedFrame(matrix, order, ratio, sqrt)
  {
    var originalStd: map<Name, real> := map[];
    for i := 0 to |order|
      invariant forall s :: s in order[..i] && s in matrix.cols ==>
        (s in originalStd && originalStd[s] == OriginalStd(matrix.cols[s], sqrt))
    {
      assert order[..i + 1] == order[..i] + [order[i]];
      if order[i] in matrix.cols {
        originalStd := originalStd[order[i] := OriginalStd(matrix.cols[order[i]], sqrt)];
      }
    }
    assert order[..|order|] == order;
    var orthogonal :- GramSchmidt(matrix, order, sqrt);
    var cols := NormaliseLoop(matrix, orthogonal, order, originalStd, ratio, sqrt);
    out := Ok(Frame(matrix.index, cols));
  }

  method NormaliseLoop(matrix: Frame, orthogonal: Frame, order: seq<Name>, originalStd: map<Name, real>, ratio: real,
      sqrt: real -> real)
    returns (cols: map<Name, Column>)
    requires Covers(matrix, order) && Covers(orthogonal, order)
    requires forall s :: s in order ==> s in originalStd && originalStd[s] == OriginalStd(matrix.cols[s], sqrt)
    ensures cols == map s | s in order ::
      NormalisedColumn(orthogonal.cols[s], OriginalStd(matrix.cols[s], sqrt), ratio, sqrt)
  {
    cols := map[];
    for i := 0 to |order|
      invariant cols.Keys == set s | s in order[..i]
      invariant forall s :: s in order[..i] ==>
        cols[s] == NormalisedColumn(orthogonal.cols[s], OriginalStd(matrix.cols[s], sqrt), ratio, sqrt)
    {
      var s := order[i];
      assert s in order;
      assert order[..i + 1] == order[..i] + [s];
      cols := cols[s := NormalisedColumn(orthogonal.cols[s], originalStd[s], ratio, sqrt)];
    }
    assert order[..|order|] == order;
  }
}
