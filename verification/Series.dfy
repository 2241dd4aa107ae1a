/** Columns of floats in which a cell may be missing (NaN), with the reductions pandas applies: missing cells
    spread through arithmetic and are skipped by sums, means and deviations. */
module Series {
  import opened Vectors
  import opened Statistics

  datatype Cell = NaN | Num(v: real)

  type Column = seq<Cell>

  /** The values that are present, in row order. */
  function Present(x: Column): (r: Vec)
    ensures |r| <= |x|
  {
    if x == [] then []
    else if x[0].Num? then [x[0].v] + Present(x[1..])
    else Present(x[1..])
  }

  function Numbers(u: Vec): (r: Column)
    ensures |r| == |u| && forall i :: 0 <= i < |u| ==> r[i] == Num(u[i])
  {
    seq(|u|, i requires 0 <= i < |u| => Num(u[i]))
  }

  function Missing(n: nat): (r: Column)
    ensures |r| == n && forall i :: 0 <= i < n ==> r[i] == NaN
  {
    seq(n, _ => NaN)
  }

  predicate AllPresent(x: Column) {
    forall i :: 0 <= i < |x| ==> x[i].Num?
  }

  predicate AllMissing(x: Column) {
    forall i :: 0 <= i < |x| ==> x[i].NaN?
  }

  function CellProduct(a: Cell, b: Cell): Cell {
    if a.Num? && b.Num? then Num(Times(a.v, b.v)) else NaN
  }

  function CellLess(a: Cell, c: real, b: Cell): Cell {
    if a.Num? && b.Num? then Num(Plus(a.v, -c, b.v)) else NaN
  }

  function CellScore(a: Cell, m: real, s: real): Cell
    requires s != 0.0
  {
    if a.Num? then Num(ZCell(a.v, m, s)) else NaN
  }

  function FillZero(a: Cell): real {
    if a.Num? then a.v else 0.0
  }

  /** x * y, row by row. */
  function Product(x: Column, y: Column): (r: Column)
    requires |x| == |y|
    ensures |r| == |x| && forall i :: 0 <= i < |x| ==> r[i] == CellProduct(x[i], y[i])
  {
    seq(|x|, i requires 0 <= i < |x| => CellProduct(x[i], y[i]))
  }

  /** x - c * y, row by row. */
  function LessMultiple(x: Column, c: real, y: Column): (r: Column)
    requires |x| == |y|
    ensures |r| == |x| && forall i :: 0 <= i < |x| ==> r[i] == CellLess(x[i], c, y[i])
  {
    seq(|x|, i requires 0 <= i < |x| => CellLess(x[i], c, y[i]))
  }

  /** (x - m) / s, row by row. */
  function Scores(x: Column, m: real, s: real): (r: Column)
    requires s != 0.0
    ensures |r| == |x| && forall i :: 0 <= i < |x| ==> r[i] == CellScore(x[i], m, s)
  {
    seq(|x|, i requires 0 <= i < |x| => CellScore(x[i], m, s))
  }

  /** x.fillna(0.0) */
  function Filled(x: Column): (r: Vec)
    ensures |r| == |x| && forall i :: 0 <= i < |x| ==> r[i] == FillZero(x[i])
  {
    seq(|x|, i requires 0 <= i < |x| => FillZero(x[i]))
  }

  function Total(x: Column): real {
    Sum(Present(x))
  }

  /** x.std(ddof): missing when there are not more than ddof values. */
  function Std(x: Column, ddof: nat, sqrt: real -> real): Cell {
    var u := Present(x);
    if |u| <= ddof then NaN else Num(sqrt(Variance(u, ddof)))
  }

  // ---------------------------------------------------------------- row masks

  function Count(mask: seq<bool>): (n: nat)
    ensures n <= |mask|
  {
    if mask == [] then 0 else (if mask[0] then 1 else 0) + Count(mask[1..])
  }

  /** s.loc[mask] */
  function Keep<T>(mask: seq<bool>, s: seq<T>): (r: seq<T>)
    requires |mask| == |s|
    ensures |r| == Count(mask)
  {
    if s == [] then [] else (if mask[0] then [s[0]] else []) + Keep(mask[1..], s[1..])
  }

  /** The inverse placement: kept rows get their values back, all others are missing. */
  function Scatter(mask: seq<bool>, x: Column): (r: Column)
    requires |x| == Count(mask)
    ensures |r| == |mask|
  {
    if mask == [] then []
    else if mask[0] then [x[0]] + Scatter(mask[1..], x[1..])
    else [NaN] + Scatter(mask[1..], x)
  }

  // ---------------------------------------------------------------- facts

  lemma {:induction false} PresentNumbers(u: Vec)
    ensures Present(Numbers(u)) == u
  {
    if u != [] {
      PresentNumbers(u[1..]);
      assert Numbers(u)[1..] == Numbers(u[1..]);
    }
  }

  lemma {:induction false} PresentOfPresent(x: Column)
    requires AllPresent(x)
    ensures x == Numbers(Present(x)) && |Present(x)| == |x|
  {
    if x != [] {
      PresentOfPresent(x[1..]);
      assert Numbers(Present(x)) == [x[0]] + Numbers(Present(x[1..]));
    }
  }

  lemma {:induction false} PresentOfMissing(x: Column)
    requires AllMissing(x)
    ensures Present(x) == []
  {
    if x != [] {
      PresentOfMissing(x[1..]);
    }
  }

  lemma {:induction false} TotalProduct(u: Vec, v: Vec)
    requires |u| == |v|
    ensures Total(Product(Numbers(u), Numbers(v))) == Dot(u, v)
  {
    if u != [] {
      TotalProduct(u[1..], v[1..]);
      assert Product(Numbers(u), Numbers(v))[1..] == Product(Numbers(u[1..]), Numbers(v[1..]));
    }
  }

  lemma TotalProductMissing(x: Column, y: Column)
    requires |x| == |y| && AllMissing(y)
    ensures Total(Product(x, y)) == 0.0
  {
    PresentOfMissing(Product(x, y));
  }

  lemma {:induction false} PresentScores(x: Column, m: real, s: real)
    requires s != 0.0
    ensures Present(Scores(x, m, s)) == Standardise(Present(x), m, s)
  {
    if x != [] {
      PresentScores(x[1..], m, s);
      assert Scores(x, m, s)[1..] == Scores(x[1..], m, s);
      if x[0].Num? {
        assert Standardise(Present(x), m, s)[1..] == Standardise(Present(x[1..]), m, s);
      }
    }
  }

  lemma {:induction false} KeepScatter(mask: seq<bool>, x: Column)
    requires |x| == Count(mask)
    ensures Keep(mask, Scatter(mask, x)) == x
    ensures Present(Scatter(mask, x)) == Present(x)
  {
    if mask == [] {
    } else if mask[0] {
      KeepScatter(mask[1..], x[1..]);
      assert Scatter(mask, x)[1..] == Scatter(mask[1..], x[1..]);
    } else {
      KeepScatter(mask[1..], x);
      assert Scatter(mask, x)[1..] == Scatter(mask[1..], x);
    }
  }

  lemma {:induction false} ScatterOutside(mask: seq<bool>, x: Column, i: nat)
    requires |x| == Count(mask) && i < |mask| && !mask[i]
    ensures Scatter(mask, x)[i] == NaN
  {
    if i > 0 {
      ScatterOutside(mask[1..], if mask[0] then x[1..] else x, i - 1);
    }
  }

  /** Rows dropped by the mask hold nothing, so dropping them loses no value. */
  lemma {:induction false} PresentKeep(mask: seq<bool>, x: Column)
    requires |mask| == |x|
    requires forall i :: 0 <= i < |x| && !mask[i] ==> x[i].NaN?
    ensures Present(Keep(mask, x)) == Present(x)
  {
    if x != [] {
      PresentKeep(mask[1..], x[1..]);
      if mask[0] {
        assert Keep(mask, x)[1..] == Keep(mask[1..], x[1..]);
      } else {
        assert Keep(mask, x) == Keep(mask[1..], x[1..]);
      }
    }
  }
}
