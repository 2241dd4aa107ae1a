/** What the Gram-Schmidt pass guarantees about the residual columns it leaves. */
module OrthogonalizerTheorems {
  import opened Vectors
  import opened Statistics
  import opened Series
  import opened Orthogonalizer
  import opened Projection

  ghost predicate Clean(x: Column) {
    AllPresent(x) || AllMissing(x)
  }

  /** A block of n full rows, as the pass receives it. */
  ghost predicate FullBlock(cols: seq<Column>, n: nat) {
    forall i :: 0 <= i < |cols| ==> |cols[i]| == n && AllPresent(cols[i])
  }

  ghost predicate AllClean(cols: seq<Column>, n: nat) {
    forall i :: 0 <= i < |cols| ==> |cols[i]| == n && Clean(cols[i])
  }

  /** The columns as vectors; a missing column counts as zero. */
  ghost function Vecs(cols: seq<Column>): (r: seq<Vec>)
    ensures |r| == |cols|
    ensures forall i :: 0 <= i < |cols| ==> r[i] == Filled(cols[i])
  {
    seq(|cols|, i requires 0 <= i < |cols| => Filled(cols[i]))
  }

  // ---------------------------------------------------------------- columns and vectors

  lemma FullColumn(x: Column)
    requires AllPresent(x)
    ensures x == Numbers(Filled(x)) && Filled(x) == Present(x)
  {
    PresentOfPresent(x);
  }

  lemma {:induction false} DotWithZeros(u: Vec, v: Vec)
    requires |u| == |v| && forall i :: 0 <= i < |v| ==> v[i] == 0.0
    ensures Dot(u, v) == 0.0
  {
    if u != [] {
      DotWithZeros(u[1..], v[1..]);
    }
  }

  /** Inner products of clean columns, as the program sums them, are those of their vectors. */
  lemma TotalIsDot(x: Column, y: Column)
    requires |x| == |y| && Clean(x) && Clean(y)
    ensures Total(Product(x, y)) == Dot(Filled(x), Filled(y))
  {
    if AllPresent(x) && AllPresent(y) {
      FullColumn(x);
      FullColumn(y);
      TotalProduct(Filled(x), Filled(y));
    } else if AllMissing(y) {
      TotalProductMissing(x, y);
      DotWithZeros(Filled(x), Filled(y));
    } else {
      PresentOfMissing(Product(x, y));
      DotWithZeros(Filled(y), Filled(x));
      DotSymmetric(Filled(x), Filled(y));
    }
  }

  lemma ProjectOutIsOut(u: Vec, v: Column)
    requires |u| == |v| && Clean(v)
    ensures ProjectOut(Numbers(u), v) == Numbers(Out(u, Filled(v)))
  {
    var w := Filled(v);
    TotalIsDot(v, v);
    TotalIsDot(Numbers(u), v);
    assert Filled(Numbers(u)) == u;
    if Live(w) {
      if AllMissing(v) {
        DotWithZeros(w, w);
      }
      FullColumn(v);
      assert LessMultiple(Numbers(u), Coef(u, w), Numbers(w)) == Numbers(AddScaled(u, -Coef(u, w), w));
    }
  }

  lemma {:induction false} ProjectAllIsOutAll(u: Vec, done: seq<Column>)
    requires AllClean(done, |u|)
    ensures ProjectAll(Numbers(u), done) == Numbers(OutAll(u, Vecs(done)))
  {
    if done != [] {
      var init := done[..|done| - 1];
      ProjectAllIsOutAll(u, init);
      assert Vecs(done)[..|done| - 1] == Vecs(init);
      ProjectOutIsOut(OutAll(u, Vecs(init)), done[|done| - 1]);
    }
  }

  // ---------------------------------------------------------------- the residual family

  lemma ExtendFamily(vs: seq<Vec>, n: nat, p: Vec, r: Vec)
    requires OrthogonalFamily(vs, n) && |p| == |r| == n && OrthogonalTo(p, vs)
    requires r == p || forall i :: 0 <= i < n ==> r[i] == 0.0
    ensures OrthogonalFamily(vs + [r], n)
  {
    forall j | 0 <= j < |vs| && Live(vs[j])
      ensures Dot(r, vs[j]) == 0.0
    {
      if r != p {
        DotWithZeros(vs[j], r);
        DotSymmetric(vs[j], r);
      }
    }
  }

  /** One column more: reduced by the residuals so far and then kept or written off, it extends the family. */
  lemma FamilyGrows(col: Column, done: seq<Column>, n: nat, sqrt: real -> real)
    requires |col| == n && AllPresent(col) && AllClean(done, n) && OrthogonalFamily(Vecs(done), n)
    ensures Parallel(done, n)
    ensures var r := Retain(ProjectAll(col, done), sqrt);
      |r| == n && Clean(r) && OrthogonalFamily(Vecs(done + [r]), n)
  {
    var p := OutAll(Filled(col), Vecs(done));
    assert ProjectAll(col, done) == Numbers(p) by {
      FullColumn(col);
      ProjectAllIsOutAll(Filled(col), done);
    }
    var r := Retain(Numbers(p), sqrt);
    OutAllOrthogonal(Filled(col), Vecs(done));
    ExtendFamily(Vecs(done), n, p, Filled(r));
    assert Vecs(done + [r]) == Vecs(done) + [Filled(r)];
  }

  /** Residuals are clean, and as vectors they form an orthogonal family. */
  lemma {:induction false} ResidualFamily(cols: seq<Column>, n: nat, sqrt: real -> real)
    requires FullBlock(cols, n)
    ensures AllClean(Residuals(cols, n, sqrt), n)
    ensures OrthogonalFamily(Vecs(Residuals(cols, n, sqrt)), n)
  {
    if cols != [] {
      var k := |cols| - 1;
      ResidualFamily(cols[..k], n, sqrt);
      FamilyGrows(cols[k], Residuals(cols[..k], n, sqrt), n, sqrt);
    }
  }

  /** Residuals of centred columns are centred. */
  lemma {:induction false} ResidualsCentred(cols: seq<Column>, n: nat, sqrt: real -> real)
    requires FullBlock(cols, n) && forall i :: 0 <= i < |cols| ==> Total(cols[i]) == 0.0
    ensures forall i :: 0 <= i < |cols| ==> Sum(Vecs(Residuals(cols, n, sqrt))[i]) == 0.0
  {
    if cols != [] {
      var k := |cols| - 1;
      ResidualsCentred(cols[..k], n, sqrt);
      var done := Residuals(cols[..k], n, sqrt);
      ResidualFamily(cols[..k], n, sqrt);
      FullColumn(cols[k]);
      ProjectAllIsOutAll(Filled(cols[k]), done);
      var p := OutAll(Filled(cols[k]), Vecs(done));
      SumOutAll(Filled(cols[k]), Vecs(done));
      RetainCentred(p, sqrt);
      assert Vecs(done + [Retain(Numbers(p), sqrt)]) == Vecs(done) + [Filled(Retain(Numbers(p), sqrt))];
    }
  }

  lemma RetainCentred(p: Vec, sqrt: real -> real)
    requires Sum(p) == 0.0
    ensures Sum(Filled(Retain(Numbers(p), sqrt))) == 0.0
  {
    if Retain(Numbers(p), sqrt) == Numbers(p) {
      assert Filled(Numbers(p)) == p;
    } else {
      assert Filled(Missing(|p|)) == Constant(|p|, 0.0);
      SumConstant(|p|, 0.0);
    }
  }

  /** The column left by the inner loop, before columns without spread are written off. */
  ghost function Reduced(cols: seq<Column>, n: nat, sqrt: real -> real, i: nat): (r: Column)
    requires Parallel(cols, n) && i < |cols|
    ensures |r| == n
  {
    ResidualStep(cols, n, sqrt, i);
    ProjectAll(cols[i], Residuals(cols, n, sqrt)[..i])
  }

  lemma ReducedIs(cols: seq<Column>, n: nat, sqrt: real -> real, i: nat)
    requires FullBlock(cols, n) && i < |cols|
    ensures var vs := Vecs(Residuals(cols, n, sqrt)[..i]);
      && OrthogonalFamily(vs, n)
      && Reduced(cols, n, sqrt, i) == Numbers(OutAll(Filled(cols[i]), vs))
      && Residuals(cols, n, sqrt)[i] == Retain(Reduced(cols, n, sqrt, i), sqrt)
  {
    ResidualStep(cols, n, sqrt, i);
    ResidualsPrefix(cols, n, sqrt, i);
    ResidualFamily(cols[..i], n, sqrt);
    FullColumn(cols[i]);
    ProjectAllIsOutAll(Filled(cols[i]), Residuals(cols, n, sqrt)[..i]);
  }

  // ---------------------------------------------------------------- main results

  /** Any two residual columns are exactly orthogonal when the earlier one is not numerically zero. */
  lemma ResidualsOrthogonal(cols: seq<Column>, n: nat, sqrt: real -> real, j: nat, i: nat)
    requires FullBlock(cols, n) && j < i < |cols|
    requires var r := Residuals(cols, n, sqrt); Total(Product(r[j], r[j])) >= Projection.TINY
    ensures var r := Residuals(cols, n, sqrt); Total(Product(r[i], r[j])) == 0.0
  {
    var r := Residuals(cols, n, sqrt);
    ResidualFamily(cols, n, sqrt);
    TotalIsDot(r[j], r[j]);
    TotalIsDot(r[i], r[j]);
    assert Live(Vecs(r)[j]) && Dot(Vecs(r)[i], Vecs(r)[j]) == 0.0;
  }

  /** Each column is its reduced column plus multiples of the earlier residuals that are not numerically zero; the
      multiples are the plain regression coefficients of the original column; and the squared norms add up. */
  lemma ColumnDecomposes(cols: seq<Column>, n: nat, sqrt: real -> real, i: nat)
    requires FullBlock(cols, n) && i < |cols|
    ensures var u, p, vs := Filled(cols[i]), Filled(Reduced(cols, n, sqrt, i)), Vecs(Residuals(cols, n, sqrt)[..i]);
      && Sized(vs, n)
      && u == Mix(p, Coefs(u, vs), vs)
      && Norm2(u) == Norm2(p) + Energy(Coefs(u, vs), vs)
      && Norm2(p) <= Norm2(u)
      && forall k :: 0 <= k < i ==> Coefs(u, vs)[k] == if Live(vs[k]) then Dot(u, vs[k]) / Norm2(vs[k]) else 0.0
  {
    var u, vs := Filled(cols[i]), Vecs(Residuals(cols, n, sqrt)[..i]);
    ReducedIs(cols, n, sqrt, i);
    OutAllDecomposes(u, vs);
    ModifiedIsClassical(u, vs);
    EnergyNonNegative(Coefs(u, vs), vs);
    assert Filled(Numbers(OutAll(u, vs))) == OutAll(u, vs);
  }

  /** The reduced column is the least-squares remainder of the original on the earlier residuals. */
  lemma ReducedIsLeastSquares(cols: seq<Column>, n: nat, sqrt: real -> real, i: nat, q: Vec, coefs: seq<real>)
    requires FullBlock(cols, n) && i < |cols| && |q| == n && |coefs| == i
    requires var vs := Vecs(Residuals(cols, n, sqrt)[..i]);
      && Sized(vs, n)
      && (forall k :: 0 <= k < i && !Live(vs[k]) ==> coefs[k] == 0.0)
      && Filled(cols[i]) == Mix(q, coefs, vs)
    ensures Norm2(Filled(Reduced(cols, n, sqrt, i))) <= Norm2(q)
  {
    var u, vs := Filled(cols[i]), Vecs(Residuals(cols, n, sqrt)[..i]);
    ReducedIs(cols, n, sqrt, i);
    ResidualIsLeast(u, vs, q, coefs);
    assert Filled(Numbers(OutAll(u, vs))) == OutAll(u, vs);
  }

  /** Dropping an entry before the last one leaves the last one last. */
  lemma DropBeforeLast(done: seq<Column>, k: nat)
    requires k < |done| - 1
    ensures var last, rest := |done| - 1, done[..k] + done[k + 1..];
      done[..last][..k] + done[..last][k + 1..] == rest[..|rest| - 1] && rest[|rest| - 1] == done[last]
  {
  }

  /** A column that was written off leaves no trace in any later one: deleting it changes nothing. */
  lemma {:induction false} DroppedColumnHarmless(u: Column, done: seq<Column>, k: nat)
    requires Parallel(done, |u|) && k < |done| && AllMissing(done[k])
    ensures Parallel(done[..k] + done[k + 1..], |u|)
    ensures ProjectAll(u, done) == ProjectAll(u, done[..k] + done[k + 1..])
  {
    var last := |done| - 1;
    var rest := done[..k] + done[k + 1..];
    if k == last {
      TotalProductMissing(done[k], done[k]);
      assert rest == done[..last];
    } else {
      DroppedColumnHarmless(u, done[..last], k);
      DropBeforeLast(done, k);
    }
  }

  /** A residual is either the reduced column, every row present, or missing in every row; it is missing exactly
      when the reduced column has no spread. Missing columns do not spread. */
  lemma ResidualShape(cols: seq<Column>, n: nat, sqrt: real -> real, i: nat)
    requires FullBlock(cols, n) && i < |cols| && n > 0
    ensures var r, p := Residuals(cols, n, sqrt)[i], Reduced(cols, n, sqrt, i);
      && AllPresent(p)
      && r == (if sqrt(Variance(Filled(p), 0)) < Projection.TINY then Missing(n) else p)
      && (i == 0 ==> p == cols[0])
  {
    ReducedIs(cols, n, sqrt, i);
    FullColumn(Reduced(cols, n, sqrt, i));
  }

  // ---------------------------------------------------------------- the normalised columns

  /** A normalised column is missing altogether, or present where its residual is, with mean 0 and sample variance 1. */
  lemma NormalisedIsUnit(x: Column, original: real, ratio: real, sqrt: real -> real)
    requires IsRoot(sqrt)
    ensures var y := NormalisedColumn(x, original, ratio, sqrt);
      || y == Missing(|x|)
      || (&& (forall i :: 0 <= i < |x| ==> (y[i].Num? <==> x[i].Num?))
          && |Present(y)| >= 2 && Sum(Present(y)) == 0.0 && Variance(Present(y), 1) == 1.0)
  {
    var u, y := Present(x), NormalisedColumn(x, original, ratio, sqrt);
    if y != Missing(|x|) {
      VarianceNonNegative(u, 1);
      PresentScores(x, Mean(u), sqrt(Variance(u, 1)));
      StandardScore(u, sqrt(Variance(u, 1)));
    }
  }

  /** The combined step is plain re-standardisation, except that an absorbed strategy is written off. */
  lemma NormalisedIs(x: Column, original: real, ratio: real, sqrt: real -> real)
    ensures NormalisedColumn(x, original, ratio, sqrt) ==
      if Absorbed(x, original, ratio, sqrt) then Missing(|x|) else Renormalised(x, sqrt)
  {
  }
}
