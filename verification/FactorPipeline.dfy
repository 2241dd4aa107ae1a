/** Winsorising at interpolated percentiles and standardising one factor column (neutralisation switched off). */
module FactorPipeline {
  import opened Vectors
  import opened Statistics
  import opened Series
  import opened Sorting

  /** The two cut-off percentiles, as shares of one. */
  datatype Config = Config(lower: real, upper: real) {
    predicate Valid() { 0.0 <= lower <= 1.0 && 0.0 <= upper <= 1.0 }
  }

  predicate AtMost(a: real, b: real) { a <= b }

  function Between(a: real, b: real, g: real): real { a + Times(g, b - a) }

  /** The p-th percentile of an ascending vector, interpolated linearly between neighbours. */
  function PercentileOfSorted(s: Vec, p: real): real
    requires |s| > 0 && 0.0 <= p <= 1.0
  {
    var h := Times(p, (|s| - 1) as real);
    PositionInRange(p, |s|);
    var k := h.Floor;
    if k + 1 < |s| then Between(s[k], s[k + 1], h - k as real) else s[|s| - 1]
  }

  lemma PositionInRange(p: real, n: nat)
    requires n > 0 && 0.0 <= p <= 1.0
    ensures 0 <= Times(p, (n - 1) as real).Floor < n
  {
    assert 0.0 <= p * (n - 1) as real <= (n - 1) as real;
  }

  /** np.nanpercentile */
  function Percentile(x: Column, p: real): real
    requires Present(x) != [] && 0.0 <= p <= 1.0
  {
    PercentileOfSorted(Sort(Present(x), AtMost), p)
  }

  /** clip between two bounds, whichever of them is the lower one. */
  function Clamp(x: real, a: real, b: real): real {
    var lo, hi := if a <= b then a else b, if a <= b then b else a;
    if x < lo then lo else if x > hi then hi else x
  }

  function ClampCell(x: Cell, a: real, b: real): Cell {
    if x.Num? then Num(Clamp(x.v, a, b)) else NaN
  }

  function Clipped(x: Column, a: real, b: real): (r: Column)
    ensures |r| == |x| && forall i :: 0 <= i < |x| ==> r[i] == ClampCell(x[i], a, b)
  {
    seq(|x|, i requires 0 <= i < |x| => ClampCell(x[i], a, b))
  }

  function Winsorize(x: Column, cfg: Config): (r: Column)
    requires cfg.Valid()
    ensures |r| == |x|
  {
    if Present(x) == [] then x else Clipped(x, Percentile(x, cfg.lower), Percentile(x, cfg.upper))
  }

  function Zeroes(n: nat): (r: Column)
    ensures |r| == n && forall i :: 0 <= i < n ==> r[i] == Num(0.0)
  {
    seq(n, _ => Num(0.0))
  }

  function Zscore(x: Column, sqrt: real -> real): (r: Column)
    ensures |r| == |x|
  {
    var sd := Std(x, 1, sqrt);
    if Present(x) == [] then Zeroes(|x|)
    else if sd.NaN? || sd.v == 0.0 then Zeroes(|x|)
    else Scores(x, Mean(Present(x)), sd.v)
  }

  /** Winsorise, leave unneutralised, standardise. */
  function RunSteps(x: Column, cfg: Config, sqrt: real -> real): (r: Column)
    requires cfg.Valid()
    ensures |r| == |x|
  {
    Zscore(Winsorize(x, cfg), sqrt)
  }

  // ---------------------------------------------------------------- affine change of scale

  function Affine(x: real, a: real, b: real): real { Times(a, x) + b }

  function AffineVec(u: Vec, a: real, b: real): (r: Vec)
    ensures |r| == |u| && forall i :: 0 <= i < |u| ==> r[i] == Affine(u[i], a, b)
  {
    seq(|u|, i requires 0 <= i < |u| => Affine(u[i], a, b))
  }

  function AffineCell(x: Cell, a: real, b: real): Cell {
    if x.Num? then Num(Affine(x.v, a, b)) else NaN
  }

  /** The factor measured on another scale: a * x + b. */
  function AffineColumn(x: Column, a: real, b: real): (r: Column)
    ensures |r| == |x| && forall i :: 0 <= i < |x| ==> r[i] == AffineCell(x[i], a, b)
  {
    seq(|x|, i requires 0 <= i < |x| => AffineCell(x[i], a, b))
  }

  lemma AffineOrder(x: real, y: real, a: real, b: real)
    requires a > 0.0
    ensures Affine(x, a, b) <= Affine(y, a, b) <==> x <= y
  {
    TimesMonotone(x, y, a);
    Associate(a, x, 1.0);
    Associate(a, y, 1.0);
  }

  lemma AffineVecCons(x: real, u: Vec, a: real, b: real)
    ensures AffineVec([x] + u, a, b) == [Affine(x, a, b)] + AffineVec(u, a, b)
  {
  }

  lemma AffineColumnTail(x: Column, a: real, b: real)
    requires x != []
    ensures AffineColumn(x, a, b)[0] == AffineCell(x[0], a, b)
    ensures AffineColumn(x, a, b)[1..] == AffineColumn(x[1..], a, b)
  {
  }

  lemma {:induction false} PresentAffine(x: Column, a: real, b: real)
    ensures Present(AffineColumn(x, a, b)) == AffineVec(Present(x), a, b)
  {
    if x != [] {
      PresentAffine(x[1..], a, b);
      AffineColumnTail(x, a, b);
      if x[0].Num? {
        AffineVecCons(x[0].v, Present(x[1..]), a, b);
      }
    }
  }

  lemma {:induction false} InsertAffine(x: real, s: Vec, a: real, b: real)
    requires a > 0.0
    ensures Insert(Affine(x, a, b), AffineVec(s, a, b), AtMost) == AffineVec(Insert(x, s, AtMost), a, b)
  {
    if s != [] {
      AffineOrder(x, s[0], a, b);
      InsertAffine(x, s[1..], a, b);
      assert AffineVec(s, a, b)[1..] == AffineVec(s[1..], a, b);
    }
  }

  lemma {:induction false} SortAffine(s: Vec, a: real, b: real)
    requires a > 0.0
    ensures Sort(AffineVec(s, a, b), AtMost) == AffineVec(Sort(s, AtMost), a, b)
  {
    if s != [] {
      SortAffine(s[1..], a, b);
      InsertAffine(s[0], Sort(s[1..], AtMost), a, b);
      assert AffineVec(s, a, b)[1..] == AffineVec(s[1..], a, b);
    }
  }

  lemma BetweenAffine(x: real, y: real, g: real, a: real, b: real)
    ensures Between(Affine(x, a, b), Affine(y, a, b), g) == Affine(Between(x, y, g), a, b)
  {
    assert g * (a * y + b - (a * x + b)) == a * (g * (y - x));
    Distribute(a, x, Times(g, y - x));
  }

  /** Interpolated percentiles commute with the change of scale. */
  lemma PercentileAffine(x: Column, p: real, a: real, b: real)
    requires a > 0.0 && Present(x) != [] && 0.0 <= p <= 1.0
    ensures Present(AffineColumn(x, a, b)) != []
    ensures Percentile(AffineColumn(x, a, b), p) == Affine(Percentile(x, p), a, b)
  {
    PresentAffine(x, a, b);
    SortAffine(Present(x), a, b);
    var s := Sort(Present(x), AtMost);
    var h := Times(p, (|s| - 1) as real);
    PositionInRange(p, |s|);
    var k := h.Floor;
    if k + 1 < |s| {
      BetweenAffine(s[k], s[k + 1], h - k as real, a, b);
    }
  }

  lemma ClampAffine(x: real, lo: real, hi: real, a: real, b: real)
    requires a > 0.0
    ensures Clamp(Affine(x, a, b), Affine(lo, a, b), Affine(hi, a, b)) == Affine(Clamp(x, lo, hi), a, b)
  {
    AffineOrder(lo, hi, a, b);
    AffineOrder(hi, lo, a, b);
    AffineOrder(x, lo, a, b);
    AffineOrder(lo, x, a, b);
    AffineOrder(x, hi, a, b);
    AffineOrder(hi, x, a, b);
  }

  lemma WinsorizeAffine(x: Column, cfg: Config, a: real, b: real)
    requires cfg.Valid() && a > 0.0
    ensures Winsorize(AffineColumn(x, a, b), cfg) == AffineColumn(Winsorize(x, cfg), a, b)
  {
    PresentAffine(x, a, b);
    if Present(x) != [] {
      PercentileAffine(x, cfg.lower, a, b);
      PercentileAffine(x, cfg.upper, a, b);
      forall i | 0 <= i < |x|
        ensures Winsorize(AffineColumn(x, a, b), cfg)[i] == AffineColumn(Winsorize(x, cfg), a, b)[i]
      {
        if x[i].Num? {
          ClampAffine(x[i].v, Percentile(x, cfg.lower), Percentile(x, cfg.upper), a, b);
        }
      }
    }
  }

  lemma {:induction false} SumAffine(u: Vec, a: real, b: real)
    ensures Sum(AffineVec(u, a, b)) == Times(a, Sum(u)) + Times(|u| as real, b)
  {
    if u != [] {
      SumAffine(u[1..], a, b);
      assert AffineVec(u, a, b)[1..] == AffineVec(u[1..], a, b);
      Distribute(a, u[0], Sum(u[1..]));
      Distribute(b, |u[1..]| as real, 1.0);
    }
  }

  lemma MeanAffine(u: Vec, a: real, b: real)
    requires |u| > 0
    ensures Mean(AffineVec(u, a, b)) == Affine(Mean(u), a, b)
  {
    SumAffine(u, a, b);
    var n := |u| as real;
    MeanTimesCount(u);
    MeanTimesCount(AffineVec(u, a, b));
    assert Times(Affine(Mean(u), a, b), n) == Times(a, Sum(u)) + Times(n, b) by {
      Distribute(n, Times(a, Mean(u)), b);
      Associate(a, Mean(u), n);
      Associate(Mean(u), n, 1.0);
      Associate(b, n, 1.0);
    }
    Associate(n, Mean(AffineVec(u, a, b)), 1.0);
    Cancel(Mean(AffineVec(u, a, b)), Affine(Mean(u), a, b), n);
  }

  function ScaledVec(u: Vec, a: real): (r: Vec)
    ensures |r| == |u| && forall i :: 0 <= i < |u| ==> r[i] == Times(a, u[i])
  {
    seq(|u|, i requires 0 <= i < |u| => Times(a, u[i]))
  }

  lemma {:induction false} Norm2Scaled(u: Vec, a: real)
    ensures Norm2(ScaledVec(u, a)) == Times(Times(a, a), Norm2(u))
  {
    if u != [] {
      Norm2Scaled(u[1..], a);
      assert ScaledVec(u, a)[1..] == ScaledVec(u[1..], a);
      assert (a * u[0]) * (a * u[0]) == a * a * (u[0] * u[0]);
      Distribute(Times(a, a), Times(u[0], u[0]), Norm2(u[1..]));
    }
  }

  lemma DeviationAffine(u: Vec, a: real, b: real)
    requires |u| > 0
    ensures Deviation(AffineVec(u, a, b)) == Times(Times(a, a), Deviation(u))
  {
    MeanAffine(u, a, b);
    var v, m := AffineVec(u, a, b), Mean(u);
    forall i | 0 <= i < |u|
      ensures Standardise(v, Mean(v), 1.0)[i] == ScaledVec(Standardise(u, m, 1.0), a)[i]
    {
      assert a * u[i] + b - (a * m + b) == a * (u[i] - m);
    }
    assert Standardise(v, Mean(v), 1.0) == ScaledVec(Standardise(u, m, 1.0), a);
    Norm2Scaled(Standardise(u, m, 1.0), a);
  }

  lemma RootAffine(u: Vec, a: real, b: real, sqrt: real -> real)
    requires |u| >= 2 && a > 0.0 && IsRoot(sqrt)
    ensures sqrt(Variance(AffineVec(u, a, b), 1)) == Times(a, sqrt(Variance(u, 1)))
  {
    DeviationAffine(u, a, b);
    VarianceNonNegative(u, 1);
    VarianceNonNegative(AffineVec(u, a, b), 1);
    RootScaled(Variance(u, 1), Variance(AffineVec(u, a, b), 1), a, sqrt) by {
      ScaledQuotient(Deviation(u), Deviation(AffineVec(u, a, b)), a, (|u| - 1) as real);
    }
  }

  lemma ScaledQuotient(d: real, e: real, a: real, k: real)
    requires k > 0.0 && e == Times(Times(a, a), d)
    ensures e / k == Times(Times(a, a), d / k)
  {
    assert (a * a) * d / k == (a * a) * (d / k);
  }

  lemma RootScaled(x: real, y: real, a: real, sqrt: real -> real)
    requires IsRoot(sqrt) && a > 0.0 && x >= 0.0 && y >= 0.0 && y == Times(Times(a, a), x)
    ensures sqrt(y) == Times(a, sqrt(x))
  {
    var r := sqrt(x);
    assert r * r == x && r >= 0.0 && a * r >= 0.0;
    assert (a * r) * (a * r) == (a * a) * (r * r);
    RootUnique(sqrt(y), a * r);
  }

  lemma ScoreAffine(x: real, m: real, s: real, a: real, b: real)
    requires a > 0.0 && s != 0.0 && Times(a, s) != 0.0
    ensures ZCell(Affine(x, a, b), Affine(m, a, b), Times(a, s)) == ZCell(x, m, s)
  {
    ZCellTimes(x, m, s);
    var z := ZCell(x, m, s);
    assert z * (a * s) == a * (z * s);
    assert a * x + b - (a * m + b) == a * (x - m);
    ZCellTimes(Affine(x, a, b), Affine(m, a, b), Times(a, s));
    Cancel(ZCell(Affine(x, a, b), Affine(m, a, b), Times(a, s)), z, Times(a, s));
  }

  lemma ZscoreAffine(x: Column, a: real, b: real, sqrt: real -> real)
    requires a > 0.0 && IsRoot(sqrt)
    ensures Zscore(AffineColumn(x, a, b), sqrt) == Zscore(x, sqrt)
  {
    PresentAffine(x, a, b);
    var u := Present(x);
    if |u| >= 2 {
      RootAffine(u, a, b, sqrt);
      MeanAffine(u, a, b);
      var s := sqrt(Variance(u, 1));
      ZeroScale(a, s);
      if s != 0.0 {
        forall i | 0 <= i < |x|
          ensures Zscore(AffineColumn(x, a, b), sqrt)[i] == Zscore(x, sqrt)[i]
        {
          if x[i].Num? {
            ScoreAffine(x[i].v, Mean(u), s, a, b);
          }
        }
      }
    }
  }

  lemma ZeroScale(a: real, s: real)
    requires a > 0.0
    ensures Times(a, s) == 0.0 <==> s == 0.0
  {
    if s != 0.0 && Times(a, s) == 0.0 {
      Associate(a, s, 1.0);
      Cancel(s, 0.0, a);
    }
  }

  // ---------------------------------------------------------------- main results

  /** The processed factor does not depend on the scale the raw factor is measured on. */
  lemma ScaleInvariant(x: Column, cfg: Config, a: real, b: real, sqrt: real -> real)
    requires cfg.Valid() && a > 0.0 && IsRoot(sqrt)
    ensures RunSteps(AffineColumn(x, a, b), cfg, sqrt) == RunSteps(x, cfg, sqrt)
  {
    WinsorizeAffine(x, cfg, a, b);
    ZscoreAffine(Winsorize(x, cfg), a, b, sqrt);
  }

  /** No spread is left to standardise. */
  ghost predicate Degenerate(x: Column) {
    |Present(x)| < 2 || Variance(Present(x), 1) == 0.0
  }

  /** The root of a number that is not negative is zero exactly for zero. */
  lemma RootSign(v: real, sqrt: real -> real)
    requires IsRoot(sqrt) && v >= 0.0
    ensures sqrt(v) >= 0.0 && sqrt(v) * sqrt(v) == v && (sqrt(v) == 0.0 <==> v == 0.0)
  {
    assert sqrt(v) >= 0.0 && sqrt(v) * sqrt(v) == v;
    if v == 0.0 {
      RootUnique(sqrt(v), 0.0);
    }
  }

  lemma ScoresAreUnit(x: Column, s: real)
    requires |Present(x)| >= 2 && s > 0.0 && s * s == Variance(Present(x), 1)
    ensures var z := Scores(x, Mean(Present(x)), s);
      && |Present(z)| == |Present(x)| && Sum(Present(z)) == 0.0 && Variance(Present(z), 1) == 1.0
  {
    PresentScores(x, Mean(Present(x)), s);
    StandardScore(Present(x), s);
  }

  lemma ZscoreSpread(x: Column, sqrt: real -> real)
    requires IsRoot(sqrt) && !Degenerate(x)
    ensures var s := sqrt(Variance(Present(x), 1)); s > 0.0 && s * s == Variance(Present(x), 1)
    ensures Zscore(x, sqrt) == Scores(x, Mean(Present(x)), sqrt(Variance(Present(x), 1)))
  {
    VarianceNonNegative(Present(x), 1);
    RootSign(Variance(Present(x), 1), sqrt);
  }

  /** The output is all zeros, in missing rows too, exactly when the winsorised factor has no spread; otherwise it is
      missing exactly where the input is, with mean 0 and sample variance 1. */
  lemma ZscoreIs(x: Column, sqrt: real -> real)
    requires IsRoot(sqrt)
    ensures Degenerate(x) ==> Zscore(x, sqrt) == Zeroes(|x|)
    ensures !Degenerate(x) ==>
      && (forall i :: 0 <= i < |x| ==> (Zscore(x, sqrt)[i].Num? <==> x[i].Num?))
      && |Present(Zscore(x, sqrt))| == |Present(x)|
      && Sum(Present(Zscore(x, sqrt))) == 0.0 && Variance(Present(Zscore(x, sqrt)), 1) == 1.0
  {
    if !Degenerate(x) {
      ZscoreSpread(x, sqrt);
      ScoresAreUnit(x, sqrt(Variance(Present(x), 1)));
    } else if |Present(x)| >= 2 {
      RootSign(0.0, sqrt);
    }
  }

  /** Missing values stay missing exactly when none is missing or the factor has spread. */
  lemma MissingStaysMissingIff(x: Column, sqrt: real -> real)
    requires IsRoot(sqrt)
    ensures (forall i :: 0 <= i < |x| && x[i].NaN? ==> Zscore(x, sqrt)[i].NaN?) <==> AllPresent(x) || !Degenerate(x)
  {
    ZscoreIs(x, sqrt);
    if Degenerate(x) && !AllPresent(x) {
      var i :| 0 <= i < |x| && x[i].NaN?;
      assert Zscore(x, sqrt)[i] == Num(0.0);
    }
  }

  /** One value and one missing: both come out as zero. */
  lemma MissingBecomesZero(sqrt: real -> real)
    requires IsRoot(sqrt)
    ensures Zscore([Num(1.0), NaN], sqrt) == [Num(0.0), Num(0.0)]
  {
    var x := [Num(1.0), NaN];
    assert x[1..] == [NaN] && [NaN][1..] == [];
    assert Present([NaN]) == [];
    ZscoreIs(x, sqrt);
  }

  /** A larger raw value never gets a smaller score. */
  lemma OrderPreserved(x: Column, cfg: Config, sqrt: real -> real, i: nat, j: nat)
    requires cfg.Valid() && IsRoot(sqrt) && i < |x| && j < |x| && x[i].Num? && x[j].Num? && x[i].v <= x[j].v
    ensures var z := RunSteps(x, cfg, sqrt); z[i].Num? && z[j].Num? && z[i].v <= z[j].v
  {
    var w := Winsorize(x, cfg);
    PresentHas(x, i);
    assert w[i].Num? && w[j].Num? && w[i].v <= w[j].v;
    var u := Present(w);
    if |u| >= 2 {
      VarianceNonNegative(u, 1);
      var s := sqrt(Variance(u, 1));
      if s != 0.0 {
        ZCellTimes(w[i].v, Mean(u), s);
        ZCellTimes(w[j].v, Mean(u), s);
        TimesMonotone(ZCell(w[i].v, Mean(u), s), ZCell(w[j].v, Mean(u), s), s);
        PresentHas(w, i);
      }
    }
  }

  lemma {:induction false} PresentHas(x: Column, i: nat)
    requires i < |x| && x[i].Num?
    ensures Present(x) != []
  {
    if i > 0 {
      PresentHas(x[1..], i - 1);
    }
  }

  lemma BetweenRange(a: real, b: real, g: real, h: real)
    requires a <= b && 0.0 <= g <= h <= 1.0
    ensures a <= Between(a, b, g) <= Between(a, b, h) <= b
  {
    var w := b - a;
    assert 0.0 <= g * w;
    assert 0.0 <= (h - g) * w;
    assert 0.0 <= (1.0 - h) * w;
  }

  /** Percentiles grow with p, so the lower cut-off never exceeds the upper one. */
  lemma PercentileMonotone(s: Vec, p: real, q: real)
    requires |s| > 0 && Sorted(s, AtMost) && 0.0 <= p <= q <= 1.0
    ensures PercentileOfSorted(s, p) <= PercentileOfSorted(s, q)
  {
    var n := |s|;
    var h, l := Times(p, (n - 1) as real), Times(q, (n - 1) as real);
    PositionInRange(p, n);
    PositionInRange(q, n);
    assert h <= l by {
      if n > 1 {
        TimesMonotone(p, q, (n - 1) as real);
      }
    }
    var i, j := h.Floor, l.Floor;
    if i + 1 < n {
      assert AtMost(s[i], s[i + 1]);
      if i == j {
        BetweenRange(s[i], s[i + 1], h - i as real, l - j as real);
      } else {
        BetweenRange(s[i], s[i + 1], h - i as real, h - i as real);
        assert i + 1 == j || AtMost(s[i + 1], s[j]);
        if j + 1 < n {
          assert AtMost(s[j], s[j + 1]);
          BetweenRange(s[j], s[j + 1], l - j as real, l - j as real);
        }
      }
    }
  }

  /** Between the k-th and the next value, both ends included, the percentile moves linearly from one to the other:
      position k of n - 1 is exactly the k-th value, and there are no jumps. */
  lemma PercentileInterpolates(s: Vec, p: real, k: nat)
    requires k + 1 < |s| && 0.0 <= p <= 1.0
    requires k as real <= Times(p, (|s| - 1) as real) <= (k + 1) as real
    ensures PercentileOfSorted(s, p) == Between(s[k], s[k + 1], Times(p, (|s| - 1) as real) - k as real)
  {
    PositionInRange(p, |s|);
    var h := Times(p, (|s| - 1) as real);
    assert h.Floor == k || (h.Floor == k + 1 && h == (k + 1) as real);
    if h.Floor == k + 1 {
      assert Between(s[k], s[k + 1], 1.0) == s[k + 1];
      if k + 2 < |s| {
        assert Between(s[k + 1], s[k + 2], 0.0) == s[k + 1];
      }
    }
  }

  /** Winsorising pulls values into the interval between the two percentiles and changes no other value. */
  lemma WinsorizeWithin(x: Column, cfg: Config, i: nat)
    requires cfg.Valid() && cfg.lower <= cfg.upper && i < |x| && x[i].Num?
    ensures Present(x) != [] && Winsorize(x, cfg)[i].Num?
    ensures var lo, hi, v := Percentile(x, cfg.lower), Percentile(x, cfg.upper), Winsorize(x, cfg)[i].v;
      lo <= v <= hi && (lo <= x[i].v <= hi ==> v == x[i].v)
  {
    PresentHas(x, i);
    AtMostIsOrder();
    SortSorted(Present(x), AtMost);
    PercentileMonotone(Sort(Present(x), AtMost), cfg.lower, cfg.upper);
  }

  lemma AtMostIsOrder()
    ensures TotalPreorder(AtMost)
  {
  }

  /** The present values in ascending order. */
  ghost predicate Arranged(x: Column, s: Vec) {
    multiset(s) == multiset(Present(x)) && forall i, j :: 0 <= i < j < |s| ==> s[i] <= s[j]
  }

  lemma SortArranges(x: Column)
    ensures Arranged(x, Sort(Present(x), AtMost)) && |Sort(Present(x), AtMost)| == |Present(x)|
  {
    var s := Sort(Present(x), AtMost);
    SortMembers(Present(x), AtMost);
    AtMostIsOrder();
    SortSorted(Present(x), AtMost);
    assert |s| == |multiset(s)| == |multiset(Present(x))| == |Present(x)|;
    forall i, j | 0 <= i < j < |s|
      ensures s[i] <= s[j]
    {
      assert AtMost(s[i], s[j]);
    }
  }

  /** The percentile of a column: with its present values in ascending order, position p of n - 1 on the line through
      them. */
  lemma PercentileIs(x: Column, p: real, k: nat)
    requires 0.0 <= p <= 1.0 && k + 1 < |Present(x)|
    requires k as real <= Times(p, (|Present(x)| - 1) as real) <= (k + 1) as real
    ensures var s, at := Sort(Present(x), AtMost), Times(p, (|Present(x)| - 1) as real) - k as real;
      Arranged(x, s) && k + 1 < |s| && Percentile(x, p) == s[k] + Times(at, s[k + 1] - s[k])
  {
    SortArranges(x);
    PercentileInterpolates(Sort(Present(x), AtMost), p, k);
  }

  /** Of a single value every percentile is the value. */
  lemma PercentileOfOne(x: Column, p: real)
    requires 0.0 <= p <= 1.0 && |Present(x)| == 1
    ensures Percentile(x, p) == Present(x)[0]
  {
    assert Present(x) == [Present(x)[0]];
    PositionInRange(p, 1);
  }

  /** Winsorising replaces what lies below both percentiles by the lower one, and what lies above both by the higher
      one, whichever of the two levels is which. */
  lemma WinsorizeIs(x: Column, cfg: Config, i: nat)
    requires cfg.Valid() && i < |x|
    ensures x[i] == NaN ==> Winsorize(x, cfg)[i] == NaN
    ensures x[i].Num? ==> Present(x) != []
    ensures x[i].Num? ==>
      (var p, q, v := Percentile(x, cfg.lower), Percentile(x, cfg.upper), x[i].v;
       && (v <= p && v <= q ==> Winsorize(x, cfg)[i] == Num(if p <= q then p else q))
       && (v >= p && v >= q ==> Winsorize(x, cfg)[i] == Num(if p <= q then q else p))
       && (p <= v <= q || q <= v <= p ==> Winsorize(x, cfg)[i] == x[i]))
  {
    if x[i].Num? {
      PresentHas(x, i);
    }
  }

  lemma SameCellSameScore(y: Column, sqrt: real -> real, i: nat, j: nat)
    requires i < |y| && j < |y| && y[i] == y[j]
    ensures Zscore(y, sqrt)[i] == Zscore(y, sqrt)[j]
  {
  }

  /** The steps work on the winsorised values: what lies at or beyond both cut-offs on one side gets one score, however
      far out it is. */
  lemma OutliersShareScore(x: Column, cfg: Config, sqrt: real -> real, i: nat, j: nat)
    requires cfg.Valid() && i < |x| && j < |x| && x[i].Num? && x[j].Num? && Present(x) != []
    requires var p, q := Percentile(x, cfg.lower), Percentile(x, cfg.upper);
      || (x[i].v >= p && x[i].v >= q && x[j].v >= p && x[j].v >= q)
      || (x[i].v <= p && x[i].v <= q && x[j].v <= p && x[j].v <= q)
    ensures RunSteps(x, cfg, sqrt)[i] == RunSteps(x, cfg, sqrt)[j]
  {
    WinsorizeIs(x, cfg, i);
    WinsorizeIs(x, cfg, j);
    SameCellSameScore(Winsorize(x, cfg), sqrt, i, j);
  }

  /** A present value's score is its winsorised value, less the mean of the winsorised values, over their deviation;
      with no spread left it is zero. */
  lemma ScoreIs(x: Column, cfg: Config, sqrt: real -> real, i: nat)
    requires cfg.Valid() && IsRoot(sqrt) && i < |x| && x[i].Num?
    ensures var u := Present(Winsorize(x, cfg));
      && Winsorize(x, cfg)[i].Num? && u != []
      && RunSteps(x, cfg, sqrt)[i] ==
         if |u| < 2 || Variance(u, 1) == 0.0 then Num(0.0)
         else
           var sd := sqrt(Variance(u, 1));
           if sd == 0.0 then Num(0.0) else Num(ZCell(Winsorize(x, cfg)[i].v, Mean(u), sd))
  {
    var y := Winsorize(x, cfg);
    PresentHas(x, i);
    PresentHas(y, i);
    ZscoreIs(y, sqrt);
    if !Degenerate(y) {
      ZscoreSpread(y, sqrt);
    }
  }
}
