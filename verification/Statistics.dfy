/** Mean, variance and standard score of a vector of numbers. */
module Statistics {
  import opened Vectors

  function Mean(u: Vec): real
    requires |u| > 0
  {
    Sum(u) / |u| as real
  }

  /** Sum of squared deviations from the mean. */
  function Deviation(u: Vec): real
    requires |u| > 0
  {
    Norm2(Standardise(u, Mean(u), 1.0))
  }

  /** Variance with the given delta degrees of freedom (0: population, 1: sample). */
  function Variance(u: Vec, ddof: nat): real
    requires |u| > ddof
  {
    Deviation(u) / (|u| - ddof) as real
  }

  lemma MeanTimesCount(u: Vec)
    requires |u| > 0
    ensures Times(|u| as real, Mean(u)) == Sum(u)
  {
  }

  lemma DeviationIs(u: Vec)
    requires |u| > 0
    ensures Deviation(u) == Norm2(u) - Times(Mean(u), Sum(u))
    ensures Deviation(u) >= 0.0
  {
    var m := Mean(u);
    var d := Standardise(u, m, 1.0);
    Norm2NonNegative(d);
    assert Sum(d) == 0.0 by {
      SumStandardise(u, m, 1.0);
      MeanTimesCount(u);
    }
    assert Dot(d, d) == Dot(u, d) by { DotStandardise(u, m, 1.0, d); }
    assert Dot(d, u) == Dot(u, u) - Times(m, Sum(u)) by { DotStandardise(u, m, 1.0, u); }
    DotSymmetric(u, d);
  }

  lemma VarianceNonNegative(u: Vec, ddof: nat)
    requires |u| > ddof
    ensures Variance(u, ddof) >= 0.0
  {
    DeviationIs(u);
  }

  /** A vector of zero sum has zero mean, and its deviation is its squared norm. */
  lemma Centred(u: Vec)
    requires |u| > 0 && Sum(u) == 0.0
    ensures Mean(u) == 0.0 && Deviation(u) == Norm2(u)
  {
    DeviationIs(u);
  }

  /** Dividing by the sample standard deviation after subtracting the mean gives sum 0 and squared norm n - 1. */
  lemma StandardScore(u: Vec, s: real)
    requires |u| >= 2 && s > 0.0 && s * s == Variance(u, 1)
    ensures Sum(Standardise(u, Mean(u), s)) == 0.0
    ensures Norm2(Standardise(u, Mean(u), s)) == (|u| - 1) as real
    ensures Variance(Standardise(u, Mean(u), s), 1) == 1.0
  {
    var z := Standardise(u, Mean(u), s);
    StandardSum(u, s);
    StandardNorm(u, s);
    UnitVariance(z);
  }

  lemma UnitVariance(z: Vec)
    requires |z| >= 2 && Sum(z) == 0.0 && Norm2(z) == (|z| - 1) as real
    ensures Variance(z, 1) == 1.0
  {
    Centred(z);
    var k := (|z| - 1) as real;
    assert k / k == 1.0;
  }

  lemma StandardNorm(u: Vec, s: real)
    requires |u| >= 2 && s > 0.0 && s * s == Variance(u, 1)
    ensures Norm2(Standardise(u, Mean(u), s)) == (|u| - 1) as real
  {
    var m, z := Mean(u), Standardise(u, Mean(u), s);
    var k := (|u| - 1) as real;
    assert Times(Dot(z, z), s) == Dot(u, z) by {
      StandardSum(u, s);
      DotStandardise(u, m, s, z);
    }
    assert Times(Dot(u, z), s) == Deviation(u) by {
      DotStandardise(u, m, s, u);
      DeviationIs(u);
      DotSymmetric(u, z);
    }
    assert Times(Times(s, s), k) == Deviation(u);
    Quotient(Dot(z, z), Dot(u, z), Deviation(u), s, k);
  }

  lemma StandardSum(u: Vec, s: real)
    requires |u| > 0 && s != 0.0
    ensures Sum(Standardise(u, Mean(u), s)) == 0.0
  {
    SumStandardise(u, Mean(u), s);
    MeanTimesCount(u);
    Cancel(Sum(Standardise(u, Mean(u), s)), 0.0, s);
  }

  lemma Quotient(zz: real, uz: real, d: real, s: real, k: real)
    requires s > 0.0 && Times(zz, s) == uz && Times(uz, s) == d && Times(Times(s, s), k) == d
    ensures zz == k
  {
    Associate(zz, s, s);
    Associate(Times(s, s), k, 1.0);
    Positive(s, s);
    Cancel(zz, k, Times(s, s));
  }

  /** The inner product of two standard scores, in terms of their sources. */
  lemma StandardScoreDot(u: Vec, s: real, v: Vec, t: real)
    requires |u| == |v| > 0 && s > 0.0 && t > 0.0
    ensures Times(Times(Dot(Standardise(u, Mean(u), s), Standardise(v, Mean(v), t)), s), t)
         == Dot(u, v) - Times(|u| as real, Times(Mean(u), Mean(v)))
  {
    var z, y := Standardise(u, Mean(u), s), Standardise(v, Mean(v), t);
    assert Times(Dot(z, y), s) == Dot(u, y) by {
      StandardSum(v, t);
      DotStandardise(u, Mean(u), s, y);
    }
    assert Times(Dot(u, y), t) == Dot(u, v) - Times(Mean(v), Sum(u)) by {
      DotStandardise(v, Mean(v), t, u);
      DotSymmetric(u, y);
      DotSymmetric(v, u);
    }
    assert Times(Mean(v), Sum(u)) == Times(|u| as real, Times(Mean(u), Mean(v))) by {
      MeanTimesCount(u);
      Associate(|u| as real, Mean(u), Mean(v));
      Associate(Sum(u), Mean(v), 1.0);
    }
  }
}
