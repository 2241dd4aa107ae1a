/** The algebra of projecting a vector off a list of earlier residuals, one after the other. */
module Projection {
  import opened Vectors

  /** Squared norms and deviations below this count as zero. */
  const TINY: real := 0.000000000001

  ghost predicate Sized(vs: seq<Vec>, n: nat) {
    forall i :: 0 <= i < |vs| ==> |vs[i]| == n
  }

  predicate Live(v: Vec) {
    Norm2(v) >= TINY
  }

  function Coef(u: Vec, v: Vec): real
    requires |u| == |v|
  {
    if Live(v) then Dot(u, v) / Norm2(v) else 0.0
  }

  function Out(u: Vec, v: Vec): (r: Vec)
    requires |u| == |v|
    ensures |r| == |u|
  {
    if Live(v) then AddScaled(u, -Coef(u, v), v) else u
  }

  ghost function OutAll(u: Vec, vs: seq<Vec>): (r: Vec)
    requires Sized(vs, |u|)
    ensures |r| == |u|
  {
    if vs == [] then u else Out(OutAll(u, vs[..|vs| - 1]), vs[|vs| - 1])
  }

  /** The coefficient used at each step, computed from the partly reduced vector as the loop does. */
  ghost function Coefs(u: Vec, vs: seq<Vec>): (r: seq<real>)
    requires Sized(vs, |u|)
    ensures |r| == |vs|
  {
    if vs == [] then []
    else Coefs(u, vs[..|vs| - 1]) + [Coef(OutAll(u, vs[..|vs| - 1]), vs[|vs| - 1])]
  }

  /** p + sum over k of cs[k] * vs[k] */
  ghost function Mix(p: Vec, cs: seq<real>, vs: seq<Vec>): (r: Vec)
    requires |cs| == |vs| && Sized(vs, |p|)
    ensures |r| == |p|
  {
    if vs == [] then p
    else AddScaled(Mix(p, cs[..|vs| - 1], vs[..|vs| - 1]), cs[|vs| - 1], vs[|vs| - 1])
  }

  /** sum over k of cs[k]^2 * |vs[k]|^2 */
  ghost function Energy(cs: seq<real>, vs: seq<Vec>): real
    requires |cs| == |vs|
  {
    if vs == [] then 0.0
    else Energy(cs[..|vs| - 1], vs[..|vs| - 1]) + Times(cs[|vs| - 1], Times(cs[|vs| - 1], Norm2(vs[|vs| - 1])))
  }

  /** A later vector is orthogonal to every earlier live one. */
  ghost predicate OrthogonalFamily(vs: seq<Vec>, n: nat) {
    Sized(vs, n) &&
    forall j, i :: 0 <= j < i < |vs| && Live(vs[j]) ==> Dot(vs[i], vs[j]) == 0.0
  }

  ghost predicate OrthogonalTo(p: Vec, vs: seq<Vec>)
    requires Sized(vs, |p|)
  {
    forall j :: 0 <= j < |vs| && Live(vs[j]) ==> Dot(p, vs[j]) == 0.0
  }

  // ---------------------------------------------------------------- one step

  lemma QuotientTimes(x: real, y: real)
    requires y > 0.0
    ensures x + Times(-(x / y), y) == 0.0
  {
    assert x / y * y == x;
  }

  lemma OutOrthogonal(u: Vec, v: Vec)
    requires |u| == |v| && Live(v)
    ensures Dot(Out(u, v), v) == 0.0
  {
    var c := Coef(u, v);
    DotAddScaled(u, -c, v, v);
    QuotientTimes(Dot(u, v), Norm2(v));
  }

  lemma OutKeeps(u: Vec, v: Vec, w: Vec)
    requires |u| == |v| == |w| && (Live(v) ==> Dot(v, w) == 0.0)
    ensures Dot(Out(u, v), w) == Dot(u, w)
  {
    if Live(v) {
      DotAddScaled(u, -Coef(u, v), v, w);
    }
  }

  lemma OutPythagoras(u: Vec, v: Vec)
    requires |u| == |v|
    ensures Norm2(u) == Norm2(Out(u, v)) + Times(Coef(u, v), Times(Coef(u, v), Norm2(v)))
    ensures u == AddScaled(Out(u, v), Coef(u, v), v)
  {
    var p, c := Out(u, v), Coef(u, v);
    assert u == AddScaled(p, c, v);
    if Live(v) {
      OutOrthogonal(u, v);
      Norm2AddScaled(p, c, v);
    }
  }

  // ---------------------------------------------------------------- the whole loop

  /** The reduced vector is orthogonal to every live earlier residual. */
  lemma {:induction false} OutAllOrthogonal(u: Vec, vs: seq<Vec>)
    requires OrthogonalFamily(vs, |u|)
    ensures OrthogonalTo(OutAll(u, vs), vs)
  {
    if vs != [] {
      var init, v := vs[..|vs| - 1], vs[|vs| - 1];
      OutAllOrthogonal(u, init);
      var p := OutAll(u, init);
      forall j | 0 <= j < |vs| && Live(vs[j])
        ensures Dot(OutAll(u, vs), vs[j]) == 0.0
      {
        if j < |vs| - 1 {
          assert init[j] == vs[j];
          OutKeeps(p, v, vs[j]);
        } else {
          OutOrthogonal(p, v);
        }
      }
    }
  }

  /** u is its residual plus the coefficients times the earlier residuals, and the squared norms add up. */
  lemma {:induction false} OutAllDecomposes(u: Vec, vs: seq<Vec>)
    requires Sized(vs, |u|)
    ensures u == Mix(OutAll(u, vs), Coefs(u, vs), vs)
    ensures Norm2(u) == Norm2(OutAll(u, vs)) + Energy(Coefs(u, vs), vs)
    decreases |vs|
  {
    if vs != [] {
      var init, v := vs[..|vs| - 1], vs[|vs| - 1];
      OutAllDecomposes(u, init);
      var p := OutAll(u, init);
      OutPythagoras(p, v);
      var cs := Coefs(u, vs);
      assert cs[..|vs| - 1] == Coefs(u, init);
      MixShift(OutAll(u, vs), cs[..|vs| - 1], init, cs[|vs| - 1], v);
    }
  }

  /** The order in which multiples are added back does not matter. */
  lemma {:induction false} MixShift(p: Vec, cs: seq<real>, vs: seq<Vec>, c: real, v: Vec)
    requires |cs| == |vs| && Sized(vs, |p|) && |v| == |p|
    ensures Mix(AddScaled(p, c, v), cs, vs) == AddScaled(Mix(p, cs, vs), c, v)
  {
    if vs != [] {
      var k := |vs| - 1;
      MixShift(p, cs[..k], vs[..k], c, v);
      var m := Mix(p, cs[..k], vs[..k]);
      assert AddScaled(AddScaled(m, c, v), cs[k], vs[k]) == AddScaled(AddScaled(m, cs[k], vs[k]), c, v);
    }
  }

  // ---------------------------------------------------------------- what the residual means

  lemma {:induction false} OutAllKeeps(u: Vec, vs: seq<Vec>, w: Vec)
    requires Sized(vs, |u|) && |w| == |u|
    requires forall j :: 0 <= j < |vs| && Live(vs[j]) ==> Dot(vs[j], w) == 0.0
    ensures Dot(OutAll(u, vs), w) == Dot(u, w)
  {
    if vs != [] {
      OutAllKeeps(u, vs[..|vs| - 1], w);
      OutKeeps(OutAll(u, vs[..|vs| - 1]), vs[|vs| - 1], w);
    }
  }

  /** Reducing in place (each coefficient taken from the partly reduced vector) uses the same coefficients
      as projecting the original vector on every residual at once. */
  lemma {:induction false} ModifiedIsClassical(u: Vec, vs: seq<Vec>)
    requires OrthogonalFamily(vs, |u|)
    ensures forall k :: 0 <= k < |vs| ==> Coefs(u, vs)[k] == Coef(u, vs[k])
  {
    if vs != [] {
      var init, v := vs[..|vs| - 1], vs[|vs| - 1];
      ModifiedIsClassical(u, init);
      assert Coef(OutAll(u, init), v) == Coef(u, v) by {
        if Live(v) {
          forall j | 0 <= j < |init| && Live(init[j])
            ensures Dot(init[j], v) == 0.0
          {
            assert vs[j] == init[j];
            DotSymmetric(v, init[j]);
          }
          OutAllKeeps(u, init, v);
        }
      }
      forall k | 0 <= k < |vs| - 1
        ensures Coefs(u, vs)[k] == Coef(u, vs[k])
      {
        assert init[k] == vs[k];
      }
    }
  }

  lemma {:induction false} MixDot(p: Vec, cs: seq<real>, vs: seq<Vec>, w: Vec)
    requires |cs| == |vs| && Sized(vs, |p|) && |w| == |p|
    requires forall k :: 0 <= k < |vs| ==> cs[k] == 0.0 || Dot(vs[k], w) == 0.0
    ensures Dot(Mix(p, cs, vs), w) == Dot(p, w)
  {
    if vs != [] {
      var k := |vs| - 1;
      MixDot(p, cs[..k], vs[..k], w);
      DotAddScaled(Mix(p, cs[..k], vs[..k]), cs[k], vs[k], w);
    }
  }

  lemma {:induction false} CoefsOfDead(u: Vec, vs: seq<Vec>)
    requires Sized(vs, |u|)
    ensures forall k :: 0 <= k < |vs| && !Live(vs[k]) ==> Coefs(u, vs)[k] == 0.0
  {
    if vs != [] {
      CoefsOfDead(u, vs[..|vs| - 1]);
    }
  }

  /** The residual is the least-squares one: no other combination of the live residuals leaves a smaller remainder. */
  lemma ResidualIsLeast(u: Vec, vs: seq<Vec>, q: Vec, coefs: seq<real>)
    requires OrthogonalFamily(vs, |u|) && |q| == |u| && |coefs| == |vs|
    requires forall k :: 0 <= k < |vs| && !Live(vs[k]) ==> coefs[k] == 0.0
    requires u == Mix(q, coefs, vs)
    ensures Norm2(OutAll(u, vs)) <= Norm2(q)
  {
    var p := OutAll(u, vs);
    OutAllOrthogonal(u, vs);
    forall k | 0 <= k < |vs| && Live(vs[k])
      ensures Dot(vs[k], p) == 0.0
    {
      DotSymmetric(vs[k], p);
    }
    assert Dot(u, p) == Norm2(p) by {
      OutAllDecomposes(u, vs);
      CoefsOfDead(u, vs);
      MixDot(p, Coefs(u, vs), vs, p);
    }
    assert Dot(u, p) == Dot(q, p) by { MixDot(q, coefs, vs, p); }
    Norm2AddScaled(q, -1.0, p);
    Norm2NonNegative(AddScaled(q, -1.0, p));
  }

  lemma {:induction false} EnergyNonNegative(cs: seq<real>, vs: seq<Vec>)
    requires |cs| == |vs|
    ensures Energy(cs, vs) >= 0.0
  {
    if vs != [] {
      var k := |vs| - 1;
      EnergyNonNegative(cs[..k], vs[..k]);
      Norm2NonNegative(vs[k]);
      NonNegativeTerm(cs[k], Norm2(vs[k]));
    }
  }

  lemma NonNegativeTerm(c: real, x: real)
    requires x >= 0.0
    ensures Times(c, Times(c, x)) >= 0.0
  {
    assert c * c >= 0.0;
    assert (c * c) * x >= 0.0;
  }

  lemma {:induction false} SumOutAll(u: Vec, vs: seq<Vec>)
    requires Sized(vs, |u|) && Sum(u) == 0.0
    requires forall k :: 0 <= k < |vs| ==> Sum(vs[k]) == 0.0
    ensures Sum(OutAll(u, vs)) == 0.0
  {
    if vs != [] {
      SumOutAll(u, vs[..|vs| - 1]);
      var p, v := OutAll(u, vs[..|vs| - 1]), vs[|vs| - 1];
      if Live(v) {
        SumAddScaled(p, -Coef(p, v), v);
      }
    }
  }
}
