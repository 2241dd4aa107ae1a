/** Finite real vectors: sums, inner products and the few linear maps the scoring code applies to a column.
    Products of reals are written `Times`, so that proofs can treat them as terms. */
module Vectors {

  type Vec = seq<real>

  function Times(x: real, y: real): real { x * y }

  function Over(x: real, y: real): real
    requires y != 0.0
  {
    x / y
  }

  function Sum(u: Vec): real {
    if u == [] then 0.0 else u[0] + Sum(u[1..])
  }

  function Dot(u: Vec, v: Vec): real
    requires |u| == |v|
  {
    if u == [] then 0.0 else Times(u[0], v[0]) + Dot(u[1..], v[1..])
  }

  function Norm2(u: Vec): real {
    Dot(u, u)
  }

  function Constant(n: nat, c: real): Vec {
    seq(n, _ => c)
  }

  function Plus(x: real, c: real, y: real): real { x + Times(c, y) }

  /** u + c * v */
  function AddScaled(u: Vec, c: real, v: Vec): (r: Vec)
    requires |u| == |v|
    ensures |r| == |u| && forall i :: 0 <= i < |u| ==> r[i] == Plus(u[i], c, v[i])
  {
    seq(|u|, i requires 0 <= i < |u| => Plus(u[i], c, v[i]))
  }

  function ZCell(x: real, m: real, s: real): real
    requires s != 0.0
  {
    (x - m) / s
  }

  /** (u - m) / s */
  function Standardise(u: Vec, m: real, s: real): (r: Vec)
    requires s != 0.0
    ensures |r| == |u| && forall i :: 0 <= i < |u| ==> r[i] == ZCell(u[i], m, s)
  {
    seq(|u|, i requires 0 <= i < |u| => ZCell(u[i], m, s))
  }

  /** The law of the square root; the model takes the root itself as a parameter. */
  ghost predicate IsRoot(sqrt: real -> real) {
    forall x :: x >= 0.0 ==> sqrt(x) >= 0.0 && sqrt(x) * sqrt(x) == x
  }

  // ---------------------------------------------------------------- arithmetic

  lemma Distribute(c: real, x: real, y: real)
    ensures Times(c, x + y) == Times(c, x) + Times(c, y)
    ensures Times(x + y, c) == Times(x, c) + Times(y, c)
    ensures Times(c, x - y) == Times(c, x) - Times(c, y)
  {
  }

  lemma Associate(a: real, b: real, c: real)
    ensures Times(Times(a, b), c) == Times(a, Times(b, c))
    ensures Times(a, b) == Times(b, a)
  {
  }

  lemma PlusTimes(a: real, c: real, b: real, w: real)
    ensures Times(Plus(a, c, b), w) == Times(a, w) + Times(c, Times(b, w))
  {
  }

  lemma OverTimes(x: real, y: real)
    requires y != 0.0
    ensures Times(Over(x, y), y) == x
  {
  }

  lemma TimesMonotone(a: real, b: real, q: real)
    requires q > 0.0
    ensures a < b <==> Times(a, q) < Times(b, q)
    ensures a <= b <==> Times(a, q) <= Times(b, q)
  {
    if a < b {
      Positive(b - a, q);
      Distribute(q, b, -a);
    } else if b < a {
      Positive(a - b, q);
      Distribute(q, a, -b);
    }
  }

  lemma ZCellTimes(x: real, m: real, s: real)
    requires s != 0.0
    ensures Times(ZCell(x, m, s), s) == x - m
  {
  }

  lemma Positive(a: real, b: real)
    requires a > 0.0 && b > 0.0
    ensures Times(a, b) > 0.0
  {
  }

  lemma Cancel(a: real, b: real, q: real)
    requires q != 0.0 && Times(a, q) == Times(b, q)
    ensures a == b
  {
    assert a == (a * q) / q && b == (b * q) / q;
  }

  /** Equal squares of non-negative reals have equal roots. */
  lemma RootUnique(a: real, b: real)
    requires a >= 0.0 && b >= 0.0 && a * a == b * b
    ensures a == b
  {
    assert (a - b) * (a + b) == a * a - b * b;
    if a + b > 0.0 {
      assert a - b == (a * a - b * b) / (a + b);
    }
  }

  // ---------------------------------------------------------------- sums and inner products

  lemma {:induction false} DotSymmetric(u: Vec, v: Vec)
    requires |u| == |v|
    ensures Dot(u, v) == Dot(v, u)
  {
    if u != [] {
      DotSymmetric(u[1..], v[1..]);
    }
  }

  lemma {:induction false} DotConstant(u: Vec, c: real)
    ensures Dot(u, Constant(|u|, c)) == Times(c, Sum(u))
  {
    if u != [] {
      DotConstant(u[1..], c);
      assert Constant(|u|, c)[1..] == Constant(|u[1..]|, c);
      Distribute(c, u[0], Sum(u[1..]));
    }
  }

  lemma {:induction false} SumConstant(n: nat, c: real)
    ensures Sum(Constant(n, c)) == Times(n as real, c)
  {
    if n > 0 {
      SumConstant(n - 1, c);
      assert Constant(n, c)[1..] == Constant(n - 1, c);
    }
  }

  lemma {:induction false} Norm2NonNegative(u: Vec)
    ensures Norm2(u) >= 0.0
  {
    if u != [] {
      Norm2NonNegative(u[1..]);
      assert Times(u[0], u[0]) >= 0.0;
    }
  }

  lemma {:induction false} SumAddScaled(u: Vec, c: real, v: Vec)
    requires |u| == |v|
    ensures Sum(AddScaled(u, c, v)) == Sum(u) + Times(c, Sum(v))
  {
    if u != [] {
      SumAddScaled(u[1..], c, v[1..]);
      assert AddScaled(u, c, v)[1..] == AddScaled(u[1..], c, v[1..]);
      Distribute(c, v[0], Sum(v[1..]));
    }
  }

  lemma {:induction false} DotAddScaled(u: Vec, c: real, v: Vec, w: Vec)
    requires |u| == |v| == |w|
    ensures Dot(AddScaled(u, c, v), w) == Dot(u, w) + Times(c, Dot(v, w))
  {
    if u != [] {
      DotAddScaled(u[1..], c, v[1..], w[1..]);
      assert AddScaled(u, c, v)[1..] == AddScaled(u[1..], c, v[1..]);
      PlusTimes(u[0], c, v[0], w[0]);
      Distribute(c, Times(v[0], w[0]), Dot(v[1..], w[1..]));
    }
  }

  lemma Norm2AddScaled(u: Vec, c: real, v: Vec)
    requires |u| == |v|
    ensures Norm2(AddScaled(u, c, v)) == Norm2(u) + 2.0 * Times(c, Dot(u, v)) + Times(c, Times(c, Norm2(v)))
  {
    var s := AddScaled(u, c, v);
    assert Dot(s, s) == Dot(u, s) + Times(c, Dot(v, s)) by { DotAddScaled(u, c, v, s); }
    assert Dot(u, s) == Dot(u, u) + Times(c, Dot(u, v)) by { DotAddScaled(u, c, v, u); DotSymmetric(u, s);
      DotSymmetric(v, u); }
    assert Dot(v, s) == Dot(u, v) + Times(c, Dot(v, v)) by { DotAddScaled(u, c, v, v); DotSymmetric(v, s); }
    SquareOfSum(c, Dot(s, s), Dot(u, s), Dot(v, s), Dot(u, u), Dot(u, v), Dot(v, v));
  }

  lemma SquareOfSum(c: real, ss: real, us: real, vs: real, uu: real, uv: real, vv: real)
    requires ss == us + Times(c, vs) && us == uu + Times(c, uv) && vs == uv + Times(c, vv)
    ensures ss == uu + 2.0 * Times(c, uv) + Times(c, Times(c, vv))
  {
    Distribute(c, uv, Times(c, vv));
  }

  lemma {:induction false} SumStandardise(u: Vec, m: real, s: real)
    requires s != 0.0
    ensures Times(Sum(Standardise(u, m, s)), s) == Sum(u) - Times(|u| as real, m)
  {
    if u != [] {
      SumStandardise(u[1..], m, s);
      assert Standardise(u, m, s)[1..] == Standardise(u[1..], m, s);
      ZCellTimes(u[0], m, s);
      Distribute(s, ZCell(u[0], m, s), Sum(Standardise(u[1..], m, s)));
      assert |u| as real == |u[1..]| as real + 1.0;
      Distribute(m, |u[1..]| as real, 1.0);
    }
  }

  /** s * <(u - m)/s, w>  =  <u, w> - m * sum w */
  lemma {:induction false} DotStandardise(u: Vec, m: real, s: real, w: Vec)
    requires |u| == |w| && s != 0.0
    ensures Times(Dot(Standardise(u, m, s), w), s) == Dot(u, w) - Times(m, Sum(w))
  {
    if u != [] {
      DotStandardise(u[1..], m, s, w[1..]);
      assert Standardise(u, m, s)[1..] == Standardise(u[1..], m, s);
      ZCellProduct(u[0], m, s, w[0]);
      Distribute(s, Times(ZCell(u[0], m, s), w[0]), Dot(Standardise(u[1..], m, s), w[1..]));
      Distribute(m, w[0], Sum(w[1..]));
    }
  }

  lemma ZCellProduct(x: real, m: real, s: real, w: real)
    requires s != 0.0
    ensures Times(Times(ZCell(x, m, s), w), s) == Times(x, w) - Times(m, w)
  {
    ZCellTimes(x, m, s);
    var z := ZCell(x, m, s);
    assert z * w * s == z * s * w;
  }
}
