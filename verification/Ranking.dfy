/** The descending percentile rank in which tied values share the average of their positions. */
module Ranking {
  import opened Vectors
  import opened Sorting

  predicate AtLeast(a: real, b: real) { a >= b }

  /** How many elements equal z. */
  function Equal(s: Vec, z: real): nat {
    if s == [] then 0 else (if s[0] == z then 1 else 0) + Equal(s[1..], z)
  }

  /** How many elements exceed z. */
  function Above(s: Vec, z: real): nat {
    if s == [] then 0 else (if s[0] > z then 1 else 0) + Above(s[1..], z)
  }

  /** The sum of the positions that hold z, the first position being k. */
  function Positions(s: Vec, z: real, k: int): int {
    if s == [] then 0 else (if s[0] == z then k else 0) + Positions(s[1..], z, k + 1)
  }

  lemma {:induction false} EqualIsMultiplicity(s: Vec, z: real)
    ensures Equal(s, z) == multiset(s)[z]
  {
    if s != [] {
      EqualIsMultiplicity(s[1..], z);
      assert s == [s[0]] + s[1..];
    }
  }

  /** rank(ascending=False, method="average") of the value z: the mean of its positions in descending order. */
  function AverageRank(s: Vec, z: real): real
    requires z in s
  {
    EqualIsMultiplicity(s, z);
    Over(Positions(Sort(s, AtLeast), z, 1) as real, Equal(s, z) as real)
  }

  /** The same divided by the number of values. */
  function PctRank(s: Vec): (r: Vec)
    ensures |r| == |s|
    ensures forall i :: 0 <= i < |s| ==> r[i] == Over(AverageRank(s, s[i]), |s| as real)
  {
    seq(|s|, i requires 0 <= i < |s| => Over(AverageRank(s, s[i]), |s| as real))
  }

  // ---------------------------------------------------------------- the rank as a count

  lemma {:induction false} InsertCounts(x: real, s: Vec, z: real)
    ensures Equal(Insert(x, s, AtLeast), z) == Equal(s, z) + if x == z then 1 else 0
    ensures Above(Insert(x, s, AtLeast), z) == Above(s, z) + if x > z then 1 else 0
  {
    var r := Insert(x, s, AtLeast);
    if s == [] || AtLeast(x, s[0]) {
      assert r[1..] == s;
    } else {
      InsertCounts(x, s[1..], z);
      assert r[1..] == Insert(x, s[1..], AtLeast);
    }
  }

  lemma {:induction false} SortCounts(s: Vec, z: real)
    ensures Equal(Sort(s, AtLeast), z) == Equal(s, z) && Above(Sort(s, AtLeast), z) == Above(s, z)
  {
    if s != [] {
      SortCounts(s[1..], z);
      InsertCounts(s[0], Sort(s[1..], AtLeast), z);
    }
  }

  lemma {:induction false} NoneAtLeast(s: Vec, z: real)
    requires forall i :: 0 <= i < |s| ==> s[i] < z
    ensures Equal(s, z) == 0 && Above(s, z) == 0
    ensures forall k :: Positions(s, z, k) == 0
  {
    if s != [] {
      NoneAtLeast(s[1..], z);
    }
  }

  lemma {:induction false} NoneAbove(s: Vec, z: real)
    requires forall i :: 0 <= i < |s| ==> s[i] <= z
    ensures Above(s, z) == 0
  {
    if s != [] {
      NoneAbove(s[1..], z);
    }
  }

  lemma TiesAdd(e: int, k: int)
    ensures 2 * k + e * (2 * (k + 1) + e - 1) == (1 + e) * (2 * k + (1 + e) - 1)
  {
  }

  /** In descending order the ties of z occupy the positions right after the values above z. */
  lemma {:induction false} PositionsOfBlock(s: Vec, z: real, k: int)
    requires Sorted(s, AtLeast)
    ensures 2 * Positions(s, z, k) == Equal(s, z) * (2 * (k + Above(s, z)) + Equal(s, z) - 1)
  {
    if s != [] {
      PositionsOfBlock(s[1..], z, k + 1);
      var e, a := Equal(s[1..], z), Above(s[1..], z);
      if s[0] > z {
        assert 2 * (k + 1 + a) == 2 * (k + (1 + a));
      } else if s[0] == z {
        NoneAbove(s[1..], z);
        TiesAdd(e, k);
      } else {
        NoneAtLeast(s, z);
      }
    }
  }

  lemma AtLeastIsOrder()
    ensures TotalPreorder(AtLeast)
  {
  }

  /** The averaged position of a value is the number of values above it plus half its multiplicity plus a half. */
  lemma RankIsCount(s: Vec, z: real)
    requires z in s
    ensures AverageRank(s, z) == Above(s, z) as real + (Equal(s, z) + 1) as real / 2.0
    ensures Equal(s, z) >= 1
  {
    EqualIsMultiplicity(s, z);
    BlockOfSorted(s, z);
    Halve(Positions(Sort(s, AtLeast), z, 1), Equal(s, z), Above(s, z));
  }

  lemma BlockOfSorted(s: Vec, z: real)
    ensures 2 * Positions(Sort(s, AtLeast), z, 1) == Equal(s, z) * (2 * (1 + Above(s, z)) + Equal(s, z) - 1)
  {
    AtLeastIsOrder();
    SortSorted(s, AtLeast);
    SortCounts(s, z);
    PositionsOfBlock(Sort(s, AtLeast), z, 1);
  }

  lemma Halve(p: int, e: int, a: int)
    requires e >= 1 && 2 * p == e * (2 * (1 + a) + e - 1)
    ensures Over(p as real, e as real) == a as real + (e + 1) as real / 2.0
  {
    var h := 2 * (1 + a) + e - 1;
    IntTimes(e, h);
    assert Times(h as real / 2.0, e as real) == p as real;
    OverTimes(p as real, e as real);
    Cancel(Over(p as real, e as real), h as real / 2.0, e as real);
  }

  lemma IntTimes(e: int, h: int)
    ensures (e * h) as real == e as real * h as real
  {
  }

  // ---------------------------------------------------------------- main results

  /** What y contributes to the rank of x: one when it is above, a half when it ties. */
  function Beat(x: real, y: real): real {
    if y > x then 1.0 else if y == x then 0.5 else 0.0
  }

  function Beats(x: real, s: Vec): real {
    if s == [] then 0.0 else Beat(x, s[0]) + Beats(x, s[1..])
  }

  lemma {:induction false} BeatsIsCount(x: real, s: Vec)
    ensures Beats(x, s) == Above(s, x) as real + Equal(s, x) as real / 2.0
  {
    if s != [] {
      BeatsIsCount(x, s[1..]);
    }
  }

  function Tournament(s: Vec, t: Vec): real {
    if s == [] then 0.0 else Beats(s[0], t) + Tournament(s[1..], t)
  }

  lemma {:induction false} OneMorePlayer(s: Vec, x: real, t: Vec)
    ensures Tournament(s, [x] + t) == Tournament(s, [x]) + Tournament(s, t)
  {
    if s != [] {
      OneMorePlayer(s[1..], x, t);
      assert ([x] + t)[1..] == t;
      assert Beats(s[0], [x] + t) == Beat(s[0], x) + Beats(s[0], t);
      assert Beats(s[0], [x]) == Beat(s[0], x) + Beats(s[0], []);
    }
  }

  /** Each pair of different places shares exactly one point. */
  lemma {:induction false} PointsShared(x: real, s: Vec)
    ensures Beats(x, s) + Tournament(s, [x]) == |s| as real
  {
    if s != [] {
      PointsShared(x, s[1..]);
      assert Beats(s[0], [x]) == Beat(s[0], x) + Beats(s[0], []);
    }
  }

  lemma {:induction false} AllPlay(s: Vec)
    ensures Tournament(s, s) == (|s| * |s|) as real / 2.0
  {
    if s != [] {
      AllPlay(s[1..]);
      assert s == [s[0]] + s[1..];
      OneMorePlayer(s[1..], s[0], s[1..]);
      PointsShared(s[0], s[1..]);
      assert Beats(s[0], s) == 0.5 + Beats(s[0], s[1..]);
      var n := |s[1..]|;
      assert |s| * |s| == n * n + 2 * n + 1;
    }
  }

  lemma {:induction false} SumOfRanks(s: Vec, t: Vec, r: Vec)
    requires |r| == |s| && |t| > 0
    requires forall i :: 0 <= i < |s| ==> Times(r[i], |t| as real) == Beats(s[i], t) + 0.5
    ensures Times(Sum(r), |t| as real) == Tournament(s, t) + Over(|s| as real, 2.0)
  {
    if s != [] {
      SumOfRanks(s[1..], t, r[1..]);
      Distribute(|t| as real, r[0], Sum(r[1..]));
      assert Times(r[0], |t| as real) == Beats(s[0], t) + 0.5;
    }
  }

  lemma RankTimesCount(s: Vec, i: nat)
    requires i < |s|
    ensures Times(PctRank(s)[i], |s| as real) == Beats(s[i], s) + 0.5
  {
    RankIsCount(s, s[i]);
    BeatsIsCount(s[i], s);
    OverTimes(AverageRank(s, s[i]), |s| as real);
  }

  /** Whatever the tie pattern, the percentile ranks of N values sum to (N + 1) / 2. */
  lemma RanksSum(s: Vec)
    requires s != []
    ensures Sum(PctRank(s)) == (|s| + 1) as real / 2.0
  {
    forall i | 0 <= i < |s|
      ensures Times(PctRank(s)[i], |s| as real) == Beats(s[i], s) + 0.5
    {
      RankTimesCount(s, i);
    }
    SumOfRanks(s, s, PctRank(s));
    AllPlay(s);
    HalfProduct(|s|);
    Cancel(Sum(PctRank(s)), Over((|s| + 1) as real, 2.0), |s| as real);
  }

  lemma HalfProduct(n: nat)
    ensures Times(Over((n + 1) as real, 2.0), n as real) == (n * n) as real / 2.0 + Over(n as real, 2.0)
  {
    IntTimes(n, n);
    var x := n as real;
    assert (x + 1.0) / 2.0 * x == x * x / 2.0 + x / 2.0;
  }

  lemma {:induction false} BeatsDecreases(s: Vec, x: real, y: real)
    requires x < y
    ensures Beats(y, s) <= Beats(x, s)
    ensures x in s || y in s ==> Beats(y, s) < Beats(x, s)
    ensures 0.0 <= Beats(x, s) <= |s| as real
  {
    if s != [] {
      BeatsDecreases(s[1..], x, y);
      assert x in s <==> x == s[0] || x in s[1..];
      assert y in s <==> y == s[0] || y in s[1..];
    }
  }

  /** A higher score has a strictly smaller rank, equal scores have equal ranks. */
  lemma RankReversesOrder(s: Vec, i: nat, j: nat)
    requires i < |s| && j < |s|
    ensures PctRank(s)[i] < PctRank(s)[j] <==> s[i] > s[j]
    ensures PctRank(s)[i] == PctRank(s)[j] <==> s[i] == s[j]
  {
    RankTimesCount(s, i);
    RankTimesCount(s, j);
    if s[i] > s[j] {
      BeatsDecreases(s, s[j], s[i]);
      TimesMonotone(PctRank(s)[i], PctRank(s)[j], |s| as real);
    } else if s[i] < s[j] {
      BeatsDecreases(s, s[i], s[j]);
      TimesMonotone(PctRank(s)[j], PctRank(s)[i], |s| as real);
    }
  }

  lemma {:induction false} BeatsRange(s: Vec, x: real)
    requires x in s
    ensures 0.5 <= Beats(x, s) <= |s| as real - 0.5
  {
    if x == s[0] {
      BeatsDecreases(s[1..], x, x + 1.0);
    } else {
      BeatsRange(s[1..], x);
    }
  }

  /** Ranks lie between 1/N and 1. */
  lemma RankRange(s: Vec, i: nat)
    requires i < |s|
    ensures Over(1.0, |s| as real) <= PctRank(s)[i] <= 1.0
  {
    RankTimesCount(s, i);
    BeatsRange(s, s[i]);
    OverTimes(1.0, |s| as real);
    TimesMonotone(Over(1.0, |s| as real), PctRank(s)[i], |s| as real);
    TimesMonotone(PctRank(s)[i], 1.0, |s| as real);
  }
}
