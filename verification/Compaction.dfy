/** Deleting rows in which every column of interest is missing commutes with the whole orthogonalisation. */
module Compaction {
  import opened Vectors
  import opened Statistics
  import opened Series
  import opened Orthogonalizer

  /** The position of the j-th kept row. */
  function Nth(mask: seq<bool>, j: nat): (i: nat)
    requires j < Count(mask)
    ensures i < |mask| && mask[i]
  {
    if mask[0] then (if j == 0 then 0 else 1 + Nth(mask[1..], j - 1)) else 1 + Nth(mask[1..], j)
  }

  lemma {:induction false} KeepNth<T>(mask: seq<bool>, s: seq<T>, j: nat)
    requires |mask| == |s| && j < Count(mask)
    ensures Keep(mask, s)[j] == s[Nth(mask, j)]
  {
    if mask[0] {
      if j > 0 {
        KeepNth(mask[1..], s[1..], j - 1);
      }
    } else {
      KeepNth(mask[1..], s[1..], j);
    }
  }

  /** Every kept position is the j-th for some j. */
  lemma {:induction false} NthOnto(mask: seq<bool>, i: nat)
    requires i < |mask| && mask[i]
    ensures exists j :: 0 <= j < Count(mask) && Nth(mask, j) == i
  {
    if i == 0 {
      assert Nth(mask, 0) == 0;
    } else {
      NthOnto(mask[1..], i - 1);
      var j :| 0 <= j < Count(mask[1..]) && Nth(mask[1..], j) == i - 1;
      assert Nth(mask, if mask[0] then j + 1 else j) == i;
    }
  }

  lemma {:induction false} NthIncreases(mask: seq<bool>, i: nat, j: nat)
    requires i < j < Count(mask)
    ensures Nth(mask, i) < Nth(mask, j)
  {
    if mask[0] {
      if i > 0 {
        NthIncreases(mask[1..], i - 1, j - 1);
      }
    } else {
      NthIncreases(mask[1..], i, j);
    }
  }

  lemma KeepScores(mask: seq<bool>, x: Column, m: real, s: real)
    requires |mask| == |x| && s != 0.0
    ensures Keep(mask, Scores(x, m, s)) == Scores(Keep(mask, x), m, s)
  {
    forall j | 0 <= j < Count(mask)
      ensures Keep(mask, Scores(x, m, s))[j] == Scores(Keep(mask, x), m, s)[j]
    {
      KeepNth(mask, Scores(x, m, s), j);
      KeepNth(mask, x, j);
    }
  }

  lemma KeepMissing(mask: seq<bool>)
    ensures Keep(mask, Missing(|mask|)) == Missing(Count(mask))
  {
    forall j | 0 <= j < Count(mask)
      ensures Keep(mask, Missing(|mask|))[j] == NaN
    {
      KeepNth(mask, Missing(|mask|), j);
    }
  }

  lemma KeepFilled(mask: seq<bool>, x: Column)
    requires |mask| == |x|
    ensures Keep(mask, Filled(x)) == Filled(Keep(mask, x))
  {
    forall j | 0 <= j < Count(mask)
      ensures Keep(mask, Filled(x))[j] == Filled(Keep(mask, x))[j]
    {
      KeepNth(mask, Filled(x), j);
      KeepNth(mask, x, j);
    }
  }

  lemma KeepAddScaled(mask: seq<bool>, u: Vec, c: real, v: Vec)
    requires |mask| == |u| == |v|
    ensures Keep(mask, AddScaled(u, c, v)) == AddScaled(Keep(mask, u), c, Keep(mask, v))
  {
    forall j | 0 <= j < Count(mask)
      ensures Keep(mask, AddScaled(u, c, v))[j] == AddScaled(Keep(mask, u), c, Keep(mask, v))[j]
    {
      KeepNth(mask, AddScaled(u, c, v), j);
      KeepNth(mask, u, j);
      KeepNth(mask, v, j);
    }
  }

  lemma KeepStandardise(mask: seq<bool>, u: Vec, m: real, s: real)
    requires |mask| == |u| && s != 0.0
    ensures Keep(mask, Standardise(u, m, s)) == Standardise(Keep(mask, u), m, s)
  {
    forall j | 0 <= j < Count(mask)
      ensures Keep(mask, Standardise(u, m, s))[j] == Standardise(Keep(mask, u), m, s)[j]
    {
      KeepNth(mask, Standardise(u, m, s), j);
      KeepNth(mask, u, j);
    }
  }

  ghost predicate Within(m: seq<bool>, k: seq<bool>) {
    |m| == |k| && forall i :: 0 <= i < |m| && m[i] ==> k[i]
  }

  lemma {:induction false} KeepWithin<T>(k: seq<bool>, m: seq<bool>, x: seq<T>)
    requires Within(m, k) && |x| == |k|
    ensures Count(Keep(k, m)) == Count(m)
    ensures Keep(Keep(k, m), Keep(k, x)) == Keep(m, x)
  {
    if k != [] {
      KeepWithin(k[1..], m[1..], x[1..]);
      if k[0] {
        assert Keep(k, m)[1..] == Keep(k[1..], m[1..]);
        assert Keep(k, x)[1..] == Keep(k[1..], x[1..]);
      } else {
        assert Keep(k, m) == Keep(k[1..], m[1..]);
        assert Keep(k, x) == Keep(k[1..], x[1..]);
      }
    }
  }

  lemma {:induction false} KeepOfScatter(k: seq<bool>, m: seq<bool>, v: Column)
    requires Within(m, k) && |v| == Count(m)
    ensures Count(Keep(k, m)) == Count(m)
    ensures Keep(k, Scatter(m, v)) == Scatter(Keep(k, m), v)
  {
    KeepWithin(k, m, m);
    if k != [] {
      var rest := if m[0] then v[1..] else v;
      KeepOfScatter(k[1..], m[1..], rest);
      assert Scatter(m, v)[1..] == Scatter(m[1..], rest);
      if k[0] {
        assert Keep(k, m)[1..] == Keep(k[1..], m[1..]);
      } else {
        assert Keep(k, m) == Keep(k[1..], m[1..]);
      }
    }
  }

  /** A column that holds nothing outside the mask. */
  ghost predicate Inside(x: Column, k: seq<bool>) {
    |x| == |k| && forall i :: 0 <= i < |x| && !k[i] ==> x[i].NaN?
  }

  lemma NormalisedColumnKeeps(k: seq<bool>, x: Column, source: Column, ratio: real, sqrt: real -> real)
    requires Inside(x, k) && Inside(source, k)
    ensures NormalisedColumn(Keep(k, x), OriginalStd(Keep(k, source), sqrt), ratio, sqrt)
         == Keep(k, NormalisedColumn(x, OriginalStd(source, sqrt), ratio, sqrt))
  {
    PresentKeep(k, x);
    PresentKeep(k, source);
    KeepMissing(k);
    var sd := if Present(x) == [] then Num(0.0) else Std(x, 1, sqrt);
    if !(sd.NaN? || sd.v < TINY || Present(x) == []) {
      KeepScores(k, x, Mean(Present(x)), sd.v);
    }
  }

  /** g is the table f with the rows outside k deleted, as far as the ordered columns go. */
  ghost predicate Compacted(f: Frame, g: Frame, order: seq<Name>, k: seq<bool>) {
    && f.Valid() && g.Valid() && Covers(f, order) && Covers(g, order)
    && |k| == |f.index| && |g.index| == Count(k)
    && forall s :: s in order ==> Inside(f.cols[s], k) && g.cols[s] == Keep(k, f.cols[s])
  }

  lemma FullRowsCompacted(f: Frame, g: Frame, order: seq<Name>, k: seq<bool>)
    requires Compacted(f, g, order, k) && order != []
    ensures Within(FullRows(f, order), k)
    ensures FullRows(g, order) == Keep(k, FullRows(f, order))
  {
    var m := FullRows(f, order);
    forall i | 0 <= i < |m| && m[i]
      ensures k[i]
    {
      assert order[0] in order;
      assert f.cols[order[0]][i].Num?;
    }
    forall j | 0 <= j < Count(k)
      ensures FullRows(g, order)[j] == Keep(k, m)[j]
    {
      KeepNth(k, m, j);
      forall s | s in order
        ensures g.cols[s][j] == f.cols[s][Nth(k, j)]
      {
        KeepNth(k, f.cols[s], j);
      }
    }
  }

  lemma BlockCompacted(f: Frame, g: Frame, order: seq<Name>, k: seq<bool>)
    requires Compacted(f, g, order, k) && order != []
    ensures Count(FullRows(g, order)) == Count(FullRows(f, order))
    ensures Block(g, order) == Block(f, order)
  {
    FullRowsCompacted(f, g, order, k);
    KeepWithin(k, FullRows(f, order), k);
    forall i | 0 <= i < |order|
      ensures Block(g, order)[i] == Block(f, order)[i]
    {
      assert order[i] in order;
      KeepWithin(k, FullRows(f, order), f.cols[order[i]]);
    }
  }

  lemma OrthogonalCompacted(f: Frame, g: Frame, order: seq<Name>, k: seq<bool>, sqrt: real -> real, s: Name)
    requires Compacted(f, g, order, k) && s in order
    ensures var a, b := OrthogonalFrame(f, order, sqrt).value, OrthogonalFrame(g, order, sqrt).value;
      Inside(a.cols[s], k) && b.cols[s] == Keep(k, a.cols[s])
  {
    FullRowsCompacted(f, g, order, k);
    BlockCompacted(f, g, order, k);
    var m := FullRows(f, order);
    if Count(m) >= 2 {
      var r := ResidualOf(f, order, s, sqrt);
      KeepOfScatter(k, m, r);
      forall i | 0 <= i < |k| && !k[i]
        ensures Scatter(m, r)[i].NaN?
      {
        ScatterOutside(m, r, i);
      }
    }
  }

  /** The normalised columns of the compacted table are the kept rows of the original normalised columns. */
  lemma NormalisedCompacted(f: Frame, g: Frame, order: seq<Name>, k: seq<bool>, ratio: real, sqrt: real -> real)
    requires Compacted(f, g, order, k)
    ensures forall s :: s in order ==>
      (NormalisedFrame(g, order, ratio, sqrt).value.cols[s] ==
        Keep(k, NormalisedFrame(f, order, ratio, sqrt).value.cols[s]))
  {
    forall s | s in order
      ensures NormalisedFrame(g, order, ratio, sqrt).value.cols[s] ==
        Keep(k, NormalisedFrame(f, order, ratio, sqrt).value.cols[s])
    {
      OrthogonalCompacted(f, g, order, k, sqrt, s);
      NormalisedColumnKeeps(k, OrthogonalFrame(f, order, sqrt).value.cols[s], f.cols[s], ratio, sqrt);
    }
  }
}
