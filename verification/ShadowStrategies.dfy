/** Strategies without positive weight (shadow strategies) do not influence any visible score. */
module ShadowStrategies {
  import opened Vectors
  import opened Series
  import opened Sorting
  import opened Orthogonalizer
  import opened Scorer
  import opened Compaction

  /** The input with every strategy that carries no positive weight erased, and every weight that does not count. */
  function Erase(input: Input): Input {
    var weighted := Weighted(input);
    Input(Filter(input.strategies, (st: StrategyZ) => WeightOf(input.weights, st.name) > 0.0),
          RawWeights(input),
          Filter(input.order, (s: Name) => s in weighted),
          input.single)
  }

  /** What a score shows apart from the list of all observations, which is kept for monitoring only. */
  function Visible(scores: seq<Score>): (r: seq<Score>)
    ensures |r| == |scores|
  {
    seq(|scores|, i requires 0 <= i < |scores| => scores[i].(zAll := []))
  }

  // ---------------------------------------------------------------- selection

  lemma NamesCons(st: StrategyZ, rest: seq<StrategyZ>)
    ensures Names([st] + rest) == [st.name] + Names(rest)
  {
  }

  lemma FilterCons<T>(x: T, rest: seq<T>, p: T -> bool)
    ensures Filter([x] + rest, p) == (if p(x) then [x] else []) + Filter(rest, p)
  {
    assert ([x] + rest)[1..] == rest;
  }

  lemma NamesFilterCons(st: StrategyZ, rest: seq<StrategyZ>, p: StrategyZ -> bool, q: Name -> bool)
    requires p(st) == q(st.name) && Names(Filter(rest, p)) == Filter(Names(rest), q)
    ensures Names(Filter([st] + rest, p)) == Filter(Names([st] + rest), q)
  {
    NamesCons(st, rest);
    FilterCons(st, rest, p);
    FilterCons(st.name, Names(rest), q);
    NamesCons(st, Filter(rest, p));
    assert [] + Filter(rest, p) == Filter(rest, p) && [] + Filter(Names(rest), q) == Filter(Names(rest), q);
  }

  lemma {:induction false} NamesFilter(strategies: seq<StrategyZ>, p: StrategyZ -> bool, q: Name -> bool)
    requires forall i :: 0 <= i < |strategies| ==> p(strategies[i]) == q(strategies[i].name)
    ensures Names(Filter(strategies, p)) == Filter(Names(strategies), q)
  {
    if strategies != [] {
      NamesFilter(strategies[1..], p, q);
      NamesFilterCons(strategies[0], strategies[1..], p, q);
      assert strategies == [strategies[0]] + strategies[1..];
    }
  }

  lemma {:induction false} WeightOfFilter(weights: seq<Weight>, p: Weight -> bool, s: Name)
    requires forall i :: 0 <= i < |weights| && weights[i].name == s ==> p(weights[i])
    ensures WeightOf(Filter(weights, p), s) == WeightOf(weights, s)
  {
    if weights != [] {
      WeightOfFilter(weights[1..], p, s);
      if p(weights[0]) {
        assert Filter(weights, p)[1..] == Filter(weights[1..], p);
      } else {
        assert Filter(weights, p) == Filter(weights[1..], p);
      }
    }
  }

  lemma WeightsAgree(input: Input, s: Name)
    requires input.Valid() && s in Weighted(input)
    ensures WeightOf(RawWeights(input), s) == WeightOf(input.weights, s)
  {
    WeightedIs(input);
    forall i | 0 <= i < |input.weights| && input.weights[i].name == s
      ensures input.weights[i].w > 0.0
    {
      WeightOfEntry(input.weights, i);
    }
    WeightOfFilter(input.weights, (x: Weight) => x.name in Names(input.strategies) && x.w > 0.0, s);
  }

  lemma {:induction false} WeightNamesFilter(weights: seq<Weight>, p: Weight -> bool)
    requires Distinct(WeightNames(weights))
    ensures Distinct(WeightNames(Filter(weights, p)))
    ensures forall s :: s in WeightNames(Filter(weights, p)) ==> s in WeightNames(weights)
  {
    if weights != [] {
      assert WeightNames(weights[1..]) == WeightNames(weights)[1..];
      WeightNamesFilter(weights[1..], p);
      var t := Filter(weights[1..], p);
      assert WeightNames(weights) == [weights[0].name] + WeightNames(weights[1..]);
      assert weights[0].name !in WeightNames(weights[1..]);
      if p(weights[0]) {
        assert WeightNames(Filter(weights, p)) == [weights[0].name] + WeightNames(t);
        assert forall j :: 0 <= j < |t| ==> WeightNames(t)[j] in WeightNames(t);
      } else {
        assert Filter(weights, p) == t;
      }
    }
  }

  lemma EraseKeepsWeighted(input: Input)
    requires input.Valid()
    ensures Weighted(Erase(input)) == Weighted(input)
    ensures Names(Erase(input).strategies) == Weighted(input)
  {
    NamesFilter(input.strategies, (st: StrategyZ) => WeightOf(input.weights, st.name) > 0.0,
        (s: Name) => WeightOf(input.weights, s) > 0.0);
    forall i | 0 <= i < |Weighted(input)|
      ensures WeightOf(RawWeights(input), Weighted(input)[i]) > 0.0
    {
      WeightedIs(input);
      WeightsAgree(input, Weighted(input)[i]);
    }
    FilterAll(Weighted(input), (s: Name) => WeightOf(RawWeights(input), s) > 0.0);
  }

  lemma EraseValid(input: Input)
    requires input.Valid()
    ensures Erase(input).Valid()
  {
    EraseKeepsWeighted(input);
    WeightedIs(input);
    WeightNamesFilter(input.weights, (x: Weight) => x.name in Names(input.strategies) && x.w > 0.0);
    DistinctFilter(input.order, (s: Name) => s in Weighted(input));
  }

  lemma EraseKeepsWeights(input: Input)
    requires input.Valid()
    ensures RawWeights(Erase(input)) == RawWeights(input)
    ensures Weights(Erase(input)) == Weights(input)
  {
    RawWeightsAre(input);
    EraseKeepsWeighted(input);
    var raw := RawWeights(input);
    assert forall i :: 0 <= i < |raw| ==> raw[i] in raw;
    FilterAll(raw, (x: Weight) => x.name in Names(Erase(input).strategies) && x.w > 0.0);
  }

  lemma EraseKeepsOrder(input: Input)
    requires input.Valid()
    ensures EffectiveOrder(Weighted(input), Erase(input).order, RawWeights(input))
         == EffectiveOrder(Weighted(input), input.order, input.weights)
  {
    var weighted := Weighted(input);
    var kept := Filter(input.order, (s: Name) => s in weighted);
    FilterAll(kept, (s: Name) => s in weighted);
    var rest := Filter(weighted, (s: Name) => s !in kept);
    FilterMembers(weighted, (s: Name) => s !in kept);
    forall a, b | a in rest && b in rest
      ensures HeavierFirst(RawWeights(input))(a, b) == HeavierFirst(input.weights)(a, b)
    {
      WeightsAgree(input, a);
      WeightsAgree(input, b);
    }
    SortSame(rest, HeavierFirst(RawWeights(input)), HeavierFirst(input.weights));
  }

  // ---------------------------------------------------------------- rows

  lemma {:induction false} AllCodesIs(strategies: seq<StrategyZ>)
    ensures forall c :: c in AllCodes(strategies) <==> exists i :: 0 <= i < |strategies| && c in strategies[i].z
  {
    if strategies != [] {
      AllCodesIs(strategies[1..]);
      forall c
        ensures c in AllCodes(strategies) <==> exists i :: 0 <= i < |strategies| && c in strategies[i].z
      {
        if c in AllCodes(strategies[1..]) {
          var i :| 0 <= i < |strategies[1..]| && c in strategies[1..][i].z;
          assert c in strategies[i + 1].z;
        }
        if i :| 0 <= i < |strategies| && c in strategies[i].z {
          if i > 0 {
            assert c in strategies[1..][i - 1].z;
          }
        }
      }
    }
  }

  /** Every weighted strategy has a weight in force. */
  lemma WeightsCover(input: Input, s: Name)
    requires input.Valid() && s in Weighted(input)
    ensures exists k :: 0 <= k < |Weights(input)| && Weights(input)[k].name == s
  {
    WeightedIs(input);
    WeightsAgree(input, s);
    var raw := RawWeights(input);
    HasEntry(raw, s);
    RawWeightsAre(input);
    assert forall k :: 0 <= k < |raw| ==> raw[k] in raw;
    TotalPositive(raw);
    var k :| 0 <= k < |raw| && raw[k].name == s;
    assert Weights(input)[k].name == s;
  }

  lemma {:induction false} HasEntry(weights: seq<Weight>, s: Name)
    requires WeightOf(weights, s) > 0.0
    ensures exists k :: 0 <= k < |weights| && weights[k].name == s
  {
    if weights[0].name != s {
      HasEntry(weights[1..], s);
      var k :| 0 <= k < |weights[1..]| && weights[1..][k].name == s;
      assert weights[k + 1].name == s;
    }
  }

  lemma {:induction false} TotalPositive(weights: seq<Weight>)
    requires forall k :: 0 <= k < |weights| ==> weights[k].w > 0.0
    ensures TotalWeight(weights) >= 0.0 && (weights != [] ==> TotalWeight(weights) > 0.0)
  {
    if weights != [] {
      TotalPositive(weights[..|weights| - 1]);
    }
  }

  lemma SeenIs(input: Input, i: nat)
    requires input.Valid() && i < |Seen(input)|
    ensures Seen(input)[i] <==>
      exists s :: s in Weighted(input) && s in Matrix(input.strategies).cols && Matrix(input.strategies).cols[s][i].Num?
  {
    MatrixFits(input);
    WeightsAreWeighted(input);
    var cols: map<Name, Column> := Matrix(input.strategies).cols;
    var ws := Weights(input);
    if s :| s in Weighted(input) && s in cols && cols[s][i].Num? {
      WeightsCover(input, s);
      var k :| 0 <= k < |ws| && ws[k].name == s;
      assert cols[ws[k].name][i].Num?;
    }
    if Seen(input)[i] {
      var k :| 0 <= k < |ws| && cols[ws[k].name][i].Num?;
      assert ws[k].name in Weighted(input);
    }
  }

  lemma FilterKeeps<T>(s: seq<T>, i: nat, p: T -> bool)
    requires i < |s| && p(s[i])
    ensures exists j :: 0 <= j < |Filter(s, p)| && Filter(s, p)[j] == s[i]
  {
    FilterMembers(s, p);
    assert s[i] in Filter(s, p);
  }

  /** A weighted strategy appears with the same scores before and after the erasure. */
  lemma StrategyKept(input: Input, s: Name) returns (i: nat, j: nat)
    requires input.Valid() && s in Weighted(input)
    ensures i < |input.strategies| && input.strategies[i].name == s
    ensures j < |Erase(input).strategies| && Erase(input).strategies[j] == input.strategies[i]
  {
    WeightedIs(input);
    i :| 0 <= i < |input.strategies| && Names(input.strategies)[i] == s;
    FilterKeeps(input.strategies, i, (st: StrategyZ) => WeightOf(input.weights, st.name) > 0.0);
    j :| 0 <= j < |Erase(input).strategies| && Erase(input).strategies[j] == input.strategies[i];
  }

  lemma ReindexKept(z: map<Code, real>, index: seq<Code>, mask: seq<bool>)
    requires |mask| == |index|
    ensures Reindex(z, Keep(mask, index)) == Keep(mask, Reindex(z, index))
  {
    forall k | 0 <= k < Count(mask)
      ensures Reindex(z, Keep(mask, index))[k] == Keep(mask, Reindex(z, index))[k]
    {
      KeepNth(mask, index, k);
      KeepNth(mask, Reindex(z, index), k);
    }
  }

  lemma WeightedColumnInside(input: Input, s: Name)
    requires input.Valid() && s in Weighted(input)
    ensures s in Matrix(input.strategies).cols && Inside(Matrix(input.strategies).cols[s], Seen(input))
  {
    WeightedIs(input);
    forall k | 0 <= k < |Seen(input)| && !Seen(input)[k]
      ensures Matrix(input.strategies).cols[s][k].NaN?
    {
      SeenIs(input, k);
    }
  }

  /** The seen rows of a weighted column are that column of the erased matrix. */
  lemma ColumnCompacted(input: Input, s: Name)
    requires input.Valid() && s in Weighted(input)
    requires Keep(Seen(input), Matrix(input.strategies).index) == Matrix(Erase(input).strategies).index
    ensures s in Matrix(input.strategies).cols && s in Matrix(Erase(input).strategies).cols
    ensures Matrix(Erase(input).strategies).cols[s] == Keep(Seen(input), Matrix(input.strategies).cols[s])
    ensures Inside(Matrix(input.strategies).cols[s], Seen(input))
  {
    var i, j := StrategyKept(input, s);
    EraseValid(input);
    ColumnOf(input.strategies, Matrix(input.strategies).index, i);
    ColumnOf(Erase(input).strategies, Matrix(Erase(input).strategies).index, j);
    ReindexKept(input.strategies[i].z, Matrix(input.strategies).index, Seen(input));
    WeightedColumnInside(input, s);
  }

  lemma IndexCompacted(input: Input)
    requires input.Valid()
    ensures Keep(Seen(input), Matrix(input.strategies).index) == Matrix(Erase(input).strategies).index
  {
    var m, mask := Matrix(input.strategies), Seen(input);
    var kept := Keep(mask, m.index);
    AscendingIs(AllCodes(input.strategies));
    AscendingIs(AllCodes(Erase(input).strategies));
    forall i, j | 0 <= i < j < |kept|
      ensures kept[i] < kept[j]
    {
      KeepNth(mask, m.index, i);
      KeepNth(mask, m.index, j);
      NthIncreases(mask, i, j);
    }
    forall c
      ensures c in kept <==> c in AllCodes(Erase(input).strategies)
    {
      if c in kept {
        SeenCodeErased(input, c);
      }
      if c in AllCodes(Erase(input).strategies) {
        ErasedCodeSeen(input, c);
      }
    }
    IncreasingUnique(kept, Matrix(Erase(input).strategies).index);
  }

  lemma SeenCodeErased(input: Input, c: Code)
    requires input.Valid() && c in Keep(Seen(input), Matrix(input.strategies).index)
    ensures c in AllCodes(Erase(input).strategies)
  {
    var m, mask := Matrix(input.strategies), Seen(input);
    var j :| 0 <= j < Count(mask) && Keep(mask, m.index)[j] == c;
    KeepNth(mask, m.index, j);
    SeenIs(input, Nth(mask, j));
    var s :| s in Weighted(input) && s in m.cols && m.cols[s][Nth(mask, j)].Num?;
    var a, b := StrategyKept(input, s);
    ColumnOf(input.strategies, m.index, a);
    AllCodesIs(Erase(input).strategies);
    assert c in Erase(input).strategies[b].z;
  }

  lemma ErasedFrom(input: Input, b: nat) returns (a: nat)
    requires input.Valid() && b < |Erase(input).strategies|
    ensures a < |input.strategies| && input.strategies[a] == Erase(input).strategies[b]
    ensures input.strategies[a].name in Weighted(input)
  {
    var p := (st: StrategyZ) => WeightOf(input.weights, st.name) > 0.0;
    FilterMembers(input.strategies, p);
    assert Erase(input).strategies[b] in Erase(input).strategies;
    a :| 0 <= a < |input.strategies| && input.strategies[a] == Erase(input).strategies[b];
    WeightedIs(input);
    assert Names(input.strategies)[a] in Names(input.strategies);
  }

  lemma CodeHasRow(input: Input, a: nat, c: Code) returns (i: nat)
    requires input.Valid() && a < |input.strategies| && c in input.strategies[a].z
    ensures i < |Matrix(input.strategies).index| && Matrix(input.strategies).index[i] == c
    ensures input.strategies[a].name in Matrix(input.strategies).cols
    ensures Matrix(input.strategies).cols[input.strategies[a].name][i].Num?
  {
    var m := Matrix(input.strategies);
    AllCodesIs(input.strategies);
    AscendingIs(AllCodes(input.strategies));
    assert c in AllCodes(input.strategies);
    assert c in m.index;
    i :| 0 <= i < |m.index| && m.index[i] == c;
    ColumnOf(input.strategies, m.index, a);
  }

  lemma ErasedCodeSeen(input: Input, c: Code)
    requires input.Valid() && c in AllCodes(Erase(input).strategies)
    ensures c in Keep(Seen(input), Matrix(input.strategies).index)
  {
    var m, mask := Matrix(input.strategies), Seen(input);
    AllCodesIs(Erase(input).strategies);
    var b :| 0 <= b < |Erase(input).strategies| && c in Erase(input).strategies[b].z;
    var a := ErasedFrom(input, b);
    var i := CodeHasRow(input, a, c);
    SeenIs(input, i);
    NthOnto(mask, i);
    var j :| 0 <= j < Count(mask) && Nth(mask, j) == i;
    KeepNth(mask, m.index, j);
    assert Keep(mask, m.index)[j] == c;
  }

  // ---------------------------------------------------------------- columns and composite

  lemma NormalCompacted(input: Input, cfg: Config, s: Name)
    requires input.Valid() && s in Weighted(input)
    ensures s in NormalisedColumns(input, cfg) && s in NormalisedColumns(Erase(input), cfg)
    ensures |NormalisedColumns(input, cfg)[s]| == |Seen(input)|
    ensures NormalisedColumns(Erase(input), cfg)[s] == Keep(Seen(input), NormalisedColumns(input, cfg)[s])
  {
    var m, e, mask, weighted := Matrix(input.strategies), Matrix(Erase(input).strategies), Seen(input), Weighted(input);
    EraseValid(input);
    EraseKeepsWeighted(input);
    NormalisedAligned(input, cfg);
    NormalisedAligned(Erase(input), cfg);
    IndexCompacted(input);
    ColumnCompacted(input, s);
    if !(input.single || |weighted| <= 1) {
      var order := EffectiveOrder(weighted, input.order, input.weights);
      EraseKeepsOrder(input);
      EffectiveOrderIs(weighted, input.order, input.weights);
      forall t | t in order
        ensures t in m.cols && t in e.cols && Inside(m.cols[t], mask) && e.cols[t] == Keep(mask, m.cols[t])
      {
        ColumnCompacted(input, t);
      }
      NormalisedCompacted(m, e, order, mask, cfg.ratio, cfg.sqrt);
    }
  }

  /** The second table's weighted columns are the kept rows of the first one's. */
  ghost predicate KeptColumns(a: map<Name, Column>, b: map<Name, Column>, ws: seq<Weight>, mask: seq<bool>) {
    && Fits(a, ws, |mask|) && Fits(b, ws, Count(mask))
    && forall k :: 0 <= k < |ws| ==> b[ws[k].name] == Keep(mask, a[ws[k].name])
  }

  lemma {:induction false} WeightedSumCompacted(a: map<Name, Column>, b: map<Name, Column>, ws: seq<Weight>,
      mask: seq<bool>)
    requires KeptColumns(a, b, ws, mask)
    ensures Keep(mask, WeightedSum(a, ws, |mask|)) == WeightedSum(b, ws, Count(mask))
  {
    if ws == [] {
      forall j | 0 <= j < Count(mask)
        ensures Keep(mask, Constant(|mask|, 0.0))[j] == 0.0
      {
        KeepNth(mask, Constant(|mask|, 0.0), j);
      }
    } else {
      var last := ws[|ws| - 1];
      WeightedSumCompacted(a, b, ws[..|ws| - 1], mask);
      KeepAddScaled(mask, WeightedSum(a, ws[..|ws| - 1], |mask|), last.w, Filled(a[last.name]));
      KeepFilled(mask, a[last.name]);
    }
  }

  lemma {:induction false} RawPartsSame(a: map<Name, Column>, b: map<Name, Column>, ws: seq<Weight>, n: nat, j: nat)
    requires Fits(a, ws, n) && Fits(b, ws, n) && j < n
    requires forall k :: 0 <= k < |ws| ==> a[ws[k].name] == b[ws[k].name]
    ensures RawParts(a, ws, j) == RawParts(b, ws, j)
  {
    if ws != [] {
      RawPartsSame(a, b, ws[..|ws| - 1], n, j);
    }
  }

  lemma {:induction false} ResidualPartsSame(a: map<Name, Column>, b: map<Name, Column>, ws: seq<Weight>, n: nat,
      j: nat, root: real)
    requires Fits(a, ws, n) && Fits(b, ws, n) && j < n && root != 0.0
    requires forall k :: 0 <= k < |ws| ==> a[ws[k].name] == b[ws[k].name]
    ensures ResidualParts(a, ws, j, root) == ResidualParts(b, ws, j, root)
  {
    if ws != [] {
      ResidualPartsSame(a, b, ws[..|ws| - 1], n, j, root);
    }
  }

  lemma {:induction false} KeepAll<T>(mask: seq<bool>, s: seq<T>)
    requires |mask| == |s| && forall i :: 0 <= i < |mask| ==> mask[i]
    ensures Keep(mask, s) == s && Count(mask) == |s|
  {
    if s != [] {
      KeepAll(mask[1..], s[1..]);
    }
  }

  /** Nothing is left to delete after the erasure. */
  lemma ErasedAllSeen(input: Input)
    requires input.Valid()
    ensures forall i :: 0 <= i < |Seen(input)| && Weighted(input) == Names(input.strategies) ==> Seen(input)[i]
  {
    var m := Matrix(input.strategies);
    if Weighted(input) == Names(input.strategies) {
      forall i | 0 <= i < |Seen(input)|
        ensures Seen(input)[i]
      {
        AscendingIs(AllCodes(input.strategies));
        assert m.index[i] in m.index;
        AllCodesIs(input.strategies);
        var a :| 0 <= a < |input.strategies| && m.index[i] in input.strategies[a].z;
        ColumnOf(input.strategies, m.index, a);
        assert Names(input.strategies)[a] in Names(input.strategies);
        SeenIs(input, i);
      }
    }
  }

  lemma TableSame(codes: seq<Code>, zs: Vec, a: map<Name, Column>, b: map<Name, Column>, ws: seq<Weight>,
                  c: map<Name, Column>, d: map<Name, Column>, root: real, s1: seq<StrategyZ>, s2: seq<StrategyZ>,
                  phi: real -> real)
    requires |zs| == |codes| && root != 0.0
    requires Fits(a, ws, |codes|) && Fits(b, ws, |codes|) && Fits(c, ws, |codes|) && Fits(d, ws, |codes|)
    requires forall k :: 0 <= k < |ws| ==> a[ws[k].name] == b[ws[k].name] && c[ws[k].name] == d[ws[k].name]
    ensures Visible(Table(codes, zs, a, ws, c, root, s1, phi)) == Visible(Table(codes, zs, b, ws, d, root, s2, phi))
  {
    forall j | 0 <= j < |codes|
      ensures Visible(Table(codes, zs, a, ws, c, root, s1, phi))[j] ==
        Visible(Table(codes, zs, b, ws, d, root, s2, phi))[j]
    {
      RawPartsSame(a, b, ws, |codes|, j);
      ResidualPartsSame(c, d, ws, |codes|, j, root);
    }
  }

  // ---------------------------------------------------------------- main results

  /** Erasing the shadow strategies changes no visible score of any stock. */
  lemma ErasureInvisible(input: Input, cfg: Config)
    requires input.Valid() && IsRoot(cfg.sqrt)
    ensures Erase(input).Valid()
    ensures Visible(Aggregate(input, cfg)) == Visible(Aggregate(Erase(input), cfg))
  {
    EraseValid(input);
    EraseKeepsWeights(input);
    var ws := Weights(input);
    if input.strategies != [] && SquareWeight(ws) > 0.0 {
      ErasureOfTable(input, cfg);
    }
  }

  lemma ColumnsKept(input: Input, cfg: Config)
    requires input.Valid()
    ensures Erase(input).Valid() && Weights(Erase(input)) == Weights(input)
    ensures |Matrix(Erase(input).strategies).index| == Count(Seen(input))
    ensures KeptColumns(Matrix(input.strategies).cols, Matrix(Erase(input).strategies).cols, Weights(input),
        Seen(input))
    ensures KeptColumns(NormalisedColumns(input, cfg), NormalisedColumns(Erase(input), cfg), Weights(input),
        Seen(input))
  {
    EraseValid(input);
    EraseKeepsWeights(input);
    MatrixFits(input);
    MatrixFits(Erase(input));
    WeightsFit(input, cfg);
    WeightsFit(Erase(input), cfg);
    WeightsAreWeighted(input);
    IndexCompacted(input);
    forall k | 0 <= k < |Weights(input)|
      ensures Matrix(Erase(input).strategies).cols[Weights(input)[k].name]
           == Keep(Seen(input), Matrix(input.strategies).cols[Weights(input)[k].name])
      ensures NormalisedColumns(Erase(input), cfg)[Weights(input)[k].name]
           == Keep(Seen(input), NormalisedColumns(input, cfg)[Weights(input)[k].name])
    {
      ColumnCompacted(input, Weights(input)[k].name);
      NormalCompacted(input, cfg, Weights(input)[k].name);
    }
  }

  lemma CompositeKept(input: Input, cfg: Config)
    requires input.Valid() && Erase(input).Valid() && IsRoot(cfg.sqrt)
    requires SquareWeight(Weights(input)) > 0.0 && Weights(Erase(input)) == Weights(input)
    ensures CompositeZ(Erase(input), cfg) == Keep(Seen(input), CompositeZ(input, cfg))
  {
    var ws, mask := Weights(input), Seen(input);
    ColumnsKept(input, cfg);
    RootPositive(cfg.sqrt, SquareWeight(ws));
    var a, b := NormalisedColumns(input, cfg), NormalisedColumns(Erase(input), cfg);
    WeightedSumCompacted(a, b, ws, mask);
    KeepStandardise(mask, WeightedSum(a, ws, |mask|), 0.0, cfg.sqrt(SquareWeight(ws)));
  }

  /** All rows of an erased input are seen, so its table is over its whole matrix. */
  lemma ErasedTable(input: Input)
    requires input.Valid() && Erase(input).Valid()
    ensures forall i :: 0 <= i < |Seen(Erase(input))| ==> Seen(Erase(input))[i]
  {
    EraseKeepsWeighted(input);
    ErasedAllSeen(Erase(input));
  }

  lemma ErasureOfTable(input: Input, cfg: Config)
    requires input.Valid() && Erase(input).Valid() && IsRoot(cfg.sqrt)
    requires SquareWeight(Weights(input)) > 0.0 && input.strategies != [] && Weights(Erase(input)) == Weights(input)
    ensures Visible(Aggregate(input, cfg)) == Visible(Aggregate(Erase(input), cfg))
  {
    var e := Erase(input);
    var ws, mask, all := Weights(input), Seen(input), Seen(e);
    ColumnsKept(input, cfg);
    CompositeKept(input, cfg);
    IndexCompacted(input);
    ErasedTable(input);
    RootPositive(cfg.sqrt, SquareWeight(ws));
    NormalisedAligned(input, cfg);
    NormalisedAligned(e, cfg);
    KeepAll(all, Matrix(e.strategies).index);
    KeepAll(all, CompositeZ(e, cfg));
    assert e.strategies != [] by { ErasedNotEmpty(input); }
    var a, b := KeepRows(mask, Matrix(input.strategies).cols), KeepRows(all, Matrix(e.strategies).cols);
    var c, d := KeepRows(mask, NormalisedColumns(input, cfg)), KeepRows(all, NormalisedColumns(e, cfg));
    forall k | 0 <= k < |ws|
      ensures a[ws[k].name] == b[ws[k].name] && c[ws[k].name] == d[ws[k].name]
    {
      KeepAll(all, Matrix(e.strategies).cols[ws[k].name]);
      KeepAll(all, NormalisedColumns(e, cfg)[ws[k].name]);
    }
    TableSame(Keep(mask, Matrix(input.strategies).index), Keep(mask, CompositeZ(input, cfg)), a, b, ws, c, d,
              cfg.sqrt(SquareWeight(ws)), input.strategies, e.strategies, cfg.phi);
  }

  lemma ErasedNotEmpty(input: Input)
    requires input.Valid() && Weights(input) != []
    ensures Erase(input).strategies != []
  {
    WeightsAreWeighted(input);
    EraseKeepsWeighted(input);
    assert Weights(input)[0].name in Weighted(input);
  }

  /** Two inputs that agree on their weighted strategies, whatever shadow strategies either has, give the same
      composite, rank, score and breakdowns for the same stocks in the same order. */
  lemma ShadowsDoNotInterfere(a: Input, b: Input, cfg: Config)
    requires a.Valid() && b.Valid() && IsRoot(cfg.sqrt)
    requires Erase(a) == Erase(b)
    ensures Visible(Aggregate(a, cfg)) == Visible(Aggregate(b, cfg))
  {
    ErasureInvisible(a, cfg);
    ErasureInvisible(b, cfg);
  }

  /** The input with one more strategy, placed anywhere. */
  function WithStrategy(input: Input, st: StrategyZ, at: nat): Input
    requires at <= |input.strategies|
  {
    input.(strategies := input.strategies[..at] + [st] + input.strategies[at..])
  }

  lemma FilterWithout<T>(a: seq<T>, x: T, b: seq<T>, p: T -> bool)
    requires !p(x)
    ensures Filter(a + [x] + b, p) == Filter(a + b, p)
  {
    FilterConcat(a + [x], b, p);
    FilterConcat(a, [x], p);
    FilterConcat(a, b, p);
  }

  /** The strategy st carries no positive weight and is not in the input yet. */
  predicate Shadow(input: Input, st: StrategyZ) {
    st.name !in Names(input.strategies) && WeightOf(input.weights, st.name) <= 0.0
  }

  lemma ShadowNotWeighted(input: Input, st: StrategyZ, at: nat)
    requires at <= |input.strategies| && Shadow(input, st)
    ensures Weighted(WithStrategy(input, st, at)) == Weighted(input)
  {
    var a, b := input.strategies[..at], input.strategies[at..];
    assert Names(WithStrategy(input, st, at).strategies) == Names(a) + [st.name] + Names(b);
    assert Names(input.strategies) == Names(a) + Names(b);
    FilterWithout(Names(a), st.name, Names(b), (s: Name) => WeightOf(input.weights, s) > 0.0);
  }

  lemma ShadowFilteredOut(input: Input, st: StrategyZ, at: nat)
    requires at <= |input.strategies| && Shadow(input, st)
    ensures Erase(WithStrategy(input, st, at)).strategies == Erase(input).strategies
  {
    var a, b := input.strategies[..at], input.strategies[at..];
    assert a + b == input.strategies;
    FilterWithout(a, st, b, (t: StrategyZ) => WeightOf(input.weights, t.name) > 0.0);
  }

  lemma ShadowWeightless(input: Input, st: StrategyZ, at: nat)
    requires input.Valid() && at <= |input.strategies| && Shadow(input, st)
    ensures RawWeights(WithStrategy(input, st, at)) == RawWeights(input)
  {
    var more := WithStrategy(input, st, at);
    assert Names(more.strategies) == Names(input.strategies[..at]) + [st.name] + Names(input.strategies[at..]);
    assert Names(input.strategies) == Names(input.strategies[..at]) + Names(input.strategies[at..]);
    forall i | 0 <= i < |input.weights|
      ensures var x := input.weights[i];
        (x.name in Names(more.strategies) && x.w > 0.0) == (x.name in Names(input.strategies) && x.w > 0.0)
    {
      WeightOfEntry(input.weights, i);
    }
    FilterSame(input.weights, (x: Weight) => x.name in Names(more.strategies) && x.w > 0.0,
               (x: Weight) => x.name in Names(input.strategies) && x.w > 0.0);
  }

  lemma ShadowErased(input: Input, st: StrategyZ, at: nat)
    requires input.Valid() && at <= |input.strategies| && Shadow(input, st)
    ensures Erase(WithStrategy(input, st, at)) == Erase(input)
  {
    ShadowNotWeighted(input, st, at);
    ShadowFilteredOut(input, st, at);
    ShadowWeightless(input, st, at);
  }

  /** Adding (or, read backwards, removing) one shadow strategy, whatever stocks it scores, changes no visible score. */
  lemma AddingShadow(input: Input, st: StrategyZ, at: nat, cfg: Config)
    requires input.Valid() && IsRoot(cfg.sqrt) && at <= |input.strategies|
    requires Shadow(input, st)
    ensures WithStrategy(input, st, at).Valid()
    ensures Visible(Aggregate(WithStrategy(input, st, at), cfg)) == Visible(Aggregate(input, cfg))
  {
    WithStrategyDistinct(input, st, at);
    ShadowErased(input, st, at);
    ShadowsDoNotInterfere(WithStrategy(input, st, at), input, cfg);
  }

  lemma WithStrategyDistinct(input: Input, st: StrategyZ, at: nat)
    requires input.Valid() && at <= |input.strategies| && Shadow(input, st)
    ensures WithStrategy(input, st, at).Valid()
  {
    var more := WithStrategy(input, st, at);
    forall i, j | 0 <= i < j < |more.strategies|
      ensures more.strategies[i].name != more.strategies[j].name
    {
      if i != at && j != at {
        var i', j' := if i < at then i else i - 1, if j < at then j else j - 1;
        assert Names(input.strategies)[i'] != Names(input.strategies)[j'];
      } else {
        var k := if i == at then j - 1 else i;
        assert Names(input.strategies)[k] in Names(input.strategies);
      }
    }
  }
}
