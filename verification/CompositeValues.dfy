/** The composite score of a stock as a number: weighted sums over the strategies, in the input's own terms. */
module CompositeValues {
  import opened Vectors
  import opened Statistics
  import opened Series
  import opened Sorting
  import opened Orthogonalizer
  import opened Scorer
  import opened Compaction
  import opened CompositeVariance
  import PartialCoverage
  import opened Ranking
  import ScoreTheorems
  import StandardisedInput

  // ---------------------------------------------------------------- sums over the strategies

  /** The strategy of this name, if it scored. */
  function Named(strategies: seq<StrategyZ>, s: Name): (r: seq<StrategyZ>)
    ensures |r| <= 1
  {
    if strategies == [] then []
    else if strategies[0].name == s then [strategies[0]]
    else Named(strategies[1..], s)
  }

  /** Sum over the positive weights, of strategies that scored, of weight times value. */
  ghost function Blended(strategies: seq<StrategyZ>, ws: seq<Weight>, v: StrategyZ -> real): real {
    if ws == [] then 0.0
    else
      var x, st := ws[|ws| - 1], Named(strategies, ws[|ws| - 1].name);
      Blended(strategies, ws[..|ws| - 1], v) + if x.w > 0.0 && st != [] then Times(x.w, v(st[0])) else 0.0
  }

  /** Sum of the same weights, squared. */
  ghost function Squared(strategies: seq<StrategyZ>, ws: seq<Weight>): real {
    if ws == [] then 0.0
    else
      var x := ws[|ws| - 1];
      Squared(strategies, ws[..|ws| - 1]) + if x.w > 0.0 &&
        Named(strategies, x.name) != [] then Times(x.w, x.w) else 0.0
  }

  lemma {:induction false} NamedIs(strategies: seq<StrategyZ>, s: Name)
    ensures Named(strategies, s) != [] <==> s in Names(strategies)
    ensures Named(strategies, s) != [] ==> Named(strategies, s)[0] in strategies && Named(strategies, s)[0].name == s
  {
    if strategies != [] {
      NamedIs(strategies[1..], s);
      assert Names(strategies) == [strategies[0].name] + Names(strategies[1..]);
    }
  }

  // ---------------------------------------------------------------- from the weights in force to the given ones

  /** Sum of weight times value, by name. */
  ghost function Plain(ws: seq<Weight>, v: Name -> real): real {
    if ws == [] then 0.0 else Plain(ws[..|ws| - 1], v) + Times(ws[|ws| - 1].w, v(ws[|ws| - 1].name))
  }

  lemma PlainSnoc(ws: seq<Weight>, x: Weight, v: Name -> real)
    ensures Plain(ws + [x], v) == Plain(ws, v) + Times(x.w, v(x.name))
    ensures SquareWeight(ws + [x]) == SquareWeight(ws) + Times(x.w, x.w)
  {
    assert (ws + [x])[..|ws|] == ws;
  }

  ghost predicate Counts(strategies: seq<StrategyZ>, x: Weight) {
    x.name in Names(strategies) && x.w > 0.0
  }

  /** v on names says what u says on strategies. */
  ghost predicate Values(strategies: seq<StrategyZ>, u: StrategyZ -> real, v: Name -> real) {
    forall st :: st in strategies ==> u(st) == v(st.name)
  }

  /** The weights of ws that count. */
  ghost function Counting(strategies: seq<StrategyZ>, ws: seq<Weight>): seq<Weight> {
    Filter(ws, (x: Weight) => x.name in Names(strategies) && x.w > 0.0)
  }

  lemma CountingLast(strategies: seq<StrategyZ>, init: seq<Weight>, last: Weight)
    ensures Counting(strategies, init + [last]) ==
      if Counts(strategies, last) then Counting(strategies, init) + [last] else Counting(strategies, init)
  {
    FilterLast(init, last, (x: Weight) => x.name in Names(strategies) && x.w > 0.0);
  }

  /** The term of one more weight. */
  lemma BlendedLast(strategies: seq<StrategyZ>, init: seq<Weight>, last: Weight, u: StrategyZ -> real, v: Name -> real)
    requires Values(strategies, u, v)
    ensures Blended(strategies, init + [last], u) ==
      Blended(strategies, init, u) + if Counts(strategies, last) then Times(last.w, v(last.name)) else 0.0
    ensures Squared(strategies, init + [last]) ==
      Squared(strategies, init) + if Counts(strategies, last) then Times(last.w, last.w) else 0.0
  {
    assert (init + [last])[..|init|] == init;
    NamedIs(strategies, last.name);
  }

  lemma {:induction false} PlainIsBlended(strategies: seq<StrategyZ>, ws: seq<Weight>, u: StrategyZ -> real,
      v: Name -> real)
    requires Values(strategies, u, v)
    ensures Plain(Counting(strategies, ws), v) == Blended(strategies, ws, u)
    ensures SquareWeight(Counting(strategies, ws)) == Squared(strategies, ws)
  {
    if ws != [] {
      var init, last := ws[..|ws| - 1], ws[|ws| - 1];
      PlainIsBlended(strategies, init, u, v);
      assert ws == init + [last];
      CountingLast(strategies, init, last);
      BlendedLast(strategies, init, last, u, v);
      PlainSnoc(Counting(strategies, init), last, v);
    }
  }

  lemma FilterLast(init: seq<Weight>, last: Weight, p: Weight -> bool)
    ensures Filter(init + [last], p) == if p(last) then Filter(init, p) + [last] else Filter(init, p)
  {
    FilterConcat(init, [last], p);
    assert [last][1..] == [];
  }

  /** Scaling all weights scales the sum, and the sum of squares twice. */
  lemma {:induction false} ScaledSums(ws: seq<Weight>, total: real, v: Name -> real)
    requires total != 0.0
    ensures Times(Plain(Scaled(ws, total), v), total) == Plain(ws, v)
    ensures Times(Times(SquareWeight(Scaled(ws, total)), total), total) == SquareWeight(ws)
  {
    if ws != [] {
      var init, last := ws[..|ws| - 1], ws[|ws| - 1];
      ScaledSums(init, total, v);
      assert Scaled(ws, total)[..|ws| - 1] == Scaled(init, total);
      assert Scaled(ws, total)[|ws| - 1] == Weight(last.name, last.w / total);
      ScaledTerm(Plain(Scaled(init, total), v), SquareWeight(Scaled(init, total)), last.w, v(last.name), total);
    }
  }

  lemma ScaledTerm(sum: real, squares: real, w: real, z: real, total: real)
    requires total != 0.0
    ensures Times(sum + Times(w / total, z), total) == Times(sum, total) + Times(w, z)
    ensures Times(Times(squares + Times(w / total, w / total), total), total) ==
      Times(Times(squares, total), total) + Times(w, w)
  {
    var s := w / total;
    assert s * total == w;
    assert (s * z) * total == (s * total) * z;
    assert (s * s) * total == s * w;
    assert (s * w) * total == w * w;
  }

  /** The root of scaled squares is the scaled root. */
  lemma RootScales(sqrt: real -> real, x: real, y: real, total: real)
    requires IsRoot(sqrt) && x >= 0.0 && y >= 0.0 && total > 0.0 && Times(Times(x, total), total) == y
    ensures Times(sqrt(x), total) == sqrt(y)
  {
    var r := sqrt(x);
    assert r * r == x && sqrt(y) * sqrt(y) == y;
    assert (r * total) * (r * total) == ((r * r) * total) * total;
    assert r * total >= 0.0;
    RootUnique(r * total, sqrt(y));
  }

  /** The weighted sum of a row, by name. */
  lemma {:induction false} WeightedSumIs(cols: map<Name, Column>, ws: seq<Weight>, n: nat, i: nat, v: Name -> real)
    requires Fits(cols, ws, n) && i < n
    requires forall k :: 0 <= k < |ws| ==> v(ws[k].name) == FillZero(cols[ws[k].name][i])
    ensures WeightedSum(cols, ws, n)[i] == Plain(ws, v)
  {
    if ws != [] {
      WeightedSumIs(cols, ws[..|ws| - 1], n, i, v);
    }
  }

  // ---------------------------------------------------------------- the composite of a listed stock

  /** The row of the j-th listed stock. */
  ghost function Row(input: Input, j: nat): (i: nat)
    requires input.Valid() && j < Count(Seen(input))
    ensures i < |Matrix(input.strategies).index|
  {
    Nth(Seen(input), j)
  }

  lemma CodeOf(input: Input, cfg: Config, j: nat)
    requires input.Valid() && IsRoot(cfg.sqrt) && j < |Aggregate(input, cfg)|
    ensures ScoreTheorems.HasTable(input) && j < Count(Seen(input)) == |Aggregate(input, cfg)|
    ensures Aggregate(input, cfg)[j].code == Matrix(input.strategies).index[Row(input, j)]
  {
    ScoreTheorems.TableOf(input, cfg, j);
    KeepNth(Seen(input), Matrix(input.strategies).index, j);
  }

  /** The value that a strategy's normalised column has in a row, zero when it is missing. */
  ghost function NormalAt(input: Input, cfg: Config, s: Name, i: nat): real {
    FillZero(PartialCoverage.CellAt(NormalisedColumns(input, cfg), s, i))
  }

  lemma CompositeOfRow(input: Input, cfg: Config, j: nat)
    requires input.Valid() && IsRoot(cfg.sqrt) && j < |Aggregate(input, cfg)|
    ensures ScoreTheorems.HasTable(input) && j < Count(Seen(input))
    ensures cfg.sqrt(SquareWeight(Weights(input))) > 0.0
    ensures Times(Aggregate(input, cfg)[j].compositeZ, cfg.sqrt(SquareWeight(Weights(input)))) ==
      Plain(Weights(input), (s: Name) => NormalAt(input, cfg, s, Row(input, j)))
  {
    ScoreTheorems.TableOf(input, cfg, j);
    ScoreTheorems.CompositeOf(input, cfg, j);
    var ws, cols, n, i := Weights(input), NormalisedColumns(input, cfg), |Seen(input)|, Row(input, j);
    KeepNth(Seen(input), WeightedSum(cols, ws, n), j);
    WeightedSumIs(cols, ws, n, i, (s: Name) => NormalAt(input, cfg, s, i));
    OverTimes(WeightedSum(cols, ws, n)[i], cfg.sqrt(SquareWeight(ws)));
  }

  /** The weights in force are the given positive ones of strategies that scored, scaled by a positive total. */
  lemma WeightsScaled(input: Input) returns (total: real)
    requires ScoreTheorems.HasTable(input)
    ensures total > 0.0 && Weights(input) == Scaled(RawWeights(input), total)
  {
    total := TotalWeight(RawWeights(input));
  }

  lemma Cross(z: real, root: real, total: real, whole: real, sum: real, given: real)
    requires Times(z, root) == sum && Times(root, total) == whole && Times(sum, total) == given
    ensures Times(z, whole) == given
  {
    assert z * (root * total) == (z * root) * total;
  }

  lemma {:induction false} SquaredNonNegative(strategies: seq<StrategyZ>, ws: seq<Weight>)
    ensures Squared(strategies, ws) >= 0.0
  {
    if ws != [] {
      var w := ws[|ws| - 1].w;
      SquaredNonNegative(strategies, ws[..|ws| - 1]);
      assert w * w >= 0.0;
    }
  }

  /** The composite, times the root of the sum of the squared weights, is the sum of weight times normalised value; u
      says on strategies what the normalised columns say in the stock's row. */
  lemma CompositeIsBlend(input: Input, cfg: Config, j: nat, u: StrategyZ -> real)
    requires input.Valid() && IsRoot(cfg.sqrt) && j < |Aggregate(input, cfg)| && j < Count(Seen(input))
    requires forall st :: st in input.strategies && st.name in Weighted(input) ==>
      u(st) == NormalAt(input, cfg, st.name, Row(input, j))
    ensures Times(Aggregate(input, cfg)[j].compositeZ, cfg.sqrt(Squared(input.strategies, input.weights))) ==
      Blended(input.strategies, input.weights, u)
  {
    var v := (s: Name) => NormalAt(input, cfg, s, Row(input, j));
    var w := (st: StrategyZ) => v(st.name);
    CompositeOfRow(input, cfg, j);
    var total := WeightsScaled(input);
    var raw := RawWeights(input);
    PlainIsBlended(input.strategies, input.weights, w, v);
    ScaledSums(raw, total, v);
    SquareWeightNonNegative(Weights(input));
    SquaredNonNegative(input.strategies, input.weights);
    RootScales(cfg.sqrt, SquareWeight(Weights(input)), Squared(input.strategies, input.weights), total);
    Cross(Aggregate(input, cfg)[j].compositeZ, cfg.sqrt(SquareWeight(Weights(input))), total,
          cfg.sqrt(Squared(input.strategies, input.weights)), Plain(Weights(input), v), Plain(raw, v));
    BlendedSame(input, input.weights, w, u);
  }

  lemma {:induction false} BlendedSame(input: Input, ws: seq<Weight>, w: StrategyZ -> real, u: StrategyZ -> real)
    requires input.Valid() && ws <= input.weights
    requires forall st :: st in input.strategies && st.name in Weighted(input) ==> w(st) == u(st)
    ensures Blended(input.strategies, ws, w) == Blended(input.strategies, ws, u)
  {
    if ws != [] {
      var n := |ws| - 1;
      BlendedSame(input, ws[..n], w, u);
      if ws[n].w > 0.0 && Named(input.strategies, ws[n].name) != [] {
        NamedIs(input.strategies, ws[n].name);
        WeightOfEntry(input.weights, n);
        WeightedIs(input);
      }
    }
  }

  // ---------------------------------------------------------------- nothing is orthogonalised

  /** Strategy a carries a positive weight. */
  ghost predicate Carries(input: Input, a: int) {
    0 <= a < |input.strategies| &&
    exists k :: 0 <= k < |input.weights| && input.weights[k].name == input.strategies[a].name &&
      input.weights[k].w > 0.0
  }

  lemma {:induction false} WeightOfAbsent(ws: seq<Weight>, s: Name)
    requires forall k :: 0 <= k < |ws| ==> ws[k].name != s
    ensures WeightOf(ws, s) == 0.0
  {
    if ws != [] {
      WeightOfAbsent(ws[1..], s);
    }
  }

  lemma CarriesIs(input: Input, a: nat)
    requires input.Valid() && a < |input.strategies|
    ensures Carries(input, a) <==> input.strategies[a].name in Weighted(input)
  {
    var s := input.strategies[a].name;
    WeightedIs(input);
    assert Names(input.strategies)[a] == s;
    if k :| 0 <= k < |input.weights| && input.weights[k].name == s {
      WeightOfEntry(input.weights, k);
    } else {
      WeightOfAbsent(input.weights, s);
    }
    if i :| 0 <= i < |input.weights| && input.weights[i].name == s && input.weights[i].w > 0.0 {
      WeightOfEntry(input.weights, i);
    }
  }

  /** The score a strategy gave a stock, zero when it gave none. */
  ghost function Given(st: StrategyZ, c: Code): real {
    if c in st.z then st.z[c] else 0.0
  }

  lemma RawCell(input: Input, st: StrategyZ, i: nat)
    requires input.Valid() && st in input.strategies && i < |Matrix(input.strategies).index|
    ensures st.name in Matrix(input.strategies).cols
    ensures FillZero(PartialCoverage.CellAt(Matrix(input.strategies).cols, st.name, i)) ==
      Given(st, Matrix(input.strategies).index[i])
  {
    var a :| 0 <= a < |input.strategies| && input.strategies[a] == st;
    ColumnOf(input.strategies, Matrix(input.strategies).index, a);
  }

  lemma PlainCell(input: Input, cfg: Config, st: StrategyZ, i: nat)
    requires input.Valid() && st in input.strategies && st.name in Weighted(input)
    requires (input.single || |Weighted(input)| <= 1) && i < |Matrix(input.strategies).index|
    ensures NormalAt(input, cfg, st.name, i) == Given(st, Matrix(input.strategies).index[i])
  {
    RawCell(input, st, i);
  }

  /** When one strategy is asked for, or at most one carries a weight, the scores are blended as they are. */
  lemma PlainComposite(input: Input, cfg: Config, j: nat)
    requires input.Valid() && IsRoot(cfg.sqrt) && j < |Aggregate(input, cfg)|
    requires input.single || forall a, b :: Carries(input, a) && Carries(input, b) ==> a == b
    ensures var score := Aggregate(input, cfg)[j];
      Times(score.compositeZ, cfg.sqrt(Squared(input.strategies, input.weights))) ==
        Blended(input.strategies, input.weights, (st: StrategyZ) => Given(st, score.code))
  {
    CodeOf(input, cfg, j);
    if !input.single {
      OnlyOne(input);
    }
    var i, c := Row(input, j), Aggregate(input, cfg)[j].code;
    forall st | st in input.strategies && st.name in Weighted(input)
      ensures Given(st, c) == NormalAt(input, cfg, st.name, i)
    {
      PlainCell(input, cfg, st, i);
    }
    CompositeIsBlend(input, cfg, j, (st: StrategyZ) => Given(st, c));
  }

  lemma OnlyOne(input: Input)
    requires input.Valid() && forall a, b :: Carries(input, a) && Carries(input, b) ==> a == b
    ensures |Weighted(input)| <= 1
  {
    WeightedIs(input);
    var l := Weighted(input);
    if |l| >= 2 {
      assert l[0] in l && l[1] in l;
      var a :| 0 <= a < |input.strategies| && Names(input.strategies)[a] == l[0];
      var b :| 0 <= b < |input.strategies| && Names(input.strategies)[b] == l[1];
      CarriesIs(input, a);
      CarriesIs(input, b);
    }
  }

  /** With one weighted strategy the composite of every listed stock is the score this strategy gave it. */
  lemma OneStrategyComposite(input: Input, cfg: Config, a: nat, j: nat)
    requires input.Valid() && IsRoot(cfg.sqrt) && j < |Aggregate(input, cfg)|
    requires a < |input.strategies| && Carries(input, a) && forall b :: Carries(input, b) ==> b == a
    ensures Aggregate(input, cfg)[j].code in input.strategies[a].z
    ensures Aggregate(input, cfg)[j].compositeZ == input.strategies[a].z[Aggregate(input, cfg)[j].code]
  {
    var c := Aggregate(input, cfg)[j].code;
    PlainComposite(input, cfg, j);
    ScoreTheorems.ListedIsCovered(input, cfg, j);
    var b :| 0 <= b < |input.strategies| && input.strategies[b].name in Weighted(input) && c in input.strategies[b].z;
    CarriesIs(input, b);
    var k :| 0 <= k < |input.weights| && input.weights[k].name == input.strategies[a].name && input.weights[k].w > 0.0;
    OneTerm(input, a, k, (st: StrategyZ) => Given(st, c));
    OneRoot(cfg.sqrt, input.weights[k].w, Aggregate(input, cfg)[j].compositeZ, Given(input.strategies[a], c));
  }

  lemma OneRoot(sqrt: real -> real, w: real, x: real, y: real)
    requires IsRoot(sqrt) && w > 0.0 && Times(x, sqrt(Times(w, w))) == Times(w, y)
    ensures x == y
  {
    assert w * w >= 0.0;
    RootUnique(sqrt(Times(w, w)), w);
    Cancel(x, y, w);
  }

  /** With one weighted strategy the sums have one term. */
  lemma OneTerm(input: Input, a: nat, k: nat, v: StrategyZ -> real)
    requires input.Valid() && (forall b :: Carries(input, b) ==> b == a)
    requires a < |input.strategies| && k < |input.weights|
    requires input.weights[k].name == input.strategies[a].name && input.weights[k].w > 0.0
    ensures Blended(input.strategies, input.weights, v) == Times(input.weights[k].w, v(input.strategies[a]))
    ensures Squared(input.strategies, input.weights) == Times(input.weights[k].w, input.weights[k].w)
  {
    assert input.weights[..|input.weights|] == input.weights;
    OneTermUpTo(input, a, k, v, |input.weights|);
  }

  lemma {:induction false} OneTermUpTo(input: Input, a: nat, k: nat, v: StrategyZ -> real, n: nat)
    requires input.Valid() && (forall b :: Carries(input, b) ==> b == a)
    requires a < |input.strategies| && k < |input.weights| && n <= |input.weights|
    requires input.weights[k].name == input.strategies[a].name && input.weights[k].w > 0.0
    ensures Blended(input.strategies, input.weights[..n], v) ==
      if k < n then Times(input.weights[k].w, v(input.strategies[a])) else 0.0
    ensures Squared(input.strategies, input.weights[..n]) ==
      if k < n then Times(input.weights[k].w, input.weights[k].w) else 0.0
  {
    if n > 0 {
      OneTermUpTo(input, a, k, v, n - 1);
      assert input.weights[..n][..n - 1] == input.weights[..n - 1];
      TermIs(input, a, k, n - 1);
    }
  }

  lemma TermIs(input: Input, a: nat, k: nat, m: nat)
    requires input.Valid() && (forall b :: Carries(input, b) ==> b == a)
    requires a < |input.strategies| && k < |input.weights| && m < |input.weights|
    requires input.weights[k].name == input.strategies[a].name && input.weights[k].w > 0.0
    ensures m == k ==> Named(input.strategies, input.weights[m].name) == [input.strategies[a]]
    ensures m != k && input.weights[m].w > 0.0 ==> Named(input.strategies, input.weights[m].name) == []
  {
    var s := input.weights[m].name;
    NamedIs(input.strategies, s);
    assert Names(input.strategies)[a] == input.strategies[a].name;
    if Named(input.strategies, s) != [] && input.weights[m].w > 0.0 {
      var st := Named(input.strategies, s)[0];
      var b :| 0 <= b < |input.strategies| && input.strategies[b] == st;
      assert Carries(input, b);
      assert WeightNames(input.weights)[m] == WeightNames(input.weights)[k];
    }
  }

  // ---------------------------------------------------------------- fewer than two common stocks

  /** A strategy's score of a stock in deviations from the mean of all its scores: zero when it gave none, or when its
      scores have no spread (or so little that even the whole of it counts as absorbed). */
  ghost function OwnScore(st: StrategyZ, c: Code, cfg: Config): real {
    var u := StandardisedInput.Values(st.z);
    if c !in st.z || |u| < 2 then 0.0
    else
      var sd := cfg.sqrt(Variance(u, 1));
      if sd < 0.000000000001 || (sd > 0.000000000001 && sd / sd < cfg.ratio) then 0.0
      else ZCell(st.z[c], Mean(u), sd)
  }

  /** All weighted strategies scored the stock. */
  ghost predicate Common(input: Input, c: Code) {
    forall a :: Carries(input, a) ==> c in input.strategies[a].z
  }

  ghost predicate FewCommon(input: Input) {
    forall c, d :: Common(input, c) && Common(input, d) ==> c == d
  }

  lemma FullIsCommon(input: Input, i: nat)
    requires input.Valid() && Covers(Matrix(input.strategies), Order(input)) && i < |Full(input)| && Full(input)[i]
    ensures Common(input, Matrix(input.strategies).index[i])
  {
    var m := Matrix(input.strategies);
    forall a | Carries(input, a)
      ensures m.index[i] in input.strategies[a].z
    {
      CarriesIs(input, a);
      OrderIs(input);
      ColumnOf(input.strategies, m.index, a);
    }
  }

  lemma FewCommonIs(input: Input)
    requires input.Valid() && FewCommon(input) && Covers(Matrix(input.strategies), Order(input))
    ensures Count(Full(input)) < 2
  {
    if Count(Full(input)) >= 2 {
      var p, q := Nth(Full(input), 0), Nth(Full(input), 1);
      NthIncreases(Full(input), 0, 1);
      FullIsCommon(input, p);
      FullIsCommon(input, q);
      SameRow(input, p, q);
    }
  }

  lemma OwnColumn(input: Input, cfg: Config, st: StrategyZ, i: nat)
    requires input.Valid() && st in input.strategies && i < |Matrix(input.strategies).index|
    ensures st.name in Matrix(input.strategies).cols
    ensures var x := Matrix(input.strategies).cols[st.name];
      FillZero(NormalisedColumn(x, OriginalStd(x, cfg.sqrt), cfg.ratio, cfg.sqrt)[i]) ==
        OwnScore(st, Matrix(input.strategies).index[i], cfg)
  {
    var a :| 0 <= a < |input.strategies| && input.strategies[a] == st;
    StandardisedInput.ColumnValues(input, a);
    var x := Matrix(input.strategies).cols[st.name];
    if x[i].Num? {
      PresentSome(x, i);
    }
  }

  lemma {:induction false} PresentSome(x: Column, i: nat)
    requires i < |x| && x[i].Num?
    ensures Present(x) != []
  {
    if i > 0 {
      PresentSome(x[1..], i - 1);
    }
  }

  /** With several weighted strategies and fewer than two stocks that all of them scored, nothing is projected, and each
      strategy's scores enter as deviations from its own mean. */
  lemma UnprojectedComposite(input: Input, cfg: Config, j: nat)
    requires input.Valid() && IsRoot(cfg.sqrt) && j < |Aggregate(input, cfg)|
    requires !input.single && FewCommon(input) && exists a, b :: a != b && Carries(input, a) && Carries(input, b)
    ensures var score := Aggregate(input, cfg)[j];
      Times(score.compositeZ, cfg.sqrt(Squared(input.strategies, input.weights))) ==
        Blended(input.strategies, input.weights, (st: StrategyZ) => OwnScore(st, score.code, cfg))
  {
    CodeOf(input, cfg, j);
    OrderIs(input);
    FewCommonIs(input);
    SeveralCarry(input);
    var i, c := Row(input, j), Aggregate(input, cfg)[j].code;
    forall st | st in input.strategies && st.name in Weighted(input)
      ensures OwnScore(st, c, cfg) == NormalAt(input, cfg, st.name, i)
    {
      UnprojectedCell(input, cfg, st, i);
    }
    CompositeIsBlend(input, cfg, j, (st: StrategyZ) => OwnScore(st, c, cfg));
  }

  lemma UnprojectedCell(input: Input, cfg: Config, st: StrategyZ, i: nat)
    requires input.Valid() && st in input.strategies && st.name in Weighted(input) &&
      i < |Matrix(input.strategies).index|
    requires !input.single && |Weighted(input)| >= 2
    requires Covers(Matrix(input.strategies), Order(input)) && Count(Full(input)) < 2
    ensures NormalAt(input, cfg, st.name, i) == OwnScore(st, Matrix(input.strategies).index[i], cfg)
  {
    OrderIs(input);
    NormalisedAligned(input, cfg);
    OwnColumn(input, cfg, st, i);
  }

  lemma SeveralCarry(input: Input)
    requires input.Valid() && exists a, b :: a != b && Carries(input, a) && Carries(input, b)
    ensures |Weighted(input)| >= 2
  {
    WeightedIs(input);
    var a, b :| a != b && Carries(input, a) && Carries(input, b);
    CarriesIs(input, a);
    CarriesIs(input, b);
    assert Names(input.strategies)[a] != Names(input.strategies)[b];
    TwoMembers(Weighted(input), input.strategies[a].name, input.strategies[b].name);
  }

  lemma TwoMembers(l: seq<Name>, x: Name, y: Name)
    requires x in l && y in l && x != y
    ensures |l| >= 2
  {
  }

  // ---------------------------------------------------------------- over the common stocks

  /** What a strategy adds for the p-th common stock: the deviation of its residual there, in deviations of its residual
      over the common stocks, or nothing when it was dropped. */
  ghost function ResidualScore(input: Input, cfg: Config, s: Name, p: nat): real {
    if Multi(input) && s in Order(input) && p < Count(Full(input)) && Survives(input, cfg, s) then
      var u := Filled(Residual(input, cfg, s));
      var sd := cfg.sqrt(Variance(u, 1));
      if sd == 0.0 then 0.0 else ZCell(u[p], Mean(u), sd)
    else 0.0
  }

  lemma ResidualCell(input: Input, cfg: Config, s: Name, p: nat)
    requires Multi(input) && s in Weighted(input) && p < Count(Full(input))
    ensures NormalAt(input, cfg, s, Nth(Full(input), p)) == ResidualScore(input, cfg, s, p)
  {
    KeptNormal(input, cfg, s);
    KeepNth(Full(input), Filled(NormalisedColumns(input, cfg)[s]), p);
  }

  /** Over the common stocks the composite blends the standardised residuals; every other stock has composite zero. */
  lemma ProjectedComposite(input: Input, cfg: Config, j: nat, p: nat)
    requires Multi(input) && IsRoot(cfg.sqrt) && j < |Aggregate(input, cfg)| && p < Count(Full(input))
    requires Aggregate(input, cfg)[j].code == Matrix(input.strategies).index[Nth(Full(input), p)]
    ensures Times(Aggregate(input, cfg)[j].compositeZ, cfg.sqrt(Squared(input.strategies, input.weights))) ==
      Blended(input.strategies, input.weights, (st: StrategyZ) => ResidualScore(input, cfg, st.name, p))
  {
    CodeOf(input, cfg, j);
    SameRow(input, Row(input, j), Nth(Full(input), p));
    forall st | st in input.strategies && st.name in Weighted(input)
      ensures ResidualScore(input, cfg, st.name, p) == NormalAt(input, cfg, st.name, Row(input, j))
    {
      ResidualCell(input, cfg, st.name, p);
    }
    CompositeIsBlend(input, cfg, j, (st: StrategyZ) => ResidualScore(input, cfg, st.name, p));
  }

  /** Codes ascend, so a code has one row. */
  lemma SameRow(input: Input, i: nat, k: nat)
    requires i < |Matrix(input.strategies).index| && k < |Matrix(input.strategies).index|
    requires Matrix(input.strategies).index[i] == Matrix(input.strategies).index[k]
    ensures i == k
  {
    AscendingIs(AllCodes(input.strategies));
  }

  // ---------------------------------------------------------------- the other fields of a score

  /** The weights in force are the given positive weights of the strategies that scored, in one proportion, and add up
      to one. */
  lemma WeightsInForce(input: Input) returns (total: real)
    requires input.Valid() && Weights(input) != []
    ensures total > 0.0 && TotalWeight(Weights(input)) == 1.0
    ensures forall k :: 0 <= k < |Weights(input)| ==>
      Times(Weights(input)[k].w, total) == WeightOf(input.weights, Weights(input)[k].name) > 0.0
  {
    var raw := RawWeights(input);
    total := TotalWeight(raw);
    ScoreTheorems.WeightsSumToOne(input);
    RawWeightsAre(input);
    forall k | 0 <= k < |raw|
      ensures Times(Weights(input)[k].w, total) == WeightOf(input.weights, Weights(input)[k].name) > 0.0
    {
      assert raw[k] in raw;
      OverTimes(raw[k].w, total);
    }
  }

  /** The market percentile of a stock, times the number of listed stocks, is the number of higher composites, plus half
      the number of equal ones, its own included, plus a half. */
  lemma PercentileIs(input: Input, cfg: Config, j: nat)
    requires input.Valid() && IsRoot(cfg.sqrt) && j < |Aggregate(input, cfg)|
    ensures var table := Aggregate(input, cfg);
      var zs, z := Composites(table), table[j].compositeZ;
      Times(table[j].pctInMarket, |table| as real) == Above(zs, z) as real + (Equal(zs, z) + 1) as real / 2.0
  {
    var table := Aggregate(input, cfg);
    var zs := Composites(table);
    ScoreTheorems.TableOf(input, cfg, j);
    forall i | 0 <= i < |table|
      ensures zs[i] == Keep(Seen(input), CompositeZ(input, cfg))[i]
    {
      ScoreTheorems.TableOf(input, cfg, i);
    }
    assert zs == Keep(Seen(input), CompositeZ(input, cfg));
    RankIsCount(zs, zs[j]);
    OverTimes(AverageRank(zs, zs[j]), |zs| as real);
  }

  function Composites(table: seq<Score>): (zs: Vec)
    ensures |zs| == |table| && forall i :: 0 <= i < |zs| ==> zs[i] == table[i].compositeZ
  {
    seq(|table|, i requires 0 <= i < |table| => table[i].compositeZ)
  }

  /** The 0-100 score is the distribution function of the composite; and all strategies that scored the stock are listed
      with their scores, whatever they weigh. */
  lemma ScoreFields(input: Input, cfg: Config, j: nat, o: Observation)
    requires input.Valid() && IsRoot(cfg.sqrt) && j < |Aggregate(input, cfg)|
    ensures var score := Aggregate(input, cfg)[j];
      && score.compositeScore == Times(cfg.phi(score.compositeZ), 100.0)
      && (o in score.zAll <==> exists a :: 0 <= a < |input.strategies| && Observed(input.strategies[a], score.code, o))
  {
    ScoreTheorems.TableOf(input, cfg, j);
    ObservationsAre(input.strategies, Aggregate(input, cfg)[j].code, o);
  }

  ghost predicate Observed(st: StrategyZ, c: Code, o: Observation) {
    c in st.z && o == Observation(st.name, st.z[c])
  }

  lemma {:induction false} ObservationsAre(strategies: seq<StrategyZ>, c: Code, o: Observation)
    ensures o in Observations(strategies, c) <==> exists a :: 0 <= a < |strategies| && Observed(strategies[a], c, o)
  {
    if strategies != [] {
      ObservationsAre(strategies[1..], c, o);
      if a :| 0 <= a < |strategies[1..]| && Observed(strategies[1..][a], c, o) {
        assert Observed(strategies[a + 1], c, o);
      }
      if a :| 0 <= a < |strategies| && Observed(strategies[a], c, o) {
        assert a > 0 ==> strategies[1..][a - 1] == strategies[a];
      }
    }
  }

  lemma {:induction false} ResidualPartAt(cols: map<Name, Column>, ws: seq<Weight>, n: nat, i: nat, root: real, k: nat)
    requires Fits(cols, ws, n) && i < n && root != 0.0 && k < |ws|
    ensures |ResidualParts(cols, ws, i, root)| == |ws|
    ensures ResidualParts(cols, ws, i, root)[k] == ResidualPartOf(ws[k], FillZero(cols[ws[k].name][i]), root)
  {
    var m := |ws| - 1;
    if m > 0 {
      ResidualPartAt(cols, ws[..m], n, i, root, if k < m then k else 0);
    }
  }

  /** The k-th part of the residual breakdown is the k-th weight in force, with its strategy's normalised value and its
      share of the composite. */
  lemma ResidualBreakdownIs(input: Input, cfg: Config, j: nat, k: nat)
    requires input.Valid() && IsRoot(cfg.sqrt) && j < |Aggregate(input, cfg)| && k < |Weights(input)|
    ensures var parts, ws := Aggregate(input, cfg)[j].residual, Weights(input);
      && j < Count(Seen(input)) && |parts| == |ws|
      && parts[k].name == ws[k].name && parts[k].weight == ws[k].w
      && parts[k].zOrthogonal == NormalAt(input, cfg, ws[k].name, Row(input, j))
      && Times(parts[k].contribution, cfg.sqrt(SquareWeight(ws))) == Times(parts[k].zOrthogonal, ws[k].w)
  {
    CodeOf(input, cfg, j);
    ScoreTheorems.ResidualsOf(input, cfg, j);
    NormalisedAligned(input, cfg);
    var cols, mask, ws := NormalisedColumns(input, cfg), Seen(input), Weights(input);
    var root := cfg.sqrt(SquareWeight(ws));
    ResidualPartAt(KeepRows(mask, cols), ws, Count(mask), j, root, k);
    KeepNth(mask, cols[ws[k].name], j);
    OverTimes(Times(FillZero(cols[ws[k].name][Row(input, j)]), ws[k].w), root);
  }
}
