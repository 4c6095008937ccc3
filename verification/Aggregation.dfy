/** Weighted domain average and edge-factor product: the loops every formula shares. */
module Aggregation {
  import opened SsamTypes
  import opened RealLemmas

  // ----- weight map -----

  function WeightMap(ws: seq<WeightConfig>): map<string, real> {
    if ws == [] then map[]
    else WeightMap(ws[..|ws| - 1])[ws[|ws| - 1].domain := ws[|ws| - 1].weight]
  }

  method BuildWeightMap(weights: seq<WeightConfig>) returns (wMap: map<string, real>)
    ensures wMap == WeightMap(weights)
  {
    wMap := map[];
    for i := 0 to |weights|
      invariant wMap == WeightMap(weights[..i])
    {
      wMap := wMap[weights[i].domain := weights[i].weight];
      assert weights[..i + 1][..i] == weights[..i];
    }
    assert weights[..|weights|] == weights;
  }

  /** `i` is the last entry configured for domain `d`. */
  predicate IsLastFor(ws: seq<WeightConfig>, i: nat, d: string) {
    i < |ws| && ws[i].domain == d && forall j :: i < j < |ws| ==> ws[j].domain != d
  }

  /** Later weight entries replace earlier ones for the same domain. */
  lemma {:induction false} WeightMapLastWins(ws: seq<WeightConfig>, d: string)
    ensures d in WeightMap(ws) <==> exists i: nat :: IsLastFor(ws, i, d)
    ensures forall i: nat :: IsLastFor(ws, i, d) ==> WeightMap(ws)[d] == ws[i].weight
  {
    if ws != [] {
      var n := |ws| - 1;
      var init := ws[..n];
      WeightMapLastWins(init, d);
      if ws[n].domain == d {
        assert IsLastFor(ws, n, d);
        assert forall i: nat :: IsLastFor(ws, i, d) ==> i == n;
      } else {
        assert forall i: nat :: IsLastFor(ws, i, d) <==> IsLastFor(init, i, d);
      }
    }
  }

  // ----- weighted average over domains with positive weight -----

  predicate Counted(m: map<string, real>, d: string) {
    d in m && m[d] > 0.0
  }

  function WeightOf(d: DomainScore, m: map<string, real>): real {
    if Counted(m, d.domain) then m[d.domain] else 0.0
  }

  /** A domain's part in the weighted sum: its score times its weight, nothing for an unweighted domain. */
  function Share(d: DomainScore, m: map<string, real>): real {
    if Counted(m, d.domain) then d.score * m[d.domain] else 0.0
  }

  function WeightedTotal(ds: seq<DomainScore>, m: map<string, real>): real {
    if ds == [] then 0.0
    else WeightedTotal(ds[..|ds| - 1], m) + Share(ds[|ds| - 1], m)
  }

  function WeightTotal(ds: seq<DomainScore>, m: map<string, real>): real {
    if ds == [] then 0.0
    else WeightTotal(ds[..|ds| - 1], m) + WeightOf(ds[|ds| - 1], m)
  }

  function WeightedMean(ds: seq<DomainScore>, m: map<string, real>): real {
    if WeightTotal(ds, m) == 0.0 then 0.0 else WeightedTotal(ds, m) / WeightTotal(ds, m)
  }

  method AccumulateWeighted(ds: seq<DomainScore>, wMap: map<string, real>) returns (sum: real, totalWeight: real)
    ensures sum == WeightedTotal(ds, wMap) && totalWeight == WeightTotal(ds, wMap)
  {
    sum, totalWeight := 0.0, 0.0;
    for i := 0 to |ds|
      invariant sum == WeightedTotal(ds[..i], wMap) && totalWeight == WeightTotal(ds[..i], wMap)
    {
      if ds[i].domain in wMap && wMap[ds[i].domain] > 0.0 {
        sum := sum + ds[i].score * wMap[ds[i].domain];
        totalWeight := totalWeight + wMap[ds[i].domain];
      }
      assert ds[..i + 1][..i] == ds[..i];
    }
    assert ds[..|ds|] == ds;
  }

  /** The total weight vanishes exactly when no scored domain has a positive weight. */
  lemma {:induction false} WeightTotalPositiveIff(ds: seq<DomainScore>, m: map<string, real>)
    ensures WeightTotal(ds, m) >= 0.0
    ensures WeightTotal(ds, m) > 0.0 <==> exists i :: 0 <= i < |ds| && Counted(m, ds[i].domain)
  {
    if ds != [] {
      var n := |ds| - 1;
      WeightTotalPositiveIff(ds[..n], m);
      assert (exists i :: 0 <= i < |ds| && Counted(m, ds[i].domain)) <==>
        Counted(m, ds[n].domain) || exists i :: 0 <= i < n && Counted(m, ds[..n][i].domain);
    }
  }

  /** Same domains in the same order, every score at most its counterpart. */
  ghost predicate NoBetter(worse: seq<DomainScore>, better: seq<DomainScore>) {
    && |worse| == |better|
    && forall i :: 0 <= i < |worse| ==> worse[i].domain == better[i].domain && worse[i].score <= better[i].score
  }

  lemma ShareMonotone(worse: DomainScore, better: DomainScore, m: map<string, real>)
    requires worse.domain == better.domain && worse.score <= better.score
    ensures WeightOf(worse, m) == WeightOf(better, m) && Share(worse, m) <= Share(better, m)
  {
    if Counted(m, worse.domain) { MulMonotone(worse.score, better.score, m[worse.domain]); }
  }

  lemma {:induction false} TotalsMonotone(worse: seq<DomainScore>, better: seq<DomainScore>, m: map<string, real>)
    requires NoBetter(worse, better)
    ensures WeightTotal(worse, m) == WeightTotal(better, m)
    ensures WeightedTotal(worse, m) <= WeightedTotal(better, m)
  {
    if worse != [] {
      var n := |worse| - 1;
      TotalsMonotone(worse[..n], better[..n], m);
      ShareMonotone(worse[n], better[n], m);
      hide Share, WeightOf;
    }
  }

  /** Lowering domain scores never raises the weighted mean. */
  lemma MeanMonotone(worse: seq<DomainScore>, better: seq<DomainScore>, m: map<string, real>)
    requires NoBetter(worse, better)
    ensures WeightedMean(worse, m) <= WeightedMean(better, m)
  {
    TotalsMonotone(worse, better, m);
    WeightTotalPositiveIff(better, m);
    if WeightTotal(better, m) > 0.0 {
      DivMonotone(WeightedTotal(worse, m), WeightedTotal(better, m), WeightTotal(better, m));
    }
  }

  lemma ShareBounds(d: DomainScore, m: map<string, real>, lo: real, hi: real)
    requires lo <= d.score <= hi
    ensures Times(lo, WeightOf(d, m)) <= Share(d, m) <= Times(hi, WeightOf(d, m))
  {
    if Counted(m, d.domain) {
      MulMonotone(lo, d.score, m[d.domain]);
      MulMonotone(d.score, hi, m[d.domain]);
    }
  }

  lemma {:induction false} TotalsBounded(ds: seq<DomainScore>, m: map<string, real>, lo: real, hi: real)
    requires forall i :: 0 <= i < |ds| ==> lo <= ds[i].score <= hi
    ensures Times(lo, WeightTotal(ds, m)) <= WeightedTotal(ds, m) <= Times(hi, WeightTotal(ds, m))
  {
    if ds != [] {
      var n := |ds| - 1;
      var t, x := WeightTotal(ds[..n], m), WeightedTotal(ds[..n], m);
      var w, s := WeightOf(ds[n], m), Share(ds[n], m);
      assert WeightTotal(ds, m) == t + w && WeightedTotal(ds, m) == x + s;
      TotalsBounded(ds[..n], m, lo, hi);
      hide Share, WeightOf, Times;
      ShareBounds(ds[n], m, lo, hi);
      TimesAdd(lo, t, w);
      TimesAdd(hi, t, w);
    }
  }

  /** The mean of counted domains lies within any range that holds all their scores. */
  lemma MeanBounded(ds: seq<DomainScore>, m: map<string, real>, lo: real, hi: real)
    requires forall i :: 0 <= i < |ds| ==> lo <= ds[i].score <= hi
    ensures WeightTotal(ds, m) > 0.0 ==> lo <= WeightedMean(ds, m) <= hi
    ensures WeightTotal(ds, m) <= 0.0 ==> WeightedMean(ds, m) == 0.0
  {
    hide Times;
    TotalsBounded(ds, m, lo, hi);
    WeightTotalPositiveIff(ds, m);
    var t := WeightTotal(ds, m);
    if t > 0.0 {
      DivideTimes(lo, WeightedTotal(ds, m), hi, t);
    }
  }

  /** How far the counted scores lie above `c`, weighted. */
  function Deviation(ds: seq<DomainScore>, m: map<string, real>, c: real): real {
    if ds == [] then 0.0
    else
      var d := ds[|ds| - 1];
      Deviation(ds[..|ds| - 1], m, c)
      + if d.domain in m && m[d.domain] > 0.0 then Times(m[d.domain], d.score - c) else 0.0
  }

  lemma DeviationShare(d: DomainScore, m: map<string, real>, c: real)
    ensures Times(c, WeightOf(d, m))
            + (if d.domain in m && m[d.domain] > 0.0 then Times(m[d.domain], d.score - c) else 0.0)
            == Share(d, m)
  {
    if Counted(m, d.domain) {
      TimesAdd(m[d.domain], d.score, -c);
      assert Times(m[d.domain], -c) == -Times(c, m[d.domain]) && Times(m[d.domain], d.score) == d.score * m[d.domain];
    }
  }

  lemma {:induction false} DeviationIs(ds: seq<DomainScore>, m: map<string, real>, c: real)
    ensures Deviation(ds, m, c) + Times(c, WeightTotal(ds, m)) == WeightedTotal(ds, m)
  {
    if ds == [] {
      assert Times(c, 0.0) == 0.0;
    } else {
      var n := |ds| - 1;
      DeviationIs(ds[..n], m, c);
      DeviationShare(ds[n], m, c);
      TimesAdd(c, WeightTotal(ds[..n], m), WeightOf(ds[n], m));
      hide Times, Share, WeightOf;
    }
  }

  /** The mean of counted domains is the one point at which their weighted deviations cancel out. */
  lemma MeanBalancesIff(ds: seq<DomainScore>, m: map<string, real>, c: real)
    requires exists i :: 0 <= i < |ds| && ds[i].domain in m && m[ds[i].domain] > 0.0
    ensures Deviation(ds, m, c) == 0.0 <==> c == WeightedMean(ds, m)
  {
    DeviationIs(ds, m, c);
    WeightTotalPositiveIff(ds, m);
    assert exists i :: 0 <= i < |ds| && Counted(m, ds[i].domain);
    hide Deviation, WeightedTotal, WeightTotal;
    QuotientIff(c, WeightedTotal(ds, m), WeightTotal(ds, m));
  }

  lemma QuotientIff(c: real, x: real, t: real)
    requires t > 0.0
    ensures c == x / t <==> Times(c, t) == x
  {
    if c * t == x { DivUnique(c, x, t); }
  }

  // ----- edge factors -----

  /** Only active factors strictly between 0 and 1 take part in the product. */
  predicate Effective(f: EdgeFactorResult) {
    f.active && 0.0 < f.factor < 1.0
  }

  function Contribution(f: EdgeFactorResult): (c: real)
    ensures 0.0 < c <= 1.0
  {
    if Effective(f) then f.factor else 1.0
  }

  function ProductChain(fs: seq<EdgeFactorResult>): real {
    if fs == [] then 1.0
    else ProductChain(fs[..|fs| - 1]) * Contribution(fs[|fs| - 1])
  }

  /** The default synthesis strategy. */
  method EvalProductChain(factors: seq<EdgeFactorResult>) returns (result: real)
    ensures result == ProductChain(factors)
  {
    result := 1.0;
    for i := 0 to |factors|
      invariant result == ProductChain(factors[..i])
    {
      if factors[i].active && factors[i].factor > 0.0 && factors[i].factor < 1.0 {
        result := result * factors[i].factor;
      }
      assert factors[..i + 1][..i] == factors[..i];
    }
    assert factors[..|factors|] == factors;
  }

  lemma {:induction false} ProductChainRange(fs: seq<EdgeFactorResult>)
    ensures 0.0 < ProductChain(fs) <= 1.0
  {
    if fs != [] {
      var n := |fs| - 1;
      ProductChainRange(fs[..n]);
      MulMonotone(ProductChain(fs[..n]), 1.0, Contribution(fs[n]));
    }
  }

  /** A product: one for no factor, the factor itself for one that is active and strictly between 0 and 1 and one for
      any other, and multiplied where lists are joined. */
  lemma ChainMultiplies(fs: seq<EdgeFactorResult>, gs: seq<EdgeFactorResult>, f: EdgeFactorResult)
    ensures ProductChain([]) == 1.0
    ensures ProductChain([f]) == if f.active && 0.0 < f.factor < 1.0 then f.factor else 1.0
    ensures ProductChain(fs + gs) == Times(ProductChain(fs), ProductChain(gs))
  {
    assert [f][..0] == [];
    ChainSplits(fs, gs);
  }

  lemma ChainSnoc(fs: seq<EdgeFactorResult>)
    requires fs != []
    ensures ProductChain(fs) == Times(ProductChain(fs[..|fs| - 1]), Contribution(fs[|fs| - 1]))
  {
    hide Contribution;
  }

  lemma {:induction false} ChainSplits(fs: seq<EdgeFactorResult>, gs: seq<EdgeFactorResult>)
    ensures ProductChain(fs + gs) == Times(ProductChain(fs), ProductChain(gs))
  {
    if gs == [] {
      assert fs + gs == fs && Times(ProductChain(fs), 1.0) == ProductChain(fs);
    } else {
      var n := |gs| - 1;
      ChainSplits(fs, gs[..n]);
      assert (fs + gs)[..|fs + gs| - 1] == fs + gs[..n];
      ChainSnoc(fs + gs);
      ChainSnoc(gs);
      hide ProductChain, Times, Contribution;
      TimesAssociates(ProductChain(fs), ProductChain(gs[..n]), Contribution(gs[n]));
    }
  }

  /** Lowering contributions, factor by factor, never raises the product. */
  lemma {:induction false} ProductChainMonotone(worse: seq<EdgeFactorResult>, better: seq<EdgeFactorResult>)
    requires |worse| == |better|
    requires forall i :: 0 <= i < |worse| ==> Contribution(worse[i]) <= Contribution(better[i])
    ensures ProductChain(worse) <= ProductChain(better)
  {
    if worse != [] {
      var n := |worse| - 1;
      ProductChainMonotone(worse[..n], better[..n]);
      ProductChainRange(better[..n]);
      var p, q := ProductChain(worse[..n]), ProductChain(better[..n]);
      ProductChainRange(worse[..n]);
      MulBoth(p, q, Contribution(worse[n]), Contribution(better[n]));
    }
  }

  /** The multiplier a (possibly injected) strategy yields. */
  function StrategyValue(fs: seq<EdgeFactorResult>, hooks: Hooks): real {
    match hooks.strategy
    case None => ProductChain(fs)
    case Some(s) => s(fs)
  }

  method ApplyEdgeFactorStrategy(factors: seq<EdgeFactorResult>, hooks: Hooks) returns (r: real)
    ensures r == StrategyValue(factors, hooks)
  {
    match hooks.strategy {
      case None => r := EvalProductChain(factors);
      case Some(s) => r := s(factors);
    }
  }

  /** Multiplying the base by one factor after another is multiplying it by the strategy's value once. */
  method ApplyEdgeFactorStrategyToBase(base0: real, factors: seq<EdgeFactorResult>, hooks: Hooks) returns (base: real)
    ensures base == base0 * StrategyValue(factors, hooks)
  {
    base := base0;
    if hooks.strategy.Some? {
      return base * hooks.strategy.value(factors);
    }
    for i := 0 to |factors|
      invariant base == base0 * ProductChain(factors[..i])
    {
      if factors[i].active && factors[i].factor > 0.0 && factors[i].factor < 1.0 {
        base := base * factors[i].factor;
      }
      assert factors[..i + 1][..i] == factors[..i];
    }
    assert factors[..|factors|] == factors;
  }

  function ApplyDomainAdjust(ds: seq<DomainScore>, fs: seq<EdgeFactorResult>, hooks: Hooks): seq<DomainScore> {
    match hooks.domainAdjust
    case None => ds
    case Some(f) => f(ds, fs)
  }
}
