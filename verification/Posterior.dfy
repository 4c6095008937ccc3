/** The spread of the final score, its 95% interval and the acceptability rule. */
module Posterior {
  import opened SsamTypes
  import opened RealLemmas
  import opened Aggregation
  import opened Confidence

  function VarianceShare(d: DomainScore, m: map<string, real>): real {
    if Counted(m, d.domain) then Times(Square(m[d.domain]), d.variance) else 0.0
  }

  function VarianceTotal(ds: seq<DomainScore>, m: map<string, real>): real {
    if ds == [] then 0.0
    else VarianceTotal(ds[..|ds| - 1], m) + VarianceShare(ds[|ds| - 1], m)
  }

  /** Independent domains: the squared weights times the variances over the squared total, through the half
      weight of the intrinsic layer. */
  function FinalVariance(ds: seq<DomainScore>, m: map<string, real>): real {
    if WeightTotal(ds, m) <= 0.0 then 0.0
    else
      SquarePositive(WeightTotal(ds, m));
      (0.25 * VarianceTotal(ds, m)) / Square(WeightTotal(ds, m))
  }

  predicate HasVariances(ds: seq<DomainScore>) {
    forall i :: 0 <= i < |ds| ==> ds[i].variance >= 0.0
  }

  lemma HalfOver(s: real, w: real)
    requires w > 0.0
    ensures Square(w) > 0.0 && Square(0.5 * s / w) == (0.25 * Square(s)) / Square(w)
  {
    SquarePositive(w);
    var q := 0.5 * s / w;
    assert q * w == 0.5 * s;
    SquareOfProduct(q, w);
    assert Square(q * w) == 0.25 * Square(s);
    DivUnique(Square(q), 0.25 * Square(s), Square(w));
  }

  lemma {:induction false} VarianceTotalNonNegative(ds: seq<DomainScore>, m: map<string, real>)
    requires HasVariances(ds)
    ensures VarianceTotal(ds, m) >= 0.0
  {
    hide VarianceShare;
    if ds != [] {
      VarianceTotalNonNegative(ds[..|ds| - 1], m);
      VarianceShareNonNegative(ds[|ds| - 1], m);
    }
  }

  lemma VarianceShareNonNegative(d: DomainScore, m: map<string, real>)
    requires d.variance >= 0.0
    ensures VarianceShare(d, m) >= 0.0
  {
    if Counted(m, d.domain) {
      SquarePositive(m[d.domain]);
      hide Square, Times;
      TimesPositive(Square(m[d.domain]), d.variance);
    }
  }

  /** The square of a domain's weighted sigma is its part of the variance. */
  lemma WeightedSigmaSquared(w: real, sigma: real, variance: real)
    requires Square(sigma) == variance
    ensures (w * sigma) * (w * sigma) == Times(Square(w), variance)
  {
    SquareOfProduct(w, sigma);
  }

  method VarianceSum(domains: seq<DomainScore>, wMap: map<string, real>, sqrt: real -> real)
    returns (varSum: real, totalWeight: real)
    requires IsRoot(sqrt) && HasVariances(domains)
    ensures varSum == VarianceTotal(domains, wMap) && totalWeight == WeightTotal(domains, wMap)
  {
    hide Square, Times;
    varSum, totalWeight := 0.0, 0.0;
    for i := 0 to |domains|
      invariant varSum == VarianceTotal(domains[..i], wMap) && totalWeight == WeightTotal(domains[..i], wMap)
    {
      var ds := domains[i];
      assert domains[..i + 1][..i] == domains[..i];
      if ds.domain !in wMap || wMap[ds.domain] <= 0.0 {
        continue;
      }
      var w, sigma := wMap[ds.domain], sqrt(ds.variance);
      WeightedSigmaSquared(w, sigma, ds.variance);
      totalWeight := totalWeight + w;
      varSum := varSum + (w * sigma) * (w * sigma);
    }
    assert domains[..|domains|] == domains;
  }

  lemma FinalVarianceNonNegative(ds: seq<DomainScore>, m: map<string, real>)
    requires HasVariances(ds)
    ensures FinalVariance(ds, m) >= 0.0
  {
    VarianceTotalNonNegative(ds, m);
    var w := WeightTotal(ds, m);
    if w > 0.0 {
      SquarePositive(w);
      NonNegativeQuotient(0.25 * VarianceTotal(ds, m), Square(w));
    }
  }

  /** Variances of further domains add up, each with the square of its weight; only weighted domains count. */
  lemma OneMoreDomainVaries(ds: seq<DomainScore>, d: DomainScore, m: map<string, real>)
    requires d.domain in m && m[d.domain] > 0.0
    ensures var w, t := m[d.domain], WeightTotal(ds, m);
            && WeightTotal(ds + [d], m) == t + w > 0.0
            && Times(FinalVariance(ds + [d], m), Square(t + w)) == Times(FinalVariance(ds, m), Square(t))
               + 0.25 * Times(Square(w), d.variance)
  {
    var all := ds + [d];
    assert all[..|all| - 1] == ds && Counted(m, d.domain);
    WeightTotalPositiveIff(ds, m);
    VarianceScaled(ds, m);
    VarianceScaled(all, m);
    hide Times, Square, FinalVariance, Counted;
  }

  lemma VarianceScaled(ds: seq<DomainScore>, m: map<string, real>)
    ensures Times(FinalVariance(ds, m), Square(WeightTotal(ds, m))) == 0.25 * VarianceTotal(ds, m)
  {
    WeightTotalPositiveIff(ds, m);
    var w := WeightTotal(ds, m);
    assert Square(0.0) == 0.0 && Times(0.0, 0.0) == 0.0;
    hide Square, VarianceTotal, WeightTotal, Times;
    if w > 0.0 {
      SquarePositive(w);
      TimesUndoesDivision(0.25 * VarianceTotal(ds, m), Square(w));
    } else {
      NothingVaries(ds, m);
    }
  }

  lemma {:induction false} NothingVaries(ds: seq<DomainScore>, m: map<string, real>)
    requires forall i :: 0 <= i < |ds| ==> !Counted(m, ds[i].domain)
    ensures VarianceTotal(ds, m) == 0.0
  {
    if ds != [] { NothingVaries(ds[..|ds| - 1], m); }
  }

  /** The standard deviation of the final score is the root of its variance. */
  function FinalSigma(ds: seq<DomainScore>, m: map<string, real>, sqrt: real -> real): real {
    sqrt(FinalVariance(ds, m))
  }

  /** What the code divides out, half the root of the weighted variances over the total weight, is that root. */
  lemma QuotientIsSigma(ds: seq<DomainScore>, m: map<string, real>, sqrt: real -> real)
    requires IsRoot(sqrt) && HasVariances(ds)
    ensures FinalSigma(ds, m, sqrt) >= 0.0 && Square(FinalSigma(ds, m, sqrt)) == FinalVariance(ds, m)
    ensures FinalSigma(ds, m, sqrt) ==
            if WeightTotal(ds, m) <= 0.0 then 0.0 else 0.5 * sqrt(VarianceTotal(ds, m)) / WeightTotal(ds, m)
  {
    FinalVarianceNonNegative(ds, m);
    VarianceTotalNonNegative(ds, m);
    var w, sigma := WeightTotal(ds, m), FinalSigma(ds, m, sqrt);
    if w > 0.0 {
      var root := sqrt(VarianceTotal(ds, m));
      HalfOver(root, w);
      NonNegativeQuotient(0.5 * root, w);
      RootUnique(sigma, 0.5 * root / w);
    } else {
      assert Square(0.0) == 0.0;
      RootUnique(sigma, 0.0);
    }
  }

  method FinalBayesStats(weights: seq<WeightConfig>, domains: seq<DomainScore>, sqrt: real -> real)
    returns (sigma: real)
    requires IsRoot(sqrt) && HasVariances(domains)
    ensures sigma == FinalSigma(domains, WeightMap(weights), sqrt)
    ensures sigma >= 0.0 && Square(sigma) == FinalVariance(domains, WeightMap(weights))
  {
    var wMap := BuildWeightMap(weights);
    var varSum, totalWeight := VarianceSum(domains, wMap, sqrt);
    QuotientIsSigma(domains, wMap, sqrt);
    WeightTotalPositiveIff(domains, wMap);
    hide Square, FinalVariance, FinalSigma, VarianceTotal, WeightTotal;
    if totalWeight == 0.0 {
      return 0.0;
    }
    sigma := 0.5 * sqrt(varSum) / totalWeight;
  }

  lemma NonNegativeQuotient(x: real, w: real)
    requires x >= 0.0 && w > 0.0
    ensures x / w >= 0.0
  {
    assert 0.0 / w == 0.0;
    DivMonotone(0.0, x, w);
  }

  // ----- the interval -----

  function LowerBound(point: real, sigma: real): real {
    Max(point - 1.96 * Max(sigma, 0.0), 0.0)
  }

  function UpperBound(point: real, sigma: real): real {
    point + 1.96 * Max(sigma, 0.0)
  }

  method ConfidenceInterval(point: real, sigma: real) returns (lower95: real, upper95: real)
    ensures lower95 == LowerBound(point, sigma) && upper95 == UpperBound(point, sigma)
  {
    var s := sigma;
    if s < 0.0 {
      s := 0.0;
    }
    var half := 1.96 * s;
    lower95, upper95 := point - half, point + half;
    if lower95 < 0.0 {
      lower95 := 0.0;
    }
  }

  /** The interval contains its point estimate exactly when the point is not negative; the upper end is never cut. */
  lemma IntervalHoldsPointIff(point: real, sigma: real)
    ensures LowerBound(point, sigma) <= point <= UpperBound(point, sigma) <==> point >= 0.0
    ensures LowerBound(point, sigma) <= UpperBound(point, sigma) <==> point + 1.96 * Max(sigma, 0.0) >= 0.0
  {
  }

  /** 1.96 sigmas to either side, except that the lower end is never negative; a negative sigma counts as none. */
  lemma IntervalEnds(point: real, sigma: real)
    ensures sigma >= 0.0 ==> UpperBound(point, sigma) - point == 1.96 * sigma
    ensures sigma >= 0.0 && point >= 1.96 * sigma ==> point - LowerBound(point, sigma) == 1.96 * sigma
    ensures sigma >= 0.0 && point < 1.96 * sigma ==> LowerBound(point, sigma) == 0.0
    ensures sigma < 0.0 ==> UpperBound(point, sigma) == point && LowerBound(point, sigma) == Max(point, 0.0)
  {
  }

  predicate AcceptanceDecision(point: real, lower95: real, threshold: real, byLowerBound: bool) {
    if byLowerBound then lower95 >= threshold else point >= threshold
  }

  /** Accepting by the lower bound is the stricter rule, and stricter the wider the interval, for points that
      are not negative or thresholds that are positive. */
  lemma LowerBoundIsStricter(point: real, sigma: real, sigma': real, threshold: real)
    requires sigma <= sigma' && (point >= 0.0 || threshold > 0.0)
    requires AcceptanceDecision(point, LowerBound(point, sigma'), threshold, true)
    ensures AcceptanceDecision(point, LowerBound(point, sigma), threshold, true)
    ensures AcceptanceDecision(point, LowerBound(point, sigma), threshold, false)
  {
  }

  /** With no spread the two rules agree, unless a negative point is compared with a threshold between it and zero. */
  lemma DegenerateRulesAgreeIff(point: real, threshold: real)
    ensures AcceptanceDecision(point, LowerBound(point, 0.0), threshold, true)
            == AcceptanceDecision(point, LowerBound(point, 0.0), threshold, false)
            <==> !(point < threshold <= 0.0)
  {
  }

  // ----- node confidence -----

  /** The domains with their evidence confidence in the place of the score. */
  function ByConfidence(ds: seq<DomainScore>): seq<DomainScore> {
    seq(|ds|, i requires 0 <= i < |ds| => ds[i].(score := ds[i].confidence))
  }

  lemma {:induction false} SameWeights(ds: seq<DomainScore>, m: map<string, real>)
    ensures WeightTotal(ByConfidence(ds), m) == WeightTotal(ds, m)
  {
    if ds != [] {
      var n := |ds| - 1;
      SameWeights(ds[..n], m);
      assert ByConfidence(ds)[..n] == ByConfidence(ds[..n]);
    }
  }

  function NodeConfidence(ds: seq<DomainScore>, m: map<string, real>): real {
    if WeightTotal(ds, m) == 0.0 then 1.0 else WeightedMean(ByConfidence(ds), m)
  }

  function ConfidenceTotal(ds: seq<DomainScore>, m: map<string, real>): real {
    if ds == [] then 0.0
    else
      var d := ds[|ds| - 1];
      ConfidenceTotal(ds[..|ds| - 1], m) + if Counted(m, d.domain) then d.confidence * m[d.domain] else 0.0
  }

  lemma {:induction false} ConfidenceTotalRates(ds: seq<DomainScore>, m: map<string, real>)
    ensures WeightedTotal(ByConfidence(ds), m) == ConfidenceTotal(ds, m)
  {
    if ds != [] {
      var n := |ds| - 1;
      ConfidenceTotalRates(ds[..n], m);
      assert ByConfidence(ds)[..n] == ByConfidence(ds[..n]);
    }
  }

  /** The node confidence is where the weighted deviations of the domains' confidences cancel out. */
  lemma NodeConfidenceBalances(ds: seq<DomainScore>, m: map<string, real>)
    ensures Deviation(ByConfidence(ds), m, NodeConfidence(ds, m)) == 0.0
    ensures (forall i :: 0 <= i < |ds| ==> !(ds[i].domain in m && m[ds[i].domain] > 0.0)) ==>
            NodeConfidence(ds, m) == 1.0
  {
    var cs := ByConfidence(ds);
    SameWeights(ds, m);
    WeightTotalPositiveIff(ds, m);
    assert forall i :: 0 <= i < |ds| ==> cs[i].domain == ds[i].domain;
    if WeightTotal(ds, m) == 0.0 {
      NoDeviation(cs, m, 1.0);
    } else {
      var i :| 0 <= i < |ds| && Counted(m, ds[i].domain);
      assert cs[i].domain in m && m[cs[i].domain] > 0.0;
      MeanBalancesIff(cs, m, WeightedMean(cs, m));
    }
  }

  lemma {:induction false} NoDeviation(ds: seq<DomainScore>, m: map<string, real>, c: real)
    requires forall i :: 0 <= i < |ds| ==> !Counted(m, ds[i].domain)
    ensures Deviation(ds, m, c) == 0.0
  {
    if ds != [] { NoDeviation(ds[..|ds| - 1], m, c); }
  }

  method SumConfidence(domains: seq<DomainScore>, wMap: map<string, real>) returns (acc: real, total: real)
    ensures acc == ConfidenceTotal(domains, wMap) && total == WeightTotal(domains, wMap)
  {
    acc, total := 0.0, 0.0;
    for i := 0 to |domains|
      invariant acc == ConfidenceTotal(domains[..i], wMap) && total == WeightTotal(domains[..i], wMap)
    {
      var ds := domains[i];
      assert domains[..i + 1][..i] == domains[..i];
      if ds.domain !in wMap || wMap[ds.domain] <= 0.0 {
        continue;
      }
      acc := acc + ds.confidence * wMap[ds.domain];
      total := total + wMap[ds.domain];
    }
    assert domains[..|domains|] == domains;
  }

  method AggregateNodeConfidence(weights: seq<WeightConfig>, domains: seq<DomainScore>) returns (r: real)
    ensures r == NodeConfidence(domains, WeightMap(weights))
  {
    var wMap := BuildWeightMap(weights);
    var acc, total := SumConfidence(domains, wMap);
    SameWeights(domains, wMap);
    ConfidenceTotalRates(domains, wMap);
    hide WeightedTotal, WeightTotal, ByConfidence, ConfidenceTotal;
    if total == 0.0 {
      return 1.0;
    }
    r := acc / total;
  }

  /** A node is trusted no less than its least trusted domain and never more than fully. */
  lemma NodeConfidenceWithin(ds: seq<DomainScore>, m: map<string, real>, lo: real)
    requires lo <= 1.0 && forall i :: 0 <= i < |ds| ==> lo <= ds[i].confidence <= 1.0
    ensures lo <= NodeConfidence(ds, m) <= 1.0
  {
    SameWeights(ds, m);
    WeightTotalPositiveIff(ds, m);
    MeanBounded(ByConfidence(ds), m, lo, 1.0);
  }

  // ----- the statistics attached to an assessment -----

  datatype Stats = Stats(finalSigma: real, lower95: real, upper95: real, evidenceConfidence: real)

  function StatsOf(ws: seq<WeightConfig>, ds: seq<DomainScore>, finalScore: real, sqrt: real -> real): Stats {
    var sigma := FinalSigma(ds, WeightMap(ws), sqrt);
    Stats(sigma, LowerBound(finalScore, sigma), UpperBound(finalScore, sigma), NodeConfidence(ds, WeightMap(ws)))
  }

  /** Attaches spread, interval and node confidence to a final score. */
  method FillPosterior(weights: seq<WeightConfig>, domainScores: seq<DomainScore>, finalScore: real, sqrt: real -> real)
    returns (stats: Stats)
    requires IsRoot(sqrt) && HasVariances(domainScores)
    ensures stats == StatsOf(weights, domainScores, finalScore, sqrt)
    ensures stats.finalSigma >= 0.0 && Square(stats.finalSigma) == FinalVariance(domainScores, WeightMap(weights))
    ensures stats.lower95 == Max(0.0, finalScore - 1.96 * stats.finalSigma)
            && stats.upper95 == finalScore + 1.96 * stats.finalSigma
    ensures stats.evidenceConfidence == NodeConfidence(domainScores, WeightMap(weights))
  {
    hide FinalVariance, NodeConfidence, Square, FinalSigma;
    var sigma := FinalBayesStats(weights, domainScores, sqrt);
    var lower, upper := ConfidenceInterval(finalScore, sigma);
    var confidence := AggregateNodeConfidence(weights, domainScores);
    stats := Stats(sigma, lower, upper, confidence);
  }

  lemma {:induction false} DeductionVarianceNonNegative(domain: string, checks: seq<CheckInput>,
                                                        policy: ConfidencePolicy)
    ensures DeductionVariance(domain, checks, policy) >= 0.0
  {
    if checks != [] {
      DeductionVarianceNonNegative(domain, checks[..|checks| - 1], policy);
      CheckVarianceNonNegative(checks[|checks| - 1], domain, policy);
      hide CheckVariance;
    }
  }

  lemma CheckVarianceNonNegative(c: CheckInput, domain: string, policy: ConfidencePolicy)
    ensures CheckVariance(c, domain, policy) >= 0.0
  {
    var k := EffectiveConfidence(c.confidence, policy);
    EffectiveConfidenceRange(c.confidence, policy);
    MulNonNegative(k, 1.0 - k);
    SquareNonNegative(Abs(c.delta));
    hide Square, EffectiveConfidence;
    MulNonNegative(Square(Abs(c.delta)), Spread(k));
  }

  /** The domain scores of any assessment have the variances the statistics need. */
  lemma AssessmentsHaveVariances(ws: seq<WeightConfig>, checks: seq<CheckInput>, policy: ConfidencePolicy)
    ensures HasVariances(DomainScores(ws, checks, policy))
  {
    var ds := DomainScores(ws, checks, policy);
    hide DeductionVariance, Deduction, DeltaTotal, ActiveDomains;
    forall i | 0 <= i < |ds| ensures ds[i].variance >= 0.0 {
      DeductionVarianceNonNegative(ds[i].domain, checks, policy);
    }
  }

  // ----- across the scoring path -----

  /** Same domains in the same order, each variance at most its counterpart. */
  ghost predicate NoWider(a: seq<DomainScore>, b: seq<DomainScore>) {
    |a| == |b| && forall i :: 0 <= i < |a| ==> a[i].domain == b[i].domain && a[i].variance <= b[i].variance
  }

  lemma {:induction false} VarianceTotalMonotone(a: seq<DomainScore>, b: seq<DomainScore>, m: map<string, real>)
    requires NoWider(a, b)
    ensures VarianceTotal(a, m) <= VarianceTotal(b, m) && WeightTotal(a, m) == WeightTotal(b, m)
  {
    if a != [] {
      var n := |a| - 1;
      VarianceTotalMonotone(a[..n], b[..n], m);
      if Counted(m, a[n].domain) {
        var w := m[a[n].domain];
        SquareNonNegative(w);
        hide Square, Times;
        TimesMonotone(Square(w), a[n].variance, b[n].variance);
      }
    }
  }

  lemma FinalVarianceMonotone(a: seq<DomainScore>, b: seq<DomainScore>, m: map<string, real>)
    requires NoWider(a, b)
    ensures FinalVariance(a, m) <= FinalVariance(b, m)
  {
    VarianceTotalMonotone(a, b, m);
    var w := WeightTotal(a, m);
    if w > 0.0 {
      SquarePositive(w);
      hide Square;
      DivMonotone(0.25 * VarianceTotal(a, m), 0.25 * VarianceTotal(b, m), Square(w));
    }
  }

  /** Every failed check is trusted enough for shrinking not to widen its domain. */
  predicate AllTrustedEnough(checks: seq<CheckInput>, policy: ConfidencePolicy) {
    forall i :: 0 <= i < |checks| && !checks[i].passed ==> TrustedEnough(checks[i], policy)
  }

  /** Then switching the whole assessment to beta_bayes never raises a domain score and never widens the final
      spread. */
  lemma BetaNeverWidensInterval(ws: seq<WeightConfig>, checks: seq<CheckInput>, policy: ConfidencePolicy)
    requires !IsBetaBayes(policy) && AllTrustedEnough(checks, policy)
    ensures var beta, plain := DomainScores(ws, checks, WithBeta(policy)), DomainScores(ws, checks, policy);
            NoBetter(beta, plain) && FinalVariance(beta, WeightMap(ws)) <= FinalVariance(plain, WeightMap(ws))
  {
    var beta, plain := DomainScores(ws, checks, WithBeta(policy)), DomainScores(ws, checks, policy);
    hide FinalVariance, DeductionVariance, Deduction, ActiveDomains, TrustedEnough, DeltaTotal;
    forall i | 0 <= i < |beta|
      ensures beta[i].domain == plain[i].domain && beta[i].variance <= plain[i].variance
              && beta[i].score <= plain[i].score
    {
      BetaNeverRaisesVariance(beta[i].domain, checks, policy);
      BetaNeverRaisesScore(beta[i].domain, checks, policy);
    }
    FinalVarianceMonotone(beta, plain, WeightMap(ws));
  }

  lemma {:induction false} NoVarianceNoSpread(ds: seq<DomainScore>, m: map<string, real>)
    requires forall i :: 0 <= i < |ds| ==> ds[i].variance == 0.0
    ensures VarianceTotal(ds, m) == 0.0
  {
    if ds != [] { NoVarianceNoSpread(ds[..|ds| - 1], m); }
  }

  /** With the policy disabled no domain has any spread. */
  lemma DisabledHasNoSpread(ws: seq<WeightConfig>, checks: seq<CheckInput>, policy: ConfidencePolicy)
    requires !policy.enabled
    ensures FinalVariance(DomainScores(ws, checks, policy), WeightMap(ws)) == 0.0
  {
    var ds, m := DomainScores(ws, checks, policy), WeightMap(ws);
    forall i | 0 <= i < |ds| ensures ds[i].variance == 0.0 {
      DisabledPolicyIsLegacy(ds[i].domain, checks, policy);
      hide Deduction, DeltaTotal, DeductionVariance;
    }
    hide DomainScores, DomainScoreOf;
    NoVarianceNoSpread(ds, m);
    ZeroSpread(ds, m);
  }

  lemma ZeroSpread(ds: seq<DomainScore>, m: map<string, real>)
    requires VarianceTotal(ds, m) == 0.0
    ensures FinalVariance(ds, m) == 0.0
  {
    var w := WeightTotal(ds, m);
    hide VarianceTotal, WeightTotal;
    if w > 0.0 {
      SquarePositive(w);
      DivUnique(0.0, 0.0, Square(w));
    }
  }

  /** So the interval of a score that is not negative shrinks to the score. */
  lemma DisabledIntervalIsPoint(ws: seq<WeightConfig>, checks: seq<CheckInput>, policy: ConfidencePolicy, point: real,
                                sqrt: real -> real)
    requires !policy.enabled && point >= 0.0 && IsRoot(sqrt)
    ensures var stats := StatsOf(ws, DomainScores(ws, checks, policy), point, sqrt);
            stats.finalSigma == 0.0 && stats.lower95 == stats.upper95 == point
  {
    DisabledHasNoSpread(ws, checks, policy);
    hide DomainScores, FinalVariance;
    assert Square(0.0) == 0.0;
    RootUnique(sqrt(0.0), 0.0);
  }

  // ----- how the spread moves as evidence worsens -----

  /** A Bernoulli spread grows with the confidence exactly up to the mirror image of where it started. */
  lemma SpreadOrderIff(c: real, c': real)
    requires 0.0 <= c <= c' <= 1.0
    ensures Spread(c) <= Spread(c') <==> c == c' || c + c' <= 1.0
  {
    var d, e := c' - c, 1.0 - c - c';
    SpreadDifference(c, c');
    if d > 0.0 {
      ScaleOrder(d, 0.0, e);
      assert d * 0.0 == 0.0;
    }
    hide Spread;
  }

  lemma SpreadDifference(c: real, c': real)
    ensures Spread(c') - Spread(c) == (c' - c) * (1.0 - c - c')
  {
  }

  /** No failed check becomes so much more trusted that its own spread shrinks. */
  predicate SpreadsGrow(w: seq<CheckInput>, b: seq<CheckInput>, policy: ConfidencePolicy) {
    && |w| == |b|
    && forall i :: 0 <= i < |w| && !b[i].passed ==>
         var cw, cb := EffectiveConfidence(w[i].confidence, policy), EffectiveConfidence(b[i].confidence, policy);
         cw == cb || cw + cb <= 1.0
  }

  lemma BernoulliMonotone(s: real, c: real, c': real)
    requires Spread(c) <= Spread(c')
    ensures BernoulliVariance(s, c) <= BernoulliVariance(s, c')
  {
    SquareNonNegative(s);
    hide Square, Spread;
    MulMonotone(Spread(c), Spread(c'), Square(s));
  }

  lemma CheckVarianceGrows(w: CheckInput, b: CheckInput, domain: string, policy: ConfidencePolicy)
    requires WorseCheck(w, b)
    requires !b.passed ==>
               var cw, cb := EffectiveConfidence(w.confidence, policy), EffectiveConfidence(b.confidence, policy);
               cw == cb || cw + cb <= 1.0
    ensures CheckVariance(b, domain, policy) <= CheckVariance(w, domain, policy)
  {
    CheckVarianceNonNegative(w, domain, policy);
    if Deducts(b, domain) {
      WorseConfidence(w, b, policy);
      var cw, cb := EffectiveConfidence(w.confidence, policy), EffectiveConfidence(b.confidence, policy);
      EffectiveConfidenceRange(w.confidence, policy);
      EffectiveConfidenceRange(b.confidence, policy);
      hide EffectiveConfidence, BernoulliVariance, Spread;
      SpreadOrderIff(cb, cw);
      BernoulliMonotone(Abs(b.delta), cb, cw);
    }
  }

  lemma {:induction false} DeductionVarianceGrows(domain: string, w: seq<CheckInput>, b: seq<CheckInput>,
                                                  policy: ConfidencePolicy)
    requires WorseChecks(w, b) && SpreadsGrow(w, b, policy)
    ensures DeductionVariance(domain, b, policy) <= DeductionVariance(domain, w, policy)
  {
    hide CheckVariance, WorseCheck, EffectiveConfidence;
    if w != [] {
      var n := |w| - 1;
      DeductionVarianceGrows(domain, w[..n], b[..n], policy);
      CheckVarianceGrows(w[n], b[n], domain, policy);
    }
  }

  /** Worse evidence whose spreads grow never raises the lower bound. */
  lemma LowerBoundFalls(ws: seq<WeightConfig>, w: seq<CheckInput>, b: seq<CheckInput>, policy: ConfidencePolicy,
                        scoreW: real, scoreB: real, sqrt: real -> real)
    requires WorseChecks(w, b) && SpreadsGrow(w, b, policy) && scoreW <= scoreB && IsRoot(sqrt)
    ensures StatsOf(ws, DomainScores(ws, w, policy), scoreW, sqrt).lower95
            <= StatsOf(ws, DomainScores(ws, b, policy), scoreB, sqrt).lower95
  {
    var dw, db, m := DomainScores(ws, w, policy), DomainScores(ws, b, policy), WeightMap(ws);
    SameActiveDomains(ws, w, b);
    forall i | 0 <= i < |dw| ensures dw[i].domain == db[i].domain && db[i].variance <= dw[i].variance {
      DeductionVarianceGrows(dw[i].domain, w, b, policy);
      hide DeductionVariance, Deduction, DeltaTotal, SpreadsGrow, WorseChecks;
    }
    AssessmentsHaveVariances(ws, w, policy);
    AssessmentsHaveVariances(ws, b, policy);
    hide DomainScores, SpreadsGrow, WorseChecks, DomainScoreOf;
    FinalVarianceMonotone(db, dw, m);
    QuotientIsSigma(dw, m, sqrt);
    QuotientIsSigma(db, m, sqrt);
    hide FinalVariance, FinalSigma, Square;
    SquareOrder(FinalSigma(db, m, sqrt), FinalSigma(dw, m, sqrt));
  }
}
