/** Whether a host accepted on worse evidence was accepted on better: by the point always, by the lower end of
    the interval exactly under disabled confidence policies. */
module Acceptance {
  import opened Rounding
  import opened SsamTypes
  import opened RealLemmas
  import opened Aggregation
  import opened Confidence
  import opened EdgeFactors
  import opened Formulas
  import opened Ordering
  import opened Posterior
  import opened Scoring

  // ----- a host whose acceptance swings -----

  const SWING_CONFIG := ScoringConfig([WeightConfig("d", 1.0)], [], V20_ID, SWING_POLICY, true)
  const SWING_POLICY := ConfidencePolicy(true, 1.0, 0.05, 2.0, "weighted_evidence")

  /** A host with one failed check. */
  function SwingInput(threshold: real, impact: real, confidence: real): AssessmentInput {
    AssessmentInput("h", threshold, [CheckInput("c", "d", false, -impact, confidence)], 1.0, 1.0)
  }

  lemma SingleCheck(c: CheckInput, policy: ConfidencePolicy)
    requires Deducts(c, c.domain)
    ensures Deduction(c.domain, [c], policy) == Times(Abs(c.delta), EffectiveConfidence(c.confidence, policy))
    ensures DeltaTotal(c.domain, [c]) == Abs(c.delta)
    ensures DeductionVariance(c.domain, [c], policy)
            == BernoulliVariance(Abs(c.delta), EffectiveConfidence(c.confidence, policy))
    ensures ActiveDomains(SWING_CONFIG.weights, [c]) == {c.domain}
  {
    hide EffectiveConfidence, BernoulliVariance;
    assert [c][..0] == [];
  }

  lemma SwingDomain(threshold: real, impact: real, confidence: real, policy: ConfidencePolicy)
    requires 0.0 < impact <= 100.0
    ensures var e := EffectiveConfidence(confidence, policy);
            DomainScores(SWING_CONFIG.weights, SwingInput(threshold, impact, confidence).checks, policy)
            == [DomainScore("d", 100.0 - Times(impact, e), BernoulliVariance(impact, e), e)]
            && 0.0 <= 100.0 - Times(impact, e) <= 100.0
  {
    var c := SwingInput(threshold, impact, confidence).checks[0];
    var e := EffectiveConfidence(confidence, policy);
    EffectiveConfidenceRange(confidence, policy);
    SingleCheck(c, policy);
    TimesShrinks(impact, e);
    ShareOfImpact(impact, e);
    hide EffectiveConfidence, BernoulliVariance, Deduction, DeltaTotal, DeductionVariance, ActiveDomains, Times;
    assert Elements(["d"]) == {"d"};
    ListingIs(["d"], {"d"});
    assert DomainScoreOf("d", [c], policy)
      == DomainScore("d", 100.0 - Times(impact, e), BernoulliVariance(impact, e), e);
  }

  lemma ShareOfImpact(impact: real, e: real)
    requires impact > 0.0
    ensures Times(impact, e) / impact == e
  {
    DivUnique(e, impact * e, impact);
  }

  lemma SwingTotals(d: DomainScore)
    requires d.domain == "d"
    ensures var ds, m := [d], WeightMap(SWING_CONFIG.weights);
            && WeightTotal(ds, m) == 1.0 && WeightedMean(ds, m) == d.score && FinalVariance(ds, m) == 0.25 * d.variance
            && V20Total(ds, SWING_CONFIG.weights, RiskContext(1.0, 1.0, 1.0), [], DEFAULT_HOOKS)
               == SwingScore(d.score)
  {
    var ds, m := [d], WeightMap(SWING_CONFIG.weights);
    assert SWING_CONFIG.weights[..0] == [] && ds[..0] == [];
    assert m == map["d" := 1.0];
    assert WeightTotal(ds, m) == 1.0 && WeightedTotal(ds, m) == d.score;
    assert Square(1.0) == 1.0 && Times(1.0, d.variance) == d.variance;
    assert VarianceTotal(ds, m) == d.variance;
  }

  function SwingScore(domainScore: real): real {
    Round2(0.5 * Round2(domainScore) + 50.0)
  }

  lemma SwingScoreRange(x: real)
    requires 0.0 <= x <= 100.0
    ensures 50.0 <= SwingScore(x) <= 100.0
  {
    Round2OfWhole(0);
    Round2OfWhole(50);
    Round2OfWhole(100);
    Round2Monotone(0.0, x);
    Round2Monotone(x, 100.0);
    hide Round2;
    Round2Monotone(50.0, 0.5 * Round2(x) + 50.0);
    Round2Monotone(0.5 * Round2(x) + 50.0, 100.0);
  }

  /** What an assessment of that host comes to. */
  lemma SwingOutcome(threshold: real, impact: real, confidence: real, policy: ConfidencePolicy, sqrt: real -> real)
    requires IsRoot(sqrt) && 0.0 < threshold <= 100.0 && 0.0 < impact <= 100.0
    ensures var e := EffectiveConfidence(confidence, policy);
            var r := Assess(SWING_CONFIG, SwingInput(threshold, impact, confidence), policy, DEFAULT_HOOKS, sqrt,
                            map[]);
            && r.Scored? && r.output.finalScore == SwingScore(100.0 - Times(impact, e))
            && r.output.stats.finalSigma >= 0.0
            && Square(r.output.stats.finalSigma) == 0.25 * BernoulliVariance(impact, e)
            && r.output.stats.lower95 == LowerBound(r.output.finalScore, r.output.stats.finalSigma)
            && r.output.acceptable == (r.output.stats.lower95 >= threshold)
  {
    var checks := SwingInput(threshold, impact, confidence).checks;
    var ds, m := DomainScores(SWING_CONFIG.weights, checks, policy), WeightMap(SWING_CONFIG.weights);
    SwingDomain(threshold, impact, confidence, policy);
    SwingTotals(ds[0]);
    SwingScoreRange(ds[0].score);
    AssessmentsHaveVariances(SWING_CONFIG.weights, checks, policy);
    QuotientIsSigma(ds, m, sqrt);
    hide DomainScores, WeightedMean, WeightTotal, V20Total, SwingScore, SortedListing, EffectiveConfidence, Times,
      BernoulliVariance, FinalVariance, Square, FinalSigma, NodeConfidence;
    var none: set<string> := {};
    assert Elements(SortedListing(none)) == {};
    var fs := ListResults(FactorsById([]), checks, CustomFactors([]), policy, map[]);
    assert |fs| == 0;
    assert FormulaScore(V20_ID, ds, SWING_CONFIG.weights, 1.0, 1.0, [], DEFAULT_HOOKS) == SwingScore(ds[0].score);
  }

  /** Trusting the failed check more is worse evidence. */
  lemma SwingComparable(threshold: real, impact: real, c: real, c': real, policy: ConfidencePolicy)
    requires 0.0 < c <= c'
    ensures Comparable(SWING_CONFIG, SwingInput(threshold, impact, c').checks, SwingInput(threshold, impact, c).checks,
                       policy, map[], map[])
  {
    assert FactorsById([]) == map[];
    hide TriggerConf, EffectiveConfidence;
  }

  lemma SwingFigures()
    ensures Times(20.0, 1.0) == 20.0 && Times(20.0, 0.5) == 10.0
    ensures Square(0.0) == 0.25 * BernoulliVariance(20.0, 1.0) && Square(5.0) == 0.25 * BernoulliVariance(20.0, 0.5)
  {
  }

  lemma SwingConfidence(c: real)
    requires 0.05 <= c <= 1.0
    ensures EffectiveConfidence(c, SWING_POLICY) == c
  {
  }

  /** Fully trusting the one failed check lowers the score from 95 to 90, yet lifts the lower bound from 85.2 to 90, and
      so makes acceptable what was not. */
  lemma LowerBoundAcceptanceSwings(sqrt: real -> real)
    requires IsRoot(sqrt)
    ensures var w, b := SwingInput(88.0, 20.0, 1.0), SwingInput(88.0, 20.0, 0.5);
            var rw := Assess(SWING_CONFIG, w, SWING_POLICY, DEFAULT_HOOKS, sqrt, map[]);
            var rb := Assess(SWING_CONFIG, b, SWING_POLICY, DEFAULT_HOOKS, sqrt, map[]);
            && Comparable(SWING_CONFIG, w.checks, b.checks, SWING_POLICY, map[], map[]) && w == b.(checks := w.checks)
            && rw.Scored? && rb.Scored? && rw.output.finalScore == 90.0 && rb.output.finalScore == 95.0
            && rw.output.stats.lower95 == 90.0 && rb.output.stats.lower95 == 85.2
            && rw.output.acceptable && !rb.output.acceptable
  {
    SwingComparable(88.0, 20.0, 0.5, 1.0, SWING_POLICY);
    SwingConfidence(1.0);
    SwingConfidence(0.5);
    hide Assess, Comparable, EffectiveConfidence;
    SwingFigures();
    hide Times, Square, BernoulliVariance;
    SwingsTo(88.0, 20.0, 1.0, SWING_POLICY, 1.0, 40, 0.0, sqrt);
    SwingsTo(88.0, 20.0, 0.5, SWING_POLICY, 0.5, 45, 5.0, sqrt);
  }

  /** The outcome when the score is a whole number of points and the root of the variance is known. */
  lemma SwingsTo(threshold: real, impact: real, confidence: real, policy: ConfidencePolicy, e: real, points: int,
                 root: real, sqrt: real -> real)
    requires IsRoot(sqrt) && 0.0 < threshold <= 100.0 && 0.0 < impact <= 100.0
    requires e == EffectiveConfidence(confidence, policy) && 100.0 - Times(impact, e) == (2 * points) as real
    requires root >= 0.0 && Square(root) == 0.25 * BernoulliVariance(impact, e)
    ensures var r := Assess(SWING_CONFIG, SwingInput(threshold, impact, confidence), policy, DEFAULT_HOOKS, sqrt,
                            map[]);
            && r.Scored? && r.output.finalScore == (points + 50) as real
            && r.output.stats.lower95 == LowerBound((points + 50) as real, root)
            && r.output.acceptable == (r.output.stats.lower95 >= threshold)
  {
    hide Assess, EffectiveConfidence;
    SwingOutcome(threshold, impact, confidence, policy, sqrt);
    WholeSwingScore(points);
    hide SwingScore;
    var r := Assess(SWING_CONFIG, SwingInput(threshold, impact, confidence), policy, DEFAULT_HOOKS, sqrt, map[]);
    hide Square, BernoulliVariance, Times;
    RootUnique(r.output.stats.finalSigma, root);
  }

  lemma WholeSwingScore(points: int)
    ensures SwingScore((2 * points) as real) == (points + 50) as real
  {
    Round2OfWhole(2 * points);
    Round2OfWhole(points + 50);
  }

  // ----- and does so under every enabled policy -----

  /** Acceptance never improves when the evidence gets worse, under either rule. */
  ghost predicate AcceptanceFalls(policy: ConfidencePolicy, sqrt: real -> real) {
    forall config: ScoringConfig, inputB: AssessmentInput, w: seq<CheckInput>, ovW: map<string, real>,
      ovB: map<string, real> ::
      Comparable(config, w, inputB.checks, policy, ovW, ovB)
      && Assess(config, inputB, policy, DEFAULT_HOOKS, sqrt, ovB).Scored? ==>
        AcceptedNoMore(Assess(config, inputB.(checks := w), policy, DEFAULT_HOOKS, sqrt, ovW),
                       Assess(config, inputB, policy, DEFAULT_HOOKS, sqrt, ovB))
  }

  predicate AcceptedNoMore(rw: Outcome, rb: Outcome)
    requires rb.Scored?
  {
    rw.Scored? && (rw.output.acceptable ==> rb.output.acceptable)
  }

  /** A stated confidence that an enabled policy takes for high but not full trust. */
  function NearlySure(policy: ConfidencePolicy): real {
    if 0.9 < policy.floor < 1.0 then policy.floor else 0.9
  }

  lemma NearlySureIsUsed(policy: ConfidencePolicy)
    requires policy.enabled
    ensures 0.9 <= EffectiveConfidence(NearlySure(policy), policy) < 1.0 && EffectiveConfidence(1.0, policy) == 1.0
  {
    var c := NormalizeConfidence(NearlySure(policy), policy);
    assert 0.9 <= c < 1.0 && NormalizeConfidence(1.0, policy) == 1.0;
    if IsBetaBayes(policy) {
      ShrinkTowardsOne(c, PriorStrength(policy));
      ShrinkTowardsOne(1.0, PriorStrength(policy));
      hide BetaShrinkConfidence;
    }
  }

  /** At distance `q` from full trust the interval reaches further down than the score has risen. */
  lemma SpreadOutweighsScore(q: real, sigma: real)
    requires 0.0 < q <= 0.1 && sigma >= 0.0 && Square(sigma) == 2500.0 * Spread(1.0 - q)
    ensures SwingScore(100.0 * q) - 1.96 * sigma < 50.0
  {
    SpreadNearOne(q, sigma);
    hide Square, Spread;
    if q < 0.00005 {
      assert Round2(100.0 * q) == 0.0;
      Round2OfWhole(50);
    } else {
      Round2WithinHalfCent(100.0 * q);
      Round2WithinHalfCent(0.5 * Round2(100.0 * q) + 50.0);
      hide Round2;
      assert SwingScore(100.0 * q) <= 50.0 + 50.0 * q + 0.0075;
    }
  }

  lemma SpreadNearOne(q: real, sigma: real)
    requires 0.0 < q <= 0.1 && sigma >= 0.0 && Square(sigma) == 2500.0 * Spread(1.0 - q)
    ensures sigma > 0.0 && sigma >= 150.0 * q
  {
    MulMonotone(0.9, 1.0 - q, q);
    assert Spread(1.0 - q) == (1.0 - q) * q;
    SmallSquare(q);
    hide Spread, Square;
    SquareOrder(150.0 * q, sigma);
  }

  lemma SmallSquare(q: real)
    requires 0.0 < q <= 0.1
    ensures Square(150.0 * q) <= 2250.0 * q
  {
    SquareOfProduct(150.0, q);
    SquareBelow(q, 0.1);
    SquareIsTimes(150.0);
    hide Square;
    assert Times(150.0, 150.0) == 22500.0;
    TimesMonotone(22500.0, Square(q), 0.1 * q);
  }

  lemma SquareBelow(q: real, m: real)
    requires 0.0 <= q <= m
    ensures Square(q) <= m * q
  {
    MulMonotone(q, m, q);
  }

  /** Under any enabled policy: one failed check of full impact, nearly trusted, and then fully. */
  lemma EnabledAcceptanceSwings(policy: ConfidencePolicy, sqrt: real -> real)
    requires policy.enabled && IsRoot(sqrt)
    ensures var w, b := SwingInput(50.0, 100.0, 1.0), SwingInput(50.0, 100.0, NearlySure(policy));
            var rw := Assess(SWING_CONFIG, w, policy, DEFAULT_HOOKS, sqrt, map[]);
            var rb := Assess(SWING_CONFIG, b, policy, DEFAULT_HOOKS, sqrt, map[]);
            && Comparable(SWING_CONFIG, w.checks, b.checks, policy, map[], map[]) && w == b.(checks := w.checks)
            && rw.Scored? && rb.Scored? && rw.output.acceptable && !rb.output.acceptable
  {
    var c := NearlySure(policy);
    SwingComparable(50.0, 100.0, c, 1.0, policy);
    NearlySureIsUsed(policy);
    hide Assess, Comparable, EffectiveConfidence, NearlySure, BernoulliVariance, Times;
    FullImpact(1.0);
    assert Square(0.0) == 0.0 && Spread(1.0) == 0.0;
    SwingsTo(50.0, 100.0, 1.0, policy, 1.0, 0, 0.0, sqrt);
    NearlySureIsRejected(c, policy, sqrt);
  }

  lemma NearlySureIsRejected(c: real, policy: ConfidencePolicy, sqrt: real -> real)
    requires IsRoot(sqrt) && 0.9 <= EffectiveConfidence(c, policy) < 1.0
    ensures var rb := Assess(SWING_CONFIG, SwingInput(50.0, 100.0, c), policy, DEFAULT_HOOKS, sqrt, map[]);
            rb.Scored? && !rb.output.acceptable
  {
    hide Assess, EffectiveConfidence;
    var e := EffectiveConfidence(c, policy);
    SwingOutcome(50.0, 100.0, c, policy, sqrt);
    FullImpact(e);
    hide BernoulliVariance, Times, Square, Spread, SwingScore;
    var rb := Assess(SWING_CONFIG, SwingInput(50.0, 100.0, c), policy, DEFAULT_HOOKS, sqrt, map[]);
    assert 100.0 - 100.0 * e == 100.0 * (1.0 - e) && 1.0 - (1.0 - e) == e;
    SpreadOutweighsScore(1.0 - e, rb.output.stats.finalSigma);
  }

  lemma FullImpact(e: real)
    ensures Times(100.0, e) == 100.0 * e && 0.25 * BernoulliVariance(100.0, e) == 2500.0 * Spread(e)
  {
    hide Spread;
    assert Square(100.0) == 10000.0;
  }

  /** Acceptance follows the evidence on every assessment, under either rule, if and only if the policy is disabled. */
  lemma AcceptanceMonotoneIff(policy: ConfidencePolicy, sqrt: real -> real)
    requires IsRoot(sqrt)
    ensures AcceptanceFalls(policy, sqrt) <==> !policy.enabled
  {
    hide Assess, Comparable;
    if policy.enabled {
      EnabledAcceptanceSwings(policy, sqrt);
      hide SwingInput, NearlySure;
      var w, b := SwingInput(50.0, 100.0, 1.0), SwingInput(50.0, 100.0, NearlySure(policy));
      assert !AcceptedNoMore(Assess(SWING_CONFIG, b.(checks := w.checks), policy, DEFAULT_HOOKS, sqrt, map[]),
                             Assess(SWING_CONFIG, b, policy, DEFAULT_HOOKS, sqrt, map[]));
    } else {
      forall config: ScoringConfig, inputB: AssessmentInput, w: seq<CheckInput>, ovW: map<string, real>,
        ovB: map<string, real>
        | Comparable(config, w, inputB.checks, policy, ovW, ovB)
        && Assess(config, inputB, policy, DEFAULT_HOOKS, sqrt, ovB).Scored?
        ensures AcceptedNoMore(Assess(config, inputB.(checks := w), policy, DEFAULT_HOOKS, sqrt, ovW),
                               Assess(config, inputB, policy, DEFAULT_HOOKS, sqrt, ovB))
      {
        DisabledSpreadsGrow(config, w, inputB.checks, policy, ovW, ovB);
        AcceptanceMonotone(config, inputB, w, policy, sqrt, ovW, ovB);
      }
    }
  }

  lemma DisabledSpreadsGrow(config: ScoringConfig, w: seq<CheckInput>, b: seq<CheckInput>, policy: ConfidencePolicy,
                            ovW: map<string, real>, ovB: map<string, real>)
    requires !policy.enabled && Comparable(config, w, b, policy, ovW, ovB)
    ensures SpreadsGrow(w, b, policy)
  {
  }

  // ----- the v2 entry point -----

  ghost predicate AcceptanceFallsV2(policy: ConfidencePolicy, sqrt: real -> real) {
    forall config: ScoringConfig, hostId: string, threshold: real, w: seq<CheckInput>, b: seq<CheckInput>,
      risk: RiskContext, ovW: map<string, real>, ovB: map<string, real> ::
      config.policy == policy && Comparable(config, w, b, policy, ovW, ovB)
      && InputError(hostId, threshold, b).None? ==>
        AcceptedNoMoreV2(AssessV2(config, hostId, threshold, w, risk, DEFAULT_HOOKS, sqrt, ovW),
                         AssessV2(config, hostId, threshold, b, risk, DEFAULT_HOOKS, sqrt, ovB))
  }

  predicate AcceptedNoMoreV2(rw: OutcomeV2, rb: OutcomeV2) {
    rw.ScoredV2? && rb.ScoredV2? && (rw.output.acceptable ==> rb.output.acceptable)
  }

  lemma SwingV2(confidence: real, policy: ConfidencePolicy, sqrt: real -> real)
    requires Assess(SWING_CONFIG, SwingInput(50.0, 100.0, confidence), policy, DEFAULT_HOOKS, sqrt, map[]).Scored?
    ensures var one := Assess(SWING_CONFIG, SwingInput(50.0, 100.0, confidence), policy, DEFAULT_HOOKS, sqrt, map[]);
            var two := AssessV2(SWING_CONFIG.(policy := policy), "h", 50.0, SwingInput(50.0, 100.0, confidence).checks,
                                RiskContext(1.0, 1.0, 1.0), DEFAULT_HOOKS, sqrt, map[]);
            two.ScoredV2? && two.output.acceptable == one.output.acceptable
  {
    var config := SWING_CONFIG.(policy := policy);
    var input := SwingInput(50.0, 100.0, confidence);
    hide AssessV2, StatsOf, FormulaScore, ListResults, DomainScores;
    assert Assess(config, input, policy, DEFAULT_HOOKS, sqrt, map[])
      == Assess(SWING_CONFIG, input, policy, DEFAULT_HOOKS, sqrt, map[]);
    hide Assess;
    EntryPointsAgree(config, input, DEFAULT_HOOKS, sqrt, map[]);
  }

  /** The same exact condition holds for the v2 entry point. */
  lemma AcceptanceV2MonotoneIff(policy: ConfidencePolicy, sqrt: real -> real)
    requires IsRoot(sqrt)
    ensures AcceptanceFallsV2(policy, sqrt) <==> !policy.enabled
  {
    hide Assess, AssessV2, Comparable;
    if policy.enabled {
      EnabledAcceptanceSwings(policy, sqrt);
      SwingV2(1.0, policy, sqrt);
      SwingV2(NearlySure(policy), policy, sqrt);
      var config, w, b := SWING_CONFIG.(policy := policy), SwingInput(50.0, 100.0, 1.0).checks,
                          SwingInput(50.0, 100.0, NearlySure(policy)).checks;
      SameConfigComparable(config, w, b, policy);
      assert InputError("h", 50.0, b).None?;
      hide SwingInput, NearlySure, InputError;
      assert !AcceptedNoMoreV2(AssessV2(config, "h", 50.0, w, RiskContext(1.0, 1.0, 1.0), DEFAULT_HOOKS, sqrt, map[]),
                               AssessV2(config, "h", 50.0, b, RiskContext(1.0, 1.0, 1.0), DEFAULT_HOOKS, sqrt, map[]));
    } else {
      forall config: ScoringConfig, hostId: string, threshold: real, w: seq<CheckInput>, b: seq<CheckInput>,
        risk: RiskContext, ovW: map<string, real>, ovB: map<string, real>
        | config.policy == policy && Comparable(config, w, b, policy, ovW, ovB)
        && InputError(hostId, threshold, b).None?
        ensures AcceptedNoMoreV2(AssessV2(config, hostId, threshold, w, risk, DEFAULT_HOOKS, sqrt, ovW),
                                 AssessV2(config, hostId, threshold, b, risk, DEFAULT_HOOKS, sqrt, ovB))
      {
        DisabledSpreadsGrow(config, w, b, policy, ovW, ovB);
        TotalV2Monotone(config, hostId, threshold, w, b, risk, sqrt, ovW, ovB);
      }
    }
  }

  lemma SameConfigComparable(config: ScoringConfig, w: seq<CheckInput>, b: seq<CheckInput>, policy: ConfidencePolicy)
    requires config.edgeFactors == SWING_CONFIG.edgeFactors && Comparable(SWING_CONFIG, w, b, policy, map[], map[])
    ensures Comparable(config, w, b, policy, map[], map[])
  {
  }
}
