/** The scoring entry points, from checks to the published score, and their end-to-end monotonicity. */
module Scoring {
  import opened Rounding
  import opened SsamTypes
  import opened RealLemmas
  import opened Aggregation
  import opened Confidence
  import opened EdgeFactors
  import opened Formulas
  import opened Ordering
  import opened Posterior

  datatype ScoringConfig = ScoringConfig(
    weights: seq<WeightConfig>, edgeFactors: seq<EdgeFactorConfig>, formulaId: string, policy: ConfidencePolicy,
    acceptByLowerBound: bool)

  datatype AssessmentInput = AssessmentInput(
    hostId: string, threshold: real, checks: seq<CheckInput>, threatCoeff: real, spcScore: real)

  datatype AssessmentOutput = AssessmentOutput(
    hostId: string, finalScore: real, threshold: real, domainScores: seq<DomainScore>,
    edgeFactors: seq<EdgeFactorResult>, threatCoeff: real, spcScore: real, formulaId: string, stats: Stats,
    acceptable: bool)

  datatype Outcome = Scored(output: AssessmentOutput) | Rejected(code: string)

  // ----- validation -----

  function InputError(hostId: string, threshold: real, checks: seq<CheckInput>): Option<string> {
    if hostId == "" then Some("empty_host_id")
    else if threshold <= 0.0 || threshold > 100.0 then Some("invalid_threshold")
    else if exists i :: 0 <= i < |checks| && checks[i].domain == "" then Some("empty_domain")
    else None
  }

  method ValidateInput(hostId: string, threshold: real, checks: seq<CheckInput>) returns (err: Option<string>)
    ensures err == InputError(hostId, threshold, checks)
  {
    if hostId == "" {
      return Some("empty_host_id");
    }
    if threshold <= 0.0 || threshold > 100.0 {
      return Some("invalid_threshold");
    }
    for i := 0 to |checks|
      invariant forall j :: 0 <= j < i ==> checks[j].domain != ""
    {
      if checks[i].domain == "" {
        return Some("empty_domain");
      }
    }
    return None;
  }

  /** The first problem found, in this order: no host, a threshold not in (0,100], a check filed under no domain. */
  lemma InputErrorIs(hostId: string, threshold: real, checks: seq<CheckInput>)
    ensures InputError(hostId, threshold, checks) == Some("empty_host_id") <==> hostId == ""
    ensures InputError(hostId, threshold, checks) == Some("invalid_threshold")
            <==> hostId != "" && !(0.0 < threshold <= 100.0)
    ensures InputError(hostId, threshold, checks) == Some("empty_domain")
            <==> hostId != "" && 0.0 < threshold <= 100.0 && exists c :: c in checks && c.domain == ""
    ensures InputError(hostId, threshold, checks) == None
            <==> hostId != "" && 0.0 < threshold <= 100.0 && forall c :: c in checks ==> c.domain != ""
  {
    if c :| c in checks && c.domain == "" {
      var i :| 0 <= i < |checks| && checks[i] == c;
    }
  }

  // ----- formulas by name -----

  const V12_ID := "ssam_v1.2"
  const SIMPLE_ID := "simple_weighted"
  const V20_ID := "ssam_v2.0"

  method SimpleWeightedFormula(domainScores: seq<DomainScore>, weights: seq<WeightConfig>) returns (r: real)
    ensures r == Round2(WeightedMean(domainScores, WeightMap(weights)))
  {
    var wMap := BuildWeightMap(weights);
    var sum, totalWeight := AccumulateWeighted(domainScores, wMap);
    if totalWeight == 0.0 {
      Round2OfWhole(0);
      return 0.0;
    }
    r := Round2(sum / totalWeight);
  }

  /** A zero threat coefficient means one. */
  function ThreatInForce(t: real): real {
    if t == 0.0 then 1.0 else t
  }

  /** A zero exposure score means one, and none counts less than 0.60. */
  function SpcInForce(s: real): (r: real)
    ensures r >= 0.60
  {
    if s == 0.0 then 1.0 else Max(s, 0.60)
  }

  /** The published score of a formula; an unknown name falls back to v1.2. */
  function FormulaScore(formulaId: string, ds: seq<DomainScore>, ws: seq<WeightConfig>, threat: real, spc: real,
                        fs: seq<EdgeFactorResult>, hooks: Hooks): real {
    if formulaId == SIMPLE_ID then Round2(WeightedMean(ds, WeightMap(ws)))
    else if formulaId == V20_ID then V20Total(ds, ws, RiskContext(1.0, spc, threat), fs, hooks)
    else Round2(V12Raw(ds, ws, threat, spc, fs))
  }

  /** The three names, and v1.2 for any other. */
  lemma FormulaNames(formulaId: string, ds: seq<DomainScore>, ws: seq<WeightConfig>, threat: real, spc: real,
                     fs: seq<EdgeFactorResult>, hooks: Hooks)
    ensures FormulaScore("simple_weighted", ds, ws, threat, spc, fs, hooks) == Round2(WeightedMean(ds, WeightMap(ws)))
    ensures FormulaScore("ssam_v2.0", ds, ws, threat, spc, fs, hooks)
            == V20Total(ds, ws, RiskContext(1.0, spc, threat), fs, hooks)
    ensures formulaId !in {"simple_weighted", "ssam_v2.0"} ==>
              FormulaScore(formulaId, ds, ws, threat, spc, fs, hooks)
              == Round2(WeightedMean(ds, WeightMap(ws)) * threat * spc * ProductChain(fs))
  {
    V12RawIs(ds, ws, threat, spc, fs);
    hide WeightedMean, ProductChain, V20Total, Round2, V12Raw;
  }

  // ----- the v1 entry point -----

  ghost function Assess(config: ScoringConfig, input: AssessmentInput, policy: ConfidencePolicy, hooks: Hooks,
                        sqrt: real -> real, ov: map<string, real>): Outcome {
    var err := InputError(input.hostId, input.threshold, input.checks);
    if err.Some? then Rejected(err.value)
    else
      var threat, spc := ThreatInForce(input.threatCoeff), SpcInForce(input.spcScore);
      var ds := DomainScores(config.weights, input.checks, policy);
      var fs := ListResults(FactorsById(config.edgeFactors), input.checks, CustomFactors(config.edgeFactors), policy,
                            ov);
      var score := FormulaScore(config.formulaId, ds, config.weights, threat, spc, fs, hooks);
      if score < 0.0 || score > 100.0 then Rejected("invalid_score")
      else
        var stats := StatsOf(config.weights, ds, score, sqrt);
        Scored(AssessmentOutput(input.hostId, score, input.threshold, ds, fs, threat, spc, config.formulaId, stats,
                                AcceptanceDecision(score, stats.lower95, input.threshold, config.acceptByLowerBound)))
  }

  method RunNamedFormula(formulaId: string, ds: seq<DomainScore>, ws: seq<WeightConfig>, threat: real, spc: real,
                         fs: seq<EdgeFactorResult>, hooks: Hooks) returns (finalScore: real)
    requires spc >= 0.60
    ensures finalScore == FormulaScore(formulaId, ds, ws, threat, spc, fs, hooks)
  {
    hide V20Total, V12Raw, WeightedMean;
    if formulaId == V12_ID {
      finalScore := SSAMV12Formula(ds, ws, threat, spc, fs);
      Round2Idempotent(V12Raw(ds, ws, threat, spc, fs));
      finalScore := Round2(finalScore);
    } else if formulaId == SIMPLE_ID {
      finalScore := SimpleWeightedFormula(ds, ws);
      Round2Idempotent(WeightedMean(ds, WeightMap(ws)));
      finalScore := Round2(finalScore);
    } else if formulaId == V20_ID {
      var threat' := if threat <= 0.0 then 1.0 else threat;
      V20IgnoresSign(ds, ws, RiskContext(1.0, spc, threat), fs, hooks);
      var full := SSAMV20Formula(ds, ws, RiskContext(1.0, spc, threat'), fs, hooks);
      finalScore := full.total;
    } else {
      finalScore := SSAMV12Formula(ds, ws, threat, spc, fs);
      Round2Idempotent(V12Raw(ds, ws, threat, spc, fs));
      finalScore := Round2(finalScore);
    }
  }

  /** Normalised coefficients are positive, and those that were are kept. Doing this beforehand changes nothing: the
      formula does it too. */
  lemma V20IgnoresSign(ds: seq<DomainScore>, ws: seq<WeightConfig>, risk: RiskContext, fs: seq<EdgeFactorResult>,
                       hooks: Hooks)
    ensures V20Total(ds, ws, NormalizeRisk(risk), fs, hooks) == V20Total(ds, ws, risk, fs, hooks)
    ensures var r := NormalizeRisk(risk);
            && r.intrinsic > 0.0 && r.exposure > 0.0 && r.threat > 0.0
            && r.intrinsic in {risk.intrinsic, 1.0} && r.exposure in {risk.exposure, 1.0}
            && r.threat in {risk.threat, 1.0}
            && (risk.intrinsic > 0.0 ==> r.intrinsic == risk.intrinsic)
            && (risk.exposure > 0.0 ==> r.exposure == risk.exposure)
            && (risk.threat > 0.0 ==> r.threat == risk.threat)
  {
    hide V20Exact, HasWeight;
  }

  /** The whole assessment. When the triggered sources of each cascade target agree, the result does not depend
      on map order. */
  method ComputeScoreInternal(config: ScoringConfig, input: AssessmentInput, policy: ConfidencePolicy, hooks: Hooks,
                              sqrt: real -> real)
    returns (r: Outcome, ghost ov: map<string, real>)
    requires IsRoot(sqrt)
    ensures ValidOverrides(ov, FactorsById(config.edgeFactors), input.checks, policy)
    ensures r == Assess(config, input, policy, hooks, sqrt, ov)
    ensures SourcesAgree(FactorsById(config.edgeFactors), input.checks, CustomFactors(config.edgeFactors), policy) ==>
              r == Assess(config, input, policy, hooks, sqrt,
                          Overrides(FactorsById(config.edgeFactors), input.checks, policy))
  {
    hide ValidOverrides, SourcesAgree, FormulaScore, ListResults, DomainScores, StatsOf, AcceptanceDecision;
    ov := Overrides(FactorsById(config.edgeFactors), input.checks, policy);
    var err := ValidateInput(input.hostId, input.threshold, input.checks);
    if err.Some? {
      return Rejected(err.value), ov;
    }
    var threatCoeff := input.threatCoeff;
    if threatCoeff == 0.0 { threatCoeff := 1.0; }
    var spcScore := input.spcScore;
    if spcScore == 0.0 { spcScore := 1.0; }
    if spcScore < 0.60 { spcScore := 0.60; }
    var domainScores := ComputeDomainScoresBayes(config.weights, input.checks, policy);
    AssessmentsHaveVariances(config.weights, input.checks, policy);
    var customFactors := BuildCustomFactorMap(config.edgeFactors);
    var edgeFactors, ov' := ApplyEdgeFactorsToChecksPolicy(config.edgeFactors, input.checks, customFactors, policy);
    ov := ov';
    var finalScore := RunNamedFormula(config.formulaId, domainScores, config.weights, threatCoeff, spcScore,
                                      edgeFactors, hooks);
    var stats := FillPosterior(config.weights, domainScores, finalScore, sqrt);
    var acceptable := AcceptanceDecision(finalScore, stats.lower95, input.threshold, config.acceptByLowerBound);
    if finalScore < 0.0 || finalScore > 100.0 {
      return Rejected("invalid_score"), ov;
    }
    r := Scored(AssessmentOutput(input.hostId, finalScore, input.threshold, domainScores, edgeFactors,
                                 threatCoeff, spcScore, config.formulaId, stats, acceptable));
  }

  /** What an assessment hands back of its input, and when it is rejected. */
  lemma AssessmentSays(config: ScoringConfig, input: AssessmentInput, policy: ConfidencePolicy, hooks: Hooks,
                       sqrt: real -> real, ov: map<string, real>)
    ensures var r := Assess(config, input, policy, hooks, sqrt, ov);
            var err := InputError(input.hostId, input.threshold, input.checks);
            && (err.Some? ==> r == Rejected(err.value))
            && (r.Rejected? && err.None? ==> r.code == "invalid_score")
            && (r.Scored? ==>
                  && r.output.hostId == input.hostId && r.output.threshold == input.threshold
                  && r.output.formulaId == config.formulaId && 0.0 <= r.output.finalScore <= 100.0
                  && r.output.stats.upper95 == r.output.finalScore + 1.96 * Max(r.output.stats.finalSigma, 0.0)
                  && r.output.stats.lower95
                     == Max(0.0, r.output.finalScore - 1.96 * Max(r.output.stats.finalSigma, 0.0))
                  && (r.output.acceptable <==>
                        (if config.acceptByLowerBound then r.output.stats.lower95 else r.output.finalScore)
                        >= input.threshold))
  {
    hide FormulaScore, DomainScores, ListResults, FinalSigma, NodeConfidence, FactorsById, CustomFactors, InputError;
  }

  /** Coefficients left out count as one, and no exposure counts less than 0.60; nothing else of either is changed. */
  lemma CoefficientsLeftOut(config: ScoringConfig, input: AssessmentInput, policy: ConfidencePolicy, hooks: Hooks,
                            sqrt: real -> real, ov: map<string, real>)
    ensures Assess(config, input.(threatCoeff := 0.0), policy, hooks, sqrt, ov)
            == Assess(config, input.(threatCoeff := 1.0), policy, hooks, sqrt, ov)
    ensures Assess(config, input.(spcScore := 0.0), policy, hooks, sqrt, ov)
            == Assess(config, input.(spcScore := 1.0), policy, hooks, sqrt, ov)
    ensures input.spcScore <= 0.60 && input.spcScore != 0.0 ==>
              Assess(config, input, policy, hooks, sqrt, ov)
              == Assess(config, input.(spcScore := 0.60), policy, hooks, sqrt, ov)
    ensures var r := Assess(config, input, policy, hooks, sqrt, ov);
            r.Scored? ==>
              && (input.threatCoeff != 0.0 ==> r.output.threatCoeff == input.threatCoeff)
              && (input.spcScore >= 0.60 ==> r.output.spcScore == input.spcScore)
              && (input.threatCoeff == 0.0 ==> r.output.threatCoeff == 1.0)
              && (input.spcScore == 0.0 ==> r.output.spcScore == 1.0)
  {
    hide FormulaScore, DomainScores, ListResults, StatsOf, FactorsById, CustomFactors, AcceptanceDecision;
  }

  // ----- the v2 entry point -----

  datatype OutputV2 = OutputV2(
    hostId: string, finalScore: FinalScore, threshold: real, domainScores: seq<DomainScore>,
    edgeFactors: seq<EdgeFactorResult>, formulaId: string, stats: Stats, acceptable: bool)

  datatype OutcomeV2 = ScoredV2(output: OutputV2) | RejectedV2(code: string)

  function NormalizeRisk(rc: RiskContext): RiskContext {
    RiskContext(if rc.intrinsic <= 0.0 then 1.0 else rc.intrinsic,
                if rc.exposure <= 0.0 then 1.0 else rc.exposure,
                if rc.threat <= 0.0 then 1.0 else rc.threat)
  }

  /** The v2 entry point has one formula under every name and does not check the result's range. */
  ghost function AssessV2(config: ScoringConfig, hostId: string, threshold: real, checks: seq<CheckInput>,
                          risk: RiskContext, hooks: Hooks, sqrt: real -> real, ov: map<string, real>): OutcomeV2 {
    var err := InputError(hostId, threshold, checks);
    if err.Some? then RejectedV2(err.value)
    else
      var ds := DomainScores(config.weights, checks, config.policy);
      var fs := ListResults(FactorsById(config.edgeFactors), checks, CustomFactors(config.edgeFactors), config.policy,
                            ov);
      var final := V20Final(ds, config.weights, NormalizeRisk(risk), fs, hooks);
      var stats := StatsOf(config.weights, ds, final.total, sqrt);
      ScoredV2(OutputV2(hostId, final, threshold, ds, fs, config.formulaId, stats,
                        AcceptanceDecision(final.total, stats.lower95, threshold, config.acceptByLowerBound)))
  }

  method ComputeScoreV2(config: ScoringConfig, hostId: string, threshold: real, checks: seq<CheckInput>,
                        risk: RiskContext, hooks: Hooks, sqrt: real -> real)
    returns (r: OutcomeV2, ghost ov: map<string, real>)
    requires IsRoot(sqrt)
    ensures ValidOverrides(ov, FactorsById(config.edgeFactors), checks, config.policy)
    ensures r == AssessV2(config, hostId, threshold, checks, risk, hooks, sqrt, ov)
    ensures SourcesAgree(FactorsById(config.edgeFactors), checks, CustomFactors(config.edgeFactors), config.policy) ==>
              r == AssessV2(config, hostId, threshold, checks, risk, hooks, sqrt,
                            Overrides(FactorsById(config.edgeFactors), checks, config.policy))
  {
    hide ValidOverrides, SourcesAgree, ListResults, DomainScores, V20Final, StatsOf, AcceptanceDecision;
    ov := Overrides(FactorsById(config.edgeFactors), checks, config.policy);
    var err := ValidateInput(hostId, threshold, checks);
    if err.Some? {
      return RejectedV2(err.value), ov;
    }
    var rc := risk;
    if rc.intrinsic <= 0.0 { rc := rc.(intrinsic := 1.0); }
    if rc.exposure <= 0.0 { rc := rc.(exposure := 1.0); }
    if rc.threat <= 0.0 { rc := rc.(threat := 1.0); }
    var domainScores := ComputeDomainScoresBayes(config.weights, checks, config.policy);
    AssessmentsHaveVariances(config.weights, checks, config.policy);
    var customFactors := BuildCustomFactorMap(config.edgeFactors);
    var edgeFactors, ov' := ApplyEdgeFactorsToChecksPolicy(config.edgeFactors, checks, customFactors, config.policy);
    ov := ov';
    var finalScore := SSAMV20Formula(domainScores, config.weights, rc, edgeFactors, hooks);
    var stats := FillPosterior(config.weights, domainScores, finalScore.total, sqrt);
    var acceptable := AcceptanceDecision(finalScore.total, stats.lower95, threshold, config.acceptByLowerBound);
    r := ScoredV2(OutputV2(hostId, finalScore, threshold, domainScores, edgeFactors, config.formulaId, stats,
                           acceptable));
  }

  /** Under the v2.0 formula the two entry points are one: what the first scores the second scores alike, and
      the first rejects, of what the second scores, only totals outside [0,100]. */
  lemma EntryPointsAgree(config: ScoringConfig, input: AssessmentInput, hooks: Hooks, sqrt: real -> real,
                         ov: map<string, real>)
    requires config.formulaId == V20_ID
    ensures var one := Assess(config, input, config.policy, hooks, sqrt, ov);
            var risk := RiskContext(1.0, SpcInForce(input.spcScore), ThreatInForce(input.threatCoeff));
            var two := AssessV2(config, input.hostId, input.threshold, input.checks, risk, hooks, sqrt, ov);
            && (one.Scored? <==> two.ScoredV2? && 0.0 <= two.output.finalScore.total <= 100.0)
            && (one.Scored? ==>
                  && one.output.finalScore == two.output.finalScore.total && one.output.stats == two.output.stats
                  && one.output.acceptable == two.output.acceptable
                  && one.output.domainScores == two.output.domainScores
                  && one.output.edgeFactors == two.output.edgeFactors)
            && (two.RejectedV2? ==> one == Rejected(two.code))
  {
    hide InputError, DomainScores, ListResults, V20Total, StatsOf, AcceptanceDecision, FactorsById, CustomFactors,
      HasWeight, V20Exact, EffectiveIds, LayerCoeff;
    var risk := RiskContext(1.0, SpcInForce(input.spcScore), ThreatInForce(input.threatCoeff));
    var ds := DomainScores(config.weights, input.checks, config.policy);
    var fs := ListResults(FactorsById(config.edgeFactors), input.checks, CustomFactors(config.edgeFactors),
                          config.policy, ov);
    V20IgnoresSign(ds, config.weights, risk, fs, hooks);
  }

  // ----- monotonicity -----

  /** Domain scores that lie in range and edge factors whose product is at most another's. */
  ghost predicate WorseInputs(dw: seq<DomainScore>, db: seq<DomainScore>, fw: seq<EdgeFactorResult>,
                              fb: seq<EdgeFactorResult>) {
    && NoBetter(dw, db)
    && (forall i :: 0 <= i < |dw| ==> 0.0 <= dw[i].score <= 100.0)
    && (forall i :: 0 <= i < |db| ==> 0.0 <= db[i].score <= 100.0)
    && ProductChain(fw) <= ProductChain(fb)
  }

  lemma MeansOrdered(dw: seq<DomainScore>, db: seq<DomainScore>, m: map<string, real>)
    requires NoBetter(dw, db)
    requires forall i :: 0 <= i < |dw| ==> 0.0 <= dw[i].score <= 100.0
    ensures 0.0 <= WeightedMean(dw, m) <= WeightedMean(db, m)
    ensures WeightTotal(dw, m) == WeightTotal(db, m)
  {
    MeanMonotone(dw, db, m);
    MeanBounded(dw, m, 0.0, 100.0);
    TotalsMonotone(dw, db, m);
  }

  lemma V20TotalMonotone(dw: seq<DomainScore>, db: seq<DomainScore>, ws: seq<WeightConfig>, risk: RiskContext,
                         fw: seq<EdgeFactorResult>, fb: seq<EdgeFactorResult>)
    requires WorseInputs(dw, db, fw, fb)
    ensures 0.0 <= V20Total(dw, ws, risk, fw, DEFAULT_HOOKS) <= V20Total(db, ws, risk, fb, DEFAULT_HOOKS)
  {
    var m := WeightMap(ws);
    MeansOrdered(dw, db, m);
    ProductChainRange(fw);
    hide WeightedMean, ProductChain;
    MulBoth(WeightedMean(dw, m), WeightedMean(db, m), ProductChain(fw), ProductChain(fb));
    var xw, xb := V20Exact(dw, ws, fw, DEFAULT_HOOKS), V20Exact(db, ws, fb, DEFAULT_HOOKS);
    assert 0.0 <= xw <= xb;
    LayeredTotalMonotone(xw, xb, risk);
    hide LayeredTotal, V20Exact;
  }

  lemma LayeredTotalMonotone(xw: real, xb: real, risk: RiskContext)
    requires 0.0 <= xw <= xb
    ensures 0.0 <= LayeredTotal(xw, risk) <= LayeredTotal(xb, risk)
  {
    var k := 30.0 * LayerCoeff(risk.exposure) + 20.0 * LayerCoeff(risk.threat);
    Round2OfWhole(0);
    Round2Monotone(0.0, xw);
    Round2Monotone(xw, xb);
    Round2Monotone(0.0, 0.5 * Round2(xw) + k);
    Round2Monotone(0.5 * Round2(xw) + k, 0.5 * Round2(xb) + k);
  }

  /** The v1.2 value moves with the sign of the threat coefficient. */
  lemma V12RawOrdered(dw: seq<DomainScore>, db: seq<DomainScore>, ws: seq<WeightConfig>, threat: real, spc: real,
                      fw: seq<EdgeFactorResult>, fb: seq<EdgeFactorResult>)
    requires WorseInputs(dw, db, fw, fb) && spc > 0.0
    ensures threat >= 0.0 ==> 0.0 <= V12Raw(dw, ws, threat, spc, fw) <= V12Raw(db, ws, threat, spc, fb)
    ensures threat <= 0.0 ==> V12Raw(db, ws, threat, spc, fb) <= V12Raw(dw, ws, threat, spc, fw) <= 0.0
  {
    var m := WeightMap(ws);
    MeansOrdered(dw, db, m);
    ProductChainRange(fw);
    V12RawIs(dw, ws, threat, spc, fw);
    V12RawIs(db, ws, threat, spc, fb);
    hide WeightedMean, ProductChain, V12Raw, RawValue;
    RawValuesOrdered(WeightedMean(dw, m), WeightedMean(db, m), ProductChain(fw), ProductChain(fb), threat, spc);
  }

  function RawValue(mean: real, threat: real, spc: real, chain: real): real {
    mean * threat * spc * chain
  }

  lemma V12RawIs(ds: seq<DomainScore>, ws: seq<WeightConfig>, threat: real, spc: real, fs: seq<EdgeFactorResult>)
    ensures V12Raw(ds, ws, threat, spc, fs) == RawValue(WeightedMean(ds, WeightMap(ws)), threat, spc, ProductChain(fs))
  {
    hide WeightedMean, ProductChain;
  }

  lemma RawValuesOrdered(mw: real, mb: real, cw: real, cb: real, threat: real, spc: real)
    requires 0.0 <= mw <= mb && 0.0 <= cw <= cb && spc > 0.0
    ensures threat >= 0.0 ==> 0.0 <= RawValue(mw, threat, spc, cw) <= RawValue(mb, threat, spc, cb)
    ensures threat <= 0.0 ==> RawValue(mb, threat, spc, cb) <= RawValue(mw, threat, spc, cw) <= 0.0
  {
    MulBoth(mw, mb, cw, cb);
    CoefficientOrder(mw * cw, mb * cb, threat, spc);
    RawRegroups(mw, threat, spc, cw);
    RawRegroups(mb, threat, spc, cb);
    hide RawValue;
  }

  lemma RawRegroups(mean: real, threat: real, spc: real, chain: real)
    ensures RawValue(mean, threat, spc, chain) == (mean * chain) * (threat * spc)
  {
  }

  lemma CoefficientOrder(pw: real, pb: real, threat: real, spc: real)
    requires 0.0 <= pw <= pb && spc > 0.0
    ensures threat >= 0.0 ==> 0.0 <= pw * (threat * spc) <= pb * (threat * spc)
    ensures threat <= 0.0 ==> pb * (threat * spc) <= pw * (threat * spc) <= 0.0
  {
    var k := threat * spc;
    if threat >= 0.0 {
      MulNonNegative(threat, spc);
      MulBoth(pw, pb, k, k);
    }
    if threat <= 0.0 {
      MulNonNegative(-threat, spc);
      assert (-threat) * spc == -k;
      MulBoth(pw, pb, -k, -k);
    }
  }

  /** Any formula: a score in range stays in range and does not rise. */
  lemma FormulaScoreMonotone(formulaId: string, dw: seq<DomainScore>, db: seq<DomainScore>, ws: seq<WeightConfig>,
                             threat: real, spc: real, fw: seq<EdgeFactorResult>, fb: seq<EdgeFactorResult>)
    requires WorseInputs(dw, db, fw, fb) && spc > 0.0
    requires 0.0 <= FormulaScore(formulaId, db, ws, threat, spc, fb, DEFAULT_HOOKS)
    ensures 0.0 <= FormulaScore(formulaId, dw, ws, threat, spc, fw, DEFAULT_HOOKS)
               <= FormulaScore(formulaId, db, ws, threat, spc, fb, DEFAULT_HOOKS)
  {
    Round2OfWhole(0);
    if formulaId == SIMPLE_ID {
      var m := WeightMap(ws);
      MeansOrdered(dw, db, m);
      Round2Monotone(0.0, WeightedMean(dw, m));
      Round2Monotone(WeightedMean(dw, m), WeightedMean(db, m));
    } else if formulaId == V20_ID {
      V20TotalMonotone(dw, db, ws, RiskContext(1.0, spc, threat), fw, fb);
    } else {
      V12RawOrdered(dw, db, ws, threat, spc, fw, fb);
      hide V12Raw;
      var rw, rb := V12Raw(dw, ws, threat, spc, fw), V12Raw(db, ws, threat, spc, fb);
      if threat >= 0.0 {
        Round2Monotone(0.0, rw);
        Round2Monotone(rw, rb);
      } else {
        Round2Monotone(rb, rw);
        Round2Monotone(rw, 0.0);
        Round2Monotone(rb, 0.0);
      }
    }
  }

  lemma ChecksGiveWorseInputs(config: ScoringConfig, w: seq<CheckInput>, b: seq<CheckInput>, policy: ConfidencePolicy)
    requires WorseChecks(w, b)
    requires UniqueSources(FactorsById(config.edgeFactors)) && CascadeSafe(FactorsById(config.edgeFactors), policy)
    ensures WorseInputs(DomainScores(config.weights, w, policy), DomainScores(config.weights, b, policy),
                        EdgeResults(config.edgeFactors, w, CustomFactors(config.edgeFactors), policy),
                        EdgeResults(config.edgeFactors, b, CustomFactors(config.edgeFactors), policy))
  {
    DomainScoresMonotone(config.weights, w, b, policy);
    EdgeProductMonotone(config.edgeFactors, w, b, policy);
    ScoresInRange(config.weights, w, policy);
    ScoresInRange(config.weights, b, policy);
    hide DomainScores, EdgeResults, ProductChain;
  }

  lemma ScoresInRange(ws: seq<WeightConfig>, checks: seq<CheckInput>, policy: ConfidencePolicy)
    ensures var ds := DomainScores(ws, checks, policy);
            forall i :: 0 <= i < |ds| ==> 0.0 <= ds[i].score <= 100.0
  {
    var ds := DomainScores(ws, checks, policy);
    forall i | 0 <= i < |ds| ensures 0.0 <= ds[i].score <= 100.0 {
      DomainScoreRange(ds[i].domain, checks, policy);
    }
  }

  /** The preconditions under which worse checks are compared: any overrides a walk of the map may leave. */
  ghost predicate Comparable(config: ScoringConfig, w: seq<CheckInput>, b: seq<CheckInput>, policy: ConfidencePolicy,
                             ovW: map<string, real>, ovB: map<string, real>) {
    var fm := FactorsById(config.edgeFactors);
    && WorseChecks(w, b) && UniqueSources(fm) && CascadeSafe(fm, policy)
    && ValidOverrides(ovW, fm, w, policy) && ValidOverrides(ovB, fm, b, policy)
  }

  /** Either way of listing the edge factors is the one list there is. */
  lemma ComparedInputs(config: ScoringConfig, w: seq<CheckInput>, b: seq<CheckInput>, policy: ConfidencePolicy,
                       ovW: map<string, real>, ovB: map<string, real>)
    requires Comparable(config, w, b, policy, ovW, ovB)
    ensures var fm, custom := FactorsById(config.edgeFactors), CustomFactors(config.edgeFactors);
            WorseInputs(DomainScores(config.weights, w, policy), DomainScores(config.weights, b, policy),
                        ListResults(fm, w, custom, policy, ovW), ListResults(fm, b, custom, policy, ovB))
  {
    var fm, custom := FactorsById(config.edgeFactors), CustomFactors(config.edgeFactors);
    UniqueSourcesAgree(fm, w, custom, policy);
    UniqueSourcesAgree(fm, b, custom, policy);
    MapOrderIrrelevant(config.edgeFactors, w, custom, policy, ovW);
    MapOrderIrrelevant(config.edgeFactors, b, custom, policy, ovB);
    ChecksGiveWorseInputs(config, w, b, policy);
    hide WorseInputs, DomainScores, ListResults, EdgeResults;
  }

  lemma SameDomainsSameError(config: ScoringConfig, hostId: string, threshold: real, w: seq<CheckInput>,
                             b: seq<CheckInput>, policy: ConfidencePolicy, ovW: map<string, real>,
                             ovB: map<string, real>)
    requires Comparable(config, w, b, policy, ovW, ovB)
    ensures InputError(hostId, threshold, w) == InputError(hostId, threshold, b)
  {
    hide UniqueSources, CascadeSafe, ValidOverrides;
  }

  /** End to end: failing more checks, or trusting a failure more, never raises the published score, never turns a
      scored host into a rejected one, and never turns an unacceptable score into one acceptable by the point. No
      condition is placed on the coefficients; a negative threat coefficient leaves only scores that round to zero. */
  lemma ScoreMonotone(config: ScoringConfig, inputB: AssessmentInput, w: seq<CheckInput>, policy: ConfidencePolicy,
                      sqrt: real -> real, ovW: map<string, real>, ovB: map<string, real>)
    requires Comparable(config, w, inputB.checks, policy, ovW, ovB)
    requires Assess(config, inputB, policy, DEFAULT_HOOKS, sqrt, ovB).Scored?
    ensures var rw, rb := Assess(config, inputB.(checks := w), policy, DEFAULT_HOOKS, sqrt, ovW),
                          Assess(config, inputB, policy, DEFAULT_HOOKS, sqrt, ovB);
            && rw.Scored? && rw.output.finalScore <= rb.output.finalScore
            && (!config.acceptByLowerBound && rw.output.acceptable ==> rb.output.acceptable)
  {
    hide DomainScores, ListResults, FormulaScore, Comparable, WorseInputs, StatsOf, FactorsById, CustomFactors;
    var b, fm, custom := inputB.checks, FactorsById(config.edgeFactors), CustomFactors(config.edgeFactors);
    ComparedInputs(config, w, b, policy, ovW, ovB);
    SameDomainsSameError(config, inputB.hostId, inputB.threshold, w, b, policy, ovW, ovB);
    hide InputError;
    FormulaScoreMonotone(config.formulaId, DomainScores(config.weights, w, policy),
                         DomainScores(config.weights, b, policy),
      config.weights, ThreatInForce(inputB.threatCoeff), SpcInForce(inputB.spcScore),
      ListResults(fm, w, custom, policy, ovW), ListResults(fm, b, custom, policy, ovB));
  }

  /** Under either rule, if no failed check becomes so much more trusted that its spread shrinks. */
  lemma AcceptanceMonotone(config: ScoringConfig, inputB: AssessmentInput, w: seq<CheckInput>, policy: ConfidencePolicy,
                           sqrt: real -> real, ovW: map<string, real>, ovB: map<string, real>)
    requires Comparable(config, w, inputB.checks, policy, ovW, ovB) && SpreadsGrow(w, inputB.checks, policy)
             && IsRoot(sqrt)
    requires Assess(config, inputB, policy, DEFAULT_HOOKS, sqrt, ovB).Scored?
    ensures var rw, rb := Assess(config, inputB.(checks := w), policy, DEFAULT_HOOKS, sqrt, ovW),
                          Assess(config, inputB, policy, DEFAULT_HOOKS, sqrt, ovB);
            rw.Scored? && (rw.output.acceptable ==> rb.output.acceptable)
  {
    ScoreMonotone(config, inputB, w, policy, sqrt, ovW, ovB);
    var rw, rb := Assess(config, inputB.(checks := w), policy, DEFAULT_HOOKS, sqrt, ovW),
                  Assess(config, inputB, policy, DEFAULT_HOOKS, sqrt, ovB);
    assert WorseChecks(w, inputB.checks);
    LowerBoundFalls(config.weights, w, inputB.checks, policy, rw.output.finalScore, rb.output.finalScore, sqrt);
    hide DomainScores, ListResults, FormulaScore, Comparable, StatsOf, SpreadsGrow;
  }

  /** With the policy disabled both rules decide alike on every assessment that is scored. */
  lemma DisabledRulesAgree(config: ScoringConfig, input: AssessmentInput, policy: ConfidencePolicy, hooks: Hooks,
                           sqrt: real -> real, ov: map<string, real>)
    requires !policy.enabled && IsRoot(sqrt)
    ensures var byPoint := Assess(config.(acceptByLowerBound := false), input, policy, hooks, sqrt, ov);
            byPoint == Assess(config.(acceptByLowerBound := true), input, policy, hooks, sqrt, ov)
  {
    var byPoint := Assess(config.(acceptByLowerBound := false), input, policy, hooks, sqrt, ov);
    if byPoint.Scored? {
      DisabledIntervalIsPoint(config.weights, input.checks, policy, byPoint.output.finalScore, sqrt);
    }
    hide DomainScores, ListResults, FormulaScore, StatsOf;
  }

  lemma AssessedV2(config: ScoringConfig, hostId: string, threshold: real, checks: seq<CheckInput>, risk: RiskContext,
                   hooks: Hooks, sqrt: real -> real, ov: map<string, real>)
    requires InputError(hostId, threshold, checks).None?
    ensures var r := AssessV2(config, hostId, threshold, checks, risk, hooks, sqrt, ov);
            var ds := DomainScores(config.weights, checks, config.policy);
            var fs := ListResults(FactorsById(config.edgeFactors), checks, CustomFactors(config.edgeFactors),
                                  config.policy, ov);
            var total := V20Total(ds, config.weights, NormalizeRisk(risk), fs, hooks);
            && r.ScoredV2? && r.output.finalScore.total == total
            && r.output.acceptable == AcceptanceDecision(total, StatsOf(config.weights, ds, total, sqrt).lower95,
                                                         threshold, config.acceptByLowerBound)
  {
    hide DomainScores, ListResults, StatsOf, FactorsById, CustomFactors, InputError, V20Total, HasWeight,
      AcceptanceDecision;
  }

  /** The same for the v2 entry point, whose total is never rejected. */
  lemma TotalV2Monotone(config: ScoringConfig, hostId: string, threshold: real, w: seq<CheckInput>, b: seq<CheckInput>,
                        risk: RiskContext, sqrt: real -> real, ovW: map<string, real>, ovB: map<string, real>)
    requires Comparable(config, w, b, config.policy, ovW, ovB) && InputError(hostId, threshold, b).None?
    ensures var rw, rb := AssessV2(config, hostId, threshold, w, risk, DEFAULT_HOOKS, sqrt, ovW),
                          AssessV2(config, hostId, threshold, b, risk, DEFAULT_HOOKS, sqrt, ovB);
            && rw.ScoredV2? && rb.ScoredV2? && rw.output.finalScore.total <= rb.output.finalScore.total
            && (!config.acceptByLowerBound && rw.output.acceptable ==> rb.output.acceptable)
            && (SpreadsGrow(w, b, config.policy) && IsRoot(sqrt) && rw.output.acceptable ==> rb.output.acceptable)
  {
    assert WorseChecks(w, b);
    hide DomainScores, ListResults, V20Total, Comparable, WorseInputs, StatsOf, SpreadsGrow, FactorsById, CustomFactors,
      WorseChecks, AssessV2;
    var fm, custom := FactorsById(config.edgeFactors), CustomFactors(config.edgeFactors);
    var dw, db := DomainScores(config.weights, w, config.policy), DomainScores(config.weights, b, config.policy);
    var fw, fb := ListResults(fm, w, custom, config.policy, ovW), ListResults(fm, b, custom, config.policy, ovB);
    ComparedInputs(config, w, b, config.policy, ovW, ovB);
    SameDomainsSameError(config, hostId, threshold, w, b, config.policy, ovW, ovB);
    AssessedV2(config, hostId, threshold, w, risk, DEFAULT_HOOKS, sqrt, ovW);
    AssessedV2(config, hostId, threshold, b, risk, DEFAULT_HOOKS, sqrt, ovB);
    hide InputError, IsRoot;
    V20TotalMonotone(dw, db, config.weights, NormalizeRisk(risk), fw, fb);
    if SpreadsGrow(w, b, config.policy) && IsRoot(sqrt) {
      LowerBoundFalls(config.weights, w, b, config.policy,
        V20Total(dw, config.weights, NormalizeRisk(risk), fw, DEFAULT_HOOKS),
        V20Total(db, config.weights, NormalizeRisk(risk), fb, DEFAULT_HOOKS), sqrt);
    }
  }
}
