/** Confidence-weighted domain scores: how much each failed check deducts, and how sure that is. */
module Confidence {
  import opened SsamTypes
  import opened RealLemmas
  import opened Aggregation
  import opened Ordering

  datatype ConfidencePolicy = ConfidencePolicy(
    enabled: bool, default: real, floor: real, priorStrength: real, algorithm: string)

  const BETA_BAYES := "beta_bayes"

  function IsBetaBayes(p: ConfidencePolicy): bool {
    p.algorithm == BETA_BAYES
  }

  function NormalizeConfidence(raw: real, policy: ConfidencePolicy): (c: real)
    ensures 0.0 < c <= 1.0
  {
    if !policy.enabled then 1.0
    else
      var d := if policy.default <= 0.0 || policy.default > 1.0 then 1.0 else policy.default;
      var f := if policy.floor <= 0.0 || policy.floor >= 1.0 then 0.05 else policy.floor;
      var c := if raw <= 0.0 then d else raw;
      var c' := if c < f then f else c;
      if c' > 1.0 then 1.0 else c'
  }

  function BetaShrinkConfidence(c: real, priorStrength: real): real {
    if priorStrength <= 0.0 then c else (priorStrength + c) / (priorStrength + 1.0)
  }

  /** The prior strength in force: a missing one counts as two. */
  function PriorStrength(policy: ConfidencePolicy): (k: real)
    ensures k > 0.0
  {
    if policy.priorStrength <= 0.0 then 2.0 else policy.priorStrength
  }

  function EffectiveConfidence(raw: real, policy: ConfidencePolicy): real {
    var c := NormalizeConfidence(raw, policy);
    if !policy.enabled || !IsBetaBayes(policy) then c
    else BetaShrinkConfidence(c, PriorStrength(policy))
  }

  // ----- what a confidence is worth -----

  /** Shrinking moves a confidence towards one: its distance from one is divided by `k + 1`. */
  lemma ShrinkTowardsOne(c: real, k: real)
    requires 0.0 < c <= 1.0 && k > 0.0
    ensures (1.0 - BetaShrinkConfidence(c, k)) * (k + 1.0) == 1.0 - c
    ensures c <= BetaShrinkConfidence(c, k) <= 1.0
    ensures BetaShrinkConfidence(c, k) == 1.0 <==> c == 1.0
  {
    var d := k + 1.0;
    var q := (1.0 - c) / d;
    assert q * d == 1.0 - c;
    Distribute(d, 1.0, -q);
    DivUnique(1.0 - q, k + c, d);
    Slack(1.0 - c, k);
    DivideOut(0.0, 1.0 - c, 1.0 - c, d);
    if q == 0.0 { assert q * d == 0.0; }
  }

  lemma Slack(x: real, k: real)
    requires x >= 0.0 && k >= 0.0
    ensures 0.0 * (k + 1.0) <= x <= x * (k + 1.0)
  {
    Distribute(x, k, 1.0);
    MulMonotone(0.0, x, k);
  }

  lemma EffectiveConfidenceRange(raw: real, policy: ConfidencePolicy)
    ensures 0.0 < EffectiveConfidence(raw, policy) <= 1.0
    ensures !policy.enabled ==> EffectiveConfidence(raw, policy) == 1.0
  {
    if policy.enabled && IsBetaBayes(policy) {
      ShrinkTowardsOne(NormalizeConfidence(raw, policy), PriorStrength(policy));
    }
  }

  /** Raising a stated confidence never lowers the effective one. (An unstated confidence, zero,
      stands for the default and is not comparable.) */
  lemma EffectiveConfidenceMonotone(raw: real, raw': real, policy: ConfidencePolicy)
    requires 0.0 < raw <= raw'
    ensures EffectiveConfidence(raw, policy) <= EffectiveConfidence(raw', policy)
  {
    if policy.enabled && IsBetaBayes(policy) {
      var k := PriorStrength(policy);
      DivMonotone(k + NormalizeConfidence(raw, policy), k + NormalizeConfidence(raw', policy), k + 1.0);
    }
  }

  // ----- one domain -----

  predicate Deducts(c: CheckInput, domain: string) {
    c.domain == domain && !c.passed && c.delta < 0.0
  }

  function CheckDeduction(c: CheckInput, domain: string, policy: ConfidencePolicy): real {
    if Deducts(c, domain) then Abs(c.delta) * EffectiveConfidence(c.confidence, policy) else 0.0
  }

  /** Expected deduction: the sum of |delta| times confidence over the domain's failed checks. */
  function Deduction(domain: string, checks: seq<CheckInput>, policy: ConfidencePolicy): real {
    if checks == [] then 0.0
    else Deduction(domain, checks[..|checks| - 1], policy) + CheckDeduction(checks[|checks| - 1], domain, policy)
  }

  /** Each failed check is a Bernoulli deduction and adds delta^2 c (1 - c). */
  function BernoulliVariance(s: real, c: real): real {
    Square(s) * Spread(c)
  }

  function Spread(c: real): real {
    c * (1.0 - c)
  }

  lemma BernoulliAssociates(s: real, c: real)
    ensures s * s * c * (1.0 - c) == BernoulliVariance(s, c)
  {
  }

  function CheckVariance(c: CheckInput, domain: string, policy: ConfidencePolicy): real {
    if Deducts(c, domain) then BernoulliVariance(Abs(c.delta), EffectiveConfidence(c.confidence, policy)) else 0.0
  }

  function DeductionVariance(domain: string, checks: seq<CheckInput>, policy: ConfidencePolicy): real {
    if checks == [] then 0.0
    else DeductionVariance(domain, checks[..|checks| - 1], policy) + CheckVariance(checks[|checks| - 1], domain, policy)
  }

  function DeltaTotal(domain: string, checks: seq<CheckInput>): real {
    if checks == [] then 0.0
    else
      var c := checks[|checks| - 1];
      DeltaTotal(domain, checks[..|checks| - 1]) + if Deducts(c, domain) then Abs(c.delta) else 0.0
  }

  function DomainScoreOf(domain: string, checks: seq<CheckInput>, policy: ConfidencePolicy): DomainScore {
    var e, total := Deduction(domain, checks, policy), DeltaTotal(domain, checks);
    DomainScore(domain, Max(0.0, 100.0 - e), DeductionVariance(domain, checks, policy),
                if total > 0.0 then e / total else 1.0)
  }

  method DomainBayes(domain: string, checks: seq<CheckInput>, policy: ConfidencePolicy) returns (r: DomainScore)
    ensures r == DomainScoreOf(domain, checks, policy)
  {
    var eSum, varSum, absDeltaSum, weightedDeltaSum := 0.0, 0.0, 0.0, 0.0;
    for i := 0 to |checks|
      invariant eSum == weightedDeltaSum == Deduction(domain, checks[..i], policy)
      invariant varSum == DeductionVariance(domain, checks[..i], policy)
      invariant absDeltaSum == DeltaTotal(domain, checks[..i])
    {
      var c := checks[i];
      assert checks[..i + 1][..i] == checks[..i];
      if c.domain != domain || c.passed || c.delta >= 0.0 {
        continue;
      }
      var s := Abs(c.delta);
      var conf := EffectiveConfidence(c.confidence, policy);
      assert Deducts(c, domain);
      eSum := eSum + s * conf;
      BernoulliAssociates(s, conf);
      varSum := varSum + s * s * conf * (1.0 - conf);
      absDeltaSum := absDeltaSum + s;
      weightedDeltaSum := weightedDeltaSum + s * conf;
    }
    assert checks[..|checks|] == checks;
    r := DomainScore(domain, Max(0.0, 100.0 - eSum), varSum,
                     if absDeltaSum > 0.0 then weightedDeltaSum / absDeltaSum else 1.0);
  }

  lemma CheckDeductionBounds(c: CheckInput, domain: string, policy: ConfidencePolicy)
    ensures if Deducts(c, domain) then 0.0 < CheckDeduction(c, domain, policy) <= Abs(c.delta)
            else CheckDeduction(c, domain, policy) == 0.0
  {
    hide EffectiveConfidence;
    var e := EffectiveConfidence(c.confidence, policy);
    EffectiveConfidenceRange(c.confidence, policy);
    if Deducts(c, domain) {
      MulMonotone(e, 1.0, Abs(c.delta));
      MulPositive(Abs(c.delta), e);
    }
  }

  lemma {:induction false} DeductionBounds(domain: string, checks: seq<CheckInput>, policy: ConfidencePolicy)
    ensures 0.0 <= Deduction(domain, checks, policy) <= DeltaTotal(domain, checks)
    ensures DeltaTotal(domain, checks) > 0.0 ==> Deduction(domain, checks, policy) > 0.0
  {
    if checks != [] {
      DeductionBounds(domain, checks[..|checks| - 1], policy);
      CheckDeductionBounds(checks[|checks| - 1], domain, policy);
    }
  }

  /** Scores lie in [0,100], evidence confidence in (0,1]. */
  lemma DomainScoreRange(domain: string, checks: seq<CheckInput>, policy: ConfidencePolicy)
    ensures var r := DomainScoreOf(domain, checks, policy);
            0.0 <= r.score <= 100.0 && 0.0 < r.confidence <= 1.0
  {
    DeductionBounds(domain, checks, policy);
    var e, total := Deduction(domain, checks, policy), DeltaTotal(domain, checks);
    if total > 0.0 {
      DivideOut(0.0, e, 1.0, total);
      var q := e / total;
      assert q * total == e;
      if q <= 0.0 { MulMonotone(q, 0.0, total); }
    }
  }

  /** Every failed check in full trust: the deduction is the plain sum of deltas and nothing is uncertain. */
  lemma {:induction false} FullTrustIsLegacy(domain: string, checks: seq<CheckInput>, policy: ConfidencePolicy)
    requires forall i :: 0 <= i < |checks| && Deducts(checks[i], domain) ==>
               EffectiveConfidence(checks[i].confidence, policy) == 1.0
    ensures Deduction(domain, checks, policy) == DeltaTotal(domain, checks)
    ensures DeductionVariance(domain, checks, policy) == 0.0
  {
    if checks != [] {
      FullTrustIsLegacy(domain, checks[..|checks| - 1], policy);
    }
  }

  /** With the policy disabled scores are the historical ones: no variance, full evidence confidence. */
  lemma DisabledPolicyIsLegacy(domain: string, checks: seq<CheckInput>, policy: ConfidencePolicy)
    requires !policy.enabled
    ensures DomainScoreOf(domain, checks, policy) ==
            DomainScore(domain, Max(0.0, 100.0 - DeltaTotal(domain, checks)), 0.0, 1.0)
  {
    FullTrustIsLegacy(domain, checks, policy);
    var total := DeltaTotal(domain, checks);
    if total > 0.0 { DivUnique(1.0, total, total); }
  }

  /** The confidence used, from the one stated: full under a disabled policy; otherwise the stated one, or the default
      where none is stated, held between the floor and one, and under beta_bayes moved towards one by the prior. */
  lemma ConfidenceInForce(raw: real, policy: ConfidencePolicy)
    ensures !policy.enabled ==> EffectiveConfidence(raw, policy) == 1.0
    ensures policy.enabled ==>
              var floor := if 0.0 < policy.floor < 1.0 then policy.floor else 0.05;
              var stated := if raw > 0.0 then raw else if 0.0 < policy.default <= 1.0 then policy.default else 1.0;
              var c := Min(1.0, Max(floor, stated));
              var k := if policy.priorStrength > 0.0 then policy.priorStrength else 2.0;
              && (policy.algorithm != "beta_bayes" ==> EffectiveConfidence(raw, policy) == c)
              && (policy.algorithm == "beta_bayes" ==> EffectiveConfidence(raw, policy) == (k + c) / (k + 1.0))
  {
  }

  /** One more failed check of the domain takes its delta times its confidence off the score, down to 0 at most, and
      adds a Bernoulli variance; any other check changes nothing. */
  lemma OneMoreCheckCounts(domain: string, checks: seq<CheckInput>, c: CheckInput, policy: ConfidencePolicy)
    ensures var was, r := DomainScoreOf(domain, checks, policy), DomainScoreOf(domain, checks + [c], policy);
            var k := EffectiveConfidence(c.confidence, policy);
            if c.domain == domain && !c.passed && c.delta < 0.0
            then r.score == Max(0.0, was.score + c.delta * k)
                 && r.variance == was.variance + (c.delta * c.delta) * (k * (1.0 - k))
            else r == was
    ensures DomainScoreOf(domain, [], policy) == DomainScore(domain, 100.0, 0.0, 1.0)
  {
    assert (checks + [c])[..|checks + [c]| - 1] == checks;
    DeductionBounds(domain, checks, policy);
    CheckAdds(c, domain, policy);
    hide EffectiveConfidence, CheckDeduction, CheckVariance;
  }

  lemma CheckAdds(c: CheckInput, domain: string, policy: ConfidencePolicy)
    ensures var k := EffectiveConfidence(c.confidence, policy);
            if c.domain == domain && !c.passed && c.delta < 0.0
            then CheckDeduction(c, domain, policy) == -(c.delta * k) >= 0.0
                 && CheckVariance(c, domain, policy) == (c.delta * c.delta) * (k * (1.0 - k))
            else CheckDeduction(c, domain, policy) == 0.0 == CheckVariance(c, domain, policy)
  {
    CheckDeductionBounds(c, domain, policy);
    hide EffectiveConfidence;
    var k := EffectiveConfidence(c.confidence, policy);
    if Deducts(c, domain) {
      assert (-c.delta) * k == -(c.delta * k);
      assert Square(-c.delta) == c.delta * c.delta;
    }
  }

  /** The evidence confidence is the part of the plain deduction, the one made without confidences, that is made. */
  lemma EvidenceConfidenceIsRatio(domain: string, checks: seq<CheckInput>, policy: ConfidencePolicy)
    requires DomainScoreOf(domain, checks, policy.(enabled := false)).score > 0.0
    ensures var r := DomainScoreOf(domain, checks, policy);
            var plain := DomainScoreOf(domain, checks, policy.(enabled := false));
            100.0 - r.score == Times(r.confidence, 100.0 - plain.score)
            && (plain.score == 100.0 ==> r.confidence == 1.0)
  {
    DeductionBounds(domain, checks, policy);
    DisabledPolicyIsLegacy(domain, checks, policy.(enabled := false));
    var e, total := Deduction(domain, checks, policy), DeltaTotal(domain, checks);
    if total > 0.0 {
      assert Times(e / total, total) == e;
    } else {
      assert Times(1.0, 0.0) == 0.0;
    }
    hide Times;
  }

  // ----- worse observations -----

  /** `w` observes at least as much failure as `b`: a passed check may have failed, and a failed one
      may be trusted more, provided its confidence was stated. */
  predicate WorseCheck(w: CheckInput, b: CheckInput) {
    && w.checkId == b.checkId && w.domain == b.domain && w.delta == b.delta
    && (b.passed || (!w.passed && (w.confidence == b.confidence || 0.0 < b.confidence <= w.confidence)))
  }

  predicate WorseChecks(w: seq<CheckInput>, b: seq<CheckInput>) {
    |w| == |b| && forall i :: 0 <= i < |w| ==> WorseCheck(w[i], b[i])
  }

  lemma WorseConfidence(w: CheckInput, b: CheckInput, policy: ConfidencePolicy)
    requires WorseCheck(w, b) && !b.passed
    ensures EffectiveConfidence(b.confidence, policy) <= EffectiveConfidence(w.confidence, policy)
  {
    if w.confidence != b.confidence {
      EffectiveConfidenceMonotone(b.confidence, w.confidence, policy);
    }
  }

  lemma CheckDeductionMonotone(w: CheckInput, b: CheckInput, domain: string, policy: ConfidencePolicy)
    requires WorseCheck(w, b)
    ensures CheckDeduction(b, domain, policy) <= CheckDeduction(w, domain, policy)
  {
    hide EffectiveConfidence;
    CheckDeductionBounds(w, domain, policy);
    if Deducts(b, domain) {
      WorseConfidence(w, b, policy);
      MulMonotone(EffectiveConfidence(b.confidence, policy), EffectiveConfidence(w.confidence, policy), Abs(w.delta));
    }
  }

  lemma {:induction false} DeductionMonotone(domain: string, w: seq<CheckInput>, b: seq<CheckInput>,
                                             policy: ConfidencePolicy)
    requires WorseChecks(w, b)
    ensures Deduction(domain, b, policy) <= Deduction(domain, w, policy)
  {
    if w != [] {
      var n := |w| - 1;
      DeductionMonotone(domain, w[..n], b[..n], policy);
      CheckDeductionMonotone(w[n], b[n], domain, policy);
    }
  }

  lemma DomainScoreMonotone(domain: string, w: seq<CheckInput>, b: seq<CheckInput>, policy: ConfidencePolicy)
    requires WorseChecks(w, b)
    ensures DomainScoreOf(domain, w, policy).score <= DomainScoreOf(domain, b, policy).score
  {
    DeductionMonotone(domain, w, b, policy);
  }

  // ----- all domains -----

  /** The domains of the checks, or, without any check, the configured domains. */
  function ActiveDomains(ws: seq<WeightConfig>, checks: seq<CheckInput>): set<string> {
    if checks == [] then WeightMap(ws).Keys else set c | c in checks :: c.domain
  }

  ghost function DomainScores(ws: seq<WeightConfig>, checks: seq<CheckInput>,
                              policy: ConfidencePolicy): seq<DomainScore> {
    var domains := SortedListing(ActiveDomains(ws, checks));
    seq(|domains|, i requires 0 <= i < |domains| => DomainScoreOf(domains[i], checks, policy))
  }

  function DomainOf(d: DomainScore): string {
    d.domain
  }

  method CollectActiveDomains(weights: seq<WeightConfig>, checks: seq<CheckInput>) returns (active: set<string>)
    ensures active == ActiveDomains(weights, checks)
  {
    var wMap := BuildWeightMap(weights);
    active := {};
    for i := 0 to |checks|
      invariant active == set c | c in checks[..i] :: c.domain
    {
      active := active + {checks[i].domain};
      assert checks[..i + 1] == checks[..i] + [checks[i]];
    }
    assert checks[..|checks|] == checks;
    assert |checks| > 0 ==> checks[0].domain in active;
    if active == {} {
      active := wMap.Keys;
    }
  }

  /** Whatever order the map of active domains is walked in, the result is the one list in domain order. */
  method ComputeDomainScoresBayes(weights: seq<WeightConfig>, checks: seq<CheckInput>, policy: ConfidencePolicy)
    returns (results: seq<DomainScore>)
    ensures results == DomainScores(weights, checks, policy)
  {
    var active := CollectActiveDomains(weights, checks);
    var todo := active;
    var found: seq<DomainScore> := [];
    while todo != {}
      invariant todo <= active
      invariant forall d :: d in found ==> d == DomainScoreOf(d.domain, checks, policy)
      invariant Distinct(Keys(found, DomainOf))
      invariant Elements(Keys(found, DomainOf)) == active - todo
      decreases todo
    {
      var domain :| domain in todo;
      var d := DomainBayes(domain, checks, policy);
      assert domain !in Elements(Keys(found, DomainOf));
      KeysAppend(found, d, DomainOf);
      assert Elements(Keys(found, DomainOf) + [domain]) == Elements(Keys(found, DomainOf)) + {domain};
      found := found + [d];
      todo := todo - {domain};
    }
    results := SortByKey(found, DomainOf);
    SameMembers(found, results);
    ListingIs(Keys(results, DomainOf), active);
    ghost var spec := DomainScores(weights, checks, policy);
    forall i | 0 <= i < |results| ensures results[i] == spec[i] {
      assert results[i] in found;
      assert Keys(results, DomainOf)[i] == SortedListing(active)[i];
    }
  }

  /** A domain is scored exactly when some check is filed under it, or, without any check, when it is configured. */
  lemma DomainScoredIff(ws: seq<WeightConfig>, checks: seq<CheckInput>, policy: ConfidencePolicy, d: string)
    ensures d in Keys(DomainScores(ws, checks, policy), DomainOf)
            <==> if |checks| > 0 then exists c :: c in checks && c.domain == d else exists w :: w in ws && w.domain == d
    ensures StrictlySorted(Keys(DomainScores(ws, checks, policy), DomainOf))
  {
    var ids, ds := SortedListing(ActiveDomains(ws, checks)), DomainScores(ws, checks, policy);
    hide Deduction, DeltaTotal, DeductionVariance, SortedListing;
    assert Keys(ds, DomainOf) == ids;
    assert d in ids <==> d in Elements(ids);
    if checks == [] {
      WeightMapLastWins(ws, d);
      LastFor(ws, d);
    }
  }

  lemma {:induction false} LastFor(ws: seq<WeightConfig>, d: string)
    ensures (exists w :: w in ws && w.domain == d) <==> exists i: nat :: IsLastFor(ws, i, d)
  {
    if ws != [] {
      var n := |ws| - 1;
      LastFor(ws[..n], d);
      if ws[n].domain == d {
        assert IsLastFor(ws, n, d) && ws[n] in ws;
      } else {
        assert forall i: nat :: IsLastFor(ws, i, d) <==> IsLastFor(ws[..n], i, d);
        assert forall w :: w in ws <==> w in ws[..n] || w == ws[n];
      }
    }
  }

  /** Worse checks list the same domains and lower every score. */
  lemma DomainScoresMonotone(ws: seq<WeightConfig>, w: seq<CheckInput>, b: seq<CheckInput>, policy: ConfidencePolicy)
    requires WorseChecks(w, b)
    ensures NoBetter(DomainScores(ws, w, policy), DomainScores(ws, b, policy))
  {
    SameActiveDomains(ws, w, b);
    var domains := SortedListing(ActiveDomains(ws, w));
    forall i | 0 <= i < |domains|
      ensures DomainScoreOf(domains[i], w, policy).score <= DomainScoreOf(domains[i], b, policy).score
    {
      DomainScoreMonotone(domains[i], w, b, policy);
    }
  }

  lemma SameActiveDomains(ws: seq<WeightConfig>, w: seq<CheckInput>, b: seq<CheckInput>)
    requires WorseChecks(w, b)
    ensures ActiveDomains(ws, w) == ActiveDomains(ws, b)
  {
    if w != [] {
      forall d ensures d in ActiveDomains(ws, w) <==> d in ActiveDomains(ws, b) {
        if d in ActiveDomains(ws, w) {
          var i :| 0 <= i < |w| && w[i].domain == d;
          assert b[i] in b && b[i].domain == d;
        }
        if d in ActiveDomains(ws, b) {
          var i :| 0 <= i < |b| && b[i].domain == d;
          assert w[i] in w && w[i].domain == d;
        }
      }
    }
  }

  // ----- weighted_evidence against beta_bayes -----

  /** The same policy with the algorithm switched to beta_bayes. */
  function WithBeta(policy: ConfidencePolicy): ConfidencePolicy {
    policy.(algorithm := BETA_BAYES)
  }

  lemma BetaConfidence(raw: real, policy: ConfidencePolicy)
    requires !IsBetaBayes(policy)
    ensures EffectiveConfidence(raw, policy) <= EffectiveConfidence(raw, WithBeta(policy))
  {
    if policy.enabled { ShrinkTowardsOne(NormalizeConfidence(raw, policy), PriorStrength(policy)); }
  }

  lemma BetaCheckDeductsMore(c: CheckInput, domain: string, policy: ConfidencePolicy)
    requires !IsBetaBayes(policy)
    ensures CheckDeduction(c, domain, policy) <= CheckDeduction(c, domain, WithBeta(policy))
  {
    if Deducts(c, domain) {
      BetaConfidence(c.confidence, policy);
      hide EffectiveConfidence;
      MulMonotone(EffectiveConfidence(c.confidence, policy), EffectiveConfidence(c.confidence, WithBeta(policy)),
                  Abs(c.delta));
    }
  }

  lemma {:induction false} BetaDeductsMore(domain: string, checks: seq<CheckInput>, policy: ConfidencePolicy)
    requires !IsBetaBayes(policy)
    ensures Deduction(domain, checks, policy) <= Deduction(domain, checks, WithBeta(policy))
  {
    if checks != [] {
      BetaDeductsMore(domain, checks[..|checks| - 1], policy);
      BetaCheckDeductsMore(checks[|checks| - 1], domain, policy);
    }
  }

  /** Switching a domain to beta_bayes never raises its score. */
  lemma BetaNeverRaisesScore(domain: string, checks: seq<CheckInput>, policy: ConfidencePolicy)
    requires !IsBetaBayes(policy)
    ensures DomainScoreOf(domain, checks, WithBeta(policy)).score <= DomainScoreOf(domain, checks, policy).score
  {
    BetaDeductsMore(domain, checks, policy);
  }

  /** One failed check of weight `s > 0`: shrinking its confidence lowers (or keeps) its variance
      exactly when the confidence is one or at least 1/(k+2). */
  lemma ShrinkLowersVarianceIff(s: real, c: real, k: real)
    requires s > 0.0 && 0.0 < c <= 1.0 && k > 0.0
    ensures BernoulliVariance(s, BetaShrinkConfidence(c, k)) <= BernoulliVariance(s, c) <==>
            c == 1.0 || c * (k + 2.0) >= 1.0
  {
    hide Square, Spread, BetaShrinkConfidence;
    SquarePositive(s);
    ScaleOrder(Square(s), Spread(BetaShrinkConfidence(c, k)), Spread(c));
    ShrinkLowersSpreadIff(c, k);
  }

  lemma ShrinkLowersSpreadIff(c: real, k: real)
    requires 0.0 < c <= 1.0 && k > 0.0
    ensures Spread(BetaShrinkConfidence(c, k)) <= Spread(c) <==> c == 1.0 || c * (k + 2.0) >= 1.0
  {
    hide BetaShrinkConfidence;
    var b, d := BetaShrinkConfidence(c, k), k + 1.0;
    var q := 1.0 - b;
    ShrinkTowardsOne(c, k);
    if c < 1.0 {
      // Both spreads carry the positive factor q: what is left is b against c (k + 1).
      var m := c * d;
      SpreadFactors(c, q, d, m);
      assert Spread(b) == b * q;
      BetaThreshold(c, k, q);
      hide Spread;
      ScaleOrder(q, b, m);
    }
  }

  lemma SpreadFactors(c: real, q: real, d: real, m: real)
    requires q * d == 1.0 - c && m == c * d
    ensures Spread(c) == m * q
  {
    assert c * d * q == c * (q * d);
  }

  lemma BetaThreshold(c: real, k: real, q: real)
    requires k > 0.0 && q * (k + 1.0) == 1.0 - c
    ensures 1.0 - q <= c * (k + 1.0) <==> c * (k + 2.0) >= 1.0
  {
    var d, b := k + 1.0, 1.0 - q;
    assert b * d == k + c by { Distribute(d, 1.0, -q); }
    var gap, m := c * d - b, c * (k + 2.0) - 1.0;
    ThresholdIdentity(c, k, b);
    if gap >= 0.0 {
      MulNonNegative(gap, d);
      if m < 0.0 { MulStrict(m, 0.0, k); }
    } else {
      MulStrict(gap, 0.0, d);
      if m >= 0.0 { MulNonNegative(m, k); }
    }
  }

  lemma ThresholdIdentity(c: real, k: real, b: real)
    requires b * (k + 1.0) == k + c
    ensures (c * (k + 1.0) - b) * (k + 1.0) == (c * (k + 2.0) - 1.0) * k
  {
    assert (c * (k + 1.0)) * (k + 1.0) == c * k * k + 2.0 * (c * k) + c;
    assert (c * (k + 2.0)) * k == c * k * k + 2.0 * (c * k);
  }

  lemma BetaEffective(raw: real, policy: ConfidencePolicy)
    requires policy.enabled && !IsBetaBayes(policy)
    ensures EffectiveConfidence(raw, policy) == NormalizeConfidence(raw, policy)
    ensures EffectiveConfidence(raw, WithBeta(policy)) ==
            BetaShrinkConfidence(NormalizeConfidence(raw, policy), PriorStrength(policy))
  {
  }

  /** The failed check is trusted at least 1/(k+2). */
  predicate TrustedEnough(c: CheckInput, policy: ConfidencePolicy) {
    NormalizeConfidence(c.confidence, policy) * (PriorStrength(policy) + 2.0) >= 1.0
  }

  lemma BetaCheckVariance(c: CheckInput, domain: string, policy: ConfidencePolicy)
    requires !IsBetaBayes(policy)
    requires Deducts(c, domain) ==> TrustedEnough(c, policy)
    ensures CheckVariance(c, domain, WithBeta(policy)) <= CheckVariance(c, domain, policy)
  {
    if Deducts(c, domain) && policy.enabled {
      BetaEffective(c.confidence, policy);
      hide BernoulliVariance, BetaShrinkConfidence, NormalizeConfidence;
      ShrinkLowersVarianceIff(Abs(c.delta), NormalizeConfidence(c.confidence, policy), PriorStrength(policy));
    }
  }

  /** A domain's variance does not grow when every failed check is trusted at least 1/(k+2). */
  lemma {:induction false} BetaNeverRaisesVariance(domain: string, checks: seq<CheckInput>, policy: ConfidencePolicy)
    requires !IsBetaBayes(policy)
    requires forall i :: 0 <= i < |checks| && Deducts(checks[i], domain) ==> TrustedEnough(checks[i], policy)
    ensures DeductionVariance(domain, checks, WithBeta(policy)) <= DeductionVariance(domain, checks, policy)
  {
    hide TrustedEnough, CheckVariance, WithBeta;
    if checks != [] {
      var n := |checks| - 1;
      var c := checks[n];
      BetaNeverRaisesVariance(domain, checks[..n], policy);
      BetaCheckVariance(c, domain, policy);
    }
  }

  /** For a domain with a single failed check the bound is exact. */
  lemma BetaVarianceSingleIff(c: CheckInput, policy: ConfidencePolicy)
    requires policy.enabled && !IsBetaBayes(policy) && Deducts(c, c.domain)
    ensures DeductionVariance(c.domain, [c], WithBeta(policy)) <= DeductionVariance(c.domain, [c], policy) <==>
            NormalizeConfidence(c.confidence, policy) == 1.0 || TrustedEnough(c, policy)
  {
    SingleVariance(c, policy);
    SingleVariance(c, WithBeta(policy));
    BetaEffective(c.confidence, policy);
    hide BernoulliVariance, BetaShrinkConfidence, NormalizeConfidence, DeductionVariance;
    ShrinkLowersVarianceIff(Abs(c.delta), NormalizeConfidence(c.confidence, policy), PriorStrength(policy));
  }

  lemma SingleVariance(c: CheckInput, policy: ConfidencePolicy)
    ensures DeductionVariance(c.domain, [c], policy) == CheckVariance(c, c.domain, policy)
  {
    hide CheckVariance;
    assert [c][..0] == [];
    assert DeductionVariance(c.domain, [], policy) == 0.0;
  }
}
