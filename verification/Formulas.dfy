/** The two hand-written formulas, the trees that restate them, and how far the two forms agree. */
module Formulas {
  import opened Rounding
  import opened SsamTypes
  import opened Aggregation
  import opened FormulaAst

  const DEFAULT_HOOKS := Hooks(None, None)

  // ----- version 1.2 -----

  function V12Raw(ds: seq<DomainScore>, ws: seq<WeightConfig>, threat: real, spc: real,
                  fs: seq<EdgeFactorResult>): real {
    WeightedMean(ds, WeightMap(ws)) * threat * spc * ProductChain(fs)
  }

  lemma ZeroTimes(a: real, b: real, c: real)
    ensures 0.0 * a * b * c == 0.0
  {
  }

  method SSAMV12Formula(
    domainScores: seq<DomainScore>, weights: seq<WeightConfig>, threatCoeff: real, spcScore: real,
    edgeFactors: seq<EdgeFactorResult>) returns (r: real)
    ensures r == Round2(V12Raw(domainScores, weights, threatCoeff, spcScore, edgeFactors))
  {
    var wMap := BuildWeightMap(weights);
    var sum, totalWeight := AccumulateWeighted(domainScores, wMap);
    if totalWeight == 0.0 {
      ZeroTimes(threatCoeff, spcScore, ProductChain(edgeFactors));
      Round2OfWhole(0);
      return 0.0;
    }
    var baseScore := sum / totalWeight;
    baseScore := baseScore * threatCoeff;
    baseScore := baseScore * spcScore;
    baseScore := ApplyEdgeFactorStrategyToBase(baseScore, edgeFactors, DEFAULT_HOOKS);
    assert baseScore == V12Raw(domainScores, weights, threatCoeff, spcScore, edgeFactors);
    r := Round2(baseScore);
  }

  function Leaf(op: Op): FormulaAST {
    FormulaAST(op, None, None, "", 0.0)
  }

  function RefNode(ref: string): FormulaAST {
    FormulaAST(OpRef, None, None, ref, 0.0)
  }

  function ConstNode(c: real): FormulaAST {
    FormulaAST(OpConst, None, None, "", c)
  }

  function Node(op: Op, l: FormulaAST, r: FormulaAST): FormulaAST {
    FormulaAST(op, Some(l), Some(r), "", 0.0)
  }

  /** The evaluator gives `v`, and no reference in the tree is read differently by compiled code. */
  predicate Denotes(ast: FormulaAST, v: real, ctx: EvalContext, hooks: Hooks) {
    EvalAST(ast, ctx, hooks) == Value(v) && WellFormed(ast) && AllRefsAgree(ast, ctx)
  }

  lemma NodeDenotes(op: Op, l: FormulaAST, a: real, r: FormulaAST, b: real, ctx: EvalContext, hooks: Hooks)
    requires IsBinary(op) && Denotes(l, a, ctx, hooks) && Denotes(r, b, ctx, hooks)
    ensures Denotes(Node(op, l, r), Combine(op, a, b), ctx, hooks)
  {
  }

  lemma ProductDenotes(l: FormulaAST, a: real, r: FormulaAST, b: real, p: real, ctx: EvalContext, hooks: Hooks)
    requires Denotes(l, a, ctx, hooks) && Denotes(r, b, ctx, hooks) && p == a * b
    ensures Denotes(Node(OpMultiply, l, r), p, ctx, hooks)
  {
    NodeDenotes(OpMultiply, l, a, r, b, ctx, hooks);
  }

  function SSAMV12AST(): FormulaAST {
    Node(OpMultiply,
      Node(OpMultiply,
        Node(OpMultiply, Leaf(OpWeightedSum), RefNode("threat")),
        RefNode("exposure")),
      Leaf(OpProductChain))
  }

  lemma V12TreeDenotes(ctx: EvalContext)
    ensures Denotes(SSAMV12AST(), V12Raw(ctx.domainScores, ctx.weights, ctx.risk.threat, ctx.risk.exposure,
                                         ctx.edgeFactors),
                    ctx, DEFAULT_HOOKS)
  {
    hide WeightedMean, ProductChain;
    var mean := WeightedMean(ctx.domainScores, WeightMap(ctx.weights));
    var p := mean * ctx.risk.threat;
    var q := p * ctx.risk.exposure;
    var a := Node(OpMultiply, Leaf(OpWeightedSum), RefNode("threat"));
    ProductDenotes(Leaf(OpWeightedSum), mean, RefNode("threat"), ctx.risk.threat, p, ctx, DEFAULT_HOOKS);
    ProductDenotes(a, p, RefNode("exposure"), ctx.risk.exposure, q, ctx, DEFAULT_HOOKS);
    ProductDenotes(Node(OpMultiply, a, RefNode("exposure")), q, Leaf(OpProductChain), ProductChain(ctx.edgeFactors),
      q * ProductChain(ctx.edgeFactors), ctx, DEFAULT_HOOKS);
  }

  /** The published v1.2 score is the rounded value of the v1.2 tree, evaluated or compiled. */
  lemma V12TreeRefinesFormula(ctx: EvalContext)
    ensures var raw := V12Raw(ctx.domainScores, ctx.weights, ctx.risk.threat, ctx.risk.exposure, ctx.edgeFactors);
            && EvalAST(SSAMV12AST(), ctx, DEFAULT_HOOKS) == Value(raw)
            && Top(Exec(CompileAST(SSAMV12AST()), [], ctx, DEFAULT_HOOKS)) == raw
  {
    V12TreeDenotes(ctx);
    hide SSAMV12AST, V12Raw;
    CompiledAgreesWithEvaluator(SSAMV12AST(), ctx, DEFAULT_HOOKS);
  }

  // ----- version 2.0 -----

  datatype RiskLayerDetail = RiskLayerDetail(coeff: real, weight: real, contributors: seq<string>)

  datatype FinalScore = FinalScore(
    total: real, intrinsic: RiskLayerDetail, exposure: RiskLayerDetail, threat: RiskLayerDetail)

  /** Non-positive coefficients count as one, and no coefficient counts less than 0.60. */
  function LayerCoeff(c: real): real {
    if c <= 0.0 then 1.0 else Max(c, 0.60)
  }

  function AdjustedMean(ds: seq<DomainScore>, ws: seq<WeightConfig>, fs: seq<EdgeFactorResult>, hooks: Hooks): real {
    WeightedMean(ApplyDomainAdjust(ds, fs, hooks), WeightMap(ws))
  }

  /** Some scored domain (after adjustment) has a positive weight. */
  predicate HasWeight(ds: seq<DomainScore>, ws: seq<WeightConfig>, fs: seq<EdgeFactorResult>, hooks: Hooks) {
    WeightTotal(ApplyDomainAdjust(ds, fs, hooks), WeightMap(ws)) != 0.0
  }

  /** The intrinsic layer before rounding: adjusted mean times the combined edge factors. */
  function V20Exact(ds: seq<DomainScore>, ws: seq<WeightConfig>, fs: seq<EdgeFactorResult>, hooks: Hooks): real {
    AdjustedMean(ds, ws, fs, hooks) * StrategyValue(fs, hooks)
  }

  /** Three layers weighted 50/30/20, of which only the intrinsic one is rounded on its own. */
  function LayeredTotal(exact: real, risk: RiskContext): real {
    Round2(0.5 * Round2(exact) + 30.0 * LayerCoeff(risk.exposure) + 20.0 * LayerCoeff(risk.threat))
  }

  function V20Total(
    ds: seq<DomainScore>, ws: seq<WeightConfig>, risk: RiskContext, fs: seq<EdgeFactorResult>, hooks: Hooks): real
  {
    if HasWeight(ds, ws, fs, hooks) then LayeredTotal(V20Exact(ds, ws, fs, hooks), risk) else 0.0
  }

  function EffectiveIds(fs: seq<EdgeFactorResult>): seq<string> {
    if fs == [] then []
    else EffectiveIds(fs[..|fs| - 1]) + if Effective(fs[|fs| - 1]) then ["edge_factor:" + fs[|fs| - 1].id] else []
  }

  lemma LayerArithmetic(base: real, e: real, t: real)
    ensures (base / 100.0 * 50.0 + e * 30.0 + t * 20.0) / 100.0 * 100.0 == 0.5 * base + 30.0 * e + 20.0 * t
  {
  }

  method IntrinsicContributors(edgeFactors: seq<EdgeFactorResult>) returns (contributors: seq<string>)
    ensures contributors == ["domain_scores"] + EffectiveIds(edgeFactors)
  {
    contributors := ["domain_scores"];
    for i := 0 to |edgeFactors|
      invariant contributors == ["domain_scores"] + EffectiveIds(edgeFactors[..i])
    {
      if edgeFactors[i].active && edgeFactors[i].factor > 0.0 && edgeFactors[i].factor < 1.0 {
        contributors := contributors + ["edge_factor:" + edgeFactors[i].id];
      }
      assert edgeFactors[..i + 1][..i] == edgeFactors[..i];
    }
    assert edgeFactors[..|edgeFactors|] == edgeFactors;
  }

  method CombineLayers(baseScore: real, riskCtx: RiskContext)
    returns (finalScore: real, exposureCoeff: real, threatCoeff: real)
    ensures exposureCoeff == LayerCoeff(riskCtx.exposure) && threatCoeff == LayerCoeff(riskCtx.threat)
    ensures forall exact :: baseScore == Round2(exact) ==> finalScore == LayeredTotal(exact, riskCtx)
  {
    var intrinsicCoeff := baseScore / 100.0;

    exposureCoeff := riskCtx.exposure;
    if exposureCoeff <= 0.0 { exposureCoeff := 1.0; }
    if exposureCoeff < 0.60 { exposureCoeff := 0.60; }
    threatCoeff := riskCtx.threat;
    if threatCoeff <= 0.0 { threatCoeff := 1.0; }
    if threatCoeff < 0.60 { threatCoeff := 0.60; }

    LayerArithmetic(baseScore, exposureCoeff, threatCoeff);
    var totalLayerWeight := 50.0 + 30.0 + 20.0;
    var weightedAvg := (intrinsicCoeff * 50.0 + exposureCoeff * 30.0 + threatCoeff * 20.0) / totalLayerWeight;
    finalScore := Round2(weightedAvg * 100.0);
  }

  /** The total with its layers. Without a weighted domain the coefficients are reported as given, with no weight. */
  function V20Final(
    ds: seq<DomainScore>, ws: seq<WeightConfig>, risk: RiskContext, fs: seq<EdgeFactorResult>, hooks: Hooks): FinalScore
  {
    if HasWeight(ds, ws, fs, hooks) then
      FinalScore(V20Total(ds, ws, risk, fs, hooks),
        RiskLayerDetail(Round2(Round2(V20Exact(ds, ws, fs, hooks)) / 100.0), 50.0,
                        ["domain_scores"] + EffectiveIds(fs)),
        RiskLayerDetail(LayerCoeff(risk.exposure), 30.0, ["exposure_coefficient"]),
        RiskLayerDetail(LayerCoeff(risk.threat), 20.0, ["threat_coefficient"]))
    else
      FinalScore(V20Total(ds, ws, risk, fs, hooks),
        RiskLayerDetail(0.0, 0.0, ["domain_scores"]),
        RiskLayerDetail(risk.exposure, 0.0, ["exposure_coefficient"]),
        RiskLayerDetail(risk.threat, 0.0, ["threat_coefficient"]))
  }

  method SSAMV20Formula(
    domainScores: seq<DomainScore>, weights: seq<WeightConfig>, riskCtx: RiskContext,
    edgeFactors: seq<EdgeFactorResult>, hooks: Hooks) returns (r: FinalScore)
    ensures r == V20Final(domainScores, weights, riskCtx, edgeFactors, hooks)
  {
    var adjusted := ApplyDomainAdjust(domainScores, edgeFactors, hooks);
    var wMap := BuildWeightMap(weights);
    var sum, totalWeight := AccumulateWeighted(adjusted, wMap);
    if totalWeight == 0.0 {
      return FinalScore(0.0,
        RiskLayerDetail(0.0, 0.0, ["domain_scores"]),
        RiskLayerDetail(riskCtx.exposure, 0.0, ["exposure_coefficient"]),
        RiskLayerDetail(riskCtx.threat, 0.0, ["threat_coefficient"]));
    }
    var baseScore := sum / totalWeight;
    var contributors := IntrinsicContributors(edgeFactors);
    baseScore := ApplyEdgeFactorStrategyToBase(baseScore, edgeFactors, hooks);
    assert baseScore == V20Exact(domainScores, weights, edgeFactors, hooks);
    baseScore := Round2(baseScore);
    var finalScore, exposureCoeff, threatCoeff := CombineLayers(baseScore, riskCtx);
    r := FinalScore(finalScore,
      RiskLayerDetail(Round2(baseScore / 100.0), 50.0, contributors),
      RiskLayerDetail(exposureCoeff, 30.0, ["exposure_coefficient"]),
      RiskLayerDetail(threatCoeff, 20.0, ["threat_coefficient"]));
  }

  lemma {:induction false} EffectiveIdsAre(fs: seq<EdgeFactorResult>, x: string)
    ensures x in EffectiveIds(fs)
            <==> exists f :: f in fs && f.active && 0.0 < f.factor < 1.0 && x == "edge_factor:" + f.id
  {
    if fs != [] {
      var n := |fs| - 1;
      EffectiveIdsAre(fs[..n], x);
      assert forall f :: f in fs <==> f in fs[..n] || f == fs[n];
    }
  }

  /** The layers of a total: the total is what their coefficients, weighted 50, 30 and 20 in the hundred, add up to
      but for the rounding of the intrinsic coefficient and the total; the intrinsic one names the edge factors
      that took part. Without a weighted domain there is neither total nor weight, and the coefficients are
      reported as they came. */
  lemma LayersAre(ds: seq<DomainScore>, ws: seq<WeightConfig>, risk: RiskContext, fs: seq<EdgeFactorResult>,
                  hooks: Hooks)
    ensures var r := V20Final(ds, ws, risk, fs, hooks);
            && r.total == V20Total(ds, ws, risk, fs, hooks)
            && (HasWeight(ds, ws, fs, hooks) ==>
                  && r.intrinsic.weight == 50.0 && r.exposure.weight == 30.0 && r.threat.weight == 20.0
                  && (risk.exposure > 0.0 ==> r.exposure.coeff == Max(risk.exposure, 0.60))
                  && (risk.threat > 0.0 ==> r.threat.coeff == Max(risk.threat, 0.60))
                  && (risk.exposure <= 0.0 ==> r.exposure.coeff == 1.0)
                  && (risk.threat <= 0.0 ==> r.threat.coeff == 1.0)
                  && Abs(r.total - (50.0 * r.intrinsic.coeff + 30.0 * r.exposure.coeff + 20.0 * r.threat.coeff))
                     <= 0.255
                  && Round2(r.intrinsic.coeff) == r.intrinsic.coeff && Round2(r.total) == r.total
                  && (forall x :: x in r.intrinsic.contributors
                                  <==> x == "domain_scores" || exists f :: f in fs && f.active && 0.0 < f.factor < 1.0
                                                                           && x == "edge_factor:" + f.id))
            && (!HasWeight(ds, ws, fs, hooks) ==>
                  && r.total == 0.0 && r.intrinsic == RiskLayerDetail(0.0, 0.0, ["domain_scores"])
                  && r.exposure.coeff == risk.exposure && r.threat.coeff == risk.threat
                  && r.exposure.weight == 0.0 == r.threat.weight)
            && r.exposure.contributors == ["exposure_coefficient"] && r.threat.contributors == ["threat_coefficient"]
  {
    hide HasWeight, V20Exact, EffectiveIds, Round2;
    var exact := V20Exact(ds, ws, fs, hooks);
    Round2WithinHalfCent(Round2(exact) / 100.0);
    Round2Idempotent(Round2(exact) / 100.0);
    Round2Idempotent(0.5 * Round2(exact) + 30.0 * LayerCoeff(risk.exposure) + 20.0 * LayerCoeff(risk.threat));
    Round2WithinHalfCent(0.5 * Round2(exact) + 30.0 * LayerCoeff(risk.exposure) + 20.0 * LayerCoeff(risk.threat));
    forall x { EffectiveIdsAre(fs, x); }
    assert forall x :: x in ["domain_scores"] + EffectiveIds(fs) <==> x == "domain_scores" || x in EffectiveIds(fs);
  }

  function SSAMV20AST(): FormulaAST {
    Node(OpAdd,
      Node(OpAdd,
        Node(OpMultiply, Node(OpMultiply, Leaf(OpWeightedSum), Leaf(OpProductChain)), ConstNode(0.50)),
        Node(OpMultiply, Node(OpMax, RefNode("exposure"), ConstNode(0.60)), ConstNode(30.0))),
      Node(OpMultiply, Node(OpMax, RefNode("threat"), ConstNode(0.60)), ConstNode(20.0)))
  }

  function BoundedLayer(c: real, weight: real): real {
    Max(c, 0.60) * weight
  }

  /** The layered value with nothing rounded and coefficients only bounded below. */
  function TreeTotal(exact: real, risk: RiskContext): real {
    exact * 0.5 + BoundedLayer(risk.exposure, 30.0) + BoundedLayer(risk.threat, 20.0)
  }

  function V20TreeValue(ctx: EvalContext, hooks: Hooks): real {
    TreeTotal(V20Exact(ctx.domainScores, ctx.weights, ctx.edgeFactors, hooks), ctx.risk)
  }

  lemma IntrinsicLayerDenotes(ctx: EvalContext, hooks: Hooks)
    ensures Denotes(Node(OpMultiply, Leaf(OpWeightedSum), Leaf(OpProductChain)),
                    V20Exact(ctx.domainScores, ctx.weights, ctx.edgeFactors, hooks), ctx, hooks)
  {
    NodeDenotes(OpMultiply,
      Leaf(OpWeightedSum), AdjustedMean(ctx.domainScores, ctx.weights, ctx.edgeFactors, hooks),
      Leaf(OpProductChain), StrategyValue(ctx.edgeFactors, hooks), ctx, hooks);
  }

  lemma CoefficientLayerDenotes(ref: string, c: real, w: real, ctx: EvalContext, hooks: Hooks)
    requires EvalRef(ref, ctx) == Value(c) && RefAgrees(ref, ctx)
    ensures Denotes(Node(OpMultiply, Node(OpMax, RefNode(ref), ConstNode(0.60)), ConstNode(w)),
                    BoundedLayer(c, w), ctx, hooks)
  {
    NodeDenotes(OpMax, RefNode(ref), c, ConstNode(0.60), 0.60, ctx, hooks);
    NodeDenotes(OpMultiply, Node(OpMax, RefNode(ref), ConstNode(0.60)), Max(c, 0.60), ConstNode(w), w, ctx, hooks);
  }

  lemma LayersDenote(p: FormulaAST, exact: real, e: FormulaAST, ev: real, t: FormulaAST, tv: real, ctx: EvalContext,
                     hooks: Hooks)
    requires Denotes(p, exact, ctx, hooks) && Denotes(e, ev, ctx, hooks) && Denotes(t, tv, ctx, hooks)
    ensures Denotes(Node(OpAdd, Node(OpAdd, Node(OpMultiply, p, ConstNode(0.50)), e), t), exact * 0.5 + ev + tv, ctx,
                    hooks)
  {
    var i := Node(OpMultiply, p, ConstNode(0.50));
    NodeDenotes(OpMultiply, p, exact, ConstNode(0.50), 0.50, ctx, hooks);
    NodeDenotes(OpAdd, i, exact * 0.5, e, ev, ctx, hooks);
    NodeDenotes(OpAdd, Node(OpAdd, i, e), exact * 0.5 + ev, t, tv, ctx, hooks);
  }

  /** Evaluated and compiled, the v2.0 tree has one value. */
  lemma V20TreeEvaluates(ctx: EvalContext, hooks: Hooks)
    ensures EvalAST(SSAMV20AST(), ctx, hooks) == Value(V20TreeValue(ctx, hooks))
    ensures Top(Exec(CompileAST(SSAMV20AST()), [], ctx, hooks)) == V20TreeValue(ctx, hooks)
  {
    V20TreeDenotes(ctx, hooks);
    hide V20TreeValue, SSAMV20AST, V20Exact;
    CompiledAgreesWithEvaluator(SSAMV20AST(), ctx, hooks);
  }

  lemma CoefficientRefs(ctx: EvalContext)
    ensures EvalRef("exposure", ctx) == Value(ctx.risk.exposure) && RefAgrees("exposure", ctx)
    ensures EvalRef("threat", ctx) == Value(ctx.risk.threat) && RefAgrees("threat", ctx)
  {
  }

  lemma V20TreeDenotes(ctx: EvalContext, hooks: Hooks)
    ensures Denotes(SSAMV20AST(), V20TreeValue(ctx, hooks), ctx, hooks)
  {
    CoefficientRefs(ctx);
    hide V20Exact, EvalRef, RefAgrees, Denotes, BoundedLayer;
    IntrinsicLayerDenotes(ctx, hooks);
    CoefficientLayerDenotes("exposure", ctx.risk.exposure, 30.0, ctx, hooks);
    CoefficientLayerDenotes("threat", ctx.risk.threat, 20.0, ctx, hooks);
    LayersDenote(
      Node(OpMultiply, Leaf(OpWeightedSum), Leaf(OpProductChain)),
      V20Exact(ctx.domainScores, ctx.weights, ctx.edgeFactors, hooks),
      Node(OpMultiply, Node(OpMax, RefNode("exposure"), ConstNode(0.60)), ConstNode(30.0)),
      BoundedLayer(ctx.risk.exposure, 30.0),
      Node(OpMultiply, Node(OpMax, RefNode("threat"), ConstNode(0.60)), ConstNode(20.0)),
      BoundedLayer(ctx.risk.threat, 20.0), ctx, hooks);
  }

  /** The published v2.0 total stays within 0.0075 of the v2.0 tree exactly when some scored domain
      carries weight and both coefficients are positive. */
  lemma V20TreeRefinesFormulaIff(ctx: EvalContext, hooks: Hooks)
    ensures var total := V20Total(ctx.domainScores, ctx.weights, ctx.risk, ctx.edgeFactors, hooks);
            Abs(total - V20TreeValue(ctx, hooks)) <= 0.0075 <==>
            (HasWeight(ctx.domainScores, ctx.weights, ctx.edgeFactors, hooks)
             && ctx.risk.exposure > 0.0 && ctx.risk.threat > 0.0)
  {
    var exact := V20Exact(ctx.domainScores, ctx.weights, ctx.edgeFactors, hooks);
    if HasWeight(ctx.domainScores, ctx.weights, ctx.edgeFactors, hooks) {
      LayeredTotalGap(exact, ctx.risk);
    } else {
      ZeroTimes(StrategyValue(ctx.edgeFactors, hooks), 1.0, 1.0);
      assert exact == 0.0;
    }
  }

  lemma LayeredTotalGap(exact: real, risk: RiskContext)
    ensures Abs(LayeredTotal(exact, risk) - TreeTotal(exact, risk)) <= 0.0075
            <==> risk.exposure > 0.0 && risk.threat > 0.0
  {
    Round2WithinHalfCent(exact);
    Round2WithinHalfCent(0.5 * Round2(exact) + 30.0 * LayerCoeff(risk.exposure) + 20.0 * LayerCoeff(risk.threat));
  }
}
