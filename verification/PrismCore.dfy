/** Prism's core layer: risk propagated from upstream hosts, security debt, collapse, dynamic score. */
module PrismCore {
  import opened Rounding
  import opened RealLemmas
  import opened SsamTypes
  import opened Ordering

  datatype CheckFailure = CheckFailure(checkId: string, delta: real, failUnix: int, confidence: real)

  datatype NodeState = NodeState(
    hostId: string, ssamScore: real, failedChecks: seq<CheckFailure>, criticality: real, confidence: real)

  datatype EdgeState = EdgeState(source: string, target: string, riskTransmission: real)

  datatype PrismConfig = PrismConfig(
    debtAlpha: real, propCap: real, debtCap: real, debtNormDays: real, pathDecay: real, maxPathDepth: int,
    scoreFloor: real, collapseBeta: real, aggregationMode: string)

  /** The library's square root and power, of which only the facts in `Lawful` are used. */
  datatype RealFunctions = RealFunctions(sqrt: real -> real, pow: (real, real) -> real)

  ghost predicate Lawful(fn: RealFunctions) {
    && IsRoot(fn.sqrt)
    && (forall x, y, a :: 0.0 <= x <= y && a > 0.0 ==> 0.0 <= fn.pow(x, a) <= fn.pow(y, a))
  }

  // ----- spill-over of one upstream host -----

  function ExternalRisk(ssamScore: real): real {
    (100.0 - ssamScore) / 100.0
  }

  function CriticalityFactor(criticality: real): (k: real)
    ensures k > 0.5
  {
    0.5 + if criticality <= 0.0 then 0.5 else criticality
  }

  function ComputeSpillover(upstreamERisk: real, transmission: real, criticality: real): real {
    upstreamERisk * transmission * CriticalityFactor(criticality)
  }

  type Nodes = map<string, NodeState>

  /** What one incoming edge carries; an edge from an unknown host carries nothing. */
  function Spill(e: EdgeState, nodes: Nodes): real {
    if e.source in nodes
    then ComputeSpillover(ExternalRisk(nodes[e.source].ssamScore), e.riskTransmission, nodes[e.source].criticality)
    else 0.0
  }

  function MaxSpill(edges: seq<EdgeState>, nodes: Nodes): real {
    if edges == [] then 0.0 else Max(MaxSpill(edges[..|edges| - 1], nodes), Spill(edges[|edges| - 1], nodes))
  }

  function SumSpill(edges: seq<EdgeState>, nodes: Nodes): real {
    if edges == [] then 0.0 else SumSpill(edges[..|edges| - 1], nodes) + Spill(edges[|edges| - 1], nodes)
  }

  function SumSquares(edges: seq<EdgeState>, nodes: Nodes): real {
    if edges == [] then 0.0 else SumSquares(edges[..|edges| - 1], nodes) + Square(Spill(edges[|edges| - 1], nodes))
  }

  function PropagatedRisk(edges: seq<EdgeState>, nodes: Nodes, mode: string, fn: RealFunctions): real {
    if mode == "max" then MaxSpill(edges, nodes)
    else if mode == "linear" then Min(1.0, SumSpill(edges, nodes))
    else Min(1.0, fn.sqrt(SumSquares(edges, nodes)))
  }

  method ComputePropagatedRisk(incoming: seq<EdgeState>, allNodes: Nodes, mode: string, fn: RealFunctions)
    returns (r: real)
    ensures r == PropagatedRisk(incoming, allNodes, mode, fn)
  {
    hide Spill;
    if mode == "max" {
      var maxSpill := 0.0;
      for i := 0 to |incoming|
        invariant maxSpill == MaxSpill(incoming[..i], allNodes) && maxSpill >= 0.0
      {
        assert incoming[..i + 1][..i] == incoming[..i];
        var spill := SpillOf(incoming[i], allNodes);
        if spill > maxSpill { maxSpill := spill; }
      }
      assert incoming[..|incoming|] == incoming;
      r := maxSpill;
    } else if mode == "linear" {
      var sum := 0.0;
      for i := 0 to |incoming|
        invariant sum == SumSpill(incoming[..i], allNodes)
      {
        assert incoming[..i + 1][..i] == incoming[..i];
        var spill := SpillOf(incoming[i], allNodes);
        sum := sum + spill;
      }
      assert incoming[..|incoming|] == incoming;
      r := Min(1.0, sum);
    } else {
      r := ComputePropagatedRiskRSS(incoming, allNodes, fn);
    }
  }

  method SpillOf(e: EdgeState, allNodes: Nodes) returns (spill: real)
    ensures spill == Spill(e, allNodes)
  {
    if e.source !in allNodes {
      return 0.0;
    }
    var upstream := allNodes[e.source];
    spill := ComputeSpillover(ExternalRisk(upstream.ssamScore), e.riskTransmission, upstream.criticality);
  }

  method ComputePropagatedRiskRSS(incoming: seq<EdgeState>, allNodes: Nodes, fn: RealFunctions) returns (r: real)
    ensures r == Min(1.0, fn.sqrt(SumSquares(incoming, allNodes)))
  {
    hide Spill;
    var sumSquares := 0.0;
    for i := 0 to |incoming|
      invariant sumSquares == SumSquares(incoming[..i], allNodes)
    {
      assert incoming[..i + 1][..i] == incoming[..i];
      var spill := SpillOf(incoming[i], allNodes);
      sumSquares := sumSquares + Square(spill);
    }
    assert incoming[..|incoming|] == incoming;
    r := Min(1.0, fn.sqrt(sumSquares));
  }

  // ----- what the spills add up to -----

  /** A spill is proportional to what is wrong upstream, to the transmission and to half more than the criticality;
      an unstated criticality counts as one half, an unknown host for nothing. */
  lemma SpillScales(e: EdgeState, nodes: Nodes)
    ensures e.source !in nodes ==> Spill(e, nodes) == 0.0
    ensures e.source in nodes ==>
              var u := nodes[e.source];
              var k := if u.criticality > 0.0 then u.criticality else 0.5;
              Spill(e, nodes) * 100.0 == ((100.0 - u.ssamScore) * e.riskTransmission) * (k + 0.5)
  {
    if e.source in nodes {
      var u := nodes[e.source];
      var x, t, k := ExternalRisk(u.ssamScore), e.riskTransmission, CriticalityFactor(u.criticality);
      assert x * 100.0 == 100.0 - u.ssamScore;
      assert (x * t * k) * 100.0 == ((x * 100.0) * t) * k;
    }
  }

  lemma NothingIncoming(nodes: Nodes, mode: string, fn: RealFunctions)
    requires Lawful(fn)
    ensures PropagatedRisk([], nodes, mode, fn) == 0.0
  {
    assert Square(0.0) == 0.0;
    RootUnique(fn.sqrt(0.0), 0.0);
  }

  lemma CappedRoot(x: real, fn: RealFunctions)
    requires Lawful(fn) && x >= 0.0
    ensures Square(Min(1.0, fn.sqrt(x))) == Min(1.0, x)
  {
    assert Square(1.0) == 1.0;
    hide Square;
    SquareOrder(fn.sqrt(x), 1.0);
    SquareOrder(1.0, fn.sqrt(x));
  }

  /** One more edge: the worst source stays or gives way, capped sums add, and under every other mode the squares do. */
  lemma OneMoreSource(edges: seq<EdgeState>, e: EdgeState, nodes: Nodes, mode: string, fn: RealFunctions)
    requires Lawful(fn) && SpillsNonNegative(edges, nodes) && Spill(e, nodes) >= 0.0
    ensures var old', new', x := PropagatedRisk(edges, nodes, mode, fn), PropagatedRisk(edges + [e], nodes, mode, fn),
                                 Spill(e, nodes);
            && (mode == "max" ==> new' == Max(old', x))
            && (mode == "linear" ==> new' == Min(1.0, old' + x))
            && (mode != "max" && mode != "linear" ==> Square(new') == Min(1.0, Square(old') + Square(x)) && new' >= 0.0)
  {
    var all := edges + [e];
    assert all[..|all| - 1] == edges;
    SquaresWithinSum(edges, nodes);
    var s, x := SumSquares(edges, nodes), Spill(e, nodes);
    SquareNonNegative(x);
    hide Spill, Square;
    CappedRoot(s, fn);
    CappedRoot(s + Square(x), fn);
  }

  lemma {:induction false} SpillsSkip(edges: seq<EdgeState>, k: nat, nodes: Nodes)
    requires k < |edges|
    ensures var rest, x := edges[..k] + edges[k + 1..], Spill(edges[k], nodes);
            && SumSpill(edges, nodes) == SumSpill(rest, nodes) + x
            && SumSquares(edges, nodes) == SumSquares(rest, nodes) + Square(x)
            && MaxSpill(edges, nodes) == Max(MaxSpill(rest, nodes), x)
  {
    hide Spill, Square;
    var n := |edges| - 1;
    if k == n {
      assert edges[..k] + edges[k + 1..] == edges[..n];
    } else {
      SpillsSkip(edges[..n], k, nodes);
      WithoutSnoc(edges, k);
    }
  }

  lemma {:induction false} SpillsReorder(edges: seq<EdgeState>, edges': seq<EdgeState>, nodes: Nodes)
    requires multiset(edges) == multiset(edges')
    ensures SumSpill(edges, nodes) == SumSpill(edges', nodes) && SumSquares(edges, nodes) == SumSquares(edges', nodes)
    ensures MaxSpill(edges, nodes) == MaxSpill(edges', nodes)
  {
    hide Spill, Square;
    if edges == [] {
      assert |edges'| == |multiset(edges')| == 0;
    } else {
      var n := |edges| - 1;
      var k := LastElsewhere(edges, edges');
      SpillsReorder(edges[..n], edges'[..k] + edges'[k + 1..], nodes);
      SpillsSkip(edges', k, nodes);
    }
  }

  /** The order of the incoming edges does not matter. */
  lemma SourceOrderIrrelevant(edges: seq<EdgeState>, edges': seq<EdgeState>, nodes: Nodes, mode: string,
                              fn: RealFunctions)
    requires multiset(edges) == multiset(edges')
    ensures PropagatedRisk(edges, nodes, mode, fn) == PropagatedRisk(edges', nodes, mode, fn)
  {
    SpillsReorder(edges, edges', nodes);
  }

  // ----- the three aggregation modes, compared -----

  ghost predicate SpillsNonNegative(edges: seq<EdgeState>, nodes: Nodes) {
    forall i :: 0 <= i < |edges| ==> Spill(edges[i], nodes) >= 0.0
  }

  lemma {:induction false} MaxWithinSquares(edges: seq<EdgeState>, nodes: Nodes)
    requires SpillsNonNegative(edges, nodes)
    ensures 0.0 <= MaxSpill(edges, nodes) && Square(MaxSpill(edges, nodes)) <= SumSquares(edges, nodes)
  {
    hide Spill;
    if edges == [] {
      assert Square(0.0) == 0.0;
    } else {
      var n := |edges| - 1;
      MaxWithinSquares(edges[..n], nodes);
      SquareNonNegative(Spill(edges[n], nodes));
      SquareNonNegative(MaxSpill(edges[..n], nodes));
      hide Square;
    }
  }

  lemma {:induction false} SquaresWithinSum(edges: seq<EdgeState>, nodes: Nodes)
    requires SpillsNonNegative(edges, nodes)
    ensures 0.0 <= SumSpill(edges, nodes) && 0.0 <= SumSquares(edges, nodes) <= Square(SumSpill(edges, nodes))
  {
    hide Spill;
    if edges == [] {
      assert Square(0.0) == 0.0;
    } else {
      var n := |edges| - 1;
      SquaresWithinSum(edges[..n], nodes);
      SquareOfSum(SumSpill(edges[..n], nodes), Spill(edges[n], nodes));
      SquareNonNegative(Spill(edges[n], nodes));
      hide Square;
    }
  }

  lemma SquareOfSum(a: real, b: real)
    requires a >= 0.0 && b >= 0.0
    ensures Square(a + b) >= Square(a) + Square(b)
  {
    MulNonNegative(a, b);
    assert Square(a + b) == Square(a) + 2.0 * (a * b) + Square(b);
  }

  /** At equal spills the worst source weighs at most the root of squares, and that at most the sum. */
  lemma AggregationOrder(edges: seq<EdgeState>, nodes: Nodes, fn: RealFunctions, cap: real)
    requires Lawful(fn) && SpillsNonNegative(edges, nodes) && cap <= 1.0
    ensures Min(cap, PropagatedRisk(edges, nodes, "max", fn)) <= Min(cap, PropagatedRisk(edges, nodes, "rss", fn))
         <= Min(cap, PropagatedRisk(edges, nodes, "linear", fn))
  {
    MaxWithinSquares(edges, nodes);
    SquaresWithinSum(edges, nodes);
    hide Spill, Square;
    var root := fn.sqrt(SumSquares(edges, nodes));
    assert Square(root) == SumSquares(edges, nodes);
    SquareOrder(MaxSpill(edges, nodes), root);
    SquareOrder(root, SumSpill(edges, nodes));
  }

  /** Above one the cap no longer keeps the order: "max" alone is not limited to one. */
  lemma CapAboveOneBreaksOrder(fn: RealFunctions, cap: real)
    requires cap > 1.0
    ensures exists edges, nodes :: SpillsNonNegative(edges, nodes)
              && Min(cap, PropagatedRisk(edges, nodes, "max", fn)) > Min(cap, PropagatedRisk(edges, nodes, "rss", fn))
  {
    var e := EdgeState("u", "v", 4.0);
    var nodes := map["u" := NodeState("u", 0.0, [], 0.5, 1.0)];
    assert Spill(e, nodes) == 4.0;
    hide Spill;
    assert [e][..0] == [];
    assert MaxSpill([e], nodes) == Max(MaxSpill([], nodes), 4.0) == 4.0;
    assert SpillsNonNegative([e], nodes);
  }

  // ----- debt and collapse -----

  const SECONDS_PER_DAY := 86400.0

  function FailureConfidence(f: CheckFailure): (c: real)
    ensures 0.0 < c <= 1.0
  {
    if f.confidence <= 0.0 || f.confidence > 1.0 then 1.0 else f.confidence
  }

  function ElapsedDays(f: CheckFailure, now: int): (d: real)
    ensures d >= 0.0
  {
    Max(0.0, (now - f.failUnix) as real / SECONDS_PER_DAY)
  }

  function FailureWeight(f: CheckFailure): (w: real)
    ensures w >= 0.0
  {
    MulNonNegative(Abs(f.delta), FailureConfidence(f));
    Abs(f.delta) * FailureConfidence(f)
  }

  function FailureDebt(f: CheckFailure, alpha: real, now: int, fn: RealFunctions): real {
    FailureWeight(f) * fn.pow(ElapsedDays(f, now), alpha)
  }

  function DebtRaw(fs: seq<CheckFailure>, alpha: real, now: int, fn: RealFunctions): real {
    if fs == [] then 0.0 else DebtRaw(fs[..|fs| - 1], alpha, now, fn) + FailureDebt(fs[|fs| - 1], alpha, now, fn)
  }

  function EffectiveFailures(fs: seq<CheckFailure>): real {
    if fs == [] then 0.0 else EffectiveFailures(fs[..|fs| - 1]) + FailureConfidence(fs[|fs| - 1])
  }

  method ComputeDebtRaw(failures: seq<CheckFailure>, alpha: real, nowUnix: int, fn: RealFunctions) returns (total: real)
    ensures total == DebtRaw(failures, alpha, nowUnix, fn)
  {
    if |failures| == 0 {
      return 0.0;
    }
    total := 0.0;
    for i := 0 to |failures|
      invariant total == DebtRaw(failures[..i], alpha, nowUnix, fn)
    {
      assert failures[..i + 1][..i] == failures[..i];
      var f := failures[i];
      var elapsedDays := (nowUnix - f.failUnix) as real / SECONDS_PER_DAY;
      if elapsedDays < 0.0 { elapsedDays := 0.0; }
      var delta := Abs(f.delta) * FailureConfidence(f);
      total := total + delta * fn.pow(elapsedDays, alpha);
    }
    assert failures[..|failures|] == failures;
  }

  method EffectiveFailureCount(failures: seq<CheckFailure>) returns (n: real)
    ensures n == EffectiveFailures(failures)
  {
    n := 0.0;
    for i := 0 to |failures|
      invariant n == EffectiveFailures(failures[..i])
    {
      assert failures[..i + 1][..i] == failures[..i];
      n := n + FailureConfidence(failures[i]);
    }
    assert failures[..|failures|] == failures;
  }

  /** One more failure adds its delta, weighted by its confidence, times its age in days to the alpha, and its
      confidence to the count; a confidence outside (0,1] counts as full, a failure in the future as new. */
  lemma OneMoreFailureAdds(fs: seq<CheckFailure>, f: CheckFailure, alpha: real, now: int, fn: RealFunctions)
    ensures DebtRaw([], alpha, now, fn) == 0.0 && EffectiveFailures([]) == 0.0
    ensures var k := if 0.0 < f.confidence <= 1.0 then f.confidence else 1.0;
            var days := if now > f.failUnix then (now - f.failUnix) as real / 86400.0 else 0.0;
            var size := if f.delta < 0.0 then -f.delta else f.delta;
            && DebtRaw(fs + [f], alpha, now, fn) == DebtRaw(fs, alpha, now, fn) + (size * k) * fn.pow(days, alpha)
            && EffectiveFailures(fs + [f]) == EffectiveFailures(fs) + k
  {
    assert (fs + [f])[..|fs + [f]| - 1] == fs;
    AgeInDays(f, now);
  }

  lemma AgeInDays(f: CheckFailure, now: int)
    ensures ElapsedDays(f, now) == if now > f.failUnix then (now - f.failUnix) as real / 86400.0 else 0.0
  {
    var s := (now - f.failUnix) as real;
    if s > 0.0 { DivStrict(0.0, s, 86400.0); } else { DivMonotone(s, 0.0, 86400.0); }
  }

  function CollapseDenominator(n: real, cfg: PrismConfig, fn: RealFunctions): real {
    cfg.debtNormDays * cfg.debtCap * fn.sqrt(n)
  }

  function CollapseModifier(debtRaw: real, n: real, cfg: PrismConfig, fn: RealFunctions): real {
    if n < 2.0 || debtRaw <= 0.0 then 0.0
    else
      var denom := CollapseDenominator(n, cfg, fn);
      if denom <= 0.0 then 0.0 else Min(1.0, fn.pow(debtRaw / denom, cfg.collapseBeta))
  }

  lemma FailureDebtMonotone(f: CheckFailure, alpha: real, now: int, now': int, fn: RealFunctions)
    requires Lawful(fn) && alpha > 0.0 && now <= now'
    ensures 0.0 <= FailureDebt(f, alpha, now, fn) <= FailureDebt(f, alpha, now', fn)
  {
    DivMonotone((now - f.failUnix) as real, (now' - f.failUnix) as real, SECONDS_PER_DAY);
    hide FailureWeight;
    var p, p' := fn.pow(ElapsedDays(f, now), alpha), fn.pow(ElapsedDays(f, now'), alpha);
    assert 0.0 <= p <= p' by { hide Square; }
    MulNonNegative(FailureWeight(f), p);
    MulMonotone(p, p', FailureWeight(f));
  }

  /** Debt only grows with time. */
  lemma {:induction false} DebtMonotone(fs: seq<CheckFailure>, alpha: real, now: int, now': int, fn: RealFunctions)
    requires Lawful(fn) && alpha > 0.0 && now <= now'
    ensures 0.0 <= DebtRaw(fs, alpha, now, fn) <= DebtRaw(fs, alpha, now', fn)
  {
    if fs != [] {
      var n := |fs| - 1;
      DebtMonotone(fs[..n], alpha, now, now', fn);
      FailureDebtMonotone(fs[n], alpha, now, now', fn);
      hide FailureDebt;
    }
  }

  lemma CollapseInDebt(d: real, d': real, n: real, cfg: PrismConfig, fn: RealFunctions)
    requires Lawful(fn) && d <= d' && cfg.collapseBeta > 0.0
    ensures 0.0 <= CollapseModifier(d, n, cfg, fn) <= CollapseModifier(d', n, cfg, fn) <= 1.0
  {
    hide CollapseDenominator, Square;
    var denom := CollapseDenominator(n, cfg, fn);
    if n >= 2.0 && denom > 0.0 {
      if d > 0.0 {
        RatioOrder(d, d', denom);
        assert 0.0 <= fn.pow(d / denom, cfg.collapseBeta) <= fn.pow(d' / denom, cfg.collapseBeta);
      } else if d' > 0.0 {
        RatioOrder(d', d', denom);
        assert 0.0 <= fn.pow(d' / denom, cfg.collapseBeta);
      }
    }
  }

  lemma RatioOrder(d: real, d': real, denom: real)
    requires 0.0 < d <= d' && denom > 0.0
    ensures 0.0 <= d / denom <= d' / denom
  {
    DivMonotone(0.0, d, denom);
    DivMonotone(d, d', denom);
  }

  // ----- the dynamic score -----

  function Discounted(ssam: real, p: real, d: real, c: real): real {
    ssam * (1.0 - p) * (1.0 - d) * (1.0 - c)
  }

  /** The score before rounding, from its three penalties. */
  function FlooredScore(ssam: real, p: real, d: real, c: real, floor: real): real {
    Min(100.0, Max(Times(ssam, floor), Discounted(ssam, p, d, c)))
  }

  function PropPenalty(edges: seq<EdgeState>, nodes: Nodes, cfg: PrismConfig, fn: RealFunctions): real {
    Min(cfg.propCap, PropagatedRisk(edges, nodes, cfg.aggregationMode, fn))
  }

  function DebtPenalty(debtRaw: real, cfg: PrismConfig): real
    requires cfg.debtNormDays != 0.0
  {
    Min(cfg.debtCap, debtRaw / cfg.debtNormDays)
  }

  function ExactScore(node: NodeState, edges: seq<EdgeState>, nodes: Nodes, cfg: PrismConfig, now: int,
                      fn: RealFunctions): real
    requires cfg.debtNormDays != 0.0
  {
    var debt := DebtRaw(node.failedChecks, cfg.debtAlpha, now, fn);
    FlooredScore(node.ssamScore, PropPenalty(edges, nodes, cfg, fn), DebtPenalty(debt, cfg),
                 CollapseModifier(debt, EffectiveFailures(node.failedChecks), cfg, fn), cfg.scoreFloor)
  }

  datatype AssetRiskResult = AssetRiskResult(
    hostId: string, ssamScore: real, prismScore: real, externalRisk: real, propagatedRisk: real, propPenalty: real,
    debtRaw: real, debtPenalty: real, collapseModifier: real, confidence: real, effectiveFailures: real)

  function NormalizeNodeConfidence(c: real): real {
    if c <= 0.0 || c > 1.0 then 1.0 else c
  }

  method ComputeDynamicScore(node: NodeState, incoming: seq<EdgeState>, allNodes: Nodes, cfg: PrismConfig, nowUnix: int,
                             fn: RealFunctions)
    returns (r: AssetRiskResult)
    requires cfg.debtNormDays != 0.0
    ensures r.prismScore == Round2(ExactScore(node, incoming, allNodes, cfg, nowUnix, fn))
    ensures r.propPenalty == Round4(PropPenalty(incoming, allNodes, cfg, fn))
    ensures r.debtPenalty == Round4(DebtPenalty(DebtRaw(node.failedChecks, cfg.debtAlpha, nowUnix, fn), cfg))
    ensures r.collapseModifier == Round4(CollapseModifier(DebtRaw(node.failedChecks, cfg.debtAlpha, nowUnix, fn),
                                                          EffectiveFailures(node.failedChecks), cfg, fn))
    ensures r.hostId == node.hostId && r.ssamScore == node.ssamScore
            && r.confidence == (if 0.0 < node.confidence <= 1.0 then node.confidence else 1.0)
    ensures r.externalRisk == Round4(ExternalRisk(node.ssamScore))
    ensures r.propagatedRisk == Round4(PropagatedRisk(incoming, allNodes, cfg.aggregationMode, fn))
    ensures r.debtRaw == Round2(DebtRaw(node.failedChecks, cfg.debtAlpha, nowUnix, fn))
    ensures r.effectiveFailures == Round(EffectiveFailures(node.failedChecks) * 1000.0) as real / 1000.0
  {
    hide PropagatedRisk, CollapseModifier, DebtRaw, Discounted, Round2, Round4, EffectiveFailures;
    var propRiskRaw := ComputePropagatedRisk(incoming, allNodes, cfg.aggregationMode, fn);
    var propPenalty := Min(cfg.propCap, propRiskRaw);
    var debtRaw := ComputeDebtRaw(node.failedChecks, cfg.debtAlpha, nowUnix, fn);
    var debtPenalty := Min(cfg.debtCap, debtRaw / cfg.debtNormDays);
    var effFailures := EffectiveFailureCount(node.failedChecks);
    var collapseMod := CollapseModifier(debtRaw, effFailures, cfg, fn);
    var prismScore := Discounted(node.ssamScore, propPenalty, debtPenalty, collapseMod);
    var floor := Times(node.ssamScore, cfg.scoreFloor);
    hide Times;
    prismScore := Max(floor, prismScore);
    prismScore := Min(100.0, prismScore);
    r := AssetRiskResult(node.hostId, node.ssamScore, Round2(prismScore), Round4(ExternalRisk(node.ssamScore)),
                         Round4(propRiskRaw), Round4(propPenalty), Round2(debtRaw), Round4(debtPenalty),
                         Round4(collapseMod),
                         NormalizeNodeConfidence(node.confidence), Round(effFailures * 1000.0) as real / 1000.0);
  }

  /** The dynamic score in full: what propagation, debt and collapse, each up to its cap, leave of the static score one
      after another, but no less than the floor's share of it and no more than 100. */
  lemma ExactScoreIs(node: NodeState, edges: seq<EdgeState>, nodes: Nodes, cfg: PrismConfig, now: int,
                     fn: RealFunctions)
    requires cfg.debtNormDays != 0.0
    ensures var debt, n := DebtRaw(node.failedChecks, cfg.debtAlpha, now, fn), EffectiveFailures(node.failedChecks);
            var p := Min(cfg.propCap, PropagatedRisk(edges, nodes, cfg.aggregationMode, fn));
            var d := Min(cfg.debtCap, debt / cfg.debtNormDays);
            var c := CollapseModifier(debt, n, cfg, fn);
            var left := node.ssamScore * (1.0 - p) * (1.0 - d) * (1.0 - c);
            var low := node.ssamScore * cfg.scoreFloor;
            var r := ExactScore(node, edges, nodes, cfg, now, fn);
            && r <= 100.0 && (r == 100.0 || r == low || r == left)
            && (r < 100.0 ==> r >= low && r >= left) && (r == 100.0 ==> low >= 100.0 || left >= 100.0)
  {
    hide DebtRaw, EffectiveFailures, PropagatedRisk, CollapseModifier;
  }

  /** Collapse needs two failures' worth of confidence and some debt. Then it is the debt, measured against the capped
      norm times the root of the count, to the power beta, and at most one. */
  lemma CollapseIs(debt: real, n: real, cfg: PrismConfig, fn: RealFunctions)
    requires Lawful(fn)
    ensures n < 2.0 || debt <= 0.0 ==> CollapseModifier(debt, n, cfg, fn) == 0.0
    ensures n >= 2.0 && debt > 0.0 ==>
              var root := fn.sqrt(n);
              var norm := cfg.debtNormDays * cfg.debtCap * root;
              && root >= 0.0 && root * root == n
              && CollapseModifier(debt, n, cfg, fn)
                 == if norm <= 0.0 then 0.0 else Min(1.0, fn.pow(debt / norm, cfg.collapseBeta))
  {
    assert n >= 0.0 ==> Square(fn.sqrt(n)) == n;
    assert CollapseDenominator(n, cfg, fn) == cfg.debtNormDays * cfg.debtCap * fn.sqrt(n);
    hide CollapseDenominator;
    if n >= 2.0 && debt > 0.0 {
      var denom := CollapseDenominator(n, cfg, fn);
      if denom > 0.0 { assert CollapseModifier(debt, n, cfg, fn) == Min(1.0, fn.pow(debt / denom, cfg.collapseBeta)); }
    }
  }

  /** Caps and floor are fractions and the exponents positive, as in the shipped configuration. */
  predicate Sane(cfg: PrismConfig) {
    && 0.0 <= cfg.propCap <= 1.0 && 0.0 <= cfg.debtCap <= 1.0 && 0.0 <= cfg.scoreFloor <= 1.0
    && cfg.debtNormDays > 0.0 && cfg.debtAlpha > 0.0 && cfg.collapseBeta > 0.0
  }

  predicate Fraction(x: real) {
    0.0 <= x <= 1.0
  }

  lemma DiscountOrder(ssam: real, p: real, d: real, c: real, p': real, d': real, c': real)
    requires ssam >= 0.0 && Fraction(p) && Fraction(d) && Fraction(c) && Fraction(p') && Fraction(d') && Fraction(c')
    requires p <= p' && d <= d' && c <= c'
    ensures 0.0 <= Discounted(ssam, p', d', c') <= Discounted(ssam, p, d, c) <= ssam
  {
    ProductOrder(ssam, 1.0 - p', 1.0 - d', 1.0 - c', 1.0 - p, 1.0 - d, 1.0 - c);
    ProductOrder(ssam, 1.0 - p, 1.0 - d, 1.0 - c, 1.0, 1.0, 1.0);
  }

  lemma ProductOrder(s: real, x: real, y: real, z: real, x': real, y': real, z': real)
    requires s >= 0.0 && 0.0 <= x <= x' && 0.0 <= y <= y' && 0.0 <= z <= z'
    ensures 0.0 <= s * x * y * z <= s * x' * y' * z'
  {
    MulBoth(s, s, x, x');
    MulBoth(s * x, s * x', y, y');
    MulBoth(s * x * y, s * x' * y', z, z');
  }

  lemma PropagatedRiskNonNegative(edges: seq<EdgeState>, nodes: Nodes, mode: string, fn: RealFunctions)
    requires Lawful(fn) && SpillsNonNegative(edges, nodes)
    ensures PropagatedRisk(edges, nodes, mode, fn) >= 0.0
  {
    MaxWithinSquares(edges, nodes);
    SquaresWithinSum(edges, nodes);
    hide Spill, Square;
  }

  lemma PenaltiesAreFractions(edges: seq<EdgeState>, nodes: Nodes, cfg: PrismConfig, fs: seq<CheckFailure>, now: int,
                              fn: RealFunctions)
    requires Lawful(fn) && Sane(cfg) && SpillsNonNegative(edges, nodes)
    ensures Fraction(PropPenalty(edges, nodes, cfg, fn))
    ensures var debt := DebtRaw(fs, cfg.debtAlpha, now, fn);
            Fraction(DebtPenalty(debt, cfg)) && Fraction(CollapseModifier(debt, EffectiveFailures(fs), cfg, fn))
  {
    var debt := DebtRaw(fs, cfg.debtAlpha, now, fn);
    PropagatedRiskNonNegative(edges, nodes, cfg.aggregationMode, fn);
    DebtMonotone(fs, cfg.debtAlpha, now, now, fn);
    DivMonotone(0.0, debt, cfg.debtNormDays);
    CollapseInDebt(debt, debt, EffectiveFailures(fs), cfg, fn);
    hide PropagatedRisk, DebtRaw, CollapseModifier;
  }

  lemma FloorOrder(ssam: real, floor: real, x: real, x': real)
    requires 0.0 <= ssam <= 100.0 && Fraction(floor) && x' <= x <= ssam
    ensures Times(ssam, floor) <= Min(100.0, Max(Times(ssam, floor), x')) <= Min(100.0, Max(Times(ssam, floor), x))
            <= ssam
  {
    TimesMonotone(ssam, floor, 1.0);
    assert Times(ssam, 1.0) == ssam;
    hide Times;
  }

  /** The dynamic score never leaves the band between the floor and the static score. */
  lemma ScoreStaysInBand(node: NodeState, edges: seq<EdgeState>, nodes: Nodes, cfg: PrismConfig, now: int,
                         fn: RealFunctions)
    requires Lawful(fn) && Sane(cfg) && SpillsNonNegative(edges, nodes) && 0.0 <= node.ssamScore <= 100.0
    ensures node.ssamScore * cfg.scoreFloor <= ExactScore(node, edges, nodes, cfg, now, fn) <= node.ssamScore
  {
    PenaltiesAreFractions(edges, nodes, cfg, node.failedChecks, now, fn);
    hide PropPenalty, DebtPenalty, CollapseModifier, DebtRaw;
    var debt := DebtRaw(node.failedChecks, cfg.debtAlpha, now, fn);
    var p, d, c := PropPenalty(edges, nodes, cfg, fn), DebtPenalty(debt, cfg),
                   CollapseModifier(debt, EffectiveFailures(node.failedChecks), cfg, fn);
    DiscountOrder(node.ssamScore, p, d, c, p, d, c);
    hide Discounted;
    FloorOrder(node.ssamScore, cfg.scoreFloor, Discounted(node.ssamScore, p, d, c),
               Discounted(node.ssamScore, p, d, c));
  }

  lemma HigherPenaltiesLowerScore(ssam: real, floor: real, p: real, d: real, c: real, p': real, d': real, c': real)
    requires 0.0 <= ssam <= 100.0 && Fraction(floor)
    requires Fraction(p) && Fraction(d) && Fraction(c) && Fraction(p') && Fraction(d') && Fraction(c')
    requires p <= p' && d <= d' && c <= c'
    ensures FlooredScore(ssam, p', d', c', floor) <= FlooredScore(ssam, p, d, c, floor)
  {
    DiscountOrder(ssam, p, d, c, p', d', c');
    hide Discounted;
    FloorOrder(ssam, floor, Discounted(ssam, p, d, c), Discounted(ssam, p', d', c'));
  }

  /** As time passes with nothing fixed, the score never rises. */
  lemma ScoreFallsWithTime(node: NodeState, edges: seq<EdgeState>, nodes: Nodes, cfg: PrismConfig, now: int, now': int,
                           fn: RealFunctions)
    requires Lawful(fn) && Sane(cfg) && SpillsNonNegative(edges, nodes) && 0.0 <= node.ssamScore <= 100.0 && now <= now'
    ensures ExactScore(node, edges, nodes, cfg, now', fn) <= ExactScore(node, edges, nodes, cfg, now, fn)
  {
    var fs := node.failedChecks;
    PenaltiesAreFractions(edges, nodes, cfg, fs, now, fn);
    PenaltiesAreFractions(edges, nodes, cfg, fs, now', fn);
    DebtMonotone(fs, cfg.debtAlpha, now, now', fn);
    hide PropPenalty, CollapseModifier, DebtRaw, FlooredScore;
    var debt, debt' := DebtRaw(fs, cfg.debtAlpha, now, fn), DebtRaw(fs, cfg.debtAlpha, now', fn);
    DivMonotone(debt, debt', cfg.debtNormDays);
    CollapseInDebt(debt, debt', EffectiveFailures(fs), cfg, fn);
    HigherPenaltiesLowerScore(node.ssamScore, cfg.scoreFloor,
      PropPenalty(edges, nodes, cfg, fn), DebtPenalty(debt, cfg),
      CollapseModifier(debt, EffectiveFailures(fs), cfg, fn),
      PropPenalty(edges, nodes, cfg, fn), DebtPenalty(debt', cfg),
      CollapseModifier(debt', EffectiveFailures(fs), cfg, fn));
  }

  // ----- worsening upstream -----

  /** The same hosts with the same criticality, none scoring higher. */
  ghost predicate WorseNodes(w: Nodes, b: Nodes) {
    && w.Keys == b.Keys
    && forall h :: h in b ==> w[h].criticality == b[h].criticality && w[h].ssamScore <= b[h].ssamScore
  }

  /** The same sources, each transmitting at least as much. */
  predicate WorseEdges(ew: seq<EdgeState>, eb: seq<EdgeState>) {
    && |ew| == |eb|
    && forall i :: 0 <= i < |ew| ==>
         ew[i].source == eb[i].source && 0.0 <= eb[i].riskTransmission <= ew[i].riskTransmission
  }

  lemma RiskOfWorse(w: real, b: real)
    requires w <= b
    ensures ExternalRisk(b) <= ExternalRisk(w)
  {
    DivMonotone(100.0 - b, 100.0 - w, 100.0);
  }

  lemma SpillProducts(x: real, t: real, k: real, x': real, t': real)
    requires x <= x' && 0.0 <= t <= t' && k > 0.0 && x * t * k >= 0.0 && x' * t' * k >= 0.0
    ensures x * t * k <= x' * t' * k
  {
    if x >= 0.0 {
      MulBoth(x, x', t, t');
      MulMonotone(x * t, x' * t', k);
    } else if t > 0.0 {
      MulStrict(x, 0.0, t);
      MulStrict(x * t, 0.0, k);
    } else {
      assert x * t * k == 0.0;
    }
  }

  lemma SpillMonotone(ew: EdgeState, eb: EdgeState, w: Nodes, b: Nodes)
    requires WorseNodes(w, b) && ew.source == eb.source && 0.0 <= eb.riskTransmission <= ew.riskTransmission
    requires Spill(ew, w) >= 0.0 && Spill(eb, b) >= 0.0
    ensures Spill(eb, b) <= Spill(ew, w)
  {
    if eb.source in b {
      var x, x' := ExternalRisk(b[eb.source].ssamScore), ExternalRisk(w[eb.source].ssamScore);
      var k := CriticalityFactor(b[eb.source].criticality);
      RiskOfWorse(w[eb.source].ssamScore, b[eb.source].ssamScore);
      hide ExternalRisk, CriticalityFactor;
      SpillProducts(x, eb.riskTransmission, k, x', ew.riskTransmission);
    }
  }

  lemma {:induction false} AggregatesMonotone(ew: seq<EdgeState>, eb: seq<EdgeState>, w: Nodes, b: Nodes)
    requires WorseNodes(w, b) && WorseEdges(ew, eb) && SpillsNonNegative(ew, w) && SpillsNonNegative(eb, b)
    ensures MaxSpill(eb, b) <= MaxSpill(ew, w) && SumSpill(eb, b) <= SumSpill(ew, w)
    ensures SumSquares(eb, b) <= SumSquares(ew, w)
  {
    hide Spill;
    if ew != [] {
      var n := |ew| - 1;
      AggregatesMonotone(ew[..n], eb[..n], w, b);
      SpillMonotone(ew[n], eb[n], w, b);
      SquareOrder(Spill(eb[n], b), Spill(ew[n], w));
      hide Square;
    }
  }

  lemma PropagatedRiskMonotone(ew: seq<EdgeState>, eb: seq<EdgeState>, w: Nodes, b: Nodes, mode: string,
                               fn: RealFunctions)
    requires Lawful(fn) && WorseNodes(w, b) && WorseEdges(ew, eb) && SpillsNonNegative(ew, w)
             && SpillsNonNegative(eb, b)
    ensures PropagatedRisk(eb, b, mode, fn) <= PropagatedRisk(ew, w, mode, fn)
  {
    AggregatesMonotone(ew, eb, w, b);
    SquaresWithinSum(eb, b);
    hide Spill, Square;
    var rb, rw := fn.sqrt(SumSquares(eb, b)), fn.sqrt(SumSquares(ew, w));
    assert Square(rb) == SumSquares(eb, b) && Square(rw) == SumSquares(ew, w);
    SquareOrder(rb, rw);
  }

  /** When upstream hosts score worse and transmit no less, the score downstream never rises, in any aggregation
      mode. */
  lemma ScoreFallsWithUpstream(node: NodeState, ew: seq<EdgeState>, eb: seq<EdgeState>, w: Nodes, b: Nodes,
                               cfg: PrismConfig, now: int, fn: RealFunctions)
    requires Lawful(fn) && Sane(cfg) && 0.0 <= node.ssamScore <= 100.0
    requires WorseNodes(w, b) && WorseEdges(ew, eb) && SpillsNonNegative(ew, w) && SpillsNonNegative(eb, b)
    ensures ExactScore(node, ew, w, cfg, now, fn) <= ExactScore(node, eb, b, cfg, now, fn)
  {
    PropagatedRiskMonotone(ew, eb, w, b, cfg.aggregationMode, fn);
    var fs := node.failedChecks;
    PenaltiesAreFractions(eb, b, cfg, fs, now, fn);
    PenaltiesAreFractions(ew, w, cfg, fs, now, fn);
    assert PropPenalty(eb, b, cfg, fn) <= PropPenalty(ew, w, cfg, fn) by { hide PropagatedRisk; }
    hide PropPenalty, DebtPenalty, CollapseModifier, DebtRaw, FlooredScore;
    var debt := DebtRaw(fs, cfg.debtAlpha, now, fn);
    var d, c := DebtPenalty(debt, cfg), CollapseModifier(debt, EffectiveFailures(fs), cfg, fn);
    HigherPenaltiesLowerScore(node.ssamScore, cfg.scoreFloor, PropPenalty(eb, b, cfg, fn), d, c,
                              PropPenalty(ew, w, cfg, fn), d, c);
  }

  /** In particular along fixed edges, whatever range the upstream scores have. */
  lemma ScoreFallsAlongFixedEdges(node: NodeState, edges: seq<EdgeState>, w: Nodes, b: Nodes, cfg: PrismConfig,
                                  now: int, fn: RealFunctions)
    requires Lawful(fn) && Sane(cfg) && 0.0 <= node.ssamScore <= 100.0
    requires WorseNodes(w, b) && SpillsNonNegative(edges, b)
    requires forall i :: 0 <= i < |edges| ==> edges[i].riskTransmission >= 0.0
    ensures ExactScore(node, edges, w, cfg, now, fn) <= ExactScore(node, edges, b, cfg, now, fn)
  {
    forall i | 0 <= i < |edges| ensures Spill(edges[i], w) >= 0.0 { StillNonNegative(edges[i], w, b); }
    hide ExactScore, Spill;
    ScoreFallsWithUpstream(node, edges, edges, w, b, cfg, now, fn);
  }

  lemma StillNonNegative(e: EdgeState, w: Nodes, b: Nodes)
    requires WorseNodes(w, b) && e.riskTransmission >= 0.0 && Spill(e, b) >= 0.0
    ensures Spill(e, w) >= 0.0
  {
    if e.source in b {
      var x, x' := ExternalRisk(b[e.source].ssamScore), ExternalRisk(w[e.source].ssamScore);
      var k := CriticalityFactor(b[e.source].criticality);
      RiskOfWorse(w[e.source].ssamScore, b[e.source].ssamScore);
      hide ExternalRisk, CriticalityFactor;
      MulMonotone(x, x', e.riskTransmission);
      MulMonotone(x * e.riskTransmission, x' * e.riskTransmission, k);
    }
  }

  // ----- transmissions weighted by the source's own risk -----

  const TRANSMISSION_FLOOR := 0.1

  function TransmissionFactor(sourceSsam: real): real {
    TRANSMISSION_FLOOR + (1.0 - TRANSMISSION_FLOOR) * Max(0.0, Min(1.0, ExternalRisk(sourceSsam)))
  }

  function WeightedTransmission(base: real, sourceSsam: real): real {
    if base <= 0.0 then 0.0 else base * TransmissionFactor(sourceSsam)
  }

  /** From a tenth of its base at a source that scores 100 or more to all of it at one that scores 0 or less, in a
      straight line between; a base that is not positive transmits nothing. */
  lemma WeightedTransmissionIs(base: real, sourceSsam: real)
    ensures base <= 0.0 || sourceSsam >= 100.0 ==> WeightedTransmission(base, sourceSsam) == Max(0.0, base) * 0.1
    ensures base > 0.0 && sourceSsam <= 0.0 ==> WeightedTransmission(base, sourceSsam) == base
    ensures base > 0.0 && 0.0 <= sourceSsam <= 100.0 ==>
              WeightedTransmission(base, sourceSsam) == base * (1.0 - 0.009 * sourceSsam)
  {
  }

  /** The edges whose transmissions, given as base coefficients, are weighted by their sources. */
  function Weighted(edges: seq<EdgeState>, nodes: Nodes): seq<EdgeState> {
    seq(|edges|, i requires 0 <= i < |edges| =>
      if edges[i].source in nodes
      then edges[i].(riskTransmission := WeightedTransmission(edges[i].riskTransmission,
                                                              nodes[edges[i].source].ssamScore))
      else edges[i].(riskTransmission := 0.0))
  }

  lemma ScaledFractions(base: real, f: real, g: real)
    requires base > 0.0 && 0.1 <= f <= g && f <= 1.0
    ensures 0.1 * base <= base * f <= base * g && base * f <= base
  {
    MulMonotone(f, g, base);
    MulMonotone(0.1, f, base);
    MulMonotone(f, 1.0, base);
  }

  /** A weighted transmission keeps at least a tenth of its base and never more than all of it, and grows as the
      source worsens. */
  lemma WeightedTransmissionGrows(base: real, w: real, b: real)
    requires w <= b
    ensures 0.0 <= WeightedTransmission(base, b) <= WeightedTransmission(base, w)
    ensures base > 0.0 ==> 0.1 * base <= WeightedTransmission(base, b) <= base
  {
    RiskOfWorse(w, b);
    hide ExternalRisk;
    assert 0.1 <= TransmissionFactor(b) <= TransmissionFactor(w) && TransmissionFactor(b) <= 1.0;
    var f, g := TransmissionFactor(b), TransmissionFactor(w);
    hide TransmissionFactor;
    if base > 0.0 {
      ScaledFractions(base, f, g);
      assert WeightedTransmission(base, b) == base * f && WeightedTransmission(base, w) == base * g;
    }
  }

  lemma WeightedSpillsNonNegative(edges: seq<EdgeState>, nodes: Nodes)
    requires forall h :: h in nodes ==> nodes[h].ssamScore <= 100.0
    ensures SpillsNonNegative(Weighted(edges, nodes), nodes)
  {
    forall i | 0 <= i < |edges| ensures Spill(Weighted(edges, nodes)[i], nodes) >= 0.0 {
      var e := edges[i];
      if e.source in nodes {
        var ssam := nodes[e.source].ssamScore;
        WeightedTransmissionGrows(e.riskTransmission, ssam, ssam);
        RiskOfWorse(ssam, 100.0);
        assert ExternalRisk(100.0) == 0.0;
        hide WeightedTransmission, ExternalRisk, CriticalityFactor;
        var t := WeightedTransmission(e.riskTransmission, ssam);
        MulNonNegative(ExternalRisk(ssam), t);
        MulNonNegative(ExternalRisk(ssam) * t, CriticalityFactor(nodes[e.source].criticality));
      }
    }
  }

  /** With transmissions that are themselves recomputed from the sources' scores, a worse upstream still never
      raises the score. */
  lemma ScoreFallsWithWeightedUpstream(node: NodeState, edges: seq<EdgeState>, w: Nodes, b: Nodes, cfg: PrismConfig,
                                       now: int, fn: RealFunctions)
    requires Lawful(fn) && Sane(cfg) && 0.0 <= node.ssamScore <= 100.0
    requires WorseNodes(w, b) && forall h :: h in b ==> b[h].ssamScore <= 100.0
    ensures ExactScore(node, Weighted(edges, w), w, cfg, now, fn)
            <= ExactScore(node, Weighted(edges, b), b, cfg, now, fn)
  {
    WeightedSpillsNonNegative(edges, w);
    WeightedSpillsNonNegative(edges, b);
    var ew, eb := Weighted(edges, w), Weighted(edges, b);
    forall i | 0 <= i < |ew|
      ensures ew[i].source == eb[i].source && 0.0 <= eb[i].riskTransmission <= ew[i].riskTransmission
    {
      if edges[i].source in b {
        WeightedTransmissionGrows(edges[i].riskTransmission, w[edges[i].source].ssamScore,
                                  b[edges[i].source].ssamScore);
      }
    }
    hide ExactScore, Spill, Weighted, WeightedTransmission;
    ScoreFallsWithUpstream(node, ew, eb, w, b, cfg, now, fn);
  }

  // ----- one more failure -----

  /** Adding a failure of debt `x` and confidence `y` leaves the collapse ratio at least as high exactly
      when its debt outgrows the square root in the denominator. */
  lemma AddedFailureRatioIff(debt: real, n: real, x: real, y: real, k: real, fn: RealFunctions)
    requires Lawful(fn) && debt > 0.0 && n >= 2.0 && x >= 0.0 && y > 0.0
    requires k > 0.0 && fn.sqrt(n) > 0.0 && fn.sqrt(n + y) > 0.0
    ensures Ratio(debt + x, k, fn.sqrt(n + y)) >= Ratio(debt, k, fn.sqrt(n))
            <==> Times(Square(debt), n + y) <= Times(Square(debt + x), n)
  {
    hide Square, Times, Ratio;
    var r, r' := fn.sqrt(n), fn.sqrt(n + y);
    assert Square(r) == n && Square(r') == n + y;
    RatioIff(debt, debt + x, r, r', k);
  }

  function Ratio(debt: real, k: real, root: real): real
    requires k > 0.0 && root > 0.0
  {
    MulPositive(k, root);
    debt / (k * root)
  }

  lemma RatioIff(d: real, e: real, r: real, r': real, k: real)
    requires d >= 0.0 && e >= 0.0 && r > 0.0 && r' > 0.0 && k > 0.0
    ensures Ratio(e, k, r') >= Ratio(d, k, r) <==> Times(Square(d), Square(r')) <= Times(Square(e), Square(r))
  {
    MulPositive(k, r);
    MulPositive(k, r');
    CrossMultiply(e, k * r', d, k * r);
    FactorOut(e, d, r, r', k);
    RatioSquares(d, e, r, r');
    hide Times, Square;
  }

  lemma RatioSquares(d: real, e: real, r: real, r': real)
    requires d >= 0.0 && e >= 0.0 && r > 0.0 && r' > 0.0
    ensures d * r' <= e * r <==> Times(Square(d), Square(r')) <= Times(Square(e), Square(r))
  {
    MulNonNegative(e, r);
    MulNonNegative(d, r');
    SquareOrder(d * r', e * r);
    SquareOfProduct(d, r');
    SquareOfProduct(e, r);
    hide Times, Square;
  }

  lemma CrossMultiply(a: real, b: real, c: real, d: real)
    requires b > 0.0 && d > 0.0
    ensures a / b >= c / d <==> a * d >= c * b
  {
    var p, q := a / b, c / d;
    assert p * b == a && q * d == c;
    MulPositive(b, d);
    ScaleOrder(b * d, q, p);
    assert p * (b * d) == a * d && q * (b * d) == c * b;
  }

  lemma FactorOut(a: real, c: real, r: real, r': real, k: real)
    requires k > 0.0
    ensures a * (k * r) >= c * (k * r') <==> c * r' <= a * r
  {
    assert a * (k * r) == k * (a * r) && c * (k * r') == k * (c * r');
    ScaleOrder(k, c * r', a * r);
  }

  /** The added failure's debt outgrows the square root in the denominator, or collapse was not yet in play. */
  predicate DebtOutgrowsCount(debt: real, n: real, x: real, y: real) {
    n < 2.0 || debt <= 0.0 || Times(Square(debt), n + y) <= Times(Square(debt + x), n)
  }

  function NormDebt(cfg: PrismConfig): real {
    cfg.debtNormDays * cfg.debtCap
  }

  lemma CollapseAsRatio(debt: real, n: real, cfg: PrismConfig, fn: RealFunctions)
    requires Lawful(fn) && Sane(cfg) && n >= 2.0 && debt > 0.0 && cfg.debtCap > 0.0
    ensures NormDebt(cfg) > 0.0 && fn.sqrt(n) > 0.0
    ensures Ratio(debt, NormDebt(cfg), fn.sqrt(n)) >= 0.0
    ensures CollapseModifier(debt, n, cfg, fn)
            == Min(1.0, fn.pow(Ratio(debt, NormDebt(cfg), fn.sqrt(n)), cfg.collapseBeta))
  {
    var k := NormDebt(cfg);
    MulPositive(cfg.debtNormDays, cfg.debtCap);
    RootPositive(fn.sqrt(n), n);
    MulPositive(k, fn.sqrt(n));
    assert 0.0 / (k * fn.sqrt(n)) == 0.0;
    DivMonotone(0.0, debt, k * fn.sqrt(n));
    hide Square, Times;
  }

  lemma CollapseWithAddedFailure(debt: real, n: real, x: real, y: real, cfg: PrismConfig, fn: RealFunctions)
    requires Lawful(fn) && Sane(cfg) && x >= 0.0 && y > 0.0 && debt >= 0.0 && DebtOutgrowsCount(debt, n, x, y)
    ensures CollapseModifier(debt, n, cfg, fn) <= CollapseModifier(debt + x, n + y, cfg, fn)
  {
    if n >= 2.0 && debt > 0.0 && cfg.debtCap > 0.0 {
      CollapseAsRatio(debt, n, cfg, fn);
      CollapseAsRatio(debt + x, n + y, cfg, fn);
      hide Square, Times, CollapseModifier, NormDebt, Ratio;
      AddedFailureRatioIff(debt, n, x, y, NormDebt(cfg), fn);
    } else {
      CollapseInDebt(debt + x, debt + x, n + y, cfg, fn);
      if n >= 2.0 && debt > 0.0 { ZeroDenominator(n, cfg, fn); }
      hide Square, Times, CollapseDenominator;
    }
  }

  /** The textbook facts about powers with a positive exponent that `Lawful` leaves out. */
  ghost predicate LawfulPow(fn: RealFunctions) {
    && (forall a :: a > 0.0 ==> fn.pow(0.0, a) == 0.0 && fn.pow(1.0, a) == 1.0)
    && (forall x, y, a :: 0.0 <= x < y && a > 0.0 ==> fn.pow(x, a) < fn.pow(y, a))
  }

  /** Collapse is in play with this many failures of this debt, and not saturated. */
  ghost predicate BelowSaturation(debt: real, n: real, cfg: PrismConfig, fn: RealFunctions) {
    NormDebt(cfg) > 0.0 && fn.sqrt(n) > 0.0 && Ratio(debt, NormDebt(cfg), fn.sqrt(n)) < 1.0
  }

  /** One more failure makes collapse milder if and only if its debt does not outgrow the count and what results is
      not saturated. */
  lemma CollapseDropsIff(debt: real, n: real, x: real, y: real, cfg: PrismConfig, fn: RealFunctions)
    requires Lawful(fn) && LawfulPow(fn) && Sane(cfg) && x >= 0.0 && y > 0.0 && debt >= 0.0
    ensures CollapseModifier(debt + x, n + y, cfg, fn) < CollapseModifier(debt, n, cfg, fn)
            <==> !DebtOutgrowsCount(debt, n, x, y) && BelowSaturation(debt + x, n + y, cfg, fn)
  {
    if n >= 2.0 && debt > 0.0 && cfg.debtCap > 0.0 {
      CollapseAsRatio(debt, n, cfg, fn);
      CollapseAsRatio(debt + x, n + y, cfg, fn);
      hide Square, Times, CollapseModifier, NormDebt, Ratio;
      AddedFailureRatioIff(debt, n, x, y, NormDebt(cfg), fn);
      var q, r := Ratio(debt + x, NormDebt(cfg), fn.sqrt(n + y)), Ratio(debt, NormDebt(cfg), fn.sqrt(n));
      PowersCompare(q, r, cfg.collapseBeta, fn);
    } else if n >= 2.0 && debt > 0.0 {
      ZeroDenominator(n, cfg, fn);
      ZeroDenominator(n + y, cfg, fn);
      assert NormDebt(cfg) == 0.0;
      hide Square, Times, CollapseDenominator, NormDebt;
    } else {
      CollapseInDebt(debt + x, debt + x, n + y, cfg, fn);
      hide Square, Times, CollapseDenominator;
    }
  }

  lemma PowersCompare(q: real, r: real, a: real, fn: RealFunctions)
    requires LawfulPow(fn) && q >= 0.0 && r >= 0.0 && a > 0.0
    ensures Min(1.0, fn.pow(q, a)) < Min(1.0, fn.pow(r, a)) <==> q < r && q < 1.0
  {
    assert fn.pow(1.0, a) == 1.0;
    assert q < 1.0 ==> fn.pow(q, a) < fn.pow(1.0, a);
    assert q > 1.0 ==> fn.pow(1.0, a) < fn.pow(q, a);
    assert q < r ==> fn.pow(q, a) < fn.pow(r, a);
    assert r < q ==> fn.pow(r, a) < fn.pow(q, a);
  }

  lemma ZeroDenominator(n: real, cfg: PrismConfig, fn: RealFunctions)
    requires Sane(cfg) && cfg.debtCap <= 0.0
    ensures CollapseDenominator(n, cfg, fn) == 0.0
  {
    assert cfg.debtNormDays * 0.0 == 0.0;
  }

  lemma DebtPenaltyGrows(debt: real, debt': real, cfg: PrismConfig)
    requires Sane(cfg) && debt <= debt'
    ensures DebtPenalty(debt, cfg) <= DebtPenalty(debt', cfg)
  {
    DivMonotone(debt, debt', cfg.debtNormDays);
  }

  /** One more failure never raises the score when its debt outgrows the count, or collapse ends up saturated. */
  lemma AddedFailureLowersScoreWhen(node: NodeState, f: CheckFailure, edges: seq<EdgeState>, nodes: Nodes,
                                    cfg: PrismConfig, now: int, fn: RealFunctions)
    requires Lawful(fn) && Sane(cfg) && SpillsNonNegative(edges, nodes) && 0.0 <= node.ssamScore <= 100.0
    requires var debt, n := DebtRaw(node.failedChecks, cfg.debtAlpha, now, fn), EffectiveFailures(node.failedChecks);
             var x, y := FailureDebt(f, cfg.debtAlpha, now, fn), FailureConfidence(f);
             DebtOutgrowsCount(debt, n, x, y) || (LawfulPow(fn) && !BelowSaturation(debt + x, n + y, cfg, fn))
    ensures ExactScore(node.(failedChecks := node.failedChecks + [f]), edges, nodes, cfg, now, fn)
         <= ExactScore(node, edges, nodes, cfg, now, fn)
  {
    var fs, fs' := node.failedChecks, node.failedChecks + [f];
    assert fs'[..|fs'| - 1] == fs;
    PenaltiesAreFractions(edges, nodes, cfg, fs, now, fn);
    PenaltiesAreFractions(edges, nodes, cfg, fs', now, fn);
    DebtMonotone(fs, cfg.debtAlpha, now, now, fn);
    FailureDebtMonotone(f, cfg.debtAlpha, now, now, fn);
    var debt, x := DebtRaw(fs, cfg.debtAlpha, now, fn), FailureDebt(f, cfg.debtAlpha, now, fn);
    var n, y := EffectiveFailures(fs), FailureConfidence(f);
    assert DebtRaw(fs', cfg.debtAlpha, now, fn) == debt + x && EffectiveFailures(fs') == n + y;
    DebtPenaltyGrows(debt, debt + x, cfg);
    hide PropPenalty, DebtRaw, FlooredScore, EffectiveFailures, FailureDebt, DebtOutgrowsCount, BelowSaturation,
      CollapseModifier, DebtPenalty, Times;
    if DebtOutgrowsCount(debt, n, x, y) {
      CollapseWithAddedFailure(debt, n, x, y, cfg, fn);
    } else {
      CollapseDropsIff(debt, n, x, y, cfg, fn);
    }
    HigherPenaltiesLowerScore(node.ssamScore, cfg.scoreFloor,
      PropPenalty(edges, nodes, cfg, fn), DebtPenalty(debt, cfg), CollapseModifier(debt, n, cfg, fn),
      PropPenalty(edges, nodes, cfg, fn), DebtPenalty(debt + x, cfg), CollapseModifier(debt + x, n + y, cfg, fn));
  }

  /** What debt and collapse leave of a score. */
  function LeftOver(d: real, c: real): real {
    (1.0 - d) * (1.0 - c)
  }

  lemma DiscountedIs(ssam: real, p: real, d: real, c: real)
    ensures Discounted(ssam, p, d, c) == (ssam * (1.0 - p)) * LeftOver(d, c)
  {
    var a := ssam * (1.0 - p);
    assert a * (1.0 - d) * (1.0 - c) == a * ((1.0 - d) * (1.0 - c));
  }

  lemma PositiveFactor(a: real, k: real)
    requires a >= 0.0 && a * k > 0.0
    ensures a > 0.0
  {
  }

  lemma LeftOverDecides(ssam: real, p: real, d: real, c: real, d': real, c': real)
    requires 0.0 <= ssam && Fraction(p)
    requires Discounted(ssam, p, d', c') > 0.0
    ensures Discounted(ssam, p, d, c) < Discounted(ssam, p, d', c') <==> LeftOver(d, c) < LeftOver(d', c')
  {
    var a, k, k' := ssam * (1.0 - p), LeftOver(d, c), LeftOver(d', c');
    DiscountedIs(ssam, p, d, c);
    DiscountedIs(ssam, p, d', c');
    MulNonNegative(ssam, 1.0 - p);
    hide Discounted, LeftOver;
    PositiveFactor(a, k');
    ScaleOrder(a, k', k);
  }

  lemma RaisedIff(ssam: real, p: real, d: real, c: real, d': real, c': real, floor: real)
    requires 0.0 <= ssam <= 100.0 && Fraction(p) && Fraction(d) && Fraction(c) && Fraction(d') && Fraction(c')
             && Fraction(floor)
    ensures FlooredScore(ssam, p, d', c', floor) > FlooredScore(ssam, p, d, c, floor)
            <==> LeftOver(d, c) < LeftOver(d', c') && Discounted(ssam, p, d', c') > Times(ssam, floor)
  {
    DiscountOrder(ssam, p, d, c, p, d, c);
    DiscountOrder(ssam, p, d', c', p, d', c');
    FloorInScale(ssam, floor);
    hide Times, Discounted, LeftOver;
    if Discounted(ssam, p, d', c') > 0.0 { LeftOverDecides(ssam, p, d, c, d', c'); }
  }

  /** For any failure, with debt of its own or without, exactly: one more raises the score if and only if debt and
      collapse with it counted leave more of the score than before and the floor does not bind. */
  lemma AddedFailureRaisesScoreIff(node: NodeState, f: CheckFailure, edges: seq<EdgeState>, nodes: Nodes,
                                   cfg: PrismConfig, now: int, fn: RealFunctions)
    requires Lawful(fn) && Sane(cfg) && SpillsNonNegative(edges, nodes) && 0.0 <= node.ssamScore <= 100.0
    ensures var debt, n := DebtRaw(node.failedChecks, cfg.debtAlpha, now, fn), EffectiveFailures(node.failedChecks);
            var debt', n' := debt + FailureDebt(f, cfg.debtAlpha, now, fn), n + FailureConfidence(f);
            var d', c' := DebtPenalty(debt', cfg), CollapseModifier(debt', n', cfg, fn);
            ExactScore(node.(failedChecks := node.failedChecks + [f]), edges, nodes, cfg, now, fn)
              > ExactScore(node, edges, nodes, cfg, now, fn)
            <==> && LeftOver(DebtPenalty(debt, cfg), CollapseModifier(debt, n, cfg, fn)) < LeftOver(d', c')
                 && Discounted(node.ssamScore, PropPenalty(edges, nodes, cfg, fn), d', c')
                    > Times(node.ssamScore, cfg.scoreFloor)
  {
    var fs, fs' := node.failedChecks, node.failedChecks + [f];
    assert fs'[..|fs'| - 1] == fs;
    PenaltiesAreFractions(edges, nodes, cfg, fs, now, fn);
    PenaltiesAreFractions(edges, nodes, cfg, fs', now, fn);
    var debt, x := DebtRaw(fs, cfg.debtAlpha, now, fn), FailureDebt(f, cfg.debtAlpha, now, fn);
    var n, y := EffectiveFailures(fs), FailureConfidence(f);
    assert DebtRaw(fs', cfg.debtAlpha, now, fn) == debt + x && EffectiveFailures(fs') == n + y;
    hide PropPenalty, DebtRaw, FlooredScore, EffectiveFailures, FailureDebt, CollapseModifier, DebtPenalty, Times,
      Discounted, LeftOver;
    RaisedIff(node.ssamScore, PropPenalty(edges, nodes, cfg, fn), DebtPenalty(debt, cfg),
      CollapseModifier(debt, n, cfg, fn), DebtPenalty(debt + x, cfg), CollapseModifier(debt + x, n + y, cfg, fn),
      cfg.scoreFloor);
  }

  lemma FreshFailureCounts(node: NodeState, f: CheckFailure, cfg: PrismConfig, now: int, fn: RealFunctions)
    requires fn.pow(0.0, cfg.debtAlpha) == 0.0 && f.failUnix >= now
    ensures var fs := node.failedChecks;
            && DebtRaw(fs + [f], cfg.debtAlpha, now, fn) == DebtRaw(fs, cfg.debtAlpha, now, fn)
            && EffectiveFailures(fs + [f]) == EffectiveFailures(fs) + FailureConfidence(f)
  {
    var fs := node.failedChecks;
    assert (fs + [f])[..|fs + [f]| - 1] == fs;
    assert ElapsedDays(f, now) == 0.0 by { DivMonotone((now - f.failUnix) as real, 0.0, SECONDS_PER_DAY); }
    assert FailureDebt(f, cfg.debtAlpha, now, fn) == 0.0;
  }

  /** A failure seen just now carries no debt but counts towards concurrency: two or more earlier
      failures then collapse no more than before, so the score does not fall. */
  lemma FreshFailureNeverLowersScore(node: NodeState, f: CheckFailure, edges: seq<EdgeState>, nodes: Nodes,
                                     cfg: PrismConfig, now: int, fn: RealFunctions)
    requires Lawful(fn) && Sane(cfg) && SpillsNonNegative(edges, nodes) && 0.0 <= node.ssamScore <= 100.0
    requires fn.pow(0.0, cfg.debtAlpha) == 0.0 && f.failUnix >= now && EffectiveFailures(node.failedChecks) >= 2.0
    ensures ExactScore(node, edges, nodes, cfg, now, fn)
         <= ExactScore(node.(failedChecks := node.failedChecks + [f]), edges, nodes, cfg, now, fn)
  {
    var fs, fs' := node.failedChecks, node.failedChecks + [f];
    FreshFailureCounts(node, f, cfg, now, fn);
    PenaltiesAreFractions(edges, nodes, cfg, fs, now, fn);
    PenaltiesAreFractions(edges, nodes, cfg, fs', now, fn);
    hide PropPenalty, DebtPenalty, DebtRaw, FlooredScore, EffectiveFailures;
    var debt, n, n' := DebtRaw(fs, cfg.debtAlpha, now, fn), EffectiveFailures(fs), EffectiveFailures(fs');
    CollapseInCount(debt, n, n', cfg, fn);
    hide CollapseModifier;
    HigherPenaltiesLowerScore(node.ssamScore, cfg.scoreFloor,
      PropPenalty(edges, nodes, cfg, fn), DebtPenalty(debt, cfg), CollapseModifier(debt, n', cfg, fn),
      PropPenalty(edges, nodes, cfg, fn), DebtPenalty(debt, cfg), CollapseModifier(debt, n, cfg, fn));
  }

  lemma FloorInScale(ssam: real, floor: real)
    requires 0.0 <= ssam <= 100.0 && Fraction(floor)
    ensures 0.0 <= Times(ssam, floor) <= 100.0
  {
    assert Times(ssam, 0.0) == 0.0 && Times(ssam, 1.0) == ssam;
    hide Times;
    TimesMonotone(ssam, 0.0, floor);
    TimesMonotone(ssam, floor, 1.0);
  }

  lemma MilderCollapseRaisesIff(ssam: real, p: real, d: real, c: real, c': real, floor: real)
    requires 0.0 <= ssam <= 100.0 && Fraction(p) && Fraction(d) && Fraction(c) && Fraction(c') && Fraction(floor)
             && c' <= c
    ensures FlooredScore(ssam, p, d, c', floor) > FlooredScore(ssam, p, d, c, floor)
            <==> c' < c && Discounted(ssam, p, d, c') > Times(ssam, floor)
  {
    DiscountOrder(ssam, p, d, c', p, d, c);
    FloorInScale(ssam, floor);
    DiscountRises(ssam, p, d, c, c');
    hide Times, Discounted;
    ClampedRise(Times(ssam, floor), Discounted(ssam, p, d, c), Discounted(ssam, p, d, c'));
  }

  lemma ClampedRise(low: real, x: real, y: real)
    requires 0.0 <= low <= 100.0 && x <= y <= 100.0
    ensures Min(100.0, Max(low, y)) > Min(100.0, Max(low, x)) <==> x < y && y > low
  {
  }

  lemma DiscountRises(ssam: real, p: real, d: real, c: real, c': real)
    requires 0.0 <= ssam && Fraction(p) && Fraction(d) && Fraction(c) && Fraction(c') && c' <= c
    ensures c' == c ==> Discounted(ssam, p, d, c') == Discounted(ssam, p, d, c)
    ensures c' < c && Discounted(ssam, p, d, c') > 0.0 ==> Discounted(ssam, p, d, c) < Discounted(ssam, p, d, c')
  {
    var a := ssam * (1.0 - p) * (1.0 - d);
    MulNonNegative(ssam, 1.0 - p);
    MulNonNegative(ssam * (1.0 - p), 1.0 - d);
    assert Discounted(ssam, p, d, c) == a * (1.0 - c) && Discounted(ssam, p, d, c') == a * (1.0 - c');
    StrictProduct(a, 1.0 - c, 1.0 - c');
  }

  lemma StrictProduct(a: real, x: real, y: real)
    requires a >= 0.0 && 0.0 <= x <= y
    ensures a * y > 0.0 && x < y ==> a * x < a * y
  {
    if a > 0.0 && x < y { MulStrict(x, y, a); }
  }

  /** Such a failure raises the score if and only if there was debt to dilute, collapse with it counted is below
      saturation, and the floor does not bind. */
  lemma FreshFailureRaisesScoreIff(node: NodeState, f: CheckFailure, edges: seq<EdgeState>, nodes: Nodes,
                                   cfg: PrismConfig, now: int, fn: RealFunctions)
    requires Lawful(fn) && LawfulPow(fn) && Sane(cfg) && SpillsNonNegative(edges, nodes)
             && 0.0 <= node.ssamScore <= 100.0
    requires f.failUnix >= now && EffectiveFailures(node.failedChecks) >= 2.0
    ensures var debt := DebtRaw(node.failedChecks, cfg.debtAlpha, now, fn);
            var n' := EffectiveFailures(node.failedChecks + [f]);
            ExactScore(node.(failedChecks := node.failedChecks + [f]), edges, nodes, cfg, now, fn)
              > ExactScore(node, edges, nodes, cfg, now, fn)
            <==> && debt > 0.0 && BelowSaturation(debt, n', cfg, fn)
                 && Discounted(node.ssamScore, PropPenalty(edges, nodes, cfg, fn), DebtPenalty(debt, cfg),
                               CollapseModifier(debt, n', cfg, fn))
                    > Times(node.ssamScore, cfg.scoreFloor)
  {
    var fs, fs' := node.failedChecks, node.failedChecks + [f];
    FreshFailureCounts(node, f, cfg, now, fn);
    PenaltiesAreFractions(edges, nodes, cfg, fs, now, fn);
    PenaltiesAreFractions(edges, nodes, cfg, fs', now, fn);
    DebtMonotone(fs, cfg.debtAlpha, now, now, fn);
    hide PropPenalty, DebtPenalty, DebtRaw, FlooredScore, EffectiveFailures, BelowSaturation, Discounted;
    var debt, n, y := DebtRaw(fs, cfg.debtAlpha, now, fn), EffectiveFailures(fs), FailureConfidence(f);
    CollapseInCount(debt, n, n + y, cfg, fn);
    CollapseDropsIff(debt, n, 0.0, y, cfg, fn);
    NoDebtNeverOutgrows(debt, n, y);
    hide CollapseModifier, DebtOutgrowsCount, Times;
    MilderCollapseRaisesIff(node.ssamScore, PropPenalty(edges, nodes, cfg, fn), DebtPenalty(debt, cfg),
                            CollapseModifier(debt, n, cfg, fn),
      CollapseModifier(debt, n + y, cfg, fn), cfg.scoreFloor);
  }

  lemma NoDebtNeverOutgrows(debt: real, n: real, y: real)
    requires n >= 2.0 && y > 0.0 && debt >= 0.0
    ensures DebtOutgrowsCount(debt, n, 0.0, y) <==> debt <= 0.0
  {
    if debt > 0.0 {
      SquarePositive(debt);
      assert debt + 0.0 == debt;
      hide Square;
      TimesStrict(Square(debt), n, n + y);
    }
  }

  /** Two failures a day old and one more seen just now: the score rises, whatever the exponents. */
  lemma FreshFailureCanRaiseScore(fn: RealFunctions, alpha: real, beta: real)
    requires Lawful(fn) && LawfulPow(fn) && alpha > 0.0 && beta > 0.0
    ensures var cfg := PrismConfig(alpha, 0.5, 0.5, 100.0, 0.5, 3, 0.0, beta, "rss");
            var aged, latest := CheckFailure("a", 1.0, 0, 1.0), CheckFailure("b", 1.0, 86400, 1.0);
            var node := NodeState("h", 100.0, [aged, aged], 0.5, 1.0);
            ExactScore(node.(failedChecks := [aged, aged, latest]), [], map[], cfg, 86400, fn)
              > ExactScore(node, [], map[], cfg, 86400, fn)
  {
    var cfg := PrismConfig(alpha, 0.5, 0.5, 100.0, 0.5, 3, 0.0, beta, "rss");
    var aged, latest := CheckFailure("a", 1.0, 0, 1.0), CheckFailure("b", 1.0, 86400, 1.0);
    var node := NodeState("h", 100.0, [aged, aged], 0.5, 1.0);
    AgedPair(aged, cfg, fn);
    assert [aged, aged] + [latest] == [aged, aged, latest];
    FreshFailureCounts(node, latest, cfg, 86400, fn);
    FreshFailureRaisesScoreIff(node, latest, [], map[], cfg, 86400, fn);
    FarFromSaturation(cfg, fn);
    CollapseAsRatio(2.0, 3.0, cfg, fn);
    PowersCompare(Ratio(2.0, NormDebt(cfg), fn.sqrt(3.0)), 1.0, beta, fn);
    PenaltiesAreFractions([], map[], cfg, [aged, aged], 86400, fn);
    var c := CollapseModifier(2.0, 3.0, cfg, fn);
    NothingPropagates(cfg, fn);
    DivUnique(0.02, 2.0, 100.0);
    hide DebtRaw, EffectiveFailures, ExactScore, CollapseModifier, Ratio, NormDebt, PropPenalty;
    assert Discounted(100.0, 0.0, 0.02, c) == 98.0 * (1.0 - c);
    assert c < 1.0;
    assert Times(100.0, 0.0) == 0.0;
  }

  lemma AgedPair(aged: CheckFailure, cfg: PrismConfig, fn: RealFunctions)
    requires LawfulPow(fn) && cfg.debtAlpha > 0.0 && aged == CheckFailure("a", 1.0, 0, 1.0)
    ensures DebtRaw([aged, aged], cfg.debtAlpha, 86400, fn) == 2.0 && EffectiveFailures([aged, aged]) == 2.0
  {
    DivUnique(1.0, 86400.0, SECONDS_PER_DAY);
    assert FailureDebt(aged, cfg.debtAlpha, 86400, fn) == 1.0;
    var pair, single := [aged, aged], [aged];
    assert pair[..1] == single && single[..0] == [];
    hide FailureDebt;
    assert DebtRaw(single, cfg.debtAlpha, 86400, fn) == 1.0;
    assert EffectiveFailures(single) == 1.0;
  }

  lemma FarFromSaturation(cfg: PrismConfig, fn: RealFunctions)
    requires Lawful(fn) && cfg.debtNormDays == 100.0 && cfg.debtCap == 0.5
    ensures BelowSaturation(2.0, 3.0, cfg, fn)
  {
    var r := fn.sqrt(3.0);
    assert r >= 0.0 && Square(r) == 3.0;
    assert Square(1.0) == 1.0;
    SquareOrder(1.0, r);
    hide Square;
    assert NormDebt(cfg) == 50.0;
    DivStrict(2.0, 50.0 * r, 50.0 * r);
    DivUnique(1.0, 50.0 * r, 50.0 * r);
  }

  lemma NothingPropagates(cfg: PrismConfig, fn: RealFunctions)
    requires Lawful(fn) && cfg.aggregationMode == "rss" && cfg.propCap == 0.5
    ensures PropPenalty([], map[], cfg, fn) == 0.0
  {
    assert SumSquares([], map[]) == 0.0 && Square(0.0) == 0.0;
    RootUnique(fn.sqrt(0.0), 0.0);
  }

  lemma RatioInRoot(debt: real, k: real, r: real, r': real)
    requires debt > 0.0 && k > 0.0 && 0.0 < r <= r'
    ensures Ratio(debt, k, r') <= Ratio(debt, k, r)
  {
    MulPositive(k, r);
    MulMonotone(r, r', k);
    ReciprocalOrder(debt, k * r, k * r');
  }

  lemma CollapseInCount(debt: real, n: real, n': real, cfg: PrismConfig, fn: RealFunctions)
    requires Lawful(fn) && Sane(cfg) && 2.0 <= n <= n'
    ensures CollapseModifier(debt, n', cfg, fn) <= CollapseModifier(debt, n, cfg, fn)
  {
    if debt > 0.0 && cfg.debtCap > 0.0 {
      CollapseAsRatio(debt, n, cfg, fn);
      CollapseAsRatio(debt, n', cfg, fn);
      hide Square, CollapseModifier, NormDebt, Ratio;
      var r, r' := fn.sqrt(n), fn.sqrt(n');
      assert Square(r) == n && Square(r') == n';
      SquareOrder(r, r');
      RatioInRoot(debt, NormDebt(cfg), r, r');
    } else if debt > 0.0 {
      ZeroDenominator(n, cfg, fn);
      ZeroDenominator(n', cfg, fn);
      hide CollapseDenominator, Square;
    }
  }

  lemma RootPositive(r: real, n: real)
    requires r >= 0.0 && Square(r) == n && n > 0.0
    ensures r > 0.0
  {
  }

  lemma ReciprocalOrder(a: real, b: real, b': real)
    requires a > 0.0 && 0.0 < b <= b'
    ensures a / b' <= a / b
  {
    CrossMultiply(a, b, a, b');
    MulMonotone(b, b', a);
  }
}
