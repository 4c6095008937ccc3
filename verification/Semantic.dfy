/** Prism's semantic layer: fuzzy membership in four risk states and the dominant one. */
module Semantic {
  import opened SsamTypes
  import opened RealLemmas
  import opened Rounding
  import opened Inference

  datatype Thresholds = Thresholds(stable: real, degraded: real, untrusted: real)

  // ----- membership functions -----

  function TrapezoidUp(x: real, lower: real, upper: real): real {
    if x <= lower then 0.0
    else if x >= upper then 1.0
    else (x - lower) / (upper - lower)
  }

  function TrapezoidDown(x: real, lower: real, upper: real): real {
    if x <= lower then 1.0
    else if x >= upper then 0.0
    else (upper - x) / (upper - lower)
  }

  function TrapezoidTri(x: real, lower: real, center: real, upper: real): real {
    if x <= lower || x >= upper then 0.0
    else if x <= center then (x - lower) / (center - lower)
    else (upper - x) / (upper - center)
  }

  function DegradedCenter(t: Thresholds): real {
    (t.degraded + t.untrusted) / 2.0
  }

  function UntrustedCenter(t: Thresholds): real {
    t.untrusted / 2.0
  }

  /** Memberships of an already clamped score, from Stable to Collapse. */
  function MembershipsAt(x: real, t: Thresholds): Vec {
    [TrapezoidUp(x, t.degraded, t.stable),
     TrapezoidTri(x, t.untrusted, DegradedCenter(t), t.stable),
     TrapezoidTri(x, 0.0, UntrustedCenter(t), t.degraded),
     TrapezoidDown(x, 0.0, t.untrusted)]
  }

  function ComputeMemberships(sNorm: real, t: Thresholds): Vec {
    MembershipsAt(Fractional(sNorm), t)
  }

  // ----- dominant state -----

  const STATE_NAMES := ["Stable", "Degraded", "Untrusted", "Collapse"]
  const EPSILON := 0.000000000001

  /** The published state vector: shares of the total rounded to four digits, or all Stable when the
      total does not exceed the epsilon. */
  function StateVector(m: Vec): Vec {
    var sum := Mass(m);
    if sum > EPSILON
    then [Round4(m[0] / sum), Round4(m[1] / sum), Round4(m[2] / sum), Round4(m[3] / sum)]
    else [1.0, 0.0, 0.0, 0.0]
  }

  /** The first position of the largest entry. */
  predicate FirstMax(v: Vec, i: nat) {
    i < 4 && (forall j :: 0 <= j < 4 ==> v[j] <= v[i]) && forall j :: 0 <= j < i ==> v[j] < v[i]
  }

  function Dominant(v: Vec): (i: nat)
    ensures FirstMax(v, i)
  {
    if v[0] >= v[1] && v[0] >= v[2] && v[0] >= v[3] then 0
    else if v[1] >= v[2] && v[1] >= v[3] then 1
    else if v[2] >= v[3] then 2
    else 3
  }

  lemma FirstMaxUnique(v: Vec, i: nat, j: nat)
    requires FirstMax(v, i) && FirstMax(v, j)
    ensures i == j
  {
    assert v[i] <= v[j] <= v[i];
  }

  method DetermineCurrentState(memberships: Vec) returns (state: string, vector: Vec)
    ensures vector == StateVector(memberships)
    ensures state == STATE_NAMES[Dominant(vector)]
    ensures forall i :: 0 <= i < 4 ==>
              vector[i] == if Mass(memberships) > 0.000000000001 then Round4(memberships[i] / Mass(memberships))
                           else if i == 0 then 1.0 else 0.0
    ensures exists i ::
              && 0 <= i < 4 && state == ["Stable", "Degraded", "Untrusted", "Collapse"][i]
              && (forall j :: 0 <= j < 4 ==> vector[j] <= vector[i]) && forall j :: 0 <= j < i ==> vector[j] < vector[i]
  {
    hide Round4;
    var sum := 0.0;
    for i := 0 to 4
      invariant sum == if i == 0 then 0.0
                       else if i == 1 then memberships[0]
                       else if i == 2 then memberships[0] + memberships[1]
                       else if i == 3 then memberships[0] + memberships[1] + memberships[2] else Mass(memberships)
    {
      sum := sum + memberships[i];
    }
    vector := ZERO_VEC;
    if sum > EPSILON {
      for i := 0 to 4
        invariant forall j :: 0 <= j < i ==> vector[j] == Round4(memberships[j] / sum)
      {
        vector := vector[i := Round4(memberships[i] / sum)];
      }
    } else {
      vector := vector[0 := 1.0];
      for i := 1 to 4
        invariant vector[0] == 1.0 && forall j :: 1 <= j < 4 ==> vector[j] == 0.0
      {
        vector := vector[i := 0.0];
      }
    }
    assert vector == StateVector(memberships);
    var bestIdx := 0;
    var bestVal := vector[0];
    for i := 1 to 4
      invariant 0 <= bestIdx < i && bestVal == vector[bestIdx]
      invariant forall j :: 0 <= j < i ==> vector[j] <= bestVal
      invariant forall j :: 0 <= j < bestIdx ==> vector[j] < bestVal
    {
      if vector[i] > bestVal {
        bestVal := vector[i];
        bestIdx := i;
      }
    }
    FirstMaxUnique(vector, bestIdx, Dominant(vector));
    state := STATE_NAMES[bestIdx];
  }

  function StateIndex(score: real, t: Thresholds): nat {
    Dominant(StateVector(ComputeMemberships(score, t)))
  }

  // ----- shape of the memberships -----

  predicate Ordered(t: Thresholds) {
    0.0 < t.untrusted < t.degraded < t.stable
  }

  lemma QuotientBetween(a: real, b: real)
    requires b > 0.0 && 0.0 <= a <= b
    ensures 0.0 <= a / b <= 1.0
    ensures a > 0.0 ==> a / b > 0.0
  {
    DivMonotone(0.0, a, b);
    DivMonotone(a, b, b);
    if a > 0.0 { DivStrict(0.0, a, b); }
  }

  lemma UpInRange(x: real, lower: real, upper: real)
    requires lower < upper
    ensures 0.0 <= TrapezoidUp(x, lower, upper) <= 1.0
    ensures TrapezoidUp(x, lower, upper) > 0.0 <==> x > lower
  {
    if lower < x < upper { QuotientBetween(x - lower, upper - lower); }
  }

  lemma DownInRange(x: real, lower: real, upper: real)
    requires lower < upper
    ensures 0.0 <= TrapezoidDown(x, lower, upper) <= 1.0
    ensures TrapezoidDown(x, lower, upper) > 0.0 <==> x < upper
  {
    if lower < x < upper { QuotientBetween(upper - x, upper - lower); }
  }

  lemma TriInRange(x: real, lower: real, center: real, upper: real)
    requires lower < center < upper
    ensures 0.0 <= TrapezoidTri(x, lower, center, upper) <= 1.0
    ensures TrapezoidTri(x, lower, center, upper) > 0.0 <==> lower < x < upper
  {
    if lower < x <= center { QuotientBetween(x - lower, center - lower); }
    if center < x < upper { QuotientBetween(upper - x, upper - center); }
  }

  /** Each membership is a fraction, positive exactly on its own stretch of the scale. */
  lemma MembershipSupport(x: real, t: Thresholds)
    requires Ordered(t)
    ensures var m := MembershipsAt(x, t);
            && (forall i :: 0 <= i < 4 ==> 0.0 <= m[i] <= 1.0)
            && (m[0] > 0.0 <==> x > t.degraded)
            && (m[1] > 0.0 <==> t.untrusted < x < t.stable)
            && (m[2] > 0.0 <==> 0.0 < x < t.degraded)
            && (m[3] > 0.0 <==> x < t.untrusted)
  {
    UpInRange(x, t.degraded, t.stable);
    TriInRange(x, t.untrusted, DegradedCenter(t), t.stable);
    TriInRange(x, 0.0, UntrustedCenter(t), t.degraded);
    DownInRange(x, 0.0, t.untrusted);
  }

  /** The memberships are never all zero, whatever the score. */
  lemma NeverAllZero(s: real, t: Thresholds)
    requires Ordered(t)
    ensures Mass(ComputeMemberships(s, t)) > 0.0
  {
    MembershipSupport(Fractional(s), t);
  }

  // ----- the degenerate branch -----

  /** The total membership at the untrusted and at the degraded threshold, where it is lowest. */
  function GapAtUntrusted(t: Thresholds): real
    requires Ordered(t)
  {
    (t.degraded - t.untrusted) / (t.degraded - UntrustedCenter(t))
  }

  function GapAtDegraded(t: Thresholds): real
    requires Ordered(t)
  {
    (t.stable - t.degraded) / (t.stable - DegradedCenter(t))
  }

  predicate GapsVisible(t: Thresholds)
    requires Ordered(t)
  {
    GapAtUntrusted(t) > EPSILON && GapAtDegraded(t) > EPSILON
  }

  lemma FallingSide(x: real, y: real, upper: real, w: real)
    requires w > 0.0 && x <= y
    ensures (upper - y) / w <= (upper - x) / w
  {
    DivMonotone(upper - y, upper - x, w);
  }

  lemma SplitQuotient(a: real, b: real, w: real)
    requires w > 0.0
    ensures a / w + b / w == (a + b) / w
  {
  }

  lemma SteeperSide(a: real, d: real, w: real)
    requires a >= 0.0 && 0.0 < d <= w
    ensures a / d >= a / w
  {
    var q := a / d;
    assert q * d == a;
    DivMonotone(0.0, a, d);
    MulMonotone(d, w, q);
    DivideOut(0.0, a, q, w);
  }

  /** The total never drops below its value at the untrusted threshold, or, further up, at the degraded one. */
  lemma TotalAtLeastGaps(x: real, t: Thresholds)
    requires Ordered(t) && x >= 0.0
    ensures Mass(MembershipsAt(x, t)) >= if x <= DegradedCenter(t) then GapAtUntrusted(t) else GapAtDegraded(t)
  {
    MembershipSupport(x, t);
    var m := MembershipsAt(x, t);
    var w, v := t.degraded - UntrustedCenter(t), t.stable - DegradedCenter(t);
    QuotientBetween(t.degraded - t.untrusted, w);
    QuotientBetween(t.stable - t.degraded, v);
    if x <= UntrustedCenter(t) {
      LowScoreTotal(x, t);
    } else if x < t.untrusted {
      FallingSide(x, t.untrusted, t.degraded, w);
    } else if x <= DegradedCenter(t) {
      SteeperSide(x - t.untrusted, DegradedCenter(t) - t.untrusted, w);
      SplitQuotient(x - t.untrusted, t.degraded - x, w);
      assert m[2] == (t.degraded - x) / w;
      if x == t.untrusted { assert m[1] == 0.0; }
    } else if x < t.degraded {
      FallingSide(x, t.degraded, t.stable, v);
    } else if x < t.stable {
      SteeperSide(x - t.degraded, t.stable - t.degraded, v);
      SplitQuotient(x - t.degraded, t.stable - x, v);
      assert m[1] == (t.stable - x) / v;
      if x == t.degraded { assert m[0] == 0.0; }
    }
  }

  lemma LowScoreTotal(x: real, t: Thresholds)
    requires Ordered(t) && 0.0 <= x <= UntrustedCenter(t)
    ensures MembershipsAt(x, t)[2] + MembershipsAt(x, t)[3] >= 1.0
  {
    var u := t.untrusted;
    if x > 0.0 {
      SteeperSide(x, u / 2.0, u);
      SplitQuotient(x, u - x, u);
      DivUnique(1.0, u, u);
      assert MembershipsAt(x, t)[3] == (u - x) / u;
      assert MembershipsAt(x, t)[2] == x / (u / 2.0);
    }
  }

  /** Visible gaps keep every score out of the degenerate branch. */
  lemma DegenerateBranchDead(s: real, t: Thresholds)
    requires Ordered(t) && GapsVisible(t)
    ensures Mass(ComputeMemberships(s, t)) > EPSILON
  {
    TotalAtLeastGaps(Fractional(s), t);
    hide GapAtUntrusted, GapAtDegraded;
  }

  /** At the thresholds themselves one membership is all there is. */
  lemma TotalAtThresholds(t: Thresholds)
    requires Ordered(t)
    ensures MembershipsAt(t.untrusted, t) == [0.0, 0.0, GapAtUntrusted(t), 0.0]
    ensures MembershipsAt(t.degraded, t) == [0.0, GapAtDegraded(t), 0.0, 0.0]
  {
    MembershipSupport(t.untrusted, t);
    MembershipSupport(t.degraded, t);
  }

  /** The total falls towards the untrusted and the degraded threshold and rises beyond them. */
  lemma LowFallingTotal(x: real, y: real, t: Thresholds)
    requires Ordered(t) && UntrustedCenter(t) <= x <= y < t.untrusted
    ensures Mass(MembershipsAt(y, t)) <= Mass(MembershipsAt(x, t))
  {
    UpperLowFormulas(x, t);
    UpperLowFormulas(y, t);
    MembershipSupport(x, t);
    MembershipSupport(y, t);
    FallingSide(x, y, t.untrusted, t.untrusted);
    FallingSide(x, y, t.degraded, t.degraded - UntrustedCenter(t));
    hide MembershipsAt;
  }

  lemma FallingTotal(x: real, y: real, t: Thresholds)
    requires Ordered(t) && DegradedCenter(t) <= x <= y < t.degraded
    ensures Mass(MembershipsAt(y, t)) <= Mass(MembershipsAt(x, t))
  {
    UpperMidFormulas(x, t);
    UpperMidFormulas(y, t);
    MembershipSupport(x, t);
    MembershipSupport(y, t);
    FallingSide(x, y, t.stable, t.stable - DegradedCenter(t));
    FallingSide(x, y, t.degraded, t.degraded - UntrustedCenter(t));
    hide MembershipsAt;
  }

  /** Rising at the steeper rate outweighs falling at the gentler one. */
  lemma RisingOutweighs(x: real, y: real, lower: real, upper: real, d: real, w: real)
    requires x <= y && 0.0 < d <= w
    ensures (x - lower) / d + (upper - x) / w <= (y - lower) / d + (upper - y) / w
  {
    SplitQuotient(x - lower, y - x, d);
    SplitQuotient(upper - y, y - x, w);
    SteeperSide(y - x, d, w);
  }

  lemma RisingTotal(x: real, y: real, t: Thresholds)
    requires Ordered(t) && t.untrusted <= x <= y <= DegradedCenter(t)
    ensures Mass(MembershipsAt(x, t)) <= Mass(MembershipsAt(y, t))
  {
    MidFormulas(x, t);
    MidFormulas(y, t);
    MembershipSupport(x, t);
    MembershipSupport(y, t);
    RisingOutweighs(x, y, t.untrusted, t.degraded, DegradedCenter(t) - t.untrusted, t.degraded - UntrustedCenter(t));
    hide MembershipsAt;
  }

  lemma HighRisingTotal(x: real, y: real, t: Thresholds)
    requires Ordered(t) && t.degraded <= x <= y < t.stable
    ensures Mass(MembershipsAt(x, t)) <= Mass(MembershipsAt(y, t))
  {
    HighFormulas(x, t);
    HighFormulas(y, t);
    MembershipSupport(x, t);
    MembershipSupport(y, t);
    RisingOutweighs(x, y, t.degraded, t.stable, t.stable - t.degraded, t.stable - DegradedCenter(t));
    hide MembershipsAt;
  }

  /** No score up to `x` drops below the totals at the two thresholds, each cut at `x`. */
  lemma TotalAtLeastThresholds(x: real, top: real, t: Thresholds)
    requires Ordered(t) && 0.0 <= x <= top
    ensures Mass(MembershipsAt(x, t)) >= Mass(MembershipsAt(Min(t.untrusted, top), t))
            || Mass(MembershipsAt(x, t)) >= Mass(MembershipsAt(Min(t.degraded, top), t))
            || Mass(MembershipsAt(x, t)) >= 1.0
  {
    TotalAtLeastGaps(x, t);
    TotalAtThresholds(t);
    if x <= UntrustedCenter(t) {
      LowScoreTotal(x, t);
      MembershipSupport(x, t);
    }
    hide MembershipsAt, GapAtUntrusted, GapAtDegraded;
    if UntrustedCenter(t) < x && top < t.untrusted { LowFallingTotal(x, top, t); }
    if DegradedCenter(t) < x && t.untrusted <= top < t.degraded { FallingTotal(x, top, t); }
  }

  /** Both thresholds, as scores, are outside the degenerate branch. */
  predicate ThresholdsCounted(t: Thresholds) {
    Mass(ComputeMemberships(t.untrusted, t)) > EPSILON && Mass(ComputeMemberships(t.degraded, t)) > EPSILON
  }

  /** The degenerate branch is dead exactly when it does not take the two thresholds themselves; for thresholds within
      the scale, exactly when both gaps are visible. The order of the thresholds alone does not suffice. */
  lemma DegenerateBranchDeadIff(t: Thresholds)
    requires Ordered(t)
    ensures (forall s :: Mass(ComputeMemberships(s, t)) > EPSILON) <==> ThresholdsCounted(t)
    ensures t.degraded <= 1.0 ==> (ThresholdsCounted(t) <==> GapsVisible(t))
  {
    TotalAtThresholds(t);
    hide MembershipsAt, GapAtUntrusted, GapAtDegraded;
    if ThresholdsCounted(t) {
      forall s ensures Mass(ComputeMemberships(s, t)) > EPSILON { TotalAtLeastThresholds(Fractional(s), 1.0, t); }
    }
  }

  // ----- two neighbouring states share the total -----

  lemma TwoWayShare(g: real, h: real)
    requires g >= 0.0 && h >= 0.0 && g + h > 0.0
    ensures 0.0 <= g / (g + h) <= 1.0 && h / (g + h) == 1.0 - g / (g + h)
  {
    QuotientBetween(g, g + h);
    SplitQuotient(g, h, g + h);
    DivUnique(1.0, g + h, g + h);
  }

  /** Only states `b` and its worse neighbour have any membership. */
  predicate SharedBy(m: Vec, b: nat) {
    b < 3 && m[b] >= 0.0 && m[b + 1] >= 0.0 && forall i :: 0 <= i < 4 && i != b && i != b + 1 ==> m[i] == 0.0
  }

  /** The better of two sharing states is reported exactly when its rounded share is at least the other's. */
  lemma SharedDominant(m: Vec, b: nat)
    requires SharedBy(m, b) && Mass(m) > EPSILON
    ensures var p := m[b] / Mass(m);
            Dominant(StateVector(m)) == if Round4(p) >= Round4(1.0 - p) then b else b + 1
  {
    var p := m[b] / Mass(m);
    assert Mass(m) == m[b] + m[b + 1];
    TwoWayShare(m[b], m[b + 1]);
    assert 0.0 / Mass(m) == 0.0;
    Round4Complement(p);
    assert Round4(0.0) == 0.0;
    hide Round4;
    var v := StateVector(m);
    assert v[b] == Round4(p) && v[b + 1] == Round4(1.0 - p);
    FirstMaxUnique(v, Dominant(v), if Round4(p) >= Round4(1.0 - p) then b else b + 1);
  }

  /** Better odds for the better state: it stays reported once it is. */
  lemma BetterOddsBetterState(m: Vec, m': Vec, b: nat)
    requires SharedBy(m, b) && SharedBy(m', b) && Mass(m) > EPSILON && Mass(m') > EPSILON
    requires Times(m[b], m'[b + 1]) <= Times(m'[b], m[b + 1])
    ensures Dominant(StateVector(m')) <= Dominant(StateVector(m))
  {
    hide Round4, StateVector, Dominant, FirstMax;
    SharedDominant(m, b);
    SharedDominant(m', b);
    ShareOrder(m[b], m[b + 1], m'[b], m'[b + 1]);
    assert Mass(m) == m[b] + m[b + 1] && Mass(m') == m'[b] + m'[b + 1];
    var p, p' := m[b] / Mass(m), m'[b] / Mass(m');
    assert p <= p';
    hide SharedBy, Mass, Times;
    Round4Monotone(p, p');
    Round4Monotone(1.0 - p', 1.0 - p);
  }

  lemma ShareOrder(g: real, h: real, g': real, h': real)
    requires g + h > 0.0 && g' + h' > 0.0 && Times(g, h') <= Times(g', h)
    ensures g / (g + h) <= g' / (g' + h')
  {
    var p, q := g / (g + h), g' / (g' + h');
    assert p * (g + h) == g && q * (g' + h') == g';
    MulPositive(g + h, g' + h');
    ScaleOrder((g + h) * (g' + h'), p, q);
    ShareProducts(p, g, h, g', h');
    ShareProducts(q, g', h', g, h);
    TimesAdd(g, g', h');
    TimesAdd(g', g, h);
    TimesCommutes(g, g');
    hide Times;
  }

  lemma ShareProducts(p: real, g: real, h: real, g': real, h': real)
    requires p * (g + h) == g
    ensures p * ((g + h) * (g' + h')) == Times(g, g' + h')
    ensures p * ((g' + h') * (g + h)) == Times(g, g' + h')
  {
    assert p * ((g + h) * (g' + h')) == (p * (g + h)) * (g' + h');
    assert p * ((g' + h') * (g + h)) == (p * (g + h)) * (g' + h');
  }

  // ----- odds rise with the score -----

  /** Scaling both columns by positive constants does not change the comparison. */
  lemma ScaledCross(a: real, b: real, a': real, b': real, c: real, d: real)
    requires c > 0.0 && d > 0.0 && a * b' <= a' * b
    ensures Times(a / c, b' / d) <= Times(a' / c, b / d)
  {
    MulPositive(c, d);
    CrossQuotient(a, b', c, d);
    CrossQuotient(a', b, c, d);
    DivMonotone(a * b', a' * b, c * d);
  }

  lemma CrossQuotient(a: real, b: real, c: real, d: real)
    requires c > 0.0 && d > 0.0 && c * d > 0.0
    ensures Times(a / c, b / d) == (a * b) / (c * d)
  {
    var p, q := a / c, b / d;
    assert p * c == a && q * d == b;
    assert (p * q) * (c * d) == (p * c) * (q * d);
    DivUnique(p * q, a * b, c * d);
  }

  lemma RisingOdds(x: real, y: real, a: real, b: real)
    requires x <= y && a <= b
    ensures (x - a) * (b - y) <= (y - a) * (b - x)
  {
    MulNonNegative(b - a, y - x);
    assert (y - a) * (b - x) - (x - a) * (b - y) == (b - a) * (y - x);
  }

  lemma FallingOdds(x: real, y: real, q: real, b: real)
    requires x <= y && b <= q
    ensures (q - x) * (b - y) <= (q - y) * (b - x)
  {
    MulNonNegative(q - b, y - x);
    assert (q - y) * (b - x) - (q - x) * (b - y) == (q - b) * (y - x);
  }

  /** Odds comparisons chain through a middle score whose worse membership is positive. */
  lemma OddsChain(g: real, h: real, g1: real, h1: real, g2: real, h2: real)
    requires h >= 0.0 && h1 > 0.0 && h2 >= 0.0
    requires Times(g, h1) <= Times(g1, h) && Times(g1, h2) <= Times(g2, h1)
    ensures Times(g, h2) <= Times(g2, h)
  {
    assert Times(Times(g, h1), h2) <= Times(Times(g1, h), h2) by {
      TimesCommutes(Times(g, h1), h2);
      TimesCommutes(Times(g1, h), h2);
      TimesMonotone(h2, Times(g, h1), Times(g1, h));
      hide Times;
    }
    assert Times(Times(g1, h2), h) <= Times(Times(g2, h1), h) by {
      TimesCommutes(Times(g1, h2), h);
      TimesCommutes(Times(g2, h1), h);
      TimesMonotone(h, Times(g1, h2), Times(g2, h1));
      hide Times;
    }
    SwapLast(g, h1, h2);
    SwapLast(g1, h, h2);
    SwapLast(g2, h1, h);
    TimesCommutes(h1, Times(g, h2));
    TimesCommutes(h1, Times(g2, h));
    if Times(g, h2) > Times(g2, h) {
      TimesStrict(h1, Times(g2, h), Times(g, h2));
    }
    hide Times;
  }

  lemma SwapLast(a: real, b: real, c: real)
    ensures Times(Times(a, b), c) == Times(Times(a, c), b)
  {
  }

  /** `y` gives the better state `b` of a stretch at least the odds `x` does. */
  predicate OddsUp(x: real, y: real, t: Thresholds, b: nat)
    requires b < 3
  {
    Times(MembershipsAt(x, t)[b], MembershipsAt(y, t)[b + 1])
      <= Times(MembershipsAt(y, t)[b], MembershipsAt(x, t)[b + 1])
  }

  lemma LowRising(x: real, y: real, t: Thresholds)
    requires Ordered(t) && 0.0 <= x <= y <= UntrustedCenter(t)
    ensures OddsUp(x, y, t, 2)
  {
    var u := t.untrusted;
    LowFormulas(x, t);
    LowFormulas(y, t);
    RisingOdds(x, y, 0.0, u);
    ScaledCross(x, u - x, y, u - y, u / 2.0, u);
    hide Times;
  }

  lemma LowFormulas(x: real, t: Thresholds)
    requires Ordered(t) && 0.0 <= x <= UntrustedCenter(t)
    ensures MembershipsAt(x, t)[2] == x / (t.untrusted / 2.0)
    ensures MembershipsAt(x, t)[3] == (t.untrusted - x) / t.untrusted
  {
    if x == 0.0 {
      DivUnique(1.0, t.untrusted, t.untrusted);
      DivUnique(0.0, 0.0, t.untrusted / 2.0);
    }
  }

  lemma LowFalling(x: real, y: real, t: Thresholds)
    requires Ordered(t) && UntrustedCenter(t) <= x <= y < t.untrusted
    ensures OddsUp(x, y, t, 2)
  {
    var u := t.untrusted;
    UpperLowFormulas(x, t);
    UpperLowFormulas(y, t);
    FallingOdds(x, y, t.degraded, u);
    ScaledCross(t.degraded - x, u - x, t.degraded - y, u - y, t.degraded - UntrustedCenter(t), u);
    hide Times;
  }

  lemma UpperLowFormulas(x: real, t: Thresholds)
    requires Ordered(t) && UntrustedCenter(t) <= x < t.untrusted
    ensures MembershipsAt(x, t)[2] == (t.degraded - x) / (t.degraded - UntrustedCenter(t))
    ensures MembershipsAt(x, t)[3] == (t.untrusted - x) / t.untrusted
  {
    if x == UntrustedCenter(t) {
      DivUnique(1.0, x, x);
      DivUnique(1.0, t.degraded - x, t.degraded - x);
    }
  }

  lemma MidRising(x: real, y: real, t: Thresholds)
    requires Ordered(t) && t.untrusted <= x <= y <= DegradedCenter(t)
    ensures OddsUp(x, y, t, 1)
  {
    MidFormulas(x, t);
    MidFormulas(y, t);
    RisingOdds(x, y, t.untrusted, t.degraded);
    ScaledCross(x - t.untrusted, t.degraded - x, y - t.untrusted, t.degraded - y,
      DegradedCenter(t) - t.untrusted, t.degraded - UntrustedCenter(t));
    hide Times;
  }

  lemma MidFormulas(x: real, t: Thresholds)
    requires Ordered(t) && t.untrusted <= x <= DegradedCenter(t)
    ensures MembershipsAt(x, t)[1] == (x - t.untrusted) / (DegradedCenter(t) - t.untrusted)
    ensures MembershipsAt(x, t)[2] == (t.degraded - x) / (t.degraded - UntrustedCenter(t))
  {
    if x == t.untrusted { DivUnique(0.0, 0.0, DegradedCenter(t) - t.untrusted); }
  }

  lemma MidFalling(x: real, y: real, t: Thresholds)
    requires Ordered(t) && DegradedCenter(t) <= x <= y < t.degraded
    ensures OddsUp(x, y, t, 1)
  {
    UpperMidFormulas(x, t);
    UpperMidFormulas(y, t);
    FallingOdds(x, y, t.stable, t.degraded);
    ScaledCross(t.stable - x, t.degraded - x, t.stable - y, t.degraded - y,
      t.stable - DegradedCenter(t), t.degraded - UntrustedCenter(t));
    hide Times;
  }

  lemma UpperMidFormulas(x: real, t: Thresholds)
    requires Ordered(t) && DegradedCenter(t) <= x < t.degraded
    ensures MembershipsAt(x, t)[1] == (t.stable - x) / (t.stable - DegradedCenter(t))
    ensures MembershipsAt(x, t)[2] == (t.degraded - x) / (t.degraded - UntrustedCenter(t))
  {
    if x == DegradedCenter(t) {
      DivUnique(1.0, x - t.untrusted, x - t.untrusted);
      DivUnique(1.0, t.stable - x, t.stable - x);
    }
  }

  lemma HighOdds(x: real, y: real, t: Thresholds)
    requires Ordered(t) && t.degraded <= x <= y < t.stable
    ensures OddsUp(x, y, t, 0)
  {
    HighFormulas(x, t);
    HighFormulas(y, t);
    RisingOdds(x, y, t.degraded, t.stable);
    ScaledCross(x - t.degraded, t.stable - x, y - t.degraded, t.stable - y,
      t.stable - t.degraded, t.stable - DegradedCenter(t));
    hide Times;
  }

  lemma HighFormulas(x: real, t: Thresholds)
    requires Ordered(t) && t.degraded <= x < t.stable
    ensures MembershipsAt(x, t)[0] == (x - t.degraded) / (t.stable - t.degraded)
    ensures MembershipsAt(x, t)[1] == (t.stable - x) / (t.stable - DegradedCenter(t))
  {
    if x == t.degraded { DivUnique(0.0, 0.0, t.stable - t.degraded); }
  }

  /** The stretch a score lies on, named by its better state. */
  function Stretch(x: real, t: Thresholds): nat {
    if x < t.untrusted then 2 else if x < t.degraded then 1 else 0
  }

  lemma OddsUpOnStretch(x: real, y: real, t: Thresholds)
    requires Ordered(t) && 0.0 <= x <= y && Stretch(x, t) == Stretch(y, t) && y < t.stable
    ensures OddsUp(x, y, t, Stretch(x, t))
  {
    hide MembershipsAt, Times;
    if y < t.untrusted {
      var c := UntrustedCenter(t);
      if y <= c { LowRising(x, y, t); }
      else if x >= c { LowFalling(x, y, t); }
      else {
        LowRising(x, c, t);
        LowFalling(c, y, t);
        Chained(x, c, y, t, 2);
      }
    } else if y < t.degraded {
      var c := DegradedCenter(t);
      if y <= c { MidRising(x, y, t); }
      else if x >= c { MidFalling(x, y, t); }
      else {
        MidRising(x, c, t);
        MidFalling(c, y, t);
        Chained(x, c, y, t, 1);
      }
    } else {
      HighOdds(x, y, t);
    }
  }

  lemma Chained(x: real, c: real, y: real, t: Thresholds, b: nat)
    requires Ordered(t) && 1 <= b < 3 && OddsUp(x, c, t, b) && OddsUp(c, y, t, b)
    requires if b == 2 then 0.0 < c < t.untrusted else t.untrusted < c < t.degraded
    ensures OddsUp(x, y, t, b)
  {
    MembershipSupport(x, t);
    MembershipSupport(c, t);
    MembershipSupport(y, t);
    hide MembershipsAt, Times;
    OddsChain(MembershipsAt(x, t)[b], MembershipsAt(x, t)[b + 1], MembershipsAt(c, t)[b], MembershipsAt(c, t)[b + 1],
              MembershipsAt(y, t)[b], MembershipsAt(y, t)[b + 1]);
  }

  lemma StretchIsShared(x: real, t: Thresholds)
    requires Ordered(t) && x >= 0.0
    ensures SharedBy(MembershipsAt(x, t), Stretch(x, t))
  {
    MembershipSupport(x, t);
  }

  /** The reported state on a stretch is its better state or the next worse one; at the top it is Stable. */
  lemma StateOnStretch(x: real, t: Thresholds)
    requires Ordered(t) && x >= 0.0 && Mass(MembershipsAt(x, t)) > EPSILON
    ensures Stretch(x, t) <= Dominant(StateVector(MembershipsAt(x, t))) <= Stretch(x, t) + 1
    ensures x >= t.stable ==> Dominant(StateVector(MembershipsAt(x, t))) == 0
  {
    StretchIsShared(x, t);
    SharedDominant(MembershipsAt(x, t), Stretch(x, t));
    if x >= t.stable {
      MembershipSupport(x, t);
      assert MembershipsAt(x, t) == [1.0, 0.0, 0.0, 0.0];
      assert Round4(1.0) == 1.0 && Round4(0.0) == 0.0;
    }
    hide StateVector;
  }

  /** Two scores outside the degenerate branch: the higher one is never reported worse. */
  lemma CountedStatesOrdered(x: real, y: real, t: Thresholds)
    requires Ordered(t) && 0.0 <= x <= y
    requires Mass(MembershipsAt(x, t)) > EPSILON && Mass(MembershipsAt(y, t)) > EPSILON
    ensures Dominant(StateVector(MembershipsAt(y, t))) <= Dominant(StateVector(MembershipsAt(x, t)))
  {
    StateOnStretch(x, t);
    StateOnStretch(y, t);
    hide StateVector, MembershipsAt;
    if y < t.stable && Stretch(x, t) == Stretch(y, t) {
      OddsUpOnStretch(x, y, t);
      StretchIsShared(x, t);
      StretchIsShared(y, t);
      BetterOddsBetterState(MembershipsAt(x, t), MembershipsAt(y, t), Stretch(x, t));
    }
  }

  // ----- a hidden gap at the degraded threshold -----

  /** The smallest share that rounds to less than its complement. */
  const TIP := 0.49995

  lemma RoundedSharesTip(p: real)
    requires 0.0 <= p <= 1.0
    ensures Round4(p) >= Round4(1.0 - p) <==> p > TIP
  {
  }

  lemma SharesCompare(g: real, total: real)
    requires total > 0.0
    ensures g / total > TIP <==> g > TIP * total
  {
    var p := g / total;
    assert p * total == g;
    ScaleOrder(total, p, TIP);
  }

  /** Between Stable and Degraded, Stable is reported exactly when its share exceeds the tip. */
  lemma StableIffPastTip(m: Vec)
    requires SharedBy(m, 0) && Mass(m) > EPSILON
    ensures Dominant(StateVector(m)) == if m[0] > TIP * Mass(m) then 0 else 1
  {
    SharedDominant(m, 0);
    TwoWayShare(m[0], m[1]);
    assert Mass(m) == m[0] + m[1];
    RoundedSharesTip(m[0] / Mass(m));
    SharesCompare(m[0], Mass(m));
    hide StateVector, Round4;
  }

  /** A gap at the degraded threshold that is hidden so far that Stable leads wherever the total shows again. */
  predicate UpperGapHarmless(t: Thresholds)
    requires Ordered(t)
  {
    GapAtDegraded(t) * (1.0 - TIP * EPSILON) <= (1.0 - TIP) * EPSILON
  }

  lemma BehindTip(u: real, g: real, e: real, total: real)
    requires 0.0 <= u && 0.0 < g <= 1.0 && e > 0.0
    requires total == u + Times(g, 1.0 - u) && total > e && u <= TIP * total
    ensures g * (1.0 - TIP * e) > (1.0 - TIP) * e
  {
    MulMonotone(u, TIP * total, 1.0 - g);
    var k := (1.0 - TIP) + TIP * g;
    assert total == g + u * (1.0 - g);
    assert (TIP * total) * (1.0 - g) == TIP * total - (TIP * g) * total;
    assert total * k == total * (1.0 - TIP) + (TIP * g) * total;
    assert total * k <= g;
    MulStrict(e, total, k);
    assert e * k == (1.0 - TIP) * e + TIP * e * g;
    assert g * (1.0 - TIP * e) == g - TIP * e * g;
  }

  lemma PastTip(u: real, g: real, e: real, total: real)
    requires 0.0 <= u && 0.0 < g <= 1.0 && e > 0.0
    requires total == u + Times(g, 1.0 - u) && total > e && g * (1.0 - TIP * e) <= (1.0 - TIP) * e
    ensures u > TIP * total
  {
    if u <= TIP * total { BehindTip(u, g, e, total); }
  }

  lemma RestOfWay(u: real, w: real, v: real)
    requires v > 0.0
    ensures (w - Times(u, w)) / v == Times(w / v, 1.0 - u)
  {
    var g := w / v;
    assert g * v == w;
    assert (g * (1.0 - u)) * v == (g * v) * (1.0 - u);
    DivUnique(g * (1.0 - u), w - u * w, v);
  }

  /** Above the degraded threshold the memberships in terms of the way covered to the stable one. */
  lemma UpperShares(x: real, u: real, t: Thresholds)
    requires Ordered(t) && t.degraded <= x < t.stable && x - t.degraded == Times(u, t.stable - t.degraded)
    ensures MembershipsAt(x, t) == [u, Times(GapAtDegraded(t), 1.0 - u), 0.0, 0.0]
    ensures 0.0 < GapAtDegraded(t) <= 1.0 && u >= 0.0
  {
    var w, v := t.stable - t.degraded, t.stable - DegradedCenter(t);
    QuotientBetween(w, v);
    RestOfWay(u, w, v);
    DivUnique(u, x - t.degraded, w);
    MembershipSupport(x, t);
    HighFormulas(x, t);
    var m := MembershipsAt(x, t);
    hide MembershipsAt, Times;
    assert t.stable - x == w - Times(u, w);
    assert m[0] == u && m[1] == Times(GapAtDegraded(t), 1.0 - u) && m[2] == 0.0 && m[3] == 0.0;
  }

  lemma StableAboveHarmlessGap(y: real, t: Thresholds)
    requires Ordered(t) && UpperGapHarmless(t) && y >= t.degraded && Mass(MembershipsAt(y, t)) > EPSILON
    ensures Dominant(StateVector(MembershipsAt(y, t))) == 0
  {
    StateOnStretch(y, t);
    hide MembershipsAt, StateVector, GapAtDegraded, Times;
    if y < t.stable {
      var u := WayCovered(y, t);
      UpperShares(y, u, t);
      StretchIsShared(y, t);
      PastTip(u, GapAtDegraded(t), EPSILON, Mass(MembershipsAt(y, t)));
      StableIffPastTip(MembershipsAt(y, t));
    }
  }

  lemma WayCovered(y: real, t: Thresholds) returns (u: real)
    requires Ordered(t) && t.degraded <= y < t.stable
    ensures y - t.degraded == Times(u, t.stable - t.degraded)
  {
    u := (y - t.degraded) / (t.stable - t.degraded);
  }

  /** Once a score falls into the degenerate branch, every higher one is reported Stable. */
  lemma StableFromDegenerateOn(x: real, y: real, t: Thresholds)
    requires Ordered(t) && GapAtUntrusted(t) > EPSILON && UpperGapHarmless(t) && 0.0 <= x <= y
    requires Mass(MembershipsAt(x, t)) <= EPSILON
    ensures Dominant(StateVector(MembershipsAt(y, t))) == 0
  {
    TotalAtLeastGaps(x, t);
    hide MembershipsAt, StateVector, GapAtUntrusted, GapAtDegraded, UpperGapHarmless;
    if Mass(MembershipsAt(y, t)) > EPSILON {
      if y < t.degraded { FallingTotal(x, y, t); } else { StableAboveHarmlessGap(y, t); }
    } else {
      DegenerateIsStable(y, t);
    }
  }

  /** The scale ends before the total is counted again. */
  predicate TopHidden(t: Thresholds) {
    Mass(ComputeMemberships(1.0, t)) <= EPSILON
  }

  /** Where the scale reaches both thresholds: the lower gap shows, and the upper one shows, or is hidden far enough,
      or the scale ends within it. Where it ends below the degraded threshold: the lower gap shows, or the scale ends
      within that. Where it ends below the untrusted one: always. */
  predicate OrderKept(t: Thresholds)
    requires Ordered(t)
  {
    if t.degraded <= 1.0 then
      GapAtUntrusted(t) > EPSILON && (GapAtDegraded(t) > EPSILON || UpperGapHarmless(t) || TopHidden(t))
    else
      t.untrusted <= 1.0 ==> GapAtUntrusted(t) > EPSILON || (1.0 < DegradedCenter(t) && TopHidden(t))
  }

  lemma TopIsStable(t: Thresholds)
    requires Ordered(t) && t.stable <= 1.0
    ensures !TopHidden(t)
  {
    MembershipSupport(1.0, t);
    assert MembershipsAt(1.0, t)[0] == 1.0;
  }

  /** A degenerate score below the untrusted threshold: the total only falls up to there. */
  lemma HiddenBelowUntrusted(x: real, y: real, t: Thresholds)
    requires Ordered(t) && 0.0 <= x <= y < t.untrusted && Mass(MembershipsAt(x, t)) <= EPSILON
    ensures Mass(MembershipsAt(y, t)) <= EPSILON
  {
    if x <= UntrustedCenter(t) {
      LowScoreTotal(x, t);
      MembershipSupport(x, t);
    } else {
      hide MembershipsAt;
      LowFallingTotal(x, y, t);
    }
  }

  /** A degenerate score on the way down to the degraded threshold, and the scale ends before the total is back. */
  lemma HiddenAboveCenter(x: real, y: real, t: Thresholds)
    requires Ordered(t) && DegradedCenter(t) <= x <= y <= 1.0 && Mass(MembershipsAt(x, t)) <= EPSILON
    requires y < t.degraded || TopHidden(t)
    ensures Mass(MembershipsAt(y, t)) <= EPSILON
  {
    hide MembershipsAt;
    if y < t.degraded {
      FallingTotal(x, y, t);
    } else {
      if t.stable <= 1.0 { TopIsStable(t); }
      HighRisingTotal(y, 1.0, t);
    }
  }

  /** Once a score is degenerate, every higher one within the scale is reported Stable. */
  lemma StableOnceDegenerate(x: real, y: real, t: Thresholds)
    requires Ordered(t) && OrderKept(t) && 0.0 <= x <= y <= 1.0 && Mass(MembershipsAt(x, t)) <= EPSILON
    ensures Dominant(StateVector(MembershipsAt(y, t))) == 0
  {
    TotalAtLeastGaps(x, t);
    hide MembershipsAt, StateVector, GapAtUntrusted, GapAtDegraded, UpperGapHarmless, TopHidden;
    if y < t.untrusted {
      HiddenBelowUntrusted(x, y, t);
      DegenerateIsStable(y, t);
    } else if GapAtUntrusted(t) > EPSILON {
      if UpperGapHarmless(t) {
        StableFromDegenerateOn(x, y, t);
      } else {
        HiddenAboveCenter(x, y, t);
        DegenerateIsStable(y, t);
      }
    } else {
      RisingToTop(y, t);
      DegenerateIsStable(y, t);
    }
  }

  lemma RisingToTop(y: real, t: Thresholds)
    requires Ordered(t) && t.untrusted <= y <= 1.0 < DegradedCenter(t) && TopHidden(t)
    ensures Mass(MembershipsAt(y, t)) <= EPSILON
  {
    hide MembershipsAt;
    RisingTotal(y, 1.0, t);
  }

  /** Then the reported state, rounding and ties included, never gets worse as the score rises. */
  lemma StateMonotone(s: real, s': real, t: Thresholds)
    requires Ordered(t) && OrderKept(t) && s <= s'
    ensures StateIndex(s', t) <= StateIndex(s, t)
  {
    var x, y := Fractional(s), Fractional(s');
    hide MembershipsAt, StateVector, OrderKept;
    if Mass(MembershipsAt(x, t)) <= EPSILON {
      StableOnceDegenerate(x, y, t);
    } else if Mass(MembershipsAt(y, t)) <= EPSILON {
      DegenerateIsStable(y, t);
    } else {
      CountedStatesOrdered(x, y, t);
    }
  }

  lemma DegenerateIsStable(x: real, t: Thresholds)
    requires Mass(MembershipsAt(x, t)) <= EPSILON
    ensures Dominant(StateVector(MembershipsAt(x, t))) == 0
  {
  }

  lemma MostlyDegraded(m: Vec)
    requires m[0] == 0.0 && m[1] == 1.0 && 0.0 <= m[2] <= EPSILON && m[3] == 0.0
    ensures Dominant(StateVector(m)) == 1
  {
    hide StateVector, Round4;
    SharedDominant(m, 1);
    assert Mass(m) == 1.0 + m[2];
    DivideOut(0.5, 1.0, 1.0, 1.0 + m[2]);
    var p := 1.0 / (1.0 + m[2]);
    Round4Monotone(1.0 - p, p);
  }

  lemma CenterMemberships(t: Thresholds)
    requires Ordered(t)
    ensures var m := MembershipsAt(DegradedCenter(t), t);
            m[0] == 0.0 && m[1] == 1.0 && 0.0 <= m[2] <= GapAtUntrusted(t) && m[3] == 0.0
  {
    var c := DegradedCenter(t);
    MembershipSupport(c, t);
    DivUnique(1.0, c - t.untrusted, c - t.untrusted);
    FallingSide(t.untrusted, c, t.degraded, t.degraded - UntrustedCenter(t));
  }

  /** Without a visible gap above the untrusted threshold the order is broken: that threshold itself is
      reported Stable, the higher centre of the degraded range Degraded. */
  lemma HiddenGapBreaksOrder(t: Thresholds)
    requires Ordered(t) && t.degraded <= 1.0 && GapAtUntrusted(t) <= EPSILON
    ensures StateIndex(t.untrusted, t) == 0 && StateIndex(DegradedCenter(t), t) == 1
  {
    TotalAtThresholds(t);
    CenterMemberships(t);
    hide MembershipsAt, GapAtUntrusted, GapAtDegraded;
    MostlyDegraded(MembershipsAt(DegradedCenter(t), t));
  }

  /** The scale ends below the degraded threshold, and between it and a hidden gap at the untrusted one the total is
      counted: the untrusted threshold is reported Stable, a higher score worse. */
  lemma ShortScaleBreaksOrder(t: Thresholds) returns (x: real)
    requires Ordered(t) && t.untrusted <= 1.0 < t.degraded && GapAtUntrusted(t) <= EPSILON
    requires DegradedCenter(t) <= 1.0 || !TopHidden(t)
    ensures t.untrusted < x <= 1.0 && StateIndex(t.untrusted, t) == 0 && StateIndex(x, t) > 0
  {
    TotalAtThresholds(t);
    CenterMemberships(t);
    hide MembershipsAt, StateVector, GapAtUntrusted, GapAtDegraded;
    DegenerateIsStable(t.untrusted, t);
    x := if DegradedCenter(t) <= 1.0 then DegradedCenter(t) else 1.0;
    assert Mass(MembershipsAt(x, t)) > EPSILON;
    StateOnStretch(x, t);
  }

  /** A gap at the degraded threshold hidden, but not far enough: the threshold itself is reported Stable, the
      score above it at which the shares tip, or the top of the scale if that comes first, Degraded. The tipping score
      lies within the hidden gap, closer than the hundredths to which scores are published. */
  lemma TippedGapBreaksOrder(t: Thresholds) returns (x: real)
    requires Ordered(t) && t.degraded <= 1.0 && GapAtDegraded(t) <= EPSILON && !UpperGapHarmless(t) && !TopHidden(t)
    ensures t.degraded < x <= 1.0 && StateIndex(t.degraded, t) == 0 && StateIndex(x, t) == 1
  {
    TotalAtThresholds(t);
    GapIsFraction(t);
    var g := GapAtDegraded(t);
    hide MembershipsAt, StateVector, GapAtDegraded, Times;
    DegenerateIsStable(t.degraded, t);
    var u := TippingPoint(g, EPSILON);
    x := PartOfWay(u, t);
    if x > 1.0 {
      x := 1.0;
      var u' := WayCovered(x, t);
      ShorterWay(u', u, t.stable - t.degraded);
      BeforeTip(u', u, g);
      u := u';
    }
    UpperShares(x, u, t);
    StretchIsShared(x, t);
    assert Mass(MembershipsAt(x, t)) == u + Times(g, 1.0 - u);
    StableIffPastTip(MembershipsAt(x, t));
  }

  lemma ShorterWay(u': real, u: real, w: real)
    requires w > 0.0 && Times(u', w) <= Times(u, w)
    ensures u' <= u
  {
    ScaleOrder(w, u', u);
  }

  /** Short of the tipping point Stable trails. */
  lemma BeforeTip(u': real, u: real, g: real)
    requires u' <= u && 0.0 < g <= 1.0 && u == TIP * (u + Times(g, 1.0 - u))
    ensures u' <= TIP * (u' + Times(g, 1.0 - u'))
  {
    MulNonNegative(u - u', g);
    assert Times(g, 1.0 - u') - Times(g, 1.0 - u) == (u - u') * g;
  }

  lemma GapIsFraction(t: Thresholds)
    requires Ordered(t)
    ensures 0.0 < GapAtDegraded(t) <= 1.0
  {
    QuotientBetween(t.stable - t.degraded, t.stable - DegradedCenter(t));
  }

  lemma PartOfWay(u: real, t: Thresholds) returns (x: real)
    requires Ordered(t) && 0.0 < u < 1.0
    ensures t.degraded < x < t.stable && x - t.degraded == Times(u, t.stable - t.degraded)
  {
    var w := t.stable - t.degraded;
    TimesShrinks(w, u);
    TimesCommutes(u, w);
    hide Times;
    x := t.degraded + Times(u, w);
  }

  /** How far up the shares stand exactly at the tip. */
  lemma TippingPoint(g: real, e: real) returns (u: real)
    requires 0.0 < g <= e < 1.0 && g * (1.0 - TIP * e) > (1.0 - TIP) * e
    ensures 0.0 < u < 1.0 && u + Times(g, 1.0 - u) > e && u == TIP * (u + Times(g, 1.0 - u))
  {
    var k := (1.0 - TIP) + TIP * g;
    MulPositive(TIP, g);
    var total := g / k;
    assert total * k == g;
    assert e * k == (1.0 - TIP) * e + TIP * e * g;
    assert g * (1.0 - TIP * e) == g - TIP * e * g;
    if total <= e { MulMonotone(total, e, k); }
    u := TIP * total;
    assert total * k == total * (1.0 - TIP) + (TIP * total) * g;
    assert u * g == (TIP * total) * g;
    assert total == u + g * (1.0 - u);
    if total >= 1.0 { MulMonotone(1.0, total, k); }
  }

  /** For all ordered thresholds, the reported state never gets worse as the score rises if and only if hidden gaps
      are harmless or beyond the scale, as spelled out above. */
  lemma StateMonotoneIff(t: Thresholds)
    requires Ordered(t)
    ensures (forall s, s' :: s <= s' ==> StateIndex(s', t) <= StateIndex(s, t)) <==> OrderKept(t)
  {
    hide StateIndex, GapAtUntrusted, GapAtDegraded, UpperGapHarmless, TopHidden;
    if OrderKept(t) {
      forall s, s' | s <= s' ensures StateIndex(s', t) <= StateIndex(s, t) { StateMonotone(s, s', t); }
    } else if t.degraded > 1.0 {
      var x := ShortScaleBreaksOrder(t);
    } else if GapAtUntrusted(t) <= EPSILON {
      HiddenGapBreaksOrder(t);
      assert t.untrusted <= DegradedCenter(t);
    } else {
      var x := TippedGapBreaksOrder(t);
    }
  }

  /** With all thresholds on the scale: the lower gap shows, and the upper one shows or is hidden far enough. */
  lemma OrderKeptOnScaleIff(t: Thresholds)
    requires Ordered(t) && t.stable <= 1.0
    ensures OrderKept(t) <==> GapAtUntrusted(t) > EPSILON && (GapAtDegraded(t) > EPSILON || UpperGapHarmless(t))
  {
    TopIsStable(t);
    hide GapAtUntrusted, GapAtDegraded, UpperGapHarmless, TopHidden;
  }

  /** Thresholds a hair apart: a score in the middle of the scale is reported Stable, one higher by a published
      cent Degraded. */
  lemma NarrowGapMisreports()
    ensures var t := Thresholds(0.9, 0.5 + 0.0000000000001, 0.5);
            Ordered(t) && StateIndex(0.5, t) == 0 && StateIndex(0.5001, t) == 1
  {
    var t := Thresholds(0.9, 0.5 + 0.0000000000001, 0.5);
    var x := 0.5001;
    TotalAtThresholds(t);
    DivideOut(0.0, t.degraded - t.untrusted, EPSILON, t.degraded - UntrustedCenter(t));
    DegenerateIsStable(t.untrusted, t);
    HighFormulas(x, t);
    DivideOut(0.0, x - t.degraded, 0.1, t.stable - t.degraded);
    DivideOut(0.9, t.stable - x, 1.0, t.stable - DegradedCenter(t));
    StretchIsShared(x, t);
    hide MembershipsAt, StateVector;
    StableIffPastTip(MembershipsAt(x, t));
  }

  // ----- what is handed to the inference layer -----

  lemma RoundedShareVector(m: Vec, b: nat)
    requires SharedBy(m, b) && Mass(m) > EPSILON
    ensures var v := StateVector(m);
            NonNegative(v) && (Mass(v) == 1.0 || Mass(v) == 1.0001)
  {
    var p := m[b] / Mass(m);
    assert Mass(m) == m[b] + m[b + 1];
    TwoWayShare(m[b], m[b + 1]);
    assert 0.0 / Mass(m) == 0.0;
    Round4Complement(p);
    Round4Monotone(0.0, p);
    Round4Monotone(0.0, 1.0 - p);
    assert Round4(0.0) == 0.0;
    hide Round4;
    var v := StateVector(m);
    assert v[b] == Round4(p) && v[b + 1] == Round4(1.0 - p);
  }

  /** Every published state vector is free of negative entries, totals 1 or, through rounding, 1.0001, and has an
      evidence weight below one: the forecasts keep its mass and its order. */
  lemma PublishedVectorFits(score: real, t: Thresholds)
    requires Ordered(t)
    ensures var v := StateVector(ComputeMemberships(score, t));
            && NonNegative(v) && (Mass(v) == 1.0 || Mass(v) == 1.0001) && EvidenceWeight(v) <= 1.0
  {
    var x := Fractional(score);
    var m := MembershipsAt(x, t);
    if Mass(m) > EPSILON {
      StretchIsShared(x, t);
      RoundedShareVector(m, Stretch(x, t));
    }
    hide MembershipsAt, Round4;
    EvidenceWeightRange(StateVector(m));
  }
}
