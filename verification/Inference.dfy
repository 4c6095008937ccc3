/** Prism's inference layer: Markov and Bayes prediction over the four risk states, ordered from
    Stable (0) to Collapse (3). */
module Inference {
  import opened RealLemmas
  import opened SsamTypes

  type Vec = v: seq<real> | |v| == 4 witness [0.0, 0.0, 0.0, 0.0]

  type Mat = m: seq<Vec> | |m| == 4
    witness [ZERO_VEC, ZERO_VEC, ZERO_VEC, ZERO_VEC]

  const ZERO_VEC: Vec := [0.0, 0.0, 0.0, 0.0]
  const ZERO_MAT: Mat := [ZERO_VEC, ZERO_VEC, ZERO_VEC, ZERO_VEC]
  const IDENTITY: Mat := [[1.0, 0.0, 0.0, 0.0], [0.0, 1.0, 0.0, 0.0], [0.0, 0.0, 1.0, 0.0], [0.0, 0.0, 0.0, 1.0]]

  // ----- products -----

  function Dot(u: Vec, v: Vec): real {
    Times(u[0], v[0]) + Times(u[1], v[1]) + Times(u[2], v[2]) + Times(u[3], v[3])
  }

  function Col(m: Mat, j: nat): Vec
    requires j < 4
  {
    [m[0][j], m[1][j], m[2][j], m[3][j]]
  }

  function VecMul(v: Vec, m: Mat): Vec {
    [Dot(v, Col(m, 0)), Dot(v, Col(m, 1)), Dot(v, Col(m, 2)), Dot(v, Col(m, 3))]
  }

  function MatMul(a: Mat, b: Mat): Mat {
    [VecMul(a[0], b), VecMul(a[1], b), VecMul(a[2], b), VecMul(a[3], b)]
  }

  function Pow(m: Mat, n: nat): Mat {
    if n == 0 then IDENTITY else MatMul(Pow(m, n - 1), m)
  }

  /** The first `n` terms of a dot product, as the loops accumulate it. */
  function PartialDot(u: Vec, v: Vec, n: nat): real
    requires n <= 4
  {
    if n == 0 then 0.0 else PartialDot(u, v, n - 1) + Times(u[n - 1], v[n - 1])
  }

  lemma PartialDotIsDot(u: Vec, v: Vec)
    ensures PartialDot(u, v, 4) == Dot(u, v)
  {
    hide Times;
    assert PartialDot(u, v, 1) == Times(u[0], v[0]);
    assert PartialDot(u, v, 2) == PartialDot(u, v, 1) + Times(u[1], v[1]);
    assert PartialDot(u, v, 3) == PartialDot(u, v, 2) + Times(u[2], v[2]);
  }

  method DotLoop(u: Vec, v: Vec) returns (sum: real)
    ensures sum == Dot(u, v)
  {
    hide Times;
    sum := 0.0;
    for k := 0 to 4
      invariant sum == PartialDot(u, v, k)
    {
      sum := sum + Times(u[k], v[k]);
    }
    PartialDotIsDot(u, v);
  }

  method MatMulVec4(vec: Vec, mat: Mat) returns (out: Vec)
    ensures out == VecMul(vec, mat)
  {
    hide Dot;
    out := ZERO_VEC;
    for j := 0 to 4
      invariant forall c :: 0 <= c < j ==> out[c] == Dot(vec, Col(mat, c))
    {
      var sum := DotLoop(vec, Col(mat, j));
      out := out[j := sum];
    }
  }

  /** The triple loop that `matPow` writes out twice. */
  method MatMulLoop(a: Mat, b: Mat) returns (next: Mat)
    ensures next == MatMul(a, b)
  {
    next := ZERO_MAT;
    for i := 0 to 4
      invariant forall r :: 0 <= r < i ==> next[r] == VecMul(a[r], b)
    {
      var row := MatMulVec4(a[i], b);
      next := next[i := row];
    }
  }

  // ----- algebra of the 4x4 product -----

  lemma TimesOverSum(w: real, a: real, b: real, c: real, d: real)
    ensures Times(w, a + b + c + d) == Times(w, a) + Times(w, b) + Times(w, c) + Times(w, d)
    ensures Times(a + b + c + d, w) == Times(a, w) + Times(b, w) + Times(c, w) + Times(d, w)
  {
    TimesAdd(w, a + b + c, d);
    TimesAdd(w, a + b, c);
    TimesAdd(w, a, b);
    TimesCommutes(w, a + b + c + d);
    TimesCommutes(w, a);
    TimesCommutes(w, b);
    TimesCommutes(w, c);
    TimesCommutes(w, d);
    hide Times;
  }

  lemma TimesAssociates(a: real, b: real, c: real)
    ensures Times(Times(a, b), c) == Times(a, Times(b, c))
  {
  }

  function MatVec(m: Mat, c: Vec): Vec {
    [Dot(m[0], c), Dot(m[1], c), Dot(m[2], c), Dot(m[3], c)]
  }

  /** One term of the column side, multiplied out. */
  lemma RowTerm(u: Vec, m: Mat, c: Vec, k: nat)
    requires k < 4
    ensures Times(Dot(u, Col(m, k)), c[k])
         == Times(u[0], Times(m[0][k], c[k])) + Times(u[1], Times(m[1][k], c[k]))
          + Times(u[2], Times(m[2][k], c[k])) + Times(u[3], Times(m[3][k], c[k]))
  {
    TimesAssociates(u[0], m[0][k], c[k]);
    TimesAssociates(u[1], m[1][k], c[k]);
    TimesAssociates(u[2], m[2][k], c[k]);
    TimesAssociates(u[3], m[3][k], c[k]);
    hide Times;
    TimesOverSum(c[k], Times(u[0], m[0][k]), Times(u[1], m[1][k]), Times(u[2], m[2][k]), Times(u[3], m[3][k]));
  }

  lemma ColumnTerm(u: Vec, m: Mat, c: Vec, i: nat)
    requires i < 4
    ensures Times(u[i], Dot(m[i], c))
         == Times(u[i], Times(m[i][0], c[0])) + Times(u[i], Times(m[i][1], c[1]))
          + Times(u[i], Times(m[i][2], c[2])) + Times(u[i], Times(m[i][3], c[3]))
  {
    hide Times;
    TimesOverSum(u[i], Times(m[i][0], c[0]), Times(m[i][1], c[1]), Times(m[i][2], c[2]), Times(m[i][3], c[3]));
  }

  lemma DotAssociates(u: Vec, m: Mat, c: Vec)
    ensures Dot(VecMul(u, m), c) == Dot(u, MatVec(m, c))
  {
    RowTerm(u, m, c, 0);
    RowTerm(u, m, c, 1);
    RowTerm(u, m, c, 2);
    RowTerm(u, m, c, 3);
    ColumnTerm(u, m, c, 0);
    ColumnTerm(u, m, c, 1);
    ColumnTerm(u, m, c, 2);
    ColumnTerm(u, m, c, 3);
    hide Times;
  }

  lemma VecMulAssociates(u: Vec, a: Mat, b: Mat)
    ensures VecMul(VecMul(u, a), b) == VecMul(u, MatMul(a, b))
  {
    hide Dot;
    forall j: nat | j < 4 ensures Dot(VecMul(u, a), Col(b, j)) == Dot(u, Col(MatMul(a, b), j)) {
      DotAssociates(u, a, Col(b, j));
      assert MatVec(a, Col(b, j)) == Col(MatMul(a, b), j);
    }
  }

  lemma MatMulAssociates(a: Mat, b: Mat, c: Mat)
    ensures MatMul(MatMul(a, b), c) == MatMul(a, MatMul(b, c))
  {
    VecMulAssociates(a[0], b, c);
    VecMulAssociates(a[1], b, c);
    VecMulAssociates(a[2], b, c);
    VecMulAssociates(a[3], b, c);
    hide VecMul;
  }

  lemma TimesUnits(x: real)
    ensures Times(1.0, x) == x == Times(x, 1.0)
    ensures Times(0.0, x) == 0.0 == Times(x, 0.0)
  {
  }

  lemma VecIdentity(v: Vec)
    ensures VecMul(v, IDENTITY) == v
  {
    TimesUnits(v[0]);
    TimesUnits(v[1]);
    TimesUnits(v[2]);
    TimesUnits(v[3]);
    hide Times;
    assert Col(IDENTITY, 0) == [1.0, 0.0, 0.0, 0.0] && Col(IDENTITY, 1) == [0.0, 1.0, 0.0, 0.0];
    assert Col(IDENTITY, 2) == [0.0, 0.0, 1.0, 0.0] && Col(IDENTITY, 3) == [0.0, 0.0, 0.0, 1.0];
  }

  lemma UnitRow(m: Mat, i: nat)
    requires i < 4
    ensures VecMul(IDENTITY[i], m) == m[i]
  {
    forall j: nat | j < 4 ensures Dot(IDENTITY[i], Col(m, j)) == m[i][j] {
      TimesUnits(m[0][j]);
      TimesUnits(m[1][j]);
      TimesUnits(m[2][j]);
      TimesUnits(m[3][j]);
      hide Times;
    }
    hide Dot;
  }

  lemma IdentityNeutral(m: Mat)
    ensures MatMul(IDENTITY, m) == m == MatMul(m, IDENTITY)
  {
    UnitRow(m, 0);
    UnitRow(m, 1);
    UnitRow(m, 2);
    UnitRow(m, 3);
    VecIdentity(m[0]);
    VecIdentity(m[1]);
    VecIdentity(m[2]);
    VecIdentity(m[3]);
    hide VecMul;
  }

  lemma {:induction false} PowAdds(m: Mat, a: nat, b: nat)
    ensures Pow(m, a + b) == MatMul(Pow(m, a), Pow(m, b))
    decreases b
  {
    hide MatMul;
    if b == 0 {
      IdentityNeutral(Pow(m, a));
    } else {
      PowAdds(m, a, b - 1);
      MatMulAssociates(Pow(m, a), Pow(m, b - 1), m);
    }
  }

  lemma PowOne(m: Mat)
    ensures Pow(m, 1) == m
  {
    hide MatMul;
    IdentityNeutral(m);
    assert Pow(m, 0) == IDENTITY;
  }

  lemma {:induction false} PowOfSquare(m: Mat, k: nat)
    ensures Pow(MatMul(m, m), k) == Pow(m, 2 * k)
  {
    hide MatMul;
    if k > 0 {
      PowOfSquare(m, k - 1);
      MatMulAssociates(Pow(m, 2 * k - 2), m, m);
      assert Pow(m, 2 * k) == MatMul(Pow(m, 2 * k - 1), m);
      assert Pow(m, 2 * k - 1) == MatMul(Pow(m, 2 * k - 2), m);
    }
  }

  function Steps(n: int): nat {
    if n <= 0 then 0 else n
  }

  /** Exponentiation by squaring computes the n-fold product; a non-positive count gives the identity. */
  method MatPow(mat: Mat, steps: int) returns (result: Mat)
    ensures result == Pow(mat, Steps(steps))
  {
    hide MatMul;
    result := IDENTITY;
    var base := mat;
    var n := steps;
    IdentityNeutral(Pow(mat, Steps(steps)));
    while n > 0
      invariant MatMul(result, Pow(base, Steps(n))) == Pow(mat, Steps(steps))
    {
      PowAdds(base, n % 2, n - n % 2);
      PowOfSquare(base, n / 2);
      assert n - n % 2 == 2 * (n / 2);
      if n % 2 == 1 {
        PowOne(base);
        MatMulAssociates(result, base, Pow(base, n - 1));
        result := MatMulLoop(result, base);
      } else {
        IdentityNeutral(Pow(base, n));
      }
      base := MatMulLoop(base, base);
      n := n / 2;
    }
    IdentityNeutral(result);
  }

  // ----- distributions -----

  function Mass(v: Vec): real {
    v[0] + v[1] + v[2] + v[3]
  }

  predicate NonNegative(v: Vec) {
    v[0] >= 0.0 && v[1] >= 0.0 && v[2] >= 0.0 && v[3] >= 0.0
  }

  predicate Distribution(v: Vec) {
    NonNegative(v) && Mass(v) == 1.0
  }

  predicate Stochastic(m: Mat) {
    Distribution(m[0]) && Distribution(m[1]) && Distribution(m[2]) && Distribution(m[3])
  }

  /** The weight of state `t` and everything worse. */
  function Tail(v: Vec, t: nat): real
    requires t < 4
  {
    if t == 0 then Mass(v) else if t == 1 then v[1] + v[2] + v[3] else if t == 2 then v[2] + v[3] else v[3]
  }

  function Tails(m: Mat, t: nat): Vec
    requires t < 4
  {
    [Tail(m[0], t), Tail(m[1], t), Tail(m[2], t), Tail(m[3], t)]
  }

  /** Dotting with a sum of columns is summing the dots. */
  lemma DotAddsColumns(u: Vec, a: Vec, b: Vec, s: Vec)
    requires s == [a[0] + b[0], a[1] + b[1], a[2] + b[2], a[3] + b[3]]
    ensures Dot(u, s) == Dot(u, a) + Dot(u, b)
  {
    TimesAdd(u[0], a[0], b[0]);
    TimesAdd(u[1], a[1], b[1]);
    TimesAdd(u[2], a[2], b[2]);
    TimesAdd(u[3], a[3], b[3]);
    hide Times;
  }

  /** A tail of the product is the vector dotted with the rows' tails. */
  lemma TailOfProduct(v: Vec, m: Mat, t: nat)
    requires t < 4
    ensures Tail(VecMul(v, m), t) == Dot(v, Tails(m, t))
  {
    hide Dot;
    assert Tails(m, 3) == Col(m, 3);
    DotAddsColumns(v, Col(m, 2), Tails(m, 3), Tails(m, 2));
    DotAddsColumns(v, Col(m, 1), Tails(m, 2), Tails(m, 1));
    DotAddsColumns(v, Col(m, 0), Tails(m, 1), Tails(m, 0));
  }

  lemma DotNonNegative(u: Vec, v: Vec)
    requires NonNegative(u) && NonNegative(v)
    ensures Dot(u, v) >= 0.0
  {
    MulNonNegative(u[0], v[0]);
    MulNonNegative(u[1], v[1]);
    MulNonNegative(u[2], v[2]);
    MulNonNegative(u[3], v[3]);
  }

  /** A stochastic step keeps nonnegativity and total mass. */
  lemma StepKeepsMass(v: Vec, m: Mat)
    requires Stochastic(m)
    ensures Mass(VecMul(v, m)) == Mass(v)
    ensures NonNegative(v) ==> NonNegative(VecMul(v, m))
  {
    TailOfProduct(v, m, 0);
    assert Tails(m, 0) == [1.0, 1.0, 1.0, 1.0];
    TimesUnits(v[0]);
    TimesUnits(v[1]);
    TimesUnits(v[2]);
    TimesUnits(v[3]);
    if NonNegative(v) {
      DotNonNegative(v, Col(m, 0));
      DotNonNegative(v, Col(m, 1));
      DotNonNegative(v, Col(m, 2));
      DotNonNegative(v, Col(m, 3));
    }
    hide Times;
  }

  /** After any number of steps. */
  lemma {:induction false} PowerKeepsMass(v: Vec, m: Mat, k: nat)
    requires Stochastic(m)
    ensures Mass(VecMul(v, Pow(m, k))) == Mass(v)
    ensures NonNegative(v) ==> NonNegative(VecMul(v, Pow(m, k)))
  {
    if k == 0 {
      VecIdentity(v);
    } else {
      PowerKeepsMass(v, m, k - 1);
      VecMulAssociates(v, Pow(m, k - 1), m);
      StepKeepsMass(VecMul(v, Pow(m, k - 1)), m);
    }
    hide VecMul;
  }

  // ----- stochastic dominance -----

  /** Equal mass, and at least as much weight on every tail. */
  predicate AtLeastAsBad(u: Vec, v: Vec) {
    Mass(u) == Mass(v) && Tail(u, 1) >= Tail(v, 1) && Tail(u, 2) >= Tail(v, 2) && Tail(u, 3) >= Tail(v, 3)
  }

  /** From a worse state the next day is at least as bad. */
  predicate RowsWorsen(m: Mat) {
    AtLeastAsBad(m[1], m[0]) && AtLeastAsBad(m[2], m[1]) && AtLeastAsBad(m[3], m[2])
  }

  /** Summation by parts. */
  lemma DotByTails(v: Vec, r: Vec)
    ensures Dot(v, r) == Times(r[0], Mass(v)) + Times(r[1] - r[0], Tail(v, 1))
                       + Times(r[2] - r[1], Tail(v, 2)) + Times(r[3] - r[2], Tail(v, 3))
  {
    TimesOverSum(r[0], v[0], v[1], v[2], v[3]);
    TimesOverSum(r[1] - r[0], 0.0, v[1], v[2], v[3]);
    TimesOverSum(r[2] - r[1], 0.0, 0.0, v[2], v[3]);
    TimesOverSum(r[3] - r[2], 0.0, 0.0, 0.0, v[3]);
    TimesUnits(r[1] - r[0]);
    TimesUnits(r[2] - r[1]);
    TimesUnits(r[3] - r[2]);
    TimesDifference(v[1], r[1], r[0]);
    TimesDifference(v[2], r[1], r[0]);
    TimesDifference(v[3], r[1], r[0]);
    TimesDifference(v[2], r[2], r[1]);
    TimesDifference(v[3], r[2], r[1]);
    TimesDifference(v[3], r[3], r[2]);
    TimesCommutes(v[0], r[0]);
    hide Times;
  }

  lemma TimesDifference(v: real, a: real, b: real)
    ensures Times(a - b, v) == Times(v, a) - Times(v, b)
    ensures Times(b, v) == Times(v, b)
  {
  }

  lemma DotMonotone(u: Vec, v: Vec, r: Vec)
    requires AtLeastAsBad(u, v) && r[0] <= r[1] <= r[2] <= r[3]
    ensures Dot(u, r) >= Dot(v, r)
  {
    DotByTails(u, r);
    DotByTails(v, r);
    hide Dot, Times;
    TimesMonotone(r[1] - r[0], Tail(v, 1), Tail(u, 1));
    TimesMonotone(r[2] - r[1], Tail(v, 2), Tail(u, 2));
    TimesMonotone(r[3] - r[2], Tail(v, 3), Tail(u, 3));
  }

  /** One step of a monotone chain keeps a worse distribution worse. */
  lemma StepKeepsOrder(u: Vec, v: Vec, m: Mat)
    requires Stochastic(m) && RowsWorsen(m) && AtLeastAsBad(u, v)
    ensures AtLeastAsBad(VecMul(u, m), VecMul(v, m))
  {
    StepKeepsMass(u, m);
    StepKeepsMass(v, m);
    hide VecMul, Dot;
    forall t: nat | 1 <= t < 4 ensures Tail(VecMul(u, m), t) >= Tail(VecMul(v, m), t) {
      TailOfProduct(u, m, t);
      TailOfProduct(v, m, t);
      DotMonotone(u, v, Tails(m, t));
    }
  }

  /** ... and so does every number of steps. */
  lemma {:induction false} PowerKeepsOrder(u: Vec, v: Vec, m: Mat, k: nat)
    requires Stochastic(m) && RowsWorsen(m) && AtLeastAsBad(u, v)
    ensures AtLeastAsBad(VecMul(u, Pow(m, k)), VecMul(v, Pow(m, k)))
  {
    if k == 0 {
      VecIdentity(u);
      VecIdentity(v);
    } else {
      PowerKeepsOrder(u, v, m, k - 1);
      VecMulAssociates(u, Pow(m, k - 1), m);
      VecMulAssociates(v, Pow(m, k - 1), m);
      StepKeepsOrder(VecMul(u, Pow(m, k - 1)), VecMul(v, Pow(m, k - 1)), m);
    }
    hide VecMul;
  }

  /** The powers of a monotone chain are themselves stochastic and monotone. */
  lemma PowerIsMonotone(m: Mat, k: nat)
    requires Stochastic(m) && RowsWorsen(m)
    ensures Stochastic(Pow(m, k)) && RowsWorsen(Pow(m, k))
  {
    var p := Pow(m, k);
    forall i: nat | i < 4 ensures VecMul(IDENTITY[i], p) == p[i] && Distribution(p[i]) {
      UnitRow(p, i);
      PowerKeepsMass(IDENTITY[i], m, k);
    }
    forall i: nat | i < 3 ensures AtLeastAsBad(p[i + 1], p[i]) {
      PowerKeepsOrder(IDENTITY[i + 1], IDENTITY[i], m, k);
    }
    hide VecMul, Pow;
  }

  // ----- the Markov model -----

  const DEFAULT_TRANSITION: Mat := [
    [0.95, 0.04, 0.01, 0.00],
    [0.02, 0.90, 0.07, 0.01],
    [0.00, 0.03, 0.85, 0.12],
    [0.00, 0.00, 0.05, 0.95]]

  lemma DefaultTransitionIsMonotone()
    ensures Stochastic(DEFAULT_TRANSITION) && RowsWorsen(DEFAULT_TRANSITION)
  {
  }

  /** A matrix with any entry that is not zero is used as it is. */
  lemma ModelKept(m: Mat, i: nat, j: nat)
    requires i < 4 && j < 4 && m[i][j] != 0.0
    ensures TransitionInForce(m) == m
  {
    assert ZERO_MAT[i][j] == 0.0;
  }

  /** n steps are one step more than n - 1, and none where n is not positive. */
  lemma StepByStep(m: Mat, n: int)
    ensures n <= 0 ==> Pow(m, Steps(n)) == IDENTITY
    ensures n > 0 ==> Pow(m, Steps(n)) == MatMul(Pow(m, Steps(n - 1)), m)
  {
    hide MatMul;
  }

  /** One step of the default model from each state alone. */
  lemma DefaultStep()
    ensures VecMul([1.0, 0.0, 0.0, 0.0], TransitionInForce(ZERO_MAT)) == [0.95, 0.04, 0.01, 0.0]
    ensures VecMul([0.0, 1.0, 0.0, 0.0], TransitionInForce(ZERO_MAT)) == [0.02, 0.90, 0.07, 0.01]
    ensures VecMul([0.0, 0.0, 1.0, 0.0], TransitionInForce(ZERO_MAT)) == [0.0, 0.03, 0.85, 0.12]
    ensures VecMul([0.0, 0.0, 0.0, 1.0], TransitionInForce(ZERO_MAT)) == [0.0, 0.0, 0.05, 0.95]
  {
  }

  function TransitionInForce(m: Mat): Mat {
    if m == ZERO_MAT then DEFAULT_TRANSITION else m
  }

  method NewMarkovChainModel(transition: Mat) returns (t: Mat)
    ensures t == TransitionInForce(transition)
  {
    var zero := true;
    for i := 0 to 4
      invariant zero <==> forall r :: 0 <= r < i ==> transition[r] == ZERO_VEC
    {
      for j := 0 to 4
        invariant zero <==> (forall r :: 0 <= r < i ==> transition[r] == ZERO_VEC) && forall c :: 0 <= c < j ==>
                  transition[i][c] == 0.0
      {
        if transition[i][j] != 0.0 {
          zero := false;
        }
      }
      assert transition[i] == ZERO_VEC <==> forall c :: 0 <= c < 4 ==> transition[i][c] == 0.0;
    }
    assert zero <==> transition == ZERO_MAT;
    t := if zero then DEFAULT_TRANSITION else transition;
  }

  // ----- how far a forecast is trusted -----

  /** The base-two logarithm and the square root, of which only the facts in `LawfulLogs` are used. */
  datatype LogFunctions = LogFunctions(log2: real -> real, sqrt: real -> real)

  ghost predicate LawfulLogs(fn: LogFunctions) {
    && IsRoot(fn.sqrt)
    && fn.log2(4.0) == 2.0 && fn.log2(1.0) == 0.0 && fn.log2(0.5) == -1.0 && fn.log2(0.25) == -2.0
    && forall p :: 0.0 < p <= 1.0 ==> fn.log2(p) <= 0.0
  }

  function Surprise(p: real, fn: LogFunctions): real {
    if p > 0.000000000001 then Times(p, fn.log2(p)) else 0.0
  }

  function Entropy(v: Vec, fn: LogFunctions): real {
    0.0 - Surprise(v[0], fn) - Surprise(v[1], fn) - Surprise(v[2], fn) - Surprise(v[3], fn)
  }

  method EntropyLoop(v: Vec, fn: LogFunctions) returns (entropy: real)
    ensures entropy == Entropy(v, fn)
  {
    hide Times;
    entropy := 0.0;
    for i := 0 to 4
      invariant entropy == if i == 0 then 0.0 else if i == 1 then 0.0 - Surprise(v[0], fn)
                           else if i == 2 then 0.0 - Surprise(v[0], fn) - Surprise(v[1], fn)
                           else if i == 3 then 0.0 - Surprise(v[0], fn) - Surprise(v[1], fn) - Surprise(v[2], fn)
                             else Entropy(v, fn)
    {
      if v[i] > 0.000000000001 {
        entropy := entropy - Times(v[i], fn.log2(v[i]));
      }
    }
  }

  function HorizonDecay(steps: int): (d: real)
    requires steps >= 0
    ensures 0.0 < d <= 1.0
  {
    DecayInRange(steps as real * 0.02);
    1.0 / (1.0 + steps as real * 0.02)
  }

  lemma DecayInRange(x: real)
    requires x >= 0.0
    ensures 0.0 < 1.0 / (1.0 + x) <= 1.0
  {
    DivStrict(0.0, 1.0, 1.0 + x);
    DivideOut(0.0, 1.0, 1.0, 1.0 + x);
  }

  function Fractional(x: real): (r: real)
    ensures 0.0 <= r <= 1.0
  {
    if x <= 0.0 then 0.0 else if x >= 1.0 then 1.0 else x
  }

  /** Low entropy, a near horizon and a concentrated present make a forecast trusted. */
  function MarkovConfidence(current: Vec, future: Vec, steps: int, fn: LogFunctions): real
    requires fn.log2(4.0) != 0.0
  {
    if steps <= 0 then 1.0
    else Fractional(Times(Times(1.0 - Entropy(future, fn) / fn.log2(4.0), HorizonDecay(steps)),
                          fn.sqrt(Dot(current, current))))
  }

  /** Entropy lost since the present and a near horizon make a forecast trusted. */
  function BayesConfidence(current: Vec, future: Vec, steps: int, fn: LogFunctions): real
    requires fn.log2(4.0) != 0.0
  {
    if steps <= 0 then 1.0
    else Fractional(Times(((Entropy(current, fn) - Entropy(future, fn)) / fn.log2(4.0) + 1.0) / 2.0,
                          HorizonDecay(steps)))
  }

  /** All the weight on one state, split evenly between two, or spread evenly: no entropy, one bit, two. */
  lemma EntropyExamples(fn: LogFunctions)
    requires LawfulLogs(fn)
    ensures Entropy([1.0, 0.0, 0.0, 0.0], fn) == Entropy([0.0, 1.0, 0.0, 0.0], fn) == Entropy([0.0, 0.0, 1.0, 0.0], fn)
            == Entropy([0.0, 0.0, 0.0, 1.0], fn) == 0.0
    ensures Entropy([0.5, 0.5, 0.0, 0.0], fn) == Entropy([0.0, 0.0, 0.5, 0.5], fn) == 1.0
    ensures Entropy([0.25, 0.25, 0.25, 0.25], fn) == 2.0
  {
    assert Surprise(1.0, fn) == 0.0 && Surprise(0.0, fn) == 0.0;
    assert Surprise(0.5, fn) == -0.5 && Surprise(0.25, fn) == -0.5;
    hide Surprise;
  }

  /** A forecast is half trusted at fifty steps: the decay of n steps is what 1 + n/50 scales back to one. */
  lemma DecayHalvesAtFifty(steps: int)
    requires steps >= 0
    ensures Times(HorizonDecay(steps), 1.0 + steps as real / 50.0) == 1.0
    ensures HorizonDecay(50) == 0.5
  {
    assert 1.0 + steps as real * 0.02 == 1.0 + steps as real / 50.0;
    TimesUndoesDivision(1.0, 1.0 + steps as real * 0.02);
  }

  lemma SquaresNotNegative(v: Vec)
    ensures Dot(v, v) >= 0.0
  {
    SquareIsTimes(v[0]);
    SquareIsTimes(v[1]);
    SquareIsTimes(v[2]);
    SquareIsTimes(v[3]);
    SquareNonNegative(v[0]);
    SquareNonNegative(v[1]);
    SquareNonNegative(v[2]);
    SquareNonNegative(v[3]);
    hide Times, Square;
  }

  /** The confidence of a Markov forecast: what the future's entropy leaves of two bits, times the horizon's decay,
      times the length of the present, cut off at 0 and 1. */
  lemma MarkovConfidenceIs(current: Vec, future: Vec, steps: int, fn: LogFunctions)
    requires LawfulLogs(fn)
    ensures steps <= 0 ==> MarkovConfidence(current, future, steps, fn) == 1.0
    ensures steps > 0 ==>
              exists length :: length >= 0.0 && Square(length) == Dot(current, current)
                && MarkovConfidence(current, future, steps, fn)
                   == Max(0.0, Min(1.0, Times(Times(1.0 - Entropy(future, fn) / 2.0, HorizonDecay(steps)), length)))
  {
    if steps > 0 {
      SquaresNotNegative(current);
      hide Entropy, HorizonDecay, Dot, Times;
      var length := fn.sqrt(Dot(current, current));
      assert length >= 0.0 && Square(length) == Dot(current, current);
      hide Square;
    }
  }

  /** Of a Bayes forecast: half of one plus the entropy lost, in units of two bits, times the horizon's decay, cut off
      at 0 and 1. */
  lemma BayesConfidenceIs(current: Vec, future: Vec, steps: int, fn: LogFunctions)
    requires LawfulLogs(fn)
    ensures steps <= 0 ==> BayesConfidence(current, future, steps, fn) == 1.0
    ensures steps > 0 ==>
              BayesConfidence(current, future, steps, fn)
              == Max(0.0, Min(1.0, Times(0.5 + (Entropy(current, fn) - Entropy(future, fn)) / 4.0,
                                         HorizonDecay(steps))))
  {
    hide Entropy, HorizonDecay, Times;
    if steps > 0 {
      var lost := Entropy(current, fn) - Entropy(future, fn);
      assert (lost / fn.log2(4.0) + 1.0) / 2.0 == 0.5 + lost / 4.0;
    }
  }

  /** Between distributions of at most two bits nothing is cut off. */
  lemma NothingCutOff(current: Vec, future: Vec, steps: int, length: real, fn: LogFunctions)
    requires LawfulLogs(fn) && Distribution(current) && Distribution(future) && steps > 0
    requires Entropy(current, fn) <= 2.0 && Entropy(future, fn) <= 2.0
    requires length >= 0.0 && Square(length) == Dot(current, current)
    ensures 0.0 <= Times(Times(1.0 - Entropy(future, fn) / 2.0, HorizonDecay(steps)), length) <= 1.0
    ensures 0.0 <= Times(0.5 + (Entropy(current, fn) - Entropy(future, fn)) / 4.0, HorizonDecay(steps)) <= 1.0
  {
    PartsOfOne(current);
    EntropyNotNegative(current, fn);
    EntropyNotNegative(future, fn);
    hide Entropy, Dot, HorizonDecay, LawfulLogs;
    assert Square(1.0) == 1.0;
    SquareOrder(length, 1.0);
    var e, l := 1.0 - Entropy(future, fn) / 2.0, 0.5 + (Entropy(current, fn) - Entropy(future, fn)) / 4.0;
    ProductInScale(e, HorizonDecay(steps), length);
    ProductInScale(l, HorizonDecay(steps), 1.0);
    TimesUnits(Times(l, HorizonDecay(steps)));
    hide Times, Square;
  }

  lemma EntropyNotNegative(v: Vec, fn: LogFunctions)
    requires LawfulLogs(fn) && Distribution(v)
    ensures Entropy(v, fn) >= 0.0
  {
    PartsOfOne(v);
    SurpriseNotPositive(v[0], fn);
    SurpriseNotPositive(v[1], fn);
    SurpriseNotPositive(v[2], fn);
    SurpriseNotPositive(v[3], fn);
    hide Surprise;
  }

  lemma ProductInScale(a: real, b: real, c: real)
    requires 0.0 <= a <= 1.0 && 0.0 <= b <= 1.0 && 0.0 <= c <= 1.0
    ensures 0.0 <= Times(Times(a, b), c) <= 1.0
  {
    MulBoth(a, 1.0, b, 1.0);
    MulBoth(a * b, 1.0, c, 1.0);
  }

  lemma SurpriseNotPositive(p: real, fn: LogFunctions)
    requires LawfulLogs(fn) && p <= 1.0
    ensures Surprise(p, fn) <= 0.0
  {
    if p > 0.0 { TimesMonotone(p, fn.log2(p), 0.0); }
  }

  lemma PartsOfOne(v: Vec)
    requires Distribution(v)
    ensures v[0] <= 1.0 && v[1] <= 1.0 && v[2] <= 1.0 && v[3] <= 1.0
    ensures 0.0 <= Dot(v, v) <= 1.0
  {
    DotNonNegative(v, v);
    TimesMonotone(v[0], v[0], 1.0);
    TimesMonotone(v[1], v[1], 1.0);
    TimesMonotone(v[2], v[2], 1.0);
    TimesMonotone(v[3], v[3], 1.0);
    TimesUnits(v[0]);
    TimesUnits(v[1]);
    TimesUnits(v[2]);
    TimesUnits(v[3]);
    hide Times;
  }

  lemma ProductOfFractions(a: real, d: real, r: real)
    requires a <= 1.0 && 0.0 < d <= 1.0 && 0.0 <= r <= 1.0
    ensures Fractional(Times(Times(a, d), r)) <= d
  {
    TimesMonotone(d, a, 1.0);
    TimesCommutes(a, d);
    TimesUnits(d);
    hide Times;
    var x := Times(a, d);
    assert x <= d;
    TimesMonotone(r, x, d);
    TimesMonotone(d, r, 1.0);
    TimesCommutes(x, r);
    TimesCommutes(d, r);
  }

  /** The farther the horizon, the less a Markov forecast from a distribution can be trusted at all. */
  lemma HorizonBoundsConfidence(current: Vec, future: Vec, steps: int, fn: LogFunctions)
    requires LawfulLogs(fn) && Distribution(current) && Distribution(future) && steps > 0
    ensures MarkovConfidence(current, future, steps, fn) <= HorizonDecay(steps)
  {
    PartsOfOne(current);
    PartsOfOne(future);
    SurpriseNotPositive(future[0], fn);
    SurpriseNotPositive(future[1], fn);
    SurpriseNotPositive(future[2], fn);
    SurpriseNotPositive(future[3], fn);
    hide Surprise, Dot, HorizonDecay;
    var root := fn.sqrt(Dot(current, current));
    assert Square(1.0) == 1.0;
    SquareOrder(root, 1.0);
    hide Times, Square;
    ProductOfFractions(1.0 - Entropy(future, fn) / 2.0, HorizonDecay(steps), root);
  }

  // ----- the Markov forecast -----

  method MarkovPredict(transition: Mat, current: Vec, steps: int, fn: LogFunctions)
    returns (future: Vec, confidence: real)
    requires LawfulLogs(fn)
    ensures future == VecMul(current, Pow(transition, Steps(steps)))
    ensures confidence == MarkovConfidence(current, future, steps, fn)
  {
    hide Entropy, Times, Dot;
    if steps <= 0 {
      VecIdentity(current);
      return current, 1.0;
    }
    var matK := MatPow(transition, steps);
    future := MatMulVec4(current, matK);
    var entropy := EntropyLoop(future, fn);
    var entropyConf := 1.0 - entropy / fn.log2(4.0);
    var horizonDecay := HorizonDecay(steps);
    var squares := DotLoop(current, current);
    var concentration := fn.sqrt(squares);
    confidence := Fractional(Times(Times(entropyConf, horizonDecay), concentration));
  }

  /** Whatever the horizon, a worse present predicts a worse future, under the default model or any other whose rows
      are distributions that worsen from state to state. */
  lemma MarkovPredictionMonotone(u: Vec, v: Vec, transition: Mat, steps: int)
    requires AtLeastAsBad(u, v)
    requires transition == ZERO_MAT || (Stochastic(transition) && RowsWorsen(transition))
    ensures var model := TransitionInForce(transition);
            AtLeastAsBad(VecMul(u, Pow(model, Steps(steps))), VecMul(v, Pow(model, Steps(steps))))
  {
    DefaultTransitionIsMonotone();
    hide VecMul;
    PowerKeepsOrder(u, v, TransitionInForce(transition), Steps(steps));
  }

  /** A forecast has the total mass of the present, and nothing negative appears; so a distribution stays one. */
  lemma MarkovPredictionKeepsMass(v: Vec, transition: Mat, steps: int)
    requires NonNegative(v) && (transition == ZERO_MAT || Stochastic(transition))
    ensures var future := VecMul(v, Pow(TransitionInForce(transition), Steps(steps)));
            NonNegative(future) && Mass(future) == Mass(v)
  {
    DefaultTransitionIsMonotone();
    hide VecMul;
    PowerKeepsMass(v, TransitionInForce(transition), Steps(steps));
  }

  // ----- the Bayes model -----

  /** How evidence (0 good news, 1 bad news) shifts a transition probability. */
  function Shift(state: nat, ev: nat, j: nat, p: real): real {
    if ev == 0 then (if j <= state then p * 1.2 else p * 0.5)
    else if j >= state then p * 1.3 else p * 0.3
  }

  function RawRow(state: nat, ev: nat): Vec
    requires state < 4
  {
    var p := DEFAULT_TRANSITION[state];
    [Shift(state, ev, 0, p[0]), Shift(state, ev, 1, p[1]), Shift(state, ev, 2, p[2]), Shift(state, ev, 3, p[3])]
  }

  function Normalized(v: Vec): Vec {
    var s := Mass(v);
    if s > 0.0 then [v[0] / s, v[1] / s, v[2] / s, v[3] / s] else v
  }

  function Cpt(state: nat, ev: nat): Vec
    requires state < 4
  {
    Normalized(RawRow(state, ev))
  }

  function Table(ev: nat): Mat {
    [Cpt(0, ev), Cpt(1, ev), Cpt(2, ev), Cpt(3, ev)]
  }

  method NewBayesModel() returns (cpt: array3<real>)
    ensures fresh(cpt) && cpt.Length0 == 4 && cpt.Length1 == 2 && cpt.Length2 == 4
    ensures forall s, ev, j :: 0 <= s < 4 && 0 <= ev < 2 && 0 <= j < 4 ==> cpt[s, ev, j] == Cpt(s, ev)[j]
  {
    hide Shift, Cpt;
    cpt := new real[4, 2, 4];
    for state := 0 to 4
      invariant forall s, ev, j :: 0 <= s < state && 0 <= ev < 2 && 0 <= j < 4 ==> cpt[s, ev, j] == RawRow(s, ev)[j]
    {
      FillState(cpt, state);
    }
    for state := 0 to 4
      invariant forall s, ev, j :: state <= s < 4 && 0 <= ev < 2 && 0 <= j < 4 ==> cpt[s, ev, j] == RawRow(s, ev)[j]
      invariant forall s, ev, j :: 0 <= s < state && 0 <= ev < 2 && 0 <= j < 4 ==> cpt[s, ev, j] == Cpt(s, ev)[j]
    {
      for e := 0 to 2
        invariant forall s, ev, j :: state <= s < 4 && 0 <= ev < 2 && 0 <= j < 4 && (s == state ==> e <= ev) ==>
                  cpt[s, ev, j] == RawRow(s, ev)[j]
        invariant forall s, ev, j :: 0 <= s <= state && 0 <= ev < 2 && 0 <= j < 4 && (s == state ==> ev < e) ==>
                  cpt[s, ev, j] == Cpt(s, ev)[j]
      {
        NormalizeRow(cpt, state, e);
      }
    }
  }

  method FillState(cpt: array3<real>, state: nat)
    requires cpt.Length0 == 4 && cpt.Length1 == 2 && cpt.Length2 == 4 && state < 4
    modifies cpt
    ensures forall s, ev, j :: 0 <= s < 4 && 0 <= ev < 2 && 0 <= j < 4 ==>
      cpt[s, ev, j] == if s == state then RawRow(s, ev)[j] else old(cpt[s, ev, j])
  {
    var base := DEFAULT_TRANSITION;
    hide Shift;
    for j := 0 to 4
      invariant forall s, ev, c :: 0 <= s < 4 && 0 <= ev < 2 && 0 <= c < 4 ==>
        cpt[s, ev, c] == if s == state && c < j then RawRow(s, ev)[c] else old(cpt[s, ev, c])
    {
      cpt[state, 0, j] := ShiftGood(state, j, base[state][j]);
      cpt[state, 1, j] := ShiftBad(state, j, base[state][j]);
    }
  }

  function ShiftGood(state: nat, j: nat, p: real): (r: real)
    ensures r == Shift(state, 0, j, p)
  {
    if j <= state then p * 1.2 else p * 0.5
  }

  function ShiftBad(state: nat, j: nat, p: real): (r: real)
    ensures r == Shift(state, 1, j, p)
  {
    if j >= state then p * 1.3 else p * 0.3
  }

  method NormalizeRow(cpt: array3<real>, state: nat, ev: nat)
    requires cpt.Length0 == 4 && cpt.Length1 == 2 && cpt.Length2 == 4 && state < 4 && ev < 2
    requires forall j :: 0 <= j < 4 ==> cpt[state, ev, j] == RawRow(state, ev)[j]
    modifies cpt
    ensures forall s, e, j :: 0 <= s < 4 && 0 <= e < 2 && 0 <= j < 4 ==>
      cpt[s, e, j] == if s == state && e == ev then Cpt(s, e)[j] else old(cpt[s, e, j])
  {
    ghost var row := RawRow(state, ev);
    hide RawRow, Shift;
    var sum := 0.0;
    for j := 0 to 4
      invariant sum == if j == 0 then 0.0 else if j == 1 then row[0] else if j == 2 then row[0] + row[1]
                       else if j == 3 then row[0] + row[1] + row[2] else Mass(row)
    {
      sum := sum + cpt[state, ev, j];
    }
    if sum > 0.0 {
      for j := 0 to 4
        invariant forall s, e, c :: 0 <= s < 4 && 0 <= e < 2 && 0 <= c < 4 ==>
          cpt[s, e, c] == if s == state && e == ev && c < j then Normalized(row)[c] else old(cpt[s, e, c])
      {
        cpt[state, ev, j] := cpt[state, ev, j] / sum;
      }
    }
  }

  /** The normalised rows in figures. */
  function CptFigures(state: nat, ev: nat): Vec
    requires state < 4 && ev < 2
  {
    if ev == 0 then
      (if state == 0 then [1.14 / 1.165, 0.02 / 1.165, 0.005 / 1.165, 0.0]
       else if state == 1 then [0.024 / 1.144, 1.08 / 1.144, 0.035 / 1.144, 0.005 / 1.144]
       else if state == 2 then [0.0, 0.036 / 1.116, 1.02 / 1.116, 0.06 / 1.116]
       else [0.0, 0.0, 0.06 / 1.2, 1.14 / 1.2])
    else
      (if state == 0 then [1.235 / 1.3, 0.052 / 1.3, 0.013 / 1.3, 0.0]
       else if state == 1 then [0.006 / 1.28, 1.17 / 1.28, 0.091 / 1.28, 0.013 / 1.28]
       else if state == 2 then [0.0, 0.009 / 1.27, 1.105 / 1.27, 0.156 / 1.27]
       else [0.0, 0.0, 0.015 / 1.25, 1.235 / 1.25])
  }

  lemma CptInFigures(state: nat, ev: nat)
    requires state < 4 && ev < 2
    ensures Cpt(state, ev) == CptFigures(state, ev)
  {
  }

  /** Both tables are stochastic and monotone, and bad news is at least as bad from every state. */
  lemma TablesAreMonotone()
    ensures Stochastic(Table(0)) && RowsWorsen(Table(0))
    ensures Stochastic(Table(1)) && RowsWorsen(Table(1))
    ensures forall s: nat :: s < 4 ==> AtLeastAsBad(Table(1)[s], Table(0)[s])
  {
    forall s: nat, ev: nat | s < 4 && ev < 2 ensures Cpt(s, ev) == CptFigures(s, ev) { CptInFigures(s, ev); }
    hide Cpt;
    assert Stochastic(Table(0)) && RowsWorsen(Table(0));
    assert Stochastic(Table(1)) && RowsWorsen(Table(1));
  }

  /** The blend used for a whole prediction, fixed by the evidence in the starting distribution. */
  function EvidenceWeight(current: Vec): real {
    current[2] * 0.5 + current[3] * 0.8
  }

  function BlendRow(w: real, good: Vec, bad: Vec): Vec {
    [Times(1.0 - w, good[0]) + Times(w, bad[0]), Times(1.0 - w, good[1]) + Times(w, bad[1]),
     Times(1.0 - w, good[2]) + Times(w, bad[2]), Times(1.0 - w, good[3]) + Times(w, bad[3])]
  }

  function Blend(w: real): Mat {
    var good, bad := Table(0), Table(1);
    [BlendRow(w, good[0], bad[0]), BlendRow(w, good[1], bad[1]), BlendRow(w, good[2], bad[2]),
     BlendRow(w, good[3], bad[3])]
  }

  function BayesFuture(current: Vec, steps: nat): Vec {
    VecMul(current, Pow(Blend(EvidenceWeight(current)), steps))
  }

  /** What state i passes on to state j in a step, the bad news weighing `w`. */
  function Passes(w: real, i: nat, j: nat): real
    requires i < 4 && j < 4
  {
    Times(1.0 - w, Cpt(i, 0)[j]) + Times(w, Cpt(i, 1)[j])
  }

  /** A Bayes prediction of no steps is the present; one more step passes every state on by the two tables, weighed
      by the evidence in the present, not by what has been predicted so far. */
  lemma BayesStepByStep(current: Vec, n: nat, j: nat)
    requires j < 4
    ensures BayesFuture(current, 0) == current
    ensures var f, w := BayesFuture(current, n), current[2] * 0.5 + current[3] * 0.8;
            BayesFuture(current, n + 1)[j]
            == Times(f[0], Passes(w, 0, j)) + Times(f[1], Passes(w, 1, j)) + Times(f[2], Passes(w, 2, j))
               + Times(f[3], Passes(w, 3, j))
  {
    VecIdentity(current);
    var w := EvidenceWeight(current);
    var b := Blend(w);
    VecMulAssociates(current, Pow(b, n), b);
    hide Times, Cpt, MatMul;
    assert Pow(b, n + 1) == MatMul(Pow(b, n), b);
    assert Col(b, j) == [Passes(w, 0, j), Passes(w, 1, j), Passes(w, 2, j), Passes(w, 3, j)];
    hide Blend, Pow, Passes;
  }

  method BayesStep(cpt: array3<real>, evidenceWeight: real, posterior: Vec) returns (next: Vec)
    requires cpt.Length0 == 4 && cpt.Length1 == 2 && cpt.Length2 == 4
    requires forall s, ev, j :: 0 <= s < 4 && 0 <= ev < 2 && 0 <= j < 4 ==> cpt[s, ev, j] == Cpt(s, ev)[j]
    ensures next == VecMul(posterior, Blend(evidenceWeight))
  {
    ghost var b := Blend(evidenceWeight);
    next := ZERO_VEC;
    hide Times, Cpt, Dot;
    for i := 0 to 4
      invariant forall c: nat :: c < 4 ==> next[c] == PartialDot(posterior, Col(b, c), i)
    {
      for j := 0 to 4
        invariant forall c: nat :: c < 4 ==> next[c] == PartialDot(posterior, Col(b, c), if c < j then i + 1 else i)
      {
        var blended := Times(1.0 - evidenceWeight, cpt[i, 0, j]) + Times(evidenceWeight, cpt[i, 1, j]);
        assert blended == b[i][j] == Col(b, j)[i];
        next := next[j := next[j] + Times(posterior[i], blended)];
      }
    }
    forall c: nat | c < 4 ensures next[c] == Dot(posterior, Col(b, c)) { PartialDotIsDot(posterior, Col(b, c)); }
  }

  method BayesPredict(cpt: array3<real>, current: Vec, steps: int, fn: LogFunctions)
    returns (future: Vec, confidence: real)
    requires LawfulLogs(fn)
    requires cpt.Length0 == 4 && cpt.Length1 == 2 && cpt.Length2 == 4
    requires forall s, ev, j :: 0 <= s < 4 && 0 <= ev < 2 && 0 <= j < 4 ==> cpt[s, ev, j] == Cpt(s, ev)[j]
    ensures future == BayesFuture(current, Steps(steps))
    ensures confidence == BayesConfidence(current, future, steps, fn)
  {
    hide Cpt, VecMul, MatMul, Blend, Entropy, Times;
    VecIdentity(current);
    if steps <= 0 {
      return current, 1.0;
    }
    var evidenceWeight := current[2] * 0.5 + current[3] * 0.8;
    ghost var b := Blend(evidenceWeight);
    var posterior := current;
    for k := 0 to steps
      invariant posterior == VecMul(current, Pow(b, k))
    {
      VecMulAssociates(current, Pow(b, k), b);
      posterior := BayesStep(cpt, evidenceWeight, posterior);
    }
    future := posterior;
    var priorEntropy := EntropyLoop(current, fn);
    var posteriorEntropy := EntropyLoop(posterior, fn);
    var entropyGain := (priorEntropy - posteriorEntropy) / fn.log2(4.0);
    confidence := Fractional(Times((entropyGain + 1.0) / 2.0, HorizonDecay(steps)));
  }

  /** Without negative entries the evidence weight lies between 0 and 0.8 of the mass and grows with the tails. */
  lemma EvidenceWeightRange(v: Vec)
    requires NonNegative(v)
    ensures 0.0 <= EvidenceWeight(v) <= 0.8 * Mass(v)
    ensures EvidenceWeight(v) == 0.5 * Tail(v, 2) + 0.3 * Tail(v, 3)
  {
  }

  lemma BlendTail(w: real, good: Vec, bad: Vec, t: nat)
    requires t < 4
    ensures Tail(BlendRow(w, good, bad), t) == Times(1.0 - w, Tail(good, t)) + Times(w, Tail(bad, t))
  {
    TailScales(1.0 - w, good, t);
    TailScales(w, bad, t);
    hide Times;
  }

  function Scale(w: real, v: Vec): Vec {
    [Times(w, v[0]), Times(w, v[1]), Times(w, v[2]), Times(w, v[3])]
  }

  lemma TailScales(w: real, v: Vec, t: nat)
    requires t < 4
    ensures Tail(Scale(w, v), t) == Times(w, Tail(v, t))
  {
    TimesAdd(w, v[2], v[3]);
    TimesAdd(w, v[1], v[2] + v[3]);
    TimesAdd(w, v[0], v[1] + v[2] + v[3]);
    hide Times;
  }

  lemma BlendNonNegative(w: real, g: real, b: real)
    requires 0.0 <= w <= 1.0 && g >= 0.0 && b >= 0.0
    ensures Times(1.0 - w, g) + Times(w, b) >= 0.0
  {
    MulNonNegative(1.0 - w, g);
    MulNonNegative(w, b);
  }

  lemma BlendRowIsDistribution(w: real, good: Vec, bad: Vec)
    requires 0.0 <= w <= 1.0 && Distribution(good) && Distribution(bad)
    ensures Distribution(BlendRow(w, good, bad))
  {
    BlendTail(w, good, bad, 0);
    TimesUnits(w);
    TimesUnits(1.0 - w);
    BlendNonNegative(w, good[0], bad[0]);
    BlendNonNegative(w, good[1], bad[1]);
    BlendNonNegative(w, good[2], bad[2]);
    BlendNonNegative(w, good[3], bad[3]);
    hide Times;
  }

  /** Blending is monotone in the rows and, when bad news dominates, in the evidence weight. */
  lemma BlendRowOrder(w: real, good: Vec, bad: Vec, w': real, good': Vec, bad': Vec)
    requires 0.0 <= w <= w' <= 1.0
    requires Distribution(good) && Distribution(bad) && Distribution(good') && Distribution(bad')
    requires AtLeastAsBad(good', good) && AtLeastAsBad(bad', bad) && AtLeastAsBad(bad', good')
    ensures AtLeastAsBad(BlendRow(w', good', bad'), BlendRow(w, good, bad))
  {
    BlendRowIsDistribution(w, good, bad);
    BlendRowIsDistribution(w', good', bad');
    forall t: nat | 1 <= t < 4 ensures Tail(BlendRow(w', good', bad'), t) >= Tail(BlendRow(w, good, bad), t) {
      BlendTail(w, good, bad, t);
      BlendTail(w', good', bad', t);
      assert Tail(good', t) >= Tail(good, t) && Tail(bad', t) >= Tail(bad, t) && Tail(bad', t) >= Tail(good', t);
      hide Times;
      TimesMonotone(1.0 - w, Tail(good, t), Tail(good', t));
      TimesMonotone(w, Tail(bad, t), Tail(bad', t));
      TimesMonotone(w' - w, Tail(good', t), Tail(bad', t));
      TimesDifference(Tail(good', t), 1.0 - w, w' - w);
      TimesDifference(Tail(bad', t), w', w);
      TimesCommutes(1.0 - w, Tail(good', t));
      TimesCommutes(w', Tail(bad', t));
    }
    hide BlendRow;
  }

  lemma BlendIsMonotone(w: real)
    requires 0.0 <= w <= 1.0
    ensures Stochastic(Blend(w)) && RowsWorsen(Blend(w))
  {
    TablesAreMonotone();
    var good, bad := Table(0), Table(1);
    hide Table, BlendRow;
    forall s: nat | s < 4 ensures Distribution(Blend(w)[s]) { BlendRowIsDistribution(w, good[s], bad[s]); }
    forall s: nat | s < 3 ensures AtLeastAsBad(Blend(w)[s + 1], Blend(w)[s]) {
      BlendRowOrder(w, good[s], bad[s], w, good[s + 1], bad[s + 1]);
    }
  }

  /** Any number of Bayes steps keeps the mass and lets nothing negative appear, if the evidence weight is a
      fraction. */
  lemma BayesFutureKeepsMass(v: Vec, steps: nat)
    requires NonNegative(v) && EvidenceWeight(v) <= 1.0
    ensures NonNegative(BayesFuture(v, steps)) && Mass(BayesFuture(v, steps)) == Mass(v)
  {
    EvidenceWeightRange(v);
    BlendIsMonotone(EvidenceWeight(v));
    hide Blend, VecMul, EvidenceWeight;
    PowerKeepsMass(v, Blend(EvidenceWeight(v)), steps);
  }

  /** A chain whose every row dominates leads a nonnegative vector to a dominating one. */
  lemma RowDominance(v: Vec, a: Mat, b: Mat)
    requires NonNegative(v) && Stochastic(a) && Stochastic(b)
    requires forall s: nat :: s < 4 ==> AtLeastAsBad(a[s], b[s])
    ensures AtLeastAsBad(VecMul(v, a), VecMul(v, b))
  {
    StepKeepsMass(v, a);
    StepKeepsMass(v, b);
    forall t: nat | 1 <= t < 4 ensures Tail(VecMul(v, a), t) >= Tail(VecMul(v, b), t) {
      TailOfProduct(v, a, t);
      TailOfProduct(v, b, t);
      assert forall s: nat :: s < 4 ==> Tails(a, t)[s] >= Tails(b, t)[s];
      hide VecMul, Tails;
      TimesMonotone(v[0], Tails(b, t)[0], Tails(a, t)[0]);
      TimesMonotone(v[1], Tails(b, t)[1], Tails(a, t)[1]);
      TimesMonotone(v[2], Tails(b, t)[2], Tails(a, t)[2]);
      TimesMonotone(v[3], Tails(b, t)[3], Tails(a, t)[3]);
      hide Times;
    }
    hide VecMul;
  }

  /** One step of two chains, the first worse in its state and in every row. */
  lemma TwoChainsStep(x: Vec, y: Vec, a: Mat, b: Mat)
    requires NonNegative(x) && AtLeastAsBad(x, y) && Stochastic(a) && Stochastic(b) && RowsWorsen(b)
    requires forall s: nat :: s < 4 ==> AtLeastAsBad(a[s], b[s])
    ensures AtLeastAsBad(VecMul(x, a), VecMul(y, b))
  {
    RowDominance(x, a, b);
    StepKeepsOrder(x, y, b);
    hide VecMul;
  }

  lemma {:induction false} BlendedPowersOrder(u: Vec, v: Vec, w': real, w: real, k: nat)
    requires NonNegative(u) && AtLeastAsBad(u, v) && 0.0 <= w <= w' <= 1.0
    ensures AtLeastAsBad(VecMul(u, Pow(Blend(w'), k)), VecMul(v, Pow(Blend(w), k)))
  {
    hide VecMul, MatMul;
    if k == 0 {
      VecIdentity(u);
      VecIdentity(v);
    } else {
      var a, b := Blend(w'), Blend(w);
      BlendIsMonotone(w');
      BlendIsMonotone(w);
      BlendsOrder(w', w);
      hide Blend, AtLeastAsBad, Stochastic, RowsWorsen;
      BlendedPowersOrder(u, v, w', w, k - 1);
      PowerKeepsMass(u, a, k - 1);
      VecMulAssociates(u, Pow(a, k - 1), a);
      VecMulAssociates(v, Pow(b, k - 1), b);
      var x, y := VecMul(u, Pow(a, k - 1)), VecMul(v, Pow(b, k - 1));
      TwoChainsStep(x, y, a, b);
    }
  }

  lemma BlendsOrder(w': real, w: real)
    requires 0.0 <= w <= w' <= 1.0
    ensures forall s: nat :: s < 4 ==> AtLeastAsBad(Blend(w')[s], Blend(w)[s])
  {
    TablesAreMonotone();
    var good, bad := Table(0), Table(1);
    hide Table, BlendRow;
    forall s: nat | s < 4 ensures AtLeastAsBad(Blend(w')[s], Blend(w)[s]) {
      BlendRowOrder(w, good[s], bad[s], w', good[s], bad[s]);
    }
  }

  /** A worse present predicts a worse future under the Bayes model too, although the two predictions
      run on different blends. */
  lemma BayesPredictionMonotone(u: Vec, v: Vec, steps: nat)
    requires NonNegative(u) && NonNegative(v) && AtLeastAsBad(u, v) && EvidenceWeight(u) <= 1.0
    ensures AtLeastAsBad(BayesFuture(u, steps), BayesFuture(v, steps))
  {
    EvidenceWeightRange(u);
    EvidenceWeightRange(v);
    hide Blend, VecMul;
    BlendedPowersOrder(u, v, EvidenceWeight(u), EvidenceWeight(v), steps);
  }
}
