/** Facts about products and quotients of reals, each small enough to be proved on its own. */
module RealLemmas {

  lemma MulMonotone(a: real, b: real, w: real)
    requires a <= b && w >= 0.0
    ensures a * w <= b * w && w * a <= w * b
  {
  }

  lemma MulBoth(a: real, b: real, v: real, w: real)
    requires 0.0 <= a <= b && 0.0 <= v <= w
    ensures 0.0 <= a * v <= b * w
  {
    MulMonotone(a, b, v);
    MulMonotone(v, w, b);
  }

  lemma Distribute(a: real, t: real, w: real)
    ensures a * (t + w) == a * t + a * w
  {
  }

  lemma MulStrict(a: real, b: real, w: real)
    requires a < b && w > 0.0
    ensures a * w < b * w && w * a < w * b
  {
  }

  lemma DivMonotone(a: real, b: real, w: real)
    requires a <= b && w > 0.0
    ensures a / w <= b / w
  {
    assert a / w == a * (1.0 / w) && b / w == b * (1.0 / w);
    MulMonotone(a, b, 1.0 / w);
  }

  lemma DivideOut(lo: real, x: real, hi: real, t: real)
    requires t > 0.0 && lo * t <= x <= hi * t
    ensures lo <= x / t <= hi
  {
    var q := x / t;
    assert q * t == x;
    if q < lo { MulStrict(q, lo, t); }
    if q > hi { MulStrict(hi, q, t); }
  }

  lemma DivUnique(x: real, y: real, d: real)
    requires d != 0.0 && x * d == y
    ensures y / d == x
  {
  }

  lemma DivStrict(a: real, b: real, w: real)
    requires a < b && w > 0.0
    ensures a / w < b / w
  {
    var x, y := a / w, b / w;
    if x >= y { MulMonotone(y, x, w); }
  }

  lemma MulPositive(a: real, b: real)
    requires a > 0.0 && b > 0.0
    ensures a * b > 0.0
  {
  }

  function Square(a: real): real {
    a * a
  }

  lemma SquarePositive(a: real)
    requires a > 0.0
    ensures Square(a) > 0.0
  {
    assert Square(a) / a == a;
  }

  lemma SquareNonNegative(a: real)
    ensures Square(a) >= 0.0
  {
  }

  /** A product kept as one term, for inductions that only need it to be monotone and additive. */
  function Times(a: real, b: real): real {
    a * b
  }

  lemma TimesMonotone(w: real, a: real, b: real)
    requires a <= b && w >= 0.0
    ensures Times(w, a) <= Times(w, b)
  {
  }

  lemma TimesShrinks(w: real, c: real)
    requires w > 0.0 && 0.0 < c <= 1.0
    ensures 0.0 < Times(w, c) <= w
    ensures c < 1.0 ==> Times(w, c) < w
    ensures c == 1.0 ==> Times(w, c) == w
  {
    var d := 1.0 - c;
    TimesAdd(w, c, d);
    assert Times(w, 1.0) == w;
    hide Times;
    TimesPositive(w, c);
    TimesPositive(w, d);
  }

  lemma TimesPositive(a: real, b: real)
    requires a > 0.0 && b >= 0.0
    ensures Times(a, b) >= 0.0
    ensures b > 0.0 <==> Times(a, b) > 0.0
  {
  }

  lemma DivideTimes(lo: real, x: real, hi: real, t: real)
    requires t > 0.0 && Times(lo, t) <= x <= Times(hi, t)
    ensures lo <= x / t <= hi
  {
    DivideOut(lo, x, hi, t);
  }

  lemma TimesAdd(a: real, t: real, w: real)
    ensures Times(a, t + w) == Times(a, t) + Times(a, w)
  {
  }

  lemma MulNonNegative(a: real, b: real)
    requires a >= 0.0 && b >= 0.0
    ensures a * b >= 0.0
  {
  }

  lemma ScaleOrder(w: real, x: real, y: real)
    requires w > 0.0
    ensures x * w <= y * w <==> x <= y
    ensures w * x <= w * y <==> x <= y
  {
    if x <= y { MulMonotone(x, y, w); } else { MulStrict(y, x, w); }
  }

  lemma TimesAssociates(a: real, b: real, c: real)
    ensures Times(Times(a, b), c) == Times(a, Times(b, c))
  {
  }

  lemma TimesUndoesDivision(x: real, t: real)
    requires t != 0.0
    ensures Times(x / t, t) == x
  {
  }

  lemma TimesCommutes(a: real, b: real)
    ensures Times(a, b) == Times(b, a)
  {
  }

  lemma TimesStrict(w: real, a: real, b: real)
    requires a < b && w > 0.0
    ensures Times(w, a) < Times(w, b)
  {
  }

  lemma SquareIsTimes(a: real)
    ensures Square(a) == Times(a, a)
  {
  }

  lemma SquareOrder(a: real, b: real)
    requires a >= 0.0 && b >= 0.0
    ensures Square(a) <= Square(b) <==> a <= b
  {
    SquareIsTimes(a);
    SquareIsTimes(b);
    hide Square, Times;
    TimesCommutes(a, b);
    if a <= b {
      TimesMonotone(a, a, b);
      TimesMonotone(b, a, b);
    } else {
      TimesStrict(a, b, a);
      TimesMonotone(b, b, a);
    }
  }

  lemma SquareOfProduct(a: real, b: real)
    ensures Square(a * b) == Times(Square(a), Square(b))
  {
    assert (a * b) * (a * b) == (a * a) * (b * b);
  }

  // ----- square roots -----

  /** All that is assumed of the library's square root. */
  ghost predicate IsRoot(sqrt: real -> real) {
    forall x :: x >= 0.0 ==> sqrt(x) >= 0.0 && Square(sqrt(x)) == x
  }

  /** A square has one non-negative root. */
  lemma RootUnique(s: real, t: real)
    requires s >= 0.0 && t >= 0.0 && Square(s) == Square(t)
    ensures s == t
  {
    SquareOrder(s, t);
    SquareOrder(t, s);
  }
}
