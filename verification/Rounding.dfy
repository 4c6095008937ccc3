/** Rounding of scores: `math.Round` (half away from zero) and its two- and four-digit uses. */
module Rounding {

  function Round(x: real): int {
    if x >= 0.0 then (x + 0.5).Floor else -((-x + 0.5).Floor)
  }

  /** `math.Round(x*100) / 100`, the form in which every score is published. */
  function Round2(x: real): real {
    Round(x * 100.0) as real / 100.0
  }

  /** `math.Round(x*10000) / 10000`, used for probabilities and state vectors. */
  function Round4(x: real): real {
    Round(x * 10000.0) as real / 10000.0
  }

  lemma RoundWithinHalf(x: real)
    ensures -0.5 <= Round(x) as real - x <= 0.5
  {
  }

  lemma RoundMonotone(x: real, y: real)
    requires x <= y
    ensures Round(x) <= Round(y)
  {
    RoundWithinHalf(x);
    RoundWithinHalf(y);
    if x < 0.0 <= y {
      assert Round(x) <= 0 <= Round(y);
    }
  }

  lemma RoundOfInt(n: int)
    ensures Round(n as real) == n
  {
    RoundWithinHalf(n as real);
  }

  /** Halves are rounded away from zero. */
  lemma HalvesRoundAway(n: nat, x: real)
    ensures Round(n as real + 0.5) == n + 1
    ensures Round(-x) == -Round(x)
  {
  }

  /** Every published score is within half a cent of the exact one. */
  lemma Round2WithinHalfCent(x: real)
    ensures -0.005 <= Round2(x) - x <= 0.005
  {
    RoundWithinHalf(x * 100.0);
  }

  lemma Round2Monotone(x: real, y: real)
    requires x <= y
    ensures Round2(x) <= Round2(y)
  {
    RoundMonotone(x * 100.0, y * 100.0);
  }

  /** Rounding an already rounded score changes nothing. */
  lemma Round2Idempotent(x: real)
    ensures Round2(Round2(x)) == Round2(x)
  {
    var n := Round(x * 100.0);
    assert Round2(x) * 100.0 == n as real;
    RoundOfInt(n);
  }

  lemma Round2OfWhole(n: int)
    ensures Round2(n as real) == n as real
  {
    assert n as real * 100.0 == (n * 100) as real;
    RoundOfInt(n * 100);
  }

  lemma Round4Monotone(x: real, y: real)
    requires x <= y
    ensures Round4(x) <= Round4(y)
  {
    RoundMonotone(x * 10000.0, y * 10000.0);
  }

  /** Two complementary shares, rounded apart, miss a total of one by at most one unit in the last place. */
  lemma Round4Complement(p: real)
    requires 0.0 <= p <= 1.0
    ensures Round4(p) + Round4(1.0 - p) == 1.0 || Round4(p) + Round4(1.0 - p) == 1.0001
  {
    var u := p * 10000.0;
    assert (1.0 - p) * 10000.0 == 10000.0 - u;
    var a, b := Round(u), Round(10000.0 - u);
    assert a + b == 10000 || a + b == 10001;
  }
}
