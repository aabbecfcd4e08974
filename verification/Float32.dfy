/**
 The breaker threshold uint32(float32(n) * 0.20), with single-precision rounding written out:
 float32(0.20) is 13421773 / 2^26, and a product is rounded to 24 significant bits, ties to even.
 */
module Float32 {

  const FIFTH: nat := 13421773
  const SCALE: nat := 0x400_0000
  const MANTISSA: nat := 0x100_0000

  function Pow2(k: nat): (r: nat)
    ensures 0 < r
  {
    if k == 0 then 1 else 2 * Pow2(k - 1)
  }

  /** The exponent of the unit in the last place of a float32 of this magnitude. */
  function UlpExp(p: nat): nat {
    if p < MANTISSA then 0 else 1 + UlpExp(p / 2)
  }

  /** p / u to the nearest integer, ties to even. */
  function RoundDiv(p: nat, u: nat): nat
    requires 0 < u
  {
    var q, r := p / u, p % u;
    if 2 * r < u || (2 * r == u && q % 2 == 0) then q else q + 1
  }

  /** The nearest float32. */
  function ToFloat(p: nat): nat {
    RoundDiv(p, Pow2(UlpExp(p))) * Pow2(UlpExp(p))
  }

  /** The threshold as the code computes it; the product is scaled by 2^26. */
  function Threshold(n: nat): nat {
    ToFloat(ToFloat(n) * FIFTH) / SCALE
  }

  lemma Pow2Splits(j: nat, k: nat)
    ensures Pow2(j + k) == Pow2(j) * Pow2(k)
  {
    if k != 0 {
      Pow2Splits(j, k - 1);
      assert Pow2(j + k) == 2 * (Pow2(j) * Pow2(k - 1));
      MulAssociative(2, Pow2(j), Pow2(k - 1));
      MulAssociative(Pow2(j), 2, Pow2(k - 1));
    }
  }

  lemma {:induction false} UlpExpBound(p: nat, k: nat)
    requires p < MANTISSA * Pow2(k)
    ensures UlpExp(p) <= k
  {
    if MANTISSA <= p && k != 0 {
      assert MANTISSA * Pow2(k) == 2 * (MANTISSA * Pow2(k - 1));
      UlpExpBound(p / 2, k - 1);
    }
  }

  lemma Pow2Monotone(j: nat, k: nat)
    requires j <= k
    ensures Pow2(j) <= Pow2(k)
    decreases k
  {
    if j < k {
      Pow2Monotone(j, k - 1);
    }
  }

  /** Rounding stays above any multiple of u below p, and within half a unit of p. */
  lemma RoundDivBounds(p: nat, u: nat, m: nat)
    requires 0 < u && m * u <= p
    ensures m * u <= RoundDiv(p, u) * u
    ensures 2 * (RoundDiv(p, u) * u) <= 2 * p + u
  {
    var q, r := p / u, p % u;
    assert p == q * u + r;
    if q < m {
      MulLt(q, m, u);
    }
    MulLe(m, q, u);
    MulLt(q, q + 1, u);
  }

  lemma MulLt(a: nat, b: nat, u: nat)
    requires a < b
    ensures a * u + u <= b * u && (b == a + 1 ==> b * u == a * u + u)
  {
    assert (a + 1) * u == a * u + u;
    MulLe(a + 1, b, u);
  }

  lemma MulLe(a: nat, b: nat, u: nat)
    requires a <= b
    ensures a * u <= b * u
  {
  }

  lemma SmallIsExact(n: nat)
    requires n < MANTISSA
    ensures ToFloat(n) == n
  {
    assert Pow2(0) == 1;
  }

  lemma ScaleIsPow2()
    ensures Pow2(24) == MANTISSA && Pow2(26) == SCALE
  {
    assert Pow2(4) == 16;
    Pow2Splits(4, 4);
    Pow2Splits(8, 8);
    Pow2Splits(16, 8);
    Pow2Splits(24, 2);
    assert Pow2(2) == 4;
  }

  /** Every multiple of 2^26 lies on the grid of a smaller power of two. */
  lemma GridContains(k: nat, e: nat)
    requires e <= 26
    ensures (k * Pow2(26 - e)) * Pow2(e) == k * SCALE
  {
    ScaleIsPow2();
    Pow2Splits(26 - e, e);
    MulAssociative(k, Pow2(26 - e), Pow2(e));
  }

  lemma MulAssociative(a: nat, b: nat, c: nat)
    ensures (a * b) * c == a * (b * c)
  {
  }

  lemma RoundsWithinCell(p: nat, k: nat, u: nat, m: nat)
    requires k * SCALE <= p && p + 0x80_0000 < (k + 1) * SCALE
    requires 0 < u <= MANTISSA && m * u == k * SCALE
    ensures RoundDiv(p, u) * u / SCALE == k
  {
    RoundDivBounds(p, u, m);
    Quotient(RoundDiv(p, u) * u, k);
  }

  /** A product below 2^48 is rounded on a grid of at most 2^24 that contains every multiple of 2^26. */
  lemma ProductRounding(p: nat, k: nat)
    requires k * SCALE <= p && p + 0x80_0000 < (k + 1) * SCALE && p < MANTISSA * MANTISSA
    ensures ToFloat(p) / SCALE == k
  {
    GridOf(p);
    RoundsOnGrid(p, k, UlpExp(p));
  }

  lemma RoundsOnGrid(p: nat, k: nat, e: nat)
    requires k * SCALE <= p && p + 0x80_0000 < (k + 1) * SCALE
    requires e <= 24 && Pow2(e) <= MANTISSA
    ensures RoundDiv(p, Pow2(e)) * Pow2(e) / SCALE == k
  {
    GridContains(k, e);
    RoundsWithinCell(p, k, Pow2(e), k * Pow2(26 - e));
  }

  lemma GridOf(p: nat)
    requires p < MANTISSA * MANTISSA
    ensures UlpExp(p) <= 24 && Pow2(UlpExp(p)) <= MANTISSA
  {
    ScaleIsPow2();
    UlpExpBound(p, 24);
    Pow2Monotone(UlpExp(p), 24);
  }

  lemma Quotient(v: nat, k: nat)
    requires k * SCALE <= v < (k + 1) * SCALE
    ensures v / SCALE == k
  {
  }

  /** For every n that float32 represents exactly, the threshold is the integer n / 5. */
  lemma ThresholdIsAFifth(n: nat)
    requires n < MANTISSA
    ensures Threshold(n) == n / 5
  {
    SmallIsExact(n);
    var k, r := n / 5, n % 5;
    assert n == 5 * k + r;
    assert n * FIFTH == k * SCALE + (k + r * FIFTH);
    ProductRounding(n * FIFTH, k);
  }
}
