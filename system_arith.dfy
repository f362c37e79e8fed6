/**
 * The arithmetic macros of the HAL's system header: BIT and BIT64 (a value
 * with one bit set), DIV_ROUND_UP (integer division rounding up), MAX and
 * MIN.
 */
module SystemArith {

  /** 2 to the power n, the reference for the single-bit macros. */
  function Pow2(n: nat): (r: nat)
    ensures r >= 1
  {
    if n == 0 then 1 else 2 * Pow2(n - 1)
  }

  // ---------------------------------------------------------------------
  // BIT and BIT64
  // ---------------------------------------------------------------------

  /** The largest value of a C int, 32 bits wide on the HAL's targets. */
  const IntMax := 0x7FFF_FFFF

  /**
   * BIT(x) is `1 << x` on a signed int. C defines the left shift of a
   * non-negative signed value as 1 * 2^x when that value is representable
   * in the type and leaves it undefined otherwise; BitDefinedRange shows
   * that this is the case exactly for x <= 30.
   */
  function Bit(x: nat): (r: int)
    requires x <= 30
    ensures 1 <= r <= IntMax
  {
    BitDefinedRange(x);
    Pow2(x)
  }

  /**
   * BIT64(x) is `1ULL << x`. For an unsigned left operand C defines the
   * shift as 1 * 2^x reduced modulo 2^64; x must be below the width, 64.
   * The result is never 0: the set bit is never shifted out.
   */
  function Bit64(x: nat): (r: nat)
    requires x < 64
    ensures 1 <= r < 0x1_0000_0000_0000_0000
  {
    Pow2Below(x, 64);
    Pow2Of64();
    Pow2(x) % 0x1_0000_0000_0000_0000
  }

  /** Powers of two multiply by adding exponents. */
  lemma {:induction false} Pow2Add(a: nat, b: nat)
    ensures Pow2(a + b) == Pow2(a) * Pow2(b)
  {
    if a > 0 {
      Pow2Add(a - 1, b);
    }
  }

  /** Powers of two grow strictly with the exponent. */
  lemma {:induction false} Pow2Below(a: nat, b: nat)
    requires a < b
    ensures Pow2(a) < Pow2(b)
  {
    if a + 1 < b {
      Pow2Below(a, b - 1);
    }
  }

  /** 2^32, the modulus of a 32-bit integer. */
  lemma Pow2Of32()
    ensures Pow2(32) == 0x1_0000_0000
  {
    assert Pow2(8) == 0x100;
    Pow2Add(8, 8);
    assert Pow2(16) == 0x1_0000;
    Pow2Add(16, 16);
  }

  /** 2^64, the modulus of an unsigned 64-bit integer. */
  lemma Pow2Of64()
    ensures Pow2(64) == 0x1_0000_0000_0000_0000
  {
    Pow2Of32();
    Pow2Add(32, 32);
  }

  /**
   * `1 << x` fits in a C int exactly when x <= 30, so BIT(x) is defined,
   * and is 2^x, on precisely the arguments Bit admits.
   */
  lemma BitDefinedRange(x: nat)
    ensures Pow2(x) <= IntMax <==> x <= 30
  {
    Pow2Of32();
    assert Pow2(31) == 0x8000_0000;
    if x < 31 {
      Pow2Below(x, 31);
    } else if x > 31 {
      Pow2Below(31, x);
    }
  }

  /** BIT64(x) is 2^x for every x < 64: the modulus never cuts in. */
  lemma Bit64IsPow2(x: nat)
    requires x < 64
    ensures Bit64(x) == Pow2(x)
  {
    Pow2Below(x, 64);
    Pow2Of64();
  }

  // ---------------------------------------------------------------------
  // DIV_ROUND_UP
  // ---------------------------------------------------------------------

  /** The values of a C uint32_t. */
  type uint32 = n: int | 0 <= n < 0x1_0000_0000

  /**
   * DIV_ROUND_UP(n, d) is `((n) + (d) - 1) / (d)`. On uint32_t operands
   * the sum is computed modulo 2^32 before the division; d must not be 0,
   * as for any C division. Wrapped or not, the result is never above the
   * true ceiling of n / d.
   */
  function DivRoundUp(n: uint32, d: uint32): (r: uint32)
    requires d > 0
    ensures r * d < n + d
  {
    var w := (n + d - 1) % 0x1_0000_0000;
    QuotientBelow(w, d);
    w / d
  }

  /** A quotient times its divisor does not exceed the dividend. */
  lemma QuotientBelow(w: nat, d: nat)
    requires d > 0
    ensures (w / d) * d <= w
  {
    assert (w / d) * d + w % d == w;
  }

  /** Without overflow in n + d - 1, DIV_ROUND_UP is the ceiling of n / d. */
  lemma DivRoundUpIsCeiling(n: uint32, d: uint32)
    requires d > 0 && n + d - 1 < 0x1_0000_0000
    ensures DivRoundUp(n, d) * d >= n
    ensures (DivRoundUp(n, d) - 1) * d < n
  {
    var q, r := (n + d - 1) / d, (n + d - 1) % d;
    assert q * d + r == n + d - 1;
  }

  /** ... and no smaller quotient k has k * d >= n: it is the least one. */
  lemma DivRoundUpIsLeast(n: uint32, d: uint32, k: nat)
    requires d > 0 && n + d - 1 < 0x1_0000_0000
    requires k * d >= n
    ensures DivRoundUp(n, d) <= k
  {
    var q := DivRoundUp(n, d);
    DivRoundUpIsCeiling(n, d);
    if k < q {
      assert k * d <= (q - 1) * d by {
        MulMonotonic(k, q - 1, d);
      }
    }
  }

  lemma MulMonotonic(a: nat, b: nat, c: nat)
    requires a <= b
    ensures a * c <= b * c
  {
  }

  /**
   * When n + d - 1 overflows uint32_t, DIV_ROUND_UP divides the wrapped sum
   * n + d - 1 - 2^32, and the result is then never a ceiling: q * d < n.
   */
  lemma DivRoundUpOnOverflow(n: uint32, d: uint32)
    requires d > 0 && n + d - 1 >= 0x1_0000_0000
    ensures DivRoundUp(n, d) == (n + d - 1 - 0x1_0000_0000) / d
    ensures DivRoundUp(n, d) * d < n
  {
    var w := n + d - 1 - 0x1_0000_0000;
    assert (n + d - 1) % 0x1_0000_0000 == w;
    QuotientBelow(w, d);
  }

  /** An instance of the overflow: DIV_ROUND_UP(0xFFFFFFFF, 2) is 0, not 0x80000000. */
  lemma DivRoundUpWrapsOnOverflow()
    ensures DivRoundUp(0xFFFF_FFFF, 2) == 0
  {
    DivRoundUpOnOverflow(0xFFFF_FFFF, 2);
  }

  // ---------------------------------------------------------------------
  // MAX and MIN
  // ---------------------------------------------------------------------

  /** MAX(a, b) is `a > b ? a : b`: one of its arguments, and no smaller than either. */
  function Max(a: int, b: int): (r: int)
    ensures r == a || r == b
    ensures r >= a && r >= b
  {
    if a > b then a else b
  }

  /** MIN(a, b) is `a < b ? a : b`: one of its arguments, and no larger than either. */
  function Min(a: int, b: int): (r: int)
    ensures r == a || r == b
    ensures r <= a && r <= b
  {
    if a < b then a else b
  }

  /** MIN and MAX split a pair: together they are the two arguments, smaller first. */
  lemma MinMaxSplit(a: int, b: int)
    ensures Min(a, b) <= Max(a, b)
    ensures multiset{Min(a, b), Max(a, b)} == multiset{a, b}
  {
  }
}
