/** IEEE 754 binary64 values, held as their 64-bit pattern. */
module Binary64 {
  import opened Wire

  const FRACTION: nat := 0x10_0000_0000_0000
  const SIGN: nat := 0x8000_0000_0000_0000
  const MAX_SAFE: nat := 9_007_199_254_740_991

  function Fraction(bits: uint64): nat { bits % FRACTION }
  function Exponent(bits: uint64): nat { (bits / FRACTION) % 2048 }
  predicate Negative(bits: uint64) { bits >= SIGN }

  predicate Finite(bits: uint64) { Exponent(bits) != 2047 }
  predicate NegativeZero(bits: uint64) { bits == SIGN }
  predicate Safe(n: int) { -(MAX_SAFE as int) <= n <= MAX_SAFE }

  function Pow2(n: nat): (p: nat)
    ensures p > 0
  {
    if n == 0 then 1 else 2 * Pow2(n - 1)
  }

  /** `n` with its low `k` bits shifted out. */
  function Shift(n: nat, k: nat): nat {
    if k == 0 then n else Shift(n / 2, k - 1)
  }

  predicate LowBitsZero(n: nat, k: nat) {
    k == 0 || (n % 2 == 0 && LowBitsZero(n / 2, k - 1))
  }

  /** The significand of a normal or subnormal number, as an integer. */
  function Significand(bits: uint64): nat {
    if Exponent(bits) == 0 then Fraction(bits) else FRACTION + Fraction(bits)
  }

  /** math.Trunc(value) == value for finite values, decided from exponent and fraction. */
  predicate Integral(bits: uint64) {
    var e := Exponent(bits);
    if e == 0 then Fraction(bits) == 0
    else if e < 1023 then false
    else if e < 1075 then LowBitsZero(Fraction(bits), 1075 - e)
    else e < 2047
  }

  function IntegerMagnitude(bits: uint64): nat {
    var e := Exponent(bits);
    if e == 0 then 0
    else if e < 1075 then Shift(Significand(bits), 1075 - e)
    else Significand(bits) * Pow2(e - 1075)
  }

  /** The integer an integral value denotes. */
  function IntegerOf(bits: uint64): int
    requires Integral(bits)
  {
    var magnitude: int := IntegerMagnitude(bits);
    if Negative(bits) then -magnitude else magnitude
  }

  /** An integral, safe value other than negative zero: what the profile turns into an integer. */
  predicate SafeInteger(bits: uint64) {
    Integral(bits) && !NegativeZero(bits) && Safe(IntegerOf(bits))
  }

  // ---------------------------------------------------------------- the real number denoted

  /** The absolute value: significand times 2^(exponent - 1075), subnormals at exponent 1. */
  ghost function RealMagnitude(bits: uint64): real
    requires Finite(bits)
  {
    var e := if Exponent(bits) == 0 then 1 else Exponent(bits);
    if e < 1075 then Significand(bits) as real / Pow2(1075 - e) as real
    else (Significand(bits) * Pow2(e - 1075)) as real
  }

  ghost function RealOf(bits: uint64): real
    requires Finite(bits)
  {
    if Negative(bits) then -RealMagnitude(bits) else RealMagnitude(bits)
  }

  lemma {:induction false} Pow2Grows(a: nat, b: nat)
    requires a <= b
    ensures Pow2(a) <= Pow2(b)
  {
    if a < b {
      Pow2Grows(a, b - 1);
    }
  }

  lemma {:induction false} Pow2Sum(a: nat, b: nat)
    ensures Pow2(a + b) == Pow2(a) * Pow2(b)
  {
    if a > 0 {
      Pow2Sum(a - 1, b);
    }
  }

  lemma Pow2Fraction()
    ensures Pow2(52) == FRACTION
  {
    assert Pow2(4) == 0x10;
    Pow2Sum(4, 4);
    Pow2Sum(8, 8);
    Pow2Sum(16, 16);
    Pow2Sum(32, 16);
    Pow2Sum(48, 4);
  }

  /** The low `k` bits of `n`. */
  function Low(n: nat, k: nat): nat {
    if k == 0 then 0 else n % 2 + 2 * Low(n / 2, k - 1)
  }

  lemma Distribute(a: int, b: int, c: int)
    ensures (a + b) * c == a * c + b * c
  {
  }

  lemma DoubleProduct(a: int, b: int)
    ensures a * (2 * b) == 2 * (a * b)
  {
  }

  lemma {:induction false} ShiftDivides(n: nat, k: nat)
    ensures n == Shift(n, k) * Pow2(k) + Low(n, k)
    ensures Low(n, k) < Pow2(k)
    ensures LowBitsZero(n, k) <==> Low(n, k) == 0
  {
    if k > 0 {
      ShiftDivides(n / 2, k - 1);
      DoubleProduct(Shift(n / 2, k - 1), Pow2(k - 1));
    }
  }

  lemma NoMultipleBetween(m: int, p: nat, r: nat)
    requires m * p == r < p
    ensures r == 0
  {
    if m >= 1 {
      Distribute(m - 1, 1, p);
      ProductNonNegative(m - 1, p);
    }
  }

  lemma ProductNonNegative(a: nat, b: nat)
    ensures a * b >= 0
  {
  }

  lemma {:induction false} HighBitIgnored(f: nat, k: nat, j: nat)
    requires k <= j
    ensures LowBitsZero(Pow2(j) + f, k) <==> LowBitsZero(f, k)
  {
    if k > 0 {
      HighBitIgnored(f / 2, k - 1, j - 1);
    }
  }

  predicate Whole(x: real) { x == x.Floor as real }

  lemma QuotientWhole(n: nat, k: nat)
    ensures LowBitsZero(n, k) <==> Whole(n as real / Pow2(k) as real)
    ensures LowBitsZero(n, k) ==> n as real / Pow2(k) as real == Shift(n, k) as real
  {
    var p, q := Pow2(k), Shift(n, k);
    var x := n as real / p as real;
    ShiftDivides(n, k);
    if LowBitsZero(n, k) {
      CancelDivisor(q, p);
    } else if Whole(x) {
      DivideBack(n, p);
      assert n == x.Floor * p;
      Distribute(x.Floor - q, q, p);
      NoMultipleBetween(x.Floor - q, p, Low(n, k));
    }
  }

  lemma CancelDivisor(q: nat, p: nat)
    requires p > 0
    ensures (q * p) as real / p as real == q as real
  {
    assert (q * p) as real == q as real * p as real;
  }

  lemma DivideBack(n: nat, p: nat)
    requires p > 0
    ensures (n as real / p as real) * p as real == n as real
    ensures Whole(n as real / p as real) ==> (n as real / p as real).Floor * p == n
  {
    var x := n as real / p as real;
    assert x * p as real == n as real;
    if Whole(x) {
      assert (x.Floor * p) as real == x.Floor as real * p as real;
    }
  }

  lemma WholeNegation(x: real)
    ensures Whole(-x) <==> Whole(x)
  {
    if Whole(x) { assert -x == (-x.Floor) as real; }
    if Whole(-x) { assert x == (-((-x).Floor)) as real; }
  }

  lemma SmallNonMultiple(n: nat, k: nat)
    requires n < Pow2(k)
    ensures LowBitsZero(n, k) <==> n == 0
    ensures Shift(n, k) == 0
  {
    ShiftDivides(n, k);
    var q, p := Shift(n, k), Pow2(k);
    if q >= 1 {
      Distribute(q - 1, 1, p);
      ProductNonNegative(q - 1, p);
    }
  }

  lemma IntegralBits(bits: uint64)
    requires Exponent(bits) < 1075
    ensures var s := 1075 - (if Exponent(bits) == 0 then 1 else Exponent(bits));
            && Integral(bits) == LowBitsZero(Significand(bits), s)
            && (Integral(bits) ==> Shift(Significand(bits), s) == IntegerMagnitude(bits))
  {
    var e, n := Exponent(bits), Significand(bits);
    var s := 1075 - (if e == 0 then 1 else e);
    Pow2Fraction();
    if e < 1023 {
      assert Pow2(53) == 2 * Pow2(52);
      Pow2Grows(53, s);
      SmallNonMultiple(n, s);
    } else {
      HighBitIgnored(Fraction(bits), s, 52);
    }
  }

  lemma MagnitudeMeaning(bits: uint64)
    requires Finite(bits)
    ensures Integral(bits) == Whole(RealMagnitude(bits))
    ensures Integral(bits) ==> RealMagnitude(bits) == IntegerMagnitude(bits) as real
  {
    if Exponent(bits) < 1075 {
      IntegralBits(bits);
      QuotientWhole(Significand(bits), 1075 - (if Exponent(bits) == 0 then 1 else Exponent(bits)));
    }
  }

  /**
   * The exponent-and-fraction test decides integrality of the real number itself, and IntegerOf is
   * that number.
   */
  lemma IntegralMeaning(bits: uint64)
    requires Finite(bits)
    ensures Integral(bits) <==> Whole(RealOf(bits))
    ensures Integral(bits) ==> RealOf(bits) == IntegerOf(bits) as real
  {
    MagnitudeMeaning(bits);
    WholeNegation(RealMagnitude(bits));
  }
}
