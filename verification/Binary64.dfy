/** Integers stored as IEEE 754-2008 binary64 values: precision p = 53 (section 3.3) and
    rounding to nearest, ties to even (section 4.3.1).  Every value the score system stores is
    an integer, so only the rounding of integers is needed. */
module Binary64 {

  /** 2^53, the end of the range in which every integer is representable. */
  const TWO_53: nat := 0x20_0000_0000_0000

  function Pow2(e: nat): (r: nat)
    ensures r >= 1
  {
    if e == 0 then 1 else 2 * Pow2(e - 1)
  }

  ghost predicate IsScaled(v: nat, k: nat, e: nat) {
    v == k * Pow2(e)
  }

  /** A natural number that 53 significant bits can hold. */
  ghost predicate Representable(v: nat) {
    exists k: nat, e: nat :: k < TWO_53 && IsScaled(v, k, e)
  }

  /** The gap between neighbouring representable values at the magnitude of n. */
  function Ulp(n: nat): (q: nat)
    ensures q >= 1
  {
    if n < TWO_53 then 1 else 2 * Ulp(n / 2)
  }

  /** The leading 53 bits of n. */
  function Mantissa(n: nat): nat {
    if n < TWO_53 then n else Mantissa(n / 2)
  }

  /** n with all but its leading 53 bits cleared. */
  function Truncate(n: nat): (low: nat)
    ensures low <= n
  {
    if n < TWO_53 then n else 2 * Truncate(n / 2)
  }

  /** Round to nearest, ties to even. */
  function RoundNat(n: nat): nat {
    var low, q := Truncate(n), Ulp(n);
    var rest := n - low;
    if 2 * rest < q || (2 * rest == q && Mantissa(n) % 2 == 0) then low else low + q
  }

  function Round(x: int): int {
    if x < 0 then 0 - RoundNat(-x) else RoundNat(x)
  }

  /** Floating point addition of two stored integers. */
  function Add(x: int, y: int): int {
    Round(x + y)
  }

  // ---- arithmetic helpers -----------------------------------------------------------------

  lemma MulLe(a: nat, b: nat, c: nat)
    requires a <= b
    ensures a * c <= b * c
  {
  }

  lemma MulAssoc(a: nat, b: nat, c: nat)
    ensures a * (b * c) == (a * b) * c
  {
  }

  lemma MulSucc(a: nat, c: nat)
    ensures (a + 1) * c == a * c + c
  {
  }

  lemma {:induction false} Leading(n: nat)
    ensures Truncate(n) == Mantissa(n) * Ulp(n)
    ensures Truncate(n) <= n < Truncate(n) + Ulp(n)
    ensures Mantissa(n) < TWO_53
    ensures n >= TWO_53 ==> Mantissa(n) >= TWO_53 / 2 && Ulp(n) >= 2
  {
    if n >= TWO_53 {
      Leading(n / 2);
      MulAssoc(2, Mantissa(n / 2), Ulp(n / 2));
      MulAssoc(Mantissa(n / 2), 2, Ulp(n / 2));
    }
  }

  lemma {:induction false} UlpIsPowerOfTwo(n: nat) returns (e: nat)
    ensures Ulp(n) == Pow2(e)
  {
    if n < TWO_53 {
      e := 0;
    } else {
      var f := UlpIsPowerOfTwo(n / 2);
      e := f + 1;
    }
  }

  lemma {:induction false} PowersNest(e: nat, f: nat)
    requires e <= f
    ensures Pow2(f) == Pow2(f - e) * Pow2(e)
    ensures e < f ==> 2 * Pow2(e) <= Pow2(f)
  {
    if e < f {
      PowersNest(e, f - 1);
      MulAssoc(2, Pow2(f - 1 - e), Pow2(e));
    }
  }

  lemma {:induction false} UlpMonotone(m: nat, n: nat)
    requires m <= n
    ensures Ulp(m) <= Ulp(n)
    ensures Ulp(m) < Ulp(n) ==> 2 * Ulp(m) <= Ulp(n)
  {
    if m >= TWO_53 {
      UlpMonotone(m / 2, n / 2);
    }
  }

  /** A multiple of the gap at most n is at most the truncation; one above n is beyond the next
      multiple. */
  lemma MultiplesAround(n: nat, k: nat)
    ensures k * Ulp(n) <= n ==> k * Ulp(n) <= Truncate(n)
    ensures k * Ulp(n) > n ==> k * Ulp(n) >= Truncate(n) + Ulp(n)
  {
    Leading(n);
    if k <= Mantissa(n) {
      MulLe(k, Mantissa(n), Ulp(n));
    } else {
      MulLe(Mantissa(n) + 1, k, Ulp(n));
      MulSucc(Mantissa(n), Ulp(n));
    }
  }

  // ---- what rounding means ----------------------------------------------------------------

  lemma ScaledIsRepresentable(v: nat, k: nat, e: nat)
    requires k <= TWO_53 && IsScaled(v, k, e)
    ensures Representable(v)
  {
    if k == TWO_53 {
      assert IsScaled(v, TWO_53 / 2, e + 1);
    }
  }

  /** The result of rounding is itself representable. */
  lemma RoundIsRepresentable(n: nat)
    ensures Representable(RoundNat(n))
  {
    var e := UlpIsPowerOfTwo(n);
    Leading(n);
    MulSucc(Mantissa(n), Ulp(n));
    ScaledIsRepresentable(Truncate(n), Mantissa(n), e);
    ScaledIsRepresentable(Truncate(n) + Ulp(n), Mantissa(n) + 1, e);
  }

  function Distance(a: int, b: int): nat {
    if a <= b then b - a else a - b
  }

  lemma NearestMultiple(n: nat, k: nat)
    ensures Distance(RoundNat(n), n) <= Distance(k * Ulp(n), n)
  {
    Leading(n);
    MultiplesAround(n, k);
  }

  /** No representable value is closer to n than RoundNat(n): rounding to nearest, stated
      without the algorithm. */
  lemma RoundIsNearest(n: nat, v: nat)
    requires Representable(v)
    ensures Distance(RoundNat(n), n) <= Distance(v, n)
  {
    var e := UlpIsPowerOfTwo(n);
    var k: nat, f: nat :| k < TWO_53 && IsScaled(v, k, f);
    if e <= f {
      PowersNest(e, f);
      MulAssoc(k, Pow2(f - e), Pow2(e));
      NearestMultiple(n, k * Pow2(f - e));
    } else {
      PowersNest(f, e);
      Leading(n);
      MulLe(k, TWO_53, Pow2(f));
      MulLe(TWO_53 / 2, Mantissa(n), Ulp(n));
      NearestMultiple(n, TWO_53 / 2);
    }
  }

  /** Midway between two neighbours the one with the even significand is taken. */
  lemma TieGoesToEven(n: nat, k: nat)
    requires 2 * n == (2 * k + 1) * Ulp(n)
    ensures RoundNat(n) == (if k % 2 == 0 then k else k + 1) * Ulp(n)
  {
    Leading(n);
    DoubleSucc(k, Ulp(n));
    hide Ulp, Mantissa, Truncate;
    SameParts(n, Mantissa(n), k, Ulp(n));
    MulSucc(k, Ulp(n));
  }

  lemma DoubleSucc(k: nat, q: nat)
    ensures (2 * k + 1) * q == k * q + k * q + q
  {
  }

  lemma SameParts(n: nat, m: nat, k: nat, q: nat)
    requires m * q <= n < m * q + q && k * q <= n < k * q + q
    ensures m == k
  {
    MulSucc(k, q);
    MulSucc(m, q);
    if k < m {
      MulLe(k + 1, m, q);
    } else if k > m {
      MulLe(m + 1, k, q);
    }
  }

  /** Rounding is the identity exactly on the representable values. */
  lemma ExactIffRepresentable(n: nat)
    ensures RoundNat(n) == n <==> Representable(n)
  {
    RoundIsRepresentable(n);
    if Representable(n) {
      RoundIsNearest(n, n);
    }
  }

  /** Every integer of magnitude up to 2^53 is stored exactly. */
  lemma SmallIsExact(x: int)
    requires Distance(x, 0) <= TWO_53
    ensures Round(x) == x
  {
    var n: nat := Distance(x, 0);
    if n < TWO_53 {
      assert IsScaled(n, n, 0);
    } else {
      assert Pow2(1) == 2 * Pow2(0);
      assert IsScaled(n, TWO_53 / 2, 1);
    }
    ExactIffRepresentable(n);
  }

  lemma ScaledIsEven(k: nat, e: nat)
    requires e > 0
    ensures (k * Pow2(e)) % 2 == 0
  {
    MulAssoc(2, k, Pow2(e - 1));
    MulAssoc(k, 2, Pow2(e - 1));
    assert k * Pow2(e) == 2 * (k * Pow2(e - 1));
  }

  /** An odd integer above 2^53 is never stored exactly. */
  lemma LargeOddIsInexact(n: nat)
    requires n >= TWO_53 && n % 2 == 1
    ensures Round(n) != n
  {
    ExactIffRepresentable(n);
    forall k: nat, e: nat | IsScaled(n, k, e) ensures k >= TWO_53 {
      if e > 0 {
        ScaledIsEven(k, e);
      }
    }
  }

  /** Rounding keeps order, at every magnitude. */
  lemma RoundMonotone(m: nat, n: nat)
    requires m <= n
    ensures RoundNat(m) <= RoundNat(n)
  {
    Leading(m);
    Leading(n);
    UlpMonotone(m, n);
    if Ulp(m) == Ulp(n) {
      MultiplesAround(n, Mantissa(m));
      MultiplesAround(m, Mantissa(n));
    } else {
      // even rounded up, m stays at or below the smallest value with the larger gap
      MulLe(Mantissa(m) + 1, TWO_53, Ulp(m));
      MulSucc(Mantissa(m), Ulp(m));
      MulLe(TWO_53 / 2, Mantissa(n), Ulp(n));
    }
  }
}
