/**
 The detour through float64 that memqueue takes to find a minimum of two int64 values:
 int64(math.Min(float64(p), float64(m))).  A float64 has 53 significant bits; conversion from
 an integer rounds to the nearest representable value, ties to the even one.
 */
module Float64 {
  import Counting

  const TWO52 := 0x10_0000_0000_0000
  const TWO53 := 0x20_0000_0000_0000
  const TWO63 := 0x8000_0000_0000_0000
  const MAX_INT64 := TWO63 - 1

  predicate InInt64(n: int) {
    -TWO63 <= n < TWO63
  }

  type Int64 = n: int | InInt64(n)

  /** The distance between neighbouring float64 values at magnitude a. */
  function Ulp(a: nat): (u: nat)
    ensures u >= 1
  {
    if a < TWO53 then 1 else 2 * Ulp(a / 2)
  }

  /** a rounded to a multiple of u, to the even multiple when it lies half way. */
  function RoundTo(a: nat, u: nat): nat
    requires u >= 1
  {
    var q, r := a / u, a % u;
    if 2 * r < u || (2 * r == u && q % 2 == 0) then q * u else (q + 1) * u
  }

  /** float64(n), as the integer it denotes. */
  function FromInt64(n: int): int {
    if n >= 0 then RoundTo(n, Ulp(n)) else -(RoundTo(-n, Ulp(-n)) as int)
  }

  /** int64(f): Go leaves a value out of range to the platform, which yields overflow. */
  function ToInt64(f: int, overflow: Int64): Int64 {
    if InInt64(f) then f else overflow
  }

  function Min(a: int, b: int): int {
    if a <= b then a else b
  }

  function FloatMin(p: Int64, m: Int64, overflow: Int64): Int64 {
    ToInt64(Min(FromInt64(p), FromInt64(m)), overflow)
  }

  /** n fits into the 53 bits of a float64. */
  predicate Representable(n: int) {
    var a := if n >= 0 then n else -n;
    a % Ulp(a) == 0
  }

  lemma Remainder(a: nat, u: nat)
    requires u >= 1
    ensures a == (a / u) * u + a % u && a % u < u
    ensures (a / u + 1) * u == (a / u) * u + u
  {
  }

  lemma Quotient(a: nat, u: nat, k: nat)
    requires u >= 1
    ensures a <= k * u ==> a / u < k || (a / u == k && a % u == 0)
    ensures a >= k * u ==> a / u >= k
  {
    Remainder(a, u);
    if a / u > k {
      Counting.Scale(k + 1, a / u, u);
      assert (k + 1) * u == k * u + u;
    }
    if a / u < k {
      Counting.Scale(a / u + 1, k, u);
    }
  }

  /** Rounding does not cross a multiple of u. */
  lemma RoundToWithin(a: nat, u: nat, k: nat)
    requires u >= 1
    ensures a <= k * u ==> RoundTo(a, u) <= k * u
    ensures a >= k * u ==> RoundTo(a, u) >= k * u
  {
    var q := a / u;
    Remainder(a, u);
    Quotient(a, u, k);
    if q < k {
      Counting.Scale(q + 1, k, u);
    } else {
      Counting.Scale(k, q, u);
    }
  }

  /** Rounding goes to the nearest multiple of u, and to the even one from half way. */
  lemma RoundToNearest(a: nat, u: nat)
    requires u >= 1
    ensures 2 * RoundTo(a, u) <= 2 * a + u && 2 * a <= 2 * RoundTo(a, u) + u
    ensures 2 * RoundTo(a, u) == 2 * a + u || 2 * a == 2 * RoundTo(a, u) + u ==>
              exists k: nat :: RoundTo(a, u) == (2 * k) * u
  {
    Remainder(a, u);
    var q := a / u;
    var k := if q % 2 == 0 then q / 2 else (q + 1) / 2;
    assert q % 2 == 0 ==> q == 2 * k;
    assert q % 2 != 0 ==> q + 1 == 2 * k;
    assert (2 * k) * u == (if q % 2 == 0 then q else q + 1) * u;
  }

  lemma RoundToSameQuotient(a: nat, b: nat, u: nat)
    requires u >= 1 && a <= b && a / u == b / u
    ensures RoundTo(a, u) <= RoundTo(b, u)
  {
    Remainder(a, u);
    Remainder(b, u);
  }

  lemma RoundToMonotone(a: nat, b: nat, u: nat)
    requires u >= 1 && a <= b
    ensures RoundTo(a, u) <= RoundTo(b, u)
  {
    if a / u == b / u {
      RoundToSameQuotient(a, b, u);
    } else {
      RoundToAcross(a, b, u);
    }
  }

  lemma RoundToAcross(a: nat, b: nat, u: nat)
    requires u >= 1 && a <= b && a / u != b / u
    ensures RoundTo(a, u) <= RoundTo(b, u)
  {
    var k := a / u + 1;
    Remainder(a, u);
    Remainder(b, u);
    Quotient(b, u, a / u);
    Counting.Scale(k, b / u, u);
    RoundToWithin(a, u, k);
    RoundToWithin(b, u, k);
  }

  lemma {:induction false} UlpBinade(a: nat)
    ensures a < TWO53 * Ulp(a)
    ensures Ulp(a) == 1 || TWO52 * Ulp(a) <= a
    decreases a
  {
    if a >= TWO53 {
      UlpBinade(a / 2);
    }
  }

  lemma {:induction false} UlpGrows(a: nat, b: nat)
    requires a <= b
    ensures Ulp(a) == Ulp(b) || 2 * Ulp(a) <= Ulp(b)
    decreases b
  {
    if a >= TWO53 {
      UlpGrows(a / 2, b / 2);
    }
  }

  lemma RoundMonotone(a: nat, b: nat)
    requires a <= b
    ensures RoundTo(a, Ulp(a)) <= RoundTo(b, Ulp(b))
  {
    UlpGrows(a, b);
    if Ulp(a) == Ulp(b) {
      RoundToMonotone(a, b, Ulp(a));
    } else {
      UlpBinade(a);
      UlpBinade(b);
      RoundToWithin(a, Ulp(a), TWO53);
      RoundToWithin(b, Ulp(b), TWO52);
    }
  }

  lemma FromInt64Monotone(m: int, n: int)
    requires m <= n
    ensures FromInt64(m) <= FromInt64(n)
  {
    if m >= 0 {
      RoundMonotone(m, n);
    } else if n < 0 {
      RoundMonotone(-n, -m);
    }
  }

  lemma ExactIffRepresentable(n: int)
    ensures FromInt64(n) == n <==> Representable(n)
  {
    var a := if n >= 0 then n else -n;
    var u := Ulp(a);
    assert a == (a / u) * u + a % u;
    assert (a / u + 1) * u == (a / u) * u + u;
  }

  /** The minimum that memqueue computes is the minimum if and only if that minimum fits into a
      float64; the one other case is a priority that rounds up to 2^63 on a platform whose
      conversion happens to restore it. */
  lemma FloatMinExactIff(p: Int64, m: Int64, overflow: Int64)
    ensures FloatMin(p, m, overflow) == Min(p, m) <==>
            Representable(Min(p, m)) || (FromInt64(Min(p, m)) == TWO63 && overflow == Min(p, m))
  {
    FromInt64Monotone(Min(p, m), if p <= m then m else p);
    ExactIffRepresentable(Min(p, m));
    FitsFloatRange(Min(p, m));
  }

  lemma FitsFloatRange(n: int)
    requires InInt64(n)
    ensures -TWO63 <= FromInt64(n) <= TWO63
  {
    FromInt64Monotone(-TWO63, n);
    FromInt64Monotone(n, TWO63);
    PowerFixed();
  }

  lemma PowerFixed()
    ensures FromInt64(TWO63) == TWO63 && FromInt64(-TWO63) == -TWO63
  {
    assert Ulp(TWO63) == 2048;
  }

  predicate NearEpoch(n: int) {
    -TWO53 <= n <= TWO53
  }

  lemma NearEpochFits(n: int)
    requires NearEpoch(n)
    ensures Representable(n) && InInt64(n)
  {
    assert Ulp(TWO53) == 2 * Ulp(TWO52);
  }

  /** Priorities within 2^53 of the epoch are compared exactly, against each other and against
      the empty sentinel. */
  lemma FloatMinExactNearEpoch(p: int, m: int, overflow: Int64)
    requires NearEpoch(p) && (NearEpoch(m) || m == MAX_INT64)
    ensures FloatMin(p, m, overflow) == Min(p, m)
  {
    NearEpochFits(Min(p, m));
    FloatMinExactIff(p, m, overflow);
  }

  /** One past 2^53 the detour loses a second, on either side of the epoch. */
  lemma FloatMinLosesASecond(m: Int64, overflow: Int64)
    ensures m >= -TWO53 ==> FloatMin(-(TWO53 + 1), m, overflow) == -TWO53
    ensures m >= TWO53 ==> FloatMin(TWO53 + 1, m, overflow) == TWO53
    ensures !Representable(TWO53 + 1) && !Representable(-(TWO53 + 1))
  {
    assert Ulp(TWO53 + 1) == 2 * Ulp(TWO52);
    assert Ulp(TWO53) == 2 * Ulp(TWO52);
    FromInt64Monotone(if m >= TWO53 then TWO53 else -TWO53, if m >= -TWO53 then m else -TWO53);
  }

  /** Around 2^53 only even numbers fit, and ties go to the multiple of four. */
  lemma Float64Examples()
    ensures FromInt64(9007199254740992) == 9007199254740992
    ensures FromInt64(9007199254740993) == 9007199254740992
    ensures FromInt64(9007199254740995) == 9007199254740996
    ensures FromInt64(-9007199254740995) == -9007199254740996
    ensures FromInt64(9223372036854775807) == 9223372036854775808
  {
    assert Ulp(4503599627370496) == 1 && Ulp(4503599627370497) == 1;
    assert Ulp(9007199254740992) == 2 && Ulp(9007199254740993) == 2 && Ulp(9007199254740995) == 2;
    PowerFixed();
    UlpBelow63();
  }

  lemma UlpBelow63()
    ensures Ulp(9223372036854775807) == 1024
  {
    assert Ulp(9007199254740991) == 1;
    assert Ulp(18014398509481983) == 2;
    assert Ulp(36028797018963967) == 4;
    assert Ulp(72057594037927935) == 8;
    assert Ulp(144115188075855871) == 16;
    assert Ulp(288230376151711743) == 32;
    assert Ulp(576460752303423487) == 64;
    assert Ulp(1152921504606846975) == 128;
    assert Ulp(2305843009213693951) == 256;
    assert Ulp(4611686018427387903) == 512;
  }
}
