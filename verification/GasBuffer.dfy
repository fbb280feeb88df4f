/**
 The gas buffer of internal/txmanager/opstack_client.go: uint64(float64(raw) * 1.10), in IEEE 754 binary64
 with round-to-nearest, ties-to-even, against exact integer arithmetic. Products are measured in units of
 2^-52, in which the constant 1.10 is the integer FACTOR and every product of it with an integer is whole.
 */
module GasBuffer {

  /** The significand of the double nearest to 1.10. */
  const FACTOR: int := 4953959590107546

  const ONE: int := 0x10_0000_0000_0000

  function Pow2(e: nat): (p: nat)
    ensures p > 0
  {
    if e == 0 then 1 else 2 * Pow2(e - 1)
  }

  /** The exponent of the gap between neighbouring doubles at p: p then has at most 53 bits above it. */
  function UlpExponent(p: nat, from: nat := 0): (e: nat)
    ensures from <= e && p < Pow2(53 + e)
    ensures e == from || Pow2(53 + e - 1) <= p
    decreases p - from
  {
    ExceedsExponent(53 + from);
    if p < Pow2(53 + from) then from else UlpExponent(p, from + 1)
  }

  lemma ExceedsExponent(e: nat)
    ensures Pow2(e) > e
  {
  }

  /** How many times m goes into p, rounded to nearest, to even when two are equally near. */
  function Nearest(p: nat, m: nat): nat
    requires m > 0
  {
    var q, rest := p / m, p % m;
    if 2 * rest < m || (2 * rest == m && q % 2 == 0) then q else q + 1
  }

  /** The gap between neighbouring doubles at p. */
  function Gap(p: nat): (ulp: nat)
    ensures ulp > 0
  {
    Pow2(UlpExponent(p))
  }

  /** The double nearest to p. */
  function ToDouble(p: nat): nat {
    Nearest(p, Gap(p)) * Gap(p)
  }

  /** The product before it is rounded; float64(raw) has been rounded already. */
  function Product(raw: nat): nat {
    ToDouble(raw) * FACTOR
  }

  /** The buffered estimate; conversion to an integer truncates. */
  function WithBuffer(raw: nat): nat {
    ToDouble(Product(raw)) / ONE
  }

  /** The buffer without rounding. */
  function Exact(raw: nat): nat {
    11 * raw / 10
  }

  // ---- rounding -----------------------------------------------------------------------------------

  lemma MulKeepsOrder(a: nat, b: nat, m: nat)
    requires a <= b
    ensures a * m <= b * m
  {
  }

  lemma Regroup(a: int, b: int, c: int)
    ensures a * (b * c) == (a * b) * c
  {
  }

  /** p is past the middle between (n - 1) * m and n * m, or at the middle and n is even. */
  predicate Attains(p: nat, m: nat, n: nat) {
    2 * p > 2 * (n * m) - m || (2 * p == 2 * (n * m) - m && n % 2 == 0)
  }

  lemma NearestAtLeast(p: nat, m: nat, n: nat)
    requires m > 0
    ensures Nearest(p, m) >= n <==> Attains(p, m, n)
  {
    var q, rest := p / m, p % m;
    assert p == q * m + rest;
    assert (q + 1) * m == q * m + m;
    if n <= q {
      MulKeepsOrder(n, q, m);
    } else if n > q + 1 {
      MulKeepsOrder(q + 2, n, m);
      assert (q + 2) * m == q * m + 2 * m;
    }
  }

  lemma {:induction false} Pow2Splits(a: nat, b: nat)
    ensures Pow2(a + b) == Pow2(a) * Pow2(b)
  {
    if b > 0 {
      Pow2Splits(a, b - 1);
      assert Pow2(a + b) == 2 * (Pow2(a) * Pow2(b - 1)) == Pow2(a) * (2 * Pow2(b - 1));
    } else {
      assert Pow2(a) * Pow2(0) == Pow2(a);
    }
  }

  lemma {:induction false} Pow2Grows(a: nat, b: nat)
    requires a <= b
    ensures Pow2(a) <= Pow2(b)
  {
    if a < b {
      Pow2Grows(a, b - 1);
    }
  }

  // ---- the buffer ---------------------------------------------------------------------------------

  lemma SmallPowers()
    ensures Pow2(48) == 0x1_0000_0000_0000 && Pow2(49) == 0x2_0000_0000_0000 && Pow2(52) == ONE
  {
    assert Pow2(10) == 1024;
    Pow2Splits(10, 10);
    Pow2Splits(20, 20);
    Pow2Splits(40, 8);
    Pow2Splits(48, 1);
    Pow2Splits(48, 4);
  }

  lemma LargePowers()
    ensures Pow2(101) == 0x20_0000_0000_0000_0000_0000_0000
    ensures Pow2(102) == 0x40_0000_0000_0000_0000_0000_0000
  {
    SmallPowers();
    Pow2Splits(52, 49);
  }

  /** In units of 2^-52 ten times the product is eleven times the estimate, plus four units each. */
  lemma TenTimes(raw: nat)
    ensures 10 * (raw * FACTOR) == (11 * raw) * ONE + 4 * raw
    ensures 20 * (raw * FACTOR) == 20 * (Exact(raw) * ONE) + 2 * (raw % 10) * ONE + 8 * raw
  {
    var tens, unit := raw / 10, raw % 10;
    assert 11 * raw == 10 * (11 * tens + unit) + unit;
    assert Exact(raw) == 11 * tens + unit;
  }

  /** float64 holds every integer below 2^53. */
  lemma SmallIsDouble(raw: nat)
    requires raw < Pow2(53)
    ensures ToDouble(raw) == raw
  {
    assert UlpExponent(raw) == 0;
  }

  lemma NearestIsNear(p: nat, m: nat)
    requires m > 0
    ensures 2 * p <= 2 * (Nearest(p, m) * m) + m
  {
    var n := Nearest(p, m);
    NearestAtLeast(p, m, n + 1);
    assert (n + 1) * m == n * m + m;
  }

  /** From 2^53 on, p has the 53 bits a double keeps, and rounding keeps the first of them. */
  lemma LargeKeepsItsSize(p: nat)
    requires UlpExponent(p) > 0
    ensures Pow2(52) * Gap(p) <= p
    ensures Pow2(52) * Gap(p) <= ToDouble(p)
  {
    var e := UlpExponent(p);
    Pow2Splits(52, e);
    assert Pow2(53 + e - 1) == Pow2(52 + e);
    NearestAtLeast(p, Gap(p), Pow2(52));
    MulKeepsOrder(Pow2(52), Nearest(p, Gap(p)), Gap(p));
  }

  /** Rounding loses at most one part in 2^53. */
  lemma RelativeError(p: nat)
    ensures (2 * ONE - 1) * p <= 2 * ONE * ToDouble(p)
  {
    if UlpExponent(p) == 0 {
      SmallIsDouble(p);
    } else {
      NearestIsNear(p, Gap(p));
      LargeKeepsItsSize(p);
      SmallPowers();
      LossIsRelative(p, ToDouble(p), Gap(p));
    }
  }

  lemma LossIsRelative(p: nat, d: nat, ulp: nat)
    requires 2 * p <= 2 * d + ulp && ONE * ulp <= p
    ensures (2 * ONE - 1) * p <= 2 * ONE * d
  {
  }

  /** For every estimate, however large: the buffer never lowers it. */
  lemma NeverBelowEstimate(raw: nat)
    ensures WithBuffer(raw) >= raw
  {
    RelativeError(raw);
    RelativeError(Product(raw));
    TwoLosses(raw, ToDouble(raw), ToDouble(Product(raw)));
  }

  lemma TwoLosses(raw: nat, x: nat, d: nat)
    requires (2 * ONE - 1) * raw <= 2 * ONE * x
    requires (2 * ONE - 1) * (x * FACTOR) <= 2 * ONE * d
    ensures raw * ONE <= d
  {
  }

  // ---- products below 2^53: doubles are at most 1 apart --------------------------------------------

  lemma LargeProduct(raw: nat)
    requires raw >= Pow2(53)
    ensures Product(raw) >= Pow2(105)
  {
    LargeKeepsItsSize(raw);
    SmallPowers();
    assert Gap(raw) >= 2;
    assert ToDouble(raw) >= 2 * ONE;
    Pow2Splits(52, 53);
    assert Pow2(53) == 2 * Pow2(52);
  }

  lemma ConvertsExactly(raw: nat)
    requires Product(raw) < Pow2(105)
    ensures raw < Pow2(53) && Product(raw) == raw * FACTOR
  {
    if raw >= Pow2(53) {
      LargeProduct(raw);
    } else {
      SmallIsDouble(raw);
    }
  }

  /** The gap divides 1. */
  lemma FineGap(p: nat) returns (k: nat)
    requires p < Pow2(105)
    ensures k > 0 && k * Gap(p) == ONE
    ensures k % 2 == 0 <==> Gap(p) != ONE
  {
    var e := UlpExponent(p);
    if e > 52 {
      Pow2Grows(105, 53 + e - 1);
    }
    k := Pow2(52 - e);
    SmallPowers();
    Pow2Splits(52 - e, e);
  }

  /**
   The result exceeds g iff the product reaches the middle below g + 1; the middle itself belongs to g only
   if 1 is the gap and g is even.
   */
  lemma ExceedsIff(p: nat, g: nat)
    requires p < Pow2(105)
    ensures ToDouble(p) / ONE > g <==>
              || 2 * p > 2 * ((g + 1) * ONE) - Gap(p)
              || (2 * p == 2 * ((g + 1) * ONE) - Gap(p) && !(Gap(p) == ONE && g % 2 == 0))
  {
    var k := FineGap(p);
    var n := (g + 1) * k;
    Regroup(g + 1, k, Gap(p));
    NearestAtLeast(p, Gap(p), n);
    AboveMeansReached(Nearest(p, Gap(p)), n, Gap(p), g);
    Parity(g, k);
  }

  lemma AboveMeansReached(q: nat, n: nat, ulp: nat, g: nat)
    requires n * ulp == (g + 1) * ONE && ulp > 0
    ensures q * ulp / ONE > g <==> q >= n
  {
    if q >= n {
      MulKeepsOrder(n, q, ulp);
    } else {
      MulKeepsOrder(q + 1, n, ulp);
    }
  }

  lemma Parity(g: nat, k: nat)
    requires k > 0 && (k == 1 || k % 2 == 0)
    ensures ((g + 1) * k) % 2 == 0 <==> k % 2 == 0 || g % 2 == 1
  {
    if k % 2 == 0 {
      assert (g + 1) * k == 2 * ((g + 1) * (k / 2));
    }
  }

  /** Room below the next integer: the last digit of the estimate, the excess of the factor and half a gap fit. */
  predicate FineRoom(raw: nat, ulp: nat) {
    var sum := 2 * (raw % 10) * ONE + 8 * raw + 10 * ulp;
    sum < 20 * ONE || (sum == 20 * ONE && ulp == ONE && Exact(raw) % 2 == 0)
  }

  lemma FineIff(raw: nat)
    requires raw * FACTOR < Pow2(105)
    ensures ToDouble(raw * FACTOR) / ONE <= Exact(raw) <==> FineRoom(raw, Gap(raw * FACTOR))
  {
    TenTimes(raw);
    ExceedsIff(raw * FACTOR, Exact(raw));
    SumsAgree(raw, raw * FACTOR, Exact(raw), Gap(raw * FACTOR));
  }

  lemma SumsAgree(raw: nat, p: nat, g: nat, ulp: nat)
    requires 20 * p == 20 * (g * ONE) + 2 * (raw % 10) * ONE + 8 * raw
    ensures 2 * p > 2 * ((g + 1) * ONE) - ulp <==> 2 * (raw % 10) * ONE + 8 * raw + 10 * ulp > 20 * ONE
    ensures 2 * p == 2 * ((g + 1) * ONE) - ulp <==> 2 * (raw % 10) * ONE + 8 * raw + 10 * ulp == 20 * ONE
  {
  }

  // ---- larger products: doubles are at least 2 apart -----------------------------------------------

  /** The gap is a multiple of 1. */
  lemma CoarseGap(p: nat) returns (u: nat)
    requires p >= Pow2(105)
    ensures u > 0 && u * ONE == Gap(p)
    ensures p < Pow2(106) ==> u == 2
  {
    var e := UlpExponent(p);
    if e <= 52 {
      Pow2Grows(53 + e, 105);
    }
    if e > 53 {
      Pow2Grows(106, 53 + e - 1);
    }
    SmallPowers();
    u := Pow2(e - 52);
    Pow2Splits(e - 52, 52);
    assert e == 53 ==> u == 2 * Pow2(0);
  }

  /** p is within half of m of n * m, or half of m away and n is even. */
  predicate Nearby(p: nat, m: nat, n: nat) {
    && 2 * (n * m) - m <= 2 * p <= 2 * (n * m) + m
    && (2 * p == 2 * (n * m) - m || 2 * p == 2 * (n * m) + m ==> n % 2 == 0)
  }

  lemma NearestIff(p: nat, m: nat, n: nat)
    requires m > 0
    ensures Nearest(p, m) == n <==> Nearby(p, m, n)
  {
    NearestAtLeast(p, m, n);
    NearestAtLeast(p, m, n + 1);
    assert (n + 1) * m == n * m + m;
  }

  /** g is itself a double, the n-th multiple of the gap, and the product is nearby. */
  ghost predicate CoarseRoom(p: nat, g: nat, ulp: nat) {
    exists n: nat :: n * ulp == g * ONE && Nearby(p, ulp, n)
  }

  lemma WholeResult(q: nat, u: nat, g: nat)
    ensures q * (u * ONE) / ONE == g <==> q * (u * ONE) == g * ONE
  {
    Regroup(q, u, ONE);
  }

  lemma CoarseIff(p: nat, g: nat)
    requires p >= Pow2(105)
    ensures ToDouble(p) / ONE == g <==> CoarseRoom(p, g, Gap(p))
  {
    var u := CoarseGap(p);
    var q := Nearest(p, Gap(p));
    WholeResult(q, u, g);
    NearestIff(p, Gap(p), q);
    if n: nat :| n * Gap(p) == g * ONE && Nearby(p, Gap(p), n) {
      NearestIff(p, Gap(p), n);
    }
  }

  // ---- the results --------------------------------------------------------------------------------

  /** Every estimate below 2^53 gets at least the integer buffer. */
  lemma NeverBelowExact(raw: nat)
    requires raw < Pow2(53)
    ensures WithBuffer(raw) >= Exact(raw) >= raw
  {
    SmallIsDouble(raw);
    if raw * FACTOR < Pow2(105) {
      FineReaches(raw);
    } else {
      CoarseReaches(raw);
    }
  }

  lemma FineReaches(raw: nat)
    requires raw * FACTOR < Pow2(105)
    ensures ToDouble(raw * FACTOR) / ONE >= Exact(raw)
  {
    TenTimes(raw);
    if Exact(raw) > 0 {
      ExceedsIff(raw * FACTOR, Exact(raw) - 1);
    }
  }

  lemma CoarseReaches(raw: nat)
    requires raw < Pow2(53) && raw * FACTOR >= Pow2(105)
    ensures ToDouble(raw * FACTOR) / ONE >= Exact(raw)
  {
    var p, g := raw * FACTOR, Exact(raw);
    assert p < Pow2(106) by {
      SmallPowers();
      Pow2Splits(53, 53);
      assert Pow2(53) == 2 * Pow2(52);
    }
    var u := CoarseGap(p);
    TenTimes(raw);
    NearestAtLeast(p, 2 * ONE, (g + 1) / 2);
  }

  /**
   For every estimate: the float buffer is at least the integer buffer iff the product is below 2^53 or
   attains some double that is not below the integer buffer.
   */
  lemma NotBelowExactIff(raw: nat)
    ensures WithBuffer(raw) >= Exact(raw) <==>
              || Product(raw) < Pow2(105)
              || exists n: nat :: && n * Gap(Product(raw)) >= Exact(raw) * ONE
                                  && Attains(Product(raw), Gap(Product(raw)), n)
  {
    if Product(raw) < Pow2(105) {
      ConvertsExactly(raw);
      FineReaches(raw);
    } else {
      CoarseAtLeast(Product(raw), Exact(raw));
    }
  }

  lemma CoarseAtLeast(p: nat, g: nat)
    requires p >= Pow2(105)
    ensures ToDouble(p) / ONE >= g <==> exists n: nat :: n * Gap(p) >= g * ONE && Attains(p, Gap(p), n)
  {
    var q := Nearest(p, Gap(p));
    NearestAtLeast(p, Gap(p), q);
    assert ToDouble(p) / ONE >= g <==> q * Gap(p) >= g * ONE;
    if n: nat :| n * Gap(p) >= g * ONE && Attains(p, Gap(p), n) {
      NearestAtLeast(p, Gap(p), n);
      MulKeepsOrder(n, q, Gap(p));
    }
  }

  /** An estimate whose float buffer is below the integer one: float64 has rounded it down. */
  const ROUNDED_DOWN: nat := 9007199254741001

  lemma RoundsDown()
    ensures ToDouble(ROUNDED_DOWN) == ROUNDED_DOWN - 1
  {
    SmallPowers();
    assert Pow2(53) == 2 * Pow2(52) && Pow2(54) == 2 * Pow2(53);
    assert UlpExponent(ROUNDED_DOWN) == 1;
    assert Pow2(1) == 2 * Pow2(0);
    NearestIff(ROUNDED_DOWN, 2, (ROUNDED_DOWN - 1) / 2);
  }

  lemma TwoApart(p: nat, n: nat)
    requires Pow2(105) <= p < Pow2(106) && Nearby(p, 2 * ONE, n)
    ensures ToDouble(p) / ONE == 2 * n
  {
    var u := CoarseGap(p);
    NearestIff(p, 2 * ONE, n);
  }

  lemma InUpperRange(x: nat)
    requires Pow2(53) <= x <= Pow2(53) + 8
    ensures Pow2(105) <= x * FACTOR < Pow2(106)
  {
    SmallPowers();
    Pow2Splits(53, 52);
    Pow2Splits(53, 53);
  }

  lemma BelowExactWhenRoundedDown()
    ensures WithBuffer(ROUNDED_DOWN) == Exact(ROUNDED_DOWN) - 1
  {
    RoundsDown();
    BelowExactAfterRounding(ROUNDED_DOWN);
  }

  lemma BelowExactAfterRounding(raw: nat)
    requires raw == ROUNDED_DOWN && ToDouble(raw) == raw - 1
    ensures WithBuffer(raw) == Exact(raw) - 1
  {
    SmallPowers();
    InUpperRange(raw - 1);
    TwoApart(Product(raw), (Exact(raw) - 1) / 2);
  }

  /** What decides, for an estimate, whether the float buffer is the integer one. */
  ghost predicate LeavesRoom(raw: nat) {
    var p := Product(raw);
    if p < Pow2(105) then FineRoom(raw, Gap(p)) else CoarseRoom(p, Exact(raw), Gap(p))
  }

  /** For every estimate: the float buffer is the integer buffer floor(11 * raw / 10) exactly where there is room. */
  lemma FloatBufferIsExactIff(raw: nat)
    ensures WithBuffer(raw) == Exact(raw) <==> LeavesRoom(raw)
  {
    if Product(raw) < Pow2(105) {
      ConvertsExactly(raw);
      FineReaches(raw);
      FineIff(raw);
    } else {
      CoarseIff(Product(raw), Exact(raw));
    }
  }

  /**
   Below 2^49 there is room unless the estimate ends in 9 and the product has reached 2^49; the float buffer
   is then one too high.
   */
  lemma BelowTwoTo49(raw: nat)
    requires raw < 0x2_0000_0000_0000
    ensures WithBuffer(raw) == Exact(raw) <==> raw % 10 != 9 || raw * FACTOR < Pow2(101)
    ensures raw <= Exact(raw) <= WithBuffer(raw) <= Exact(raw) + 1
  {
    SmallPowers();
    LargePowers();
    Pow2Grows(102, 105);
    Pow2Grows(49, 53);
    SmallIsDouble(raw);
    NeverBelowExact(raw);
    FineIff(raw);
    GapBelow(raw * FACTOR);
    NextIsNotReached(raw);
  }

  lemma GapBelow(p: nat)
    requires p < Pow2(102)
    ensures p < Pow2(101) ==> Gap(p) <= Pow2(48)
    ensures p >= Pow2(101) ==> Gap(p) == Pow2(49)
  {
    var e := UlpExponent(p);
    if p < Pow2(101) {
      if e > 48 {
        Pow2Grows(101, 53 + e - 1);
      }
      Pow2Grows(e, 48);
    } else if e < 49 {
      Pow2Grows(53 + e, 101);
    } else if e > 49 {
      Pow2Grows(102, 53 + e - 1);
    }
  }

  lemma NextIsNotReached(raw: nat)
    requires raw < 0x2_0000_0000_0000
    ensures ToDouble(raw * FACTOR) / ONE <= Exact(raw) + 1
  {
    SmallPowers();
    LargePowers();
    Pow2Grows(102, 105);
    GapBelow(raw * FACTOR);
    TenTimes(raw);
    ExceedsIff(raw * FACTOR, Exact(raw) + 1);
  }

  /** The first estimate for which the float buffer differs from the integer one. */
  const FIRST_DIFFERENCE: nat := 511772684928469

  lemma ExactBelowFirstDifference(raw: nat)
    requires raw < FIRST_DIFFERENCE
    ensures WithBuffer(raw) == Exact(raw)
  {
    LargePowers();
    BelowTwoTo49(raw);
  }

  lemma DifferenceAtFirst()
    ensures WithBuffer(FIRST_DIFFERENCE) == Exact(FIRST_DIFFERENCE) + 1
  {
    LargePowers();
    BelowTwoTo49(FIRST_DIFFERENCE);
  }
}
