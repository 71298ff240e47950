/**
 The doubling back-off of internal/api/grantlimiter.go, in Go's 64-bit signed
 arithmetic: `base << (n-1)`, guarded against a result that wrapped around.
 */
module Backoff {
  import opened Arithmetic
  import opened Durations

  function Pow2(n: nat): (p: nat)
    ensures p > 0
  {
    if n == 0 then 1 else 2 * Pow2(n - 1)
  }

  const TWO_63: nat := 0x8000_0000_0000_0000

  /** The value a 64-bit signed register holds for x. */
  function Wrap64(x: int): int {
    var low := x % (2 * TWO_63);
    if low >= TWO_63 then low - 2 * TWO_63 else low
  }

  /** Go shifts left by k as if by 1, k times over. */
  function ShiftLeft(x: int, k: nat): int {
    if k == 0 then x else Wrap64(2 * ShiftLeft(x, k - 1))
  }

  /** The delay after the n-th failure in a row, as the source computes it. */
  function Delay(base: int, max: int, n: nat): int
    requires n >= 1
  {
    var shifted := ShiftLeft(base, n - 1);
    if shifted > max || shifted <= 0 then max else shifted
  }

  /** The delay the source means: doubling from base, never above max. */
  function Capped(base: int, max: int, n: nat): int
    requires n >= 1
  {
    Min(base * Pow2(n - 1), max)
  }

  lemma {:induction false} Pow2Add(a: nat, b: nat)
    ensures Pow2(a + b) == Pow2(a) * Pow2(b)
  {
    if a > 0 {
      Pow2Add(a - 1, b);
    }
  }

  lemma Pow2Of63()
    ensures Pow2(63) == TWO_63
  {
    Pow2Of28();
    Pow2Add(28, 28);
    Pow2Add(56, 7);
    assert Pow2(7) == 128;
  }

  lemma Pow2Of28()
    ensures Pow2(28) == 268_435_456
  {
    assert Pow2(7) == 128;
    Pow2Add(7, 7);
    Pow2Add(14, 14);
  }

  lemma SplitProduct(base: int, q: int, d: int, r: int, m: int)
    requires base == q * d + r
    ensures base * m == q * (d * m) + r * m
  {
    MulRegroup(q, d, m);
    assert (q * d + r) * m == (q * d) * m + r * m;
  }

  lemma RemainderFits(r: nat, d: nat, m: nat)
    requires r < d && m > 0
    ensures 0 <= r * m <= d * m - m
  {
    MulMonotone(r, d - 1, m);
  }

  lemma WrapTop(q: int, low: int)
    requires 0 <= low < TWO_63
    ensures Wrap64(q * TWO_63 + low) == if q % 2 == 0 then low else low - TWO_63
  {
    if q % 2 == 0 {
      assert q * TWO_63 + low == low + (q / 2) * (2 * TWO_63);
      WrapOnce(low, q / 2);
    } else {
      assert q * TWO_63 + low == low + TWO_63 + (q / 2) * (2 * TWO_63);
      WrapOnce(low + TWO_63, q / 2);
    }
  }

  lemma MulRegroup(q: int, a: int, b: int)
    ensures (q * a) * b == q * (a * b)
  {
  }

  lemma WrapOnce(x: int, q: int)
    ensures Wrap64(x + q * (2 * TWO_63)) == Wrap64(x)
  {
    assert (x + q * (2 * TWO_63)) % (2 * TWO_63) == x % (2 * TWO_63);
  }

  lemma WrapsBy(x: int) returns (q: int)
    ensures x == Wrap64(x) + q * (2 * TWO_63)
  {
    q := x / (2 * TWO_63);
    if x % (2 * TWO_63) >= TWO_63 {
      q := q + 1;
    }
  }

  lemma DoubleWrap(x: int)
    ensures Wrap64(2 * Wrap64(x)) == Wrap64(2 * x)
  {
    var q := WrapsBy(x);
    WrapOnce(2 * Wrap64(x), 2 * q);
  }

  lemma DoublePower(base: int, k: nat)
    requires k > 0
    ensures base * Pow2(k) == 2 * (base * Pow2(k - 1))
  {
    MulRegroup(2, base, Pow2(k - 1));
  }

  /** Wrapping at every doubling is wrapping the exact product once. */
  lemma {:induction false} ShiftIsWrappedProduct(base: int, k: nat)
    requires 0 < base < TWO_63
    ensures ShiftLeft(base, k) == Wrap64(base * Pow2(k))
  {
    if k > 0 {
      ShiftIsWrappedProduct(base, k - 1);
      DoublePower(base, k);
      DoubleWrap(base * Pow2(k - 1));
    }
  }

  /**
   base has a gap at bit j: shifting bit j up to the sign position leaves the
   sign clear, and the bits of base below j form a positive value short of max.
   */
  predicate Gap(base: int, max: int, j: nat)
    requires j < 63
  {
    && base >= Pow2(j)
    && base / Pow2(j) % 2 == 0
    && 0 < base % Pow2(j) * Pow2(63 - j) < max
  }

  lemma HalvesOf63(j: nat)
    requires j <= 63
    ensures Pow2(j) * Pow2(63 - j) == TWO_63
  {
    Pow2Add(j, 63 - j);
    Pow2Of63();
  }

  lemma CutAt(base: nat, d: nat, m: nat)
    requires d > 0 && m > 0
    ensures base * m == base / d * (d * m) + base % d * m
    ensures 0 <= base % d * m < d * m
  {
    SplitProduct(base, base / d, d, base % d, m);
    RemainderFits(base % d, d, m);
  }

  /** base shifted by 63 - j, cut at bit 63. */
  lemma ProductCut(base: int, j: nat)
    requires 0 < base < TWO_63 && j < 63
    ensures base * Pow2(63 - j) == base / Pow2(j) * TWO_63 + base % Pow2(j) * Pow2(63 - j)
    ensures 0 <= base % Pow2(j) * Pow2(63 - j) < TWO_63
  {
    HalvesOf63(j);
    CutAt(base, Pow2(j), Pow2(63 - j));
  }

  /** What the register holds once base has been shifted so that bit j is the sign bit. */
  lemma ShiftedTo(base: int, j: nat)
    requires 0 < base < TWO_63 && j < 63
    ensures var low := base % Pow2(j) * Pow2(63 - j);
            && 0 <= low < TWO_63
            && ShiftLeft(base, 63 - j) == if base / Pow2(j) % 2 == 0 then low else low - TWO_63
  {
    ShiftIsWrappedProduct(base, 63 - j);
    ProductCut(base, j);
    WrapTop(base / Pow2(j), base % Pow2(j) * Pow2(63 - j));
  }

  /** Shifting by 63 or more leaves nothing a positive delay could be read from. */
  lemma {:induction false} ShiftedOut(base: int, k: nat)
    requires 0 < base < TWO_63 && k >= 63
    ensures ShiftLeft(base, k) <= 0 && base * Pow2(k) >= TWO_63
  {
    ShiftIsWrappedProduct(base, k);
    Pow2Of63();
    Pow2Add(k - 63, 63);
    var m := base * Pow2(k - 63);
    MulMonotone(1, base, Pow2(k - 63));
    MulRegroup(base, Pow2(k - 63), TWO_63);
    WrapTop(m, 0);
  }

  lemma Quotient(base: int, p: nat, m: nat)
    requires m > 0
    ensures base * m >= p * m <==> base >= p
  {
    if base >= p {
      MulMonotone(p, base, m);
    } else {
      MulMonotone(base, p - 1, m);
    }
  }

  lemma ProductBelow(base: int, k: nat)
    requires 0 < base < TWO_63 && k < 63
    ensures base * Pow2(k) >= TWO_63 <==> base >= Pow2(63 - k)
  {
    HalvesOf63(63 - k);
    Quotient(base, Pow2(63 - k), Pow2(k));
  }

  lemma RegisterHolds(x: int)
    requires 0 <= x < TWO_63
    ensures Wrap64(x) == x
  {
  }

  /** A product that fits is the delay. */
  lemma DelayOfProduct(base: int, max: int, k: nat)
    requires 0 < base < TWO_63 && max < TWO_63 && base * Pow2(k) < TWO_63
    ensures Delay(base, max, k + 1) == Capped(base, max, k + 1)
  {
    var product := base * Pow2(k);
    MulMonotone(1, base, Pow2(k));
    ShiftIsWrappedProduct(base, k);
    RegisterHolds(product);
    assert ShiftLeft(base, k) == product;
  }

  /** One that does not is told by what the register keeps of it. */
  lemma DelayOfRegister(base: int, max: int, k: nat)
    requires 0 < base < TWO_63 && max < TWO_63 && 0 < k < 63 && base * Pow2(k) >= TWO_63
    ensures Capped(base, max, k + 1) == max
    ensures Delay(base, max, k + 1) == max <==> !(0 < ShiftLeft(base, k) < max)
  {
  }

  lemma GapIsRegister(base: int, max: int, k: nat)
    requires 0 < base < TWO_63 && 0 < k < 63 && max < TWO_63
    ensures Gap(base, max, 63 - k) <==> base * Pow2(k) >= TWO_63 && 0 < ShiftLeft(base, k) < max
  {
    ProductBelow(base, k);
    ShiftedTo(base, 63 - k);
  }

  /** One delay is exact unless its shift lands in a gap. */
  lemma DelayExact(base: int, max: int, n: nat)
    requires 0 < base < TWO_63 && max < TWO_63 && n >= 1
    ensures Delay(base, max, n) == Capped(base, max, n)
       <==> !(2 <= n <= 63 && Gap(base, max, 64 - n))
  {
    var k := n - 1;
    if k >= 63 {
      ShiftedOut(base, k);
    } else {
      if k > 0 {
        GapIsRegister(base, max, k);
      }
      if base * Pow2(k) < TWO_63 {
        DelayOfProduct(base, max, k);
      } else if k > 0 {
        DelayOfRegister(base, max, k);
      }
    }
  }

  /** Every delay is exact if and only if base has no gap below max. */
  lemma AllDelaysExact(base: int, max: int)
    requires 0 < base < TWO_63 && max < TWO_63
    ensures (forall n: nat | n >= 1 :: Delay(base, max, n) == Capped(base, max, n))
       <==> (forall j: nat | 1 <= j <= 62 :: !Gap(base, max, j))
  {
    forall n: nat | n >= 1
      ensures Delay(base, max, n) == Capped(base, max, n) <==> !(2 <= n <= 63 && Gap(base, max, 64 - n))
    {
      DelayExact(base, max, n);
    }
    if j: nat :| 1 <= j <= 62 && Gap(base, max, j) {
      DelayExact(base, max, 64 - j);
      assert 64 - (64 - j) == j;
      assert Delay(base, max, 64 - j) != Capped(base, max, 64 - j);
    }
  }

  /** It is enough that the odd part of base times max stays in 63 bits. */
  lemma SmallOddPart(base: int, odd: nat, e: nat, max: int)
    requires 0 < base < TWO_63 && base == odd * Pow2(e) && 0 < max && odd * max < TWO_63
    ensures forall j: nat | 1 <= j <= 62 :: !Gap(base, max, j)
  {
    forall j: nat | 1 <= j <= 62
      ensures !Gap(base, max, j)
    {
      if base >= Pow2(j) && base % Pow2(j) > 0 {
        if e >= j {
          Pow2Add(e - j, j);
          MulRegroup(odd, Pow2(e - j), Pow2(j));
          DivModUnique(base, Pow2(j), odd * Pow2(e - j), 0);
        } else {
          OddPartClears(base, odd, e, max, j);
        }
      }
    }
  }

  lemma OddPartClears(base: int, odd: nat, e: nat, max: int, j: nat)
    requires 0 < base < TWO_63 && base == odd * Pow2(e) && 0 < max && odd * max < TWO_63
    requires e < j <= 62 && base >= Pow2(j) && base % Pow2(j) > 0
    ensures base % Pow2(j) * Pow2(63 - j) >= max
  {
    var low, top, m := Pow2(e), Pow2(j - e), Pow2(63 - j);
    Pow2Add(j - e, e);
    Pow2Add(e, 63 - j);
    Pow2Add(j - e, e + (63 - j));
    Pow2Of63();
    ClearsWith(base, odd, low, top, m, max, Pow2(j));
  }

  lemma ClearsWith(base: nat, odd: nat, low: nat, top: nat, m: nat, max: nat, d: nat)
    requires low > 0 && d == top * low && d > 0 && base == odd * low && base >= d && base % d > 0
    requires odd * max < TWO_63 == top * (low * m)
    ensures base % d * m >= max
  {
    assert base == base / d * d + base % d;
    RemainderClears(odd, low, top, m, max, base / d, base % d);
  }

  lemma RemainderClears(odd: nat, low: nat, top: nat, m: nat, max: nat, q: int, r: int)
    requires low > 0 && r > 0 && odd * low == q * (top * low) + r && odd * low >= top * low
    requires odd * max < TWO_63 == top * (low * m)
    ensures r * m >= max
  {
    TopPart(odd, low, top);
    MaxBelow(odd, top, low * m, max);
    RemainderMultiple(odd, low, q, top, r);
    LeastMultiple(odd - q * top, low, r);
    MulMonotone(low, r, m);
  }

  lemma RemainderMultiple(odd: int, low: int, q: int, top: int, r: int)
    requires odd * low == q * (top * low) + r
    ensures r == (odd - q * top) * low
  {
    MulRegroup(q, top, low);
  }

  lemma TopPart(odd: nat, low: nat, top: nat)
    requires odd * low >= top * low && low > 0
    ensures odd >= top
  {
    if odd < top {
      MulMonotone(odd, top - 1, low);
    }
  }

  lemma MaxBelow(odd: nat, top: nat, rest: nat, max: nat)
    requires odd >= top && odd * max < TWO_63 == top * rest
    ensures max < rest
  {
    if max >= rest {
      MulMonotone(rest, max, top);
      MulMonotone(top, odd, max);
    }
  }

  lemma LeastMultiple(a: int, low: nat, r: int)
    requires r > 0 && r == a * low
    ensures r >= low
  {
    if a <= 0 {
      MulMonotone(a, 0, low);
    }
    MulMonotone(1, a, low);
  }

  /** The base and maximum every limiter is built with. */
  predicate Deployed(base: int, max: int) {
    || (base == 1 * SECOND && max == 5 * MINUTE)   // token endpoint, vendor calls, identities
    || (base == 5 * SECOND && max == 10 * MINUTE)  // the identity limiter's overflow bucket
  }

  lemma DeployedDelaysExact(base: int, max: int, n: nat)
    requires Deployed(base, max) && n >= 1
    ensures Delay(base, max, n) == Capped(base, max, n)
  {
    assert Pow2(9) == 512;
    if base == SECOND {
      SmallOddPart(base, 1_953_125, 9, max);
    } else {
      SmallOddPart(base, 9_765_625, 9, max);
    }
    AllDelaysExact(base, max);
  }

  /** The guard alone does not make the delay exact: this shift wraps to a small positive value. */
  lemma WrapPastTheGuard(base: int, max: int, n: nat)
    requires base == 0x1_0000_0001 && max == 0x2_0000_0000 && n == 33
    ensures Delay(base, max, n) == 0x1_0000_0000
    ensures Capped(base, max, n) == max
  {
    assert Pow2(8) == 256;
    Pow2Add(8, 8);
    Pow2Add(16, 16);
    Pow2Add(31, 1);
    DivModUnique(base, Pow2(31), 2, 1);
    MulMonotone(1, base, Pow2(32));
    ShiftedTo(base, 31);
    MulMonotone(2, base, Pow2(32));
  }

  lemma CappedGrows(base: int, max: int, n: nat)
    requires base > 0 && n >= 1
    ensures Capped(base, max, n) <= Capped(base, max, n + 1)
    ensures Capped(base, max, 1) == Min(base, max)
    ensures max >= 0 ==> Capped(base, max, n + 1) == Min(2 * Capped(base, max, n), max)
  {
    assert base * Pow2(n) == 2 * (base * Pow2(n - 1));
    assert Pow2(0) == 1;
  }

  lemma {:induction false} CappedStays(base: int, max: int, n: nat, m: nat)
    requires 0 < base && max >= 0 && 1 <= n <= m && Capped(base, max, n) == max
    ensures Capped(base, max, m) == max
    decreases m
  {
    if n < m {
      CappedStays(base, max, n, m - 1);
      CappedGrows(base, max, m - 1);
    }
  }

  /**
   The deployed schedules in nanoseconds: 1, 2, 4, ... 256 seconds and then five minutes
   for one identity; 5, 10, ... 320 seconds and then ten minutes for the overflow.
   */
  lemma DeployedSchedule(n: nat)
    requires n >= 1
    ensures Delay(1_000_000_000, 300_000_000_000, n)
         == if n <= 9 then 1_000_000_000 * Pow2(n - 1) else 300_000_000_000
    ensures Delay(5_000_000_000, 600_000_000_000, n)
         == if n <= 7 then 5_000_000_000 * Pow2(n - 1) else 600_000_000_000
    ensures Pow2(0) == 1 && Pow2(6) == 64 && Pow2(8) == 256
  {
    DeployedDelaysExact(1_000_000_000, 300_000_000_000, n);
    DeployedDelaysExact(5_000_000_000, 600_000_000_000, n);
    assert Pow2(6) == 64;
    assert Pow2(8) == 256 && Pow2(9) == 512;
    if n <= 9 {
      Pow2Monotone(n - 1, 8);
    } else {
      CappedStays(1_000_000_000, 300_000_000_000, 10, n);
    }
    if n <= 7 {
      Pow2Monotone(n - 1, 6);
    } else {
      CappedStays(5_000_000_000, 600_000_000_000, 8, n);
    }
  }

  lemma {:induction false} Pow2Monotone(a: nat, b: nat)
    requires a <= b
    ensures Pow2(a) <= Pow2(b)
    decreases b
  {
    if a < b {
      Pow2Monotone(a, b - 1);
    }
  }
}
