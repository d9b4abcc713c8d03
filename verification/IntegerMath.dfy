/** Integer arithmetic under the time estimators: ceiling division and the square root
    that rounds up, except just above a power of four.

    Models lib/MotorControl/src/MotionKinematics.cpp. Specification functions work on
    unbounded integers; the methods repeat the source's steps on 64-bit values, so each
    verified operation also shows that nothing overflows. */
module MachineInts {
  newtype int64 = x: int | -0x8000_0000_0000_0000 <= x < 0x8000_0000_0000_0000
  newtype uint32 = x: int | 0 <= x < 0x1_0000_0000

  const UINT32_RANGE: nat := 0x1_0000_0000
  const INT32_LIMIT: nat := 0x8000_0000
}

module IntegerMath {
  import opened MachineInts

  function Abs(x: int): nat {
    if x < 0 then -x else x
  }

  /** The least q with q * den >= num, for a positive divisor. */
  function CeilDiv(num: int, den: int): (q: int)
    ensures den > 0 && num >= 0 ==> q >= 0 && (q - 1) * den < num <= q * den
    ensures den <= 0 ==> q == 0
  {
    if den <= 0 then 0
    else if num >= 0 then
      assert num + den - 1 == den * ((num + den - 1) / den) + (num + den - 1) % den;
      (num + den - 1) / den
    else -((-num) / den)
  }

  lemma {:induction false} MulLe(x: int, y: int, k: nat)
    requires x <= y
    ensures x * k <= y * k
  {
  }

  lemma {:induction false} MulLt(x: int, y: int, k: nat)
    requires x < y && k > 0
    ensures x * k < y * k
  {
  }

  lemma {:induction false} LtFromMul(x: int, y: int, k: nat)
    requires x * k < y * k
    ensures x < y
  {
    if y <= x { MulLe(y, x, k); }
  }

  lemma {:induction false} LeastMultiple(num: nat, den: nat, q: int, k: int)
    requires (q - 1) * den < num <= q * den
    ensures num <= k * den <==> q <= k
  {
    if q <= k {
      MulLe(q, k, den);
    } else {
      MulLe(k, q - 1, den);
    }
  }

  lemma {:induction false} CeilDivMonotone(n1: nat, n2: nat, den: nat)
    requires n1 <= n2
    ensures CeilDiv(n1, den) <= CeilDiv(n2, den)
  {
    if den > 0 {
      CeilDivLeast(n1, den, CeilDiv(n2, den));
    }
  }

  /** Anything that multiplies up to at least num is at least the ceiling. */
  lemma {:induction false} CeilDivLeast(num: nat, den: nat, k: int)
    requires den > 0
    ensures num <= k * den <==> CeilDiv(num, den) <= k
  {
    LeastMultiple(num, den, CeilDiv(num, den), k);
  }

  lemma {:induction false} SquareLess(x: nat, y: nat)
    ensures x < y <==> x * x < y * y
  {
    if x < y {
      MulLe(x, y, x);
      MulLt(x, y, y);
    } else {
      MulLe(y, x, y);
      MulLe(y, x, x);
    }
  }

  // ---------------- integer square root ----------------

  predicate IsPow2(r: nat) {
    r == 1 || (r > 1 && r % 2 == 0 && IsPow2(r / 2))
  }

  /** The least argument whose computed root exceeds r: r*r + 1, except that the doubling
      loop stops one step early at a power of two and then r is kept up to r*r + r. */
  function RootLimit(r: nat): nat {
    r * r + (if IsPow2(r) then r else 1)
  }

  lemma SelfBelowLimit(n: nat)
    ensures n < RootLimit(n)
  {
    if n > 0 { MulLe(1, n, n); }
  }

  function RootFrom(n: nat, r: nat): (s: nat)
    requires r <= n && (r > 0 ==> RootLimit(r - 1) <= n)
    ensures n < RootLimit(s) && (s > 0 ==> RootLimit(s - 1) <= n)
    decreases n - r
  {
    if n < RootLimit(r) then r
    else
      SelfBelowLimit(n);
      RootFrom(n, r + 1)
  }

  /** What isqrt_ceil computes, as the least r whose limit lies above n. */
  function Root(n: nat): (r: nat)
    ensures n < RootLimit(r) && (r > 0 ==> RootLimit(r - 1) <= n)
  {
    RootFrom(n, 0)
  }

  lemma {:induction false} RootLimitIncreases(r: nat, s: nat)
    requires r < s
    ensures RootLimit(r) < RootLimit(s)
  {
    assert (r + 1) * (r + 1) <= s * s by { if r + 1 < s { SquareLess(r + 1, s); } }
    assert (r + 1) * (r + 1) == r * r + 2 * r + 1;
  }

  lemma {:induction false} RootUnique(n: nat, r: nat)
    requires n < RootLimit(r)
    requires r > 0 ==> RootLimit(r - 1) <= n
    ensures r == Root(n)
  {
    var s := Root(n);
    if r < s {
      if r < s - 1 { RootLimitIncreases(r, s - 1); }
    } else if s < r {
      if s < r - 1 { RootLimitIncreases(s, r - 1); }
    }
  }

  lemma {:induction false} RootMonotone(n1: nat, n2: nat)
    requires n1 <= n2
    ensures Root(n1) <= Root(n2)
  {
    var r1, r2 := Root(n1), Root(n2);
    if r1 > r2 && r2 < r1 - 1 {
      RootLimitIncreases(r2, r1 - 1);
    }
  }

  /** The bracket that every computed root satisfies. */
  lemma {:induction false} RootBracket(n: nat)
    requires n >= 1
    ensures Root(n) >= 1
    ensures (Root(n) - 1) * (Root(n) - 1) < n < Root(n) * Root(n) + Root(n)
  {
    var r := Root(n);
    if r == 1 { assert RootLimit(0) == 1; }
    if r > 1 && !IsPow2(r) { assert n < r * r + 1; }
  }

  /** n lies strictly between 4^k and 4^k + 2^k, for the power of two p = 2^k. */
  predicate InGap(n: nat, p: nat) {
    IsPow2(p) && p * p < n < p * p + p
  }

  ghost predicate LeastRoot(n: nat, r: nat) {
    n <= r * r && (r > 0 ==> (r - 1) * (r - 1) < n)
  }

  /** The computed root is the exact least root unless n is in one of the gaps; there it is
      one short, contrary to the comment in the source. */
  lemma {:induction false} RootExactIff(n: nat)
    requires n >= 1
    ensures LeastRoot(n, Root(n)) <==> !(exists p: nat :: InGap(n, p))
    ensures forall p: nat :: InGap(n, p) ==> Root(n) == p && LeastRoot(n, Root(n) + 1)
  {
    var r := Root(n);
    RootBracket(n);
    forall p: nat | InGap(n, p)
      ensures r == p && LeastRoot(n, r + 1) && !LeastRoot(n, r)
    {
      assert RootLimit(p - 1) <= n by { RootLimitIncreases(p - 1, p); assert RootLimit(p - 1) <= (p - 1) * (p - 1) + p <= p * p; }
      RootUnique(n, p);
      assert (p + 1) * (p + 1) == p * p + 2 * p + 1;
    }
    if !LeastRoot(n, r) {
      assert InGap(n, r);
    }
  }

  lemma Pow2Between(p: nat, m: nat)
    requires IsPow2(p) && IsPow2(m) && p <= m < 2 * p
    ensures m == p
    decreases p
  {
    if p > 1 { Pow2Between(p / 2, m / 2); }
  }

  /** The doubling loop ends at a power of two x1 whose limit lies above n, with everything
      below x0 (half of x1, or 0) ruled out. */
  ghost predicate Doubled(n: nat, x0: nat, x1: nat) {
    && IsPow2(x1)
    && (if x0 == 0 then x1 == 1 else IsPow2(x0) && x1 == 2 * x0)
    && x0 * x0 + x0 <= n
  }

  /** lo and hi bracket the answer. */
  ghost predicate Bracketed(n: nat, lo: nat, hi: nat) {
    && lo <= hi
    && (lo > 0 ==> RootLimit(lo - 1) <= n)
    && n < RootLimit(hi)
  }

  /** isqrt_ceil: doubling for an upper bound, then binary search. The bound on n is where the
      square of a midpoint starts to overflow. */
  method IsqrtCeil(n: int64) returns (r: int64)
    requires n < 0x4000_0000_8000_0000
    ensures n <= 0 ==> r == 0
    ensures n > 0 ==> r >= 1 && r as int == Root(n as int)
  {
    if n <= 0 {
      return 0;
    }
    ghost var m: nat := n as int;
    var x0: int64, x1: int64 := 0, 1;
    while x1 < n / x1
      invariant x0 >= 0 && x1 >= 1 && Doubled(m, x0 as int, x1 as int)
      decreases m - x0 as int
    {
      DoubledStep(m, x0 as int, x1 as int);
      x0 := x1;
      x1 := x1 * 2;
    }
    DoubledEnd(m, x0 as int, x1 as int);
    var lo: int64, hi: int64 := x0, x1;
    while lo < hi
      invariant x0 <= lo <= hi <= x1 && Bracketed(m, lo as int, hi as int)
      decreases hi as int - lo as int
    {
      var mid := lo + (hi - lo) / 2;
      if mid == 0 {
        lo := 1;
        continue;
      }
      MidStep(m, x0 as int, x1 as int, mid as int);
      var sq := mid * mid;
      if sq >= n {
        hi := mid;
      } else {
        lo := mid + 1;
      }
    }
    RootUnique(m, lo as int);
    RootBracket(m);
    r := lo;
  }

  lemma {:induction false} DoubledStep(n: nat, x0: nat, x1: nat)
    requires n < 0x4000_0000_8000_0000
    requires Doubled(n, x0, x1) && x1 < n / x1
    ensures Doubled(n, x1, 2 * x1) && x0 < x1 <= n && 2 * x1 < 0x1_0000_0000
  {
    DivisionStep(n, x1);
    BelowHalfRange(n, x1);
  }

  lemma {:induction false} BelowHalfRange(n: nat, x: nat)
    requires x * x + x <= n < 0x4000_0000_8000_0000
    ensures x < 0x8000_0000
  {
    SquareLess(x, 0x8000_0000);
  }

  lemma {:induction false} Pow2Product(p: nat, q: nat)
    requires IsPow2(p) && IsPow2(q)
    ensures IsPow2(p * q)
    decreases p
  {
    if p > 1 {
      Pow2Product(p / 2, q);
      assert p * q == 2 * ((p / 2) * q);
    }
  }

  lemma Pow2Thirty()
    ensures IsPow2(0x4000_0000) && IsPow2(0x8000_0000)
  {
    assert IsPow2(2) && IsPow2(4) && IsPow2(8) && IsPow2(16) && IsPow2(32);
    Pow2Product(32, 32);
    Pow2Product(1024, 32);
    Pow2Product(32768, 32768);
    Pow2Product(2, 0x4000_0000);
  }

  /** From the bound on, the doubling loop goes one step too far: it stops at 2^32, and the
      square of the first midpoint does not fit in 64 bits. */
  lemma {:induction false} IsqrtOverflowsAbove(n: nat)
    requires 0x4000_0000_8000_0000 <= n < 0x8000_0000_0000_0000
    ensures Doubled(n, 0x8000_0000, 0x1_0000_0000)
    ensures 0x8000_0000 < n / 0x8000_0000 && n / 0x1_0000_0000 <= 0x1_0000_0000
    ensures var mid := 0x8000_0000 + (0x1_0000_0000 - 0x8000_0000) / 2; mid * mid >= 0x8000_0000_0000_0000
  {
    Pow2Thirty();
    Pow2Product(2, 0x8000_0000);
  }

  lemma {:induction false} DoubledEnd(n: nat, x0: nat, x1: nat)
    requires Doubled(n, x0, x1) && x1 >= n / x1
    ensures Bracketed(n, x0, x1)
  {
    assert n == (n / x1) * x1 + n % x1;
    MulLe(n / x1, x1, x1);
    if x0 > 0 { RootLimitIncreases(x0 - 1, x0); }
  }

  lemma {:induction false} MidStep(n: nat, x0: nat, x1: nat, mid: nat)
    requires n < 0x4000_0000_8000_0000
    requires Doubled(n, x0, x1) && x0 <= mid < x1 && 0 < mid
    ensures mid * mid < 0x8000_0000_0000_0000
    ensures if mid * mid >= n then n < RootLimit(mid) else RootLimit(mid) <= n
  {
    SquareLess(mid, 2 * x0);
    assert (2 * x0) * (2 * x0) == 4 * (x0 * x0);
    if x0 > 0 {
      BelowHalfRange(n, x0);
      Pow2Thirty();
      if x0 > 0x4000_0000 { Pow2Between(0x4000_0000, x0); }
      SquareLess(x0, 0x4000_0001);
    }
    if IsPow2(mid) { Pow2Between(x0, mid); }
  }

  lemma {:induction false} DivisionStep(n: nat, x: nat)
    requires x >= 1 && x < n / x
    ensures x * x + x <= n
  {
    assert n == (n / x) * x + n % x;
    MulLe(x + 1, n / x, x);
  }
}
