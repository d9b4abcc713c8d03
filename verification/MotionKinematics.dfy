/** The move and HOME duration estimates, in milliseconds. */
module MotionKinematics {
  import opened MachineInts
  import opened IntegerMath

  /** Speeds and accelerations at or below zero count as 1. */
  function AtLeastOne(x: int): nat {
    if x <= 0 then 1 else x
  }

  // ---------------- symmetric profile ----------------

  /** Distance from which the top speed v is reached. */
  function RampDistance(v: nat, a: nat): nat
    requires v > 0 && a > 0
  {
    CeilDiv(v * v, a)
  }

  function TrapezoidTime(d: nat, v: nat, a: nat): nat
    requires v > 0 && a > 0
  {
    CeilDiv(d * 1000, v) + CeilDiv(v * 1000, a)
  }

  function TriangleTime(d: nat, a: nat): nat
    requires a > 0
  {
    2 * Root(CeilDiv(d * 1000000, a))
  }

  /** estimateMoveTimeMs before its result is cut to 32 bits. */
  function MoveTime(distance: int, speed: int, accel: int): nat {
    var d, v, a := Abs(distance), AtLeastOne(speed), AtLeastOne(accel);
    if d == 0 then 0
    else if d >= RampDistance(v, a) then TrapezoidTime(d, v, a)
    else TriangleTime(d, a)
  }

  // ---------------- products, free of division ----------------

  lemma {:induction false} RootBelowRampTime(d: nat, v: nat, a: nat, s: nat, q: nat)
    requires a > 0 && s >= 1
    requires (s - 1) * (s - 1) * a < d * 1000000 && d * a < v * v && v * 1000 <= q * a
    ensures s <= q
  {
    var x, y := s - 1, v * 1000;
    calc {
      (x * a) * (x * a);
      (x * x * a) * a;
    <= { MulLe(x * x * a, d * 1000000, a); }
      (d * 1000000) * a;
      1000000 * (d * a);
    <
      1000000 * (v * v);
      y * y;
    }
    SquareLess(x * a, y);
    LtFromMul(x, q, a);
  }

  lemma {:induction false} CruiseCoversRamp(d: nat, v: nat, a: nat, k: nat)
    requires v > 0 && v * v <= d * a && d * 1000 <= k * v
    ensures v * 1000 <= k * a
  {
    calc {
      (v * 1000) * v;
      1000 * (v * v);
    <=
      1000 * (d * a);
      (d * 1000) * a;
    <= { MulLe(d * 1000, k * v, a); }
      (k * v) * a;
      (k * a) * v;
    <
      (k * a + 1) * v;
    }
    LtFromMul(v * 1000, k * a + 1, v);
  }

  lemma {:induction false} TriangleCoversCruise(d: nat, v: nat, a: nat, t: nat)
    requires d > 0 && v > 0 && a > 0 && t >= 2 && d * a < v * v
    requires 4000000 * d < (t + 1) * (t + 1) * a
    ensures d * 1000 <= t * v
  {
    var y, x := (t + 1) * v, 2000 * d;
    calc {
      (x * x) * a;
      (4000000 * d) * (d * a);
    < { MulLt(d * a, v * v, 4000000 * d); }
      (v * v) * (4000000 * d);
    < { MulLt(4000000 * d, (t + 1) * (t + 1) * a, v * v); }
      ((t + 1) * (t + 1) * a) * (v * v);
      (y * y) * a;
    }
    LtFromMul(x * x, y * y, a);
    SquareLess(x, y);
    assert y == t * v + v;
    MulLe(2, t, v);
  }

  lemma {:induction false} RootAtMostDistance(d: nat, a: nat, s: nat)
    requires d > 0 && a > 0 && s >= 1 && (s - 1) * (s - 1) * a < d * 1000000
    ensures s <= 1000 * d
  {
    MulLe(1, a, (s - 1) * (s - 1));
    MulLe(1, d, 1000000 * d);
    assert (1000 * d) * (1000 * d) == 1000000 * d * d;
    SquareLess(s - 1, 1000 * d);
  }

  lemma {:induction false} ScaleBracket(m: nat, a: nat, n: nat, lo: nat, hi: nat)
    requires a > 0 && (n - 1) * a < m <= n * a && lo < n < hi
    ensures lo * a < m < hi * a
  {
    MulLe(lo, n - 1, a);
    MulLt(n, hi, a);
  }

  lemma {:induction false} TwiceRoot(d: nat, a: nat, s: nat)
    requires a > 0 && s >= 1 && (s - 1) * (s - 1) * a < d * 1000000 < (s * s + s) * a
    ensures var t := 2 * s; (t - 2) * (t - 2) * a < 4000000 * d < (t + 1) * (t + 1) * a
  {
    var t := 2 * s;
    calc {
      (t - 2) * (t - 2) * a;
      (4 * ((s - 1) * (s - 1))) * a;
      4 * ((s - 1) * (s - 1) * a);
    }
    calc {
      4 * ((s * s + s) * a);
      (4 * (s * s + s)) * a;
    <= { MulLe(4 * (s * s + s), (t + 1) * (t + 1), a); }
      (t + 1) * (t + 1) * a;
    }
  }

  // ---------------- properties of the symmetric estimate ----------------

  lemma {:induction false} TriangleBelowRamp(d: nat, v: nat, a: nat)
    requires v > 0 && a > 0 && 0 < d < RampDistance(v, a)
    ensures d * a < v * v
    ensures Root(CeilDiv(d * 1000000, a)) <= CeilDiv(v * 1000, a)
  {
    CeilDivLeast(v * v, a, d);
    TriangleRoot(d, a);
    RootBelowRampTime(d, v, a, Root(CeilDiv(d * 1000000, a)), CeilDiv(v * 1000, a));
  }

  lemma {:induction false} BracketMul(n: nat, r: nat, a: nat, m: nat)
    requires a > 0 && r >= 1 && (n - 1) * a < m <= n * a && (r - 1) * (r - 1) < n < r * r + r
    ensures (r - 1) * (r - 1) * a < m < (r * r + r) * a
  {
    ScaleBracket(m, a, n, (r - 1) * (r - 1), r * r + r);
  }

  lemma {:induction false} RootScaled(m: nat, a: nat)
    requires m > 0 && a > 0
    ensures var s := Root(CeilDiv(m, a)); s >= 1 && (s - 1) * (s - 1) * a < m < (s * s + s) * a
  {
    hide Root;
    var n := CeilDiv(m, a);
    CeilDivLeast(m, a, 0);
    RootBracket(n);
    BracketMul(n, Root(n), a, m);
  }

  /** The root s taken by the triangular profile, freed of its ceiling. */
  lemma {:induction false} TriangleRoot(d: nat, a: nat)
    requires d > 0 && a > 0
    ensures var s := Root(CeilDiv(d * 1000000, a));
      && s >= 1
      && (s - 1) * (s - 1) * a < d * 1000000 < (s * s + s) * a
  {
    hide *;
    RootScaled(d * 1000000, a);
  }

  lemma {:induction false} RampIsLongEnough(d: nat, v: nat, a: nat)
    requires v > 0 && a > 0 && d >= RampDistance(v, a)
    ensures v * v <= d * a
    ensures CeilDiv(v * 1000, a) <= CeilDiv(d * 1000, v)
  {
    CeilDivLeast(v * v, a, d);
    var k := CeilDiv(d * 1000, v);
    CruiseCoversRamp(d, v, a, k);
    CeilDivLeast(v * 1000, a, k);
  }

  /** The symmetric estimate never decreases with distance, also across the rounded
      threshold between the two profiles. */
  lemma {:induction false} MoveTimeMonotone(d1: int, d2: int, speed: int, accel: int)
    requires Abs(d1) <= Abs(d2)
    ensures MoveTime(d1, speed, accel) <= MoveTime(d2, speed, accel)
  {
    var x, y, v, a := Abs(d1), Abs(d2), AtLeastOne(speed), AtLeastOne(accel);
    if x > 0 {
      if y < RampDistance(v, a) {
        CeilDivMonotone(x * 1000000, y * 1000000, a);
        RootMonotone(CeilDiv(x * 1000000, a), CeilDiv(y * 1000000, a));
      } else if x < RampDistance(v, a) {
        TriangleBelowRamp(x, v, a);
        RampIsLongEnough(y, v, a);
      } else {
        CeilDivMonotone(x * 1000, y * 1000, v);
      }
    }
  }

  /** A triangular estimate brackets the true duration 2 * sqrt(d / a), scaled to
      milliseconds, between one above and two below. */
  lemma {:induction false} TriangleBracket(d: nat, a: nat)
    requires d > 0 && a > 0
    ensures var t := TriangleTime(d, a);
      && t >= 2
      && (t - 2) * (t - 2) * a < 4000000 * d < (t + 1) * (t + 1) * a
  {
    TriangleRoot(d, a);
    TwiceRoot(d, a, Root(CeilDiv(d * 1000000, a)));
  }

  /** The symmetric estimate is never below the time at top speed all the way. */
  lemma {:induction false} MoveTimeAtLeastCruise(distance: int, speed: int, accel: int)
    ensures MoveTime(distance, speed, accel) >= CeilDiv(Abs(distance) * 1000, AtLeastOne(speed))
  {
    var d, v, a := Abs(distance), AtLeastOne(speed), AtLeastOne(accel);
    if 0 < d < RampDistance(v, a) {
      TriangleBracket(d, a);
      TriangleBelowRamp(d, v, a);
      TriangleCoversCruise(d, v, a, TriangleTime(d, a));
      CeilDivLeast(d * 1000, v, TriangleTime(d, a));
    }
  }

  /** A cap that a caller can check without running the estimate. */
  lemma {:induction false} MoveTimeAtMost(distance: int, speed: int, accel: int)
    ensures MoveTime(distance, speed, accel) <= 2000 * Abs(distance)
  {
    var d, v, a := Abs(distance), AtLeastOne(speed), AtLeastOne(accel);
    if d == 0 {
    } else if d >= RampDistance(v, a) {
      RampIsLongEnough(d, v, a);
      MulLe(1, v, 1000 * d);
      CeilDivLeast(d * 1000, v, 1000 * d);
    } else {
      TriangleRoot(d, a);
      RootAtMostDistance(d, a, Root(CeilDiv(d * 1000000, a)));
    }
  }

  lemma {:induction false} MoveTimeZeroIff(distance: int, speed: int, accel: int)
    ensures MoveTime(distance, speed, accel) == 0 <==> distance == 0
  {
    if distance != 0 {
      MoveTimeAtLeastCruise(distance, speed, accel);
      CeilDivLeast(Abs(distance) * 1000, AtLeastOne(speed), 0);
    }
  }

  /** At one step a second and one step a second squared. */
  lemma {:induction false} UnitRate(d: nat)
    requires d > 0
    ensures MoveTime(d, 1, 1) == 1000 * d + 1000
  {
    CeilDivLeast(1, 1, 1);
    CeilDivLeast(d * 1000, 1, d * 1000);
    CeilDivLeast(1000, 1, 1000);
  }

  // ---------------- asymmetric profile ----------------

  /** A negative deceleration means no ramp down, like 0. */
  function Ramp(decel: int): nat {
    if decel < 0 then 0 else decel
  }

  function AsymRampDistance(v: nat, up: nat, down: nat): nat
    requires up > 0
  {
    CeilDiv(v * v, 2 * up) + (if down > 0 then CeilDiv(v * v, 2 * down) else 0)
  }

  function AsymTrapezoidTime(d: nat, v: nat, up: nat, down: nat): nat
    requires v > 0 && up > 0
  {
    CeilDiv(d * 1000, v) + CeilDiv(v * 1000, 2 * up) + (if down > 0 then CeilDiv(v * 1000, 2 * down) else 0)
  }

  /** The square of the triangular duration in milliseconds, rounded up. */
  function AsymTriangleSquare(d: nat, up: nat, down: nat): nat
    requires up > 0
  {
    if down == 0 then CeilDiv(2 * d * 1000000, up)
    else
      MulPositive(up, down);
      CeilDiv(2 * d * (up + down) * 1000000, up * down)
  }

  /** estimateMoveTimeMsAsym before its result is cut to 32 bits. */
  function AsymMoveTime(distance: int, speed: int, accelUp: int, decelDown: int): nat {
    var d, v, up, down := Abs(distance), AtLeastOne(speed), AtLeastOne(accelUp), Ramp(decelDown);
    if d == 0 then 0
    else if d >= AsymRampDistance(v, up, down) then AsymTrapezoidTime(d, v, up, down)
    else Root(AsymTriangleSquare(d, up, down))
  }

  lemma {:induction false} MulPositive(x: nat, y: nat)
    requires x > 0 && y > 0
    ensures x * y > 0
  {
  }

  lemma {:induction false} CancelSpeed(v: nat, m: nat, n: nat, x: nat, k: nat)
    requires v > 0 && m <= x * v && v * n <= k
    ensures m * n <= x * k
  {
    MulLe(m, x * v, n);
    MulLe(v * n, k, x);
    assert (x * v) * n == (v * n) * x;
  }

  /** AM-GM on integers: (x + y)^2 >= 4 x y, with x the cruise time and y the ramp times. */
  lemma {:induction false} CruisePlusRampSquared(d: nat, v: nat, num: nat, den: nat, x: nat, y: nat)
    requires v > 0 && d * 1000 <= x * v && v * 1000 * num <= 2 * y * den
    ensures 2 * d * num * 1000000 <= (x + y) * (x + y) * den
  {
    CancelSpeed(v, d * 1000, 1000 * num, x, 2 * y * den);
    assert (d * 1000) * (1000 * num) == d * num * 1000000;
    FourProducts(x, y);
    MulLe(4 * (x * y), (x + y) * (x + y), den);
    assert 2 * (x * (2 * y * den)) == (4 * (x * y)) * den;
  }

  lemma {:induction false} FourProducts(x: nat, y: nat)
    ensures 4 * (x * y) <= (x + y) * (x + y)
  {
    var z := if x <= y then y - x else x - y;
    assert (x + y) * (x + y) == z * z + 4 * (x * y);
  }

  /** The two ramp times over a common denominator. */
  lemma {:induction false} RampTimesAdd(v: nat, up: nat, down: nat, p: nat, q: nat)
    requires v * 1000 <= p * (2 * up) && v * 1000 <= q * (2 * down)
    ensures v * 1000 * (up + down) <= 2 * (p + q) * (up * down)
  {
    calc {
      v * 1000 * (up + down);
      (v * 1000) * down + (v * 1000) * up;
    <= { MulLe(v * 1000, p * (2 * up), down); MulLe(v * 1000, q * (2 * down), up); }
      p * (2 * up) * down + q * (2 * down) * up;
      2 * (p * (up * down)) + 2 * (q * (up * down));
      2 * (p + q) * (up * down);
    }
  }

  /** The trapezoidal time, squared, dominates the triangular square at the same distance. */
  lemma {:induction false} TrapezoidCoversTriangle(d: nat, v: nat, up: nat, down: nat)
    requires v > 0 && up > 0
    ensures var w := AsymTrapezoidTime(d, v, up, down); AsymTriangleSquare(d, up, down) <= w * w
  {
    var x, p := CeilDiv(d * 1000, v), CeilDiv(v * 1000, 2 * up);
    if down == 0 {
      assert v * 1000 * 1 <= 2 * p * up;
      CruisePlusRampSquared(d, v, 1, up, x, p);
      CeilDivLeast(2 * d * 1000000, up, (x + p) * (x + p));
    } else {
      var q := CeilDiv(v * 1000, 2 * down);
      hide CeilDiv;
      RampTimesAdd(v, up, down, p, q);
      CruisePlusRampSquared(d, v, up + down, up * down, x, p + q);
      MulPositive(up, down);
      CeilDivLeast(2 * d * (up + down) * 1000000, up * down, (x + (p + q)) * (x + (p + q)));
    }
  }

  lemma {:induction false} TriangleSquareMonotone(d1: nat, d2: nat, up: nat, down: nat)
    requires d1 <= d2 && up > 0
    ensures AsymTriangleSquare(d1, up, down) <= AsymTriangleSquare(d2, up, down)
  {
    if down == 0 {
      CeilDivMonotone(2 * d1 * 1000000, 2 * d2 * 1000000, up);
    } else {
      MulLe(d1, d2, 2 * (up + down) * 1000000);
      CeilDivMonotone(2 * d1 * (up + down) * 1000000, 2 * d2 * (up + down) * 1000000, up * down);
    }
  }

  /** A computed root never exceeds a number whose square is large enough. */
  lemma {:induction false} RootAtMost(n: nat, w: nat)
    requires n <= w * w
    ensures Root(n) <= w
  {
    if n > 0 {
      RootBracket(n);
      SquareLess(Root(n) - 1, w);
    } else {
      RootUnique(0, 0);
    }
  }

  /** The asymmetric estimate never decreases with distance, for every deceleration. */
  lemma {:induction false} AsymMoveTimeMonotone(d1: int, d2: int, speed: int, accelUp: int, decelDown: int)
    requires Abs(d1) <= Abs(d2)
    ensures AsymMoveTime(d1, speed, accelUp, decelDown) <= AsymMoveTime(d2, speed, accelUp, decelDown)
  {
    var x, y, v, up, down := Abs(d1), Abs(d2), AtLeastOne(speed), AtLeastOne(accelUp), Ramp(decelDown);
    if x > 0 {
      var threshold := AsymRampDistance(v, up, down);
      TriangleSquareMonotone(x, y, up, down);
      if y < threshold {
        RootMonotone(AsymTriangleSquare(x, up, down), AsymTriangleSquare(y, up, down));
      } else if x < threshold {
        TrapezoidCoversTriangle(y, v, up, down);
        RootAtMost(AsymTriangleSquare(x, up, down), AsymTrapezoidTime(y, v, up, down));
      } else {
        CeilDivMonotone(x * 1000, y * 1000, v);
      }
    }
  }

  /** The computed root reaches k exactly when the argument reaches the limit below k. */
  lemma {:induction false} RootAtLeastIff(n: nat, k: nat)
    requires k >= 1
    ensures Root(n) >= k <==> RootLimit(k - 1) <= n
  {
    var r := Root(n);
    if r >= k {
      if r > k { RootLimitIncreases(k - 1, r - 1); }
    } else if r < k - 1 {
      RootLimitIncreases(r, k - 1);
    }
  }

  lemma {:induction false} RootLimitAtMost(r: nat)
    ensures RootLimit(r) <= (if r == 0 then 1 else r * r + r)
  {
  }

  lemma {:induction false} ProductSquared(x: nat, v: nat, c: nat)
    requires x * v < c
    ensures (x * x) * (v * v) < c * c
  {
    SquareLess(x * v, c);
    assert (x * v) * (x * v) == (x * x) * (v * v);
  }

  lemma {:induction false} TwiceBelow(x: nat, w: nat, c: nat, n: nat)
    requires x * w < c && 2 * c <= n * w
    ensures 2 * x < n
  {
    LtFromMul(2 * x, n, w);
  }

  lemma SquareCoversSelf(x: nat)
    requires x >= 1
    ensures x <= x * x
  {
    MulLe(1, x, x);
  }

  /** A square that is four times what the cruise time asks for, up to rounding, reaches it. */
  lemma {:induction false} CruiseReached(d: nat, v: nat, k: nat, n: nat)
    requires v > 0 && n >= 1 && k >= 1 && (k - 1) * v < d * 1000
    requires k > 1 ==> 2000000 * (d * d) <= n * (v * v)
    ensures RootLimit(k - 1) <= n
  {
    var x := k - 1;
    RootLimitAtMost(x);
    hide *;
    if x >= 1 { CruiseSquared(d, v, x, n); }
  }

  lemma {:induction false} CruiseSquared(d: nat, v: nat, x: nat, n: nat)
    requires v > 0 && x >= 1 && x * v < d * 1000 && 2000000 * (d * d) <= n * (v * v)
    ensures x * x + x <= n
  {
    ProductSquared(x, v, d * 1000);
    assert (d * 1000) * (d * 1000) == 1000000 * (d * d);
    TwiceBelow(x * x, v * v, 1000000 * (d * d), n);
    SquareCoversSelf(x);
  }

  /** One ramp: below the threshold the square covers the cruise time. */
  lemma {:induction false} OneRampReached(d: nat, v: nat, up: nat, n: nat)
    requires d > 0 && v > 0 && up > 0 && 2 * (d * up) < v * v && 2 * d * 1000000 <= n * up
    ensures 2000000 * (d * d) <= n * (v * v)
  {
    MulLe(2 * (d * up), v * v, n);
    assert n * (2 * (d * up)) == 2 * d * (n * up);
    MulLe(2 * d * 1000000, n * up, 2 * d);
    assert (2 * d * 1000000) * (2 * d) == 4000000 * (d * d);
  }

  lemma {:induction false} MulCancel(x: nat, y: nat, k: nat)
    requires k > 0 && x * k <= y * k
    ensures x <= y
  {
    if y < x { MulLt(y, x, k); }
  }

  lemma {:induction false} Shuffle(a: nat, b: nat, s: nat, p: nat)
    ensures (a * b) * (s * p) == (a * s) * (b * p)
  {
    assert a * b * s == a * s * b;
  }

  /** Two bounds with their factors crossed multiply to one without them. */
  lemma {:induction false} CrossCancel(a: nat, b: nat, n: nat, w: nat, s: nat, p: nat)
    requires s > 0 && p > 0 && a * s <= n * p && b * p <= w * s
    ensures a * b <= n * w
  {
    MulLe(a * s, n * p, b * p);
    MulLe(b * p, w * s, n * p);
    Shuffle(a, b, s, p);
    Shuffle(n, w, p, s);
    MulPositive(s, p);
    MulCancel(a * b, n * w, s * p);
  }

  lemma {:induction false} TwiceOneLess(d: nat)
    requires d >= 2
    ensures 2000000 * (d * d) <= (2000000 * d) * (2 * (d - 1))
  {
    MulLe(d, 2 * (d - 1), 2000000 * d);
  }

  /** Two ramps, from two steps on: the threshold is rounded up twice. */
  lemma {:induction false} TwoRampsReached(d: nat, v: nat, sum: nat, product: nat, n: nat)
    requires d >= 2 && sum > 0 && product > 0
    requires 2 * ((d - 1) * product) < v * v * sum && 2 * d * sum * 1000000 <= n * product
    ensures 2000000 * (d * d) <= n * (v * v)
  {
    var a, b := 2000000 * d, 2 * (d - 1);
    assert a * sum == 2 * d * sum * 1000000 by { Shuffle(2000000, d, 1, sum); }
    assert b * product == 2 * ((d - 1) * product);
    CrossCancel(a, b, n, v * v, sum, product);
    TwiceOneLess(d);
  }

  lemma {:induction false} RampTerm(p: nat, x: nat, y: nat, w: nat)
    requires p * (2 * x) < w && y > 0
    ensures 2 * (p * (x * y)) < w * y
  {
    MulLt(p * (2 * x), w, y);
    assert (p * (2 * x)) * y == 2 * (p * (x * y));
  }

  lemma {:induction false} RampTerms(p: nat, q: nat, x: nat, y: nat, w: nat)
    requires p * (2 * x) < w && q * (2 * y) < w && x > 0 && y > 0
    ensures 2 * ((p + q) * (x * y)) < w * (x + y)
  {
    RampTerm(p, x, y, w);
    RampTerm(q, y, x, w);
    assert y * x == x * y;
    assert (p + q) * (x * y) == p * (x * y) + q * (x * y);
    assert w * (x + y) == w * y + w * x;
  }

  /** The rounded threshold of two ramps, one step short. */
  lemma {:induction false} BelowTwoRamps(d: nat, v: nat, up: nat, down: nat)
    requires v > 0 && up > 0 && down > 0 && 2 <= d < AsymRampDistance(v, up, down)
    ensures 2 * ((d - 1) * (up * down)) < v * v * (up + down)
  {
    var p, q := CeilDiv(v * v, 2 * up), CeilDiv(v * v, 2 * down);
    MulPositive(v, v);
    CeilDivLeast(v * v, 2 * up, 0);
    CeilDivLeast(v * v, 2 * down, 0);
    assert (p - 1) * (2 * up) < v * v && (q - 1) * (2 * down) < v * v;
    hide CeilDiv;
    RampTerms(p - 1, q - 1, up, down, v * v);
    MulLe(d - 1, p + q - 2, up * down);
  }

  lemma {:induction false} OneRampCovers(d: nat, v: nat, up: nat)
    requires v > 0 && up > 0 && 0 < d < AsymRampDistance(v, up, 0)
    ensures var n := AsymTriangleSquare(d, up, 0); n >= 1 && 2000000 * (d * d) <= n * (v * v)
  {
    CeilDivLeast(v * v, 2 * up, d);
    CeilDivLeast(2 * d * 1000000, up, 0);
    assert d * (2 * up) == 2 * (d * up);
    var n := AsymTriangleSquare(d, up, 0);
    assert 2 * d * 1000000 <= n * up;
    hide CeilDiv;
    OneRampReached(d, v, up, n);
  }

  lemma {:induction false} TwoRampsCover(d: nat, v: nat, up: nat, down: nat)
    requires v > 0 && up > 0 && down > 0 && 1 < d < AsymRampDistance(v, up, down)
    ensures var n := AsymTriangleSquare(d, up, down); n >= 1 && 2000000 * (d * d) <= n * (v * v)
  {
    BelowTwoRamps(d, v, up, down);
    MulPositive(up, down);
    MulPositive(2 * d * 1000000, up + down);
    var num, n := 2 * d * (up + down) * 1000000, AsymTriangleSquare(d, up, down);
    assert num > 0;
    CeilDivLeast(num, up * down, 0);
    assert num <= n * (up * down);
    hide CeilDiv, AsymRampDistance, AsymTriangleSquare;
    TwoRampsReached(d, v, up + down, up * down, n);
  }

  /** The triangular square covers the cruise time, except for one step with a ramp down. */
  lemma {:induction false} AsymTriangleReaches(d: nat, v: nat, up: nat, down: nat)
    requires v > 0 && up > 0 && 0 < d < AsymRampDistance(v, up, down) && (d > 1 || down == 0)
    ensures CeilDiv(d * 1000, v) >= 1
    ensures RootLimit(CeilDiv(d * 1000, v) - 1) <= AsymTriangleSquare(d, up, down)
  {
    CeilDivLeast(d * 1000, v, 0);
    if down == 0 {
      OneRampCovers(d, v, up);
    } else {
      TwoRampsCover(d, v, up, down);
    }
    hide AsymTriangleSquare;
    CruiseReached(d, v, CeilDiv(d * 1000, v), AsymTriangleSquare(d, up, down));
  }

  /** A single step with a ramp down, where the two rounded ramps hide the top speed. */
  predicate OneStepTooFast(distance: int, speed: int, accelUp: int, decelDown: int) {
    Abs(distance) == 1 && decelDown > 0 &&
    AsymTriangleSquare(1, AtLeastOne(accelUp), decelDown) < RootLimit(CeilDiv(1000, AtLeastOne(speed)) - 1)
  }

  /** Unlike the symmetric estimate, the asymmetric one can fall below the time at top speed,
      and this is exactly when: for one step, with a ramp down, whose triangular square stays
      below the limit of that time. */
  lemma {:induction false} AsymAtLeastCruiseIff(distance: int, speed: int, accelUp: int, decelDown: int)
    ensures CeilDiv(1000, AtLeastOne(speed)) >= 1
    ensures AsymMoveTime(distance, speed, accelUp, decelDown) >= CeilDiv(Abs(distance) * 1000, AtLeastOne(speed))
       <==> !OneStepTooFast(distance, speed, accelUp, decelDown)
  {
    var d, v, up, down := Abs(distance), AtLeastOne(speed), AtLeastOne(accelUp), Ramp(decelDown);
    CeilDivLeast(1000, v, 0);
    hide AsymTriangleSquare, RootLimit, CeilDiv, AsymRampDistance, AsymTrapezoidTime, Root;
    if d == 0 {
      CeilDivLeast(0, v, 0);
    } else if d < AsymRampDistance(v, up, down) {
      TriangleAtLeastCruiseIff(d, v, up, down);
    } else {
      TrapezoidAtLeastCruise(d, v, up, down);
      if down > 0 { TwoRampsOutlastOneStep(v, up, down); }
    }
  }

  lemma TrapezoidAtLeastCruise(d: nat, v: nat, up: nat, down: nat)
    requires v > 0 && up > 0
    ensures AsymTrapezoidTime(d, v, up, down) >= CeilDiv(d * 1000, v)
  {
  }

  lemma {:induction false} TriangleAtLeastCruiseIff(d: nat, v: nat, up: nat, down: nat)
    requires v > 0 && up > 0 && 0 < d < AsymRampDistance(v, up, down)
    ensures CeilDiv(d * 1000, v) >= 1
    ensures var n := AsymTriangleSquare(d, up, down);
      Root(n) >= CeilDiv(d * 1000, v) <==> (d > 1 || down == 0 || RootLimit(CeilDiv(d * 1000, v) - 1) <= n)
  {
    CeilDivLeast(d * 1000, v, 0);
    hide CeilDiv, AsymRampDistance, AsymTriangleSquare, RootLimit, Root;
    RootAtLeastIff(AsymTriangleSquare(d, up, down), CeilDiv(d * 1000, v));
    if d > 1 || down == 0 { AsymTriangleReaches(d, v, up, down); }
  }

  /** Each of the two ramps is rounded up to a step of its own. */
  lemma TwoRampsOutlastOneStep(v: nat, up: nat, down: nat)
    requires v > 0 && up > 0 && down > 0
    ensures AsymRampDistance(v, up, down) >= 2
  {
    MulPositive(v, v);
    CeilDivLeast(v * v, 2 * up, 0);
    CeilDivLeast(v * v, 2 * down, 0);
  }

  /** One step at one step per second is estimated at 64 ms. */
  lemma {:induction false} AsymCanBeatCruise()
    ensures OneStepTooFast(1, 1, 1000, 1000) && AsymMoveTime(1, 1, 1000, 1000) == 64
  {
    assert AsymTriangleSquare(1, 1000, 1000) == 4000;
    assert CeilDiv(1000, 1) == 1000;
    TwoRampsOutlastOneStep(1, 1000, 1000);
    assert !IsPow2(63);
    RootUnique(4000, 64);
    hide IsPow2, AsymTriangleSquare;
  }

  // ---------------- HOME ----------------

  /** estimateHomeTimeMs: the two legs that the stub backend plays. */
  function HomeTime(overshoot: int, backoff: int, speed: int, accel: int): nat {
    MoveTime(Abs(overshoot), speed, accel) + MoveTime(Abs(backoff), speed, accel)
  }

  /** estimateHomeTimeMsWithFullRange: the three legs that admission charges for. */
  function HomeTimeFullRange(overshoot: int, backoff: int, fullRange: int, speed: int, accel: int): nat {
    var range := Abs(fullRange);
    MoveTime(range + Abs(overshoot), speed, accel)
    + MoveTime(Abs(backoff), speed, accel)
    + MoveTime(range / 2, speed, accel)
  }

  lemma {:induction false} HomeWithinFullRange(overshoot: int, backoff: int, fullRange: int, speed: int, accel: int)
    ensures HomeTime(overshoot, backoff, speed, accel) <= HomeTimeFullRange(overshoot, backoff, fullRange, speed, accel)
    ensures HomeTimeFullRange(overshoot, backoff, fullRange, speed, accel)
         <= 2000 * (2 * Abs(fullRange) + Abs(overshoot) + Abs(backoff))
  {
    hide MoveTime;
    MoveTimeMonotone(Abs(overshoot), Abs(fullRange) + Abs(overshoot), speed, accel);
    MoveTimeAtMost(Abs(fullRange) + Abs(overshoot), speed, accel);
    MoveTimeAtMost(Abs(backoff), speed, accel);
    MoveTimeAtMost(Abs(fullRange) / 2, speed, accel);
  }

  // ---------------- the 64-bit code ----------------

  /** A result returned through uint32_t. */
  function Cut(t: nat): (r: nat)
    ensures r < UINT32_RANGE && (t < UINT32_RANGE ==> r == t)
  {
    t % 0x1_0000_0000
  }

  lemma CutIs(t: nat)
    ensures Cut(t) == t % 0x1_0000_0000
  {
  }

  /** Sums of cut times, cut again, lose whole multiples of 2^32. */
  lemma {:induction false} CutSum(a: nat, b: nat, c: nat)
    ensures Cut(Cut(a) + Cut(b) + Cut(c)) == (a + b + c) % 0x1_0000_0000
    ensures Cut(Cut(a) + Cut(b)) == (a + b) % 0x1_0000_0000
  {
    CutMultiple(Cut(a) + Cut(b) + Cut(c), a / 0x1_0000_0000 + b / 0x1_0000_0000 + c / 0x1_0000_0000);
    CutMultiple(Cut(a) + Cut(b), a / 0x1_0000_0000 + b / 0x1_0000_0000);
  }

  lemma CutMultiple(r: nat, q: nat)
    ensures (0x1_0000_0000 * q + r) % 0x1_0000_0000 == Cut(r)
  {
  }

  method CeilDiv64(num: int64, den: int64) returns (q: int64)
    requires num >= 0 && den > 0 && num as int + den as int < 0x8000_0000_0000_0000
    ensures q as int == CeilDiv(num as int, den as int)
  {
    q := (num + den - 1) / den;
  }

  lemma {:induction false} ProductBound(x: nat, y: nat, maxX: nat, maxY: nat)
    requires x <= maxX && y <= maxY
    ensures x * y <= maxX * maxY
  {
    MulLe(x, maxX, y);
    MulLe(y, maxY, maxX);
  }

  lemma {:induction false} CeilDivAtMostNum(num: nat, den: nat)
    requires den > 0
    ensures CeilDiv(num, den) <= num
  {
    MulLe(1, den, num);
    CeilDivLeast(num, den, num);
  }

  method EstimateMoveTimeMs(distance: int64, speed: int64, accel: int64) returns (t: uint32)
    requires Abs(distance as int) < INT32_LIMIT && speed as int < INT32_LIMIT && accel as int < INT32_LIMIT
    ensures t as int == Cut(MoveTime(distance as int, speed as int, accel as int))
  {
    var d := if distance < 0 then -distance else distance;
    if d <= 0 {
      return 0;
    }
    var v, a := if speed <= 0 then 1 else speed, if accel <= 0 then 1 else accel;
    ProductBound(v as int, v as int, INT32_LIMIT, INT32_LIMIT);
    var threshold := CeilDiv64(v * v, a);
    var ms: int64;
    if d >= threshold {
      ms := TrapezoidTime64(d, v, a);
    } else {
      ms := TriangleTime64(d, a);
    }
    t := (ms % 0x1_0000_0000) as uint32;
  }

  method TrapezoidTime64(d: int64, v: int64, a: int64) returns (ms: int64)
    requires 0 < d as int < INT32_LIMIT && 0 < v as int < INT32_LIMIT && 0 < a as int < INT32_LIMIT
    ensures ms as int == TrapezoidTime(d as int, v as int, a as int)
  {
    var cruise := CeilDiv64(d * 1000, v);
    var ramp := CeilDiv64(v * 1000, a);
    CeilDivAtMostNum(d as int * 1000, v as int);
    CeilDivAtMostNum(v as int * 1000, a as int);
    ms := cruise + ramp;
  }

  method TriangleTime64(d: int64, a: int64) returns (ms: int64)
    requires 0 < d as int < INT32_LIMIT && 0 < a as int < INT32_LIMIT
    ensures ms as int == TriangleTime(d as int, a as int)
  {
    var scaled := CeilDiv64(d * 1000000, a);
    CeilDivAtMostNum(d as int * 1000000, a as int);
    CeilDivLeast(d as int * 1000000, a as int, 0);
    var s := IsqrtCeil(scaled);
    TriangleRoot(d as int, a as int);
    RootAtMostDistance(d as int, a as int, s as int);
    ms := 2 * s;
  }

  /** The products of the triangular branch fit in 64 bits and its square root is exact. */
  predicate TriangleFits(d: nat, up: nat, down: nat)
    requires up > 0
  {
    && 2 * d * (up + down) * 1000000 + up * down < 0x8000_0000_0000_0000
    && AsymTriangleSquare(d, up, down) < 0x4000_0000_8000_0000
  }

  /** The range of the 64-bit code: moves long enough for the trapezoid, which always fits, and
      those whose triangle does. */
  predicate AsymFits(distance: int, speed: int, accelUp: int, decelDown: int) {
    var d, up, down := Abs(distance), AtLeastOne(accelUp), Ramp(decelDown);
    d >= AsymRampDistance(AtLeastOne(speed), up, down) || TriangleFits(d, up, down)
  }

  /** Every move within the travel fits, as long as the two ramps add up to at most 9 * 10^8. */
  lemma {:induction false} TravelFits(distance: int, speed: int, accelUp: int, decelDown: int)
    requires Abs(distance) <= 2400 && AtLeastOne(accelUp) + Ramp(decelDown) <= 900000000
    ensures AsymFits(distance, speed, accelUp, decelDown)
  {
    var d, up, down := Abs(distance), AtLeastOne(accelUp), Ramp(decelDown);
    ProductBound(d, up + down, 2400, 900000000);
    assert 2 * d * (up + down) * 1000000 == 2000000 * (d * (up + down));
    ProductBound(up, down, 900000000, 900000000);
    if down == 0 {
      CeilDivAtMostNum(2 * d * 1000000, up);
    } else {
      MulPositive(up, down);
      CeilDivAtMostNum(2 * d * (up + down) * 1000000, up * down);
    }
  }

  method EstimateMoveTimeMsAsym(distance: int64, speed: int64, accelUp: int64, decelDown: int64) returns (t: uint32)
    requires Abs(distance as int) < INT32_LIMIT && speed as int < INT32_LIMIT
    requires accelUp as int < INT32_LIMIT && decelDown as int < INT32_LIMIT
    requires AsymFits(distance as int, speed as int, accelUp as int, decelDown as int)
    ensures t as int == Cut(AsymMoveTime(distance as int, speed as int, accelUp as int, decelDown as int))
  {
    hide AsymTriangleSquare, AsymTrapezoidTime, AsymRampDistance;
    var d := if distance < 0 then -distance else distance;
    if d <= 0 {
      return 0;
    }
    var v, up := if speed <= 0 then 1 else speed, if accelUp <= 0 then 1 else accelUp;
    var down := if decelDown < 0 then 0 else decelDown;
    var threshold := AsymRampDistance64(v, up, down);
    var ms: int64;
    if d >= threshold {
      ms := AsymTrapezoidTime64(d, v, up, down);
    } else {
      ms := AsymTriangleTime64(d, up, down);
    }
    t := (ms % 0x1_0000_0000) as uint32;
  }

  method AsymRampDistance64(v: int64, up: int64, down: int64) returns (threshold: int64)
    requires 0 < v as int < INT32_LIMIT && 0 < up as int < INT32_LIMIT && 0 <= down as int < INT32_LIMIT
    ensures threshold as int == AsymRampDistance(v as int, up as int, down as int)
  {
    ProductBound(v as int, v as int, INT32_LIMIT - 1, INT32_LIMIT - 1);
    var square := v * v;
    threshold := HalfRamp64(square, up);
    if down > 0 {
      var rampDown := HalfRamp64(square, down);
      threshold := threshold + rampDown;
    }
  }

  method HalfRamp64(square: int64, a: int64) returns (q: int64)
    requires 0 <= square as int <= (INT32_LIMIT - 1) * (INT32_LIMIT - 1) && 0 < a as int < INT32_LIMIT
    ensures q as int == CeilDiv(square as int, 2 * a as int) && 0 <= q <= square
  {
    q := CeilDiv64(square, 2 * a);
    CeilDivAtMostNum(square as int, 2 * a as int);
  }

  method AsymTrapezoidTime64(d: int64, v: int64, up: int64, down: int64) returns (ms: int64)
    requires 0 < d as int < INT32_LIMIT && 0 < v as int < INT32_LIMIT
    requires 0 < up as int < INT32_LIMIT && 0 <= down as int < INT32_LIMIT
    ensures ms as int == AsymTrapezoidTime(d as int, v as int, up as int, down as int)
  {
    var cruise := CeilDiv64(d * 1000, v);
    CeilDivAtMostNum(d as int * 1000, v as int);
    var rampUp := CeilDiv64(v * 1000, 2 * up);
    CeilDivAtMostNum(v as int * 1000, 2 * up as int);
    ms := cruise + rampUp;
    if down > 0 {
      var rampDown := CeilDiv64(v * 1000, 2 * down);
      CeilDivAtMostNum(v as int * 1000, 2 * down as int);
      ms := ms + rampDown;
    }
  }

  method AsymTriangleTime64(d: int64, up: int64, down: int64) returns (ms: int64)
    requires 0 < d as int < INT32_LIMIT && 0 < up as int < INT32_LIMIT && 0 <= down as int < INT32_LIMIT
    requires TriangleFits(d as int, up as int, down as int)
    ensures ms as int == Root(AsymTriangleSquare(d as int, up as int, down as int))
  {
    var scaled := AsymTriangleSquare64(d, up, down);
    ms := IsqrtCeil(scaled);
    if scaled <= 0 { RootUnique(0, 0); }
  }

  method AsymTriangleSquare64(d: int64, up: int64, down: int64) returns (scaled: int64)
    requires 0 < d as int < INT32_LIMIT && 0 < up as int < INT32_LIMIT && 0 <= down as int < INT32_LIMIT
    requires TriangleFits(d as int, up as int, down as int)
    ensures scaled as int == AsymTriangleSquare(d as int, up as int, down as int)
  {
    hide CeilDiv;
    if down <= 0 {
      scaled := CeilDiv64(2 * d * 1000000, up);
      return;
    }
    ghost var x, u, w: nat := d as int, up as int, down as int;
    MulPositive(u, w);
    Factors(x, u + w);
    var product := 2 * d * (up + down);
    var num := product * 1000000;
    var den := up * down;
    scaled := CeilDiv64(num, den);
  }

  /** Partial products stay below the whole one. */
  lemma {:induction false} Factors(x: nat, s: nat)
    ensures 2 * x * s <= 2 * x * s * 1000000
  {
  }
}
