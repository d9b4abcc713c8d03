/** The duration estimates against the exact times of their profiles, over the reals. */
module EstimateBounds {
  import opened IntegerMath
  import opened MotionKinematics

  lemma {:induction false} CeilDivReal(num: nat, den: nat)
    requires den > 0
    ensures num as real / den as real <= CeilDiv(num, den) as real < num as real / den as real + 1.0
  {
    var q := CeilDiv(num, den);
    CeilDivLeast(num, den, q);
    CeilDivLeast(num, den, q - 1);
    Quotient(num, den, q);
  }

  lemma Quotient(num: nat, den: nat, q: int)
    requires den > 0 && (q - 1) * den < num <= q * den
    ensures num as real / den as real <= q as real < num as real / den as real + 1.0
  {
    var n, d, k := num as real, den as real, q as real;
    assert n <= k * d && (k - 1.0) * d < n;
    assert n / d * d == n;
    hide *;
    ScaledLe(n / d, k, d);
    ScaledLt(k - 1.0, n / d, d);
  }

  lemma ScaledLe(x: real, y: real, d: real)
    requires d > 0.0 && x * d <= y * d
    ensures x <= y
  {
    if x > y { ProductPositive(x - y, d); }
  }

  lemma ScaledLt(x: real, y: real, d: real)
    requires d > 0.0 && x * d < y * d
    ensures x < y
  {
    if x > y { ProductPositive(x - y, d); }
  }

  lemma ProductPositive(x: real, d: real)
    requires x > 0.0 && d > 0.0
    ensures x * d > 0.0
  {
  }

  // ---------------- the symmetric profile ----------------

  /** A move long enough for its top speed is estimated at d/v + v/a seconds, rounded up by less than
      two milliseconds. */
  lemma {:induction false} LongMoveTime(distance: int, speed: int, accel: int)
    requires var d, v, a := Abs(distance), AtLeastOne(speed), AtLeastOne(accel); d > 0 && v * v <= d * a
    ensures var d, v, a := Abs(distance), AtLeastOne(speed), AtLeastOne(accel);
      var exact := (d * 1000) as real / v as real + (v * 1000) as real / a as real;
      exact <= MoveTime(distance, speed, accel) as real < exact + 2.0
  {
    var d, v, a := Abs(distance), AtLeastOne(speed), AtLeastOne(accel);
    CeilDivLeast(v * v, a, d);
    CeilDivReal(d * 1000, v);
    CeilDivReal(v * 1000, a);
    hide CeilDiv;
  }

  // ---------------- the asymmetric profile ----------------

  /** The steps cover a ramp up and, if there is one, a ramp down. */
  ghost predicate LongEnough(d: nat, v: nat, up: nat, down: nat) {
    exists rise: nat, fall: nat :: rise + fall <= d && RampsFit(v, up, down, rise, fall)
  }

  predicate RampsFit(v: nat, up: nat, down: nat, rise: nat, fall: nat) {
    v * v <= rise * (2 * up) && (down > 0 ==> v * v <= fall * (2 * down))
  }

  lemma {:induction false} LongEnoughIff(d: nat, v: nat, up: nat, down: nat)
    requires up > 0
    ensures LongEnough(d, v, up, down) <==> d >= AsymRampDistance(v, up, down)
  {
    var rise, fall := CeilDiv(v * v, 2 * up), if down > 0 then CeilDiv(v * v, 2 * down) else 0;
    CeilDivLeast(v * v, 2 * up, rise);
    if down > 0 { CeilDivLeast(v * v, 2 * down, fall); }
    assert RampsFit(v, up, down, rise, fall);
    hide CeilDiv;
    if LongEnough(d, v, up, down) {
      var r: nat, f: nat :| r + f <= d && RampsFit(v, up, down, r, f);
      CeilDivLeast(v * v, 2 * up, r);
      if down > 0 { CeilDivLeast(v * v, 2 * down, f); }
    }
  }

  /** d/v + v/(2 up) + v/(2 down) seconds, in milliseconds. */
  function AsymExact(d: nat, v: nat, up: nat, down: nat): real
    requires v > 0 && up > 0
  {
    (d * 1000) as real / v as real + (v * 1000) as real / (2 * up) as real
    + (if down > 0 then (v * 1000) as real / (2 * down) as real else 0.0)
  }

  /** A move long enough for both ramps is estimated at its exact time, rounded up by less than three
      milliseconds. */
  lemma {:induction false} AsymLongMoveTime(distance: int, speed: int, accelUp: int, decelDown: int)
    requires Abs(distance) > 0 && LongEnough(Abs(distance), AtLeastOne(speed), AtLeastOne(accelUp), Ramp(decelDown))
    ensures var exact := AsymExact(Abs(distance), AtLeastOne(speed), AtLeastOne(accelUp), Ramp(decelDown));
      exact <= AsymMoveTime(distance, speed, accelUp, decelDown) as real < exact + 3.0
  {
    var d, v, up, down := Abs(distance), AtLeastOne(speed), AtLeastOne(accelUp), Ramp(decelDown);
    LongEnoughIff(d, v, up, down);
    CeilDivReal(d * 1000, v);
    CeilDivReal(v * 1000, 2 * up);
    if down > 0 { CeilDivReal(v * 1000, 2 * down); }
    hide CeilDiv, LongEnough;
  }

  /** The square of the exact time of a triangle, in square milliseconds, as a fraction. */
  function AsymSquareNum(d: nat, up: nat, down: nat): nat { if down == 0 then 2000000 * d else 2000000 * d * (up + down) }

  function AsymSquareDen(up: nat, down: nat): nat { if down == 0 then up else up * down }

  /** A shorter move is estimated at t with (t - 1)^2 < exact^2 < t^2 + t. */
  lemma {:induction false} AsymShortMoveTime(distance: int, speed: int, accelUp: int, decelDown: int)
    requires Abs(distance) > 0 && !LongEnough(Abs(distance), AtLeastOne(speed), AtLeastOne(accelUp), Ramp(decelDown))
    ensures var t := AsymMoveTime(distance, speed, accelUp, decelDown);
      var num := AsymSquareNum(Abs(distance), AtLeastOne(accelUp), Ramp(decelDown));
      var den := AsymSquareDen(AtLeastOne(accelUp), Ramp(decelDown));
      Brackets(t, num, den)
  {
    var d, up, down := Abs(distance), AtLeastOne(accelUp), Ramp(decelDown);
    LongEnoughIff(d, AtLeastOne(speed), up, down);
    var num, den := AsymSquareNum(d, up, down), AsymSquareDen(up, down);
    SquareIs(d, up, down);
    hide LongEnough, AsymTriangleSquare, AsymSquareNum, AsymSquareDen, AsymRampDistance, Brackets;
    RootOfQuotient(num, den);
  }

  lemma {:induction false} SquareIs(d: nat, up: nat, down: nat)
    requires d > 0 && up > 0
    ensures AsymSquareDen(up, down) > 0 && AsymSquareNum(d, up, down) > 0
    ensures AsymTriangleSquare(d, up, down) == CeilDiv(AsymSquareNum(d, up, down), AsymSquareDen(up, down))
  {
    if down > 0 {
      MulPositive(up, down);
      MulPositive(2000000 * d, up + down);
      assert 2 * d * (up + down) * 1000000 == 2000000 * d * (up + down);
    }
    hide CeilDiv;
  }

  /** t is the square root of the fraction, up to its rounding. */
  predicate Brackets(t: int, num: nat, den: nat) {
    t >= 1 && (t - 1) * (t - 1) * den < num < (t * t + t) * den
  }

  lemma {:induction false} RootOfQuotient(num: nat, den: nat)
    requires num > 0 && den > 0
    ensures Brackets(Root(CeilDiv(num, den)), num, den)
  {
    hide *;
    QuotientBounds(num, den, CeilDiv(num, den));
    RootBracket(CeilDiv(num, den));
    BetweenSquares(Root(CeilDiv(num, den)), CeilDiv(num, den), num, den);
  }

  lemma QuotientBounds(num: nat, den: nat, n: nat)
    requires num > 0 && den > 0 && n == CeilDiv(num, den)
    ensures n >= 1 && (n - 1) * den < num <= n * den
  {
    CeilDivLeast(num, den, n);
    CeilDivLeast(num, den, n - 1);
    if n == 0 { CeilDivLeast(num, den, 0); }
    hide CeilDiv;
  }

  lemma {:induction false} BetweenSquares(t: nat, n: int, num: nat, den: nat)
    requires t >= 1 && (t - 1) * (t - 1) < n < t * t + t && (n - 1) * den < num <= n * den && den > 0
    ensures Brackets(t, num, den)
  {
    var low, high := (t - 1) * (t - 1), t * t + t;
    MulLe(low, n - 1, den);
    MulLe(n + 1, high, den);
    assert (n + 1) * den == n * den + den;
  }

  /** Over all speeds and ramps the asymmetric estimate is at most 2000 ms a step, too. */
  lemma {:induction false} AsymMoveTimeAtMost(distance: int, speed: int, accelUp: int, decelDown: int)
    ensures AsymMoveTime(distance, speed, accelUp, decelDown) <= 2000 * Abs(distance)
  {
    var d, v, up, down := Abs(distance), AtLeastOne(speed), AtLeastOne(accelUp), Ramp(decelDown);
    if d > 0 {
      LongEnoughIff(d, v, up, down);
      if LongEnough(d, v, up, down) {
        TrapezoidAtMost(d, v, up, down);
      } else {
        AsymShortMoveTime(distance, speed, accelUp, decelDown);
        hide AsymMoveTime, LongEnough;
        TriangleAtMost(d, up, down, AsymMoveTime(distance, speed, accelUp, decelDown));
      }
    }
  }

  lemma {:induction false} TrapezoidAtMost(d: nat, v: nat, up: nat, down: nat)
    requires v > 0 && up > 0 && LongEnough(d, v, up, down)
    ensures AsymTrapezoidTime(d, v, up, down) <= 2000 * d
  {
    var rise: nat, fall: nat :| rise + fall <= d && RampsFit(v, up, down, rise, fall);
    MulLe(1, v, 1000 * d);
    CeilDivLeast(d * 1000, v, 1000 * d);
    RampAtMost(v, up, rise);
    if down > 0 { RampAtMost(v, down, fall); }
    hide CeilDiv;
  }

  lemma {:induction false} RampAtMost(v: nat, a: nat, steps: nat)
    requires v > 0 && a > 0 && v * v <= steps * (2 * a)
    ensures CeilDiv(v * 1000, 2 * a) <= 1000 * steps
  {
    MulLe(1, v, v);
    assert v * 1000 <= 1000 * (steps * (2 * a));
    assert 1000 * (steps * (2 * a)) == (1000 * steps) * (2 * a);
    CeilDivLeast(v * 1000, 2 * a, 1000 * steps);
  }

  lemma {:induction false} TriangleAtMost(d: nat, up: nat, down: nat, t: nat)
    requires d > 0 && up > 0 && t >= 1 && (t - 1) * (t - 1) * AsymSquareDen(up, down) < AsymSquareNum(d, up, down)
    ensures t <= 2000 * d
  {
    var x, den := t - 1, AsymSquareDen(up, down);
    SquareIs(d, up, down);
    NumAtMost(d, up, down);
    hide AsymSquareNum, AsymSquareDen;
    if t > 2000 * d {
      MulLe(2000 * d, x, 2000 * d);
      MulLe(2000 * d, x, x);
      assert x * x >= (2000 * d) * (2000 * d);
      MulLe(1, d, d);
      assert (2000 * d) * (2000 * d) >= 4000000 * d;
      MulLe(4000000 * d, x * x, den);
    }
  }

  lemma {:induction false} NumAtMost(d: nat, up: nat, down: nat)
    requires up > 0
    ensures AsymSquareNum(d, up, down) <= 4000000 * d * AsymSquareDen(up, down)
  {
    if down == 0 {
      MulLe(1, up, 4000000 * d);
    } else {
      MulLe(1, down, up);
      MulLe(1, up, down);
      assert up + down <= 2 * (up * down);
      MulLe(up + down, 2 * (up * down), 2000000 * d);
      assert 2 * (up * down) * (2000000 * d) == 4000000 * d * (up * down);
    }
  }
}
