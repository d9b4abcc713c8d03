/** Timing of the shared STEP pulse train.

    Models include/MotorControl/SharedStepTiming.h and include/MotorControl/SharedStepGuards.h:
    pulse period, alignment to the next edge, the window in which a DIR line may flip, and
    the stopping distance. */
module SharedStepTiming {
  import opened IntegerMath

  /** Microseconds between pulses; 0 when the generator should stop. */
  function StepPeriod(speed: nat): (period: nat)
    ensures period == 0 <==> speed == 0
  {
    if speed == 0 then 0
    else
      var rounded := (1000000 + speed / 2) / speed;
      if rounded > 0 then rounded else 1
  }

  /** Up to two million steps a second the period is the nearest whole microsecond. */
  lemma {:induction false} StepPeriodNearest(speed: nat)
    requires 0 < speed <= 2000000
    ensures 2 * Abs(StepPeriod(speed) * speed - 1000000) <= speed
  {
    var n, q := 1000000 + speed / 2, (1000000 + speed / 2) / speed;
    assert n == speed * q + n % speed;
    assert q > 0 by {
      if q <= 0 { MulLe(q, 0, speed); }
    }
  }

  function AlignToNextEdge(t: nat, period: nat): nat {
    if period == 0 || t % period == 0 then t else t + (period - t % period)
  }

  /** The edge found is the first multiple of the period at or after t. */
  lemma {:induction false} AlignIsNextEdge(t: nat, period: nat)
    requires period > 0
    ensures AlignToNextEdge(t, period) == CeilDiv(t, period) * period
    ensures t <= AlignToNextEdge(t, period) < t + period
  {
    var q, r := t / period, t % period;
    assert t == period * q + r;
    var k := if r == 0 then q else q + 1;
    assert k * period == AlignToNextEdge(t, period) by { OneMoreMultiple(q, period); }
    OneMoreMultiple(k - 1, period);
    CeilDivLeast(t, period, k);
    CeilDivLeast(t, period, k - 1);
  }

  lemma OneMoreMultiple(q: int, period: nat)
    ensures (q + 1) * period == q * period + period
  {
  }

  function GuardFits(period: nat, pre: nat, post: nat): bool {
    period > 0 && pre + post + 2 < period
  }

  /** SLEEP goes low, DIR flips, SLEEP goes high again. */
  datatype FlipWindow = NoWindow | FlipWindow(sleepLow: int, dirFlip: int, sleepHigh: int)

  function ComputeFlipWindow(now: nat, period: nat, pre: nat, post: nat): FlipWindow {
    if !GuardFits(period, pre, post) then NoWindow
    else
      var mid := AlignToNextEdge(now, period) + period / 2;
      FlipWindow(mid - pre, mid, mid + post)
  }

  /** The window lies strictly inside one gap between pulses, the gap after the next one. */
  predicate InsideNextGap(w: FlipWindow, now: nat, period: nat)
    requires w.FlipWindow?
  {
    var edge := CeilDiv(now, period) * period;
    now <= edge < w.sleepLow <= w.dirFlip <= w.sleepHigh < edge + period
  }

  /** The guards fit on each side of the middle of the gap. */
  predicate GuardsFitHalves(period: nat, pre: nat, post: nat) {
    pre < period / 2 && post < period - period / 2
  }

  /** A window that is granted stays clear of the pulses exactly when each guard fits its own
      half of the period; the admission test only compares the sum of the two. */
  lemma {:induction false} FlipWindowInsideGapIff(now: nat, period: nat, pre: nat, post: nat)
    requires GuardFits(period, pre, post)
    ensures InsideNextGap(ComputeFlipWindow(now, period, pre, post), now, period)
            <==> GuardsFitHalves(period, pre, post)
  {
    AlignIsNextEdge(now, period);
  }

  /** Equal guards, as the firmware is built by default, are granted only when they fit. */
  lemma {:induction false} EqualGuardsStayClear(now: nat, period: nat, guard: nat)
    requires GuardFits(period, guard, guard)
    ensures InsideNextGap(ComputeFlipWindow(now, period, guard, guard), now, period)
  {
    FlipWindowInsideGapIff(now, period, guard, guard);
  }

  /** A build with unequal guards can be granted a window that reaches across a pulse, here the
      one at 60. */
  lemma UnequalGuardsCanMeetAPulse()
    ensures ComputeFlipWindow(1, 60, 50, 0) == FlipWindow(40, 90, 90) && AlignToNextEdge(1, 60) == 60
    ensures !InsideNextGap(ComputeFlipWindow(1, 60, 50, 0), 1, 60)
  {
    FlipWindowInsideGapIff(1, 60, 50, 0);
  }

  function StopDistance(speed: nat, decel: nat): nat {
    if decel == 0 then 0 else CeilDiv(speed * speed, 2 * decel)
  }

  /** The fewest whole steps in which speed^2 <= 2 * decel * steps, so never short of the
      distance needed to stop and never a whole step more. */
  lemma {:induction false} StopDistanceLeast(speed: nat, decel: nat, steps: nat)
    requires decel > 0
    ensures speed * speed <= steps * (2 * decel) <==> StopDistance(speed, decel) <= steps
  {
    CeilDivLeast(speed * speed, 2 * decel, steps);
  }
}
