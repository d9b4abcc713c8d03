/** What the calls on the hardware controller do to each motor, in terms of its lines, its record and
    the adapter: the thermal limit, sleep at idle, and the effects of WAKE, SLEEP, MOVE and HOME. */
module HardwareEffects {
  import opened MotionKinematics
  import opened IntegerMath
  import opened MotorTypes
  import opened HardwareModel
  import opened HardwareRuns
  import opened HomingRuns

  // ---------------- one tick ----------------

  /** With limits on, the motor has used up its budget and the five seconds of grace. */
  predicate Exhausted(h: Hw, now: nat, i: nat)
    requires i < |h.cells|
  {
    h.limits && BudgetAt(h.cells[i].m, now) < -50
  }

  /** Off, whatever it did before: SLEEP low, no override, nothing under way. */
  predicate Off(c: Cell) { !c.sleep && !c.forced && !c.m.awake && !c.m.moving && !c.plan.active && !c.m.lastOpOngoing }

  lemma {:induction false} PassedExhausted(h: Hw, now: nat, i: nat)
    requires i < |h.cells| && BudgetInRange(h.cells[i].m) && Exhausted(h, now, i)
    ensures Off(Passed(h, now)[i])
  {
    var o := Observe(h.cells[i], now);
    ChargedBudget(h.cells[i].m, now);
    ObservedBudget(h.cells[i], now);
    hide Charge, BudgetAt, Observe;
    EnforcedOff(o, h.limits, now);
    hide EnforceLimit, FinishOp, Off;
  }

  lemma EnforcedOff(o: Cell, limits: bool, now: nat)
    requires Overrun(o.m, limits)
    ensures var e := EnforceLimit(o, limits, now);
      Off(if !e.m.moving && !e.plan.active then e.(m := FinishOp(e.m, now)) else e)
  {
  }

  lemma ObservedBudget(c: Cell, now: nat)
    ensures Observe(c, now).m.budgetTenths == Charge(c.m, now).budgetTenths
  {
    hide Charge;
  }

  lemma {:induction false} PassedCell(h: Hw, now: nat, i: nat)
    requires i < |h.cells| && BudgetInRange(h.cells[i].m) && !Exhausted(h, now, i)
    ensures var c, p := h.cells[i], Passed(h, now)[i];
      && p.forced == c.forced && p.plan == c.plan && p.m.moving == c.slot.moving
      && p.m.awake == (c.slot.moving || c.forced) && p.sleep == (c.sleep && (c.slot.moving || c.forced))
  {
    ChargedBudget(h.cells[i].m, now);
    hide Charge, BudgetAt;
  }

  /** With limits on, a tick that finds a motor's budget below -5 seconds turns it off, whether it was
      homing, moving or only kept awake. */
  lemma {:induction false} TickTurnsOff(h: Hw, now: nat, i: nat)
    requires Inv(h) && i < |h.cells| && BudgetInRange(h.cells[i].m) && Exhausted(h, now, i)
    ensures |Step(h, TickAt(now)).cells| == |h.cells| && Off(Step(h, TickAt(now)).cells[i])
  {
    hide TickHw, PassCell, Charge, BudgetAt;
    TickIs(h, now, i);
    PassedExhausted(h, now, i);
  }

  /** Any other motor that is not homing follows the adapter: it is awake while it runs or is kept
      awake, its SLEEP line drops once it is neither, its record has the adapter's position, and an
      operation under way is over once the motor stands. */
  lemma {:induction false} TickFollows(h: Hw, now: nat, i: nat)
    requires Inv(h) && i < |h.cells| && BudgetInRange(h.cells[i].m) && !Exhausted(h, now, i) && !h.cells[i].plan.active
    ensures |Step(h, TickAt(now)).cells| == |h.cells|
    ensures var c, r := h.cells[i], Step(h, TickAt(now)).cells[i];
      && r.slot == c.slot && r.dir == c.dir && r.forced == c.forced && r.plan == c.plan
      && r.m.position == c.slot.position && r.m.moving == c.slot.moving && r.m.budgetTenths == BudgetAt(c.m, now)
      && r.m.awake == (c.slot.moving || c.forced)
      && r.sleep == (c.forced || (c.sleep && c.slot.moving))
      && r.m.lastOpOngoing == (c.m.lastOpOngoing && c.slot.moving)
      && (c.m.lastOpOngoing && !c.slot.moving && 0 != c.m.lastOpStartedMs <= now ==>
            r.m.lastOpLastMs == now - c.m.lastOpStartedMs)
  {
    hide TickHw, Charge, BudgetAt;
    TickIs(h, now, i);
    ChargedBudget(h.cells[i].m, now);
  }

  /** A homing motor that is not exhausted keeps its plan's override and ends its tick awake while it
      runs, is kept awake, or was just started on its next leg with SLEEP high. */
  lemma {:induction false} TickHomes(h: Hw, now: nat, i: nat)
    requires Inv(h) && i < |h.cells| && BudgetInRange(h.cells[i].m) && !Exhausted(h, now, i)
    ensures |Step(h, TickAt(now)).cells| == |h.cells|
    ensures var c, r := h.cells[i], Step(h, TickAt(now)).cells[i];
      && r.forced == c.forced && (c.forced ==> r.sleep && r.m.awake)
      && (r.plan.active && r.plan.phase > c.plan.phase ==> r.sleep)
      && (!r.sleep ==> !c.sleep || (!c.slot.moving && !c.forced))
  {
    hide TickHw, PassCell, LegTarget, Charge, BudgetAt;
    TickIs(h, now, i);
    PassedCell(h, now, i);
  }

  // ---------------- calls ----------------

  /** WAKE raises SLEEP and the override of the motors it selects, in one latch. */
  lemma {:induction false} WakeRaises(h: Hw, mask: Mask)
    ensures var r := Step(h, WakeAll(mask));
      && |r.cells| == |h.cells| && |r.trace| == |h.trace| + 1
      && forall i :: 0 <= i < |h.cells| ==>
           && (i in mask ==> r.cells[i] == h.cells[i].(m := h.cells[i].m.(awake := true), forced := true, sleep := true))
           && (i !in mask ==> r.cells[i] == h.cells[i])
  {
  }

  /** SLEEP lowers them again, unless the adapter runs one of them. */
  lemma {:induction false} SleepLowers(h: Hw, mask: Mask)
    ensures var (r, ok) := SleepMask(h, mask);
      && (ok <==> forall i :: 0 <= i < |h.cells| && i in mask ==> !h.cells[i].slot.moving)
      && (!ok ==> r == h)
      && (ok ==>
            && |r.cells| == |h.cells| && |r.trace| == |h.trace| + 1
            && forall i :: 0 <= i < |h.cells| ==>
                 && (i in mask ==> r.cells[i] == h.cells[i].(m := h.cells[i].m.(awake := false), forced := false, sleep := false))
                 && (i !in mask ==> r.cells[i] == h.cells[i]))
  {
  }

  /** A motor on its way: DIR towards the target, SLEEP high, the adapter started from where it stood,
      and the operation on record. */
  predicate Sent(c: Cell, r: Cell, target: int, op: OpType, speed: int, accel: int, estMs: nat, now: nat) {
    && r.dir == (target >= c.slot.position) && r.sleep && r.forced == c.forced
    && r.slot == Slot(target != c.slot.position, c.slot.position, target)
    && r.m == c.m.(position := c.slot.position, speed := speed, accel := accel, moving := true, lastOpType := op,
                   lastOpStartedMs := now, lastOpEstMs := estMs, lastOpOngoing := true)
  }

  /** MOVE sends every selected motor to the target, unless the adapter runs one of them. */
  lemma {:induction false} MoveSends(h: Hw, mask: Mask, target: int, speed: int, accel: int, now: nat, i: nat)
    requires Inv(h) && i < |h.cells|
    ensures var (r, ok) := MoveAbsMask(h, mask, target, speed, accel, now);
      && (ok <==> forall k :: 0 <= k < |h.cells| && k in mask ==> !h.cells[k].slot.moving)
      && |r.cells| == |h.cells|
      && (if ok && i in mask then
            && r.cells[i].plan == h.cells[i].plan
            && Sent(h.cells[i], r.cells[i], target, MoveOp, speed, accel,
                    MoveTime(Abs(target - h.cells[i].slot.position), speed, accel) % 0x1_0000_0000, now)
          else r.cells[i] == h.cells[i])
  {
    hide MoveAbsMask, MoveTime, Inv, StartsOf;
    MoveIs(h, mask, target, speed, accel, now, i);
    MoveAcceptedIff(h, mask, target, speed, accel, now);
  }

  /** HOME sends them a range and the overshoot back, as the first of three legs. */
  lemma {:induction false} HomeSends(h: Hw, mask: Mask, overshoot: int, backoff: int, fullRange: int,
                                     speed: int, accel: int, now: nat, i: nat)
    requires Inv(h) && i < |h.cells|
    ensures var (r, ok) := HomeMask(h, mask, overshoot, backoff, fullRange, speed, accel, now);
      var range := if fullRange <= 0 then 2400 else fullRange;
      && (ok <==> forall k :: 0 <= k < |h.cells| && k in mask ==> !h.cells[k].slot.moving)
      && |r.cells| == |h.cells|
      && (if ok && i in mask then
            && r.cells[i].plan == HomingPlan(true, 0, Abs(overshoot), Abs(backoff), range, speed, accel)
            && Sent(h.cells[i], r.cells[i], h.cells[i].slot.position - range - Abs(overshoot), HomeOp, speed, accel,
                    (MoveTime(range + Abs(overshoot), speed, accel) + MoveTime(Abs(backoff), speed, accel)
                     + MoveTime(range / 2, speed, accel)) % 0x1_0000_0000, now)
          else r.cells[i] == h.cells[i])
  {
    hide HomeMask, MoveTime, Inv, StartsOf;
    HomeIs(h, mask, overshoot, backoff, fullRange, speed, accel, now, i);
    HomeAcceptedIff(h, mask, overshoot, backoff, fullRange, speed, accel, now);
    var range := if fullRange <= 0 then 2400 else fullRange;
    CutSum(MoveTime(range + Abs(Abs(overshoot)), speed, accel), MoveTime(Abs(Abs(backoff)), speed, accel),
           MoveTime(range / 2, speed, accel));
    hide Cut;
  }

  // ---------------- from power-up ----------------

  ghost predicate Budgets(h: Hw) { forall i :: 0 <= i < |h.cells| ==> BudgetInRange(h.cells[i].m) }

  lemma {:induction false} TickKeepsBudget(h: Hw, now: nat, i: nat)
    requires Inv(h) && i < |h.cells| && BudgetInRange(h.cells[i].m)
    ensures |TickHw(h, now).cells| == |h.cells| && BudgetInRange(TickHw(h, now).cells[i].m)
  {
    hide TickHw, Charge;
    TickIs(h, now, i);
    PassedBudget(h, now, i);
    hide PassCell;
  }

  lemma PassedBudget(h: Hw, now: nat, i: nat)
    requires i < |h.cells| && BudgetInRange(h.cells[i].m)
    ensures BudgetInRange(Passed(h, now)[i].m)
  {
    ChargedBudget(h.cells[i].m, now);
    hide Charge;
  }

  lemma {:induction false} StepKeepsBudgets(h: Hw, e: Event)
    requires Inv(h) && Possible(h, e) && Budgets(h)
    ensures Budgets(Step(h, e)) && |Step(h, e).cells| == |h.cells|
  {
    StepKeepsInv(h, e);
    hide MoveAbsMask, HomeMask, TickHw, Inv, StartsOf, HomeEstimate;
    forall i | 0 <= i < |h.cells| ensures BudgetInRange(Step(h, e).cells[i].m) {
      assert BudgetInRange(h.cells[i].m);
      match e {
        case TickAt(now) => TickKeepsBudget(h, now, i);
        case MoveTo(mask, target, speed, accel, now) => MoveIs(h, mask, target, speed, accel, now, i);
        case HomeAll(mask, overshoot, backoff, fullRange, speed, accel, now) =>
          HomeIs(h, mask, overshoot, backoff, fullRange, speed, accel, now, i);
        case _ =>
      }
    }
  }

  lemma {:induction false} RunKeepsBudgets(h: Hw, es: seq<Event>)
    requires Inv(h) && Budgets(h) && PossibleRun(h, es)
    ensures Inv(Run(h, es)) && Budgets(Run(h, es))
    decreases |es|
  {
    if es != [] {
      StepKeepsInv(h, es[0]);
      StepKeepsBudgets(h, es[0]);
      hide Step, Inv, Budgets;
      RunKeepsBudgets(Step(h, es[0]), es[1..]);
    }
  }

  /** In every run from power-up a tick turns off exactly what it must: with limits on, every motor
      whose budget is below -5 seconds; and no motor that WAKE keeps awake otherwise. */
  lemma {:induction false} PowerUpTickTurnsOff(h: Hw, es: seq<Event>, now: nat, i: nat)
    requires PowerUp(h) && PossibleRun(h, es) && i < |Run(h, es).cells|
    ensures var s, r := Run(h, es), Step(Run(h, es), TickAt(now));
      && |r.cells| == |s.cells|
      && (Exhausted(s, now, i) ==> Off(r.cells[i]))
      && (!Exhausted(s, now, i) && s.cells[i].forced ==> r.cells[i].forced && r.cells[i].sleep && r.cells[i].m.awake)
  {
    PowerUpInv(h);
    assert Budgets(h);
    RunKeepsBudgets(h, es);
    var s := Run(h, es);
    hide Run, PossibleRun, PowerUp, Step, Inv, Exhausted, Off;
    if Exhausted(s, now, i) { TickTurnsOff(s, now, i); } else { TickHomes(s, now, i); }
  }

  // ---------------- a motor that is only kept awake ----------------

  /** Woken at power-up, idle, with a budget that has paid for every second so far. */
  predicate KeptAwake(h: Hw, i: nat, at: nat) {
    && h.limits && i < |h.cells| && BudgetInRange(h.cells[i].m)
    && var c := h.cells[i];
      && c.forced && c.sleep && c.m.awake && !c.plan.active && !c.slot.moving
      && c.m.lastUpdateMs == at / 1000 * 1000 && c.m.budgetTenths == 900 - 10 * (at / 1000)
  }

  function Ticks(times: seq<nat>): seq<Event> { seq(|times|, k requires 0 <= k < |times| => TickAt(times[k])) }

  lemma {:induction false} KeptAwakeTick(h: Hw, i: nat, at: nat, now: nat)
    requires Inv(h) && KeptAwake(h, i, at) && at <= now < 96000
    ensures Inv(Step(h, TickAt(now))) && KeptAwake(Step(h, TickAt(now)), i, now)
  {
    StepKeepsInv(h, TickAt(now));
    var c := h.cells[i];
    WholeSeconds(now - at / 1000 * 1000, now / 1000 - at / 1000);
    assert BudgetAt(c.m, now) == 900 - 10 * (now / 1000);
    TickFollows(h, now, i);
    TickClock(h, now, i);
    hide TickHw, Inv, Charge, BudgetAt;
  }

  lemma {:induction false} TickClock(h: Hw, now: nat, i: nat)
    requires Inv(h) && i < |h.cells| && BudgetInRange(h.cells[i].m) && !Exhausted(h, now, i) && !h.cells[i].plan.active
    requires h.cells[i].m.lastUpdateMs <= now && h.cells[i].m.lastUpdateMs % 1000 == 0
    ensures |Step(h, TickAt(now)).cells| == |h.cells| && Step(h, TickAt(now)).cells[i].m.lastUpdateMs == now / 1000 * 1000
    ensures Step(h, TickAt(now)).limits == h.limits
  {
    hide TickHw, Charge, BudgetAt;
    TickIs(h, now, i);
    ChargedBudget(h.cells[i].m, now);
    ChargeClock(h.cells[i].m, now);
  }

  lemma {:induction false} KeptAwakeTicks(h: Hw, i: nat, at: nat, times: seq<nat>)
    requires Inv(h) && KeptAwake(h, i, at) && Ascending(times, at) && forall k :: 0 <= k < |times| ==> times[k] < 96000
    ensures Inv(Run(h, Ticks(times)))
    ensures KeptAwake(Run(h, Ticks(times)), i, if times == [] then at else times[|times| - 1])
    decreases |times|
  {
    if times != [] {
      assert Ticks(times)[1..] == Ticks(times[1..]) && Ticks(times)[0] == TickAt(times[0]);
      KeptAwakeTick(h, i, at, times[0]);
      hide Step, Inv, KeptAwake;
      KeptAwakeTicks(Step(h, TickAt(times[0])), i, times[0], times[1..]);
    }
  }

  /** From power-up with limits on: a motor woken and then left alone is awake with SLEEP high after
      every tick before 96 seconds, and off after the first tick from then on. */
  lemma {:induction false} WokenMotorTurnsOff(h: Hw, mask: Mask, i: nat, times: seq<nat>, now: nat)
    requires PowerUp(h) && h.limits && i < |h.cells| && i in mask
    requires Ascending(times, 0) && (forall k :: 0 <= k < |times| ==> times[k] < 96000) && now >= 96000
    ensures var r := Run(Step(h, WakeAll(mask)), Ticks(times));
      && i < |r.cells| && r.cells[i].sleep && r.cells[i].m.awake
      && |Step(r, TickAt(now)).cells| == |r.cells| && Off(Step(r, TickAt(now)).cells[i])
  {
    PowerUpInv(h);
    StepKeepsInv(h, WakeAll(mask));
    WakeRaises(h, mask);
    var w := Step(h, WakeAll(mask));
    assert h.cells[i] == Cell(InitialMotor(i), HomingPlan(false, 0, 0, 0, 0, 0, 0), Slot(false, 0, 0), false, false, false);
    assert w.limits;
    assert KeptAwake(w, i, 0);
    hide PowerUp, Step, Inv;
    KeptAwakeTicks(w, i, 0, times);
    var r := Run(w, Ticks(times));
    AwakeTooLong(r, i, if times == [] then 0 else times[|times| - 1], now);
  }

  lemma {:induction false} AwakeTooLong(r: Hw, i: nat, at: nat, now: nat)
    requires Inv(r) && KeptAwake(r, i, at) && at < 96000 <= now
    ensures |Step(r, TickAt(now)).cells| == |r.cells| && Off(Step(r, TickAt(now)).cells[i])
  {
    var c := r.cells[i];
    assert (now - at / 1000 * 1000) / 1000 >= 96 - at / 1000;
    assert Exhausted(r, now, i);
    hide Step, BudgetAt, Exhausted, Inv;
    TickTurnsOff(r, now, i);
  }
}
