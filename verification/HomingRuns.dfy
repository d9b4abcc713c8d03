/** HOME as a protocol: three legs per motor, one barrier per leg for all motors in it. */
module HomingRuns {
  import opened MotorTypes
  import opened HardwareModel
  import opened HardwareRuns

  function Run(h: Hw, es: seq<Event>): Hw
    decreases |es|
  {
    if es == [] then h else Run(Step(h, es[0]), es[1..])
  }

  ghost predicate PossibleRun(h: Hw, es: seq<Event>)
    decreases |es|
  {
    es == [] || (Possible(h, es[0]) && PossibleRun(Step(h, es[0]), es[1..]))
  }

  lemma {:induction false} RunKeepsInv(h: Hw, es: seq<Event>)
    requires Inv(h) && PossibleRun(h, es)
    ensures Inv(Run(h, es)) && Extends(h, Run(h, es))
    decreases |es|
  {
    hide Step;
    hide Inv;
    if es != [] {
      StepKeepsInv(h, es[0]);
      RunKeepsInv(Step(h, es[0]), es[1..]);
    }
  }

  /** The controller as it comes out of its constructor. */
  ghost predicate PowerUp(h: Hw) {
    && h.trace == [Latch(seq(|h.cells|, _ => false), seq(|h.cells|, _ => false))]
    && forall i :: 0 <= i < |h.cells| ==>
         h.cells[i] == Cell(InitialMotor(i), HomingPlan(false, 0, 0, 0, 0, 0, 0), Slot(false, 0, 0), false, false, false)
  }

  lemma {:induction false} PowerUpInv(h: Hw)
    requires PowerUp(h)
    ensures Inv(h)
  {
    assert Dirs(h.cells) == seq(|h.cells|, _ => false);
    assert Sleeps(h.cells) == seq(|h.cells|, _ => false);
    assert Drop(h.trace) == [];
  }

  /** In every run from power-up the registers hold the controller's bits and every start found
      its motor awake and pointing its way. */
  lemma {:induction false} PowerUpRunsSafe(h: Hw, es: seq<Event>)
    requires PowerUp(h) && PossibleRun(h, es)
    ensures Inv(Run(h, es)) && InSync(Run(h, es)) && SafeStarts(Run(h, es).trace)
  {
    PowerUpInv(h);
    RunKeepsInv(h, es);
  }

  /** The motors a call selects. */
  function Selected(e: Event): Mask {
    match e
    case MoveTo(mask, _, _, _, _) => mask
    case HomeAll(mask, _, _, _, _, _, _) => mask
    case WakeAll(mask) => mask
    case SleepAll(mask) => mask
    case _ => {}
  }

  /** WAKE, SLEEP, MOVE and HOME leave the latch bits and plans of other motors alone. */
  lemma {:induction false} OtherMotorsUntouched(h: Hw, e: Event, k: nat)
    requires Inv(h) && k < |h.cells| && k !in Selected(e)
    requires e.MoveTo? || e.HomeAll? || e.WakeAll? || e.SleepAll?
    ensures |Step(h, e).cells| == |h.cells| && Step(h, e).cells[k] == h.cells[k]
    ensures StartsOf(Step(h, e).trace, k) == StartsOf(h.trace, k)
  {
    hide MoveAbsMask;
    hide HomeMask;
    hide Inv;
    match e
    case MoveTo(mask, target, speed, accel, now) => MoveIs(h, mask, target, speed, accel, now, k);
    case HomeAll(mask, overshoot, backoff, fullRange, speed, accel, now) =>
      HomeIs(h, mask, overshoot, backoff, fullRange, speed, accel, now, k);
    case WakeAll(mask) => WakeSleepIs(h, mask);
    case SleepAll(mask) => WakeSleepIs(h, mask);
    case _ =>
  }

  // ---------------- lockstep ----------------

  predicate Together(h: Hw, i: nat, j: nat) {
    i < |h.cells| && j < |h.cells|
    && (h.cells[i].plan.active && h.cells[j].plan.active ==> h.cells[i].plan.phase == h.cells[j].plan.phase)
  }

  lemma {:induction false} PassKeepsPlan(c: Cell, limits: bool, now: nat)
    ensures var p := PassCell(c, limits, now);
      && p.plan == (if p.plan.active then c.plan else c.plan.(active := false))
      && (p.plan.active ==> p.m.moving == c.slot.moving)
      && (c.plan.active && !p.plan.active ==> Overrun(Charge(c.m, now), limits))
  {
    hide Charge;
  }

  /** What one tick does to a motor that is homing: it advances by at most one leg, it
      advances only when no motor still homing in its leg is moving in the adapter, and then
      all of them advance with it. */
  lemma {:induction false} TickLeg(h: Hw, now: nat, i: nat, k: nat)
    requires Inv(h) && i < |h.cells| && k < |h.cells|
    ensures |TickHw(h, now).cells| == |h.cells|
    ensures var c, r := h.cells[i].plan, TickHw(h, now).cells[i].plan;
      && (r.active ==> c.active && c.phase <= r.phase <= c.phase + 1)
      && (StartsOf(TickHw(h, now).trace, i) != StartsOf(h.trace, i) ==> r.active && r.phase == c.phase + 1)
    ensures var c, r := h.cells[i].plan, TickHw(h, now).cells[i].plan;
      var ck, rk := h.cells[k].plan, TickHw(h, now).cells[k].plan;
      r.active && r.phase == c.phase + 1 && ck.phase == c.phase && ck.active && rk.active ==>
        !h.cells[k].slot.moving && rk.phase == c.phase + 1
  {
    hide PassCell;
    hide TickHw;
    hide LegTarget;
    TickIs(h, now, i);
    TickIs(h, now, k);
    PassKeepsPlan(h.cells[i], h.limits, now);
    PassKeepsPlan(h.cells[k], h.limits, now);
  }

  /** A call that homes both motors or neither. */
  predicate Alike(e: Event, i: nat, j: nat) {
    e.HomeAll? ==> (i in e.mask <==> j in e.mask)
  }

  lemma {:induction false} StepKeepsTogether(h: Hw, e: Event, i: nat, j: nat)
    requires Inv(h) && Possible(h, e) && Together(h, i, j) && Alike(e, i, j)
    ensures Together(Step(h, e), i, j)
  {
    hide MoveAbsMask;
    hide HomeMask;
    hide TickHw;
    hide Inv, StartsOf, HomeEstimate;
    match e
    case Advance(_) =>
    case TickAt(now) =>
      TickLeg(h, now, i, j);
      TickLeg(h, now, j, i);
    case MoveTo(mask, target, speed, accel, now) =>
      MoveIs(h, mask, target, speed, accel, now, i);
      MoveIs(h, mask, target, speed, accel, now, j);
    case HomeAll(mask, overshoot, backoff, fullRange, speed, accel, now) =>
      HomeIs(h, mask, overshoot, backoff, fullRange, speed, accel, now, i);
      HomeIs(h, mask, overshoot, backoff, fullRange, speed, accel, now, j);
    case WakeAll(mask) => WakeSleepIs(h, mask);
    case SleepAll(mask) => WakeSleepIs(h, mask);
    case SetLimits(_) =>
  }

  /** Motors homed by the same calls are in the same leg whenever both are still homing. */
  lemma {:induction false} HomeLockstep(h: Hw, es: seq<Event>, i: nat, j: nat)
    requires Inv(h) && PossibleRun(h, es) && Together(h, i, j)
    requires forall k :: 0 <= k < |es| ==> Alike(es[k], i, j)
    ensures Together(Run(h, es), i, j)
    decreases |es|
  {
    hide Step;
    hide Inv;
    if es != [] {
      StepKeepsInv(h, es[0]);
      StepKeepsTogether(h, es[0], i, j);
      HomeLockstep(Step(h, es[0]), es[1..], i, j);
    }
  }

  /** And those homed by one call in any state reached from power-up are. */
  lemma {:induction false} HomeCallLockstep(h: Hw, before: seq<Event>, mask: Mask, overshoot: int, backoff: int,
                                            fullRange: int, speed: int, accel: int, now: nat,
                                            es: seq<Event>, i: nat, j: nat)
    requires PowerUp(h) && PossibleRun(h, before)
    requires i < |Run(h, before).cells| && j < |Run(h, before).cells| && i in mask && j in mask
    requires HomeMask(Run(h, before), mask, overshoot, backoff, fullRange, speed, accel, now).1
    requires PossibleRun(HomeMask(Run(h, before), mask, overshoot, backoff, fullRange, speed, accel, now).0, es)
    requires forall k :: 0 <= k < |es| ==> Alike(es[k], i, j)
    ensures Together(Run(HomeMask(Run(h, before), mask, overshoot, backoff, fullRange, speed, accel, now).0, es), i, j)
  {
    hide HomeMask, HomeEstimate, StartsOf, Alike;
    PowerUpRunsSafe(h, before);
    var s0 := Run(h, before);
    hide Inv, Run, PossibleRun, PowerUp;
    HomeIs(s0, mask, overshoot, backoff, fullRange, speed, accel, now, i);
    HomeIs(s0, mask, overshoot, backoff, fullRange, speed, accel, now, j);
    HomeLockstep(HomeMask(s0, mask, overshoot, backoff, fullRange, speed, accel, now).0, es, i, j);
  }

  // ---------------- progress ----------------

  /** Motor k is homing in this phase and the tick does not put it to sleep. */
  predicate Homes(h: Hw, now: nat, k: int, phase: nat) {
    0 <= k < |h.cells| && h.cells[k].plan.active && h.cells[k].plan.phase == phase
    && !Overrun(Charge(h.cells[k].m, now), h.limits)
  }

  /** Some motor homes in this phase and all that do have arrived. */
  ghost predicate LegOver(h: Hw, now: nat, phase: nat) {
    && (exists k :: Homes(h, now, k, phase))
    && (forall k :: Homes(h, now, k, phase) ==> !h.cells[k].slot.moving)
  }

  lemma PassHomesIff(h: Hw, now: nat, k: nat, phase: nat)
    requires k < |h.cells|
    ensures Waiting(Passed(h, now)[k], phase) <==> Homes(h, now, k, phase)
    ensures Homes(h, now, k, phase) ==> Passed(h, now)[k].m.moving == h.cells[k].slot.moving
  {
    hide Charge;
  }

  lemma {:induction false} LegOverReady(h: Hw, now: nat, phase: nat)
    ensures Ready(Passed(h, now), phase) <==> LegOver(h, now, phase)
  {
    hide Charge, PassCell, Waiting, Homes;
    forall k | 0 <= k < |h.cells|
      ensures Waiting(Passed(h, now)[k], phase) <==> Homes(h, now, k, phase)
      ensures Homes(h, now, k, phase) ==> Passed(h, now)[k].m.moving == h.cells[k].slot.moving
    {
      PassHomesIff(h, now, k, phase);
    }
    HomesInRange(h, now, phase);
  }

  lemma HomesInRange(h: Hw, now: nat, phase: nat)
    ensures forall k :: Homes(h, now, k, phase) ==> 0 <= k < |h.cells|
  {
  }

  /** A tick takes a motor on its first or second leg to the next one if and only if all motors
      on its leg have arrived and, for the second leg, the tick does not already launch motors
      on the first; and it ends the third leg if and only if the motor has arrived. */
  lemma {:induction false} TickAdvancesIff(h: Hw, now: nat, i: nat, phase: nat)
    requires Inv(h) && phase <= 2 && Homes(h, now, i, phase)
    ensures |TickHw(h, now).cells| == |h.cells|
    ensures var r := TickHw(h, now).cells[i].plan;
      && (phase == 0 ==> (r.active && r.phase == 1 <==> LegOver(h, now, 0)))
      && (phase == 1 ==> (r.active && r.phase == 2 <==> LegOver(h, now, 1) && !LegOver(h, now, 0)))
      && (phase == 2 ==> (!r.active <==> !h.cells[i].slot.moving))
  {
    HomesInRange(h, now, phase);
    hide PassCell, TickHw, LegTarget, Homes, LegOver, StartsOf, Inv;
    TickIs(h, now, i);
    PassHomesIff(h, now, i, phase);
    PassKeepsPlan(h.cells[i], h.limits, now);
    LegOverReady(h, now, 0);
    LegOverReady(h, now, 1);
    hide Ready;
  }

  // ---------------- the legs of one motor ----------------

  /** The three starts of a HOME that begins at c0. */
  function Legs(id: nat, c0: int, plan: HomingPlan): seq<Act> {
    var c1 := c0 - (plan.fullRange + plan.overshoot);
    var c2 := c1 + plan.backoff;
    [Start(id, c0, c1), Start(id, c1, c2), Start(id, c2, c2 + plan.fullRange / 2)]
  }

  /** Motor i is homing; since the call, before which its starts were earlier, it got exactly
      the legs up to its phase, and the last of them is where the adapter is heading. */
  predicate OnLeg(h: Hw, i: nat, earlier: seq<Act>, c0: int, plan: HomingPlan) {
    i < |h.cells|
    && var c := h.cells[i];
      && c.plan.active && c.plan.phase <= 2 && c.plan == plan.(phase := c.plan.phase)
      && StartsOf(h.trace, i) == earlier + Legs(i, c0, plan)[..c.plan.phase + 1]
      && c.slot.target == Legs(i, c0, plan)[c.plan.phase].target
  }

  /** All three legs were issued, and the motor is homed at position 0. */
  predicate Completed(h: Hw, i: nat, earlier: seq<Act>, c0: int, plan: HomingPlan) {
    i < |h.cells|
    && var c := h.cells[i];
      && !c.plan.active && c.m.homed && c.m.stepsSinceHome == 0
      && c.m.position == 0 && c.slot == Slot(false, 0, 0)
      && StartsOf(h.trace, i) == earlier + Legs(i, c0, plan)
  }

  lemma {:induction false} HomeStartsFirstLeg(h: Hw, mask: Mask, overshoot: int, backoff: int, fullRange: int,
                                              speed: int, accel: int, now: nat, i: nat)
    requires Inv(h) && i < |h.cells| && i in mask
    requires HomeMask(h, mask, overshoot, backoff, fullRange, speed, accel, now).1
    ensures OnLeg(HomeMask(h, mask, overshoot, backoff, fullRange, speed, accel, now).0, i, StartsOf(h.trace, i),
                  h.cells[i].slot.position, NewPlan(overshoot, backoff, fullRange, speed, accel))
  {
    hide HomeMask;
    hide HomeEstimate;
    HomeIs(h, mask, overshoot, backoff, fullRange, speed, accel, now, i);
  }

  /** One tick of a homing motor: it stays on its leg, or starts the next one from exactly
      where the last one ended, or completes, or is cancelled by its overrun budget. */
  lemma {:induction false} TickOnLeg(h: Hw, now: nat, i: nat, earlier: seq<Act>, c0: int, plan: HomingPlan)
    requires Inv(h) && OnLeg(h, i, earlier, c0, plan) && plan.fullRange > 0
    ensures var r := TickHw(h, now);
      || OnLeg(r, i, earlier, c0, plan)
      || (h.cells[i].plan.phase == 2 && Completed(r, i, earlier, c0, plan))
      || (|r.cells| == |h.cells| && !r.cells[i].plan.active && Overrun(Charge(h.cells[i].m, now), h.limits)
          && StartsOf(r.trace, i) == StartsOf(h.trace, i) && r.cells[i].m.homed == h.cells[i].m.homed)
  {
    hide PassCell;
    hide TickHw;
    hide Charge;
    hide StartsOf;
    hide InSync;
    hide SafeStarts;
    TickIs(h, now, i);
    PassKeepsPlan(h.cells[i], h.limits, now);
    PassCellOk(h.cells[i], h.limits, now);
    var c, p := h.cells[i], Passed(h, now)[i];
    var open := OpenPhase(Passed(h, now));
    var legs := Legs(i, c0, plan);
    if p.plan.active && open < 2 && Waiting(p, open) {
      assert !p.m.moving && c.slot.position == legs[open].target;
      assert LegStart(p, i, open) == legs[open + 1];
      assert legs[..open + 1] + [legs[open + 1]] == legs[..open + 2];
    } else if p.plan.active && HomeDone(p) {
      assert legs[..3] == legs;
    }
  }

  /** No event but its own HOME and MOVE calls takes a homing motor off its legs. */
  lemma {:induction false} StepOnLeg(h: Hw, e: Event, i: nat, earlier: seq<Act>, c0: int, plan: HomingPlan)
    requires Inv(h) && Possible(h, e) && OnLeg(h, i, earlier, c0, plan) && plan.fullRange > 0
    requires e.MoveTo? || e.HomeAll? ==> i !in e.mask
    ensures var r := Step(h, e);
      || OnLeg(r, i, earlier, c0, plan)
      || (e.TickAt? && Completed(r, i, earlier, c0, plan))
      || (e.TickAt? && |r.cells| == |h.cells| && !r.cells[i].plan.active && Overrun(Charge(h.cells[i].m, e.now), h.limits)
          && r.cells[i].m.homed == h.cells[i].m.homed)
  {
    hide MoveAbsMask;
    hide HomeMask;
    hide TickHw;
    hide Inv;
    hide Legs;
    hide Charge;
    match e
    case Advance(_) =>
    case TickAt(now) => TickOnLeg(h, now, i, earlier, c0, plan);
    case MoveTo(_, _, _, _, _) => OtherMotorsUntouched(h, e, i);
    case HomeAll(_, _, _, _, _, _, _) => OtherMotorsUntouched(h, e, i);
    case WakeAll(mask) => WakeSleepIs(h, mask);
    case SleepAll(mask) => WakeSleepIs(h, mask);
    case SetLimits(_) =>
  }

  /** Motor i is still homing after each of the events. */
  predicate KeepsHoming(h: Hw, es: seq<Event>, i: nat)
    decreases |es|
  {
    i < |h.cells| && h.cells[i].plan.active && (es == [] || KeepsHoming(Step(h, es[0]), es[1..], i))
  }

  /** While a HOME lasts its motor has issued exactly the legs up to its phase; when it ends
      it has either issued all three and is homed at 0, or overran its budget with limits on. */
  lemma {:induction false} HomeRunsItsLegs(h: Hw, es: seq<Event>, last: Event, i: nat, earlier: seq<Act>, c0: int, plan: HomingPlan)
    requires Inv(h) && OnLeg(h, i, earlier, c0, plan) && plan.fullRange > 0
    requires PossibleRun(h, es) && Possible(Run(h, es), last) && KeepsHoming(h, es, i)
    requires forall k :: 0 <= k < |es| && (es[k].MoveTo? || es[k].HomeAll?) ==> i !in es[k].mask
    requires last.MoveTo? || last.HomeAll? ==> i !in last.mask
    ensures OnLeg(Run(h, es), i, earlier, c0, plan)
    ensures var r := Step(Run(h, es), last);
      |r.cells| == |h.cells|
      && (!r.cells[i].plan.active ==>
            || Completed(r, i, earlier, c0, plan)
            || (last.TickAt? && Overrun(Charge(Run(h, es).cells[i].m, last.now), Run(h, es).limits)
                && r.cells[i].m.homed == Run(h, es).cells[i].m.homed))
    decreases |es|
  {
    hide Step;
    hide Inv;
    hide Charge;
    hide Legs;
    if es == [] {
      StepKeepsInv(h, last);
      StepOnLeg(h, last, i, earlier, c0, plan);
    } else {
      StepKeepsInv(h, es[0]);
      StepOnLeg(h, es[0], i, earlier, c0, plan);
      HomeRunsItsLegs(Step(h, es[0]), es[1..], last, i, earlier, c0, plan);
    }
  }

  /** The same for a HOME called in any state that a run from power-up reaches. */
  lemma {:induction false} HomeCallRunsItsLegs(h: Hw, before: seq<Event>, mask: Mask, overshoot: int, backoff: int,
                                               fullRange: int, speed: int, accel: int, now: nat,
                                               es: seq<Event>, last: Event, i: nat)
    requires PowerUp(h) && PossibleRun(h, before)
    requires i < |Run(h, before).cells| && i in mask
    requires HomeMask(Run(h, before), mask, overshoot, backoff, fullRange, speed, accel, now).1
    requires var s := HomeMask(Run(h, before), mask, overshoot, backoff, fullRange, speed, accel, now).0;
      PossibleRun(s, es) && Possible(Run(s, es), last) && KeepsHoming(s, es, i)
    requires forall k :: 0 <= k < |es| && (es[k].MoveTo? || es[k].HomeAll?) ==> i !in es[k].mask
    requires last.MoveTo? || last.HomeAll? ==> i !in last.mask
    ensures var s0, plan := Run(h, before), NewPlan(overshoot, backoff, fullRange, speed, accel);
      var s := HomeMask(s0, mask, overshoot, backoff, fullRange, speed, accel, now).0;
      var u, r := Run(s, es), Step(Run(s, es), last);
      && OnLeg(u, i, StartsOf(s0.trace, i), s0.cells[i].slot.position, plan)
      && |r.cells| == |s0.cells|
      && (!r.cells[i].plan.active ==>
            || Completed(r, i, StartsOf(s0.trace, i), s0.cells[i].slot.position, plan)
            || (last.TickAt? && Overrun(Charge(u.cells[i].m, last.now), u.limits) && r.cells[i].m.homed == u.cells[i].m.homed))
  {
    hide Step, HomeMask, Inv, OnLeg, Completed, Charge, KeepsHoming, StartsOf;
    PowerUpRunsSafe(h, before);
    var s0 := Run(h, before);
    HomeStartsFirstLeg(s0, mask, overshoot, backoff, fullRange, speed, accel, now, i);
    HomeIs(s0, mask, overshoot, backoff, fullRange, speed, accel, now, i);
    var s := HomeMask(s0, mask, overshoot, backoff, fullRange, speed, accel, now).0;
    HomeRunsItsLegs(s, es, last, i, StartsOf(s0.trace, i), s0.cells[i].slot.position,
                    NewPlan(overshoot, backoff, fullRange, speed, accel));
  }

  /** Nothing but the end of a third leg makes a motor homed. */
  lemma {:induction false} HomedOnlyByThirdLeg(h: Hw, e: Event, i: nat)
    requires Inv(h) && Possible(h, e) && i < |h.cells|
    requires |Step(h, e).cells| == |h.cells| && !h.cells[i].m.homed && Step(h, e).cells[i].m.homed
    ensures e.TickAt? && h.cells[i].plan.active && h.cells[i].plan.phase == 2 && !h.cells[i].slot.moving
  {
    hide MoveAbsMask;
    hide HomeMask;
    hide TickHw;
    hide PassCell;
    match e
    case TickAt(now) =>
      TickIs(h, now, i);
      PassKeepsPlan(h.cells[i], h.limits, now);
      PassCellOk(h.cells[i], h.limits, now);
    case MoveTo(mask, target, speed, accel, now) => MoveIs(h, mask, target, speed, accel, now, i);
    case HomeAll(mask, overshoot, backoff, fullRange, speed, accel, now) =>
      HomeIs(h, mask, overshoot, backoff, fullRange, speed, accel, now, i);
    case _ =>
  }

  // ---------------- calls that disturb a HOME ----------------

  lemma MoveAcceptedIff(h: Hw, mask: Mask, target: int, speed: int, accel: int, now: nat)
    ensures MoveAbsMask(h, mask, target, speed, accel, now).1 <==> !AnyRunning(h.cells, mask)
  {
  }

  lemma HomeAcceptedIff(h: Hw, mask: Mask, overshoot: int, backoff: int, fullRange: int, speed: int, accel: int, now: nat)
    ensures HomeMask(h, mask, overshoot, backoff, fullRange, speed, accel, now).1 <==> !AnyRunning(h.cells, mask)
  {
    hide HomeEstimate;
  }

  /** A motor that waits at a barrier is idle in the adapter, so nothing protects its HOME: a
      MOVE that selects a homing motor leaves it on its legs if and only if the adapter still
      moves some selected motor, for then the MOVE is refused. */
  lemma {:induction false} HomeSurvivesMoveIff(h: Hw, i: nat, earlier: seq<Act>, c0: int, plan: HomingPlan,
                                               mask: Mask, target: int, speed: int, accel: int, now: nat)
    requires Inv(h) && OnLeg(h, i, earlier, c0, plan) && i in mask
    ensures OnLeg(MoveAbsMask(h, mask, target, speed, accel, now).0, i, earlier, c0, plan) <==> AnyRunning(h.cells, mask)
  {
    hide MoveAbsMask, AnyRunning, Inv, StartsOf;
    MoveIs(h, mask, target, speed, accel, now, i);
    MoveAcceptedIff(h, mask, target, speed, accel, now);
  }

  /** The same for a second HOME, which starts its legs from wherever the motor waits. */
  lemma {:induction false} HomeSurvivesHomeIff(h: Hw, i: nat, earlier: seq<Act>, c0: int, plan: HomingPlan, mask: Mask,
                                               overshoot: int, backoff: int, fullRange: int, speed: int, accel: int, now: nat)
    requires Inv(h) && OnLeg(h, i, earlier, c0, plan) && i in mask
    ensures OnLeg(HomeMask(h, mask, overshoot, backoff, fullRange, speed, accel, now).0, i, earlier, c0, plan)
       <==> AnyRunning(h.cells, mask)
  {
    hide HomeMask, AnyRunning, Inv, StartsOf, HomeEstimate;
    HomeIs(h, mask, overshoot, backoff, fullRange, speed, accel, now, i);
    HomeAcceptedIff(h, mask, overshoot, backoff, fullRange, speed, accel, now);
  }

  /** A tick leaves a motor at its barrier while another one in its leg still moves. */
  lemma {:induction false} TickWaits(h: Hw, now: nat, i: nat, k: nat)
    requires Inv(h) && i < |h.cells| && k < |h.cells|
    requires h.cells[i].plan.active && h.cells[k].plan.active && h.cells[i].plan.phase == h.cells[k].plan.phase <= 1
    requires h.cells[k].slot.moving
    requires !Overrun(Charge(h.cells[i].m, now), h.limits) && !Overrun(Charge(h.cells[k].m, now), h.limits)
    ensures var r := TickHw(h, now);
      && Inv(r) && r.cells[i].plan == h.cells[i].plan && r.cells[i].slot == h.cells[i].slot
      && StartsOf(r.trace, i) == StartsOf(h.trace, i)
  {
    StepKeepsInv(h, TickAt(now));
    TickIs(h, now, i);
    PassKeepsPlan(h.cells[i], h.limits, now);
    PassKeepsPlan(h.cells[k], h.limits, now);
    PassKeepsSlot(h.cells[i], h.limits, now);
    hide PassCell, TickHw, Charge, StartsOf, Overrun, Inv;
    assert Waiting(Passed(h, now)[k], h.cells[k].plan.phase) && Passed(h, now)[k].m.moving;
    assert OpenPhase(Passed(h, now)) != h.cells[k].plan.phase;
  }

  lemma PassKeepsSlot(c: Cell, limits: bool, now: nat)
    ensures PassCell(c, limits, now).slot == c.slot
  {
    hide Charge;
  }

  const HOME_BOTH: Event := HomeAll({0, 1}, 800, 150, 2400, 4000, 16000, 1)
  const FIRST_ARRIVES: Event := Advance([Slot(false, -3200, -3200), Slot(true, -1000, -3200)])
  const MOVE_FIRST: Event := MoveTo({0}, 5, 4000, 16000, 3)

  /** Motor i of two has just been started on its first leg, with its whole budget. */
  predicate JustHomed(h: Hw, i: nat, earlier: seq<Act>) {
    && i < |h.cells| == 2
    && OnLeg(h, i, earlier, 0, NewPlan(800, 150, 2400, 4000, 16000)) && h.cells[i].plan.phase == 0
    && h.cells[i].slot == Slot(true, 0, -3200)
    && h.cells[i].m.budgetTenths == BUDGET_TENTHS_MAX && h.cells[i].m.lastUpdateMs == 0
  }

  lemma {:induction false} BothHomed(h: Hw, i: nat)
    requires PowerUp(h) && |h.cells| == 2 && i < 2
    ensures Inv(Step(h, HOME_BOTH)) && JustHomed(Step(h, HOME_BOTH), i, StartsOf(h.trace, i))
  {
    PowerUpInv(h);
    assert h.cells[i] == Cell(InitialMotor(i), HomingPlan(false, 0, 0, 0, 0, 0, 0), Slot(false, 0, 0), false, false, false);
    NobodyRuns(h, {0, 1});
    hide Inv, PowerUp, AnyRunning, HomeMask;
    HomedFromRest(h, {0, 1}, i);
  }

  lemma {:induction false} HomedFromRest(h: Hw, mask: Mask, i: nat)
    requires Inv(h) && |h.cells| == 2 && i < 2 && i in mask && !AnyRunning(h.cells, mask)
    requires h.cells[i].slot == Slot(false, 0, 0)
    requires h.cells[i].m.budgetTenths == BUDGET_TENTHS_MAX && h.cells[i].m.lastUpdateMs == 0
    ensures var r := HomeMask(h, mask, 800, 150, 2400, 4000, 16000, 1).0;
      Inv(r) && JustHomed(r, i, StartsOf(h.trace, i))
  {
    hide HomeMask, Inv, HomeEstimate, StartsOf, AnyRunning;
    HomeAcceptedIff(h, mask, 800, 150, 2400, 4000, 16000, 1);
    HomeStartsFirstLeg(h, mask, 800, 150, 2400, 4000, 16000, 1, i);
    HomeIs(h, mask, 800, 150, 2400, 4000, 16000, 1, i);
  }

  lemma NobodyRuns(h: Hw, mask: Mask)
    requires PowerUp(h)
    ensures !AnyRunning(h.cells, mask)
  {
  }

  /** The controller after both motors were homed, the first arrived, and a tick kept it waiting. */
  function AtBarrier(h: Hw): Hw { Run(h, [HOME_BOTH, FIRST_ARRIVES, TickAt(2)]) }

  lemma RunThree(h: Hw, a: Event, b: Event, c: Event)
    ensures Run(h, [a, b, c]) == Step(Step(Step(h, a), b), c)
    ensures PossibleRun(h, [a, b, c]) <==>
              Possible(h, a) && Possible(Step(h, a), b) && Possible(Step(Step(h, a), b), c)
  {
    hide Step, Possible;
    assert [a, b, c][1..] == [b, c] && [b, c][1..] == [c] && [c][1..] == [];
    var r := Step(Step(Step(h, a), b), c);
    assert Run(r, []) == r && PossibleRun(r, []);
    var q := Step(Step(h, a), b);
    assert Run(q, [c]) == r && (PossibleRun(q, [c]) <==> Possible(q, c));
    var p := Step(h, a);
    assert Run(p, [b, c]) == r && (PossibleRun(p, [b, c]) <==> Possible(p, b) && Possible(q, c));
  }

  /** Such a state is reached from power-up with two motors, and a MOVE of the first is accepted
      in it and takes it off its legs. */
  lemma {:induction false} MoveDisturbsHome(h: Hw)
    requires PowerUp(h) && |h.cells| == 2
    ensures PossibleRun(h, [HOME_BOTH, FIRST_ARRIVES, TickAt(2)])
    ensures WaitsAtBarrier(AtBarrier(h), StartsOf(h.trace, 0)) && MoveAbsMask(AtBarrier(h), {0}, 5, 4000, 16000, 3).1
    ensures !OnLeg(Step(AtBarrier(h), MOVE_FIRST), 0, StartsOf(h.trace, 0), 0, NewPlan(800, 150, 2400, 4000, 16000))
  {
    RunThree(h, HOME_BOTH, FIRST_ARRIVES, TickAt(2));
    BothHomed(h, 0);
    BothHomed(h, 1);
    hide Step, PowerUp, Inv, JustHomed;
    FirstArrives(Step(h, HOME_BOTH), StartsOf(h.trace, 0), StartsOf(h.trace, 1));
    FirstMoved(AtBarrier(h), StartsOf(h.trace, 0));
  }

  /** Motor 0 waits at the first barrier. */
  predicate WaitsAtBarrier(h: Hw, earlier: seq<Act>) {
    && OnLeg(h, 0, earlier, 0, NewPlan(800, 150, 2400, 4000, 16000))
    && h.cells[0].plan.phase == 0 && !h.cells[0].slot.moving
  }

  lemma {:induction false} FirstArrives(h1: Hw, earlier: seq<Act>, other: seq<Act>)
    requires Inv(h1) && JustHomed(h1, 0, earlier) && JustHomed(h1, 1, other)
    ensures Possible(h1, FIRST_ARRIVES)
    ensures var r := Step(Step(h1, FIRST_ARRIVES), TickAt(2)); Inv(r) && WaitsAtBarrier(r, earlier)
  {
    hide TickHw, StartsOf, Inv;
    assert Possible(h1, FIRST_ARRIVES);
    StepKeepsInv(h1, FIRST_ARRIVES);
    var h2 := Step(h1, FIRST_ARRIVES);
    assert h2.cells[0] == h1.cells[0].(slot := Slot(false, -3200, -3200));
    assert h2.cells[1] == h1.cells[1].(slot := Slot(true, -1000, -3200));
    TickWaits(h2, 2, 0, 1);
  }

  lemma {:induction false} FirstMoved(h: Hw, earlier: seq<Act>)
    requires Inv(h) && WaitsAtBarrier(h, earlier)
    ensures MoveAbsMask(h, {0}, 5, 4000, 16000, 3).1
    ensures !OnLeg(Step(h, MOVE_FIRST), 0, earlier, 0, NewPlan(800, 150, 2400, 4000, 16000))
  {
    assert !AnyRunning(h.cells, {0});
    hide AnyRunning, MoveAbsMask, Inv, StartsOf;
    MoveAcceptedIff(h, {0}, 5, 4000, 16000, 3);
    HomeSurvivesMoveIff(h, 0, earlier, 0, NewPlan(800, 150, 2400, 4000, 16000), {0}, 5, 4000, 16000, 3);
  }
}
