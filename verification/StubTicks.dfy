/** What a tick of the stub backend does to each motor, in terms of its budget and its plan. */
module StubTicks {
  import opened IntegerMath
  import opened MotorTypes
  import opened StubBackend

  /** With limits on, the motor has used up its budget and the five seconds of grace. */
  predicate Exhausted(u: Unit, limits: bool, now: nat) { limits && BudgetAt(u.m, now) < -50 }

  predicate Due(u: Unit, now: nat) { u.p.active && now >= u.p.endMs }

  /** An operation that was under way is over, and on record with its duration. */
  predicate OpEnded(m: MotorState, r: MotorState, now: nat) {
    && !r.lastOpOngoing
    && (m.lastOpOngoing && 0 != m.lastOpStartedMs <= now ==> r.lastOpLastMs == now - m.lastOpStartedMs)
  }

  /** An exhausted motor is put to sleep where it is and loses its plan; one whose plan is due stands
      at its target, asleep, homed if the plan was a HOME; any other motor only has its books kept. */
  lemma {:induction false} TickOfOne(u: Unit, limits: bool, now: nat)
    requires BudgetInRange(u.m)
    ensures var r := TickUnit(u, limits, now);
      && r.m.budgetTenths == BudgetAt(u.m, now)
      && (if Exhausted(u, limits, now) then
            && !r.m.awake && !r.m.moving && !r.p.active
            && r.m.position == u.m.position && r.m.homed == u.m.homed && r.m.stepsSinceHome == u.m.stepsSinceHome
            && (u.p.active || u.m.moving ==> OpEnded(u.m, r.m, now))
          else if Due(u, now) then
            && !r.m.awake && !r.m.moving && !r.p.active && OpEnded(u.m, r.m, now)
            && r.m.position == u.p.target && r.m.homed == (u.m.homed || u.p.isHome)
            && r.m.stepsSinceHome == if u.p.isHome then 0
                                     else u.m.stepsSinceHome + if u.m.homed then Abs(u.p.target - u.m.position) else 0
          else r == u.(m := u.m.(budgetTenths := BudgetAt(u.m, now), lastUpdateMs := r.m.lastUpdateMs)))
  {
    ChargedBudget(u.m, now);
    hide Charge, BudgetAt;
  }
}
