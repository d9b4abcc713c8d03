/** How far below zero a budget can fall over a whole run with limits on, and the two ways
    around admission: moves that go nowhere, and HOME arithmetic that wraps. */
module ThermalLimits {
  import opened IntegerMath
  import opened MotionKinematics
  import opened MotorTypes
  import opened StubBackend
  import opened CommandHandlers
  import opened ThermalRuns

  /** Some selected motor stands elsewhere. */
  ghost predicate MovesSome(t: Stub, mask: Mask, target: int) {
    exists i :: 0 <= i < |t.units| && i in mask && t.units[i].m.position != target
  }

  /** No selected motor has overrun its budget. */
  ghost predicate NoneOverrun(t: Stub, mask: Mask) {
    forall i :: 0 <= i < |t.units| && i in mask ==> t.units[i].m.budgetTenths >= OVERRUN_TENTHS
  }

  /** Limits stay on. A MOVE moves some motor, or selects no overrun one; a HOME is admitted for
      a second or more, or selects no overrun motor. All of this can be checked before the
      command, and only a HOME whose arithmetic wraps is admitted for less than a second. */
  ghost predicate Clean(s: Stub, e: Event) {
    var t := Tick(s, e.at);
    && Ticks(e.cmd)
    && e.cmd != LimitsCmd(false)
    && (e.cmd.MoveCmd? ==> MovesSome(t, e.cmd.mask, e.cmd.target) || NoneOverrun(t, e.cmd.mask))
    && (e.cmd.HomeCmd? ==>
          HomeSeconds(e.cmd.overshoot, e.cmd.backoff, e.cmd.fullRange, e.cmd.speed, e.cmd.accel) >= 1
          || NoneOverrun(t, e.cmd.mask))
  }

  /** The seconds of budget that a HOME has to find. */
  function HomeSeconds(overshoot: int, backoff: int, fullRange: int, speed: int, accel: int): nat {
    ReqSeconds(HomeReqMs(overshoot, backoff, fullRange, speed, accel))
  }

  lemma {:induction false} FittingHomeCosts(overshoot: int, backoff: int, fullRange: int, speed: int, accel: int)
    requires HomeFits(overshoot, backoff, fullRange, speed, accel)
    ensures HomeSeconds(overshoot, backoff, fullRange, speed, accel) >= 1
  {
    HomePlayedWithinAdmitted(overshoot, backoff, fullRange, speed, accel);
    ReqSecondsCover(HomeReqMs(overshoot, backoff, fullRange, speed, accel));
    hide HomeReqMs, HomeFits;
  }

  /** Clean events, each at most gap milliseconds after the one before. */
  ghost predicate CleanRun(s: Stub, es: seq<Event>, from: nat, gap: nat)
    decreases |es|
  {
    es == [] || (from <= es[0].at <= from + gap && Clean(s, es[0]) && CleanRun(Step(s, es[0]), es[1..], es[0].at, gap))
  }

  /** The lowest budget that one gap between ticks can lead to. */
  function Lowest(gap: nat): int {
    OVERRUN_TENTHS - SPEND_TENTHS_PER_SEC * ((gap + 999) / 1000)
  }

  /** Just ticked at now, and no motor that overran is still awake. */
  predicate Watched(u: Unit, now: nat, gap: nat) {
    && UnitOk(u, now)
    && now < u.m.lastUpdateMs + 1000
    && u.m.budgetTenths >= Lowest(gap)
    && (u.m.awake ==> u.m.budgetTenths >= OVERRUN_TENTHS)
  }

  ghost predicate AllWatched(s: Stub, now: nat, gap: nat) {
    forall i :: 0 <= i < |s.units| ==> Watched(s.units[i], now, gap)
  }

  lemma {:induction false} TickWatched(u: Unit, before: nat, now: nat, gap: nat)
    requires Watched(u, before, gap) && before <= now <= before + gap
    ensures Watched(TickUnit(u, true, now), now, gap)
  {
    TickUnitOk(u, true, before, now);
    var k := (now - u.m.lastUpdateMs) / 1000;
    ChargeIs(u.m, now, k);
    assert k <= (gap + 999) / 1000;
  }

  /** Starting an operation keeps a motor watched if and only if it has not overrun its budget. */
  lemma {:induction false} StartWatched(u: Unit, op: Op, now: nat, gap: nat)
    requires Watched(u, now, gap) && InTravel(op)
    requires op.Sleep? ==> !u.m.moving
    ensures Watched(OpUnit(u, op, now), now, gap) <==> op.Sleep? || u.m.budgetTenths >= OVERRUN_TENTHS
  {
  }

  /** What a clean event can do to a motor after the tick, under limits. */
  ghost predicate TickThenPaidOp(s: Stub, now: nat, r: Stub, i: nat)
    requires i < |s.units| == |r.units|
  {
    var t := Tick(s, now);
    r.units[i] == t.units[i]
    || exists op: Op :: OpAllowed(t, op) && i in op.mask && InTravel(op) && r.units[i] == OpUnit(t.units[i], op, now)
         && (op.Sleep? || t.units[i].m.budgetTenths >= OVERRUN_TENTHS)
  }

  /** The estimate of an accepted MOVE is nonzero exactly when some selected motor moves. */
  lemma {:induction false} MovingCosts(s: Stub, mask: Mask, target: int, speed: int, accel: int, before: nat, now: nat)
    requires Inv(s, before) && before <= now && s.limits
    requires HandleMove(s, mask, target, speed, accel, now).1.Accepted?
    ensures HandleMove(s, mask, target, speed, accel, now).1.estMs > 0 <==> MovesSome(Tick(s, now), mask, target)
  {
    var t, est := Tick(s, now), HandleMove(s, mask, target, speed, accel, now).1.estMs;
    var estimates := MoveEstimates(t, target, speed, accel);
    assert est == MaxSelected(estimates, mask, |estimates|) by { AcceptedEstimate(s, mask, target, speed, accel, now); }
    MaxIsOne(estimates, mask, |estimates|);
    hide HandleMove, MoveMs, Inv, Tick;
    forall i | 0 <= i < |t.units| && i in mask
      ensures estimates[i] <= est && (estimates[i] == 0 <==> t.units[i].m.position == target)
    {
      hide MaxSelected, MoveEstimates;
      MovingCost(s, mask, target, speed, accel, before, now, i);
    }
  }

  lemma AcceptedEstimate(s: Stub, mask: Mask, target: int, speed: int, accel: int, now: nat)
    requires s.limits && HandleMove(s, mask, target, speed, accel, now).1.Accepted?
    ensures var estimates := MoveEstimates(Tick(s, now), target, speed, accel);
      HandleMove(s, mask, target, speed, accel, now).1.estMs == MaxSelected(estimates, mask, |estimates|)
  {
    hide MoveEstimates, Apply, OpAllowed, ReqSeconds;
  }

  lemma {:induction false} MovingCost(s: Stub, mask: Mask, target: int, speed: int, accel: int,
                                      before: nat, now: nat, i: nat)
    requires Inv(s, before) && before <= now && s.limits && i < |s.units| && i in mask
    requires HandleMove(s, mask, target, speed, accel, now).1.Accepted?
    ensures var t, est := Tick(s, now), HandleMove(s, mask, target, speed, accel, now).1.estMs;
      && MoveEstimates(t, target, speed, accel)[i] <= est
      && (MoveEstimates(t, target, speed, accel)[i] == 0 <==> t.units[i].m.position == target)
  {
    AcceptedInTravel(s, mask, target, speed, accel, now);
    hide HandleMove, Apply, OpAllowed, TickUnit, ReqSeconds, MoveMs, Inv;
    AdmittedMove(s, mask, target, speed, accel, before, now, i);
    CostAt(Tick(s, now).units[i], target, speed, accel);
  }

  lemma AcceptedInTravel(s: Stub, mask: Mask, target: int, speed: int, accel: int, now: nat)
    requires HandleMove(s, mask, target, speed, accel, now).1.Accepted?
    ensures MIN_POS_STEPS <= target <= MAX_POS_STEPS
  {
    hide AdmitMove;
  }

  lemma {:induction false} CostAt(u: Unit, target: int, speed: int, accel: int)
    requires MIN_POS_STEPS <= u.m.position <= MAX_POS_STEPS && MIN_POS_STEPS <= target <= MAX_POS_STEPS
    ensures MoveMs(u, target, speed, accel) == 0 <==> u.m.position == target
  {
    hide MoveTime;
    MoveMsSmall(u, target, speed, accel);
    MoveTimeZeroIff(Abs(target - u.m.position), speed, accel);
  }

  lemma {:induction false} MaxIsOne(estimates: seq<nat>, mask: Mask, n: nat)
    requires n <= |estimates|
    ensures MaxSelected(estimates, mask, n) > 0 ==>
              exists i :: 0 <= i < n && i in mask && estimates[i] == MaxSelected(estimates, mask, n)
  {
    if n > 0 { MaxIsOne(estimates, mask, n - 1); }
  }

  lemma {:induction false} CleanMovePays(s: Stub, e: Event, before: nat, i: nat)
    requires Inv(s, before) && before <= e.at && s.limits && Clean(s, e) && i < |s.units| && e.cmd.MoveCmd?
    ensures |Step(s, e).units| == |s.units| && TickThenPaidOp(s, e.at, Step(s, e), i)
  {
    hide MoveEstimates;
    hide HomeReqMs;
    hide TickUnit;
    var MoveCmd(mask, target, speed, accel) := e.cmd;
    var t, op := Tick(s, e.at), MoveAbs(mask, target, speed, accel);
    var (r, reply) := HandleMove(s, mask, target, speed, accel, e.at);
    if reply.Accepted? && i in mask {
      AdmittedMove(s, mask, target, speed, accel, before, e.at, i);
      if MovesSome(t, mask, target) {
        MovingCosts(s, mask, target, speed, accel, before, e.at);
        ReqSecondsCover(reply.estMs);
      }
      assert OpAllowed(t, op) && InTravel(op) && r.units[i] == OpUnit(t.units[i], op, e.at);
    } else {
      assert r == t || (r == Apply(t, op, e.at) && (!OpAllowed(t, op) || i !in mask));
    }
  }

  lemma {:induction false} CleanHomePays(s: Stub, e: Event, before: nat, i: nat)
    requires Inv(s, before) && before <= e.at && s.limits && Clean(s, e) && i < |s.units| && e.cmd.HomeCmd?
    ensures |Step(s, e).units| == |s.units| && TickThenPaidOp(s, e.at, Step(s, e), i)
  {
    hide MoveEstimates;
    hide HomeReqMs;
    hide TickUnit;
    var HomeCmd(mask, overshoot, backoff, fullRange, speed, accel) := e.cmd;
    var t, op := Tick(s, e.at), Home(mask, overshoot, backoff, speed, accel);
    var (r, reply) := HandleHome(s, mask, overshoot, backoff, fullRange, speed, accel, e.at);
    if reply.Accepted? && i in mask {
      AdmittedHome(s, mask, overshoot, backoff, fullRange, speed, accel, before, e.at, i);
      assert OpAllowed(t, op) && InTravel(op) && r.units[i] == OpUnit(t.units[i], op, e.at);
    } else {
      assert r == t || (r == Apply(t, op, e.at) && (!OpAllowed(t, op) || i !in mask));
    }
  }

  lemma {:induction false} CleanStepPays(s: Stub, e: Event, before: nat, i: nat)
    requires Inv(s, before) && before <= e.at && s.limits && Clean(s, e) && i < |s.units|
    ensures |Step(s, e).units| == |s.units| && TickThenPaidOp(s, e.at, Step(s, e), i)
  {
    hide MoveEstimates;
    hide HomeReqMs;
    hide TickUnit;
    var t := Tick(s, e.at);
    match e.cmd
    case Query =>
    case MoveCmd(_, _, _, _) => CleanMovePays(s, e, before, i);
    case HomeCmd(_, _, _, _, _, _) => CleanHomePays(s, e, before, i);
    case WakeCmd(mask) =>
      assert Step(s, e) == t || (Step(s, e) == Apply(t, Wake(mask), e.at) && !ShortAt(t, mask, 1, i));
    case SleepCmd(mask) => assert Step(s, e) == Apply(t, Sleep(mask), e.at);
    case LimitsCmd(_) =>
  }

  lemma {:induction false} OutcomeWatched(s: Stub, before: nat, now: nat, gap: nat, r: Stub, i: nat)
    requires AllWatched(s, before, gap) && before <= now <= before + gap && s.limits
    requires i < |s.units| == |r.units| && TickThenPaidOp(s, now, r, i)
    ensures Watched(r.units[i], now, gap)
  {
    var t := Tick(s, now);
    TickWatched(s.units[i], before, now, gap);
    if r.units[i] != t.units[i] {
      var op: Op :| OpAllowed(t, op) && i in op.mask && InTravel(op) && r.units[i] == OpUnit(t.units[i], op, now)
                    && (op.Sleep? || t.units[i].m.budgetTenths >= OVERRUN_TENTHS);
      StartWatched(t.units[i], op, now, gap);
    }
  }

  /** With limits on for the whole run and ticks at most gap apart, no budget drops below
      the grace limit by more than what one gap costs. */
  lemma {:induction false} BudgetNeverFarBelow(s: Stub, es: seq<Event>, from: nat, gap: nat)
    requires s.limits && AllWatched(s, from, gap) && CleanRun(s, es, from, gap)
    ensures |Run(s, es).units| == |s.units|
    ensures forall i :: 0 <= i < |s.units| ==> Run(s, es).units[i].m.budgetTenths >= Lowest(gap)
    decreases |es|
  {
    if es != [] {
      var e := es[0];
      LimitsStay(s, e);
      WatchedAfter(s, e, from, gap);
      BudgetNeverFarBelow(Step(s, e), es[1..], e.at, gap);
    }
  }

  lemma LimitsStay(s: Stub, e: Event)
    requires s.limits && e.cmd != LimitsCmd(false)
    ensures Step(s, e).limits
  {
  }

  lemma {:induction false} InitialWatched(count: nat, gap: nat)
    ensures InitialStub(count).limits && AllWatched(InitialStub(count), 0, gap)
  {
  }

  /** The same from power-up. */
  lemma {:induction false} BudgetNeverFarBelowFromPowerUp(count: nat, es: seq<Event>, gap: nat)
    requires CleanRun(InitialStub(count), es, 0, gap)
    ensures |Run(InitialStub(count), es).units| == count
    ensures forall i :: 0 <= i < count ==> Run(InitialStub(count), es).units[i].m.budgetTenths >= Lowest(gap)
  {
    InitialWatched(count, gap);
    BudgetNeverFarBelow(InitialStub(count), es, 0, gap);
  }

  // ---------------- the condition on moves is exact ----------------

  /** One gap of whole seconds awake: the budget stays at the bound if and only if it was not
      overrun before. */
  lemma {:induction false} GapExact(u: Unit, now: nat, seconds: nat)
    requires BudgetInRange(u.m) && u.m.awake && u.m.lastUpdateMs <= now < u.m.lastUpdateMs + 1000
    requires Lowest(1000 * seconds) > BUDGET_FLOOR
    ensures TickUnit(u, true, now + 1000 * seconds).m.budgetTenths >= Lowest(1000 * seconds)
       <==> u.m.budgetTenths >= OVERRUN_TENTHS
  {
    ChargeIs(u.m, now + 1000 * seconds, seconds);
    WholeSeconds(1000 * seconds + 999, seconds);
  }

  ghost predicate BoundKept(s: Stub, now: nat, gap: nat) {
    forall es :: CleanRun(s, es, now, gap) ==>
      |Run(s, es).units| == |s.units| &&
      forall i :: 0 <= i < |s.units| ==> Run(s, es).units[i].m.budgetTenths >= Lowest(gap)
  }

  /** An accepted MOVE keeps the bound, under every clean run that follows, if and only if no
      motor it wakes has overrun; and it can only wake one that has when it moves nothing. */
  lemma {:induction false} MoveKeepsBoundIff(s: Stub, mask: Mask, target: int, speed: int, accel: int,
                                             before: nat, now: nat, seconds: nat)
    requires s.limits && AllWatched(s, before, 1000 * seconds) && before <= now <= before + 1000 * seconds
    requires Lowest(1000 * seconds) > BUDGET_FLOOR
    requires HandleMove(s, mask, target, speed, accel, now).1.Accepted?
    ensures BoundKept(HandleMove(s, mask, target, speed, accel, now).0, now, 1000 * seconds)
       <==> NoneOverrun(Tick(s, now), mask)
    ensures MovesSome(Tick(s, now), mask, target) ==> NoneOverrun(Tick(s, now), mask)
  {
    var e := Event(now, MoveCmd(mask, target, speed, accel));
    var t, r := Tick(s, now), HandleMove(s, mask, target, speed, accel, now).0;
    assert Step(s, e) == r;
    if NoneOverrun(t, mask) {
      CleanKeepsBound(s, e, before, now, 1000 * seconds);
    } else {
      var i :| 0 <= i < |t.units| && i in mask && t.units[i].m.budgetTenths < OVERRUN_TENTHS;
      AllWatchedInv(s, before, 1000 * seconds);
      AdmittedMove(s, mask, target, speed, accel, before, now, i);
      MovingCosts(s, mask, target, speed, accel, before, now);
      ReqSecondsCover(HandleMove(s, mask, target, speed, accel, now).1.estMs);
      hide HandleMove, MoveMs, ReqSeconds, TickUnit, MovesSome, BoundKept;
      WokenBreaksBound(s, MoveAbs(mask, target, speed, accel), before, now, seconds, i);
    }
  }

  /** The same for HOME, whether or not its arithmetic wraps. */
  lemma {:induction false} HomeKeepsBoundIff(s: Stub, mask: Mask, overshoot: int, backoff: int, fullRange: int,
                                             speed: int, accel: int, before: nat, now: nat, seconds: nat)
    requires s.limits && AllWatched(s, before, 1000 * seconds) && before <= now <= before + 1000 * seconds
    requires Lowest(1000 * seconds) > BUDGET_FLOOR
    requires HandleHome(s, mask, overshoot, backoff, fullRange, speed, accel, now).1.Accepted?
    ensures BoundKept(HandleHome(s, mask, overshoot, backoff, fullRange, speed, accel, now).0, now, 1000 * seconds)
       <==> NoneOverrun(Tick(s, now), mask)
    ensures HomeSeconds(overshoot, backoff, fullRange, speed, accel) >= 1 ==> NoneOverrun(Tick(s, now), mask)
  {
    var e := Event(now, HomeCmd(mask, overshoot, backoff, fullRange, speed, accel));
    var t, r := Tick(s, now), HandleHome(s, mask, overshoot, backoff, fullRange, speed, accel, now).0;
    assert Step(s, e) == r;
    if NoneOverrun(t, mask) {
      CleanKeepsBound(s, e, before, now, 1000 * seconds);
    } else {
      var i :| 0 <= i < |t.units| && i in mask && t.units[i].m.budgetTenths < OVERRUN_TENTHS;
      AllWatchedInv(s, before, 1000 * seconds);
      AdmittedHome(s, mask, overshoot, backoff, fullRange, speed, accel, before, now, i);
      hide HandleHome, StubHomeMs, HomeReqMs, ReqSeconds, TickUnit, BoundKept;
      WokenBreaksBound(s, Home(mask, overshoot, backoff, speed, accel), before, now, seconds, i);
    }
  }

  lemma {:induction false} CleanKeepsBound(s: Stub, e: Event, before: nat, now: nat, gap: nat)
    requires s.limits && AllWatched(s, before, gap) && before <= now <= before + gap && e.at == now && Clean(s, e)
    ensures BoundKept(Step(s, e), now, gap)
  {
    var r := Step(s, e);
    WatchedAfter(s, e, before, gap);
    LimitsStay(s, e);
    hide Step, Clean;
    forall es | CleanRun(r, es, now, gap)
      ensures |Run(r, es).units| == |r.units|
      ensures forall i :: 0 <= i < |r.units| ==> Run(r, es).units[i].m.budgetTenths >= Lowest(gap)
    {
      BudgetNeverFarBelow(r, es, now, gap);
    }
  }

  lemma {:induction false} WatchedAfter(s: Stub, e: Event, before: nat, gap: nat)
    requires s.limits && AllWatched(s, before, gap) && before <= e.at <= before + gap && Clean(s, e)
    ensures |Step(s, e).units| == |s.units| && AllWatched(Step(s, e), e.at, gap)
  {
    StepCount(s, e);
    hide Step, TickThenPaidOp, Clean;
    forall i | 0 <= i < |s.units|
      ensures Watched(Step(s, e).units[i], e.at, gap)
    {
      AllWatchedInv(s, before, gap);
      CleanStepPays(s, e, before, i);
      OutcomeWatched(s, before, e.at, gap, Step(s, e), i);
    }
  }

  lemma AllWatchedInv(s: Stub, now: nat, gap: nat)
    requires AllWatched(s, now, gap)
    ensures Inv(s, now)
  {
    forall i | 0 <= i < |s.units| ensures UnitOk(s.units[i], now) { assert Watched(s.units[i], now, gap); }
  }

  /** An operation that wakes an overrun motor breaks the bound. */
  lemma {:induction false} WokenBreaksBound(s: Stub, op: Op, before: nat, now: nat, seconds: nat, i: nat)
    requires s.limits && (op.MoveAbs? || op.Home?) && Lowest(1000 * seconds) > BUDGET_FLOOR
    requires i < |s.units| && i in op.mask && OpAllowed(Tick(s, now), op)
    requires var t := Tick(s, now).units[i];
      UnitOk(t, now) && now < t.m.lastUpdateMs + 1000 && t.m.budgetTenths < OVERRUN_TENTHS
    ensures !BoundKept(Apply(Tick(s, now), op, now), now, 1000 * seconds)
  {
    hide TickUnit, MoveMs, StubHomeMs, BoundKept, Lowest;
    OverrunBreaksBound(Apply(Tick(s, now), op, now), now, seconds, i);
  }

  lemma {:induction false} OverrunBreaksBound(s: Stub, now: nat, seconds: nat, i: nat)
    requires s.limits && i < |s.units| && Lowest(1000 * seconds) > BUDGET_FLOOR
    requires BudgetInRange(s.units[i].m) && s.units[i].m.awake && s.units[i].m.budgetTenths < OVERRUN_TENTHS
    requires s.units[i].m.lastUpdateMs <= now < s.units[i].m.lastUpdateMs + 1000
    ensures !BoundKept(s, now, 1000 * seconds)
  {
    hide *;
    OverrunAfterGap(s, now, seconds, i);
    BrokenByOne(s, now, 1000 * seconds, i);
  }

  lemma {:induction false} OverrunAfterGap(s: Stub, now: nat, seconds: nat, i: nat)
    requires s.limits && i < |s.units| && Lowest(1000 * seconds) > BUDGET_FLOOR
    requires BudgetInRange(s.units[i].m) && s.units[i].m.awake && s.units[i].m.budgetTenths < OVERRUN_TENTHS
    requires s.units[i].m.lastUpdateMs <= now < s.units[i].m.lastUpdateMs + 1000
    ensures Tick(s, now + 1000 * seconds).units[i].m.budgetTenths < Lowest(1000 * seconds)
  {
    hide TickUnit, Lowest;
    GapExact(s.units[i], now, seconds);
  }

  lemma OneTick(s: Stub, e: Event, now: nat, gap: nat)
    requires e.cmd.Query? && now <= e.at <= now + gap
    ensures CleanRun(s, [e], now, gap) && Run(s, [e]) == Tick(s, e.at)
  {
    assert [e][1..] == [];
    assert CleanRun(Step(s, e), [], e.at, gap);
    assert Run(Step(s, e), []) == Step(s, e);
  }

  lemma BrokenByOne(s: Stub, now: nat, gap: nat, i: nat)
    requires i < |s.units| && Tick(s, now + gap).units[i].m.budgetTenths < Lowest(gap)
    ensures !BoundKept(s, now, gap)
  {
    var e := Event(now + gap, Query);
    OneTick(s, e, now, gap);
    hide CleanRun, Run, Tick;
    assert CleanRun(s, [e], now, gap);
  }

  // ---------------- moves that go nowhere ----------------

  const STAY: Command := MoveCmd({0}, 0, DEFAULT_SPEED_SPS, DEFAULT_ACCEL_SPS2)

  /** One motor at rest at 0, kept awake by a move to where it is. */
  predicate Drained(s: Stub, k: nat) {
    && |s.units| == 1 && s.limits
    && var u := s.units[0];
      && u.m.position == 0 && u.m.awake && u.m.moving && u.p.active && !u.p.isHome
      && u.p.target == 0 && u.p.endMs == 1000 * k
      && u.m.lastUpdateMs == 1000 * k
      && u.m.budgetTenths == Max(BUDGET_FLOOR, BUDGET_TENTHS_MAX - SPEND_TENTHS_PER_SEC * k)
  }

  /** A move to where the motor already is costs nothing to admit, whatever its budget. */
  lemma {:induction false} StayAlwaysAdmitted(s0: Stub, now: nat)
    requires |s0.units| == 1 && s0.limits
    requires var u := TickUnit(s0.units[0], true, now); u.m.position == 0 && !u.m.moving
    ensures var t := Tick(s0, now);
      HandleMove(s0, {0}, 0, DEFAULT_SPEED_SPS, DEFAULT_ACCEL_SPS2, now)
      == (Apply(t, MoveAbs({0}, 0, DEFAULT_SPEED_SPS, DEFAULT_ACCEL_SPS2), now), Accepted(NoWarning, 0))
  {
    var t := Tick(s0, now);
    var estimates := MoveEstimates(t, 0, DEFAULT_SPEED_SPS, DEFAULT_ACCEL_SPS2);
    assert estimates == [0];
    assert !OverMaxAt(estimates, {0}, 0);
    assert MaxSelected(estimates, {0}, 1) == 0;
    assert !ShortAt(t, {0}, ReqSeconds(0), 0);
  }

  lemma {:induction false} StayOnce(s: Stub, k: nat)
    requires Drained(s, k)
    ensures Drained(Step(s, Event(1000 * (k + 1), STAY)), k + 1)
  {
    hide AdmitMove;
    var now := 1000 * (k + 1);
    ChargeIs(s.units[0].m, now, 1);
    StayAlwaysAdmitted(s, now);
    assert MoveMs(Tick(s, now).units[0], 0, DEFAULT_SPEED_SPS, DEFAULT_ACCEL_SPS2) == 0;
  }

  /** The state after the move at 0, 1, ... k seconds. */
  function StayRun(k: nat): Stub {
    Step(if k == 0 then InitialStub(1) else StayRun(k - 1), Event(1000 * k, STAY))
  }

  function Stays(k: nat): seq<Event> {
    if k == 0 then [Event(0, STAY)] else Stays(k - 1) + [Event(1000 * k, STAY)]
  }

  lemma {:induction false} RunAppend(s: Stub, es: seq<Event>, e: Event)
    ensures Run(s, es + [e]) == Step(Run(s, es), e)
    decreases |es|
  {
    if es == [] {
      assert (es + [e])[1..] == [];
    } else {
      assert (es + [e])[1..] == es[1..] + [e];
      RunAppend(Step(s, es[0]), es[1..], e);
    }
  }

  lemma {:induction false} StayRunIsRun(k: nat)
    ensures StayRun(k) == Run(InitialStub(1), Stays(k))
  {
    hide Step;
    var s := InitialStub(1);
    if k == 0 {
      RunAppend(s, [], Event(0, STAY));
      assert [] + [Event(0, STAY)] == Stays(0);
    } else {
      StayRunIsRun(k - 1);
      RunAppend(s, Stays(k - 1), Event(1000 * k, STAY));
    }
  }

  lemma {:induction false} StayRunDrains(k: nat)
    ensures Drained(StayRun(k), k)
  {
    hide Step;
    if k == 0 {
      StayFirst();
    } else {
      StayRunDrains(k - 1);
      StayOnce(StayRun(k - 1), k - 1);
    }
  }

  /** Such moves, one per second from power-up with limits on, take the budget all the way to its
      floor. */
  lemma {:induction false} StayingDrainsBudget(k: nat)
    ensures Drained(Run(InitialStub(1), Stays(k)), k)
    ensures k >= 97 ==> Run(InitialStub(1), Stays(k)).units[0].m.budgetTenths < Lowest(1000)
  {
    hide Step;
    StayRunIsRun(k);
    StayRunDrains(k);
  }

  lemma {:induction false} StayFirst()
    ensures Drained(Step(InitialStub(1), Event(0, STAY)), 0)
  {
    hide AdmitMove;
    var s := InitialStub(1);
    StayAlwaysAdmitted(s, 0);
    assert MoveMs(Tick(s, 0).units[0], 0, DEFAULT_SPEED_SPS, DEFAULT_ACCEL_SPS2) == 0;
  }

  // ---------------- HOME arithmetic that wraps ----------------

  lemma {:induction false} FarHomeEstimates()
    ensures HomeReqMs(4294963, 0, 2, 1, 1) == 704
    ensures StubHomeMs(4294963, 0, 1, 1) == 4294964000
    ensures !HomeFits(4294963, 0, 2, 1, 1)
  {
    UnitRate(4294965);
    UnitRate(1);
    UnitRate(4294963);
  }

  /** Without HomeFits the promise fails: this HOME is admitted from power-up as a one-second
      operation, is planned for 49 days, and auto-sleep cancels it after 96 seconds. */
  lemma {:induction false} WrappedHomeIsCancelled()
    ensures var (s, reply) := HandleHome(InitialStub(1), {0}, 4294963, 0, 2, 1, 1, 0);
      && reply == Accepted(NoWarning, 704)
      && |s.units| == 1 && s.units[0].p.endMs == 4294964000
      && Cancels(s.units[0], s.limits, 96000)
  {
    hide HomeReqMs;
    hide StubHomeMs;
    FarHomeEstimates();
    var s0 := InitialStub(1);
    var t := Tick(s0, 0);
    assert !ShortAt(t, {0}, ReqSeconds(704), 0);
    var s := HandleHome(s0, {0}, 4294963, 0, 2, 1, 1, 0).0;
    ChargeIs(s.units[0].m, 96000, 96);
  }
}
