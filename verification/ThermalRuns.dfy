/** Whole runs of the stub backend: what admission by the handlers guarantees about the
    ticks that follow, under every schedule of later commands. */
module ThermalRuns {
  import opened MachineInts
  import opened IntegerMath
  import opened MotionKinematics
  import opened MotorTypes
  import opened StubBackend
  import opened CommandHandlers

  datatype Command =
    | Query                                                  // STATUS, GET, SET of a default
    | MoveCmd(mask: Mask, target: int, speed: int, accel: int)
    | HomeCmd(mask: Mask, overshoot: int, backoff: int, fullRange: int, speed: int, accel: int)
    | WakeCmd(mask: Mask)
    | SleepCmd(mask: Mask)
    | LimitsCmd(on: bool)                                    // SET THERMAL_LIMITING

  datatype Event = Event(at: nat, cmd: Command)

  /** Commands with bad parameters are refused before the controller ticks. */
  predicate Ticks(c: Command) {
    match c
    case MoveCmd(_, target, speed, accel) =>
      MIN_POS_STEPS <= target <= MAX_POS_STEPS && speed > 0 && accel > 0
    case HomeCmd(_, _, _, _, speed, accel) => speed > 0 && accel > 0
    case _ => true
  }

  function Step(s: Stub, e: Event): Stub {
    match e.cmd
    case Query => Tick(s, e.at)
    case MoveCmd(mask, target, speed, accel) => HandleMove(s, mask, target, speed, accel, e.at).0
    case HomeCmd(mask, overshoot, backoff, fullRange, speed, accel) =>
      HandleHome(s, mask, overshoot, backoff, fullRange, speed, accel, e.at).0
    case WakeCmd(mask) => HandleWake(s, mask, e.at).0
    case SleepCmd(mask) => HandleSleep(s, mask, e.at).0
    case LimitsCmd(on) => Tick(s, e.at).(limits := on)
  }

  function Run(s: Stub, es: seq<Event>): Stub
    decreases |es|
  {
    if es == [] then s else Run(Step(s, es[0]), es[1..])
  }

  /** Times never go back. Commands that are refused before the tick may be among the events. */
  ghost predicate Schedule(es: seq<Event>, from: nat) {
    && (forall k :: 0 <= k < |es| ==> from <= es[k].at)
    && (forall j, k :: 0 <= j < k < |es| ==> es[j].at <= es[k].at)
  }

  function LastTime(es: seq<Event>, from: nat): nat {
    if es == [] then from else es[|es| - 1].at
  }

  lemma ScheduleTail(es: seq<Event>, from: nat)
    requires Schedule(es, from) && es != []
    ensures Schedule(es[1..], es[0].at)
  {
  }

  // ---------------- one step, seen from one motor ----------------

  /** Commands only start moves to targets within the travel. */
  predicate InTravel(op: Op) {
    op.MoveAbs? ==> MIN_POS_STEPS <= op.target <= MAX_POS_STEPS
  }

  /** What a command can do to a motor after the tick: nothing, or one operation that was
      allowed, on a motor that its mask selects. */
  ghost predicate TickThenOp(s: Stub, now: nat, r: Stub, i: nat)
    requires i < |s.units| == |r.units|
  {
    var t := Tick(s, now);
    r.units[i] == t.units[i]
    || exists op: Op :: OpAllowed(t, op) && i in op.mask && InTravel(op) && r.units[i] == OpUnit(t.units[i], op, now)
  }

  /** A command that is refused before the tick changes nothing. */
  lemma RefusedIsNothing(s: Stub, e: Event)
    requires !Ticks(e.cmd)
    ensures Step(s, e) == s
  {
  }

  lemma {:induction false} StepUnit(s: Stub, e: Event, i: nat)
    requires i < |s.units| && Ticks(e.cmd)
    ensures |Step(s, e).units| == |s.units| && TickThenOp(s, e.at, Step(s, e), i)
    ensures e.cmd.LimitsCmd? || Step(s, e).limits == s.limits
  {
    hide MoveEstimates;
    hide HomeReqMs;
    hide OpUnit;
    hide TickUnit;
    var t := Tick(s, e.at);
    match e.cmd
    case Query =>
    case MoveCmd(mask, target, speed, accel) =>
      assert Step(s, e) == t || Step(s, e) == Apply(t, MoveAbs(mask, target, speed, accel), e.at);
    case HomeCmd(mask, overshoot, backoff, _, speed, accel) =>
      assert Step(s, e) == t || Step(s, e) == Apply(t, Home(mask, overshoot, backoff, speed, accel), e.at);
    case WakeCmd(mask) => assert Step(s, e) == t || Step(s, e) == Apply(t, Wake(mask), e.at);
    case SleepCmd(mask) => assert Step(s, e) == Apply(t, Sleep(mask), e.at);
    case LimitsCmd(_) =>
  }

  /** A motor still moving after the tick is left alone. */
  lemma {:induction false} MovingUnitKept(s: Stub, now: nat, r: Stub, i: nat)
    requires i < |s.units| == |r.units| && TickThenOp(s, now, r, i)
    requires var t := TickUnit(s.units[i], s.limits, now); t.m.moving && t.m.awake
    ensures r.units[i] == TickUnit(s.units[i], s.limits, now)
  {
    assert Tick(s, now).units[i].m.moving;
  }

  /** No command moves a motor by itself: only the tick changes position and homed. */
  lemma {:induction false} CommandKeepsPosition(s: Stub, now: nat, r: Stub, i: nat)
    requires i < |s.units| == |r.units| && TickThenOp(s, now, r, i)
    ensures var t := TickUnit(s.units[i], s.limits, now);
      r.units[i].m.position == t.m.position && r.units[i].m.homed == t.m.homed
  {
  }

  // ---------------- what holds in every reachable state ----------------

  predicate UnitOk(u: Unit, now: nat) {
    && BudgetInRange(u.m)
    && u.m.lastUpdateMs <= now
    && u.m.lastUpdateMs % 1000 == 0
    && MIN_POS_STEPS <= u.m.position <= MAX_POS_STEPS
    && MIN_POS_STEPS <= u.p.target <= MAX_POS_STEPS
    && (u.p.active <==> u.m.moving)
    && (u.m.moving ==> u.m.awake)
  }

  ghost predicate Inv(s: Stub, now: nat) {
    forall i :: 0 <= i < |s.units| ==> UnitOk(s.units[i], now)
  }

  lemma {:induction false} ChargeOk(m: MotorState, now: nat)
    requires BudgetInRange(m) && m.lastUpdateMs <= now && m.lastUpdateMs % 1000 == 0
    ensures BudgetInRange(Charge(m, now)) && Charge(m, now).lastUpdateMs % 1000 == 0
    ensures Charge(m, now).lastUpdateMs <= now < Charge(m, now).lastUpdateMs + 1000
  {
    ChargeTwice(m, now, now);
    ChargeClock(m, now);
  }

  lemma {:induction false} TickUnitOk(u: Unit, limits: bool, before: nat, now: nat)
    requires UnitOk(u, before) && before <= now
    ensures UnitOk(TickUnit(u, limits, now), now)
    ensures now < TickUnit(u, limits, now).m.lastUpdateMs + 1000
  {
    ChargeOk(u.m, now);
  }

  lemma {:induction false} StepKeepsInv(s: Stub, e: Event, before: nat)
    requires Inv(s, before) && before <= e.at
    ensures |Step(s, e).units| == |s.units| && Inv(Step(s, e), e.at)
  {
    if Ticks(e.cmd) {
      StepCount(s, e);
      hide Step, TickThenOp, UnitOk;
      forall i | 0 <= i < |s.units|
        ensures UnitOk(Step(s, e).units[i], e.at)
      {
        StepUnit(s, e, i);
        OutcomeOk(s, before, e.at, Step(s, e), i);
      }
    } else {
      RefusedIsNothing(s, e);
    }
  }

  lemma {:induction false} OutcomeOk(s: Stub, before: nat, now: nat, r: Stub, i: nat)
    requires Inv(s, before) && before <= now
    requires i < |s.units| == |r.units| && TickThenOp(s, now, r, i)
    ensures UnitOk(r.units[i], now) && now < r.units[i].m.lastUpdateMs + 1000
  {
    TickUnitOk(s.units[i], s.limits, before, now);
    var t := Tick(s, now);
    if r.units[i] != t.units[i] {
      var op: Op :| OpAllowed(t, op) && i in op.mask && InTravel(op) && r.units[i] == OpUnit(t.units[i], op, now);
      OpKeepsOk(t, op, now, i);
    }
  }

  lemma {:induction false} OpKeepsOk(t: Stub, op: Op, now: nat, i: nat)
    requires i < |t.units| && UnitOk(t.units[i], now) && OpAllowed(t, op) && i in op.mask && InTravel(op)
    ensures UnitOk(OpUnit(t.units[i], op, now), now)
    ensures OpUnit(t.units[i], op, now).m.lastUpdateMs == t.units[i].m.lastUpdateMs
  {
  }

  lemma StepCount(s: Stub, e: Event)
    ensures |Step(s, e).units| == |s.units|
  {
    hide AdmitMove, AdmitHome, AdmitWake, AdmitSleep;
    AdmittedCount(s, e);
  }

  lemma AdmittedCount(s: Stub, e: Event)
    ensures e.cmd.MoveCmd? ==>
              |AdmitMove(Tick(s, e.at), e.cmd.mask, e.cmd.target, e.cmd.speed, e.cmd.accel, e.at).0.units| == |s.units|
    ensures e.cmd.HomeCmd? ==>
              |AdmitHome(Tick(s, e.at), e.cmd.mask, e.cmd.overshoot, e.cmd.backoff, e.cmd.fullRange, e.cmd.speed,
                         e.cmd.accel, e.at).0.units| == |s.units|
    ensures e.cmd.WakeCmd? ==> |AdmitWake(Tick(s, e.at), e.cmd.mask, e.at).0.units| == |s.units|
    ensures e.cmd.SleepCmd? ==> |AdmitSleep(Tick(s, e.at), e.cmd.mask, e.at).0.units| == |s.units|
  {
    hide MoveEstimates, HomeReqMs, OpAllowed, OpUnit, TickUnit, ReqSeconds;
  }

  /** Budgets stay within [-3600, 900], positions within the travel, and a motor moves
      exactly while its plan is active, over every run of commands, refused ones included. */
  lemma {:induction false} RunKeepsInv(s: Stub, es: seq<Event>, from: nat)
    requires Inv(s, from) && Schedule(es, from)
    ensures |Run(s, es).units| == |s.units|
    ensures Inv(Run(s, es), LastTime(es, from))
    decreases |es|
  {
    if es != [] {
      StepKeepsInv(s, es[0], from);
      ScheduleTail(es, from);
      RunKeepsInv(Step(s, es[0]), es[1..], es[0].at);
      assert LastTime(es[1..], es[0].at) == LastTime(es, from);
    }
  }

  lemma {:induction false} InitialInv(count: nat)
    ensures Inv(InitialStub(count), 0)
  {
  }

  /** So it is in every run from power-up. */
  lemma {:induction false} PowerUpRunsKeepInv(count: nat, es: seq<Event>)
    requires Schedule(es, 0)
    ensures |Run(InitialStub(count), es).units| == count && Inv(Run(InitialStub(count), es), LastTime(es, 0))
  {
    InitialInv(count);
    RunKeepsInv(InitialStub(count), es, 0);
  }

  // ---------------- admitted operations run to their end ----------------

  /** The plan is being carried out. */
  predicate InFlight(u: Unit, p: MovePlan) {
    u.p == p && p.active && u.m.moving && u.m.awake && BudgetInRange(u.m)
  }

  /** Staying awake until the given time does not overrun the budget's grace period. */
  predicate Affordable(m: MotorState, until: nat) {
    m.lastUpdateMs <= until ==>
      SPEND_TENTHS_PER_SEC * ((until - m.lastUpdateMs) / 1000) <= m.budgetTenths - OVERRUN_TENTHS
  }

  /** Auto-sleep cancels this motor's plan at this tick. */
  predicate Cancels(u: Unit, limits: bool, now: nat) {
    u.p.active && !Enforce(u.(m := Charge(u.m, now)), limits, now).p.active
  }

  predicate Landed(u: Unit, p: MovePlan) {
    && !u.p.active && !u.m.moving && !u.m.awake
    && u.m.position == p.target
    && (p.isHome ==> u.m.homed && u.m.stepsSinceHome == 0)
  }

  lemma {:induction false} SecondsSplit(a: nat, b: nat)
    ensures a / 1000 + b / 1000 <= (a + b) / 1000
  {
    var i, j := a / 1000, b / 1000;
    assert 1000 * (i + j) <= a + b;
  }

  lemma {:induction false} AffordableEarlier(m: MotorState, now: nat, until: nat)
    requires m.awake && BudgetInRange(m) && m.lastUpdateMs <= now <= until && Affordable(m, until)
    ensures var c := Charge(m, now);
      c.budgetTenths >= OVERRUN_TENTHS && Affordable(c, until) && BudgetInRange(c) && c.lastUpdateMs <= now
  {
    var k := (now - m.lastUpdateMs) / 1000;
    ChargeIs(m, now, k);
    var rest := until - (m.lastUpdateMs + 1000 * k);
    SecondsSplit(1000 * k, rest);
    WholeSeconds(1000 * k, k);
  }

  lemma {:induction false} NotAffordableOverruns(m: MotorState, now: nat)
    requires m.awake && BudgetInRange(m) && m.lastUpdateMs <= now && !Affordable(m, now)
    ensures Charge(m, now).budgetTenths < OVERRUN_TENTHS
  {
    ChargeIs(m, now, (now - m.lastUpdateMs) / 1000);
  }

  lemma {:induction false} TickInFlight(u: Unit, p: MovePlan, limits: bool, now: nat, until: nat)
    requires InFlight(u, p) && u.m.lastUpdateMs <= now <= until && Affordable(u.m, until)
    ensures !Cancels(u, limits, now)
    ensures var t := TickUnit(u, limits, now);
      if now < p.endMs then InFlight(t, p) && Affordable(t.m, until) && t.m.lastUpdateMs <= now
      else Landed(t, p)
  {
    AffordableEarlier(u.m, now, until);
  }

  /** Auto-sleep never cancels motor i at a tick of the events. */
  predicate Survives(s: Stub, es: seq<Event>, i: nat)
    decreases |es|
  {
    es == [] || (i < |s.units| && (Ticks(es[0].cmd) ==> !Cancels(s.units[i], s.limits, es[0].at)) && Survives(Step(s, es[0]), es[1..], i))
  }

  /** Events es before end, then e, none later than until. */
  ghost predicate Window(es: seq<Event>, e: Event, from: nat, end: nat, until: nat) {
    && Schedule(es, from)
    && (forall k :: 0 <= k < |es| ==> es[k].at < end && es[k].at <= until)
    && LastTime(es, from) <= e.at <= until
    && Ticks(e.cmd)
  }

  /** An affordable flight goes on through every schedule that stays before its end. */
  lemma {:induction false} FlightKept(s: Stub, es: seq<Event>, i: nat, p: MovePlan, from: nat, until: nat)
    requires i < |s.units| && InFlight(s.units[i], p)
    requires s.units[i].m.lastUpdateMs <= from && Affordable(s.units[i].m, until)
    requires Schedule(es, from) && forall k :: 0 <= k < |es| ==> es[k].at < p.endMs && es[k].at <= until
    ensures Survives(s, es, i) && |Run(s, es).units| == |s.units|
    ensures var u := Run(s, es).units[i];
      InFlight(u, p) && Affordable(u.m, until) && u.m.lastUpdateMs <= LastTime(es, from)
    decreases |es|
  {
    hide Step;
    hide TickUnit;
    hide Affordable;
    hide Cancels;
    if es != [] {
      if Ticks(es[0].cmd) {
        TickInFlight(s.units[i], p, s.limits, es[0].at, until);
        StepUnit(s, es[0], i);
        MovingUnitKept(s, es[0].at, Step(s, es[0]), i);
      } else {
        RefusedIsNothing(s, es[0]);
      }
      ScheduleTail(es, from);
      FlightKept(Step(s, es[0]), es[1..], i, p, es[0].at, until);
      assert LastTime(es[1..], es[0].at) == LastTime(es, from);
    }
  }

  /** Auto-sleep cancels motor i at none of the events; it is in flight until the last one,
      and if that one is at or after the planned end, its tick finds the motor landed and
      its command leaves it at the target. */
  ghost predicate Completes(s: Stub, i: nat, es: seq<Event>, e: Event)
    requires i < |s.units|
  {
    var p, r := s.units[i].p, Run(s, es);
    && Survives(s, es, i)
    && |r.units| == |s.units| == |Step(r, e).units|
    && InFlight(r.units[i], p)
    && !Cancels(r.units[i], r.limits, e.at)
    && (e.at >= p.endMs ==>
          && Landed(TickUnit(r.units[i], r.limits, e.at), p)
          && Step(r, e).units[i].m.position == p.target
          && (p.isHome ==> Step(r, e).units[i].m.homed))
  }

  lemma {:induction false} FlightLands(s: Stub, es: seq<Event>, e: Event, i: nat, from: nat, until: nat)
    requires i < |s.units| && InFlight(s.units[i], s.units[i].p)
    requires s.units[i].m.lastUpdateMs <= from && Affordable(s.units[i].m, until)
    requires Window(es, e, from, s.units[i].p.endMs, until)
    ensures Completes(s, i, es, e)
  {
    FlightKept(s, es, i, s.units[i].p, from, until);
    var r := Run(s, es);
    TickInFlight(r.units[i], s.units[i].p, r.limits, e.at, until);
    StepUnit(r, e, i);
    CommandKeepsPosition(r, e.at, Step(r, e), i);
  }

  /** The exact condition, which can be checked when the operation starts: no schedule of
      commands up to the deadline gets the motor cancelled if and only if its budget lasts
      until the deadline. */
  lemma {:induction false} SafeWindowExact(s: Stub, i: nat, from: nat, until: nat)
    requires i < |s.units| && s.limits && InFlight(s.units[i], s.units[i].p)
    requires s.units[i].m.lastUpdateMs <= from <= until
    ensures Affordable(s.units[i].m, until)
       <==> forall es, e :: Window(es, e, from, s.units[i].p.endMs, until) ==> Completes(s, i, es, e)
  {
    var end := s.units[i].p.endMs;
    if Affordable(s.units[i].m, until) {
      forall es, e | Window(es, e, from, end, until)
        ensures Completes(s, i, es, e)
      {
        FlightLands(s, es, e, i, from, until);
      }
    } else {
      NotAffordableOverruns(s.units[i].m, until);
      assert Window([], Event(until, Query), from, end, until);
      assert !Completes(s, i, [], Event(until, Query));
    }
  }

  lemma {:induction false} BudgetCoversWindow(m: MotorState, now: nat, reqSeconds: nat, duration: nat)
    requires m.lastUpdateMs <= now < m.lastUpdateMs + 1000
    requires duration <= 1000 * reqSeconds && reqSeconds <= AvailableSeconds(m) && reqSeconds > 0
    ensures Affordable(m, now + duration + 5000)
  {
    var total := now + duration + 5000 - m.lastUpdateMs;
    assert total < 1000 * (reqSeconds + 6);
    assert total / 1000 <= reqSeconds + 5;
    assert 10 * (m.budgetTenths / 10) <= m.budgetTenths;
  }

  lemma {:induction false} ReqSecondsCover(reqMs: nat)
    requires reqMs + 999 < UINT32_RANGE
    ensures reqMs <= 1000 * ReqSeconds(reqMs)
    ensures reqMs > 0 ==> ReqSeconds(reqMs) > 0
  {
  }

  /** Every estimate of a MOVE that the handler looks at fits comfortably in 32 bits. */
  lemma {:induction false} MoveMsSmall(u: Unit, target: int, speed: int, accel: int)
    requires MIN_POS_STEPS <= u.m.position <= MAX_POS_STEPS && MIN_POS_STEPS <= target <= MAX_POS_STEPS
    ensures MoveMs(u, target, speed, accel) == MoveTime(Abs(target - u.m.position), speed, accel) <= 4800000
  {
    MoveTimeAtMost(Abs(target - u.m.position), speed, accel);
  }

  lemma {:induction false} MaxSelectedSmall(estimates: seq<nat>, mask: Mask, n: nat, bound: nat)
    requires n <= |estimates| && forall i :: 0 <= i < |estimates| ==> estimates[i] <= bound
    ensures MaxSelected(estimates, mask, n) <= bound
  {
    if n > 0 { MaxSelectedSmall(estimates, mask, n - 1, bound); }
  }

  /** What acceptance under limits says about a selected motor at the moment it starts. */
  lemma {:induction false} AdmittedMove(s0: Stub, mask: Mask, target: int, speed: int, accel: int, before: nat, now: nat, i: nat)
    requires Inv(s0, before) && before <= now && s0.limits && i < |s0.units| && i in mask
    requires HandleMove(s0, mask, target, speed, accel, now).1.Accepted?
    ensures var (s, reply) := HandleMove(s0, mask, target, speed, accel, now);
      var t := Tick(s0, now);
      && OpAllowed(t, MoveAbs(mask, target, speed, accel))
      && s == Apply(t, MoveAbs(mask, target, speed, accel), now)
      && MoveMs(t.units[i], target, speed, accel) <= reply.estMs <= 4800000
      && ReqSeconds(reply.estMs) <= AvailableSeconds(t.units[i].m)
      && UnitOk(t.units[i], now) && now < t.units[i].m.lastUpdateMs + 1000
  {
    var t := Tick(s0, now);
    var estimates := MoveEstimates(t, target, speed, accel);
    forall k | 0 <= k < |estimates|
      ensures estimates[k] <= 4800000
    {
      TickUnitOk(s0.units[k], s0.limits, before, now);
      MoveMsSmall(t.units[k], target, speed, accel);
    }
    TickUnitOk(s0.units[i], s0.limits, before, now);
    MaxSelectedSmall(estimates, mask, |estimates|, 4800000);
    var maxMs := MaxSelected(estimates, mask, |estimates|);
    assert estimates[i] <= maxMs;
    assert !ShortAt(t, mask, ReqSeconds(maxMs), i);
  }

  /** An operation that just started, paid for in whole seconds, completes. */
  lemma {:induction false} PaidFlightLands(s: Stub, i: nat, now: nat, reqSeconds: nat, es: seq<Event>, e: Event)
    requires i < |s.units| && InFlight(s.units[i], s.units[i].p)
    requires s.units[i].m.lastUpdateMs <= now < s.units[i].m.lastUpdateMs + 1000
    requires now <= s.units[i].p.endMs <= now + 1000 * reqSeconds
    requires 0 < reqSeconds <= AvailableSeconds(s.units[i].m)
    requires Window(es, e, now, s.units[i].p.endMs, s.units[i].p.endMs + 5000)
    ensures Completes(s, i, es, e)
  {
    var u := s.units[i];
    BudgetCoversWindow(u.m, now, reqSeconds, u.p.endMs - now);
    FlightLands(s, es, e, i, now, u.p.endMs + 5000);
  }

  /** With limits on, an accepted MOVE with a nonzero estimate is never cancelled by
      auto-sleep at any tick up to 5 s past its planned end, whatever commands arrive
      meanwhile, and the first event at or after that end finds it at its target. */
  lemma {:induction false} AcceptedMoveCompletes(s0: Stub, mask: Mask, target: int, speed: int, accel: int,
                                                 before: nat, now: nat, s: Stub, reply: Reply, i: nat, es: seq<Event>, e: Event)
    requires Inv(s0, before) && before <= now && s0.limits
    requires (s, reply) == HandleMove(s0, mask, target, speed, accel, now)
    requires reply.Accepted? && reply.estMs > 0
    requires i < |s0.units| == |s.units| && i in mask
    requires Window(es, e, now, s.units[i].p.endMs, s.units[i].p.endMs + 5000)
    ensures s.units[i].p.target == target && s.units[i].p.endMs <= now + reply.estMs
    ensures Completes(s, i, es, e)
  {
    AdmittedMove(s0, mask, target, speed, accel, before, now, i);
    ReqSecondsCover(reply.estMs);
    PaidFlightLands(s, i, now, ReqSeconds(reply.estMs), es, e);
  }

  /** The guard under which the 32-bit HOME arithmetic is exact. */
  predicate HomeFits(overshoot: int, backoff: int, fullRange: int, speed: int, accel: int) {
    HomeTimeFullRange(overshoot, backoff, RangeOrDefault(fullRange), speed, accel) + 999 < UINT32_RANGE
  }

  /** The played duration is at most the admitted one, because the estimator is monotone. */
  lemma {:induction false} HomePlayedWithinAdmitted(overshoot: int, backoff: int, fullRange: int, speed: int, accel: int)
    requires HomeFits(overshoot, backoff, fullRange, speed, accel)
    ensures 0 < HomeReqMs(overshoot, backoff, fullRange, speed, accel) < UINT32_RANGE - 999
    ensures StubHomeMs(overshoot, backoff, speed, accel) <= HomeReqMs(overshoot, backoff, fullRange, speed, accel)
  {
    var range := RangeOrDefault(fullRange);
    HomeWithinFullRange(overshoot, backoff, range, speed, accel);
    MoveTimeZeroIff(range + Abs(overshoot), speed, accel);
  }

  lemma {:induction false} AdmittedHome(s0: Stub, mask: Mask, overshoot: int, backoff: int, fullRange: int,
                                        speed: int, accel: int, before: nat, now: nat, i: nat)
    requires Inv(s0, before) && before <= now && s0.limits && i < |s0.units| && i in mask
    requires HandleHome(s0, mask, overshoot, backoff, fullRange, speed, accel, now).1.Accepted?
    ensures var (s, reply) := HandleHome(s0, mask, overshoot, backoff, fullRange, speed, accel, now);
      var t := Tick(s0, now);
      && OpAllowed(t, Home(mask, overshoot, backoff, speed, accel))
      && s == Apply(t, Home(mask, overshoot, backoff, speed, accel), now)
      && reply.estMs == HomeReqMs(overshoot, backoff, fullRange, speed, accel)
      && ReqSeconds(reply.estMs) <= AvailableSeconds(t.units[i].m)
      && UnitOk(t.units[i], now) && now < t.units[i].m.lastUpdateMs + 1000
  {
    var t := Tick(s0, now);
    var reqMs := HomeReqMs(overshoot, backoff, fullRange, speed, accel);
    TickUnitOk(s0.units[i], s0.limits, before, now);
    assert !ShortAt(t, mask, ReqSeconds(reqMs), i);
  }

  /** The same for HOME, as long as its arithmetic fits in 32 bits. */
  lemma {:induction false} AcceptedHomeCompletes(s0: Stub, mask: Mask, overshoot: int, backoff: int, fullRange: int,
                                                 speed: int, accel: int, before: nat, now: nat,
                                                 s: Stub, reply: Reply, i: nat, es: seq<Event>, e: Event)
    requires Inv(s0, before) && before <= now && s0.limits
    requires HomeFits(overshoot, backoff, fullRange, speed, accel)
    requires (s, reply) == HandleHome(s0, mask, overshoot, backoff, fullRange, speed, accel, now)
    requires reply.Accepted?
    requires i < |s0.units| == |s.units| && i in mask
    requires Window(es, e, now, s.units[i].p.endMs, s.units[i].p.endMs + 5000)
    ensures s.units[i].p.isHome && s.units[i].p.target == 0 && s.units[i].p.endMs <= now + reply.estMs
    ensures Completes(s, i, es, e)
  {
    AdmittedHome(s0, mask, overshoot, backoff, fullRange, speed, accel, before, now, i);
    HomePlayedWithinAdmitted(overshoot, backoff, fullRange, speed, accel);
    ReqSecondsCover(reply.estMs);
    PaidFlightLands(s, i, now, ReqSeconds(reply.estMs), es, e);
  }

  // ---------------- the same, exactly, for any accepted operation ----------------

  ghost predicate AlwaysCompletes(s: Stub, i: nat, now: nat)
    requires i < |s.units|
  {
    forall es, e :: Window(es, e, now, s.units[i].p.endMs, s.units[i].p.endMs + 5000) ==> Completes(s, i, es, e)
  }

  lemma PlannedEnd(u: Unit, op: Op, now: nat)
    ensures op.MoveAbs? ==> OpUnit(u, op, now).p.endMs == now + MoveMs(u, op.target, op.speed, op.accel)
    ensures op.Home? ==> OpUnit(u, op, now).p.endMs == now + StubHomeMs(op.overshoot, op.backoff, op.speed, op.accel)
  {
    hide MoveMs, StubHomeMs;
  }

  lemma {:induction false} StartedCompletesIff(s: Stub, i: nat, u: Unit, op: Op, now: nat)
    requires s.limits && i < |s.units| && s.units[i] == OpUnit(u, op, now) && (op.MoveAbs? || op.Home?)
    requires BudgetInRange(u.m) && u.m.lastUpdateMs <= now
    ensures AlwaysCompletes(s, i, now) <==> Affordable(u.m, s.units[i].p.endMs + 5000)
  {
    var end := s.units[i].p.endMs;
    assert InFlight(s.units[i], s.units[i].p) && end >= now;
    assert Affordable(s.units[i].m, end + 5000) <==> Affordable(u.m, end + 5000);
    hide Affordable, InFlight, OpUnit, Window, Completes, BudgetInRange;
    SafeWindowExact(s, i, now, end + 5000);
  }

  /** With limits on, an accepted MOVE completes under every schedule up to 5 s past its end if
      and only if the budget after the tick lasts that long, whatever it was admitted for. */
  lemma {:induction false} AcceptedMoveCompletesIff(s0: Stub, mask: Mask, target: int, speed: int, accel: int,
                                                    before: nat, now: nat, s: Stub, i: nat)
    requires Inv(s0, before) && before <= now && s0.limits
    requires s == HandleMove(s0, mask, target, speed, accel, now).0
    requires HandleMove(s0, mask, target, speed, accel, now).1.Accepted?
    requires i < |s0.units| == |s.units| && i in mask
    ensures var t := TickUnit(s0.units[i], true, now);
      AlwaysCompletes(s, i, now) <==> Affordable(t.m, now + MoveMs(t, target, speed, accel) + 5000)
  {
    var t, op := TickUnit(s0.units[i], true, now), MoveAbs(mask, target, speed, accel);
    assert s.limits && s.units[i] == OpUnit(t, op, now) && BudgetInRange(t.m) && t.m.lastUpdateMs <= now by {
      hide HandleMove, Affordable, AlwaysCompletes, OpUnit, TickUnit, MoveMs, ReqSeconds;
      AdmittedMove(s0, mask, target, speed, accel, before, now, i);
    }
    hide *;
    PlannedEnd(t, op, now);
    StartedCompletesIff(s, i, t, op, now);
  }

  /** The same for HOME, also when its arithmetic wraps: what counts is the played duration. */
  lemma {:induction false} AcceptedHomeCompletesIff(s0: Stub, mask: Mask, overshoot: int, backoff: int, fullRange: int,
                                                    speed: int, accel: int, before: nat, now: nat, s: Stub, i: nat)
    requires Inv(s0, before) && before <= now && s0.limits
    requires s == HandleHome(s0, mask, overshoot, backoff, fullRange, speed, accel, now).0
    requires HandleHome(s0, mask, overshoot, backoff, fullRange, speed, accel, now).1.Accepted?
    requires i < |s0.units| == |s.units| && i in mask
    ensures AlwaysCompletes(s, i, now) <==>
      Affordable(TickUnit(s0.units[i], true, now).m, now + StubHomeMs(overshoot, backoff, speed, accel) + 5000)
  {
    var t, op := TickUnit(s0.units[i], true, now), Home(mask, overshoot, backoff, speed, accel);
    assert s.limits && s.units[i] == OpUnit(t, op, now) && BudgetInRange(t.m) && t.m.lastUpdateMs <= now by {
      hide HandleHome, Affordable, AlwaysCompletes, OpUnit, TickUnit, HomeReqMs, ReqSeconds;
      AdmittedHome(s0, mask, overshoot, backoff, fullRange, speed, accel, before, now, i);
    }
    hide *;
    PlannedEnd(t, op, now);
    StartedCompletesIff(s, i, t, op, now);
  }
}
