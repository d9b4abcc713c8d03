/** Admission of MOVE, HOME, WAKE and SLEEP against the thermal budget.

    Models handleMove, handleHome, handleWake and handleSleep of
    lib/MotorControl/src/command/CommandHandlers.cpp on the stub backend, after the textual
    arguments have become numbers. Defaults for omitted arguments are the caller's. */
module CommandHandlers {
  import opened IntegerMath
  import opened MotionKinematics
  import opened MotorTypes
  import opened StubBackend

  datatype Warning =
    | NoWarning
    | WarnOverMax(id: nat, reqMs: nat)
    | WarnNoBudget(id: nat, reqMs: nat, budgetS: int, ttfcS: int)

  datatype Reply =
    | BadParam                                                        // E03
    | Busy                                                            // E04
    | PosOutOfRange                                                   // E07
    | OverMax(id: nat, reqMs: nat)                                    // E10
    | NoBudget(id: nat, reqMs: nat, budgetS: int, ttfcS: int)         // E11
    | NoBudgetWake                                                    // E12
    | Accepted(warning: Warning, estMs: nat)
    | Done(warned: bool)

  // ---------------- scanning the selected motors ----------------

  /** Whole seconds to charge, with the rounding done in 32-bit arithmetic. */
  function ReqSeconds(reqMs: nat): nat {
    Cut(reqMs + 999) / 1000
  }

  function AvailableSeconds(m: MotorState): nat {
    if m.budgetTenths >= 0 then m.budgetTenths / 10 else 0
  }

  /** The estimate of each motor for the same absolute target. */
  function MoveEstimates(s: Stub, target: int, speed: int, accel: int): (ms: seq<nat>)
    ensures |ms| == |s.units|
  {
    seq(|s.units|, i requires 0 <= i < |s.units| => MoveMs(s.units[i], target, speed, accel))
  }

  predicate OverMaxAt(estimates: seq<nat>, mask: Mask, i: nat)
    requires i < |estimates|
  {
    i in mask && ReqSeconds(estimates[i]) > MAX_RUNNING_TIME_S
  }

  /** The first selected motor from id on whose own estimate exceeds the maximum running
      time, or the number of motors. */
  function FirstOverMax(estimates: seq<nat>, mask: Mask, id: nat): (k: nat)
    requires id <= |estimates|
    ensures id <= k <= |estimates| && (k < |estimates| ==> OverMaxAt(estimates, mask, k))
    ensures forall j :: id <= j < k ==> !OverMaxAt(estimates, mask, j)
    decreases |estimates| - id
  {
    if id == |estimates| || OverMaxAt(estimates, mask, id) then id else FirstOverMax(estimates, mask, id + 1)
  }

  predicate ShortAt(s: Stub, mask: Mask, reqSeconds: nat, i: nat)
    requires i < |s.units|
  {
    i in mask && reqSeconds > AvailableSeconds(s.units[i].m)
  }

  /** The first selected motor from id on without reqSeconds of budget, or the number of motors. */
  function FirstShort(s: Stub, mask: Mask, reqSeconds: nat, id: nat): (k: nat)
    requires id <= |s.units|
    ensures id <= k <= |s.units| && (k < |s.units| ==> ShortAt(s, mask, reqSeconds, k))
    ensures forall j :: id <= j < k ==> !ShortAt(s, mask, reqSeconds, j)
    decreases |s.units| - id
  {
    if id == |s.units| || ShortAt(s, mask, reqSeconds, id) then id else FirstShort(s, mask, reqSeconds, id + 1)
  }

  /** The first selected motor, or count. */
  function FirstSelected(mask: Mask, id: nat, count: nat): (k: nat)
    requires id <= count
    ensures id <= k <= count && (k < count ==> k in mask) && forall j :: id <= j < k ==> j !in mask
    decreases count - id
  {
    if id == count || id in mask then id else FirstSelected(mask, id + 1, count)
  }

  /** The longest estimate among the first n motors that the mask selects. */
  function MaxSelected(estimates: seq<nat>, mask: Mask, n: nat): (r: nat)
    requires n <= |estimates|
    ensures forall i :: 0 <= i < n && i in mask ==> estimates[i] <= r
  {
    if n == 0 then 0
    else
      var rest := MaxSelected(estimates, mask, n - 1);
      if n - 1 in mask && estimates[n - 1] > rest then estimates[n - 1] else rest
  }

  function Shortfall(s: Stub, id: nat, reqMs: nat): Warning
    requires id < |s.units|
  {
    var m := s.units[id].m;
    WarnNoBudget(id, reqMs, AvailableSeconds(m), TtfcTenths(m.budgetTenths) / 10)
  }

  // ---------------- the handlers, on values ----------------

  function StartOp(s: Stub, op: Op, warning: Warning, estMs: nat, now: nat): (Stub, Reply) {
    (Apply(s, op, now), if OpAllowed(s, op) then Accepted(warning, estMs) else Busy)
  }

  function HandleMove(s0: Stub, mask: Mask, target: int, speed: int, accel: int, now: nat): (Stub, Reply) {
    if target < MIN_POS_STEPS || target > MAX_POS_STEPS then (s0, PosOutOfRange)
    else if speed <= 0 || accel <= 0 then (s0, BadParam)
    else AdmitMove(Tick(s0, now), mask, target, speed, accel, now)
  }

  /** The part of handleMove after its tick. */
  function AdmitMove(s: Stub, mask: Mask, target: int, speed: int, accel: int, now: nat): (Stub, Reply) {
    var op, n, estimates := MoveAbs(mask, target, speed, accel), |s.units|, MoveEstimates(s, target, speed, accel);
    var over := FirstOverMax(estimates, mask, 0);
    if over < n then
      var reqMs := estimates[over];
      if s.limits then (s, OverMax(over, reqMs))
      else StartOp(s, op, WarnOverMax(over, reqMs), reqMs, now)
    else
      var maxMs := MaxSelected(estimates, mask, n);
      var short := FirstShort(s, mask, ReqSeconds(maxMs), 0);
      if short < n then
        var w := Shortfall(s, short, maxMs);
        if s.limits then (s, NoBudget(w.id, w.reqMs, w.budgetS, w.ttfcS))
        else StartOp(s, op, w, maxMs, now)
      else StartOp(s, op, NoWarning, maxMs, now)
  }

  /** A missing or non-positive range means the whole travel. */
  function RangeOrDefault(fullRange: int): int {
    if fullRange <= 0 then MAX_POS_STEPS - MIN_POS_STEPS else fullRange
  }

  /** The admitted three-leg duration, added up in 32-bit arithmetic. */
  function HomeReqMs(overshoot: int, backoff: int, fullRange: int, speed: int, accel: int): nat {
    var range := Abs(RangeOrDefault(fullRange));
    Cut(Cut(MoveTime(range + Abs(overshoot), speed, accel))
        + Cut(MoveTime(Abs(backoff), speed, accel))
        + Cut(MoveTime(range / 2, speed, accel)))
  }

  function HandleHome(s0: Stub, mask: Mask, overshoot: int, backoff: int, fullRange: int,
                      speed: int, accel: int, now: nat): (Stub, Reply) {
    if speed <= 0 || accel <= 0 then (s0, BadParam)
    else AdmitHome(Tick(s0, now), mask, overshoot, backoff, fullRange, speed, accel, now)
  }

  /** The part of handleHome after its tick. */
  function AdmitHome(s: Stub, mask: Mask, overshoot: int, backoff: int, fullRange: int,
                     speed: int, accel: int, now: nat): (Stub, Reply) {
    var op, n := Home(mask, overshoot, backoff, speed, accel), |s.units|;
    var reqMs := HomeReqMs(overshoot, backoff, fullRange, speed, accel);
    if ReqSeconds(reqMs) > MAX_RUNNING_TIME_S then
      var first := FirstSelected(mask, 0, n);
      if s.limits then (s, OverMax(first, reqMs))
      else StartOp(s, op, WarnOverMax(first, reqMs), reqMs, now)
    else
      var short := FirstShort(s, mask, ReqSeconds(reqMs), 0);
      if short < n then
        var w := Shortfall(s, short, reqMs);
        if s.limits then (s, NoBudget(w.id, w.reqMs, w.budgetS, w.ttfcS))
        else StartOp(s, op, w, reqMs, now)
      else StartOp(s, op, NoWarning, reqMs, now)
  }

  function HandleWake(s0: Stub, mask: Mask, now: nat): (Stub, Reply) { AdmitWake(Tick(s0, now), mask, now) }

  function AdmitWake(s: Stub, mask: Mask, now: nat): (Stub, Reply) {
    if FirstShort(s, mask, 1, 0) < |s.units| then
      if s.limits then (s, NoBudgetWake) else (Apply(s, Wake(mask), now), Done(true))
    else (Apply(s, Wake(mask), now), Done(false))
  }

  function HandleSleep(s0: Stub, mask: Mask, now: nat): (Stub, Reply) { AdmitSleep(Tick(s0, now), mask, now) }

  function AdmitSleep(s: Stub, mask: Mask, now: nat): (Stub, Reply) {
    (Apply(s, Sleep(mask), now), if OpAllowed(s, Sleep(mask)) then Done(false) else Busy)
  }

  // ---------------- the handlers, as the source runs them ----------------

  /** The first selected motor whose own estimate exceeds the maximum running time, and the
      longest estimate seen up to there. */
  method FindOverMax(c: StubMotorController, mask: Mask, target: int, speed: int, accel: int)
    returns (over: nat, maxMs: nat)
    requires c.Valid()
    ensures var estimates := MoveEstimates(c.Model(), target, speed, accel);
      && over == FirstOverMax(estimates, mask, 0)
      && maxMs == if over < c.count then estimates[over] else MaxSelected(estimates, mask, c.count)
  {
    hide MoveEstimates;
    ghost var estimates := MoveEstimates(c.Model(), target, speed, accel);
    maxMs := 0;
    for id := 0 to c.count
      invariant FirstOverMax(estimates, mask, 0) == FirstOverMax(estimates, mask, id)
      invariant maxMs == MaxSelected(estimates, mask, id)
    {
      if id in mask {
        var reqMs := EstimateMove(c, id, target, speed, accel, estimates);
        if ReqSeconds(reqMs) > MAX_RUNNING_TIME_S {
          return id, reqMs;
        }
        if reqMs > maxMs {
          maxMs := reqMs;
        }
      }
    }
    over := c.count;
  }

  method EstimateMove(c: StubMotorController, id: nat, target: int, speed: int, accel: int,
                      ghost estimates: seq<nat>) returns (ms: nat)
    requires c.Valid() && id < c.count && estimates == MoveEstimates(c.Model(), target, speed, accel)
    ensures ms == estimates[id]
  {
    ms := MoveMs(Unit(c.motors[id], c.plans[id]), target, speed, accel);
  }

  /** The first selected motor without reqSeconds of budget, with its cool-down time. */
  method FindShort(c: StubMotorController, mask: Mask, reqSeconds: nat) returns (short: nat, ttfcS: int)
    requires c.Valid()
    ensures short == FirstShort(c.Model(), mask, reqSeconds, 0)
    ensures short < c.count ==> ttfcS == TtfcTenths(c.Model().units[short].m.budgetTenths) / 10
  {
    ttfcS := 0;
    for id := 0 to c.count
      invariant FirstShort(c.Model(), mask, reqSeconds, 0) == FirstShort(c.Model(), mask, reqSeconds, id)
    {
      if id in mask {
        var missing := BUDGET_TENTHS_MAX - c.motors[id].budgetTenths;
        if missing < 0 {
          missing := 0;
        }
        var ttfc := if missing <= 0 then 0
                    else (missing * 10 + REFILL_TENTHS_PER_SEC - 1) / REFILL_TENTHS_PER_SEC;
        if ttfc > MAX_COOL_DOWN_TIME_S * 10 {
          ttfc := MAX_COOL_DOWN_TIME_S * 10;
        }
        ttfcS := ttfc / 10;
        if reqSeconds > AvailableSeconds(c.motors[id]) {
          return id, ttfcS;
        }
      }
    }
    short := c.count;
  }

  method BeginMove(c: StubMotorController, mask: Mask, target: int, speed: int, accel: int,
                   warning: Warning, estMs: nat, now: nat) returns (reply: Reply)
    requires c.Valid()
    modifies c.motors, c.plans
    ensures (c.Model(), reply) == StartOp(old(c.Model()), MoveAbs(mask, target, speed, accel), warning, estMs, now)
  {
    var started := c.MoveAbsMask(mask, target, speed, accel, now);
    reply := if started then Accepted(warning, estMs) else Busy;
  }

  method RunAdmitMove(c: StubMotorController, mask: Mask, target: int, speed: int, accel: int, now: nat)
    returns (reply: Reply)
    requires c.Valid()
    modifies c.motors, c.plans
    ensures (c.Model(), reply) == AdmitMove(old(c.Model()), mask, target, speed, accel, now)
  {
    hide MoveEstimates;
    hide MaxSelected;
    hide ReqSeconds;
    var over, maxMs := FindOverMax(c, mask, target, speed, accel);
    if over < c.count {
      if c.limits {
        return OverMax(over, maxMs);
      }
      reply := BeginMove(c, mask, target, speed, accel, WarnOverMax(over, maxMs), maxMs, now);
      return;
    }
    var short, ttfcS := FindShort(c, mask, ReqSeconds(maxMs));
    if short < c.count {
      var availS := AvailableSeconds(c.motors[short]);
      if c.limits {
        return NoBudget(short, maxMs, availS, ttfcS);
      }
      reply := BeginMove(c, mask, target, speed, accel, WarnNoBudget(short, maxMs, availS, ttfcS), maxMs, now);
      return;
    }
    reply := BeginMove(c, mask, target, speed, accel, NoWarning, maxMs, now);
  }

  method RunMove(c: StubMotorController, mask: Mask, target: int, speed: int, accel: int, now: nat)
    returns (reply: Reply)
    requires c.Valid()
    modifies c.motors, c.plans
    ensures (c.Model(), reply) == HandleMove(old(c.Model()), mask, target, speed, accel, now)
  {
    if target < MIN_POS_STEPS || target > MAX_POS_STEPS {
      return PosOutOfRange;
    }
    if speed <= 0 || accel <= 0 {
      return BadParam;
    }
    c.TickAll(now);
    reply := RunAdmitMove(c, mask, target, speed, accel, now);
  }

  method BeginHome(c: StubMotorController, mask: Mask, overshoot: int, backoff: int, speed: int, accel: int,
                   warning: Warning, estMs: nat, now: nat) returns (reply: Reply)
    requires c.Valid()
    modifies c.motors, c.plans
    ensures (c.Model(), reply)
         == StartOp(old(c.Model()), Home(mask, overshoot, backoff, speed, accel), warning, estMs, now)
  {
    var started := c.HomeMask(mask, overshoot, backoff, speed, accel, now);
    reply := if started then Accepted(warning, estMs) else Busy;
  }

  method RunHome(c: StubMotorController, mask: Mask, overshoot: int, backoff: int, fullRange: int,
                 speed: int, accel: int, now: nat) returns (reply: Reply)
    requires c.Valid()
    modifies c.motors, c.plans
    ensures (c.Model(), reply) == HandleHome(old(c.Model()), mask, overshoot, backoff, fullRange, speed, accel, now)
  {
    if speed <= 0 || accel <= 0 {
      return BadParam;
    }
    c.TickAll(now);
    var reqMs := HomeReqMs(overshoot, backoff, fullRange, speed, accel);
    if ReqSeconds(reqMs) > MAX_RUNNING_TIME_S {
      var first := 0;
      while first < c.count && first !in mask
        invariant first <= c.count && FirstSelected(mask, 0, c.count) == FirstSelected(mask, first, c.count)
      {
        first := first + 1;
      }
      if c.limits {
        return OverMax(first, reqMs);
      }
      reply := BeginHome(c, mask, overshoot, backoff, speed, accel, WarnOverMax(first, reqMs), reqMs, now);
      return;
    }
    var short, ttfcS := FindShort(c, mask, ReqSeconds(reqMs));
    if short < c.count {
      var availS := AvailableSeconds(c.motors[short]);
      if c.limits {
        return NoBudget(short, reqMs, availS, ttfcS);
      }
      reply := BeginHome(c, mask, overshoot, backoff, speed, accel,
                         WarnNoBudget(short, reqMs, availS, ttfcS), reqMs, now);
      return;
    }
    reply := BeginHome(c, mask, overshoot, backoff, speed, accel, NoWarning, reqMs, now);
  }

  method RunWake(c: StubMotorController, mask: Mask, now: nat) returns (reply: Reply)
    requires c.Valid()
    modifies c.motors, c.plans
    ensures (c.Model(), reply) == HandleWake(old(c.Model()), mask, now)
  {
    c.TickAll(now);
    var short, _ := FindShort(c, mask, 1);
    if short < c.count && c.limits {
      return NoBudgetWake;
    }
    c.WakeMask(mask, now);
    return Done(short < c.count);
  }

  method RunSleep(c: StubMotorController, mask: Mask, now: nat) returns (reply: Reply)
    requires c.Valid()
    modifies c.motors, c.plans
    ensures (c.Model(), reply) == HandleSleep(old(c.Model()), mask, now)
  {
    c.TickAll(now);
    var slept := c.SleepMask(mask, now);
    return if slept then Done(false) else Busy;
  }
}
