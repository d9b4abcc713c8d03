/** The stub backend: motors whose moves are plans with an end time.

    Models lib/MotorControl/src/StubMotorController.cpp. The class updates its arrays in
    place as the source does; each method is tied to a function on values, and what holds
    over whole runs is proved about those functions. */
module StubBackend {
  import opened IntegerMath
  import opened MotionKinematics
  import opened MotorTypes

  datatype MovePlan = MovePlan(active: bool, isHome: bool, target: int, endMs: nat, startPos: int)

  /** One motor with its plan. */
  datatype Unit = Unit(m: MotorState, p: MovePlan)

  datatype Stub = Stub(units: seq<Unit>, limits: bool)

  function InitialStub(count: nat): Stub {
    Stub(seq(count, (i: nat) => Unit(InitialMotor(i), MovePlan(false, false, 0, 0, 0))), true)
  }

  // ---------------- one motor ----------------

  /** Forces an overrun motor to sleep and cancels its plan. */
  function Enforce(u: Unit, limits: bool, now: nat): Unit {
    if !limits || u.m.budgetTenths >= OVERRUN_TENTHS then u
    else
      var m := u.m.(awake := false);
      if !(u.p.active || m.moving) then u.(m := m)
      else
        var stopped := m.(moving := false);
        Unit(if !stopped.lastOpOngoing then stopped
             else stopped.(lastOpOngoing := false,
                           lastOpLastMs := if stopped.lastOpStartedMs != 0 && now >= stopped.lastOpStartedMs
                                           then now - stopped.lastOpStartedMs else stopped.lastOpLastMs),
             u.p.(active := false))
  }

  /** Completes a plan whose end has come. The operation cannot have started after now. */
  function Complete(u: Unit, now: nat): Unit {
    if !(u.p.active && now >= u.p.endMs) then u
    else
      var m := u.m.(position := u.p.target, moving := false, awake := false);
      var timed := if !m.lastOpOngoing then m
                   else m.(lastOpOngoing := false,
                           lastOpLastMs := if m.lastOpStartedMs != 0 && now >= m.lastOpStartedMs
                                           then now - m.lastOpStartedMs else m.lastOpLastMs);
      var counted := if u.p.isHome then timed.(homed := true, stepsSinceHome := 0)
                     else if timed.homed then
                       timed.(stepsSinceHome := timed.stepsSinceHome + Abs(u.p.target - u.m.position))
                     else timed;
      Unit(counted, u.p.(active := false))
  }

  function TickUnit(u: Unit, limits: bool, now: nat): Unit {
    Complete(Enforce(u.(m := Charge(u.m, now)), limits, now), now)
  }

  function MoveMs(u: Unit, target: int, speed: int, accel: int): nat {
    Cut(MoveTime(Abs(target - u.m.position), speed, accel))
  }

  /** The two-leg duration, added up in 32-bit arithmetic. */
  function StubHomeMs(overshoot: int, backoff: int, speed: int, accel: int): nat {
    Cut(Cut(MoveTime(Abs(overshoot), speed, accel)) + Cut(MoveTime(Abs(backoff), speed, accel)))
  }

  function Start(u: Unit, speed: int, accel: int, isHome: bool, target: int, duration: nat, now: nat): Unit {
    Unit(u.m.(awake := true, speed := speed, accel := accel, moving := true,
              lastOpType := (if isHome then HomeOp else MoveOp), lastOpStartedMs := now,
              lastOpEstMs := duration, lastOpOngoing := true),
         MovePlan(true, isHome, target, now + duration, u.m.position))
  }

  // ---------------- the whole controller ----------------

  predicate AnyMoving(s: Stub, mask: Mask) {
    exists i :: 0 <= i < |s.units| && i in mask && s.units[i].m.moving
  }

  function Tick(s: Stub, now: nat): (r: Stub)
    ensures |r.units| == |s.units| && r.limits == s.limits
    ensures forall i :: 0 <= i < |s.units| ==> r.units[i] == TickUnit(s.units[i], s.limits, now)
  {
    s.(units := seq(|s.units|, i requires 0 <= i < |s.units| => TickUnit(s.units[i], s.limits, now)))
  }

  /** The operations that a mask selects motors for. */
  datatype Op =
    | MoveAbs(mask: Mask, target: int, speed: int, accel: int)
    | Home(mask: Mask, overshoot: int, backoff: int, speed: int, accel: int)
    | Wake(mask: Mask)
    | Sleep(mask: Mask)

  function OpUnit(u: Unit, op: Op, now: nat): Unit {
    match op
    case MoveAbs(_, target, speed, accel) =>
      Start(u, speed, accel, false, target, MoveMs(u, target, speed, accel), now)
    case Home(_, overshoot, backoff, speed, accel) =>
      Start(u, speed, accel, true, 0, StubHomeMs(overshoot, backoff, speed, accel), now)
    case Wake(_) => u.(m := u.m.(awake := true))
    case Sleep(_) => u.(m := u.m.(awake := false))
  }

  /** Everything but WAKE is refused while a selected motor moves. */
  predicate OpAllowed(s: Stub, op: Op) {
    op.Wake? || !AnyMoving(s, op.mask)
  }

  function Apply(s: Stub, op: Op, now: nat): (r: Stub)
    ensures |r.units| == |s.units| && r.limits == s.limits
    ensures forall i :: 0 <= i < |s.units| ==>
              r.units[i] == if OpAllowed(s, op) && i in op.mask then OpUnit(s.units[i], op, now) else s.units[i]
  {
    if !OpAllowed(s, op) then s
    else
      s.(units := seq(|s.units|, i requires 0 <= i < |s.units| =>
        if i in op.mask then OpUnit(s.units[i], op, now) else s.units[i]))
  }

  class StubMotorController {
    const count: nat
    const motors: array<MotorState>
    const plans: array<MovePlan>
    var limits: bool

    ghost predicate Valid() {
      count <= 8 && motors.Length == plans.Length == 8
    }

    ghost function Model(): (s: Stub)
      reads this, motors, plans
      requires Valid()
      ensures |s.units| == count && s.limits == limits
      ensures forall i :: 0 <= i < count ==> s.units[i] == Unit(motors[i], plans[i])
    {
      Stub(seq(count, i requires 0 <= i < count reads this, motors, plans => Unit(motors[i], plans[i])), limits)
    }

    constructor (requested: nat)
      ensures Valid() && fresh(motors) && fresh(plans)
      ensures count == (if requested > 8 then 8 else requested)
      ensures Model() == InitialStub(count)
    {
      count := if requested > 8 then 8 else requested;
      motors := new MotorState[8](i => InitialMotor(i));
      plans := new MovePlan[8](_ => MovePlan(false, false, 0, 0, 0));
      limits := true;
    }

    method IsAnyMovingForMask(mask: Mask) returns (b: bool)
      requires Valid()
      ensures b == AnyMoving(Model(), mask)
    {
      for i := 0 to count
        invariant forall k :: 0 <= k < i && k in mask ==> !motors[k].moving
      {
        if i in mask && motors[i].moving {
          assert Model().units[i].m.moving;
          return true;
        }
      }
      return false;
    }

    method WakeMask(mask: Mask, ghost now: nat)
      requires Valid()
      modifies motors
      ensures Model() == Apply(old(Model()), Wake(mask), now)
    {
      for i := 0 to count
        invariant forall k :: 0 <= k < i ==>
                    motors[k] == if k in mask then old(motors[k]).(awake := true) else old(motors[k])
        invariant forall k :: i <= k < 8 ==> motors[k] == old(motors[k])
      {
        if i in mask {
          motors[i] := motors[i].(awake := true);
        }
      }
    }

    method SleepMask(mask: Mask, ghost now: nat) returns (ok: bool)
      requires Valid()
      modifies motors
      ensures ok == OpAllowed(old(Model()), Sleep(mask))
      ensures Model() == Apply(old(Model()), Sleep(mask), now)
    {
      var busy := IsAnyMovingForMask(mask);
      if busy {
        return false;
      }
      for i := 0 to count
        invariant forall k :: 0 <= k < i ==>
                    motors[k] == if k in mask then old(motors[k]).(awake := false) else old(motors[k])
        invariant forall k :: i <= k < 8 ==> motors[k] == old(motors[k])
      {
        if i in mask {
          motors[i] := motors[i].(awake := false);
        }
      }
      return true;
    }

    method MoveAbsMask(mask: Mask, target: int, speed: int, accel: int, now: nat) returns (ok: bool)
      requires Valid()
      modifies motors, plans
      ensures ok == OpAllowed(old(Model()), MoveAbs(mask, target, speed, accel))
      ensures Model() == Apply(old(Model()), MoveAbs(mask, target, speed, accel), now)
    {
      var busy := IsAnyMovingForMask(mask);
      if busy {
        return false;
      }
      ghost var was := Model();
      for i := 0 to count
        invariant forall k :: 0 <= k < i ==>
                    Unit(motors[k], plans[k]) == if k in mask
                      then OpUnit(was.units[k], MoveAbs(mask, target, speed, accel), now) else was.units[k]
        invariant forall k :: i <= k < 8 ==> motors[k] == old(motors[k]) && plans[k] == old(plans[k])
      {
        if i in mask {
          var duration := MoveMs(Unit(motors[i], plans[i]), target, speed, accel);
          BeginPlan(i, speed, accel, false, target, duration, now);
        }
      }
      return true;
    }

    method HomeMask(mask: Mask, overshoot: int, backoff: int, speed: int, accel: int, now: nat)
      returns (ok: bool)
      requires Valid()
      modifies motors, plans
      ensures ok == OpAllowed(old(Model()), Home(mask, overshoot, backoff, speed, accel))
      ensures Model() == Apply(old(Model()), Home(mask, overshoot, backoff, speed, accel), now)
    {
      var busy := IsAnyMovingForMask(mask);
      if busy {
        return false;
      }
      ghost var was := Model();
      var duration := StubHomeMs(overshoot, backoff, speed, accel);
      for i := 0 to count
        invariant forall k :: 0 <= k < i ==>
                    Unit(motors[k], plans[k]) == if k in mask
                      then OpUnit(was.units[k], Home(mask, overshoot, backoff, speed, accel), now) else was.units[k]
        invariant forall k :: i <= k < 8 ==> motors[k] == old(motors[k]) && plans[k] == old(plans[k])
      {
        if i in mask {
          BeginPlan(i, speed, accel, true, 0, duration, now);
        }
      }
      return true;
    }

    method BeginPlan(i: nat, speed: int, accel: int, isHome: bool, target: int, duration: nat, now: nat)
      requires Valid() && i < 8
      modifies motors, plans
      ensures Unit(motors[i], plans[i])
           == Start(old(Unit(motors[i], plans[i])), speed, accel, isHome, target, duration, now)
      ensures forall k :: 0 <= k < 8 && k != i ==> motors[k] == old(motors[k]) && plans[k] == old(plans[k])
    {
      motors[i] := motors[i].(awake := true);
      motors[i] := motors[i].(speed := speed);
      motors[i] := motors[i].(accel := accel);
      motors[i] := motors[i].(moving := true);
      plans[i] := MovePlan(true, isHome, target, now + duration, motors[i].position);
      motors[i] := motors[i].(lastOpType := if isHome then HomeOp else MoveOp);
      motors[i] := motors[i].(lastOpStartedMs := now);
      motors[i] := motors[i].(lastOpEstMs := duration);
      motors[i] := motors[i].(lastOpOngoing := true);
    }

    method TickAll(now: nat)
      requires Valid()
      modifies motors, plans
      ensures Model() == Tick(old(Model()), now)
    {
      ghost var was := Model();
      for i := 0 to count
        invariant forall k :: 0 <= k < i ==> Unit(motors[k], plans[k]) == TickUnit(was.units[k], limits, now)
        invariant forall k :: i <= k < 8 ==> motors[k] == old(motors[k]) && plans[k] == old(plans[k])
      {
        KeepBooks(i, now);
        if limits {
          AutoSleep(i, now);
        }
        CompletePlan(i, now);
      }
    }

    method KeepBooks(i: nat, now: nat)
      requires Valid() && i < 8
      modifies motors
      ensures motors[i] == Charge(old(motors[i]), now)
      ensures forall k :: 0 <= k < 8 && k != i ==> motors[k] == old(motors[k])
    {
      if now >= motors[i].lastUpdateMs {
        var seconds := (now - motors[i].lastUpdateMs) / 1000;
        if seconds > 0 {
          if motors[i].awake {
            motors[i] := motors[i].(budgetTenths := motors[i].budgetTenths - SPEND_TENTHS_PER_SEC * seconds);
            if motors[i].budgetTenths < BUDGET_FLOOR {
              motors[i] := motors[i].(budgetTenths := BUDGET_FLOOR);
            }
          } else {
            motors[i] := motors[i].(budgetTenths := motors[i].budgetTenths + REFILL_TENTHS_PER_SEC * seconds);
            if motors[i].budgetTenths > BUDGET_TENTHS_MAX {
              motors[i] := motors[i].(budgetTenths := BUDGET_TENTHS_MAX);
            }
          }
          motors[i] := motors[i].(lastUpdateMs := motors[i].lastUpdateMs + seconds * 1000);
        }
      }
    }

    method AutoSleep(i: nat, now: nat)
      requires Valid() && i < 8
      modifies motors, plans
      ensures Unit(motors[i], plans[i]) == Enforce(old(Unit(motors[i], plans[i])), true, now)
      ensures forall k :: 0 <= k < 8 && k != i ==> motors[k] == old(motors[k]) && plans[k] == old(plans[k])
    {
      if motors[i].budgetTenths < OVERRUN_TENTHS {
        motors[i] := motors[i].(awake := false);
        if plans[i].active || motors[i].moving {
          motors[i] := motors[i].(moving := false);
          plans[i] := plans[i].(active := false);
          if motors[i].lastOpOngoing {
            motors[i] := motors[i].(lastOpOngoing := false);
            if motors[i].lastOpStartedMs != 0 && now >= motors[i].lastOpStartedMs {
              motors[i] := motors[i].(lastOpLastMs := now - motors[i].lastOpStartedMs);
            }
          }
        }
      }
    }

    method CompletePlan(i: nat, now: nat)
      requires Valid() && i < 8
      modifies motors, plans
      ensures Unit(motors[i], plans[i]) == Complete(old(Unit(motors[i], plans[i])), now)
      ensures forall k :: 0 <= k < 8 && k != i ==> motors[k] == old(motors[k]) && plans[k] == old(plans[k])
    {
      if plans[i].active && now >= plans[i].endMs {
        var oldPos := motors[i].position;
        motors[i] := motors[i].(position := plans[i].target);
        motors[i] := motors[i].(moving := false);
        motors[i] := motors[i].(awake := false);
        if motors[i].lastOpOngoing {
          motors[i] := motors[i].(lastOpOngoing := false);
          if motors[i].lastOpStartedMs != 0 && now >= motors[i].lastOpStartedMs {
            motors[i] := motors[i].(lastOpLastMs := now - motors[i].lastOpStartedMs);
          }
        }
        if plans[i].isHome {
          motors[i] := motors[i].(homed := true);
          motors[i] := motors[i].(stepsSinceHome := 0);
        } else if motors[i].homed {
          var delta := Abs(motors[i].position - oldPos);
          motors[i] := motors[i].(stepsSinceHome := motors[i].stepsSinceHome + delta);
        }
        plans[i] := plans[i].(active := false);
      }
    }
  }
}
