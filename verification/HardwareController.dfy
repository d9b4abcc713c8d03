/** The hardware controller, its adapter and its shift registers as objects that are updated in
    place; each public method is tied to a function of HardwareModel. */
module HardwareController {
  import opened IntegerMath
  import opened MotionKinematics
  import opened MotorTypes
  import opened HardwareModel

  /** Stand-in for the motion library: it holds one slot per motor. */
  class FasAdapter {
    const slots: array<Slot>

    constructor (count: nat)
      ensures fresh(slots) && slots.Length == count
      ensures forall i :: 0 <= i < count ==> slots[i] == Slot(false, 0, 0)
    {
      slots := new Slot[count](_ => Slot(false, 0, 0));
    }

    method StartMoveAbs(i: nat, target: int)
      requires i < slots.Length
      modifies slots
      ensures slots[..] == old(slots[..])[i := StartSlot(old(slots[i]), target)]
    {
      slots[i] := StartSlot(slots[i], target);
    }

    /** Rebases an idle motor. */
    method SetCurrentPosition(i: nat, pos: int)
      requires i < slots.Length
      modifies slots
      ensures slots[..] == old(slots[..])[i := Slot(false, pos, pos)]
    {
      slots[i] := Slot(false, pos, pos);
    }
  }

  /** The two shift registers, holding what was latched last. */
  class Shift595 {
    var dir: set<nat>
    var sleep: set<nat>

    constructor ()
      ensures dir == {} && sleep == {}
    {
      dir, sleep := {}, {};
    }

    method SetDirSleep(dirBits: set<nat>, sleepBits: set<nat>)
      modifies this
      ensures dir == dirBits && sleep == sleepBits
    {
      dir, sleep := dirBits, sleepBits;
    }
  }

  class HardwareMotorController {
    const count: nat
    const motors: array<MotorState>
    const homing: array<HomingPlan>
    const fas: FasAdapter
    const shift: Shift595
    var dirBits: set<nat>
    var sleepBits: set<nat>
    var forcedAwake: set<nat>
    var limits: bool
    ghost var trace: seq<Act>

    ghost predicate Valid() {
      count <= 8 && motors.Length == homing.Length == fas.slots.Length == count
    }

    /** The registers hold the controller's current bits. */
    ghost predicate InSync()
      reads this, shift
    {
      shift.dir == dirBits && shift.sleep == sleepBits
    }

    ghost function CellAt(i: nat): Cell
      reads this, motors, homing, fas.slots
      requires Valid() && i < count
    {
      Cell(motors[i], homing[i], fas.slots[i], i in dirBits, i in sleepBits, i in forcedAwake)
    }

    ghost function Cells(): (cells: seq<Cell>)
      reads this, motors, homing, fas.slots
      requires Valid()
      ensures |cells| == count && forall i :: 0 <= i < count ==> cells[i] == CellAt(i)
    {
      seq(count, (i: nat) requires i < count reads this, motors, homing, fas.slots => CellAt(i))
    }

    ghost function Model(): Hw
      reads this, motors, homing, fas.slots
      requires Valid()
    {
      Hw(Cells(), limits, trace)
    }

    constructor (adapter: FasAdapter, registers: Shift595)
      requires adapter.slots.Length <= 8
      modifies registers
      ensures InSync() && shift == registers
      ensures Valid() && fresh(motors) && fresh(homing) && fas == adapter
      ensures Model().limits && |Model().cells| == adapter.slots.Length
      ensures forall i :: 0 <= i < count ==>
                CellAt(i) == Cell(InitialMotor(i), HomingPlan(false, 0, 0, 0, 0, 0, 0), adapter.slots[i], false, false, false)
      ensures trace == [Latch(seq(count, _ => false), seq(count, _ => false))]
    {
      count := adapter.slots.Length;
      motors := new MotorState[adapter.slots.Length](i => InitialMotor(i));
      homing := new HomingPlan[adapter.slots.Length](_ => HomingPlan(false, 0, 0, 0, 0, 0, 0));
      fas := adapter;
      dirBits, sleepBits, forcedAwake, limits := {}, {}, {}, true;
      trace := [Latch(seq(adapter.slots.Length, _ => false), seq(adapter.slots.Length, _ => false))];
      shift := registers;
      new;
      shift.SetDirSleep(dirBits, sleepBits);
    }

    method LatchBits()
      requires Valid()
      modifies this`trace, shift
      ensures InSync()
      ensures Model() == Latched(old(Model()))
    {
      shift.SetDirSleep(dirBits, sleepBits);
      trace := trace + [Latch(Dirs(Cells()), Sleeps(Cells()))];
    }

    method StartMotor(i: nat, target: int)
      requires Valid() && i < count
      modifies this`trace, fas.slots
      ensures Model() == Started(old(Model()), i, target)
      ensures forall k :: 0 <= k < count && k != i ==> CellAt(k) == old(CellAt(k))
    {
      ghost var was := Model();
      trace := trace + [Start(i, fas.slots[i].position, target)];
      fas.StartMoveAbs(i, target);
      assert Cells() == Started(was, i, target).cells;
    }

    method IsAnyMovingForMask(mask: Mask) returns (b: bool)
      requires Valid()
      ensures b == AnyRunning(Model().cells, mask)
    {
      for i := 0 to count
        invariant forall k :: 0 <= k < i && k in mask ==> !fas.slots[k].moving
      {
        if i in mask && fas.slots[i].moving {
          assert Cells()[i].slot.moving;
          return true;
        }
      }
      return false;
    }

    method Wake(mask: Mask)
      requires Valid() && InSync()
      modifies this`sleepBits, this`forcedAwake, this`trace, shift, motors
      ensures InSync()
      ensures Model() == WakeMask(old(Model()), mask)
    {
      ghost var was := Model();
      for i := 0 to count
        invariant trace == was.trace && limits == was.limits
        invariant forall k :: 0 <= k < count ==>
                    (CellAt(k) == if k < i && k in mask
                                  then was.cells[k].(m := was.cells[k].m.(awake := true), forced := true, sleep := true)
                                  else was.cells[k])
      {
        if i in mask {
          motors[i] := motors[i].(awake := true);
          forcedAwake := forcedAwake + {i};
          sleepBits := sleepBits + {i};
        }
      }
      LatchBits();
      assert Model().cells == WakeMask(was, mask).cells;
    }

    method Sleep(mask: Mask) returns (ok: bool)
      requires Valid() && InSync()
      modifies this`sleepBits, this`forcedAwake, this`trace, shift, motors
      ensures InSync()
      ensures (Model(), ok) == SleepMask(old(Model()), mask)
    {
      ghost var was := Model();
      var busy := IsAnyMovingForMask(mask);
      if busy {
        return false;
      }
      for i := 0 to count
        invariant trace == was.trace && limits == was.limits
        invariant forall k :: 0 <= k < count ==>
                    (CellAt(k) == if k < i && k in mask
                                  then was.cells[k].(m := was.cells[k].m.(awake := false), forced := false, sleep := false)
                                  else was.cells[k])
      {
        if i in mask {
          motors[i] := motors[i].(awake := false);
          forcedAwake := forcedAwake - {i};
          sleepBits := sleepBits - {i};
        }
      }
      LatchBits();
      assert Model().cells == SleepMask(was, mask).0.cells;
      return true;
    }

    /** The part of moveAbsMask and homeMask that records one operation and sets its bits. */
    method PrepareMotor(i: nat, target: int, speed: int, accel: int, op: OpType, est: nat, now: nat)
      requires Valid() && i < count
      modifies this`dirBits, this`sleepBits, motors
      ensures CellAt(i) == Prepare(old(CellAt(i)), target, speed, accel, op, est, now)
      ensures forall k :: 0 <= k < count && k != i ==> CellAt(k) == old(CellAt(k))
    {
      var cur := fas.slots[i].position;
      motors[i] := motors[i].(position := cur, speed := speed, accel := accel, moving := true);
      var delta := target - cur;
      if delta >= 0 {
        dirBits := dirBits + {i};
      } else {
        dirBits := dirBits - {i};
      }
      sleepBits := sleepBits + {i};
      motors[i] := motors[i].(lastOpType := op, lastOpStartedMs := now, lastOpEstMs := est, lastOpOngoing := true);
    }

    method MoveAbs(mask: Mask, target: int, speed: int, accel: int, now: nat) returns (ok: bool)
      requires Valid() && InSync()
      modifies this`dirBits, this`sleepBits, this`trace, shift, motors, fas.slots
      ensures InSync()
      ensures (Model(), ok) == MoveAbsMask(old(Model()), mask, target, speed, accel, now)
    {
      hide PrepareMove;
      ghost var was := Model();
      var busy := IsAnyMovingForMask(mask);
      if busy {
        return false;
      }
      PrepareMoves(mask, target, speed, accel, now);
      LatchBits();
      ghost var latched := Model();
      ghost var targets := SameTarget(count, target);
      for i := 0 to count
        invariant InSync()
        invariant StartFrom(Model(), mask, targets, i) == StartFrom(latched, mask, targets, 0)
      {
        if i in mask {
          StartMotor(i, target);
        }
      }
      return true;
    }

    method PrepareMoves(mask: Mask, target: int, speed: int, accel: int, now: nat)
      requires Valid()
      modifies this`dirBits, this`sleepBits, motors
      ensures Model() == old(Model()).(cells := PreparedMoves(old(Cells()), mask, target, speed, accel, now))
    {
      hide MoveTime;
      ghost var was := Cells();
      ghost var prepared := PreparedMoves(was, mask, target, speed, accel, now);
      for i := 0 to count
        invariant forall k :: 0 <= k < count ==> CellAt(k) == if k < i then prepared[k] else was[k]
      {
        if i in mask {
          var est := Cut(MoveTime(Abs(target - fas.slots[i].position), speed, accel));
          PrepareMotor(i, target, speed, accel, MoveOp, est, now);
        }
      }
      assert Cells() == prepared;
    }

    method Home(mask: Mask, overshoot: int, backoff: int, fullRange: int, speed: int, accel: int, now: nat)
      returns (ok: bool)
      requires Valid() && InSync()
      modifies this`dirBits, this`sleepBits, this`trace, shift, motors, homing, fas.slots
      ensures InSync()
      ensures (Model(), ok) == HomeMask(old(Model()), mask, overshoot, backoff, fullRange, speed, accel, now)
    {
      hide HomeEstimate, PrepareHome, NewPlan, AnyRunning;
      ghost var was := Model();
      var busy := IsAnyMovingForMask(mask);
      if busy {
        return false;
      }
      var plan := NewPlan(overshoot, backoff, fullRange, speed, accel);
      var est := HomeEstimate(overshoot, backoff, plan.fullRange, speed, accel);
      PrepareHomes(mask, plan, est, now);
      LatchBits();
      ghost var latched := Model();
      ghost var targets := FirstLegTargets(was.cells, plan);
      for i := 0 to count
        invariant InSync()
        invariant StartFrom(Model(), mask, targets, i) == StartFrom(latched, mask, targets, 0)
        invariant forall k :: i <= k < count ==> CellAt(k).slot == was.cells[k].slot
      {
        if i in mask {
          assert fas.slots[i] == CellAt(i).slot;
          StartMotor(i, fas.slots[i].position - (plan.fullRange + plan.overshoot));
        }
      }
      return true;
    }

    method PrepareHomes(mask: Mask, plan: HomingPlan, est: nat, now: nat)
      requires Valid()
      modifies this`dirBits, this`sleepBits, motors, homing
      ensures Model() == old(Model()).(cells := PreparedHomes(old(Cells()), mask, plan, est, now))
    {
      ghost var was := Cells();
      ghost var prepared := PreparedHomes(was, mask, plan, est, now);
      for i := 0 to count
        invariant forall k :: 0 <= k < count ==> CellAt(k) == if k < i then prepared[k] else was[k]
      {
        if i in mask {
          homing[i] := plan;
          PrepareMotor(i, fas.slots[i].position - (plan.fullRange + plan.overshoot), plan.speed, plan.accel, HomeOp, est, now);
        }
      }
      assert Cells() == prepared;
    }

    method Tick(now: nat)
      requires Valid() && InSync()
      modifies this`dirBits, this`sleepBits, this`forcedAwake, this`trace, shift, motors, homing, fas.slots
      ensures InSync()
      ensures Model() == TickHw(old(Model()), now)
    {
      hide PassMotor;
      hide Barrier;
      hide Finalize;
      ghost var was := Model();
      for i := 0 to count
        invariant InSync()
        invariant PassFrom(Model(), i, now) == PassFrom(was, 0, now)
      {
        PassOne(i, now);
      }
      GroupBarrier(0);
      GroupBarrier(1);
      FinalizeAll(now);
      assert Model().cells == TickHw(was, now).cells;
    }

    method FinalizeAll(now: nat)
      requires Valid()
      modifies motors, homing, fas.slots
      ensures trace == old(trace) && limits == old(limits) && dirBits == old(dirBits) && sleepBits == old(sleepBits)
      ensures forall k :: 0 <= k < count ==> CellAt(k) == Finalize(old(CellAt(k)), now)
    {
      for i := 0 to count
        invariant forall k :: 0 <= k < count ==>
                    CellAt(k) == if k < i then Finalize(old(CellAt(k)), now) else old(CellAt(k))
      {
        if homing[i].active && homing[i].phase == 2 && !motors[i].moving {
          fas.SetCurrentPosition(i, 0);
          motors[i] := motors[i].(position := 0, moving := false, homed := true, stepsSinceHome := 0);
          homing[i] := homing[i].(active := false);
          motors[i] := FinishOp(motors[i], now);
        }
      }
    }

    method PassOne(i: nat, now: nat)
      requires Valid() && InSync() && i < count
      modifies this`sleepBits, this`forcedAwake, this`trace, shift, motors, homing
      ensures InSync()
      ensures Model() == PassMotor(old(Model()), i, now)
    {
      hide Observe;
      hide EnforceLimit;
      ghost var was := Model();
      var dropped := ObserveMotor(i, now);
      var droppedToo := EnforceMotor(i, now);
      if motors[i].lastOpOngoing && !motors[i].moving && !homing[i].active {
        motors[i] := FinishOp(motors[i], now);
      }
      assert CellAt(i) == PassCell(was.cells[i], limits, now);
      assert Cells() == was.cells[i := PassCell(was.cells[i], limits, now)];
      if dropped || droppedToo {
        LatchBits();
      }
    }

    /** Budget, adapter report and sleep at idle; tells whether the SLEEP bit dropped. */
    method ObserveMotor(i: nat, now: nat) returns (dropped: bool)
      requires Valid() && i < count
      modifies this`sleepBits, motors
      ensures CellAt(i) == Observe(old(CellAt(i)), now)
      ensures forall k :: 0 <= k < count && k != i ==> CellAt(k) == old(CellAt(k))
      ensures dropped <==> sleepBits != old(sleepBits)
      ensures dropped <==> (i in old(sleepBits) && i !in sleepBits)
    {
      hide Charge;
      var m := Charge(motors[i], now);
      var running, pos, oldPos := fas.slots[i].moving, fas.slots[i].position, m.position;
      m := m.(moving := running);
      if m.homed && pos != oldPos {
        m := m.(stepsSinceHome := m.stepsSinceHome + Abs(pos - oldPos));
      }
      m := m.(position := pos);
      dropped := false;
      if !running && i !in forcedAwake {
        if i in sleepBits {
          sleepBits := sleepBits - {i};
          dropped := true;
        }
        m := m.(awake := false);
      } else {
        m := m.(awake := true);
      }
      motors[i] := m;
    }

    /** Sleep on overrun; tells whether the SLEEP bit dropped. */
    method EnforceMotor(i: nat, now: nat) returns (dropped: bool)
      requires Valid() && i < count
      modifies this`sleepBits, this`forcedAwake, motors, homing
      ensures CellAt(i) == EnforceLimit(old(CellAt(i)), limits, now)
      ensures forall k :: 0 <= k < count && k != i ==> CellAt(k) == old(CellAt(k))
      ensures dropped <==> sleepBits != old(sleepBits)
      ensures dropped <==> (i in old(sleepBits) && i !in sleepBits)
    {
      dropped := false;
      if limits && motors[i].budgetTenths < OVERRUN_TENTHS {
        forcedAwake := forcedAwake - {i};
        if i in sleepBits {
          sleepBits := sleepBits - {i};
          dropped := true;
        }
        motors[i] := motors[i].(awake := false);
        if homing[i].active || motors[i].moving {
          homing[i] := homing[i].(active := false);
          motors[i] := motors[i].(moving := false);
          motors[i] := FinishOp(motors[i], now);
        }
      }
    }

    method GroupBarrier(phase: nat)
      requires Valid() && InSync() && phase <= 1
      modifies this`dirBits, this`sleepBits, this`trace, shift, motors, homing, fas.slots
      ensures InSync()
      ensures Model() == Barrier(old(Model()), phase)
    {
      hide LaunchMotor;
      ghost var was := Model();
      var ready := IsReady(phase);
      if ready {
        for i := 0 to count
          invariant InSync()
          invariant LaunchFrom(Model(), phase, i) == LaunchFrom(was, phase, 0)
        {
          if homing[i].active && homing[i].phase == phase {
            LaunchOne(i, phase);
          }
        }
      }
    }

    /** The scan for motors waiting in this phase, which stops at the first one still moving. */
    method IsReady(phase: nat) returns (ready: bool)
      requires Valid()
      ensures ready == Ready(Model().cells, phase)
    {
      ghost var cells := Cells();
      var any := false;
      for i := 0 to count
        invariant any <==> exists k :: 0 <= k < i && Waiting(cells[k], phase)
        invariant forall k :: 0 <= k < i && Waiting(cells[k], phase) ==> !cells[k].m.moving
      {
        if homing[i].active && homing[i].phase == phase {
          assert Waiting(cells[i], phase);
          any := true;
          if motors[i].moving {
            return false;
          }
        }
      }
      return any;
    }

    method LaunchOne(i: nat, phase: nat)
      requires Valid() && i < count && phase <= 1
      modifies this`dirBits, this`sleepBits, this`trace, shift, motors, homing, fas.slots
      ensures InSync()
      ensures Model() == LaunchMotor(old(Model()), i, phase)
    {
      ghost var was := Model();
      var plan, cur := homing[i], fas.slots[i].position;
      var leg := if phase == 0 then plan.backoff
                 else if plan.fullRange > 0 then plan.fullRange / 2 else 1200;
      StartMoveSingle(i, cur + leg, plan.speed, plan.accel);
      homing[i] := plan.(phase := phase + 1);
      assert Cells() == LaunchMotor(was, i, phase).cells;
    }

    method StartMoveSingle(i: nat, target: int, speed: int, accel: int)
      requires Valid() && i < count
      modifies this`dirBits, this`sleepBits, this`trace, shift, motors, fas.slots
      ensures InSync()
      ensures var was := old(Model()); var c := was.cells[i];
        var ready := c.(m := c.m.(position := c.slot.position, speed := speed, accel := accel, moving := true),
                        dir := target >= c.slot.position, sleep := true);
        Model() == Started(Latched(was.(cells := was.cells[i := ready])), i, target)
    {
      ghost var was := Model();
      var cur := fas.slots[i].position;
      motors[i] := motors[i].(position := cur, speed := speed, accel := accel, moving := true);
      var delta := target - cur;
      if delta >= 0 {
        dirBits := dirBits + {i};
      } else {
        dirBits := dirBits - {i};
      }
      sleepBits := sleepBits + {i};
      assert Cells() == was.cells[i := CellAt(i)];
      LatchBits();
      StartMotor(i, target);
    }
  }
}
