/** The adapter object of src/drivers/Esp32/SharedStepAdapterEsp32.cpp, updated in place; each
    method is tied to the function of the same name in SharedStepModel. */
module SharedStepAdapter {
  import opened IntegerMath
  import opened SharedStepTiming
  import M = SharedStepModel

  class SharedStepAdapterEsp32 {
    const slots: array<M.Slot>
    const flips: array<M.Flip>
    var running: bool
    var currentSpeed: nat
    var period: nat
    var anchor: nat
    var rampLast: nat
    var vCur: nat
    var vMax: nat
    var accel: nat
    var decel: nat
    var dvAcc: nat
    var dirBits: set<nat>
    var sleepBits: set<nat>
    ghost var log: seq<M.Latch>

    ghost predicate Valid()
      reads this
    {
      slots.Length == flips.Length
    }

    ghost function Gen(): M.Gen
      reads this
    {
      M.Gen(running, currentSpeed, period, anchor, rampLast, vCur, vMax, accel, decel, dvAcc)
    }

    ghost function Model(): (s: M.St)
      reads this, slots, flips
      ensures Valid() ==> M.Valid(s)
    {
      M.St(slots[..], flips[..], Gen(), dirBits, sleepBits, log)
    }

    constructor (count: nat)
      ensures Valid() && fresh(slots) && fresh(flips)
      ensures Model() == M.Begin(count)
    {
      slots := new M.Slot[count](_ => M.IDLE_SLOT);
      flips := new M.Flip[count](_ => M.IDLE_FLIP);
      running, currentSpeed, period, anchor, rampLast := false, 0, 0, 0, 0;
      vCur, vMax, accel, decel, dvAcc := 0, 0, 0, 0, 0;
      dirBits, sleepBits, log := {}, {}, [M.Latch({}, {})];
      new;
      assert slots[..] == seq(count, _ => M.IDLE_SLOT);
      assert flips[..] == seq(count, _ => M.IDLE_FLIP);
    }

    method MaybeStartGen(speed: nat, now: nat)
      modifies this
      ensures Gen() == M.MaybeStartGen(old(Gen()), speed, now)
      ensures unchanged(`dirBits) && unchanged(`sleepBits) && unchanged(`log)
    {
      var setting := speed;
      if setting < M.MIN_GEN_SPS {
        setting := M.MIN_GEN_SPS;
      }
      if running && setting == currentSpeed {
        return;
      }
      running := true;
      currentSpeed := setting;
      period := StepPeriod(setting);
      anchor := now;
    }

    method MaybeStopGen()
      modifies this
      ensures Model() == M.MaybeStopGen(old(Model()))
    {
      var k := 0;
      while k < slots.Length
        invariant k <= slots.Length && forall j :: 0 <= j < k ==> !slots[j].moving
      {
        if slots[k].moving {
          assert slots[..][k].moving;
          return;
        }
        k := k + 1;
      }
      running := false;
    }

    method FlushLatch()
      modifies this`log
      ensures Model() == M.Flush(old(Model()))
    {
      log := log + [M.Latch(dirBits, sleepBits)];
    }

    method LatchSleep(i: nat, high: bool)
      modifies this
      ensures Model() == M.LatchSleep(old(Model()), i, high)
    {
      if high {
        sleepBits := sleepBits + {i};
      } else {
        sleepBits := sleepBits - {i};
      }
      FlushLatch();
    }

    method SetDirectionBit(i: nat, dirSign: int)
      modifies this`dirBits
      ensures dirBits == M.With(old(dirBits), i, dirSign > 0)
    {
      if dirSign > 0 {
        dirBits := dirBits + {i};
        return;
      }
      dirBits := dirBits - {i};
    }

    method ComputeMotionWindow() returns (anyMoving: bool, minRemaining: nat)
      ensures anyMoving == M.AnyMoving(slots[..])
      ensures minRemaining == M.MinRemaining(slots[..], slots.Length)
    {
      anyMoving, minRemaining := false, 0xFFFF_FFFF;
      var k := 0;
      while k < slots.Length
        invariant k <= slots.Length
        invariant anyMoving == exists j :: 0 <= j < k && slots[..][j].moving
        invariant minRemaining == M.MinRemaining(slots[..], k)
      {
        var slot := slots[k];
        if slot.moving {
          anyMoving := true;
          assert slots[..][k].moving;
          var left := Abs(slot.target - slot.pos);
          if left < minRemaining {
            minRemaining := left;
          }
        }
        k := k + 1;
      }
    }

    method EnableOutputs(i: nat)
      requires Valid()
      modifies this, slots
      ensures Model() == M.EnableOutputs(old(Model()), i)
    {
      if i >= slots.Length {
        return;
      }
      slots[i] := slots[i].(awake := true, forced := true);
      LatchSleep(i, true);
    }

    method DisableOutputs(i: nat)
      requires Valid()
      modifies this, slots
      ensures Model() == M.DisableOutputs(old(Model()), i)
    {
      if i >= slots.Length {
        return;
      }
      slots[i] := slots[i].(awake := false, forced := false);
      LatchSleep(i, false);
    }

    /** The lines at the start of a move, and the window to wait for, if any. */
    method PrepareLines(i: nat, dirSign: int, needFlip: bool, now: nat) returns (w: FlipWindow)
      requires Valid()
      modifies this`dirBits, this`sleepBits, this`log
      ensures w == if needFlip then M.WindowFor(Gen(), now) else NoWindow
      ensures Model() == M.StartLines(old(Model()), i, dirSign, needFlip, w.FlipWindow?)
    {
      ghost var was := Model();
      if needFlip {
        sleepBits := sleepBits - {i};
        FlushLatch();
        assert Model() == M.LatchSleep(was, i, false);
      }
      w := NoWindow;
      if needFlip && running && period > 0 {
        var rel := if now >= anchor then now - anchor else 0;
        w := ComputeFlipWindow(rel, period, M.GUARD_PRE_US, M.GUARD_POST_US);
      }
      if w.NoWindow? {
        if needFlip {
          SetDirectionBit(i, dirSign);
          FlushLatch();
        }
        sleepBits := sleepBits + {i};
        FlushLatch();
      }
    }

    method StartGenerator(now: nat)
      modifies this
      ensures Gen() == M.StartGen(old(Gen()), now)
      ensures unchanged(`dirBits) && unchanged(`sleepBits) && unchanged(`log)
    {
      if !running {
        vCur := M.MIN_GEN_SPS;
        MaybeStartGen(vCur, now);
        rampLast := now;
      } else {
        anchor := now;
      }
    }

    method ScheduleFlip(i: nat, w: FlipWindow, dirSign: int)
      requires Valid() && i < flips.Length
      modifies flips
      ensures flips[..] == old(flips[..])[i := M.Booked(old(flips[i]), w, anchor, dirSign)]
    {
      if w.FlipWindow? {
        flips[i] := M.Flip(true, 0, w.sleepLow + anchor, w.dirFlip + anchor, w.sleepHigh + anchor, dirSign);
      } else {
        flips[i] := flips[i].(active := false, phase := 0, newDir := dirSign);
      }
    }

    method SetCurrentPosition(i: nat, pos: int)
      requires Valid()
      modifies slots
      ensures Model() == M.SetCurrentPosition(old(Model()), i, pos)
    {
      if i >= slots.Length {
        return;
      }
      ghost var was := Model();
      slots[i] := slots[i].(pos := pos);
      assert slots[..] == was.slots[i := slots[i]];
    }

    method SetDeceleration(d: int)
      modifies this`decel
      ensures Model() == M.SetDeceleration(old(Model()), d)
    {
      decel := if d > 0 then d else 0;
    }

    method BookMove(i: nat, target: int, speed: int, acceleration: int, dirSign: int, w: FlipWindow, now: nat)
      requires Valid() && i < slots.Length
      modifies this, slots, flips
      ensures Model() == M.Booking(old(Model()), i, target, speed, acceleration, dirSign, w, now)
    {
      hide M.StartGen, M.Booked;
      ghost var was := Model();
      vMax := if speed > 0 then speed else 1;
      accel := if acceleration > 0 then acceleration else 1;
      ScheduleFlip(i, w, dirSign);
      slots[i] := slots[i].(target := target, dirSign := dirSign, moving := true, awake := w.NoWindow?, lastUs := now,
                            accUs := 0);
      StartGenerator(now);
      assert slots[..] == was.slots[i := slots[i]];
    }

    method StartMoveAbs(i: nat, target: int, speed: int, acceleration: int, now: nat) returns (ok: bool)
      requires Valid()
      modifies this, slots, flips
      ensures ok == (i < slots.Length)
      ensures Model() == M.StartMoveAbs(old(Model()), i, target, speed, acceleration, now)
    {
      hide M.StartLines, M.WindowFor, M.Booking;
      ghost var was := Model();
      if i >= slots.Length {
        return false;
      }
      ok := true;
      var slot := slots[i];
      if target - slot.pos == 0 {
        slots[i] := slot.(moving := false);
        assert slots[..] == was.slots[i := slots[i]];
        return;
      }
      var dirSign := if target - slot.pos > 0 then 1 else -1;
      var curDirSign := if i in dirBits then 1 else -1;
      var needFlip := dirSign != curDirSign;
      var w := PrepareLines(i, dirSign, needFlip, now);
      BookMove(i, target, speed, acceleration, dirSign, w, now);
    }

    method NextSpeed(minRemaining: nat, elapsed: nat) returns (newSpeed: nat, fraction: nat)
      ensures (newSpeed, fraction) == M.RampSpeed(Gen(), minRemaining, elapsed)
    {
      hide M.PerMillion;
      var targetSpeed := if vMax > 0 then vMax else M.MIN_GEN_SPS;
      var stopping := StopDistance(vCur, decel);
      var needDecel := decel > 0 && (minRemaining <= stopping || vCur > targetSpeed);
      var needAccel := !needDecel && vCur < targetSpeed;
      var effective := if needAccel then (if accel > 0 then accel else 1) else if needDecel then decel else 0;
      var total := effective * elapsed + dvAcc;
      assert total >= 0;
      var (dv, fractionLeft) := M.PerMillion(total);
      fraction := fractionLeft;
      newSpeed := vCur;
      if needAccel && dv > 0 {
        newSpeed := newSpeed + dv;
        if newSpeed > targetSpeed {
          newSpeed := targetSpeed;
        }
      } else if needDecel && dv > 0 {
        newSpeed := if dv > newSpeed then 0 else newSpeed - dv;
      }
    }

    method UpdateRamp(now: nat)
      requires Valid()
      modifies this
      ensures Model() == M.UpdateRamp(old(Model()), now)
    {
      hide M.RampSpeed, M.MinRemaining, M.AnyMoving, M.MaybeStartGen;
      var anyMoving, minRemaining := ComputeMotionWindow();
      if !anyMoving {
        running, vCur, currentSpeed, period, dvAcc, rampLast := false, 0, 0, 0, 0, now;
        return;
      }
      if now <= rampLast {
        return;
      }
      var newSpeed, fraction := NextSpeed(minRemaining, now - rampLast);
      rampLast := now;
      dvAcc := fraction;
      var commanded := newSpeed;
      if commanded > 0 && commanded < M.MIN_GEN_SPS {
        commanded := M.MIN_GEN_SPS;
      }
      if !running || commanded != currentSpeed {
        MaybeStartGen(commanded, now);
      }
      vCur := newSpeed;
    }

    /** The last test of the firmware's scheduler, in its third stage, repeats one that has
        already returned and cannot succeed. */
    method RunFlipScheduler(i: nat, now: nat)
      requires Valid() && i < slots.Length
      modifies this, slots, flips
      ensures Model() == M.RunFlipScheduler(old(Model()), i, now)
    {
      ghost var was := Model();
      var schedule := flips[i];
      if !schedule.active {
        return;
      }
      if period == 0 {
        flips[i] := schedule.(active := false);
        assert flips[..] == was.flips[i := flips[i]];
        return;
      }
      if now >= schedule.sleepHigh {
        SetDirectionBit(i, schedule.newDir);
        LatchSleep(i, true);
        slots[i] := slots[i].(awake := true);
        flips[i] := schedule.(active := false);
        assert flips[..] == was.flips[i := flips[i]] && slots[..] == was.slots[i := slots[i]];
        return;
      }
      if flips[i].phase == 0 {
        if now < schedule.sleepLow {
          return;
        }
        LatchSleep(i, false);
        flips[i] := flips[i].(phase := 1);
        assert Model() == M.Phase(M.LatchSleep(was, i, false), i, 1);
      }
      if flips[i].phase == 1 {
        if now < schedule.dirFlip {
          return;
        }
        ghost var lowered := Model();
        SetDirectionBit(i, schedule.newDir);
        FlushLatch();
        flips[i] := flips[i].(phase := 2);
        assert Model() == M.Phase(M.LatchDir(lowered, i, schedule.newDir), i, 2);
      }
    }

    method Integrate(i: nat, dt: nat)
      requires Valid() && i < slots.Length
      modifies slots
      ensures Model() == M.Advance(old(Model()), i, dt)
    {
      hide M.PerMillion;
      ghost var was := Model();
      var slot := slots[i];
      if !slot.awake || currentSpeed == 0 {
        return;
      }
      var total := dt * currentSpeed + slot.accUs;
      assert total >= 0;
      var (steps, fraction) := M.PerMillion(total);
      slot := slot.(accUs := fraction);
      if steps > 0 {
        var pos := slot.pos + slot.dirSign * steps;
        if slot.dirSign > 0 {
          if pos >= slot.target {
            pos := slot.target;
            slot := slot.(moving := false);
          }
        } else if pos <= slot.target {
          pos := slot.target;
          slot := slot.(moving := false);
        }
        slot := slot.(pos := pos);
      }
      slots[i] := slot;
      assert slots[..] == was.slots[i := slot];
    }

    method UpdateProgress(i: nat, now: nat)
      requires Valid()
      modifies this, slots, flips
      ensures Model() == M.UpdateProgress(old(Model()), i, now)
    {
      hide M.RunFlipScheduler, M.UpdateRamp, M.MaybeStopGen, M.Advance;
      if i >= slots.Length || !slots[i].moving {
        return;
      }
      ghost var was := Model();
      var dt := M.Wrapped(now - slots[i].lastUs);
      slots[i] := slots[i].(lastUs := now);
      assert slots[..] == was.slots[i := slots[i]];
      RunFlipScheduler(i, now);
      Integrate(i, dt);
      UpdateRamp(now);
      if !slots[i].moving {
        ghost var stopped := Model();
        if !slots[i].forced {
          slots[i] := slots[i].(awake := false);
          assert slots[..] == stopped.slots[i := slots[i]];
          LatchSleep(i, false);
        }
        MaybeStopGen();
      }
    }

    method IsMoving(i: nat, now: nat) returns (moving: bool)
      requires Valid()
      modifies this, slots, flips
      ensures Model() == M.UpdateProgress(old(Model()), i, now)
      ensures moving == (i < slots.Length && slots[i].moving)
    {
      if i >= slots.Length {
        return false;
      }
      UpdateProgress(i, now);
      moving := slots[i].moving;
    }

    method CurrentPosition(i: nat, now: nat) returns (pos: int)
      requires Valid()
      modifies this, slots, flips
      ensures Model() == M.UpdateProgress(old(Model()), i, now)
      ensures pos == if i < slots.Length then slots[i].pos else 0
    {
      if i >= slots.Length {
        return 0;
      }
      UpdateProgress(i, now);
      pos := slots[i].pos;
    }
  }
}
