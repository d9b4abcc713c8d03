/** One STEP line for all motors, as values.

    Models src/drivers/Esp32/SharedStepAdapterEsp32.cpp. A motor steps while its SLEEP bit is
    high; its position is integrated in software from the speed of the common generator each
    time the motor is polled. DIR and SLEEP bits are sets of motor numbers; the log is the
    sequence of values written to the shift register. Times are micros() readings. */
module SharedStepModel {
  import opened IntegerMath
  import opened SharedStepTiming

  const MIN_GEN_SPS := 20
  const GUARD_PRE_US := 3
  const GUARD_POST_US := 3

  datatype Slot = Slot(moving: bool, awake: bool, forced: bool, dirSign: int, target: int, pos: int,
                       lastUs: nat, accUs: nat)

  datatype Flip = Flip(active: bool, phase: nat, sleepLow: int, dirFlip: int, sleepHigh: int, newDir: int)

  datatype Latch = Latch(dir: set<nat>, sleep: set<nat>)

  /** The generator and its ramp. */
  datatype Gen = Gen(running: bool, speed: nat, period: nat, anchor: nat, rampLast: nat, vCur: nat, vMax: nat,
                     accel: nat, decel: nat, dvAcc: nat)

  datatype St = St(slots: seq<Slot>, flips: seq<Flip>, gen: Gen, dir: set<nat>, sleep: set<nat>, log: seq<Latch>)

  predicate Valid(s: St) { |s.slots| == |s.flips| }

  const IDLE_SLOT := Slot(false, false, false, 1, 0, 0, 0, 0)
  const IDLE_FLIP := Flip(false, 0, 0, 0, 0, 1)
  const IDLE_GEN := Gen(false, 0, 0, 0, 0, 0, 0, 0, 0, 0)

  /** After begin(); the register starts with every line low. */
  function Begin(count: nat): (s: St)
    ensures Valid(s)
  {
    St(seq(count, _ => IDLE_SLOT), seq(count, _ => IDLE_FLIP), IDLE_GEN, {}, {}, [Latch({}, {})])
  }

  // ---------------- latch ----------------

  function With(bits: set<nat>, i: nat, high: bool): (r: set<nat>)
    ensures forall j :: j in r <==> if j == i then high else j in bits
  {
    if high then bits + {i} else bits - {i}
  }

  function Flush(s: St): St { s.(log := s.log + [Latch(s.dir, s.sleep)]) }

  function LatchSleep(s: St, i: nat, high: bool): St { Flush(s.(sleep := With(s.sleep, i, high))) }

  function LatchDir(s: St, i: nat, dirSign: int): St { Flush(s.(dir := With(s.dir, i, dirSign > 0))) }

  function EnableOutputs(s: St, i: nat): St {
    if i >= |s.slots| then s
    else LatchSleep(s.(slots := s.slots[i := s.slots[i].(awake := true, forced := true)]), i, true)
  }

  function DisableOutputs(s: St, i: nat): St {
    if i >= |s.slots| then s
    else LatchSleep(s.(slots := s.slots[i := s.slots[i].(awake := false, forced := false)]), i, false)
  }

  // ---------------- generator ----------------

  /** Whole units, and the millionths kept for later. */
  function PerMillion(total: nat): (r: (nat, nat))
    ensures total == r.0 * 1000000 + r.1 && r.1 < 1000000
  {
    (total / 1000000, total % 1000000)
  }

  function MaybeStartGen(g: Gen, speed: nat, now: nat): Gen {
    var setting := if speed < MIN_GEN_SPS then MIN_GEN_SPS else speed;
    if g.running && setting == g.speed then g
    else g.(running := true, speed := setting, period := StepPeriod(setting), anchor := now)
  }

  predicate AnyMoving(slots: seq<Slot>) { exists k :: 0 <= k < |slots| && slots[k].moving }

  function MaybeStopGen(s: St): St {
    if AnyMoving(s.slots) then s else s.(gen := s.gen.(running := false))
  }

  /** The least distance left among the first k slots that move. */
  function MinRemaining(slots: seq<Slot>, k: nat): nat
    requires k <= |slots|
  {
    if k == 0 then 0xFFFF_FFFF
    else
      var least := MinRemaining(slots, k - 1);
      var left := Abs(slots[k - 1].target - slots[k - 1].pos);
      if slots[k - 1].moving && left < least then left else least
  }

  /** The ramp: speed and fraction after the elapsed time. */
  function RampSpeed(g: Gen, minRemaining: nat, elapsed: nat): (r: (nat, nat)) {
    var target := if g.vMax > 0 then g.vMax else MIN_GEN_SPS;
    var needDecel := g.decel > 0 && (minRemaining <= StopDistance(g.vCur, g.decel) || g.vCur > target);
    var needAccel := !needDecel && g.vCur < target;
    var effective := if needAccel then (if g.accel > 0 then g.accel else 1) else if needDecel then g.decel else 0;
    var (dv, fraction) := PerMillion(effective * elapsed + g.dvAcc);
    var speed :=
      if needAccel then (if g.vCur + dv > target then target else g.vCur + dv)
      else if needDecel then (if dv > g.vCur then 0 else g.vCur - dv)
      else g.vCur;
    (speed, fraction)
  }

  function Ramped(g: Gen, minRemaining: nat, now: nat): Gen {
    if now <= g.rampLast then g
    else
      var (speed, dvAcc) := RampSpeed(g, minRemaining, now - g.rampLast);
      var commanded := if 0 < speed < MIN_GEN_SPS then MIN_GEN_SPS else speed;
      var g1 := g.(rampLast := now, dvAcc := dvAcc);
      var g2 := if !g.running || commanded != g.speed then MaybeStartGen(g1, commanded, now) else g1;
      g2.(vCur := speed)
  }

  function UpdateRamp(s: St, now: nat): St {
    if AnyMoving(s.slots) then s.(gen := Ramped(s.gen, MinRemaining(s.slots, |s.slots|), now))
    else s.(gen := s.gen.(running := false, vCur := 0, speed := 0, period := 0, dvAcc := 0, rampLast := now))
  }

  function SetCurrentPosition(s: St, i: nat, pos: int): St {
    if i >= |s.slots| then s else s.(slots := s.slots[i := s.slots[i].(pos := pos)])
  }

  function SetDeceleration(s: St, decel: int): St { s.(gen := s.gen.(decel := if decel > 0 then decel else 0)) }

  // ---------------- starting a move ----------------

  function Sign(delta: int): int { if delta > 0 then 1 else -1 }

  function NeedFlip(s: St, i: nat, target: int): bool
    requires i < |s.slots|
  {
    (i in s.dir) != (target > s.slots[i].pos)
  }

  /** The guarded window for a flip while the generator runs. */
  function WindowFor(g: Gen, now: nat): FlipWindow {
    if g.running && g.period > 0
    then ComputeFlipWindow(if now >= g.anchor then now - g.anchor else 0, g.period, GUARD_PRE_US, GUARD_POST_US)
    else NoWindow
  }

  /** The flip booked for a new move, or only its direction. */
  function Booked(f: Flip, w: FlipWindow, anchor: nat, newDir: int): Flip {
    match w
    case FlipWindow(low, mid, high) => Flip(true, 0, low + anchor, mid + anchor, high + anchor, newDir)
    case NoWindow => f.(active := false, phase := 0, newDir := newDir)
  }

  /** The lines when a move starts: a flip is announced by SLEEP low; without a window to wait
      for, DIR flips at once and SLEEP goes high. */
  function StartLines(s: St, i: nat, dirSign: int, needFlip: bool, wait: bool): St {
    var s1 := if needFlip then LatchSleep(s, i, false) else s;
    if wait then s1 else LatchSleep(if needFlip then LatchDir(s1, i, dirSign) else s1, i, true)
  }

  function StartGen(g: Gen, now: nat): Gen {
    if g.running then g.(anchor := now)
    else MaybeStartGen(g.(vCur := MIN_GEN_SPS), MIN_GEN_SPS, now).(rampLast := now)
  }

  /** The bookkeeping of a move: slot, flip, ramp target and generator. */
  function Booking(s: St, i: nat, target: int, speed: int, accel: int, dirSign: int, w: FlipWindow, now: nat): St
    requires Valid(s) && i < |s.slots|
  {
    s.(slots := s.slots[i := s.slots[i].(target := target, dirSign := dirSign, moving := true,
                                         awake := w.NoWindow?, lastUs := now, accUs := 0)],
       flips := s.flips[i := Booked(s.flips[i], w, s.gen.anchor, dirSign)],
       gen := StartGen(s.gen.(vMax := if speed > 0 then speed else 1, accel := if accel > 0 then accel else 1), now))
  }

  function StartMoveAbs(s: St, i: nat, target: int, speed: int, accel: int, now: nat): St
    requires Valid(s)
  {
    if i >= |s.slots| then s
    else if target == s.slots[i].pos then s.(slots := s.slots[i := s.slots[i].(moving := false)])
    else
      var dirSign := Sign(target - s.slots[i].pos);
      var w := if NeedFlip(s, i, target) then WindowFor(s.gen, now) else NoWindow;
      Booking(StartLines(s, i, dirSign, NeedFlip(s, i, target), w.FlipWindow?), i, target, speed, accel, dirSign, w, now)
  }

  // ---------------- polling a motor ----------------

  function Wrapped(us: int): nat { us % 0x1_0000_0000 }

  /** SLEEP high ends a flip and wakes the slot. */
  function FinishFlip(s: St, i: nat): St
    requires Valid(s) && i < |s.slots|
  {
    var s1 := LatchSleep(s, i, true);
    s1.(slots := s.slots[i := s.slots[i].(awake := true)], flips := s.flips[i := s.flips[i].(active := false)])
  }

  function Phase(s: St, i: nat, phase: nat): St
    requires Valid(s) && i < |s.slots|
  {
    s.(flips := s.flips[i := s.flips[i].(phase := phase)])
  }

  /** The stages of a flip that are due, before SLEEP may go high. */
  function FlipStages(s: St, i: nat, now: nat): St
    requires Valid(s) && i < |s.slots|
  {
    var f := s.flips[i];
    var s1 := if f.phase == 0 && now >= f.sleepLow then Phase(LatchSleep(s, i, false), i, 1) else s;
    if s1.flips[i].phase == 1 && now >= f.dirFlip then Phase(LatchDir(s1, i, f.newDir), i, 2) else s1
  }

  function RunFlipScheduler(s: St, i: nat, now: nat): (r: St)
    requires Valid(s) && i < |s.slots|
  {
    var f := s.flips[i];
    if !f.active then s
    else if s.gen.period == 0 then s.(flips := s.flips[i := f.(active := false)])
    else if now >= f.sleepHigh then
      FinishFlip(s.(dir := With(s.dir, i, f.newDir > 0)), i)
    else FlipStages(s, i, now)
  }

  /** Position and fraction after dt at the generator's speed, stopping at the target. */
  function Integrate(slot: Slot, speed: nat, dt: nat): Slot {
    var (steps, fraction) := PerMillion(dt * speed + slot.accUs);
    var s1 := slot.(accUs := fraction);
    var pos := slot.pos + slot.dirSign * steps;
    if steps == 0 then s1
    else if (slot.dirSign > 0 && pos >= slot.target) || (slot.dirSign <= 0 && pos <= slot.target)
    then s1.(pos := slot.target, moving := false)
    else s1.(pos := pos)
  }

  function Advance(s: St, i: nat, dt: nat): St
    requires Valid(s) && i < |s.slots|
  {
    if s.slots[i].awake && s.gen.speed > 0
    then s.(slots := s.slots[i := Integrate(s.slots[i], s.gen.speed, dt)])
    else s
  }

  /** A motor that has arrived goes to sleep unless it was enabled explicitly. */
  function Arrived(s: St, i: nat): St
    requires Valid(s) && i < |s.slots|
  {
    MaybeStopGen(if s.slots[i].forced then s
                 else LatchSleep(s.(slots := s.slots[i := s.slots[i].(awake := false)]), i, false))
  }

  function UpdateProgress(s: St, i: nat, now: nat): St
    requires Valid(s)
  {
    if i >= |s.slots| || !s.slots[i].moving then s
    else
      var dt := Wrapped(now - s.slots[i].lastUs);
      var s1 := RunFlipScheduler(s.(slots := s.slots[i := s.slots[i].(lastUs := now)]), i, now);
      var s2 := UpdateRamp(Advance(s1, i, dt), now);
      if s2.slots[i].moving then s2 else Arrived(s2, i)
  }
}
