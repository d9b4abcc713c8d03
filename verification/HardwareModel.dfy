/** The hardware controller in its native build: DIR and SLEEP latches of two shift
    registers, a motion adapter, and HOME as three legs with group barriers.

    Models lib/MotorControl/src/HardwareMotorController.cpp. The latch bytes are sets of bit
    positions. The adapter is simulated: between controller calls a moving motor advances
    as it likes, but it only ever stops at its target. */
module HardwareModel {
  import opened IntegerMath
  import opened MotionKinematics
  import opened MotorTypes

  /** What the motion adapter holds for one motor. */
  datatype Slot = Slot(moving: bool, position: int, target: int)

  datatype HomingPlan = HomingPlan(active: bool, phase: nat, overshoot: int, backoff: int, fullRange: int,
                                   speed: int, accel: int)

  /** One motor: controller record, homing plan, adapter slot, and its three control bits. */
  datatype Cell = Cell(m: MotorState, plan: HomingPlan, slot: Slot, dir: bool, sleep: bool, forced: bool)

  /** What the controller sends to the hardware, in order. */
  datatype Act = Latch(dir: seq<bool>, sleep: seq<bool>) | Start(id: nat, from: int, target: int)

  datatype Hw = Hw(cells: seq<Cell>, limits: bool, trace: seq<Act>)

  // ---------------- outputs ----------------

  function Dirs(cells: seq<Cell>): seq<bool> {
    seq(|cells|, i requires 0 <= i < |cells| => cells[i].dir)
  }

  function Sleeps(cells: seq<Cell>): seq<bool> {
    seq(|cells|, i requires 0 <= i < |cells| => cells[i].sleep)
  }

  function Latched(h: Hw): Hw {
    h.(trace := h.trace + [Latch(Dirs(h.cells), Sleeps(h.cells))])
  }

  function StartSlot(s: Slot, target: int): Slot {
    Slot(target != s.position, s.position, target)
  }

  function Started(h: Hw, i: nat, target: int): Hw
    requires i < |h.cells|
  {
    h.(trace := h.trace + [Start(i, h.cells[i].slot.position, target)],
       cells := h.cells[i := h.cells[i].(slot := StartSlot(h.cells[i].slot, target))])
  }

  // ---------------- wake, sleep, move, home ----------------

  predicate AnyRunning(cells: seq<Cell>, mask: Mask) {
    exists i :: 0 <= i < |cells| && i in mask && cells[i].slot.moving
  }

  function WakeMask(h: Hw, mask: Mask): Hw {
    Latched(h.(cells := seq(|h.cells|, i requires 0 <= i < |h.cells| =>
      if i in mask then h.cells[i].(m := h.cells[i].m.(awake := true), forced := true, sleep := true)
      else h.cells[i])))
  }

  function SleepMask(h: Hw, mask: Mask): (Hw, bool) {
    if AnyRunning(h.cells, mask) then (h, false)
    else
      (Latched(h.(cells := seq(|h.cells|, i requires 0 <= i < |h.cells| =>
         if i in mask then h.cells[i].(m := h.cells[i].m.(awake := false), forced := false, sleep := false)
         else h.cells[i]))), true)
  }

  /** Records for an operation that is about to start, and the two latch bits it needs. */
  function Prepare(c: Cell, target: int, speed: int, accel: int, op: OpType, est: nat, now: nat): Cell {
    c.(m := c.m.(position := c.slot.position, speed := speed, accel := accel, moving := true,
                 lastOpType := op, lastOpStartedMs := now, lastOpEstMs := est, lastOpOngoing := true),
       dir := target >= c.slot.position,
       sleep := true)
  }

  function PrepareMove(c: Cell, target: int, speed: int, accel: int, now: nat): Cell {
    Prepare(c, target, speed, accel, MoveOp, Cut(MoveTime(Abs(target - c.slot.position), speed, accel)), now)
  }

  /** Starts motors i, i+1, ... of the mask towards their targets, in order. */
  function StartFrom(h: Hw, mask: Mask, targets: seq<int>, i: nat): (r: Hw)
    requires i <= |h.cells| == |targets|
    ensures |r.cells| == |h.cells|
    decreases |h.cells| - i
  {
    if i == |h.cells| then h
    else StartFrom(if i in mask then Started(h, i, targets[i]) else h, mask, targets, i + 1)
  }

  function PreparedMoves(cells: seq<Cell>, mask: Mask, target: int, speed: int, accel: int, now: nat): seq<Cell> {
    seq(|cells|, i requires 0 <= i < |cells| =>
      if i in mask then PrepareMove(cells[i], target, speed, accel, now) else cells[i])
  }

  function SameTarget(count: nat, target: int): seq<int> {
    seq(count, _ => target)
  }

  function MoveAbsMask(h: Hw, mask: Mask, target: int, speed: int, accel: int, now: nat): (Hw, bool) {
    if AnyRunning(h.cells, mask) then (h, false)
    else
      var prepared := PreparedMoves(h.cells, mask, target, speed, accel, now);
      (StartFrom(Latched(h.(cells := prepared)), mask, SameTarget(|h.cells|, target), 0), true)
  }

  /** The HOME parameters after their defaults: a positive range, lengths without sign. */
  function NewPlan(overshoot: int, backoff: int, fullRange: int, speed: int, accel: int): HomingPlan {
    HomingPlan(true, 0, Abs(overshoot), Abs(backoff), if fullRange <= 0 then 2400 else fullRange, speed, accel)
  }

  function HomeEstimate(overshoot: int, backoff: int, fullRange: int, speed: int, accel: int): nat {
    Cut(Cut(MoveTime(Abs(fullRange) + Abs(overshoot), speed, accel))
        + Cut(MoveTime(Abs(backoff), speed, accel))
        + Cut(MoveTime(Abs(fullRange) / 2, speed, accel)))
  }

  function FirstLegTarget(c: Cell, plan: HomingPlan): int {
    c.slot.position - (plan.fullRange + plan.overshoot)
  }

  function PrepareHome(c: Cell, plan: HomingPlan, est: nat, now: nat): Cell {
    Prepare(c, FirstLegTarget(c, plan), plan.speed, plan.accel, HomeOp, est, now).(plan := plan)
  }

  function PreparedHomes(cells: seq<Cell>, mask: Mask, plan: HomingPlan, est: nat, now: nat): seq<Cell> {
    seq(|cells|, i requires 0 <= i < |cells| =>
      if i in mask then PrepareHome(cells[i], plan, est, now) else cells[i])
  }

  function FirstLegTargets(cells: seq<Cell>, plan: HomingPlan): seq<int> {
    seq(|cells|, i requires 0 <= i < |cells| => FirstLegTarget(cells[i], plan))
  }

  function HomeMask(h: Hw, mask: Mask, overshoot: int, backoff: int, fullRange: int,
                    speed: int, accel: int, now: nat): (Hw, bool) {
    if AnyRunning(h.cells, mask) then (h, false)
    else
      var plan := NewPlan(overshoot, backoff, fullRange, speed, accel);
      var est := HomeEstimate(overshoot, backoff, plan.fullRange, speed, accel);
      var prepared := PreparedHomes(h.cells, mask, plan, est, now);
      (StartFrom(Latched(h.(cells := prepared)), mask, FirstLegTargets(h.cells, plan), 0), true)
  }

  // ---------------- tick ----------------

  function FinishOp(m: MotorState, now: nat): MotorState {
    if !m.lastOpOngoing then m
    else m.(lastOpOngoing := false,
            lastOpLastMs := if m.lastOpStartedMs != 0 && now >= m.lastOpStartedMs
                            then now - m.lastOpStartedMs else m.lastOpLastMs)
  }

  /** Budget, then what the adapter reports, then sleep at idle. */
  function Observe(c: Cell, now: nat): Cell {
    var m := Charge(c.m, now);
    var counted := if m.homed then m.(stepsSinceHome := m.stepsSinceHome + Abs(c.slot.position - m.position)) else m;
    var idle := !c.slot.moving && !c.forced;
    c.(m := counted.(moving := c.slot.moving, position := c.slot.position, awake := !idle),
       sleep := c.sleep && !idle)
  }

  predicate Overrun(m: MotorState, limits: bool) {
    limits && m.budgetTenths < OVERRUN_TENTHS
  }

  function EnforceLimit(c: Cell, limits: bool, now: nat): Cell {
    if !Overrun(c.m, limits) then c
    else
      var off := c.(forced := false, sleep := false, m := c.m.(awake := false));
      if !(c.plan.active || c.m.moving) then off
      else off.(plan := c.plan.(active := false), m := FinishOp(off.m.(moving := false), now))
  }

  function PassCell(c: Cell, limits: bool, now: nat): Cell {
    var e := EnforceLimit(Observe(c, now), limits, now);
    if !e.m.moving && !e.plan.active then e.(m := FinishOp(e.m, now)) else e
  }

  /** One motor of the first loop; a SLEEP bit that drops is latched at once. */
  function PassMotor(h: Hw, i: nat, now: nat): Hw
    requires i < |h.cells|
  {
    var c := PassCell(h.cells[i], h.limits, now);
    var r := h.(cells := h.cells[i := c]);
    if h.cells[i].sleep && !c.sleep then Latched(r) else r
  }

  function PassFrom(h: Hw, i: nat, now: nat): (r: Hw)
    requires i <= |h.cells|
    ensures |r.cells| == |h.cells| && r.limits == h.limits
    decreases |h.cells| - i
  {
    if i == |h.cells| then h else PassFrom(PassMotor(h, i, now), i + 1, now)
  }

  predicate Waiting(c: Cell, phase: nat) {
    c.plan.active && c.plan.phase == phase
  }

  /** Some motor waits in this phase and none of those still moves. */
  predicate Ready(cells: seq<Cell>, phase: nat) {
    && (exists i :: 0 <= i < |cells| && Waiting(cells[i], phase))
    && (forall i :: 0 <= i < |cells| && Waiting(cells[i], phase) ==> !cells[i].m.moving)
  }

  function LegTarget(c: Cell, phase: nat): int {
    c.slot.position + (if phase == 0 then c.plan.backoff
                       else if c.plan.fullRange > 0 then c.plan.fullRange / 2 else 1200)
  }

  /** startMoveSingle_ towards the next leg, latching before the start. */
  function LaunchMotor(h: Hw, i: nat, phase: nat): Hw
    requires i < |h.cells|
  {
    var c, target := h.cells[i], LegTarget(h.cells[i], phase);
    var ready := c.(m := c.m.(position := c.slot.position, speed := c.plan.speed, accel := c.plan.accel, moving := true),
                    dir := target >= c.slot.position,
                    sleep := true);
    var started := Started(Latched(h.(cells := h.cells[i := ready])), i, target);
    started.(cells := started.cells[i := started.cells[i].(plan := c.plan.(phase := phase + 1))])
  }

  function LaunchFrom(h: Hw, phase: nat, i: nat): (r: Hw)
    requires i <= |h.cells|
    ensures |r.cells| == |h.cells| && r.limits == h.limits
    decreases |h.cells| - i
  {
    if i == |h.cells| then h
    else LaunchFrom(if Waiting(h.cells[i], phase) then LaunchMotor(h, i, phase) else h, phase, i + 1)
  }

  function Barrier(h: Hw, phase: nat): (r: Hw)
    ensures |r.cells| == |h.cells| && r.limits == h.limits
  {
    if Ready(h.cells, phase) then LaunchFrom(h, phase, 0) else h
  }

  predicate HomeDone(c: Cell) {
    Waiting(c, 2) && !c.m.moving
  }

  function Finalize(c: Cell, now: nat): Cell {
    if !HomeDone(c) then c
    else
      c.(slot := Slot(false, 0, 0),
         m := FinishOp(c.m.(position := 0, moving := false, homed := true, stepsSinceHome := 0), now),
         plan := c.plan.(active := false))
  }

  function Barriers(h: Hw, now: nat): Hw {
    Barrier(Barrier(PassFrom(h, 0, now), 0), 1)
  }

  function TickHw(h: Hw, now: nat): (r: Hw)
    ensures |r.cells| == |h.cells| && r.limits == h.limits
  {
    var b := Barriers(h, now);
    b.(cells := seq(|b.cells|, i requires 0 <= i < |b.cells| => Finalize(b.cells[i], now)))
  }
}
