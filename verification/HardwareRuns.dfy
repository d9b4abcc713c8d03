/** Whole runs of the hardware controller: latches before starts, and HOME in lockstep. */
module HardwareRuns {
  import opened MotorTypes
  import opened HardwareModel

  datatype Event =
    | Advance(slots: seq<Slot>)                    // time passes in the motion adapter
    | TickAt(now: nat)
    | MoveTo(mask: Mask, target: int, speed: int, accel: int, now: nat)
    | HomeAll(mask: Mask, overshoot: int, backoff: int, fullRange: int, speed: int, accel: int, now: nat)
    | WakeAll(mask: Mask)
    | SleepAll(mask: Mask)
    | SetLimits(on: bool)

  /** The adapter's contract: a motor only moves when started, and stops at its target. */
  predicate SlotAdvances(s: Slot, r: Slot) {
    if !s.moving then r == s else r.target == s.target && (!r.moving ==> r.position == r.target)
  }

  ghost predicate Possible(h: Hw, e: Event) {
    e.Advance? ==> |e.slots| == |h.cells| && forall i :: 0 <= i < |h.cells| ==> SlotAdvances(h.cells[i].slot, e.slots[i])
  }

  function Step(h: Hw, e: Event): Hw {
    match e
    case Advance(slots) =>
      if |slots| != |h.cells| then h
      else h.(cells := seq(|h.cells|, i requires 0 <= i < |h.cells| => h.cells[i].(slot := slots[i])))
    case TickAt(now) => TickHw(h, now)
    case MoveTo(mask, target, speed, accel, now) => MoveAbsMask(h, mask, target, speed, accel, now).0
    case HomeAll(mask, overshoot, backoff, fullRange, speed, accel, now) =>
      HomeMask(h, mask, overshoot, backoff, fullRange, speed, accel, now).0
    case WakeAll(mask) => WakeMask(h, mask)
    case SleepAll(mask) => SleepMask(h, mask).0
    case SetLimits(on) => h.(limits := on)
  }

  // ---------------- the trace ----------------

  function Drop(trace: seq<Act>): seq<Act>
    requires trace != []
  {
    trace[..|trace| - 1]
  }

  /** The registers' contents after the trace. */
  function LastLatch(trace: seq<Act>): Act {
    if trace == [] then Latch([], [])
    else if trace[|trace| - 1].Latch? then trace[|trace| - 1] else LastLatch(Drop(trace))
  }

  /** At every start, what the registers hold has that motor awake and pointing the way it
      is about to go. */
  predicate SafeStarts(trace: seq<Act>) {
    trace != [] ==>
      && SafeStarts(Drop(trace))
      && (trace[|trace| - 1].Start? ==>
            var a, l := trace[|trace| - 1], LastLatch(Drop(trace));
            && l.Latch? && a.id < |l.sleep| == |l.dir|
            && l.sleep[a.id] && (l.dir[a.id] <==> a.target >= a.from))
  }

  function StartsOf(trace: seq<Act>, id: nat): seq<Act> {
    if trace == [] then []
    else StartsOf(Drop(trace), id)
         + (var a := trace[|trace| - 1]; if a.Start? && a.id == id then [a] else [])
  }

  lemma DropAppend(trace: seq<Act>, a: Act)
    ensures Drop(trace + [a]) == trace && (trace + [a])[|trace|] == a
  {
  }

  predicate InSync(h: Hw) {
    LastLatch(h.trace) == Latch(Dirs(h.cells), Sleeps(h.cells))
  }

  predicate CellOk(c: Cell) {
    && (c.forced ==> c.sleep)
    && (!c.slot.moving ==> c.slot.position == c.slot.target)
    && (c.plan.active ==> c.plan.phase <= 2 && c.plan.fullRange > 0 && c.plan.overshoot >= 0 && c.plan.backoff >= 0)
  }

  /** What every public call keeps. */
  ghost predicate Inv(h: Hw) {
    && InSync(h)
    && SafeStarts(h.trace)
    && forall i :: 0 <= i < |h.cells| ==> CellOk(h.cells[i])
  }

  /** What one call appends to the trace, as seen by one motor. */
  predicate Extends(h: Hw, r: Hw) {
    |r.cells| == |h.cells| && h.trace <= r.trace
  }

  lemma {:induction false} LatchedKeeps(h: Hw)
    requires SafeStarts(h.trace)
    ensures var r := Latched(h);
      InSync(r) && SafeStarts(r.trace) && Extends(h, r) && r.cells == h.cells && r.limits == h.limits
    ensures forall id :: StartsOf(Latched(h).trace, id) == StartsOf(h.trace, id)
  {
    DropAppend(h.trace, Latch(Dirs(h.cells), Sleeps(h.cells)));
  }

  lemma {:induction false} StartedKeeps(h: Hw, i: nat, target: int)
    requires i < |h.cells| && InSync(h) && SafeStarts(h.trace)
    requires h.cells[i].sleep && (h.cells[i].dir <==> target >= h.cells[i].slot.position)
    ensures var r := Started(h, i, target);
      InSync(r) && SafeStarts(r.trace) && Extends(h, r) && r.limits == h.limits
    ensures var a := Start(i, h.cells[i].slot.position, target);
      forall id :: StartsOf(Started(h, i, target).trace, id) == StartsOf(h.trace, id) + (if id == i then [a] else [])
  {
    var r, a := Started(h, i, target), Start(i, h.cells[i].slot.position, target);
    DropAppend(h.trace, a);
    assert Dirs(r.cells) == Dirs(h.cells) && Sleeps(r.cells) == Sleeps(h.cells);
  }

  // ---------------- the loops, one motor at a time ----------------

  /** Sound output: registers in step, safe starts, nothing erased from the trace. */
  predicate Sound(h: Hw, r: Hw) {
    InSync(r) && SafeStarts(r.trace) && Extends(h, r) && r.limits == h.limits
  }

  predicate ReadyFor(c: Cell, target: int) {
    c.sleep && (c.dir <==> target >= c.slot.position)
  }

  /** Starting the prepared motors of a mask from motor i on, as seen by motor k. */
  lemma {:induction false} StartFromIs(h: Hw, mask: Mask, targets: seq<int>, i: nat, k: nat)
    requires i <= |h.cells| == |targets| && InSync(h) && SafeStarts(h.trace)
    requires forall j :: i <= j < |h.cells| && j in mask ==> ReadyFor(h.cells[j], targets[j])
    ensures Sound(h, StartFrom(h, mask, targets, i))
    ensures k < |h.cells| ==>
              (StartFrom(h, mask, targets, i).cells[k]
               == if k in mask && k >= i then h.cells[k].(slot := StartSlot(h.cells[k].slot, targets[k])) else h.cells[k])
    ensures StartsOf(StartFrom(h, mask, targets, i).trace, k) == StartsOf(h.trace, k)
              + (if i <= k < |h.cells| && k in mask then [Start(k, h.cells[k].slot.position, targets[k])] else [])
    decreases |h.cells| - i
  {
    hide StartSlot;
    hide SafeStarts;
    hide StartsOf;
    hide InSync;
    if i < |h.cells| {
      if i in mask {
        StartedKeeps(h, i, targets[i]);
        StartFromIs(Started(h, i, targets[i]), mask, targets, i + 1, k);
      } else {
        StartFromIs(h, mask, targets, i + 1, k);
      }
    }
  }

  lemma {:induction false} PassCellOk(c: Cell, limits: bool, now: nat)
    requires CellOk(c)
    ensures CellOk(PassCell(c, limits, now))
    ensures PassCell(c, limits, now).dir == c.dir && (PassCell(c, limits, now).sleep ==> c.sleep)
    ensures PassCell(c, limits, now).slot == c.slot && PassCell(c, limits, now).m.homed == c.m.homed
  {
    hide Charge;
    ChargeKeepsHomed(c.m, now);
  }

  lemma ChargeKeepsHomed(m: MotorState, now: nat)
    ensures Charge(m, now).homed == m.homed
  {
  }

  lemma {:induction false} PassMotorIs(h: Hw, i: nat, now: nat)
    requires i < |h.cells| && InSync(h) && SafeStarts(h.trace) && CellOk(h.cells[i])
    ensures Sound(h, PassMotor(h, i, now))
    ensures forall k: nat :: StartsOf(PassMotor(h, i, now).trace, k) == StartsOf(h.trace, k)
    ensures PassMotor(h, i, now).cells == h.cells[i := PassCell(h.cells[i], h.limits, now)]
  {
    hide PassCell;
    hide SafeStarts;
    hide StartsOf;
    var c := PassCell(h.cells[i], h.limits, now);
    PassCellOk(h.cells[i], h.limits, now);
    var r := h.(cells := h.cells[i := c]);
    if h.cells[i].sleep && !c.sleep {
      LatchedKeeps(r);
    } else {
      assert Dirs(r.cells) == Dirs(h.cells) && Sleeps(r.cells) == Sleeps(h.cells);
    }
  }

  lemma {:induction false} PassFromIs(h: Hw, i: nat, now: nat, k: nat)
    requires i <= |h.cells| && InSync(h) && SafeStarts(h.trace)
    requires forall j :: i <= j < |h.cells| ==> CellOk(h.cells[j])
    ensures Sound(h, PassFrom(h, i, now))
    ensures k < |h.cells| ==>
              PassFrom(h, i, now).cells[k] == if k >= i then PassCell(h.cells[k], h.limits, now) else h.cells[k]
    ensures StartsOf(PassFrom(h, i, now).trace, k) == StartsOf(h.trace, k)
    decreases |h.cells| - i
  {
    hide PassCell;
    hide SafeStarts;
    hide StartsOf;
    hide InSync;
    hide PassMotor;
    hide CellOk;
    if i < |h.cells| {
      PassMotorIs(h, i, now);
      PassFromIs(PassMotor(h, i, now), i + 1, now, k);
    }
  }

  /** A motor launched on the leg after the given phase. */
  function LaunchedCell(c: Cell, phase: nat): Cell {
    var target := LegTarget(c, phase);
    c.(m := c.m.(position := c.slot.position, speed := c.plan.speed, accel := c.plan.accel, moving := true),
       dir := target >= c.slot.position,
       sleep := true,
       slot := StartSlot(c.slot, target),
       plan := c.plan.(phase := phase + 1))
  }

  function LegStart(c: Cell, id: nat, phase: nat): Act {
    Start(id, c.slot.position, LegTarget(c, phase))
  }

  lemma {:induction false} LaunchMotorIs(h: Hw, i: nat, phase: nat)
    requires i < |h.cells| && SafeStarts(h.trace)
    ensures Sound(h, LaunchMotor(h, i, phase))
    ensures LaunchMotor(h, i, phase).cells == h.cells[i := LaunchedCell(h.cells[i], phase)]
    ensures forall k: nat :: StartsOf(LaunchMotor(h, i, phase).trace, k) == StartsOf(h.trace, k)
              + (if k == i then [LegStart(h.cells[i], i, phase)] else [])
  {
    hide LegTarget;
    hide StartsOf;
    hide SafeStarts;
    var c, target := h.cells[i], LegTarget(h.cells[i], phase);
    var ready := c.(m := c.m.(position := c.slot.position, speed := c.plan.speed, accel := c.plan.accel, moving := true),
                    dir := target >= c.slot.position,
                    sleep := true);
    var prepared := h.(cells := h.cells[i := ready]);
    LatchedKeeps(prepared);
    StartedKeeps(Latched(prepared), i, target);
    var s, r := Started(Latched(prepared), i, target), LaunchMotor(h, i, phase);
    assert r.cells == h.cells[i := LaunchedCell(c, phase)];
    assert Dirs(r.cells) == Dirs(s.cells) && Sleeps(r.cells) == Sleeps(s.cells);
  }

  lemma {:induction false} LaunchFromIs(h: Hw, phase: nat, i: nat, k: nat)
    requires i <= |h.cells| && InSync(h) && SafeStarts(h.trace)
    ensures Sound(h, LaunchFrom(h, phase, i))
    ensures k < |h.cells| ==>
              (LaunchFrom(h, phase, i).cells[k]
               == if k >= i && Waiting(h.cells[k], phase) then LaunchedCell(h.cells[k], phase) else h.cells[k])
    ensures StartsOf(LaunchFrom(h, phase, i).trace, k) == StartsOf(h.trace, k)
              + (if i <= k < |h.cells| && Waiting(h.cells[k], phase) then [LegStart(h.cells[k], k, phase)] else [])
    decreases |h.cells| - i
  {
    hide LaunchMotor;
    hide LaunchedCell;
    hide LegStart;
    hide SafeStarts;
    hide StartsOf;
    hide InSync;
    if i < |h.cells| {
      if Waiting(h.cells[i], phase) {
        LaunchMotorIs(h, i, phase);
        LaunchFromIs(LaunchMotor(h, i, phase), phase, i + 1, k);
      } else {
        LaunchFromIs(h, phase, i + 1, k);
      }
    }
  }

  // ---------------- one tick ----------------

  function Passed(h: Hw, now: nat): (cells: seq<Cell>)
    ensures |cells| == |h.cells|
    ensures forall k :: 0 <= k < |cells| ==> cells[k] == PassCell(h.cells[k], h.limits, now)
  {
    seq(|h.cells|, i requires 0 <= i < |h.cells| => PassCell(h.cells[i], h.limits, now))
  }

  /** The phase whose barrier opens in this tick, or 2 for none. */
  function OpenPhase(cells: seq<Cell>): (phase: nat)
    ensures phase <= 2 && (phase < 2 ==> Ready(cells, phase))
  {
    if Ready(cells, 0) then 0 else if Ready(cells, 1) then 1 else 2
  }

  function AfterBarriers(c: Cell, open: nat): Cell {
    if open < 2 && Waiting(c, open) then LaunchedCell(c, open) else c
  }

  /** Both barrier loops together: at most one of them launches, because the motors it
      launches keep the other one closed. */
  lemma {:induction false} BarriersIs(h: Hw, k: nat)
    requires InSync(h) && SafeStarts(h.trace)
    ensures Sound(h, Barrier(Barrier(h, 0), 1))
    ensures k < |h.cells| ==>
              Barrier(Barrier(h, 0), 1).cells[k] == AfterBarriers(h.cells[k], OpenPhase(h.cells))
    ensures StartsOf(Barrier(Barrier(h, 0), 1).trace, k)
         == StartsOf(h.trace, k) + LegStarts(h.cells, k)
  {
    hide LegTarget;
    hide SafeStarts;
    hide StartsOf;
    hide InSync;
    var b := Barrier(h, 0);
    if Ready(h.cells, 0) {
      LaunchFromIs(h, 0, 0, k);
      var w :| 0 <= w < |h.cells| && Waiting(h.cells[w], 0);
      LaunchFromIs(h, 0, 0, w);
      assert Waiting(b.cells[w], 1) && b.cells[w].m.moving;
    } else if Ready(h.cells, 1) {
      LaunchFromIs(h, 1, 0, k);
    }
  }

  /** The start that motor k gets when the barriers of this tick have been passed. */
  function LegStarts(cells: seq<Cell>, k: nat): seq<Act> {
    var open := OpenPhase(cells);
    if k < |cells| && open < 2 && Waiting(cells[k], open) then [LegStart(cells[k], k, open)] else []
  }

  /** One tick, seen from motor k, and what it appended to the trace. */
  lemma {:induction false} TickIs(h: Hw, now: nat, k: nat)
    requires Inv(h)
    ensures Sound(h, TickHw(h, now))
    ensures k < |h.cells| ==>
              TickHw(h, now).cells[k] == Finalize(AfterBarriers(Passed(h, now)[k], OpenPhase(Passed(h, now))), now)
    ensures StartsOf(TickHw(h, now).trace, k) == StartsOf(h.trace, k) + LegStarts(Passed(h, now), k)
  {
    hide PassCell;
    hide AfterBarriers;
    hide LegStarts;
    hide OpenPhase;
    hide SafeStarts;
    hide StartsOf;
    hide Barrier;
    PassFromIs(h, 0, now, k);
    var p := PassFrom(h, 0, now);
    PassedIs(h, now);
    BarriersIs(p, k);
    var b, r := Barriers(h, now), TickHw(h, now);
    FinalizeKeepsPins(b.cells, now);
    assert Dirs(r.cells) == Dirs(b.cells) && Sleeps(r.cells) == Sleeps(b.cells);
  }

  lemma FinalizeKeepsPins(cells: seq<Cell>, now: nat)
    ensures forall k :: 0 <= k < |cells| ==>
              Finalize(cells[k], now).dir == cells[k].dir && Finalize(cells[k], now).sleep == cells[k].sleep
  {
  }

  lemma {:induction false} PassedIs(h: Hw, now: nat)
    requires Inv(h)
    ensures PassFrom(h, 0, now).cells == Passed(h, now)
  {
    hide PassCell;
    hide InSync;
    hide SafeStarts;
    forall k | 0 <= k < |h.cells|
      ensures PassFrom(h, 0, now).cells[k] == Passed(h, now)[k]
    {
      PassFromIs(h, 0, now, k);
    }
  }

  lemma {:induction false} TickCellOk(c: Cell, open: nat, now: nat)
    requires CellOk(c)
    ensures CellOk(Finalize(AfterBarriers(c, open), now))
  {
  }

  lemma {:induction false} TickKeepsInv(h: Hw, now: nat)
    requires Inv(h)
    ensures Inv(TickHw(h, now)) && Extends(h, TickHw(h, now))
  {
    hide AfterBarriers;
    hide Finalize;
    hide TickHw;
    hide PassCell;
    TickIs(h, now, 0);
    var passed := Passed(h, now);
    forall k | 0 <= k < |h.cells|
      ensures CellOk(TickHw(h, now).cells[k])
    {
      TickIs(h, now, k);
      PassCellOk(h.cells[k], h.limits, now);
      TickCellOk(passed[k], OpenPhase(passed), now);
    }
  }

  // ---------------- every call ----------------

  /** A mask-driven call that starts motors: prepared cells, one latch, then the starts. */
  lemma {:induction false} PrepareThenStart(h: Hw, cells: seq<Cell>, mask: Mask, targets: seq<int>, k: nat)
    requires Inv(h) && |cells| == |targets| == |h.cells|
    requires forall j :: 0 <= j < |cells| ==> cells[j].slot == h.cells[j].slot && CellOk(cells[j])
    requires forall j :: 0 <= j < |cells| && j in mask ==> ReadyFor(cells[j], targets[j])
    ensures var r := StartFrom(Latched(h.(cells := cells)), mask, targets, 0);
      && Inv(r) && Extends(h, r)
      && (k < |cells| ==>
            r.cells[k] == if k in mask then cells[k].(slot := StartSlot(cells[k].slot, targets[k])) else cells[k])
      && StartsOf(r.trace, k) == StartsOf(h.trace, k)
            + (if k < |cells| && k in mask then [Start(k, cells[k].slot.position, targets[k])] else [])
  {
    var l := Latched(h.(cells := cells));
    LatchedKeeps(h.(cells := cells));
    StartFromIs(l, mask, targets, 0, k);
    forall j | 0 <= j < |cells|
      ensures CellOk(StartFrom(l, mask, targets, 0).cells[j])
    {
      StartFromIs(l, mask, targets, 0, j);
    }
  }

  /** A successful MOVE or HOME, seen from motor k. */
  lemma {:induction false} MoveIs(h: Hw, mask: Mask, target: int, speed: int, accel: int, now: nat, k: nat)
    requires Inv(h)
    ensures var (r, ok) := MoveAbsMask(h, mask, target, speed, accel, now);
      && Inv(r) && Extends(h, r)
      && (!ok ==> r == h)
      && (ok && k < |h.cells| ==>
            r.cells[k] == if k in mask
              then PrepareMove(h.cells[k], target, speed, accel, now).(slot := StartSlot(h.cells[k].slot, target))
              else h.cells[k])
      && StartsOf(r.trace, k) == StartsOf(h.trace, k)
           + (if ok && k < |h.cells| && k in mask then [Start(k, h.cells[k].slot.position, target)] else [])
  {
    if !AnyRunning(h.cells, mask) {
      PrepareThenStart(h, PreparedMoves(h.cells, mask, target, speed, accel, now), mask, SameTarget(|h.cells|, target), k);
    }
  }

  lemma {:induction false} HomeIs(h: Hw, mask: Mask, overshoot: int, backoff: int, fullRange: int,
                                  speed: int, accel: int, now: nat, k: nat)
    requires Inv(h)
    ensures var (r, ok) := HomeMask(h, mask, overshoot, backoff, fullRange, speed, accel, now);
      var plan := NewPlan(overshoot, backoff, fullRange, speed, accel);
      var est := HomeEstimate(overshoot, backoff, plan.fullRange, speed, accel);
      && Inv(r) && Extends(h, r)
      && (!ok ==> r == h)
      && (ok && k < |h.cells| ==>
            r.cells[k] == if k in mask
              then PrepareHome(h.cells[k], plan, est, now).(slot := StartSlot(h.cells[k].slot, FirstLegTarget(h.cells[k], plan)))
              else h.cells[k])
      && StartsOf(r.trace, k) == StartsOf(h.trace, k)
           + (if ok && k < |h.cells| && k in mask
              then [Start(k, h.cells[k].slot.position, FirstLegTarget(h.cells[k], plan))] else [])
  {
    hide HomeEstimate;
    if !AnyRunning(h.cells, mask) {
      var plan := NewPlan(overshoot, backoff, fullRange, speed, accel);
      var est := HomeEstimate(overshoot, backoff, plan.fullRange, speed, accel);
      PrepareThenStart(h, PreparedHomes(h.cells, mask, plan, est, now), mask, FirstLegTargets(h.cells, plan), k);
    }
  }

  lemma {:induction false} WakeSleepIs(h: Hw, mask: Mask)
    requires Inv(h)
    ensures Inv(WakeMask(h, mask)) && Extends(h, WakeMask(h, mask))
    ensures Inv(SleepMask(h, mask).0) && Extends(h, SleepMask(h, mask).0)
    ensures forall k: nat :: StartsOf(WakeMask(h, mask).trace, k) == StartsOf(h.trace, k)
    ensures forall k: nat :: StartsOf(SleepMask(h, mask).0.trace, k) == StartsOf(h.trace, k)
  {
    var w := h.(cells := WakeMask(h, mask).cells);
    LatchedKeeps(w);
    var s := h.(cells := SleepMask(h, mask).0.cells);
    LatchedKeeps(s);
  }

  /** After every call the registers hold the controller's bits; every start found its motor
      awake and pointing its way; a motor kept awake by WAKE has its SLEEP bit high; and idle
      motors are at their targets. */
  lemma {:induction false} StepKeepsInv(h: Hw, e: Event)
    requires Inv(h) && Possible(h, e)
    ensures Inv(Step(h, e)) && Extends(h, Step(h, e))
  {
    hide MoveAbsMask;
    hide HomeMask;
    hide WakeMask;
    hide SleepMask;
    hide TickHw;
    match e
    case Advance(slots) =>
      var r := Step(h, e);
      assert Dirs(r.cells) == Dirs(h.cells) && Sleeps(r.cells) == Sleeps(h.cells);
    case TickAt(now) => TickKeepsInv(h, now);
    case MoveTo(mask, target, speed, accel, now) => MoveIs(h, mask, target, speed, accel, now, 0);
    case HomeAll(mask, overshoot, backoff, fullRange, speed, accel, now) =>
      HomeIs(h, mask, overshoot, backoff, fullRange, speed, accel, now, 0);
    case WakeAll(mask) => WakeSleepIs(h, mask);
    case SleepAll(mask) => WakeSleepIs(h, mask);
    case SetLimits(_) =>
  }
}
