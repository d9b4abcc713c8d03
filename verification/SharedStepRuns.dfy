/** What every run of the shared-STEP adapter keeps: the interlock between DIR and SLEEP, the
    bounds on the generator, and the exact integration of every move. */
module SharedStepRuns {
  import opened SharedStepTiming
  import opened SharedStepModel

  /** Calls on the adapter; a poll is isMoving or currentPosition, an edge the pulse hook. */
  datatype Act =
    | Start(i: nat, target: int, speed: int, accel: int, now: nat)
    | Poll(i: nat, now: nat)
    | Enable(i: nat)
    | Disable(i: nat)
    | SetPosition(i: nat, pos: int)
    | SetDecel(decel: int)
    | Edge(now: nat)

  function Step(s: St, a: Act): (r: St)
    requires Valid(s)
  {
    match a
    case Start(i, target, speed, accel, now) => StartMoveAbs(s, i, target, speed, accel, now)
    case Poll(i, now) => UpdateProgress(s, i, now)
    case Enable(i) => EnableOutputs(s, i)
    case Disable(i) => DisableOutputs(s, i)
    case SetPosition(i, pos) => SetCurrentPosition(s, i, pos)
    case SetDecel(d) => SetDeceleration(s, d)
    case Edge(now) => s.(gen := s.gen.(anchor := now))
  }

  lemma StepValid(s: St, a: Act)
    requires Valid(s)
    ensures Valid(Step(s, a)) && |Step(s, a).slots| == |s.slots|
  {
    hide StartGen, WindowFor, Booked, UpdateProgress;
    if a.Poll? { PollValid(s, a.i, a.now); }
  }

  lemma PollValid(s: St, i: nat, now: nat)
    requires Valid(s)
    ensures Valid(UpdateProgress(s, i, now)) && |UpdateProgress(s, i, now).slots| == |s.slots|
  {
    if i < |s.slots| && s.slots[i].moving {
      var dt, s0 := Wrapped(now - s.slots[i].lastUs), s.(slots := s.slots[i := s.slots[i].(lastUs := now)]);
      SchedulerFrame(s0, i, now);
      var s1 := RunFlipScheduler(s0, i, now);
      AdvanceFrame(s1, i, dt);
      RampFrame(Advance(s1, i, dt), now);
      hide RunFlipScheduler, Advance, UpdateRamp;
    }
  }

  function Run(s: St, acts: seq<Act>): St
    requires Valid(s)
    decreases |acts|
  {
    if acts == [] then s else
      StepValid(s, acts[0]);
      Run(Step(s, acts[0]), acts[1..])
  }

  // ---------------- one motor seen from outside ----------------

  datatype Motor = Motor(slot: Slot, flip: Flip, dirHigh: bool, sleepHigh: bool)

  function View(s: St, j: nat): Motor
    requires Valid(s) && j < |s.slots|
  {
    Motor(s.slots[j], s.flips[j], j in s.dir, j in s.sleep)
  }

  predicate Pending(m: Motor) { m.slot.moving && m.flip.active }

  /** A slot is awake exactly while its SLEEP line is high; a flip is pending only while it is
      low; and without a pending flip the DIR line of a moving motor is right. */
  predicate MotorOk(m: Motor) {
    && (m.slot.dirSign == 1 || m.slot.dirSign == -1)
    && m.slot.accUs < 1000000
    && m.slot.awake == m.sleepHigh
    && (m.flip.active ==> !m.sleepHigh)
    && (m.slot.moving && m.flip.active ==> m.flip.newDir == m.slot.dirSign)
    && (m.slot.moving && !m.flip.active ==> m.dirHigh == (m.slot.dirSign > 0))
  }

  /** enableOutputs is not called while a flip is pending. */
  predicate Careful(s: St, a: Act)
    requires Valid(s)
  {
    a.Enable? && a.i < |s.slots| ==> !s.flips[a.i].active
  }

  predicate MovesOther(a: Act, j: nat) { a.SetDecel? || a.Edge? || a.i != j }

  // ---------------- the log ----------------

  predicate SafeAt(log: seq<Latch>, k: nat, j: nat)
    requires 0 < k < |log|
  {
    (j in log[k].dir) != (j in log[k - 1].dir) ==> j !in log[k - 1].sleep
  }

  /** Motor j's DIR line changes only from a latch that holds its SLEEP line low. */
  predicate Interlocked(log: seq<Latch>, j: nat) {
    forall k :: 0 < k < |log| ==> SafeAt(log, k, j)
  }

  /** The register holds what the adapter believes. */
  predicate Latched(s: St) { s.log != [] && s.log[|s.log| - 1] == Latch(s.dir, s.sleep) }

  /** One more latch is safe for j exactly when DIR keeps its value or SLEEP was low. */
  lemma {:induction false} FlushSafeIff(s: St, t: St, j: nat)
    requires Latched(s) && Interlocked(s.log, j) && t.log == s.log
    ensures Latched(Flush(t))
    ensures Interlocked(Flush(t).log, j) <==> ((j in t.dir) == (j in s.dir) || j !in s.sleep)
  {
    var log := Flush(t).log;
    assert forall k :: 0 < k < |s.log| ==> (SafeAt(log, k, j) <==> SafeAt(s.log, k, j));
    assert SafeAt(log, |s.log|, j) <==> ((j in t.dir) == (j in s.dir) || j !in s.sleep);
  }

  predicate LogOk(s: St, j: nat) { Latched(s) && Interlocked(s.log, j) }

  /** States that agree on lines and log. */
  predicate SameLines(s: St, t: St) { t.dir == s.dir && t.sleep == s.sleep && t.log == s.log }

  lemma LatchSleepSafe(s: St, i: nat, high: bool, j: nat)
    requires LogOk(s, j)
    ensures LogOk(LatchSleep(s, i, high), j)
  {
    FlushSafeIff(s, s.(sleep := With(s.sleep, i, high)), j);
  }

  lemma LatchDirSafe(s: St, i: nat, dirSign: int, j: nat)
    requires LogOk(s, j) && i !in s.sleep
    ensures LogOk(LatchDir(s, i, dirSign), j)
  {
    FlushSafeIff(s, s.(dir := With(s.dir, i, dirSign > 0)), j);
  }

  lemma StartLinesSafe(s: St, i: nat, dirSign: int, needFlip: bool, wait: bool, j: nat)
    requires LogOk(s, j)
    ensures LogOk(StartLines(s, i, dirSign, needFlip, wait), j)
  {
    hide LogOk;
    var s1 := if needFlip then LatchSleep(s, i, false) else s;
    if needFlip { LatchSleepSafe(s, i, false, j); }
    if !wait {
      if needFlip { LatchDirSafe(s1, i, dirSign, j); }
      LatchSleepSafe(if needFlip then LatchDir(s1, i, dirSign) else s1, i, true, j);
    }
  }

  lemma FlipStagesSafe(s: St, i: nat, now: nat, j: nat)
    requires Valid(s) && i < |s.slots| && LogOk(s, j) && (s.flips[i].phase != 0 ==> i !in s.sleep)
    ensures LogOk(FlipStages(s, i, now), j)
  {
    var f := s.flips[i];
    var low := LatchSleep(s, i, false);
    LatchSleepSafe(s, i, false, j);
    var s1 := if f.phase == 0 && now >= f.sleepLow then Phase(low, i, 1) else s;
    if s1.flips[i].phase == 1 && now >= f.dirFlip { LatchDirSafe(s1, i, f.newDir, j); }
  }

  lemma FinishFlipSafe(s: St, i: nat, newDir: int, j: nat)
    requires Valid(s) && i < |s.slots| && LogOk(s, j) && i !in s.sleep
    ensures LogOk(FinishFlip(s.(dir := With(s.dir, i, newDir > 0)), i), j)
  {
    var t := s.(dir := With(s.dir, i, newDir > 0));
    FlushSafeIff(s, t.(sleep := With(s.sleep, i, true)), j);
  }

  lemma SchedulerSafe(s: St, i: nat, now: nat, j: nat)
    requires Valid(s) && i < |s.slots| && LogOk(s, j) && (s.flips[i].active ==> i !in s.sleep)
    ensures LogOk(RunFlipScheduler(s, i, now), j)
  {
    hide LogOk, FlipStages, FinishFlip;
    SameLinesSafe(s, s.(flips := s.flips[i := s.flips[i].(active := false)]), j);
    if s.flips[i].active && s.gen.period != 0 {
      if now >= s.flips[i].sleepHigh {
        FinishFlipSafe(s, i, s.flips[i].newDir, j);
      } else {
        FlipStagesSafe(s, i, now, j);
      }
    }
  }

  lemma SameLinesSafe(s: St, t: St, j: nat)
    requires LogOk(s, j) && SameLines(s, t)
    ensures LogOk(t, j)
  {
  }

  lemma {:induction false} PollSafe(s: St, i: nat, now: nat, j: nat)
    requires Valid(s) && LogOk(s, j) && (i < |s.slots| && s.flips[i].active ==> i !in s.sleep)
    ensures LogOk(UpdateProgress(s, i, now), j)
  {
    hide LogOk, RunFlipScheduler, Advance, UpdateRamp, Arrived;
    if i < |s.slots| && s.slots[i].moving {
      var dt := Wrapped(now - s.slots[i].lastUs);
      var s0 := s.(slots := s.slots[i := s.slots[i].(lastUs := now)]);
      SameLinesSafe(s, s0, j);
      SchedulerSafe(s0, i, now, j);
      SchedulerFrame(s0, i, now);
      var s1 := RunFlipScheduler(s0, i, now);
      AdvanceFrame(s1, i, dt);
      RampFrame(Advance(s1, i, dt), now);
      SameLinesSafe(s1, UpdateRamp(Advance(s1, i, dt), now), j);
      ArrivedSafe(UpdateRamp(Advance(s1, i, dt), now), i, j);
    }
  }

  lemma ArrivedSafe(s: St, i: nat, j: nat)
    requires Valid(s) && i < |s.slots| && LogOk(s, j)
    ensures LogOk(Arrived(s, i), j)
  {
    hide LogOk, Interlocked;
    var asleep := s.(slots := s.slots[i := s.slots[i].(awake := false)]);
    SameLinesSafe(s, asleep, j);
    LatchSleepSafe(asleep, i, false, j);
    var t := if s.slots[i].forced then s else LatchSleep(asleep, i, false);
    SameLinesSafe(t, MaybeStopGen(t), j);
  }

  // ---------------- frames of the stages of a poll ----------------

  lemma SchedulerFrame(s: St, i: nat, now: nat)
    requires Valid(s) && i < |s.slots|
    ensures var r := RunFlipScheduler(s, i, now);
      && Valid(r) && |r.slots| == |s.slots| && r.gen == s.gen
      && r.slots[i].moving == s.slots[i].moving
  {
  }

  lemma SchedulerOther(s: St, i: nat, now: nat, j: nat)
    requires Valid(s) && i < |s.slots| && j < |s.slots| && j != i
    ensures var r := RunFlipScheduler(s, i, now); Valid(r) && |r.slots| == |s.slots| && View(r, j) == View(s, j)
  {
  }

  lemma AdvanceFrame(s: St, i: nat, dt: nat)
    requires Valid(s) && i < |s.slots|
    ensures var r := Advance(s, i, dt);
      && Valid(r) && |r.slots| == |s.slots| && r.gen == s.gen && SameLines(s, r) && r.flips == s.flips
      && (forall j :: 0 <= j < |s.slots| && j != i ==> r.slots[j] == s.slots[j])
  {
    hide Integrate;
  }

  lemma RampFrame(s: St, now: nat)
    ensures var r := UpdateRamp(s, now); SameLines(s, r) && r.slots == s.slots && r.flips == s.flips
  {
    hide Ramped, MinRemaining;
  }

  lemma ArrivedOther(s: St, i: nat, j: nat)
    requires Valid(s) && i < |s.slots| && j < |s.slots| && j != i
    ensures Valid(Arrived(s, i)) && View(Arrived(s, i), j) == View(s, j)
  {
  }

  /** A call names one motor and leaves every other motor's slot, flip and lines alone. */
  lemma {:induction false} OtherMotorsUntouched(s: St, a: Act, j: nat)
    requires Valid(s) && j < |s.slots| && MovesOther(a, j)
    ensures Valid(Step(s, a)) && |Step(s, a).slots| == |s.slots| && View(Step(s, a), j) == View(s, j)
  {
    StepValid(s, a);
    match a
    case Poll(i, now) =>
      if i < |s.slots| && s.slots[i].moving { PollOther(s, i, now, j); }
    case Start(i, target, speed, accel, now) =>
      hide StartGen, WindowFor, Booked;
    case _ =>
  }

  lemma {:induction false} PollOther(s: St, i: nat, now: nat, j: nat)
    requires Valid(s) && i < |s.slots| && s.slots[i].moving && j < |s.slots| && j != i
    ensures Valid(UpdateProgress(s, i, now)) && j < |UpdateProgress(s, i, now).slots|
    ensures View(UpdateProgress(s, i, now), j) == View(s, j)
  {
    hide RunFlipScheduler, Advance, UpdateRamp, Arrived;
    var dt := Wrapped(now - s.slots[i].lastUs);
    var s0 := s.(slots := s.slots[i := s.slots[i].(lastUs := now)]);
    SchedulerOther(s0, i, now, j);
    var s1 := RunFlipScheduler(s0, i, now);
    AdvanceFrame(s1, i, dt);
    RampFrame(Advance(s1, i, dt), now);
    var s2 := UpdateRamp(Advance(s1, i, dt), now);
    if !s2.slots[i].moving { ArrivedOther(s2, i, j); StepValid(s, Poll(i, now)); }
  }

  // ---------------- the motor that is called ----------------

  /** Ready to poll: the motor is in order, and pulses run while it moves. */
  predicate Ready(s: St, i: nat)
    requires Valid(s) && i < |s.slots|
  {
    MotorOk(View(s, i)) && (s.slots[i].moving ==> s.gen.running && s.gen.period > 0)
  }

  lemma {:induction false} SchedulerOk(s: St, i: nat, now: nat)
    requires Valid(s) && i < |s.slots| && Ready(s, i)
    ensures var r := RunFlipScheduler(s, i, now);
      && Valid(r) && |r.slots| == |s.slots| && Ready(r, i)
      && (s.slots[i].moving && now >= s.flips[i].sleepHigh ==> !r.flips[i].active)
      && r.slots[i] == s.slots[i].(awake := r.slots[i].awake)
  {
  }

  lemma {:induction false} IntegrateOk(slot: Slot, speed: nat, dt: nat)
    ensures var r := Integrate(slot, speed, dt);
      && r == slot.(pos := r.pos, accUs := r.accUs, moving := r.moving) && r.accUs < 1000000
      && (r.moving ==> slot.moving)
  {
  }

  lemma {:induction false} AdvanceOk(s: St, i: nat, dt: nat)
    requires Valid(s) && i < |s.slots| && MotorOk(View(s, i))
    ensures Valid(Advance(s, i, dt)) && i < |Advance(s, i, dt).slots| && MotorOk(View(Advance(s, i, dt), i))
  {
    hide Integrate;
    IntegrateOk(s.slots[i], s.gen.speed, dt);
  }

  lemma ArrivedOk(s: St, i: nat)
    requires Valid(s) && i < |s.slots| && MotorOk(View(s, i)) && !s.slots[i].moving
    ensures Valid(Arrived(s, i)) && |Arrived(s, i).slots| == |s.slots| && MotorOk(View(Arrived(s, i), i))
  {
  }

  lemma {:induction false} PollOk(s: St, i: nat, now: nat)
    requires Valid(s) && i < |s.slots| && Ready(s, i)
    ensures var r := UpdateProgress(s, i, now);
      && Valid(r) && |r.slots| == |s.slots| && MotorOk(View(r, i))
      && (s.slots[i].moving && now >= s.flips[i].sleepHigh ==> !Pending(View(r, i)))
  {
    hide RunFlipScheduler, Advance, UpdateRamp, Arrived, MotorOk;
    if s.slots[i].moving {
      var dt := Wrapped(now - s.slots[i].lastUs);
      var s0 := s.(slots := s.slots[i := s.slots[i].(lastUs := now)]);
      assert MotorOk(View(s0, i)) by { LastPollIrrelevant(View(s, i), now); }
      SchedulerOk(s0, i, now);
      var s1 := RunFlipScheduler(s0, i, now);
      AdvanceOk(s1, i, dt);
      AdvanceFrame(s1, i, dt);
      RampFrame(Advance(s1, i, dt), now);
      var s2 := UpdateRamp(Advance(s1, i, dt), now);
      assert View(s2, i) == View(Advance(s1, i, dt), i);
      if !s2.slots[i].moving { ArrivedOk(s2, i); ArrivedStays(s2, i); }
    }
  }

  lemma LastPollIrrelevant(m: Motor, now: nat)
    requires MotorOk(m)
    ensures MotorOk(m.(slot := m.slot.(lastUs := now)))
  {
  }

  lemma ArrivedStays(s: St, i: nat)
    requires Valid(s) && i < |s.slots| && !s.slots[i].moving
    ensures Valid(Arrived(s, i)) && i < |Arrived(s, i).slots| && !Arrived(s, i).slots[i].moving
  {
  }

  lemma {:induction false} StartOk(s: St, i: nat, target: int, speed: int, accel: int, now: nat)
    requires Valid(s) && i < |s.slots| && MotorOk(View(s, i))
    ensures var r := StartMoveAbs(s, i, target, speed, accel, now);
      Valid(r) && |r.slots| == |s.slots| && MotorOk(View(r, i))
  {
    hide StartGen, WindowFor;
  }

  lemma {:induction false} StepMotorOk(s: St, a: Act, j: nat)
    requires Valid(s) && j < |s.slots| && Ready(s, j) && Careful(s, a)
    ensures Valid(Step(s, a)) && |Step(s, a).slots| == |s.slots| && MotorOk(View(Step(s, a), j))
  {
    if MovesOther(a, j) {
      OtherMotorsUntouched(s, a, j);
    } else {
      StepValid(s, a);
      match a
      case Start(i, target, speed, accel, now) => StartOk(s, i, target, speed, accel, now);
      case Poll(i, now) => PollOk(s, i, now);
      case _ =>
    }
  }

  lemma {:induction false} StepLogOk(s: St, a: Act, j: nat)
    requires Valid(s) && LogOk(s, j) && (forall i :: 0 <= i < |s.slots| && s.flips[i].active ==> i !in s.sleep)
    ensures LogOk(Step(s, a), j)
  {
    hide LogOk, UpdateProgress, StartLines;
    match a
    case Start(i, target, speed, accel, now) =>
      if i < |s.slots| && target != s.slots[i].pos {
        var dirSign := Sign(target - s.slots[i].pos);
        var w := if NeedFlip(s, i, target) then WindowFor(s.gen, now) else NoWindow;
        StartLinesSafe(s, i, dirSign, NeedFlip(s, i, target), w.FlipWindow?, j);
        SameLinesSafe(StartLines(s, i, dirSign, NeedFlip(s, i, target), w.FlipWindow?), Step(s, a), j);
      } else {
        SameLinesSafe(s, Step(s, a), j);
      }
    case Poll(i, now) => PollSafe(s, i, now, j);
    case Enable(i) =>
      if i < |s.slots| {
        var t := s.(slots := s.slots[i := s.slots[i].(awake := true, forced := true)]);
        SameLinesSafe(s, t, j);
        LatchSleepSafe(t, i, true, j);
      }
    case Disable(i) =>
      if i < |s.slots| {
        var t := s.(slots := s.slots[i := s.slots[i].(awake := false, forced := false)]);
        SameLinesSafe(s, t, j);
        LatchSleepSafe(t, i, false, j);
      }
    case _ => SameLinesSafe(s, Step(s, a), j);
  }

  // ---------------- the generator ----------------

  /** While it runs, the generator keeps between 20 steps a second and the fastest cruise speed
      asked for. */
  predicate GenOk(g: Gen, cap: nat) {
    && (g.running ==> MIN_GEN_SPS <= g.speed <= cap && g.period > 0)
    && g.vCur <= cap && g.vMax <= cap
  }

  predicate PulsesWhileMoving(s: St) { AnyMoving(s.slots) ==> s.gen.running }

  lemma {:induction false} RampedOk(g: Gen, minRemaining: nat, now: nat, cap: nat)
    requires GenOk(g, cap) && cap >= MIN_GEN_SPS
    ensures GenOk(Ramped(g, minRemaining, now), cap)
    ensures g.running ==> Ramped(g, minRemaining, now).running
  {
    hide PerMillion, StopDistance;
  }

  lemma {:induction false} StepGenOk(s: St, a: Act, cap: nat)
    requires Valid(s) && GenOk(s.gen, cap) && PulsesWhileMoving(s) && cap >= MIN_GEN_SPS && Capped(a, cap)
    ensures GenOk(Step(s, a).gen, cap) && PulsesWhileMoving(Step(s, a))
  {
    match a
    case Poll(i, now) => PollGenOk(s, i, now, cap);
    case Start(i, target, speed, accel, now) =>
      hide WindowFor, Booked, Flush;
      if i < |s.slots| { StopMovingSubset(s.slots, i, s.slots[i].(moving := false)); }
    case SetPosition(i, pos) =>
      if i < |s.slots| { StopMovingSubset(s.slots, i, s.slots[i].(pos := pos)); }
    case Enable(i) =>
      if i < |s.slots| { StopMovingSubset(s.slots, i, s.slots[i].(awake := true, forced := true)); }
    case Disable(i) =>
      if i < |s.slots| { StopMovingSubset(s.slots, i, s.slots[i].(awake := false, forced := false)); }
    case _ =>
  }

  predicate Capped(a: Act, cap: nat) { a.Start? ==> a.speed <= cap }

  /** Changing one slot without setting it moving starts no motion. */
  lemma StopMovingSubset(slots: seq<Slot>, i: nat, slot: Slot)
    requires i < |slots| && (slot.moving ==> slots[i].moving)
    ensures AnyMoving(slots[i := slot]) ==> AnyMoving(slots)
  {
    if AnyMoving(slots[i := slot]) {
      var k :| 0 <= k < |slots| && slots[i := slot][k].moving;
      assert slots[k].moving;
    }
  }

  lemma {:induction false} UpdateRampOk(s: St, now: nat, cap: nat)
    requires GenOk(s.gen, cap) && PulsesWhileMoving(s) && cap >= MIN_GEN_SPS
    ensures GenOk(UpdateRamp(s, now).gen, cap) && PulsesWhileMoving(UpdateRamp(s, now))
  {
    hide Ramped, AnyMoving, MinRemaining;
    RampedOk(s.gen, MinRemaining(s.slots, |s.slots|), now, cap);
  }

  /** Up to its integration a poll starts no motion and leaves the generator alone. */
  lemma {:induction false} AdvanceStartsNothing(s: St, i: nat, now: nat)
    requires Valid(s) && i < |s.slots|
    ensures Valid(Advanced(s, i, now)) && |Advanced(s, i, now).slots| == |s.slots|
    ensures Advanced(s, i, now).gen == s.gen && (AnyMoving(Advanced(s, i, now).slots) ==> AnyMoving(s.slots))
  {
    var dt := Wrapped(now - s.slots[i].lastUs);
    var s0 := s.(slots := s.slots[i := s.slots[i].(lastUs := now)]);
    SchedulerFrame(s0, i, now);
    SchedulerSlots(s0, i, now);
    var s1 := RunFlipScheduler(s0, i, now);
    hide RunFlipScheduler, AnyMoving;
    IntegrateOk(s1.slots[i], s1.gen.speed, dt);
    hide Integrate;
    var slots := Advance(s1, i, dt).slots;
    assert slots == s.slots[i := slots[i]];
    StopMovingSubset(s.slots, i, slots[i]);
  }

  /** A poll of a moving motor as far as its position. */
  function Advanced(s: St, i: nat, now: nat): St
    requires Valid(s) && i < |s.slots|
  {
    Advance(RunFlipScheduler(s.(slots := s.slots[i := s.slots[i].(lastUs := now)]), i, now), i,
            Wrapped(now - s.slots[i].lastUs))
  }

  lemma {:induction false} PollGenOk(s: St, i: nat, now: nat, cap: nat)
    requires Valid(s) && GenOk(s.gen, cap) && PulsesWhileMoving(s) && cap >= MIN_GEN_SPS
    ensures var r := UpdateProgress(s, i, now); GenOk(r.gen, cap) && PulsesWhileMoving(r)
  {
    if i < |s.slots| && s.slots[i].moving {
      hide RunFlipScheduler, Advance, AnyMoving, UpdateRamp, Arrived;
      AdvanceStartsNothing(s, i, now);
      var a := Advanced(s, i, now);
      UpdateRampOk(a, now, cap);
      RampFrame(a, now);
      if !a.slots[i].moving { ArrivedGenOk(UpdateRamp(a, now), i, cap); }
    }
  }

  lemma SchedulerSlots(s: St, i: nat, now: nat)
    requires Valid(s) && i < |s.slots|
    ensures var r := RunFlipScheduler(s, i, now); i < |r.slots| && r.slots == s.slots[i := r.slots[i]]
  {
  }

  lemma ArrivedGenOk(s: St, i: nat, cap: nat)
    requires Valid(s) && i < |s.slots| && GenOk(s.gen, cap) && PulsesWhileMoving(s)
    ensures GenOk(Arrived(s, i).gen, cap) && PulsesWhileMoving(Arrived(s, i))
  {
    hide LatchSleep;
    StopMovingSubset(s.slots, i, s.slots[i].(awake := false));
    LatchSleepKeeps(s.(slots := s.slots[i := s.slots[i].(awake := false)]), i);
    hide AnyMoving;
  }

  lemma LatchSleepKeeps(s: St, i: nat)
    ensures var r := LatchSleep(s, i, false); r.slots == s.slots && r.gen == s.gen
  {
  }

  // ---------------- whole runs ----------------

  predicate Inv(s: St, cap: nat) {
    && Valid(s)
    && GenOk(s.gen, cap) && PulsesWhileMoving(s)
    && (forall j :: 0 <= j < |s.slots| ==> MotorOk(View(s, j)) && LogOk(s, j))
  }

  lemma BeginInv(count: nat, cap: nat)
    requires cap >= MIN_GEN_SPS
    ensures Inv(Begin(count), cap)
  {
    hide Interlocked;
    forall j | 0 <= j < count ensures LogOk(Begin(count), j) { OneLatch(j); }
  }

  lemma OneLatch(j: nat)
    ensures Interlocked([Latch({}, {})], j)
  {
  }

  lemma PulsesForOne(s: St, j: nat, cap: nat)
    requires Inv(s, cap) && j < |s.slots|
    ensures Ready(s, j)
  {
    assert MotorOk(View(s, j));
  }

  lemma {:induction false} StepKeepsInv(s: St, a: Act, cap: nat)
    requires Inv(s, cap) && cap >= MIN_GEN_SPS && Capped(a, cap) && Careful(s, a)
    ensures Inv(Step(s, a), cap) && |Step(s, a).slots| == |s.slots|
  {
    StepValid(s, a);
    StepGenOk(s, a, cap);
    assert forall i :: 0 <= i < |s.slots| && s.flips[i].active ==> MotorOk(View(s, i)) && i !in s.sleep;
    hide Step, LogOk, Careful, Capped, MotorOk;
    forall j | 0 <= j < |s.slots| ensures MotorOk(View(Step(s, a), j)) && LogOk(Step(s, a), j) {
      PulsesForOne(s, j, cap);
      StepMotorOk(s, a, j);
      StepLogOk(s, a, j);
    }
  }

  predicate CarefulRun(s: St, acts: seq<Act>, cap: nat)
    requires Valid(s)
    decreases |acts|
  {
    acts == [] ||
      (Careful(s, acts[0]) && Capped(acts[0], cap) &&
       (StepValid(s, acts[0]);
        CarefulRun(Step(s, acts[0]), acts[1..], cap)))
  }

  lemma CarefulHead(s: St, acts: seq<Act>, cap: nat)
    requires Valid(s) && acts != [] && CarefulRun(s, acts, cap)
    ensures Careful(s, acts[0]) && Capped(acts[0], cap)
    ensures Valid(Step(s, acts[0])) && CarefulRun(Step(s, acts[0]), acts[1..], cap)
  {
    StepValid(s, acts[0]);
    hide Step, Careful, Capped;
  }

  /** Over every run that enables no motor while its flip is pending: no DIR line ever changes
      under a high SLEEP line, a moving motor that is awake has its DIR line right, a motor is
      awake exactly while its SLEEP line is high, and while any motor moves the generator runs
      between 20 steps a second and the fastest cruise speed asked for. */
  lemma {:induction false} RunKeepsInv(s: St, acts: seq<Act>, cap: nat)
    requires Inv(s, cap) && cap >= MIN_GEN_SPS && CarefulRun(s, acts, cap)
    ensures Inv(Run(s, acts), cap)
    decreases |acts|
  {
    if acts != [] {
      StepKeepsInv(s, acts[0], cap);
      hide Inv, Step, Careful;
      RunKeepsInv(Step(s, acts[0]), acts[1..], cap);
    }
  }

  /** From begin on. */
  lemma {:induction false} BeginRunsKeepInv(count: nat, acts: seq<Act>, cap: nat)
    requires cap >= MIN_GEN_SPS && CarefulRun(Begin(count), acts, cap)
    ensures Inv(Run(Begin(count), acts), cap)
  {
    BeginInv(count, cap);
    RunKeepsInv(Begin(count), acts, cap);
  }

  // ---------------- integration ----------------

  /** What one call adds to motor i: generator speed times the time since its last poll, when
      the call polls it while it moves and its SLEEP line is (by then) high. */
  function WorkOf(s: St, a: Act, i: nat): nat
    requires Valid(s)
  {
    AwakeOf(s, a, i) * s.gen.speed
  }

  function AwakeOf(s: St, a: Act, i: nat): nat
    requires Valid(s)
  {
    if a.Poll? && a.i == i && i < |s.slots| && s.slots[i].moving && AwakeAt(s, i, a.now)
    then Wrapped(a.now - s.slots[i].lastUs) else 0
  }

  predicate AwakeAt(s: St, i: nat, now: nat)
    requires Valid(s) && i < |s.slots|
  {
    s.slots[i].awake || (s.flips[i].active && s.gen.period > 0 && now >= s.flips[i].sleepHigh)
  }

  /** Speed times time, and time alone, over the awake polls of a run. */
  function Work(s: St, acts: seq<Act>, i: nat): nat
    requires Valid(s)
    decreases |acts|
  {
    if acts == [] then 0 else
      StepValid(s, acts[0]);
      WorkOf(s, acts[0], i) + Work(Step(s, acts[0]), acts[1..], i)
  }

  function AwakeTime(s: St, acts: seq<Act>, i: nat): nat
    requires Valid(s)
    decreases |acts|
  {
    if acts == [] then 0 else
      StepValid(s, acts[0]);
      AwakeOf(s, acts[0], i) + AwakeTime(Step(s, acts[0]), acts[1..], i)
  }

  /** A slot on its way from a start, with the work done so far. */
  predicate Flying(slot: Slot, start: int, target: int, work: int) {
    && slot.moving && slot.target == target && (slot.dirSign == 1 || slot.dirSign == -1)
    && (if slot.dirSign > 0 then slot.pos < target else slot.pos > target)
    && 1000000 * (if slot.dirSign > 0 then slot.pos - start else start - slot.pos) + slot.accUs == work
    && slot.accUs < 1000000
  }

  predicate Landed(slot: Slot, target: int) { !slot.moving && slot.pos == target }

  /** In flight while the work is short of a million per step, at the target from then on. */
  predicate Exact(slot: Slot, start: int, target: int, work: int) {
    if work < 1000000 * Distance(start, target) then Flying(slot, start, target, work) else Landed(slot, target)
  }

  function Distance(start: int, target: int): nat { if target >= start then target - start else start - target }

  /** One integration: in flight while the work is short of a million per step, at the target
      from then on, and never past it. */
  lemma {:induction false} IntegrateExact(slot: Slot, speed: nat, dt: nat, start: int, target: int, work: nat)
    requires Flying(slot, start, target, work)
    ensures var r, w := Integrate(slot, speed, dt), work + dt * speed;
      Exact(r, start, target, w)
  {
    var (steps, fraction) := PerMillion(dt * speed + slot.accUs);
    hide PerMillion;
    if slot.dirSign == 1 {
      assert slot.pos + slot.dirSign * steps == slot.pos + steps;
    } else {
      assert slot.pos + slot.dirSign * steps == slot.pos - steps;
    }
  }

  lemma {:induction false} SchedulerWakes(s: St, i: nat, now: nat)
    requires Valid(s) && i < |s.slots|
    ensures var r := RunFlipScheduler(s, i, now);
      && i < |r.slots| && r.gen == s.gen && r.slots[i] == s.slots[i].(awake := AwakeAt(s, i, now))
  {
  }

  lemma {:induction false} PollSlot(s: St, i: nat, now: nat)
    requires Valid(s) && i < |s.slots| && s.slots[i].moving
    ensures var dt, slot := Wrapped(now - s.slots[i].lastUs), s.slots[i].(lastUs := now, awake := AwakeAt(s, i, now));
      var moved := if AwakeAt(s, i, now) && s.gen.speed > 0 then Integrate(slot, s.gen.speed, dt) else slot;
      && Valid(UpdateProgress(s, i, now)) && i < |UpdateProgress(s, i, now).slots|
      && UpdateProgress(s, i, now).slots[i] == moved.(awake := UpdateProgress(s, i, now).slots[i].awake)
  {
    StepValid(s, Poll(i, now));
    var s0 := s.(slots := s.slots[i := s.slots[i].(lastUs := now)]);
    SchedulerWakes(s0, i, now);
    SchedulerFrame(s0, i, now);
    hide RunFlipScheduler, Integrate, Ramped, MinRemaining, AnyMoving, UpdateRamp;
    RampFrame(Advanced(s, i, now), now);
    AdvanceFrame(RunFlipScheduler(s0, i, now), i, Wrapped(now - s.slots[i].lastUs));
  }

  /** A call that neither restarts motor i nor rewrites its position. */
  predicate LeavesMove(a: Act, i: nat) { !(a.Start? && a.i == i) && !(a.SetPosition? && a.i == i) }

  predicate LeaveMove(acts: seq<Act>, i: nat) { forall k :: 0 <= k < |acts| ==> LeavesMove(acts[k], i) }

  lemma {:induction false} StepExact(s: St, a: Act, i: nat, start: int, target: int, work: nat)
    requires Valid(s) && i < |s.slots| && LeavesMove(a, i) && Flying(s.slots[i], start, target, work)
    ensures Valid(Step(s, a)) && |Step(s, a).slots| == |s.slots|
    ensures var r, w := Step(s, a).slots[i], work + WorkOf(s, a, i);
      Exact(r, start, target, w)
  {
    StepValid(s, a);
    FlyingShort(s.slots[i], start, target, work);
    hide UpdateProgress, StartMoveAbs, Wrapped, AwakeAt, Distance;
    if MovesOther(a, i) {
      OtherMotorsUntouched(s, a, i);
    } else if a.Poll? {
      PollExact(s, i, a.now, start, target, work);
    }
  }

  lemma {:induction false} PollExact(s: St, i: nat, now: nat, start: int, target: int, work: nat)
    requires Valid(s) && i < |s.slots| && Flying(s.slots[i], start, target, work)
    ensures var r, w := UpdateProgress(s, i, now), work + WorkOf(s, Poll(i, now), i);
      i < |r.slots| && Exact(r.slots[i], start, target, w)
  {
    assert s.slots[i].moving;
    hide Flying, Landed;
    PollSlot(s, i, now);
    PollWork(s, i, now);
    var dt, slot := Wrapped(now - s.slots[i].lastUs), s.slots[i].(lastUs := now, awake := AwakeAt(s, i, now));
    FlyingExact(s.slots[i], slot, start, target, work);
    hide UpdateProgress, WorkOf, AwakeAt, Integrate, Wrapped, Exact, Valid;
    var r, w := UpdateProgress(s, i, now).slots[i], WorkOf(s, Poll(i, now), i);
    if AwakeAt(s, i, now) && s.gen.speed > 0 {
      IntegrateExact(slot, s.gen.speed, dt, start, target, work);
      ExactAwake(Integrate(slot, s.gen.speed, dt), r, start, target, work + w);
    } else {
      ExactAwake(slot, r, start, target, work + w);
    }
  }

  lemma PollWork(s: St, i: nat, now: nat)
    requires Valid(s) && i < |s.slots| && s.slots[i].moving
    ensures WorkOf(s, Poll(i, now), i) ==
      if AwakeAt(s, i, now) && s.gen.speed > 0 then Wrapped(now - s.slots[i].lastUs) * s.gen.speed else 0
  {
    hide Wrapped, AwakeAt;
  }

  /** Polling times and wakefulness do not enter the bookkeeping of a move. */
  lemma FlyingExact(slot: Slot, r: Slot, start: int, target: int, work: nat)
    requires Flying(slot, start, target, work) && r == slot.(lastUs := r.lastUs, awake := r.awake)
    ensures Flying(r, start, target, work) && Exact(r, start, target, work)
  {
    FlyingShort(slot, start, target, work);
  }

  lemma ExactAwake(slot: Slot, r: Slot, start: int, target: int, work: int)
    requires Exact(slot, start, target, work) && r == slot.(awake := r.awake)
    ensures Exact(r, start, target, work)
  {
  }

  lemma FlyingShort(slot: Slot, start: int, target: int, work: int)
    requires Flying(slot, start, target, work)
    ensures work < 1000000 * Distance(start, target)
  {
  }

  lemma {:induction false} StepKeepsExact(s: St, a: Act, i: nat, start: int, target: int, work: nat)
    requires Valid(s) && i < |s.slots| && LeavesMove(a, i) && Exact(s.slots[i], start, target, work)
    ensures Valid(Step(s, a)) && |Step(s, a).slots| == |s.slots|
    ensures Exact(Step(s, a).slots[i], start, target, work + WorkOf(s, a, i))
  {
    StepValid(s, a);
    if work < 1000000 * Distance(start, target) {
      StepExact(s, a, i, start, target, work);
    } else {
      if MovesOther(a, i) { OtherMotorsUntouched(s, a, i); }
      hide StartMoveAbs, WorkOf;
    }
  }

  /** Every move is integrated exactly, whatever the polling of this and the other motors: it
      is over if and only if the work reaches a million per step, until then position and
      fraction together equal the work done, the target is never passed, and once over the
      motor stands at its target. */
  lemma {:induction false} MoveIntegratedExactly(s: St, acts: seq<Act>, i: nat, start: int, target: int, work: nat)
    requires Valid(s) && i < |s.slots| && LeaveMove(acts, i) && Flying(s.slots[i], start, target, work)
    ensures Valid(Run(s, acts)) && |Run(s, acts).slots| == |s.slots|
    ensures var r, w := Run(s, acts).slots[i], work + Work(s, acts, i);
      Exact(r, start, target, w)
  {
    FlyingShort(s.slots[i], start, target, work);
    RunExact(s, acts, i, start, target, work);
  }

  lemma {:induction false} RunExact(s: St, acts: seq<Act>, i: nat, start: int, target: int, work: nat)
    requires Valid(s) && i < |s.slots| && LeaveMove(acts, i) && Exact(s.slots[i], start, target, work)
    ensures Valid(Run(s, acts)) && |Run(s, acts).slots| == |s.slots|
    ensures Exact(Run(s, acts).slots[i], start, target, work + Work(s, acts, i))
    decreases |acts|
  {
    hide Step, Exact, WorkOf;
    if acts == [] {
    } else {
      var w := WorkOf(s, acts[0], i);
      assert LeavesMove(acts[0], i);
      hide LeavesMove;
      StepKeepsExact(s, acts[0], i, start, target, work);
      RunExact(Step(s, acts[0]), acts[1..], i, start, target, work + w);
    }
  }

  /** A move as startMoveAbs leaves it. */
  lemma StartFlies(s: St, i: nat, target: int, speed: int, accel: int, now: nat)
    requires Valid(s) && i < |s.slots| && target != s.slots[i].pos
    ensures var r := StartMoveAbs(s, i, target, speed, accel, now);
      Valid(r) && |r.slots| == |s.slots| && Flying(r.slots[i], s.slots[i].pos, target, 0)
  {
    hide StartGen, WindowFor, Booked;
  }

  /** Work done at no less than 20 and no more than cap steps a second. */
  predicate Between(work: nat, time: nat, cap: nat) { 20 * time <= work <= cap * time }

  lemma {:induction false} WorkBounds(s: St, acts: seq<Act>, i: nat, cap: nat)
    requires Inv(s, cap) && cap >= MIN_GEN_SPS && CarefulRun(s, acts, cap)
    ensures Between(Work(s, acts, i), AwakeTime(s, acts, i), cap)
    decreases |acts|
  {
    hide Step;
    if acts == [] {
    } else {
      hide Step, WorkOf, AwakeOf, Careful, Capped, Between;
      CarefulHead(s, acts, cap);
      StepKeepsInv(s, acts[0], cap);
      hide CarefulRun, Inv;
      WorkOfBounds(s, acts[0], i, cap);
      WorkBounds(Step(s, acts[0]), acts[1..], i, cap);
      var next, rest := Step(s, acts[0]), acts[1..];
      AddBounds(AwakeOf(s, acts[0], i), AwakeTime(next, rest, i), WorkOf(s, acts[0], i), Work(next, rest, i), cap);
    }
  }

  lemma AddBounds(dt: nat, time: nat, w: nat, work: nat, cap: nat)
    requires Between(w, dt, cap) && Between(work, time, cap)
    ensures Between(w + work, dt + time, cap)
  {
  }

  lemma WorkOfBounds(s: St, a: Act, i: nat, cap: nat)
    requires Inv(s, cap) && cap >= MIN_GEN_SPS
    ensures Between(WorkOf(s, a, i), AwakeOf(s, a, i), cap)
  {
    var dt := AwakeOf(s, a, i);
    if dt > 0 {
      assert s.slots[i].moving;
      hide AwakeOf;
      TimesSpeed(dt, s.gen.speed, cap);
    }
  }

  lemma TimesSpeed(dt: nat, speed: nat, cap: nat)
    requires 20 <= speed <= cap
    ensures Between(dt * speed, dt, cap)
  {
  }

  /** Over after 50000 microseconds a step, still moving before a step's time at speed cap. */
  predicate InTime(slot: Slot, start: int, target: int, time: nat, cap: nat) {
    && (time >= 50000 * Distance(start, target) ==> Landed(slot, target))
    && (cap * time < 1000000 * Distance(start, target) ==> slot.moving)
  }

  /** Started from any reachable state, a move of n steps is over once its awake polls total
      50000 n microseconds, and not while they total less than n steps at the fastest cruise
      speed asked for. */
  lemma {:induction false} MoveEndsInTime(s: St, s1: St, i: nat, target: int, speed: int, accel: int, now: nat,
                                          acts: seq<Act>, cap: nat)
    requires Inv(s, cap) && cap >= MIN_GEN_SPS && i < |s.slots| && target != s.slots[i].pos && speed <= cap
    requires s1 == StartMoveAbs(s, i, target, speed, accel, now) && Valid(s1)
    requires LeaveMove(acts, i) && CarefulRun(s1, acts, cap)
    ensures Valid(Run(s1, acts)) && |Run(s1, acts).slots| == |s.slots|
    ensures InTime(Run(s1, acts).slots[i], s.slots[i].pos, target, AwakeTime(s1, acts, i), cap)
  {
    StartFlies(s, i, target, speed, accel, now);
    StepKeepsInv(s, Start(i, target, speed, accel, now), cap);
    hide *;
    RunInTime(s1, i, s.slots[i].pos, target, acts, cap);
  }

  /** So for a move started at any point of a run from begin. */
  lemma {:induction false} MoveFromBeginEndsInTime(count: nat, before: seq<Act>, s: St, s1: St, i: nat, target: int,
                                                   speed: int, accel: int, now: nat, acts: seq<Act>, cap: nat)
    requires cap >= MIN_GEN_SPS && CarefulRun(Begin(count), before, cap)
    requires s == Run(Begin(count), before) && Valid(s)
    requires i < |s.slots| && target != s.slots[i].pos && speed <= cap
    requires s1 == StartMoveAbs(s, i, target, speed, accel, now) && Valid(s1)
    requires LeaveMove(acts, i) && CarefulRun(s1, acts, cap)
    ensures Valid(Run(s1, acts)) && |Run(s1, acts).slots| == |s.slots|
    ensures InTime(Run(s1, acts).slots[i], s.slots[i].pos, target, AwakeTime(s1, acts, i), cap)
  {
    BeginRunsKeepInv(count, before, cap);
    hide *;
    MoveEndsInTime(s, s1, i, target, speed, accel, now, acts, cap);
  }

  lemma {:induction false} RunInTime(s: St, i: nat, start: int, target: int, acts: seq<Act>, cap: nat)
    requires Inv(s, cap) && cap >= MIN_GEN_SPS && i < |s.slots| && Flying(s.slots[i], start, target, 0)
    requires LeaveMove(acts, i) && CarefulRun(s, acts, cap)
    ensures Valid(Run(s, acts)) && |Run(s, acts).slots| == |s.slots|
    ensures InTime(Run(s, acts).slots[i], start, target, AwakeTime(s, acts, i), cap)
  {
    assert Valid(s);
    StartExact(s.slots[i], start, target);
    hide *;
    RunExact(s, acts, i, start, target, 0);
    WorkBounds(s, acts, i, cap);
    ExactInTime(Run(s, acts).slots[i], start, target, Work(s, acts, i), AwakeTime(s, acts, i), cap);
  }

  lemma StartExact(slot: Slot, start: int, target: int)
    requires Flying(slot, start, target, 0)
    ensures Exact(slot, start, target, 0)
  {
  }

  lemma ExactInTime(slot: Slot, start: int, target: int, work: nat, time: nat, cap: nat)
    requires Exact(slot, start, target, work) && Between(work, time, cap)
    ensures InTime(slot, start, target, time, cap)
  {
  }

  /** A flip that is pending is carried out: the first poll at or after its end finds the motor
      awake with its DIR line right, or already arrived. */
  lemma {:induction false} PendingFlipCompletes(s: St, i: nat, now: nat, cap: nat)
    requires Inv(s, cap) && i < |s.slots| && Pending(View(s, i)) && now >= s.flips[i].sleepHigh
    ensures var r := UpdateProgress(s, i, now);
      && Valid(r) && i < |r.slots| && !Pending(View(r, i))
      && (r.slots[i].moving ==> r.slots[i].awake && i in r.sleep && (i in r.dir) == (r.slots[i].dirSign > 0))
  {
    PulsesForOne(s, i, cap);
    PollOk(s, i, now);
    PollSlot(s, i, now);
    PollAwake(s, i, now);
  }

  lemma {:induction false} PollAwake(s: St, i: nat, now: nat)
    requires Valid(s) && i < |s.slots| && s.slots[i].moving
    ensures var r := UpdateProgress(s, i, now);
      i < |r.slots| && (r.slots[i].moving ==> r.slots[i].awake == AwakeAt(s, i, now))
  {
    StepValid(s, Poll(i, now));
    var s0 := s.(slots := s.slots[i := s.slots[i].(lastUs := now)]);
    SchedulerWakes(s0, i, now);
    SchedulerFrame(s0, i, now);
    var s1, dt := RunFlipScheduler(s0, i, now), Wrapped(now - s.slots[i].lastUs);
    IntegrateOk(s1.slots[i], s1.gen.speed, dt);
    hide RunFlipScheduler, Integrate, UpdateRamp, Arrived;
    RampFrame(Advance(s1, i, dt), now);
    var s2 := UpdateRamp(Advance(s1, i, dt), now);
    if !s2.slots[i].moving { ArrivedStays(s2, i); }
  }

  // ---------------- the one way to break the interlock ----------------

  /** In any state whose register is in step, a poll changes DIR under a high SLEEP line if and
      only if a pending flip to the other direction finds SLEEP high and is either past its end
      or in its middle stage and due; an earlier stage lowers SLEEP first. */
  lemma {:induction false} PollBreaksInterlockIff(s: St, i: nat, now: nat)
    requires Valid(s) && i < |s.slots| && LogOk(s, i) && s.slots[i].moving && s.gen.period > 0
    ensures !Interlocked(UpdateProgress(s, i, now).log, i) <==>
      (s.flips[i].active && (i in s.dir) != (s.flips[i].newDir > 0) && i in s.sleep &&
       (now >= s.flips[i].sleepHigh || (s.flips[i].phase == 1 && now >= s.flips[i].dirFlip)))
  {
    var s0, f := s.(slots := s.slots[i := s.slots[i].(lastUs := now)]), s.flips[i];
    var s1, dt := RunFlipScheduler(s0, i, now), Wrapped(now - s.slots[i].lastUs);
    SchedulerFrame(s0, i, now);
    SchedulerSafeIff(s0, i, now);
    AfterSchedulerSafe(s1, i, now, dt);
  }

  lemma {:induction false} SchedulerSafeIff(s: St, i: nat, now: nat)
    requires Valid(s) && i < |s.slots| && LogOk(s, i) && s.gen.period > 0
    ensures Latched(RunFlipScheduler(s, i, now))
    ensures !Interlocked(RunFlipScheduler(s, i, now).log, i) <==>
      (s.flips[i].active && (i in s.dir) != (s.flips[i].newDir > 0) && i in s.sleep &&
       (now >= s.flips[i].sleepHigh || (s.flips[i].phase == 1 && now >= s.flips[i].dirFlip)))
  {
    hide Interlocked;
    var f := s.flips[i];
    if f.active {
      if now >= f.sleepHigh {
        FlushSafeIff(s, s.(dir := With(s.dir, i, f.newDir > 0), sleep := With(s.sleep, i, true)), i);
      } else if f.phase == 1 && now >= f.dirFlip {
        FlushSafeIff(s, s.(dir := With(s.dir, i, f.newDir > 0)), i);
      } else if f.phase != 1 {
        FlipStagesSafeLowered(s, i, now);
      }
    }
  }

  lemma {:induction false} FlipStagesSafeLowered(s: St, i: nat, now: nat)
    requires Valid(s) && i < |s.slots| && LogOk(s, i) && s.flips[i].phase != 1
    ensures LogOk(FlipStages(s, i, now), i)
  {
    var f := s.flips[i];
    LatchSleepSafe(s, i, false, i);
    if f.phase == 0 && now >= f.sleepLow && now >= f.dirFlip {
      LatchDirSafe(Phase(LatchSleep(s, i, false), i, 1), i, f.newDir, i);
    }
  }

  /** What follows the scheduler changes no DIR line. */
  lemma {:induction false} AfterSchedulerSafe(s: St, i: nat, now: nat, dt: nat)
    requires Valid(s) && i < |s.slots| && Latched(s)
    ensures var a := UpdateRamp(Advance(s, i, dt), now);
      && Valid(a) && i < |a.slots|
      && Interlocked((if a.slots[i].moving then a else Arrived(a, i)).log, i) == Interlocked(s.log, i)
  {
    AdvanceFrame(s, i, dt);
    RampFrame(Advance(s, i, dt), now);
    var a := UpdateRamp(Advance(s, i, dt), now);
    hide Advance, UpdateRamp;
    if Interlocked(s.log, i) {
      if !a.slots[i].moving { ArrivedSafe(a, i, i); }
    } else {
      var k :| 0 < k < |s.log| && !SafeAt(s.log, k, i);
      var log := (if a.slots[i].moving then a else Arrived(a, i)).log;
      assert log[..|s.log|] == s.log;
      assert !SafeAt(log, k, i);
    }
  }

  /** Enabling a motor between its start and its flip is such a case: a motor is reversed
      while the generator runs for another, enabled, and polled after the flip is due. */
  lemma {:induction false} EnableDuringFlipBreaksInterlock()
    ensures var s := Step(Step(Reversed(), Enable(0)), Poll(0, 100000)); !Interlocked(s.log, 0)
  {
    ReversedState();
    var s := Reversed();
    hide Reversed;
    assert LogOk(s, 0) && MotorOk(View(s, 0)) && MotorOk(View(s, 1));
    StepLogOk(s, Enable(0), 0);
    PollBreaksInterlockIff(Step(s, Enable(0)), 0, 100000);
  }

  function Reversed(): St {
    Step(Step(Begin(2), Start(1, 100, 20, 1, 0)), Start(0, 5, 20, 1, 0))
  }

  lemma {:induction false} ReversedState()
    ensures var s := Reversed();
      && Inv(s, 20) && |s.slots| == 2 && s.slots[0].moving && s.gen.period > 0
      && s.flips[0].active && s.flips[0].newDir == 1 && s.flips[0].sleepHigh == 25003 && 0 !in s.dir
  {
    BeginInv(2, 20);
    var s0, a, b := Begin(2), Start(1, 100, 20, 1, 0), Start(0, 5, 20, 1, 0);
    StepKeepsInv(s0, a, 20);
    StepKeepsInv(Step(s0, a), b, 20);
    hide Inv;
    assert StepPeriod(20) == 50000;
    assert ComputeFlipWindow(0, 50000, 3, 3) == FlipWindow(24997, 25000, 25003);
    assert Step(s0, a).gen.running && Step(s0, a).gen.period == 50000 && Step(s0, a).gen.anchor == 0;
  }
}
