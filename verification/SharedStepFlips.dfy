/** When the DIR and SLEEP lines of a motor may change: at the start of a move, at the polls of a pending
    flip, and on enabling or disabling its outputs. */
module SharedStepFlips {
  import opened SharedStepTiming
  import opened SharedStepModel
  import opened SharedStepRuns

  /** The window lies after now and strictly between two pulses that follow each other. */
  ghost predicate BetweenPulses(f: Flip, anchor: nat, period: nat, now: nat) {
    exists k: nat ::
      now <= anchor + k * period < f.sleepLow && f.sleepLow <= f.dirFlip <= f.sleepHigh < anchor + (k + 1) * period
  }

  /** The motor does not need its DIR line changed, or no pulses run, or they are too close together
      for the guards. */
  predicate NothingToWaitFor(s: St, i: nat, target: int)
    requires i < |s.slots|
  {
    (i in s.dir) == (target > s.slots[i].pos) || !s.gen.running || s.gen.period <= 8
  }

  /** A move starts at once, with SLEEP high and DIR towards the target; or, when its direction changes
      while pulses run, with SLEEP low, DIR as it was, and a flip booked between two pulses. */
  lemma {:induction false} StartBooksFlip(s: St, i: nat, target: int, speed: int, accel: int, now: nat)
    requires Valid(s) && i < |s.slots| && target != s.slots[i].pos && s.gen.anchor <= now
    ensures var r := StartMoveAbs(s, i, target, speed, accel, now);
      && Valid(r) && |r.slots| == |s.slots| && r.slots[i].moving && r.slots[i].target == target
      && r.slots[i].dirSign == (if target > s.slots[i].pos then 1 else -1)
      && (if NothingToWaitFor(s, i, target) then
            r.slots[i].awake && !r.flips[i].active && i in r.sleep && (i in r.dir <==> target > s.slots[i].pos)
          else
            && !r.slots[i].awake && r.flips[i].active && r.flips[i].phase == 0 && i !in r.sleep && r.dir == s.dir
            && r.flips[i].newDir == r.slots[i].dirSign && BetweenPulses(r.flips[i], s.gen.anchor, s.gen.period, now))
  {
    StepValid(s, Start(i, target, speed, accel, now));
    if !NothingToWaitFor(s, i, target) {
      WindowBetween(s.gen, now);
      hide WindowFor, StartGen;
    } else {
      WindowNeeds(s.gen, now);
      hide WindowFor, StartGen;
    }
  }

  lemma WindowNeeds(g: Gen, now: nat)
    ensures !g.running || g.period <= 8 ==> WindowFor(g, now).NoWindow?
  {
  }

  lemma {:induction false} WindowBetween(g: Gen, now: nat)
    requires g.running && g.period > 8 && g.anchor <= now
    ensures var w := WindowFor(g, now);
      w.FlipWindow? && BetweenPulses(Booked(IDLE_FLIP, w, g.anchor, 1), g.anchor, g.period, now)
  {
    var w, t := WindowFor(g, now), now - g.anchor;
    FlipWindowInsideGapIff(t, g.period, 3, 3);
    AlignIsNextEdge(t, g.period);
    var edge := AlignToNextEdge(t, g.period);
    var k: nat := EdgeNumber(t, g.period);
    OneMoreMultiple(k, g.period);
    assert edge == k * g.period;
    hide AlignToNextEdge;
    var f := Booked(IDLE_FLIP, w, g.anchor, 1);
    assert now <= g.anchor + k * g.period < f.sleepLow && f.sleepLow <= f.dirFlip <= f.sleepHigh < g.anchor + (k + 1) * g.period;
  }

  /** Which pulse after the anchor the next one is. */
  lemma {:induction false} EdgeNumber(t: nat, period: nat) returns (k: nat)
    requires period > 0
    ensures AlignToNextEdge(t, period) == k * period
  {
    var q, r := t / period, t % period;
    assert t == period * q + r;
    k := if r == 0 then q else q + 1;
    OneMoreMultiple(q, period);
  }

  /** A poll of a pending flip leaves the lines alone before its middle, has DIR right from its middle on
      with SLEEP still low, and raises SLEEP no earlier than its end. */
  lemma {:induction false} FlipStagesInTime(s: St, i: nat, now: nat)
    requires Valid(s) && i < |s.slots| && s.flips[i].active && s.flips[i].phase <= 1 && s.gen.period > 0 && i !in s.sleep
    requires s.flips[i].sleepLow <= s.flips[i].dirFlip <= s.flips[i].sleepHigh
    ensures var f, r := s.flips[i], RunFlipScheduler(s, i, now);
      && Valid(r) && |r.slots| == |s.slots|
      && (now < f.dirFlip ==> r.dir == s.dir && i !in r.sleep && r.flips[i].active)
      && (f.dirFlip <= now < f.sleepHigh ==> (i in r.dir <==> f.newDir > 0) && i !in r.sleep && r.flips[i].active)
      && (now >= f.sleepHigh ==> (i in r.dir <==> f.newDir > 0) && i in r.sleep && r.slots[i].awake && !r.flips[i].active)
  {
  }

  /** Enabling raises SLEEP and keeps the motor awake after its moves; disabling lowers it again. */
  lemma {:induction false} OutputsFollow(s: St, i: nat)
    requires Valid(s) && i < |s.slots|
    ensures var e, d := Step(s, Enable(i)), Step(s, Disable(i));
      && i in e.sleep && e.slots[i] == s.slots[i].(awake := true, forced := true) && e.dir == s.dir
      && i !in d.sleep && d.slots[i] == s.slots[i].(awake := false, forced := false) && d.dir == s.dir
      && e.log == s.log + [Latch(e.dir, e.sleep)] && d.log == s.log + [Latch(d.dir, d.sleep)]
  {
  }

  /** A motor that has arrived sleeps unless it was enabled, and the pulses stop with the last motor. */
  lemma {:induction false} ArrivalSleeps(s: St, i: nat, now: nat)
    requires Valid(s) && i < |s.slots| && s.slots[i].moving && PulsesWhileMoving(s)
    requires !UpdateProgress(s, i, now).slots[i].moving
    ensures var r := UpdateProgress(s, i, now);
      && (!s.slots[i].forced ==> !r.slots[i].awake && i !in r.sleep)
      && (r.gen.running <==> AnyMoving(r.slots))
  {
    var a := Advanced(s, i, now);
    PollValid(s, i, now);
    AdvanceStartsNothing(s, i, now);
    RampFrame(a, now);
    PollSlot(s, i, now);
    assert s.gen.running;
    RampRuns(a, now);
    hide RunFlipScheduler, Advance, AnyMoving, UpdateRamp, Integrate, AwakeAt;
    ArrivedStops(UpdateRamp(a, now), i);
  }

  lemma RampRuns(a: St, now: nat)
    requires a.gen.running
    ensures AnyMoving(a.slots) ==> UpdateRamp(a, now).gen.running
  {
    hide RampSpeed, StepPeriod, MinRemaining, AnyMoving;
  }

  lemma {:induction false} ArrivedStops(s: St, i: nat)
    requires Valid(s) && i < |s.slots| && !s.slots[i].moving && (AnyMoving(s.slots) ==> s.gen.running)
    ensures var r := Arrived(s, i);
      && Valid(r) && |r.slots| == |s.slots| && r.slots[i].forced == s.slots[i].forced
      && (!s.slots[i].forced ==> !r.slots[i].awake && i !in r.sleep)
      && (r.gen.running <==> AnyMoving(r.slots))
  {
    var slots := s.slots[i := s.slots[i].(awake := false)];
    if k :| 0 <= k < |slots| && slots[k].moving { assert s.slots[k].moving; }
    LatchSleepKeeps(s.(slots := slots), i);
  }
}
