/** The speed ramp of the shared generator: what every update does to its speed, how it follows the
    acceleration over whole runs, and when a move is over. */
module SharedStepRamp {
  import opened IntegerMath
  import opened SharedStepTiming
  import opened SharedStepModel
  import opened SharedStepRuns

  // ---------------- one update ----------------

  /** The generator never pulses slower than 20 steps a second. */
  function Pulses(v: nat): nat { if v < 20 then 20 else v }

  /** While it runs it pulses at the ramp's speed, and the ramp keeps less than one step a second. */
  predicate Tuned(g: Gen) { (g.running ==> g.speed == Pulses(g.vCur)) && g.dvAcc < 1000000 }

  /** Braking at this rate would still cover the distance left, or more. */
  predicate StopsNoSooner(v: nat, decel: nat, left: nat) { left == 0 || v * v > (left - 1) * (2 * decel) }

  /** Speed and fraction of the ramp, in millionths of a step a second. */
  function Micro(g: Gen): nat { 1000000 * g.vCur + g.dvAcc }

  function Top(g: Gen): nat { if g.vMax > 0 then g.vMax else 20 }

  function Up(g: Gen): nat { if g.accel > 0 then g.accel else 1 }

  predicate MustBrake(g: Gen, left: nat) { g.decel > 0 && (StopsNoSooner(g.vCur, g.decel, left) || g.vCur > Top(g)) }

  /** Below the top speed the ramp gains its acceleration, up to the top. */
  predicate SpedUp(g: Gen, r: Gen, elapsed: nat) {
    var sum := Micro(g) + Up(g) * elapsed;
    if sum < 1000000 * Top(g) then Micro(r) == sum else r.vCur == Top(g)
  }

  /** Braking it loses its deceleration, down to a stop, keeping what was not enough for a step. */
  predicate SlowedDown(g: Gen, r: Gen, elapsed: nat) {
    var loss := g.decel * elapsed + g.dvAcc;
    if loss < 1000000 * (g.vCur + 1) then 1000000 * (g.vCur - r.vCur) + r.dvAcc == loss else r.vCur == 0
  }

  /** What an update with this much distance left does after the elapsed time. */
  predicate Follows(g: Gen, r: Gen, left: nat, elapsed: nat) {
    if MustBrake(g, left) then SlowedDown(g, r, elapsed)
    else if g.vCur < Top(g) then SpedUp(g, r, elapsed)
    else Micro(r) == Micro(g)
  }

  predicate SameMove(g: Gen, r: Gen) { r.vMax == g.vMax && r.accel == g.accel && r.decel == g.decel }

  lemma {:induction false} BrakeIff(g: Gen, left: nat)
    ensures MustBrake(g, left) <==> g.decel > 0 && (left <= StopDistance(g.vCur, g.decel) || g.vCur > Top(g))
  {
    if g.decel > 0 && left > 0 {
      StopDistanceLeast(g.vCur, g.decel, left - 1);
    }
    hide StopDistance;
  }

  lemma {:induction false} RampFollows(g: Gen, left: nat, elapsed: nat)
    requires g.dvAcc < 1000000
    ensures var (speed, fraction) := RampSpeed(g, left, elapsed);
      fraction < 1000000 && Follows(g, g.(vCur := speed, dvAcc := fraction), left, elapsed)
  {
    BrakeIff(g, left);
    hide StopDistance, MustBrake;
  }

  lemma {:induction false} UpdateFollows(g: Gen, left: nat, now: nat)
    requires g.running && Tuned(g) && now > g.rampLast
    ensures var r := Ramped(g, left, now);
      r.running && Tuned(r) && r.rampLast == now && SameMove(g, r) && Follows(g, r, left, now - g.rampLast)
  {
    RampFollows(g, left, now - g.rampLast);
    hide RampSpeed, StepPeriod, MustBrake, Micro, Top, Up;
    var (speed, fraction) := RampSpeed(g, left, now - g.rampLast);
    var r := Ramped(g, left, now);
    assert r.vCur == speed && r.dvAcc == fraction && SameMove(g, r);
    FollowsSame(g, g.(vCur := speed, dvAcc := fraction), r, left, now - g.rampLast);
  }

  lemma FollowsSame(g: Gen, a: Gen, r: Gen, left: nat, elapsed: nat)
    requires Follows(g, a, left, elapsed) && r.vCur == a.vCur && r.dvAcc == a.dvAcc
    ensures Follows(g, r, left, elapsed)
  {
    hide MustBrake;
  }

  /** The distance left of the motor nearest to its target. */
  ghost predicate IsNearest(slots: seq<Slot>, left: nat) {
    && (exists k :: 0 <= k < |slots| && slots[k].moving && Abs(slots[k].target - slots[k].pos) == left)
    && (forall k :: 0 <= k < |slots| && slots[k].moving ==> Abs(slots[k].target - slots[k].pos) >= left)
  }

  lemma {:induction false} LeastIs(slots: seq<Slot>, n: nat)
    requires n <= |slots|
    ensures var least := MinRemaining(slots, n);
      && (forall k :: 0 <= k < n && slots[k].moving ==> least <= Abs(slots[k].target - slots[k].pos))
      && (least == 0xFFFF_FFFF || exists k :: 0 <= k < n && slots[k].moving && Abs(slots[k].target - slots[k].pos) == least)
      && least <= 0xFFFF_FFFF
  {
    if n > 0 { LeastIs(slots, n - 1); }
  }

  lemma {:induction false} NearestIs(slots: seq<Slot>, left: nat)
    requires IsNearest(slots, left) && left < 0xFFFF_FFFF
    ensures MinRemaining(slots, |slots|) == left
  {
    LeastIs(slots, |slots|);
    hide MinRemaining;
  }

  // ---------------- one poll ----------------

  /** A poll of a moving motor after which some motor still moves updates the ramp, with the distances
      as the poll leaves them. */
  lemma {:induction false} PollGen(s: St, i: nat, now: nat)
    requires Valid(s) && i < |s.slots| && s.slots[i].moving
    ensures var r := UpdateProgress(s, i, now);
      && Valid(r) && |r.slots| == |s.slots|
      && (AnyMoving(r.slots) ==> r.gen == Ramped(s.gen, MinRemaining(r.slots, |r.slots|), now))
  {
    StepValid(s, Poll(i, now));
    var a := Advanced(s, i, now);
    AdvanceStartsNothing(s, i, now);
    RampFrame(a, now);
    hide RunFlipScheduler, Advance, Ramped, AnyMoving, MinRemaining, UpdateRamp;
    var s2 := UpdateRamp(a, now);
    RampOrStop(a, now);
    if !s2.slots[i].moving { ArrivedGen(s2, i); }
  }

  lemma RampOrStop(a: St, now: nat)
    ensures AnyMoving(a.slots) ==> UpdateRamp(a, now).gen == Ramped(a.gen, MinRemaining(a.slots, |a.slots|), now)
  {
    hide Ramped, MinRemaining, AnyMoving;
  }

  lemma {:induction false} ArrivedGen(s: St, i: nat)
    requires Valid(s) && i < |s.slots| && !s.slots[i].moving
    ensures var r := Arrived(s, i);
      && Valid(r) && |r.slots| == |s.slots| && (AnyMoving(r.slots) <==> AnyMoving(s.slots))
      && (AnyMoving(r.slots) ==> r.gen == s.gen)
      && MinRemaining(r.slots, |r.slots|) == MinRemaining(s.slots, |s.slots|)
  {
    var r := Arrived(s, i);
    var asleep := s.slots[i].(awake := false);
    LatchSleepKeeps(s.(slots := s.slots[i := asleep]), i);
    SameDistances(s.slots, s.slots[i := asleep], |s.slots|);
    hide LatchSleep, MinRemaining;
    var slots := s.slots[i := asleep];
    if k :| 0 <= k < |s.slots| && s.slots[k].moving { assert slots[k].moving; }
    if k :| 0 <= k < |slots| && slots[k].moving { assert s.slots[k].moving; }
  }

  lemma {:induction false} SameDistances(slots: seq<Slot>, others: seq<Slot>, n: nat)
    requires n <= |slots| == |others|
    requires forall k :: 0 <= k < n ==>
      others[k].moving == slots[k].moving && others[k].target == slots[k].target && others[k].pos == slots[k].pos
    ensures MinRemaining(slots, n) == MinRemaining(others, n)
  {
    if n > 0 { SameDistances(slots, others, n - 1); }
  }

  /** One update of the ramp with this much distance left, and the generator pulsing at its speed. */
  predicate Updated(g: Gen, r: Gen, left: nat, now: nat) {
    r.running && Tuned(r) && g.rampLast < r.rampLast == now && SameMove(g, r) && Follows(g, r, left, now - g.rampLast)
  }

  /** Within the stopping distance the speed falls. */
  predicate Brakes(g: Gen, r: Gen, left: nat, elapsed: nat) {
    g.decel > 0 && StopsNoSooner(g.vCur, g.decel, left) ==>
      r.vCur <= g.vCur && (g.vCur > 0 && g.decel * elapsed >= 1000000 ==> r.vCur < g.vCur)
  }

  /** A poll that leaves some motor moving, later than the last update, lets the speed follow the ramp
      for the motor nearest to its target: with a deceleration set it falls once that distance is
      within the stopping distance. */
  lemma {:induction false} PollFollowsRamp(s: St, i: nat, now: nat, left: nat)
    requires Valid(s) && i < |s.slots| && s.slots[i].moving && s.gen.running && Tuned(s.gen) && now > s.gen.rampLast
    requires IsNearest(UpdateProgress(s, i, now).slots, left) && left < 0xFFFF_FFFF
    ensures Updated(s.gen, UpdateProgress(s, i, now).gen, left, now)
    ensures Brakes(s.gen, UpdateProgress(s, i, now).gen, left, now - s.gen.rampLast)
  {
    PollGen(s, i, now);
    NearestIs(UpdateProgress(s, i, now).slots, left);
    NearestMoves(UpdateProgress(s, i, now).slots, left);
    hide *;
    RampedUpdates(s.gen, left, now);
  }

  lemma RampedUpdates(g: Gen, left: nat, now: nat)
    requires g.running && Tuned(g) && now > g.rampLast
    ensures Updated(g, Ramped(g, left, now), left, now) && Brakes(g, Ramped(g, left, now), left, now - g.rampLast)
  {
    UpdateFollows(g, left, now);
    hide Ramped, StopsNoSooner, Follows, Brakes;
    BrakingFalls(g, Ramped(g, left, now), left, now - g.rampLast);
  }

  lemma NearestMoves(slots: seq<Slot>, left: nat)
    requires IsNearest(slots, left)
    ensures AnyMoving(slots)
  {
  }

  lemma BrakingFalls(g: Gen, r: Gen, left: nat, elapsed: nat)
    requires Follows(g, r, left, elapsed) && r.dvAcc < 1000000
    ensures Brakes(g, r, left, elapsed)
  {
    hide StopsNoSooner, SpedUp;
  }

  // ---------------- whole runs without deceleration ----------------

  /** A call that leaves the ramp of the move alone. */
  predicate LeavesRamp(a: Act) { !a.Start? && !a.SetDecel? }

  /** From one point of a move to another the speed has followed the acceleration for the time between
      the two updates, and never fell. */
  predicate Climbed(g: Gen, r: Gen) {
    && g.rampLast <= r.rampLast && SameMove(g, r) && r.running && Tuned(r) && g.vCur <= r.vCur
    && (if g.vCur < Top(g) then SpedUp(g, r, r.rampLast - g.rampLast) else Micro(r) == Micro(g))
    && (g.vCur < Top(g) ==> r.vCur <= Top(g))
  }

  lemma ClimbedItself(g: Gen)
    requires g.running && Tuned(g)
    ensures Climbed(g, g)
  {
  }

  lemma {:induction false} ClimbedOn(g: Gen, r: Gen, t: Gen)
    requires Climbed(g, r) && Climbed(r, t)
    ensures Climbed(g, t)
  {
    var a, b := r.rampLast - g.rampLast, t.rampLast - r.rampLast;
    TwoSpans(Up(g), a, b);
    assert t.rampLast - g.rampLast == a + b;
    var x, y := Up(g) * a, Up(g) * b;
    assert Up(g) * (a + b) == x + y && y >= 0;
    hide Up;
  }

  lemma TwoSpans(up: nat, a: nat, b: nat)
    ensures up * (a + b) == up * a + up * b && up * a >= 0 && up * b >= 0
  {
  }

  lemma {:induction false} UpdateClimbs(g: Gen, left: nat, now: nat)
    requires g.running && Tuned(g) && g.decel == 0
    ensures Climbed(g, Ramped(g, left, now)) && Ramped(g, left, now).rampLast >= now
  {
    if now > g.rampLast {
      UpdateFollows(g, left, now);
      hide Ramped, SlowedDown;
      TwoSpans(Up(g), now - g.rampLast, 0);
      hide Up;
    }
  }

  lemma {:induction false} StepClimbs(s: St, a: Act, i: nat)
    requires Valid(s) && s.gen.running && Tuned(s.gen) && s.gen.decel == 0 && LeavesRamp(a)
    requires i < |s.slots| && Valid(Step(s, a)) && i < |Step(s, a).slots| && Step(s, a).slots[i].moving
    ensures Climbed(s.gen, Step(s, a).gen)
    ensures a.Poll? && a.i == i && s.slots[i].moving ==> Step(s, a).gen.rampLast >= a.now
  {
    ClimbedItself(s.gen);
    match a
    case Poll(j, now) =>
      if j < |s.slots| && s.slots[j].moving {
        PollGen(s, j, now);
        UpdateClimbs(s.gen, MinRemaining(Step(s, a).slots, |Step(s, a).slots|), now);
        hide UpdateProgress, Ramped, MinRemaining, Climbed;
      }
    case _ =>
  }

  /** The motor moves after each of the calls. */
  predicate KeepsMoving(s: St, acts: seq<Act>, i: nat)
    requires Valid(s)
    decreases |acts|
  {
    i < |s.slots| && s.slots[i].moving &&
    (acts == [] || (StepValid(s, acts[0]); KeepsMoving(Step(s, acts[0]), acts[1..], i)))
  }

  predicate LeaveRamp(acts: seq<Act>) { forall k :: 0 <= k < |acts| ==> LeavesRamp(acts[k]) }

  /** Without deceleration, while a motor moves and no move is started: speed and fraction grow by the
      acceleration times the time between ramp updates until the top speed is reached, and stay there;
      the speed never falls and the generator pulses at it. */
  lemma {:induction false} RunClimbs(s: St, acts: seq<Act>, i: nat)
    requires Valid(s) && s.gen.running && Tuned(s.gen) && s.gen.decel == 0
    requires LeaveRamp(acts) && KeepsMoving(s, acts, i)
    ensures Valid(Run(s, acts)) && Climbed(s.gen, Run(s, acts).gen)
    decreases |acts|
  {
    if acts == [] {
      ClimbedItself(s.gen);
    } else {
      StepValid(s, acts[0]);
      assert LeavesRamp(acts[0]);
      StepClimbs(s, acts[0], i);
      hide Step;
      RunClimbs(Step(s, acts[0]), acts[1..], i);
      ClimbedOn(s.gen, Step(s, acts[0]).gen, Run(s, acts).gen);
    }
  }

  // ---------------- when a move is over ----------------

  /** The motor is polled at least every gap microseconds, and time does not go back. */
  predicate PolledEvery(s: St, acts: seq<Act>, i: nat, gap: nat)
    requires Valid(s)
    decreases |acts|
  {
    acts == [] ||
      ((acts[0].Poll? && acts[0].i == i && i < |s.slots| && s.slots[i].moving ==>
          s.slots[i].lastUs <= acts[0].now <= s.slots[i].lastUs + gap) &&
       (StepValid(s, acts[0]);
        PolledEvery(Step(s, acts[0]), acts[1..], i, gap)))
  }

  /** What the ramp is short of the top, in millionths of a step a second, as of the motor's last poll. */
  function Short(g: Gen, last: nat): int {
    1000000 * g.vMax - Micro(g) + Up(g) * (if g.rampLast > last then g.rampLast - last else 0)
  }

  /** What a climb from here loses against the top speed, doubled and in millionths of a step times
      the acceleration. */
  function Lost(g: Gen, last: nat, gap: nat): nat {
    var w := Short(g, last) + Up(g) * gap;
    if g.vCur >= g.vMax || w < 0 then 0 else w * w + 2000000 * w
  }

  /** A motor in flight under a running ramp without deceleration. */
  predicate Climbing(s: St, i: nat) {
    Valid(s) && i < |s.slots| && s.slots[i].moving && s.gen.running && Tuned(s.gen) && s.gen.decel == 0 && s.gen.vMax >= 20
  }

  /** One stretch of dt at less than the top speed, with z short of it as of its start. */
  lemma {:induction false} StretchLoss(up: nat, z: nat, gap: nat, dt: nat, deficit: nat, z1: int)
    requires dt <= gap && 1000000 * deficit <= z + 1000000
    ensures var u, w := up * dt, z + up * gap;
      && 2000000 * up * (deficit * dt) <= w * w + 2000000 * w
      && (0 <= z1 <= z - u ==>
            2000000 * up * (deficit * dt) + (z1 + up * gap) * (z1 + up * gap) + 2000000 * (z1 + up * gap) <= w * w + 2000000 * w)
  {
    var u, q := up * dt, up * gap;
    var w := z + q;
    ProductAtMost(up, dt, gap);
    Regroup(up, deficit, dt);
    ProductAtMost(2 * u, 1000000 * deficit, z + 1000000);
    assert 2000000 * up * (deficit * dt) <= 2 * u * (z + 1000000);
    WholeLoss(u, z, q);
    if 0 <= z1 <= z - u { PartLoss(u, z, q, z1); }
  }

  lemma ProductAtMost(k: nat, a: nat, b: nat)
    requires a <= b
    ensures k * a <= k * b
  {
  }

  lemma Regroup(up: nat, deficit: nat, dt: nat)
    ensures 2000000 * up * (deficit * dt) == 2 * (up * dt) * (1000000 * deficit)
  {
    assert up * (deficit * dt) == (up * dt) * deficit;
  }

  lemma WholeLoss(u: nat, z: nat, q: nat)
    requires u <= q
    ensures 2 * u * (z + 1000000) <= (z + q) * (z + q) + 2000000 * (z + q)
  {
    ProductAtMost(2 * z, u, q);
    assert (z + q) * (z + q) == z * z + 2 * z * q + q * q;
    assert 2 * u * (z + 1000000) == 2 * z * u + 2000000 * u;
  }

  lemma PartLoss(u: nat, z: nat, q: nat, z1: nat)
    requires u <= q && z1 <= z - u
    ensures 2 * u * (z + 1000000) + (z1 + q) * (z1 + q) + 2000000 * (z1 + q) <= (z + q) * (z + q) + 2000000 * (z + q)
  {
    var w1, top := z1 + q, z - u + q;
    ProductAtMost(w1, w1, top);
    ProductAtMost(top, w1, top);
    ProductAtMost(u, u, q);
    Expanded(u, z, q);
    hide *;
    assert w1 * w1 <= top * top;
  }

  /** (z + q)^2 less (z + q - u)^2 is 2u(z + q) - u^2. */
  lemma Expanded(u: int, z: int, q: int)
    ensures (z - u + q) * (z - u + q) == (z + q) * (z + q) - 2 * (z * u) - 2 * (u * q) + u * u
    ensures 2 * u * (z + 1000000) == 2 * (z * u) + 2000000 * u
  {
  }

  /** How the shortage changes while the ramp climbs: by the time since the motor's last poll. */
  lemma {:induction false} ShortAfter(g: Gen, r: Gen, last: nat, now: nat)
    requires Climbed(g, r) && r.vCur < r.vMax && g.vMax >= 20 && last <= now
    ensures g.vCur < g.vMax && Short(r, last) <= Short(g, last) && 0 < Short(r, last)
    ensures r.rampLast >= now ==> 0 < Short(r, now) <= Short(g, last) - Up(g) * (now - last)
  {
    var up, e := Up(g), r.rampLast - g.rampLast;
    assert Micro(r) == Micro(g) + up * e && Micro(r) < 1000000 * r.vMax;
    ShortIs(g, last);
    ShortIs(r, last);
    ShortIs(r, now);
    assert Up(r) == up;
    var x, y, z := Since(g, last), Since(r, last), Since(r, now);
    MoreTime(up, y, e, x);
    if r.rampLast >= now { MoreTime(up, z + (now - last), e, x); TwoSpans(up, z, now - last); }
    hide Short, Up, Micro, Climbed;
  }

  function Since(g: Gen, last: nat): nat { if g.rampLast > last then g.rampLast - last else 0 }

  lemma ShortIs(g: Gen, last: nat)
    ensures Short(g, last) == 1000000 * g.vMax - Micro(g) + Up(g) * Since(g, last) && Up(g) * Since(g, last) >= 0
  {
    hide Up, Micro;
  }

  lemma MoreTime(up: nat, y: nat, e: nat, x: nat)
    requires y <= e + x
    ensures up * y <= up * e + up * x
  {
    ProductAtMost(up, y, e + x);
  }

  /** The part of the possible loss that one awake stretch of dt uses up. */
  lemma {:induction false} GenLoss(g: Gen, r: Gen, last: nat, gap: nat, dt: nat, lands: bool)
    requires Tuned(g) && g.running && g.vMax >= 20 && dt <= gap
    requires !lands ==> Climbed(g, r) && r.rampLast >= last + dt
    ensures 2000000 * Up(g) * (g.vMax * dt - dt * g.speed) + (if lands then 0 else Lost(r, last + dt, gap)) <= Lost(g, last, gap)
  {
    var up, w := Up(g), Short(g, last) + Up(g) * gap;
    if g.vCur >= g.vMax {
      ProductAtMost(dt, g.vMax, g.speed);
      NonPositive(up, g.vMax * dt - dt * g.speed);
    } else {
      var deficit := g.vMax - g.vCur;
      assert up * (if g.rampLast > last then g.rampLast - last else 0) >= 0;
      assert up * gap >= 0;
      var z := Short(g, last);
      var z1 := if lands then -1 else Short(r, last + dt);
      if !lands && r.vCur < r.vMax { ShortAfter(g, r, last, last + dt); }
      StretchLoss(up, z, gap, dt, deficit, z1);
      ProductAtMost(dt, g.vCur, g.speed);
      assert g.vMax * dt - dt * g.speed <= deficit * dt;
      ScaleDown(up, g.vMax * dt - dt * g.speed, deficit * dt);
      hide Short, Up;
    }
  }

  lemma NonPositive(up: nat, x: int)
    requires x <= 0
    ensures 2000000 * up * x <= 0
  {
  }

  lemma ScaleDown(up: nat, x: int, y: int)
    requires x <= y
    ensures 2000000 * up * x <= 2000000 * up * y
  {
  }

  /** Without a poll of the motor nothing is lost. */
  lemma {:induction false} GenKeeps(g: Gen, r: Gen, last: nat, gap: nat)
    requires Climbed(g, r) && Tuned(g) && g.vMax >= 20
    ensures Lost(r, last, gap) <= Lost(g, last, gap)
  {
    if r.vCur < r.vMax {
      ShortAfter(g, r, last, last);
      var q := Up(g) * gap;
      assert Up(r) == Up(g) && q >= 0;
      var w, w1 := Short(g, last) + q, Short(r, last) + q;
      ProductAtMost(w1, w1, w);
      ProductAtMost(w, w1, w);
      assert w1 * w1 <= w * w;
      hide Short, Up;
    }
  }

  predicate PollsWithin(s: St, a: Act, i: nat, gap: nat)
    requires Valid(s)
  {
    a.Poll? && a.i == i && i < |s.slots| && s.slots[i].moving ==> s.slots[i].lastUs <= a.now <= s.slots[i].lastUs + gap
  }

  /** What remains to be lost. */
  function LostBy(s: St, i: nat, gap: nat): nat
    requires i < |s.slots|
  {
    if s.slots[i].moving then Lost(s.gen, s.slots[i].lastUs, gap) else 0
  }

  /** Speed that was missing against the top over awake time, as LostBy counts it. */
  function Missing(g: Gen, time: nat, work: nat): int { 2000000 * Up(g) * (g.vMax * time - work) }

  lemma {:induction false} StepClimbing(s: St, a: Act, i: nat)
    requires Climbing(s, i) && LeavesRamp(a)
    ensures Valid(Step(s, a)) && |Step(s, a).slots| == |s.slots|
    ensures Step(s, a).slots[i].moving ==> Climbing(Step(s, a), i) && Climbed(s.gen, Step(s, a).gen)
  {
    StepValid(s, a);
    if Step(s, a).slots[i].moving { StepClimbs(s, a, i); }
    hide Step;
  }

  lemma {:induction false} StepLoss(s: St, a: Act, i: nat, gap: nat)
    requires Climbing(s, i) && LeavesMove(a, i) && LeavesRamp(a) && PollsWithin(s, a, i, gap) && gap < 0x1_0000_0000
    ensures Valid(Step(s, a)) && |Step(s, a).slots| == |s.slots|
    ensures Missing(s.gen, AwakeOf(s, a, i), WorkOf(s, a, i)) + LostBy(Step(s, a), i, gap) <= LostBy(s, i, gap)
  {
    StepClimbing(s, a, i);
    var r := Step(s, a);
    if a.Poll? && a.i == i {
      PollLoss(s, i, a.now, gap);
    } else {
      SlotKept(s, a, i);
      hide Step, Lost, AwakeOf, WorkOf, Climbed;
      MissingSame(s.gen, s.gen, 0, 0);
      hide Missing;
      if r.slots[i].moving { GenKeeps(s.gen, r.gen, s.slots[i].lastUs, gap); }
    }
  }

  lemma {:induction false} PollLoss(s: St, i: nat, now: nat, gap: nat)
    requires Climbing(s, i) && s.slots[i].lastUs <= now <= s.slots[i].lastUs + gap && gap < 0x1_0000_0000
    ensures var r := Step(s, Poll(i, now));
      && Valid(r) && |r.slots| == |s.slots|
      && Missing(s.gen, AwakeOf(s, Poll(i, now), i), WorkOf(s, Poll(i, now), i)) + LostBy(r, i, gap) <= LostBy(s, i, gap)
  {
    StepClimbing(s, Poll(i, now), i);
    PollKeepsTime(s, i, now);
    assert Tuned(s.gen) && s.gen.running && s.gen.vMax >= 20 && s.slots[i].moving;
    var r, last := Step(s, Poll(i, now)), s.slots[i].lastUs;
    if r.slots[i].moving { StepClimbs(s, Poll(i, now), i); }
    hide Step, Lost, Climbed, Missing, AwakeAt, LostBy, Climbing;
    PollBalance(s.gen, r.gen, last, gap, now - last, !r.slots[i].moving, AwakeAt(s, i, now));
    LostByIs(s, i, gap);
    LostByIs(r, i, gap);
  }

  lemma LostByIs(s: St, i: nat, gap: nat)
    requires i < |s.slots|
    ensures LostBy(s, i, gap) == if s.slots[i].moving then Lost(s.gen, s.slots[i].lastUs, gap) else 0
  {
  }

  lemma {:induction false} PollBalance(g: Gen, r: Gen, last: nat, gap: nat, dt: nat, lands: bool, awake: bool)
    requires Tuned(g) && g.running && g.vMax >= 20 && dt <= gap
    requires !lands ==> Climbed(g, r) && r.rampLast >= last + dt
    ensures var time := if awake then dt else 0;
      Missing(g, time, time * g.speed) + (if lands then 0 else Lost(r, last + dt, gap)) <= Lost(g, last, gap)
  {
    hide Tuned, Climbed, Missing, Lost;
    if awake {
      GenLoss(g, r, last, gap, dt, lands);
      MissingIs(g, dt);
    } else {
      IdleStretch(g, r, last, gap, dt, lands);
      MissingSame(g, g, 0, 0);
    }
  }

  lemma MissingIs(g: Gen, dt: nat)
    ensures Missing(g, dt, dt * g.speed) == 2000000 * Up(g) * (g.vMax * dt - dt * g.speed)
  {
  }

  /** Asleep the time is not counted, but the ramp goes on. */
  lemma {:induction false} IdleStretch(g: Gen, r: Gen, last: nat, gap: nat, dt: nat, lands: bool)
    requires Tuned(g) && g.running && g.vMax >= 20 && dt <= gap
    requires !lands ==> Climbed(g, r) && r.rampLast >= last + dt
    ensures (if lands then 0 else Lost(r, last + dt, gap)) <= Lost(g, last, gap)
  {
    if !lands && r.vCur < r.vMax {
      ShortAfter(g, r, last, last + dt);
      var q := Up(g) * gap;
      assert Up(r) == Up(g) && q >= 0 && Up(g) * dt >= 0;
      var w, w1 := Short(g, last) + q, Short(r, last + dt) + q;
      ProductAtMost(w1, w1, w);
      ProductAtMost(w, w1, w);
      assert w1 * w1 <= w * w;
      hide Short, Up;
    }
  }

  lemma {:induction false} PollKeepsTime(s: St, i: nat, now: nat)
    requires Valid(s) && i < |s.slots| && s.slots[i].moving && s.slots[i].lastUs <= now < s.slots[i].lastUs + 0x1_0000_0000
    ensures Valid(Step(s, Poll(i, now))) && i < |Step(s, Poll(i, now)).slots| && Step(s, Poll(i, now)).slots[i].lastUs == now
    ensures AwakeOf(s, Poll(i, now), i) == if AwakeAt(s, i, now) then now - s.slots[i].lastUs else 0
  {
    PollSlot(s, i, now);
    var slot := s.slots[i].(lastUs := now, awake := AwakeAt(s, i, now));
    IntegrateOk(slot, s.gen.speed, Wrapped(now - s.slots[i].lastUs));
    hide UpdateProgress, Integrate, AwakeAt;
  }

  /** A call that does not poll the motor leaves its clock alone and adds no time. */
  lemma {:induction false} SlotKept(s: St, a: Act, i: nat)
    requires Valid(s) && i < |s.slots| && LeavesMove(a, i) && !(a.Poll? && a.i == i)
    ensures Valid(Step(s, a)) && |Step(s, a).slots| == |s.slots|
    ensures Step(s, a).slots[i].lastUs == s.slots[i].lastUs && AwakeOf(s, a, i) == 0 == WorkOf(s, a, i)
  {
    StepValid(s, a);
    if MovesOther(a, i) { OtherMotorsUntouched(s, a, i); }
    hide UpdateProgress, StartMoveAbs, AwakeAt;
  }

  lemma {:induction false} RestIdle(s: St, acts: seq<Act>, i: nat)
    requires Valid(s) && i < |s.slots| && !s.slots[i].moving && LeaveMove(acts, i)
    ensures AwakeTime(s, acts, i) == 0 == Work(s, acts, i)
    decreases |acts|
  {
    if acts != [] {
      StepValid(s, acts[0]);
      assert LeavesMove(acts[0], i);
      StaysIdle(s, acts[0], i);
      hide Step, LeavesMove;
      RestIdle(Step(s, acts[0]), acts[1..], i);
    }
  }

  lemma {:induction false} StaysIdle(s: St, a: Act, i: nat)
    requires Valid(s) && i < |s.slots| && !s.slots[i].moving && LeavesMove(a, i)
    ensures Valid(Step(s, a)) && |Step(s, a).slots| == |s.slots| && !Step(s, a).slots[i].moving
    ensures AwakeOf(s, a, i) == 0 == WorkOf(s, a, i)
  {
    StepValid(s, a);
    if MovesOther(a, i) { OtherMotorsUntouched(s, a, i); }
    hide StartMoveAbs, AwakeAt;
  }

  lemma SumMissing(g: Gen, time: nat, work: nat, more: nat, moreWork: nat)
    ensures Missing(g, time + more, work + moreWork) == Missing(g, time, work) + Missing(g, more, moreWork)
  {
    assert g.vMax * (time + more) == g.vMax * time + g.vMax * more;
  }

  lemma MissingSame(g: Gen, r: Gen, time: nat, work: nat)
    requires SameMove(g, r)
    ensures Missing(g, time, work) == Missing(r, time, work) && Missing(g, 0, 0) == 0
  {
  }

  /** Over any polling at least every gap microseconds, a climbing move loses no more against its top
      speed than the climb accounts for. */
  lemma {:induction false} RunLoss(s: St, acts: seq<Act>, i: nat, gap: nat)
    requires Climbing(s, i) && LeaveMove(acts, i) && LeaveRamp(acts) && PolledEvery(s, acts, i, gap) && gap < 0x1_0000_0000
    ensures Missing(s.gen, AwakeTime(s, acts, i), Work(s, acts, i)) <= LostBy(s, i, gap)
    decreases |acts|
  {
    if acts == [] {
      NothingMissing(s, i);
    } else {
      FirstOf(s, acts, i, gap);
      StepClimbing(s, acts[0], i);
      var r := Step(s, acts[0]);
      assert i < |r.slots|;
      hide *;
      if r.slots[i].moving {
        RunLoss(r, acts[1..], i, gap);
        assert Missing(r.gen, AwakeTime(r, acts[1..], i), Work(r, acts[1..], i)) <= LostBy(r, i, gap);
      }
      JoinLoss(s, acts, i, gap);
    }
  }

  lemma NothingMissing(s: St, i: nat)
    requires Valid(s) && i < |s.slots|
    ensures Missing(s.gen, AwakeTime(s, [], i), Work(s, [], i)) == 0
  {
    MissingSame(s.gen, s.gen, 0, 0);
    hide Missing;
  }

  lemma {:induction false} JoinLoss(s: St, acts: seq<Act>, i: nat, gap: nat)
    requires Climbing(s, i) && LeaveMove(acts, i) && LeaveRamp(acts) && PolledEvery(s, acts, i, gap) && gap < 0x1_0000_0000
    requires acts != [] && Valid(Step(s, acts[0])) && |Step(s, acts[0]).slots| == |s.slots|
    requires var r := Step(s, acts[0]);
      r.slots[i].moving ==> Missing(r.gen, AwakeTime(r, acts[1..], i), Work(r, acts[1..], i)) <= LostBy(r, i, gap)
    ensures Missing(s.gen, AwakeTime(s, acts, i), Work(s, acts, i)) <= LostBy(s, i, gap)
  {
    var r, rest := Step(s, acts[0]), acts[1..];
    FirstOf(s, acts, i, gap);
    StepLoss(s, acts[0], i, gap);
    StepClimbing(s, acts[0], i);
    hide *;
    RestLoss(s.gen, r, rest, i, gap);
    AddLoss(s.gen, AwakeOf(s, acts[0], i), WorkOf(s, acts[0], i), AwakeTime(r, rest, i), Work(r, rest, i),
            AwakeTime(s, acts, i), Work(s, acts, i), LostBy(r, i, gap), LostBy(s, i, gap));
  }

  lemma {:induction false} RestLoss(g: Gen, r: St, rest: seq<Act>, i: nat, gap: nat)
    requires Valid(r) && i < |r.slots| && LeaveMove(rest, i)
    requires r.slots[i].moving ==> Climbed(g, r.gen) && Missing(r.gen, AwakeTime(r, rest, i), Work(r, rest, i)) <= LostBy(r, i, gap)
    ensures Missing(g, AwakeTime(r, rest, i), Work(r, rest, i)) <= LostBy(r, i, gap)
  {
    if r.slots[i].moving {
      SameAlong(g, r.gen);
      MissingSame(g, r.gen, AwakeTime(r, rest, i), Work(r, rest, i));
    } else {
      RestIdle(r, rest, i);
      MissingSame(g, g, 0, 0);
    }
    hide Missing, LostBy, AwakeTime, Work, Climbed;
  }

  /** The first call of a run and the rest. */
  lemma FirstOf(s: St, acts: seq<Act>, i: nat, gap: nat)
    requires Valid(s) && acts != [] && LeaveMove(acts, i) && LeaveRamp(acts) && PolledEvery(s, acts, i, gap)
    ensures LeavesMove(acts[0], i) && LeavesRamp(acts[0]) && PollsWithin(s, acts[0], i, gap)
    ensures Valid(Step(s, acts[0])) && |Step(s, acts[0]).slots| == |s.slots|
    ensures LeaveMove(acts[1..], i) && LeaveRamp(acts[1..]) && PolledEvery(Step(s, acts[0]), acts[1..], i, gap)
    ensures AwakeTime(s, acts, i) == AwakeOf(s, acts[0], i) + AwakeTime(Step(s, acts[0]), acts[1..], i)
    ensures Work(s, acts, i) == WorkOf(s, acts[0], i) + Work(Step(s, acts[0]), acts[1..], i)
  {
    StepValid(s, acts[0]);
    hide Step, AwakeOf, WorkOf, LeavesMove, LeavesRamp;
    assert LeavesMove(acts[0], i) && LeavesRamp(acts[0]);
  }

  lemma SameAlong(g: Gen, r: Gen)
    requires Climbed(g, r)
    ensures SameMove(g, r)
  {
  }

  lemma AddLoss(g: Gen, time: nat, work: nat, more: nat, moreWork: nat, total: nat, totalWork: nat, left: int, lost: int)
    requires Missing(g, time, work) + left <= lost && Missing(g, more, moreWork) <= left
    requires total == time + more && totalWork == work + moreWork
    ensures Missing(g, total, totalWork) <= lost
  {
    SumMissing(g, time, work, more, moreWork);
    hide Missing;
  }

  /** Awake time that covers the steps at the top speed and what the climb loses. */
  predicate EnoughTime(g: Gen, steps: nat, lost: nat, time: nat) { Missing(g, time, 1000000 * steps) >= lost }

  /** So the move is over once its awake polls total the steps at its top speed and the loss. */
  lemma {:induction false} ClimbEndsInTime(s: St, acts: seq<Act>, i: nat, start: int, target: int, gap: nat)
    requires Climbing(s, i) && Flying(s.slots[i], start, target, 0) && gap < 0x1_0000_0000
    requires LeaveMove(acts, i) && LeaveRamp(acts) && PolledEvery(s, acts, i, gap)
    requires EnoughTime(s.gen, Distance(start, target), LostBy(s, i, gap), AwakeTime(s, acts, i))
    ensures Valid(Run(s, acts)) && |Run(s, acts).slots| == |s.slots| && Landed(Run(s, acts).slots[i], target)
  {
    StartExact(s.slots[i], start, target);
    assert Valid(s) && i < |s.slots|;
    hide *;
    EnoughWork(s, acts, i, Distance(start, target), gap);
    RunExact(s, acts, i, start, target, 0);
    LandedExactly(Run(s, acts).slots[i], start, target, Work(s, acts, i));
  }

  lemma {:induction false} EnoughWork(s: St, acts: seq<Act>, i: nat, steps: nat, gap: nat)
    requires Climbing(s, i) && gap < 0x1_0000_0000
    requires LeaveMove(acts, i) && LeaveRamp(acts) && PolledEvery(s, acts, i, gap)
    requires EnoughTime(s.gen, steps, LostBy(s, i, gap), AwakeTime(s, acts, i))
    ensures Work(s, acts, i) >= 1000000 * steps
  {
    RunLoss(s, acts, i, gap);
    var time, work := AwakeTime(s, acts, i), Work(s, acts, i);
    hide Missing, LostBy, AwakeTime, Work, Climbing, PolledEvery, LeaveMove, LeaveRamp;
    LessMissing(s.gen, time, 1000000 * steps, work);
  }

  lemma LessMissing(g: Gen, time: nat, steps: nat, work: nat)
    requires Missing(g, time, work) <= Missing(g, time, steps)
    ensures work >= steps
  {
    if work < steps { ScaleStrictly(Up(g), g.vMax * time - steps, g.vMax * time - work); }
  }

  lemma ScaleStrictly(up: nat, x: int, y: int)
    requires x < y && up > 0
    ensures 2000000 * up * x < 2000000 * up * y
  {
  }

  lemma LandedExactly(slot: Slot, start: int, target: int, work: nat)
    requires Exact(slot, start, target, work) && work >= 1000000 * Distance(start, target)
    ensures Landed(slot, target)
  {
  }

  // ---------------- from a start, and from begin ----------------

  lemma {:induction false} StartTuned(s: St, i: nat, target: int, speed: int, accel: int, now: nat)
    requires Valid(s) && Tuned(s.gen)
    ensures Tuned(StartMoveAbs(s, i, target, speed, accel, now).gen)
  {
    hide WindowFor, Booked, StartLines, StepPeriod;
    if i < |s.slots| && target != s.slots[i].pos {
      LinesKeepGen(s, i, Sign(target - s.slots[i].pos), NeedFlip(s, i, target), false);
      LinesKeepGen(s, i, Sign(target - s.slots[i].pos), NeedFlip(s, i, target), true);
    }
  }

  lemma LinesKeepGen(s: St, i: nat, dirSign: int, needFlip: bool, wait: bool)
    ensures var r := StartLines(s, i, dirSign, needFlip, wait); r.gen == s.gen && r.slots == s.slots && r.flips == s.flips
  {
  }

  lemma {:induction false} StepTuned(s: St, a: Act)
    requires Valid(s) && Tuned(s.gen) && PulsesWhileMoving(s)
    ensures Tuned(Step(s, a).gen)
  {
    match a
    case Start(i, target, speed, accel, now) => StartTuned(s, i, target, speed, accel, now);
    case Poll(i, now) => if i < |s.slots| && s.slots[i].moving { PollTuned(s, i, now); }
    case _ =>
  }

  lemma {:induction false} PollTuned(s: St, i: nat, now: nat)
    requires Valid(s) && i < |s.slots| && s.slots[i].moving && Tuned(s.gen) && PulsesWhileMoving(s)
    ensures Tuned(UpdateProgress(s, i, now).gen)
  {
    assert s.gen.running;
    var a := Advanced(s, i, now);
    AdvanceStartsNothing(s, i, now);
    RampFrame(a, now);
    hide RunFlipScheduler, Advance, AnyMoving, MinRemaining, Ramped, LatchSleep;
    if now > s.gen.rampLast { UpdateFollows(s.gen, MinRemaining(a.slots, |a.slots|), now); }
    NoUpdate(s.gen, MinRemaining(a.slots, |a.slots|), now);
    hide Follows;
    var s2 := UpdateRamp(a, now);
    assert Tuned(s2.gen);
    hide UpdateRamp;
    if !s2.slots[i].moving { ArrivedTuned(s2, i); }
  }

  lemma NoUpdate(g: Gen, left: nat, now: nat)
    ensures now <= g.rampLast ==> Ramped(g, left, now) == g
  {
  }

  lemma ArrivedTuned(s: St, i: nat)
    requires Valid(s) && i < |s.slots| && Tuned(s.gen)
    ensures Tuned(Arrived(s, i).gen)
  {
    LatchSleepKeeps(s.(slots := s.slots[i := s.slots[i].(awake := false)]), i);
    hide LatchSleep, AnyMoving;
  }

  /** Over every careful run the generator, while it runs, pulses at the ramp's speed, but never slower
      than 20 steps a second. */
  lemma {:induction false} RunTuned(s: St, acts: seq<Act>, cap: nat)
    requires Inv(s, cap) && cap >= MIN_GEN_SPS && CarefulRun(s, acts, cap) && Tuned(s.gen)
    ensures Inv(Run(s, acts), cap) && Tuned(Run(s, acts).gen)
    decreases |acts|
  {
    if acts != [] {
      StepKeepsInv(s, acts[0], cap);
      StepTuned(s, acts[0]);
      hide Inv, Step, Careful, Tuned;
      RunTuned(Step(s, acts[0]), acts[1..], cap);
    }
  }

  /** A move started with the generator at rest starts at 20 steps a second with its own top speed and
      acceleration. */
  lemma {:induction false} StartClimbs(s: St, i: nat, target: int, speed: int, accel: int, now: nat)
    requires Valid(s) && i < |s.slots| && target != s.slots[i].pos && !s.gen.running && s.gen.decel == 0
    requires s.gen.dvAcc < 1000000 && speed >= 20 && accel > 0
    ensures var r := StartMoveAbs(s, i, target, speed, accel, now);
      && Climbing(r, i) && r.gen.vMax == speed && r.gen.accel == accel && r.gen.vCur == 20
      && r.gen.rampLast == now == r.slots[i].lastUs
  {
    hide WindowFor, Booked, StartLines, StepPeriod;
    LinesKeepGen(s, i, Sign(target - s.slots[i].pos), NeedFlip(s, i, target), false);
    LinesKeepGen(s, i, Sign(target - s.slots[i].pos), NeedFlip(s, i, target), true);
  }

  /** Time for the steps at the given speed, for half the climb from 20 steps a second at the given
      acceleration, and for the polling: speed * time - 10^6 * steps is at least w^2 / (2 * 10^6 * accel)
      + w / accel, where w = 10^6 * (speed - 20) + accel * gap. */
  predicate EnoughToClimb(steps: nat, speed: nat, accel: nat, gap: nat, time: nat) {
    var w := 1000000 * (speed - 20) + accel * gap;
    2000000 * accel * (speed * time - 1000000 * steps) >= w * w + 2000000 * w
  }

  lemma {:induction false} StartLoses(g: Gen, now: nat, gap: nat)
    requires g.vMax >= 20 == g.vCur && g.accel > 0 && g.rampLast == now
    ensures var w := 1000000 * (g.vMax - 20) + g.accel * gap; 0 <= w && Lost(g, now, gap) <= w * w + 2000000 * w
  {
    var q := g.accel * gap;
    assert q >= 0 && Up(g) == g.accel;
    if g.vCur < g.vMax {
      var w, w1 := 1000000 * (g.vMax - 20) + q, Short(g, now) + q;
      assert Up(g) * 0 == 0;
      assert Short(g, now) == 1000000 * (g.vMax - 20) - g.dvAcc;
      assert w1 <= w;
      if w1 < 0 { assert Lost(g, now, gap) == 0; return; }
      ProductAtMost(w1, w1, w);
      ProductAtMost(w, w1, w);
    }
  }

  /** A move started in any state reached from begin with the generator at rest and no deceleration set,
      polled at least every gap microseconds while no other move is started, is over once its awake time
      is enough for its steps at its own speed and acceleration. */
  lemma {:induction false} MoveEndsWithinClimb(count: nat, before: seq<Act>, s: St, s1: St, i: nat, target: int,
                                               speed: int, accel: int, now: nat, acts: seq<Act>, gap: nat, cap: nat)
    requires cap >= MIN_GEN_SPS && CarefulRun(Begin(count), before, cap) && s == Run(Begin(count), before) && Valid(s)
    requires i < |s.slots| && target != s.slots[i].pos && !s.gen.running && s.gen.decel == 0 && speed >= 20 && accel > 0
    requires s1 == StartMoveAbs(s, i, target, speed, accel, now) && Valid(s1) && gap < 0x1_0000_0000
    requires LeaveMove(acts, i) && LeaveRamp(acts) && PolledEvery(s1, acts, i, gap)
    requires EnoughToClimb(Distance(s.slots[i].pos, target), speed, accel, gap, AwakeTime(s1, acts, i))
    ensures Valid(Run(s1, acts)) && |Run(s1, acts).slots| == |s.slots| && Landed(Run(s1, acts).slots[i], target)
  {
    BeginInv(count, cap);
    assert Tuned(Begin(count).gen);
    RunTuned(Begin(count), before, cap);
    StartFlies(s, i, target, speed, accel, now);
    StartClimbs(s, i, target, speed, accel, now);
    StartLoses(s1.gen, now, gap);
    EnoughIs(s1, i, Distance(s.slots[i].pos, target), gap, AwakeTime(s1, acts, i));
    hide *;
    ClimbEndsInTime(s1, acts, i, s.slots[i].pos, target, gap);
  }

  lemma EnoughIs(s: St, i: nat, steps: nat, gap: nat, time: nat)
    requires Climbing(s, i) && s.gen.accel > 0
    requires var w := 1000000 * (s.gen.vMax - 20) + s.gen.accel * gap;
      0 <= w && Lost(s.gen, s.slots[i].lastUs, gap) <= w * w + 2000000 * w
    ensures EnoughToClimb(steps, s.gen.vMax, s.gen.accel, gap, time) ==> EnoughTime(s.gen, steps, LostBy(s, i, gap), time)
  {
    hide Lost;
  }
}
