/** When MOVE, HOME, WAKE and SLEEP are accepted and what they then change, in terms of the
    motors after the handler's tick: positions, budgets in tenths and estimates. */
module Admission {
  import opened IntegerMath
  import opened MotionKinematics
  import opened MotorTypes
  import opened StubBackend
  import opened CommandHandlers
  import opened ThermalRuns
  import opened ThermalLimits

  predicate Selected(t: Stub, mask: Mask, i: int) { 0 <= i < |t.units| && i in mask }

  /** No selected motor moves. */
  ghost predicate Still(t: Stub, mask: Mask) { forall i :: Selected(t, mask, i) ==> !t.units[i].m.moving }

  /** The budget, ten tenths a second, covers the seconds. */
  predicate Pays(m: MotorState, seconds: nat) { seconds == 0 || m.budgetTenths >= 10 * seconds }

  /** Milliseconds in whole seconds, rounded up. */
  function SecondsFor(ms: nat): nat { (ms + 999) / 1000 }

  /** The seconds of budget a refusal reports, and the seconds until the budget is full. */
  predicate Reports(m: MotorState, budgetS: int, ttfcS: int) {
    budgetS == (if m.budgetTenths < 0 then 0 else m.budgetTenths / 10) && ttfcS == (10 * (900 - m.budgetTenths) + 14) / 15 / 10
  }

  lemma {:induction false} ReportsIs(m: MotorState)
    requires BudgetInRange(m)
    ensures Reports(m, AvailableSeconds(m), TtfcTenths(m.budgetTenths) / 10)
  {
  }

  lemma {:induction false} ShortIff(t: Stub, mask: Mask, seconds: nat, i: nat)
    requires i < |t.units|
    ensures ShortAt(t, mask, seconds, i) <==> i in mask && !Pays(t.units[i].m, seconds)
  {
  }

  // ---------------- starting an operation ----------------

  /** Every selected motor is awake and moving with a plan of its own, and the others are as they
      were; books, position and what was counted since HOME are untouched. */
  ghost predicate StartsAll(t: Stub, r: Stub, mask: Mask, isHome: bool, target: int, speed: int, accel: int,
                            ms: nat -> nat, now: nat) {
    && |r.units| == |t.units| && r.limits == t.limits
    && forall i :: 0 <= i < |t.units| ==>
         if i !in mask then r.units[i] == t.units[i]
         else
           && r.units[i].p == MovePlan(true, isHome, target, now + ms(i), t.units[i].m.position)
           && r.units[i].m == t.units[i].m.(awake := true, moving := true, speed := speed, accel := accel,
                                            lastOpType := if isHome then HomeOp else MoveOp, lastOpStartedMs := now,
                                            lastOpEstMs := ms(i), lastOpOngoing := true)
  }

  lemma AllowedIff(t: Stub, op: Op)
    requires !op.Wake?
    ensures OpAllowed(t, op) <==> Still(t, op.mask)
  {
    if !Still(t, op.mask) {
      var i :| Selected(t, op.mask, i) && t.units[i].m.moving;
    }
  }

  // ---------------- MOVE ----------------

  /** The estimate of one motor for the move. */
  function MoveMsOf(t: Stub, target: int, speed: int, accel: int): nat -> nat {
    (i: nat) => if i < |t.units| then MoveTime(Abs(target - t.units[i].m.position), speed, accel) else 0
  }

  /** No selected motor would run for more than ninety seconds. */
  ghost predicate WithinMax(t: Stub, mask: Mask, ms: nat -> nat) { forall i :: Selected(t, mask, i) ==> ms(i) <= 90000 }

  /** The longest estimate of the selected motors, or 0. */
  ghost predicate IsLongestOf(t: Stub, mask: Mask, ms: nat -> nat, longest: nat) {
    && (forall i :: Selected(t, mask, i) ==> ms(i) <= longest)
    && (longest > 0 ==> exists i :: Selected(t, mask, i) && ms(i) == longest)
  }

  /** Every selected motor pays for the longest estimate, that is, for every estimate. */
  ghost predicate AllPay(t: Stub, mask: Mask, ms: nat -> nat) {
    forall i, k :: Selected(t, mask, i) && Selected(t, mask, k) ==> Pays(t.units[k].m, SecondsFor(ms(i)))
  }

  /** The first selected motor over ninety seconds. */
  ghost predicate FirstOver(t: Stub, mask: Mask, ms: nat -> nat, id: nat) {
    Selected(t, mask, id) && ms(id) > 90000 && forall k :: Selected(t, mask, k) && k < id ==> ms(k) <= 90000
  }

  /** The first selected motor that cannot pay. */
  ghost predicate FirstUnable(t: Stub, mask: Mask, seconds: nat, id: nat) {
    Selected(t, mask, id) && !Pays(t.units[id].m, seconds)
    && forall k :: Selected(t, mask, k) && k < id ==> Pays(t.units[k].m, seconds)
  }

  lemma LongestPays(t: Stub, mask: Mask, ms: nat -> nat, longest: nat)
    requires IsLongestOf(t, mask, ms, longest)
    ensures AllPay(t, mask, ms) <==> forall k :: Selected(t, mask, k) ==> Pays(t.units[k].m, SecondsFor(longest))
  {
    if longest > 0 {
      var i :| Selected(t, mask, i) && ms(i) == longest;
    }
    forall i, k | Selected(t, mask, i) && Selected(t, mask, k) && Pays(t.units[k].m, SecondsFor(longest))
      ensures Pays(t.units[k].m, SecondsFor(ms(i)))
    {
    }
  }

  /** What the handler computes on the way, in these terms. */
  lemma {:induction false} MoveScan(t: Stub, mask: Mask, target: int, speed: int, accel: int, now: nat)
    requires Inv(t, now) && MIN_POS_STEPS <= target <= MAX_POS_STEPS
    ensures var ms, estimates := MoveMsOf(t, target, speed, accel), MoveEstimates(t, target, speed, accel);
      var over := FirstOverMax(estimates, mask, 0);
      var longest := MaxSelected(estimates, mask, |estimates|);
      && (forall i: nat :: i < |t.units| ==> estimates[i] == ms(i) <= 4800000)
      && (over == |t.units| <==> WithinMax(t, mask, ms)) && (over < |t.units| ==> FirstOver(t, mask, ms, over))
      && IsLongestOf(t, mask, ms, longest) && ReqSeconds(longest) == SecondsFor(longest)
  {
    var ms, estimates := MoveMsOf(t, target, speed, accel), MoveEstimates(t, target, speed, accel);
    forall i: nat | i < |t.units| ensures estimates[i] == ms(i) <= 4800000 {
      assert UnitOk(t.units[i], now);
      MoveMsSmall(t.units[i], target, speed, accel);
    }
    hide MoveMsOf, MoveEstimates, MoveTime;
    OverIs(t, estimates, mask, ms);
    MaxSelectedSmall(estimates, mask, |estimates|, 4800000);
    MaxIsOne(estimates, mask, |estimates|);
  }

  lemma {:induction false} OverIs(t: Stub, estimates: seq<nat>, mask: Mask, ms: nat -> nat)
    requires |estimates| == |t.units| && forall i: nat :: i < |t.units| ==> estimates[i] == ms(i) <= 4800000
    ensures var over := FirstOverMax(estimates, mask, 0);
      (over == |t.units| <==> WithinMax(t, mask, ms)) && (over < |t.units| ==> FirstOver(t, mask, ms, over))
  {
    forall i: nat | i < |t.units| ensures OverMaxAt(estimates, mask, i) <==> i in mask && ms(i) > 90000 {
    }
    hide OverMaxAt;
  }

  lemma {:induction false} UnableIs(t: Stub, mask: Mask, seconds: nat)
    ensures var short := FirstShort(t, mask, seconds, 0);
      && (short == |t.units| <==> forall k :: Selected(t, mask, k) ==> Pays(t.units[k].m, seconds))
      && (short < |t.units| ==> FirstUnable(t, mask, seconds, short))
  {
    forall i: nat | i < |t.units| ensures ShortAt(t, mask, seconds, i) <==> i in mask && !Pays(t.units[i].m, seconds) {
      ShortIff(t, mask, seconds, i);
    }
    hide ShortAt, Pays;
  }

  /** The first reason not to grant a MOVE: a motor over ninety seconds, else one that cannot pay for
      the longest estimate. */
  datatype Reason = NoReason(longest: nat) | TooLong(id: nat, ms: nat) | TooPoor(id: nat, ms: nat, budgetS: int, ttfcS: int)

  ghost predicate IsReason(t: Stub, mask: Mask, ms: nat -> nat, reason: Reason) {
    match reason
    case NoReason(longest) => WithinMax(t, mask, ms) && AllPay(t, mask, ms) && IsLongestOf(t, mask, ms, longest)
    case TooLong(id, its) => FirstOver(t, mask, ms, id) && its == ms(id)
    case TooPoor(id, longest, budgetS, ttfcS) =>
      && WithinMax(t, mask, ms) && IsLongestOf(t, mask, ms, longest)
      && FirstUnable(t, mask, SecondsFor(longest), id) && Reports(t.units[id].m, budgetS, ttfcS)
  }

  /** With limits on the reason refuses the command; with limits off it becomes a warning. */
  function Answer(limits: bool, still: bool, reason: Reason): Reply {
    match reason
    case NoReason(longest) => if still then Accepted(NoWarning, longest) else Busy
    case TooLong(id, ms) => if limits then OverMax(id, ms) else if still then Accepted(WarnOverMax(id, ms), ms) else Busy
    case TooPoor(id, ms, budgetS, ttfcS) =>
      if limits then NoBudget(id, ms, budgetS, ttfcS)
      else if still then Accepted(WarnNoBudget(id, ms, budgetS, ttfcS), ms) else Busy
  }

  function StillNow(t: Stub, mask: Mask): (still: bool)
    ensures still <==> Still(t, mask)
  {
    forall i :: 0 <= i < |t.units| && i in mask ==> !t.units[i].m.moving
  }

  /** A MOVE with valid parameters is answered by its reason, and starts all its motors or none. */
  lemma {:induction false} MoveAnswered(s: Stub, mask: Mask, target: int, speed: int, accel: int, before: nat, now: nat)
    returns (reason: Reason)
    requires Inv(s, before) && before <= now && -1200 <= target <= 1200 && speed > 0 && accel > 0
    ensures var t, ms := Tick(s, now), MoveMsOf(Tick(s, now), target, speed, accel);
      var (r, reply) := HandleMove(s, mask, target, speed, accel, now);
      && IsReason(t, mask, ms, reason) && reply == Answer(s.limits, StillNow(t, mask), reason)
      && (if reply.Accepted? then StartsAll(t, r, mask, false, target, speed, accel, ms, now) else r == t)
  {
    var t := Tick(s, now);
    TickInv(s, before, now);
    MoveStarts(t, mask, target, speed, accel, now);
    assert t.limits == s.limits;
    hide Tick, MoveMsOf, Inv, StartsAll, IsReason, Answer, AdmitMove, StillNow;
    reason := MoveReason(t, mask, target, speed, accel, now);
  }

  lemma {:induction false} MoveReason(t: Stub, mask: Mask, target: int, speed: int, accel: int, now: nat)
    returns (reason: Reason)
    requires Inv(t, now) && MIN_POS_STEPS <= target <= MAX_POS_STEPS
    ensures var (r, reply) := AdmitMove(t, mask, target, speed, accel, now);
      && IsReason(t, mask, MoveMsOf(t, target, speed, accel), reason) && reply == Answer(t.limits, StillNow(t, mask), reason)
      && (if reply.Accepted? then OpAllowed(t, MoveAbs(mask, target, speed, accel))
                                  && r == Apply(t, MoveAbs(mask, target, speed, accel), now)
          else r == t || (!OpAllowed(t, MoveAbs(mask, target, speed, accel))
                          && r == Apply(t, MoveAbs(mask, target, speed, accel), now)))
  {
    var op, ms, estimates := MoveAbs(mask, target, speed, accel), MoveMsOf(t, target, speed, accel), MoveEstimates(t, target, speed, accel);
    MoveScan(t, mask, target, speed, accel, now);
    var over, longest := FirstOverMax(estimates, mask, 0), MaxSelected(estimates, mask, |estimates|);
    UnableIs(t, mask, SecondsFor(longest));
    LongestPays(t, mask, ms, longest);
    AllowedIff(t, op);
    var short := FirstShort(t, mask, SecondsFor(longest), 0);
    if short < |t.units| {
      assert UnitOk(t.units[short], now);
      ReportsIs(t.units[short].m);
    }
    hide MoveMsOf, MoveEstimates, ReqSeconds, SecondsFor, MaxSelected, FirstShort, FirstOverMax, Inv, Still, OpAllowed, Apply,
      Reports, AvailableSeconds, TtfcTenths, AllPay, WithinMax, IsLongestOf, FirstOver, FirstUnable, Pays, MoveTime, UnitOk;
    reason := if over < |t.units| then TooLong(over, ms(over))
              else if short < |t.units| then
                TooPoor(short, longest, AvailableSeconds(t.units[short].m), TtfcTenths(t.units[short].m.budgetTenths) / 10)
              else NoReason(longest);
  }

  lemma {:induction false} TickInv(s: Stub, before: nat, now: nat)
    requires Inv(s, before) && before <= now
    ensures Inv(Tick(s, now), now)
  {
    hide TickUnit;
    forall i | 0 <= i < |s.units| ensures UnitOk(Tick(s, now).units[i], now) { TickUnitOk(s.units[i], s.limits, before, now); }
  }

  lemma {:induction false} MoveStarts(t: Stub, mask: Mask, target: int, speed: int, accel: int, now: nat)
    requires Inv(t, now) && MIN_POS_STEPS <= target <= MAX_POS_STEPS
    ensures OpAllowed(t, MoveAbs(mask, target, speed, accel)) ==>
      StartsAll(t, Apply(t, MoveAbs(mask, target, speed, accel), now), mask, false, target, speed, accel,
                MoveMsOf(t, target, speed, accel), now)
    ensures !OpAllowed(t, MoveAbs(mask, target, speed, accel)) ==> Apply(t, MoveAbs(mask, target, speed, accel), now) == t
  {
    hide MoveTime;
    forall i: nat | i < |t.units| ensures MoveMs(t.units[i], target, speed, accel) == MoveMsOf(t, target, speed, accel)(i) {
      assert UnitOk(t.units[i], now);
      MoveMsSmall(t.units[i], target, speed, accel);
    }
    hide MoveMs, MoveMsOf, AnyMoving;
  }

  /** With limits on, a MOVE is accepted if and only if its parameters are valid and after the tick
      no selected motor moves, none would run for more than ninety seconds, and each has ten tenths
      of budget for every second begun of the longest estimate. */
  lemma {:induction false} MoveAcceptedIff(s: Stub, mask: Mask, target: int, speed: int, accel: int, before: nat, now: nat)
    requires Inv(s, before) && before <= now && s.limits
    ensures var t, ms := Tick(s, now), MoveMsOf(Tick(s, now), target, speed, accel);
      HandleMove(s, mask, target, speed, accel, now).1.Accepted? <==>
        && -1200 <= target <= 1200 && speed > 0 && accel > 0
        && Still(t, mask) && WithinMax(t, mask, ms) && AllPay(t, mask, ms)
  {
    if -1200 <= target <= 1200 && speed > 0 && accel > 0 {
      var t, ms := Tick(s, now), MoveMsOf(Tick(s, now), target, speed, accel);
      var reason := MoveAnswered(s, mask, target, speed, accel, before, now);
      hide HandleMove, Tick, MoveMsOf, Still, SecondsFor;
      if reason.TooPoor? { LongestPays(t, mask, ms, reason.ms); }
    }
  }

  /** With limits off only moving motors and bad parameters refuse it. */
  lemma {:induction false} UnlimitedMoveAcceptedIff(s: Stub, mask: Mask, target: int, speed: int, accel: int, before: nat, now: nat)
    requires Inv(s, before) && before <= now && !s.limits
    ensures HandleMove(s, mask, target, speed, accel, now).1.Accepted? <==>
        -1200 <= target <= 1200 && speed > 0 && accel > 0 && Still(Tick(s, now), mask)
  {
    if -1200 <= target <= 1200 && speed > 0 && accel > 0 {
      var reason := MoveAnswered(s, mask, target, speed, accel, before, now);
      hide HandleMove, Tick, MoveMsOf, Still, IsReason;
    }
  }

  // ---------------- HOME ----------------

  /** The time of the three legs, added up in 32 bits. */
  function HomeMs(overshoot: int, backoff: int, fullRange: int, speed: int, accel: int): nat {
    var range := if fullRange <= 0 then 2400 else fullRange;
    (MoveTime(range + Abs(overshoot), speed, accel) + MoveTime(Abs(backoff), speed, accel)
     + MoveTime(range / 2, speed, accel)) % 0x1_0000_0000
  }

  /** Rounded up to seconds in 32 bits too. */
  function HomeNeeds(overshoot: int, backoff: int, fullRange: int, speed: int, accel: int): nat {
    (HomeMs(overshoot, backoff, fullRange, speed, accel) + 999) % 0x1_0000_0000 / 1000
  }

  lemma {:induction false} HomeMsIs(overshoot: int, backoff: int, fullRange: int, speed: int, accel: int)
    ensures HomeReqMs(overshoot, backoff, fullRange, speed, accel) == HomeMs(overshoot, backoff, fullRange, speed, accel)
    ensures ReqSeconds(HomeReqMs(overshoot, backoff, fullRange, speed, accel))
         == HomeNeeds(overshoot, backoff, fullRange, speed, accel)
  {
    hide MoveTime, Cut;
    var range := if fullRange <= 0 then 2400 else fullRange;
    assert range == RangeOrDefault(fullRange) == Abs(RangeOrDefault(fullRange));
    CutSum(MoveTime(range + Abs(overshoot), speed, accel), MoveTime(Abs(backoff), speed, accel),
           MoveTime(range / 2, speed, accel));
    CutIs(HomeMs(overshoot, backoff, fullRange, speed, accel) + 999);
  }

  ghost predicate IsHomeReason(t: Stub, mask: Mask, ms: nat, seconds: nat, reason: Reason) {
    match reason
    case NoReason(its) => seconds <= 90 && its == ms && forall k :: Selected(t, mask, k) ==> Pays(t.units[k].m, seconds)
    case TooLong(id, its) =>
      && seconds > 90 && its == ms && id <= |t.units| && (id < |t.units| ==> id in mask)
      && forall k :: Selected(t, mask, k) ==> k >= id
    case TooPoor(id, its, budgetS, ttfcS) =>
      seconds <= 90 && its == ms && FirstUnable(t, mask, seconds, id) && Reports(t.units[id].m, budgetS, ttfcS)
  }

  /** The duration a HOME is played for, both legs added up in 32 bits. */
  function PlayedMs(overshoot: int, backoff: int, speed: int, accel: int): nat {
    (MoveTime(Abs(overshoot), speed, accel) + MoveTime(Abs(backoff), speed, accel)) % 0x1_0000_0000
  }

  /** A HOME with valid parameters is answered by its reason, and starts all its motors or none. */
  lemma {:induction false} HomeAnswered(s: Stub, mask: Mask, overshoot: int, backoff: int, fullRange: int,
                                        speed: int, accel: int, before: nat, now: nat)
    returns (reason: Reason)
    requires Inv(s, before) && before <= now && speed > 0 && accel > 0
    ensures var t := Tick(s, now);
      var (r, reply) := HandleHome(s, mask, overshoot, backoff, fullRange, speed, accel, now);
      && IsHomeReason(t, mask, HomeMs(overshoot, backoff, fullRange, speed, accel),
                      HomeNeeds(overshoot, backoff, fullRange, speed, accel), reason)
      && reply == Answer(s.limits, StillNow(t, mask), reason)
      && (if reply.Accepted?
          then StartsAll(t, r, mask, true, 0, speed, accel, (_: nat) => PlayedMs(overshoot, backoff, speed, accel), now)
          else r == t)
  {
    var t := Tick(s, now);
    TickInv(s, before, now);
    HomeStarts(t, mask, overshoot, backoff, speed, accel, now);
    assert t.limits == s.limits;
    hide Tick, Inv, StartsAll, IsHomeReason, Answer, AdmitHome, StillNow, HomeMs, HomeNeeds, PlayedMs;
    reason := HomeReason(t, mask, overshoot, backoff, fullRange, speed, accel, now);
  }

  lemma {:induction false} HomeReason(t: Stub, mask: Mask, overshoot: int, backoff: int, fullRange: int,
                                      speed: int, accel: int, now: nat)
    returns (reason: Reason)
    requires Inv(t, now)
    ensures var op := Home(mask, overshoot, backoff, speed, accel);
      var (r, reply) := AdmitHome(t, mask, overshoot, backoff, fullRange, speed, accel, now);
      && IsHomeReason(t, mask, HomeMs(overshoot, backoff, fullRange, speed, accel),
                      HomeNeeds(overshoot, backoff, fullRange, speed, accel), reason)
      && reply == Answer(t.limits, StillNow(t, mask), reason)
      && (if reply.Accepted? then OpAllowed(t, op) && r == Apply(t, op, now)
          else r == t || (!OpAllowed(t, op) && r == Apply(t, op, now)))
  {
    HomeMsIs(overshoot, backoff, fullRange, speed, accel);
    var ms, seconds := HomeMs(overshoot, backoff, fullRange, speed, accel), HomeNeeds(overshoot, backoff, fullRange, speed, accel);
    UnableIs(t, mask, seconds);
    AllowedIff(t, Home(mask, overshoot, backoff, speed, accel));
    var short := FirstShort(t, mask, seconds, 0);
    reason := if seconds > 90 then TooLong(FirstSelected(mask, 0, |t.units|), ms)
              else if short < |t.units| then
                TooPoor(short, ms, AvailableSeconds(t.units[short].m), TtfcTenths(t.units[short].m.budgetTenths) / 10)
              else NoReason(ms);
    if seconds <= 90 && short < |t.units| {
      assert UnitOk(t.units[short], now);
      ReportsIs(t.units[short].m);
    }
    hide HomeReqMs, HomeMs, HomeNeeds, ReqSeconds, FirstShort, Inv, Still, OpAllowed, Apply, Reports, AvailableSeconds,
      TtfcTenths, FirstUnable, Pays;
  }

  lemma {:induction false} HomeStarts(t: Stub, mask: Mask, overshoot: int, backoff: int, speed: int, accel: int, now: nat)
    ensures var op, played := Home(mask, overshoot, backoff, speed, accel), PlayedMs(overshoot, backoff, speed, accel);
      && (OpAllowed(t, op) ==> StartsAll(t, Apply(t, op, now), mask, true, 0, speed, accel, (_: nat) => played, now))
      && (!OpAllowed(t, op) ==> Apply(t, op, now) == t)
  {
    CutSum(MoveTime(Abs(overshoot), speed, accel), MoveTime(Abs(backoff), speed, accel), 0);
    hide MoveTime, Cut;
    assert StubHomeMs(overshoot, backoff, speed, accel) == PlayedMs(overshoot, backoff, speed, accel);
    hide StubHomeMs, PlayedMs, AnyMoving;
  }

  /** With limits on, a HOME is accepted if and only if its parameters are valid and after the tick no
      selected motor moves, and its seconds, counted in 32 bits, are at most ninety and paid for. */
  lemma {:induction false} HomeAcceptedIff(s: Stub, mask: Mask, overshoot: int, backoff: int, fullRange: int,
                                           speed: int, accel: int, before: nat, now: nat)
    requires Inv(s, before) && before <= now && s.limits
    ensures var t, seconds := Tick(s, now), HomeNeeds(overshoot, backoff, fullRange, speed, accel);
      HandleHome(s, mask, overshoot, backoff, fullRange, speed, accel, now).1.Accepted? <==>
        && speed > 0 && accel > 0 && Still(t, mask) && seconds <= 90
        && forall k :: Selected(t, mask, k) ==> Pays(t.units[k].m, seconds)
  {
    if speed > 0 && accel > 0 {
      var reason := HomeAnswered(s, mask, overshoot, backoff, fullRange, speed, accel, before, now);
      hide HandleHome, Tick, Still, HomeMs, HomeNeeds, Pays;
    }
  }

  // ---------------- WAKE and SLEEP ----------------

  /** Every selected motor has this wakefulness now, and nothing else changed. */
  ghost predicate AwakeNow(t: Stub, r: Stub, mask: Mask, awake: bool) {
    && |r.units| == |t.units| && r.limits == t.limits
    && forall i :: 0 <= i < |t.units| ==>
         r.units[i] == if i in mask then t.units[i].(m := t.units[i].m.(awake := awake)) else t.units[i]
  }

  /** WAKE wakes every selected motor, unless limits are on and one of them has less than a second of
      budget; with limits off that is a warning. */
  lemma {:induction false} WakeAnswered(s: Stub, mask: Mask, now: nat)
    ensures var t := Tick(s, now);
      var (r, reply) := HandleWake(s, mask, now);
      var paid := forall i :: Selected(t, mask, i) ==> t.units[i].m.budgetTenths >= 10;
      if s.limits && !paid then reply == NoBudgetWake && r == t else reply == Done(!paid) && AwakeNow(t, r, mask, true)
  {
    var t := Tick(s, now);
    UnableIs(t, mask, 1);
    WakeUnits(t, mask, now);
    hide Tick, Apply;
  }

  lemma WakeUnits(t: Stub, mask: Mask, now: nat)
    ensures AwakeNow(t, Apply(t, Wake(mask), now), mask, true)
    ensures AwakeNow(t, Apply(t, Sleep(mask), now), mask, false) || (!Still(t, mask) && Apply(t, Sleep(mask), now) == t)
  {
    AllowedIff(t, Sleep(mask));
    hide Still, AnyMoving;
  }

  /** SLEEP puts every selected motor to sleep, unless one of them moves. */
  lemma {:induction false} SleepAnswered(s: Stub, mask: Mask, now: nat)
    ensures var t := Tick(s, now);
      var (r, reply) := HandleSleep(s, mask, now);
      if Still(t, mask) then reply == Done(false) && AwakeNow(t, r, mask, false) else reply == Busy && r == t
  {
    var t := Tick(s, now);
    AllowedIff(t, Sleep(mask));
    WakeUnits(t, mask, now);
    hide Tick, Still;
  }
}
