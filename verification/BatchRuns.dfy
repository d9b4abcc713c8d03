/** A batch of commands as the executor runs it: handler after handler at one time, each with
    the tick it begins with.

    Models the dispatch loop of lib/MotorControl/src/command/CommandBatchExecutor.cpp on the
    stub backend, for the commands that select motors. */
module BatchRuns {
  import opened IntegerMath
  import opened MotionKinematics
  import opened MotorTypes
  import opened StubBackend
  import opened CommandHandlers
  import opened ThermalRuns
  import opened BatchOrder

  /** The commands whose masks the overlap check compares. */
  predicate Motion(c: Command) { c.MoveCmd? || c.HomeCmd? || c.WakeCmd? || c.SleepCmd? }

  type MotionCmd = c: Command | Motion(c) witness WakeCmd({})

  function Handle(s: Stub, c: MotionCmd, now: nat): (Stub, Reply) {
    match c
    case MoveCmd(mask, target, speed, accel) => HandleMove(s, mask, target, speed, accel, now)
    case HomeCmd(mask, overshoot, backoff, fullRange, speed, accel) =>
      HandleHome(s, mask, overshoot, backoff, fullRange, speed, accel, now)
    case WakeCmd(mask) => HandleWake(s, mask, now)
    case SleepCmd(mask) => HandleSleep(s, mask, now)
  }

  /** A refused MOVE or HOME ends the batch. A refused WAKE or SLEEP answers an error line but
      is not flagged as one. */
  predicate Stops(c: MotionCmd, reply: Reply) { (c.MoveCmd? || c.HomeCmd?) && !reply.Accepted? }

  function Execute(s: Stub, cs: seq<MotionCmd>, now: nat): (Stub, seq<Reply>)
    decreases |cs|
  {
    if cs == [] then (s, [])
    else
      var (s1, reply) := Handle(s, cs[0], now);
      if Stops(cs[0], reply) then (s1, [reply])
      else
        var (r, replies) := Execute(s1, cs[1..], now);
        (r, [reply] + replies)
  }

  /** No command stops the batch. */
  predicate Finishes(s: Stub, cs: seq<MotionCmd>, now: nat)
    decreases |cs|
  {
    cs == [] || (!Stops(cs[0], Handle(s, cs[0], now).1) && Finishes(Handle(s, cs[0], now).0, cs[1..], now))
  }

  method Dispatch(c: StubMotorController, cmd: MotionCmd, now: nat) returns (reply: Reply)
    requires c.Valid()
    modifies c.motors, c.plans
    ensures (c.Model(), reply) == Handle(old(c.Model()), cmd, now)
  {
    hide HandleMove, HandleHome, HandleWake, HandleSleep;
    match cmd
    case MoveCmd(mask, target, speed, accel) => reply := RunMove(c, mask, target, speed, accel, now);
    case HomeCmd(mask, overshoot, backoff, fullRange, speed, accel) =>
      reply := RunHome(c, mask, overshoot, backoff, fullRange, speed, accel, now);
    case WakeCmd(mask) => reply := RunWake(c, mask, now);
    case SleepCmd(mask) => reply := RunSleep(c, mask, now);
  }

  method RunBatch(c: StubMotorController, cs: seq<MotionCmd>, now: nat) returns (replies: seq<Reply>)
    requires c.Valid()
    modifies c.motors, c.plans
    ensures (c.Model(), replies) == Execute(old(c.Model()), cs, now)
  {
    hide Handle;
    ghost var s0 := c.Model();
    replies := [];
    assert cs[0..] == cs;
    PrependNothing(Execute(s0, cs, now));
    for k := 0 to |cs|
      invariant c.Valid() && Prepend(replies, Execute(c.Model(), cs[k..], now)) == Execute(s0, cs, now)
    {
      ghost var s := c.Model();
      assert cs[k..][1..] == cs[k + 1..];
      var reply := Dispatch(c, cs[k], now);
      PrependOne(replies, reply, Execute(c.Model(), cs[k + 1..], now));
      replies := replies + [reply];
      if Stops(cs[k], reply) {
        return;
      }
    }
    assert replies + [] == replies;
  }

  function Prepend(replies: seq<Reply>, r: (Stub, seq<Reply>)): (Stub, seq<Reply>) { (r.0, replies + r.1) }

  lemma PrependNothing(r: (Stub, seq<Reply>))
    ensures Prepend([], r) == r
  {
    assert [] + r.1 == r.1;
  }

  lemma PrependOne(replies: seq<Reply>, reply: Reply, r: (Stub, seq<Reply>))
    ensures Prepend(replies, (r.0, [reply] + r.1)) == Prepend(replies + [reply], r)
  {
    assert replies + ([reply] + r.1) == replies + [reply] + r.1;
  }

  // ---------------- one command after the tick ----------------

  function OpOf(c: MotionCmd): Op {
    match c
    case MoveCmd(mask, target, speed, accel) => MoveAbs(mask, target, speed, accel)
    case HomeCmd(mask, overshoot, backoff, _, speed, accel) => Home(mask, overshoot, backoff, speed, accel)
    case WakeCmd(mask) => Wake(mask)
    case SleepCmd(mask) => Sleep(mask)
  }

  function Admit(t: Stub, c: MotionCmd, now: nat): (Stub, Reply) {
    match c
    case MoveCmd(mask, target, speed, accel) => AdmitMove(t, mask, target, speed, accel, now)
    case HomeCmd(mask, overshoot, backoff, fullRange, speed, accel) =>
      AdmitHome(t, mask, overshoot, backoff, fullRange, speed, accel, now)
    case WakeCmd(mask) => AdmitWake(t, mask, now)
    case SleepCmd(mask) => AdmitSleep(t, mask, now)
  }

  lemma HandleIs(s: Stub, c: MotionCmd, now: nat)
    ensures Ticks(c) ==> Handle(s, c, now) == Admit(Tick(s, now), c, now)
    ensures !Ticks(c) ==> Stops(c, Handle(s, c, now).1)
  {
    hide AdmitMove, AdmitHome, AdmitWake, AdmitSleep, Tick;
  }

  /** States that agree on everything a mask selects. */
  ghost predicate AgreeOn(t1: Stub, t2: Stub, mask: Mask) {
    && |t1.units| == |t2.units| && t1.limits == t2.limits
    && forall i :: 0 <= i < |t1.units| && i in mask ==> t1.units[i] == t2.units[i]
  }

  lemma {:induction false} ShortLocal(t1: Stub, t2: Stub, mask: Mask, reqSeconds: nat, id: nat)
    requires AgreeOn(t1, t2, mask) && id <= |t1.units|
    ensures FirstShort(t1, mask, reqSeconds, id) == FirstShort(t2, mask, reqSeconds, id)
    decreases |t1.units| - id
  {
    if id < |t1.units| { ShortLocal(t1, t2, mask, reqSeconds, id + 1); }
  }

  ghost predicate SameEstimates(e1: seq<nat>, e2: seq<nat>, mask: Mask) {
    |e1| == |e2| && forall i :: 0 <= i < |e1| && i in mask ==> e1[i] == e2[i]
  }

  lemma {:induction false} OverMaxLocal(e1: seq<nat>, e2: seq<nat>, mask: Mask, id: nat)
    requires SameEstimates(e1, e2, mask) && id <= |e1|
    ensures FirstOverMax(e1, mask, id) == FirstOverMax(e2, mask, id)
    decreases |e1| - id
  {
    if id < |e1| { OverMaxLocal(e1, e2, mask, id + 1); }
  }

  lemma {:induction false} MaxLocal(e1: seq<nat>, e2: seq<nat>, mask: Mask, n: nat)
    requires SameEstimates(e1, e2, mask) && n <= |e1|
    ensures MaxSelected(e1, mask, n) == MaxSelected(e2, mask, n)
  {
    if n > 0 { MaxLocal(e1, e2, mask, n - 1); }
  }

  lemma AllowedLocal(t1: Stub, t2: Stub, op: Op)
    requires AgreeOn(t1, t2, op.mask)
    ensures OpAllowed(t1, op) == OpAllowed(t2, op)
  {
    if AnyMoving(t1, op.mask) {
      var i :| 0 <= i < |t1.units| && i in op.mask && t1.units[i].m.moving;
      assert t2.units[i].m.moving;
    }
    if AnyMoving(t2, op.mask) {
      var i :| 0 <= i < |t2.units| && i in op.mask && t2.units[i].m.moving;
      assert t1.units[i].m.moving;
    }
  }

  lemma {:induction false} MoveReplyLocal(t1: Stub, t2: Stub, mask: Mask, target: int, speed: int, accel: int, now: nat)
    requires AgreeOn(t1, t2, mask)
    ensures AdmitMove(t1, mask, target, speed, accel, now).1 == AdmitMove(t2, mask, target, speed, accel, now).1
  {
    var e1, e2 := MoveEstimates(t1, target, speed, accel), MoveEstimates(t2, target, speed, accel);
    AllowedLocal(t1, t2, MoveAbs(mask, target, speed, accel));
    OverMaxLocal(e1, e2, mask, 0);
    MaxLocal(e1, e2, mask, |e1|);
    hide MoveEstimates, MoveMs, Apply, OpAllowed, ReqSeconds, OverMaxAt;
    ShortLocal(t1, t2, mask, ReqSeconds(MaxSelected(e1, mask, |e1|)), 0);
    var over := FirstOverMax(e1, mask, 0);
    assert over < |e1| ==> over in mask by { if over < |e1| { OverSelected(e1, mask, over); } }
  }

  lemma OverSelected(estimates: seq<nat>, mask: Mask, i: nat)
    requires i < |estimates| && OverMaxAt(estimates, mask, i)
    ensures i in mask
  {
  }

  lemma {:induction false} HomeReplyLocal(t1: Stub, t2: Stub, c: MotionCmd, now: nat)
    requires c.HomeCmd? && AgreeOn(t1, t2, c.mask)
    ensures Admit(t1, c, now).1 == Admit(t2, c, now).1
  {
    hide HomeReqMs, Apply, OpAllowed, ReqSeconds;
    AllowedLocal(t1, t2, OpOf(c));
    ShortLocal(t1, t2, c.mask, ReqSeconds(HomeReqMs(c.overshoot, c.backoff, c.fullRange, c.speed, c.accel)), 0);
  }

  /** The answer to a command depends only on the motors that it selects. */
  lemma {:induction false} ReplyLocal(t1: Stub, t2: Stub, c: MotionCmd, now: nat)
    requires AgreeOn(t1, t2, c.mask)
    ensures Admit(t1, c, now).1 == Admit(t2, c, now).1
  {
    match c
    case MoveCmd(mask, target, speed, accel) => MoveReplyLocal(t1, t2, mask, target, speed, accel, now);
    case HomeCmd(_, _, _, _, _, _) => HomeReplyLocal(t1, t2, c, now);
    case WakeCmd(mask) => ShortLocal(t1, t2, mask, 1, 0);
    case SleepCmd(mask) => AllowedLocal(t1, t2, Sleep(mask));
  }

  predicate Applied(reply: Reply) { reply.Accepted? || reply.Done? }

  /** What a command does after the tick is its controller call, or nothing. */
  lemma {:induction false} AdmitState(t: Stub, c: MotionCmd, now: nat)
    ensures var (r, reply) := Admit(t, c, now);
      r == (if Applied(reply) then Apply(t, OpOf(c), now) else t) && (Applied(reply) ==> OpAllowed(t, OpOf(c)))
  {
    hide MoveEstimates, HomeReqMs, OpUnit, ReqSeconds;
  }

  // ---------------- ticks that change nothing ----------------

  predicate Settled(u: Unit, limits: bool, now: nat) { TickUnit(u, limits, now) == u }

  lemma {:induction false} TickSettles(u: Unit, limits: bool, before: nat, now: nat)
    requires UnitOk(u, before) && before <= now
    ensures Settled(TickUnit(u, limits, now), limits, now)
  {
    ChargeOk(u.m, now);
  }

  /** An operation that just started is disturbed by a second tick at the same time if and only
      if its plan has no duration, or limits are on and its motor has overrun. */
  lemma {:induction false} StartedSettledIff(t: Unit, limits: bool, op: Op, now: nat)
    requires UnitOk(t, now) && now < t.m.lastUpdateMs + 1000 && Settled(t, limits, now) && (op.Sleep? ==> !t.m.moving)
    requires op.Wake? && limits ==> t.m.budgetTenths >= OVERRUN_TENTHS
    ensures var u := OpUnit(t, op, now);
      !Settled(u, limits, now) <==>
        (op.MoveAbs? || op.Home?) && (u.p.endMs == now || (limits && t.m.budgetTenths < OVERRUN_TENTHS))
    ensures var u := OpUnit(t, op, now); !Settled(u, limits, now) ==> u.p.active && !TickUnit(u, limits, now).p.active
  {
    hide MoveMs, StubHomeMs;
    var u := OpUnit(t, op, now);
    assert Charge(u.m, now) == u.m;
    assert Charge(t.m, now) == t.m;
  }

  // ---------------- every command as if it were alone ----------------

  function Masks(cs: seq<MotionCmd>): seq<Mask> {
    seq(|cs|, k requires 0 <= k < |cs| => cs[k].mask)
  }

  predicate Owned(cs: seq<MotionCmd>, k: int, i: int) { 0 <= k < |cs| && i in cs[k].mask }

  ghost predicate Unowned(cs: seq<MotionCmd>, i: int) { forall k :: !Owned(cs, k, i) }

  /** What command k alone leaves of motor i, before any further tick. */
  function Own(s: Stub, c: MotionCmd, now: nat, i: nat): Unit
    requires i < |s.units|
  {
    if Applied(Handle(s, c, now).1) then OpUnit(TickUnit(s.units[i], s.limits, now), OpOf(c), now)
    else TickUnit(s.units[i], s.limits, now)
  }

  /** The outcome of a batch: every reply is the one its command would get alone, every motor
      saw only the command that owns it, and all but the last command were followed by a tick. */
  ghost predicate EachAlone(s: Stub, cs: seq<MotionCmd>, now: nat, r: Stub, replies: seq<Reply>) {
    && |replies| == |cs| && |r.units| == |s.units| && r.limits == s.limits
    && (forall k :: 0 <= k < |cs| ==> replies[k] == Handle(s, cs[k], now).1)
    && (forall i, k :: 0 <= i < |s.units| && Owned(cs, k, i) ==>
          r.units[i] == if k == |cs| - 1 then Own(s, cs[k], now, i) else TickUnit(Own(s, cs[k], now, i), s.limits, now))
    && (forall i :: 0 <= i < |s.units| && Unowned(cs, i) ==>
          r.units[i] == if cs == [] then s.units[i] else TickUnit(s.units[i], s.limits, now))
  }

  /** One command handled, seen from the motors it does not select. */
  lemma {:induction false} HandledUnits(s: Stub, c: MotionCmd, now: nat)
    requires Ticks(c)
    ensures var r := Handle(s, c, now).0;
      && |r.units| == |s.units| && r.limits == s.limits
      && (forall i :: 0 <= i < |s.units| ==>
            r.units[i] == if i in c.mask then Own(s, c, now, i) else TickUnit(s.units[i], s.limits, now))
  {
    HandleIs(s, c, now);
    AdmitState(Tick(s, now), c, now);
    hide Handle, Admit, OpUnit, TickUnit, OpAllowed;
    assert OpOf(c).mask == c.mask;
  }

  /** A later command of the batch gets the answer it would get first. */
  lemma {:induction false} HandledReply(s: Stub, first: MotionCmd, c: MotionCmd, before: nat, now: nat)
    requires Inv(s, before) && before <= now && Ticks(first) && Ticks(c) && first.mask !! c.mask
    ensures Handle(Handle(s, first, now).0, c, now).1 == Handle(s, c, now).1
  {
    HandledUnits(s, first, now);
    var s1 := Handle(s, first, now).0;
    HandleIs(s, c, now);
    HandleIs(s1, c, now);
    hide Handle, Admit, TickUnit, Own;
    forall i | 0 <= i < |s.units| && i in c.mask
      ensures Tick(s1, now).units[i] == Tick(s, now).units[i]
    {
      SettledUnit(s, before, now, i);
    }
    ReplyLocal(Tick(s1, now), Tick(s, now), c, now);
  }

  lemma SettledUnit(s: Stub, before: nat, now: nat, i: nat)
    requires Inv(s, before) && before <= now && i < |s.units|
    ensures Settled(TickUnit(s.units[i], s.limits, now), s.limits, now)
  {
    TickSettles(s.units[i], s.limits, before, now);
  }

  lemma {:induction false} HandledInv(s: Stub, c: MotionCmd, before: nat, now: nat)
    requires Inv(s, before) && before <= now && Ticks(c)
    ensures Inv(Handle(s, c, now).0, now)
  {
    StepKeepsInv(s, Event(now, c), before);
    hide HandleMove, HandleHome, HandleWake, HandleSleep;
  }

  /** The same by position. */
  lemma {:induction false} NextReply(s: Stub, cs: seq<MotionCmd>, k: nat, before: nat, now: nat)
    requires Inv(s, before) && before <= now && Disjoint(Masks(cs))
    requires 0 < k < |cs| && Ticks(cs[0]) && Ticks(cs[k])
    ensures cs[1..][k - 1] == cs[k] && Handle(Handle(s, cs[0], now).0, cs[k], now).1 == Handle(s, cs[k], now).1
  {
    assert Masks(cs)[0] !! Masks(cs)[k];
    HandledReply(s, cs[0], cs[k], before, now);
  }

  ghost predicate AllTick(cs: seq<MotionCmd>) { forall k :: 0 <= k < |cs| ==> Ticks(cs[k]) }

  lemma {:induction false} FirstThenRest(s: Stub, cs: seq<MotionCmd>, before: nat, now: nat, r: Stub, rest: seq<Reply>)
    requires cs != [] && Disjoint(Masks(cs)) && AllTick(cs) && Inv(s, before) && before <= now
    requires EachAlone(Handle(s, cs[0], now).0, cs[1..], now, r, rest)
    ensures EachAlone(s, cs, now, r, [Handle(s, cs[0], now).1] + rest)
  {
    var replies := [Handle(s, cs[0], now).1] + rest;
    HandledUnits(s, cs[0], now);
    forall k | 0 <= k < |cs|
      ensures replies[k] == Handle(s, cs[k], now).1
    {
      hide Handle, TickUnit, Inv, Own;
      if k > 0 { NextReply(s, cs, k, before, now); }
    }
    forall i, k | 0 <= i < |s.units| && Owned(cs, k, i)
      ensures OwnedAfter(s, cs, k, i, now, r)
    {
      hide *;
      OwnedRest(s, cs, k, i, before, now, r, rest);
    }
    forall i | 0 <= i < |s.units| && Unowned(cs, i)
      ensures r.units[i] == TickUnit(s.units[i], s.limits, now)
    {
      hide Handle, TickUnit, Own;
      assert !Owned(cs, 0, i);
      RestUnowned(cs, i);
      SettledUnit(s, before, now, i);
    }
    hide Handle, TickUnit, Inv, Own, Disjoint;
  }

  predicate OwnedAfter(s: Stub, cs: seq<MotionCmd>, k: int, i: nat, now: nat, r: Stub)
    requires i < |s.units| && 0 <= k < |cs|
  {
    i < |r.units| &&
    r.units[i] == if k == |cs| - 1 then Own(s, cs[k], now, i) else TickUnit(Own(s, cs[k], now, i), s.limits, now)
  }

  lemma {:induction false} OwnedRest(s: Stub, cs: seq<MotionCmd>, k: int, i: nat, before: nat, now: nat,
                                     r: Stub, rest: seq<Reply>)
    requires cs != [] && Disjoint(Masks(cs)) && AllTick(cs) && Inv(s, before) && before <= now
    requires EachAlone(Handle(s, cs[0], now).0, cs[1..], now, r, rest)
    requires i < |s.units| && Owned(cs, k, i)
    ensures OwnedAfter(s, cs, k, i, now, r)
  {
    HandledUnits(s, cs[0], now);
    OwnedOnce(cs, k, i);
    hide Handle, TickUnit;
    if k > 0 {
      NextReply(s, cs, k, before, now);
      assert Owned(cs[1..], k - 1, i);
      SettledUnit(s, before, now, i);
    }
  }

  lemma RestUnowned(cs: seq<MotionCmd>, i: int)
    requires cs != [] && Unowned(cs, i)
    ensures Unowned(cs[1..], i)
  {
    assert forall j :: Owned(cs[1..], j, i) ==> Owned(cs, j + 1, i);
  }

  lemma OwnedOnce(cs: seq<MotionCmd>, k: int, i: int)
    requires Disjoint(Masks(cs)) && Owned(cs, k, i)
    ensures forall j :: Owned(cs, j, i) ==> j == k
    ensures if k == 0 then Unowned(cs[1..], i) else !Owned(cs, 0, i)
  {
    forall j | Owned(cs, j, i)
      ensures j == k
    {
      assert i in Masks(cs)[j] && i in Masks(cs)[k];
    }
    assert forall j :: Owned(cs[1..], j, i) ==> Owned(cs, j + 1, i);
  }

  /** No command of the batch would be stopped alone. */
  ghost predicate NoneStops(s: Stub, cs: seq<MotionCmd>, now: nat) {
    forall k :: 0 <= k < |cs| ==> !Stops(cs[k], Handle(s, cs[k], now).1)
  }

  lemma NoneStopsTick(s: Stub, cs: seq<MotionCmd>, now: nat)
    requires NoneStops(s, cs, now)
    ensures AllTick(cs)
  {
    forall k | 0 <= k < |cs| ensures Ticks(cs[k]) { HandleIs(s, cs[k], now); }
  }

  /** A batch of disjoint commands of which none would be stopped alone finishes, and every
      command behaves in it as if it were alone. */
  lemma {:induction false} CommandsAlone(s: Stub, cs: seq<MotionCmd>, before: nat, now: nat)
    requires Inv(s, before) && before <= now && Disjoint(Masks(cs)) && NoneStops(s, cs, now)
    ensures Finishes(s, cs, now)
    ensures EachAlone(s, cs, now, Execute(s, cs, now).0, Execute(s, cs, now).1)
    decreases |cs|
  {
    NoneStopsTick(s, cs, now);
    if cs != [] {
      assert Ticks(cs[0]);
      var s1 := Handle(s, cs[0], now).0;
      HandledInv(s, cs[0], before, now);
      RestDisjoint(cs);
      RestNoneStops(s, cs, before, now);
      hide Handle;
      CommandsAlone(s1, cs[1..], now, now);
      FirstThenRest(s, cs, before, now, Execute(s1, cs[1..], now).0, Execute(s1, cs[1..], now).1);
    }
  }

  lemma RestDisjoint(cs: seq<MotionCmd>)
    requires cs != [] && Disjoint(Masks(cs))
    ensures Disjoint(Masks(cs[1..]))
  {
    assert forall k :: 0 <= k < |cs| - 1 ==> Masks(cs[1..])[k] == Masks(cs)[k + 1];
  }

  lemma {:induction false} NextDoesNotStop(s: Stub, cs: seq<MotionCmd>, k: nat, before: nat, now: nat)
    requires Inv(s, before) && before <= now && Disjoint(Masks(cs)) && NoneStops(s, cs, now) && 0 < k < |cs|
    ensures !Stops(cs[1..][k - 1], Handle(Handle(s, cs[0], now).0, cs[1..][k - 1], now).1)
  {
    NoneStopsTick(s, cs, now);
    hide Handle, Inv, Stops;
    NextReply(s, cs, k, before, now);
  }

  lemma {:induction false} RestNoneStops(s: Stub, cs: seq<MotionCmd>, before: nat, now: nat)
    requires Inv(s, before) && before <= now && cs != [] && Disjoint(Masks(cs)) && NoneStops(s, cs, now)
    ensures NoneStops(Handle(s, cs[0], now).0, cs[1..], now)
  {
    hide Handle, Stops, Inv, Disjoint, NoneStops, Masks;
    var s1, rest := Handle(s, cs[0], now).0, cs[1..];
    forall j: nat | j < |rest|
      ensures !Stops(rest[j], Handle(s1, rest[j], now).1)
    {
      NextDoesNotStop(s, cs, j + 1, before, now);
    }
    AllGo(s1, rest, now);
  }

  lemma AllGo(s: Stub, cs: seq<MotionCmd>, now: nat)
    requires forall j: nat :: j < |cs| ==> !Stops(cs[j], Handle(s, cs[j], now).1)
    ensures NoneStops(s, cs, now)
  {
    hide Handle, Stops;
  }

  /** A disjoint batch finishes if and only if none of its commands would be stopped alone. */
  lemma {:induction false} FinishesIff(s: Stub, cs: seq<MotionCmd>, before: nat, now: nat)
    requires Inv(s, before) && before <= now && Disjoint(Masks(cs))
    ensures Finishes(s, cs, now) <==> NoneStops(s, cs, now)
    decreases |cs|
  {
    if NoneStops(s, cs, now) {
      CommandsAlone(s, cs, before, now);
    } else if Finishes(s, cs, now) {
      StopsSomewhere(s, cs, before, now);
    }
  }

  lemma FinishesStep(s: Stub, cs: seq<MotionCmd>, now: nat)
    requires Finishes(s, cs, now) && cs != []
    ensures Ticks(cs[0]) && !Stops(cs[0], Handle(s, cs[0], now).1) && Finishes(Handle(s, cs[0], now).0, cs[1..], now)
  {
    HandleIs(s, cs[0], now);
    hide Handle, Stops, Ticks;
  }

  lemma {:induction false} StopsSomewhere(s: Stub, cs: seq<MotionCmd>, before: nat, now: nat)
    requires Inv(s, before) && before <= now && Disjoint(Masks(cs)) && Finishes(s, cs, now)
    ensures NoneStops(s, cs, now)
    decreases |cs|
  {
    hide Handle, Inv, Ticks, Stops, Disjoint, NoneStops, Finishes, Masks;
    if cs != [] {
      FinishesStep(s, cs, now);
      HandledInv(s, cs[0], before, now);
      RestDisjoint(cs);
      StopsSomewhere(Handle(s, cs[0], now).0, cs[1..], now, now);
      forall k: nat | k < |cs|
        ensures !Stops(cs[k], Handle(s, cs[k], now).1)
      {
        if k > 0 { FirstKept(s, cs, k, before, now); }
      }
    }
    AllGo(s, cs, now);
  }

  lemma {:induction false} FirstKept(s: Stub, cs: seq<MotionCmd>, k: nat, before: nat, now: nat)
    requires Inv(s, before) && before <= now && Disjoint(Masks(cs)) && 0 < k < |cs| && Ticks(cs[0])
    requires NoneStops(Handle(s, cs[0], now).0, cs[1..], now)
    ensures !Stops(cs[k], Handle(s, cs[k], now).1)
  {
    var s1, rest := Handle(s, cs[0], now).0, cs[1..];
    NoneStopsTick(s1, rest, now);
    assert rest[k - 1] == cs[k];
    hide Handle, Inv, Stops, Disjoint;
    NextReply(s, cs, k, before, now);
  }

  // ---------------- every order ----------------

  /** Both orders, command by command. */
  lemma {:induction false} BothOrders(s: Stub, cs: seq<MotionCmd>, perm: seq<nat>, inverse: seq<nat>, before: nat, now: nat)
    requires Inv(s, before) && before <= now && Disjoint(Masks(cs)) && Finishes(s, cs, now)
    requires IsPermutation(perm, inverse, |cs|)
    ensures var other := Permuted(cs, perm);
      && EachAlone(s, cs, now, Execute(s, cs, now).0, Execute(s, cs, now).1)
      && Finishes(s, other, now)
      && EachAlone(s, other, now, Execute(s, other, now).0, Execute(s, other, now).1)
  {
    hide Handle, Finishes, Execute, EachAlone;
    FinishesIff(s, cs, before, now);
    CommandsAlone(s, cs, before, now);
    PermutedDisjoint(Masks(cs), perm, inverse);
    assert Masks(Permuted(cs, perm)) == Permuted(Masks(cs), perm);
    assert NoneStops(s, Permuted(cs, perm), now);
    CommandsAlone(s, Permuted(cs, perm), before, now);
  }

  /** Every order of a disjoint batch that finishes gives every command the same reply. */
  lemma {:induction false} RepliesOrderFree(s: Stub, cs: seq<MotionCmd>, perm: seq<nat>, inverse: seq<nat>, before: nat, now: nat)
    requires Inv(s, before) && before <= now && Disjoint(Masks(cs)) && Finishes(s, cs, now)
    requires IsPermutation(perm, inverse, |cs|)
    ensures Finishes(s, Permuted(cs, perm), now) && SameReplies(Execute(s, cs, now).1, Execute(s, Permuted(cs, perm), now).1, perm)
  {
    BothOrders(s, cs, perm, inverse, before, now);
    hide Handle, Execute, Finishes;
  }

  ghost predicate SameReplies(replies: seq<Reply>, other: seq<Reply>, perm: seq<nat>) {
    |replies| == |other| == |perm| &&
    forall k :: 0 <= k < |perm| ==> 0 <= perm[k] < |replies| && other[k] == replies[perm[k]]
  }

  /** Some command leaves some motor such that one more tick at the same time changes it. */
  ghost predicate SomeUnsettled(s: Stub, cs: seq<MotionCmd>, now: nat) {
    exists i, k :: 0 <= i < |s.units| && Owned(cs, k, i) && !Settled(Own(s, cs[k], now, i), s.limits, now)
  }

  ghost predicate OrderFree(s: Stub, cs: seq<MotionCmd>, now: nat) {
    forall perm: seq<nat>, inverse: seq<nat> :: IsPermutation(perm, inverse, |cs|) ==>
      Execute(s, Permuted(cs, perm), now).0 == Execute(s, cs, now).0
  }

  lemma {:induction false} SettledUnitsAgree(s: Stub, cs: seq<MotionCmd>, perm: seq<nat>, inverse: seq<nat>, now: nat,
                                             r: Stub, other: Stub, i: nat)
    requires IsPermutation(perm, inverse, |cs|) && !SomeUnsettled(s, cs, now) && i < |s.units|
    requires exists replies :: EachAlone(s, cs, now, r, replies)
    requires exists replies :: EachAlone(s, Permuted(cs, perm), now, other, replies)
    ensures |r.units| == |other.units| == |s.units| && r.units[i] == other.units[i]
  {
    hide Handle, TickUnit, Own;
    var ds := Permuted(cs, perm);
    if k :| Owned(cs, k, i) {
      assert Owned(ds, inverse[k], i) && ds[inverse[k]] == cs[k];
      assert Settled(Own(s, cs[k], now, i), s.limits, now);
    } else {
      UnownedPermuted(cs, perm, i);
    }
  }

  lemma UnownedPermuted(cs: seq<MotionCmd>, perm: seq<nat>, i: int)
    requires |perm| == |cs| && (forall k :: 0 <= k < |cs| ==> perm[k] < |cs|) && Unowned(cs, i)
    ensures Unowned(Permuted(cs, perm), i)
  {
    assert forall k :: 0 <= k < |cs| ==> !Owned(cs, perm[k], i);
  }

  /** Exchanging positions a and b. */
  function Swap(n: nat, a: nat, b: nat): (perm: seq<nat>)
    requires a < n && b < n
    ensures IsPermutation(perm, perm, n) && perm[a] == b && perm[b] == a
  {
    seq(n, k requires 0 <= k < n => if k == a then b else if k == b then a else k)
  }

  lemma {:induction false} UnsettledOrdersDiffer(s: Stub, cs: seq<MotionCmd>, i: nat, k: nat, before: nat, now: nat)
    requires Inv(s, before) && before <= now && Disjoint(Masks(cs)) && Finishes(s, cs, now) && |cs| >= 2
    requires i < |s.units| && Owned(cs, k, i) && !Settled(Own(s, cs[k], now, i), s.limits, now)
    ensures !OrderFree(s, cs, now)
  {
    var n := |cs|;
    var j := if k == n - 1 then 0 else n - 1;
    var perm := Swap(n, k, j);
    BothOrders(s, cs, perm, perm, before, now);
    hide Handle, TickUnit, Own, Execute, Finishes, OrderFree;
    assert Owned(Permuted(cs, perm), j, i) && Permuted(cs, perm)[j] == cs[k];
    DifferByOrder(s, cs, perm, now);
  }

  lemma DifferByOrder(s: Stub, cs: seq<MotionCmd>, perm: seq<nat>, now: nat)
    requires IsPermutation(perm, perm, |cs|) && Execute(s, Permuted(cs, perm), now).0 != Execute(s, cs, now).0
    ensures !OrderFree(s, cs, now)
  {
  }

  /** Every order of a disjoint batch that finishes ends in the same state if and only if no
      command leaves a motor that another tick at the same time would change. */
  lemma {:induction false} OrderFreeIff(s: Stub, cs: seq<MotionCmd>, before: nat, now: nat)
    requires Inv(s, before) && before <= now && Disjoint(Masks(cs)) && Finishes(s, cs, now) && |cs| >= 2
    ensures OrderFree(s, cs, now) <==> !SomeUnsettled(s, cs, now)
  {
    if SomeUnsettled(s, cs, now) {
      var i, k :| 0 <= i < |s.units| && Owned(cs, k, i) && !Settled(Own(s, cs[k], now, i), s.limits, now);
      UnsettledOrdersDiffer(s, cs, i, k, before, now);
    } else {
      forall perm: seq<nat>, inverse: seq<nat> | IsPermutation(perm, inverse, |cs|)
        ensures Execute(s, Permuted(cs, perm), now).0 == Execute(s, cs, now).0
      {
        BothOrders(s, cs, perm, inverse, before, now);
        hide Handle, Execute, SomeUnsettled, EachAlone, Finishes;
        var r, other := Execute(s, cs, now).0, Execute(s, Permuted(cs, perm), now).0;
        SameCount(s, cs, now, r, Execute(s, cs, now).1);
        SameCount(s, Permuted(cs, perm), now, other, Execute(s, Permuted(cs, perm), now).1);
        forall i | 0 <= i < |s.units|
          ensures r.units[i] == other.units[i]
        {
          SettledUnitsAgree(s, cs, perm, inverse, now, r, other, i);
        }
        assert r.units == other.units;
      }
    }
  }

  lemma SameCount(s: Stub, cs: seq<MotionCmd>, now: nat, r: Stub, replies: seq<Reply>)
    requires EachAlone(s, cs, now, r, replies)
    ensures |r.units| == |s.units| && r.limits == s.limits
  {
  }

  // ---------------- in terms a caller can check ----------------

  /** A MOVE to where the motor is, or a HOME planned for no time at all or started on a motor
      that has overrun. All of it can be checked after the tick, before the call. */
  predicate EndsAtOnce(m: MotorState, limits: bool, c: MotionCmd) {
    || (c.MoveCmd? && m.position == c.target)
    || (c.HomeCmd? && (StubHomeMs(c.overshoot, c.backoff, c.speed, c.accel) == 0 ||
                       (limits && m.budgetTenths < OVERRUN_TENTHS)))
  }

  /** Some command starts an operation that a further tick at the same time ends. */
  ghost predicate SomeEndsAtOnce(s: Stub, cs: seq<MotionCmd>, now: nat) {
    exists i, k :: 0 <= i < |s.units| && Owned(cs, k, i) &&
      EndsAtOnce(TickUnit(s.units[i], s.limits, now).m, s.limits, cs[k])
  }

  lemma {:induction false} MoveSettledIff(s: Stub, c: MotionCmd, before: nat, now: nat, i: nat)
    requires Inv(s, before) && before <= now && i < |s.units| && i in c.mask
    requires c.MoveCmd? && Handle(s, c, now).1.Accepted?
    ensures !Settled(Own(s, c, now, i), s.limits, now) <==> EndsAtOnce(TickUnit(s.units[i], s.limits, now).m, s.limits, c)
  {
    var MoveCmd(mask, target, speed, accel) := c;
    var t, reply := TickUnit(s.units[i], s.limits, now), Handle(s, c, now).1;
    TickUnitOk(s.units[i], s.limits, before, now);
    SettledUnit(s, before, now, i);
    HandleIs(s, c, now);
    if s.limits {
      AdmittedMove(s, mask, target, speed, accel, before, now, i);
      ReqSecondsCover(reply.estMs);
    }
    hide HandleMove, AdmitMove, TickUnit;
    MoveMsSmall(t, target, speed, accel);
    MoveTimeZeroIff(Abs(target - t.m.position), speed, accel);
    hide MoveTime, MoveMs;
    StartedSettledIff(t, s.limits, OpOf(c), now);
  }

  lemma {:induction false} HomeSettledIff(s: Stub, c: MotionCmd, before: nat, now: nat, i: nat)
    requires Inv(s, before) && before <= now && i < |s.units| && i in c.mask
    requires c.HomeCmd? && Handle(s, c, now).1.Accepted?
    ensures !Settled(Own(s, c, now, i), s.limits, now) <==> EndsAtOnce(TickUnit(s.units[i], s.limits, now).m, s.limits, c)
  {
    var t := TickUnit(s.units[i], s.limits, now);
    TickUnitOk(s.units[i], s.limits, before, now);
    SettledUnit(s, before, now, i);
    hide HandleHome, TickUnit, StubHomeMs;
    StartedSettledIff(t, s.limits, OpOf(c), now);
  }

  /** An accepted HOME whose arithmetic fits ends at once if and only if it has no legs. */
  lemma {:induction false} FittingHomeEndsIff(s: Stub, c: MotionCmd, before: nat, now: nat, i: nat)
    requires Inv(s, before) && before <= now && i < |s.units| && i in c.mask
    requires c.HomeCmd? && HomeFits(c.overshoot, c.backoff, c.fullRange, c.speed, c.accel)
    requires Handle(s, c, now).1.Accepted?
    ensures EndsAtOnce(TickUnit(s.units[i], s.limits, now).m, s.limits, c) <==> c.overshoot == 0 && c.backoff == 0
  {
    var HomeCmd(mask, overshoot, backoff, fullRange, speed, accel) := c;
    HomeWithinFullRange(overshoot, backoff, RangeOrDefault(fullRange), speed, accel);
    MoveTimeZeroIff(Abs(overshoot), speed, accel);
    MoveTimeZeroIff(Abs(backoff), speed, accel);
    if s.limits {
      AdmittedHome(s, mask, overshoot, backoff, fullRange, speed, accel, before, now, i);
      HomePlayedWithinAdmitted(overshoot, backoff, fullRange, speed, accel);
      ReqSecondsCover(Handle(s, c, now).1.estMs);
    }
    hide HandleHome, HomeReqMs, MoveTime, TickUnit;
  }

  lemma {:induction false} WakeSleepSettled(s: Stub, c: MotionCmd, before: nat, now: nat, i: nat)
    requires Inv(s, before) && before <= now && i < |s.units| && i in c.mask && (c.WakeCmd? || c.SleepCmd?)
    ensures Settled(Own(s, c, now, i), s.limits, now)
  {
    var t := Tick(s, now);
    TickUnitOk(s.units[i], s.limits, before, now);
    SettledUnit(s, before, now, i);
    HandleIs(s, c, now);
    AdmitState(t, c, now);
    if Applied(Handle(s, c, now).1) {
      if c.SleepCmd? { assert !t.units[i].m.moving; }
      if c.WakeCmd? && s.limits { assert !ShortAt(t, c.mask, 1, i); }
      hide TickUnit, HandleWake, HandleSleep;
      StartedSettledIff(t.units[i], s.limits, OpOf(c), now);
    }
  }

  lemma {:induction false} OwnSettledIff(s: Stub, c: MotionCmd, before: nat, now: nat, i: nat)
    requires Inv(s, before) && before <= now && i < |s.units| && i in c.mask && !Stops(c, Handle(s, c, now).1)
    ensures !Settled(Own(s, c, now, i), s.limits, now) <==> EndsAtOnce(TickUnit(s.units[i], s.limits, now).m, s.limits, c)
  {
    hide Handle, Own, TickUnit, Settled;
    match c
    case MoveCmd(_, _, _, _) => MoveSettledIff(s, c, before, now, i);
    case HomeCmd(_, _, _, _, _, _) => HomeSettledIff(s, c, before, now, i);
    case WakeCmd(_) => WakeSleepSettled(s, c, before, now, i);
    case SleepCmd(_) => WakeSleepSettled(s, c, before, now, i);
  }

  /** The order of a disjoint batch of two or more commands that finishes is immaterial if and
      only if none of its commands ends at once: all orders end in the same state, and all
      orders finish with the same reply to each command in any case. */
  lemma {:induction false} BatchOrderFreeIff(s: Stub, cs: seq<MotionCmd>, before: nat, now: nat)
    requires Inv(s, before) && before <= now && Disjoint(Masks(cs)) && Finishes(s, cs, now) && |cs| >= 2
    ensures OrderFree(s, cs, now) <==> !SomeEndsAtOnce(s, cs, now)
    ensures forall perm: seq<nat>, inverse: seq<nat> :: IsPermutation(perm, inverse, |cs|) ==>
      Finishes(s, Permuted(cs, perm), now) && SameReplies(Execute(s, cs, now).1, Execute(s, Permuted(cs, perm), now).1, perm)
  {
    FinishesIff(s, cs, before, now);
    forall perm: seq<nat>, inverse: seq<nat> | IsPermutation(perm, inverse, |cs|)
      ensures Finishes(s, Permuted(cs, perm), now)
      ensures SameReplies(Execute(s, cs, now).1, Execute(s, Permuted(cs, perm), now).1, perm)
    {
      RepliesOrderFree(s, cs, perm, inverse, before, now);
    }
    OrderFreeIff(s, cs, before, now);
    hide Handle, Own, TickUnit, Settled, EndsAtOnce, OrderFree, Finishes, Execute, SameReplies;
    forall i, k | 0 <= i < |s.units| && Owned(cs, k, i)
      ensures !Settled(Own(s, cs[k], now, i), s.limits, now) <==>
              EndsAtOnce(TickUnit(s.units[i], s.limits, now).m, s.limits, cs[k])
    {
      OwnSettledIff(s, cs[k], before, now, i);
    }
  }

  /** From power-up: a MOVE to the current position before a WAKE of another motor is completed
      by the tick of the WAKE; after it, the motor is left awake and moving. */
  lemma {:induction false} OrderMattersForStay()
    ensures var s, cs := InitialStub(2), StayThenWake();
      Inv(s, 0) && Disjoint(Masks(cs)) && Finishes(s, cs, 5) && !OrderFree(s, cs, 5)
  {
    var s, cs := InitialStub(2), StayThenWake();
    InitialInv(2);
    assert Disjoint(Masks(cs));
    StayReplies();
    FinishesIff(s, cs, 0, 5);
    BatchOrderFreeIff(s, cs, 0, 5);
    assert Owned(cs, 0, 0) && EndsAtOnce(TickUnit(s.units[0], s.limits, 5).m, s.limits, cs[0]);
  }

  function StayThenWake(): seq<MotionCmd> { [MoveCmd({0}, 0, 4000, 16000), WakeCmd({1})] }

  lemma {:induction false} StayAccepted(t: Stub)
    requires |t.units| == 2 && t.units[0].m.position == 0 && t.units[0].m.moving == false
    ensures AdmitMove(t, {0}, 0, 4000, 16000, 5).1 == Accepted(NoWarning, 0)
  {
    var estimates := MoveEstimates(t, 0, 4000, 16000);
    assert estimates[0] == 0;
    hide MoveEstimates, Apply;
    assert !OverMaxAt(estimates, {0}, 0) && !OverMaxAt(estimates, {0}, 1);
    assert MaxSelected(estimates, {0}, 2) == 0 by { assert MaxSelected(estimates, {0}, 1) == 0; }
    assert !ShortAt(t, {0}, ReqSeconds(0), 0) && !ShortAt(t, {0}, ReqSeconds(0), 1);
  }

  lemma {:induction false} StayReplies()
    ensures NoneStops(InitialStub(2), StayThenWake(), 5)
  {
    var t := Tick(InitialStub(2), 5);
    StayAccepted(t);
    hide AdmitMove, AdmitWake;
  }

  /** From power-up: a HOME whose two legs add up to 2^32 milliseconds is planned for no time,
      although it is admitted as four seconds and has legs to play. */
  lemma {:induction false} OrderMattersForWrappedHome()
    ensures var s, cs := InitialStub(2), WrappedHomeThenWake();
      Inv(s, 0) && Disjoint(Masks(cs)) && Finishes(s, cs, 5) && !OrderFree(s, cs, 5)
  {
    var s, cs := InitialStub(2), WrappedHomeThenWake();
    InitialInv(2);
    assert Disjoint(Masks(cs));
    WrappedHomeMs();
    WrappedReplies();
    FinishesIff(s, cs, 0, 5);
    BatchOrderFreeIff(s, cs, 0, 5);
    assert Owned(cs, 0, 0) && EndsAtOnce(TickUnit(s.units[0], s.limits, 5).m, s.limits, cs[0]);
  }

  function WrappedHomeThenWake(): seq<MotionCmd> { [HomeCmd({0}, 536870000, 910, 2, 1, 1), WakeCmd({1})] }

  lemma {:induction false} WrappedHomeMs()
    ensures StubHomeMs(536870000, 910, 1, 1) == 0 && HomeReqMs(536870000, 910, 2, 1, 1) == 4000
  {
    UnitRate(536870000);
    UnitRate(536870002);
    UnitRate(910);
    UnitRate(1);
  }

  lemma {:induction false} WrappedReplies()
    ensures NoneStops(InitialStub(2), WrappedHomeThenWake(), 5)
  {
    var t := Tick(InitialStub(2), 5);
    WrappedHomeMs();
    hide HomeReqMs, StubHomeMs;
    assert !ShortAt(t, {0}, ReqSeconds(4000), 0) && !ShortAt(t, {0}, ReqSeconds(4000), 1);
    hide AdmitWake;
  }

  // ---------------- the estimate of the batch ----------------

  /** The response lines of a reply: an acknowledgement that carries an estimate, behind its
      warning if there is one, or one other line. */
  function LinesOf(reply: Reply): seq<BatchLine> {
    match reply
    case Accepted(warning, estMs) => (if warning.NoWarning? then [] else [Other("WARN")]) + [Estimate(estMs)]
    case Done(_) => [Other("DONE")]
    case _ => [Other("ERR")]
  }

  function AllLines(replies: seq<Reply>): seq<BatchLine> {
    if replies == [] then [] else LinesOf(replies[0]) + AllLines(replies[1..])
  }

  lemma {:induction false} EstimateLines(replies: seq<Reply>, estMs: nat)
    ensures Estimate(estMs) in AllLines(replies) <==>
            exists k :: 0 <= k < |replies| && replies[k].Accepted? && replies[k].estMs == estMs
  {
    if replies != [] {
      EstimateLines(replies[1..], estMs);
      assert Estimate(estMs) in LinesOf(replies[0]) <==> replies[0].Accepted? && replies[0].estMs == estMs;
      assert forall k :: 0 < k < |replies| ==> replies[k] == replies[1..][k - 1];
    }
  }

  predicate SomeEstimate(lines: seq<BatchLine>) { exists line :: line in lines && line.Estimate? }

  /** Whether a finished batch reports an estimate, and which, is the same in every order. */
  lemma {:induction false} EstimateOrderFree(s: Stub, cs: seq<MotionCmd>, perm: seq<nat>, inverse: seq<nat>,
                                             before: nat, now: nat)
    requires Inv(s, before) && before <= now && Disjoint(Masks(cs)) && Finishes(s, cs, now)
    requires IsPermutation(perm, inverse, |cs|)
    ensures var a, b := AllLines(Execute(s, cs, now).1), AllLines(Execute(s, Permuted(cs, perm), now).1);
      (SomeEstimate(a) <==> SomeEstimate(b)) && forall est :: IsLongest(a, est) <==> IsLongest(b, est)
  {
    var a, b := Execute(s, cs, now).1, Execute(s, Permuted(cs, perm), now).1;
    RepliesOrderFree(s, cs, perm, inverse, before, now);
    CommandsCount(s, cs, before, now);
    hide Execute, Finishes;
    forall est: nat ensures Estimate(est) in AllLines(a) <==> Estimate(est) in AllLines(b) {
      EstimateLines(a, est);
      EstimateLines(b, est);
      if k :| 0 <= k < |a| && a[k].Accepted? && a[k].estMs == est { assert b[inverse[k]] == a[k]; }
      if m :| 0 <= m < |b| && b[m].Accepted? && b[m].estMs == est { assert a[perm[m]] == b[m]; }
    }
    SameEstimateLines(AllLines(a), AllLines(b));
  }

  lemma {:induction false} CommandsCount(s: Stub, cs: seq<MotionCmd>, before: nat, now: nat)
    requires Inv(s, before) && before <= now && Disjoint(Masks(cs)) && Finishes(s, cs, now)
    ensures |Execute(s, cs, now).1| == |cs|
  {
    FinishesIff(s, cs, before, now);
    CommandsAlone(s, cs, before, now);
    hide Execute, Finishes, NoneStops;
  }

  lemma SameEstimateLines(a: seq<BatchLine>, b: seq<BatchLine>)
    requires forall est: nat :: Estimate(est) in a <==> Estimate(est) in b
    ensures (SomeEstimate(a) <==> SomeEstimate(b)) && forall est :: IsLongest(a, est) <==> IsLongest(b, est)
  {
    assert forall line: BatchLine :: line.Estimate? ==> line == Estimate(line.estMs);
  }
}
