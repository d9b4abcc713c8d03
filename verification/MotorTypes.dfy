/** Motor records and the constants of the thermal budget model. */
module MotorTypes {
  const MIN_POS_STEPS: int := -1200
  const MAX_POS_STEPS: int := 1200
  const DEFAULT_SPEED_SPS: int := 4000
  const DEFAULT_ACCEL_SPS2: int := 16000
  const MAX_RUNNING_TIME_S: int := 90
  const FULL_COOL_DOWN_TIME_S: int := 60
  const MAX_COOL_DOWN_TIME_S: int := 300
  const BUDGET_TENTHS_MAX: int := MAX_RUNNING_TIME_S * 10
  const SPEND_TENTHS_PER_SEC: int := 10
  const REFILL_TENTHS_PER_SEC: int := MAX_RUNNING_TIME_S * 10 / FULL_COOL_DOWN_TIME_S
  const AUTO_SLEEP_IF_OVER_BUDGET_S: int := 5

  const BUDGET_FLOOR: int := BUDGET_TENTHS_MAX - REFILL_TENTHS_PER_SEC * MAX_COOL_DOWN_TIME_S
  const OVERRUN_TENTHS: int := -AUTO_SLEEP_IF_OVER_BUDGET_S * 10

  /** A 32-bit motor mask, as the set of its bit positions. */
  type Mask = set<nat>

  datatype OpType = NoOp | MoveOp | HomeOp

  datatype MotorState = MotorState(
    id: nat,
    position: int,
    speed: int,
    accel: int,
    moving: bool,
    awake: bool,
    homed: bool,
    stepsSinceHome: int,
    budgetTenths: int,
    lastUpdateMs: nat,
    lastOpStartedMs: nat,
    lastOpLastMs: nat,
    lastOpEstMs: nat,
    lastOpType: OpType,
    lastOpOngoing: bool)

  function InitialMotor(id: nat): MotorState {
    MotorState(id, 0, DEFAULT_SPEED_SPS, DEFAULT_ACCEL_SPS2, false, false, false, 0,
               BUDGET_TENTHS_MAX, 0, 0, 0, 0, NoOp, false)
  }

  // ---------------- budget bookkeeping, shared by both controllers ----------------

  function Max(x: int, y: int): int { if x >= y then x else y }
  function Min(x: int, y: int): int { if x <= y then x else y }

  /** The budget after whole seconds awake or asleep, kept inside its range. */
  function Spend(budget: int, seconds: nat, awake: bool): int {
    if awake then Max(BUDGET_FLOOR, budget - SPEND_TENTHS_PER_SEC * seconds)
    else Min(BUDGET_TENTHS_MAX, budget + REFILL_TENTHS_PER_SEC * seconds)
  }

  /** One round of bookkeeping at time now. */
  function Charge(m: MotorState, now: nat): MotorState {
    if now < m.lastUpdateMs then m
    else
      var seconds := (now - m.lastUpdateMs) / 1000;
      if seconds == 0 then m
      else m.(budgetTenths := Spend(m.budgetTenths, seconds, m.awake),
              lastUpdateMs := m.lastUpdateMs + seconds * 1000)
  }

  predicate BudgetInRange(m: MotorState) {
    BUDGET_FLOOR <= m.budgetTenths <= BUDGET_TENTHS_MAX
  }

  /** Bookkeeping at each of the given times, in order. */
  function ChargeAll(m: MotorState, times: seq<nat>): MotorState
    decreases |times|
  {
    if times == [] then m else ChargeAll(Charge(m, times[0]), times[1..])
  }

  ghost predicate Ascending(times: seq<nat>, from: nat) {
    && (forall i :: 0 <= i < |times| ==> from <= times[i])
    && (forall i, j :: 0 <= i < j < |times| ==> times[i] <= times[j])
  }

  lemma {:induction false} WholeSeconds(ms: nat, seconds: nat)
    requires 1000 * seconds <= ms < 1000 * seconds + 1000
    ensures ms / 1000 == seconds
  {
  }

  lemma {:induction false} SpendTwice(budget: int, k1: nat, k2: nat, awake: bool)
    requires BUDGET_FLOOR <= budget <= BUDGET_TENTHS_MAX
    ensures Spend(Spend(budget, k1, awake), k2, awake) == Spend(budget, k1 + k2, awake)
    ensures Spend(budget, 0, awake) == budget
    ensures BUDGET_FLOOR <= Spend(budget, k1, awake) <= BUDGET_TENTHS_MAX
  {
  }

  /** The state after one round, with the elapsed seconds k named. */
  lemma {:induction false} ChargeIs(m: MotorState, now: nat, k: nat)
    requires m.lastUpdateMs <= now && 1000 * k <= now - m.lastUpdateMs < 1000 * k + 1000 && BudgetInRange(m)
    ensures Charge(m, now) == m.(budgetTenths := Spend(m.budgetTenths, k, m.awake),
                                 lastUpdateMs := m.lastUpdateMs + 1000 * k)
  {
    WholeSeconds(now - m.lastUpdateMs, k);
    SpendTwice(m.budgetTenths, 0, 0, m.awake);
  }

  /** The budget in tenths at a later time: ten less for every whole second awake, down to -3600, or
      fifteen more for every whole second asleep, up to 900. */
  function BudgetAt(m: MotorState, now: nat): int {
    var seconds := if now < m.lastUpdateMs then 0 else (now - m.lastUpdateMs) / 1000;
    if m.awake then Max(-3600, m.budgetTenths - 10 * seconds) else Min(900, m.budgetTenths + 15 * seconds)
  }

  /** A round of bookkeeping leaves that budget and touches nothing else but its clock. */
  lemma {:induction false} ChargedBudget(m: MotorState, now: nat)
    requires BudgetInRange(m)
    ensures var r := Charge(m, now);
      && r == m.(budgetTenths := BudgetAt(m, now), lastUpdateMs := r.lastUpdateMs)
      && (m.lastUpdateMs <= now ==> r.lastUpdateMs <= now < r.lastUpdateMs + 1000)
      && (m.lastUpdateMs <= now ==> (now - r.lastUpdateMs) % 1000 == (now - m.lastUpdateMs) % 1000)
  {
  }

  lemma {:induction false} ChargeTwice(m: MotorState, t1: nat, t2: nat)
    requires m.lastUpdateMs <= t1 <= t2 && BudgetInRange(m)
    ensures Charge(Charge(m, t1), t2) == Charge(m, t2)
    ensures BudgetInRange(Charge(m, t1))
    ensures m.lastUpdateMs <= Charge(m, t1).lastUpdateMs <= t1 < Charge(m, t1).lastUpdateMs + 1000
    ensures Charge(m, t1).awake == m.awake
  {
    var lu := m.lastUpdateMs;
    var k1 := (t1 - lu) / 1000;
    var k2 := (t2 - (lu + 1000 * k1)) / 1000;
    ChargeIs(m, t1, k1);
    SpendTwice(m.budgetTenths, k1, k2, m.awake);
    ChargeIs(Charge(m, t1), t2, k2);
    ChargeIs(m, t2, k1 + k2);
  }

  lemma {:induction false} ChargeClock(m: MotorState, now: nat)
    requires m.lastUpdateMs <= now && m.lastUpdateMs % 1000 == 0 && BudgetInRange(m)
    ensures Charge(m, now).lastUpdateMs == now / 1000 * 1000
  {
    var j := m.lastUpdateMs / 1000;
    var k := (now - m.lastUpdateMs) / 1000;
    ChargeIs(m, now, k);
    WholeSeconds(now, j + k);
  }

  /** However often the controller ticks, the books come out the same: any schedule of
      rounds ending at t leaves what one round at t leaves. */
  lemma {:induction false} ChargeCadence(m: MotorState, times: seq<nat>)
    requires BudgetInRange(m) && Ascending(times, m.lastUpdateMs) && times != []
    ensures ChargeAll(m, times) == Charge(m, times[|times| - 1])
    ensures BudgetInRange(ChargeAll(m, times))
    ensures m.lastUpdateMs % 1000 == 0 ==>
              ChargeAll(m, times).lastUpdateMs == times[|times| - 1] / 1000 * 1000
    decreases |times|
  {
    var t, rest := times[0], times[1..];
    var last := times[|times| - 1];
    ChargeTwice(m, t, last);
    if m.lastUpdateMs % 1000 == 0 { ChargeClock(m, last); }
    if rest != [] {
      assert rest[|rest| - 1] == last;
      ChargeCadence(Charge(m, t), rest);
    }
  }

  /** Time to full cool-down in tenths of a second, with the source's cap. */
  function TtfcTenths(budget: int): int {
    var missing := Max(0, BUDGET_TENTHS_MAX - budget);
    var tenths := if missing <= 0 then 0
                  else (missing * 10 + REFILL_TENTHS_PER_SEC - 1) / REFILL_TENTHS_PER_SEC;
    Min(tenths, MAX_COOL_DOWN_TIME_S * 10)
  }

  lemma {:induction false} TtfcTight(budget: int)
    requires BUDGET_FLOOR <= budget <= BUDGET_TENTHS_MAX
    ensures 15 * (TtfcTenths(budget) - 1) < 10 * (900 - budget) <= 15 * TtfcTenths(budget)
  {
    var missing := 900 - budget;
    var tenths := (missing * 10 + 14) / 15;
    assert 15 * tenths <= missing * 10 + 14 < 15 * tenths + 15;
    assert REFILL_TENTHS_PER_SEC == 15;
  }

  /** The advertised cool-down time is exact: k whole seconds asleep refill the budget
      if and only if they cover it, and the cap never cuts it short. */
  lemma {:induction false} CoolDownIsExact(m: MotorState, k: nat)
    requires BudgetInRange(m) && !m.awake
    ensures Charge(m, m.lastUpdateMs + 1000 * k).budgetTenths == BUDGET_TENTHS_MAX
       <==> 10 * k >= TtfcTenths(m.budgetTenths)
    ensures REFILL_TENTHS_PER_SEC * TtfcTenths(m.budgetTenths) >= 10 * (BUDGET_TENTHS_MAX - m.budgetTenths)
  {
    ChargeIs(m, m.lastUpdateMs + 1000 * k, k);
    TtfcTight(m.budgetTenths);
  }
}
