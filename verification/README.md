# A verified model of the eight-motor controller firmware

The firmware drives up to eight stepper motors from one ESP32 and takes commands over serial
and MQTT. This project models the parts of it that carry guarantees across functions and over
whole runs, and proves those guarantees for all inputs:

- **Thermal budget** (`MotorTypes.dfy`, `StubController.dfy`, `StubTicks.dfy`,
  `CommandHandlers.dfy`, `Admission.dfy`, `ThermalRuns.dfy`, `ThermalLimits.dfy`,
  `BatchOrder.dfy`, `BatchRuns.dfy`): a command is admitted by comparing an integer time estimate with each motor's budget; the controller's tick charges the budget in
  whole seconds and forces motors that overran it to sleep. What admission promises about the
  ticks that follow is proved under every later schedule, with the exact condition under which
  it holds; and so is when the order of a batch of commands is immaterial.
- **Estimator arithmetic** (`IntegerMath.dfy`, `MotionKinematics.dfy`, `EstimateBounds.dfy`):
  ceiling division, a square root by doubling and binary search, and triangular and trapezoidal
  profiles joined at a rounded threshold.
- **Hardware controller** (`HardwareModel.dfy`, `HardwareController.dfy`, `HardwareRuns.dfy`,
  `HomingRuns.dfy`, `HardwareEffects.dfy`): DIR and SLEEP latches before every start, HOME as three
  legs with group barriers, and the thermal limit.
- **MQTT command server** (`MqttServerModel.dfy`, `MqttCommandServer.dfy`, `MqttRuns.dfy`,
  `MqttOrphans.dfy`, `MqttReplay.dfy`, `MqttAnswers.dfy`, `CompletionTracker.dfy`,
  `PublishQueue.dfy`): streams, buffering of early
  events, replay of duplicates, completion of long operations and the bounded publish queue.
  Commands arrive at least once, as QoS 1 allows (section 4.3.2 of MQTT Version 3.1.1).
- **Shared STEP line** (`SharedStepTiming.dfy`, `SharedStepModel.dfy`, `SharedStepAdapter.dfy`,
  `SharedStepRuns.dfy`, `SharedStepRamp.dfy`, `SharedStepFlips.dfy`): one pulse generator for all
  motors, its speed ramp, positions integrated in software, and direction changes under a guard.
- **Text and configuration** (`Wrappers.dfy`, `TextScan.dfy`, `CommandText.dfy`, `KeyValueArgs.dfy`,
  `CommandLines.dfy`, `ConfigStore.dfy`, `ConfigFields.dfy`): quoting against its parsers, command lines from the
  MQTT message to the configuration store, and the store across reboots.

Objects that the firmware updates in place are classes here. Their methods repeat the source's
steps and loops and are proved equal to functions on values. What those functions compute is
stated once more without them, in terms of budgets, lines, publishes or fields, and the
properties are proved about them, one step and then any run at a time.

## What the proofs found in the code

- `isqrt_ceil` is one short of its comment exactly when its argument lies strictly between
  4^k and 4^k + 2^k (`RootExactIff`); `isqrt_ceil(5)` is 2. Every bound on the estimates below
  is proved for the code as it is.
- The asymmetric estimate can fall below distance divided by speed, for a single step and only
  there (`AsymAtLeastCruiseIff`; `AsymCanBeatCruise` is an input).
- A MOVE to the current position is admitted whatever the budget and wakes the motor, so a
  caller can drain a budget to its floor with limits on (`StayingDrainsBudget`). An accepted
  MOVE or HOME keeps the bound on the budgets if and only if it wakes no motor that has overrun
  (`MoveKeepsBoundIff`, `HomeKeepsBoundIff`).
- HOME adds and rounds its estimate in 32 bits; a very long HOME is admitted as a one-second
  operation, planned for 49 days and cancelled after 96 seconds (`WrappedHomeIsCancelled`).
  `AcceptedHomeCompletesIff` gives the exact condition on the budget before the call, wrapped
  or not.
- Every handler ticks before its command, so the order of a batch matters although its masks are
  disjoint: a plan without duration is finished by the tick of the next command
  (`OrderMattersForStay`). So is a HOME whose two legs add up to 2^32 milliseconds, which is
  planned for no time at all (`OrderMattersForWrappedHome`). The order is immaterial if and only
  if the batch holds no MOVE to where a motor it selects stands, no HOME planned for 0
  milliseconds and, with limits on, no HOME of a motor that has overrun (`BatchOrderFreeIff`). A
  refused WAKE or SLEEP answers an error line but does not end its batch.
- A motor that waits at a HOME barrier counts as idle. A MOVE or HOME leaves a homing motor on
  its legs if and only if some selected motor is still running (`HomeSurvivesMoveIff`,
  `HomeSurvivesHomeIff`); `MoveDisturbsHome` is a run from power-up that takes one off its legs.
- With `duplicate_cache` 0 a finished command that is delivered again is taken up again
  (`CompletedIsRememberedIff`, `NoCacheNoMemory`), and a command whose events say done while its
  response carries an error line and no DONE line is completed twice (`FinishTwiceIff`). The
  outcome in `NoCacheCompletesTwice` is an arbitrary one: the handlers of the repository emit a
  DONE event while they execute only together with its DONE line.
- A command that comes again gets the publishes due for it again, read off the log since it was
  taken up (`DuplicateRepeatsItsAnswer`): its completion after the acknowledgement that preceded
  it, unless it failed. So an acknowledgement that an event published is not repeated when the
  response then carries an error (`FailureForgetsAck`, an arbitrary outcome), and one that
  follows its completion is not repeated either.
- A build with unequal flip guards can be granted a window that reaches across a pulse
  (`UnequalGuardsCanMeetAPulse`); the exact condition is `FlipWindowInsideGapIff`.
- Calling `enableOutputs` during a pending flip lets DIR change under a high SLEEP line
  (`EnableDuringFlipBreaksInterlock`); `PollBreaksInterlockIff` says exactly when.
- `ParseCsvQuoted` trims fields although they are quoted (`CsvReadBack`), and the command parser
  splits at `;` inside quotes (`OneCommandIff`).
- A SET_CONFIG text that only trims to "default" passes the message builder and is refused by
  the handler (`SetConfigReachesStore`).
- An update accepted while the configuration could not be read erases every stored field that it
  does not mention. Storage holds the fold of the accepted updates throughout a run if and only
  if each of them was applied in sight of it or mentioned every stored field
  (`StorageIsFoldIff`; one step: `StepRepresentsIff`, `FailedReadingForgets`). A reload answers
  the stored configuration if and only if storage could be read or is empty (`ReloadAnswersIff`).

## Model

| member | source | states |
|---|---|---|
| IntegerMath.RootExactIff | lib/MotorControl/src/MotionKinematics.cpp:20-47 | for n >= 1 the computed root is the least r with r*r >= n if and only if n is in no gap (4^k, 4^k + 2^k); in a gap it is exactly one short |
| IntegerMath.RootBracket | lib/MotorControl/src/MotionKinematics.cpp:21-47 | (r-1)^2 < n < r^2 + r for every n >= 1 |
| IntegerMath.RootMonotone | lib/MotorControl/src/MotionKinematics.cpp:21-47 | the computed root never decreases, gaps included |
| IntegerMath.IsqrtCeil | lib/MotorControl/src/MotionKinematics.cpp:21-47 | below 2^62 + 2^31 the doubling loop and the binary search terminate with that root, and no 64-bit operation overflows |
| IntegerMath.IsqrtOverflowsAbove | lib/MotorControl/src/MotionKinematics.cpp:21-47 | from that bound on, for every argument, the doubling stops at 2^32 and the square of the first midpoint overflows 64 bits |
| IntegerMath.CeilDivLeast | lib/MotorControl/src/MotionKinematics.cpp:11-18 | the quotient is the least k with num <= k * den |
| MotionKinematics.EstimateMoveTimeMs | lib/MotorControl/src/MotionKinematics.cpp:53-82 | the 64-bit computation gives the estimate of the unbounded specification, with no overflow for inputs below 2^31 |
| MotionKinematics.MoveTimeMonotone | lib/MotorControl/src/MotionKinematics.cpp:53-82 | the symmetric estimate never decreases with distance, also across the rounded threshold between the profiles |
| MotionKinematics.TriangleBracket | lib/MotorControl/src/MotionKinematics.cpp:53-82 | a triangular estimate t satisfies (t+1)^2 a > 4*10^6 d and (t-2)^2 a < 4*10^6 d |
| MotionKinematics.MoveTimeAtLeastCruise | lib/MotorControl/src/MotionKinematics.cpp:53-82 | the symmetric estimate is never below the time at top speed |
| MotionKinematics.MoveTimeAtMost | lib/MotorControl/src/MotionKinematics.cpp:53-82 | it is at most 2000 ms a step, for all speeds and accelerations |
| MotionKinematics.MoveTimeZeroIff | lib/MotorControl/src/MotionKinematics.cpp:53-82 | it is 0 exactly for distance 0 |
| MotionKinematics.TrapezoidCoversTriangle | lib/MotorControl/src/MotionKinematics.cpp:86-140 | integer AM-GM: the trapezoidal time squared covers the triangular square at any distance where both are defined |
| MotionKinematics.AsymMoveTimeMonotone | lib/MotorControl/src/MotionKinematics.cpp:86-140 | the asymmetric estimate never decreases with distance, for every deceleration including 0 |
| MotionKinematics.AsymAtLeastCruiseIff | lib/MotorControl/src/MotionKinematics.cpp:86-140 | the asymmetric estimate is at least the rounded time at top speed, for every input, if and only if it is not a single step with a ramp down whose triangular square stays below the least square with that root |
| MotionKinematics.AsymCanBeatCruise | lib/MotorControl/src/MotionKinematics.cpp:86-140 | an input in which it falls below: one step at one step a second is estimated at 64 ms |
| MotionKinematics.EstimateMoveTimeMsAsym | lib/MotorControl/src/MotionKinematics.cpp:86-140 | the 64-bit computation gives the asymmetric estimate of the unbounded specification for every move long enough for the trapezoid, and for shorter ones wherever the products of the triangle and the argument of its root fit |
| MotionKinematics.TravelFits | lib/MotorControl/src/MotionKinematics.cpp:86-140 | they fit for every move within the travel whose two ramps add up to at most 9*10^8 |
| MotionKinematics.HomeWithinFullRange | lib/MotorControl/src/MotionKinematics.cpp:142-168 | the two-leg HOME estimate is at most the three-leg one, which has a bound a caller can check |
| EstimateBounds.LongMoveTime | lib/MotorControl/src/MotionKinematics.cpp:53-82 | a move long enough for its top speed is estimated at the real d/v + v/a, rounded up by less than 2 ms |
| EstimateBounds.AsymLongMoveTime | lib/MotorControl/src/MotionKinematics.cpp:86-140 | one long enough for both ramps is estimated at the real d/v + v/(2 up) + v/(2 down), rounded up by less than 3 ms |
| EstimateBounds.AsymShortMoveTime | lib/MotorControl/src/MotionKinematics.cpp:86-140 | a shorter one is estimated at t with (t-1)^2 < exact^2 < t^2 + t |
| EstimateBounds.AsymMoveTimeAtMost | lib/MotorControl/src/MotionKinematics.cpp:86-140 | the asymmetric estimate is at most 2000 ms a step |
| MotorTypes.ChargeCadence | lib/MotorControl/src/StubMotorController.cpp:124-151 | bookkeeping is independent of tick cadence: any rounds ending at t leave what one round at t leaves, with the clock at 1000*floor(t/1000) |
| MotorTypes.ChargedBudget | lib/MotorControl/src/StubMotorController.cpp:124-151 | ten tenths less for every whole second awake, down to -3600, or fifteen more asleep, up to 900, and nothing else changes |
| MotorTypes.CoolDownIsExact | lib/MotorControl/src/command/CommandHandlers.cpp:757-770 | k seconds asleep refill the budget if and only if 10k covers the advertised time, and the cap never cuts it short |
| StubBackend.StubMotorController.constructor | lib/MotorControl/src/StubMotorController.cpp:12-33 | the state at power-up |
| StubBackend.StubMotorController.WakeMask | lib/MotorControl/src/StubMotorController.cpp:45-51 | the new state is the specified one |
| StubBackend.StubMotorController.SleepMask | lib/MotorControl/src/StubMotorController.cpp:53-66 | the new state and the refusal are the specified ones |
| StubBackend.StubMotorController.MoveAbsMask | lib/MotorControl/src/StubMotorController.cpp:68-92 | the new state and the refusal are the specified ones |
| StubBackend.StubMotorController.HomeMask | lib/MotorControl/src/StubMotorController.cpp:94-122 | the new state and the refusal are the specified ones, with the two legs added in 32 bits |
| StubBackend.StubMotorController.TickAll | lib/MotorControl/src/StubMotorController.cpp:124-196 | one tick of every motor: books, forced sleep, completion |
| StubTicks.TickOfOne | lib/MotorControl/src/StubMotorController.cpp:124-196 | with limits on a motor below -50 tenths is put to sleep where it is and loses its plan; one whose plan is due stands at its target, asleep, homed after a HOME; the duration is put on record; any other motor only has its books kept |
| CommandHandlers.FindOverMax | lib/MotorControl/src/command/CommandHandlers.cpp:386-434 | the loop finds the first selected motor over the maximum running time and the longest estimate |
| CommandHandlers.FindShort | lib/MotorControl/src/command/CommandHandlers.cpp:435-454 | the loop finds the first selected motor without the budget, and its cool-down time |
| CommandHandlers.RunMove | lib/MotorControl/src/command/CommandHandlers.cpp:309-489 | MOVE ticks, admits and starts as specified, and answers accordingly |
| CommandHandlers.RunHome | lib/MotorControl/src/command/CommandHandlers.cpp:491-692 | HOME likewise, with the 32-bit sum and rounding of its estimate |
| CommandHandlers.RunWake | lib/MotorControl/src/command/CommandHandlers.cpp:260-291 | WAKE is refused for a motor without budget, else wakes the mask |
| CommandHandlers.RunSleep | lib/MotorControl/src/command/CommandHandlers.cpp:293-307 | SLEEP is refused while a selected motor moves |
| Admission.MoveAcceptedIff | lib/MotorControl/src/command/CommandHandlers.cpp:309-489 | with limits on a MOVE is accepted if and only if target, speed and acceleration are valid and after the tick no selected motor moves, every selected estimate is at most 90000 ms, and every selected motor has ten tenths for each second begun of every selected estimate |
| Admission.MoveAnswered | lib/MotorControl/src/command/CommandHandlers.cpp:309-489 | the first motor over 90000 ms, else the first that cannot pay for the longest estimate, is named with its budget in seconds and its cool-down time, as a refusal with limits on and as a warning with limits off; an accepted MOVE starts all its motors with their own durations, any other starts none |
| Admission.UnlimitedMoveAcceptedIff | lib/MotorControl/src/command/CommandHandlers.cpp:309-489 | with limits off only moving motors and bad parameters refuse it |
| Admission.HomeAcceptedIff | lib/MotorControl/src/command/CommandHandlers.cpp:491-692 | with limits on a HOME is accepted if and only if speed and acceleration are valid and after the tick no selected motor moves and the seconds of its three legs, added and rounded in 32 bits, are at most 90 and paid for by each |
| Admission.HomeAnswered | lib/MotorControl/src/command/CommandHandlers.cpp:491-692 | its reason named likewise, and all its motors started or none |
| Admission.WakeAnswered | lib/MotorControl/src/command/CommandHandlers.cpp:260-291 | every selected motor is awake afterwards, unless limits are on and one has less than ten tenths; with limits off that is a warning |
| Admission.SleepAnswered | lib/MotorControl/src/command/CommandHandlers.cpp:293-307 | every selected motor is asleep afterwards, unless one of them moves |
| ThermalRuns.RunKeepsInv | lib/MotorControl/src/StubMotorController.cpp:124-196 | over every run of commands, refused ones included, from any state in which it holds: budgets stay in [-3600, 900], positions in the travel, and a motor moves exactly while its plan is active |
| ThermalRuns.PowerUpRunsKeepInv | lib/MotorControl/src/StubMotorController.cpp:12-196 | the same in every run from power-up |
| ThermalRuns.SafeWindowExact | lib/MotorControl/src/StubMotorController.cpp:153-196 | no schedule of commands up to a deadline gets a motor in flight cancelled if and only if its budget lasts until that deadline |
| ThermalRuns.AcceptedMoveCompletes | lib/MotorControl/src/command/CommandHandlers.cpp:385-489 | with limits on, an accepted MOVE with a nonzero estimate is never cancelled up to 5 s past its planned end under any schedule, and the first event in that window finds it at its target |
| ThermalRuns.AcceptedMoveCompletesIff | lib/MotorControl/src/command/CommandHandlers.cpp:385-489 | for every accepted MOVE, zero estimates included: it completes under every schedule up to 5 s past its end if and only if the budget after the handler's tick lasts that long |
| ThermalRuns.HomePlayedWithinAdmitted | lib/MotorControl/src/command/CommandHandlers.cpp:583-640 | the two legs played last at most the three legs admitted |
| ThermalRuns.AcceptedHomeCompletes | lib/MotorControl/src/command/CommandHandlers.cpp:583-692 | the same guarantee for HOME, when its arithmetic fits in 32 bits |
| ThermalRuns.AcceptedHomeCompletesIff | lib/MotorControl/src/command/CommandHandlers.cpp:583-692 | for every accepted HOME, wrapped arithmetic included: likewise, with the duration it is played for |
| ThermalLimits.BudgetNeverFarBelow | lib/MotorControl/src/StubMotorController.cpp:153-170 | with limits on, ticks at most g ms apart, MOVEs that move some selected motor and HOMEs admitted for a second or more (or either without an overrun motor), no budget drops below -50 - 10*ceil(g/1000) tenths |
| ThermalLimits.BudgetNeverFarBelowFromPowerUp | lib/MotorControl/src/StubMotorController.cpp:12-170 | the same in every such run from power-up |
| ThermalLimits.MovingCosts | lib/MotorControl/src/command/CommandHandlers.cpp:385-434 | an accepted MOVE has a nonzero estimate if and only if some selected motor stands elsewhere after the tick |
| ThermalLimits.GapExact | lib/MotorControl/src/StubMotorController.cpp:124-151 | after a gap of whole seconds awake the budget is at the bound if and only if it was not overrun before |
| ThermalLimits.MoveKeepsBoundIff | lib/MotorControl/src/command/CommandHandlers.cpp:385-489 | any accepted MOVE keeps the bound under every run as above if and only if no motor it wakes has overrun, which can only fail when it moves nothing |
| ThermalLimits.HomeKeepsBoundIff | lib/MotorControl/src/command/CommandHandlers.cpp:583-692 | the same for any accepted HOME, wrapped or not, which can only fail when it is admitted for less than a second |
| ThermalLimits.FittingHomeCosts | lib/MotorControl/src/command/CommandHandlers.cpp:583-640 | a HOME whose arithmetic fits in 32 bits is admitted for at least a second |
| ThermalLimits.StayingDrainsBudget | lib/MotorControl/src/command/CommandHandlers.cpp:385-489 | counterexample family: after k moves to the current position, one a second, the budget is what k seconds awake leave, down to the floor |
| ThermalLimits.WrappedHomeIsCancelled | lib/MotorControl/src/command/CommandHandlers.cpp:583-692 | counterexample: a HOME whose sum wraps is accepted and cancelled |
| BatchOrder.FindOverlap | lib/MotorControl/src/command/CommandBatchExecutor.cpp:50-60 | the overlap check refuses exactly the lists with two intersecting masks |
| BatchOrder.EachCallAlone | lib/MotorControl/src/StubMotorController.cpp:45-122 | controller calls without the handlers' ticks: each call of a disjoint list has the result it would have alone, and each motor sees only the call that owns it |
| BatchOrder.BatchOrderIrrelevant | lib/MotorControl/src/StubMotorController.cpp:45-122 | of these calls alone, without the handlers' ticks, every permutation of a disjoint list ends in the same state with the same results per call |
| BatchOrder.Aggregate | lib/MotorControl/src/command/CommandBatchExecutor.cpp:82-117 | the loop keeps the other lines in order and reports the longest estimate, if any line carries one |
| BatchRuns.RunBatch | lib/MotorControl/src/command/CommandBatchExecutor.cpp:82-117 | the dispatch loop runs the handlers in order at one time, each with its tick, up to the first refused MOVE or HOME |
| BatchRuns.FinishesIff | lib/MotorControl/src/command/CommandBatchExecutor.cpp:82-117 | a disjoint batch runs to its end if and only if none of its commands would be refused alone |
| BatchRuns.CommandsAlone | lib/MotorControl/src/command/CommandBatchExecutor.cpp:50-117 | then every reply is the one the command would get alone, and every motor sees only the command that owns it, followed by a tick unless that was the last command |
| BatchRuns.RepliesOrderFree | lib/MotorControl/src/command/CommandBatchExecutor.cpp:50-117 | every order of a disjoint batch that finishes finishes, with the same reply to each command |
| BatchRuns.BatchOrderFreeIff | lib/MotorControl/src/command/CommandBatchExecutor.cpp:50-117 | for two or more commands, wrapped HOMEs included, all orders end in the same state if and only if none is a MOVE to where a motor it selects stands after the tick, a HOME planned for 0 ms, or with limits on a HOME of an overrun motor; the replies agree in any case |
| BatchRuns.FittingHomeEndsIff | lib/MotorControl/src/command/CommandBatchExecutor.cpp:50-117 | for a HOME whose arithmetic fits in 32 bits that is exactly overshoot and backoff 0 |
| BatchRuns.OrderMattersForStay | lib/MotorControl/src/command/CommandBatchExecutor.cpp:50-117 | an input from power-up, MOVE to the current position with WAKE of another motor, whose two orders end in different states |
| BatchRuns.OrderMattersForWrappedHome | lib/MotorControl/src/command/CommandBatchExecutor.cpp:50-117 | an input from power-up with a HOME that has legs to play but wraps to 0 ms |
| BatchRuns.EstimateOrderFree | lib/MotorControl/src/command/CommandBatchExecutor.cpp:82-117 | whether the reply lines of the batch carry an estimate, and the longest of them, are the same in every order |
| HardwareController.HardwareMotorController.Wake | lib/MotorControl/src/HardwareMotorController.cpp:147-163 | registers in step with the controller's bits, and the specified new state |
| HardwareController.HardwareMotorController.Sleep | lib/MotorControl/src/HardwareMotorController.cpp:165-185 | likewise, and refused while a selected motor moves |
| HardwareController.HardwareMotorController.MoveAbs | lib/MotorControl/src/HardwareMotorController.cpp:187-242 | likewise: prepare all, latch once, start all |
| HardwareController.HardwareMotorController.Home | lib/MotorControl/src/HardwareMotorController.cpp:244-311 | likewise for the first leg of HOME |
| HardwareController.HardwareMotorController.Tick | lib/MotorControl/src/HardwareMotorController.cpp:313-454 | one tick: books, adapter reports, sleeps, both barriers, completion |
| HardwareController.HardwareMotorController.GroupBarrier | lib/MotorControl/src/HardwareMotorController.cpp:404-435 | a barrier launches all its waiting motors or none |
| HardwareController.HardwareMotorController.StartMoveSingle | lib/MotorControl/src/HardwareMotorController.cpp:126-145 | latches the bits of one motor and then starts it |
| HardwareRuns.TickIs | lib/MotorControl/src/HardwareMotorController.cpp:313-454 | what one tick does to each motor and exactly what it appends to the trace of latches and starts |
| HardwareRuns.BarriersIs | lib/MotorControl/src/HardwareMotorController.cpp:404-435 | at most one of the two barriers launches in a tick, because the motors it launches keep the other one closed |
| HardwareRuns.StepKeepsInv | lib/MotorControl/src/HardwareMotorController.cpp:121-311 | after every call the registers hold the controller's bits, every start in the trace found SLEEP high and DIR matching its direction, forced-awake motors have SLEEP high, idle motors are at their targets |
| HomingRuns.RunKeepsInv | lib/MotorControl/src/HardwareMotorController.cpp:121-454 | the same over every possible run from a state in which it holds |
| HomingRuns.PowerUpRunsSafe | lib/MotorControl/src/HardwareMotorController.cpp:65-454 | in every run from power-up the registers hold the controller's bits and every start found its motor awake and pointing its way |
| HomingRuns.OtherMotorsUntouched | lib/MotorControl/src/HardwareMotorController.cpp:147-311 | wake, sleep, move and home leave other motors' bits and plans alone |
| HomingRuns.TickLeg | lib/MotorControl/src/HardwareMotorController.cpp:404-452 | no tick advances a motor by more than one leg, and none starts a leg while a motor in its phase moves |
| HomingRuns.TickAdvancesIff | lib/MotorControl/src/HardwareMotorController.cpp:404-452 | a tick that does not put a homing motor to sleep takes it to the next leg if and only if all such motors on its leg have arrived and, for the second leg, the first-leg barrier does not open in that tick; it ends the third leg if and only if the motor has arrived |
| HomingRuns.HomeLockstep | lib/MotorControl/src/HardwareMotorController.cpp:244-454 | motors homed by the same calls are in the same leg while both are homing |
| HomingRuns.HomeCallLockstep | lib/MotorControl/src/HardwareMotorController.cpp:244-454 | the same for motors that one HOME homes in any state reached from power-up, from that call on |
| HomingRuns.HomeRunsItsLegs | lib/MotorControl/src/HardwareMotorController.cpp:244-454 | a HOME that lasts has issued exactly the starts of its legs so far; one that ends has issued c0-(range+overshoot), +backoff, +range/2 and is homed at 0, or overran its budget with limits on |
| HomingRuns.HomeCallRunsItsLegs | lib/MotorControl/src/HardwareMotorController.cpp:244-454 | the same for a HOME that is accepted in any state reached from power-up, its first leg included |
| HomingRuns.HomedOnlyByThirdLeg | lib/MotorControl/src/HardwareMotorController.cpp:437-452 | nothing but the end of a third leg makes a motor homed |
| HomingRuns.HomeSurvivesMoveIff | lib/MotorControl/src/HardwareMotorController.cpp:187-242 | a MOVE that selects a homing motor leaves it on its legs if and only if the adapter still runs some selected motor |
| HomingRuns.HomeSurvivesHomeIff | lib/MotorControl/src/HardwareMotorController.cpp:244-311 | likewise for a second HOME |
| HomingRuns.MoveDisturbsHome | lib/MotorControl/src/HardwareMotorController.cpp:111-119 | a run of two motors from power-up in which one waits at the barrier, accepts a MOVE and leaves its legs |
| HardwareEffects.TickTurnsOff | lib/MotorControl/src/HardwareMotorController.cpp:313-400 | with limits on, a tick that finds a motor's budget below -50 tenths leaves it with SLEEP low, no override, not awake, not moving and no plan, whatever it did |
| HardwareEffects.PowerUpTickTurnsOff | lib/MotorControl/src/HardwareMotorController.cpp:65-454 | the same in every run from power-up, and a motor that WAKE keeps awake and whose budget is not below that keeps SLEEP high |
| HardwareEffects.WokenMotorTurnsOff | lib/MotorControl/src/HardwareMotorController.cpp:147-400 | a motor woken at power-up is awake with SLEEP high after every tick before 96 s and off after the first one from then on |
| HardwareEffects.TickFollows | lib/MotorControl/src/HardwareMotorController.cpp:313-400 | any other motor that is not homing is awake while it runs or is kept awake, drops SLEEP at idle, has the adapter's position, and ends its operation with its duration on record once it stands |
| HardwareEffects.TickHomes | lib/MotorControl/src/HardwareMotorController.cpp:313-454 | a homing motor that is not exhausted keeps its override and has SLEEP high when it is kept awake or started on a leg |
| HardwareEffects.WakeRaises | lib/MotorControl/src/HardwareMotorController.cpp:147-163 | WAKE raises SLEEP and the override of exactly the selected motors, in one latch |
| HardwareEffects.SleepLowers | lib/MotorControl/src/HardwareMotorController.cpp:165-185 | SLEEP lowers them unless the adapter runs one of them |
| HardwareEffects.MoveSends | lib/MotorControl/src/HardwareMotorController.cpp:187-242 | MOVE is accepted unless the adapter runs a selected motor, and sets DIR towards the target, SLEEP high, starts the adapter and records the operation for exactly the selected motors |
| HardwareEffects.HomeSends | lib/MotorControl/src/HardwareMotorController.cpp:244-311 | HOME likewise, towards range plus overshoot back from where the motor stands, with its plan |
| MqttCommandServer.MqttCommandServer.Incoming | lib/mqtt_commands/src/MqttCommandServer.cpp:259-334 | the maps and queues after a message are the specified ones |
| MqttCommandServer.MqttCommandServer.HandleDuplicateCommand | lib/mqtt_commands/src/MqttCommandServer.cpp:336-389 | what a duplicate is answered |
| MqttCommandServer.MqttCommandServer.ExecuteCommand | lib/mqtt_commands/src/MqttCommandServer.cpp:559-649 | events, binding, and the answer when no stream takes the response over |
| MqttCommandServer.MqttCommandServer.StreamConsumesResponse | lib/mqtt_commands/src/MqttCommandServer.cpp:513-557 | which ids the stream is bound to and whether it takes the response over |
| MqttCommandServer.MqttCommandServer.HandleDispatcherEvent | lib/mqtt_commands/src/MqttCommandServer.cpp:1268-1305 | an event reaches its stream or the buffer of at most four commands |
| MqttCommandServer.MqttCommandServer.BindStreamToMessageId | lib/mqtt_commands/src/MqttCommandServer.cpp:1381-1400 | binding replays what was buffered and empties it |
| MqttCommandServer.MqttCommandServer.FinalizeCompleted | lib/mqtt_commands/src/MqttCommandServer.cpp:1447-1498 | waiting commands whose motors stopped are completed and removed |
| MqttRuns.RunKeepsInv | lib/mqtt_commands/src/MqttCommandServer.cpp:259-649 | streams, waiting commands and cache stay disjoint and duplicate-free, cached payloads were published, accepted commands are recorded or outstanding, at most one original acknowledgement and exactly one completion each, at most four orphan ids listed exactly by their order |
| MqttRuns.CompletedExactlyOnce | lib/mqtt_commands/src/MqttCommandServer.cpp:259-453 | in every run from an empty server with a cache of any size, each time a command was taken up it is outstanding in exactly one place or was completed by one original completion; with a cache of 0, for outcomes whose events and response agree on being done |
| MqttRuns.FinishTwiceIff | lib/mqtt_commands/src/MqttCommandServer.cpp:559-649 | finishing a command completes it at most twice, and twice if and only if the cache is 0 and an event that says done is buffered under the id of its response, which has an error line and no DONE line |
| MqttRuns.LateDoneIff | lib/mqtt_commands/src/MqttCommandServer.cpp:513-557 | that is exactly when binding a stream that is not done to its response completes such a command |
| MqttRuns.TakenUpAgainOnlyAfterEviction | lib/mqtt_commands/src/MqttCommandServer.cpp:336-389 | a command is taken up again only after duplicate_cache later completions were recorded |
| MqttRuns.DuplicateOnlyRepeats | lib/mqtt_commands/src/MqttCommandServer.cpp:353-389 | a duplicate publishes only payloads already published for that command and changes nothing else |
| MqttReplay.DuplicateAnswered | lib/mqtt_commands/src/MqttCommandServer.cpp:259-389 | in every state in which what is remembered fits the log since the command was taken up, it is answered with exactly what is due again and nothing else changes: its acknowledgement while it runs; once finished its completion, preceded by the acknowledgement before it unless it failed |
| MqttReplay.StepTells | lib/mqtt_commands/src/MqttCommandServer.cpp:259-649 | every input keeps that fit, for every command, and taking a command up establishes it |
| MqttReplay.DuplicateRepeatsItsAnswer | lib/mqtt_commands/src/MqttCommandServer.cpp:259-649 | so in every run from an empty server, for the publishes since the latest message that took the command up |
| MqttReplay.FinishedHeard | lib/mqtt_commands/src/MqttCommandServer.cpp:336-389 | what is due again after one completion in the log: that payload, and the last acknowledgement before it |
| MqttReplay.UnfinishedHeard | lib/mqtt_commands/src/MqttCommandServer.cpp:336-389 | and without one: the last acknowledgement, if any |
| MqttOrphans.WholeCommandBuffered | lib/mqtt_commands/src/MqttCommandServer.cpp:1268-1305 | the command just executed is never evicted before its stream is bound |
| MqttOrphans.BufferingIsTransparent | lib/mqtt_commands/src/MqttCommandServer.cpp:1268-1423 | buffering a command's events and then binding publishes the same payloads and leaves the same streams and caches as binding first and delivering live |
| MqttOrphans.FirstAckIsPublished | lib/mqtt_commands/src/MqttCommandServer.cpp:1307-1327 | a delivered acknowledgement is published, once |
| MqttOrphans.DoneEventCompletes | lib/mqtt_commands/src/MqttCommandServer.cpp:1402-1423 | a DONE event completes its bound command once and releases the stream; the cache holds it if and only if it has room for an entry |
| MqttOrphans.CompletedIsRememberedIff | lib/mqtt_commands/src/MqttCommandServer.cpp:336-453 | in every reachable state a command just completed is a duplicate if and only if the cache has room for an entry |
| MqttOrphans.NoCacheNoMemory | lib/mqtt_commands/src/MqttCommandServer.cpp:443-453 | with a cache of 0 a finished command sent again is taken up again |
| MqttOrphans.NoCacheCompletesTwice | lib/mqtt_commands/src/MqttCommandServer.cpp:559-649 | an arbitrary outcome with a cache of 0 that is completed twice |
| MqttAnswers.FailureForgetsAck | lib/mqtt_commands/src/MqttCommandServer.cpp:559-649 | an arbitrary outcome, acknowledged by an event and failed by its response, whose duplicate gets the failure without the acknowledgement |
| MqttAnswers.FinalizeIs | lib/mqtt_commands/src/MqttCommandServer.cpp:1447-1498 | the periodic check publishes one completion with status ok for each waiting command whose motors have all stopped, in order, and keeps exactly the others waiting |
| MqttAnswers.EventPublishes | lib/mqtt_commands/src/MqttCommandServer.cpp:1307-1423 | an event adds its line; the first acknowledgement and the first completion are published with all lines so far, and nothing else is |
| MqttAnswers.BufferKeepsNewest | lib/mqtt_commands/src/MqttCommandServer.cpp:1268-1299 | an event for no stream is kept under its id, and the oldest of five ids goes |
| MqttAnswers.ResponseAnswers | lib/mqtt_commands/src/MqttCommandServer.cpp:559-649 | a command without events or DONE line gets an acknowledgement if its response has one and no error, and a completion with the status of the response unless it is a MOVE under way, which waits |
| MqttAnswers.OthersAnswered | lib/mqtt_commands/src/MqttCommandServer.cpp:259-300 | HELP is answered done, any message that is no command failed, at once and without a stream |
| CompletionTracker.Tracker.RegisterOperation | lib/transport/src/CompletionTracker.cpp:16-35 | with an id and motors: the new entry is last, no older entry of its id is left, and every other entry is kept in its order; otherwise nothing changes |
| CompletionTracker.Tracker.Tick | lib/transport/src/CompletionTracker.cpp:37-76 | the erasing walk removes exactly the stopped entries and emits one event for each, in order, with the longest duration of its motors |
| CompletionTracker.OneDonePerOperation | lib/transport/src/CompletionTracker.cpp:16-76 | over every run, ids used again included, each operation added is still waiting, was reported done, or was replaced while waiting, exactly one of them and once, and no two entries share an id |
| CompletionTracker.DoneAtMostOnce | lib/transport/src/CompletionTracker.cpp:16-76 | from an empty tracker an id is reported done no more often than it was registered, and less often while it waits |
| CompletionTracker.EachDoneOrWaiting | lib/transport/src/CompletionTracker.cpp:16-76 | with ids never used again, each operation is waiting or was reported done, once |
| PublishQueue.Queue.EnqueuePublishMessage | lib/mqtt_presence/include/mqtt/PublishQueuePolicy.h:10-43 | replaces, erases and appends in the queue as specified |
| PublishQueue.Queue.DrainPublishQueue | lib/mqtt_presence/src/MqttPresenceClient.cpp:570-585 | what was sent and what is left make up the old queue, and how many were sent |
| PublishQueue.EnqueuedResponse | lib/mqtt_presence/include/mqtt/PublishQueuePolicy.h:28-43 | a response is lost only when the queue is full of responses, and then it is the oldest |
| PublishQueue.EnqueuedStatus | lib/mqtt_presence/include/mqtt/PublishQueuePolicy.h:13-26 | a status never costs a response and takes the place of the queued one |
| PublishQueue.QueuePolicyHolds | lib/mqtt_presence/include/mqtt/PublishQueuePolicy.h:10-43 | over every interleaving of enqueues and drains: length within capacity, at most one status and that the newest, and responses delivered or queued are an order-preserving subsequence of those offered, short of exactly the ones counted as lost |
| PublishQueue.QueuePolicyFromEmpty | lib/mqtt_presence/include/mqtt/PublishQueuePolicy.h:10-43 | the same from the empty queue |
| SharedStepTiming.StepPeriodNearest | include/MotorControl/SharedStepTiming.h:30-39 | up to two million steps a second the period is the nearest whole microsecond |
| SharedStepTiming.AlignIsNextEdge | include/MotorControl/SharedStepTiming.h:43-50 | the edge found is the first multiple of the period at or after the time |
| SharedStepTiming.FlipWindowInsideGapIff | include/MotorControl/SharedStepGuards.h:37-54 | a granted window lies strictly between two consecutive pulses if and only if each guard fits its half of the period |
| SharedStepTiming.EqualGuardsStayClear | include/MotorControl/SharedStepGuards.h:37-54 | for equal guards every granted window does |
| SharedStepTiming.UnequalGuardsCanMeetAPulse | include/MotorControl/SharedStepGuards.h:37-54 | counterexample with unequal guards: a window from 40 to 90 around the pulse at 60 |
| SharedStepTiming.StopDistanceLeast | include/MotorControl/SharedStepTiming.h:62-70 | the stopping distance is the least whole number of steps with v^2 <= 2 a steps |
| SharedStepAdapter.SharedStepAdapterEsp32.StartMoveAbs | src/drivers/Esp32/SharedStepAdapterEsp32.cpp:139-212 | the new slots, flips, lines and generator are the specified ones |
| SharedStepAdapter.SharedStepAdapterEsp32.UpdateProgress | src/drivers/Esp32/SharedStepAdapterEsp32.cpp:214-257 | likewise for a poll: flip stages, integration, ramp, sleep on arrival |
| SharedStepAdapter.SharedStepAdapterEsp32.UpdateRamp | src/drivers/Esp32/SharedStepAdapterEsp32.cpp:259-326 | likewise for the ramp and the generator's start and stop |
| SharedStepAdapter.SharedStepAdapterEsp32.RunFlipScheduler | src/drivers/Esp32/SharedStepAdapterEsp32.cpp:328-369 | likewise for the stages of a flip and the latches they cause |
| SharedStepRuns.OtherMotorsUntouched | src/drivers/Esp32/SharedStepAdapterEsp32.cpp:119-257 | a call leaves every other motor's slot, flip and lines alone |
| SharedStepRuns.RunKeepsInv | src/drivers/Esp32/SharedStepAdapterEsp32.cpp:119-369 | over every run that enables no motor during its pending flip: DIR never changes under a high SLEEP line, a moving motor that is awake has DIR right, awake means SLEEP high, and while a motor moves the generator runs at 20 steps a second or more and at most the fastest cruise speed asked for |
| SharedStepRuns.BeginRunsKeepInv | src/drivers/Esp32/SharedStepAdapterEsp32.cpp:22-369 | the same for every such run from begin |
| SharedStepRuns.PollBreaksInterlockIff | src/drivers/Esp32/SharedStepAdapterEsp32.cpp:328-369 | exactly when a poll changes DIR under a high SLEEP line |
| SharedStepRuns.EnableDuringFlipBreaksInterlock | src/drivers/Esp32/SharedStepAdapterEsp32.cpp:119-127 | a run in which it happens |
| SharedStepRuns.PendingFlipCompletes | src/drivers/Esp32/SharedStepAdapterEsp32.cpp:328-369 | the first poll at or after the end of a pending flip finds the motor awake with DIR right, or arrived |
| SharedStepRuns.MoveIntegratedExactly | src/drivers/Esp32/SharedStepAdapterEsp32.cpp:214-257 | for every polling of all motors, 10^6 times the distance covered plus the fraction equals the sum of speed times time over the awake polls, the move is over if and only if that sum reaches 10^6 a step, and the target is never passed |
| SharedStepRuns.MoveEndsInTime | src/drivers/Esp32/SharedStepAdapterEsp32.cpp:139-257 | a move of n steps from any reachable state is over once its awake polls total 50000 n microseconds, and not before n steps at the speed cap |
| SharedStepRuns.MoveFromBeginEndsInTime | src/drivers/Esp32/SharedStepAdapterEsp32.cpp:22-257 | the same for a move started at any point of such a run from begin |
| SharedStepRamp.UpdateFollows | src/drivers/Esp32/SharedStepAdapterEsp32.cpp:259-326 | one update: below the top speed, speed and fraction gain acceleration times elapsed time up to the top; when it must brake they lose deceleration times elapsed time down to 0; else they stay, and the generator pulses at that speed or 20 |
| SharedStepRamp.PollFollowsRamp | src/drivers/Esp32/SharedStepAdapterEsp32.cpp:214-326 | a poll does so for the motor nearest to its target; with a deceleration set the speed falls once that distance is within the stopping distance |
| SharedStepRamp.RunClimbs | src/drivers/Esp32/SharedStepAdapterEsp32.cpp:214-326 | over any calls during a move without deceleration: speed and fraction have grown by acceleration times the time between updates until the top speed and stay there, and the speed never falls |
| SharedStepRamp.RunTuned | src/drivers/Esp32/SharedStepAdapterEsp32.cpp:119-326 | over every careful run the running generator pulses at the ramp's speed, but at 20 or more |
| SharedStepRamp.StartClimbs | src/drivers/Esp32/SharedStepAdapterEsp32.cpp:139-212 | a move started at rest starts at 20 with its own top speed and acceleration |
| SharedStepRamp.ClimbEndsInTime | src/drivers/Esp32/SharedStepAdapterEsp32.cpp:214-326 | a climbing move polled at least every gap microseconds is over once its awake time covers its steps at the top speed and what the climb and the polling lose |
| SharedStepRamp.MoveEndsWithinClimb | src/drivers/Esp32/SharedStepAdapterEsp32.cpp:22-326 | so for a move of n steps from rest in any state reached from begin, without deceleration: it is over once v*time - 10^6 n >= w^2/(2*10^6 a) + w/a with w = 10^6 (v - 20) + a*gap |
| SharedStepFlips.StartBooksFlip | src/drivers/Esp32/SharedStepAdapterEsp32.cpp:139-212 | a move starts at once with SLEEP high and DIR right, or, when its direction changes while pulses run, with SLEEP low, DIR as it was and a flip booked after now and strictly between two pulses |
| SharedStepFlips.FlipStagesInTime | src/drivers/Esp32/SharedStepAdapterEsp32.cpp:328-369 | DIR changes no earlier than the middle of its window and SLEEP rises no earlier than its end |
| SharedStepFlips.OutputsFollow | src/drivers/Esp32/SharedStepAdapterEsp32.cpp:119-137 | enabling and disabling set SLEEP and leave DIR |
| SharedStepFlips.ArrivalSleeps | src/drivers/Esp32/SharedStepAdapterEsp32.cpp:240-257 | a motor that has arrived sleeps unless it was enabled, and the pulses run exactly while some motor moves |
| TextScan.TrimPadded | lib/MotorControl/src/command/CommandUtils.cpp:11-21 | trimming removes exactly the spaces around a text |
| TextScan.TrimText | lib/MotorControl/src/command/CommandUtils.cpp:11-21 | the two loops compute it |
| TextScan.SplitText | lib/MotorControl/src/command/CommandUtils.cpp:29-37 | the loop computes the pieces |
| TextScan.SplitJoins | lib/MotorControl/src/command/CommandUtils.cpp:29-37 | joining the pieces gives the text back, up to one delimiter at its end |
| TextScan.DecimalReadBack | lib/MotorControl/src/command/CommandUtils.cpp:97-108 | a number written in decimal is read back if and only if it is at most LONG_MAX (32 bits); a larger one reads as LONG_MAX |
| TextScan.IdNamesItsMotor | lib/MotorControl/src/command/CommandUtils.cpp:119-138 | a decimal id names exactly its motor, and none out of range |
| CommandText.UnquoteQuoted | lib/mqtt_commands/src/MqttCommandServer.cpp:73-116 | Unquote undoes QuoteString and QuoteIfNeeded on every string |
| CommandText.QuoteText | lib/MotorControl/src/command/CommandUtils.cpp:83-95 | the loop computes QuoteString |
| CommandText.UnquoteText | lib/mqtt_commands/src/MqttCommandServer.cpp:73-92 | the loop computes Unquote |
| CommandText.ParseCsvText | lib/MotorControl/src/command/CommandUtils.cpp:39-81 | the scanning loop computes ParseCsvQuoted |
| CommandText.CsvReadBack | lib/MotorControl/src/command/CommandUtils.cpp:39-95 | comma-joined quoted fields are read back, each one trimmed |
| KeyValueArgs.ParseKeyValueArgs | lib/MotorControl/src/command/CommandHandlers.cpp:133-205 | the cursor loops compute the parse, with its errors |
| KeyValueArgs.ArgsReadBackIff | lib/MotorControl/src/command/CommandHandlers.cpp:133-205 | the parser inverts a space-joined list of key=QuoteIfNeeded(value) if and only if every key is nonempty and free of spaces, '=' and ',' |
| CommandLines.ParseLine | lib/MotorControl/src/command/CommandParser.cpp:6-37 | the loop computes the commands of a line |
| CommandLines.OneCommandIff | lib/MotorControl/src/command/CommandParser.cpp:6-37 | a trimmed line is taken as the one command it is if and only if it holds no ';' |
| CommandLines.BuildNetSet | lib/mqtt_commands/src/MqttCommandServer.cpp:872-896 | the line built for NET:SET |
| CommandLines.NetSetParsesIff | lib/mqtt_commands/src/MqttCommandServer.cpp:872-896 | NET:SET is parsed as the one command it is if and only if neither text holds a ';' |
| CommandLines.NetSetReadBack | lib/MotorControl/src/command/CommandHandlers.cpp:1057-1096 | the handler then stores exactly the trimmed name and password, within its limits |
| CommandLines.BuildSetConfig | lib/mqtt_commands/src/MqttCommandServer.cpp:1020-1104 | the line built for SET_CONFIG, or the error |
| CommandLines.RecordPairs | lib/MotorControl/src/command/CommandHandlers.cpp:1208-1245 | the loop over the entries computes the update or the first error |
| CommandLines.SetConfigParsesIff | lib/mqtt_commands/src/MqttCommandServer.cpp:1020-1104 | SET_CONFIG is parsed as the one command it is if and only if no entry holds a ';' |
| CommandLines.SetConfigReachesStore | lib/MotorControl/src/command/CommandHandlers.cpp:1160-1246 | from message to store: an accepted request without ';' arrives as one command and yields exactly the update it means, texts trimmed, if and only if none of them trims to "default" |
| ConfigStore.MqttConfigStore.ApplyUpdate | lib/mqtt_config/src/MqttConfigStore.cpp:221-244 | the new state, acceptance and error are the specified ones |
| ConfigFields.AcceptedIff | lib/mqtt_config/src/MqttConfigStore.cpp:221-285 | an update is accepted if and only if every value that is set is within the limits and storage can be written |
| ConfigFields.UpdateTakesEffect | lib/mqtt_config/src/MqttConfigStore.cpp:221-333 | after a readable update that is accepted each field is the value set, the default if reset, or what it was, at once and after a reboot; any other update changes no field |
| ConfigFields.RunAnswersLastMention | lib/mqtt_config/src/MqttConfigStore.cpp:214-402 | after every keeping run each field answered is what the last accepted update that mentions it says, or the value at the start; and a reboot changes none |
| ConfigFields.FirstBootAnswersLastMention | lib/mqtt_config/src/MqttConfigStore.cpp:214-402 | from the first boot, or the compiled-in default |
| ConfigStore.MqttConfigStore.ReloadConfig | lib/mqtt_config/src/MqttConfigStore.cpp:214-219 | storage is untouched, the revision is one higher, and the configuration answered is the stored one if and only if storage could be read or is empty |
| ConfigStore.ReloadAnswersIff | lib/mqtt_config/src/MqttConfigStore.cpp:214-219 | the same as a fact about every store that represents a configuration |
| ConfigStore.PortReadBack | lib/mqtt_config/src/MqttConfigStore.cpp:159-169 | a stored port is read back, whatever the fallback |
| ConfigStore.PersistLoad | lib/mqtt_config/src/MqttConfigStore.cpp:335-402 | persisting keeps exactly the fields that differ from the defaults, and loading returns the configuration |
| ConfigStore.StoreIsFold | lib/mqtt_config/src/MqttConfigStore.cpp:214-402 | after any updates, reloads, readings and reboots that can each read what is stored, or are accepted and mention all of it, the store represents the fold of the accepted updates over where it started |
| ConfigStore.StepRepresentsIff | lib/mqtt_config/src/MqttConfigStore.cpp:221-244 | one operation leaves the store representing its configuration if and only if it could read, or is an accepted update that mentions every stored field |
| ConfigStore.StorageIsFoldIff | lib/mqtt_config/src/MqttConfigStore.cpp:214-402 | over every run, failed readings included: storage holds the fold of the accepted updates at every point if and only if each of them was applied in sight of it or mentioned every stored field |
| ConfigStore.HarmlessRunReadBack | lib/mqtt_config/src/MqttConfigStore.cpp:214-402 | after such a run from the first boot, a reboot and a reading that succeeds answer the fold |
| ConfigStore.StoreFromFirstBoot | lib/mqtt_config/src/MqttConfigStore.cpp:214-402 | from the first boot on it represents the fold over the compiled-in defaults, and that is what it answers |
| ConfigStore.RebootsUnobservable | lib/mqtt_config/src/MqttConfigStore.cpp:214-402 | two runs with the same accepted updates answer the same configuration |
| ConfigStore.RevisionGrows | lib/mqtt_config/src/MqttConfigStore.cpp:221-244 | the revision strictly increases with every accepted update and never falls without a reboot |
| ConfigStore.FailedReadingIff | lib/mqtt_config/src/MqttConfigStore.cpp:335-341 | a failed reading answers the right configuration exactly when nothing is stored |
| ConfigStore.FailedReadingForgets | lib/mqtt_config/src/MqttConfigStore.cpp:335-402 | an instance: after a failed reading an accepted update of the user erases a stored host |

## Left out

- WiFi onboarding, the HTTP portal and its scripts, the command-line tools, logging and response formatting: platform calls, user interface and easy members.
- JSON parsing and building, the MQTT client, NVS, SPI, the RMT peripheral and FastAccelStepper: libraries and hardware. Payloads are opaque values, executing a command is an input (its events and its response), storage is a map, and the motion library is an adapter that stops only at its targets.
- Clocks are non-wrapping naturals. Only the difference of two `micros()` readings in a poll is taken modulo 2^32, as the code does.
- Masks and latch bytes are sets of bit positions; positions are unbounded integers within the travel that the handlers enforce.
- Random identifiers: the internal ids that executing a command hands out are new, and calls are sequential, so mutexes are not modelled.
- HardwareController.HardwareMotorController.Tick: the adapter is read as one snapshot per controller call; the width of the counter of steps since HOME is not modelled, nor the branches for externally driven enable lines.
- HardwareController.HardwareMotorController.MoveAbs: the adapter accepts every start, so the branch for a refused one is not modelled.
- MotionKinematics.EstimateMoveTimeMsAsym: what the code answers where its 64-bit products overflow is not modelled, because signed overflow is undefined there.
- MotionKinematics.AsymMoveTimeMonotone: about the unbounded specification, which the 64-bit code computes wherever its products fit.
- The estimators with shared-step overheads and the handler branch of the shared-step build, with its exception for batches.
- BatchOrder.BatchOrderIrrelevant: about controller calls alone; BatchRuns adds the ticks of the handlers.
- BatchOrder.EachCallAlone: likewise.
- BatchOrder.Aggregate: the estimate of a line is a field of the line; reading est_ms out of its text is not modelled.
- BatchRuns.BatchOrderFreeIff: for commands that select motors, given as masks and numbers; how the executor reads masks out of text is not modelled.
- BatchRuns.RunBatch: commands without a mask, and the batch flags, which only the shared-step build reads, are not modelled.
- CommandHandlers.RunMove: the textual arguments of MOVE and HOME have already become numbers and their defaults come from the caller; registering the operation with the completion tracker is a separate call.
- CommandHandlers.RunHome: likewise.
- CommandHandlers.RunWake: the mask is given, so the refusal of a bad id after the tick is not modelled.
- CommandHandlers.RunSleep: likewise.
- MqttReplay.DuplicateAnswered: about a command whose remembered state fits the log; that it does is what StepTells and DuplicateRepeatsItsAnswer prove. Once the cache has dropped a command it is taken up again.
- SharedStepRamp.MoveEndsWithinClimb: for moves without a deceleration set and while no other move is started; MoveEndsInTime holds for all.
- HardwareEffects.TickTurnsOff: the budget is within its range, which every run from power-up keeps (PowerUpTickTurnsOff).
- ThermalRuns.HomePlayedWithinAdmitted: needs the arithmetic of HOME to fit in 32 bits; OrderMattersForWrappedHome and WrappedHomeIsCancelled are HOMEs that do not.
- ThermalRuns.AcceptedHomeCompletes: needs the arithmetic of HOME to fit in 32 bits; AcceptedHomeCompletesIff does not.
- MqttRuns.CompletedExactlyOnce: with a duplicate cache of 0 it asks that no event says done under the id of a response that has an error line and no DONE line; FinishTwiceIff says why. The dispatcher's own replay cache has room for no entry and never fires.
- MqttRuns.RunKeepsInv: likewise.
- MqttCommandServer.MqttCommandServer.ExecuteCommand: the model's command ends where an event under the command's own id erases its stream; internal ids are new, so no run gets there.
- SharedStepRuns.MoveIntegratedExactly: about positions in software; pulses that reach the motor, and products beyond 32 bits of steps in one poll, are not modelled.
- SharedStepAdapter.SharedStepAdapterEsp32.StartMoveAbs: the clock readings of one call are one value, and the shift register is attached.
- SharedStepAdapter.SharedStepAdapterEsp32.UpdateProgress: the whole steps of one poll are not cut to 32 bits.
- SharedStepAdapter.SharedStepAdapterEsp32.UpdateRamp: the velocity step of one poll is not cut to 32 bits.
- CommandLines.BuildSetConfig: a port given as text, the key "password", the request to reset, and fields of other JSON types are not modelled.
- CommandLines.SetConfigReachesStore: likewise; nor are the other NET, MQTT and GET/SET commands.
- ConfigStore.StoreIsFold: a store that has lost sight of what is stored but not yet overwritten it is the subject of StorageIsFoldIff instead. The four override flags are derived from the defaults and not stored in the model.
- TextScan.IdNamesItsMotor: the number of motors is below 256, as its eight bits say.
- Text is a sequence of characters, classified as in the "C" locale; a long has the target's 32 bits.
