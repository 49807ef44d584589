# DueTimer in Dafny

A model of the timer library for the Arduino Due (SAM3X8E), which wraps the
nine timer/counter channels of the chip — three counter blocks TC0, TC1 and TC2
of three channels each — in handles Timer0 .. Timer8 that call a user function
periodically. Three revisions of the implementation are modelled:

- `DueTimer.cpp`: nine timers, a registry of callbacks and recorded
  frequencies, the clock prescaler choice `bestClock`, and a counter mode that
  counts a channel's external clock input.
- `arch/sam/ArduinoTimer.cpp`: the same registry, `bestClock`, `setFrequency`,
  `setPeriod`, `getFrequency` and `getPeriod`, without the counter mode. Its
  code is the same as `DueTimer.cpp`'s, so it is modelled once. Some rows
  below cite its lines.
- `DueTimer/DueTimer.cpp`: the early six-timer revision. Every channel is fixed
  at MCK/128, and the reload is computed in integer arithmetic.

A timer handle is its number `t`. The static arrays (`callbacks[]`,
`_frequency[]`) and the hardware state that the register calls change are the
fields of one object:

- whether the interrupt line is enabled (`NVIC_EnableIRQ` / `NVIC_DisableIRQ`);
- whether the counter is started (`TC_Start` / `TC_Stop`);
- what the channel was programmed with (`TC_Configure`, `TC_SetRA`, `TC_SetRC`, `TC_IER` / `TC_IDR`).

Each state-changing operation is a method on that object (`TimerBank.Timers`,
`LegacyBank.LegacyTimers`). Each method is proved to move the object's
abstract state exactly as a pure transition function says (`TimerModel`,
`DueTimer`, `LegacyDueTimer`). The library's promises are then proved as
lemmas about those functions.

Modules:

- `Clock`: `bestClock` over exact reals. It is a method with the source's
  down-counting loop, proved to return the divisor characterised by `IsBest`
  and the rounded reload for it.
- `Registry`: the counter blocks, the callback slot type `Isr` (`Null` or some
  function), and the standard layout of the descriptor tables, in which timer
  i sits on block i / 3, channel i % 3 and line TCi_IRQn.
- `TimerModel`, `TimerBank`: the nine-timer registry, frequency and period.
- `DueTimer`, `DueCounter`: the descriptor table with clock-input pins, and the
  counter mode.
- `ArduinoTimer`: the descriptor table of `arch/sam/ArduinoTimer.cpp`.
- `LegacyDueTimer`, `LegacyBank`: the six-timer revision.

Behaviours of the code that a reader might not expect, each proved about the model:

- Ties in `bestClock` go to the coarsest divisor. The scan starts at MCK/128
  and replaces its candidate only on a strictly smaller error
  (`DueTimer.cpp:135-147`; `Clock.TieGoesToCoarser`,
  `Clock.WholeCountAtCoarsestPicksClock4`).
- The error `bestClock` compares is measured in ticks of the divided clock
  (`DueTimer.cpp:140-142`). It is not scaled by the divisor, so a coarse tick
  with a small fraction can beat a fine tick that is closer in time
  (`Clock.UnweightedErrorPrefersCoarseTick`).
- `getFrequency` returns the clamped requested frequency that `setFrequency`
  stored (`DueTimer.cpp:241-244`, `289-295`), not the frequency that the rounded
  reload achieves (`TimerModel.RecordsRequestedNotAchieved`).
- `start` does not check that a callback is attached (`DueTimer.cpp:86-102`).
  A timer can be started with an empty slot
  (`TimerModel.StartAfterDetachFromInitial`).

Assumptions:

- VARIANT_MCK, the master clock, is a parameter `mck`. It is a positive real in
  the floating-point revisions and a positive natural number in the integer one.
- The interrupt lines, counters and channel registers are taken to start off,
  stopped and unconfigured. RA and RC are taken to hold their reset value 0.
- A NULL pin number is 0.
- The `abs` of `bestClock` (`DueTimer.cpp:141-142`) is taken to be the
  floating-point absolute value. The files do not show which `abs` the name
  resolves to. If it were the C library's `int abs(int)`, every error would
  truncate to 0 and `bestClock` would always return TIMER_CLOCK4. Then
  `Clock.TieGoesToCoarser` and `Clock.UnweightedErrorPrefersCoarseTick` would
  describe a choice the program never makes.
- In the integer revision, VARIANT_MCK is taken to be a signed `int`
  constant, so `VARIANT_MCK/128/frequency` (`DueTimer/DueTimer.cpp:71`) is a
  signed `long` division. `LegacyDueTimer.NegativeFrequencyWraps` depends on
  this. With an unsigned VARIANT_MCK, frequency -1000 would convert to
  4294966296 and RC would be 0.
- `TC_Configure` belongs to the SAM support library, which is not part of this
  model. It is taken to disable the channel's clock before writing the mode, as
  that library does. So `setUpCounter` leaves the counter stopped, and
  `setFrequency` restarts it with `TC_Start`.
- `long` is 32 bits wide on this target.

## Model

| member | source | states |
|---|---|---|
| Clock.DivisorOf | DueTimer.cpp:118-132 | each TIMER_CLOCKn flag stands for the divisor its `clockConfig` entry pairs it with |
| Clock.Round | DueTimer.cpp:141 | `round` lands within 0.5 of its argument, halves rounded away from zero (x - 0.5 < n <= x + 0.5 for x >= 0, x - 0.5 <= n < x + 0.5 for x < 0) |
| Clock.RoundIsNearest | DueTimer.cpp:141 | no integer is closer to x than the rounded value |
| Clock.Error | DueTimer.cpp:140-141 | the compared error |ticks - round(ticks)| lies in [0, 0.5] |
| Clock.BestIndex | DueTimer.cpp:135-147 | the chosen divisor number has the least error of the four, and every coarser divisor has a strictly larger error |
| Clock.BestIsUnique | DueTimer.cpp:135-147 | at most one divisor number meets that characterisation, so the scan's result is determined by it |
| Clock.ScanResultIsBestIndex | DueTimer.cpp:147-150 | a divisor number meeting the characterisation at the end of the scan is the one `BestIndex` names |
| Clock.ReloadFor | DueTimer.cpp:148-149 | the returned RC is within half a tick of the ideal count MCK / f / divisor, and non-negative |
| Clock.BestClock | DueTimer.cpp:114-151 | the loop over clkId = 3, 2, 1, 0 with strict improvement returns the flag of the best divisor and the rounded reload for that divisor |
| Clock.ExactAtCoarsestKeepsCoarsest | DueTimer.cpp:135-146 | MCK/128 is always accepted first (error <= 0.5 < 1.0), so an exact count at MCK/128 keeps it |
| Clock.TieGoesToCoarser | arch/sam/ArduinoTimer.cpp:135-150 | a divisor with the same error as a coarser one is never chosen |
| Clock.WholeCountAtCoarsestPicksClock4 | DueTimer.cpp:138-150 | when the ideal MCK/128 count is a whole n, all four errors are 0 and the result is TIMER_CLOCK4 with RC = n |
| Clock.UnweightedErrorPrefersCoarseTick | DueTimer.cpp:140-142 | at 84 MHz and an ideal MCK/128 count of 10.1, MCK/128 with RC 10 is chosen although MCK/2 misses by fewer master cycles |
| TimerModel.Initial | arch/sam/ArduinoTimer.cpp:25-26 | every callback slot empty, every recorded frequency -1, lines disabled, counters stopped, channels unconfigured |
| TimerModel.FirstFreeFromIsLowestFree | DueTimer.cpp:56-61 | the scan from slot i answers the first empty slot at or after i, or 0 when there is none |
| TimerModel.FirstAvailableIsLowestFree | DueTimer.cpp:51-62 | `getAvailable` answers the lowest empty slot, or 0 when every slot is occupied |
| TimerModel.FirstAvailableAtMost | arch/sam/ArduinoTimer.cpp:51-62 | an empty slot k bounds the answer, and the answer is then an empty slot |
| TimerModel.Attach | DueTimer.cpp:64-72 | slot t holds isr; every other slot, all recorded frequencies and the hardware state are unchanged |
| TimerModel.Stop | DueTimer.cpp:104-112 | only timer t's interrupt line is disabled; its counter keeps running |
| TimerModel.StopIsIdempotent | arch/sam/ArduinoTimer.cpp:104-112 | stopping twice is stopping once |
| TimerModel.Detach | DueTimer.cpp:74-84 | timer t's line is disabled and its slot empty; nothing else changes |
| TimerModel.DetachFreesSlot | DueTimer.cpp:51-84 | after detaching timer t, `getAvailable` answers an empty slot numbered at most t |
| TimerModel.DetachUndoesAttach | arch/sam/ArduinoTimer.cpp:64-84 | attach then detach leaves the same state as detach alone |
| TimerModel.Clamp | DueTimer.cpp:240-241 | a non-positive request becomes 1 and a positive one is kept, so the result is positive |
| TimerModel.Programmed | DueTimer.cpp:259-273 | the channel runs in waveform mode with the clock flag of the divisor `bestClock` chooses and a reload within half a tick of that divisor's ideal count |
| TimerModel.SetFrequency | DueTimer.cpp:235-276 | the clamped request is recorded (so it is positive), the channel is programmed for it and started, and other timers, callbacks and lines are unchanged |
| TimerModel.NonPositiveFrequencyIsOneHz | arch/sam/ArduinoTimer.cpp:159-163 | `setFrequency(f)` with f <= 0 gives the same state as `setFrequency(1)` and records 1 |
| TimerModel.RecordsRequestedNotAchieved | DueTimer.cpp:243-267 | the recorded frequency is the request (84 MHz / 1292.8), while the channel runs at 65625 Hz |
| TimerModel.GetFrequency | DueTimer.cpp:289-295 | the recorded frequency is -1 before any setting and positive after one |
| TimerModel.TruncToInt | DueTimer.cpp:302 | conversion of a double to long truncates toward zero: smaller in magnitude by less than 1, same sign |
| TimerModel.Period | DueTimer.cpp:297-303 | for a positive frequency f, the whole number of microseconds in 1/f, i.e. us * f <= 10^6 < us * f + f; -1000000 for the initial -1 |
| TimerModel.GetPeriod | arch/sam/ArduinoTimer.cpp:216-222 | -1000000 before any setting, non-negative after one |
| TimerModel.SetPeriod | DueTimer.cpp:278-287 | `setFrequency(1000000.0 / us)`: a positive period records 10^6 / us; a negative one records 1 Hz |
| TimerModel.PeriodRoundTrip | arch/sam/ArduinoTimer.cpp:197-222 | after `setPeriod(us)` with us > 0, `getPeriod` returns us and frequency * us = 10^6 (over exact reals) |
| TimerModel.PeriodOfInverse | DueTimer.cpp:278-303 | the period of frequency 10^6 / us is us, for us > 0 (over exact reals) |
| TimerModel.Start | DueTimer.cpp:86-102 | afterwards the recorded frequency is positive and the line enabled; a positive us sets the period; otherwise a recorded frequency is kept as is, and an unset one becomes 1 Hz; whenever a period or the 1 Hz default is set, the channel is programmed for the recorded frequency and its counter runs |
| TimerModel.StartAfterDetachFromInitial | DueTimer.cpp:74-102 | a detached timer that was never given a frequency starts at 1 Hz with period 10^6 us, and its slot stays empty |
| TimerBank.Timers.constructor | DueTimer.cpp:25-26 | the object starts in the initial state, with fresh arrays |
| TimerBank.Timers.GetAvailable | DueTimer.cpp:51-62 | the for loop with early return gives the lowest empty slot, or 0 when every slot is occupied |
| TimerBank.Timers.AttachInterrupt | DueTimer.cpp:64-72 | the arrays move as `TimerModel.Attach` says |
| TimerBank.Timers.Stop | DueTimer.cpp:104-112 | the arrays move as `TimerModel.Stop` says |
| TimerBank.Timers.DetachInterrupt | DueTimer.cpp:74-84 | the arrays move as `TimerModel.Detach` says |
| TimerBank.Timers.SetFrequency | DueTimer.cpp:235-276 | the arrays move as `TimerModel.SetFrequency` says, with the clock and reload from `Clock.BestClock` |
| TimerBank.Timers.SetPeriod | DueTimer.cpp:278-287 | the arrays move as `TimerModel.SetPeriod` says |
| TimerBank.Timers.Start | DueTimer.cpp:86-102 | the arrays move as `TimerModel.Start` says |
| TimerBank.Timers.GetFrequency | DueTimer.cpp:289-295 | the recorded frequency of timer t, -1 or positive |
| TimerBank.Timers.GetPeriod | DueTimer.cpp:297-303 | the period of the recorded frequency, as `TimerModel.GetPeriod` |
| DueTimer.Timers | DueTimer.cpp:13-23 | nine entries; timer i on block i / 3, channel i % 3, line i; the clock pin is NULL exactly for timers 6 and 7 |
| DueTimer.CounterSelectFor | DueTimer.cpp:178-193 | channels 0, 1 and 2 have selectors (TCLKn to XCn, clock XCn) and any other channel has none |
| DueTimer.CounterSelectorsDistinct | DueTimer.cpp:178-190 | distinct channels get distinct external clock selectors |
| DueTimer.SetUpCounter | DueTimer.cpp:153-199 | true exactly when the pin is not NULL and the channel is 0, 1 or 2; then the channel counts its external input and its counter is stopped; on false nothing changes |
| DueTimer.CounterModeTimers | DueTimer.cpp:159-161 | with the table, `setUpCounter` succeeds for every timer except 6 and 7 |
| DueTimer.SetUpCounterKeepsRegistry | DueTimer.cpp:195-198 | setting up the counter changes neither the callbacks, the recorded frequencies nor the lines; a success leaves the counter stopped, a failure leaves it as it was |
| DueTimer.SetUpThenStartCounts | DueTimer.cpp:153-211 | on a timer other than 6 and 7, `setUpCounter` then `startCounter` leaves the channel counting its external input with the counter running |
| DueTimer.StartCounter | DueTimer.cpp:201-211 | only timer t's counter is started |
| DueTimer.StopCounter | DueTimer.cpp:213-223 | only timer t's counter is stopped |
| DueCounter.SetUpCounter | DueTimer.cpp:153-199 | the result and the arrays follow `DueTimer.SetUpCounter` |
| DueCounter.StartCounter | DueTimer.cpp:201-211 | the arrays move as `DueTimer.StartCounter` says |
| DueCounter.StopCounter | DueTimer.cpp:213-223 | the arrays move as `DueTimer.StopCounter` says |
| ArduinoTimer.Timers | arch/sam/ArduinoTimer.cpp:13-23 | nine entries; timer i on block i / 3, channel i % 3, line i |
| ArduinoTimer.SameChannelsAsDueTimer | arch/sam/ArduinoTimer.cpp:13-23 | its entries are the {tc, channel, irq} part of the `DueTimer.cpp` table's entries |
| LegacyDueTimer.Timers | DueTimer/DueTimer.cpp:11-18 | six entries; timer i on block i / 3, channel i % 3, line i |
| LegacyDueTimer.TruncDiv | DueTimer/DueTimer.cpp:71 | C's integer division: the remainder has the dividend's sign and is smaller than the divisor |
| LegacyDueTimer.ToUint32 | DueTimer/DueTimer.cpp:71 | storing into a uint32_t reduces modulo 2^32 and keeps values already in range |
| LegacyDueTimer.ReloadFor | DueTimer/DueTimer.cpp:71 | RC = MCK/128/frequency fits 32 bits |
| LegacyDueTimer.ReloadIsWholeTicks | DueTimer/DueTimer.cpp:71 | for a positive frequency, RC * f <= MCK/128 < RC * f + f: the whole number of MCK/128 ticks in one period |
| LegacyDueTimer.NegativeFrequencyWraps | DueTimer/DueTimer.cpp:69-71 | a negative frequency is not guarded: at 84 MHz, frequency -1000 gives RC 4294966640 |
| LegacyDueTimer.HalfReload | DueTimer/DueTimer.cpp:72 | RA = RC/2, so RA <= RC and 2 RA <= RC <= 2 RA + 1 |
| LegacyDueTimer.PeriodToFrequency | DueTimer/DueTimer.cpp:82 | for us > 0, `1000000/us` lies in [0, 10^6] |
| LegacyDueTimer.PeriodToFrequencyVanishes | DueTimer/DueTimer.cpp:81-84 | the frequency passed on is 0 exactly when the period exceeds one second in magnitude |
| LegacyDueTimer.Initial | DueTimer/DueTimer.cpp:20-43 | six empty slots, lines disabled, counters stopped, every channel on TIMER_CLOCK4 with no interrupt source |
| LegacyDueTimer.Attach | DueTimer/DueTimer.cpp:47-50 | only slot t changes, to isr |
| LegacyDueTimer.Stop | DueTimer/DueTimer.cpp:63-66 | only timer t's interrupt line is disabled |
| LegacyDueTimer.StopIsIdempotent | DueTimer/DueTimer.cpp:63-66 | stopping twice is stopping once |
| LegacyDueTimer.SetFrequency | DueTimer/DueTimer.cpp:69-78 | RC from the integer formula and RA its half, the clock untouched, RC compare the interrupt source, the counter started; nothing else changes |
| LegacyDueTimer.ReloadMatchesConfiguredClock | DueTimer/DueTimer.cpp:42-71 | after `setFrequency(f)` with f > 0 the channel is still on MCK/128, and RC is the whole number of ticks of that clock in 1/f |
| LegacyDueTimer.SetPeriod | DueTimer/DueTimer.cpp:81-84 | `setFrequency(1000000/us)` in integer division: RC for that frequency, RA its half, RC compare the interrupt source, the clock untouched, the counter started |
| LegacyDueTimer.Start | DueTimer/DueTimer.cpp:54-60 | `setPeriod` only when us > 0 (RC, RA = RC/2, RC compare, clock untouched, counter started), then the line is enabled; with us <= 0 no register changes (no default frequency) |
| LegacyBank.LegacyTimers.constructor | DueTimer/DueTimer.cpp:20-43 | the object starts in `LegacyDueTimer.Initial()` |
| LegacyBank.LegacyTimers.AttachInterrupt | DueTimer/DueTimer.cpp:47-50 | the arrays move as `LegacyDueTimer.Attach` says |
| LegacyBank.LegacyTimers.Stop | DueTimer/DueTimer.cpp:63-66 | the arrays move as `LegacyDueTimer.Stop` says |
| LegacyBank.LegacyTimers.SetFrequency | DueTimer/DueTimer.cpp:69-78 | the arrays move as `LegacyDueTimer.SetFrequency` says |
| LegacyBank.LegacyTimers.SetPeriod | DueTimer/DueTimer.cpp:81-84 | the arrays move as `LegacyDueTimer.SetPeriod` says |
| LegacyBank.LegacyTimers.Start | DueTimer/DueTimer.cpp:54-60 | the arrays move as `LegacyDueTimer.Start` says |

## Left out

- Hardware register calls are represented only by their effect on the abstract state: the interrupt line, the counter's run state and the channel's programming.
- `pmc_set_writeprotect`, `pmc_enable_periph_clk` and the `PIO_Configure` of the clock-input pin are not modelled. They enable peripherals and route pins, and leave no state the library reads back.
- `NVIC_ClearPendingIRQ` in `start` is not modelled, because pending interrupts are not part of the state.
- The `TC_BMR |=` of `setUpCounter` is recorded on the channel being set up. The shared block mode register, and the bits it keeps for the block's other channels, are not modelled.
- The interrupt handlers `TC0_Handler` .. `TC8_Handler` are not modelled, because they run in interrupt context. They call `callbacks[i]()` without checking for NULL.
- `counterValue` is not modelled, because it is a hardware read (`TC_ReadCV`).
- The capture, duty-cycle and status-register features declared in `DueTimer.h` have no implementation in the three modelled files.
- The headers (declarations, inline unit conversions) are not part of this model. `start()` is covered by the `us` parameter: `arch/sam/ArduinoTimer.h` and `DueTimer/DueTimer.h` declare `start` with the default argument -1. The later `DueTimer.h` declares `start(void)` and `start(double)` separately and does not belong to the modelled `DueTimer.cpp`.
- The handle objects `Timer`, `Timer0` .. `Timer8` are not modelled. A handle is its timer number.
- Clock.BestClock: `ticks` and `error` are single-precision `float`s (`DueTimer.cpp:133-134`), and the model computes them as exact reals. A float has a 24-bit significand, so an ideal count of 2^23 or more has no fractional part and its error is 0. At MCK = 84 MHz that makes the MCK/2 error 0 for every frequency up to about 5 Hz. The program then chooses by float granularity, far from any tie. For example, at 3.3 Hz the exact errors are 0.27, 0.18, 0.45 and 0.36, so the model picks TIMER_CLOCK2 with RC 3181818. The float computation picks TIMER_CLOCK1 with RC 12727273 (worked out by hand; not executed). Elsewhere, rounding can also change the choice near a tie.
- Clock.ReloadFor: the half-tick bound holds for exact reals only. Counts of 2^24 or more round to even floats, so the float count, and with it RC, can be up to one tick from MCK/f/divisor. At 84 MHz this affects MCK/2 below about 2.5 Hz: at 2.2 Hz the ideal count is 19090909.09 and the float code gives RC 19090910. `TimerModel.Programmed` inherits this gap. The `(uint32_t)` cast of `round(ticks)` is not modelled either. It matters only when the chosen divisor's count exceeds 2^32 - 1, which at 84 MHz needs a frequency below about 0.0098 Hz.
- TimerModel.Period: the overflow of the conversion to the 32-bit `long` is not modelled. It happens once the period exceeds 2^31 - 1 us, that is, for any recorded frequency below about 4.66e-4 Hz, which `setFrequency(double)` accepts. The IEEE rounding of `1.0/f*1000000` is not modelled either.
- TimerModel.PeriodRoundTrip, TimerModel.PeriodOfInverse: the program does not have this round trip. In IEEE doubles, `1.0/(1000000.0/7)*1000000` is 6.999999999999999, so `getPeriod` after `setPeriod(7)` returns 6. The same happens for other periods, such as 14, 15, 28, 30 and 33. The lemma holds for the exact-real model only.
- TimerModel.SetPeriod: requires us != 0. In IEEE arithmetic, `setPeriod(0)` gives frequency +infinity, which exact reals cannot represent. `TimerBank.Timers.SetPeriod` has the same precondition. `start` never passes 0.
- LegacyDueTimer.SetFrequency: requires frequency != 0, since `VARIANT_MCK/128/0` is an integer division by zero (undefined behaviour in C). `LegacyBank.LegacyTimers.SetFrequency` has the same precondition.
- LegacyDueTimer.SetPeriod: requires us != 0 and 1000000/us != 0. These are the two integer divisions by zero of `setPeriod`, the second for periods over one second (`PeriodToFrequencyVanishes`). `LegacyBank.LegacyTimers.SetPeriod` has the same precondition.
- LegacyDueTimer.Start: requires us <= 1000000, since a longer period reaches that division by zero. `LegacyBank.LegacyTimers.Start` has the same precondition.
- LegacyDueTimer.ReloadFor: VARIANT_MCK is taken as a non-negative integer. The `long` division is unbounded here, which is exact for any clock below 2^31 Hz.
