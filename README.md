# StepperL298N in Dafny

A model of `StepperL298N`, an Arduino driver for a four-wire stepper motor
behind an L298N H-bridge. The driver stores four pin numbers, a step count per
revolution, a hold time (`stepDelay`, in milliseconds) and a fixed 4x4 table of
pin levels. Moving the motor means writing the table's rows to the four pins
one after another, holding each row for `stepDelay` ms, and finally driving
all four pins LOW.

Files:

- `hal.dfy` (module `Hal`): the Arduino calls the driver makes (`pinMode`,
  `digitalWrite`, `delay`), recorded as `Event`s on a `Board` object. The board
  also keeps a map from pin to the level last written to it. `Board.Valid()`
  ties that map to the trace: the map is the trace replayed (`Replay`) on the
  levels the board started with.
- `speed.dfy` (module `Speed`): the arithmetic of `setSpeed` as pure functions.
  `TruncDiv` is C's truncating division. `StepDelayFor` is the value stored
  for a positive RPM. The lemmas prove the floor, the ceiling, monotonicity,
  and what a negative step count does.
- `commutation.dfy` (module `Commutation`): the table (`Sequence`), the row
  orders of the two directions, and, as functions, the exact event trace of
  each motion command (`ClockwiseEvents`, `CounterClockwiseEvents`,
  `StopEvents`). The lemmas prove the shape of those traces, their total
  delay, their number of writes, and the pin levels they leave behind.
- `stepper.dfy` (module `Driver`): the class `StepperL298N`. Its methods do
  what the C++ methods do, step by step, on the board. Each one is proved
  against the trace functions of `Commutation` and `Speed`.

Modelling decisions:

- The pins, `stepsPerRevolution` and the table are written only by the
  constructor. They are therefore `const` fields. So motion commands, and
  `SetSpeed`, provably cannot change them; `SetSpeed` may modify only
  `stepDelay`, and motions may modify only the board.
- `stepSequence` is an `array2<int>`. The constructor fills it element by
  element, in the same order as the C++ code, through the helper
  `FillStepSequence`. The helper exists only to keep that proof separate.
- The board is passed to the constructor. The original reaches the same
  hardware through Arduino's global functions.
- The commutation table is often described as a sequence whose neighbouring
  rows differ in one bit. The code's table (rows 1010, 0110, 0101, 1001) has
  neighbouring rows that differ in **two** positions. The model follows the
  code, and `Commutation.AdjacentRowsDifferInTwo` proves the two-position
  difference.
- Pins that are not distinct are allowed, as in the code: the last write
  to a pin wins (`Hal.LastWriteWins`). "Exactly two pins energised" is proved
  only for four distinct pins.

## Model

| member | source | states |
|---|---|---|
| `Driver.StepperL298N.constructor` | src/StepperL298N.cpp:4-28 | stores steps and pins unchecked; `stepDelay == 50`; the table holds rows 1010, 0110, 0101, 1001; the trace is four `pinMode` calls followed by the four LOW writes, and all four pins read LOW |
| `Driver.StepperL298N.FillStepSequence` | src/StepperL298N.cpp:15-18 | after the sixteen element writes, `stepSequence[i, j] == Sequence[i][j]` for every row and column |
| `Driver.StepperL298N.SetSpeed` | src/StepperL298N.cpp:31-36 | `rpm <= 0` leaves `stepDelay` unchanged; `rpm > 0` stores `StepDelayFor(stepsPerRevolution, rpm)`; the board is untouched and `stepDelay >= 1` is kept |
| `Driver.StepperL298N.Step` | src/StepperL298N.cpp:39-45 | `steps > 0` emits exactly the clockwise trace for `steps`; `steps < 0` emits exactly the counter-clockwise trace for `-steps`; `steps == 0` leaves the board unchanged; every non-zero call ends with all pins LOW |
| `Driver.StepperL298N.StepClockwise` | src/StepperL298N.cpp:48-56 | appends exactly `ClockwiseEvents(pins, stepDelay, steps)` to the trace; the levels are that trace replayed; all pins end LOW, also for `steps <= 0` |
| `Driver.StepperL298N.StepCounterClockwise` | src/StepperL298N.cpp:59-67 | appends exactly `CounterClockwiseEvents(pins, stepDelay, steps)`; the levels are that trace replayed; all pins end LOW, also for `steps <= 0` |
| `Driver.StepperL298N.ExecuteStep` | src/StepperL298N.cpp:70-75 | appends the four writes of row `stepIndex` in pin order; each pin then reads its row entry, last write winning; with distinct pins exactly two read HIGH |
| `Driver.StepperL298N.StopMotor` | src/StepperL298N.cpp:78-83 | appends exactly four LOW writes, one per pin; every pin then reads LOW |
| `Hal.Board.PinMode` | src/StepperL298N.cpp:21-24 | records `pinMode(pin, OUTPUT)` without changing any level |
| `Hal.Board.DigitalWrite` | src/StepperL298N.cpp:71-74 | records the write; the pin now reads the written level; the levels stay equal to the replayed trace |
| `Hal.Board.Wait` | src/StepperL298N.cpp:52 | records `delay(ms)` without changing any level |
| `Hal.LastWriteWins` | src/StepperL298N.cpp:79-82 | after any trace, a pin reads the level of the last write to it |
| `Hal.ReplayUntouched` | src/StepperL298N.cpp:70-75 | a pin that no event writes keeps its earlier level |
| `Speed.TruncDiv` | src/StepperL298N.cpp:33 | C division: the magnitude is the floor of the magnitudes' quotient; the sign is the product of the operands' signs |
| `Speed.StepDelayFor` | src/StepperL298N.cpp:33-34 | the stored hold time is never below 1 ms |
| `Speed.StepDelayPositive` | src/StepperL298N.cpp:33-34 | for positive steps and RPM the hold time is `max(1, 60000 / (steps * rpm * 4))` |
| `Speed.StepDelayAntitoneInRpm` | src/StepperL298N.cpp:33-34 | for fixed positive steps, a larger RPM never gives a longer hold time |
| `Speed.StepDelayAntitoneInSteps` | src/StepperL298N.cpp:33-34 | for a fixed RPM, more steps per revolution never give a longer hold time |
| `Speed.StepDelayAtFloor` | src/StepperL298N.cpp:34 | the 1 ms floor applies exactly when `steps * rpm * 4 > 30000` |
| `Speed.StepDelayCeiling` | src/StepperL298N.cpp:33 | the hold time never exceeds 15000 ms |
| `Speed.StepDelayRevolutionTime` | src/StepperL298N.cpp:33 | above the floor, one revolution (`steps * 4` rows) takes at most 60000/rpm ms, and less than one extra row hold per RPM more than that |
| `Speed.StepDelayNegativeSteps` | src/StepperL298N.cpp:33-34 | a negative step count gives a non-positive quotient, so the hold time is clamped to 1 |
| `Speed.StepDelayExamples` | src/StepperL298N.cpp:33-34 | 200 steps per revolution: 1 RPM gives 75 ms; 60 RPM gives 1 ms (60000/48000 truncates to 1) |
| `Commutation.RowsHaveTwoHigh` | src/StepperL298N.cpp:15-18 | every row holds only 0 and 1 and has exactly two HIGH entries |
| `Commutation.AdjacentRowsDifferInTwo` | src/StepperL298N.cpp:15-18 | cyclically adjacent rows differ in exactly two positions |
| `Commutation.CycleEventAt` | src/StepperL298N.cpp:50-53 | the trace of a row order has 5 events per row; block `j` is row `order[j]` written, then one hold |
| `Commutation.RepeatAt` | src/StepperL298N.cpp:49 | `n` repetitions of a cycle have `n` times the length of the cycle; every repetition is the cycle itself |
| `Commutation.ClockwiseEventAt` | src/StepperL298N.cpp:48-56 | a clockwise trace of `n > 0` has `20n + 4` events; in every cycle `i`, block `j` is row `j` then a `Delay(stepDelay)`, so rows run 0, 1, 2, 3 |
| `Commutation.CounterClockwiseEventAt` | src/StepperL298N.cpp:59-67 | a counter-clockwise trace of `n > 0` has `20n + 4` events; in every cycle, block `j` is row `3 - j`, so rows run 3, 2, 1, 0 |
| `Commutation.DirectionsMirror` | src/StepperL298N.cpp:48-67 | block `j` of a counter-clockwise cycle equals block `3 - j` of the matching clockwise cycle |
| `Commutation.MotionEndsWithStop` | src/StepperL298N.cpp:48-67 | both traces have `20 * max(n, 0) + 4` events and end with the four LOW writes; for `n <= 0` they are just those writes |
| `Commutation.StepTotals` | src/StepperL298N.cpp:51-52 | one commutation step is four writes and `delay` ms of holding |
| `Commutation.CycleTotals` | src/StepperL298N.cpp:50-53 | a row order of length `m` makes `4m` writes and holds `m * delay` ms |
| `Commutation.RepeatTotals` | src/StepperL298N.cpp:49 | `n` repetitions multiply holding time and writes by `n` |
| `Commutation.StopTotals` | src/StepperL298N.cpp:78-83 | stopping makes exactly four writes and requests no delay |
| `Commutation.MotionTotals` | src/StepperL298N.cpp:48-67 | either motion of `n` holds `4 * max(n, 0) * delay` ms in total and makes `16 * max(n, 0) + 4` writes |
| `Commutation.RowLevels` | src/StepperL298N.cpp:70-75 | writing a row sets pin1..pin4 to the row's entries, in that order |
| `Commutation.StopIdempotent` | src/StepperL298N.cpp:78-83 | after the stop writes every pin reads LOW, and stopping again leaves the levels unchanged |
| `Commutation.EndsLow` | src/StepperL298N.cpp:55 | any trace that ends with the stop writes leaves all four pins LOW |
| `Commutation.HighCountFollowsRow` | src/StepperL298N.cpp:70-75 | when the pins follow a row, the number of HIGH pins is the number of HIGH entries in that row |
| `Commutation.RowEnergisesTwo` | src/StepperL298N.cpp:70-75 | with four distinct pins, every row energises exactly two of them |

`Driver.ScenarioTwoSteps` is a client of the contracts above. It uses 200
steps per revolution and pins 1..4. It proves that `SetSpeed(60)` gives a hold
of 1 ms, and that `Step(2)` then adds 44 events and 8 ms of holding and ends
with all pins LOW.

## Left out

- The hardware effects of `pinMode`, `digitalWrite` and `delay`: they are Arduino core functions and are recorded as events only. No claim is made about electrical levels or motor rotation.
- Blocking: `delay` really suspends the program; only the requested number of milliseconds is recorded.
- 16-bit `int` arithmetic. On AVR, `stepsPerRevolution * rpm * 4` overflows for 200 steps at 60 RPM (48000 > 32767), and `-steps` overflows for the most negative `int`. The model uses unbounded integers. For the overflowing inputs it therefore gives the intended result, not the one the hardware computes.
- Driver.StepperL298N.SetSpeed: requires `stepsPerRevolution != 0` when `rpm > 0`. The code divides by zero there, which is undefined in C, so the model does not describe that case.
- Driver.StepperL298N.ExecuteStep: requires `0 <= stepIndex < 4`. The code never checks the index, but it is only ever called with 0..3; any other index reads outside the table.
- The original's integer `stepDelay` is passed to `delay(unsigned long)`. It is always at least 1, so no conversion issue is modelled.
- Absolute shaft position, acceleration and physical timing: the code does not track or implement them.
