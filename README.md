# Line-tracking steering controller, modelled in Dafny

This project models the control core of a line-following vehicle on a TM4C123
microcontroller (`main.c`). Every millisecond a SysTick interrupt averages four
ADC conversions on each of three reflectance channels (right, center, left),
stores the readings in `SensorValues` and signals a counting semaphore. The main
loop waits on that semaphore, then does four things:

- it computes a weighted position error with C's truncating division;
- it decides whether the line is lost;
- it runs a debounce and search state machine driven by `LostLineCounter` and
  `LastValidDirection`;
- otherwise it runs PD correction with two-level base-speed selection.

It then writes the two PWM compare registers through `Set_Motors`. That
function scales the right side by the gain 1.15 and clamps both sides to
[50, 950]. It also writes the LED port through `Set_LED_Status`.

Modules, one per component of `main.c`:

- `CArith`: C's truncating `/` for a positive divisor, and `abs`.
  Dafny's own `/` is Euclidean, so truncation has to be written out.
- `Motors`: `Set_Motors`, meaning the right-motor gain, then saturation.
- `Status`: `Set_LED_Status`, the four-way classification written to port F.
- `Adc`: the arithmetic of `ADC_Read_Average` over the four FIFO words. Each
  word is masked to 12 bits, the four are summed, and the sum is divided by 4.
  The imperative loop is proved against a sum function.
- `Semaphore`: the semaphore as a class with a `count` field. The spin of
  `OS_Wait` becomes the precondition `count > 0`.
- `Control`: the pure specification of one loop iteration,
  `Step(state, frame) -> (state', Option<Speeds>, Option<led>)`. It also holds
  `Run`, the fold of `Step` over a finite sequence of frames, and the
  properties of single ticks and of runs.
- `Robot`: the globals, the output registers and the semaphore, collected in a
  class `LineFollower`. Its methods are:
  - `SysTickHandler`: the interrupt, which stores the frame and then signals;
  - `ControlIteration`: one body of `while(1)`, split like the source into the
    lost-line branch and the line-found branch;
  - `RunTicks`: a finite loop of interrupt-then-iteration ticks.

  `ControlIteration`, its two branches and `RunTicks` are proved against
  `Control.Step` or `Control.Run`; `SysTickHandler` is proved against
  `Robot.FrameOf`, which is built from `Adc.Average`.

For example, readings `(2000, 1800, 100)` with `LastError = 0` give error 487
and base speed 300. Its correction is `16*487 + 30*487 = 22402`. It saturates to
duties (950, 50).

## Model

| member | source | states |
|---|---|---|
| CArith.Abs | main.c:117 | C's `abs`: the result is non-negative and is either x or −x |
| CArith.TruncDiv | main.c:108 | C's `/` for a positive divisor: the quotient is never on the other side of zero from the numerator |
| CArith.TruncDivIsTruncation | main.c:108 | the truncating quotient's magnitude is the floor of \|n\|/d |
| CArith.TruncDivUnique | main.c:108 | any quotient with that magnitude and sign is the truncating one, so this is an independent characterization |
| CArith.TruncDivBound | main.c:108 | if \|n\| ≤ k·d then \|n / d\| ≤ k |
| CArith.TruncDivOfNegative | main.c:108 | truncation and Euclidean division differ on negative numerators (-7 / 2) |
| Motors.Clamp | main.c:140-143 | the saturated value lies in [50, 950]; it is the input when the input is in range, 950 above the range and 50 below it |
| Motors.ClampIsNearest | main.c:140-143 | saturation picks the window point nearest to the input |
| Motors.ClampMonotone | main.c:140-143 | saturation is monotone |
| Motors.ScaleRight | main.c:139 | the gain-scaled speed is within one unit of 1.15·speed, on the side of zero, as the conversion to `long` truncates |
| Motors.ScaleMonotone | main.c:139 | the gain-scaled speed is monotone in the speed |
| Motors.SetMotors | main.c:138-146 | both duties are in [50, 950]; the left duty is speed_L whenever that is in range; the right duty is the clamp of the gain-scaled speed_R |
| Motors.UnsaturatedRightIsScaled | main.c:139-143 | when the right side is not saturated, its duty is 1.15·speed_R to within one unit |
| Motors.SetMotorsMonotone | main.c:138-143 | larger commands never give smaller duties on either side |
| Status.SetLedStatus | main.c:149-157 | the port value is 0x0E iff lost, 0x08 iff tracking with error > 200, 0x02 iff tracking with error < -200, and 0x04 iff tracking and centred |
| Adc.Average | main.c:172 | the average of four masked conversions is at most 4095 |
| Adc.Mask12 | main.c:169 | a masked FIFO word is at most 0xFFF |
| Adc.MaskedSum | main.c:161-169 | the sum of n masked words is at most 4095·n |
| Adc.ReadAverage | main.c:160-173 | the loop's 32-bit sum never wraps; the result is the masked sum divided by 4 and lies in [0, 4095] |
| Adc.AverageBetween | main.c:160-173 | the average lies between the smallest and the largest masked conversion |
| Adc.AverageOfEqual | main.c:160-173 | four equal conversions average to exactly that value |
| Semaphore.Semaphore.Init | main.c:34-36 | initialisation sets the count to the given value |
| Semaphore.Semaphore.Signal | main.c:39-41 | signal adds one to the count |
| Semaphore.Semaphore.Wait | main.c:44-50 | wait can return only when the count is positive, and it subtracts one |
| Semaphore.SignalThenWait | main.c:39-50 | a signal followed by a wait leaves a non-negative count unchanged |
| Control.Numerator | main.c:85 | the weighted difference is at most 1000 times the total, and it is positive iff the right reading exceeds the left, negative iff it is below it |
| Control.Denominator | main.c:86 | the total bounds every reading, so a total below 500 already has every reading below 1500 |
| Control.IsLost | main.c:85-89 | the line is lost iff all three readings are below 1500; the test for a total below 500 is subsumed |
| Control.PositionError | main.c:85-108 | on a detected tick the division is by at least 1500; the error lies in [-1000, 1000], is never of the opposite sign to right − left, and is 0 when right == left |
| Control.PositionErrorCanVanish | main.c:85-108 | truncation can give error 0 for a detected frame whose right reading exceeds its left, e.g. (1501, 0, 1500) |
| Control.UpdateDirection | main.c:110-111 | the direction stays in {-1, 0, 1}; it changes only for \|error\| > 200, and then to the error's sign, which such an error always sets |
| Control.Correction | main.c:113-114 | for errors in [-1000, 1000] the PD correction lies in [-76000, 76000]; a non-shrinking error to the right gives a positive correction and the mirror a negative one; zero after zero gives zero |
| Control.BaseSpeed | main.c:117-118 | the base speed is 300 or 650, and it is 300 iff \|error\| > 300 |
| Control.SearchSpeeds | main.c:96-101 | the search command drives exactly one side at 600, and the left side iff the direction is positive |
| Control.LostStep | main.c:92-103 | the lost-line branch adds 1 to the counter and nothing else; it drives nothing iff the new count is ≤ 5, and searches iff it is > 5 |
| Control.TrackStep | main.c:105-121 | the line-found branch resets the counter, stores the error, drives both outputs without the lost value, and commands speeds summing to twice the base |
| Control.Step | main.c:85-122 | the counter is 0 afterwards iff the line was detected; only a lost tick searches; a tick that issues no motor command writes nothing at all; a lost tick keeps the error and the direction |
| Control.StepPreservesValid | main.c:92-115 | a tick keeps the direction in {-1, 0, 1} and the stored error in [-1000, 1000] |
| Control.LostTick | main.c:92-104 | a lost tick adds exactly 1 to the counter and keeps the error and the direction; it is silent iff the new count is ≤ 5, and a search tick iff it is > 5 |
| Control.SearchTick | main.c:95-102 | search mode commands (600, 0) if the direction is positive and (0, 600) otherwise, with the lost LED; after mapping that is (600, 50) or (50, 690) |
| Control.DetectedTick | main.c:105-121 | a detected tick resets the counter and stores its error; the two speeds sum to 2·base and differ by 2·(16·e + 30·(e − LastError)); base is 300 iff \|e\| > 300 and 650 otherwise |
| Control.SteersTowardLine | main.c:113-120 | an error to the right that is not shrinking makes the left side faster, and the mirror; a zero error from a zero error drives straight |
| Control.DirectionMemory | main.c:110-111 | the direction changes only on a detected tick with \|error\| > 200; it becomes 1 only after error > 200 and -1 only after error < -200, and such an error always sets it |
| Control.DirectionIdempotent | main.c:110-111 | repeating a frame leaves the direction where the first tick put it |
| Control.LedAgreesWithDirection | main.c:110-121 | on a tracking tick the right/left/centre LED agrees with the direction the memory records |
| Control.TrackingExample | main.c:85-121 | readings (2000, 1800, 100) from the initial state give error 487, speeds (22702, -22102), duties (950, 50), LED 0x08 and new memory (487, 0, 1) |
| Control.StepFitsInLong | main.c:85-120 | with ADC-range readings and valid memory, both scaled readings, the numerator, the denominator, the two PD terms, the correction (within ±76000), both commanded speeds and the gain-scaled right speed fit a 32-bit `long` |
| Control.Run | main.c:79-123 | a run over n frames produces one output per frame |
| Control.RunPreservesValid | main.c:79-123 | valid memory stays valid over any run |
| Control.RunCounterIsStreak | main.c:92-106 | after any run, `LostLineCounter` is the length of the trailing lost streak, plus the initial count if no frame of the run was detected |
| Control.RunMemory | main.c:110-115 | after any run, the direction is that of the most recent error beyond ±200, and `LastError` is the error of the most recent detected frame; if there is none, the initial values are kept |
| Control.RunPrefix | main.c:79-123 | what tick i drives depends only on the frames up to i |
| Control.SearchIffLongStreak | main.c:92-103 | tick i searches iff it ends a lost streak longer than 5 |
| Control.DebounceIsSilent | main.c:92-104 | during the grace period nothing is driven and only the counter moves |
| Control.ShortLossNeverSearches | main.c:92-106 | from counter 0, a loss of at most 5 ticks that ends on a detected tick never searches and ends with counter 0 |
| Control.DarkScenario | main.c:85-102 | six all-dark frames (50, 50, 50) give five silent ticks, then the search command (0, 600) with the lost LED |
| Robot.Actuate | main.c:144-155 | a tick that drives no motor command leaves both comparators as they were, and one that drives no LED value leaves the port as it was |
| Robot.ActuateEffect | main.c:138-157 | a motor command rewrites both comparators with in-window mapped duties, and an LED value rewrites the port; whatever was not driven keeps its value |
| Robot.DutiesStayInWindow | main.c:140-145 | once any tick has driven the motors, both comparators hold duties in [50, 950] |
| Robot.FrameOf | main.c:127-131 | the stored frame consists of the three channels' averages, and every reading is ≤ 4095 |
| Robot.LineFollower.constructor | main.c:27-31 | start-up memory is (0, 0, 0), the frame is zero and the semaphore count is 0 |
| Robot.LineFollower.SysTickHandler | main.c:127-135 | the interrupt stores the averaged readings of the three channels and adds one to the semaphore count |
| Robot.LineFollower.ControlIteration | main.c:81-122 | one loop body consumes one signal; the new memory and registers are those `Control.Step` gives for the stored frame |
| Robot.LineFollower.LineLost | main.c:92-103 | the lost-line branch does what `Control.LostStep` describes |
| Robot.LineFollower.LineFound | main.c:105-121 | the line-found branch does what `Control.TrackStep` describes for error numerator / denominator, with C truncation |
| Robot.LineFollower.RunTicks | main.c:79-135 | any finite sequence of interrupt-then-iteration ticks leaves memory and registers as `Control.Run` over the delivered frames, the semaphore count as it was, and the stored frame as the last one delivered (or unchanged for no ticks) |

## Left out

- Peripheral bring-up: `System_Init`, `ADC_Input_Init`, `Hardware_PWM_Init`,
  `SysTick_Init`, `PortA_Output_Init` and `PortF_Init`. These are register
  configuration with no logic. The PWM comparators start at 0, as
  `Hardware_PWM_Init` sets them. The port-F register is taken to start at 0.
- The port-A write at the top of `main`, because it configures hardware and
  has no logic.
- The ADC trigger and the busy-wait on the conversion status bit. A
  conversion is represented only by the FIFO word it yields.
- The register writes are modelled as fields of `LineFollower`. Their
  hardware effect is not modelled.
- Which LEDs light: the model records only the value written to the port-F
  data register. `PortF_Init` makes only PF1 and PF2 outputs (main.c:242), so
  the bit 0x08 that `Set_LED_Status` writes for a right veer, and the PF3 bit of
  the lost value 0x0E, reach no output pin.
- Interrupt preemption and the race on the `volatile` semaphore, including the
  non-atomic `++`/`--`. The model is sequential: each tick runs the whole
  interrupt and then one loop body.
- Semaphore.Semaphore.Wait: the spin loop is not modelled. Blocking is the
  precondition `count > 0`, so a stalled producer cannot be expressed.
- The infinite `while(1)`. Only single iterations and finite runs are modelled.
- Motors.ScaleRight: the double `RIGHT_MOTOR_GAIN = 1.15` is replaced by the
  exact ratio 115/100 with truncation toward zero. The double nearest to 1.15
  is slightly below it, so C can give one less for some speeds. For example,
  C gives 114 for speed 100 where this model gives 115, and both give 690 for
  600. The clamp bounds do not depend on the gain.
- Control.Run: `LostLineCounter` is an unbounded `nat`. The 32-bit `int`
  would overflow after about 2^31 consecutive lost ticks.
- Semaphore.Semaphore.Signal: the count is unbounded, so 32-bit overflow is
  not modelled.
- The arithmetic of a tick is unbounded. `Control.StepFitsInLong` shows that
  for readings in ADC range (which `Robot.FrameOf` guarantees) and valid
  memory, the intermediates it lists (both scaled readings, the numerator, the
  denominator, `error * K_P`, `derivative * K_D`, the correction, both
  commanded speeds and the gain-scaled right speed) fit 32 bits, so none of
  them wraps.
