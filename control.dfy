/**
 * One iteration of the control loop of `main`, as a function of the controller's
 * persistent memory and the sensor frame of the tick, and the fold of that step
 * over a finite sequence of ticks.
 */
module Control {
  import opened Wrappers
  import opened CArith
  import opened Motors
  import opened Status

  const IR_THRESHOLD: int := 500
  const IR_WHITE_LIMIT: int := 1500
  const SPEED_BASE: int := 650
  const SPEED_TURN_BASE: int := 300
  const SPEED_SEARCH: int := 600
  const LOST_LINE_DELAY: int := 5
  const DIR_THRESHOLD: int := 200
  /** The error magnitude above which the turn base speed is used (a literal in the source). */
  const SHARP_TURN: int := 300
  const K_P: int := 16
  const K_D: int := 30

  /** `SensorValues[0..2]`: the right, center and left readings of one tick. */
  datatype Frame = Frame(right: nat, center: nat, left: nat)

  /** The globals `LastError`, `LostLineCounter` and `LastValidDirection`. */
  datatype ControlState = ControlState(lastError: int, lostLineCounter: nat, lastValidDirection: int)

  /** The globals' initial values. */
  const INITIAL: ControlState := ControlState(0, 0, 0)

  /** The arguments of one `Set_Motors` call. */
  datatype Speeds = Speeds(left: int, right: int)

  /** What a tick drives: a `Set_Motors` call and a `Set_LED_Status` port value, each optional. */
  datatype Output = Output(motors: Option<Speeds>, led: Option<bv8>)

  /** A tick that drives nothing (the debounce grace period). */
  const SILENT: Output := Output(None, None)

  datatype StepResult = StepResult(state: ControlState, out: Output)

  /** The memory the controller keeps: a direction in {-1, 0, 1} and an error in [-1000, 1000]. */
  predicate ValidState(s: ControlState) {
    && -1 <= s.lastValidDirection <= 1
    && -1000 <= s.lastError <= 1000
  }

  /** ADC-range readings, for which no intermediate of a tick leaves 32 bits. */
  predicate AdcFrame(f: Frame) {
    f.right <= 4095 && f.center <= 4095 && f.left <= 4095
  }

  /** `numerator`: at most 1000 times the total, and positive exactly when right exceeds left. */
  function Numerator(f: Frame): (n: int)
    ensures Abs(n) <= 1000 * Denominator(f)
    ensures n > 0 <==> f.right > f.left
    ensures n < 0 <==> f.right < f.left
  {
    f.right * 1000 - f.left * 1000
  }

  /**
   * `denominator`: the total bounds every reading, so a total below IR_THRESHOLD
   * already has every reading below IR_WHITE_LIMIT.
   */
  function Denominator(f: Frame): (d: nat)
    ensures f.right <= d && f.center <= d && f.left <= d
    ensures d < IR_THRESHOLD ==> f.right < IR_WHITE_LIMIT && f.center < IR_WHITE_LIMIT && f.left < IR_WHITE_LIMIT
  {
    f.right + f.center + f.left
  }

  /**
   * `is_line_lost`. Because the readings are unsigned and IR_THRESHOLD < IR_WHITE_LIMIT,
   * the low-total test is subsumed: the line is lost exactly when every reading is below
   * the white limit.
   */
  function IsLost(f: Frame): (lost: bool)
    ensures lost <==> f.right < IR_WHITE_LIMIT && f.center < IR_WHITE_LIMIT && f.left < IR_WHITE_LIMIT
  {
    Denominator(f) < IR_THRESHOLD
    || (f.right < IR_WHITE_LIMIT && f.center < IR_WHITE_LIMIT && f.left < IR_WHITE_LIMIT)
  }

  /**
   * `error = numerator / denominator` on a detected tick: the division is by at least
   * IR_WHITE_LIMIT, so never by zero; the result is within [-1000, 1000], is never of
   * the opposite sign to right - left, and is 0 when right == left (truncation can
   * also give 0 for a small nonzero difference, see `PositionErrorCanVanish`).
   */
  function PositionError(f: Frame): (e: int)
    requires !IsLost(f)
    ensures -1000 <= e <= 1000
    ensures e > 0 ==> f.right > f.left
    ensures e < 0 ==> f.right < f.left
    ensures f.right == f.left ==> e == 0
  {
    assert Denominator(f) >= IR_WHITE_LIMIT;
    assert Abs(Numerator(f)) <= 1000 * Denominator(f);
    TruncDivBound(Numerator(f), Denominator(f), 1000);
    TruncDivIsTruncation(Numerator(f), Denominator(f));
    TruncDiv(Numerator(f), Denominator(f))
  }

  /** `LastValidDirection` after a detected tick with error e. */
  function UpdateDirection(dir: int, e: int): (d: int)
    ensures -1 <= dir <= 1 ==> -1 <= d <= 1
    ensures d != dir ==> Abs(e) > DIR_THRESHOLD && (d == 1 <==> e > 0) && (d == -1 <==> e < 0)
    ensures Abs(e) > DIR_THRESHOLD ==> d == (if e > 0 then 1 else -1)
  {
    if e > DIR_THRESHOLD then 1
    else if e < -DIR_THRESHOLD then -1
    else dir
  }

  /** PD correction `error * K_P + (error - LastError) * K_D`. */
  function Correction(e: int, lastError: int): (c: int)
    ensures -1000 <= e <= 1000 && -1000 <= lastError <= 1000 ==> -76000 <= c <= 76000
    ensures e > 0 && e >= lastError ==> c > 0
    ensures e < 0 && e <= lastError ==> c < 0
    ensures e == 0 && lastError == 0 ==> c == 0
  {
    e * K_P + (e - lastError) * K_D
  }

  /** Two-level gain scheduling of the base speed. */
  function BaseSpeed(e: int): (b: int)
    ensures b == SPEED_TURN_BASE || b == SPEED_BASE
    ensures b == SPEED_TURN_BASE <==> e > SHARP_TURN || e < -SHARP_TURN
  {
    if Abs(e) > SHARP_TURN then SPEED_TURN_BASE else SPEED_BASE
  }

  /** Search mode spins toward the remembered side; without one it turns left. */
  function SearchSpeeds(dir: int): (sp: Speeds)
    ensures sp.left + sp.right == SPEED_SEARCH && (sp.left == 0 || sp.right == 0)
    ensures sp.left > 0 <==> dir > 0
  {
    if dir > 0 then Speeds(SPEED_SEARCH, 0) else Speeds(0, SPEED_SEARCH)
  }

  /** A tick on which the line is lost: count it, and search once the grace period is over. */
  function LostStep(s: ControlState): (r: StepResult)
    ensures r.state == s.(lostLineCounter := s.lostLineCounter + 1)
    ensures r.out == SILENT <==> s.lostLineCounter + 1 <= LOST_LINE_DELAY
    ensures IsSearch(r.out) <==> s.lostLineCounter + 1 > LOST_LINE_DELAY
  {
    var counter := s.lostLineCounter + 1;
    var s' := s.(lostLineCounter := counter);
    if counter > LOST_LINE_DELAY then
      StepResult(s', Output(Some(SearchSpeeds(s.lastValidDirection)), Some(SetLedStatus(0, true))))
    else
      StepResult(s', SILENT)
  }

  /** A tick on which the line is seen with position error e: PD correction and memory update. */
  function TrackStep(s: ControlState, e: int): (r: StepResult)
    ensures r.state.lostLineCounter == 0 && r.state.lastError == e
    ensures r.out.motors.Some? && r.out.led.Some? && !IsSearch(r.out)
    ensures r.out.motors.value.left + r.out.motors.value.right == 2 * BaseSpeed(e)
  {
    var correction := Correction(e, s.lastError);
    var base := BaseSpeed(e);
    StepResult(
      ControlState(e, 0, UpdateDirection(s.lastValidDirection, e)),
      Output(Some(Speeds(base + correction, base - correction)), Some(SetLedStatus(e, false))))
  }

  /** One iteration of the control loop, after `OS_Wait` has returned. */
  function Step(s: ControlState, f: Frame): (r: StepResult)
    ensures r.state.lostLineCounter == 0 <==> !IsLost(f)
    ensures IsSearch(r.out) ==> IsLost(f)
    ensures r.out.motors.None? <==> r.out == SILENT
    ensures IsLost(f) ==> r.state.lastError == s.lastError && r.state.lastValidDirection == s.lastValidDirection
  {
    if IsLost(f) then LostStep(s) else TrackStep(s, PositionError(f))
  }

  /** A search tick is recognisable by its output: it is the only one that writes the lost value to port F. */
  predicate IsSearch(o: Output) {
    o.led == Some(LED_LOST)
  }

  // ---------------------------------------------------------------------------
  // Properties of one tick

  /**
   * Truncation can hide a small offset: (1501, 0, 1500) is detected, right exceeds
   * left, and yet the error is 1000 / 3001 = 0.
   */
  lemma PositionErrorCanVanish()
    ensures var f := Frame(1501, 0, 1500);
      !IsLost(f) && f.right > f.left && PositionError(f) == 0
  {
  }

  lemma StepPreservesValid(s: ControlState, f: Frame)
    requires ValidState(s)
    ensures ValidState(Step(s, f).state)
  {
  }

  /** A lost tick counts itself and touches neither the error nor the direction memory. */
  lemma LostTick(s: ControlState, f: Frame)
    requires IsLost(f)
    ensures var r := Step(s, f);
      && r.state.lostLineCounter == s.lostLineCounter + 1
      && r.state.lastError == s.lastError
      && r.state.lastValidDirection == s.lastValidDirection
      && (s.lostLineCounter + 1 <= LOST_LINE_DELAY <==> r.out == SILENT)
      && (s.lostLineCounter + 1 > LOST_LINE_DELAY <==> IsSearch(r.out))
  {
  }

  /**
   * Search mode drives one side at SPEED_SEARCH and stops the other, which the mapper
   * turns into the duty floor; the right side carries the gain.
   */
  lemma SearchTick(s: ControlState, f: Frame)
    requires IsLost(f) && s.lostLineCounter >= LOST_LINE_DELAY
    ensures var r := Step(s, f);
      && r.out.led == Some(LED_LOST)
      && r.out.motors == Some(if s.lastValidDirection > 0 then Speeds(SPEED_SEARCH, 0) else Speeds(0, SPEED_SEARCH))
      && var d := SetMotors(r.out.motors.value.left, r.out.motors.value.right);
      && (s.lastValidDirection > 0 ==> d == Duty(SPEED_SEARCH, SPEED_MIN))
      && (s.lastValidDirection <= 0 ==> d == Duty(SPEED_MIN, 690))
  {
  }

  /**
   * A detected tick resets the lost count, stores its error, and commands a pair of
   * speeds that average to the scheduled base and differ by twice the PD correction.
   */
  lemma DetectedTick(s: ControlState, f: Frame)
    requires !IsLost(f)
    ensures var r := Step(s, f); var e := PositionError(f);
      && r.state.lostLineCounter == 0
      && r.state.lastError == e
      && r.out.motors.Some? && r.out.led == Some(SetLedStatus(e, false))
      && var sp := r.out.motors.value;
      && sp.left + sp.right == 2 * BaseSpeed(e)
      && sp.left - sp.right == 2 * (K_P * e + K_D * (e - s.lastError))
      && (BaseSpeed(e) == SPEED_TURN_BASE <==> e > SHARP_TURN || e < -SHARP_TURN)
      && (BaseSpeed(e) == SPEED_BASE <==> -SHARP_TURN <= e <= SHARP_TURN)
  {
  }

  /**
   * The command steers toward the line: an error to the right that is not shrinking
   * speeds up the left side, and the mirror.
   */
  lemma SteersTowardLine(s: ControlState, f: Frame)
    requires !IsLost(f)
    ensures var r := Step(s, f); var e := PositionError(f); var sp := r.out.motors.value;
      && (e > 0 && e >= s.lastError ==> sp.left > sp.right)
      && (e < 0 && e <= s.lastError ==> sp.left < sp.right)
      && (e == 0 && s.lastError == 0 ==> sp.left == sp.right)
  {
  }

  /**
   * Directional memory only ever becomes 1 after an error above DIR_THRESHOLD and -1
   * after one below -DIR_THRESHOLD; lost and centred ticks keep it.
   */
  lemma DirectionMemory(s: ControlState, f: Frame)
    ensures var d := Step(s, f).state.lastValidDirection;
      && (d != s.lastValidDirection ==> !IsLost(f) && Abs(PositionError(f)) > DIR_THRESHOLD)
      && (d == 1 && s.lastValidDirection != 1 ==> !IsLost(f) && PositionError(f) > DIR_THRESHOLD)
      && (d == -1 && s.lastValidDirection != -1 ==> !IsLost(f) && PositionError(f) < -DIR_THRESHOLD)
      && (!IsLost(f) && PositionError(f) > DIR_THRESHOLD ==> d == 1)
      && (!IsLost(f) && PositionError(f) < -DIR_THRESHOLD ==> d == -1)
  {
  }

  /** Feeding the same frame twice leaves the direction where the first tick put it. */
  lemma DirectionIdempotent(s: ControlState, f: Frame)
    ensures Step(Step(s, f).state, f).state.lastValidDirection == Step(s, f).state.lastValidDirection
  {
  }

  /** On a tracking tick the port-F value names the same side the direction memory records. */
  lemma LedAgreesWithDirection(s: ControlState, f: Frame)
    requires !IsLost(f)
    ensures var r := Step(s, f);
      && (r.out.led == Some(LED_RIGHT) ==> r.state.lastValidDirection == 1)
      && (r.out.led == Some(LED_LEFT) ==> r.state.lastValidDirection == -1)
      && (r.out.led == Some(LED_CENTER) ==> r.state.lastValidDirection == s.lastValidDirection)
  {
  }

  /** A sharp offset to the right from rest: readings (2000, 1800, 100) with no previous error. */
  lemma TrackingExample()
    ensures var f := Frame(2000, 1800, 100);
      && !IsLost(f) && Numerator(f) == 1900000 && Denominator(f) == 3900
      && PositionError(f) == 487
      && var r := Step(INITIAL, f);
      && r.out.motors == Some(Speeds(300 + 22402, 300 - 22402))
      && SetMotors(300 + 22402, 300 - 22402) == Duty(SPEED_MAX, SPEED_MIN)
      && r.out.led == Some(LED_RIGHT)
      && r.state == ControlState(487, 0, 1)
  {
    var f := Frame(2000, 1800, 100);
    assert TruncDiv(1900000, 3900) == 487;
    assert Correction(487, 0) == 22402;
    assert BaseSpeed(487) == SPEED_TURN_BASE;
    assert ScaleRight(300 - 22402) == -25417;
  }

  /** A value a 32-bit `long` can hold. */
  predicate FitsLong(x: int) {
    -0x8000_0000 <= x < 0x8000_0000
  }

  /**
   * Within ADC range and from valid memory, every intermediate of a tick fits a
   * 32-bit `long`: the numerator and denominator, the two PD terms and their sum,
   * both commanded speeds, and the gain-scaled right speed.
   */
  lemma {:induction false} StepFitsInLong(s: ControlState, f: Frame)
    requires ValidState(s) && AdcFrame(f)
    ensures FitsLong(f.right * 1000) && FitsLong(f.left * 1000)
    ensures FitsLong(Numerator(f)) && FitsLong(Denominator(f))
    ensures !IsLost(f) ==>
      var e := PositionError(f);
      var c := Correction(e, s.lastError);
      var base := BaseSpeed(e);
      && -16000 <= e * K_P <= 16000
      && -60000 <= (e - s.lastError) * K_D <= 60000
      && -76000 <= c <= 76000
      && FitsLong(base + c) && FitsLong(base - c)
      && FitsLong(ScaleRight(base - c))
  {
    if !IsLost(f) {
      var e := PositionError(f);
      var c := Correction(e, s.lastError);
      assert -76000 <= c <= 76000;
      var sp := BaseSpeed(e) - c;
      ScaleMonotone(-80000, sp);
      ScaleMonotone(sp, 80000);
    }
  }

  // ---------------------------------------------------------------------------
  // Runs of ticks

  /** The memory after a sequence of ticks and what each tick drove. */
  datatype Trace = Trace(final: ControlState, outs: seq<Output>)

  /** The loop over a finite sequence of frames, peeling the last tick. */
  function Run(s: ControlState, fs: seq<Frame>): (t: Trace)
    ensures |t.outs| == |fs|
    decreases |fs|
  {
    if fs == [] then Trace(s, [])
    else
      var p := Run(s, fs[..|fs| - 1]);
      var r := Step(p.final, fs[|fs| - 1]);
      Trace(r.state, p.outs + [r.out])
  }

  predicate AllLost(fs: seq<Frame>) {
    forall k :: 0 <= k < |fs| ==> IsLost(fs[k])
  }

  /** Length of the streak of lost frames at the end of fs. */
  function TrailingLost(fs: seq<Frame>): (n: nat)
    ensures n <= |fs|
  {
    if fs == [] || !IsLost(fs[|fs| - 1]) then 0 else TrailingLost(fs[..|fs| - 1]) + 1
  }

  /** The lost count after fs: the trailing streak, plus the initial count if fs never saw the line. */
  function Streak(s: ControlState, fs: seq<Frame>): nat {
    TrailingLost(fs) + if AllLost(fs) then s.lostLineCounter else 0
  }

  /** The direction the most recent confident error of fs points to, or d if there is none. */
  function LastConfident(d: int, fs: seq<Frame>): int {
    if fs == [] then d
    else
      var f := fs[|fs| - 1];
      if !IsLost(f) && PositionError(f) > DIR_THRESHOLD then 1
      else if !IsLost(f) && PositionError(f) < -DIR_THRESHOLD then -1
      else LastConfident(d, fs[..|fs| - 1])
  }

  /** The error of the most recent detected frame of fs, or e if there is none. */
  function LastDetectedError(e: int, fs: seq<Frame>): int {
    if fs == [] then e
    else if !IsLost(fs[|fs| - 1]) then PositionError(fs[|fs| - 1])
    else LastDetectedError(e, fs[..|fs| - 1])
  }

  lemma {:induction false} RunPreservesValid(s: ControlState, fs: seq<Frame>)
    requires ValidState(s)
    ensures ValidState(Run(s, fs).final)
  {
    if fs != [] {
      RunPreservesValid(s, fs[..|fs| - 1]);
      StepPreservesValid(Run(s, fs[..|fs| - 1]).final, fs[|fs| - 1]);
    }
  }

  /** `LostLineCounter` is the run length of the current lost streak. */
  lemma {:induction false} RunCounterIsStreak(s: ControlState, fs: seq<Frame>)
    ensures Run(s, fs).final.lostLineCounter == Streak(s, fs)
  {
    if fs != [] {
      var init := fs[..|fs| - 1];
      RunCounterIsStreak(s, init);
      if AllLost(fs) {
        assert AllLost(init) by {
          forall k | 0 <= k < |init| ensures IsLost(init[k]) {
            assert init[k] == fs[k];
          }
        }
      }
      if AllLost(init) && IsLost(fs[|fs| - 1]) {
        assert AllLost(fs) by {
          forall k | 0 <= k < |fs| ensures IsLost(fs[k]) {
            if k < |init| {
              assert init[k] == fs[k];
            }
          }
        }
      }
    }
  }

  /** The memory after a run: the last confident direction and the last detected error. */
  lemma {:induction false} RunMemory(s: ControlState, fs: seq<Frame>)
    ensures Run(s, fs).final.lastValidDirection == LastConfident(s.lastValidDirection, fs)
    ensures Run(s, fs).final.lastError == LastDetectedError(s.lastError, fs)
  {
    if fs != [] {
      RunMemory(s, fs[..|fs| - 1]);
    }
  }

  /** What the tick at index i drove depends only on the frames up to it. */
  lemma {:induction false} RunPrefix(s: ControlState, fs: seq<Frame>, i: nat)
    requires i < |fs|
    ensures Run(s, fs).outs[i] == Step(Run(s, fs[..i]).final, fs[i]).out
    decreases |fs|
  {
    var init := fs[..|fs| - 1];
    if i < |fs| - 1 {
      RunPrefix(s, init, i);
      assert init[..i] == fs[..i];
      assert init[i] == fs[i];
    } else {
      assert init == fs[..i];
    }
  }

  /**
   * Debounce: a tick searches exactly when it ends a lost streak longer than
   * LOST_LINE_DELAY (counting the memory's own count if the run never saw the line).
   */
  lemma {:induction false} SearchIffLongStreak(s: ControlState, fs: seq<Frame>, i: nat)
    requires i < |fs|
    ensures IsSearch(Run(s, fs).outs[i]) <==> Streak(s, fs[..i + 1]) > LOST_LINE_DELAY
  {
    RunPrefix(s, fs, i);
    var pre := fs[..i];
    var upto := fs[..i + 1];
    assert upto[..i] == pre;
    assert upto[i] == fs[i];
    RunCounterIsStreak(s, pre);
    RunCounterIsStreak(s, upto);
    var p := Run(s, pre).final;
    if !IsLost(fs[i]) {
      assert !IsSearch(Step(p, fs[i]).out) by {
        var e := PositionError(fs[i]);
        assert Step(p, fs[i]).out.led == Some(SetLedStatus(e, false));
      }
    }
    assert Run(s, upto).final == Step(p, fs[i]).state;
  }

  /** During the grace period nothing is driven and only the count moves. */
  lemma {:induction false} DebounceIsSilent(s: ControlState, fs: seq<Frame>)
    requires AllLost(fs) && s.lostLineCounter + |fs| <= LOST_LINE_DELAY
    ensures Run(s, fs).final == s.(lostLineCounter := s.lostLineCounter + |fs|)
    ensures forall k :: 0 <= k < |fs| ==> Run(s, fs).outs[k] == SILENT
  {
    if fs != [] {
      var init := fs[..|fs| - 1];
      assert AllLost(init) by {
        forall k | 0 <= k < |init| ensures IsLost(init[k]) {
          assert init[k] == fs[k];
        }
      }
      DebounceIsSilent(s, init);
      assert IsLost(fs[|fs| - 1]);
    }
  }

  /** A loss of at most LOST_LINE_DELAY ticks that ends on a detected tick never searches. */
  lemma {:induction false} ShortLossNeverSearches(s: ControlState, lost: seq<Frame>, back: Frame)
    requires s.lostLineCounter == 0
    requires AllLost(lost) && |lost| <= LOST_LINE_DELAY && !IsLost(back)
    ensures var t := Run(s, lost + [back]);
      && (forall k :: 0 <= k < |t.outs| ==> !IsSearch(t.outs[k]))
      && t.final.lostLineCounter == 0
  {
    var fs := lost + [back];
    forall k | 0 <= k < |fs|
      ensures !IsSearch(Run(s, fs).outs[k])
    {
      SearchIffLongStreak(s, fs, k);
      var upto := fs[..k + 1];
      if k < |lost| {
        assert upto == lost[..k + 1];
        assert TrailingLost(upto) <= k + 1;
      } else {
        assert !IsLost(upto[|upto| - 1]);
      }
    }
    RunCounterIsStreak(s, fs);
    assert fs[|fs| - 1] == back;
  }

  /** Six dark frames from start-up: five silent ticks, then search toward the default side. */
  lemma {:induction false} DarkScenario()
    ensures var f := Frame(50, 50, 50);
      && IsLost(f) && Denominator(f) < IR_THRESHOLD
      && var t := Run(INITIAL, [f, f, f, f, f, f]);
      && (forall k :: 0 <= k < 5 ==> t.outs[k] == SILENT)
      && t.outs[5] == Output(Some(Speeds(0, SPEED_SEARCH)), Some(LED_LOST))
      && t.final == ControlState(0, 6, 0)
  {
    var f := Frame(50, 50, 50);
    var fs := [f, f, f, f, f, f];
    DebounceIsSilent(INITIAL, fs[..5]);
    assert fs[..5] == [f, f, f, f, f];
  }
}
