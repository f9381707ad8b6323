/**
 * The program state of `main.c` as one object: the shared sensor buffer, the
 * controller's globals, the tick semaphore and the output registers the loop
 * writes. The timer interrupt and one iteration of the control loop are its
 * methods, each proved against the pure step of module Control.
 */
module Robot {
  import opened Wrappers
  import opened CArith
  import opened Motors
  import opened Status
  import opened Control
  import Adc
  import Semaphore

  /** PWM0_0_CMPA_R (left), PWM0_0_CMPB_R (right) and GPIO_PORTF_DATA_R. */
  datatype Registers = Registers(pwmLeft: int, pwmRight: int, led: bv8)

  /** The registers after a tick drove o. */
  function Actuate(hw: Registers, o: Output): (h: Registers)
    ensures o.motors.None? ==> h.pwmLeft == hw.pwmLeft && h.pwmRight == hw.pwmRight
    ensures o.led.None? ==> h.led == hw.led
  {
    var hw' :=
      match o.motors
      case None => hw
      case Some(sp) =>
        var d := SetMotors(sp.left, sp.right);
        hw.(pwmLeft := d.left, pwmRight := d.right);
    match o.led
    case None => hw'
    case Some(v) => hw'.(led := v)
  }

  /**
   * A motor command rewrites both comparators through the mapper, so with in-window
   * duties; an LED value rewrites the port; whatever the tick did not drive keeps
   * its previous value.
   */
  lemma ActuateEffect(hw: Registers, o: Output)
    ensures var h := Actuate(hw, o);
      && (o.motors.None? ==> h.pwmLeft == hw.pwmLeft && h.pwmRight == hw.pwmRight)
      && (o.motors.Some? ==> InWindow(h.pwmLeft) && InWindow(h.pwmRight))
      && (o.motors.Some? ==> Duty(h.pwmLeft, h.pwmRight) == SetMotors(o.motors.value.left, o.motors.value.right))
      && h.led == if o.led.Some? then o.led.value else hw.led
  {
  }

  /** A tick that drives both outputs rewrites all three registers. */
  lemma ActuateDriven(hw: Registers, sp: Speeds, v: bv8)
    ensures var d := SetMotors(sp.left, sp.right);
      Actuate(hw, Output(Some(sp), Some(v))) == Registers(d.left, d.right, v)
  {
  }

  /** A tick that drives neither output leaves the registers as they were. */
  lemma ActuateSilent(hw: Registers)
    ensures Actuate(hw, SILENT) == hw
  {
  }

  /** The registers after a sequence of ticks. */
  function ActuateAll(hw: Registers, outs: seq<Output>): Registers
    decreases |outs|
  {
    if outs == [] then hw
    else Actuate(ActuateAll(hw, outs[..|outs| - 1]), outs[|outs| - 1])
  }

  /** Once any tick has driven the motors, both comparators hold in-window duties. */
  lemma {:induction false} DutiesStayInWindow(hw: Registers, outs: seq<Output>, k: nat)
    requires k < |outs| && outs[k].motors.Some?
    ensures var h := ActuateAll(hw, outs); InWindow(h.pwmLeft) && InWindow(h.pwmRight)
    decreases |outs|
  {
    var init := outs[..|outs| - 1];
    ActuateEffect(ActuateAll(hw, init), outs[|outs| - 1]);
    if k < |outs| - 1 {
      assert init[k] == outs[k];
      DutiesStayInWindow(hw, init, k);
    }
  }

  /** The FIFO words of the four conversions of each channel in one timer interrupt. */
  datatype Conversions = Conversions(right: seq<bv32>, center: seq<bv32>, left: seq<bv32>)

  predicate WellFormed(c: Conversions) {
    |c.right| == Adc.SAMPLES && |c.center| == Adc.SAMPLES && |c.left| == Adc.SAMPLES
  }

  /** The frame the timer interrupt stores for those conversions. */
  function FrameOf(c: Conversions): (f: Frame)
    requires WellFormed(c)
    ensures AdcFrame(f)
  {
    Frame(Adc.Average(c.right), Adc.Average(c.center), Adc.Average(c.left))
  }

  function Frames(ticks: seq<Conversions>): (fs: seq<Frame>)
    requires forall k :: 0 <= k < |ticks| ==> WellFormed(ticks[k])
    ensures |fs| == |ticks|
    ensures forall k :: 0 <= k < |ticks| ==> fs[k] == FrameOf(ticks[k])
  {
    seq(|ticks|, k requires 0 <= k < |ticks| => FrameOf(ticks[k]))
  }

  class LineFollower {
    /** `SensorValues[3]`: right, center, left. */
    const sensorValues: array<nat>
    /** `g_TickSemaphore`. */
    const tickSemaphore: Semaphore.Semaphore
    var lastError: int
    var lostLineCounter: nat
    var lastValidDirection: int
    /** The output registers. */
    var pwmLeft: int
    var pwmRight: int
    var ledPort: bv8

    ghost predicate Valid()
      reads this, sensorValues
    {
      && sensorValues.Length == 3
      && ValidState(State())
      && AdcFrame(SensorFrame())
    }

    function State(): ControlState
      reads this
    {
      ControlState(lastError, lostLineCounter, lastValidDirection)
    }

    function SensorFrame(): Frame
      reads sensorValues
      requires sensorValues.Length == 3
    {
      Frame(sensorValues[0], sensorValues[1], sensorValues[2])
    }

    function Outputs(): Registers
      reads this
    {
      Registers(pwmLeft, pwmRight, ledPort)
    }

    /**
     * Start-up: the globals' initial values, `OS_Semaphore_Init(&g_TickSemaphore, 0)`
     * and the comparators zeroed by the PWM bring-up; the port register starts at 0.
     */
    constructor ()
      ensures Valid() && fresh(sensorValues) && fresh(tickSemaphore)
      ensures State() == INITIAL && SensorFrame() == Frame(0, 0, 0)
      ensures tickSemaphore.count == 0
      ensures Outputs() == Registers(0, 0, 0)
    {
      var buffer := new nat[3](_ => 0);
      sensorValues := buffer;
      tickSemaphore := new Semaphore.Semaphore.Init(0);
      lastError, lostLineCounter, lastValidDirection := 0, 0, 0;
      pwmLeft, pwmRight, ledPort := 0, 0, 0;
    }

    /** `SysTick_Handler`: store the three averaged readings, then signal the loop. */
    method SysTickHandler(c: Conversions)
      requires Valid() && WellFormed(c)
      modifies sensorValues, tickSemaphore
      ensures Valid()
      ensures SensorFrame() == FrameOf(c)
      ensures tickSemaphore.count == old(tickSemaphore.count) + 1
    {
      var r := Adc.ReadAverage(c.right);
      sensorValues[0] := r;
      var m := Adc.ReadAverage(c.center);
      sensorValues[1] := m;
      var l := Adc.ReadAverage(c.left);
      sensorValues[2] := l;
      tickSemaphore.Signal();
    }

    /**
     * One iteration of the `while(1)` loop of `main`: wait for a sample, then step the
     * controller on it and write whatever the step drives.
     */
    method ControlIteration()
      requires Valid() && tickSemaphore.count > 0
      modifies this, tickSemaphore
      ensures Valid()
      ensures tickSemaphore.count == old(tickSemaphore.count) - 1
      ensures State() == Step(old(State()), SensorFrame()).state
      ensures Outputs() == Actuate(old(Outputs()), Step(old(State()), SensorFrame()).out)
    {
      ghost var f := SensorFrame();
      tickSemaphore.Wait();

      var numerator := (sensorValues[0] as int) * 1000 - (sensorValues[2] as int) * 1000;
      var denominator := sensorValues[0] + sensorValues[1] + sensorValues[2];
      var isLineLost := denominator < IR_THRESHOLD
        || (sensorValues[0] < IR_WHITE_LIMIT && sensorValues[1] < IR_WHITE_LIMIT && sensorValues[2] < IR_WHITE_LIMIT);
      assert isLineLost == IsLost(f);

      if isLineLost {
        LineLost();
      } else {
        assert TruncDiv(numerator, denominator) == PositionError(f);
        LineFound(numerator, denominator);
      }
    }

    /** The lost-line branch of the loop: count the tick, and search after the grace period. */
    method LineLost()
      modifies this
      ensures State() == LostStep(old(State())).state
      ensures Outputs() == Actuate(old(Outputs()), LostStep(old(State())).out)
    {
      ghost var s0, hw0 := State(), Outputs();
      lostLineCounter := lostLineCounter + 1;
      if lostLineCounter > LOST_LINE_DELAY {
        var d: Duty;
        if lastValidDirection > 0 {
          d := SetMotors(SPEED_SEARCH, 0);
        } else {
          d := SetMotors(0, SPEED_SEARCH);
        }
        pwmLeft, pwmRight := d.left, d.right;
        ledPort := SetLedStatus(0, true);
        ActuateDriven(hw0, SearchSpeeds(s0.lastValidDirection), ledPort);
      } else {
        ActuateSilent(hw0);
      }
    }

    /**
     * The line-found branch of the loop: the truncating division gives the error, then
     * directional memory, PD correction, base-speed selection and the two writes.
     */
    method LineFound(numerator: int, denominator: int)
      requires denominator > 0
      modifies this
      ensures State() == TrackStep(old(State()), TruncDiv(numerator, denominator)).state
      ensures Outputs() == Actuate(old(Outputs()), TrackStep(old(State()), TruncDiv(numerator, denominator)).out)
    {
      ghost var s0, hw0 := State(), Outputs();
      lostLineCounter := 0;
      var error := TruncDiv(numerator, denominator);

      if error > DIR_THRESHOLD {
        lastValidDirection := 1;
      } else if error < -DIR_THRESHOLD {
        lastValidDirection := -1;
      }
      assert lastValidDirection == UpdateDirection(s0.lastValidDirection, error);

      var derivative := error - lastError;
      var correction := error * K_P + derivative * K_D;
      lastError := error;

      var speedBase := if Abs(error) > SHARP_TURN then SPEED_TURN_BASE else SPEED_BASE;
      var d := SetMotors(speedBase + correction, speedBase - correction);
      pwmLeft, pwmRight := d.left, d.right;
      ledPort := SetLedStatus(error, false);
      assert speedBase == BaseSpeed(error) && correction == Correction(error, s0.lastError);
      ActuateDriven(hw0, Speeds(speedBase + correction, speedBase - correction), ledPort);
    }

    /**
     * A finite run of the system: each tick the interrupt delivers its conversions and
     * the loop consumes them. The memory and the registers follow the pure run of the
     * controller over the delivered frames, and the semaphore ends where it started.
     */
    method RunTicks(ticks: seq<Conversions>)
      requires Valid() && tickSemaphore.count >= 0
      requires forall k :: 0 <= k < |ticks| ==> WellFormed(ticks[k])
      modifies this, sensorValues, tickSemaphore
      ensures Valid()
      ensures State() == Run(old(State()), Frames(ticks)).final
      ensures Outputs() == ActuateAll(old(Outputs()), Run(old(State()), Frames(ticks)).outs)
      ensures tickSemaphore.count == old(tickSemaphore.count)
      ensures |ticks| == 0 ==> SensorFrame() == old(SensorFrame())
      ensures |ticks| > 0 ==> SensorFrame() == FrameOf(ticks[|ticks| - 1])
    {
      ghost var s0, hw0, f0 := State(), Outputs(), SensorFrame();
      ghost var fs := Frames(ticks);
      var i := 0;
      while i < |ticks|
        invariant 0 <= i <= |ticks|
        invariant Valid()
        invariant tickSemaphore.count == old(tickSemaphore.count)
        invariant State() == Run(s0, fs[..i]).final
        invariant Outputs() == ActuateAll(hw0, Run(s0, fs[..i]).outs)
        invariant i == 0 ==> SensorFrame() == f0
        invariant i > 0 ==> SensorFrame() == FrameOf(ticks[i - 1])
      {
        SysTickHandler(ticks[i]);
        ghost var f := SensorFrame();
        assert f == FrameOf(ticks[i]);
        ControlIteration();
        assert SensorFrame() == f;
        assert fs[..i + 1][..i] == fs[..i];
        ghost var outs := Run(s0, fs[..i]).outs;
        ghost var outs' := Run(s0, fs[..i + 1]).outs;
        assert outs'[..|outs'| - 1] == outs;
        i := i + 1;
      }
      assert fs[..|ticks|] == fs;
    }
  }
}
