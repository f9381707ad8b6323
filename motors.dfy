/**
 * The motor command mapper `Set_Motors`: hardware gain on the right motor, then
 * saturation of both sides to the duty window written to the PWM comparators.
 */
module Motors {
  import opened CArith

  const SPEED_MAX: int := 950
  const SPEED_MIN: int := 50

  /** RIGHT_MOTOR_GAIN = 1.15, as the integer ratio GAIN_NUM / GAIN_DEN. */
  const GAIN_NUM: int := 115
  const GAIN_DEN: int := 100

  /** The two compare values written to PWM0_0_CMPA_R (left) and PWM0_0_CMPB_R (right). */
  datatype Duty = Duty(left: int, right: int)

  predicate InWindow(v: int) {
    SPEED_MIN <= v <= SPEED_MAX
  }

  /** Saturation to [SPEED_MIN, SPEED_MAX]: the upper test first, then the lower one. */
  function Clamp(v: int): (r: int)
    ensures InWindow(r)
    ensures InWindow(v) ==> r == v
    ensures v > SPEED_MAX ==> r == SPEED_MAX
    ensures v < SPEED_MIN ==> r == SPEED_MIN
  {
    var v1 := if v > SPEED_MAX then SPEED_MAX else v;
    if v1 < SPEED_MIN then SPEED_MIN else v1
  }

  /** Saturation picks the point of the window nearest to its input, and is monotone. */
  lemma ClampIsNearest(v: int, w: int)
    requires InWindow(w)
    ensures Abs(Clamp(v) - v) <= Abs(w - v)
    ensures w <= v ==> w <= Clamp(v)
    ensures v <= w ==> Clamp(v) <= w
  {
  }

  lemma ClampMonotone(a: int, b: int)
    requires a <= b
    ensures Clamp(a) <= Clamp(b)
  {
  }

  /**
   * `(long)(speed_R * RIGHT_MOTOR_GAIN)`: the conversion to `long` truncates toward
   * zero, so the scaled value is within one unit of 1.15 * speed, on the side of zero.
   */
  function ScaleRight(speed: int): (r: int)
    ensures Abs(GAIN_NUM * speed - GAIN_DEN * r) < GAIN_DEN
    ensures speed >= 0 ==> 0 <= GAIN_DEN * r <= GAIN_NUM * speed
    ensures speed <= 0 ==> GAIN_NUM * speed <= GAIN_DEN * r <= 0
  {
    TruncDivIsTruncation(speed * GAIN_NUM, GAIN_DEN);
    TruncDiv(speed * GAIN_NUM, GAIN_DEN)
  }

  /** `Set_Motors(speed_L, speed_R)`: the duties it writes. */
  function SetMotors(speedL: int, speedR: int): (d: Duty)
    ensures InWindow(d.left) && InWindow(d.right)
    ensures InWindow(speedL) ==> d.left == speedL
    ensures d.left == Clamp(speedL)
    ensures d.right == Clamp(ScaleRight(speedR))
  {
    Duty(Clamp(speedL), Clamp(ScaleRight(speedR)))
  }

  /** When the right side is not saturated its duty is speed_R scaled by 1.15, truncated. */
  lemma UnsaturatedRightIsScaled(speedL: int, speedR: int)
    requires InWindow(ScaleRight(speedR))
    ensures var d := SetMotors(speedL, speedR);
      Abs(GAIN_NUM * speedR - GAIN_DEN * d.right) < GAIN_DEN
  {
  }

  /** A larger command never yields a smaller duty on either side. */
  lemma {:induction false} SetMotorsMonotone(l1: int, r1: int, l2: int, r2: int)
    requires l1 <= l2 && r1 <= r2
    ensures SetMotors(l1, r1).left <= SetMotors(l2, r2).left
    ensures SetMotors(l1, r1).right <= SetMotors(l2, r2).right
  {
    ClampMonotone(l1, l2);
    ScaleMonotone(r1, r2);
    ClampMonotone(ScaleRight(r1), ScaleRight(r2));
  }

  lemma ScaleMonotone(a: int, b: int)
    requires a <= b
    ensures ScaleRight(a) <= ScaleRight(b)
  {
  }
}
