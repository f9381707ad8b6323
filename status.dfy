/**
 * The status indicator `Set_LED_Status`: the value it writes to the port-F data
 * register, one of four codes for lost, veering right, veering left and centred.
 */
module Status {

  /** The error beyond which the indicator shows a veer (a literal in the source). */
  const VEER_LIMIT: int := 200

  const LED_LOST: bv8 := 0x0E
  const LED_RIGHT: bv8 := 0x08
  const LED_LEFT: bv8 := 0x02
  const LED_CENTER: bv8 := 0x04

  /** `Set_LED_Status(error, isLost)`: the value written to GPIO_PORTF_DATA_R. */
  function SetLedStatus(error: int, isLost: bool): (v: bv8)
    ensures v == LED_LOST <==> isLost
    ensures v == LED_RIGHT <==> !isLost && error > VEER_LIMIT
    ensures v == LED_LEFT <==> !isLost && error < -VEER_LIMIT
    ensures v == LED_CENTER <==> !isLost && -VEER_LIMIT <= error <= VEER_LIMIT
  {
    if isLost then 0x0E
    else if error > 200 then 0x08
    else if error < -200 then 0x02
    else 0x04
  }
}
