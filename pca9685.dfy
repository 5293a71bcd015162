/**
 * The servo driver as the leg-control code sees it: `PCA9685_setServo(leg,
 * degree)` clamps the angle to [0, 180] and the channel to at most 11, then
 * commands that channel. The PWM register arithmetic behind it is not part
 * of this model; the twelve channels are a 12-slot array holding the last
 * angle each servo was commanded to.
 */
module Pca9685 {
  import opened CArith

  const SERVO_COUNT := 12
  const MAX_CHANNEL := 11
  const MIN_DEGREE := 0
  const MAX_DEGREE := 180

  /** The angle a servo is driven to: out-of-range requests are clamped, not rejected. */
  function ClampDegree(degree: int): (r: int)
    ensures MIN_DEGREE <= r <= MAX_DEGREE
    ensures MIN_DEGREE <= degree <= MAX_DEGREE ==> r == degree
    ensures degree < MIN_DEGREE ==> r == MIN_DEGREE
    ensures degree > MAX_DEGREE ==> r == MAX_DEGREE
  {
    if degree < MIN_DEGREE then MIN_DEGREE
    else if degree > MAX_DEGREE then MAX_DEGREE
    else degree
  }

  /**
   * The channel a call drives: the argument is a uint8_t, and any channel
   * above 11 is clamped to 11.
   */
  function Channel(leg: int): (r: nat)
    ensures r <= MAX_CHANNEL
    ensures U8(leg) <= MAX_CHANNEL ==> r == U8(leg)
    ensures 0 <= leg <= MAX_CHANNEL ==> r == leg
    ensures MAX_CHANNEL < U8(leg) ==> r == MAX_CHANNEL
  {
    var l := U8(leg);
    if l > MAX_CHANNEL then MAX_CHANNEL else l
  }

  /** `PCA9685_setServo(leg, degree)`: one channel changes, to the clamped angle. */
  method SetServo(servo: array<int>, leg: int, degree: int)
    requires servo.Length == SERVO_COUNT
    modifies servo
    ensures servo[..] == old(servo[..])[Channel(leg) := ClampDegree(degree)]
  {
    servo[Channel(leg)] := ClampDegree(degree);
  }

  /** The pose left on the servos once every channel s has been sent `pos[s]`. */
  function ClampedPose(pos: seq<int>): (r: seq<int>)
    requires |pos| == SERVO_COUNT
    ensures |r| == SERVO_COUNT
    ensures forall s :: 0 <= s < SERVO_COUNT ==> MIN_DEGREE <= r[s] <= MAX_DEGREE
  {
    seq(SERVO_COUNT, s requires 0 <= s < SERVO_COUNT => ClampDegree(pos[s]))
  }
}
