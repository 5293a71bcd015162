/**
 * The `main.c` revision of the leg-control layer: plain `int` arithmetic
 * (no 8-bit wrap), no servo calibration offsets, a gait phase derived from
 * the clock as (6 * (t % period)) / period, and one step of the top-level
 * command loop keyed on the characters 'f', 'b' and 'r'.
 *
 * The millisecond clock is the parameter `now`; the twelve servos are the
 * `servo` array (hips 0-5, knees 6-11) driven through Pca9685.SetServo.
 */
module MainFirmware {
  import opened CArith
  import opened Pca9685
  import opened Geometry

  const NUM_TRIPOD_PHASES := 6
  /** Hip trim for the walking gait: front legs back, back legs forward. */
  const FBSHIFT := 15
  const NUM_TURN_PHASES := 6
  const FBSHIFT_TURN := 40

  /** Initial value of `lastCmd` ('s'). */
  const INITIAL_CMD := 115
  const CMD_FORWARD := 102   // 'f'
  const CMD_BACKWARD := 98   // 'b'
  const CMD_TURN := 114      // 'r'

  // ---------------------------------------------------------------------
  // Joint arithmetic

  /**
   * The physical hip angle `setHip` sends: front legs trimmed by -adj, back
   * legs by +adj, middle legs untrimmed; then legs from LEFT_START up are
   * mirrored to 180 - angle.
   */
  function HipAngle(leg: int, pos: int, adj: int): int
  {
    var trimmed := if IsFrontLeg(leg) then pos - adj else if IsBackLeg(leg) then pos + adj else pos;
    if leg >= LEFT_START then 180 - trimmed else trimmed
  }

  /**
   * The knee angle `setLeg` sends after lean compensation (an `int`, so no
   * wrap): front legs take -lean only when lean < 0, middle legs +|lean/2|
   * with C's truncating division, back legs +lean only when lean > 0.
   */
  function KneeAngle(leg: int, pos: int, lean: int): int
  {
    if lean == 0 then pos
    else if leg in {0, 6, 5, 11} then (if lean < 0 then pos - lean else pos)
    else if leg in {1, 7, 4, 10} then pos + Abs(CDiv(lean, 2))
    else if leg in {2, 8, 3, 9} then (if lean > 0 then pos + lean else pos)
    else pos
  }

  /** The servo `setKnee` drives: leg n < KNEE_OFFSET means knee servo n + KNEE_OFFSET. */
  function KneeServo(leg: int): int
  {
    if leg < KNEE_OFFSET then leg + KNEE_OFFSET else leg
  }

  /**
   * The twelve servo angles after `setLeg(legmask, hip, knee, adj, raw, lean)`
   * from pose `servo`: slot s < 6 is the hip of leg s, slot s >= 6 the knee of
   * leg s - 6; a slot changes only when its leg's bit is set and its joint
   * request is not NOMOVE.
   */
  function LegPose(servo: seq<int>, legmask: int, hipPos: int, kneePos: int, adj: int, raw: int, lean: int): (r: seq<int>)
    requires |servo| == SERVO_COUNT
    ensures |r| == SERVO_COUNT
  {
    seq(SERVO_COUNT, s requires 0 <= s < SERVO_COUNT =>
      if s < NUM_LEGS then
        (if BitSet(legmask, s) && hipPos != NOMOVE
         then ClampDegree(if raw == 0 then HipAngle(s, hipPos, adj) else hipPos)
         else servo[s])
      else
        (if BitSet(legmask, s - KNEE_OFFSET) && kneePos != NOMOVE
         then ClampDegree(KneeAngle(s - KNEE_OFFSET, kneePos, lean))
         else servo[s]))
  }

  /** The leg a servo slot belongs to: hips are slots 0-5, knees slots 6-11. */
  function SlotLeg(s: int): int
  {
    if s < NUM_LEGS then s else s - KNEE_OFFSET
  }

  /** Hips of all legs at `hip`, knees of all legs at `knee`. */
  function UniformPose(hip: int, knee: int): (r: seq<int>)
    ensures |r| == SERVO_COUNT
  {
    seq(SERVO_COUNT, s => if s < NUM_LEGS then hip else knee)
  }

  // ---------------------------------------------------------------------
  // Properties of the joint arithmetic

  /**
   * The two sides mirror each other: leg 5 - n is the opposite-side twin of
   * leg n (front 0/5, middle 1/4, back 2/3), and its hip angle is 180 minus
   * the twin's for every request and trim.
   */
  lemma HipSidesMirror(leg: int, pos: int, adj: int)
    requires 0 <= leg < NUM_LEGS
    ensures HipAngle(NUM_LEGS - 1 - leg, pos, adj) == 180 - HipAngle(leg, pos, adj)
  {
  }

  /**
   * Undoing the left-side mirror recovers the trimmed request: front legs
   * are moved back by adj, back legs forward by adj, middle legs not at all.
   * With no trim, right legs get the request and left legs 180 minus it.
   */
  lemma HipTrimThenMirror(leg: int, pos: int, adj: int)
    requires 0 <= leg < NUM_LEGS
    ensures var unmirrored := if leg >= LEFT_START then 180 - HipAngle(leg, pos, adj) else HipAngle(leg, pos, adj);
            unmirrored == pos + (if IsFrontLeg(leg) then -adj else if IsBackLeg(leg) then adj else 0)
    ensures adj == 0 ==> HipAngle(leg, pos, adj) == if leg < LEFT_START then pos else 180 - pos
    ensures HipAngle(leg, HIP_NEUTRAL, 0) == HIP_NEUTRAL
  {
  }

  /**
   * Lean compensation only ever raises the knee target, by at most |lean|,
   * treats twin legs alike, and is a no-op for lean 0. Front legs react only
   * to negative lean, back legs only to positive lean, middle legs to both.
   */
  lemma KneeLeanCompensation(leg: int, pos: int, lean: int)
    requires 0 <= leg < NUM_LEGS
    ensures pos <= KneeAngle(leg, pos, lean) <= pos + Abs(lean)
    ensures KneeAngle(NUM_LEGS - 1 - leg, pos, lean) == KneeAngle(leg, pos, lean)
    ensures lean == 0 ==> KneeAngle(leg, pos, lean) == pos
    ensures IsFrontLeg(leg) ==> (KneeAngle(leg, pos, lean) == pos <==> lean >= 0)
    ensures IsBackLeg(leg) ==> (KneeAngle(leg, pos, lean) == pos <==> lean <= 0)
    ensures IsMidLeg(leg) ==> KneeAngle(leg, pos, lean) == pos + Abs(lean) / 2
  {
    if IsMidLeg(leg) && lean != 0 {
      var q := CDiv(lean, 2);
      assert Abs(q) == Abs(lean) / 2 by {
        if lean > 0 {
          DivUnique(lean, 2, q, lean - q * 2);
        } else {
          DivUnique(-lean, 2, -q, -lean + q * 2);
        }
      }
    }
  }

  /** With lean +10, back knees rise by 10, front knees stay, middle knees rise by 5. */
  lemma KneeLeanExample(pos: int)
    ensures KneeAngle(0, pos, 10) == pos && KneeAngle(5, pos, 10) == pos
    ensures KneeAngle(1, pos, 10) == pos + 5 && KneeAngle(4, pos, 10) == pos + 5
    ensures KneeAngle(2, pos, 10) == pos + 10 && KneeAngle(3, pos, 10) == pos + 10
  {
    KneeLeanCompensation(1, pos, 10);
    KneeLeanCompensation(4, pos, 10);
  }

  /**
   * `setLeg` changes a hip slot only for a masked leg with a hip request and a
   * knee slot only for a masked leg with a knee request; what it writes is a
   * clamped servo angle.
   */
  lemma LegPoseFrame(servo: seq<int>, legmask: int, hipPos: int, kneePos: int, adj: int, raw: int, lean: int, leg: int)
    requires |servo| == SERVO_COUNT && 0 <= leg < NUM_LEGS
    ensures var r := LegPose(servo, legmask, hipPos, kneePos, adj, raw, lean);
            && (leg !in LegSet(legmask) || hipPos == NOMOVE ==> r[leg] == servo[leg])
            && (leg !in LegSet(legmask) || kneePos == NOMOVE ==> r[leg + KNEE_OFFSET] == servo[leg + KNEE_OFFSET])
            && (leg in LegSet(legmask) && hipPos != NOMOVE ==> 0 <= r[leg] <= 180)
            && (leg in LegSet(legmask) && kneePos != NOMOVE ==> 0 <= r[leg + KNEE_OFFSET] <= 180)
  {
    var r := LegPose(servo, legmask, hipPos, kneePos, adj, raw, lean);
    assert leg in LegSet(legmask) <==> BitSet(legmask, leg);
    if BitSet(legmask, leg) && kneePos != NOMOVE {
      assert r[leg + KNEE_OFFSET] == ClampDegree(KneeAngle(leg, kneePos, lean));
    }
  }

  /** Sending the same leg command twice leaves the servos where sending it once does. */
  lemma LegPoseIdempotent(servo: seq<int>, legmask: int, hipPos: int, kneePos: int, adj: int, raw: int, lean: int)
    requires |servo| == SERVO_COUNT
    ensures var once := LegPose(servo, legmask, hipPos, kneePos, adj, raw, lean);
            LegPose(once, legmask, hipPos, kneePos, adj, raw, lean) == once
  {
  }

  /** Commands to disjoint sets of legs do not interfere: their order does not matter. */
  lemma LegPoseCommute(servo: seq<int>, m1: int, h1: int, k1: int, a1: int, r1: int, l1: int,
                                         m2: int, h2: int, k2: int, a2: int, r2: int, l2: int)
    requires |servo| == SERVO_COUNT
    requires LegSet(m1) !! LegSet(m2)
    ensures LegPose(LegPose(servo, m1, h1, k1, a1, r1, l1), m2, h2, k2, a2, r2, l2)
         == LegPose(LegPose(servo, m2, h2, k2, a2, r2, l2), m1, h1, k1, a1, r1, l1)
  {
    var x := LegPose(LegPose(servo, m1, h1, k1, a1, r1, l1), m2, h2, k2, a2, r2, l2);
    var y := LegPose(LegPose(servo, m2, h2, k2, a2, r2, l2), m1, h1, k1, a1, r1, l1);
    forall s | 0 <= s < SERVO_COUNT
      ensures x[s] == y[s]
    {
      var leg := if s < NUM_LEGS then s else s - KNEE_OFFSET;
      assert !(leg in LegSet(m1) && leg in LegSet(m2));
    }
  }

  /** `stand` and `laydown` reach the same pose from any pose: hips neutral on both sides. */
  lemma StaticPoses(servo: seq<int>)
    requires |servo| == SERVO_COUNT
    ensures LegPose(servo, ALL_LEGS, HIP_NEUTRAL, KNEE_STAND, 0, 0, 0) == UniformPose(HIP_NEUTRAL, KNEE_STAND)
    ensures LegPose(servo, ALL_LEGS, HIP_NEUTRAL, KNEE_UP, 0, 0, 0) == UniformPose(HIP_NEUTRAL, KNEE_UP)
  {
    forall leg | 0 <= leg < NUM_LEGS
      ensures BitSet(ALL_LEGS, leg)
    {
      MaskBits(leg);
    }
  }

  // ---------------------------------------------------------------------
  // Gait tables

  /** The clock-derived phase: which sixth of the period the time t falls in. */
  function CyclePhase(phases: int, t: int, timeperiod: int): int
    requires timeperiod != 0
  {
    CDiv(phases * CRem(t, timeperiod), timeperiod)
  }

  /**
   * For a non-negative clock and a positive period the phase is 0..5, and it
   * is k exactly while t mod period lies in the k-th sixth of the period.
   */
  lemma CyclePhaseRange(t: int, timeperiod: int)
    requires 0 <= t && 0 < timeperiod
    ensures var k := CyclePhase(NUM_TRIPOD_PHASES, t, timeperiod);
            && 0 <= k < NUM_TRIPOD_PHASES
            && k * timeperiod <= NUM_TRIPOD_PHASES * (t % timeperiod) < (k + 1) * timeperiod
  {
    var r := CRem(t, timeperiod);
    assert r == t % timeperiod by {
      DivUnique(t, timeperiod, CDiv(t, timeperiod), r);
    }
    var k := CDiv(NUM_TRIPOD_PHASES * r, timeperiod);
    assert k * timeperiod <= NUM_TRIPOD_PHASES * r < (k + 1) * timeperiod;
    if k >= NUM_TRIPOD_PHASES {
      MulAtLeastMono(NUM_TRIPOD_PHASES, k, timeperiod);
    }
    if k < 0 {
      MulAtLeastMono(k + 1, 0, timeperiod);
    }
  }

  lemma MulAtLeastMono(a: int, b: int, p: int)
    requires a <= b && p > 0
    ensures a * p <= b * p
  {
  }

  /**
   * The switch of `gait_tripod`: phases 0, 2, 3, 5 lift or set one tripod's
   * knees, phases 1 and 4 swing the hips of both tripods; any other phase
   * writes nothing.
   */
  function TripodPose(servo: seq<int>, phase: int, hipforward: int, hipbackward: int,
                      kneeup: int, kneedown: int, lean: int): (r: seq<int>)
    requires |servo| == SERVO_COUNT
    ensures |r| == SERVO_COUNT
  {
    if phase == 0 then LegPose(servo, TRIPOD1_LEGS, NOMOVE, kneeup, 0, 0, lean)
    else if phase == 1 then
      LegPose(LegPose(servo, TRIPOD1_LEGS, hipforward, NOMOVE, FBSHIFT, 0, 0),
              TRIPOD2_LEGS, hipbackward, NOMOVE, FBSHIFT, 0, 0)
    else if phase == 2 then LegPose(servo, TRIPOD1_LEGS, NOMOVE, kneedown, 0, 0, lean)
    else if phase == 3 then LegPose(servo, TRIPOD2_LEGS, NOMOVE, kneeup, 0, 0, lean)
    else if phase == 4 then
      LegPose(LegPose(servo, TRIPOD1_LEGS, hipbackward, NOMOVE, FBSHIFT, 0, 0),
              TRIPOD2_LEGS, hipforward, NOMOVE, FBSHIFT, 0, 0)
    else if phase == 5 then LegPose(servo, TRIPOD2_LEGS, NOMOVE, kneedown, 0, 0, lean)
    else servo
  }

  /** The switch of `turn`: as the tripod table, but hips in raw mode and knees without lean. */
  function TurnPose(servo: seq<int>, phase: int, hipforward: int, hipbackward: int,
                    kneeup: int, kneedown: int): (r: seq<int>)
    requires |servo| == SERVO_COUNT
    ensures |r| == SERVO_COUNT
  {
    if phase == 0 then LegPose(servo, TRIPOD1_LEGS, NOMOVE, kneeup, 0, 0, 0)
    else if phase == 1 then
      LegPose(LegPose(servo, TRIPOD1_LEGS, hipforward, NOMOVE, FBSHIFT_TURN, 1, 0),
              TRIPOD2_LEGS, hipbackward, NOMOVE, FBSHIFT_TURN, 1, 0)
    else if phase == 2 then LegPose(servo, TRIPOD1_LEGS, NOMOVE, kneedown, 0, 0, 0)
    else if phase == 3 then LegPose(servo, TRIPOD2_LEGS, NOMOVE, kneeup, 0, 0, 0)
    else if phase == 4 then
      LegPose(LegPose(servo, TRIPOD1_LEGS, hipbackward, NOMOVE, FBSHIFT_TURN, 1, 0),
              TRIPOD2_LEGS, hipforward, NOMOVE, FBSHIFT_TURN, 1, 0)
    else if phase == 5 then LegPose(servo, TRIPOD2_LEGS, NOMOVE, kneedown, 0, 0, 0)
    else servo
  }

  /** The tripod a knee phase moves (phases 0, 2: tripod 1; phases 3, 5: tripod 2). */
  function KneePhaseTripod(phase: int): int
  {
    if phase < 3 then TRIPOD1_LEGS else TRIPOD2_LEGS
  }

  /**
   * Knee phases of the walking gait: 0 and 3 lift (kneeup), 2 and 5 set
   * (kneedown), each on the knees of one tripod only; no hip moves and the
   * other tripod's knees stay.
   */
  lemma TripodKneePhases(servo: seq<int>, phase: int, hipforward: int, hipbackward: int,
                         kneeup: int, kneedown: int, lean: int, leg: int)
    requires |servo| == SERVO_COUNT && phase in {0, 2, 3, 5} && 0 <= leg < NUM_LEGS
    ensures var r := TripodPose(servo, phase, hipforward, hipbackward, kneeup, kneedown, lean);
            var knee := if phase in {0, 3} then kneeup else kneedown;
            && r[leg] == servo[leg]
            && r[leg + KNEE_OFFSET] ==
                 if leg in LegSet(KneePhaseTripod(phase)) && knee != NOMOVE
                 then ClampDegree(KneeAngle(leg, knee, lean))
                 else servo[leg + KNEE_OFFSET]
  {
  }

  /**
   * Hip phases of the walking gait: in phase 1 tripod 1 swings to
   * hipforward and tripod 2 to hipbackward; phase 4 swaps the roles. Hips
   * are trimmed by FBSHIFT and mirrored; no knee moves.
   */
  lemma TripodHipPhases(servo: seq<int>, phase: int, hipforward: int, hipbackward: int,
                        kneeup: int, kneedown: int, lean: int, leg: int)
    requires |servo| == SERVO_COUNT && phase in {1, 4} && 0 <= leg < NUM_LEGS
    ensures var r := TripodPose(servo, phase, hipforward, hipbackward, kneeup, kneedown, lean);
            var hip := if (leg in LegSet(TRIPOD1_LEGS)) == (phase == 1) then hipforward else hipbackward;
            && r[leg + KNEE_OFFSET] == servo[leg + KNEE_OFFSET]
            && r[leg] == if hip != NOMOVE then ClampDegree(HipAngle(leg, hip, FBSHIFT)) else servo[leg]
  {
    MaskBits(leg);
  }

  /**
   * Turning writes hips raw: every hip servo gets exactly the requested
   * angle (clamped); FBSHIFT_TURN is ignored and the left side is not
   * mirrored. Tripod 1 takes hipforward in phase 1 and hipbackward in phase 4.
   */
  lemma TurnHipsRaw(servo: seq<int>, phase: int, hipforward: int, hipbackward: int,
                    kneeup: int, kneedown: int, leg: int)
    requires |servo| == SERVO_COUNT && phase in {1, 4} && 0 <= leg < NUM_LEGS
    ensures var r := TurnPose(servo, phase, hipforward, hipbackward, kneeup, kneedown);
            var hip := if (leg in LegSet(TRIPOD1_LEGS)) == (phase == 1) then hipforward else hipbackward;
            && r[leg + KNEE_OFFSET] == servo[leg + KNEE_OFFSET]
            && r[leg] == if hip != NOMOVE then ClampDegree(hip) else servo[leg]
  {
    MaskBits(leg);
  }

  /** Turning's knee phases match walking's with lean 0. */
  lemma TurnKneePhases(servo: seq<int>, phase: int, hipforward: int, hipbackward: int,
                       kneeup: int, kneedown: int)
    requires |servo| == SERVO_COUNT && phase in {0, 2, 3, 5}
    ensures TurnPose(servo, phase, hipforward, hipbackward, kneeup, kneedown)
         == TripodPose(servo, phase, hipforward, hipbackward, kneeup, kneedown, 0)
  {
  }

  // ---------------------------------------------------------------------
  // Command dispatch

  /** What one pass of the main loop runs for a given `lastCmd`. */
  datatype Motion = WalkForwardStep | WalkBackwardStep | TurnCcwStep | StandStep

  function Dispatch(lastCmd: int): (m: Motion)
    ensures m == WalkForwardStep <==> lastCmd == CMD_FORWARD
    ensures m == WalkBackwardStep <==> lastCmd == CMD_BACKWARD
    ensures m == TurnCcwStep <==> lastCmd == CMD_TURN
  {
    if lastCmd == CMD_FORWARD then WalkForwardStep
    else if lastCmd == CMD_BACKWARD then WalkBackwardStep
    else if lastCmd == CMD_TURN then TurnCcwStep
    else StandStep
  }

  /** The characters of the command protocol, and the initial command meaning "stand". */
  lemma DispatchCodes()
    ensures Dispatch('f' as int) == WalkForwardStep
    ensures Dispatch('b' as int) == WalkBackwardStep
    ensures Dispatch('r' as int) == TurnCcwStep
    ensures Dispatch(INITIAL_CMD) == StandStep && INITIAL_CMD == 's' as int
  {
  }

  // ---------------------------------------------------------------------
  // The firmware state

  class Robot {
    /** Last angle commanded to each servo (hips 0-5, knees 6-11). */
    var servo: array<int>
    /** `ServoPos`, read back by commitServos; this revision never writes it. */
    var servoPos: array<int>
    var deferServoSet: int
    var lastCmd: int

    ghost predicate Valid()
      reads this
    {
      servo.Length == SERVO_COUNT && servoPos.Length == SERVO_COUNT && servo != servoPos
    }

    constructor (recorded: seq<int>)
      requires |recorded| == SERVO_COUNT
      ensures Valid() && fresh(servo) && fresh(servoPos)
      ensures servoPos[..] == recorded
      ensures lastCmd == INITIAL_CMD && deferServoSet == 0
    {
      servo := new int[SERVO_COUNT];
      servoPos := new int[SERVO_COUNT](s requires 0 <= s < SERVO_COUNT => recorded[s]);
      lastCmd := INITIAL_CMD;
      deferServoSet := 0;
    }

    /** `setHipRaw`: the requested angle goes to servo `leg` unchanged. */
    method SetHipRaw(leg: int, pos: int)
      requires Valid()
      modifies servo
      ensures servo[..] == old(servo[..])[Channel(leg) := ClampDegree(pos)]
    {
      SetServo(servo, leg, pos);
    }

    /** `setHip`: trim and mirror, then as setHipRaw. */
    method SetHip(leg: int, pos: int, adj: int)
      requires Valid()
      modifies servo
      ensures servo[..] == old(servo[..])[Channel(leg) := ClampDegree(HipAngle(leg, pos, adj))]
    {
      SetHipRaw(leg, HipAngle(leg, pos, adj));
    }

    /** `setKnee`: leg n below KNEE_OFFSET drives knee servo n + KNEE_OFFSET. */
    method SetKnee(leg: int, pos: int)
      requires Valid()
      modifies servo
      ensures servo[..] == old(servo[..])[Channel(KneeServo(leg)) := ClampDegree(pos)]
      ensures 0 <= leg < NUM_LEGS ==> Channel(KneeServo(leg)) == leg + KNEE_OFFSET
    {
      SetServo(servo, KneeServo(leg), pos);
    }

    /** The body of `setLeg`'s loop for one selected leg: its hip, then its knee. */
    method DriveLeg(leg: int, hipPos: int, kneePos: int, adj: int, raw: int, lean: int)
      requires Valid() && 0 <= leg < NUM_LEGS
      modifies servo
      ensures forall s :: 0 <= s < SERVO_COUNT ==>
                servo[s] == if s == leg && hipPos != NOMOVE
                            then ClampDegree(if raw == 0 then HipAngle(leg, hipPos, adj) else hipPos)
                            else if s == leg + KNEE_OFFSET && kneePos != NOMOVE
                            then ClampDegree(KneeAngle(leg, kneePos, lean))
                            else old(servo[s])
    {
      if hipPos != NOMOVE {
        if raw == 0 {
          SetHip(leg, hipPos, adj);
        } else {
          SetHipRaw(leg, hipPos);
        }
      }
      if kneePos != NOMOVE {
        var pos := KneeAngle(leg, kneePos, lean);
        SetKnee(leg, pos);
      }
    }

    /**
     * `setLeg`: walk the six low bits of legmask, shifting it right once per
     * leg, and drive the hip and knee of every leg whose bit is set unless
     * that joint's request is NOMOVE.
     */
    method SetLeg(legmask: int, hipPos: int, kneePos: int, adj: int, raw: int, lean: int)
      requires Valid()
      modifies servo
      ensures servo[..] == LegPose(old(servo[..]), legmask, hipPos, kneePos, adj, raw, lean)
    {
      ghost var before := servo[..];
      ghost var target := LegPose(before, legmask, hipPos, kneePos, adj, raw, lean);
      var mask := legmask;
      var i := 0;
      while i < NUM_LEGS
        invariant 0 <= i <= NUM_LEGS
        invariant mask == legmask / Pow2(i)
        invariant forall s :: 0 <= s < SERVO_COUNT ==>
                    servo[s] == if SlotLeg(s) < i then target[s] else before[s]
      {
        if mask % 2 == 1 {
          DriveLeg(i, hipPos, kneePos, adj, raw, lean);
        }
        ShiftRight(legmask, i);
        mask := mask / 2;
        i := i + 1;
      }
      assert servo[..] == target;
    }

    /** `setLeg1`: non-raw, no lean. */
    method SetLeg1(legmask: int, hipPos: int, kneePos: int, adj: int)
      requires Valid()
      modifies servo
      ensures servo[..] == LegPose(old(servo[..]), legmask, hipPos, kneePos, adj, 0, 0)
    {
      SetLeg(legmask, hipPos, kneePos, adj, 0, 0);
    }

    /** `setLeg2`: no lean. */
    method SetLeg2(legmask: int, hipPos: int, kneePos: int, adj: int, raw: int)
      requires Valid()
      modifies servo
      ensures servo[..] == LegPose(old(servo[..]), legmask, hipPos, kneePos, adj, raw, 0)
    {
      SetLeg(legmask, hipPos, kneePos, adj, raw, 0);
    }

    /** `stand`: all hips neutral (90 on both sides), all knees at KNEE_STAND. */
    method Stand()
      requires Valid()
      modifies servo
      ensures servo[..] == UniformPose(HIP_NEUTRAL, KNEE_STAND)
    {
      StaticPoses(servo[..]);
      SetLeg1(ALL_LEGS, HIP_NEUTRAL, KNEE_STAND, 0);
    }

    /** `laydown`: all hips neutral, all knees raised to KNEE_UP. */
    method Laydown()
      requires Valid()
      modifies servo
      ensures servo[..] == UniformPose(HIP_NEUTRAL, KNEE_UP)
    {
      StaticPoses(servo[..]);
      SetLeg1(ALL_LEGS, HIP_NEUTRAL, KNEE_UP, 0);
    }

    method TransactServos()
      modifies this`deferServoSet
      ensures deferServoSet == 1
    {
      deferServoSet := 1;
    }

    /** `commitServos`: clear the deferral flag and send ServoPos[s] to every servo s. */
    method CommitServos()
      requires Valid()
      modifies this`deferServoSet, servo
      ensures deferServoSet == 0
      ensures servo[..] == ClampedPose(servoPos[..])
    {
      deferServoSet := 0;
      var s := 0;
      while s < SERVO_COUNT
        invariant 0 <= s <= SERVO_COUNT
        invariant forall k :: 0 <= k < s ==> servo[k] == ClampDegree(servoPos[k])
        modifies servo
      {
        SetServo(servo, s, servoPos[s]);
        s := s + 1;
      }
      assert servo[..] == ClampedPose(servoPos[..]);
    }

    /**
     * `gait_tripod` at clock `now`: swap the hip targets when reverse is
     * set, run the phase's writes between transactServos and commitServos.
     * `sent` is the pose the phase wrote; commitServos then re-sends
     * ServoPos, which is what the servos are left at.
     */
    method GaitTripod(reverse: int, hipforward: int, hipbackward: int, kneeup: int, kneedown: int,
                      timeperiod: int, lean: int, now: int) returns (ghost sent: seq<int>)
      requires Valid() && timeperiod != 0
      modifies this`deferServoSet, servo
      ensures sent == TripodPose(old(servo[..]), CyclePhase(NUM_TRIPOD_PHASES, now, timeperiod),
                                 if reverse != 0 then hipbackward else hipforward,
                                 if reverse != 0 then hipforward else hipbackward,
                                 kneeup, kneedown, lean)
      ensures servo[..] == ClampedPose(servoPos[..])
      ensures deferServoSet == 0
    {
      var forward, backward := hipforward, hipbackward;
      if reverse != 0 {
        forward, backward := hipbackward, hipforward;
      }
      var phase := CyclePhase(NUM_TRIPOD_PHASES, now, timeperiod);
      TransactServos();
      if phase == 0 {
        SetLeg(TRIPOD1_LEGS, NOMOVE, kneeup, 0, 0, lean);
      } else if phase == 1 {
        SetLeg1(TRIPOD1_LEGS, forward, NOMOVE, FBSHIFT);
        SetLeg1(TRIPOD2_LEGS, backward, NOMOVE, FBSHIFT);
      } else if phase == 2 {
        SetLeg(TRIPOD1_LEGS, NOMOVE, kneedown, 0, 0, lean);
      } else if phase == 3 {
        SetLeg(TRIPOD2_LEGS, NOMOVE, kneeup, 0, 0, lean);
      } else if phase == 4 {
        SetLeg1(TRIPOD1_LEGS, backward, NOMOVE, FBSHIFT);
        SetLeg1(TRIPOD2_LEGS, forward, NOMOVE, FBSHIFT);
      } else if phase == 5 {
        SetLeg(TRIPOD2_LEGS, NOMOVE, kneedown, 0, 0, lean);
      }
      sent := servo[..];
      CommitServos();
    }

    /**
     * `turn` at clock `now`: the same six-phase table in raw mode (hips not
     * trimmed or mirrored), hip targets swapped when ccw is set, no
     * transaction bracket; lean is ignored.
     */
    method Turn(ccw: int, hipforward: int, hipbackward: int, kneeup: int, kneedown: int,
                timeperiod: int, lean: int, now: int)
      requires Valid() && timeperiod != 0
      modifies servo
      ensures servo[..] == TurnPose(old(servo[..]), CyclePhase(NUM_TURN_PHASES, now, timeperiod),
                                    if ccw != 0 then hipbackward else hipforward,
                                    if ccw != 0 then hipforward else hipbackward,
                                    kneeup, kneedown)
    {
      var forward, backward := hipforward, hipbackward;
      if ccw != 0 {
        forward, backward := hipbackward, hipforward;
      }
      var phase := CyclePhase(NUM_TURN_PHASES, now, timeperiod);
      if phase == 0 {
        SetLeg1(TRIPOD1_LEGS, NOMOVE, kneeup, 0);
      } else if phase == 1 {
        SetLeg2(TRIPOD1_LEGS, forward, NOMOVE, FBSHIFT_TURN, 1);
        SetLeg2(TRIPOD2_LEGS, backward, NOMOVE, FBSHIFT_TURN, 1);
      } else if phase == 2 {
        SetLeg1(TRIPOD1_LEGS, NOMOVE, kneedown, 0);
      } else if phase == 3 {
        SetLeg1(TRIPOD2_LEGS, NOMOVE, kneeup, 0);
      } else if phase == 4 {
        SetLeg2(TRIPOD1_LEGS, backward, NOMOVE, FBSHIFT_TURN, 1);
        SetLeg2(TRIPOD2_LEGS, forward, NOMOVE, FBSHIFT_TURN, 1);
      } else if phase == 5 {
        SetLeg1(TRIPOD2_LEGS, NOMOVE, kneedown, 0);
      }
    }

    /** `walkForward`: the tripod gait with HIP_FORWARD leading. */
    method WalkForward(now: int) returns (ghost sent: seq<int>)
      requires Valid()
      modifies this`deferServoSet, servo
      ensures sent == TripodPose(old(servo[..]), CyclePhase(NUM_TRIPOD_PHASES, now, TRIPOD_CYCLE_TIME),
                                 HIP_FORWARD, HIP_BACKWARD, KNEE_NEUTRAL, KNEE_DOWN, 0)
      ensures servo[..] == ClampedPose(servoPos[..]) && deferServoSet == 0
    {
      sent := GaitTripod(0, HIP_FORWARD, HIP_BACKWARD, KNEE_NEUTRAL, KNEE_DOWN, TRIPOD_CYCLE_TIME, 0, now);
    }

    /** `walkBackward`: the same gait with the reverse flag, so the hip targets trade places. */
    method WalkBackward(now: int) returns (ghost sent: seq<int>)
      requires Valid()
      modifies this`deferServoSet, servo
      ensures sent == TripodPose(old(servo[..]), CyclePhase(NUM_TRIPOD_PHASES, now, TRIPOD_CYCLE_TIME),
                                 HIP_BACKWARD, HIP_FORWARD, KNEE_NEUTRAL, KNEE_DOWN, 0)
      ensures servo[..] == ClampedPose(servoPos[..]) && deferServoSet == 0
    {
      sent := GaitTripod(1, HIP_FORWARD, HIP_BACKWARD, KNEE_NEUTRAL, KNEE_DOWN, TRIPOD_CYCLE_TIME, 0, now);
    }

    /**
     * One pass of the main loop at clock `now`: 'f' walks forward, 'b'
     * backward, 'r' turns counter-clockwise, anything else stands.
     * `lastCmd` itself is not changed here.
     */
    method DispatchStep(now: int)
      requires Valid()
      modifies this`deferServoSet, servo
      ensures lastCmd == old(lastCmd)
      ensures Dispatch(lastCmd) in {WalkForwardStep, WalkBackwardStep} ==>
                servo[..] == ClampedPose(servoPos[..]) && deferServoSet == 0
      ensures Dispatch(lastCmd) == TurnCcwStep ==>
                servo[..] == TurnPose(old(servo[..]), CyclePhase(NUM_TURN_PHASES, now, TRIPOD_CYCLE_TIME),
                                      HIP_BACKWARD, HIP_FORWARD, KNEE_NEUTRAL, KNEE_DOWN)
                && deferServoSet == old(deferServoSet)
      ensures Dispatch(lastCmd) == StandStep ==>
                servo[..] == UniformPose(HIP_NEUTRAL, KNEE_STAND) && deferServoSet == old(deferServoSet)
    {
      if lastCmd == CMD_FORWARD {
        ghost var sent := WalkForward(now);
      } else if lastCmd == CMD_BACKWARD {
        ghost var sent := WalkBackward(now);
      } else if lastCmd == CMD_TURN {
        Turn(1, HIP_FORWARD, HIP_BACKWARD, KNEE_NEUTRAL, KNEE_DOWN, TRIPOD_CYCLE_TIME, 0, now);
      } else {
        Stand();
      }
    }
  }
}
