/**
 * The `Gaits.c` revision of the leg-control layer. It differs from
 * `main.c` in its C types: knee targets are held in a `uint8_t` (so they
 * wrap modulo 256), hip angles in an `int16_t`, the lean correction of the
 * middle legs is a signed `lean/2`, every servo value has a per-servo
 * calibration offset added, and only hip writes are recorded in ServoPos.
 * The gait phase and the posture state are function-local statics.
 */
module Gaits {
  import opened CArith
  import opened Pca9685
  import opened Geometry

  const NUM_TRIPOD_PHASES := 6
  /** Hip trim for the walking gait: front legs back, back legs forward. */
  const FBSHIFT := 15
  const NUM_TURN_PHASES := 6
  const FBSHIFT_TURN := 40

  // ---------------------------------------------------------------------
  // Joint arithmetic in the firmware's fixed-width types

  /** `setHip`'s arithmetic on its int16_t `pos`: trim, then mirror legs from LEFT_START up. */
  function HipAngle16(leg: int, pos: i16, adj: u8): i16
  {
    var trimmed := if IsFrontLeg(leg) then I16(pos - adj) else if IsBackLeg(leg) then I16(pos + adj) else pos;
    if leg >= LEFT_START then I16(180 - trimmed) else trimmed
  }

  /**
   * `setLegs`' knee target, held in a uint8_t: the request converted to
   * 8 bits, then front legs take -lean for negative lean, middle legs
   * lean/2 (truncating, either sign), back legs +lean for positive lean.
   */
  function KneeAngle8(leg: int, kneePos: i16, lean: i16): u8
  {
    var pos := U8(kneePos);
    if lean == 0 then pos
    else if leg in {0, 6, 5, 11} then (if lean < 0 then U8(pos - lean) else pos)
    else if leg in {1, 7, 4, 10} then U8(pos + CDiv(lean, 2))
    else if leg in {2, 8, 3, 9} then (if lean > 0 then U8(pos + lean) else pos)
    else pos
  }

  /** `setHipRaw`/`setKnee`: the calibration offset is added in int16_t. */
  function WithOffset(pos: int, offset: int): i16
  {
    I16(pos + offset)
  }

  /** The value `setLegs` sends, and records, for the hip of `leg`. */
  function HipSent(leg: int, offset: int, hipPos: i16, adj: u8, raw: u8): i16
  {
    WithOffset(if raw == 0 then HipAngle16(leg, hipPos, adj) else hipPos, offset)
  }

  /** The knee servo `setKnee` drives: legs below KNEE_OFFSET mean their knee. */
  function KneeServo(leg: int): int
  {
    if leg < KNEE_OFFSET then leg + KNEE_OFFSET else leg
  }

  /** The servo angles, and the ServoPos table commitServos re-sends. */
  datatype Servos = Servos(servo: seq<int>, servoPos: seq<int>)

  predicate Sized(st: Servos)
  {
    |st.servo| == SERVO_COUNT && |st.servoPos| == SERVO_COUNT
  }

  /**
   * The state after `setLegs(legmask, hip, knee, adj, raw, lean)` with
   * calibration offsets `offset`: hips and knees of the masked legs are
   * driven unless their request is NOMOVE; only the hip values are
   * recorded in ServoPos.
   */
  function LegsPose(st: Servos, offset: seq<int>, legmask: u8, hipPos: i16, kneePos: i16,
                    adj: u8, raw: u8, lean: i16): (r: Servos)
    requires Sized(st) && |offset| == SERVO_COUNT
    ensures Sized(r)
  {
    Servos(
      seq(SERVO_COUNT, s requires 0 <= s < SERVO_COUNT =>
        if s < NUM_LEGS then
          (if BitSet(legmask, s) && hipPos != NOMOVE
           then ClampDegree(HipSent(s, offset[s], hipPos, adj, raw))
           else st.servo[s])
        else
          (if BitSet(legmask, s - KNEE_OFFSET) && kneePos != NOMOVE
           then ClampDegree(WithOffset(KneeAngle8(s - KNEE_OFFSET, kneePos, lean), offset[s]))
           else st.servo[s])),
      seq(SERVO_COUNT, s requires 0 <= s < SERVO_COUNT =>
        if s < NUM_LEGS && BitSet(legmask, s) && hipPos != NOMOVE
        then HipSent(s, offset[s], hipPos, adj, raw)
        else st.servoPos[s]))
  }

  /** Every hip servo shows its ServoPos entry (clamped to the servo range). */
  predicate HipsRecorded(st: Servos)
    requires Sized(st)
  {
    forall s :: 0 <= s < NUM_LEGS ==> st.servo[s] == ClampDegree(st.servoPos[s])
  }

  // ---------------------------------------------------------------------
  // Properties of the joint arithmetic

  /**
   * The right legs 0-2 and their left twins 5-0: the twin's hip value is the
   * mirror image 180 - angle (in int16_t) of the right leg's.
   */
  lemma HipSidesMirror16(leg: int, pos: i16, adj: u8)
    requires 0 <= leg < LEFT_START
    ensures HipAngle16(NUM_LEGS - 1 - leg, pos, adj) == I16(180 - HipAngle16(leg, pos, adj))
  {
  }

  /** For lean >= 0 every knee target only rises, by at most lean, as long as it stays below 256. */
  lemma KneeLeanNonNegative(leg: int, kneePos: i16, lean: i16)
    requires 0 <= leg < NUM_LEGS && 0 <= kneePos && 0 <= lean && kneePos + lean < 0x100
    ensures kneePos <= KneeAngle8(leg, kneePos, lean) <= kneePos + lean
    ensures IsFrontLeg(leg) ==> KneeAngle8(leg, kneePos, lean) == kneePos
    ensures IsBackLeg(leg) ==> KneeAngle8(leg, kneePos, lean) == kneePos + lean
  {
    if lean != 0 && IsMidLeg(leg) {
      var q := CDiv(lean, 2);
      assert 0 <= q <= lean;
    }
  }

  /**
   * The amount `setLegs` adds to a leg's knee request for lean `lean`:
   * front legs the negated lean when it is negative, middle legs the
   * truncated half lean with its sign, back legs the lean when it is positive.
   */
  function LeanTerm(leg: int, lean: int): int
  {
    if IsFrontLeg(leg) then (if lean < 0 then -lean else 0)
    else if IsMidLeg(leg) then CDiv(lean, 2)
    else if IsBackLeg(leg) then (if lean > 0 then lean else 0)
    else 0
  }

  /**
   * For every request and every lean, the knee target is the request plus
   * the leg's lean term, reduced to 8 bits: the wrap happens once, whatever
   * the order of the uint8_t store and the compound assignment.
   */
  lemma KneeLeanWrapped(leg: int, kneePos: i16, lean: i16)
    requires 0 <= leg < NUM_LEGS
    ensures KneeAngle8(leg, kneePos, lean) == U8(kneePos + LeanTerm(leg, lean))
    ensures 0 <= kneePos + LeanTerm(leg, lean) < 0x100 ==>
              KneeAngle8(leg, kneePos, lean) == kneePos + LeanTerm(leg, lean)
  {
    U8Shift(kneePos, LeanTerm(leg, lean));
  }

  /** Adding to a value already reduced to 8 bits reduces like adding first. */
  lemma U8Shift(a: int, b: int)
    ensures U8(U8(a) + b) == U8(a + b)
  {
    var q := a / 0x100;
    assert a == 0x100 * q + U8(a);
    DivUnique(a + b, 0x100, (U8(a) + b) / 0x100 + q, U8(U8(a) + b));
  }

  /**
   * The wrap is reachable from gait_tripod's uint8_t lean: back leg 2 lifted
   * to KNEE_UP with lean 200 gets 350 mod 256 = 94; a negative int16_t lean
   * wraps the other way for a middle leg.
   */
  lemma KneeLeanWrapExamples()
    ensures KneeAngle8(2, KNEE_UP, 200) == 94
    ensures KneeAngle8(0, 100, -200) == 44
    ensures KneeAngle8(1, 10, -40) == 246
  {
    assert CDiv(-40, 2) == -20;
  }

  /** A knee request outside 0..255 wraps instead of saturating: 300 becomes 44. */
  lemma KneeTargetWraps(leg: int)
    requires 0 <= leg < NUM_LEGS
    ensures KneeAngle8(leg, 300, 0) == 44
    ensures KneeAngle8(leg, -1, 0) == 255
  {
  }

  /**
   * `setLegs` changes servo slots only of masked legs with a request, and
   * records in ServoPos exactly the hip values it sends; knee entries of
   * ServoPos never change.
   */
  lemma LegsPoseFrame(st: Servos, offset: seq<int>, legmask: u8, hipPos: i16, kneePos: i16,
                      adj: u8, raw: u8, lean: i16, leg: int)
    requires Sized(st) && |offset| == SERVO_COUNT && 0 <= leg < NUM_LEGS
    ensures var r := LegsPose(st, offset, legmask, hipPos, kneePos, adj, raw, lean);
            && (leg in LegSet(legmask) && hipPos != NOMOVE ==>
                  r.servoPos[leg] == HipSent(leg, offset[leg], hipPos, adj, raw)
                  && r.servo[leg] == ClampDegree(r.servoPos[leg]))
            && (leg !in LegSet(legmask) || hipPos == NOMOVE ==>
                  r.servo[leg] == st.servo[leg] && r.servoPos[leg] == st.servoPos[leg])
            && (leg !in LegSet(legmask) || kneePos == NOMOVE ==>
                  r.servo[leg + KNEE_OFFSET] == st.servo[leg + KNEE_OFFSET])
            && r.servoPos[leg + KNEE_OFFSET] == st.servoPos[leg + KNEE_OFFSET]
  {
    assert leg in LegSet(legmask) <==> BitSet(legmask, leg);
  }

  /** `setLegs` keeps every hip servo in step with its ServoPos entry. */
  lemma LegsPoseKeepsHipsRecorded(st: Servos, offset: seq<int>, legmask: u8, hipPos: i16, kneePos: i16,
                                  adj: u8, raw: u8, lean: i16)
    requires Sized(st) && |offset| == SERVO_COUNT && HipsRecorded(st)
    ensures HipsRecorded(LegsPose(st, offset, legmask, hipPos, kneePos, adj, raw, lean))
  {
  }

  /** Sending the same leg command twice leaves the state where sending it once does. */
  lemma LegsPoseIdempotent(st: Servos, offset: seq<int>, legmask: u8, hipPos: i16, kneePos: i16,
                           adj: u8, raw: u8, lean: i16)
    requires Sized(st) && |offset| == SERVO_COUNT
    ensures var once := LegsPose(st, offset, legmask, hipPos, kneePos, adj, raw, lean);
            LegsPose(once, offset, legmask, hipPos, kneePos, adj, raw, lean) == once
  {
  }

  // ---------------------------------------------------------------------
  // Gait tables

  /** Phases 1 and 4: one tripod swings to `first`, the other to `second`, hips trimmed by FBSHIFT. */
  function SwingHips(st: Servos, offset: seq<int>, first: u8, second: u8): (r: Servos)
    requires Sized(st) && |offset| == SERVO_COUNT
    ensures Sized(r)
  {
    LegsPose(LegsPose(st, offset, TRIPOD1_LEGS, first, NOMOVE, FBSHIFT, 0, 0),
             offset, TRIPOD2_LEGS, second, NOMOVE, FBSHIFT, 0, 0)
  }

  /**
   * The switch of `gait_tripod` on `phase`. Phase 0 has no `break`: it
   * lifts tripod 1 and then runs phase 1's hip swing as well. Knee targets
   * are the constants KNEE_UP/KNEE_DOWN except in phase 5, which uses the
   * `kneedown` argument.
   */
  function TripodPose(st: Servos, offset: seq<int>, phase: int, hipforward: u8, hipbackward: u8,
                      kneedown: u8, lean: u8): (r: Servos)
    requires Sized(st) && |offset| == SERVO_COUNT
    ensures Sized(r)
  {
    if phase == 0 then
      SwingHips(LegsPose(st, offset, TRIPOD1_LEGS, NOMOVE, KNEE_UP, 0, 0, lean), offset, hipforward, hipbackward)
    else if phase == 1 then SwingHips(st, offset, hipforward, hipbackward)
    else if phase == 2 then LegsPose(st, offset, TRIPOD1_LEGS, NOMOVE, KNEE_DOWN, 0, 0, lean)
    else if phase == 3 then LegsPose(st, offset, TRIPOD2_LEGS, NOMOVE, KNEE_UP, 0, 0, lean)
    else if phase == 4 then SwingHips(st, offset, hipbackward, hipforward)
    else if phase == 5 then LegsPose(st, offset, TRIPOD2_LEGS, NOMOVE, kneedown, 0, 0, lean)
    else st
  }

  /** The switch of `gait_turn`: hips in raw mode (setRotateLegs), knees at the KNEE_UP/KNEE_DOWN constants. */
  function TurnPose(st: Servos, offset: seq<int>, phase: int, hipforward: u8, hipbackward: u8, lean: u8): (r: Servos)
    requires Sized(st) && |offset| == SERVO_COUNT
    ensures Sized(r)
  {
    if phase == 0 then LegsPose(st, offset, TRIPOD1_LEGS, NOMOVE, KNEE_UP, 0, 0, lean)
    else if phase == 1 then
      LegsPose(LegsPose(st, offset, TRIPOD1_LEGS, hipforward, NOMOVE, FBSHIFT_TURN, 1, 0),
               offset, TRIPOD2_LEGS, hipbackward, NOMOVE, FBSHIFT_TURN, 1, 0)
    else if phase == 2 then LegsPose(st, offset, TRIPOD1_LEGS, NOMOVE, KNEE_DOWN, 0, 0, lean)
    else if phase == 3 then LegsPose(st, offset, TRIPOD2_LEGS, NOMOVE, KNEE_UP, 0, 0, lean)
    else if phase == 4 then
      LegsPose(LegsPose(st, offset, TRIPOD1_LEGS, hipbackward, NOMOVE, FBSHIFT_TURN, 1, 0),
               offset, TRIPOD2_LEGS, hipforward, NOMOVE, FBSHIFT_TURN, 1, 0)
    else if phase == 5 then LegsPose(st, offset, TRIPOD2_LEGS, NOMOVE, KNEE_DOWN, 0, 0, lean)
    else st
  }

  /**
   * The fall-through of phase 0: tripod 1's knees are lifted to KNEE_UP and
   * every hip ends where phase 1 puts it; tripod 2's knees stay.
   */
  lemma TripodPhaseZeroFallsThrough(st: Servos, offset: seq<int>, hipforward: u8, hipbackward: u8,
                                    kneedown: u8, lean: u8, leg: int)
    requires Sized(st) && |offset| == SERVO_COUNT && 0 <= leg < NUM_LEGS
    ensures var r0 := TripodPose(st, offset, 0, hipforward, hipbackward, kneedown, lean);
            var r1 := TripodPose(st, offset, 1, hipforward, hipbackward, kneedown, lean);
            && r0.servo[leg] == r1.servo[leg]
            && r0.servoPos == r1.servoPos
            && r0.servo[leg + KNEE_OFFSET] ==
                 if leg in LegSet(TRIPOD1_LEGS)
                 then ClampDegree(WithOffset(KneeAngle8(leg, KNEE_UP, lean), offset[leg + KNEE_OFFSET]))
                 else st.servo[leg + KNEE_OFFSET]
  {
    MaskBits(leg);
  }

  /**
   * Phase 1 swings tripod 1 to hipforward and tripod 2 to hipbackward, phase
   * 4 the other way round; each hip is sent, and recorded, trimmed by
   * FBSHIFT, mirrored on the left and offset; no knee moves.
   */
  lemma TripodHipPhases(st: Servos, offset: seq<int>, phase: int, hipforward: u8, hipbackward: u8,
                        kneedown: u8, lean: u8, leg: int)
    requires Sized(st) && |offset| == SERVO_COUNT && phase in {1, 4} && 0 <= leg < NUM_LEGS
    ensures var r := TripodPose(st, offset, phase, hipforward, hipbackward, kneedown, lean);
            var hip := if (leg in LegSet(TRIPOD1_LEGS)) == (phase == 1) then hipforward else hipbackward;
            && r.servoPos[leg] == WithOffset(HipAngle16(leg, hip, FBSHIFT), offset[leg])
            && r.servo[leg] == ClampDegree(r.servoPos[leg])
            && r.servo[leg + KNEE_OFFSET] == st.servo[leg + KNEE_OFFSET]
  {
    MaskBits(leg);
  }

  /**
   * Calling `gait_tripod` again in the same phase changes nothing: with the
   * phase static never advanced, every call after the first repeats the
   * same lift-and-swing.
   */
  lemma TripodPhaseZeroRepeats(st: Servos, offset: seq<int>, hipforward: u8, hipbackward: u8,
                               kneedown: u8, lean: u8)
    requires Sized(st) && |offset| == SERVO_COUNT
    ensures var once := TripodPose(st, offset, 0, hipforward, hipbackward, kneedown, lean);
            TripodPose(once, offset, 0, hipforward, hipbackward, kneedown, lean) == once
  {
    var once := TripodPose(st, offset, 0, hipforward, hipbackward, kneedown, lean);
    var twice := TripodPose(once, offset, 0, hipforward, hipbackward, kneedown, lean);
    forall s | 0 <= s < SERVO_COUNT
      ensures twice.servo[s] == once.servo[s] && twice.servoPos[s] == once.servoPos[s]
    {
      var leg := if s < NUM_LEGS then s else s - KNEE_OFFSET;
      MaskBits(leg);
    }
  }

  /**
   * What `commitServos` leaves after a tripod phase: hips keep the value the
   * phase sent (their writes were recorded), but every knee servo is sent
   * back its old ServoPos entry, undoing the phase's knee moves.
   */
  lemma CommitKeepsHipsRevertsKnees(st: Servos, offset: seq<int>, phase: int, hipforward: u8, hipbackward: u8,
                                    kneedown: u8, lean: u8)
    requires Sized(st) && |offset| == SERVO_COUNT && HipsRecorded(st)
    ensures var r := TripodPose(st, offset, phase, hipforward, hipbackward, kneedown, lean);
            var committed := ClampedPose(r.servoPos);
            && (forall s :: 0 <= s < NUM_LEGS ==> committed[s] == r.servo[s])
            && (forall s :: NUM_LEGS <= s < SERVO_COUNT ==> committed[s] == ClampDegree(st.servoPos[s]))
  {
    var r := TripodPose(st, offset, phase, hipforward, hipbackward, kneedown, lean);
    if phase == 0 {
      var lifted := LegsPose(st, offset, TRIPOD1_LEGS, NOMOVE, KNEE_UP, 0, 0, lean);
      var swung := LegsPose(lifted, offset, TRIPOD1_LEGS, hipforward, NOMOVE, FBSHIFT, 0, 0);
      LegsPoseKeepsHipsRecorded(st, offset, TRIPOD1_LEGS, NOMOVE, KNEE_UP, 0, 0, lean);
      LegsPoseKeepsHipsRecorded(lifted, offset, TRIPOD1_LEGS, hipforward, NOMOVE, FBSHIFT, 0, 0);
      LegsPoseKeepsHipsRecorded(swung, offset, TRIPOD2_LEGS, hipbackward, NOMOVE, FBSHIFT, 0, 0);
    } else if phase == 1 || phase == 4 {
      var first, second := if phase == 1 then hipforward else hipbackward, if phase == 1 then hipbackward else hipforward;
      var swung := LegsPose(st, offset, TRIPOD1_LEGS, first, NOMOVE, FBSHIFT, 0, 0);
      LegsPoseKeepsHipsRecorded(st, offset, TRIPOD1_LEGS, first, NOMOVE, FBSHIFT, 0, 0);
      LegsPoseKeepsHipsRecorded(swung, offset, TRIPOD2_LEGS, second, NOMOVE, FBSHIFT, 0, 0);
    } else if phase == 2 {
      LegsPoseKeepsHipsRecorded(st, offset, TRIPOD1_LEGS, NOMOVE, KNEE_DOWN, 0, 0, lean);
    } else if phase == 3 {
      LegsPoseKeepsHipsRecorded(st, offset, TRIPOD2_LEGS, NOMOVE, KNEE_UP, 0, 0, lean);
    } else if phase == 5 {
      LegsPoseKeepsHipsRecorded(st, offset, TRIPOD2_LEGS, NOMOVE, kneedown, 0, 0, lean);
    }
    assert HipsRecorded(r);
  }

  /**
   * Turning writes hips raw: the hip value is the requested angle plus the
   * offset, not trimmed by FBSHIFT_TURN and not mirrored on the left side.
   */
  lemma TurnHipsRaw(st: Servos, offset: seq<int>, phase: int, hipforward: u8, hipbackward: u8, lean: u8, leg: int)
    requires Sized(st) && |offset| == SERVO_COUNT && phase in {1, 4} && 0 <= leg < NUM_LEGS
    ensures var r := TurnPose(st, offset, phase, hipforward, hipbackward, lean);
            var hip := if (leg in LegSet(TRIPOD1_LEGS)) == (phase == 1) then hipforward else hipbackward;
            && r.servoPos[leg] == WithOffset(hip, offset[leg])
            && r.servo[leg] == ClampDegree(r.servoPos[leg])
            && r.servo[leg + KNEE_OFFSET] == st.servo[leg + KNEE_OFFSET]
  {
    MaskBits(leg);
  }

  // ---------------------------------------------------------------------
  // The posture state machine of GaitHandler

  /** The leg motion a GaitHandler call performs. */
  datatype PostureAction = NoAction | StandUp | LayDown | LiftTripod1Knees

  /** The move GaitHandler makes in `position` (0 sitting, 1 standing, 2 legs up) on `cmd`. */
  function HandlerAction(position: int, cmd: GaitCommand): PostureAction
  {
    if position == 0 then (if cmd == BotStand then StandUp else NoAction)
    else if position == 1 then
      (if cmd == BotSit then LayDown else if cmd == BotStand then NoAction else LiftTripod1Knees)
    else NoAction
  }

  /** The next value of GaitHandler's `positionPhase`. */
  function NextPosition(position: int, cmd: GaitCommand): int
  {
    if position == 0 then (if cmd == BotStand then 1 else 0)
    else if position == 1 then (if cmd == BotSit then 0 else if cmd == BotStand then 1 else 2)
    else position
  }

  /** The position after a sequence of commands. */
  function RunPositions(position: int, cmds: seq<GaitCommand>): int
    decreases |cmds|
  {
    if |cmds| == 0 then position else RunPositions(NextPosition(position, cmds[0]), cmds[1..])
  }

  /** The servo effect of a posture action. */
  function PostureEffect(st: Servos, offset: seq<int>, action: PostureAction): (r: Servos)
    requires Sized(st) && |offset| == SERVO_COUNT
    ensures Sized(r)
  {
    match action
    case NoAction => st
    case StandUp => LegsPose(st, offset, ALL_LEGS, HIP_NEUTRAL, KNEE_STAND, 0, 0, 0)
    case LayDown => LegsPose(st, offset, ALL_LEGS, HIP_NEUTRAL, KNEE_UP, 0, 0, 0)
    case LiftTripod1Knees => LegsPose(st, offset, TRIPOD1_LEGS, NOMOVE, KNEE_UP, 0, 0, 0)
  }

  /**
   * Gaits.c's stand: every hip at 90 and every knee at 30, each plus its
   * calibration offset in int16_t; the hip values are recorded in ServoPos
   * and the knee entries of ServoPos are left as they were.
   */
  lemma StandPose(st: Servos, offset: seq<int>)
    requires Sized(st) && |offset| == SERVO_COUNT
    ensures var r := PostureEffect(st, offset, StandUp);
            && (forall s :: 0 <= s < NUM_LEGS ==>
                  r.servoPos[s] == I16(HIP_NEUTRAL + offset[s]) && r.servo[s] == ClampDegree(r.servoPos[s]))
            && (forall s :: NUM_LEGS <= s < SERVO_COUNT ==>
                  r.servo[s] == ClampDegree(I16(KNEE_STAND + offset[s])) && r.servoPos[s] == st.servoPos[s])
  {
    AllLegsDriven();
  }

  /** Gaits.c's laydown: hips at 90 and knees at 150, each plus its offset; knee ServoPos entries untouched. */
  lemma LaydownPose(st: Servos, offset: seq<int>)
    requires Sized(st) && |offset| == SERVO_COUNT
    ensures var r := PostureEffect(st, offset, LayDown);
            && (forall s :: 0 <= s < NUM_LEGS ==>
                  r.servoPos[s] == I16(HIP_NEUTRAL + offset[s]) && r.servo[s] == ClampDegree(r.servoPos[s]))
            && (forall s :: NUM_LEGS <= s < SERVO_COUNT ==>
                  r.servo[s] == ClampDegree(I16(KNEE_UP + offset[s])) && r.servoPos[s] == st.servoPos[s])
  {
    AllLegsDriven();
  }

  /** ALL_LEGS selects every leg, and the neutral hip is its own mirror image. */
  lemma AllLegsDriven()
    ensures forall leg :: 0 <= leg < NUM_LEGS ==> BitSet(ALL_LEGS, leg)
    ensures forall leg :: 0 <= leg < NUM_LEGS ==> HipAngle16(leg, HIP_NEUTRAL, 0) == HIP_NEUTRAL
  {
    forall leg | 0 <= leg < NUM_LEGS
      ensures BitSet(ALL_LEGS, leg)
    {
      MaskBits(leg);
    }
  }

  /**
   * One GaitHandler step: the position stays in 0..2; a motion happens
   * exactly when the position changes; sitting only reacts to BOT_STAND;
   * standing goes to legs-up on anything but BOT_STAND and BOT_SIT; legs-up
   * reacts to nothing.
   */
  lemma HandlerStep(position: int, cmd: GaitCommand)
    requires 0 <= position <= 2
    ensures 0 <= NextPosition(position, cmd) <= 2
    ensures HandlerAction(position, cmd) != NoAction <==> NextPosition(position, cmd) != position
    ensures position == 0 ==> (NextPosition(position, cmd) == 1 <==> cmd == BotStand)
    ensures position == 1 ==> (NextPosition(position, cmd) == 2 <==> cmd != BotStand && cmd != BotSit)
    ensures position == 1 ==> (NextPosition(position, cmd) == 0 <==> cmd == BotSit)
    ensures position == 2 ==> NextPosition(position, cmd) == 2
  {
  }

  /** Over any command sequence the position stays in 0..2. */
  lemma {:induction false} PositionsStayInRange(position: int, cmds: seq<GaitCommand>)
    requires 0 <= position <= 2
    ensures 0 <= RunPositions(position, cmds) <= 2
    decreases |cmds|
  {
    if |cmds| > 0 {
      HandlerStep(position, cmds[0]);
      PositionsStayInRange(NextPosition(position, cmds[0]), cmds[1..]);
    }
  }

  /** Legs-up is final: once there, no command sequence leaves it. */
  lemma {:induction false} LegsUpIsFinal(cmds: seq<GaitCommand>)
    ensures RunPositions(2, cmds) == 2
    decreases |cmds|
  {
    if |cmds| > 0 {
      LegsUpIsFinal(cmds[1..]);
    }
  }

  /** Sitting, a command sequence without BOT_STAND keeps the robot sitting. */
  lemma {:induction false} SittingWaitsForStand(cmds: seq<GaitCommand>)
    requires forall i :: 0 <= i < |cmds| ==> cmds[i] != BotStand
    ensures RunPositions(0, cmds) == 0
    decreases |cmds|
  {
    if |cmds| > 0 {
      SittingWaitsForStand(cmds[1..]);
    }
  }

  // ---------------------------------------------------------------------
  // The firmware state

  class GaitController {
    /** Last angle commanded to each servo (hips 0-5, knees 6-11). */
    var servo: array<int>
    /** `ServoPos`: the values commitServos re-sends; setHipRaw records hips here. */
    var servoPos: array<int>
    /** `servoOffset`: per-servo calibration added to every value sent. */
    var servoOffset: array<int>
    var deferServoSet: int
    /** The statics `phase` of gait_tripod and gait_turn, and `positionPhase`/`gaitPhase` of GaitHandler. */
    var tripodPhase: u8
    var turnPhase: u8
    var positionPhase: u8
    var gaitPhase: u8

    /**
     * The arrays are distinct and twelve long and the posture is one of the
     * three handled states. The gait phases start at 0 and no method has
     * them in its frame: nothing advances them.
     */
    ghost predicate Valid()
      reads this
    {
      && servo.Length == SERVO_COUNT && servoPos.Length == SERVO_COUNT && servoOffset.Length == SERVO_COUNT
      && servo != servoPos && servo != servoOffset && servoPos != servoOffset
      && positionPhase <= 2
    }

    ghost function State(): Servos
      reads this, servo, servoPos
    {
      Servos(servo[..], servoPos[..])
    }

    constructor (offsets: seq<int>, recorded: seq<int>)
      requires |offsets| == SERVO_COUNT && |recorded| == SERVO_COUNT
      ensures Valid() && fresh(servo) && fresh(servoPos) && fresh(servoOffset)
      ensures servoOffset[..] == offsets && servoPos[..] == recorded
      ensures deferServoSet == 0 && positionPhase == 0
      ensures tripodPhase == 0 && turnPhase == 0 && gaitPhase == 0
    {
      servo := new int[SERVO_COUNT];
      servoPos := new int[SERVO_COUNT](s requires 0 <= s < SERVO_COUNT => recorded[s]);
      servoOffset := new int[SERVO_COUNT](s requires 0 <= s < SERVO_COUNT => offsets[s]);
      deferServoSet := 0;
      tripodPhase, turnPhase, positionPhase, gaitPhase := 0, 0, 0, 0;
    }

    /** `setHipRaw`: add the offset, record the value in ServoPos, and send it. */
    method SetHipRaw(leg: u8, pos: i16)
      requires Valid() && leg < SERVO_COUNT
      modifies servo, servoPos
      ensures servoPos[..] == old(servoPos[..])[leg := WithOffset(pos, servoOffset[leg])]
      ensures servo[..] == old(servo[..])[leg := ClampDegree(WithOffset(pos, servoOffset[leg]))]
    {
      var p := WithOffset(pos, servoOffset[leg]);
      servoPos[leg] := p;
      SetServo(servo, leg, p);
    }

    /** `setHip`: trim and mirror in int16_t, then as setHipRaw. */
    method SetHip(leg: u8, pos: i16, adj: u8)
      requires Valid() && leg < SERVO_COUNT
      modifies servo, servoPos
      ensures servoPos[..] == old(servoPos[..])[leg := HipSent(leg, servoOffset[leg], pos, adj, 0)]
      ensures servo[..] == old(servo[..])[leg := ClampDegree(HipSent(leg, servoOffset[leg], pos, adj, 0))]
    {
      SetHipRaw(leg, HipAngle16(leg, pos, adj));
    }

    /** `setKnee`: drive the knee of `leg` with its offset; ServoPos is not updated. */
    method SetKnee(leg: u8, pos: i16)
      requires Valid() && leg < SERVO_COUNT
      modifies servo
      ensures servo[..] == old(servo[..])[KneeServo(leg) := ClampDegree(WithOffset(pos, servoOffset[KneeServo(leg)]))]
    {
      var k: u8 := leg;
      if k < KNEE_OFFSET {
        k := k + KNEE_OFFSET;
      }
      SetServo(servo, k, WithOffset(pos, servoOffset[k]));
    }

    /** The body of `setLegs`' loop for one selected leg: its hip, then its knee. */
    method DriveLeg(leg: u8, hipPos: i16, kneePos: i16, adj: u8, raw: u8, lean: i16)
      requires Valid() && leg < NUM_LEGS
      modifies servo, servoPos
      ensures forall s :: 0 <= s < SERVO_COUNT ==>
                servo[s] == if s == leg && hipPos != NOMOVE
                            then ClampDegree(HipSent(leg, servoOffset[leg], hipPos, adj, raw))
                            else if s == leg + KNEE_OFFSET && kneePos != NOMOVE
                            then ClampDegree(WithOffset(KneeAngle8(leg, kneePos, lean), servoOffset[s]))
                            else old(servo[s])
      ensures forall s :: 0 <= s < SERVO_COUNT ==>
                servoPos[s] == if s == leg && hipPos != NOMOVE
                               then HipSent(leg, servoOffset[leg], hipPos, adj, raw)
                               else old(servoPos[s])
    {
      if hipPos != NOMOVE {
        if raw == 0 {
          SetHip(leg, hipPos, adj);
        } else {
          SetHipRaw(leg, hipPos);
        }
      }
      if kneePos != NOMOVE {
        var pos := KneeAngle8(leg, kneePos, lean);
        SetKnee(leg, pos);
      }
    }

    /**
     * `setLegs`: walk the six low bits of the uint8_t legmask, shifting it
     * right once per leg, driving the joints of every selected leg.
     */
    method SetLegs(legmask: u8, hipPos: i16, kneePos: i16, adj: u8, raw: u8, lean: i16)
      requires Valid()
      modifies servo, servoPos
      ensures State() == LegsPose(old(State()), servoOffset[..], legmask, hipPos, kneePos, adj, raw, lean)
    {
      ghost var before := State();
      ghost var target := LegsPose(before, servoOffset[..], legmask, hipPos, kneePos, adj, raw, lean);
      var mask := legmask;
      var i: u8 := 0;
      while i < NUM_LEGS
        invariant 0 <= i <= NUM_LEGS
        invariant mask == legmask / Pow2(i)
        invariant forall s :: 0 <= s < SERVO_COUNT ==>
                    servo[s] == if SlotLeg(s) < i then target.servo[s] else before.servo[s]
        invariant forall s :: 0 <= s < SERVO_COUNT ==>
                    servoPos[s] == if SlotLeg(s) < i then target.servoPos[s] else before.servoPos[s]
      {
        if mask % 2 == 1 {
          DriveLeg(i, hipPos, kneePos, adj, raw, lean);
        }
        ShiftRight(legmask, i as nat);
        mask := mask / 2;
        i := i + 1;
      }
      assert servo[..] == target.servo;
      assert servoPos[..] == target.servoPos;
    }

    /** `setWalkLegs`: setLegs with hips mirrored on the left and no lean. */
    method SetWalkLegs(legmask: u8, hipPos: i16, kneePos: i16, adj: u8)
      requires Valid()
      modifies servo, servoPos
      ensures State() == LegsPose(old(State()), servoOffset[..], legmask, hipPos, kneePos, adj, 0, 0)
    {
      SetLegs(legmask, hipPos, kneePos, adj, 0, 0);
    }

    /** `setRotateLegs`: setLegs with raw hips and no lean. */
    method SetRotateLegs(legmask: u8, hipPos: i16, kneePos: i16, adj: u8)
      requires Valid()
      modifies servo, servoPos
      ensures State() == LegsPose(old(State()), servoOffset[..], legmask, hipPos, kneePos, adj, 1, 0)
    {
      SetLegs(legmask, hipPos, kneePos, adj, 1, 0);
    }

    /** `setKneesOnly`: knees of the masked legs, hips untouched. */
    method SetKneesOnly(legmask: u8, kneePos: i16)
      requires Valid()
      modifies servo, servoPos
      ensures State() == LegsPose(old(State()), servoOffset[..], legmask, NOMOVE, kneePos, 0, 0, 0)
    {
      SetLegs(legmask, NOMOVE, kneePos, 0, 0, 0);
    }

    method Stand()
      requires Valid()
      modifies servo, servoPos
      ensures State() == PostureEffect(old(State()), servoOffset[..], StandUp)
    {
      SetLegs(ALL_LEGS, HIP_NEUTRAL, KNEE_STAND, 0, 0, 0);
    }

    method Laydown()
      requires Valid()
      modifies servo, servoPos
      ensures State() == PostureEffect(old(State()), servoOffset[..], LayDown)
    {
      SetLegs(ALL_LEGS, HIP_NEUTRAL, KNEE_UP, 0, 0, 0);
    }

    method TransactServos()
      modifies this`deferServoSet
      ensures deferServoSet == 1
    {
      deferServoSet := 1;
    }

    /** `commitServos`: clear the deferral flag and send ServoPos[s] to every servo s. */
    method CommitServos()
      requires Valid()
      modifies this`deferServoSet, servo
      ensures deferServoSet == 0
      ensures servo[..] == ClampedPose(servoPos[..])
    {
      deferServoSet := 0;
      var s: u8 := 0;
      while s < SERVO_COUNT
        invariant 0 <= s <= SERVO_COUNT
        invariant forall k :: 0 <= k < s ==> servo[k] == ClampDegree(servoPos[k])
        modifies servo
      {
        SetServo(servo, s, servoPos[s]);
        s := s + 1;
      }
      assert servo[..] == ClampedPose(servoPos[..]);
    }

    /**
     * `gait_tripod`: swap the hip targets when reverse is set, run the
     * switch on the static phase inside a transaction, then commit.
     * `timeperiod` and `kneeup` are not read. `sent` is the state before
     * the commit.
     */
    method GaitTripod(reverse: u8, hipforward: u8, hipbackward: u8, kneeup: u8, kneedown: u8,
                      timeperiod: int, lean: u8) returns (ghost sent: Servos)
      requires Valid()
      modifies this`deferServoSet, servo, servoPos
      ensures sent == TripodPose(old(State()), servoOffset[..], tripodPhase,
                                 if reverse != 0 then hipbackward else hipforward,
                                 if reverse != 0 then hipforward else hipbackward,
                                 kneedown, lean)
      ensures servoPos[..] == sent.servoPos
      ensures servo[..] == ClampedPose(servoPos[..]) && deferServoSet == 0
    {
      var forward, backward := hipforward, hipbackward;
      if reverse != 0 {
        forward, backward := hipbackward, hipforward;
      }
      TransactServos();
      var phase := tripodPhase;
      if phase == 0 {
        SetLegs(TRIPOD1_LEGS, NOMOVE, KNEE_UP, 0, 0, lean);
      }
      if phase == 0 || phase == 1 {
        SetWalkLegs(TRIPOD1_LEGS, forward, NOMOVE, FBSHIFT);
        SetWalkLegs(TRIPOD2_LEGS, backward, NOMOVE, FBSHIFT);
      } else if phase == 2 {
        SetLegs(TRIPOD1_LEGS, NOMOVE, KNEE_DOWN, 0, 0, lean);
      } else if phase == 3 {
        SetLegs(TRIPOD2_LEGS, NOMOVE, KNEE_UP, 0, 0, lean);
      } else if phase == 4 {
        SetWalkLegs(TRIPOD1_LEGS, backward, NOMOVE, FBSHIFT);
        SetWalkLegs(TRIPOD2_LEGS, forward, NOMOVE, FBSHIFT);
      } else if phase == 5 {
        SetLegs(TRIPOD2_LEGS, NOMOVE, kneedown, 0, 0, lean);
      }
      sent := State();
      CommitServos();
    }

    /** `gait_turn`: swap the hip targets when ccw is set and run the switch on its static phase; no commit. */
    method GaitTurn(ccw: u8, hipforward: u8, hipbackward: u8, kneeup: u8, kneedown: u8,
                    timeperiod: int, lean: u8)
      requires Valid()
      modifies servo, servoPos
      ensures State() == TurnPose(old(State()), servoOffset[..], turnPhase,
                                  if ccw != 0 then hipbackward else hipforward,
                                  if ccw != 0 then hipforward else hipbackward, lean)
    {
      var forward, backward := hipforward, hipbackward;
      if ccw != 0 {
        forward, backward := hipbackward, hipforward;
      }
      var phase := turnPhase;
      if phase == 0 {
        SetLegs(TRIPOD1_LEGS, NOMOVE, KNEE_UP, 0, 0, lean);
      } else if phase == 1 {
        SetRotateLegs(TRIPOD1_LEGS, forward, NOMOVE, FBSHIFT_TURN);
        SetRotateLegs(TRIPOD2_LEGS, backward, NOMOVE, FBSHIFT_TURN);
      } else if phase == 2 {
        SetLegs(TRIPOD1_LEGS, NOMOVE, KNEE_DOWN, 0, 0, lean);
      } else if phase == 3 {
        SetLegs(TRIPOD2_LEGS, NOMOVE, KNEE_UP, 0, 0, lean);
      } else if phase == 4 {
        SetRotateLegs(TRIPOD1_LEGS, backward, NOMOVE, FBSHIFT_TURN);
        SetRotateLegs(TRIPOD2_LEGS, forward, NOMOVE, FBSHIFT_TURN);
      } else if phase == 5 {
        SetLegs(TRIPOD2_LEGS, NOMOVE, KNEE_DOWN, 0, 0, lean);
      }
    }

    /** `GaitHandler`: one step of the sit / stand / legs-up posture machine. */
    method GaitHandler(cmd: GaitCommand)
      requires Valid()
      modifies this`positionPhase, servo, servoPos
      ensures Valid()
      ensures positionPhase as int == NextPosition(old(positionPhase) as int, cmd)
      ensures State() == PostureEffect(old(State()), servoOffset[..], HandlerAction(old(positionPhase) as int, cmd))
    {
      if positionPhase == 0 {
        if cmd == BotStand {
          Stand();
          positionPhase := 1;
        }
      } else if positionPhase == 1 {
        if cmd == BotSit {
          Laydown();
          positionPhase := 0;
        } else if cmd == BotStand {
        } else {
          SetKneesOnly(TRIPOD1_LEGS, KNEE_UP);
          positionPhase := 2;
        }
      }
    }
  }

  /** The leg a servo slot belongs to: hips are slots 0-5, knees slots 6-11. */
  function SlotLeg(s: int): int
  {
    if s < NUM_LEGS then s else s - KNEE_OFFSET
  }
}
