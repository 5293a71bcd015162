/**
 * Leg geometry shared by both firmware revisions: the six-bit leg masks
 * (bit n selects leg n), the leg-group predicates, the joint-angle constants
 * in degrees, the NOMOVE sentinel, and the gait enumerations.
 */
module Geometry {
  import opened CArith

  const NUM_LEGS := 6

  // Leg masks: bottom six bits, least significant bit is leg 0.
  const ALL_LEGS := 0x3F
  const LEFT_LEGS := 0x38
  const RIGHT_LEGS := 0x07
  const TRIPOD1_LEGS := 0x15
  const TRIPOD2_LEGS := 0x2A
  const FRONT_LEGS := 0x21
  const MIDDLE_LEGS := 0x12
  const BACK_LEGS := 0x0C
  const NO_LEGS := 0x00

  // Single-leg masks (the LEGnBIT names carry the same values).
  const LEG0 := 0x01
  const LEG1 := 0x02
  const LEG2 := 0x04
  const LEG3 := 0x08
  const LEG4 := 0x10
  const LEG5 := 0x20

  predicate IsFrontLeg(leg: int) { leg == 0 || leg == 5 }
  predicate IsMidLeg(leg: int) { leg == 1 || leg == 4 }
  predicate IsBackLeg(leg: int) { leg == 2 || leg == 3 }
  /** As written, ISLEFTLEG names legs 0-2, the legs that LEFT_LEGS leaves out. */
  predicate IsLeftLeg(leg: int) { leg == 0 || leg == 1 || leg == 2 }
  predicate IsRightLeg(leg: int) { leg == 3 || leg == 4 || leg == 5 }

  // Knee angles, in degrees.
  const KNEE_UP_MAX := 180
  const KNEE_UP := 150
  const KNEE_RELAX := 120
  const KNEE_NEUTRAL := 90
  const KNEE_CROUCH := 110
  const KNEE_HALF_CROUCH := 80
  const KNEE_STAND := 30
  const KNEE_DOWN := 30
  const KNEE_TIPTOES := 5
  const KNEE_FOLD := 170
  const KNEE_SCAMPER := KNEE_NEUTRAL - 20
  const KNEE_TRIPOD_UP := KNEE_NEUTRAL - 40
  const KNEE_TRIPOD_ADJ := 30

  // Hip angles, in degrees (setHip mirrors them for legs LEFT_START and up).
  const HIPSWING := 25
  const HIPSMALLSWING := 10
  const HIPSWING_RIPPLE := 20
  const HIP_NEUTRAL := 90
  const HIP_FORWARD_MAX := 175
  const HIP_FORWARD := HIP_NEUTRAL + HIPSWING
  const HIP_FORWARD_SMALL := HIP_NEUTRAL + HIPSMALLSWING
  const HIP_BACKWARD := HIP_NEUTRAL - HIPSWING
  const HIP_BACKWARD_SMALL := HIP_NEUTRAL - HIPSMALLSWING
  const HIP_BACKWARD_MAX := 0
  const HIP_FORWARD_RIPPLE := HIP_NEUTRAL + HIPSWING_RIPPLE
  const HIP_BACKWARD_RIPPLE := HIP_NEUTRAL - HIPSWING_RIPPLE
  const HIP_FOLD := 150

  /** Sentinel joint request: leave this hip or knee where it is. */
  const NOMOVE := -1

  const LEFT_START := 3
  const RIGHT_START := 0
  /** Knee servo of leg n is servo n + KNEE_OFFSET. */
  const KNEE_OFFSET := 6

  const TRIPOD_CYCLE_TIME := 750
  const RIPPLE_CYCLE_TIME := 1800
  const FIGHT_CYCLE_TIME := 660

  /** phase_t, in declaration order. */
  datatype PhaseType =
    | Sitting | Standing | InitWalk | Walking | DoneWalking
    | Tripod1Lift | Tripod1Swivel | Tripod1Set
    | Tripod2Lift | Tripod2Swivel | Tripod2Set

  /** gaitCommand_t, in declaration order. */
  datatype GaitCommand =
    | BotStand | BotSit | BotWalkFwd | BotWalkBack
    | BotWalkNW | BotWalkNE | BotWalkSW | BotWalkSE
    | BotRotateLeft | BotRotateRight | BotStop

  /** The legs a mask selects: those whose bit is set among the low six. */
  function LegSet(mask: int): set<int>
  {
    set leg | 0 <= leg < NUM_LEGS && BitSet(mask, leg)
  }

  /** The single-leg mask LEGn. */
  function LegMask(n: int): int
    requires 0 <= n < NUM_LEGS
  {
    [LEG0, LEG1, LEG2, LEG3, LEG4, LEG5][n]
  }

  /** Bits 0..5 of every named mask, read off leg by leg. */
  lemma MaskBits(leg: int)
    requires 0 <= leg < NUM_LEGS
    ensures BitSet(ALL_LEGS, leg)
    ensures !BitSet(NO_LEGS, leg)
    ensures BitSet(TRIPOD1_LEGS, leg) <==> leg in {0, 2, 4}
    ensures BitSet(TRIPOD2_LEGS, leg) <==> leg in {1, 3, 5}
    ensures BitSet(LEFT_LEGS, leg) <==> leg in {3, 4, 5}
    ensures BitSet(RIGHT_LEGS, leg) <==> leg in {0, 1, 2}
    ensures BitSet(FRONT_LEGS, leg) <==> leg in {0, 5}
    ensures BitSet(MIDDLE_LEGS, leg) <==> leg in {1, 4}
    ensures BitSet(BACK_LEGS, leg) <==> leg in {2, 3}
  {
    LegPower(leg);
  }

  /** The single-leg masks, read off leg by leg. */
  lemma SingleMaskBits(leg: int)
    requires 0 <= leg < NUM_LEGS
    ensures BitSet(LEG0, leg) <==> leg == 0
    ensures BitSet(LEG1, leg) <==> leg == 1
    ensures BitSet(LEG2, leg) <==> leg == 2
    ensures BitSet(LEG3, leg) <==> leg == 3
    ensures BitSet(LEG4, leg) <==> leg == 4
    ensures BitSet(LEG5, leg) <==> leg == 5
  {
    LegPower(leg);
  }

  lemma LegPower(leg: int)
    requires 0 <= leg < NUM_LEGS
    ensures Pow2(leg) == [1, 2, 4, 8, 16, 32][leg]
  {
    if leg > 0 {
      LegPower(leg - 1);
    }
  }

  lemma MaskMembers()
    ensures LegSet(ALL_LEGS) == {0, 1, 2, 3, 4, 5}
    ensures LegSet(NO_LEGS) == {}
    ensures LegSet(TRIPOD1_LEGS) == {0, 2, 4}
    ensures LegSet(TRIPOD2_LEGS) == {1, 3, 5}
    ensures LegSet(LEFT_LEGS) == {3, 4, 5}
    ensures LegSet(RIGHT_LEGS) == {0, 1, 2}
    ensures LegSet(FRONT_LEGS) == {0, 5}
    ensures LegSet(MIDDLE_LEGS) == {1, 4}
    ensures LegSet(BACK_LEGS) == {2, 3}
  {
    forall leg | 0 <= leg < NUM_LEGS {
      MaskBits(leg);
    }
  }

  /** The two tripods split the six legs between them, as bits and as sets. */
  lemma TripodsPartition()
    ensures (TRIPOD1_LEGS as bv8) & (TRIPOD2_LEGS as bv8) == 0
    ensures (TRIPOD1_LEGS as bv8) | (TRIPOD2_LEGS as bv8) == ALL_LEGS as bv8
    ensures LegSet(TRIPOD1_LEGS) !! LegSet(TRIPOD2_LEGS)
    ensures LegSet(TRIPOD1_LEGS) + LegSet(TRIPOD2_LEGS) == LegSet(ALL_LEGS)
  {
    MaskMembers();
  }

  /** LEFT_LEGS is exactly the legs from LEFT_START up; RIGHT_LEGS the rest. */
  lemma SidesPartition()
    ensures (LEFT_LEGS as bv8) & (RIGHT_LEGS as bv8) == 0
    ensures (LEFT_LEGS as bv8) | (RIGHT_LEGS as bv8) == ALL_LEGS as bv8
    ensures forall leg :: leg in LegSet(LEFT_LEGS) <==> LEFT_START <= leg < NUM_LEGS
    ensures forall leg :: leg in LegSet(RIGHT_LEGS) <==> RIGHT_START <= leg < LEFT_START
    ensures LegSet(LEFT_LEGS) !! LegSet(RIGHT_LEGS)
    ensures LegSet(LEFT_LEGS) + LegSet(RIGHT_LEGS) == LegSet(ALL_LEGS)
  {
    MaskMembers();
  }

  /**
   * The side predicates are named the other way round from the masks:
   * ISLEFTLEG holds exactly on RIGHT_LEGS (the legs below LEFT_START) and
   * ISRIGHTLEG exactly on LEFT_LEGS.
   */
  lemma SidePredicatesSwapped(leg: int)
    requires 0 <= leg < NUM_LEGS
    ensures IsLeftLeg(leg) <==> leg in LegSet(RIGHT_LEGS)
    ensures IsLeftLeg(leg) <==> leg < LEFT_START
    ensures IsRightLeg(leg) <==> leg in LegSet(LEFT_LEGS)
  {
    MaskMembers();
  }

  /** FRONT, MIDDLE and BACK partition the legs and agree with the group predicates. */
  lemma GroupsPartition()
    ensures LegSet(FRONT_LEGS) !! LegSet(MIDDLE_LEGS)
    ensures LegSet(FRONT_LEGS) !! LegSet(BACK_LEGS)
    ensures LegSet(MIDDLE_LEGS) !! LegSet(BACK_LEGS)
    ensures LegSet(FRONT_LEGS) + LegSet(MIDDLE_LEGS) + LegSet(BACK_LEGS) == LegSet(ALL_LEGS)
    ensures forall leg :: leg in LegSet(FRONT_LEGS) <==> IsFrontLeg(leg)
    ensures forall leg :: leg in LegSet(MIDDLE_LEGS) <==> IsMidLeg(leg)
    ensures forall leg :: leg in LegSet(BACK_LEGS) <==> IsBackLeg(leg)
  {
    MaskMembers();
  }

  /** Each tripod stands on one front, one middle and one back leg. */
  lemma TripodsBalanced()
    ensures LegSet(TRIPOD1_LEGS) * LegSet(FRONT_LEGS) == {0}
    ensures LegSet(TRIPOD1_LEGS) * LegSet(MIDDLE_LEGS) == {4}
    ensures LegSet(TRIPOD1_LEGS) * LegSet(BACK_LEGS) == {2}
    ensures LegSet(TRIPOD2_LEGS) * LegSet(FRONT_LEGS) == {5}
    ensures LegSet(TRIPOD2_LEGS) * LegSet(MIDDLE_LEGS) == {1}
    ensures LegSet(TRIPOD2_LEGS) * LegSet(BACK_LEGS) == {3}
  {
    MaskMembers();
  }

  /** LEGn is 1 << n and selects leg n alone; its knee servo is one of 6..11. */
  lemma SingleLegMasks(n: int)
    requires 0 <= n < NUM_LEGS
    ensures LegMask(n) == Pow2(n)
    ensures LegSet(LegMask(n)) == {n}
    ensures KNEE_OFFSET <= n + KNEE_OFFSET < 2 * NUM_LEGS
  {
    forall leg | 0 <= leg < NUM_LEGS
      ensures BitSet(LegMask(n), leg) <==> leg == n
    {
      SingleMaskBits(leg);
    }
  }

  /**
   * The forward and backward swings are symmetric about neutral, so
   * mirroring a forward hip angle (180 - a) gives the backward one; every
   * named angle is a valid servo angle.
   */
  lemma AngleConstants()
    ensures HIP_FORWARD == 115 && HIP_BACKWARD == 65
    ensures 180 - HIP_FORWARD == HIP_BACKWARD && 180 - HIP_BACKWARD == HIP_FORWARD
    ensures 180 - HIP_NEUTRAL == HIP_NEUTRAL
    ensures 180 - HIP_FORWARD_SMALL == HIP_BACKWARD_SMALL
    ensures 180 - HIP_FORWARD_RIPPLE == HIP_BACKWARD_RIPPLE
    ensures var angles := [KNEE_UP_MAX, KNEE_UP, KNEE_RELAX, KNEE_NEUTRAL, KNEE_CROUCH,
                           KNEE_HALF_CROUCH, KNEE_STAND, KNEE_DOWN, KNEE_TIPTOES, KNEE_FOLD,
                           KNEE_SCAMPER, KNEE_TRIPOD_UP, HIP_NEUTRAL, HIP_FORWARD_MAX,
                           HIP_FORWARD, HIP_FORWARD_SMALL, HIP_BACKWARD, HIP_BACKWARD_SMALL,
                           HIP_BACKWARD_MAX, HIP_FORWARD_RIPPLE, HIP_BACKWARD_RIPPLE, HIP_FOLD];
            forall i :: 0 <= i < |angles| ==> 0 <= angles[i] <= 180
  {
  }
}
