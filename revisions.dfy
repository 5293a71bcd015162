/**
 * The two revisions of the leg code side by side: main.c computes joint
 * angles in `int`, Gaits.c in int16_t hips and a uint8_t knee target, and
 * adds a per-servo calibration offset. For in-range requests, non-negative
 * lean and zero offsets they drive the servos identically; with negative
 * lean the middle legs part ways, because main.c takes |lean/2| and
 * Gaits.c adds lean/2 with its sign.
 */
module Revisions {
  import opened CArith
  import opened Pca9685
  import opened Geometry
  import MF = MainFirmware
  import G = Gaits

  /** Calibration offsets of a robot whose servos need no trim. */
  function NoOffsets(): (r: seq<int>)
    ensures |r| == SERVO_COUNT
    ensures forall s :: 0 <= s < SERVO_COUNT ==> r[s] == 0
  {
    seq(SERVO_COUNT, _ => 0)
  }

  /** Hip requests far from the int16_t limits give the same angle in both revisions. */
  lemma HipRevisionsAgree(leg: int, pos: i16, adj: u8)
    requires -0x4000 < pos < 0x4000
    ensures G.HipAngle16(leg, pos, adj) == MF.HipAngle(leg, pos, adj)
    ensures -0x8000 <= MF.HipAngle(leg, pos, adj) < 0x8000
  {
  }

  /**
   * Knee requests that fit a uint8_t together with a non-negative lean give
   * the same knee angle in both revisions.
   */
  lemma KneeRevisionsAgree(leg: int, pos: i16, lean: i16)
    requires 0 <= pos && 0 <= lean && pos + lean < 0x100
    ensures G.KneeAngle8(leg, pos, lean) == MF.KneeAngle(leg, pos, lean)
  {
    if lean != 0 && leg in {1, 7, 4, 10} {
      var q := CDiv(lean, 2);
      assert 0 <= q <= lean;
    }
  }

  /**
   * The middle legs' lean compensation differs for a negative lean: knee 90
   * with lean -10 is 95 in main.c and 85 in Gaits.c.
   */
  lemma MiddleKneeRevisionsDiverge()
    ensures MF.KneeAngle(1, 90, -10) == 95
    ensures G.KneeAngle8(1, 90, -10) == 85
  {
    assert CDiv(-10, 2) == -5;
  }

  /**
   * With zero calibration offsets, `setLegs` of Gaits.c drives the twelve
   * servos exactly as `setLeg` of main.c does, whenever the hip request is
   * far from the int16_t limits and the knee request (if any) fits a
   * uint8_t together with a non-negative lean.
   */
  lemma LegPoseRevisionsAgree(servo: seq<int>, servoPos: seq<int>, legmask: u8, hipPos: i16,
                              kneePos: i16, adj: u8, raw: u8, lean: i16)
    requires |servo| == SERVO_COUNT && |servoPos| == SERVO_COUNT
    requires -0x4000 < hipPos < 0x4000
    requires kneePos == NOMOVE || (0 <= kneePos && 0 <= lean && kneePos + lean < 0x100)
    ensures G.LegsPose(G.Servos(servo, servoPos), NoOffsets(), legmask, hipPos, kneePos, adj, raw, lean).servo
         == MF.LegPose(servo, legmask, hipPos, kneePos, adj, raw, lean)
  {
    var g := G.LegsPose(G.Servos(servo, servoPos), NoOffsets(), legmask, hipPos, kneePos, adj, raw, lean).servo;
    var m := MF.LegPose(servo, legmask, hipPos, kneePos, adj, raw, lean);
    forall s | 0 <= s < SERVO_COUNT
      ensures g[s] == m[s]
    {
      if s < NUM_LEGS {
        HipRevisionsAgree(s, hipPos, adj);
      } else if kneePos != NOMOVE {
        KneeRevisionsAgree(s - KNEE_OFFSET, kneePos, lean);
      }
    }
  }
}
