# Hexapod firmware leg control and remote-control parser, in Dafny

This project models the leg-control layer of the HexapodFW firmware for a
six-legged robot with twelve hobby servos: one hip and one knee per leg.
It also models the byte-level parser for the Bluetooth remote-control
packets. It proves properties of both.

The firmware has two revisions of the leg code, and both are modelled as
written:

- **`HexapodFW/main.c`** (module `MainFirmware`, class `Robot`). It computes
  joint angles in `int`. A middle leg's lean compensation adds `abs(lean/2)`.
  The tripod and turn gaits pick their phase from a millisecond clock with
  `(6 * (t % period)) / period`, and `main` dispatches on the last command
  character. `setHipRaw` in this revision never writes `ServoPos`.
- **`HexapodFW/src/Gaits.c`** (module `Gaits`, class `GaitController`). It
  holds hips in `int16_t` and the knee target in a `uint8_t`, which wraps
  mod 256. A middle leg adds the signed `lean/2`. Every joint gets a
  per-servo calibration offset `servoOffset`, and the hip values are recorded
  in `ServoPos`. The gait phases are `static` variables that are never
  advanced, and phase 0 falls into phase 1 because a `break` is missing.
  `GaitHandler` is the sit / stand / legs-up posture machine.

The supporting modules:

- **`Geometry`** holds the shared definitions from `HexapodFW/src/Gaits.h`:
  the six-bit leg masks, the `IS*LEG` predicates, the angle constants and the
  two enums. Its lemmas state how the masks partition the legs.
- **`Pca9685`** is the servo driver as the leg code calls it. It clamps the
  channel to 11 and the angle to [0, 180], and writes to a 12-slot array that
  holds each servo's last commanded angle.
- **`CArith`** holds the C arithmetic the firmware relies on: `uint8_t`,
  `int16_t` and `uint32_t` wrap-around, C's truncating `/` and `%`, and the
  bit test behind `legmask & 1` followed by `legmask >>= 1`.
- **`Bluetooth`** models `BlueTooth_PacketHandler`: the header / address /
  length / data / checksum state machine over a 48-byte buffer, with the UART
  replaced by an input byte sequence. It also models `decodePacket` and
  `checkBlueTooth`. The class `PacketReceiver` holds the static state and the
  buffer. The method `PacketHandler` is proved equal to the function `Handle`,
  and the lemmas about the protocol are stated on `Handle`.
- **`Revisions`** relates the two leg-code revisions. It proves where they
  agree and gives an input where they differ.

Where the prose description of the firmware and the C code disagree, the
model follows the code:

- The middle-leg lean in `Gaits.c` is signed, not an absolute value.
- The phase is a clock-derived `long` in `main.c`, not a wrap-safe `uint32_t`
  deadline.
- The walk and turn state machines, with stopping and freezing, exist only
  as prototypes.

Things the model records as written rather than corrects:

- `ISLEFTLEG` names legs 0-2 (`HexapodFW/src/Gaits.h:41`), while `LEFT_LEGS`
  and `LEFT_START` name legs 3-5. Nothing in the core uses `ISLEFTLEG`.
  `setHip` mirrors by `LEFT_START`.
- `commitServos` re-sends `ServoPos` for all twelve servos.
  - In `main.c` nothing writes `ServoPos`, so every tripod step ends with the
    servos back at the recorded table. `Robot.GaitTripod` returns the
    intermediate pose as a ghost value.
  - In `Gaits.c` only hips are recorded, so the commit keeps the hip moves
    but sends the knees back to their stale recorded values
    (`CommitKeepsHipsRevertsKnees`).
- `decodePacket` reads `packetData[1 + n]` for n = `packetData[0]` down to 1.
  Since `packetData[0]` is the frame length (buttons + 6), it reads two
  entries past the frame's last byte. Those entries hold whatever an earlier
  packet left there (`DecodeReadsPastFrame`).

## Model

| member | source | states |
|---|---|---|
| CArith.CDiv | HexapodFW/main.c:192 | C's truncating division: the remainder is smaller than the divisor in magnitude and has the dividend's sign |
| CArith.CRem | HexapodFW/main.c:256 | C's `%`: a == (a / b) * b + a % b with the remainder's sign that of a and smaller in magnitude than b |
| CArith.U8 | HexapodFW/src/Gaits.c:58 | storing into a uint8_t keeps the value mod 256 and leaves 0..255 unchanged |
| CArith.I16 | HexapodFW/src/Gaits.c:107 | storing into an int16_t keeps the value mod 65536 and leaves -32768..32767 unchanged |
| CArith.U32 | HexapodFW/src/Bluetooth.c:11-12 | the uint32_t counters keep their value mod 2^32 and are unchanged within range |
| Pca9685.ClampDegree | HexapodFW/src/PCA9685.c:176-177 | a servo angle below 0 becomes 0, above 180 becomes 180, otherwise is kept |
| Pca9685.Channel | HexapodFW/src/PCA9685.c:179 | the channel is the leg index reduced to 8 bits when that is at most 11, and 11 otherwise |
| Pca9685.SetServo | HexapodFW/src/PCA9685.c:170-179 | exactly one servo changes: the clamped channel gets the clamped angle |
| Pca9685.ClampedPose | HexapodFW/src/Gaits.c:92-94 | re-sending a 12-entry table leaves every servo within [0, 180] |
| Geometry.MaskBits | HexapodFW/src/Gaits.h:13-21 | which of legs 0-5 each group mask selects: tripod 1 = {0,2,4}, tripod 2 = {1,3,5}, LEFT = {3,4,5}, RIGHT = {0,1,2}, front {0,5}, middle {1,4}, back {2,3}, all and none |
| Geometry.SingleMaskBits | HexapodFW/src/Gaits.h:24-29 | LEGn selects leg n and no other |
| Geometry.LegPower | HexapodFW/src/Gaits.h:24-29 | bit n of a mask is worth 2^n: 1, 2, 4, 8, 16, 32 |
| Geometry.MaskMembers | HexapodFW/src/Gaits.h:13-21 | the exact set of legs each group mask selects |
| Geometry.TripodsPartition | HexapodFW/src/Gaits.h:13-17 | TRIPOD1 & TRIPOD2 == 0 and TRIPOD1 \| TRIPOD2 == ALL_LEGS, as bits and as leg sets |
| Geometry.SidesPartition | HexapodFW/src/Gaits.h:14-15 | LEFT and RIGHT are disjoint and cover all legs; LEFT is exactly legs >= LEFT_START, RIGHT legs RIGHT_START..LEFT_START-1 |
| Geometry.SidePredicatesSwapped | HexapodFW/src/Gaits.h:41-42 | ISLEFTLEG holds exactly for the RIGHT_LEGS legs (those below LEFT_START), ISRIGHTLEG exactly for the LEFT_LEGS legs |
| Geometry.GroupsPartition | HexapodFW/src/Gaits.h:18-40 | the front, middle and back masks are pairwise disjoint, cover all legs, and agree with ISFRONTLEG, ISMIDLEG and ISBACKLEG |
| Geometry.TripodsBalanced | HexapodFW/src/Gaits.h:16-20 | each tripod has exactly one front, one middle and one back leg (0, 4, 2 and 5, 1, 3) |
| Geometry.SingleLegMasks | HexapodFW/src/Gaits.h:24-29 | the mask of leg n is 1 << n, selects only n, and the knee index n + KNEE_OFFSET lies in 6..11 |
| Geometry.AngleConstants | HexapodFW/src/Gaits.h:46-74 | HIP_FORWARD 115 and HIP_BACKWARD 65 mirror each other about 90, as do the small and ripple swings; every angle constant lies in [0, 180] |
| MainFirmware.HipSidesMirror | HexapodFW/main.c:326-338 | the hip angle of the opposite leg (5 - leg) is 180 minus this leg's, for every position and trim |
| MainFirmware.HipTrimThenMirror | HexapodFW/main.c:326-338 | setHip subtracts adj on legs 0 and 5, adds it on legs 2 and 3, leaves legs 1 and 4, then mirrors legs >= 3; neutral 90 stays 90 |
| MainFirmware.KneeLeanCompensation | HexapodFW/main.c:184-199 | the knee lies between pos and pos + \|lean\|; lean 0 changes nothing; front legs move only for negative lean, back legs only for positive; middle legs get pos + \|lean\|/2; opposite legs get the same knee |
| MainFirmware.KneeLeanExample | HexapodFW/main.c:186-197 | lean 10 leaves front knees, raises middle knees by 5 and back knees by 10 |
| MainFirmware.LegPoseFrame | HexapodFW/main.c:174-206 | a joint changes only if its leg's bit is set and its request is not NOMOVE; a driven joint ends within [0, 180] |
| MainFirmware.LegPoseIdempotent | HexapodFW/main.c:174-206 | repeating the same setLeg changes nothing |
| MainFirmware.LegPoseCommute | HexapodFW/main.c:174-206 | setLeg calls on disjoint leg masks give the same pose in either order |
| MainFirmware.StaticPoses | HexapodFW/main.c:225-234 | stand puts every hip at 90 and every knee at 30; laydown every hip at 90 and every knee at 150, whatever the prior pose |
| MainFirmware.CyclePhaseRange | HexapodFW/main.c:256-257 | for t >= 0 and period > 0 the phase k is in 0..5 and marks the sixth of the period t falls in: k*p <= 6*(t % p) < (k+1)*p |
| MainFirmware.TripodKneePhases | HexapodFW/main.c:263-297 | phases 0, 2, 3, 5 move no hip and only the knees of one tripod (1, 1, 2, 2) to kneeup, kneedown, kneeup, kneedown with lean compensation |
| MainFirmware.TripodHipPhases | HexapodFW/main.c:270-291 | phases 1 and 4 move no knee; each leg's hip goes to hipforward or hipbackward with FBSHIFT trim, the two tripods' roles swapped between the phases |
| MainFirmware.TurnHipsRaw | HexapodFW/main.c:387-408 | in turn phases 1 and 4 each hip servo receives exactly its target (raw mode: no trim, no mirroring), knees unchanged |
| MainFirmware.TurnKneePhases | HexapodFW/main.c:380-414 | turn's knee phases are the tripod gait's knee phases with zero lean |
| MainFirmware.Dispatch | HexapodFW/main.c:136-156 | the loop walks forward iff lastCmd is 102, backward iff 98, turns iff 114, and stands otherwise |
| MainFirmware.DispatchCodes | HexapodFW/main.c:91-156 | 'f', 'b', 'r' select the three gaits and the initial lastCmd 115 ('s') selects stand |
| MainFirmware.Robot.constructor | HexapodFW/main.c:91-92 | lastCmd starts at 115 and deferServoSet at 0 |
| MainFirmware.Robot.SetHipRaw | HexapodFW/main.c:345-347 | only servo `leg` (clamped channel) changes, to the clamped position |
| MainFirmware.Robot.SetHip | HexapodFW/main.c:326-338 | only servo `leg` changes, to the trimmed and mirrored angle |
| MainFirmware.Robot.SetKnee | HexapodFW/main.c:352-358 | only the knee servo leg + 6 changes (a leg below 6 means its knee) |
| MainFirmware.Robot.DriveLeg | HexapodFW/main.c:176-202 | one masked leg: its hip and its knee change unless NOMOVE, nothing else does |
| MainFirmware.Robot.SetLeg | HexapodFW/main.c:174-206 | the servos end at LegPose of the old pose, the pose whose frame, idempotence and commutation lemmas are above |
| MainFirmware.Robot.SetLeg1 | HexapodFW/main.c:162-164 | setLeg in trimmed mode with zero lean |
| MainFirmware.Robot.SetLeg2 | HexapodFW/main.c:167-169 | setLeg with the given raw flag and zero lean |
| MainFirmware.Robot.Stand | HexapodFW/main.c:225-227 | all hips 90, all knees 30 |
| MainFirmware.Robot.Laydown | HexapodFW/main.c:232-234 | all hips 90, all knees 150 |
| MainFirmware.Robot.TransactServos | HexapodFW/main.c:304-306 | deferServoSet becomes 1 |
| MainFirmware.Robot.CommitServos | HexapodFW/main.c:311-317 | deferServoSet becomes 0 and every servo shows its clamped ServoPos entry |
| MainFirmware.Robot.GaitTripod | HexapodFW/main.c:239-299 | reverse swaps the hip targets; the writes made are the six-phase table at the clock's phase; the commit leaves the servos at the recorded ServoPos table |
| MainFirmware.Robot.Turn | HexapodFW/main.c:363-416 | ccw swaps the hip targets; the servos end at the turn table's pose for the clock's phase |
| MainFirmware.Robot.WalkForward | HexapodFW/main.c:211-213 | the tripod gait with hips 115 forward / 65 back, knees 90 / 30, period 750 |
| MainFirmware.Robot.WalkBackward | HexapodFW/main.c:218-220 | the same gait with the hip targets swapped |
| MainFirmware.Robot.DispatchStep | HexapodFW/main.c:136-156 | one loop iteration: walk forward or backward, turn counter-clockwise, or stand, chosen by lastCmd, which is unchanged |
| Gaits.HipSidesMirror16 | HexapodFW/src/Gaits.c:105-117 | a left leg's hip angle is 180 minus its right-side twin's, in int16_t |
| Gaits.KneeLeanNonNegative | HexapodFW/src/Gaits.c:57-73 | with non-negative lean and no 8-bit overflow: knee between pos and pos + lean; front legs unchanged, back legs + lean |
| Gaits.KneeTargetWraps | HexapodFW/src/Gaits.c:58 | the uint8_t knee target wraps: a request of 300 becomes 44 and -1 becomes 255 |
| Gaits.KneeLeanWrapped | HexapodFW/src/Gaits.c:57-73 | for every request and lean, the knee target is (request + lean term) mod 256, the term being -lean for front legs when lean < 0, the truncated signed lean/2 for middle legs, +lean for back legs when lean > 0; without overflow it is the plain sum |
| Gaits.KneeLeanWrapExamples | HexapodFW/src/Gaits.c:58-68 | the wrap is reachable: back leg 2 at KNEE_UP with lean 200 gets 94, front leg 0 at 100 with lean -200 gets 44, middle leg 1 at 10 with lean -40 gets 246 |
| Gaits.LegsPoseFrame | HexapodFW/src/Gaits.c:47-77 | only masked legs with a request change; a driven hip is recorded in ServoPos as sent (offset added) and shown clamped; knee entries of ServoPos never change |
| Gaits.LegsPoseKeepsHipsRecorded | HexapodFW/src/Gaits.c:47-77 | if every hip servo matched its ServoPos entry before setLegs, it still does after |
| Gaits.LegsPoseIdempotent | HexapodFW/src/Gaits.c:47-77 | repeating the same setLegs changes nothing |
| Gaits.TripodPhaseZeroFallsThrough | HexapodFW/src/Gaits.c:173-181 | phase 0 lifts tripod-1 knees to KNEE_UP and then also makes all of phase 1's hip moves |
| Gaits.TripodHipPhases | HexapodFW/src/Gaits.c:176-197 | in phases 1 and 4 each hip is sent its trimmed, mirrored, offset target, tripod roles swapped between phases, knees unchanged |
| Gaits.TripodPhaseZeroRepeats | HexapodFW/src/Gaits.c:168-181 | the phase never advances from 0, so a second call repeats the same pose |
| Gaits.CommitKeepsHipsRevertsKnees | HexapodFW/src/Gaits.c:89-95 | after a tripod step the commit keeps every hip move but sends every knee back to its stale ServoPos entry |
| Gaits.TurnHipsRaw | HexapodFW/src/Gaits.c:231-252 | in turn phases 1 and 4 each hip gets its raw target plus offset, with no trim or mirroring, knees unchanged |
| Gaits.HandlerStep | HexapodFW/src/Gaits.c:262-294 | the posture stays in 0..2; it acts iff it changes; from sit only BOT_STAND moves (to stand); from stand BOT_SIT goes to sit, BOT_STAND stays, anything else goes to legs-up; legs-up never changes |
| Gaits.PositionsStayInRange | HexapodFW/src/Gaits.c:262-294 | any command sequence keeps the posture in 0..2 |
| Gaits.LegsUpIsFinal | HexapodFW/src/Gaits.c:287-290 | once in legs-up, no command sequence leaves it |
| Gaits.SittingWaitsForStand | HexapodFW/src/Gaits.c:267-273 | from sit, a command sequence with no BOT_STAND stays in sit |
| Gaits.StandPose | HexapodFW/src/Gaits.c:33-35 | after stand every hip servo shows 90 + its offset (int16_t, clamped) and records it in ServoPos; every knee shows 30 + its offset, its ServoPos entry unchanged |
| Gaits.LaydownPose | HexapodFW/src/Gaits.c:38-40 | after laydown every hip servo shows 90 + its offset and records it; every knee shows 150 + its offset, its ServoPos entry unchanged |
| Gaits.GaitController.constructor | HexapodFW/src/Gaits.c:262-264 | the posture and gait phases start at 0 and deferServoSet at 0 |
| Gaits.GaitController.SetHipRaw | HexapodFW/src/Gaits.c:123-127 | pos + servoOffset[leg] in int16_t is recorded in ServoPos[leg] and sent (clamped) to servo leg; nothing else changes |
| Gaits.GaitController.SetHip | HexapodFW/src/Gaits.c:105-117 | the trimmed, mirrored hip plus offset is recorded and sent for that leg only |
| Gaits.GaitController.SetKnee | HexapodFW/src/Gaits.c:132-139 | knee servo leg + 6 gets pos plus its offset; ServoPos is not touched |
| Gaits.GaitController.DriveLeg | HexapodFW/src/Gaits.c:49-73 | one masked leg's hip and knee change unless NOMOVE; only its hip is recorded |
| Gaits.GaitController.SetLegs | HexapodFW/src/Gaits.c:47-77 | servos and ServoPos end at LegsPose of the old state, whose frame and idempotence lemmas are above |
| Gaits.GaitController.SetWalkLegs | HexapodFW/src/Gaits.c:18-20 | setLegs in trimmed, mirrored mode, zero lean |
| Gaits.GaitController.SetRotateLegs | HexapodFW/src/Gaits.c:23-25 | setLegs in raw mode, zero lean |
| Gaits.GaitController.SetKneesOnly | HexapodFW/src/Gaits.c:28-30 | setLegs with the hips NOMOVE |
| Gaits.GaitController.Stand | HexapodFW/src/Gaits.c:33-35 | the state ends at the stand posture effect, which StandPose spells out servo by servo: hips 90 and knees 30, plus offsets |
| Gaits.GaitController.Laydown | HexapodFW/src/Gaits.c:38-40 | the state ends at the laydown posture effect, which LaydownPose spells out servo by servo: hips 90 and knees 150, plus offsets |
| Gaits.GaitController.TransactServos | HexapodFW/src/Gaits.c:82-84 | deferServoSet becomes 1 |
| Gaits.GaitController.CommitServos | HexapodFW/src/Gaits.c:89-95 | deferServoSet becomes 0 and every servo shows its clamped ServoPos entry |
| Gaits.GaitController.GaitTripod | HexapodFW/src/Gaits.c:152-205 | reverse swaps the hip targets; the writes are the table at the stored phase (with the fall-through); ServoPos records them and the commit re-sends it |
| Gaits.GaitController.GaitTurn | HexapodFW/src/Gaits.c:214-260 | ccw swaps the hip targets; the state ends at the turn table at the stored phase |
| Gaits.GaitController.GaitHandler | HexapodFW/src/Gaits.c:262-294 | the posture moves as NextPosition says and the servos receive exactly the stand, laydown or tripod-1 knee lift the transition calls for |
| Bluetooth.Skip | HexapodFW/src/Bluetooth.c:38-47 | the discard loop stops at a 0x55 or when the input runs out, never consuming more than it has |
| Bluetooth.SkipSuffix | HexapodFW/src/Bluetooth.c:38-47 | the discard loop leaves a suffix of the input, stops on the last byte it read, passed over no 0x55, and adds the number of bytes read to flushcount mod 2^32 |
| Bluetooth.InitialInv | HexapodFW/src/Bluetooth.c:8-29 | the power-on state waits for 0x55 and satisfies the buffer invariant |
| Bluetooth.ResyncKeepsInv | HexapodFW/src/Bluetooth.c:37-48 | discarding up to a header keeps the buffer invariant |
| Bluetooth.StepKeepsInv | HexapodFW/src/Bluetooth.c:50-114 | every byte keeps packetLengthReceived <= packetLength <= 12, so a data write is always below index 48 and the overflow branch cannot run |
| Bluetooth.HandleKeepsInv | HexapodFW/src/Bluetooth.c:26-119 | a whole handler call keeps the buffer invariant |
| Bluetooth.ChecksumIsSum | HexapodFW/src/Bluetooth.c:95 | the running 8-bit checksum is the start value plus the bytes, mod 256 |
| Bluetooth.SkipToHeader | HexapodFW/src/Bluetooth.c:37-48 | junk without 0x55 followed by 0x55 is consumed through the 0x55, with flushcount the junk's length |
| Bluetooth.JunkThenSync | HexapodFW/src/Bluetooth.c:37-48 | in HEADER_55, junk then 0x55 leads to HEADER_AA with flushcount set, nothing else changed |
| Bluetooth.HeaderAddressLength | HexapodFW/src/Bluetooth.c:50-85 | 0xAA, 0x11 and a length c < 7 set checksum 0x10 + c, length c + 6, packetData[0] = c + 6, one byte received, and start reading data |
| Bluetooth.FrameHeader | HexapodFW/src/Bluetooth.c:37-85 | junk, 0x55, 0xAA, 0x11, c < 7 reaches READING_DATA with those fields set |
| Bluetooth.ReadPayload | HexapodFW/src/Bluetooth.c:87-100 | the data bytes land at packetData[received..length], are added to the checksum, and the state becomes WAITING_FOR_CHECKSUM |
| Bluetooth.FrameAccepted | HexapodFW/src/Bluetooth.c:102-113 | a well-formed frame with the right checksum returns NEW_DATA_AVAILABLE right after it, stores its length and payload, leaves the error count, and resets to HEADER_55 |
| Bluetooth.FrameRejected | HexapodFW/src/Bluetooth.c:102-107 | a frame with a wrong checksum returns PACKET_ERROR right after it, counts one error (mod 2^32) and resets to HEADER_55 |
| Bluetooth.HeaderSteps | HexapodFW/src/Bluetooth.c:50-85 | HEADER_AA: 0xAA to address, 0x55 stays, else HEADER_55; address: 0x11 to length, 0x55 to HEADER_AA, else error; length >= 7 is an error |
| Bluetooth.RanOutReturnsState | HexapodFW/src/Bluetooth.c:116-118 | when the input runs out without a result, the handler returns its current state and has consumed everything |
| Bluetooth.Resumable | HexapodFW/src/Bluetooth.c:26-119 | input split across two calls gives the same result as one call on the concatenation (up to the flush counter), since all progress is kept in static state |
| Bluetooth.ResumableDiscarding | HexapodFW/src/Bluetooth.c:37-48 | the same, when the first call stops while discarding up to a header |
| Bluetooth.Scan | HexapodFW/src/Bluetooth.c:128-151 | the decoded command is 0 or one of 'f', '1', 'b', 'r', 's' |
| Bluetooth.ScanZeroIff | HexapodFW/src/Bluetooth.c:128-151 | the scan yields 0 iff every code it reads is 0x05 or 0x06 |
| Bluetooth.ScanFirst | HexapodFW/src/Bluetooth.c:128-151 | the scan yields the mapping of the first code (in its reading order) that is not 0x05/0x06 |
| Bluetooth.DecodeResult | HexapodFW/src/Bluetooth.c:121-158 | decodePacket returns 0 iff every code at indices packetData[0]+1 down to 2 is 0x05 or 0x06 |
| Bluetooth.DecodeFirst | HexapodFW/src/Bluetooth.c:121-158 | otherwise it returns the mapping (1 'f', 2 '1', 3 'b', 4 'r', other 's') of the last code read, the lowest index that is not 0x05/0x06 |
| Bluetooth.DecodeReadsPastFrame | HexapodFW/src/Bluetooth.c:124-129 | a frame whose payload is all 0x05 still decodes to 'f' when the stale byte two past its end is 0x01 |
| Bluetooth.PacketReceiver.constructor | HexapodFW/src/Bluetooth.c:8-29 | the receiver starts in the initial state |
| Bluetooth.PacketReceiver.PacketHandler | HexapodFW/src/Bluetooth.c:26-119 | the new state, the result and the unread input are those of Handle, whose properties are the lemmas above; the invariant is kept |
| Bluetooth.PacketReceiver.DiscardUntilHeader | HexapodFW/src/Bluetooth.c:37-48 | consumes exactly what Skip consumes and sets the state and flushcount as Resync does; the buffer is untouched |
| Bluetooth.PacketReceiver.StepByte | HexapodFW/src/Bluetooth.c:50-114 | one byte changes the receiver as Step says and stops exactly when Step returns a result |
| Bluetooth.PacketReceiver.DecodePacket | HexapodFW/src/Bluetooth.c:121-159 | the downward loop returns DecodeCommand of the buffer |
| Bluetooth.PacketReceiver.CheckBlueTooth | HexapodFW/src/Bluetooth.c:18-24 | runs the packet handler and always yields BOT_STAND |
| Revisions.HipRevisionsAgree | HexapodFW/src/Gaits.c:105-117 | away from the int16_t limits, Gaits.c's setHip angle equals main.c's |
| Revisions.KneeRevisionsAgree | HexapodFW/src/Gaits.c:57-73 | with non-negative lean and no 8-bit overflow the two revisions' knee angles are equal |
| Revisions.MiddleKneeRevisionsDiverge | HexapodFW/src/Gaits.c:64-66 | with negative lean they differ: knee 90, lean -10 gives 95 in main.c and 85 in Gaits.c |
| Revisions.LegPoseRevisionsAgree | HexapodFW/src/Gaits.c:47-77 | with zero offsets, in-range hip requests and knee requests that fit a uint8_t with non-negative lean, setLegs drives the servos exactly as main.c's setLeg does |

## Left out

- The register-level I/O is not part of this model: `I2C.c`, `UART.c`, `Timer.c`, the PWM and prescale arithmetic of `PCA9685.c`, and the unrelated `lab3Main.c`. A servo is a slot in a 12-entry array that holds its commanded angle. The float conversion of the angle is not modelled; every angle the leg code sends is an integer.
- `PCA9685.h:61` declares `setServo(degree, leg)`, but `PCA9685.c:170` defines `setServo(leg, degree)`. The model takes the definition's order, which every leg-code call site uses. It does not model what a caller compiled against the header would send.
- The three `PCA9685_setServo` calls at start-up in `main` (main.c:128-130) are not modelled; they use the header's argument order. Neither is the hardware initialisation before them.
- `millis()` is an empty `void` function in main.c (lines 110-117). The clock is a parameter `now` of the gait methods.
- The `while(1)` loops in `main` and the `updateBluetoothInfo` call are not modelled. `updateBluetoothInfo` is not part of this model. `DispatchStep` models one iteration, and the inner `while (lastCmd == …)` loops repeat it.
- The bodies of `walk_FSM` and `turn_FSM` are not part of this model; only their prototypes exist. No stopping, freezing or diagonal behaviour is modelled.
- Concurrency between the UART receive path and the main loop is not modelled. Everything is single-threaded.
- `ServoPos` and `servoOffset` are used but not declared in the firmware's files. They are modelled as 12-entry arrays of unbounded integers.
- MainFirmware.Robot.SetLeg: main.c's `int` arithmetic is unbounded in the model. Overflow of `pos ± adj` needs requests near 2^31, which no caller makes.
- Gaits.GaitController.GaitTripod: `kneeup` and `timeperiod` are parameters the C code never reads. Phase 0 uses `KNEE_UP`, and the phase is the stored static. The same holds for `GaitTurn`'s `kneeup`, `kneedown` and `timeperiod`.
- Gaits.GaitController: the `gaitPhase` static of `GaitHandler` is kept as a field. It is never read or written after initialisation.
- Bluetooth.DecodeCommand: requires `packetData[0] + 2 <= 48`. Every reachable receiver state satisfies this, because `packetData[0]` is at most 12 (`StepKeepsInv`). An arbitrary buffer with a larger first byte would make the C code read outside `packetData`, and that case is not modelled.
- Bluetooth.PacketReceiver.StepByte: the `packetLengthReceived >= MAXPACKETDATA` branch at Bluetooth.c:88-93 is modelled in the function `Step`. The method omits it because the invariant proves it unreachable.
- `decodePacket`'s `lastChangeFlag`/`thisChangeFlag` statics and its empty `if (packetData[1])` block have no effect and are not modelled. Neither is `checkBlueTooth`'s unused `static lastCmd`.
- The resumability lemmas (`Bluetooth.Resumable`, `Bluetooth.ResumableDiscarding`) hold up to `flushcount`. That counter restarts at 0 on every handler call that begins in `HEADER_55`, so splitting the input can change it.
