# Forklift AGV control: a verified model

This project models the decision logic of the forklift AGV's control software in Dafny and proves
what it is for. `dafny verify dfyconfig.toml` checks all of it.

- **Scheduler protocol** (`Bytes`, `CheckSum`, `EscapeCodec`, `EscapeCodes`, `FrameScanner`,
  `SchProtocol`, `Resync`, `Stream`, `CheckSumErrors`, `FrameErrors`): packing, byte stuffing,
  delimiting and the receive loop. The main results are what the receive loop does with any buffer, the
  round trip of whole streams, exactly when messages survive garbage in front of them, and which tables
  let the checksum notice a wrong byte.
- **Path planner** (`Motion`, `PlanSpec`, `PlanShape`, `PlanGeometry`, `PlanSymmetry`,
  `PlanTheorems`, `PlanTurns`, `PlanJoints`, `PlanReversal`, `PlanSimplify`, `PlanGaps`, `PlanChoices`,
  `PlanOutcomes`, `PathPlanner`): the decomposition of a relative pose into rotation, arcs and lines.
  Functions describe each case; the class `Planner` fills, mirrors, checks and compacts the five slots
  in place and is proved against them. The main results are the geometry of every plan, its shape,
  which case a pose falls in and how far the car turns in it, the two symmetries, exactly which poses
  are rejected, and that simplification never leaves a plan empty and how far apart it can pull the
  steps it keeps.
- **Path executor** (`ExecSpec`, `ExecDrives`, `PathExecutor`, `PlanRuns`, `SegmentReplies`): the state
  machine that runs a plan, with the order and number of segments, what is loaded and driven, and the
  announcement over whole runs of its calls, refused targets and cleared ones included.
- **Speed, arcs and rotations** (`SpeedSpec`, `SpeedBounds`, `RotationSpec`, `RotationSpeed`,
  `DriveControl`): the ramp, the two arc routines and the two rotation routines, with curvature
  conservation, exact heading unwrapping and how far the car turns.
- **Steering** (`Steering`): the table-driven inverse and the speed conversions.
- **Event queue** (`EventSpec`, `EventQueue`): the lists, and the interleaving of producers with a
  consumer that tests for emptiness outside the lock.
- **Firmware transfer** (`FirmwareTrace`, `FirmwarePolls`, `Firmware`): stop-and-wait over a CAN bus that may do
  anything.
- **Connection registry** (`RegistrySpec`, `RegistryRuns`, `CallerIds`, `Registry`) and **settings cache**
  (`Decimal`, `DecimalForms`, `SettingsSpec`, `Settings`).

`Options` and `Sequences` hold what several modules share.

## Conventions

- Where the source updates fields, arrays or lists, a class does too; its methods are proved equal to
  functions on values, and the theorems are about those functions and the runs they make.
- `float` is `real`; the base angular speed, which the code divides by a speed that can be 0, is a
  number or not one. `sqrt` cast to `int` is the integer square root. Casts to `int` truncate toward
  zero.
- The C library functions `atan2`, `sin` and `cos` are parameters; `TrigLaws` lists the identities
  the plans rest on, and `TrigLawsHaveModel` shows that they do not contradict each other.
- The planner works on the pose relative to the target. The radius of the circle through the pose,
  computed from both poses, is an input of the radius choice.
- The segment routines are replies to the executor: busy with some flags, arrived, or failed with a
  code. Arrival needs an initialised segment and failure an uninitialised one; `SegmentReplies` proves
  that of the line, arc and rotation routines.
- The arc routines get from geometry only whether the car is on the wrong side, near, a control
  period on, or there; the way round and the radius come with the start. Their static locals are
  fields.
- Threads interleave in atomic steps: a push, a deletion, the snapshot of a starting scan, one
  unlocked test, one locked pop. The snapshot and the histories only record.
- A CAN bus is a pair of arbitrary functions of everything that has happened on it. An empty frame
  also stands for a blocking read that timed out, which the code does not tell apart.

## What the code does that its comments do not say

- `UnPackData` does not test whether `decode` failed. The checksum then runs over memory behind the
  buffer; the model lets it be any word, so such a frame is refused with -2 or accepted with 1.
- It does not compare the length field with what was decoded either, and the checksum does not cover
  the field (`SchProtocol.LengthDecides`, `SchProtocol.LengthUnchecked`).
- With the table of `utils/AgvCheckSum.cpp` the checksum can miss a single wrong byte, because entries
  share their high bytes (`CheckSumErrors.StepSeparates`, `FrameErrors.WrongByteAccepted`). The last
  byte is always covered, because they are different (`CheckSumErrors.LastByteNoticed`).
- A packet repacked after it was unpacked sends zeros, because its payload pointer is into the buffer
  `PackData` clears first (`SchProtocol.RepackedFrame`). The source builds a new protocol object for
  every send, so nobody repacks.
- The receive loop stops at the first frame it refuses, so a bad frame hides the good ones behind it
  (`Stream.RefusedHidesAll` and `Stream.SomeNoiseIsRefused`; `Stream.ParsedExactly` says exactly when
  all come through).
- The braking branch of `LoopRunning` for lifting after a backward line is dead, because the running
  mode is already `StopMode` there (`ExecSpec.ArrivedIsStopped`); the car is stopped all the same, by
  `BackwardToLine` (`SegmentReplies.LiftStopsInRoutine`).
- A line target refused in mid-run clears the plan and lets the run go on, so the old station is
  announced after the running segment although others were skipped (`ExecSpec.RefusalSkips`).
- `SplitToSubTarget` reads `needStop` before `SetTarget` refreshes it: whether a short last step is
  kept depends on the target before (`PathExecutor.Executor.SetTarget`, `PlanSimplify.KeptIsSubsequence`).
- Backward driving ignores the barrier (`SpeedSpec.BackwardIgnoresBarrier`).
- A ramp call made at standstill divides by 0 and loses the angular speed for good
  (`SpeedSpec.StandingLosesAngle`).
- A read that times out acknowledges any chunk, because a reply of length 0 agrees with everything
  (`FirmwareTrace.EmptyReplyAcknowledges`); only replies as long as their chunks prove that the board
  has the file (`FirmwareTrace.EchoesDecideFile`, `FirmwareTrace.RepliesSpellFile`). Equal
  neighbouring chunks cannot be told from a repetition (`FirmwareTrace.BoardRecovers`).
- `DeleteEvent` is safe only outside the window between test and pop (`EventSpec.BreaksExactly`).
  Nothing in the repository calls it.
- A connection that announces two ids leaves a stale entry (`RegistrySpec.TwoIdsGoStale`). A caller that
  comes back on a lower descriptor while its old connection is ready too ends the server loop
  (`RegistryRuns.PassEndsLoop`, `RegistryRuns.PassCanEndLoop`).
- Saving an empty value leaves a file whose next load crashes (`SettingsSpec.SaveStaysReadable`); without
  empty values none does (`SettingsSpec.StaysReadable`).

## Model

| member | source | states |
|---|---|---|
| Bytes.BigEndianAt | comm/AgvSchProtocol.cpp:38-47 | byte k of an n-byte section is the value shifted right by n-k-1 bytes, modulo 256 |
| Bytes.ValueOfBigEndian | comm/AgvSchProtocol.cpp:23-47 | reading a section that was written gives the value back, reduced to the section's width |
| Bytes.BigEndianOfValue | comm/AgvSchProtocol.cpp:23-47 | writing what was read gives the same bytes back, and the value fits the width |
| Bytes.Bin2Buffer | comm/AgvSchProtocol.cpp:38-47 | writes exactly the big-endian bytes at the section, leaves the bytes before and behind alone, refuses NULL and zero width with -1 |
| Bytes.Buffer2Bin | comm/AgvSchProtocol.cpp:23-36 | the big-endian value of the section; all ones for NULL or zero width |
| CheckSum.RegisterStep | utils/AgvCheckSum.cpp:13-60 | the checksum register over one more byte is one table step on |
| CheckSum.GetCrc16 | utils/AgvCheckSum.cpp:51-60 | the register over the bytes folded with the table, xor the password |
| CheckSumErrors.StepSeparates | utils/AgvCheckSum.cpp:13-60 | no byte brings two different registers together if and only if the high bytes of the table's entries are pairwise different |
| CheckSumErrors.LastByteNoticed | utils/AgvCheckSum.cpp:13-60 | a wrong last byte always changes the checksum if and only if the entries are pairwise different |
| CheckSumErrors.OneByteNoticed | utils/AgvCheckSum.cpp:13-60 | with different high bytes a single wrong byte anywhere changes the checksum |
| CheckSumErrors.WrongByteUnnoticed | utils/AgvCheckSum.cpp:16-60 | the repository's table is not one of those, its entries 121 and 206 share a high byte: 0,1,0,25,164,19 and 0,1,0,25,198,19 both have 0x22A0 |
| EscapeCodec.EscapeHidesHead | comm/AgvSchProtocol.cpp:188-230 | encoded text holds no 0xFF and is between len and 2*len long, for every byte string |
| EscapeCodec.UnescapeEscape | comm/AgvSchProtocol.cpp:188-298 | decode(encode(s)) = s and decode accepts, for every byte string |
| EscapeCodec.EscapeUnescape | comm/AgvSchProtocol.cpp:188-298 | on text decode accepts, encode(decode(t)) = t if and only if t holds no raw 0xFF |
| EscapeCodec.UnescapeLength | comm/AgvSchProtocol.cpp:232-298 | decoding never lengthens and at most halves, also when it fails halfway |
| EscapeCodes.EscapeConcat | comm/AgvSchProtocol.cpp:188-230 | encoding is done byte by byte: a concatenation is encoded to the concatenation |
| EscapeCodes.Codes | comm/AgvSchProtocol.cpp:188-230 | 0xFF becomes 0x85 0x86, 0x85 and 0x86 are doubled, every other byte stands for itself |
| EscapeCodec.Encode | comm/AgvSchProtocol.cpp:188-230 | writes exactly the encoding into des and nothing around it; -1 for NULL |
| EscapeCodec.Decode | comm/AgvSchProtocol.cpp:232-298 | writes exactly the decoded bytes, up to the broken escape if there is one, and nothing behind them; -1 for NULL and for a broken escape |
| FrameScanner.ScanSpec | comm/AgvSchProtocol.cpp:77-115 | a frame is found if and only if two successive 0xFF more than 8 apart exist; then the leftmost pair, with no 0xFF between |
| FrameScanner.FramesDoNotNest | comm/AgvSchProtocol.cpp:77-115 | two frames of one buffer never nest: the earlier end has the earlier start |
| FrameScanner.ScanFinds | comm/AgvSchProtocol.cpp:77-115 | a frame is what the scan returns if at most the byte right before it is a delimiter |
| FrameScanner.BodyIsFound | comm/AgvSchProtocol.cpp:77-115 | a body without delimiter, put between two, is found if and only if it has at least the 8 bytes of a header |
| FrameScanner.CheckProtocol | comm/AgvSchProtocol.cpp:77-115 | the two-index loop returns that pair; false for NULL and for fewer than 10 bytes |
| SchProtocol.Protocol.constructor | comm/AgvSchProtocol.cpp:49-58 | a fresh protocol object: type 1, no payload |
| SchProtocol.Protocol.Packet | comm/AgvSchProtocol.cpp:60-70 | a packet for a command and payload: length is payload plus 6, in 16 bits |
| SchProtocol.HeaderOfRawBody | comm/AgvSchProtocol.cpp:117-186 | the header sections read from a packed body are the ones written, with the checksum over everything behind it |
| SchProtocol.RawBodyAt | comm/AgvSchProtocol.cpp:117-145 | where everything is in a frame body: length, checksum, type and command in two bytes each from 0, 2, 4 and 6, the payload from 8, the checksum over bytes 4 and on |
| SchProtocol.Protocol.PackData | comm/AgvSchProtocol.cpp:117-145 | pbuf starts with 0xFF, encoded length/checksum/type/command/payload, 0xFF; nothing behind is touched; returns its length; -1 for NULL |
| SchProtocol.Protocol.UnPackData | comm/AgvSchProtocol.cpp:147-186 | -1 without a frame and left unchanged; otherwise left is what follows the frame and the buffer holds what was decoded of it; -2 on a checksum mismatch, with type, command, payload pointer and payload length untouched; else the fields of the frame and the decoded length plus 2; a body that does not decode may go either way and is accepted with 1 |
| SchProtocol.LengthDecides | comm/AgvSchProtocol.cpp:166-185 | an accepted body of at least 8 bytes delivers the payload it carries if and only if the length field is the decoded length less 2, which the code does not compare |
| SchProtocol.LengthUnchecked | comm/AgvSchProtocol.cpp:117-186 | the checksum does not cover the length field: packed with any length a message is accepted, and delivered unchanged if and only if the length is payload plus 6 |
| SchProtocol.RawIsBody | comm/AgvSchProtocol.cpp:117-186 | decoded bytes whose checksum matches are the packed body of their own fields |
| SchProtocol.RepackedFrame | comm/AgvSchProtocol.cpp:117-186 | packing what was just read, with a matching length field, gives the received frame back if and only if its payload is empty or all zeros |
| Resync.ScanAllFrom | comm/AgvSchProtocol.cpp:77-115 | scanning noise without delimiters, or with one final delimiter, followed by frames returns exactly the frames |
| Resync.WireScans | comm/AgvSchProtocol.cpp:77-115 | scanning concatenated frames returns exactly their interiors and nothing is left over |
| Resync.JoinMidFrame | comm/AgvSchProtocol.cpp:77-115 | joining anywhere inside a frame behind its head loses that frame only |
| Resync.Resynchronise | comm/AgvSchProtocol.cpp:77-115 | repeated scanning after any garbage ends with every frame but possibly the first |
| Resync.FirstFrameCanBeLost | comm/AgvSchProtocol.cpp:77-115 | the loss happens: garbage with one lone delimiter swallows the first frame's head |
| Stream.VerdictSpec | comm/AgvSchProtocol.cpp:158-177 | a body that decodes is accepted if and only if its checksum matches, and refused otherwise; one that does not decode can go either way |
| Stream.InteriorVerdict | comm/AgvSchProtocol.cpp:117-186 | the interior of a packed frame is accepted for certain and delivers its message |
| FrameErrors.OneWrongByte | comm/AgvSchProtocol.cpp:117-186 | a frame body with one wrong byte is refused if and only if the byte is behind the length field, with a table whose entries have pairwise different high bytes |
| FrameErrors.WrongByteAccepted | utils/AgvCheckSum.cpp:16-60 | with the repository's table a message is accepted although a byte of its payload is wrong |
| Stream.ParsedExactly | comm/AgvSchProtocol.cpp:147-186 | when every interior that scanning finds decodes, the receive loop delivers the longest accepted prefix of them, and succeeds if and only if all are accepted, there is at least one, and nothing is left behind the last |
| Stream.StreamRoundTrip | comm/AgvSchProtocol.cpp:117-186 | the receive loop over the concatenated frames of any messages delivers the same types, commands and payloads in order, with nothing over |
| Stream.NoiseIsSkipped | comm/AgvSchProtocol.cpp:77-115 | noise without 0xFF, or with one as its last byte, in front of frames costs the receive loop no message |
| Stream.JoinDeliversRest | comm/AgvSchProtocol.cpp:77-115 | joining anywhere inside a frame behind its head, the receive loop delivers every following message |
| Stream.GarbageDecides | comm/AgvSchProtocol.cpp:77-186 | behind any garbage the receive loop delivers all messages but possibly the first if it accepts everything the garbage delimits in front of them, and only then when those bodies decode |
| Stream.RefusedHidesAll | comm/AgvSchProtocol.cpp:155-177 | one refused body in front of frames, such as noise behind a lone delimiter whose checksum does not match, loses every message behind it |
| Stream.SomeNoiseIsRefused | comm/AgvSchProtocol.cpp:155-177 | for every checksum table there is noise that decodes, without delimiter and of at least 8 bytes, that is refused: such noise does hide every message behind it |
| Stream.ReceiveOne | comm/AgvSchProtocol.cpp:147-186 | one round over any bytes: refused or accepted as the front interior allows, with what is left behind it and what it delivers |
| Stream.ParseReceiveData | comm/AgvSchProtocol.cpp:147-186 | the receive loop over any buffer: it reads the interiors that scanning finds up to the first refused one, delivering each; it counts them if it gets through all, finds at least one and nothing is left over, and returns -1 otherwise |
| Motion.ISqrtSpec | controler/AgvMoveHelperForklift.cpp:1917-1918 | the truncated square root is the largest integer whose square is not above |
| Motion.NormaliseSpec | controler/AgvMoveHelperForklift.cpp:1876 | an angle in [-360, 360) keeps its value up to a whole turn, any other becomes 0; the result is in (-180, 180] |
| Motion.RotateAngleSpec | controler/AgvMoveHelperForklift.cpp:1922 | turning by the rotation angle leaves the car along the tangent of the circle, up to a whole turn |
| PlanTheorems.RadiusIsLarge | controler/AgvMoveHelperForklift.cpp:1806-1841 | the radius is at least 1000 for all settings and poses, exactly 1000 backwards, and at most 4000 unless it is the configured one |
| PlanChoices.RadiusOfCircle | controler/AgvMoveHelperForklift.cpp:1808-1840 | forwards the radius is that of the circle through the pose if and only if the car does not head across the line, the circle is between 1000 and 4000, and the pose is not steep, where 2800 is taken; heading across it is the configured one, if that is at least 1000 |
| PlanShape.ForwardShape | controler/AgvMoveHelperForklift.cpp:1872-2136 | every forward case: at most one rotation and that in front, then one to four moves, x towards the target, y sinking and never negative, last a line to the target |
| PlanShape.ShapedKinds | controler/AgvMoveHelperForklift.cpp:1872-2136 | so every plan has one to five steps, which fit the five slots, rotation only at index 0 |
| PlanTheorems.PlanShaped | controler/AgvMoveHelperForklift.cpp:1842-2466 | the same shape for both directions and both sides of the target line |
| PlanGeometry.LegDefect | controler/AgvMoveHelperForklift.cpp:1917-1918 | the square root is never of a negative number and its truncation costs less than 2x+1 in the squared radius |
| PlanGeometry.LegOnArc | controler/AgvMoveHelperForklift.cpp:1914-1949 | the start of an arc lies on the circle of the plan's radius tangent to its exit, up to that truncation |
| PlanGeometry.TruncatedLegs | controler/AgvMoveHelperForklift.cpp:2074-2080 | the two truncated legs of an inclined start keep the point on the circle up to -2u and 2*AE+1 in the squared radius |
| PlanGeometry.InclineStart | controler/AgvMoveHelperForklift.cpp:2072-2095 | an inclined start lies on its first circle up to that error |
| PlanGeometry.InclineTangent | controler/AgvMoveHelperForklift.cpp:2072-2095 | an inclined start enters its first circle along the heading: the radius there is perpendicular to it up to 2 mm of truncation |
| PlanGeometry.ForwardFits | controler/AgvMoveHelperForklift.cpp:1874-2135 | in every forward case consecutive steps join, straight steps keep a coordinate and run along their heading, arcs start and end on a circle of radius R tangent to the exit heading |
| PlanGeometry.ForwardAligned | controler/AgvMoveHelperForklift.cpp:1874-2135 | in every forward case but the inclined one the first move starts exactly aligned after a rotation and within 20 degrees without one |
| PlanTheorems.PlanIsCanonical | controler/AgvMoveHelperForklift.cpp:2147-2466 | every plan of either direction and side is a forward plan above the line, reflected |
| PlanTheorems.PlanFits | controler/AgvMoveHelperForklift.cpp:1842-2466 | that geometry for both directions and both sides |
| PlanTheorems.PlanEntersAligned | controler/AgvMoveHelperForklift.cpp:1842-2466 | that alignment for both directions and both sides |
| PlanTurns.ForwardTurnsLittle | controler/AgvMoveHelperForklift.cpp:1872-2136 | a rotation is by more than 20 degrees; beyond the radius a car that heads forwards turns by at most 90 degrees, or, between one and two radii off, by less than straight down; one that heads backwards turns exactly to straight down |
| PlanTurns.ForwardCase | controler/AgvMoveHelperForklift.cpp:1872-2136 | which case a pose falls in: one move if and only if within 200 mm, two if and only if within the radius; beyond it the first move is straight down if and only if the car heads backwards, and there are four moves if and only if it heads forwards and is more than two radii off or above its incline |
| PlanTurns.ForwardQuarters | controler/AgvMoveHelperForklift.cpp:1872-2136 | every arc starts in the quarter of its circle before its end: none turns the car by more than 90 degrees |
| PlanTurns.PlanTurnsLittle | controler/AgvMoveHelperForklift.cpp:1842-2466 | the bounds on the rotation for both directions and both sides |
| PlanTurns.PlanCase | controler/AgvMoveHelperForklift.cpp:1842-2466 | the case split for both directions and both sides |
| PlanTurns.PlanQuarters | controler/AgvMoveHelperForklift.cpp:1842-2466 | arcs of at most a quarter for both directions and both sides |
| PlanTurns.CanonicalKeeps | controler/AgvMoveHelperForklift.cpp:1842-2466 | the pose those three speak of is as far from the target and heads forwards exactly when the given one does |
| PlanJoints.ForwardSmooth | controler/AgvMoveHelperForklift.cpp:1872-2136 | in every forward case each move after the first sets out exactly along the exit heading of the one before |
| PlanJoints.PlanSmooth | controler/AgvMoveHelperForklift.cpp:1842-2466 | the same for both directions and both sides |
| PlanSymmetry.BackwardIsReversedForward | controler/AgvMoveHelperForklift.cpp:2138-2427 | for equal radius the backward plan from (x,y,a) is the x-reflection of the forward plan from (-x,y,360-a), for every angle including 0 |
| PlanSymmetry.RadiusMirrors | controler/AgvMoveHelperForklift.cpp:1806-1841 | the radius choice does not see the side of the target line |
| PlanSymmetry.StepsMirror | controler/AgvMoveHelperForklift.cpp:1853-1870 | the steps of a mirrored pose are the mirrored steps, for poses on the line too |
| PlanSymmetry.PlanMirrors | controler/AgvMoveHelperForklift.cpp:1775-2578 | the whole planner, with radius, post-check, simplification, distances and speeds, commutes with reflection in the target line |
| PlanReversal.PlanReverses | controler/AgvMoveHelperForklift.cpp:2138-2578 | for equal radius the whole outcome backward from (x,y,a), with post-check, simplification, distances and speeds, is the reversed outcome forward from (-x,y,360-a) |
| PlanTheorems.PostCheckExact | controler/AgvMoveHelperForklift.cpp:2468-2483 | the post-check refuses a plan if and only if its last step but one ends beyond the target |
| PlanOutcomes.RejectedExactly | controler/AgvMoveHelperForklift.cpp:1792-2495 | a pose is rejected if and only if its heading is out of range, it is beyond the target, or the last step but one of its plan ends beyond it |
| PlanOutcomes.PlannedSteps | controler/AgvMoveHelperForklift.cpp:2497-2578 | an accepted pose gets the kept steps of its plan with targets and modes unchanged, the distance of each, and the speed for it, negative backwards and 100 for a rotation; a single step too |
| PlanOutcomes.PlanInFrame | controler/AgvMoveHelperForklift.cpp:1842-2466 | every plan in coordinates: step by step the forward plan of (-|x|, |y|), with x negated backwards, y below the line, and headings and rotations turned round when exactly one of the two applies |
| PlanSimplify.KeptIsSubsequence | controler/AgvMoveHelperForklift.cpp:2497-2550 | simplification keeps in order exactly the rotations, the steps longer than 200 mm and a last step that must stop precisely, with their distances |
| PlanChoices.DistanceOfStep | controler/AgvMoveHelperForklift.cpp:2497-2515 | the distance of a step is the truncated distance of its end from where the car stands when it begins; a rotation has none |
| PlanChoices.SpeedRises | controler/AgvMoveHelperForklift.cpp:1714-1751 | the speed rises with the distance, from 150 up to 500 mm to 1500 beyond 7 m, and never exceeds what is allowed |
| PlanChoices.SpeedTells | controler/AgvMoveHelperForklift.cpp:1714-1751 | as far as allowed, 300, 500, 1000, 1300 and 1500 mm/s are driven exactly beyond 0.5, 2, 3, 5 and 7 m |
| PlanChoices.StopsWithin | controler/AgvMoveHelperForklift.cpp:1714-1751 | a car braking at 169 mm/s^2 stops within every step of more than 500 mm |
| PlanSimplify.SomeStepIsKept | controler/AgvMoveHelperForklift.cpp:2516-2549 | every plan of more than one step holds a step simplification keeps |
| PlanSimplify.PlanNeverEmpty | controler/AgvMoveHelperForklift.cpp:1775-2578 | an accepted plan has one to five steps after simplification: it is never empty |
| PlanGaps.KeptStepsNearlyJoin | controler/AgvMoveHelperForklift.cpp:2516-2549 | a kept step starts at most 201 mm per step dropped in between from where the kept step before it, or the pose, ends; with nothing dropped they join |
| PlanGaps.SimplifiedPlanNearlyJoins | controler/AgvMoveHelperForklift.cpp:1842-2550 | so for every plan of more than one step, which also ends within 201 mm per dropped step of the target, and on it when the car must stop precisely |
| PathPlanner.Planner.ClearSubpath | controler/AgvMoveHelperForklift.cpp:1751-1763 | all five slots are zero and the plan is empty |
| PathPlanner.Planner.SplitForward | controler/AgvMoveHelperForklift.cpp:1872-2136 | the slots hold the steps of the forward case the pose falls in |
| PathPlanner.Planner.SplitBackward | controler/AgvMoveHelperForklift.cpp:2166-2427 | the slots hold the steps of the backward case the pose falls in |
| PathPlanner.Planner.MirrorSubpath | controler/AgvMoveHelperForklift.cpp:2429-2458 | the slots hold the mirrored steps |
| PathPlanner.Planner.BehindTarget | controler/AgvMoveHelperForklift.cpp:2468-2483 | whether some step ends beyond the target |
| PathPlanner.Planner.Simplify | controler/AgvMoveHelperForklift.cpp:2497-2556 | the slots hold the simplified steps and are clear behind them |
| PathPlanner.Planner.SetSpeeds | controler/AgvMoveHelperForklift.cpp:2557-2571 | each step has the speed its mode and distance ask for, negative backwards |
| PathPlanner.Planner.AdjustRadius | controler/AgvMoveHelperForklift.cpp:1806-1841 | the radius of the specification |
| PathPlanner.Planner.SplitToSubTarget | controler/AgvMoveHelperForklift.cpp:1775-2578 | the slots hold the plan of the specification, or are empty when it is refused with -1 |
| PathExecutor.Executor.SetTarget | controler/AgvMoveHelperForklift.cpp:214-311 | an accepted target loads slot 0 of the plan, resets the flags and starts, with needStop as the action asks; a refused one reports -1, clears the plan and leaves the run and needStop as they are |
| PathExecutor.Executor.RunSegment | controler/AgvMoveHelperForklift.cpp:352-387 | the dispatch on the running mode and what it does to mode and flags |
| PathExecutor.Executor.LoopRunning | controler/AgvMoveHelperForklift.cpp:344-446 | one call does one step of the state machine: next slot, finish, error event or nothing |
| PathExecutor.Executor.ClearTarget | controler/AgvMoveHelperForklift.cpp:313-323 | running stops and the flags are reset; plan and index stay |
| ExecDrives.DrivesPlan | controler/AgvMoveHelperForklift.cpp:286-446 | over whole runs, whatever the segments reply: after c completions the executor runs slot c of the plan, with its mode, speed and pose; under absolute rotation a rotation is by the heading at loading less the slot's angle, normalised; behind the last slot the mode is StopMode |
| ExecDrives.DrivenIsPlan | controler/AgvMoveHelperForklift.cpp:286-446 | what has been driven to its end is always the front of the plan, with modes, poses and speeds |
| ExecDrives.LastSegmentStops | controler/AgvMoveHelperForklift.cpp:414-437 | when the last segment completes the car is stopped and held for charging, stopped and braked for a stop unless the target is a rotation, and otherwise left rolling; then the station is announced |
| ExecDrives.OthersRoll | controler/AgvMoveHelperForklift.cpp:344-446 | no other call of LoopRunning stops the car |
| ExecDrives.CompletesExactly | controler/AgvMoveHelperForklift.cpp:352-394 | a call completes a segment if and only if its routine arrives after its initialising call, or is asked to rotate by nothing |
| ExecDrives.FailureReported | controler/AgvMoveHelperForklift.cpp:439-443 | a segment that cannot start is reported with its code and tried again |
| ExecDrives.StartsFresh | controler/AgvMoveHelperForklift.cpp:286-446 | every segment of a run starts with both flags false, which the rotation routines need, although an arc leaves the second as it is |
| ExecDrives.TargetIsSteady | controler/AgvMoveHelperForklift.cpp:286-310 | so does the first segment of a freshly set target |
| PlanRuns.NeedsStopIfStopped | controler/AgvMoveHelperForklift.cpp:246-273 | a line target gets needStop if and only if the car is stopped at its end, by LoopRunning or by BackwardToLine |
| ExecSpec.TickOnCourse | controler/AgvMoveHelperForklift.cpp:344-446 | one call keeps the run on its course and counts a completion exactly when the segment returns 1 |
| ExecSpec.TargetedOnCourse | controler/AgvMoveHelperForklift.cpp:286-310 | a freshly set target is at the start of its course: segment 0 started, nothing announced, all of the plan ahead |
| ExecSpec.RunOnCourse | controler/AgvMoveHelperForklift.cpp:344-446 | over whole runs and whatever the segments reply: segments start in index order, each once, each with initParaFlag false |
| ExecSpec.AnnouncedExactly | controler/AgvMoveHelperForklift.cpp:394-438 | evNextPathPoint is sent at most once, and exactly when every segment has completed; subpathSize minus pathIndex is what is left |
| ExecSpec.CallsOnCourse | controler/AgvMoveHelperForklift.cpp:214-446 | over runs that mix LoopRunning, ClearTarget and SetTarget, accepted or refused: since the last accepted target the segments have started in order, each once and uninitialised, and the station has been announced exactly when the course was run to its end, or to where a refusal cut it short |
| ExecSpec.RefusalSkips | controler/AgvMoveHelperForklift.cpp:228-244 | a line target refused in mid-run clears the plan and lets the run go on: the next completion starts nothing and announces the old target's station although segments were skipped |
| ExecSpec.ClearedStays | controler/AgvMoveHelperForklift.cpp:313-323 | after ClearTarget no number of LoopRunning calls changes anything until a target is set |
| ExecSpec.EmptyTargetStalls | controler/AgvMoveHelperForklift.cpp:264-275 | a target with a stop mode and no plan never completes and never changes anything |
| ExecSpec.ArrivedIsStopped | controler/AgvMoveHelperForklift.cpp:416-420 | when the last segment arrives the mode is already StopMode, so the braking branch for lifting after a backward line is never taken |
| PlanRuns.AcceptedPlanRuns | controler/AgvMoveHelperForklift.cpp:214-446 | an accepted pose leads to one to five segments run in order and to one announcement exactly when all have completed |
| SegmentReplies.ArcIsReply | controler/AgvMoveHelperForklift.cpp:883-1213 | every call of an arc routine is one of the executor's replies: it arrives only when initialised, leaving initParaFlag false, and fails only before |
| SegmentReplies.RotationIsReply | controler/AgvMoveHelperForklift.cpp:1215-1460 | every call of a rotation routine is one of the executor's replies: it completes only when initialised, leaving both flags false, and never fails |
| SegmentReplies.LineIsReply | controler/AgvMoveHelperForklift.cpp:452-880 | every call of a line routine is one of the executor's replies: it arrives only when initialised, leaving both flags false and the mode StopMode, and fails only before |
| SegmentReplies.LiftStopsInRoutine | controler/AgvMoveHelperForklift.cpp:813-834 | a car that arrives backwards to lift is stopped by BackwardToLine, and LoopRunning adds no stop of its own |
| SpeedSpec.ManagedKeepsCurvature | controler/AgvMoveHelperForklift.cpp:1477-1547 | one ramp call keeps angular speed times radius equal to plus or minus the linear speed, whatever target and barrier |
| SpeedSpec.StandingLosesAngle | controler/AgvMoveHelperForklift.cpp:1477-1547 | one ramp call leaves the angular speed a number if and only if it was one and the car was not standing, by whose speed the code divides |
| SpeedSpec.NextGap | controler/AgvMoveHelperForklift.cpp:1495-1540 | without a barrier one call closes the gap by the active step and does not cross the target |
| SpeedSpec.RampGap | controler/AgvMoveHelperForklift.cpp:1495-1540 | n calls without a barrier close the gap by n active steps |
| SpeedSpec.RampReachesTarget | controler/AgvMoveHelperForklift.cpp:1477-1547 | without a barrier the speed is monotone, never overshoots, and is at the target, 0 included, after n calls if and only if n steps cover the gap |
| SpeedBounds.ChangeCloses | controler/AgvMoveHelperForklift.cpp:1690-1712 | n periods with the computed change close every gap if and only if n is at least 64 |
| SpeedBounds.PeriodsFor | controler/AgvMoveHelperForklift.cpp:1690-1712 | a gap below 960 is closed in steps of 15; one of 900 or more takes at least 60 periods |
| SpeedBounds.RampTakesAtMost64 | controler/AgvMoveHelperForklift.cpp:1477-1547 | a free ramp with the computed change is at its target after 64 control periods |
| SpeedSpec.RampKeepsAngle | controler/AgvMoveHelperForklift.cpp:1477-1547 | the angular speed survives n calls if and only if the car was moving before the last of them; a ramp to standstill loses it with the call after |
| SpeedSpec.BackwardReflectsForward | controler/AgvMoveHelperForklift.cpp:1517-1542 | the backward ramp is the forward ramp without barrier, reflected: backward driving ignores the barrier |
| SpeedSpec.BarrierCapsForward | controler/AgvMoveHelperForklift.cpp:1481-1492 | a barrier caps the forward speed at 300; the backward speed is within 300 if and only if the next step down or up, or the speed held, is |
| SpeedSpec.BackwardIgnoresBarrier | controler/AgvMoveHelperForklift.cpp:1517-1542 | under a barrier a backward car holds 500, and one starting an arc accelerates to 500 |
| SpeedSpec.StartOnCircle | controler/AgvMoveHelperForklift.cpp:926-961 | a started arc turns with the radius of its circle at plus or minus 150 |
| SpeedSpec.TickOnCircle | controler/AgvMoveHelperForklift.cpp:962-1039 | one call, under any barrier, keeps a running arc on its circle between 150 and 500 |
| SpeedSpec.ArcKeepsCircle | controler/AgvMoveHelperForklift.cpp:883-1042 | over whole runs, with failed starts, arrivals and restarts and any barriers: base angular speed times radius is plus or minus the linear speed, which stays in 150..500 and never reaches 0 |
| SpeedSpec.ArcSpeedsUp | controler/AgvMoveHelperForklift.cpp:1088-1122 | an undisturbed arc gains 30 per period forwards and 15 backwards until 500 |
| SpeedBounds.ArcTurnsItsWay | controler/AgvMoveHelperForklift.cpp:938-1122 | over whole runs the angular speed of a running arc times its radius is the linear speed, negated on a clockwise circle |
| SpeedBounds.ArcCodes | controler/AgvMoveHelperForklift.cpp:883-1213 | an arc routine fails if and only if it would start on the wrong side, leaving everything as it is, and arrives if and only if it was running and is there |
| SpeedBounds.ArcSlowsDown | controler/AgvMoveHelperForklift.cpp:975-1165 | from the call in which an arc run gets near its target the car loses 21 mm/s per control period forwards, backwards 15 when charging or lifting and 7 otherwise, until 150 |
| DriveControl.Drive.SetBarrierStatus | controler/AgvMoveHelperForklift.cpp:331-342 | the barrier status becomes the one reported |
| DriveControl.Drive.CalAspeed | controler/AgvMoveHelperForklift.cpp:1691-1701 | aspeed is a sixtieth of the gap and at least 15 |
| DriveControl.Drive.CalDspeed | controler/AgvMoveHelperForklift.cpp:1703-1712 | dspeed is a sixtieth of the gap and at least 15 |
| DriveControl.Drive.ManageWheelSpeed | controler/AgvMoveHelperForklift.cpp:1477-1547 | the fields after one call are those of the ramp, under the four branches and the barrier, a standing car included |
| DriveControl.Drive.ForwardToArc | controler/AgvMoveHelperForklift.cpp:883-1042 | one call of the forward arc on the fields and static locals it updates |
| DriveControl.Drive.BackwardToArc | controler/AgvMoveHelperForklift.cpp:1044-1213 | one call of the backward arc, braking softer unless charging or lifting |
| RotationSpec.UnwrapSample | controler/AgvMoveHelperForklift.cpp:1293-1303 | one sample is unwrapped to the true change if and only if that is below 90 degrees, or north was not crossed and it is at most 270 |
| RotationSpec.RotatedCongruent | controler/AgvMoveHelperForklift.cpp:1289-1307 | for any trace the sum stays congruent to the heading modulo 360 |
| RotationSpec.UnwrapsExactly | controler/AgvMoveHelperForklift.cpp:1289-1307 | below 90 degrees of true change per sample the sum is the true rotation, across any number of crossings of north |
| RotationSpec.NeedPositive | controler/AgvMoveHelperForklift.cpp:1306-1314 | the needed rotation is positive, so a rotation never completes in its first call |
| RotationSpec.RejectedStarts | controler/AgvMoveHelperForklift.cpp:1253-1287 | while the drive rejects the start nothing completes and nothing is summed |
| RotationSpec.CompletesAtFirst | controler/AgvMoveHelperForklift.cpp:1238-1348 | after any rejected starts completion is reported at the first sample whose sum reaches the needed angle; until then the speed never rises and stays within 50..400 |
| RotationSpec.TurnsAsAsked | controler/AgvMoveHelperForklift.cpp:1350-1460 | with true changes below 90 degrees, after any rejected starts, a car asked to turn by more than it coasts stops at the first sample from which coasting takes it to the angle, less than 90 degrees too far |
| RotationSpec.TurnsAThird | controler/AgvMoveHelperForklift.cpp:1305-1330 | asked to turn by no more than it coasts, it stops at the first sample at which it has truly turned a third of the angle |
| RotationSpeed.TurningSpeedSpec | controler/AgvMoveHelperForklift.cpp:1260-1270 | the starting speed is 35/9 mm/s per degree to turn, truncated, between 150 and 400 |
| RotationSpeed.FullSpeedUntilNear | controler/AgvMoveHelperForklift.cpp:1335-1343 | until at most 24 degrees are left and more than 55 percent, to the right 58, are done the starting speed is kept |
| RotationSpeed.FallsBySevenths | controler/AgvMoveHelperForklift.cpp:1335-1343 | from then on the speed falls with every further degree by a seventh of the excess over 50, and never below 50 |
| RotationSpeed.EightSlowdowns | controler/AgvMoveHelperForklift.cpp:1335-1343 | after seven slowdowns it is at most 56, after eight 50 |
| DriveControl.Drive.Rotate | controler/AgvMoveHelperForklift.cpp:1215-1232 | nothing for angle 0, left for negative, right for positive angles; the other side's locals stay |
| DriveControl.Drive.RotateLeft | controler/AgvMoveHelperForklift.cpp:1238-1348 | one call of the left rotation on fields and static locals |
| DriveControl.Drive.RotateRight | controler/AgvMoveHelperForklift.cpp:1350-1460 | one call of the right rotation on fields and static locals |
| DriveControl.Drive.ChangeRotateSpeedByAngle | controler/AgvMoveHelperForklift.cpp:1644-1685 | the first call fixes the step, later ones slow down by it per degree turned, down to 50 |
| Steering.TablesAscend | controler/AgvSteeringBaseControler.cpp:449-477 | both calibration tables run from -90 to 90, the set angles strictly; the feedback is strictly ascending for every car but 1001 |
| Steering.SegmentFound | controler/AgvSteeringBaseControler.cpp:494-503 | for every angle in [-90, 90) the search ends before the last entry, in a segment that is not flat |
| Steering.SegmentUnique | controler/AgvSteeringBaseControler.cpp:494-503 | an angle lies in one segment only, so stopping at the first loses nothing |
| Steering.CurveIncreasing | controler/AgvSteeringBaseControler.cpp:449-508 | the map is monotone into [-90, 90] and strictly increasing on [-90, 90], across the flat run too |
| Steering.FeedbackInverts | controler/AgvSteeringBaseControler.cpp:449-508 | interpolating the feedback at the angle to set gives back the requested angle exactly |
| Steering.SetAngleInverts | controler/AgvSteeringBaseControler.cpp:449-508 | a set angle is found again from its feedback if and only if its feedback segment is not flat |
| Steering.FlatRegion | controler/AgvSteeringBaseControler.cpp:451-461 | the set angles lost that way are exactly [-1, 1) of car 1001 |
| Steering.Interpolate | controler/AgvSteeringBaseControler.cpp:494-503 | the search loop computes the interpolation and never divides by zero or runs off the table |
| Steering.GetTransformedAngle | controler/AgvSteeringBaseControler.cpp:449-508 | the angle whose measured feedback is the requested one, within [-90, 90] |
| Steering.SetSteeringAngle | controler/AgvSteeringBaseControler.cpp:167-200 | what is sent has as feedback the requested angle plus offset, clamped once; the second clamp is the identity; nothing is sent without a motor |
| Steering.ConversionsScale | controler/AgvSteeringBaseControler.cpp:202-222 | the two speed expressions are multiplication by and division by 60*gearRatio/wheelLength, truncated |
| Steering.ConversionsMonotone | controler/AgvSteeringBaseControler.cpp:202-222 | both conversions are monotone, over negative speeds too |
| Steering.ConversionsOdd | controler/AgvSteeringBaseControler.cpp:202-222 | both conversions are odd |
| Steering.SpeedRoundTrip | controler/AgvSteeringBaseControler.cpp:202-222 | mm/s to rpm and back lies in (v - 1/c - 1, v] for v >= 0 and mirrored for v <= 0 |
| EventSpec.RunKeeps | event/AgvEventHelper.cpp:59-95 | in every interleaving of any producers with the one consumer the locked pop never meets an empty list, and per priority pushed = popped followed by pending |
| EventSpec.PopIsHighest | event/AgvEventHelper.cpp:79-95 | the event returned has at least the priority of every event pending when the scan began, and is the oldest of those of its own priority |
| EventSpec.NoneMeansEmpty | main/AgvMainLoop.cpp:86-118 | NULL is returned only if nothing was pending when the scan began |
| EventSpec.ScanEnds | event/AgvEventHelper.cpp:79-95 | a call ends after a bounded number of its own steps, however many events are pushed meanwhile |
| EventSpec.AloneIsPop | event/AgvEventHelper.cpp:79-95 | a call without interference is the plain PopEvent |
| EventSpec.DeleteBreaksPop | event/AgvEventHelper.cpp:97-123 | a deletion between test and pop breaks the pop if and only if it deletes every event of the tested list |
| EventSpec.DeletionCanBreak | event/AgvEventHelper.cpp:97-123 | a run that breaks |
| EventSpec.BreaksExactly | event/AgvEventHelper.cpp:59-123 | a run breaks if and only if a deletion between test and pop empties the tested list and nothing is filed there again before the pop |
| EventQueue.EventHelper.PushEvent | event/AgvEventHelper.cpp:59-77 | the event is appended to the list of its priority, above the highest to the urgent one; -1 and nothing for NULL |
| EventQueue.EventHelper.PopEvent | event/AgvEventHelper.cpp:79-95 | the head of the highest list that is not empty is taken; the others stay |
| EventQueue.EventHelper.DeleteEvent | event/AgvEventHelper.cpp:97-123 | exactly the events of that id are gone from all lists, order kept |
| EventQueue.EventHelper.ClearAll | event/AgvEventHelper.cpp:125-143 | all lists are empty |
| EventQueue.KeptInLevel | event/AgvEventHelper.cpp:97-123 | after a deletion no event of that id is left and every event is still under its priority |
| EventQueue.DrainsByPriority | event/AgvEventHelper.cpp:79-95 | popping until nothing is left yields urgent, important, normal, each in order of arrival |
| FirmwareTrace.ChunkAt | devices/canbus/AgvDownloadBin.cpp:255-301 | the i-th read yields eight bytes, or what is left at the end |
| FirmwareTrace.ChunksJoin | devices/canbus/AgvDownloadBin.cpp:135-301 | one copy of each chunk concatenates to the file |
| FirmwareTrace.CopiesOfDelivered | devices/canbus/AgvDownloadBin.cpp:33-99 | a delivered chunk was written, and taken by the bus, one to fifty times and nothing else with the data id |
| FirmwareTrace.CopiesOfAbandoned | devices/canbus/AgvDownloadBin.cpp:33-99 | a chunk given up on was written at most fifty-one times |
| FirmwarePolls.PollsOfDelivered | devices/canbus/AgvDownloadBin.cpp:33-99 | a chunk is delivered within 5000 polls, written once and again after every hundred silent ones |
| FirmwarePolls.PollsOfAbandoned | devices/canbus/AgvDownloadBin.cpp:33-99 | a chunk is given up after 5000 silent polls and 51 writes, or because its first write or a read failed or a reply disagreed |
| FirmwarePolls.AgreesByByte | devices/canbus/AgvDownloadBin.cpp:33-99 | a reply agrees if and only if every byte of it is that of the chunk, or 0 behind its end |
| FirmwareTrace.CopiesInOrder | devices/canbus/AgvDownloadBin.cpp:255-336 | the 0x11 log of delivered chunks is the chunks in order, each one to fifty times, whether refused writes are counted or not |
| FirmwareTrace.AcknowledgedBeforeNext | devices/canbus/AgvDownloadBin.cpp:304-336 | chunk i+1 is first written only after a reply that agrees with chunk i on its received length; up to there only chunks 0..i were written |
| FirmwareTrace.CollapsedRepeated | devices/canbus/AgvDownloadBin.cpp:33-99 | dropping repetitions from the log gives the same as dropping them from the chunks |
| FirmwareTrace.BoardRecovers | devices/canbus/AgvDownloadBin.cpp:255-336 | a receiver that drops repetitions among the writes the bus took recovers the chunks if and only if no two neighbouring chunks are equal |
| FirmwareTrace.EmptyReplyAcknowledges | devices/canbus/AgvDownloadBin.cpp:47-80 | a reply of length 0, as after a read that timed out, acknowledges every chunk |
| FirmwareTrace.ReplyDecides | devices/canbus/AgvDownloadBin.cpp:75-80 | an agreeing reply tells its chunk from all others of that length if and only if it is at least that long |
| FirmwareTrace.DeliveredEchoes | devices/canbus/AgvDownloadBin.cpp:304-336 | the replies that end successful deliveries agree with the chunks of the file, one each |
| FirmwareTrace.EchoesDecideFile | devices/canbus/AgvDownloadBin.cpp:304-336 | those replies fit no other file of that length if and only if each is at least as long as its chunk |
| FirmwareTrace.RepliesSpellFile | devices/canbus/AgvDownloadBin.cpp:304-336 | when every reply is that long, a successful transfer proves that the board has answered with the file, byte for byte |
| Firmware.Bus.Write | devices/canbus/AgvSocketCan.cpp:123-148 | more than eight bytes are refused; otherwise the bus decides, and the log says so |
| Firmware.Bus.Read | devices/canbus/AgvSocketCan.cpp:151-236 | a read returns whatever the bus does |
| Firmware.ReadDataToAckCheck | devices/canbus/AgvDownloadBin.cpp:33-99 | 0 only on a reply that agrees, -1 on an error, -2 on disagreement, -3 after 5000 silent polls; one repetition per hundred silent polls |
| Firmware.SendChunk | devices/canbus/AgvDownloadBin.cpp:304-336 | a chunk is delivered or abandoned |
| Firmware.SendChunks | devices/canbus/AgvDownloadBin.cpp:255-336 | deliveries of the first chunks and at most one abandoned attempt at the next, against any bus |
| Firmware.SendFile | devices/canbus/AgvDownloadBin.cpp:120-353 | files below 80 bytes are refused; success means every chunk delivered and then the end marker; failure is -1 with a log that stops at the chunk or marker that failed |
| Firmware.TransferComplete | devices/canbus/AgvDownloadBin.cpp:255-353 | on success: the chunks in order with one to fifty copies, attempted or taken by the bus, which make up the file, and the end marker once and last |
| RegistrySpec.IdsStayUnique | comm/AgvSocketServer.cpp:58-251 | in every reachable state each caller id occurs at most once, whatever the clients send |
| RegistrySpec.AnnounceSpec | comm/AgvSocketServer.cpp:193-251 | a keep-alive drops the caller's entry on another connection and appends the new one; nothing if it is known |
| RegistrySpec.KeepAliveBinds | comm/AgvSocketServer.cpp:193-251 | a keep-alive binds its id to the newest connection and leaves all other ids unchanged |
| CallerIds.AnnouncedIdIsRead | comm/AgvSocketServer.cpp:193-211 | the id read from a keep-alive is the one announced, most significant byte first, for all 65536 ids |
| CallerIds.AnnouncedIsFound | comm/AgvSocketServer.cpp:193-251 | in every reachable state a client that announces an id on an open connection is then found under it, and all other callers stay where they were |
| RegistrySpec.AnnounceFaithful | comm/AgvSocketServer.cpp:193-251 | entries stay distinct open connections if and only if the connection has not announced another id |
| RegistrySpec.DisconnectFaithful | comm/AgvSocketServer.cpp:145-176 | a disconnect keeps entries distinct and open |
| RegistryRuns.KnowsCallers | comm/AgvSocketServer.cpp:193-251 | while each connection keeps to one id, the registry knows for every open connection the id it announced last |
| RegistryRuns.FaithfulIffSingleIds | comm/AgvSocketServer.cpp:58-251 | the entries are distinct open connections in every state of a run if and only if each connection announces a single id between being accepted and being accepted again |
| RegistrySpec.LookupsInverse | comm/AgvSocketServer.cpp:268-315 | then the id and fd lookups are inverse to each other and find open connections only |
| RegistrySpec.TwoIdsGoStale | comm/AgvSocketServer.cpp:145-176 | a run with two ids on one connection after which the second id points to a closed, then to a stranger's connection |
| RegistryRuns.PassEndsLoop | comm/AgvSocketServer.cpp:66-183 | a pass over ready descriptors in ascending order ends the server loop if and only if a keep-alive in it closes a later ready one that nobody is given in between |
| RegistryRuns.PassCanEndLoop | comm/AgvSocketServer.cpp:66-183 | a reachable state and a pass over two ready descriptors that end the server loop: a caller comes back on a lower descriptor while its old connection has hung up |
| Registry.SocketServer.OnEvent | comm/AgvSocketServer.cpp:66-183 | the handling of one readable descriptor |
| Registry.SocketServer.OnOffline | comm/AgvSocketServer.cpp:145-176 | the connection is closed and its first entry removed; the loop ends if it was not open |
| Registry.SocketServer.ProcessKeepAliveData | comm/AgvSocketServer.cpp:193-251 | the scan over the list, with its break and its flag, does the keep-alive of the specification |
| Registry.SocketServer.GetCallerIdBasedOnFd | comm/AgvSocketServer.cpp:268-290 | the id of the first entry of the connection; -1 if there is none |
| Registry.SocketServer.FindConnection | comm/AgvSocketServer.cpp:299-315 | the connection of the first entry of the caller; -1 if there is none |
| Decimal.ParsePrint | utils/AgvXmlSetting.cpp:42-48 | atoi of a printed integer is that integer, for every integer |
| DecimalForms.PrintParse | utils/AgvXmlSetting.cpp:42-81 | a text is printed again as it was parsed if and only if it is a decimal number in its usual form |
| SettingsSpec.FirstOfWritten | utils/AgvXml.cpp:117-143 | writing through changes the first value of the one name and no other, with duplicate nodes too |
| SettingsSpec.AlwaysCoherent | utils/AgvXmlSetting.cpp:23-74 | after any loads, reads and saves the map is the first-occurrence map of the nodes in the file, so a reload changes nothing |
| SettingsSpec.IntDefaultSticks | utils/AgvXmlSetting.cpp:42-48 | a missing integer setting reads as its default now, and again after any operations that do not save it, reloads and changes of file included |
| SettingsSpec.SavedIntReadsBack | utils/AgvXmlSetting.cpp:76-81 | a saved integer is read back at once and after a reload; other settings keep their values |
| SettingsSpec.SaveStaysReadable | utils/AgvXml.cpp:48-59 | a save leaves a file that can be loaded again if and only if the value is not empty |
| SettingsSpec.StaysReadable | utils/AgvXmlSetting.cpp:23-81 | if no save and no default in a run is empty, every file can be loaded in every state of the run, so no load in it crashes |
| Settings.XmlSetting.LoadContents | utils/AgvXmlSetting.cpp:23-28 | the map is that of the file; -1 and empty if it does not exist |
| Settings.XmlSetting.ReadCfgData | utils/AgvXml.cpp:48-59 | the node loop collects the first value of each name |
| Settings.XmlSetting.WriteCfgData | utils/AgvXml.cpp:114-143 | the node loop sets every node of the name in place, or appends one |
| Settings.XmlSetting.GetSectionValue | utils/AgvXmlSetting.cpp:31-40 | the cached value, or the default, saved |
| Settings.XmlSetting.GetSectionInt | utils/AgvXmlSetting.cpp:42-48 | the same through decimal text |
| Settings.XmlSetting.SaveSectionValue | utils/AgvXmlSetting.cpp:69-74 | cache and file both hold the value |
| Settings.XmlSetting.SaveSectionInt | utils/AgvXmlSetting.cpp:76-81 | the same through decimal text |
| Settings.SetAllAt | utils/AgvXml.cpp:117-126 | every node of the name is replaced where it is; the others stay |

## Left out

- SchProtocol.Protocol.PackData: requires that payload and frame fit the buffers, which the source assumes without testing.
- SchProtocol.Protocol.UnPackData: frames whose decoded body is longer than the 2048-byte buffer are excluded, because the source overruns its buffer there.
- Bytes.Buffer2Bin: the lanes OR-ed together are disjoint, so OR is written as addition.
- CheckSum.GetCrc16: the table is any 256 words; of the repository's own only the five entries that CheckSumErrors.SourceEntries lists are stated.
- Stream.ParseReceiveData: collects what it would dispatch; the handlers themselves are not modelled. A length field that reaches behind the buffer delivers no payload, where the handlers would read memory whose contents are unknown.
- PathPlanner.Planner.SplitToSubTarget: stays in the frame of the target; the transforms from and to global and lidar coordinates, and the range test of the target's own angle, are not modelled. The distance of a single-step plan is taken from the unmirrored pose, which is the same number.
- PlanTheorems.PlanEntersAligned: excludes the inclined case, which enters its arc with the heading the car has; for that case PlanGeometry.InclineStart and PlanGeometry.InclineTangent state the same through the legs of the arc, since the heading is not compared with a bearing.
- PathExecutor.Executor.SetTarget: the sub-paths AttitudeAdjustToFork leaves for CarryGoods are an input.
- PathExecutor.Executor.RunSegment: the line, arc and rotation routines are replies here; the arc and rotation routines are modelled on their own in DriveControl, the line routines as flags and return codes in SegmentReplies.
- SpeedSpec.ArcKeepsCircle: float rounding in the repeated scaling of the angular speed is not modelled.
- DriveControl.Drive.ForwardToArc: takes from geometry only whether the car is on the wrong side, near or there, and the radius and way round of its circle.
- DriveControl.Drive.BackwardToArc: takes the same from geometry.
- DriveControl.Drive.RotateLeft: stopping, braking and sleeping on completion are not modelled.
- DriveControl.Drive.RotateRight: stopping, braking and sleeping on completion are not modelled.
- EventQueue.EventHelper.PushEvent: requires a priority that is not negative, with which the source indexes its lists.
- EventSpec.RunKeeps: one consumer, as in the main loop; reading a list for emptiness while another thread changes it is taken as atomic.
- Firmware.SendFile: starts behind the handshake, whose wait loop has no bound.
- RegistryRuns.FaithfulIffSingleIds: assumes that accept hands out descriptors that are not open and that data arrives on open connections only.
- RegistryRuns.PassEndsLoop: a read of a closed descriptor is taken to fail, and a connection accepted in the middle of a pass to be given a descriptor the model is told.
- SettingsSpec.AlwaysCoherent: assumes that files can be read and written and that values pass through the XML library unchanged; it runs through loads that crash, which SettingsSpec.StaysReadable rules out for runs without empty values.
- Settings.XmlSetting.LoadContents: requires that no node is empty, on which the source crashes.
- ExecSpec.ArrivedIsStopped: what the routine of the segment leaves on arrival is part of the reply; SegmentReplies proves that the routines behave like it.
- SegmentReplies.LineIsReply: whether a line start is on the wrong side, is accepted by the drive, or has arrived is an input; the speeds and the steering of ForwardToLine and BackwardToLine are left out.
- wheelControl, ForwardTest, RotateTest: tuning and field experiments.
- The class CAgvMoveHelperForklift is split into planner, executor and drive; fields shared between them are repeated, so interference through a shared field such as targetSpeed is not captured.
- Listener registration and dispatch of events, priority handling inside handlers, and event payload pointers.
- Double and bool settings: printing with "%f" loses digits; bool is the integer form.
- Sockets, select, CAN driver, HTTP, threads, signals, logging, SHA-1, JSON and sensor parsing.
