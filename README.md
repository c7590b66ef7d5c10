# FUKinectTool in Dafny

FUKinectTool is a small toolkit for the Kinect sensor, in one C# library and one C++ class.
Once the sensor SDK is taken away, it is a deterministic decision engine over
camera-space joint coordinates. This project models that engine and proves what it computes.

- **`Helper`** (C# `FUKinectHelper`):
  - colours a depth frame by player index into a B/G/R/unused byte buffer, in place;
  - selects the tracked skeletons of a skeleton frame;
  - computes the signed distance of a joint above the floor clip plane.
- **`Gestures`** (C# `FUHandGestureDetector`):
  - the left and right swipe state machines. Each keeps a start time and an "armed" flag. The clock is an injected millisecond value; the "today" sentinel is `None`.
  - grip detection, which remembers the latest non-`None` hand event per user and side;
  - press detection. Both grip and press build a dictionary of dictionaries. A repeated key, which makes C# `Dictionary.Add` throw, is modelled as a `DuplicateKey` outcome.
- **`Postures`** (C# `FUPostureDetector`):
  - all single-frame posture predicates;
  - the floor-based crouching, standing and foot-up tests;
  - the jump detector, an object with a `jumped` flag.
- **`JumpDetection`**: the rising-edge jump machine that both languages implement. The feet must rise above 0.06 to take off and fall below 0.02 to land. The lemmas cover runs of frames.
- **`NativeTool`** (C++ `FUKinectTool`):
  - the two-player bookkeeping of `processSkeleton`;
  - the pressed flags and hand positions set by `processInteraction`;
  - the per-player `detectJumping`;
  - `detectPush`, `detectGrip` and `getHandPosition`;
  - the posture and lean predicates and the all-coefficients-non-zero floor test;
  - the header arithmetic of `saveBitmapToFile`, with 32-bit wrap-around written out.
- **`FUMath`** (`FUVector2<T>` of FUMath.h, over the reals):
  - the operators that build values are functions on a `Vector2` datatype;
  - the operators that assign x and y are methods of the class `Vector2Object`.
- **`KinectTypes`**:
  - points, planes, the twenty joints, skeletons and frames;
  - the enumerations of FUKinectTool.h;
  - the order-preserving filter of tracked skeletons.

The sensor, the clock and the interaction stream are inputs, as follows:
- Frames, interaction frames and event arguments are parameters. `None` stands for a null frame or a failed `HRESULT`.
- The current time is a millisecond parameter.
- The player-index bitmask is a bit width.

Behaviour the model keeps exactly as written:
- The C++ `detectOpenLeftArm` reads the right arm's joints.
- The C++ lean tests return false for every tracked skeleton.
- In the C++ code, a jump by a skeleton that belongs to neither player is still reported, but no flag is kept for it.
- On a duplicate key, the C# grip detector keeps the events it stored before the throw.

The two floor tests disagree:
- C# counts the floor as visible when any plane coefficient is non-zero.
- C++ requires all four coefficients to be non-zero.
- `NativeTool.FloorVisibleStricter` proves that the C++ test is the stricter one.

Specification and code also disagree in places; the code is followed:
- C# `IsFloorVisible` and `GetDistanceFromFloor` dereference the event before any null check, so they take a non-null event. The posture methods that check it take an `Option`.
- The swipe methods read `DateTime.Now` twice per call. The model uses one `now` per call.

## Model

| member | source | states |
|---|---|---|
| KinectTypes.TrackedOf | FUKinectTool.cs:190-195 | the filtered list is no longer than the frame and holds only tracked skeletons |
| KinectTypes.TrackedOfAppend | FUKinectTool.cs:190-195 | filtering distributes over concatenation, so the frame's order is kept |
| KinectTypes.TrackedOfMembers | FUKinectTool.cs:190-195 | a skeleton is in the result exactly when it is in the frame and tracked |
| KinectTypes.TrackedOfLength | FUKinectTool.cs:190 | the length of the result is the number of tracked slots (the LINQ count) |
| KinectTypes.CountTracked | FUKinectTool.cs:190 | the number of slots whose state is Tracked (the LINQ `Count()`) |
| KinectTypes.JointIndex | FUKinectTool.h:65-86 | each joint of SKELETON_JOINTS has a slot below the joint count 20 |
| KinectTypes.JointIndexInjective | FUKinectTool.h:65-86 | distinct joints have distinct slots, so no two joints share a stored position |
| Helper.Pow2 | FUKinectTool.cs:150 | the bitmask modulus is positive |
| Helper.PlayerIndex | FUKinectTool.cs:150 | the player index of a depth value lies below 2^width |
| Helper.PixelByte | FUKinectTool.cs:150-170 | a colour byte is min(p³ + offset, 255) for a player pixel and 0 for background, with offsets 100/180/200 for B/G/R |
| Helper.Colorized | FUKinectTool.cs:148-172 | colouring keeps the buffer length |
| Helper.ColorizedPlayerPixel | FUKinectTool.cs:150-164 | bytes 4i, 4i+1, 4i+2 of a player pixel become min(p³+100,255), min(p³+180,255), min(p³+200,255) |
| Helper.ColorizedBackgroundPixel | FUKinectTool.cs:166-171 | a pixel with player 0 becomes (0, 0, 0) |
| Helper.ColorizedUntouched | FUKinectTool.cs:148 | byte 4i+3 and every byte at or past 4·min(depth length, buffer length / 4) keep their values |
| Helper.ColorizeInto | FUKinectTool.cs:148-172 | the in-place loop leaves the buffer equal to `Colorized` of its old contents |
| Helper.ColorPixel | FUKinectTool.cs:150-170 | one pixel's three colour bytes are written and no other byte changes |
| Helper.ColorizedByPixels | FUKinectTool.cs:148-172 | a buffer agreeing pixel by pixel with the colours, and unchanged elsewhere, is the coloured buffer |
| Helper.KinectHelper.constructor | FUKinectTool.cs:21-31 | no colour buffer and no depth data yet |
| Helper.KinectHelper.GenerateColoredPixels | FUKinectTool.cs:136-175 | a missing buffer is allocated at width·height·4; the returned buffer is the coloured old buffer and stays the helper's buffer |
| Helper.GetTrackedSkeletons | FUKinectTool.cs:182-198 | null frame gives null; otherwise null exactly when no skeleton is tracked, else the tracked skeletons in slot order |
| Helper.IsFloorVisible | FUKinectTool.cs:204-217 | the frame exists and its floor plane is not all zero |
| Helper.GetDistanceFromFloor | FUKinectTool.cs:223-244 | the plane value a·x+b·y+c·z+d for a visible floor, -1 otherwise |
| JumpDetection.JumpStep | FUKinectTool.cs:580-592 | a jump is reported exactly when the flag was clear and both feet are above 0.06; the flag is then set, and it stays set until both feet are below 0.02 |
| JumpDetection.NeverTwiceInARow | FUKinectTool.cs:580-592 | no two consecutive calls both report a jump |
| JumpDetection.FlagFallsOnlyOnLanding | FUKinectTool.cs:582-586 | over a run of frames the flag only clears on a frame with both feet down |
| JumpDetection.LandingBetweenJumps | FUKinectTool.cs:580-592 | between any two reported jumps there is a landing frame |
| Gestures.SwipeStep | FUKinectTool.cs:298-356 | one call of a swipe detector: the guards, the arming on the outer side of the shoulder, and the timed crossing of the shoulder centre; models the right-swipe method at FUKinectTool.cs:362-420 too, with the other hand |
| Gestures.SwipeGuardResets | FUKinectTool.cs:306-331 | a hand below its elbow, above the head, below the hip centre or too far outside its shoulder resets the start time and the armed flag and reports nothing |
| Gestures.SwipeDetection | FUKinectTool.cs:298-356 | a swipe is reported exactly when a skeleton is given, the hand is between elbow, head and hip centre and not too far out, the detector is armed or the hand is outside its shoulder, the hand has crossed the shoulder centre and 100 < elapsed < 1000 ms; a report resets the detector |
| Gestures.SwipeStepConsistent | FUKinectTool.cs:288-292 | a start time is kept exactly while the machine is armed |
| Gestures.SwipeRunConsistent | FUKinectTool.cs:288-292 | a start time is kept exactly while armed after any run of calls from the initial state |
| Gestures.SwipeStartIsArmingTime | FUKinectTool.cs:332-338 | a stored start time is the time of an earlier call at which the hand was outside its shoulder |
| Gestures.SwipeNeedsTimedSweep | FUKinectTool.cs:339-353 | every reported swipe has an earlier call, between 100 and 1000 ms before, at which the hand was outside its shoulder |
| Gestures.RememberRecall | FUKinectTool.cs:452-460 | storing a non-None event for a user and side changes only that entry |
| Gestures.GripHands | FUKinectTool.cs:449-463 | the inner loop of DetectGripping: store a hand's non-None event, then add the recalled event under the hand type, stopping at a repeated type |
| Gestures.GripHandsStaysDuplicate | FUKinectTool.cs:449-463 | once a hand type repeats, the rest of the user's hands change nothing (the Add has thrown) |
| Gestures.GripHandsKeys | FUKinectTool.cs:449-463 | a user's dictionary fails exactly on a repeated hand type; otherwise its keys are the user's hand types |
| Gestures.GripHandsRemembersLatest | FUKinectTool.cs:452-460 | the memory for a side ends with the latest non-None event of that side |
| Gestures.GripHandsReportsLatest | FUKinectTool.cs:452-463 | each reported event is the latest non-None event stored for that user and side, or None when there is none |
| Gestures.GripUsers | FUKinectTool.cs:441-467 | the outer loop of DetectGripping over the frame's users, skipping users that are not reportable and stopping at a repeated id |
| Gestures.GripUsersStaysDuplicate | FUKinectTool.cs:441-467 | after a throw the rest of the frame changes nothing |
| Gestures.GripUsersKeys | FUKinectTool.cs:441-467 | the reported user ids are exactly those of users with a non-zero id, some hand pointers and not exactly two pointers of hand type None |
| Gestures.GripHandsOtherIds | FUKinectTool.cs:452-460 | one user's hands never change the events stored for another id |
| Gestures.GripUsersOtherIds | FUKinectTool.cs:441-467 | a frame whose reportable users all have other ids leaves an id's stored events unchanged |
| Gestures.GripUsersReportsLatest | FUKinectTool.cs:441-467 | without a throw, the report of every hand of every reportable user is the latest non-None event of that user's side up to that hand, falling back on the event stored before the frame |
| Gestures.PressHands | FUKinectTool.cs:499-508 | the inner loop of DetectPressing: add each hand type's pressed flag, stopping at a repeated type |
| Gestures.PressHandsReports | FUKinectTool.cs:499-508 | a user's press dictionary fails exactly on a repeated hand type; otherwise it maps each hand type to its pressed flag |
| Gestures.PressUsers | FUKinectTool.cs:489-511 | the outer loop of DetectPressing over the frame's reportable users, stopping at a repeated id |
| Gestures.PressUsersStaysDuplicate | FUKinectTool.cs:489-511 | after a throw the rest of the frame changes nothing |
| Gestures.PressUsersKeys | FUKinectTool.cs:489-511 | the reported ids are exactly the reportable users, each mapped to its hands' dictionary |
| Gestures.PressUserHands | FUKinectTool.cs:499-508 | the inner loop builds the user's press dictionary or stops at the duplicate |
| Gestures.PressHandsStaysDuplicate | FUKinectTool.cs:499-508 | after a throw the user's remaining hands change nothing |
| Gestures.HandGestureDetector.constructor | FUKinectTool.cs:288-292 | both swipe detectors idle, empty event memories |
| Gestures.HandGestureDetector.DetectSwipeLeftGesture | FUKinectTool.cs:298-356 | the right hand's start time and flag move as one swipe step on the right hand, and the result is its report |
| Gestures.HandGestureDetector.DetectSwipeRightGesture | FUKinectTool.cs:362-420 | the left hand's start time and flag move as one swipe step on the left hand, and the result is its report |
| Gestures.HandGestureDetector.GripUserHands | FUKinectTool.cs:449-463 | one user's hands update the memories and build that user's dictionary |
| Gestures.HandGestureDetector.DetectGripping | FUKinectTool.cs:433-470 | a null frame reports null and keeps the memories; otherwise memories and result follow the grip fold, including the throw |
| Gestures.HandGestureDetector.DetectPressing | FUKinectTool.cs:481-514 | a null frame reports null; otherwise the result follows the press fold, including the throw |
| Postures.DetectGreaterPosture | FUKinectTool.cs:527-542 | the ">" sign: the left hand not outside and at least 0.2 above the left shoulder, the right hand within 0.1 of the left hip's height and not right of it |
| Postures.DetectLesserPosture | FUKinectTool.cs:548-562 | the "<" sign: the right hand at least 0.2 right of the right hip, the left hand right of and at least 0.2 above the right shoulder |
| Postures.GreaterLesserSigns | FUKinectTool.cs:527-562 | for a user facing the sensor the two signs never hold together; for an upright body the ">" sign holds the left hand at least 0.1 above the right hand |
| Postures.DetectRightFootUpPosture | FUKinectTool.cs:600-614 | the right foot further above the floor than the right knee's distance divided by 2.4; false without a visible floor |
| Postures.DetectLeftFootUpPosture | FUKinectTool.cs:621-635 | the same for the left foot and knee |
| Postures.DetectLeftHandUpPosture | FUKinectTool.cs:641-654 | the left hand not below its elbow and at or above the head |
| Postures.DetectRightHandUpPosture | FUKinectTool.cs:660-673 | the right hand not below its elbow and at or above the head |
| Postures.DetectLeftHandDownPosture | FUKinectTool.cs:679-692 | the left hand not above its elbow and below the head |
| Postures.DetectRightHandDownPosture | FUKinectTool.cs:698-711 | the right hand not above its elbow and below the head |
| Postures.DetectBothHandsUpPosture | FUKinectTool.cs:717-720 | both single-hand up tests |
| Postures.HandUpDownExclusive | FUKinectTool.cs:641-711 | a hand is never both up and down |
| Postures.BothHandsUpMeans | FUKinectTool.cs:717-720 | both hands up is the conjunction of the two single-hand conditions |
| Postures.DetectOpenRightArm | FUKinectTool.cs:772-793 | the right elbow within 0.1 of the shoulder's height and the hand within 0.1 of the elbow's |
| Postures.DetectOpenLeftArm | FUKinectTool.cs:799-820 | the same for the left arm with tolerance 0.15 |
| Postures.DetectOpenArms | FUKinectTool.cs:826-834 | both open-arm tests |
| Postures.OpenArmIsShoulderHigh | FUKinectTool.cs:772-834 | an open arm keeps the hand within 0.2 (right) or 0.3 (left) of the shoulder's height, so it is never a raised hand while the head is further than that above the shoulder |
| Postures.DetectCrouching | FUKinectTool.cs:841-851 | the right hip or the left knee at most 0.3 from the floor, where an invisible floor gives -1 |
| Postures.CrouchingWhenFloorInvisible | FUKinectTool.cs:841-851 | with no visible floor, crouching is always reported, because -1 ≤ 0.3 |
| Postures.DetectStanding | FUKinectTool.cs:858-884 | on a visible floor: both feet within 0.03 of it, the knees not below the feet, the head not below the hip centre, the hip centre not further from the sensor than the head |
| Postures.StandingIsNoTakeOff | FUKinectTool.cs:572-593 | a standing skeleton never starts a jump, and a clear jump flag stays clear |
| Postures.RaisedFootIsNotStanding | FUKinectTool.cs:600-635 | a raised foot over a knee above the floor is itself above it; over a knee at least 0.072 above the floor it rules out standing |
| Postures.FloorPosturesNeedFloor | FUKinectTool.cs:600-635 | without a visible floor, neither foot is up and nobody stands |
| Postures.DetectBendOver | FUKinectTool.cs:890-903 | the shoulder centre not below the hip centre, and the body position further from the sensor than the head by more than half the shoulder-to-hip height |
| Postures.BendOverMeans | FUKinectTool.cs:890-903 | bending over needs the shoulder centre no lower than the hip centre and the body further from the sensor than the head |
| Postures.DetectCrossPosture | FUKinectTool.cs:962-968 | both arms' slash tests |
| Postures.DetectSlashPosture | FUKinectTool.cs:974-994 | the right arm's slash with the left hand at or below the hip centre, or else the left arm's with the right hand at or below it |
| Postures.DetectSlashPostureForRightArm | FUKinectTool.cs:1000-1016 | the right hand not right of its elbow and 0.15 to 0.45 above it |
| Postures.DetectSlashPostureForLeftArm | FUKinectTool.cs:1022-1038 | the left hand not left of its elbow and 0.15 to 0.45 above it |
| Postures.SlashMeans | FUKinectTool.cs:962-1038 | a slash is one slashing arm with the other hand at or below the hip centre; a cross is a slash exactly when its left hand is at or below the hip centre; a slashing right hand is 0.15 to 0.45 above its elbow |
| Postures.DetectMinusPostureForRightArm | FUKinectTool.cs:1044-1063 | the left hand at or below the hip centre, the right hand at or above it, within 0.1 of its elbow's height and not right of it |
| Postures.DetectMinusPostureForLeftArm | FUKinectTool.cs:1069-1088 | the mirror test for the left arm |
| Postures.DetectMinusPosture | FUKinectTool.cs:1094-1104 | either arm's minus test |
| Postures.MinusBothArmsOnlyAtHipHeight | FUKinectTool.cs:1044-1104 | both minus arms at once force both hands to hip height |
| Postures.DetectPlusPosture | FUKinectTool.cs:1110-1133 | both hands over their elbows and the hip centre, crossed, with the elbow and hand alignment tests of the higher and lower hand |
| Postures.PlusMeans | FUKinectTool.cs:1110-1133 | the plus posture's hands are above elbows and hip, crossed right over left |
| Postures.SignsExclusive | FUKinectTool.cs:974-1133 | an arm never shows a slash and a minus at once; a plus meets a minus or a slash only with a hand exactly at the hip centre's height |
| Postures.Moved | FUKinectTool.cs:527-1133 | the same skeleton seen from a sensor placed elsewhere: every joint and the body position moved by one offset |
| Postures.PosturesIgnoreSensorPlacement | FUKinectTool.cs:527-1133 | the greater, lesser, hand up and down, open arms, bend-over, slash, cross, minus and plus tests are unchanged when every joint moves by the same offset |
| Postures.PostureDetector.constructor | FUKinectTool.cs:565 | the jump flag starts clear |
| Postures.PostureDetector.DetectJumping | FUKinectTool.cs:572-593 | without a skeleton or a floor nothing is reported and the flag is kept; otherwise flag and report follow `JumpStep` on the feet's heights |
| NativeTool.WrapU32 | FUKinectTool.cpp:360 | a DWORD conversion agrees with its argument modulo 2^32, and equals it when it fits |
| NativeTool.WrapI32 | FUKinectTool.cpp:368 | a LONG conversion agrees with its argument modulo 2^32, and equals it when it fits |
| NativeTool.IsSkeletonTracked | FUKinectTool.cpp:467-470 | the skeleton's state is tracked |
| NativeTool.IsSkeletonOnRight | FUKinectTool.cpp:472-482 | false when neither skeleton is tracked, else whether a's hip centre has the larger x |
| NativeTool.IsSkeletonOnRightMeans | FUKinectTool.cpp:472-482 | false when neither is tracked, else a's hip-centre x is the larger; never true both ways |
| NativeTool.DetectRightHandUpPosture | FUKinectTool.cpp:484-498 | tracked, the right hand not below its elbow and more than 200 above the head |
| NativeTool.DetectLeftHandUpPosture | FUKinectTool.cpp:500-514 | the same for the left hand |
| NativeTool.DetectBothHandsUp | FUKinectTool.cpp:516-519 | both up tests |
| NativeTool.DetectLeftHandDownPosture | FUKinectTool.cpp:521-535 | tracked, the left hand not above its elbow and below the hip centre |
| NativeTool.DetectRightHandDownPosture | FUKinectTool.cpp:537-551 | the same for the right hand |
| NativeTool.HandUpAndDownMeans | FUKinectTool.cpp:484-551 | up and down together need an elbow level with the hand and the hip more than 200 above the head; both hands up is the two up tests |
| NativeTool.DetectOpenRightArm | FUKinectTool.cpp:553-574 | tracked, with shoulder-to-elbow and hand-to-elbow heights within 150 |
| NativeTool.DetectOpenLeftArm | FUKinectTool.cpp:576-597 | the same test on the right arm's joints, as written |
| NativeTool.DetectOpenArms | FUKinectTool.cpp:599-602 | both open-arm tests |
| NativeTool.OpenArmsIsRightArm | FUKinectTool.cpp:553-602 | the left-arm test equals the right-arm test, open arms equals the right arm, and left-arm joints never matter |
| NativeTool.DetectLeanRight | FUKinectTool.cpp:624-634 | not tracked, with the head at least 100 right of the hip centre |
| NativeTool.DetectLeanLeft | FUKinectTool.cpp:636-646 | not tracked, with the head at least 100 left of the hip centre |
| NativeTool.LeanMeans | FUKinectTool.cpp:624-646 | a tracked skeleton never leans; no skeleton leans both ways; a lean is a head at least 100 off the hip centre |
| NativeTool.FloorVisible | FUKinectTool.cpp:710-719 | all four plane coefficients non-zero |
| NativeTool.FloorVisibleStricter | FUKinectTool.cpp:710-719 | a visible floor is never the zero plane, but some non-zero planes count as invisible |
| NativeTool.BitmapHeadersFor | FUKinectTool.cpp:360-376 | the header constants (0x4D42, 1 plane, BI_RGB, 40/14/54 bytes) and, modulo 2^32, byte count w·h·(bpp/8), negated height, file size 54 + byte count |
| NativeTool.BitmapHeadersExact | FUKinectTool.cpp:360-376 | without overflow those values hold exactly |
| NativeTool.ScreenshotHeaders | FUKinectTool.cpp:441 | a 1280×960 32-bit screenshot has 4915200 pixel bytes, a 4915254-byte file and height -960 |
| NativeTool.Owner | FUKinectTool.cpp:604-612 | an id belongs to player one if slot one holds it, else to player two if slot two does |
| NativeTool.Assigned | FUKinectTool.cpp:302-334 | zero or more than two tracked skeletons empty both slots with BOTH_SKELETONS. One fills slot one and sets its id, with SKELETON_TWO for the known id and SKELETON_ONE otherwise. Two fill both slots, the one further right first, with NONE |
| NativeTool.AssignedFromFrame | FUKinectTool.cpp:292-334 | after any frame the slots hold tracked skeletons of that frame with matching ids, player one not left of player two; slot one is filled exactly when one or two are tracked |
| NativeTool.HandStep | FUKinectTool.cpp:200-231 | one hand pointer: for the owning player, the pressed flag and the position (the pointer's for a primary hand, the origin otherwise) |
| NativeTool.HandsFold | FUKinectTool.cpp:197-231 | the loop over one user's hand pointers |
| NativeTool.UserStep | FUKinectTool.cpp:195-232 | one user of the frame, skipped when its tracking id is 0 |
| NativeTool.UsersFold | FUKinectTool.cpp:194-232 | the loop over the frame's users |
| NativeTool.HandsFoldLast | FUKinectTool.cpp:197-231 | one user's pointers leave the owning player's flag and position as its last pointer's, others untouched |
| NativeTool.UsersFoldLast | FUKinectTool.cpp:194-231 | after a frame, each player's pressed flag and hand position are those of the last pointer of the users it owns, unchanged when there is none |
| NativeTool.KinectTool.constructor | FUKinectTool.cpp:3-24 | empty slots, ids -1, no flags, hand positions at the origin, left scene NONE |
| NativeTool.KinectTool.ProcessSkeleton | FUKinectTool.cpp:283-338 | a failed read changes nothing; otherwise the frame is kept and the slots follow `Assigned` on its tracked skeletons, keeping the slots valid |
| NativeTool.KinectTool.ProcessUserHands | FUKinectTool.cpp:197-231 | one user's pointers update the fields as the per-user fold |
| NativeTool.KinectTool.ProcessInteraction | FUKinectTool.cpp:187-249 | a failed read changes nothing; otherwise flags and positions follow the frame fold |
| NativeTool.KinectTool.DetectPush | FUKinectTool.cpp:604-612 | the owning player's pressed flag, false for an unknown id |
| NativeTool.KinectTool.DetectGrip | FUKinectTool.cpp:614-622 | always false, since the gripping flags are never set |
| NativeTool.KinectTool.GetHandPosition | FUKinectTool.cpp:774-782 | the owning player's hand position, the origin for an unknown id |
| NativeTool.KinectTool.GetDistanceFromFloor | FUKinectTool.cpp:721-737 | the plane value for a visible floor, -1 otherwise |
| NativeTool.KinectTool.DetectJumping | FUKinectTool.cpp:740-772 | with no visible floor nothing changes. Otherwise report and owner's flag follow `JumpStep` on that player's flag; the other flag is kept |
| FUMath.Index | FUMath.h:103-109 | the const `operator[]`: 0 gives x, 1 gives y |
| FUMath.Add | FUMath.h:116-118 | component-wise sum |
| FUMath.Sub | FUMath.h:124-126 | component-wise difference |
| FUMath.Mul | FUMath.h:132-134 | component-wise product |
| FUMath.Div | FUMath.h:140-142 | component-wise quotient |
| FUMath.AddScalar | FUMath.h:189-191 | a scalar added to both coordinates |
| FUMath.SubScalar | FUMath.h:197-199 | a scalar subtracted from both coordinates |
| FUMath.MulScalar | FUMath.h:205-207 | both coordinates times a scalar |
| FUMath.DivScalar | FUMath.h:213-215 | both coordinates over a scalar |
| FUMath.Neg | FUMath.h:283-285 | both coordinates negated |
| FUMath.Equals | FUMath.h:265-267 | both coordinates closer than epsilon |
| FUMath.NotEquals | FUMath.h:274-276 | the negation of `Equals` |
| FUMath.LengthSquare | FUMath.h:342-344 | the squared length is never negative |
| FUMath.LengthSquareLaws | FUMath.h:342-344 | negation keeps it; scaling by s multiplies it by s²; the origin has 0 |
| FUMath.LinearInterpolation | FUMath.h:355-357 | this vector plus (r minus this vector) times the factor |
| FUMath.ComponentWise | FUMath.h:116-142 | every vector and scalar operator and negation acts coordinate by coordinate as seen through `operator[]` |
| FUMath.NegInvolution | FUMath.h:283-285 | -(-v) = v |
| FUMath.LinearInterpolationEnds | FUMath.h:355-357 | factor 0 gives this vector, factor 1 gives r |
| FUMath.EqualityLaws | FUMath.h:265-276 | `!=` is the negation of `==`; epsilon equality is symmetric and, for positive epsilon, reflexive |
| FUMath.Vector2Object.constructor | FUMath.h:32-35 | the default vector is (0, 0) |
| FUMath.Vector2Object.FromCoordinates | FUMath.h:41-52 | the vector holds the given coordinates |
| FUMath.Vector2Object.Assign | FUMath.h:79-83 | assignment copies both coordinates |
| FUMath.Vector2Object.CombineAssign | FUMath.h:148-182 | each compound operator with a vector leaves the receiver equal to the binary result |
| FUMath.Vector2Object.CombineScalarAssign | FUMath.h:221-255 | each compound operator with a scalar leaves the receiver equal to the binary result |
| FUMath.Vector2Object.SetX | FUMath.h:324-326 | only x changes |
| FUMath.Vector2Object.SetY | FUMath.h:332-334 | only y changes |
| FUMath.Vector2Object.SetAt | FUMath.h:89-95 | a write through index 0 or 1 changes that coordinate only |

## Left out

- Sensor and driver plumbing: this covers `createFirstConnected`, `StatusProcCallback`, `updateSensor`, `processColor`, `processDepth`, `safeReleaseSensor`, the C# bitmap getters, and the kinect status field. These are hardware SDK calls, so frames and planes are inputs instead.
- `NuiTransformSmooth`, called by `processSkeleton`, `isFloorVisible` and `getDistanceFromFloor`, is SDK smoothing. The model uses the frame as delivered.
- In C++ the player slots are pointers into the stored frame. The model copies the skeleton values into the slots, so aliasing with later frames is not modelled.
- File and image I/O is not modelled: `TakeColorPicture`, `TakeDepthPicture`, `getScreenshotFileName`, the `CreateFileW`/`WriteFile` part of `saveBitmapToFile`, and the `WritePixels` calls. Only the header arithmetic is modelled.
- The angle code uses transcendental floating point: `DetectRightHandAngle`, `DetectLeftHandAngle`, `getRightHandAngle`, `getLeftHandAngle`, and `FUVector2::length`/`normalize`.
- Coordinates and thresholds are reals, so float and double rounding is not modelled. `Math.Pow(player, 3)` is the integer cube.
- Helper.PlayerIndex: `PlayerIndexBitmask` is a Kinect SDK constant defined outside this repository (7, three bits). The model takes it as a bit width of at most 10. A width above 10 would make the cube overflow `Convert.ToInt32`, which is not modelled.
- Helper.KinectHelper.GenerateColoredPixels: `CopyPixelDataTo` into a depth buffer that was allocated once for an earlier frame size is not modelled. The depth data of the new frame replaces the old data whatever its length.
- Helper.GetTrackedSkeletons: the method filters in one pass. It does not count first and then take each `ElementAt(i)` of the filtered sequence; both give the same array. The model also does not fix the six slots that `CopySkeletonDataTo` fills.
- Gestures: the swipe clock is one millisecond value per call. In C# `DateTime.Now` is read once for the elapsed-time check and again when the start time is stored. The midnight roll-over of `DateTime.Today` is not modelled.
- Gestures: the `_userInfosGripping`/`_userInfosPressing` buffers and `CopyInteractionDataTo` are SDK copying. The user infos are the input sequence.
- NativeTool.KinectTool.ProcessInteraction: the hand pointer state is two booleans, "primary for user" and "pressed". The bit values of `NUI_HANDPOINTER_STATE` are defined by the Kinect SDK, not by this code. The hand-event `switch` that only prints is left out.
- `checkForSkeletonVisibility` and `getSkeletonCount` have no effect on the modelled state. `getSkeletonCount` only counts and prints, and `TrackedOf`/`CountTracked` cover that count.
- The interaction client stubs (`FUIInteractionClient`, `DummyInteractionClient` and the `NuiInteractionClient` COM methods) return constants.
- The `FUVector2` pointer conversions, `operator<<`, `toString` and the casting copy constructor and assignment are representation details. `getX`/`getY` are the datatype's fields.
- FUMath.Div, FUMath.DivScalar, FUMath.Vector2Object.CombineAssign and FUMath.Vector2Object.CombineScalarAssign require non-zero divisors. The floating-point infinities and NaNs of dividing by zero are not modelled.
- FUMath.LengthSquare: the converse "zero only at the origin" is not stated.
- NativeTool.BitmapHeadersFor: `LONG` multiplication overflow is undefined in C++. The model takes the two's-complement wrap to 32 bits.
- NativeTool.KinectTool.DetectJumping: the C++ code reads the tracking id of slot one, and of slot two when slot one does not match, without a null check. The method therefore requires those slots to be filled. With an empty slot the C++ behaviour is undefined.
- Every `e.OpenSkeletonFrame()` on one event is taken to give the same frame (`e.frame`). The C# floor tests open the frame more than once per call. For example, `GetDistanceFromFloor` opens it and then calls `IsFloorVisible(e)`, which opens it again inside the first `using`. Every floor posture test repeats these opens. The model of all the C# floor classifiers relies on those opens agreeing.
