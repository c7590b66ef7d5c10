/** The C++ FUKinectTool: the two-player skeleton bookkeeping of a skeleton
    frame, the pressed flags and hand positions taken from an interaction
    frame, the per-player jump detector, the queries on those fields, the
    single-skeleton posture and lean predicates, the floor plane test and the
    header arithmetic of a saved bitmap. */
module NativeTool {
  import opened KinectTypes
  import JumpDetection
  import FUMath

  // ---------------------------------------------------------------------
  // Fixed-width integers of the Windows headers.

  /** LONG. */
  newtype i32 = x: int | -0x8000_0000 <= x < 0x8000_0000

  /** WORD. */
  newtype u16 = x: int | 0 <= x < 0x1_0000

  const TwoTo32: int := 0x1_0000_0000

  /** A conversion to DWORD: the value modulo 2^32. */
  function WrapU32(v: int): (r: u32)
    ensures (r as int - v) % TwoTo32 == 0
    ensures 0 <= v < TwoTo32 ==> r as int == v
  {
    (v % TwoTo32) as u32
  }

  /** A wrapping conversion to LONG (two's complement). */
  function WrapI32(v: int): (r: i32)
    ensures (r as int - v) % TwoTo32 == 0
    ensures -0x8000_0000 <= v < 0x8000_0000 ==> r as int == v
  {
    var m := v % TwoTo32;
    if m < 0x8000_0000 then m as i32 else (m - TwoTo32) as i32
  }

  /** The tracking id the tool stores for "no skeleton": -1 as an unsigned long. */
  const NoTrackingId: u32 := 0xFFFF_FFFF

  // ---------------------------------------------------------------------
  // Single-skeleton predicates.

  predicate IsSkeletonTracked(s: Skeleton) {
    s.trackingState == Tracked
  }

  /** Whether skeleton a stands to the right of skeleton b: false when neither
      is tracked, otherwise whether a's hip centre has the larger x. */
  predicate IsSkeletonOnRight(a: Skeleton, b: Skeleton) {
    if !IsSkeletonTracked(a) && !IsSkeletonTracked(b) then false
    else a.Joint(HipCenter).x > b.Joint(HipCenter).x
  }

  /** Of two skeletons at most one is on the right of the other, and with one
      of them tracked, the one with the larger hip-centre x is. */
  lemma IsSkeletonOnRightMeans(a: Skeleton, b: Skeleton)
    ensures IsSkeletonOnRight(a, b) ==> !IsSkeletonOnRight(b, a)
    ensures IsSkeletonOnRight(a, b) <==>
      (IsSkeletonTracked(a) || IsSkeletonTracked(b)) && a.Joint(HipCenter).x > b.Joint(HipCenter).x
  {
  }

  /** The threshold, in camera-space units, by which a raised hand must be
      above the head. */
  const HandAboveHead: real := 200.0

  predicate DetectRightHandUpPosture(s: Skeleton) {
    IsSkeletonTracked(s)
    && s.Joint(ElbowRight).y <= s.Joint(HandRight).y
    && s.Joint(HandRight).y - s.Joint(Head).y > HandAboveHead
  }

  predicate DetectLeftHandUpPosture(s: Skeleton) {
    IsSkeletonTracked(s)
    && s.Joint(ElbowLeft).y <= s.Joint(HandLeft).y
    && s.Joint(HandLeft).y - s.Joint(Head).y > HandAboveHead
  }

  predicate DetectBothHandsUp(s: Skeleton) {
    DetectRightHandUpPosture(s) && DetectLeftHandUpPosture(s)
  }

  predicate DetectLeftHandDownPosture(s: Skeleton) {
    IsSkeletonTracked(s)
    && s.Joint(ElbowLeft).y >= s.Joint(HandLeft).y
    && s.Joint(HandLeft).y < s.Joint(HipCenter).y
  }

  predicate DetectRightHandDownPosture(s: Skeleton) {
    IsSkeletonTracked(s)
    && s.Joint(ElbowRight).y >= s.Joint(HandRight).y
    && s.Joint(HandRight).y < s.Joint(HipCenter).y
  }

  /** A hand counts as up and down at once only on an elbow level with the
      hand and a hip more than the threshold above the head; both hands up
      is exactly the two single-hand tests. */
  lemma HandUpAndDownMeans(s: Skeleton)
    ensures DetectRightHandUpPosture(s) && DetectRightHandDownPosture(s) ==>
      s.Joint(ElbowRight).y == s.Joint(HandRight).y && s.Joint(HipCenter).y > s.Joint(Head).y + HandAboveHead
    ensures DetectLeftHandUpPosture(s) && DetectLeftHandDownPosture(s) ==>
      s.Joint(ElbowLeft).y == s.Joint(HandLeft).y && s.Joint(HipCenter).y > s.Joint(Head).y + HandAboveHead
    ensures DetectBothHandsUp(s) <==> DetectRightHandUpPosture(s) && DetectLeftHandUpPosture(s)
  {
  }

  /** The largest vertical offset, in camera-space units, between the joints
      of an open arm. */
  const ArmOffset: real := 150.0

  /** An open arm: shoulder, elbow and hand of the given side all within the
      offset of one another vertically. */
  predicate ArmOpen(s: Skeleton, hand: JointType, elbow: JointType, shoulder: JointType) {
    IsSkeletonTracked(s)
    && -ArmOffset <= s.Joint(shoulder).y - s.Joint(elbow).y <= ArmOffset
    && -ArmOffset <= s.Joint(hand).y - s.Joint(elbow).y <= ArmOffset
  }

  predicate DetectOpenRightArm(s: Skeleton) {
    ArmOpen(s, HandRight, ElbowRight, ShoulderRight)
  }

  /** As written, the left arm test reads the right arm's joints. */
  predicate DetectOpenLeftArm(s: Skeleton) {
    ArmOpen(s, HandRight, ElbowRight, ShoulderRight)
  }

  predicate DetectOpenArms(s: Skeleton) {
    DetectOpenLeftArm(s) && DetectOpenRightArm(s)
  }

  /** The left-arm test never differs from the right-arm test, so "open arms"
      is the right arm alone, and it ignores where the left arm is. */
  lemma OpenArmsIsRightArm(s: Skeleton, moved: Skeleton)
    requires moved.trackingState == s.trackingState
    requires moved.Joint(HandRight) == s.Joint(HandRight)
    requires moved.Joint(ElbowRight) == s.Joint(ElbowRight)
    requires moved.Joint(ShoulderRight) == s.Joint(ShoulderRight)
    ensures DetectOpenLeftArm(s) == DetectOpenRightArm(s)
    ensures DetectOpenArms(s) == DetectOpenRightArm(s)
    ensures DetectOpenArms(moved) == DetectOpenArms(s)
  {
  }

  /** The horizontal offset, in camera-space units, of the head from the hip
      centre for a lean. */
  const LeanOffset: real := 100.0

  /** As written, a lean is only reported for a skeleton that is not tracked. */
  predicate DetectLeanRight(s: Skeleton) {
    !IsSkeletonTracked(s)
    && s.Joint(Head).x > s.Joint(HipCenter).x
    && s.Joint(Head).x - s.Joint(HipCenter).x >= LeanOffset
  }

  predicate DetectLeanLeft(s: Skeleton) {
    !IsSkeletonTracked(s)
    && s.Joint(Head).x < s.Joint(HipCenter).x
    && s.Joint(HipCenter).x - s.Joint(Head).x >= LeanOffset
  }

  /** No tracked skeleton ever leans, and no skeleton leans both ways. */
  lemma LeanMeans(s: Skeleton)
    ensures IsSkeletonTracked(s) ==> !DetectLeanRight(s) && !DetectLeanLeft(s)
    ensures !(DetectLeanRight(s) && DetectLeanLeft(s))
    ensures DetectLeanRight(s) ==> s.Joint(Head).x >= s.Joint(HipCenter).x + LeanOffset
    ensures DetectLeanLeft(s) ==> s.Joint(Head).x <= s.Joint(HipCenter).x - LeanOffset
  {
  }

  // ---------------------------------------------------------------------
  // The floor plane.

  /** The C++ visibility test: every coefficient of the plane is non-zero. */
  predicate FloorVisible(plane: Plane) {
    plane.a != 0.0 && plane.b != 0.0 && plane.c != 0.0 && plane.d != 0.0
  }

  /** The C++ test is stricter than "not the all-zero plane": a visible floor
      is never the zero plane, but a level floor plane (0, 1, 0, d) with one
      zero coefficient already counts as invisible. */
  lemma FloorVisibleStricter()
    ensures forall p: Plane :: FloorVisible(p) ==> p != ZeroPlane
    ensures exists p: Plane :: p != ZeroPlane && !FloorVisible(p)
  {
    var level := Plane(0.0, 1.0, 0.0, 1.5);
    assert level != ZeroPlane && !FloorVisible(level);
  }

  // ---------------------------------------------------------------------
  // The bitmap headers written by saveBitmapToFile.

  const BitmapType: u16 := 0x4D42
  const InfoHeaderSize: u32 := 40
  const FileHeaderSize: u32 := 14
  const RgbCompression: u32 := 0

  datatype BitmapHeaders = BitmapHeaders(
    bfType: u16, bfSize: u32, bfOffBits: u32,
    biSize: u32, biWidth: i32, biHeight: i32, biPlanes: u16,
    biBitCount: u16, biCompression: u32, biSizeImage: u32)

  /** The two headers for a width, a height and a pixel size, with the
      32-bit wrap-around of the byte count, the negated height and the sizes. */
  function BitmapHeadersFor(width: i32, height: i32, bitsPerPixel: u16): (r: BitmapHeaders)
    ensures r.bfType == BitmapType && r.biPlanes == 1 && r.biCompression == RgbCompression
    ensures r.biSize == InfoHeaderSize && r.bfOffBits as int == InfoHeaderSize as int + FileHeaderSize as int
    ensures r.biWidth == width && r.biBitCount == bitsPerPixel
    ensures (r.biSizeImage as int - width as int * height as int * (bitsPerPixel as int / 8)) % TwoTo32 == 0
    ensures (r.bfSize as int - r.bfOffBits as int - r.biSizeImage as int) % TwoTo32 == 0
    ensures (r.biHeight as int + height as int) % TwoTo32 == 0
  {
    var byteCount := WrapU32(width as int * height as int * (bitsPerPixel as int / 8));
    var offBits := WrapU32(InfoHeaderSize as int + FileHeaderSize as int);
    BitmapHeaders(
      BitmapType, WrapU32(offBits as int + byteCount as int), offBits,
      InfoHeaderSize, width, WrapI32(-(height as int)), 1,
      bitsPerPixel, RgbCompression, byteCount)
  }

  /** Without overflow, the image size is width·height·bytes per pixel, the
      file size adds the 54 header bytes, and the height is stored negated
      (top-down rows). */
  lemma BitmapHeadersExact(width: i32, height: i32, bitsPerPixel: u16)
    requires 0 <= width as int * height as int * (bitsPerPixel as int / 8)
    requires width as int * height as int * (bitsPerPixel as int / 8) + 54 < TwoTo32
    requires height as int > -0x8000_0000
    ensures BitmapHeadersFor(width, height, bitsPerPixel).biSizeImage as int
      == width as int * height as int * (bitsPerPixel as int / 8)
    ensures BitmapHeadersFor(width, height, bitsPerPixel).bfSize as int
      == width as int * height as int * (bitsPerPixel as int / 8) + 54
    ensures BitmapHeadersFor(width, height, bitsPerPixel).biHeight as int == -(height as int)
  {
  }

  /** The colour stream size the tool is built with. */
  const ColorWidth: i32 := 1280
  const ColorHeight: i32 := 960

  /** The screenshot of a 32-bit colour frame: 4915200 pixel bytes and a file
      of 4915254 bytes. */
  lemma ScreenshotHeaders()
    ensures BitmapHeadersFor(ColorWidth, ColorHeight, 32).biSizeImage == 4915200
    ensures BitmapHeadersFor(ColorWidth, ColorHeight, 32).bfSize == 4915254
    ensures BitmapHeadersFor(ColorWidth, ColorHeight, 32).biHeight == -960
  {
    BitmapHeadersExact(ColorWidth, ColorHeight, 32);
  }

  // ---------------------------------------------------------------------
  // The two player slots.

  datatype Player = PlayerOne | PlayerTwo

  /** Which player a tracking id belongs to: player one when slot one holds a
      skeleton with that id, otherwise player two when slot two does. */
  function Owner(one: Option<Skeleton>, two: Option<Skeleton>, id: u32): (r: Option<Player>)
    ensures r == Some(PlayerOne) <==> one.Some? && one.value.trackingId == id
    ensures r == Some(PlayerTwo) <==> !(one.Some? && one.value.trackingId == id) && two.Some? && two.value.trackingId == id
  {
    if one.Some? && id == one.value.trackingId then Some(PlayerOne)
    else if two.Some? && id == two.value.trackingId then Some(PlayerTwo)
    else None
  }

  /** The slots, the stored ids and the "left the scene" marker. */
  datatype Bookkeeping = Bookkeeping(
    one: Option<Skeleton>, two: Option<Skeleton>,
    oneId: u32, twoId: u32, leftScene: Skeletons)

  /** How one frame's tracked skeletons, in slot order, are assigned to the
      players. */
  function Assigned(prev: Bookkeeping, tracked: seq<Skeleton>): (r: Bookkeeping)
    ensures r.one.Some? <==> |tracked| == 1 || |tracked| == 2
    ensures r.two.Some? <==> |tracked| == 2
    ensures r.one.None? ==> r == prev.(one := None, two := None, leftScene := BothSkeletons)
    ensures |tracked| == 1 ==> r.one == Some(tracked[0]) && r.oneId == tracked[0].trackingId
    ensures |tracked| == 1 && prev.oneId == NoTrackingId ==>
      r.leftScene == prev.leftScene && r.twoId == prev.twoId
    ensures |tracked| == 1 && prev.oneId != NoTrackingId ==>
      (r.leftScene == SkeletonTwo <==> tracked[0].trackingId == prev.oneId)
      && (r.leftScene == SkeletonOne <==> tracked[0].trackingId != prev.oneId)
      && (r.twoId == if tracked[0].trackingId == prev.oneId then NoTrackingId else prev.twoId)
    ensures |tracked| == 2 ==>
      r.leftScene == NoSkeleton
      && multiset{r.one.value, r.two.value} == multiset(tracked)
      && r.oneId == r.one.value.trackingId && r.twoId == r.two.value.trackingId
    ensures |tracked| == 2 && (IsSkeletonTracked(tracked[0]) || IsSkeletonTracked(tracked[1])) ==>
      r.one.value.Joint(HipCenter).x >= r.two.value.Joint(HipCenter).x
  {
    if |tracked| == 1 then
      var s := tracked[0];
      var pair :=
        if prev.oneId == NoTrackingId then (prev.leftScene, prev.twoId)
        else if s.trackingId == prev.oneId then (SkeletonTwo, NoTrackingId)
        else (SkeletonOne, prev.twoId);
      Bookkeeping(Some(s), None, s.trackingId, pair.1, pair.0)
    else if |tracked| == 2 then
      assert tracked == [tracked[0], tracked[1]];
      var (first, second) :=
        if IsSkeletonOnRight(tracked[0], tracked[1]) then (tracked[0], tracked[1])
        else (tracked[1], tracked[0]);
      Bookkeeping(Some(first), Some(second), first.trackingId, second.trackingId, NoSkeleton)
    else
      prev.(one := None, two := None, leftScene := BothSkeletons)
  }

  /** What the slots hold after any frame: tracked skeletons of that frame,
      two different slots of it when both are filled, slot two only beside
      slot one, player one the one further right, and the stored ids those of
      the skeletons in the slots. */
  predicate SlotsValid(b: Bookkeeping) {
    (b.two.Some? ==> b.one.Some?)
    && (b.one.Some? ==> IsSkeletonTracked(b.one.value) && b.oneId == b.one.value.trackingId)
    && (b.two.Some? ==> IsSkeletonTracked(b.two.value) && b.twoId == b.two.value.trackingId)
    && (b.one.Some? && b.two.Some? ==> b.one.value.Joint(HipCenter).x >= b.two.value.Joint(HipCenter).x)
  }

  /** Assigning a frame's skeletons fills the slots validly, with skeletons
      taken from the frame's own slots; two filled slots come from different
      slots of the frame. */
  lemma AssignedFromFrame(prev: Bookkeeping, skeletons: seq<Skeleton>)
    ensures SlotsValid(Assigned(prev, TrackedOf(skeletons)))
    ensures Assigned(prev, TrackedOf(skeletons)).one.Some? ==> Assigned(prev, TrackedOf(skeletons)).one.value in skeletons
    ensures Assigned(prev, TrackedOf(skeletons)).two.Some? ==> Assigned(prev, TrackedOf(skeletons)).two.value in skeletons
    ensures Assigned(prev, TrackedOf(skeletons)).one.Some? <==> CountTracked(skeletons) == 1 || CountTracked(skeletons) == 2
  {
    var tracked := TrackedOf(skeletons);
    var r := Assigned(prev, tracked);
    TrackedOfLength(skeletons);
    if r.one.Some? {
      assert r.one.value in multiset(tracked) by {
        if |tracked| == 2 {
          assert r.one.value in multiset{r.one.value, r.two.value};
        }
      }
      TrackedOfMembers(skeletons, r.one.value);
    }
    if r.two.Some? {
      assert r.two.value in multiset{r.one.value, r.two.value};
      assert r.two.value in multiset(tracked);
      TrackedOfMembers(skeletons, r.two.value);
    }
  }

  // ---------------------------------------------------------------------
  // Interaction frames.

  /** One hand pointer of an interaction frame: whether it is the user's
      primary hand, whether it is pressed, and its position. */
  datatype HandPointerInfo = HandPointerInfo(primaryForUser: bool, pressed: bool, x: real, y: real)

  /** One user of an interaction frame; tracking id 0 is an empty entry. */
  datatype UserInfo = UserInfo(skeletonTrackingId: u32, handPointerInfos: seq<HandPointerInfo>)

  /** The fields that an interaction frame updates. */
  datatype Interaction = Interaction(
    pressedOne: bool, pressedTwo: bool,
    positionOne: FUMath.Vector2, positionTwo: FUMath.Vector2)

  /** The hand position a pointer reports: its own for the primary hand, the
      origin otherwise. */
  function PointerPosition(hand: HandPointerInfo): FUMath.Vector2 {
    if hand.primaryForUser then FUMath.Vector2(hand.x, hand.y) else FUMath.Zero
  }

  function PressedOf(st: Interaction, p: Player): bool {
    if p == PlayerOne then st.pressedOne else st.pressedTwo
  }

  function PositionOf(st: Interaction, p: Player): FUMath.Vector2 {
    if p == PlayerOne then st.positionOne else st.positionTwo
  }

  /** One hand pointer of a user owned by the given player, if any. */
  function HandStep(st: Interaction, owner: Option<Player>, hand: HandPointerInfo): Interaction {
    match owner
    case None => st
    case Some(PlayerOne) => st.(pressedOne := hand.pressed, positionOne := PointerPosition(hand))
    case Some(PlayerTwo) => st.(pressedTwo := hand.pressed, positionTwo := PointerPosition(hand))
  }

  function HandsFold(st: Interaction, owner: Option<Player>, hands: seq<HandPointerInfo>): Interaction {
    if hands == [] then st
    else HandStep(HandsFold(st, owner, hands[..|hands| - 1]), owner, hands[|hands| - 1])
  }

  /** One user of the frame: skipped when its id is 0. */
  function UserStep(st: Interaction, one: Option<Skeleton>, two: Option<Skeleton>, user: UserInfo): Interaction {
    if user.skeletonTrackingId == 0 then st
    else HandsFold(st, Owner(one, two, user.skeletonTrackingId), user.handPointerInfos)
  }

  function UsersFold(st: Interaction, one: Option<Skeleton>, two: Option<Skeleton>, users: seq<UserInfo>): Interaction {
    if users == [] then st
    else UserStep(UsersFold(st, one, two, users[..|users| - 1]), one, two, users[|users| - 1])
  }

  /** The hand pointers, in frame order, of the users a player owns. */
  function OwnedHands(one: Option<Skeleton>, two: Option<Skeleton>, users: seq<UserInfo>, p: Player): seq<HandPointerInfo> {
    if users == [] then []
    else
      var u := users[|users| - 1];
      OwnedHands(one, two, users[..|users| - 1], p)
        + (if u.skeletonTrackingId != 0 && Owner(one, two, u.skeletonTrackingId) == Some(p) then u.handPointerInfos else [])
  }

  /** Within one user, the owning player's flag and position are those of the
      user's last hand pointer; the other player's are untouched. */
  lemma {:induction false} HandsFoldLast(st: Interaction, owner: Option<Player>, hands: seq<HandPointerInfo>, p: Player)
    ensures PressedOf(HandsFold(st, owner, hands), p)
      == if owner == Some(p) && hands != [] then hands[|hands| - 1].pressed else PressedOf(st, p)
    ensures PositionOf(HandsFold(st, owner, hands), p)
      == if owner == Some(p) && hands != [] then PointerPosition(hands[|hands| - 1]) else PositionOf(st, p)
  {
    if hands != [] {
      HandsFoldLast(st, owner, hands[..|hands| - 1], p);
    }
  }

  /** After a whole interaction frame, each player's pressed flag and hand
      position are those of the last hand pointer of the users that player
      owns, and stay as they were when the frame has none. */
  lemma {:induction false} UsersFoldLast(st: Interaction, one: Option<Skeleton>, two: Option<Skeleton>, users: seq<UserInfo>, p: Player)
    ensures var hs := OwnedHands(one, two, users, p);
      PressedOf(UsersFold(st, one, two, users), p) == if hs == [] then PressedOf(st, p) else hs[|hs| - 1].pressed
    ensures var hs := OwnedHands(one, two, users, p);
      PositionOf(UsersFold(st, one, two, users), p) == if hs == [] then PositionOf(st, p) else PointerPosition(hs[|hs| - 1])
  {
    if users != [] {
      var init := users[..|users| - 1];
      var u := users[|users| - 1];
      UsersFoldLast(st, one, two, init, p);
      if u.skeletonTrackingId != 0 {
        HandsFoldLast(UsersFold(st, one, two, init), Owner(one, two, u.skeletonTrackingId), u.handPointerInfos, p);
      }
    }
  }

  // ---------------------------------------------------------------------
  // The tool.

  class KinectTool {
    var skeletonFrame: SkeletonFrame
    var skeletonDataOne: Option<Skeleton>
    var skeletonOneTrackingId: u32
    var skeletonDataTwo: Option<Skeleton>
    var skeletonTwoTrackingId: u32
    var skeletonLeftScene: Skeletons
    var isPressedPlayerOne: bool
    var isGrippingPlayerOne: bool
    var jumpedPlayerOne: bool
    var isPressedPlayerTwo: bool
    var isGrippingPlayerTwo: bool
    var jumpedPlayerTwo: bool
    var skeletonOneHandPosition: FUMath.Vector2
    var skeletonTwoHandPosition: FUMath.Vector2

    function Slots(): Bookkeeping
      reads this
    {
      Bookkeeping(skeletonDataOne, skeletonDataTwo, skeletonOneTrackingId, skeletonTwoTrackingId, skeletonLeftScene)
    }

    function Interactions(): Interaction
      reads this
    {
      Interaction(isPressedPlayerOne, isPressedPlayerTwo, skeletonOneHandPosition, skeletonTwoHandPosition)
    }

    /** The slots are consistent, and no gripping flag is ever set. */
    ghost predicate Valid()
      reads this
    {
      SlotsValid(Slots()) && !isGrippingPlayerOne && !isGrippingPlayerTwo
    }

    /** The member initialisers: empty slots, no ids, no flags, hand positions
      at the origin and an empty frame with the zero floor plane. */
    constructor ()
      ensures Valid()
      ensures Slots() == Bookkeeping(None, None, NoTrackingId, NoTrackingId, NoSkeleton)
      ensures Interactions() == Interaction(false, false, FUMath.Zero, FUMath.Zero)
      ensures !jumpedPlayerOne && !jumpedPlayerTwo
      ensures skeletonFrame == SkeletonFrame(ZeroPlane, [])
    {
      skeletonFrame := SkeletonFrame(ZeroPlane, []);
      skeletonDataOne, skeletonDataTwo := None, None;
      skeletonOneTrackingId, skeletonTwoTrackingId := NoTrackingId, NoTrackingId;
      skeletonLeftScene := NoSkeleton;
      isPressedPlayerOne, isPressedPlayerTwo := false, false;
      isGrippingPlayerOne, isGrippingPlayerTwo := false, false;
      jumpedPlayerOne, jumpedPlayerTwo := false, false;
      skeletonOneHandPosition := FUMath.Zero;
      skeletonTwoHandPosition := FUMath.Zero;
    }

    /** The next skeleton frame, or None when the sensor has none: the tracked
      skeletons, in slot order, are assigned to the players. */
    method ProcessSkeleton(frame: Option<SkeletonFrame>)
      requires Valid()
      modifies this`skeletonFrame, this`skeletonDataOne, this`skeletonDataTwo
      modifies this`skeletonOneTrackingId, this`skeletonTwoTrackingId, this`skeletonLeftScene
      ensures Valid()
      ensures frame.None? ==> Slots() == old(Slots()) && skeletonFrame == old(skeletonFrame)
      ensures frame.Some? ==> skeletonFrame == frame.value
      ensures frame.Some? ==> Slots() == Assigned(old(Slots()), TrackedOf(frame.value.skeletons))
    {
      if frame.None? {
        return;
      }
      skeletonFrame := frame.value;
      var skeletons := frame.value.skeletons;
      var skeletonVector: seq<Skeleton> := [];
      var i := 0;
      while i < |skeletons|
        invariant 0 <= i <= |skeletons|
        invariant skeletonVector == TrackedOf(skeletons[..i])
      {
        assert skeletons[..i + 1][..i] == skeletons[..i];
        if skeletons[i].trackingState == Tracked {
          skeletonVector := skeletonVector + [skeletons[i]];
        }
        i := i + 1;
      }
      assert skeletons[..i] == skeletons;
      skeletonDataOne := None;
      skeletonDataTwo := None;
      if |skeletonVector| == 1 {
        skeletonDataOne := Some(skeletonVector[0]);
        if skeletonOneTrackingId != NoTrackingId {
          if skeletonVector[0].trackingId == skeletonOneTrackingId {
            skeletonLeftScene := SkeletonTwo;
            skeletonTwoTrackingId := NoTrackingId;
          } else {
            skeletonLeftScene := SkeletonOne;
            skeletonOneTrackingId := NoTrackingId;
          }
        }
        skeletonOneTrackingId := skeletonVector[0].trackingId;
      } else if |skeletonVector| == 2 {
        skeletonLeftScene := NoSkeleton;
        if IsSkeletonOnRight(skeletonVector[0], skeletonVector[1]) {
          skeletonDataOne := Some(skeletonVector[0]);
          skeletonDataTwo := Some(skeletonVector[1]);
          skeletonOneTrackingId := skeletonVector[0].trackingId;
          skeletonTwoTrackingId := skeletonVector[1].trackingId;
        } else {
          skeletonDataOne := Some(skeletonVector[1]);
          skeletonOneTrackingId := skeletonVector[1].trackingId;
          skeletonDataTwo := Some(skeletonVector[0]);
          skeletonTwoTrackingId := skeletonVector[0].trackingId;
        }
      }
      if skeletonDataOne.None? && skeletonDataTwo.None? {
        skeletonLeftScene := BothSkeletons;
      }
      AssignedFromFrame(old(Slots()), skeletons);
    }

    /** The hand pointers of one user of an interaction frame. */
    method ProcessUserHands(userId: u32, hands: seq<HandPointerInfo>)
      modifies this`isPressedPlayerOne, this`isPressedPlayerTwo
      modifies this`skeletonOneHandPosition, this`skeletonTwoHandPosition
      ensures Interactions() == HandsFold(old(Interactions()), Owner(skeletonDataOne, skeletonDataTwo, userId), hands)
    {
      var j := 0;
      while j < |hands|
        invariant 0 <= j <= |hands|
        invariant Interactions() == HandsFold(old(Interactions()), Owner(skeletonDataOne, skeletonDataTwo, userId), hands[..j])
      {
        assert hands[..j + 1][..j] == hands[..j];
        var hand := hands[j];
        if hand.primaryForUser {
          if skeletonDataOne.Some? && userId == skeletonDataOne.value.trackingId {
            skeletonOneHandPosition := skeletonOneHandPosition.(x := hand.x);
            skeletonOneHandPosition := skeletonOneHandPosition.(y := hand.y);
          } else if skeletonDataTwo.Some? && userId == skeletonDataTwo.value.trackingId {
            skeletonTwoHandPosition := skeletonTwoHandPosition.(x := hand.x);
            skeletonTwoHandPosition := skeletonTwoHandPosition.(y := hand.y);
          }
        } else {
          if skeletonDataOne.Some? && userId == skeletonDataOne.value.trackingId {
            skeletonOneHandPosition := skeletonOneHandPosition.(x := 0.0);
            skeletonOneHandPosition := skeletonOneHandPosition.(y := 0.0);
          } else if skeletonDataTwo.Some? && userId == skeletonDataTwo.value.trackingId {
            skeletonTwoHandPosition := skeletonTwoHandPosition.(x := 0.0);
            skeletonTwoHandPosition := skeletonTwoHandPosition.(y := 0.0);
          }
        }
        if hand.pressed {
          if skeletonDataOne.Some? && userId == skeletonDataOne.value.trackingId {
            isPressedPlayerOne := true;
          } else if skeletonDataTwo.Some? && userId == skeletonDataTwo.value.trackingId {
            isPressedPlayerTwo := true;
          }
        } else {
          if skeletonDataOne.Some? && userId == skeletonDataOne.value.trackingId {
            isPressedPlayerOne := false;
          } else if skeletonDataTwo.Some? && userId == skeletonDataTwo.value.trackingId {
            isPressedPlayerTwo := false;
          }
        }
        j := j + 1;
      }
      assert hands[..j] == hands;
    }

    /** The next interaction frame, or None when the stream has none. */
    method ProcessInteraction(frame: Option<seq<UserInfo>>)
      requires Valid()
      modifies this`isPressedPlayerOne, this`isPressedPlayerTwo
      modifies this`skeletonOneHandPosition, this`skeletonTwoHandPosition
      ensures Valid()
      ensures frame.None? ==> Interactions() == old(Interactions())
      ensures frame.Some? ==> Interactions() == UsersFold(old(Interactions()), skeletonDataOne, skeletonDataTwo, frame.value)
    {
      if frame.None? {
        return;
      }
      var users := frame.value;
      var i := 0;
      while i < |users|
        invariant 0 <= i <= |users|
        invariant Valid()
        invariant Interactions() == UsersFold(old(Interactions()), skeletonDataOne, skeletonDataTwo, users[..i])
      {
        assert users[..i + 1][..i] == users[..i];
        var user := users[i];
        if user.skeletonTrackingId != 0 {
          ProcessUserHands(user.skeletonTrackingId, user.handPointerInfos);
        }
        i := i + 1;
      }
      assert users[..i] == users;
    }

    /** Whether the player with this tracking id is pressing; false for an id
      no player has. */
    function DetectPush(skeletonTrackingId: u32): (r: bool)
      reads this
      ensures r <==> match Owner(skeletonDataOne, skeletonDataTwo, skeletonTrackingId)
                     case Some(p) => PressedOf(Interactions(), p)
                     case None => false
    {
      if skeletonDataOne.Some? && skeletonTrackingId == skeletonDataOne.value.trackingId then isPressedPlayerOne
      else if skeletonDataTwo.Some? && skeletonTrackingId == skeletonDataTwo.value.trackingId then isPressedPlayerTwo
      else false
    }

    /** Whether the player with this tracking id is gripping. */
    function DetectGrip(skeletonTrackingId: u32): (r: bool)
      reads this
      ensures Valid() ==> !r
    {
      if skeletonDataOne.Some? && skeletonTrackingId == skeletonDataOne.value.trackingId then isGrippingPlayerOne
      else if skeletonDataTwo.Some? && skeletonTrackingId == skeletonDataTwo.value.trackingId then isGrippingPlayerTwo
      else false
    }

    /** The hand position of the player with this tracking id; the origin for
      an id no player has. */
    function GetHandPosition(skeletonTrackingId: u32): (r: FUMath.Vector2)
      reads this
      ensures r == match Owner(skeletonDataOne, skeletonDataTwo, skeletonTrackingId)
                   case Some(p) => PositionOf(Interactions(), p)
                   case None => FUMath.Zero
    {
      if skeletonDataOne.Some? && skeletonTrackingId == skeletonDataOne.value.trackingId then skeletonOneHandPosition
      else if skeletonDataTwo.Some? && skeletonTrackingId == skeletonDataTwo.value.trackingId then skeletonTwoHandPosition
      else FUMath.Zero
    }

    predicate IsFloorVisible()
      reads this
    {
      FloorVisible(skeletonFrame.floorClipPlane)
    }

    /** The distance of a joint from the floor of the last frame, or -1 when
      that floor is not visible. */
    function GetDistanceFromFloor(jointPosition: Point): (r: real)
      reads this
      ensures IsFloorVisible() ==> r == PlaneValue(skeletonFrame.floorClipPlane, jointPosition)
      ensures !IsFloorVisible() ==> r == -1.0
    {
      if !IsFloorVisible() then -1.0
      else
        var plane := skeletonFrame.floorClipPlane;
        plane.a * jointPosition.x + plane.b * jointPosition.y + plane.c * jointPosition.z + plane.d
    }

    /** One call of the jump detector for a skeleton: the flag of the player
      owning it drives the rising-edge machine, and only that player's flag
      changes. The tool reads slot one, and slot two when slot one does not
      match, without a null check, so those must be filled. */
    method DetectJumping(skeletonData: Skeleton) returns (didJump: bool)
      requires skeletonDataOne.Some?
      requires skeletonData.trackingId != skeletonDataOne.value.trackingId ==> skeletonDataTwo.Some?
      modifies this`jumpedPlayerOne, this`jumpedPlayerTwo
      ensures !IsFloorVisible() ==> !didJump && jumpedPlayerOne == old(jumpedPlayerOne) && jumpedPlayerTwo == old(jumpedPlayerTwo)
      ensures IsFloorVisible() ==>
        var owner := Owner(skeletonDataOne, skeletonDataTwo, skeletonData.trackingId);
        var playerJump := match owner
                          case Some(PlayerOne) => old(jumpedPlayerOne)
                          case Some(PlayerTwo) => old(jumpedPlayerTwo)
                          case None => false;
        var step := JumpDetection.JumpStep(playerJump,
          PlaneValue(skeletonFrame.floorClipPlane, skeletonData.Joint(FootLeft)),
          PlaneValue(skeletonFrame.floorClipPlane, skeletonData.Joint(FootRight)));
        didJump == step.didJump
        && jumpedPlayerOne == (if owner == Some(PlayerOne) then step.jumped else old(jumpedPlayerOne))
        && jumpedPlayerTwo == (if owner == Some(PlayerTwo) then step.jumped else old(jumpedPlayerTwo))
    {
      var playerJump := false;
      if skeletonData.trackingId == skeletonDataOne.value.trackingId {
        playerJump := jumpedPlayerOne;
      } else if skeletonData.trackingId == skeletonDataTwo.value.trackingId {
        playerJump := jumpedPlayerTwo;
      }
      didJump := false;
      if !IsFloorVisible() {
        return false;
      }
      if playerJump && GetDistanceFromFloor(skeletonData.Joint(FootLeft)) < JumpDetection.LandingHeight
        && GetDistanceFromFloor(skeletonData.Joint(FootRight)) < JumpDetection.LandingHeight
      {
        if skeletonData.trackingId == skeletonDataOne.value.trackingId {
          jumpedPlayerOne := false;
        } else if skeletonData.trackingId == skeletonDataTwo.value.trackingId {
          jumpedPlayerTwo := false;
        }
        return false;
      }
      if playerJump {
        return false;
      }
      if !playerJump && GetDistanceFromFloor(skeletonData.Joint(FootLeft)) > JumpDetection.TakeOffHeight
        && GetDistanceFromFloor(skeletonData.Joint(FootRight)) > JumpDetection.TakeOffHeight
      {
        if skeletonData.trackingId == skeletonDataOne.value.trackingId {
          jumpedPlayerOne := true;
        } else if skeletonData.trackingId == skeletonDataTwo.value.trackingId {
          jumpedPlayerTwo := true;
        }
        didJump := true;
      }
    }
  }
}
