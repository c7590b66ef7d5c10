/** FUPostureDetector of FUKinectTool.cs: single-frame posture predicates over
    the joints of one skeleton (null skeletons give false), the floor-relative
    foot, crouch and stand checks, and the jump detector with its _jumped flag.
    The detector's own IsFloorVisible and GetDistanceFromFloor are the same
    as the helper's, so the helper's are used. */
module Postures {
  import opened KinectTypes
  import opened JumpDetection
  import Helper

  import FUMath

  predicate DetectGreaterPosture(skeleton: Option<Skeleton>) {
    skeleton.Some? &&
    var sk := skeleton.value;
    var leftHand, rightHand := sk.Joint(HandLeft), sk.Joint(HandRight);
    var leftHip, leftShoulder := sk.Joint(HipLeft), sk.Joint(ShoulderLeft);
    !(leftHand.x > leftShoulder.x || leftHand.y - leftShoulder.y < 0.2) &&
    !(FUMath.Abs(rightHand.y - leftHip.y) > 0.1 || rightHand.x > leftHip.x)
  }

  predicate DetectLesserPosture(skeleton: Option<Skeleton>) {
    skeleton.Some? &&
    var sk := skeleton.value;
    var leftHand, rightHand := sk.Joint(HandLeft), sk.Joint(HandRight);
    var rightHip, rightShoulder := sk.Joint(HipRight), sk.Joint(ShoulderRight);
    !(rightHand.x - rightHip.x < 0.2) &&
    !(leftHand.x < rightShoulder.x || leftHand.y - rightShoulder.y < 0.2)
  }

  /** The two signs seen from the sensor. For a user facing it (the left
      shoulder at a smaller x than the right one) they never hold together:
      the greater sign keeps the left hand outside the left shoulder, the
      lesser sign beyond the right one. For an upright body (the left
      shoulder over the left hip) the greater sign raises the left hand at
      least 0.1 above the right one. */
  lemma GreaterLesserSigns(sk: Skeleton)
    ensures sk.Joint(ShoulderLeft).x < sk.Joint(ShoulderRight).x ==>
      !(DetectGreaterPosture(Some(sk)) && DetectLesserPosture(Some(sk)))
    ensures DetectGreaterPosture(Some(sk)) && sk.Joint(ShoulderLeft).y >= sk.Joint(HipLeft).y ==>
      sk.Joint(HandLeft).y >= sk.Joint(HandRight).y + 0.1
  {
  }

  /** DetectRightFootUpPosture: the foot is higher above the floor than the
      knee's height divided by 2.4; false without a visible floor. */
  predicate DetectRightFootUpPosture(e: Option<FrameReadyArgs>, skeleton: Option<Skeleton>) {
    skeleton.Some? && e.Some? && Helper.IsFloorVisible(e.value) &&
    var rightKneeHeight := Helper.GetDistanceFromFloor(e.value, skeleton.value.Joint(KneeRight));
    Helper.GetDistanceFromFloor(e.value, skeleton.value.Joint(FootRight)) > rightKneeHeight / 2.4
  }

  predicate DetectLeftFootUpPosture(e: Option<FrameReadyArgs>, skeleton: Option<Skeleton>) {
    skeleton.Some? && e.Some? && Helper.IsFloorVisible(e.value) &&
    var leftKneeHeight := Helper.GetDistanceFromFloor(e.value, skeleton.value.Joint(KneeLeft));
    Helper.GetDistanceFromFloor(e.value, skeleton.value.Joint(FootLeft)) > leftKneeHeight / 2.4
  }

  predicate DetectLeftHandUpPosture(skeleton: Option<Skeleton>) {
    skeleton.Some? &&
    var sk := skeleton.value;
    !(sk.Joint(ElbowLeft).y > sk.Joint(HandLeft).y) && sk.Joint(HandLeft).y >= sk.Joint(Head).y
  }

  predicate DetectRightHandUpPosture(skeleton: Option<Skeleton>) {
    skeleton.Some? &&
    var sk := skeleton.value;
    !(sk.Joint(ElbowRight).y > sk.Joint(HandRight).y) && sk.Joint(HandRight).y >= sk.Joint(Head).y
  }

  predicate DetectLeftHandDownPosture(skeleton: Option<Skeleton>) {
    skeleton.Some? &&
    var sk := skeleton.value;
    !(sk.Joint(ElbowLeft).y < sk.Joint(HandLeft).y) && sk.Joint(HandLeft).y < sk.Joint(Head).y
  }

  predicate DetectRightHandDownPosture(skeleton: Option<Skeleton>) {
    skeleton.Some? &&
    var sk := skeleton.value;
    !(sk.Joint(ElbowRight).y < sk.Joint(HandRight).y) && sk.Joint(HandRight).y < sk.Joint(Head).y
  }

  predicate DetectBothHandsUpPosture(skeleton: Option<Skeleton>) {
    DetectRightHandUpPosture(skeleton) && DetectLeftHandUpPosture(skeleton)
  }

  /** A hand is never both up and down: up needs it at or above the head,
      down strictly below. */
  lemma HandUpDownExclusive(skeleton: Option<Skeleton>)
    ensures !(DetectLeftHandUpPosture(skeleton) && DetectLeftHandDownPosture(skeleton))
    ensures !(DetectRightHandUpPosture(skeleton) && DetectRightHandDownPosture(skeleton))
  {
  }

  /** Both hands up: each hand at or above the head and above its elbow. */
  lemma BothHandsUpMeans(skeleton: Option<Skeleton>)
    ensures DetectBothHandsUpPosture(skeleton) <==>
      skeleton.Some? &&
      skeleton.value.Joint(ElbowLeft).y <= skeleton.value.Joint(HandLeft).y &&
      skeleton.value.Joint(ElbowRight).y <= skeleton.value.Joint(HandRight).y &&
      skeleton.value.Joint(HandLeft).y >= skeleton.value.Joint(Head).y &&
      skeleton.value.Joint(HandRight).y >= skeleton.value.Joint(Head).y
  {
  }

  /** The elbow within `tolerance` of the shoulder's height and the hand
      within `tolerance` of the elbow's. */
  predicate ArmLevel(sk: Skeleton, hand: JointType, elbow: JointType, shoulder: JointType, tolerance: real) {
    var h, e, s := sk.Joint(hand), sk.Joint(elbow), sk.Joint(shoulder);
    !(s.y - e.y > tolerance) && !(s.y - e.y < -tolerance) &&
    !(h.y - e.y > tolerance) && !(h.y - e.y < -tolerance)
  }

  predicate DetectOpenRightArm(skeleton: Option<Skeleton>) {
    skeleton.Some? && ArmLevel(skeleton.value, HandRight, ElbowRight, ShoulderRight, 0.1)
  }

  predicate DetectOpenLeftArm(skeleton: Option<Skeleton>) {
    skeleton.Some? && ArmLevel(skeleton.value, HandLeft, ElbowLeft, ShoulderLeft, 0.15)
  }

  predicate DetectOpenArms(skeleton: Option<Skeleton>) {
    skeleton.Some? && DetectOpenLeftArm(skeleton) && DetectOpenRightArm(skeleton)
  }

  /** An open arm holds its hand within twice the tolerance of the shoulder's
      height (0.2 right, 0.3 left), so it is never a raised hand while the
      head is further than that above the shoulder. */
  lemma OpenArmIsShoulderHigh(sk: Skeleton)
    ensures DetectOpenRightArm(Some(sk)) ==>
      FUMath.Abs(sk.Joint(HandRight).y - sk.Joint(ShoulderRight).y) <= 0.2
    ensures DetectOpenLeftArm(Some(sk)) ==>
      FUMath.Abs(sk.Joint(HandLeft).y - sk.Joint(ShoulderLeft).y) <= 0.3
    ensures sk.Joint(Head).y > sk.Joint(ShoulderRight).y + 0.2 ==>
      !(DetectOpenRightArm(Some(sk)) && DetectRightHandUpPosture(Some(sk)))
    ensures sk.Joint(Head).y > sk.Joint(ShoulderLeft).y + 0.3 ==>
      !(DetectOpenLeftArm(Some(sk)) && DetectLeftHandUpPosture(Some(sk)))
  {
  }

  /** DetectCrouching: the right hip or the left knee at most 0.3 above the
      floor; GetDistanceFromFloor's -1 for an invisible floor passes this test. */
  predicate DetectCrouching(e: Option<FrameReadyArgs>, skeleton: Option<Skeleton>) {
    e.Some? && skeleton.Some? &&
    (Helper.GetDistanceFromFloor(e.value, skeleton.value.Joint(HipRight)) <= 0.3 ||
     Helper.GetDistanceFromFloor(e.value, skeleton.value.Joint(KneeLeft)) <= 0.3)
  }

  /** Without a visible floor every skeleton counts as crouching. */
  lemma CrouchingWhenFloorInvisible(e: FrameReadyArgs, sk: Skeleton)
    requires !Helper.IsFloorVisible(e)
    ensures DetectCrouching(Some(e), Some(sk))
  {
  }

  predicate DetectStanding(e: Option<FrameReadyArgs>, skeleton: Option<Skeleton>) {
    e.Some? && skeleton.Some? && Helper.IsFloorVisible(e.value) &&
    var sk := skeleton.value;
    var kneeRight, kneeLeft := sk.Joint(KneeRight), sk.Joint(KneeLeft);
    var footLeft, footRight := sk.Joint(FootLeft), sk.Joint(FootRight);
    var hipCenter, head := sk.Joint(HipCenter), sk.Joint(Head);
    !(Helper.GetDistanceFromFloor(e.value, footLeft) > 0.03 || Helper.GetDistanceFromFloor(e.value, footRight) > 0.03) &&
    !(kneeLeft.y < footLeft.y || kneeRight.y < footRight.y) &&
    !(head.y < hipCenter.y) &&
    !(hipCenter.z > head.z)
  }

  /** Standing keeps both feet within 0.03 of the floor, under the 0.06
      take-off height, so a standing skeleton never starts a jump and a clear
      jump flag stays clear. */
  lemma StandingIsNoTakeOff(e: FrameReadyArgs, sk: Skeleton, jumped: bool)
    ensures DetectStanding(Some(e), Some(sk)) ==>
      var plane := e.frame.value.floorClipPlane;
      var step := JumpStep(jumped, PlaneValue(plane, sk.Joint(FootLeft)), PlaneValue(plane, sk.Joint(FootRight)));
      !step.didJump && (!jumped ==> !step.jumped)
  {
  }

  /** A raised foot over a knee above the floor is itself above the floor;
      over a knee at least 2.4 × 0.03 above it, the foot is higher than
      standing allows. */
  lemma RaisedFootIsNotStanding(e: FrameReadyArgs, sk: Skeleton)
    ensures DetectRightFootUpPosture(Some(e), Some(sk)) ==>
      var plane := e.frame.value.floorClipPlane;
      (PlaneValue(plane, sk.Joint(KneeRight)) >= 0.0 ==> PlaneValue(plane, sk.Joint(FootRight)) > 0.0) &&
      (PlaneValue(plane, sk.Joint(KneeRight)) >= 0.072 ==> !DetectStanding(Some(e), Some(sk)))
    ensures DetectLeftFootUpPosture(Some(e), Some(sk)) ==>
      var plane := e.frame.value.floorClipPlane;
      (PlaneValue(plane, sk.Joint(KneeLeft)) >= 0.0 ==> PlaneValue(plane, sk.Joint(FootLeft)) > 0.0) &&
      (PlaneValue(plane, sk.Joint(KneeLeft)) >= 0.072 ==> !DetectStanding(Some(e), Some(sk)))
  {
  }

  /** Neither foot-up nor standing is reported without a visible floor. */
  lemma FloorPosturesNeedFloor(e: FrameReadyArgs, sk: Skeleton)
    requires !Helper.IsFloorVisible(e)
    ensures !DetectRightFootUpPosture(Some(e), Some(sk)) && !DetectLeftFootUpPosture(Some(e), Some(sk))
    ensures !DetectStanding(Some(e), Some(sk))
  {
  }

  /** DetectBendOver: the shoulder centre is over the hip centre, and the body
      position is further from the sensor than the head by more than half the
      shoulder-to-hip height. */
  predicate DetectBendOver(skeleton: Option<Skeleton>) {
    skeleton.Some? &&
    var sk := skeleton.value;
    var shoulderCenterToHipCenterLength := sk.Joint(ShoulderCenter).y - sk.Joint(HipCenter).y;
    !(shoulderCenterToHipCenterLength < 0.0) &&
    sk.position.z - sk.Joint(Head).z > shoulderCenterToHipCenterLength / 2.0
  }

  lemma BendOverMeans(skeleton: Option<Skeleton>)
    ensures DetectBendOver(skeleton) ==>
      skeleton.value.Joint(ShoulderCenter).y >= skeleton.value.Joint(HipCenter).y &&
      skeleton.value.position.z > skeleton.value.Joint(Head).z
  {
  }

  /** The right hand not right of its elbow and 0.15 to 0.45 above it. */
  predicate DetectSlashPostureForRightArm(skeleton: Option<Skeleton>) {
    skeleton.Some? &&
    var hand, elbow := skeleton.value.Joint(HandRight), skeleton.value.Joint(ElbowRight);
    !(hand.x > elbow.x) && !(hand.y < elbow.y) && !(hand.y - elbow.y < 0.15 || hand.y - elbow.y > 0.45)
  }

  /** The left hand not left of its elbow and 0.15 to 0.45 above it. */
  predicate DetectSlashPostureForLeftArm(skeleton: Option<Skeleton>) {
    skeleton.Some? &&
    var hand, elbow := skeleton.value.Joint(HandLeft), skeleton.value.Joint(ElbowLeft);
    !(hand.x < elbow.x) && !(hand.y < elbow.y) && !(hand.y - elbow.y < 0.15 || hand.y - elbow.y > 0.45)
  }

  predicate DetectCrossPosture(skeleton: Option<Skeleton>) {
    skeleton.Some? && DetectSlashPostureForRightArm(skeleton) && DetectSlashPostureForLeftArm(skeleton)
  }

  /** DetectSlashPosture: the right arm's slash is tried first and needs the
      left hand at or below the hip centre; only otherwise the left arm's,
      which needs the right hand at or below it. */
  predicate DetectSlashPosture(skeleton: Option<Skeleton>) {
    skeleton.Some? &&
    var sk := skeleton.value;
    if DetectSlashPostureForRightArm(skeleton) then !(sk.Joint(HandLeft).y > sk.Joint(HipCenter).y)
    else if DetectSlashPostureForLeftArm(skeleton) then !(sk.Joint(HandRight).y > sk.Joint(HipCenter).y)
    else false
  }

  /** A slash is one slashing arm with the other hand down; a cross, both
      arms slashing, is a slash only when the left hand is down. */
  lemma SlashMeans(skeleton: Option<Skeleton>)
    ensures DetectSlashPosture(skeleton) ==>
      (DetectSlashPostureForRightArm(skeleton) && skeleton.value.Joint(HandLeft).y <= skeleton.value.Joint(HipCenter).y) ||
      (DetectSlashPostureForLeftArm(skeleton) && skeleton.value.Joint(HandRight).y <= skeleton.value.Joint(HipCenter).y)
    ensures DetectCrossPosture(skeleton) ==>
      (DetectSlashPosture(skeleton) <==> skeleton.value.Joint(HandLeft).y <= skeleton.value.Joint(HipCenter).y)
    ensures DetectSlashPostureForRightArm(skeleton) ==>
      0.15 <= skeleton.value.Joint(HandRight).y - skeleton.value.Joint(ElbowRight).y <= 0.45
  {
  }

  predicate DetectMinusPostureForRightArm(skeleton: Option<Skeleton>) {
    skeleton.Some? &&
    var sk := skeleton.value;
    var hand, elbow, hip := sk.Joint(HandRight), sk.Joint(ElbowRight), sk.Joint(HipCenter);
    !(sk.Joint(HandLeft).y > hip.y) && !(hand.y < hip.y) && !(FUMath.Abs(hand.y - elbow.y) > 0.1) && !(hand.x > elbow.x)
  }

  predicate DetectMinusPostureForLeftArm(skeleton: Option<Skeleton>) {
    skeleton.Some? &&
    var sk := skeleton.value;
    var hand, elbow, hip := sk.Joint(HandLeft), sk.Joint(ElbowLeft), sk.Joint(HipCenter);
    !(sk.Joint(HandRight).y > hip.y) && !(hand.y < hip.y) && !(FUMath.Abs(hand.y - elbow.y) > 0.1) && !(hand.x < elbow.x)
  }

  predicate DetectMinusPosture(skeleton: Option<Skeleton>) {
    skeleton.Some? && (DetectMinusPostureForLeftArm(skeleton) || DetectMinusPostureForRightArm(skeleton))
  }

  /** Each arm's minus keeps the other hand down and this one up, so both
      arms can show it only with both hands exactly at the hip centre's height. */
  lemma MinusBothArmsOnlyAtHipHeight(skeleton: Option<Skeleton>)
    requires DetectMinusPostureForRightArm(skeleton) && DetectMinusPostureForLeftArm(skeleton)
    ensures skeleton.value.Joint(HandLeft).y == skeleton.value.Joint(HipCenter).y
    ensures skeleton.value.Joint(HandRight).y == skeleton.value.Joint(HipCenter).y
  {
  }

  predicate DetectPlusPosture(skeleton: Option<Skeleton>) {
    skeleton.Some? &&
    var sk := skeleton.value;
    var leftHand, leftElbow := sk.Joint(HandLeft), sk.Joint(ElbowLeft);
    var rightHand, rightElbow := sk.Joint(HandRight), sk.Joint(ElbowRight);
    var hip := sk.Joint(HipCenter);
    !(leftHand.y < leftElbow.y || rightHand.y < rightElbow.y) &&
    !(rightHand.y < hip.y || leftHand.y < hip.y) &&
    !(rightHand.x > leftHand.x || leftElbow.x > rightElbow.x) &&
    !(rightHand.y > leftHand.y && (FUMath.Abs(rightHand.x - rightElbow.x) > 0.1 && FUMath.Abs(leftHand.y - leftElbow.y) > 0.1)) &&
    !(rightHand.y < leftHand.y && (FUMath.Abs(leftHand.x - leftElbow.x) > 0.1 && FUMath.Abs(rightHand.y - rightElbow.y) > 0.1))
  }

  /** A plus has both hands over their elbows and the hip centre, the hands
      crossed (right hand left of the left hand); with both hands at one
      height no further test applies. */
  lemma PlusMeans(skeleton: Option<Skeleton>)
    ensures DetectPlusPosture(skeleton) ==>
      var sk := skeleton.value;
      sk.Joint(HandLeft).y >= sk.Joint(ElbowLeft).y && sk.Joint(HandRight).y >= sk.Joint(ElbowRight).y &&
      sk.Joint(HandLeft).y >= sk.Joint(HipCenter).y && sk.Joint(HandRight).y >= sk.Joint(HipCenter).y &&
      sk.Joint(HandRight).x <= sk.Joint(HandLeft).x && sk.Joint(ElbowLeft).x <= sk.Joint(ElbowRight).x
  {
  }

  /** The arm signs exclude each other: a slashing hand is at least 0.15 above
      its elbow and a minus hand within 0.1 of it, and a plus holds both hands
      at or above the hip centre while a minus or a slash keeps the other hand
      at or below it, so those meet only with a hand exactly at that height. */
  lemma SignsExclusive(sk: Skeleton)
    ensures !(DetectSlashPostureForRightArm(Some(sk)) && DetectMinusPostureForRightArm(Some(sk)))
    ensures !(DetectSlashPostureForLeftArm(Some(sk)) && DetectMinusPostureForLeftArm(Some(sk)))
    ensures DetectPlusPosture(Some(sk)) && (DetectMinusPosture(Some(sk)) || DetectSlashPosture(Some(sk))) ==>
      sk.Joint(HandLeft).y == sk.Joint(HipCenter).y || sk.Joint(HandRight).y == sk.Joint(HipCenter).y
  {
  }

  /** The point moved by the offset d. */
  function Shift(p: Point, d: Point): Point {
    Point(p.x + d.x, p.y + d.y, p.z + d.z)
  }

  /** The same user seen from a sensor placed elsewhere: the body position and
      every joint moved by d. */
  function Moved(sk: Skeleton, d: Point): (m: Skeleton)
    ensures m.position == Shift(sk.position, d)
    ensures forall j :: m.Joint(j) == Shift(sk.Joint(j), d)
  {
    sk.(position := Shift(sk.position, d),
        joints := seq(JointCount, i requires 0 <= i < JointCount => Shift(sk.joints[i], d)))
  }

  /** The single-frame postures compare the joints with each other only, so
      where the sensor stands changes none of them. */
  lemma PosturesIgnoreSensorPlacement(sk: Skeleton, d: Point)
    ensures DetectGreaterPosture(Some(Moved(sk, d))) == DetectGreaterPosture(Some(sk))
    ensures DetectLesserPosture(Some(Moved(sk, d))) == DetectLesserPosture(Some(sk))
    ensures DetectLeftHandUpPosture(Some(Moved(sk, d))) == DetectLeftHandUpPosture(Some(sk))
    ensures DetectRightHandUpPosture(Some(Moved(sk, d))) == DetectRightHandUpPosture(Some(sk))
    ensures DetectLeftHandDownPosture(Some(Moved(sk, d))) == DetectLeftHandDownPosture(Some(sk))
    ensures DetectRightHandDownPosture(Some(Moved(sk, d))) == DetectRightHandDownPosture(Some(sk))
    ensures DetectOpenArms(Some(Moved(sk, d))) == DetectOpenArms(Some(sk))
    ensures DetectBendOver(Some(Moved(sk, d))) == DetectBendOver(Some(sk))
    ensures DetectSlashPosture(Some(Moved(sk, d))) == DetectSlashPosture(Some(sk))
    ensures DetectCrossPosture(Some(Moved(sk, d))) == DetectCrossPosture(Some(sk))
    ensures DetectMinusPosture(Some(Moved(sk, d))) == DetectMinusPosture(Some(sk))
    ensures DetectPlusPosture(Some(Moved(sk, d))) == DetectPlusPosture(Some(sk))
  {
  }

  /** The part of FUPostureDetector that keeps state between frames. */
  class PostureDetector {
    var jumped: bool

    constructor ()
      ensures !jumped
    {
      jumped := false;
    }

    /** DetectJumping: nothing happens for a null skeleton or an invisible
        floor; otherwise one step of the take-off/landing machine over the
        feet's distances to the floor. */
    method DetectJumping(e: FrameReadyArgs, skeleton: Option<Skeleton>) returns (didJump: bool)
      modifies this
      ensures skeleton.None? || !Helper.IsFloorVisible(e) ==> !didJump && jumped == old(jumped)
      ensures skeleton.Some? && Helper.IsFloorVisible(e) ==>
        var plane := e.frame.value.floorClipPlane;
        JumpResult(jumped, didJump) ==
          JumpStep(old(jumped), PlaneValue(plane, skeleton.value.Joint(FootLeft)), PlaneValue(plane, skeleton.value.Joint(FootRight)))
    {
      didJump := false;
      if skeleton.None? {
        return didJump;
      }
      if Helper.IsFloorVisible(e) == false {
        return false;
      }
      var sk := skeleton.value;
      if jumped == true && Helper.GetDistanceFromFloor(e, sk.Joint(FootLeft)) < LandingHeight &&
        Helper.GetDistanceFromFloor(e, sk.Joint(FootRight)) < LandingHeight
      {
        jumped := false;
        return false;
      }
      if jumped == true {
        return false;
      }
      if jumped == false && Helper.GetDistanceFromFloor(e, sk.Joint(FootLeft)) > TakeOffHeight &&
        Helper.GetDistanceFromFloor(e, sk.Joint(FootRight)) > TakeOffHeight
      {
        jumped := true;
        didJump := true;
      }
    }
  }
}
