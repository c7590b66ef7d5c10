/** Values shared by the C# helper classes and the C++ tool: camera-space points,
    the floor clip plane, the twenty skeleton joints, skeletons and skeleton
    frames, and the enumerations declared in FUKinectTool.h. */
module KinectTypes {

  datatype Option<T> = None | Some(value: T) {
    function GetOr(default: T): T {
      match this
      case Some(v) => v
      case None => default
    }
  }

  /** DWORD and (on Windows) unsigned long. */
  newtype u32 = x: int | 0 <= x < 0x1_0000_0000

  /** A joint position in camera space. */
  datatype Point = Point(x: real, y: real, z: real)

  /** The floor clip plane (a, b, c, d): the floor is where a·x + b·y + c·z + d = 0.
      The sensor reports the all-zero plane when it sees no floor. */
  datatype Plane = Plane(a: real, b: real, c: real, d: real)

  const ZeroPlane := Plane(0.0, 0.0, 0.0, 0.0)

  /** Signed distance of a point above the plane. */
  function PlaneValue(plane: Plane, p: Point): real {
    plane.a * p.x + plane.b * p.y + plane.c * p.z + plane.d
  }

  /** SKELETON_JOINTS of FUKinectTool.h, in the sensor's order. */
  datatype JointType =
    | HipCenter | Spine | ShoulderCenter | Head
    | ShoulderLeft | ElbowLeft | WristLeft | HandLeft
    | ShoulderRight | ElbowRight | WristRight | HandRight
    | HipLeft | KneeLeft | AnkleLeft | FootLeft
    | HipRight | KneeRight | AnkleRight | FootRight

  const JointCount := 20

  function JointIndex(j: JointType): (k: nat)
    ensures k < JointCount
  {
    match j
    case HipCenter => 0      case Spine => 1        case ShoulderCenter => 2  case Head => 3
    case ShoulderLeft => 4   case ElbowLeft => 5    case WristLeft => 6       case HandLeft => 7
    case ShoulderRight => 8  case ElbowRight => 9   case WristRight => 10     case HandRight => 11
    case HipLeft => 12       case KneeLeft => 13    case AnkleLeft => 14      case FootLeft => 15
    case HipRight => 16      case KneeRight => 17   case AnkleRight => 18     case FootRight => 19
  }

  /** Distinct joints have distinct slots, so every joint's position is
      stored apart from the others'. */
  lemma JointIndexInjective(a: JointType, b: JointType)
    ensures JointIndex(a) == JointIndex(b) ==> a == b
  {
  }

  /** One position per joint, indexed by JointIndex. */
  type JointPositions = s: seq<Point> | |s| == JointCount
    witness seq(JointCount, _ => Point(0.0, 0.0, 0.0))

  /** SKELETON_STATE of FUKinectTool.h (SkeletonTrackingState in C#). */
  datatype TrackingState = NotTracked | PositionOnly | Tracked

  /** A skeleton as the sensor reports it: its tracking state and id, the
      position of the whole body, and the position of every joint. */
  datatype Skeleton = Skeleton(
    trackingState: TrackingState,
    trackingId: u32,
    position: Point,
    joints: JointPositions)
  {
    function Joint(j: JointType): Point {
      joints[JointIndex(j)]
    }
  }

  /** A skeleton frame: the floor clip plane and the skeleton slots (six in the SDK). */
  datatype SkeletonFrame = SkeletonFrame(floorClipPlane: Plane, skeletons: seq<Skeleton>)

  /** C# SkeletonFrameReadyEventArgs: opening it gives a frame, or null. */
  datatype FrameReadyArgs = FrameReadyArgs(frame: Option<SkeletonFrame>)

  /** SKELETONS of FUKinectTool.h: which player left the scene. */
  datatype Skeletons = SkeletonOne | SkeletonTwo | BothSkeletons | NoSkeleton

  /** KINECT_STATUS of FUKinectTool.h. */
  datatype KinectStatus =
    | Initializing | NotConnected | NotGenuine | NotSupported
    | InsufficientBandwidth | NotPowered | NotReady | DeviceInUse | NoProblem

  /** The tracked skeletons of a frame, in slot order. */
  function TrackedOf(s: seq<Skeleton>): (r: seq<Skeleton>)
    ensures |r| <= |s|
    ensures forall k :: 0 <= k < |r| ==> r[k].trackingState == Tracked
  {
    if s == [] then []
    else
      var last := s[|s| - 1];
      TrackedOf(s[..|s| - 1]) + (if last.trackingState == Tracked then [last] else [])
  }

  /** Filtering distributes over concatenation: nothing is reordered. */
  lemma {:induction false} TrackedOfAppend(a: seq<Skeleton>, b: seq<Skeleton>)
    ensures TrackedOf(a + b) == TrackedOf(a) + TrackedOf(b)
    decreases |b|
  {
    if b == [] {
      assert a + b == a;
    } else {
      var b' := b[..|b| - 1];
      assert (a + b)[..|a + b| - 1] == a + b';
      TrackedOfAppend(a, b');
    }
  }

  /** The filter keeps exactly the tracked skeletons. */
  lemma {:induction false} TrackedOfMembers(s: seq<Skeleton>, x: Skeleton)
    ensures x in TrackedOf(s) <==> x in s && x.trackingState == Tracked
  {
    if s != [] {
      var s' := s[..|s| - 1];
      TrackedOfMembers(s', x);
      assert s == s' + [s[|s| - 1]];
    }
  }

  /** The number of tracked skeletons is the count of tracked slots. */
  function CountTracked(s: seq<Skeleton>): nat {
    if s == [] then 0
    else CountTracked(s[..|s| - 1]) + (if s[|s| - 1].trackingState == Tracked then 1 else 0)
  }

  lemma {:induction false} TrackedOfLength(s: seq<Skeleton>)
    ensures |TrackedOf(s)| == CountTracked(s)
  {
    if s != [] {
      TrackedOfLength(s[..|s| - 1]);
    }
  }
}
