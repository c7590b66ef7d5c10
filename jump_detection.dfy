/** The jump detector of both the C# FUPostureDetector and the C++ FUKinectTool:
    a rising-edge machine over the heights of the two feet above the floor,
    with a "jumped" flag that is set on take-off and cleared on landing. */
module JumpDetection {

  /** Both feet higher than this above the floor is a take-off. */
  const TakeOffHeight: real := 0.06
  /** Both feet lower than this above the floor is a landing. */
  const LandingHeight: real := 0.02

  datatype JumpResult = JumpResult(jumped: bool, didJump: bool)

  /** One call of the detector once the floor is known to be visible: the new
      flag and whether a jump is reported. */
  function JumpStep(jumped: bool, leftFoot: real, rightFoot: real): (r: JumpResult)
    ensures r.didJump <==> !jumped && leftFoot > TakeOffHeight && rightFoot > TakeOffHeight
    ensures r.jumped <==> r.didJump || (jumped && !(leftFoot < LandingHeight && rightFoot < LandingHeight))
  {
    if jumped && leftFoot < LandingHeight && rightFoot < LandingHeight then JumpResult(false, false)
    else if jumped then JumpResult(true, false)
    else if leftFoot > TakeOffHeight && rightFoot > TakeOffHeight then JumpResult(true, true)
    else JumpResult(false, false)
  }

  /** A report sets the flag, so the very next call cannot report again. */
  lemma NeverTwiceInARow(jumped: bool, l1: real, r1: real, l2: real, r2: real)
    requires JumpStep(jumped, l1, r1).didJump
    ensures !JumpStep(JumpStep(jumped, l1, r1).jumped, l2, r2).didJump
  {
  }

  /** The heights of both feet in one frame. */
  datatype Feet = Feet(left: real, right: real)

  predicate Landed(f: Feet) {
    f.left < LandingHeight && f.right < LandingHeight
  }

  /** The flag after the first n frames of a run that starts with flag j. */
  function JumpedAfter(j: bool, fs: seq<Feet>, n: nat): bool
    requires n <= |fs|
  {
    if n == 0 then j
    else JumpStep(JumpedAfter(j, fs, n - 1), fs[n - 1].left, fs[n - 1].right).jumped
  }

  /** Whether the call on frame n reports a jump. */
  function JumpDetectedAt(j: bool, fs: seq<Feet>, n: nat): bool
    requires n < |fs|
  {
    JumpStep(JumpedAfter(j, fs, n), fs[n].left, fs[n].right).didJump
  }

  /** The flag only falls on a frame where both feet are down. */
  lemma {:induction false} FlagFallsOnlyOnLanding(j: bool, fs: seq<Feet>, a: nat, b: nat)
    requires a <= b <= |fs|
    requires JumpedAfter(j, fs, a) && !JumpedAfter(j, fs, b)
    ensures exists m :: a <= m < b && Landed(fs[m])
    decreases b - a
  {
    if JumpedAfter(j, fs, b - 1) {
      assert Landed(fs[b - 1]);
    } else {
      FlagFallsOnlyOnLanding(j, fs, a, b - 1);
    }
  }

  /** Between any two reported jumps there is a frame with both feet on the floor. */
  lemma {:induction false} LandingBetweenJumps(j: bool, fs: seq<Feet>, i: nat, k: nat)
    requires i < k < |fs|
    requires JumpDetectedAt(j, fs, i) && JumpDetectedAt(j, fs, k)
    ensures exists m :: i < m < k && Landed(fs[m])
  {
    assert JumpedAfter(j, fs, i + 1);
    FlagFallsOnlyOnLanding(j, fs, i + 1, k);
  }
}
