/** FUKinectHelper of FUKinectTool.cs: colouring a depth frame by player index,
    selecting the tracked skeletons of a frame, and the floor-relative distance. */
module Helper {
  import opened KinectTypes

  newtype byte = x: int | 0 <= x < 256

  /** A raw depth value: a C# short. */
  newtype int16 = x: int | -0x8000 <= x < 0x8000

  function Pow2(n: nat): (r: nat)
    ensures r >= 1
  {
    if n == 0 then 1 else 2 * Pow2(n - 1)
  }

  /** The widest player bitmask whose cube, plus 200, still fits an Int32
      (Convert.ToInt32 of a larger cube throws). The SDK's mask is 7, 3 bits wide. */
  const MaxPlayerMaskWidth := 10

  const BlueIndex := 0
  const GreenIndex := 1
  const RedIndex := 2

  /** The offset added to the cube of the player index, per channel B, G, R. */
  function ChannelOffset(channel: nat): int
    requires channel < 3
  {
    if channel == BlueIndex then 100 else if channel == GreenIndex then 180 else 200
  }

  function Min(a: int, b: int): int {
    if a <= b then a else b
  }

  /** The player index of a raw depth value: its low `width` bits, that is
      `raw & (2^width - 1)` on the two's-complement short. */
  function PlayerIndex(raw: int16, maskWidth: nat): (p: int)
    ensures 0 <= p < Pow2(maskWidth)
  {
    raw as int % Pow2(maskWidth)
  }

  /** Channel `channel` of the colour of a depth pixel. */
  function PixelByte(raw: int16, channel: nat, maskWidth: nat): (b: byte)
    requires channel < 3 && maskWidth <= MaxPlayerMaskWidth
    ensures var p := PlayerIndex(raw, maskWidth);
      (p > 0 ==> b as int == Min(p * p * p + ChannelOffset(channel), 255)) &&
      (p == 0 ==> b == 0)
  {
    var player := PlayerIndex(raw, maskWidth);
    if player > 0 then
      var color := player * player * player + ChannelOffset(channel);
      (if color > 255 then 255 else color) as byte
    else 0
  }

  /** The colour buffer after colouring: for every depth pixel i that has a
      slot in the buffer, bytes 4i..4i+2 hold its B, G, R colour; every other
      byte keeps its value. */
  function Colorized(raw: seq<int16>, before: seq<byte>, maskWidth: nat): (after: seq<byte>)
    requires maskWidth <= MaxPlayerMaskWidth
    ensures |after| == |before|
  {
    seq(|before|, k requires 0 <= k < |before| =>
      if k / 4 < |raw| && k % 4 < 3 then PixelByte(raw[k / 4], k % 4, maskWidth) else before[k])
  }

  /** The three written bytes of a pixel with a player. */
  lemma ColorizedPlayerPixel(raw: seq<int16>, before: seq<byte>, maskWidth: nat, i: nat)
    requires maskWidth <= MaxPlayerMaskWidth
    requires i < |raw| && 4 * i + 3 < |before|
    requires PlayerIndex(raw[i], maskWidth) > 0
    ensures var p := PlayerIndex(raw[i], maskWidth); var after := Colorized(raw, before, maskWidth);
      after[4 * i] as int == Min(p * p * p + 100, 255) &&
      after[4 * i + 1] as int == Min(p * p * p + 180, 255) &&
      after[4 * i + 2] as int == Min(p * p * p + 200, 255)
  {
  }

  /** A pixel without a player becomes black. */
  lemma ColorizedBackgroundPixel(raw: seq<int16>, before: seq<byte>, maskWidth: nat, i: nat)
    requires maskWidth <= MaxPlayerMaskWidth
    requires i < |raw| && 4 * i + 3 < |before|
    requires PlayerIndex(raw[i], maskWidth) == 0
    ensures var after := Colorized(raw, before, maskWidth);
      after[4 * i] == 0 && after[4 * i + 1] == 0 && after[4 * i + 2] == 0
  {
  }

  /** The fourth byte of every pixel, and every byte past the last depth
      pixel, keeps its value. */
  lemma ColorizedUntouched(raw: seq<int16>, before: seq<byte>, maskWidth: nat, k: nat)
    requires maskWidth <= MaxPlayerMaskWidth
    requires k < |before|
    requires k % 4 == 3 || k >= 4 * Min(|raw|, |before| / 4)
    requires |before| % 4 == 0
    ensures Colorized(raw, before, maskWidth)[k] == before[k]
  {
  }

  /** A depth image frame: its size and its raw pixel data. */
  datatype DepthFrame = DepthFrame(width: nat, height: nat, pixelData: seq<int16>)

  /** The part of FUKinectHelper that keeps the depth buffers between frames. */
  class KinectHelper {
    /** _rawDepthFrameData: the last frame's raw depth values. */
    var rawDepthFrameData: seq<int16>
    /** _coloredPixels: allocated on the first frame, reused afterwards. */
    var coloredPixels: array?<byte>

    ghost predicate Valid()
      reads this
    {
      coloredPixels != null ==> coloredPixels.Length % 4 == 0
    }

    constructor ()
      ensures Valid() && coloredPixels == null && rawDepthFrameData == []
    {
      rawDepthFrameData := [];
      coloredPixels := null;
    }

    /** GenerateColoredPixels: colours the frame into the (possibly new)
        buffer in place and returns the buffer. */
    method GenerateColoredPixels(depthFrame: DepthFrame, maskWidth: nat) returns (pixels: array<byte>)
      requires Valid() && maskWidth <= MaxPlayerMaskWidth
      modifies this, coloredPixels
      ensures Valid() && pixels == coloredPixels
      ensures rawDepthFrameData == depthFrame.pixelData
      ensures old(coloredPixels) == null ==>
        fresh(pixels) && pixels.Length == depthFrame.width * depthFrame.height * 4 &&
        pixels[..] == Colorized(depthFrame.pixelData, seq(pixels.Length, _ => 0), maskWidth)
      ensures old(coloredPixels) != null ==>
        pixels == old(coloredPixels) &&
        pixels[..] == Colorized(depthFrame.pixelData, old(coloredPixels[..]), maskWidth)
    {
      rawDepthFrameData := depthFrame.pixelData;
      if coloredPixels == null {
        var pixelCount := depthFrame.width * depthFrame.height;
        coloredPixels := new byte[pixelCount * 4](_ => 0);
      }
      pixels := coloredPixels;
      ColorizeInto(rawDepthFrameData, pixels, maskWidth);
    }
  }

  /** The colouring loop of GenerateColoredPixels, over the buffer in place. */
  method ColorizeInto(raw: seq<int16>, pixels: array<byte>, maskWidth: nat)
    requires maskWidth <= MaxPlayerMaskWidth && pixels.Length % 4 == 0
    modifies pixels
    ensures pixels[..] == Colorized(raw, old(pixels[..]), maskWidth)
  {
    ghost var before := pixels[..];
    var depthIndex, colorIndex := 0, 0;
    while depthIndex < |raw| && colorIndex < pixels.Length
      invariant colorIndex == 4 * depthIndex && depthIndex <= |raw| && colorIndex <= pixels.Length
      invariant forall j, c :: 0 <= j < depthIndex && 0 <= c < 3 ==>
        pixels[4 * j + c] == PixelByte(raw[j], c, maskWidth)
      invariant forall j :: 0 <= j < depthIndex ==> pixels[4 * j + 3] == before[4 * j + 3]
      invariant forall k :: colorIndex <= k < pixels.Length ==> pixels[k] == before[k]
    {
      ColorPixel(pixels, colorIndex, raw[depthIndex], maskWidth);
      depthIndex, colorIndex := depthIndex + 1, colorIndex + 4;
    }
    ColorizedByPixels(raw, before, pixels[..], maskWidth, depthIndex);
  }

  /** The body of the colouring loop: the B, G, R bytes of one pixel. */
  method ColorPixel(pixels: array<byte>, colorIndex: nat, raw: int16, maskWidth: nat)
    requires maskWidth <= MaxPlayerMaskWidth && colorIndex + 3 <= pixels.Length
    modifies pixels
    ensures forall c :: 0 <= c < 3 ==> pixels[colorIndex + c] == PixelByte(raw, c, maskWidth)
    ensures forall k :: 0 <= k < pixels.Length && !(colorIndex <= k < colorIndex + 3) ==>
      pixels[k] == old(pixels[k])
  {
    var player := PlayerIndex(raw, maskWidth);
    if player > 0 {
      var blueColor := player * player * player + 100;
      var greenColor := player * player * player + 180;
      var redColor := player * player * player + 200;
      if blueColor > 255 { blueColor := 255; }
      if greenColor > 255 { greenColor := 255; }
      if redColor > 255 { redColor := 255; }
      pixels[colorIndex + BlueIndex] := blueColor as byte;
      pixels[colorIndex + GreenIndex] := greenColor as byte;
      pixels[colorIndex + RedIndex] := redColor as byte;
    } else {
      pixels[colorIndex + BlueIndex] := 0;
      pixels[colorIndex + GreenIndex] := 0;
      pixels[colorIndex + RedIndex] := 0;
    }
  }

  /** A buffer whose first n pixels hold their colours and whose other bytes
      are unchanged is the colourised buffer, n being the number of loop turns. */
  lemma ColorizedByPixels(raw: seq<int16>, before: seq<byte>, after: seq<byte>, maskWidth: nat, n: nat)
    requires maskWidth <= MaxPlayerMaskWidth
    requires |after| == |before| && |before| % 4 == 0 && n == Min(|raw|, |before| / 4)
    requires forall j, c :: 0 <= j < n && 0 <= c < 3 ==> after[4 * j + c] == PixelByte(raw[j], c, maskWidth)
    requires forall j :: 0 <= j < n ==> after[4 * j + 3] == before[4 * j + 3]
    requires forall k :: 4 * n <= k < |after| ==> after[k] == before[k]
    ensures after == Colorized(raw, before, maskWidth)
  {
    var expected := Colorized(raw, before, maskWidth);
    forall k | 0 <= k < |after|
      ensures after[k] == expected[k]
    {
      var j, c := k / 4, k % 4;
      assert k == 4 * j + c;
      if j < n && c < 3 {
        assert after[4 * j + c] == PixelByte(raw[j], c, maskWidth);
      } else if j < n {
        assert after[4 * j + 3] == before[4 * j + 3];
      }
    }
  }

  /** GetTrackedSkeletons: the tracked skeletons of the frame in slot order,
      or null (None) when the frame is null or tracks nobody. */
  method GetTrackedSkeletons(skeletonFrame: Option<SkeletonFrame>) returns (r: Option<seq<Skeleton>>)
    ensures skeletonFrame.None? ==> r.None?
    ensures skeletonFrame.Some? ==>
      (r.None? <==> CountTracked(skeletonFrame.value.skeletons) == 0) &&
      (r.Some? ==> r.value == TrackedOf(skeletonFrame.value.skeletons))
  {
    if skeletonFrame.None? {
      return None;
    }
    var allSkeletons := skeletonFrame.value.skeletons;
    var tracked: seq<Skeleton> := [];
    var i := 0;
    while i < |allSkeletons|
      invariant 0 <= i <= |allSkeletons|
      invariant tracked == TrackedOf(allSkeletons[..i])
    {
      assert allSkeletons[..i + 1][..i] == allSkeletons[..i];
      if allSkeletons[i].trackingState == Tracked {
        tracked := tracked + [allSkeletons[i]];
      }
      i := i + 1;
    }
    assert allSkeletons[..i] == allSkeletons;
    TrackedOfLength(allSkeletons);
    if |tracked| == 0 {
      return None;
    }
    r := Some(tracked);
  }

  /** IsFloorVisible: the frame exists and its floor clip plane is not all zero. */
  function IsFloorVisible(e: FrameReadyArgs): (r: bool)
    ensures r <==> e.frame.Some? && e.frame.value.floorClipPlane != ZeroPlane
  {
    if e.frame.None? then false
    else
      var p := e.frame.value.floorClipPlane;
      !(p.a == 0.0 && p.b == 0.0 && p.c == 0.0 && p.d == 0.0)
  }

  /** GetDistanceFromFloor: the signed distance of the joint to the floor
      plane when the floor is visible, and -1 otherwise. */
  function GetDistanceFromFloor(e: FrameReadyArgs, joint: Point): (r: real)
    ensures IsFloorVisible(e) ==> r == PlaneValue(e.frame.value.floorClipPlane, joint)
    ensures !IsFloorVisible(e) ==> r == -1.0
  {
    if e.frame.None? then -1.0
    else if !IsFloorVisible(e) then -1.0
    else
      var plane := e.frame.value.floorClipPlane;
      plane.a * joint.x + plane.b * joint.y + plane.c * joint.z + plane.d
  }
}
