/** The integer region arithmetic of `HeartRateMonitor.update_frame`: the
    forehead rectangle cut from the face detection, and the thin box drawn
    across the shoulders. Pixel coordinates arrive as integers; the detectors
    themselves stay outside. */
module FrameRoi {
  import opened Common
  import opened Numerics

  /** The face detector's bounding box, in pixels. */
  datatype FaceBox = FaceBox(originX: int, originY: int, width: int, height: int)

  /** The share of the face height used for the colour sample. */
  const ForeheadShare: real := 0.4

  /** `int(bbox.height * 0.4)`. For an integer height the double product never
      falls below an integer the exact product reaches, so truncating the exact
      product gives the same pixel count. */
  function ForeheadHeight(faceHeight: int): int
  {
    Trunc(faceHeight as real * ForeheadShare)
  }

  /** The forehead rectangle after clamping. The origin is moved into the
      frame without shrinking the extent, which is then cut at the right and
      bottom frame edges. */
  function ForeheadRect(face: FaceBox, w: nat, h: nat): (r: Rect)
    ensures 0 <= r.x && 0 <= r.y && r.x + r.width <= w && r.y + r.height <= h
    ensures r.width <= face.width && r.height <= ForeheadHeight(face.height)
  {
    var x := Max(0, face.originX);
    var y := Max(0, face.originY);
    Rect(x, y, Min(face.width, w - x), Min(ForeheadHeight(face.height), h - y))
  }

  /** A face that lies in the frame gives the top 40% of its own box. */
  lemma ForeheadRectOfFaceInFrame(face: FaceBox, w: nat, h: nat)
    requires 0 <= face.originX && face.originX + face.width <= w
    requires 0 <= face.originY && face.originY + face.height <= h
    requires 0 <= face.height
    ensures ForeheadRect(face, w, h) == Rect(face.originX, face.originY, face.width, ForeheadHeight(face.height))
    ensures ForeheadHeight(face.height) <= face.height
  {
  }

  /** Number of indices a Python slice `[start:stop]` picks from `n` items, for
      non-negative bounds. */
  function SliceLength(start: int, stop: int, n: nat): int
    requires 0 <= start && 0 <= stop
  {
    Max(0, Min(stop, n) - Min(start, n))
  }

  /** `roi_forehead.size` for a clamped rectangle in a `w` x `h` three-channel frame. */
  function RegionSize(r: Rect, w: nat, h: nat): int
    requires 0 <= r.x && 0 <= r.y && 0 <= r.x + r.width && 0 <= r.y + r.height
  {
    SliceLength(r.y, r.y + r.height, h) * SliceLength(r.x, r.x + r.width, w) * 3
  }

  /** Whether a colour sample is taken for this face: both clamped extents
      are positive and the sliced region is not empty. */
  predicate ForeheadSampled(face: FaceBox, w: nat, h: nat)
  {
    var r := ForeheadRect(face, w, h);
    0 < r.width && 0 < r.height && 0 < RegionSize(r, w, h)
  }

  /** The emptiness test on the sliced region never rejects a rectangle with
      positive clamped extents: the slice is exactly the rectangle. */
  lemma ForeheadSampledIffPositive(face: FaceBox, w: nat, h: nat)
    ensures var r := ForeheadRect(face, w, h);
      && (0 < r.width && 0 < r.height ==> RegionSize(r, w, h) == r.width * r.height * 3)
      && (ForeheadSampled(face, w, h) <==> 0 < r.width && 0 < r.height)
  {
    var r := ForeheadRect(face, w, h);
    if 0 < r.width && 0 < r.height {
      assert SliceLength(r.y, r.y + r.height, h) == r.height;
      assert SliceLength(r.x, r.x + r.width, w) == r.width;
      assert 0 < r.height * r.width;
    }
  }

  /** Shoulder landmarks converted to pixels: the mean shoulder row and the
      leftmost and rightmost shoulder columns. */
  datatype ShoulderPixels = ShoulderPixels(yAverage: int, xMin: int, xMax: int)

  /** Height of the respiration box in pixels. */
  const ShoulderBoxHeight: int := 20

  /** `int((x_max - x_min) * 0.1)`: the horizontal margin of the box. */
  function ShoulderPadding(s: ShoulderPixels): int
  {
    Trunc((s.xMax - s.xMin) as real * 0.1)
  }

  /** The respiration box: a band `ShoulderBoxHeight` high centred on the
      shoulder row, spanning the shoulders plus a 10% margin on each side,
      then clamped to the frame. */
  function ShoulderBox(s: ShoulderPixels, w: nat, h: nat): (b: Box)
    ensures 0 <= b.left && 0 <= b.top && b.right <= w && b.bottom <= h
    // the box covers both shoulders when they are in the frame
    ensures 0 <= s.xMin <= s.xMax <= w ==> b.left <= s.xMin && s.xMax <= b.right
    // away from the frame edges the band is centred on the shoulder row
    ensures ShoulderBoxHeight / 2 <= s.yAverage <= h - ShoulderBoxHeight / 2 ==>
      b.top == s.yAverage - ShoulderBoxHeight / 2 && b.bottom - b.top == ShoulderBoxHeight
  {
    var top := Trunc(s.yAverage as real - ShoulderBoxHeight as real / 2.0);
    var bottom := top + ShoulderBoxHeight;
    var pad := ShoulderPadding(s);
    var left := Max(0, s.xMin - pad);
    var right := Min(w, s.xMax + pad);
    Box(Max(0, left), Max(0, top), Min(w, right), Min(h, bottom))
  }
}
