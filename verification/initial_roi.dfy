/** The box arithmetic of `get_initial_roi`: the shoulder centre, shifted,
    spans `2*xSize` by `2*ySize` pixels; the box is clipped to the frame and
    refused when nothing of it is left. The pose detector and the conversion
    of its normalised landmarks to pixels stay outside: the centre arrives as
    an optional integer point. */
module InitialRoi {
  import opened Common

  datatype Point = Point(x: int, y: int)

  datatype RoiError = NoPoseDetected | InvalidDimensions(rejected: Box)

  datatype RoiResult = Found(box: Box) | Failed(error: RoiError)

  const DefaultXSize: int := 100
  const DefaultYSize: int := 30
  const DefaultShiftX: int := 0
  const DefaultShiftY: int := -30

  /** True when the box holds at least one pixel of a `width` x `height` frame. */
  predicate InsideFrame(b: Box, width: nat, height: nat)
  {
    0 <= b.left < b.right <= width && 0 <= b.top < b.bottom <= height
  }

  function GetInitialRoi(centre: Option<Point>, width: nat, height: nat,
                         xSize: int, ySize: int, shiftX: int, shiftY: int): (r: RoiResult)
    ensures centre.None? <==> r == Failed(NoPoseDetected)
    ensures r.Found? ==> InsideFrame(r.box, width, height)
    ensures r.Found? ==> r.box.right - r.box.left <= 2 * xSize && r.box.bottom - r.box.top <= 2 * ySize
    // a box is returned exactly when the shifted nominal box overlaps the frame
    ensures centre.Some? ==>
      var cx, cy := centre.value.x + shiftX, centre.value.y + shiftY;
      (r.Found? <==>
        && 0 < xSize && 0 < width && cx - xSize < width && 0 < cx + xSize
        && 0 < ySize && 0 < height && cy - ySize < height && 0 < cy + ySize)
  {
    match centre
    case None => Failed(NoPoseDetected)
    case Some(p) =>
      var cx, cy := p.x + shiftX, p.y + shiftY;
      var box := Box(Max(0, cx - xSize), Max(0, cy - ySize), Min(width, cx + xSize), Min(height, cy + ySize));
      if box.right - box.left <= 0 || box.bottom - box.top <= 0 then
        Failed(InvalidDimensions(box))
      else
        Found(box)
  }

  /** The returned box is the intersection of the nominal box around the
      shifted centre with the frame: a pixel column (row) is inside it exactly
      when it is inside both. */
  lemma InitialRoiIsIntersection(centre: Point, width: nat, height: nat,
                                 xSize: int, ySize: int, shiftX: int, shiftY: int, x: int, y: int)
    requires GetInitialRoi(Some(centre), width, height, xSize, ySize, shiftX, shiftY).Found?
    ensures var b := GetInitialRoi(Some(centre), width, height, xSize, ySize, shiftX, shiftY).box;
      var cx, cy := centre.x + shiftX, centre.y + shiftY;
      && (b.left <= x < b.right <==> 0 <= x < width && cx - xSize <= x < cx + xSize)
      && (b.top <= y < b.bottom <==> 0 <= y < height && cy - ySize <= y < cy + ySize)
  {
  }

  /** `get_initial_roi(image, landmarker)` with its default arguments: a
      box at most 200 x 60 pixels whose nominal centre lies 30 pixels above
      the shoulder centre. */
  function GetDefaultInitialRoi(centre: Option<Point>, width: nat, height: nat): (r: RoiResult)
    ensures centre.None? <==> r == Failed(NoPoseDetected)
    ensures r.Found? ==> InsideFrame(r.box, width, height)
    ensures r.Found? ==> r.box.right - r.box.left <= 200 && r.box.bottom - r.box.top <= 60
    // the band ends at the shoulder row: it spans the 60 rows above it, cut by the frame
    ensures r.Found? ==> r.box.top == Max(0, centre.value.y - 60) && r.box.bottom == Min(height, centre.value.y)
    // horizontally it spans 100 columns either side of the shoulder centre, cut by the frame
    ensures r.Found? ==> r.box.left == Max(0, centre.value.x - 100) && r.box.right == Min(width, centre.value.x + 100)
  {
    GetInitialRoi(centre, width, height, DefaultXSize, DefaultYSize, DefaultShiftX, DefaultShiftY)
  }
}
