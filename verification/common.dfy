/** Small shared vocabulary: optional detections and the two rectangle
    shapes the program uses (corner form and origin-plus-size form). */
module Common {

  /** A detector result that may be missing for the current frame. */
  datatype Option<T> = None | Some(value: T)

  /** A rectangle given by its corners, as `(left, top, right, bottom)`. */
  datatype Box = Box(left: int, top: int, right: int, bottom: int)

  /** A rectangle given by its top-left corner and its extent. */
  datatype Rect = Rect(x: int, y: int, width: int, height: int)

  function Max(a: int, b: int): int
  {
    if a >= b then a else b
  }

  function Min(a: int, b: int): int
  {
    if a <= b then a else b
  }
}
