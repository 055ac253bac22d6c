/** Values shared by every part of the model: landmark points and the
    failures the pipeline can end in. */
module Common {

  /** Why processing an image stops. */
  datatype Error =
    | LandmarkOutOfRange   // a landmark index past the end of the set (Python IndexError)
    | EmptyPatch           // min() of an empty patch (Python ValueError)
    | DegeneratePatch      // max == min: numpy divides 0 by 0 and fills the patch with NaN

  datatype Result<T> = Ok(value: T) | Err(error: Error)

  /** A landmark as the landmark detector returns it: integer pixel coordinates. */
  datatype Point = Point(x: int, y: int)

  /** A point with real coordinates (an eye centre, an image point of the pose solve). */
  datatype Point2 = Point2(x: real, y: real)

  /** A point of the 3-D face model, in millimetres. */
  datatype Point3 = Point3(x: real, y: real, z: real)

  function ToPoint2(p: Point): Point2 {
    Point2(p.x as real, p.y as real)
  }
}
