/** The deterministic first half of `getHeadPosition`: which landmarks go to
    the perspective-n-point solve and in which order, the 3-D face model they
    are paired with, and the pinhole camera matrix. The solve itself and the
    Euler-angle decomposition that follows are not modelled. */
module HeadPose {
  import opened Common

  /** The facial features the pose solve uses. Left and right are the
      subject's own. */
  datatype Feature =
    | NoseTip
    | Chin
    | LeftEyeOuterCorner
    | RightEyeOuterCorner
    | LeftMouthCorner
    | RightMouthCorner

  /** Position of a feature in the 68-point landmark numbering. */
  function LandmarkIndex(f: Feature): (i: nat)
    ensures i < MinLandmarks
  {
    match f
    case NoseTip => 33
    case Chin => 8
    case LeftEyeOuterCorner => 45
    case RightEyeOuterCorner => 36
    case LeftMouthCorner => 54
    case RightMouthCorner => 48
  }

  /** Fewest landmarks for which every feature's index exists (index 54). */
  const MinLandmarks: nat := 55

  /** The features whose landmarks are handed to the solve, in order: image
      point k is the landmark of `SolveOrder[k]` and is paired with row k of
      `ModelPoints`, by position only. */
  const SolveOrder: seq<Feature> :=
    [NoseTip, Chin, LeftEyeOuterCorner, RightEyeOuterCorner, LeftMouthCorner, RightMouthCorner]

  /** The 3-D face model, in millimetres: six rows, one for each position
      of `SolveOrder`. The origin is the first row's point, y points up (the
      second row lies far below the origin and the third and fourth above it)
      and every other row lies behind the origin, toward -z, so the face looks
      toward +z. How the rows pair with landmarks: `EyeRowsMirrored`. */
  function ModelPoints(): (m: seq<Point3>)
    ensures |m| == |SolveOrder|
    ensures m[0] == Point3(0.0, 0.0, 0.0)
    ensures m[1].z < m[0].z && m[2].z < m[0].z && m[3].z < m[0].z && m[4].z < m[0].z && m[5].z < m[0].z
    ensures m[1].y < m[4].y == m[5].y < m[0].y < m[2].y == m[3].y
  {
    [
      Point3(0.0, 0.0, 0.0),
      Point3(0.0, -330.0, -65.0),
      Point3(-165.0, 170.0, -135.0),
      Point3(165.0, 170.0, -135.0),
      Point3(-150.0, -150.0, -125.0),
      Point3(150.0, -150.0, -125.0)
    ]
  }

  /** The first array built from the landmarks: points 45, 36, 33, 54, 48
      and 8, converted to floats. Any of them missing raises IndexError. */
  function GatherLandmarks(l: seq<Point>): (r: Result<seq<Point2>>)
    ensures r.Ok? <==> |l| >= MinLandmarks
    ensures r.Err? ==> r.error == LandmarkOutOfRange
    ensures r.Ok? ==> |r.value| == 6
  {
    if |l| < MinLandmarks then Err(LandmarkOutOfRange)
    else Ok([ToPoint2(l[45]), ToPoint2(l[36]), ToPoint2(l[33]),
             ToPoint2(l[54]), ToPoint2(l[48]), ToPoint2(l[8])])
  }

  /** The second array: rows 2, 5, 0, 1, 3, 4 of the first. It holds the
      same points, only reordered. */
  function Reorder(g: seq<Point2>): (r: seq<Point2>)
    requires |g| == 6
    ensures |r| == 6
    ensures multiset(r) == multiset(g)
  {
    var r := [g[2], g[5], g[0], g[1], g[3], g[4]];
    assert g == [g[0], g[1], g[2], g[3], g[4], g[5]];
    var a, b, c, d := [g[0], g[1]], [g[2]], [g[3], g[4]], [g[5]];
    assert r == b + d + a + c;
    assert g == a + b + c + d;
    r
  }

  /** The image points of the pose solve. */
  function ImagePoints(l: seq<Point>): (r: Result<seq<Point2>>)
    ensures r.Ok? <==> |l| >= MinLandmarks
    ensures r.Err? ==> r.error == LandmarkOutOfRange
  {
    match GatherLandmarks(l)
    case Err(e) => Err(e)
    case Ok(g) => Ok(Reorder(g))
  }

  /** The two re-indexings compose to landmarks 33, 8, 45, 36, 54, 48. */
  lemma ImagePointsIndices(l: seq<Point>)
    requires |l| >= MinLandmarks
    ensures ImagePoints(l).Ok?
    ensures ImagePoints(l).value ==
      [ToPoint2(l[33]), ToPoint2(l[8]), ToPoint2(l[45]),
       ToPoint2(l[36]), ToPoint2(l[54]), ToPoint2(l[48])]
  {
  }

  /** Those landmarks are the features of `SolveOrder`, one for one, so the
      k-th image point is paired with the k-th model point. */
  lemma ImagePointsInSolveOrder(l: seq<Point>)
    requires |l| >= MinLandmarks
    ensures ImagePoints(l).Ok?
    ensures |ImagePoints(l).value| == |SolveOrder|
    ensures forall k :: 0 <= k < |SolveOrder| ==>
      ImagePoints(l).value[k] == ToPoint2(l[LandmarkIndex(SolveOrder[k])])
  {
    ImagePointsIndices(l);
    var pts := ImagePoints(l).value;
    forall k | 0 <= k < |SolveOrder|
      ensures pts[k] == ToPoint2(l[LandmarkIndex(SolveOrder[k])])
    {
      if k == 0 {
        assert LandmarkIndex(SolveOrder[k]) == 33;
      } else if k == 1 {
        assert LandmarkIndex(SolveOrder[k]) == 8;
      } else if k == 2 {
        assert LandmarkIndex(SolveOrder[k]) == 45;
      } else if k == 3 {
        assert LandmarkIndex(SolveOrder[k]) == 36;
      } else if k == 4 {
        assert LandmarkIndex(SolveOrder[k]) == 54;
      } else {
        assert LandmarkIndex(SolveOrder[k]) == 48;
      }
    }
  }

  /** Reflection through the face's plane of symmetry, x = 0. */
  function Mirror(p: Point3): Point3 {
    Point3(-p.x, p.y, p.z)
  }

  /** The feature on the other side of the face. */
  function Opposite(f: Feature): Feature {
    match f
    case NoseTip => NoseTip
    case Chin => Chin
    case LeftEyeOuterCorner => RightEyeOuterCorner
    case RightEyeOuterCorner => LeftEyeOuterCorner
    case LeftMouthCorner => RightMouthCorner
    case RightMouthCorner => LeftMouthCorner
  }

  /** The face model is symmetric: each feature's model point mirrors the
      model point of its opposite, so the nose tip and chin lie on the plane. */
  lemma ModelIsSymmetric()
    ensures forall k, m ::
      0 <= k < |SolveOrder| && 0 <= m < |SolveOrder| && SolveOrder[m] == Opposite(SolveOrder[k]) ==>
        ModelPoints()[m] == Mirror(ModelPoints()[k])
  {
    var t := ModelPoints();
    forall k, m | 0 <= k < |SolveOrder| && 0 <= m < |SolveOrder| && SolveOrder[m] == Opposite(SolveOrder[k])
      ensures t[m] == Mirror(t[k])
    {
      var partner := [0, 1, 3, 2, 5, 4];
      assert m == partner[k] by {
        assert forall n :: 0 <= n < |SolveOrder| && n != partner[k] ==> SolveOrder[n] != Opposite(SolveOrder[k]);
      }
    }
  }

  /** The model row paired with landmark 45 lies at negative x, and the row
      paired with landmark 36 at positive x; likewise for the mouth corners 54
      and 48. The model has y up and faces +z (`ModelPoints`), so the only
      rotation that shows it upright to a camera looking along +z is a
      half-turn about the x axis, which keeps x: negative x lands on the
      image's left. In the 68-point numbering landmark 45 is the outer corner
      of the subject's left eye, on the image's right in an upright frontal
      photograph: the eye rows, and likewise the mouth rows, are paired
      mirror-wise. */
  lemma EyeRowsMirrored()
    ensures LandmarkIndex(SolveOrder[2]) == 45 && LandmarkIndex(SolveOrder[3]) == 36
    ensures ModelPoints()[2].x < 0.0 < ModelPoints()[3].x
    ensures LandmarkIndex(SolveOrder[4]) == 54 && LandmarkIndex(SolveOrder[5]) == 48
    ensures ModelPoints()[4].x < 0.0 < ModelPoints()[5].x
  {
  }

  /** `rotate_landmark` is called on every image point about the first one,
      but its result is bound to the loop variable only: the image points
      come out unchanged whatever the rotation computes. */
  method RotationLoop(imagePoints: seq<Point2>, rotate: (Point2, Point2) -> Point2)
    returns (r: seq<Point2>)
    ensures r == imagePoints
  {
    r := imagePoints;
    for k := 0 to |r| {
      var point := r[k];
      point := rotate(r[0], point);
    }
  }

  /** `(height, width)`: `resolution[0]` and `resolution[1]`. */
  datatype Resolution = Resolution(height: int, width: int)

  /** The resolution the pipeline passes in. */
  const AssumedResolution: Resolution := Resolution(426, 640)

  predicate IsMatrix3(k: seq<seq<real>>) {
    |k| == 3 && forall i :: 0 <= i < 3 ==> |k[i]| == 3
  }

  /** The camera matrix: principal point at the image centre
      (`resolution[1] / 2`, `resolution[0] / 2`), no skew, and the same focal
      length on both axes, cx / tan(half the horizontal field of view).
      `tanHalfFov` stands for tan(30 degrees), the one trigonometric value used. */
  function CameraMatrix(res: Resolution, tanHalfFov: real): (k: seq<seq<real>>)
    requires tanHalfFov > 0.0
    ensures IsMatrix3(k)
    ensures k[0][1] == 0.0 && k[1][0] == 0.0 && k[2] == [0.0, 0.0, 1.0]
    ensures k[0][0] == k[1][1]
    ensures 2.0 * k[0][2] == res.width as real && 2.0 * k[1][2] == res.height as real
    ensures k[0][0] * tanHalfFov == k[0][2]
  {
    var cx, cy := res.width as real / 2.0, res.height as real / 2.0;
    var f := cx / tanHalfFov;
    [[f, 0.0, cx], [0.0, f, cy], [0.0, 0.0, 1.0]]
  }

  /** For the assumed 426x640 image the principal point is (320, 213). */
  lemma AssumedPrincipalPoint(tanHalfFov: real)
    requires tanHalfFov > 0.0
    ensures CameraMatrix(AssumedResolution, tanHalfFov)[0][2] == 320.0
    ensures CameraMatrix(AssumedResolution, tanHalfFov)[1][2] == 213.0
  {
  }

  /** Third homogeneous coordinate of `k * p`. */
  function Depth(k: seq<seq<real>>, p: Point3): real
    requires IsMatrix3(k)
  {
    k[2][0] * p.x + k[2][1] * p.y + k[2][2] * p.z
  }

  /** Pinhole projection with camera matrix `k`: the homogeneous image point
      `k * p` divided by its third coordinate. */
  function Project(k: seq<seq<real>>, p: Point3): Point2
    requires IsMatrix3(k) && Depth(k, p) != 0.0
  {
    var w := Depth(k, p);
    Point2((k[0][0] * p.x + k[0][1] * p.y + k[0][2] * p.z) / w,
           (k[1][0] * p.x + k[1][1] * p.y + k[1][2] * p.z) / w)
  }

  /** With this camera matrix a point in front of the camera projects to
      f * x / z + cx, f * y / z + cy. */
  lemma PinholeProjection(res: Resolution, tanHalfFov: real, p: Point3)
    requires tanHalfFov > 0.0 && p.z != 0.0
    ensures var k := CameraMatrix(res, tanHalfFov);
      Depth(k, p) == p.z &&
      Project(k, p) == Point2(k[0][0] * (p.x / p.z) + k[0][2], k[1][1] * (p.y / p.z) + k[1][2])
  {
    var k := CameraMatrix(res, tanHalfFov);
    var f, cx, cy := k[0][0], k[0][2], k[1][2];
    assert Depth(k, p) == p.z;
    assert (f * p.x + cx * p.z) / p.z == f * (p.x / p.z) + cx;
    assert (f * p.y + cy * p.z) / p.z == f * (p.y / p.z) + cy;
  }

  /** A point on the optical axis projects to the centre of the image. */
  lemma OpticalAxisHitsCentre(res: Resolution, tanHalfFov: real, z: real)
    requires tanHalfFov > 0.0 && z != 0.0
    ensures Project(CameraMatrix(res, tanHalfFov), Point3(0.0, 0.0, z)) ==
      Point2(res.width as real / 2.0, res.height as real / 2.0)
  {
    PinholeProjection(res, tanHalfFov, Point3(0.0, 0.0, z));
  }

  /** The focal length fixes the horizontal field of view: a point seen at
      half the field of view to the right of the axis projects onto the
      right edge of the image, on its middle row. */
  lemma FieldOfViewEdge(res: Resolution, tanHalfFov: real, z: real)
    requires tanHalfFov > 0.0 && z > 0.0
    ensures Project(CameraMatrix(res, tanHalfFov), Point3(tanHalfFov * z, 0.0, z)) ==
      Point2(res.width as real, res.height as real / 2.0)
  {
    var k := CameraMatrix(res, tanHalfFov);
    PinholeProjection(res, tanHalfFov, Point3(tanHalfFov * z, 0.0, z));
    assert (tanHalfFov * z) / z == tanHalfFov;
  }

  /** Everything handed to `cv2.solvePnP`: the model points, the image points
      paired with them by position, the camera matrix and four zero
      distortion coefficients. */
  datatype PnPProblem = PnPProblem(
    modelPoints: seq<Point3>,
    imagePoints: seq<Point2>,
    camera: seq<seq<real>>,
    distortion: seq<real>)

  /** The inputs `getHeadPosition` builds for the solve. The image points go
      in un-rotated, as `RotationLoop` shows they do. */
  function PoseProblem(l: seq<Point>, res: Resolution, tanHalfFov: real): (r: Result<PnPProblem>)
    requires tanHalfFov > 0.0
    ensures r.Ok? <==> |l| >= MinLandmarks
    ensures r.Err? ==> r.error == LandmarkOutOfRange
  {
    match ImagePoints(l)
    case Err(e) => Err(e)
    case Ok(pts) => Ok(PnPProblem(ModelPoints(), pts, CameraMatrix(res, tanHalfFov), [0.0, 0.0, 0.0, 0.0]))
  }

  /** The solve receives six correspondences: the k-th model point and the
      landmark of the k-th feature of `SolveOrder`, with no lens distortion. */
  lemma PoseProblemCorrespondences(l: seq<Point>, res: Resolution, tanHalfFov: real)
    requires tanHalfFov > 0.0 && |l| >= MinLandmarks
    ensures PoseProblem(l, res, tanHalfFov).Ok?
    ensures var pr := PoseProblem(l, res, tanHalfFov).value;
      |pr.modelPoints| == |pr.imagePoints| == |SolveOrder| == 6 &&
      (forall k :: 0 <= k < 6 ==>
        pr.imagePoints[k] == ToPoint2(l[LandmarkIndex(SolveOrder[k])]) &&
        pr.modelPoints[k] == ModelPoints()[k]) &&
      pr.distortion == [0.0, 0.0, 0.0, 0.0] &&
      pr.camera == CameraMatrix(res, tanHalfFov) &&
      IsMatrix3(pr.camera)
  {
    ImagePointsInSolveOrder(l);
  }
}
