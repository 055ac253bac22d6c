/** The pipeline from one face's landmarks: the pose-solve inputs are built
    first, then each eye is cropped from the grey image, flattened to floats,
    normalised and resized to 36x60. */
module Pipeline {
  import opened Common
  import opened PythonSemantics
  import opened EyeRegion
  import opened PatchNormalizer
  import opened HeadPose

  /** One eye's patch, from the grey image and the face's landmarks. */
  function NormalizedEye(img: seq<seq<int>>, l: seq<Point>, e: Eye): (r: Result<seq<seq<real>>>)
    ensures |l| < RequiredLandmarks(e) ==> r == Err(LandmarkOutOfRange)
    ensures r.Ok? ==> |r.value| == PatchRows && Rectangular(r.value, PatchCols)
  {
    match GetEye(img, l, e)
    case Err(err) => Err(err)
    case Ok(crop) => PreparePatch(crop)
  }

  /** What the pipeline produces for one face: the inputs of the pose solve
      (which stands in for the angles it returns) and both eye patches. */
  datatype Features = Features(pose: PnPProblem, left: seq<seq<real>>, right: seq<seq<real>>)

  /** `extractFeaturesFromImage` followed by the patch preparation, with the
      source's order of failures: the pose inputs are built first, for the
      assumed 426x640 resolution, then the right eye is cropped before the
      left one, and the left patch is normalised before the right one. */
  function ExtractFeatures(img: seq<seq<int>>, l: seq<Point>, tanHalfFov: real): (r: Result<Features>)
    requires tanHalfFov > 0.0
    ensures |l| < MinLandmarks ==> r == Err(LandmarkOutOfRange)
    ensures r.Ok? <==>
      |l| >= MinLandmarks && NormalizedEye(img, l, LeftEye).Ok? && NormalizedEye(img, l, RightEye).Ok?
    ensures r.Ok? ==>
      r.value.pose == PoseProblem(l, AssumedResolution, tanHalfFov).value &&
      r.value.left == NormalizedEye(img, l, LeftEye).value &&
      r.value.right == NormalizedEye(img, l, RightEye).value
  {
    match PoseProblem(l, AssumedResolution, tanHalfFov)
    case Err(err) => Err(err)
    case Ok(pose) =>
      match GetEye(img, l, RightEye)
      case Err(err) => Err(err)
      case Ok(rightCrop) =>
        match GetEye(img, l, LeftEye)
        case Err(err) => Err(err)
        case Ok(leftCrop) =>
          match PreparePatch(leftCrop)
          case Err(err) => Err(err)
          case Ok(left) =>
            match PreparePatch(rightCrop)
            case Err(err) => Err(err)
            case Ok(right) => Ok(Features(pose, left, right))
  }

  /** Whatever the landmarks and the image, both patches the pipeline
      returns are 36x60 with every value in [0, 1]. */
  lemma FeaturesInUnitRange(img: seq<seq<int>>, l: seq<Point>, tanHalfFov: real)
    requires tanHalfFov > 0.0
    requires ExtractFeatures(img, l, tanHalfFov).Ok?
    ensures var p := ExtractFeatures(img, l, tanHalfFov).value;
      |p.left| == PatchRows && Rectangular(p.left, PatchCols) &&
      |p.right| == PatchRows && Rectangular(p.right, PatchCols) &&
      (forall i, j :: 0 <= i < PatchRows && 0 <= j < PatchCols ==> 0.0 <= p.left[i][j] <= 1.0) &&
      (forall i, j :: 0 <= i < PatchRows && 0 <= j < PatchCols ==> 0.0 <= p.right[i][j] <= 1.0)
  {
    PreparedPatchInUnitRange(GetEye(img, l, LeftEye).value);
    PreparedPatchInUnitRange(GetEye(img, l, RightEye).value);
  }

  /** For an eye whose window lies inside the image, the patch value at row i,
      column j is the image pixel at the same place in the window, scaled
      between the least and the greatest pixel of the window. */
  lemma EyePatchFromWindow(img: seq<seq<int>>, w: nat, l: seq<Point>, e: Eye)
    requires Rectangular(img, w)
    requires EyeCenter(l, e).Ok?
    requires EyeCenter(l, e).value.x >= 30 && EyeCenter(l, e).value.y >= 18
    requires WindowTop(EyeCenter(l, e).value) + CropHeight <= |img|
    requires WindowLeft(EyeCenter(l, e).value) + CropWidth <= w
    requires NormalizedEye(img, l, e).Ok?
    ensures var c, p := EyeCenter(l, e).value, NormalizedEye(img, l, e).value;
      var flat := FlatPixels(GetEye(img, l, e).value);
      |flat| > 0 &&
      forall i, j :: 0 <= i < PatchRows && 0 <= j < PatchCols ==>
        p[i][j] == Scale(Minimum(flat), Maximum(flat), img[WindowTop(c) + i][WindowLeft(c) + j] as real)
  {
    EyeCropExact(img, w, l, e);
    var crop := GetEye(img, l, e).value;
    PreparedPatchOfFullCrop(crop);
  }
}
