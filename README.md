# Eye patches and pose-solve inputs from facial landmarks

This project models the deterministic part of `main.py` in Dafny. That file estimates a
head's pose from the 68 facial landmarks of a photograph and cuts out normalised eye
patches. The model covers:

- **Eye-region cropping** (`getRightEye`, `getLeftEye`). The eye centre is the mean of
  two corner landmarks: 36 and 39 for the right eye, 42 and 45 for the left. The
  landmarks are numpy integers, and `statistics.mean` converts the exact mean back to
  the type of its data, so each coordinate of the centre is the midpoint truncated
  toward zero. Around it a 60x36 window is computed with Python's `int()`, which
  leaves the whole-numbered corners unchanged. The grey image is then sliced with
  numpy's slice rules. The source's corner names are
  kept: `upLeft` holds the larger y, which ends the row range, and `botRight` holds the
  smaller y, which starts it. Negative slice bounds count from the end of the image,
  and bounds past the end are clipped. Both rules are modelled exactly, for every
  centre.
- **Patch normalisation** (`normalize`, with the float conversion, `flatten` and
  `np.resize(…, (36, 60))` of the `__main__` block). Min-max rescaling over `real`,
  then cyclic repetition or truncation to 2160 values laid out as 36 rows of 60.
- **Pose-solve inputs** (the top of `getHeadPosition`). Six landmarks are re-indexed
  twice, into the order 33, 8, 45, 36, 54, 48. They are paired by position with the
  six rows of the 3-D face model. The rotation loop after the re-indexing is a no-op. The
  camera matrix has its principal point at the image centre, no skew, and the same
  focal length on both axes. Pinhole projection through that matrix is included as a
  reference for what the matrix means.

Modules: `Common` (points, errors, `Result`), `PythonSemantics` (`int()` and slicing),
`EyeRegion`, `PatchNormalizer`, `HeadPose`, `Pipeline` (the pose inputs, then both
eyes through crop and normalisation, in the order `extractFeaturesFromImage` runs them).

Errors are values. A landmark index past the end of the set is `LandmarkOutOfRange`
(Python raises IndexError). An empty patch is `EmptyPatch` (`min()` raises ValueError).
An all-equal patch is `DegeneratePatch`: numpy computes 0/0 there and fills the patch
with NaN, which `real` cannot represent.

Behaviour of `main.py` that the model makes explicit:

- The solve's image points are landmarks 33, 8, 45, 36, 54, 48, in that order: nose
  tip, chin, outer corners of the subject's left and right eyes, left and right mouth
  corners. Image point k is paired with row k of the model-point table.
- That pairing is mirrored. The table has y up and faces +z, so it is seen upright
  only after a half-turn about the x axis, which keeps x. The row paired with landmark
  45 then lies on the image's left, while landmark 45 lies on its right. The mouth
  rows are paired the same way (`EyeRowsMirrored`).
- A crop window that leaves the image is clipped at the bottom and right edges. Near
  the top and left edges a negative bound wraps around, which can empty the crop
  (`TopEdgeCropIsEmpty`).
- An all-equal patch makes `normalize` divide 0 by 0, which numpy turns into NaN. The
  model returns `Err(DegeneratePatch)`.
- The slices are half-open: for an eye centred on row 250 the rows taken are 232 to
  267, 36 in all.

## Model

| member | source | states |
|---|---|---|
| `PythonSemantics.Trunc` | main.py:35 | `int()` of a float: the floor for a non-negative value, the ceiling for a negative one |
| `PythonSemantics.MeanOfTwo` | main.py:34 | `statistics.mean` of two integers is half their sum, truncated toward zero when the sum is odd; it lies between the two |
| `PythonSemantics.AdjustIndex` | main.py:37 | a slice bound is clamped into [0, len], and a negative bound first counts from the end |
| `PythonSemantics.Slice` | main.py:37 | `s[a:b]` with a non-negative start takes `s[a + k]` in position k; with `0 <= a <= b` its length is the window clipped to the sequence |
| `PythonSemantics.Slice2D` | main.py:37 | `m[r0:r1, c0:c1]` with non-negative starts: entry (i, j) is `m[r0 + i][c0 + j]`, and the rows it takes exist |
| `PythonSemantics.Slice2DWindow` | main.py:37 | for a rectangular array and non-negative bounds, the slice has the clipped number of rows and the clipped width: never padded |
| `EyeRegion.EyeCenter` | main.py:34 | each centre coordinate is the sum of landmarks 39 and 36 (right) or 42 and 45 (left) halved and truncated toward zero; fails exactly when a corner index is missing |
| `EyeRegion.CornersAround` | main.py:35-36 | for every centre: `upLeft` = (x−30, y+18), `botRight` = (x+30, y−18), a window 60 wide and 36 high |
| `EyeRegion.CropAt` | main.py:37 | the smaller y starts the row range and the larger ends it; with non-negative starts the crop has the clipped row count and pixel (i, j) is the image's pixel at the shifted place |
| `EyeRegion.GetEye` | main.py:32-37 | cropping succeeds exactly when both corner landmarks exist |
| `EyeRegion.GetRightEye` | main.py:32-38 | `getRightEye` fails with an index error exactly when there are fewer than 40 landmarks |
| `EyeRegion.GetLeftEye` | main.py:40-46 | `getLeftEye` fails with an index error exactly when there are fewer than 46 landmarks |
| `EyeRegion.EyeCropWindow` | main.py:35-37 | for a centre at least (30, 18) the crop takes rows from y−18 and columns from x−30, clipped to the image, each pixel the image's pixel at the shifted place |
| `EyeRegion.EyeCropExact` | main.py:43-45 | a window inside the image gives exactly 36 rows of 60 pixels, the sub-matrix at the window's corner |
| `EyeRegion.RightEyeWorkedExample` | main.py:34-37 | corners (300,250) and (340,250) give centre (320,250), rows 232..268, columns 290..350 of a 426x640 image |
| `EyeRegion.RightEyeSecondExample` | main.py:34-36 | corners (100,200) and (140,200) give the window corners (120,200) ± (30,18) |
| `EyeRegion.OddSumCentreTruncates` | main.py:34-36 | corners (300,250) and (341,250) give centre (320,250): the half is dropped |
| `EyeRegion.NegativeHalfCentre` | main.py:34-37 | corners on rows 0 and −1 give centre row 0, so an 18-row image yields rows [−18:18], all 18 of them |
| `EyeRegion.TopEdgeCropIsEmpty` | main.py:37 | an eye centred on row 10 of a 426-row image gives an empty crop, because the start row −8 wraps round to 418 |
| `PatchNormalizer.Minimum` | main.py:140 | `min` is below every element and is one of them |
| `PatchNormalizer.Maximum` | main.py:140 | `max` is above every element and is one of them |
| `PatchNormalizer.Normalize` | main.py:139-140 | an empty patch fails; a non-empty one fails exactly when min = max; otherwise the output has the input's length with out[i] = (v[i]−min)/(max−min) |
| `PatchNormalizer.ScaleRecovers` | main.py:140 | rescaling is undone by min + out·(max−min) |
| `PatchNormalizer.ScaledPosition` | main.py:140 | a value between min and max scales into [0, 1], to 0 exactly at min and to 1 exactly at max |
| `PatchNormalizer.ScaledOrder` | main.py:140 | scaling against fixed bounds keeps the order of two values, both ways |
| `PatchNormalizer.NormalizeUnitRange` | main.py:140 | every output is in [0, 1]; an output is 0 exactly at a minimal input and 1 exactly at a maximal one; both 0 and 1 occur |
| `PatchNormalizer.NormalizeMonotone` | main.py:140 | v[i] ≤ v[j] if and only if out[i] ≤ out[j] |
| `PatchNormalizer.NormalizeIdempotent` | main.py:140 | normalising a normalised patch returns it unchanged |
| `PatchNormalizer.DegenerateIffConstant` | main.py:140 | a non-empty patch fails exactly when all its values are equal |
| `PatchNormalizer.Flatten` | main.py:147 | every value of every row appears in the flattened sequence |
| `PatchNormalizer.FlattenLength` | main.py:147 | flattening r rows of width w gives r·w values |
| `PatchNormalizer.FlattenAt` | main.py:147 | flattening is row-major: entry (i, j) is flat value i·w + j |
| `PatchNormalizer.Resize` | main.py:148 | `np.resize` gives the requested rows of the requested width, and zeros for an empty input |
| `PatchNormalizer.ResizeCyclic` | main.py:148 | read row-major, the resized array has rows·cols values and value k is a[k mod n] |
| `PatchNormalizer.ResizeFlattenRoundTrip` | main.py:148 | an input of exactly rows·cols values is only reshaped: flattening gives it back |
| `PatchNormalizer.ResizeTruncates` | main.py:148 | a longer input keeps only its first rows·cols values |
| `PatchNormalizer.FlattenResizeRoundTrip` | main.py:151 | resizing the flattening of a rows×cols array gives the array back |
| `PatchNormalizer.ToReals` | main.py:147 | the float copy has the patch's shape and its values |
| `PatchNormalizer.PreparePatch` | main.py:147-148 | the prepared patch fails exactly when normalisation fails, and is otherwise 36 rows of 60 |
| `PatchNormalizer.PreparedPatchInUnitRange` | main.py:148 | whatever the crop's size, every prepared value is in [0, 1] |
| `PatchNormalizer.PreparedPatchOfFullCrop` | main.py:150-151 | for a full 36x60 crop, prepared value (i, j) is crop pixel (i, j) scaled between the crop's min and max |
| `PatchNormalizer.PreparePatchErrors` | main.py:140 | preparing fails exactly for a crop with no pixels or with all pixels equal |
| `HeadPose.LandmarkIndex` | main.py:53-58 | every feature's landmark index exists in a set of 55 or more |
| `HeadPose.GatherLandmarks` | main.py:51-60 | the first array has six points, and fails exactly when fewer than 55 landmarks exist |
| `HeadPose.ModelPoints` | main.py:74-82 | six rows, one per solve position; the first is the origin, y points up and every other row lies behind the origin |
| `HeadPose.Reorder` | main.py:61-70 | the second array is a permutation of the first |
| `HeadPose.ImagePoints` | main.py:61-70 | image points exist exactly when 55 or more landmarks do |
| `HeadPose.ImagePointsIndices` | main.py:51-70 | the image points are landmarks 33, 8, 45, 36, 54, 48, in that order |
| `HeadPose.ImagePointsInSolveOrder` | main.py:61-82 | image point k is the landmark of the k-th feature of the solve order, the feature of model point k |
| `HeadPose.ModelIsSymmetric` | main.py:74-82 | the face model mirrors left and right features across x = 0 |
| `HeadPose.EyeRowsMirrored` | main.py:61-82 | the rows paired with landmarks 45 and 54 lie at negative x, those paired with 36 and 48 at positive x |
| `HeadPose.RotationLoop` | main.py:71-72 | the rotation loop returns the image points unchanged, whatever the rotation computes |
| `HeadPose.CameraMatrix` | main.py:84-92 | no skew, last row (0, 0, 1), equal focal lengths, principal point (width/2, height/2), focal length · tan(half FOV) = cx |
| `HeadPose.AssumedPrincipalPoint` | main.py:13 | for the 426x640 resolution the principal point is (320, 213) |
| `HeadPose.PinholeProjection` | main.py:86-92 | projecting through the camera matrix gives (f·x/z + cx, f·y/z + cy) |
| `HeadPose.OpticalAxisHitsCentre` | main.py:84 | a point on the optical axis projects to the image centre |
| `HeadPose.FieldOfViewEdge` | main.py:85 | a point at half the field of view projects onto the right image edge |
| `HeadPose.PoseProblem` | main.py:96-98 | the solve's inputs exist exactly when 55 or more landmarks do |
| `HeadPose.PoseProblemCorrespondences` | main.py:51-98 | the solve gets six pairs (model point k, landmark of feature k), `CameraMatrix` for the given resolution, and four zero distortion coefficients |
| `Pipeline.NormalizedEye` | main.py:147-148 | one eye's patch is 36 rows of 60, and fails with an index error when a corner landmark is missing |
| `Pipeline.ExtractFeatures` | main.py:11-16 | succeeds exactly when 55 or more landmarks exist and each eye's patch succeeds; the pose inputs come first, then the right crop, the left crop, the left patch and the right patch |
| `Pipeline.FeaturesInUnitRange` | main.py:148-151 | both patches returned are 36x60 with values in [0, 1] |
| `Pipeline.EyePatchFromWindow` | main.py:32-38 | for a window inside the image, patch value (i, j) is the window's pixel (i, j) scaled between the window's min and max |

## Left out

- Landmark detection and image loading (`getFacialLandmarks`, main.py:18-30): dlib and OpenCV calls. The model takes the landmarks and the grey image as inputs.
- `extractFeaturesFromImage` (main.py:11-16) picks `shapes[0]`, which raises IndexError when no face is found. Choosing a face is not modelled; `Pipeline.ExtractFeatures` starts from one face's landmarks, and returns the pose solve's inputs in place of the angles.
- The pose solve (`cv2.solvePnP`, `projectPoints`, `Rodrigues`, `decomposeProjectionMatrix`, main.py:96-115). These are floating-point library numerics. `HeadPose.PoseProblem` stops at the solve's inputs.
- The angle folding `asin(sin(·))` and the swap of the returned angles (main.py:117-123). These are floating-point trigonometry.
- `HeadPose.CameraMatrix` does not compute tan(30°). The value is the parameter `tanHalfFov`, and the focal length is cx / `tanHalfFov` as in main.py:85.
- `rotate_landmark` (main.py:126-137). This is float trigonometry whose result the loop discards. `HeadPose.RotationLoop` takes the rotation as a function parameter.
- `PatchNormalizer.Normalize` is computed over `real`. float32 rounding is not modelled, so outputs may differ from numpy's in the last bits.
- `PatchNormalizer.Normalize` on an all-equal patch returns an error. numpy returns a patch of NaN values, which `real` cannot express.
- A grey image is a sequence of rows. Each row is sliced against its own length, which equals numpy's slicing of a 2-D array because a numpy image is rectangular.
- Pixel values and landmark coordinates are unbounded integers. Their uint8 and int ranges play no part in the modelled behaviour.
