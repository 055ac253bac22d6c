/** Cropping a 60x36 grey-scale window around each eye (`getRightEye` and
    `getLeftEye`). A grey image is the sequence of its rows of pixel values. */
module EyeRegion {
  import opened Common
  import opened PythonSemantics

  /** `desiredSize = [60, 36]`: width, then height. */
  const CropWidth: int := 60
  const CropHeight: int := 36

  datatype Eye = RightEye | LeftEye

  /** The two corner landmarks whose mean is the eye's centre, in the order
      the source lists them: 39 and 36 for the right eye, 42 and 45 for the left. */
  function CornerIndices(e: Eye): (nat, nat) {
    match e
    case RightEye => (39, 36)
    case LeftEye => (42, 45)
  }

  /** Fewest landmarks for which both corner indices exist. */
  function RequiredLandmarks(e: Eye): nat {
    match e
    case RightEye => 40
    case LeftEye => 46
  }

  /** The eye centre: the mean of the two corner landmarks, coordinate by
      coordinate. The landmarks are numpy integers, so each mean is an integer:
      the midpoint, truncated toward zero when it falls on a half. */
  function EyeCenter(l: seq<Point>, e: Eye): (r: Result<Point>)
    ensures r.Ok? <==> |l| >= RequiredLandmarks(e)
    ensures r.Err? ==> r.error == LandmarkOutOfRange
    ensures r.Ok? ==>
      var (a, b) := CornerIndices(e);
      TruncatedHalf(l[a].x + l[b].x, r.value.x) && TruncatedHalf(l[a].y + l[b].y, r.value.y)
  {
    var (a, b) := CornerIndices(e);
    if |l| <= a || |l| <= b then Err(LandmarkOutOfRange)
    else Ok(Point(MeanOfTwo(l[a].x, l[b].x), MeanOfTwo(l[a].y, l[b].y)))
  }

  /** The two corners the source computes, under the source's own names:
      `upLeft` holds the left x and the LARGER y, `botRight` the right x and
      the smaller y (image y grows downward). */
  datatype CropCorners = CropCorners(upLeft: Point, botRight: Point)

  /** Corners of the window around centre `c`: the centre plus and minus half
      the window, a float, each coordinate passed through `int()`. The centre
      is whole and so are the halves, so no truncation moves a corner: the
      window is 60 wide and 36 high with the centre at its middle. */
  function CornersAround(c: Point): (k: CropCorners)
    ensures k.upLeft == Point(c.x - CropWidth / 2, c.y + CropHeight / 2)
    ensures k.botRight == Point(c.x + CropWidth / 2, c.y - CropHeight / 2)
    ensures k.botRight.x - k.upLeft.x == CropWidth && k.upLeft.y - k.botRight.y == CropHeight
  {
    var halfW, halfH := (CropWidth as real) / 2.0, (CropHeight as real) / 2.0;
    CropCorners(Point(Trunc(c.x as real - halfW), Trunc(c.y as real + halfH)),
                Point(Trunc(c.x as real + halfW), Trunc(c.y as real - halfH)))
  }

  /** `grayImage[botRight[1]:upLeft[1], upLeft[0]:botRight[0]]`: the smaller y
      starts the row range and the larger y ends it. */
  function CropAt(img: seq<seq<int>>, k: CropCorners): (r: seq<seq<int>>)
    ensures |r| <= |img|
    ensures 0 <= k.botRight.y <= k.upLeft.y ==> |r| == ClippedLength(k.botRight.y, k.upLeft.y, |img|)
    ensures 0 <= k.botRight.y && 0 <= k.upLeft.x ==>
      forall i :: 0 <= i < |r| ==> k.botRight.y + i < |img| && (|r[i]| == 0 || k.upLeft.x + |r[i]| <= |img[k.botRight.y + i]|)
    ensures 0 <= k.botRight.y && 0 <= k.upLeft.x ==>
      forall i, j :: 0 <= i < |r| && 0 <= j < |r[i]| ==> r[i][j] == img[k.botRight.y + i][k.upLeft.x + j]
  {
    Slice2D(img, k.botRight.y, k.upLeft.y, k.upLeft.x, k.botRight.x)
  }

  /** `getRightEye` / `getLeftEye`: crop the window around the eye's centre. */
  function GetEye(img: seq<seq<int>>, l: seq<Point>, e: Eye): (r: Result<seq<seq<int>>>)
    ensures r.Ok? <==> |l| >= RequiredLandmarks(e)
    ensures r.Err? ==> r.error == LandmarkOutOfRange
  {
    match EyeCenter(l, e)
    case Err(err) => Err(err)
    case Ok(c) => Ok(CropAt(img, CornersAround(c)))
  }

  /** `getRightEye`: needs landmarks 36 and 39. */
  function GetRightEye(img: seq<seq<int>>, l: seq<Point>): (r: Result<seq<seq<int>>>)
    ensures r.Ok? <==> |l| >= 40
    ensures r.Err? ==> r.error == LandmarkOutOfRange
  {
    GetEye(img, l, RightEye)
  }

  /** `getLeftEye`: needs landmarks 42 and 45. */
  function GetLeftEye(img: seq<seq<int>>, l: seq<Point>): (r: Result<seq<seq<int>>>)
    ensures r.Ok? <==> |l| >= 46
    ensures r.Err? ==> r.error == LandmarkOutOfRange
  {
    GetEye(img, l, LeftEye)
  }

  /** The row and column where the crop starts, for a centre at least (30, 18). */
  function WindowTop(c: Point): int { c.y - CropHeight / 2 }
  function WindowLeft(c: Point): int { c.x - CropWidth / 2 }

  /** For a centre at least (30, 18) the crop is the part of rows
      [y - 18, y + 18) and columns [x - 30, x + 30)
      that lies inside the image: clipped at the bottom and right edges,
      never padded, and every pixel is the image's pixel at the shifted position. */
  lemma EyeCropWindow(img: seq<seq<int>>, w: nat, l: seq<Point>, e: Eye)
    requires Rectangular(img, w)
    requires EyeCenter(l, e).Ok?
    requires EyeCenter(l, e).value.x >= 30 && EyeCenter(l, e).value.y >= 18
    ensures GetEye(img, l, e).Ok?
    ensures var c, crop := EyeCenter(l, e).value, GetEye(img, l, e).value;
      var r0, c0 := WindowTop(c), WindowLeft(c);
      0 <= r0 && 0 <= c0 &&
      |crop| == ClippedLength(r0, r0 + CropHeight, |img|) &&
      Rectangular(crop, ClippedLength(c0, c0 + CropWidth, w)) &&
      forall i, j :: 0 <= i < |crop| && 0 <= j < |crop[i]| ==> crop[i][j] == img[r0 + i][c0 + j]
  {
    var c := EyeCenter(l, e).value;
    var k := CornersAround(c);
    Slice2DWindow(img, w, k.botRight.y, k.upLeft.y, k.upLeft.x, k.botRight.x);
  }

  /** When the window lies inside the image, the crop is exactly 36 rows of
      60 pixels, the sub-matrix of the image that starts at the window's corner. */
  lemma EyeCropExact(img: seq<seq<int>>, w: nat, l: seq<Point>, e: Eye)
    requires Rectangular(img, w)
    requires EyeCenter(l, e).Ok?
    requires EyeCenter(l, e).value.x >= 30 && EyeCenter(l, e).value.y >= 18
    requires WindowTop(EyeCenter(l, e).value) + CropHeight <= |img|
    requires WindowLeft(EyeCenter(l, e).value) + CropWidth <= w
    ensures GetEye(img, l, e).Ok?
    ensures var c, crop := EyeCenter(l, e).value, GetEye(img, l, e).value;
      |crop| == CropHeight && Rectangular(crop, CropWidth) &&
      forall i, j :: 0 <= i < CropHeight && 0 <= j < CropWidth ==>
        crop[i][j] == img[WindowTop(c) + i][WindowLeft(c) + j]
  {
    EyeCropWindow(img, w, l, e);
  }

  /** Right-eye corners at (300, 250) and (340, 250): the centre is (320, 250),
      and from a 426x640 image rows 232..268 and columns 290..350 are cropped. */
  lemma RightEyeWorkedExample(img: seq<seq<int>>, l: seq<Point>)
    requires |img| == 426 && Rectangular(img, 640)
    requires |l| == 68 && l[36] == Point(300, 250) && l[39] == Point(340, 250)
    ensures EyeCenter(l, RightEye) == Ok(Point(320, 250))
    ensures CornersAround(Point(320, 250)) == CropCorners(Point(290, 268), Point(350, 232))
    ensures GetRightEye(img, l).Ok?
    ensures var crop := GetRightEye(img, l).value;
      |crop| == 36 && Rectangular(crop, 60) &&
      forall i, j :: 0 <= i < 36 && 0 <= j < 60 ==> crop[i][j] == img[232 + i][290 + j]
  {
    var c := Point(320, 250);
    assert EyeCenter(l, RightEye) == Ok(c);
    assert WindowTop(c) == 232 && WindowLeft(c) == 290;
    EyeCropExact(img, 640, l, RightEye);
  }

  /** Right-eye corners at (100, 200) and (140, 200): the window's corners are
      the centre (120, 200) plus and minus (30, 18). */
  lemma RightEyeSecondExample(l: seq<Point>)
    requires |l| == 68 && l[36] == Point(100, 200) && l[39] == Point(140, 200)
    ensures EyeCenter(l, RightEye) == Ok(Point(120, 200))
    ensures CornersAround(Point(120, 200)) == CropCorners(Point(90, 218), Point(150, 182))
  {
  }

  /** An odd sum of corner x's puts the mean on a half, which is dropped:
      corners (300, 250) and (341, 250) give the centre (320, 250). */
  lemma OddSumCentreTruncates(l: seq<Point>)
    requires |l| == 68 && l[36] == Point(300, 250) && l[39] == Point(341, 250)
    ensures EyeCenter(l, RightEye) == Ok(Point(320, 250))
    ensures CornersAround(Point(320, 250)) == CropCorners(Point(290, 268), Point(350, 232))
  {
  }

  /** A negative half is truncated up to zero: corners on rows 0 and -1 give
      centre row 0, so from an 18-row image the rows taken are [-18:18],
      which is all 18 rows, and columns [20:80]. */
  lemma NegativeHalfCentre(img: seq<seq<int>>, l: seq<Point>)
    requires |img| == 18 && Rectangular(img, 100)
    requires |l| == 68 && l[36] == Point(50, 0) && l[39] == Point(50, -1)
    ensures EyeCenter(l, RightEye) == Ok(Point(50, 0))
    ensures CornersAround(Point(50, 0)) == CropCorners(Point(20, 18), Point(80, -18))
    ensures GetRightEye(img, l).Ok?
    ensures var crop := GetRightEye(img, l).value;
      |crop| == 18 && Rectangular(crop, 60) &&
      forall i, j :: 0 <= i < 18 && 0 <= j < 60 ==> crop[i][j] == img[i][20 + j]
  {
    assert EyeCenter(l, RightEye) == Ok(Point(50, 0));
    var rows := Slice(img, -18, 18);
    assert rows == img;
    var crop := GetRightEye(img, l).value;
    assert crop == Slice2D(img, -18, 18, 20, 80);
    forall i | 0 <= i < 18
      ensures |crop[i]| == 60 && forall j :: 0 <= j < 60 ==> crop[i][j] == img[i][20 + j]
    {
      assert crop[i] == Slice(rows[i], 20, 80);
    }
  }

  /** Near the top edge the window's negative start row counts from the bottom
      of the image: with the eye centred on row 10 of a 426-row image the rows
      taken are [418:28], which is empty, so the crop has no pixels at all. */
  lemma TopEdgeCropIsEmpty(img: seq<seq<int>>, l: seq<Point>)
    requires |img| == 426
    requires |l| == 68 && l[36] == Point(300, 10) && l[39] == Point(340, 10)
    ensures GetEye(img, l, RightEye) == Ok([])
  {
    assert EyeCenter(l, RightEye) == Ok(Point(320, 10));
    assert CornersAround(Point(320, 10)) == CropCorners(Point(290, 28), Point(350, -8));
  }
}
