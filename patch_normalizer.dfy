/** Min-max normalisation of a flattened eye patch (`normalize`) and its
    reshaping back to 36x60 with `np.resize`. Pixel values are real numbers:
    float32 rounding is not modelled. */
module PatchNormalizer {
  import opened Common
  import opened PythonSemantics

  /** The `(36, 60)` shape passed to `np.resize`: rows, then columns. */
  const PatchRows: nat := 36
  const PatchCols: nat := 60

  /** `min(v)`: the least element. */
  function Minimum(v: seq<real>): (m: real)
    requires |v| > 0
    ensures forall i :: 0 <= i < |v| ==> m <= v[i]
    ensures exists i :: 0 <= i < |v| && v[i] == m
  {
    if |v| == 1 then v[0]
    else
      var rest := Minimum(v[1..]);
      assert forall i :: 1 <= i < |v| ==> v[i] == v[1..][i - 1];
      if v[0] <= rest then v[0] else rest
  }

  /** `max(v)`: the greatest element. */
  function Maximum(v: seq<real>): (m: real)
    requires |v| > 0
    ensures forall i :: 0 <= i < |v| ==> v[i] <= m
    ensures exists i :: 0 <= i < |v| && v[i] == m
  {
    if |v| == 1 then v[0]
    else
      var rest := Maximum(v[1..]);
      assert forall i :: 1 <= i < |v| ==> v[i] == v[1..][i - 1];
      if v[0] >= rest then v[0] else rest
  }

  /** The position of v between lo and hi, as a fraction of hi - lo. */
  function Scale(lo: real, hi: real, v: real): real
    requires lo < hi
  {
    (v - lo) / (hi - lo)
  }

  /** `(v - min(v)) / (max(v) - min(v))`. An empty patch makes `min` raise;
      an all-equal patch divides zero by zero. Otherwise every value is
      replaced by its position between the minimum and the maximum. */
  function Normalize(v: seq<real>): (r: Result<seq<real>>)
    ensures |v| == 0 ==> r == Err(EmptyPatch)
    ensures |v| > 0 ==> (r.Err? <==> Minimum(v) == Maximum(v))
    ensures |v| > 0 && r.Err? ==> r.error == DegeneratePatch
    ensures r.Ok? ==> |r.value| == |v|
    ensures r.Ok? ==> forall i :: 0 <= i < |v| ==>
      r.value[i] == Scale(Minimum(v), Maximum(v), v[i])
  {
    if |v| == 0 then Err(EmptyPatch)
    else
      var lo, hi := Minimum(v), Maximum(v);
      if lo == hi then Err(DegeneratePatch)
      else Ok(seq(|v|, i requires 0 <= i < |v| => Scale(lo, hi, v[i])))
  }

  /** With b positive, a * b has the sign of a. */
  lemma ProductSign(a: real, b: real)
    requires b > 0.0
    ensures a * b > 0.0 <==> a > 0.0
    ensures a * b == 0.0 <==> a == 0.0
  {
    if a > 0.0 {
      assert a * b > 0.0;
    } else if a < 0.0 {
      assert (-a) * b > 0.0;
    }
  }

  /** Scaling is undone by lo + x * (hi - lo). */
  lemma ScaleRecovers(lo: real, hi: real, v: real)
    requires lo < hi
    ensures lo + Scale(lo, hi, v) * (hi - lo) == v
  {
  }

  /** The scaled value of v, for lo <= v <= hi, lies in [0, 1]; it is 0
      exactly at lo and 1 exactly at hi. */
  lemma ScaledPosition(lo: real, hi: real, v: real)
    requires lo < hi && lo <= v <= hi
    ensures 0.0 <= Scale(lo, hi, v) <= 1.0
    ensures Scale(lo, hi, v) == 0.0 <==> v == lo
    ensures Scale(lo, hi, v) == 1.0 <==> v == hi
  {
    var x := Scale(lo, hi, v);
    ScaleRecovers(lo, hi, v);
    ProductSign(x, hi - lo);
    ProductSign(1.0 - x, hi - lo);
    assert (1.0 - x) * (hi - lo) == hi - v;
  }

  /** Scaling against the same bounds keeps the order of two values. */
  lemma ScaledOrder(lo: real, hi: real, v: real, w: real)
    requires lo < hi
    ensures v <= w <==> Scale(lo, hi, v) <= Scale(lo, hi, w)
  {
    var x, y := Scale(lo, hi, v), Scale(lo, hi, w);
    ScaleRecovers(lo, hi, v);
    ScaleRecovers(lo, hi, w);
    ProductSign(y - x, hi - lo);
    assert (y - x) * (hi - lo) == w - v;
  }

  /** Every normalised value lies in [0, 1]; an element is mapped to 0 exactly
      when it is a minimum of the patch and to 1 exactly when it is a maximum,
      and both 0 and 1 occur. */
  lemma NormalizeUnitRange(v: seq<real>)
    requires Normalize(v).Ok?
    ensures var out := Normalize(v).value;
      (forall i :: 0 <= i < |v| ==> 0.0 <= out[i] <= 1.0) &&
      (forall i :: 0 <= i < |v| ==> (out[i] == 0.0 <==> v[i] == Minimum(v))) &&
      (forall i :: 0 <= i < |v| ==> (out[i] == 1.0 <==> v[i] == Maximum(v))) &&
      (exists i :: 0 <= i < |v| && out[i] == 0.0) &&
      (exists i :: 0 <= i < |v| && out[i] == 1.0)
  {
    var out := Normalize(v).value;
    var lo, hi := Minimum(v), Maximum(v);
    forall i | 0 <= i < |v|
      ensures 0.0 <= out[i] <= 1.0
      ensures out[i] == 0.0 <==> v[i] == lo
      ensures out[i] == 1.0 <==> v[i] == hi
    {
      ScaledPosition(lo, hi, v[i]);
    }
    var a :| 0 <= a < |v| && v[a] == lo;
    var b :| 0 <= b < |v| && v[b] == hi;
    assert out[a] == 0.0 && out[b] == 1.0;
  }

  /** Normalisation keeps the order of the pixels, in both directions. */
  lemma NormalizeMonotone(v: seq<real>)
    requires Normalize(v).Ok?
    ensures var out := Normalize(v).value;
      forall i, j :: 0 <= i < |v| && 0 <= j < |v| ==> (v[i] <= v[j] <==> out[i] <= out[j])
  {
    var out := Normalize(v).value;
    var lo, hi := Minimum(v), Maximum(v);
    forall i, j | 0 <= i < |v| && 0 <= j < |v|
      ensures v[i] <= v[j] <==> out[i] <= out[j]
    {
      ScaledOrder(lo, hi, v[i], v[j]);
    }
  }

  /** A value is the minimum (maximum) of a sequence when it is below (above)
      every element and occurs in it. */
  lemma MinMaxUnique(v: seq<real>, lo: real, hi: real)
    requires |v| > 0
    requires forall i :: 0 <= i < |v| ==> lo <= v[i] <= hi
    requires exists i :: 0 <= i < |v| && v[i] == lo
    requires exists i :: 0 <= i < |v| && v[i] == hi
    ensures Minimum(v) == lo && Maximum(v) == hi
  {
    var a :| 0 <= a < |v| && v[a] == lo;
    var b :| 0 <= b < |v| && v[b] == hi;
    assert Minimum(v) <= v[a] && Maximum(v) >= v[b];
  }

  /** Normalising an already normalised patch changes nothing. */
  lemma NormalizeIdempotent(v: seq<real>)
    requires Normalize(v).Ok?
    ensures Normalize(Normalize(v).value) == Normalize(v)
  {
    var out := Normalize(v).value;
    NormalizeUnitRange(v);
    MinMaxUnique(out, 0.0, 1.0);
    assert Normalize(out).Ok?;
    var again := Normalize(out).value;
    assert |again| == |out|;
    forall i | 0 <= i < |out|
      ensures again[i] == out[i]
    {
      assert again[i] == Scale(0.0, 1.0, out[i]) == out[i];
    }
    assert again == out;
  }

  /** A non-empty patch is degenerate exactly when all its pixels are equal. */
  lemma DegenerateIffConstant(v: seq<real>)
    requires |v| > 0
    ensures Normalize(v).Err? <==> forall i, j :: 0 <= i < |v| && 0 <= j < |v| ==> v[i] == v[j]
  {
    var a :| 0 <= a < |v| && v[a] == Minimum(v);
    var b :| 0 <= b < |v| && v[b] == Maximum(v);
    if forall i, j :: 0 <= i < |v| && 0 <= j < |v| ==> v[i] == v[j] {
      assert v[a] == v[b];
    }
  }

  /** `ndarray.flatten()`: the rows laid end to end. */
  function Flatten<T>(m: seq<seq<T>>): (r: seq<T>)
    ensures forall i, x :: 0 <= i < |m| && x in m[i] ==> x in r
  {
    if |m| == 0 then [] else m[0] + Flatten(m[1..])
  }

  /** Flattening `rows` rows of width `w` gives rows * w values. */
  lemma {:induction false} FlattenLength<T>(m: seq<seq<T>>, w: nat)
    requires Rectangular(m, w)
    ensures |Flatten(m)| == |m| * w
  {
    if |m| > 0 {
      FlattenLength(m[1..], w);
    }
  }

  /** Row-major order: the pixel in row i, column j is the flat value at i * w + j. */
  lemma {:induction false} FlattenAt<T>(m: seq<seq<T>>, w: nat, i: nat, j: nat)
    requires Rectangular(m, w)
    requires i < |m| && j < w
    ensures i * w + j < |Flatten(m)|
    ensures Flatten(m)[i * w + j] == m[i][j]
  {
    FlattenLength(m, w);
    if i > 0 {
      FlattenAt(m[1..], w, i - 1, j);
      assert i * w + j == w + ((i - 1) * w + j);
    }
  }

  /** Position k of a rows x cols array lies in row k / cols, column k % cols. */
  lemma RowMajorSplit(k: nat, rows: nat, cols: nat)
    requires k < rows * cols
    ensures cols > 0 && k / cols < rows && k % cols < cols
    ensures k == (k / cols) * cols + k % cols
  {
    if cols == 0 {
      assert false;
    }
  }

  /** A position (i, j) of a rows x cols array, numbered in row-major order,
      lies before rows * cols. */
  lemma RowMajorBound(i: nat, j: nat, rows: nat, cols: nat)
    requires i < rows && j < cols
    ensures i * cols + j < rows * cols
  {
    assert i * cols + j < (i + 1) * cols;
    assert (i + 1) * cols <= rows * cols;
  }

  /** `np.resize(a, (rows, cols))`: `a` repeated cyclically (or truncated) to
      fill the shape; an empty `a` gives zeros. */
  function Resize(a: seq<real>, rows: nat, cols: nat): (r: seq<seq<real>>)
    ensures |r| == rows && Rectangular(r, cols)
    ensures |a| == 0 ==> forall i, j :: 0 <= i < rows && 0 <= j < cols ==> r[i][j] == 0.0
  {
    seq(rows, i => seq(cols, j => if |a| == 0 then 0.0 else a[(i * cols + j) % |a|]))
  }

  /** Read in row-major order, the resized array is the input repeated: its
      k-th value is a[k mod |a|], for exactly rows * cols values. */
  lemma ResizeCyclic(a: seq<real>, rows: nat, cols: nat)
    requires |a| > 0
    ensures |Flatten(Resize(a, rows, cols))| == rows * cols
    ensures forall k :: 0 <= k < rows * cols ==> Flatten(Resize(a, rows, cols))[k] == a[k % |a|]
  {
    var r := Resize(a, rows, cols);
    FlattenLength(r, cols);
    forall k | 0 <= k < rows * cols
      ensures Flatten(r)[k] == a[k % |a|]
    {
      RowMajorSplit(k, rows, cols);
      FlattenAt(r, cols, k / cols, k % cols);
    }
  }

  /** An input of exactly rows * cols values is only reshaped: flattening the
      result gives the input back. */
  lemma ResizeFlattenRoundTrip(a: seq<real>, rows: nat, cols: nat)
    requires |a| == rows * cols
    ensures Flatten(Resize(a, rows, cols)) == a
  {
    ResizeTruncates(a, rows, cols);
    assert a[..rows * cols] == a;
  }

  /** A longer input is truncated to its first rows * cols values. */
  lemma ResizeTruncates(a: seq<real>, rows: nat, cols: nat)
    requires |a| >= rows * cols
    ensures Flatten(Resize(a, rows, cols)) == a[..rows * cols]
  {
    var f := Flatten(Resize(a, rows, cols));
    FlattenLength(Resize(a, rows, cols), cols);
    if |a| > 0 {
      ResizeCyclic(a, rows, cols);
      forall k | 0 <= k < rows * cols
        ensures f[k] == a[k]
      {
        ModOfSmall(k, |a|);
      }
    }
    assert f == a[..rows * cols];
  }

  lemma ModOfSmall(k: nat, n: nat)
    requires k < n
    ensures k % n == k
  {
  }

  /** Resizing the flattening of a rows x cols array gives the array back. */
  lemma FlattenResizeRoundTrip(m: seq<seq<real>>, rows: nat, cols: nat)
    requires |m| == rows && Rectangular(m, cols)
    ensures Resize(Flatten(m), rows, cols) == m
  {
    var flat := Flatten(m);
    FlattenLength(m, cols);
    var r := Resize(flat, rows, cols);
    forall i | 0 <= i < rows
      ensures r[i] == m[i]
    {
      forall j | 0 <= j < cols
        ensures r[i][j] == m[i][j]
      {
        var k := i * cols + j;
        RowMajorBound(i, j, rows, cols);
        ModOfSmall(k, |flat|);
        FlattenAt(m, cols, i, j);
        assert r[i][j] == flat[k % |flat|];
      }
    }
  }

  /** `np.array(patch, dtype=np.float32)`: pixel values as numbers. */
  function ToReals(m: seq<seq<int>>): (r: seq<seq<real>>)
    ensures |r| == |m|
    ensures forall i :: 0 <= i < |m| ==> |r[i]| == |m[i]|
    ensures forall i, j :: 0 <= i < |m| && 0 <= j < |m[i]| ==> r[i][j] == m[i][j] as real
  {
    seq(|m|, i requires 0 <= i < |m| => seq(|m[i]|, j requires 0 <= j < |m[i]| => m[i][j] as real))
  }

  /** The flattened float copy of a patch that `normalize` receives. */
  function FlatPixels(patch: seq<seq<int>>): seq<real> {
    Flatten(ToReals(patch))
  }

  /** `np.resize(np.array(normalize(flattened)), (36, 60))`. */
  function PreparePatch(patch: seq<seq<int>>): (r: Result<seq<seq<real>>>)
    ensures r.Err? <==> Normalize(FlatPixels(patch)).Err?
    ensures r.Ok? ==> |r.value| == PatchRows && Rectangular(r.value, PatchCols)
  {
    match Normalize(FlatPixels(patch))
    case Err(e) => Err(e)
    case Ok(n) => Ok(Resize(n, PatchRows, PatchCols))
  }

  /** Whatever the size of the crop, a prepared patch is 36x60 and every value
      lies in [0, 1]. */
  lemma PreparedPatchInUnitRange(patch: seq<seq<int>>)
    requires PreparePatch(patch).Ok?
    ensures var p := PreparePatch(patch).value;
      forall i, j :: 0 <= i < PatchRows && 0 <= j < PatchCols ==> 0.0 <= p[i][j] <= 1.0
  {
    var flat := FlatPixels(patch);
    var n := Normalize(flat).value;
    NormalizeUnitRange(flat);
    var p := PreparePatch(patch).value;
    forall i, j | 0 <= i < PatchRows && 0 <= j < PatchCols
      ensures 0.0 <= p[i][j] <= 1.0
    {
      assert p[i][j] == n[(i * PatchCols + j) % |n|];
    }
  }

  /** A full 36x60 crop keeps its layout: each prepared value is the pixel
      at the same row and column, scaled between the crop's least and
      greatest pixel. */
  lemma PreparedPatchOfFullCrop(patch: seq<seq<int>>)
    requires |patch| == PatchRows && Rectangular(patch, PatchCols)
    requires PreparePatch(patch).Ok?
    ensures var p, flat := PreparePatch(patch).value, FlatPixels(patch);
      forall i, j :: 0 <= i < PatchRows && 0 <= j < PatchCols ==>
        p[i][j] == Scale(Minimum(flat), Maximum(flat), patch[i][j] as real)
  {
    var reals := ToReals(patch);
    var flat := FlatPixels(patch);
    var n := Normalize(flat).value;
    FlattenLength(reals, PatchCols);
    var p := PreparePatch(patch).value;
    forall i, j | 0 <= i < PatchRows && 0 <= j < PatchCols
      ensures p[i][j] == Scale(Minimum(flat), Maximum(flat), patch[i][j] as real)
    {
      var k := i * PatchCols + j;
      RowMajorBound(i, j, PatchRows, PatchCols);
      ModOfSmall(k, |n|);
      FlattenAt(reals, PatchCols, i, j);
      assert p[i][j] == n[k % |n|] == n[k];
      assert flat[k] == reals[i][j] == patch[i][j] as real;
    }
  }

  /** Preparing fails exactly for a crop without pixels (`min` of an empty
      sequence) or one whose pixels are all equal. */
  lemma PreparePatchErrors(patch: seq<seq<int>>)
    ensures PreparePatch(patch).Err? <==>
      |FlatPixels(patch)| == 0 ||
      forall i, j :: 0 <= i < |FlatPixels(patch)| && 0 <= j < |FlatPixels(patch)| ==>
        FlatPixels(patch)[i] == FlatPixels(patch)[j]
  {
    if |FlatPixels(patch)| > 0 {
      DegenerateIffConstant(FlatPixels(patch));
    }
  }
}
