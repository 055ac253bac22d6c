/** The pieces of Python and numpy semantics the eye crop depends on:
    `int()` applied to a float, `statistics.mean` of two integers, and
    slicing `s[a:b]` with step 1. */
module PythonSemantics {

  /** `int(x)` for a float `x`: truncation toward zero, which is the floor
      for non-negative `x` and the ceiling for negative `x`. */
  function Trunc(x: real): (r: int)
    ensures 0.0 <= x ==> r as real <= x < r as real + 1.0
    ensures x < 0.0 ==> r as real - 1.0 < x <= r as real
  {
    if x >= 0.0 then x.Floor else -((-x).Floor)
  }

  /** `m` is half of `s` truncated toward zero: the exact half when `s` is
      even, and the half rounded toward zero when `s` is odd. */
  predicate TruncatedHalf(s: int, m: int) {
    if s >= 0 then 2 * m <= s <= 2 * m + 1 else 2 * m - 1 <= s <= 2 * m
  }

  /** `statistics.mean` of two numpy integers. The exact mean is converted
      back to the integer type of the data, which truncates toward zero. */
  function MeanOfTwo(a: int, b: int): (m: int)
    ensures TruncatedHalf(a + b, m)
    ensures (a + b) % 2 == 0 ==> m + m == a + b
    ensures a <= b ==> a - 1 <= m <= b
  {
    Trunc((a + b) as real / 2.0)
  }

  /** Number of elements of `s[a:b]` when `0 <= a <= b` and `|s| == n`:
      the slice is clipped at the end of the sequence, never padded. */
  function ClippedLength(a: int, b: int, n: nat): nat
    requires 0 <= a <= b
  {
    if a < n then (if b < n then b else n) - a else 0
  }

  /** How a slice bound is adjusted against a length: a negative bound counts
      from the end, and the result is clamped into [0, len]. */
  function AdjustIndex(i: int, len: nat): (r: nat)
    ensures r <= len
    ensures 0 <= i ==> r == if i < len then i else len
    ensures i < 0 && 0 <= i + len ==> r == i + len
    ensures i + len < 0 ==> r == 0
  {
    if i < 0 then (if i + len < 0 then 0 else i + len)
    else if i < len then i else len
  }

  /** `s[a:b]` for a Python sequence or one axis of a numpy array. */
  function Slice<T>(s: seq<T>, a: int, b: int): (r: seq<T>)
    ensures |r| <= |s|
    ensures 0 <= a <= b ==> |r| == ClippedLength(a, b, |s|)
    ensures 0 <= a && |r| > 0 ==> a + |r| <= |s|
    ensures 0 <= a ==> forall k :: 0 <= k < |r| ==> r[k] == s[a + k]
  {
    var lo, hi := AdjustIndex(a, |s|), AdjustIndex(b, |s|);
    if lo < hi then s[lo..hi] else []
  }

  /** A numpy 2-D array of width `w`, as the sequence of its rows. */
  predicate Rectangular<T>(m: seq<seq<T>>, w: nat) {
    forall i :: 0 <= i < |m| ==> |m[i]| == w
  }

  /** `m[r0:r1, c0:c1]` for a 2-D numpy array `m`. */
  function Slice2D<T>(m: seq<seq<T>>, r0: int, r1: int, c0: int, c1: int): (r: seq<seq<T>>)
    ensures |r| == |Slice(m, r0, r1)|
    ensures 0 <= r0 ==> forall i :: 0 <= i < |r| ==>
      r0 + i < |m| && (0 <= c0 ==> |r[i]| == 0 || c0 + |r[i]| <= |m[r0 + i]|)
    ensures 0 <= r0 && 0 <= c0 ==>
      forall i, j :: 0 <= i < |r| && 0 <= j < |r[i]| ==> r[i][j] == m[r0 + i][c0 + j]
  {
    var rows := Slice(m, r0, r1);
    var r := seq(|rows|, i requires 0 <= i < |rows| => Slice(rows[i], c0, c1));
    assert 0 <= r0 && 0 <= c0 ==> forall i :: 0 <= i < |r| ==> r0 + i < |m| && rows[i] == m[r0 + i];
    r
  }

  /** A window with non-negative bounds takes exactly the part of it that lies
      inside the array: clipped at the bottom and right edges, never padded. */
  lemma Slice2DWindow<T>(m: seq<seq<T>>, w: nat, r0: int, r1: int, c0: int, c1: int)
    requires Rectangular(m, w)
    requires 0 <= r0 <= r1 && 0 <= c0 <= c1
    ensures |Slice2D(m, r0, r1, c0, c1)| == ClippedLength(r0, r1, |m|)
    ensures Rectangular(Slice2D(m, r0, r1, c0, c1), ClippedLength(c0, c1, w))
    ensures forall i, j :: 0 <= i < ClippedLength(r0, r1, |m|) && 0 <= j < ClippedLength(c0, c1, w) ==>
      Slice2D(m, r0, r1, c0, c1)[i][j] == m[r0 + i][c0 + j]
  {
    var r := Slice2D(m, r0, r1, c0, c1);
    forall i | 0 <= i < |r|
      ensures |r[i]| == ClippedLength(c0, c1, w)
    {
      assert Slice(m, r0, r1)[i] == m[r0 + i];
    }
  }
}
