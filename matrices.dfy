/** Two-dimensional complex arrays as sequences of rows, and the slicing rules
    of Python sequences. */
module Matrices {
  import opened ComplexArith

  type Matrix = seq<seq<Complex>>

  /** `m` has shape (rows, cols). */
  predicate IsMatrix(m: Matrix, rows: nat, cols: nat) {
    |m| == rows && forall r :: 0 <= r < rows ==> |m[r]| == cols
  }

  /** A tap array or a dual-polarisation signal: two rows of equal length. */
  predicate IsTwoRow(m: Matrix) {
    |m| == 2 && |m[0]| == |m[1]|
  }

  /** `wx.shape[1]` of a two-row array. */
  function Width(m: Matrix): nat
    requires |m| > 0
  {
    |m[0]|
  }

  /** A row of `cols` zeros. */
  function ZeroRow(cols: nat): (z: seq<Complex>)
    ensures |z| == cols && forall c :: 0 <= c < cols ==> z[c] == Zero
  {
    seq(cols, _ => Zero)
  }

  /** np.zeros((rows, cols)) */
  function Zeros(rows: nat, cols: nat): (m: Matrix)
    ensures IsMatrix(m, rows, cols)
    ensures forall r :: 0 <= r < rows ==> m[r] == ZeroRow(cols)
  {
    seq(rows, _ => ZeroRow(cols))
  }

  /** Row-major flattening of a two-row array (`w.flatten()`). */
  function Flatten(m: Matrix): seq<Complex>
    requires |m| == 2
  {
    m[0] + m[1]
  }

  /** np.hstack of two two-row arrays. */
  function HStack(a: Matrix, b: Matrix): Matrix
    requires |a| == 2 && |b| == 2
  {
    [a[0] + b[0], a[1] + b[1]]
  }

  /** `m[:, d:]` of a two-row array. */
  function DropColumns(m: Matrix, d: nat): Matrix
    requires IsTwoRow(m) && d <= |m[0]|
  {
    [m[0][d..], m[1][d..]]
  }

  /** np.hstack((m[:, d:], np.zeros((2, d)))): every column moves d places
      left and the vacated right end is zero. */
  function ShiftLeft(m: Matrix, d: nat): (s: Matrix)
    requires IsTwoRow(m) && d <= Width(m)
    ensures IsMatrix(s, 2, Width(m))
    ensures forall c :: 0 <= c < Width(m) ==> s[0][c] == if c + d < Width(m) then m[0][c + d] else Zero
    ensures forall c :: 0 <= c < Width(m) ==> s[1][c] == if c + d < Width(m) then m[1][c + d] else Zero
  {
    HStack(DropColumns(m, d), Zeros(2, d))
  }

  /** `m[:, :k]` of a two-row array, for k within its width. */
  function TakeColumns(m: Matrix, k: nat): (t: Matrix)
    requires IsTwoRow(m) && k <= Width(m)
    ensures |t| == 2 && |t[0]| == k && |t[1]| == k
    ensures forall c :: 0 <= c < k ==> t[0][c] == m[0][c] && t[1][c] == m[1][c]
  {
    [m[0][..k], m[1][..k]]
  }

  /** Where a slice bound `i` lands in a sequence of length `n`: negative
      bounds count from the end, and the result is clamped to [0, n]. */
  function SliceBound(i: int, n: nat): (b: nat)
    ensures b <= n
    ensures 0 <= i <= n ==> b == i
    ensures -(n as int) <= i < 0 ==> b == n + i
  {
    if i < 0 then (if i + n < 0 then 0 else i + n) else if i > n then n else i
  }

  /** Python's `s[start:stop]`. */
  function Slice<T>(s: seq<T>, start: int, stop: int): (r: seq<T>)
    ensures var a, b := SliceBound(start, |s|), SliceBound(stop, |s|);
      |r| == (if a < b then b - a else 0) &&
      forall k :: 0 <= k < |r| ==> r[k] == s[a + k]
  {
    var a, b := SliceBound(start, |s|), SliceBound(stop, |s|);
    if a < b then s[a..b] else []
  }
}
