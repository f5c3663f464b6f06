/** Tap initialisation of the dual-polarisation equaliser: the centre-tap
    filter of the X polarisation and the "orthogonal" filter derived from it
    for the Y polarisation (dsp/equalisation/equalisation.py, _init_taps and
    _init_orthogonaltaps). */
module Taps {
  import opened ComplexArith
  import opened Matrices

  /** The array `_init_taps(ntaps)` returns: zeros, then a 1 written at
      [0, ntaps // 2]. */
  function CenterTaps(ntaps: nat): (w: Matrix)
    requires ntaps >= 1
    ensures IsMatrix(w, 2, ntaps)
    ensures forall c :: 0 <= c < ntaps ==> w[0][c] == if c == ntaps / 2 then One else Zero
    ensures forall c :: 0 <= c < ntaps ==> w[1][c] == Zero
  {
    var z := Zeros(2, ntaps);
    z[0 := z[0][ntaps / 2 := One]]
  }

  /** `_init_taps` as the source runs it on a freshly allocated buffer. */
  method InitTaps(ntaps: nat) returns (wx: array2<Complex>)
    requires ntaps >= 1
    ensures wx.Length0 == 2 && wx.Length1 == ntaps
    ensures forall r, c :: 0 <= r < 2 && 0 <= c < ntaps ==> wx[r, c] == CenterTaps(ntaps)[r][c]
  {
    wx := new Complex[2, ntaps]((_, _) => Zero);
    wx[0, ntaps / 2] := One;
  }

  /** np.argmax over |s|: the first index whose magnitude is maximal. */
  function PeakIndex(s: seq<Complex>): (k: nat)
    requires |s| > 0
    ensures k < |s|
    ensures forall j :: 0 <= j < |s| ==> Abs2(s[j]) <= Abs2(s[k])
    ensures forall j :: 0 <= j < k ==> Abs2(s[j]) < Abs2(s[k])
  {
    if |s| == 1 then 0
    else
      var k := PeakIndex(s[..|s| - 1]);
      if Abs2(s[|s| - 1]) > Abs2(s[k]) then |s| - 1 else k
  }

  /** The two properties of PeakIndex determine it: it is the argmax. */
  lemma PeakIndexUnique(s: seq<Complex>, k: nat)
    requires k < |s|
    requires forall j :: 0 <= j < |s| ==> Abs2(s[j]) <= Abs2(s[k])
    requires forall j :: 0 <= j < k ==> Abs2(s[j]) < Abs2(s[k])
    ensures PeakIndex(s) == k
  {
  }

  /** The row an index of a flattened two-row array belongs to
      (np.unravel_index(k, (2, n))[0]). */
  function UnravelRow(k: nat, n: nat): (r: nat)
    requires n >= 1 && k < 2 * n
    ensures r == if k < n then 0 else 1
  {
    RowOfIndex(k, n);
    k / n
  }

  lemma RowOfIndex(k: nat, n: nat)
    requires n >= 1 && k < 2 * n
    ensures k / n == if k < n then 0 else 1
  {
    if k < n {
      assert k == 0 * n + k;
    } else {
      assert k == 1 * n + (k - n);
    }
  }

  /** Row (polarisation) index of the peak tap, as the source reads it. */
  function PeakRow(w: Matrix): (r: nat)
    requires IsTwoRow(w) && Width(w) >= 1
    ensures r <= 1
  {
    UnravelRow(PeakIndex(Flatten(w)), Width(w))
  }

  /** -conj(row[::-1]) */
  function NegConjReversed(row: seq<Complex>): (f: seq<Complex>)
    ensures |f| == |row|
    ensures forall c :: 0 <= c < |row| ==> f[c] == NegConj(row[|row| - 1 - c])
  {
    seq(|row|, c requires 0 <= c < |row| => NegConj(row[|row| - 1 - c]))
  }

  /** -np.conj(wx[::-1, ::-1]): both axes reversed, negated and conjugated. */
  function NegConjFlip(wx: Matrix): (f: Matrix)
    requires IsTwoRow(wx)
    ensures IsMatrix(f, 2, Width(wx))
    ensures forall c :: 0 <= c < Width(wx) ==> f[0][c] == NegConj(wx[1][Width(wx) - 1 - c])
    ensures forall c :: 0 <= c < Width(wx) ==> f[1][c] == NegConj(wx[0][Width(wx) - 1 - c])
  {
    [NegConjReversed(wx[1]), NegConjReversed(wx[0])]
  }

  /** The `delay` of _init_orthogonaltaps: the absolute difference of the ROW
      indices of the two peaks, hence 0 or 1 and never negative. */
  function OrthogonalDelay(wx: Matrix): (d: int)
    requires IsTwoRow(wx) && Width(wx) >= 1
    ensures d == 0 || d == 1
  {
    var wy := NegConjFlip(wx);
    var diff := PeakRow(wy) - PeakRow(wx);
    if diff < 0 then -diff else diff
  }

  /** `_init_orthogonaltaps(wx)`: flip, then shift left by `delay` columns and
      pad the vacated right end with zeros. */
  function OrthogonalTaps(wx: Matrix): (wy: Matrix)
    requires IsTwoRow(wx) && Width(wx) >= 1
    ensures IsMatrix(wy, 2, Width(wx))
    ensures var n, d := Width(wx), OrthogonalDelay(wx);
      forall c :: 0 <= c < n ==> wy[0][c] == if c + d < n then NegConj(wx[1][n - 1 - (c + d)]) else Zero
    ensures var n, d := Width(wx), OrthogonalDelay(wx);
      forall c :: 0 <= c < n ==> wy[1][c] == if c + d < n then NegConj(wx[0][n - 1 - (c + d)]) else Zero
  {
    var flipped := NegConjFlip(wx);
    var delay := OrthogonalDelay(wx);
    if delay > 0 then
      ShiftLeft(flipped, delay)
    else if delay < 0 then
      // the source's branch for a negative delay (which would also fail on
      // its undefined `Ntaps`) cannot be reached
      assert false; flipped
    else
      flipped
  }
}

/** What the tap initialisation does to the centre-tap filter. */
module TapFacts {
  import opened ComplexArith
  import opened Matrices
  import opened Taps

  /** A two-row array whose single nonzero entry `v` is in row 0, column h,
      peaks at flat index h. */
  lemma PeakInRow0(w: Matrix, h: nat, v: Complex)
    requires IsTwoRow(w) && h < Width(w) && Abs2(v) > 0.0
    requires forall c :: 0 <= c < Width(w) ==> w[0][c] == if c == h then v else Zero
    requires forall c :: 0 <= c < Width(w) ==> w[1][c] == Zero
    ensures PeakIndex(Flatten(w)) == h
  {
    var n := Width(w);
    var f := Flatten(w);
    forall j | 0 <= j < 2 * n
      ensures f[j] == if j == h then v else Zero
    {
      if j < n {
        assert f[j] == w[0][j];
      } else {
        assert f[j] == w[1][j - n];
      }
    }
    PeakIndexUnique(f, h);
  }

  /** A two-row array whose single nonzero entry `v` is in row 1, column h,
      peaks at flat index Width(w) + h. */
  lemma PeakInRow1(w: Matrix, h: nat, v: Complex)
    requires IsTwoRow(w) && h < Width(w) && Abs2(v) > 0.0
    requires forall c :: 0 <= c < Width(w) ==> w[0][c] == Zero
    requires forall c :: 0 <= c < Width(w) ==> w[1][c] == if c == h then v else Zero
    ensures PeakIndex(Flatten(w)) == Width(w) + h
  {
    var n := Width(w);
    var f := Flatten(w);
    forall j | 0 <= j < 2 * n
      ensures f[j] == if j == n + h then v else Zero
    {
      if j < n {
        assert f[j] == w[0][j];
      } else {
        assert f[j] == w[1][j - n];
      }
    }
    PeakIndexUnique(f, n + h);
  }

  /** A two-row filter whose only nonzero tap is a 1 in row 0, column h:
      what CenterTaps(n) is with h = n / 2. */
  predicate IsCentreTaps(wx: Matrix, n: nat, h: nat)
  {
    h < n && |wx| == 2 && |wx[0]| == n && |wx[1]| == n &&
    (forall c :: 0 <= c < n ==> wx[0][c] == if c == h then One else Zero) &&
    (forall c :: 0 <= c < n ==> wx[1][c] == Zero)
  }

  /** Flipping such a filter leaves row 0 zero and puts -1 in row 1 at
      column n - 1 - h. */
  lemma FlippedCentreTaps(wx: Matrix, n: nat, h: nat)
    requires IsCentreTaps(wx, n, h)
    ensures forall c :: 0 <= c < n ==> NegConjFlip(wx)[0][c] == Zero
    ensures forall c :: 0 <= c < n ==> NegConjFlip(wx)[1][c] == if c == n - 1 - h then MinusOne else Zero
  {
  }

  /** The X peak of such a filter is in row 0 and that of its flip in row 1,
      so the delay is 1. */
  lemma DelayOfCentreTaps(wx: Matrix, n: nat, h: nat)
    requires IsCentreTaps(wx, n, h)
    ensures OrthogonalDelay(wx) == 1
  {
    Abs2One();
    Abs2MinusOne();
    PeakInRow0(wx, h, One);
    FlippedCentreTaps(wx, n, h);
    PeakInRow1(NegConjFlip(wx), n - 1 - h, MinusOne);
  }

  /** The two-row filter of width n that is zero except for a -1 in row 1 at
      column n - 2 - h, when that column exists. */
  function SingleTap(n: nat, h: nat): (w: Matrix)
    ensures IsMatrix(w, 2, n)
    ensures forall c :: 0 <= c < n ==> w[0][c] == Zero
    ensures forall c :: 0 <= c < n ==> w[1][c] == if c + 2 + h == n then MinusOne else Zero
  {
    var z := ZeroRow(n);
    if h + 2 <= n then [z, z[n - 2 - h := MinusOne]] else [z, z]
  }

  /** Flipping such a filter and shifting it left by one column leaves a
      single nonzero tap, -1, in row 1 at column n - 2 - h: the flip puts the
      peak at n - 1 - h and the shift moves it one column further left (none
      is left when h = n - 1). */
  lemma {:induction false} ShiftedFlipOfCentreTaps(wx: Matrix, n: nat, h: nat)
    requires IsCentreTaps(wx, n, h)
    ensures ShiftLeft(NegConjFlip(wx), 1) == SingleTap(n, h)
  {
    var f := NegConjFlip(wx);
    FlippedCentreTaps(wx, n, h);
    var wy, s := ShiftLeft(f, 1), SingleTap(n, h);
    forall c | 0 <= c < n
      ensures wy[1][c] == s[1][c]
    {
      if c + 1 < n {
        assert wy[1][c] == f[1][c + 1];
      }
    }
    forall c | 0 <= c < n
      ensures wy[0][c] == s[0][c]
    {
      if c + 1 < n {
        assert wy[0][c] == f[0][c + 1];
      }
    }
    assert wy[0] == s[0];
    assert wy[1] == s[1];
  }

  /** Applied to such a filter, the delay is 1 and the orthogonal filter is
      the shifted flip above. */
  lemma {:induction false} OrthogonalOfCentreTaps(wx: Matrix, n: nat, h: nat)
    requires IsCentreTaps(wx, n, h)
    ensures OrthogonalDelay(wx) == 1
    ensures OrthogonalTaps(wx) == SingleTap(n, h)
  {
    DelayOfCentreTaps(wx, n, h);
    ShiftedFlipOfCentreTaps(wx, n, h);
  }

  /** Two-row filters whose nonzero taps lie in different rows -- wx in row
      0, wy in row 1 -- are orthogonal once flattened. */
  lemma RowSupportsOrthogonal(wx: Matrix, wy: Matrix, n: nat)
    requires |wx| == 2 && |wx[0]| == |wx[1]| == n && IsMatrix(wy, 2, n)
    requires forall c :: 0 <= c < n ==> wx[1][c] == Zero
    requires forall c :: 0 <= c < n ==> wy[0][c] == Zero
    ensures Dot(Flatten(wx), ConjAll(Flatten(wy))) == Zero
  {
    var a := Flatten(wx);
    var b := ConjAll(Flatten(wy));
    forall j | 0 <= j < 2 * n
      ensures a[j] == Zero || b[j] == Zero
    {
      if j < n {
        assert Flatten(wy)[j] == wy[0][j];
      } else {
        assert a[j] == wx[1][j - n];
      }
    }
    DotDisjoint(a, b);
  }

  /** The inner product sum_j wx[j] * conj(wy[j]) of a centre-tap filter and
      its orthogonal partner, both flattened, is exactly zero. */
  lemma {:induction false} CentreTapsOrthogonal(wx: Matrix, n: nat, h: nat)
    requires IsCentreTaps(wx, n, h)
    ensures Dot(Flatten(wx), ConjAll(Flatten(OrthogonalTaps(wx)))) == Zero
  {
    OrthogonalOfCentreTaps(wx, n, h);
    RowSupportsOrthogonal(wx, SingleTap(n, h), n);
  }

  /** The filters _lms_init starts from when no taps are given: the Y filter
      has its -1 at column n - 2 - n/2, one column left of the X peak for odd
      n and two for even n, and is all zero for n <= 2; the two are
      orthogonal. */
  lemma {:induction false} InitialTaps(n: nat)
    requires n >= 1
    ensures var wx, wy := CenterTaps(n), SingleTap(n, n / 2);
      OrthogonalDelay(wx) == 1 && OrthogonalTaps(wx) == wy && Dot(Flatten(wx), ConjAll(Flatten(wy))) == Zero
  {
    var wx := CenterTaps(n);
    assert IsCentreTaps(wx, n, n / 2);
    OrthogonalOfCentreTaps(wx, n, n / 2);
    CentreTapsOrthogonal(wx, n, n / 2);
  }

  /** The two-row filter of width 2 whose taps are 1 at (0, 0) and (1, 1)
      and 0 elsewhere: it passes X to X and Y to Y. */
  predicate IsDiagonal(wx: Matrix) {
    |wx| == 2 && |wx[0]| == 2 && |wx[1]| == 2 &&
    wx[0][0] == One && wx[0][1] == Zero && wx[1][0] == Zero && wx[1][1] == One
  }

  /** The literal [[1, 0], [0, 1]] is such a filter. */
  lemma DiagonalExists()
    ensures IsDiagonal([[One, Zero], [Zero, One]])
  {
  }

  lemma NegConjUnits()
    ensures NegConj(One) == MinusOne && NegConj(Zero) == Zero
  {
  }

  /** Dot over four entries, written out. */
  lemma {:induction false} DotFour(a: seq<Complex>, b: seq<Complex>)
    requires |a| == 4 && |b| == 4
    ensures Dot(a, b) == Add(Mul(a[0], b[0]), Add(Mul(a[1], b[1]), Add(Mul(a[2], b[2]), Add(Mul(a[3], b[3]), Zero))))
  {
    assert Dot(a[3..], b[3..]) == Add(Mul(a[3], b[3]), Dot(a[4..], b[4..]));
    assert Dot(a[2..], b[2..]) == Add(Mul(a[2], b[2]), Dot(a[3..], b[3..]));
    assert Dot(a[1..], b[1..]) == Add(Mul(a[1], b[1]), Dot(a[2..], b[2..]));
  }

  lemma UnitProducts()
    ensures Mul(One, MinusOne) == MinusOne
  {
  }

  lemma SumOfTwoMinusOnes()
    ensures Add(MinusOne, Add(Zero, Add(Zero, Add(MinusOne, Zero)))) == Complex(-2.0, 0.0)
  {
  }

  /** Flipping the diagonal filter gives -1 on the same diagonal. */
  lemma DiagonalFlip(wx: Matrix)
    requires IsDiagonal(wx)
    ensures var f := NegConjFlip(wx);
      |f| == 2 && |f[0]| == 2 && |f[1]| == 2 &&
      f[0][0] == MinusOne && f[0][1] == Zero && f[1][0] == Zero && f[1][1] == MinusOne
  {
    NegConjUnits();
  }

  /** A four-entry sequence whose first and last entries are v and whose
      others are 0 peaks at index 0, the first of the tied maxima. */
  lemma FirstPeak(s: seq<Complex>, v: Complex)
    requires |s| == 4 && Abs2(v) > 0.0
    requires forall j :: 0 <= j < 4 ==> s[j] == if j == 0 || j == 3 then v else Zero
    ensures PeakIndex(s) == 0
  {
    PeakIndexUnique(s, 0);
  }

  lemma DiagonalFlat(wx: Matrix)
    requires IsDiagonal(wx)
    ensures |Flatten(wx)| == 4
    ensures forall j :: 0 <= j < 4 ==> Flatten(wx)[j] == if j == 0 || j == 3 then One else Zero
  {
  }

  lemma DiagonalFlipFlat(wx: Matrix)
    requires IsDiagonal(wx)
    ensures IsTwoRow(NegConjFlip(wx)) && |Flatten(NegConjFlip(wx))| == 4
    ensures forall j :: 0 <= j < 4 ==> Flatten(NegConjFlip(wx))[j] == if j == 0 || j == 3 then MinusOne else Zero
  {
    DiagonalFlip(wx);
  }

  /** Both the filter and its flip peak at flat index 0 (a tie broken by
      np.argmax in favour of the first index), i.e. in row 0. */
  lemma DiagonalPeaks(wx: Matrix)
    requires IsDiagonal(wx)
    ensures PeakIndex(Flatten(wx)) == 0 && PeakIndex(Flatten(NegConjFlip(wx))) == 0
  {
    DiagonalFlat(wx);
    DiagonalFlipFlat(wx);
    Abs2One();
    Abs2MinusOne();
    FirstPeak(Flatten(wx), One);
    FirstPeak(Flatten(NegConjFlip(wx)), MinusOne);
  }

  /** Both peaks are in row 0, so the delay is 0 and the orthogonal filter
      is the unshifted flip. */
  lemma DiagonalDelay(wx: Matrix)
    requires IsDiagonal(wx)
    ensures OrthogonalDelay(wx) == 0 && OrthogonalTaps(wx) == NegConjFlip(wx)
  {
    DiagonalPeaks(wx);
    assert PeakRow(wx) == 0;
    assert PeakRow(NegConjFlip(wx)) == 0;
  }

  lemma DiagonalConjFlat(wx: Matrix)
    requires IsDiagonal(wx)
    ensures IsTwoRow(NegConjFlip(wx)) && |ConjAll(Flatten(NegConjFlip(wx)))| == 4
    ensures ConjAll(Flatten(NegConjFlip(wx)))[0] == MinusOne
    ensures ConjAll(Flatten(NegConjFlip(wx)))[3] == MinusOne
  {
    DiagonalFlipFlat(wx);
    ConjOfReal(MinusOne);
  }

  /** 1 * (-1) + 0 * p + 0 * q + 1 * (-1) = -2, whatever p and q are. */
  lemma DiagonalSum(p: Complex, q: Complex)
    ensures Add(Mul(One, MinusOne), Add(Mul(Zero, p), Add(Mul(Zero, q), Add(Mul(One, MinusOne), Zero)))) == Complex(-2.0, 0.0)
  {
    UnitProducts();
    MulZero(p);
    MulZero(q);
    SumOfTwoMinusOnes();
  }

  /** For the diagonal filter the taps _init_orthogonaltaps produces are not
      orthogonal to X: the inner product of X's taps with the conjugate of
      Y's is -2, not 0 (compare CentreTapsOrthogonal, where it is 0). */
  lemma DiagonalNotOrthogonal(wx: Matrix)
    requires IsDiagonal(wx)
    ensures OrthogonalDelay(wx) == 0
    ensures Dot(Flatten(wx), ConjAll(Flatten(OrthogonalTaps(wx)))) == Complex(-2.0, 0.0)
  {
    DiagonalDelay(wx);
    DiagonalFlat(wx);
    DiagonalConjFlat(wx);
    var a, c := Flatten(wx), ConjAll(Flatten(NegConjFlip(wx)));
    DotFour(a, c);
    assert a[0] == One && a[1] == Zero && a[2] == Zero && a[3] == One;
    DiagonalSum(c[1], c[2]);
  }
}
