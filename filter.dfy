/** apply_filter (dsp/equalisation/equalisation.py): the trained 2x2 MIMO
    filter applied to a dual-polarisation signal, one output sample per
    window of Ntaps input samples, windows starting every `os` samples. */
module Filter {
  import opened ComplexArith
  import opened Matrices
  import opened Taps
  import opened IntArith

  /** How many whole windows of length n, one every os samples, fit into l
      samples (segment_axis with overlap n - os, cutting the tail). */
  function NumWindows(l: nat, n: nat, os: nat): nat
    requires os >= 1
  {
    if l < n then 0 else (l - n) / os + 1
  }

  /** Every counted window lies inside the signal, and one more would not. */
  lemma NumWindowsFit(l: nat, n: nat, os: nat, k: nat)
    requires os >= 1
    ensures k < NumWindows(l, n, os) ==> k * os + n <= l
    ensures k >= NumWindows(l, n, os) ==> k * os + n > l
  {
    var m := NumWindows(l, n, os);
    if l >= n {
      var q := (l - n) / os;
      assert q * os <= l - n < (q + 1) * os;
      if k < m {
        assert k * os <= q * os by { MulMonotone(k, q, os); }
      } else {
        assert (q + 1) * os <= k * os by { MulMonotone(q + 1, k, os); }
      }
    }
  }

  /** Window k of one polarisation: samples [k*os, k*os + n). */
  function Window(e: seq<Complex>, k: nat, n: nat, os: nat): (w: seq<Complex>)
    requires k * os + n <= |e|
    ensures |w| == n && forall j :: 0 <= j < n ==> w[j] == e[k * os + j]
  {
    e[k * os .. k * os + n]
  }

  /** Row k of np.hstack([X1, X2]): window k of X followed by window k of Y. */
  function Stacked(e: Matrix, k: nat, n: nat, os: nat): (x: seq<Complex>)
    requires IsTwoRow(e) && k * os + n <= Width(e)
  {
    Window(e[0], k, n, os) + Window(e[1], k, n, os)
  }

  /** The first `count` entries of one column of np.dot(X, ww.T): each
      stacked window projected, unconjugated, on the flattened taps. */
  function Project(e: Matrix, w: Matrix, os: nat, count: nat): (r: seq<Complex>)
    requires IsTwoRow(e) && IsTwoRow(w) && os >= 1
    requires count <= NumWindows(Width(e), Width(w), os)
    ensures |r| == count
    ensures forall k :: 0 <= k < count ==>
      k * os + Width(w) <= Width(e) && r[k] == Dot(Stacked(e, k, Width(w), os), Flatten(w))
  {
    if count == 0 then []
    else
      NumWindowsFit(Width(e), Width(w), os, count - 1);
      Project(e, w, os, count - 1) + [Dot(Stacked(e, count - 1, Width(w), os), Flatten(w))]
  }

  /** apply_filter(E, os, (wx, wy)): row 0 from the X taps, row 1 from the
      Y taps, one entry per window. */
  function ApplyFilter(e: Matrix, os: nat, wx: Matrix, wy: Matrix): (out: Matrix)
    requires IsTwoRow(e) && IsTwoRow(wx) && IsTwoRow(wy) && Width(wy) == Width(wx) && os >= 1
    ensures IsMatrix(out, 2, NumWindows(Width(e), Width(wx), os))
  {
    var count := NumWindows(Width(e), Width(wx), os);
    [Project(e, wx, os, count), Project(e, wy, os, count)]
  }

  /** Output sample k of polarisation p is the sum over both input
      polarisations of the window times that polarisation's row of taps,
      without conjugation. */
  lemma ApplyFilterSum(e: Matrix, os: nat, wx: Matrix, wy: Matrix, k: nat)
    requires IsTwoRow(e) && IsTwoRow(wx) && IsTwoRow(wy) && Width(wy) == Width(wx) && os >= 1
    requires k < NumWindows(Width(e), Width(wx), os)
    ensures var n, out := Width(wx), ApplyFilter(e, os, wx, wy);
      k * os + n <= Width(e) &&
      out[0][k] == Add(Dot(Window(e[0], k, n, os), wx[0]), Dot(Window(e[1], k, n, os), wx[1])) &&
      out[1][k] == Add(Dot(Window(e[0], k, n, os), wy[0]), Dot(Window(e[1], k, n, os), wy[1]))
  {
    var n := Width(wx);
    NumWindowsFit(Width(e), n, os, k);
    DotConcat(Window(e[0], k, n, os), Window(e[1], k, n, os), wx[0], wx[1]);
    DotConcat(Window(e[0], k, n, os), Window(e[1], k, n, os), wy[0], wy[1]);
  }

  /** With the initial centre taps as the X filter, the X output is the X
      input decimated by os, read at the centre tap: E[0][k*os + Ntaps/2]. */
  lemma ApplyFilterCentreTaps(e: Matrix, os: nat, ntaps: nat, wy: Matrix, k: nat)
    requires ntaps >= 1 && IsTwoRow(e) && IsTwoRow(wy) && Width(wy) == ntaps && os >= 1
    requires k < NumWindows(Width(e), ntaps, os)
    ensures k * os + ntaps <= Width(e)
    ensures ApplyFilter(e, os, CenterTaps(ntaps), wy)[0][k] == e[0][k * os + ntaps / 2]
  {
    var wx := CenterTaps(ntaps);
    ApplyFilterSum(e, os, wx, wy, k);
    DotUnit(Window(e[0], k, ntaps, os), wx[0], ntaps / 2);
    DotZero(Window(e[1], k, ntaps, os), wx[1]);
  }
}
