/** The index plumbing of the phase-recovery algorithms (dsp/phaserecovery.py):
    the angle gather of select_angles, the trim of viterbiviterbi_gen, the
    ring masks of partition_16QAM and the block loop of
    QPSK_partition_phase_16QAM. Angles, exponentials, square roots and the
    unwrap are parameters. */
module PhaseRecovery {
  import opened ComplexArith
  import opened Outcomes
  import opened IntArith
  import Matrices
  import Filter

  /** select_angles(angles, idx): with more than one row of test angles,
      entry i is angles[i, idx[i]], one entry per row; with a single row,
      entry i is angles[0, idx[i]], one entry per index. The indices must
      lie inside the rows (the compiled loop does not check them). */
  method SelectAngles(angles: array2<real>, idx: array<int>) returns (out: seq<real>)
    requires angles.Length0 > 1 ==> idx.Length >= angles.Length0
    requires angles.Length0 <= 1 && idx.Length > 0 ==> angles.Length0 == 1
    requires forall i :: 0 <= i < (if angles.Length0 > 1 then angles.Length0 else idx.Length) ==>
      0 <= idx[i] < angles.Length1
    ensures |out| == if angles.Length0 > 1 then angles.Length0 else idx.Length
    ensures forall i :: 0 <= i < |out| ==> out[i] == angles[if angles.Length0 > 1 then i else 0, idx[i]]
  {
    if angles.Length0 > 1 {
      var l := angles.Length0;
      var anglesn := new real[l](_ => 0.0);
      for i := 0 to l
        invariant forall j :: 0 <= j < i ==> anglesn[j] == angles[j, idx[j]]
      {
        anglesn[i] := angles[i, idx[i]];
      }
      out := anglesn[..];
    } else {
      var l := idx.Length;
      var anglesn := new real[l](_ => 0.0);
      for i := 0 to l
        invariant forall j :: 0 <= j < i ==> anglesn[j] == angles[0, idx[j]]
      {
        anglesn[i] := angles[0, idx[i]];
      }
      out := anglesn[..];
    }
  }

  /** The slice bounds of the trim of viterbiviterbi_gen:
      `[(N-1)//2 : L-(N-1)//2]` for odd N, `[N//2-1 : L-N//2]` for even N. */
  function VvBounds(n: nat, l: nat): (int, int)
    requires n >= 1
  {
    if n % 2 == 1 then ((n - 1) / 2, l - (n - 1) / 2) else (n / 2 - 1, l - n / 2)
  }

  /** Both parities start at (N-1)//2 and keep L-N+1 samples when L >= N,
      and keep nothing when L < N. */
  lemma VvBoundsResolve(n: nat, l: nat)
    requires n >= 1
    ensures var lo, hi := Matrices.SliceBound(VvBounds(n, l).0, l), Matrices.SliceBound(VvBounds(n, l).1, l);
      (l >= n ==> lo == (n - 1) / 2 && hi == lo + (l - n + 1)) && (l < n ==> hi <= lo)
  {
  }

  /** The trimmed signal of viterbiviterbi_gen: one sample per window of N
      samples with overlap N-1 (L-N+1 of them, none when L < N), sample k
      being input sample k + (N-1)//2. */
  function VvTrim(n: nat, e: seq<Complex>): (r: seq<Complex>)
    requires n >= 1
    ensures |r| == Filter.NumWindows(|e|, n, 1)
    ensures forall k :: 0 <= k < |r| ==> k + (n - 1) / 2 < |e| && r[k] == e[k + (n - 1) / 2]
  {
    VvBoundsResolve(n, |e|);
    var (start, stop) := VvBounds(n, |e|);
    Matrices.Slice(e, start, stop)
  }

  /** Sample k of the trimmed signal is the centre sample (N-1)//2 of
      window k, for either parity of N. */
  lemma VvTrimWindows(n: nat, e: seq<Complex>, k: nat)
    requires n >= 1 && k < |VvTrim(n, e)|
    ensures k + n <= |e| && VvTrim(n, e)[k] == Filter.Window(e, k, n, 1)[(n - 1) / 2]
  {
    Filter.NumWindowsFit(|e|, n, 1, k);
  }

  /** The output of viterbiviterbi_gen: the trimmed signal times the
      per-window phase correction exp(-1j*phase_est/M), given as `rot`,
      one entry per window. */
  function ViterbiViterbi(n: nat, e: seq<Complex>, rot: seq<Complex>): (r: seq<Complex>)
    requires n >= 1 && |rot| == Filter.NumWindows(|e|, n, 1)
    ensures |r| == |rot|
    ensures forall k :: 0 <= k < |r| ==> k + (n - 1) / 2 < |e| && r[k] == Mul(e[k + (n - 1) / 2], rot[k])
  {
    Pointwise(VvTrim(n, e), rot)
  }

  /** The elementwise product of two sequences of one length. */
  function Pointwise(a: seq<Complex>, b: seq<Complex>): (r: seq<Complex>)
    requires |a| == |b|
    ensures |r| == |a| && forall k :: 0 <= k < |r| ==> r[k] == Mul(a[k], b[k])
  {
    seq(|a|, k requires 0 <= k < |a| => Mul(a[k], b[k]))
  }

  function Sq(x: real): real {
    x * x
  }

  lemma PositiveProduct(a: real, b: real)
    requires a > 0.0 && b > 0.0
    ensures a * b > 0.0
  {
  }

  lemma NonnegativeProduct(a: real, b: real)
    requires a >= 0.0 && b >= 0.0
    ensures a * b >= 0.0
  {
  }

  lemma DiffSquares(m: real, t: real)
    ensures Sq(t) - Sq(m) == (t - m) * (t + m)
  {
  }

  /** For nonnegative values, comparing squares is comparing the values: the
      masks compare |E|^2 with the squared thresholds in place of |E| with
      the thresholds. */
  lemma SquareLess(m: real, t: real)
    requires m >= 0.0 && t >= 0.0
    ensures m < t <==> Sq(m) < Sq(t)
  {
    DiffSquares(m, t);
    if m < t {
      PositiveProduct(t - m, t + m);
    } else {
      NonnegativeProduct(m - t, m + t);
      DiffSquares(t, m);
    }
  }

  /** The class-1 test of one sample: inside the inner threshold or outside
      the outer one. */
  predicate Class1(x: Complex, inner: real, outer: real) {
    Abs2(x) < Sq(inner) || Abs2(x) > Sq(outer)
  }

  /** partition_16QAM for the ring radii r1 = sqrt(S0/5), r2 = sqrt(S0),
      r3 = sqrt(9*S0/5): the thresholds are the midpoints inner = (r1+r2)/2
      and outer = (r3+r2)/2; class 1 has |E| < inner or |E| > outer and
      class 2 is its complement. */
  function Partition16QAM(e: seq<Complex>, r1: real, r2: real, r3: real): (masks: (seq<bool>, seq<bool>))
    requires 0.0 <= r1 && 0.0 <= r2 && 0.0 <= r3
    ensures |masks.0| == |e| && |masks.1| == |e|
    ensures forall k :: 0 <= k < |e| ==> masks.1[k] == !masks.0[k]
    ensures forall k :: 0 <= k < |e| ==> (masks.0[k] <==> Class1(e[k], (r1 + r2) / 2.0, (r3 + r2) / 2.0))
  {
    if |e| == 0 then ([], [])
    else
      var (c1, c2) := Partition16QAM(e[..|e| - 1], r1, r2, r3);
      var b := Class1(e[|e| - 1], (r1 + r2) / 2.0, (r3 + r2) / 2.0);
      (c1 + [b], c2 + [!b])
  }

  /** With nonnegative radii the squared test is the test on the modulus:
      a sample of modulus m is class 1 exactly when m < inner or m > outer. */
  lemma Class1OfModulus(x: Complex, m: real, r1: real, r2: real, r3: real)
    requires 0.0 <= r1 && 0.0 <= r2 && 0.0 <= r3
    requires m >= 0.0 && Abs2(x) == Sq(m)
    ensures Class1(x, (r1 + r2) / 2.0, (r3 + r2) / 2.0) <==> m < (r1 + r2) / 2.0 || m > (r3 + r2) / 2.0
  {
    SquareLess(m, (r1 + r2) / 2.0);
    SquareLess((r3 + r2) / 2.0, m);
  }

  /** For ordered rings 0 <= r1 < r2 < r3, a sample on the inner or the
      outer ring is class 1 and a sample on the middle ring is class 2. */
  lemma PartitionRings(e: seq<Complex>, r1: real, r2: real, r3: real, k: nat)
    requires 0.0 <= r1 < r2 < r3 && k < |e|
    ensures var (c1, c2) := Partition16QAM(e, r1, r2, r3);
      (Abs2(e[k]) == Sq(r1) ==> c1[k]) &&
      (Abs2(e[k]) == Sq(r2) ==> c2[k]) &&
      (Abs2(e[k]) == Sq(r3) ==> c1[k])
  {
    RingThresholds(r1, r2, r3);
  }

  /** The squared thresholds separate the squared ring radii. */
  lemma RingThresholds(r1: real, r2: real, r3: real)
    requires 0.0 <= r1 < r2 < r3
    ensures Sq(r1) < Sq((r1 + r2) / 2.0) < Sq(r2) < Sq((r3 + r2) / 2.0) < Sq(r3)
  {
    SquareLess(r1, (r1 + r2) / 2.0);
    SquareLess((r1 + r2) / 2.0, r2);
    SquareLess(r2, (r3 + r2) / 2.0);
    SquareLess((r3 + r2) / 2.0, r3);
  }

  /** The per-block phase angle(S1_sum + Sx_tmp.sum()) of a block of
      samples and its class-2 mask. */
  type BlockEstimate = (seq<Complex>, seq<bool>) -> real

  /** The correction exp(-1j*(unwrap(phi_est)/4 - pi/4)) of a phase trace,
      one factor per phase. */
  type Rotation = seq<real> -> seq<Complex>

  ghost predicate KeepsLength(rotation: Rotation) {
    forall phi :: |rotation(phi)| == |phi|
  }

  /** Where the block of sample x starts and ends: blocks start at 0,
      Nblock, 2*Nblock, ..., and the last one is cut at L. */
  function BlockStart(x: nat, nblock: nat): nat
    requires nblock >= 1
  {
    MulNonnegative(x / nblock, nblock);
    (x / nblock) * nblock
  }

  function BlockEnd(x: nat, nblock: nat, l: nat): nat
    requires nblock >= 1
  {
    if BlockStart(x, nblock) + nblock <= l then BlockStart(x, nblock) + nblock else l
  }

  lemma BlockBounds(x: nat, nblock: nat, l: nat)
    requires nblock >= 1 && x < l
    ensures BlockStart(x, nblock) <= x < BlockEnd(x, nblock, l) <= l
    ensures BlockEnd(x, nblock, l) - BlockStart(x, nblock) <= nblock
  {
    DivBounds(x, nblock);
  }

  /** phi_est of QPSK_partition_phase_16QAM: every sample gets the estimate
      of its own block, computed from that block's samples and class-2
      mask only. */
  function BlockPhases(e: seq<Complex>, c2: seq<bool>, nblock: nat, estimate: BlockEstimate): (p: seq<real>)
    requires nblock >= 1 && |c2| == |e|
    ensures |p| == |e|
    ensures forall x :: 0 <= x < |e| ==>
      BlockStart(x, nblock) <= x < BlockEnd(x, nblock, |e|) <= |e| &&
      p[x] == estimate(e[BlockStart(x, nblock)..BlockEnd(x, nblock, |e|)],
                       c2[BlockStart(x, nblock)..BlockEnd(x, nblock, |e|)])
  {
    BlockPhasesPrefix(e, c2, nblock, estimate, |e|)
  }

  function BlockPhasesPrefix(e: seq<Complex>, c2: seq<bool>, nblock: nat, estimate: BlockEstimate, count: nat): (p: seq<real>)
    requires nblock >= 1 && |c2| == |e| && count <= |e|
    ensures |p| == count
    ensures forall x :: 0 <= x < count ==>
      BlockStart(x, nblock) <= x < BlockEnd(x, nblock, |e|) <= |e| &&
      p[x] == estimate(e[BlockStart(x, nblock)..BlockEnd(x, nblock, |e|)],
                       c2[BlockStart(x, nblock)..BlockEnd(x, nblock, |e|)])
  {
    if count == 0 then []
    else
      var x := count - 1;
      BlockBounds(x, nblock, |e|);
      var a, b := BlockStart(x, nblock), BlockEnd(x, nblock, |e|);
      BlockPhasesPrefix(e, c2, nblock, estimate, x) + [estimate(e[a..b], c2[a..b])]
  }

  /** Samples of one block share one phase estimate. */
  lemma {:induction false} BlockPhasesConstant(e: seq<Complex>, c2: seq<bool>, nblock: nat, estimate: BlockEstimate,
                                               x: nat, y: nat)
    requires nblock >= 1 && |c2| == |e| && x < |e| && y < |e| && x / nblock == y / nblock
    ensures BlockPhases(e, c2, nblock, estimate)[x] == BlockPhases(e, c2, nblock, estimate)[y]
  {
    assert BlockStart(x, nblock) == BlockStart(y, nblock);
  }

  /** The block of a sample is the range the loop writes when it reaches
      the block's start i = j*Nblock. */
  lemma BlockOfSample(x: nat, nblock: nat, j: nat, l: nat)
    requires nblock >= 1 && j * nblock <= x < j * nblock + nblock && x < l
    ensures BlockStart(x, nblock) == j * nblock
    ensures BlockEnd(x, nblock, l) == if j * nblock + nblock <= l then j * nblock + nblock else l
  {
    DivModUnique(x, nblock, j, x - j * nblock);
  }

  /** `a[start:stop] = v` for 0 <= start <= stop <= len(a). */
  method FillSlice(a: array<real>, start: nat, stop: nat, v: real)
    requires start <= stop <= a.Length
    modifies a
    ensures forall x :: 0 <= x < a.Length ==> a[x] == if start <= x < stop then v else old(a[x])
  {
    for x := start to stop
      invariant forall y :: 0 <= y < a.Length ==> a[y] == if start <= y < x then v else old(a[y])
    {
      a[x] := v;
    }
  }

  /** The output `(E * exp(-1j*phi_est))[:(L//Nblock)*Nblock]`: the rotated
      signal cut to whole blocks. */
  function Truncate(s: seq<Complex>, nblock: nat): (t: seq<Complex>)
    requires nblock >= 1
    ensures |t| == (|s| / nblock) * nblock && t == s[..|t|]
  {
    DivBounds(|s|, nblock);
    s[..(|s| / nblock) * nblock]
  }

  /** The whole-block length: a multiple of Nblock, at most L, and less
      than one block short of L. */
  lemma TruncateLength(s: seq<Complex>, nblock: nat)
    requires nblock >= 1
    ensures |Truncate(s, nblock)| % nblock == 0
    ensures |Truncate(s, nblock)| <= |s| < |Truncate(s, nblock)| + nblock
  {
    DivBounds(|s|, nblock);
    DivModUnique((|s| / nblock) * nblock, nblock, |s| / nblock, 0);
  }

  /** What QPSK_partition_phase_16QAM returns for Nblock >= 1. */
  function QpskPartition(nblock: nat, e: seq<Complex>, r1: real, r2: real, r3: real,
                         estimate: BlockEstimate, rotation: Rotation): seq<Complex>
    requires nblock >= 1 && KeepsLength(rotation)
    requires 0.0 <= r1 && 0.0 <= r2 && 0.0 <= r3
  {
    var (c1, c2) := Partition16QAM(e, r1, r2, r3);
    var phi := BlockPhases(e, c2, nblock, estimate);
    Truncate(Pointwise(e, rotation(phi)), nblock)
  }

  /** Sample k of the output is sample k of the input rotated by the
      correction of the phase trace, for every k of the whole blocks. */
  lemma QpskPartitionSamples(nblock: nat, e: seq<Complex>, r1: real, r2: real, r3: real,
                             estimate: BlockEstimate, rotation: Rotation, k: nat)
    requires nblock >= 1 && KeepsLength(rotation)
    requires 0.0 <= r1 && 0.0 <= r2 && 0.0 <= r3
    ensures var out := QpskPartition(nblock, e, r1, r2, r3, estimate, rotation);
      var phi := BlockPhases(e, Partition16QAM(e, r1, r2, r3).1, nblock, estimate);
      |out| == (|e| / nblock) * nblock && |out| <= |e| &&
      (k < |out| ==> out[k] == Mul(e[k], rotation(phi)[k]))
  {
    DivBounds(|e|, nblock);
  }

  /** QPSK_partition_phase_16QAM(Nblock, E): the class masks, then phi_est
      filled block by block (`range(0, L, Nblock)`, so Nblock == 0 raises
      ValueError), then the rotated signal cut to whole blocks. */
  method QpskPartitionPhase(nblock: nat, e: seq<Complex>, r1: real, r2: real, r3: real,
                            estimate: BlockEstimate, rotation: Rotation) returns (r: Result<seq<Complex>>)
    requires KeepsLength(rotation)
    requires 0.0 <= r1 && 0.0 <= r2 && 0.0 <= r3
    ensures nblock == 0 ==> r == Failure(ValueError)
    ensures nblock >= 1 ==> r == Success(QpskPartition(nblock, e, r1, r2, r3, estimate, rotation))
  {
    if nblock == 0 {
      return Failure(ValueError);
    }
    var l := |e|;
    var (c1, c2) := Partition16QAM(e, r1, r2, r3);
    var phiEst := new real[l](_ => 0.0);
    ghost var spec := BlockPhases(e, c2, nblock, estimate);
    var i := 0;
    ghost var j := 0;
    while i < l
      invariant i == j * nblock
      invariant forall x :: 0 <= x < l && x < i ==> phiEst[x] == spec[x]
      decreases l - i
    {
      var stop := if i + nblock <= l then i + nblock else l;
      var v := estimate(e[i..stop], c2[i..stop]);
      FillSlice(phiEst, i, stop, v);
      forall x | i <= x < stop
        ensures phiEst[x] == spec[x]
      {
        BlockOfSample(x, nblock, j, l);
      }
      MulSucc(j, nblock);
      i, j := i + nblock, j + 1;
    }
    assert phiEst[..] == spec;
    var rotated := rotation(phiEst[..]);
    r := Success(Truncate(Pointwise(e, rotated), nblock));
  }
}
