/** Constellation-derived constants and tables of the blind equaliser
    (dsp/equalisation/equalisation.py): the CMA/MCMA radii, and the
    partition/code tables RDE and MRDE use to decide which ring a received
    sample belongs to. The symbol set is an input: the normalised M-QAM
    alphabet, syms / sqrt(scale). */
module Constellation {
  import opened ComplexArith
  import opened Outcomes

  function Sq(x: real): real {
    x * x
  }

  function Sum(a: seq<real>): real {
    if |a| == 0 then 0.0 else Sum(a[..|a| - 1]) + a[|a| - 1]
  }

  /** |s|^2 of every symbol (abs(syms)**2). */
  function Abs2All(syms: seq<Complex>): (a: seq<real>)
    ensures |a| == |syms| && forall i :: 0 <= i < |syms| ==> a[i] == Abs2(syms[i])
  {
    seq(|syms|, i requires 0 <= i < |syms| => Abs2(syms[i]))
  }

  /** syms.real**2 */
  function ReSquares(syms: seq<Complex>): (a: seq<real>)
    ensures |a| == |syms| && forall i :: 0 <= i < |syms| ==> a[i] == Sq(syms[i].re)
  {
    seq(|syms|, i requires 0 <= i < |syms| => Sq(syms[i].re))
  }

  /** syms.imag**2 */
  function ImSquares(syms: seq<Complex>): (a: seq<real>)
    ensures |a| == |syms| && forall i :: 0 <= i < |syms| ==> a[i] == Sq(syms[i].im)
  {
    seq(|syms|, i requires 0 <= i < |syms| => Sq(syms[i].im))
  }

  /** Elementwise square of a sequence of squared magnitudes: x**4 given x**2. */
  function Squares(a: seq<real>): (q: seq<real>)
    ensures |q| == |a| && forall i :: 0 <= i < |a| ==> q[i] == Sq(a[i])
  {
    seq(|a|, i requires 0 <= i < |a| => Sq(a[i]))
  }

  predicate AllPositive(a: seq<real>) {
    forall i :: 0 <= i < |a| ==> a[i] > 0.0
  }

  /** mean(x**4) / mean(x**2) for the squared magnitudes a = x**2; the two
      means share the length of `a`, so this is a ratio of sums. */
  function MomentRatio(a: seq<real>): real
    requires |a| > 0 && AllPositive(a)
  {
    SumPositive(a);
    (Sum(Squares(a)) / |a| as real) / (Sum(a) / |a| as real)
  }

  lemma {:induction false} SumPositive(a: seq<real>)
    requires |a| > 0 && AllPositive(a)
    ensures Sum(a) > 0.0
  {
    if |a| > 1 {
      SumPositive(a[..|a| - 1]);
    }
  }

  /** Scaling every entry by v scales the sum by v. */
  lemma {:induction false} SumScaled(q: seq<real>, a: seq<real>, v: real)
    requires |q| == |a| && forall i :: 0 <= i < |a| ==> q[i] == v * a[i]
    ensures Sum(q) == v * Sum(a)
  {
    if |a| > 0 {
      SumScaled(q[..|q| - 1], a[..|a| - 1], v);
      ScaleStep(Sum(q), Sum(q[..|q| - 1]), Sum(a), Sum(a[..|a| - 1]), q[|q| - 1], a[|a| - 1], v);
    }
  }

  lemma ScaleStep(sq: real, sq': real, sa: real, sa': real, x: real, y: real, v: real)
    requires sq == sq' + x && sa == sa' + y && sq' == v * sa' && x == v * y
    ensures sq == v * sa
  {
  }

  lemma SqOfValue(x: real, v: real)
    requires x == v
    ensures Sq(x) == v * x
  {
  }

  /** When every a[i] is v, the sum of squares is v times the plain sum. */
  lemma {:induction false} SquaresOfConstant(a: seq<real>, v: real)
    requires forall i :: 0 <= i < |a| ==> a[i] == v
    ensures Sum(Squares(a)) == v * Sum(a)
  {
    var q := Squares(a);
    forall i | 0 <= i < |a|
      ensures q[i] == v * a[i]
    {
      SqOfValue(a[i], v);
    }
    SumScaled(q, a, v);
  }

  lemma ProductCancel(v: real, s: real)
    requires s > 0.0
    ensures (v * s) / s == v
  {
  }

  lemma MeansCancel(q: real, s: real, n: real)
    requires s > 0.0 && n > 0.0
    ensures (q / n) / (s / n) == q / s
  {
  }

  /** The two means share their length: the ratio is a ratio of sums. */
  lemma MomentRatioOfSums(a: seq<real>)
    requires |a| > 0 && AllPositive(a)
    ensures Sum(a) > 0.0 && MomentRatio(a) == Sum(Squares(a)) / Sum(a)
  {
    SumPositive(a);
    MeansCancel(Sum(Squares(a)), Sum(a), |a| as real);
  }

  lemma MulPositive(a: real, b: real) returns (p: real)
    requires a > 0.0 && b > 0.0
    ensures p == a * b && p > 0.0
  {
    p := a * b;
  }

  lemma SqPositive(x: real)
    requires x > 0.0
    ensures Sq(x) > 0.0
  {
    var p := MulPositive(x, x);
    assert Sq(x) == p;
  }

  lemma QuotientPositive(x: real, y: real)
    requires x > 0.0 && y > 0.0
    ensures x / y > 0.0
  {
  }

  /** The moment ratio of positive squares is positive: the sum of their
      squares is positive, and so is the sum itself. */
  lemma MomentRatioPositive(a: seq<real>)
    requires |a| > 0 && AllPositive(a)
    ensures MomentRatio(a) > 0.0
  {
    var q := Squares(a);
    forall i | 0 <= i < |a|
      ensures q[i] > 0.0
    {
      SqPositive(a[i]);
    }
    SumPositive(q);
    MomentRatioOfSums(a);
    QuotientPositive(Sum(q), Sum(a));
  }

  /** A constant-modulus alphabet (all |s|^2 equal to v) has R = v exactly. */
  lemma MomentRatioConstant(a: seq<real>, v: real)
    requires |a| > 0 && v > 0.0 && forall i :: 0 <= i < |a| ==> a[i] == v
    ensures MomentRatio(a) == v
  {
    MomentRatioOfSums(a);
    SquaresOfConstant(a, v);
    ProductCancel(v, Sum(a));
  }

  /** _calculate_Rconstant: the CMA radius mean(|s|^4) / mean(|s|^2). */
  function RConstant(syms: seq<Complex>): real
    requires |syms| > 0 && forall i :: 0 <= i < |syms| ==> Abs2(syms[i]) > 0.0
  {
    MomentRatio(Abs2All(syms))
  }

  /** R is the sum of |s|^4 over the sum of |s|^2, and it is positive. */
  lemma RConstantOfSums(syms: seq<Complex>)
    requires |syms| > 0 && forall i :: 0 <= i < |syms| ==> Abs2(syms[i]) > 0.0
    ensures Sum(Abs2All(syms)) > 0.0
    ensures RConstant(syms) == Sum(Squares(Abs2All(syms))) / Sum(Abs2All(syms))
    ensures RConstant(syms) > 0.0
  {
    MomentRatioOfSums(Abs2All(syms));
    MomentRatioPositive(Abs2All(syms));
  }

  /** A constant-modulus alphabet (PSK, QPSK), all |s|^2 equal to v, has
      radius v. */
  lemma RConstantConstantModulus(syms: seq<Complex>, v: real)
    requires |syms| > 0 && forall i :: 0 <= i < |syms| ==> Abs2(syms[i]) == v
    ensures forall i :: 0 <= i < |syms| ==> Abs2(syms[i]) > 0.0 || v == 0.0
    ensures v > 0.0 ==> RConstant(syms) == v
  {
    if v > 0.0 {
      MomentRatioConstant(Abs2All(syms), v);
    }
  }

  /** Every symbol has a nonzero real and a nonzero imaginary part, stated
      through their squares. */
  predicate NoZeroComponent(syms: seq<Complex>) {
    forall i :: 0 <= i < |syms| ==> Sq(syms[i].re) > 0.0 && Sq(syms[i].im) > 0.0
  }

  /** _calculate_Rconstant_complex: the MCMA radius, one moment ratio per
      axis, real part in `re` and imaginary part in `im`. */
  function RConstantComplex(syms: seq<Complex>): Complex
    requires |syms| > 0 && NoZeroComponent(syms)
  {
    Complex(MomentRatio(ReSquares(syms)), MomentRatio(ImSquares(syms)))
  }

  /** Per axis, the complex radius is the sum of fourth powers over the sum
      of squares, and both of its parts are positive. */
  lemma {:induction false} RConstantComplexOfSums(syms: seq<Complex>)
    requires |syms| > 0 && NoZeroComponent(syms)
    ensures Sum(ReSquares(syms)) > 0.0 && Sum(ImSquares(syms)) > 0.0
    ensures RConstantComplex(syms).re == Sum(Squares(ReSquares(syms))) / Sum(ReSquares(syms))
    ensures RConstantComplex(syms).im == Sum(Squares(ImSquares(syms))) / Sum(ImSquares(syms))
    ensures RConstantComplex(syms).re > 0.0 && RConstantComplex(syms).im > 0.0
  {
    var re, im := ReSquares(syms), ImSquares(syms);
    assert RConstantComplex(syms) == Complex(MomentRatio(re), MomentRatio(im));
    MomentRatioOfSums(re);
    MomentRatioOfSums(im);
    MomentRatioPositive(re);
    MomentRatioPositive(im);
  }

  /** An alphabet whose squared real parts all equal vr and squared
      imaginary parts all equal vi (QPSK) has complex radius vr + 1j vi. */
  lemma RConstantComplexConstant(syms: seq<Complex>, vr: real, vi: real)
    requires |syms| > 0 && NoZeroComponent(syms)
    requires forall i :: 0 <= i < |syms| ==> Sq(syms[i].re) == vr && Sq(syms[i].im) == vi
    ensures RConstantComplex(syms) == Complex(vr, vi)
  {
    assert Sq(syms[0].re) == vr && Sq(syms[0].im) == vi;
    MomentRatioConstant(ReSquares(syms), vr);
    MomentRatioConstant(ImSquares(syms), vi);
  }

  // ---------------------------------------------------------------------
  // np.unique and the partition/code tables

  predicate StrictlyIncreasing(u: seq<real>) {
    forall i, j :: 0 <= i < j < |u| ==> u[i] < u[j]
  }

  /** Insert `x` into a strictly increasing sequence unless already there. */
  function InsertUnique(u: seq<real>, x: real): (v: seq<real>)
    requires StrictlyIncreasing(u)
    ensures StrictlyIncreasing(v)
    ensures forall k :: k in v <==> k in u || k == x
    ensures |v| <= |u| + 1
  {
    if |u| == 0 then [x]
    else if x < u[0] then [x] + u
    else if x == u[0] then u
    else
      var w := InsertUnique(u[1..], x);
      assert u == [u[0]] + u[1..];
      assert forall j :: 0 <= j < |w| ==> u[0] < w[j] by {
        forall j | 0 <= j < |w| ensures u[0] < w[j] {
          assert w[j] in w;
        }
      }
      [u[0]] + w
  }

  /** np.unique of a real sequence: sorted ascending, no duplicates. */
  function SortedUnique(xs: seq<real>): (u: seq<real>)
    ensures StrictlyIncreasing(u)
    ensures forall k :: k in u <==> k in xs
    ensures |u| <= |xs|
    ensures |xs| > 0 ==> |u| > 0
  {
    if |xs| == 0 then []
    else
      assert xs == xs[..|xs| - 1] + [xs[|xs| - 1]];
      InsertUnique(SortedUnique(xs[..|xs| - 1]), xs[|xs| - 1])
  }

  /** A strictly increasing sequence is determined by its elements, so
      SortedUnique is np.unique and nothing else. */
  lemma {:induction false} IncreasingByElements(u: seq<real>, v: seq<real>)
    requires StrictlyIncreasing(u) && StrictlyIncreasing(v)
    requires forall k :: k in u <==> k in v
    ensures u == v
    decreases |u| + |v|
  {
    if |u| > 0 {
      assert u[0] in u;
    }
    if |v| > 0 {
      assert v[0] in v;
    }
    if |u| > 0 && |v| > 0 {
      assert u[0] == v[0] by {
        assert u[0] in v && v[0] in u;
      }
      assert forall k :: k in u[1..] <==> k in v[1..] by {
        forall k ensures k in u[1..] ==> k in v[1..] {
          if k in u[1..] {
            var j :| 1 <= j < |u| && u[j] == k;
            assert u[0] < u[j];
            assert k in v && k != v[0];
            var m :| 0 <= m < |v| && v[m] == k;
            assert v[1..][m - 1] == k;
          }
        }
        forall k ensures k in v[1..] ==> k in u[1..] {
          if k in v[1..] {
            var j :| 1 <= j < |v| && v[j] == k;
            assert v[0] < v[j];
            assert k in u && k != u[0];
            var m :| 0 <= m < |u| && u[m] == k;
            assert u[1..][m - 1] == k;
          }
        }
      }
      IncreasingByElements(u[1..], v[1..]);
      assert u == [u[0]] + u[1..] && v == [v[0]] + v[1..];
    }
  }

  /** codes[:-1] + np.diff(codes) / 2 */
  function Midpoints(c: seq<real>): (m: seq<real>)
    ensures |m| == if |c| == 0 then 0 else |c| - 1
    ensures forall i :: 0 <= i < |c| - 1 ==> m[i] == (c[i] + c[i + 1]) / 2.0
  {
    if |c| == 0 then [] else seq(|c| - 1, i requires 0 <= i < |c| - 1 => c[i] + (c[i + 1] - c[i]) / 2.0)
  }

  /** Every partition is the midpoint of its two neighbouring codes and, for
      strictly increasing codes, lies strictly between them. */
  lemma MidpointsBetween(c: seq<real>)
    requires StrictlyIncreasing(c)
    ensures forall i :: 0 <= i < |c| - 1 ==> c[i] < Midpoints(c)[i] < c[i + 1]
  {
    forall i | 0 <= i < |c| - 1 ensures c[i] < Midpoints(c)[i] < c[i + 1] {
      assert c[i] < c[i + 1];
    }
  }

  /** abs(x)**4 / abs(x)**2 given q = abs(x)**2 (> 0): the value a code is
      made of. */
  function FourthOverSecond(q: real): (r: real)
    requires q > 0.0
    ensures r == q
  {
    (q * q) / q
  }

  function Levels(a: seq<real>): (l: seq<real>)
    requires AllPositive(a)
    ensures |l| == |a| && forall i :: 0 <= i < |a| ==> l[i] == a[i]
  {
    seq(|a|, i requires 0 <= i < |a| => FourthOverSecond(a[i]))
  }

  /** np.unique(x**4 / x**2) for positive squares x**2: the distinct values
      of `a`, strictly increasing. */
  lemma UniqueLevels(a: seq<real>)
    requires AllPositive(a)
    ensures StrictlyIncreasing(SortedUnique(Levels(a)))
    ensures forall k :: k in SortedUnique(Levels(a)) <==> k in a
  {
    assert Levels(a) == a;
  }

  datatype RadiusTable = RadiusTable(parts: seq<real>, codes: seq<real>)

  /** generate_partition_codes_radius: the distinct |s|^2 of the alphabet in
      increasing order, and the midpoints between neighbours. */
  function PartitionCodesRadius(syms: seq<Complex>): (t: RadiusTable)
    requires forall i :: 0 <= i < |syms| ==> Abs2(syms[i]) > 0.0
  {
    var codes := SortedUnique(Levels(Abs2All(syms)));
    RadiusTable(Midpoints(codes), codes)
  }

  /** The radius table: strictly increasing codes that are exactly the
      squared magnitudes of the alphabet, one partition fewer than codes,
      each partition the midpoint strictly between its neighbours. */
  lemma PartitionCodesRadiusTable(syms: seq<Complex>)
    requires |syms| > 0 && forall i :: 0 <= i < |syms| ==> Abs2(syms[i]) > 0.0
    ensures var t := PartitionCodesRadius(syms);
      StrictlyIncreasing(t.codes) &&
      (forall k :: k in t.codes <==> k in Abs2All(syms)) &&
      |t.parts| == |t.codes| - 1 &&
      forall i :: 0 <= i < |t.parts| ==>
        t.parts[i] == (t.codes[i] + t.codes[i + 1]) / 2.0 && t.codes[i] < t.parts[i] < t.codes[i + 1]
  {
    UniqueLevels(Abs2All(syms));
    MidpointsBetween(PartitionCodesRadius(syms).codes);
  }

  /** np.broadcast of two 1-D arrays combined as `re + 1j * im`: equal lengths
      pair up, a length-1 operand is repeated, anything else is the
      ValueError numpy raises. */
  function Combine(re: seq<real>, im: seq<real>): (r: Result<seq<Complex>>)
    ensures r.Success? <==> |re| == |im| || |re| == 1 || |im| == 1
    ensures |re| == |im| ==>
      r.Success? && |r.value| == |re| &&
      forall i :: 0 <= i < |re| ==> r.value[i] == Complex(re[i], im[i])
    ensures |re| != |im| && |re| == 1 ==>
      r.Success? && |r.value| == |im| &&
      forall i :: 0 <= i < |im| ==> r.value[i] == Complex(re[0], im[i])
    ensures |re| != |im| && |re| != 1 && |im| == 1 ==>
      r.Success? && |r.value| == |re| &&
      forall i :: 0 <= i < |re| ==> r.value[i] == Complex(re[i], im[0])
  {
    if |re| == |im| then Success(Zip(re, im))
    else if |re| == 1 then Success(Zip(Repeat(re[0], |im|), im))
    else if |im| == 1 then Success(Zip(re, Repeat(im[0], |re|)))
    else Failure(ValueError)
  }

  function Repeat(x: real, n: nat): (r: seq<real>)
    ensures |r| == n && forall i :: 0 <= i < n ==> r[i] == x
  {
    seq(n, _ => x)
  }

  function Zip(re: seq<real>, im: seq<real>): (z: seq<Complex>)
    requires |re| == |im|
    ensures |z| == |re| && forall i :: 0 <= i < |re| ==> z[i] == Complex(re[i], im[i])
  {
    seq(|re|, i requires 0 <= i < |re| => Complex(re[i], im[i]))
  }

  datatype ComplexTable = ComplexTable(parts: seq<Complex>, codes: seq<Complex>)

  /** The distinct squared real parts (LevelsRe) and imaginary parts
      (LevelsIm) of the alphabet, each increasing. */
  function LevelsRe(syms: seq<Complex>): (u: seq<real>)
    requires NoZeroComponent(syms)
  {
    SortedUnique(Levels(ReSquares(syms)))
  }

  function LevelsIm(syms: seq<Complex>): (u: seq<real>)
    requires NoZeroComponent(syms)
  {
    SortedUnique(Levels(ImSquares(syms)))
  }

  /** generate_partition_codes_complex: per-axis unique squares as the real
      and imaginary parts of the codes, per-axis midpoints as the parts. */
  function PartitionCodesComplex(syms: seq<Complex>): Result<ComplexTable>
    requires NoZeroComponent(syms)
  {
    TableOfLevels(LevelsRe(syms), LevelsIm(syms))
  }

  /** `codes = sr + 1j * si` and `parts = midpoints(sr) + 1j * midpoints(si)`,
      each through numpy broadcasting; the first failure is raised. */
  function TableOfLevels(sr: seq<real>, si: seq<real>): Result<ComplexTable> {
    var codes := Combine(sr, si);
    var parts := Combine(Midpoints(sr), Midpoints(si));
    if codes.Failure? then Failure(codes.error)
    else if parts.Failure? then Failure(parts.error)
    else Success(ComplexTable(parts.value, codes.value))
  }

  /** Broadcasting succeeds for both the codes and the parts exactly when
      the level counts are equal, or one axis has a single level against at
      most two on the other. */
  lemma TableOfLevelsDefined(sr: seq<real>, si: seq<real>)
    requires |sr| > 0 && |si| > 0
    ensures TableOfLevels(sr, si).Success? <==>
      |sr| == |si| || (|sr| == 1 && |si| <= 2) || (|si| == 1 && |sr| <= 2)
  {
  }

  /** With equal level counts the table pairs the levels up per axis. */
  lemma TableOfLevelsCodes(sr: seq<real>, si: seq<real>)
    requires |sr| == |si|
    ensures TableOfLevels(sr, si).Success?
    ensures |TableOfLevels(sr, si).value.codes| == |sr|
    ensures |TableOfLevels(sr, si).value.parts| == if |sr| == 0 then 0 else |sr| - 1
    ensures forall i :: 0 <= i < |sr| ==> TableOfLevels(sr, si).value.codes[i] == Complex(sr[i], si[i])
  {
    assert |Midpoints(sr)| == |Midpoints(si)|;
  }

  /** With equal level counts, the parts pair up the per-axis midpoints. */
  lemma TableOfLevelsParts(sr: seq<real>, si: seq<real>)
    requires |sr| == |si|
    ensures TableOfLevels(sr, si).Success?
    ensures forall i :: 0 <= i < |sr| - 1 ==>
      TableOfLevels(sr, si).value.parts[i] == Complex(Midpoints(sr)[i], Midpoints(si)[i])
  {
    assert |Midpoints(sr)| == |Midpoints(si)|;
  }

  /** The per-axis levels are exactly the squared real (imaginary) parts of
      the alphabet, strictly increasing. */
  lemma LevelsElements(syms: seq<Complex>)
    requires NoZeroComponent(syms)
    ensures StrictlyIncreasing(LevelsRe(syms)) && StrictlyIncreasing(LevelsIm(syms))
    ensures forall k :: k in LevelsRe(syms) <==> k in ReSquares(syms)
    ensures forall k :: k in LevelsIm(syms) <==> k in ImSquares(syms)
  {
    assert StrictlyIncreasing(LevelsRe(syms)) && forall k :: k in LevelsRe(syms) <==> k in ReSquares(syms) by {
      UniqueLevels(ReSquares(syms));
    }
    assert StrictlyIncreasing(LevelsIm(syms)) && forall k :: k in LevelsIm(syms) <==> k in ImSquares(syms) by {
      UniqueLevels(ImSquares(syms));
    }
  }

  /** The complex table exists exactly when numpy can broadcast both the
      codes and the parts. */
  lemma PartitionCodesComplexDefined(syms: seq<Complex>)
    requires |syms| > 0 && NoZeroComponent(syms)
    ensures var nr, ni := |LevelsRe(syms)|, |LevelsIm(syms)|;
      PartitionCodesComplex(syms).Success? <==>
        nr == ni || (nr == 1 && ni <= 2) || (ni == 1 && nr <= 2)
  {
    TableOfLevelsDefined(LevelsRe(syms), LevelsIm(syms));
  }

  /** An alphabet with as many distinct squared real parts as squared
      imaginary parts (square QAM) gets a complete table that pairs the
      levels up per axis. */
  lemma PartitionCodesComplexCodes(syms: seq<Complex>)
    requires |syms| > 0 && NoZeroComponent(syms)
    requires |LevelsRe(syms)| == |LevelsIm(syms)|
    ensures var sr, si, r := LevelsRe(syms), LevelsIm(syms), PartitionCodesComplex(syms);
      r.Success? && |r.value.codes| == |sr| && |r.value.parts| == |sr| - 1 &&
      forall i :: 0 <= i < |sr| ==> r.value.codes[i] == Complex(sr[i], si[i])
  {
    TableOfLevelsCodes(LevelsRe(syms), LevelsIm(syms));
  }

  /** In that table every partition is the per-axis midpoint of its
      neighbouring codes (Midpoints) and lies strictly between them on
      both axes. */
  lemma PartitionCodesComplexParts(syms: seq<Complex>)
    requires |syms| > 0 && NoZeroComponent(syms)
    requires |LevelsRe(syms)| == |LevelsIm(syms)|
    ensures var sr, si, r := LevelsRe(syms), LevelsIm(syms), PartitionCodesComplex(syms);
      r.Success? &&
      forall i :: 0 <= i < |sr| - 1 ==>
        r.value.parts[i] == Complex(Midpoints(sr)[i], Midpoints(si)[i]) &&
        sr[i] < r.value.parts[i].re < sr[i + 1] && si[i] < r.value.parts[i].im < si[i + 1]
  {
    var sr, si := LevelsRe(syms), LevelsIm(syms);
    TableOfLevelsParts(sr, si);
    MidpointsBetween(sr);
    MidpointsBetween(si);
  }
}
