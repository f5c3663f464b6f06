/** Complex arithmetic over exact reals, and the plain (non-conjugating) inner
    product that numpy's `dot` computes. */
module ComplexArith {

  datatype Complex = Complex(re: real, im: real)

  const Zero := Complex(0.0, 0.0)
  const One := Complex(1.0, 0.0)
  const MinusOne := Complex(-1.0, 0.0)

  function Add(a: Complex, b: Complex): Complex {
    Complex(a.re + b.re, a.im + b.im)
  }

  function Mul(a: Complex, b: Complex): Complex {
    Complex(a.re * b.re - a.im * b.im, a.re * b.im + a.im * b.re)
  }

  /** -conj(a), which the orthogonal tap initialisation applies elementwise. */
  function NegConj(a: Complex): Complex {
    Complex(-a.re, a.im)
  }

  function Conj(a: Complex): Complex {
    Complex(a.re, -a.im)
  }

  /** The squared modulus |a|^2; it orders values exactly as |a| does. */
  function Abs2(a: Complex): (r: real)
    ensures r >= 0.0
  {
    a.re * a.re + a.im * a.im
  }

  lemma MulZero(a: Complex)
    ensures Mul(a, Zero) == Zero && Mul(Zero, a) == Zero
  {
  }

  lemma MulOne(a: Complex)
    ensures Mul(a, One) == a
  {
  }

  lemma AddZero(a: Complex)
    ensures Add(a, Zero) == a && Add(Zero, a) == a
  {
  }

  /** 1 has unit modulus. */
  lemma Abs2One()
    ensures Abs2(One) == 1.0
  {
  }

  /** -1 has unit modulus. */
  lemma Abs2MinusOne()
    ensures Abs2(MinusOne) == 1.0
  {
  }

  /** A real number is its own conjugate. */
  lemma ConjOfReal(a: Complex)
    requires a.im == 0.0
    ensures Conj(a) == a
  {
  }

  /** Elementwise conjugate. */
  function ConjAll(a: seq<Complex>): (r: seq<Complex>)
    ensures |r| == |a| && forall j :: 0 <= j < |a| ==> r[j] == Conj(a[j])
  {
    seq(|a|, j requires 0 <= j < |a| => Conj(a[j]))
  }

  /** sum_j a[j] * b[j], without conjugation. */
  function Dot(a: seq<Complex>, b: seq<Complex>): Complex
    requires |a| == |b|
  {
    if |a| == 0 then Zero else Add(Mul(a[0], b[0]), Dot(a[1..], b[1..]))
  }

  /** Dot distributes over concatenation: a stacked window projected on
      stacked taps is the sum of the two partial projections. */
  lemma {:induction false} DotConcat(a: seq<Complex>, b: seq<Complex>, c: seq<Complex>, d: seq<Complex>)
    requires |a| == |c| && |b| == |d|
    ensures Dot(a + b, c + d) == Add(Dot(a, c), Dot(b, d))
  {
    if |a| == 0 {
      assert a + b == b && c + d == d;
    } else {
      assert (a + b)[1..] == a[1..] + b && (c + d)[1..] == c[1..] + d;
      DotConcat(a[1..], b, c[1..], d);
    }
  }

  /** Projecting on a vector whose only nonzero entry is a 1 at `k` picks a[k]. */
  lemma {:induction false} DotUnit(a: seq<Complex>, u: seq<Complex>, k: nat)
    requires |a| == |u| && k < |u|
    requires forall j :: 0 <= j < |u| ==> u[j] == if j == k then One else Zero
    ensures Dot(a, u) == a[k]
  {
    if k == 0 {
      DotZero(a[1..], u[1..]);
      MulOne(a[0]);
      AddZero(a[0]);
    } else {
      DotUnit(a[1..], u[1..], k - 1);
      MulZero(a[0]);
      AddZero(a[k]);
    }
  }

  /** Projecting on the zero vector gives zero. */
  lemma {:induction false} DotZero(a: seq<Complex>, z: seq<Complex>)
    requires |a| == |z|
    requires forall j :: 0 <= j < |z| ==> z[j] == Zero
    ensures Dot(a, z) == Zero
  {
    if |a| > 0 {
      DotZero(a[1..], z[1..]);
      MulZero(a[0]);
      AddZero(Zero);
    }
  }

  /** Two vectors with disjoint supports have a zero inner product. */
  lemma {:induction false} DotDisjoint(a: seq<Complex>, b: seq<Complex>)
    requires |a| == |b|
    requires forall j :: 0 <= j < |a| ==> a[j] == Zero || b[j] == Zero
    ensures Dot(a, b) == Zero
  {
    if |a| > 0 {
      DotDisjoint(a[1..], b[1..]);
      MulZero(a[0]);
      MulZero(b[0]);
      AddZero(Zero);
    }
  }
}
