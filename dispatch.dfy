/** The training-method table of the equaliser
    (dsp/equalisation/equalisation.py): method names, the fail-fast name
    lookup, and the per-method extra argument each training kernel gets. */
module Dispatch {
  import opened ComplexArith
  import opened Outcomes
  import opened Constellation

  /** The keys of TRAINING_FCTS. */
  datatype Method = Cma | Mcma | Rde | Mrde | Sbd | Mddma | McmaAdaptive | SbdAdaptive | Sca | Cme

  /** The dictionary key of each method. */
  function NameOf(m: Method): string {
    match m
    case Cma => "cma"
    case Mcma => "mcma"
    case Rde => "rde"
    case Mrde => "mrde"
    case Sbd => "sbd"
    case Mddma => "mddma"
    case McmaAdaptive => "mcma_adaptive"
    case SbdAdaptive => "sbd_adaptive"
    case Sca => "sca"
    case Cme => "cme"
  }

  /** Python's str.lower on ASCII letters. */
  function LowerChar(c: char): (l: char)
    ensures 'A' <= c <= 'Z' ==> l as int == c as int + 32
    ensures !('A' <= c <= 'Z') ==> l == c
    ensures !('A' <= l <= 'Z')
  {
    if 'A' <= c <= 'Z' then (c as int + 32) as char else c
  }

  function ToLower(s: string): (t: string)
    ensures |t| == |s| && forall i :: 0 <= i < |s| ==> t[i] == LowerChar(s[i])
  {
    seq(|s|, i requires 0 <= i < |s| => LowerChar(s[i]))
  }

  predicate IsLower(s: string) {
    forall i :: 0 <= i < |s| ==> !('A' <= s[i] <= 'Z')
  }

  /** Lower-casing is idempotent and leaves lower-case text alone. */
  lemma ToLowerFixes(s: string)
    ensures IsLower(ToLower(s))
    ensures IsLower(s) ==> ToLower(s) == s
    ensures ToLower(ToLower(s)) == ToLower(s)
  {
  }

  /** Every key is lower case, and distinct methods have distinct keys. */
  lemma NamesDistinct(m: Method, n: Method)
    ensures IsLower(NameOf(m))
    ensures NameOf(m) == NameOf(n) ==> m == n
  {
  }

  /** `TRAINING_FCTS[method.lower()]`: the method whose key is the lowered
      name, or the KeyError the dictionary raises with the lowered name. */
  function Lookup(name: string): (r: Result<Method>)
    ensures r.Success? ==> NameOf(r.value) == ToLower(name)
    ensures r.Failure? ==>
      r.error == KeyError(ToLower(name)) && forall m: Method :: NameOf(m) != ToLower(name)
  {
    var key := ToLower(name);
    if key == "cma" then Success(Cma)
    else if key == "mcma" then Success(Mcma)
    else if key == "rde" then Success(Rde)
    else if key == "mrde" then Success(Mrde)
    else if key == "sbd" then Success(Sbd)
    else if key == "mddma" then Success(Mddma)
    else if key == "mcma_adaptive" then Success(McmaAdaptive)
    else if key == "sbd_adaptive" then Success(SbdAdaptive)
    else if key == "sca" then Success(Sca)
    else if key == "cme" then Success(Cme)
    else Failure(KeyError(key))
  }

  /** Looking a method up by its own key, in any letter case, finds it. */
  lemma LookupName(m: Method, name: string)
    requires ToLower(name) == NameOf(m)
    ensures Lookup(name) == Success(m)
  {
    NamesDistinct(m, Lookup(name).value);
  }

  /** The extra positional argument `*args` of a training kernel. */
  datatype TrainingArgs =
    | RealRadius(r: real)
    | ComplexRadius(rc: Complex)
    | Radii(radius: RadiusTable)
    | ComplexRadii(table: ComplexTable)
    | Symbols(syms: seq<Complex>)

  /** Which kind of argument each method is given. */
  datatype ArgKind = RealRadiusKind | ComplexRadiusKind | RadiiKind | ComplexRadiiKind | RsCaKind | SymbolsKind

  /** The dispatch table as a table: cma a real radius, the mcma family a
      complex radius, rde the radius table, mrde the complex table, sca its
      own constant, every other method the normalised symbols. */
  function KindOf(m: Method): ArgKind {
    match m
    case Cma => RealRadiusKind
    case Mcma | McmaAdaptive => ComplexRadiusKind
    case Rde => RadiiKind
    case Mrde => ComplexRadiiKind
    case Sca => RsCaKind
    case Sbd | Mddma | SbdAdaptive | Cme => SymbolsKind
  }

  predicate HasKind(a: TrainingArgs, k: ArgKind) {
    match k
    case RealRadiusKind => a.RealRadius?
    case ComplexRadiusKind => a.ComplexRadius?
    case RadiiKind => a.Radii?
    case ComplexRadiiKind => a.ComplexRadii?
    case RsCaKind => false
    case SymbolsKind => a.Symbols?
  }

  /** The alphabet every method is prepared from: the normalised M-QAM
      symbols, none with a zero real or imaginary part. */
  predicate ValidAlphabet(syms: seq<Complex>) {
    |syms| > 0 && NoZeroComponent(syms)
  }

  lemma AlphabetNonzero(syms: seq<Complex>)
    requires ValidAlphabet(syms)
    ensures forall i :: 0 <= i < |syms| ==> Abs2(syms[i]) > 0.0
  {
  }

  /** _init_args: the argument for the method, computed from the alphabet.
      sca fails with the NameError of `_calculate_Rdash`, which calls the
      undefined `sign`; mrde fails where numpy cannot broadcast the levels. */
  function InitArgs(m: Method, syms: seq<Complex>): (r: Result<TrainingArgs>)
    requires ValidAlphabet(syms)
    ensures r.Success? ==> HasKind(r.value, KindOf(m))
    ensures r.Failure? <==> m == Sca || (m == Mrde && PartitionCodesComplex(syms).Failure?)
    ensures m == Sca ==> r == Failure(NameError("sign"))
  {
    AlphabetNonzero(syms);
    match m
    case Mcma | McmaAdaptive => Success(ComplexRadius(RConstantComplex(syms)))
    case Cma => Success(RealRadius(RConstant(syms)))
    case Rde => Success(Radii(PartitionCodesRadius(syms)))
    case Mrde =>
      var t :- PartitionCodesComplex(syms);
      Success(ComplexRadii(t))
    case Sca => Failure(NameError("sign"))
    case Sbd | Mddma | SbdAdaptive | Cme => Success(Symbols(syms))
  }

  /** The argument values: each radius or table is the one its generator
      computes from the same alphabet, and the symbol methods get the
      alphabet unchanged. */
  lemma InitArgsValues(m: Method, syms: seq<Complex>)
    requires ValidAlphabet(syms)
    ensures (AlphabetNonzero(syms);
      var r := InitArgs(m, syms);
      (KindOf(m) == RealRadiusKind ==> r == Success(RealRadius(RConstant(syms)))) &&
      (KindOf(m) == ComplexRadiusKind ==> r == Success(ComplexRadius(RConstantComplex(syms)))) &&
      (KindOf(m) == RadiiKind ==> r == Success(Radii(PartitionCodesRadius(syms)))) &&
      (KindOf(m) == ComplexRadiiKind ==>
        (r.Success? <==> PartitionCodesComplex(syms).Success?) &&
        (r.Success? ==> Success(r.value.table) == PartitionCodesComplex(syms))) &&
      (KindOf(m) == SymbolsKind ==> r == Success(Symbols(syms))))
  {
    match m
    case Mrde =>
      assert KindOf(m) == ComplexRadiiKind;
    case _ =>
  }

  /** For an alphabet with as many distinct squared real as imaginary
      levels (square QAM), sca is the only method whose argument fails. */
  lemma InitArgsSquareQam(m: Method, syms: seq<Complex>)
    requires ValidAlphabet(syms) && |LevelsRe(syms)| == |LevelsIm(syms)|
    ensures InitArgs(m, syms).Failure? <==> m == Sca
  {
    PartitionCodesComplexCodes(syms);
  }
}
