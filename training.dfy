/** The LMS training driver of the equaliser
    (dsp/equalisation/equalisation.py): _lms_init, equalise_signal and
    dual_mode_equalisation. The training kernels themselves (FS_CMA_training,
    SBD, ...) are compiled code outside this model; they enter as one
    function `kernels` from the method and the call's arguments to the
    errors and the updated taps. */
module Training {
  import opened ComplexArith
  import opened Outcomes
  import opened Matrices
  import opened Taps
  import opened Constellation
  import opened Dispatch
  import opened Filter
  import opened IntArith

  /** The arguments of `training_fct(E, TrSyms, Ntaps, os, mu, w, *args)`. */
  datatype TrainingCall = TrainingCall(
    e: Matrix, trSyms: nat, ntaps: nat, os: nat, mu: real, w: Matrix, args: TrainingArgs)

  /** What a kernel returns: one error per training symbol, and new taps. */
  datatype KernelOut = KernelOut(errs: seq<Complex>, taps: Matrix)

  type Kernels = (Method, TrainingCall) -> KernelOut

  /** What the driver relies on: a kernel returns TrSyms errors (the length
      of the slice of `err` they are written to) and taps of shape
      (2, Ntaps). */
  ghost predicate WellShaped(kernels: Kernels) {
    forall m, c :: |kernels(m, c).errs| == c.trSyms && IsMatrix(kernels(m, c).taps, 2, c.ntaps)
  }

  /** The values _lms_init returns: the truncated signal, both tap arrays,
      TrSyms, Ntaps and the zeroed error trace. */
  datatype LmsState = LmsState(e: Matrix, wx: Matrix, wy: Matrix, trSyms: nat, ntaps: nat, err: Matrix)

  /** TrSyms = int(L//os//Ntaps)*int(Ntaps). */
  function TrainingSymbols(l: nat, os: nat, ntaps: nat): nat
    requires os >= 1 && ntaps >= 1
  {
    MulNonnegative(l / os / ntaps, ntaps);
    (l / os / ntaps) * ntaps
  }

  /** TrSyms is the largest multiple of Ntaps whose os-fold fits into L. */
  lemma TrainingSymbolsBounds(l: nat, os: nat, ntaps: nat)
    requires os >= 1 && ntaps >= 1
    ensures var t := TrainingSymbols(l, os, ntaps);
      t % ntaps == 0 && t * os <= l < (t + ntaps) * os
  {
    var q := l / os;
    var t := TrainingSymbols(l, os, ntaps);
    DivBounds(l, os);
    DivBounds(q, ntaps);
    DivModUnique(t, ntaps, q / ntaps, 0);
    MulMonotone(t, q, os);
    MulMonotone(q + 1, t + ntaps, os);
    MulSucc(q, os);
  }

  /** The taps _lms_init starts from and Ntaps: given taps unchanged, with
      Ntaps their width; otherwise the centre taps and their orthogonal
      transform. np.zeros with a missing Ntaps is a TypeError, and writing
      the centre tap of an empty array an IndexError. */
  function StartTaps(wxy: Option<(Matrix, Matrix)>, ntaps: Option<nat>): (r: Result<(Matrix, Matrix, nat)>)
    requires wxy.Some? ==> IsTwoRow(wxy.value.0)
    ensures r.Success? && wxy.None? ==> r.value.2 >= 1
  {
    if wxy.Some? then Success((wxy.value.0, wxy.value.1, Width(wxy.value.0)))
    else if ntaps.None? then Failure(TypeError)
    else if ntaps.value == 0 then Failure(IndexError)
    else Success((CenterTaps(ntaps.value), OrthogonalTaps(CenterTaps(ntaps.value)), ntaps.value))
  }

  lemma TrainingSymbolsFit(l: nat, os: nat, ntaps: nat)
    requires os >= 1 && ntaps >= 1
    ensures TrainingSymbols(l, os, ntaps) * os <= l
  {
    TrainingSymbolsBounds(l, os, ntaps);
  }

  /** _lms_init(E, os, wxy, Ntaps, Niter): TrSyms from L, os and Ntaps, the
      signal cut to TrSyms*os columns, and a zeroed 2 x Niter*TrSyms trace.
      A zero os or Ntaps is the ZeroDivisionError of `L//os//Ntaps`. The
      normalisation of E is outside the model and taken as already done. */
  function LmsInit(e: Matrix, os: nat, wxy: Option<(Matrix, Matrix)>, ntaps: Option<nat>, niter: nat): (r: Result<LmsState>)
    requires IsTwoRow(e)
    requires wxy.Some? ==> IsTwoRow(wxy.value.0)
    ensures r.Success? ==> r.value.ntaps >= 1 && os >= 1
  {
    var taps :- StartTaps(wxy, ntaps);
    if os == 0 || taps.2 == 0 then Failure(ZeroDivisionError)
    else
      var t := TrainingSymbols(Width(e), os, taps.2);
      MulNonnegative(t, os);
      TrainingSymbolsFit(Width(e), os, taps.2);
      MulNonnegative(niter, t);
      Success(LmsState(TakeColumns(e, t * os), taps.0, taps.1, t, taps.2, Zeros(2, niter * t)))
  }

  /** _lms_init fails exactly on a missing Ntaps, a zero Ntaps, or a zero os,
      in that order of precedence. */
  lemma LmsInitFailures(e: Matrix, os: nat, wxy: Option<(Matrix, Matrix)>, ntaps: Option<nat>, niter: nat)
    requires IsTwoRow(e)
    requires wxy.Some? ==> IsTwoRow(wxy.value.0)
    ensures var r := LmsInit(e, os, wxy, ntaps, niter);
      (wxy.None? && ntaps.None? ==> r == Failure(TypeError)) &&
      (wxy.None? && ntaps == Some(0) ==> r == Failure(IndexError)) &&
      (wxy.None? && ntaps.Some? && ntaps.value >= 1 && os == 0 ==> r == Failure(ZeroDivisionError)) &&
      (wxy.Some? && (os == 0 || Width(wxy.value.0) == 0) ==> r == Failure(ZeroDivisionError)) &&
      (r.Success? <==> os >= 1 && (if wxy.Some? then Width(wxy.value.0) >= 1 else ntaps.Some? && ntaps.value >= 1))
  {
  }

  /** The sizes _lms_init computes: TrSyms from L, os and Ntaps (see
      TrainingSymbolsBounds), the signal cut to exactly TrSyms*os columns,
      and a 2 x Niter*TrSyms trace of zeros. */
  lemma LmsInitSizes(e: Matrix, os: nat, wxy: Option<(Matrix, Matrix)>, ntaps: Option<nat>, niter: nat)
    requires IsTwoRow(e)
    requires wxy.Some? ==> IsTwoRow(wxy.value.0)
    requires LmsInit(e, os, wxy, ntaps, niter).Success?
    ensures var st := LmsInit(e, os, wxy, ntaps, niter).value;
      st.trSyms == TrainingSymbols(Width(e), os, st.ntaps) &&
      st.trSyms * os <= Width(e) &&
      |st.e| == 2 && |st.e[0]| == |st.e[1]| == st.trSyms * os &&
      (forall c :: 0 <= c < |st.e[0]| ==> st.e[0][c] == e[0][c] && st.e[1][c] == e[1][c]) &&
      |st.err| == 2 && |st.err[0]| == |st.err[1]| == niter * st.trSyms &&
      (forall c :: 0 <= c < |st.err[0]| ==> st.err[0][c] == Zero && st.err[1][c] == Zero)
  {
    var st := LmsInit(e, os, wxy, ntaps, niter).value;
    TrainingSymbolsFit(Width(e), os, st.ntaps);
  }

  /** Which taps _lms_init hands on: given taps unchanged (Ntaps taken from
      wx), otherwise the centre taps and their orthogonal transform. */
  lemma LmsInitTaps(e: Matrix, os: nat, wxy: Option<(Matrix, Matrix)>, ntaps: Option<nat>, niter: nat)
    requires IsTwoRow(e)
    requires wxy.Some? ==> IsTwoRow(wxy.value.0)
    requires LmsInit(e, os, wxy, ntaps, niter).Success?
    ensures var st := LmsInit(e, os, wxy, ntaps, niter).value;
      (wxy.Some? ==> st.wx == wxy.value.0 && st.wy == wxy.value.1 && st.ntaps == Width(wxy.value.0)) &&
      (wxy.None? ==>
        ntaps == Some(st.ntaps) && st.wx == CenterTaps(st.ntaps) &&
        st.wy == OrthogonalTaps(CenterTaps(st.ntaps)))
  {
  }

  /** With more taps than the oversampling factor, fewer than t windows of
      n samples, one every os samples, fit into t*os samples. */
  lemma TrainingWindowsShort(t: nat, n: nat, os: nat)
    requires os >= 1 && t >= 1 && n > os
    ensures NumWindows(t * os, n, os) < t
  {
    MulNonnegative(t, os);
    if t * os >= n {
      var d := t * os - n;
      MulSucc(t - 1, os);
      DivBounds(d, os);
      if d / os >= t - 1 {
        MulMonotone(t - 1, d / os, os);
      }
    }
  }

  /** The signal _lms_init hands on holds fewer than TrSyms whole windows
      whenever Ntaps > os: a kernel that reads window k for every k < TrSyms
      reads past its end, and nothing in the driver checks this. */
  lemma LmsInitWindowsShort(e: Matrix, os: nat, wxy: Option<(Matrix, Matrix)>, ntaps: Option<nat>, niter: nat)
    requires IsTwoRow(e)
    requires wxy.Some? ==> IsTwoRow(wxy.value.0)
    requires LmsInit(e, os, wxy, ntaps, niter).Success?
    ensures var st := LmsInit(e, os, wxy, ntaps, niter).value;
      st.ntaps > os && st.trSyms >= 1 ==>
        |st.e[0]| == st.trSyms * os && NumWindows(|st.e[0]|, st.ntaps, os) < st.trSyms
  {
    var st := LmsInit(e, os, wxy, ntaps, niter).value;
    LmsInitSizes(e, os, wxy, ntaps, niter);
    if st.ntaps > os && st.trSyms >= 1 {
      TrainingWindowsShort(st.trSyms, st.ntaps, os);
    }
  }

  /** Everything one polarisation's training runs on besides its own taps. */
  datatype Session = Session(m: Method, e: Matrix, trSyms: nat, ntaps: nat, os: nat, mu: real, args: TrainingArgs)

  function Run(kernels: Kernels, s: Session, w: Matrix): KernelOut {
    kernels(s.m, TrainingCall(s.e, s.trSyms, s.ntaps, s.os, s.mu, w, s.args))
  }

  /** The taps of one polarisation after i iterations, starting from w0: each
      iteration feeds that polarisation's current taps, and only those, to
      the kernel. */
  function TrainFrom(kernels: Kernels, s: Session, w0: Matrix, i: nat): Matrix {
    if i == 0 then w0 else Run(kernels, s, TrainFrom(kernels, s, w0, i - 1)).taps
  }

  /** That polarisation's row of the error trace after i iterations: the
      errors of each iteration appended in turn. */
  function ErrRow(kernels: Kernels, s: Session, w0: Matrix, i: nat): (r: seq<Complex>)
    requires WellShaped(kernels)
    ensures |r| == i * s.trSyms
  {
    if i == 0 then [] else ErrRow(kernels, s, w0, i - 1) + Run(kernels, s, TrainFrom(kernels, s, w0, i - 1)).errs
  }

  /** Iteration k's errors occupy exactly columns [k*TrSyms, (k+1)*TrSyms)
      of the trace: the slices of distinct iterations are disjoint, and
      together they cover the whole row. */
  lemma {:induction false} ErrRowLayout(kernels: Kernels, s: Session, w0: Matrix, i: nat, k: nat, j: nat)
    requires WellShaped(kernels)
    requires k < i && j < s.trSyms
    ensures 0 <= k * s.trSyms + j < i * s.trSyms
    ensures ErrRow(kernels, s, w0, i)[k * s.trSyms + j] == Run(kernels, s, TrainFrom(kernels, s, w0, k)).errs[j]
  {
    var t := s.trSyms;
    MulNonnegative(k, t);
    MulMonotone(k + 1, i, t);
    MulSucc(k, t);
    var prev := ErrRow(kernels, s, w0, i - 1);
    assert ErrRow(kernels, s, w0, i) == prev + Run(kernels, s, TrainFrom(kernels, s, w0, i - 1)).errs;
    if k < i - 1 {
      MulMonotone(k + 1, i - 1, t);
      ErrRowLayout(kernels, s, w0, i - 1, k, j);
    } else {
      assert k * t == |prev|;
    }
  }

  /** Every column of the trace belongs to exactly one iteration: column c
      is error c % TrSyms of iteration c / TrSyms. */
  lemma ErrRowColumn(kernels: Kernels, s: Session, w0: Matrix, i: nat, c: nat)
    requires WellShaped(kernels)
    requires c < i * s.trSyms
    ensures s.trSyms > 0 && c / s.trSyms < i
    ensures ErrRow(kernels, s, w0, i)[c] == Run(kernels, s, TrainFrom(kernels, s, w0, c / s.trSyms)).errs[c % s.trSyms]
  {
    var t := s.trSyms;
    var k, j := c / t, c % t;
    assert c == k * t + j;
    if k >= i {
      MulMonotone(i, k, t);
    }
    ErrRowLayout(kernels, s, w0, i, k, j);
  }

  /** The result of equalise_signal: the taps of both polarisations and the
      two-row error trace. */
  datatype Equalised = Equalised(wx: Matrix, wy: Matrix, err: Matrix)

  /** The steps of equalise_signal before its loop: the name is looked up
      first, then the argument is prepared from the alphabet, then _lms_init
      sizes everything. The first failure is the result. */
  function Prologue(name: string, syms: seq<Complex>, e: Matrix, os: nat, mu: real,
                    wxy: Option<(Matrix, Matrix)>, ntaps: Option<nat>, niter: nat): (r: Result<(Session, LmsState)>)
    requires ValidAlphabet(syms) && IsTwoRow(e)
    requires wxy.Some? ==> IsTwoRow(wxy.value.0)
    ensures r.Success? ==>
      LmsInit(e, os, wxy, ntaps, niter) == Success(r.value.1) &&
      r.value.0.ntaps == r.value.1.ntaps && r.value.0.trSyms == r.value.1.trSyms && r.value.0.os == os
  {
    var m :- Lookup(name);
    var args :- InitArgs(m, syms);
    var st :- LmsInit(e, os, wxy, ntaps, niter);
    Success((Session(m, st.e, st.trSyms, st.ntaps, os, mu, args), st))
  }

  /** What equalise_signal computes, stated without its loop: both
      polarisations trained Niter times from the taps _lms_init hands on, and
      their error rows. The TrSyms parameter is not used, since _lms_init
      recomputes it. */
  function Equalise(kernels: Kernels, name: string, syms: seq<Complex>, e: Matrix, os: nat, mu: real,
                    wxy: Option<(Matrix, Matrix)>, ntaps: Option<nat>, trSyms: Option<nat>, niter: nat): (r: Result<Equalised>)
    requires WellShaped(kernels) && ValidAlphabet(syms) && IsTwoRow(e)
    requires wxy.Some? ==> IsTwoRow(wxy.value.0)
    ensures r.Success? ==> IsTwoRow(r.value.err)
  {
    var (s, st) :- Prologue(name, syms, e, os, mu, wxy, ntaps, niter);
    Success(Equalised(TrainFrom(kernels, s, st.wx, niter), TrainFrom(kernels, s, st.wy, niter),
                      [ErrRow(kernels, s, st.wx, niter), ErrRow(kernels, s, st.wy, niter)]))
  }

  /** The session equalise_signal trains in, once the prologue succeeded. */
  function SessionOf(name: string, syms: seq<Complex>, e: Matrix, os: nat, mu: real,
                     wxy: Option<(Matrix, Matrix)>, ntaps: Option<nat>, niter: nat): Session
    requires ValidAlphabet(syms) && IsTwoRow(e)
    requires wxy.Some? ==> IsTwoRow(wxy.value.0)
    requires Lookup(name).Success? && InitArgs(Lookup(name).value, syms).Success?
    requires LmsInit(e, os, wxy, ntaps, niter).Success?
  {
    Prologue(name, syms, e, os, mu, wxy, ntaps, niter).value.0
  }

  /** The slice assignment `err[p, base:base+len(xs)] = xs`: that part of
      row p becomes xs and every other entry keeps its value. */
  method WriteSlice(err: array2<Complex>, p: nat, base: nat, xs: seq<Complex>)
    requires p < err.Length0 && base + |xs| <= err.Length1
    modifies err
    ensures forall q, c :: 0 <= q < err.Length0 && 0 <= c < err.Length1 ==>
      err[q, c] == if q == p && base <= c < base + |xs| then xs[c - base] else old(err[q, c])
  {
    var j := 0;
    while j < |xs|
      invariant 0 <= j <= |xs|
      invariant forall q, c :: 0 <= q < err.Length0 && 0 <= c < err.Length1 ==>
        err[q, c] == if q == p && base <= c < base + j then xs[c - base] else old(err[q, c])
    {
      err[p, base + j] := xs[j];
      j := j + 1;
    }
  }

  /** The loop of equalise_signal over Niter iterations: each iteration
      trains X and then Y, each from its own current taps, and writes their
      errors to row 0 and row 1 of `err`, columns [i*TrSyms, (i+1)*TrSyms). */
  method TrainLoop(kernels: Kernels, s: Session, wx0: Matrix, wy0: Matrix, niter: nat)
    returns (wx: Matrix, wy: Matrix, err: array2<Complex>)
    requires WellShaped(kernels)
    ensures fresh(err)
    ensures wx == TrainFrom(kernels, s, wx0, niter) && wy == TrainFrom(kernels, s, wy0, niter)
    ensures err.Length0 == 2 && err.Length1 == niter * s.trSyms
    ensures forall c :: 0 <= c < err.Length1 ==>
      err[0, c] == ErrRow(kernels, s, wx0, niter)[c] && err[1, c] == ErrRow(kernels, s, wy0, niter)[c]
  {
    var t := s.trSyms;
    MulNonnegative(niter, t);
    err := new Complex[2, niter * t]((_, _) => Zero);
    wx, wy := wx0, wy0;
    var i, base := 0, 0;
    while i < niter
      invariant 0 <= i <= niter && base == i * t
      invariant wx == TrainFrom(kernels, s, wx0, i) && wy == TrainFrom(kernels, s, wy0, i)
      invariant err.Length0 == 2 && err.Length1 == niter * t
      invariant forall c :: 0 <= c < base ==>
        err[0, c] == ErrRow(kernels, s, wx0, i)[c] && err[1, c] == ErrRow(kernels, s, wy0, i)[c]
    {
      MulSucc(i, t);
      MulMonotone(i + 1, niter, t);
      var outX := Run(kernels, s, wx);
      WriteSlice(err, 0, base, outX.errs);
      wx := outX.taps;
      var outY := Run(kernels, s, wy);
      WriteSlice(err, 1, base, outY.errs);
      wy := outY.taps;
      assert ErrRow(kernels, s, wx0, i + 1) == ErrRow(kernels, s, wx0, i) + outX.errs;
      assert ErrRow(kernels, s, wy0, i + 1) == ErrRow(kernels, s, wy0, i) + outY.errs;
      i, base := i + 1, base + t;
    }
  }

  /** The method's outcome is the specification's: the same error, or the
      same taps and an error array holding the trace entry for entry. */
  predicate Agrees(r: Result<(Matrix, Matrix)>, err: array2<Complex>, spec: Result<Equalised>)
    reads err
  {
    r.Success? == spec.Success? &&
    (r.Failure? ==> r.error == spec.error) &&
    (r.Success? ==>
      r.value == (spec.value.wx, spec.value.wy) && IsTwoRow(spec.value.err) &&
      err.Length0 == 2 && err.Length1 == |spec.value.err[0]| &&
      forall c :: 0 <= c < err.Length1 ==> err[0, c] == spec.value.err[0][c] && err[1, c] == spec.value.err[1][c])
  }

  /** equalise_signal: the name lookup, the argument, _lms_init, then the
      training loop. The printed progress line is left out. */
  method EqualiseSignal(kernels: Kernels, name: string, syms: seq<Complex>, e: Matrix, os: nat, mu: real,
                        wxy: Option<(Matrix, Matrix)>, ntaps: Option<nat>, trSyms: Option<nat>, niter: nat)
    returns (r: Result<(Matrix, Matrix)>, err: array2<Complex>)
    requires WellShaped(kernels) && ValidAlphabet(syms) && IsTwoRow(e)
    requires wxy.Some? ==> IsTwoRow(wxy.value.0)
    ensures fresh(err)
    ensures Agrees(r, err, Equalise(kernels, name, syms, e, os, mu, wxy, ntaps, trSyms, niter))
  {
    var prologue := Prologue(name, syms, e, os, mu, wxy, ntaps, niter);
    if prologue.Failure? {
      return Failure(prologue.error), new Complex[0, 0];
    }
    var (s, st) := prologue.value;
    var wx, wy;
    wx, wy, err := TrainLoop(kernels, s, st.wx, st.wy, niter);
    r := Success((wx, wy));
  }

  /** An unknown method name fails with the KeyError of the lowered name,
      whatever the other arguments: before any taps, tables or sizes are
      computed (even when those would fail too). */
  lemma EqualiseUnknownMethod(kernels: Kernels, name: string, syms: seq<Complex>, e: Matrix, os: nat, mu: real,
                              wxy: Option<(Matrix, Matrix)>, ntaps: Option<nat>, trSyms: Option<nat>, niter: nat)
    requires WellShaped(kernels) && ValidAlphabet(syms) && IsTwoRow(e)
    requires wxy.Some? ==> IsTwoRow(wxy.value.0)
    requires forall m: Method :: NameOf(m) != ToLower(name)
    ensures Equalise(kernels, name, syms, e, os, mu, wxy, ntaps, trSyms, niter) == Failure(KeyError(ToLower(name)))
  {
    assert Lookup(name).Failure?;
  }

  /** The TrSyms argument of equalise_signal does not influence its result. */
  lemma EqualiseIgnoresTrSyms(kernels: Kernels, name: string, syms: seq<Complex>, e: Matrix, os: nat, mu: real,
                              wxy: Option<(Matrix, Matrix)>, ntaps: Option<nat>, t1: Option<nat>, t2: Option<nat>, niter: nat)
    requires WellShaped(kernels) && ValidAlphabet(syms) && IsTwoRow(e)
    requires wxy.Some? ==> IsTwoRow(wxy.value.0)
    ensures Equalise(kernels, name, syms, e, os, mu, wxy, ntaps, t1, niter) ==
            Equalise(kernels, name, syms, e, os, mu, wxy, ntaps, t2, niter)
  {
  }

  /** Without given taps, X trains from the centre taps and Y from the
      orthogonal transform of the UNTRAINED centre taps, each polarisation
      from its own taps only. */
  lemma EqualiseFromCentreTaps(kernels: Kernels, name: string, syms: seq<Complex>, e: Matrix, os: nat, mu: real,
                               n: nat, trSyms: Option<nat>, niter: nat)
    requires WellShaped(kernels) && ValidAlphabet(syms) && IsTwoRow(e)
    requires Lookup(name).Success? && InitArgs(Lookup(name).value, syms).Success?
    requires n >= 1 && os >= 1
    ensures var r := Equalise(kernels, name, syms, e, os, mu, None, Some(n), trSyms, niter);
      var s := SessionOf(name, syms, e, os, mu, None, Some(n), niter);
      r.Success? &&
      r.value.wx == TrainFrom(kernels, s, CenterTaps(n), niter) &&
      r.value.wy == TrainFrom(kernels, s, OrthogonalTaps(CenterTaps(n)), niter)
  {
  }

  /** With given taps (wx, wy), each polarisation trains from its own given
      taps. */
  lemma EqualiseFromGivenTaps(kernels: Kernels, name: string, syms: seq<Complex>, e: Matrix, os: nat, mu: real,
                              wx: Matrix, wy: Matrix, ntaps: Option<nat>, trSyms: Option<nat>, niter: nat)
    requires WellShaped(kernels) && ValidAlphabet(syms) && IsTwoRow(e) && IsTwoRow(wx)
    requires Lookup(name).Success? && InitArgs(Lookup(name).value, syms).Success?
    requires Width(wx) >= 1 && os >= 1
    ensures var r := Equalise(kernels, name, syms, e, os, mu, Some((wx, wy)), ntaps, trSyms, niter);
      var s := SessionOf(name, syms, e, os, mu, Some((wx, wy)), ntaps, niter);
      r.Success? && s.ntaps == Width(wx) &&
      r.value.wx == TrainFrom(kernels, s, wx, niter) &&
      r.value.wy == TrainFrom(kernels, s, wy, niter)
  {
  }

  /** The error trace: row 0 holds X's errors and row 1 Y's, iteration k at
      columns [k*TrSyms, (k+1)*TrSyms). */
  lemma EqualiseTrace(kernels: Kernels, name: string, syms: seq<Complex>, e: Matrix, os: nat, mu: real,
                      wxy: Option<(Matrix, Matrix)>, ntaps: Option<nat>, trSyms: Option<nat>, niter: nat,
                      st: LmsState, s: Session, k: nat, j: nat)
    requires WellShaped(kernels) && ValidAlphabet(syms) && IsTwoRow(e)
    requires wxy.Some? ==> IsTwoRow(wxy.value.0)
    requires Prologue(name, syms, e, os, mu, wxy, ntaps, niter) == Success((s, st))
    requires k < niter && j < st.trSyms
    ensures 0 <= k * st.trSyms + j < niter * st.trSyms
    ensures var r := Equalise(kernels, name, syms, e, os, mu, wxy, ntaps, trSyms, niter);
      r.Success? && |r.value.err| == 2 && |r.value.err[0]| == |r.value.err[1]| == niter * st.trSyms &&
      r.value.err[0][k * st.trSyms + j] == Run(kernels, s, TrainFrom(kernels, s, st.wx, k)).errs[j] &&
      r.value.err[1][k * st.trSyms + j] == Run(kernels, s, TrainFrom(kernels, s, st.wy, k)).errs[j]
  {
    MulNonnegative(k, st.trSyms);
    ErrRowLayout(kernels, s, st.wx, niter, k, j);
    ErrRowLayout(kernels, s, st.wy, niter, k, j);
  }

  /** After training, a polarisation's taps have shape (2, Ntaps)
      whenever they started with it. */
  lemma TrainFromShape(kernels: Kernels, s: Session, w0: Matrix, i: nat)
    requires WellShaped(kernels) && IsMatrix(w0, 2, s.ntaps)
    ensures IsMatrix(TrainFrom(kernels, s, w0, i), 2, s.ntaps)
  {
  }

  /** A successful equalise_signal needs os >= 1 and returns two tap arrays
      of one common shape (2, Ntaps), Ntaps >= 1, provided given taps (if
      any) have a common shape. */
  lemma EqualiseShape(kernels: Kernels, name: string, syms: seq<Complex>, e: Matrix, os: nat, mu: real,
                      wxy: Option<(Matrix, Matrix)>, ntaps: Option<nat>, trSyms: Option<nat>, niter: nat)
    requires WellShaped(kernels) && ValidAlphabet(syms) && IsTwoRow(e)
    requires wxy.Some? ==> IsTwoRow(wxy.value.0) && IsMatrix(wxy.value.1, 2, Width(wxy.value.0))
    ensures var r := Equalise(kernels, name, syms, e, os, mu, wxy, ntaps, trSyms, niter);
      r.Success? ==>
        os >= 1 && IsTwoRow(r.value.wx) && Width(r.value.wx) >= 1 && IsMatrix(r.value.wy, 2, Width(r.value.wx))
  {
    var pro := Prologue(name, syms, e, os, mu, wxy, ntaps, niter);
    if pro.Success? {
      var (s, st) := pro.value;
      PrologueShape(name, syms, e, os, mu, wxy, ntaps, niter, s, st);
      TrainFromShape(kernels, s, st.wx, niter);
      TrainFromShape(kernels, s, st.wy, niter);
    }
  }

  /** The taps the loop starts from have shape (2, Ntaps), Ntaps >= 1. */
  lemma PrologueShape(name: string, syms: seq<Complex>, e: Matrix, os: nat, mu: real,
                      wxy: Option<(Matrix, Matrix)>, ntaps: Option<nat>, niter: nat, s: Session, st: LmsState)
    requires ValidAlphabet(syms) && IsTwoRow(e)
    requires wxy.Some? ==> IsTwoRow(wxy.value.0) && IsMatrix(wxy.value.1, 2, Width(wxy.value.0))
    requires Prologue(name, syms, e, os, mu, wxy, ntaps, niter) == Success((s, st))
    ensures os >= 1 && s.ntaps >= 1 && IsMatrix(st.wx, 2, s.ntaps) && IsMatrix(st.wy, 2, s.ntaps)
  {
    LmsInitTaps(e, os, wxy, ntaps, niter);
  }

  /** What dual_mode_equalisation returns: the equalised signal, the final
      taps, and the error traces of both phases. */
  datatype DualMode = DualMode(out: Matrix, wx: Matrix, wy: Matrix, err1: Matrix, err2: Matrix)

  /** dual_mode_equalisation as written: a first phase from Ntaps centre
      taps, a second phase from the first phase's taps, then the filter
      applied with the second phase's taps. Both phases use mu[0],
      TrSyms[0], Niter[0] and methods[0]. */
  function DualModeEqualisation(kernels: Kernels, methods: (string, string), syms: seq<Complex>, e: Matrix, os: nat,
                                mu: (real, real), ntaps: Option<nat>, trSyms: (Option<nat>, Option<nat>),
                                niter: (nat, nat)): (r: Result<DualMode>)
    requires WellShaped(kernels) && ValidAlphabet(syms) && IsTwoRow(e)
  {
    var first :- Equalise(kernels, methods.0, syms, e, os, mu.0, None, ntaps, trSyms.0, niter.0);
    EqualiseShape(kernels, methods.0, syms, e, os, mu.0, None, ntaps, trSyms.0, niter.0);
    var wxy := Some((first.wx, first.wy));
    var second :- Equalise(kernels, methods.0, syms, e, os, mu.0, wxy, None, trSyms.0, niter.0);
    EqualiseShape(kernels, methods.0, syms, e, os, mu.0, wxy, None, trSyms.0, niter.0);
    Success(DualMode(ApplyFilter(e, os, second.wx, second.wy), second.wx, second.wy, first.err, second.err))
  }

  /** dual_mode_equalisation as evidently intended: the second phase with
      mu[1], TrSyms[1], Niter[1] and methods[1]. */
  function DualModeIntended(kernels: Kernels, methods: (string, string), syms: seq<Complex>, e: Matrix, os: nat,
                            mu: (real, real), ntaps: Option<nat>, trSyms: (Option<nat>, Option<nat>),
                            niter: (nat, nat)): (r: Result<DualMode>)
    requires WellShaped(kernels) && ValidAlphabet(syms) && IsTwoRow(e)
  {
    var first :- Equalise(kernels, methods.0, syms, e, os, mu.0, None, ntaps, trSyms.0, niter.0);
    EqualiseShape(kernels, methods.0, syms, e, os, mu.0, None, ntaps, trSyms.0, niter.0);
    var wxy := Some((first.wx, first.wy));
    var second :- Equalise(kernels, methods.1, syms, e, os, mu.1, wxy, None, trSyms.1, niter.1);
    EqualiseShape(kernels, methods.1, syms, e, os, mu.1, wxy, None, trSyms.1, niter.1);
    Success(DualMode(ApplyFilter(e, os, second.wx, second.wy), second.wx, second.wy, first.err, second.err))
  }

  /** As written, the second-phase entries of mu, TrSyms, Niter and methods
      are never read: any other values give the same result, which is the
      intended dual mode run with the first-phase values twice. */
  lemma DualModeIgnoresSecondPhase(kernels: Kernels, methods: (string, string), syms: seq<Complex>, e: Matrix, os: nat,
                                   mu: (real, real), ntaps: Option<nat>, trSyms: (Option<nat>, Option<nat>),
                                   niter: (nat, nat), method2: string, mu2: real, trSyms2: Option<nat>, niter2: nat)
    requires WellShaped(kernels) && ValidAlphabet(syms) && IsTwoRow(e)
    ensures DualModeEqualisation(kernels, methods, syms, e, os, mu, ntaps, trSyms, niter) ==
            DualModeEqualisation(kernels, (methods.0, method2), syms, e, os, (mu.0, mu2), ntaps, (trSyms.0, trSyms2), (niter.0, niter2))
    ensures DualModeEqualisation(kernels, methods, syms, e, os, mu, ntaps, trSyms, niter) ==
            DualModeIntended(kernels, (methods.0, methods.0), syms, e, os, (mu.0, mu.0), ntaps, (trSyms.0, trSyms.0), (niter.0, niter.0))
  {
  }

  /** The intended second phase trains with methods[1] and mu[1], Niter[1]
      times, from the first phase's taps; the filter is applied with its
      taps, and with Niter[1] == 0 the first phase's taps are kept. */
  lemma DualModeIntendedSecondPhase(kernels: Kernels, methods: (string, string), syms: seq<Complex>, e: Matrix, os: nat,
                                    mu: (real, real), ntaps: Option<nat>, trSyms: (Option<nat>, Option<nat>),
                                    niter: (nat, nat), first: Equalised)
    requires WellShaped(kernels) && ValidAlphabet(syms) && IsTwoRow(e)
    requires Equalise(kernels, methods.0, syms, e, os, mu.0, None, ntaps, trSyms.0, niter.0) == Success(first)
    requires Lookup(methods.1).Success? && InitArgs(Lookup(methods.1).value, syms).Success?
    ensures IsTwoRow(first.wx) && LmsInit(e, os, Some((first.wx, first.wy)), None, niter.1).Success?
    ensures var r := DualModeIntended(kernels, methods, syms, e, os, mu, ntaps, trSyms, niter);
      var s := SessionOf(methods.1, syms, e, os, mu.1, Some((first.wx, first.wy)), None, niter.1);
      r.Success? && r.value.err1 == first.err &&
      s.m == Lookup(methods.1).value && s.mu == mu.1 &&
      r.value.wx == TrainFrom(kernels, s, first.wx, niter.1) &&
      r.value.wy == TrainFrom(kernels, s, first.wy, niter.1) &&
      (niter.1 == 0 ==> r.value.wx == first.wx && r.value.wy == first.wy)
  {
    EqualiseShape(kernels, methods.0, syms, e, os, mu.0, None, ntaps, trSyms.0, niter.0);
    EqualiseFromGivenTaps(kernels, methods.1, syms, e, os, mu.1, first.wx, first.wy, None, trSyms.1, niter.1);
  }

  /** An unknown or failing second-phase method makes the intended dual
      mode fail with that method's error once the first phase succeeded;
      as written the second method is never looked up. */
  lemma DualModeIntendedSecondMethodFails(kernels: Kernels, methods: (string, string), syms: seq<Complex>, e: Matrix,
                                          os: nat, mu: (real, real), ntaps: Option<nat>,
                                          trSyms: (Option<nat>, Option<nat>), niter: (nat, nat), first: Equalised)
    requires WellShaped(kernels) && ValidAlphabet(syms) && IsTwoRow(e)
    requires Equalise(kernels, methods.0, syms, e, os, mu.0, None, ntaps, trSyms.0, niter.0) == Success(first)
    ensures Lookup(methods.1).Failure? ==>
      DualModeIntended(kernels, methods, syms, e, os, mu, ntaps, trSyms, niter) == Failure(KeyError(ToLower(methods.1)))
    ensures Lookup(methods.1).Success? && InitArgs(Lookup(methods.1).value, syms).Failure? ==>
      DualModeIntended(kernels, methods, syms, e, os, mu, ntaps, trSyms, niter) ==
      Failure(InitArgs(Lookup(methods.1).value, syms).error)
  {
  }
}
