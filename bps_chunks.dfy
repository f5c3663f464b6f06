/** The chunk plan of the arrayfire blind phase search (_bps_idx_af in
    dsp/phaserecovery.py). A signal of L samples is searched in chunks of at
    most Nmax samples, each read with N samples of context on either side;
    the moving sum over 2N samples shortens every chunk's result by 2N, and
    the results are written to consecutive ranges of the index array. The
    distance and moving-sum computation itself (arrayfire) is a parameter. */
module BlindPhaseSearch {
  import opened Outcomes
  import Matrices
  import opened IntArith

  /** The global NMAX = 4*1024**3. */
  const NMAX: nat := 4 * 1024 * 1024 * 1024

  /** Nmax = NMAX//Ntestangles//Nsymbols//16. */
  function ChunkMax(ntestangles: nat, nsyms: nat): nat
    requires ntestangles >= 1 && nsyms >= 1
  {
    DivNonnegative(NMAX, ntestangles);
    DivNonnegative(NMAX / ntestangles, nsyms);
    DivNonnegative(NMAX / ntestangles / nsyms, 16);
    NMAX / ntestangles / nsyms / 16
  }

  /** One search: the source samples [srcStart, srcEnd) are searched at the
      given precision, and the result is written to [dstStart, dstEnd). */
  datatype Chunk = Chunk(srcStart: int, srcEnd: int, dstStart: int, dstEnd: int, precision: int)

  /** K = L//Nmax and R = L%Nmax, moved one chunk back when the remainder
      is shorter than N. */
  function Split(l: nat, n: nat, nmax: nat): (int, int)
    requires nmax >= 1
  {
    var k, r := l / nmax, l % nmax;
    if r < n then (k - 1, r + nmax) else (k, r)
  }

  /** On the chunked path (L > Nmax + N, N <= Nmax) the adjustment leaves at
      least one whole chunk and a remainder of at least N, and K whole
      chunks and the remainder make up exactly L. */
  lemma SplitBounds(l: nat, n: nat, nmax: nat)
    requires 1 <= n <= nmax && l > nmax + n
    ensures var (k, r) := Split(l, n, nmax);
      k >= 1 && n <= r < nmax + n && k * nmax + r == l
  {
    var q, m := l / nmax, l % nmax;
    assert l == q * nmax + m && m < nmax;
    if q <= 1 {
      MulMonotone(q, 1, nmax);
    }
    if m < n {
      MulSucc(q - 1, nmax);
    }
  }

  /** Chunk i of the chunked path: chunk 0 reads [0, Nmax+N) and fills
      [N, Nmax) at the requested precision; chunk i, 1 <= i < K, reads
      [i*Nmax-N, (i+1)*Nmax+N) and fills [i*Nmax, (i+1)*Nmax); chunk K reads
      [K*Nmax-N, K*Nmax+R) and fills [K*Nmax, L-N). The later chunks are
      converted to double precision whatever the requested precision. */
  function ChunkAt(l: nat, n: nat, nmax: nat, k: int, r: int, precision: int, i: nat): Chunk {
    if i == 0 then Chunk(0, nmax + n, n, nmax, precision)
    else if i < k then Chunk(i * nmax - n, (i + 1) * nmax + n, i * nmax, (i + 1) * nmax, 16)
    else Chunk(k * nmax - n, k * nmax + r, k * nmax, l - n, 16)
  }

  /** The first `count` chunks of the chunked path, in the order they are
      searched. */
  function Chunks(l: nat, n: nat, nmax: nat, k: int, r: int, precision: int, count: nat): (cs: seq<Chunk>)
    ensures |cs| == count && forall i :: 0 <= i < count ==> cs[i] == ChunkAt(l, n, nmax, k, r, precision, i)
  {
    if count == 0 then [] else Chunks(l, n, nmax, k, r, precision, count - 1) + [ChunkAt(l, n, nmax, k, r, precision, count - 1)]
  }

  /** What _bps_idx_af demands of N and Nmax: N >= 1, and on the chunked
      path a chunk no shorter than its context. */
  predicate PlanArgs(l: nat, n: nat, nmax: nat) {
    n >= 1 && (l > nmax + n ==> n <= nmax)
  }

  /** All searches of _bps_idx_af: one search of the whole signal filling
      [N, L-N) when L <= Nmax + N (nothing to fill when L < 2N), otherwise
      chunks 0..K. */
  function Plan(l: nat, n: nat, nmax: nat, precision: int): seq<Chunk>
    requires PlanArgs(l, n, nmax)
  {
    if l <= nmax + n then (if l >= 2 * n then [Chunk(0, l, n, l - n, precision)] else [])
    else
      SplitBounds(l, n, nmax);
      var (k, r) := Split(l, n, nmax);
      Chunks(l, n, nmax, k, r, precision, (k + 1) as nat)
  }

  /** One chunk of the chunked path lies in the signal, fills a range inside
      [N, L-N) that is 2N shorter than what it reads, and chunks after the
      first are in double precision. */
  lemma ChunkAtShape(l: nat, n: nat, nmax: nat, precision: int, i: nat)
    requires PlanArgs(l, n, nmax) && l > nmax + n
    requires i <= Split(l, n, nmax).0
    ensures var (k, r) := Split(l, n, nmax);
      var c := ChunkAt(l, n, nmax, k, r, precision, i);
      0 <= c.srcStart <= c.srcEnd <= l && n <= c.dstStart <= c.dstEnd <= l - n &&
      c.srcEnd - c.srcStart == c.dstEnd - c.dstStart + 2 * n &&
      c.precision == (if i == 0 then precision else 16)
  {
    SplitBounds(l, n, nmax);
    var (k, r) := Split(l, n, nmax);
    if 0 < i < k {
      MulMonotone(1, i, nmax);
      MulMonotone(i + 1, k, nmax);
      MulSucc(i, nmax);
    } else if i == k {
      MulMonotone(1, k, nmax);
    }
  }

  /** Dst ranges of the chunked path in search order: chunk i ends where
      chunk i+1 starts. */
  lemma ChunkAtContiguous(l: nat, n: nat, nmax: nat, precision: int, i: nat)
    requires PlanArgs(l, n, nmax) && l > nmax + n
    requires i < Split(l, n, nmax).0
    ensures var (k, r) := Split(l, n, nmax);
      ChunkAt(l, n, nmax, k, r, precision, i).dstEnd == ChunkAt(l, n, nmax, k, r, precision, i + 1).dstStart
  {
  }

  /** Every search reads inside the signal, its result is 2N shorter than
      what it reads and fills a range inside [N, L-N); only the unchunked
      search and chunk 0 use the requested precision. */
  lemma PlanShapes(l: nat, n: nat, nmax: nat, precision: int, i: nat)
    requires PlanArgs(l, n, nmax) && i < |Plan(l, n, nmax, precision)|
    ensures var c := Plan(l, n, nmax, precision)[i];
      0 <= c.srcStart <= c.srcEnd <= l && n <= c.dstStart <= c.dstEnd <= l - n &&
      c.srcEnd - c.srcStart == c.dstEnd - c.dstStart + 2 * n &&
      c.precision == (if i == 0 then precision else 16)
  {
    if l > nmax + n {
      ChunkAtShape(l, n, nmax, precision, i);
    }
  }

  /** The fill ranges tile [N, L-N): the plan is empty exactly when there is
      nothing to fill, the first range starts at N, each range ends where the
      next starts, and the last ends at L-N. */
  lemma PlanTiles(l: nat, n: nat, nmax: nat, precision: int)
    requires PlanArgs(l, n, nmax)
    ensures var p := Plan(l, n, nmax, precision);
      (|p| > 0 <==> l >= 2 * n) &&
      (|p| > 0 ==> p[0].dstStart == n && p[|p| - 1].dstEnd == l - n) &&
      (forall i :: 0 <= i < |p| - 1 ==> p[i].dstEnd == p[i + 1].dstStart)
  {
    var p := Plan(l, n, nmax, precision);
    if l > nmax + n {
      SplitBounds(l, n, nmax);
      forall i | 0 <= i < |p| - 1
        ensures p[i].dstEnd == p[i + 1].dstStart
      {
        ChunkAtContiguous(l, n, nmax, precision, i);
      }
    }
  }

  /** A fill range that lies after chunk i's: ranges never overlap. */
  lemma PlanOrdered(l: nat, n: nat, nmax: nat, precision: int, i: nat, j: nat)
    requires PlanArgs(l, n, nmax) && i < j < |Plan(l, n, nmax, precision)|
    ensures Plan(l, n, nmax, precision)[i].dstEnd <= Plan(l, n, nmax, precision)[j].dstStart
  {
    var (k, r) := Split(l, n, nmax);
    SplitBounds(l, n, nmax);
    if 0 < i {
      MulMonotone(i + 1, j, nmax);
    } else {
      MulMonotone(1, j, nmax);
    }
  }

  /** The arrayfire search of samples [a, b) at a precision: the index of
      the best test angle for every window of 2N samples. */
  type Search = (int, int, int) -> seq<int>

  /** The moving sum over 2N shortens the searched range by 2N (to nothing
      when the range is shorter). */
  ghost predicate SearchShaped(search: Search, n: nat) {
    forall p, a, b :: |search(p, a, b)| == if b - a >= 2 * n then b - a - 2 * n else 0
  }

  function Found(search: Search, c: Chunk): seq<int> {
    search(c.precision, c.srcStart, c.srcEnd)
  }

  /** `s[start:start+len(xs)] = xs`. */
  function Overwrite(s: seq<int>, start: int, xs: seq<int>): (t: seq<int>)
    requires 0 <= start && start + |xs| <= |s|
    ensures |t| == |s|
    ensures forall x :: 0 <= x < |s| ==> t[x] == if start <= x < start + |xs| then xs[x - start] else s[x]
  {
    s[..start] + xs + s[start + |xs|..]
  }

  /** Every search result fits its fill range. */
  predicate Sized(cs: seq<Chunk>, len: nat, search: Search) {
    forall i :: 0 <= i < |cs| ==>
      0 <= cs[i].dstStart && cs[i].dstStart + |Found(search, cs[i])| == cs[i].dstEnd <= len
  }

  /** The index array after writing the searches of cs in order. */
  function Apply(s: seq<int>, cs: seq<Chunk>, search: Search): (t: seq<int>)
    requires Sized(cs, |s|, search)
    ensures |t| == |s|
  {
    if cs == [] then s
    else
      var c := cs[|cs| - 1];
      Overwrite(Apply(s, cs[..|cs| - 1], search), c.dstStart, Found(search, c))
  }

  /** An entry outside every fill range keeps its value. */
  lemma {:induction false} ApplyUntouched(s: seq<int>, cs: seq<Chunk>, search: Search, x: nat)
    requires Sized(cs, |s|, search) && x < |s|
    requires forall i :: 0 <= i < |cs| ==> !(cs[i].dstStart <= x < cs[i].dstEnd)
    ensures Apply(s, cs, search)[x] == s[x]
  {
    if cs != [] {
      ApplyUntouched(s, cs[..|cs| - 1], search, x);
    }
  }

  /** An entry in chunk i's range and in no later range holds chunk i's
      result. */
  lemma {:induction false} ApplyOwner(s: seq<int>, cs: seq<Chunk>, search: Search, i: nat, x: nat)
    requires Sized(cs, |s|, search) && i < |cs| && cs[i].dstStart <= x < cs[i].dstEnd
    requires forall j :: i < j < |cs| ==> !(cs[j].dstStart <= x < cs[j].dstEnd)
    ensures x < |s| && Apply(s, cs, search)[x] == Found(search, cs[i])[x - cs[i].dstStart]
  {
    if i < |cs| - 1 {
      ApplyOwner(s, cs[..|cs| - 1], search, i, x);
    }
  }

  function ZeroIndices(l: nat): (z: seq<int>)
    ensures |z| == l && forall x :: 0 <= x < l ==> z[x] == 0
  {
    seq(l, _ => 0)
  }

  lemma PlanSized(l: nat, n: nat, nmax: nat, precision: int, search: Search)
    requires PlanArgs(l, n, nmax) && SearchShaped(search, n)
    ensures Sized(Plan(l, n, nmax, precision), l, search)
  {
    var p := Plan(l, n, nmax, precision);
    forall i | 0 <= i < |p|
      ensures 0 <= p[i].dstStart && p[i].dstStart + |Found(search, p[i])| == p[i].dstEnd <= l
    {
      PlanShapes(l, n, nmax, precision, i);
    }
  }

  /** The index array _bps_idx_af returns: zeros, overwritten by every
      search of the plan in order. */
  function Indices(l: nat, n: nat, nmax: nat, precision: int, search: Search): (idx: seq<int>)
    requires PlanArgs(l, n, nmax) && SearchShaped(search, n)
    ensures |idx| == l
  {
    PlanSized(l, n, nmax, precision, search);
    Apply(ZeroIndices(l), Plan(l, n, nmax, precision), search)
  }

  /** The first N and the last N entries keep their initial 0. */
  lemma IndicesOutside(l: nat, n: nat, nmax: nat, precision: int, search: Search, x: nat)
    requires PlanArgs(l, n, nmax) && SearchShaped(search, n)
    requires x < l && (x < n || x >= l - n)
    ensures Indices(l, n, nmax, precision, search)[x] == 0
  {
    var p := Plan(l, n, nmax, precision);
    PlanSized(l, n, nmax, precision, search);
    forall i | 0 <= i < |p|
      ensures !(p[i].dstStart <= x < p[i].dstEnd)
    {
      PlanShapes(l, n, nmax, precision, i);
    }
    ApplyUntouched(ZeroIndices(l), p, search, x);
  }

  /** A contiguous run of ranges from lo to hi covers every x in [lo, hi). */
  lemma {:induction false} ContiguousCover(cs: seq<Chunk>, x: int)
    requires |cs| > 0 && cs[0].dstStart <= x < cs[|cs| - 1].dstEnd
    requires forall i :: 0 <= i < |cs| - 1 ==> cs[i].dstEnd == cs[i + 1].dstStart
    ensures exists i :: 0 <= i < |cs| && cs[i].dstStart <= x < cs[i].dstEnd
  {
    if x >= cs[|cs| - 1].dstStart {
      assert cs[|cs| - 1].dstStart <= x < cs[|cs| - 1].dstEnd;
    } else {
      var front := cs[..|cs| - 1];
      assert front[|front| - 1].dstEnd == cs[|cs| - 1].dstStart;
      ContiguousCover(front, x);
      var i :| 0 <= i < |front| && front[i].dstStart <= x < front[i].dstEnd;
      assert cs[i] == front[i];
    }
  }

  /** Every entry of [N, L-N) holds the result of exactly the search whose
      range contains it. */
  lemma IndicesInside(l: nat, n: nat, nmax: nat, precision: int, search: Search, x: nat)
    requires PlanArgs(l, n, nmax) && SearchShaped(search, n)
    requires n <= x < l - n
    ensures (PlanSized(l, n, nmax, precision, search);
      var p := Plan(l, n, nmax, precision);
      exists i :: 0 <= i < |p| && p[i].dstStart <= x < p[i].dstEnd &&
        Indices(l, n, nmax, precision, search)[x] == Found(search, p[i])[x - p[i].dstStart])
  {
    var p := Plan(l, n, nmax, precision);
    PlanTiles(l, n, nmax, precision);
    PlanSized(l, n, nmax, precision, search);
    ContiguousCover(p, x);
    var i :| 0 <= i < |p| && p[i].dstStart <= x < p[i].dstEnd;
    forall j | i < j < |p|
      ensures !(p[j].dstStart <= x < p[j].dstEnd)
    {
      PlanOrdered(l, n, nmax, precision, i, j);
    }
    ApplyOwner(ZeroIndices(l), p, search, i, x);
  }

  /** The first `count` chunks of the chunked path fit the index array. */
  lemma ChunksSized(l: nat, n: nat, nmax: nat, precision: int, search: Search, count: nat)
    requires PlanArgs(l, n, nmax) && l > nmax + n && SearchShaped(search, n)
    requires count <= Split(l, n, nmax).0 + 1
    ensures var (k, r) := Split(l, n, nmax);
      Sized(Chunks(l, n, nmax, k, r, precision, count), l, search)
  {
    var (k, r) := Split(l, n, nmax);
    var cs := Chunks(l, n, nmax, k, r, precision, count);
    forall i | 0 <= i < count
      ensures 0 <= cs[i].dstStart && cs[i].dstStart + |Found(search, cs[i])| == cs[i].dstEnd <= l
    {
      ChunkAtShape(l, n, nmax, precision, i);
    }
  }

  /** The slice assignment `a[start:stop] = xs`, Python's bounds resolved;
      xs has exactly the slice's length (numpy refuses anything else). */
  method AssignSlice(a: array<int>, start: int, stop: int, xs: seq<int>)
    requires var lo, hi := Matrices.SliceBound(start, a.Length), Matrices.SliceBound(stop, a.Length);
      |xs| == if lo < hi then hi - lo else 0
    modifies a
    ensures a[..] == Overwrite(old(a[..]), Matrices.SliceBound(start, a.Length), xs)
  {
    var lo := Matrices.SliceBound(start, a.Length);
    var j := 0;
    while j < |xs|
      invariant 0 <= j <= |xs|
      invariant a[..] == Overwrite(old(a[..]), lo, xs[..j])
    {
      a[lo + j] := xs[j];
      j := j + 1;
    }
    assert xs[..j] == xs;
  }

  /** The unchunked path: one search of the whole signal, written to
      `idxnd[N:-N]`. */
  method SearchWhole(idxnd: array<int>, l: nat, n: nat, nmax: nat, precision: int, search: Search)
    requires PlanArgs(l, n, nmax) && SearchShaped(search, n) && l <= nmax + n
    requires idxnd.Length == l && idxnd[..] == ZeroIndices(l)
    modifies idxnd
    ensures idxnd[..] == Indices(l, n, nmax, precision, search)
  {
    var idx := search(precision, 0, l);
    AssignSlice(idxnd, n, -(n as int), idx);
    if l >= 2 * n {
      assert idxnd[..] == Apply(ZeroIndices(l), [Chunk(0, l, n, l - n, precision)], search);
    } else {
      assert idxnd[..] == ZeroIndices(l);
    }
  }

  /** Writing chunk i's result to its fill range takes the index array
      from the first i chunks to the first i+1; the Python slice bounds of
      that range resolve to the range itself. */
  lemma ChunkWrite(l: nat, n: nat, nmax: nat, k: int, r: int, precision: int, search: Search, i: nat)
    requires PlanArgs(l, n, nmax) && l > nmax + n && SearchShaped(search, n)
    requires (k, r) == Split(l, n, nmax) && i <= k
    ensures var c := ChunkAt(l, n, nmax, k, r, precision, i);
      n <= c.dstStart <= c.dstEnd <= l - n &&
      Matrices.SliceBound(c.dstStart, l) == c.dstStart &&
      Matrices.SliceBound(c.dstEnd, l) == c.dstEnd && Matrices.SliceBound(-(n as int), l) == l - n &&
      |Found(search, c)| == c.dstEnd - c.dstStart &&
      Sized(Chunks(l, n, nmax, k, r, precision, i), l, search) &&
      Sized(Chunks(l, n, nmax, k, r, precision, i + 1), l, search) &&
      Apply(ZeroIndices(l), Chunks(l, n, nmax, k, r, precision, i + 1), search) ==
        Overwrite(Apply(ZeroIndices(l), Chunks(l, n, nmax, k, r, precision, i), search), c.dstStart, Found(search, c))
  {
    ChunkAtShape(l, n, nmax, precision, i);
    ChunksSized(l, n, nmax, precision, search, i);
    ChunksSized(l, n, nmax, precision, search, i + 1);
    assert Chunks(l, n, nmax, k, r, precision, i + 1)[..i] == Chunks(l, n, nmax, k, r, precision, i);
  }

  /** One search of the chunked path: chunk i searched and written to
      `idxnd[dstStart:dstEnd]`, the last chunk to `idxnd[K*Nmax:-N]`. */
  method WriteChunk(idxnd: array<int>, l: nat, n: nat, nmax: nat, k: int, rem: int, precision: int,
                    search: Search, i: nat)
    requires PlanArgs(l, n, nmax) && SearchShaped(search, n) && l > nmax + n
    requires (k, rem) == Split(l, n, nmax) && i <= k
    requires idxnd.Length == l && Sized(Chunks(l, n, nmax, k, rem, precision, i), l, search)
    requires idxnd[..] == Apply(ZeroIndices(l), Chunks(l, n, nmax, k, rem, precision, i), search)
    modifies idxnd
    ensures Sized(Chunks(l, n, nmax, k, rem, precision, i + 1), l, search)
    ensures idxnd[..] == Apply(ZeroIndices(l), Chunks(l, n, nmax, k, rem, precision, i + 1), search)
  {
    var c := ChunkAt(l, n, nmax, k, rem, precision, i);
    ChunkWrite(l, n, nmax, k, rem, precision, search, i);
    AssignSlice(idxnd, c.dstStart, if i == k then -(n as int) else c.dstEnd, Found(search, c));
  }

  /** The chunked path: chunk 0 written to `idxnd[N:Nmax]`, chunks 1..K-1 to
      `idxnd[i*Nmax:(i+1)*Nmax]` in a loop, chunk K to `idxnd[K*Nmax:-N]`;
      ChunkAt holds each chunk's bounds. */
  method SearchChunked(idxnd: array<int>, l: nat, n: nat, nmax: nat, precision: int, search: Search)
    requires PlanArgs(l, n, nmax) && SearchShaped(search, n) && l > nmax + n && nmax >= 1
    requires idxnd.Length == l && idxnd[..] == ZeroIndices(l)
    modifies idxnd
    ensures idxnd[..] == Indices(l, n, nmax, precision, search)
  {
    var k, rem := l / nmax, l % nmax;
    if rem < n {
      rem := rem + nmax;
      k := k - 1;
    }
    SplitBounds(l, n, nmax);
    assert (k, rem) == Split(l, n, nmax);
    assert Chunks(l, n, nmax, k, rem, precision, 0) == [];
    WriteChunk(idxnd, l, n, nmax, k, rem, precision, search, 0);
    var i := 1;
    while i < k
      invariant 1 <= i <= k
      invariant Sized(Chunks(l, n, nmax, k, rem, precision, i), l, search)
      invariant idxnd[..] == Apply(ZeroIndices(l), Chunks(l, n, nmax, k, rem, precision, i), search)
    {
      WriteChunk(idxnd, l, n, nmax, k, rem, precision, search, i);
      i := i + 1;
    }
    WriteChunk(idxnd, l, n, nmax, k, rem, precision, search, k);
    assert Plan(l, n, nmax, precision) == Chunks(l, n, nmax, k, rem, precision, k + 1);
  }

  /** _bps_idx_af: the precision check, Nmax from the test angles and the
      symbols, then the search of the whole signal or of its chunks, each
      written to its range of a zeroed index array. */
  method BpsIndexAf(l: nat, ntestangles: nat, nsyms: nat, n: nat, precision: int, search: Search)
    returns (r: Result<seq<int>>)
    requires n >= 1 && SearchShaped(search, n)
    requires ntestangles >= 1 && nsyms >= 1 ==>
      var nmax := ChunkMax(ntestangles, nsyms);
      nmax >= 1 && l > nmax + n ==> n <= nmax
    ensures precision != 16 && precision != 8 ==> r == Failure(ValueError)
    ensures (precision == 16 || precision == 8) && (ntestangles == 0 || nsyms == 0) ==> r == Failure(ZeroDivisionError)
    ensures (precision == 16 || precision == 8) && ntestangles >= 1 && nsyms >= 1 ==>
      var nmax := ChunkMax(ntestangles, nsyms);
      (nmax == 0 && l > n ==> r == Failure(ZeroDivisionError)) &&
      (nmax >= 1 || l <= n ==> r == Success(Indices(l, n, nmax, precision, search)))
  {
    if precision != 16 && precision != 8 {
      return Failure(ValueError);
    }
    if ntestangles == 0 || nsyms == 0 {
      return Failure(ZeroDivisionError);
    }
    var nmax := NMAX / ntestangles / nsyms / 16;
    var idxnd := new int[l](_ => 0);
    assert idxnd[..] == ZeroIndices(l);
    if l <= nmax + n {
      SearchWhole(idxnd, l, n, nmax, precision, search);
    } else if nmax == 0 {
      return Failure(ZeroDivisionError);
    } else {
      SearchChunked(idxnd, l, n, nmax, precision, search);
    }
    return Success(idxnd[..]);
  }
}
