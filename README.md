# QAMpy equaliser and phase-recovery core in Dafny

This project models the structural logic of two QAMpy modules and proves properties about it.

`dsp/equalisation/equalisation.py` is the blind, fractionally spaced 2x2 MIMO equaliser of a dual-polarisation signal. The model covers:
- the tap initialisation `_init_taps` and `_init_orthogonaltaps`;
- the constellation constants and tables (`_calculate_Rconstant`, `_calculate_Rconstant_complex`, `generate_partition_codes_radius`, `generate_partition_codes_complex`);
- the training-method table with its lower-cased, fail-fast lookup (`TRAINING_FCTS`, `_init_args`);
- the LMS driver `_lms_init`, with its sizing of TrSyms, the truncation of the signal and the error trace;
- the training loop of `equalise_signal`;
- the two-phase `dual_mode_equalisation`;
- the strided filter `apply_filter`.

`dsp/phaserecovery.py` is carrier phase recovery. The model covers its index plumbing:
- the gather `select_angles`;
- the trim of `viterbiviterbi_gen`;
- the chunk plan of the arrayfire blind phase search `_bps_idx_af`;
- the ring masks of `partition_16QAM`;
- the block loop of `QPSK_partition_phase_16QAM`.

Modelling choices:
- Numbers are exact `real`s. A complex number is a pair of reals (`ComplexArith.Complex`).
- Magnitudes are compared through their squares (`Abs2`), so no square root appears.
- Tap arrays and signals are two-row sequences of complex numbers (`Matrices.Matrix`).
- Python exceptions become `Outcomes.Result` failures tagged with the exception class: `KeyError`, `NameError`, `TypeError`, `IndexError`, `ZeroDivisionError`, `ValueError`.
- Where the source fills a preallocated buffer in a loop, the model is a method over an `array` or `array2`, proved against a specification function:
  - `_init_taps`;
  - the error trace of `equalise_signal`;
  - `anglesn` in `select_angles`;
  - `idxnd` in `_bps_idx_af`;
  - `phi_est` in `QPSK_partition_phase_16QAM`.

  The array-expression code is modelled as functions.
- Code that is not shown, or floating-point numerics, enters as function parameters:
  - the compiled training kernels (`Training.Kernels`, constrained by `WellShaped`);
  - the arrayfire distance search (`BlindPhaseSearch.Search`, constrained by `SearchShaped`);
  - the per-block angle estimate and the unwrap-and-rotate step of the QPSK partition (`PhaseRecovery.BlockEstimate`, `PhaseRecovery.Rotation`);
  - the phase correction of Viterbi-Viterbi (the `rot` argument).
- The normalised M-QAM alphabet is an input sequence with no zero real or imaginary component (`Dispatch.ValidAlphabet`).

Modules:
- `ComplexArith` (complex.dfy)
- `Outcomes` (outcomes.dfy)
- `IntArith` (intarith.dfy)
- `Matrices` (matrices.dfy)
- `Taps` and `TapFacts` (taps.dfy)
- `Filter` (filter.dfy)
- `Constellation` (constellation.dfy)
- `Dispatch` (dispatch.dfy)
- `Training` (training.dfy)
- `PhaseRecovery` (phase_recovery.dfy)
- `BlindPhaseSearch` (bps_chunks.dfy)

Where the code and its documented intent differ, the model follows the code:
- `_init_orthogonaltaps` is commented "centering the taps" (`dsp/equalisation/equalisation.py:119`). Its `delay` is computed from the ROW indices of the two peaks, so it is always 0 or 1, and the code shifts by that many columns. It does not align the tap positions.
- For the centre taps of width n, the resulting Y filter has its single -1 at column n - 2 - n/2 of row 1. That column exists only for n >= 3, so for n = 1 and n = 2 the Y filter is all zero (`TapFacts.InitialTaps`).
- `_init_orthogonaltaps` is commented as initialising the taps to be orthogonal to the X polarisation (`dsp/equalisation/equalisation.py:116`). That holds for the centre taps the core builds (`TapFacts.CentreTapsOrthogonal`), but not for every filter. For the given taps wx = [[1, 0], [0, 1]], both peaks are in row 0, so the delay is 0 and the Y filter is the unshifted flip [[-1, 0], [0, -1]]. The inner product sum wx[j]*conj(wy[j]) is then -2, not 0 (`TapFacts.DiagonalNotOrthogonal`).

## Model

| member | source | states |
|---|---|---|
| Taps.CenterTaps | dsp/equalisation/equalisation.py:109-112 | a 2 x Ntaps array, zero except a 1 at row 0, column Ntaps/2 |
| Taps.InitTaps | dsp/equalisation/equalisation.py:109-112 | the array built by allocating zeros and assigning one entry equals CenterTaps entry by entry |
| Taps.PeakIndex | dsp/equalisation/equalisation.py:120-121 | np.argmax over the magnitudes: a maximal index with every earlier entry strictly smaller |
| Taps.PeakIndexUnique | dsp/equalisation/equalisation.py:120-121 | those two properties determine the argmax uniquely |
| Taps.UnravelRow | dsp/equalisation/equalisation.py:120-121 | the unravelled row of a flat index into a 2 x n array is 0 below n and 1 from n on |
| Taps.PeakRow | dsp/equalisation/equalisation.py:120-121 | the peak's row index is 0 or 1 |
| Taps.NegConjReversed | dsp/equalisation/equalisation.py:118 | entry c is the negated conjugate of entry n-1-c of the row |
| Taps.NegConjFlip | dsp/equalisation/equalisation.py:118 | -conj(wx[::-1, ::-1]): shape kept, row r column c is -conj(wx[1-r][n-1-c]) |
| Taps.OrthogonalDelay | dsp/equalisation/equalisation.py:120-122 | the delay is the absolute difference of the two peak ROW indices, so it is 0 or 1 |
| Taps.OrthogonalTaps | dsp/equalisation/equalisation.py:114-130 | output of the input's shape; entry (r, c) is -conj(wx[1-r][n-1-(c+delay)]) for c < n - delay and zero in the last delay columns; the delay < 0 branch is unreachable |
| TapFacts.PeakInRow0 | dsp/equalisation/equalisation.py:120 | a filter whose only nonzero tap is in row 0, column h, peaks at flat index h |
| TapFacts.PeakInRow1 | dsp/equalisation/equalisation.py:121 | a filter whose only nonzero tap is in row 1, column h, peaks at flat index n + h |
| TapFacts.FlippedCentreTaps | dsp/equalisation/equalisation.py:118 | flipping a centre-tap filter leaves row 0 zero and puts -1 at row 1, column n-1-h |
| TapFacts.DelayOfCentreTaps | dsp/equalisation/equalisation.py:120-122 | for a centre-tap filter the delay is exactly 1 |
| TapFacts.SingleTap | dsp/equalisation/equalisation.py:124-126 | reference filter: row 0 zero, row 1 zero except -1 at column n-2-h when that column exists |
| TapFacts.ShiftedFlipOfCentreTaps | dsp/equalisation/equalisation.py:118-126 | flip, shift left by one and zero-pad a centre-tap filter gives SingleTap |
| TapFacts.OrthogonalOfCentreTaps | dsp/equalisation/equalisation.py:114-130 | _init_orthogonaltaps of a centre-tap filter has delay 1 and equals SingleTap |
| TapFacts.RowSupportsOrthogonal | dsp/equalisation/equalisation.py:116 | filters whose nonzero taps lie in different rows have a zero inner product once flattened |
| TapFacts.CentreTapsOrthogonal | dsp/equalisation/equalisation.py:114-130 | a centre-tap filter and its orthogonal partner have a zero inner product sum wx[j]*conj(wy[j]) |
| TapFacts.DiagonalDelay | dsp/equalisation/equalisation.py:118-126 | for wx = [[1, 0], [0, 1]] both peaks are in row 0, so the delay is 0 and the orthogonal filter is the unshifted flip |
| TapFacts.DiagonalNotOrthogonal | dsp/equalisation/equalisation.py:114-130 | for wx = [[1, 0], [0, 1]] the inner product of wx with the conjugate of its orthogonal filter is -2, so the documented orthogonality fails |
| TapFacts.InitialTaps | dsp/equalisation/equalisation.py:186-188 | the start filters for n taps: delay 1, a Y filter that is SingleTap(n, n/2), and the two are orthogonal |
| Filter.NumWindowsFit | dsp/equalisation/equalisation.py:81-82 | every counted window of Ntaps samples, one every os samples, lies inside the signal, and one more would not |
| Filter.Window | dsp/equalisation/equalisation.py:81-82 | window k holds samples k*os .. k*os+Ntaps-1 |
| Filter.Project | dsp/equalisation/equalisation.py:83-85 | entry k is the stacked X and Y window k dotted, unconjugated, with the flattened taps |
| Filter.ApplyFilter | dsp/equalisation/equalisation.py:75-86 | the output has 2 rows and one column per whole window |
| Filter.ApplyFilterSum | dsp/equalisation/equalisation.py:75-86 | output entry (p, k) is sum_j E[0][k*os+j]*w_p[0][j] + E[1][k*os+j]*w_p[1][j], with no conjugation |
| Filter.ApplyFilterCentreTaps | dsp/equalisation/equalisation.py:75-86 | with the centre taps as X filter, X output k is E[0][k*os + Ntaps/2] |
| Constellation.RConstantOfSums | dsp/equalisation/equalisation.py:97-101 | the CMA radius mean(abs^4)/mean(abs^2) is the sum of fourth powers over the sum of squares, that denominator is positive, and the radius R is positive |
| Constellation.RConstantConstantModulus | dsp/equalisation/equalisation.py:101 | for a constant-modulus alphabet with abs^2 = v > 0 the radius is v |
| Constellation.RConstantComplexOfSums | dsp/equalisation/equalisation.py:103-107 | per axis, the MCMA radius is the sum of fourth powers over the sum of squares of that axis, both denominators are positive, and both the real and the imaginary part of R are positive |
| Constellation.RConstantComplexConstant | dsp/equalisation/equalisation.py:107 | an alphabet with constant squared real parts vr and imaginary parts vi has radius vr + 1j*vi |
| Constellation.SortedUnique | dsp/equalisation/equalisation.py:178 | np.unique: strictly increasing, the same elements as the input, no longer, nonempty for nonempty input |
| Constellation.IncreasingByElements | dsp/equalisation/equalisation.py:178 | two strictly increasing sequences with the same elements are equal, so np.unique has one result |
| Constellation.Midpoints | dsp/equalisation/equalisation.py:179 | codes[:-1] + diff(codes)/2 has one entry fewer, each the average of neighbouring codes |
| Constellation.MidpointsBetween | dsp/equalisation/equalisation.py:179 | for strictly increasing codes each midpoint lies strictly between its neighbours |
| Constellation.UniqueLevels | dsp/equalisation/equalisation.py:178 | np.unique(x**4/x**2) of positive squares is strictly increasing with exactly the distinct squares |
| Constellation.PartitionCodesRadiusTable | dsp/equalisation/equalisation.py:178-179 | radius table: codes strictly increasing and exactly the symbols' squared magnitudes; one part fewer than codes; each part the midpoint strictly between its codes |
| Constellation.Combine | dsp/equalisation/equalisation.py:153 | re + 1j*im broadcasts when the lengths agree or one is 1, pairing or repeating entries, and raises ValueError otherwise |
| Constellation.TableOfLevelsDefined | dsp/equalisation/equalisation.py:153-156 | codes and parts both broadcast exactly when the level counts agree, or one axis has one level and the other at most two |
| Constellation.TableOfLevelsCodes | dsp/equalisation/equalisation.py:153-156 | with equal level counts, codes pair the levels per axis and there is one part fewer than codes |
| Constellation.TableOfLevelsParts | dsp/equalisation/equalisation.py:154-156 | with equal level counts, part i pairs the per-axis midpoints |
| Constellation.LevelsElements | dsp/equalisation/equalisation.py:151-152 | per-axis levels are strictly increasing and exactly the squared real (imaginary) parts of the alphabet |
| Constellation.PartitionCodesComplexDefined | dsp/equalisation/equalisation.py:151-156 | the complex table exists exactly when numpy can broadcast both codes and parts |
| Constellation.PartitionCodesComplexCodes | dsp/equalisation/equalisation.py:151-156 | for equal real and imaginary level counts the table exists, codes pair the levels up, and there is one part fewer |
| Constellation.PartitionCodesComplexParts | dsp/equalisation/equalisation.py:151-156 | there, every part is the per-axis midpoint of its neighbouring codes and lies strictly between them on both axes |
| Dispatch.ToLower | dsp/equalisation/equalisation.py:252 | method.lower(): same length, each character lower-cased |
| Dispatch.ToLowerFixes | dsp/equalisation/equalisation.py:252 | lower-casing gives lower-case text, fixes lower-case text and is idempotent |
| Dispatch.NamesDistinct | dsp/equalisation/equalisation.py:53-57 | every key of the method table is lower case and distinct methods have distinct keys |
| Dispatch.Lookup | dsp/equalisation/equalisation.py:252-253 | the lookup finds the method whose key is the lowered name, or fails with KeyError of the lowered name exactly when no key matches |
| Dispatch.LookupName | dsp/equalisation/equalisation.py:253 | a method's own key, in any letter case, finds that method |
| Dispatch.InitArgs | dsp/equalisation/equalisation.py:60-72 | each method gets the argument kind of its table row; it fails exactly for sca (NameError on `sign`) and for mrde when the complex table cannot be broadcast |
| Dispatch.InitArgsValues | dsp/equalisation/equalisation.py:60-72 | the argument values: cma gets RConstant, the mcma family RConstantComplex, rde the radius table, mrde the complex table, the symbol methods the alphabet |
| Dispatch.InitArgsSquareQam | dsp/equalisation/equalisation.py:60-72 | for a square-QAM alphabet (equal level counts) sca is the only method whose argument fails |
| Training.TrainingSymbolsBounds | dsp/equalisation/equalisation.py:195 | TrSyms = (L//os//Ntaps)*Ntaps is a multiple of Ntaps with TrSyms*os <= L < (TrSyms+Ntaps)*os |
| Training.StartTaps | dsp/equalisation/equalisation.py:186-194 | without given taps the start Ntaps is at least 1 |
| Training.LmsInit | dsp/equalisation/equalisation.py:182-197 | a successful _lms_init has Ntaps >= 1 and os >= 1 |
| Training.LmsInitFailures | dsp/equalisation/equalisation.py:186-197 | _lms_init fails exactly on a missing Ntaps (TypeError), a zero Ntaps (IndexError) or a zero os or zero-width given taps (ZeroDivisionError), in that precedence |
| Training.LmsInitSizes | dsp/equalisation/equalisation.py:195-197 | TrSyms as computed; the signal cut to exactly its first TrSyms*os columns; a 2 x Niter*TrSyms trace of zeros |
| Training.TrainingWindowsShort | dsp/equalisation/equalisation.py:195-197 | with Ntaps > os, fewer than TrSyms windows of Ntaps samples, one every os samples, fit into TrSyms*os samples |
| Training.LmsInitWindowsShort | dsp/equalisation/equalisation.py:195-197 | after a successful _lms_init with Ntaps > os, the cut signal holds fewer than TrSyms whole windows |
| Training.LmsInitTaps | dsp/equalisation/equalisation.py:186-194 | given taps pass unchanged with Ntaps = wx.shape[1]; otherwise the centre taps and their orthogonal transform |
| Training.ErrRow | dsp/equalisation/equalisation.py:257-262 | a polarisation's error row after i iterations has i*TrSyms entries |
| Training.ErrRowLayout | dsp/equalisation/equalisation.py:260-262 | iteration k's errors occupy exactly columns [k*TrSyms, (k+1)*TrSyms) |
| Training.ErrRowColumn | dsp/equalisation/equalisation.py:257-262 | every column c of the row is error c % TrSyms of iteration c / TrSyms, so the slices are disjoint and cover the trace |
| Training.Prologue | dsp/equalisation/equalisation.py:252-256 | lookup, then arguments, then _lms_init; on success the session's Ntaps, TrSyms and os are _lms_init's |
| Training.Equalise | dsp/equalisation/equalisation.py:252-263 | a successful run returns a two-row error trace |
| Training.WriteSlice | dsp/equalisation/equalisation.py:260 | err[p, base:base+len(xs)] = xs changes that slice to xs and nothing else |
| Training.TrainLoop | dsp/equalisation/equalisation.py:257-262 | the loop's final taps are Niter kernel applications to each polarisation's own taps; err is 2 x Niter*TrSyms and holds both error rows entry by entry |
| Training.EqualiseSignal | dsp/equalisation/equalisation.py:252-263 | equalise_signal fails with the error of Training.Equalise, or returns the taps of Training.Equalise and an error array equal to its trace |
| Training.EqualiseUnknownMethod | dsp/equalisation/equalisation.py:252-256 | an unknown name fails with KeyError of the lowered name whatever else would fail |
| Training.EqualiseIgnoresTrSyms | dsp/equalisation/equalisation.py:256 | the TrSyms argument does not affect the result, since _lms_init recomputes it |
| Training.EqualiseFromCentreTaps | dsp/equalisation/equalisation.py:186-188 | without taps, X trains from the centre taps and Y from the orthogonal transform of the untrained centre taps |
| Training.EqualiseFromGivenTaps | dsp/equalisation/equalisation.py:190-193 | with given taps, each polarisation trains from its own given taps, with Ntaps = their width |
| Training.EqualiseTrace | dsp/equalisation/equalisation.py:257-263 | row 0 holds X's errors and row 1 Y's, iteration k at columns [k*TrSyms, (k+1)*TrSyms) |
| Training.TrainFromShape | dsp/equalisation/equalisation.py:260-262 | training keeps the (2, Ntaps) tap shape |
| Training.EqualiseShape | dsp/equalisation/equalisation.py:256-263 | a successful run needs os >= 1 and returns two tap arrays of one shape (2, Ntaps), Ntaps >= 1 |
| Training.PrologueShape | dsp/equalisation/equalisation.py:186-194 | the start taps have shape (2, Ntaps) with Ntaps >= 1 |
| Training.DualModeIgnoresSecondPhase | dsp/equalisation/equalisation.py:199-203 | as written, the second entries of mu, TrSyms, Niter and methods change nothing; the result is the intended dual mode with the first values used twice |
| Training.DualModeIntendedSecondPhase | dsp/equalisation/equalisation.py:201 | intended: phase two trains with methods[1], mu[1], Niter[1] from phase one's taps, and keeps those taps when Niter[1] = 0 |
| Training.DualModeIntendedSecondMethodFails | dsp/equalisation/equalisation.py:201 | intended: an unknown or failing second method makes the dual mode fail with that method's error |
| PhaseRecovery.SelectAngles | dsp/phaserecovery.py:187-200 | with more than one row, out[i] = angles[i, idx[i]], one per row; otherwise out[i] = angles[0, idx[i]], one per index |
| PhaseRecovery.VvBoundsResolve | dsp/phaserecovery.py:43-46 | both parities' slices start at (N-1)//2 and keep L-N+1 samples when L >= N, and keep none when L < N |
| PhaseRecovery.VvTrim | dsp/phaserecovery.py:43-46 | the trimmed length equals the window count of segment_axis(E, N, N-1), and sample k is input sample k + (N-1)//2 |
| PhaseRecovery.VvTrimWindows | dsp/phaserecovery.py:40-46 | trimmed sample k is the centre sample of window k |
| PhaseRecovery.ViterbiViterbi | dsp/phaserecovery.py:40-50 | the output has one entry per window: trimmed sample k times the correction of window k |
| PhaseRecovery.SquareLess | dsp/phaserecovery.py:378-379 | for nonnegative values, comparing squares is comparing values, so the masks can use abs^2 |
| PhaseRecovery.Partition16QAM | dsp/phaserecovery.py:375-381 | class 2 is exactly the complement of class 1, and class 1 marks abs(E) < inner or abs(E) > outer |
| PhaseRecovery.RingThresholds | dsp/phaserecovery.py:376-377 | the thresholds lie strictly between the ordered ring radii |
| PhaseRecovery.Class1OfModulus | dsp/phaserecovery.py:376-380 | with nonnegative radii, the squared test marks a sample of modulus m as class 1 exactly when m < inner or m > outer |
| PhaseRecovery.PartitionRings | dsp/phaserecovery.py:375-381 | samples on the inner or outer ring are class 1 and samples on the middle ring are class 2 |
| PhaseRecovery.BlockBounds | dsp/phaserecovery.py:433-434 | each sample's block starts at a multiple of Nblock at or before it, ends after it, at most Nblock later and no later than L |
| PhaseRecovery.BlockPhases | dsp/phaserecovery.py:432-438 | every sample's phase is the estimate of its own block, from that block's samples and class-2 mask |
| PhaseRecovery.BlockPhasesConstant | dsp/phaserecovery.py:433-438 | samples of one block share one phase estimate |
| PhaseRecovery.BlockOfSample | dsp/phaserecovery.py:433-438 | the block containing x is the range the loop writes at i = j*Nblock |
| PhaseRecovery.FillSlice | dsp/phaserecovery.py:438 | phi_est[i:i+Nblock] = v changes that slice and nothing else |
| PhaseRecovery.Truncate | dsp/phaserecovery.py:440 | the output is the prefix of (L//Nblock)*Nblock samples |
| PhaseRecovery.TruncateLength | dsp/phaserecovery.py:440 | that length is a multiple of Nblock, at most L and less than one block short of L |
| PhaseRecovery.QpskPartitionSamples | dsp/phaserecovery.py:439-440 | output sample k is input sample k times the correction of the phase trace, for every k of the whole blocks |
| PhaseRecovery.QpskPartitionPhase | dsp/phaserecovery.py:421-440 | Nblock = 0 raises ValueError; otherwise the block loop fills phi_est exactly as BlockPhases and returns QpskPartition |
| BlindPhaseSearch.SplitBounds | dsp/phaserecovery.py:149-153 | on the chunked path K >= 1, N <= R < Nmax + N and K*Nmax + R = L |
| BlindPhaseSearch.Chunks | dsp/phaserecovery.py:154-170 | the chunk sequence holds the chunks in search order |
| BlindPhaseSearch.ChunkAtShape | dsp/phaserecovery.py:154-170 | each chunk reads inside [0, L), fills inside [N, L-N), reads 2N more than it fills; chunks after the first use double precision |
| BlindPhaseSearch.ChunkAtContiguous | dsp/phaserecovery.py:159-170 | each chunk's fill range ends where the next one's starts |
| BlindPhaseSearch.PlanShapes | dsp/phaserecovery.py:142-170 | every search, unchunked or chunked, reads inside the signal and its result is 2N shorter than its read range and fits in [N, L-N) |
| BlindPhaseSearch.PlanTiles | dsp/phaserecovery.py:147-170 | the fill ranges tile [N, L-N): first at N, last ending at L-N, without gaps, and none when L < 2N |
| BlindPhaseSearch.PlanOrdered | dsp/phaserecovery.py:159-170 | fill ranges of distinct searches do not overlap |
| BlindPhaseSearch.Overwrite | dsp/phaserecovery.py:165 | a slice assignment replaces exactly the slice |
| BlindPhaseSearch.Apply | dsp/phaserecovery.py:141-170 | writing the searches keeps the index array's length |
| BlindPhaseSearch.ApplyUntouched | dsp/phaserecovery.py:141-170 | an entry outside every fill range keeps its initial value |
| BlindPhaseSearch.ApplyOwner | dsp/phaserecovery.py:141-170 | an entry in a chunk's range and no later range holds that chunk's result |
| BlindPhaseSearch.PlanSized | dsp/phaserecovery.py:126-170 | every search result fits its fill range exactly |
| BlindPhaseSearch.Indices | dsp/phaserecovery.py:141-171 | the index array has L entries |
| BlindPhaseSearch.IndicesOutside | dsp/phaserecovery.py:141-147 | the first N and last N entries stay 0 |
| BlindPhaseSearch.IndicesInside | dsp/phaserecovery.py:141-171 | every entry of [N, L-N) holds the result of the search whose range contains it |
| BlindPhaseSearch.AssignSlice | dsp/phaserecovery.py:147 | idxnd[start:stop] = xs, with Python's negative bounds resolved, overwrites exactly that slice |
| BlindPhaseSearch.SearchWhole | dsp/phaserecovery.py:142-147 | the unchunked path leaves the index array equal to Indices |
| BlindPhaseSearch.WriteChunk | dsp/phaserecovery.py:154-170 | writing chunk i extends the array's state from the first i chunks to the first i+1 |
| BlindPhaseSearch.SearchChunked | dsp/phaserecovery.py:148-170 | the chunked path leaves the index array equal to Indices |
| BlindPhaseSearch.BpsIndexAf | dsp/phaserecovery.py:128-171 | a precision other than 16 or 8 is ValueError; a zero divisor in Nmax or in L//Nmax is ZeroDivisionError; otherwise the result is Indices |

## Left out

- The training kernels and error criteria (`FS_CMA_training`, `SBD`, `MDDMA`, `FS_SCA` and the rest, imported at `dsp/equalisation/equalisation.py:45-51`) are compiled code outside this model. They are the uninterpreted `Training.Kernels` parameter. The model relies only on each kernel returning TrSyms errors and taps of shape (2, Ntaps).
- `utils.normalise_and_center` (line 185) is not part of this model. The signal is taken as already normalised.
- `calculate_MQAM_symbols` and `calculate_MQAM_scaling_factor` are not part of this model. The normalised alphabet is an input, required to have no zero real or imaginary part, since |s|^4/|s|^2 is NaN at zero.
- `_calculate_Rsca` and `_calculate_Rdash` call the undefined name `sign` (line 89), so the sca dispatch raises. The model returns `Failure(NameError("sign"))` and does not compute Rsca.
- `segment_axis` is not part of this model. Windows are whole windows of Ntaps samples, one every os samples, with the tail cut.
- Dispatch.ToLower lowers ASCII letters only. Python's Unicode case mapping is not modelled; the method keys are ASCII.
- The progress `print` of `equalise_signal` (line 258) is left out.
- Training.WellShaped: for rde and mrde, `_init_args` returns a 1-tuple holding the (parts, codes) pair (`dsp/equalisation/equalisation.py:66`, `:68`). `*args` at lines 260 and 262 therefore passes one argument. Elsewhere the same kernels are called with `part, code` as two arguments (lines 310, 314, 598-599 and 605-606), so the call in `equalise_signal` may raise TypeError. The kernels are not part of this model, and the model assumes the call succeeds.
- `_lms_init` cuts the signal to TrSyms*os columns, and with Ntaps > os that holds fewer than TrSyms windows (Training.LmsInitWindowsShort). The source has no length check, what a kernel does past the end is unknown, and the model assumes each kernel call succeeds.
- The integer parameters Ntaps, os, Niter and Nblock are `nat`, so negative Python arguments are outside the model. In Python, `np.zeros` with a negative size raises ValueError, and `range(0, L, -k)` is empty.
- Training.EqualiseSignal: on a failure path the model returns an empty 0 x 0 error array where Python raises before returning anything.
- Floating point is not modelled. All arithmetic is exact over `real`, and no IEEE rounding, NaN or overflow behaviour is claimed.
- `angle`, `exp`, `unwrap`, `sqrt` and `cal_S0` are parameters. In `partition_16QAM` the three ring radii are inputs, and magnitudes are compared through squares (PhaseRecovery.SquareLess justifies this). In `QPSK_partition_phase_16QAM` the per-block estimate (`S1_sum`, `Sx_tmp`, the complex `np.min` and the angle, lines 434-438) is `BlockEstimate`. The final unwrap and rotation (line 439) is `Rotation`. The Viterbi-Viterbi phase estimate (lines 38-42, 49) is the `rot` argument.
- The arrayfire distance computation and moving sum of `_bps_idx_af` (lines 139-170) are the `Search` parameter. Only its length is constrained: 2N shorter than the searched range. The `astype` conversions are recorded only as the precision tag of each search.
- BlindPhaseSearch.BpsIndexAf requires N >= 1, and on the chunked path Nmax >= N. The source states neither, and its slices misbehave without them (`idxnd[N:-N]` with N = 0).
- PhaseRecovery.SelectAngles requires indices inside the rows. The numba loop does not check them.
- `dsp/phaserecovery.py`'s other estimators (`bps`, `bps_twostage`, `_bps_py`, `ML_phase_16QAM`, `ff_Phase_recovery_16QAM`, the frequency-offset functions) are floating-point DSP and are not part of this model. So are the equaliser's wrapper functions that cannot run as written (`FS_MCMA` and relatives call `apply_filter` and `_lms_init` with mismatched signatures).
- Concurrency, GPU execution and the numba/cython compilation are not modelled.

## Findings

| source | as written | input that shows it | evidently intended | confidence | as-written member | corrected member |
|---|---|---|---|---|---|---|
| dsp/equalisation/equalisation.py:201 | the second equalisation phase passes mu[0], TrSyms[0], Niter[0] and methods[0] again | methods=("mcma", "sca") succeeds although the intended second method sca raises NameError; Niter=(1, 0) still trains the second phase once | the second phase uses mu[1], TrSyms[1], Niter[1] and methods[1] | not executed | Training.DualModeIgnoresSecondPhase | Training.DualModeIntendedSecondPhase |

`Training.DualModeEqualisation` models line 201 as written. `Training.DualModeIgnoresSecondPhase` proves that its second-phase parameters are never read. `Training.DualModeIntended` is the corrected definition. `Training.DualModeIntendedSecondPhase` and `Training.DualModeIntendedSecondMethodFails` prove that it trains and fails with the second-phase values.
