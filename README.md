# pi digits with MPFR: the exact model

The repository computes decimal digits of pi with MPFR using three series:
Bailey–Borwein–Plouffe (BBP), Bellard, and the Chudnovsky brothers' series.
Each series comes as a sequential engine, an OpenMP engine and an MPI+OpenMP
engine. Drivers check the arguments, turn a digit count into a working
precision and an iteration count, choose an engine, and count how many
decimals of the result match a reference.

This project models the exact arithmetic and the index bookkeeping that make
those sums correct. MPFR values are exact `real`s and C `int`s are
mathematical integers. The proofs cover:

- the per-term state each engine carries (Chudnovsky `dep_a`, `dep_b`,
  `dep_c`; the five table dependencies of the factorial variant; Bellard's
  `dep_m` with its counters; BBP's `(1/16)^n`) equals the closed form of
  the series at every index the loop visits;
- a block seeded in closed form equals the state replayed from index 0;
- every way the engines split `[0, N)` among processes and threads is
  disjoint and covers the range. The uniform splits have three clamping
  variants; there are also nested process/thread splits, cyclic striding and
  the weighted split from a work-rate table;
- adding the private sums in any admission order gives the plain sum;
- hence each engine returns the closed series sum: Chudnovsky as
  `426880 sqrt(10005) / sum`, Bellard as `sum / 64`, and BBP as `sum`;
- the drivers' checks, formulas and dispatch, and the prefix count of
  `checkDecimals`.

Modules, one per file:

| module | file | models |
|---|---|---|
| `Math` | math.dfy | factorials, powers, C integer division |
| `Series` | series.dfy | range sums and strided sums |
| `Reduction` | reduction.dfy | critical sections and the MPI reduction; packet size |
| `Blocks` | blocks.dfy | every split of the iteration space |
| `Chudnovsky` | chudnovsky.dfy | the recurrence engines (see the note below) |
| `ChudnovskyTable` | chudnovsky_table.dfy | ChudnovskyAlgorithmV1.c, the factorial-table engines |
| `Bellard` | bellard.dfy | the Bellard engines |
| `Bbp` | bbp.dfy | the BBP engine of the MPI build |
| `Drivers` | drivers.dfy | checks, formulas, dispatch, checkDecimals |

**Shared Chudnovsky loops.** Several files repeat the same Chudnovsky loops:
- The per-thread loop is the same text in four files: ChudnovskyAlgorithmFV.c, ChudnovskyAlgorithm.c, Sources/OMP/Chudnovsky.c and Sources/MPI/Chudnovsky_v2.c.
- Three files have the same sequential loop: ChudnovskyAlgorithmFV.c, ChudnovskyAlgorithm.c and Sources/Sequential/Chudnovsky.c. Only the order of the three factors of the `dep_a` update differs.

Each loop is therefore one member: `Chudnovsky.ThreadBlock` and `Chudnovsky.Sequential`. The engines that use them differ only in how they split the indices.

**Concurrency.** Each worker's loop is a sequential method. The `omp critical` addition and `MPI_Reduce` become `Reduction.Accumulate` over an admission order, which is any permutation of the worker ids.

**Square root.** `sqrt(10005)` is a parameter `root` with `root > 0` and `root * root == 10005`.

**Closing with a zero sum.** When the sum is 0, the closing MPFR division gives an infinity. `Chudnovsky.Closed` models this as `Infinite`.

## Model

| member | source | states |
|---|---|---|
| Math.Fact | Sources/OMP/Chudnovsky.c:26-28 | n! is at least 1 (so every divisor built from factorials is non-zero) |
| Math.CeilDiv | Sources/MPI/BBP.c:27 | `(n + d - 1) / d` is the least count r with r d >= n |
| Math.CDiv | Sources/MPI/PiCalculator.c:78 | C's `/` truncates toward zero: the remainder a - r d has the sign of a and is smaller than d in magnitude |
| Math.CDivUnique | Sources/MPI/PiCalculator.c:78 | those remainder conditions determine the quotient: any q meeting them equals CDiv |
| Series.CyclicSum | Sources/MPI/Bellard.c:58 | the strided sums of T threads starting at lo, lo+1, ..., lo+T-1 add up to the sum over [lo, hi) |
| Reduction.SumInAnyOrder | ChudnovskyAlgorithmFV.c:235-237 | the private sums added in any admission order give their plain sum |
| Reduction.Accumulate | ChudnovskyAlgorithm.c:198-200 | running `pi += local_pi` once per worker, in any admission order, leaves pi plus the sum of all private sums |
| Reduction.Limbs | Sources/MPI/Chudnovsky_v2.c:131 | d_elements is the least number of 64-bit limbs that holds `prec` bits |
| Reduction.PacketSize | Sources/MPI/Chudnovsky_v2.c:132 | the packet has 16 header bytes and a mantissa area that holds all `prec` bits and wastes less than one limb |
| Blocks.ClampedBlock | Sources/MPI/BBP.c:27-30 | size = ceil(span / parts) covers the span, start = lo + id size, and the end is clamped to hi |
| Blocks.ClampedOwner | Sources/OMP/Chudnovsky.c:125-128 | inside [lo, hi), block id runs index i exactly when id = (i - lo) / ceil(span / parts) |
| Blocks.ClampedExactlyOne | Sources/OMP/Chudnovsky.c:125-128 | every index of [lo, hi) is run by exactly one of the `parts` blocks |
| Blocks.ClampedInside | Sources/MPI/Chudnovsky_v2.c:79-82 | a clamped block never runs an index outside [lo, hi) |
| Blocks.ClampedSumStep | Sources/MPI/Bellard.c:25-28 | the blocks tile [lo, hi) in order: adding block t's sum moves the covered prefix to the next boundary |
| Blocks.ClampedBoundaryEnds | Sources/MPI/Bellard_v1.c:25-28 | the first boundary is lo (or hi when the range is empty), and after all blocks it is hi |
| Blocks.NestedExactlyOne | Sources/MPI/Chudnovsky_v2.c:58-82 | every index below N is run by exactly one (process, thread) pair of the nested split, which uses the unclamped process block size |
| Blocks.LastClampedBlock | ChudnovskyAlgorithm.c:163-165 | size ceil(N/T), start id size; only the last thread's end is N, and the others end at start + size |
| Blocks.LastClampedDisjoint | ChudnovskyAlgorithm.c:163-165 | no index is run by two threads of that split |
| Blocks.LastClampedCovers | ChudnovskyAlgorithm.c:163-178 | the indices the split runs are exactly [0, max(N, (T-1) ceil(N/T))) |
| Blocks.LastClampedBelowReach | ChudnovskyAlgorithm.c:163-165 | every block ends at or before that reach |
| Blocks.LastClampedOwner | ChudnovskyAlgorithm.c:163-165 | every index below the reach has a block that runs it |
| Blocks.LastClampedSumStep | ChudnovskyAlgorithm.c:163-165 | adding block t's sum moves the covered prefix to the next boundary of that split |
| Blocks.LastClampedOverrun | ChudnovskyAlgorithm.c:163-165 | with N = 5 and T = 4, thread 2 gets [4, 6) and runs index 5 >= N |
| Blocks.StartEndClampedBlock | ChudnovskyAlgorithmV1.c:152-155 | with start and end both clamped, every block lies inside [0, N) |
| Blocks.StartEndSameIndices | ChudnovskyAlgorithmV1.c:152-155 | clamping the start as well runs the same indices as the end-clamped split |
| Blocks.StartEndSumStep | ChudnovskyAlgorithmV1.c:152-155 | adding block t's sum moves the covered prefix from min(t size, N) to min((t+1) size, N) |
| Blocks.StartEndBoundaryEnds | ChudnovskyAlgorithmV1.c:152-155 | the boundaries run from 0 to N |
| Blocks.CyclicExactlyOne | Sources/MPI/Bellard_v1.c:62 | each index of [lo, hi) is visited by exactly one thread, the one numbered (i - lo) mod T |
| Blocks.CyclicOwner | Sources/MPI/Bellard.c:58 | thread t reaches offset d by steps of T exactly when t = d mod T |
| Blocks.ShareBound | ChudnovskyAlgorithmFV.c:165 | a thread's share is rate N / 100% rounded down |
| Blocks.WeightedStartBound | ChudnovskyAlgorithmFV.c:166-169 | the truncated shares before thread t add up to at most N times their rates |
| Blocks.WeightedLastStart | ChudnovskyAlgorithmFV.c:166-171 | when the rates in use add up to at most 100%, the last thread starts at or before N |
| Blocks.WeightedTiling | ChudnovskyAlgorithmFV.c:165-171 | under that condition the first block starts at 0, each non-last end is the next start, and the last end is N |
| Blocks.WeightedExactlyOne | ChudnovskyAlgorithmFV.c:165-171 | under that condition every index below N is run by exactly one thread |
| Blocks.WeightedCoverFrom | ChudnovskyAlgorithmFV.c:166-171 | an index at or after thread id's start is run by thread id or a later one |
| Blocks.WeightedSumStep | ChudnovskyAlgorithmFV.c:165-171 | adding block t's sum moves the covered prefix to the next boundary of the weighted split |
| Blocks.WeightedDistribution | ChudnovskyAlgorithmFV.c:165-171 | the loop that adds the earlier threads' shares gives exactly the weighted block: size = own share, start = earlier shares, and end = start + size, or N for the last thread |
| Blocks.GetDistribution | ChudnovskyAlgorithmFV.c:145-174 | getDistribution returns the weighted block from column threads/4 of the inline table |
| Blocks.GetThreadDistribution | Sources/OMP/Chudnovsky.c:50-92 | one thread gets (N, 0, N); otherwise the thread gets the weighted block from column threads/4 of the 160 x 41 table |
| Blocks.WorkRatesFit | ChudnovskyAlgorithmFV.c:147-165 | for 1..16 threads, the table has column threads/4, which adds up to 100%, and its first `threads` rows add up to at most 100% |
| Blocks.WorkRatesColumn0 | ChudnovskyAlgorithmFV.c:147-162 | column 0 of the table adds up to 100% |
| Blocks.WorkRatesColumn1 | ChudnovskyAlgorithmFV.c:147-162 | column 1 adds up to 100% |
| Blocks.WorkRatesColumn2 | ChudnovskyAlgorithmFV.c:147-162 | column 2 adds up to 100% |
| Blocks.WorkRatesColumn3 | ChudnovskyAlgorithmFV.c:147-162 | column 3 adds up to 100% |
| Blocks.WorkRatesColumn4 | ChudnovskyAlgorithmFV.c:147-162 | column 4 adds up to 100% |
| Chudnovsky.DepADividend | Sources/OMP/Chudnovsky.c:28 | (6s)! is a positive integer |
| Chudnovsky.DepADivisor | Sources/OMP/Chudnovsky.c:26-31 | (3s)! (s!)^3 is a positive integer, so init_dep_a never divides by zero |
| Chudnovsky.TermDivisor | ChudnovskyAlgorithm.c:24 | the divisor (n!)^3 (3n)! (-640320)^(3n) of term n is non-zero |
| Chudnovsky.DepB | Sources/Sequential/Chudnovsky.c:72-74 | c^n with c = (-640320)^3 is never zero, so the division by dep_b is defined |
| Chudnovsky.InitDepAReplays | Sources/OMP/Chudnovsky.c:20-40 | the closed-form seed (6s)!/((3s)!(s!)^3) equals s updates replayed from dep_a = 1; s = 0 gives 1 |
| Chudnovsky.DepAStep | Sources/Sequential/Chudnovsky.c:80-89 | multiplying the closed form at i by (12i+10)(12i+6)(12i+2) and dividing by (i+1)^3 gives the closed form at i+1 |
| Chudnovsky.FactSixStep | ChudnovskyAlgorithm.c:33-35 | (6(i+1))! = (6i)! (12i+10)(12i+6)(12i+2) (3i+1)(3i+2)(3i+3) |
| Chudnovsky.FactThreeStep | ChudnovskyAlgorithm.c:33-35 | (3(i+1))! = (3i)! (3i+1)(3i+2)(3i+3) |
| Chudnovsky.RisingSix | ChudnovskyAlgorithm.c:33-35 | (6i+1)...(6i+6) = (12i+10)(12i+6)(12i+2) (3i+1)(3i+2)(3i+3) |
| Chudnovsky.DivisorStep | ChudnovskyAlgorithm.c:33-35 | the divisor at i+1 is (i+1)^3 (3i+1)(3i+2)(3i+3) times the divisor at i |
| Chudnovsky.DepBNext | Sources/Sequential/Chudnovsky.c:92 | `dep_b *= c` moves dep_b from index i to i+1 |
| Chudnovsky.DepCNext | Sources/Sequential/Chudnovsky.c:95 | `dep_c += B` moves dep_c from index i to i+1 |
| Chudnovsky.DepCSeed | Sources/OMP/Chudnovsky.c:134-136 | the seed B s + A computed in MPFR is dep_c at s |
| Chudnovsky.DepBInt | ChudnovskyAlgorithmV1.c:163-165 | c^n is the integer (-640320)^(3n) |
| Chudnovsky.TermFactors | Sources/Sequential/Chudnovsky.c:49-50 | term n of the formula is dep_a dep_c / dep_b at index n |
| Chudnovsky.Iteration | Sources/Sequential/Chudnovsky.c:47-53 | with the dependencies of index n, an iteration adds exactly term n to pi |
| Chudnovsky.TermNonZero | ChudnovskyAlgorithm.c:22-24 | no term of the series is zero |
| Chudnovsky.Close | Sources/Sequential/Chudnovsky.c:102-104 | the result is infinite exactly when the sum is 0; otherwise result times sum = 426880 sqrt(10005) |
| Chudnovsky.Sequential | Sources/Sequential/Chudnovsky.c:59-109 | the sequential engine returns the closing of pi + (terms 0 .. N-1) |
| Chudnovsky.ThreadBlock | Sources/OMP/Chudnovsky.c:130-159 | a thread seeded at `start` adds exactly terms start .. end-1; the invariants are factor_a = 12i, dep_b = c^i and dep_c = B i + A |
| Chudnovsky.ClampedPartials | Sources/OMP/Chudnovsky.c:113-159 | thread t's private sum is the sum over its clamped block, and the private sums add up to the sum over [lo, hi) |
| Chudnovsky.Parallel | Sources/OMP/Chudnovsky.c:101-175 | the OpenMP engine returns the closing of pi + (terms 0 .. N-1) for any admission order |
| Chudnovsky.ParallelAsWritten | ChudnovskyAlgorithm.c:145-212 | the engine as written returns the closing of the sum over [0, max(N, (T-1) ceil(N/T))) |
| Chudnovsky.AsWrittenAddsTerm5 | ChudnovskyAlgorithm.c:163-165 | with N = 5 and T = 4 that sum is terms 0..4 plus the non-zero term 5 |
| Chudnovsky.WeightedPartials | ChudnovskyAlgorithmFV.c:193-237 | the threads of the weighted split leave private sums that add up to terms 0 .. N-1 |
| Chudnovsky.ParallelWeighted | ChudnovskyAlgorithmFV.c:182-249 | the weighted engine returns the closing of pi + (terms 0 .. N-1) for 1..16 threads |
| Chudnovsky.ProcessPart | Sources/MPI/Chudnovsky_v2.c:58-119 | local_proc_pi is the sum of the terms in the process block |
| Chudnovsky.Mpi | Sources/MPI/Chudnovsky_v2.c:53-154 | rank 0 returns the closing of terms 0 .. N-1 for any reduction order |
| ChudnovskyTable.GetFactorials | ChudnovskyAlgorithmV1.c:45-55 | afterwards factorials[k] = k! for 0 <= k <= num_factorials, and the rest of the array is unchanged |
| ChudnovskyTable.FactStep | ChudnovskyAlgorithmV1.c:51 | `f *= i` turns (i-1)! into i! |
| ChudnovskyTable.CubeOfFact | ChudnovskyAlgorithmV1.c:108 | raising the table entry n! to the third power gives the integer (n!)^3 |
| ChudnovskyTable.TermAtIndex | ChudnovskyAlgorithmV1.c:72-77 | at the values of index n the divisor is non-zero and the five-dependency quotient is term n |
| ChudnovskyTable.TableTermIsTerm | ChudnovskyAlgorithmV1.c:70-80 | whenever the five dependencies hold the values of index n, the quotient is term n |
| ChudnovskyTable.Iteration | ChudnovskyAlgorithmV1.c:70-80 | with the five dependencies of index n, an iteration adds exactly term n |
| ChudnovskyTable.NextFromTable | ChudnovskyAlgorithmV1.c:107-111 | the table reads and the dep_d and dep_e updates give the dependencies of index i+1 |
| ChudnovskyTable.Sequential | ChudnovskyAlgorithmV1.c:86-121 | with a 6N+3 entry table, the engine returns the closing of pi + (terms 0 .. N-1); every table read is in bounds |
| ChudnovskyTable.ThreadBlock | ChudnovskyAlgorithmV1.c:157-180 | a thread seeded from the table at `start` adds exactly terms start .. end-1 |
| ChudnovskyTable.TablePartials | ChudnovskyAlgorithmV1.c:146-189 | with a 6N+1 entry table, the private sums of the start- and end-clamped split add up to terms 0 .. N-1 |
| ChudnovskyTable.Parallel | ChudnovskyAlgorithmV1.c:129-198 | the parallel engine returns the closing of pi + (terms 0 .. N-1) for any admission order |
| Bellard.Iteration | Sources/Sequential/Bellard_v1.c:43-76 | with m = dep_m(n), dep_a = 4n and dep_b = 10n, an iteration adds exactly term n of the formula to pi |
| Bellard.DepMPower | Sources/Sequential/Bellard_v1.c:87-96 | the carried dep_m at n is (1/1024)^n, negated when n is odd |
| Bellard.PowMinusOne | Sources/Sequential/Bellard_v1.c:24-25 | (-1)^n is 1 for even n and -1 for odd n |
| Bellard.DepMFormula | Sources/Sequential/Bellard_v1.c:89-96 | the carried dep_m at n is (-1)^n / 1024^n |
| Bellard.PowTwoTen | Sources/Sequential/Bellard.c:57 | 2^(10k) = 1024^k |
| Bellard.ClosedDepMIs | Sources/Sequential/Bellard.c:56-59 | the recomputed 1 / 2^(10k), negated when k is odd, equals the carried dep_m |
| Bellard.UpdatesAgree | Sources/Sequential/Bellard.c:56-59 | the multiplicative update and the closed-form recomputation give the same dep_m at every index |
| Bellard.DepMStride | Sources/MPI/Bellard_v1.c:60-79 | multiplying by (1/1024)^T, and negating only when T is odd, moves dep_m from i to i+T |
| Bellard.SequentialV1 | Sources/Sequential/Bellard_v1.c:82-104 | returns (pi + terms 0 .. N-1) / 64 |
| Bellard.Sequential | Sources/Sequential/Bellard.c:44-67 | returns (pi + terms 0 .. N-1) / 64 |
| Bellard.ThreadLoop | Sources/MPI/Bellard_v1.c:46-79 | a thread seeded at s adds exactly the terms s, s+T, s+2T, ... below the block end in either update style; the invariants are dep_a = 4i, dep_b = 10i and dep_m = dep_m(i) |
| Bellard.ProcessPart | Sources/MPI/Bellard.c:25-71 | local_proc_pi is the sum of the terms in the process block |
| Bellard.MpiWith | Sources/MPI/Bellard.c:20-104 | rank 0 returns (terms 0 .. N-1) / 64 for any reduction order |
| Bellard.MpiV1 | Sources/MPI/Bellard_v1.c:20-116 | Bellard_algorithm_v1_MPI: rank 0 returns (terms 0 .. N-1) / 64 |
| Bellard.Mpi | Sources/MPI/Bellard.c:20-104 | Bellard_algorithm_MPI: rank 0 returns (terms 0 .. N-1) / 64 |
| Bbp.QuotientPower | Sources/MPI/BBP.c:33 | QUOTIENT = 0.0625 is exactly 1/16, so its n-th power is 1/16^n |
| Bbp.ThreadBlock | Sources/MPI/BBP.c:51-64 | a thread seeded with quotient^start and multiplied by quotient each step adds exactly contributions start .. end-1 with dep_m = (1/16)^i |
| Bbp.ProcessPart | Sources/MPI/BBP.c:27-68 | local_proc_pi is the sum of the contributions in the process block |
| Bbp.Mpi | Sources/MPI/BBP.c:22-100 | rank 0 holds the sum of contributions 0 .. N-1, with no closing step |
| Drivers.CheckErrors | Sources/Sequential/PiCalculator.c:13-18 | accepted exactly when precision > 0; the iteration count is not checked |
| Drivers.CheckErrorsOmp | Sources/OMP/PiCalculator.c:13-23 | accepted exactly when precision > 0 and iterations >= threads; the precision check comes first |
| Drivers.CheckErrorsMpi | Sources/MPI/PiCalculator.c:13-38 | accepted exactly when precision > 0, iterations >= threads procs and, for algorithm 2 only, the thread total is <= 2 or a multiple of 4; the checks run in that order |
| Drivers.MpiOneProcess | Sources/MPI/PiCalculator.c:13-38 | with one process the MPI check agrees with the OpenMP check (except for the algorithm 2 thread rule) |
| Drivers.PrecisionBits | Sources/MPI/PiCalculator.c:59 | 8 bits per requested digit: whole bytes, and more than log2(10) bits per digit |
| Drivers.BellardIterations | Sources/MPI/PiCalculator.c:78 | precision / 3 rounded toward zero: the largest r with 3r <= precision |
| Drivers.ChudnovskyIterations | Sources/MPI/PiCalculator.c:88 | ceil(precision / 14): the least r with 14 r >= precision, at least 1 |
| Drivers.AlgorithmOf | Sources/MPI/PiCalculator.c:65-108 | only the codes 0..2 select an algorithm; code 1 is Bellard |
| Drivers.CalculatePi | Sources/Sequential/PiCalculator.c:25-82 | an unknown code exits; a non-positive precision exits; otherwise the engine is called with its iteration count and 8 precision bits |
| Drivers.CalculatePiOmp | Sources/OMP/PiCalculator.c:31-88 | an unknown code exits; an engine runs exactly when precision > 0 and iterations >= threads, with 8 precision bits; otherwise it exits with NonPositivePrecision, or TooFewIterations when the precision is positive |
| Drivers.CalculatePiMpi | Sources/MPI/PiCalculator.c:47-121 | every known code runs check_errors_MPI with its own iteration count and exits with the error it reports; when accepted, code 1 calls the Bellard engine and codes 0 and 2 call nothing |
| Drivers.Wrapper | PiCalculator.c:47-112 | the sequential engine runs exactly when threads <= 1; the call carries the series' iteration count and 8 precision bits |
| Drivers.CommonPrefix | PiCalculator.c:26-31 | the matching prefix is as long as possible: the strings agree up to k and differ at k, unless one of them ends there |
| Drivers.CommonPrefixUnique | PiCalculator.c:27-29 | a matching prefix that cannot be extended is the longest one |
| Drivers.ReportedDecimals | PiCalculator.c:32-33 | the printed count is the number of matching decimal places: the common prefix after a shared "3.", and 0 when the first two characters differ |
| Drivers.CheckDecimals | PiCalculator.c:9-38 | the scan stops at the first mismatch or the end of the buffer and reports the longest common prefix less 2, which is the number of matching decimals after "3." |

## Left out

- MPFR rounding. Every value is exact, so finite precision is not modelled. This includes the fixed 240000-bit precision of ChudnovskyAlgorithm.c:66-67 and the `precision_bits` argument, which the engines only pass to `mpfr_init2`.
- The square root of 10005 is the parameter `root`. The model does not compute it.
- OpenMP and MPI concurrency. Threads and processes run one after the other. The critical section and `MPI_Reduce` are a fold over an arbitrary admission order.
- The nested `#pragma omp parallel for` inside each thread. Each thread runs its own loop alone, which is what that pragma does inside an outer parallel region that has no nested parallelism.
- The MPI transport: `pack`, `unpack` and the user-defined `add`. Headers/MPI/OperationsMPI.h only declares them, so their definitions are not part of this model. The reduction is modelled as exact addition.
- Reduction.PacketSize: assumes an LP64 target, with 8-byte `mpfr_exp_t` and `mp_limb_t` and `GMP_NUMB_BITS = 64`. It also takes the C code's float ceiling of prec / 64 as exact, which holds for the precisions in use (below 2^24).
- Bellard.MpiV1: the odd-T loop and the even-T loop of Sources/MPI/Bellard_v1.c:60-79 are one loop, whose dep_m update (`Bellard.StrideDepM`) negates only when T is odd.
- Loading `Resources/working_ratios.txt` (Sources/OMP/Chudnovsky.c:55-69) is file I/O. Blocks.GetThreadDistribution takes the table as a parameter.
- The OpenMP engine leaves its call to get_thread_distribution commented out (Sources/OMP/Chudnovsky.c:119-122) and uses the uniform split. The function is modelled on its own.
- Blocks.Share: the work rates are floats, and the share `rate * N / 100` is computed in float. The model holds rates as whole hundredths of a percent and rounds `rate * N / 10000` down. It does not model float rounding or rates with more than two decimals.
- BBP_iteration is defined in Sources/Sequential/BBP.c, which is not part of this model. The BBP engine takes each index's contribution as a parameter `contrib(i, dep_m)`.
- The BBP iteration count `precision * 0.84` is a float product. The drivers take it as the parameter `bbpIterations`.
- `check_decimals` of the three builds is defined elsewhere and is not part of this model. `checkDecimals` of PiCalculator.c is modelled.
- `mpfr_sprintf` is not modelled. The printed value is a parameter string.
- The reference digits are read from a file; in the model they are a parameter.
- C `int` overflow is not modelled. Examples: `dep_a = 4n` and `10 * next_i` for very large N, `precision * 8`, and `factor_a`. Integers are unbounded.
- Timing, printing, memory management and process exit codes are left out. The drivers return the exit reason as a value.
- The command-line mains (PiDecimals.c and Sources/*/PiDecimals.c) and prueba.c are left out.
- The sequential and OpenMP BBP and Bellard engines that PiCalculator.c and the OpenMP driver call are not part of this model. The drivers model only which engine is called and with what arguments.

## Findings

| source | as written | input that shows it | evidently intended | confidence | as-written member | corrected member |
|---|---|---|---|---|---|---|
| ChudnovskyAlgorithm.c:163-165 | only the last thread's end is set to N; the other threads end at start + ceil(N/T) even when that passes N | N = 5, T = 4: the blocks are [0,2), [2,4), [4,6), [6,5), so thread 2 adds term 5, which is non-zero, and the result is no longer the sum of terms 0..4 | every end clamped to N, as in Sources/OMP/Chudnovsky.c:127-128 | not executed | Chudnovsky.ParallelAsWritten, Blocks.LastClampedOverrun, Chudnovsky.AsWrittenAddsTerm5 | Chudnovsky.Parallel |
