/** The drivers around the engines: the argument checks of the three builds
    (sequential, OpenMP, MPI), the formulas that turn a requested number of
    decimal digits into a working precision and an iteration count, the
    choice of engine, and the count of matching decimals.

    The engines themselves are modelled in their own modules; here a run is
    described by the call the driver makes (which series, how many
    iterations, which precision). Printing, timing and process exits become
    values. */
module Drivers {
  import opened Math

  // ---------------------------------------------------------------------
  // Argument checks

  /** Why a driver prints a message and exits with -1. */
  datatype ConfigError =
    | NonPositivePrecision
    | TooFewIterations
    | InefficientThreadCount
    | UnknownAlgorithm

  datatype Checked = Accepted | Rejected(error: ConfigError)

  /** check_errors of the sequential build: the precision must be positive;
      the iteration count is not looked at. */
  function CheckErrors(precision: int, iterations: int): (r: Checked)
    ensures r.Accepted? <==> precision > 0
    ensures r.Rejected? ==> r.error == NonPositivePrecision
  {
    if precision <= 0 then Rejected(NonPositivePrecision) else Accepted
  }

  /** check_errors_OMP: a positive precision, then at least one iteration
      per thread, checked in that order. */
  function CheckErrorsOmp(precision: int, iterations: int, threads: int): (r: Checked)
    ensures r.Accepted? <==> precision > 0 && iterations >= threads
    ensures precision <= 0 ==> r == Rejected(NonPositivePrecision)
    ensures precision > 0 && iterations < threads ==> r == Rejected(TooFewIterations)
  {
    if precision <= 0 then Rejected(NonPositivePrecision)
    else if iterations < threads then Rejected(TooFewIterations)
    else Accepted
  }

  /** The thread totals the Chudnovsky MPI engine accepts: at most 2, or a
      multiple of four. */
  predicate EfficientTotal(total: int)
  {
    total <= 2 || total % 4 == 0
  }

  /** check_errors_MPI: a positive precision, then at least one iteration
      per thread of every process, then (for algorithm 2 only) an efficient
      thread total, checked in that order. */
  function CheckErrorsMpi(procs: int, precision: int, iterations: int, threads: int, algorithm: int): (r: Checked)
    ensures r.Accepted? <==>
      precision > 0 && iterations >= threads * procs && (algorithm == 2 ==> EfficientTotal(procs * threads))
    ensures precision <= 0 ==> r == Rejected(NonPositivePrecision)
    ensures precision > 0 && iterations < threads * procs ==> r == Rejected(TooFewIterations)
    ensures r == Rejected(InefficientThreadCount) ==> algorithm == 2
  {
    if precision <= 0 then Rejected(NonPositivePrecision)
    else if iterations < threads * procs then Rejected(TooFewIterations)
    else if algorithm == 2 && procs * threads > 2 && (procs * threads) % 4 != 0 then Rejected(InefficientThreadCount)
    else Accepted
  }

  /** With a single process the MPI check is the OpenMP check, plus the
      thread-total rule for algorithm 2. */
  lemma {:induction false} MpiOneProcess(precision: int, iterations: int, threads: int, algorithm: int)
    ensures algorithm != 2 ==> CheckErrorsMpi(1, precision, iterations, threads, algorithm) == CheckErrorsOmp(precision, iterations, threads)
    ensures CheckErrorsOmp(precision, iterations, threads).Rejected? ==>
      CheckErrorsMpi(1, precision, iterations, threads, algorithm) == CheckErrorsOmp(precision, iterations, threads)
  {
    assert threads * 1 == threads;
  }

  // ---------------------------------------------------------------------
  // Precision and iteration counts

  /** precision_bits = 8 * precision: whole bytes, and more than the
      log2(10) < 4 bits each requested decimal digit needs. */
  function PrecisionBits(precision: int): (r: int)
    ensures r % 8 == 0
    ensures precision > 0 ==> r > 4 * precision
  {
    8 * precision
  }

  /** Bellard's iteration count, `precision / 3` in C: a term adds a little
      over three decimal digits (1024^n > 10^(3n)), and the count is the
      largest whose three digits per term stay within the precision. */
  function BellardIterations(precision: int): (r: int)
    ensures precision >= 0 ==> 0 <= r && 3 * r <= precision < 3 * r + 3
    ensures precision < 0 ==> r <= 0
  {
    CDiv(precision, 3)
  }

  /** Chudnovsky's iteration count, `(precision + 14 - 1) / 14` in C: a term
      adds about fourteen decimal digits, and the count is the least that
      reaches the precision at fourteen digits per term. */
  function ChudnovskyIterations(precision: int): (r: int)
    ensures precision > 0 ==> r >= 1 && 14 * r >= precision > 14 * (r - 1)
  {
    CDiv(precision + 14 - 1, 14)
  }

  // ---------------------------------------------------------------------
  // Choosing the engine

  datatype Algorithm = Bbp | Bellard | Chudnovsky

  /** The algorithm codes of the drivers' switch: 0, 1 and 2. */
  function AlgorithmOf(code: int): (r: Option<Algorithm>)
    ensures r.Some? <==> 0 <= code <= 2
    ensures r == Some(Bellard) <==> code == 1
  {
    if code == 0 then Some(Bbp)
    else if code == 1 then Some(Bellard)
    else if code == 2 then Some(Chudnovsky)
    else None
  }

  datatype Option<T> = None | Some(value: T)

  /** The iteration count a driver computes for an algorithm. BBP's count is
      the float product `precision * 0.84` truncated to int, which is taken
      as given. */
  function Iterations(algorithm: Algorithm, precision: int, bbpIterations: int): int
  {
    match algorithm
    case Bbp => bbpIterations
    case Bellard => BellardIterations(precision)
    case Chudnovsky => ChudnovskyIterations(precision)
  }

  /** The engine call a driver makes. */
  datatype Call = Call(algorithm: Algorithm, iterations: int, precisionBits: int)

  /** What a driver does: call an engine, reach the end of its switch
      without calling one, or print a message and exit. */
  datatype Outcome = Ran(call: Call) | NoEngine(iterations: int) | Exited(error: ConfigError)

  /** calculate_Pi of the sequential build: an unknown algorithm code
      exits; otherwise the iteration count is computed, checked, and the
      engine of that algorithm is called. */
  method CalculatePi(algorithm: int, precision: int, bbpIterations: int) returns (r: Outcome)
    ensures AlgorithmOf(algorithm).None? ==> r == Exited(UnknownAlgorithm)
    ensures AlgorithmOf(algorithm).Some? && precision <= 0 ==> r == Exited(NonPositivePrecision)
    ensures AlgorithmOf(algorithm).Some? && precision > 0 ==>
      r == Ran(Call(AlgorithmOf(algorithm).value, Iterations(AlgorithmOf(algorithm).value, precision, bbpIterations), 8 * precision))
  {
    var precisionBits := PrecisionBits(precision);
    var a := AlgorithmOf(algorithm);
    if a.None? {
      r := Exited(UnknownAlgorithm);
    } else {
      var iterations := Iterations(a.value, precision, bbpIterations);
      var checked := CheckErrors(precision, iterations);
      r := if checked.Rejected? then Exited(checked.error) else Ran(Call(a.value, iterations, precisionBits));
    }
  }

  /** calculate_Pi_OMP: as the sequential driver, with the OpenMP check on
      the thread count. */
  method CalculatePiOmp(algorithm: int, precision: int, threads: int, bbpIterations: int) returns (r: Outcome)
    ensures AlgorithmOf(algorithm).None? ==> r == Exited(UnknownAlgorithm)
    ensures AlgorithmOf(algorithm).Some? ==>
      var iterations := Iterations(AlgorithmOf(algorithm).value, precision, bbpIterations);
      (r.Ran? <==> precision > 0 && iterations >= threads)
      && (r.Ran? ==> r.call == Call(AlgorithmOf(algorithm).value, iterations, 8 * precision))
      && (precision <= 0 ==> r == Exited(NonPositivePrecision))
      && (precision > 0 && iterations < threads ==> r == Exited(TooFewIterations))
  {
    var precisionBits := PrecisionBits(precision);
    var a := AlgorithmOf(algorithm);
    if a.None? {
      r := Exited(UnknownAlgorithm);
    } else {
      var iterations := Iterations(a.value, precision, bbpIterations);
      var checked := CheckErrorsOmp(precision, iterations, threads);
      r := if checked.Rejected? then Exited(checked.error) else Ran(Call(a.value, iterations, precisionBits));
    }
  }

  /** calculate_Pi_MPI: every case computes its iteration count and runs the
      MPI check, but only the Bellard case calls an engine; the BBP and
      Chudnovsky calls are commented out, so those cases leave pi at 0. */
  method CalculatePiMpi(procs: int, algorithm: int, precision: int, threads: int, bbpIterations: int) returns (r: Outcome)
    ensures AlgorithmOf(algorithm).None? ==> r == Exited(UnknownAlgorithm)
    ensures r.Ran? <==> algorithm == 1 && CheckErrorsMpi(procs, precision, BellardIterations(precision), threads, 1).Accepted?
    ensures r.Ran? ==> r.call == Call(Bellard, BellardIterations(precision), 8 * precision)
    ensures r.NoEngine? ==> (algorithm == 0 || algorithm == 2) && precision > 0
    ensures AlgorithmOf(algorithm).Some? ==>
      var iterations := Iterations(AlgorithmOf(algorithm).value, precision, bbpIterations);
      var checked := CheckErrorsMpi(procs, precision, iterations, threads, algorithm);
      (checked.Rejected? ==> r == Exited(checked.error))
      && (checked.Accepted? && algorithm != 1 ==> r == NoEngine(iterations))
  {
    var precisionBits := PrecisionBits(precision);
    var a := AlgorithmOf(algorithm);
    if a.None? {
      r := Exited(UnknownAlgorithm);
    } else {
      var iterations := Iterations(a.value, precision, bbpIterations);
      var checked := CheckErrorsMpi(procs, precision, iterations, threads, algorithm);
      if checked.Rejected? {
        r := Exited(checked.error);
      } else if a.value == Bellard {
        r := Ran(Call(Bellard, iterations, precisionBits));
      } else {
        r := NoEngine(iterations);
      }
    }
  }

  /** Which engine the wrappers of PiCalculator.c call. */
  datatype Mode = SequentialEngine | ParallelEngine

  /** The wrappers BBPAlgorithm, BellardAlgorithm and ChudnovskyAlgorithm:
      no argument check, the series' own iteration count, and the
      sequential engine exactly when at most one thread is asked for. */
  method Wrapper(algorithm: Algorithm, threads: int, precision: int, bbpIterations: int) returns (mode: Mode, call: Call)
    ensures mode == SequentialEngine <==> threads <= 1
    ensures call == Call(algorithm, Iterations(algorithm, precision, bbpIterations), 8 * precision)
  {
    var precisionBits := PrecisionBits(precision);
    var iterations := Iterations(algorithm, precision, bbpIterations);
    if threads <= 1 {
      mode := SequentialEngine;
    } else {
      mode := ParallelEngine;
    }
    call := Call(algorithm, iterations, precisionBits);
  }

  // ---------------------------------------------------------------------
  // Counting the matching decimals

  /** The length of the longest common prefix of a and b. */
  function CommonPrefix(a: seq<char>, b: seq<char>): (k: nat)
    ensures k <= |a| && k <= |b|
    ensures a[..k] == b[..k]
    ensures k < |a| && k < |b| ==> a[k] != b[k]
  {
    if |a| == 0 || |b| == 0 || a[0] != b[0] then 0
    else
      var k := CommonPrefix(a[1..], b[1..]);
      assert a[..k + 1] == [a[0]] + a[1..][..k];
      assert b[..k + 1] == [b[0]] + b[1..][..k];
      k + 1
  }

  /** A prefix that matches and cannot be extended is the longest one. */
  lemma {:induction false} CommonPrefixUnique(a: seq<char>, b: seq<char>, k: nat)
    requires k <= |a| && k <= |b| && a[..k] == b[..k]
    requires k == |a| || k == |b| || a[k] != b[k]
    ensures CommonPrefix(a, b) == k
  {
    if k > 0 {
      assert a[0] == a[..k][0] && b[0] == b[..k][0];
      assert a[1..][..k - 1] == a[..k][1..] && b[1..][..k - 1] == b[..k][1..];
      CommonPrefixUnique(a[1..], b[1..], k - 1);
    }
  }

  /** The reported count: the matching prefix less the two characters of
      "3.", never negative. */
  function Reported(matched: nat): (r: nat)
    ensures matched >= 2 ==> r + 2 == matched
    ensures matched < 2 ==> r == 0
  {
    if matched < 2 then 0 else matched - 2
  }

  /** The reported count is the number of matching decimal places: when
      both strings start with the same two characters ("3."), it is the
      common prefix of what follows them; otherwise no decimal matches. */
  lemma {:induction false} ReportedDecimals(a: seq<char>, b: seq<char>)
    ensures |a| >= 2 && |b| >= 2 && a[..2] == b[..2] ==>
      Reported(CommonPrefix(a, b)) == CommonPrefix(a[2..], b[2..])
    ensures !(|a| >= 2 && |b| >= 2 && a[..2] == b[..2]) ==> Reported(CommonPrefix(a, b)) == 0
  {
    var k := CommonPrefix(a, b);
    if |a| >= 2 && |b| >= 2 && a[..2] == b[..2] {
      assert a[0] == a[..2][0] && a[1] == a[..2][1] && b[0] == b[..2][0] && b[1] == b[..2][1];
      assert k >= 2;
      assert a[..2] == a[..k][..2] && b[..2] == b[..k][..2];
      assert a[2..][..k - 2] == a[..k][2..] && b[2..][..k - 2] == b[..k][2..];
      CommonPrefixUnique(a[2..], b[2..], k - 2);
    }
  }

  /** checkDecimals: compare the reference digits character by character
      with the printed value held in a buffer of bytes_of_pi characters,
      stopping at the first mismatch or at the end of the buffer.
      The printed value is followed in the buffer by its terminating NUL,
      which no reference character matches. */
  method CheckDecimals(reference: seq<char>, printed: seq<char>, bytesOfPi: int) returns (decimals: nat)
    requires |printed| < bytesOfPi
    requires forall j :: 0 <= j < |reference| ==> reference[j] != '\0'
    ensures decimals == Reported(CommonPrefix(reference, printed))
    ensures |reference| >= 2 && |printed| >= 2 && reference[..2] == printed[..2] ==>
      decimals == CommonPrefix(reference[2..], printed[2..])
  {
    var buffer := printed + ['\0'];
    var i := 0;
    while i < |reference|
      invariant i <= |reference| && i <= |printed|
      invariant reference[..i] == printed[..i]
    {
      if i >= bytesOfPi || reference[i] != buffer[i] {
        break;
      }
      assert reference[..i + 1] == reference[..i] + [reference[i]];
      assert printed[..i + 1] == printed[..i] + [printed[i]];
      i := i + 1;
    }
    CommonPrefixUnique(reference, printed, i);
    ReportedDecimals(reference, printed);
    decimals := if i < 2 then 0 else i - 2;
  }
}
