/** Bellard's series
      2^6 pi = sum over n >= 0 of (-1)^n / 1024^n
        (-32/(4n+1) - 1/(4n+3) + 256/(10n+1) - 64/(10n+3) - 4/(10n+5) - 4/(10n+7) + 1/(10n+9))
    as the engines evaluate it. An iteration carries the factor dep_m and the
    two integer counters dep_a = 4n and dep_b = 10n; the engines differ in how
    they move dep_m from one visited index to the next. */
module Bellard {
  import opened Math
  import opened Series
  import opened Blocks
  import opened Reduction

  // ---------------------------------------------------------------------
  // The series

  /** (-32/(4n+1) - 1/(4n+3) + 256/(10n+1) - 64/(10n+3) - 4/(10n+5)
      - 4/(10n+7) + 1/(10n+9)), the bracket of the formula. */
  function FormulaBracket(n: nat): real
  {
    - Quot(32.0, (4 * n + 1) as real) - Quot(1.0, (4 * n + 3) as real)
    + Quot(256.0, (10 * n + 1) as real) - Quot(64.0, (10 * n + 3) as real)
    - Quot(4.0, (10 * n + 5) as real) - Quot(4.0, (10 * n + 7) as real)
    + Quot(1.0, (10 * n + 9) as real)
  }

  /** Term n of the series, written as the formula states it. */
  function Term(n: nat): real
  {
    Times(Quot(Pow(-1.0, n), Pow(1024.0, n)), FormulaBracket(n))
  }

  /** `aux` in Bellard_iteration_v1: the seven fractions a .. g from the
      counters, combined as (-a - b) + ((((c - d) - e) - f) + g). */
  function Bracket(depA: nat, depB: nat): real
  {
    var a := Quot(32.0, (depA + 1) as real);
    var b := Quot(1.0, (depA + 3) as real);
    var c := Quot(256.0, (depB + 1) as real);
    var d := Quot(64.0, (depB + 3) as real);
    var e := Quot(4.0, (depB + 5) as real);
    var f := Quot(4.0, (depB + 7) as real);
    var g := Quot(1.0, (depB + 9) as real);
    (-a - b) + ((((c - d) - e) - f) + g)
  }

  /** One Bellard_iteration_v1: pi += aux * m. Its index parameter is unused
      by the C code; it names the index whose term the call adds when m and
      the counters hold that index's values. */
  function Iteration(pi: real, n: nat, m: real, depA: nat, depB: nat): (r: real)
    ensures m == DepM(n) && depA == 4 * n && depB == 10 * n ==> r == pi + Term(n)
  {
    DepMFormula(n);
    pi + Times(Bracket(depA, depB), m)
  }

  // ---------------------------------------------------------------------
  // dep_m and its three update styles

  /** jump = 1 / 1024, as `mpfr_div_ui` leaves it. */
  const Jump: real := Quot(1.0, 1024.0)

  /** x, negated by `mpfr_neg` when k is odd. */
  function Signed(k: nat, x: real): real
  {
    if k % 2 != 0 then -x else x
  }

  /** The multiplicative update of the sequential v1 engine:
      `mpfr_mul(dep_m, dep_m, jump)` followed by `mpfr_neg`. */
  function StepDepM(m: real): real
  {
    -Times(m, Jump)
  }

  /** dep_m at index n as the sequential v1 engine carries it: 1 at index 0,
      then one update after every index. */
  function DepM(n: nat): real
  {
    if n == 0 then 1.0 else StepDepM(DepM(n - 1))
  }

  /** The closed form the engines of Bellard.c recompute for index k:
      ONE * 2^(10k) by `mpfr_mul_2exp`, then ONE divided by it, negated when
      k is odd. */
  function ClosedDepM(k: nat): real
  {
    Signed(k, Quot(1.0, Pow(2.0, 10 * k)))
  }

  /** The seed of a thread of the MPI v1 engine at index k: (1/1024)^k,
      negated when k is odd. */
  function SeedDepM(k: nat): real
  {
    Signed(k, Pow(Jump, k))
  }

  /** The strided update of the MPI v1 engine with T threads and
      jump = (1/1024)^T: multiply by jump, and negate only in the loop for
      odd T. */
  function StrideDepM(m: real, jump: real, threads: nat): real
  {
    if threads % 2 != 0 then -Times(m, jump) else Times(m, jump)
  }

  /** The carried dep_m is the signed power of 1/1024: the v1 seed. */
  lemma {:induction false} DepMPower(n: nat)
    ensures DepM(n) == SeedDepM(n)
  {
    if n > 0 {
      DepMPower(n - 1);
    }
  }

  /** (-1)^n is 1 for even n and -1 for odd n. */
  lemma {:induction false} PowMinusOne(n: nat)
    ensures Pow(-1.0, n) == Signed(n, 1.0)
  {
    if n > 0 {
      PowMinusOne(n - 1);
    }
  }

  /** The carried dep_m is the formula's factor (-1)^n / 1024^n. */
  lemma {:induction false} DepMFormula(n: nat)
    ensures DepM(n) == Quot(Pow(-1.0, n), Pow(1024.0, n))
  {
    DepMPower(n);
    PowMinusOne(n);
    PowReciprocal(1024.0, n);
  }

  /** 2^(10k) = 1024^k. */
  lemma {:induction false} PowTwoTen(k: nat)
    ensures Pow(2.0, 10 * k) == Pow(1024.0, k)
  {
    if k > 0 {
      PowTwoTen(k - 1);
      PowAdd(2.0, 10 * (k - 1), 10);
      assert Pow(2.0, 10) == 1024.0;
    }
  }

  /** The recomputed closed form is the carried dep_m. */
  lemma {:induction false} ClosedDepMIs(k: nat)
    ensures ClosedDepM(k) == DepM(k)
  {
    PowTwoTen(k);
    PowReciprocal(1024.0, k);
    DepMPower(k);
  }

  /** A stride of T from the carried dep_m at n gives the carried dep_m at
      n + T, whatever the parity of T. */
  lemma {:induction false} DepMStride(n: nat, threads: nat)
    ensures StrideDepM(DepM(n), Pow(Jump, threads), threads) == DepM(n + threads)
  {
    DepMPower(n);
    DepMPower(n + threads);
    PowAdd(Jump, n, threads);
  }

  // ---------------------------------------------------------------------
  // The sequential engines

  /** Bellard_algorithm_v1: N iterations from index 0 added onto pi, dep_m
      carried by the multiplicative update, and the sum divided by 64. */
  method SequentialV1(pi: real, n: nat) returns (r: real)
    ensures r == Quot(pi + Sum(Term, 0, n), 64.0)
  {
    var depA, depB := 0, 0;
    var jump := Quot(1.0, 1024.0);
    var depM := 1.0;
    var acc := pi;
    var i := 0;
    while i < n
      invariant i <= n
      invariant depA == 4 * i && depB == 10 * i && depM == DepM(i)
      invariant acc == pi + Sum(Term, 0, i)
    {
      acc := Iteration(acc, i, depM, depA, depB);
      depM := -Times(depM, jump);
      depA := depA + 4;
      depB := depB + 10;
      i := i + 1;
    }
    r := Quot(acc, 64.0);
  }

  /** Bellard_algorithm: as the v1 engine, but dep_m is recomputed in closed
      form for the next index after every iteration. */
  method Sequential(pi: real, n: nat) returns (r: real)
    ensures r == Quot(pi + Sum(Term, 0, n), 64.0)
  {
    var depA, depB := 0, 0;
    var depM := 1.0;
    var acc := pi;
    var i := 0;
    while i < n
      invariant i <= n
      invariant depA == 4 * i && depB == 10 * i && depM == DepM(i)
      invariant acc == pi + Sum(Term, 0, i)
    {
      acc := Iteration(acc, i, depM, depA, depB);
      var nextI := i + 1;
      depM := ClosedDepM(nextI);
      ClosedDepMIs(nextI);
      depA := depA + 4;
      depB := depB + 10;
      i := i + 1;
    }
    r := Quot(acc, 64.0);
  }

  /** The sequential engines add the same terms: the v1 and closed-form
      updates agree at every index. */
  lemma {:induction false} UpdatesAgree(i: nat)
    ensures StepDepM(DepM(i)) == ClosedDepM(i + 1)
  {
    ClosedDepMIs(i + 1);
  }

  // ---------------------------------------------------------------------
  // The MPI engines

  /** Which file's thread loop: Bellard_v1.c strides dep_m by jump = (1/1024)^T,
      Bellard.c recomputes it in closed form. */
  datatype Update = Jumped | Recomputed

  /** The loop of one thread: the indices s, s + T, s + 2T, ... below hi,
      with dep_m seeded at s in the style's own form and dep_a, dep_b
      advanced by 4T and 10T. */
  method ThreadLoop(style: Update, s: nat, hi: nat, threads: nat, jump: real) returns (localPi: real)
    requires threads > 0
    requires style == Jumped ==> jump == Pow(Jump, threads)
    ensures localPi == StridedSum(Term, s, hi, threads)
  {
    localPi := 0.0;
    var depA, depB := s * 4, s * 10;
    var jumpDepA, jumpDepB := 4 * threads, 10 * threads;
    var depM: real;
    if style == Jumped {
      depM := SeedDepM(s);
      DepMPower(s);
    } else {
      depM := ClosedDepM(s);
      ClosedDepMIs(s);
    }
    var i := s;
    while i < hi
      invariant depA == 4 * i && depB == 10 * i && depM == DepM(i)
      invariant localPi + StridedSum(Term, i, hi, threads) == StridedSum(Term, s, hi, threads)
      decreases hi - i
    {
      localPi := Iteration(localPi, i, depM, depA, depB);
      if style == Jumped {
        depM := StrideDepM(depM, jump, threads);
        DepMStride(i, threads);
      } else {
        var nextI := i + threads;
        depM := ClosedDepM(nextI);
        ClosedDepMIs(nextI);
      }
      depA := depA + jumpDepA;
      depB := depB + jumpDepB;
      i := i + threads;
    }
  }

  /** Process p: its block of the uniform split of [0, N), shared cyclically
      among T threads whose private sums enter local_proc_pi in `order`. */
  method ProcessPart(style: Update, n: nat, procs: nat, p: nat, threads: nat, order: seq<nat>)
    returns (localProcPi: real)
    requires procs > 0 && threads > 0 && IsAdmissionOrder(order, threads)
    ensures var pb := ClampedBlock(0, n, n, procs, p);
      localProcPi == Sum(Term, pb.start, pb.end)
  {
    var pb := ClampedBlock(0, n, n, procs, p);
    var jump := if style == Jumped then Pow(Jump, threads) else 1.0;
    var partials: seq<real> := [];
    var t := 0;
    while t < threads
      invariant t <= threads && |partials| == t
      invariant SumSeq(partials) == Sum(StridedShares(Term, pb.start, pb.end, threads), 0, t)
    {
      var localThreadPi := ThreadLoop(style, pb.start + t, pb.end, threads, jump);
      SumSeqAppend(partials, localThreadPi);
      partials := partials + [localThreadPi];
      t := t + 1;
    }
    CyclicSum(Term, pb.start, pb.end, threads);
    localProcPi := Accumulate(0.0, partials, order);
  }

  /** An MPI engine seen from rank 0: the process parts are reduced in
      `procOrder` and rank 0 divides the reduced sum by 64. */
  method MpiWith(style: Update, n: nat, procs: nat, threads: nat, procOrder: seq<nat>, threadOrders: seq<seq<nat>>)
    returns (r: real)
    requires procs > 0 && threads > 0
    requires IsAdmissionOrder(procOrder, procs)
    requires |threadOrders| == procs
    requires forall p :: 0 <= p < procs ==> IsAdmissionOrder(threadOrders[p], threads)
    ensures r == Quot(Sum(Term, 0, n), 64.0)
  {
    var parts: seq<real> := [];
    var p := 0;
    while p < procs
      invariant p <= procs && |parts| == p
      invariant SumSeq(parts) == Sum(Term, 0, ClampedBoundary(0, n, n, procs, p))
    {
      var part := ProcessPart(style, n, procs, p, threads, threadOrders[p]);
      ClampedSumStep(Term, 0, n, n, procs, p);
      SumSeqAppend(parts, part);
      parts := parts + [part];
      p := p + 1;
    }
    ClampedBoundaryEnds(0, n, n, procs);
    var total := Accumulate(0.0, parts, procOrder);
    r := Quot(total, 64.0);
  }

  /** Bellard_algorithm_v1_MPI. */
  method MpiV1(n: nat, procs: nat, threads: nat, procOrder: seq<nat>, threadOrders: seq<seq<nat>>)
    returns (r: real)
    requires procs > 0 && threads > 0
    requires IsAdmissionOrder(procOrder, procs)
    requires |threadOrders| == procs
    requires forall p :: 0 <= p < procs ==> IsAdmissionOrder(threadOrders[p], threads)
    ensures r == Quot(Sum(Term, 0, n), 64.0)
  {
    r := MpiWith(Jumped, n, procs, threads, procOrder, threadOrders);
  }

  /** Bellard_algorithm_MPI. */
  method Mpi(n: nat, procs: nat, threads: nat, procOrder: seq<nat>, threadOrders: seq<seq<nat>>)
    returns (r: real)
    requires procs > 0 && threads > 0
    requires IsAdmissionOrder(procOrder, procs)
    requires |threadOrders| == procs
    requires forall p :: 0 <= p < procs ==> IsAdmissionOrder(threadOrders[p], threads)
    ensures r == Quot(Sum(Term, 0, n), 64.0)
  {
    r := MpiWith(Recomputed, n, procs, threads, procOrder, threadOrders);
  }
}
