/** The BBP engine of the MPI build. Its per-index work, BBP_iteration, is
    defined in a file that is not part of this model, so the amount an
    iteration adds to the private sum is a parameter `contrib(i, dep_m)`;
    what is modelled is the bookkeeping around it: the factor
    dep_m = (1/16)^i, the process and thread blocks, and the two sums. */
module Bbp {
  import opened Math
  import opened Series
  import opened Blocks
  import opened Reduction

  /** QUOTIENT, stored into `quotient` with `mpfr_set_d`. */
  const Quotient: real := 0.0625

  /** QUOTIENT is exactly 1/16, so the factor a thread carries at index n is
      1 / 16^n. */
  lemma {:induction false} QuotientPower(n: nat)
    ensures Pow(Quotient, n) == Quot(1.0, Pow(16.0, n))
  {
    assert Quotient == Quot(1.0, 16.0);
    PowReciprocal(16.0, n);
  }

  /** The amounts the engine adds: index i contributes `contrib(i, dep_m)`
      with dep_m = QUOTIENT^i. */
  function Terms(contrib: (nat, real) -> real): nat -> real
  {
    (i: nat) => contrib(i, Pow(Quotient, i))
  }

  /** The loop of one thread: dep_m seeded with `mpfr_pow_ui(quotient,
      start)` and multiplied by quotient after every index. */
  method ThreadBlock(contrib: (nat, real) -> real, start: nat, end: nat, quotient: real) returns (localPi: real)
    requires quotient == Quotient
    ensures localPi == Sum(Terms(contrib), start, end)
  {
    localPi := 0.0;
    var depM := Pow(quotient, start);
    var i := start;
    while i < end
      invariant start <= i && (i == start || i <= end)
      invariant depM == Pow(Quotient, i)
      invariant localPi == Sum(Terms(contrib), start, i)
    {
      localPi := localPi + contrib(i, depM);
      depM := Times(depM, quotient);
      i := i + 1;
    }
  }

  /** Process p: the threads split its block with the process's nominal
      block size as span, clamped to the process's end, and their private
      sums enter local_proc_pi in `order`. */
  method ProcessPart(contrib: (nat, real) -> real, n: nat, procs: nat, p: nat, threads: nat, order: seq<nat>)
    returns (localProcPi: real)
    requires procs > 0 && threads > 0 && IsAdmissionOrder(order, threads)
    ensures var pb := ClampedBlock(0, n, n, procs, p);
      localProcPi == Sum(Terms(contrib), pb.start, pb.end)
  {
    var pb := ClampedBlock(0, n, n, procs, p);
    var quotient := Quotient;
    var partials: seq<real> := [];
    var t := 0;
    while t < threads
      invariant t <= threads && |partials| == t
      invariant SumSeq(partials) == Sum(Terms(contrib), pb.start, ClampedBoundary(pb.start, pb.end, pb.size, threads, t))
    {
      var tb := NestedBlock(n, procs, threads, p, t);
      var localThreadPi := ThreadBlock(contrib, tb.start, tb.end, quotient);
      ClampedSumStep(Terms(contrib), pb.start, pb.end, pb.size, threads, t);
      SumSeqAppend(partials, localThreadPi);
      partials := partials + [localThreadPi];
      t := t + 1;
    }
    ClampedBoundaryEnds(pb.start, pb.end, pb.size, threads);
    localProcPi := Accumulate(0.0, partials, order);
  }

  /** BBP_algorithm_MPI seen from rank 0: the process parts are reduced in
      `procOrder` and rank 0 keeps the reduced sum as it is. */
  method Mpi(contrib: (nat, real) -> real, n: nat, procs: nat, threads: nat, procOrder: seq<nat>, threadOrders: seq<seq<nat>>)
    returns (r: real)
    requires procs > 0 && threads > 0
    requires IsAdmissionOrder(procOrder, procs)
    requires |threadOrders| == procs
    requires forall p :: 0 <= p < procs ==> IsAdmissionOrder(threadOrders[p], threads)
    ensures r == Sum(Terms(contrib), 0, n)
  {
    var parts: seq<real> := [];
    var p := 0;
    while p < procs
      invariant p <= procs && |parts| == p
      invariant SumSeq(parts) == Sum(Terms(contrib), 0, ClampedBoundary(0, n, n, procs, p))
    {
      var part := ProcessPart(contrib, n, procs, p, threads, threadOrders[p]);
      ClampedSumStep(Terms(contrib), 0, n, n, procs, p);
      SumSeqAppend(parts, part);
      parts := parts + [part];
      p := p + 1;
    }
    ClampedBoundaryEnds(0, n, n, procs);
    r := Accumulate(0.0, parts, procOrder);
  }
}
