/** The Chudnovsky series
      426880 sqrt(10005) / pi = sum over n >= 0 of
        (6n)! (545140134 n + 13591409) / ((n!)^3 (3n)! (-640320)^(3n))
    as the engines evaluate it: each term is dep_a * dep_c / dep_b, and the
    three dependencies are carried from one index to the next. */
module Chudnovsky {
  import opened Math
  import opened Series
  import opened Blocks
  import opened Reduction

  const A: nat := 13591409
  const B: nat := 545140134
  const C: nat := 640320
  const D: nat := 426880
  const E: nat := 10005

  /** The value of `c` after `mpfr_neg` and `mpfr_pow_ui(c, c, 3)`: (-640320)^3. */
  const CubeC: real := Cube(-(C as int)) as real

  /** `root` stands for the `mpfr_sqrt` of 10005. */
  predicate IsSqrtE(root: real)
  {
    root > 0.0 && root * root == E as real
  }

  // ---------------------------------------------------------------------
  // The series

  /** (6s)!, the integer dividend init_dep_a builds with `mpz`. */
  function DepADividend(s: nat): (r: nat)
    ensures r >= 1
  {
    Fact(6 * s)
  }

  /** (3s)! (s!)^3, the integer divisor init_dep_a builds with `mpz`. */
  function DepADivisor(s: nat): (r: int)
    ensures r >= 1
  {
    Fact(3 * s) * Cube(Fact(s))
  }

  /** (3n)! (n!)^3 (-640320)^(3n), the divisor of term n. */
  function TermDivisor(n: nat): (r: int)
    ensures r != 0
  {
    DepADivisor(n) * IPow(-(C as int), 3 * n)
  }

  /** Term n of the series, written as the formula states it. */
  function Term(n: nat): real
  {
    Quot((DepADividend(n) * (B * n + A)) as real, TermDivisor(n) as real)
  }

  /** dep_a at index s in closed form, (6s)! / ((3s)! (s!)^3): init_dep_a. */
  function InitDepA(s: nat): real
  {
    Quot(DepADividend(s) as real, DepADivisor(s) as real)
  }

  /** dep_b at index n: c^n = (-640320)^(3n). */
  function DepB(n: nat): (r: real)
    ensures r != 0.0
  {
    Pow(CubeC, n)
  }

  /** dep_c at index n: 545140134 n + 13591409. */
  function DepC(n: nat): real
  {
    (B * n + A) as real
  }

  /** (factor_a + 10)(factor_a + 6)(factor_a + 2), the multiplier of the
      dep_a update (the sequential engine multiplies the same three factors
      in the opposite order). */
  function DepAFactor(factorA: int): int
  {
    (factorA + 10) * (factorA + 6) * (factorA + 2)
  }

  /** The update of dep_a after index i: `mpfr_mul_ui` by the three factors
      of factor_a and `mpfr_div_ui` by (i + 1)^3. */
  function NextDepA(depA: real, factorA: int, i: nat): real
  {
    Quot(Scale(DepAFactor(factorA), depA), Cube(i + 1) as real)
  }

  /** dep_a at index s as the engines carry it: 1 at index 0, then one
      update (with factor_a = 12 i) after every index i. */
  function DepA(s: nat): real
  {
    if s == 0 then 1.0 else NextDepA(DepA(s - 1), 12 * (s - 1), s - 1)
  }

  /** Seeding a block with the closed form of init_dep_a gives the same dep_a
      as replaying every update from index 0. */
  lemma {:induction false} InitDepAReplays(s: nat)
    ensures InitDepA(s) == DepA(s)
  {
    if s == 0 {
      assert Fact(0) == 1;
      assert DepADivisor(0) == 1;
    } else {
      InitDepAReplays(s - 1);
      DepAStep(s - 1);
    }
  }

  /** One step of Chudnovsky_iteration: add dep_a * dep_c / dep_b to pi.
      With the dependencies of index n this adds term n. */
  function Iteration(pi: real, n: nat, depA: real, depB: real, depC: real): (r: real)
    requires depB != 0.0
    ensures depA == DepA(n) && depB == DepB(n) && depC == DepC(n) ==> r == pi + Term(n)
  {
    TermFactors(n);
    pi + DepTerm(depA, depB, depC)
  }

  /** The quantity an iteration adds: dep_a * dep_c / dep_b. */
  function DepTerm(depA: real, depB: real, depC: real): real
    requires depB != 0.0
  {
    Quot(depA * depC, depB)
  }

  /** dep_b after `mpfr_mul(dep_b, dep_b, c)`. */
  lemma {:induction false} DepBNext(depB: real, i: nat)
    requires depB == DepB(i)
    ensures depB * CubeC == DepB(i + 1)
  {
  }

  /** dep_c after `mpfr_add_ui(dep_c, dep_c, B)`. */
  lemma {:induction false} DepCNext(depC: real, i: nat)
    requires depC == DepC(i)
    ensures depC + B as real == DepC(i + 1)
  {
  }

  /** The seed B * start + A that the parallel engines compute in MPFR. */
  lemma {:induction false} DepCSeed(start: nat)
    ensures (B as real) * (start as real) + A as real == DepC(start)
  {
    RealOfProduct(B, start);
  }

  // ---------------------------------------------------------------------
  // The algebra behind the dependencies

  /** (3i+1)(3i+2)(3i+3): (3(i+1))! / (3i)!. */
  function StepRising(i: nat): nat
  {
    Rising(3 * i, 3)
  }

  /** (6(i+1))! in terms of (6i)!. */
  lemma {:induction false} FactSixStep(i: nat)
    ensures DepADividend(i + 1) == DepADividend(i) * (DepAFactor(12 * i) * StepRising(i))
  {
    FactRising(6 * i, 6);
    RisingSix(i);
    assert 6 * (i + 1) == 6 * i + 6;
  }

  /** (3(i+1))! in terms of (3i)!. */
  lemma {:induction false} FactThreeStep(i: nat)
    ensures Fact(3 * (i + 1)) == Fact(3 * i) * StepRising(i)
  {
    FactRising(3 * i, 3);
    assert 3 * (i + 1) == 3 * i + 3;
  }

  /** (6i+1)(6i+2)...(6i+6) = (12i+10)(12i+6)(12i+2) (3i+1)(3i+2)(3i+3). */
  lemma {:induction false} RisingSix(i: nat)
    ensures Rising(6 * i, 6) == DepAFactor(12 * i) * StepRising(i)
  {
    var m, n := 6 * i, 3 * i;
    var a, b, c, u, v, w := m + 1, m + 3, m + 5, n + 1, n + 2, n + 3;
    assert m + 2 == 2 * u && m + 4 == 2 * v && m + 6 == 2 * w;
    assert Rising(m, 6) == Rising(m, 5) * (2 * w);
    assert Rising(m, 5) == Rising(m, 4) * c;
    assert Rising(m, 4) == Rising(m, 3) * (2 * v);
    assert Rising(m, 3) == Rising(m, 2) * b;
    assert Rising(m, 2) == Rising(m, 1) * (2 * u);
    assert Rising(m, 1) == a;
    assert Rising(n, 3) == Rising(n, 2) * w;
    assert Rising(n, 2) == Rising(n, 1) * v;
    assert Rising(n, 1) == u;
    assert 12 * i + 10 == 2 * c && 12 * i + 6 == 2 * b && 12 * i + 2 == 2 * a;
    Regroup(a, b, c, u, v, w);
  }

  lemma {:induction false} Regroup(a: int, b: int, c: int, u: int, v: int, w: int)
    ensures a * (2 * u) * b * (2 * v) * c * (2 * w) == (2 * c) * (2 * b) * (2 * a) * (u * v * w)
  {
  }

  /** (s+1)-divisor regrouped around the s-divisor, for abstract factorials. */
  lemma {:induction false} DivisorRegroup(d1: int, d: int, f1: int, f: int, g3: int, g: int, p: int, j: int)
    requires d1 == g3 * Cube(f1) && d == g * Cube(f)
    requires f1 == j * f && g3 == g * p
    ensures d1 == Cube(j) * (d * p)
  {
    CubeProduct(j, f);
  }

  /** The divisor at i + 1 in terms of the divisor at i. */
  lemma {:induction false} DivisorStep(i: nat)
    ensures DepADivisor(i + 1) == Cube(i + 1) * (DepADivisor(i) * StepRising(i))
  {
    FactThreeStep(i);
    DivisorRegroup(DepADivisor(i + 1), DepADivisor(i),
      Fact(i + 1), Fact(i), Fact(3 * (i + 1)), Fact(3 * i), StepRising(i), i + 1);
  }

  /** The quotient at i + 1 in terms of the quotient at i, for abstract
      integer numerators and divisors. */
  lemma {:induction false} QuotientStep(a1: real, a: real, x6: int, x: int, k: int, p: int, q: int, y: int, d1: int)
    ensures q > 0 && y > 0 && p > 0 && d1 > 0 && x6 == x * (k * p) && d1 == q * (y * p)
      && a1 == Quot(x6 as real, d1 as real) && a == Quot(x as real, y as real)
      ==> a1 == Quot(Scale(k, a), q as real)
  {
    if q > 0 && y > 0 && p > 0 && d1 > 0 && x6 == x * (k * p) && d1 == q * (y * p)
      && a1 == Quot(x6 as real, d1 as real) && a == Quot(x as real, y as real)
    {
      RealOfProduct(k, p);
      RealOfProduct(x, k * p);
      RealOfProduct(y, p);
      RealOfProduct(q, y * p);
      RealQuotientStep(a1, a, x6 as real, x as real, k as real, p as real, q as real, y as real, d1 as real);
    }
  }

  lemma {:induction false} RealQuotientStep(a1: real, a: real, x6: real, x: real, k: real, p: real, q: real, y: real, d1: real)
    requires q != 0.0 && y != 0.0 && p != 0.0 && d1 != 0.0
    requires a1 == x6 / d1 && a == x / y
    requires x6 == x * (k * p) && d1 == q * (y * p)
    ensures a1 == k * a / q
  {
    assert x6 == (x * k) * p && d1 == (q * y) * p;
    Cancel(x * k, q * y, p);
    assert x == a * y;
    assert x * k == (a * k) * y;
    Cancel(a * k, q, y);
  }

  /** The facts the step from i to i + 1 rests on. */
  lemma {:induction false} DepAStepFacts(i: nat)
    ensures Cube(i + 1) > 0 && DepADivisor(i) > 0 && StepRising(i) > 0 && DepADivisor(i + 1) > 0
    ensures DepADividend(i + 1) == DepADividend(i) * (DepAFactor(12 * i) * StepRising(i))
    ensures DepADivisor(i + 1) == Cube(i + 1) * (DepADivisor(i) * StepRising(i))
  {
    FactSixStep(i);
    DivisorStep(i);
  }

  /** The closed form of dep_a at i + 1 is the update applied to the closed
      form at i. */
  lemma {:induction false} DepAStep(i: nat)
    ensures InitDepA(i + 1) == NextDepA(InitDepA(i), 12 * i, i)
  {
    DepAStepFacts(i);
    QuotientStep(InitDepA(i + 1), InitDepA(i), DepADividend(i + 1), DepADividend(i),
      DepAFactor(12 * i), StepRising(i), Cube(i + 1), DepADivisor(i), DepADivisor(i + 1));
  }

  /** x c / (y b) = (x / y) c / b, for abstract integers. */
  lemma {:induction false} QuotientFactors(t: real, a: real, cr: real, br: real, x: int, c: int, y: int, b: int)
    requires y != 0 && b != 0 && y * b != 0
    requires t == Quot((x * c) as real, (y * b) as real) && a == Quot(x as real, y as real)
    requires cr == c as real && br == b as real
    ensures t == DepTerm(a, br, cr)
  {
    RealOfProduct(x, c);
    RealOfProduct(y, b);
    var xr, yr := x as real, y as real;
    assert xr == a * yr;
    assert xr * cr == (a * cr) * yr && yr * br == br * yr;
    Cancel(a * cr, br, yr);
  }

  /** dep_b at n is the integer (-640320)^(3n). */
  lemma {:induction false} DepBInt(n: nat)
    ensures DepB(n) == IPow(-(C as int), 3 * n) as real
  {
    PowOfInt(Cube(-(C as int)), n);
    IPowThree(-(C as int), n);
  }

  /** Term n is dep_a * dep_c / dep_b at index n. */
  lemma {:induction false} TermFactors(n: nat)
    ensures Term(n) == DepTerm(DepA(n), DepB(n), DepC(n))
  {
    InitDepAReplays(n);
    DepBInt(n);
    QuotientFactors(Term(n), InitDepA(n), DepC(n), DepB(n),
      DepADividend(n), B * n + A, DepADivisor(n), IPow(-(C as int), 3 * n));
  }

  // ---------------------------------------------------------------------
  // Closing the sum

  datatype Closed = Finite(value: real) | Infinite

  /** pi = 426880 sqrt(10005) / sum. With no iterations the sum is 0 and the
      MPFR division yields an infinity. */
  function Close(sum: real, root: real): (r: Closed)
    requires IsSqrtE(root)
    ensures r == Infinite <==> sum == 0.0
    ensures r.Finite? ==> r.value * sum == (D as real) * root
  {
    if sum == 0.0 then Infinite else Finite(Quot((D as real) * root, sum))
  }

  // ---------------------------------------------------------------------
  // The engines

  /** The sequential engine: N iterations from index 0 added onto pi, then
      closed. */
  method Sequential(pi: real, n: nat, root: real) returns (r: Closed)
    requires IsSqrtE(root)
    ensures r == Close(pi + Sum(Term, 0, n), root)
  {
    var depA, depB, depC := 1.0, 1.0, A as real;
    var acc := pi;
    var i := 0;
    while i < n
      invariant i <= n
      invariant depA == DepA(i) && depB == DepB(i) && depC == DepC(i)
      invariant acc == pi + Sum(Term, 0, i)
    {
      acc := Iteration(acc, i, depA, depB, depC);
      var factorA := 12 * i;
      depA := NextDepA(depA, factorA, i);
      DepBNext(depB, i);
      depB := depB * CubeC;
      DepCNext(depC, i);
      depC := depC + B as real;
      i := i + 1;
    }
    r := Close(acc, root);
  }

  /** The per-thread loop of the parallel engines: seed the dependencies at
      `start` (dep_a in closed form, dep_b = c^start, dep_c = B start + A,
      factor_a = 12 start) and run the indices start .. end - 1 into a
      private sum. */
  method ThreadBlock(start: nat, end: nat) returns (localPi: real)
    ensures localPi == Sum(Term, start, end)
  {
    localPi := 0.0;
    var depA := InitDepA(start);
    InitDepAReplays(start);
    var depB := Pow(CubeC, start);
    var depC := (B as real) * (start as real) + A as real;
    DepCSeed(start);
    var factorA := 12 * start;
    var i := start;
    while i < end
      invariant start <= i && (i == start || i <= end)
      invariant factorA == 12 * i
      invariant depA == DepA(i) && depB == DepB(i) && depC == DepC(i)
      invariant localPi == Sum(Term, start, i)
    {
      localPi := Iteration(localPi, i, depA, depB, depC);
      depA := NextDepA(depA, factorA, i);
      factorA := factorA + 12;
      DepBNext(depB, i);
      depB := depB * CubeC;
      DepCNext(depC, i);
      depC := depC + B as real;
      i := i + 1;
    }
  }

  /** The thread phase of the OpenMP engine and of every MPI process: thread
      t of `parts` seeds its dependencies at the start of block t of the
      clamped split of [lo, hi) and leaves its private sum in partials[t]. */
  method ClampedPartials(lo: nat, hi: nat, span: nat, parts: nat) returns (partials: seq<real>)
    requires parts > 0 && hi <= lo + span
    ensures |partials| == parts
    ensures forall t :: 0 <= t < parts ==>
      partials[t] == Sum(Term, ClampedBlock(lo, hi, span, parts, t).start, ClampedBlock(lo, hi, span, parts, t).end)
    ensures SumSeq(partials) == Sum(Term, lo, hi)
  {
    partials := [];
    var t := 0;
    while t < parts
      invariant t <= parts && |partials| == t
      invariant forall u :: 0 <= u < t ==>
        partials[u] == Sum(Term, ClampedBlock(lo, hi, span, parts, u).start, ClampedBlock(lo, hi, span, parts, u).end)
      invariant SumSeq(partials) == Sum(Term, lo, ClampedBoundary(lo, hi, span, parts, t))
    {
      var b := ClampedBlock(lo, hi, span, parts, t);
      var localPi := ThreadBlock(b.start, b.end);
      ClampedSumStep(Term, lo, hi, span, parts, t);
      SumSeqAppend(partials, localPi);
      partials := partials + [localPi];
      t := t + 1;
    }
    ClampedBoundaryEnds(lo, hi, span, parts);
  }

  /** The OpenMP engine: thread t runs its clamped block of ceil(N / T)
      indices, and the private sums enter pi one by one in `order`. */
  method Parallel(pi: real, n: nat, threads: nat, order: seq<nat>, root: real) returns (r: Closed)
    requires threads > 0 && IsAdmissionOrder(order, threads) && IsSqrtE(root)
    ensures r == Close(pi + Sum(Term, 0, n), root)
  {
    var partials := ClampedPartials(0, n, n, threads);
    var total := Accumulate(pi, partials, order);
    r := Close(total, root);
  }

  /** The parallel engine of ChudnovskyAlgorithm.c as written: only the last
      thread's end is clamped, so the engine sums the terms below
      max(N, (T - 1) ceil(N / T)). */
  method ParallelAsWritten(pi: real, n: nat, threads: nat, order: seq<nat>, root: real) returns (r: Closed)
    requires threads > 0 && IsAdmissionOrder(order, threads) && IsSqrtE(root)
    ensures r == Close(pi + Sum(Term, 0, LastClampedReach(n, threads)), root)
  {
    var partials: seq<real> := [];
    var t := 0;
    while t < threads
      invariant t <= threads && |partials| == t
      invariant SumSeq(partials) == Sum(Term, 0, LastClampedBoundary(n, threads, t))
    {
      var b := LastClampedBlock(n, threads, t);
      var localPi := ThreadBlock(b.start, b.end);
      LastClampedSumStep(Term, n, threads, t);
      SumSeqAppend(partials, localPi);
      partials := partials + [localPi];
      t := t + 1;
    }
    var total := Accumulate(pi, partials, order);
    r := Close(total, root);
  }

  /** With N = 5 and T = 4 the engine as written adds term 5 as well. */
  lemma {:induction false} AsWrittenAddsTerm5()
    ensures Sum(Term, 0, LastClampedReach(5, 4)) == Sum(Term, 0, 5) + Term(5)
    ensures Term(5) != 0.0
  {
    LastClampedOverrun();
    SumSplit(Term, 0, 5, 6);
    TermNonZero(5);
  }

  /** No term of the series vanishes: its dividend and divisor are non-zero
      integers. */
  lemma {:induction false} TermNonZero(n: nat)
    ensures Term(n) != 0.0
  {
    var d, c := DepADividend(n), B * n + A;
    assert d * c >= c by {
      MulMonotone(1, d, c);
    }
  }

  /** The thread phase of the weighted engines: thread t computes its block
      of the weighted split of [0, N) by column `col` of `rates` and leaves
      its private sum in partials[t]. */
  method WeightedPartials(rates: seq<seq<nat>>, col: nat, n: nat, parts: nat) returns (partials: seq<real>)
    requires HasColumn(rates, col) && 0 < parts <= |rates|
    requires ColumnSum(rates, col, parts) <= 10000
    ensures |partials| == parts
    ensures SumSeq(partials) == Sum(Term, 0, n)
  {
    partials := [];
    var t := 0;
    while t < parts
      invariant t <= parts && |partials| == t
      invariant SumSeq(partials) == Sum(Term, 0, WeightedBoundary(rates, col, n, parts, t))
    {
      var d := WeightedDistribution(rates, col, parts, t, n);
      var localPi := ThreadBlock(d.start, d.end);
      WeightedSumStep(Term, rates, col, n, parts, t);
      SumSeqAppend(partials, localPi);
      partials := partials + [localPi];
      t := t + 1;
    }
  }

  /** The engine of ChudnovskyAlgorithmFV.c: thread t runs the weighted
      block getDistribution gives it, from column threads / 4 of the inline
      table. */
  method ParallelWeighted(pi: real, n: nat, threads: nat, order: seq<nat>, root: real) returns (r: Closed)
    requires 1 <= threads <= 16 && IsAdmissionOrder(order, threads) && IsSqrtE(root)
    ensures r == Close(pi + Sum(Term, 0, n), root)
  {
    WorkRatesFit(threads);
    var partials := WeightedPartials(WorkRates, threads / 4, n, threads);
    var total := Accumulate(pi, partials, order);
    r := Close(total, root);
  }

  /** Process p of the MPI engine: its threads split the process block
      (with the process's nominal block size as span) and add their private
      sums into local_proc_pi in `order`. */
  method ProcessPart(n: nat, procs: nat, p: nat, threads: nat, order: seq<nat>) returns (localProcPi: real)
    requires procs > 0 && threads > 0 && IsAdmissionOrder(order, threads)
    ensures var pb := ClampedBlock(0, n, n, procs, p);
      localProcPi == Sum(Term, pb.start, pb.end)
  {
    var pb := ClampedBlock(0, n, n, procs, p);
    var partials := ClampedPartials(pb.start, pb.end, pb.size, threads);
    localProcPi := Accumulate(0.0, partials, order);
  }

  /** The MPI engine seen from rank 0: every process computes its part, the
      reduction adds the parts in `procOrder`, and rank 0 closes the sum. */
  method Mpi(n: nat, procs: nat, threads: nat, procOrder: seq<nat>, threadOrders: seq<seq<nat>>, root: real)
    returns (r: Closed)
    requires procs > 0 && threads > 0 && IsSqrtE(root)
    requires IsAdmissionOrder(procOrder, procs)
    requires |threadOrders| == procs
    requires forall p :: 0 <= p < procs ==> IsAdmissionOrder(threadOrders[p], threads)
    ensures r == Close(Sum(Term, 0, n), root)
  {
    var parts: seq<real> := [];
    var p := 0;
    while p < procs
      invariant p <= procs && |parts| == p
      invariant SumSeq(parts) == Sum(Term, 0, ClampedBoundary(0, n, n, procs, p))
    {
      var part := ProcessPart(n, procs, p, threads, threadOrders[p]);
      ClampedSumStep(Term, 0, n, n, procs, p);
      SumSeqAppend(parts, part);
      parts := parts + [part];
      p := p + 1;
    }
    ClampedBoundaryEnds(0, n, n, procs);
    var total := Accumulate(0.0, parts, procOrder);
    r := Close(total, root);
  }
}
