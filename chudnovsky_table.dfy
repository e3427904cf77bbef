/** The factorial-table variant of the Chudnovsky engines
    (ChudnovskyAlgorithmV1.c): every factorial the iterations need is
    computed once into an array, and an iteration carries five dependencies
      dep_a = (6n)!, dep_b = (n!)^3, dep_c = (3n)!, dep_d = (-640320)^(3n),
      dep_e = 545140134 n + 13591409,
    reading the first three from the table after every index. */
module ChudnovskyTable {
  import opened Math
  import opened Series
  import opened Blocks
  import opened Reduction
  import opened Chudnovsky

  /** The table holds n! at every position n. */
  predicate IsFactorialTable(factorials: array<real>)
    reads factorials
  {
    forall k :: 0 <= k < factorials.Length ==> factorials[k] == Fact(k) as real
  }

  /** getFactorials: positions 0 .. numFactorials receive 0! .. numFactorials!,
      each the running product of the one before and its index. */
  method GetFactorials(factorials: array<real>, numFactorials: nat)
    requires numFactorials < factorials.Length
    modifies factorials
    ensures forall k :: 0 <= k <= numFactorials ==> factorials[k] == Fact(k) as real
    ensures forall k :: numFactorials < k < factorials.Length ==> factorials[k] == old(factorials[k])
  {
    var f := 1.0;
    factorials[0] := 1.0;
    var i := 1;
    while i <= numFactorials
      invariant 1 <= i <= numFactorials + 1
      invariant f == Fact(i - 1) as real
      invariant forall k :: 0 <= k < i ==> factorials[k] == Fact(k) as real
      invariant forall k :: i <= k < factorials.Length ==> factorials[k] == old(factorials[k])
    {
      FactStep(i);
      f := Scale(i, f);
      factorials[i] := f;
      i := i + 1;
    }
  }

  /** i! from (i - 1)! as `mpfr_mul_ui` forms it. */
  lemma {:induction false} FactStep(i: nat)
    requires i > 0
    ensures Scale(i, Fact(i - 1) as real) == Fact(i) as real
  {
    RealOfProduct(i, Fact(i - 1));
  }

  /** The quantity ChudnovskyIteration adds: (dep_a dep_e) / ((dep_b dep_c) dep_d). */
  function TableTerm(depA: real, depB: real, depC: real, depD: real, depE: real): real
    requires Times(Times(depB, depC), depD) != 0.0
  {
    Quot(Times(depA, depE), Times(Times(depB, depC), depD))
  }

  /** The five dependencies hold their values for index n. */
  predicate AtIndex(n: nat, depA: real, depB: real, depC: real, depD: real, depE: real)
  {
    depA == Fact(6 * n) as real && depB == Pow(Fact(n) as real, 3) && depC == Fact(3 * n) as real
    && depD == DepB(n) && depE == DepC(n)
  }

  /** (n!)^3 as `mpfr_pow_ui` computes it from the table entry. */
  lemma {:induction false} CubeOfFact(n: nat)
    ensures Pow(Fact(n) as real, 3) == Cube(Fact(n)) as real
  {
    PowOfInt(Fact(n), 3);
    IPowCube(Fact(n));
  }

  /** With the dependencies of index n, the five-dependency quotient is term
      n of the series. */
  lemma {:induction false} TableTermIsTerm(n: nat, depA: real, depB: real, depC: real, depD: real, depE: real)
    ensures AtIndex(n, depA, depB, depC, depD, depE) ==>
      Times(Times(depB, depC), depD) != 0.0 && TableTerm(depA, depB, depC, depD, depE) == Term(n)
  {
    if AtIndex(n, depA, depB, depC, depD, depE) {
      TermAtIndex(n);
    }
  }

  /** The five-dependency quotient at the values of index n. */
  lemma {:induction false} TermAtIndex(n: nat)
    ensures var f := Fact(n) as real;
      Times(Times(Pow(f, 3), Fact(3 * n) as real), DepB(n)) != 0.0
      && TableTerm(Fact(6 * n) as real, Pow(f, 3), Fact(3 * n) as real, DepB(n), DepC(n)) == Term(n)
  {
    CubeOfFact(n);
    DepBInt(n);
    ProductsAsReal(Fact(6 * n), B * n + A, Cube(Fact(n)), Fact(3 * n), IPow(-(C as int), 3 * n));
  }

  /** The products of the iteration, formed on integer-valued reals, are the
      integer products. */
  lemma {:induction false} ProductsAsReal(x: int, e: int, fc: int, f3: int, p: int)
    ensures Times(x as real, e as real) == (x * e) as real
    ensures Times(Times(fc as real, f3 as real), p as real) == ((f3 * fc) * p) as real
  {
    RealOfProduct(x, e);
    RealOfProduct(fc, f3);
    RealOfProduct(fc * f3, p);
    assert fc * f3 == f3 * fc;
  }

  /** One ChudnovskyIteration: with the dependencies of index n it adds
      term n to pi. */
  function Iteration(pi: real, n: nat, depA: real, depB: real, depC: real, depD: real, depE: real): (r: real)
    requires Times(Times(depB, depC), depD) != 0.0
    ensures AtIndex(n, depA, depB, depC, depD, depE) ==> r == pi + Term(n)
  {
    TableTermIsTerm(n, depA, depB, depC, depD, depE);
    pi + TableTerm(depA, depB, depC, depD, depE)
  }

  /** Reading the dependencies of index i + 1 from the table (and advancing
      dep_d and dep_e) gives the values of index i + 1. */
  lemma {:induction false} NextFromTable(factorials: array<real>, i: nat, depD: real, depE: real)
    requires IsFactorialTable(factorials) && 6 * (i + 1) < factorials.Length
    requires depD == DepB(i) && depE == DepC(i)
    ensures AtIndex(i + 1, factorials[6 * (i + 1)], Pow(factorials[i + 1], 3), factorials[3 * (i + 1)],
      depD * CubeC, depE + B as real)
  {
    DepBNext(depD, i);
    DepCNext(depE, i);
  }

  /** The sequential engine: a table of 6N + 3 entries, the dependencies of
      index 0 set to 1, 1, 1, 1, 13591409, N iterations added onto pi, and
      the sum closed. */
  method Sequential(pi: real, n: nat, root: real) returns (r: Closed)
    requires IsSqrtE(root)
    ensures r == Close(pi + Sum(Term, 0, n), root)
  {
    var numFactorials := n * 6 + 2;
    var factorials := new real[numFactorials + 1];
    GetFactorials(factorials, numFactorials);
    var depA, depB, depC, depD, depE := 1.0, 1.0, 1.0, 1.0, A as real;
    assert Pow(1.0, 3) == 1.0;
    var acc := pi;
    var i := 0;
    while i < n
      invariant i <= n
      invariant IsFactorialTable(factorials)
      invariant AtIndex(i, depA, depB, depC, depD, depE)
      invariant acc == pi + Sum(Term, 0, i)
    {
      TableTermIsTerm(i, depA, depB, depC, depD, depE);
      acc := Iteration(acc, i, depA, depB, depC, depD, depE);
      NextFromTable(factorials, i, depD, depE);
      depA := factorials[6 * (i + 1)];
      depB := Pow(factorials[i + 1], 3);
      depC := factorials[3 * (i + 1)];
      depD := depD * CubeC;
      depE := depE + B as real;
      i := i + 1;
    }
    r := Close(acc, root);
  }

  /** The loop of one thread of the parallel engine over [start, end),
      seeded from the table at start: dep_d = (-640320)^(3 start) and
      dep_e = B start + A computed in MPFR. */
  method ThreadBlock(factorials: array<real>, start: nat, end: nat) returns (localPi: real)
    requires IsFactorialTable(factorials) && 6 * end < factorials.Length && start <= end
    ensures localPi == Sum(Term, start, end)
  {
    localPi := 0.0;
    var depA := factorials[start * 6];
    var depB := Pow(factorials[start], 3);
    var depC := factorials[start * 3];
    var depD := Pow(-(C as real), start * 3);
    PowOfInt(-(C as int), 3 * start);
    DepBInt(start);
    var depE := (B as real) * (start as real) + A as real;
    DepCSeed(start);
    var i := start;
    while i < end
      invariant start <= i <= end
      invariant AtIndex(i, depA, depB, depC, depD, depE)
      invariant localPi == Sum(Term, start, i)
    {
      TableTermIsTerm(i, depA, depB, depC, depD, depE);
      localPi := Iteration(localPi, i, depA, depB, depC, depD, depE);
      NextFromTable(factorials, i, depD, depE);
      depA := factorials[6 * (i + 1)];
      depB := Pow(factorials[i + 1], 3);
      depC := factorials[3 * (i + 1)];
      depD := depD * CubeC;
      depE := depE + B as real;
      i := i + 1;
    }
  }

  /** The thread phase of the parallel engine: thread t runs block t of the
      split with start and end clamped to N, reading the shared table, and
      leaves its private sum in partials[t]. */
  method TablePartials(factorials: array<real>, n: nat, threads: nat) returns (partials: seq<real>)
    requires threads > 0 && IsFactorialTable(factorials) && factorials.Length == 6 * n + 1
    ensures |partials| == threads
    ensures SumSeq(partials) == Sum(Term, 0, n)
  {
    partials := [];
    var t := 0;
    while t < threads
      invariant t <= threads && |partials| == t
      invariant SumSeq(partials) == Sum(Term, 0, StartEndBoundary(n, threads, t))
    {
      var b := StartEndClampedBlock(n, threads, t);
      var localPi := ThreadBlock(factorials, b.start, b.end);
      StartEndSumStep(Term, n, threads, t);
      SumSeqAppend(partials, localPi);
      partials := partials + [localPi];
      t := t + 1;
    }
    StartEndBoundaryEnds(n, threads);
  }

  /** The parallel engine: a table of 6N + 1 entries, the thread phase, and
      the private sums added into pi in `order` before the closing. */
  method Parallel(pi: real, n: nat, threads: nat, order: seq<nat>, root: real) returns (r: Closed)
    requires threads > 0 && IsAdmissionOrder(order, threads) && IsSqrtE(root)
    ensures r == Close(pi + Sum(Term, 0, n), root)
  {
    var numFactorials := n * 6;
    var factorials := new real[numFactorials + 1];
    GetFactorials(factorials, numFactorials);
    var partials := TablePartials(factorials, n, threads);
    var total := Accumulate(pi, partials, order);
    r := Close(total, root);
  }
}
