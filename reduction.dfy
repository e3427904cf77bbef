/** Combining worker partial sums. Inside a process every thread adds its
    `local_pi` into a shared accumulator under `#pragma omp critical`; across
    processes `MPI_Reduce` combines the process sums with a user-defined `add`.
    Either way the order in which contributions arrive is not fixed; with
    exact arithmetic the model shows the order does not matter. */
module Reduction {
  import opened Math

  /** xs[0] + xs[1] + ... + xs[|xs| - 1]. */
  function SumSeq(xs: seq<real>): real
  {
    if xs == [] then 0.0 else SumSeq(xs[..|xs| - 1]) + xs[|xs| - 1]
  }

  lemma {:induction false} SumSeqAppend(xs: seq<real>, x: real)
    ensures SumSeq(xs + [x]) == SumSeq(xs) + x
  {
    assert (xs + [x])[..|xs|] == xs;
  }

  /** The worker ids 0, 1, ..., n - 1. */
  function Ids(n: nat): (r: seq<nat>)
    ensures |r| == n
    ensures forall k :: 0 <= k < n ==> r[k] == k
  {
    seq(n, k => k)
  }

  predicate InBounds(order: seq<nat>, n: nat)
  {
    forall k :: 0 <= k < |order| ==> order[k] < n
  }

  /** `order` lists each of the n worker ids exactly once: one possible
      sequence of admissions to the critical section (or of arrivals at the
      reduction). */
  predicate IsAdmissionOrder(order: seq<nat>, n: nat)
  {
    InBounds(order, n) && multiset(order) == multiset(Ids(n))
  }

  /** The sum of the partials taken in the order `order` lists them. */
  function SumInOrder(partials: seq<real>, order: seq<nat>): real
    requires InBounds(order, |partials|)
  {
    if order == [] then 0.0
    else SumInOrder(partials, order[..|order| - 1]) + partials[order[|order| - 1]]
  }

  lemma {:induction false} SumInOrderAppend(partials: seq<real>, a: seq<nat>, b: seq<nat>)
    requires InBounds(a, |partials|) && InBounds(b, |partials|)
    ensures InBounds(a + b, |partials|)
    ensures SumInOrder(partials, a + b) == SumInOrder(partials, a) + SumInOrder(partials, b)
    decreases |b|
  {
    if b != [] {
      var b' := b[..|b| - 1];
      assert (a + b)[..|a + b| - 1] == a + b';
      SumInOrderAppend(partials, a, b');
    } else {
      assert a + b == a;
    }
  }

  /** Taking the entry at position j out of an order takes its term out of the sum. */
  lemma {:induction false} SumInOrderRemove(partials: seq<real>, o: seq<nat>, j: nat)
    requires InBounds(o, |partials|) && j < |o|
    ensures InBounds(o[..j] + o[j + 1..], |partials|)
    ensures SumInOrder(partials, o) == SumInOrder(partials, o[..j] + o[j + 1..]) + partials[o[j]]
  {
    var left, right := o[..j], o[j + 1..];
    assert o == (left + [o[j]]) + right;
    SumInOrderAppend(partials, left + [o[j]], right);
    SumInOrderAppend(partials, left, [o[j]]);
    SumInOrderAppend(partials, left, right);
    assert [o[j]][..0] == [];
  }

  lemma {:induction false} MultisetRemove(o: seq<nat>, j: nat)
    requires j < |o|
    ensures multiset(o[..j] + o[j + 1..]) == multiset(o) - multiset{o[j]}
  {
    assert o == o[..j] + [o[j]] + o[j + 1..];
  }

  /** Two orders that list the same ids give the same sum. */
  lemma {:induction false} SumInOrderPermutation(partials: seq<real>, o1: seq<nat>, o2: seq<nat>)
    requires InBounds(o1, |partials|) && InBounds(o2, |partials|)
    requires multiset(o1) == multiset(o2)
    ensures SumInOrder(partials, o1) == SumInOrder(partials, o2)
    decreases |o1|
  {
    if o1 == [] {
      assert |multiset(o2)| == 0;
    } else {
      var last := |o1| - 1;
      var x := o1[last];
      assert x in multiset(o2);
      var j :| 0 <= j < |o2| && o2[j] == x;
      var rest1 := o1[..last] + o1[last + 1..];
      var rest2 := o2[..j] + o2[j + 1..];
      MultisetRemove(o1, last);
      MultisetRemove(o2, j);
      SumInOrderRemove(partials, o1, last);
      SumInOrderRemove(partials, o2, j);
      SumInOrderPermutation(partials, rest1, rest2);
    }
  }

  lemma {:induction false} SumInIdOrder(partials: seq<real>, n: nat)
    requires n <= |partials|
    ensures InBounds(Ids(n), |partials|)
    ensures SumInOrder(partials, Ids(n)) == SumSeq(partials[..n])
  {
    if n > 0 {
      SumInIdOrder(partials, n - 1);
      assert Ids(n)[..n - 1] == Ids(n - 1);
      assert partials[..n][..n - 1] == partials[..n - 1];
    }
  }

  /** Taken in any admission order, the partials add up to their plain sum. */
  lemma {:induction false} SumInAnyOrder(partials: seq<real>, order: seq<nat>)
    requires IsAdmissionOrder(order, |partials|)
    ensures SumInOrder(partials, order) == SumSeq(partials)
  {
    SumInIdOrder(partials, |partials|);
    assert partials[..|partials|] == partials;
    SumInOrderPermutation(partials, order, Ids(|partials|));
  }

  /** The critical section `pi += local_pi` executed once per worker, in the
      admission order `order`, starting from the shared value `shared`. */
  method Accumulate(shared: real, partials: seq<real>, order: seq<nat>) returns (total: real)
    requires IsAdmissionOrder(order, |partials|)
    ensures total == shared + SumSeq(partials)
  {
    total := shared;
    var k := 0;
    while k < |order|
      invariant 0 <= k <= |order|
      invariant total == shared + SumInOrder(partials, order[..k])
    {
      assert order[..k + 1][..k] == order[..k];
      total := total + partials[order[k]];
      k := k + 1;
    }
    assert order[..|order|] == order;
    SumInAnyOrder(partials, order);
  }

  // ---------------------------------------------------------------------
  // The packets the MPI reduction exchanges

  /** d_elements: the number of 64-bit limbs (GMP_NUMB_BITS on an LP64
      target) that hold a mantissa of `prec` bits, the C code's ceiling of
      prec / 64. */
  function Limbs(prec: nat): (r: nat)
    ensures r * 64 >= prec
    ensures r > 0 ==> (r - 1) * 64 < prec
  {
    CeilDiv(prec, 64)
  }

  /** packet_size = 8 + sizeof(mpfr_exp_t) + d_elements * sizeof(mp_limb_t)
      with 8-byte exponents and limbs: 16 header bytes, and a mantissa area
      that holds all `prec` bits and wastes less than one limb. */
  function PacketSize(prec: nat): (r: nat)
    ensures r >= 16
    ensures 8 * (r - 16) >= prec
    ensures prec > 0 ==> 8 * (r - 16) < prec + 64
  {
    8 + 8 + Limbs(prec) * 8
  }
}
