/** How the engines cut the iteration space [0, N) among processes and
    threads. Every split yields the triple the C code calls
    `distribution`/`block_*`: a size, a first index and an end index; a worker
    runs `for (i = start; i < end; i++)`. */
module Blocks {
  import opened Math
  import opened Series

  /** distribution[0], distribution[1], distribution[2]. */
  datatype Block = Block(size: nat, start: nat, end: nat)
  {
    /** The worker owning this block runs index i. */
    predicate Runs(i: nat)
    {
      start <= i < end
    }
  }

  // ---------------------------------------------------------------------
  // Uniform split with every end clamped

  /** Block `id` when the `span` indices from `lo` on are cut into `parts`
      blocks of ceil(span / parts) indices and every end is clamped to `hi`.
      With lo = 0 and hi = span = N it is the process split of the MPI engines
      and the thread split of the OpenMP engine; with lo, hi, span the
      process block's start, end and size it is the nested thread split. */
  function ClampedBlock(lo: nat, hi: nat, span: nat, parts: nat, id: nat): (b: Block)
    requires parts > 0
    ensures b.size * parts >= span
    ensures b.start == lo + id * b.size
    ensures b.end <= hi && b.end <= b.start + b.size
  {
    var size := CeilDiv(span, parts);
    var start := lo + id * size;
    Block(size, start, if start + size > hi then hi else start + size)
  }

  lemma {:induction false} MulMonotone(a: nat, b: nat, s: nat)
    requires a <= b
    ensures a * s <= b * s
  {
    assert b * s == a * s + (b - a) * s;
  }

  /** k is the quotient of d by s when d lies in [k s, k s + s). */
  lemma {:induction false} DivUnique(d: nat, s: nat, k: nat)
    requires s > 0 && k * s <= d < k * s + s
    ensures d / s == k
  {
    var q, r := d / s, d % s;
    assert d == q * s + r && 0 <= r < s;
    if q < k {
      MulMonotone(q + 1, k, s);
      assert false;
    } else if q > k {
      MulMonotone(k + 1, q, s);
      assert false;
    }
  }

  /** The quotient of d by s, times s, lies in (d - s, d]. */
  lemma {:induction false} DivBounds(d: nat, s: nat)
    requires s > 0
    ensures (d / s) * s <= d < (d / s) * s + s
  {
    assert d == (d / s) * s + d % s;
  }

  /** d = k s + r with 0 <= r < s determines the quotient and remainder. */
  lemma {:induction false} ModUnique(d: nat, s: nat, k: nat, r: nat)
    requires s > 0 && r < s && d == k * s + r
    ensures d / s == k && d % s == r
  {
    DivUnique(d, s, k);
    assert d == (d / s) * s + d % s;
  }

  /** Inside [lo, hi), where hi - lo <= span, block `id` runs index i exactly
      when id is (i - lo) / ceil(span / parts). */
  lemma {:induction false} ClampedOwner(lo: nat, hi: nat, span: nat, parts: nat, id: nat, i: nat)
    requires parts > 0 && lo <= i < hi <= lo + span
    ensures ClampedBlock(lo, hi, span, parts, id).Runs(i) <==> id == (i - lo) / CeilDiv(span, parts)
  {
    var s, d := CeilDiv(span, parts), i - lo;
    var b := ClampedBlock(lo, hi, span, parts, id);
    assert s > 0;
    if id == d / s {
      assert d == id * s + d % s;
      assert b.start <= i < b.start + s;
    }
    if b.Runs(i) {
      DivUnique(d, s, id);
    }
  }

  /** ... and that block is one of the `parts` blocks, so exactly one block
      runs each index of [lo, hi). */
  lemma {:induction false} ClampedExactlyOne(lo: nat, hi: nat, span: nat, parts: nat, i: nat)
    requires parts > 0 && lo <= i < hi <= lo + span
    ensures (i - lo) / CeilDiv(span, parts) < parts
    ensures forall id :: 0 <= id < parts ==>
      (ClampedBlock(lo, hi, span, parts, id).Runs(i) <==> id == (i - lo) / CeilDiv(span, parts))
  {
    var s, d := CeilDiv(span, parts), i - lo;
    var q := d / s;
    if q >= parts {
      MulMonotone(parts, q, s);
      assert false;
    }
    forall id | 0 <= id < parts
      ensures ClampedBlock(lo, hi, span, parts, id).Runs(i) <==> id == q
    {
      ClampedOwner(lo, hi, span, parts, id, i);
    }
  }

  /** Where block t of the clamped split begins, clamped to hi: the blocks
      before t cover exactly [lo, ClampedBoundary(.., t)). */
  function ClampedBoundary(lo: nat, hi: nat, span: nat, parts: nat, t: nat): nat
    requires parts > 0
  {
    Min(lo + t * CeilDiv(span, parts), hi)
  }

  /** Adding block t to the sum over the blocks before it gives the sum up to
      the next boundary: the blocks tile [lo, hi) in order. */
  lemma {:induction false} ClampedSumStep(f: nat -> real, lo: nat, hi: nat, span: nat, parts: nat, t: nat)
    requires parts > 0
    ensures var b := ClampedBlock(lo, hi, span, parts, t);
      Sum(f, lo, ClampedBoundary(lo, hi, span, parts, t)) + Sum(f, b.start, b.end)
        == Sum(f, lo, ClampedBoundary(lo, hi, span, parts, t + 1))
  {
    var s, b := CeilDiv(span, parts), ClampedBlock(lo, hi, span, parts, t);
    assert (t + 1) * s == t * s + s;
    if lo + t * s < hi {
      SumSplit(f, lo, lo + t * s, b.end);
    }
  }

  /** Before the first block the boundary is lo (or hi, when the range is
      empty); after all `parts` blocks it has reached hi. */
  lemma {:induction false} ClampedBoundaryEnds(lo: nat, hi: nat, span: nat, parts: nat)
    requires parts > 0 && hi <= lo + span
    ensures ClampedBoundary(lo, hi, span, parts, 0) == Min(lo, hi)
    ensures ClampedBoundary(lo, hi, span, parts, parts) == hi
  {
    assert CeilDiv(span, parts) * parts >= span;
  }

  /** The thread block of thread t of process p when N indices go to P
      processes and each process block to T threads. */
  function NestedBlock(n: nat, procs: nat, threads: nat, p: nat, t: nat): Block
    requires procs > 0 && threads > 0
  {
    var pb := ClampedBlock(0, n, n, procs, p);
    ClampedBlock(pb.start, pb.end, pb.size, threads, t)
  }

  /** A block of the clamped split lies inside [lo, hi). */
  lemma {:induction false} ClampedInside(lo: nat, hi: nat, span: nat, parts: nat, id: nat, i: nat)
    requires parts > 0
    ensures ClampedBlock(lo, hi, span, parts, id).Runs(i) ==> lo <= i < hi
  {
  }

  /** Every index below N is run by exactly one (process, thread) pair. */
  lemma {:induction false} NestedExactlyOne(n: nat, procs: nat, threads: nat, i: nat)
    requires procs > 0 && threads > 0 && i < n
    ensures var p := i / CeilDiv(n, procs);
      p < procs &&
      var pb := ClampedBlock(0, n, n, procs, p);
      var t := (i - pb.start) / CeilDiv(pb.size, threads);
      t < threads &&
      forall q, u :: 0 <= q < procs && 0 <= u < threads ==>
        (NestedBlock(n, procs, threads, q, u).Runs(i) <==> q == p && u == t)
  {
    ClampedExactlyOne(0, n, n, procs, i);
    var p := i / CeilDiv(n, procs);
    var pb := ClampedBlock(0, n, n, procs, p);
    ClampedOwner(0, n, n, procs, p, i);
    ClampedExactlyOne(pb.start, pb.end, pb.size, threads, i);
    var t := (i - pb.start) / CeilDiv(pb.size, threads);
    forall q, u | 0 <= q < procs && 0 <= u < threads
      ensures NestedBlock(n, procs, threads, q, u).Runs(i) <==> q == p && u == t
    {
      var qb := ClampedBlock(0, n, n, procs, q);
      ClampedInside(qb.start, qb.end, qb.size, threads, u, i);
      ClampedOwner(0, n, n, procs, q, i);
      if q == p {
        ClampedOwner(pb.start, pb.end, pb.size, threads, u, i);
      }
    }
  }

  // ---------------------------------------------------------------------
  // Uniform split with only the last end clamped

  /** The split of ChudnovskyAlgorithm.c: ceil(N / T) indices per thread,
      and only the last thread's end is set to N. */
  function LastClampedBlock(n: nat, parts: nat, id: nat): (b: Block)
    requires parts > 0
    ensures b.size * parts >= n
    ensures b.start == id * b.size
    ensures id != parts - 1 ==> b.end == b.start + b.size
    ensures id == parts - 1 ==> b.end == n
  {
    var size := CeilDiv(n, parts);
    var start := id * size;
    Block(size, start, if id == parts - 1 then n else start + size)
  }

  /** The index the non-last threads of that split reach: N when the last
      block is not empty, (T - 1) ceil(N / T) otherwise. */
  function LastClampedReach(n: nat, parts: nat): nat
    requires parts > 0
  {
    Max(n, (parts - 1) * CeilDiv(n, parts))
  }

  /** The boundary before block t of that split. */
  function LastClampedBoundary(n: nat, parts: nat, t: nat): nat
    requires parts > 0
  {
    if t >= parts then LastClampedReach(n, parts) else t * CeilDiv(n, parts)
  }

  lemma {:induction false} LastClampedSumStep(f: nat -> real, n: nat, parts: nat, t: nat)
    requires 0 <= t < parts
    ensures var b := LastClampedBlock(n, parts, t);
      Sum(f, 0, LastClampedBoundary(n, parts, t)) + Sum(f, b.start, b.end)
        == Sum(f, 0, LastClampedBoundary(n, parts, t + 1))
  {
    var s, b := CeilDiv(n, parts), LastClampedBlock(n, parts, t);
    if t < parts - 1 {
      assert (t + 1) * s == t * s + s;
      SumSplit(f, 0, t * s, t * s + s);
    } else if t * s <= n {
      SumSplit(f, 0, t * s, n);
    }
  }

  /** No index is run by two threads of that split. */
  lemma {:induction false} LastClampedDisjoint(n: nat, parts: nat, id1: nat, id2: nat, i: nat)
    requires id1 < parts && id2 < parts
    requires LastClampedBlock(n, parts, id1).Runs(i) && LastClampedBlock(n, parts, id2).Runs(i)
    ensures id1 == id2
  {
    var s := CeilDiv(n, parts);
    if id1 < id2 {
      assert (id1 + 1) * s == id1 * s + s;
      MulMonotone(id1 + 1, id2, s);
      assert false;
    } else if id2 < id1 {
      assert (id2 + 1) * s == id2 * s + s;
      MulMonotone(id2 + 1, id1, s);
      assert false;
    }
  }

  /** The indices that split runs are exactly [0, LastClampedReach). */
  lemma {:induction false} LastClampedCovers(n: nat, parts: nat, i: nat)
    requires parts > 0
    ensures (exists id :: 0 <= id < parts && LastClampedBlock(n, parts, id).Runs(i))
      <==> i < LastClampedReach(n, parts)
  {
    if i < LastClampedReach(n, parts) {
      var id := LastClampedOwner(n, parts, i);
    } else {
      forall id | 0 <= id < parts
        ensures !LastClampedBlock(n, parts, id).Runs(i)
      {
        LastClampedBelowReach(n, parts, id);
      }
    }
  }

  /** Every block of that split ends at or before LastClampedReach. */
  lemma {:induction false} LastClampedBelowReach(n: nat, parts: nat, id: nat)
    requires id < parts
    ensures LastClampedBlock(n, parts, id).end <= LastClampedReach(n, parts)
  {
    var s := CeilDiv(n, parts);
    if id < parts - 1 {
      MulMonotone(id + 1, parts - 1, s);
      assert (id + 1) * s == id * s + s;
    }
  }

  /** An index below LastClampedReach has a block that runs it. */
  lemma {:induction false} LastClampedOwner(n: nat, parts: nat, i: nat) returns (id: nat)
    requires parts > 0 && i < LastClampedReach(n, parts)
    ensures id < parts && LastClampedBlock(n, parts, id).Runs(i)
  {
    var s := CeilDiv(n, parts);
    assert s > 0;
    DivBounds(i, s);
    var q, last := i / s, parts - 1;
    if q < last {
      id := q;
      var b := LastClampedBlock(n, parts, id);
      assert b.start == q * s && b.end == q * s + s;
    } else {
      MulMonotone(last, q, s);
      id := last;
      var b := LastClampedBlock(n, parts, id);
      assert b.start == last * s <= i;
      assert i < n;
    }
  }

  /** The input that shows the missing clamp: with N = 5 and T = 4 the
      blocks are [0,2), [2,4), [4,6), [6,5), so thread 2 runs index 5 >= N. */
  lemma {:induction false} LastClampedOverrun()
    ensures LastClampedBlock(5, 4, 2) == Block(2, 4, 6)
    ensures LastClampedBlock(5, 4, 2).Runs(5)
    ensures LastClampedReach(5, 4) == 6
  {
  }

  // ---------------------------------------------------------------------
  // Uniform split with start and end clamped

  /** The split of ChudnovskyAlgorithmV1.c: both the start and the end are
      clamped to N, so every block lies inside [0, N). */
  function StartEndClampedBlock(n: nat, parts: nat, id: nat): (b: Block)
    requires parts > 0
    ensures b.start <= b.end <= n
    ensures b.size * parts >= n
  {
    var size := CeilDiv(n, parts);
    var start := if id * size > n then n else id * size;
    Block(size, start, if start + size > n then n else start + size)
  }

  /** Clamping the start as well changes no block's index range. */
  lemma {:induction false} StartEndSameIndices(n: nat, parts: nat, id: nat, i: nat)
    requires parts > 0
    ensures StartEndClampedBlock(n, parts, id).Runs(i) <==> ClampedBlock(0, n, n, parts, id).Runs(i)
  {
  }

  /** Where block t of this split begins: the blocks before t cover exactly
      [0, StartEndBoundary(.., t)). */
  function StartEndBoundary(n: nat, parts: nat, t: nat): nat
    requires parts > 0
  {
    Min(t * CeilDiv(n, parts), n)
  }

  /** Adding block t to the sum over the blocks before it gives the sum up
      to the next boundary. */
  lemma {:induction false} StartEndSumStep(f: nat -> real, n: nat, parts: nat, t: nat)
    requires parts > 0
    ensures var b := StartEndClampedBlock(n, parts, t);
      Sum(f, 0, StartEndBoundary(n, parts, t)) + Sum(f, b.start, b.end) == Sum(f, 0, StartEndBoundary(n, parts, t + 1))
  {
    var s, b := CeilDiv(n, parts), StartEndClampedBlock(n, parts, t);
    assert (t + 1) * s == t * s + s;
    SumSplit(f, 0, b.start, b.end);
  }

  /** The first block starts at 0 and the last boundary is N. */
  lemma {:induction false} StartEndBoundaryEnds(n: nat, parts: nat)
    requires parts > 0
    ensures StartEndBoundary(n, parts, 0) == 0
    ensures StartEndBoundary(n, parts, parts) == n
  {
    assert CeilDiv(n, parts) * parts >= n;
  }

  // ---------------------------------------------------------------------
  // Cyclic split

  /** Thread t of `stride` threads starting at lo visits lo + t,
      lo + t + stride, ... below hi. */
  predicate CyclicVisits(lo: nat, hi: nat, stride: nat, t: nat, i: nat)
    requires stride > 0
  {
    lo + t <= i < hi && (i - (lo + t)) % stride == 0
  }

  /** Every index of [lo, hi) is visited by exactly one thread:
      the one numbered (i - lo) mod stride. */
  lemma {:induction false} CyclicExactlyOne(lo: nat, hi: nat, stride: nat, i: nat)
    requires stride > 0 && lo <= i < hi
    ensures forall t :: 0 <= t < stride ==>
      (CyclicVisits(lo, hi, stride, t, i) <==> t == (i - lo) % stride)
  {
    forall t | 0 <= t < stride
      ensures CyclicVisits(lo, hi, stride, t, i) <==> t == (i - lo) % stride
    {
      CyclicOwner(i - lo, stride, t);
    }
  }

  /** For an offset d from lo: thread t visits it exactly when d - t is a
      non-negative multiple of the stride, that is when t is d mod stride. */
  lemma {:induction false} CyclicOwner(d: nat, stride: nat, t: nat)
    requires stride > 0 && t < stride
    ensures (t <= d && (d - t) % stride == 0) <==> t == d % stride
  {
    var k, r := d / stride, d % stride;
    assert d == k * stride + r;
    if t == r {
      ModUnique(d - t, stride, k, 0);
    }
    if t <= d && (d - t) % stride == 0 {
      var j := (d - t) / stride;
      assert d - t == j * stride + (d - t) % stride;
      ModUnique(d, stride, j, t);
    }
  }

  // ---------------------------------------------------------------------
  // Weighted split

  /** Every row of the rate table has column `col`. */
  predicate HasColumn(rates: seq<seq<nat>>, col: nat)
  {
    forall r :: 0 <= r < |rates| ==> col < |rates[r]|
  }

  /** The iterations a thread gets for a rate given in hundredths of a
      percent: `rate * N / 100` truncated to an int. */
  function Share(rate: nat, n: nat): nat
  {
    rate * n / 10000
  }

  /** The share is the untruncated rate * N / 10000 rounded down. */
  lemma {:induction false} ShareBound(rate: nat, n: nat)
    ensures Share(rate, n) * 10000 <= rate * n < Share(rate, n) * 10000 + 10000
  {
    DivBounds(rate * n, 10000);
  }

  /** rates[0][col] + ... + rates[k - 1][col]. */
  function ColumnSum(rates: seq<seq<nat>>, col: nat, k: nat): nat
    requires HasColumn(rates, col) && k <= |rates|
  {
    if k == 0 then 0 else ColumnSum(rates, col, k - 1) + rates[k - 1][col]
  }

  /** The start of thread t: the shares of threads 0 .. t - 1 added up. */
  function WeightedStart(rates: seq<seq<nat>>, col: nat, n: nat, t: nat): nat
    requires HasColumn(rates, col) && t <= |rates|
  {
    if t == 0 then 0 else WeightedStart(rates, col, n, t - 1) + Share(rates[t - 1][col], n)
  }

  /** The block of thread `id` of `parts`: it starts after the other threads'
      shares, its end is start + share except for the last thread, whose end
      is N; the size field keeps the share even then. */
  function WeightedBlock(rates: seq<seq<nat>>, col: nat, n: nat, parts: nat, id: nat): Block
    requires HasColumn(rates, col) && id < parts && id < |rates|
  {
    var size := Share(rates[id][col], n);
    var start := WeightedStart(rates, col, n, id);
    Block(size, start, if id == parts - 1 then n else start + size)
  }

  lemma {:induction false} ColumnSumMonotone(rates: seq<seq<nat>>, col: nat, j: nat, k: nat)
    requires HasColumn(rates, col) && j <= k <= |rates|
    ensures ColumnSum(rates, col, j) <= ColumnSum(rates, col, k)
    decreases k
  {
    if j < k {
      ColumnSumMonotone(rates, col, j, k - 1);
    }
  }

  lemma {:induction false} WeightedStartMonotone(rates: seq<seq<nat>>, col: nat, n: nat, j: nat, k: nat)
    requires HasColumn(rates, col) && j <= k <= |rates|
    ensures WeightedStart(rates, col, n, j) <= WeightedStart(rates, col, n, k)
    decreases k
  {
    if j < k {
      WeightedStartMonotone(rates, col, n, j, k - 1);
    }
  }

  /** The truncated shares add up to at most the untruncated ones. */
  lemma {:induction false} WeightedStartBound(rates: seq<seq<nat>>, col: nat, n: nat, t: nat)
    requires HasColumn(rates, col) && t <= |rates|
    ensures WeightedStart(rates, col, n, t) * 10000 <= n * ColumnSum(rates, col, t)
  {
    if t > 0 {
      WeightedStartBound(rates, col, n, t - 1);
      var w := rates[t - 1][col];
      ShareBound(w, n);
      assert n * ColumnSum(rates, col, t) == n * ColumnSum(rates, col, t - 1) + w * n;
    }
  }

  /** When the rates of the threads in use add up to at most 100%, the last
      thread starts at or before N. */
  lemma {:induction false} WeightedLastStart(rates: seq<seq<nat>>, col: nat, n: nat, parts: nat)
    requires HasColumn(rates, col) && 0 < parts <= |rates|
    requires ColumnSum(rates, col, parts) <= 10000
    ensures WeightedStart(rates, col, n, parts - 1) <= n
  {
    var c := ColumnSum(rates, col, parts - 1);
    ColumnSumMonotone(rates, col, parts - 1, parts);
    WeightedStartBound(rates, col, n, parts - 1);
    MulMonotone(c, 10000, n);
    assert n * c == c * n;
  }

  /** When the rates of the threads in use add up to at most 100%, the
      weighted blocks tile [0, N): the first starts at 0, each non-last block
      ends where the next starts, the last ends at N, and every start lies
      in [0, N]. */
  lemma {:induction false} WeightedTiling(rates: seq<seq<nat>>, col: nat, n: nat, parts: nat)
    requires HasColumn(rates, col) && 0 < parts <= |rates|
    requires ColumnSum(rates, col, parts) <= 10000
    ensures WeightedBlock(rates, col, n, parts, 0).start == 0
    ensures forall id :: 0 <= id < parts - 1 ==>
      WeightedBlock(rates, col, n, parts, id).end == WeightedBlock(rates, col, n, parts, id + 1).start
    ensures WeightedBlock(rates, col, n, parts, parts - 1).end == n
    ensures forall id :: 0 <= id < parts ==>
      WeightedBlock(rates, col, n, parts, id).start <= WeightedBlock(rates, col, n, parts, id).end <= n
  {
    WeightedLastStart(rates, col, n, parts);
    forall id | 0 <= id < parts
      ensures WeightedBlock(rates, col, n, parts, id).start <= WeightedBlock(rates, col, n, parts, id).end <= n
    {
      WeightedStartMonotone(rates, col, n, id, parts - 1);
      if id < parts - 1 {
        WeightedStartMonotone(rates, col, n, id + 1, parts - 1);
      }
    }
  }

  /** Under the same condition every index below N is run by exactly one
      thread of the weighted split. */
  lemma {:induction false} WeightedExactlyOne(rates: seq<seq<nat>>, col: nat, n: nat, parts: nat, i: nat)
    requires HasColumn(rates, col) && 0 < parts <= |rates|
    requires ColumnSum(rates, col, parts) <= 10000
    requires i < n
    ensures exists id :: 0 <= id < parts && WeightedBlock(rates, col, n, parts, id).Runs(i)
    ensures forall id1, id2 :: (0 <= id1 < parts && 0 <= id2 < parts &&
      WeightedBlock(rates, col, n, parts, id1).Runs(i) &&
      WeightedBlock(rates, col, n, parts, id2).Runs(i)) ==> id1 == id2
  {
    WeightedTiling(rates, col, n, parts);
    WeightedCoverFrom(rates, col, n, parts, i, 0);
    forall id1, id2 | 0 <= id1 < parts && 0 <= id2 < parts &&
      WeightedBlock(rates, col, n, parts, id1).Runs(i) &&
      WeightedBlock(rates, col, n, parts, id2).Runs(i)
      ensures id1 == id2
    {
      if id1 < id2 {
        WeightedStartMonotone(rates, col, n, id1 + 1, id2);
      } else if id2 < id1 {
        WeightedStartMonotone(rates, col, n, id2 + 1, id1);
      }
    }
  }

  lemma {:induction false} WeightedCoverFrom(rates: seq<seq<nat>>, col: nat, n: nat, parts: nat, i: nat, id: nat)
    requires HasColumn(rates, col) && id < parts <= |rates|
    requires WeightedStart(rates, col, n, id) <= i < n
    ensures exists k :: id <= k < parts && WeightedBlock(rates, col, n, parts, k).Runs(i)
    decreases parts - id
  {
    var next := WeightedStart(rates, col, n, id + 1);
    assert next == WeightedStart(rates, col, n, id) + Share(rates[id][col], n);
    if id < parts - 1 && next <= i {
      WeightedCoverFrom(rates, col, n, parts, i, id + 1);
    } else {
      assert WeightedBlock(rates, col, n, parts, id).Runs(i);
    }
  }

  /** Where block t of the weighted split begins; after the last block, N. */
  function WeightedBoundary(rates: seq<seq<nat>>, col: nat, n: nat, parts: nat, t: nat): nat
    requires HasColumn(rates, col) && t <= parts <= |rates|
  {
    if t == parts then n else WeightedStart(rates, col, n, t)
  }

  /** Adding block t to the sum over the blocks before it gives the sum up to
      the next boundary. */
  lemma {:induction false} WeightedSumStep(f: nat -> real, rates: seq<seq<nat>>, col: nat, n: nat, parts: nat, t: nat)
    requires HasColumn(rates, col) && t < parts <= |rates|
    requires ColumnSum(rates, col, parts) <= 10000
    ensures var b := WeightedBlock(rates, col, n, parts, t);
      Sum(f, 0, WeightedBoundary(rates, col, n, parts, t)) + Sum(f, b.start, b.end)
        == Sum(f, 0, WeightedBoundary(rates, col, n, parts, t + 1))
  {
    WeightedTiling(rates, col, n, parts);
    var b := WeightedBlock(rates, col, n, parts, t);
    SumSplit(f, 0, b.start, b.end);
  }

  /** The work rates of ChudnovskyAlgorithmFV.c, in hundredths of a percent:
      row = thread id, column = number of threads / 4. */
  const WorkRates: seq<seq<nat>> := [
    [5950, 3500, 2135, 1575, 1277],
    [4050, 2450, 1435, 1050, 857],
    [0, 2100, 1225, 945, 753],
    [0, 1950, 1155, 840, 683],
    [0, 0, 1085, 775, 630],
    [0, 0, 1030, 765, 595],
    [0, 0, 1000, 735, 588],
    [0, 0, 935, 700, 577],
    [0, 0, 0, 675, 556],
    [0, 0, 0, 665, 525],
    [0, 0, 0, 655, 514],
    [0, 0, 0, 620, 508],
    [0, 0, 0, 0, 501],
    [0, 0, 0, 0, 497],
    [0, 0, 0, 0, 480],
    [0, 0, 0, 0, 459]
  ]

  /** The loop both weighted distributions share: the block of thread `id`
      of `parts` from column `col` of `rates`. The start adds up the shares
      of the threads before `id`; the last thread's end is N. */
  method WeightedDistribution(rates: seq<seq<nat>>, col: nat, parts: nat, id: nat, n: nat) returns (d: Block)
    requires HasColumn(rates, col) && id < parts && id < |rates|
    ensures d == WeightedBlock(rates, col, n, parts, id)
  {
    var size := Share(rates[id][col], n);
    var start := 0;
    var i := 0;
    while i < id
      invariant i <= id
      invariant start == WeightedStart(rates, col, n, i)
    {
      start := start + Share(rates[i][col], n);
      i := i + 1;
    }
    var end := start + size;
    if id == parts - 1 {
      end := n;
    }
    d := Block(size, start, end);
  }

  /** getDistribution of ChudnovskyAlgorithmFV.c: the weighted block of
      thread `id` of `threads`, read from column threads / 4 of the inline
      table. */
  method GetDistribution(threads: nat, id: nat, n: nat) returns (d: Block)
    requires 1 <= threads <= 16 && id < threads
    ensures d == WeightedBlock(WorkRates, threads / 4, n, threads, id)
  {
    assert HasColumn(WorkRates, threads / 4);
    d := WeightedDistribution(WorkRates, threads / 4, threads, id, n);
  }

  /** get_thread_distribution of Sources/OMP/Chudnovsky.c: a single thread
      gets all of [0, N); otherwise the weighted block of thread `id`, read
      from column threads / 4 of the 160 x 41 table of rates. */
  method GetThreadDistribution(rates: seq<seq<nat>>, threads: nat, id: nat, n: nat) returns (d: Block)
    requires |rates| == 160 && forall r :: 0 <= r < 160 ==> |rates[r]| == 41
    requires id < threads && id < 160 && threads / 4 < 41
    ensures HasColumn(rates, threads / 4)
    ensures threads == 1 ==> d == Block(n, 0, n)
    ensures threads != 1 ==> d == WeightedBlock(rates, threads / 4, n, threads, id)
  {
    assert HasColumn(rates, threads / 4);
    if threads == 1 {
      return Block(n, 0, n);
    }
    d := WeightedDistribution(rates, threads / 4, threads, id, n);
  }

  /** Each column of the table adds up to exactly 100%; so for any number of
      threads from 1 to 16 the rates in use add up to at most 100% and the
      weighted blocks tile [0, N). */
  lemma {:induction false} WorkRatesFit(parts: nat)
    requires 1 <= parts <= 16
    ensures |WorkRates| == 16 && HasColumn(WorkRates, parts / 4)
    ensures ColumnSum(WorkRates, parts / 4, 16) == 10000
    ensures ColumnSum(WorkRates, parts / 4, parts) <= 10000
  {
    var col := parts / 4;
    assert HasColumn(WorkRates, col);
    ColumnSumMonotone(WorkRates, col, parts, 16);
    if col == 0 {
      WorkRatesColumn0();
    } else if col == 1 {
      WorkRatesColumn1();
    } else if col == 2 {
      WorkRatesColumn2();
    } else if col == 3 {
      WorkRatesColumn3();
    } else {
      WorkRatesColumn4();
    }
  }

  lemma {:induction false} WorkRatesColumn0()
    requires HasColumn(WorkRates, 0)
    ensures ColumnSum(WorkRates, 0, 16) == 10000
  {
    assert ColumnSum(WorkRates, 0, 1) == 5950;
    assert ColumnSum(WorkRates, 0, 2) == 10000;
    assert ColumnSum(WorkRates, 0, 3) == 10000;
    assert ColumnSum(WorkRates, 0, 4) == 10000;
    assert ColumnSum(WorkRates, 0, 5) == 10000;
    assert ColumnSum(WorkRates, 0, 6) == 10000;
    assert ColumnSum(WorkRates, 0, 7) == 10000;
    assert ColumnSum(WorkRates, 0, 8) == 10000;
    assert ColumnSum(WorkRates, 0, 9) == 10000;
    assert ColumnSum(WorkRates, 0, 10) == 10000;
    assert ColumnSum(WorkRates, 0, 11) == 10000;
    assert ColumnSum(WorkRates, 0, 12) == 10000;
    assert ColumnSum(WorkRates, 0, 13) == 10000;
    assert ColumnSum(WorkRates, 0, 14) == 10000;
    assert ColumnSum(WorkRates, 0, 15) == 10000;
    assert ColumnSum(WorkRates, 0, 16) == 10000;
  }

  lemma {:induction false} WorkRatesColumn1()
    requires HasColumn(WorkRates, 1)
    ensures ColumnSum(WorkRates, 1, 16) == 10000
  {
    assert ColumnSum(WorkRates, 1, 1) == 3500;
    assert ColumnSum(WorkRates, 1, 2) == 5950;
    assert ColumnSum(WorkRates, 1, 3) == 8050;
    assert ColumnSum(WorkRates, 1, 4) == 10000;
    assert ColumnSum(WorkRates, 1, 5) == 10000;
    assert ColumnSum(WorkRates, 1, 6) == 10000;
    assert ColumnSum(WorkRates, 1, 7) == 10000;
    assert ColumnSum(WorkRates, 1, 8) == 10000;
    assert ColumnSum(WorkRates, 1, 9) == 10000;
    assert ColumnSum(WorkRates, 1, 10) == 10000;
    assert ColumnSum(WorkRates, 1, 11) == 10000;
    assert ColumnSum(WorkRates, 1, 12) == 10000;
    assert ColumnSum(WorkRates, 1, 13) == 10000;
    assert ColumnSum(WorkRates, 1, 14) == 10000;
    assert ColumnSum(WorkRates, 1, 15) == 10000;
    assert ColumnSum(WorkRates, 1, 16) == 10000;
  }

  lemma {:induction false} WorkRatesColumn2()
    requires HasColumn(WorkRates, 2)
    ensures ColumnSum(WorkRates, 2, 16) == 10000
  {
    assert ColumnSum(WorkRates, 2, 1) == 2135;
    assert ColumnSum(WorkRates, 2, 2) == 3570;
    assert ColumnSum(WorkRates, 2, 3) == 4795;
    assert ColumnSum(WorkRates, 2, 4) == 5950;
    assert ColumnSum(WorkRates, 2, 5) == 7035;
    assert ColumnSum(WorkRates, 2, 6) == 8065;
    assert ColumnSum(WorkRates, 2, 7) == 9065;
    assert ColumnSum(WorkRates, 2, 8) == 10000;
    assert ColumnSum(WorkRates, 2, 9) == 10000;
    assert ColumnSum(WorkRates, 2, 10) == 10000;
    assert ColumnSum(WorkRates, 2, 11) == 10000;
    assert ColumnSum(WorkRates, 2, 12) == 10000;
    assert ColumnSum(WorkRates, 2, 13) == 10000;
    assert ColumnSum(WorkRates, 2, 14) == 10000;
    assert ColumnSum(WorkRates, 2, 15) == 10000;
    assert ColumnSum(WorkRates, 2, 16) == 10000;
  }

  lemma {:induction false} WorkRatesColumn3()
    requires HasColumn(WorkRates, 3)
    ensures ColumnSum(WorkRates, 3, 16) == 10000
  {
    assert ColumnSum(WorkRates, 3, 1) == 1575;
    assert ColumnSum(WorkRates, 3, 2) == 2625;
    assert ColumnSum(WorkRates, 3, 3) == 3570;
    assert ColumnSum(WorkRates, 3, 4) == 4410;
    assert ColumnSum(WorkRates, 3, 5) == 5185;
    assert ColumnSum(WorkRates, 3, 6) == 5950;
    assert ColumnSum(WorkRates, 3, 7) == 6685;
    assert ColumnSum(WorkRates, 3, 8) == 7385;
    assert ColumnSum(WorkRates, 3, 9) == 8060;
    assert ColumnSum(WorkRates, 3, 10) == 8725;
    assert ColumnSum(WorkRates, 3, 11) == 9380;
    assert ColumnSum(WorkRates, 3, 12) == 10000;
    assert ColumnSum(WorkRates, 3, 13) == 10000;
    assert ColumnSum(WorkRates, 3, 14) == 10000;
    assert ColumnSum(WorkRates, 3, 15) == 10000;
    assert ColumnSum(WorkRates, 3, 16) == 10000;
  }

  lemma {:induction false} WorkRatesColumn4()
    requires HasColumn(WorkRates, 4)
    ensures ColumnSum(WorkRates, 4, 16) == 10000
  {
    assert ColumnSum(WorkRates, 4, 1) == 1277;
    assert ColumnSum(WorkRates, 4, 2) == 2134;
    assert ColumnSum(WorkRates, 4, 3) == 2887;
    assert ColumnSum(WorkRates, 4, 4) == 3570;
    assert ColumnSum(WorkRates, 4, 5) == 4200;
    assert ColumnSum(WorkRates, 4, 6) == 4795;
    assert ColumnSum(WorkRates, 4, 7) == 5383;
    assert ColumnSum(WorkRates, 4, 8) == 5960;
    assert ColumnSum(WorkRates, 4, 9) == 6516;
    assert ColumnSum(WorkRates, 4, 10) == 7041;
    assert ColumnSum(WorkRates, 4, 11) == 7555;
    assert ColumnSum(WorkRates, 4, 12) == 8063;
    assert ColumnSum(WorkRates, 4, 13) == 8564;
    assert ColumnSum(WorkRates, 4, 14) == 9061;
    assert ColumnSum(WorkRates, 4, 15) == 9541;
    assert ColumnSum(WorkRates, 4, 16) == 10000;
  }
}
