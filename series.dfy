/** Exact partial sums of a series over index ranges, the quantity every
    worker loop accumulates into its local `pi`. */
module Series {

  /** f(lo) + f(lo + 1) + ... + f(hi - 1); an empty range (hi <= lo) sums to 0,
      exactly as a C `for (i = lo; i < hi; i++)` loop adds nothing. */
  function Sum(f: nat -> real, lo: nat, hi: nat): real
    decreases hi
  {
    if hi <= lo then 0.0 else Sum(f, lo, hi - 1) + f(hi - 1)
  }

  /** A range sum splits at any point inside the range. */
  lemma {:induction false} SumSplit(f: nat -> real, lo: nat, mid: nat, hi: nat)
    requires lo <= mid <= hi
    ensures Sum(f, lo, hi) == Sum(f, lo, mid) + Sum(f, mid, hi)
    decreases hi
  {
    if hi > mid {
      SumSplit(f, lo, mid, hi - 1);
    }
  }

  /** Sums of pointwise-added functions add. */
  lemma {:induction false} SumAdd(f: nat -> real, g: nat -> real, h: nat -> real, lo: nat, hi: nat)
    requires forall k :: lo <= k < hi ==> f(k) == g(k) + h(k)
    ensures Sum(f, lo, hi) == Sum(g, lo, hi) + Sum(h, lo, hi)
    decreases hi
  {
    if hi > lo {
      SumAdd(f, g, h, lo, hi - 1);
    }
  }

  /** Shifting the index: sum of g over [0, k) where g(t) = f(lo + t). */
  lemma {:induction false} SumShift(f: nat -> real, g: nat -> real, lo: nat, k: nat)
    requires forall t :: 0 <= t < k ==> g(t) == f(lo + t)
    ensures Sum(g, 0, k) == Sum(f, lo, lo + k)
    decreases k
  {
    if k > 0 {
      SumShift(f, g, lo, k - 1);
    }
  }

  /** A function that vanishes on a range sums to 0 over it. */
  lemma {:induction false} SumZero(f: nat -> real, lo: nat, hi: nat)
    requires forall k :: lo <= k < hi ==> f(k) == 0.0
    ensures Sum(f, lo, hi) == 0.0
    decreases hi
  {
    if hi > lo {
      SumZero(f, lo, hi - 1);
    }
  }

  /** f(s) + f(s + stride) + f(s + 2 stride) + ... over the indices below hi:
      what a loop `for (i = s; i < hi; i += stride)` adds. */
  function StridedSum(f: nat -> real, s: nat, hi: nat, stride: nat): real
    requires stride > 0
    decreases hi - s
  {
    if s >= hi then 0.0 else f(s) + StridedSum(f, s + stride, hi, stride)
  }

  /** Thread t's strided sum when `stride` threads start at lo, lo + 1, ... */
  function StridedShares(f: nat -> real, lo: nat, hi: nat, stride: nat): nat -> real
    requires stride > 0
  {
    (t: nat) => StridedSum(f, lo + t, hi, stride)
  }

  /** The strided sums of the `stride` threads that start at lo, lo + 1, ...,
      lo + stride - 1 add up to the plain sum over [lo, hi): cyclic striding
      visits every index of the block exactly once. */
  lemma {:induction false} CyclicSum(f: nat -> real, lo: nat, hi: nat, stride: nat)
    requires stride > 0
    ensures Sum(StridedShares(f, lo, hi, stride), 0, stride) == Sum(f, lo, hi)
    decreases hi - lo
  {
    var g := StridedShares(f, lo, hi, stride);
    if lo >= hi {
      forall t | 0 <= t < stride
        ensures g(t) == 0.0
      {
        assert StridedSum(f, lo + t, hi, stride) == 0.0;
      }
      SumZero(g, 0, stride);
    } else {
      var head := (t: nat) => if lo + t < hi then f(lo + t) else 0.0;
      var tail := StridedShares(f, lo + stride, hi, stride);
      forall t | 0 <= t < stride
        ensures g(t) == head(t) + tail(t)
      {
        if lo + t >= hi {
          assert StridedSum(f, lo + t, hi, stride) == 0.0;
          assert StridedSum(f, lo + stride + t, hi, stride) == 0.0;
        } else {
          assert StridedSum(f, lo + t, hi, stride)
              == f(lo + t) + StridedSum(f, lo + stride + t, hi, stride);
        }
      }
      SumAdd(g, head, tail, 0, stride);
      CyclicSum(f, lo + stride, hi, stride);
      assert Sum(tail, 0, stride) == Sum(f, lo + stride, hi);
      var k := if lo + stride <= hi then stride else hi - lo;
      SumSplit(head, 0, k, stride);
      SumZero(head, k, stride);
      SumShift(f, head, lo, k);
      if lo + stride <= hi {
        SumSplit(f, lo, lo + stride, hi);
      }
    }
  }
}
