/**
 * The doubling loops of xfer::reserve, stream_buffer::expand_buffer and
 * shared_buffer::expand_buffer: `while (n < need) n *= 2`, over 64-bit sizes.
 */
module Growth {

  const SIZE_MODULUS: nat := 0x1_0000_0000_0000_0000
  const HALF_MODULUS: nat := 0x8000_0000_0000_0000

  function Max(a: nat, b: nat): (m: nat)
    ensures m >= a && m >= b && (m == a || m == b)
  {
    if a < b then b else a
  }

  /** What the doubling loop computes when no multiplication wraps. */
  function Doubled(start: nat, need: nat): (n: nat)
    requires start > 0
    ensures n >= start && n >= need
    ensures n == start || n < 2 * need
    decreases if start < need then need - start else 0
  {
    if start >= need then start else Doubled(start * 2, need)
  }

  /** One iteration of the loop body in size_t arithmetic. */
  function Twice64(n: nat): (r: nat)
    ensures r < SIZE_MODULUS
  {
    (n * 2) % SIZE_MODULUS
  }

  /** The loop over unbounded sizes, as the buffer classes use it. */
  method DoubleUntil(start: nat, need: nat) returns (n: nat)
    requires start > 0
    ensures n == Doubled(start, need)
  {
    n := start;
    while n < need
      invariant n > 0 && Doubled(n, need) == Doubled(start, need)
      decreases need - n
    {
      n := n * 2;
    }
  }

  /** The value of the size_t loop variable after k iterations. */
  function Iterate64(n: nat, k: nat): (r: nat)
    decreases k
  {
    if k == 0 then n else Iterate64(Twice64(n), k - 1)
  }

  function Pow2(k: nat): (p: nat)
    ensures p >= 1
  {
    if k == 0 then 1 else 2 * Pow2(k - 1)
  }

  /** The largest size that doubling reaches from start without wrapping. */
  function Top(start: nat): (t: nat)
    requires 0 < start < SIZE_MODULUS
    ensures start <= t < SIZE_MODULUS <= 2 * t
    decreases SIZE_MODULUS - start
  {
    if 2 * start < SIZE_MODULUS then Top(2 * start) else start
  }

  lemma {:induction false} TopIsPower(start: nat) returns (k: nat)
    requires 0 < start < SIZE_MODULUS
    ensures Top(start) == start * Pow2(k)
    decreases SIZE_MODULUS - start
  {
    if 2 * start < SIZE_MODULUS {
      k := TopIsPower(2 * start);
      TwiceUnder(start, k);
      k := k + 1;
    } else {
      k := 0;
    }
  }

  lemma TwiceUnder(n: nat, k: nat)
    ensures (2 * n) * Pow2(k) == n * Pow2(k + 1)
  {
    var p := Pow2(k);
    assert (2 * n) * p == n * (2 * p);
  }

  // ------------------------------------------------------------ when the loop is right

  /** The size_t loop leaves after k iterations, with a size that meets the need and never wrapped. */
  predicate LeavesRight(start: nat, need: nat, k: nat)
  {
    && (forall j :: 0 <= j < k ==> Iterate64(start, j) < need)
    && need <= Iterate64(start, k) == start * Pow2(k)
  }

  ghost predicate LoopRight(start: nat, need: nat)
  {
    exists k: nat :: LeavesRight(start, need, k)
  }

  /** Exactly when the loop is right: iff the need is no more than doubling reaches without wrapping. */
  lemma DoublingFitsIff(start: nat, need: nat)
    requires 0 < start < SIZE_MODULUS
    ensures LoopRight(start, need) <==> need <= Top(start)
  {
    if need <= Top(start) {
      var k := FittingIterations(start, need);
    }
    forall k: nat | LeavesRight(start, need, k)
      ensures need <= Top(start)
    {
      IterateBounded(start, k);
      PowerUnderTop(start, k);
    }
  }

  lemma TwiceFits(n: nat)
    requires 2 * n < SIZE_MODULUS
    ensures Twice64(n) == 2 * n
  {
  }

  lemma LeavesLater(start: nat, need: nat, k: nat)
    requires start < need && Twice64(start) == 2 * start && LeavesRight(2 * start, need, k)
    ensures LeavesRight(start, need, k + 1) && Iterate64(start, k + 1) == Iterate64(2 * start, k)
  {
    TwiceUnder(start, k);
    forall j | 0 <= j < k + 1 ensures Iterate64(start, j) < need {
      if j > 0 {
        assert Iterate64(start, j) == Iterate64(2 * start, j - 1);
      }
    }
  }

  lemma {:induction false} FittingIterations(start: nat, need: nat) returns (k: nat)
    requires 0 < start < SIZE_MODULUS && need <= Top(start)
    ensures LeavesRight(start, need, k) && Iterate64(start, k) == Doubled(start, need)
    decreases SIZE_MODULUS - start
  {
    if start >= need {
      k := 0;
    } else {
      k := FittingIterations(2 * start, need);
      TwiceFits(start);
      LeavesLater(start, need, k);
      assert Doubled(start, need) == Doubled(2 * start, need);
      k := k + 1;
    }
  }

  lemma {:induction false} PowerUnderTop(start: nat, k: nat)
    requires 0 < start < SIZE_MODULUS && start * Pow2(k) < SIZE_MODULUS
    ensures start * Pow2(k) <= Top(start)
    decreases k
  {
    if k > 0 {
      TwiceUnder(start, k - 1);
      MulGrowsByOne(2 * start, Pow2(k - 1));
      PowerUnderTop(2 * start, k - 1);
    }
  }

  lemma MulGrowsByOne(n: nat, p: nat)
    requires p >= 1
    ensures n * p >= n
  {
    assert n * p == n * (p - 1) + n;
  }

  lemma {:induction false} IterateBounded(n: nat, k: nat)
    requires n < SIZE_MODULUS
    ensures Iterate64(n, k) < SIZE_MODULUS
    decreases k
  {
    if k > 0 {
      IterateBounded(Twice64(n), k - 1);
    }
  }

  /** The size_t loop, under the condition that makes it right: it leaves with the unbounded answer. */
  method DoubleUntil64(start: nat, need: nat) returns (n: nat)
    requires 0 < start < SIZE_MODULUS && need <= Top(start)
    ensures n == Doubled(start, need) && need <= n < SIZE_MODULUS
  {
    n := start;
    while n < need
      invariant 0 < n < SIZE_MODULUS && need <= Top(n)
      invariant Doubled(n, need) == Doubled(start, need)
      decreases SIZE_MODULUS - n
    {
      n := Twice64(n);
    }
  }

  /**
   * With a capacity of at most 2^62 and a total need of at most 2^63, the loop
   * is right from each of the three start sizes the code uses, and none of
   * these wraps either.
   */
  lemma CapacityUpToQuarterFits(cap: nat, init: nat, need: nat)
    requires cap <= HALF_MODULUS / 2 && need <= HALF_MODULUS && init < SIZE_MODULUS
    ensures 2 * cap + 72 < SIZE_MODULUS && LoopRight(2 * cap + 72, need)
    ensures cap > 0 ==> LoopRight(2 * cap, need)
    ensures LoopRight(Max(init, 4), need)
  {
    DoublingFitsIff(2 * cap + 72, need);
    if cap > 0 {
      DoublingFitsIff(2 * cap, need);
    }
    DoublingFitsIff(Max(init, 4), need);
  }

  // ------------------------------------------------------------ what happens otherwise

  /** The size_t loop leaves at all, wrapped or not. */
  ghost predicate LoopLeaves(start: nat, need: nat)
  {
    exists k: nat :: Iterate64(start, k) >= need
  }

  /** The largest of the first k + 1 values of the loop variable. */
  function Highest(n: nat, k: nat): (h: nat)
    ensures h >= n
    decreases k
  {
    if k == 0 then n else Max(n, Highest(Twice64(n), k - 1))
  }

  lemma {:induction false} HighestBounds(n: nat, k: nat, j: nat)
    requires j <= k
    ensures Iterate64(n, j) <= Highest(n, k)
    decreases k
  {
    if j > 0 {
      HighestBounds(Twice64(n), k - 1, j - 1);
    }
  }

  lemma {:induction false} HighestReached(n: nat, k: nat) returns (j: nat)
    ensures j <= k && Iterate64(n, j) == Highest(n, k)
    decreases k
  {
    j := 0;
    if k > 0 && Highest(n, k) != n {
      j := HighestReached(Twice64(n), k - 1);
      j := j + 1;
    }
  }

  /** The bits of the start are shifted out after 64 iterations: from there on the loop variable is zero. */
  lemma ZeroAfter64(n: nat, k: nat)
    requires n < SIZE_MODULUS && k >= 64
    ensures Iterate64(n, k) == 0
  {
    ShiftedOut(n, n, 0);
    IterateSplit(n, 64, k - 64);
    ZeroStays(k - 64);
  }

  lemma {:induction false} ShiftedOut(n: nat, q: nat, j: nat)
    requires n < SIZE_MODULUS && j <= 64 && n == q * Pow2(j)
    ensures Iterate64(n, 64 - j) == 0
    decreases 64 - j
  {
    if j == 64 {
      Pow2Of64(0);
      if q > 0 {
        MulGrows(0, q, Pow2(64));
      }
    } else {
      var q' := ShiftOnce(n, q, j);
      ShiftedOut(Twice64(n), q', j + 1);
    }
  }

  /** A multiple of 2^j doubles to a multiple of 2^(j + 1), also when it wraps. */
  lemma ShiftOnce(n: nat, q: nat, j: nat) returns (q': nat)
    requires n < SIZE_MODULUS && j < 64 && n == q * Pow2(j)
    ensures Twice64(n) == q' * Pow2(j + 1)
  {
    TwiceUnder(q, j);
    TwiceLeft(q, Pow2(j));
    if 2 * n < SIZE_MODULUS {
      q' := q;
    } else {
      Pow2Of64(j + 1);
      q' := WrapOnce(n, q, Pow2(j + 1), Pow2(63 - j));
    }
  }

  lemma TwiceLeft(q: nat, p: nat)
    ensures (2 * q) * p == 2 * (q * p)
  {
  }

  lemma WrapOnce(n: nat, q: nat, p: nat, h: nat) returns (q': nat)
    requires SIZE_MODULUS <= 2 * n < 2 * SIZE_MODULUS && 2 * n == q * p && SIZE_MODULUS == p * h && p > 0
    ensures Twice64(n) == q' * p
  {
    MulGrows(q, h, p);
    q' := q - h;
    MulLess(q, h, p);
  }

  lemma MulLess(q: nat, h: nat, p: nat)
    requires h <= q
    ensures (q - h) * p == q * p - p * h
  {
  }

  lemma MulGrows(q: nat, h: nat, p: nat)
    requires p > 0
    ensures q < h ==> q * p < h * p
    ensures q < h ==> p <= h * p
  {
    if q < h {
      var d := h - q;
      assert h * p == q * p + d * p;
      assert d * p == (d - 1) * p + p;
    }
  }

  lemma {:induction false} Pow2Split(a: nat, b: nat)
    ensures Pow2(a + b) == Pow2(a) * Pow2(b)
  {
    if a > 0 {
      Pow2Split(a - 1, b);
      assert 2 * (Pow2(a - 1) * Pow2(b)) == (2 * Pow2(a - 1)) * Pow2(b);
    }
  }

  lemma Pow2Of32()
    ensures Pow2(32) == 0x1_0000_0000
  {
    assert Pow2(4) == 16;
    Pow2Split(4, 4);
    Pow2Split(8, 8);
    Pow2Split(16, 16);
  }

  lemma Pow2Of64(a: nat)
    requires a <= 64
    ensures Pow2(64) == SIZE_MODULUS == Pow2(a) * Pow2(64 - a)
  {
    Pow2Of32();
    Pow2Split(32, 32);
    Pow2Split(a, 64 - a);
  }

  lemma {:induction false} IterateSplit(n: nat, i: nat, k: nat)
    ensures Iterate64(n, i + k) == Iterate64(Iterate64(n, i), k)
    decreases i
  {
    if i > 0 {
      IterateSplit(Twice64(n), i - 1, k);
    }
  }

  lemma {:induction false} ZeroStays(k: nat)
    ensures Iterate64(0, k) == 0
  {
    if k > 0 {
      ZeroStays(k - 1);
    }
  }

  /** Exactly when the loop leaves: iff one of the first 64 values of its variable, or of any more, meets the need. */
  lemma LeavesIff(start: nat, need: nat, bits: nat)
    requires 0 < start < SIZE_MODULUS && bits >= 64
    ensures LoopLeaves(start, need) <==> need <= Highest(start, bits)
  {
    var j := HighestReached(start, bits);
    forall k: nat | Iterate64(start, k) >= need ensures need <= Highest(start, bits) {
      if k <= bits {
        HighestBounds(start, bits, k);
      } else {
        ZeroAfter64(start, k);
      }
    }
  }

  /** Between the two conditions the loop wraps and still reaches a size above the need. */
  lemma WrapCanRecover()
    ensures var start, need := 0x9C00_0000_0000_0000, 0xC000_0000_0000_0000;
            LoopLeaves(start, need) && !LoopRight(start, need)
  {
    var start, need := 0x9C00_0000_0000_0000, 0xC000_0000_0000_0000;
    DoublingFitsIff(start, need);
    assert Twice64(start) == 0x3800_0000_0000_0000;
    assert Twice64(Twice64(start)) == 0x7000_0000_0000_0000;
    assert Iterate64(start, 3) == 0xE000_0000_0000_0000;
  }

  // ------------------------------------------------------------ powers of two

  lemma {:induction false} PowerTop(j: nat)
    requires j <= 63
    ensures 0 < Pow2(j) < SIZE_MODULUS && Top(Pow2(j)) == HALF_MODULUS
    decreases 63 - j
  {
    Pow2Of64(0);
    if j < 63 {
      PowerTop(j + 1);
    }
  }

  lemma {:induction false} PowerIterates(j: nat, k: nat)
    requires j <= 63
    ensures Iterate64(Pow2(j), k) <= HALF_MODULUS
    decreases k
  {
    PowerTop(j);
    if k > 0 {
      if j < 63 {
        PowerTop(j + 1);
        TwiceFits(Pow2(j));
        PowerIterates(j + 1, k - 1);
      } else {
        Pow2Of64(0);
        ZeroStays(k - 1);
      }
    }
  }

  /** From a power of two the loop is right up to 2^63, and beyond that it never leaves. */
  lemma PowerStartIff(j: nat, need: nat)
    requires j <= 63
    ensures LoopRight(Pow2(j), need) <==> need <= HALF_MODULUS
    ensures LoopLeaves(Pow2(j), need) <==> need <= HALF_MODULUS
  {
    PowerTop(j);
    DoublingFitsIff(Pow2(j), need);
    forall k: nat | Iterate64(Pow2(j), k) >= need ensures need <= HALF_MODULUS {
      PowerIterates(j, k);
    }
  }

  /** The default initial size of both buffers, 8192. */
  const INITIAL_BUFFER_SIZE: nat := 8192

  /** From that start, too, the loop never leaves for a need above 2^63. */
  lemma DoublingCanStick(need: nat)
    ensures LoopLeaves(INITIAL_BUFFER_SIZE, need) <==> need <= HALF_MODULUS
    ensures need > HALF_MODULUS ==> forall k: nat :: Iterate64(INITIAL_BUFFER_SIZE, k) < need
  {
    assert Pow2(6) == 64 && Pow2(7) == 128;
    Pow2Split(6, 7);
    PowerStartIff(13, need);
  }
}
