/** The page size, and bitwise arithmetic on naturals: powers of two, exclusive
    or, and the alignment facts that the page allocator's buddy arithmetic rests
    on. Everything is defined bit by bit, from the low end. */
module Bits {

  const PAGE: nat := 4096

  function Pow2(k: nat): (p: nat)
    ensures p >= 1
  {
    if k == 0 then 1 else 2 * Pow2(k - 1)
  }

  function Xor(a: nat, b: nat): nat
    decreases a + b
  {
    if a == 0 && b == 0 then 0
    else 2 * Xor(a / 2, b / 2) + (if a % 2 == b % 2 then 0 else 1)
  }

  /** The low k bits of i are zero: i is a multiple of 2^k. */
  predicate Aligned(i: nat, k: nat) {
    k == 0 || (i % 2 == 0 && Aligned(i / 2, k - 1))
  }

  lemma {:induction false} XorZero(a: nat)
    ensures Xor(a, 0) == a
  {
    if a != 0 {
      XorZero(a / 2);
    }
  }

  /** Adding 2^k to a multiple of 2^k flips whether it is a multiple of 2^(k+1). */
  lemma {:induction false} AlignedAdd(i: nat, k: nat)
    requires Aligned(i, k)
    ensures Aligned(i + Pow2(k), k)
    ensures Aligned(i + Pow2(k), k + 1) <==> !Aligned(i, k + 1)
    ensures !Aligned(i, k + 1) ==> i >= Pow2(k)
  {
    if k > 0 {
      AlignedAdd(i / 2, k - 1);
      assert (i + Pow2(k)) / 2 == i / 2 + Pow2(k - 1);
      assert (i + Pow2(k)) % 2 == 0;
    }
  }

  /** `i ^ (1 << k)` on a multiple of 2^k adds or subtracts 2^k. */
  lemma {:induction false} XorAligned(i: nat, k: nat)
    requires Aligned(i, k)
    ensures Xor(i, Pow2(k)) == if Aligned(i, k + 1) then i + Pow2(k) else i - Pow2(k)
  {
    if k == 0 {
      XorZero(i / 2);
      assert Aligned(i, 1) <==> i % 2 == 0;
    } else {
      XorAligned(i / 2, k - 1);
      assert Pow2(k) / 2 == Pow2(k - 1) && Pow2(k) % 2 == 0;
      assert Xor(i, Pow2(k)) == 2 * Xor(i / 2, Pow2(k - 1));
      assert Aligned(i, k + 1) <==> Aligned(i / 2, k);
    }
  }

  /** The buddy of an aligned block: its upper neighbour when the block is the
      lower half of its parent, its lower neighbour otherwise. */
  lemma BuddyFacts(i: nat, k: nat)
    requires Aligned(i, k)
    ensures Aligned(i, k + 1) ==> Xor(i, Pow2(k)) == i + Pow2(k)
    ensures !Aligned(i, k + 1) ==> i >= Pow2(k) && Xor(i, Pow2(k)) == i - Pow2(k) && Aligned(i - Pow2(k), k + 1)
    ensures Aligned(Xor(i, Pow2(k)), k)
    ensures Xor(Xor(i, Pow2(k)), Pow2(k)) == i
  {
    XorAligned(i, k);
    AlignedAdd(i, k);
    if !Aligned(i, k + 1) {
      AlignedSub(i, k);
      AlignedAdd(i - Pow2(k), k);
    }
    XorAligned(Xor(i, Pow2(k)), k);
  }

  lemma {:induction false} AlignedSub(i: nat, k: nat)
    requires Aligned(i, k) && i >= Pow2(k)
    ensures Aligned(i - Pow2(k), k)
  {
    if k > 0 {
      AlignedSub(i / 2, k - 1);
      assert (i - Pow2(k)) / 2 == i / 2 - Pow2(k - 1);
    }
  }

  lemma {:induction false} AlignedDown(i: nat, j: nat, k: nat)
    requires j <= k && Aligned(i, k)
    ensures Aligned(i, j)
    decreases k
  {
    if 0 < j {
      AlignedDown(i / 2, j - 1, k - 1);
    }
  }

  /** Splitting an aligned block of order k+1. */
  lemma SplitFacts(i: nat, k: nat)
    requires Aligned(i, k + 1)
    ensures Aligned(i, k)
    ensures Xor(i, Pow2(k)) == i + Pow2(k)
    ensures Aligned(i + Pow2(k), k) && !Aligned(i + Pow2(k), k + 1)
    ensures Xor(i + Pow2(k), Pow2(k)) == i
  {
    AlignedDown(i, k, k + 1);
    BuddyFacts(i, k);
    BuddyFacts(i + Pow2(k), k);
  }

  lemma {:induction false} Pow2Mono(j: nat, k: nat)
    requires j <= k
    ensures Pow2(j) <= Pow2(k)
    decreases k
  {
    if j < k {
      Pow2Mono(j, k - 1);
    }
  }

  /** Two aligned blocks that share a page are nested. */
  lemma {:induction false} Laminar(i: nat, j: nat, h: nat, k: nat)
    requires j <= k && Aligned(i, j) && Aligned(h, k)
    requires i < h + Pow2(k) && h < i + Pow2(j)
    ensures h <= i && i + Pow2(j) <= h + Pow2(k)
    decreases j
  {
    if j > 0 {
      Laminar(i / 2, j - 1, h / 2, k - 1);
    }
  }

  /** Alignment of an address at a page shift is alignment of the page number. */
  lemma {:induction false} AlignedShift(p: nat, a: nat, k: nat)
    ensures Aligned(p * Pow2(a), a + k) <==> Aligned(p, k)
  {
    hide Pow2, Aligned;
    if a == 0 {
      Pow2Zero();
    } else {
      AlignedShift(p, a - 1, k);
      DoublePow2(p, a);
      AlignedDouble(p * Pow2(a - 1), a - 1 + k);
    }
  }

  lemma {:induction false} MultipleIsAligned(q: nat, k: nat)
    ensures Aligned(q * Pow2(k), k)
  {
    hide Pow2;
    AlignedShift(q, k, 0);
  }

  lemma AlignedZero(i: nat)
    ensures Aligned(i, 0)
  {
  }

  lemma Pow2Twice(k: nat)
    ensures Pow2(k + 1) == Pow2(k) + Pow2(k)
  {
  }

  lemma Pow2Zero()
    ensures Pow2(0) == 1
  {
  }

  lemma DoublePow2(p: nat, a: nat)
    requires a > 0
    ensures p * Pow2(a) == 2 * (p * Pow2(a - 1))
  {
  }

  lemma AlignedDouble(q: nat, k: nat)
    ensures Aligned(2 * q, k + 1) <==> Aligned(q, k)
  {
  }
}
