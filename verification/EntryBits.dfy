/** Directory and table entries as 32-bit words: an address in the high bits and
    flags in the low twelve, joined with bitwise or. */
module EntryBits {
  import opened Bits

  const FOUR_MB: nat := 0x40_0000

  const PRESENT: nat := 0x1
  const RW: nat := 0x2
  const USER: nat := 0x4
  const SIZE_4MB: nat := 0x80

  function Or(a: nat, b: nat): nat
    decreases a + b
  {
    if a == 0 && b == 0 then 0
    else 2 * Or(a / 2, b / 2) + (if a % 2 == 1 || b % 2 == 1 then 1 else 0)
  }

  /** Bit k of x. */
  predicate Bit(x: nat, k: nat) {
    if k == 0 then x % 2 == 1 else Bit(x / 2, k - 1)
  }

  predicate Present(e: nat) { Bit(e, 0) }
  predicate Writable(e: nat) { Bit(e, 1) }
  predicate Usable(e: nat) { Bit(e, 2) }
  predicate Large(e: nat) { Bit(e, 7) }

  /** The address part of an entry: `e & PAGE_MASK`. */
  function FrameOf(e: nat): nat { e / PAGE * PAGE }

  /** The address part of a 4 MB entry. */
  function LargeFrameOf(e: nat): nat { e / FOUR_MB * FOUR_MB }

  lemma {:induction false} OrBit(a: nat, b: nat, k: nat)
    ensures Bit(Or(a, b), k) <==> Bit(a, k) || Bit(b, k)
  {
    if a == 0 && b == 0 {
      ZeroBit(k);
    } else if k > 0 {
      OrBit(a / 2, b / 2, k - 1);
    }
  }

  lemma {:induction false} ZeroBit(k: nat)
    ensures !Bit(0, k)
  {
    if k > 0 {
      ZeroBit(k - 1);
    }
  }

  lemma {:induction false} OrZero(a: nat)
    ensures Or(a, 0) == a
  {
    if a != 0 {
      OrZero(a / 2);
    }
  }

  /** A multiple of 2^k or-ed with something below 2^k is their sum. */
  lemma {:induction false} OrIsSum(a: nat, b: nat, k: nat)
    requires Aligned(a, k) && b < Pow2(k)
    ensures Or(a, b) == a + b
  {
    if k == 0 {
      OrZero(a);
    } else if a != 0 || b != 0 {
      OrIsSum(a / 2, b / 2, k - 1);
    }
  }

  lemma {:induction false} OrBelow(a: nat, b: nat, k: nat)
    requires a < Pow2(k) && b < Pow2(k)
    ensures Or(a, b) < Pow2(k)
  {
    if k > 0 && (a != 0 || b != 0) {
      OrBelow(a / 2, b / 2, k - 1);
    }
  }

  /** Adding to the high part does not touch the low bits. */
  lemma {:induction false} LowBits(a: nat, b: nat, k: nat, j: nat)
    requires Aligned(a, k) && b < Pow2(k) && j < k
    ensures Bit(a + b, j) <==> Bit(b, j)
  {
    if j > 0 {
      LowBits(a / 2, b / 2, k - 1, j - 1);
      assert (a + b) / 2 == a / 2 + b / 2;
    }
  }

  lemma PageIsAligned(p: nat)
    ensures Aligned(p * PAGE, 12) && Pow2(12) == PAGE
  {
    assert Pow2(12) == PAGE by { assert Pow2(6) == 64; assert Pow2(9) == 512; }
    MultipleIsAligned(p, 12);
  }

  lemma LargeIsAligned(p: nat)
    ensures Aligned(p * FOUR_MB, 22) && Pow2(22) == FOUR_MB
  {
    assert Pow2(22) == FOUR_MB by {
      assert Pow2(6) == 64; assert Pow2(9) == 512; assert Pow2(12) == 4096;
      assert Pow2(15) == 32768; assert Pow2(18) == 262144; assert Pow2(21) == 2097152;
    }
    MultipleIsAligned(p, 22);
  }

  /** A table entry: page number p with the given flags. */
  lemma SmallEntry(p: nat, flag: nat)
    requires flag < PAGE
    ensures var e := Or(p * PAGE, flag);
      FrameOf(e) == p * PAGE && forall k :: 0 <= k < 12 ==> (Bit(e, k) <==> Bit(flag, k))
  {
    PageIsAligned(p);
    OrIsSum(p * PAGE, flag, 12);
    forall k | 0 <= k < 12
      ensures Bit(p * PAGE + flag, k) <==> Bit(flag, k)
    {
      LowBits(p * PAGE, flag, 12, k);
    }
  }

  /** A directory entry for a page table. */
  lemma TableEntry(p: nat, flag: nat)
    requires flag < PAGE
    ensures var e := Or(Or(Or(p * PAGE, PRESENT), RW), flag);
      && FrameOf(e) == p * PAGE && Present(e) && Writable(e)
      && (Usable(e) <==> Usable(flag)) && (Large(e) <==> Large(flag))
  {
    hide Or, Bit, Aligned, Pow2;
    PageIsAligned(p);
    var a := p * PAGE;
    OrIsSum(a, PRESENT, 12);
    LowOr(a, PRESENT, RW);
    OrBelow(PRESENT, RW, 12);
    LowOr(a, Or(PRESENT, RW), flag);
    var f := Or(Or(PRESENT, RW), flag);
    OrBelow(Or(PRESENT, RW), flag, 12);
    SmallEntry(p, f);
    OrIsSum(a, f, 12);
    FlagBits(flag);
  }

  lemma FlagBits(flag: nat)
    ensures var f := Or(Or(PRESENT, RW), flag);
      Bit(f, 0) && Bit(f, 1) && (Bit(f, 2) <==> Bit(flag, 2)) && (Bit(f, 7) <==> Bit(flag, 7))
  {
    var g := Or(PRESENT, RW);
    OrBit(g, flag, 0);
    OrBit(g, flag, 1);
    OrBit(g, flag, 2);
    OrBit(g, flag, 7);
    OrBit(PRESENT, RW, 0);
    OrBit(PRESENT, RW, 1);
    OrBit(PRESENT, RW, 2);
    OrBit(PRESENT, RW, 7);
  }

  /** Or-ing more flags into an entry ors them into its flags. */
  lemma LowOr(a: nat, f: nat, g: nat)
    requires Aligned(a, 12) && f < PAGE && g < PAGE
    ensures Or(a + f, g) == a + Or(f, g)
  {
    PageIsAligned(0);
    LowOrAt(a, f, g, 12);
  }

  lemma {:induction false} LowOrAt(a: nat, f: nat, g: nat, k: nat)
    requires Aligned(a, k) && f < Pow2(k) && g < Pow2(k)
    ensures Or(a + f, g) == a + Or(f, g)
  {
    if k == 0 {
      OrZero(a);
    } else {
      LowOrAt(a / 2, f / 2, g / 2, k - 1);
      assert (a + f) / 2 == a / 2 + f / 2;
      if f == 0 && g == 0 { OrZero(a); }
    }
  }

  /** A 4 MB entry. */
  lemma LargeEntry(p: nat, flag: nat)
    requires flag < PAGE && !Large(flag)
    ensures var e := Or(Or(p * FOUR_MB, SIZE_4MB), flag);
      && LargeFrameOf(e) == p * FOUR_MB && Large(e)
      && (Present(e) <==> Present(flag)) && (Writable(e) <==> Writable(flag)) && (Usable(e) <==> Usable(flag))
  {
    hide Or, Bit, Aligned, Pow2;
    LargeIsAligned(p);
    SizeBits();
    var a, f := p * FOUR_MB, Or(SIZE_4MB, flag);
    PageIsAligned(0);
    assert a == (1024 * p) * PAGE;
    PageIsAligned(1024 * p);
    OrIsSum(a, SIZE_4MB, 12);
    LowOr(a, SIZE_4MB, flag);
    OrBelow(SIZE_4MB, flag, 12);
    SmallEntry(1024 * p, f);
    OrIsSum(a, f, 12);
    OrBit(SIZE_4MB, flag, 0);
    OrBit(SIZE_4MB, flag, 1);
    OrBit(SIZE_4MB, flag, 2);
    OrBit(SIZE_4MB, flag, 7);
  }

  lemma SizeBits()
    ensures Bit(SIZE_4MB, 7) && !Bit(SIZE_4MB, 0) && !Bit(SIZE_4MB, 1) && !Bit(SIZE_4MB, 2)
  {
    assert Bit(16, 4) && Bit(32, 5) && Bit(64, 6);
  }
}
