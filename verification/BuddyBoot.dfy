/** The boot-time tiling: every page starts as the kernel's, and the managed
    range is cut greedily into the largest aligned blocks that fit. */
module BuddyBoot {
  import opened Bits
  import opened BuddyModel
  import opened BuddySteps
  import opened BuddyCalls

  /** The order the inner loop settles on: the largest at most k whose block is
      aligned at start and ends by hi. */
  function Fit(start: nat, hi: nat, k: nat): nat {
    if k == 0 || (Aligned(start, k) && start + Pow2(k) <= hi) then k else Fit(start, hi, k - 1)
  }

  function SetTails(pages: seq<Page>, a: nat, b: nat): (r: seq<Page>)
    ensures |r| == |pages|
    ensures forall i :: 0 <= i < |pages| ==> r[i] == if a <= i < b then pages[i].(flag := Tail) else pages[i]
    decreases b - a
  {
    if a >= b then pages
    else SetTails(if a < |pages| then pages[a := pages[a].(flag := Tail)] else pages, a + 1, b)
  }

  function AddBlock(s: Buddy, start: nat, k: nat): Buddy
    requires k <= MAX_ORDER
  {
    s.(pages := SetTails(Put(s.pages, start, Page(k, Free)), start + 1, start + Pow2(k)),
       lists := Push(s.lists, k, start), freeCount := s.freeCount + Pow2(k))
  }

  lemma {:induction false} FitFacts(start: nat, hi: nat, k: nat)
    requires start < hi
    ensures var f := Fit(start, hi, k);
      && f <= k && Aligned(start, f) && start + Pow2(f) <= hi
      && forall j :: f < j <= k ==> !(Aligned(start, j) && start + Pow2(j) <= hi)
  {
    if k > 0 && !(Aligned(start, k) && start + Pow2(k) <= hi) {
      FitFacts(start, hi, k - 1);
    }
  }

  function Tile(s: Buddy, start: nat, hi: nat): Buddy
    decreases hi - start
  {
    if start >= hi then s else
    FitFacts(start, hi, MAX_ORDER);
    var k := Fit(start, hi, MAX_ORDER);
    Tile(AddBlock(s, start, k), start + Pow2(k), hi)
  }

  function Blank(n: nat): Buddy {
    Buddy(seq(n, _ => Page(0, Kernel)), seq(MAX_ORDER + 1, _ => []), 0, 0)
  }

  function Boot(z: Zone): Buddy {
    Tile(Blank(z.n), z.lo, z.hi)
  }

  predicate ZoneOk(z: Zone) { z.lo <= z.hi <= z.n }

  /** A block of order k at i that could not have been larger. */
  predicate Maximal(hi: nat, i: nat, k: nat) {
    k < MAX_ORDER && Aligned(i, k + 1) ==> i + Pow2(k + 1) > hi
  }

  /** The state after tiling lo..start of a range that ends at hi. */
  ghost predicate Tiled(z: Zone, s: Buddy, start: nat, hi: nat) {
    && z.hi == start
    && Tiling(z, s.pages)
    && ListsOk(z, s.pages, s.lists, -1)
    && (forall i :: z.lo <= i < start && IsHead(s.pages[i]) ==>
          s.pages[i].flag.Free? && Maximal(hi, i, s.pages[i].order))
    && s.freeCount == start - z.lo && s.usedCount == 0
  }

  lemma BlankTiled(z: Zone, hi: nat)
    requires ZoneOk(z) && z.hi == z.lo
    ensures Tiled(z, Blank(z.n), z.lo, hi)
  {
    var s := Blank(z.n);
    forall k, i: nat | 0 <= k <= MAX_ORDER
      ensures Listed(z, s.pages, s.lists, -1, k, i)
    {
    }
  }

  ghost function BootOwner(pages: seq<Page>, start: nat): nat -> nat {
    (p: nat) => if p < start && p < |pages| then Owner(pages, p) else start
  }

  lemma AddTiling(z: Zone, s: Buddy, start: nat, k: nat)
    requires Tiling(z, s.pages) && z.hi == start && k <= MAX_ORDER
    requires Aligned(start, k) && start + Pow2(k) <= z.n
    ensures Tiling(z.(hi := start + Pow2(k)), AddBlock(s, start, k).pages)
    ensures AddBlock(s, start, k).pages[start] == Page(k, Free)
  {
    var z', pages', own := z.(hi := start + Pow2(k)), AddBlock(s, start, k).pages, BootOwner(s.pages, start);
    AddOwners(z, s, start, k);
    forall i | z'.lo <= i < z'.hi && IsHead(pages'[i])
      ensures BlockOk(z', pages', i)
    {
      if i < start { assert BlockOk(z, s.pages, i); }
    }
    TilingByOwners(z', pages', own);
  }

  lemma AddOwners(z: Zone, s: Buddy, start: nat, k: nat)
    requires Tiling(z, s.pages) && z.hi == start && k <= MAX_ORDER && start + Pow2(k) <= z.n
    ensures var pages', own := AddBlock(s, start, k).pages, BootOwner(s.pages, start);
      forall p :: z.lo <= p < start + Pow2(k) ==>
        z.lo <= own(p) <= p && IsHead(pages'[own(p)]) && p < own(p) + Pow2(pages'[own(p)].order)
  {
    var pages', own := AddBlock(s, start, k).pages, BootOwner(s.pages, start);
    forall p | z.lo <= p < start + Pow2(k)
      ensures z.lo <= own(p) <= p && IsHead(pages'[own(p)]) && p < own(p) + Pow2(pages'[own(p)].order)
    {
      if p < start { assert Owned(z, s.pages, p); }
    }
  }

  lemma AddLists(z: Zone, s: Buddy, start: nat, k: nat)
    requires Tiling(z, s.pages) && ListsOk(z, s.pages, s.lists, -1) && z.hi == start && k <= MAX_ORDER
    requires start + Pow2(k) <= z.n
    ensures ListsOk(z.(hi := start + Pow2(k)), AddBlock(s, start, k).pages, AddBlock(s, start, k).lists, -1)
  {
    var z', s' := z.(hi := start + Pow2(k)), AddBlock(s, start, k);
    forall j, i: nat | 0 <= j <= MAX_ORDER
      ensures Listed(z', s'.pages, s'.lists, -1, j, i)
    {
      assert Listed(z, s.pages, s.lists, -1, j, i);
    }
    assert Listed(z, s.pages, s.lists, -1, k, start);
  }

  lemma TiledShape(z: Zone, s: Buddy, start: nat, hi: nat)
    requires Tiled(z, s, start, hi)
    ensures |s.pages| == z.n && z.lo <= start <= z.n
  {
  }

  lemma AddTiled(z: Zone, s: Buddy, start: nat, hi: nat)
    requires Tiled(z, s, start, hi) && start < hi <= z.n
    ensures var k := Fit(start, hi, MAX_ORDER);
      && k <= MAX_ORDER && start + Pow2(k) <= hi
      && Tiled(z.(hi := start + Pow2(k)), AddBlock(s, start, k), start + Pow2(k), hi)
  {
    hide Tiling, ListsOk, Aligned, Fit;
    var k := Fit(start, hi, MAX_ORDER);
    FitFacts(start, hi, MAX_ORDER);
    TiledShape(z, s, start, hi);
    AddTiling(z, s, start, k);
    AddLists(z, s, start, k);
    assert Maximal(hi, start, k);
  }

  lemma {:induction false} TileTiled(z: Zone, s: Buddy, start: nat, hi: nat)
    requires Tiled(z, s, start, hi) && z.hi == start <= hi <= z.n
    ensures Tiled(z.(hi := hi), Tile(s, start, hi), hi, hi)
    decreases hi - start
  {
    hide Tiled, AddBlock;
    if start < hi {
      FitFacts(start, hi, MAX_ORDER);
      AddTiled(z, s, start, hi);
      var k := Fit(start, hi, MAX_ORDER);
      TileTiled(z.(hi := start + Pow2(k)), AddBlock(s, start, k), start + Pow2(k), hi);
    }
  }

  /** A tiling by maximal free blocks is coalesced, and all of it is free. */
  lemma TiledInv(z: Zone, s: Buddy)
    requires Tiled(z, s, z.hi, z.hi)
    ensures Inv(z, s)
    ensures FreePages(z, s.pages, -1) == Span(z.lo, z.hi) && UsedHeads(z, s.pages, -1) == map[]
  {
    forall p: nat | z.lo <= p < z.hi
      ensures InFree(s.pages, -1, p)
    {
      assert Owned(z, s.pages, p);
    }
    assert FreePages(z, s.pages, -1) == Span(z.lo, z.hi);
    SpanSize(z.lo, z.hi);
    UsedIsRest(z, s.pages);
    forall i: nat
      ensures NotMergeable(z, s.pages, -1, i)
    {
      TiledNotMergeable(z, s, i);
    }
  }

  lemma TiledNotMergeable(z: Zone, s: Buddy, i: nat)
    requires Tiled(z, s, z.hi, z.hi)
    ensures NotMergeable(z, s.pages, -1, i)
  {
    if IsFreeHead(z, s.pages, -1, i) {
      var k := s.pages[i].order;
      assert BlockOk(z, s.pages, i) && Maximal(z.hi, i, k);
      BuddyFacts(i, k);
      var b := Xor(i, Pow2(k));
      if IsFreeHead(z, s.pages, -1, b) && s.pages[b].order == k {
        assert BlockOk(z, s.pages, b) && Maximal(z.hi, b, k);
      }
    }
  }

  /** Boot establishes the invariant with every managed page free. */
  lemma BootInv(z: Zone)
    requires ZoneOk(z)
    ensures Inv(z, Boot(z))
    ensures FreePages(z, Boot(z).pages, -1) == Span(z.lo, z.hi) && UsedHeads(z, Boot(z).pages, -1) == map[]
  {
    BlankTiled(z.(hi := z.lo), z.hi);
    TileTiled(z.(hi := z.lo), Blank(z.n), z.lo, z.hi);
    TiledInv(z, Boot(z));
  }
}
