/** What holds of the allocator over every run. */
module BuddyTheorems {
  import opened Bits
  import opened BuddyModel
  import opened BuddySteps
  import opened BuddyCalls

  // ------------------------------------------------- the canonical free set

  /** The free heads and their orders. */
  ghost function FreeHeads(z: Zone, pages: seq<Page>): map<nat, nat> {
    map i: nat | z.lo <= i < z.hi && IsFreeHead(z, pages, -1, i) :: pages[i].order
  }

  ghost predicate NoBuddies(z: Zone, pages: seq<Page>) {
    Tiling(z, pages) && Canonical(z, pages, -1)
  }

  lemma FreePageOwner(z: Zone, pages: seq<Page>, p: nat)
    requires Tiling(z, pages) && p in FreePages(z, pages, -1)
    ensures z.lo <= p < z.hi && p < |pages| && Owner(pages, p) < |pages|
    ensures var h := Owner(pages, p);
      && PagesOf(z, pages, h, pages[h].order) && pages[h].flag.Free? && pages[h].order <= MAX_ORDER
      && h <= p < h + Pow2(pages[h].order) && Aligned(h, pages[h].order)
  {
    assert Owned(z, pages, p);
    assert BlockOk(z, pages, Owner(pages, p));
  }

  lemma SameBlock(z: Zone, pages: seq<Page>, h: nat, k: nat, p: nat)
    requires PagesOf(z, pages, h, k) && h <= p < h + Pow2(k)
    ensures p < |pages| && Owner(pages, p) == h
  {
    assert BlockOk(z, pages, h);
    OwnerInBlock(z, pages, h, p);
  }

  lemma SpanHas(a: nat, b: nat, p: nat)
    ensures p in Span(a, b) <==> a <= p < b
  {
  }

  lemma BlockHas(a: nat, k: nat)
    ensures a in Block(a, k)
  {
    SpanHas(a, a + Pow2(k), a);
  }

  lemma HalvesWithin(f: set<nat>, a: nat, k: nat)
    requires Block(a, k + 1) <= f
    ensures Block(a, k) <= f && Block(a + Pow2(k), k) <= f
  {
    SpanJoin(a, a + Pow2(k), a + Pow2(k + 1));
  }

  /** In a coalesced map an aligned run of free pages lies inside one block. */
  lemma {:induction false} RunInOneBlock(z: Zone, pages: seq<Page>, a: nat, k: nat)
    requires NoBuddies(z, pages) && k <= MAX_ORDER
    requires Aligned(a, k) && Block(a, k) <= FreePages(z, pages, -1)
    ensures a in FreePages(z, pages, -1)
    ensures Owner(pages, a) < |pages| && pages[Owner(pages, a)].order >= k
    decreases k
  {
    hide FreePages, Tiling, Canonical, Block, Owner, PagesOf, Aligned, Pow2;
    assert a in Block(a, k) by { BlockHas(a, k); }
    FreePageOwner(z, pages, a);
    if k > 0 {
      var m := a + Pow2(k - 1);
      SplitFacts(a, k - 1);
      HalvesWithin(FreePages(z, pages, -1), a, k - 1);
      RunInOneBlock(z, pages, a, k - 1);
      RunInOneBlock(z, pages, m, k - 1);
      FreePageOwner(z, pages, m);
      HalvesMerge(z, pages, a, k - 1, Owner(pages, a), Owner(pages, m));
    }
  }

  lemma HalvesMerge(z: Zone, pages: seq<Page>, a: nat, k: nat, h1: nat, h2: nat)
    requires NoBuddies(z, pages) && k < MAX_ORDER && Aligned(a, k + 1)
    requires h1 < |pages| && PagesOf(z, pages, h1, pages[h1].order) && pages[h1].flag.Free? && pages[h1].order >= k
    requires h2 < |pages| && PagesOf(z, pages, h2, pages[h2].order) && pages[h2].flag.Free? && pages[h2].order >= k
    requires h1 <= a < h1 + Pow2(pages[h1].order) && Aligned(h1, pages[h1].order)
    requires h2 <= a + Pow2(k) < h2 + Pow2(pages[h2].order) && Aligned(h2, pages[h2].order)
    ensures pages[h1].order > k
  {
    hide Aligned, Xor, Pow2, Owner;
    var m, o1, o2 := a + Pow2(k), pages[h1].order, pages[h2].order;
    SplitFacts(a, k);
    Pow2Twice(k);
    Laminar(m, k, h2, o2);
    if o2 > k {
      hide Canonical;
      Laminar(a, k + 1, h2, o2);
      SameBlock(z, pages, h2, o2, a);
      SameBlock(z, pages, h1, o1, a);
    } else {
      hide Tiling;
      Laminar(a, k, h1, o1);
      assert h2 == m;
      assert NotMergeable(z, pages, -1, m);
    }
  }

  lemma BlockIsFree(z: Zone, pages: seq<Page>, h: nat)
    requires Tiling(z, pages) && IsFreeHead(z, pages, -1, h)
    ensures pages[h].order <= MAX_ORDER && Aligned(h, pages[h].order)
    ensures Block(h, pages[h].order) <= FreePages(z, pages, -1)
  {
    assert BlockOk(z, pages, h);
    forall p | p in Block(h, pages[h].order)
      ensures p in FreePages(z, pages, -1)
    {
      SameBlock(z, pages, h, pages[h].order, p);
    }
  }

  /** Every free block of one coalesced map lies inside a free block of any other
      coalesced map with at least the same free pages. */
  lemma BlockInside(z: Zone, p1: seq<Page>, p2: seq<Page>, h: nat)
    requires NoBuddies(z, p1) && NoBuddies(z, p2)
    requires FreePages(z, p1, -1) <= FreePages(z, p2, -1) && IsFreeHead(z, p1, -1, h)
    ensures h < |p2| && Owner(p2, h) < |p2|
    ensures var g := Owner(p2, h);
      && IsFreeHead(z, p2, -1, g) && p2[g].order >= p1[h].order && Aligned(g, p2[g].order)
      && g <= h && h + Pow2(p1[h].order) <= g + Pow2(p2[g].order)
  {
    hide NotMergeable;
    BlockIsFree(z, p1, h);
    var k := p1[h].order;
    RunInOneBlock(z, p2, h, k);
    FreePageOwner(z, p2, h);
    Laminar(h, k, Owner(p2, h), p2[Owner(p2, h)].order);
  }

  lemma HeadsAgree(z: Zone, p1: seq<Page>, p2: seq<Page>, h: nat)
    requires NoBuddies(z, p1) && NoBuddies(z, p2)
    requires FreePages(z, p1, -1) == FreePages(z, p2, -1) && IsFreeHead(z, p1, -1, h)
    ensures IsFreeHead(z, p2, -1, h) && p2[h].order == p1[h].order
  {
    hide FreePages, Canonical, Aligned;
    BlockInside(z, p1, p2, h);
    var g := Owner(p2, h);
    BlockInside(z, p2, p1, g);
    var f := Owner(p1, g);
    SameBlock(z, p1, f, p1[f].order, h);
    SameBlock(z, p1, h, p1[h].order, h);
    assert f == h;
  }

  /** The set of free pages determines the free blocks. */
  lemma FreeSetIsCanonical(z: Zone, p1: seq<Page>, p2: seq<Page>)
    requires NoBuddies(z, p1) && NoBuddies(z, p2)
    requires FreePages(z, p1, -1) == FreePages(z, p2, -1)
    ensures FreeHeads(z, p1) == FreeHeads(z, p2)
  {
    hide FreePages, Canonical, Tiling;
    forall h: nat
      ensures IsFreeHead(z, p1, -1, h) ==> IsFreeHead(z, p2, -1, h) && p2[h].order == p1[h].order
      ensures IsFreeHead(z, p2, -1, h) ==> IsFreeHead(z, p1, -1, h)
    {
      if IsFreeHead(z, p1, -1, h) { HeadsAgree(z, p1, p2, h); }
      if IsFreeHead(z, p2, -1, h) { HeadsAgree(z, p2, p1, h); }
    }
  }

  // ------------------------------------------------------------ completeness

  ghost predicate HasFreeRun(z: Zone, s: Buddy, k: nat) {
    exists a: nat :: Aligned(a, k) && Block(a, k) <= FreePages(z, s.pages, -1)
  }

  /** Allocation panics exactly when no aligned run of 2^k free pages exists. */
  lemma AllocComplete(z: Zone, s: Buddy, k: nat)
    requires Inv(z, s) && k <= MAX_ORDER
    ensures Alloc(z, s, k).Panic? <==> !HasFreeRun(z, s, k)
  {
    hide FreePages, Span;
    if Alloc(z, s, k).Got? {
      AllocKeeps(z, s, k);
    }
    if HasFreeRun(z, s, k) {
      var a: nat :| Aligned(a, k) && Block(a, k) <= FreePages(z, s.pages, -1);
      RunInOneBlock(z, s.pages, a, k);
      FreePageOwner(z, s.pages, a);
      var h := Owner(s.pages, a);
      assert Listed(z, s.pages, s.lists, -1, s.pages[h].order, h);
      FirstOrderFacts(s.lists, k);
    }
  }

  /** Live blocks never overlap each other or a free page. */
  lemma LiveBlocksApart(z: Zone, s: Buddy, i: nat, j: nat)
    requires Inv(z, s) && i in UsedHeads(z, s.pages, -1) && j in UsedHeads(z, s.pages, -1) && i != j
    ensures Block(i, UsedHeads(z, s.pages, -1)[i]) !! Block(j, UsedHeads(z, s.pages, -1)[j])
    ensures Block(i, UsedHeads(z, s.pages, -1)[i]) !! FreePages(z, s.pages, -1)
    ensures Block(i, UsedHeads(z, s.pages, -1)[i]) <= Span(z.lo, z.hi)
  {
    hide ListsOk, Canonical;
    if i < j { HeadsApart(z, s.pages, i, j); } else { HeadsApart(z, s.pages, j, i); }
    HolePages(z, s.pages, i, s.pages[i].order);
  }
}
