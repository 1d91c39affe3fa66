/** A whole call of the allocator: what allocation and release do to the set of
    free pages, to the live blocks and to the invariant. */
module BuddyCalls {
  import opened Bits
  import opened BuddyModel
  import opened BuddySteps

  // ---------------------------------------------- taking and placing a block

  ghost predicate PagesOf(z: Zone, pages: seq<Page>, i: nat, k: nat) {
    Tiling(z, pages) && z.lo <= i < z.hi && IsHead(pages[i]) && pages[i].order == k
  }

  lemma BlockOwns(z: Zone, pages: seq<Page>, i: nat, k: nat, p: nat)
    requires PagesOf(z, pages, i, k) && z.lo <= p < z.hi
    ensures i + Pow2(k) <= z.hi
    ensures Owner(pages, p) == i <==> i <= p < i + Pow2(k)
  {
    assert BlockOk(z, pages, i);
    assert Owned(z, pages, p);
    if i <= p < i + Pow2(k) { OwnerInBlock(z, pages, i, p); }
  }

  /** The pages of the block in hand are not among the free pages, and putting it
      back as a free block adds exactly them. */
  lemma HolePages(z: Zone, pages: seq<Page>, i: nat, k: nat)
    requires PagesOf(z, pages, i, k)
    ensures i + Pow2(k) <= z.hi
    ensures FreePages(z, pages, i) !! Block(i, k)
    ensures pages[i].flag.Free? ==> FreePages(z, pages, -1) == FreePages(z, pages, i) + Block(i, k)
    ensures pages[i].flag.Used? ==> FreePages(z, pages, -1) == FreePages(z, pages, i)
  {
    BlockOwns(z, pages, i, k, i);
    forall p: nat | z.lo <= p < z.hi
      ensures InFree(pages, i, p) ==> !(i <= p < i + Pow2(k))
      ensures InFree(pages, -1, p) <==>
              InFree(pages, i, p) || (pages[i].flag.Free? && i <= p < i + Pow2(k))
    {
      BlockOwns(z, pages, i, k, p);
    }
  }

  /** Changing only the flag of a head keeps the tiling and every owner. */
  lemma {:induction false} SameOwner(pages: seq<Page>, i: nat, v: Page, p: nat)
    requires i < |pages| && IsHead(pages[i]) && IsHead(v) && p < |pages|
    ensures Owner(pages[i := v], p) == Owner(pages, p)
  {
    if p > 0 && pages[p].flag.Tail? {
      SameOwner(pages, i, v, p - 1);
    }
  }

  lemma RelabelTiling(z: Zone, pages: seq<Page>, i: nat, k: nat, v: Page)
    requires PagesOf(z, pages, i, k) && IsHead(v) && v.order == k
    ensures PagesOf(z, pages[i := v], i, k)
    ensures forall p :: z.lo <= p < z.hi ==> Owner(pages[i := v], p) == Owner(pages, p)
  {
    var pages' := pages[i := v];
    forall p | z.lo <= p < z.hi
      ensures Owner(pages', p) == Owner(pages, p) && Owned(z, pages', p)
    {
      SameOwner(pages, i, v, p);
      assert Owned(z, pages, p);
    }
    forall h | z.lo <= h < z.hi && IsHead(pages'[h])
      ensures BlockOk(z, pages', h)
    {
      assert BlockOk(z, pages, h);
    }
  }

  lemma RelabelFree(z: Zone, pages: seq<Page>, i: nat, k: nat, v: Page)
    requires PagesOf(z, pages, i, k) && IsHead(v) && v.order == k
    ensures FreePages(z, pages[i := v], i) == FreePages(z, pages, i)
    ensures UsedHeads(z, pages[i := v], i) == UsedHeads(z, pages, i)
  {
    RelabelTiling(z, pages, i, k, v);
    forall p: nat | z.lo <= p < z.hi
      ensures InFree(pages[i := v], i, p) <==> InFree(pages, i, p)
    {
    }
  }

  lemma PlaceUsedLists(z: Zone, s: Buddy, i: nat, k: nat)
    requires Hand(z, s, i, k)
    ensures ListsOk(z, s.pages[i := Page(k, Used)], s.lists, -1)
    ensures Canonical(z, s.pages[i := Page(k, Used)], -1)
  {
    var pages := s.pages[i := Page(k, Used)];
    forall j, h: nat | 0 <= j <= MAX_ORDER
      ensures Listed(z, pages, s.lists, -1, j, h)
    {
      assert Listed(z, s.pages, s.lists, i, j, h);
    }
    forall h: nat
      ensures NotMergeable(z, pages, -1, h)
    {
      assert NotMergeable(z, s.pages, i, h);
    }
  }

  /** Handing the block in hand to the caller. */
  lemma PlaceUsed(z: Zone, s: Buddy, i: nat, k: nat)
    requires Hand(z, s, i, k)
    ensures var pages := s.pages[i := Page(k, Used)];
      && Tiling(z, pages) && ListsOk(z, pages, s.lists, -1) && Canonical(z, pages, -1)
      && FreePages(z, pages, -1) == FreePages(z, s.pages, i)
      && UsedHeads(z, pages, -1) == UsedHeads(z, s.pages, i)[i := k]
  {
    var v := Page(k, Used);
    RelabelTiling(z, s.pages, i, k, v);
    RelabelFree(z, s.pages, i, k, v);
    HolePages(z, s.pages[i := v], i, k);
    PlaceUsedLists(z, s, i, k);
  }

  lemma PlaceFreeLists(z: Zone, s: Buddy, i: nat, k: nat)
    requires Hand(z, s, i, k) && k <= MAX_ORDER
    ensures ListsOk(z, s.pages[i := Page(k, Free)], Push(s.lists, k, i), -1)
  {
    var pages := s.pages[i := Page(k, Free)];
    forall j, h: nat | 0 <= j <= MAX_ORDER
      ensures Listed(z, pages, Push(s.lists, k, i), -1, j, h)
    {
      assert Listed(z, s.pages, s.lists, i, j, h);
    }
    assert Listed(z, s.pages, s.lists, i, k, i);
  }

  lemma PlaceFreeCanonical(z: Zone, s: Buddy, i: nat, k: nat)
    requires Hand(z, s, i, k) && !CanMerge(z, s, i, k)
    ensures Canonical(z, s.pages[i := Page(k, Free)], -1)
  {
    var pages := s.pages[i := Page(k, Free)];
    forall h: nat
      ensures NotMergeable(z, pages, -1, h)
    {
      assert NotMergeable(z, s.pages, i, h);
      if IsFreeHead(z, pages, -1, h) && pages[h].order < MAX_ORDER {
        assert BlockOk(z, s.pages, h);
        BuddyFacts(h, pages[h].order);
      }
    }
  }

  /** Putting the block in hand on its free list, once its buddy is not free. */
  lemma PlaceFree(z: Zone, s: Buddy, i: nat, k: nat)
    requires Hand(z, s, i, k) && !CanMerge(z, s, i, k)
    ensures k <= MAX_ORDER
    ensures var pages := s.pages[i := Page(k, Free)];
      && Tiling(z, pages) && ListsOk(z, pages, Push(s.lists, k, i), -1) && Canonical(z, pages, -1)
      && FreePages(z, pages, -1) == FreePages(z, s.pages, i) + Block(i, k)
      && UsedHeads(z, pages, -1) == UsedHeads(z, s.pages, i)
  {
    var v := Page(k, Free);
    assert BlockOk(z, s.pages, i);
    RelabelTiling(z, s.pages, i, k, v);
    RelabelFree(z, s.pages, i, k, v);
    HolePages(z, s.pages[i := v], i, k);
    PlaceFreeLists(z, s, i, k);
    PlaceFreeCanonical(z, s, i, k);
  }

  // ---------------------------------------------------------- the counters

  lemma UsedIsRest(z: Zone, pages: seq<Page>)
    requires Tiling(z, pages)
    ensures UsedPages(z, pages) == Span(z.lo, z.hi) - FreePages(z, pages, -1)
    ensures |UsedPages(z, pages)| == z.hi - z.lo - |FreePages(z, pages, -1)|
  {
    forall p: nat | z.lo <= p < z.hi
      ensures InFree(pages, -1, p) <==> !pages[Owner(pages, p)].flag.Used?
    {
      assert Owned(z, pages, p);
    }
    assert FreePages(z, pages, -1) <= Span(z.lo, z.hi);
    SpanSize(z.lo, z.hi);
  }

  // ------------------------------------------------------------- allocation

  lemma TakeLists(z: Zone, s: Buddy, c: nat)
    requires ListsOk(z, s.pages, s.lists, -1) && c <= MAX_ORDER && s.lists[c] != []
    ensures ListsOk(z, s.pages, TakeHead(s, c).lists, s.lists[c][0])
  {
    var top, s' := s.lists[c][0], TakeHead(s, c);
    assert s.lists[c] == [top] + s'.lists[c];
    forall j, h: nat | 0 <= j <= MAX_ORDER
      ensures Listed(z, s'.pages, s'.lists, top, j, h)
    {
      assert Listed(z, s.pages, s.lists, -1, j, h) && Listed(z, s.pages, s.lists, -1, c, top);
    }
  }

  lemma TakeHand(z: Zone, s: Buddy, c: nat)
    requires Inv(z, s) && c <= MAX_ORDER && s.lists[c] != []
    ensures var top := s.lists[c][0];
      && Hand(z, TakeHead(s, c), top, c)
      && FreePages(z, s.pages, -1) == FreePages(z, s.pages, top) + Block(top, c)
      && UsedHeads(z, s.pages, -1) == UsedHeads(z, s.pages, top)
      && FreePages(z, s.pages, top) !! Block(top, c)
  {
    hide Aligned, Xor, Pow2;
    var top := s.lists[c][0];
    assert Listed(z, s.pages, s.lists, -1, c, top);
    TakeLists(z, s, c);
    HolePages(z, s.pages, top, c);
    forall h: nat
      ensures NotMergeable(z, s.pages, top, h)
    {
      assert NotMergeable(z, s.pages, -1, h);
    }
  }

  /** Which lists the splitting loop touches: one block pushed on each of the
      lists order..cur-1, nothing else. */
  ghost predicate SplitListsAre(lists: Lists, lists': Lists, top: nat, cur: nat, order: nat) {
    forall j :: 0 <= j <= MAX_ORDER ==>
      lists'[j] == if order <= j < cur then [top + Pow2(j)] + lists[j] else lists[j]
  }

  lemma {:induction false} SplitAll(z: Zone, s: Buddy, top: nat, cur: nat, order: nat)
    requires Hand(z, s, top, cur) && order <= cur <= MAX_ORDER
    ensures var s' := Split(z, s, top, cur, order);
      && Hand(z, s', top, order)
      && FreePages(z, s'.pages, top) == FreePages(z, s.pages, top) + Span(top + Pow2(order), top + Pow2(cur))
      && UsedHeads(z, s'.pages, top) == UsedHeads(z, s.pages, top)
    decreases cur
  {
    hide Hand, FreePages, UsedHeads, SplitStep, Pow2;
    if order == cur {
      assert Split(z, s, top, cur, order) == s;
      assert Span(top + Pow2(order), top + Pow2(cur)) == {};
    } else {
      var s1 := SplitStep(z, s, top, cur - 1);
      SplitKeeps(z, s, top, cur - 1);
      SplitAll(z, s1, top, cur - 1, order);
      assert Split(z, s, top, cur, order) == Split(z, s1, top, cur - 1, order);
      Pow2Mono(order, cur - 1);
      Pow2Twice(cur - 1);
      SpanJoin(top + Pow2(order), top + Pow2(cur - 1), top + Pow2(cur));
    }
  }

  lemma SplitListsStep(l: Lists, l1: Lists, l': Lists, top: nat, cur: nat, order: nat)
    requires order < cur <= MAX_ORDER
    requires l1 == Push(l, cur - 1, top + Pow2(cur - 1))
    requires SplitListsAre(l1, l', top, cur - 1, order)
    ensures SplitListsAre(l, l', top, cur, order)
  {
    hide Pow2;
  }

  lemma {:induction false} SplitAllLists(z: Zone, s: Buddy, top: nat, cur: nat, order: nat)
    requires Hand(z, s, top, cur) && order <= cur <= MAX_ORDER
    ensures SplitListsAre(s.lists, Split(z, s, top, cur, order).lists, top, cur, order)
    decreases cur
  {
    hide Hand, Splittable, FreePages, UsedHeads, SplitPages, SplitStep, Pow2, Push, Block;
    if order == cur {
      assert Split(z, s, top, cur, order) == s;
    } else {
      var s1 := SplitStep(z, s, top, cur - 1);
      SplitKeeps(z, s, top, cur - 1);
      SplitShape(z, s, top, cur - 1);
      SplitAllLists(z, s1, top, cur - 1, order);
      assert Split(z, s, top, cur, order) == Split(z, s1, top, cur - 1, order);
      SplitListsStep(s.lists, s1.lists, Split(z, s, top, cur, order).lists, top, cur, order);
    }
  }

  /** Allocation on a state that keeps the invariant: the block returned is an
      aligned run of 2^order pages taken from the free pages, it becomes the one
      new live block, and the invariant holds again. */
  lemma AllocKeeps(z: Zone, s: Buddy, order: nat)
    requires Inv(z, s) && Alloc(z, s, order).Got?
    ensures var Got(s', i) := Alloc(z, s, order);
      && Inv(z, s')
      && Aligned(i, order) && Block(i, order) <= FreePages(z, s.pages, -1)
      && FreePages(z, s'.pages, -1) == FreePages(z, s.pages, -1) - Block(i, order)
      && i !in UsedHeads(z, s.pages, -1)
      && UsedHeads(z, s'.pages, -1) == UsedHeads(z, s.pages, -1)[i := order]
  {
    var c := FirstOrder(s.lists, order);
    FirstOrderFacts(s.lists, order);
    var top, s0 := s.lists[c][0], TakeHead(s, c);
    TakeHand(z, s, c);
    SplitAll(z, s0, top, c, order);
    Pow2Mono(order, c);
    var s1 := Split(z, s0, top, c, order);
    PlaceUsed(z, s1, top, order);
    assert BlockOk(z, s1.pages, top);
    AllocSets(z, s, Alloc(z, s, order).state, top, order, c, FreePages(z, s.pages, top));
  }

  lemma AllocSets(z: Zone, s: Buddy, s': Buddy, i: nat, k: nat, c: nat, rest: set<nat>)
    requires Inv(z, s) && Tiling(z, s'.pages) && Pow2(k) <= Pow2(c)
    requires FreePages(z, s.pages, -1) == rest + Block(i, c) && rest !! Block(i, c)
    requires FreePages(z, s'.pages, -1) == rest + Span(i + Pow2(k), i + Pow2(c))
    requires s'.freeCount == s.freeCount - Pow2(k) && s'.usedCount == s.usedCount + Pow2(k)
    ensures Block(i, k) <= FreePages(z, s.pages, -1)
    ensures FreePages(z, s'.pages, -1) == FreePages(z, s.pages, -1) - Block(i, k)
    ensures s'.freeCount == |FreePages(z, s'.pages, -1)| && s'.usedCount == |UsedPages(z, s'.pages)|
  {
    hide Tiling, ListsOk, Canonical, FreePages, UsedPages, Span;
    UsedIsRest(z, s.pages);
    UsedIsRest(z, s'.pages);
    SpanJoin(i, i + Pow2(k), i + Pow2(c));
    SpanSize(i, i + Pow2(k));
    TakeAway(FreePages(z, s.pages, -1), FreePages(z, s'.pages, -1), rest, Block(i, k), Span(i + Pow2(k), i + Pow2(c)));
  }

  lemma TakeAway(f: set<nat>, f': set<nat>, rest: set<nat>, a: set<nat>, b: set<nat>)
    requires f == rest + (a + b) && rest !! (a + b) && a !! b && f' == rest + b
    ensures a <= f && f' == f - a && |f'| == |f| - |a|
  {
    assert f == f' + a && f' !! a;
  }

  // ---------------------------------------------------------------- release

  /** The merging loop run to its end: the block in hand grows over free buddies,
      and stops where it has no free buddy. */
  lemma {:induction false} MergeAll(z: Zone, s: Buddy, i: nat, k: nat)
    requires Hand(z, s, i, k) && k <= MAX_ORDER && !PhantomMatches(z)
    ensures var Merged(s', m, o) := Merge(z, s, i, k);
      && Hand(z, s', m, o) && !CanMerge(z, s', m, o) && k <= o
      && FreePages(z, s'.pages, m) + Block(m, o) == FreePages(z, s.pages, i) + Block(i, k)
      && UsedHeads(z, s'.pages, m) == UsedHeads(z, s.pages, i)
    decreases MAX_ORDER - k
  {
    hide Hand, FreePages, UsedHeads, MergeStep, Span, PhantomMatches;
    if CanMerge(z, s, i, k) {
      var b, s1 := BuddyOf(z, s.pages, i), MergeStep(z, s, i, k);
      MergeKeeps(z, s, i, k);
      MergeBlock(z, s, i, k);
      MergeAll(z, s1, Lower(i, b), k + 1);
      calc {
        FreePages(z, s.pages, i) + Block(i, k);
        (FreePages(z, s1.pages, Lower(i, b)) + Block(b, k)) + Block(i, k);
        FreePages(z, s1.pages, Lower(i, b)) + (Block(b, k) + Block(i, k));
        FreePages(z, s1.pages, Lower(i, b)) + Block(Lower(i, b), k + 1);
      }
    }
  }

  lemma MergeBlock(z: Zone, s: Buddy, i: nat, k: nat)
    requires Hand(z, s, i, k) && CanMerge(z, s, i, k) && !PhantomMatches(z)
    ensures var b := BuddyOf(z, s.pages, i);
      Block(b, k) + Block(i, k) == Block(Lower(i, b), k + 1)
  {
    MergeShape(z, s, i, k);
    var b := BuddyOf(z, s.pages, i);
    JoinFacts(z, s.pages, i, k, b);
    var m := Lower(i, b);
    SpanJoin(m, m + Pow2(k), m + Pow2(k + 1));
  }

  /** The block given back, before any merging, is a block in hand. */
  lemma ReleaseHand(z: Zone, s: Buddy, i: nat, fc: int, uc: int)
    requires Inv(z, s) && i in UsedHeads(z, s.pages, -1)
    ensures Hand(z, s.(freeCount := fc, usedCount := uc), i, s.pages[i].order)
    ensures FreePages(z, s.pages, i) == FreePages(z, s.pages, -1)
    ensures UsedHeads(z, s.pages, i) == UsedHeads(z, s.pages, -1) - {i}
    ensures FreePages(z, s.pages, -1) !! Block(i, s.pages[i].order)
    ensures s.pages[i].order <= MAX_ORDER
  {
    hide Aligned, Xor, Pow2;
    HolePages(z, s.pages, i, s.pages[i].order);
    assert BlockOk(z, s.pages, i);
    forall j, h: nat | 0 <= j <= MAX_ORDER
      ensures Listed(z, s.pages, s.lists, i, j, h)
    {
      assert Listed(z, s.pages, s.lists, -1, j, h);
    }
    forall h: nat
      ensures NotMergeable(z, s.pages, i, h)
    {
      assert NotMergeable(z, s.pages, -1, h);
    }
  }

  lemma ReleaseCounts(z: Zone, s: Buddy, s': Buddy, i: nat, k: nat)
    requires Inv(z, s) && Tiling(z, s'.pages)
    requires FreePages(z, s'.pages, -1) == FreePages(z, s.pages, -1) + Block(i, k)
    requires FreePages(z, s.pages, -1) !! Block(i, k)
    requires s'.freeCount == s.freeCount + Pow2(k) && s'.usedCount == s.usedCount - Pow2(k)
    ensures s'.freeCount == |FreePages(z, s'.pages, -1)| && s'.usedCount == |UsedPages(z, s'.pages)|
  {
    hide Tiling, ListsOk, Canonical, FreePages, UsedPages, Span;
    UsedIsRest(z, s.pages);
    UsedIsRest(z, s'.pages);
    SpanSize(i, i + Pow2(k));
  }

  /** Release of a live block: its pages become free, no other live block
      changes, and the invariant holds again. */
  lemma DeallocKeeps(z: Zone, s: Buddy, i: nat)
    requires Inv(z, s) && i in UsedHeads(z, s.pages, -1) && !PhantomMatches(z)
    ensures s.pages[i].order <= MAX_ORDER
    ensures var s', k := Dealloc(z, s, i), s.pages[i].order;
      && Inv(z, s')
      && FreePages(z, s.pages, -1) !! Block(i, k)
      && FreePages(z, s'.pages, -1) == FreePages(z, s.pages, -1) + Block(i, k)
      && UsedHeads(z, s'.pages, -1) == UsedHeads(z, s.pages, -1) - {i}
  {
    hide Hand, Tiling, ListsOk, Canonical, FreePages, UsedHeads, UsedPages, Merge, Span, PhantomMatches, CanMerge;
    UsedInMap(z, s.pages, i);
    var k := s.pages[i].order;
    var s0 := s.(usedCount := s.usedCount - Pow2(k), freeCount := s.freeCount + Pow2(k));
    ReleaseHand(z, s, i, s0.freeCount, s0.usedCount);
    MergeAll(z, s0, i, k);
    var m := Merge(z, s0, i, k);
    HandInMap(z, m.state, m.index, m.order);
    PlaceFree(z, m.state, m.index, m.order);
    var s' := Dealloc(z, s, i);
    assert s'.pages == m.state.pages[m.index := Page(m.order, Free)];
    ReleaseCounts(z, s, s', i, k);
  }

  lemma UsedInMap(z: Zone, pages: seq<Page>, i: nat)
    requires i in UsedHeads(z, pages, -1)
    ensures i < |pages|
  {
  }

  lemma HandInMap(z: Zone, s: Buddy, i: nat, k: nat)
    requires Hand(z, s, i, k)
    ensures i < |s.pages|
  {
  }
}
