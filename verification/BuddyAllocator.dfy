/** The allocator as the kernel runs it: a page map updated in place, free lists
    linked through the map, and two counters, proved to compute the value model. */
module BuddyAllocator {
  import opened Bits
  import opened NodeList
  import opened BuddyModel
  import opened BuddySteps
  import opened BuddyCalls
  import opened BuddyBoot

  class Allocator {
    const zone: Zone
    /** The n entries of the page map, and the one entry's worth of memory that
        follows them. */
    const pages: array<Page>
    const pool: Pool
    var freeCount: int
    var usedCount: int

    ghost predicate Shape()
      reads this, pages, pool
    {
      && pages.Length == zone.n + 1 && pages[zone.n] == zone.beyond
      && pool.Valid() && |pool.lists| == MAX_ORDER + 1
    }

    ghost function State(): Buddy
      requires Shape()
      reads this, pages, pool
    {
      Buddy(pages[..zone.n], pool.lists, freeCount, usedCount)
    }

    ghost predicate Valid()
      reads this, pages, pool
    {
      Shape() && Inv(zone, State()) && !PhantomMatches(zone)
    }

    ghost function Live(): map<nat, nat>
      requires Shape()
      reads this, pages, pool
    {
      UsedHeads(zone, State().pages, -1)
    }

    /** make_pages: every page starts out as the kernel's. */
    constructor (z: Zone)
      ensures zone == z && Shape() && State() == Blank(z.n)
      ensures fresh(pages) && fresh(pool)
    {
      zone := z;
      pages := new Page[z.n + 1](i => if i < z.n then Page(0, Kernel) else z.beyond);
      pool := new Pool(MAX_ORDER + 1);
      freeCount, usedCount := 0, 0;
      new;
      assert pages[..zone.n] == Blank(z.n).pages;
      assert pool.lists == Blank(z.n).lists;
    }

    /** Mark one block free, head and tails, and put it on its list. */
    method AddOne(p: nat, k: nat)
      requires Shape() && k <= MAX_ORDER && p + Pow2(k) <= zone.n
      requires forall j :: 0 <= j < |pool.lists| ==> p !in pool.lists[j]
      modifies this, pages, pool
      ensures Shape() && State() == AddBlock(old(State()), p, k)
    {
      ghost var s := State();
      freeCount := freeCount + Pow2(k);
      pages[p] := Page(k, Free);
      ghost var base := s.pages[p := Page(k, Free)];
      var tail, tails := 1, Pow2(k);
      while tail < tails
        modifies pages
        invariant 1 <= tail <= tails && pages[zone.n] == zone.beyond
        invariant forall i :: 0 <= i < zone.n ==>
                    pages[i] == if p < i < p + tail then base[i].(flag := Tail) else base[i]
      {
        pages[p + tail] := pages[p + tail].(flag := Tail);
        tail := tail + 1;
      }
      assert pages[..zone.n] == SetTails(base, p + 1, p + Pow2(k));
      pool.PushNode(k, p);
    }

    /** The inner loop of add_pages: the largest order whose block is aligned at
        address at and ends by end, or -1. */
    method PickOrder(at: nat, end: nat, ghost p: nat) returns (k: int)
      requires at == PAGE * p && p <= end / PAGE
      ensures -1 <= k <= MAX_ORDER
      ensures k >= 0 <==> p < end / PAGE
      ensures k >= 0 ==> Fit(p, end / PAGE, MAX_ORDER) == k
    {
      hide Aligned;
      ghost var hi := end / PAGE;
      k := MAX_ORDER;
      while k >= 0
        invariant -1 <= k <= MAX_ORDER
        invariant k >= 0 ==> Fit(p, hi, MAX_ORDER) == Fit(p, hi, k)
        invariant k < 0 ==> p == hi
      {
        FitsInBytes(p, hi, end, k);
        if Aligned(at, 12 + k) && at + PAGE * Pow2(k) <= end {
          return;
        }
        assert k == 0 ==> Aligned(p, 0) by { AlignedZero(p); }
        k := k - 1;
      }
    }

    /** add_pages over the byte range start..end. */
    method AddPages(start: nat, end: nat)
      requires Shape() && State() == Blank(zone.n) && ZoneOk(zone)
      requires start == PAGE * zone.lo && zone.hi == end / PAGE
      modifies this, pages, pool
      ensures Shape() && State() == Boot(zone) && Inv(zone, State())
    {
      hide Tiled, Inv, Wf, Fit, AddBlock, Blank, Aligned, Pow2;
      BlankTiled(zone.(hi := zone.lo), zone.hi);
      BootInv(zone);
      var at, stuck := start, false;
      ghost var p := zone.lo;
      while at < end && !stuck
        invariant zone.lo <= p <= zone.hi && at == PAGE * p
        invariant stuck ==> p == zone.hi
        invariant Shape() && Tile(State(), p, zone.hi) == Boot(zone)
        invariant Tiled(zone.(hi := p), State(), p, zone.hi)
        decreases end - at, !stuck
      {
        var k := PickOrder(at, end, p);
        if k >= 0 {
          FitFacts(p, zone.hi, MAX_ORDER);
          TiledLoose(zone.(hi := p), State(), p, zone.hi);
          AddTiled(zone.(hi := p), State(), p, zone.hi);
          AddOne(at / PAGE, k);
          at := at + PAGE * Pow2(k);
          p := p + Pow2(k);
        } else {
          stuck := true;
        }
      }
    }

    /** One turn of the splitting loop, in place. */
    method SplitOnce(top: nat, c: nat)
      requires Shape() && c < MAX_ORDER && Hand(zone, State(), top, c + 1)
      modifies this, pages, pool
      ensures Shape() && State() == SplitStep(zone, old(State()), top, c)
      ensures Hand(zone, State(), top, c)
    {
      hide Aligned, Xor, Pow2, Hand, SplitStep;
      SplitKeeps(zone, State(), top, c);
      ghost var s := State();
      HandInMap(zone, s, top, c + 1);
      SplitLoose(zone, s, top, c);
      assert pool.Loose(top + Pow2(c));
      hide Pool.Loose;
      pages[top] := Page(c, Used);
      assert pages[..zone.n] == s.pages[top := Page(c, Used)];
      var sibling := Xor(top, Pow2(pages[top].order));
      assert sibling == top + Pow2(c);
      pages[sibling] := Page(c, Free);
      assert pages[..zone.n] == SplitPages(s.pages, top, c);
      pool.PushNode(c, sibling);
    }

    /** The scan for the first free list that is not empty. */
    method Scan(order: nat) returns (cur: nat)
      requires Shape()
      ensures cur == FirstOrder(State().lists, order)
    {
      hide Wf;
      ghost var lists := State().lists;
      cur := order;
      while cur <= MAX_ORDER
        invariant order <= cur && (cur <= MAX_ORDER + 1 || cur == order)
        invariant FirstOrder(lists, cur) == FirstOrder(lists, order)
      {
        var empty := pool.IsEmpty(cur);
        if !empty {
          return;
        }
        cur := cur + 1;
      }
    }

    method SplitDown(top: nat, c: nat, order: nat)
      requires Shape() && order <= c <= MAX_ORDER && Hand(zone, State(), top, c)
      modifies this, pages, pool
      ensures Shape() && Hand(zone, State(), top, order)
      ensures State() == Split(zone, old(State()), top, c, order)
    {
      hide Hand, Wf, SplitStep;
      ghost var s0 := State();
      var cur := c;
      while cur > order
        invariant order <= cur <= c
        invariant Shape() && Hand(zone, State(), top, cur)
        invariant Split(zone, State(), top, cur, order) == Split(zone, s0, top, c, order)
      {
        cur := cur - 1;
        SplitOnce(top, cur);
      }
    }

    /** Hand the block over: the last writes of buddy_alloc_pages. */
    method MarkUsed(top: nat, order: nat)
      requires Shape() && Hand(zone, State(), top, order)
      modifies this, pages
      ensures Shape() && top < |old(State()).pages|
      ensures State() == old(State()).(pages := old(State()).pages[top := Page(order, Used)],
                                       usedCount := old(usedCount) + Pow2(order),
                                       freeCount := old(freeCount) - Pow2(order))
    {
      hide Hand, Wf;
      ghost var s1 := State();
      HandInMap(zone, s1, top, order);
      pages[top] := Page(order, Used);
      usedCount := usedCount + Pow2(order);
      freeCount := freeCount - Pow2(order);
      assert pages[..zone.n] == s1.pages[top := Page(order, Used)];
    }

    /** buddy_alloc_pages: None is the out-of-memory panic. */
    method AllocPages(order: nat) returns (r: Option<nat>)
      requires Shape() && Inv(zone, State())
      modifies this, pages, pool
      ensures Shape() && Inv(zone, State())
      ensures r.None? <==> Alloc(zone, old(State()), order).Panic?
      ensures r.None? ==> State() == old(State())
      ensures r.Some? ==> r.value == PAGE * Alloc(zone, old(State()), order).index
                          && State() == Alloc(zone, old(State()), order).state
    {
      hide Inv, Hand, Wf, PhantomMatches, Split, FirstOrder, Aligned, Pow2, UsedHeads, BuddyModel.FreePages, Block;
      ghost var s := State();
      var cur := Scan(order);
      if cur > MAX_ORDER {
        return None;
      }
      FirstOrderFacts(s.lists, order);
      TakeHand(zone, s, cur);
      AllocKeeps(zone, s, order);
      var top := pool.PopNode(cur);
      assert State() == TakeHead(s, cur);
      SplitDown(top, cur, order);
      MarkUsed(top, order);
      return Some(PAGE * top);
    }

    /** One turn of the merging loop, in place. Every entry read is one of the
        zone.n + 1 entries of pages. */
    method MergeOnce(index: nat, cur: nat) returns (index': nat, merged: bool)
      requires Shape() && cur < MAX_ORDER && Hand(zone, State(), index, cur) && !PhantomMatches(zone)
      modifies this, pages, pool
      ensures Shape()
      ensures merged <==> CanMerge(zone, old(State()), index, cur)
      ensures !merged ==> State() == old(State()) && index' == index
      ensures merged ==>
        && State() == MergeStep(zone, old(State()), index, cur)
        && index' == Lower(index, BuddyOf(zone, old(State()).pages, index))
        && Hand(zone, State(), index', cur + 1)
    {
      hide Tiling, Canonical, Aligned, Xor, Pow2, PhantomMatches, BuddyModel.FreePages, UsedHeads, Block;
      ghost var s := State();
      HandInMap(zone, s, index, cur);
      BuddyInMap(zone, s, index, cur);
      index' := index;
      var bIndex := Xor(index, Pow2(pages[index].order));
      merged := pages[bIndex].flag == Free && pages[bIndex].order == cur;
      assert pages[bIndex] == At(zone, s.pages, bIndex);
      if merged {
        MergeShape(zone, s, index, cur);
        MergeKeeps(zone, s, index, cur);
        MergeListed(zone, s, bIndex, cur, index);
        pool.RemoveNode(Head(cur), cur, bIndex);
        var top, buddy := index, bIndex;
        if bIndex < index {
          top, buddy, index' := bIndex, index, bIndex;
        }
        pages[top] := Page(cur + 1, Free);
        pages[buddy] := pages[buddy].(flag := Tail);
        assert pages[..zone.n] == JoinPages(s.pages, top, buddy, cur);
      }
    }

    method MergeUp(i: nat, k: nat) returns (index: nat, cur: nat)
      requires Shape() && k <= MAX_ORDER && Hand(zone, State(), i, k) && !PhantomMatches(zone)
      modifies this, pages, pool
      ensures Shape() && Hand(zone, State(), index, cur)
      ensures Merge(zone, old(State()), i, k) == Merged(State(), index, cur)
    {
      hide Hand, Wf, MergeStep, PhantomMatches, BuddyOf;
      ghost var s0 := State();
      var more := true;
      index, cur := i, k;
      while more && cur < MAX_ORDER
        invariant k <= cur <= MAX_ORDER
        invariant Shape() && Hand(zone, State(), index, cur)
        invariant Merge(zone, State(), index, cur) == Merge(zone, s0, i, k)
        invariant !more ==> !CanMerge(zone, State(), index, cur)
        decreases MAX_ORDER - cur, more
      {
        index, more := MergeOnce(index, cur);
        if more {
          cur := cur + 1;
        }
      }
    }

    /** Put the merged block on its list: the last writes of buddy_free_pages. */
    method MarkFree(index: nat, cur: nat)
      requires Shape() && Hand(zone, State(), index, cur) && cur <= MAX_ORDER
      modifies pages, pool
      ensures Shape() && index < |old(State()).pages|
      ensures State() == old(State()).(pages := old(State()).pages[index := Page(cur, Free)],
                                       lists := Push(old(State()).lists, cur, index))
    {
      hide Hand, Wf;
      ghost var s1 := State();
      HandInMap(zone, s1, index, cur);
      SplitFreeLoose(zone, s1, index, cur);
      pages[index] := Page(cur, Free);
      assert pages[..zone.n] == s1.pages[index := Page(cur, Free)];
      pool.PushNode(cur, index);
    }

    /** buddy_free_pages on a live block. */
    method FreePages(addr: nat)
      requires Valid() && addr / PAGE in Live()
      modifies this, pages, pool
      ensures Valid()
      ensures At(zone, old(State()).pages, addr / PAGE).order <= MAX_ORDER
      ensures State() == Dealloc(zone, old(State()), addr / PAGE)
    {
      hide Inv, Hand, Wf, PhantomMatches, UsedHeads, BuddyModel.FreePages, Merge;
      ghost var s := State();
      var index := addr / PAGE;
      UsedInMap(zone, s.pages, index);
      DeallocKeeps(zone, s, index);
      var cur := pages[index].order;
      usedCount := usedCount - Pow2(cur);
      freeCount := freeCount + Pow2(cur);
      ReleaseHand(zone, s, index, freeCount, usedCount);
      index, cur := MergeUp(index, cur);
      MarkFree(index, cur);
    }

    /** get_order_addr. */
    method OrderOf(addr: nat) returns (k: nat)
      requires Valid() && addr / PAGE in Live()
      ensures k == Live()[addr / PAGE]
    {
      k := pages[addr / PAGE].order;
    }
  }

  /** The byte tests of add_pages are the page tests of Fit. */
  lemma FitsInBytes(p: nat, hi: nat, end: nat, k: nat)
    requires hi == end / PAGE && k <= MAX_ORDER
    ensures Aligned(PAGE * p, 12 + k) <==> Aligned(p, k)
    ensures PAGE * p + PAGE * Pow2(k) <= end <==> p + Pow2(k) <= hi
  {
    assert Pow2(12) == PAGE by {
      assert Pow2(6) == 64;
      assert Pow2(9) == 512;
    }
    AlignedShift(p, 12, k);
  }

  lemma TiledLoose(z: Zone, s: Buddy, start: nat, hi: nat)
    requires Tiled(z, s, start, hi)
    ensures forall j :: 0 <= j < |s.lists| ==> start !in s.lists[j]
  {
    forall j | 0 <= j < |s.lists|
      ensures start !in s.lists[j]
    {
      assert Listed(z, s.pages, s.lists, -1, j, start);
    }
  }

  /** The upper half about to be freed is on no list yet. */
  lemma SplitLoose(z: Zone, s: Buddy, top: nat, c: nat)
    requires c < MAX_ORDER && Hand(z, s, top, c + 1)
    ensures forall k :: 0 <= k < |s.lists| ==> top + Pow2(c) !in s.lists[k]
    ensures Xor(top, Pow2(c)) == top + Pow2(c) && |s.pages| == z.n && top + Pow2(c) < z.n && Pow2(c) > 0
    ensures SplitStep(z, s, top, c) ==
            s.(pages := SplitPages(s.pages, top, c), lists := Push(s.lists, c, top + Pow2(c)))
  {
    SplitShape(z, s, top, c);
    Halves(z, s.pages, top, c);
    forall k | 0 <= k < |s.lists|
      ensures top + Pow2(c) !in s.lists[k]
    {
      assert Listed(z, s.pages, s.lists, top, k, top + Pow2(c));
    }
  }

  lemma SplitFreeLoose(z: Zone, s: Buddy, i: nat, k: nat)
    requires Hand(z, s, i, k)
    ensures forall j :: 0 <= j < |s.lists| ==> i !in s.lists[j]
  {
    forall j | 0 <= j < |s.lists|
      ensures i !in s.lists[j]
    {
      assert Listed(z, s.pages, s.lists, i, j, i);
    }
  }

  lemma MergeListed(z: Zone, s: Buddy, b: nat, k: nat, i: nat)
    requires Joinable(z, s.pages, i, k, b) && s.pages[b].flag.Free? && ListsOk(z, s.pages, s.lists, i)
    ensures b in s.lists[k] && b != i && b < z.n
  {
    BuddyFacts(i, k) by { assert BlockOk(z, s.pages, i); }
    assert Listed(z, s.pages, s.lists, i, k, b);
  }
}
