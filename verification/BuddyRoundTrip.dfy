/** An allocation followed at once by its release changes nothing. */
module BuddyRoundTrip {
  import opened Bits
  import opened NodeList
  import opened BuddyModel
  import opened BuddySteps
  import opened BuddyCalls

  /** Inside a block of order c at top that has been split down to order j: the
      entry at distance d from top. */
  ghost predicate InsideOk(page: Page, d: nat, c: nat, j: nat) {
    if exists l: nat :: j <= l < c && d == Pow2(l)
    then page.flag.Free? && page.order < c && d == Pow2(page.order)
    else page.flag.Tail?
  }

  /** u is s with its free block (top, c) taken off its list and split down to
      order j: one free upper half for every order from j to c - 1. */
  ghost predicate OpenedPages(p: seq<Page>, q: seq<Page>, top: nat, c: nat, j: nat) {
    && |q| == |p| && top + Pow2(c) <= |p|
    && (forall i :: 0 <= i < |p| && !(top <= i < top + Pow2(c)) ==> q[i] == p[i])
    && IsHead(q[top]) && q[top].order == j
    && (forall i :: top < i < top + Pow2(c) ==> InsideOk(q[i], i - top, c, j))
  }

  ghost predicate OpenedLists(base: Lists, l: Lists, top: nat, c: nat, j: nat) {
    forall k :: 0 <= k <= MAX_ORDER ==>
      l[k] == if j <= k < c then [top + Pow2(k)] + base[k] else base[k]
  }

  lemma {:induction false} Pow2Injective(a: nat, b: nat)
    requires Pow2(a) == Pow2(b)
    ensures a == b
  {
    if a > 0 && b > 0 {
      Pow2Injective(a - 1, b - 1);
    }
  }

  /** Moving the split level past order j touches only the entry at 2^j. */
  lemma InsideStep(page: Page, page': Page, d: nat, c: nat, j: nat)
    requires j < c && d > 0
    requires d == Pow2(j) ==> page.flag.Tail? && page' == Page(j, Free)
    requires d != Pow2(j) ==> page' == page
    requires InsideOk(page, d, c, j + 1)
    ensures InsideOk(page', d, c, j)
  {
    if d == Pow2(j) {
      assert exists l: nat :: j <= l < c && d == Pow2(l);
    } else if l: nat :| j <= l < c && d == Pow2(l) {
      assert j + 1 <= l;
    }
  }

  lemma InsideBack(page: Page, page': Page, d: nat, c: nat, j: nat)
    requires j < c && d > 0
    requires d == Pow2(j) ==> page'.flag.Tail?
    requires d != Pow2(j) ==> page' == page
    requires InsideOk(page, d, c, j)
    ensures InsideOk(page', d, c, j + 1)
    ensures d == Pow2(j) ==> page == Page(j, Free)
  {
    if d == Pow2(j) {
      assert exists l: nat :: j <= l < c && d == Pow2(l);
      Pow2Injective(page.order, j);
      forall l: nat | j + 1 <= l < c
        ensures d != Pow2(l)
      {
        if d == Pow2(l) { Pow2Injective(l, j); }
      }
    } else if l: nat :| j <= l < c && d == Pow2(l) {
      assert j + 1 <= l;
    }
  }

  lemma OpenStep(p: seq<Page>, q: seq<Page>, top: nat, c: nat, j: nat)
    requires OpenedPages(p, q, top, c, j + 1) && j < c && Pow2(j) < Pow2(c)
    requires q[top + Pow2(j)].flag.Tail?
    ensures OpenedPages(p, SplitPages(q, top, j), top, c, j)
  {
    hide InsideOk;
    var q' := SplitPages(q, top, j);
    forall i | top < i < top + Pow2(c)
      ensures InsideOk(q'[i], i - top, c, j)
    {
      InsideStep(q[i], q'[i], i - top, c, j);
    }
  }

  lemma CloseStep(p: seq<Page>, q: seq<Page>, top: nat, c: nat, j: nat)
    requires OpenedPages(p, q, top, c, j) && j < c && Pow2(j) < Pow2(c)
    ensures q[top + Pow2(j)] == Page(j, Free)
    ensures OpenedPages(p, JoinPages(q, top, top + Pow2(j), j), top, c, j + 1)
  {
    hide InsideOk, Pow2;
    var q' := JoinPages(q, top, top + Pow2(j), j);
    forall i | top < i < top + Pow2(c)
      ensures InsideOk(q'[i], i - top, c, j + 1)
      ensures i - top == Pow2(j) ==> q[i] == Page(j, Free)
    {
      InsideBack(q[i], q'[i], i - top, c, j);
    }
  }

  lemma StrictPow2(j: nat, c: nat)
    requires j < c
    ensures Pow2(j) < Pow2(c)
  {
    Pow2Mono(j + 1, c);
  }

  /** The splitting loop opens the block all the way down. */
  lemma {:induction false} SplitOpens(z: Zone, p: seq<Page>, s: Buddy, top: nat, c: nat, cur: nat, order: nat)
    requires Hand(z, s, top, cur) && order <= cur <= c <= MAX_ORDER
    requires OpenedPages(p, s.pages, top, c, cur)
    ensures OpenedPages(p, Split(z, s, top, cur, order).pages, top, c, order)
    decreases cur
  {
    hide Hand, Splittable, OpenedPages, SplitStep, FreePages, UsedHeads, SplitPages;
    if order < cur {
      var s1 := SplitStep(z, s, top, cur - 1);
      SplitKeeps(z, s, top, cur - 1);
      SplitShape(z, s, top, cur - 1);
      SplitTail(z, s.pages, top, cur - 1);
      StrictPow2(cur - 1, c);
      OpenStep(p, s.pages, top, c, cur - 1);
      SplitOpens(z, p, s1, top, c, cur - 1, order);
    }
  }

  lemma SplitTail(z: Zone, pages: seq<Page>, top: nat, c: nat)
    requires Splittable(z, pages, top, c)
    ensures top + Pow2(c) < |pages| && pages[top + Pow2(c)].flag.Tail?
  {
    Halves(z, pages, top, c);
  }

  lemma OpenedBuddy(p: seq<Page>, z: Zone, s: Buddy, top: nat, c: nat, j: nat)
    requires Hand(z, s, top, j) && j < c <= MAX_ORDER && Aligned(top, c)
    requires OpenedPages(p, s.pages, top, c, j)
    ensures Pow2(j) < Pow2(c)
    ensures top + Pow2(j) < |s.pages| && s.pages[top + Pow2(j)] == Page(j, Free)
    ensures BuddyOf(z, s.pages, top) == top + Pow2(j) && CanMerge(z, s, top, j)
    ensures MergeStep(z, s, top, j).pages == JoinPages(s.pages, top, top + Pow2(j), j)
    ensures OpenedPages(p, MergeStep(z, s, top, j).pages, top, c, j + 1)
  {
    hide Tiling, ListsOk, Canonical, InsideOk, Aligned, Xor, Pow2;
    StrictPow2(j, c);
    CloseStep(p, s.pages, top, c, j);
    AlignedDown(top, j + 1, c);
    SplitFacts(top, j);
  }

  /** The merging loop closes it again and restores every list it passes. */
  lemma {:induction false} MergeCloses(z: Zone, p: seq<Page>, base: Lists, s: Buddy, top: nat, c: nat, j: nat)
    requires Hand(z, s, top, j) && j <= c <= MAX_ORDER && Aligned(top, c) && !PhantomMatches(z)
    requires OpenedPages(p, s.pages, top, c, j) && OpenedLists(base, s.lists, top, c, j)
    ensures exists u: Buddy :: Hand(z, u, top, c) && Merge(z, s, top, j) == Merge(z, u, top, c)
              && OpenedPages(p, u.pages, top, c, c) && u.lists == base
              && u.freeCount == s.freeCount && u.usedCount == s.usedCount
    decreases c - j
  {
    hide Hand, OpenedPages, FreePages, UsedHeads, PhantomMatches, MergeStep, CanMerge, Aligned, Pow2, BuddyOf;
    if j == c {
      assert s.lists == base;
    } else {
      var s1 := MergeStep(z, s, top, j);
      OpenedBuddy(p, z, s, top, c, j);
      MergeKeeps(z, s, top, j);
      MergeListsBack(z, base, s, top, c, j);
      MergeCounts(z, s, top, j);
      MergeCloses(z, p, base, s1, top, c, j + 1);
    }
  }

  lemma MergeCounts(z: Zone, s: Buddy, i: nat, k: nat)
    requires k < MAX_ORDER
    ensures MergeStep(z, s, i, k).freeCount == s.freeCount && MergeStep(z, s, i, k).usedCount == s.usedCount
  {
  }

  lemma MergeListsBack(z: Zone, base: Lists, s: Buddy, top: nat, c: nat, j: nat)
    requires j < c <= MAX_ORDER && OpenedLists(base, s.lists, top, c, j)
    requires BuddyOf(z, s.pages, top) == top + Pow2(j)
    ensures OpenedLists(base, MergeStep(z, s, top, j).lists, top, c, j + 1)
  {
    hide Pow2, Without, BuddyOf, At, Put;
    assert s.lists[j] == [top + Pow2(j)] + base[j];
    WithoutHead(top + Pow2(j), base[j]);
  }

  lemma WithoutHead(x: nat, q: seq<nat>)
    ensures Without([x] + q, x) == q
  {
  }

  /** Equal flags everywhere, equal entries except for the stale order that a
      tail page may carry. */
  ghost predicate SameMap(p: seq<Page>, q: seq<Page>) {
    && |p| == |q|
    && forall i :: 0 <= i < |p| ==> q[i].flag == p[i].flag && (!p[i].flag.Tail? ==> q[i] == p[i])
  }

  lemma ClosedIsSame(z: Zone, p: seq<Page>, q: seq<Page>, top: nat, c: nat)
    requires Tiling(z, p) && IsFreeHead(z, p, -1, top) && p[top].order == c
    requires OpenedPages(p, q, top, c, c)
    ensures SameMap(p, q[top := Page(c, Free)])
  {
    assert BlockOk(z, p, top);
  }

  lemma TakenIsOpened(z: Zone, p: seq<Page>, top: nat, c: nat)
    requires Tiling(z, p) && IsFreeHead(z, p, -1, top) && p[top].order == c
    ensures OpenedPages(p, p, top, c, c)
    ensures Aligned(top, c)
  {
    assert BlockOk(z, p, top);
  }

  /** No further merge at order c: the block was free before, and coalesced. */
  lemma StopsAtHome(z: Zone, s: Buddy, u: Buddy, top: nat, c: nat)
    requires Inv(z, s) && IsFreeHead(z, s.pages, -1, top) && s.pages[top].order == c
    requires Hand(z, u, top, c) && OpenedPages(s.pages, u.pages, top, c, c) && !PhantomMatches(z)
    ensures !CanMerge(z, u, top, c)
  {
    hide ListsOk, InsideOk;
    assert NotMergeable(z, s.pages, -1, top);
    if CanMerge(z, u, top, c) {
      MergeShape(z, u, top, c);
      BuddyInMap(z, u, top, c);
      TakenIsOpened(z, s.pages, top, c);
      BuddyFacts(top, c);
    }
  }

  /** Releasing a block right after allocating it restores every free list as a
      sequence, every flag, every live entry of the map and both counters. */
  lemma AllocThenFree(z: Zone, s: Buddy, order: nat)
    requires Inv(z, s) && Alloc(z, s, order).Got? && !PhantomMatches(z)
    ensures var Got(t, i) := Alloc(z, s, order);
      && At(z, t.pages, i).order <= MAX_ORDER
      && var s' := Dealloc(z, t, i);
         && SameMap(s.pages, s'.pages) && s'.lists == s.lists
         && s'.freeCount == s.freeCount && s'.usedCount == s.usedCount
  {
    hide Hand, OpenedPages, FreePages, UsedHeads, PhantomMatches, Merge, CanMerge, Aligned, Pow2, SameMap, Split,
         ListsOk, Canonical;
    var c := FirstOrder(s.lists, order);
    FirstOrderFacts(s.lists, order);
    var top, s0 := s.lists[c][0], TakeHead(s, c);
    assert IsFreeHead(z, s.pages, -1, top) && s.pages[top].order == c by { TakenFree(z, s, c); }
    TakeHand(z, s, c);
    TakenIsOpened(z, s.pages, top, c);
    SplitOpens(z, s.pages, s0, top, c, c, order);
    SplitAll(z, s0, top, c, order);
    SplitAllLists(z, s0, top, c, order);
    var t := Alloc(z, s, order).state;
    HandInMap(z, Split(z, s0, top, c, order), top, order);
    ReleaseFromSplit(z, s, Split(z, s0, top, c, order), top, c, order, t);
  }

  lemma TakenFree(z: Zone, s: Buddy, c: nat)
    requires Inv(z, s) && c <= MAX_ORDER && s.lists[c] != []
    ensures IsFreeHead(z, s.pages, -1, s.lists[c][0]) && s.pages[s.lists[c][0]].order == c
  {
    assert Listed(z, s.pages, s.lists, -1, c, s.lists[c][0]);
  }

  lemma UsedTop(z: Zone, s: Buddy, p: seq<Page>, top: nat, c: nat, order: nat, fc: int, uc: int)
    requires Hand(z, s, top, order) && OpenedPages(p, s.pages, top, c, order)
    ensures top < |s.pages|
    ensures var t := s.(pages := s.pages[top := Page(order, Used)], freeCount := fc, usedCount := uc);
      Hand(z, t, top, order) && OpenedPages(p, t.pages, top, c, order)
  {
    var v := Page(order, Used);
    RelabelTiling(z, s.pages, top, order, v);
    var pages := s.pages[top := v];
    forall j, h: nat | 0 <= j <= MAX_ORDER
      ensures Listed(z, pages, s.lists, top, j, h)
    {
      assert Listed(z, s.pages, s.lists, top, j, h);
    }
    forall h: nat
      ensures NotMergeable(z, pages, top, h)
    {
      assert NotMergeable(z, s.pages, top, h);
    }
  }

  lemma ReleaseFromSplit(z: Zone, s: Buddy, u: Buddy, top: nat, c: nat, order: nat, t: Buddy)
    requires Inv(z, s) && IsFreeHead(z, s.pages, -1, top) && s.pages[top].order == c && !PhantomMatches(z)
    requires order <= c <= MAX_ORDER && Aligned(top, c) && s.lists[c] != [] && s.lists[c][0] == top
    requires Hand(z, u, top, order) && OpenedPages(s.pages, u.pages, top, c, order)
    requires OpenedLists(TakeHead(s, c).lists, u.lists, top, c, order)
    requires top < |u.pages| && t == u.(pages := u.pages[top := Page(order, Used)],
                                      usedCount := s.usedCount + Pow2(order), freeCount := s.freeCount - Pow2(order))
    ensures At(z, t.pages, top).order <= MAX_ORDER
    ensures var s' := Dealloc(z, t, top);
      && SameMap(s.pages, s'.pages) && s'.lists == s.lists
      && s'.freeCount == s.freeCount && s'.usedCount == s.usedCount
  {
    hide Hand, OpenedPages, FreePages, UsedHeads, PhantomMatches, Merge, CanMerge, Aligned, Pow2, SameMap, ListsOk,
         Canonical, Tiling, UsedPages, Push, TakeHead;
    PushBack(s, c);
    var base := TakeHead(s, c).lists;
    UsedTop(z, u, s.pages, top, c, order, s.freeCount, s.usedCount);
    var t0 := t.(usedCount := s.usedCount, freeCount := s.freeCount);
    assert t0 == u.(pages := u.pages[top := Page(order, Used)], freeCount := s.freeCount, usedCount := s.usedCount);
    MergeCloses(z, s.pages, base, t0, top, c, order);
    var v: Buddy :| Hand(z, v, top, c) && Merge(z, t0, top, order) == Merge(z, v, top, c)
                    && OpenedPages(s.pages, v.pages, top, c, c) && v.lists == base
                    && v.freeCount == s.freeCount && v.usedCount == s.usedCount;
    StopsAtHome(z, s, v, top, c);
    HandInMap(z, v, top, c);
    ClosedIsSame(z, s.pages, v.pages, top, c);
    MergeStops(z, v, top, c);
    var s' := Dealloc(z, t, top);
    assert s'.lists == Push(base, c, top);
  }

  lemma PushBack(s: Buddy, c: nat)
    requires c <= MAX_ORDER && s.lists[c] != []
    ensures Push(TakeHead(s, c).lists, c, s.lists[c][0]) == s.lists
  {
    assert s.lists[c] == [s.lists[c][0]] + s.lists[c][1..];
  }

  lemma MergeStops(z: Zone, s: Buddy, i: nat, k: nat)
    requires k <= MAX_ORDER && !CanMerge(z, s, i, k)
    ensures Merge(z, s, i, k) == Merged(s, i, k)
  {
  }
}
