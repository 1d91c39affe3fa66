/** Which block the allocator takes, and what each call does to the free lists as
    sequences. */
module BuddyOrder {
  import opened Bits
  import opened NodeList
  import opened BuddyModel
  import opened BuddySteps
  import opened BuddyCalls
  import opened BuddyRoundTrip
  import opened BuddyBoot

  // ------------------------------------------------------------- allocation

  /** i is the first block on its list, it is large enough, and no free block that is
      large enough is smaller. */
  ghost predicate BestFit(z: Zone, s: Buddy, k: nat, i: nat) {
    && IsFreeHead(z, s.pages, -1, i)
    && var c := s.pages[i].order;
       && k <= c <= 10 && s.lists[c] != [] && s.lists[c][0] == i
       && forall h: nat :: IsFreeHead(z, s.pages, -1, h) && s.pages[h].order >= k ==> s.pages[h].order >= c
  }

  /** After the block at i has been taken from list c and halved down to order k. */
  ghost predicate HalvesListed(lists: Lists, lists': Lists, i: nat, c: nat, k: nat)
    requires c <= MAX_ORDER && lists[c] != []
  {
    forall j :: 0 <= j <= MAX_ORDER ==>
      lists'[j] == if j == c then lists[c][1..]
                   else if k <= j < c then [i + Pow2(j)]
                   else lists[j]
  }

  /** The block handed out starts the smallest free block that is large enough. The
      upper halves cut off it are the only blocks on their lists, and no other list
      changes. */
  lemma AllocBestFit(z: Zone, s: Buddy, k: nat)
    requires Inv(z, s) && Alloc(z, s, k).Got?
    ensures var Got(s', i) := Alloc(z, s, k);
      BestFit(z, s, k, i) && HalvesListed(s.lists, s'.lists, i, s.pages[i].order, k)
  {
    hide Tiling, Canonical, Split, Hand, FreePages, UsedPages, UsedHeads, Pow2, FirstOrder;
    var c := FirstOrder(s.lists, k);
    FirstOrderFacts(s.lists, k);
    TakenFree(z, s, c);
    TakeHand(z, s, c);
    SplitAllLists(z, TakeHead(s, c), s.lists[c][0], c, k);
    forall h: nat | IsFreeHead(z, s.pages, -1, h) && s.pages[h].order >= k
      ensures s.pages[h].order >= c
    {
      FreeHeadListed(z, s, h);
    }
  }

  lemma FreeHeadListed(z: Zone, s: Buddy, h: nat)
    requires Inv(z, s) && IsFreeHead(z, s.pages, -1, h)
    ensures s.pages[h].order <= MAX_ORDER && h in s.lists[s.pages[h].order]
  {
    assert BlockOk(z, s.pages, h);
    assert Listed(z, s.pages, s.lists, -1, s.pages[h].order, h);
  }

  // ---------------------------------------------------------------- release

  /** The blocks of q that do not start inside the block (h, c), in the order of q. */
  function Outside(q: seq<nat>, h: nat, c: nat): seq<nat> {
    if q == [] then []
    else (if h <= q[0] < h + Pow2(c) then [] else [q[0]]) + Outside(q[1..], h, c)
  }

  lemma {:induction false} OutsideAll(q: seq<nat>, h: nat, c: nat)
    requires forall x :: x in q ==> !(h <= x < h + Pow2(c))
    ensures Outside(q, h, c) == q
  {
    hide Pow2;
    if q != [] {
      assert q[0] in q && q == [q[0]] + q[1..];
      assert forall x :: x in q[1..] ==> x in q;
      OutsideAll(q[1..], h, c);
    }
  }

  lemma {:induction false} OutsideWithout(q: seq<nat>, x: nat, h: nat, c: nat)
    requires h <= x < h + Pow2(c)
    ensures Outside(Without(q, x), h, c) == Outside(q, h, c)
  {
    hide Pow2;
    if q != [] {
      if q[0] != x {
        assert ([q[0]] + Without(q[1..], x))[1..] == Without(q[1..], x);
        OutsideWithout(q[1..], x, h, c);
      }
    }
  }

  /** No free block starts inside the block in hand. */
  lemma HandAlone(z: Zone, s: Buddy, i: nat, k: nat, j: nat)
    requires Hand(z, s, i, k) && j <= MAX_ORDER
    ensures Outside(s.lists[j], i, k) == s.lists[j]
  {
    hide Aligned, Pow2, Owned, Canonical;
    assert BlockOk(z, s.pages, i);
    forall x | x in s.lists[j]
      ensures !(i <= x < i + Pow2(k))
    {
      assert Listed(z, s.pages, s.lists, i, j, x);
    }
    OutsideAll(s.lists[j], i, k);
  }

  /** The block in hand, and every buddy it absorbs, lie in the block it becomes. */
  lemma MergedInside(z: Zone, s: Buddy, i: nat, k: nat, h: nat, c: nat)
    requires Hand(z, s, i, k) && CanMerge(z, s, i, k) && !PhantomMatches(z)
    requires var m := Lower(i, BuddyOf(z, s.pages, i)); h <= m && m + Pow2(k + 1) <= h + Pow2(c)
    ensures h <= i && i + Pow2(k) <= h + Pow2(c)
    ensures var b := BuddyOf(z, s.pages, i); h <= b < h + Pow2(c)
    ensures MergeStep(z, s, i, k).lists == Unlink(s.lists, k, BuddyOf(z, s.pages, i))
  {
    hide Hand, Aligned, PhantomMatches, Pow2;
    MergeShape(z, s, i, k);
    JoinFacts(z, s.pages, i, k, BuddyOf(z, s.pages, i));
  }

  /** The merging loop takes off the lists exactly what lies in the block it makes. */
  lemma {:induction false} MergeLists(z: Zone, s: Buddy, i: nat, k: nat)
    requires Hand(z, s, i, k) && k <= MAX_ORDER && !PhantomMatches(z)
    ensures var Merged(s', h, c) := Merge(z, s, i, k);
      && h <= i && i + Pow2(k) <= h + Pow2(c)
      && forall j :: 0 <= j <= MAX_ORDER ==> s'.lists[j] == Outside(s.lists[j], h, c)
    decreases MAX_ORDER - k
  {
    hide Hand, FreePages, UsedHeads, MergeStep, PhantomMatches, Pow2, Without, Outside, CanMerge, BuddyOf;
    if CanMerge(z, s, i, k) {
      MergeBelow(z, s, i, k);
      var b, s1 := BuddyOf(z, s.pages, i), MergeStep(z, s, i, k);
      MergeKeeps(z, s, i, k);
      MergeLists(z, s1, Lower(i, b), k + 1);
      var Merged(s', h, c) := Merge(z, s, i, k);
      MergedInside(z, s, i, k, h, c);
      OutsideWithout(s.lists[k], b, h, c);
    } else {
      forall j | 0 <= j <= MAX_ORDER ensures Outside(s.lists[j], i, k) == s.lists[j] {
        HandAlone(z, s, i, k, j);
      }
    }
  }

  lemma MergeBelow(z: Zone, s: Buddy, i: nat, k: nat)
    requires CanMerge(z, s, i, k)
    ensures k < MAX_ORDER
  {
  }

  /** Release: the pages given back end up in one free block, first on its list; every
      list keeps what lies outside that block, in its order. */
  lemma FreeKeepsOrder(z: Zone, s: Buddy, i: nat) returns (h: nat, c: nat)
    requires Inv(z, s) && i in UsedHeads(z, s.pages, -1) && !PhantomMatches(z)
    ensures s.pages[i].order <= c <= MAX_ORDER && h <= i && i + Pow2(s.pages[i].order) <= h + Pow2(c)
    ensures var s' := Dealloc(z, s, i);
      && h < |s'.pages| && s'.pages[h] == Page(c, Free)
      && forall j :: 0 <= j <= MAX_ORDER ==>
           s'.lists[j] == (if j == c then [h] else []) + Outside(s.lists[j], h, c)
  {
    hide Hand, Tiling, ListsOk, Canonical, FreePages, UsedHeads, UsedPages, Merge, PhantomMatches, CanMerge, Pow2,
         Outside;
    UsedInMap(z, s.pages, i);
    var k := s.pages[i].order;
    var s0 := s.(usedCount := s.usedCount - Pow2(k), freeCount := s.freeCount + Pow2(k));
    ReleaseHand(z, s, i, s0.freeCount, s0.usedCount);
    MergeAll(z, s0, i, k);
    MergeLists(z, s0, i, k);
    var m := Merge(z, s0, i, k);
    HandInMap(z, m.state, m.index, m.order);
    h, c := m.index, m.order;
  }

  // ------------------------------------------------------------------- boot

  ghost predicate Descending(q: seq<nat>) {
    forall i, j :: 0 <= i < j < |q| ==> q[i] > q[j]
  }

  ghost predicate DescendingBelow(lists: Lists, start: nat) {
    forall k :: 0 <= k <= MAX_ORDER ==> Descending(lists[k]) && forall x :: x in lists[k] ==> x < start
  }

  lemma PushDescends(lists: Lists, start: nat, k: nat, next: nat)
    requires DescendingBelow(lists, start) && k <= MAX_ORDER && start < next
    ensures DescendingBelow(Push(lists, k, start), next)
  {
    var q := [start] + lists[k];
    assert forall j :: 0 < j < |q| ==> q[j] == lists[k][j - 1] && q[j] in lists[k];
  }

  lemma {:induction false} TileDescends(s: Buddy, start: nat, hi: nat)
    requires DescendingBelow(s.lists, start) && start <= hi
    ensures forall k :: 0 <= k <= MAX_ORDER ==> Descending(Tile(s, start, hi).lists[k])
    decreases hi - start
  {
    hide DescendingBelow, Fit, Descending, Push, Pow2;
    if start < hi {
      FitFacts(start, hi, MAX_ORDER);
      var k := Fit(start, hi, MAX_ORDER);
      PushDescends(s.lists, start, k, start + Pow2(k));
      TileDescends(AddBlock(s, start, k), start + Pow2(k), hi);
    } else {
      assert forall k :: 0 <= k <= MAX_ORDER ==> Descending(s.lists[k]) by { AreDescending(s.lists, start); }
    }
  }

  lemma AreDescending(lists: Lists, start: nat)
    requires DescendingBelow(lists, start)
    ensures forall k :: 0 <= k <= MAX_ORDER ==> Descending(lists[k])
  {
  }

  /** After boot every free list is in order of falling addresses. */
  lemma BootDescends(z: Zone)
    requires ZoneOk(z)
    ensures forall k :: 0 <= k <= MAX_ORDER ==> Descending(Boot(z).lists[k])
  {
    hide Tile;
    TileDescends(Blank(z.n), z.lo, z.hi);
  }
}
