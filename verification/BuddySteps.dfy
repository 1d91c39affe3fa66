/** What one turn of the splitting loop and one turn of the merging loop keep. */
module BuddySteps {
  import opened Bits
  import opened NodeList
  import opened BuddyModel

  // ------------------------------------------------------ owners of pages

  lemma {:induction false} OwnerIs(pages: seq<Page>, h: nat, p: nat)
    requires h <= p < |pages|
    requires !pages[h].flag.Tail?
    requires forall j :: h < j <= p ==> pages[j].flag.Tail?
    ensures Owner(pages, p) == h
  {
    if h < p {
      OwnerIs(pages, h, p - 1);
    }
  }

  lemma OwnerInBlock(z: Zone, pages: seq<Page>, h: nat, p: nat)
    requires |pages| == z.n && z.hi <= z.n && h < z.n
    requires IsHead(pages[h]) && BlockOk(z, pages, h)
    requires h <= p < h + Pow2(pages[h].order)
    ensures Owner(pages, p) == h
  {
    OwnerIs(pages, h, p);
  }

  /** Blocks of a tiling are disjoint: a page inside block i is owned by i. */
  lemma HeadsApart(z: Zone, pages: seq<Page>, i: nat, h: nat)
    requires Tiling(z, pages)
    requires z.lo <= i < z.hi && z.lo <= h < z.hi && IsHead(pages[i]) && IsHead(pages[h]) && i < h
    ensures i + Pow2(pages[i].order) <= h
  {
    assert BlockOk(z, pages, i);
  }

  /** Rebuilding a tiling after a local change. */
  lemma TilingByOwners(z: Zone, pages: seq<Page>, own: nat -> nat)
    requires |pages| == z.n && z.lo <= z.hi <= z.n
    requires forall i :: 0 <= i < z.lo || z.hi <= i < z.n ==> pages[i].flag.Kernel?
    requires forall i :: z.lo <= i < z.hi && IsHead(pages[i]) ==> BlockOk(z, pages, i)
    requires forall p :: z.lo <= p < z.hi ==>
               z.lo <= own(p) <= p && IsHead(pages[own(p)]) && p < own(p) + Pow2(pages[own(p)].order)
    ensures Tiling(z, pages)
    ensures forall p :: z.lo <= p < z.hi ==> Owner(pages, p) == own(p)
  {
    forall p | z.lo <= p < z.hi
      ensures Owner(pages, p) == own(p) && Owned(z, pages, p)
    {
      OwnerInBlock(z, pages, own(p), p);
    }
  }

  // ---------------------------------------------------------------- split

  ghost function SplitOwner(pages: seq<Page>, top: nat, sibling: nat): nat -> nat {
    (p: nat) => if p >= |pages| then p else
      var h := Owner(pages, p); if h == top && sibling <= p then sibling else h
  }

  ghost predicate Splittable(z: Zone, pages: seq<Page>, top: nat, c: nat) {
    && Tiling(z, pages)
    && z.lo <= top < z.hi && top + Pow2(c) < z.hi
    && IsHead(pages[top]) && pages[top].order == c + 1
  }

  ghost function SplitPages(pages: seq<Page>, top: nat, c: nat): seq<Page>
    requires top + Pow2(c) < |pages|
  {
    pages[top := Page(c, Used)][top + Pow2(c) := Page(c, Free)]
  }

  /** Block (top, c + 1) of a tiling, seen as its two halves. */
  lemma Halves(z: Zone, pages: seq<Page>, top: nat, c: nat)
    requires Splittable(z, pages, top, c)
    ensures c < MAX_ORDER && Pow2(c + 1) == 2 * Pow2(c)
    ensures top + 2 * Pow2(c) <= z.hi
    ensures forall j :: top < j < top + 2 * Pow2(c) ==> pages[j].flag.Tail?
    ensures Aligned(top, c) && Aligned(top + Pow2(c), c)
    ensures Xor(top, Pow2(c)) == top + Pow2(c) && Xor(top + Pow2(c), Pow2(c)) == top
  {
    assert BlockOk(z, pages, top);
    SplitFacts(top, c);
  }

  lemma SplitShape(z: Zone, s: Buddy, top: nat, c: nat)
    requires c < MAX_ORDER && Hand(z, s, top, c + 1)
    ensures Splittable(z, s.pages, top, c)
    ensures SplitStep(z, s, top, c).pages == SplitPages(s.pages, top, c)
    ensures SplitStep(z, s, top, c).lists == Push(s.lists, c, top + Pow2(c))
  {
    hide Aligned, Xor, Canonical, ListsOk;
    assert BlockOk(z, s.pages, top);
    SplitFacts(top, c);
  }

  lemma SplitBlocks(z: Zone, pages: seq<Page>, top: nat, c: nat)
    requires Splittable(z, pages, top, c)
    ensures var pages' := SplitPages(pages, top, c);
      forall i :: z.lo <= i < z.hi && IsHead(pages'[i]) ==> BlockOk(z, pages', i)
  {
    hide Aligned, Xor, Pow2;
    var pages' := SplitPages(pages, top, c);
    Halves(z, pages, top, c);
    forall i | z.lo <= i < z.hi && IsHead(pages'[i])
      ensures BlockOk(z, pages', i)
    {
      if i != top && i != top + Pow2(c) {
        assert BlockOk(z, pages, i);
        if i < top { HeadsApart(z, pages, i, top); } else { HeadsApart(z, pages, top, i); }
      }
    }
  }

  lemma SplitOwners(z: Zone, pages: seq<Page>, top: nat, c: nat, p: nat)
    requires Splittable(z, pages, top, c)
    requires z.lo <= p < z.hi
    ensures var h := SplitOwner(pages, top, top + Pow2(c))(p);
      var pages' := SplitPages(pages, top, c);
      z.lo <= h <= p && IsHead(pages'[h]) && p < h + Pow2(pages'[h].order)
  {
    Halves(z, pages, top, c);
    assert Owned(z, pages, p);
  }

  lemma SplitTiling(z: Zone, pages: seq<Page>, top: nat, c: nat)
    requires Splittable(z, pages, top, c)
    ensures Tiling(z, SplitPages(pages, top, c))
    ensures forall p :: z.lo <= p < z.hi ==>
              Owner(SplitPages(pages, top, c), p) == SplitOwner(pages, top, top + Pow2(c))(p)
  {
    hide Aligned, Xor, Pow2;
    var pages', own := SplitPages(pages, top, c), SplitOwner(pages, top, top + Pow2(c));
    SplitBlocks(z, pages, top, c);
    forall p | z.lo <= p < z.hi
      ensures z.lo <= own(p) <= p && IsHead(pages'[own(p)]) && p < own(p) + Pow2(pages'[own(p)].order)
    {
      SplitOwners(z, pages, top, c, p);
    }
    Halves(z, pages, top, c);
    TilingByOwners(z, pages', own);
  }

  lemma SplitFreeAt(z: Zone, pages: seq<Page>, top: nat, c: nat, p: nat)
    requires Splittable(z, pages, top, c)
    requires z.lo <= p < z.hi
    requires Owner(SplitPages(pages, top, c), p) == SplitOwner(pages, top, top + Pow2(c))(p)
    ensures InFree(SplitPages(pages, top, c), top, p) <==>
            InFree(pages, top, p) || top + Pow2(c) <= p < top + 2 * Pow2(c)
  {
    hide Aligned, Xor, Pow2;
    assert Owned(z, pages, p);
    Halves(z, pages, top, c);
    if top <= p < top + 2 * Pow2(c) {
      OwnerIs(pages, top, p);
    }
  }

  lemma SplitFree(z: Zone, pages: seq<Page>, top: nat, c: nat)
    requires Splittable(z, pages, top, c)
    ensures FreePages(z, SplitPages(pages, top, c), top) == FreePages(z, pages, top) + Block(top + Pow2(c), c)
  {
    hide Aligned, Xor, Pow2, InFree, BlockOk, Owned;
    var pages', sib := SplitPages(pages, top, c), top + Pow2(c);
    SplitTiling(z, pages, top, c);
    Halves(z, pages, top, c);
    forall p: nat | z.lo <= p < z.hi
      ensures InFree(pages', top, p) <==> InFree(pages, top, p) || p in Block(sib, c)
    {
      SplitFreeAt(z, pages, top, c, p);
    }
  }

  lemma SplitCanonical(z: Zone, pages: seq<Page>, top: nat, c: nat)
    requires Splittable(z, pages, top, c)
    requires Canonical(z, pages, top)
    ensures Canonical(z, SplitPages(pages, top, c), top)
  {
    hide Aligned, Xor, Pow2;
    var pages', sib := SplitPages(pages, top, c), top + Pow2(c);
    Halves(z, pages, top, c);
    forall i: nat
      ensures NotMergeable(z, pages', top, i)
    {
      assert NotMergeable(z, pages, top, i);
      if i != sib && IsFreeHead(z, pages', top, i) {
        assert BlockOk(z, pages, i);
        BuddyFacts(i, pages[i].order);
      }
    }
  }

  lemma SplitLists(z: Zone, pages: seq<Page>, lists: Lists, top: nat, c: nat)
    requires Splittable(z, pages, top, c)
    requires c < MAX_ORDER && ListsOk(z, pages, lists, top)
    ensures ListsOk(z, SplitPages(pages, top, c), Push(lists, c, top + Pow2(c)), top)
  {
    hide Aligned, Xor, Pow2;
    var pages', sib := SplitPages(pages, top, c), top + Pow2(c);
    Halves(z, pages, top, c);
    forall k, i: nat | 0 <= k <= MAX_ORDER
      ensures Listed(z, pages', Push(lists, c, sib), top, k, i)
    {
      assert Listed(z, pages, lists, top, k, i);
    }
    assert Listed(z, pages, lists, top, c, sib);
  }

  lemma SplitUsed(z: Zone, pages: seq<Page>, top: nat, c: nat)
    requires Splittable(z, pages, top, c)
    ensures UsedHeads(z, SplitPages(pages, top, c), top) == UsedHeads(z, pages, top)
  {
    Halves(z, pages, top, c);
  }

  lemma SplitHand(z: Zone, s: Buddy, top: nat, c: nat)
    requires c < MAX_ORDER && Hand(z, s, top, c + 1)
    ensures Splittable(z, s.pages, top, c) && Hand(z, SplitStep(z, s, top, c), top, c)
    ensures SplitStep(z, s, top, c).pages == SplitPages(s.pages, top, c)
  {
    SplitShape(z, s, top, c);
    SplitTiling(z, s.pages, top, c);
    SplitCanonical(z, s.pages, top, c);
    SplitLists(z, s.pages, s.lists, top, c);
    var s' := SplitStep(z, s, top, c);
    hide SplitStep, Tiling, ListsOk, Canonical, Push, Pow2;
    assert s'.pages[top] == Page(c, Used);
  }

  /** Splitting keeps the block in hand well formed, and frees its upper half. */
  lemma SplitKeeps(z: Zone, s: Buddy, top: nat, c: nat)
    requires c < MAX_ORDER && Hand(z, s, top, c + 1)
    ensures Hand(z, SplitStep(z, s, top, c), top, c)
    ensures FreePages(z, SplitStep(z, s, top, c).pages, top) == FreePages(z, s.pages, top) + Block(top + Pow2(c), c)
    ensures UsedHeads(z, SplitStep(z, s, top, c).pages, top) == UsedHeads(z, s.pages, top)
  {
    SplitHand(z, s, top, c);
    SplitFree(z, s.pages, top, c);
    SplitUsed(z, s.pages, top, c);
  }

  // ---------------------------------------------------------------- merge

  /** Block (i, k) and its buddy b are both heads of order k. */
  ghost predicate Joinable(z: Zone, pages: seq<Page>, i: nat, k: nat, b: nat) {
    && Tiling(z, pages) && k < MAX_ORDER
    && z.lo <= i < z.hi && IsHead(pages[i]) && pages[i].order == k
    && z.lo <= b < z.hi && IsHead(pages[b]) && pages[b].order == k
    && b == Xor(i, Pow2(k))
  }

  ghost function JoinPages(pages: seq<Page>, m: nat, o: nat, k: nat): seq<Page>
    requires m < |pages| && o < |pages|
  {
    pages[m := Page(k + 1, Free)][o := Page(pages[o].order, Tail)]
  }

  ghost function JoinOwner(pages: seq<Page>, m: nat, o: nat): nat -> nat {
    (p: nat) => if p >= |pages| then p else
      var h := Owner(pages, p); if h == o then m else h
  }

  lemma JoinFacts(z: Zone, pages: seq<Page>, i: nat, k: nat, b: nat)
    requires Joinable(z, pages, i, k, b)
    ensures var m := Lower(i, b);
      && Upper(i, b) == m + Pow2(k) && Pow2(k + 1) == 2 * Pow2(k)
      && Aligned(m, k + 1) && m + 2 * Pow2(k) <= z.hi
      && IsHead(pages[m]) && IsHead(pages[m + Pow2(k)])
      && forall j :: m < j < m + 2 * Pow2(k) && j != m + Pow2(k) ==> pages[j].flag.Tail?
  {
    assert BlockOk(z, pages, i) && BlockOk(z, pages, b);
    BuddyFacts(i, k);
  }

  lemma JoinBlocks(z: Zone, pages: seq<Page>, i: nat, k: nat, b: nat)
    requires Joinable(z, pages, i, k, b)
    ensures var pages' := JoinPages(pages, Lower(i, b), Upper(i, b), k);
      forall h :: z.lo <= h < z.hi && IsHead(pages'[h]) ==> BlockOk(z, pages', h)
  {
    hide Aligned, Xor, Pow2;
    var m, o := Lower(i, b), Upper(i, b);
    var pages' := JoinPages(pages, m, o, k);
    JoinFacts(z, pages, i, k, b);
    forall h | z.lo <= h < z.hi && IsHead(pages'[h])
      ensures BlockOk(z, pages', h)
    {
      if h != m {
        assert BlockOk(z, pages, h);
        if h < m { HeadsApart(z, pages, h, m); } else { HeadsApart(z, pages, m, h); }
      }
    }
  }

  lemma JoinOwners(z: Zone, pages: seq<Page>, i: nat, k: nat, b: nat, p: nat)
    requires Joinable(z, pages, i, k, b) && z.lo <= p < z.hi
    ensures var m, o := Lower(i, b), Upper(i, b);
      var pages', h := JoinPages(pages, m, o, k), JoinOwner(pages, m, o)(p);
      z.lo <= h <= p && IsHead(pages'[h]) && p < h + Pow2(pages'[h].order)
  {
    hide Aligned, Xor, Pow2;
    JoinFacts(z, pages, i, k, b);
    assert Owned(z, pages, p);
  }

  lemma JoinTiling(z: Zone, pages: seq<Page>, i: nat, k: nat, b: nat)
    requires Joinable(z, pages, i, k, b)
    ensures var m, o := Lower(i, b), Upper(i, b);
      var pages' := JoinPages(pages, m, o, k);
      && Tiling(z, pages')
      && forall p :: z.lo <= p < z.hi ==> Owner(pages', p) == JoinOwner(pages, m, o)(p)
  {
    var m, o := Lower(i, b), Upper(i, b);
    var pages', own := JoinPages(pages, m, o, k), JoinOwner(pages, m, o);
    JoinBlocks(z, pages, i, k, b);
    forall p | z.lo <= p < z.hi
      ensures z.lo <= own(p) <= p && IsHead(pages'[own(p)]) && p < own(p) + Pow2(pages'[own(p)].order)
    {
      JoinOwners(z, pages, i, k, b, p);
    }
    TilingByOwners(z, pages', own);
  }

  lemma JoinFreeAt(z: Zone, pages: seq<Page>, i: nat, k: nat, b: nat, p: nat)
    requires Joinable(z, pages, i, k, b) && z.lo <= p < z.hi && pages[b].flag.Free?
    requires var m, o := Lower(i, b), Upper(i, b);
      Owner(JoinPages(pages, m, o, k), p) == JoinOwner(pages, m, o)(p)
    ensures InFree(pages, i, p) <==>
            InFree(JoinPages(pages, Lower(i, b), Upper(i, b), k), Lower(i, b), p) || b <= p < b + Pow2(k)
    ensures InFree(JoinPages(pages, Lower(i, b), Upper(i, b), k), Lower(i, b), p) ==> !(b <= p < b + Pow2(k))
  {
    hide Aligned, Xor, Pow2;
    assert Owned(z, pages, p);
    JoinFacts(z, pages, i, k, b);
    if b <= p < b + Pow2(k) {
      OwnerInBlock(z, pages, b, p);
    }
  }

  lemma JoinFree(z: Zone, pages: seq<Page>, i: nat, k: nat, b: nat)
    requires Joinable(z, pages, i, k, b) && pages[b].flag.Free?
    ensures var pages', m := JoinPages(pages, Lower(i, b), Upper(i, b), k), Lower(i, b);
      && FreePages(z, pages, i) == FreePages(z, pages', m) + Block(b, k)
      && FreePages(z, pages', m) !! Block(b, k)
  {
    var m := Lower(i, b);
    var pages' := JoinPages(pages, m, Upper(i, b), k);
    JoinTiling(z, pages, i, k, b);
    assert b + Pow2(k) <= z.hi by { assert BlockOk(z, pages, b); }
    forall p: nat | z.lo <= p < z.hi
      ensures InFree(pages, i, p) <==> InFree(pages', m, p) || b <= p < b + Pow2(k)
      ensures InFree(pages', m, p) ==> !(b <= p < b + Pow2(k))
    {
      JoinFreeAt(z, pages, i, k, b, p);
    }
  }

  lemma JoinCanonical(z: Zone, pages: seq<Page>, i: nat, k: nat, b: nat)
    requires Joinable(z, pages, i, k, b) && Canonical(z, pages, i)
    ensures Canonical(z, JoinPages(pages, Lower(i, b), Upper(i, b), k), Lower(i, b))
  {
    var m := Lower(i, b);
    var pages' := JoinPages(pages, m, Upper(i, b), k);
    forall j: nat
      ensures NotMergeable(z, pages', m, j)
    {
      assert NotMergeable(z, pages, i, j);
    }
  }

  lemma JoinLists(z: Zone, pages: seq<Page>, lists: Lists, i: nat, k: nat, b: nat)
    requires Joinable(z, pages, i, k, b) && ListsOk(z, pages, lists, i) && pages[b].flag.Free?
    ensures ListsOk(z, JoinPages(pages, Lower(i, b), Upper(i, b), k), Unlink(lists, k, b), Lower(i, b))
  {
    var m := Lower(i, b);
    var pages', lists' := JoinPages(pages, m, Upper(i, b), k), Unlink(lists, k, b);
    WithoutFacts(lists[k], b);
    forall j, h: nat | 0 <= j <= MAX_ORDER
      ensures Listed(z, pages', lists', m, j, h)
    {
      assert Listed(z, pages, lists, i, j, h);
    }
  }

  lemma JoinUsed(z: Zone, pages: seq<Page>, i: nat, k: nat, b: nat)
    requires Joinable(z, pages, i, k, b) && pages[b].flag.Free?
    ensures UsedHeads(z, JoinPages(pages, Lower(i, b), Upper(i, b), k), Lower(i, b)) == UsedHeads(z, pages, i)
  {
  }

  /** What the entry past the page map would have to hold for the merging loop
      to take it for a free buddy: the last managed block of that order ends
      exactly at the end of the map. */
  predicate PhantomMatches(z: Zone) {
    var k := z.beyond.order;
    && z.hi == z.n && z.beyond.flag.Free? && k < MAX_ORDER
    && z.lo + Pow2(k) <= z.n
    && Aligned(z.n - Pow2(k), k + 1)
  }

  /** The only entry outside the map that the merging loop can read is number n. */
  lemma BuddyInMap(z: Zone, s: Buddy, i: nat, k: nat)
    requires Hand(z, s, i, k) && k < MAX_ORDER
    ensures BuddyOf(z, s.pages, i) == Xor(i, Pow2(k))
    ensures BuddyOf(z, s.pages, i) >= z.n ==> BuddyOf(z, s.pages, i) == z.n == i + Pow2(k) && Aligned(i, k + 1)
  {
    assert BlockOk(z, s.pages, i);
    BuddyFacts(i, k);
  }

  lemma MergeShape(z: Zone, s: Buddy, i: nat, k: nat)
    requires Hand(z, s, i, k) && CanMerge(z, s, i, k) && !PhantomMatches(z)
    ensures var b := BuddyOf(z, s.pages, i);
      && Joinable(z, s.pages, i, k, b) && s.pages[b].flag.Free?
      && MergeStep(z, s, i, k).pages == JoinPages(s.pages, Lower(i, b), Upper(i, b), k)
      && MergeStep(z, s, i, k).lists == Unlink(s.lists, k, b)
  {
    BuddyInMap(z, s, i, k);
    var b := BuddyOf(z, s.pages, i);
    assert b < z.n;
    assert Joinable(z, s.pages, i, k, b);
    JoinFacts(z, s.pages, i, k, b);
  }

  lemma MergeHand(z: Zone, s: Buddy, i: nat, k: nat)
    requires Hand(z, s, i, k) && CanMerge(z, s, i, k) && !PhantomMatches(z)
    ensures Hand(z, MergeStep(z, s, i, k), Lower(i, BuddyOf(z, s.pages, i)), k + 1)
  {
    var b := BuddyOf(z, s.pages, i);
    var m, s' := Lower(i, b), MergeStep(z, s, i, k);
    MergeShape(z, s, i, k);
    JoinTiling(z, s.pages, i, k, b);
    JoinCanonical(z, s.pages, i, k, b);
    JoinLists(z, s.pages, s.lists, i, k, b);
    hide MergeStep, Tiling, ListsOk, Canonical, Unlink, Pow2, BuddyOf;
    assert s'.pages[m] == Page(k + 1, Free);
  }

  /** Merging keeps the block in hand well formed; the buddy's pages join it. */
  lemma MergeKeeps(z: Zone, s: Buddy, i: nat, k: nat)
    requires Hand(z, s, i, k) && CanMerge(z, s, i, k) && !PhantomMatches(z)
    ensures var b := BuddyOf(z, s.pages, i);
      var s', m := MergeStep(z, s, i, k), Lower(i, b);
      && Hand(z, s', m, k + 1)
      && FreePages(z, s.pages, i) == FreePages(z, s'.pages, m) + Block(b, k)
      && FreePages(z, s'.pages, m) !! Block(b, k)
      && UsedHeads(z, s'.pages, m) == UsedHeads(z, s.pages, i)
  {
    MergeShape(z, s, i, k);
    MergeHand(z, s, i, k);
    JoinFree(z, s.pages, i, k, BuddyOf(z, s.pages, i));
    JoinUsed(z, s.pages, i, k, BuddyOf(z, s.pages, i));
  }

  /** The used heads and their orders, apart from the block in hand. */
  ghost function UsedHeads(z: Zone, pages: seq<Page>, hole: int): map<nat, nat> {
    map i: nat | z.lo <= i < z.hi && i < |pages| && i != hole && pages[i].flag.Used? :: pages[i].order
  }
}
