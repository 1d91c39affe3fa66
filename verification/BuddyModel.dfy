/** The buddy page allocator as a value: what the page map, the free lists and
    the two counters hold, and what one call of the allocator does to them. */
module BuddyModel {
  import opened Bits
  import opened NodeList

  const MAX_ORDER: nat := 10

  datatype Flag = Free | Tail | Used | Kernel

  /** One entry of the page map, without its list links. */
  datatype Page = Page(order: nat, flag: Flag)

  /** The boot parameters. Pages lo..hi are managed, n is the number of entries
      in the page map, and beyond is what the memory just past the map reads as. */
  datatype Zone = Zone(lo: nat, hi: nat, n: nat, beyond: Page)

  type Lists = l: seq<seq<nat>> | |l| == MAX_ORDER + 1 witness seq(MAX_ORDER + 1, _ => [])

  /** lists[k] is free list k from its head; the counters are in pages. */
  datatype Buddy = Buddy(pages: seq<Page>, lists: Lists, freeCount: int, usedCount: int)

  datatype Allocation = Panic | Got(state: Buddy, index: nat)

  function At(z: Zone, pages: seq<Page>, i: nat): Page {
    if i < |pages| then pages[i] else z.beyond
  }

  function Put(pages: seq<Page>, i: nat, p: Page): seq<Page> {
    if i < |pages| then pages[i := p] else pages
  }

  /** The page map index that `buddy_index` computes. */
  function BuddyOf(z: Zone, pages: seq<Page>, i: nat): nat {
    Xor(i, Pow2(At(z, pages, i).order))
  }

  function Push(lists: Lists, k: nat, i: nat): Lists
    requires k <= MAX_ORDER
  {
    lists[k := [i] + lists[k]]
  }

  function Unlink(lists: Lists, k: nat, i: nat): Lists
    requires k <= MAX_ORDER
  {
    lists[k := Without(lists[k], i)]
  }

  // ---------------------------------------------------------------- alloc

  /** The first non-empty list at or above k; above MAX_ORDER when there is none. */
  function FirstOrder(lists: Lists, k: nat): nat
    decreases MAX_ORDER + 1 - k
  {
    if k > MAX_ORDER || lists[k] != [] then k else FirstOrder(lists, k + 1)
  }

  /** One turn of the splitting loop: the block in hand becomes order c and its
      upper half goes to free list c. */
  function SplitStep(z: Zone, s: Buddy, top: nat, c: nat): Buddy
    requires c <= MAX_ORDER
  {
    var pages := Put(s.pages, top, Page(c, Used));
    var sibling := BuddyOf(z, pages, top);
    s.(pages := Put(pages, sibling, Page(c, Free)), lists := Push(s.lists, c, sibling))
  }

  function Split(z: Zone, s: Buddy, top: nat, cur: nat, order: nat): (r: Buddy)
    requires cur <= MAX_ORDER
    ensures r.freeCount == s.freeCount && r.usedCount == s.usedCount
    decreases cur
  {
    if cur <= order then s else Split(z, SplitStep(z, s, top, cur - 1), top, cur - 1, order)
  }

  function TakeHead(s: Buddy, c: nat): Buddy
    requires c <= MAX_ORDER && s.lists[c] != []
  {
    s.(lists := s.lists[c := s.lists[c][1..]])
  }

  function Alloc(z: Zone, s: Buddy, order: nat): Allocation {
    var c := FirstOrder(s.lists, order);
    if c > MAX_ORDER then Panic else
    FirstOrderFacts(s.lists, order);
    var top := s.lists[c][0];
    var s' := Split(z, TakeHead(s, c), top, c, order);
    Got(s'.(pages := Put(s'.pages, top, Page(order, Used)),
            usedCount := s.usedCount + Pow2(order),
            freeCount := s.freeCount - Pow2(order)), top)
  }

  lemma {:induction false} FirstOrderFacts(lists: Lists, k: nat)
    ensures FirstOrder(lists, k) >= k
    ensures FirstOrder(lists, k) <= MAX_ORDER ==> lists[FirstOrder(lists, k)] != []
    ensures forall j :: k <= j < FirstOrder(lists, k) && j <= MAX_ORDER ==> lists[j] == []
    decreases MAX_ORDER + 1 - k
  {
    if k <= MAX_ORDER && lists[k] == [] {
      FirstOrderFacts(lists, k + 1);
    }
  }

  // ----------------------------------------------------------------- free

  predicate CanMerge(z: Zone, s: Buddy, i: nat, cur: nat) {
    cur < MAX_ORDER && At(z, s.pages, BuddyOf(z, s.pages, i)) == Page(cur, Free)
  }

  function Lower(a: nat, b: nat): nat { if b < a then b else a }
  function Upper(a: nat, b: nat): nat { if b < a then a else b }

  /** One turn of the merging loop: the block in hand absorbs its free buddy. */
  function MergeStep(z: Zone, s: Buddy, i: nat, cur: nat): Buddy
    requires cur < MAX_ORDER
  {
    var b := BuddyOf(z, s.pages, i);
    var pages := Put(s.pages, Lower(i, b), Page(cur + 1, Free));
    s.(pages := Put(pages, Upper(i, b), At(z, pages, Upper(i, b)).(flag := Tail)),
       lists := Unlink(s.lists, cur, b))
  }

  datatype Merged = Merged(state: Buddy, index: nat, order: nat)

  function Merge(z: Zone, s: Buddy, i: nat, cur: nat): (r: Merged)
    requires cur <= MAX_ORDER
    ensures r.order <= MAX_ORDER
    ensures r.state.freeCount == s.freeCount && r.state.usedCount == s.usedCount
    decreases MAX_ORDER - cur
  {
    if CanMerge(z, s, i, cur)
    then Merge(z, MergeStep(z, s, i, cur), Lower(i, BuddyOf(z, s.pages, i)), cur + 1)
    else Merged(s, i, cur)
  }

  function Dealloc(z: Zone, s: Buddy, i: nat): Buddy
    requires At(z, s.pages, i).order <= MAX_ORDER
  {
    var k := At(z, s.pages, i).order;
    var m := Merge(z, s.(usedCount := s.usedCount - Pow2(k), freeCount := s.freeCount + Pow2(k)), i, k);
    m.state.(pages := Put(m.state.pages, m.index, Page(m.order, Free)),
             lists := Push(m.state.lists, m.order, m.index))
  }

  // ------------------------------------------------------------- invariant

  predicate IsHead(p: Page) { p.flag.Free? || p.flag.Used? }

  /** The head that page p belongs to: the nearest entry at or below p that is
      not a tail. */
  function Owner(pages: seq<Page>, p: nat): (h: nat)
    requires p < |pages|
    ensures h <= p
  {
    if p > 0 && pages[p].flag.Tail? then Owner(pages, p - 1) else p
  }

  ghost predicate BlockOk(z: Zone, pages: seq<Page>, i: nat)
    requires i < |pages| == z.n && z.hi <= z.n
  {
    && pages[i].order <= MAX_ORDER
    && Aligned(i, pages[i].order)
    && i + Pow2(pages[i].order) <= z.hi
    && forall j :: i < j < i + Pow2(pages[i].order) ==> pages[j].flag.Tail?
  }

  ghost predicate Owned(z: Zone, pages: seq<Page>, p: nat)
    requires p < |pages|
  {
    var h := Owner(pages, p);
    z.lo <= h && IsHead(pages[h]) && p < h + Pow2(pages[h].order)
  }

  /** Heads with their tails are aligned blocks that tile exactly lo..hi. */
  ghost predicate Tiling(z: Zone, pages: seq<Page>) {
    && |pages| == z.n && z.lo <= z.hi <= z.n
    && (forall i :: 0 <= i < z.lo || z.hi <= i < z.n ==> pages[i].flag.Kernel?)
    && (forall i :: z.lo <= i < z.hi && IsHead(pages[i]) ==> BlockOk(z, pages, i))
    && (forall p :: z.lo <= p < z.hi ==> Owned(z, pages, p))
  }

  ghost predicate IsFreeHead(z: Zone, pages: seq<Page>, hole: int, i: nat) {
    z.lo <= i < z.hi && i < |pages| && i != hole && pages[i].flag.Free?
  }

  /** List k holds i exactly when i is a free head of order k. */
  ghost predicate Listed(z: Zone, pages: seq<Page>, lists: Lists, hole: int, k: nat, i: nat)
    requires k <= MAX_ORDER
  {
    i in lists[k] <==> IsFreeHead(z, pages, hole, i) && pages[i].order == k
  }

  /** List k holds exactly the free heads of order k, each once. The block in
      hand, if any, is the hole. */
  ghost predicate ListsOk(z: Zone, pages: seq<Page>, lists: Lists, hole: int) {
    && (forall k :: 0 <= k <= MAX_ORDER ==> NoDup(lists[k]))
    && (forall k, i: nat :: 0 <= k <= MAX_ORDER ==> Listed(z, pages, lists, hole, k, i))
  }

  ghost predicate NotMergeable(z: Zone, pages: seq<Page>, hole: int, i: nat) {
    IsFreeHead(z, pages, hole, i) && pages[i].order < MAX_ORDER ==>
      var b := Xor(i, Pow2(pages[i].order));
      !(IsFreeHead(z, pages, hole, b) && pages[b].order == pages[i].order)
  }

  /** No two buddies of equal order below the maximum are both free. */
  ghost predicate Canonical(z: Zone, pages: seq<Page>, hole: int) {
    forall i: nat :: NotMergeable(z, pages, hole, i)
  }

  ghost predicate InFree(pages: seq<Page>, hole: int, p: nat)
    requires p < |pages|
  {
    Owner(pages, p) != hole && pages[Owner(pages, p)].flag.Free?
  }

  ghost function FreePages(z: Zone, pages: seq<Page>, hole: int): set<nat> {
    set p: nat | z.lo <= p < z.hi && p < |pages| && InFree(pages, hole, p)
  }

  ghost function UsedPages(z: Zone, pages: seq<Page>): set<nat> {
    set p: nat | z.lo <= p < z.hi && p < |pages| && pages[Owner(pages, p)].flag.Used?
  }

  predicate Within(p: nat, a: nat, b: nat) { a <= p < b }

  /** The pages a, a+1, ..., b-1. */
  ghost function Span(a: nat, b: nat): set<nat> {
    set p: nat | p < b && Within(p, a, b)
  }

  lemma {:induction false} SpanSize(a: nat, b: nat)
    ensures |Span(a, b)| == if a <= b then b - a else 0
    decreases b
  {
    if a < b {
      SpanSize(a, b - 1);
      assert Span(a, b) == Span(a, b - 1) + {b - 1};
    } else {
      assert Span(a, b) == {};
    }
  }

  lemma SpanJoin(a: nat, b: nat, c: nat)
    requires a <= b <= c
    ensures Span(a, b) + Span(b, c) == Span(a, c)
    ensures Span(a, b) !! Span(b, c)
  {
  }

  ghost function Block(i: nat, k: nat): set<nat> {
    Span(i, i + Pow2(k))
  }

  /** A state with block (i, k) in hand: tiled as always, but the block is on no
      list and is not counted as free. */
  ghost predicate Hand(z: Zone, s: Buddy, i: nat, k: nat) {
    && Tiling(z, s.pages)
    && z.lo <= i < z.hi && IsHead(s.pages[i]) && s.pages[i].order == k
    && ListsOk(z, s.pages, s.lists, i)
    && Canonical(z, s.pages, i)
  }

  ghost predicate Inv(z: Zone, s: Buddy) {
    && Tiling(z, s.pages)
    && ListsOk(z, s.pages, s.lists, -1)
    && Canonical(z, s.pages, -1)
    && s.freeCount == |FreePages(z, s.pages, -1)|
    && s.usedCount == |UsedPages(z, s.pages)|
  }
}
