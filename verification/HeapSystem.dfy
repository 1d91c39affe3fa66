/** The heap on top of the page allocator: what kmalloc and kfree keep and do. */
module HeapSystem {
  import opened Bits
  import opened BuddyModel
  import opened BuddySteps
  import opened BuddyCalls
  import opened HeapModel
  import opened HeapLists
  import opened HeapAlloc

  /** Address a is the start of a live block of order k of the page allocator. */
  ghost predicate Backed(live: map<nat, nat>, a: nat, k: nat) {
    && a >= KERNEL_BASE && Offset(a) == 0
    && PageIndex(a) in live && live[PageIndex(a)] == k
  }

  ghost predicate PagesBacked(live: map<nat, nat>, cs: seq<Chunk>) {
    forall i :: 0 <= i < |cs| && IsFirst(cs[i].addr) ==> Backed(live, cs[i].addr, 0)
  }

  ghost predicate BigBacked(live: map<nat, nat>, big: seq<Big>) {
    forall i :: 0 <= i < |big| ==> Backed(live, big[i].ptr, big[i].order)
  }

  /** Page-sized allocations are distinct from each other and from heap pages. */
  ghost predicate BigApart(cs: seq<Chunk>, big: seq<Big>) {
    && (forall i, j :: 0 <= i < j < |big| ==> big[i].ptr != big[j].ptr)
    && (forall i, k :: 0 <= i < |big| && 0 <= k < |cs| ==> big[i].ptr != cs[k].addr)
  }

  ghost function LivePages(z: Zone, pmm: Buddy): map<nat, nat> { UsedHeads(z, pmm.pages, -1) }

  ghost predicate Holdings(live: map<nat, nat>, h: Heap) {
    PagesBacked(live, h.cs) && BigBacked(live, h.big) && BigApart(h.cs, h.big)
  }

  ghost predicate SysOk(z: Zone, h: Heap, pmm: Buddy) {
    && HeapOk(h) && Inv(z, pmm) && !PhantomMatches(z)
    && Holdings(LivePages(z, pmm), h)
  }

  // --------------------------------------------------------- page addresses

  lemma AddrIndex(i: nat)
    ensures Offset(Addr(i)) == 0 && PageIndex(Addr(i)) == i && Addr(i) >= KERNEL_BASE
    ensures Addr(i) % PAGE == 0
  {
  }

  lemma SameIndex(a: nat, b: nat)
    requires a >= KERNEL_BASE && b >= KERNEL_BASE && Offset(a) == 0 && Offset(b) == 0
    requires PageIndex(a) == PageIndex(b)
    ensures a == b
  {
  }

  /** A page that is not live yet is not one of the heap's. */
  lemma FreshIndex(live: map<nat, nat>, h: Heap, i: nat)
    requires Holdings(live, h) && ChunksOk(h.cs) && i !in live
    ensures forall k :: 0 <= k < |h.cs| ==> h.cs[k].addr / PAGE != Addr(i) / PAGE
    ensures forall k :: 0 <= k < |h.big| ==> h.big[k].ptr != Addr(i)
  {
    AddrIndex(i);
    forall k | 0 <= k < |h.cs|
      ensures h.cs[k].addr / PAGE != Addr(i) / PAGE
    {
      var f := PageStart(h.cs, k);
      assert Backed(live, h.cs[f].addr, 0);
    }
    forall k | 0 <= k < |h.big|
      ensures h.big[k].ptr != Addr(i)
    {
      assert Backed(live, h.big[k].ptr, h.big[k].order);
    }
  }

  lemma HoldingsGrow(live: map<nat, nat>, h: Heap, i: nat, k: nat)
    requires Holdings(live, h) && i !in live
    ensures Holdings(live[i := k], h)
  {
    forall j | 0 <= j < |h.cs| && IsFirst(h.cs[j].addr)
      ensures Backed(live[i := k], h.cs[j].addr, 0)
    {
      assert Backed(live, h.cs[j].addr, 0);
    }
    forall j | 0 <= j < |h.big|
      ensures Backed(live[i := k], h.big[j].ptr, h.big[j].order)
    {
      assert Backed(live, h.big[j].ptr, h.big[j].order);
    }
  }

  // --------------------------------------------------------- small requests

  lemma {:induction false} FirstBucketFacts(buckets: seq<seq<nat>>, b: nat)
    ensures var j := FirstBucket(buckets, b);
      && j >= b && (j < |buckets| ==> buckets[j] != [])
      && forall k :: b <= k < j && k < |buckets| ==> buckets[k] == []
    decreases |buckets| - b
  {
    if b < |buckets| && buckets[b] == [] {
      FirstBucketFacts(buckets, b + 1);
    }
  }

  lemma SmallPowers()
    ensures Pow2(2) == 4 && Pow2(11) == 2048 && Pow2(12) == PAGE
  {
    assert Pow2(5) == 32;
    assert Pow2(8) == 256;
  }

  lemma RoundUp(n: nat)
    requires MIN_SIZE <= n < PAGE
    ensures var m := AlignUp4(n);
      && n <= m < n + 4 && m % 4 == 0 && m >= MIN_SIZE
      && AllocOrder(m) >= 0 && (AllocOrder(m) >= NUM_SIZES <==> n > 2048)
  {
    hide Pow2, Log2;
    var m := AlignUp4(n);
    SmallPowers();
    Log2Below(m - 1, 2);
    Log2Below(m - 1, 11);
  }

  /** The sentinels of the list after carving are those before. */
  lemma CarveHoldings(live: map<nat, nat>, h: Heap, h': Heap, i: nat, m: nat)
    requires Holdings(live, h) && Carvable(h.cs, i, m)
    requires h'.cs == Carved(h.cs, i, m) && h'.big == h.big
    ensures Holdings(live, h') && h'.cs[0] == h.cs[0]
  {
    CarveLinked(h.cs, i, m);
    FreeIsMid(h.cs, i);
    var d := |h'.cs| - |h.cs|;
    forall k | 0 <= k < |h'.cs|
      ensures IsMid(h'.cs[k].addr) || exists j :: 0 <= j < |h.cs| && h'.cs[k] == h.cs[j]
    {
      if k < i {
        assert h'.cs[k] == h.cs[k];
      } else if k > i + d {
        assert h'.cs[k] == h.cs[k - d];
      } else if Splits(Size(h.cs, i), m) {
        SplitMidAt(h.cs, i, m);
      }
    }
    forall b, k | 0 <= b < |h.big| && 0 <= k < |h'.cs|
      ensures h'.big[b].ptr != h'.cs[k].addr
    {
      assert Backed(live, h.big[b].ptr, h.big[b].order);
    }
  }

  /** One more chunk is in use: n bytes at address a. */
  ghost predicate Gains(h: Heap, h': Heap, a: nat, n: int) {
    Cells(h'.cs, true) == Cells(h.cs, true) + {(a, n)}
  }

  /** What a small allocation of m bytes at p changes: a chunk nobody had, with
      room for m bytes and none to spare for another chunk, all of it now in use. */
  ghost predicate Carves(h: Heap, h': Heap, p: nat, m: nat) {
    && h'.big == h.big && p >= HEADER && IsMid(HeaderOf(p))
    && NoneAt(Cells(h.cs, true), HeaderOf(p))
    && exists n: int :: m <= n < m + SENTINEL && Gains(h, h', HeaderOf(p), n) && Charged(h, h', n)
  }

  /** The n bytes of a chunk, a multiple of 4, are counted as used. */
  predicate Charged(h: Heap, h': Heap, n: int) { n % 4 == 0 && h'.memUsed == h.memUsed + n }

  lemma TakeCarves(h: Heap, j: nat, m: nat, i: nat)
    requires j < |h.buckets| && h.buckets[j] != []
    requires Carvable(h.cs, i, m) && h.cs[i].addr == h.buckets[j][0]
    requires Take(h, j, m).cs == Carved(h.cs, i, m) && Take(h, j, m).big == h.big
    ensures Carves(h, Take(h, j, m), h.buckets[j][0] + HEADER, m)
  {
    hide Cells, Outside, Linked, Distinct, NoEmptyBut, NoneAt, Carved;
    FreeIsMid(h.cs, i);
    CarveCells(h.cs, i, m);
    TakeCharges(h, j, m, i);
    var n := Size(h.cs, i);
    assert Gains(h, Take(h, j, m), h.cs[i].addr, if Splits(n, m) then m else n);
  }

  lemma TakeCharges(h: Heap, j: nat, m: nat, i: nat)
    requires j < |h.buckets| && h.buckets[j] != []
    requires Carvable(h.cs, i, m) && h.cs[i].addr == h.buckets[j][0]
    ensures var n := Size(h.cs, i); Charged(h, Take(h, j, m), if Splits(n, m) then m else n)
  {
    hide Linked, NoEmptyBut, Bucket;
    FreeIsMid(h.cs, i);
    IndexOfIs(h.cs, i);
  }

  /** A request served from a bucket that is already there. */
  lemma ServeOk(z: Zone, h: Heap, pmm: Buddy, j: nat, m: nat)
    requires SysOk(z, h, pmm) && j < NUM_SIZES && j < |h.buckets| && h.buckets[j] != []
    requires m % 4 == 0 && m >= MIN_SIZE && AllocOrder(m) <= j
    ensures var h' := Take(h, j, m);
      && SysOk(z, h', pmm) && Carves(h, h', h.buckets[j][0] + HEADER, m) && h'.cs != [] && h'.cs[0] == h.cs[0]
  {
    EmptyBut(h.cs, IndexOf(h.cs, h.buckets[j][0]));
    hide Inv, PhantomMatches, NoEmptyPage, NoEmptyBut, BucketsOk, Cells, CountersOk, Linked, Distinct, Carves;
    var i := TakeOk(h, j, m);
    TakeCarves(h, j, m, i);
    CarveHoldings(LivePages(z, pmm), h, Take(h, j, m), i, m);
  }

  lemma EmptyBut(cs: seq<Chunk>, i: nat)
    requires NoEmptyPage(cs)
    ensures NoEmptyBut(cs, i)
  {
  }

  /** A fresh page makes the search succeed: the heap panic is unreachable. */
  lemma FreshBucket(h: Heap, p: nat, order: nat)
    requires HeapBase(AddPage(h, p)) && |h.buckets| == NUM_SIZES && order < NUM_SIZES && Bucket(WHOLE) == NUM_SIZES - 1
    requires forall b :: order <= b < NUM_SIZES ==> h.buckets[b] == []
    ensures var b1 := AddPage(h, p).buckets;
      FirstBucket(b1, order) == NUM_SIZES - 1 && b1[NUM_SIZES - 1] == [p + SENTINEL] && |b1| == NUM_SIZES
  {
    var b1 := AddPage(h, p).buckets;
    FirstBucketFacts(b1, order);
  }

  lemma GrowHoldings(live: map<nat, nat>, h: Heap, i: nat)
    requires Holdings(live, h) && i !in live && ChunksOk(h.cs)
    ensures Holdings(live[i := 0], AddPage(h, Addr(i)))
  {
    var live', p := live[i := 0], Addr(i);
    var h' := AddPage(h, p);
    FreshIndex(live, h, i);
    HoldingsGrow(live, h, i, 0);
    AddrIndex(i);
    FreshLinks(p);
    forall k | 0 <= k < |h'.cs| && IsFirst(h'.cs[k].addr)
      ensures Backed(live', h'.cs[k].addr, 0)
    {
      if k < |h.cs| { assert h'.cs[k] == h.cs[k]; } else { assert h'.cs[k] == FreshPage(p)[k - |h.cs|]; }
    }
    forall b, k | 0 <= b < |h.big| && 0 <= k < |h'.cs|
      ensures h'.big[b].ptr != h'.cs[k].addr
    {
      assert Backed(live, h.big[b].ptr, h.big[b].order);
      if k < |h.cs| { assert h'.cs[k] == h.cs[k]; } else { assert h'.cs[k] == FreshPage(p)[k - |h.cs|]; }
    }
  }

  /** A request that needs a new page. */
  lemma GrowOk(z: Zone, h: Heap, pmm: Buddy, order: nat, m: nat)
    requires SysOk(z, h, pmm) && order < NUM_SIZES && Alloc(z, pmm, 0).Got?
    requires m % 4 == 0 && m >= MIN_SIZE && AllocOrder(m) == order
    requires forall b :: order <= b < NUM_SIZES && b < |h.buckets| ==> h.buckets[b] == []
    ensures var Got(pmm', i) := Alloc(z, pmm, 0);
      var h1 := AddPage(h, Addr(i));
      var j := FirstBucket(h1.buckets, order);
      && j < |h1.buckets| && h1.buckets[j] != []
      && var h' := Take(h1, j, m);
         && SysOk(z, h', pmm') && Carves(h, h', h1.buckets[j][0] + HEADER, m) && h'.cs != [] && h'.cs[0] == h.cs[0]
  {
    hide Inv, PhantomMatches, NoEmptyPage, NoEmptyBut, Cells, CountersOk, Linked, Distinct, Carves, UsedHeads, Alloc,
         BuddyModel.FreePages, Belongs, Take, Holdings, Carvable;
    var Got(pmm', i) := Alloc(z, pmm, 0);
    var p, live := Addr(i), LivePages(z, pmm);
    AllocKeeps(z, pmm, 0);
    AddrIndex(i);
    FreshIndex(live, h, i);
    AddPageOk(h, p);
    var h1 := AddPage(h, p);
    FreshBucket(h, p, order);
    GrowHoldings(live, h, i);
    FreshAt(h, p);
    var c := TakeOk(h1, NUM_SIZES - 1, m);
    TakeCarves(h1, NUM_SIZES - 1, m, c);
    CarveHoldings(LivePages(z, pmm'), h1, Take(h1, NUM_SIZES - 1, m), c, m);
    SameCarve(h, h1, Take(h1, NUM_SIZES - 1, m), p + SENTINEL + HEADER, m);
  }

  lemma FreshAt(h: Heap, p: nat)
    requires ChunksOk(AddPage(h, p).cs)
    ensures IndexOf(AddPage(h, p).cs, p + SENTINEL) == |h.cs| + 1
    ensures |h.cs| > 0 ==> AddPage(h, p).cs[0] == h.cs[0]
  {
    assert AddPage(h, p).cs[|h.cs| + 1] == Chunk(p + SENTINEL, false);
    IndexOfIs(AddPage(h, p).cs, |h.cs| + 1);
  }

  lemma SameCarve(h: Heap, h1: Heap, h': Heap, p: nat, m: nat)
    requires Carves(h1, h', p, m) && Cells(h1.cs, true) == Cells(h.cs, true) && h1.big == h.big
    requires h1.memUsed == h.memUsed
    ensures Carves(h, h', p, m)
  {
    hide Cells;
    var n: int :| m <= n < m + SENTINEL && Gains(h1, h', HeaderOf(p), n) && Charged(h1, h', n);
    assert Gains(h, h', HeaderOf(p), n);
  }

  // ------------------------------------------------------- page requests

  /** k is the least order of a block of n bytes. */
  predicate LeastOrder(n: nat, k: nat) {
    PAGE * Pow2(k) >= n && (k > 0 ==> PAGE * Pow2(k - 1) < n)
  }

  lemma PageOrderFits(n: nat)
    requires PAGE <= n
    ensures 0 <= PageOrder(n) && LeastOrder(n, PageOrder(n))
  {
    hide Pow2, Log2;
    SmallPowers();
    Log2Below(n - 1, 11);
    var k := PageOrder(n);
    Pow2Sum(12, k);
    if k > 0 { Pow2Sum(12, k - 1); }
    Log2Facts(n - 1);
  }

  lemma {:induction false} Pow2Sum(a: nat, b: nat)
    ensures Pow2(a + b) == Pow2(a) * Pow2(b)
  {
    if b > 0 {
      Pow2Sum(a, b - 1);
      assert Pow2(a) * Pow2(b) == 2 * (Pow2(a) * Pow2(b - 1));
    }
  }

  lemma BigHoldings(live: map<nat, nat>, h: Heap, i: nat, k: nat)
    requires Holdings(live, h) && i !in live && ChunksOk(h.cs)
    ensures Holdings(live[i := k], h.(big := [Big(Addr(i), k)] + h.big))
  {
    var live', big' := live[i := k], [Big(Addr(i), k)] + h.big;
    FreshIndex(live, h, i);
    HoldingsGrow(live, h, i, k);
    AddrIndex(i);
    forall j | 0 <= j < |big'|
      ensures Backed(live', big'[j].ptr, big'[j].order)
    {
      if j > 0 { assert big'[j] == h.big[j - 1]; }
    }
    forall x, y | 0 <= x < y < |big'|
      ensures big'[x].ptr != big'[y].ptr
    {
      assert big'[y] == h.big[y - 1];
      if x > 0 { assert big'[x] == h.big[x - 1]; }
    }
    forall x, c | 0 <= x < |big'| && 0 <= c < |h.cs|
      ensures big'[x].ptr != h.cs[c].addr
    {
      if x > 0 { assert big'[x] == h.big[x - 1]; }
    }
  }

  lemma AllocBigOk(z: Zone, h: Heap, pmm: Buddy, n: nat)
    requires SysOk(z, h, pmm) && PAGE <= n
    ensures 0 <= PageOrder(n) && LeastOrder(n, PageOrder(n))
    ensures match AllocBig(z, h, pmm, n)
      case OutOfPages => Alloc(z, pmm, PageOrder(n)).Panic?
      case Ptr(h', pmm', p) => SysOk(z, h', pmm') && h'.cs == h.cs && h'.big == [Big(p, PageOrder(n))] + h.big
      case _ => false
  {
    hide Inv, PhantomMatches, NoEmptyPage, Cells, UsedHeads, Alloc, BuddyModel.FreePages, BucketsOk, PagesBacked,
         BigBacked, BigApart, Total, Linked, Distinct;
    PageOrderFits(n);
    var k := PageOrder(n);
    if Alloc(z, pmm, k).Got? {
      AllocKeeps(z, pmm, k);
      BigHoldings(LivePages(z, pmm), h, Alloc(z, pmm, k).index, k);
      assert ([Big(Addr(Alloc(z, pmm, k).index), k)] + h.big)[1..] == h.big;
    }
  }

  // ------------------------------------------------------------- kmalloc

  /** The order kmalloc asks the page allocator for: one page for a small request. */
  function OrderFor(size: nat): nat {
    if size < PAGE || PageOrder(size) < 0 then 0 else PageOrder(size)
  }

  predicate IsRefused(size: nat) { size == 0 || 2048 < size < PAGE }

  /** The bytes a small request is rounded up to. */
  function RequestSize(size: nat): nat { AlignUp4(if size < MIN_SIZE then MIN_SIZE else size) }

  /** m is the least multiple of 4 that holds the request and the smallest payload. */
  predicate Rounded(size: nat, m: nat) {
    m % 4 == 0 && m >= 8 && m >= size && (m < 12 || m < size + 4)
  }

  /** No bucket from order b up holds a chunk. */
  ghost predicate NothingFrom(buckets: seq<seq<nat>>, b: int) {
    forall k :: 0 <= k < |buckets| && b <= k ==> buckets[k] == []
  }

  /** What kmalloc keeps and returns. Null exactly for size 0 and for 2049..4095;
      the heap's own panic is unreachable; out of pages only when no bucket could
      serve; a small pointer owns the rounded size in a chunk nobody had; a large
      one owns the smallest block of pages that holds it. */
  ghost predicate KmallocSpec(z: Zone, h: Heap, pmm: Buddy, size: nat, r: Outcome) {
    match r
    case Null => IsRefused(size)
    case HeapPanic => false
    case OutOfPages =>
      && !IsRefused(size) && Alloc(z, pmm, OrderFor(size)).Panic?
      && (size < PAGE ==> NothingFrom(h.buckets, AllocOrder(RequestSize(size))))
    case Ptr(h', pmm', p) =>
      && !IsRefused(size) && SysOk(z, h', pmm') && h'.cs != [] && h.cs != [] && h'.cs[0] == h.cs[0]
      && if size < PAGE then Rounded(size, RequestSize(size)) && Carves(h, h', p, RequestSize(size))
         else h'.cs == h.cs && h'.big == [Big(p, OrderFor(size))] + h.big && LeastOrder(size, OrderFor(size))
  }

  lemma AllocSmallOk(z: Zone, h: Heap, pmm: Buddy, m: nat, order: nat)
    requires SysOk(z, h, pmm) && m % 4 == 0 && m >= MIN_SIZE && AllocOrder(m) == order < NUM_SIZES
    ensures match AllocSmall(z, h, pmm, m, order)
      case OutOfPages => Alloc(z, pmm, 0).Panic? && NothingFrom(h.buckets, order)
      case Ptr(h', pmm', p) =>
        && SysOk(z, h', pmm') && Carves(h, h', p, m) && h'.cs != [] && h.cs != [] && h'.cs[0] == h.cs[0]
      case _ => false
  {
    hide SysOk, Carves, Take, AddPage, FirstBucket, Alloc, Log2, AllocOrder;
    FirstBucketFacts(h.buckets, order);
    SizesKnown(z, h, pmm);
    var j := FirstBucket(h.buckets, order);
    if j < |h.buckets| && h.buckets[j] != [] {
      ServeOk(z, h, pmm, j, m);
    } else if Alloc(z, pmm, 0).Got? {
      GrowOk(z, h, pmm, order, m);
    }
  }

  lemma SizesKnown(z: Zone, h: Heap, pmm: Buddy)
    requires SysOk(z, h, pmm)
    ensures |h.buckets| == NUM_SIZES && h.cs != []
  {
  }

  lemma KmallocOk(z: Zone, h: Heap, pmm: Buddy, size: nat)
    requires SysOk(z, h, pmm)
    ensures KmallocSpec(z, h, pmm, size, Kmalloc(z, h, pmm, size))
  {
    hide SysOk, Carves, Alloc, AllocSmall, AllocBig, Log2, PageOrder;
    SizesKnown(z, h, pmm);
    if size > 0 {
      var n := if size < MIN_SIZE then MIN_SIZE else size;
      if n >= PAGE {
        AllocBigOk(z, h, pmm, n);
      } else {
        RoundUp(n);
        var m := AlignUp4(n);
        if AllocOrder(m) < NUM_SIZES {
          AllocSmallOk(z, h, pmm, m, AllocOrder(m));
        }
      }
    }
  }
}
