/** kfree, the balance of bytes between the two allocators, and whole runs. */
module HeapRuns {
  import opened Bits
  import opened NodeList
  import opened BuddyModel
  import opened BuddySteps
  import opened BuddyCalls
  import opened BuddyTheorems
  import opened HeapModel
  import opened HeapLists
  import opened HeapAlloc
  import opened HeapFree
  import opened HeapSystem

  /** A pointer that kmalloc returned and that has not been freed. */
  ghost predicate LivePtr(h: Heap, p: nat) {
    if Offset(p) == 0 then exists i :: 0 <= i < |h.big| && h.big[i].ptr == p
    else p >= HEADER && exists n :: (HeaderOf(p), n) in Cells(h.cs, true)
  }

  /** What freeing p changes: p is live no more, nothing else moves. */
  ghost predicate Frees(h: Heap, h': Heap, p: nat) {
    && h'.cs != [] && h.cs != [] && h'.cs[0] == h.cs[0]
    && if Offset(p) == 0 then h'.cs == h.cs && h'.big == RemoveBig(h.big, p)
       else
         && h'.big == h.big && NoneAt(Cells(h'.cs, true), HeaderOf(p))
         && exists n :: Gains(h', h, HeaderOf(p), n)
  }

  // ------------------------------------------------------- nothing overlaps

  lemma SamePageIndex(a: nat, b: nat)
    requires a / PAGE == b / PAGE && b >= KERNEL_BASE
    ensures PageIndex(a) == PageIndex(b)
  {
    assert KERNEL_BASE == 786432 * PAGE;
  }

  /** The block of a page-sized allocation holds no page of chunks and no page of
      another such block. Within pages of chunks, see ChunksApart. */
  lemma BlocksApart(z: Zone, h: Heap, pmm: Buddy, i: nat)
    requires SysOk(z, h, pmm) && i < |h.big|
    ensures forall k :: 0 <= k < |h.cs| ==> PageIndex(h.cs[k].addr) !in Block(PageIndex(h.big[i].ptr), h.big[i].order)
    ensures forall j :: 0 <= j < |h.big| && j != i ==>
              Block(PageIndex(h.big[i].ptr), h.big[i].order) !! Block(PageIndex(h.big[j].ptr), h.big[j].order)
  {
    hide Inv, PhantomMatches, UsedHeads, NoEmptyPage, BucketsOk, CountersOk, Distinct, Link, BuddyModel.FreePages;
    var live, b := LivePages(z, pmm), h.big[i];
    assert Backed(live, b.ptr, b.order);
    forall k | 0 <= k < |h.cs|
      ensures PageIndex(h.cs[k].addr) !in Block(PageIndex(b.ptr), b.order)
    {
      var f := PageStart(h.cs, k);
      assert Backed(live, h.cs[f].addr, 0);
      SamePageIndex(h.cs[k].addr, h.cs[f].addr);
      if PageIndex(h.cs[f].addr) == PageIndex(b.ptr) { SameIndex(h.cs[f].addr, b.ptr); }
      LiveBlocksApart(z, pmm, PageIndex(b.ptr), PageIndex(h.cs[f].addr));
      BlockHas(PageIndex(h.cs[f].addr), 0);
    }
    forall j | 0 <= j < |h.big| && j != i
      ensures Block(PageIndex(b.ptr), b.order) !! Block(PageIndex(h.big[j].ptr), h.big[j].order)
    {
      assert Backed(live, h.big[j].ptr, h.big[j].order);
      if PageIndex(h.big[j].ptr) == PageIndex(b.ptr) { SameIndex(h.big[j].ptr, b.ptr); }
      LiveBlocksApart(z, pmm, PageIndex(b.ptr), PageIndex(h.big[j].ptr));
    }
  }

  // ------------------------------------------------------------ page blocks

  lemma {:induction false} RemoveBigFacts(big: seq<Big>, i: nat)
    requires i < |big| && forall j, k :: 0 <= j < k < |big| ==> big[j].ptr != big[k].ptr
    ensures RemoveBig(big, big[i].ptr) == big[..i] + big[i + 1..]
    ensures BigBytes(RemoveBig(big, big[i].ptr)) == BigBytes(big) - PAGE * Pow2(big[i].order)
  {
    if i > 0 {
      RemoveBigFacts(big[1..], i - 1);
      assert big[1..][i - 1] == big[i];
      var r := RemoveBig(big[1..], big[i].ptr);
      assert RemoveBig(big, big[i].ptr) == [big[0]] + r;
      assert ([big[0]] + r)[1..] == r;
    }
  }

  lemma PmmFreeIs(z: Zone, pmm: Buddy, i: nat)
    requires Inv(z, pmm) && i in LivePages(z, pmm) && !PhantomMatches(z)
    ensures i < |pmm.pages| && pmm.pages[i].order == LivePages(z, pmm)[i] <= MAX_ORDER
    ensures At(z, pmm.pages, i).order <= MAX_ORDER && PmmFree(z, pmm, i) == Dealloc(z, pmm, i)
    ensures var pmm' := PmmFree(z, pmm, i);
      Inv(z, pmm') && LivePages(z, pmm') == LivePages(z, pmm) - {i}
      && pmm'.usedCount == pmm.usedCount - Pow2(LivePages(z, pmm)[i])
  {
    DeallocKeeps(z, pmm, i);
    UsedInMap(z, pmm.pages, i);
  }

  lemma BackedStays(live: map<nat, nat>, a: nat, k: nat, b: nat)
    requires Backed(live, a, k) && b >= KERNEL_BASE && Offset(b) == 0 && a != b
    ensures Backed(live - {PageIndex(b)}, a, k)
  {
    if PageIndex(a) == PageIndex(b) { SameIndex(a, b); }
  }

  lemma DropBigHoldings(live: map<nat, nat>, h: Heap, i: nat)
    requires Holdings(live, h) && i < |h.big|
    ensures Holdings(live - {PageIndex(h.big[i].ptr)}, h.(big := h.big[..i] + h.big[i + 1..]))
  {
    var p, big' := h.big[i].ptr, h.big[..i] + h.big[i + 1..];
    var live' := live - {PageIndex(p)};
    assert Backed(live, p, h.big[i].order);
    assert forall j :: 0 <= j < |big'| ==> big'[j] == h.big[if j < i then j else j + 1];
    forall k | 0 <= k < |h.cs| && IsFirst(h.cs[k].addr)
      ensures Backed(live', h.cs[k].addr, 0)
    {
      BackedStays(live, h.cs[k].addr, 0, p);
    }
    forall j | 0 <= j < |big'|
      ensures Backed(live', big'[j].ptr, big'[j].order)
    {
      BackedStays(live, big'[j].ptr, big'[j].order, p);
    }
  }

  lemma FreeBigOk(z: Zone, h: Heap, pmm: Buddy, p: nat, i: nat)
    requires SysOk(z, h, pmm) && i < |h.big| && h.big[i].ptr == p
    ensures var s' := FreeBig(z, h, pmm, p);
      && SysOk(z, s'.h, s'.pmm) && s'.h.cs == h.cs && s'.h.big == RemoveBig(h.big, p)
      && Bytes(s'.h) - Bytes(h) == PAGE * (s'.pmm.usedCount - pmm.usedCount)
  {
    hide Inv, PhantomMatches, NoEmptyPage, Cells, UsedHeads, BucketsOk, PagesBacked, Total, Linked, Distinct, PmmFree;
    var live := LivePages(z, pmm);
    assert Backed(live, p, h.big[i].order);
    PmmFreeIs(z, pmm, PageIndex(p));
    RemoveBigFacts(h.big, i);
    DropBigHoldings(live, h, i);
  }

  // ------------------------------------------------------------------ chunks

  lemma LiveChunk(h: Heap, p: nat) returns (i: nat)
    requires ChunksOk(h.cs) && LivePtr(h, p) && Offset(p) != 0
    ensures i == IndexOf(h.cs, HeaderOf(p)) && Freeable(h.cs, i) && 0 < i < |h.cs| - 1 && h.cs[i].addr == HeaderOf(p)
  {
    var n :| (HeaderOf(p), n) in Cells(h.cs, true);
    i :| 0 <= i < |h.cs| - 1 && h.cs[i].used && IsMid(h.cs[i].addr) && h.cs[i].addr == HeaderOf(p);
    IndexOfIs(h.cs, i);
    MergeFacts(h.cs, i);
  }

  lemma MergedHoldings(live: map<nat, nat>, h: Heap, i: nat, cs': seq<Chunk>)
    requires Holdings(live, h) && Freeable(h.cs, i)
    requires 0 < i < |h.cs| - 1 && MergeLo(h.cs, i) < MergeHi(h.cs, i) < |h.cs| && cs' == Coalesced(h.cs, i)
    ensures Holdings(live, h.(cs := cs'))
  {
    MergeFacts(h.cs, i);
    var lo, hi := MergeLo(h.cs, i), MergeHi(h.cs, i);
    var d := hi - lo - 1;
    hide MergeLo, MergeHi, Freeable;
    forall k | 0 <= k < |cs'|
      ensures exists j :: 0 <= j < |h.cs| && cs'[k].addr == h.cs[j].addr
    {
      if k <= lo { assert cs'[k].addr == h.cs[k].addr; } else { assert cs'[k] == h.cs[k + d]; }
    }
  }

  lemma ReturnedHoldings(live: map<nat, nat>, h: Heap, i: nat, cs': seq<Chunk>)
    requires Holdings(live, h) && Returnable(h.cs, i)
    requires 0 < i < |h.cs| - 1 && 0 < MergeLo(h.cs, i) < MergeHi(h.cs, i) < |h.cs| && cs' == Returned(h.cs, i)
    ensures Backed(live, h.cs[MergeLo(h.cs, i) - 1].addr, 0)
    ensures Holdings(live - {PageIndex(h.cs[MergeLo(h.cs, i) - 1].addr)}, h.(cs := cs'))
  {
    ReturnFacts(h.cs, i);
    var lo, hi := MergeLo(h.cs, i), MergeHi(h.cs, i);
    var p, d := h.cs[lo - 1].addr, hi - lo + 2;
    var live' := live - {PageIndex(p)};
    hide MergeLo, MergeHi, Linked, NoEmptyPage, IsMid, IsLast, Freeable, PageDone;
    assert Backed(live, p, 0);
    assert forall k :: 0 <= k < |cs'| ==> cs'[k] == h.cs[if k < lo - 1 then k else k + d];
    forall k | 0 <= k < |cs'| && IsFirst(cs'[k].addr)
      ensures Backed(live', cs'[k].addr, 0)
    {
      assert Backed(live, cs'[k].addr, 0);
      BackedStays(live, cs'[k].addr, 0, p);
    }
    forall j | 0 <= j < |h.big|
      ensures Backed(live', h.big[j].ptr, h.big[j].order)
    {
      assert Backed(live, h.big[j].ptr, h.big[j].order);
      BackedStays(live, h.big[j].ptr, h.big[j].order, p);
    }
  }

  /** All the bytes the heap accounts for. */
  function Bytes(h: Heap): int { h.memUsed + h.memFree + h.memMeta }

  lemma FreeMerged(z: Zone, h: Heap, pmm: Buddy, i: nat)
    requires SysOk(z, h, pmm) && Freeable(h.cs, i) && 0 < i < |h.cs| - 1
    requires !PageDone(h.cs, MergeLo(h.cs, i), MergeHi(h.cs, i))
    ensures var s' := FreeChunk(z, h, pmm, i);
      && SysOk(z, s'.h, s'.pmm) && s'.pmm == pmm && Bytes(s'.h) == Bytes(h)
      && s'.h.big == h.big && s'.h.cs != [] && h.cs != [] && s'.h.cs[0] == h.cs[0]
      && NoneAt(Cells(s'.h.cs, true), h.cs[i].addr) && Gains(s'.h, h, h.cs[i].addr, Size(h.cs, i))
  {
    hide Inv, PhantomMatches, NoEmptyPage, Cells, BucketsOk, CountersOk, Linked, Distinct, NoneAt, Bucket,
         DropNeighbours, PagesBacked, BigBacked, BigApart;
    MergedOk(h, i);
    MergedChunks(h.cs, i);
    StretchTotals(h.cs, i);
    MergedHoldings(LivePages(z, pmm), h, i, Coalesced(h.cs, i));
  }

  lemma FreeReturned(z: Zone, h: Heap, pmm: Buddy, i: nat)
    requires SysOk(z, h, pmm) && Returnable(h.cs, i) && 0 < i < |h.cs| - 1
    ensures var s' := FreeChunk(z, h, pmm, i);
      && SysOk(z, s'.h, s'.pmm) && Bytes(s'.h) - Bytes(h) == PAGE * (s'.pmm.usedCount - pmm.usedCount)
      && s'.h.big == h.big && s'.h.cs != [] && h.cs != [] && s'.h.cs[0] == h.cs[0]
      && NoneAt(Cells(s'.h.cs, true), h.cs[i].addr) && Gains(s'.h, h, h.cs[i].addr, Size(h.cs, i))
  {
    hide Inv, PhantomMatches, NoEmptyPage, Cells, BucketsOk, CountersOk, Linked, Distinct, NoneAt, Bucket,
         DropNeighbours, PagesBacked, BigBacked, BigApart, PmmFree, UsedHeads, IsFirst, IsMid, IsLast, Freeable;
    ReturnedOk(h, i);
    ReturnedChunks(h.cs, i);
    StretchTotals(h.cs, i);
    ReturnedHoldings(LivePages(z, pmm), h, i, Returned(h.cs, i));
    PmmFreeIs(z, pmm, PageIndex(h.cs[MergeLo(h.cs, i) - 1].addr));
  }

  /** kfree of a live pointer keeps the system well formed, ends exactly that
      allocation, and moves as many bytes as it moves pages. */
  lemma KfreeOk(z: Zone, h: Heap, pmm: Buddy, p: nat)
    requires SysOk(z, h, pmm) && LivePtr(h, p)
    ensures var s' := Kfree(z, h, pmm, p);
      && SysOk(z, s'.h, s'.pmm) && Frees(h, s'.h, p)
      && Bytes(s'.h) - Bytes(h) == PAGE * (s'.pmm.usedCount - pmm.usedCount)
  {
    hide SysOk, Cells, FreeBig, FreeChunk, NoneAt, Gains;
    SizesKnown(z, h, pmm);
    if Offset(p) == 0 {
      var i :| 0 <= i < |h.big| && h.big[i].ptr == p;
      FreeBigOk(z, h, pmm, p, i);
    } else {
      SysChunks(z, h, pmm);
      var i := LiveChunk(h, p);
      if PageDone(h.cs, MergeLo(h.cs, i), MergeHi(h.cs, i)) {
        FreeReturned(z, h, pmm, i);
      } else {
        FreeMerged(z, h, pmm, i);
      }
    }
  }

  lemma SysChunks(z: Zone, h: Heap, pmm: Buddy)
    requires SysOk(z, h, pmm)
    ensures ChunksOk(h.cs)
  {
  }

  // ------------------------------------------------------- balance of bytes

  lemma AllocCount(z: Zone, pmm: Buddy, k: nat)
    requires Alloc(z, pmm, k).Got?
    ensures Alloc(z, pmm, k).state.usedCount == pmm.usedCount + Pow2(k)
  {
    FirstOrderFacts(pmm.lists, k);
  }

  lemma TakeBytes(h: Heap, j: nat, m: nat)
    requires j < |h.buckets| && h.buckets[j] != []
    ensures Bytes(Take(h, j, m)) == Bytes(h)
  {
  }

  /** kmalloc moves as many bytes as it moves pages. */
  lemma KmallocBalances(z: Zone, h: Heap, pmm: Buddy, size: nat)
    requires Kmalloc(z, h, pmm, size).Ptr?
    ensures var r := Kmalloc(z, h, pmm, size);
      Bytes(r.h) - Bytes(h) == PAGE * (r.pmm.usedCount - pmm.usedCount)
  {
    hide Alloc, Take, Log2, FirstBucket, PushFree;
    var n := if size < MIN_SIZE then MIN_SIZE else size;
    if n >= PAGE {
      AllocCount(z, pmm, PageOrder(n));
    } else {
      var m := AlignUp4(n);
      var order := AllocOrder(m);
      var j := FirstBucket(h.buckets, order);
      if j < |h.buckets| && h.buckets[j] != [] {
        TakeBytes(h, j, m);
      } else {
        AllocCount(z, pmm, 0);
        var h1 := AddPage(h, Addr(Alloc(z, pmm, 0).index));
        TakeBytes(h1, FirstBucket(h1.buckets, order), m);
      }
    }
  }

  function PagesIn(cs: seq<Chunk>): nat {
    if cs == [] then 0 else (if IsLast(cs[0].addr) then 1 else 0) + PagesIn(cs[1..])
  }

  /** From any chunk on, the parts add up to the rest of its page and the whole
      pages after it. */
  lemma {:induction false} PartsAddUp(cs: seq<Chunk>)
    requires |cs| >= 1 && Linked(cs) && IsLast(cs[|cs| - 1].addr)
    requires IsFirst(cs[0].addr) || IsMid(cs[0].addr) || IsLast(cs[0].addr)
    ensures Total(InUse, cs) + Total(InFree, cs) + Total(InMeta, cs) + SENTINEL ==
            PAGE * PagesIn(cs) - Offset(cs[0].addr)
  {
    if |cs| == 1 {
      assert cs[1..] == [];
    } else {
      assert Link(cs[0], cs[1]);
      var rest := cs[1..];
      assert forall i :: 0 <= i < |rest| ==> rest[i] == cs[i + 1];
      PartsAddUp(rest);
      PairBytes(cs[0], cs[1]);
    }
  }

  lemma PairBytes(c: Chunk, d: Chunk)
    requires Link(c, d)
    ensures PartOf(InUse, c, d) + PartOf(InFree, c, d) + PartOf(InMeta, c, d) ==
            (if IsLast(c.addr) then SENTINEL else Offset(d.addr) - Offset(c.addr))
    ensures IsLast(c.addr) ==> Offset(d.addr) == 0
  {
  }

  /** Used, free and bookkeeping bytes are exactly the heap's pages and the
      page-sized allocations. */
  lemma BytesConserved(h: Heap)
    requires HeapOk(h)
    ensures Bytes(h) == PAGE * PagesIn(h.cs) + BigBytes(h.big)
  {
    PartsAddUp(h.cs);
  }

  // ------------------------------------------------------------ coming home

  function BootHeap(p: nat): Heap { AddPage(EmptyHeap(), p) }

  ghost predicate NothingLive(h: Heap) {
    Cells(h.cs, true) == {} && h.big == []
  }

  lemma NotUsed(cs: seq<Chunk>, i: nat)
    requires Cells(cs, true) == {} && i < |cs| - 1 && IsMid(cs[i].addr)
    ensures !cs[i].used
  {
    var c := (cs[i].addr, Gap(cs[i], cs[i + 1]));
    assert c !in Cells(cs, true);
  }

  /** With nothing in use, a page is its two sentinels around one free chunk. */
  lemma EmptyPageShape(cs: seq<Chunk>, i: nat)
    requires ChunksOk(cs) && Cells(cs, true) == {} && i < |cs| && IsFirst(cs[i].addr)
    ensures i + 2 < |cs| && cs[i..i + 3] == FreshPage(cs[i].addr)
    ensures !cs[i + 1].used && IsLast(cs[i + 2].addr)
  {
    assert i + 1 < |cs|;
    assert Link(cs[i], cs[i + 1]);
    NotUsed(cs, i + 1);
    FreeIsMid(cs, i + 1);
    assert Link(cs[i + 1], cs[i + 2]);
    if i + 2 < |cs| - 1 && IsMid(cs[i + 2].addr) { NotUsed(cs, i + 2); }
  }

  lemma OnlyFirstPage(cs: seq<Chunk>)
    requires ChunksOk(cs) && NoEmptyPage(cs) && Cells(cs, true) == {}
    ensures cs == FreshPage(cs[0].addr)
  {
    EmptyPageShape(cs, 0);
    if |cs| > 3 {
      assert Link(cs[2], cs[3]);
      EmptyPageShape(cs, 3);
    }
    assert cs[0..3] == cs;
  }

  lemma AtMostOne(q: seq<nat>, a: nat)
    requires NoDup(q) && forall x :: x in q ==> x == a
    ensures q == [] || q == [a]
  {
    assert |q| > 1 ==> q[0] != q[1];
    forall k | 0 <= k < |q|
      ensures q[k] == a
    {
      assert q[k] in q;
    }
  }

  lemma OneBucket(buckets: seq<seq<nat>>, a: nat)
    requires BucketsOk({(a, WHOLE as int)}, buckets)
    ensures buckets == PushFree(EmptyHeap().buckets, Bucket(WHOLE), a)
  {
    WholeBucket();
    hide Bucket;
    var boot := PushFree(EmptyHeap().buckets, Bucket(WHOLE), a);
    assert |boot| == NUM_SIZES && forall b :: 0 <= b < NUM_SIZES ==> boot[b] == if b == NUM_SIZES - 1 then [a] else [];
    forall b | 0 <= b < NUM_SIZES
      ensures buckets[b] == if b == NUM_SIZES - 1 then [a] else []
    {
      assert forall x: nat :: x in buckets[b] <==> Belongs({(a, WHOLE as int)}, x, b);
      assert Belongs({(a, WHOLE as int)}, a, NUM_SIZES - 1) by { assert (a, WHOLE as int) in {(a, WHOLE as int)}; }
      AtMostOne(buckets[b], a);
      assert a in buckets[b] <==> b == NUM_SIZES - 1;
    }
  }

  /** A well-formed heap with nothing live is the heap as it was at boot. */
  lemma NothingLiveIsBoot(h: Heap)
    requires HeapOk(h) && NothingLive(h)
    ensures h == BootHeap(h.cs[0].addr)
  {
    hide Linked, Distinct, Bucket, Total, Cells, BucketsOk, NoEmptyPage;
    OnlyFirstPage(h.cs);
    var p := h.cs[0].addr;
    FreshSums(p);
    OneBucket(h.buckets, p + SENTINEL);
    assert EmptyHeap().cs + FreshPage(p) == FreshPage(p);
  }

  lemma FreshSums(p: nat)
    requires p % PAGE == 0
    ensures var f := FreshPage(p);
      && Cells(f, false) == {(p + SENTINEL, WHOLE as int)} && Cells(f, true) == {}
      && Total(InFree, f) == WHOLE && Total(InUse, f) == 0 && Total(InMeta, f) == SENTINEL + HEADER
  {
    var l, f := Chunk(PAGE - SENTINEL, true), FreshPage(p);
    var xs := [l] + f;
    FreshCells(l, p);
    assert xs[1..] == f;
    CellsCons(xs, false);
    CellsCons(xs, true);
    hide Cells;
  }

  // ------------------------------------------------------------------- runs

  /** Heap calls, and calls other parts of the kernel make on the page allocator. */
  datatype Op = Malloc(size: nat) | Free(p: nat) | OtherAlloc(order: nat) | OtherFree(i: nat)

  /** Block i of the page allocator is not one the heap holds. */
  ghost predicate Foreign(h: Heap, i: nat) {
    && (forall k :: 0 <= k < |h.cs| && IsFirst(h.cs[k].addr) ==> PageIndex(h.cs[k].addr) != i)
    && (forall k :: 0 <= k < |h.big| ==> PageIndex(h.big[k].ptr) != i)
  }

  ghost predicate Allowed(z: Zone, s: System, op: Op) {
    match op
    case Malloc(size) => !Kmalloc(z, s.h, s.pmm, size).OutOfPages?
    case Free(p) => LivePtr(s.h, p)
    case OtherAlloc(k) => Alloc(z, s.pmm, k).Got?
    case OtherFree(i) => i in LivePages(z, s.pmm) && Foreign(s.h, i)
  }

  ghost function Apply(z: Zone, s: System, op: Op): System {
    match op
    case Malloc(size) =>
      var r := Kmalloc(z, s.h, s.pmm, size);
      if r.Ptr? then System(r.h, r.pmm) else s
    case Free(p) => Kfree(z, s.h, s.pmm, p)
    case OtherAlloc(k) => if Alloc(z, s.pmm, k).Got? then System(s.h, Alloc(z, s.pmm, k).state) else s
    case OtherFree(i) => System(s.h, PmmFree(z, s.pmm, i))
  }

  ghost predicate RunsTo(z: Zone, s: System, ops: seq<Op>, s': System)
    decreases ops
  {
    if ops == [] then s == s' else Allowed(z, s, ops[0]) && RunsTo(z, Apply(z, s, ops[0]), ops[1..], s')
  }

  lemma ForeignStays(live: map<nat, nat>, h: Heap, i: nat)
    requires Holdings(live, h) && Foreign(h, i)
    ensures Holdings(live - {i}, h)
  {
    forall k | 0 <= k < |h.cs| && IsFirst(h.cs[k].addr)
      ensures Backed(live - {i}, h.cs[k].addr, 0)
    {
      assert Backed(live, h.cs[k].addr, 0);
    }
    forall k | 0 <= k < |h.big|
      ensures Backed(live - {i}, h.big[k].ptr, h.big[k].order)
    {
      assert Backed(live, h.big[k].ptr, h.big[k].order);
    }
  }

  lemma OthersKeep(z: Zone, s: System, op: Op)
    requires SysOk(z, s.h, s.pmm) && Allowed(z, s, op) && (op.OtherAlloc? || op.OtherFree?)
    ensures var s' := Apply(z, s, op); SysOk(z, s'.h, s'.pmm) && s'.h == s.h
  {
    hide Inv, PhantomMatches, HeapOk, UsedHeads, Alloc, BuddyModel.FreePages, Holdings, Foreign, PmmFree;
    var live := LivePages(z, s.pmm);
    if op.OtherAlloc? {
      AllocKeeps(z, s.pmm, op.order);
      HoldingsGrow(live, s.h, Alloc(z, s.pmm, op.order).index, op.order);
    } else {
      PmmFreeIs(z, s.pmm, op.i);
      ForeignStays(live, s.h, op.i);
    }
  }

  lemma ApplyKeeps(z: Zone, s: System, op: Op)
    requires SysOk(z, s.h, s.pmm) && Allowed(z, s, op)
    ensures var s' := Apply(z, s, op);
      SysOk(z, s'.h, s'.pmm) && s'.h.cs != [] && s.h.cs != [] && s'.h.cs[0].addr == s.h.cs[0].addr
  {
    hide SysOk, Kmalloc, Kfree, Carves, Alloc, LivePtr, Foreign, PmmFree;
    SizesKnown(z, s.h, s.pmm);
    match op
    case Malloc(size) => KmallocOk(z, s.h, s.pmm, size);
    case Free(p) => KfreeOk(z, s.h, s.pmm, p);
    case _ => OthersKeep(z, s, op);
  }

  /** Every run keeps heap and page allocator well formed. */
  lemma {:induction false} RunKeeps(z: Zone, s: System, ops: seq<Op>, s': System)
    requires SysOk(z, s.h, s.pmm) && RunsTo(z, s, ops, s')
    ensures SysOk(z, s'.h, s'.pmm) && s'.h.cs != [] && s.h.cs != [] && s'.h.cs[0].addr == s.h.cs[0].addr
    decreases ops
  {
    hide SysOk, Allowed, Apply;
    SizesKnown(z, s.h, s.pmm);
    if ops != [] {
      ApplyKeeps(z, s, ops[0]);
      RunKeeps(z, Apply(z, s, ops[0]), ops[1..], s');
    }
  }

  /** Over every run of kmalloc and kfree, the byte counters and the page count move
      together: their sum changes by 4096 times the change of used_pages_count. */
  lemma {:induction false} BytesFollowPages(z: Zone, s: System, ops: seq<Op>, s': System)
    requires SysOk(z, s.h, s.pmm) && RunsTo(z, s, ops, s')
    requires forall i :: 0 <= i < |ops| ==> ops[i].Malloc? || ops[i].Free?
    ensures Bytes(s'.h) - Bytes(s.h) == PAGE * (s'.pmm.usedCount - s.pmm.usedCount)
    decreases ops
  {
    hide SysOk, Kmalloc, Kfree, Bytes, LivePtr;
    if ops != [] {
      var s1 := Apply(z, s, ops[0]);
      match ops[0] {
        case Malloc(size) =>
          if Kmalloc(z, s.h, s.pmm, size).Ptr? { KmallocBalances(z, s.h, s.pmm, size); }
        case Free(p) => KfreeOk(z, s.h, s.pmm, p);
      }
      ApplyKeeps(z, s, ops[0]);
      BytesFollowPages(z, s1, ops[1..], s');
    }
  }

  /** From boot, where the heap holds the one page in use beyond those others hold:
      used, free and meta bytes are 4096 times the pages in use less the others'. */
  lemma BytesArePages(z: Zone, pmm: Buddy, ops: seq<Op>, s': System)
    requires Inv(z, pmm) && !PhantomMatches(z) && Alloc(z, pmm, 0).Got?
    requires RunsTo(z, System(BootHeap(Addr(Alloc(z, pmm, 0).index)), Alloc(z, pmm, 0).state), ops, s')
    requires forall i :: 0 <= i < |ops| ==> ops[i].Malloc? || ops[i].Free?
    ensures Bytes(s'.h) == PAGE * (s'.pmm.usedCount - pmm.usedCount)
  {
    hide Inv, PhantomMatches, Alloc, RunsTo, SysOk;
    BootSystem(z, pmm);
    AllocCount(z, pmm, 0);
    var Got(pmm1, i) := Alloc(z, pmm, 0);
    BytesFollowPages(z, System(BootHeap(Addr(i)), pmm1), ops, s');
    BootHeapBytes(Addr(i));
  }

  lemma BootHeapBytes(p: nat)
    ensures Bytes(BootHeap(p)) == PAGE
  {
  }

  lemma BootSystem(z: Zone, pmm: Buddy)
    requires Inv(z, pmm) && !PhantomMatches(z) && Alloc(z, pmm, 0).Got?
    ensures var Got(pmm', i) := Alloc(z, pmm, 0);
      SysOk(z, BootHeap(Addr(i)), pmm') && NothingLive(BootHeap(Addr(i)))
  {
    hide Inv, PhantomMatches, HeapOk, Alloc, BuddyModel.FreePages, UsedHeads, NothingLive, BootHeap;
    var Got(pmm', i) := Alloc(z, pmm, 0);
    AllocKeeps(z, pmm, 0);
    BootHeapOk(Addr(i)) by { AddrIndex(i); }
    BootHoldings(LivePages(z, pmm'), i);
  }

  lemma BootHoldings(live: map<nat, nat>, i: nat)
    requires i in live && live[i] == 0
    ensures Holdings(live, BootHeap(Addr(i)))
  {
    AddrIndex(i);
    var cs := BootHeap(Addr(i)).cs;
    assert cs == FreshPage(Addr(i));
  }

  lemma FreshChunksOk(p: nat)
    requires p % PAGE == 0
    ensures ChunksOk(FreshPage(p)) && NoEmptyPage(FreshPage(p))
  {
    FreshLinks(p);
    var f := FreshPage(p);
    forall i | 0 <= i < |f| - 1
      ensures Link(f[i], f[i + 1])
    {
      assert i == 0 || i == 1;
    }
  }

  lemma BootHeapOk(p: nat)
    requires p % PAGE == 0
    ensures HeapOk(BootHeap(p)) && NothingLive(BootHeap(p)) && BootHeap(p).cs == FreshPage(p)
  {
    hide Linked, Distinct, Bucket, Total, Cells, NoEmptyPage, ChunksOk;
    var h := BootHeap(p);
    assert h.cs == FreshPage(p);
    FreshChunksOk(p);
    FreshSums(p);
    WholeBucket();
    var none: set<(nat, int)> := {};
    assert BucketsOk(none, EmptyHeap().buckets);
    PushOk(none, EmptyHeap().buckets, p + SENTINEL, WHOLE);
    assert Cells(h.cs, false) == none + {(p + SENTINEL, WHOLE as int)};
  }

  /** After any run of heap calls, mixed with other use of the page allocator, in
      which everything allocated from the heap is freed in any order, the heap is
      exactly what it was at boot. */
  lemma HeapComesHome(z: Zone, pmm: Buddy, ops: seq<Op>, s': System)
    requires Inv(z, pmm) && !PhantomMatches(z) && Alloc(z, pmm, 0).Got?
    requires RunsTo(z, System(BootHeap(Addr(Alloc(z, pmm, 0).index)), Alloc(z, pmm, 0).state), ops, s')
    requires NothingLive(s'.h)
    ensures s'.h == BootHeap(Addr(Alloc(z, pmm, 0).index))
  {
    hide Alloc, RunsTo, Inv, PhantomMatches, Holdings, NothingLive;
    var h0 := BootHeap(Addr(Alloc(z, pmm, 0).index));
    BootSystem(z, pmm);
    RunKeeps(z, System(h0, Alloc(z, pmm, 0).state), ops, s');
    NothingLiveIsBoot(s'.h);
  }
}
