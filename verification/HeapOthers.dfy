/** What kmalloc and kfree leave alone: pages of the allocator that others hold, and
    live pointers other than the one at hand. */
module HeapOthers {
  import opened Bits
  import opened BuddyModel
  import opened BuddySteps
  import opened BuddyCalls
  import opened HeapModel
  import opened HeapLists
  import opened HeapAlloc
  import opened HeapFree
  import opened HeapSystem
  import opened HeapRuns

  /** The live pages in others belong to somebody else than the heap. */
  ghost predicate Spared(live: map<nat, nat>, h: Heap, others: set<nat>) {
    others <= live.Keys && Holdings(live - others, h)
  }

  lemma SparedForeign(live: map<nat, nat>, h: Heap, others: set<nat>, i: nat)
    requires Spared(live, h, others) && i in others
    ensures i in live && Foreign(h, i)
  {
    forall k | 0 <= k < |h.cs| && IsFirst(h.cs[k].addr) ensures PageIndex(h.cs[k].addr) != i {
      assert Backed(live - others, h.cs[k].addr, 0);
    }
    forall k | 0 <= k < |h.big| ensures PageIndex(h.big[k].ptr) != i {
      assert Backed(live - others, h.big[k].ptr, h.big[k].order);
    }
  }

  lemma AddOutside(live: map<nat, nat>, others: set<nat>, i: nat, v: nat)
    requires i !in others
    ensures live[i := v] - others == (live - others)[i := v]
  {
  }

  lemma DropOutside(live: map<nat, nat>, others: set<nat>, i: nat)
    ensures (live - {i}) - others == (live - others) - {i}
  {
  }

  // ------------------------------------------------------------------- kmalloc

  lemma ServeSpares(z: Zone, h: Heap, pmm: Buddy, j: nat, m: nat, others: set<nat>)
    requires SysOk(z, h, pmm) && j < NUM_SIZES && j < |h.buckets| && h.buckets[j] != []
    requires m % 4 == 0 && m >= MIN_SIZE && AllocOrder(m) <= j && Spared(LivePages(z, pmm), h, others)
    ensures Spared(LivePages(z, pmm), Take(h, j, m), others)
  {
    EmptyBut(h.cs, IndexOf(h.cs, h.buckets[j][0]));
    hide Inv, PhantomMatches, NoEmptyPage, NoEmptyBut, BucketsOk, Cells, CountersOk, Linked, Distinct, Carves,
         UsedHeads;
    hide Holdings;
    var i := TakeOk(h, j, m);
    CarveHoldings(LivePages(z, pmm) - others, h, Take(h, j, m), i, m);
  }

  lemma GrowSpares(z: Zone, h: Heap, pmm: Buddy, order: nat, m: nat, others: set<nat>)
    requires SysOk(z, h, pmm) && order < NUM_SIZES && Alloc(z, pmm, 0).Got?
    requires m % 4 == 0 && m >= MIN_SIZE && AllocOrder(m) == order && Spared(LivePages(z, pmm), h, others)
    requires forall b :: order <= b < NUM_SIZES && b < |h.buckets| ==> h.buckets[b] == []
    ensures var Got(pmm', i) := Alloc(z, pmm, 0);
      var h1 := AddPage(h, Addr(i));
      var j := FirstBucket(h1.buckets, order);
      && j < |h1.buckets| && h1.buckets[j] != []
      && LivePages(z, pmm') == LivePages(z, pmm)[i := 0] && i !in LivePages(z, pmm)
      && Spared(LivePages(z, pmm'), Take(h1, j, m), others)
  {
    hide Inv, PhantomMatches, NoEmptyPage, NoEmptyBut, Cells, CountersOk, Linked, Distinct, UsedHeads, Alloc,
         BuddyModel.FreePages, Belongs, Take, Holdings, Carvable;
    var Got(pmm', i) := Alloc(z, pmm, 0);
    var p, live := Addr(i), LivePages(z, pmm);
    AllocKeeps(z, pmm, 0);
    AddrIndex(i);
    FreshIndex(live, h, i);
    AddPageOk(h, p);
    var h1 := AddPage(h, p);
    FreshBucket(h, p, order);
    AddOutside(live, others, i, 0);
    GrowHoldings(live - others, h, i);
    FreshAt(h, p);
    var c := TakeOk(h1, NUM_SIZES - 1, m);
    CarveHoldings(LivePages(z, pmm') - others, h1, Take(h1, NUM_SIZES - 1, m), c, m);
  }

  lemma BigSpares(z: Zone, h: Heap, pmm: Buddy, n: nat, others: set<nat>)
    requires SysOk(z, h, pmm) && PAGE <= n && Spared(LivePages(z, pmm), h, others)
    ensures match AllocBig(z, h, pmm, n)
      case Ptr(h', pmm', p) => Spared(LivePages(z, pmm'), h', others) && Grown(LivePages(z, pmm), LivePages(z, pmm'))
      case _ => true
  {
    hide Inv, PhantomMatches, NoEmptyPage, Cells, UsedHeads, Alloc, BuddyModel.FreePages, BucketsOk, Holdings, Total,
         Linked, Distinct;
    PageOrderFits(n);
    var k, live := PageOrder(n), LivePages(z, pmm);
    if Alloc(z, pmm, k).Got? {
      AllocKeeps(z, pmm, k);
      var i := Alloc(z, pmm, k).index;
      AddOutside(live, others, i, k);
      BigHoldings(live - others, h, i, k);
      SameHoldings(live[i := k] - others, h.(big := [Big(Addr(i), k)] + h.big), AllocBig(z, h, pmm, n).h);
    }
  }

  /** Holdings are about chunks and page-sized blocks only. */
  lemma SameHoldings(live: map<nat, nat>, h: Heap, h': Heap)
    requires Holdings(live, h) && h'.cs == h.cs && h'.big == h.big
    ensures Holdings(live, h')
  {
  }

  /** Pages stay live, with their orders. */
  ghost predicate Grown(live: map<nat, nat>, live': map<nat, nat>) {
    forall i :: i in live ==> i in live' && live'[i] == live[i]
  }

  /** kmalloc takes no page that others hold, and all they hold stays live. */
  lemma KmallocSpares(z: Zone, h: Heap, pmm: Buddy, size: nat, others: set<nat>)
    requires SysOk(z, h, pmm) && Spared(LivePages(z, pmm), h, others) && Kmalloc(z, h, pmm, size).Ptr?
    ensures var r := Kmalloc(z, h, pmm, size);
      Spared(LivePages(z, r.pmm), r.h, others) && Grown(LivePages(z, pmm), LivePages(z, r.pmm))
  {
    hide SysOk, Spared, Take, AddPage, FirstBucket, Alloc, AllocBig, Log2, UsedHeads;
    SizesKnown(z, h, pmm);
    var n := if size < MIN_SIZE then MIN_SIZE else size;
    if n >= PAGE {
      BigSpares(z, h, pmm, n, others);
    } else {
      RoundUp(n);
      var m := AlignUp4(n);
      var order := AllocOrder(m);
      FirstBucketFacts(h.buckets, order);
      var j := FirstBucket(h.buckets, order);
      if j < |h.buckets| && h.buckets[j] != [] {
        ServeSpares(z, h, pmm, j, m, others);
      } else {
        GrowSpares(z, h, pmm, order, m, others);
      }
    }
  }

  // --------------------------------------------------------------------- kfree

  lemma FreeBigSpares(z: Zone, h: Heap, pmm: Buddy, p: nat, i: nat, others: set<nat>)
    requires SysOk(z, h, pmm) && i < |h.big| && h.big[i].ptr == p && Spared(LivePages(z, pmm), h, others)
    ensures var s' := FreeBig(z, h, pmm, p);
      Spared(LivePages(z, s'.pmm), s'.h, others) && KeptOf(LivePages(z, pmm), LivePages(z, s'.pmm), others)
  {
    hide Inv, PhantomMatches, NoEmptyPage, Cells, UsedHeads, BucketsOk, PagesBacked, BigApart, Total, Linked, Distinct,
         PmmFree;
    var live, q := LivePages(z, pmm), PageIndex(p);
    assert Backed(live - others, p, h.big[i].order);
    PmmFreeIs(z, pmm, q);
    BigPtrs(h, live, i);
    RemoveBigFacts(h.big, i);
    DropBigHoldings(live - others, h, i);
    DropOutside(live, others, q);
  }

  lemma BigPtrs(h: Heap, live: map<nat, nat>, i: nat)
    requires Holdings(live, h)
    ensures forall j, k :: 0 <= j < k < |h.big| ==> h.big[j].ptr != h.big[k].ptr
  {
  }

  /** Pages of others stay live, with their orders, and no page becomes live. */
  ghost predicate KeptOf(live: map<nat, nat>, live': map<nat, nat>, others: set<nat>) {
    && live'.Keys <= live.Keys
    && forall i :: i in others && i in live ==> i in live' && live'[i] == live[i]
  }

  lemma ReturnedSpares(z: Zone, h: Heap, pmm: Buddy, i: nat, others: set<nat>)
    requires SysOk(z, h, pmm) && Freeable(h.cs, i) && 0 < i < |h.cs| - 1 && Spared(LivePages(z, pmm), h, others)
    requires PageDone(h.cs, MergeLo(h.cs, i), MergeHi(h.cs, i))
    ensures var s' := FreeChunk(z, h, pmm, i);
      Spared(LivePages(z, s'.pmm), s'.h, others) && KeptOf(LivePages(z, pmm), LivePages(z, s'.pmm), others)
  {
    hide Inv, PhantomMatches, HeapOk, Freeable, PageDone, MergeLo, MergeHi, Replace, DropNeighbours, Holdings, PmmFree,
         UsedHeads, IsFirst, IsMid, IsLast, Cells;
    MergeFacts(h.cs, i);
    ReturnFacts(h.cs, i);
    var live, q := LivePages(z, pmm), PageIndex(h.cs[MergeLo(h.cs, i) - 1].addr);
    ReturnedHoldings(live - others, h, i, Returned(h.cs, i));
    PmmFreeIs(z, pmm, q);
    DropOutside(live, others, q);
    SameHoldings(live - others - {q}, h.(cs := Returned(h.cs, i)), FreeChunk(z, h, pmm, i).h);
  }

  lemma FreeChunkSpares(z: Zone, h: Heap, pmm: Buddy, i: nat, others: set<nat>)
    requires SysOk(z, h, pmm) && Freeable(h.cs, i) && 0 < i < |h.cs| - 1 && Spared(LivePages(z, pmm), h, others)
    ensures var s' := FreeChunk(z, h, pmm, i);
      Spared(LivePages(z, s'.pmm), s'.h, others) && KeptOf(LivePages(z, pmm), LivePages(z, s'.pmm), others)
  {
    hide Inv, PhantomMatches, HeapOk, Freeable, PageDone, MergeLo, MergeHi, Replace, Bucket, DropNeighbours, Holdings,
         PmmFree, UsedHeads, IsFirst, IsMid, IsLast, Cells;
    var live, s' := LivePages(z, pmm), FreeChunk(z, h, pmm, i);
    MergeFacts(h.cs, i);
    if PageDone(h.cs, MergeLo(h.cs, i), MergeHi(h.cs, i)) {
      ReturnedSpares(z, h, pmm, i, others);
    } else {
      MergedHoldings(live - others, h, i, Coalesced(h.cs, i));
      SameHoldings(live - others, h.(cs := Coalesced(h.cs, i)), s'.h);
    }
  }

  /** kfree gives back no page that others hold. */
  lemma KfreeSpares(z: Zone, h: Heap, pmm: Buddy, p: nat, others: set<nat>)
    requires SysOk(z, h, pmm) && LivePtr(h, p) && Spared(LivePages(z, pmm), h, others)
    ensures var s' := Kfree(z, h, pmm, p);
      Spared(LivePages(z, s'.pmm), s'.h, others) && KeptOf(LivePages(z, pmm), LivePages(z, s'.pmm), others)
  {
    hide SysOk, Cells, FreeBig, FreeChunk, Spared, KeptOf, UsedHeads;
    if Offset(p) == 0 {
      var i :| 0 <= i < |h.big| && h.big[i].ptr == p;
      FreeBigSpares(z, h, pmm, p, i, others);
    } else {
      SysChunks(z, h, pmm);
      var i := LiveChunk(h, p);
      FreeChunkSpares(z, h, pmm, i, others);
    }
  }

  // ------------------------------------------------------------ small pointers

  /** p is a live pointer to a chunk with room for k bytes. */
  ghost predicate LiveRoom(h: Heap, p: nat, k: nat) {
    Offset(p) != 0 && p >= HEADER && exists n: int :: n >= k && (HeaderOf(p), n) in Cells(h.cs, true)
  }

  lemma RoomIsLive(h: Heap, p: nat, k: nat)
    requires LiveRoom(h, p, k)
    ensures LivePtr(h, p)
  {
  }

  /** The pointer returned has the room asked for and is none of the live chunk
      pointers, and those stay live with theirs. */
  lemma KmallocPointers(z: Zone, h: Heap, pmm: Buddy, size: nat, p: nat, k: nat)
    requires SysOk(z, h, pmm) && Kmalloc(z, h, pmm, size).Ptr?
    ensures var r := Kmalloc(z, h, pmm, size);
      && (LiveRoom(h, p, k) ==> LiveRoom(r.h, p, k) && p != r.p)
      && (size < PAGE ==> LiveRoom(r.h, r.p, size))
  {
    hide SysOk, Kmalloc, Cells, NoneAt, Log2, PageOrder;
    KmallocOk(z, h, pmm, size);
    var r := Kmalloc(z, h, pmm, size);
    if size < PAGE {
      var n: int :| n >= size && Gains(h, r.h, HeaderOf(r.p), n);
      PayloadOffset(r.p);
      GainedCell(h, r.h, HeaderOf(r.p), n);
      if LiveRoom(h, p, k) {
        var c: int :| c >= k && (HeaderOf(p), c) in Cells(h.cs, true);
        NotThere(Cells(h.cs, true), HeaderOf(r.p), HeaderOf(p), c);
        assert (HeaderOf(p), c) in Cells(r.h.cs, true);
      }
    } else {
      assert Backed(LivePages(z, r.pmm), r.h.big[0].ptr, r.h.big[0].order) by { BigIsBacked(z, r.h, r.pmm); }
    }
  }

  lemma GainedCell(h: Heap, h': Heap, a: nat, n: int)
    requires Gains(h, h', a, n)
    ensures (a, n) in Cells(h'.cs, true)
  {
    hide Cells;
    assert (a, n) in {(a, n)};
  }

  lemma BigIsBacked(z: Zone, h: Heap, pmm: Buddy)
    requires SysOk(z, h, pmm) && h.big != []
    ensures Backed(LivePages(z, pmm), h.big[0].ptr, h.big[0].order)
  {
  }

  lemma PayloadOffset(p: nat)
    requires p >= HEADER && IsMid(HeaderOf(p))
    ensures Offset(p) != 0
  {
  }

  lemma NotThere(cells: set<(nat, int)>, a: nat, b: nat, k: int)
    requires NoneAt(cells, a) && (b, k) in cells
    ensures a != b
  {
  }

  /** Freeing one pointer leaves the other pointers to chunks live, with their room. */
  lemma KfreePointers(z: Zone, h: Heap, pmm: Buddy, q: nat, p: nat, k: nat)
    requires SysOk(z, h, pmm) && LivePtr(h, q) && LiveRoom(h, p, k) && p != q
    ensures LiveRoom(Kfree(z, h, pmm, q).h, p, k)
  {
    hide SysOk, Kfree, Cells, NoneAt;
    KfreeOk(z, h, pmm, q);
    var h' := Kfree(z, h, pmm, q).h;
    var c: int :| c >= k && (HeaderOf(p), c) in Cells(h.cs, true);
    if Offset(q) != 0 {
      var n :| Gains(h', h, HeaderOf(q), n);
      assert (HeaderOf(p), c) in Cells(h'.cs, true);
    }
  }
}
