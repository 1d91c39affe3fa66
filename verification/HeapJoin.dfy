/** What kfree does with a chunk, told by addresses and sizes: the stretch it joins,
    when its page goes back, and the order of the buckets. */
module HeapJoin {
  import opened NodeList
  import opened BuddyModel
  import opened BuddySteps
  import opened HeapModel
  import opened HeapLists
  import opened HeapFree
  import opened HeapSystem
  import opened HeapRuns
  import opened HeapChoice

  /** The addresses of q that are not in lo..hi, in the order of q. */
  function Beyond(q: seq<nat>, lo: nat, hi: nat): seq<nat> {
    if q == [] then [] else (if lo <= q[0] < hi then [] else [q[0]]) + Beyond(q[1..], lo, hi)
  }

  lemma {:induction false} BeyondAll(q: seq<nat>, lo: nat, hi: nat)
    requires forall x :: x in q ==> !(lo <= x < hi)
    ensures Beyond(q, lo, hi) == q
  {
    if q != [] {
      assert q[0] in q && q == [q[0]] + q[1..];
      assert forall x :: x in q[1..] ==> x in q;
      BeyondAll(q[1..], lo, hi);
    }
  }

  lemma {:induction false} BeyondWithout(q: seq<nat>, x: nat, lo: nat, hi: nat)
    requires lo <= x < hi
    ensures Beyond(Without(q, x), lo, hi) == Beyond(q, lo, hi)
  {
    if q != [] && q[0] != x {
      assert ([q[0]] + Without(q[1..], x))[1..] == Without(q[1..], x);
      BeyondWithout(q[1..], x, lo, hi);
    }
  }

  ghost function CellsBeyond(cells: set<(nat, int)>, lo: nat, hi: nat): set<(nat, int)> {
    set c | c in cells && !(lo <= c.0 < hi)
  }

  // ------------------------------------------------------------ the stretch

  /** The stretch of chunk i and its free neighbours: from Start to End. */
  function Start(cs: seq<Chunk>, i: nat): nat
    requires MergeLo(cs, i) < |cs|
  {
    cs[MergeLo(cs, i)].addr
  }

  function End(cs: seq<Chunk>, i: nat): nat
    requires MergeHi(cs, i) < |cs|
  {
    cs[MergeHi(cs, i)].addr
  }

  /** Each chunk of the stretch ends where the next one starts. */
  lemma StretchEnds(cs: seq<Chunk>, i: nat, t: nat)
    requires Freeable(cs, i) && MergeLo(cs, i) <= t < MergeHi(cs, i)
    ensures t + 1 < |cs| && EndOf(cs, t) == cs[t + 1].addr && cs[t].addr < cs[t + 1].addr
  {
    MergeFacts(cs, i);
    assert Link(cs[t], cs[t + 1]);
  }

  lemma ApartFrom(cs: seq<Chunk>, i: nat, t: nat, k: nat)
    requires Freeable(cs, i) && MergeLo(cs, i) <= t < MergeHi(cs, i) && k < |cs| && k != t
    ensures t + 1 < |cs| && (cs[k].addr < cs[t].addr || cs[t + 1].addr <= cs[k].addr)
  {
    hide Freeable, MergeLo, MergeHi;
    StretchEnds(cs, i, t);
    assert ChunksOk(cs) by { FreeableOk(cs, i); }
    ChunksApart(cs, t, k);
    ChunksApart(cs, k, t);
  }

  lemma FreeableOk(cs: seq<Chunk>, i: nat)
    requires Freeable(cs, i)
    ensures ChunksOk(cs)
  {
  }

  /** No other chunk starts inside the stretch. */
  lemma NotInside(cs: seq<Chunk>, i: nat, k: nat)
    requires Freeable(cs, i) && k < |cs| && !(MergeLo(cs, i) <= k < MergeHi(cs, i))
    ensures MergeLo(cs, i) < MergeHi(cs, i) < |cs|
    ensures !(Start(cs, i) <= cs[k].addr < End(cs, i))
  {
    MergeFacts(cs, i);
    hide Freeable;
    ApartFrom(cs, i, MergeLo(cs, i), k);
    ApartFrom(cs, i, i, k);
    ApartFrom(cs, i, MergeHi(cs, i) - 1, k);
  }

  lemma Inside(cs: seq<Chunk>, i: nat, k: nat)
    requires Freeable(cs, i) && MergeLo(cs, i) <= k < MergeHi(cs, i)
    ensures MergeHi(cs, i) < |cs| && Start(cs, i) <= cs[k].addr < End(cs, i)
  {
    MergeFacts(cs, i);
    hide Freeable;
    StretchEnds(cs, i, MergeLo(cs, i));
    StretchEnds(cs, i, i);
    StretchEnds(cs, i, MergeHi(cs, i) - 1);
  }

  lemma OutsideNotInside(cs: seq<Chunk>, i: nat, c: (nat, int))
    requires Freeable(cs, i) && MergeLo(cs, i) < MergeHi(cs, i) < |cs|
    requires c in Outside(cs, false, MergeLo(cs, i), MergeHi(cs, i))
    ensures !(Start(cs, i) <= c.0 < End(cs, i))
  {
    hide MergeLo, MergeHi, Freeable;
    var lo, hi := MergeLo(cs, i), MergeHi(cs, i);
    if c in Cells(cs[..lo + 1], false) {
      var k :| 0 <= k < lo && c.0 == cs[..lo + 1][k].addr;
      NotInside(cs, i, k);
    } else {
      var k :| 0 <= k < |cs[hi..]| - 1 && c.0 == cs[hi..][k].addr;
      NotInside(cs, i, hi + k);
    }
  }

  lemma NeighbourInside(cs: seq<Chunk>, i: nat, c: (nat, int))
    requires Freeable(cs, i) && c in PrevCell(cs, i) + NextCell(cs, i)
    ensures MergeHi(cs, i) < |cs| && Start(cs, i) <= c.0 < End(cs, i)
  {
    hide Freeable;
    if PrevFree(cs, i) { Inside(cs, i, i - 1); }
    if NextFree(cs, i) { Inside(cs, i, i + 1); }
  }

  lemma OutsideIsBeyond(cs: seq<Chunk>, i: nat)
    requires Freeable(cs, i)
    ensures MergeLo(cs, i) < MergeHi(cs, i) < |cs|
    ensures Outside(cs, false, MergeLo(cs, i), MergeHi(cs, i)) ==
            CellsBeyond(Cells(cs, false), Start(cs, i), End(cs, i))
  {
    hide Cells, Freeable, Outside, PrevCell, NextCell, MergeLo, MergeHi, Start, End;
    StretchCells(cs, i);
    var lo, hi := MergeLo(cs, i), MergeHi(cs, i);
    ReplaceCells(cs, false, lo, hi, [cs[lo]]);
    forall c | c in Outside(cs, false, lo, hi)
      ensures !(Start(cs, i) <= c.0 < End(cs, i))
    {
      OutsideNotInside(cs, i, c);
    }
    forall c | c in PrevCell(cs, i) + NextCell(cs, i)
      ensures Start(cs, i) <= c.0 < End(cs, i)
    {
      NeighbourInside(cs, i, c);
    }
  }

  // ------------------------------------------------------------ the buckets

  lemma DropBeyond(buckets: seq<seq<nat>>, b: int, x: nat, lo: nat, hi: nat, k: nat)
    requires lo <= x < hi && k < |buckets|
    ensures |DropFree(buckets, b, x)| == |buckets|
    ensures Beyond(DropFree(buckets, b, x)[k], lo, hi) == Beyond(buckets[k], lo, hi)
  {
    BeyondWithout(buckets[k], x, lo, hi);
  }

  lemma NeighboursBeyond(h: Heap, i: nat, b: nat)
    requires HeapBase(h) && Freeable(h.cs, i) && 0 < i < |h.cs| - 1 && b < 9
    ensures MergeHi(h.cs, i) < |h.cs| && |h.buckets| == |DropNeighbours(h, i)| == 9
    ensures DropNeighbours(h, i)[b] == Beyond(h.buckets[b], Start(h.cs, i), End(h.cs, i))
  {
    hide Linked, Distinct, CountersOk, Cells, Outside, Beyond, Bucket, DropFree;
    MergeFacts(h.cs, i);
    var cs, lo, hi := h.cs, Start(h.cs, i), End(h.cs, i);
    var b1 := if NextFree(cs, i) then DropFree(h.buckets, Bucket(Size(cs, i + 1)), cs[i + 1].addr) else h.buckets;
    if NextFree(cs, i) {
      Inside(cs, i, i + 1);
      DropBeyond(h.buckets, Bucket(Size(cs, i + 1)), cs[i + 1].addr, lo, hi, b);
    }
    if PrevFree(cs, i) {
      Inside(cs, i, i - 1);
      DropBeyond(b1, Bucket(Size(cs, i - 1)), cs[i - 1].addr, lo, hi, b);
    }
    DropNeighboursOk(h, i);
    OutsideIsBeyond(cs, i);
    NoneInside(Cells(cs, false), DropNeighbours(h, i), lo, hi, b);
    BeyondAll(DropNeighbours(h, i)[b], lo, hi);
  }

  lemma NoneInside(cells: set<(nat, int)>, buckets: seq<seq<nat>>, lo: nat, hi: nat, b: nat)
    requires BucketsOk(CellsBeyond(cells, lo, hi), buckets) && b < 9
    ensures forall x :: x in buckets[b] ==> !(lo <= x < hi)
  {
    forall x | x in buckets[b]
      ensures !(lo <= x < hi)
    {
      assert Belongs(CellsBeyond(cells, lo, hi), x, b);
    }
  }

  // ------------------------------------------------------------------ kfree

  /** Bucket b after the stretch of n bytes at a is free: first in its own bucket, the
      rest as before without what was joined. */
  ghost predicate BucketJoined(h: Heap, h': Heap, a: nat, n: int, kept: bool, b: nat) {
    && b < |h.buckets| && b < |h'.buckets| && 0 <= n
    && h'.buckets[b] == (if kept && InClass(n, b) then [a] else []) + Beyond(h.buckets[b], a, a + 12 + n)
  }

  /** Its chunk and the free ones next to it become one free chunk (a, n). If that is
      all of a page other than the first, the page goes back instead. */
  ghost predicate Joined(z: Zone, h: Heap, pmm: Buddy, s': System, a: nat, n: int) {
    && h.cs != [] && a >= 20 && n >= 0
    && var kept := n < 4044 || a - 20 == h.cs[0].addr;
       && s'.pmm == (if kept then pmm else PmmFree(z, pmm, PageIndex(a - 20)))
       && Cells(s'.h.cs, false) == CellsBeyond(Cells(h.cs, false), a, a + 12 + n) + (if kept then {(a, n)} else {})
       && forall b :: 0 <= b < 9 ==> BucketJoined(h, s'.h, a, n, kept, b)
  }

  lemma KeptExactly(cs: seq<Chunk>, i: nat)
    requires Freeable(cs, i)
    ensures 0 < i < |cs| - 1 && MergeLo(cs, i) < MergeHi(cs, i) < |cs| && Start(cs, i) >= 20
    ensures var n := Gap(cs[MergeLo(cs, i)], cs[MergeHi(cs, i)]);
      && 8 <= n <= 4044
      && (PageDone(cs, MergeLo(cs, i), MergeHi(cs, i)) <==> n == 4044 && Start(cs, i) - 20 != cs[0].addr)
      && (n == 4044 ==> cs[MergeLo(cs, i) - 1].addr == Start(cs, i) - 20)
  {
    hide Linked;
    MergeFacts(cs, i);
    MergedGap(cs, i);
    WholePage(cs, i);
    assert Link(cs[MergeLo(cs, i) - 1], cs[MergeLo(cs, i)]) by { LinkAt(cs, MergeLo(cs, i) - 1); }
  }

  lemma LinkAt(cs: seq<Chunk>, i: nat)
    requires Linked(cs) && i + 1 < |cs|
    ensures Link(cs[i], cs[i + 1])
  {
  }

  lemma FreeJoins(z: Zone, h: Heap, pmm: Buddy, i: nat)
    requires HeapOk(h) && Freeable(h.cs, i) && 0 < i < |h.cs| - 1
    ensures MergeLo(h.cs, i) < MergeHi(h.cs, i) < |h.cs|
    ensures var n := Gap(h.cs[MergeLo(h.cs, i)], h.cs[MergeHi(h.cs, i)]);
      Joined(z, h, pmm, FreeChunk(z, h, pmm, i), Start(h.cs, i), n)
  {
    hide ChunksOk, NoEmptyPage, BucketsOk, CountersOk, Cells, Outside, Beyond, CellsBeyond, Bucket, DropNeighbours,
         PmmFree, MergeLo, MergeHi, PageDone, InClass, Freeable, MergedBytes, MergedHeaders;
    KeptExactly(h.cs, i);
    OutsideIsBeyond(h.cs, i);
    MergedCells(h.cs, i);
    var s', a, n := FreeChunk(z, h, pmm, i), Start(h.cs, i), Gap(h.cs[MergeLo(h.cs, i)], h.cs[MergeHi(h.cs, i)]);
    var kept := n < 4044 || a - 20 == h.cs[0].addr;
    if !kept { ReturnedOutside(h.cs, i); }
    forall b | 0 <= b < 9
      ensures BucketJoined(h, s'.h, a, n, kept, b)
    {
      NeighboursBeyond(h, i, b);
      BucketIsClass(n, b);
    }
  }

  /** A chunk in use is the one at its address. */
  lemma UsedAt(cs: seq<Chunk>, i: nat, k: int)
    requires Freeable(cs, i) && 0 < i < |cs| - 1 && (cs[i].addr, k) in Cells(cs, true)
    ensures k == Size(cs, i)
  {
    hide Linked, IsMid;
    var j :| 0 <= j < |cs| - 1 && cs[j].addr == cs[i].addr && Gap(cs[j], cs[j + 1]) == k;
    assert j == i;
  }

  lemma PayloadInside(cs: seq<Chunk>, i: nat)
    requires Freeable(cs, i)
    ensures 0 < i < |cs| - 1 && MergeLo(cs, i) < MergeHi(cs, i) < |cs|
    ensures Start(cs, i) <= cs[i].addr && cs[i + 1].addr <= End(cs, i)
  {
    MergeFacts(cs, i);
    hide Freeable;
    StretchEnds(cs, i, MergeLo(cs, i));
    StretchEnds(cs, i, i);
    StretchEnds(cs, i, MergeHi(cs, i) - 1);
  }

  /** kfree of a pointer into the heap, in every state of heap and page allocator: the
      stretch that becomes free holds the chunk of k bytes freed. */
  lemma KfreeJoins(z: Zone, h: Heap, pmm: Buddy, p: nat, k: int) returns (a: nat, n: int)
    requires SysOk(z, h, pmm) && p >= 12 && Offset(p) != 0 && (HeaderOf(p), k) in Cells(h.cs, true)
    ensures Joined(z, h, pmm, Kfree(z, h, pmm, p), a, n)
    ensures a + 12 <= p && p + k <= a + 12 + n
  {
    hide Inv, Holdings, UsedHeads, Cells, Joined, FreeChunk, Start, End, MergeLo, MergeHi, HeapBase, NoEmptyPage,
         Freeable;
    SysChunks(z, h, pmm);
    var i := LiveChunk(h, p);
    UsedAt(h.cs, i, k);
    PayloadInside(h.cs, i);
    FreeJoins(z, h, pmm, i);
    a, n := Start(h.cs, i), Gap(h.cs[MergeLo(h.cs, i)], h.cs[MergeHi(h.cs, i)]);
    assert a + 12 + n == End(h.cs, i) by { StretchLength(h.cs, i); }
  }

  lemma StretchLength(cs: seq<Chunk>, i: nat)
    requires MergeLo(cs, i) < |cs| && MergeHi(cs, i) < |cs|
    ensures Start(cs, i) + 12 + Gap(cs[MergeLo(cs, i)], cs[MergeHi(cs, i)]) == End(cs, i)
  {
  }
}
