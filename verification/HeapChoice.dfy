/** Which chunk kmalloc takes and what it cuts off, told by chunk sizes alone. */
module HeapChoice {
  import opened Bits
  import opened BuddyModel
  import opened BuddySteps
  import BuddyCalls
  import opened HeapModel
  import opened HeapLists
  import opened HeapAlloc
  import opened HeapSystem

  /** Size class c: from 8 * 2^c up to, not including, 16 * 2^c bytes. */
  ghost predicate InClass(n: int, c: nat) { 8 * Pow2(c) <= n < 16 * Pow2(c) }

  lemma Pow2By(c: nat)
    ensures Pow2(c + 3) == 8 * Pow2(c) && Pow2(c + 4) == 16 * Pow2(c)
  {
    assert Pow2(c + 1) == 2 * Pow2(c) && Pow2(c + 2) == 4 * Pow2(c);
    assert Pow2(c + 3) == 8 * Pow2(c);
  }

  /** The bucket of a chunk is its size class. */
  lemma BucketIsClass(n: int, c: nat)
    requires n >= 1
    ensures Bucket(n) == c <==> InClass(n, c)
  {
    hide Pow2, Log2;
    Pow2By(c);
    Log2Below(n, c + 3);
    Log2Below(n, c + 4);
  }

  /** kmalloc looks from the least class in which every chunk is large enough. */
  lemma OrderIsClass(m: nat, c: nat)
    requires m >= 2
    ensures AllocOrder(m) <= c <==> m <= 8 * Pow2(c)
  {
    hide Pow2, Log2;
    Pow2By(c);
    Log2Below(m - 1, c + 3);
  }

  /** A free chunk of a class whose chunks all hold m bytes. */
  ghost predicate Serves(h: Heap, a: nat, n: int, c: nat, m: nat) {
    (a, n) in Cells(h.cs, false) && InClass(n, c) && m <= 8 * Pow2(c)
  }

  /** The chunk at a is the first of its bucket, and no free chunk that surely holds m
      bytes is of a smaller class. */
  ghost predicate Chosen(h: Heap, a: nat, n: int, c: nat, m: nat) {
    && Serves(h, a, n, c, m) && c < |h.buckets| && h.buckets[c] != [] && h.buckets[c][0] == a
    && forall b: nat, k: int, d: nat :: Serves(h, b, k, d, m) ==> c <= d
  }

  /** The bytes that stay with the request, and those that become a free chunk behind
      it: anything from 20 bytes up is cut off, 12 of them for its header. */
  function Kept(n: int, m: nat): int { if n - m >= 20 then m else n }

  ghost function CutOff(a: nat, n: int, m: nat): set<(nat, int)> {
    if n - m >= 20 then {(a + m + 12, n - m - 12)} else {}
  }

  /** What is left of bucket b: its chunks but the one taken, behind what was cut off. */
  ghost predicate BucketLeft(h: Heap, h': Heap, a: nat, n: int, c: nat, m: nat, b: nat)
    requires b < |h.buckets| && b < |h'.buckets| && (b == c ==> h.buckets[b] != [])
  {
    h'.buckets[b] == (if n - m >= 20 && InClass(n - m - 12, b) then [a + m + 12] else [])
                     + (if b == c then h.buckets[b][1..] else h.buckets[b])
  }

  /** h' is h with the free chunk (a, n) of class c used for m bytes. */
  ghost predicate Used(h: Heap, h': Heap, a: nat, n: int, c: nat, m: nat) {
    && Cells(h'.cs, true) == Cells(h.cs, true) + {(a, Kept(n, m))}
    && Cells(h'.cs, false) == Cells(h.cs, false) - {(a, n)} + CutOff(a, n, m)
    && h'.memUsed == h.memUsed + Kept(n, m) && h'.big == h.big
    && c < 9 && |h.buckets| == |h'.buckets| == 9 && h.buckets[c] != []
    && forall b :: 0 <= b < 9 ==> BucketLeft(h, h', a, n, c, m, b)
  }

  // ------------------------------------------------------------- the choice

  lemma NoneIn(s: set<(nat, int)>, a: nat, n: int)
    requires NoneAt(s, a)
    ensures s + {(a, n)} - {(a, n)} == s
  {
  }

  lemma TakeCells(h: Heap, j: nat, m: nat, i: nat)
    requires j < |h.buckets| && h.buckets[j] != []
    requires Carvable(h.cs, i, m) && h.cs[i].addr == h.buckets[j][0]
    requires Take(h, j, m).cs == Carved(h.cs, i, m)
    ensures var a, n, h' := h.cs[i].addr, Size(h.cs, i), Take(h, j, m);
      && (a, n) in Cells(h.cs, false)
      && Cells(h'.cs, true) == Cells(h.cs, true) + {(a, Kept(n, m))}
      && Cells(h'.cs, false) == Cells(h.cs, false) - {(a, n)} + CutOff(a, n, m)
  {
    hide Cells, Outside, Linked, Distinct, NoEmptyBut, NoneAt, Carved, Take;
    CarveCells(h.cs, i, m);
    NoneIn(Outside(h.cs, false, i, i + 1), h.cs[i].addr, Size(h.cs, i));
  }

  lemma TakeBuckets(h: Heap, j: nat, m: nat, i: nat, b: nat)
    requires j < |h.buckets| == 9 && h.buckets[j] != [] && b < 9
    requires Carvable(h.cs, i, m) && h.cs[i].addr == h.buckets[j][0]
    ensures |Take(h, j, m).buckets| == 9
    ensures BucketLeft(h, Take(h, j, m), h.cs[i].addr, Size(h.cs, i), j, m, b)
  {
    hide Linked, Distinct, NoEmptyBut, Bucket, InClass;
    IndexOfIs(h.cs, i);
    var n := Size(h.cs, i);
    if n - m >= 20 {
      BucketIsClass(n - m - 12, b);
    }
  }

  lemma TakeUses(h: Heap, j: nat, m: nat, i: nat)
    requires j < |h.buckets| == 9 && h.buckets[j] != []
    requires Carvable(h.cs, i, m) && h.cs[i].addr == h.buckets[j][0]
    requires i + 1 < |h.cs| && Take(h, j, m).cs == Carved(h.cs, i, m) && Take(h, j, m).big == h.big
    ensures Used(h, Take(h, j, m), h.cs[i].addr, Size(h.cs, i), j, m)
  {
    hide Cells, Carvable, Carved, Take, BucketLeft;
    TakeCells(h, j, m, i);
    TakeCharges(h, j, m, i);
    var h' := Take(h, j, m);
    forall b | 0 <= b < 9
      ensures |h'.buckets| == 9 && BucketLeft(h, h', h.cs[i].addr, Size(h.cs, i), j, m, b)
    {
      TakeBuckets(h, j, m, i, b);
    }
    assert |h'.buckets| == 9 by { TakeBuckets(h, j, m, i, 0); }
  }

  /** A chunk that serves is in a bucket that kmalloc looks at. */
  lemma ServingListed(h: Heap, a: nat, n: int, c: nat, m: nat)
    requires HeapBase(h) && Serves(h, a, n, c, m) && m >= 2
    ensures AllocOrder(m) <= c < 9 && h.buckets[c] != []
  {
    hide Linked, Distinct, CountersOk, Bucket, InClass, Pow2;
    var i :| 0 <= i < |h.cs| - 1 && !h.cs[i].used && h.cs[i].addr == a && Gap(h.cs[i], h.cs[i + 1]) == n;
    FreeIsMid(h.cs, i);
    BucketIsClass(n, c);
    BucketRange(n);
    OrderIsClass(m, c);
    assert Belongs(Cells(h.cs, false), a, c);
    assert a in h.buckets[c];
  }

  lemma FirstChosen(h: Heap, j: nat, m: nat, i: nat)
    requires HeapBase(h) && m >= MIN_SIZE && j < 9 && AllocOrder(m) <= j && h.buckets[j] != []
    requires forall b :: 0 <= b < j && AllocOrder(m) <= b ==> h.buckets[b] == []
    requires 0 < i < |h.cs| - 1 && h.cs[i] == Chunk(h.buckets[j][0], false) && Bucket(Size(h.cs, i)) == j
    ensures Chosen(h, h.cs[i].addr, Size(h.cs, i), j, m)
  {
    hide HeapBase, Serves, AllocOrder;
    var a, n := h.cs[i].addr, Size(h.cs, i);
    assert Serves(h, a, n, j, m) && |h.buckets| == 9 by { HeadServes(h, j, m, i); }
    forall b: nat, k: int, d: nat | Serves(h, b, k, d, m)
      ensures j <= d
    {
      ServingListed(h, b, k, d, m);
    }
  }

  lemma HeadServes(h: Heap, j: nat, m: nat, i: nat)
    requires HeapBase(h) && m >= MIN_SIZE && AllocOrder(m) <= j
    requires 0 < i < |h.cs| - 1 && !h.cs[i].used && Bucket(Size(h.cs, i)) == j
    ensures Serves(h, h.cs[i].addr, Size(h.cs, i), j, m) && |h.buckets| == 9
  {
    hide Linked, Distinct, CountersOk, Bucket, InClass, Pow2;
    FreeIsMid(h.cs, i);
    BucketIsClass(Size(h.cs, i), j);
    OrderIsClass(m, j);
  }

  lemma NineBuckets(h: Heap)
    requires HeapBase(h)
    ensures |h.buckets| == 9
  {
  }

  /** Serving m bytes from the first bucket that can. */
  lemma TakeChooses(h: Heap, j: nat, m: nat) returns (a: nat, n: int)
    requires HeapBase(h) && j < 9 && h.buckets[j] != [] && NoEmptyBut(h.cs, IndexOf(h.cs, h.buckets[j][0]))
    requires m % 4 == 0 && m >= MIN_SIZE && AllocOrder(m) <= j
    requires forall b :: 0 <= b < j && AllocOrder(m) <= b ==> h.buckets[b] == []
    ensures Chosen(h, a, n, j, m) && Used(h, Take(h, j, m), a, n, j, m) && a == h.buckets[j][0]
  {
    hide NoEmptyPage, NoEmptyBut, BucketsOk, Cells, CountersOk, Linked, Distinct, Used, Chosen, Take, Carved;
    NineBuckets(h);
    var i0 := HeadCell(h, j);
    var i := TakeOk(h, j, m);
    IndexOfIs(h.cs, i);
    TakeUses(h, j, m, i);
    FirstChosen(h, j, m, i);
    a, n := h.cs[i].addr, Size(h.cs, i);
  }

  // ---------------------------------------------------------------- kmalloc

  /** Some free chunk is chosen for m bytes, used for them, and p is its payload. */
  ghost predicate TakesChosen(h: Heap, h': Heap, p: nat, m: nat) {
    exists a: nat, n: int, c: nat :: Chosen(h, a, n, c, m) && Used(h, h', a, n, c, m) && p == a + 12
  }

  ghost predicate NoneServes(h: Heap, m: nat) {
    forall a: nat, n: int, c: nat :: !Serves(h, a, n, c, m)
  }

  /** h1 is h with a new page at p, all but its sentinels and one header free. */
  ghost predicate NewPage(h: Heap, h1: Heap, p: nat) {
    && Cells(h1.cs, true) == Cells(h.cs, true) && Cells(h1.cs, false) == Cells(h.cs, false) + {(p + 20, 4044)}
    && h1.memUsed == h.memUsed && h1.big == h.big
    && |h.buckets| == 9 && h1.buckets == h.buckets[8 := [p + 20] + h.buckets[8]]
  }

  /** A small request, rounded up to m bytes: from the chunk chosen, without touching
      the page allocator; from a new page only if no chunk is sure to hold it. */
  ghost predicate SmallRequest(z: Zone, h: Heap, pmm: Buddy, m: nat, r: Outcome) {
    if !NoneServes(h, m) then r.Ptr? && r.pmm == pmm && TakesChosen(h, r.h, r.p, m)
    else
      match Alloc(z, pmm, 0)
      case Panic => r.OutOfPages?
      case Got(pmm', i) =>
        var page := 0xC000_0000 + 4096 * i;
        && r.Ptr? && r.pmm == pmm' && r.p == page + 32
        && exists h1: Heap :: NewPage(h, h1, page) && TakesChosen(h1, r.h, r.p, m)
  }

  lemma NoneBelow(h: Heap, j: nat, m: nat)
    requires HeapBase(h) && m >= 2 && j >= 9
    requires forall b :: 0 <= b < j && AllocOrder(m) <= b && b < |h.buckets| ==> h.buckets[b] == []
    ensures NoneServes(h, m)
  {
    hide HeapBase, Serves, AllocOrder;
    NineBuckets(h);
    forall a: nat, n: int, c: nat | Serves(h, a, n, c, m)
      ensures false
    {
      ServingListed(h, a, n, c, m);
    }
  }

  lemma SmallPath(z: Zone, h: Heap, pmm: Buddy, size: nat, m: nat)
    requires 0 < size <= 2048 && Rounded(size, m)
    ensures m >= MIN_SIZE && 0 <= AllocOrder(m) < NUM_SIZES
    ensures Kmalloc(z, h, pmm, size) == AllocSmall(z, h, pmm, m, AllocOrder(m))
  {
    hide AllocSmall, AllocBig, Log2, Pow2;
    var n := if size < MIN_SIZE then MIN_SIZE else size;
    RoundUp(n);
    assert AlignUp4(n) == m;
  }

  lemma ServeChooses(z: Zone, h: Heap, pmm: Buddy, j: nat, m: nat) returns (a: nat, n: int)
    requires SysOk(z, h, pmm) && j < |h.buckets| && h.buckets[j] != []
    requires m % 4 == 0 && m >= MIN_SIZE && AllocOrder(m) <= j
    requires forall b :: 0 <= b < j && AllocOrder(m) <= b ==> h.buckets[b] == []
    ensures Chosen(h, a, n, j, m) && Used(h, Take(h, j, m), a, n, j, m) && a == h.buckets[j][0]
  {
    hide Inv, Holdings, UsedHeads, HeapBase, NoEmptyPage, Chosen, Used, Take, AllocOrder, NoEmptyBut;
    NineBuckets(h);
    EmptyBut(h.cs, IndexOf(h.cs, h.buckets[j][0]));
    a, n := TakeChooses(h, j, m);
  }

  lemma GrowsChosen(z: Zone, h: Heap, pmm: Buddy, m: nat)
    requires SysOk(z, h, pmm) && Alloc(z, pmm, 0).Got?
    requires m % 4 == 0 && m >= MIN_SIZE && 0 <= AllocOrder(m) < NUM_SIZES
    requires forall b :: AllocOrder(m) <= b < NUM_SIZES && b < |h.buckets| ==> h.buckets[b] == []
    ensures var p := Addr(Alloc(z, pmm, 0).index);
      var h1 := AddPage(h, p);
      && |h1.buckets| == 9 && h1.buckets[8] == [p + 20] && FirstBucket(h1.buckets, AllocOrder(m)) == 8
      && NewPage(h, h1, p) && TakesChosen(h1, Take(h1, 8, m), p + 32, m)
  {
    hide Inv, BuddyModel.FreePages, UsedHeads, Alloc, NoEmptyPage, NoEmptyBut, Cells, CountersOk, Linked, Distinct,
         Holdings, Belongs, Take, Used, Chosen, FirstBucket, AllocOrder;
    var i := Alloc(z, pmm, 0).index;
    var p, live := Addr(i), LivePages(z, pmm);
    BuddyCalls.AllocKeeps(z, pmm, 0);
    AddrIndex(i);
    FreshIndex(live, h, i);
    AddPageOk(h, p);
    FreshBucket(h, p, AllocOrder(m));
    FreshAt(h, p);
    AddPageSums(h.cs, p);
    var h1 := AddPage(h, p);
    FirstBucketFacts(h1.buckets, AllocOrder(m));
    var a, n := TakeChooses(h1, 8, m);
  }

  /** kmalloc of 1 to 2048 bytes, in every state of heap and page allocator. */
  lemma KmallocChoice(z: Zone, h: Heap, pmm: Buddy, size: nat, m: nat)
    requires SysOk(z, h, pmm) && 0 < size <= 2048 && Rounded(size, m)
    ensures SmallRequest(z, h, pmm, m, Kmalloc(z, h, pmm, size))
  {
    hide SysOk, Alloc, Take, AddPage, Used, Chosen, NewPage, AllocOrder, FirstBucket, Serves;
    SmallPath(z, h, pmm, size, m);
    SizesKnown(z, h, pmm);
    var order := AllocOrder(m);
    var j := FirstBucket(h.buckets, order);
    FirstBucketFacts(h.buckets, order);
    if j < |h.buckets| {
      var a, n := ServeChooses(z, h, pmm, j, m);
      assert Serves(h, a, n, j, m) by { ChosenServes(h, a, n, j, m); }
    } else {
      NoneBelow(h, j, m) by { SysBase(z, h, pmm); }
      if Alloc(z, pmm, 0).Got? {
        GrowsChosen(z, h, pmm, m);
      }
    }
  }

  lemma ChosenServes(h: Heap, a: nat, n: int, c: nat, m: nat)
    requires Chosen(h, a, n, c, m)
    ensures Serves(h, a, n, c, m)
  {
  }

  lemma SysBase(z: Zone, h: Heap, pmm: Buddy)
    requires SysOk(z, h, pmm)
    ensures HeapBase(h)
  {
  }
}
