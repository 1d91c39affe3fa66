/** The heap as the kernel runs it: chunk headers linked in memory, buckets linked
    through free payloads, counters, and pages from the page allocator. */
module KernelHeap {
  import opened Bits
  import opened NodeList
  import opened BuddyModel
  import opened BuddySteps
  import opened BuddyCalls
  import BuddyAllocator
  import opened HeapModel
  import opened HeapLists
  import opened HeapAlloc
  import opened HeapFree
  import opened HeapSystem
  import opened HeapRuns

  /** The chunks of a list of addresses with the given use marks. */
  ghost predicate Marked(l: seq<nat>, used: map<nat, bool>) {
    forall i :: 0 <= i < |l| ==> l[i] in used
  }

  ghost function View(l: seq<nat>, used: map<nat, bool>): (cs: seq<Chunk>)
    requires Marked(l, used)
    ensures |cs| == |l|
  {
    seq(|l|, i requires 0 <= i < |l| => Chunk(l[i], used[l[i]]))
  }

  datatype Pointer = NullPointer | Panicked | At(p: nat)

  class ChunkHeap {
    /** all holds the one list of chunks; free holds the nine buckets. */
    const all: Pool
    const free: Pool
    const pmm: BuddyAllocator.Allocator
    var used: map<nat, bool>
    var last: int
    var memUsed: int
    var memFree: int
    var memMeta: int
    /** The live page-sized allocations. */
    ghost var big: seq<Big>

    ghost predicate Shape()
      reads this, all, free, pmm, pmm.pages, pmm.pool
    {
      && all != free && all != pmm.pool && free != pmm.pool
      && all.Valid() && |all.lists| == 1 && Marked(all.lists[0], used)
      && free.Valid() && |free.lists| == NUM_SIZES
      && last == LastOf(all.lists[0])
      && pmm.Shape()
    }

    ghost function State(): Heap
      requires Shape()
      reads this, all, free, pmm, pmm.pages, pmm.pool
    {
      Heap(View(all.lists[0], used), free.lists, memUsed, memFree, memMeta, big)
    }

    ghost predicate Valid()
      reads this, all, free, pmm, pmm.pages, pmm.pool
    {
      Shape() && SysOk(pmm.zone, State(), pmm.State())
    }

    /** The heap before its first page. */
    constructor (a: BuddyAllocator.Allocator)
      requires a.Shape()
      ensures pmm == a && Shape() && State() == EmptyHeap() && pmm.State() == old(a.State())
      ensures fresh(all) && fresh(free)
    {
      all := new Pool(1);
      free := new Pool(NUM_SIZES);
      pmm := a;
      used, last := map[], NULL;
      memUsed, memFree, memMeta, big := 0, 0, 0, [];
      new;
      assert free.lists == EmptyHeap().buckets;
    }

    /** get_chunk_size. */
    method ChunkSize(a: nat, ghost i: nat) returns (n: int)
      requires Shape() && i + 1 < |all.lists[0]| && all.lists[0][i] == a
      ensures n == Size(State().cs, i)
    {
      LinksAt(all.next, all.prev, all.heads, all.lists, 0, i);
      n := all.next[a] - a - HEADER;
    }

    /** create_chunk, once the page allocator has supplied the page at p. */
    method CreateChunk(p: nat)
      requires Shape() && Offset(p) == 0
      requires forall k :: 0 <= k < |all.lists[0]| ==> all.lists[0][k] / PAGE != p / PAGE
      requires forall b :: 0 <= b < NUM_SIZES ==> p + SENTINEL !in free.lists[b]
      modifies this, all, free
      ensures Shape() && State() == AddPage(old(State()), p) && pmm.State() == old(pmm.State())
    {
      hide BuddyAllocator.Allocator.State, BuddyAllocator.Allocator.Shape;
      hide Wf, Bucket;
      ghost var l := all.lists[0];
      var m, e := p + SENTINEL, p + PAGE - SENTINEL;
      FreshLinks(p);
      WholeBucket();
      all.AppendThree(0, last, p, m, e);
      used := used[p := true][m := false][e := true];
      memMeta := memMeta + SENTINEL + SENTINEL + HEADER;
      memFree := memFree + (e - m - HEADER);
      free.PushNode(NUM_SIZES - 1, m);
      last := e;
      assert View(all.lists[0], used) == View(l, old(used)) + FreshPage(p);
    }

    /** The search for the first bucket that is not empty. */
    method FindBucket(order: nat) returns (j: nat)
      requires Shape() && order <= NUM_SIZES
      ensures j == FirstBucket(free.lists, order) && j <= NUM_SIZES
      ensures j < NUM_SIZES ==> free.lists[j] != []
    {
      hide Wf;
      j := order;
      while j < NUM_SIZES
        invariant order <= j <= NUM_SIZES
        invariant FirstBucket(free.lists, j) == FirstBucket(free.lists, order)
      {
        var empty := free.IsEmpty(j);
        if !empty {
          return;
        }
        j := j + 1;
      }
    }

    /** The marks and the list once chunk i is in use and a chunk at rest follows it. */
    method SplitAt(a: nat, ghost i: nat, m: nat, rest: nat)
      requires Shape() && i + 1 < |all.lists[0]| && all.lists[0][i] == a
      requires rest == a + m + HEADER && rest !in all.lists[0]
      modifies this`used, all
      ensures Shape() && pmm.State() == old(pmm.State())
      ensures State() == old(State()).(cs := Replace(old(State()).cs, i, i + 1, [Chunk(a, true), Chunk(rest, false)]))
    {
      hide Wf, NoDup;
      ghost var l := all.lists[0];
      ListsNoDup(all.next, all.prev, all.heads, all.lists, 0);
      SplitView(l, used, i, m);
      used := used[a := true][rest := false];
      all.InsertAfter(0, i, a, rest);
    }

    method MarkUsed(a: nat, ghost i: nat)
      requires Shape() && i < |all.lists[0]| && all.lists[0][i] == a
      modifies this`used
      ensures Shape() && pmm.State() == old(pmm.State())
      ensures State() == old(State()).(cs := old(State()).cs[i := Chunk(a, true)])
    {
      hide Wf, NoDup;
      ListsNoDup(all.next, all.prev, all.heads, all.lists, 0);
      MarkOne(all.lists[0], used, i, true);
      used := used[a := true];
    }

    /** Put a free chunk of n bytes at the head of its bucket. */
    method PushChunk(a: nat, n: int)
      requires Shape() && MIN_SIZE <= n <= WHOLE
      requires forall b :: 0 <= b < NUM_SIZES ==> a !in free.lists[b]
      modifies free
      ensures Shape() && pmm.State() == old(pmm.State())
      ensures State() == old(State()).(buckets := PushFree(old(State()).buckets, Bucket(n), a))
    {
      hide Wf, Bucket;
      var b := BucketIndex(n);
      free.PushNode(b, a);
    }

    /** The second half of kmalloc: chunk i, of n bytes, is cut to m bytes. */
    method CutTo(a: nat, ghost i: nat, n: int, m: nat)
      requires Shape() && i + 1 < |all.lists[0]| && all.lists[0][i] == a && n == Size(State().cs, i)
      requires Splits(n, m) ==> MIN_SIZE <= n - m - HEADER <= WHOLE && a + m + HEADER !in all.lists[0]
      requires Splits(n, m) ==> forall b :: 0 <= b < NUM_SIZES ==> a + m + HEADER !in free.lists[b]
      modifies this, all, free
      ensures Shape() && State() == Carve(old(State()), i, m) && pmm.State() == old(pmm.State())
    {
      hide BuddyAllocator.Allocator.State, BuddyAllocator.Allocator.Shape;
      hide Wf, Bucket, Marked, Replace;
      memFree := memFree - n;
      if n - m >= MIN_SIZE + HEADER {
        var rest := a + m + HEADER;
        SplitAt(a, i, m, rest);
        memMeta := memMeta + HEADER;
        PushChunk(rest, n - m - HEADER);
        memFree := memFree + (n - m - HEADER);
        memUsed := memUsed + m;
      } else {
        MarkUsed(a, i);
        memUsed := memUsed + n;
      }
    }

    /** From pop_free_chunk to the end of kmalloc: the first chunk of bucket j,
        cut to m bytes. */
    method TakeFrom(j: nat, m: nat) returns (p: nat)
      requires Shape() && HeapBase(State()) && j < NUM_SIZES && free.lists[j] != []
      requires m % 4 == 0 && m >= MIN_SIZE && AllocOrder(m) <= j
      requires NoEmptyBut(State().cs, IndexOf(State().cs, free.lists[j][0]))
      modifies this, all, free
      ensures Shape() && State() == Take(old(State()), j, m) && p == old(free.lists)[j][0] + HEADER
      ensures pmm.State() == old(pmm.State())
    {
      hide Wf, HeapBase, HeapOk, Carvable, Bucket, NoEmptyBut, IndexOf, Distinct, Carve, Log2, Splits;
      ghost var h := State();
      ViewIs(all.lists[0], used);
      ghost var i := TakeOk(h, j, m);
      CarveFacts(h, i, m);
      IndexOfIs(h.cs, i);
      var a := free.PopNode(j);
      var n := ChunkSize(a, i);
      if Splits(n, m) {
        PopLoose(h, j, i, m);
      }
      assert State() == h.(buckets := h.buckets[j := h.buckets[j][1..]]);
      CutTo(a, i, n, m);
      p := a + HEADER;
    }

    /** init_kmalloc: false is the page allocator's panic. */
    method InitKmalloc() returns (ok: bool)
      requires Shape() && State() == EmptyHeap() && pmm.Valid()
      modifies this, all, free, pmm, pmm.pages, pmm.pool
      ensures Shape() && (ok <==> Alloc(pmm.zone, old(pmm.State()), 0).Got?)
      ensures ok ==> Valid() && State() == BootHeap(Addr(Alloc(pmm.zone, old(pmm.State()), 0).index))
                     && pmm.State() == Alloc(pmm.zone, old(pmm.State()), 0).state
    {
      hide Wf, Inv, PhantomMatches, Alloc, SysOk, AddPage;
      ghost var b := pmm.State();
      var r := pmm.AllocPages(0);
      ok := r.Some?;
      if ok {
        ghost var i := Alloc(pmm.zone, b, 0).index;
        AddrIndex(i);
        CreateChunk(KERNEL_BASE + r.value);
        BootSystem(pmm.zone, b);
      }
    }

    /** A request of a page or more. */
    method MallocPages(n: nat) returns (r: Pointer)
      requires Valid() && PAGE <= n
      modifies this, pmm, pmm.pages, pmm.pool
      ensures Valid()
      ensures match AllocBig(pmm.zone, old(State()), old(pmm.State()), n)
        case OutOfPages => r == Panicked && State() == old(State()) && pmm.State() == old(pmm.State())
        case Ptr(h', pmm', p) => r == At(p) && State() == h' && pmm.State() == pmm'
        case _ => false
    {
      hide BuddyAllocator.Allocator.State, BuddyAllocator.Allocator.Shape;
      hide Wf, Inv, PhantomMatches, Alloc, HeapOk, Holdings, Log2;
      ghost var h, b := State(), pmm.State();
      AllocBigOk(pmm.zone, h, b, n);
      var order := Log2(n - 1) + 1 - 12;
      var page := pmm.AllocPages(order);
      if page.None? {
        return Panicked;
      }
      var p := KERNEL_BASE + page.value;
      memUsed := memUsed + PAGE * Pow2(order);
      big := [Big(p, order)] + big;
      return At(p);
    }

    /** A request that the buckets serve, with a new page if they cannot. */
    method MallocChunk(m: nat, order: nat) returns (r: Pointer)
      requires Valid() && m % 4 == 0 && m >= MIN_SIZE && AllocOrder(m) == order < NUM_SIZES
      modifies this, all, free, pmm, pmm.pages, pmm.pool
      ensures Valid()
      ensures match AllocSmall(pmm.zone, old(State()), old(pmm.State()), m, order)
        case OutOfPages => r == Panicked && State() == old(State()) && pmm.State() == old(pmm.State())
        case Ptr(h', pmm', p) => r == At(p) && State() == h' && pmm.State() == pmm'
        case _ => false
    {
      hide BuddyAllocator.Allocator.State, BuddyAllocator.Allocator.Shape;
      hide Wf, Inv, PhantomMatches, Alloc, SysOk, Log2, HeapBase, NoEmptyBut, Take, FirstBucket, AddPage, Carves,
           IndexOf, Holdings, HeapOk, ChunksOk;
      ghost var h, b := State(), pmm.State();
      AllocSmallOk(pmm.zone, h, b, m, order);
      SysParts(pmm.zone, h, b);
      FirstBucketFacts(h.buckets, order);
      var j := FindBucket(order);
      var p: nat;
      if j < NUM_SIZES {
        EmptyBut(h.cs, IndexOf(h.cs, h.buckets[j][0]));
        p := TakeFrom(j, m);
      } else {
        var page := pmm.AllocPages(0);
        if page.None? {
          return Panicked;
        }
        ghost var i := Alloc(pmm.zone, b, 0).index;
        AddrIndex(i);
        GrowReady(pmm.zone, h, b, order);
        ViewIs(all.lists[0], used);
        CreateChunk(KERNEL_BASE + page.value);
        j := FindBucket(order);
        p := TakeFrom(j, m);
      }
      return At(p);
    }

    /** kmalloc. */
    method Kmalloc(size: nat) returns (r: Pointer)
      requires Valid()
      modifies this, all, free, pmm, pmm.pages, pmm.pool
      ensures Valid()
      ensures match HeapModel.Kmalloc(pmm.zone, old(State()), old(pmm.State()), size)
        case Null => r == NullPointer && State() == old(State()) && pmm.State() == old(pmm.State())
        case OutOfPages => r == Panicked && State() == old(State()) && pmm.State() == old(pmm.State())
        case Ptr(h', pmm', p) => r == At(p) && State() == h' && pmm.State() == pmm'
        case HeapPanic => false
    {
      hide Wf, SysOk, AllocBig, AllocSmall, Log2;
      if size == 0 {
        return NullPointer;
      }
      var n := if size < MIN_SIZE then MIN_SIZE else size;
      if n >= PAGE {
        r := MallocPages(n);
        return;
      }
      RoundUp(n);
      var m := (n + 3) / 4 * 4;
      var order := Log2(m - 1) + 1 - ORDER_OFFSET;
      if order >= NUM_SIZES {
        return NullPointer;
      }
      r := MallocChunk(m, order);
    }

    /** Take chunk i off the list of chunks. The head pointer that the kernel passes
        is first itself or first's next field. */
    method DropChunk(ref: Ref, ghost i: nat, x: nat)
      requires Shape() && 1 < i < |all.lists[0]| - 1 && x == all.lists[0][i]
      requires ref == Head(0) || ref == NextOf(all.lists[0][0])
      modifies all
      ensures Shape() && pmm.State() == old(pmm.State())
      ensures all.lists == [old(all.lists)[0][..i] + old(all.lists)[0][i + 1..]] && free.lists == old(free.lists)
    {
      hide Wf;
      ghost var l := all.lists[0];
      ListsNoDup(all.next, all.prev, all.heads, all.lists, 0);
      LinksAt(all.next, all.prev, all.heads, all.lists, 0, 0);
      all.RemoveNode(ref, 0, x);
      WithoutAt(l, i);
    }

    /** Take the free chunk a, of n bytes, out of its bucket. */
    method DropFromBucket(a: nat, n: int)
      requires Shape() && MIN_SIZE <= n <= WHOLE
      requires 0 <= Bucket(n) < NUM_SIZES && a in free.lists[Bucket(n)]
      modifies free
      ensures Shape() && pmm.State() == old(pmm.State())
      ensures free.lists == DropFree(old(free.lists), Bucket(n), a) && all.lists == old(all.lists)
    {
      hide Wf, Bucket;
      var b := BucketIndex(n);
      free.RemoveNode(Head(b), b, a);
    }

    /** One side of the merge in kfree: the free chunk x at position k leaves its
        bucket, and the chunk y at position j leaves the list. */
    method Absorb(x: nat, ghost k: nat, y: nat, ghost j: nat, ghost size: int)
      requires Shape() && k + 1 < |all.lists[0]| && x == all.lists[0][k] && size == Size(State().cs, k)
      requires 1 < j < |all.lists[0]| - 1 && y == all.lists[0][j]
      requires MIN_SIZE <= size <= WHOLE && 0 <= Bucket(size) < NUM_SIZES && x in free.lists[Bucket(size)]
      modifies this`memFree, this`memMeta, all, free
      ensures Shape() && pmm.State() == old(pmm.State())
      ensures all.lists == [old(all.lists)[0][..j] + old(all.lists)[0][j + 1..]]
      ensures free.lists == DropFree(old(free.lists), Bucket(size), x)
      ensures memFree == old(memFree) - size && memMeta == old(memMeta) - HEADER
    {
      hide Wf, Bucket, Marked, DropFree;
      var n := ChunkSize(x, k);
      memFree := memFree - n;
      DropFromBucket(x, n);
      LinksAt(all.next, all.prev, all.heads, all.lists, 0, 0);
      DropChunk(NextOf(all.heads[0]), j, y);
      memMeta := memMeta - HEADER;
    }

    /** kfree, the chunk after chunk i: joined if it is free. */
    method AbsorbNext(nx: nat, ghost i: nat, ghost h: Heap)
      requires Shape() && h == State() && 0 < i < |h.cs| - 1 && nx == all.lists[0][i + 1]
      requires !used[nx] ==> NextFree(h.cs, i) && NeighbourOk(h.cs, h.buckets, i + 1)
      modifies this`memFree, this`memMeta, all, free
      ensures Shape() && pmm.State() == old(pmm.State()) && MergeHi(h.cs, i) <= |h.cs|
      ensures all.lists == [Addrs(h.cs)[..i + 1] + Addrs(h.cs)[MergeHi(h.cs, i)..]]
      ensures free.lists == NextDropped(h, i)
      ensures memFree == h.memFree - (if NextFree(h.cs, i) then Size(h.cs, i + 1) else 0)
      ensures memMeta == h.memMeta - (if NextFree(h.cs, i) then HEADER else 0)
    {
      hide Wf, Bucket, DropFree;
      ghost var l := all.lists[0];
      ViewAddrs(l, used);
      if !used[nx] {
        hide View;
        Absorb(nx, i + 1, nx, i + 1, Size(h.cs, i + 1));
      } else {
        assert l == l[..i + 1] + l[i + 1..];
      }
    }

    /** kfree, the chunk before chunk i: joined if it is free. */
    method AbsorbPrev(pv: nat, a: nat, ghost i: nat, ghost h: Heap) returns (c: nat)
      requires Shape() && 0 < i < |h.cs| - 1 && pv == h.cs[i - 1].addr && a == h.cs[i].addr
      requires i < MergeHi(h.cs, i) < |h.cs|
      requires all.lists == [Addrs(h.cs)[..i + 1] + Addrs(h.cs)[MergeHi(h.cs, i)..]]
      requires pv in used && used[pv] == h.cs[i - 1].used
      requires PrevFree(h.cs, i) ==> 1 < i && NeighbourOk(h.cs, free.lists, i - 1)
      modifies this`memFree, this`memMeta, all, free
      ensures Shape() && pmm.State() == old(pmm.State()) && c == h.cs[MergeLo(h.cs, i)].addr
      ensures all.lists == [Addrs(h.cs)[..MergeLo(h.cs, i) + 1] + Addrs(h.cs)[MergeHi(h.cs, i)..]]
      ensures free.lists ==
        if PrevFree(h.cs, i) then DropFree(old(free.lists), Bucket(Size(h.cs, i - 1)), pv) else old(free.lists)
      ensures memFree == old(memFree) - (if PrevFree(h.cs, i) then Size(h.cs, i - 1) else 0)
      ensures memMeta == old(memMeta) - (if PrevFree(h.cs, i) then HEADER else 0)
    {
      hide Wf, Bucket, DropFree, NextFree;
      c := a;
      if !used[pv] {
        ghost var l, hi := all.lists[0], MergeHi(h.cs, i);
        assert l[i - 1] == pv && l[i] == a && State().cs[i - 1].addr == pv && State().cs[i].addr == a;
        assert l[..i] + l[i + 1..] == Addrs(h.cs)[..i] + Addrs(h.cs)[hi..];
        Absorb(pv, i - 1, a, i, Size(h.cs, i - 1));
        c := pv;
      }
    }

    /** The first half of kfree: chunk i, at a, leaves the counter of used bytes and
        is joined with its free neighbours; c is where the joined chunk starts. */
    method MergeNeighbours(a: nat, ghost i: nat) returns (c: nat)
      requires Shape() && HeapBase(State()) && Freeable(State().cs, i) && i < |all.lists[0]| && all.lists[0][i] == a
      modifies this`memUsed, this`memFree, this`memMeta, all, free
      ensures Shape() && pmm.State() == old(pmm.State()) && 0 < i < |old(State()).cs| - 1
      ensures MergedLists(old(State()), i, c, all.lists, free.lists)
      ensures var h1 := Lift(old(State()), i);
        memUsed == h1.memUsed && memFree == h1.memFree && memMeta == h1.memMeta
    {
      hide Wf, HeapBase, Freeable, Bucket, DropFree, NextFree, PrevFree, MergeLo, NeighbourOk, Marked;
      ghost var h, l := State(), all.lists[0];
      NeighboursReady(h, i);
      MarkedAt(l, used, i - 1);
      MarkedAt(l, used, i + 1);
      LinksAt(all.next, all.prev, all.heads, all.lists, 0, i);
      var nx, pv := all.next[a], all.prev[a];
      var n := ChunkSize(a, i);
      AbsorbNext(nx, i, h);
      c := AbsorbPrev(pv, a, i, h);
      memUsed := memUsed - n;
    }

    /** The end of kfree when the page stays: the joined chunk becomes free. */
    method Release(c: nat, n: int, ghost i: nat, ghost h: Heap)
      requires Shape() && 0 < i < |h.cs| - 1 && MergedLists(h, i, c, all.lists, free.lists)
      requires Marked(Addrs(h.cs), used) && h.cs == View(Addrs(h.cs), used) && Distinct(h.cs)
      requires n == Gap(h.cs[MergeLo(h.cs, i)], h.cs[MergeHi(h.cs, i)]) && MIN_SIZE <= n <= WHOLE
      requires forall b :: 0 <= b < NUM_SIZES && b < |free.lists| ==> c !in free.lists[b]
      modifies this`used, this`memFree, free
      ensures Shape() && pmm.State() == old(pmm.State())
      ensures State().cs == Replace(h.cs, MergeLo(h.cs, i), MergeHi(h.cs, i), [Chunk(c, false)])
      ensures State().buckets == PushFree(DropNeighbours(h, i), Bucket(n), c)
      ensures memFree == old(memFree) + n
    {
      hide Wf, Bucket, DropNeighbours, MergeLo, MergeHi;
      MergedView(h.cs, used, MergeLo(h.cs, i), MergeHi(h.cs, i));
      used := used[c := false];
      PushChunk(c, n);
      memFree := memFree + n;
    }

    /** return_page: the page whose first sentinel is f, at position k, and whose
        only chunk is between its sentinels. */
    method UnlinkPage(f: nat, ghost k: nat)
      requires Shape() && 1 < k && k + 2 < |all.lists[0]| && f == all.lists[0][k]
      modifies this`last, this`memMeta, all
      ensures Shape() && pmm.State() == old(pmm.State())
      ensures all.lists == [old(all.lists)[0][..k] + old(all.lists)[0][k + 3..]] && free.lists == old(free.lists)
      ensures memMeta == old(memMeta) - HEADER - SENTINEL - SENTINEL
    {
      hide Wf, Marked, BuddyAllocator.Allocator.State, BuddyAllocator.Allocator.Shape;
      ghost var l := all.lists[0];
      LinksAt(all.next, all.prev, all.heads, all.lists, 0, k);
      LinksAt(all.next, all.prev, all.heads, all.lists, 0, k + 1);
      var m := all.next[f];
      var e := all.next[m];
      memMeta := memMeta - HEADER;
      DropChunk(Head(0), k + 1, m);
      ghost var l1 := all.lists[0];
      assert l1[k] == f && l1[k + 1] == e;
      memMeta := memMeta - SENTINEL;
      LinksAt(all.next, all.prev, all.heads, all.lists, 0, 0);
      DropChunk(NextOf(all.heads[0]), k, f);
      assert all.lists[0] == l[..k] + l[k + 2..];
      DropSentinel(e, k);
      memMeta := memMeta - SENTINEL;
      assert all.lists[0] == l[..k] + l[k + 3..];
    }

    /** The last sentinel of a page leaves; if it was the last of all, last moves
        to the page before. */
    method DropSentinel(e: nat, ghost k: nat)
      requires Shape() && 1 < k < |all.lists[0]| && e == all.lists[0][k]
      modifies this`last, all
      ensures Shape() && pmm.State() == old(pmm.State()) && free.lists == old(free.lists)
      ensures all.lists == [old(all.lists)[0][..k] + old(all.lists)[0][k + 1..]]
    {
      hide Wf;
      ghost var l := all.lists[0];
      ListsNoDup(all.next, all.prev, all.heads, all.lists, 0);
      LinksAt(all.next, all.prev, all.heads, all.lists, 0, k);
      LinksAt(all.next, all.prev, all.heads, all.lists, 0, 0);
      if last == e {
        last := all.prev[e];
      }
      all.RemoveNode(NextOf(all.heads[0]), 0, e);
      WithoutAt(l, k);
    }

    /** kfree of a page-sized allocation. */
    method FreePageBlock(p: nat)
      requires Valid() && Offset(p) == 0 && LivePtr(State(), p)
      modifies this, pmm, pmm.pages, pmm.pool
      ensures Valid() && System(State(), pmm.State()) == FreeBig(pmm.zone, old(State()), old(pmm.State()), p)
    {
      hide Wf, Inv, PhantomMatches, HeapOk, PagesBacked, BigApart, Dealloc, UsedHeads,
           BuddyAllocator.Allocator.State, BuddyAllocator.Allocator.Shape, Pow2;
      ghost var h, b := State(), pmm.State();
      ghost var i :| 0 <= i < |h.big| && h.big[i].ptr == p;
      assert Backed(LivePages(pmm.zone, b), p, h.big[i].order);
      FreeBigOk(pmm.zone, h, b, p, i);
      PmmFreeIs(pmm.zone, b, PageIndex(p));
      var addr := p - KERNEL_BASE;
      var order := pmm.OrderOf(addr);
      memUsed := memUsed - PAGE * Pow2(order);
      big := RemoveBig(big, p);
      pmm.FreePages(addr);
    }

    /** What holds between the two halves of kfree of chunk i. */
    ghost predicate Joined(h: Heap, b: Buddy, i: nat, c: nat)
      requires 0 < i < |h.cs| - 1
      reads this, all, free, pmm, pmm.pages, pmm.pool
    {
      && Shape() && pmm.State() == b && MergedLists(h, i, c, all.lists, free.lists)
      && Marked(Addrs(h.cs), used) && h.cs == View(Addrs(h.cs), used)
      && memUsed == Lift(h, i).memUsed && memFree == Lift(h, i).memFree && memMeta == Lift(h, i).memMeta
      && big == h.big
    }

    /** return_page on the heap's side. */
    method ReturnPage(f: nat, c: nat, ghost i: nat, ghost h: Heap, ghost b: Buddy)
      requires 0 < i < |h.cs| - 1 && Joined(h, b, i, c) && PageDone(h.cs, MergeLo(h.cs, i), MergeHi(h.cs, i))
      requires MergeLo(h.cs, i) > 2 && f == h.cs[MergeLo(h.cs, i) - 1].addr
      modifies this, all
      ensures Shape() && State() == FreeChunk(pmm.zone, h, b, i).h && pmm.State() == b
    {
      hide Wf, MergedBytes, MergedHeaders, Bucket, DropNeighbours, PmmFree, View, MergeLo, MergeHi,
           BuddyAllocator.Allocator.State, BuddyAllocator.Allocator.Shape;
      ghost var lo, hi := MergeLo(h.cs, i), MergeHi(h.cs, i);
      ReturnedView(h.cs, used, lo, hi);
      assert all.lists[0][lo - 1] == f;
      UnlinkPage(f, lo - 1);
    }

    /** The end of kfree when the page goes back: return_page and pmm_free. */
    method GiveBack(f: nat, c: nat, ghost i: nat, ghost h: Heap, ghost b: Buddy)
      requires 0 < i < |h.cs| - 1 && Joined(h, b, i, c)
      requires SysOk(pmm.zone, h, b) && Returnable(h.cs, i)
      requires 0 < MergeLo(h.cs, i) && f == h.cs[MergeLo(h.cs, i) - 1].addr
      modifies this, all, pmm, pmm.pages, pmm.pool
      ensures Valid() && System(State(), pmm.State()) == FreeChunk(pmm.zone, h, b, i)
    {
      hide Wf, SysOk, Freeable, Lift, Replace, Marked, Bucket, Distinct, DropNeighbours, PmmFree, View, Dealloc,
           MergeLo, MergeHi, UsedHeads, Addrs, MergedLists, Inv, PhantomMatches, BuddyAllocator.Allocator.State,
           BuddyAllocator.Allocator.Shape;
      FreeReady(pmm.zone, h, b, i);
      FreeReturned(pmm.zone, h, b, i);
      ReturnPage(f, c, i, h, b);
      PmmFreeIs(pmm.zone, b, PageIndex(f));
      pmm.FreePages(f - KERNEL_BASE);
    }

    /** The other end of kfree: the page stays, the joined chunk goes to a bucket. */
    method KeepPage(c: nat, n: int, ghost i: nat, ghost h: Heap, ghost b: Buddy)
      requires 0 < i < |h.cs| - 1 && Joined(h, b, i, c) && SysOk(pmm.zone, h, b) && Freeable(h.cs, i)
      requires n == Gap(h.cs[MergeLo(h.cs, i)], h.cs[MergeHi(h.cs, i)])
      requires !PageDone(h.cs, MergeLo(h.cs, i), MergeHi(h.cs, i))
      modifies this, free
      ensures Valid() && System(State(), pmm.State()) == FreeChunk(pmm.zone, h, b, i)
    {
      hide Wf, SysOk, Freeable, Bucket, Distinct, DropNeighbours, View, MergeLo, MergeHi, Inv,
           BuddyAllocator.Allocator.State, BuddyAllocator.Allocator.Shape, Replace;
      FreeReady(pmm.zone, h, b, i);
      FreeMerged(pmm.zone, h, b, i);
      Release(c, n, i, h);
    }

    /** kfree of a chunk. */
    method FreeOneChunk(a: nat, ghost i: nat)
      requires Valid() && Freeable(State().cs, i) && 0 < i < |State().cs| - 1 && State().cs[i].addr == a
      modifies this, all, free, pmm, pmm.pages, pmm.pool
      ensures Valid() && System(State(), pmm.State()) == FreeChunk(pmm.zone, old(State()), old(pmm.State()), i)
    {
      hide Wf, SysOk, Freeable, MergedBytes, MergedHeaders, Bucket, Distinct, DropNeighbours, View, PmmFree, MergeLo,
           MergeHi, HeapBase, Inv, NoEmptyPage, BuddyAllocator.Allocator.State, BuddyAllocator.Allocator.Shape,
           FreeChunk;
      ghost var h, b := State(), pmm.State();
      SysParts(pmm.zone, h, b);
      FreeReady(pmm.zone, h, b, i);
      ViewAddrs(all.lists[0], used);
      assert all.lists[0][i] == a by { AddrsAt(h.cs, i); }
      var c := MergeNeighbours(a, i);
      assert Joined(h, b, i, c);
      var n, f, first := Measure(c, i, h, b);
      if n == WHOLE && f != first {
        GiveBack(f, c, i, h, b);
      } else {
        KeepPage(c, n, i, h, b);
      }
    }

    /** The size of the joined chunk, the chunk before it, and the first chunk. */
    method Measure(c: nat, ghost i: nat, ghost h: Heap, ghost b: Buddy) returns (n: int, f: int, first: int)
      requires 0 < i < |h.cs| - 1 && Joined(h, b, i, c) && 0 < MergeLo(h.cs, i)
      ensures n == Gap(h.cs[MergeLo(h.cs, i)], h.cs[MergeHi(h.cs, i)])
      ensures f == h.cs[MergeLo(h.cs, i) - 1].addr && first == h.cs[0].addr
    {
      hide Wf, Lift, Marked, DropNeighbours, MergeLo, MergeHi;
      ghost var lo := MergeLo(h.cs, i);
      LinksAt(all.next, all.prev, all.heads, all.lists, 0, lo);
      LinksAt(all.next, all.prev, all.heads, all.lists, 0, 0);
      n := all.next[c] - c - HEADER;
      f := all.prev[c];
      first := all.heads[0];
    }

    /** kfree. */
    method Kfree(p: nat)
      requires Valid() && LivePtr(State(), p)
      modifies this, all, free, pmm, pmm.pages, pmm.pool
      ensures Valid() && System(State(), pmm.State()) == HeapModel.Kfree(pmm.zone, old(State()), old(pmm.State()), p)
    {
      hide Wf, SysOk, FreeBig, FreeChunk;
      if p % PAGE == 0 {
        FreePageBlock(p);
      } else {
        SysChunks(pmm.zone, State(), pmm.State());
        ghost var i := LiveChunk(State(), p);
        FreeOneChunk(p - HEADER, i);
      }
    }

    /** get_bucket_index. */
    method BucketIndex(n: int) returns (b: nat)
      requires MIN_SIZE <= n <= WHOLE
      ensures b == Bucket(n) < NUM_SIZES
    {
      BucketRange(n);
      b := Log2(n) - ORDER_OFFSET;
    }
  }

  lemma SysParts(z: Zone, h: Heap, pmm: Buddy)
    requires SysOk(z, h, pmm)
    ensures Inv(z, pmm) && !PhantomMatches(z) && HeapBase(h) && NoEmptyPage(h.cs) && |h.buckets| == NUM_SIZES
  {
  }

  /** What create_chunk and the second search need from a page just supplied. */
  lemma GrowReady(z: Zone, h: Heap, pmm: Buddy, order: nat)
    requires SysOk(z, h, pmm) && Alloc(z, pmm, 0).Got? && order < NUM_SIZES
    requires FirstBucket(h.buckets, order) >= NUM_SIZES
    ensures var p := Addr(Alloc(z, pmm, 0).index);
      && (forall k :: 0 <= k < |h.cs| ==> h.cs[k].addr / PAGE != p / PAGE)
      && (forall b :: 0 <= b < NUM_SIZES && b < |h.buckets| ==> p + SENTINEL !in h.buckets[b])
      && var h1 := AddPage(h, p);
         && HeapBase(h1) && FirstBucket(h1.buckets, order) == NUM_SIZES - 1 && |h1.buckets| == NUM_SIZES
         && h1.buckets[NUM_SIZES - 1] == [p + SENTINEL]
         && NoEmptyBut(h1.cs, IndexOf(h1.cs, p + SENTINEL))
  {
    hide Inv, PhantomMatches, NoEmptyPage, NoEmptyBut, Cells, CountersOk, UsedHeads, Alloc, BuddyModel.FreePages,
         Bucket;
    var i := Alloc(z, pmm, 0).index;
    var p, live := Addr(i), LivePages(z, pmm);
    AllocKeeps(z, pmm, 0);
    AddrIndex(i);
    FreshIndex(live, h, i);
    AddPageOk(h, p);
    FirstBucketFacts(h.buckets, order);
    FreshBucket(h, p, order);
    FreshAt(h, p);
    FreshLinks(p);
    NotYet(h.cs, p + SENTINEL);
    forall b | 0 <= b < NUM_SIZES
      ensures p + SENTINEL !in h.buckets[b]
    {
      assert !Belongs(Cells(h.cs, false), p + SENTINEL, b);
    }
  }

  lemma CarveFacts(h: Heap, i: nat, m: nat)
    requires Carvable(h.cs, i, m)
    ensures 0 < i < |h.cs| - 1 && Size(h.cs, i) <= WHOLE && Distinct(h.cs)
    ensures Splits(Size(h.cs, i), m) ==> MIN_SIZE <= Size(h.cs, i) - m - HEADER <= WHOLE
    ensures Splits(Size(h.cs, i), m) ==> forall k :: 0 <= k < |h.cs| ==> h.cs[k].addr != h.cs[i].addr + m + HEADER
    ensures m <= Size(h.cs, i)
  {
    FreeIsMid(h.cs, i);
    if Splits(Size(h.cs, i), m) {
      CarveDistinct(h.cs, i, m);
      CarveLinked(h.cs, i, m);
      var cs' := Carved(h.cs, i, m);
      assert cs'[i + 1].addr == h.cs[i].addr + m + HEADER;
      forall k | 0 <= k < |h.cs|
        ensures h.cs[k].addr != h.cs[i].addr + m + HEADER
      {
        assert h.cs[k].addr == cs'[if k <= i then k else k + 1].addr;
      }
    }
  }

  /** Marking one chunk of a list without repeats. */
  lemma MarkOne(l: seq<nat>, used: map<nat, bool>, i: nat, u: bool)
    requires Marked(l, used) && NoDup(l) && i < |l|
    ensures Marked(l, used[l[i] := u])
    ensures View(l, used[l[i] := u]) == View(l, used)[i := Chunk(l[i], u)]
  {
  }

  lemma SplitView(l: seq<nat>, used: map<nat, bool>, i: nat, m: nat)
    requires Marked(l, used) && NoDup(l) && i < |l| && l[i] + m + HEADER !in l
    ensures var rest := l[i] + m + HEADER;
      var l', used' := l[..i + 1] + [rest] + l[i + 1..], used[l[i] := true][rest := false];
      Marked(l', used')
      && View(l', used') == Replace(View(l, used), i, i + 1, [Chunk(l[i], true), Chunk(rest, false)])
  {
  }

  lemma PopLoose(h: Heap, j: nat, i: nat, m: nat)
    requires HeapBase(h) && Carvable(h.cs, i, m) && Splits(Size(h.cs, i), m)
    requires j < NUM_SIZES && |h.buckets| == NUM_SIZES && h.buckets[j] != []
    ensures var b := h.buckets[j := h.buckets[j][1..]];
      forall k :: 0 <= k < NUM_SIZES ==> h.cs[i].addr + m + HEADER !in b[k]
  {
    CarveFacts(h, i, m);
    NotYet(h.cs, h.cs[i].addr + m + HEADER);
    forall k | 0 <= k < NUM_SIZES
      ensures h.cs[i].addr + m + HEADER !in h.buckets[k]
    {
      assert !Belongs(Cells(h.cs, false), h.cs[i].addr + m + HEADER, k);
    }
  }

  /** A free chunk is in the bucket of its size. */
  lemma InItsBucket(h: Heap, k: nat)
    requires HeapBase(h) && k < |h.cs| && !h.cs[k].used
    ensures 0 < k < |h.cs| - 1 && MIN_SIZE <= Size(h.cs, k) <= WHOLE
    ensures 0 <= Bucket(Size(h.cs, k)) < NUM_SIZES && h.cs[k].addr in h.buckets[Bucket(Size(h.cs, k))]
  {
    FreeIsMid(h.cs, k);
    BucketRange(Size(h.cs, k));
    var n := Size(h.cs, k);
    assert (h.cs[k].addr, n) in Cells(h.cs, false);
    assert Belongs(Cells(h.cs, false), h.cs[k].addr, Bucket(n));
  }

  /** The lists once chunk i is joined with its free neighbours. */
  ghost predicate MergedLists(h: Heap, i: nat, c: nat, all: seq<seq<nat>>, free: seq<seq<nat>>)
    requires 0 < i < |h.cs| - 1
  {
    var lo, hi := MergeLo(h.cs, i), MergeHi(h.cs, i);
    && lo < hi < |h.cs| && c == h.cs[lo].addr
    && all == [Addrs(h.cs)[..lo + 1] + Addrs(h.cs)[hi..]]
    && free == DropNeighbours(h, i)
  }

  ghost function Addrs(cs: seq<Chunk>): (l: seq<nat>)
    ensures |l| == |cs|
  {
    seq(|cs|, i requires 0 <= i < |cs| => cs[i].addr)
  }

  lemma MarkedAt(l: seq<nat>, used: map<nat, bool>, i: nat)
    requires Marked(l, used) && i < |l|
    ensures l[i] in used
  {
  }

  lemma ViewIs(l: seq<nat>, used: map<nat, bool>)
    requires Marked(l, used)
    ensures var cs := View(l, used); forall i :: 0 <= i < |l| ==> cs[i] == Chunk(l[i], used[l[i]])
  {
  }

  lemma AddrsAt(cs: seq<Chunk>, i: nat)
    requires i < |cs|
    ensures Addrs(cs)[i] == cs[i].addr
  {
  }

  lemma ViewAddrs(l: seq<nat>, used: map<nat, bool>)
    requires Marked(l, used)
    ensures Addrs(View(l, used)) == l
  {
  }

  /** Chunk k is in the bucket of its size. */
  ghost predicate NeighbourOk(cs: seq<Chunk>, free: seq<seq<nat>>, k: nat)
    requires k + 1 < |cs|
  {
    var n := Size(cs, k);
    && MIN_SIZE <= n <= WHOLE && 0 <= Bucket(n) < NUM_SIZES && |free| == NUM_SIZES
    && cs[k].addr in free[Bucket(n)]
  }

  ghost function NextDropped(h: Heap, i: nat): seq<seq<nat>>
    requires 0 < i < |h.cs| - 1
  {
    if NextFree(h.cs, i) then DropFree(h.buckets, Bucket(Size(h.cs, i + 1)), h.cs[i + 1].addr) else h.buckets
  }

  /** Free neighbours are in their buckets, the second still after the first left. */
  lemma NeighboursReady(h: Heap, i: nat)
    requires HeapBase(h) && Freeable(h.cs, i)
    ensures 0 < i < |h.cs| - 1 && i < MergeHi(h.cs, i) < |h.cs| && MergeLo(h.cs, i) < MergeHi(h.cs, i)
    ensures !h.cs[i + 1].used ==> NextFree(h.cs, i) && NeighbourOk(h.cs, h.buckets, i + 1)
    ensures PrevFree(h.cs, i) ==> 1 < i && NeighbourOk(h.cs, NextDropped(h, i), i - 1)
  {
    MergeFacts(h.cs, i);
    if NextFree(h.cs, i) { InItsBucket(h, i + 1); }
    if PrevFree(h.cs, i) {
      InItsBucket(h, i - 1);
      if NextFree(h.cs, i) {
        WithoutFacts(h.buckets[Bucket(Size(h.cs, i + 1))], h.cs[i + 1].addr);
      }
    }
  }

  lemma MergedView(cs: seq<Chunk>, used: map<nat, bool>, lo: nat, hi: nat)
    requires lo < hi < |cs| && Distinct(cs) && Marked(Addrs(cs), used) && cs == View(Addrs(cs), used)
    ensures var l, used' := Addrs(cs)[..lo + 1] + Addrs(cs)[hi..], used[cs[lo].addr := false];
      Marked(l, used') && View(l, used') == Replace(cs, lo, hi, [Chunk(cs[lo].addr, false)])
  {
    var l, used' := Addrs(cs)[..lo + 1] + Addrs(cs)[hi..], used[cs[lo].addr := false];
    var r := Replace(cs, lo, hi, [Chunk(cs[lo].addr, false)]);
    forall j | 0 <= j < |l|
      ensures l[j] in used' && r[j] == Chunk(l[j], used'[l[j]])
    {
      if j < lo { assert l[j] == cs[j].addr && cs[j].addr != cs[lo].addr; }
      if j > lo { assert l[j] == cs[hi + j - lo - 1].addr && cs[hi + j - lo - 1].addr != cs[lo].addr; }
    }
  }

  lemma ReturnedView(cs: seq<Chunk>, used: map<nat, bool>, lo: nat, hi: nat)
    requires 1 <= lo < hi < |cs| && Marked(Addrs(cs), used) && cs == View(Addrs(cs), used)
    ensures var l1 := Addrs(cs)[..lo + 1] + Addrs(cs)[hi..];
      var l := l1[..lo - 1] + l1[lo + 2..];
      Marked(l, used) && View(l, used) == Replace(cs, lo - 1, hi + 1, [])
  {
    var l1 := Addrs(cs)[..lo + 1] + Addrs(cs)[hi..];
    var l, r := l1[..lo - 1] + l1[lo + 2..], Replace(cs, lo - 1, hi + 1, []);
    assert forall j :: 0 <= j < |l| ==>
      l[j] == r[j].addr && l[j] == Addrs(cs)[if j < lo - 1 then j else j + hi - lo + 2];
  }

  /** What the second half of kfree needs to know. */
  lemma FreeReady(z: Zone, h: Heap, pmm: Buddy, i: nat)
    requires SysOk(z, h, pmm) && Freeable(h.cs, i) && 0 < i < |h.cs| - 1
    ensures var lo, hi := MergeLo(h.cs, i), MergeHi(h.cs, i);
      && 1 <= lo < hi < |h.cs| && Distinct(h.cs)
      && MIN_SIZE <= Gap(h.cs[lo], h.cs[hi]) <= WHOLE
      && (forall b :: 0 <= b < NUM_SIZES && b < |DropNeighbours(h, i)| ==> h.cs[lo].addr !in DropNeighbours(h, i)[b])
      && (Gap(h.cs[lo], h.cs[hi]) == WHOLE && h.cs[lo - 1].addr != h.cs[0].addr <==> PageDone(h.cs, lo, hi))
      && (PageDone(h.cs, lo, hi) ==>
            && lo > 2 && h.cs[lo - 1].addr >= KERNEL_BASE && PageIndex(h.cs[lo - 1].addr) in LivePages(z, pmm)
            && Offset(h.cs[lo - 1].addr) == 0)
      && Inv(z, pmm) && !PhantomMatches(z)
  {
    hide Inv, PhantomMatches, NoEmptyPage, CountersOk, Bucket;
    var lo, hi := MergeLo(h.cs, i), MergeHi(h.cs, i);
    MergeFacts(h.cs, i);
    MergedGap(h.cs, i);
    DropNeighboursOk(h, i);
    MergedCells(h.cs, i);
    forall b | 0 <= b < NUM_SIZES
      ensures h.cs[lo].addr !in DropNeighbours(h, i)[b]
    {
      assert !Belongs(Outside(h.cs, false, lo, hi), h.cs[lo].addr, b);
    }
    if PageDone(h.cs, lo, hi) {
      ReturnFacts(h.cs, i);
      assert Link(h.cs[0], h.cs[1]);
      assert Backed(LivePages(z, pmm), h.cs[lo - 1].addr, 0);
    }
  }
}
