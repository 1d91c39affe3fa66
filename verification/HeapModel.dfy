/** The kernel heap as a value: the list of all chunks, the nine buckets of free
    chunks, the byte counters and the live page-sized allocations. */
module HeapModel {
  import opened Bits
  import opened NodeList
  import opened BuddyModel

  const HEADER: nat := 12
  const MIN_SIZE: nat := 8
  /** A sentinel: a header and the smallest payload. */
  const SENTINEL: nat := HEADER + MIN_SIZE
  const NUM_SIZES: nat := 9
  const ORDER_OFFSET: nat := 3
  /** Where physical page 0 appears in kernel memory. */
  const KERNEL_BASE: nat := 0xC000_0000

  datatype Chunk = Chunk(addr: nat, used: bool)

  /** A live allocation that went to the page allocator. */
  datatype Big = Big(ptr: nat, order: nat)

  /** cs is the list of all chunks from first to last. */
  datatype Heap = Heap(cs: seq<Chunk>, buckets: seq<seq<nat>>, memUsed: int, memFree: int, memMeta: int, big: seq<Big>)

  // ----------------------------------------------------------------- sizes

  /** 31 - clz(n). */
  function Log2(n: nat): nat {
    if n < 2 then 0 else 1 + Log2(n / 2)
  }

  lemma {:induction false} Log2Facts(n: nat)
    requires n >= 1
    ensures Pow2(Log2(n)) <= n < Pow2(Log2(n) + 1)
  {
    if n >= 2 {
      Log2Facts(n / 2);
    }
  }

  lemma {:induction false} Log2Below(n: nat, k: nat)
    requires n >= 1
    ensures n < Pow2(k) ==> Log2(n) < k
    ensures n >= Pow2(k) ==> Log2(n) >= k
  {
    Log2Facts(n);
    if n < Pow2(k) && k <= Log2(n) { Pow2Mono(k, Log2(n)); }
    if n >= Pow2(k) && Log2(n) < k { Pow2Mono(Log2(n) + 1, k); }
  }

  function Offset(a: nat): nat { a % PAGE }

  predicate IsFirst(a: nat) { Offset(a) == 0 }
  predicate IsLast(a: nat) { Offset(a) == PAGE - SENTINEL }
  predicate IsMid(a: nat) { SENTINEL <= Offset(a) < PAGE - SENTINEL }

  /** get_chunk_size: from the address of the next chunk. */
  function Gap(c: Chunk, d: Chunk): int { d.addr - c.addr - HEADER }

  function Size(cs: seq<Chunk>, i: nat): int
    requires i + 1 < |cs|
  {
    Gap(cs[i], cs[i + 1])
  }

  /** The bucket of a free chunk of n bytes. */
  function Bucket(n: int): int {
    if n < 1 then -1 else Log2(n) - ORDER_OFFSET
  }

  function AlignUp4(n: nat): nat { (n + 3) / 4 * 4 }

  /** get_alloc_order. */
  function AllocOrder(n: nat): int
    requires n >= 2
  {
    Log2(n - 1) + 1 - ORDER_OFFSET
  }

  // ------------------------------------------------------------- invariant

  /** Two chunks next to each other in the list: touching in one page, or the
      last of one page and the first of another. Two free ones never meet. */
  predicate Link(c: Chunk, d: Chunk) {
    && c.addr % 4 == 0 && d.addr % 4 == 0
    && if IsLast(c.addr) then c.used && IsFirst(d.addr) && d.used
       else
         && d.addr / PAGE == c.addr / PAGE
         && (if IsFirst(c.addr) then c.used && d.addr == c.addr + SENTINEL
             else IsMid(c.addr) && d.addr >= c.addr + SENTINEL)
         && (IsMid(d.addr) || (IsLast(d.addr) && d.used))
         && (c.used || d.used)
  }

  ghost predicate Linked(cs: seq<Chunk>) {
    forall i :: 0 <= i < |cs| - 1 ==> Link(cs[i], cs[i + 1])
  }

  ghost predicate Distinct(cs: seq<Chunk>) {
    forall i, j :: 0 <= i < j < |cs| ==> cs[i].addr != cs[j].addr
  }

  /** Every page but the first has a chunk in use. */
  ghost predicate NoEmptyPage(cs: seq<Chunk>) {
    forall i :: 0 < i < |cs| - 2 && IsFirst(cs[i].addr) && IsLast(cs[i + 2].addr) ==> cs[i + 1].used
  }

  ghost predicate ChunksOk(cs: seq<Chunk>) {
    && |cs| >= 3 && IsFirst(cs[0].addr) && cs[0].used
    && IsLast(cs[|cs| - 1].addr) && cs[|cs| - 1].used
    && Linked(cs) && Distinct(cs)
  }

  /** The chunks in use, or the free chunks: address and size. */
  ghost function Cells(cs: seq<Chunk>, used: bool): set<(nat, int)> {
    set i | 0 <= i < |cs| - 1 && cs[i].used == used && IsMid(cs[i].addr) :: (cs[i].addr, Gap(cs[i], cs[i + 1]))
  }

  ghost predicate Belongs(free: set<(nat, int)>, a: nat, b: int) {
    exists n :: (a, n) in free && Bucket(n) == b
  }

  /** Bucket b holds exactly the free chunks with that size class, each once. */
  ghost predicate BucketsOk(free: set<(nat, int)>, buckets: seq<seq<nat>>) {
    && |buckets| == NUM_SIZES
    && (forall b :: 0 <= b < NUM_SIZES ==> NoDup(buckets[b]))
    && (forall b, a: nat :: 0 <= b < NUM_SIZES ==> (a in buckets[b] <==> Belongs(free, a, b)))
  }

  datatype Part = InUse | InFree | InMeta

  /** What the chunk c, followed by d, adds to a byte counter. */
  function PartOf(k: Part, c: Chunk, d: Chunk): int {
    if IsMid(c.addr) then
      match k
      case InUse => if c.used then Gap(c, d) else 0
      case InFree => if c.used then 0 else Gap(c, d)
      case InMeta => HEADER
    else if k.InMeta? then SENTINEL else 0
  }

  function Total(k: Part, cs: seq<Chunk>): int {
    if |cs| < 2 then 0 else PartOf(k, cs[0], cs[1]) + Total(k, cs[1..])
  }

  function BigBytes(big: seq<Big>): nat {
    if big == [] then 0 else PAGE * Pow2(big[0].order) + BigBytes(big[1..])
  }

  ghost predicate CountersOk(h: Heap) {
    && h.memFree == Total(InFree, h.cs)
    && h.memUsed == Total(InUse, h.cs) + BigBytes(h.big)
    && h.memMeta == Total(InMeta, h.cs) + SENTINEL
  }

  ghost predicate HeapBase(h: Heap) {
    ChunksOk(h.cs) && BucketsOk(Cells(h.cs, false), h.buckets) && CountersOk(h)
  }

  ghost predicate HeapOk(h: Heap) {
    HeapBase(h) && NoEmptyPage(h.cs)
  }

  // ------------------------------------------------------------ operations

  /** cs with positions lo..hi replaced. */
  function Replace(cs: seq<Chunk>, lo: nat, hi: nat, mid: seq<Chunk>): seq<Chunk>
    requires lo <= hi <= |cs|
  {
    cs[..lo] + mid + cs[hi..]
  }

  /** The position of address a. */
  function IndexOf(cs: seq<Chunk>, a: nat): (i: nat)
    ensures i <= |cs|
    ensures i < |cs| ==> cs[i].addr == a
    ensures forall j :: 0 <= j < i ==> cs[j].addr != a
  {
    if cs == [] || cs[0].addr == a then 0 else 1 + IndexOf(cs[1..], a)
  }

  function PushFree(buckets: seq<seq<nat>>, b: int, a: nat): seq<seq<nat>> {
    if 0 <= b < |buckets| then buckets[b := [a] + buckets[b]] else buckets
  }

  function DropFree(buckets: seq<seq<nat>>, b: int, a: nat): seq<seq<nat>> {
    if 0 <= b < |buckets| then buckets[b := Without(buckets[b], a)] else buckets
  }

  function FirstBucket(buckets: seq<seq<nat>>, b: nat): (j: nat)
    ensures j >= b
    decreases |buckets| - b
  {
    if b >= |buckets| || buckets[b] != [] then b else FirstBucket(buckets, b + 1)
  }

  /** Is there room to cut a chunk of n bytes after an allocation of m bytes? */
  predicate Splits(n: int, m: nat) { n - m >= SENTINEL }

  /** Use the free chunk at position i for m bytes, splitting off the rest. Its
      address has already left its bucket. */
  function Carve(h: Heap, i: nat, m: nat): Heap
    requires i + 1 < |h.cs|
  {
    var a, n := h.cs[i].addr, Size(h.cs, i);
    if Splits(n, m) then
      var rest := a + m + HEADER;
      h.(cs := Replace(h.cs, i, i + 1, [Chunk(a, true), Chunk(rest, false)]),
         buckets := PushFree(h.buckets, Bucket(n - m - HEADER), rest),
         memFree := h.memFree - n + (n - m - HEADER), memMeta := h.memMeta + HEADER, memUsed := h.memUsed + m)
    else
      h.(cs := h.cs[i := Chunk(a, true)], memFree := h.memFree - n, memUsed := h.memUsed + n)
  }

  /** Take the head of bucket j and carve m bytes out of it. */
  function Take(h: Heap, j: nat, m: nat): Heap
    requires j < |h.buckets| && h.buckets[j] != []
  {
    var i := IndexOf(h.cs, h.buckets[j][0]);
    if i + 1 < |h.cs| then Carve(h.(buckets := h.buckets[j := h.buckets[j][1..]]), i, m) else h
  }

  /** create_chunk on a fresh page at address p. */
  function FreshPage(p: nat): seq<Chunk> {
    [Chunk(p, true), Chunk(p + SENTINEL, false), Chunk(p + PAGE - SENTINEL, true)]
  }

  const WHOLE: nat := PAGE - 2 * SENTINEL - HEADER

  function AddPage(h: Heap, p: nat): Heap {
    h.(cs := h.cs + FreshPage(p), buckets := PushFree(h.buckets, Bucket(WHOLE), p + SENTINEL),
       memMeta := h.memMeta + 2 * SENTINEL + HEADER, memFree := h.memFree + WHOLE)
  }

  function EmptyHeap(): Heap {
    Heap([], seq(NUM_SIZES, _ => []), 0, 0, 0, [])
  }

  datatype Outcome = Null | OutOfPages | HeapPanic | Ptr(h: Heap, pmm: Buddy, p: nat)

  function Addr(i: nat): nat { KERNEL_BASE + PAGE * i }

  function PageIndex(a: nat): nat { if a < KERNEL_BASE then 0 else (a - KERNEL_BASE) / PAGE }

  /** The order of pages a request of n bytes needs. */
  function PageOrder(n: nat): int
    requires n >= 2
  {
    Log2(n - 1) + 1 - 12
  }

  function AllocBig(z: Zone, h: Heap, pmm: Buddy, n: nat): Outcome
    requires n >= PAGE
  {
    var k := PageOrder(n);
    if k < 0 then HeapPanic else
    match Alloc(z, pmm, k)
    case Panic => OutOfPages
    case Got(pmm', i) => Ptr(h.(memUsed := h.memUsed + PAGE * Pow2(k), big := [Big(Addr(i), k)] + h.big), pmm', Addr(i))
  }

  function AllocSmall(z: Zone, h: Heap, pmm: Buddy, m: nat, order: nat): Outcome {
    var j := FirstBucket(h.buckets, order);
    if j < |h.buckets| && h.buckets[j] != [] then Ptr(Take(h, j, m), pmm, h.buckets[j][0] + HEADER)
    else
      match Alloc(z, pmm, 0)
      case Panic => OutOfPages
      case Got(pmm', i) =>
        var h1 := AddPage(h, Addr(i));
        var j1 := FirstBucket(h1.buckets, order);
        if j1 < |h1.buckets| && h1.buckets[j1] != [] then Ptr(Take(h1, j1, m), pmm', h1.buckets[j1][0] + HEADER)
        else HeapPanic
  }

  function Kmalloc(z: Zone, h: Heap, pmm: Buddy, size: nat): Outcome {
    if size == 0 then Null else
    var n := if size < MIN_SIZE then MIN_SIZE else size;
    if n >= PAGE then AllocBig(z, h, pmm, n)
    else
      var m := AlignUp4(n);
      var order := AllocOrder(m);
      if order >= NUM_SIZES then Null else if order < 0 then HeapPanic else AllocSmall(z, h, pmm, m, order)
  }

  function RemoveBig(big: seq<Big>, p: nat): seq<Big> {
    if big == [] then [] else if big[0].ptr == p then big[1..] else [big[0]] + RemoveBig(big[1..], p)
  }

  datatype System = System(h: Heap, pmm: Buddy)

  /** pmm_free; no entry of the page map holds an order above the maximum. */
  function PmmFree(z: Zone, pmm: Buddy, i: nat): Buddy {
    if At(z, pmm.pages, i).order <= MAX_ORDER then Dealloc(z, pmm, i) else pmm
  }

  function FreeBig(z: Zone, h: Heap, pmm: Buddy, p: nat): System {
    var k := At(z, pmm.pages, PageIndex(p)).order;
    System(h.(memUsed := h.memUsed - PAGE * Pow2(k), big := RemoveBig(h.big, p)), PmmFree(z, pmm, PageIndex(p)))
  }

  predicate NextFree(cs: seq<Chunk>, i: nat) { i + 2 < |cs| && !cs[i + 1].used }
  predicate PrevFree(cs: seq<Chunk>, i: nat) { 0 < i < |cs| && !cs[i - 1].used }

  /** A freed chunk at i merges over the positions from lo up to, not including, hi. */
  function MergeLo(cs: seq<Chunk>, i: nat): nat { if PrevFree(cs, i) then i - 1 else i }
  function MergeHi(cs: seq<Chunk>, i: nat): nat { if NextFree(cs, i) then i + 2 else i + 1 }

  /** The buckets once the free neighbours of position i are out of them. */
  function DropNeighbours(h: Heap, i: nat): seq<seq<nat>>
    requires 0 < i < |h.cs| - 1
  {
    var b1 := if NextFree(h.cs, i) then DropFree(h.buckets, Bucket(Size(h.cs, i + 1)), h.cs[i + 1].addr) else h.buckets;
    if PrevFree(h.cs, i) then DropFree(b1, Bucket(Size(h.cs, i - 1)), h.cs[i - 1].addr) else b1
  }

  /** The free bytes and the headers that those neighbours accounted for. */
  function MergedBytes(cs: seq<Chunk>, i: nat): int
    requires 0 < i < |cs| - 1
  {
    (if NextFree(cs, i) then Size(cs, i + 1) else 0) + (if PrevFree(cs, i) then Size(cs, i - 1) else 0)
  }

  function MergedHeaders(cs: seq<Chunk>, i: nat): nat {
    (if NextFree(cs, i) then HEADER else 0) + (if PrevFree(cs, i) then HEADER else 0)
  }

  /** The heap with chunk i and its free neighbours in hand: in no bucket and in
      no counter, but still on the list. */
  function Lift(h: Heap, i: nat): Heap
    requires 0 < i < |h.cs| - 1
  {
    h.(buckets := DropNeighbours(h, i), memUsed := h.memUsed - Size(h.cs, i),
       memFree := h.memFree - MergedBytes(h.cs, i), memMeta := h.memMeta - MergedHeaders(h.cs, i))
  }

  /** Does the merged chunk fill a page other than the first? */
  predicate PageDone(cs: seq<Chunk>, lo: nat, hi: nat) {
    1 < lo < hi < |cs| && Gap(cs[lo], cs[hi]) == WHOLE
  }

  /** Free the chunk at position i: merge it with its free neighbours, then give
      its page back or put the merged chunk in its bucket. */
  function FreeChunk(z: Zone, h: Heap, pmm: Buddy, i: nat): System
    requires 0 < i < |h.cs| - 1
  {
    var cs, lo, hi, h1 := h.cs, MergeLo(h.cs, i), MergeHi(h.cs, i), Lift(h, i);
    var a, n := cs[lo].addr, Gap(cs[lo], cs[hi]);
    if PageDone(cs, lo, hi) then
      System(h1.(cs := Replace(cs, lo - 1, hi + 1, []), memMeta := h1.memMeta - 2 * SENTINEL - HEADER),
             PmmFree(z, pmm, PageIndex(cs[lo - 1].addr)))
    else
      System(h1.(cs := Replace(cs, lo, hi, [Chunk(a, false)]), buckets := PushFree(h1.buckets, Bucket(n), a),
                 memFree := h1.memFree + n), pmm)
  }

  /** get_chunk_offset: the chunk whose payload starts at p. */
  function HeaderOf(p: nat): nat { if p < HEADER then 0 else p - HEADER }

  /** kfree of pointer p. */
  function Kfree(z: Zone, h: Heap, pmm: Buddy, p: nat): System {
    if Offset(p) == 0 then FreeBig(z, h, pmm, p)
    else
      var i := IndexOf(h.cs, HeaderOf(p));
      if 0 < i < |h.cs| - 1 then FreeChunk(z, h, pmm, i) else System(h, pmm)
  }
}
