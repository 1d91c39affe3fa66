/** Carving an allocation out of a free chunk, and adding a page. */
module HeapAlloc {
  import opened Bits
  import opened NodeList
  import opened HeapModel
  import opened HeapLists

  lemma ReplaceDistinct(cs: seq<Chunk>, lo: nat, hi: nat, mid: seq<Chunk>)
    requires Distinct(cs) && lo <= hi <= |cs| && Distinct(mid)
    requires forall j, k :: 0 <= j < |mid| && 0 <= k < |cs| && !(lo <= k < hi) ==> mid[j].addr != cs[k].addr
    ensures Distinct(Replace(cs, lo, hi, mid))
  {
    var cs' := Replace(cs, lo, hi, mid);
    forall i, j | 0 <= i < j < |cs'|
      ensures cs'[i].addr != cs'[j].addr
    {
      var d := hi - lo - |mid|;
      if j < lo {
      } else if j < lo + |mid| {
        if i < lo { assert mid[j - lo].addr != cs[i].addr; }
      } else {
        assert cs'[j] == cs[j + d];
        if i < lo {
        } else if i < lo + |mid| {
          assert mid[i - lo].addr != cs[j + d].addr;
        } else {
          assert cs'[i] == cs[i + d];
        }
      }
    }
  }

  lemma FreeIsMid(cs: seq<Chunk>, i: nat)
    requires ChunksOk(cs) && i < |cs| && !cs[i].used
    ensures 0 < i < |cs| - 1 && IsMid(cs[i].addr)
    ensures cs[i - 1].used && cs[i + 1].used
    ensures cs[i - 1].addr / PAGE == cs[i].addr / PAGE == cs[i + 1].addr / PAGE
    ensures cs[i].addr % 4 == 0 && Size(cs, i) % 4 == 0 && MIN_SIZE <= Size(cs, i) <= WHOLE
  {
    hide Link, IsFirst, IsLast, IsMid, Distinct;
    assert i + 1 < |cs| && Link(cs[i], cs[i + 1]);
    assert Link(cs[i - 1], cs[i]);
    FreeLink(cs[i], cs[i + 1]);
    LinkToFree(cs[i - 1], cs[i]);
  }

  lemma FreeLink(c: Chunk, d: Chunk)
    requires Link(c, d) && !c.used
    ensures IsMid(c.addr) && d.used && d.addr / PAGE == c.addr / PAGE
    ensures c.addr % 4 == 0 && Gap(c, d) % 4 == 0 && MIN_SIZE <= Gap(c, d) <= WHOLE
  {
    hide Offset;
    SamePage(c.addr, c.addr, d.addr);
    GapAligned(c, d);
  }

  lemma GapAligned(c: Chunk, d: Chunk)
    requires c.addr % 4 == 0 && d.addr % 4 == 0
    ensures Gap(c, d) % 4 == 0
  {
  }

  lemma LinkToFree(c: Chunk, d: Chunk)
    requires Link(c, d) && !d.used
    ensures c.used && c.addr / PAGE == d.addr / PAGE
  {
  }

  /** Every chunk has a bucket, and the whole page is the largest. */
  lemma BucketRange(n: int)
    requires MIN_SIZE <= n <= WHOLE
    ensures 0 <= Bucket(n) < NUM_SIZES
  {
    assert Pow2(3) == 8;
    assert Pow2(12) == 4096 by { assert Pow2(6) == 64; assert Pow2(9) == 512; }
    Log2Below(n, 3);
    Log2Below(n, 12);
  }

  /** A chunk in any bucket at or above the rounded-up order is large enough. */
  lemma BucketFits(m: nat, n: int)
    requires m >= 2 && n >= 1 && Bucket(n) >= AllocOrder(m)
    ensures n >= m
  {
    Log2Facts(m - 1);
    Log2Facts(n);
    Pow2Mono(Log2(m - 1) + 1, Log2(n));
  }

  ghost function CarveMid(a: nat, n: int, m: nat): seq<Chunk> {
    if Splits(n, m) then [Chunk(a, true), Chunk(a + m + HEADER, false)] else [Chunk(a, true)]
  }

  /** Every page but the first, and but the one whose only chunk is at i, has a
      chunk in use. */
  ghost predicate NoEmptyBut(cs: seq<Chunk>, i: nat) {
    forall p :: 0 < p < |cs| - 2 && IsFirst(cs[p].addr) && IsLast(cs[p + 2].addr) && p + 1 != i ==> cs[p + 1].used
  }

  ghost predicate Carvable(cs: seq<Chunk>, i: nat, m: nat) {
    && ChunksOk(cs) && NoEmptyBut(cs, i)
    && 0 <= i < |cs| - 1 && !cs[i].used
    && m % 4 == 0 && MIN_SIZE <= m <= Size(cs, i)
  }

  ghost function Carved(cs: seq<Chunk>, i: nat, m: nat): seq<Chunk>
    requires i + 1 < |cs|
  {
    Replace(cs, i, i + 1, CarveMid(cs[i].addr, Size(cs, i), m))
  }

  lemma CarveLinked(cs: seq<Chunk>, i: nat, m: nat)
    requires Carvable(cs, i, m)
    ensures Stretch(cs, i, i + 1, CarveMid(cs[i].addr, Size(cs, i), m))
    ensures Linked(Carved(cs, i, m))
  {
    FreeIsMid(cs, i);
    var mid := CarveMid(cs[i].addr, Size(cs, i), m);
    assert Link(cs[i], cs[i + 1]) && Link(cs[i - 1], cs[i]);
    CarveLinks(cs[i], cs[i + 1], m);
    assert Link(cs[i - 1], mid[0]);
    ReplaceLinked(cs, i, i + 1, mid);
  }

  lemma SamePage(a: nat, r: nat, b: nat)
    requires a / PAGE == b / PAGE && a <= r <= b
    ensures r / PAGE == a / PAGE && Offset(r) == Offset(a) + (r - a) && Offset(b) == Offset(a) + (b - a)
  {
    var q := a / PAGE;
    assert q * PAGE <= a <= r <= b < q * PAGE + PAGE;
  }

  lemma AddAligned(a: nat, m: nat)
    requires a % 4 == 0 && m % 4 == 0
    ensures (a + m + HEADER) % 4 == 0
  {
  }

  lemma CarveLinks(c: Chunk, d: Chunk, m: nat)
    requires Link(c, d) && !c.used && IsMid(c.addr) && m % 4 == 0 && MIN_SIZE <= m <= Gap(c, d)
    ensures Linked(CarveMid(c.addr, Gap(c, d), m) + [d])
  {
    hide Offset;
    if Splits(Gap(c, d), m) {
      var r := Chunk(c.addr + m + HEADER, false);
      SamePage(c.addr, r.addr, d.addr);
      AddAligned(c.addr, m);
      assert Link(Chunk(c.addr, true), r) && Link(r, d);
    } else {
      assert Link(Chunk(c.addr, true), d);
    }
  }

  lemma CarveDistinct(cs: seq<Chunk>, i: nat, m: nat)
    requires Carvable(cs, i, m)
    ensures Distinct(Carved(cs, i, m))
  {
    FreeIsMid(cs, i);
    var mid, r := CarveMid(cs[i].addr, Size(cs, i), m), cs[i].addr + m + HEADER;
    assert Link(cs[i], cs[i + 1]);
    forall j, k | 0 <= j < |mid| && 0 <= k < |cs| && !(i <= k < i + 1)
      ensures mid[j].addr != cs[k].addr
    {
      ChunksApart(cs, i, k);
      EndInPage(cs, k);
    }
    ReplaceDistinct(cs, i, i + 1, mid);
  }

  lemma CarveNoEmpty(cs: seq<Chunk>, i: nat, m: nat)
    requires Carvable(cs, i, m)
    ensures NoEmptyPage(Carved(cs, i, m))
  {
    FreeIsMid(cs, i);
    var cs' := Carved(cs, i, m);
    var d := |cs'| - |cs|;
    CarveLinked(cs, i, m);
    forall p | 0 < p < |cs'| - 2 && IsFirst(cs'[p].addr) && IsLast(cs'[p + 2].addr)
      ensures cs'[p + 1].used
    {
      if p + 2 < i {
        assert IsFirst(cs[p].addr) && IsLast(cs[p + 2].addr);
      } else if p > i + d {
        assert cs'[p] == cs[p - d] && cs'[p + 1] == cs[p - d + 1] && cs'[p + 2] == cs[p - d + 2];
      } else if Splits(Size(cs, i), m) {
        assert cs'[i] == Chunk(cs[i].addr, true) && IsMid(cs'[i + 1].addr);
      }
    }
  }

  /** What carving does to the chunks in use and to the free chunks. */
  lemma CarveCells(cs: seq<Chunk>, i: nat, m: nat)
    requires Carvable(cs, i, m)
    ensures var a, n := cs[i].addr, Size(cs, i);
      && NoneAt(Outside(cs, false, i, i + 1), a) && NoneAt(Cells(cs, true), a)
      && Cells(cs, false) == Outside(cs, false, i, i + 1) + {(a, n)}
      && Cells(Carved(cs, i, m), true) == Cells(cs, true) + {(a, if Splits(n, m) then m else n)}
      && Cells(Carved(cs, i, m), false) ==
           Outside(cs, false, i, i + 1) + (if Splits(n, m) then {(a + m + HEADER, n - m - HEADER)} else {})
  {
    hide Cells, Outside, Linked, Distinct, NoEmptyBut, NoneAt, CarveMid;
    FreeIsMid(cs, i);
    CarveLinked(cs, i, m);
    var a, n, d := cs[i].addr, Size(cs, i), cs[i + 1];
    var mid := CarveMid(a, n, m);
    ReplaceCells(cs, true, i, i + 1, mid);
    ReplaceCells(cs, false, i, i + 1, mid);
    OutsideApart(cs, true, i, i + 1, i);
    OutsideApart(cs, false, i, i + 1, i);
    OneCell(cs[i], d);
    assert cs[i..i + 2] == [cs[i], d];
    if Splits(n, m) { SplitMidAt(cs, i, m); }
    MidCells(a, n, m, d);
    assert Outside(cs, true, i, i + 1) + {} == Outside(cs, true, i, i + 1);
  }

  lemma OneCell(c: Chunk, d: Chunk)
    requires IsMid(c.addr) && !c.used
    ensures Cells([c, d], false) == {(c.addr, Gap(c, d))} && Cells([c, d], true) == {}
  {
    var xs := [c, d];
    assert xs[0] == c && xs[1] == d;
  }

  lemma MidCells(a: nat, n: int, m: nat, d: Chunk)
    requires IsMid(a) && d.addr == a + n + HEADER && a / PAGE == d.addr / PAGE && m <= n
    requires Splits(n, m) ==> IsMid(a + m + HEADER)
    ensures Cells(CarveMid(a, n, m) + [d], true) == {(a, if Splits(n, m) then m else n)}
    ensures Cells(CarveMid(a, n, m) + [d], false) == if Splits(n, m) then {(a + m + HEADER, n - m - HEADER)} else {}
  {
    var xs := CarveMid(a, n, m) + [d];
    assert xs[0] == Chunk(a, true);
    if Splits(n, m) {
      assert xs[1] == Chunk(a + m + HEADER, false) && xs[2] == d;
    } else {
      assert xs[1] == d;
    }
  }

  lemma CarveTotals(cs: seq<Chunk>, i: nat, m: nat)
    requires Carvable(cs, i, m)
    ensures var n, cs', s := Size(cs, i), Carved(cs, i, m), Splits(Size(cs, i), m);
      && Total(InFree, cs') == Total(InFree, cs) - n + (if s then n - m - HEADER else 0)
      && Total(InUse, cs') == Total(InUse, cs) + (if s then m else n)
      && Total(InMeta, cs') == Total(InMeta, cs) + (if s then HEADER else 0)
  {
    FreeIsMid(cs, i);
    CarveLinked(cs, i, m);
    var mid := CarveMid(cs[i].addr, Size(cs, i), m);
    ReplaceTotal(InFree, cs, i, i + 1, mid);
    ReplaceTotal(InUse, cs, i, i + 1, mid);
    ReplaceTotal(InMeta, cs, i, i + 1, mid);
    assert cs[i..i + 2] == [cs[i], cs[i + 1]];
    PairTotals(cs[i], cs[i + 1]);
    if Splits(Size(cs, i), m) {
      assert mid + [cs[i + 1]] == [mid[0], mid[1], cs[i + 1]];
      SplitMid(cs[i], cs[i + 1], m);
      TripleTotals(mid[0], mid[1], cs[i + 1]);
    } else {
      PairTotals(mid[0], cs[i + 1]);
      assert mid + [cs[i + 1]] == [mid[0], cs[i + 1]];
    }
  }

  lemma SplitMid(c: Chunk, d: Chunk, m: nat)
    requires Link(c, d) && !c.used && IsMid(c.addr) && Splits(Gap(c, d), m)
    ensures IsMid(c.addr + m + HEADER)
  {
    hide Offset;
    SamePage(c.addr, c.addr + m + HEADER, d.addr);
  }

  lemma SplitMidAt(cs: seq<Chunk>, i: nat, m: nat)
    requires Carvable(cs, i, m) && Splits(Size(cs, i), m)
    ensures IsMid(cs[i].addr + m + HEADER)
  {
    FreeIsMid(cs, i);
    assert Link(cs[i], cs[i + 1]);
    SplitMid(cs[i], cs[i + 1], m);
  }

  lemma PairTotals(c: Chunk, d: Chunk)
    ensures forall k :: Total(k, [c, d]) == PartOf(k, c, d)
  {
    assert [c, d][1..] == [d];
  }

  lemma TripleTotals(c: Chunk, d: Chunk, e: Chunk)
    ensures forall k :: Total(k, [c, d, e]) == PartOf(k, c, d) + PartOf(k, d, e)
  {
    assert [c, d, e][1..] == [d, e];
    PairTotals(d, e);
  }

  // ------------------------------------------------------------- the calls

  /** Carving keeps the heap well formed and hands out exactly one new chunk. */
  lemma CarveOk(h: Heap, i: nat, m: nat)
    requires Carvable(h.cs, i, m) && CountersOk(h)
    requires BucketsOk(Outside(h.cs, false, i, i + 1), h.buckets)
    ensures HeapOk(Carve(h, i, m)) && Carve(h, i, m).cs == Carved(h.cs, i, m)
  {
    hide Linked, Distinct, NoEmptyPage, NoEmptyBut, Cells, Outside, BucketsOk, Total, Bucket, NoneAt;
    var cs, a, n := h.cs, h.cs[i].addr, Size(h.cs, i);
    CarveLinked(cs, i, m);
    CarveDistinct(cs, i, m);
    CarveNoEmpty(cs, i, m);
    CarveCells(cs, i, m);
    CarveTotals(cs, i, m);
    FreeIsMid(cs, i);
    CarveEnds(cs, i, m);
    if Splits(n, m) {
      BucketRange(n - m - HEADER);
      NewIsNew(cs, i, m);
      PushOk(Outside(cs, false, i, i + 1), h.buckets, a + m + HEADER, n - m - HEADER);
    } else {
      assert Carved(cs, i, m) == cs[i := Chunk(a, true)];
      assert Outside(cs, false, i, i + 1) + {} == Outside(cs, false, i, i + 1);
    }
  }

  lemma CarveEnds(cs: seq<Chunk>, i: nat, m: nat)
    requires Carvable(cs, i, m)
    ensures var cs' := Carved(cs, i, m); |cs'| >= 3 && cs'[0] == cs[0] && cs'[|cs'| - 1] == cs[|cs| - 1]
  {
    FreeIsMid(cs, i);
  }

  lemma NewIsNew(cs: seq<Chunk>, i: nat, m: nat)
    requires Carvable(cs, i, m) && Splits(Size(cs, i), m)
    ensures NoneAt(Outside(cs, false, i, i + 1), cs[i].addr + m + HEADER)
  {
    var cs' := Carved(cs, i, m);
    CarveDistinct(cs, i, m);
    CarveLinked(cs, i, m);
    FreeIsMid(cs, i);
    hide Linked, NoEmptyPage, NoEmptyBut, Cells, NoneAt;
    assert cs'[i + 1] == Chunk(cs[i].addr + m + HEADER, false);
    OutsideApart(cs', false, i, i + 2, i + 1);
    assert cs'[..i + 1] == cs[..i] + [Chunk(cs[i].addr, true)] && cs[..i + 1] == cs[..i] + [cs[i]];
    CellsEnd(cs[..i], false, Chunk(cs[i].addr, true), cs[i]);
    assert cs'[i + 2..] == cs[i + 1..];
  }

  // ------------------------------------------------- taking from a bucket

  lemma HeadCell(h: Heap, j: nat) returns (i: nat)
    requires HeapBase(h) && j < NUM_SIZES && h.buckets[j] != []
    ensures i == IndexOf(h.cs, h.buckets[j][0])
    ensures 0 < i < |h.cs| - 1 && h.cs[i] == Chunk(h.buckets[j][0], false) && Bucket(Size(h.cs, i)) == j
  {
    var a := h.buckets[j][0];
    assert a in h.buckets[j];
    assert Belongs(Cells(h.cs, false), a, j);
    var n :| (a, n) in Cells(h.cs, false) && Bucket(n) == j;
    i :| 0 <= i < |h.cs| - 1 && h.cs[i] == Chunk(a, false) && Gap(h.cs[i], h.cs[i + 1]) == n;
    IndexOfIs(h.cs, i);
    FreeIsMid(h.cs, i);
  }

  lemma HeadDropped(h: Heap, j: nat, i: nat)
    requires HeapBase(h) && j < NUM_SIZES && h.buckets[j] != []
    requires 0 < i < |h.cs| - 1 && h.cs[i] == Chunk(h.buckets[j][0], false) && Bucket(Size(h.cs, i)) == j
    ensures BucketsOk(Outside(h.cs, false, i, i + 1), h.buckets[j := h.buckets[j][1..]])
  {
    hide Cells, Outside, Linked, Belongs, Bucket, NoneAt, Total;
    var a, n := h.cs[i].addr, Size(h.cs, i);
    FreeIsMid(h.cs, i);
    assert h.cs[i..i + 2] == [h.cs[i], h.cs[i + 1]];
    OneCell(h.cs[i], h.cs[i + 1]);
    ReplaceCells(h.cs, false, i, i + 1, [h.cs[i]]);
    OutsideApart(h.cs, false, i, i + 1, i);
    DropOk(Outside(h.cs, false, i, i + 1), h.buckets, a, n);
    assert Without(h.buckets[j], a) == h.buckets[j][1..];
  }

  /** The first chunk of any bucket at or above the rounded-up order serves the
      request: it is large enough, and what is cut off has a bucket of its own. */
  lemma TakeOk(h: Heap, j: nat, m: nat) returns (i: nat)
    requires HeapBase(h) && j < NUM_SIZES && h.buckets[j] != []
    requires m % 4 == 0 && m >= MIN_SIZE && AllocOrder(m) <= j
    requires NoEmptyBut(h.cs, IndexOf(h.cs, h.buckets[j][0]))
    ensures Carvable(h.cs, i, m) && h.cs[i].addr == h.buckets[j][0]
    ensures HeapOk(Take(h, j, m)) && Take(h, j, m).cs == Carved(h.cs, i, m) && Take(h, j, m).big == h.big
  {
    i := HeadCell(h, j);
    FreeIsMid(h.cs, i);
    BucketFits(m, Size(h.cs, i));
    HeadDropped(h, j, i);
    hide Cells, Outside, Linked, Distinct, BucketsOk, Bucket, NoEmptyBut, NoEmptyPage, Total;
    CarveOk(h.(buckets := h.buckets[j := h.buckets[j][1..]]), i, m);
  }

  // ---------------------------------------------------------- a new page

  lemma FreshCells(l: Chunk, p: nat)
    requires IsLast(l.addr) && p % PAGE == 0
    ensures var xs := [l] + FreshPage(p);
      && Cells(xs, false) == {(p + SENTINEL, WHOLE as int)} && Cells(xs, true) == {}
      && Total(InFree, xs) == WHOLE && Total(InUse, xs) == 0 && Total(InMeta, xs) == 2 * SENTINEL + HEADER
  {
    var xs := [l] + FreshPage(p);
    var f, m, e := xs[1], xs[2], xs[3];
    assert IsMid(m.addr) && !IsMid(f.addr) && !IsMid(l.addr);
    assert Gap(m, e) == WHOLE;
    assert xs == [l, f, m, e] && xs[1..] == [f, m, e];
    TripleTotals(f, m, e);
  }

  lemma AddPageLinked(h: Heap, p: nat)
    requires ChunksOk(h.cs) && p % PAGE == 0
    requires forall k :: 0 <= k < |h.cs| ==> h.cs[k].addr / PAGE != p / PAGE
    ensures ChunksOk(h.cs + FreshPage(p))
  {
    var cs, f := h.cs, FreshPage(p);
    var cs' := cs + f;
    FreshLinks(p);
    forall i | 0 <= i < |cs'| - 1
      ensures Link(cs'[i], cs'[i + 1])
    {
      if i + 1 < |cs| {
        assert Link(cs[i], cs[i + 1]);
      } else if i + 1 == |cs| {
        assert Link(cs[|cs| - 2], cs[|cs| - 1]);
      } else {
        assert cs'[i] == f[i - |cs|] && cs'[i + 1] == f[i + 1 - |cs|];
      }
    }
    forall i, j | 0 <= i < j < |cs'|
      ensures cs'[i].addr != cs'[j].addr
    {
    }
  }

  lemma FreshLinks(p: nat)
    requires p % PAGE == 0
    ensures var f := FreshPage(p);
      && Link(f[0], f[1]) && Link(f[1], f[2])
      && f[0].addr / PAGE == f[1].addr / PAGE == f[2].addr / PAGE == p / PAGE
  {
    AtOffset(p, 0);
    AtOffset(p, SENTINEL);
    AtOffset(p, PAGE - SENTINEL);
  }

  lemma AtOffset(p: nat, o: nat)
    requires p % PAGE == 0 && o < PAGE && o % 4 == 0
    ensures (p + o) / PAGE == p / PAGE && Offset(p + o) == o && (p + o) % 4 == 0
  {
    assert p == p / PAGE * PAGE;
  }

  /** A fresh page adds one free chunk, which is alone on its page. */
  lemma AddPageOk(h: Heap, p: nat)
    requires HeapOk(h) && p % PAGE == 0
    requires forall k :: 0 <= k < |h.cs| ==> h.cs[k].addr / PAGE != p / PAGE
    ensures HeapBase(AddPage(h, p)) && NoEmptyBut(AddPage(h, p).cs, |h.cs| + 1)
    ensures Cells(AddPage(h, p).cs, true) == Cells(h.cs, true)
    ensures Bucket(WHOLE) == NUM_SIZES - 1
  {
    hide Cells, BucketsOk, Bucket, Total, NoneAt, Link, Linked, NoEmptyPage, NoEmptyBut;
    var cs := h.cs;
    AddPageLinked(h, p);
    AddPageSums(cs, p);
    WholeBucket();
    NotYet(cs, p + SENTINEL) by { FreshLinks(p); }
    PushOk(Cells(cs, false), h.buckets, p + SENTINEL, WHOLE);
    AddPageNoEmpty(cs, p);
  }

  lemma AddPageSums(cs: seq<Chunk>, p: nat)
    requires cs != [] && IsLast(cs[|cs| - 1].addr) && p % PAGE == 0
    ensures var cs' := cs + FreshPage(p);
      && Cells(cs', true) == Cells(cs, true) && Cells(cs', false) == Cells(cs, false) + {(p + SENTINEL, WHOLE as int)}
      && Total(InFree, cs') == Total(InFree, cs) + WHOLE && Total(InUse, cs') == Total(InUse, cs)
      && Total(InMeta, cs') == Total(InMeta, cs) + 2 * SENTINEL + HEADER
  {
    hide Cells, Total;
    var cs', l := cs + FreshPage(p), cs[|cs| - 1];
    assert cs'[..|cs|] == cs && cs'[|cs| - 1..] == [l] + FreshPage(p);
    CellsSplit(cs', true, |cs| - 1);
    CellsSplit(cs', false, |cs| - 1);
    TotalSplit(InFree, cs', |cs| - 1);
    TotalSplit(InUse, cs', |cs| - 1);
    TotalSplit(InMeta, cs', |cs| - 1);
    FreshCells(l, p);
  }

  lemma AddPageNoEmpty(cs: seq<Chunk>, p: nat)
    requires ChunksOk(cs) && NoEmptyPage(cs)
    ensures NoEmptyBut(cs + FreshPage(p), |cs| + 1)
  {
    var cs' := cs + FreshPage(p);
    forall i | 0 < i < |cs'| - 2 && IsFirst(cs'[i].addr) && IsLast(cs'[i + 2].addr) && i + 1 != |cs| + 1
      ensures cs'[i + 1].used
    {
      if i + 2 < |cs| {
        assert cs'[i] == cs[i] && cs'[i + 2] == cs[i + 2];
      }
    }
  }

  lemma WholeBucket()
    ensures Bucket(WHOLE) == NUM_SIZES - 1
  {
    assert Pow2(11) == 2048 by { assert Pow2(5) == 32; assert Pow2(8) == 256; }
    assert Pow2(12) == 4096;
    Log2Below(WHOLE, 11);
    Log2Below(WHOLE, 12);
  }

  lemma NotYet(cs: seq<Chunk>, a: nat)
    requires forall k :: 0 <= k < |cs| ==> cs[k].addr != a
    ensures NoneAt(Cells(cs, false), a)
  {
  }
}
