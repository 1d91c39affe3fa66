/** Freeing a chunk: merging with free neighbours and giving back empty pages. */
module HeapFree {
  import opened Bits
  import opened HeapModel
  import opened HeapLists
  import opened HeapAlloc

  /** Chunk i is in use and is not a sentinel. */
  ghost predicate Freeable(cs: seq<Chunk>, i: nat) {
    ChunksOk(cs) && i < |cs| && cs[i].used && IsMid(cs[i].addr)
  }

  /** The chunk before chunk i: used, or the free chunk it merges with. */
  lemma BeforeFacts(cs: seq<Chunk>, i: nat)
    requires Freeable(cs, i)
    ensures 0 < i && cs[i].addr % 4 == 0
    ensures var lo := MergeLo(cs, i);
      && 1 <= lo <= i && cs[lo - 1].used
      && IsMid(cs[lo].addr) && cs[lo].addr % 4 == 0 && cs[lo].addr <= cs[i].addr
      && cs[lo - 1].addr / PAGE == cs[lo].addr / PAGE == cs[i].addr / PAGE
      && (PrevFree(cs, i) ==> IsMid(cs[i - 1].addr))
  {
    assert 0 < i;
    assert Link(cs[i - 1], cs[i]);
    if PrevFree(cs, i) { FreeIsMid(cs, i - 1); assert Link(cs[i - 2], cs[i - 1]); }
  }

  lemma AfterFacts(cs: seq<Chunk>, i: nat)
    requires Freeable(cs, i)
    ensures i + 1 < |cs|
    ensures var hi := MergeHi(cs, i);
      && i < hi < |cs| && cs[hi].used
      && cs[i].addr / PAGE == cs[hi].addr / PAGE
      && cs[i].addr + SENTINEL <= cs[hi].addr && cs[hi].addr % 4 == 0
      && (IsMid(cs[hi].addr) || IsLast(cs[hi].addr))
      && (NextFree(cs, i) ==> IsMid(cs[i + 1].addr))
      && (!NextFree(cs, i) ==> cs[i + 1].used)
  {
    assert i + 1 < |cs|;
    assert Link(cs[i], cs[i + 1]);
    if !cs[i + 1].used { FreeIsMid(cs, i + 1); assert Link(cs[i + 1], cs[i + 2]); }
  }

  lemma MergeFacts(cs: seq<Chunk>, i: nat)
    requires Freeable(cs, i)
    ensures 0 < i < |cs| - 1
    ensures var lo, hi := MergeLo(cs, i), MergeHi(cs, i);
      && 1 <= lo <= i < hi < |cs| && cs[lo - 1].used && cs[hi].used
      && IsMid(cs[lo].addr) && cs[lo].addr % 4 == 0
      && cs[lo - 1].addr / PAGE == cs[lo].addr / PAGE == cs[i].addr / PAGE == cs[hi].addr / PAGE
      && cs[lo].addr + SENTINEL <= cs[hi].addr && cs[hi].addr % 4 == 0
      && (IsMid(cs[hi].addr) || IsLast(cs[hi].addr))
      && (PrevFree(cs, i) ==> IsMid(cs[i - 1].addr)) && (NextFree(cs, i) ==> IsMid(cs[i + 1].addr))
      && (!NextFree(cs, i) ==> cs[i + 1].used)
  {
    hide Linked, Distinct;
    BeforeFacts(cs, i);
    AfterFacts(cs, i);
  }

  // ------------------------------------------------- the stretch in hand

  lemma QuadTotals(c: Chunk, d: Chunk, e: Chunk, f: Chunk)
    ensures forall k :: Total(k, [c, d, e, f]) == PartOf(k, c, d) + PartOf(k, d, e) + PartOf(k, e, f)
  {
    assert [c, d, e, f][1..] == [d, e, f];
    TripleTotals(d, e, f);
  }

  /** What the freed chunk and its free neighbours add to the counters. */
  lemma StretchTotals(cs: seq<Chunk>, i: nat)
    requires Freeable(cs, i)
    ensures 0 < i < |cs| - 1
    ensures var lo, hi := MergeLo(cs, i), MergeHi(cs, i);
      && 0 <= lo < hi < |cs|
      && Total(InUse, cs[lo..hi + 1]) == Size(cs, i)
      && Total(InFree, cs[lo..hi + 1]) == MergedBytes(cs, i)
      && Total(InMeta, cs[lo..hi + 1]) == HEADER + MergedHeaders(cs, i)
      && Gap(cs[lo], cs[hi]) == Size(cs, i) + MergedBytes(cs, i) + MergedHeaders(cs, i)
  {
    MergeFacts(cs, i);
    hide Linked, Distinct, Total, Link;
    var lo, hi := MergeLo(cs, i), MergeHi(cs, i);
    if PrevFree(cs, i) && NextFree(cs, i) {
      assert cs[lo..hi + 1] == [cs[i - 1], cs[i], cs[i + 1], cs[i + 2]];
      QuadTotals(cs[i - 1], cs[i], cs[i + 1], cs[i + 2]);
    } else if PrevFree(cs, i) {
      assert cs[lo..hi + 1] == [cs[i - 1], cs[i], cs[i + 1]];
      TripleTotals(cs[i - 1], cs[i], cs[i + 1]);
    } else if NextFree(cs, i) {
      assert cs[lo..hi + 1] == [cs[i], cs[i + 1], cs[i + 2]];
      TripleTotals(cs[i], cs[i + 1], cs[i + 2]);
    } else {
      assert cs[lo..hi + 1] == [cs[i], cs[i + 1]];
      PairTotals(cs[i], cs[i + 1]);
    }
  }

  ghost function NextCell(cs: seq<Chunk>, i: nat): set<(nat, int)> {
    if NextFree(cs, i) then {(cs[i + 1].addr, Size(cs, i + 1))} else {}
  }

  ghost function PrevCell(cs: seq<Chunk>, i: nat): set<(nat, int)> {
    if PrevFree(cs, i) then {(cs[i - 1].addr, Size(cs, i - 1))} else {}
  }

  lemma CellsCons(xs: seq<Chunk>, u: bool)
    requires |xs| >= 2
    ensures Cells(xs, u) == Cells(xs[1..], u) +
              (if xs[0].used == u && IsMid(xs[0].addr) then {(xs[0].addr, Gap(xs[0], xs[1]))} else {})
  {
    CellsSplit(xs, u, 1);
    var ys := xs[..2];
    assert ys[0] == xs[0] && ys[1] == xs[1];
    assert Cells(ys, u) == if xs[0].used == u && IsMid(xs[0].addr) then {(xs[0].addr, Gap(xs[0], xs[1]))} else {};
  }

  lemma CellsOne(c: Chunk, u: bool)
    ensures Cells([c], u) == {}
  {
  }

  lemma StretchCells(cs: seq<Chunk>, i: nat)
    requires Freeable(cs, i)
    ensures 0 < i < |cs| - 1
    ensures var lo, hi := MergeLo(cs, i), MergeHi(cs, i);
      && 0 <= lo < hi < |cs|
      && Cells(cs[lo..hi + 1], true) == {(cs[i].addr, Size(cs, i))}
      && Cells(cs[lo..hi + 1], false) == PrevCell(cs, i) + NextCell(cs, i)
  {
    hide Linked, Distinct, Cells, Link;
    MergeFacts(cs, i);
    var lo, hi := MergeLo(cs, i), MergeHi(cs, i);
    TailCells(cs, i, true);
    TailCells(cs, i, false);
    if PrevFree(cs, i) {
      assert cs[lo..hi + 1][1..] == cs[i..hi + 1];
      CellsCons(cs[lo..hi + 1], true);
      CellsCons(cs[lo..hi + 1], false);
    }
  }

  lemma TailCells(cs: seq<Chunk>, i: nat, u: bool)
    requires Freeable(cs, i)
    ensures i < MergeHi(cs, i) < |cs|
    ensures Cells(cs[i..MergeHi(cs, i) + 1], u) == if u then {(cs[i].addr, Size(cs, i))} else NextCell(cs, i)
  {
    hide Linked, Distinct, Cells, Link;
    MergeFacts(cs, i);
    var hi := MergeHi(cs, i);
    if NextFree(cs, i) {
      var two := [cs[i + 1], cs[i + 2]];
      assert cs[i + 1..hi + 1] == two && two[1..] == [cs[i + 2]];
      CellsCons(two, u);
      CellsOne(cs[i + 2], u);
    } else {
      assert cs[i + 1..hi + 1] == [cs[i + 1]];
      CellsOne(cs[i + 1], u);
    }
    assert cs[i..hi + 1][1..] == cs[i + 1..hi + 1];
    CellsCons(cs[i..hi + 1], u);
  }

  /** The free neighbours leave their buckets. */
  lemma DropNeighboursOk(h: Heap, i: nat)
    requires HeapBase(h) && Freeable(h.cs, i)
    ensures 0 < i < |h.cs| - 1
    ensures var lo, hi := MergeLo(h.cs, i), MergeHi(h.cs, i);
      && 0 <= lo < hi < |h.cs|
      && BucketsOk(Outside(h.cs, false, lo, hi), DropNeighbours(h, i))
  {
    MergeFacts(h.cs, i);
    var cs, lo, hi := h.cs, MergeLo(h.cs, i), MergeHi(h.cs, i);
    var out := Outside(cs, false, lo, hi);
    StretchCells(cs, i);
    ReplaceCells(cs, false, lo, hi, [cs[lo]]);
    if NextFree(cs, i) { OutsideApart(cs, false, lo, hi, i + 1); FreeIsMid(cs, i + 1); }
    if PrevFree(cs, i) { OutsideApart(cs, false, lo, hi, i - 1); FreeIsMid(cs, i - 1); }
    assert NextFree(cs, i) && PrevFree(cs, i) ==> cs[i - 1].addr != cs[i + 1].addr;
    DropBoth(out, h.buckets, cs, i);
  }

  lemma DropBoth(out: set<(nat, int)>, buckets: seq<seq<nat>>, cs: seq<Chunk>, i: nat)
    requires 0 < i < |cs| - 1
    requires BucketsOk(out + (PrevCell(cs, i) + NextCell(cs, i)), buckets)
    requires NextFree(cs, i) ==> NoneAt(out, cs[i + 1].addr) && MIN_SIZE <= Size(cs, i + 1) <= WHOLE
    requires PrevFree(cs, i) ==> NoneAt(out, cs[i - 1].addr) && MIN_SIZE <= Size(cs, i - 1) <= WHOLE
    requires NextFree(cs, i) && PrevFree(cs, i) ==> cs[i - 1].addr != cs[i + 1].addr
    ensures BucketsOk(out, DropNeighbours(Heap(cs, buckets, 0, 0, 0, []), i))
  {
    hide BucketsOk, Bucket;
    var rest, b1 := out + PrevCell(cs, i), buckets;
    assert out + (PrevCell(cs, i) + NextCell(cs, i)) == rest + NextCell(cs, i);
    if NextFree(cs, i) {
      BucketRange(Size(cs, i + 1));
      DropOk(rest, buckets, cs[i + 1].addr, Size(cs, i + 1));
      b1 := DropFree(buckets, Bucket(Size(cs, i + 1)), cs[i + 1].addr);
    } else {
      assert rest + NextCell(cs, i) == rest;
    }
    if PrevFree(cs, i) {
      BucketRange(Size(cs, i - 1));
      DropOk(out, b1, cs[i - 1].addr, Size(cs, i - 1));
    } else {
      assert rest == out;
    }
  }

  // ------------------------------------------------------- keeping the page

  ghost function Coalesced(cs: seq<Chunk>, i: nat): seq<Chunk>
    requires 0 < i < |cs| - 1 && MergeLo(cs, i) < MergeHi(cs, i) <= |cs|
  {
    Replace(cs, MergeLo(cs, i), MergeHi(cs, i), [Chunk(cs[MergeLo(cs, i)].addr, false)])
  }

  lemma MergedChunks(cs: seq<Chunk>, i: nat)
    requires Freeable(cs, i)
    ensures 0 < i < |cs| - 1 && MergeLo(cs, i) < MergeHi(cs, i) < |cs|
    ensures var cs' := Coalesced(cs, i); ChunksOk(cs') && cs'[0] == cs[0] && cs'[|cs'| - 1] == cs[|cs| - 1]
  {
    MergeFacts(cs, i);
    var lo, hi := MergeLo(cs, i), MergeHi(cs, i);
    var m := Chunk(cs[lo].addr, false);
    assert Link(m, cs[hi]);
    var ms := [m] + [cs[hi]];
    assert Linked(ms) by { assert ms[0] == m && ms[1] == cs[hi]; }
    assert Link(cs[lo - 1], cs[lo]);
    assert Link(cs[lo - 1], m);
    ReplaceLinked(cs, lo, hi, [m]);
    ReplaceDistinct(cs, lo, hi, [m]);
  }

  lemma MergedNoEmpty(cs: seq<Chunk>, i: nat)
    requires Freeable(cs, i) && NoEmptyPage(cs) && !PageDone(cs, MergeLo(cs, i), MergeHi(cs, i))
    ensures 0 < i < |cs| - 1 && MergeLo(cs, i) < MergeHi(cs, i) < |cs|
    ensures NoEmptyPage(Coalesced(cs, i))
  {
    WholePage(cs, i);
    MergeFacts(cs, i);
    var lo, hi := MergeLo(cs, i), MergeHi(cs, i);
    var cs', d := Coalesced(cs, i), hi - lo - 1;
    hide Linked, Distinct, MergeLo, MergeHi;
    forall p | 0 < p < |cs'| - 2 && IsFirst(cs'[p].addr) && IsLast(cs'[p + 2].addr)
      ensures cs'[p + 1].used
    {
      if p + 2 < lo {
        assert IsFirst(cs[p].addr) && IsLast(cs[p + 2].addr);
      } else if p > lo {
        assert cs'[p] == cs[p + d] && cs'[p + 1] == cs[p + d + 1] && cs'[p + 2] == cs[p + d + 2];
      }
    }
  }

  /** The merged chunk fills its page exactly when it lies between sentinels. */
  lemma WholePage(cs: seq<Chunk>, i: nat)
    requires Freeable(cs, i)
    ensures 0 < i < |cs| - 1 && 1 <= MergeLo(cs, i) < MergeHi(cs, i) < |cs|
    ensures var lo, hi := MergeLo(cs, i), MergeHi(cs, i);
      IsFirst(cs[lo - 1].addr) && IsLast(cs[hi].addr) <==> Gap(cs[lo], cs[hi]) == WHOLE
  {
    MergeFacts(cs, i);
    assert Link(cs[MergeLo(cs, i) - 1], cs[MergeLo(cs, i)]);
  }

  /** Merging, page kept: the chunk in use is gone, one free chunk covers it and
      its former free neighbours. */
  lemma MergedOk(h: Heap, i: nat)
    requires HeapOk(h) && Freeable(h.cs, i) && !PageDone(h.cs, MergeLo(h.cs, i), MergeHi(h.cs, i))
    ensures 0 < i < |h.cs| - 1 && MergeLo(h.cs, i) < MergeHi(h.cs, i) < |h.cs|
    ensures var lo, hi := MergeLo(h.cs, i), MergeHi(h.cs, i);
      var a, n, h1 := h.cs[lo].addr, Gap(h.cs[lo], h.cs[hi]), Lift(h, i);
      && HeapOk(h1.(cs := Coalesced(h.cs, i), buckets := PushFree(h1.buckets, Bucket(n), a), memFree := h1.memFree + n))
      && Cells(h.cs, true) == Cells(Coalesced(h.cs, i), true) + {(h.cs[i].addr, Size(h.cs, i))}
      && NoneAt(Cells(Coalesced(h.cs, i), true), h.cs[i].addr)
  {
    hide Linked, Distinct, NoEmptyPage, Cells, Total, BucketsOk, Bucket, NoneAt, Outside, DropNeighbours,
         MergedBytes, MergedHeaders;
    MergeFacts(h.cs, i);
    var cs, lo, hi := h.cs, MergeLo(h.cs, i), MergeHi(h.cs, i);
    var a, n := cs[lo].addr, Gap(cs[lo], cs[hi]);
    MergedCells(cs, i);
    MergedTotals(cs, i);
    MergedChunks(cs, i);
    MergedNoEmpty(cs, i);
    DropNeighboursOk(h, i);
    MergedGap(cs, i);
    BucketRange(n);
    PushOk(Outside(cs, false, lo, hi), DropNeighbours(h, i), a, n);
  }

  lemma MergedGap(cs: seq<Chunk>, i: nat)
    requires Freeable(cs, i)
    ensures 0 < i < |cs| - 1 && MergeLo(cs, i) < MergeHi(cs, i) < |cs|
    ensures MIN_SIZE <= Gap(cs[MergeLo(cs, i)], cs[MergeHi(cs, i)]) <= WHOLE
  {
    MergeFacts(cs, i);
  }

  lemma MergedCells(cs: seq<Chunk>, i: nat)
    requires Freeable(cs, i)
    ensures 0 < i < |cs| - 1 && MergeLo(cs, i) < MergeHi(cs, i) < |cs|
    ensures var lo, hi := MergeLo(cs, i), MergeHi(cs, i);
      && Cells(Coalesced(cs, i), false) == Outside(cs, false, lo, hi) + {(cs[lo].addr, Gap(cs[lo], cs[hi]))}
      && NoneAt(Outside(cs, false, lo, hi), cs[lo].addr)
      && Cells(Coalesced(cs, i), true) == Outside(cs, true, lo, hi)
      && Cells(cs, true) == Outside(cs, true, lo, hi) + {(cs[i].addr, Size(cs, i))}
      && NoneAt(Outside(cs, true, lo, hi), cs[i].addr)
  {
    hide Linked, Distinct, Cells, Outside, NoneAt;
    MergeFacts(cs, i);
    var lo, hi := MergeLo(cs, i), MergeHi(cs, i);
    var m := Chunk(cs[lo].addr, false);
    StretchCells(cs, i);
    ReplaceCells(cs, false, lo, hi, [m]);
    ReplaceCells(cs, true, lo, hi, [m]);
    assert [m] + [cs[hi]] == [m, cs[hi]];
    OneCell(m, cs[hi]);
    OutsideApart(cs, false, lo, hi, lo);
    OutsideApart(cs, true, lo, hi, i);
    assert Outside(cs, true, lo, hi) + {} == Outside(cs, true, lo, hi);
  }

  lemma MergedTotals(cs: seq<Chunk>, i: nat)
    requires Freeable(cs, i)
    ensures 0 < i < |cs| - 1 && MergeLo(cs, i) < MergeHi(cs, i) < |cs|
    ensures var cs', n := Coalesced(cs, i), Gap(cs[MergeLo(cs, i)], cs[MergeHi(cs, i)]);
      && Total(InUse, cs') == Total(InUse, cs) - Size(cs, i)
      && Total(InFree, cs') == Total(InFree, cs) - MergedBytes(cs, i) + n
      && Total(InMeta, cs') == Total(InMeta, cs) - MergedHeaders(cs, i)
  {
    hide Linked, Distinct, Total;
    MergeFacts(cs, i);
    var lo, hi := MergeLo(cs, i), MergeHi(cs, i);
    var m := Chunk(cs[lo].addr, false);
    StretchTotals(cs, i);
    ReplaceTotal(InUse, cs, lo, hi, [m]);
    ReplaceTotal(InFree, cs, lo, hi, [m]);
    ReplaceTotal(InMeta, cs, lo, hi, [m]);
    assert [m] + [cs[hi]] == [m, cs[hi]];
    PairTotals(m, cs[hi]);
  }

  // ------------------------------------------------ giving back the page

  /** The list without the page whose only chunk is the merged one. */
  ghost function Returned(cs: seq<Chunk>, i: nat): seq<Chunk>
    requires 0 < i < |cs| - 1 && 0 < MergeLo(cs, i) < MergeHi(cs, i) < |cs|
  {
    Replace(cs, MergeLo(cs, i) - 1, MergeHi(cs, i) + 1, [])
  }

  ghost predicate Returnable(cs: seq<Chunk>, i: nat) {
    Freeable(cs, i) && PageDone(cs, MergeLo(cs, i), MergeHi(cs, i))
  }

  lemma ReturnFacts(cs: seq<Chunk>, i: nat)
    requires Returnable(cs, i)
    ensures 0 < i < |cs| - 1
    ensures var lo, hi := MergeLo(cs, i), MergeHi(cs, i);
      && 2 <= lo < hi < |cs|
      && IsLast(cs[lo - 2].addr) && cs[lo - 2].used && IsFirst(cs[lo - 1].addr) && IsLast(cs[hi].addr)
      && cs[lo - 1].addr / PAGE == cs[i].addr / PAGE
      && (hi + 1 < |cs| ==> IsFirst(cs[hi + 1].addr) && cs[hi + 1].used)
  {
    MergeFacts(cs, i);
    WholePage(cs, i);
    var lo, hi := MergeLo(cs, i), MergeHi(cs, i);
    assert Link(cs[lo - 2], cs[lo - 1]);
    if hi + 1 < |cs| { assert Link(cs[hi], cs[hi + 1]); }
  }

  lemma ReturnedChunks(cs: seq<Chunk>, i: nat)
    requires Returnable(cs, i)
    ensures 0 < i < |cs| - 1 && 2 <= MergeLo(cs, i) < MergeHi(cs, i) < |cs|
    ensures ChunksOk(Returned(cs, i)) && Returned(cs, i)[0] == cs[0]
  {
    ReturnFacts(cs, i);
    var lo, hi := MergeLo(cs, i), MergeHi(cs, i);
    var cs', d := Returned(cs, i), hi - lo + 2;
    hide MergeLo, MergeHi, Freeable;
    forall p | 0 <= p < |cs'| - 1
      ensures Link(cs'[p], cs'[p + 1])
    {
      if p + 1 < lo - 1 {
        assert Link(cs[p], cs[p + 1]);
      } else if p + 1 == lo - 1 {
        assert cs'[p] == cs[lo - 2] && cs'[p + 1] == cs[hi + 1];
        assert Link(cs[lo - 2], cs[lo - 1]) && Link(cs[hi], cs[hi + 1]);
      } else {
        assert Link(cs[p + d], cs[p + d + 1]) && cs'[p] == cs[p + d] && cs'[p + 1] == cs[p + d + 1];
      }
    }
    ReplaceDistinct(cs, lo - 1, hi + 1, []);
    ReturnedLong(cs, lo, hi);
  }

  /** What is left is at least the first page. */
  lemma ReturnedLong(cs: seq<Chunk>, lo: nat, hi: nat)
    requires ChunksOk(cs) && 2 <= lo < hi < |cs| && IsLast(cs[lo - 2].addr) && IsLast(cs[hi].addr) && cs[hi].used
    ensures |cs| - (hi - lo) - 2 >= 3
  {
    assert Link(cs[0], cs[1]);
    if lo >= 3 { assert Link(cs[1], cs[2]); }
  }

  lemma ReturnedNoEmpty(cs: seq<Chunk>, i: nat)
    requires Returnable(cs, i) && NoEmptyPage(cs)
    ensures 0 < i < |cs| - 1 && 2 <= MergeLo(cs, i) < MergeHi(cs, i) < |cs|
    ensures NoEmptyPage(Returned(cs, i))
  {
    ReturnFacts(cs, i);
    var lo, hi := MergeLo(cs, i), MergeHi(cs, i);
    var cs', d := Returned(cs, i), hi - lo + 2;
    hide MergeLo, MergeHi, Freeable;
    forall p | 0 < p < |cs'| - 2 && IsFirst(cs'[p].addr) && IsLast(cs'[p + 2].addr)
      ensures cs'[p + 1].used
    {
      if p + 2 < lo - 1 {
        assert IsFirst(cs[p].addr) && IsLast(cs[p + 2].addr);
      } else if p >= lo - 1 {
        assert cs'[p] == cs[p + d] && cs'[p + 1] == cs[p + d + 1] && cs'[p + 2] == cs[p + d + 2];
      }
    }
  }

  /** The last sentinel of one page stands in for that of another. */
  lemma SwapLast(xs: seq<Chunk>, c: Chunk, d: Chunk)
    requires IsLast(c.addr) && IsLast(d.addr)
    ensures forall u :: Cells([c] + xs, u) == Cells([d] + xs, u)
    ensures forall k :: Total(k, [c] + xs) == Total(k, [d] + xs)
  {
    if xs != [] {
      assert ([c] + xs)[1..] == xs && ([d] + xs)[1..] == xs;
      CellsCons([c] + xs, true);
      CellsCons([c] + xs, false);
      CellsCons([d] + xs, true);
      CellsCons([d] + xs, false);
    } else {
      assert [c] + xs == [c] && [d] + xs == [d];
      forall u ensures Cells([c] + xs, u) == Cells([d] + xs, u) {
        CellsOne(c, u);
        CellsOne(d, u);
      }
    }
  }

  /** The page's part of the list: last sentinel before it, first sentinel, the
      stretch that merges. */
  lemma ReturnedParts(cs: seq<Chunk>, i: nat, u: bool, k: Part)
    requires Returnable(cs, i)
    ensures 0 < i < |cs| - 1 && 2 <= MergeLo(cs, i) < MergeHi(cs, i) < |cs|
    ensures var lo, hi := MergeLo(cs, i), MergeHi(cs, i);
      && Cells(cs, u) == Cells(Returned(cs, i), u) + Cells(cs[lo..hi + 1], u)
      && Total(k, cs) == Total(k, Returned(cs, i)) + Total(k, cs[lo..hi + 1]) + (if k.InMeta? then 2 * SENTINEL else 0)
  {
    hide Distinct, Cells, Total, MergeLo, MergeHi, Returnable, Offset;
    ReturnFacts(cs, i);
    var lo, hi := MergeLo(cs, i), MergeHi(cs, i);
    var cs', tail, page := Returned(cs, i), cs[hi + 1..], cs[lo - 2..hi + 1];
    CutParts(cs, lo, hi);
    CellsSplit(cs, u, lo - 2);
    CellsSplit(cs[lo - 2..], u, hi - lo + 2);
    CellsSplit(cs', u, lo - 2);
    TotalSplit(k, cs, lo - 2);
    TotalSplit(k, cs[lo - 2..], hi - lo + 2);
    TotalSplit(k, cs', lo - 2);
    SwapLast(tail, cs[lo - 2], cs[hi]);
    assert Cells([cs[lo - 2]] + tail, u) == Cells([cs[hi]] + tail, u);
    assert Total(k, [cs[lo - 2]] + tail) == Total(k, [cs[hi]] + tail);
    PageHead(page, u, k);
    assert page[2..] == cs[lo..hi + 1];
    assert Cells(cs, u) == Cells(cs[..lo - 1], u) + (Cells(page, u) + Cells([cs[hi]] + tail, u));
  }

  lemma CutParts(cs: seq<Chunk>, lo: nat, hi: nat)
    requires 2 <= lo < hi < |cs|
    ensures var cs', tail := Replace(cs, lo - 1, hi + 1, []), cs[hi + 1..];
      && lo - 2 < |cs'| && cs'[..lo - 1] == cs[..lo - 1] && cs'[lo - 2..] == [cs[lo - 2]] + tail
      && cs[lo - 2..][..hi - lo + 3] == cs[lo - 2..hi + 1] && cs[lo - 2..][hi - lo + 2..] == [cs[hi]] + tail
  {
  }

  lemma PageHead(page: seq<Chunk>, u: bool, k: Part)
    requires |page| >= 3 && IsLast(page[0].addr) && IsFirst(page[1].addr)
    ensures Cells(page, u) == Cells(page[2..], u)
    ensures Total(k, page) == Total(k, page[2..]) + (if k.InMeta? then 2 * SENTINEL else 0)
  {
    CellsCons(page, u);
    CellsCons(page[1..], u);
    assert page[1..][1..] == page[2..];
    hide Cells;
  }

  /** Merging, page given back: the chunk in use is gone, and so is its page. */
  lemma ReturnedOk(h: Heap, i: nat)
    requires HeapOk(h) && Returnable(h.cs, i)
    ensures 0 < i < |h.cs| - 1 && 2 <= MergeLo(h.cs, i) < MergeHi(h.cs, i) < |h.cs|
    ensures var h1 := Lift(h, i);
      && HeapOk(h1.(cs := Returned(h.cs, i), memMeta := h1.memMeta - 2 * SENTINEL - HEADER))
      && Cells(h.cs, true) == Cells(Returned(h.cs, i), true) + {(h.cs[i].addr, Size(h.cs, i))}
      && NoneAt(Cells(Returned(h.cs, i), true), h.cs[i].addr)
  {
    hide Linked, Distinct, NoEmptyPage, Cells, Total, BucketsOk, Bucket, NoneAt, Outside, DropNeighbours,
         MergedBytes, MergedHeaders;
    var cs := h.cs;
    ReturnFacts(cs, i);
    ReturnedChunks(cs, i);
    ReturnedNoEmpty(cs, i);
    StretchTotals(cs, i);
    StretchCells(cs, i);
    ReturnedParts(cs, i, true, InUse);
    ReturnedParts(cs, i, false, InFree);
    ReturnedParts(cs, i, true, InMeta);
    DropNeighboursOk(h, i);
    ReturnedOutside(cs, i);
    GoneFrom(cs, i);
  }

  /** The free chunks that are left are those outside the stretch. */
  lemma ReturnedOutside(cs: seq<Chunk>, i: nat)
    requires Returnable(cs, i)
    ensures 0 < i < |cs| - 1 && 2 <= MergeLo(cs, i) < MergeHi(cs, i) < |cs|
    ensures Cells(Returned(cs, i), false) == Outside(cs, false, MergeLo(cs, i), MergeHi(cs, i))
  {
    hide Cells, Linked, Distinct;
    ReturnFacts(cs, i);
    var lo, hi := MergeLo(cs, i), MergeHi(cs, i);
    var cs', tail := Returned(cs, i), cs[hi + 1..];
    CutParts(cs, lo, hi);
    CellsSplit(cs', false, lo - 2);
    SwapLast(tail, cs[lo - 2], cs[hi]);
    assert cs[hi..] == [cs[hi]] + tail;
    CellsSplit(cs[..lo + 1], false, lo - 2);
    assert cs[..lo + 1][..lo - 1] == cs[..lo - 1];
    var three := [cs[lo - 2], cs[lo - 1], cs[lo]];
    assert cs[..lo + 1][lo - 2..] == three;
    PageHead(three, false, InFree);
    assert three[2..] == [cs[lo]];
    CellsOne(cs[lo], false);
  }

  lemma GoneFrom(cs: seq<Chunk>, i: nat)
    requires Returnable(cs, i)
    ensures 0 < i < |cs| - 1 && 2 <= MergeLo(cs, i) < MergeHi(cs, i) < |cs|
    ensures NoneAt(Cells(Returned(cs, i), true), cs[i].addr)
  {
    ReturnFacts(cs, i);
    var lo, hi := MergeLo(cs, i), MergeHi(cs, i);
    var cs', d := Returned(cs, i), hi - lo + 2;
    hide MergeLo, MergeHi;
    forall p | 0 <= p < |cs'|
      ensures cs'[p].addr != cs[i].addr
    {
      assert cs'[p] == if p < lo - 1 then cs[p] else cs[p + d];
    }
  }
}
