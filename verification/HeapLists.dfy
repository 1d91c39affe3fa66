/** Facts about chunk lists: splitting sums and free sets, replacing a stretch,
    and the layout of chunks in memory. */
module HeapLists {
  import opened Bits
  import opened NodeList
  import opened HeapModel

  // ------------------------------------------------------------------ sums

  lemma {:induction false} TotalSplit(k: Part, cs: seq<Chunk>, p: nat)
    requires p < |cs|
    ensures Total(k, cs) == Total(k, cs[..p + 1]) + Total(k, cs[p..])
  {
    if p == 0 {
      assert cs[0..] == cs && Total(k, cs[..1]) == 0;
    } else {
      TotalSplit(k, cs[1..], p - 1);
      assert cs[..p + 1][1..] == cs[1..][..p] && cs[1..][p - 1..] == cs[p..];
      assert cs[..p + 1][0] == cs[0] && cs[..p + 1][1] == cs[1];
    }
  }

  /** A sum does not look at the last chunk beyond its address. */
  lemma {:induction false} TotalEnd(k: Part, xs: seq<Chunk>, c: Chunk, d: Chunk)
    requires c.addr == d.addr
    ensures Total(k, xs + [c]) == Total(k, xs + [d])
  {
    if xs != [] {
      TotalEnd(k, xs[1..], c, d);
      assert (xs + [c])[1..] == xs[1..] + [c] && (xs + [d])[1..] == xs[1..] + [d];
    }
  }

  ghost predicate Stretch(cs: seq<Chunk>, lo: nat, hi: nat, mid: seq<Chunk>) {
    lo < hi < |cs| && mid != [] && mid[0].addr == cs[lo].addr
  }

  lemma ReplaceParts(cs: seq<Chunk>, lo: nat, hi: nat, mid: seq<Chunk>)
    requires Stretch(cs, lo, hi, mid)
    ensures var cs' := Replace(cs, lo, hi, mid);
      && cs'[..lo + 1] == cs[..lo] + [mid[0]] && cs[..lo + 1] == cs[..lo] + [cs[lo]]
      && cs'[lo..] == mid + cs[hi..]
      && cs'[lo..][..|mid| + 1] == mid + [cs[hi]] && cs'[lo..][|mid|..] == cs[hi..]
      && cs[lo..][..hi - lo + 1] == cs[lo..hi + 1] && cs[lo..][hi - lo..] == cs[hi..]
  {
  }

  lemma ReplaceTotal(k: Part, cs: seq<Chunk>, lo: nat, hi: nat, mid: seq<Chunk>)
    requires Stretch(cs, lo, hi, mid)
    ensures Total(k, Replace(cs, lo, hi, mid)) ==
            Total(k, cs) - Total(k, cs[lo..hi + 1]) + Total(k, mid + [cs[hi]])
  {
    var cs' := Replace(cs, lo, hi, mid);
    ReplaceParts(cs, lo, hi, mid);
    TotalSplit(k, cs, lo);
    TotalSplit(k, cs[lo..], hi - lo);
    TotalSplit(k, cs', lo);
    TotalSplit(k, cs'[lo..], |mid|);
    TotalEnd(k, cs[..lo], cs[lo], mid[0]);
  }

  // ------------------------------------------------- sets of sized chunks

  lemma CellsSplit(cs: seq<Chunk>, u: bool, p: nat)
    requires p < |cs|
    ensures Cells(cs, u) == Cells(cs[..p + 1], u) + Cells(cs[p..], u)
  {
    hide IsMid, Gap;
    forall x: (nat, int)
      ensures x in Cells(cs, u) <==> x in Cells(cs[..p + 1], u) || x in Cells(cs[p..], u)
    {
      if x in Cells(cs, u) {
        var i :| 0 <= i < |cs| - 1 && cs[i].used == u && IsMid(cs[i].addr) && x == (cs[i].addr, Gap(cs[i], cs[i + 1]));
        if i < p {
          assert cs[..p + 1][i] == cs[i] && cs[..p + 1][i + 1] == cs[i + 1];
        } else {
          assert cs[p..][i - p] == cs[i] && cs[p..][i - p + 1] == cs[i + 1];
        }
      }
      if x in Cells(cs[..p + 1], u) {
        var i :| 0 <= i < p && cs[..p + 1][i].used == u && IsMid(cs[..p + 1][i].addr)
          && x == (cs[..p + 1][i].addr, Gap(cs[..p + 1][i], cs[..p + 1][i + 1]));
        assert cs[..p + 1][i] == cs[i] && cs[..p + 1][i + 1] == cs[i + 1];
      }
      if x in Cells(cs[p..], u) {
        var i :| 0 <= i < |cs| - p - 1 && cs[p..][i].used == u && IsMid(cs[p..][i].addr)
          && x == (cs[p..][i].addr, Gap(cs[p..][i], cs[p..][i + 1]));
        assert cs[p..][i] == cs[p + i] && cs[p..][i + 1] == cs[p + i + 1];
      }
    }
  }

  lemma CellsEnd(xs: seq<Chunk>, u: bool, c: Chunk, d: Chunk)
    requires c.addr == d.addr
    ensures Cells(xs + [c], u) == Cells(xs + [d], u)
  {
    var ys, zs := xs + [c], xs + [d];
    assert forall i :: 0 <= i < |xs| ==> ys[i] == zs[i] == xs[i] && Gap(ys[i], ys[i + 1]) == Gap(zs[i], zs[i + 1]);
  }

  ghost function Outside(cs: seq<Chunk>, u: bool, lo: nat, hi: nat): set<(nat, int)>
    requires lo < hi < |cs|
  {
    Cells(cs[..lo + 1], u) + Cells(cs[hi..], u)
  }

  lemma ReplaceCells(cs: seq<Chunk>, u: bool, lo: nat, hi: nat, mid: seq<Chunk>)
    requires Stretch(cs, lo, hi, mid)
    ensures Cells(cs, u) == Outside(cs, u, lo, hi) + Cells(cs[lo..hi + 1], u)
    ensures Cells(Replace(cs, lo, hi, mid), u) == Outside(cs, u, lo, hi) + Cells(mid + [cs[hi]], u)
  {
    hide Cells;
    var cs' := Replace(cs, lo, hi, mid);
    ReplaceParts(cs, lo, hi, mid);
    CellsSplit(cs, u, lo);
    CellsSplit(cs[lo..], u, hi - lo);
    CellsSplit(cs', u, lo);
    CellsSplit(cs'[lo..], u, |mid|);
    CellsEnd(cs[..lo], u, cs[lo], mid[0]);
  }

  ghost predicate NoneAt(cells: set<(nat, int)>, a: nat) {
    forall n: int :: (a, n) !in cells
  }

  /** Chunks outside a stretch do not start inside it. */
  lemma OutsideApart(cs: seq<Chunk>, u: bool, lo: nat, hi: nat, i: nat)
    requires Distinct(cs) && lo <= i < hi < |cs|
    ensures NoneAt(Outside(cs, u, lo, hi), cs[i].addr)
  {
    var head, tail := cs[..lo + 1], cs[hi..];
    assert forall j :: 0 <= j < |head| - 1 ==> head[j].addr != cs[i].addr;
    assert forall j :: 0 <= j < |tail| ==> tail[j].addr != cs[i].addr;
  }

  // --------------------------------------------------------------- buckets

  lemma PushOk(free: set<(nat, int)>, buckets: seq<seq<nat>>, a: nat, n: int)
    requires BucketsOk(free, buckets) && 0 <= Bucket(n) < NUM_SIZES
    requires NoneAt(free, a)
    ensures BucketsOk(free + {(a, n)}, PushFree(buckets, Bucket(n), a))
  {
    var free', buckets', c := free + {(a, n)}, PushFree(buckets, Bucket(n), a), Bucket(n);
    hide Bucket;
    assert a !in buckets[c] by { assert !Belongs(free, a, c); }
    forall b, x: nat | 0 <= b < NUM_SIZES
      ensures x in buckets'[b] <==> Belongs(free', x, b)
    {
      assert x in buckets[b] <==> Belongs(free, x, b);
      if x == a && b == c { assert (a, n) in free'; }
      if Belongs(free, x, b) {
        var m :| (x, m) in free && Bucket(m) == b;
        assert (x, m) in free';
      }
      if Belongs(free', x, b) {
        var m :| (x, m) in free' && Bucket(m) == b;
        assert (x, m) in free || (x == a && m == n);
      }
    }
  }

  lemma DropOk(free: set<(nat, int)>, buckets: seq<seq<nat>>, a: nat, n: int)
    requires BucketsOk(free + {(a, n)}, buckets) && 0 <= Bucket(n) < NUM_SIZES
    requires NoneAt(free, a)
    ensures BucketsOk(free, DropFree(buckets, Bucket(n), a))
    ensures a in buckets[Bucket(n)]
  {
    var free', buckets', c := free + {(a, n)}, DropFree(buckets, Bucket(n), a), Bucket(n);
    hide Bucket;
    WithoutFacts(buckets[c], a);
    assert Belongs(free', a, c) by { assert (a, n) in free'; }
    forall b, x: nat | 0 <= b < NUM_SIZES
      ensures x in buckets'[b] <==> Belongs(free, x, b)
    {
      assert x in buckets[b] <==> Belongs(free', x, b);
      if Belongs(free, x, b) {
        var m :| (x, m) in free && Bucket(m) == b;
        assert (x, m) in free';
      }
      if Belongs(free', x, b) && !(x == a && b == c) {
        var m :| (x, m) in free' && Bucket(m) == b;
        assert (x, m) in free || (x == a && m == n);
      }
    }
  }

  // ---------------------------------------------------------------- layout

  lemma LinkLow(c: Chunk, d: Chunk)
    requires Link(c, d) && !IsFirst(d.addr)
    ensures c.addr < d.addr && c.addr / PAGE == d.addr / PAGE
    ensures !IsLast(c.addr) && SENTINEL <= d.addr - c.addr
  {
  }

  /** The first chunk of the page of position i comes at or before it. */
  lemma {:induction false} PageStart(cs: seq<Chunk>, i: nat) returns (f: nat)
    requires i < |cs| && Linked(cs) && IsFirst(cs[0].addr)
    ensures f <= i && IsFirst(cs[f].addr) && cs[f].addr / PAGE == cs[i].addr / PAGE
  {
    if IsFirst(cs[i].addr) {
      f := i;
    } else {
      assert Link(cs[i - 1], cs[i]);
      LinkLow(cs[i - 1], cs[i]);
      f := PageStart(cs, i - 1);
    }
  }

  /** Chunks of one page are in address order. */
  lemma {:induction false} PageOrdered(cs: seq<Chunk>, i: nat, j: nat)
    requires ChunksOk(cs) && i < j < |cs| && cs[i].addr / PAGE == cs[j].addr / PAGE
    ensures cs[i].addr + SENTINEL <= cs[j].addr
    decreases j
  {
    var f := PageStart(cs, i);
    assert !IsFirst(cs[j].addr);
    assert Link(cs[j - 1], cs[j]);
    LinkLow(cs[j - 1], cs[j]);
    if i < j - 1 {
      PageOrdered(cs, i, j - 1);
    }
  }

  /** The end of the memory that chunk i stands for. */
  function EndOf(cs: seq<Chunk>, i: nat): nat
    requires i < |cs|
  {
    if IsLast(cs[i].addr) || i + 1 == |cs| then cs[i].addr + SENTINEL else cs[i + 1].addr
  }

  lemma EndInPage(cs: seq<Chunk>, i: nat)
    requires ChunksOk(cs) && i < |cs|
    ensures cs[i].addr + SENTINEL <= EndOf(cs, i) <= (cs[i].addr / PAGE + 1) * PAGE
  {
    if i + 1 < |cs| { assert Link(cs[i], cs[i + 1]); }
  }

  lemma Apart(cs: seq<Chunk>, i: nat, j: nat)
    requires ChunksOk(cs) && i < j < |cs|
    ensures EndOf(cs, i) <= cs[j].addr || EndOf(cs, j) <= cs[i].addr
  {
    EndInPage(cs, i);
    EndInPage(cs, j);
    if cs[i].addr / PAGE == cs[j].addr / PAGE {
      PageOrdered(cs, i, j);
      assert Link(cs[i], cs[i + 1]);
      if i + 1 < j && !IsLast(cs[i].addr) { PageOrdered(cs, i + 1, j); }
    }
  }

  /** No two chunks share memory: a payload meets no other payload and no header. */
  lemma ChunksApart(cs: seq<Chunk>, i: nat, j: nat)
    requires ChunksOk(cs) && i < |cs| && j < |cs| && i != j
    ensures EndOf(cs, i) <= cs[j].addr || EndOf(cs, j) <= cs[i].addr
    ensures cs[i].addr + SENTINEL <= EndOf(cs, i)
  {
    EndInPage(cs, i);
    if i < j { Apart(cs, i, j); } else { Apart(cs, j, i); }
  }

  lemma {:induction false} IndexOfIs(cs: seq<Chunk>, i: nat)
    requires Distinct(cs) && i < |cs|
    ensures IndexOf(cs, cs[i].addr) == i
  {
  }

  lemma ReplaceLinked(cs: seq<Chunk>, lo: nat, hi: nat, mid: seq<Chunk>)
    requires Stretch(cs, lo, hi, mid) && Linked(cs) && Linked(mid + [cs[hi]])
    requires lo > 0 ==> Link(cs[lo - 1], mid[0])
    ensures Linked(Replace(cs, lo, hi, mid))
  {
    var cs', m := Replace(cs, lo, hi, mid), mid + [cs[hi]];
    forall i | 0 <= i < |cs'| - 1
      ensures Link(cs'[i], cs'[i + 1])
    {
      if i < lo {
        assert i + 1 < lo ==> Link(cs[i], cs[i + 1]);
      } else if i < lo + |mid| {
        assert Link(m[i - lo], m[i - lo + 1]);
      } else {
        var j := i - lo - |mid| + hi;
        assert Link(cs[j], cs[j + 1]) && cs'[i] == cs[j] && cs'[i + 1] == cs[j + 1];
      }
    }
  }
}
