/** Whole runs of the allocator: the invariant over every run, the return to the
    boot state, the exact condition under which both hold, and the identity of an
    allocation followed by its release. */
module BuddyRuns {
  import opened Bits
  import opened NodeList
  import opened BuddyModel
  import opened BuddySteps
  import opened BuddyCalls
  import opened BuddyTheorems
  import opened BuddyBoot

  datatype Op = AllocOp(order: nat) | FreeOp(index: nat)

  /** A call the kernel may make and that does not panic. */
  ghost predicate Allowed(z: Zone, s: Buddy, op: Op) {
    match op
    case AllocOp(k) => Alloc(z, s, k).Got?
    case FreeOp(i) => i in UsedHeads(z, s.pages, -1) && At(z, s.pages, i).order <= MAX_ORDER
  }

  ghost function Apply(z: Zone, s: Buddy, op: Op): Buddy
    requires Allowed(z, s, op)
  {
    match op
    case AllocOp(k) => Alloc(z, s, k).state
    case FreeOp(i) => Dealloc(z, s, i)
  }

  ghost predicate RunsTo(z: Zone, s: Buddy, ops: seq<Op>, s': Buddy)
    decreases ops
  {
    if ops == [] then s == s'
    else Allowed(z, s, ops[0]) && RunsTo(z, Apply(z, s, ops[0]), ops[1..], s')
  }

  lemma ApplyKeeps(z: Zone, s: Buddy, op: Op)
    requires Inv(z, s) && Allowed(z, s, op) && !PhantomMatches(z)
    ensures Inv(z, Apply(z, s, op))
  {
    hide Inv, Alloc, PhantomMatches;
    match op
    case AllocOp(k) => AllocKeeps(z, s, k);
    case FreeOp(i) => DeallocKeeps(z, s, i);
  }

  /** Every run keeps the invariant. */
  lemma {:induction false} RunKeeps(z: Zone, s: Buddy, ops: seq<Op>, s': Buddy)
    requires Inv(z, s) && !PhantomMatches(z) && RunsTo(z, s, ops, s')
    ensures Inv(z, s')
    decreases ops
  {
    hide Inv, Allowed, Apply, PhantomMatches;
    if ops != [] {
      ApplyKeeps(z, s, ops[0]);
      RunKeeps(z, Apply(z, s, ops[0]), ops[1..], s');
    }
  }

  // ------------------------------------------------------------ coming home

  ghost predicate AllFreed(z: Zone, s: Buddy) {
    UsedHeads(z, s.pages, -1) == map[]
  }

  lemma FreedMeansAllFree(z: Zone, s: Buddy)
    requires Inv(z, s) && AllFreed(z, s)
    ensures FreePages(z, s.pages, -1) == Span(z.lo, z.hi)
  {
    forall p: nat | z.lo <= p < z.hi
      ensures InFree(s.pages, -1, p)
    {
      assert Owned(z, s.pages, p);
      var h := Owner(s.pages, p);
      assert h !in UsedHeads(z, s.pages, -1);
    }
  }

  lemma ListIsHeads(z: Zone, s: Buddy, k: nat)
    requires Inv(z, s) && k <= MAX_ORDER
    ensures NoDup(s.lists[k])
    ensures forall i: nat :: i in s.lists[k] <==> i in FreeHeads(z, s.pages) && FreeHeads(z, s.pages)[i] == k
  {
    forall i: nat
      ensures i in s.lists[k] <==> i in FreeHeads(z, s.pages) && FreeHeads(z, s.pages)[i] == k
    {
      assert Listed(z, s.pages, s.lists, -1, k, i);
    }
  }

  lemma {:induction false} NoDupSize(s: seq<nat>, t: seq<nat>)
    requires NoDup(s) && NoDup(t) && forall i: nat :: i in s <==> i in t
    ensures |s| == |t|
  {
    assert |t| > 0 ==> t[0] in t;
    if s != [] {
      var x := s[0];
      WithoutFacts(t, x);
      assert NoDup(s[1..]) && x !in s[1..] && s == [x] + s[1..];
      NoDupSize(s[1..], Without(t, x));
      WithoutSize(t, x);
    }
  }

  lemma {:induction false} WithoutSize(s: seq<nat>, x: nat)
    requires x in s
    ensures |Without(s, x)| == |s| - 1
  {
    if s[0] != x {
      WithoutSize(s[1..], x);
    }
  }

  /** A run from boot after which nothing is allocated ends with exactly the free
      blocks, list lengths and counters that boot produced. */
  lemma RunComesHome(z: Zone, ops: seq<Op>, s': Buddy)
    requires ZoneOk(z) && !PhantomMatches(z)
    requires RunsTo(z, Boot(z), ops, s') && AllFreed(z, s')
    ensures FreeHeads(z, s'.pages) == FreeHeads(z, Boot(z).pages)
    ensures forall k :: 0 <= k <= MAX_ORDER ==> |s'.lists[k]| == |Boot(z).lists[k]|
    ensures s'.freeCount == Boot(z).freeCount && s'.usedCount == Boot(z).usedCount
  {
    hide Tiling, ListsOk, Canonical, FreePages, UsedPages, RunsTo, Boot, PhantomMatches;
    BootInv(z);
    RunKeeps(z, Boot(z), ops, s');
    FreedMeansAllFree(z, s');
    FreeSetIsCanonical(z, s'.pages, Boot(z).pages);
    UsedIsRest(z, s'.pages);
    UsedIsRest(z, Boot(z).pages);
    forall k | 0 <= k <= MAX_ORDER
      ensures |s'.lists[k]| == |Boot(z).lists[k]|
    {
      ListIsHeads(z, s', k);
      ListIsHeads(z, Boot(z), k);
      NoDupSize(s'.lists[k], Boot(z).lists[k]);
    }
  }

  // ------------------------------------------- the entry past the page map

  lemma AddBlockSize(s: Buddy, start: nat, k: nat)
    requires k <= MAX_ORDER
    ensures |AddBlock(s, start, k).pages| == |s.pages|
    ensures AddBlock(s, start, k).lists[k] == [start] + s.lists[k]
    ensures start < |s.pages| ==> AddBlock(s, start, k).pages[start] == Page(k, Free)
  {
  }

  /** Greedy tiling of a range whose end is an odd multiple of 2^k finishes with
      a block of order k, which is then at the head of its list. */
  lemma {:induction false} TileLast(s: Buddy, start: nat, hi: nat, k: nat)
    requires k < MAX_ORDER && start + Pow2(k) <= hi <= |s.pages| && Aligned(hi - Pow2(k), k + 1)
    ensures var t := Tile(s, start, hi);
      && t.lists[k] != [] && t.lists[k][0] == hi - Pow2(k)
      && |t.pages| == |s.pages| && t.pages[hi - Pow2(k)] == Page(k, Free)
    decreases hi - start
  {
    hide AddBlock, Fit, Aligned;
    var e, f := hi - Pow2(k), Fit(start, hi, MAX_ORDER);
    FitFacts(start, hi, MAX_ORDER);
    AlignedDown(e, k, k + 1);
    AddBlockSize(s, start, f);
    if start == e {
      if f > k { Pow2Mono(k + 1, f); }
      assert f == k;
      assert Tile(s, start, hi) == Tile(AddBlock(s, start, k), hi, hi) == AddBlock(s, start, k);
    } else {
      NoCrossing(start, f, hi, k);
      TileLast(AddBlock(s, start, f), start + Pow2(f), hi, k);
    }
  }

  lemma NoCrossing(start: nat, f: nat, hi: nat, k: nat)
    requires Aligned(start, f) && start + Pow2(f) <= hi
    requires start + Pow2(k) < hi && Aligned(hi - Pow2(k), k + 1)
    ensures start + Pow2(f) + Pow2(k) <= hi
  {
    var e := hi - Pow2(k);
    AlignedDown(e, k, k + 1);
    if start + Pow2(f) > e {
      if f <= k {
        Laminar(start, f, e, k);
      } else {
        Laminar(e, k + 1, start, f);
      }
    }
  }

  /** Release of the last block runs on past the end of the map. */
  lemma {:induction false} MergeOverruns(z: Zone, s: Buddy, i: nat, k: nat)
    requires i < |s.pages| && s.pages[i].order == k <= MAX_ORDER && Aligned(i, k) && i + Pow2(k) > |s.pages|
    ensures var Merged(s', m, o) := Merge(z, s, i, k);
      |s'.pages| == |s.pages| && m < |s.pages| && m + Pow2(o) > |s.pages|
    decreases MAX_ORDER - k
  {
    if CanMerge(z, s, i, k) {
      BuddyFacts(i, k);
      var b := BuddyOf(z, s.pages, i);
      var s1 := MergeStep(z, s, i, k);
      if !Aligned(i, k + 1) {
        assert Lower(i, b) == b && b + Pow2(k + 1) == i + Pow2(k);
      }
      MergeOverruns(z, s1, Lower(i, b), k + 1);
    }
  }

  lemma OverrunBreaks(z: Zone, s: Buddy, m: nat, o: nat)
    requires z.hi == z.n == |s.pages| && m < |s.pages| && m + Pow2(o) > |s.pages|
    requires s.pages[m] == Page(o, Free)
    ensures !Inv(z, s)
  {
    assert !(m < z.lo && s.pages[m].flag.Kernel?);
    assert !BlockOk(z, s.pages, m);
  }

  /** When the entry past the map looks like the free buddy of the last block,
      allocating that block and releasing it breaks the invariant. */
  lemma PhantomBreaks(z: Zone) returns (ops: seq<Op>, s': Buddy)
    requires ZoneOk(z) && PhantomMatches(z)
    ensures RunsTo(z, Boot(z), ops, s') && !Inv(z, s')
  {
    hide Inv, Aligned, Xor, Tile;
    var k, s0 := z.beyond.order, Boot(z);
    var e := z.n - Pow2(k);
    TileLast(Blank(z.n), z.lo, z.hi, k);
    ops := [AllocOp(k), FreeOp(e)];
    assert FirstOrder(s0.lists, k) == k;
    assert Alloc(z, s0, k).Got? && Alloc(z, s0, k).index == e;
    var s1 := Alloc(z, s0, k).state;
    assert s1.pages == s0.pages[e := Page(k, Used)];
    assert e in UsedHeads(z, s1.pages, -1);
    s' := Dealloc(z, s1, e);
    FirstMergeOverruns(z, s1, e, k);
    assert RunsTo(z, s', [], s');
    assert ops[1..] == [FreeOp(e)] && ops[1..][1..] == [];
    assert RunsTo(z, s1, ops[1..], s');
  }

  /** The last block takes the entry past the map for its free buddy. */
  lemma PhantomStep(z: Zone, s: Buddy, e: nat, k: nat)
    requires PhantomMatches(z) && z.beyond.order == k && e == z.n - Pow2(k)
    requires |s.pages| == z.n && s.pages[e] == Page(k, Used)
    ensures CanMerge(z, s, e, k) && BuddyOf(z, s.pages, e) == z.n && z.n > e
    ensures MergeStep(z, s, e, k).pages == s.pages[e := Page(k + 1, Free)]
    ensures Aligned(e, k + 1) && e + Pow2(k + 1) > z.n
  {
    hide Aligned, Xor;
    AlignedDown(e, k, k + 1);
    BuddyFacts(e, k);
  }

  lemma FirstMergeOverruns(z: Zone, s: Buddy, e: nat, k: nat)
    requires PhantomMatches(z) && z.beyond.order == k && e == z.n - Pow2(k)
    requires |s.pages| == z.n && s.pages[e] == Page(k, Used)
    ensures !Inv(z, Dealloc(z, s, e))
  {
    hide Inv, Aligned, Xor, Pow2, CanMerge, MergeStep, BuddyOf;
    var s0 := s.(usedCount := s.usedCount - Pow2(k), freeCount := s.freeCount + Pow2(k));
    PhantomStep(z, s0, e, k);
    var s1 := MergeStep(z, s0, e, k);
    MergeOverruns(z, s1, e, k + 1);
    var m := Merge(z, s1, e, k + 1);
    assert Merge(z, s0, e, k) == m;
    OverrunBreaks(z, Dealloc(z, s, e), m.index, m.order);
  }

  /** Every run from boot keeps the invariant. */
  ghost predicate AlwaysKept(z: Zone) {
    forall ops, s' :: RunsTo(z, Boot(z), ops, s') ==> Inv(z, s')
  }

  /** Every run from boot keeps the invariant if and only if the entry past the
      page map does not look like the free buddy of the last block. */
  lemma SafeExactly(z: Zone)
    requires ZoneOk(z)
    ensures AlwaysKept(z) <==> !PhantomMatches(z)
  {
    hide Inv, RunsTo, PhantomMatches, Boot;
    BootInv(z);
    if PhantomMatches(z) {
      var ops, s' := PhantomBreaks(z);
      assert RunsTo(z, Boot(z), ops, s') && !Inv(z, s');
    } else {
      forall ops, s' | RunsTo(z, Boot(z), ops, s')
        ensures Inv(z, s')
      {
        RunKeeps(z, Boot(z), ops, s');
      }
    }
  }

  /** With the zero fill that boot memory has past the map, the condition is a
      matter of parity: an odd number of pages, all the way to the end managed. */
  lemma ZeroFillExactly(z: Zone)
    requires ZoneOk(z) && z.beyond == Page(0, Free)
    ensures PhantomMatches(z) <==> z.lo < z.hi == z.n && z.n % 2 == 1
  {
    assert Pow2(0) == 1;
    if z.n > 0 {
      assert Aligned(z.n - 1, 1) <==> (z.n - 1) % 2 == 0;
    }
  }
}
