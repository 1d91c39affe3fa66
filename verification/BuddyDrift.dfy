/** Runs during which the memory just past the page map changes. Where that memory
    lies follows from the layout of the map, so both cases occur. */
module BuddyDrift {
  import opened Bits
  import opened BuddyModel
  import opened BuddySteps
  import opened BuddyBoot
  import opened BuddyRuns

  /** A call together with what the entry past the map reads as when it is made. */
  datatype Timed = Timed(op: Op, beyond: Page)

  ghost predicate DriftsTo(z: Zone, s: Buddy, ops: seq<Timed>, s': Buddy)
    decreases ops
  {
    if ops == [] then s == s'
    else
      var z1 := z.(beyond := ops[0].beyond);
      Allowed(z1, s, ops[0].op) && DriftsTo(z, Apply(z1, s, ops[0].op), ops[1..], s')
  }

  /** Every run from boot keeps the invariant, whatever is written past the map. */
  ghost predicate AlwaysKeptDrifting(z: Zone) {
    forall ops, s' :: DriftsTo(z, Boot(z), ops, s') ==> Inv(z, s')
  }

  /** A block of order k at the end of the map would have its buddy just past it. */
  predicate EndsBlock(z: Zone, k: nat) {
    z.hi == z.n && z.lo + Pow2(k) <= z.n && Aligned(z.n - Pow2(k), k + 1)
  }

  /** Some order below the maximum has such a block. */
  ghost predicate OpenEnded(z: Zone) {
    exists k: nat :: k < MAX_ORDER && EndsBlock(z, k)
  }

  // ------------------------------------------- the invariant does not look there

  lemma TilingAt(z: Zone, b: Page, pages: seq<Page>)
    ensures Tiling(z.(beyond := b), pages) <==> Tiling(z, pages)
  {
    var z1 := z.(beyond := b);
    if |pages| == z.n && z.hi <= z.n {
      assert forall i :: 0 <= i < |pages| ==> BlockOk(z1, pages, i) == BlockOk(z, pages, i);
      assert forall p :: 0 <= p < |pages| ==> Owned(z1, pages, p) == Owned(z, pages, p);
    }
  }

  lemma ListsAt(z: Zone, b: Page, s: Buddy)
    ensures ListsOk(z.(beyond := b), s.pages, s.lists, -1) <==> ListsOk(z, s.pages, s.lists, -1)
  {
    var z1 := z.(beyond := b);
    assert forall k, i: nat :: 0 <= k <= MAX_ORDER ==>
      Listed(z1, s.pages, s.lists, -1, k, i) == Listed(z, s.pages, s.lists, -1, k, i);
  }

  lemma CanonicalAt(z: Zone, b: Page, pages: seq<Page>)
    ensures Canonical(z.(beyond := b), pages, -1) <==> Canonical(z, pages, -1)
  {
    var z1 := z.(beyond := b);
    assert forall i: nat :: NotMergeable(z1, pages, -1, i) == NotMergeable(z, pages, -1, i);
  }

  lemma InvAt(z: Zone, b: Page, s: Buddy)
    ensures Inv(z.(beyond := b), s) <==> Inv(z, s)
  {
    var z1 := z.(beyond := b);
    TilingAt(z, b, s.pages);
    ListsAt(z, b, s);
    CanonicalAt(z, b, s.pages);
    assert FreePages(z1, s.pages, -1) == FreePages(z, s.pages, -1);
    assert UsedPages(z1, s.pages) == UsedPages(z, s.pages);
    hide Tiling, ListsOk, Canonical, FreePages, UsedPages;
  }

  // --------------------------------------------------------- the exact condition

  lemma PhantomAt(z: Zone, b: Page)
    ensures PhantomMatches(z.(beyond := b)) <==> b.flag.Free? && b.order < MAX_ORDER && EndsBlock(z, b.order)
  {
  }

  lemma {:induction false} DriftKeeps(z: Zone, s: Buddy, ops: seq<Timed>, s': Buddy)
    requires Inv(z, s) && !OpenEnded(z) && DriftsTo(z, s, ops, s')
    ensures Inv(z, s')
    decreases ops
  {
    hide Inv, Allowed, Apply, PhantomMatches, EndsBlock;
    if ops != [] {
      var b := ops[0].beyond;
      var z1 := z.(beyond := b);
      PhantomAt(z, b);
      InvAt(z, b, s);
      ApplyKeeps(z1, s, ops[0].op);
      InvAt(z, b, Apply(z1, s, ops[0].op));
      DriftKeeps(z, Apply(z1, s, ops[0].op), ops[1..], s');
    }
  }

  function Steady(ops: seq<Op>, b: Page): seq<Timed> {
    seq(|ops|, i requires 0 <= i < |ops| => Timed(ops[i], b))
  }

  /** A run with the entry fixed at b is such a run. */
  lemma {:induction false} SteadyRun(z: Zone, b: Page, s: Buddy, ops: seq<Op>, s': Buddy)
    requires RunsTo(z.(beyond := b), s, ops, s')
    ensures DriftsTo(z, s, Steady(ops, b), s')
    decreases ops
  {
    hide Allowed, Apply;
    if ops != [] {
      SteadyRun(z, b, Apply(z.(beyond := b), s, ops[0]), ops[1..], s');
      assert Steady(ops, b)[1..] == Steady(ops[1..], b);
    }
  }

  /** Whatever is written past the map, every run from boot keeps the invariant if
      and only if no block below the maximum order ends exactly at its end. */
  lemma DriftSafeExactly(z: Zone)
    requires ZoneOk(z)
    ensures AlwaysKeptDrifting(z) <==> !OpenEnded(z)
  {
    hide Inv, DriftsTo, PhantomMatches, Boot, EndsBlock;
    BootInv(z);
    if OpenEnded(z) {
      var k: nat :| k < MAX_ORDER && EndsBlock(z, k);
      var b := Page(k, Free);
      PhantomAt(z, b);
      var ops, s' := PhantomBreaks(z.(beyond := b));
      BootAt(z, b);
      SteadyRun(z, b, Boot(z), ops, s');
      InvAt(z, b, s');
      assert DriftsTo(z, Boot(z), Steady(ops, b), s') && !Inv(z, s');
    } else {
      forall ops, s' | DriftsTo(z, Boot(z), ops, s')
        ensures Inv(z, s')
      {
        DriftKeeps(z, Boot(z), ops, s');
      }
    }
  }

  lemma BootAt(z: Zone, b: Page)
    ensures Boot(z.(beyond := b)) == Boot(z)
  {
  }

  // ------------------------------------------------------ where the entry lies

  /** sizeof(Page): two links, order and flags, padded to four bytes. */
  const ENTRY: nat := 12
  /** Where order and flags start in an entry. */
  const FIELDS: nat := 8

  /** Pages of boot memory that a map of n entries takes. */
  function MapPages(n: nat): nat { (ENTRY * n + PAGE - 1) / PAGE }

  /** Order and flags of the entry past the map lie after the map's last page: in
      the first page the allocator manages. */
  predicate PastLastPage(n: nat) { ENTRY * n + FIELDS >= PAGE * MapPages(n) }

  /** That happens for three residues; otherwise the fields are in the unused end of
      the map's last page, which bump_alloc zeroed and nobody writes. */
  lemma PastLastPageExactly(n: nat)
    ensures PastLastPage(n) <==> n % 1024 == 0 || n % 1024 == 341 || n % 1024 == 682
    ensures !PastLastPage(n) ==> ENTRY * n + FIELDS + 2 <= PAGE * MapPages(n)
  {
    var q, r := n / 1024, n % 1024;
    assert n == 1024 * q + r && ENTRY * n == PAGE * (3 * q) + 12 * r;
    var t := (12 * r + PAGE - 1) / PAGE;
    assert MapPages(n) == 3 * q + t;
  }

  /** make_pages: the number of entries, and the placement address after the pages
      of the map are taken one by one. */
  method MakePages(totalSize: nat, placement: nat) returns (pageN: nat, placement': nat)
    requires totalSize > 0
    ensures pageN * PAGE >= totalSize && (pageN - 1) * PAGE < totalSize
    ensures placement' == placement + PAGE * MapPages(pageN)
    ensures PAGE * MapPages(pageN) >= ENTRY * pageN
  {
    pageN := (totalSize + (PAGE - 1)) / PAGE;
    var pagesNeeded := (ENTRY * pageN + (PAGE - 1)) / PAGE;
    ghost var all := pagesNeeded;
    placement' := placement + PAGE;
    pagesNeeded := pagesNeeded - 1;
    while pagesNeeded > 0
      invariant 0 <= pagesNeeded < all
      invariant placement' == placement + PAGE * (all - pagesNeeded)
    {
      pagesNeeded := pagesNeeded - 1;
      placement' := placement' + PAGE;
    }
  }

  // ------------------------------------------------------- the source's layout

  /** A multiple of 1024 entries ends no block below the maximum order. */
  lemma WholeEnd(z: Zone)
    requires z.n % 1024 == 0
    ensures !OpenEnded(z)
  {
    hide Aligned, Pow2;
    forall k: nat | k < MAX_ORDER
      ensures !EndsBlock(z, k)
    {
      if z.lo + Pow2(k) <= z.n && Aligned(z.n - Pow2(k), k + 1) {
        AlignedDown(z.n - Pow2(k), k, k + 1);
        AlignedAdd(z.n - Pow2(k), k);
        MultipleOf1024(z.n);
        AlignedDown(z.n, k + 1, MAX_ORDER);
      }
    }
  }

  lemma MultipleOf1024(n: nat)
    requires n % 1024 == 0
    ensures Aligned(n, MAX_ORDER)
  {
    assert Pow2(10) == 1024 by { assert Pow2(5) == 32; }
    MultipleIsAligned(n / 1024, MAX_ORDER);
    assert n / 1024 * 1024 == n;
  }

  /** The entry past the map as boot leaves it, for a map in pages of its own. */
  predicate ZeroFilled(z: Zone) { z.beyond == Page(0, Free) }

  /** For every number of entries: where the entry past the map is in managed memory
      and so may change, all runs are safe exactly when the managed range does not
      end at the map's end with room for one page (341) or two (682); elsewhere it
      stays zero, and all runs are safe exactly when the range does not end there
      with an odd number of pages. */
  lemma LayoutSafeExactly(z: Zone)
    requires ZoneOk(z)
    ensures PastLastPage(z.n) ==>
      (AlwaysKeptDrifting(z) <==> !(z.hi == z.n && ((z.n % 1024 == 341 && z.lo + 1 <= z.n)
                                                    || (z.n % 1024 == 682 && z.lo + 2 <= z.n))))
    ensures !PastLastPage(z.n) && ZeroFilled(z) ==>
      (AlwaysKept(z) <==> !(z.lo < z.hi == z.n && z.n % 2 == 1))
  {
    hide AlwaysKept, AlwaysKeptDrifting, PhantomMatches;
    PastLastPageExactly(z.n);
    if PastLastPage(z.n) {
      DriftSafeExactly(z);
      if z.n % 1024 == 0 { WholeEnd(z); } else { ShortEnd(z); }
    } else if ZeroFilled(z) {
      SafeExactly(z);
      ZeroFillExactly(z);
    }
  }

  /** An odd number of entries can end only a block of one page, twice an odd number
      only a block of two. */
  lemma ShortEnd(z: Zone)
    requires z.n % 1024 == 341 || z.n % 1024 == 682
    ensures OpenEnded(z) <==> z.hi == z.n && z.lo + (if z.n % 1024 == 341 then 1 else 2) <= z.n
  {
    var j := if z.n % 1024 == 341 then 0 else 1;
    assert Pow2(j) == j + 1;
    assert z.n >= Pow2(j) && Aligned(z.n - Pow2(j), j + 1) by { EndAligned(z.n, j); }
    if z.hi == z.n && z.lo + Pow2(j) <= z.n { assert EndsBlock(z, j); }
    if OpenEnded(z) {
      var k: nat :| k < MAX_ORDER && EndsBlock(z, k);
      OneEnd(z.n, j, k);
    }
  }

  lemma EndAligned(n: nat, j: nat)
    requires (n % 1024 == 341 && j == 0) || (n % 1024 == 682 && j == 1)
    ensures n >= Pow2(j) && Aligned(n - Pow2(j), j + 1)
  {
    hide Aligned;
    var q := n / 1024;
    assert Pow2(0) == 1 && Pow2(1) == 2;
    if j == 0 {
      assert n - 1 == 2 * (512 * q + 170);
      AlignedDouble(512 * q + 170, 0);
    } else {
      assert n - 2 == 2 * (2 * (256 * q + 170));
      AlignedDouble(256 * q + 170, 0);
      AlignedDouble(2 * (256 * q + 170), 1);
    }
    AlignedZero(512 * q + 170);
    AlignedZero(256 * q + 170);
  }

  /** Only one order fits the end of n entries. */
  lemma OneEnd(n: nat, j: nat, k: nat)
    requires n >= Pow2(j) && Aligned(n - Pow2(j), j + 1)
    requires n >= Pow2(k) && Aligned(n - Pow2(k), k + 1)
    ensures j == k
  {
    hide Aligned, Pow2;
    EndFacts(n, j);
    EndFacts(n, k);
    if j < k { AlignedDown(n, j + 1, k); }
    if k < j { AlignedDown(n, k + 1, j); }
  }

  lemma EndFacts(n: nat, k: nat)
    requires n >= Pow2(k) && Aligned(n - Pow2(k), k + 1)
    ensures Aligned(n, k) && !Aligned(n, k + 1)
  {
    hide Aligned, Pow2;
    AlignedDown(n - Pow2(k), k, k + 1);
    AlignedAdd(n - Pow2(k), k);
  }
}
