/** Every word that a mapping call leaves in the directory and in its tables. */
module PageWords {
  import opened Bits
  import opened BuddyModel
  import opened EntryBits
  import opened PageTables
  import opened ElfModel
  import opened PageSteps
  import opened PageTheorems

  /** All 4 MB under directory entry d are mapped, to 4 MB that are aligned too. */
  predicate WholeBlock(pp: nat, vp: nat, n: nat, d: nat) {
    (pp - vp) % 1024 == 0 && vp <= d * 1024 && d * 1024 + 1024 <= vp + n
  }

  /** Page vq has a table, and this word in it. */
  ghost predicate TableHolds(m: Mem, pd: nat, vq: nat, word: nat)
    requires pd in m.tables && vq < PAGES
  {
    var e := m.tables[pd][vq / ENTRIES];
    IsSmall(e) && TableOf(e) in m.tables && m.tables[TableOf(e)][vq % ENTRIES] == word
  }

  /** Where a page of the range is mapped: by a 4 MB entry of the directory exactly if
      its whole block is, otherwise by a word in a table. */
  ghost predicate MappedBy(m: Mem, pd: nat, pp: nat, vp: nat, n: nat, flag: nat, vq: nat)
    requires pd in m.tables && vp <= vq < PAGES
  {
    var d := vq / 1024;
    if WholeBlock(pp, vp, n, d) then m.tables[pd][d] == (pp + d * 1024 - vp) * 4096 + Or(0x80, flag)
    else TableHolds(m, pd, vq, (pp + (vq - vp)) * 4096 + flag)
  }

  lemma SmallSum(pp: nat, flag: nat)
    requires flag < PAGE
    ensures Or(pp * PAGE, flag) == pp * 4096 + flag
  {
    hide Or;
    PageIsAligned(pp);
    OrIsSum(pp * PAGE, flag, 12);
  }

  lemma LargeSum(pp: nat, flag: nat)
    requires flag < PAGE
    ensures LargePageWord(pp, flag) == pp * 4096 + Or(0x80, flag)
  {
    hide Or;
    PageIsAligned(pp);
    OrIsSum(pp * PAGE, SIZE_4MB, 12);
    LowOr(pp * PAGE, SIZE_4MB, flag);
  }

  /** A new entry of the directory: the table's address, present, writable, and the
      flags asked for. */
  lemma TableSum(t: nat, flag: nat)
    requires flag < PAGE
    ensures TableWord(t, flag) == t * 4096 + Or(3, flag)
  {
    hide Or;
    PageIsAligned(t);
    OrIsSum(t * PAGE, PRESENT, 12);
    LowOr(t * PAGE, PRESENT, RW);
    assert Or(PRESENT, RW) == 3 by { LowFlags(); }
    LowOr(t * PAGE, 3, flag);
  }

  lemma LowFlags()
    ensures Or(1, 2) == 3 && Or(1, 4) == 5 && Or(5, 2) == 7 && Or(4, 1) == 5
  {
    assert Or(0, 1) == 1 && Or(2, 0) == 2 && Or(0, 2) == 2;
    assert Or(2, 1) == 3;
  }

  /** The flags of a segment's pages and of the stack. */
  lemma UserFlags(ph: Phdr)
    ensures SegmentFlags(ph) == if ph.flags == 6 then 7 else 5
    ensures StackFlags() == 7
  {
    hide Or;
    LowFlags();
  }

  // -------------------------------------------------------------- one step

  lemma SmallWrites(z: Zone, m: Mem, src: Source, pd: nat, pp: nat, vp: nat, flag: nat)
    requires DirOk(m, pd) && Supply(z, m, src) && vp < PAGES && FlagOk(flag)
    requires Accepts(m.tables[pd][vp / ENTRIES], flag) && MapSmall(z, m, src, pd, pp, vp, flag).Some?
    ensures var m' := MapSmall(z, m, src, pd, pp, vp, flag).value;
      pd in m'.tables && TableHolds(m', pd, vp, pp * 4096 + flag)
  {
    hide Supply, Bit, Or, MapSmall, EnsureTable, DirOk;
    MapSmallWrites(z, m, src, pd, pp, vp, flag);
    SmallSum(pp, flag);
  }

  lemma SmallLeaves(z: Zone, m: Mem, src: Source, pd: nat, pp: nat, vp: nat, flag: nat, vq: nat, word: nat)
    requires DirOk(m, pd) && Supply(z, m, src) && vp < PAGES && FlagOk(flag)
    requires Accepts(m.tables[pd][vp / ENTRIES], flag) && MapSmall(z, m, src, pd, pp, vp, flag).Some?
    requires vq != vp && vq < PAGES && TableHolds(m, pd, vq, word)
    ensures var m' := MapSmall(z, m, src, pd, pp, vp, flag).value; pd in m'.tables && TableHolds(m', pd, vq, word)
  {
    hide Supply, Bit, Or, MapSmall, EnsureTable, FromAlloc, Accepts;
    MapSmallWrites(z, m, src, pd, pp, vp, flag);
    EnsureOk(z, m, src, pd, vp, flag);
    var m1, m' := EnsureTable(z, m, src, pd, vp, flag).value, MapSmall(z, m, src, pd, pp, vp, flag).value;
    var d, e := vq / ENTRIES, m.tables[pd][vq / ENTRIES];
    if d != vp / ENTRIES {
      assert m'.tables[pd][d] == e;
      assert m'.tables[TableOf(e)] == m.tables[TableOf(e)];
    } else {
      assert vq % ENTRIES != vp % ENTRIES;
      assert m1 == m;
    }
  }

  lemma LargeLeaves(m: Mem, pd: nat, pp: nat, vp: nat, flag: nat, vq: nat, word: nat)
    requires DirOk(m, pd) && vp < PAGES && vq < PAGES && vq / ENTRIES != vp / ENTRIES && TableHolds(m, pd, vq, word)
    ensures TableHolds(MapLarge(m, pd, pp, vp, flag), pd, vq, word)
  {
    hide Bit, Or, TableOf;
  }

  // ------------------------------------------------------------- the range

  /** A range leaves the words of the pages outside it. */
  lemma {:induction false} RangeLeaves(
    z: Zone, m: Mem, src: Source, pd: nat, pp: nat, vp: nat, n: nat, flag: nat, vq: nat, word: nat)
    requires Supply(z, m, src) && Ready(m, pd, vp, n, flag) && MapRange(z, m, src, pd, pp, vp, n, flag).Some?
    requires vq < PAGES && !(vp <= vq < vp + n) && TableHolds(m, pd, vq, word)
    ensures var m' := MapRange(z, m, src, pd, pp, vp, n, flag).value; pd in m'.tables && TableHolds(m', pd, vq, word)
    decreases n
  {
    hide Supply, Bit, TableOf, Or, MapSmall, MapLarge, DirOk, SameBut, TableHolds;
    DirHas(m, pd);
    if n > 0 {
      FirstReady(m, pd, vp, n, flag);
      var m1, k := FirstStep(z, m, src, pd, pp, vp, n, flag);
      if UsesLarge(pp, vp, n) {
        LargeLeaves(m, pd, pp, vp, flag, vq, word);
      } else {
        SmallLeaves(z, m, src, pd, pp, vp, flag, vq, word);
      }
      RangeLeaves(z, m1, src, pd, pp + k, vp + k, n - k, flag, vq, word);
    }
  }

  lemma LargeWrites(m: Mem, pd: nat, pp: nat, vp: nat, flag: nat)
    requires pd in m.tables && vp < PAGES && flag < PAGE
    ensures MapLarge(m, pd, pp, vp, flag).tables[pd][vp / ENTRIES] == pp * 4096 + Or(0x80, flag)
  {
    hide Or, LargePageWord;
    LargeSum(pp, flag);
  }

  lemma EntryLeft(z: Zone, m: Mem, src: Source, pd: nat, pp: nat, vp: nat, n: nat, flag: nat, d: nat)
    requires Supply(z, m, src) && Ready(m, pd, vp, n, flag) && MapRange(z, m, src, pd, pp, vp, n, flag).Some?
    requires d < ENTRIES && !Touched(d, vp, n)
    ensures var m' := MapRange(z, m, src, pd, pp, vp, n, flag).value;
      pd in m.tables && pd in m'.tables && m'.tables[pd][d] == m.tables[pd][d]
  {
    hide Supply, Bit, TableOf, MapRange, Reached;
    MapRangeKeeps(z, m, src, pd, pp, vp, n, flag);
  }

  /** After the first k pages, the blocks that are whole are the same. */
  lemma BlockStays(pp: nat, vp: nat, n: nat, k: nat, d: nat)
    requires 0 < k <= n && d * 1024 >= vp + k
    ensures WholeBlock(pp + k, vp + k, n - k, d) <==> WholeBlock(pp, vp, n, d)
  {
  }

  lemma BlockBegun(pp: nat, vp: nat, n: nat)
    requires n > 0 && !UsesLarge(pp, vp, n)
    ensures !WholeBlock(pp, vp, n, vp / 1024)
  {
  }

  lemma BlockUsed(pp: nat, vp: nat, n: nat, vq: nat)
    requires UsesLarge(pp, vp, n) && vp <= vq < vp + 1024
    ensures vq / 1024 == vp / 1024 && vp / 1024 * 1024 == vp && WholeBlock(pp, vp, n, vp / 1024)
    ensures !Touched(vp / 1024, vp + 1024, n - 1024)
  {
  }

  /** Every page of the range, bit by bit: a 4 MB entry exactly for a whole block, with
      the size bit, otherwise a table's word; address and all flags as asked. */
  lemma {:induction false} MapRangeWords(
    z: Zone, m: Mem, src: Source, pd: nat, pp: nat, vp: nat, n: nat, flag: nat, vq: nat)
    requires Supply(z, m, src) && Ready(m, pd, vp, n, flag) && MapRange(z, m, src, pd, pp, vp, n, flag).Some?
    requires vp <= vq < vp + n
    ensures var m' := MapRange(z, m, src, pd, pp, vp, n, flag).value;
      pd in m'.tables && MappedBy(m', pd, pp, vp, n, flag, vq)
    decreases n
  {
    hide Supply, Bit, TableOf, Or, MapSmall, MapLarge, DirOk, SameBut, TableHolds, WholeBlock, MapRange, Ready, Touched;
    RangeFits(m, pd, vp, n, flag);
    FirstReady(m, pd, vp, n, flag);
    DirHas(m, pd);
    FirstPossible(z, m, src, pd, pp, vp, n, flag);
    var m1, k := FirstStep(z, m, src, pd, pp, vp, n, flag);
    if UsesLarge(pp, vp, n) {
      if vq < vp + 1024 {
        BlockUsed(pp, vp, n, vq);
        LargeWrites(m, pd, pp, vp, flag);
        EntryLeft(z, m1, src, pd, pp + k, vp + k, n - k, flag, vp / 1024);
      } else {
        BlockStays(pp, vp, n, k, vq / 1024);
        MapRangeWords(z, m1, src, pd, pp + k, vp + k, n - k, flag, vq);
      }
    } else {
      BlockBegun(pp, vp, n);
      if vq == vp {
        SmallWrites(z, m, src, pd, pp, vp, flag);
        RangeLeaves(z, m1, src, pd, pp + k, vp + k, n - k, flag, vq, pp * 4096 + flag);
      } else {
        LaterBlock(pp, vp, n, vq);
        MapRangeWords(z, m1, src, pd, pp + k, vp + k, n - k, flag, vq);
      }
    }
  }

  lemma RangeFits(m: Mem, pd: nat, vp: nat, n: nat, flag: nat)
    requires Ready(m, pd, vp, n, flag)
    ensures vp + n <= PAGES
  {
  }

  lemma FirstPossible(z: Zone, m: Mem, src: Source, pd: nat, pp: nat, vp: nat, n: nat, flag: nat)
    requires n > 0 && pd in m.tables && vp < PAGES && MapRange(z, m, src, pd, pp, vp, n, flag).Some?
    ensures UsesLarge(pp, vp, n) || MapSmall(z, m, src, pd, pp, vp, flag).Some?
  {
    hide MapSmall, MapLarge;
  }

  lemma LaterBlock(pp: nat, vp: nat, n: nat, vq: nat)
    requires n > 0 && !UsesLarge(pp, vp, n) && vp < vq < vp + n
    ensures WholeBlock(pp + 1, vp + 1, n - 1, vq / 1024) <==> WholeBlock(pp, vp, n, vq / 1024)
  {
    if vq / 1024 == vp / 1024 {
      BlockBegun(pp, vp, n);
    } else {
      BlockStays(pp, vp, n, 1, vq / 1024);
    }
  }
}
