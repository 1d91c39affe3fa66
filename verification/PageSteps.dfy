/** What mapping one page does to the translation of every page. */
module PageSteps {
  import opened Bits
  import opened NodeList
  import opened BuddyModel
  import opened BuddySteps
  import opened BuddyCalls
  import opened EntryBits
  import opened PageTables

  lemma DirHas(m: Mem, pd: nat)
    requires DirOk(m, pd)
    ensures pd in m.tables
  {
  }

  lemma UsedInZone(z: Zone, pmm: Buddy)
    requires Alloc(z, pmm, 0).Got? && Inv(z, pmm)
    ensures var Got(pmm', i) := Alloc(z, pmm, 0);
      && Inv(z, pmm') && z.lo <= i && i !in UsedHeads(z, pmm.pages, -1)
      && UsedHeads(z, pmm'.pages, -1) == UsedHeads(z, pmm.pages, -1)[i := 0]
  {
    AllocKeeps(z, pmm, 0);
    var Got(pmm', i) := Alloc(z, pmm, 0);
    assert i in UsedHeads(z, pmm'.pages, -1);
  }

  /** A new table is a frame that was neither table nor data. */
  lemma NewTableFresh(z: Zone, m: Mem, src: Source)
    requires Supply(z, m, src) && NewTable(z, m, src).Some?
    ensures var Fresh(m1, t) := NewTable(z, m, src).value;
      && !Known(m, t) && Supply(z, m1, src)
      && m1.tables.Keys == m.tables.Keys + {t} && m1.tables == m.tables[t := m1.tables[t]] && m1.data == m.data
      && (src.Bump? ==> m1.tables[t] == ZeroTable())
      && (src.Pmm? ==> m1.tables[t] == src.left(t) && Alloc(z, m.pmm, 0) == Got(m1.pmm, t))
  {
    if src.Pmm? {
      hide Inv, Alloc, UsedHeads, PhantomMatches;
      UsedInZone(z, m.pmm);
    }
    var Fresh(m1, t) := NewTable(z, m, src).value;
    assert forall f: nat :: Known(m1, f) ==> f == t || Known(m, f);
  }

  lemma SmallOf(e: nat, flag: nat)
    requires Accepts(e, flag) && Present(e)
    ensures IsSmall(e) && Writable(e) && (Usable(flag) ==> Usable(e))
  {
  }

  ghost predicate SameBut(m: Mem, m': Mem, pd: nat, d: nat)
    requires pd in m.tables && d < ENTRIES
  {
    && m.tables.Keys <= m'.tables.Keys && m'.data == m.data
    && pd in m'.tables && (forall i :: 0 <= i < ENTRIES && i != d ==> m'.tables[pd][i] == m.tables[pd][i])
    && (forall f :: f in m.tables && f != pd && !(IsSmall(m.tables[pd][d]) && f == TableOf(m.tables[pd][d])) ==>
          m'.tables[f] == m.tables[f])
  }

  /** The table of entry d is the next page of the page allocator, with what was
      left in it. */
  ghost predicate FromAlloc(z: Zone, m: Mem, m1: Mem, src: Source, pd: nat, d: nat, flag: nat)
    requires src.Pmm? && pd in m.tables && pd in m1.tables && d < ENTRIES
  {
    var t := TableOf(m1.tables[pd][d]);
    && Alloc(z, m.pmm, 0) == Got(m1.pmm, t) && t in m1.tables && m1.tables[t] == src.left(t)
    && m1.tables[pd] == m.tables[pd][d := TableWord(t, flag)]
  }

  /** After EnsureTable the entry for vp names a table of its own. */
  lemma EnsureOk(z: Zone, m: Mem, src: Source, pd: nat, vp: nat, flag: nat)
    requires DirOk(m, pd) && Supply(z, m, src) && vp < PAGES && FlagOk(flag)
    requires Accepts(m.tables[pd][vp / ENTRIES], flag)
    requires EnsureTable(z, m, src, pd, vp, flag).Some?
    ensures var m1, d := EnsureTable(z, m, src, pd, vp, flag).value, vp / ENTRIES;
      && DirOk(m1, pd) && Supply(z, m1, src) && SameBut(m, m1, pd, d)
      && var e := m1.tables[pd][d];
         && IsSmall(e) && Writable(e) && (Usable(flag) ==> Usable(e))
         && (Present(m.tables[pd][d]) ==> m1 == m)
         && (!Present(m.tables[pd][d]) ==>
               && TableOf(e) !in m.tables
               && (src.Bump? ==> m1.tables[TableOf(e)] == ZeroTable())
               && (src.Pmm? ==> FromAlloc(z, m, m1, src, pd, d, flag)))
  {
    hide Supply, Bit, Or;
    var d := vp / ENTRIES;
    if Present(m.tables[pd][d]) {
      SmallOf(m.tables[pd][d], flag);
    } else {
      NewTableFresh(z, m, src);
      var Fresh(m1, t) := NewTable(z, m, src).value;
      TableEntry(t, flag);
      var e := Or(Or(Or(t * PAGE, PRESENT), RW), flag);
      assert TableOf(e) == t;
      SupplySame(z, m1, SetEntry(m1, pd, d, e), src);
      NewDirOk(m, m1, pd, d, e, t);
    }
  }

  lemma SupplySame(z: Zone, m: Mem, m': Mem, src: Source)
    requires Supply(z, m, src) && m'.tables.Keys == m.tables.Keys && m'.data.Keys == m.data.Keys
    requires m'.pmm == m.pmm && m'.bump == m.bump
    ensures Supply(z, m', src)
  {
    assert forall f: nat :: Known(m', f) ==> Known(m, f);
  }

  lemma NewDirOk(m: Mem, m1: Mem, pd: nat, d: nat, e: nat, t: nat)
    requires DirOk(m, pd) && d < ENTRIES && !Present(m.tables[pd][d]) && t !in m.tables
    requires m1.tables.Keys == m.tables.Keys + {t} && m1.tables == m.tables[t := m1.tables[t]]
    requires IsSmall(e) && TableOf(e) == t
    ensures DirOk(SetEntry(m1, pd, d, e), pd)
  {
    hide Bit, TableOf;
    var m2 := SetEntry(m1, pd, d, e);
    assert forall i :: 0 <= i < ENTRIES ==> m2.tables[pd][i] == if i == d then e else m.tables[pd][i];
  }

  // -------------------------------------------------------- one small page

  lemma MapSmallWrites(z: Zone, m: Mem, src: Source, pd: nat, pp: nat, vp: nat, flag: nat)
    requires DirOk(m, pd) && Supply(z, m, src) && vp < PAGES && FlagOk(flag)
    requires Accepts(m.tables[pd][vp / ENTRIES], flag)
    requires MapSmall(z, m, src, pd, pp, vp, flag).Some?
    ensures EnsureTable(z, m, src, pd, vp, flag).Some?
    ensures var m1, d := EnsureTable(z, m, src, pd, vp, flag).value, vp / ENTRIES;
      var m' := MapSmall(z, m, src, pd, pp, vp, flag).value;
      && DirOk(m1, pd) && IsSmall(m1.tables[pd][d]) && SameBut(m, m1, pd, d)
      && var t := TableOf(m1.tables[pd][d]);
         && t in m1.tables && t != pd
         && m' == SetEntry(m1, t, vp % ENTRIES, Or(pp * PAGE, flag))
         && m'.tables[pd] == m1.tables[pd]
  {
    hide Supply, Bit, Or, EnsureTable;
    EnsureOk(z, m, src, pd, vp, flag);
  }

  /** The mapping keeps the directory well formed and touches only its own table. */
  lemma MapSmallKeeps(z: Zone, m: Mem, src: Source, pd: nat, pp: nat, vp: nat, flag: nat)
    requires DirOk(m, pd) && Supply(z, m, src) && vp < PAGES && FlagOk(flag)
    requires Accepts(m.tables[pd][vp / ENTRIES], flag)
    requires MapSmall(z, m, src, pd, pp, vp, flag).Some?
    ensures var m' := MapSmall(z, m, src, pd, pp, vp, flag).value;
      DirOk(m', pd) && Supply(z, m', src) && SameBut(m, m', pd, vp / ENTRIES)
      && IsSmall(m'.tables[pd][vp / ENTRIES]) && Accepts(m'.tables[pd][vp / ENTRIES], flag)
  {
    hide Supply, Bit, Or, MapSmall, EnsureTable;
    MapSmallWrites(z, m, src, pd, pp, vp, flag);
    EnsureOk(z, m, src, pd, vp, flag);
    var m1, m' := EnsureTable(z, m, src, pd, vp, flag).value, MapSmall(z, m, src, pd, pp, vp, flag).value;
    SupplySame(z, m1, m', src);
  }

  /** The page mapped. */
  lemma MapSmallHere(z: Zone, m: Mem, src: Source, pd: nat, pp: nat, vp: nat, flag: nat)
    requires DirOk(m, pd) && Supply(z, m, src) && vp < PAGES && FlagOk(flag)
    requires Accepts(m.tables[pd][vp / ENTRIES], flag)
    requires MapSmall(z, m, src, pd, pp, vp, flag).Some?
    ensures Translate(MapSmall(z, m, src, pd, pp, vp, flag).value, pd, vp) ==
            Some(Hit(pp, Writable(flag), Usable(flag)))
  {
    hide Supply, Bit, Or, MapSmall, EnsureTable, DirOk;
    MapSmallWrites(z, m, src, pd, pp, vp, flag);
    EnsureOk(z, m, src, pd, vp, flag);
    SmallEntry(pp, flag);
  }

  /** Every other page: as before, unless it comes under a table that was made
      for this page from memory that was not zeroed. */
  lemma MapSmallElsewhere(z: Zone, m: Mem, src: Source, pd: nat, pp: nat, vp: nat, flag: nat, vq: nat)
    requires DirOk(m, pd) && Supply(z, m, src) && vp < PAGES && FlagOk(flag)
    requires Accepts(m.tables[pd][vp / ENTRIES], flag)
    requires MapSmall(z, m, src, pd, pp, vp, flag).Some? && vq != vp && vq < PAGES
    requires src.Bump? || vq / ENTRIES != vp / ENTRIES || Present(m.tables[pd][vq / ENTRIES])
    ensures Translate(MapSmall(z, m, src, pd, pp, vp, flag).value, pd, vq) == Translate(m, pd, vq)
  {
    hide Supply, Or, MapSmall, EnsureTable;
    MapSmallWrites(z, m, src, pd, pp, vp, flag);
    EnsureOk(z, m, src, pd, vp, flag);
    var m1, m' := EnsureTable(z, m, src, pd, vp, flag).value, MapSmall(z, m, src, pd, pp, vp, flag).value;
    var d, e := vq / ENTRIES, m.tables[pd][vq / ENTRIES];
    if d != vp / ENTRIES {
      assert m'.tables[pd][d] == e;
      if IsSmall(e) { assert m'.tables[TableOf(e)] == m.tables[TableOf(e)]; }
    } else {
      assert vq % ENTRIES != vp % ENTRIES;
      var t := TableOf(m1.tables[pd][d]);
      assert m'.tables[t][vq % ENTRIES] == m1.tables[t][vq % ENTRIES];
      ZeroNotPresent();
    }
  }

  /** What a page reads through a word that was left in its table. */
  function LeftHit(word: nat, flag: nat): Option<Hit> {
    if Present(word) then Some(Hit(FrameOf(word) / PAGE, Writable(word), Usable(flag) && Usable(word))) else None
  }

  /** A page that comes under a table just taken from the page allocator: it
      translates by the word left there, so as before exactly when that word is
      not present. */
  lemma MapSmallLeftover(z: Zone, m: Mem, src: Source, pd: nat, pp: nat, vp: nat, flag: nat, vq: nat)
    requires DirOk(m, pd) && Supply(z, m, src) && src.Pmm? && vp < PAGES && FlagOk(flag)
    requires MapSmall(z, m, src, pd, pp, vp, flag).Some? && vq != vp && vq < PAGES
    requires vq / ENTRIES == vp / ENTRIES && !Present(m.tables[pd][vp / ENTRIES])
    ensures Alloc(z, m.pmm, 0).Got?
    ensures var word := src.left(Alloc(z, m.pmm, 0).index)[vq % ENTRIES];
      && Translate(MapSmall(z, m, src, pd, pp, vp, flag).value, pd, vq) == LeftHit(word, flag)
      && Translate(m, pd, vq) == None
      && (LeftHit(word, flag) == None <==> !Present(word))
  {
    hide Supply, Bit, Or, MapSmall, EnsureTable, Alloc;
    MapSmallWrites(z, m, src, pd, pp, vp, flag);
    EnsureOk(z, m, src, pd, vp, flag);
    var m1, m' := EnsureTable(z, m, src, pd, vp, flag).value, MapSmall(z, m, src, pd, pp, vp, flag).value;
    var d := vp / ENTRIES;
    assert FromAlloc(z, m, m1, src, pd, d, flag);
    var t := TableOf(m1.tables[pd][d]);
    assert Alloc(z, m.pmm, 0).index == t;
    assert vq % ENTRIES != vp % ENTRIES;
    assert m'.tables[t][vq % ENTRIES] == m1.tables[t][vq % ENTRIES];
    TableEntry(t, flag);
  }

  lemma ZeroNotPresent()
    ensures !Present(0)
  {
  }

  // -------------------------------------------------------- one large page

  lemma MapLargeKeeps(z: Zone, m: Mem, src: Source, pd: nat, pp: nat, vp: nat, flag: nat)
    requires DirOk(m, pd) && Supply(z, m, src) && vp < PAGES && FlagOk(flag) && pp % ENTRIES == 0
    ensures var m' := MapLarge(m, pd, pp, vp, flag);
      DirOk(m', pd) && Supply(z, m', src) && SameBut(m, m', pd, vp / ENTRIES)
  {
    hide Supply, Bit, Or;
    var m' := MapLarge(m, pd, pp, vp, flag);
    SupplySame(z, m, m', src);
    LargeWord(pp, flag);
  }

  lemma LargeWord(pp: nat, flag: nat)
    requires FlagOk(flag) && pp % ENTRIES == 0
    ensures var e := Or(Or(pp * PAGE, SIZE_4MB), flag);
      && Large(e) && Present(e) && LargeFrameOf(e) / PAGE == pp
      && (Writable(e) <==> Writable(flag)) && (Usable(e) <==> Usable(flag))
  {
    assert pp * PAGE == (pp / ENTRIES) * FOUR_MB;
    LargeEntry(pp / ENTRIES, flag);
    assert (pp / ENTRIES) * FOUR_MB / PAGE == pp;
  }

  lemma MapLargeHere(m: Mem, pd: nat, pp: nat, vp: nat, flag: nat, vq: nat)
    requires pd in m.tables && vp < PAGES && vq < PAGES && FlagOk(flag) && pp % ENTRIES == 0
    requires vq / ENTRIES == vp / ENTRIES
    ensures Translate(MapLarge(m, pd, pp, vp, flag), pd, vq) ==
            Some(Hit(pp + vq % ENTRIES, Writable(flag), Usable(flag)))
  {
    hide Bit, Or;
    LargeWord(pp, flag);
  }

  lemma MapLargeElsewhere(m: Mem, pd: nat, pp: nat, vp: nat, flag: nat, vq: nat)
    requires DirOk(m, pd) && vp < PAGES && vq < PAGES && vq / ENTRIES != vp / ENTRIES
    ensures Translate(MapLarge(m, pd, pp, vp, flag), pd, vq) == Translate(m, pd, vq)
  {
    hide Bit, Or;
  }
}
