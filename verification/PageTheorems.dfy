/** What a whole mapping call means for every page of the address space. */
module PageTheorems {
  import opened NodeList
  import opened BuddyModel
  import opened EntryBits
  import opened PageTables
  import opened PageSteps

  /** Directory entry d is one that mapping n pages at vp may write. */
  predicate Touched(d: nat, vp: nat, n: nat) {
    vp / ENTRIES <= d && d * ENTRIES < vp + n
  }

  /** Only touched entries of pd, the tables they named before, and frames that
      were not tables have changed. */
  ghost predicate RangeFrame(m: Mem, m': Mem, pd: nat, vp: nat, n: nat)
    requires pd in m.tables
  {
    && m.tables.Keys <= m'.tables.Keys && m'.data == m.data
    && (forall i :: 0 <= i < ENTRIES && !Touched(i, vp, n) ==> m'.tables[pd][i] == m.tables[pd][i])
    && (forall f :: f in m.tables && f != pd && !Reached(m, pd, vp, n, f) ==> m'.tables[f] == m.tables[f])
  }

  ghost predicate Reached(m: Mem, pd: nat, vp: nat, n: nat, f: nat)
    requires pd in m.tables
  {
    exists d :: 0 <= d < ENTRIES && Touched(d, vp, n) && IsSmall(m.tables[pd][d]) && f == TableOf(m.tables[pd][d])
  }

  /** After the first step, the rest of the range is ready too. */
  lemma RestReady(m: Mem, m1: Mem, pd: nat, vp: nat, n: nat, k: nat, flag: nat)
    requires Ready(m, pd, vp, n, flag) && 0 < k <= n && DirOk(m1, pd)
    requires SameBut(m, m1, pd, vp / ENTRIES)
    requires (vp + k) / ENTRIES > vp / ENTRIES || Accepts(m1.tables[pd][vp / ENTRIES], flag)
    ensures Ready(m1, pd, vp + k, n - k, flag)
  {
    hide Bit, TableOf, FlagOk;
    forall d | 0 <= d < ENTRIES && (vp + k) / ENTRIES <= d && d * ENTRIES < vp + n
      ensures Accepts(m1.tables[pd][d], flag)
    {
      if d != vp / ENTRIES { assert m1.tables[pd][d] == m.tables[pd][d]; }
    }
  }

  lemma FirstTouched(vp: nat, n: nat)
    requires n > 0 && vp + n <= PAGES
    ensures vp / ENTRIES < ENTRIES && Touched(vp / ENTRIES, vp, n)
  {
  }

  lemma FrameTrans(m: Mem, m1: Mem, m': Mem, pd: nat, vp: nat, n: nat, k: nat)
    requires pd in m.tables && 0 < k <= n && vp + n <= PAGES && SameBut(m, m1, pd, vp / ENTRIES)
    requires RangeFrame(m1, m', pd, vp + k, n - k)
    requires forall f :: f in m.tables && Reached(m1, pd, vp + k, n - k, f) ==> Reached(m, pd, vp, n, f)
    ensures RangeFrame(m, m', pd, vp, n)
  {
    hide Bit, TableOf, Reached;
    FirstTouched(vp, n);
    forall f | f in m.tables && f != pd && !Reached(m, pd, vp, n, f)
      ensures m'.tables[f] == m.tables[f]
    {
      NotFirst(m, pd, vp, n, f);
      assert m1.tables[f] == m.tables[f];
    }
  }

  lemma NotFirst(m: Mem, pd: nat, vp: nat, n: nat, f: nat)
    requires pd in m.tables && 0 < n && vp + n <= PAGES && !Reached(m, pd, vp, n, f)
    ensures vp / ENTRIES < ENTRIES
    ensures !(IsSmall(m.tables[pd][vp / ENTRIES]) && f == TableOf(m.tables[pd][vp / ENTRIES]))
  {
    hide Bit, TableOf;
    FirstTouched(vp, n);
  }

  /** A table named by the rest of the range was named before, or is new. */
  lemma ReachedBefore(m: Mem, m1: Mem, pd: nat, vp: nat, n: nat, k: nat, f: nat)
    requires pd in m.tables && 0 < k <= n && vp + n <= PAGES && SameBut(m, m1, pd, vp / ENTRIES)
    requires f in m.tables && Reached(m1, pd, vp + k, n - k, f)
    requires var e := m1.tables[pd][vp / ENTRIES];
      IsSmall(e) && TableOf(e) in m.tables ==> e == m.tables[pd][vp / ENTRIES]
    ensures Reached(m, pd, vp, n, f)
  {
    hide Bit, TableOf;
    var d :| 0 <= d < ENTRIES && Touched(d, vp + k, n - k)
      && IsSmall(m1.tables[pd][d]) && f == TableOf(m1.tables[pd][d]);
    assert Touched(d, vp, n);
    assert m1.tables[pd][d] == m.tables[pd][d];
  }

  /** A call keeps the directory well formed and writes only what it must. */
  lemma {:induction false} MapRangeKeeps(z: Zone, m: Mem, src: Source, pd: nat, pp: nat, vp: nat, n: nat, flag: nat)
    requires Supply(z, m, src) && Ready(m, pd, vp, n, flag) && MapRange(z, m, src, pd, pp, vp, n, flag).Some?
    ensures var m' := MapRange(z, m, src, pd, pp, vp, n, flag).value;
      DirOk(m', pd) && Supply(z, m', src) && RangeFrame(m, m', pd, vp, n)
    decreases n
  {
    hide Supply, Bit, TableOf, Or, MapSmall, MapLarge, SameBut, Reached;
    if n > 0 {
      FirstReady(m, pd, vp, n, flag);
      var m1, k := FirstStep(z, m, src, pd, pp, vp, n, flag);
      MapRangeKeeps(z, m1, src, pd, pp + k, vp + k, n - k, flag);
      forall f | f in m.tables && Reached(m1, pd, vp + k, n - k, f)
        ensures Reached(m, pd, vp, n, f)
      {
        ReachedBefore(m, m1, pd, vp, n, k, f);
      }
      FrameTrans(m, m1, MapRange(z, m, src, pd, pp, vp, n, flag).value, pd, vp, n, k);
    }
  }

  lemma FirstReady(m: Mem, pd: nat, vp: nat, n: nat, flag: nat)
    requires Ready(m, pd, vp, n, flag) && n > 0
    ensures vp < PAGES && DirOk(m, pd) && FlagOk(flag) && Accepts(m.tables[pd][vp / ENTRIES], flag)
  {
    hide Bit, TableOf;
    FirstTouched(vp, n);
  }

  /** The first turn of the loop: m1 after it, k pages done. */
  lemma FirstStep(z: Zone, m: Mem, src: Source, pd: nat, pp: nat, vp: nat, n: nat, flag: nat) returns (m1: Mem, k: nat)
    requires Supply(z, m, src) && Ready(m, pd, vp, n, flag) && n > 0
    requires UsesLarge(pp, vp, n) || (pd in m.tables && vp < PAGES && MapSmall(z, m, src, pd, pp, vp, flag).Some?)
    ensures 0 < k <= n && vp / ENTRIES < ENTRIES && k == (if UsesLarge(pp, vp, n) then ENTRIES else 1)
    ensures if UsesLarge(pp, vp, n) then pd in m.tables && vp < PAGES && m1 == MapLarge(m, pd, pp, vp, flag)
            else pd in m.tables && vp < PAGES && MapSmall(z, m, src, pd, pp, vp, flag) == Some(m1)
    ensures DirOk(m1, pd) && Supply(z, m1, src) && SameBut(m, m1, pd, vp / ENTRIES)
    ensures Ready(m1, pd, vp + k, n - k, flag) && Present(m1.tables[pd][vp / ENTRIES])
    ensures MapRange(z, m1, src, pd, pp + k, vp + k, n - k, flag) == MapRange(z, m, src, pd, pp, vp, n, flag)
    ensures var e := m1.tables[pd][vp / ENTRIES];
      && (IsSmall(e) && TableOf(e) in m.tables ==> e == m.tables[pd][vp / ENTRIES])
      && (IsSmall(e) ==> Writable(e))
  {
    hide Supply, Bit, TableOf, Or, SameBut, DirOk, MapSmall, MapLarge, MapRange, FlagOk;
    FirstReady(m, pd, vp, n, flag);
    DirHas(m, pd);
    FirstTurn(z, m, src, pd, pp, vp, n, flag);
    if UsesLarge(pp, vp, n) {
      m1, k := MapLarge(m, pd, pp, vp, flag), ENTRIES;
      LargeFirst(z, m, src, pd, pp, vp, flag);
    } else {
      m1, k := MapSmall(z, m, src, pd, pp, vp, flag).value, 1;
      SmallFirst(z, m, src, pd, pp, vp, flag);
    }
    RestReady(m, m1, pd, vp, n, k, flag);
  }

  /** One turn of the loop, and the rest. */
  lemma FirstTurn(z: Zone, m: Mem, src: Source, pd: nat, pp: nat, vp: nat, n: nat, flag: nat)
    requires n > 0 && pd in m.tables && vp < PAGES
    ensures UsesLarge(pp, vp, n) ==>
      var m1 := MapLarge(m, pd, pp, vp, flag);
      n >= ENTRIES && MapRange(z, m, src, pd, pp, vp, n, flag)
                      == MapRange(z, m1, src, pd, pp + ENTRIES, vp + ENTRIES, n - ENTRIES, flag)
    ensures !UsesLarge(pp, vp, n) && MapSmall(z, m, src, pd, pp, vp, flag).Some? ==>
      var m1 := MapSmall(z, m, src, pd, pp, vp, flag).value;
      MapRange(z, m, src, pd, pp, vp, n, flag) == MapRange(z, m1, src, pd, pp + 1, vp + 1, n - 1, flag)
  {
    hide MapSmall, MapLarge;
  }

  lemma LargeFirst(z: Zone, m: Mem, src: Source, pd: nat, pp: nat, vp: nat, flag: nat)
    requires DirOk(m, pd) && Supply(z, m, src) && vp < PAGES && FlagOk(flag) && pp % ENTRIES == 0
    ensures var m1 := MapLarge(m, pd, pp, vp, flag);
      && DirOk(m1, pd) && Supply(z, m1, src) && SameBut(m, m1, pd, vp / ENTRIES)
      && Present(m1.tables[pd][vp / ENTRIES]) && !IsSmall(m1.tables[pd][vp / ENTRIES])
  {
    hide Supply, Bit, TableOf, Or, SameBut;
    MapLargeKeeps(z, m, src, pd, pp, vp, flag);
    LargeWord(pp, flag);
  }

  lemma SmallFirst(z: Zone, m: Mem, src: Source, pd: nat, pp: nat, vp: nat, flag: nat)
    requires DirOk(m, pd) && Supply(z, m, src) && vp < PAGES && FlagOk(flag)
    requires Accepts(m.tables[pd][vp / ENTRIES], flag) && MapSmall(z, m, src, pd, pp, vp, flag).Some?
    ensures var m1 := MapSmall(z, m, src, pd, pp, vp, flag).value;
      && DirOk(m1, pd) && Supply(z, m1, src) && SameBut(m, m1, pd, vp / ENTRIES)
      && var e := m1.tables[pd][vp / ENTRIES];
         && IsSmall(e) && Writable(e) && Accepts(e, flag)
         && (TableOf(e) in m.tables ==> e == m.tables[pd][vp / ENTRIES])
  {
    hide Supply, Bit, TableOf, Or, EnsureTable, MapSmall, FromAlloc;
    MapSmallKeeps(z, m, src, pd, pp, vp, flag);
    MapSmallWrites(z, m, src, pd, pp, vp, flag);
    EnsureOk(z, m, src, pd, vp, flag);
  }

  // ------------------------------------------------------- outside the range

  /** The tables that mapping n pages at vp takes from the page allocator, by
      directory entry: each absent entry gets the next page. */
  function TablesGiven(z: Zone, pmm: Buddy, dir: Table, pp: nat, vp: nat, n: nat, flag: nat): map<nat, nat>
    decreases n
  {
    if n == 0 || vp >= PAGES then map[]
    else if UsesLarge(pp, vp, n) then
      TablesGiven(z, pmm, dir[vp / ENTRIES := LargePageWord(pp, flag)], pp + ENTRIES, vp + ENTRIES, n - ENTRIES, flag)
    else if Present(dir[vp / ENTRIES]) then TablesGiven(z, pmm, dir, pp + 1, vp + 1, n - 1, flag)
    else
      match Alloc(z, pmm, 0)
      case Panic => map[]
      case Got(pmm', t) =>
        var rest := TablesGiven(z, pmm', dir[vp / ENTRIES := TableWord(t, flag)], pp + 1, vp + 1, n - 1, flag);
        rest[vp / ENTRIES := t]
  }

  /** Page vq comes under an entry that was absent and that the range touches. */
  predicate UnderNewTable(dir: Table, vp: nat, n: nat, vq: nat)
    requires vq < PAGES
  {
    n > 0 && !Present(dir[vq / ENTRIES]) && Touched(vq / ENTRIES, vp, n)
  }

  /** The word left for page vq in the table its entry is given, as memory holds
      it before the call. */
  function LeftWord(z: Zone, m: Mem, src: Source, pd: nat, pp: nat, vp: nat, n: nat, flag: nat, vq: nat): nat
    requires src.Pmm? && pd in m.tables && vq < PAGES
  {
    var given := TablesGiven(z, m.pmm, m.tables[pd], pp, vp, n, flag);
    if vq / ENTRIES in given then src.left(given[vq / ENTRIES])[vq % ENTRIES] else 0
  }

  /** The first turn and the tables given: the rest of the range is given the rest. */
  lemma GivenStep(z: Zone, m: Mem, m1: Mem, src: Source, pd: nat, pp: nat, vp: nat, n: nat, flag: nat, k: nat)
    requires Supply(z, m, src) && Ready(m, pd, vp, n, flag) && n > 0 && src.Pmm?
    requires pd in m.tables && pd in m1.tables && vp < PAGES
    requires if UsesLarge(pp, vp, n) then k == ENTRIES && m1 == MapLarge(m, pd, pp, vp, flag)
             else k == 1 && MapSmall(z, m, src, pd, pp, vp, flag) == Some(m1)
    ensures var d, given := vp / ENTRIES, TablesGiven(z, m.pmm, m.tables[pd], pp, vp, n, flag);
      var rest := TablesGiven(z, m1.pmm, m1.tables[pd], pp + k, vp + k, n - k, flag);
      if UsesLarge(pp, vp, n) || Present(m.tables[pd][d]) then given == rest
      else Alloc(z, m.pmm, 0).Got? && given == rest[d := Alloc(z, m.pmm, 0).index]
  {
    hide Supply, Bit, TableOf, Or, Alloc, MapSmall, EnsureTable;
    if !UsesLarge(pp, vp, n) {
      FirstReady(m, pd, vp, n, flag);
      MapSmallWrites(z, m, src, pd, pp, vp, flag);
      EnsureOk(z, m, src, pd, vp, flag);
    }
  }

  /** Pages outside the range translate as before, except under a table newly taken
      from the page allocator, which is not zeroed: there they translate by the
      words left in it. */
  lemma {:induction false} MapRangeOutside(
    z: Zone, m: Mem, src: Source, pd: nat, pp: nat, vp: nat, n: nat, flag: nat, vq: nat)
    requires Supply(z, m, src) && Ready(m, pd, vp, n, flag) && MapRange(z, m, src, pd, pp, vp, n, flag).Some?
    requires vq < PAGES && !(vp <= vq < vp + n)
    ensures Translate(MapRange(z, m, src, pd, pp, vp, n, flag).value, pd, vq) ==
            if src.Bump? || !UnderNewTable(m.tables[pd], vp, n, vq) then Translate(m, pd, vq)
            else LeftHit(LeftWord(z, m, src, pd, pp, vp, n, flag, vq), flag)
    decreases n
  {
    hide Supply, Bit, TableOf, Or, MapSmall, MapLarge, Translate, DirOk, TablesGiven, LeftHit, Alloc;
    DirHas(m, pd);
    if n == 0 {
    } else if src.Bump? || !UnderNewTable(m.tables[pd], vp, n, vq) {
      MapRangeSame(z, m, src, pd, pp, vp, n, flag, vq);
    } else {
      FirstReady(m, pd, vp, n, flag);
      var m1, k := FirstStep(z, m, src, pd, pp, vp, n, flag);
      GivenStep(z, m, m1, src, pd, pp, vp, n, flag, k);
      if vq / ENTRIES == vp / ENTRIES {
        MapSmallLeftover(z, m, src, pd, pp, vp, flag, vq);
        MapRangeSame(z, m1, src, pd, pp + k, vp + k, n - k, flag, vq);
      } else {
        StillAbsent(m, m1, pd, vp, n, k, vq);
        MapRangeOutside(z, m1, src, pd, pp + k, vp + k, n - k, flag, vq);
      }
    }
  }

  lemma StillAbsent(m: Mem, m1: Mem, pd: nat, vp: nat, n: nat, k: nat, vq: nat)
    requires pd in m.tables && vp < PAGES && vq < PAGES && SameBut(m, m1, pd, vp / ENTRIES)
    requires UnderNewTable(m.tables[pd], vp, n, vq) && vq / ENTRIES != vp / ENTRIES
    requires k == 1 || (k == ENTRIES && vp % ENTRIES == 0)
    ensures UnderNewTable(m1.tables[pd], vp + k, n - k, vq)
  {
    hide Bit, TableOf;
  }

  /** The exact condition: a page outside the range translates as before if and
      only if it is not under a new table of the page allocator or the word left
      for it there is not present. */
  lemma OutsideExactly(z: Zone, m: Mem, src: Source, pd: nat, pp: nat, vp: nat, n: nat, flag: nat, vq: nat)
    requires Supply(z, m, src) && Ready(m, pd, vp, n, flag) && MapRange(z, m, src, pd, pp, vp, n, flag).Some?
    requires vq < PAGES && !(vp <= vq < vp + n)
    ensures Translate(MapRange(z, m, src, pd, pp, vp, n, flag).value, pd, vq) == Translate(m, pd, vq) <==>
            src.Bump? || !UnderNewTable(m.tables[pd], vp, n, vq)
            || !Present(LeftWord(z, m, src, pd, pp, vp, n, flag, vq))
  {
    hide Supply, Bit, TableOf, MapRange, DirOk, LeftWord;
    MapRangeOutside(z, m, src, pd, pp, vp, n, flag, vq);
  }

  /** Pages outside the range and not under a new uncleared table. */
  lemma {:induction false} MapRangeSame(
    z: Zone, m: Mem, src: Source, pd: nat, pp: nat, vp: nat, n: nat, flag: nat, vq: nat)
    requires Supply(z, m, src) && Ready(m, pd, vp, n, flag) && MapRange(z, m, src, pd, pp, vp, n, flag).Some?
    requires vq < PAGES && !(vp <= vq < vp + n)
    requires src.Bump? || Present(m.tables[pd][vq / ENTRIES]) || !Touched(vq / ENTRIES, vp, n)
    ensures Translate(MapRange(z, m, src, pd, pp, vp, n, flag).value, pd, vq) == Translate(m, pd, vq)
    decreases n
  {
    hide Supply, Bit, TableOf, Or, MapSmall, MapLarge, Translate, DirOk;
    if n > 0 {
      FirstReady(m, pd, vp, n, flag);
      FirstTouched(vp, n);
      var m1, k := FirstStep(z, m, src, pd, pp, vp, n, flag);
      if UsesLarge(pp, vp, n) {
        MapLargeElsewhere(m, pd, pp, vp, flag, vq);
      } else {
        MapSmallElsewhere(z, m, src, pd, pp, vp, flag, vq);
      }
      if Present(m.tables[pd][vq / ENTRIES]) { StillThere(m, m1, pd, vp, vq); }
      MapRangeSame(z, m1, src, pd, pp + k, vp + k, n - k, flag, vq);
    }
  }

  lemma StillThere(m: Mem, m1: Mem, pd: nat, vp: nat, vq: nat)
    requires pd in m.tables && vp < PAGES && vq < PAGES && SameBut(m, m1, pd, vp / ENTRIES)
    requires Present(m1.tables[pd][vp / ENTRIES]) && Present(m.tables[pd][vq / ENTRIES])
    ensures Present(m1.tables[pd][vq / ENTRIES])
  {
    hide Bit, TableOf;
  }

  /** Page vp + i translates to page pp + i with the requested permissions, for
      every i below n, whatever mix of 4 MB and 4 KB entries the loop chose. */
  lemma {:induction false} MapRangeInside(
    z: Zone, m: Mem, src: Source, pd: nat, pp: nat, vp: nat, n: nat, flag: nat, vq: nat)
    requires Supply(z, m, src) && Ready(m, pd, vp, n, flag) && MapRange(z, m, src, pd, pp, vp, n, flag).Some?
    requires vp <= vq < vp + n
    ensures Translate(MapRange(z, m, src, pd, pp, vp, n, flag).value, pd, vq)
            == Some(Hit(pp + (vq - vp), Writable(flag), Usable(flag)))
    decreases n
  {
    hide Supply, Bit, TableOf, Or, MapSmall, MapLarge, Translate, DirOk, SameBut;
    FirstReady(m, pd, vp, n, flag);
    var m1, k := FirstStep(z, m, src, pd, pp, vp, n, flag);
    if vq >= vp + k {
      MapRangeInside(z, m1, src, pd, pp + k, vp + k, n - k, flag, vq);
    } else {
      if UsesLarge(pp, vp, n) {
        MapLargeHere(m, pd, pp, vp, flag, vq);
      } else {
        MapSmallHere(z, m, src, pd, pp, vp, flag);
      }
      MapRangeSame(z, m1, src, pd, pp + k, vp + k, n - k, flag, vq);
    }
  }
}
