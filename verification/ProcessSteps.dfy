/** What loading one page into a new address space keeps. */
module ProcessSteps {
  import opened Bits
  import opened NodeList
  import opened BuddyModel
  import opened BuddySteps
  import opened EntryBits
  import opened PageTables
  import opened PageSteps
  import opened ElfModel

  /** Everything that was table or data in w is still there, unchanged. */
  ghost predicate Extends(w: Mem, m: Mem) {
    && (forall f :: f in w.tables ==> f in m.tables && m.tables[f] == w.tables[f])
    && (forall f :: f in w.data ==> f in m.data && m.data[f] == w.data[f])
  }

  /** A user-half entry: absent, or a table of the process's own. */
  ghost predicate UserEntry(w: Mem, e: nat) {
    Present(e) ==> IsSmall(e) && Writable(e) && Usable(e) && TableOf(e) !in w.tables
  }

  /** Directory pd, under construction in m, on top of the memory w before it:
      kernel half as in kpd, user half its own. */
  ghost predicate Building(z: Zone, w: Mem, m: Mem, src: Source, kpd: nat, pd: nat) {
    && kpd in w.tables && pd !in w.tables && Extends(w, m)
    && DirOk(m, pd) && src.Pmm? && Supply(z, m, src)
    && (forall d :: 0 <= d < KERNEL_DIR ==> UserEntry(w, m.tables[pd][d]))
    && (forall d :: KERNEL_DIR <= d < ENTRIES ==> m.tables[pd][d] == w.tables[kpd][d])
  }

  predicate UserFlag(flag: nat) { FlagOk(flag) && Usable(flag) }

  /** Page vq translates and reads the same in m' as it did in m. */
  ghost predicate PageKept(m: Mem, m': Mem, pd: nat, vq: nat) {
    var hit := Translate(m, pd, vq);
    hit.Some? && hit.value.page in m.data ==>
      Translate(m', pd, vq) == hit && hit.value.page in m'.data && m'.data[hit.value.page] == m.data[hit.value.page]
  }

  /** A page of data nobody used before. */
  lemma NewDataFresh(z: Zone, m: Mem, src: Source, content: seq<nat>)
    requires src.Pmm? && Supply(z, m, src) && NewData(z, m, content).Some?
    ensures var Fresh(m1, f) := NewData(z, m, content).value;
      && !Known(m, f) && Supply(z, m1, src) && m1.tables == m.tables && m1.data == m.data[f := content]
  {
    hide Inv, Alloc, UsedHeads, PhantomMatches;
    UsedInZone(z, m.pmm);
    var Fresh(m1, f) := NewData(z, m, content).value;
    assert forall g: nat :: Known(m1, g) ==> g == f || Known(m, g);
  }

  lemma BuildingData(z: Zone, w: Mem, m: Mem, m1: Mem, src: Source, kpd: nat, pd: nat, f: nat, content: seq<nat>)
    requires Building(z, w, m, src, kpd, pd) && !Known(m, f) && Supply(z, m1, src)
    requires m1.tables == m.tables && m1.data == m.data[f := content]
    ensures Building(z, w, m1, src, kpd, pd)
    ensures forall vq :: Translate(m1, pd, vq) == Translate(m, pd, vq)
  {
    hide Supply, Bit, TableOf;
  }

  /** Mapping one user page: the address space under construction stays well
      formed, and no frame of w is written. */
  lemma MapUserKeeps(z: Zone, w: Mem, m: Mem, src: Source, kpd: nat, pd: nat, f: nat, vp: nat, flag: nat)
    requires Building(z, w, m, src, kpd, pd) && vp < USER_PAGES && UserFlag(flag)
    requires MapRange(z, m, src, pd, f, vp, 1, flag).Some?
    ensures var m' := MapRange(z, m, src, pd, f, vp, 1, flag).value;
      Building(z, w, m', src, kpd, pd) && m'.data == m.data
  {
    hide Supply, Bit, TableOf, Or, EnsureTable, MapSmall;
    var d := vp / ENTRIES;
    UserAccepts(w, m.tables[pd][d], flag);
    OneSmall(z, m, src, pd, f, vp, flag);
    MapSmallKeeps(z, m, src, pd, f, vp, flag);
    MapSmallWrites(z, m, src, pd, f, vp, flag);
    EnsureOk(z, m, src, pd, vp, flag);
    var m' := MapSmall(z, m, src, pd, f, vp, flag).value;
    forall g | g in w.tables
      ensures g in m'.tables && m'.tables[g] == w.tables[g]
    {
      assert m.tables[g] == w.tables[g];
      assert !(IsSmall(m.tables[pd][d]) && g == TableOf(m.tables[pd][d]));
    }
    forall e | 0 <= e < KERNEL_DIR
      ensures UserEntry(w, m'.tables[pd][e])
    {
      assert UserEntry(w, m.tables[pd][e]);
      if e != d { assert m'.tables[pd][e] == m.tables[pd][e]; }
    }
  }

  lemma OneSmall(z: Zone, m: Mem, src: Source, pd: nat, f: nat, vp: nat, flag: nat)
    requires pd in m.tables && vp < PAGES
    ensures MapRange(z, m, src, pd, f, vp, 1, flag) == MapSmall(z, m, src, pd, f, vp, flag)
  {
    var r := MapSmall(z, m, src, pd, f, vp, flag);
    if r.Some? {
      assert MapRange(z, r.value, src, pd, f + 1, vp + 1, 0, flag) == Some(r.value);
    }
  }

  lemma UserAccepts(w: Mem, e: nat, flag: nat)
    requires UserEntry(w, e)
    ensures Accepts(e, flag)
  {
  }

  lemma UserReady(z: Zone, w: Mem, m: Mem, src: Source, kpd: nat, pd: nat, vp: nat, flag: nat)
    requires Building(z, w, m, src, kpd, pd) && vp < USER_PAGES && UserFlag(flag)
    ensures Ready(m, pd, vp, 1, flag) && Supply(z, m, src)
  {
    hide Supply, Bit, TableOf;
    forall d | 0 <= d < ENTRIES && vp / ENTRIES <= d && d * ENTRIES < vp + 1
      ensures Accepts(m.tables[pd][d], flag)
    {
      UserAccepts(w, m.tables[pd][d], flag);
    }
  }

  /** The page mapped, and every page that already read data. */
  lemma MapUserMeans(z: Zone, w: Mem, m: Mem, src: Source, kpd: nat, pd: nat, f: nat, vp: nat, flag: nat)
    requires Building(z, w, m, src, kpd, pd) && vp < USER_PAGES && UserFlag(flag)
    requires MapRange(z, m, src, pd, f, vp, 1, flag).Some?
    ensures var m' := MapRange(z, m, src, pd, f, vp, 1, flag).value;
      && Translate(m', pd, vp) == Some(Hit(f, Writable(flag), true))
      && forall vq :: vq != vp ==> PageKept(m, m', pd, vq)
  {
    hide Supply, Bit, TableOf, Or, MapSmall, Translate;
    var d := vp / ENTRIES;
    UserAccepts(w, m.tables[pd][d], flag);
    OneSmall(z, m, src, pd, f, vp, flag);
    MapSmallHere(z, m, src, pd, f, vp, flag);
    MapUserKeeps(z, w, m, src, kpd, pd, f, vp, flag);
    var m' := MapSmall(z, m, src, pd, f, vp, flag).value;
    forall vq | vq != vp
      ensures PageKept(m, m', pd, vq)
    {
      if vq >= 0 && Translate(m, pd, vq).Some? {
        HitIsPresent(m, pd, vq);
        MapSmallElsewhere(z, m, src, pd, f, vp, flag, vq);
      }
    }
  }

  lemma HitIsPresent(m: Mem, pd: nat, vq: nat)
    requires pd in m.tables && Translate(m, pd, vq).Some?
    ensures vq < PAGES && Present(m.tables[pd][vq / ENTRIES])
  {
  }

  // --------------------------------------------------------------- one page

  lemma FlagsOk(ph: Phdr)
    ensures UserFlag(SegmentFlags(ph)) && (Writable(SegmentFlags(ph)) <==> ph.flags == PF_RW)
    ensures UserFlag(StackFlags()) && Writable(StackFlags())
  {
    assert Or(1, 4) == 5 by { assert Or(0, 2) == 2; assert Or(0, 1) == 1; }
    assert Or(4, 1) == 5 by { assert Or(2, 0) == 2; assert Or(1, 0) == 1; }
    assert Or(5, 2) == 7 by { assert Or(2, 1) == 3; assert Or(1, 0) == 1; }
    assert Bit(5, 2) && Bit(7, 2) && Bit(7, 1) && !Bit(5, 1);
    assert !Bit(5, 7) && !Bit(7, 7);
  }

  /** Page j of a segment is in place, in a frame that w did not use, with the
      right bytes and permissions. */
  ghost predicate PageLoaded(w: Mem, m: Mem, pd: nat, elf: Elf, ph: Phdr, j: nat) {
    var hit := Translate(m, pd, ph.vaddr / PAGE + j);
    && hit.Some? && hit.value.user && (hit.value.rw <==> ph.flags == PF_RW)
    && hit.value.page in m.data && m.data[hit.value.page] == PageBytes(elf, ph, j)
    && !Known(w, hit.value.page)
  }

  lemma LoadPageOk(z: Zone, w: Mem, m: Mem, left: Left, kpd: nat, pd: nat, elf: Elf, ph: Phdr, i: nat)
    requires Building(z, w, m, Pmm(left.words), kpd, pd) && ph.vaddr / PAGE + i < USER_PAGES
    requires LoadPage(z, m, left, pd, elf, ph, i).Some?
    ensures var m', vp := LoadPage(z, m, left, pd, elf, ph, i).value, ph.vaddr / PAGE + i;
      && Building(z, w, m', Pmm(left.words), kpd, pd)
      && PageLoaded(w, m', pd, elf, ph, i)
      && forall vq :: vq != vp ==> PageKept(m, m', pd, vq)
  {
    hide Supply, Bit, TableOf, Or, MapRange, Translate, PageBytes, DirOk, UserEntry, SegmentFlags, NewData;
    var src, content, vp, flag := Pmm(left.words), PageBytes(elf, ph, i), ph.vaddr / PAGE + i, SegmentFlags(ph);
    NewDataFresh(z, m, src, content);
    var Fresh(m1, f) := NewData(z, m, content).value;
    BuildingData(z, w, m, m1, src, kpd, pd, f, content);
    FlagsOk(ph);
    MapUserKeeps(z, w, m1, src, kpd, pd, f, vp, flag);
    MapUserMeans(z, w, m1, src, kpd, pd, f, vp, flag);
    var m' := LoadPage(z, m, left, pd, elf, ph, i).value;
    forall vq | vq != vp
      ensures PageKept(m, m', pd, vq)
    {
      assert PageKept(m1, m', pd, vq);
    }
  }
}
