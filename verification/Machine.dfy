/** Physical memory as the kernel writes it: page tables, pages of data, the boot
    allocator's placement address and the page allocator, updated in place and
    proved to compute the value model. */
module Machine {
  import opened Bits
  import opened NodeList
  import opened BuddyModel
  import opened BuddySteps
  import BuddyAllocator
  import opened EntryBits
  import opened PageTables
  import opened PageSteps
  import opened PageTheorems
  import opened ElfModel
  import opened ProcessSteps
  import opened ProcessTheorems

  class Memory {
    const pmm: BuddyAllocator.Allocator
    var tables: map<nat, Table>
    var data: map<nat, seq<nat>>
    var placement: nat

    ghost predicate Shape()
      reads this, pmm, pmm.pages, pmm.pool
    {
      pmm.Shape() && placement % PAGE == 0
    }

    ghost function View(): Mem
      requires Shape()
      reads this, pmm, pmm.pages, pmm.pool
    {
      Mem(tables, data, pmm.State(), placement / PAGE)
    }

    /** init_bump: boot pages start at the first page boundary from end. */
    constructor (allocator: BuddyAllocator.Allocator, end: nat)
      requires allocator.Shape()
      ensures pmm == allocator && Shape() && tables == map[] && data == map[]
      ensures end <= placement < end + PAGE
    {
      pmm := allocator;
      tables, data := map[], map[];
      placement := (end + PAGE - 1) / PAGE * PAGE;
    }

    /** bump_alloc(1) for a table: the next boot page, zeroed. */
    method BumpTable() returns (page: nat)
      requires Shape()
      modifies this
      ensures Shape() && page % PAGE == 0
      ensures PageTables.NewTable(pmm.zone, old(View()), Bump) == Some(Fresh(View(), page / PAGE))
    {
      page := placement;
      placement := placement + PAGE;
      tables := tables[page / PAGE := ZeroTable()];
      assert placement / PAGE == page / PAGE + 1;
    }

    /** pmm_alloc(0) for a table, which is not cleared. */
    method PmmTable(words: nat -> Table) returns (r: Option<nat>)
      requires Shape() && pmm.Valid()
      modifies this, pmm, pmm.pages, pmm.pool
      ensures Shape() && pmm.Valid()
      ensures r.None? ==> PageTables.NewTable(pmm.zone, old(View()), Pmm(words)).None?
      ensures r.Some? ==>
        && r.value % PAGE == 0
        && PageTables.NewTable(pmm.zone, old(View()), Pmm(words)) == Some(Fresh(View(), r.value / PAGE))
    {
      hide Inv, PhantomMatches, Alloc, BuddyAllocator.Allocator.State, BuddyAllocator.Allocator.Shape;
      r := pmm.AllocPages(0);
      if r.Some? {
        tables := tables[r.value / PAGE := words(r.value / PAGE)];
      }
    }

    method NewTable(src: Source) returns (r: Option<nat>)
      requires Shape() && (src.Pmm? ==> pmm.Valid())
      modifies this, pmm, pmm.pages, pmm.pool
      ensures Shape() && (src.Pmm? ==> pmm.Valid())
      ensures r.None? ==> PageTables.NewTable(pmm.zone, old(View()), src).None?
      ensures r.Some? ==>
        && r.value % PAGE == 0
        && PageTables.NewTable(pmm.zone, old(View()), src) == Some(Fresh(View(), r.value / PAGE))
    {
      hide BuddyAllocator.Allocator.Valid, BuddyAllocator.Allocator.State, BuddyAllocator.Allocator.Shape, Alloc;
      match src
      case Bump =>
        var page := BumpTable();
        r := Some(page);
      case Pmm(words) =>
        r := PmmTable(words);
    }

    /** The table for directory entry pde, made if there is none. */
    method FindTable(src: Source, pd: nat, pde: nat, flag: nat, ghost vp: nat) returns (r: Option<nat>)
      requires Shape() && pde == vp / ENTRIES && vp < PAGES
      requires DirOk(View(), pd) && Supply(pmm.zone, View(), src) && FlagOk(flag) && Accepts(tables[pd][pde], flag)
      modifies this, pmm, pmm.pages, pmm.pool
      ensures Shape()
      ensures r.None? ==> EnsureTable(pmm.zone, old(View()), src, pd, vp, flag).None?
      ensures r.Some? ==>
        && EnsureTable(pmm.zone, old(View()), src, pd, vp, flag) == Some(View())
        && pd in tables && r.value == TableOf(tables[pd][pde])
    {
      hide Inv, PhantomMatches, UsedHeads, Alloc, BuddyAllocator.Allocator.State, Wf, Bit, Or, DirOk, FlagOk, FrameOf;
      DirHas(View(), pd);
      EnsureSome(pmm.zone, View(), src, pd, vp, flag);
      if !Present(tables[pd][pde]) {
        var addr := NewTable(src);
        if addr.None? {
          return None;
        }
        assert addr.value / PAGE * PAGE == addr.value;
        tables := tables[pd := tables[pd][pde := Or(Or(Or(addr.value, PRESENT), RW), flag)]];
      }
      return Some(FrameOf(tables[pd][pde]) / PAGE);
    }

    /** One turn of the mapping loop on a 4 KB page; table is the page_table kept
        from the turn before, which serves again unless a new entry begins. */
    method MapOne(src: Source, pd: nat, paddr: nat, pde: nat, pte: nat, flag: nat, table: Option<nat>, ghost vp: nat)
      returns (r: Option<nat>)
      requires Shape() && pde == vp / ENTRIES && pte == vp % ENTRIES && vp < PAGES && paddr % PAGE == 0
      requires DirOk(View(), pd) && Supply(pmm.zone, View(), src) && FlagOk(flag) && Accepts(tables[pd][pde], flag)
      requires pte != 0 && table.Some? ==> Present(tables[pd][pde]) && table.value == TableOf(tables[pd][pde])
      modifies this, pmm, pmm.pages, pmm.pool
      ensures Shape()
      ensures r.None? ==> MapSmall(pmm.zone, old(View()), src, pd, paddr / PAGE, vp, flag).None?
      ensures r.Some? ==>
        && MapSmall(pmm.zone, old(View()), src, pd, paddr / PAGE, vp, flag) == Some(View())
        && pd in tables && r.value == TableOf(tables[pd][pde])
    {
      hide Inv, PhantomMatches, UsedHeads, Supply, EnsureTable, BuddyAllocator.Allocator.State,
           BuddyAllocator.Allocator.Shape, Wf, Or, TableOf, Bit;
      ghost var m := View();
      ReuseTable(pmm.zone, m, src, pd, vp, flag);
      r := table;
      if pte == 0 || table.None? {
        r := FindTable(src, pd, pde, flag, vp);
        if r.None? {
          return;
        }
      }
      EnsureOk(pmm.zone, m, src, pd, vp, flag);
      assert paddr / PAGE * PAGE == paddr;
      tables := tables[r.value := tables[r.value][pte := Or(paddr, flag)]];
    }

    /** map_range, and with boot pages early_map_range: the directory and table
        indices advance with the addresses. False is the page allocator's panic. */
    method MapRange(src: Source, pd: nat, paddr0: nat, vaddr0: nat, size0: nat, flag: nat) returns (ok: bool)
      requires Shape() && paddr0 % PAGE == 0 && (vaddr0 % PAGE == 0 || size0 < ENTRIES)
      requires Ready(View(), pd, vaddr0 / PAGE, size0, flag) && Supply(pmm.zone, View(), src)
      modifies this, pmm, pmm.pages, pmm.pool
      ensures Shape()
      ensures !ok ==>
        PageTables.MapRange(pmm.zone, old(View()), src, pd, paddr0 / PAGE, vaddr0 / PAGE, size0, flag).None?
      ensures ok ==>
        PageTables.MapRange(pmm.zone, old(View()), src, pd, paddr0 / PAGE, vaddr0 / PAGE, size0, flag) == Some(View())
    {
      hide Supply, Ready, DirOk, MapSmall, MapLarge, UsesLarge, BuddyAllocator.Allocator.State,
           BuddyAllocator.Allocator.Shape, Wf, Or, Bit, TableOf, SameBut, FlagOk, Cursor;
      var paddr: nat, vaddr: nat, size: nat := paddr0, vaddr0, size0;
      var pde: nat, pte: nat := vaddr / FOUR_MB % ENTRIES, vaddr / PAGE % ENTRIES;
      var table: Option<nat> := None;
      ghost var pp: nat, vp: nat := paddr / PAGE, vaddr / PAGE;
      if size > 0 { FirstReady(View(), pd, vp, size, flag); }
      CursorStart(paddr, vaddr, size);
      ghost var goal := PageTables.MapRange(pmm.zone, View(), src, pd, pp, vp, size, flag);
      while size > 0
        invariant Shape() && Cursor(paddr, vaddr, size, pde, pte, pp, vp)
        invariant Ready(View(), pd, vp, size, flag) && Supply(pmm.zone, View(), src)
        invariant goal == PageTables.MapRange(pmm.zone, View(), src, pd, pp, vp, size, flag)
        invariant size > 0 && pte != 0 && table.Some? ==>
                    pde < ENTRIES && pd in tables && Present(tables[pd][pde]) && table.value == TableOf(tables[pd][pde])
      {
        ghost var m := View();
        FirstReady(m, pd, vp, size, flag);
        DirHas(m, pd);
        CursorStep(paddr, vaddr, size, pde, pte, pp, vp);
        if vaddr % FOUR_MB == 0 && paddr % FOUR_MB == 0 && size >= ENTRIES {
          ghost var m1, k := FirstStep(pmm.zone, m, src, pd, pp, vp, size, flag);
          LargeStep(m, pd, pp, vp, flag);
          tables := tables[pd := tables[pd][pde := Or(Or(paddr, SIZE_4MB), flag)]];
          paddr, vaddr, size, pde := paddr + FOUR_MB, vaddr + FOUR_MB, size - ENTRIES, pde + 1;
          pp, vp := pp + ENTRIES, vp + ENTRIES;
        } else {
          table := MapOne(src, pd, paddr, pde, pte, flag, table, vp);
          if table.None? {
            return false;
          }
          ghost var m1, k := FirstStep(pmm.zone, m, src, pd, pp, vp, size, flag);
          paddr, vaddr, size := paddr + PAGE, vaddr + PAGE, size - 1;
          pp, vp := pp + 1, vp + 1;
          pte := (pte + 1) % ENTRIES;
          if pte == 0 {
            pde := pde + 1;
          }
        }
      }
      ok := true;
    }

    /** pmm_alloc(0) for a page of data, holding the given bytes. */
    method NewPage(content: seq<nat>) returns (r: Option<nat>)
      requires Shape() && pmm.Valid()
      modifies this, pmm, pmm.pages, pmm.pool
      ensures Shape() && pmm.Valid()
      ensures r.None? ==> NewData(pmm.zone, old(View()), content).None?
      ensures r.Some? ==>
        && r.value % PAGE == 0
        && NewData(pmm.zone, old(View()), content) == Some(Fresh(View(), r.value / PAGE))
    {
      hide Inv, PhantomMatches, Alloc, BuddyAllocator.Allocator.State, BuddyAllocator.Allocator.Shape;
      r := pmm.AllocPages(0);
      if r.Some? {
        data := data[r.value / PAGE := content];
      }
    }

    /** One turn of the loop of load_segment, with what is left to copy. */
    method LoadOne(
      left: Left, pd: nat, elf: Elf, ph: Phdr, flags: nat, i: nat, remaining: nat, ghost w: Mem, ghost kpd: nat)
      returns (ok: bool, remaining': nat)
      requires Shape() && Building(pmm.zone, w, View(), Pmm(left.words), kpd, pd)
      requires ph.vaddr / PAGE + i < USER_PAGES && flags == SegmentFlags(ph)
      requires remaining == Remaining(ph, i) && ph.offset + ph.filesz <= |elf.bytes|
      modifies this, pmm, pmm.pages, pmm.pool
      ensures Shape() && remaining' == Remaining(ph, i + 1)
      ensures !ok ==> LoadPage(pmm.zone, old(View()), left, pd, elf, ph, i).None?
      ensures ok ==>
        && LoadPage(pmm.zone, old(View()), left, pd, elf, ph, i) == Some(View())
        && Building(pmm.zone, w, View(), Pmm(left.words), kpd, pd)
    {
      hide Inv, PhantomMatches, Alloc, BuddyAllocator.Allocator.State, BuddyAllocator.Allocator.Shape, UsedHeads,
           DirOk, UserEntry, Ready, PageTables.MapRange, NewData, SegmentFlags, UserFlag, PageBytes;
      ghost var m := View();
      FlagsOk(ph);
      CopyStep(elf, ph, i);
      var page := Zeros(PAGE);
      var copying := remaining;
      if copying > 0 {
        copying := if remaining > PAGE then PAGE else remaining;
        var from := ph.offset + i * PAGE;
        page := elf.bytes[from..from + copying] + page[copying..];
      }
      remaining' := remaining - copying;
      assert page == PageBytes(elf, ph, i);
      PageAddress(ph.vaddr, i);
      ok := false;
      var frame := NewPage(page);
      if frame.Some? {
        NewDataFresh(pmm.zone, m, Pmm(left.words), page);
        BuildingData(pmm.zone, w, m, View(), Pmm(left.words), kpd, pd, frame.value / PAGE, page);
        UserReady(pmm.zone, w, View(), Pmm(left.words), kpd, pd, ph.vaddr / PAGE + i, flags);
        ok := MapRange(Pmm(left.words), pd, frame.value, ph.vaddr + i * PAGE, 1, flags);
        if ok { LoadPageOk(pmm.zone, w, m, left, kpd, pd, elf, ph, i); }
      }
    }

    /** load_segment: None is a panic, otherwise where the segment ends. */
    method LoadSegment(left: Left, pd: nat, elf: Elf, ph: Phdr, ghost w: Mem, ghost kpd: nat) returns (end: Option<nat>)
      requires Shape() && Building(pmm.zone, w, View(), Pmm(left.words), kpd, pd)
      requires ph.offset + ph.filesz <= |elf.bytes| && forall vq: nat :: InSegment(ph, vq) ==> vq < USER_PAGES
      modifies this, pmm, pmm.pages, pmm.pool
      ensures Shape()
      ensures end.None? ==> ElfModel.LoadSegment(pmm.zone, old(View()), left, pd, elf, ph).None?
      ensures end.Some? ==>
        && ElfModel.LoadSegment(pmm.zone, old(View()), left, pd, elf, ph) == Some(View())
        && end.value == SegmentEnd(ph)
        && Building(pmm.zone, w, View(), Pmm(left.words), kpd, pd)
    {
      hide Building, LoadPage, BuddyAllocator.Allocator.State, BuddyAllocator.Allocator.Shape, Or;
      if ph.kind != PT_LOAD {
        return Some(0);
      }
      var flags := Or(PRESENT, USER);
      if ph.flags == PF_RW {
        flags := Or(flags, RW);
      }
      var pagesNeeded := (ph.memsz + PAGE - 1) / PAGE;
      var i, remaining: nat := 0, ph.filesz;
      ghost var m := View();
      while i < pagesNeeded
        invariant 0 <= i <= pagesNeeded && Shape() && Building(pmm.zone, w, View(), Pmm(left.words), kpd, pd)
        invariant remaining == Remaining(ph, i)
        invariant LoadPages(pmm.zone, View(), left, pd, elf, ph, i, pagesNeeded)
                  == LoadPages(pmm.zone, m, left, pd, elf, ph, 0, pagesNeeded)
      {
        assert InSegment(ph, ph.vaddr / PAGE + i);
        var ok;
        ok, remaining := LoadOne(left, pd, elf, ph, flags, i, remaining, w, kpd);
        if !ok {
          return None;
        }
        i := i + 1;
      }
      return Some(ph.vaddr + pagesNeeded * PAGE);
    }

    /** load_elf: None is a panic, otherwise the highest end of a segment. */
    method LoadElf(left: Left, pd: nat, elf: Elf, ghost w: Mem, ghost kpd: nat) returns (last: Option<nat>)
      requires Shape() && Building(pmm.zone, w, View(), Pmm(left.words), kpd, pd)
      requires |elf.ident| >= 4 && BelowKernel(elf) && InFile(elf)
      modifies this, pmm, pmm.pages, pmm.pool
      ensures Shape()
      ensures last.None? ==> ElfModel.LoadElf(pmm.zone, old(View()), left, pd, elf).None?
      ensures last.Some? ==>
        && ElfModel.LoadElf(pmm.zone, old(View()), left, pd, elf) == Some(View())
        && last.value == StackBase(elf)
        && Building(pmm.zone, w, View(), Pmm(left.words), kpd, pd)
    {
      hide Building, ElfModel.LoadSegment, BuddyAllocator.Allocator.State, BuddyAllocator.Allocator.Shape, InSegment,
           SegmentEnd;
      var verify: seq<nat> := [0x7f, 0x45, 0x4c, 0x46];
      var i := 0;
      while i < 4
        invariant 0 <= i <= 4
        invariant elf.ident[..i] == verify[..i]
      {
        if elf.ident[i] != verify[i] {
          assert elf.ident[..4][i] != verify[i];
          return Some(0);
        }
        i := i + 1;
      }
      assert Magic(elf);
      var lastAddr: nat, k := 0, 0;
      ghost var m := View();
      while k < |elf.phdrs|
        invariant 0 <= k <= |elf.phdrs| && Shape() && Building(pmm.zone, w, View(), Pmm(left.words), kpd, pd)
        invariant lastAddr == LastAddr(elf.phdrs[..k])
        invariant LoadAll(pmm.zone, View(), left, pd, elf, k) == LoadAll(pmm.zone, m, left, pd, elf, 0)
      {
        var end := LoadSegment(left, pd, elf, elf.phdrs[k], w, kpd);
        if end.None? {
          return None;
        }
        if end.value > lastAddr {
          lastAddr := end.value;
        }
        assert elf.phdrs[..k + 1][..k] == elf.phdrs[..k];
        k := k + 1;
      }
      assert elf.phdrs[..k] == elf.phdrs;
      return Some(lastAddr);
    }

    /** create_process up to the new address space: None is a panic. */
    method CreateProcess(left: Left, kpd: nat, elf: Elf) returns (r: Option<(nat, nat)>)
      requires Shape() && World(pmm.zone, View(), Pmm(left.words), kpd)
      requires |elf.ident| >= 4 && BelowKernel(elf) && InFile(elf)
      modifies this, pmm, pmm.pages, pmm.pool
      ensures Shape() && kpd in old(tables)
      ensures r.None? ==> ElfModel.CreateProcess(pmm.zone, old(View()), left, kpd, elf).None?
      ensures r.Some? ==>
        ElfModel.CreateProcess(pmm.zone, old(View()), left, kpd, elf) == Some(Process(View(), r.value.0, r.value.1))
    {
      hide Building, World, ElfModel.LoadElf, BuddyAllocator.Allocator.State, BuddyAllocator.Allocator.Shape, Inv,
           PhantomMatches, BelowKernel, InFile, StackBase, PageTables.MapRange, Or, Ready, Supply, Alloc, UserFlag;
      ghost var m := View();
      var src := Pmm(left.words);
      WorldReady(pmm.zone, m, src, kpd);
      if Alloc(pmm.zone, m.pmm, 0).Got? { CopyBuilds(pmm.zone, m, left, kpd); }
      var page := pmm.AllocPages(0);
      if page.None? {
        return None;
      }
      var pd := page.value / PAGE;
      tables := tables[pd := tables[kpd]];
      var base := LoadElf(left, pd, elf, m, kpd);
      if base.None? {
        return None;
      }
      ghost var m1 := View();
      BuildingReady(pmm.zone, m, m1, src, kpd, pd);
      var stack := pmm.AllocPages(0);
      if stack.None? {
        return None;
      }
      var f := stack.value / PAGE;
      data := data[f := left.Bytes(f)];
      StackReady(pmm.zone, m, m1, left, kpd, pd, elf, View(), f);
      var ok := MapRange(src, pd, stack.value, base.value, 1, Or(Or(USER, PRESENT), RW));
      if !ok {
        return None;
      }
      return Some((pd, f));
    }
  }

  /** The part of every segment that comes from the file is in the file. */
  ghost predicate InFile(elf: Elf) {
    forall k :: 0 <= k < |elf.phdrs| ==> elf.phdrs[k].offset + elf.phdrs[k].filesz <= |elf.bytes|
  }

  /** What one turn copies, and what is left after it. */
  lemma CopyStep(elf: Elf, ph: Phdr, i: nat)
    requires ph.offset + ph.filesz <= |elf.bytes|
    ensures var c := Min(Remaining(ph, i), PAGE);
      && Remaining(ph, i + 1) == Remaining(ph, i) - c
      && (c > 0 ==> ph.offset + i * PAGE + c <= |elf.bytes|)
      && PageBytes(elf, ph, i) == (if c == 0 then Zeros(PAGE)
           else elf.bytes[ph.offset + i * PAGE..ph.offset + i * PAGE + c] + Zeros(PAGE)[c..])
  {
  }

  lemma WorldReady(z: Zone, m: Mem, src: Source, kpd: nat)
    requires World(z, m, src, kpd)
    ensures kpd in m.tables && Inv(z, m.pmm) && !PhantomMatches(z)
  {
    hide Inv, PhantomMatches;
  }

  lemma BuildingReady(z: Zone, w: Mem, m: Mem, src: Source, kpd: nat, pd: nat)
    requires Building(z, w, m, src, kpd, pd)
    ensures pd in m.tables && Inv(z, m.pmm) && !PhantomMatches(z)
  {
    hide Inv, PhantomMatches;
  }

  /** The stack page can be mapped where the image ends. */
  lemma StackReady(z: Zone, w: Mem, m1: Mem, left: Left, kpd: nat, pd: nat, elf: Elf, m2: Mem, f: nat)
    requires Building(z, w, m1, Pmm(left.words), kpd, pd) && BelowKernel(elf)
    requires NewData(z, m1, left.Bytes(f)) == Some(Fresh(m2, f))
    ensures Ready(m2, pd, StackBase(elf) / PAGE, 1, StackFlags()) && Supply(z, m2, Pmm(left.words))
  {
    hide Building, StackBase, NewData, Supply, Ready, Or, InSegment;
    FlagsOk(Phdr(0, 0, 0, 0, 0, 0));
    assert Supply(z, m1, Pmm(left.words)) by { BuildingSupply(z, w, m1, Pmm(left.words), kpd, pd); }
    NewDataFresh(z, m1, Pmm(left.words), left.Bytes(f));
    BuildingData(z, w, m1, m2, Pmm(left.words), kpd, pd, f, left.Bytes(f));
    UserReady(z, w, m2, Pmm(left.words), kpd, pd, StackBase(elf) / PAGE, StackFlags());
  }

  lemma BuildingSupply(z: Zone, w: Mem, m: Mem, src: Source, kpd: nat, pd: nat)
    requires Building(z, w, m, src, kpd, pd)
    ensures Supply(z, m, src)
  {
    hide Supply;
  }

  lemma PageAddress(v: nat, i: nat)
    ensures (v + i * PAGE) / PAGE == v / PAGE + i
  {
  }

  /** Addresses, sizes and table indices stand at pages pp and vp. */
  ghost predicate Cursor(paddr: nat, vaddr: nat, size: nat, pde: nat, pte: nat, pp: nat, vp: nat) {
    && paddr == pp * PAGE && vaddr / PAGE == vp && (vaddr % PAGE == 0 || size < ENTRIES)
    && (size > 0 ==> pde == vp / ENTRIES && pte == vp % ENTRIES)
  }

  lemma CursorStart(paddr: nat, vaddr: nat, size: nat)
    requires paddr % PAGE == 0 && (vaddr % PAGE == 0 || size < ENTRIES) && (size > 0 ==> vaddr / PAGE < PAGES)
    ensures Cursor(paddr, vaddr, size, vaddr / FOUR_MB % ENTRIES, vaddr / PAGE % ENTRIES, paddr / PAGE, vaddr / PAGE)
  {
  }

  /** The byte tests of the loop are the page tests of UsesLarge, and both kinds of
      turn keep the cursor. */
  lemma CursorStep(paddr: nat, vaddr: nat, size: nat, pde: nat, pte: nat, pp: nat, vp: nat)
    requires Cursor(paddr, vaddr, size, pde, pte, pp, vp) && size > 0
    ensures paddr == pp * PAGE && paddr % PAGE == 0 && paddr / PAGE == pp && pde == vp / ENTRIES && pte == vp % ENTRIES
    ensures UsesLarge(pp, vp, size) <==> vaddr % FOUR_MB == 0 && paddr % FOUR_MB == 0 && size >= ENTRIES
    ensures UsesLarge(pp, vp, size) ==>
      pte == 0 && Cursor(paddr + FOUR_MB, vaddr + FOUR_MB, size - ENTRIES, pde + 1, pte, pp + ENTRIES, vp + ENTRIES)
    ensures var next := (pte + 1) % ENTRIES;
      Cursor(paddr + PAGE, vaddr + PAGE, size - 1, if next == 0 then pde + 1 else pde, next, pp + 1, vp + 1)
  {
  }

  lemma LargeStep(m: Mem, pd: nat, pp: nat, vp: nat, flag: nat)
    requires pd in m.tables && vp < PAGES
    ensures MapLarge(m, pd, pp, vp, flag)
            == m.(tables := m.tables[pd := m.tables[pd][vp / ENTRIES := Or(Or(pp * PAGE, SIZE_4MB), flag)]])
  {
  }

  lemma ReuseTable(z: Zone, m: Mem, src: Source, pd: nat, vp: nat, flag: nat)
    requires pd in m.tables && vp < PAGES
    ensures Present(m.tables[pd][vp / ENTRIES]) ==> EnsureTable(z, m, src, pd, vp, flag) == Some(m)
  {
  }

  /** The directory is still there after the table is made. */
  lemma EnsureSome(z: Zone, m: Mem, src: Source, pd: nat, vp: nat, flag: nat)
    requires DirOk(m, pd) && Supply(z, m, src) && vp < PAGES
    ensures NewTable(z, m, src).Some? ==> pd in NewTable(z, m, src).value.m.tables
  {
  }
}
