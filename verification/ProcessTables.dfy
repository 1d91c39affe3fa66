/** The tables of a new process come from pages that are not cleared. What they
    hold beside the process's own pages, and what the process can reach by it. */
module ProcessTables {
  import opened Bits
  import opened NodeList
  import opened BuddyModel
  import opened EntryBits
  import opened PageTables
  import opened PageSteps
  import opened ElfModel
  import opened ProcessSteps
  import opened ProcessTheorems

  /** If page vq comes under a table, the word for it there is the word that was
      left in that page when it was handed out. */
  ghost predicate Untouched(m: Mem, pd: nat, words: nat -> Table, vq: nat) {
    && pd in m.tables && vq < PAGES
    && var e := m.tables[pd][vq / ENTRIES];
       IsSmall(e) ==> TableOf(e) in m.tables && m.tables[TableOf(e)][vq % ENTRIES] == words(TableOf(e))[vq % ENTRIES]
  }

  /** Mapping a user page writes no word but its own. */
  lemma MapUserLeaves(
    z: Zone, w: Mem, m: Mem, src: Source, kpd: nat, pd: nat, f: nat, vp: nat, flag: nat, vq: nat)
    requires Building(z, w, m, src, kpd, pd) && vp < USER_PAGES && UserFlag(flag)
    requires MapRange(z, m, src, pd, f, vp, 1, flag).Some?
    requires vq < USER_PAGES && vq != vp && Untouched(m, pd, src.left, vq)
    ensures Untouched(MapRange(z, m, src, pd, f, vp, 1, flag).value, pd, src.left, vq)
  {
    hide Supply, Bit, TableOf, Or, EnsureTable, MapSmall, MapRange, Alloc;
    UserAccepts(w, m.tables[pd][vp / ENTRIES], flag);
    OneSmall(z, m, src, pd, f, vp, flag);
    MapSmallWrites(z, m, src, pd, f, vp, flag);
    EnsureOk(z, m, src, pd, vp, flag);
    if vq / ENTRIES == vp / ENTRIES { assert vq % ENTRIES != vp % ENTRIES; }
  }

  lemma LoadPageLeaves(z: Zone, w: Mem, m: Mem, left: Left, kpd: nat, pd: nat, elf: Elf, ph: Phdr, i: nat, vq: nat)
    requires Building(z, w, m, Pmm(left.words), kpd, pd) && ph.vaddr / PAGE + i < USER_PAGES
    requires LoadPage(z, m, left, pd, elf, ph, i).Some?
    requires vq < USER_PAGES && vq != ph.vaddr / PAGE + i && Untouched(m, pd, left.words, vq)
    ensures Untouched(LoadPage(z, m, left, pd, elf, ph, i).value, pd, left.words, vq)
  {
    hide Supply, Bit, TableOf, Or, MapRange, PageBytes, DirOk, UserEntry, SegmentFlags, NewData;
    var src, content, flag := Pmm(left.words), PageBytes(elf, ph, i), SegmentFlags(ph);
    NewDataFresh(z, m, src, content);
    var Fresh(m1, f) := NewData(z, m, content).value;
    BuildingData(z, w, m, m1, src, kpd, pd, f, content);
    FlagsOk(ph);
    MapUserLeaves(z, w, m1, src, kpd, pd, f, ph.vaddr / PAGE + i, flag, vq);
  }

  lemma {:induction false} LoadPagesLeaves(
    z: Zone, w: Mem, m: Mem, left: Left, kpd: nat, pd: nat, elf: Elf, ph: Phdr, i: nat, n: nat, vq: nat)
    requires Building(z, w, m, Pmm(left.words), kpd, pd) && i <= n
    requires i == n || ph.vaddr / PAGE + n <= USER_PAGES
    requires LoadPages(z, m, left, pd, elf, ph, i, n).Some?
    requires vq < USER_PAGES && !(ph.vaddr / PAGE + i <= vq < ph.vaddr / PAGE + n) && Untouched(m, pd, left.words, vq)
    ensures Untouched(LoadPages(z, m, left, pd, elf, ph, i, n).value, pd, left.words, vq)
    decreases n - i
  {
    hide Building, LoadPage, Untouched;
    if i < n {
      LoadPageOk(z, w, m, left, kpd, pd, elf, ph, i);
      LoadPageLeaves(z, w, m, left, kpd, pd, elf, ph, i, vq);
      LoadPagesLeaves(z, w, LoadPage(z, m, left, pd, elf, ph, i).value, left, kpd, pd, elf, ph, i + 1, n, vq);
    }
  }

  lemma LoadSegmentLeaves(z: Zone, w: Mem, m: Mem, left: Left, kpd: nat, pd: nat, elf: Elf, ph: Phdr, vq: nat)
    requires Building(z, w, m, Pmm(left.words), kpd, pd)
    requires forall v: nat :: InSegment(ph, v) ==> v < USER_PAGES
    requires LoadSegment(z, m, left, pd, elf, ph).Some?
    requires vq < USER_PAGES && !InSegment(ph, vq) && Untouched(m, pd, left.words, vq)
    ensures Untouched(LoadSegment(z, m, left, pd, elf, ph).value, pd, left.words, vq)
  {
    hide Building, LoadPages, Untouched, PagesNeeded;
    if ph.kind == PT_LOAD {
      if PagesNeeded(ph) > 0 { assert InSegment(ph, ph.vaddr / PAGE + PagesNeeded(ph) - 1); }
      LoadPagesLeaves(z, w, m, left, kpd, pd, elf, ph, 0, PagesNeeded(ph), vq);
    }
  }

  lemma {:induction false} LoadAllLeaves(
    z: Zone, w: Mem, m: Mem, left: Left, kpd: nat, pd: nat, elf: Elf, k: nat, vq: nat)
    requires Building(z, w, m, Pmm(left.words), kpd, pd) && k <= |elf.phdrs| && BelowKernel(elf)
    requires LoadAll(z, m, left, pd, elf, k).Some?
    requires vq < USER_PAGES && InNone(elf.phdrs, k, vq) && Untouched(m, pd, left.words, vq)
    ensures Untouched(LoadAll(z, m, left, pd, elf, k).value, pd, left.words, vq)
    decreases |elf.phdrs| - k
  {
    hide Building, LoadSegment, Untouched, InSegment, StackBase;
    if k < |elf.phdrs| {
      var ph := elf.phdrs[k];
      LoadSegmentOk(z, w, m, left, kpd, pd, elf, ph);
      LoadSegmentLeaves(z, w, m, left, kpd, pd, elf, ph, vq);
      LoadAllLeaves(z, w, LoadSegment(z, m, left, pd, elf, ph).value, left, kpd, pd, elf, k + 1, vq);
    }
  }

  /** The copied directory has no user table yet. */
  lemma CopyLeaves(z: Zone, m: Mem, left: Left, kpd: nat, vq: nat)
    requires World(z, m, Pmm(left.words), kpd) && Alloc(z, m.pmm, 0).Got? && vq < USER_PAGES
    ensures var Got(pmm, pd) := Alloc(z, m.pmm, 0);
      Untouched(m.(tables := m.tables[pd := m.tables[kpd]], pmm := pmm), pd, left.words, vq)
  {
    hide Supply, Alloc, TableOf, Bit, DirOk;
    DirHas(m, kpd);
    assert vq / ENTRIES < KERNEL_DIR;
  }

  /** Beside its own pages, the tables of a created process hold exactly the words
      that were left in the pages they are made of. */
  lemma CreateLeaves(z: Zone, m: Mem, left: Left, kpd: nat, elf: Elf, vq: nat)
    requires kpd in m.tables && World(z, m, Pmm(left.words), kpd) && Loadable(elf)
    requires CreateProcess(z, m, left, kpd, elf).Some?
    requires vq < USER_PAGES && !UserPage(elf, vq)
    ensures var made := CreateProcess(z, m, left, kpd, elf).value;
      Untouched(made.m, made.pd, left.words, vq)
  {
    hide Building, LoadAll, InNone, StackBase, Alloc, AddStack, World, Untouched, ImageLoaded;
    CopyBuilds(z, m, left, kpd);
    CopyLeaves(z, m, left, kpd, vq);
    var Got(pmm, pd) := Alloc(z, m.pmm, 0);
    var m0 := m.(tables := m.tables[pd := m.tables[kpd]], pmm := pmm);
    LoadElfOk(z, m, m0, left, kpd, pd, elf);
    if Magic(elf) { LoadAllLeaves(z, m, m0, left, kpd, pd, elf, 0, vq); }
    StackLeaves(z, m, LoadElf(z, m0, left, pd, elf).value, left, kpd, pd, elf, vq);
  }

  lemma StackLeaves(z: Zone, w: Mem, m1: Mem, left: Left, kpd: nat, pd: nat, elf: Elf, vq: nat)
    requires Building(z, w, m1, Pmm(left.words), kpd, pd) && Loadable(elf)
    requires vq < USER_PAGES && vq != StackBase(elf) / PAGE && Untouched(m1, pd, left.words, vq)
    requires AddStack(z, m1, left, pd, elf).Some?
    ensures var made := AddStack(z, m1, left, pd, elf).value;
      made.pd == pd && Untouched(made.m, pd, left.words, vq)
  {
    hide DirOk, StackBase, Alloc, MapRange, Supply, PageDisjoint, StackFlags, UserEntry, FlagOk, Bit, TableOf,
         InSegment;
    var src := Pmm(left.words);
    var Got(pmm, f) := Alloc(z, m1.pmm, 0);
    var m2 := m1.(data := m1.data[f := left.Bytes(f)], pmm := pmm);
    assert NewData(z, m1, left.Bytes(f)) == Some(Fresh(m2, f));
    NewDataFresh(z, m1, src, left.Bytes(f));
    BuildingData(z, w, m1, m2, src, kpd, pd, f, left.Bytes(f));
    FlagsOk(Phdr(0, 0, 0, 0, 0, 0));
    MapUserLeaves(z, w, m2, src, kpd, pd, f, StackBase(elf) / PAGE, StackFlags(), vq);
  }

  // ---------------------------------------------------------- what is reached

  /** The process can use page vq from user mode. */
  predicate UserHit(m: Mem, pd: nat, vq: nat) {
    Translate(m, pd, vq).Some? && Translate(m, pd, vq).value.user
  }

  /** The word left for page vq in the table that its entry of dir names. */
  function Leftover(dir: Table, words: nat -> Table, vq: nat): nat {
    if vq < PAGES && Present(dir[vq / ENTRIES]) then words(TableOf(dir[vq / ENTRIES]))[vq % ENTRIES] else 0
  }

  predicate UserWord(word: nat) { Present(word) && Usable(word) }

  /** A page whose word nobody wrote is reached exactly as that word says. */
  lemma WordDecides(w: Mem, m: Mem, pd: nat, words: nat -> Table, vq: nat)
    requires Untouched(m, pd, words, vq) && UserEntry(w, m.tables[pd][vq / ENTRIES])
    ensures UserHit(m, pd, vq) <==> UserWord(Leftover(m.tables[pd], words, vq))
    ensures UserHit(m, pd, vq) ==>
      Translate(m, pd, vq).value.page == FrameOf(Leftover(m.tables[pd], words, vq)) / PAGE
  {
    hide Bit, TableOf, FrameOf;
    assert !Present(0) by { ZeroNotPresent(); }
  }

  lemma UntouchedStays(m: Mem, m': Mem, pd: nat, words: nat -> Table, vq: nat)
    requires Extends(m, m') && DirOk(m, pd) && Untouched(m, pd, words, vq)
    ensures Untouched(m', pd, words, vq)
  {
    hide Bit, TableOf;
  }
}
