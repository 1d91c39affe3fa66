/** A run in which two processes share a frame, because the pages that become page
    tables are not cleared. */
module ProcessLeftovers {
  import opened Bits
  import opened NodeList
  import opened BuddyModel
  import opened BuddySteps
  import opened BuddyTheorems
  import opened EntryBits
  import opened PageTables
  import opened PageSteps
  import opened ElfModel
  import opened ProcessSteps
  import opened ProcessTheorems
  import opened ProcessTables
  import opened ProcessPlan
  import opened ProcessRuns
  import opened ProcessReach

  lemma PageThere(z: Zone, pmm: Buddy)
    requires Inv(z, pmm) && pmm.freeCount >= 1
    ensures Alloc(z, pmm, 0).Got? && Alloc(z, pmm, 0).state.freeCount == pmm.freeCount - 1
  {
    hide Tiling, ListsOk, Canonical, UsedPages, BuddyModel.FreePages;
    var free := BuddyModel.FreePages(z, pmm.pages, -1);
    assert |free| > 0;
    var a :| a in free;
    assert Block(a, 0) <= free && Aligned(a, 0) by { OnePage(a); }
    assert HasFreeRun(z, pmm, 0);
    AllocComplete(z, pmm, 0);
  }

  lemma OnePage(a: nat)
    ensures Block(a, 0) == {a} && Aligned(a, 0)
  {
  }

  /** A file of one blank header: its identification is not that of an ELF file, so
      nothing is loaded, but create_process still makes a directory and maps a stack
      page, at address 0. */
  function NoImage(): Elf { Elf(Zeros(16), [], Zeros(52)) }

  lemma NoImageLoads()
    ensures |NoImage().ident| == 16 && Loadable(NoImage()) && !Magic(NoImage()) && StackBase(NoImage()) == 0
  {
    assert NoImage().ident[..4][0] == 0;
  }

  /** Three free pages are enough for such a process; the second is its stack. */
  lemma SmallProcess(z: Zone, m: Mem, left: Left, kpd: nat)
    requires kpd in m.tables && World(z, m, Pmm(left.words), kpd) && m.pmm.freeCount >= 3
    ensures CreateProcess(z, m, left, kpd, NoImage()).Some?
    ensures var made := CreateProcess(z, m, left, kpd, NoImage()).value;
      made.m.pmm.freeCount == m.pmm.freeCount - 3
    ensures Alloc(z, m.pmm, 0).Got? && Alloc(z, Alloc(z, m.pmm, 0).state, 0).Got?
    ensures CreateProcess(z, m, left, kpd, NoImage()).value.stack == Alloc(z, Alloc(z, m.pmm, 0).state, 0).index
  {
    hide Inv, PhantomMatches, UsedHeads, Alloc, DirOk, Bit, TableOf, Or, StackFlags, MapRange, NoImage, StackBase,
         Magic;
    NoImageLoads();
    PageThere(z, m.pmm);
    CopyBuilds(z, m, left, kpd);
    var Got(pmm, pd) := Alloc(z, m.pmm, 0);
    var m0 := m.(tables := m.tables[pd := m.tables[kpd]], pmm := pmm);
    PageThere(z, pmm);
    var Got(pmm1, f) := Alloc(z, pmm, 0);
    var m1 := m0.(data := m0.data[f := left.Bytes(f)], pmm := pmm1);
    assert NewData(z, m0, left.Bytes(f)) == Some(Fresh(m1, f));
    NewDataFresh(z, m0, Pmm(left.words), left.Bytes(f));
    BuildingData(z, m, m0, m1, Pmm(left.words), kpd, pd, f, left.Bytes(f));
    PageThere(z, pmm1);
    FirstUserPage(z, m1, left, pd, f);
    OneSmall(z, m1, Pmm(left.words), pd, f, 0, StackFlags());
  }

  lemma FirstUserPage(z: Zone, m: Mem, left: Left, pd: nat, f: nat)
    requires DirOk(m, pd) && Supply(z, m, Pmm(left.words)) && !Present(m.tables[pd][0]) && Alloc(z, m.pmm, 0).Got?
    ensures MapSmall(z, m, Pmm(left.words), pd, f, 0, StackFlags()).Some?
    ensures MapSmall(z, m, Pmm(left.words), pd, f, 0, StackFlags()).value.pmm == Alloc(z, m.pmm, 0).state
  {
    hide Supply, Alloc, Bit, Or, StackFlags, TableOf;
    FlagsOk(Phdr(0, 0, 0, 0, 0, 0));
    EnsureOk(z, m, Pmm(left.words), pd, 0, StackFlags());
  }

  /** Memory in which every word maps frame f for user mode. */
  function AllNaming(f: nat): Left {
    Left((t: nat) => seq(ENTRIES, _ => Or(f * PAGE, 7)))
  }

  lemma NamingWord(f: nat)
    ensures var word := Or(f * PAGE, 7); UserWord(word) && FrameOf(word) / PAGE == f
  {
    hide Or, FrameOf;
    SmallEntry(f, 7);
    assert Bit(7, 0) && Bit(7, 2);
    assert f * PAGE / PAGE == f;
  }

  /** The same call twice, on memory whose free pages nobody writes in between, all
      naming one frame: the stack of the first process. The second reaches it. */
  lemma LeftoverShares(z: Zone, w: Mem, kpd: nat) returns (step: Step, states: seq<State>)
    requires World(z, w, AnyPmm(), kpd) && w.pmm.freeCount >= 6
    ensures Run(z, kpd, w, [step, step], states) && |states| == 3 && |states[2].procs| == 2
    ensures step.Create? && |step.elf.ident| == 16
    ensures SameFrame(states[2].m, states[2].procs[0], states[2].procs[1], 0, 1)
  {
    hide World, CreateProcess, Intact, Translate, Extends, UserPage, Loadable, Or, Alloc, NoImage, PlanOf;
    NoImageLoads();
    AnyWorld(z, w, AllNaming(0).words, kpd);
    WorldHas(z, w, AllNaming(0), kpd);
    SmallProcess(z, w, AllNaming(0), kpd);
    var f := Alloc(z, Alloc(z, w.pmm, 0).state, 0).index;
    var left := AllNaming(f);
    AnyWorld(z, w, left.words, kpd);
    WorldHas(z, w, left, kpd);
    SmallProcess(z, w, left, kpd);
    CreateIntact(z, w, left, kpd, NoImage());
    var one := CreateProcess(z, w, left, kpd, NoImage()).value;
    var p := NewProc(z, w, left, kpd, NoImage(), one);
    AnyWorld(z, one.m, left.words, kpd);
    WorldHas(z, one.m, left, kpd);
    SmallProcess(z, one.m, left, kpd);
    CreateIntact(z, one.m, left, kpd, NoImage());
    var two := CreateProcess(z, one.m, left, kpd, NoImage()).value;
    var q := NewProc(z, one.m, left, kpd, NoImage(), two);
    step := Create(left, NoImage());
    states := [State(w, []), State(one.m, [p]), State(two.m, [p, q])];
    IntactStays(w, one.m, two.m, kpd, p);
    StackReached(w, two.m, kpd, p);
    StackReached(one.m, two.m, kpd, q);
    NextPageStrays(one.m, two.m, kpd, q, f);
  }

  lemma AnyWorld(z: Zone, m: Mem, words: nat -> Table, kpd: nat)
    requires World(z, m, AnyPmm(), kpd)
    ensures World(z, m, Pmm(words), kpd)
  {
    hide Inv, PhantomMatches, UsedHeads, DirOk, Bit;
  }

  lemma StackReached(w: Mem, m: Mem, kpd: nat, p: Proc)
    requires Intact(w, m, kpd, p) && p.elf == NoImage()
    ensures UserHit(m, p.pd, 0) && Translate(m, p.pd, 0).value.page == p.stack
  {
    hide Translate, DirOk, ImageLoaded, Untouched, UserEntry, UserPage, InPlace, Loadable, NoImage, StackBase;
    NoImageLoads();
  }

  lemma NextPageStrays(w: Mem, m: Mem, kpd: nat, p: Proc, f: nat)
    requires Intact(w, m, kpd, p) && p.elf == NoImage() && p.words == AllNaming(f).words && UserHit(m, p.pd, 0)
    ensures UserHit(m, p.pd, 1) && Translate(m, p.pd, 1).value.page == f
  {
    hide Translate, Intact, FrameOf, Or, TableOf, Bit, NoImage, StackBase, Magic;
    NoImageLoads();
    IntactDir(w, m, kpd, p);
    HitIsPresent(m, p.pd, 0);
    NamingWord(f);
    assert Leftover(p.plan.dir, p.words, 1) == Or(f * PAGE, 7);
    assert Stray(Before(p), 1);
    ReachOne(w, m, kpd, p, 1);
  }

  lemma IntactDir(w: Mem, m: Mem, kpd: nat, p: Proc)
    requires Intact(w, m, kpd, p)
    ensures p.pd in m.tables && m.tables[p.pd] == p.plan.dir
  {
    hide UserPage, Translate, ImageLoaded, StackMapped, Loadable;
  }
}
