/** What create_process will do, told from the state before it: which page of the
    page allocator becomes the directory, which become tables, and which hold the
    process's own pages. The plan follows only the allocator and the absence of
    directory entries. */
module ProcessPlan {
  import opened Bits
  import opened NodeList
  import opened BuddyModel
  import opened EntryBits
  import opened PageTables
  import opened PageSteps
  import opened ElfModel
  import opened ProcessSteps
  import opened ProcessTheorems

  /** The allocator and the directory so far, and the frame of each own page. */
  datatype Plan = Plan(pmm: Buddy, dir: Table, own: map<nat, nat>)

  /** Map page vp to frame f: an absent entry takes the next page for a table. */
  function PlanMap(z: Zone, pl: Plan, f: nat, vp: nat, flag: nat): Option<Plan> {
    if vp >= PAGES then None
    else if Present(pl.dir[vp / ENTRIES]) then Some(pl.(own := pl.own[vp := f]))
    else
      match Alloc(z, pl.pmm, 0)
      case Panic => None
      case Got(pmm, t) => Some(Plan(pmm, pl.dir[vp / ENTRIES := TableWord(t, flag)], pl.own[vp := f]))
  }

  /** One own page: the next page holds it. */
  function PlanPage(z: Zone, pl: Plan, vp: nat, flag: nat): Option<Plan> {
    match Alloc(z, pl.pmm, 0)
    case Panic => None
    case Got(pmm, f) => PlanMap(z, pl.(pmm := pmm), f, vp, flag)
  }

  function PlanPages(z: Zone, pl: Plan, ph: Phdr, i: nat, n: nat): Option<Plan>
    decreases n - i
  {
    if i >= n then Some(pl) else
    match PlanPage(z, pl, ph.vaddr / PAGE + i, SegmentFlags(ph))
    case None => None
    case Some(pl1) => PlanPages(z, pl1, ph, i + 1, n)
  }

  function PlanSegment(z: Zone, pl: Plan, ph: Phdr): Option<Plan> {
    if ph.kind != PT_LOAD then Some(pl) else PlanPages(z, pl, ph, 0, PagesNeeded(ph))
  }

  function PlanAll(z: Zone, pl: Plan, phs: seq<Phdr>, k: nat): Option<Plan>
    decreases |phs| - k
  {
    if k >= |phs| then Some(pl) else
    match PlanSegment(z, pl, phs[k])
    case None => None
    case Some(pl1) => PlanAll(z, pl1, phs, k + 1)
  }

  function PlanElf(z: Zone, pl: Plan, elf: Elf): Option<Plan> {
    if Magic(elf) then PlanAll(z, pl, elf.phdrs, 0) else Some(pl)
  }

  /** The whole call, from the allocator and the kernel's directory. */
  function PlanProcess(z: Zone, pmm: Buddy, kernelDir: Table, elf: Elf): Option<Plan> {
    match Alloc(z, pmm, 0)
    case Panic => None
    case Got(pmm1, _) =>
      match PlanElf(z, Plan(pmm1, kernelDir, map[]), elf)
      case None => None
      case Some(pl) => PlanPage(z, pl, StackBase(elf) / PAGE, StackFlags())
  }

  /** The plan of a call that does not panic. */
  function PlanOf(z: Zone, m: Mem, kpd: nat, elf: Elf): Plan
    requires kpd in m.tables
  {
    var planned := PlanProcess(z, m.pmm, m.tables[kpd], elf);
    if planned.Some? then planned.value else Plan(m.pmm, m.tables[kpd], map[])
  }

  // ---------------------------------------------------------- which pages

  lemma {:induction false} PagesOwned(z: Zone, pl: Plan, ph: Phdr, i: nat, n: nat)
    requires i <= n && PlanPages(z, pl, ph, i, n).Some?
    ensures var pl', v := PlanPages(z, pl, ph, i, n).value, ph.vaddr / PAGE;
      forall vq: nat :: vq in pl'.own <==> vq in pl.own || v + i <= vq < v + n
    decreases n - i
  {
    hide Alloc, SegmentFlags, TableWord, Bit;
    if i < n {
      var pl1 := PlanPage(z, pl, ph.vaddr / PAGE + i, SegmentFlags(ph)).value;
      PagesOwned(z, pl1, ph, i + 1, n);
    }
  }

  lemma SegmentOwned(z: Zone, pl: Plan, ph: Phdr)
    requires PlanSegment(z, pl, ph).Some?
    ensures var pl' := PlanSegment(z, pl, ph).value;
      forall vq: nat :: vq in pl'.own <==> vq in pl.own || InSegment(ph, vq)
  {
    hide PlanPages, PagesNeeded;
    if ph.kind == PT_LOAD { PagesOwned(z, pl, ph, 0, PagesNeeded(ph)); }
  }

  lemma {:induction false} AllOwned(z: Zone, pl: Plan, phs: seq<Phdr>, k: nat)
    requires k <= |phs| && PlanAll(z, pl, phs, k).Some?
    ensures var pl' := PlanAll(z, pl, phs, k).value;
      forall vq: nat :: vq in pl'.own <==> vq in pl.own || !InNone(phs, k, vq)
    decreases |phs| - k
  {
    hide PlanSegment, InSegment;
    if k < |phs| {
      SegmentOwned(z, pl, phs[k]);
      AllOwned(z, PlanSegment(z, pl, phs[k]).value, phs, k + 1);
      assert forall vq: nat :: InNone(phs, k, vq) <==> InNone(phs, k + 1, vq) && !InSegment(phs[k], vq);
    }
  }

  /** The pages planned are exactly the segments and the stack. */
  lemma PlanOwns(z: Zone, pmm: Buddy, kernelDir: Table, elf: Elf, vq: nat)
    requires PlanProcess(z, pmm, kernelDir, elf).Some?
    ensures vq in PlanProcess(z, pmm, kernelDir, elf).value.own <==> UserPage(elf, vq)
  {
    hide Alloc, PlanAll, InNone, StackBase, TableWord, StackFlags, Bit, Magic;
    var pl := Plan(Alloc(z, pmm, 0).state, kernelDir, map[]);
    if Magic(elf) { AllOwned(z, pl, elf.phdrs, 0); }
  }

  // --------------------------------------------------------- the plan is kept

  /** Directory pd in m is as planned, and every own page is in its planned frame. */
  ghost predicate InPlace(m: Mem, pd: nat, pl: Plan) {
    && pd in m.tables && m.tables[pd] == pl.dir
    && forall vq: nat :: vq in pl.own ==> InFrame(m, pd, vq, pl.own[vq])
  }

  ghost predicate Follows(m: Mem, pd: nat, pl: Plan) {
    m.pmm == pl.pmm && InPlace(m, pd, pl)
  }

  ghost predicate InFrame(m: Mem, pd: nat, vq: nat, f: nat) {
    Translate(m, pd, vq).Some? && Translate(m, pd, vq).value.page == f && f in m.data
  }

  lemma FrameKept(m: Mem, m': Mem, pd: nat, vq: nat, f: nat)
    requires InFrame(m, pd, vq, f) && PageKept(m, m', pd, vq)
    ensures InFrame(m', pd, vq, f)
  {
    hide Translate;
  }

  lemma MapFails(z: Zone, m: Mem, src: Source, pd: nat, f: nat, vp: nat, flag: nat)
    requires DirOk(m, pd) && Supply(z, m, src) && src.Pmm? && vp < PAGES && FlagOk(flag)
    requires Accepts(m.tables[pd][vp / ENTRIES], flag)
    ensures MapRange(z, m, src, pd, f, vp, 1, flag).Some? <==>
            Present(m.tables[pd][vp / ENTRIES]) || Alloc(z, m.pmm, 0).Got?
  {
    hide Supply, Bit, TableOf, Or, Alloc, MapRange;
    OneSmall(z, m, src, pd, f, vp, flag);
    if EnsureTable(z, m, src, pd, vp, flag).Some? { EnsureOk(z, m, src, pd, vp, flag); }
  }

  lemma PlanMapKept(z: Zone, w: Mem, m: Mem, src: Source, kpd: nat, pd: nat, pl: Plan, f: nat, vp: nat, flag: nat)
    requires Building(z, w, m, src, kpd, pd) && Follows(m, pd, pl) && vp < USER_PAGES && UserFlag(flag) && f in m.data
    ensures MapRange(z, m, src, pd, f, vp, 1, flag).Some? <==> PlanMap(z, pl, f, vp, flag).Some?
    ensures MapRange(z, m, src, pd, f, vp, 1, flag).Some? ==>
      Follows(MapRange(z, m, src, pd, f, vp, 1, flag).value, pd, PlanMap(z, pl, f, vp, flag).value)
  {
    hide Supply, Bit, TableOf, Or, Alloc, MapRange, MapSmall, EnsureTable, Translate, TableWord, InFrame;
    UserAccepts(w, m.tables[pd][vp / ENTRIES], flag);
    MapFails(z, m, src, pd, f, vp, flag);
    if MapRange(z, m, src, pd, f, vp, 1, flag).Some? {
      OneSmall(z, m, src, pd, f, vp, flag);
      MapSmallWrites(z, m, src, pd, f, vp, flag);
      EnsureOk(z, m, src, pd, vp, flag);
      MapUserMeans(z, w, m, src, kpd, pd, f, vp, flag);
      MapUserKeeps(z, w, m, src, kpd, pd, f, vp, flag);
      var m' := MapRange(z, m, src, pd, f, vp, 1, flag).value;
      HitInFrame(m', pd, vp, f, flag);
      forall vq: nat | vq in pl.own && vq != vp ensures InFrame(m', pd, vq, pl.own[vq]) {
        FrameKept(m, m', pd, vq, pl.own[vq]);
      }
    }
  }

  lemma HitInFrame(m: Mem, pd: nat, vp: nat, f: nat, flag: nat)
    requires Translate(m, pd, vp) == Some(Hit(f, Writable(flag), true)) && f in m.data
    ensures InFrame(m, pd, vp, f)
  {
    hide Translate;
  }

  lemma PlanDataKept(z: Zone, w: Mem, m: Mem, m1: Mem, src: Source, kpd: nat, pd: nat, pl: Plan, f: nat, bs: seq<nat>)
    requires Building(z, w, m, src, kpd, pd) && Follows(m, pd, pl) && NewData(z, m, bs) == Some(Fresh(m1, f))
    ensures Building(z, w, m1, src, kpd, pd) && Follows(m1, pd, pl.(pmm := m1.pmm)) && f in m1.data && !Known(m, f)
    ensures Alloc(z, m.pmm, 0) == Got(m1.pmm, f)
  {
    hide Supply, Alloc, Translate, DirOk, UserEntry;
    NewDataFresh(z, m, src, bs);
    BuildingData(z, w, m, m1, src, kpd, pd, f, bs);
  }

  /** Loading and the plan fail together, or the memory loaded follows the plan. */
  ghost predicate KeptTo(
    z: Zone, w: Mem, left: Left, kpd: nat, pd: nat, loaded: Option<Mem>, planned: Option<Plan>) {
    && (loaded.Some? <==> planned.Some?)
    && (loaded.Some? ==>
          Building(z, w, loaded.value, Pmm(left.words), kpd, pd) && Follows(loaded.value, pd, planned.value))
  }

  lemma PlanPageKept(z: Zone, w: Mem, m: Mem, left: Left, kpd: nat, pd: nat, pl: Plan, elf: Elf, ph: Phdr, i: nat)
    requires Building(z, w, m, Pmm(left.words), kpd, pd) && Follows(m, pd, pl) && ph.vaddr / PAGE + i < USER_PAGES
    ensures var vp := ph.vaddr / PAGE + i;
      KeptTo(z, w, left, kpd, pd, LoadPage(z, m, left, pd, elf, ph, i), PlanPage(z, pl, vp, SegmentFlags(ph)))
  {
    hide Building, Follows, Alloc, MapRange, PlanMap, PageBytes, SegmentFlags, UserFlag;
    assert m.pmm == pl.pmm by { FollowsPmm(m, pd, pl); }
    var src, bs, vp, flag := Pmm(left.words), PageBytes(elf, ph, i), ph.vaddr / PAGE + i, SegmentFlags(ph);
    if NewData(z, m, bs).Some? {
      var Fresh(m1, f) := NewData(z, m, bs).value;
      PlanDataKept(z, w, m, m1, src, kpd, pd, pl, f, bs);
      FlagsOk(ph);
      PlanMapKept(z, w, m1, src, kpd, pd, pl.(pmm := m1.pmm), f, vp, flag);
      if LoadPage(z, m, left, pd, elf, ph, i).Some? { MapUserKeeps(z, w, m1, src, kpd, pd, f, vp, flag); }
    }
  }

  lemma FollowsPmm(m: Mem, pd: nat, pl: Plan)
    requires Follows(m, pd, pl)
    ensures m.pmm == pl.pmm && pd in m.tables && m.tables[pd] == pl.dir
  {
  }

  lemma {:induction false} PlanPagesKept(
    z: Zone, w: Mem, m: Mem, left: Left, kpd: nat, pd: nat, pl: Plan, elf: Elf, ph: Phdr, i: nat, n: nat)
    requires Building(z, w, m, Pmm(left.words), kpd, pd) && Follows(m, pd, pl)
    requires i <= n && (i == n || ph.vaddr / PAGE + n <= USER_PAGES)
    ensures KeptTo(z, w, left, kpd, pd, LoadPages(z, m, left, pd, elf, ph, i, n), PlanPages(z, pl, ph, i, n))
    decreases n - i
  {
    hide Building, Follows, LoadPage, PlanPage, SegmentFlags;
    if i < n {
      PlanPageKept(z, w, m, left, kpd, pd, pl, elf, ph, i);
      if LoadPage(z, m, left, pd, elf, ph, i).Some? {
        PlanPagesKept(z, w, LoadPage(z, m, left, pd, elf, ph, i).value, left, kpd, pd,
                      PlanPage(z, pl, ph.vaddr / PAGE + i, SegmentFlags(ph)).value, elf, ph, i + 1, n);
      }
    }
  }

  lemma PlanSegmentKept(z: Zone, w: Mem, m: Mem, left: Left, kpd: nat, pd: nat, pl: Plan, elf: Elf, ph: Phdr)
    requires Building(z, w, m, Pmm(left.words), kpd, pd) && Follows(m, pd, pl)
    requires forall vq: nat :: InSegment(ph, vq) ==> vq < USER_PAGES
    ensures KeptTo(z, w, left, kpd, pd, LoadSegment(z, m, left, pd, elf, ph), PlanSegment(z, pl, ph))
  {
    hide Building, Follows, LoadPages, PlanPages, PagesNeeded;
    if ph.kind == PT_LOAD {
      if PagesNeeded(ph) > 0 { assert InSegment(ph, ph.vaddr / PAGE + PagesNeeded(ph) - 1); }
      PlanPagesKept(z, w, m, left, kpd, pd, pl, elf, ph, 0, PagesNeeded(ph));
    }
  }

  lemma {:induction false} PlanAllKept(
    z: Zone, w: Mem, m: Mem, left: Left, kpd: nat, pd: nat, pl: Plan, elf: Elf, k: nat)
    requires Building(z, w, m, Pmm(left.words), kpd, pd) && Follows(m, pd, pl) && k <= |elf.phdrs| && BelowKernel(elf)
    ensures KeptTo(z, w, left, kpd, pd, LoadAll(z, m, left, pd, elf, k), PlanAll(z, pl, elf.phdrs, k))
    decreases |elf.phdrs| - k
  {
    hide Building, Follows, LoadSegment, PlanSegment, InSegment, StackBase;
    if k < |elf.phdrs| {
      var ph := elf.phdrs[k];
      PlanSegmentKept(z, w, m, left, kpd, pd, pl, elf, ph);
      if LoadSegment(z, m, left, pd, elf, ph).Some? {
        PlanAllKept(z, w, LoadSegment(z, m, left, pd, elf, ph).value, left, kpd, pd,
                    PlanSegment(z, pl, ph).value, elf, k + 1);
      }
    }
  }

  lemma PlanStackKept(z: Zone, w: Mem, m: Mem, left: Left, kpd: nat, pd: nat, pl: Plan, elf: Elf)
    requires Building(z, w, m, Pmm(left.words), kpd, pd) && Follows(m, pd, pl) && BelowKernel(elf)
    ensures AddStack(z, m, left, pd, elf).Some? <==> PlanPage(z, pl, StackBase(elf) / PAGE, StackFlags()).Some?
    ensures AddStack(z, m, left, pd, elf).Some? ==>
      var made, pl' := AddStack(z, m, left, pd, elf).value, PlanPage(z, pl, StackBase(elf) / PAGE, StackFlags()).value;
      made.pd == pd && Follows(made.m, pd, pl')
  {
    hide Building, Follows, Alloc, MapRange, PlanMap, StackFlags, UserFlag, StackBase, InSegment;
    assert m.pmm == pl.pmm by { FollowsPmm(m, pd, pl); }
    if Alloc(z, m.pmm, 0).Got? {
      var Got(pmm, f) := Alloc(z, m.pmm, 0);
      var m1 := m.(data := m.data[f := left.Bytes(f)], pmm := pmm);
      assert NewData(z, m, left.Bytes(f)) == Some(Fresh(m1, f));
      PlanDataKept(z, w, m, m1, Pmm(left.words), kpd, pd, pl, f, left.Bytes(f));
      FlagsOk(Phdr(0, 0, 0, 0, 0, 0));
      PlanMapKept(z, w, m1, Pmm(left.words), kpd, pd, pl.(pmm := pmm), f, StackBase(elf) / PAGE, StackFlags());
    }
  }

  /** create_process keeps to the plan: it panics exactly when the plan runs out of
      pages, its directory is the planned one, and every page of its own is in the
      planned frame. */
  lemma CreatePlanned(z: Zone, m: Mem, left: Left, kpd: nat, elf: Elf)
    requires kpd in m.tables && World(z, m, Pmm(left.words), kpd) && BelowKernel(elf)
    ensures CreateProcess(z, m, left, kpd, elf).Some? <==> PlanProcess(z, m.pmm, m.tables[kpd], elf).Some?
    ensures CreateProcess(z, m, left, kpd, elf).Some? ==>
      var made := CreateProcess(z, m, left, kpd, elf).value;
      Follows(made.m, made.pd, PlanProcess(z, m.pmm, m.tables[kpd], elf).value)
  {
    hide World, Building, Follows, Alloc, LoadAll, PlanAll, AddStack, PlanPage, BelowKernel, StackBase, StackFlags,
         Magic;
    if Alloc(z, m.pmm, 0).Got? {
      CopyBuilds(z, m, left, kpd);
      var Got(pmm, pd) := Alloc(z, m.pmm, 0);
      var m0 := m.(tables := m.tables[pd := m.tables[kpd]], pmm := pmm);
      var pl := Plan(pmm, m.tables[kpd], map[]);
      StartFollows(m0, pd, pl);
      if Magic(elf) { PlanAllKept(z, m, m0, left, kpd, pd, pl, elf, 0); }
      if LoadElf(z, m0, left, pd, elf).Some? {
        var m1, pl1 := LoadElf(z, m0, left, pd, elf).value, PlanElf(z, pl, elf).value;
        PlanStackKept(z, m, m1, left, kpd, pd, pl1, elf);
      }
    }
  }

  lemma StartFollows(m: Mem, pd: nat, pl: Plan)
    requires pd in m.tables && m.pmm == pl.pmm && m.tables[pd] == pl.dir && pl.own == map[]
    ensures Follows(m, pd, pl)
  {
  }
}
