/** Any number of processes, created one after the other while the rest of the
    kernel allocates and frees pages. */
module ProcessRuns {
  import opened Bits
  import opened BuddyModel
  import opened BuddySteps
  import opened EntryBits
  import opened PageTables
  import opened PageSteps
  import opened ElfModel
  import opened ProcessSteps
  import opened ProcessTheorems
  import opened ProcessTables
  import opened ProcessPlan
  import opened BuddyBoot
  import opened BootMap

  /** A process: its image, directory and stack frame; and from before its creation,
      what the pages of the allocator held, and the plan. */
  datatype Proc = Proc(elf: Elf, pd: nat, stack: nat, words: nat -> Table, plan: Plan)

  datatype State = State(m: Mem, procs: seq<Proc>)

  /** Create a process, or let the rest of the kernel use the page allocator. */
  datatype Step = Create(left: Left, elf: Elf) | Other(pmm: Buddy)

  function AnyPmm(): Source { Pmm((i: nat) => ZeroTable()) }

  function NewProc(z: Zone, m: Mem, left: Left, kpd: nat, elf: Elf, made: Process): Proc
    requires kpd in m.tables
  {
    Proc(elf, made.pd, made.stack, left.words, PlanOf(z, m, kpd, elf))
  }

  /** The rest of the kernel frees no frame of a directory, table or process. */
  ghost predicate StepTo(z: Zone, kpd: nat, s: State, step: Step, s': State) {
    match step
    case Create(left, elf) =>
      && Loadable(elf) && kpd in s.m.tables
      && var made := CreateProcess(z, s.m, left, kpd, elf);
         made.Some? && s' == State(made.value.m, s.procs + [NewProc(z, s.m, left, kpd, elf, made.value)])
    case Other(pmm) => s' == s.(m := s.m.(pmm := pmm)) && Supply(z, s'.m, AnyPmm())
  }

  /** A run from memory w: its states and the steps between them. */
  ghost predicate Run(z: Zone, kpd: nat, w: Mem, steps: seq<Step>, states: seq<State>) {
    && |states| == |steps| + 1 && states[0] == State(w, [])
    && forall i :: 0 <= i < |steps| ==> StepTo(z, kpd, states[i], steps[i], states[i + 1])
  }

  /** Page vq of directory pd is user-accessible data in a frame w did not use. */
  ghost predicate Mine(w: Mem, m: Mem, pd: nat, vq: nat) {
    var hit := Translate(m, pd, vq);
    hit.Some? && hit.value.user && hit.value.page in m.data && !Known(w, hit.value.page)
  }

  /** p is intact in m: the kernel half is the kernel's, image and stack are in
      place, every page of it in a frame of its own, as planned; its tables are its
      own, and beside its pages they hold what was left in them. */
  ghost predicate Intact(w: Mem, m: Mem, kpd: nat, p: Proc) {
    && DirOk(m, p.pd) && kpd in m.tables && p.pd !in w.tables
    && (forall d :: KERNEL_DIR <= d < ENTRIES ==> m.tables[p.pd][d] == m.tables[kpd][d])
    && ImageLoaded(w, m, p.pd, p.elf) && StackMapped(w, m, p.pd, p.elf, p.stack)
    && (forall vq: nat :: UserPage(p.elf, vq) ==> Mine(w, m, p.pd, vq))
    && (forall d :: 0 <= d < KERNEL_DIR ==> UserEntry(w, m.tables[p.pd][d]))
    && (forall vq: nat :: vq < USER_PAGES && !UserPage(p.elf, vq) ==> Untouched(m, p.pd, p.words, vq))
    && Loadable(p.elf) && InPlace(m, p.pd, p.plan)
    && forall vq: nat :: vq in p.plan.own <==> UserPage(p.elf, vq)
  }

  /** The segments and stacks of two processes share no frame. */
  ghost predicate Separate(m: Mem, p: Proc, q: Proc) {
    && p.pd != q.pd
    && forall vq: nat, vr: nat :: UserPage(p.elf, vq) && UserPage(q.elf, vr)
         && Translate(m, p.pd, vq).Some? && Translate(m, q.pd, vr).Some?
         ==> Translate(m, p.pd, vq).value.page != Translate(m, q.pd, vr).value.page
  }

  ghost predicate AllIntact(z: Zone, w: Mem, kpd: nat, s: State) {
    && World(z, s.m, AnyPmm(), kpd) && Extends(w, s.m)
    && (forall i :: 0 <= i < |s.procs| ==> Intact(w, s.m, kpd, s.procs[i]))
    && forall i, j :: 0 <= i < j < |s.procs| ==> Separate(s.m, s.procs[i], s.procs[j])
  }

  lemma ImageIsMine(w: Mem, m: Mem, pd: nat, elf: Elf, stack: nat, vq: nat)
    requires ImageLoaded(w, m, pd, elf) && StackMapped(w, m, pd, elf, stack) && UserPage(elf, vq)
    ensures Mine(w, m, pd, vq)
  {
    hide Translate, PageBytes, StackBase, PagesNeeded;
    if vq != StackBase(elf) / PAGE {
      var t :| 0 <= t < |elf.phdrs| && InSegment(elf.phdrs[t], vq);
      assert PageLoaded(w, m, pd, elf, elf.phdrs[t], vq - elf.phdrs[t].vaddr / PAGE);
    }
  }

  // ------------------------------------------------ what growth preserves

  lemma GrowthKeeps(w: Mem, m: Mem, m': Mem, pd: nat, vq: nat)
    requires Extends(m, m') && DirOk(m, pd)
    ensures PageKept(m, m', pd, vq) && (Mine(w, m, pd, vq) ==> Mine(w, m', pd, vq))
  {
    hide Translate, DirOk;
    ExtendsTranslate(m, m', pd, vq);
  }

  lemma InPlaceStays(m: Mem, m': Mem, pd: nat, pl: Plan)
    requires InPlace(m, pd, pl) && Extends(m, m') && DirOk(m, pd)
    ensures InPlace(m', pd, pl)
  {
    hide Translate, DirOk, InFrame, PageKept, Mine;
    forall vq: nat | vq in pl.own ensures InFrame(m', pd, vq, pl.own[vq]) {
      GrowthKeeps(m, m, m', pd, vq);
      FrameKept(m, m', pd, vq, pl.own[vq]);
    }
  }

  lemma IntactStays(w: Mem, m: Mem, m': Mem, kpd: nat, p: Proc)
    requires Intact(w, m, kpd, p) && Extends(m, m')
    ensures Intact(w, m', kpd, p)
  {
    hide Translate, DirOk, ImageLoaded, UserPage, StackBase, InNone, PageKept, Mine, Untouched, UserEntry, InPlace;
    hide Loadable;
    ExtendsDirOk(m, m', p.pd);
    InPlaceStays(m, m', p.pd, p.plan);
    forall vq: nat | vq < USER_PAGES && !UserPage(p.elf, vq) ensures Untouched(m', p.pd, p.words, vq) {
      UntouchedStays(m, m', p.pd, p.words, vq);
    }
    forall vq: nat ensures PageKept(m, m', p.pd, vq) && (Mine(w, m, p.pd, vq) ==> Mine(w, m', p.pd, vq)) {
      GrowthKeeps(w, m, m', p.pd, vq);
    }
    DirHas(m, p.pd);
    ExtendsTranslate(m, m', p.pd, StackBase(p.elf) / PAGE);
    if Magic(p.elf) { ImageStays(w, m, m', p.pd, p.elf); } else { NoMagic(w, m', p.pd, p.elf); }
    SameHalf(m, m', kpd, p.pd);
  }

  lemma SameHalf(m: Mem, m': Mem, kpd: nat, pd: nat)
    requires kpd in m.tables && pd in m.tables && Extends(m, m')
    ensures m'.tables[kpd] == m.tables[kpd] && m'.tables[pd] == m.tables[pd]
  {
  }

  lemma SeparateStays(w: Mem, m: Mem, m': Mem, kpd: nat, p: Proc, q: Proc)
    requires Intact(w, m, kpd, p) && Intact(w, m, kpd, q) && Extends(m, m') && Separate(m, p, q)
    ensures Separate(m', p, q)
  {
    hide Translate, DirOk, ImageLoaded, UserPage, StackBase, StackMapped, Mine, Untouched, UserEntry, InPlace;
    hide Loadable;
    forall vq: nat ensures Translate(m', p.pd, vq) == Translate(m, p.pd, vq) { ExtendsTranslate(m, m', p.pd, vq); }
    forall vq: nat ensures Translate(m', q.pd, vq) == Translate(m, q.pd, vq) { ExtendsTranslate(m, m', q.pd, vq); }
  }

  /** A process made on top of m shares nothing with one that was in m. */
  lemma NewIsSeparate(w: Mem, m: Mem, m': Mem, kpd: nat, p: Proc, q: Proc)
    requires Intact(w, m, kpd, p) && Extends(m, m') && Intact(m, m', kpd, q)
    ensures Separate(m', p, q)
  {
    hide Translate, ImageLoaded, UserPage, StackBase, StackMapped, TableOf, Bit, Untouched, UserEntry, InPlace;
    hide Loadable;
    forall vq: nat, vr: nat | UserPage(p.elf, vq) && UserPage(q.elf, vr)
      ensures Translate(m', p.pd, vq).Some? && Translate(m', q.pd, vr).Some?
        ==> Translate(m', p.pd, vq).value.page != Translate(m', q.pd, vr).value.page
    {
      ExtendsTranslate(m, m', p.pd, vq);
      assert Mine(w, m, p.pd, vq) && Mine(m, m', q.pd, vr);
    }
  }

  lemma SegmentBelow(w: Mem, m: Mem, m': Mem, pd: nat, elf: Elf, ph: Phdr)
    requires SegmentLoaded(m, m', pd, elf, ph) && forall f: nat :: Known(w, f) ==> Known(m, f)
    ensures SegmentLoaded(w, m', pd, elf, ph)
  {
    hide Translate, PageBytes, PagesNeeded, Known;
    if ph.kind == PT_LOAD {
      forall j: nat | j < PagesNeeded(ph)
        ensures PageLoaded(w, m', pd, elf, ph, j)
      {
        assert PageLoaded(m, m', pd, elf, ph, j);
      }
    }
  }

  /** A frame unused in m was unused in w below it. */
  lemma IntactBelow(w: Mem, m: Mem, m': Mem, kpd: nat, p: Proc)
    requires Extends(w, m) && Intact(m, m', kpd, p)
    ensures Intact(w, m', kpd, p)
  {
    hide Translate, DirOk, UserPage, StackBase, PageBytes, PagesNeeded, Magic, Untouched, InPlace, Loadable;
    assert forall f: nat :: Known(w, f) ==> Known(m, f);
    if Magic(p.elf) {
      forall t | 0 <= t < |p.elf.phdrs|
        ensures SegmentLoaded(w, m', p.pd, p.elf, p.elf.phdrs[t])
      {
        assert SegmentLoaded(m, m', p.pd, p.elf, p.elf.phdrs[t]);
        SegmentBelow(w, m, m', p.pd, p.elf, p.elf.phdrs[t]);
      }
    }
  }

  // ------------------------------------------------------------- the steps

  lemma CreateIntact(z: Zone, m: Mem, left: Left, kpd: nat, elf: Elf)
    requires World(z, m, AnyPmm(), kpd) && Loadable(elf) && kpd in m.tables
    requires CreateProcess(z, m, left, kpd, elf).Some?
    ensures var Process(m', pd, stack) := CreateProcess(z, m, left, kpd, elf).value;
      && Extends(m, m') && World(z, m', AnyPmm(), kpd)
      && Intact(m, m', kpd, NewProc(z, m, left, kpd, elf, Process(m', pd, stack)))
  {
    hide CreateProcess, DirOk, ImageLoaded, StackMapped, UserPage, UserEntry, Mine, Untouched, InPlace;
    hide PlanProcess, BelowKernel, PageDisjoint;
    hide Inv, UsedHeads, PhantomMatches;
    CreateProcessOk(z, m, left, kpd, elf);
    var Process(m', pd, stack) := CreateProcess(z, m, left, kpd, elf).value;
    WorldStays(z, m, m', Pmm(left.words), kpd, pd);
    forall vq: nat | UserPage(elf, vq) ensures Mine(m, m', pd, vq) { ImageIsMine(m, m', pd, elf, stack, vq); }
    forall vq: nat | vq < USER_PAGES && !UserPage(elf, vq) ensures Untouched(m', pd, left.words, vq) {
      CreateLeaves(z, m, left, kpd, elf, vq);
    }
    CreatePlanned(z, m, left, kpd, elf);
    forall vq: nat ensures vq in PlanOf(z, m, kpd, elf).own <==> UserPage(elf, vq) {
      PlanOwns(z, m.pmm, m.tables[kpd], elf, vq);
    }
  }

  lemma StepKeeps(z: Zone, w: Mem, kpd: nat, s: State, step: Step, s': State)
    requires AllIntact(z, w, kpd, s) && StepTo(z, kpd, s, step, s')
    ensures AllIntact(z, w, kpd, s') && Extends(s.m, s'.m)
  {
    hide CreateProcess, Intact, Separate, Loadable, World;
    match step
    case Create(left, elf) =>
      CreateIntact(z, s.m, left, kpd, elf);
      ExtendsTrans(w, s.m, s'.m);
      var p := s'.procs[|s.procs|];
      assert s'.procs[..|s.procs|] == s.procs;
      forall i | 0 <= i < |s.procs|
        ensures Intact(w, s'.m, kpd, s'.procs[i]) && Separate(s'.m, s'.procs[i], p)
      {
        assert s'.procs[i] == s.procs[i];
        IntactStays(w, s.m, s'.m, kpd, s.procs[i]);
        NewIsSeparate(w, s.m, s'.m, kpd, s.procs[i], p);
      }
      IntactBelow(w, s.m, s'.m, kpd, p);
      forall i, j | 0 <= i < j < |s.procs|
        ensures Separate(s'.m, s'.procs[i], s'.procs[j])
      {
        assert s'.procs[i] == s.procs[i] && s'.procs[j] == s.procs[j];
        SeparateStays(w, s.m, s'.m, kpd, s.procs[i], s.procs[j]);
      }
    case Other(pmm) =>
      OtherKeeps(z, w, kpd, s, s');
  }

  lemma OtherKeeps(z: Zone, w: Mem, kpd: nat, s: State, s': State)
    requires AllIntact(z, w, kpd, s) && Supply(z, s'.m, AnyPmm())
    requires s' == s.(m := s.m.(pmm := s'.m.pmm))
    ensures AllIntact(z, w, kpd, s') && Extends(s.m, s'.m)
  {
    hide Intact, Separate, Supply, Bit, TableOf;
    forall i | 0 <= i < |s.procs| ensures Intact(w, s'.m, kpd, s.procs[i]) {
      IntactStays(w, s.m, s'.m, kpd, s.procs[i]);
    }
    forall i, j | 0 <= i < j < |s.procs| ensures Separate(s'.m, s.procs[i], s.procs[j]) {
      SeparateStays(w, s.m, s'.m, kpd, s.procs[i], s.procs[j]);
    }
  }

  /** In every state of every run, every process created so far is intact, no two
      share a frame, and nothing that memory held at the start has changed. */
  lemma {:induction false} ProcessesStayApart(z: Zone, w: Mem, kpd: nat, steps: seq<Step>, states: seq<State>, k: nat)
    requires World(z, w, AnyPmm(), kpd) && Run(z, kpd, w, steps, states) && k < |states|
    ensures AllIntact(z, w, kpd, states[k])
  {
    hide StepTo, World, Intact, Separate;
    if k > 0 {
      ProcessesStayApart(z, w, kpd, steps, states, k - 1);
      StepKeeps(z, w, kpd, states[k - 1], steps[k - 1], states[k]);
    }
  }

  /** Building later processes changes nothing that an address of an earlier
      directory, or of the kernel's, translates to or reads; and all agree with
      the kernel above the kernel base. */
  lemma {:induction false} IsolationOverRuns(
    z: Zone, w: Mem, kpd: nat, steps: seq<Step>, states: seq<State>, j: nat, k: nat, q: nat, v: nat)
    requires World(z, w, AnyPmm(), kpd) && Run(z, kpd, w, steps, states) && j <= k < |states|
    requires DirOk(states[j].m, q)
    ensures var m, m' := states[j].m, states[k].m;
      && DirOk(m', q) && Translate(m', q, v / PAGE) == Translate(m, q, v / PAGE)
      && (ReadByte(m, q, v).Some? ==> ReadByte(m', q, v) == ReadByte(m, q, v))
    ensures forall i :: 0 <= i < |states[k].procs| && v / PAGE >= USER_PAGES ==>
      Translate(states[k].m, states[k].procs[i].pd, v / PAGE) == Translate(w, kpd, v / PAGE)
    decreases k - j
  {
    hide StepTo, World, DirOk, Translate, Separate, ImageLoaded, StackMapped, UserPage, Mine, Untouched, UserEntry;
    hide InPlace, Loadable;
    ProcessesStayApart(z, w, kpd, steps, states, k);
    if j < k {
      ProcessesStayApart(z, w, kpd, steps, states, j);
      StepKeeps(z, w, kpd, states[j], steps[j], states[j + 1]);
      ExtendsTranslate(states[j].m, states[j + 1].m, q, v / PAGE);
      ExtendsDirOk(states[j].m, states[j + 1].m, q);
      IsolationOverRuns(z, w, kpd, steps, states, j + 1, k, q, v);
    }
    if v / PAGE >= USER_PAGES {
      forall i | 0 <= i < |states[k].procs|
        ensures Translate(states[k].m, states[k].procs[i].pd, v / PAGE) == Translate(w, kpd, v / PAGE)
      {
        SharedHalf(z, w, states[k].m, kpd, states[k].procs[i], v / PAGE);
      }
    }
  }

  lemma SharedHalf(z: Zone, w: Mem, m: Mem, kpd: nat, p: Proc, vp: nat)
    requires World(z, w, AnyPmm(), kpd) && Extends(w, m) && Intact(w, m, kpd, p) && vp >= USER_PAGES
    ensures Translate(m, p.pd, vp) == Translate(w, kpd, vp)
  {
    hide Supply, ImageLoaded, StackMapped, UserPage, Mine, Bit, TableOf, Untouched, UserEntry, InPlace, Loadable;
    ExtendsTranslate(w, m, kpd, vp);
    if vp < PAGES { assert vp / ENTRIES >= KERNEL_DIR; }
  }

  /** Boot establishes the start of such runs: the directory paging_init builds,
      and the page allocator over the range above the last boot page. */
  lemma BootWorld(z: Zone, m: Mem, kpd: nat, rs: seq<Region>)
    requires Mapped(z, m, kpd, rs) && forall i :: 0 <= i < |rs| ==> rs[i].vp >= USER_PAGES
    requires ZoneOk(z) && m.bump <= z.lo && !PhantomMatches(z)
    ensures World(z, m.(pmm := Boot(z)), AnyPmm(), kpd)
  {
    hide Inv, Boot, PhantomMatches, UsedHeads, Bit, TableOf;
    BootInv(z);
    KernelDirectory(z, m, kpd, rs);
    var m' := m.(pmm := Boot(z));
    assert forall f: nat :: Known(m', f) ==> Known(m, f);
  }
}
