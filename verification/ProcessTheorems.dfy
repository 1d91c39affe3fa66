/** The image that create_process loads, and what it leaves alone. */
module ProcessTheorems {
  import opened Bits
  import opened NodeList
  import opened BuddyModel
  import opened BuddySteps
  import opened EntryBits
  import opened PageTables
  import opened PageSteps
  import opened ElfModel
  import opened ProcessSteps

  // --------------------------------------------------------------- segments

  predicate InSegment(ph: Phdr, vq: nat) {
    ph.kind == PT_LOAD && ph.vaddr / PAGE <= vq < ph.vaddr / PAGE + PagesNeeded(ph)
  }

  /** Every loaded segment, and the stack page after the last, is below the kernel. */
  ghost predicate BelowKernel(elf: Elf) {
    && StackBase(elf) / PAGE < USER_PAGES
    && forall k, vq: nat :: 0 <= k < |elf.phdrs| && InSegment(elf.phdrs[k], vq) ==> vq < USER_PAGES
  }

  ghost predicate PageDisjoint(phs: seq<Phdr>) {
    forall j, k, vq: nat :: 0 <= j < k < |phs| && InSegment(phs[j], vq) ==> !InSegment(phs[k], vq)
  }

  /** Nothing outside from..to changed. */
  ghost predicate KeptOutside(m: Mem, m': Mem, pd: nat, from: nat, to: nat) {
    forall vq: nat :: !(from <= vq < to) ==> PageKept(m, m', pd, vq)
  }

  lemma StillLoaded(w: Mem, m: Mem, m': Mem, pd: nat, elf: Elf, ph: Phdr, j: nat)
    requires PageLoaded(w, m, pd, elf, ph, j) && PageKept(m, m', pd, ph.vaddr / PAGE + j)
    ensures PageLoaded(w, m', pd, elf, ph, j)
  {
    hide Translate, PageBytes;
  }

  lemma {:induction false} LoadPagesOk(
    z: Zone, w: Mem, m: Mem, left: Left, kpd: nat, pd: nat, elf: Elf, ph: Phdr, i: nat, n: nat)
    requires Building(z, w, m, Pmm(left.words), kpd, pd) && i <= n
    requires i == n || ph.vaddr / PAGE + n <= USER_PAGES
    requires LoadPages(z, m, left, pd, elf, ph, i, n).Some?
    ensures var m', v := LoadPages(z, m, left, pd, elf, ph, i, n).value, ph.vaddr / PAGE;
      && Building(z, w, m', Pmm(left.words), kpd, pd)
      && (forall j :: i <= j < n ==> PageLoaded(w, m', pd, elf, ph, j))
      && KeptOutside(m, m', pd, v + i, v + n)
    decreases n - i
  {
    hide Building, Translate, PageBytes, LoadPage, PageLoaded;
    if i < n {
      LoadPageOk(z, w, m, left, kpd, pd, elf, ph, i);
      var m1 := LoadPage(z, m, left, pd, elf, ph, i).value;
      LoadPagesOk(z, w, m1, left, kpd, pd, elf, ph, i + 1, n);
      var m' := LoadPages(z, m1, left, pd, elf, ph, i + 1, n).value;
      assert PageKept(m1, m', pd, ph.vaddr / PAGE + i);
      StillLoaded(w, m1, m', pd, elf, ph, i);
      forall vq: nat | !(ph.vaddr / PAGE + i <= vq < ph.vaddr / PAGE + n)
        ensures PageKept(m, m', pd, vq)
      {
        KeptTwice(m, m1, m', pd, vq);
      }
    }
  }

  ghost predicate SegmentLoaded(w: Mem, m: Mem, pd: nat, elf: Elf, ph: Phdr) {
    ph.kind == PT_LOAD ==> forall j: nat :: j < PagesNeeded(ph) ==> PageLoaded(w, m, pd, elf, ph, j)
  }

  lemma LoadSegmentOk(z: Zone, w: Mem, m: Mem, left: Left, kpd: nat, pd: nat, elf: Elf, ph: Phdr)
    requires Building(z, w, m, Pmm(left.words), kpd, pd)
    requires forall vq: nat :: InSegment(ph, vq) ==> vq < USER_PAGES
    requires LoadSegment(z, m, left, pd, elf, ph).Some?
    ensures var m' := LoadSegment(z, m, left, pd, elf, ph).value;
      && Building(z, w, m', Pmm(left.words), kpd, pd) && SegmentLoaded(w, m', pd, elf, ph)
      && forall vq: nat :: !InSegment(ph, vq) ==> PageKept(m, m', pd, vq)
  {
    hide Building, Translate, PageBytes, LoadPages, PageLoaded, PagesNeeded;
    if ph.kind == PT_LOAD {
      if PagesNeeded(ph) > 0 { assert InSegment(ph, ph.vaddr / PAGE + PagesNeeded(ph) - 1); }
      LoadPagesOk(z, w, m, left, kpd, pd, elf, ph, 0, PagesNeeded(ph));
    }
  }

  lemma SegmentStays(w: Mem, m: Mem, m': Mem, pd: nat, elf: Elf, ph: Phdr)
    requires SegmentLoaded(w, m, pd, elf, ph)
    requires forall vq: nat :: InSegment(ph, vq) ==> PageKept(m, m', pd, vq)
    ensures SegmentLoaded(w, m', pd, elf, ph)
  {
    hide Translate, PageBytes, PageLoaded, PagesNeeded;
    if ph.kind == PT_LOAD {
      forall j: nat | j < PagesNeeded(ph)
        ensures PageLoaded(w, m', pd, elf, ph, j)
      {
        assert InSegment(ph, ph.vaddr / PAGE + j);
        StillLoaded(w, m, m', pd, elf, ph, j);
      }
    }
  }

  ghost predicate InNone(phs: seq<Phdr>, k: nat, vq: nat) {
    forall t :: k <= t < |phs| ==> !InSegment(phs[t], vq)
  }

  /** Segments k onwards: each is in place at the end, none disturbed another. */
  lemma {:induction false} LoadAllOk(z: Zone, w: Mem, m: Mem, left: Left, kpd: nat, pd: nat, elf: Elf, k: nat)
    requires Building(z, w, m, Pmm(left.words), kpd, pd) && k <= |elf.phdrs|
    requires PageDisjoint(elf.phdrs) && BelowKernel(elf)
    requires LoadAll(z, m, left, pd, elf, k).Some?
    ensures var m' := LoadAll(z, m, left, pd, elf, k).value;
      && Building(z, w, m', Pmm(left.words), kpd, pd)
      && (forall t :: k <= t < |elf.phdrs| ==> SegmentLoaded(w, m', pd, elf, elf.phdrs[t]))
      && forall vq: nat :: InNone(elf.phdrs, k, vq) ==> PageKept(m, m', pd, vq)
    decreases |elf.phdrs| - k
  {
    hide Building, Translate, PageBytes, LoadSegment, SegmentLoaded, InSegment, StackBase;
    if k < |elf.phdrs| {
      var ph := elf.phdrs[k];
      LoadSegmentOk(z, w, m, left, kpd, pd, elf, ph);
      var m1 := LoadSegment(z, m, left, pd, elf, ph).value;
      LoadAllOk(z, w, m1, left, kpd, pd, elf, k + 1);
      var m' := LoadAll(z, m1, left, pd, elf, k + 1).value;
      forall vq: nat | InSegment(ph, vq)
        ensures PageKept(m1, m', pd, vq)
      {
        assert InNone(elf.phdrs, k + 1, vq);
      }
      SegmentStays(w, m1, m', pd, elf, ph);
      forall vq: nat | InNone(elf.phdrs, k, vq)
        ensures PageKept(m, m', pd, vq)
      {
        assert InNone(elf.phdrs, k + 1, vq);
        assert PageKept(m, m1, pd, vq) && PageKept(m1, m', pd, vq);
        KeptTwice(m, m1, m', pd, vq);
      }
    }
  }

  lemma KeptTwice(m: Mem, m1: Mem, m': Mem, pd: nat, vq: nat)
    requires PageKept(m, m1, pd, vq) && PageKept(m1, m', pd, vq)
    ensures PageKept(m, m', pd, vq)
  {
    hide Translate;
  }

  // ------------------------------------------------------------ the process

  /** Memory in which the kernel directory maps nothing below the kernel. */
  ghost predicate World(z: Zone, m: Mem, src: Source, kpd: nat) {
    && DirOk(m, kpd) && src.Pmm? && Supply(z, m, src)
    && forall d :: 0 <= d < KERNEL_DIR ==> !Present(m.tables[kpd][d])
  }

  /** The pages that belong to a process: its segments and its stack. */
  ghost predicate UserPage(elf: Elf, vq: nat) {
    vq == StackBase(elf) / PAGE || (Magic(elf) && !InNone(elf.phdrs, 0, vq))
  }

  /** The stack page: a frame of its own, writable, usable. */
  ghost predicate StackMapped(w: Mem, m: Mem, pd: nat, elf: Elf, stack: nat) {
    && Translate(m, pd, StackBase(elf) / PAGE) == Some(Hit(stack, true, true))
    && !Known(w, stack) && stack in m.data
  }

  ghost predicate ImageLoaded(w: Mem, m: Mem, pd: nat, elf: Elf) {
    Magic(elf) ==> forall t :: 0 <= t < |elf.phdrs| ==> SegmentLoaded(w, m, pd, elf, elf.phdrs[t])
  }

  /** The copied directory: kernel half as in kpd, user half still empty. */
  lemma CopyBuilds(z: Zone, m: Mem, left: Left, kpd: nat)
    requires World(z, m, Pmm(left.words), kpd) && Alloc(z, m.pmm, 0).Got?
    ensures var Got(pmm, pd) := Alloc(z, m.pmm, 0);
      Building(z, m, m.(tables := m.tables[pd := m.tables[kpd]], pmm := pmm), Pmm(left.words), kpd, pd)
  {
    hide Inv, Alloc, UsedHeads, PhantomMatches, Bit, TableOf;
    var src := Pmm((i: nat) => m.tables[kpd]);
    assert Supply(z, m, src);
    NewTableFresh(z, m, src);
  }

  /** The stack page lies after every segment, so it is in none of them. */
  lemma StackAfterImage(elf: Elf)
    requires Magic(elf) && forall k :: 0 <= k < |elf.phdrs| ==> elf.phdrs[k].vaddr % PAGE == 0
    ensures InNone(elf.phdrs, 0, StackBase(elf) / PAGE)
  {
    hide PagesNeeded;
    forall t | 0 <= t < |elf.phdrs|
      ensures !InSegment(elf.phdrs[t], StackBase(elf) / PAGE)
    {
      var ph := elf.phdrs[t];
      assert SegmentEnd(ph) <= LastAddr(elf.phdrs);
      if ph.kind == PT_LOAD {
        EndPage(ph.vaddr, PagesNeeded(ph), LastAddr(elf.phdrs));
      }
    }
  }

  lemma EndPage(v: nat, n: nat, a: nat)
    requires v % PAGE == 0 && v + n * PAGE <= a
    ensures v / PAGE + n <= a / PAGE
  {
    assert v == (v / PAGE) * PAGE;
    assert (v / PAGE + n) * PAGE <= a;
  }

  lemma ImageStays(w: Mem, m: Mem, m': Mem, pd: nat, elf: Elf)
    requires ImageLoaded(w, m, pd, elf) && Magic(elf)
    requires forall vq: nat :: !InNone(elf.phdrs, 0, vq) ==> PageKept(m, m', pd, vq)
    ensures ImageLoaded(w, m', pd, elf)
  {
    hide SegmentLoaded, PageKept, InSegment;
    forall t | 0 <= t < |elf.phdrs|
      ensures SegmentLoaded(w, m', pd, elf, elf.phdrs[t])
    {
      assert forall vq: nat :: InSegment(elf.phdrs[t], vq) ==> !InNone(elf.phdrs, 0, vq);
      SegmentStays(w, m, m', pd, elf, elf.phdrs[t]);
    }
  }

  ghost predicate Loadable(elf: Elf) {
    && BelowKernel(elf) && PageDisjoint(elf.phdrs)
    && forall k :: 0 <= k < |elf.phdrs| ==> elf.phdrs[k].vaddr % PAGE == 0
  }

  lemma LoadElfOk(z: Zone, w: Mem, m: Mem, left: Left, kpd: nat, pd: nat, elf: Elf)
    requires Building(z, w, m, Pmm(left.words), kpd, pd) && Loadable(elf)
    requires LoadElf(z, m, left, pd, elf).Some?
    ensures var m1 := LoadElf(z, m, left, pd, elf).value;
      Building(z, w, m1, Pmm(left.words), kpd, pd) && ImageLoaded(w, m1, pd, elf)
  {
    hide Building, LoadAll, SegmentLoaded, InSegment, PageKept, StackBase;
    if Magic(elf) {
      LoadAllOk(z, w, m, left, kpd, pd, elf, 0);
    }
  }

  /** A created process has its image and its stack, on top of the memory before. */
  lemma CreateProcessOk(z: Zone, m: Mem, left: Left, kpd: nat, elf: Elf)
    requires World(z, m, Pmm(left.words), kpd) && Loadable(elf)
    requires CreateProcess(z, m, left, kpd, elf).Some?
    ensures var Process(m', pd, stack) := CreateProcess(z, m, left, kpd, elf).value;
      && Building(z, m, m', Pmm(left.words), kpd, pd)
      && ImageLoaded(m, m', pd, elf) && StackMapped(m, m', pd, elf, stack)
  {
    hide Building, LoadElf, ImageLoaded, StackMapped, Alloc, AddStack, World, Loadable;
    CopyBuilds(z, m, left, kpd);
    assert kpd in m.tables by { WorldHas(z, m, left, kpd); }
    var Got(pmm, pd) := Alloc(z, m.pmm, 0);
    var m0 := m.(tables := m.tables[pd := m.tables[kpd]], pmm := pmm);
    LoadElfOk(z, m, m0, left, kpd, pd, elf);
    var m1 := LoadElf(z, m0, left, pd, elf).value;
    StackOk(z, m, m1, left, kpd, pd, elf);
  }

  lemma WorldHas(z: Zone, m: Mem, left: Left, kpd: nat)
    requires World(z, m, Pmm(left.words), kpd)
    ensures kpd in m.tables
  {
  }

  /** The stack mapping after the load. */
  lemma StackOk(z: Zone, w: Mem, m1: Mem, left: Left, kpd: nat, pd: nat, elf: Elf)
    requires Building(z, w, m1, Pmm(left.words), kpd, pd) && ImageLoaded(w, m1, pd, elf) && Loadable(elf)
    requires AddStack(z, m1, left, pd, elf).Some?
    ensures var Process(m', q, f) := AddStack(z, m1, left, pd, elf).value;
      && q == pd && Building(z, w, m', Pmm(left.words), kpd, pd)
      && ImageLoaded(w, m', pd, elf) && StackMapped(w, m', pd, elf, f)
  {
    hide DirOk, ImageLoaded, InSegment, StackBase, Alloc, MapRange, Translate, Supply, PageDisjoint, StackFlags,
         UserEntry, FlagOk, Bit;
    var src, vp := Pmm(left.words), StackBase(elf) / PAGE;
    var Got(pmm, f) := Alloc(z, m1.pmm, 0);
    var m2 := m1.(data := m1.data[f := left.Bytes(f)], pmm := pmm);
    assert NewData(z, m1, left.Bytes(f)) == Some(Fresh(m2, f));
    NewDataFresh(z, m1, src, left.Bytes(f));
    BuildingData(z, w, m1, m2, src, kpd, pd, f, left.Bytes(f));
    FlagsOk(Phdr(0, 0, 0, 0, 0, 0));
    MapUserKeeps(z, w, m2, src, kpd, pd, f, vp, StackFlags());
    MapUserMeans(z, w, m2, src, kpd, pd, f, vp, StackFlags());
    var m' := MapRange(z, m2, src, pd, f, vp, 1, StackFlags()).value;
    assert !Known(w, f);
    if Magic(elf) {
      StackAfterImage(elf);
      forall vq: nat | !InNone(elf.phdrs, 0, vq)
        ensures PageKept(m1, m', pd, vq)
      {
        assert PageKept(m2, m', pd, vq);
      }
      ImageStays(w, m1, m', pd, elf);
    } else {
      NoMagic(w, m', pd, elf);
    }
  }

  lemma NoMagic(w: Mem, m: Mem, pd: nat, elf: Elf)
    requires !Magic(elf)
    ensures ImageLoaded(w, m, pd, elf)
  {
  }

  // -------------------------------------------------------- byte by byte

  /** What byte b of a segment reads: the file, then zeros. */
  function ImageByte(elf: Elf, ph: Phdr, b: nat): nat {
    if b < ph.filesz && ph.offset + b < |elf.bytes| then elf.bytes[ph.offset + b] else 0
  }

  /** The byte at offset b of a segment sits in page b / PAGE at b % PAGE. */
  lemma PageBytesAt(elf: Elf, ph: Phdr, b: nat)
    requires ph.offset + ph.filesz <= |elf.bytes|
    ensures |PageBytes(elf, ph, b / PAGE)| == PAGE && PageBytes(elf, ph, b / PAGE)[b % PAGE] == ImageByte(elf, ph, b)
  {
    var i := b / PAGE;
    assert b == i * PAGE + b % PAGE;
  }

  lemma AddPages(v: nat, b: nat)
    requires v % PAGE == 0
    ensures (v + b) / PAGE == v / PAGE + b / PAGE && (v + b) % PAGE == b % PAGE
  {
    assert v == (v / PAGE) * PAGE;
    assert v + b == (v / PAGE + b / PAGE) * PAGE + b % PAGE;
  }

  lemma PageOfByte(ph: Phdr, b: nat)
    requires b / PAGE * PAGE < ph.memsz
    ensures b / PAGE < PagesNeeded(ph)
  {
  }

  /** Byte b of segment ph reads right through directory pd, with the segment's
      permissions. */
  ghost predicate ByteRight(m: Mem, pd: nat, elf: Elf, ph: Phdr, b: nat) {
    var hit := Translate(m, pd, (ph.vaddr + b) / PAGE);
    && hit.Some? && hit.value.user && (hit.value.rw <==> ph.flags == PF_RW)
    && ReadByte(m, pd, ph.vaddr + b) == Some(ImageByte(elf, ph, b))
  }

  /** Reading a created process's memory at p_vaddr + b gives the file's byte
      p_offset + b below p_filesz and zero from there to the end of the page that
      p_memsz ends in, writable exactly for read-write segments. */
  lemma LoadedImage(z: Zone, m: Mem, left: Left, kpd: nat, elf: Elf, k: nat, b: nat)
    requires kpd in m.tables && World(z, m, Pmm(left.words), kpd) && Loadable(elf) && Magic(elf)
    requires CreateProcess(z, m, left, kpd, elf).Some?
    requires k < |elf.phdrs| && elf.phdrs[k].kind == PT_LOAD && b / PAGE * PAGE < elf.phdrs[k].memsz
    requires elf.phdrs[k].offset + elf.phdrs[k].filesz <= |elf.bytes|
    ensures var made := CreateProcess(z, m, left, kpd, elf).value;
      ByteRight(made.m, made.pd, elf, elf.phdrs[k], b)
    ensures (elf.phdrs[k].vaddr + b) / PAGE != StackBase(elf) / PAGE
  {
    hide Building, World, CreateProcess, StackBase, PageBytes, Translate, PagesNeeded, PageDisjoint, BelowKernel,
         StackMapped;
    WorldHas(z, m, left, kpd);
    CreateProcessOk(z, m, left, kpd, elf);
    var Process(m', pd, stack) := CreateProcess(z, m, left, kpd, elf).value;
    var ph := elf.phdrs[k];
    PageOfByte(ph, b);
    AddPages(ph.vaddr, b);
    PageBytesAt(elf, ph, b);
    assert PageLoaded(m, m', pd, elf, ph, b / PAGE);
    StackAfterImage(elf);
    assert InSegment(ph, (ph.vaddr + b) / PAGE);
  }

  // --------------------------------------------------------------- isolation

  /** A directory keeps its meaning when memory only grows. */
  lemma ExtendsTranslate(w: Mem, m: Mem, q: nat, vp: nat)
    requires Extends(w, m) && DirOk(w, q)
    ensures Translate(m, q, vp) == Translate(w, q, vp)
  {
    hide Bit, TableOf;
  }

  lemma ExtendsDirOk(w: Mem, m: Mem, q: nat)
    requires Extends(w, m) && DirOk(w, q)
    ensures DirOk(m, q)
  {
    hide Bit, TableOf;
  }

  lemma ExtendsTrans(a: Mem, b: Mem, c: Mem)
    requires Extends(a, b) && Extends(b, c)
    ensures Extends(a, c)
  {
  }

  lemma WorldStays(z: Zone, w: Mem, m: Mem, src: Source, kpd: nat, pd: nat)
    requires World(z, w, src, kpd) && Building(z, w, m, src, kpd, pd)
    ensures World(z, m, src, kpd)
  {
    hide Bit, TableOf, Supply, UserEntry;
    ExtendsDirOk(w, m, kpd);
  }
}
