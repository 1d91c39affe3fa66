/** Loading an ELF image into a new address space. */
module ElfModel {
  import opened Bits
  import opened NodeList
  import opened BuddyModel
  import opened EntryBits
  import opened PageTables

  /** The first directory entry of the kernel half, 0xC000_0000 / 4 MB. */
  const KERNEL_DIR: nat := 768
  const USER_PAGES: nat := KERNEL_DIR * ENTRIES

  const PT_LOAD: nat := 1
  const PF_RW: nat := 6

  datatype Phdr = Phdr(kind: nat, offset: nat, vaddr: nat, filesz: nat, memsz: nat, flags: nat)

  /** The file as bytes, with its identification and program headers decoded. */
  datatype Elf = Elf(ident: seq<nat>, phdrs: seq<Phdr>, bytes: seq<nat>)

  /** Byte k of a word, lowest first. */
  function ByteOf(word: nat, k: nat): nat {
    if k == 0 then word % 256 else ByteOf(word / 256, k - 1)
  }

  /** What pages of the page allocator hold when they are handed out: a table of
      words, or the same memory as bytes. */
  datatype Left = Left(words: nat -> Table) {
    function Bytes(f: nat): seq<nat> {
      seq(PAGE, i requires 0 <= i < PAGE => ByteOf(words(f)[i / 4], i % 4))
    }
  }

  function Zeros(n: nat): seq<nat> { seq(n, _ => 0) }

  function SegmentFlags(ph: Phdr): nat {
    var f := Or(PRESENT, USER);
    if ph.flags == PF_RW then Or(f, RW) else f
  }

  function PagesNeeded(ph: Phdr): nat { (ph.memsz + PAGE - 1) / PAGE }

  function Min(a: nat, b: nat): nat { if a < b then a else b }

  /** How much of the file part is still to be copied before page i. */
  function Remaining(ph: Phdr, i: nat): nat {
    if ph.filesz <= i * PAGE then 0 else ph.filesz - i * PAGE
  }

  /** Page i of a segment: zeroed, then the file bytes copied over the front. */
  function PageBytes(elf: Elf, ph: Phdr, i: nat): seq<nat> {
    var c, at := Min(Remaining(ph, i), PAGE), ph.offset + i * PAGE;
    if at + c <= |elf.bytes| then elf.bytes[at..at + c] + Zeros(PAGE - c) else Zeros(PAGE)
  }

  /** pmm_alloc(0) for a page of data. */
  function NewData(z: Zone, m: Mem, content: seq<nat>): Option<Fresh> {
    match Alloc(z, m.pmm, 0)
    case Panic => None
    case Got(pmm, i) => Some(Fresh(m.(data := m.data[i := content], pmm := pmm), i))
  }

  /** One turn of the loop of load_segment. */
  function LoadPage(z: Zone, m: Mem, left: Left, pd: nat, elf: Elf, ph: Phdr, i: nat): Option<Mem> {
    match NewData(z, m, PageBytes(elf, ph, i))
    case None => None
    case Some(Fresh(m1, f)) => MapRange(z, m1, Pmm(left.words), pd, f, ph.vaddr / PAGE + i, 1, SegmentFlags(ph))
  }

  /** Pages i..n of a segment. */
  function LoadPages(z: Zone, m: Mem, left: Left, pd: nat, elf: Elf, ph: Phdr, i: nat, n: nat): Option<Mem>
    decreases n - i
  {
    if i >= n then Some(m) else
    match LoadPage(z, m, left, pd, elf, ph, i)
    case None => None
    case Some(m1) => LoadPages(z, m1, left, pd, elf, ph, i + 1, n)
  }

  function LoadSegment(z: Zone, m: Mem, left: Left, pd: nat, elf: Elf, ph: Phdr): Option<Mem> {
    if ph.kind != PT_LOAD then Some(m) else LoadPages(z, m, left, pd, elf, ph, 0, PagesNeeded(ph))
  }

  /** What load_segment returns: the page-aligned end of the segment. */
  function SegmentEnd(ph: Phdr): nat {
    if ph.kind != PT_LOAD then 0 else ph.vaddr + PagesNeeded(ph) * PAGE
  }

  function LoadAll(z: Zone, m: Mem, left: Left, pd: nat, elf: Elf, k: nat): Option<Mem>
    decreases |elf.phdrs| - k
  {
    if k >= |elf.phdrs| then Some(m) else
    match LoadSegment(z, m, left, pd, elf, elf.phdrs[k])
    case None => None
    case Some(m1) => LoadAll(z, m1, left, pd, elf, k + 1)
  }

  function Max(a: nat, b: nat): nat { if b > a then b else a }

  function LastAddr(phs: seq<Phdr>): (a: nat)
    ensures forall k :: 0 <= k < |phs| ==> SegmentEnd(phs[k]) <= a
  {
    if phs == [] then 0 else Max(LastAddr(phs[..|phs| - 1]), SegmentEnd(phs[|phs| - 1]))
  }

  /** The largest end: at or above every one, and one of them unless it is 0. */
  lemma {:induction false} LastAddrReached(phs: seq<Phdr>)
    ensures forall k :: 0 <= k < |phs| ==> SegmentEnd(phs[k]) <= LastAddr(phs)
    ensures LastAddr(phs) == 0 || exists k :: 0 <= k < |phs| && SegmentEnd(phs[k]) == LastAddr(phs)
  {
    hide SegmentEnd;
    if phs != [] {
      var front := phs[..|phs| - 1];
      LastAddrReached(front);
      if LastAddr(front) != 0 {
        var k :| 0 <= k < |front| && SegmentEnd(front[k]) == LastAddr(front);
        assert phs[k] == front[k];
      }
    }
  }

  /** The pages of a segment hold it, with less than a page to spare. */
  lemma PagesTight(ph: Phdr)
    ensures ph.memsz <= PagesNeeded(ph) * 4096 < ph.memsz + 4096
  {
  }

  lemma EndsTight(ph: Phdr)
    requires ph.kind == 1
    ensures ph.vaddr + ph.memsz <= SegmentEnd(ph) < ph.vaddr + ph.memsz + 4096
    ensures ph.vaddr % 4096 == 0 ==> SegmentEnd(ph) % 4096 == 0
  {
    hide PagesNeeded;
    PagesTight(ph);
  }

  /** A loaded segment whose end is less than a page below a, or above it. */
  predicate EndsNear(ph: Phdr, a: nat) { ph.kind == 1 && a < ph.vaddr + ph.memsz + 4096 }

  /** In the header's own fields: the stack starts at a page boundary, at or above the
      end of every loaded segment and less than a page above one of them; at 0 if there
      is none, and for a file without the magic number. */
  lemma StackExactly(elf: Elf)
    requires forall k :: 0 <= k < |elf.phdrs| ==> elf.phdrs[k].vaddr % 4096 == 0
    ensures StackBase(elf) % 4096 == 0
    ensures !Magic(elf) ==> StackBase(elf) == 0
    ensures Magic(elf) ==> forall k :: 0 <= k < |elf.phdrs| && elf.phdrs[k].kind == 1 ==>
      elf.phdrs[k].vaddr + elf.phdrs[k].memsz <= StackBase(elf)
    ensures Magic(elf) && StackBase(elf) != 0 ==>
      exists k :: 0 <= k < |elf.phdrs| && EndsNear(elf.phdrs[k], StackBase(elf))
  {
    hide LastAddr, PagesNeeded;
    if Magic(elf) {
      var phs := elf.phdrs;
      LastAddrReached(phs);
      forall k | 0 <= k < |phs| && phs[k].kind == 1
        ensures phs[k].vaddr + phs[k].memsz <= LastAddr(phs)
      {
        EndsTight(phs[k]);
      }
      if LastAddr(phs) != 0 {
        var k :| 0 <= k < |phs| && SegmentEnd(phs[k]) == LastAddr(phs);
        EndsTight(phs[k]);
      }
    }
  }

  predicate Magic(elf: Elf) {
    |elf.ident| >= 4 && elf.ident[..4] == [0x7f, 0x45, 0x4c, 0x46]
  }

  /** load_elf: nothing is loaded from a file without the magic number. */
  function LoadElf(z: Zone, m: Mem, left: Left, pd: nat, elf: Elf): Option<Mem> {
    if Magic(elf) then LoadAll(z, m, left, pd, elf, 0) else Some(m)
  }

  function StackBase(elf: Elf): nat { if Magic(elf) then LastAddr(elf.phdrs) else 0 }

  function StackFlags(): nat { Or(Or(USER, PRESENT), RW) }

  datatype Process = Process(m: Mem, pd: nat, stack: nat)

  /** One page of stack, mapped after the image. */
  function AddStack(z: Zone, m: Mem, left: Left, pd: nat, elf: Elf): Option<Process> {
    match Alloc(z, m.pmm, 0)
    case Panic => None
    case Got(pmm, f) =>
      var m1 := m.(data := m.data[f := left.Bytes(f)], pmm := pmm);
      match MapRange(z, m1, Pmm(left.words), pd, f, StackBase(elf) / PAGE, 1, StackFlags())
      case None => None
      case Some(m2) => Some(Process(m2, pd, f))
  }

  /** create_process up to the new address space: directory copied from the
      kernel's, image loaded, one page of stack mapped after it. */
  function CreateProcess(z: Zone, m: Mem, left: Left, kpd: nat, elf: Elf): Option<Process>
    requires kpd in m.tables
  {
    match Alloc(z, m.pmm, 0)
    case Panic => None
    case Got(pmm, pd) =>
      var m0 := m.(tables := m.tables[pd := m.tables[kpd]], pmm := pmm);
      match LoadElf(z, m0, left, pd, elf)
      case None => None
      case Some(m1) => AddStack(z, m1, left, pd, elf)
  }

  /** The byte that address v of directory pd reads. */
  function ReadByte(m: Mem, pd: nat, v: nat): Option<nat> {
    match Translate(m, pd, v / PAGE)
    case None => None
    case Some(hit) =>
      if hit.page in m.data && v % PAGE < |m.data[hit.page]| then Some(m.data[hit.page][v % PAGE]) else None
  }
}
