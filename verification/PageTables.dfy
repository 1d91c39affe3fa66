/** Two-level page tables with 4 KB and 4 MB pages, as 32-bit x86 walks them, and
    the kernel's builder of mappings. Frames and pages are named by number. */
module PageTables {
  import opened Bits
  import opened NodeList
  import opened BuddyModel
  import opened BuddySteps
  import opened EntryBits

  const ENTRIES: nat := 1024
  const PAGES: nat := ENTRIES * ENTRIES

  type Table = t: seq<nat> | |t| == ENTRIES witness seq(ENTRIES, _ => 0)

  /** Physical memory that matters here: frames used as directories or tables,
      frames used for data, the page allocator, and the next boot page. */
  datatype Mem = Mem(tables: map<nat, Table>, data: map<nat, seq<nat>>, pmm: Buddy, bump: nat)

  /** Where new tables come from: zeroed boot pages, or the page allocator, whose
      pages hold whatever was left in them. */
  datatype Source = Bump | Pmm(left: nat -> Table)

  datatype Hit = Hit(page: nat, rw: bool, user: bool)

  // --------------------------------------------------------------- the walk

  function TableOf(e: nat): nat { FrameOf(e) / PAGE }

  predicate IsSmall(e: nat) { Present(e) && !Large(e) }

  /** What page vp translates to under directory pd, or None for a page fault. */
  function Translate(m: Mem, pd: nat, vp: nat): Option<Hit> {
    if pd !in m.tables || vp >= PAGES then None else
    var e := m.tables[pd][vp / ENTRIES];
    if !Present(e) then None
    else if Large(e) then Some(Hit(LargeFrameOf(e) / PAGE + vp % ENTRIES, Writable(e), Usable(e)))
    else if TableOf(e) !in m.tables then None else
    var p := m.tables[TableOf(e)][vp % ENTRIES];
    if !Present(p) then None
    else Some(Hit(FrameOf(p) / PAGE, Writable(e) && Writable(p), Usable(e) && Usable(p)))
  }

  // ------------------------------------------------------------ the builder

  function ZeroTable(): Table { seq(ENTRIES, _ => 0) }

  datatype Fresh = Fresh(m: Mem, frame: nat)

  function NewTable(z: Zone, m: Mem, src: Source): Option<Fresh> {
    match src
    case Bump => Some(Fresh(m.(tables := m.tables[m.bump := ZeroTable()], bump := m.bump + 1), m.bump))
    case Pmm(left) =>
      match Alloc(z, m.pmm, 0)
      case Panic => None
      case Got(pmm, i) => Some(Fresh(m.(tables := m.tables[i := left(i)], pmm := pmm), i))
  }

  function SetEntry(m: Mem, t: nat, i: nat, e: nat): Mem
    requires t in m.tables && i < ENTRIES
  {
    m.(tables := m.tables[t := m.tables[t][i := e]])
  }

  /** The directory entry that names table t. */
  function TableWord(t: nat, flag: nat): nat { Or(Or(Or(t * PAGE, PRESENT), RW), flag) }

  /** Make sure the directory entry for page vp names a table. */
  function EnsureTable(z: Zone, m: Mem, src: Source, pd: nat, vp: nat, flag: nat): Option<Mem>
    requires pd in m.tables && vp < PAGES
  {
    if Present(m.tables[pd][vp / ENTRIES]) then Some(m)
    else
      match NewTable(z, m, src)
      case None => None
      case Some(Fresh(m1, t)) => Some(SetEntry(m1, pd, vp / ENTRIES, TableWord(t, flag)))
  }

  /** One 4 KB page. */
  function MapSmall(z: Zone, m: Mem, src: Source, pd: nat, pp: nat, vp: nat, flag: nat): Option<Mem>
    requires pd in m.tables && vp < PAGES
  {
    match EnsureTable(z, m, src, pd, vp, flag)
    case None => None
    case Some(m1) =>
      var t := TableOf(if pd in m1.tables then m1.tables[pd][vp / ENTRIES] else 0);
      if t in m1.tables then Some(SetEntry(m1, t, vp % ENTRIES, Or(pp * PAGE, flag))) else None
  }

  /** The directory entry of a 4 MB page. */
  function LargePageWord(pp: nat, flag: nat): nat { Or(Or(pp * PAGE, SIZE_4MB), flag) }

  /** One 4 MB page. */
  function MapLarge(m: Mem, pd: nat, pp: nat, vp: nat, flag: nat): Mem
    requires pd in m.tables && vp < PAGES
  {
    SetEntry(m, pd, vp / ENTRIES, LargePageWord(pp, flag))
  }

  predicate UsesLarge(pp: nat, vp: nat, n: nat) {
    vp % ENTRIES == 0 && pp % ENTRIES == 0 && n >= ENTRIES
  }

  /** n pages from physical page pp at virtual page vp; None is the page
      allocator's panic. */
  function MapRange(z: Zone, m: Mem, src: Source, pd: nat, pp: nat, vp: nat, n: nat, flag: nat): Option<Mem>
    decreases n
  {
    if n == 0 then Some(m)
    else if pd !in m.tables || vp >= PAGES then None
    else if UsesLarge(pp, vp, n) then
      MapRange(z, MapLarge(m, pd, pp, vp, flag), src, pd, pp + ENTRIES, vp + ENTRIES, n - ENTRIES, flag)
    else
      match MapSmall(z, m, src, pd, pp, vp, flag)
      case None => None
      case Some(m1) => MapRange(z, m1, src, pd, pp + 1, vp + 1, n - 1, flag)
  }

  // -------------------------------------------------------------- invariant

  /** Every table that directory pd names is there, and is named once. */
  ghost predicate DirOk(m: Mem, pd: nat) {
    && pd in m.tables
    && (forall i :: 0 <= i < ENTRIES && IsSmall(m.tables[pd][i]) ==>
          TableOf(m.tables[pd][i]) in m.tables && TableOf(m.tables[pd][i]) != pd)
    && (forall i, j :: 0 <= i < j < ENTRIES && IsSmall(m.tables[pd][i]) && IsSmall(m.tables[pd][j]) ==>
          TableOf(m.tables[pd][i]) != TableOf(m.tables[pd][j]))
  }

  ghost predicate Known(m: Mem, f: nat) { f in m.tables || f in m.data }

  /** The next table handed out is a frame nobody uses. */
  ghost predicate Supply(z: Zone, m: Mem, src: Source) {
    if src.Bump? then forall f: nat :: Known(m, f) ==> f < m.bump
    else
      && Inv(z, m.pmm) && !PhantomMatches(z)
      && forall f: nat :: Known(m, f) ==> f < z.lo || f in UsedHeads(z, m.pmm.pages, -1)
  }

  predicate FlagOk(flag: nat) { flag < PAGE && Present(flag) && !Large(flag) }

  /** A directory entry that small pages with these flags can go under. */
  predicate Accepts(e: nat, flag: nat) {
    Present(e) ==> !Large(e) && Writable(e) && (Usable(flag) ==> Usable(e))
  }

  ghost predicate Ready(m: Mem, pd: nat, vp: nat, n: nat, flag: nat) {
    && FlagOk(flag) && vp + n <= PAGES && DirOk(m, pd)
    && forall d :: 0 <= d < ENTRIES && vp / ENTRIES <= d && d * ENTRIES < vp + n ==> Accepts(m.tables[pd][d], flag)
  }
}
