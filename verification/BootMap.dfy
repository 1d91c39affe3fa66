/** The kernel directory as paging_init builds it: region after region, with
    tables from zeroed boot pages. */
module BootMap {
  import opened NodeList
  import opened BuddyModel
  import opened EntryBits
  import opened PageTables
  import opened PageSteps
  import opened PageTheorems
  import opened ElfModel

  datatype Region = Region(pp: nat, vp: nat, n: nat, flag: nat)

  predicate Covers(r: Region, vq: nat) { r.vp <= vq < r.vp + r.n }

  function MapAll(z: Zone, m: Mem, pd: nat, rs: seq<Region>): Option<Mem> {
    if rs == [] then Some(m) else
    var r := rs[|rs| - 1];
    match MapAll(z, m, pd, rs[..|rs| - 1])
    case None => None
    case Some(m1) => MapRange(z, m1, Bump, pd, r.pp, r.vp, r.n, r.flag)
  }

  /** What a list of regions asks page vq to translate to. */
  function Meaning(rs: seq<Region>, vq: nat): Option<Hit> {
    if rs == [] then None else
    var r := rs[|rs| - 1];
    if Covers(r, vq) then Some(Hit(r.pp + (vq - r.vp), Writable(r.flag), Usable(r.flag)))
    else Meaning(rs[..|rs| - 1], vq)
  }

  predicate RegionOk(r: Region) { FlagOk(r.flag) && !Usable(r.flag) && r.vp + r.n <= PAGES }

  /** Kernel regions that share no page. */
  ghost predicate RegionsOk(rs: seq<Region>) {
    && (forall i :: 0 <= i < |rs| ==> RegionOk(rs[i]))
    && forall i, j, vq: nat :: 0 <= i < j < |rs| && Covers(rs[i], vq) ==> !Covers(rs[j], vq)
  }

  ghost predicate SmallWritable(m: Mem, pd: nat) {
    pd in m.tables && forall d :: 0 <= d < ENTRIES && IsSmall(m.tables[pd][d]) ==> Writable(m.tables[pd][d])
  }

  // -------------------------------------------------------- one more region

  /** The boot allocator never runs out. */
  lemma BootTable(z: Zone, m: Mem, pd: nat, pp: nat, vp: nat, flag: nat)
    requires Supply(z, m, Bump) && DirOk(m, pd) && vp < PAGES && FlagOk(flag)
    requires Accepts(m.tables[pd][vp / ENTRIES], flag)
    ensures MapSmall(z, m, Bump, pd, pp, vp, flag).Some?
  {
    hide Supply, Bit, Or, TableOf;
    assert EnsureTable(z, m, Bump, pd, vp, flag).Some?;
    EnsureOk(z, m, Bump, pd, vp, flag);
  }

  lemma {:induction false} BootRange(z: Zone, m: Mem, pd: nat, pp: nat, vp: nat, n: nat, flag: nat)
    requires Supply(z, m, Bump) && Ready(m, pd, vp, n, flag) && SmallWritable(m, pd)
    ensures MapRange(z, m, Bump, pd, pp, vp, n, flag).Some?
    ensures SmallWritable(MapRange(z, m, Bump, pd, pp, vp, n, flag).value, pd)
    decreases n
  {
    hide Supply, Bit, TableOf, Or, MapSmall, MapLarge, Accepts;
    if n > 0 {
      FirstReady(m, pd, vp, n, flag);
      BootTable(z, m, pd, pp, vp, flag);
      var m1, k := FirstStep(z, m, Bump, pd, pp, vp, n, flag);
      BootRange(z, m1, pd, pp + k, vp + k, n - k, flag);
    }
  }

  /** A directory entry that maps a whole 4 MB leaves no page of it unmapped. */
  lemma FreePageAccepts(m: Mem, pd: nat, vq: nat, flag: nat)
    requires SmallWritable(m, pd) && vq < PAGES && Translate(m, pd, vq) == None && !Usable(flag)
    ensures Accepts(m.tables[pd][vq / ENTRIES], flag)
  {
    hide Bit, TableOf;
  }

  /** A region none of whose pages is mapped yet can be mapped: the small-page
      path meets no 4 MB entry. */
  lemma FreshRegionReady(m: Mem, pd: nat, r: Region)
    requires DirOk(m, pd) && SmallWritable(m, pd) && RegionOk(r) && r.n > 0
    requires forall vq: nat :: Covers(r, vq) ==> Translate(m, pd, vq) == None
    ensures Ready(m, pd, r.vp, r.n, r.flag)
  {
    hide Bit, TableOf, Translate, FlagOk;
    forall d | 0 <= d < ENTRIES && r.vp / ENTRIES <= d && d * ENTRIES < r.vp + r.n
      ensures Accepts(m.tables[pd][d], r.flag)
    {
      var vq := if d * ENTRIES < r.vp then r.vp else d * ENTRIES;
      assert vq / ENTRIES == d;
      assert Covers(r, vq);
      FreePageAccepts(m, pd, vq, r.flag);
    }
  }

  /** The state after regions rs: every page translates as they ask, the rest of
      the address space faults. */
  ghost predicate Mapped(z: Zone, m: Mem, pd: nat, rs: seq<Region>) {
    && DirOk(m, pd) && Supply(z, m, Bump) && SmallWritable(m, pd)
    && (forall vq: nat :: vq < PAGES ==> Translate(m, pd, vq) == Meaning(rs, vq))
    && forall d :: 0 <= d < ENTRIES && NoneTouch(rs, d) ==> m.tables[pd][d] == 0
  }

  ghost predicate NoneTouch(rs: seq<Region>, d: nat) {
    forall i :: 0 <= i < |rs| ==> !Touched(d, rs[i].vp, rs[i].n)
  }

  lemma {:induction false} MeaningNone(rs: seq<Region>, vq: nat)
    requires forall i :: 0 <= i < |rs| ==> !Covers(rs[i], vq)
    ensures Meaning(rs, vq) == None
  {
    if rs != [] {
      MeaningNone(rs[..|rs| - 1], vq);
    }
  }

  lemma EmptyDirectory(z: Zone, m: Mem, pd: nat)
    requires pd in m.tables && m.tables[pd] == ZeroTable() && Supply(z, m, Bump)
    ensures Mapped(z, m, pd, [])
  {
    hide Supply, TableOf;
    ZeroNotPresent();
  }

  lemma RegionMapped(z: Zone, m1: Mem, pd: nat, rs: seq<Region>)
    requires rs != [] && RegionsOk(rs) && Mapped(z, m1, pd, rs[..|rs| - 1]) && rs[|rs| - 1].n > 0
    ensures var r := rs[|rs| - 1];
      var m' := MapRange(z, m1, Bump, pd, r.pp, r.vp, r.n, r.flag);
      m'.Some? && Mapped(z, m'.value, pd, rs)
  {
    hide Supply, Bit, TableOf, Translate, MapRange, DirOk, FlagOk, Reached, Touched;
    var r, front := rs[|rs| - 1], rs[..|rs| - 1];
    assert RegionOk(r);
    forall vq: nat | Covers(r, vq) ensures Translate(m1, pd, vq) == None { MeaningNone(front, vq); }
    FreshRegionReady(m1, pd, r);
    BootRange(z, m1, pd, r.pp, r.vp, r.n, r.flag);
    MapRangeKeeps(z, m1, Bump, pd, r.pp, r.vp, r.n, r.flag);
    var m' := MapRange(z, m1, Bump, pd, r.pp, r.vp, r.n, r.flag).value;
    forall vq: nat | vq < PAGES
      ensures Translate(m', pd, vq) == Meaning(rs, vq)
    {
      if Covers(r, vq) {
        MapRangeInside(z, m1, Bump, pd, r.pp, r.vp, r.n, r.flag, vq);
      } else {
        MapRangeSame(z, m1, Bump, pd, r.pp, r.vp, r.n, r.flag, vq);
      }
    }
    forall d | 0 <= d < ENTRIES && NoneTouch(rs, d)
      ensures m'.tables[pd][d] == 0
    {
      assert NoneTouch(front, d);
      assert !Touched(d, r.vp, r.n);
    }
  }

  /** An empty region changes nothing and asks nothing. */
  lemma EmptyMapped(z: Zone, m: Mem, pd: nat, rs: seq<Region>)
    requires rs != [] && Mapped(z, m, pd, rs[..|rs| - 1]) && rs[|rs| - 1].n == 0
    ensures Mapped(z, m, pd, rs)
  {
    hide Supply, Bit, TableOf, Translate, DirOk, Touched;
    var front := rs[..|rs| - 1];
    forall d | 0 <= d < ENTRIES && NoneTouch(rs, d)
      ensures m.tables[pd][d] == 0
    {
      assert NoneTouch(front, d);
    }
  }

  /** paging_init: from a cleared directory, any kernel regions that share no page
      are all mapped page by page as asked, every other page faults, and no call
      meets an entry it cannot go under. */
  lemma {:induction false} BootMapExact(z: Zone, m: Mem, pd: nat, rs: seq<Region>)
    requires pd in m.tables && m.tables[pd] == ZeroTable() && Supply(z, m, Bump) && RegionsOk(rs)
    ensures MapAll(z, m, pd, rs).Some? && Mapped(z, MapAll(z, m, pd, rs).value, pd, rs)
    decreases |rs|
  {
    hide Mapped, Supply, MapRange, RegionOk, Covers;
    if rs == [] {
      EmptyDirectory(z, m, pd);
    } else {
      var front := rs[..|rs| - 1];
      BootMapExact(z, m, pd, front);
      var m1 := MapAll(z, m, pd, front).value;
      if rs[|rs| - 1].n > 0 {
        RegionMapped(z, m1, pd, rs);
      } else {
        EmptyMapped(z, m1, pd, rs);
        NothingToMap(z, m1, pd, rs[|rs| - 1]);
      }
    }
  }

  lemma NothingToMap(z: Zone, m: Mem, pd: nat, r: Region)
    requires r.n == 0
    ensures MapRange(z, m, Bump, pd, r.pp, r.vp, r.n, r.flag) == Some(m)
  {
  }

  /** Regions above the kernel base leave the user half of the directory empty. */
  lemma KernelDirectory(z: Zone, m: Mem, pd: nat, rs: seq<Region>)
    requires Mapped(z, m, pd, rs) && forall i :: 0 <= i < |rs| ==> rs[i].vp >= USER_PAGES
    ensures forall d :: 0 <= d < KERNEL_DIR ==> !Present(m.tables[pd][d])
  {
    hide Supply, TableOf, Translate, DirOk;
    forall d | 0 <= d < KERNEL_DIR
      ensures !Present(m.tables[pd][d])
    {
      assert NoneTouch(rs, d);
      ZeroNotPresent();
    }
  }
}
