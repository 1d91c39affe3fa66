/** The results on the heap and on processes when the memory past the page map
    changes between calls, for page maps that no block below the maximum order ends. */
module KernelDrift {
  import opened BuddyModel
  import opened BuddySteps
  import opened BuddyDrift
  import opened HeapModel
  import opened HeapSystem
  import HeapRuns
  import opened PageTables
  import opened ProcessTheorems
  import opened ProcessRuns
  import opened ProcessReach

  lemma NoPhantom(z: Zone, b: Page)
    requires !OpenEnded(z)
    ensures !PhantomMatches(z.(beyond := b)) && !PhantomMatches(z)
  {
    hide PhantomMatches, EndsBlock;
    PhantomAt(z, b);
    PhantomAt(z, z.beyond);
    assert z.(beyond := z.beyond) == z;
  }

  lemma UsedAt(z: Zone, b: Page, pages: seq<Page>)
    ensures UsedHeads(z.(beyond := b), pages, -1) == UsedHeads(z, pages, -1)
  {
  }

  // ------------------------------------------------------------------ the heap

  /** A call together with what the entry past the map reads as when it is made. */
  datatype TimedOp = TimedOp(op: HeapRuns.Op, beyond: Page)

  ghost predicate HeapDriftsTo(z: Zone, s: System, ops: seq<TimedOp>, s': System)
    decreases ops
  {
    if ops == [] then s == s'
    else
      var z1 := z.(beyond := ops[0].beyond);
      HeapRuns.Allowed(z1, s, ops[0].op) && HeapDriftsTo(z, HeapRuns.Apply(z1, s, ops[0].op), ops[1..], s')
  }

  lemma SysAt(z: Zone, b: Page, h: Heap, pmm: Buddy)
    requires !OpenEnded(z)
    ensures SysOk(z.(beyond := b), h, pmm) <==> SysOk(z, h, pmm)
  {
    hide Inv, PhantomMatches, UsedHeads, HeapOk, Holdings, OpenEnded;
    NoPhantom(z, b);
    InvAt(z, b, pmm);
    UsedAt(z, b, pmm.pages);
  }

  /** The joint invariant over every run of the heap, whatever is written there. */
  lemma {:induction false} HeapDriftKeeps(z: Zone, s: System, ops: seq<TimedOp>, s': System)
    requires SysOk(z, s.h, s.pmm) && !OpenEnded(z) && HeapDriftsTo(z, s, ops, s')
    ensures SysOk(z, s'.h, s'.pmm) && s'.h.cs != [] && s.h.cs != [] && s'.h.cs[0].addr == s.h.cs[0].addr
    decreases ops
  {
    hide SysOk, HeapRuns.Allowed, HeapRuns.Apply, OpenEnded;
    SizesKnown(z, s.h, s.pmm);
    if ops != [] {
      var b := ops[0].beyond;
      var z1 := z.(beyond := b);
      var s1 := HeapRuns.Apply(z1, s, ops[0].op);
      SysAt(z, b, s.h, s.pmm);
      HeapRuns.ApplyKeeps(z1, s, ops[0].op);
      SysAt(z, b, s1.h, s1.pmm);
      HeapDriftKeeps(z, s1, ops[1..], s');
    }
  }

  /** And after any such run that frees everything, the heap is the boot heap. */
  lemma HeapDriftComesHome(z: Zone, pmm: Buddy, ops: seq<TimedOp>, s': System)
    requires Inv(z, pmm) && !OpenEnded(z) && Alloc(z, pmm, 0).Got?
    requires var Got(pmm1, i) := Alloc(z, pmm, 0);
      HeapDriftsTo(z, System(HeapRuns.BootHeap(Addr(i)), pmm1), ops, s')
    requires HeapRuns.NothingLive(s'.h)
    ensures s'.h == HeapRuns.BootHeap(Addr(Alloc(z, pmm, 0).index))
  {
    hide Inv, PhantomMatches, OpenEnded, Alloc, HeapDriftsTo, HeapRuns.NothingLive, HeapOk;
    NoPhantom(z, z.beyond);
    HeapRuns.BootSystem(z, pmm);
    var Got(pmm1, i) := Alloc(z, pmm, 0);
    HeapDriftKeeps(z, System(HeapRuns.BootHeap(Addr(i)), pmm1), ops, s');
    HeapRuns.NothingLiveIsBoot(s'.h);
  }

  // ----------------------------------------------------------------- processes

  /** A run during which the entry past the map may change with every step. */
  ghost predicate DriftRun(z: Zone, kpd: nat, w: Mem, steps: seq<Step>, beyond: seq<Page>, states: seq<State>) {
    && |states| == |steps| + 1 == |beyond| + 1 && states[0] == State(w, [])
    && forall i :: 0 <= i < |steps| ==> StepTo(z.(beyond := beyond[i]), kpd, states[i], steps[i], states[i + 1])
  }

  lemma WorldAt(z: Zone, b: Page, m: Mem, kpd: nat)
    requires !OpenEnded(z)
    ensures World(z.(beyond := b), m, AnyPmm(), kpd) <==> World(z, m, AnyPmm(), kpd)
  {
    hide Inv, PhantomMatches, UsedHeads, OpenEnded, DirOk;
    NoPhantom(z, b);
    InvAt(z, b, m.pmm);
    UsedAt(z, b, m.pmm.pages);
  }

  lemma IntactAt(z: Zone, b: Page, w: Mem, kpd: nat, s: State)
    requires !OpenEnded(z)
    ensures AllIntact(z.(beyond := b), w, kpd, s) <==> AllIntact(z, w, kpd, s)
  {
    hide World, Intact, Separate, OpenEnded;
    WorldAt(z, b, s.m, kpd);
  }

  lemma {:induction false} ProcessesStayApartDrifting(
    z: Zone, w: Mem, kpd: nat, steps: seq<Step>, beyond: seq<Page>, states: seq<State>, k: nat)
    requires World(z, w, AnyPmm(), kpd) && !OpenEnded(z) && DriftRun(z, kpd, w, steps, beyond, states) && k < |states|
    ensures AllIntact(z, w, kpd, states[k])
  {
    hide StepTo, World, Intact, Separate, OpenEnded;
    if k > 0 {
      var b := beyond[k - 1];
      ProcessesStayApartDrifting(z, w, kpd, steps, beyond, states, k - 1);
      IntactAt(z, b, w, kpd, states[k - 1]);
      StepKeeps(z.(beyond := b), w, kpd, states[k - 1], steps[k - 1], states[k]);
      IntactAt(z, b, w, kpd, states[k]);
    }
  }

  /** Intact, apart and isolated exactly as their prospects say, in every state of
      every run, whatever is written past the page map. */
  lemma IsolationDrifting(
    z: Zone, w: Mem, kpd: nat, steps: seq<Step>, beyond: seq<Page>, states: seq<State>, k: nat)
    requires World(z, w, AnyPmm(), kpd) && !OpenEnded(z) && DriftRun(z, kpd, w, steps, beyond, states) && k < |states|
    ensures AllIntact(z, w, kpd, states[k]) && Isolated(states[k])
  {
    hide World, AllIntact, Isolated, OpenEnded, DriftRun;
    ProcessesStayApartDrifting(z, w, kpd, steps, beyond, states, k);
    IntactIsolated(z, w, kpd, states[k]);
  }
}
