/** Threads together with their memory: scheduler, heap and page allocator in one
    run. thread_create takes a page for the stack and a record from the heap, and the
    reaper's destroy_thread frees both. */
module ThreadMemory {
  import opened NodeList
  import opened BuddyModel
  import opened BuddySteps
  import opened BuddyCalls
  import opened HeapModel
  import opened HeapSystem
  import opened HeapOthers
  import HeapRuns
  import S = SchedModel
  import SchedSteps
  import SchedTheorems

  /** sizeof(Thread). */
  const RECORD: nat := 36

  /** What a thread holds: its stack, a page of the allocator, and its record. */
  datatype Held = Held(stack: nat, record: nat)

  function Stacks(mem: map<nat, Held>): set<nat> { set x | x in mem :: mem[x].stack }

  // --------------------------------------------------------------- the memory

  ghost predicate HeldOk(live: map<nat, nat>, h: Heap, t: Held) {
    t.stack in live && live[t.stack] == 0 && LiveRoom(h, t.record, 36)
  }

  ghost predicate OneEach(mem: map<nat, Held>) {
    forall x, y :: x in mem && y in mem && x != y ==> mem[x].stack != mem[y].stack && mem[x].record != mem[y].record
  }

  /** Every stack is a live page of its own that the heap does not hold, every
      record a live pointer of its own with room for a Thread. */
  ghost predicate MemOk(z: Zone, sys: System, mem: map<nat, Held>) {
    && SysOk(z, sys.h, sys.pmm) && OneEach(mem)
    && Spared(LivePages(z, sys.pmm), sys.h, Stacks(mem))
    && forall x :: x in mem ==> HeldOk(LivePages(z, sys.pmm), sys.h, mem[x])
  }

  /** thread_create's two allocations. */
  function TakeMemory(z: Zone, sys: System): Option<(System, Held)> {
    match Alloc(z, sys.pmm, 0)
    case Panic => None
    case Got(pmm, i) =>
      var r := Kmalloc(z, sys.h, pmm, RECORD);
      if r.Ptr? then Some((System(r.h, r.pmm), Held(i, r.p))) else None
  }

  /** destroy_thread. */
  function DropMemory(z: Zone, sys: System, t: Held): System {
    Kfree(z, sys.h, PmmFree(z, sys.pmm, t.stack), t.record)
  }

  lemma StackTaken(z: Zone, sys: System, mem: map<nat, Held>)
    requires MemOk(z, sys, mem) && Alloc(z, sys.pmm, 0).Got?
    ensures var Got(pmm, i) := Alloc(z, sys.pmm, 0);
      && SysOk(z, sys.h, pmm) && i !in LivePages(z, sys.pmm)
      && LivePages(z, pmm) == LivePages(z, sys.pmm)[i := 0]
      && Spared(LivePages(z, pmm), sys.h, Stacks(mem) + {i})
  {
    hide Inv, Alloc, UsedHeads, BuddyModel.FreePages, Holdings, PhantomMatches, HeapOk, HeldOk, HeapRuns.Foreign;
    var Got(pmm, i) := Alloc(z, sys.pmm, 0);
    var live := LivePages(z, sys.pmm);
    AllocKeeps(z, sys.pmm, 0);
    HeapRuns.OthersKeep(z, sys, HeapRuns.OtherAlloc(0));
    assert live[i := 0] - (Stacks(mem) + {i}) == live - Stacks(mem);
  }

  lemma MemoryTaken(z: Zone, sys: System, mem: map<nat, Held>, id: nat)
    requires MemOk(z, sys, mem) && id !in mem && TakeMemory(z, sys).Some?
    ensures var (sys', t) := TakeMemory(z, sys).value; MemOk(z, sys', mem[id := t])
  {
    hide SysOk, Alloc, Spared, Kmalloc, UsedHeads, LiveRoom;
    StackTaken(z, sys, mem);
    var Got(pmm, i) := Alloc(z, sys.pmm, 0);
    var r := Kmalloc(z, sys.h, pmm, RECORD);
    var (sys', t) := TakeMemory(z, sys).value;
    KmallocSpares(z, sys.h, pmm, RECORD, Stacks(mem) + {i});
    KmallocOk(z, sys.h, pmm, RECORD);
    assert Stacks(mem[id := t]) == Stacks(mem) + {i} by { StacksAdd(mem, id, t); }
    KmallocPointers(z, sys.h, pmm, RECORD, 0, 36);
    forall x | x in mem
      ensures HeldOk(LivePages(z, r.pmm), r.h, mem[x]) && mem[x].stack != i && mem[x].record != r.p
    {
      KmallocPointers(z, sys.h, pmm, RECORD, mem[x].record, 36);
    }
  }

  lemma StacksAdd(mem: map<nat, Held>, id: nat, t: Held)
    requires id !in mem
    ensures Stacks(mem[id := t]) == Stacks(mem) + {t.stack}
  {
    var mem' := mem[id := t];
    assert id in mem' && mem'[id] == t;
    forall f | f in Stacks(mem) ensures f in Stacks(mem') {
      var x :| x in mem && mem[x].stack == f;
      assert x in mem' && mem'[x].stack == f;
    }
  }

  lemma StacksDrop(mem: map<nat, Held>, x: nat)
    requires x in mem && OneEach(mem)
    ensures Stacks(mem) == Stacks(mem - {x}) + {mem[x].stack} && mem[x].stack !in Stacks(mem - {x})
  {
    forall f | f in Stacks(mem) ensures f in Stacks(mem - {x}) + {mem[x].stack} {
      var y :| y in mem && mem[y].stack == f;
      if y != x { assert y in mem - {x} && (mem - {x})[y].stack == f; }
    }
  }

  /** The stack that is freed is a live page that only this thread holds. */
  lemma StackDropped(z: Zone, sys: System, mem: map<nat, Held>, x: nat)
    requires MemOk(z, sys, mem) && x in mem
    ensures var st := mem[x].stack;
      var pmm := PmmFree(z, sys.pmm, st);
      && SysOk(z, sys.h, pmm) && LivePages(z, pmm) == LivePages(z, sys.pmm) - {st}
      && Spared(LivePages(z, pmm), sys.h, Stacks(mem - {x})) && st !in Stacks(mem - {x})
  {
    hide Inv, UsedHeads, Holdings, PhantomMatches, HeapOk, LiveRoom, HeapRuns.Foreign, PmmFree;
    var st, live := mem[x].stack, LivePages(z, sys.pmm);
    assert HeldOk(live, sys.h, mem[x]);
    StacksDrop(mem, x);
    SparedForeign(live, sys.h, Stacks(mem), st);
    HeapRuns.OthersKeep(z, sys, HeapRuns.OtherFree(st));
    HeapRuns.PmmFreeIs(z, sys.pmm, st);
    assert (live - {st}) - Stacks(mem - {x}) == live - Stacks(mem);
  }

  /** destroy_thread on what a thread holds frees a live page and a live record, which
      are not live afterwards, and leaves what the others hold. */
  lemma MemoryDropped(z: Zone, sys: System, mem: map<nat, Held>, x: nat)
    requires MemOk(z, sys, mem) && x in mem
    ensures HeldOk(LivePages(z, sys.pmm), sys.h, mem[x])
    ensures var sys' := DropMemory(z, sys, mem[x]);
      && MemOk(z, sys', mem - {x})
      && mem[x].stack !in LivePages(z, sys'.pmm) && !HeapRuns.LivePtr(sys'.h, mem[x].record)
  {
    hide SysOk, Spared, Kfree, UsedHeads, PmmFree, HeapRuns.LivePtr;
    StackDropped(z, sys, mem, x);
    var pmm, p := PmmFree(z, sys.pmm, mem[x].stack), mem[x].record;
    var sys', live := DropMemory(z, sys, mem[x]), LivePages(z, pmm);
    RoomIsLive(sys.h, p, 36);
    KfreeSpares(z, sys.h, pmm, p, Stacks(mem - {x}));
    HeapRuns.KfreeOk(z, sys.h, pmm, p);
    FreedIsDead(sys.h, sys'.h, p);
    forall y | y in mem - {x}
      ensures HeldOk(LivePages(z, sys'.pmm), sys'.h, mem[y])
    {
      assert HeldOk(LivePages(z, sys.pmm), sys.h, mem[y]);
      assert (mem - {x})[y].stack in Stacks(mem - {x});
      KfreePointers(z, sys.h, pmm, p, mem[y].record, 36);
    }
  }

  lemma FreedIsDead(h: Heap, h': Heap, p: nat)
    requires HeapRuns.Frees(h, h', p) && Offset(p) != 0
    ensures !HeapRuns.LivePtr(h', p)
  {
  }

  // ------------------------------------------- others use the two allocators

  ghost predicate NotHeld(mem: map<nat, Held>, op: HeapRuns.Op) {
    match op
    case Free(p) => forall x :: x in mem ==> mem[x].record != p
    case OtherFree(i) => i !in Stacks(mem)
    case _ => true
  }

  lemma OthersSpare(z: Zone, sys: System, mem: map<nat, Held>, op: HeapRuns.Op)
    requires MemOk(z, sys, mem) && HeapRuns.Allowed(z, sys, op) && NotHeld(mem, op)
    ensures MemOk(z, HeapRuns.Apply(z, sys, op), mem)
  {
    hide SysOk, Kmalloc, Kfree, Alloc, UsedHeads, PmmFree, LiveRoom, Spared, HeapRuns.Foreign;
    HeapRuns.ApplyKeeps(z, sys, op);
    var live, sys' := LivePages(z, sys.pmm), HeapRuns.Apply(z, sys, op);
    match op
    case Malloc(size) =>
      if Kmalloc(z, sys.h, sys.pmm, size).Ptr? {
        KmallocSpares(z, sys.h, sys.pmm, size, Stacks(mem));
        forall x | x in mem ensures HeldOk(LivePages(z, sys'.pmm), sys'.h, mem[x]) {
          assert HeldOk(live, sys.h, mem[x]);
          KmallocPointers(z, sys.h, sys.pmm, size, mem[x].record, 36);
        }
      }
    case Free(p) =>
      KfreeSpares(z, sys.h, sys.pmm, p, Stacks(mem));
      forall x | x in mem ensures HeldOk(LivePages(z, sys'.pmm), sys'.h, mem[x]) {
        assert HeldOk(live, sys.h, mem[x]) && mem[x].stack in Stacks(mem);
        KfreePointers(z, sys.h, sys.pmm, p, mem[x].record, 36);
      }
    case OtherAlloc(k) =>
      OtherAllocSpares(z, sys, Stacks(mem), k);
      forall x | x in mem ensures HeldOk(LivePages(z, sys'.pmm), sys'.h, mem[x]) {
        assert HeldOk(live, sys.h, mem[x]);
      }
    case OtherFree(i) =>
      OtherFreeSpares(z, sys, Stacks(mem), i);
      forall x | x in mem ensures HeldOk(LivePages(z, sys'.pmm), sys'.h, mem[x]) {
        assert HeldOk(live, sys.h, mem[x]) && mem[x].stack in Stacks(mem);
      }
  }

  lemma OtherAllocSpares(z: Zone, sys: System, others: set<nat>, k: nat)
    requires SysOk(z, sys.h, sys.pmm) && Spared(LivePages(z, sys.pmm), sys.h, others) && Alloc(z, sys.pmm, k).Got?
    ensures var Got(pmm, i) := Alloc(z, sys.pmm, k);
      && i !in LivePages(z, sys.pmm) && LivePages(z, pmm) == LivePages(z, sys.pmm)[i := k]
      && Spared(LivePages(z, pmm), sys.h, others)
  {
    hide Inv, Alloc, UsedHeads, BuddyModel.FreePages, Holdings, PhantomMatches, HeapOk;
    AllocKeeps(z, sys.pmm, k);
    var i, live := Alloc(z, sys.pmm, k).index, LivePages(z, sys.pmm);
    AddOutside(live, others, i, k);
    HoldingsGrow(live - others, sys.h, i, k);
  }

  lemma OtherFreeSpares(z: Zone, sys: System, others: set<nat>, i: nat)
    requires SysOk(z, sys.h, sys.pmm) && Spared(LivePages(z, sys.pmm), sys.h, others)
    requires i in LivePages(z, sys.pmm) && i !in others && HeapRuns.Foreign(sys.h, i)
    ensures var pmm := PmmFree(z, sys.pmm, i);
      LivePages(z, pmm) == LivePages(z, sys.pmm) - {i} && Spared(LivePages(z, pmm), sys.h, others)
  {
    hide Inv, UsedHeads, Holdings, PhantomMatches, HeapOk, HeapRuns.Foreign, PmmFree;
    var live := LivePages(z, sys.pmm);
    HeapRuns.PmmFreeIs(z, sys.pmm, i);
    HeapRuns.ForeignStays(live - others, sys.h, i);
    DropOutside(live, others, i);
  }

  // ------------------------------------------------------------ joint runs

  datatype Joint = Joint(s: S.Sched, sys: System, mem: map<nat, Held>)

  /** A thread made by thread_create; the reaper's pop with destroy_thread; any other
      step of the scheduler; any other use of the two allocators. */
  datatype JointStep = CreateThread(id: nat) | Reap | Sched(e: S.Step) | Memory(op: HeapRuns.Op)

  /** Only threads made by thread_create exit; others free only what is theirs. */
  ghost predicate Allowed(z: Zone, j: Joint, t: JointStep) {
    match t
    case CreateThread(id) => S.Enabled(j.s, S.Spawn(id)) && TakeMemory(z, j.sys).Some?
    case Reap => S.Enabled(j.s, S.ReaperPop)
    case Sched(e) => S.Enabled(j.s, e) && !e.ReaperPop? && (e.Exit? ==> j.s.cur in j.mem)
    case Memory(op) => HeapRuns.Allowed(z, j.sys, op) && NotHeld(j.mem, op)
  }

  ghost function Apply(z: Zone, j: Joint, t: JointStep): Joint
    requires Allowed(z, j, t)
  {
    match t
    case CreateThread(id) =>
      var (sys, held) := TakeMemory(z, j.sys).value;
      Joint(S.Next(j.s, S.Spawn(id)), sys, j.mem[id := held])
    case Reap =>
      var x := j.s.zombie[0];
      Joint(S.Next(j.s, S.ReaperPop), if x in j.mem then DropMemory(z, j.sys, j.mem[x]) else j.sys, j.mem - {x})
    case Sched(e) => j.(s := S.Next(j.s, e))
    case Memory(op) => j.(sys := HeapRuns.Apply(z, j.sys, op))
  }

  ghost predicate Owners(j: Joint) {
    && (forall x :: x in j.mem ==> x in j.s.th && x !in j.s.destroyed)
    && (forall x :: x in j.s.zombie ==> x in j.mem)
  }

  ghost predicate JointOk(z: Zone, j: Joint) {
    S.Inv(j.s) && MemOk(z, j.sys, j.mem) && Owners(j)
  }

  lemma {:induction false} WakeMoves(s: S.Sched)
    ensures S.WakeUp(s).zombie == s.zombie && s.th.Keys <= S.WakeUp(s).th.Keys
    decreases |s.sleep|
  {
    if s.sleep != [] && S.T(s, s.sleep[0]).wakeAt <= s.ticks {
      WakeMoves(S.Ready(s, s.sleep[0]).(sleep := s.sleep[1..]));
    }
  }

  lemma ZombieMoves(s: S.Sched, e: S.Step)
    requires S.Enabled(s, e)
    ensures var s' := S.Next(s, e);
      && s.th.Keys <= s'.th.Keys && (e.Spawn? ==> e.id in s'.th)
      && s'.zombie == if e.Exit? then s.zombie + [s.cur] else if e.ReaperPop? then s.zombie[1..] else s.zombie
  {
    WakeMoves(s.(ticks := s.ticks + S.TICK_RATE));
  }

  lemma OwnersMove(j: Joint, e: S.Step, mem: map<nat, Held>)
    requires S.Inv(j.s) && Owners(j) && S.Enabled(j.s, e) && (e.Exit? ==> j.s.cur in j.mem)
    requires mem == if e.ReaperPop? then j.mem - {j.s.zombie[0]} else j.mem
    ensures Owners(Joint(S.Next(j.s, e), j.sys, mem))
  {
    hide S.Inv, S.Next, S.Enabled;
    ZombieMoves(j.s, e);
    SchedTheorems.DestroyedGrows(j.s, e);
    if e.ReaperPop? { ZombiesApart(j.s); }
  }

  lemma ZombiesApart(s: S.Sched)
    requires S.Inv(s) && S.Enabled(s, S.ReaperPop)
    ensures s.zombie != [] && s.zombie[0] !in s.zombie[1..]
  {
  }

  lemma SpawnOwned(j: Joint, id: nat, held: Held, sys: System)
    requires S.Inv(j.s) && Owners(j) && S.Enabled(j.s, S.Spawn(id))
    ensures id !in j.mem && Owners(Joint(S.Next(j.s, S.Spawn(id)), sys, j.mem[id := held]))
  {
    hide S.Next;
    ZombieMoves(j.s, S.Spawn(id));
    SchedTheorems.DestroyedGrows(j.s, S.Spawn(id));
    assert id !in j.s.destroyed by { UnknownAlive(j.s, id); }
  }

  lemma UnknownAlive(s: S.Sched, id: nat)
    requires S.Inv(s) && id !in s.th
    ensures id !in s.destroyed
  {
  }

  lemma ApplyKeeps(z: Zone, j: Joint, t: JointStep)
    requires JointOk(z, j) && Allowed(z, j, t)
    ensures JointOk(z, Apply(z, j, t))
  {
    hide S.Inv, MemOk, Owners, S.Next, TakeMemory, DropMemory, HeapRuns.Allowed, HeapRuns.Apply, NotHeld;
    match t
    case CreateThread(id) =>
      var (sys, held) := TakeMemory(z, j.sys).value;
      SpawnOwned(j, id, held, sys);
      MemoryTaken(z, j.sys, j.mem, id);
      SchedSteps.StepKeeps(j.s, S.Spawn(id));
    case Reap =>
      ReapReady(z, j);
      MemoryDropped(z, j.sys, j.mem, j.s.zombie[0]);
      OwnersMove(j, S.ReaperPop, j.mem - {j.s.zombie[0]});
      SameOwners(Joint(S.Next(j.s, S.ReaperPop), j.sys, j.mem - {j.s.zombie[0]}), Apply(z, j, t).sys);
      SchedSteps.StepKeeps(j.s, S.ReaperPop);
    case Sched(e) =>
      OwnersMove(j, e, j.mem);
      SchedSteps.StepKeeps(j.s, e);
    case Memory(op) =>
      OthersSpare(z, j.sys, j.mem, op);
      SameOwners(j, HeapRuns.Apply(z, j.sys, op));
  }

  lemma SameOwners(j: Joint, sys: System)
    requires Owners(j)
    ensures Owners(j.(sys := sys))
  {
  }

  lemma ReapReady(z: Zone, j: Joint)
    requires JointOk(z, j) && S.Enabled(j.s, S.ReaperPop)
    ensures j.s.zombie != [] && j.s.zombie[0] in j.mem
  {
    hide S.Inv, MemOk;
    assert j.s.zombie[0] in j.s.zombie;
  }

  ghost predicate Run(z: Zone, steps: seq<JointStep>, states: seq<Joint>) {
    && |states| == |steps| + 1
    && forall i :: 0 <= i < |steps| ==>
         Allowed(z, states[i], steps[i]) && states[i + 1] == Apply(z, states[i], steps[i])
  }

  /** The scheduler has just been set up; mem is what the threads made so far hold. */
  ghost predicate Booted(z: Zone, j: Joint) {
    S.Init(j.s) && MemOk(z, j.sys, j.mem) && j.mem.Keys <= j.s.th.Keys
  }

  /** Before the first thread_create nothing is held, and any state of the heap and
      the page allocator will do. */
  lemma NothingHeld(z: Zone, sys: System)
    requires SysOk(z, sys.h, sys.pmm)
    ensures MemOk(z, sys, map[])
  {
    hide SysOk, Holdings, UsedHeads;
    var live := LivePages(z, sys.pmm);
    assert Stacks(map[]) == {} && live - {} == live;
    assert Holdings(live, sys.h) by { SysHolds(z, sys); }
  }

  lemma BootedOk(z: Zone, j: Joint)
    requires Booted(z, j)
    ensures JointOk(z, j)
  {
    hide MemOk;
    SchedSteps.InitInv(j.s);
  }

  lemma SysHolds(z: Zone, sys: System)
    requires SysOk(z, sys.h, sys.pmm)
    ensures Holdings(LivePages(z, sys.pmm), sys.h)
  {
  }

  /** In every state of every run, scheduler, heap and page allocator are in order,
      and every thread of thread_create's that is not destroyed holds a live page and
      a live record of its own. */
  lemma {:induction false} RunKeeps(z: Zone, steps: seq<JointStep>, states: seq<Joint>, k: nat)
    requires Run(z, steps, states) && Booted(z, states[0]) && k < |states|
    ensures JointOk(z, states[k])
  {
    hide JointOk, Allowed, Apply, Booted;
    if k == 0 {
      BootedOk(z, states[0]);
    } else {
      RunKeeps(z, steps, states, k - 1);
      ApplyKeeps(z, states[k - 1], steps[k - 1]);
    }
  }

  /** Every reap in every run frees one live page of order 0 and one live record: they
      are live before it, not after it, and no thread left holds either. So nothing is
      freed twice. */
  lemma ReapsFreeLive(z: Zone, steps: seq<JointStep>, states: seq<Joint>, k: nat)
    requires Run(z, steps, states) && Booted(z, states[0]) && k < |steps| && steps[k].Reap?
    ensures var j, j' := states[k], states[k + 1];
      && j.s.zombie != [] && j.s.zombie[0] in j.mem
      && var t := j.mem[j.s.zombie[0]];
         && t.stack in LivePages(z, j.sys.pmm) && LivePages(z, j.sys.pmm)[t.stack] == 0
         && HeapRuns.LivePtr(j.sys.h, t.record)
         && t.stack !in LivePages(z, j'.sys.pmm) && !HeapRuns.LivePtr(j'.sys.h, t.record)
         && forall y :: y in j'.mem ==> j'.mem[y].stack != t.stack && j'.mem[y].record != t.record
  {
    hide S.Inv, S.Next, S.Enabled, MemOk, Owners, DropMemory, UsedHeads, Booted;
    RunKeeps(z, steps, states, k);
    var j := states[k];
    assert Allowed(z, j, steps[k]) && states[k + 1] == Apply(z, j, steps[k]);
    ReapReady(z, j);
    MemoryDropped(z, j.sys, j.mem, j.s.zombie[0]);
    assert OneEach(j.mem) by { MemApart(z, j.sys, j.mem); }
  }

  lemma MemApart(z: Zone, sys: System, mem: map<nat, Held>)
    requires MemOk(z, sys, mem)
    ensures OneEach(mem)
  {
    hide SysOk, Spared, HeldOk;
  }
}
