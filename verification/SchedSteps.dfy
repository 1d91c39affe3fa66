/** Every step of the transition system keeps the placement invariant. */
module SchedSteps {
  import opened NodeList
  import opened SchedModel

  lemma InitInv(s: Sched)
    requires Init(s)
    ensures Inv(s)
  {
  }

  lemma PushBack(q: seq<nat>, x: nat)
    requires NoDup(q) && x !in q
    ensures NoDup(q + [x])
    ensures forall y :: y in q + [x] <==> y in q || y == x
  {
  }

  /** Sorting looks at wake times only. */
  lemma SortedSame(s: Sched, s': Sched, q: seq<nat>)
    requires Sorted(s, q) && forall x :: x in q ==> T(s', x).wakeAt == T(s, x).wakeAt
    ensures Sorted(s', q)
  {
    hide T;
  }

  lemma SortedTail(s: Sched, q: seq<nat>)
    requires Sorted(s, q) && q != []
    ensures Sorted(s, q[1..])
  {
    hide T;
  }

  lemma PopFront(q: seq<nat>)
    requires NoDup(q) && q != []
    ensures NoDup(q[1..])
    ensures forall y :: y in q[1..] <==> y in q && y != q[0]
  {
    assert q == [q[0]] + q[1..];
  }

  lemma TickKeeps(s: Sched, ticks: nat)
    requires Core(s)
    ensures Core(s.(ticks := ticks))
  {
  }

  /** Waking the first sleeper. */
  lemma WakeOne(s: Sched)
    requires Core(s) && s.sleep != []
    ensures Core(Ready(s, s.sleep[0]).(sleep := s.sleep[1..]))
  {
    hide NoDup, Sorted;
    var x := s.sleep[0];
    assert x in s.sleep && s.th[x].status.Sleeping?;
    assert x !in s.run;
    PushBack(s.run, x);
    PopFront(s.sleep);
    var s' := Ready(s, x).(sleep := s.sleep[1..]);
    SortedTail(s, s.sleep);
    SortedSame(s, s', s.sleep[1..]);
    forall y | y in s'.th
      ensures ThreadOk(s', y) && PcOk(s', y)
    {
      assert ThreadOk(s, y) && PcOk(s, y);
    }
  }

  lemma {:induction false} WakeKeeps(s: Sched)
    requires Core(s)
    ensures Core(WakeUp(s))
    ensures WakeUp(s).cur == s.cur && WakeUp(s).th.Keys == s.th.Keys
    decreases |s.sleep|
  {
    if s.sleep != [] && T(s, s.sleep[0]).wakeAt <= s.ticks {
      WakeOne(s);
      assert s.sleep[0] in s.th;
      WakeKeeps(Ready(s, s.sleep[0]).(sleep := s.sleep[1..]));
    }
  }

  /** Putting a running thread back on the run queue. */
  lemma RequeueKeeps(s: Sched)
    requires Core(s) && T(s, s.cur).status.Running?
    ensures Core(Ready(s, s.cur))
  {
    var x := s.cur;
    assert x !in s.run && x !in s.sleep && x !in s.zombie;
    PushBack(s.run, x);
    var s' := Ready(s, x);
    forall y | y in s'.th
      ensures ThreadOk(s', y) && PcOk(s', y)
    {
      assert ThreadOk(s, y) && PcOk(s, y);
    }
  }

  /** Dispatching the head of the run queue, once the old thread is put away. */
  lemma DispatchKeeps(s: Sched)
    requires Core(s) && !T(s, s.cur).status.Running? && s.run != []
    ensures Inv(SetStatus(s, s.run[0], Running).(run := s.run[1..], cur := s.run[0]))
  {
    var x := s.run[0];
    assert x in s.run;
    PopFront(s.run);
    var s' := SetStatus(s, x, Running).(run := s.run[1..], cur := x);
    assert ThreadOk(s, x) && PcOk(s, x);
    forall y | y in s'.th
      ensures ThreadOk(s', y) && PcOk(s', y)
    {
      assert ThreadOk(s, y) && PcOk(s, y) && ThreadOk(s, s.cur);
    }
  }

  lemma IdleKeeps(s: Sched)
    requires Core(s) && !T(s, s.cur).status.Running?
    ensures Inv(s.(cur := s.idle))
  {
    var s' := s.(cur := s.idle);
    assert ThreadOk(s, s.idle) && PcOk(s, s.idle);
    forall y | y in s'.th
      ensures ThreadOk(s', y) && PcOk(s', y)
    {
      assert ThreadOk(s, y) && PcOk(s, y);
    }
  }

  lemma SwitchKeeps(s: Sched)
    requires Core(s)
    ensures Inv(Switch(s))
  {
    hide Core, Inv;
    var s1 := if T(s, s.cur).status.Running? then Ready(s, s.cur) else s;
    if T(s, s.cur).status.Running? {
      RequeueKeeps(s);
    }
    if s1.run == [] { IdleKeeps(s1); } else { DispatchKeeps(s1); }
  }

  /** A change of the current thread's pc and wake time only. */
  lemma PcKeeps(s: Sched, w: nat, p: Pc)
    requires Core(s)
    requires p.Dying? ==> T(s, s.cur).status.Zombie?
    requires T(s, s.cur).status.Zombie? ==> p.Dying?
    requires p.Check? || p.Pop? ==> s.cur == s.reaper
    requires s.cur == s.reaper ==> p.Check? || p.MustYield?
    requires s.cur in s.sleep ==> w == T(s, s.cur).wakeAt
    ensures Core(s.(th := s.th[s.cur := T(s, s.cur).(wakeAt := w, pc := p)]))
  {
    var s' := s.(th := s.th[s.cur := T(s, s.cur).(wakeAt := w, pc := p)]);
    forall y | y in s'.th
      ensures ThreadOk(s', y) && PcOk(s', y)
    {
      assert ThreadOk(s, y) && PcOk(s, y);
    }
  }

  /** The caller of scheduler() goes on behind the call when it runs again. */
  lemma YieldPcKeeps(s: Sched)
    requires Inv(s) && Enabled(s, Yield)
    ensures Core(SetPc(s, s.cur, AfterYield(s)))
  {
    assert ThreadOk(s, s.cur) && PcOk(s, s.cur);
    PcKeeps(s, T(s, s.cur).wakeAt, AfterYield(s));
  }

  lemma YieldKeeps(s: Sched)
    requires Inv(s) && Enabled(s, Yield)
    ensures Inv(Next(s, Yield))
  {
    hide Inv, Core, Switch;
    YieldPcKeeps(s);
    SwitchKeeps(SetPc(s, s.cur, AfterYield(s)));
  }

  lemma ArmKeeps(s: Sched, time: nat)
    requires Inv(s) && Enabled(s, Arm(time))
    ensures Inv(Next(s, Arm(time)))
  {
    assert ThreadOk(s, s.cur) && PcOk(s, s.cur);
    PcKeeps(s, s.ticks + time * PIT_CRYSTAL, Armed);
  }

  lemma SpawnKeeps(s: Sched, id: nat)
    requires Inv(s) && Enabled(s, Spawn(id))
    ensures Inv(Next(s, Spawn(id)))
  {
    PushBack(s.run, id);
    var s' := Next(s, Spawn(id));
    forall y | y in s'.th
      ensures ThreadOk(s', y) && PcOk(s', y)
    {
      if y != id { assert ThreadOk(s, y) && PcOk(s, y); }
    }
  }

  // ------------------------------------------------------------ sleep queue

  lemma {:induction false} InsertAtFacts(s: Sched, q: seq<nat>, w: nat)
    requires Sorted(s, q)
    ensures var p := InsertAt(s, q, w);
      && (forall i :: 0 <= i < p ==> T(s, q[i]).wakeAt <= w)
      && (forall i :: p <= i < |q| ==> T(s, q[i]).wakeAt > w)
  {
    if q != [] {
      InsertAtFacts(s, q[1..], w);
    }
  }

  lemma InsertedFacts(q: seq<nat>, p: nat, x: nat)
    requires NoDup(q) && x !in q && p <= |q|
    ensures NoDup(Inserted(q, p, x))
    ensures forall y :: y in Inserted(q, p, x) <==> y in q || y == x
  {
    InsertedAt(q, p, x);
  }

  lemma StaysSorted(s: Sched, q: seq<nat>, r: seq<nat>, p: nat, x: nat)
    requires Sorted(s, q) && p <= |q| && |r| == |q| + 1
    requires r[..p] == q[..p] && r[p] == x && r[p + 1..] == q[p..]
    requires forall i :: 0 <= i < p ==> T(s, q[i]).wakeAt <= T(s, x).wakeAt
    requires forall i :: p <= i < |q| ==> T(s, q[i]).wakeAt > T(s, x).wakeAt
    ensures Sorted(s, r)
  {
    hide T;
    forall i, j | 0 <= i < j < |r|
      ensures T(s, r[i]).wakeAt <= T(s, r[j]).wakeAt
    {
      if i < p { assert r[i] == r[..p][i] == q[i]; }
      if i > p { assert r[i] == r[p + 1..][i - p - 1] == q[i - 1]; }
      if j < p { assert r[j] == r[..p][j] == q[j]; }
      if j > p { assert r[j] == r[p + 1..][j - p - 1] == q[j - 1]; }
    }
  }

  lemma InsertSorted(s: Sched, x: nat)
    requires Sorted(s, s.sleep)
    ensures Sorted(s, Inserted(s.sleep, InsertAt(s, s.sleep, T(s, x).wakeAt), x))
  {
    var q, p := s.sleep, InsertAt(s, s.sleep, T(s, x).wakeAt);
    InsertAtFacts(s, q, T(s, x).wakeAt);
    var r := Inserted(q, p, x);
    StaysSorted(s, q, r, p, x);
  }

  lemma EnqueueKeeps(s: Sched)
    requires Inv(s) && Enabled(s, Enqueue)
    ensures Inv(Next(s, Enqueue))
  {
    hide NoDup, Sorted, InsertAt, Inserted;
    var x := s.cur;
    assert ThreadOk(s, x) && PcOk(s, x);
    assert x !in s.sleep && x !in s.run && x !in s.zombie;
    InsertedFacts(s.sleep, InsertAt(s, s.sleep, T(s, x).wakeAt), x);
    InsertSorted(s, x);
    var s' := Next(s, Enqueue);
    SortedSame(s, s', s'.sleep);
    forall y | y in s'.th
      ensures ThreadOk(s', y) && PcOk(s', y)
    {
      assert ThreadOk(s, y) && PcOk(s, y);
    }
  }

  // ------------------------------------------------------------ the reaper

  lemma ExitQueued(s: Sched)
    requires Inv(s) && Enabled(s, Exit)
    ensures Queued(Next(s, Exit))
  {
    hide NoDup, Sorted, Dead;
    var x := s.cur;
    assert ThreadOk(s, x) && PcOk(s, x) && ThreadOk(s, s.reaper) && PcOk(s, s.reaper);
    assert x !in s.sleep && x !in s.run && x !in s.zombie;
    PushBack(s.zombie, x);
    if !T(s, s.reaper).status.Runnable? { PushBack(s.run, s.reaper); }
  }

  lemma ExitThread(s: Sched, y: nat)
    requires Inv(s) && Enabled(s, Exit) && y in s.th
    ensures ThreadOk(Next(s, Exit), y) && PcOk(Next(s, Exit), y)
  {
    hide NoDup, Sorted, Dead, Queued;
    assert ThreadOk(s, y) && PcOk(s, y) && ThreadOk(s, s.cur) && PcOk(s, s.cur) && PcOk(s, s.reaper);
  }

  lemma ExitKeeps(s: Sched)
    requires Inv(s) && Enabled(s, Exit)
    ensures Inv(Next(s, Exit))
  {
    hide NoDup, Sorted, Queued, ThreadOk, PcOk;
    var s' := Next(s, Exit);
    ExitQueued(s);
    forall y | y in s'.th
      ensures ThreadOk(s', y) && PcOk(s', y)
    {
      ExitThread(s, y);
    }
    SortedSame(s, s', s.sleep);
  }

  lemma ReaperTestKeeps(s: Sched)
    requires Inv(s) && Enabled(s, ReaperTest)
    ensures Inv(Next(s, ReaperTest))
  {
    assert ThreadOk(s, s.reaper) && PcOk(s, s.reaper);
    var s' := Next(s, ReaperTest);
    forall y | y in s'.th
      ensures ThreadOk(s', y) && PcOk(s', y)
    {
      assert ThreadOk(s, y) && PcOk(s, y);
    }
  }

  lemma ReaperPopKeeps(s: Sched)
    requires Inv(s) && Enabled(s, ReaperPop)
    ensures Inv(Next(s, ReaperPop))
  {
    assert s.zombie[0] in s.zombie;
    PopFront(s.zombie);
    assert ThreadOk(s, s.reaper) && PcOk(s, s.reaper);
    var s' := Next(s, ReaperPop);
    forall y | y in s'.th
      ensures ThreadOk(s', y) && PcOk(s', y)
    {
      assert ThreadOk(s, y) && PcOk(s, y);
    }
  }

  lemma TimerKeeps(s: Sched)
    requires Inv(s)
    ensures Inv(Next(s, Timer))
  {
    hide Core, CurOk, Switch;
    var s1 := s.(ticks := s.ticks + TICK_RATE);
    TickKeeps(s, s.ticks + TICK_RATE);
    WakeKeeps(s1);
    SwitchKeeps(WakeUp(s1));
  }

  /** Every step keeps the invariant. */
  lemma StepKeeps(s: Sched, e: Step)
    requires Inv(s) && Enabled(s, e)
    ensures Inv(Next(s, e))
  {
    hide Inv, Enabled, Next;
    match e
    case Timer => TimerKeeps(s);
    case Yield => YieldKeeps(s);
    case Spawn(id) => SpawnKeeps(s, id);
    case Arm(time) => ArmKeeps(s, time);
    case Enqueue => EnqueueKeeps(s);
    case Exit => ExitKeeps(s);
    case ReaperTest => ReaperTestKeeps(s);
    case ReaperPop => ReaperPopKeeps(s);
  }
}
