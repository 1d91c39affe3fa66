/** The scheduler and the reaper as the kernel runs them: fields updated in place
    over linked queues, each atomic block proved to be one step of the model. */
module Scheduler {
  import opened NodeList
  import opened SchedModel
  import opened SchedSteps
  import opened ThreadQueues

  const RUN: nat := 0
  const SLEEP: nat := 1
  const ZOMBIE: nat := 2

  class Kernel {
    var th: map<nat, Thread>
    var cur: nat
    const idle: nat
    const reaper: nat
    var ticks: nat
    const q: Queues
    /** The threads handed to destroy_thread so far. */
    ghost var destroyed: set<nat>

    ghost predicate Shape()
      reads this, q
    {
      q.Valid() && |q.lists| == 3
    }

    ghost function State(): Sched
      requires Shape()
      reads this, q
    {
      Sched(q.lists[RUN], q.lists[SLEEP], q.lists[ZOMBIE], th, cur, idle, reaper, ticks, destroyed)
    }

    ghost predicate Valid()
      reads this, q
    {
      Shape() && Inv(State())
    }

    /** init_sched and init_reaper: the idle thread runs, the reaper is queued. */
    constructor (idleId: nat, reaperId: nat)
      requires idleId != reaperId
      ensures Valid() && Init(State()) && fresh(q)
    {
      idle, reaper, cur, ticks := idleId, reaperId, idleId, 0;
      th := map[idleId := Thread(Idle, 0, Normal), reaperId := Thread(Runnable, 0, Check)];
      q := new Queues(3);
      destroyed := {};
      new;
      q.ListPushBack(RUN, reaperId);
      InitInv(State());
    }

    /** The body of thread_ready and _thread_ready. */
    method ThreadReady(x: nat)
      requires Shape() && x in th && q.Loose(x)
      modifies this`th, q
      ensures Shape() && State() == Ready(old(State()), x)
    {
      hide Wf, Ends;
      th := th[x := th[x].(status := Runnable)];
      q.ListPushBack(RUN, x);
    }

    method WakeUpThreads()
      requires Shape() && Core(State())
      modifies this`th, q
      ensures Shape() && Core(State()) && State() == WakeUp(old(State()))
    {
      hide Wf, Ends, Core;
      ghost var s0 := State();
      var head := q.Front(SLEEP);
      CoreKnows(State());
      while head != NULL && th[head].wakeAt <= ticks
        modifies this`th, q
        invariant Shape() && Core(State()) && WakeUp(State()) == WakeUp(s0)
        invariant head == HeadOf(State().sleep)
        invariant head != NULL ==> head in th
        decreases |State().sleep|
      {
        ghost var s := State();
        WakeOne(s);
        WokenIsLoose(s);
        var x := q.ListPopFront(SLEEP);
        ThreadReady(x.value);
        assert State() == Ready(s, s.sleep[0]).(sleep := s.sleep[1..]);
        head := q.Front(SLEEP);
        CoreKnows(State());
      }
    }

    /** scheduler(), with the context switch as the change of the current thread. */
    method Schedule()
      requires Shape() && Core(State())
      modifies this`th, this`cur, q
      ensures Valid() && State() == Switch(old(State()))
    {
      hide Wf, Ends, Core, Inv;
      ghost var s := State();
      SwitchKeeps(s);
      CoreKnows(s);
      if th[cur].status == Running {
        RunningIsLoose(s);
        RequeueKeeps(s);
        ThreadReady(cur);
      }
      ghost var s1 := State();
      CoreKnows(s1);
      var head := q.Front(RUN);
      if head != NULL {
        var x := q.ListPopFront(RUN);
        cur := x.value;
        th := th[cur := th[cur].(status := Running)];
      } else {
        cur := idle;
      }
    }

    /** timer(): the interrupt handler, run with interrupts off. */
    method TimerInterrupt()
      requires Valid()
      modifies this, q
      ensures Valid() && State() == Next(old(State()), Timer)
    {
      hide Wf, Ends, Core, CurOk, Switch, WakeUp;
      ghost var s := State();
      TickKeeps(s, s.ticks + TICK_RATE);
      ticks := ticks + TICK_RATE;
      WakeUpThreads();
      Schedule();
    }

    /** A thread's own call of scheduler(). */
    method YieldCall()
      requires Valid() && Enabled(State(), Yield)
      modifies this, q
      ensures Valid() && State() == Next(old(State()), Yield)
    {
      hide Wf, Ends, Switch;
      ghost var s := State();
      assert ThreadOk(s, s.cur) && PcOk(s, s.cur);
      PcKeeps(s, T(s, s.cur).wakeAt, AfterYield(s));
      var p := if cur == reaper then Check else if th[cur].pc.Dying? then Dying else Normal;
      th := th[cur := th[cur].(pc := p)];
      assert State() == SetPc(s, s.cur, AfterYield(s));
      Schedule();
    }

    /** thread_create, up to the new thread being queued. */
    method ThreadCreate(id: nat)
      requires Valid() && Enabled(State(), Spawn(id))
      modifies this, q
      ensures Valid() && State() == Next(old(State()), Spawn(id))
    {
      hide Wf, Ends, Inv;
      ghost var s := State();
      StepKeeps(s, Spawn(id));
      UnknownIsLoose(s, id);
      th := th[id := Thread(Runnable, 0, Normal)];
      ThreadReady(id);
    }

    /** thread_sleep before its atomic block: the wake time is stored. */
    method SleepArm(time: nat)
      requires Valid() && Enabled(State(), Arm(time))
      modifies this
      ensures Valid() && State() == Next(old(State()), Arm(time))
    {
      hide Wf, Ends, Core, CurOk;
      StepKeeps(State(), Arm(time));
      CoreKnows(State());
      var wakeAt := ticks + time * PIT_CRYSTAL;
      th := th[cur := th[cur].(wakeAt := wakeAt, pc := Armed)];
    }

    /** The atomic block of thread_sleep. */
    method SleepEnqueue()
      requires Valid() && Enabled(State(), Enqueue)
      modifies this, q
      ensures Valid() && State() == Next(old(State()), Enqueue)
    {
      hide Wf, Ends, Core, CurOk, InsertAt, Inserted;
      ghost var s := State();
      StepKeeps(s, Enqueue);
      CoreKnows(s);
      ArmedIsLoose(s);
      q.ListSortedPush(SLEEP, cur, th, s);
      th := th[cur := th[cur].(status := Sleeping, pc := MustYield)];
    }

    /** reaper_add for the current thread. */
    method ReaperAdd()
      requires Valid() && Enabled(State(), Exit)
      modifies this, q
      ensures Valid() && State() == Next(old(State()), Exit)
    {
      hide Wf, Ends, Core, CurOk;
      ghost var s := State();
      StepKeeps(s, Exit);
      CoreKnows(s);
      ExitingIsLoose(s);
      th := th[cur := th[cur].(status := Zombie, pc := Dying)];
      q.ListPushBack(ZOMBIE, cur);
      if th[reaper].status != Runnable {
        ThreadReady(reaper);
      }
    }

    /** The reaper's test of the zombie queue, inside its atomic block. */
    method ReaperCheck()
      requires Valid() && Enabled(State(), ReaperTest)
      modifies this
      ensures Valid() && State() == Next(old(State()), ReaperTest)
    {
      hide Wf, Ends, Core, CurOk;
      ghost var s := State();
      StepKeeps(s, ReaperTest);
      CoreKnows(s);
      var head := q.Front(ZOMBIE);
      if head != NULL {
        th := th[reaper := th[reaper].(pc := Pop)];
      } else {
        th := th[reaper := th[reaper].(status := Sleeping, pc := MustYield)];
      }
    }

    /** The reaper's pop and destroy_thread. The pop never underflows. */
    method ReaperDestroy() returns (x: nat)
      requires Valid() && cur == reaper && T(State(), reaper).pc.Pop?
      modifies this, q
      ensures Enabled(old(State()), SchedModel.ReaperPop)
      ensures x == old(State()).zombie[0] && x !in old(destroyed) && x != cur
      ensures Valid() && State() == Next(old(State()), SchedModel.ReaperPop)
    {
      hide Wf, Ends, Core, CurOk;
      ghost var s := State();
      CoreKnows(s);
      PopReady(s);
      StepKeeps(s, SchedModel.ReaperPop);
      var z := q.ListPopFront(ZOMBIE);
      x := z.value;
      th := th[reaper := th[reaper].(pc := Check)];
      destroyed := destroyed + {x};
    }
  }

  // ------------------------------------------------ threads known and loose

  lemma CoreKnows(s: Sched)
    requires Core(s)
    ensures s.cur in s.th && s.idle in s.th && s.reaper in s.th
    ensures forall x :: x in s.run || x in s.sleep || x in s.zombie ==> x in s.th
    ensures s.sleep != [] ==> s.sleep[0] in s.th
    ensures s.idle !in s.run
    ensures s.run != [] ==> s.run[0] != s.idle && s.run[0] in s.th
  {
    assert PcOk(s, s.idle);
    assert s.sleep != [] ==> s.sleep[0] in s.sleep;
    assert s.run != [] ==> s.run[0] in s.run;
  }

  ghost predicate On(s: Sched, x: nat) {
    x in s.run || x in s.sleep || x in s.zombie
  }

  lemma WokenIsLoose(s: Sched)
    requires Core(s) && s.sleep != []
    ensures var x := s.sleep[0]; x !in s.run && x !in s.sleep[1..] && x !in s.zombie
  {
    assert s.sleep[0] in s.sleep;
  }

  lemma RunningIsLoose(s: Sched)
    requires Core(s) && T(s, s.cur).status.Running?
    ensures !On(s, s.cur)
  {
  }

  lemma UnknownIsLoose(s: Sched, id: nat)
    requires Inv(s) && id !in s.th
    ensures !On(s, id)
  {
  }

  lemma ArmedIsLoose(s: Sched)
    requires Inv(s) && Enabled(s, Enqueue)
    ensures !On(s, s.cur)
  {
    assert ThreadOk(s, s.cur) && PcOk(s, s.cur);
  }

  lemma ExitingIsLoose(s: Sched)
    requires Inv(s) && Enabled(s, Exit)
    ensures !On(s, s.cur) && s.cur != s.reaper
    ensures !T(s, s.reaper).status.Runnable? ==> !On(s, s.reaper)
  {
    assert ThreadOk(s, s.cur) && PcOk(s, s.cur) && ThreadOk(s, s.reaper);
  }

  lemma PopReady(s: Sched)
    requires Inv(s) && s.cur == s.reaper && T(s, s.reaper).pc.Pop?
    ensures s.zombie != [] && s.zombie[0] !in s.destroyed && s.zombie[0] != s.reaper
  {
    assert s.zombie[0] in s.zombie;
  }
}
