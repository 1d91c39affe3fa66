/** What holds of the scheduler over every run. */
module SchedTheorems {
  import opened NodeList
  import opened SchedModel
  import opened SchedSteps

  predicate Runs(s: Sched, es: seq<Step>)
    decreases es
  {
    es == [] || (Enabled(s, es[0]) && Runs(Next(s, es[0]), es[1..]))
  }

  function After(s: Sched, es: seq<Step>): Sched
    requires Runs(s, es)
    decreases es
  {
    if es == [] then s else After(Next(s, es[0]), es[1..])
  }

  /** Placement holds in every reachable state. */
  lemma {:induction false} RunKeeps(s: Sched, es: seq<Step>)
    requires Inv(s) && Runs(s, es)
    ensures Inv(After(s, es))
    decreases es
  {
    hide Inv, Enabled, Next;
    if es != [] {
      StepKeeps(s, es[0]);
      RunKeeps(Next(s, es[0]), es[1..]);
    }
  }

  lemma ReachableInv(s: Sched, es: seq<Step>)
    requires Init(s) && Runs(s, es)
    ensures Inv(After(s, es))
  {
    InitInv(s);
    RunKeeps(s, es);
  }

  /** Where threads are: the queues are disjoint and without duplicates, status
      agrees with the queue, idle is in none, and the current thread is queued only
      in the windows before its last call of scheduler(). */
  ghost predicate Placed(s: Sched) {
    && Disjoint(s.run, s.sleep) && Disjoint(s.run, s.zombie) && Disjoint(s.sleep, s.zombie)
    && NoDup(s.run) && NoDup(s.sleep) && NoDup(s.zombie)
    && s.idle !in s.run && s.idle !in s.sleep && s.idle !in s.zombie
    && s.reaper !in s.sleep && s.reaper !in s.zombie && s.cur in s.th
    && (forall x :: x in s.th ==>
          && (s.th[x].status.Runnable? <==> x in s.run)
          && (s.th[x].status.Sleeping? && x != s.reaper <==> x in s.sleep)
          && (s.th[x].status.Running? ==> x == s.cur))
    && (s.cur != s.idle ==> s.cur !in s.run)
    && (s.cur in s.sleep ==> s.th[s.cur].pc.MustYield?)
    && (s.cur in s.zombie ==> s.th[s.cur].pc.Dying?)
  }

  /** In every reachable state all threads are in their place. */
  lemma Placement(s0: Sched, es: seq<Step>)
    requires Init(s0) && Runs(s0, es)
    ensures Placed(After(s0, es))
  {
    hide Init, Inv, Placed;
    ReachableInv(s0, es);
    InvPlaces(After(s0, es));
  }

  lemma InvPlaces(s: Sched)
    requires Inv(s)
    ensures Placed(s)
  {
    forall x | x in s.th
      ensures (s.th[x].status.Runnable? <==> x in s.run)
        && (s.th[x].status.Sleeping? && x != s.reaper <==> x in s.sleep)
        && (s.th[x].status.Running? ==> x == s.cur)
    {
      assert ThreadOk(s, x) && PcOk(s, x);
    }
    assert ThreadOk(s, s.idle) && PcOk(s, s.idle) && ThreadOk(s, s.cur);
  }

  /** In every reachable state, while a zombie waits the reaper is running or is
      queued to run, and never both. */
  lemma NoLostWakeUp(s0: Sched, es: seq<Step>)
    requires Init(s0) && Runs(s0, es) && After(s0, es).zombie != []
    ensures var s := After(s0, es);
      (s.cur == s.reaper && s.reaper !in s.run) || (s.cur != s.reaper && s.reaper in s.run)
  {
    hide Init, Inv;
    ReachableInv(s0, es);
    ReaperAwake(After(s0, es));
  }

  lemma ReaperAwake(s: Sched)
    requires Inv(s) && s.zombie != []
    ensures (s.cur == s.reaper && s.reaper !in s.run) || (s.cur != s.reaper && s.reaper in s.run)
  {
    assert ThreadOk(s, s.reaper) && PcOk(s, s.reaper);
  }

  // --------------------------------------------------------- reaping safety

  /** A destroyed thread is nowhere: not current and on no queue. */
  lemma DestroyedIsGone(s: Sched, x: nat)
    requires Inv(s) && x in s.destroyed
    ensures x != s.cur && x !in s.run && x !in s.sleep && x !in s.zombie && x != s.reaper && x != s.idle
  {
    assert x in s.th && PcOk(s, x);
  }

  /** In every reachable state in which the reaper is about to pop, the queue is not
      empty, and what it destroys is not current, not runnable, not asleep, and has
      not been destroyed before. */
  lemma PopIsSafe(s0: Sched, es: seq<Step>)
    requires Init(s0) && Runs(s0, es)
    requires var s := After(s0, es); s.cur == s.reaper && T(s, s.reaper).pc.Pop?
    ensures var s := After(s0, es);
      && Enabled(s, ReaperPop)
      && var x := s.zombie[0];
         x !in s.destroyed && x != s.cur && x !in s.run && x !in s.sleep && x in Next(s, ReaperPop).destroyed
  {
    hide Init, Inv, Runs;
    ReachableInv(s0, es);
    PopEnabled(After(s0, es));
    ZombieIsSafe(After(s0, es));
  }

  lemma PopEnabled(s: Sched)
    requires Inv(s) && s.cur == s.reaper && T(s, s.reaper).pc.Pop?
    ensures Enabled(s, ReaperPop)
  {
  }

  lemma ZombieIsSafe(s: Sched)
    requires Inv(s) && Enabled(s, ReaperPop)
    ensures var x := s.zombie[0];
      x !in s.destroyed && x != s.cur && x !in s.run && x !in s.sleep && x in Next(s, ReaperPop).destroyed
  {
    assert s.zombie[0] in s.zombie;
  }

  lemma {:induction false} WakeFrame(s: Sched)
    ensures WakeUp(s).destroyed == s.destroyed
    decreases |s.sleep|
  {
    if s.sleep != [] && T(s, s.sleep[0]).wakeAt <= s.ticks {
      WakeFrame(Ready(s, s.sleep[0]).(sleep := s.sleep[1..]));
    }
  }

  lemma DestroyedGrows(s: Sched, e: Step)
    requires Enabled(s, e)
    ensures Next(s, e).destroyed == s.destroyed + (if e.ReaperPop? then {s.zombie[0]} else {})
  {
    WakeFrame(s.(ticks := s.ticks + TICK_RATE));
  }

  lemma {:induction false} DestroyedStays(s: Sched, es: seq<Step>)
    requires Runs(s, es)
    ensures s.destroyed <= After(s, es).destroyed
    decreases es
  {
    hide Enabled, Next;
    if es != [] {
      DestroyedGrows(s, es[0]);
      DestroyedStays(Next(s, es[0]), es[1..]);
    }
  }

  /** How often thread x is handed to destroy_thread along a run. */
  function Destructions(s: Sched, es: seq<Step>, x: nat): nat
    requires Runs(s, es)
    decreases es
  {
    if es == [] then 0
    else (if es[0].ReaperPop? && s.zombie[0] == x then 1 else 0) + Destructions(Next(s, es[0]), es[1..], x)
  }

  /** Each thread is destroyed at most once, and never after it was destroyed. */
  lemma {:induction false} DestroyedOnce(s: Sched, es: seq<Step>, x: nat)
    requires Inv(s) && Runs(s, es)
    ensures Destructions(s, es, x) <= if x in s.destroyed then 0 else 1
    decreases es
  {
    hide Inv, Next;
    if es != [] {
      StepKeeps(s, es[0]);
      DestroyedGrows(s, es[0]);
      if es[0].ReaperPop? { ZombieIsSafe(s); }
      DestroyedOnce(Next(s, es[0]), es[1..], x);
    }
  }

  /** Once destroyed, a thread is never dispatched or queued again. */
  lemma NeverBack(s: Sched, es: seq<Step>, x: nat)
    requires Inv(s) && Runs(s, es) && x in s.destroyed
    ensures var s' := After(s, es); x != s'.cur && x !in s'.run && x !in s'.sleep && x !in s'.zombie
  {
    hide Inv;
    RunKeeps(s, es);
    DestroyedStays(s, es);
    DestroyedIsGone(After(s, es), x);
  }

  // -------------------------------------------------------- bounded waiting

  predicate Switching(e: Step) { e.Timer? || e.Yield? }

  /** The number of scheduler() calls in a run. */
  function Switches(es: seq<Step>): nat {
    if es == [] then 0 else (if Switching(es[0]) then 1 else 0) + Switches(es[1..])
  }

  lemma {:induction false} WakeAppends(s: Sched)
    ensures s.run <= WakeUp(s).run
    ensures WakeUp(s).cur == s.cur && WakeUp(s).idle == s.idle
    decreases |s.sleep|
  {
    if s.sleep != [] && T(s, s.sleep[0]).wakeAt <= s.ticks {
      WakeAppends(Ready(s, s.sleep[0]).(sleep := s.sleep[1..]));
    }
  }

  lemma SwitchTakesHead(s: Sched)
    requires s.run != []
    ensures Switch(s).cur == s.run[0] && s.run[1..] <= Switch(s).run
  {
    assert (s.run + [s.cur])[1..] == s.run[1..] + [s.cur];
  }

  /** scheduler() takes the head of the run queue; every other step, and every
      wake-up, only adds at the back. */
  lemma QueueMoves(s: Sched, e: Step)
    requires Enabled(s, e)
    ensures !Switching(e) ==> s.run <= Next(s, e).run
    ensures Switching(e) && s.run != [] ==> Next(s, e).cur == s.run[0] && s.run[1..] <= Next(s, e).run
  {
    hide Switch, WakeUp;
    if s.run != [] {
      if e.Timer? {
        var s1 := WakeUp(s.(ticks := s.ticks + TICK_RATE));
        WakeAppends(s.(ticks := s.ticks + TICK_RATE));
        SwitchTakesHead(s1);
      } else if e.Yield? {
        SwitchTakesHead(SetPc(s, s.cur, AfterYield(s)));
      }
    }
  }

  /** A thread moves up by exactly one place at every call of scheduler(). */
  lemma {:induction false} MovesUp(s: Sched, es: seq<Step>, p: nat)
    requires Runs(s, es) && p < |s.run| && Switches(es) <= p
    ensures var k := Switches(es); p - k < |After(s, es).run| && After(s, es).run[p - k] == s.run[p]
    decreases es
  {
    hide Enabled, Next;
    if es != [] {
      QueueMoves(s, es[0]);
      var s1 := Next(s, es[0]);
      if Switching(es[0]) {
        assert s1.run[p - 1] == s.run[1..][p - 1];
        MovesUp(s1, es[1..], p - 1);
      } else {
        MovesUp(s1, es[1..], p);
      }
    }
  }

  /** The thread at place p of the run queue becomes current at the (p+1)-st call
      of scheduler(), whatever else happens in between. */
  lemma {:induction false} BoundedWaiting(s: Sched, es: seq<Step>, p: nat)
    requires Runs(s, es) && p < |s.run|
    requires es != [] && Switching(es[|es| - 1]) && Switches(es) == p + 1
    ensures After(s, es).cur == s.run[p]
    decreases es
  {
    hide Enabled, Next;
    QueueMoves(s, es[0]);
    var s1 := Next(s, es[0]);
    if |es| == 1 {
      assert es[1..] == [];
    } else {
      assert es[1..][|es| - 2] == es[|es| - 1];
      if Switching(es[0]) {
        LastCounts(es[1..]);
        assert s1.run[p - 1] == s.run[1..][p - 1];
        BoundedWaiting(s1, es[1..], p - 1);
      } else {
        BoundedWaiting(s1, es[1..], p);
      }
    }
  }

  lemma {:induction false} LastCounts(es: seq<Step>)
    requires es != [] && Switching(es[|es| - 1])
    ensures Switches(es) >= 1
  {
    if |es| > 1 {
      assert es[1..][|es| - 2] == es[|es| - 1];
      LastCounts(es[1..]);
    }
  }

  /** scheduler() picks the idle thread exactly when nothing else could run. */
  lemma IdleIffNothingRuns(s: Sched)
    requires Core(s)
    ensures Switch(s).cur == s.idle <==> s.run == [] && !T(s, s.cur).status.Running?
  {
    assert ThreadOk(s, s.cur) && PcOk(s, s.cur) && PcOk(s, s.idle);
    if s.run != [] {
      assert s.run[0] in s.run;
      assert s.idle !in s.run;
    }
  }

  // ---------------------------------------------------------- sleep exactness

  /** Looking only at the head wakes exactly the sleepers that are due, in queue
      order, at the back of the run queue. */
  lemma {:induction false} WakesExactly(s: Sched)
    requires Sorted(s, s.sleep) && NoDup(s.sleep)
    ensures var d, s' := InsertAt(s, s.sleep, s.ticks), WakeUp(s);
      && s'.run == s.run + s.sleep[..d] && s'.sleep == s.sleep[d..]
      && s'.ticks == s.ticks
      && (forall i :: 0 <= i < |s.sleep| ==> (T(s, s.sleep[i]).wakeAt <= s.ticks <==> i < d))
      && (forall x :: T(s', x).wakeAt == T(s, x).wakeAt)
    decreases |s.sleep|
  {
    hide Sorted, NoDup, T;
    InsertAtFacts(s, s.sleep, s.ticks);
    if s.sleep != [] && T(s, s.sleep[0]).wakeAt <= s.ticks {
      var s1 := Ready(s, s.sleep[0]).(sleep := s.sleep[1..]);
      WakeFirst(s);
      WakesExactly(s1);
      InsertAtSame(s, s1, s.sleep[1..], s.ticks);
      var d := InsertAt(s, s.sleep, s.ticks);
      assert s.sleep[..d] == [s.sleep[0]] + s.sleep[1..][..d - 1];
    }
  }

  lemma WakeFirst(s: Sched)
    requires Sorted(s, s.sleep) && NoDup(s.sleep) && s.sleep != []
    ensures var s1 := Ready(s, s.sleep[0]).(sleep := s.sleep[1..]);
      && (forall x :: T(s1, x).wakeAt == T(s, x).wakeAt)
      && Sorted(s1, s1.sleep) && NoDup(s1.sleep)
  {
  }

  lemma {:induction false} InsertAtSame(s: Sched, s1: Sched, q: seq<nat>, w: nat)
    requires forall x :: T(s1, x).wakeAt == T(s, x).wakeAt
    ensures InsertAt(s1, q, w) == InsertAt(s, q, w)
  {
    if q != [] {
      InsertAtSame(s, s1, q[1..], w);
    }
  }

  lemma HeadOrTail(q: seq<nat>)
    requires q != []
    ensures forall x :: x in q ==> x == q[0] || x in q[1..]
  {
    assert q == [q[0]] + q[1..];
  }

  lemma SwitchSleep(s: Sched)
    ensures Switch(s).sleep == s.sleep
    ensures forall x :: T(Switch(s), x).wakeAt == T(s, x).wakeAt || x !in s.th
    ensures forall x :: x in s.run ==> x in Switch(s).run || x == Switch(s).cur
  {
    var s1 := if T(s, s.cur).status.Running? then Ready(s, s.cur) else s;
    assert s1.run == s.run || s1.run == s.run + [s.cur];
    assert forall x :: x in s.run ==> x in s1.run;
    if s1.run != [] { HeadOrTail(s1.run); }
  }

  /** One step, seen by a sleeper: it stays asleep unless this is a timer
      interrupt that reaches its wake time, and then it wakes. */
  lemma SleeperStep(s: Sched, e: Step, x: nat)
    requires Inv(s) && Enabled(s, e) && x in s.sleep
    ensures var s' := Next(s, e);
      && s'.ticks == s.ticks + (if e.Timer? then TICK_RATE else 0)
      && if e.Timer? && T(s, x).wakeAt <= s'.ticks
         then x !in s'.sleep && (x in s'.run || s'.cur == x)
         else x in s'.sleep && T(s', x).wakeAt == T(s, x).wakeAt
  {
    if e.Timer? {
      SleeperTimer(s, x);
    } else if e.Yield? {
      SwitchSleep(SetPc(s, s.cur, AfterYield(s)));
    } else if e.Enqueue? {
      assert ThreadOk(s, s.cur) && s.cur !in s.sleep;
      InsertedFacts(s.sleep, InsertAt(s, s.sleep, T(s, s.cur).wakeAt), s.cur);
    } else {
      assert x in s.th && s.th[x].status.Sleeping? && x != s.reaper;
    }
  }

  lemma SwitchTicks(s: Sched)
    ensures Switch(s).ticks == s.ticks
  {
  }

  lemma SleeperWake(s: Sched, x: nat)
    requires Sorted(s, s.sleep) && NoDup(s.sleep) && x in s.sleep
    ensures var s' := WakeUp(s);
      && s'.ticks == s.ticks && T(s', x).wakeAt == T(s, x).wakeAt
      && if T(s, x).wakeAt <= s.ticks then x !in s'.sleep && x in s'.run else x in s'.sleep
  {
    hide WakeUp, InsertAt;
    WakesExactly(s);
    var s', d := WakeUp(s), InsertAt(s, s.sleep, s.ticks);
    var i :| 0 <= i < |s.sleep| && s.sleep[i] == x;
    if i < d {
      assert s'.run[|s.run| + i] == x;
    } else {
      assert s'.sleep[i - d] == x;
    }
  }

  lemma CoreSleeps(s: Sched, x: nat)
    requires Core(s) && x in s.sleep
    ensures Sorted(s, s.sleep) && NoDup(s.sleep) && x in s.th
  {
  }

  lemma SleeperTimer(s: Sched, x: nat)
    requires Inv(s) && x in s.sleep
    ensures var s' := Next(s, Timer);
      && s'.ticks == s.ticks + TICK_RATE
      && if T(s, x).wakeAt <= s'.ticks
         then x !in s'.sleep && (x in s'.run || s'.cur == x)
         else x in s'.sleep && T(s', x).wakeAt == T(s, x).wakeAt
  {
    hide Core, CurOk, Switch, WakeUp, Sorted;
    var s1 := s.(ticks := s.ticks + TICK_RATE);
    TickKeeps(s, s.ticks + TICK_RATE);
    CoreSleeps(s1, x);
    SleeperWake(s1, x);
    WakeKeeps(s1);
    SwitchSleep(WakeUp(s1));
    SwitchTicks(WakeUp(s1));
  }

  function Timers(es: seq<Step>): nat {
    if es == [] then 0 else (if es[0].Timer? then 1 else 0) + Timers(es[1..])
  }

  lemma {:induction false} TimersSplit(es: seq<Step>)
    requires es != []
    ensures Timers(es) == Timers(es[..|es| - 1]) + (if es[|es| - 1].Timer? then 1 else 0)
  {
    if |es| > 1 {
      TimersSplit(es[1..]);
      assert es[..|es| - 1][1..] == es[1..][..|es| - 2];
    } else {
      assert es[..0] == [] && es[1..] == [];
    }
  }

  /** A sleeper stays asleep until the timer reaches its wake time. */
  lemma {:induction false} SleepsOn(s: Sched, es: seq<Step>, x: nat)
    requires Inv(s) && Runs(s, es) && x in s.sleep
    requires Timers(es) == 0 || s.ticks + Timers(es) * TICK_RATE < T(s, x).wakeAt
    ensures var s' := After(s, es);
      && Inv(s') && x in s'.sleep && T(s', x).wakeAt == T(s, x).wakeAt
      && s'.ticks == s.ticks + Timers(es) * TICK_RATE
    decreases es
  {
    hide Inv, Enabled, Next;
    if es != [] {
      SleeperStep(s, es[0], x);
      StepKeeps(s, es[0]);
      var n := Timers(es[1..]);
      if es[0].Timer? {
        assert Timers(es) == n + 1;
      }
      SleepsOn(Next(s, es[0]), es[1..], x);
    }
  }

  lemma {:induction false} RunsSplit(s: Sched, es: seq<Step>)
    requires Runs(s, es) && es != []
    ensures var front, e := es[..|es| - 1], es[|es| - 1];
      Runs(s, front) && Enabled(After(s, front), e) && After(s, es) == Next(After(s, front), e)
    decreases es
  {
    hide Enabled, Next;
    if |es| > 1 {
      RunsSplit(Next(s, es[0]), es[1..]);
      assert es[..|es| - 1][1..] == es[1..][..|es| - 2];
    } else {
      assert es[..0] == [] && es[1..] == [];
    }
  }

  /** The timer interrupt number that ends a sleep with d clock ticks to go. */
  function WakeTimer(d: int): nat {
    if d <= 0 then 1 else (d + TICK_RATE - 1) / TICK_RATE
  }

  lemma WakeTimerIsLeast(d: int, n: nat)
    ensures WakeTimer(d) >= 1 && d <= WakeTimer(d) * TICK_RATE
    ensures n < WakeTimer(d) ==> n == 0 || n * TICK_RATE < d
  {
    var k := WakeTimer(d);
    if d > 0 {
      assert TICK_RATE == 11931;
      assert k * 11931 <= d + 11930 < k * 11931 + 11931;
    }
  }

  /** A sleeper is asleep until, and runnable from, exactly the timer interrupt
      that WakeTimer names, whatever other steps happen in between. */
  lemma SleepExactly(s: Sched, es: seq<Step>, x: nat)
    requires Inv(s) && Runs(s, es) && x in s.sleep
    ensures Timers(es) < WakeTimer(T(s, x).wakeAt - s.ticks) ==> x in After(s, es).sleep
    ensures es != [] && es[|es| - 1].Timer? && Timers(es) == WakeTimer(T(s, x).wakeAt - s.ticks) ==>
              var s' := After(s, es); x !in s'.sleep && (x in s'.run || s'.cur == x)
  {
    hide Inv, Enabled, Next, Runs, After, Timers, WakeTimer;
    var d := T(s, x).wakeAt - s.ticks;
    WakeTimerIsLeast(d, Timers(es));
    if Timers(es) < WakeTimer(d) {
      SleepsOn(s, es, x);
    } else if es != [] && es[|es| - 1].Timer? && Timers(es) == WakeTimer(d) {
      WakesAtLast(s, es, x, WakeTimer(d));
    }
  }

  lemma WakesAtLast(s: Sched, es: seq<Step>, x: nat, k: nat)
    requires Inv(s) && Runs(s, es) && x in s.sleep
    requires es != [] && es[|es| - 1].Timer? && Timers(es) == k && k == WakeTimer(T(s, x).wakeAt - s.ticks)
    ensures var s' := After(s, es); x !in s'.sleep && (x in s'.run || s'.cur == x)
  {
    hide Inv, Enabled, Next, Runs, After, Timers, WakeTimer;
    var d := T(s, x).wakeAt - s.ticks;
    var front := es[..|es| - 1];
    RunsSplit(s, es);
    TimersSplit(es);
    WakeTimerIsLeast(d, k - 1);
    SleepsOn(s, front, x);
    assert After(s, front).ticks + TICK_RATE == s.ticks + k * TICK_RATE;
    SleeperStep(After(s, front), Timer, x);
  }

  lemma {:induction false} RunsConcat(s: Sched, a: seq<Step>, b: seq<Step>)
    requires Runs(s, a + b)
    ensures Runs(s, a) && Runs(After(s, a), b) && After(s, a + b) == After(After(s, a), b)
    decreases a
  {
    hide Enabled, Next;
    if a == [] {
      assert a + b == b;
    } else {
      assert (a + b)[1..] == a[1..] + b;
      RunsConcat(Next(s, a[0]), a[1..], b);
    }
  }

  // ------------------------------- interrupts between the wake time and the queue

  /** Along the run x does not put itself on the sleep queue. */
  ghost predicate StillArmed(s: Sched, es: seq<Step>, x: nat)
    requires Runs(s, es)
    decreases es
  {
    es == [] || (!(es[0].Enqueue? && s.cur == x) && StillArmed(Next(s, es[0]), es[1..], x))
  }

  /** x has stored its wake time and is not on the sleep queue yet. */
  ghost predicate ArmedFor(s: Sched, x: nat, w: nat) {
    x in s.th && s.th[x].pc.Armed? && s.th[x].wakeAt == w
  }

  lemma {:induction false} WakeLeavesArmed(s: Sched, x: nat, w: nat)
    requires ArmedFor(s, x, w)
    ensures ArmedFor(WakeUp(s), x, w) && WakeUp(s).ticks == s.ticks
    decreases |s.sleep|
  {
    if s.sleep != [] && T(s, s.sleep[0]).wakeAt <= s.ticks {
      WakeLeavesArmed(Ready(s, s.sleep[0]).(sleep := s.sleep[1..]), x, w);
    }
  }

  lemma SwitchLeavesArmed(s: Sched, x: nat, w: nat)
    requires ArmedFor(s, x, w)
    ensures ArmedFor(Switch(s), x, w) && Switch(s).ticks == s.ticks
  {
  }

  /** An interrupted sleeper keeps its wake time until it runs again. */
  lemma ArmedStep(s: Sched, e: Step, x: nat, w: nat)
    requires Enabled(s, e) && ArmedFor(s, x, w) && !(e.Enqueue? && s.cur == x)
    ensures ArmedFor(Next(s, e), x, w)
    ensures Next(s, e).ticks == s.ticks + (if e.Timer? then TICK_RATE else 0)
  {
    hide WakeUp, Switch;
    if e.Timer? {
      var s1 := s.(ticks := s.ticks + TICK_RATE);
      WakeLeavesArmed(s1, x, w);
      SwitchLeavesArmed(WakeUp(s1), x, w);
    } else if e.Yield? {
      SwitchLeavesArmed(SetPc(s, s.cur, AfterYield(s)), x, w);
    }
  }

  lemma {:induction false} ArmedRun(s: Sched, es: seq<Step>, x: nat, w: nat)
    requires Runs(s, es) && ArmedFor(s, x, w) && StillArmed(s, es, x)
    ensures ArmedFor(After(s, es), x, w) && After(s, es).ticks == s.ticks + Timers(es) * TICK_RATE
    decreases es
  {
    hide Enabled, Next, ArmedFor;
    if es != [] {
      ArmedStep(s, es[0], x, w);
      ArmedRun(Next(s, es[0]), es[1..], x, w);
    }
  }

  function Later(a: int): nat { if a < 1 then 1 else a }

  /** n interrupts before the queue are n interrupts less after it. */
  lemma WakeTimerLess(d: nat, n: nat)
    ensures WakeTimer(d - n * TICK_RATE) == Later(WakeTimer(d) - n)
  {
    var k, j := WakeTimer(d), WakeTimer(d - n * TICK_RATE);
    assert TICK_RATE == 11931;
    if d > 0 { assert k * 11931 <= d + 11930 < k * 11931 + 11931; }
    if d - n * 11931 > 0 { assert j * 11931 <= d - n * 11931 + 11930 < j * 11931 + 11931; }
  }

  lemma EnqueueSleeps(s: Sched, x: nat, w: nat)
    requires Enabled(s, Enqueue) && s.cur == x && ArmedFor(s, x, w)
    ensures var s' := Next(s, Enqueue); x in s'.sleep && s'.ticks == s.ticks && T(s', x).wakeAt == w
  {
    var p := InsertAt(s, s.sleep, w);
    assert Next(s, Enqueue).sleep[p] == x;
  }

  /** A sleep of time lasts this many timer interrupts, at least one: the clock runs at
      1193182 Hz, and an interrupt accounts for 11931 of its ticks. */
  function Interrupts(time: nat): nat {
    if time == 0 then 1 else (time * 1193182 + 11930) / 11931
  }

  lemma InterruptsAre(time: nat)
    ensures WakeTimer(time * PIT_CRYSTAL) == Interrupts(time)
  {
    assert TICK_RATE == 11931;
  }

  /** thread_sleep(time), with any steps es1 between storing the wake time and the
      atomic block that queues the thread: asleep after that until, and runnable
      from, exactly timer interrupt number max(1, k - Timers(es1)) of es2, where k
      is ceil(time * 1193182 / 11931). */
  lemma SleepWindow(s: Sched, time: nat, es1: seq<Step>, es2: seq<Step>)
    requires Inv(s) && Enabled(s, Arm(time)) && Runs(s, [Arm(time)] + es1 + [Enqueue] + es2)
    requires Runs(Next(s, Arm(time)), es1) && StillArmed(Next(s, Arm(time)), es1, s.cur)
    requires After(Next(s, Arm(time)), es1).cur == s.cur
    ensures var s' := After(s, [Arm(time)] + es1 + [Enqueue] + es2);
      var k := Later(Interrupts(time) - Timers(es1));
      && (Timers(es2) < k ==> s.cur in s'.sleep)
      && (es2 != [] && es2[|es2| - 1].Timer? && Timers(es2) == k ==>
            s.cur !in s'.sleep && (s.cur in s'.run || s'.cur == s.cur))
  {
    hide Inv, Enabled, Next, Runs, After, ArmedFor, StillArmed, Timers, WakeTimer, Interrupts, Later, T;
    var x, w, s1 := s.cur, s.ticks + time * PIT_CRYSTAL, Next(s, Arm(time));
    ArmStarts(s, time);
    WindowStates(s, time, es1, es2);
    var s2 := After(s1, es1);
    var s3 := Next(s2, Enqueue);
    StepKeeps(s, Arm(time));
    RunKeeps(s1, es1);
    StepKeeps(s2, Enqueue);
    ArmedRun(s1, es1, x, w);
    EnqueueSleeps(s2, x, w);
    SleepExactly(s3, es2, x);
    WakeTimerLess(time * PIT_CRYSTAL, Timers(es1));
    InterruptsAre(time);
  }

  lemma ArmStarts(s: Sched, time: nat)
    requires Enabled(s, Arm(time))
    ensures var s1 := Next(s, Arm(time));
      ArmedFor(s1, s.cur, s.ticks + time * PIT_CRYSTAL) && s1.ticks == s.ticks && s1.cur == s.cur
  {
  }

  lemma WindowStates(s: Sched, time: nat, es1: seq<Step>, es2: seq<Step>)
    requires Runs(s, [Arm(time)] + es1 + [Enqueue] + es2)
    ensures Enabled(s, Arm(time)) && Runs(Next(s, Arm(time)), es1)
    ensures var s2 := After(Next(s, Arm(time)), es1);
      && Enabled(s2, Enqueue) && Runs(Next(s2, Enqueue), es2)
      && After(s, [Arm(time)] + es1 + [Enqueue] + es2) == After(Next(s2, Enqueue), es2)
  {
    hide Enabled, Next;
    var rest := es1 + ([Enqueue] + es2);
    assert [Arm(time)] + es1 + [Enqueue] + es2 == [Arm(time)] + rest;
    assert ([Arm(time)] + rest)[1..] == rest;
    var s1 := Next(s, Arm(time));
    RunsConcat(s1, es1, [Enqueue] + es2);
    assert ([Enqueue] + es2)[1..] == es2;
  }

  /** The system call runs with interrupts off, so nothing comes in between: it ends
      at exactly timer interrupt number ceil(time * 1193182 / 11931), or 1 when time
      is 0. */
  lemma SleepSyscall(s: Sched, time: nat, es: seq<Step>)
    requires Inv(s) && Enabled(s, Arm(time)) && Runs(s, [Arm(time), Enqueue] + es)
    ensures var s', k := After(s, [Arm(time), Enqueue] + es), Interrupts(time);
      && (Timers(es) < k ==> s.cur in s'.sleep)
      && (es != [] && es[|es| - 1].Timer? && Timers(es) == k ==>
            s.cur !in s'.sleep && (s.cur in s'.run || s'.cur == s.cur))
  {
    hide Inv, Enabled, Next, Runs, After, WakeTimer, Interrupts, Timers, StillArmed, ArmedFor, T;
    ArmStarts(s, time);
    assert [Arm(time)] + [] + [Enqueue] + es == [Arm(time), Enqueue] + es;
    NothingBetween(s, time);
    assert Timers([]) == 0 by { NoTimers(); }
    WakeTimerIsLeast(time * PIT_CRYSTAL, 0);
    InterruptsAre(time);
    SleepWindow(s, time, [], es);
  }

  lemma NoTimers()
    ensures Timers([]) == 0
  {
  }

  lemma NothingBetween(s: Sched, time: nat)
    requires Enabled(s, Arm(time))
    ensures var s1 := Next(s, Arm(time)); Runs(s1, []) && After(s1, []) == s1 && StillArmed(s1, [], s.cur)
  {
  }
}
